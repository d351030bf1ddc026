/**
 The driver's public calls: what each one puts on the wires, and what each one means for
 a user who knows nothing of nibbles, opcodes or the E line.  The main result says that
 feeding the wires to the controller gives the meaning, for every sequence of calls.
 */
module LcdCalls {
  import opened Wrappers
  import opened Hd44780
  import opened LcdImages

  const CMD_CLEAR: bv8 := 0x01
  const CMD_HOME: bv8 := 0x02
  const CMD_ENTRY: bv8 := 0x04
  const CMD_DISPLAY: bv8 := 0x08
  const CMD_FUNC: bv8 := 0x20
  const CMD_DDRAM: bv8 := 0x80
  const ENTRY_ID: bv8 := 0x02
  const DISPLAY_D: bv8 := 0x04
  const DISPLAY_C: bv8 := 0x02
  const DISPLAY_B: bv8 := 0x01
  const FUNC_N: bv8 := 0x08

  /** Panel geometry and backlight polarity; the row tables cover one to four rows. */
  datatype Config = Config(cols: bv8, rows: bv8, blActiveLow: bool) {
    predicate Valid() {
      1 <= rows <= 4
    }
  }

  datatype Call =
    | Clear
    | Home
    | SetCursor(col: bv8, row: bv8)
    | Control(display: bool, cursor: bool, blink: bool)
    | Write(text: seq<bv8>)

  /** Row bases 0x00, 0x40 and, on panels of more than two rows, 0x14 and 0x54. */
  function RowBase(row: bv8, rows: bv8): bv8
    requires row < (if rows > 2 then 4 else 2)
  {
    if row == 0 then 0x00 else if row == 1 then 0x40 else if row == 2 then 0x14 else 0x54
  }

  /** Eight-bit addition, as in the source. */
  function DdramAddr(col: bv8, row: bv8, rows: bv8): bv8
    requires row < (if rows > 2 then 4 else 2)
  {
    RowBase(row, rows) + col
  }

  predicate OnPanel(cfg: Config, col: bv8, row: bv8) {
    row < cfg.rows && col < cfg.cols
  }

  function ControlByte(display: bool, cursor: bool, blink: bool): bv8 {
    CMD_DISPLAY | (if display then DISPLAY_D else 0) | (if cursor then DISPLAY_C else 0)
                | (if blink then DISPLAY_B else 0)
  }

  /** The address a cursor position selects. */
  function CursorAddress(cfg: Config, col: bv8, row: bv8): (a: bv8)
    requires cfg.Valid() && OnPanel(cfg, col, row)
    ensures a & 0x7F == a
  {
    DdramAddr(col, row, cfg.rows) & 0x7F
  }

  /** The pin images of one call; a cursor off the panel writes nothing. */
  function CallImages(ctrl: bv8, cfg: Config, call: Call): seq<bv8>
    requires cfg.Valid()
  {
    match call
    case Clear => ByteImages(ctrl, CMD_CLEAR, false)
    case Home => ByteImages(ctrl, CMD_HOME, false)
    case SetCursor(col, row) =>
      if OnPanel(cfg, col, row)
      then ByteImages(ctrl, CMD_DDRAM | CursorAddress(cfg, col, row), false)
      else []
    case Control(d, c, b) => ByteImages(ctrl, ControlByte(d, c, b), false)
    case Write(s) => TextImages(ctrl, s)
  }

  function RunImages(ctrl: bv8, cfg: Config, calls: seq<Call>): seq<bv8>
    requires cfg.Valid()
  {
    if calls == [] then [] else CallImages(ctrl, cfg, calls[0]) + RunImages(ctrl, cfg, calls[1..])
  }

  /** What a user of the driver sees. */
  datatype Screen = Screen(ddram: Ram, ac: bv8, on: bool, cursor: bool, blink: bool)

  function PutChar(scr: Screen, ch: bv8, twoLines: bool): Screen {
    scr.(ddram := scr.ddram[scr.ac as int := ch], ac := AddressAfter(scr.ac, twoLines))
  }

  function PutText(scr: Screen, s: seq<bv8>, twoLines: bool): Screen
    decreases |s|
  {
    if s == [] then scr else PutText(PutChar(scr, s[0], twoLines), s[1..], twoLines)
  }

  /** The meaning of one call. */
  function Effect(scr: Screen, cfg: Config, call: Call): Screen
    requires cfg.Valid()
  {
    match call
    case Clear => scr.(ddram := map[], ac := 0)
    case Home => scr.(ac := 0)
    case SetCursor(col, row) =>
      if OnPanel(cfg, col, row) then scr.(ac := CursorAddress(cfg, col, row)) else scr
    case Control(d, c, b) => scr.(on := d, cursor := c, blink := b)
    case Write(s) => PutText(scr, s, cfg.rows > 1)
  }

  function Effects(scr: Screen, cfg: Config, calls: seq<Call>): Screen
    requires cfg.Valid()
    decreases |calls|
  {
    if calls == [] then scr else Effects(Effect(scr, cfg, calls[0]), cfg, calls[1..])
  }

  function View(c: Controller): Screen {
    Screen(c.ddram, c.ac, c.on, c.cursor, c.blink)
  }

  /** The state in which init leaves the panel and every call keeps it. */
  predicate Ready(cfg: Config, p: Panel) {
    && Aligned(p)
    && p.core.twoLines == (cfg.rows > 1)
    && p.core.increment && !p.core.shiftOnWrite && !p.core.inCgram && p.core.shift == 0
  }

  lemma {:induction false} FeedText(cfg: Config, p: Panel, ctrl: bv8, s: seq<bv8>, noise: nat -> bv8)
    requires IsControl(ctrl) && Ready(cfg, p)
    ensures var q := Feed(p, TextImages(ctrl, s), noise);
            Ready(cfg, q) && View(q.core) == PutText(View(p.core), s, cfg.rows > 1)
    decreases |s|
  {
    if s != [] {
      FeedConcat(p, ByteImages(ctrl, s[0], true), TextImages(ctrl, s[1..]), noise);
      FeedByte(p, ctrl, s[0], true, noise);
      FeedText(cfg, Feed(p, ByteImages(ctrl, s[0], true), noise), ctrl, s[1..], noise);
    }
  }

  /** The opcodes decode to what they are named for. */
  lemma CommandBytes(c: Controller)
    ensures Execute(c, CMD_CLEAR) == c.(ddram := map[], inCgram := false, ac := 0, shift := 0, increment := true)
    ensures Execute(c, CMD_HOME) == c.(inCgram := false, ac := 0, shift := 0)
    ensures Execute(c, CMD_ENTRY | ENTRY_ID) == c.(increment := true, shiftOnWrite := false)
  {
  }

  lemma ControlDecodes(c: Controller, d: bool, cu: bool, b: bool)
    ensures Execute(c, ControlByte(d, cu, b)) == c.(on := d, cursor := cu, blink := b)
  {
    var v := ControlByte(d, cu, b);
    assert v & 0xF0 == 0 && v & 0x08 != 0;
    assert (v & 0x04 != 0 <==> d) && (v & 0x02 != 0 <==> cu) && (v & 0x01 != 0 <==> b);
  }

  lemma AddressDecodes(c: Controller, addr: bv8)
    requires addr & 0x7F == addr
    ensures Execute(c, CMD_DDRAM | addr) == c.(inCgram := false, ac := addr)
  {
    var v := CMD_DDRAM | addr;
    assert v & 0x80 != 0 && v & 0x7F == addr;
  }

  /** A command byte runs on the controller and leaves it aligned. */
  lemma FeedCommand(p: Panel, ctrl: bv8, b: bv8, core: Controller, noise: nat -> bv8)
    requires IsControl(ctrl) && Aligned(p)
    requires Execute(p.core, b) == core && core.iface == FourBit(None)
    ensures var q := Feed(p, ByteImages(ctrl, b, false), noise); Aligned(q) && q.core == core
  {
    FeedByte(p, ctrl, b, false, noise);
  }

  lemma AddressRefines(cfg: Config, p: Panel, ctrl: bv8, addr: bv8, noise: nat -> bv8)
    requires IsControl(ctrl) && Ready(cfg, p) && addr & 0x7F == addr
    ensures var q := Feed(p, ByteImages(ctrl, CMD_DDRAM | addr, false), noise);
            Ready(cfg, q) && View(q.core) == View(p.core).(ac := addr)
  {
    AddressDecodes(p.core, addr);
    FeedCommand(p, ctrl, CMD_DDRAM | addr, p.core.(ac := addr), noise);
  }

  lemma AddressBits(cfg: Config, col: bv8, row: bv8)
    requires cfg.Valid() && OnPanel(cfg, col, row)
    ensures CursorAddress(cfg, col, row) & 0x7F == CursorAddress(cfg, col, row)
  {
  }

  lemma CursorRefines(cfg: Config, p: Panel, ctrl: bv8, col: bv8, row: bv8, noise: nat -> bv8)
    requires cfg.Valid() && IsControl(ctrl) && Ready(cfg, p)
    ensures var q := Feed(p, CallImages(ctrl, cfg, SetCursor(col, row)), noise);
            Ready(cfg, q) && View(q.core) == Effect(View(p.core), cfg, SetCursor(col, row))
  {
    hide CursorAddress, ByteImages, IsControl;
    if OnPanel(cfg, col, row) {
      AddressBits(cfg, col, row);
      AddressRefines(cfg, p, ctrl, CursorAddress(cfg, col, row), noise);
    } else {
      FeedNothing(p, noise);
    }
  }

  lemma FeedNothing(p: Panel, noise: nat -> bv8)
    ensures Feed(p, [], noise) == p
  {
  }

  lemma ControlRefines(p: Panel, ctrl: bv8, d: bool, cu: bool, b: bool, noise: nat -> bv8)
    requires IsControl(ctrl) && Aligned(p)
    ensures var q := Feed(p, ByteImages(ctrl, ControlByte(d, cu, b), false), noise);
            Aligned(q) && q.core == p.core.(on := d, cursor := cu, blink := b)
  {
    ControlDecodes(p.core, d, cu, b);
    FeedCommand(p, ctrl, ControlByte(d, cu, b), p.core.(on := d, cursor := cu, blink := b), noise);
  }

  lemma ClearRefines(p: Panel, ctrl: bv8, noise: nat -> bv8)
    requires IsControl(ctrl) && Aligned(p)
    ensures var q := Feed(p, ByteImages(ctrl, CMD_CLEAR, false), noise);
            && Aligned(q)
            && q.core == p.core.(ddram := map[], inCgram := false, ac := 0, shift := 0, increment := true)
  {
    CommandBytes(p.core);
    FeedCommand(p, ctrl, CMD_CLEAR,
                p.core.(ddram := map[], inCgram := false, ac := 0, shift := 0, increment := true), noise);
  }

  lemma HomeRefines(p: Panel, ctrl: bv8, noise: nat -> bv8)
    requires IsControl(ctrl) && Aligned(p)
    ensures var q := Feed(p, ByteImages(ctrl, CMD_HOME, false), noise);
            Aligned(q) && q.core == p.core.(inCgram := false, ac := 0, shift := 0)
  {
    CommandBytes(p.core);
    FeedCommand(p, ctrl, CMD_HOME, p.core.(inCgram := false, ac := 0, shift := 0), noise);
  }

  /** One call: the wires do to the controller what the call means, and leave it ready. */
  lemma CallRefines(cfg: Config, p: Panel, ctrl: bv8, call: Call, noise: nat -> bv8)
    requires cfg.Valid() && IsControl(ctrl) && Ready(cfg, p)
    ensures var q := Feed(p, CallImages(ctrl, cfg, call), noise);
            Ready(cfg, q) && View(q.core) == Effect(View(p.core), cfg, call)
  {
    match call
    case Clear => ClearRefines(p, ctrl, noise);
    case Home => HomeRefines(p, ctrl, noise);
    case SetCursor(col, row) => CursorRefines(cfg, p, ctrl, col, row, noise);
    case Control(d, cu, b) => ControlRefines(p, ctrl, d, cu, b, noise);
    case Write(s) => FeedText(cfg, p, ctrl, s, noise);
  }

  /**
   What each call means, in plain terms: which cells change, where the cursor goes, which flags
   are set, and that a position outside the geometry changes nothing.
   */
  lemma EffectMeaning(scr: Screen, cfg: Config, call: Call)
    requires cfg.Valid()
    ensures var scr' := Effect(scr, cfg, call);
            match call
            case Clear => (forall a :: CellAt(scr'.ddram, a) == 0x20) && scr'.ac == 0 && SameFlags(scr, scr')
            case Home => scr'.ddram == scr.ddram && scr'.ac == 0 && SameFlags(scr, scr')
            case SetCursor(col, row) =>
              && scr'.ddram == scr.ddram && SameFlags(scr, scr')
              && (row < cfg.rows && col < cfg.cols ==> scr'.ac == TableAddress(col, row))
              && (row >= cfg.rows || col >= cfg.cols ==> scr'.ac == scr.ac)
            case Control(on, cursor, blink) =>
              scr'.ddram == scr.ddram && scr'.ac == scr.ac && scr'.on == on && scr'.cursor == cursor && scr'.blink == blink
            case Write(text) =>
              && SameFlags(scr, scr') && (text == [] ==> scr' == scr)
              && (|text| == 1 ==>
                    scr'.ddram == scr.ddram[scr.ac as int := text[0]] && scr'.ac == AddressAfter(scr.ac, cfg.rows > 1))
  {
    hide Effect, PutText, PutChar, OnPanel, CursorAddress, TableAddress, AddressAfter, CellAt, SameFlags;
    match call
    case Clear => PlainEffects(scr, cfg);
    case Home => PlainEffects(scr, cfg);
    case SetCursor(col, row) => CursorEffect(scr, cfg, col, row);
    case Control(on, cursor, blink) => ControlEffect(scr, cfg, on, cursor, blink);
    case Write(text) => WriteEffect(scr, cfg, text);
  }

  lemma PlainEffects(scr: Screen, cfg: Config)
    requires cfg.Valid()
    ensures var scr' := Effect(scr, cfg, Clear);
            (forall a :: CellAt(scr'.ddram, a) == 0x20) && scr'.ac == 0 && SameFlags(scr, scr')
    ensures var scr' := Effect(scr, cfg, Home);
            scr'.ddram == scr.ddram && scr'.ac == 0 && SameFlags(scr, scr')
  {
  }

  lemma ControlEffect(scr: Screen, cfg: Config, on: bool, cursor: bool, blink: bool)
    requires cfg.Valid()
    ensures var scr' := Effect(scr, cfg, Control(on, cursor, blink));
            scr'.ddram == scr.ddram && scr'.ac == scr.ac && scr'.on == on && scr'.cursor == cursor && scr'.blink == blink
  {
  }

  lemma WriteEffect(scr: Screen, cfg: Config, text: seq<bv8>)
    requires cfg.Valid()
    ensures var scr' := Effect(scr, cfg, Write(text));
            && SameFlags(scr, scr') && (text == [] ==> scr' == scr)
            && (|text| == 1 ==>
                  scr'.ddram == scr.ddram[scr.ac as int := text[0]] && scr'.ac == AddressAfter(scr.ac, cfg.rows > 1))
  {
    hide PutChar, AddressAfter;
    PutTextFlags(scr, text, cfg.rows > 1);
    if |text| == 1 { OneChar(scr, text, cfg.rows > 1); }
  }

  lemma CursorEffect(scr: Screen, cfg: Config, col: bv8, row: bv8)
    requires cfg.Valid()
    ensures var scr' := Effect(scr, cfg, SetCursor(col, row));
            && scr'.ddram == scr.ddram && SameFlags(scr, scr')
            && (row < cfg.rows && col < cfg.cols ==> scr'.ac == TableAddress(col, row))
            && (row >= cfg.rows || col >= cfg.cols ==> scr'.ac == scr.ac)
  {
    hide CursorAddress, TableAddress, OnPanel;
    InRange(cfg, col, row);
    if OnPanel(cfg, col, row) { CursorIsTable(cfg, col, row); }
  }

  lemma InRange(cfg: Config, col: bv8, row: bv8)
    ensures row < cfg.rows && col < cfg.cols ==> OnPanel(cfg, col, row)
    ensures row >= cfg.rows || col >= cfg.cols ==> !OnPanel(cfg, col, row)
  {
  }

  lemma OneChar(scr: Screen, s: seq<bv8>, twoLines: bool)
    requires |s| == 1
    ensures PutText(scr, s, twoLines) == PutChar(scr, s[0], twoLines)
    ensures PutChar(scr, s[0], twoLines).ddram == scr.ddram[scr.ac as int := s[0]]
    ensures PutChar(scr, s[0], twoLines).ac == AddressAfter(scr.ac, twoLines)
  {
    assert s[1..] == [];
  }

  /** The four row starts and the column, cut to seven bits, whatever the geometry. */
  function TableAddress(col: bv8, row: bv8): bv8 {
    ((if row == 0 then 0x00 else if row == 1 then 0x40 else if row == 2 then 0x14 else 0x54) + col) & 0x7F
  }

  lemma CursorIsTable(cfg: Config, col: bv8, row: bv8)
    requires cfg.Valid() && OnPanel(cfg, col, row)
    ensures CursorAddress(cfg, col, row) == TableAddress(col, row)
  {
  }

  lemma TableRows(col: bv8)
    requires col < 20
    ensures TableAddress(col, 0) == col && TableAddress(col, 1) == 0x40 + col
    ensures TableAddress(col, 2) == 0x14 + col && TableAddress(col, 3) == 0x54 + col
  {
  }

  predicate SameFlags(c: Screen, d: Screen) {
    d.on == c.on && d.cursor == c.cursor && d.blink == c.blink
  }

  lemma {:induction false} PutTextFlags(scr: Screen, s: seq<bv8>, twoLines: bool)
    ensures var scr' := PutText(scr, s, twoLines);
            scr'.on == scr.on && scr'.cursor == scr.cursor && scr'.blink == scr.blink
    decreases |s|
  {
    if s != [] { PutTextFlags(PutChar(scr, s[0], twoLines), s[1..], twoLines); }
  }

  /** The end-to-end refinement, from the pin trace of any sequence of calls to the screen. */
  lemma {:induction false} RunRefines(cfg: Config, p: Panel, ctrl: bv8, calls: seq<Call>, noise: nat -> bv8)
    requires cfg.Valid() && IsControl(ctrl) && Ready(cfg, p)
    ensures var q := Feed(p, RunImages(ctrl, cfg, calls), noise);
            Ready(cfg, q) && View(q.core) == Effects(View(p.core), cfg, calls)
    decreases |calls|
  {
    if calls != [] {
      var images := CallImages(ctrl, cfg, calls[0]);
      FeedConcat(p, images, RunImages(ctrl, cfg, calls[1..]), noise);
      CallRefines(cfg, p, ctrl, calls[0], noise);
      RunRefines(cfg, Feed(p, images, noise), ctrl, calls[1..], noise);
    }
  }

  /** Every image has RW low and the backlight line as cached. */
  predicate QuietWires(ctrl: bv8, images: seq<bv8>) {
    forall k :: 0 <= k < |images| ==> Quiet(ctrl, images[k])
  }

  lemma {:induction false} TextWires(ctrl: bv8, s: seq<bv8>)
    requires IsControl(ctrl)
    ensures QuietWires(ctrl, TextImages(ctrl, s)) && |TextImages(ctrl, s)| == 4 * |s|
  {
    if s != [] {
      ByteImagesWires(ctrl, s[0], true);
      TextWires(ctrl, s[1..]);
    }
  }

  lemma CallWires(ctrl: bv8, cfg: Config, call: Call)
    requires cfg.Valid() && IsControl(ctrl)
    ensures QuietWires(ctrl, CallImages(ctrl, cfg, call))
  {
    hide ByteImages, CursorAddress, ControlByte, IsControl, Quiet;
    match call
    case Clear => ByteImagesWires(ctrl, CMD_CLEAR, false);
    case Home => ByteImagesWires(ctrl, CMD_HOME, false);
    case SetCursor(col, row) =>
      if OnPanel(cfg, col, row) { ByteImagesWires(ctrl, CMD_DDRAM | CursorAddress(cfg, col, row), false); }
    case Control(d, c, b) => ByteImagesWires(ctrl, ControlByte(d, c, b), false);
    case Write(s) => TextWires(ctrl, s);
  }

  /** Throughout any sequence of calls RW stays low and the backlight never flickers. */
  lemma {:induction false} RunWires(ctrl: bv8, cfg: Config, calls: seq<Call>)
    requires cfg.Valid() && IsControl(ctrl)
    ensures QuietWires(ctrl, RunImages(ctrl, cfg, calls))
  {
    if calls != [] {
      CallWires(ctrl, cfg, calls[0]);
      RunWires(ctrl, cfg, calls[1..]);
    }
  }
}
