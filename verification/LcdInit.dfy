/**
 Power-up.  Whatever state the controller is in, the wire traffic of init brings it to the
 one state from which the calls are understood ("Initializing by Instruction", 4-bit
 interface, in the HD44780U datasheet).
 */
module LcdInit {
  import opened Wrappers
  import opened Hd44780
  import opened LcdImages
  import opened LcdCalls

  /** The nibbles that force 4-bit mode. */
  function WakeImages(ctrl: bv8): seq<bv8> {
    NibbleImages(ctrl, 0x03, false) + (NibbleImages(ctrl, 0x03, false)
    + (NibbleImages(ctrl, 0x03, false) + NibbleImages(ctrl, 0x02, false)))
  }

  function FunctionByte(cfg: Config): bv8 {
    CMD_FUNC | (if cfg.rows > 1 then FUNC_N else 0)
  }

  function SetupImages(ctrl: bv8, cfg: Config): seq<bv8> {
    ByteImages(ctrl, FunctionByte(cfg), false) + (ByteImages(ctrl, CMD_DISPLAY, false)
    + (ByteImages(ctrl, CMD_CLEAR, false) + (ByteImages(ctrl, CMD_ENTRY | ENTRY_ID, false)
    + ByteImages(ctrl, ControlByte(true, false, false), false))))
  }

  function InitImages(ctrl: bv8, cfg: Config): seq<bv8> {
    WakeImages(ctrl) + SetupImages(ctrl, cfg)
  }

  const BOOT_SCREEN := Screen(map[], 0, true, false, false)

  predicate IsFunctionSet(b: bv8) {
    b & 0x80 == 0 && b & 0x40 == 0 && b & 0x20 != 0
  }

  /** Only a function set touches the bus width. */
  lemma WidthAfter(c: Controller, b: bv8)
    ensures Execute(c, b).iface ==
            if IsFunctionSet(b) then (if b & 0x10 != 0 then EightBit else FourBit(None)) else c.iface
  {
  }

  /** A command byte 0x3x selects the 8-bit bus, 0x2x the 4-bit bus. */
  lemma BusWidth(c: Controller, high: bv8, low: bv8)
    requires low <= 0x0F
    ensures var d := Execute(c, (high << 4) | low);
            && (high == 0x03 ==> d.iface == EightBit)
            && (high == 0x02 ==> d.iface == FourBit(None))
  {
    var b := (high << 4) | low;
    WidthAfter(c, b);
    if high == 0x03 {
      assert IsFunctionSet(b) && b & 0x10 != 0;
    } else if high == 0x02 {
      assert IsFunctionSet(b) && b & 0x10 == 0;
    }
  }

  /** The wake-up nibble 3 completing a pending one. */
  lemma WakePending(c: Controller, high: bv8, low: bv8)
    requires c.iface == FourBit(Some(high))
    ensures var d := TakeNibble(c, false, 0x03, low);
            (d.iface == EightBit || d.iface == FourBit(None)) && (high == 0x03 ==> d.iface == EightBit)
  {
    var c1 := c.(iface := FourBit(None));
    var b := (high << 4) | 0x03;
    WidthAfter(c1, b);
    if high == 0x03 {
      assert b == 0x33;
    }
  }

  /** Its effect on the bus width from each of the three situations. */
  lemma WakeNibble(c: Controller, low: bv8)
    ensures var d := TakeNibble(c, false, 0x03, low);
            && (c.iface == EightBit ==> d.iface == EightBit)
            && (c.iface == FourBit(None) ==> d.iface == FourBit(Some(0x03)))
            && (c.iface == FourBit(Some(0x03)) ==> d.iface == EightBit)
            && (c.iface.FourBit? && c.iface.pending.Some? ==> d.iface == EightBit || d.iface == FourBit(None))
  {
    match c.iface
    case EightBit => LowNibble(low); BusWidth(c, 0x03, low & 0x0F);
    case FourBit(None) =>
    case FourBit(Some(high)) => WakePending(c, high, low);
  }

  lemma LowNibble(low: bv8)
    ensures low & 0x0F <= 0x0F
  {
  }

  lemma LastNibble(c: Controller, low: bv8)
    requires c.iface == EightBit
    ensures TakeNibble(c, false, 0x02, low).iface == FourBit(None)
  {
    LowNibble(low);
    BusWidth(c, 0x02, low & 0x0F);
  }

  /**
   Resynchronisation: from any controller state whatever (8-bit bus, 4-bit aligned, 4-bit
   with any nibble pending, any wires, any value on the undriven lines) the nibbles
   3, 3, 3, 2 end in aligned 4-bit mode.
   */
  lemma Resync(p: Panel, ctrl: bv8, noise: nat -> bv8)
    requires IsControl(ctrl)
    ensures Aligned(Feed(p, WakeImages(ctrl), noise))
  {
    var three, two := NibbleImages(ctrl, 0x03, false), NibbleImages(ctrl, 0x02, false);
    FeedConcat(p, three, three + (three + two), noise);
    FeedNibble(p, ctrl, 0x03, false, noise);
    WakeNibble(p.core, noise(p.clock + 1));
    var p1 := Feed(p, three, noise);
    FeedConcat(p1, three, three + two, noise);
    FeedNibble(p1, ctrl, 0x03, false, noise);
    WakeNibble(p1.core, noise(p1.clock + 1));
    var p2 := Feed(p1, three, noise);
    FeedConcat(p2, three, two, noise);
    FeedNibble(p2, ctrl, 0x03, false, noise);
    WakeNibble(p2.core, noise(p2.clock + 1));
    var p3 := Feed(p2, three, noise);
    FeedNibble(p3, ctrl, 0x02, false, noise);
    LastNibble(p3.core, noise(p3.clock + 1));
  }

  lemma FunctionDecodes(c: Controller, cfg: Config)
    ensures Execute(c, FunctionByte(cfg)) == c.(twoLines := cfg.rows > 1, tall := false, iface := FourBit(None))
  {
  }

  /** From an aligned controller the setup bytes give the boot screen. */
  lemma Setup(cfg: Config, p: Panel, ctrl: bv8, noise: nat -> bv8)
    requires IsControl(ctrl) && Aligned(p)
    ensures var q := Feed(p, SetupImages(ctrl, cfg), noise);
            Ready(cfg, q) && View(q.core) == BOOT_SCREEN && !q.core.tall
  {
    var func, off := ByteImages(ctrl, FunctionByte(cfg), false), ByteImages(ctrl, CMD_DISPLAY, false);
    var clear, entry := ByteImages(ctrl, CMD_CLEAR, false), ByteImages(ctrl, CMD_ENTRY | ENTRY_ID, false);
    var show := ByteImages(ctrl, ControlByte(true, false, false), false);
    FeedConcat(p, func, off + (clear + (entry + show)), noise);
    FunctionDecodes(p.core, cfg);
    FeedCommand(p, ctrl, FunctionByte(cfg), p.core.(twoLines := cfg.rows > 1, tall := false), noise);
    var p1 := Feed(p, func, noise);
    FeedConcat(p1, off, clear + (entry + show), noise);
    assert ControlByte(false, false, false) == CMD_DISPLAY;
    ControlRefines(p1, ctrl, false, false, false, noise);
    var p2 := Feed(p1, off, noise);
    FeedConcat(p2, clear, entry + show, noise);
    ClearRefines(p2, ctrl, noise);
    var p3 := Feed(p2, clear, noise);
    FeedConcat(p3, entry, show, noise);
    CommandBytes(p3.core);
    FeedCommand(p3, ctrl, CMD_ENTRY | ENTRY_ID, p3.core.(increment := true, shiftOnWrite := false), noise);
    ControlRefines(Feed(p3, entry, noise), ctrl, true, false, false, noise);
  }

  /** Init from any state whatever: cleared display, address 0, increment, display on, no cursor. */
  lemma InitFromAnyState(cfg: Config, p: Panel, ctrl: bv8, noise: nat -> bv8)
    requires IsControl(ctrl)
    ensures var q := Feed(p, InitImages(ctrl, cfg), noise);
            Ready(cfg, q) && View(q.core) == BOOT_SCREEN && !q.core.tall
  {
    FeedConcat(p, WakeImages(ctrl), SetupImages(ctrl, cfg), noise);
    Resync(p, ctrl, noise);
    Setup(cfg, Feed(p, WakeImages(ctrl), noise), ctrl, noise);
  }

  /** The boot screen, flag by flag and cell by cell. */
  lemma BootScreenIs(cfg: Config, p: Panel, ctrl: bv8, noise: nat -> bv8)
    requires IsControl(ctrl)
    ensures var c := Feed(p, InitImages(ctrl, cfg), noise).core;
            && (forall a :: CellAt(c.ddram, a) == 0x20) && c.ac == 0
            && c.on && !c.cursor && !c.blink && c.increment && !c.shiftOnWrite && c.shift == 0 && !c.inCgram
            && c.iface == FourBit(None) && c.twoLines == (cfg.rows > 1) && !c.tall
  {
    hide Feed, InitImages, IsControl;
    InitFromAnyState(cfg, p, ctrl, noise);
  }

  lemma PrefixFeeds(p: Panel, full: seq<bv8>, j: nat, part: seq<bv8>, noise: nat -> bv8)
    requires j + |part| <= |full| && full[j..j + |part|] == part
    ensures Feed(p, full[..j + |part|], noise) == Feed(Feed(p, full[..j], noise), part, noise)
  {
    hide Feed;
    assert full[..j + |part|] == full[..j] + part;
    FeedConcat(p, full[..j], part, noise);
  }

  /** Where the parts of the traffic of init lie. */
  lemma InitSlices(ctrl: bv8, cfg: Config)
    ensures var full := InitImages(ctrl, cfg);
            && |full| == 28
            && full[..8] == WakeImages(ctrl)
            && full[8..12] == ByteImages(ctrl, FunctionByte(cfg), false)
            && full[12..16] == ByteImages(ctrl, CMD_DISPLAY, false)
            && full[16..20] == ByteImages(ctrl, CMD_CLEAR, false)
            && full[20..24] == ByteImages(ctrl, CMD_ENTRY | ENTRY_ID, false)
            && full[24..28] == ByteImages(ctrl, ControlByte(true, false, false), false)
  {
    var func, off := ByteImages(ctrl, FunctionByte(cfg), false), ByteImages(ctrl, CMD_DISPLAY, false);
    var clear, entry := ByteImages(ctrl, CMD_CLEAR, false), ByteImages(ctrl, CMD_ENTRY | ENTRY_ID, false);
    var show, wake := ByteImages(ctrl, ControlByte(true, false, false), false), WakeImages(ctrl);
    assert |func| == |off| == |clear| == |entry| == |show| == 4 && |wake| == 8;
    assert InitImages(ctrl, cfg) == wake + (func + (off + (clear + (entry + show))));
    hide ByteImages, FunctionByte, ControlByte, WakeImages, InitImages;
  }

  /**
   The order of init, from any state: first the bus is in step, then the line mode is set, then
   the display goes off and stays off while it is cleared and the entry mode is set.
   */
  lemma InitOrder(cfg: Config, p: Panel, ctrl: bv8, noise: nat -> bv8)
    requires IsControl(ctrl)
    ensures |InitImages(ctrl, cfg)| == 28
    ensures var full := InitImages(ctrl, cfg);
            var c8, c12 := Feed(p, full[..8], noise).core, Feed(p, full[..12], noise).core;
            var c16, c20 := Feed(p, full[..16], noise).core, Feed(p, full[..20], noise).core;
            var c24 := Feed(p, full[..24], noise).core;
            && c8.iface == FourBit(None)
            && c12 == c8.(twoLines := cfg.rows > 1, tall := false)
            && c16 == c12.(on := false, cursor := false, blink := false)
            && c20.ddram == map[] && c20.ac == 0 && !c20.on
            && c24 == c20.(increment := true, shiftOnWrite := false)
  {
    var full := InitImages(ctrl, cfg);
    InitSlices(ctrl, cfg);
    Resync(p, ctrl, noise);
    assert ControlByte(false, false, false) == CMD_DISPLAY;
    hide Feed, InitImages, ByteImages, FunctionByte, ControlByte, WakeImages, IsControl;
    var p8 := Feed(p, full[..8], noise);
    PrefixFeeds(p, full, 8, full[8..12], noise);
    FunctionDecodes(p8.core, cfg);
    FeedCommand(p8, ctrl, FunctionByte(cfg), p8.core.(twoLines := cfg.rows > 1, tall := false), noise);
    var p12 := Feed(p, full[..12], noise);
    PrefixFeeds(p, full, 12, full[12..16], noise);
    ControlRefines(p12, ctrl, false, false, false, noise);
    var p16 := Feed(p, full[..16], noise);
    PrefixFeeds(p, full, 16, full[16..20], noise);
    ClearRefines(p16, ctrl, noise);
    var p20 := Feed(p, full[..20], noise);
    PrefixFeeds(p, full, 20, full[20..24], noise);
    CommandBytes(p20.core);
    FeedCommand(p20, ctrl, CMD_ENTRY | ENTRY_ID, p20.core.(increment := true, shiftOnWrite := false), noise);
  }

  /** Init followed by any calls: the display is the meaning of the calls from the boot screen. */
  lemma BootAndRun(cfg: Config, p: Panel, ctrl: bv8, calls: seq<Call>, noise: nat -> bv8)
    requires cfg.Valid() && IsControl(ctrl)
    ensures var q := Feed(p, InitImages(ctrl, cfg) + RunImages(ctrl, cfg, calls), noise);
            Ready(cfg, q) && View(q.core) == Effects(BOOT_SCREEN, cfg, calls)
  {
    FeedConcat(p, InitImages(ctrl, cfg), RunImages(ctrl, cfg, calls), noise);
    InitFromAnyState(cfg, p, ctrl, noise);
    RunRefines(cfg, Feed(p, InitImages(ctrl, cfg), noise), ctrl, calls, noise);
  }

  lemma QuietConcat(ctrl: bv8, a: seq<bv8>, b: seq<bv8>)
    requires QuietWires(ctrl, a) && QuietWires(ctrl, b)
    ensures QuietWires(ctrl, a + b)
  {
  }

  lemma NibbleQuiet(ctrl: bv8, nibble: bv8)
    requires IsControl(ctrl)
    ensures QuietWires(ctrl, NibbleImages(ctrl, nibble, false))
  {
    NibbleImagesWires(ctrl, nibble, false);
    hide NibbleImage, Quiet;
  }

  lemma ByteQuiet(ctrl: bv8, b: bv8)
    requires IsControl(ctrl)
    ensures QuietWires(ctrl, ByteImages(ctrl, b, false))
  {
    ByteImagesWires(ctrl, b, false);
    hide ByteImages, Quiet;
  }

  /** Init, too, keeps RW low and the backlight steady, from its backlight image on. */
  lemma InitWires(ctrl: bv8, cfg: Config)
    requires IsControl(ctrl)
    ensures QuietWires(ctrl, [ctrl] + InitImages(ctrl, cfg))
  {
    assert QuietWires(ctrl, [ctrl]);
    var three, two := NibbleImages(ctrl, 0x03, false), NibbleImages(ctrl, 0x02, false);
    NibbleQuiet(ctrl, 0x03);
    NibbleQuiet(ctrl, 0x02);
    var func, off := ByteImages(ctrl, FunctionByte(cfg), false), ByteImages(ctrl, CMD_DISPLAY, false);
    var clear, entry := ByteImages(ctrl, CMD_CLEAR, false), ByteImages(ctrl, CMD_ENTRY | ENTRY_ID, false);
    var show := ByteImages(ctrl, ControlByte(true, false, false), false);
    ByteQuiet(ctrl, FunctionByte(cfg));
    ByteQuiet(ctrl, CMD_DISPLAY);
    ByteQuiet(ctrl, CMD_CLEAR);
    ByteQuiet(ctrl, CMD_ENTRY | ENTRY_ID);
    ByteQuiet(ctrl, ControlByte(true, false, false));
    hide QuietWires, NibbleImages, ByteImages, FunctionByte, ControlByte, IsControl;
    QuietConcat(ctrl, three, two);
    QuietConcat(ctrl, three, three + two);
    QuietConcat(ctrl, three, three + (three + two));
    QuietConcat(ctrl, entry, show);
    QuietConcat(ctrl, clear, entry + show);
    QuietConcat(ctrl, off, clear + (entry + show));
    QuietConcat(ctrl, func, off + (clear + (entry + show)));
    QuietConcat(ctrl, WakeImages(ctrl), SetupImages(ctrl, cfg));
    QuietConcat(ctrl, [ctrl], InitImages(ctrl, cfg));
  }
}
