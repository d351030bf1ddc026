/**
 The driver itself, in the form of the source: a device object that composes the control
 byte in place, pushes images over a bus whose transfers may fail, and takes a lock.  The
 environment chooses the return code of every transfer; a code is zero or negative.
 */
module LcdDriver {
  import opened Hd44780
  import opened LcdImages
  import opened LcdCalls
  import opened LcdInit

  const EIO: bv32 := 0xFFFF_FFFB       // -5
  const ENODEV: bv32 := 0xFFFF_FFED    // -19
  const EINVAL: bv32 := 0xFFFF_FFEA    // -22

  predicate Negative(r: bv32) {
    r & 0x8000_0000 != 0
  }

  predicate IsCode(r: bv32) {
    r == 0 || Negative(r)
  }

  /** Accumulating two's-complement codes with `or` loses no failure and invents none. */
  lemma OrCodes(a: bv32, b: bv32)
    requires IsCode(a) && IsCode(b)
    ensures IsCode(a | b) && (a | b == 0 <==> a == 0 && b == 0) && (Negative(a | b) <==> a != 0 || b != 0)
  {
  }

  /** One transfer: the image sent and the code the bus returned. */
  datatype Attempt = Attempt(image: bv8, code: bv32)

  type Codes = nat -> bv32

  function Attempts(images: seq<bv8>, codes: Codes, start: nat): seq<Attempt> {
    seq(|images|, i requires 0 <= i < |images| => Attempt(images[i], codes(start + i)))
  }

  lemma AttemptsLength(images: seq<bv8>, codes: Codes, start: nat)
    ensures |Attempts(images, codes, start)| == |images|
  {
  }

  lemma AttemptsConcat(a: seq<bv8>, b: seq<bv8>, codes: Codes, start: nat)
    ensures Attempts(a + b, codes, start) == Attempts(a, codes, start) + Attempts(b, codes, start + |a|)
  {
  }

  ghost predicate AllOk(codes: Codes, start: nat, n: nat) {
    forall i :: start <= i < start + n ==> codes(i) == 0
  }

  lemma AllOkSplit(codes: Codes, start: nat, a: nat, b: nat)
    ensures AllOk(codes, start, 0)
    ensures AllOk(codes, start, a + b) <==> AllOk(codes, start, a) && AllOk(codes, start + a, b)
  {
  }

  /** What reaches the expander: the images of the transfers that succeeded. */
  function Delivered(log: seq<Attempt>): seq<bv8> {
    if log == [] then []
    else (if log[0].code == 0 then [log[0].image] else []) + Delivered(log[1..])
  }

  lemma {:induction false} DeliveredAll(images: seq<bv8>, codes: Codes, start: nat)
    requires AllOk(codes, start, |images|)
    ensures Delivered(Attempts(images, codes, start)) == images
  {
    if images != [] {
      assert codes(start) == 0;
      assert Attempts(images, codes, start)[1..] == Attempts(images[1..], codes, start + 1);
      DeliveredAll(images[1..], codes, start + 1);
    }
  }

  class Bus {
    const codes: Codes
    var log: seq<Attempt>

    ghost predicate Valid() {
      forall i :: IsCode(codes(i))
    }

    constructor (codes: Codes)
      requires forall i :: IsCode(codes(i))
      ensures Valid() && this.codes == codes && log == []
    {
      this.codes := codes;
      log := [];
    }

    method Transfer(image: bv8) returns (r: bv32)
      requires Valid()
      modifies this
      ensures log == old(log) + Attempts([image], codes, |old(log)|)
      ensures IsCode(r) && (r == 0 <==> AllOk(codes, |old(log)|, 1))
    {
      r := codes(|log|);
      log := log + [Attempt(image, r)];
      assert Attempts([image], codes, |old(log)|) == [Attempt(image, r)];
    }
  }

  /** The write stopped at character i: everything before it arrived, its own images did not all. */
  ghost predicate StoppedAt(before: seq<Attempt>, after: seq<Attempt>, codes: Codes,
                            ctrl: bv8, s: seq<bv8>, i: nat)
  {
    && i < |s|
    && after == before + Attempts(TextImages(ctrl, s[..i + 1]), codes, |before|)
    && AllOk(codes, |before|, 4 * i)
    && !AllOk(codes, |before| + 4 * i, 4)
  }

  function BacklightByte(cfg: Config, on: bool): bv8 {
    if on != cfg.blActiveLow then P_BL else 0
  }

  lemma {:induction false} TextImagesSnoc(ctrl: bv8, s: seq<bv8>, i: nat)
    requires i < |s|
    ensures TextImages(ctrl, s[..i + 1]) == TextImages(ctrl, s[..i]) + ByteImages(ctrl, s[i], true)
    decreases i
  {
    if i == 0 {
      assert s[..1] == [s[0]] && s[..0] == [];
      assert TextImages(ctrl, [s[0]]) == ByteImages(ctrl, s[0], true) + TextImages(ctrl, []);
    } else {
      assert s[..i + 1][1..] == s[1..][..i] && s[..i][1..] == s[1..][..i - 1];
      TextImagesSnoc(ctrl, s[1..], i - 1);
    }
  }

  lemma {:induction false} TextLength(ctrl: bv8, s: seq<bv8>)
    ensures |TextImages(ctrl, s)| == 4 * |s|
  {
    if s != [] { TextLength(ctrl, s[1..]); }
  }

  /** The log after the first i characters of a write. */
  ghost function LogAfter(before: seq<Attempt>, codes: Codes, ctrl: bv8, s: seq<bv8>, i: nat): seq<Attempt>
    requires i <= |s|
  {
    before + Attempts(TextImages(ctrl, s[..i]), codes, |before|)
  }

  /** The attempts of one more character follow those of the characters before it. */
  lemma TextStep(before: seq<Attempt>, codes: Codes, ctrl: bv8, s: seq<bv8>, i: nat)
    requires i < |s|
    ensures |LogAfter(before, codes, ctrl, s, i)| == |before| + 4 * i
    ensures LogAfter(before, codes, ctrl, s, i + 1)
            == LogAfter(before, codes, ctrl, s, i) + Attempts(ByteImages(ctrl, s[i], true), codes, |before| + 4 * i)
  {
    TextLength(ctrl, s[..i]);
    TextImagesSnoc(ctrl, s, i);
    AttemptsConcat(TextImages(ctrl, s[..i]), ByteImages(ctrl, s[i], true), codes, |before|);
  }

  lemma LogEnds(before: seq<Attempt>, codes: Codes, ctrl: bv8, s: seq<bv8>)
    ensures LogAfter(before, codes, ctrl, s, 0) == before
    ensures LogAfter(before, codes, ctrl, s, |s|) == before + Attempts(TextImages(ctrl, s), codes, |before|)
  {
    assert s[..|s|] == s;
  }

  lemma Stops(before: seq<Attempt>, after: seq<Attempt>, codes: Codes, ctrl: bv8, s: seq<bv8>, i: nat)
    requires i < |s| && after == LogAfter(before, codes, ctrl, s, i + 1)
    requires AllOk(codes, |before|, 4 * i) && !AllOk(codes, |before| + 4 * i, 4)
    ensures StoppedAt(before, after, codes, ctrl, s, i) && !AllOk(codes, |before|, 4 * |s|)
  {
    AllOkSplit(codes, |before|, 4 * i, 4);
    AllOkSplit(codes, |before|, 4 * (i + 1), 4 * (|s| - i - 1));
  }

  /** Everything init sends: the backlight image, then the wake-up and setup traffic. */
  function BootImages(ctrl: bv8, cfg: Config): seq<bv8> {
    [ctrl] + InitImages(ctrl, cfg)
  }

  lemma PartLengths(ctrl: bv8, b: bv8)
    ensures |NibbleImages(ctrl, b, false)| == 2 && |ByteImages(ctrl, b, false)| == 4
  {
    hide NibbleImage;
  }

  lemma WakeParts(ctrl: bv8)
    ensures var w := WakeImages(ctrl);
            && |w| == 8
            && w[0..2] == w[2..4] == w[4..6] == NibbleImages(ctrl, 0x03, false)
            && w[6..8] == NibbleImages(ctrl, 0x02, false)
  {
    PartLengths(ctrl, 0x03);
    PartLengths(ctrl, 0x02);
    hide NibbleImages;
  }

  lemma SetupParts(ctrl: bv8, cfg: Config)
    ensures var w := SetupImages(ctrl, cfg);
            && |w| == 20
            && w[0..4] == ByteImages(ctrl, FunctionByte(cfg), false)
            && w[4..8] == ByteImages(ctrl, CMD_DISPLAY, false)
            && w[8..12] == ByteImages(ctrl, CMD_CLEAR, false)
            && w[12..16] == ByteImages(ctrl, CMD_ENTRY | ENTRY_ID, false)
            && w[16..20] == ByteImages(ctrl, ControlByte(true, false, false), false)
  {
    PartLengths(ctrl, FunctionByte(cfg));
    PartLengths(ctrl, CMD_DISPLAY);
    PartLengths(ctrl, CMD_CLEAR);
    PartLengths(ctrl, CMD_ENTRY | ENTRY_ID);
    PartLengths(ctrl, ControlByte(true, false, false));
    hide ByteImages, FunctionByte, ControlByte;
  }

  /** Where the parts of the boot traffic lie. */
  lemma BootParts(ctrl: bv8, cfg: Config)
    ensures var full := BootImages(ctrl, cfg);
            && |full| == 29
            && full[1..3] == full[3..5] == full[5..7] == NibbleImages(ctrl, 0x03, false)
            && full[7..9] == NibbleImages(ctrl, 0x02, false)
            && full[9..13] == ByteImages(ctrl, FunctionByte(cfg), false)
            && full[13..17] == ByteImages(ctrl, CMD_DISPLAY, false)
            && full[17..21] == ByteImages(ctrl, CMD_CLEAR, false)
            && full[21..25] == ByteImages(ctrl, CMD_ENTRY | ENTRY_ID, false)
            && full[25..29] == ByteImages(ctrl, ControlByte(true, false, false), false)
  {
    WakeParts(ctrl);
    SetupParts(ctrl, cfg);
    hide NibbleImages, ByteImages, FunctionByte, ControlByte, WakeImages, SetupImages;
    var full, w, u := BootImages(ctrl, cfg), WakeImages(ctrl), SetupImages(ctrl, cfg);
    assert full == [ctrl] + (w + u);
    assert full[1..3] == w[0..2] && full[3..5] == w[2..4] && full[5..7] == w[4..6] && full[7..9] == w[6..8];
    assert full[9..13] == u[0..4] && full[13..17] == u[4..8] && full[17..21] == u[8..12];
    assert full[21..25] == u[12..16] && full[25..29] == u[16..20];
  }

  /** The log once the first k boot images have been attempted. */
  ghost function BootLog(before: seq<Attempt>, codes: Codes, full: seq<bv8>, k: nat): seq<Attempt>
    requires k <= |full|
  {
    before + Attempts(full[..k], codes, |before|)
  }

  /** One more part of the boot traffic. */
  lemma BootStep(before: seq<Attempt>, codes: Codes, full: seq<bv8>, k: nat, part: seq<bv8>)
    requires 1 <= k && k + |part| <= |full| && full[k..k + |part|] == part
    requires AllOk(codes, |before| + 1, k - 1)
    ensures |BootLog(before, codes, full, k)| == |before| + k
    ensures BootLog(before, codes, full, k) + Attempts(part, codes, |before| + k)
            == BootLog(before, codes, full, k + |part|)
    ensures if AllOk(codes, |before| + k, |part|) then AllOk(codes, |before| + 1, k + |part| - 1)
            else !AllOk(codes, |before| + 1, |full| - 1)
  {
    hide Attempts, AllOk;
    assert full[..k] + part == full[..k + |part|];
    AttemptsLength(full[..k], codes, |before|);
    AttemptsConcat(full[..k], part, codes, |before|);
    AllOkSplit(codes, |before| + 1, k - 1, |part|);
    AllOkSplit(codes, |before| + 1, k + |part| - 1, |full| - k - |part|);
  }

  /** The first k boot images have been attempted, and all but the backlight's arrived. */
  ghost predicate BootAt(before: seq<Attempt>, log: seq<Attempt>, codes: Codes, full: seq<bv8>, k: nat) {
    && 1 <= k <= |full|
    && log == BootLog(before, codes, full, k)
    && AllOk(codes, |before| + 1, k - 1)
  }

  /** The backlight image has been attempted; whether it arrived does not matter. */
  lemma BootBegins(before: seq<Attempt>, log: seq<Attempt>, codes: Codes, ctrl: bv8, cfg: Config)
    requires log == before + Attempts([ctrl], codes, |before|)
    ensures BootAt(before, log, codes, BootImages(ctrl, cfg), 1)
  {
    hide InitImages;
    assert BootImages(ctrl, cfg)[..1] == [ctrl];
  }

  /** The groups of transfers whose result init looks at: four nibbles, then five bytes. */
  predicate GroupAt(k: nat, size: nat) {
    if size == 2 then k == 1 || k == 3 || k == 5 || k == 7
    else size == 4 && (k == 9 || k == 13 || k == 17 || k == 21 || k == 25)
  }

  /** The group at k is the first, the backlight's aside, that lost a transfer, and the last attempted. */
  ghost predicate FailedGroup(before: seq<Attempt>, log: seq<Attempt>, codes: Codes, full: seq<bv8>,
                              k: nat, size: nat)
  {
    && GroupAt(k, size) && k + size <= |full|
    && AllOk(codes, |before| + 1, k - 1)
    && !AllOk(codes, |before| + k, size)
    && log == BootLog(before, codes, full, k + size)
  }

  ghost predicate BootFailed(before: seq<Attempt>, log: seq<Attempt>, codes: Codes, full: seq<bv8>) {
    exists k: nat, size: nat :: FailedGroup(before, log, codes, full, k, size)
  }

  lemma BootAccount(before: seq<Attempt>, log: seq<Attempt>, log': seq<Attempt>, codes: Codes,
                    full: seq<bv8>, k: nat, part: seq<bv8>)
    requires BootAt(before, log, codes, full, k) && k + |part| <= |full| && full[k..k + |part|] == part
    requires GroupAt(k, |part|)
    requires log' == log + Attempts(part, codes, |log|)
    ensures if AllOk(codes, |log|, |part|) then BootAt(before, log', codes, full, k + |part|)
            else BootFailed(before, log', codes, full)
  {
    BootStep(before, codes, full, k, part);
    if !AllOk(codes, |log|, |part|) {
      assert FailedGroup(before, log', codes, full, k, |part|);
    }
  }

  /** The boot traffic arrived or a group failed, never both. */
  lemma BootOutcome(before: seq<Attempt>, log: seq<Attempt>, codes: Codes, full: seq<bv8>)
    requires |full| == 29
    ensures BootAt(before, log, codes, full, 29) ==> AllOk(codes, |before| + 1, 28)
    ensures BootFailed(before, log, codes, full) ==> !AllOk(codes, |before| + 1, 28)
  {
    if BootFailed(before, log, codes, full) {
      var k: nat, size: nat :| FailedGroup(before, log, codes, full, k, size);
      AllOkSplit(codes, |before| + 1, k - 1, size);
      AllOkSplit(codes, |before| + 1, k + size - 1, 29 - k - size);
    }
  }

  /** The driver's error codes: the negated numbers 5, 19 and 22. */
  lemma ErrorCodes()
    ensures EIO + 5 == 0 && ENODEV + 19 == 0 && EINVAL + 22 == 0
    ensures EIO & 0x8000_0000 != 0 && ENODEV & 0x8000_0000 != 0 && EINVAL & 0x8000_0000 != 0
    ensures IsCode(EIO) && IsCode(ENODEV) && IsCode(EINVAL) && EIO != 0 && ENODEV != 0 && EINVAL != 0
  {
  }

  lemma NothingSent(codes: Codes, start: nat)
    ensures Attempts([], codes, start) == []
    ensures IsCode(EINVAL)
  {
  }

  /** The images of a cursor call, with the table of row starts written out. */
  lemma CursorImages(ctrl: bv8, cfg: Config, col: bv8, row: bv8)
    requires cfg.Valid()
    ensures row >= cfg.rows || col >= cfg.cols ==> CallImages(ctrl, cfg, SetCursor(col, row)) == []
    ensures row < cfg.rows && col < cfg.cols ==>
              && CallImages(ctrl, cfg, SetCursor(col, row)) == ByteImages(ctrl, 0x80 | TableAddress(col, row), false)
              && CMD_DDRAM | CursorAddress(cfg, col, row) == 0x80 | TableAddress(col, row)
  {
    hide ByteImages, TableAddress, CursorAddress, OnPanel;
    InRange(cfg, col, row);
    if OnPanel(cfg, col, row) { CursorIsTable(cfg, col, row); }
  }

  /** The display control byte, flag by flag. */
  method ComposeControl(display: bool, cursor: bool, blink: bool) returns (v: bv8)
    ensures v == ControlByte(display, cursor, blink)
  {
    v := CMD_DISPLAY;
    if display { v := v | DISPLAY_D; }
    if cursor { v := v | DISPLAY_C; }
    if blink { v := v | DISPLAY_B; }
  }

  /** The lock taken or given back, after so many transfers of the bus. */
  datatype LockOp = Taken(at: nat) | Given(at: nat)

  class Driver {
    const cfg: Config
    const bus: Bus
    var ctrl: bv8          // cached control pins: the backlight bit or nothing
    var lockCount: nat     // how often the recursive lock is held
    ghost var lockOps: seq<LockOp>    // when it was taken and given back since init

    ghost predicate Valid()
      reads this`ctrl
    {
      bus.Valid() && cfg.Valid() && IsControl(ctrl)
    }

    constructor (cfg: Config, bus: Bus)
      requires cfg.Valid() && bus.Valid()
      ensures Valid() && this.cfg == cfg && this.bus == bus && ctrl == 0 && lockCount == 0 && lockOps == []
    {
      this.cfg, this.bus, ctrl, lockCount, lockOps := cfg, bus, 0, 0, [];
    }

    method Lock()
      modifies this`lockCount, this`lockOps
      ensures lockCount == old(lockCount) + 1 && lockOps == old(lockOps) + [Taken(|bus.log|)]
    {
      lockCount, lockOps := lockCount + 1, lockOps + [Taken(|bus.log|)];
    }

    method Unlock()
      requires lockCount > 0
      modifies this`lockCount, this`lockOps
      ensures lockCount == old(lockCount) - 1 && lockOps == old(lockOps) + [Given(|bus.log|)]
    {
      lockCount, lockOps := lockCount - 1, lockOps + [Given(|bus.log|)];
    }

    method Strobe(v: bv8) returns (r: bv32)
      requires Valid()
      modifies bus
      ensures bus.log == old(bus.log) + Attempts([v | P_E, v & !P_E], bus.codes, |old(bus.log)|)
      ensures IsCode(r) && (r == 0 <==> AllOk(bus.codes, |old(bus.log)|, 2))
    {
      r := bus.Transfer(v | P_E);
      var r2 := bus.Transfer(v & !P_E);
      OrCodes(r, r2);
      r := r | r2;
      AttemptsConcat([v | P_E], [v & !P_E], bus.codes, |old(bus.log)|);
      assert [v | P_E] + [v & !P_E] == [v | P_E, v & !P_E];
      assert AllOk(bus.codes, |old(bus.log)|, 2)
        <==> AllOk(bus.codes, |old(bus.log)|, 1) && AllOk(bus.codes, |old(bus.log)| + 1, 1);
    }

    /** Sets the register-select and data bits one by one in a copy of the control byte. */
    method Write4(nibble: bv8, rs: bool) returns (r: bv32)
      requires Valid() && nibble <= 0x0F
      modifies bus
      ensures bus.log == old(bus.log) + Attempts(NibbleImages(ctrl, nibble, rs), bus.codes, |old(bus.log)|)
      ensures IsCode(r) && (r == 0 <==> AllOk(bus.codes, |old(bus.log)|, 2))
    {
      var v := ctrl;
      if rs { v := v | P_RS; } else { v := v & !P_RS; }
      if nibble & 0x01 != 0 { v := v | P_D4; } else { v := v & !P_D4; }
      if nibble & 0x02 != 0 { v := v | P_D5; } else { v := v & !P_D5; }
      if nibble & 0x04 != 0 { v := v | P_D6; } else { v := v & !P_D6; }
      if nibble & 0x08 != 0 { v := v | P_D7; } else { v := v & !P_D7; }
      assert v == NibbleImage(ctrl, nibble, rs);
      r := Strobe(v);
    }

    method Send(b: bv8, rs: bool) returns (r: bv32)
      requires Valid()
      modifies bus
      ensures bus.log == old(bus.log) + Attempts(ByteImages(ctrl, b, rs), bus.codes, |old(bus.log)|)
      ensures IsCode(r) && (r == 0 <==> AllOk(bus.codes, |old(bus.log)|, 4))
    {
      ghost var n := |bus.log|;
      r := Write4((b >> 4) & 0x0F, rs);
      var r2 := Write4(b & 0x0F, rs);
      OrCodes(r, r2);
      r := r | r2;
      AttemptsConcat(NibbleImages(ctrl, (b >> 4) & 0x0F, rs), NibbleImages(ctrl, b & 0x0F, rs), bus.codes, n);
      assert AllOk(bus.codes, n, 4) <==> AllOk(bus.codes, n, 2) && AllOk(bus.codes, n + 2, 2);
    }

    /** The result of the transfer is ignored, as in the source. */
    method BacklightApply(on: bool)
      requires Valid()
      modifies this`ctrl, bus
      ensures Valid() && ctrl == BacklightByte(cfg, on)
      ensures ctrl & 0x08 != 0 <==> (on && !cfg.blActiveLow) || (!on && cfg.blActiveLow)
      ensures bus.log == old(bus.log) + Attempts([ctrl], bus.codes, |old(bus.log)|)
    {
      var physOn := on != cfg.blActiveLow;
      if physOn { ctrl := ctrl | P_BL; } else { ctrl := ctrl & !P_BL; }
      var _ := bus.Transfer(ctrl);
    }

    method FnClear() returns (r: bv32)
      requires Valid()
      modifies this`lockCount, this`lockOps, bus
      ensures lockCount == old(lockCount)
      ensures lockOps == old(lockOps) + [Taken(|old(bus.log)|), Given(|bus.log|)]
      ensures bus.log == old(bus.log) + Attempts(CallImages(ctrl, cfg, Clear), bus.codes, |old(bus.log)|)
      ensures IsCode(r) && (r == 0 <==> AllOk(bus.codes, |old(bus.log)|, 4))
    {
      Lock();
      r := Send(CMD_CLEAR, false);
      Unlock();
    }

    method FnHome() returns (r: bv32)
      requires Valid()
      modifies this`lockCount, this`lockOps, bus
      ensures lockCount == old(lockCount)
      ensures lockOps == old(lockOps) + [Taken(|old(bus.log)|), Given(|bus.log|)]
      ensures bus.log == old(bus.log) + Attempts(CallImages(ctrl, cfg, Home), bus.codes, |old(bus.log)|)
      ensures IsCode(r) && (r == 0 <==> AllOk(bus.codes, |old(bus.log)|, 4))
    {
      Lock();
      r := Send(CMD_HOME, false);
      Unlock();
    }

    /** A position off the panel is refused before anything is locked or sent. */
    method FnSetCursor(col: bv8, row: bv8) returns (r: bv32)
      requires Valid()
      modifies this`lockCount, this`lockOps, bus
      ensures lockCount == old(lockCount)
      ensures bus.log == old(bus.log) + Attempts(CallImages(ctrl, cfg, SetCursor(col, row)), bus.codes, |old(bus.log)|)
      ensures IsCode(r)
      ensures row >= cfg.rows || col >= cfg.cols ==>
                r == EINVAL && bus.log == old(bus.log) && lockOps == old(lockOps)
      ensures row < cfg.rows && col < cfg.cols ==>
                && lockOps == old(lockOps) + [Taken(|old(bus.log)|), Given(|bus.log|)]
                && (r == 0 <==> AllOk(bus.codes, |old(bus.log)|, 4))
                && bus.log == old(bus.log)
                              + Attempts(ByteImages(ctrl, 0x80 | TableAddress(col, row), false), bus.codes, |old(bus.log)|)
    {
      hide ByteImages, CallImages, CursorAddress, TableAddress, AllOk, Attempts, Negative, IsControl;
      CursorImages(ctrl, cfg, col, row);
      NothingSent(bus.codes, |bus.log|);
      if row >= cfg.rows { return EINVAL; }
      if col >= cfg.cols { return EINVAL; }
      var addr := CursorAddress(cfg, col, row);
      Lock();
      r := Send(CMD_DDRAM | addr, false);
      Unlock();
    }

    method FnControl(display: bool, cursor: bool, blink: bool) returns (r: bv32)
      requires Valid()
      modifies this`lockCount, this`lockOps, bus
      ensures lockCount == old(lockCount)
      ensures lockOps == old(lockOps) + [Taken(|old(bus.log)|), Given(|bus.log|)]
      ensures bus.log == old(bus.log)
              + Attempts(CallImages(ctrl, cfg, Control(display, cursor, blink)), bus.codes, |old(bus.log)|)
      ensures IsCode(r) && (r == 0 <==> AllOk(bus.codes, |old(bus.log)|, 4))
    {
      hide ByteImages, ControlByte, AllOk, IsControl, Attempts, Negative;
      var v := ComposeControl(display, cursor, blink);
      Lock();
      r := Send(v, false);
      Unlock();
    }

    /** Character i of a write whose earlier characters all arrived. */
    method WriteChar(ghost before: seq<Attempt>, s: seq<bv8>, i: nat) returns (r: bv32)
      requires Valid() && i < |s|
      requires bus.log == LogAfter(before, bus.codes, ctrl, s, i) && AllOk(bus.codes, |before|, 4 * i)
      modifies bus
      ensures IsCode(r)
      ensures if r == 0
              then bus.log == LogAfter(before, bus.codes, ctrl, s, i + 1) && AllOk(bus.codes, |before|, 4 * (i + 1))
              else StoppedAt(before, bus.log, bus.codes, ctrl, s, i) && !AllOk(bus.codes, |before|, 4 * |s|)
    {
      TextStep(before, bus.codes, ctrl, s, i);
      AllOkSplit(bus.codes, |before|, 4 * i, 4);
      hide ByteImages, TextImages, AllOk, IsControl, LogAfter, StoppedAt, Attempts, Negative;
      r := Send(s[i], true);
      if r != 0 { Stops(before, bus.log, bus.codes, ctrl, s, i); }
    }

    /**
     Returns zero iff every transfer succeeded.  Otherwise it stops at the first character
     that failed, and returns with the lock still held.
     */
    method FnWrite(s: seq<bv8>) returns (r: bv32)
      requires Valid()
      modifies this`lockCount, this`lockOps, bus
      ensures IsCode(r) && (r == 0 <==> AllOk(bus.codes, |old(bus.log)|, 4 * |s|))
      ensures r == 0 ==>
                bus.log == old(bus.log) + Attempts(CallImages(ctrl, cfg, Write(s)), bus.codes, |old(bus.log)|)
      ensures r != 0 ==> exists i :: StoppedAt(old(bus.log), bus.log, bus.codes, ctrl, s, i)
      ensures lockCount == old(lockCount) + (if r == 0 then 0 else 1)
      ensures lockOps == old(lockOps) + [Taken(|old(bus.log)|)] + (if r == 0 then [Given(|bus.log|)] else [])
    {
      AllOkSplit(bus.codes, |bus.log|, 0, 0);
      LogEnds(bus.log, bus.codes, ctrl, s);
      assert CallImages(ctrl, cfg, Write(s)) == TextImages(ctrl, s);
      hide ByteImages, TextImages, CallImages, AllOk, IsControl, LogAfter, StoppedAt, Attempts, Negative;
      ghost var before := bus.log;
      Lock();
      var i := 0;
      while i < |s|
        invariant 0 <= i <= |s|
        invariant bus.log == LogAfter(before, bus.codes, ctrl, s, i)
        invariant AllOk(bus.codes, |before|, 4 * i)
        invariant lockCount == old(lockCount) + 1 && lockOps == old(lockOps) + [Taken(|before|)]
      {
        r := WriteChar(before, s, i);
        if r != 0 { return; }
        i := i + 1;
      }
      Unlock();
      r := 0;
    }

    /**
     Brings up the panel.  The backlight transfer is not looked at; any later failure ends
     init with -EIO right after its nibble or byte, and zero means that all the rest arrived.
     */
    method Init(busReady: bool, backlightOnBoot: bool) returns (r: bv32)
      requires Valid()
      modifies this, bus
      ensures Valid()
      ensures !busReady ==> r == ENODEV && bus.log == old(bus.log) && ctrl == old(ctrl) && lockCount == old(lockCount)
      ensures busReady ==> ctrl == BacklightByte(cfg, backlightOnBoot) && lockCount == 0
      ensures busReady ==>
                (ctrl & 0x08 != 0 <==> (backlightOnBoot && !cfg.blActiveLow) || (!backlightOnBoot && cfg.blActiveLow))
      ensures IsCode(r) && (!busReady ==> r != 0)
      ensures busReady ==>
                var full := BootImages(ctrl, cfg);
                if r == 0 then BootAt(old(bus.log), bus.log, bus.codes, full, 29)
                else r == EIO && BootFailed(old(bus.log), bus.log, bus.codes, full)
      ensures busReady ==> (r == 0 <==> AllOk(bus.codes, |old(bus.log)| + 1, 28))
    {
      ErrorCodes();
      if !busReady { return ENODEV; }
      lockCount := 0;
      ctrl := 0;
      ctrl := ctrl & !(P_RW | P_RS | P_E);
      BacklightApply(backlightOnBoot);
      r := BootTraffic(old(bus.log));
      BootParts(ctrl, cfg);
      BootOutcome(old(bus.log), bus.log, bus.codes, BootImages(ctrl, cfg));
    }

    method BootNibble(ghost before: seq<Attempt>, ghost full: seq<bv8>, ghost k: nat, nibble: bv8) returns (r: bv32)
      requires Valid() && nibble <= 0x0F
      requires BootAt(before, bus.log, bus.codes, full, k) && k + 2 <= |full| && GroupAt(k, 2)
      requires full[k..k + 2] == NibbleImages(ctrl, nibble, false)
      modifies bus
      ensures if Negative(r) then BootFailed(before, bus.log, bus.codes, full)
              else BootAt(before, bus.log, bus.codes, full, k + 2)
    {
      ghost var log := bus.log;
      PartLengths(ctrl, nibble);
      hide NibbleImages, BootAt, BootFailed;
      r := Write4(nibble, false);
      BootAccount(before, log, bus.log, bus.codes, full, k, NibbleImages(ctrl, nibble, false));
    }

    method BootByte(ghost before: seq<Attempt>, ghost full: seq<bv8>, ghost k: nat, b: bv8) returns (r: bv32)
      requires Valid()
      requires BootAt(before, bus.log, bus.codes, full, k) && k + 4 <= |full| && GroupAt(k, 4)
      requires full[k..k + 4] == ByteImages(ctrl, b, false)
      modifies bus
      ensures if Negative(r) then BootFailed(before, bus.log, bus.codes, full)
              else BootAt(before, bus.log, bus.codes, full, k + 4)
    {
      ghost var log := bus.log;
      PartLengths(ctrl, b);
      hide ByteImages, BootAt, BootFailed;
      r := Send(b, false);
      BootAccount(before, log, bus.log, bus.codes, full, k, ByteImages(ctrl, b, false));
    }

    method BootClear(ghost before: seq<Attempt>, ghost full: seq<bv8>, ghost k: nat) returns (r: bv32)
      requires Valid()
      requires BootAt(before, bus.log, bus.codes, full, k) && k + 4 <= |full| && GroupAt(k, 4)
      requires full[k..k + 4] == ByteImages(ctrl, CMD_CLEAR, false)
      modifies this`lockCount, this`lockOps, bus
      ensures lockCount == old(lockCount)
      ensures if Negative(r) then BootFailed(before, bus.log, bus.codes, full)
              else BootAt(before, bus.log, bus.codes, full, k + 4)
    {
      ghost var log := bus.log;
      PartLengths(ctrl, CMD_CLEAR);
      hide ByteImages, ControlByte, BootAt, BootFailed;
      r := FnClear();
      BootAccount(before, log, bus.log, bus.codes, full, k, ByteImages(ctrl, CMD_CLEAR, false));
    }

    method BootShow(ghost before: seq<Attempt>, ghost full: seq<bv8>, ghost k: nat) returns (r: bv32)
      requires Valid()
      requires BootAt(before, bus.log, bus.codes, full, k) && k + 4 <= |full| && GroupAt(k, 4)
      requires full[k..k + 4] == ByteImages(ctrl, ControlByte(true, false, false), false)
      modifies this`lockCount, this`lockOps, bus
      ensures lockCount == old(lockCount)
      ensures if Negative(r) then BootFailed(before, bus.log, bus.codes, full)
              else BootAt(before, bus.log, bus.codes, full, k + 4)
    {
      ghost var log := bus.log;
      PartLengths(ctrl, ControlByte(true, false, false));
      hide ByteImages, ControlByte, BootAt, BootFailed;
      r := FnControl(true, false, false);
      BootAccount(before, log, bus.log, bus.codes, full, k, ByteImages(ctrl, ControlByte(true, false, false), false));
    }

    /** The nibbles 3, 3, 3, 2. */
    method BootWake(ghost before: seq<Attempt>, ghost full: seq<bv8>) returns (r: bv32)
      requires Valid()
      requires BootAt(before, bus.log, bus.codes, full, 1) && |full| == 29
      requires full[1..3] == full[3..5] == full[5..7] == NibbleImages(ctrl, 0x03, false)
      requires full[7..9] == NibbleImages(ctrl, 0x02, false)
      modifies bus
      ensures if Negative(r) then BootFailed(before, bus.log, bus.codes, full)
              else BootAt(before, bus.log, bus.codes, full, 9)
    {
      assert GroupAt(1, 2) && GroupAt(3, 2) && GroupAt(5, 2) && GroupAt(7, 2);
      hide *;
      r := BootNibble(before, full, 1, 0x03);
      if Negative(r) { return; }
      r := BootNibble(before, full, 3, 0x03);
      if Negative(r) { return; }
      r := BootNibble(before, full, 5, 0x03);
      if Negative(r) { return; }
      r := BootNibble(before, full, 7, 0x02);
    }

    /** Function set, display off, clear, entry mode, display on. */
    method BootSetup(ghost before: seq<Attempt>, ghost full: seq<bv8>) returns (r: bv32)
      requires Valid()
      requires BootAt(before, bus.log, bus.codes, full, 9) && |full| == 29
      requires full[9..13] == ByteImages(ctrl, FunctionByte(cfg), false)
      requires full[13..17] == ByteImages(ctrl, CMD_DISPLAY, false)
      requires full[17..21] == ByteImages(ctrl, CMD_CLEAR, false)
      requires full[21..25] == ByteImages(ctrl, CMD_ENTRY | ENTRY_ID, false)
      requires full[25..29] == ByteImages(ctrl, ControlByte(true, false, false), false)
      modifies this`lockCount, this`lockOps, bus
      ensures lockCount == old(lockCount)
      ensures if r == 0 then BootAt(before, bus.log, bus.codes, full, 29)
              else r == EIO && BootFailed(before, bus.log, bus.codes, full)
    {
      assert GroupAt(9, 4) && GroupAt(13, 4) && GroupAt(17, 4) && GroupAt(21, 4) && GroupAt(25, 4);
      var func := FunctionByte(cfg);
      hide *;
      r := BootByte(before, full, 9, func);
      if Negative(r) { return EIO; }
      r := BootByte(before, full, 13, CMD_DISPLAY);
      if Negative(r) { return EIO; }
      r := BootClear(before, full, 17);
      if Negative(r) { return EIO; }
      r := BootByte(before, full, 21, CMD_ENTRY | ENTRY_ID);
      if Negative(r) { return EIO; }
      r := BootShow(before, full, 25);
      if Negative(r) { return EIO; }
      return 0;
    }

    /** The wake-up and setup part of init, after the backlight. */
    method BootTraffic(ghost before: seq<Attempt>) returns (r: bv32)
      requires Valid()
      requires bus.log == before + Attempts([ctrl], bus.codes, |before|)
      modifies this`lockCount, this`lockOps, bus
      ensures lockCount == old(lockCount)
      ensures var full := BootImages(ctrl, cfg);
              if r == 0 then BootAt(before, bus.log, bus.codes, full, 29)
              else r == EIO && BootFailed(before, bus.log, bus.codes, full)
    {
      hide BootAt, BootFailed, BootImages, ByteImages, NibbleImages, Attempts, FunctionByte, ControlByte, Negative;
      ghost var full := BootImages(ctrl, cfg);
      BootParts(ctrl, cfg);
      BootBegins(before, bus.log, bus.codes, ctrl, cfg);
      r := BootWake(before, full);
      if Negative(r) { return EIO; }
      r := BootSetup(before, full);
    }
  }

  /**
   What arrived of a write that failed at character i: the controller has received the
   first i characters intact.
   */
  lemma PartialWrite(cfg: Config, p: Panel, before: seq<Attempt>, after: seq<Attempt>, codes: Codes,
                     ctrl: bv8, s: seq<bv8>, i: nat, noise: nat -> bv8)
    requires IsControl(ctrl) && Ready(cfg, p) && StoppedAt(before, after, codes, ctrl, s, i)
    ensures |before| + 4 * i <= |after|
    ensures var q := Feed(p, Delivered(after[|before|..|before| + 4 * i]), noise);
            Ready(cfg, q) && View(q.core) == PutText(View(p.core), s[..i], cfg.rows > 1)
  {
    TextStep(before, codes, ctrl, s, i);
    TextLength(ctrl, s[..i]);
    var images := TextImages(ctrl, s[..i]);
    assert after[|before|..|before| + 4 * i] == Attempts(images, codes, |before|);
    DeliveredAll(images, codes, |before|);
    FeedText(cfg, p, ctrl, s[..i], noise);
  }

  /** Of traffic whose first transfer alone may fail, the rest arrives. */
  lemma DeliveredRest(first: bv8, images: seq<bv8>, codes: Codes, start: nat)
    requires AllOk(codes, start + 1, |images|)
    ensures Delivered(Attempts([first] + images, codes, start))
            == (if codes(start) == 0 then [first] else []) + images
  {
    var all := Attempts([first] + images, codes, start);
    AttemptsConcat([first], images, codes, start);
    assert all == [Attempt(first, codes(start))] + Attempts(images, codes, start + 1);
    assert all[1..] == Attempts(images, codes, start + 1);
    DeliveredAll(images, codes, start + 1);
    hide Attempts, AllOk;
    assert [] + images == images;
  }

  /** What a leading image, arrived or not, does to the panel before the images that follow. */
  lemma FeedRest(p: Panel, first: bv8, arrived: bool, images: seq<bv8>, noise: nat -> bv8) returns (p': Panel)
    ensures Feed(p, (if arrived then [first] else []) + images, noise) == Feed(p', images, noise)
  {
    hide Tick;
    if arrived {
      p' := Feed(p, [first], noise);
      FeedConcat(p, [first], images, noise);
    } else {
      p' := p;
      assert [] + images == images;
    }
  }

  /** A successful init, whatever happened to its backlight image, shows the boot screen. */
  lemma SuccessfulInit(cfg: Config, p: Panel, before: seq<Attempt>, codes: Codes, ctrl: bv8, noise: nat -> bv8)
    requires IsControl(ctrl) && AllOk(codes, |before| + 1, 28)
    ensures |BootImages(ctrl, cfg)| == 29
    ensures var log := BootLog(before, codes, BootImages(ctrl, cfg), 29);
            var q := Feed(p, Delivered(log[|before|..]), noise);
            Ready(cfg, q) && View(q.core) == BOOT_SCREEN
  {
    BootParts(ctrl, cfg);
    var images := InitImages(ctrl, cfg);
    var log := BootLog(before, codes, BootImages(ctrl, cfg), 29);
    assert BootImages(ctrl, cfg)[..29] == [ctrl] + images;
    assert log[|before|..] == Attempts([ctrl] + images, codes, |before|);
    hide Feed, Attempts, InitImages, AllOk, Ready;
    DeliveredRest(ctrl, images, codes, |before|);
    var p' := FeedRest(p, ctrl, codes(|before|) == 0, images, noise);
    InitFromAnyState(cfg, p', ctrl, noise);
  }

  /** A failed write really keeps the lock: on a dead bus, one character is enough. */
  method LockStaysHeld() returns (r: bv32, held: nat)
    ensures r != 0 && held == 1
  {
    var bus := new Bus(_ => EIO);
    var dev := new Driver(Config(16, 2, false), bus);
    r := dev.FnWrite([0x41]);
    assert EIO != 0 && bus.codes(0) == EIO;
    held := dev.lockCount;
  }

  /** And init really succeeds when only its backlight transfer failed. */
  method BacklightMayFail() returns (r: bv32, lost: bool)
    ensures r == 0 && lost
  {
    var codes: Codes := i => if i == 0 then EIO else 0;
    var bus := new Bus(codes);
    var dev := new Driver(Config(16, 2, false), bus);
    r := dev.Init(true, true);
    assert AllOk(codes, 1, 28);
    lost := bus.codes(0) != 0;
  }
}
