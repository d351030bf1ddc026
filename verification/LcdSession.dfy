/**
 The driver object and the display together: what the object's own log of transfers puts on
 the screen over a whole session of init and calls.
 */
module LcdSession {
  import opened Hd44780
  import opened LcdImages
  import opened LcdCalls
  import opened LcdInit
  import opened LcdDriver

  /** Calls through the table of function pointers the driver exports. */
  method Perform(dev: Driver, call: Call) returns (r: bv32)
    requires dev.Valid()
    modifies dev`lockCount, dev`lockOps, dev.bus
    ensures AllOk(dev.bus.codes, |old(dev.bus.log)|, |CallImages(dev.ctrl, dev.cfg, call)|) ==>
              && dev.bus.log == old(dev.bus.log)
                                + Attempts(CallImages(dev.ctrl, dev.cfg, call), dev.bus.codes, |old(dev.bus.log)|)
              && dev.lockCount == old(dev.lockCount)
              && r == if Refused(dev.cfg, call) then EINVAL else 0
  {
    hide AllOk, Attempts, CallImages, IsControl, Negative;
    CallLength(dev.ctrl, dev.cfg, call);
    match call
    case Clear => r := dev.FnClear();
    case Home => r := dev.FnHome();
    case SetCursor(col, row) => r := dev.FnSetCursor(col, row);
    case Control(d, c, b) => r := dev.FnControl(d, c, b);
    case Write(s) => r := dev.FnWrite(s);
  }

  /** The one call the driver turns down. */
  predicate Refused(cfg: Config, call: Call) {
    call.SetCursor? && (call.row >= cfg.rows || call.col >= cfg.cols)
  }

  lemma CallLength(ctrl: bv8, cfg: Config, call: Call)
    requires cfg.Valid()
    ensures |CallImages(ctrl, cfg, call)|
            == if Refused(cfg, call) then 0 else if call.Write? then 4 * |call.text| else 4
  {
    hide ByteImages, CursorAddress, ControlByte, OnPanel;
    match call
    case Write(s) => TextLength(ctrl, s);
    case Control(d, c, b) => ByteLength(ctrl, ControlByte(d, c, b));
    case SetCursor(col, row) =>
      InRange(cfg, col, row);
      if OnPanel(cfg, col, row) { ByteLength(ctrl, CMD_DDRAM | CursorAddress(cfg, col, row)); }
    case Clear => ByteLength(ctrl, CMD_CLEAR);
    case Home => ByteLength(ctrl, CMD_HOME);
  }

  lemma ByteLength(ctrl: bv8, b: bv8)
    ensures |ByteImages(ctrl, b, false)| == 4
  {
  }

  lemma {:induction false} RunSnoc(ctrl: bv8, cfg: Config, calls: seq<Call>, i: nat)
    requires cfg.Valid() && i < |calls|
    ensures RunImages(ctrl, cfg, calls[..i + 1])
            == RunImages(ctrl, cfg, calls[..i]) + CallImages(ctrl, cfg, calls[i])
    decreases i
  {
    hide CallImages;
    if i == 0 {
      assert calls[..1] == [calls[0]] && calls[..1][1..] == [] && calls[..0] == [];
    } else {
      assert calls[..i + 1][1..] == calls[1..][..i] && calls[..i][1..] == calls[1..][..i - 1];
      RunSnoc(ctrl, cfg, calls[1..], i - 1);
    }
  }

  /** Everything sent by init and the first calls. */
  function Traffic(ctrl: bv8, cfg: Config, calls: seq<Call>): seq<bv8>
    requires cfg.Valid()
  {
    InitImages(ctrl, cfg) + RunImages(ctrl, cfg, calls)
  }

  /** If nothing after the backlight image was lost, the log is that traffic. */
  ghost predicate InStep(before: seq<Attempt>, log: seq<Attempt>, codes: Codes, ctrl: bv8, cfg: Config,
                         calls: seq<Call>)
    requires cfg.Valid()
  {
    AllOk(codes, |before| + 1, |Traffic(ctrl, cfg, calls)|) ==>
      log == before + Attempts([ctrl] + Traffic(ctrl, cfg, calls), codes, |before|)
  }

  lemma InStepStart(before: seq<Attempt>, log: seq<Attempt>, codes: Codes, ctrl: bv8, cfg: Config)
    requires cfg.Valid()
    requires AllOk(codes, |before| + 1, 28) ==> BootAt(before, log, codes, BootImages(ctrl, cfg), 29)
    ensures InStep(before, log, codes, ctrl, cfg, [])
  {
    BootParts(ctrl, cfg);
    var full := BootImages(ctrl, cfg);
    assert full[..29] == full;
    assert Traffic(ctrl, cfg, []) == InitImages(ctrl, cfg);
  }

  lemma InStepCall(before: seq<Attempt>, log: seq<Attempt>, log': seq<Attempt>, codes: Codes, ctrl: bv8,
                   cfg: Config, calls: seq<Call>, i: nat)
    requires cfg.Valid() && i < |calls|
    requires InStep(before, log, codes, ctrl, cfg, calls[..i])
    requires var images := CallImages(ctrl, cfg, calls[i]);
             AllOk(codes, |log|, |images|) ==> log' == log + Attempts(images, codes, |log|)
    ensures InStep(before, log', codes, ctrl, cfg, calls[..i + 1])
  {
    TrafficSnoc(ctrl, cfg, calls, i);
    hide Traffic, CallImages, AllOk, Attempts;
    LogExtends(before, log, log', codes, ctrl, Traffic(ctrl, cfg, calls[..i]), CallImages(ctrl, cfg, calls[i]));
  }

  lemma LogExtends(before: seq<Attempt>, log: seq<Attempt>, log': seq<Attempt>, codes: Codes,
                   first: bv8, done: seq<bv8>, more: seq<bv8>)
    requires AllOk(codes, |before| + 1, |done|) ==> log == before + Attempts([first] + done, codes, |before|)
    requires AllOk(codes, |log|, |more|) ==> log' == log + Attempts(more, codes, |log|)
    ensures AllOk(codes, |before| + 1, |done + more|)
            ==> log' == before + Attempts([first] + (done + more), codes, |before|)
  {
    hide AllOk, Attempts;
    if AllOk(codes, |before| + 1, |done + more|) {
      AllOkSplit(codes, |before| + 1, |done|, |more|);
      AttemptsLength([first] + done, codes, |before|);
      AttemptsConcat([first] + done, more, codes, |before|);
      assert [first] + (done + more) == ([first] + done) + more;
    }
  }

  lemma TrafficSnoc(ctrl: bv8, cfg: Config, calls: seq<Call>, i: nat)
    requires cfg.Valid() && i < |calls|
    ensures Traffic(ctrl, cfg, calls[..i + 1]) == Traffic(ctrl, cfg, calls[..i]) + CallImages(ctrl, cfg, calls[i])
  {
    RunSnoc(ctrl, cfg, calls, i);
    hide CallImages, RunImages, InitImages;
  }

  /** The display that such a log produces, whatever it was before. */
  lemma InStepShows(before: seq<Attempt>, log: seq<Attempt>, codes: Codes, ctrl: bv8, cfg: Config,
                    calls: seq<Call>, p: Panel, noise: nat -> bv8)
    requires cfg.Valid() && IsControl(ctrl) && InStep(before, log, codes, ctrl, cfg, calls)
    requires AllOk(codes, |before| + 1, |Traffic(ctrl, cfg, calls)|)
    ensures |before| <= |log|
    ensures var q := Feed(p, Delivered(log[|before|..]), noise);
            Ready(cfg, q) && View(q.core) == Effects(BOOT_SCREEN, cfg, calls)
  {
    var images := Traffic(ctrl, cfg, calls);
    assert log[|before|..] == Attempts([ctrl] + images, codes, |before|);
    hide Feed, Attempts, AllOk, Ready;
    DeliveredRest(ctrl, images, codes, |before|);
    var p' := FeedRest(p, ctrl, codes(|before|) == 0, images, noise);
    BootAndRun(cfg, p', ctrl, calls, noise);
  }

  /** What was delivered since `before` turns any panel whatever into the meaning of the calls. */
  ghost predicate Displayed(before: seq<Attempt>, log: seq<Attempt>, cfg: Config, calls: seq<Call>)
    requires cfg.Valid()
  {
    && |before| <= |log|
    && forall p, noise :: var q := Feed(p, Delivered(log[|before|..]), noise);
                          Ready(cfg, q) && View(q.core) == Effects(BOOT_SCREEN, cfg, calls)
  }

  lemma InStepDisplayed(before: seq<Attempt>, log: seq<Attempt>, codes: Codes, ctrl: bv8, cfg: Config,
                        calls: seq<Call>)
    requires cfg.Valid() && IsControl(ctrl) && InStep(before, log, codes, ctrl, cfg, calls)
    requires AllOk(codes, |before| + 1, |Traffic(ctrl, cfg, calls)|)
    ensures Displayed(before, log, cfg, calls)
  {
    AttemptsLength([ctrl] + Traffic(ctrl, cfg, calls), codes, |before|);
    forall p, noise
      ensures var q := Feed(p, Delivered(log[|before|..]), noise);
              Ready(cfg, q) && View(q.core) == Effects(BOOT_SCREEN, cfg, calls)
    {
      InStepShows(before, log, codes, ctrl, cfg, calls, p, noise);
    }
  }

  /**
   A session with the driver object: init and any calls.  If no transfer but perhaps the
   backlight's is lost, the object's log displays the meaning of the calls.
   */
  method Session(dev: Driver, backlight: bool, calls: seq<Call>)
    requires dev.Valid()
    modifies dev, dev.bus
    ensures dev.Valid()
    ensures AllOk(dev.bus.codes, |old(dev.bus.log)| + 1, |Traffic(dev.ctrl, dev.cfg, calls)|) ==>
              Displayed(old(dev.bus.log), dev.bus.log, dev.cfg, calls)
  {
    hide InStep, AllOk, BootAt, BootFailed, Traffic, BootImages, CallImages, Attempts, Displayed;
    ghost var before := dev.bus.log;
    var r := dev.Init(true, backlight);
    ghost var ctrl := dev.ctrl;
    InStepStart(before, dev.bus.log, dev.bus.codes, ctrl, dev.cfg);
    var i := 0;
    assert calls[..0] == [];
    while i < |calls|
      invariant 0 <= i <= |calls|
      invariant dev.Valid() && dev.ctrl == ctrl
      invariant InStep(before, dev.bus.log, dev.bus.codes, ctrl, dev.cfg, calls[..i])
    {
      ghost var log := dev.bus.log;
      r := Perform(dev, calls[i]);
      InStepCall(before, log, dev.bus.log, dev.bus.codes, ctrl, dev.cfg, calls, i);
      i := i + 1;
    }
    assert calls[..i] == calls;
    if AllOk(dev.bus.codes, |before| + 1, |Traffic(ctrl, dev.cfg, calls)|) {
      InStepDisplayed(before, dev.bus.log, dev.bus.codes, ctrl, dev.cfg, calls);
    }
  }
}
