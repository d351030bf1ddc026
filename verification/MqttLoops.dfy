/**
 The two loops of the MQTT sample from the outside: what keeps main in app_mqtt_connect, what
 keeps it in app_mqtt_run, exactly what makes it leave, and that it then closes the connection.
 */
module MqttLoops {
  import opened MqttApp

  // ---- app_mqtt_run ----

  /** A timeout of the poll leads to mqtt_live, received data to mqtt_input, anything else to the next turn. */
  lemma PollRunBranches(s: State, rc: int, more: bool, e: Event)
    requires s.main == PollRun
    ensures rc == 0 ==> MainNext(s, rc, more, e) == s.(main := Live)
    ensures rc != 0 && more ==> MainNext(s, rc, more, e) == s.(main := InputRun)
    ensures rc != 0 && !more ==> MainNext(s, rc, more, e) == s.(main := TestRun)
  {
  }

  /**
   Main leaves the loop of app_mqtt_run exactly when it finds the flag clear, or when mqtt_input
   or mqtt_live has failed.
   */
  lemma LeavesRunExactly(s: State, rc: int, more: bool, e: Event)
    requires Running(s.main) && s.main != Disconnecting
    ensures Running(MainNext(s, rc, more, e).main)
    ensures MainNext(s, rc, more, e).main == Disconnecting
            <==> || (s.main == TestRun && !s.flag)
                 || (s.main == InputRun && !more && rc != 0)
                 || (s.main == Live && rc != 0)
  {
    hide Deliver, Raise, Close;
  }

  /** No DISCONNECT arrives, and every result of mqtt_input and mqtt_live is zero. */
  predicate Calm(s: State, schedule: seq<Action>)
    decreases |schedule|
  {
    schedule == [] ||
    (CalmStep(s, schedule[0]) && Calm(Next(s, schedule[0]), schedule[1..]))
  }

  predicate CalmStep(s: State, a: Action) {
    match a
    case MainStep(rc, more, e) => e != Disconnect && (s.main == InputRun || s.main == Live ==> rc == 0)
    case HandlerStep(e) => e != Disconnect
    case TimerFires => true
  }

  /** Connected inside the loop of app_mqtt_run. */
  predicate Connected(s: State) {
    Running(s.main) && s.main != Disconnecting && s.flag && s.open
  }

  lemma CalmDeliver(s: State, e: Event)
    requires e != Disconnect && s.open && s.flag
    ensures var t := Deliver(s, e); t.open && t.flag && NoClosing(s.log, t.log)
    ensures var t := Raise(s, e); t.open && t.flag && NoClosing(s.log, t.log)
  {
  }

  /** What the history has gained holds no close and no connect. */
  predicate NoClosing(log: seq<Mark>, log': seq<Mark>) {
    log <= log' && forall k :: |log| <= k < |log'| ==> log'[k] != Closed && !log'[k].Attempt?
  }

  lemma CalmMain(s: State, rc: int, more: bool, e: Event)
    requires Connected(s) && CalmStep(s, MainStep(rc, more, e))
    ensures var t := MainNext(s, rc, more, e); Connected(t) && NoClosing(s.log, t.log)
  {
    hide Deliver, Raise;
    CalmDeliver(s, e);
    DeliverFrame(s, e);
    RaiseFrame(s, e);
  }

  lemma CalmNext(s: State, a: Action)
    requires Connected(s) && CalmStep(s, a)
    ensures Connected(Next(s, a)) && NoClosing(s.log, Next(s, a).log)
  {
    hide MainNext, Raise;
    match a
    case MainStep(rc, more, e) => CalmMain(s, rc, more, e);
    case HandlerStep(e) =>
      CalmDeliver(s, e);
      RaiseFrame(s, e);
    case TimerFires =>
  }

  /** As long as all is well, main stays in app_mqtt_run, connected, and nothing is closed or reopened. */
  lemma {:induction false} StaysConnected(s: State, schedule: seq<Action>)
    requires Connected(s) && Calm(s, schedule)
    ensures Connected(Run(s, schedule)) && NoClosing(s.log, Run(s, schedule).log)
    decreases |schedule|
  {
    hide Next, CalmStep, Connected;
    if schedule != [] {
      CalmNext(s, schedule[0]);
      StaysConnected(Next(s, schedule[0]), schedule[1..]);
    }
  }

  /** Only main moves main. */
  lemma {:induction false} OthersKeepMain(s: State, others: seq<Action>)
    requires forall i :: 0 <= i < |others| ==> !others[i].MainStep?
    ensures Run(s, others).main == s.main
    decreases |others|
  {
    if others != [] {
      if others[0].HandlerStep? { RaiseFrame(s, others[0].raised); }
      assert Next(s, others[0]).main == s.main by { hide Raise; }
      hide Next;
      OthersKeepMain(Next(s, others[0]), others[1..]);
    }
  }

  /** After a failure of mqtt_input or mqtt_live, the next thing main does is close the connection. */
  lemma FailureCloses(s: State, rc: int, e: Event, others: seq<Action>, rc': int, more': bool, e': Event)
    requires s.main == InputRun || s.main == Live
    requires rc != 0 && forall i :: 0 <= i < |others| ==> !others[i].MainStep?
    ensures var t := Run(MainNext(s, rc, false, e), others);
            && t.main == Disconnecting
            && !MainNext(t, rc', more', e').open && MainNext(t, rc', more', e').main == ClearFlag
  {
    var s1 := MainNext(s, rc, false, e);
    assert s1.main == Disconnecting by { hide Deliver, Raise; }
    hide MainNext, Run;
    OthersKeepMain(s1, others);
    DisconnectCloses(Run(s1, others), rc', more', e');
  }

  /** So it is when the flag has been cleared. */
  lemma ClearedCloses(s: State, rc: int, more: bool, e: Event, others: seq<Action>, rc': int, more': bool, e': Event)
    requires s.main == TestRun && !s.flag
    requires forall i :: 0 <= i < |others| ==> !others[i].MainStep?
    ensures var t := Run(MainNext(s, rc, more, e), others);
            && t.main == Disconnecting
            && !MainNext(t, rc', more', e').open && MainNext(t, rc', more', e').main == ClearFlag
  {
    var s1 := MainNext(s, rc, more, e);
    assert s1.main == Disconnecting by { hide Deliver, Raise; }
    hide MainNext, Run;
    OthersKeepMain(s1, others);
    DisconnectCloses(Run(s1, others), rc', more', e');
  }

  lemma DisconnectCloses(s: State, rc: int, more: bool, e: Event)
    requires s.main == Disconnecting
    ensures !MainNext(s, rc, more, e).open && MainNext(s, rc, more, e).main == ClearFlag
  {
  }

  // ---- app_mqtt_connect ----

  /** The turns of app_mqtt_connect. */
  lemma ConnectBranches(s: State, rc: int, more: bool, e: Event)
    ensures s.main == TestConnect && !s.flag ==> MainNext(s, rc, more, e) == s.(main := Connect)
    ensures s.main == TestConnect && s.flag ==> MainNext(s, rc, more, e) == s.(main := Reschedule)
    ensures s.main == Connect && rc != 0 ==>
              MainNext(s, rc, more, e).main == TestConnect && MainNext(s, rc, more, e).open == s.open
    ensures s.main == Connect && rc == 0 ==> MainNext(s, rc, more, e).main == Poll && MainNext(s, rc, more, e).open
    ensures s.main == Poll && rc > 0 ==> MainNext(s, rc, more, e) == s.(main := Input)
    ensures s.main == Poll && rc <= 0 ==> MainNext(s, rc, more, e) == s.(main := TestAbort)
    ensures s.main == TestAbort && s.flag ==> MainNext(s, rc, more, e) == s.(main := TestConnect)
    ensures s.main == TestAbort && !s.flag ==> MainNext(s, rc, more, e) == s.(main := Abort)
    ensures s.main == Abort ==> !MainNext(s, rc, more, e).open && MainNext(s, rc, more, e).main == TestConnect
  {
  }

  /** Inside app_mqtt_connect and not acknowledged. */
  predicate Connecting(s: State) {
    !Running(s.main) && s.main != Reschedule && !s.flag
  }

  lemma KeepsConnecting(s: State, a: Action)
    requires Connecting(s) && (a.MainStep? ==> a.event != Connack(0))
    ensures Connecting(Next(s, a))
  {
  }

  /** Without an acknowledgement main never leaves app_mqtt_connect, whatever else happens. */
  lemma {:induction false} NoAckNoRun(s: State, schedule: seq<Action>)
    requires Connecting(s)
    requires forall i :: 0 <= i < |schedule| && schedule[i].MainStep? ==> schedule[i].event != Connack(0)
    ensures Connecting(Run(s, schedule))
    decreases |schedule|
  {
    if schedule != [] {
      KeepsConnecting(s, schedule[0]);
      hide Next, Connecting;
      NoAckNoRun(Next(s, schedule[0]), schedule[1..]);
    }
  }

  // ---- the history ----

  /** The history misses nothing: every connect, every entry, every opening, closing and acknowledgement. */
  lemma HistoryFaithful(s: State, a: Action)
    ensures var t := Next(s, a);
            && s.log <= t.log
            && (a.MainStep? && s.main == Connect ==> t.log == s.log + [Attempt(a.rc == 0)])
            && (a.MainStep? && s.main == Reschedule ==> t.log == s.log + [Entered])
            && (t.main == Subscribe && s.main != Subscribe ==> s.main == Reschedule)
            && (!s.open && t.open ==> t.log == s.log + [Attempt(true)])
            && (s.open && !t.open ==> t.log == s.log + [Closed])
            && (!s.flag && t.flag ==> t.log == s.log + [Acked(0)])
  {
    hide MainNext, Raise;
    match a
    case MainStep(rc, more, e) => MainHistory(s, rc, more, e);
    case HandlerStep(e) =>
      RaiseHistory(s, e);
      RaiseFrame(s, e);
    case TimerFires =>
  }

  lemma CloseHistory(s: State)
    ensures Close(s).flag == s.flag && !Close(s).open && Close(s).log == s.log + if s.open then [Closed] else []
  {
  }

  lemma RaiseHistory(s: State, e: Event)
    ensures var t := Raise(s, e);
            && (t.open ==> s.open) && (t.flag ==> s.flag)
            && t.log == s.log + if s.open && !t.open then [Closed] else []
  {
  }

  lemma DeliverHistory(s: State, e: Event)
    ensures var t := Deliver(s, e);
            && s.log <= t.log && (t.open ==> s.open)
            && (s.open && !t.open ==> t.log == s.log + [Closed])
            && (!s.flag && t.flag ==> t.log == s.log + [Acked(0)])
  {
  }

  /** Openings, closings and acknowledgements from one state to the next are in the history. */
  predicate Follows(s: State, t: State) {
    && s.log <= t.log
    && (!s.open && t.open ==> t.log == s.log + [Attempt(true)])
    && (s.open && !t.open ==> t.log == s.log + [Closed])
    && (!s.flag && t.flag ==> t.log == s.log + [Acked(0)])
  }

  lemma RunHistory(s: State, rc: int, more: bool, e: Event)
    requires Running(s.main)
    ensures Follows(s, MainNext(s, rc, more, e))
  {
    hide Deliver, Raise, Close;
    match s.main
    case InputRun => DeliverHistory(s, e);
    case Subscribe => RaiseHistory(s, e);
    case Live => RaiseHistory(s, e);
    case Disconnecting => CloseRaise(s, e);
    case _ =>
  }

  lemma ConnectHistory(s: State, rc: int, more: bool, e: Event)
    requires !Running(s.main)
    ensures Follows(s, MainNext(s, rc, more, e))
  {
    hide Deliver, Raise, Close;
    match s.main
    case Input => DeliverHistory(s, e);
    case Abort => CloseRaise(s, e);
    case _ =>
  }

  lemma MarkedSteps(s: State, rc: int, more: bool, e: Event)
    ensures var t := MainNext(s, rc, more, e);
            && (s.main == Connect ==> t.log == s.log + [Attempt(rc == 0)])
            && (s.main == Reschedule ==> t.log == s.log + [Entered])
            && (t.main == Subscribe && s.main != Subscribe ==> s.main == Reschedule)
  {
    hide Deliver, Raise, Close;
  }

  lemma MainHistory(s: State, rc: int, more: bool, e: Event)
    ensures var t := MainNext(s, rc, more, e);
            && Follows(s, t)
            && (s.main == Connect ==> t.log == s.log + [Attempt(rc == 0)])
            && (s.main == Reschedule ==> t.log == s.log + [Entered])
            && (t.main == Subscribe && s.main != Subscribe ==> s.main == Reschedule)
  {
    hide MainNext, Follows;
    MarkedSteps(s, rc, more, e);
    if Running(s.main) { RunHistory(s, rc, more, e); } else { ConnectHistory(s, rc, more, e); }
  }

  lemma CloseRaise(s: State, e: Event)
    ensures var t := Raise(Close(s), e);
            !t.open && (t.flag ==> s.flag) && t.log == s.log + if s.open then [Closed] else []
  {
    hide Raise, Close;
    CloseHistory(s);
    RaiseHistory(Close(s), e);
  }

  // ---- the publish handler ----

  /** mqtt_publish is called by the handler, from the place it reaches with the flag set. */
  lemma SentStep(s: State, a: Action)
    ensures Next(s, a).sent != s.sent ==> a.HandlerStep? && s.handler == Publishing
    ensures Next(s, a).handler == Publishing ==>
              if a.HandlerStep? then s.handler == Testing && s.flag else s.handler == Publishing
  {
    hide MainNext, Raise;
    if a.MainStep? { MainFrame(s, a.rc, a.more, a.event); }
    if a.HandlerStep? { RaiseFrame(s, a.raised); }
  }

  /** A handler about to publish has found the flag set, and has done nothing since. */
  lemma {:induction false} FlagFoundFirst(schedule: seq<Action>) returns (i: nat)
    requires Run(BOOT, schedule).handler == Publishing
    ensures i < |schedule| && schedule[i].HandlerStep?
    ensures Run(BOOT, schedule[..i]).handler == Testing && Run(BOOT, schedule[..i]).flag
    ensures forall k :: i < k < |schedule| ==> !schedule[k].HandlerStep?
    decreases |schedule|
  {
    hide Next;
    if schedule == [] {
      BootIdle();
      assert false;
    } else {
      var n := |schedule| - 1;
      var before, a := schedule[..n], schedule[n];
      assert schedule == before + [a];
      RunSnoc(BOOT, before, a);
      SentStep(Run(BOOT, before), a);
      if a.HandlerStep? {
        i := n;
      } else {
        i := FlagFoundFirst(before);
        assert schedule[..i] == before[..i];
      }
    }
  }

  lemma BootIdle()
    ensures Run(BOOT, []).handler == Idle
  {
  }

  /** In every run: each call of mqtt_publish comes from a handler whose last step found the flag set. */
  lemma PublishedWhenConnected(schedule: seq<Action>, a: Action) returns (i: nat)
    requires Run(BOOT, schedule + [a]).sent != Run(BOOT, schedule).sent
    ensures i < |schedule| && schedule[i].HandlerStep?
    ensures Run(BOOT, schedule[..i]).handler == Testing && Run(BOOT, schedule[..i]).flag
    ensures forall k :: i < k < |schedule| ==> !schedule[k].HandlerStep?
  {
    hide Run, Next;
    RunSnoc(BOOT, schedule, a);
    SentStep(Run(BOOT, schedule), a);
    i := FlagFoundFirst(schedule);
  }
}
