/**
 The MQTT sample: a main thread that connects, runs and reconnects, and a work item that
 publishes.  They share one flag, which the library's event callback sets and clears.  Every
 result and event of the library is an input of the step that calls it.
 */
module MqttApp {
  /** What a library call may report through the event callback; a result of 0 is success. */
  datatype Event = Quiet | Connack(result: int) | Disconnect

  /** Where the main thread is: app_mqtt_connect, then the reschedule, then app_mqtt_run. */
  datatype Main =
    | ClearFlag | TestConnect | Connect | Poll | Input | TestAbort | Abort
    | Reschedule
    | Subscribe | TestRun | PollRun | InputRun | Live | Disconnecting

  /** Where the work item's handler is. */
  datatype Handler = Idle | Testing | Publishing | Rescheduling | Cancelling

  /** History: connect calls, acknowledgements, closings, and entries to app_mqtt_run. */
  datatype Mark = Attempt(ok: bool) | Acked(result: int) | Closed | Entered

  datatype State = State(
    flag: bool,            // mqtt_connected
    open: bool,            // the library holds an open connection
    main: Main,
    pending: bool,         // the work item is scheduled
    handler: Handler,
    late: bool,            // the handler was about to cancel when main last rescheduled
    msgId: nat,
    sent: seq<nat>,        // message ids, in the order they were passed to mqtt_publish
    log: seq<Mark>
  )

  const BOOT := State(false, false, ClearFlag, false, Idle, false, 1, [], [])

  /** The results of one step are chosen by the library and the network. */
  datatype Action =
    | MainStep(rc: int, more: bool, event: Event)
    | HandlerStep(raised: Event)
    | TimerFires

  function Note(s: State, m: Mark): State {
    s.(log := s.log + [m])
  }

  function Close(s: State): State {
    if s.open then Note(s.(open := false), Closed) else s
  }

  /** The event callback; an acknowledgement needs an open connection to arrive on. */
  function Deliver(s: State, e: Event): State {
    match e
    case Quiet => s
    case Connack(result) =>
      if !s.open then s
      else Note(if result == 0 then s.(flag := true) else s, Acked(result))
    case Disconnect => Close(s).(flag := false)
  }

  /** Calls other than mqtt_input can only report that the connection is gone. */
  function Raise(s: State, e: Event): State {
    if e.Connack? then s else Deliver(s, e)
  }

  /**
   One step of main.  `rc` is the result of the call made there; at InputRun it also stands for
   the hang-up or socket error that is looked at after mqtt_input, and `more` for further events
   of the same call; at PollRun `more` says that data has arrived.
   */
  function MainNext(s: State, rc: int, more: bool, e: Event): State {
    match s.main
    case ClearFlag => s.(flag := false, main := TestConnect)
    case TestConnect => s.(main := if s.flag then Reschedule else Connect)
    case Connect =>
      if rc != 0 then Note(s.(main := TestConnect), Attempt(false))
      else Note(s.(open := true, main := Poll), Attempt(true))
    case Poll => s.(main := if rc > 0 then Input else TestAbort)
    case Input => Deliver(s, e).(main := if more then Input else TestAbort)
    case TestAbort => s.(main := if s.flag then TestConnect else Abort)
    case Abort => Raise(Close(s), e).(main := TestConnect)
    case Reschedule => Note(s.(pending := true, late := s.handler == Cancelling, main := Subscribe), Entered)
    case Subscribe => Raise(s, e).(main := TestRun)
    case TestRun => s.(main := if s.flag then PollRun else Disconnecting)
    case PollRun => s.(main := if rc == 0 then Live else if more then InputRun else TestRun)
    case InputRun =>
      Deliver(s, e).(main := if more then InputRun else if rc == 0 then TestRun else Disconnecting)
    case Live => Raise(s, e).(main := if rc == 0 then TestRun else Disconnecting)
    case Disconnecting => Raise(Close(s), e).(main := ClearFlag)
  }

  function HandlerNext(s: State, e: Event): State {
    match s.handler
    case Idle => s
    case Testing => s.(handler := if s.flag then Publishing else Cancelling)
    case Publishing =>
      Raise(s, e).(sent := s.sent + [s.msgId], msgId := (s.msgId + 1) % 0x1_0000, handler := Rescheduling)
    case Rescheduling => s.(pending := true, handler := Idle)
    case Cancelling => s.(pending := false, handler := Idle)
  }

  function Next(s: State, a: Action): State {
    match a
    case MainStep(rc, more, e) => MainNext(s, rc, more, e)
    case HandlerStep(e) => HandlerNext(s, e)
    case TimerFires => if s.pending && s.handler == Idle then s.(pending := false, handler := Testing) else s
  }

  function Run(s: State, schedule: seq<Action>): State
    decreases |schedule|
  {
    if schedule == [] then s else Run(Next(s, schedule[0]), schedule[1..])
  }

  ghost predicate Reachable(s: State) {
    exists schedule :: Run(BOOT, schedule) == s
  }

  lemma {:induction false} RunSnoc(s: State, schedule: seq<Action>, a: Action)
    ensures Run(s, schedule + [a]) == Next(Run(s, schedule), a)
    decreases |schedule|
  {
    hide Next;
    if schedule == [] {
      assert ([a])[1..] == [] && schedule + [a] == [a];
      assert Run(Next(s, a), []) == Next(s, a);
    } else {
      assert (schedule + [a])[1..] == schedule[1..] + [a];
      RunSnoc(Next(s, schedule[0]), schedule[1..], a);
    }
  }

  lemma ReachStep(s: State, a: Action)
    requires Reachable(s)
    ensures Reachable(Next(s, a))
  {
    hide Run, Next;
    var schedule :| Run(BOOT, schedule) == s;
    RunSnoc(BOOT, schedule, a);
  }

  // ---- what the history must look like ----

  /** The connection is up after this history. */
  predicate Up(log: seq<Mark>) {
    log != [] &&
    match log[|log| - 1]
    case Attempt(ok) => ok || Up(log[..|log| - 1])
    case Closed => false
    case _ => Up(log[..|log| - 1])
  }

  /** The last successful connect has been acknowledged with result 0. */
  predicate Acknowledged(log: seq<Mark>) {
    log != [] &&
    match log[|log| - 1]
    case Attempt(true) => false
    case Acked(0) => true
    case _ => Acknowledged(log[..|log| - 1])
  }

  /**
   No connect while a connection is up (one CONNECT per network connection, section 3.1 of
   MQTT 3.1.1), acknowledgements only on a connection, and app_mqtt_run entered only after
   one with result 0.
   */
  ghost predicate Orderly(log: seq<Mark>) {
    forall k :: 0 <= k < |log| ==>
      match log[k]
      case Attempt(_) => !Up(log[..k])
      case Acked(_) => Up(log[..k])
      case Closed => Up(log[..k])
      case Entered => Acknowledged(log[..k])
  }

  /** An open connection is a successful connect that nothing has closed since. */
  lemma {:induction false} UpMeaning(log: seq<Mark>)
    ensures Up(log) <==> exists i :: 0 <= i < |log| && log[i] == Attempt(true) && OpenSince(log, i)
    decreases |log|
  {
    if log != [] {
      var n := |log| - 1;
      var before := log[..n];
      UpMeaning(before);
      hide Up;
      if log[n] == Attempt(true) {
        assert OpenSince(log, n);
      } else if log[n] != Closed {
        assert forall i | 0 <= i < n :: OpenSince(log, i) <==> OpenSince(before, i) by {
          forall i | 0 <= i < n ensures OpenSince(log, i) <==> OpenSince(before, i) {
            if OpenSince(before, i) {
              assert forall k | i < k < |log| :: k == n || log[k] == before[k];
            } else {
              var k :| i < k < n && before[k] == Closed;
              assert log[k] == Closed;
            }
          }
        }
      }
    }
    UpUnfolds(log);
  }

  ghost predicate OpenSince(log: seq<Mark>, i: nat) {
    forall k :: i < k < |log| ==> log[k] != Closed
  }

  lemma UpUnfolds(log: seq<Mark>)
    ensures Up(log) <==> log != [] && log[|log| - 1] != Closed
                         && (log[|log| - 1] == Attempt(true) || Up(log[..|log| - 1]))
  {
  }

  lemma OrderlySnoc(log: seq<Mark>, m: Mark)
    requires Orderly(log)
    requires match m
             case Attempt(_) => !Up(log)
             case Acked(_) => Up(log)
             case Closed => Up(log)
             case Entered => Acknowledged(log)
    ensures Orderly(log + [m])
    ensures Up(log + [m]) == match m
                             case Attempt(ok) => ok
                             case Closed => false
                             case _ => Up(log)
    ensures Acknowledged(log + [m]) == match m
                                       case Attempt(ok) => !ok && Acknowledged(log)
                                       case Acked(result) => result == 0 || Acknowledged(log)
                                       case _ => Acknowledged(log)
  {
    var log' := log + [m];
    assert log'[..|log|] == log;
    assert Up(log') == (match m case Attempt(ok) => ok case Closed => false case _ => Up(log));
    assert Acknowledged(log') == (match m
                                  case Attempt(ok) => !ok && Acknowledged(log)
                                  case Acked(result) => result == 0 || Acknowledged(log)
                                  case _ => Acknowledged(log));
    hide Up, Acknowledged;
    forall k | 0 <= k < |log| ensures log'[k] == log[k] && log'[..k] == log[..k] {}
  }

  // ---- what every step keeps ----

  /** An event touches the flag, the connection and its history only. */
  lemma DeliverFrame(s: State, e: Event)
    ensures var s' := Deliver(s, e);
            && s'.main == s.main && s'.pending == s.pending && s'.handler == s.handler && s'.late == s.late
            && s'.sent == s.sent && s'.msgId == s.msgId
  {
  }

  lemma RaiseFrame(s: State, e: Event)
    ensures var s' := Raise(s, e);
            && s'.main == s.main && s'.pending == s.pending && s'.handler == s.handler && s'.late == s.late
            && s'.sent == s.sent && s'.msgId == s.msgId
  {
    DeliverFrame(s, e);
  }

  /** The main thread leaves the work item alone, except that it reschedules it. */
  lemma MainFrame(s: State, rc: int, more: bool, e: Event)
    ensures var s' := MainNext(s, rc, more, e);
            && s'.handler == s.handler && s'.sent == s.sent && s'.msgId == s.msgId
            && s'.late == (if s.main == Reschedule then s.handler == Cancelling else s.late)
            && s'.pending == (s.main == Reschedule || s.pending)
  {
    hide Deliver, Raise;
    DeliverFrame(s, e);
    RaiseFrame(s, e);
    RaiseFrame(Close(s), e);
  }

  /** The places inside app_mqtt_run. */
  predicate Running(m: Main) {
    m.Subscribe? || m.TestRun? || m.PollRun? || m.InputRun? || m.Live? || m.Disconnecting?
  }

  predicate InRun(s: State) {
    Running(s.main)
  }

  /** How the flag, the connection and the main thread's place go together. */
  predicate LinkInv(s: State) {
    && (s.flag && s.main != ClearFlag ==> s.open)
    && (s.main == ClearFlag || s.main == Connect ==> !s.open)
    && (s.main == TestConnect && !s.flag ==> !s.open)
    && (s.main == Abort ==> !s.flag)
    && (InRun(s) || s.main == Reschedule ==> (s.open <==> s.flag))
  }

  ghost predicate LogInv(s: State) {
    && Recorded(s)
    && ((s.flag && s.main != ClearFlag) || s.main == Reschedule ==> Acknowledged(s.log))
  }

  /** The work item is neither scheduled nor running: nothing will publish again. */
  predicate Lost(s: State) {
    !s.pending && s.handler == Idle
  }

  predicate WorkInv(s: State) {
    InRun(s) && s.flag ==>
      if s.late then s.handler == Cancelling || Lost(s)
      else s.handler != Cancelling && !Lost(s)
  }

  ghost predicate Inv(s: State) {
    LinkInv(s) && LogInv(s) && WorkInv(s)
  }

  lemma BootInv()
    ensures Inv(BOOT)
  {
  }

  /** What an event does to the flag and the connection. */
  lemma DeliverLink(s: State, e: Event)
    ensures var s' := Deliver(s, e);
            && (s'.flag ==> s.flag || s.open) && (s'.open ==> s.open)
            && ((s.flag ==> s.open) ==> (s'.flag ==> s'.open))
            && ((s.open <==> s.flag) ==> (s'.open <==> s'.flag))
  {
  }

  lemma RaiseLink(s: State, e: Event)
    ensures var s' := Raise(s, e);
            && (s'.flag ==> s.flag) && (s'.open ==> s.open)
            && ((s.flag ==> s.open) ==> (s'.flag ==> s'.open))
            && ((s.open <==> s.flag) ==> (s'.open <==> s'.flag))
  {
  }

  lemma ConnectKeepsLink(s: State, rc: int, more: bool, e: Event)
    requires LinkInv(s) && !InRun(s)
    ensures LinkInv(MainNext(s, rc, more, e))
  {
    DeliverLink(s, e);
    DeliverFrame(s, e);
    RaiseLink(Close(s), e);
    RaiseFrame(Close(s), e);
    hide Deliver, Raise;
  }

  lemma RunKeepsLink(s: State, rc: int, more: bool, e: Event)
    requires LinkInv(s) && InRun(s)
    ensures LinkInv(MainNext(s, rc, more, e))
  {
    hide Deliver, Raise, Close;
    match s.main
    case Subscribe => RaiseLink(s, e);
    case InputRun => DeliverLink(s, e);
    case Live => RaiseLink(s, e);
    case Disconnecting =>
      RaiseLink(Close(s), e);
      CloseLink(s);
    case _ =>
  }

  lemma CloseLink(s: State)
    ensures !Close(s).open && Close(s).flag == s.flag
  {
  }

  lemma LinkKeeps(s: State, a: Action)
    requires LinkInv(s)
    ensures LinkInv(Next(s, a))
  {
    hide MainNext, Raise;
    match a
    case MainStep(rc, more, e) =>
      hide LinkInv;
      if InRun(s) { RunKeepsLink(s, rc, more, e); } else { ConnectKeepsLink(s, rc, more, e); }
    case HandlerStep(e) =>
      RaiseLink(s, e);
      RaiseFrame(s, e);
    case TimerFires =>
  }

  lemma WorkKeeps(s: State, a: Action)
    requires LinkInv(s) && WorkInv(s)
    ensures WorkInv(Next(s, a))
  {
  }

  /** The connection and its history agree. */
  ghost predicate Recorded(s: State) {
    Orderly(s.log) && Up(s.log) == s.open
  }

  lemma CloseKeepsLog(s: State)
    requires Recorded(s)
    ensures var s' := Close(s);
            Recorded(s') && s'.flag == s.flag && Acknowledged(s'.log) == Acknowledged(s.log)
  {
    if s.open { OrderlySnoc(s.log, Closed); }
  }

  lemma DeliverKeepsLog(s: State, e: Event)
    requires Recorded(s)
    ensures var s' := Deliver(s, e);
            && Recorded(s')
            && (Acknowledged(s.log) ==> Acknowledged(s'.log))
            && (s'.flag && !s.flag ==> Acknowledged(s'.log))
  {
    match e
    case Quiet =>
    case Connack(result) => if s.open { OrderlySnoc(s.log, Acked(result)); }
    case Disconnect => CloseKeepsLog(s);
  }

  lemma RaiseKeepsLog(s: State, e: Event)
    requires Recorded(s)
    ensures var s' := Raise(s, e);
            && Recorded(s')
            && (Acknowledged(s.log) ==> Acknowledged(s'.log))
            && (s'.flag ==> s.flag)
  {
    DeliverKeepsLog(s, e);
  }

  lemma ConnectKeepsLog(s: State, rc: int, more: bool, e: Event)
    requires LinkInv(s) && LogInv(s) && !InRun(s)
    ensures LogInv(MainNext(s, rc, more, e))
  {
    hide Orderly, Up, Acknowledged, Deliver, Raise, Close;
    match s.main
    case Connect => OrderlySnoc(s.log, Attempt(rc == 0));
    case Input => DeliverKeepsLog(s, e);
    case Abort =>
      CloseKeepsLog(s);
      RaiseKeepsLog(Close(s), e);
    case Reschedule => OrderlySnoc(s.log, Entered);
    case _ =>
  }

  lemma RunKeepsLog(s: State, rc: int, more: bool, e: Event)
    requires LinkInv(s) && LogInv(s) && InRun(s)
    ensures LogInv(MainNext(s, rc, more, e))
  {
    hide Orderly, Up, Acknowledged, Deliver, Raise, Close;
    match s.main
    case Subscribe => RaiseKeepsLog(s, e);
    case InputRun => DeliverKeepsLog(s, e);
    case Live => RaiseKeepsLog(s, e);
    case Disconnecting =>
      CloseKeepsLog(s);
      RaiseKeepsLog(Close(s), e);
    case _ =>
  }

  lemma LogKeeps(s: State, a: Action)
    requires LinkInv(s) && LogInv(s)
    ensures LogInv(Next(s, a))
  {
    hide Orderly, Up, Acknowledged, Deliver, Raise, Close, LinkInv, MainNext;
    match a
    case MainStep(rc, more, e) => if InRun(s) { RunKeepsLog(s, rc, more, e); } else { ConnectKeepsLog(s, rc, more, e); }
    case HandlerStep(e) =>
      RaiseKeepsLog(s, e);
      RaiseFrame(s, e);
    case TimerFires =>
  }

  lemma NextKeeps(s: State, a: Action)
    requires Inv(s)
    ensures Inv(Next(s, a))
  {
    LinkKeeps(s, a);
    LogKeeps(s, a);
    WorkKeeps(s, a);
  }

  lemma {:induction false} RunKeeps(s: State, schedule: seq<Action>)
    requires Inv(s)
    ensures Inv(Run(s, schedule))
    decreases |schedule|
  {
    hide Next, Inv;
    if schedule != [] {
      NextKeeps(s, schedule[0]);
      RunKeeps(Next(s, schedule[0]), schedule[1..]);
    }
  }

  lemma ReachableInv(s: State)
    requires Reachable(s)
    ensures Inv(s)
  {
    hide Run, Inv;
    var schedule :| Run(BOOT, schedule) == s;
    BootInv();
    RunKeeps(BOOT, schedule);
  }

  // ---- connections ----

  /**
   In every run: between a successful mqtt_connect and the next call of mqtt_connect,
   successful or not, the connection is closed.
   */
  lemma OneConnectPerConnection(s: State, i: nat, j: nat)
    requires Reachable(s) && i < j < |s.log|
    requires s.log[i] == Attempt(true) && s.log[j].Attempt?
    ensures exists k :: i < k < j && s.log[k] == Closed
  {
    ReachableInv(s);
    var before := s.log[..j];
    assert !Up(before);
    UpMeaning(before);
    assert before[i] == Attempt(true);
    assert !OpenSince(before, i);
    var k :| i < k < |before| && before[k] == Closed;
    assert s.log[k] == Closed;
  }

  /**
   In every run: app_mqtt_run is entered only after a CONNACK with result 0 that answers the
   last successful mqtt_connect, while that connection was up.
   */
  lemma RunNeedsAck(s: State, j: nat) returns (o: nat, i: nat)
    requires Reachable(s) && j < |s.log| && s.log[j] == Entered
    ensures o < i < j && s.log[o] == Attempt(true) && s.log[i] == Acked(0)
    ensures forall k :: o < k < i ==> s.log[k] != Closed
    ensures forall k :: o < k < j ==> s.log[k] != Attempt(true)
  {
    ReachableInv(s);
    o, i := AckOfEntry(s.log, j);
  }

  lemma AckOfEntry(log: seq<Mark>, j: nat) returns (o: nat, i: nat)
    requires Orderly(log) && j < |log| && log[j] == Entered
    ensures o < i < j && log[o] == Attempt(true) && log[i] == Acked(0)
    ensures forall k :: o < k < i ==> log[k] != Closed
    ensures forall k :: o < k < j ==> log[k] != Attempt(true)
  {
    hide Up, Acknowledged;
    i := AckPlace(log[..j]);
    assert log[..j][i] == log[i] == Acked(0);
    o := OpeningBefore(log, i);
    forall k | o < k < j ensures log[k] != Attempt(true) {
      if k > i { assert log[..j][k] == log[k]; }
    }
  }

  /** The successful connect on which an acknowledgement arrived. */
  lemma OpeningBefore(log: seq<Mark>, i: nat) returns (o: nat)
    requires Orderly(log) && i < |log| && log[i].Acked?
    ensures o < i && log[o] == Attempt(true)
    ensures forall k :: o < k < i ==> log[k] != Closed && log[k] != Attempt(true)
  {
    hide Up, Acknowledged;
    var before := log[..i];
    assert Up(before);
    UpMeaning(before);
    o :| 0 <= o < |before| && before[o] == Attempt(true) && OpenSince(before, o);
    forall k | o < k < i ensures log[k] != Closed { assert before[k] == log[k]; }
    NoAttemptWhileUp(log, o, i);
  }

  /** While a connection stays up, no connect is attempted. */
  lemma NoAttemptWhileUp(log: seq<Mark>, o: nat, i: nat)
    requires Orderly(log) && o < i <= |log| && log[o] == Attempt(true)
    requires forall k :: o < k < i ==> log[k] != Closed
    ensures forall k :: o < k < i ==> !log[k].Attempt?
  {
    hide Up, Acknowledged;
    forall k | o < k < i ensures !log[k].Attempt? {
      assert log[..k][o] == Attempt(true);
      assert OpenSince(log[..k], o);
      UpMeaning(log[..k]);
    }
  }

  lemma {:induction false} AckPlace(log: seq<Mark>) returns (i: nat)
    requires Acknowledged(log)
    ensures i < |log| && log[i] == Acked(0) && forall k :: i < k < |log| ==> log[k] != Attempt(true)
    decreases |log|
  {
    var n := |log| - 1;
    if log[n] == Acked(0) {
      i := n;
    } else {
      i := AckPlace(log[..n]);
      forall k | i < k < |log| ensures log[k] != Attempt(true) {
        if k < n { assert log[..n][k] == log[k]; }
      }
    }
  }

  // ---- publishing ----

  /**
   Exactly when publishing has silently stopped, while app_mqtt_run runs connected: the
   handler had found the flag clear but not yet cancelled when main rescheduled the work
   item, and has cancelled it since.
   */
  lemma PublishingExact(s: State)
    requires Reachable(s) && InRun(s) && s.flag
    ensures Lost(s) <==> s.late && s.handler != Cancelling
  {
    hide Reachable, Orderly, Up, Acknowledged;
    ReachableInv(s);
  }

  /** The steps between finding the flag clear and cancelling are not interrupted. */
  predicate AtomicCancel(s: State, schedule: seq<Action>)
    decreases |schedule|
  {
    schedule == [] ||
    ((s.handler == Cancelling ==> schedule[0].HandlerStep?) && AtomicCancel(Next(s, schedule[0]), schedule[1..]))
  }

  lemma {:induction false} NeverLate(s: State, schedule: seq<Action>)
    requires AtomicCancel(s, schedule) && !s.late
    ensures !Run(s, schedule).late
    decreases |schedule|
  {
    if schedule != [] {
      LateStep(s, schedule[0]);
      hide Next;
      NeverLate(Next(s, schedule[0]), schedule[1..]);
    }
  }

  lemma LateStep(s: State, a: Action)
    requires !s.late && (s.handler == Cancelling ==> a.HandlerStep?)
    ensures !Next(s, a).late
  {
    hide MainNext, Raise;
    if a.MainStep? { MainFrame(s, a.rc, a.more, a.event); }
    if a.HandlerStep? { RaiseFrame(s, a.raised); }
  }

  /** If that branch is atomic, publishing never stops while app_mqtt_run runs connected. */
  lemma PublishingGoesOn(schedule: seq<Action>)
    requires AtomicCancel(BOOT, schedule)
    ensures var s := Run(BOOT, schedule); InRun(s) && s.flag ==> s.pending || s.handler != Idle
  {
    hide Run, Next, AtomicCancel;
    NeverLate(BOOT, schedule);
    BootInv();
    RunKeeps(BOOT, schedule);
  }

  /** Main does not reschedule the work item in this schedule. */
  predicate NoReschedule(s: State, schedule: seq<Action>)
    decreases |schedule|
  {
    schedule == [] ||
    (!(s.main == Reschedule && schedule[0].MainStep?) && NoReschedule(Next(s, schedule[0]), schedule[1..]))
  }

  /** Once lost, nothing is published until main has reconnected and rescheduled. */
  lemma {:induction false} LostUntilReschedule(s: State, schedule: seq<Action>)
    requires Lost(s) && NoReschedule(s, schedule)
    ensures Lost(Run(s, schedule)) && Run(s, schedule).sent == s.sent
    decreases |schedule|
  {
    if schedule != [] {
      LostStep(s, schedule[0]);
      hide Next, Lost;
      LostUntilReschedule(Next(s, schedule[0]), schedule[1..]);
    }
  }

  lemma LostStep(s: State, a: Action)
    requires Lost(s) && !(s.main == Reschedule && a.MainStep?)
    ensures Lost(Next(s, a)) && Next(s, a).sent == s.sent
  {
    hide MainNext, Raise;
    if a.MainStep? { MainFrame(s, a.rc, a.more, a.event); }
  }

  const OK := MainStep(0, false, Quiet)

  /** Main connects, is acknowledged and reaches app_mqtt_run. */
  lemma ReachRun(s: State) returns (s': State)
    requires Reachable(s) && s.main == ClearFlag && !s.open
    ensures Reachable(s') && s'.main == Subscribe && s'.flag && s'.open && s'.pending
    ensures s'.handler == s.handler && s'.late == (s.handler == Cancelling) && s'.sent == s.sent
  {
    hide Reachable;
    s' := s;
    ReachStep(s', OK); s' := Next(s', OK);
    ReachStep(s', OK); s' := Next(s', OK);
    ReachStep(s', OK); s' := Next(s', OK);
    assert s'.main == Poll && s'.open && s'.handler == s.handler;
    ReachStep(s', MainStep(1, false, Quiet)); s' := Next(s', MainStep(1, false, Quiet));
    ReachStep(s', MainStep(0, false, Connack(0))); s' := Next(s', MainStep(0, false, Connack(0)));
    assert s'.main == TestAbort && s'.flag && s'.open && s'.handler == s.handler;
    ReachStep(s', OK); s' := Next(s', OK);
    ReachStep(s', OK); s' := Next(s', OK);
    ReachStep(s', OK); s' := Next(s', OK);
  }

  /** The broker hangs up; the work item fires and finds the flag clear; main reconnects. */
  lemma ReachLateCancel(s: State) returns (s': State)
    requires Reachable(s) && s.main == Subscribe && s.open && s.pending && s.handler == Idle
    ensures Reachable(s') && s'.main == ClearFlag && !s'.open && s'.handler == Cancelling
  {
    hide Reachable;
    s' := s;
    var gone := MainStep(0, false, Disconnect);
    ReachStep(s', gone); s' := Next(s', gone);
    ReachStep(s', TimerFires); s' := Next(s', TimerFires);
    ReachStep(s', HandlerStep(Quiet)); s' := Next(s', HandlerStep(Quiet));
    assert s'.main == TestRun && !s'.flag && !s'.open && s'.handler == Cancelling;
    ReachStep(s', OK); s' := Next(s', OK);
    ReachStep(s', OK); s' := Next(s', OK);
  }

  lemma BootReachable()
    ensures Reachable(BOOT)
  {
    assert Run(BOOT, []) == BOOT;
  }

  /** The exception is real: a run that ends connected, in app_mqtt_run, with the item lost. */
  lemma PublishingCanStop() returns (s: State)
    ensures Reachable(s) && InRun(s) && s.flag && Lost(s)
  {
    BootReachable();
    hide Reachable, Run;
    s := ReachRun(BOOT);
    s := ReachLateCancel(s);
    s := ReachRun(s);
    ReachStep(s, HandlerStep(Quiet));
    s := Next(s, HandlerStep(Quiet));
  }

  // ---- message ids ----

  predicate Numbered(s: State) {
    && s.msgId == (|s.sent| + 1) % 0x1_0000
    && forall k :: 0 <= k < |s.sent| ==> s.sent[k] == (k + 1) % 0x1_0000
  }

  lemma NumberedStep(s: State, a: Action)
    requires Numbered(s)
    ensures Numbered(Next(s, a))
  {
    hide MainNext, Raise;
    if a.MainStep? { MainFrame(s, a.rc, a.more, a.event); }
    if a.HandlerStep? && s.handler == Publishing {
      RaiseFrame(s, a.raised);
      var s' := Next(s, a);
      assert s'.sent == s.sent + [s.msgId];
      assert (|s.sent| + 2) % 0x1_0000 == ((|s.sent| + 1) % 0x1_0000 + 1) % 0x1_0000;
    } else {
      assert Next(s, a).sent == s.sent && Next(s, a).msgId == s.msgId;
    }
  }

  lemma {:induction false} NumberedRun(s: State, schedule: seq<Action>)
    requires Numbered(s)
    ensures Numbered(Run(s, schedule))
    decreases |schedule|
  {
    if schedule != [] {
      NumberedStep(s, schedule[0]);
      hide Next, Numbered;
      NumberedRun(Next(s, schedule[0]), schedule[1..]);
    }
  }

  /** The id of call k of mqtt_publish, whatever that returns. */
  lemma MessageIds(s: State, k: nat)
    requires Reachable(s) && k < |s.sent|
    ensures s.sent[k] == (k + 1) % 0x1_0000
  {
    var schedule :| Run(BOOT, schedule) == s;
    hide Run;
    NumberedRun(BOOT, schedule);
  }

  /** Section 2.3.1 of MQTT 3.1.1: a PUBLISH with QoS above 0 carries a non-zero packet identifier. */
  predicate ForbiddenId(qos: nat, id: nat) {
    qos > 0 && id == 0
  }

  /** When mqtt_publish is passed such an id: never at QoS 0, else from its 65536th call on. */
  lemma ForbiddenExactly(s: State, qos: nat)
    requires Reachable(s)
    ensures (exists k :: 0 <= k < |s.sent| && ForbiddenId(qos, s.sent[k])) <==> qos > 0 && |s.sent| >= 0x1_0000
  {
    hide Reachable;
    forall k | 0 <= k < |s.sent| ensures s.sent[k] == (k + 1) % 0x1_0000 { MessageIds(s, k); }
    if |s.sent| >= 0x1_0000 {
      assert s.sent[0xFFFF] == 0;
    } else {
      assert forall k | 0 <= k < |s.sent| :: s.sent[k] == k + 1;
    }
  }

  /** Connected in app_mqtt_run with the work item scheduled and its handler idle. */
  predicate ReadyToPublish(s: State) {
    s.main == Subscribe && s.flag && s.open && s.pending && s.handler == Idle
  }

  lemma PublishOnce(s: State) returns (s': State)
    requires Reachable(s) && ReadyToPublish(s)
    ensures Reachable(s') && ReadyToPublish(s') && |s'.sent| == |s.sent| + 1
  {
    hide Reachable;
    s' := s;
    ReachStep(s', TimerFires); s' := Next(s', TimerFires);
    ReachStep(s', HandlerStep(Quiet)); s' := Next(s', HandlerStep(Quiet));
    ReachStep(s', HandlerStep(Quiet)); s' := Next(s', HandlerStep(Quiet));
    ReachStep(s', HandlerStep(Quiet)); s' := Next(s', HandlerStep(Quiet));
  }

  /** Runs with any number of calls of mqtt_publish exist. */
  lemma {:induction false} PublishMany(n: nat) returns (s: State)
    ensures Reachable(s) && ReadyToPublish(s) && |s.sent| == n
  {
    hide Reachable;
    if n == 0 {
      BootReachable();
      s := ReachRun(BOOT);
    } else {
      s := PublishMany(n - 1);
      s := PublishOnce(s);
    }
  }

  /** So at QoS 1 or 2 some run does pass the forbidden id. */
  lemma ForbiddenReached(qos: nat) returns (s: State, k: nat)
    requires qos > 0
    ensures Reachable(s) && k < |s.sent| && ForbiddenId(qos, s.sent[k])
  {
    hide Reachable;
    s := PublishMany(0x1_0000);
    ForbiddenExactly(s, qos);
    k :| 0 <= k < |s.sent| && ForbiddenId(qos, s.sent[k]);
  }

  lemma RescheduleAlone(s: State, rc: int, more: bool, e: Event)
    requires s.main == Reschedule
    ensures MainNext(s, rc, more, e) == MainNext(s, 0, false, Quiet)
  {
  }

  // ---- the program, updating its variables in place ----

  class App {
    var mqttConnected: bool
    var open: bool
    var main: Main
    var pending: bool
    var handler: Handler
    var late: bool
    var msgId: nat
    var sent: seq<nat>
    var log: seq<Mark>

    ghost function Now(): State
      reads this
    {
      State(mqttConnected, open, main, pending, handler, late, msgId, sent, log)
    }

    constructor ()
      ensures Now() == BOOT && Inv(Now())
    {
      mqttConnected, open, main, pending, handler, late := false, false, ClearFlag, false, Idle, false;
      msgId, sent, log := 1, [], [];
      new;
      BootInv();
    }

    method CloseConnection()
      modifies this
      ensures Now() == Close(old(Now()))
    {
      if open {
        open := false;
        log := log + [Closed];
      }
    }

    method MqttEventHandler(e: Event)
      modifies this
      ensures Now() == Deliver(old(Now()), e)
    {
      match e
      case Quiet =>
      case Connack(result) =>
        if open {
          log := log + [Acked(result)];
          if result == 0 { mqttConnected := true; }
        }
      case Disconnect =>
        CloseConnection();
        mqttConnected := false;
    }

    method RaiseEvent(e: Event)
      modifies this
      ensures Now() == Raise(old(Now()), e)
    {
      if !e.Connack? { MqttEventHandler(e); }
    }

    /** mqtt_input reports an event; main goes on. */
    method InputThen(e: Event, next: Main)
      modifies this
      ensures Now() == Deliver(old(Now()), e).(main := next)
    {
      hide Deliver;
      MqttEventHandler(e);
      main := next;
    }

    /** Another call reports at most that the connection is gone. */
    method RaiseThen(e: Event, next: Main)
      modifies this
      ensures Now() == Raise(old(Now()), e).(main := next)
    {
      hide Raise;
      RaiseEvent(e);
      main := next;
    }

    /** mqtt_abort and mqtt_disconnect. */
    method CloseThen(e: Event, next: Main)
      modifies this
      ensures Now() == Raise(Close(old(Now())), e).(main := next)
    {
      hide Raise, Close;
      CloseConnection();
      RaiseThen(e, next);
    }

    /** The part of app_mqtt_connect up to the poll, and main's reschedule. */
    method ConnectStep(rc: int, more: bool, e: Event)
      requires !Running(main) && main != Reschedule
      modifies this
      ensures Now() == MainNext(old(Now()), rc, more, e)
    {
      assert !main.Subscribe? && !main.TestRun? && !main.PollRun? && !main.InputRun? && !main.Live?
             && !main.Disconnecting? && !main.Reschedule?;
      hide Deliver, Close, Raise, Running;
      match main
      case ClearFlag => mqttConnected, main := false, TestConnect;
      case TestConnect => main := if mqttConnected then Reschedule else Connect;
      case Connect =>
        if rc != 0 {
          log, main := log + [Attempt(false)], TestConnect;
        } else {
          log, open, main := log + [Attempt(true)], true, Poll;
        }
      case Poll => main := if rc > 0 then Input else TestAbort;
      case Input => InputThen(e, if more then Input else TestAbort);
      case TestAbort => main := if mqttConnected then TestConnect else Abort;
      case Abort => CloseThen(e, TestConnect);
    }

    /** Main begins the periodic publishing and calls app_mqtt_run. */
    method RescheduleStep()
      requires main == Reschedule
      modifies this
      ensures Now() == MainNext(old(Now()), 0, false, Quiet)
    {
      pending, late, main := true, handler == Cancelling, Subscribe;
      log := log + [Entered];
    }

    /** One step of app_mqtt_run and the app_mqtt_process it loops over. */
    method RunStep(rc: int, more: bool, e: Event)
      requires Running(main)
      modifies this
      ensures Now() == MainNext(old(Now()), rc, more, e)
    {
      hide Deliver, Close, Raise;
      match main
      case Subscribe => RaiseThen(e, TestRun);
      case TestRun => main := if mqttConnected then PollRun else Disconnecting;
      case PollRun => main := if rc == 0 then Live else if more then InputRun else TestRun;
      case InputRun => InputThen(e, if more then InputRun else if rc == 0 then TestRun else Disconnecting);
      case Live => RaiseThen(e, if rc == 0 then TestRun else Disconnecting);
      case Disconnecting => CloseThen(e, ClearFlag);
    }

    /** One step of publish_work_handler. */
    method PublishWorkHandler(e: Event)
      modifies this
      ensures Now() == HandlerNext(old(Now()), e)
    {
      RaiseFrame(Now(), e);
      hide Raise;
      match handler
      case Idle =>
      case Testing => handler := if mqttConnected then Publishing else Cancelling;
      case Publishing =>
        RaiseEvent(e);
        sent := sent + [msgId];
        msgId := (msgId + 1) % 0x1_0000;
        handler := Rescheduling;
      case Rescheduling => pending, handler := true, Idle;
      case Cancelling => pending, handler := false, Idle;
    }

    /** One step of the whole program. */
    method Step(a: Action)
      requires Inv(Now())
      modifies this
      ensures Inv(Now()) && Now() == Next(old(Now()), a)
    {
      NextKeeps(Now(), a);
      hide Inv, MainNext, HandlerNext;
      match a
      case MainStep(rc, more, e) =>
        if Running(main) {
          RunStep(rc, more, e);
        } else if main == Reschedule {
          RescheduleStep();
          RescheduleAlone(old(Now()), rc, more, e);
        } else {
          ConnectStep(rc, more, e);
        }
      case HandlerStep(e) => PublishWorkHandler(e);
      case TimerFires => if pending && handler == Idle { pending, handler := false, Testing; }
    }
  }
}
