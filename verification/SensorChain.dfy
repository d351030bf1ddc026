/**
 The sensor pipeline: three workers and a coordinator pass one token through four binary
 semaphores, share a snapshot under a mutex, and can be started and stopped from the shell
 at any moment.  Each step below is one kernel call or one statement between kernel calls,
 so a schedule may interleave the threads and the shell commands anywhere.

 Worker w (0 humidity/temperature, 1 pressure, 2 inertial) waits on semaphore w and gives
 semaphore w + 1; the coordinator gives semaphore 0 and waits on semaphore 3.
 */
module SensorChain {
  import opened Wrappers
  import opened Kernel

  const WORKERS := 3
  const COORD := 3       // the coordinator's number as mutex owner and in the event trace

  /** What a worker got: its parsed values, or nothing when fetching or parsing failed. */
  type Reading = Option<seq<real>>

  /** Fields of the snapshot each worker owns: temperature and humidity, pressure, six axes. */
  function Width(w: nat): nat {
    if w == 0 then 2 else if w == 1 then 1 else 6
  }

  function Zeros(n: nat): seq<real> {
    seq(n, _ => 0.0)
  }

  /** The part of the shared snapshot one worker updates. */
  datatype Group = Group(values: seq<real>, ok: bool)

  type Snapshot = seq<Group>

  const CLEARED: Snapshot := [Group(Zeros(2), false), Group(Zeros(1), false), Group(Zeros(6), false)]

  datatype WorkerPc = Dead | Waiting | Sampling | Locking(r: Reading) | Storing(r: Reading) | Unlocking | Giving

  datatype CoordPc = Off | Triggering | Awaiting | CoordLocking | Copying
                   | CoordUnlocking(snap: Snapshot) | Logging(snap: Snapshot) | Resting

  datatype Shell = Idle | Starting(i: nat) | Stopping(i: nat)

  datatype State = State(
    sems: seq<nat>,
    workers: seq<WorkerPc>,
    coord: CoordPc,
    mutex: Option<nat>,
    sd: Snapshot,
    file: seq<Snapshot>,             // lines that reached the log file
    shell: Shell,
    // history since the last start
    results: seq<seq<Reading>>,      // what each worker got, cycle by cycle
    logged: seq<Snapshot>,           // one line per completed cycle
    events: seq<nat>)                // worker numbers as they finish, COORD for a line

  datatype Action = Work(w: nat, r: Reading) | Coord(written: bool) | ShellGo | BeginStart | BeginStop

  predicate LegalAction(a: Action) {
    a.Work? ==> a.w < WORKERS && (a.r.Some? ==> |a.r.value| == Width(a.w))
  }

  predicate Shaped(s: State) {
    |s.sems| == 4 && |s.workers| == |s.sd| == |s.results| == 3
  }

  const BOOT := State([0, 0, 0, 0], [Dead, Dead, Dead], Off, None, CLEARED, [], Idle, [[], [], []], [], [])

  /** A failed reading keeps the old values and drops the flag. */
  function Stored(g: Group, r: Reading): Group {
    match r
    case Some(v) => Group(v, true)
    case None => g.(ok := false)
  }

  function WorkerStep(s: State, w: nat, r: Reading): (s': State)
    requires Shaped(s) && w < WORKERS
    ensures Shaped(s')
  {
    match s.workers[w]
    case Dead => s
    case Waiting =>
      if s.sems[w] == 0 then s
      else s.(sems := s.sems[w := s.sems[w] - 1], workers := s.workers[w := Sampling])
    case Sampling =>
      s.(workers := s.workers[w := Locking(r)], results := s.results[w := s.results[w] + [r]])
    case Locking(q) =>
      if s.mutex.Some? then s else s.(mutex := Some(w), workers := s.workers[w := Storing(q)])
    case Storing(q) =>
      s.(sd := s.sd[w := Stored(s.sd[w], q)], workers := s.workers[w := Unlocking])
    case Unlocking => s.(mutex := None, workers := s.workers[w := Giving])
    case Giving =>
      s.(sems := s.sems[w + 1 := Give(s.sems[w + 1])], workers := s.workers[w := Waiting], events := s.events + [w])
  }

  function CoordStep(s: State, written: bool): (s': State)
    requires Shaped(s)
    ensures Shaped(s')
  {
    match s.coord
    case Off => s
    case Triggering => s.(sems := s.sems[0 := Give(s.sems[0])], coord := Awaiting)
    case Awaiting =>
      if s.sems[3] == 0 then s else s.(sems := s.sems[3 := s.sems[3] - 1], coord := CoordLocking)
    case CoordLocking => if s.mutex.Some? then s else s.(mutex := Some(COORD), coord := Copying)
    case Copying => s.(coord := CoordUnlocking(s.sd))
    case CoordUnlocking(snap) => s.(mutex := None, coord := Logging(snap))
    case Logging(snap) =>
      s.(logged := s.logged + [snap], file := if written then s.file + [snap] else s.file,
         events := s.events + [COORD], coord := Resting)
    case Resting => s.(coord := Triggering)
  }

  /** One statement of start_sensors or stop_sensors. */
  function ShellStep(s: State): (s': State)
    requires Shaped(s)
    ensures Shaped(s')
  {
    match s.shell
    case Idle => s
    case Starting(i) =>
      if i == 0 then
        var t := s.(shell := Starting(1));
        if s.workers[0] != Dead then t
        else t.(mutex := None, sd := CLEARED, workers := s.workers[0 := Waiting],
                results := [[], [], []], logged := [], events := [])
      else if i < WORKERS then
        s.(shell := Starting(i + 1), workers := if s.workers[i] != Dead then s.workers else s.workers[i := Waiting])
      else
        s.(shell := Idle, coord := if s.coord != Off then s.coord else Triggering)
    case Stopping(i) =>
      if i == 0 then s.(shell := Stopping(1), coord := Off)
      else if i <= WORKERS then s.(shell := Stopping(i + 1), workers := s.workers[i - 1 := Dead])
      else if i < 8 then
        if s.sems[i - 4] > 0 then s.(sems := s.sems[i - 4 := s.sems[i - 4] - 1])
        else s.(shell := if i == 7 then Idle else Stopping(i + 1))
      else s.(shell := Idle)
  }

  function Next(s: State, a: Action): (s': State)
    requires Shaped(s) && LegalAction(a)
    ensures Shaped(s')
  {
    match a
    case Work(w, r) => WorkerStep(s, w, r)
    case Coord(written) => CoordStep(s, written)
    case ShellGo => ShellStep(s)
    case BeginStart => if s.shell == Idle then s.(shell := Starting(0)) else s
    case BeginStop => if s.shell == Idle then s.(shell := Stopping(0)) else s
  }

  /** A schedule: an action of a blocked or missing thread changes nothing. */
  function Run(s: State, schedule: seq<Action>): (s': State)
    requires Shaped(s) && forall a :: a in schedule ==> LegalAction(a)
    ensures Shaped(s')
    decreases |schedule|
  {
    if schedule == [] then s else Run(Next(s, schedule[0]), schedule[1..])
  }

  // ---- the token ----

  predicate Active(pc: WorkerPc) {
    pc != Dead && pc != Waiting
  }

  predicate CoordActive(pc: CoordPc) {
    pc != Off && pc != Awaiting
  }

  function Bit(b: bool): nat {
    if b then 1 else 0
  }

  /** Semaphore counts plus threads inside their section. */
  function Tokens(s: State): nat
    requires Shaped(s)
  {
    s.sems[0] + s.sems[1] + s.sems[2] + s.sems[3]
    + Bit(Active(s.workers[0])) + Bit(Active(s.workers[1])) + Bit(Active(s.workers[2])) + Bit(CoordActive(s.coord))
  }

  // ---- what the snapshot should hold ----

  /** The most recent success, or zeros when there was none. */
  function LastSuccess(rs: seq<Reading>, w: nat): seq<real> {
    if rs == [] then Zeros(Width(w))
    else if rs[|rs| - 1].Some? then rs[|rs| - 1].value
    else LastSuccess(rs[..|rs| - 1], w)
  }

  function Expected(rs: seq<Reading>, w: nat): Group {
    Group(LastSuccess(rs, w), rs != [] && rs[|rs| - 1].Some?)
  }

  // ---- the invariant ----

  /** The first `done` workers have sampled in the current cycle, and `marks` events are out. */
  ghost predicate InCycle(s: State, done: nat, marks: nat)
    requires Shaped(s)
  {
    && (forall w :: 0 <= w < WORKERS ==> |s.results[w]| == |s.logged| + Bit(w < done))
    && |s.events| == 4 * |s.logged| + marks
  }

  /** Wherever the token is, the histories have the lengths that belong to that place. */
  ghost predicate Placed(s: State)
    requires Shaped(s)
  {
    && (forall j :: 0 <= j < 4 && s.sems[j] > 0 ==> InCycle(s, j, j))
    && (forall w :: 0 <= w < WORKERS && Active(s.workers[w]) ==>
          InCycle(s, if s.workers[w] == Sampling then w else w + 1, w))
    && (CoordActive(s.coord) ==>
          if s.coord == Triggering || s.coord == Resting then InCycle(s, 0, 0) else InCycle(s, 3, 3))
  }

  predicate WorkerHolds(pc: WorkerPc) {
    pc.Storing? || pc == Unlocking
  }

  predicate CoordHolds(pc: CoordPc) {
    pc == Copying || pc.CoordUnlocking?
  }

  /** The mutex is held by the thread in its critical section, or by one that was aborted there. */
  ghost predicate MutexInv(s: State)
    requires Shaped(s)
  {
    && (forall w :: 0 <= w < WORKERS && WorkerHolds(s.workers[w]) ==> s.mutex == Some(w))
    && (CoordHolds(s.coord) ==> s.mutex == Some(COORD))
    && (s.mutex.Some? ==>
          || Tokens(s) == 0
          || (s.mutex.value < WORKERS && WorkerHolds(s.workers[s.mutex.value]))
          || (s.mutex.value == COORD && CoordHolds(s.coord)))
  }

  /** A live worker's group is what its readings so far call for. */
  ghost predicate WorkerData(s: State, w: nat)
    requires Shaped(s) && w < WORKERS
  {
    var rs := s.results[w];
    match s.workers[w]
    case Dead => true
    case Locking(r) => rs != [] && r == rs[|rs| - 1] && s.sd[w] == Expected(rs[..|rs| - 1], w)
    case Storing(r) => rs != [] && r == rs[|rs| - 1] && s.sd[w] == Expected(rs[..|rs| - 1], w)
    case _ => s.sd[w] == Expected(rs, w)
  }

  ghost predicate LineOk(s: State, k: nat, w: nat)
    requires Shaped(s) && k < |s.logged| && w < WORKERS
  {
    && k < |s.results[w]| && |s.logged[k]| == 3
    && s.logged[k][w] == Expected(s.results[w][..k + 1], w)
  }

  ghost predicate GroupsOk(s: State)
    requires Shaped(s)
  {
    && (forall w :: 0 <= w < WORKERS ==> WorkerData(s, w))
    && (s.coord.CoordUnlocking? || s.coord.Logging? ==> s.coord.snap == s.sd)
  }

  ghost predicate LinesOk(s: State)
    requires Shaped(s)
  {
    forall k, w :: 0 <= k < |s.logged| && 0 <= w < WORKERS ==> LineOk(s, k, w)
  }

  /** The event trace is a prefix of worker 0, 1, 2, line, worker 0, ... */
  predicate EventsOk(events: seq<nat>) {
    forall i :: 0 <= i < |events| ==> events[i] == i % 4
  }

  ghost predicate DataInv(s: State)
    requires Shaped(s)
  {
    GroupsOk(s) && LinesOk(s) && EventsOk(s.events)
  }

  predicate AllAlive(s: State)
    requires Shaped(s)
  {
    s.coord != Off && forall w :: 0 <= w < WORKERS ==> s.workers[w] != Dead
  }

  predicate AllDead(s: State)
    requires Shaped(s)
  {
    s.coord == Off && forall w :: 0 <= w < WORKERS ==> s.workers[w] == Dead
  }

  predicate Drained(s: State)
    requires Shaped(s)
  {
    s.sems == [0, 0, 0, 0]
  }

  /** Half-way through a start from the stopped state: i workers exist and nothing has happened. */
  predicate HalfStarted(s: State, i: nat)
    requires Shaped(s)
  {
    && Drained(s) && s.coord == Off && s.mutex == None && s.sd == CLEARED
    && (forall w :: 0 <= w < WORKERS ==> s.workers[w] == if w < i then Waiting else Dead)
    && s.results == [[], [], []] && s.logged == [] && s.events == []
  }

  ghost predicate ShellInv(s: State)
    requires Shaped(s)
  {
    match s.shell
    case Idle => AllAlive(s) || (AllDead(s) && Drained(s))
    case Starting(i) =>
      i <= WORKERS && (AllAlive(s) || (if i == 0 then AllDead(s) && Drained(s) else HalfStarted(s, i)))
    case Stopping(i) =>
      && i <= 7
      && (i == 0 ==> AllAlive(s) || AllDead(s))
      && (i > 0 ==> s.coord == Off)
      && (forall w :: 0 <= w < WORKERS && w + 1 < i ==> s.workers[w] == Dead)
      && (forall j :: 0 <= j < 4 && j + 4 < i ==> s.sems[j] == 0)
  }

  ghost predicate Inv(s: State) {
    && Shaped(s)
    && TokenInv(s) && Placed(s) && MutexInv(s) && DataInv(s) && ShellInv(s)
  }

  lemma BootInv()
    ensures Inv(BOOT)
  {
  }

  ghost predicate TokenInv(s: State)
    requires Shaped(s)
  {
    && (forall j :: 0 <= j < 4 ==> s.sems[j] <= 1)
    && Tokens(s) <= 1 && (s.coord != Off ==> Tokens(s) == 1)
  }

  // ---- at most one token ----

  lemma AtMostOne(s: State, w: nat)
    requires Shaped(s) && Tokens(s) <= 1 && w < WORKERS && Active(s.workers[w])
    ensures !CoordActive(s.coord) && Tokens(s) == 1
    ensures forall v :: 0 <= v < WORKERS && v != w ==> !Active(s.workers[v])
    ensures forall j :: 0 <= j < 4 ==> s.sems[j] == 0
  {
    if w == 0 {
    } else if w == 1 {
    } else {
    }
  }

  lemma CoordAlone(s: State)
    requires Shaped(s) && Tokens(s) <= 1 && CoordActive(s.coord)
    ensures forall v :: 0 <= v < WORKERS ==> !Active(s.workers[v])
    ensures forall j :: 0 <= j < 4 ==> s.sems[j] == 0
  {
  }

  lemma SemaphoreAlone(s: State, j: nat)
    requires Shaped(s) && Tokens(s) <= 1 && j < 4 && s.sems[j] > 0
    ensures s.sems[j] == 1 && Tokens(s) == 1 && !CoordActive(s.coord)
    ensures forall v :: 0 <= v < WORKERS ==> !Active(s.workers[v])
    ensures forall k :: 0 <= k < 4 && k != j ==> s.sems[k] == 0
  {
    if j == 0 {
    } else if j == 1 {
    } else if j == 2 {
    } else {
    }
  }

  // ---- a worker's step ----

  lemma WorkerKeepsToken(s: State, w: nat, r: Reading)
    requires Shaped(s) && TokenInv(s) && w < WORKERS
    ensures TokenInv(WorkerStep(s, w, r)) && Tokens(WorkerStep(s, w, r)) == Tokens(s)
  {
    if w == 0 {
    } else if w == 1 {
    } else {
    }
  }

  lemma WorkerKeepsPlace(s: State, w: nat, r: Reading)
    requires Shaped(s) && TokenInv(s) && Placed(s) && w < WORKERS
    ensures Placed(WorkerStep(s, w, r))
  {
    hide Tokens, Stored;
    if Active(s.workers[w]) {
      AtMostOne(s, w);
    } else if s.workers[w] == Waiting && s.sems[w] > 0 {
      SemaphoreAlone(s, w);
    }
  }

  lemma WorkerKeepsMutex(s: State, w: nat, r: Reading)
    requires Shaped(s) && TokenInv(s) && MutexInv(s) && w < WORKERS
    ensures MutexInv(WorkerStep(s, w, r))
  {
    hide Tokens, Stored;
    WorkerKeepsToken(s, w, r);
    if Active(s.workers[w]) {
      AtMostOne(s, w);
    } else if s.workers[w] == Waiting && s.sems[w] > 0 {
      SemaphoreAlone(s, w);
    }
  }

  lemma StoredIsExpected(rs: seq<Reading>, w: nat)
    requires rs != []
    ensures Stored(Expected(rs[..|rs| - 1], w), rs[|rs| - 1]) == Expected(rs, w)
  {
  }

  /** A worker that stores is the only one active, so nobody holds a copy of the old snapshot. */
  lemma WorkerKeepsGroups(s: State, w: nat, r: Reading)
    requires Shaped(s) && TokenInv(s) && GroupsOk(s) && w < WORKERS
    ensures GroupsOk(WorkerStep(s, w, r))
  {
    var s' := WorkerStep(s, w, r);
    var rs := s.results[w];
    if s.workers[w] == Sampling {
      assert (rs + [r])[..|rs|] == rs;
    } else if s.workers[w].Storing? {
      assert WorkerData(s, w);
      StoredIsExpected(rs, w);
      assert !CoordActive(s.coord) by { AtMostOne(s, w); }
    }
    hide Expected, Tokens;
    forall v | 0 <= v < WORKERS ensures WorkerData(s', v) {
      assert WorkerData(s, v);
    }
  }

  lemma LinesStay(s: State, t: State)
    requires Shaped(s) && Shaped(t) && LinesOk(s) && t.logged == s.logged
    requires forall w :: 0 <= w < WORKERS ==> s.results[w] <= t.results[w]
    ensures LinesOk(t)
  {
    forall k, w | 0 <= k < |t.logged| && 0 <= w < WORKERS ensures LineOk(t, k, w) {
      assert LineOk(s, k, w);
      assert s.results[w][..k + 1] == t.results[w][..k + 1];
    }
  }

  lemma WorkerKeepsEvents(s: State, w: nat, r: Reading)
    requires Shaped(s) && Placed(s) && EventsOk(s.events) && w < WORKERS
    ensures EventsOk(WorkerStep(s, w, r).events)
  {
    if s.workers[w] == Giving {
      assert InCycle(s, w + 1, w);
    }
  }

  lemma WorkerKeepsData(s: State, w: nat, r: Reading)
    requires Shaped(s) && TokenInv(s) && Placed(s) && DataInv(s) && w < WORKERS
    ensures DataInv(WorkerStep(s, w, r))
  {
    WorkerKeepsGroups(s, w, r);
    WorkerKeepsEvents(s, w, r);
    LinesStay(s, WorkerStep(s, w, r));
  }

  lemma WorkerKeepsShell(s: State, w: nat, r: Reading)
    requires Shaped(s) && TokenInv(s) && ShellInv(s) && w < WORKERS
    ensures ShellInv(WorkerStep(s, w, r))
  {
  }

  lemma WorkerKeeps(s: State, w: nat, r: Reading)
    requires Inv(s) && w < WORKERS
    ensures Inv(WorkerStep(s, w, r))
  {
    WorkerKeepsToken(s, w, r);
    WorkerKeepsPlace(s, w, r);
    WorkerKeepsMutex(s, w, r);
    WorkerKeepsData(s, w, r);
    WorkerKeepsShell(s, w, r);
    hide WorkerStep, Tokens, Placed, MutexInv, DataInv, ShellInv;
  }

  // ---- a coordinator's step ----

  lemma CoordMeansAlive(s: State)
    requires Shaped(s) && ShellInv(s) && s.coord != Off
    ensures AllAlive(s)
  {
  }

  lemma CoordKeepsToken(s: State, written: bool)
    requires Shaped(s) && TokenInv(s)
    ensures TokenInv(CoordStep(s, written)) && Tokens(CoordStep(s, written)) == Tokens(s)
  {
  }

  lemma CoordKeepsPlace(s: State, written: bool)
    requires Shaped(s) && TokenInv(s) && Placed(s)
    ensures Placed(CoordStep(s, written))
  {
    if CoordActive(s.coord) {
      CoordAlone(s);
    } else if s.coord == Awaiting && s.sems[3] > 0 {
      SemaphoreAlone(s, 3);
    }
    hide Tokens;
  }

  lemma CoordKeepsMutex(s: State, written: bool)
    requires Shaped(s) && TokenInv(s) && MutexInv(s)
    ensures MutexInv(CoordStep(s, written))
  {
    CoordKeepsToken(s, written);
  }

  lemma CoordKeepsLines(s: State, written: bool)
    requires Shaped(s) && TokenInv(s) && Placed(s) && DataInv(s) && ShellInv(s)
    ensures LinesOk(CoordStep(s, written))
  {
    var t := CoordStep(s, written);
    if s.coord.Logging? {
      CoordMeansAlive(s);
      CoordAlone(s);
      assert InCycle(s, 3, 3);
      hide Tokens, Expected;
      forall k, w | 0 <= k < |t.logged| && 0 <= w < WORKERS ensures LineOk(t, k, w) {
        if k < |s.logged| {
          assert LineOk(s, k, w);
        } else {
          assert WorkerData(s, w);
          assert s.results[w][..k + 1] == s.results[w];
        }
      }
    } else {
      LinesStay(s, t);
    }
  }

  lemma CoordKeepsData(s: State, written: bool)
    requires Shaped(s) && TokenInv(s) && Placed(s) && DataInv(s) && ShellInv(s)
    ensures DataInv(CoordStep(s, written))
  {
    CoordKeepsLines(s, written);
    var t := CoordStep(s, written);
    forall w | 0 <= w < WORKERS ensures WorkerData(t, w) {
      assert WorkerData(s, w);
    }
    if s.coord.Logging? {
      assert InCycle(s, 3, 3);
    }
  }

  lemma CoordKeepsShell(s: State, written: bool)
    requires Shaped(s) && ShellInv(s)
    ensures ShellInv(CoordStep(s, written))
  {
  }

  lemma CoordKeeps(s: State, written: bool)
    requires Inv(s)
    ensures Inv(CoordStep(s, written))
  {
    CoordKeepsToken(s, written);
    CoordKeepsPlace(s, written);
    CoordKeepsMutex(s, written);
    CoordKeepsData(s, written);
    CoordKeepsShell(s, written);
    hide CoordStep, Tokens, Placed, MutexInv, DataInv, ShellInv;
  }

  // ---- a shell step ----

  lemma ShellKeepsToken(s: State)
    requires Shaped(s) && TokenInv(s) && ShellInv(s)
    ensures TokenInv(ShellStep(s))
  {
  }

  lemma ShellKeepsPlace(s: State)
    requires Shaped(s) && TokenInv(s) && Placed(s) && ShellInv(s)
    ensures Placed(ShellStep(s))
  {
    hide Tokens;
    var t := ShellStep(s);
    if s.shell.Starting? {
      if s.shell.i == 0 && s.workers[0] == Dead {
        assert AllDead(s) && Drained(s);
      } else if s.shell.i == WORKERS && s.coord == Off {
        assert HalfStarted(s, WORKERS);
        assert InCycle(t, 0, 0);
      }
    } else if s.shell.Stopping? {
      assert forall d, e :: InCycle(t, d, e) == InCycle(s, d, e);
    }
  }

  lemma ShellKeepsMutex(s: State)
    requires Shaped(s) && TokenInv(s) && MutexInv(s) && ShellInv(s)
    ensures MutexInv(ShellStep(s))
  {
  }

  lemma ClearedIsExpected(w: nat)
    requires w < WORKERS
    ensures CLEARED[w] == Expected([], w)
  {
  }

  /** The first statement of a start that finds no first worker resets the data and its history. */
  lemma ResetKeepsData(s: State)
    requires Shaped(s) && ShellInv(s) && s.shell == Starting(0) && s.workers[0] == Dead
    ensures DataInv(ShellStep(s))
  {
    hide Expected;
    ClearedIsExpected(0);
    assert AllDead(s);
  }

  /** A worker that is created finds the data as it should be for no readings at all. */
  lemma CreateKeepsData(s: State, w: nat)
    requires Shaped(s) && ShellInv(s) && s.shell == Starting(w) && 1 <= w < WORKERS && s.workers[w] == Dead
    ensures WorkerData(ShellStep(s), w)
  {
    hide Expected;
    ClearedIsExpected(w);
    assert HalfStarted(s, w);
  }

  /** Every other statement leaves snapshot and history alone, and at most ends threads or creates one. */
  lemma OtherKeepsData(s: State)
    requires Shaped(s) && DataInv(s) && ShellInv(s)
    requires !(s.shell == Starting(0) && s.workers[0] == Dead)
    ensures DataInv(ShellStep(s))
  {
    var t := ShellStep(s);
    assert t.sd == s.sd && t.results == s.results && t.logged == s.logged && t.events == s.events;
    assert t.coord == s.coord || t.coord == Off || t.coord == Triggering;
    assert forall w | 0 <= w < WORKERS ::
      t.workers[w] == s.workers[w] || t.workers[w] == Dead || (s.shell == Starting(w) && s.workers[w] == Dead);
    LinesStay(s, t);
    forall w | 0 <= w < WORKERS ensures WorkerData(t, w) {
      if s.shell == Starting(w) && s.workers[w] == Dead && w > 0 {
        CreateKeepsData(s, w);
      } else {
        WorkerStays(s, t, w);
      }
    }
    hide ShellStep, ShellInv, WorkerData, LinesOk;
  }

  lemma WorkerStays(s: State, t: State, w: nat)
    requires Shaped(s) && Shaped(t) && w < WORKERS && WorkerData(s, w)
    requires t.sd == s.sd && t.results == s.results && (t.workers[w] == s.workers[w] || t.workers[w] == Dead)
    ensures WorkerData(t, w)
  {
    hide Expected;
  }

  lemma ShellKeepsData(s: State)
    requires Shaped(s) && TokenInv(s) && DataInv(s) && ShellInv(s)
    ensures DataInv(ShellStep(s))
  {
    hide ShellStep, DataInv, ShellInv, Tokens;
    if s.shell == Starting(0) && s.workers[0] == Dead { ResetKeepsData(s); } else { OtherKeepsData(s); }
  }

  lemma ShellKeepsShell(s: State)
    requires Shaped(s) && TokenInv(s) && ShellInv(s)
    ensures ShellInv(ShellStep(s))
  {
    if s.shell.Stopping? && s.shell.i == 7 && s.sems[3] == 0 {
      assert s.sems == [0, 0, 0, 0];
    }
  }

  lemma ShellKeeps(s: State)
    requires Inv(s)
    ensures Inv(ShellStep(s))
  {
    ShellKeepsToken(s);
    ShellKeepsPlace(s);
    ShellKeepsMutex(s);
    ShellKeepsData(s);
    ShellKeepsShell(s);
    hide ShellStep, Tokens, Placed, MutexInv, DataInv, ShellInv;
  }
}
