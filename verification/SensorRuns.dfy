/** What holds of the sensor pipeline over every schedule. */
module SensorRuns {
  import opened Wrappers
  import opened SensorChain

  predicate LegalSchedule(schedule: seq<Action>) {
    forall a :: a in schedule ==> LegalAction(a)
  }

  lemma NextKeeps(s: State, a: Action)
    requires Inv(s) && LegalAction(a)
    ensures Inv(Next(s, a))
  {
    match a
    case Work(w, r) => WorkerKeeps(s, w, r);
    case Coord(written) => CoordKeeps(s, written);
    case ShellGo => ShellKeeps(s);
    case BeginStart => BeginKeeps(s, s.(shell := Starting(0)));
    case BeginStop => BeginKeeps(s, s.(shell := Stopping(0)));
  }

  lemma BeginKeeps(s: State, t: State)
    requires Inv(s) && (t == s.(shell := Starting(0)) || t == s.(shell := Stopping(0)))
    ensures s.shell == Idle ==> Inv(t)
  {
    hide Tokens, WorkerData, LineOk, Placed, MutexInv, DataInv;
    SameTokens(s, t);
    SamePlaces(s, t);
    SameData(s, t);
  }

  lemma SameTokens(s: State, t: State)
    requires Shaped(s) && (t == s.(shell := Starting(0)) || t == s.(shell := Stopping(0)))
    ensures Tokens(t) == Tokens(s) && (TokenInv(s) ==> TokenInv(t)) && (MutexInv(s) ==> MutexInv(t))
  {
  }

  lemma SamePlaces(s: State, t: State)
    requires Shaped(s) && (t == s.(shell := Starting(0)) || t == s.(shell := Stopping(0))) && Placed(s)
    ensures Placed(t)
  {
    assert forall d, e :: InCycle(t, d, e) == InCycle(s, d, e);
  }

  lemma SameData(s: State, t: State)
    requires Shaped(s) && (t == s.(shell := Starting(0)) || t == s.(shell := Stopping(0))) && DataInv(s)
    ensures DataInv(t)
  {
    hide Expected;
    assert forall w | 0 <= w < WORKERS :: WorkerData(t, w) == WorkerData(s, w);
    assert forall k, w | 0 <= k < |s.logged| && 0 <= w < WORKERS :: LineOk(t, k, w) == LineOk(s, k, w);
  }

  /** Every reachable state satisfies the invariant. */
  lemma {:induction false} RunKeeps(s: State, schedule: seq<Action>)
    requires Inv(s) && LegalSchedule(schedule)
    ensures Inv(Run(s, schedule))
    decreases |schedule|
  {
    if schedule != [] {
      NextKeeps(s, schedule[0]);
      RunKeeps(Next(s, schedule[0]), schedule[1..]);
    }
  }

  ghost predicate Reachable(s: State) {
    exists schedule :: LegalSchedule(schedule) && Run(BOOT, schedule) == s
  }

  lemma ReachableInv(s: State)
    requires Reachable(s)
    ensures Inv(s)
  {
    var schedule :| LegalSchedule(schedule) && Run(BOOT, schedule) == s;
    BootInv();
    RunKeeps(BOOT, schedule);
  }

  // ---- the token ----

  /** Semaphores and active sections hold one token while the coordinator lives, else at most one. */
  lemma TokenConserved(s: State)
    requires Reachable(s)
    ensures Tokens(s) <= 1 && (s.coord != Off ==> Tokens(s) == 1)
    ensures forall j :: 0 <= j < 4 ==> s.sems[j] <= 1
    ensures forall v, w | 0 <= v < w < WORKERS ::
              s.workers[v] == Dead || s.workers[v] == Waiting || s.workers[w] == Dead || s.workers[w] == Waiting
    ensures s.coord != Off && s.coord != Awaiting ==>
              forall w :: 0 <= w < WORKERS ==> s.workers[w] == Dead || s.workers[w] == Waiting
  {
    ReachableInv(s);
    forall v, w | 0 <= v < WORKERS && 0 <= w < WORKERS && Active(s.workers[v]) && Active(s.workers[w]) ensures v == w {
      AtMostOne(s, w);
    }
    if CoordActive(s.coord) { CoordAlone(s); }
  }

  /** No give is ever lost to saturation: a semaphore is empty when it is given. */
  lemma NoGiveLost(s: State, w: nat)
    requires Reachable(s) && w < WORKERS
    ensures s.workers[w] == Giving ==> s.sems[w + 1] == 0
    ensures s.coord == Triggering ==> s.sems[0] == 0
  {
    ReachableInv(s);
    if s.workers[w] == Giving { AtMostOne(s, w); }
    if s.coord == Triggering { CoordAlone(s); }
  }

  /** Nobody ever waits for the mutex, not even after a thread was aborted while holding it. */
  lemma MutexNeverBlocks(s: State, w: nat)
    requires Reachable(s) && w < WORKERS
    ensures s.workers[w].Locking? ==> s.mutex == None
    ensures s.coord == CoordLocking ==> s.mutex == None
  {
    ReachableInv(s);
    if s.workers[w].Locking? { AtMostOne(s, w); }
    if s.coord == CoordLocking { CoordAlone(s); }
  }

  /** The trace since the last start is a prefix of worker 0, 1, 2, line, worker 0, 1, 2, line, ... */
  lemma TraceInOrder(s: State)
    requires Reachable(s)
    ensures forall i :: 0 <= i < |s.events| ==> s.events[i] == i % 4
    ensures s.coord != Off ==> 4 * |s.logged| <= |s.events| <= 4 * |s.logged| + 3
  {
    ReachableInv(s);
    if s.coord != Off {
      Located(s);
      hide Tokens;
    }
  }

  /** With one token, it is somewhere. */
  lemma Located(s: State)
    requires Shaped(s) && Tokens(s) == 1
    ensures || s.sems[0] > 0 || s.sems[1] > 0 || s.sems[2] > 0 || s.sems[3] > 0
            || Active(s.workers[0]) || Active(s.workers[1]) || Active(s.workers[2]) || CoordActive(s.coord)
  {
  }

  // ---- progress ----

  const LAP := 25

  function WorkerRank(pc: WorkerPc): nat {
    match pc
    case Sampling => 5
    case Locking(_) => 4
    case Storing(_) => 3
    case Unlocking => 2
    case Giving => 1
    case _ => 0
  }

  function CoordRank(pc: CoordPc): nat {
    match pc
    case Resting => 25
    case Triggering => 24
    case CoordLocking => 4
    case Copying => 3
    case CoordUnlocking(_) => 2
    case Logging(_) => 1
    case _ => 0
  }

  /** Thread steps left until the next line is written. */
  function Rank(s: State): nat
    requires Shaped(s)
  {
    if CoordActive(s.coord) then CoordRank(s.coord)
    else if s.sems[0] > 0 then 23
    else if Active(s.workers[0]) then 17 + WorkerRank(s.workers[0])
    else if s.sems[1] > 0 then 17
    else if Active(s.workers[1]) then 11 + WorkerRank(s.workers[1])
    else if s.sems[2] > 0 then 11
    else if Active(s.workers[2]) then 5 + WorkerRank(s.workers[2])
    else 5
  }

  predicate ThreadAction(a: Action) {
    LegalAction(a) && (a.Work? || a.Coord?)
  }

  /** Lines written and place in the lap, in one number. */
  function Progress(s: State): int
    requires Shaped(s)
  {
    LAP * |s.logged| - Rank(s)
  }

  /** The place in the lap, read off from wherever the token is. */
  lemma RankAtWorker(s: State, w: nat)
    requires Shaped(s) && Tokens(s) <= 1 && w < WORKERS && Active(s.workers[w])
    ensures Rank(s) == 17 - 6 * w + WorkerRank(s.workers[w])
  {
    AtMostOne(s, w);
  }

  lemma RankAtSemaphore(s: State, j: nat)
    requires Shaped(s) && Tokens(s) <= 1 && j < 4 && s.sems[j] > 0
    ensures Rank(s) == 23 - 6 * j
  {
    SemaphoreAlone(s, j);
  }

  lemma WorkerProgress(s: State, w: nat, r: Reading)
    requires Inv(s) && AllAlive(s) && w < WORKERS
    ensures var t := WorkerStep(s, w, r);
            t == s || (Progress(t) == Progress(s) + 1 && AllAlive(t))
  {
    hide Tokens, Placed, DataInv, ShellInv, MutexInv, Stored, Rank;
    var t := WorkerStep(s, w, r);
    WorkerKeepsToken(s, w, r);
    if Active(s.workers[w]) {
      AtMostOne(s, w);
      RankAtWorker(s, w);
      if s.workers[w] == Giving { RankAtSemaphore(t, w + 1); } else { RankAtWorker(t, w); }
    } else if s.sems[w] > 0 {
      RankAtSemaphore(s, w);
      RankAtWorker(t, w);
    }
  }

  lemma CoordProgress(s: State, written: bool)
    requires Inv(s) && AllAlive(s)
    ensures var t := CoordStep(s, written);
            t == s || (Progress(t) == Progress(s) + 1 && AllAlive(t))
  {
    if CoordActive(s.coord) {
      CoordAlone(s);
    } else if s.sems[3] > 0 {
      SemaphoreAlone(s, 3);
    }
    hide Tokens, Placed, DataInv, ShellInv;
  }

  /** While everything runs, each thread step that does anything advances the lap by exactly one. */
  lemma StepProgress(s: State, a: Action)
    requires Inv(s) && AllAlive(s) && ThreadAction(a)
    ensures var t := Next(s, a); t == s || (Progress(t) == Progress(s) + 1 && AllAlive(t))
  {
    match a
    case Work(w, r) => WorkerProgress(s, w, r);
    case Coord(written) => CoordProgress(s, written);
  }

  /** Never stuck: some thread can move. */
  lemma NeverStuck(s: State)
    requires Reachable(s) && AllAlive(s)
    ensures exists a :: ThreadAction(a) && Next(s, a) != s
  {
    ReachableInv(s);
    Located(s);
    if CoordActive(s.coord) {
      MutexNeverBlocks(s, 0);
      assert ThreadAction(Coord(true)) && Next(s, Coord(true)) != s;
    } else if s.sems[3] > 0 {
      assert ThreadAction(Coord(true)) && Next(s, Coord(true)) != s;
    } else {
      var w :| 0 <= w < WORKERS && (s.sems[w] > 0 || Active(s.workers[w]));
      if Active(s.workers[w]) { AtMostOne(s, w); } else { SemaphoreAlone(s, w); }
      MutexNeverBlocks(s, w);
      hide Tokens, Placed, DataInv;
      assert ThreadAction(Work(w, None)) && Next(s, Work(w, None)) != s;
    }
  }

  /** How many steps of a schedule do anything. */
  function Moves(s: State, schedule: seq<Action>): nat
    requires Shaped(s) && LegalSchedule(schedule)
    decreases |schedule|
  {
    if schedule == [] then 0
    else (if Next(s, schedule[0]) == s then 0 else 1) + Moves(Next(s, schedule[0]), schedule[1..])
  }

  /** A running system writes one line every 25 effective steps, in every schedule. */
  lemma LinesKeepComing(s: State, schedule: seq<Action>)
    requires Inv(s) && AllAlive(s)
    requires LegalSchedule(schedule) && forall a :: a in schedule ==> ThreadAction(a)
    ensures Progress(Run(s, schedule)) == Progress(s) + Moves(s, schedule)
    ensures |Run(s, schedule).logged| >= |s.logged| + Moves(s, schedule) / 25
  {
    RunProgress(s, schedule);
    var t := Run(s, schedule);
    assert LAP * |t.logged| == Progress(s) + Moves(s, schedule) + Rank(t);
    RankBounds(s);
    RunAlive(s, schedule);
    RankBounds(t);
  }

  lemma RankBounds(s: State)
    requires Inv(s) && AllAlive(s)
    ensures 1 <= Rank(s) <= LAP
  {
  }

  lemma {:induction false} RunAlive(s: State, schedule: seq<Action>)
    requires Inv(s) && AllAlive(s)
    requires LegalSchedule(schedule) && forall a :: a in schedule ==> ThreadAction(a)
    ensures Inv(Run(s, schedule)) && AllAlive(Run(s, schedule))
    decreases |schedule|
  {
    if schedule != [] {
      StepProgress(s, schedule[0]);
      NextKeeps(s, schedule[0]);
      RunAlive(Next(s, schedule[0]), schedule[1..]);
    }
  }

  lemma {:induction false} RunProgress(s: State, schedule: seq<Action>)
    requires Inv(s) && AllAlive(s)
    requires LegalSchedule(schedule) && forall a :: a in schedule ==> ThreadAction(a)
    ensures Progress(Run(s, schedule)) == Progress(s) + Moves(s, schedule)
    decreases |schedule|
  {
    if schedule != [] {
      StepProgress(s, schedule[0]);
      NextKeeps(s, schedule[0]);
      RunProgress(Next(s, schedule[0]), schedule[1..]);
    }
  }

  // ---- freshness ----

  /** The values are those of reading j, and nothing later succeeded. */
  predicate LatestSuccess(rs: seq<Reading>, values: seq<real>, j: nat) {
    j < |rs| && rs[j].Some? && values == rs[j].value && forall i :: j < i < |rs| ==> rs[i] == None
  }

  lemma {:induction false} LastSuccessMeaning(rs: seq<Reading>, w: nat)
    ensures || (exists j :: LatestSuccess(rs, LastSuccess(rs, w), j))
            || ((forall i :: 0 <= i < |rs| ==> rs[i] == None) && LastSuccess(rs, w) == Zeros(Width(w)))
  {
    if rs != [] {
      var n := |rs| - 1;
      if rs[n].Some? {
        assert LatestSuccess(rs, LastSuccess(rs, w), n);
      } else {
        LastSuccessMeaning(rs[..n], w);
        if j :| LatestSuccess(rs[..n], LastSuccess(rs[..n], w), j) {
          assert LatestSuccess(rs, LastSuccess(rs, w), j);
        }
      }
    }
  }

  /**
   A reading's place in the history is its cycle: worker w samples reading k after line k - 1
   was written and before line k is.
   */
  lemma SampledInCycle(s: State, w: nat)
    requires Reachable(s) && w < WORKERS && s.workers[w] == Sampling
    ensures |s.results[w]| == |s.logged|
  {
    ReachableInv(s);
    assert InCycle(s, w, w);
  }

  /**
   Freshness of line k: a raised flag means the values were read in cycle k itself; a lowered
   one means cycle k failed and the values are the most recent success since the start, or zero.
   */
  lemma LineFresh(s: State, k: nat, w: nat)
    requires Reachable(s) && k < |s.logged| && w < WORKERS
    ensures k < |s.results[w]| && |s.logged[k]| == 3
    ensures var g, rs := s.logged[k][w], s.results[w][..k + 1];
            && (g.ok <==> rs[k].Some?)
            && (g.ok ==> g.values == rs[k].value)
            && (!g.ok ==>
                  || (exists j :: LatestSuccess(rs, g.values, j))
                  || ((forall i :: 0 <= i <= k ==> rs[i] == None) && g.values == Zeros(Width(w))))
  {
    ReachableInv(s);
    assert LineOk(s, k, w);
    LastSuccessMeaning(s.results[w][..k + 1], w);
  }

  // ---- stop and start ----

  const START: seq<Action> := [BeginStart, ShellGo, ShellGo, ShellGo, ShellGo]

  /** The state a very first start leaves. */
  const STARTED := State([0, 0, 0, 0], [Waiting, Waiting, Waiting], Triggering, None, CLEARED, [], Idle,
                         [[], [], []], [], [])

  lemma FirstStart()
    ensures Run(BOOT, START) == STARTED
  {
    var s1 := Next(BOOT, BeginStart);
    var s2 := Next(s1, ShellGo);
    assert s2 == State([0, 0, 0, 0], [Waiting, Dead, Dead], Off, None, CLEARED, [], Starting(1), [[], [], []], [], []);
    var s3 := Next(s2, ShellGo);
    var s4 := Next(s3, ShellGo);
    var s5 := Next(s4, ShellGo);
    assert START[1..][1..][1..][1..] == [ShellGo];
    assert START[1..][1..][1..] == [ShellGo, ShellGo];
    assert START[1..][1..] == [ShellGo, ShellGo, ShellGo];
    assert START[1..] == [ShellGo, ShellGo, ShellGo, ShellGo];
    assert Run(s5, []) == s5;
    assert Run(s4, [ShellGo]) == s5;
    assert Run(s3, [ShellGo, ShellGo]) == s5;
    assert Run(s2, [ShellGo, ShellGo, ShellGo]) == s5;
    assert Run(s1, [ShellGo, ShellGo, ShellGo, ShellGo]) == s5;
  }

  /**
   A restart is a first start: whatever happened before, however the earlier run was cut off
   and whatever is scheduled between its statements, a start that creates the coordinator
   leaves the state of a first start (the log file aside).
   */
  lemma RestartIsFresh(s: State)
    requires Reachable(s) && s.shell == Starting(WORKERS) && s.coord == Off
    ensures Next(s, ShellGo) == STARTED.(file := s.file)
  {
    ReachableInv(s);
    assert HalfStarted(s, WORKERS);
    assert s.workers == [Waiting, Waiting, Waiting];
  }

  /** When stop_sensors returns, no thread is left and every semaphore is empty. */
  lemma StopIsClean(s: State)
    requires Reachable(s) && s.shell == Idle && s.coord == Off
    ensures s.sems == [0, 0, 0, 0] && forall w :: 0 <= w < 3 ==> s.workers[w] == Dead
    ensures AllDead(s) && Drained(s)
  {
    ReachableInv(s);
  }

  /** Steps of stop_sensors left, at most. */
  function StopRank(s: State): nat
    requires Shaped(s)
  {
    if !s.shell.Stopping? then 0
    else if s.shell.i < 4 then 12 - s.shell.i
    else if s.shell.i > 7 then 1
    else 8 - s.shell.i + s.sems[0] + s.sems[1] + s.sems[2] + s.sems[3]
  }

  /** stop_sensors terminates, drain loops included, whatever the other threads do meanwhile. */
  lemma StopTerminates(s: State, a: Action)
    requires Inv(s) && s.shell.Stopping? && LegalAction(a)
    ensures a == ShellGo ==> StopRank(Next(s, a)) < StopRank(s)
    ensures a != ShellGo ==> StopRank(Next(s, a)) == StopRank(s) && Next(s, a).shell == s.shell
  {
    hide Placed, DataInv, MutexInv;
    if s.shell.i >= 4 {
      assert AllDead(s);
    } else if s.shell.i == 3 && a == ShellGo {
      assert s.sems[0] + s.sems[1] + s.sems[2] + s.sems[3] <= 1;
    }
  }

  /** start_sensors while running: each of its statements leaves everything else alone. */
  lemma StartWhileRunning(s: State)
    requires Reachable(s) && AllAlive(s) && s.shell.Starting?
    ensures Next(s, ShellGo) == s.(shell := Next(s, ShellGo).shell)
  {
    ReachableInv(s);
  }

  /** stop_sensors while stopped: each of its statements leaves everything else alone. */
  lemma StopWhileStopped(s: State)
    requires Shaped(s) && AllDead(s) && Drained(s) && s.shell.Stopping? && s.shell.i < 8
    ensures Next(s, ShellGo) == s.(shell := Next(s, ShellGo).shell)
    ensures Next(s, ShellGo).shell == if s.shell.i == 7 then Idle else Stopping(s.shell.i + 1)
  {
    if 1 <= s.shell.i <= WORKERS {
      assert s.workers[s.shell.i - 1 := Dead] == s.workers;
    }
  }
}
