/**
 The pipeline as the program holds it: shared objects updated in place.  The thread bodies
 appear as their atomic steps, the two shell commands as whole procedures with their loops.
 Every method is tied to the step functions, so everything proved about runs holds of it.
 */
module SensorShell {
  import opened Wrappers
  import opened Kernel
  import opened SensorChain
  import opened SensorRuns

  /** The end of stop_sensors: nobody left, nothing to take. */
  function Stopped(s: State): State
    requires Shaped(s)
  {
    s.(coord := Off, workers := [Dead, Dead, Dead], sems := [0, 0, 0, 0])
  }

  /** A stop that nobody interrupts ends there, after at most twelve statements. */
  lemma {:induction false} StopEnds(s: State, n: nat)
    requires Inv(s) && s.shell.Stopping?
    requires n >= StopRank(s)
    ensures LegalSchedule(seq(n, _ => ShellGo))
    ensures Run(s, seq(n, _ => ShellGo)) == Stopped(s).(shell := Idle)
    decreases n
  {
    var go := seq(n, _ => ShellGo);
    hide Placed, DataInv, MutexInv;
    StopTerminates(s, ShellGo);
    var t := Next(s, ShellGo);
    assert go[0] == ShellGo && go[1..] == seq(n - 1, _ => ShellGo);
    NextKeeps(s, ShellGo);
    if t.shell.Stopping? {
      StopEnds(t, n - 1);
      assert Stopped(t).(shell := Idle) == Stopped(s).(shell := Idle);
    } else {
      assert s.shell.i == 7 && s.sems == [0, 0, 0, 0] && s.workers == [Dead, Dead, Dead];
      IdleStays(t, n - 1);
    }
  }

  lemma {:induction false} IdleStays(s: State, n: nat)
    requires Shaped(s) && s.shell == Idle
    ensures LegalSchedule(seq(n, _ => ShellGo))
    ensures Run(s, seq(n, _ => ShellGo)) == s
    decreases n
  {
    if n > 0 {
      assert seq(n, _ => ShellGo)[1..] == seq(n - 1, _ => ShellGo);
      IdleStays(s, n - 1);
    }
  }

  class Pipeline {
    const sems: array<nat>
    const workers: array<WorkerPc>
    const sd: array<Group>
    var coord: CoordPc
    var mutex: Option<nat>
    var file: seq<Snapshot>
    // history since the last start
    ghost var results: seq<seq<Reading>>
    ghost var logged: seq<Snapshot>
    ghost var events: seq<nat>

    ghost predicate Valid()
      reads this
    {
      sems.Length == 4 && workers.Length == sd.Length == 3 && |results| == 3
    }

    ghost function Now(): (s: State)
      requires Valid()
      reads this, sems, workers, sd
      ensures Shaped(s) && s.shell == Idle
    {
      State(sems[..], workers[..], coord, mutex, sd[..], file, Idle, results, logged, events)
    }

    constructor ()
      ensures Valid() && Now() == BOOT && fresh(sems) && fresh(workers) && fresh(sd)
    {
      sems := new nat[4](_ => 0);
      workers := new WorkerPc[3](_ => Dead);
      sd := new Group[3](w => Group(Zeros(if w == 0 then 2 else if w == 1 then 1 else 6), false));
      coord, mutex, file := Off, None, [];
      results, logged, events := [[], [], []], [], [];
      new;
      assert sems[..] == [0, 0, 0, 0] && workers[..] == [Dead, Dead, Dead] && sd[..] == CLEARED;
    }

    /** One step of a worker thread, in place. */
    method WorkerGo(w: nat, r: Reading)
      requires Valid() && LegalAction(Work(w, r))
      modifies this, sems, workers, sd
      ensures Valid() && Now() == Next(old(Now()), Work(w, r))
    {
      match workers[w]
      case Dead =>
      case Waiting =>
        if sems[w] > 0 {
          sems[w] := sems[w] - 1;
          workers[w] := Sampling;
        }
      case Sampling =>
        workers[w] := Locking(r);
        results := results[w := results[w] + [r]];
      case Locking(q) =>
        if mutex == None {
          mutex := Some(w);
          workers[w] := Storing(q);
        }
      case Storing(q) =>
        sd[w] := match q case Some(v) => Group(v, true) case None => sd[w].(ok := false);
        workers[w] := Unlocking;
      case Unlocking =>
        mutex := None;
        workers[w] := Giving;
      case Giving =>
        sems[w + 1] := Give(sems[w + 1]);
        workers[w] := Waiting;
        events := events + [w];
    }

    /** One step of the coordinator thread, in place. */
    method CoordGo(written: bool)
      requires Valid()
      modifies this, sems
      ensures Valid() && Now() == Next(old(Now()), Coord(written))
    {
      match coord
      case Off =>
      case Triggering =>
        sems[0] := Give(sems[0]);
        coord := Awaiting;
      case Awaiting =>
        if sems[3] > 0 {
          sems[3] := sems[3] - 1;
          coord := CoordLocking;
        }
      case CoordLocking =>
        if mutex == None {
          mutex := Some(COORD);
          coord := Copying;
        }
      case Copying => coord := CoordUnlocking(sd[..]);
      case CoordUnlocking(snap) =>
        mutex := None;
        coord := Logging(snap);
      case Logging(snap) =>
        logged := logged + [snap];
        if written { file := file + [snap]; }
        events := events + [COORD];
        coord := Resting;
      case Resting => coord := Triggering;
    }

    /** The first statement of start_sensors; only a missing first worker resets the snapshot. */
    method CreateFirst()
      requires Valid()
      modifies this, workers, sd
      ensures Valid() && Now() == ShellStep(old(Now()).(shell := Starting(0))).(shell := Idle)
    {
      if workers[0] == Dead {
        mutex := None;
        sd[0], sd[1], sd[2] := Group(Zeros(2), false), Group(Zeros(1), false), Group(Zeros(6), false);
        workers[0] := Waiting;
        results, logged, events := [[], [], []], [], [];
        assert sd[..] == CLEARED;
      }
    }

    method CreateWorker(i: nat)
      requires Valid() && 1 <= i < WORKERS
      modifies workers
      ensures Valid() && Now() == ShellStep(old(Now()).(shell := Starting(i))).(shell := Idle)
    {
      if workers[i] == Dead { workers[i] := Waiting; }
    }

    method CreateCoord()
      requires Valid()
      modifies this`coord
      ensures Valid() && Now() == ShellStep(old(Now()).(shell := Starting(WORKERS)))
    {
      if coord == Off { coord := Triggering; }
    }

    /** start_sensors: creates what is missing. */
    method StartSensors()
      requires Valid()
      modifies this, workers, sd
      ensures Valid()
      ensures Now() == Run(old(Now()), START)
      ensures old(AllDead(Now()) && Drained(Now())) ==> Now() == STARTED.(file := old(file))
      ensures old(AllAlive(Now())) ==> Now() == old(Now())
    {
      ghost var s := Now();
      StartUnfolds(s);
      StartedMeaning(s);
      assert s.file == file;
      hide Now, ShellStep, Started;
      CreateFirst();
      CreateWorker(1);
      CreateWorker(2);
      CreateCoord();
    }

    /** stop_sensors: aborts everybody, then takes every semaphore until it is empty. */
    method StopSensors()
      requires Valid()
      modifies this, sems, workers
      ensures Valid() && Now() == Stopped(old(Now()))
      ensures (forall j :: 0 <= j < 4 ==> sems[j] == 0) && (forall w :: 0 <= w < 3 ==> workers[w] == Dead) && coord == Off
      ensures sd[..] == old(sd[..]) && file == old(file) && mutex == old(mutex)
      ensures old(AllDead(Now()) && Drained(Now())) ==> Now() == old(Now())
    {
      ghost var s := Now();
      StoppedMeaning(s);
      AbortAll();
      ghost var t := Now();
      assert t.sems[0 := 0][1 := 0][2 := 0][3 := 0] == [0, 0, 0, 0];
      hide Now;
      Drain(0);
      Drain(1);
      Drain(2);
      Drain(3);
    }

    method AbortAll()
      requires Valid()
      modifies this`coord, workers
      ensures Valid() && Now() == old(Now()).(coord := Off, workers := [Dead, Dead, Dead])
    {
      if coord != Off { coord := Off; }
      if workers[0] != Dead { workers[0] := Dead; }
      if workers[1] != Dead { workers[1] := Dead; }
      if workers[2] != Dead { workers[2] := Dead; }
      assert workers[..] == [Dead, Dead, Dead];
    }

    /** Takes semaphore j until its count is zero. */
    method Drain(j: nat)
      requires Valid() && j < 4
      modifies sems
      ensures Valid() && Now() == old(Now()).(sems := old(Now()).sems[j := 0])
    {
      while sems[j] > 0
        invariant forall k :: 0 <= k < 4 && k != j ==> sems[k] == old(sems[k])
        decreases sems[j]
      {
        sems[j] := sems[j] - 1;
      }
      assert sems[..] == old(sems[..])[j := 0];
    }
  }

  lemma StoppedMeaning(s: State)
    requires Shaped(s)
    ensures AllDead(s) && Drained(s) ==> Stopped(s) == s
  {
    if AllDead(s) { assert s.workers == [Dead, Dead, Dead]; }
  }

  function Woken(pc: WorkerPc): WorkerPc {
    if pc == Dead then Waiting else pc
  }

  /** A start nobody interrupts. */
  function Started(s: State): State
    requires Shaped(s)
  {
    var t := s.(workers := [Woken(s.workers[0]), Woken(s.workers[1]), Woken(s.workers[2])],
                coord := if s.coord == Off then Triggering else s.coord);
    if s.workers[0] != Dead then t
    else t.(mutex := None, sd := CLEARED, results := [[], [], []], logged := [], events := [])
  }

  lemma StartedMeaning(s: State)
    requires Shaped(s)
    ensures AllDead(s) && Drained(s) && s.shell == Idle ==> Started(s) == STARTED.(file := s.file)
    ensures AllAlive(s) ==> Started(s) == s
  {
    if AllAlive(s) { assert Started(s).workers == s.workers; }
  }

  lemma RunFive(s: State)
    requires Shaped(s) && s.shell == Idle
    ensures Run(s, START) == ShellStep(ShellStep(ShellStep(ShellStep(s.(shell := Starting(0))))))
  {
    hide ShellStep;
    var s1 := Next(s, BeginStart);
    var s2 := Next(s1, ShellGo);
    var s3 := Next(s2, ShellGo);
    var s4 := Next(s3, ShellGo);
    assert START[1..] == [ShellGo, ShellGo, ShellGo, ShellGo];
    assert [ShellGo, ShellGo, ShellGo, ShellGo][1..] == [ShellGo, ShellGo, ShellGo];
    assert [ShellGo, ShellGo, ShellGo][1..] == [ShellGo, ShellGo];
    assert [ShellGo, ShellGo][1..] == [ShellGo];
    assert Run(s4, [ShellGo]) == Next(s4, ShellGo);
    assert Run(s3, [ShellGo, ShellGo]) == Next(s4, ShellGo);
    assert Run(s2, [ShellGo, ShellGo, ShellGo]) == Next(s4, ShellGo);
    assert Run(s1, [ShellGo, ShellGo, ShellGo, ShellGo]) == Next(s4, ShellGo);
  }

  /** The first statement resets everything if the first worker is missing. */
  lemma FirstStatement(s: State)
    requires Shaped(s) && s.shell == Starting(0)
    ensures var t := ShellStep(s);
            && t.shell == Starting(1) && t.coord == s.coord && t.sems == s.sems && t.file == s.file
            && t.workers == s.workers[0 := Woken(s.workers[0])]
            && (if s.workers[0] == Dead
                then t.mutex == None && t.sd == CLEARED && t.results == [[], [], []] && t.logged == [] && t.events == []
                else t == s.(shell := Starting(1)))
  {
  }

  /** The next two create the other workers. */
  lemma WorkerStatement(s: State, i: nat)
    requires Shaped(s) && s.shell == Starting(i) && 1 <= i < WORKERS
    ensures ShellStep(s) == s.(shell := Starting(i + 1), workers := s.workers[i := Woken(s.workers[i])])
  {
    if s.workers[i] != Dead { assert s.workers[i := s.workers[i]] == s.workers; }
  }

  /** The five statements of a start nobody interrupts. */
  lemma StartUnfolds(s: State)
    requires Shaped(s) && s.shell == Idle
    ensures Run(s, START) == Started(s)
    ensures var s1 := ShellStep(s.(shell := Starting(0)));
            var s2 := ShellStep(s1);
            var s3 := ShellStep(s2);
            && s1.shell == Starting(1) && s2.shell == Starting(2) && s3.shell == Starting(3)
            && ShellStep(s3) == Started(s)
  {
    RunFive(s);
    var s0 := s.(shell := Starting(0));
    FirstStatement(s0);
    var s1 := ShellStep(s0);
    WorkerStatement(s1, 1);
    var s2 := ShellStep(s1);
    WorkerStatement(s2, 2);
    var s3 := ShellStep(s2);
    assert s3.workers == [Woken(s.workers[0]), Woken(s.workers[1]), Woken(s.workers[2])];
    assert ShellStep(s3) == s3.(shell := Idle, coord := if s3.coord != Off then s3.coord else Triggering);
  }
}
