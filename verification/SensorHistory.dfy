/**
 What the pipeline leaves behind over a run: the lines in the log file, the readings that were
 recorded, and the snapshot a start begins with.
 */
module SensorHistory {
  import opened Wrappers
  import opened SensorChain
  import opened SensorRuns

  // ---- the log file ----

  /** A completed cycle: the snapshot printed, and whether the log file took the line. */
  datatype Line = Line(snap: Snapshot, written: bool)

  /** The cycles completed in a schedule, in order. */
  function Lines(s: State, schedule: seq<Action>): seq<Line>
    requires Shaped(s) && LegalSchedule(schedule)
    decreases |schedule|
  {
    if schedule == [] then []
    else
      var a := schedule[0];
      (if a.Coord? && s.coord.Logging? then [Line(s.coord.snap, a.written)] else [])
      + Lines(Next(s, a), schedule[1..])
  }

  function Written(lines: seq<Line>): seq<Snapshot> {
    if lines == [] then []
    else (if lines[0].written then [lines[0].snap] else []) + Written(lines[1..])
  }

  function Snaps(lines: seq<Line>): (r: seq<Snapshot>)
    ensures |r| == |lines|
  {
    seq(|lines|, i requires 0 <= i < |lines| => lines[i].snap)
  }

  lemma FileStep(s: State, a: Action)
    requires Shaped(s) && LegalAction(a)
    ensures Next(s, a).file == s.file + if a == Coord(true) && s.coord.Logging? then [s.coord.snap] else []
  {
    match a
    case Work(w, r) =>
    case Coord(written) =>
    case ShellGo =>
    case BeginStart =>
    case BeginStop =>
  }

  /** In any schedule, starts and stops included, the file gains exactly the lines that were written. */
  lemma {:induction false} FileIs(s: State, schedule: seq<Action>)
    requires Shaped(s) && LegalSchedule(schedule)
    ensures Run(s, schedule).file == s.file + Written(Lines(s, schedule))
    decreases |schedule|
  {
    hide Next;
    if schedule == [] {
      assert s.file + [] == s.file;
    } else {
      var a := schedule[0];
      FileStep(s, a);
      FileIs(Next(s, a), schedule[1..]);
      WrittenFirst(Lines(s, schedule), Lines(Next(s, a), schedule[1..]), a.Coord? && s.coord.Logging?);
    }
  }

  lemma WrittenFirst(lines: seq<Line>, rest: seq<Line>, more: bool)
    requires if more then lines != [] && lines[1..] == rest else lines == rest
    ensures Written(lines) == (if more && lines[0].written then [lines[0].snap] else []) + Written(rest)
  {
  }

  /** The file is never shortened. */
  lemma FileGrows(s: State, schedule: seq<Action>)
    requires Shaped(s) && LegalSchedule(schedule)
    ensures s.file <= Run(s, schedule).file
  {
    FileIs(s, schedule);
  }

  // ---- between starts ----

  /** No step of the schedule is the statement of a start that resets everything. */
  predicate NoReset(s: State, schedule: seq<Action>)
    requires Shaped(s) && LegalSchedule(schedule)
    decreases |schedule|
  {
    schedule == [] ||
    (!(schedule[0] == ShellGo && s.shell == Starting(0) && s.workers[0] == Dead)
     && NoReset(Next(s, schedule[0]), schedule[1..]))
  }

  lemma LoggedStep(s: State, a: Action)
    requires Shaped(s) && LegalAction(a)
    requires !(a == ShellGo && s.shell == Starting(0) && s.workers[0] == Dead)
    ensures Next(s, a).logged == s.logged + if a.Coord? && s.coord.Logging? then [s.coord.snap] else []
  {
    match a
    case Work(w, r) =>
    case Coord(written) =>
    case ShellGo =>
    case BeginStart =>
    case BeginStop =>
  }

  /** Between starts the completed lines are recorded one by one. */
  lemma {:induction false} LoggedIs(s: State, schedule: seq<Action>)
    requires Shaped(s) && LegalSchedule(schedule) && NoReset(s, schedule)
    ensures Run(s, schedule).logged == s.logged + Snaps(Lines(s, schedule))
    decreases |schedule|
  {
    hide Next;
    if schedule != [] {
      LoggedStep(s, schedule[0]);
      LoggedIs(Next(s, schedule[0]), schedule[1..]);
    }
  }

  lemma {:induction false} AllTaken(lines: seq<Line>)
    requires forall i :: 0 <= i < |lines| ==> lines[i].written
    ensures Written(lines) == Snaps(lines)
  {
    if lines != [] { AllTaken(lines[1..]); }
  }

  lemma {:induction false} LinesWritten(s: State, schedule: seq<Action>, written: bool)
    requires Shaped(s) && LegalSchedule(schedule)
    requires forall i :: 0 <= i < |schedule| && schedule[i].Coord? ==> schedule[i].written == written
    ensures forall i :: 0 <= i < |Lines(s, schedule)| ==> Lines(s, schedule)[i].written == written
    decreases |schedule|
  {
    hide Next;
    if schedule != [] { LinesWritten(Next(s, schedule[0]), schedule[1..], written); }
  }

  /**
   If every append succeeds, the file gains exactly the completed lines, in order; if none
   does, it stays as it was.
   */
  lemma FileFollowsLines(s: State, schedule: seq<Action>)
    requires Shaped(s) && LegalSchedule(schedule) && NoReset(s, schedule)
    ensures var t := Run(s, schedule);
            && s.logged <= t.logged
            && ((forall i :: 0 <= i < |schedule| && schedule[i].Coord? ==> schedule[i].written) ==>
                  t.file == s.file + t.logged[|s.logged|..])
            && ((forall i :: 0 <= i < |schedule| && schedule[i].Coord? ==> !schedule[i].written) ==>
                  t.file == s.file)
  {
    FileIs(s, schedule);
    LoggedIs(s, schedule);
    var lines := Lines(s, schedule);
    hide Run, Lines, NoReset;
    if forall i :: 0 <= i < |schedule| && schedule[i].Coord? ==> schedule[i].written {
      LinesWritten(s, schedule, true);
      AllTaken(lines);
    }
    if forall i :: 0 <= i < |schedule| && schedule[i].Coord? ==> !schedule[i].written {
      LinesWritten(s, schedule, false);
      NoneTaken(lines);
    }
  }

  lemma {:induction false} NoneTaken(lines: seq<Line>)
    requires forall i :: 0 <= i < |lines| ==> !lines[i].written
    ensures Written(lines) == []
  {
    if lines != [] { NoneTaken(lines[1..]); }
  }

  lemma {:induction false} ThreadsDoNotReset(s: State, schedule: seq<Action>)
    requires Shaped(s) && LegalSchedule(schedule) && forall a :: a in schedule ==> ThreadAction(a)
    ensures NoReset(s, schedule)
    decreases |schedule|
  {
    hide Next;
    if schedule != [] {
      assert schedule[0] in schedule;
      ThreadsDoNotReset(Next(s, schedule[0]), schedule[1..]);
    }
  }

  /** After a start, with a working file: the file is what it held before, and every line since. */
  lemma FileSinceStart(file: seq<Snapshot>, schedule: seq<Action>)
    requires LegalSchedule(schedule) && forall a :: a in schedule ==> ThreadAction(a)
    requires forall i :: 0 <= i < |schedule| && schedule[i].Coord? ==> schedule[i].written
    ensures var t := Run(STARTED.(file := file), schedule); t.file == file + t.logged
  {
    var s := STARTED.(file := file);
    ThreadsDoNotReset(s, schedule);
    FileFollowsLines(s, schedule);
    hide Run;
    assert Run(s, schedule).logged[0..] == Run(s, schedule).logged;
  }

  // ---- the readings ----

  /** The readings a schedule hands to worker w: those of its actions that find it sampling. */
  function Readings(s: State, schedule: seq<Action>, w: nat): seq<Reading>
    requires Shaped(s) && LegalSchedule(schedule) && w < WORKERS
    decreases |schedule|
  {
    if schedule == [] then []
    else
      var a := schedule[0];
      (if a.Work? && a.w == w && s.workers[w] == Sampling then [a.r] else []) + Readings(Next(s, a), schedule[1..], w)
  }

  lemma ResultsStep(s: State, a: Action, w: nat)
    requires Shaped(s) && LegalAction(a) && w < WORKERS
    requires !(a == ShellGo && s.shell == Starting(0) && s.workers[0] == Dead)
    ensures Next(s, a).results[w]
            == s.results[w] + if a.Work? && a.w == w && s.workers[w] == Sampling then [a.r] else []
  {
    match a
    case Work(v, r) =>
    case Coord(written) =>
    case ShellGo =>
    case BeginStart =>
    case BeginStop =>
  }

  /** The recorded readings are exactly those. */
  lemma {:induction false} ResultsAre(s: State, schedule: seq<Action>, w: nat)
    requires Shaped(s) && LegalSchedule(schedule) && NoReset(s, schedule) && w < WORKERS
    ensures Run(s, schedule).results[w] == s.results[w] + Readings(s, schedule, w)
    decreases |schedule|
  {
    hide Next;
    if schedule == [] {
      assert s.results[w] + [] == s.results[w];
    } else {
      ResultsStep(s, schedule[0], w);
      ResultsAre(Next(s, schedule[0]), schedule[1..], w);
    }
  }

  /** A worker that samples goes on with exactly the reading it was handed, and stores that one. */
  lemma SampledIsStored(s: State, w: nat, r: Reading, r': Reading)
    requires Shaped(s) && w < WORKERS && s.workers[w] == Sampling && s.mutex == None
    requires LegalAction(Work(w, r)) && LegalAction(Work(w, r'))
    ensures var t := Next(Next(Next(s, Work(w, r)), Work(w, r')), Work(w, r'));
            && t.sd[w].ok == r.Some?
            && t.sd[w].values == (if r.Some? then r.value else s.sd[w].values)
            && forall v :: 0 <= v < WORKERS && v != w ==> t.sd[v] == s.sd[v]
  {
  }

  // ---- the mutex and the zero snapshot ----

  /** Whoever touches the snapshot holds the mutex. */
  lemma MutexHeld(s: State, w: nat)
    requires Reachable(s) && w < WORKERS
    ensures s.workers[w].Storing? || s.workers[w] == Unlocking ==> s.mutex == Some(w)
    ensures s.coord == Copying || s.coord.CoordUnlocking? ==> s.mutex == Some(COORD)
  {
    ReachableInv(s);
  }

  /** A start begins with zeros in all nine fields, and no flag raised. */
  lemma ClearedMeans()
    ensures |CLEARED| == 3
    ensures |CLEARED[0].values| == 2 && |CLEARED[1].values| == 1 && |CLEARED[2].values| == 6
    ensures forall w :: 0 <= w < 3 ==> !CLEARED[w].ok
    ensures forall w, i :: 0 <= w < 3 && 0 <= i < |CLEARED[w].values| ==> CLEARED[w].values[i] == 0.0
    ensures forall w :: 0 <= w < 3 ==> CLEARED[w].values == Zeros(Width(w))
  {
    ZerosMeans(2);
    ZerosMeans(1);
    ZerosMeans(6);
  }

  lemma ZerosMeans(n: nat)
    ensures |Zeros(n)| == n && forall i :: 0 <= i < n ==> Zeros(n)[i] == 0.0
  {
  }
}
