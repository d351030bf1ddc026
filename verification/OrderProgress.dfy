/**
 When the three threads keep printing.  The source signals one waiter after each line, and
 the one woken need not be the one whose turn it is; this file says exactly when that stops
 everything, and that broadcasting instead would never stop it.
 */
module OrderProgress {
  import opened Wrappers
  import opened OrderTask

  ghost predicate Reachable(s: State, mode: Mode) {
    exists schedule :: LegalSchedule(schedule) && Run(BOOT, schedule, mode) == s
  }

  lemma BootInv()
    ensures Inv(BOOT)
  {
  }

  lemma {:induction false} RunKeeps(s: State, schedule: seq<nat>, mode: Mode)
    requires Inv(s) && LegalSchedule(schedule)
    ensures Inv(Run(s, schedule, mode))
    decreases |schedule|
  {
    if schedule != [] {
      NextKeeps(s, schedule[0], mode);
      RunKeeps(Next(s, schedule[0], mode), schedule[1..], mode);
    }
  }

  lemma ReachableInv(s: State, mode: Mode)
    requires Reachable(s, mode)
    ensures Inv(s)
  {
    var schedule :| LegalSchedule(schedule) && Run(BOOT, schedule, mode) == s;
    BootInv();
    RunKeeps(BOOT, schedule, mode);
  }

  /**
   Safety, in every schedule: the counter stays in 0..8, so the arrays are indexed in range;
   at most one thread is in its critical section; and the k-th line is the number
   k mod 9 + 1 printed by thread k mod 3.
   */
  lemma OrderKept(s: State, mode: Mode)
    requires Reachable(s, mode)
    ensures s.ready < 9 && s.ready / 3 < 3
    ensures |s.pcs| == 3
    ensures forall t, u :: 0 <= t < 3 && 0 <= u < 3 && Holds(s.pcs[t]) && Holds(s.pcs[u]) ==> t == u
    ensures forall k :: 0 <= k < |s.out| ==> s.out[k] == (k % 3, k % 9 + 1)
  {
    ReachableInv(s, mode);
  }

  /** Somebody is about to wake thread t: all waiters, or the first, which is t. */
  predicate Rescue(s: State, t: nat, mode: Mode)
    requires Shaped(s)
  {
    && s.owner.Some? && s.owner.value < 3
    && (s.pcs[s.owner.value] == Updating || s.pcs[s.owner.value] == Waking)
    && s.queue != [] && (mode == Broadcast || s.queue[0] == t)
  }

  /** The thread whose turn it is waits, and nobody is about to wake it. */
  predicate Stuck(s: State, mode: Mode)
    requires Shaped(s)
  {
    s.pcs[Turn(s)] == Queued && !Rescue(s, Turn(s), mode)
  }

  /** The thread that may print is the one whose turn it is. */
  lemma PrinterHasTurn(s: State)
    requires Inv(s) && s.owner.Some?
    ensures var u := s.owner.value;
            && (s.pcs[u] == Printing ==> u == Turn(s))
            && (s.pcs[u] == Checking ==> s.ready % 3 == Turn(s))
            && (s.pcs[u] == Updating || s.pcs[u] == Waking || s.pcs[u] == Unlocking || s.pcs[u] == Checking
                || s.pcs[u] == Printing)
  {
    hide QueueInv, OutInv, Numbers;
    var u := s.owner.value;
    assert Holds(s.pcs[u]);
    NinesAndThrees(|s.out|);
  }

  lemma OwnerStaysStuck(s: State, t: nat)
    requires Inv(s) && Stuck(s, Signal) && t < 3 && s.owner == Some(t)
    ensures Next(s, t, Signal).out == s.out && Stuck(Next(s, t, Signal), Signal)
  {
    hide CounterInv, OutInv, Numbers;
    PrinterHasTurn(s);
  }

  lemma OthersStayStuck(s: State, t: nat)
    requires Inv(s) && Stuck(s, Signal) && t < 3 && s.owner != Some(t)
    ensures Next(s, t, Signal).out == s.out && Stuck(Next(s, t, Signal), Signal)
  {
    hide CounterInv, OutInv, QueueInv, Numbers;
    assert !Holds(s.pcs[t]);
  }

  lemma StuckStep(s: State, t: nat)
    requires Inv(s) && Stuck(s, Signal) && t < 3
    ensures Next(s, t, Signal).out == s.out && Stuck(Next(s, t, Signal), Signal)
  {
    hide Inv, Stuck, Next;
    if s.owner == Some(t) { OwnerStaysStuck(s, t); } else { OthersStayStuck(s, t); }
  }

  /** Once stuck, no schedule whatever prints another line. */
  lemma {:induction false} StuckForever(s: State, schedule: seq<nat>)
    requires Inv(s) && Stuck(s, Signal) && LegalSchedule(schedule)
    ensures Run(s, schedule, Signal).out == s.out
    decreases |schedule|
  {
    if schedule != [] {
      StuckStep(s, schedule[0]);
      NextKeeps(s, schedule[0], Signal);
      StuckForever(Next(s, schedule[0], Signal), schedule[1..]);
    }
  }

  // ---- otherwise the next line can be printed ----

  /** Run the owner of the mutex if there is one, else the thread whose turn it is. */
  function Pick(s: State): nat {
    if s.owner.Some? then s.owner.value else Turn(s)
  }

  /** Steps to the next line under that choice, at most. */
  function Distance(s: State): nat
    requires Shaped(s)
  {
    if s.owner.Some? && s.owner.value < 3 then
      match s.pcs[s.owner.value]
      case Printing => 1
      case Checking => if s.owner.value == Turn(s) then 2 else 5
      case Unlocking => 5
      case Waking => 6
      case _ => 7
    else if s.pcs[Turn(s)] == Sleeping then 4 else 3
  }

  ghost predicate Closer(s: State, s': State, mode: Mode)
    requires Shaped(s) && Shaped(s')
  {
    || |s'.out| == |s.out| + 1
    || (|s'.out| == |s.out| && !Stuck(s', mode) && Distance(s') < Distance(s))
  }

  lemma OwnerCloser(s: State, mode: Mode)
    requires Inv(s) && !Stuck(s, mode) && s.owner.Some?
    ensures Pick(s) < 3 && Closer(s, Next(s, Pick(s), mode), mode)
  {
    hide CounterInv, OutInv, Numbers;
    PrinterHasTurn(s);
  }

  lemma FreeCloser(s: State, mode: Mode)
    requires Inv(s) && !Stuck(s, mode) && s.owner.None?
    ensures Pick(s) < 3 && Closer(s, Next(s, Pick(s), mode), mode)
  {
    hide CounterInv, OutInv, QueueInv, Numbers;
    assert !Holds(s.pcs[Turn(s)]);
  }

  lemma StepCloser(s: State, mode: Mode)
    requires Inv(s) && !Stuck(s, mode)
    ensures Pick(s) < 3 && Closer(s, Next(s, Pick(s), mode), mode)
  {
    hide Next, Closer, Inv, Stuck;
    if s.owner.Some? { OwnerCloser(s, mode); } else { FreeCloser(s, mode); }
  }

  /** Unless stuck, some continuation prints the next line. */
  lemma {:induction false} CanPrint(s: State, mode: Mode) returns (schedule: seq<nat>)
    requires Inv(s) && !Stuck(s, mode)
    ensures LegalSchedule(schedule) && |Run(s, schedule, mode).out| == |s.out| + 1
    ensures |schedule| <= 1 + Distance(s)
    decreases Distance(s)
  {
    StepCloser(s, mode);
    var t := Pick(s);
    var s' := Next(s, t, mode);
    NextKeeps(s, t, mode);
    if |s'.out| == |s.out| + 1 {
      schedule := [t];
      assert Run(s', [], mode) == s';
    } else {
      var rest := CanPrint(s', mode);
      schedule := [t] + rest;
      assert schedule[1..] == rest;
    }
  }

  /** The exact condition for progress under signal. */
  lemma ProgressExact(s: State)
    requires Reachable(s, Signal)
    ensures (exists schedule :: LegalSchedule(schedule) && |Run(s, schedule, Signal).out| > |s.out|)
            <==> !Stuck(s, Signal)
  {
    ReachableInv(s, Signal);
    if Stuck(s, Signal) {
      forall schedule | LegalSchedule(schedule) ensures |Run(s, schedule, Signal).out| == |s.out| {
        StuckForever(s, schedule);
      }
    } else {
      var schedule := CanPrint(s, Signal);
    }
  }

  // ---- the stuck state is real ----

  /** C waits, B waits, A prints 1 and wakes C. */
  const TRAP: seq<nat> := [2, 2, 1, 1, 0, 0, 0, 0, 0, 0]

  lemma TrapLeadsToStuck()
    ensures LegalSchedule(TRAP)
    ensures Stuck(Run(BOOT, TRAP, Signal), Signal) && |Run(BOOT, TRAP, Signal).out| == 1
  {
    hide Run, Next;
    TrapFirstHalf();
    TrapSecondHalf();
    assert TRAP == [2, 2, 1, 1] + [0, 0, 0, 0, 0, 0];
    RunConcat(BOOT, [2, 2, 1, 1], [0, 0, 0, 0, 0, 0], Signal);
  }

  const BOTH_WAIT := State(0, [AtLock, Queued, Queued], None, [2, 1], [])

  lemma TrapFirstHalf()
    ensures Run(BOOT, [2, 2, 1, 1], Signal) == BOTH_WAIT
  {
    var s1 := Next(BOOT, 2, Signal);
    var s2 := Next(s1, 2, Signal);
    var s3 := Next(s2, 1, Signal);
    var s4 := Next(s3, 1, Signal);
    assert s4 == BOTH_WAIT;
    assert Run(s3, [1], Signal) == Run(s4, [], Signal);
    assert [2, 2, 1, 1][1..] == [2, 1, 1] && [2, 1, 1][1..] == [1, 1] && [1, 1][1..] == [1];
    assert Run(s2, [1, 1], Signal) == Run(s3, [1], Signal);
    assert Run(s1, [2, 1, 1], Signal) == Run(s2, [1, 1], Signal);
  }

  lemma TrapSecondHalf()
    ensures Run(BOTH_WAIT, [0, 0, 0, 0, 0, 0], Signal)
            == State(1, [Sleeping, Queued, Woken], None, [1], [(0, 1)])
  {
    var s1 := Next(BOTH_WAIT, 0, Signal);
    var s2 := Next(s1, 0, Signal);
    var s3 := Next(s2, 0, Signal);
    assert s3 == State(0, [Updating, Queued, Queued], Some(0), [2, 1], [(0, 1)]);
    var s4 := Next(s3, 0, Signal);
    var s5 := Next(s4, 0, Signal);
    assert s5 == State(1, [Unlocking, Queued, Woken], Some(0), [1], [(0, 1)]);
    var s6 := Next(s5, 0, Signal);
    assert [0, 0, 0, 0, 0, 0][1..] == [0, 0, 0, 0, 0] && [0, 0, 0, 0, 0][1..] == [0, 0, 0, 0];
    assert [0, 0, 0, 0][1..] == [0, 0, 0] && [0, 0, 0][1..] == [0, 0] && [0, 0][1..] == [0];
    assert Run(s5, [0], Signal) == Run(s6, [], Signal);
    assert Run(s4, [0, 0], Signal) == s6;
    assert Run(s3, [0, 0, 0], Signal) == s6;
    assert Run(s2, [0, 0, 0, 0], Signal) == s6;
    assert Run(s1, [0, 0, 0, 0, 0], Signal) == s6;
  }

  /** "Sequence repeats indefinitely" is conditional: a reachable state never prints again. */
  lemma IndefiniteRepetitionFails()
    ensures exists s :: Reachable(s, Signal) && |s.out| == 1
              && forall schedule :: LegalSchedule(schedule) ==> Shaped(s) && Run(s, schedule, Signal).out == s.out
  {
    TrapLeadsToStuck();
    var s := Run(BOOT, TRAP, Signal);
    assert Reachable(s, Signal);
    ReachableInv(s, Signal);
    forall schedule | LegalSchedule(schedule) ensures Run(s, schedule, Signal).out == s.out {
      StuckForever(s, schedule);
    }
  }

  // ---- broadcast ----

  lemma BroadcastStep(s: State, t: nat)
    requires Inv(s) && !Stuck(s, Broadcast) && t < 3
    ensures !Stuck(Next(s, t, Broadcast), Broadcast)
  {
    hide CounterInv, OutInv, Numbers;
    if s.owner == Some(t) { PrinterHasTurn(s); }
    assert Holds(s.pcs[t]) <==> s.owner == Some(t);
  }

  lemma {:induction false} BroadcastRun(s: State, schedule: seq<nat>)
    requires Inv(s) && !Stuck(s, Broadcast) && LegalSchedule(schedule)
    ensures !Stuck(Run(s, schedule, Broadcast), Broadcast)
    decreases |schedule|
  {
    if schedule != [] {
      BroadcastStep(s, schedule[0]);
      NextKeeps(s, schedule[0], Broadcast);
      BroadcastRun(Next(s, schedule[0], Broadcast), schedule[1..]);
    }
  }

  /** With broadcast in place of signal, every reachable state can print its next line. */
  lemma BroadcastNeverStuck(s: State)
    requires Reachable(s, Broadcast)
    ensures exists schedule :: LegalSchedule(schedule) && |Run(s, schedule, Broadcast).out| == |s.out| + 1
  {
    ReachableInv(s, Broadcast);
    var past :| LegalSchedule(past) && Run(BOOT, past, Broadcast) == s;
    BootInv();
    BroadcastRun(BOOT, past);
    var schedule := CanPrint(s, Broadcast);
  }

  // ---- the threads as they are, updating shared state in place ----

  class Demo {
    const pcs: array<Pc>
    var ready: nat
    var owner: Option<nat>
    var queue: seq<nat>
    var out: seq<(nat, int)>

    ghost predicate Valid()
      reads this
    {
      pcs.Length == 3
    }

    ghost function Now(): State
      reads this, pcs
    {
      State(ready, pcs[..], owner, queue, out)
    }

    constructor ()
      ensures Valid() && fresh(pcs) && Now() == BOOT
    {
      pcs := new Pc[3](_ => AtLock);
      ready, owner, queue, out := 0, None, [], [];
      new;
      assert pcs[..] == [AtLock, AtLock, AtLock];
    }

    /** One step of thread t: the loop body of the source, cut at its kernel calls. */
    method Step(t: nat)
      requires Valid() && Inv(Now()) && t < 3
      modifies this, pcs
      ensures Valid() && Inv(Now()) && Now() == Next(old(Now()), t, Signal)
    {
      NextKeeps(Now(), t, Signal);
      hide LockInv, QueueInv, CounterInv, OutInv, Numbers;
      match pcs[t]
      case AtLock => if owner == None { owner := Some(t); pcs[t] := Checking; }
      case Woken => if owner == None { owner := Some(t); pcs[t] := Checking; }
      case Checking =>
        if ready % 3 != t {
          queue := queue + [t];
          owner := None;
          pcs[t] := Queued;
        } else {
          pcs[t] := Printing;
        }
      case Queued =>
      case Printing =>
        var arr := Numbers(t);
        out := out + [(t, arr[ready / 3])];
        pcs[t] := Updating;
      case Updating =>
        ready := (ready + 1) % 9;
        pcs[t] := Waking;
      case Waking =>
        if queue != [] {
          pcs[queue[0]] := Woken;
          queue := queue[1..];
        }
        pcs[t] := Unlocking;
      case Unlocking =>
        owner := None;
        pcs[t] := Sleeping;
      case Sleeping => pcs[t] := AtLock;
    }
  }
}
