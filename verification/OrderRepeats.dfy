/**
 "Sequence repeats indefinitely", decided exactly.  One more line is not repetition: a state
 may be able to print once and then never again, when the other two threads wait in the wrong
 order.  Beside being stuck, that crossed queue is the only thing that ends the sequence.
 */
module OrderRepeats {
  import opened Wrappers
  import opened OrderTask
  import opened OrderProgress

  /** The wait queue once the owner of the mutex has done what it is about to do. */
  function Pending(s: State): seq<nat>
    requires Shaped(s)
  {
    if s.owner.None? || s.owner.value >= 3 then s.queue
    else
      match s.pcs[s.owner.value]
      case Updating => Signalled(s.queue)
      case Waking => Signalled(s.queue)
      case Checking => if s.ready % 3 != s.owner.value then s.queue + [s.owner.value] else s.queue
      case _ => s.queue
  }

  /** The queue after one signal. */
  function Signalled(queue: seq<nat>): seq<nat> {
    if queue == [] then [] else queue[1..]
  }

  /** The other two threads wait in the wrong order: the last of the three before the next. */
  predicate Crossed(s: State)
    requires Shaped(s)
  {
    Pending(s) == [(Turn(s) + 2) % 3, (Turn(s) + 1) % 3]
  }

  // ---- a crossed state prints at most once more ----

  /** Three different threads are all the threads. */
  lemma Everybody(queue: seq<nat>, u: nat)
    requires u < 3
    requires forall i :: 0 <= i < |queue| ==> queue[i] < 3
    requires forall i, j :: 0 <= i < j < |queue| ==> queue[i] != queue[j]
    ensures |queue| > 2 ==> exists i :: 0 <= i < |queue| && queue[i] == u
  {
    if |queue| > 2 {
      assert queue[0] != queue[1] && queue[0] != queue[2] && queue[1] != queue[2];
      assert queue[0] == u || queue[1] == u || queue[2] == u;
    }
  }

  /** Whoever is not waiting leaves at most two who are. */
  lemma QueueSmall(s: State, u: nat)
    requires Inv(s) && u < 3 && s.pcs[u] != Queued
    ensures |s.queue| <= 2
    ensures forall i :: 0 <= i < |s.queue| ==> s.queue[i] != u
  {
    hide LockInv, CounterInv, OutInv;
    Everybody(s.queue, u);
  }

  /** When nobody is about to update, the counter says whose turn it is. */
  lemma TurnIsReady(s: State)
    requires Inv(s) && !Advancing(s)
    ensures s.ready % 3 == Turn(s)
  {
    hide LockInv, QueueInv, OutInv;
    NinesAndThrees(|s.out|);
  }

  /** Taking the mutex, sleeping and waking up leave the pending queue alone. */
  lemma FreeKeepsPending(s: State, t: nat)
    requires Inv(s) && t < 3 && s.owner.None? && (Crossed(s) || t == Turn(s))
    ensures var s' := Next(s, t, Signal);
            s'.out == s.out && Pending(s') == Pending(s)
  {
    assert !Holds(s.pcs[t]) && !Advancing(s);
    TurnIsReady(s);
    if t != Turn(s) { CrossedWaits(s, t); }
    hide CounterInv, OutInv, QueueInv, LockInv;
  }

  /** In a crossed state with the mutex free, the other two threads are asleep. */
  lemma CrossedWaits(s: State, t: nat)
    requires Inv(s) && Crossed(s) && s.owner.None? && t < 3 && t != Turn(s)
    ensures s.pcs[t] == Queued
  {
    hide CounterInv, OutInv, LockInv;
    assert s.queue == [(Turn(s) + 2) % 3, (Turn(s) + 1) % 3];
    assert s.queue[0] == t || s.queue[1] == t;
  }

  /** A thread without the mutex can do nothing that matters while another holds it. */
  lemma BystanderKeepsPending(s: State, t: nat)
    requires Inv(s) && t < 3 && s.owner.Some? && s.owner != Some(t)
    ensures var s' := Next(s, t, Signal);
            s'.out == s.out && Pending(s') == Pending(s)
  {
    hide CounterInv, OutInv, QueueInv;
    assert !Holds(s.pcs[t]);
  }

  /** The owner of the mutex does what is pending, unless it prints. */
  lemma OwnerKeepsPending(s: State, u: nat)
    requires Inv(s) && s.owner == Some(u) && u < 3 && s.pcs[u] != Printing
    ensures var s' := Next(s, u, Signal);
            s'.out == s.out && Pending(s') == Pending(s)
  {
    hide CounterInv, OutInv, QueueInv, Numbers;
    assert Holds(s.pcs[u]);
  }

  /** The only step that prints is the owner's, and it is that thread's turn. */
  lemma PrinterOwns(s: State, t: nat)
    requires Inv(s) && t < 3 && s.pcs[t] == Printing
    ensures s.owner == Some(t) && t == Turn(s)
  {
    hide QueueInv, OutInv, CounterInv;
    assert Holds(s.pcs[t]);
    PrinterHasTurn(s);
  }

  lemma TurnMoves(n: nat)
    ensures (n + 1) % 3 == (n % 3 + 1) % 3
  {
  }

  lemma PrintedBy(s: State, t: nat)
    requires Inv(s) && t < 3 && s.pcs[t] == Printing
    ensures s.owner == Some(t) && t == Turn(s)
    ensures var s' := Next(s, t, Signal);
            && |s'.out| == |s.out| + 1 && Turn(s') == (t + 1) % 3
            && s'.queue == s.queue && s'.owner == s.owner && s'.pcs == s.pcs[t := Updating]
  {
    hide LockInv, QueueInv, OutInv, CounterInv, Numbers;
    PrinterOwns(s, t);
    TurnMoves(|s.out|);
  }

  /** Printing in a crossed state leaves the next thread asleep behind the one that is woken. */
  lemma CrossedPrint(s: State, t: nat)
    requires Inv(s) && Crossed(s) && t < 3 && s.pcs[t] == Printing
    ensures Stuck(Next(s, t, Signal), Signal)
  {
    PrintedBy(s, t);
    hide CounterInv, OutInv, LockInv, Numbers, Next;
    assert s.queue == [(t + 2) % 3, (t + 1) % 3];
    assert s.pcs[s.queue[1]] == Queued;
  }

  lemma CrossedStep(s: State, t: nat)
    requires Inv(s) && Crossed(s) && t < 3
    ensures var s' := Next(s, t, Signal);
            || (s'.out == s.out && Crossed(s'))
            || (|s'.out| == |s.out| + 1 && Stuck(s', Signal))
  {
    hide Next, LockInv, QueueInv, CounterInv, OutInv, Pending, Stuck;
    if s.pcs[t] == Printing {
      PrintedBy(s, t);
      CrossedPrint(s, t);
    } else if s.owner == Some(t) {
      OwnerKeepsPending(s, t);
    } else if s.owner.Some? {
      BystanderKeepsPending(s, t);
    } else {
      FreeKeepsPending(s, t);
    }
  }

  /** From a crossed state no schedule prints more than one line. */
  lemma {:induction false} CrossedPrintsOnce(s: State, schedule: seq<nat>)
    requires Inv(s) && Crossed(s) && LegalSchedule(schedule)
    ensures |Run(s, schedule, Signal).out| <= |s.out| + 1
    decreases |schedule|
  {
    hide Next, LockInv, QueueInv, CounterInv, OutInv, Crossed, Stuck;
    if schedule != [] {
      var s' := Next(s, schedule[0], Signal);
      NextKeeps(s, schedule[0], Signal);
      CrossedStep(s, schedule[0]);
      if s'.out == s.out { CrossedPrintsOnce(s', schedule[1..]); } else { StuckForever(s', schedule[1..]); }
    }
  }

  // ---- otherwise the sequence can be continued for ever ----

  /** Neither stuck nor crossed. */
  predicate Going(s: State)
    requires Shaped(s)
  {
    !Stuck(s, Signal) && !Crossed(s)
  }

  /** After a line printed from a queue that is not crossed, at most one thread stays waiting. */
  lemma PrintGoesOn(s: State, t: nat)
    requires Inv(s) && !Crossed(s) && t < 3 && s.pcs[t] == Printing
    ensures Going(Next(s, t, Signal))
  {
    hide LockInv, QueueInv, CounterInv, OutInv, Next;
    PrintedBy(s, t);
    QueueSmall(s, t);
    NextQueued(s, t);
    assert Pending(s) == s.queue;
    assert |Pending(Next(s, t, Signal))| <= 1;
  }

  /** If the next thread waits, then in front, or else the queue is crossed. */
  lemma NextQueued(s: State, t: nat)
    requires Inv(s) && t < 3 && s.pcs[t] == Printing
    ensures s.pcs[(t + 1) % 3] == Queued ==>
              (s.queue != [] && s.queue[0] == (t + 1) % 3) || s.queue == [(t + 2) % 3, (t + 1) % 3]
  {
    QueueSmall(s, t);
    hide CounterInv, OutInv, LockInv;
    var a := (t + 1) % 3;
    if s.pcs[a] == Queued {
      var i :| 0 <= i < |s.queue| && s.queue[i] == a;
      if i == 1 { assert s.queue[0] == (t + 2) % 3 && s.queue == [s.queue[0], s.queue[1]]; }
    }
  }

  /** Running the owner, or else the thread whose turn it is, goes on towards the next line. */
  lemma GoingStep(s: State)
    requires Inv(s) && Going(s)
    ensures Pick(s) < 3
    ensures var s' := Next(s, Pick(s), Signal);
            && Going(s')
            && (|s'.out| == |s.out| + 1 || (|s'.out| == |s.out| && Distance(s') < Distance(s)))
  {
    hide Distance, LockInv, QueueInv, CounterInv, OutInv, Next, Pending, Stuck;
    StepCloser(s, Signal);
    var t := Pick(s);
    if s.pcs[t] == Printing {
      PrintedBy(s, t);
      PrintGoesOn(s, t);
    } else if s.owner.Some? {
      OwnerKeepsPending(s, t);
    } else {
      FreeKeepsPending(s, t);
    }
  }

  /** The next line, ending where the one after it can be printed too. */
  lemma {:induction false} PrintNext(s: State) returns (schedule: seq<nat>)
    requires Inv(s) && Going(s)
    ensures LegalSchedule(schedule)
    ensures var s' := Run(s, schedule, Signal); Inv(s') && Going(s') && |s'.out| == |s.out| + 1
    decreases Distance(s)
  {
    hide Next, LockInv, QueueInv, CounterInv, OutInv, Going, Distance;
    GoingStep(s);
    var t := Pick(s);
    var s' := Next(s, t, Signal);
    NextKeeps(s, t, Signal);
    if |s'.out| == |s.out| + 1 {
      schedule := [t];
      assert Run(s', [], Signal) == s';
    } else {
      var rest := PrintNext(s');
      schedule := [t] + rest;
      assert schedule[1..] == rest;
    }
  }

  lemma {:induction false} PrintMany(s: State, n: nat) returns (schedule: seq<nat>)
    requires Inv(s) && Going(s)
    ensures LegalSchedule(schedule)
    ensures var s' := Run(s, schedule, Signal); Inv(s') && Going(s') && |s'.out| == |s.out| + n
  {
    hide LockInv, QueueInv, CounterInv, OutInv, Going;
    if n == 0 {
      schedule := [];
    } else {
      var first := PrintMany(s, n - 1);
      var last := PrintNext(Run(s, first, Signal));
      RunConcat(s, first, last, Signal);
      schedule := first + last;
    }
  }

  /** Some continuation prints at least n more lines. */
  ghost predicate CanPrintMore(s: State, n: nat, mode: Mode)
    requires Shaped(s)
  {
    exists schedule :: LegalSchedule(schedule) && |Run(s, schedule, mode).out| >= |s.out| + n
  }

  /** The sequence can be continued without end exactly if it is neither stuck nor crossed. */
  lemma RepetitionExact(s: State)
    requires Reachable(s, Signal)
    ensures Shaped(s)
    ensures (forall n: nat :: CanPrintMore(s, n, Signal)) <==> !Stuck(s, Signal) && !Crossed(s)
  {
    ReachableInv(s, Signal);
    assert Shaped(s);
    hide LockInv, QueueInv, CounterInv, OutInv, Stuck, Crossed;
    if Stuck(s, Signal) {
      StuckStops(s);
      assert !CanPrintMore(s, 1, Signal);
    } else if Crossed(s) {
      CrossedStops(s);
      assert !CanPrintMore(s, 2, Signal);
    } else {
      forall n: nat ensures CanPrintMore(s, n, Signal) {
        var schedule := PrintMany(s, n);
      }
    }
  }

  lemma StuckStops(s: State)
    requires Inv(s) && Stuck(s, Signal)
    ensures !CanPrintMore(s, 1, Signal)
  {
    hide LockInv, QueueInv, CounterInv, OutInv, Stuck, Run;
    forall schedule | LegalSchedule(schedule) ensures |Run(s, schedule, Signal).out| == |s.out| {
      StuckForever(s, schedule);
    }
  }

  lemma CrossedStops(s: State)
    requires Inv(s) && Crossed(s)
    ensures !CanPrintMore(s, 2, Signal)
  {
    hide LockInv, QueueInv, CounterInv, OutInv, Crossed, Run;
    forall schedule | LegalSchedule(schedule) ensures |Run(s, schedule, Signal).out| <= |s.out| + 1 {
      CrossedPrintsOnce(s, schedule);
    }
  }

  /** The program starts well: from boot the sequence can be continued without end. */
  lemma BootRepeats(n: nat)
    ensures CanPrintMore(BOOT, n, Signal)
  {
    assert Run(BOOT, [], Signal) == BOOT;
    assert Reachable(BOOT, Signal);
    assert !Stuck(BOOT, Signal) && !Crossed(BOOT);
    RepetitionExact(BOOT);
  }

  lemma BothWaitCrossed()
    ensures Shaped(BOTH_WAIT) && Crossed(BOTH_WAIT) && !Stuck(BOTH_WAIT, Signal)
  {
  }

  lemma BothWaitReached()
    ensures Reachable(BOTH_WAIT, Signal)
  {
    hide Run;
    assert LegalSchedule([2, 2, 1, 1]);
    TrapFirstHalf();
  }

  /** But C and B may wait before A runs: then one more line can be printed, and no second. */
  lemma CrossedReached()
    ensures Reachable(BOTH_WAIT, Signal) && Crossed(BOTH_WAIT) && !Stuck(BOTH_WAIT, Signal)
    ensures CanPrintMore(BOTH_WAIT, 1, Signal) && !CanPrintMore(BOTH_WAIT, 2, Signal)
  {
    hide LockInv, QueueInv, CounterInv, OutInv, Stuck, Crossed, Run, Reachable;
    BothWaitCrossed();
    BothWaitReached();
    ReachableInv(BOTH_WAIT, Signal);
    CrossedStops(BOTH_WAIT);
    var schedule := CanPrint(BOTH_WAIT, Signal);
  }

  /** With broadcast in place of signal the documented repetition holds in every reachable state. */
  lemma {:induction false} BroadcastRepeats(s: State, n: nat)
    requires Reachable(s, Broadcast)
    ensures Shaped(s) && CanPrintMore(s, n, Broadcast)
  {
    ReachableInv(s, Broadcast);
    hide LockInv, QueueInv, CounterInv, OutInv, Next;
    if n == 0 {
      assert LegalSchedule([]) && Run(s, [], Broadcast) == s;
    } else {
      BroadcastRepeats(s, n - 1);
      var first :| LegalSchedule(first) && |Run(s, first, Broadcast).out| >= |s.out| + (n - 1);
      OneMore(s, first);
    }
  }

  lemma OneMore(s: State, first: seq<nat>)
    requires Reachable(s, Broadcast) && Shaped(s) && LegalSchedule(first)
    ensures exists schedule :: LegalSchedule(schedule)
              && |Run(s, schedule, Broadcast).out| == |Run(s, first, Broadcast).out| + 1
  {
    hide Run, Reachable;
    var s1 := Run(s, first, Broadcast);
    ReachableOn(s, first, Broadcast);
    BroadcastNeverStuck(s1);
    var last :| LegalSchedule(last) && |Run(s1, last, Broadcast).out| == |s1.out| + 1;
    RunConcat(s, first, last, Broadcast);
  }

  lemma ReachableOn(s: State, schedule: seq<nat>, mode: Mode)
    requires Reachable(s, mode) && Shaped(s) && LegalSchedule(schedule)
    ensures Reachable(Run(s, schedule, mode), mode)
  {
    hide Run;
    var past :| LegalSchedule(past) && Run(BOOT, past, mode) == s;
    RunConcat(BOOT, past, schedule, mode);
  }
}
