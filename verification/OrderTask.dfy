/**
 Three threads print 1 to 9 in turn, over and over: a shared counter `ready`, a mutex, and a
 condition variable on which all three wait.  Every step is one kernel call or one access
 to the shared state, so a schedule may switch threads anywhere.
 */
module OrderTask {
  import opened Wrappers

  datatype Pc =
    | AtLock                 // about to lock the mutex
    | Checking               // holds the mutex, about to test its turn
    | Queued                 // asleep on the condition variable, mutex released
    | Woken                  // signalled, must take the mutex again
    | Printing | Updating | Waking | Unlocking    // critical section
    | Sleeping               // between rounds

  /** The threads wait in line; signalling wakes the first, broadcasting all. */
  datatype State = State(ready: nat, pcs: seq<Pc>, owner: Option<nat>, queue: seq<nat>, out: seq<(nat, int)>)

  datatype Mode = Signal | Broadcast

  const BOOT := State(0, [AtLock, AtLock, AtLock], None, [], [])

  predicate Shaped(s: State) {
    |s.pcs| == 3 && s.ready < 9 && forall i :: 0 <= i < |s.queue| ==> s.queue[i] < 3
  }

  /** The numbers thread t prints: its three-element array. */
  function Numbers(t: nat): (a: seq<int>)
    requires t < 3
    ensures |a| == 3
  {
    if t == 0 then [1, 4, 7] else if t == 1 then [2, 5, 8] else [3, 6, 9]
  }

  /** One step of thread t; a thread that cannot go leaves everything as it is. */
  function Next(s: State, t: nat, mode: Mode): (s': State)
    requires Shaped(s) && t < 3
    ensures Shaped(s')
  {
    match s.pcs[t]
    case AtLock => if s.owner.Some? then s else s.(owner := Some(t), pcs := s.pcs[t := Checking])
    case Woken => if s.owner.Some? then s else s.(owner := Some(t), pcs := s.pcs[t := Checking])
    case Checking =>
      if s.ready % 3 != t then s.(owner := None, queue := s.queue + [t], pcs := s.pcs[t := Queued])
      else s.(pcs := s.pcs[t := Printing])
    case Queued => s
    case Printing =>
      s.(out := s.out + [(t, Numbers(t)[s.ready / 3])], pcs := s.pcs[t := Updating])
    case Updating => s.(ready := (s.ready + 1) % 9, pcs := s.pcs[t := Waking])
    case Waking =>
      if s.queue == [] then s.(pcs := s.pcs[t := Unlocking])
      else if mode == Signal then
        s.(queue := s.queue[1..], pcs := s.pcs[s.queue[0] := Woken][t := Unlocking])
      else
        s.(queue := [], pcs := seq(3, i requires 0 <= i < 3 =>
                                 if i == t then Unlocking else if s.pcs[i] == Queued then Woken else s.pcs[i]))
    case Unlocking => s.(owner := None, pcs := s.pcs[t := Sleeping])
    case Sleeping => s.(pcs := s.pcs[t := AtLock])
  }

  predicate LegalSchedule(schedule: seq<nat>) {
    forall i :: 0 <= i < |schedule| ==> schedule[i] < 3
  }

  function Run(s: State, schedule: seq<nat>, mode: Mode): (s': State)
    requires Shaped(s) && LegalSchedule(schedule)
    ensures Shaped(s')
    decreases |schedule|
  {
    if schedule == [] then s else Run(Next(s, schedule[0], mode), schedule[1..], mode)
  }

  lemma {:induction false} RunConcat(s: State, a: seq<nat>, b: seq<nat>, mode: Mode)
    requires Shaped(s) && LegalSchedule(a) && LegalSchedule(b)
    ensures LegalSchedule(a + b)
    ensures Run(s, a + b, mode) == Run(Run(s, a, mode), b, mode)
    decreases |a|
  {
    if a == [] {
      assert a + b == b;
    } else {
      assert (a + b)[1..] == a[1..] + b;
      RunConcat(Next(s, a[0], mode), a[1..], b, mode);
    }
  }

  // ---- safety ----

  predicate Holds(pc: Pc) {
    pc == Checking || pc == Printing || pc == Updating || pc == Waking || pc == Unlocking
  }

  /** Some thread has printed but not yet advanced the counter. */
  predicate Advancing(s: State)
    requires Shaped(s)
  {
    s.owner.Some? && s.owner.value < 3 && s.pcs[s.owner.value] == Updating
  }

  /** Whose turn it is to print the next number. */
  function Turn(s: State): nat {
    |s.out| % 3
  }

  /** Exactly the owner of the mutex is in its critical section. */
  ghost predicate LockInv(s: State)
    requires Shaped(s)
  {
    && (s.owner.Some? ==> s.owner.value < 3)
    && (forall t :: 0 <= t < 3 ==> (Holds(s.pcs[t]) <==> s.owner == Some(t)))
  }

  /** The queue holds exactly the waiting threads, each once. */
  ghost predicate QueueInv(s: State)
    requires Shaped(s)
  {
    && (forall t :: 0 <= t < 3 && s.pcs[t] == Queued ==> exists i :: 0 <= i < |s.queue| && s.queue[i] == t)
    && (forall i :: 0 <= i < |s.queue| ==> s.pcs[s.queue[i]] == Queued)
    && (forall i, j :: 0 <= i < j < |s.queue| ==> s.queue[i] != s.queue[j])
  }

  /** The counter is the number of lines printed, modulo nine, and one behind while advancing. */
  ghost predicate CounterInv(s: State)
    requires Shaped(s)
  {
    && (if Advancing(s) then |s.out| > 0 && s.ready == (|s.out| - 1) % 9 else s.ready == |s.out| % 9)
    && (forall t :: 0 <= t < 3 && (s.pcs[t] == Printing || s.pcs[t] == Updating) ==> s.ready % 3 == t)
  }

  ghost predicate OutInv(s: State) {
    forall k :: 0 <= k < |s.out| ==> s.out[k] == (k % 3, k % 9 + 1)
  }

  ghost predicate Inv(s: State) {
    Shaped(s) && LockInv(s) && QueueInv(s) && CounterInv(s) && OutInv(s)
  }

  lemma NinesAndThrees(n: nat)
    ensures (n % 9) % 3 == n % 3 && (n % 9 + 1) % 9 == (n + 1) % 9
    ensures (n % 9) / 3 < 3 && n % 9 == 3 * ((n % 9) / 3) + n % 3
  {
  }

  /** Thread t's array holds at place i the number 3i + t + 1. */
  lemma NumbersAt(t: nat, i: nat)
    requires t < 3 && i < 3
    ensures Numbers(t)[i] == 3 * i + t + 1
  {
  }

  lemma PrintKeeps(s: State, t: nat, mode: Mode)
    requires Inv(s) && t < 3 && s.pcs[t] == Printing
    ensures CounterInv(Next(s, t, mode)) && OutInv(Next(s, t, mode))
  {
    hide QueueInv, Numbers;
    var n := |s.out|;
    assert s.owner == Some(t) && s.ready == n % 9 && s.ready % 3 == t;
    NinesAndThrees(n);
    NumbersAt(t, s.ready / 3);
    assert Next(s, t, mode).out == s.out + [(n % 3, n % 9 + 1)];
  }

  lemma UpdateKeeps(s: State, t: nat, mode: Mode)
    requires Inv(s) && t < 3 && s.pcs[t] == Updating
    ensures CounterInv(Next(s, t, mode))
  {
    hide QueueInv, Numbers, OutInv;
    var n := |s.out|;
    assert s.owner == Some(t) && s.ready == (n - 1) % 9;
    NinesAndThrees(n - 1);
  }

  /** Steps that neither print nor advance do not touch what the counter says. */
  lemma OthersKeep(s: State, t: nat, mode: Mode)
    requires Inv(s) && t < 3 && s.pcs[t] != Printing && s.pcs[t] != Updating
    ensures CounterInv(Next(s, t, mode))
  {
    hide Numbers, OutInv;
    var s' := Next(s, t, mode);
    assert s'.ready == s.ready && |s'.out| == |s.out|;
    assert forall u | 0 <= u < 3 :: (s'.pcs[u] == Updating <==> s.pcs[u] == Updating);
  }

  lemma CounterKeeps(s: State, t: nat, mode: Mode)
    requires Inv(s) && t < 3
    ensures CounterInv(Next(s, t, mode)) && OutInv(Next(s, t, mode))
  {
    if s.pcs[t] == Printing { PrintKeeps(s, t, mode); }
    else if s.pcs[t] == Updating { UpdateKeeps(s, t, mode); }
    else { OthersKeep(s, t, mode); }
    hide CounterInv, Numbers;
  }

  lemma LockKeeps(s: State, t: nat, mode: Mode)
    requires Inv(s) && t < 3
    ensures LockInv(Next(s, t, mode))
  {
    hide Numbers, OutInv, CounterInv;
  }

  lemma WakeKeeps(s: State, t: nat, mode: Mode)
    requires Inv(s) && t < 3 && s.pcs[t] == Waking
    ensures QueueInv(Next(s, t, mode))
  {
    hide Numbers, OutInv, CounterInv, LockInv;
    var s' := Next(s, t, mode);
    if s.queue != [] && mode == Signal {
      forall u | 0 <= u < 3 && s'.pcs[u] == Queued ensures exists i :: 0 <= i < |s'.queue| && s'.queue[i] == u {
        var i :| 0 <= i < |s.queue| && s.queue[i] == u;
        assert i > 0 && s'.queue[i - 1] == u;
      }
    }
  }

  lemma WaitKeeps(s: State, t: nat, mode: Mode)
    requires Inv(s) && t < 3 && s.pcs[t] == Checking
    ensures QueueInv(Next(s, t, mode))
  {
    hide Numbers, OutInv, CounterInv, LockInv;
    var s' := Next(s, t, mode);
    if s.ready % 3 != t {
      assert s'.queue[|s.queue|] == t;
      forall u | 0 <= u < 3 && s'.pcs[u] == Queued ensures exists i :: 0 <= i < |s'.queue| && s'.queue[i] == u {
        if u != t {
          var i :| 0 <= i < |s.queue| && s.queue[i] == u;
          assert s'.queue[i] == u;
        }
      }
    }
  }

  lemma QueueKeeps(s: State, t: nat, mode: Mode)
    requires Inv(s) && t < 3
    ensures QueueInv(Next(s, t, mode))
  {
    if s.pcs[t] == Waking {
      WakeKeeps(s, t, mode);
    } else if s.pcs[t] == Checking {
      WaitKeeps(s, t, mode);
    } else {
      hide Numbers, OutInv, CounterInv, LockInv;
      var s' := Next(s, t, mode);
      assert s'.queue == s.queue;
      assert forall u | 0 <= u < 3 :: s'.pcs[u] == Queued <==> s.pcs[u] == Queued;
    }
  }

  lemma NextKeeps(s: State, t: nat, mode: Mode)
    requires Inv(s) && t < 3
    ensures Inv(Next(s, t, mode))
  {
    CounterKeeps(s, t, mode);
    LockKeeps(s, t, mode);
    QueueKeeps(s, t, mode);
    hide Next, CounterInv, OutInv, LockInv, QueueInv;
  }
}
