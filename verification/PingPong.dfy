/**
 Two threads alternate through a pair of binary semaphores, n rounds each.  Thread 0 takes
 semaphore 0, prints ping, gives semaphore 1; thread 1 takes semaphore 1, prints pong, gives
 semaphore 0.  A schedule interleaves their steps arbitrarily.
 */
module PingPong {
  import opened Kernel

  datatype Pc = Taking | Printing | Giving | Sleeping | Ended

  datatype Thread = Thread(pc: Pc, i: nat)

  /** What was printed: the thread (0 ping, 1 pong) and its round. */
  type Trace = seq<(nat, nat)>

  datatype State = State(sems: seq<nat>, threads: seq<Thread>, out: Trace)

  predicate Shaped(s: State) {
    |s.sems| == |s.threads| == 2
  }

  /** A thread at the top of its loop leaves it when its rounds are done. */
  function Enter(i: nat, n: nat): Thread {
    Thread(if i < n then Taking else Ended, i)
  }

  function Boot(n: nat): State {
    State([1, 0], [Enter(0, n), Enter(0, n)], [])
  }

  /** One step of thread t; a blocked or finished thread changes nothing. */
  function Next(s: State, t: nat, n: nat): (s': State)
    requires Shaped(s) && t < 2
    ensures Shaped(s')
  {
    var th := s.threads[t];
    match th.pc
    case Taking =>
      if s.sems[t] == 0 then s
      else s.(sems := s.sems[t := s.sems[t] - 1], threads := s.threads[t := th.(pc := Printing)])
    case Printing => s.(out := s.out + [(t, th.i)], threads := s.threads[t := th.(pc := Giving)])
    case Giving => s.(sems := s.sems[1 - t := Give(s.sems[1 - t])], threads := s.threads[t := th.(pc := Sleeping)])
    case Sleeping => s.(threads := s.threads[t := Enter(th.i + 1, n)])
    case Ended => s
  }

  predicate LegalSchedule(schedule: seq<nat>) {
    forall i :: 0 <= i < |schedule| ==> schedule[i] < 2
  }

  function Run(s: State, schedule: seq<nat>, n: nat): (s': State)
    requires Shaped(s) && LegalSchedule(schedule)
    ensures Shaped(s')
    decreases |schedule|
  {
    if schedule == [] then s else Run(Next(s, schedule[0], n), schedule[1..], n)
  }

  predicate Holding(th: Thread) {
    th.pc == Printing || th.pc == Giving
  }

  function Bit(b: bool): nat {
    if b then 1 else 0
  }

  /** Semaphore counts plus threads between take and give. */
  function Tokens(s: State): nat
    requires Shaped(s)
  {
    s.sems[0] + s.sems[1] + Bit(Holding(s.threads[0])) + Bit(Holding(s.threads[1]))
  }

  /** Lines thread t has printed so far. */
  function Printed(th: Thread): nat {
    th.i + Bit(th.pc == Giving || th.pc == Sleeping)
  }

  /** The one output there is: ping 0, pong 0, ping 1, pong 1, ... */
  predicate Alternates(out: Trace) {
    forall k :: 0 <= k < |out| ==> out[k] == (k % 2, k / 2)
  }

  ghost predicate Inv(s: State, n: nat) {
    && Shaped(s)
    && Tokens(s) == 1
    && (forall t :: 0 <= t < 2 ==> (s.threads[t].pc == Ended <==> s.threads[t].i >= n) && s.threads[t].i <= n)
    && |s.out| == Printed(s.threads[0]) + Printed(s.threads[1])
    && (if s.sems[0] == 1 || s.threads[0].pc == Printing || s.threads[1].pc == Giving
        then Printed(s.threads[0]) == Printed(s.threads[1])
        else Printed(s.threads[0]) == Printed(s.threads[1]) + 1)
    && Alternates(s.out)
  }

  lemma BootInv(n: nat)
    ensures Inv(Boot(n), n)
  {
  }

  lemma NextKeeps(s: State, t: nat, n: nat)
    requires Inv(s, n) && t < 2
    ensures Inv(Next(s, t, n), n)
  {
    if t == 0 {
    } else {
    }
  }

  lemma {:induction false} RunKeeps(s: State, schedule: seq<nat>, n: nat)
    requires Inv(s, n) && LegalSchedule(schedule)
    ensures Inv(Run(s, schedule, n), n)
    decreases |schedule|
  {
    if schedule != [] {
      NextKeeps(s, schedule[0], n);
      RunKeeps(Next(s, schedule[0], n), schedule[1..], n);
    }
  }

  ghost predicate Reachable(s: State, n: nat) {
    exists schedule :: LegalSchedule(schedule) && Run(Boot(n), schedule, n) == s
  }

  lemma ReachableInv(s: State, n: nat)
    requires Reachable(s, n)
    ensures Inv(s, n)
  {
    var schedule :| LegalSchedule(schedule) && Run(Boot(n), schedule, n) == s;
    BootInv(n);
    RunKeeps(Boot(n), schedule, n);
  }

  /** In every schedule: one token, and a prefix of the alternating output. */
  lemma AlwaysAlternating(s: State, n: nat)
    requires Reachable(s, n)
    ensures Tokens(s) == 1
    ensures |s.out| <= 2 * n && forall k :: 0 <= k < |s.out| ==> s.out[k] == (k % 2, k / 2)
  {
    ReachableInv(s, n);
  }

  predicate Final(s: State)
    requires Shaped(s)
  {
    s.threads[0].pc == Ended && s.threads[1].pc == Ended
  }

  /** Steps left in both threads together. */
  function Remaining(s: State, n: nat): int
    requires Shaped(s)
  {
    ThreadRemaining(s.threads[0], n) + ThreadRemaining(s.threads[1], n)
  }

  function ThreadRemaining(th: Thread, n: nat): int {
    4 * (n - th.i) - (match th.pc case Printing => 1 case Giving => 2 case Sleeping => 3 case _ => 0)
  }

  /** Every effective step uses up one of the remaining steps, so every run ends. */
  lemma StepsRunOut(s: State, t: nat, n: nat)
    requires Inv(s, n) && t < 2
    ensures Next(s, t, n) == s || Remaining(Next(s, t, n), n) == Remaining(s, n) - 1
    ensures Remaining(s, n) >= 0
  {
  }

  /** No deadlock: until both threads have ended, one of them can move. */
  lemma NeverStuck(s: State, n: nat)
    requires Reachable(s, n) && !Final(s)
    ensures Next(s, 0, n) != s || Next(s, 1, n) != s
  {
    ReachableInv(s, n);
  }

  /** The end state: the whole output, and the token back on the first semaphore. */
  lemma FinalState(s: State, n: nat)
    requires Reachable(s, n) && Final(s)
    ensures |s.out| == 2 * n && forall k :: 0 <= k < |s.out| ==> s.out[k] == (k % 2, k / 2)
    ensures s.sems == [1, 0]
  {
    ReachableInv(s, n);
  }

  /** How many steps of a schedule do anything. */
  function Moves(s: State, schedule: seq<nat>, n: nat): nat
    requires Shaped(s) && LegalSchedule(schedule)
    decreases |schedule|
  {
    if schedule == [] then 0
    else (if Next(s, schedule[0], n) == s then 0 else 1) + Moves(Next(s, schedule[0], n), schedule[1..], n)
  }

  lemma {:induction false} MovesUseSteps(s: State, schedule: seq<nat>, n: nat)
    requires Inv(s, n) && LegalSchedule(schedule)
    ensures Remaining(Run(s, schedule, n), n) == Remaining(s, n) - Moves(s, schedule, n)
    decreases |schedule|
  {
    if schedule != [] {
      StepsRunOut(s, schedule[0], n);
      NextKeeps(s, schedule[0], n);
      MovesUseSteps(Next(s, schedule[0], n), schedule[1..], n);
    }
  }

  /** The whole run: exactly 8n effective steps bring both threads to their end, in any order. */
  lemma RunsToTheEnd(schedule: seq<nat>, n: nat)
    requires LegalSchedule(schedule)
    ensures Moves(Boot(n), schedule, n) <= 8 * n
    ensures Final(Run(Boot(n), schedule, n)) <==> Moves(Boot(n), schedule, n) == 8 * n
  {
    BootInv(n);
    var s := Run(Boot(n), schedule, n);
    RunKeeps(Boot(n), schedule, n);
    MovesUseSteps(Boot(n), schedule, n);
    StepsRunOut(s, 0, n);
    assert Remaining(Boot(n), n) == 8 * n;
    assert forall t | 0 <= t < 2 :: ThreadRemaining(s.threads[t], n) >= 0;
    assert forall t | 0 <= t < 2 :: ThreadRemaining(s.threads[t], n) == 0 ==> s.threads[t].pc == Ended;
  }

  /** The two threads with the semaphores they share. */
  class Game {
    const n: nat
    const sems: array<nat>
    const threads: array<Thread>
    var out: Trace

    ghost predicate Valid() {
      sems.Length == threads.Length == 2
    }

    ghost function Now(): State
      reads this, sems, threads
    {
      State(sems[..], threads[..], out)
    }

    constructor (n: nat)
      ensures Valid() && this.n == n && Now() == Boot(n) && fresh(sems) && fresh(threads)
    {
      this.n := n;
      sems := new nat[2](i => if i == 0 then 1 else 0);
      threads := new Thread[2](_ => Enter(0, n));
      out := [];
      new;
      assert sems[..] == [1, 0] && threads[..] == [Enter(0, n), Enter(0, n)];
    }

    method Step(t: nat)
      requires Valid() && t < 2
      modifies this, sems, threads
      ensures Valid() && Now() == Next(old(Now()), t, n)
    {
      var th := threads[t];
      match th.pc
      case Taking =>
        if sems[t] > 0 {
          sems[t] := sems[t] - 1;
          threads[t] := th.(pc := Printing);
        }
      case Printing =>
        out := out + [(t, th.i)];
        threads[t] := th.(pc := Giving);
      case Giving =>
        sems[1 - t] := Give(sems[1 - t]);
        threads[t] := th.(pc := Sleeping);
      case Sleeping => threads[t] := Enter(th.i + 1, n);
      case Ended =>
    }
  }
}
