/**
 The coordinator's clock.  It runs on absolute deadlines: cycle n is due at t0 + n * P, a
 cycle works for w milliseconds and then sleeps until the next deadline, one millisecond at
 least.  Sleeps are exact; the work times are arbitrary.
 */
module Deadlines {
  function Max(a: int, b: int): int {
    if a < b then b else a
  }

  /** The absolute deadline of cycle n. */
  function Due(t0: int, period: nat, n: nat): int {
    t0 + n * period
  }

  lemma NextDue(t0: int, period: nat, n: nat)
    ensures Due(t0, period, n + 1) == Due(t0, period, n) + period
  {
  }

  /** When cycle n starts: at its deadline, or one millisecond after the previous cycle's work. */
  function StartOf(t0: int, period: nat, work: seq<nat>, n: nat): int
    requires n <= |work|
  {
    if n == 0 then t0
    else Max(Due(t0, period, n), StartOf(t0, period, work, n - 1) + work[n - 1] + 1)
  }

  lemma FirstStart(t0: int, period: nat, work: seq<nat>)
    ensures StartOf(t0, period, work, 0) == t0 == Due(t0, period, 0)
  {
  }

  lemma NextStart(t0: int, period: nat, work: seq<nat>, n: nat)
    requires n < |work|
    ensures StartOf(t0, period, work, n + 1)
            == Max(Due(t0, period, n + 1), StartOf(t0, period, work, n) + work[n] + 1)
  {
  }

  /** The periodic loop, for as many cycles as there are work times. */
  method Coordinate(t0: int, period: nat, work: seq<nat>) returns (starts: seq<int>, sleeps: seq<int>)
    requires period >= 1
    ensures |starts| == |sleeps| == |work|
    ensures forall n :: 0 <= n < |work| ==> starts[n] == StartOf(t0, period, work, n)
    ensures forall n :: 0 <= n < |work| ==> 1 <= sleeps[n] <= period
    ensures forall n :: 0 <= n < |work| ==> starts[n] + work[n] + sleeps[n] == StartOf(t0, period, work, n + 1)
  {
    FirstStart(t0, period, work);
    hide StartOf, Due;
    var nextDeadline, uptime := t0, t0;
    starts, sleeps := [], [];
    for i := 0 to |work|
      invariant |starts| == |sleeps| == i
      invariant nextDeadline == Due(t0, period, i)
      invariant uptime == StartOf(t0, period, work, i) >= nextDeadline
      invariant forall n :: 0 <= n < i ==> starts[n] == StartOf(t0, period, work, n)
      invariant forall n :: 0 <= n < i ==> 1 <= sleeps[n] <= period
      invariant forall n :: 0 <= n < i ==> starts[n] + work[n] + sleeps[n] == StartOf(t0, period, work, n + 1)
    {
      NextDue(t0, period, i);
      NextStart(t0, period, work, i);
      starts := starts + [uptime];
      nextDeadline := nextDeadline + period;
      var now := uptime + work[i];
      var sleepMs := nextDeadline - now;
      if sleepMs < 1 { sleepMs := 1; }
      sleeps := sleeps + [sleepMs];
      uptime := now + sleepMs;
    }
  }

  /** Work and one millisecond of sleep for each of the cycles j .. n. */
  function Busy(work: seq<nat>, j: nat, n: nat): nat
    requires j <= n <= |work|
  {
    if j == n then 0 else Busy(work, j, n - 1) + work[n - 1] + 1
  }

  /** The start if the coordinator was last on time in cycle j. */
  function Candidate(t0: int, period: nat, work: seq<nat>, j: nat, n: nat): int
    requires j <= n <= |work|
  {
    Due(t0, period, j) + Busy(work, j, n)
  }

  /** Closed form: the start of cycle n is the largest candidate. */
  lemma {:induction false} StartIsMax(t0: int, period: nat, work: seq<nat>, n: nat)
    requires n <= |work|
    ensures forall j :: 0 <= j <= n ==> StartOf(t0, period, work, n) >= Candidate(t0, period, work, j, n)
    ensures exists j :: 0 <= j <= n && StartOf(t0, period, work, n) == Candidate(t0, period, work, j, n)
  {
    if n == 0 {
      assert StartOf(t0, period, work, 0) == Candidate(t0, period, work, 0, 0);
    } else {
      StartIsMax(t0, period, work, n - 1);
      assert Candidate(t0, period, work, n, n) == Due(t0, period, n);
      forall j | 0 <= j <= n ensures StartOf(t0, period, work, n) >= Candidate(t0, period, work, j, n) {
        if j < n {
          assert Candidate(t0, period, work, j, n) == Candidate(t0, period, work, j, n - 1) + work[n - 1] + 1;
        }
      }
      if StartOf(t0, period, work, n) == Due(t0, period, n) {
        assert StartOf(t0, period, work, n) == Candidate(t0, period, work, n, n);
      } else {
        var j :| 0 <= j <= n - 1 && StartOf(t0, period, work, n - 1) == Candidate(t0, period, work, j, n - 1);
        assert StartOf(t0, period, work, n) == Candidate(t0, period, work, j, n);
      }
    }
  }

  function Lateness(t0: int, period: nat, work: seq<nat>, n: nat): (l: int)
    requires n <= |work|
    ensures l >= 0
  {
    StartOf(t0, period, work, n) - (Due(t0, period, n))
  }

  /** Lateness carries over from one cycle to the next and never accumulates beyond that. */
  lemma LatenessStep(t0: int, period: nat, work: seq<nat>, n: nat)
    requires n < |work|
    ensures Lateness(t0, period, work, n + 1) == Max(0, Lateness(t0, period, work, n) + work[n] + 1 - period)
  {
    NextDue(t0, period, n);
  }

  /**
   Once every cycle leaves a slack of d milliseconds, lateness shrinks by at least d a cycle
   until the coordinator is on time again, and then stays on time.
   */
  lemma {:induction false} CatchesUp(t0: int, period: nat, work: seq<nat>, m: nat, n: nat, d: nat)
    requires m <= n <= |work| && d <= period
    requires forall i :: m <= i < n ==> work[i] + 1 <= period - d
    ensures Lateness(t0, period, work, n) <= Max(0, Lateness(t0, period, work, m) - (n - m) * d)
    decreases n
  {
    if m < n {
      CatchesUp(t0, period, work, m, n - 1, d);
      LatenessStep(t0, period, work, n - 1);
      assert (n - m) * d == (n - 1 - m) * d + d;
    }
  }

  /** No drift: with cycles that fit their period, cycle n starts exactly at t0 + n * P. */
  lemma NoDrift(t0: int, period: nat, work: seq<nat>, n: nat)
    requires n <= |work| && forall i :: 0 <= i < n ==> work[i] + 1 <= period
    ensures StartOf(t0, period, work, n) == t0 + n * period
  {
    CatchesUp(t0, period, work, 0, n, 0);
  }

  const TWO32 := 0x1_0000_0000

  /** The time stamp: seconds truncated to 32 bits, and the millisecond remainder. */
  function Stamp(ms: nat): (nat, nat) {
    ((ms / 1000) % TWO32, (ms % 1000) % TWO32)
  }

  /** The stamp denotes the uptime exactly until the 32-bit seconds wrap, and never after. */
  lemma StampExact(ms: nat)
    ensures Stamp(ms).0 * 1000 + Stamp(ms).1 == ms <==> ms < 1000 * 0x1_0000_0000
    ensures Stamp(ms).0 < 0x1_0000_0000 && Stamp(ms).1 < 1000
    ensures (Stamp(ms).0 * 1000 + Stamp(ms).1 - ms) % (1000 * 0x1_0000_0000) == 0
  {
    assert ms == 1000 * (ms / 1000) + ms % 1000;
    if ms >= 1000 * TWO32 {
      assert ms / 1000 >= TWO32;
      assert Stamp(ms).0 < TWO32 <= ms / 1000;
    }
  }
}
