/**
 * The retry delay: a doubling loop in 64-bit arithmetic, capped, then jittered down by up to
 * half. Durations count nanoseconds.
 */
module Backoff {
  import opened Basics
  import Outbox

  const MAX_INT64: int := 0x7fff_ffff_ffff_ffff

  /** int64; arithmetic on it is done in int and wrapped back explicitly. */
  newtype Duration = x: int | -0x8000_0000_0000_0000 <= x < 0x8000_0000_0000_0000

  /** Two's complement: what a sum or product keeps of its low 64 bits. */
  function Wrap(x: int): (r: Duration)
    ensures -0x8000_0000_0000_0000 <= x <= MAX_INT64 ==> r as int == x
    ensures MAX_INT64 < x < 0x1_0000_0000_0000_0000 ==> r < 0
  {
    ((x + 0x8000_0000_0000_0000) % 0x1_0000_0000_0000_0000 - 0x8000_0000_0000_0000) as Duration
  }

  /** What the loop leaves in d after up to `rounds` doublings. */
  function Loop(d: Duration, cap: Duration, rounds: nat): Duration
    decreases rounds
  {
    if rounds == 0 then d else
      var e := Wrap(2 * (d as int));
      if e >= cap then cap else Loop(e, cap, rounds - 1)
  }

  function Rounds(attempt: int): nat {
    if attempt <= 1 then 0 else attempt - 1
  }

  function Delay(base: Duration, cap: Duration, attempt: int): Duration {
    Loop(base, cap, Rounds(attempt))
  }

  /** Jitter: half the delay plus a draw from [0, half]; tiny delays are not halved. */
  function Jittered(d: Duration, draw: nat): int {
    if d < 2 then d as int else d as int / 2 + draw % (d as int / 2 + 1)
  }

  function Wait(base: Duration, cap: Duration, attempt: int, draw: nat): int {
    Jittered(Delay(base, cap, attempt), draw)
  }

  /** Division by two as Go rounds it, toward zero. */
  function Half(d: Duration): int {
    if d >= 0 then d as int / 2 else -(-(d as int) / 2)
  }

  method ExpJitter(base: Duration, cap: Duration, attempt: int, draw: nat) returns (wait: int)
    ensures wait == Wait(base, cap, attempt, draw)
  {
    var d := base;
    var i := 1;
    while i < attempt
      invariant Loop(d, cap, Rounds(attempt - i + 1)) == Delay(base, cap, attempt)
    {
      d := Wrap(2 * (d as int));
      if d >= cap {
        d := cap;
        assert d == Delay(base, cap, attempt);
        break;
      }
      i := i + 1;
    }
    var half := Half(d);
    if half <= 0 {
      return d as int;
    }
    wait := half + draw % (half + 1);
  }

  /** The least d * 2^k, k >= 1, that reaches the cap: the value the loop's test first sees there. */
  function FirstReach(d: int, cap: int): (r: int)
    requires 0 < d <= cap
    ensures cap <= r < 2 * cap || r == 2 * cap == 2 * d
    decreases cap - d
  {
    if 2 * d >= cap then 2 * d else FirstReach(2 * d, cap)
  }

  /** The delay the documentation promises. */
  predicate AsPromised(base: Duration, cap: Duration, rounds: nat) {
    Loop(base, cap, rounds) as int == Min(cap as int, base as int * Pow2(rounds))
  }

  lemma {:induction false} PromiseOneDown(d: Duration, cap: Duration, rounds: nat)
    requires 0 < d <= cap && 2 * (d as int) < cap as int && rounds > 0
    ensures AsPromised(d, cap, rounds) <==> AsPromised(Wrap(2 * (d as int)), cap, rounds - 1)
  {
    assert d as int * Pow2(rounds) == 2 * (d as int) * Pow2(rounds - 1);
  }

  lemma {:induction false} Capped(d: Duration, cap: Duration, rounds: nat)
    requires 0 < d <= cap && 2 * (d as int) >= cap as int && rounds > 0
    ensures Min(cap as int, d as int * Pow2(rounds)) == cap as int
  {
    assert d as int * Pow2(rounds) == 2 * (d as int) * Pow2(rounds - 1);
    assert 2 * (d as int) * Pow2(rounds - 1) >= 2 * (d as int);
  }

  lemma {:induction false} NoOverflowIsRight(d: Duration, cap: Duration, rounds: nat)
    requires 0 < d <= cap && FirstReach(d as int, cap as int) <= MAX_INT64
    ensures AsPromised(d, cap, rounds)
    decreases rounds
  {
    if rounds == 0 {
    } else if 2 * (d as int) >= cap as int {
      Capped(d, cap, rounds);
    } else {
      NoOverflowIsRight(Wrap(2 * (d as int)), cap, rounds - 1);
      PromiseOneDown(d, cap, rounds);
    }
  }

  lemma {:induction false} OverflowIsWrong(d: Duration, cap: Duration) returns (rounds: nat)
    requires 0 < d <= cap && FirstReach(d as int, cap as int) > MAX_INT64
    ensures rounds > 0 && !AsPromised(d, cap, rounds)
    decreases cap as int - d as int
  {
    if 2 * (d as int) >= cap as int {
      rounds := 1;
      Capped(d, cap, rounds);
      assert Wrap(2 * (d as int)) < 0;
      assert Loop(d, cap, 1) == Loop(Wrap(2 * (d as int)), cap, 0);
    } else {
      rounds := OverflowIsWrong(Wrap(2 * (d as int)), cap);
      rounds := rounds + 1;
      PromiseOneDown(d, cap, rounds);
    }
  }

  ghost predicate AlwaysAsPromised(base: Duration, cap: Duration) {
    forall attempt: int :: attempt >= 1 ==>
      Delay(base, cap, attempt) as int == Min(cap as int, base as int * Pow2(attempt - 1))
  }

  /**
   * Every attempt N waits on min(max, base * 2^(N-1)) if and only if the doubling of base that
   * first reaches max still fits 64 bits. Past that the product wraps to a negative delay, which
   * the cap does not catch.
   */
  lemma {:induction false} PromisedDelayIff(base: Duration, cap: Duration)
    requires 0 < base <= cap
    ensures AlwaysAsPromised(base, cap) <==> FirstReach(base as int, cap as int) <= MAX_INT64
  {
    if FirstReach(base as int, cap as int) <= MAX_INT64 {
      forall attempt: int | attempt >= 1
        ensures Delay(base, cap, attempt) as int == Min(cap as int, base as int * Pow2(attempt - 1))
      {
        NoOverflowIsRight(base, cap, attempt - 1);
      }
    } else {
      var rounds := OverflowIsWrong(base, cap);
      assert Delay(base, cap, rounds + 1) == Loop(base, cap, rounds);
    }
  }

  /** It suffices that twice the cap fits. */
  lemma {:induction false} TwiceTheCapFits(base: Duration, cap: Duration)
    requires 0 < base <= cap && 2 * (cap as int) <= MAX_INT64
    ensures AlwaysAsPromised(base, cap)
  {
    PromisedDelayIff(base, cap);
  }

  /** The jittered wait is within [d/2, d]. */
  lemma {:induction false} WithinHalf(d: Duration, draw: nat)
    requires d >= 0
    ensures d as int / 2 <= Jittered(d, draw) <= d as int
  {
  }

  /** As long as the doubled value stays within the cap, the loop neither caps nor overflows. */
  lemma {:induction false} BelowTheCap(d: Duration, cap: Duration, rounds: nat)
    requires d > 0 && d as int * Pow2(rounds) <= cap as int
    ensures Loop(d, cap, rounds) as int == d as int * Pow2(rounds)
    decreases rounds
  {
    if rounds > 0 {
      var x := d as int;
      FirstDoubling(x, rounds);
      assert Wrap(2 * x) as int == 2 * x;
      if 2 * x < cap as int {
        BelowTheCap(Wrap(2 * x), cap, rounds - 1);
      }
    }
  }

  lemma {:induction false} FirstDoubling(x: int, rounds: nat)
    requires x > 0 && rounds > 0
    ensures x * Pow2(rounds) == (2 * x) * Pow2(rounds - 1)
    ensures 2 * x <= x * Pow2(rounds)
  {
    var p := Pow2(rounds - 1);
    assert Pow2(rounds) == 2 * p;
    assert x * (2 * p) == (2 * x) * p;
    assert (2 * x) * p >= 2 * x;
  }

  /**
   * While the cap is not reached, a later attempt never waits less than an earlier one, whatever
   * the draws.
   */
  lemma {:induction false} UncappedWaitsNeverShrink(
      base: Duration, cap: Duration, n: int, m: int, draw: nat, draw': nat)
    requires base > 0 && 1 <= n < m && base as int * Pow2(m - 1) <= cap as int
    ensures Wait(base, cap, n, draw) <= Wait(base, cap, m, draw')
  {
    DoublesAtLeast(base as int, n, m);
    BelowTheCap(base, cap, n - 1);
    BelowTheCap(base, cap, m - 1);
    WithinHalf(Delay(base, cap, n), draw);
    WithinHalf(Delay(base, cap, m), draw');
  }

  lemma {:induction false} DoublesAtLeast(base: int, n: int, m: int)
    requires base > 0 && 1 <= n < m
    ensures 2 * (base * Pow2(n - 1)) <= base * Pow2(m - 1)
    decreases m - n
  {
    assert base * Pow2(m - 1) == 2 * (base * Pow2(m - 2));
    if m > n + 1 {
      DoublesAtLeast(base, n, m - 1);
    }
  }

  const BASE: Duration := 1_000_000_000
  const CAP: Duration := 300_000_000_000

  /** The settings the dispatcher runs with: no overflow, and never past the cap the outbox model allows. */
  lemma {:induction false} DispatcherBackoff(attempt: int, draw: nat)
    requires attempt >= 1
    ensures Delay(BASE, CAP, attempt) as int == Min(CAP as int, BASE as int * Pow2(attempt - 1))
    ensures 500_000_000 <= Wait(BASE, CAP, attempt, draw) <= 300_000_000_000 == 1000 * Outbox.BACKOFF_CAP
  {
    TwiceTheCapFits(BASE, CAP);
    WithinHalf(Delay(BASE, CAP, attempt), draw);
  }

  /** With too large a cap a retry is due in the past: base 2^62 ns, cap the largest duration. */
  lemma {:induction false} DoublingCanOverflow()
    ensures Wait(0x4000_0000_0000_0000, 0x7fff_ffff_ffff_ffff, 2, 0) < 0
  {
    assert Loop(0x4000_0000_0000_0000, 0x7fff_ffff_ffff_ffff, 1) == Wrap(0x8000_0000_0000_0000);
  }
}
