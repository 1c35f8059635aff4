/**
Retry delays. The connector doubles a variable between attempts; the authenticator recomputes
the delay from the attempt number and adds jitter. Durations are int64 nanoseconds, so doubling
is written with its wrap-around. Jitter is a product of floats, rounded by any monotone function.
*/
module Backoff {
  import opened Bytes

  const TWO62: int := 0x4000_0000_0000_0000
  const TWO63: int := 0x8000_0000_0000_0000
  const TWO64: int := 0x1_0000_0000_0000_0000

  type Duration = x: int | -TWO63 <= x < TWO63

  /** The int64 that a mathematical integer becomes. */
  function Wrap(x: int): Duration {
    (x + TWO63) % TWO64 - TWO63
  }

  lemma WrapFits(x: int)
    requires -TWO63 <= x < TWO63
    ensures Wrap(x) == x
  {
  }

  function Min(a: int, b: int): int {
    if a < b then a else b
  }

  datatype Timing = Timing(
    dialTimeout: Duration, handshakeTimeout: Duration, setupTimeout: Duration,
    keepAliveInterval: Duration, pingTimeout: Duration, streamOpenTimeout: Duration,
    drainTimeout: Duration, minBackoff: Duration, maxBackoff: Duration,
    healthyWindow: Duration, jitterRatio: real)

  datatype TimingError = NotPositive | FloorAboveCeiling | WindowBelowFloor | JitterOutOfRange

  function Durations(t: Timing): seq<Duration> {
    [t.dialTimeout, t.handshakeTimeout, t.setupTimeout, t.keepAliveInterval, t.pingTimeout,
     t.streamOpenTimeout, t.drainTimeout, t.minBackoff, t.maxBackoff, t.healthyWindow]
  }

  predicate Valid(t: Timing) {
    && (forall d :: d in Durations(t) ==> d > 0)
    && t.minBackoff <= t.maxBackoff
    && t.minBackoff <= t.healthyWindow
    && 0.0 <= t.jitterRatio <= 1.0
  }

  /** The first complaint of Timing.validate; it has none exactly when the schedule is valid. */
  method Validate(t: Timing) returns (r: Option<TimingError>)
    ensures r.None? <==> Valid(t)
    ensures r == Some(NotPositive) <==> exists d :: d in Durations(t) && d <= 0
    ensures r == Some(FloorAboveCeiling) <==> (forall d :: d in Durations(t) ==> d > 0) && t.minBackoff > t.maxBackoff
    ensures r == Some(WindowBelowFloor) <==>
      (forall d :: d in Durations(t) ==> d > 0) && t.healthyWindow < t.minBackoff <= t.maxBackoff
  {
    var ds := Durations(t);
    for i := 0 to |ds|
      invariant forall j :: 0 <= j < i ==> ds[j] > 0
    {
      if ds[i] <= 0 {
        assert ds[i] in Durations(t);
        return Some(NotPositive);
      }
    }
    if t.minBackoff > t.maxBackoff {
      return Some(FloorAboveCeiling);
    }
    if t.healthyWindow < t.minBackoff {
      return Some(WindowBelowFloor);
    }
    if t.jitterRatio < 0.0 || t.jitterRatio > 1.0 {
      return Some(JitterOutOfRange);
    }
    return None;
  }

  function Pow2(k: nat): nat {
    if k == 0 then 1 else 2 * Pow2(k - 1)
  }

  /** The reference: min(MinBackoff * 2^k, MaxBackoff). */
  function Base(t: Timing, k: nat): int {
    Min(t.minBackoff * Pow2(k), t.maxBackoff)
  }

  lemma ValidBounds(t: Timing)
    requires Valid(t)
    ensures 0 < t.minBackoff <= t.maxBackoff
  {
    var ds := Durations(t);
    assert ds[7] in ds;
  }

  lemma BaseNext(t: Timing, k: nat)
    requires 0 < t.minBackoff <= t.maxBackoff
    ensures Base(t, k + 1) == Min(2 * Base(t, k), t.maxBackoff)
    ensures 0 < t.minBackoff <= Base(t, k) <= t.maxBackoff
  {
    var p := t.minBackoff * Pow2(k);
    assert t.minBackoff * Pow2(k + 1) == 2 * p by {
      assert Pow2(k + 1) == 2 * Pow2(k);
    }
    PowPositive(k);
    assert p >= t.minBackoff by {
      MulAtLeast(t.minBackoff, Pow2(k));
    }
  }

  lemma {:induction false} PowPositive(k: nat)
    ensures Pow2(k) > k
  {
    if k > 0 {
      PowPositive(k - 1);
    }
  }

  lemma MulAtLeast(a: int, b: int)
    requires a > 0 && b > 0
    ensures a * b >= a && a * b >= b
  {
    assert (a - 1) * b >= 0 && a * (b - 1) >= 0;
  }

  /** Once the ceiling is reached the delay stays there. */
  lemma {:induction false} BaseStays(t: Timing, i: nat, k: nat)
    requires 0 < t.minBackoff <= t.maxBackoff && i <= k && Base(t, i) == t.maxBackoff
    ensures Base(t, k) == t.maxBackoff
    decreases k - i
  {
    if i < k {
      BaseNext(t, i);
      BaseStays(t, i + 1, k);
    }
  }

  // ----- The authenticator's form -----

  function Times(a: real, b: real): real {
    a * b
  }

  lemma TimesPart(r: real, x: real)
    requires 0.0 <= r <= 1.0 && 0.0 <= x
    ensures 0.0 <= Times(r, x) <= x
  {
    ProductNonNegative(r, x);
    ProductNonNegative(1.0 - r, x);
    assert (1.0 - r) * x == x - r * x;
  }

  lemma ProductNonNegative(a: real, b: real)
    requires 0.0 <= a && 0.0 <= b
    ensures 0.0 <= a * b
  {
  }

  lemma TimesMonotone(r: real, x: real, y: real)
    requires 0.0 <= r && x <= y
    ensures Times(r, x) <= Times(r, y)
  {
    ProductNonNegative(r, y - x);
    assert r * (y - x) == r * y - r * x;
  }

  /**
  What the results below need of float64 rounding: it is monotone, leaves floats alone, and 0
  and the powers of two at the edge of int64 are floats. Exact arithmetic is a special case.
  */
  ghost predicate Rounding(fl: real -> real) {
    && (forall x, y :: x <= y ==> fl(x) <= fl(y))
    && (forall x :: fl(fl(x)) == fl(x))
    && fl(0.0) == 0.0 && fl(TWO62 as real) == TWO62 as real && fl(TWO63 as real) == TWO63 as real
  }

  /** The conditions can be met: exact arithmetic meets them. */
  lemma ExactIsRounding()
    ensures Rounding((x: real) => x)
  {
  }

  /** float64(MinBackoff) */
  function Floor(fl: real -> real, t: Timing): real {
    fl(t.minBackoff as real)
  }

  /** MinBackoff * JitterRatio as the program would compute it, the most that jitter may add. */
  function MaxJitter(fl: real -> real, t: Timing): real {
    fl(Times(t.jitterRatio, Floor(fl, t)))
  }

  /** The jitter added when rand.Float64() is r: two rounded products, truncated. */
  function Jitter(fl: real -> real, t: Timing, r: real): int {
    fl(Times(t.jitterRatio, fl(Times(r, Floor(fl, t))))).Floor
  }

  lemma FloorBounds(x: real, n: int)
    requires 0.0 <= x <= n as real
    ensures 0 <= x.Floor <= n && x.Floor as real <= x
  {
  }

  lemma RoundsBelow(fl: real -> real, x: real, y: real)
    requires Rounding(fl) && 0.0 <= x <= y
    ensures 0.0 <= fl(x) <= fl(y) && fl(fl(y)) == fl(y)
  {
    assert fl(0.0) <= fl(x);
  }

  /** Jitter is never negative, and never above MinBackoff * JitterRatio as the program computes it. */
  lemma JitterBounds(fl: real -> real, t: Timing, r: real)
    requires Rounding(fl) && Valid(t) && 0.0 <= r < 1.0
    ensures 0 <= Jitter(fl, t, r) <= TWO63
    ensures Jitter(fl, t, r) as real <= MaxJitter(fl, t) <= Floor(fl, t)
    ensures t.minBackoff < TWO62 ==> Jitter(fl, t, r) <= TWO62
  {
    hide Times;
    ValidBounds(t);
    var m, q := Floor(fl, t), t.jitterRatio;
    RoundsBelow(fl, t.minBackoff as real, TWO63 as real);
    if t.minBackoff < TWO62 {
      RoundsBelow(fl, t.minBackoff as real, TWO62 as real);
    }
    TimesPart(r, m);
    RoundsBelow(fl, Times(r, m), m);
    var x := fl(Times(r, m));
    assert 0.0 <= x <= m by {
      assert fl(m) == m;
    }
    TimesPart(q, x);
    TimesMonotone(q, x, m);
    RoundsBelow(fl, Times(q, x), Times(q, m));
    TimesPart(q, m);
    RoundsBelow(fl, Times(q, m), m);
    assert fl(m) == m;
    var y := fl(Times(q, x));
    FloorBounds(y, if t.minBackoff < TWO62 then TWO62 else TWO63);
  }

  /** With exact arithmetic the jitter is r * MinBackoff * JitterRatio, rounded down. */
  lemma JitterExact(t: Timing, r: real)
    ensures Jitter(x => x, t, r) == (r * t.minBackoff as real * t.jitterRatio).Floor
  {
    assert t.jitterRatio * (r * t.minBackoff as real) == r * t.minBackoff as real * t.jitterRatio;
  }

  /** With any rounding the smallest random number adds nothing, and a larger one never adds less. */
  lemma JitterMonotone(fl: real -> real, t: Timing, r: real, q: real)
    requires Rounding(fl) && Valid(t) && 0.0 <= r <= q < 1.0
    ensures Jitter(fl, t, 0.0) == 0
    ensures Jitter(fl, t, r) <= Jitter(fl, t, q)
  {
    ValidBounds(t);
    var m, w := Floor(fl, t), t.jitterRatio;
    RoundsBelow(fl, t.minBackoff as real, TWO63 as real);
    assert Times(0.0, m) == 0.0 && Times(w, 0.0) == 0.0;
    assert Times(r, m) <= Times(q, m) by {
      ProductNonNegative(q - r, m);
      assert (q - r) * m == q * m - r * m;
    }
    hide Times;
    var x, y := fl(Times(r, m)), fl(Times(q, m));
    assert x <= y;
    TimesMonotone(w, x, y);
    assert fl(Times(w, x)) <= fl(Times(w, y));
  }

  /** What is left of the doubling loop, with n turns to go. */
  function Doubling(t: Timing, b: Duration, n: nat): Duration
    decreases n
  {
    if n == 0 then b
    else
      var d := Wrap(b * 2);
      if d >= t.maxBackoff then t.maxBackoff else Doubling(t, d, n - 1)
  }

  /** Authenticator.backoff, in int64 throughout. */
  function Delay(fl: real -> real, t: Timing, attempt: nat, r: real): int {
    DelayWith(t, attempt, Jitter(fl, t, r))
  }

  /** The delay without overflow: the reference plus jitter, capped. */
  function Jittered(fl: real -> real, t: Timing, attempt: nat, r: real): int {
    JitteredWith(t, attempt, Jitter(fl, t, r))
  }

  /** The same two, for a jitter of j nanoseconds. */
  function DelayWith(t: Timing, attempt: nat, j: int): int {
    Min(Wrap(Doubling(t, t.minBackoff, attempt) + j), t.maxBackoff)
  }

  function JitteredWith(t: Timing, attempt: nat, j: int): int {
    Min(Base(t, attempt) + j, t.maxBackoff)
  }

  /** MinBackoff doubled k times, before capping. */
  function Raw(t: Timing, k: nat): int {
    if k == 0 then t.minBackoff else 2 * Raw(t, k - 1)
  }

  lemma {:induction false} RawIsPower(t: Timing, k: nat)
    ensures Raw(t, k) == t.minBackoff * Pow2(k)
    ensures Base(t, k) == Min(Raw(t, k), t.maxBackoff)
  {
    if k > 0 {
      RawIsPower(t, k - 1);
    }
  }

  /** No value that the loop doubles has reached 2^62. */
  ghost predicate DoublingFits(t: Timing) {
    t.minBackoff < TWO62 && forall k: nat :: !(TWO62 <= Raw(t, k) < t.maxBackoff)
  }

  lemma RawNext(t: Timing, k: nat)
    ensures Raw(t, k + 1) == 2 * Raw(t, k)
    ensures t.minBackoff > 0 ==> Raw(t, k) > k && Raw(t, k) >= t.minBackoff
  {
    PowPositive(k);
    RawIsPower(t, k);
    if t.minBackoff > 0 {
      MulAtLeast(t.minBackoff, Pow2(k));
    }
  }

  /** Where the loop does not overflow it computes the reference. */
  lemma {:induction false} DoublingIsBase(t: Timing, i: nat, n: nat)
    requires 0 < t.minBackoff <= t.maxBackoff && DoublingFits(t)
    requires Raw(t, i) < t.maxBackoff || i == 0
    ensures Base(t, i) == Raw(t, i) < TWO63
    ensures Doubling(t, Base(t, i), n) == Base(t, i + n)
    decreases n
  {
    assert Raw(t, 0) == t.minBackoff;
    RawIsPower(t, i);
    RawIsPower(t, i + 1);
    hide Pow2, Base;
    if n > 0 {
      RawNext(t, i);
      assert 0 < Raw(t, i) < TWO62;
      WrapFits(2 * Raw(t, i));
      if Raw(t, i + 1) >= t.maxBackoff {
        BaseStays(t, i + 1, i + n);
      } else {
        DoublingIsBase(t, i + 1, n - 1);
      }
    }
  }

  /** As long as the value stays below the ceiling the loop doubles it. */
  lemma {:induction false} DoublingReaches(t: Timing, i: nat, n: nat, m: nat)
    requires 0 < t.minBackoff && (n == 0 ==> Raw(t, i) < TWO63) && (n > 0 ==> Raw(t, i + n) < t.maxBackoff)
    ensures 0 < Raw(t, i) <= Raw(t, i + n) < TWO63
    ensures Doubling(t, Raw(t, i), n + m) == Doubling(t, Raw(t, i + n), m)
    decreases n
  {
    RawNext(t, i);
    if n > 0 {
      DoublingReaches(t, i + 1, n - 1, m);
      WrapFits(2 * Raw(t, i));
      assert n > 1 ==> Raw(t, i + 1) <= Raw(t, i + n);
    }
  }

  /** A value of 2^62 or more that the loop doubles makes the next delay wrong. */
  lemma OverflowIsWrong(t: Timing, k: nat, j: nat)
    requires 0 < t.minBackoff <= t.maxBackoff && j <= TWO63
    requires TWO62 <= Raw(t, k) <= t.maxBackoff && (Raw(t, k) == t.maxBackoff ==> k == 0)
    ensures DelayWith(t, k + 1, j) != JitteredWith(t, k + 1, j)
  {
    DoublingOverflow(t, k);
    hide Raw, Base, Doubling, Wrap;
    WrapFits(2 * Raw(t, k) - TWO64 + j);
  }

  lemma DoublingOverflow(t: Timing, k: nat)
    requires 0 < t.minBackoff <= t.maxBackoff
    requires TWO62 <= Raw(t, k) <= t.maxBackoff && (Raw(t, k) == t.maxBackoff ==> k == 0)
    ensures Doubling(t, t.minBackoff, k + 1) == 2 * Raw(t, k) - TWO64 < 0
    ensures Base(t, k + 1) == t.maxBackoff
  {
    assert Raw(t, 0) == t.minBackoff;
    DoublingReaches(t, 0, k, 1);
    RawNext(t, k);
    RawIsPower(t, k + 1);
    assert Base(t, k + 1) == t.maxBackoff;
    hide Raw, Base;
    WrapDoubles(Raw(t, k));
    hide Wrap;
    assert Doubling(t, 2 * Raw(t, k) - TWO64, 0) == 2 * Raw(t, k) - TWO64;
  }

  lemma WrapDoubles(v: Duration)
    requires TWO62 <= v
    ensures Wrap(v * 2) == 2 * v - TWO64 < 0
  {
  }

  /** So does a final addition that does not fit, once the ceiling is reached. */
  lemma AdditionIsWrong(t: Timing, k: nat, j: nat)
    requires 0 < t.minBackoff <= t.maxBackoff && DoublingFits(t) && Raw(t, k) >= t.maxBackoff
    requires TWO63 - t.maxBackoff <= j <= TWO63
    ensures DelayWith(t, k, j) != JitteredWith(t, k, j)
  {
    DoublingSaturates(t, k);
    hide Raw, DoublingFits, Doubling, Base;
    WrapBeyond(t.maxBackoff + j);
    hide Wrap;
  }

  lemma DoublingSaturates(t: Timing, k: nat)
    requires 0 < t.minBackoff <= t.maxBackoff && DoublingFits(t) && Raw(t, k) >= t.maxBackoff
    ensures Doubling(t, t.minBackoff, k) == Base(t, k) == t.maxBackoff
  {
    assert Raw(t, 0) == t.minBackoff;
    RawIsPower(t, k);
    hide Pow2, Base;
    DoublingIsBase(t, 0, k);
  }

  lemma WrapBeyond(x: int)
    requires TWO63 <= x < TWO64
    ensures Wrap(x) == x - TWO64 < 0
  {
  }

  lemma FittingIsRight(t: Timing, k: nat, j: nat)
    requires 0 < t.minBackoff <= t.maxBackoff && DoublingFits(t) && t.maxBackoff + j < TWO63
    ensures DelayWith(t, k, j) == JitteredWith(t, k, j)
    ensures Base(t, k) <= DelayWith(t, k, j) <= t.maxBackoff && DelayWith(t, k, j) <= Base(t, k) + j
  {
    assert Raw(t, 0) == t.minBackoff;
    DoublingIsBase(t, 0, k);
    BaseNext(t, k);
    hide Raw, DoublingFits, Doubling, Base;
    WrapFits(Base(t, k) + j);
    hide Wrap;
  }

  /**
  Given a validated schedule, Authenticator.backoff(k) is min(base + jitter, MaxBackoff) for
  every k if and only if no doubled value reaches 2^62 and MaxBackoff plus the jitter fits int64.
  */
  lemma AuthenticatorIsBaseIff(fl: real -> real, t: Timing, r: real)
    requires Rounding(fl) && Valid(t) && 0.0 <= r < 1.0
    ensures (forall k: nat :: Delay(fl, t, k, r) == Jittered(fl, t, k, r)) <==>
      DoublingFits(t) && t.maxBackoff + Jitter(fl, t, r) < TWO63
  {
    ValidBounds(t);
    JitterBounds(fl, t, r);
    hide Rounding, Valid, DelayWith, JitteredWith, Jitter, MaxJitter, Floor;
    var j := Jitter(fl, t, r);
    if !DoublingFits(t) {
      assert Raw(t, 0) == t.minBackoff;
      var k: nat := if t.minBackoff >= TWO62 then 0 else var k: nat :| TWO62 <= Raw(t, k) < t.maxBackoff; k;
      OverflowIsWrong(t, k, j);
      assert Delay(fl, t, k + 1, r) != Jittered(fl, t, k + 1, r);
    } else if t.maxBackoff + j >= TWO63 {
      RawNext(t, t.maxBackoff);
      AdditionIsWrong(t, t.maxBackoff, j);
      assert Delay(fl, t, t.maxBackoff, r) != Jittered(fl, t, t.maxBackoff, r);
    } else {
      forall k: nat ensures Delay(fl, t, k, r) == Jittered(fl, t, k, r) {
        FittingIsRight(t, k, j);
      }
    }
  }

  /** Every ceiling below 2^62 meets the condition, whatever the random number. */
  lemma SmallCeilingFits(fl: real -> real, t: Timing, r: real)
    requires Rounding(fl) && Valid(t) && 0.0 <= r < 1.0 && t.maxBackoff < TWO62
    ensures DoublingFits(t) && t.maxBackoff + Jitter(fl, t, r) < TWO63
  {
    ValidBounds(t);
    JitterBounds(fl, t, r);
  }

  /** Authenticator.backoff, with the random number as a parameter. */
  method AuthenticatorBackoff(fl: real -> real, t: Timing, attempt: nat, r: real) returns (d: int)
    requires 0.0 <= r < 1.0
    ensures d == Delay(fl, t, attempt, r)
    ensures Rounding(fl) && Valid(t) && DoublingFits(t) && t.maxBackoff + Jitter(fl, t, r) < TWO63 ==>
      && d == Min(Base(t, attempt) + Jitter(fl, t, r), t.maxBackoff)
      && Base(t, attempt) <= d <= t.maxBackoff
      && d as real <= Base(t, attempt) as real + MaxJitter(fl, t)
  {
    if Rounding(fl) && Valid(t) && DoublingFits(t) && t.maxBackoff + Jitter(fl, t, r) < TWO63 {
      ValidBounds(t);
      JitterBounds(fl, t, r);
      hide Jitter, MaxJitter, Rounding, Valid;
      FittingIsRight(t, attempt, Jitter(fl, t, r));
    }
    hide Rounding, Valid, DoublingFits, MaxJitter, Base, Wrap, Jitter;
    var backoff: Duration := t.minBackoff;
    var i := 0;
    while i < attempt
      invariant 0 <= i <= attempt
      invariant Doubling(t, backoff, attempt - i) == Doubling(t, t.minBackoff, attempt)
    {
      backoff := Wrap(backoff * 2);
      if backoff >= t.maxBackoff {
        backoff := t.maxBackoff;
        break;
      }
      i := i + 1;
    }
    assert backoff == Doubling(t, t.minBackoff, attempt);
    backoff := Wrap(backoff + Jitter(fl, t, r));
    if backoff > t.maxBackoff {
      backoff := t.maxBackoff;
    }
    return backoff;
  }

  // ----- The connector's form -----

  /** backoff = min(backoff*2, MaxBackoff), in int64. */
  function NextBackoff(t: Timing, b: Duration): Duration {
    Min(Wrap(b * 2), t.maxBackoff)
  }

  /** The connector's wait after k consecutive failures. */
  function ConnectorBackoff(t: Timing, k: nat): Duration {
    if k == 0 then t.minBackoff else NextBackoff(t, ConnectorBackoff(t, k - 1))
  }

  lemma NextIsBaseNext(t: Timing, k: nat)
    requires Valid(t) && t.maxBackoff < TWO62
    ensures 0 < Base(t, k) < TWO62
    ensures NextBackoff(t, Base(t, k)) == Base(t, k + 1)
  {
    ValidBounds(t);
    BaseNext(t, k);
  }

  lemma {:induction false} ConnectorIsBase(t: Timing, k: nat)
    requires Valid(t) && t.maxBackoff < TWO62
    ensures ConnectorBackoff(t, k) == Base(t, k)
  {
    if k == 0 {
      ValidBounds(t);
    } else {
      ConnectorIsBase(t, k - 1);
      NextIsBaseNext(t, k - 1);
    }
  }

  /** The doubling overflows as soon as the delay has reached 2^62. */
  lemma DoublingOverflows(t: Timing, b: Duration)
    requires TWO62 <= b
    ensures NextBackoff(t, b) < 0
  {
  }

  /**
  Given a validated schedule, the connector's k-th wait is min(MinBackoff * 2^k, MaxBackoff)
  for every k if and only if MaxBackoff is below 2^62 nanoseconds.
  */
  lemma ConnectorIsBaseIff(t: Timing)
    requires Valid(t)
    ensures (forall k: nat :: ConnectorBackoff(t, k) == Base(t, k)) <==> t.maxBackoff < TWO62
  {
    if t.maxBackoff < TWO62 {
      forall k: nat ensures ConnectorBackoff(t, k) == Base(t, k) {
        ConnectorIsBase(t, k);
      }
    } else {
      ValidBounds(t);
      var k := TWO62;
      PowPositive(k);
      MulAtLeast(t.minBackoff, Pow2(k));
      assert Base(t, k) >= TWO62;
      if ConnectorBackoff(t, k) == Base(t, k) {
        DoublingOverflows(t, ConnectorBackoff(t, k));
        assert ConnectorBackoff(t, k + 1) < 0;
        BaseNext(t, k + 1);
      }
    }
  }
}
