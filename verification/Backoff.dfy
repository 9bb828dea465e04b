/** The retry schedule (preconfs-client/src/reconnect.rs). */
module Backoff {
  import opened Wrappers
  import opened Floats

  const NANOS_PER_SEC: int := 1000000000
  /** One past the largest Duration, in nanoseconds: 2^64 seconds. */
  const DURATION_LIMIT: int := 0x1_0000_0000_0000_0000 * 1000000000

  /** A std Duration, as its whole nanoseconds. */
  type Duration = n: int | 0 <= n < 0x1_0000_0000_0000_0000 * 1000000000

  datatype Reconnect = Reconnect(
    initialInterval: Duration,
    multiplier: Float,
    maxInterval: Duration,
    maxRetries: Option<u32>)

  function Min(x: int, y: int): int { if x <= y then x else y }

  function AsSecs(d: Duration): real {
    d as real / NANOS_PER_SEC as real
  }

  /** The nearest integer, a tie going to the even neighbour. */
  function Nearest(x: real): int {
    var f := x.Floor;
    var d := x - f as real;
    if d < 0.5 || (d == 0.5 && f % 2 == 0) then f else f + 1
  }

  /** `Duration::try_from_secs_f64`: the nearest nanosecond, or nothing for a
      negative value, NaN, or 2^64 seconds and more. */
  function TryFromSecs(secs: Float): Option<Duration> {
    if secs.Finite? && secs.value >= 0.0 then
      var nanos := Nearest(secs.value * NANOS_PER_SEC as real);
      if 0 <= nanos < DURATION_LIMIT then Some(nanos) else None
    else
      None
  }

  /** Attempts count from 1; 0 saturates, and what no i32 holds is clamped. */
  function Exponent(attempt: nat): (e: nat) {
    var less := if attempt == 0 then 0 else attempt - 1;
    if less <= I32_MAX then less else I32_MAX
  }

  function Factor(multiplier: Float, exponent: nat): Float {
    MaxOne(PowI(multiplier, exponent))
  }

  /** The initial interval grown by `factor`, or the cap when that does not
      convert or is longer. */
  function Delay(initial: Duration, factor: Float, cap: Duration): Duration {
    match TryFromSecs(Scale(AsSecs(initial), factor))
    case None => cap
    case Some(delay) => Min(delay, cap)
  }

  /** The delay before attempt number `attempt`. */
  function Interval(r: Reconnect, attempt: nat): Duration {
    Delay(r.initialInterval, Factor(r.multiplier, Exponent(attempt)), r.maxInterval)
  }

  predicate Exhausted(r: Reconnect, attempts: nat) {
    r.maxRetries.Some? && attempts > r.maxRetries.value
  }

  // ----- rounding -----

  lemma {:induction false} NearestMonotone(x: real, y: real)
    requires x <= y
    ensures Nearest(x) <= Nearest(y)
  {}

  /** Within half a nanosecond, and even where two are as near. */
  lemma {:induction false} NearestIff(x: real, n: int)
    ensures n == Nearest(x) <==>
              var off := n as real - x;
              -0.5 < off < 0.5 || ((off == -0.5 || off == 0.5) && n % 2 == 0)
  {}

  lemma {:induction false} NearestInteger(n: int)
    ensures Nearest(n as real) == n
  {}

  /** Scaling in seconds is scaling in nanoseconds. */
  lemma {:induction false} SecsToNanos(d: Duration, f: real)
    ensures AsSecs(d) * f * NANOS_PER_SEC as real == d as real * f
  {}

  // ----- the ideal formula -----

  /** min(initial * max(m^e, 1), cap) over the unbounded reals, to the nearest
      nanosecond: what the documentation says the delay is. */
  function Ideal(initial: Duration, m: real, cap: Duration, exponent: nat): int {
    Capped(initial, AtLeastOne(Pow(m, exponent)), cap)
  }

  /** The initial interval grown by `growth`, in unbounded nanoseconds. */
  function Grown(initial: Duration, growth: real): real {
    initial as real * growth
  }

  function Capped(initial: Duration, growth: real, cap: Duration): int {
    Min(Nearest(Grown(initial, growth)), cap)
  }

  function AtLeastOne(x: real): (y: real) { if x > 1.0 then x else 1.0 }

  /** The growth overflows the finite floats. */
  predicate Overflows(m: real, exponent: nat) {
    exponent != 0 && Pow(m, exponent) > F64_MAX
  }

  /** Converting and capping is a plain minimum: the conversion fails only for
      products above every cap. */
  lemma {:induction false} DelayIsMin(initial: Duration, f: real, cap: Duration)
    requires 1.0 <= f <= F64_MAX
    ensures Delay(initial, Finite(f), cap) == Capped(initial, f, cap)
  {
    SecsToNanos(initial, f);
    var secs := AsSecs(initial) * f;
    assert 0.0 <= secs by { ProductNonNegative(AsSecs(initial), f); }
    assert Scale(AsSecs(initial), Finite(f)) == FromReal(secs);
    ConvertIsMin(secs, Grown(initial, f), cap);
  }

  lemma {:induction false} ProductNonNegative(x: real, y: real)
    requires x >= 0.0 && y >= 0.0
    ensures x * y >= 0.0
  {}

  lemma {:induction false} ConvertIsMin(secs: real, nanos: real, cap: Duration)
    requires secs >= 0.0 && nanos == secs * NANOS_PER_SEC as real
    ensures (match TryFromSecs(FromReal(secs))
             case None => cap
             case Some(delay) => Min(delay, cap)) == Min(Nearest(nanos), cap)
  {
    NearestInteger(0);
    NearestMonotone(0.0, nanos);
    if secs > F64_MAX {
      MaxIsLarge();
      NearestInteger(DURATION_LIMIT);
      NearestMonotone(DURATION_LIMIT as real, nanos);
    }
  }

  lemma {:induction false} GrownMonotone(initial: Duration, f: real, g: real)
    requires f <= g
    ensures Grown(initial, f) <= Grown(initial, g)
  {
    var x: real := initial as real;
    assert x * f <= x * g;
  }

  lemma {:induction false} CappedMonotone(initial: Duration, f: real, g: real, cap: Duration)
    requires f <= g
    ensures Capped(initial, f, cap) <= Capped(initial, g, cap) <= cap
  {
    GrownMonotone(initial, f, g);
    NearestMonotone(Grown(initial, f), Grown(initial, g));
  }

  /** Growth by 1 is the initial interval itself. */
  lemma {:induction false} CappedByOne(initial: Duration, cap: Duration)
    ensures Capped(initial, 1.0, cap) == Min(initial, cap)
  {}

  lemma {:induction false} CappedZero(growth: real, cap: Duration)
    ensures Capped(0, growth, cap) == 0
  {}

  lemma {:induction false} CappedAtCap(initial: Duration, growth: real, cap: Duration)
    requires Grown(initial, growth) >= cap as real
    ensures Capped(initial, growth, cap) == cap
  {}

  /** Growth past the finite floats is past every cap for a non-zero interval. */
  lemma {:induction false} OverflowIsCapped(initial: Duration, growth: real, cap: Duration)
    requires growth > F64_MAX && initial > 0
    ensures Capped(initial, growth, cap) == cap
  {
    MaxIsLarge();
    assert Grown(initial, growth) >= growth by {
      var x: real := initial as real;
      assert x >= 1.0;
      assert (x - 1.0) * growth >= 0.0;
    }
    CappedAtCap(initial, growth, cap);
  }

  lemma {:induction false} DelayOfInf(initial: Duration, cap: Duration)
    ensures Delay(initial, Inf, cap) == cap
  {}

  /** The code computes the ideal delay for every finite multiplier and every
      attempt, the exponent being the attempts before this one as far as an i32
      goes, except for one family: a zero initial interval whose growth
      overflows comes out as the cap. */
  lemma {:induction false} IntervalIsIdeal(r: Reconnect, attempt: nat)
    requires r.multiplier.Finite?
    ensures var e := Min(if attempt == 0 then 0 else attempt - 1, I32_MAX);
            Interval(r, attempt) == Ideal(r.initialInterval, r.multiplier.value, r.maxInterval, e)
            <==> r.initialInterval > 0 || r.maxInterval == 0 || !Overflows(r.multiplier.value, e)
  {
    var e, m := Exponent(attempt), r.multiplier.value;
    FactorOfPower(m, e);
    var growth := AtLeastOne(Pow(m, e));
    if Overflows(m, e) {
      DelayOfInf(r.initialInterval, r.maxInterval);
      if r.initialInterval > 0 {
        OverflowIsCapped(r.initialInterval, growth, r.maxInterval);
      } else {
        CappedZero(growth, r.maxInterval);
      }
    } else {
      DelayIsMin(r.initialInterval, growth, r.maxInterval);
    }
  }

  /** The factor is the power floored at 1, or infinite past the finite floats. */
  lemma {:induction false} FactorOfPower(m: real, e: nat)
    ensures Factor(Finite(m), e) == (if Overflows(m, e) then Inf else Finite(AtLeastOne(Pow(m, e))))
    ensures !Overflows(m, e) ==> AtLeastOne(Pow(m, e)) <= F64_MAX
    ensures Overflows(m, e) ==> AtLeastOne(Pow(m, e)) > F64_MAX
  {
    MaxIsLarge();
  }

  // ----- bounds and growth, for every float multiplier -----

  /** The factor is at least 1 and never NaN. */
  lemma {:induction false} FactorAtLeastOne(multiplier: Float, exponent: nat)
    ensures AtMost(Finite(1.0), Factor(multiplier, exponent))
  {}

  /** A larger factor never shortens the delay. */
  lemma {:induction false} DelayMonotone(initial: Duration, f: Float, g: Float, cap: Duration)
    requires AtMost(Finite(1.0), f) && AtMost(f, g)
    requires f.Finite? ==> f.value <= F64_MAX
    requires g.Finite? ==> g.value <= F64_MAX
    ensures Delay(initial, f, cap) <= Delay(initial, g, cap) <= cap
  {
    DelayOfInf(initial, cap);
    if f.Finite? && g.Finite? {
      DelayIsMin(initial, f.value, cap);
      DelayIsMin(initial, g.value, cap);
      CappedMonotone(initial, f.value, g.value, cap);
    }
  }

  lemma {:induction false} FactorRepresentable(multiplier: Float, exponent: nat)
    ensures var f := Factor(multiplier, exponent); f.Finite? ==> f.value <= F64_MAX
  {
    MaxIsLarge();
  }

  /** The first delay is the shorter of the two intervals, and every delay lies
      between that and the cap, NaN and infinite multipliers included. */
  lemma {:induction false} IntervalBounds(r: Reconnect, attempt: nat)
    ensures Min(r.initialInterval, r.maxInterval) <= Interval(r, attempt) <= r.maxInterval
    ensures attempt <= 1 ==> Interval(r, attempt) == Min(r.initialInterval, r.maxInterval)
  {
    MaxIsLarge();
    FactorAtLeastOne(r.multiplier, Exponent(attempt));
    FactorRepresentable(r.multiplier, Exponent(attempt));
    DelayMonotone(r.initialInterval, Finite(1.0), Factor(r.multiplier, Exponent(attempt)), r.maxInterval);
    DelayIsMin(r.initialInterval, 1.0, r.maxInterval);
    CappedByOne(r.initialInterval, r.maxInterval);
  }

  predicate BelowMinusOne(multiplier: Float) {
    multiplier == NegInf || (multiplier.Finite? && multiplier.value < -1.0)
  }

  /** The growth factor never shrinks from one attempt to the next exactly when
      the multiplier is not below -1; below it, odd powers fall back to 1. */
  lemma {:induction false} FactorGrowsIff(multiplier: Float)
    ensures (forall e: nat, e': nat :: e <= e' ==> AtMost(Factor(multiplier, e), Factor(multiplier, e')))
            <==> !BelowMinusOne(multiplier)
  {
    if BelowMinusOne(multiplier) {
      MaxIsLarge();
      if multiplier.Finite? {
        var v := multiplier.value;
        assert Pow(v, 1) == v;
        assert Pow(v, 2) == v * v;
        assert v * v > 1.0;
        assert Pow(v, 3) == v * (v * v);
        assert v * (v * v) < 0.0;
      }
      assert !AtMost(Factor(multiplier, 2), Factor(multiplier, 3));
    } else {
      forall e: nat, e': nat | e <= e'
        ensures AtMost(Factor(multiplier, e), Factor(multiplier, e'))
      {
        FactorGrows(multiplier, e, e');
      }
    }
  }

  lemma {:induction false} FactorGrows(multiplier: Float, e: nat, e': nat)
    requires !BelowMinusOne(multiplier) && e <= e'
    ensures AtMost(Factor(multiplier, e), Factor(multiplier, e'))
  {
    if multiplier.Finite? {
      MaxIsLarge();
      if multiplier.value >= 1.0 {
        PowGrows(multiplier.value, e, e');
      } else {
        PowStaysSmall(multiplier.value, e);
        PowStaysSmall(multiplier.value, e');
      }
    }
  }

  /** The delay never shrinks from one attempt to a later one. */
  lemma {:induction false} IntervalMonotone(r: Reconnect, attempt: nat, later: nat)
    requires !BelowMinusOne(r.multiplier) && attempt <= later
    ensures Interval(r, attempt) <= Interval(r, later)
  {
    var e, e' := Exponent(attempt), Exponent(later);
    FactorGrows(r.multiplier, e, e');
    FactorAtLeastOne(r.multiplier, e);
    FactorRepresentable(r.multiplier, e);
    FactorRepresentable(r.multiplier, e');
    DelayMonotone(r.initialInterval, Factor(r.multiplier, e), Factor(r.multiplier, e'), r.maxInterval);
  }

  /** The exponent of the largest growth: the largest an i32 holds, or the
      largest even one where odd powers are negative. */
  function Peak(multiplier: Float): nat {
    if BelowMinusOne(multiplier) then I32_MAX - 1 else I32_MAX
  }

  lemma {:induction false} FactorPeaks(multiplier: Float, e: nat)
    requires e <= I32_MAX
    ensures AtMost(Factor(multiplier, e), Factor(multiplier, Peak(multiplier)))
  {
    if !BelowMinusOne(multiplier) {
      FactorGrows(multiplier, e, I32_MAX);
    } else if multiplier.Finite? {
      MaxIsLarge();
      PowersBelowMinusOne(multiplier.value, e / 2, (I32_MAX - 1) / 2);
      assert e == 2 * (e / 2) || e == 2 * (e / 2) + 1;
    }
  }

  /** No attempt waits longer than the one that reaches the peak. */
  lemma {:induction false} IntervalPeaks(r: Reconnect, attempt: nat)
    ensures Interval(r, attempt) <= Interval(r, Peak(r.multiplier) + 1)
  {
    var e, e' := Exponent(attempt), Peak(r.multiplier);
    FactorPeaks(r.multiplier, e);
    FactorAtLeastOne(r.multiplier, e);
    FactorRepresentable(r.multiplier, e);
    FactorRepresentable(r.multiplier, e');
    DelayMonotone(r.initialInterval, Factor(r.multiplier, e), Factor(r.multiplier, e'), r.maxInterval);
  }

  /** The longest delay, on the fields. */
  function PeakDelay(r: Reconnect): int {
    var e := Peak(r.multiplier);
    match r.multiplier
    case NaN => Min(r.initialInterval, r.maxInterval)
    case Finite(m) =>
      if Overflows(m, e) then r.maxInterval
      else Capped(r.initialInterval, AtLeastOne(Pow(m, e)), r.maxInterval)
    case _ => r.maxInterval
  }

  lemma {:induction false} PeakIsReached(r: Reconnect)
    ensures Interval(r, Peak(r.multiplier) + 1) == PeakDelay(r)
  {
    var e := Peak(r.multiplier);
    DelayOfInf(r.initialInterval, r.maxInterval);
    match r.multiplier
    case NaN =>
      MaxIsLarge();
      DelayIsMin(r.initialInterval, 1.0, r.maxInterval);
      CappedByOne(r.initialInterval, r.maxInterval);
    case Finite(m) =>
      FactorOfPower(m, e);
      if !Overflows(m, e) {
        DelayIsMin(r.initialInterval, AtLeastOne(Pow(m, e)), r.maxInterval);
      }
    case Inf =>
    case NegInf =>
  }

  /** For every schedule: some attempt waits for the full cap exactly when the
      growth at the peak exponent reaches or overflows it. */
  lemma {:induction false} CapReachedIff(r: Reconnect)
    ensures (exists attempt: nat :: Interval(r, attempt) == r.maxInterval) <==> PeakDelay(r) == r.maxInterval
  {
    hide Interval, PeakDelay;
    PeakIsReached(r);
    forall attempt: nat
      ensures Interval(r, attempt) <= PeakDelay(r) <= r.maxInterval
    {
      IntervalPeaks(r, attempt);
      IntervalBounds(r, Peak(r.multiplier) + 1);
    }
  }

  /** The cap, or the rounding, swallows all growth. */
  predicate NeverGrows(r: Reconnect) {
    || r.maxInterval <= r.initialInterval
    || (r.multiplier.Finite? && !Overflows(r.multiplier.value, I32_MAX - 1)
        && Nearest(Grown(r.initialInterval, Pow(r.multiplier.value, I32_MAX - 1))) == r.initialInterval)
  }

  /** Later attempts never wait less exactly when the multiplier is not below -1
      or the delay never grows at all. */
  lemma {:induction false} IntervalMonotoneIff(r: Reconnect)
    ensures (forall a: nat, b: nat :: a <= b ==> Interval(r, a) <= Interval(r, b))
            <==> !BelowMinusOne(r.multiplier) || NeverGrows(r)
  {
    hide Interval, NeverGrows;
    if BelowMinusOne(r.multiplier) {
      NeverGrowsIff(r);
      FallsBack(r);
      forall a: nat
        ensures Min(r.initialInterval, r.maxInterval) <= Interval(r, a) <= Interval(r, I32_MAX)
      {
        IntervalBounds(r, a);
        IntervalPeaks(r, a);
      }
      assert I32_MAX <= I32_MAX + 1;
    } else {
      forall a: nat, b: nat | a <= b
        ensures Interval(r, a) <= Interval(r, b)
      {
        IntervalMonotone(r, a, b);
      }
    }
  }

  /** Right after its peak a multiplier below -1 gives the shortest delay. */
  lemma {:induction false} FallsBack(r: Reconnect)
    requires BelowMinusOne(r.multiplier)
    ensures Interval(r, I32_MAX + 1) == Min(r.initialInterval, r.maxInterval)
  {
    MaxIsLarge();
    if r.multiplier.Finite? {
      var k := (I32_MAX - 1) / 2;
      PowersBelowMinusOne(r.multiplier.value, k, k);
      assert 2 * k + 1 == I32_MAX;
    }
    assert Factor(r.multiplier, I32_MAX) == Finite(1.0);
    DelayIsMin(r.initialInterval, 1.0, r.maxInterval);
    CappedByOne(r.initialInterval, r.maxInterval);
  }

  lemma {:induction false} NeverGrowsIff(r: Reconnect)
    requires BelowMinusOne(r.multiplier)
    ensures NeverGrows(r) <==> Interval(r, I32_MAX) == Min(r.initialInterval, r.maxInterval)
  {
    PeakIsReached(r);
    if r.multiplier.Finite? {
      var m, k := r.multiplier.value, (I32_MAX - 1) / 2;
      PowersBelowMinusOne(m, k, k);
      assert 2 * k == I32_MAX - 1;
      CappedMonotone(r.initialInterval, 1.0, AtLeastOne(Pow(m, I32_MAX - 1)), r.initialInterval);
      CappedByOne(r.initialInterval, r.initialInterval);
    }
  }

  /** With a multiplier of -2 the default schedule falls from 400 to 100
      milliseconds between its third and fourth attempt. */
  lemma {:induction false} FallingDelay()
    ensures var r := Reconnect(100000000, Finite(-2.0), 10 * NANOS_PER_SEC, None);
            Interval(r, 3) == 400000000 && Interval(r, 4) == 100000000
  {
    var r := Reconnect(100000000, Finite(-2.0), 10 * NANOS_PER_SEC, None);
    MaxIsLarge();
    assert Pow(-2.0, 1) == -2.0 && Pow(-2.0, 2) == 4.0 && Pow(-2.0, 3) == -8.0;
    IntervalIsIdeal(r, 3);
    IntervalIsIdeal(r, 4);
    assert Grown(r.initialInterval, 4.0) == 400000000 as real;
    NearestInteger(400000000);
    CappedByOne(r.initialInterval, r.maxInterval);
  }

  /** The documented defaults. */
  const DEFAULT: Reconnect := Reconnect(100000000, Finite(2.0), 10 * NANOS_PER_SEC, None)

  lemma {:induction false} DefaultDelay(exponent: nat, doubled: int)
    requires exponent <= 7 && Pow(2.0, exponent) == doubled as real
    ensures Interval(DEFAULT, exponent + 1) == Min(100000000 * doubled, 10000000000)
  {
    hide Interval, Pow;
    MaxIsLarge();
    PowGrows(2.0, 0, exponent);
    PowGrows(2.0, exponent, 7);
    EightDoublings();
    IntervalIsIdeal(DEFAULT, exponent + 1);
    NearestInteger(100000000 * doubled);
    assert Grown(DEFAULT.initialInterval, doubled as real) == (100000000 * doubled) as real;
    CappedByOne(DEFAULT.initialInterval, DEFAULT.maxInterval);
  }

  lemma {:induction false} EightDoublings()
    ensures Pow(2.0, 0) == 1.0 && Pow(2.0, 1) == 2.0 && Pow(2.0, 2) == 4.0 && Pow(2.0, 3) == 8.0
    ensures Pow(2.0, 4) == 16.0 && Pow(2.0, 5) == 32.0 && Pow(2.0, 6) == 64.0 && Pow(2.0, 7) == 128.0
  {}

  /** By default the delay doubles from 100 milliseconds on over seven attempts,
      and every later one waits ten seconds. */
  lemma {:induction false} DefaultSchedule(attempt: nat)
    requires attempt >= 1
    ensures Interval(DEFAULT, attempt) ==
              if attempt <= 7 then 100000000 * [1, 2, 4, 8, 16, 32, 64][attempt - 1] else 10000000000
  {
    hide Interval, Pow;
    EightDoublings();
    if attempt <= 7 {
      DefaultDelay(attempt - 1, [1, 2, 4, 8, 16, 32, 64][attempt - 1]);
    } else {
      DefaultDelay(7, 128);
      IntervalMonotone(DEFAULT, 8, attempt);
      IntervalBounds(DEFAULT, attempt);
    }
  }

  /** A zero initial interval, which the formula keeps at zero, becomes the full
      cap of ten seconds at attempt 1025 when the multiplier is 2. */
  lemma {:induction false} ZeroIntervalJumps()
    ensures var r := Reconnect(0, Finite(2.0), 10 * NANOS_PER_SEC, None);
            && Interval(r, 1025) == 10 * NANOS_PER_SEC
            && Ideal(0, 2.0, 10 * NANOS_PER_SEC, 1024) == 0
  {
    OverflowAt1024();
    FactorOfPower(2.0, 1024);
    DelayOfInf(0, 10 * NANOS_PER_SEC);
    CappedZero(AtLeastOne(Pow(2.0, 1024)), 10 * NANOS_PER_SEC);
  }

  /** From the attempt Bernoulli's inequality names on, every delay is the cap. */
  lemma {:induction false} CapReachedAndKept(r: Reconnect, attempt: nat, later: nat)
    requires r.multiplier.Finite? && r.multiplier.value >= 1.0 && r.initialInterval > 0
    requires 1 <= attempt <= later && attempt - 1 <= I32_MAX
    requires Grown(r.initialInterval, 1.0 + (attempt - 1) as real * (r.multiplier.value - 1.0))
             >= r.maxInterval as real
    ensures Interval(r, later) == r.maxInterval
  {
    var e, m := attempt - 1, r.multiplier.value;
    var linear := 1.0 + e as real * (m - 1.0);
    Bernoulli(m, e);
    PowGrows(m, 0, e);
    GrownMonotone(r.initialInterval, linear, Pow(m, e));
    CappedAtCap(r.initialInterval, Pow(m, e), r.maxInterval);
    assert AtLeastOne(Pow(m, e)) == Pow(m, e);
    IntervalIsIdeal(r, attempt);
    IntervalMonotone(r, attempt, later);
    IntervalBounds(r, later);
  }

  // ----- totals -----

  /** The delays of the attempts first, first + 1, ..., first + count - 1. */
  function Schedule(r: Reconnect, first: nat, count: nat): (s: seq<Duration>)
    ensures |s| == count
  {
    if count == 0 then [] else Schedule(r, first, count - 1) + [Interval(r, first + count - 1)]
  }

  function Total(delays: seq<Duration>): nat {
    if delays == [] then 0 else Total(delays[..|delays| - 1]) + delays[|delays| - 1]
  }

  lemma {:induction false} TotalSnoc(delays: seq<Duration>, delay: Duration)
    ensures Total(delays + [delay]) == Total(delays) + delay
  {}

  lemma {:induction false} ScheduleTotal(r: Reconnect, first: nat, count: nat)
    ensures Total(Schedule(r, first, count)) <= count * r.maxInterval
  {
    if count == 0 {
    } else {
      var last := first + count - 1;
      ScheduleTotal(r, first, count - 1);
      IntervalBounds(r, last);
      TotalSnoc(Schedule(r, first, count - 1), Interval(r, last));
      assert count * r.maxInterval == (count - 1) * r.maxInterval + r.maxInterval;
    }
  }

  /** A longer schedule sleeps at least as long. */
  lemma {:induction false} ScheduleGrows(r: Reconnect, first: nat, few: nat, many: nat)
    requires few <= many
    ensures Total(Schedule(r, first, few)) <= Total(Schedule(r, first, many))
    decreases many
  {
    hide Interval;
    if few < many {
      ScheduleGrows(r, first, few, many - 1);
      var shorter, delay := Schedule(r, first, many - 1), Interval(r, first + many - 1);
      assert Schedule(r, first, many) == shorter + [delay];
      TotalSnoc(shorter, delay);
    }
  }
}
