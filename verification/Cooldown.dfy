/** Per-model failure cooldowns with exponential backoff. Durations and times are whole nanoseconds. */
module Cooldown {
  datatype Entry = Entry(until: int, failures: nat)

  datatype Settings = Settings(base: int, max: int, multiplier: real)

  /** Nonpositive settings get the defaults: one minute, one hour, factor five. */
  function WithDefaults(s: Settings): (r: Settings)
    ensures Proper(r)
  {
    Settings(if s.base <= 0 then 60_000_000_000 else s.base,
             if s.max <= 0 then 3_600_000_000_000 else s.max,
             if s.multiplier <= 0.0 then 5.0 else s.multiplier)
  }

  predicate Proper(s: Settings) {
    s.base > 0 && s.max > 0 && s.multiplier > 0.0
  }

  function Times(x: real, y: real): real {
    x * y
  }

  function Scaled(s: Settings, delay: int): int {
    Times(delay as real, s.multiplier).Floor
  }

  /** n more multiplications of the delay, stopping at the cap. */
  function Grown(s: Settings, delay: int, n: nat): int
    decreases n
  {
    if n == 0 then delay
    else if Scaled(s, delay) > s.max then s.max
    else Grown(s, Scaled(s, delay), n - 1)
  }

  /** The cooldown set by the k-th failure in a row. */
  function Delay(s: Settings, k: nat): int
    requires k > 0
  {
    Grown(s, s.base, k - 1)
  }

  function AfterFailure(s: Settings, state: map<string, Entry>, model: string, now: int): map<string, Entry> {
    var n := if model in state then state[model].failures + 1 else 1;
    state[model := Entry(now + Delay(s, n), n)]
  }

  predicate Available(state: map<string, Entry>, model: string, now: int) {
    model !in state || now > state[model].until
  }

  /** Configured values are kept. Without any the cooldowns are a minute, five, twenty-five, and then an hour. */
  lemma DefaultsMean(s: Settings, k: nat)
    ensures s.base > 0 ==> WithDefaults(s).base == s.base
    ensures s.max > 0 ==> WithDefaults(s).max == s.max
    ensures s.multiplier > 0.0 ==> WithDefaults(s).multiplier == s.multiplier
    ensures s.base <= 0 && s.max <= 0 && s.multiplier <= 0.0 && k > 0 ==>
              Delay(WithDefaults(s), k)
              == 60_000_000_000 * if k == 1 then 1 else if k == 2 then 5 else if k == 3 then 25 else 60
  {
    if s.base <= 0 && s.max <= 0 && s.multiplier <= 0.0 && k > 0 {
      DefaultStep(WithDefaults(s), 60_000_000_000, k - 1);
      DefaultStep(WithDefaults(s), 300_000_000_000, k - 2);
      DefaultStep(WithDefaults(s), 1_500_000_000_000, k - 3);
    }
  }

  lemma DefaultStep(s: Settings, delay: int, n: int)
    requires s.multiplier == 5.0
    ensures n > 0 ==> Grown(s, delay, n) == if 5 * delay > s.max then s.max else Grown(s, 5 * delay, n - 1)
  {
    assert Times(delay as real, 5.0) == (5 * delay) as real;
  }

  class Tracker {
    var state: map<string, Entry>
    const settings: Settings

    constructor (cfg: Settings)
      ensures state == map[] && settings == WithDefaults(cfg)
    {
      state := map[];
      settings := WithDefaults(cfg);
    }

    method RecordFailure(model: string, now: int)
      modifies this
      ensures state == AfterFailure(settings, old(state), model, now)
    {
      var e := if model in state then state[model] else Entry(0, 0);
      var failures := e.failures + 1;
      var delay, i := settings.base, 1;
      while i < failures
        invariant 1 <= i <= failures
        invariant Grown(settings, delay, failures - i) == Delay(settings, failures)
      {
        ghost var was := delay;
        delay := (delay as real * settings.multiplier).Floor;
        assert delay == Scaled(settings, was);
        if delay > settings.max {
          delay := settings.max;
          break;
        }
        i := i + 1;
      }
      assert delay == Delay(settings, failures);
      state := state[model := Entry(now + delay, failures)];
    }

    method RecordSuccess(model: string)
      modifies this
      ensures state == old(state) - {model}
    {
      state := state - {model};
    }

    method IsAvailable(model: string, now: int) returns (ok: bool)
      ensures ok <==> Available(state, model, now)
    {
      if model !in state {
        return true;
      }
      return now > state[model].until;
    }
  }

  // ---------------------------------------------------------------- the backoff law

  lemma ScaledGrows(s: Settings, delay: int)
    requires s.multiplier >= 1.0 && delay >= 0
    ensures Scaled(s, delay) >= delay
  {
    assert Times(delay as real, s.multiplier) >= delay as real * 1.0 by {
      MulMonotone(delay as real, 1.0, s.multiplier);
    }
  }

  lemma MulMonotone(x: real, y: real, z: real)
    requires x >= 0.0 && y <= z
    ensures Times(x, y) <= Times(x, z) && Times(y, x) <= Times(z, x)
  {
  }

  /** Once at or below the cap the delay stays there, and it never shrinks. */
  lemma {:induction false} GrownBounds(s: Settings, delay: int, n: nat)
    requires s.multiplier >= 1.0 && 0 <= delay
    ensures delay <= s.max ==> delay <= Grown(s, delay, n) <= s.max
    ensures n > 0 ==> Grown(s, delay, n) <= s.max
    ensures n > 0 ==> Grown(s, delay, n) >= if delay <= s.max then delay else s.max
    decreases n
  {
    if n > 0 {
      ScaledGrows(s, delay);
      if Scaled(s, delay) <= s.max {
        GrownBounds(s, Scaled(s, delay), n - 1);
      }
    }
  }

  /** Every cooldown respects the cap exactly when the base delay does: the first one is never capped. */
  lemma CapHoldsIff(s: Settings)
    requires Proper(s) && s.multiplier >= 1.0
    ensures (forall k: nat :: k > 0 ==> Delay(s, k) <= s.max) <==> s.base <= s.max
  {
    assert Delay(s, 1) == s.base;
    forall k: nat | k > 0 && s.base <= s.max
      ensures Delay(s, k) <= s.max
    {
      GrownBounds(s, s.base, k - 1);
    }
  }

  lemma {:induction false} GrownStep(s: Settings, delay: int, n: nat)
    requires s.multiplier >= 1.0 && 0 <= delay <= s.max
    ensures Grown(s, delay, n) <= Grown(s, delay, n + 1)
    decreases n
  {
    ScaledGrows(s, delay);
    if Scaled(s, delay) <= s.max {
      if n > 0 {
        GrownStep(s, Scaled(s, delay), n - 1);
      } else {
        assert Grown(s, delay, 1) == Grown(s, Scaled(s, delay), 0);
      }
    } else {
      GrownBounds(s, delay, n);
    }
  }

  /** Cooldowns never get shorter while failures follow one another. */
  lemma DelayMonotone(s: Settings, k: nat)
    requires Proper(s) && s.multiplier >= 1.0 && s.base <= s.max && k > 0
    ensures s.base <= Delay(s, k) <= Delay(s, k + 1) <= s.max
  {
    GrownBounds(s, s.base, k - 1);
    GrownBounds(s, s.base, k);
    GrownStep(s, s.base, k - 1);
  }

  function Power(m: nat, n: nat): nat {
    if n == 0 then 1 else m * Power(m, n - 1)
  }

  function Min(a: int, b: int): int {
    if a <= b then a else b
  }

  lemma {:induction false} PowerPositive(m: nat, n: nat)
    requires m >= 1
    ensures Power(m, n) >= 1
  {
    if n > 0 {
      PowerPositive(m, n - 1);
    }
  }

  lemma ScaledWhole(s: Settings, m: nat, delay: int)
    requires s.multiplier == m as real
    ensures Scaled(s, delay) == delay * m
  {
    assert delay as real * m as real == (delay * m) as real;
  }

  lemma StepPower(d: nat, m: nat, n: nat)
    requires n > 0
    ensures d * Power(m, n) == (d * m) * Power(m, n - 1)
  {
  }

  lemma ScaledUp(d: nat, p: nat)
    requires p >= 1
    ensures d * p >= d
  {
  }

  /** With a whole multiplier the growth is exact: the smaller of the cap and delay * m^n. */
  lemma {:induction false} GrownIsPower(s: Settings, m: nat, delay: nat, n: nat)
    requires s.multiplier == m as real && m >= 1 && delay <= s.max
    ensures Grown(s, delay, n) == Min(s.max, delay * Power(m, n))
    decreases n
  {
    if n > 0 {
      ScaledWhole(s, m, delay);
      StepPower(delay, m, n);
      if delay * m <= s.max {
        GrownIsPower(s, m, delay * m, n - 1);
      } else {
        PowerPositive(m, n - 1);
        ScaledUp(delay * m, Power(m, n - 1));
      }
    }
  }

  /** The k-th failure in a row sets a cooldown of min(max, base * m^(k-1)). */
  lemma DelayIsExponential(s: Settings, m: nat, k: nat)
    requires Proper(s) && s.multiplier == m as real && m >= 1 && s.base <= s.max && k > 0
    ensures Delay(s, k) == Min(s.max, s.base * Power(m, k - 1))
  {
    GrownIsPower(s, m, s.base, k - 1);
  }

  /** d multiplied n times by m, without rounding. */
  function Exact(d: real, m: real, n: nat): real
    decreases n
  {
    if n == 0 then d else Exact(Times(d, m), m, n - 1)
  }

  lemma {:induction false} ExactMonotone(x: real, y: real, m: real, n: nat)
    requires x <= y && m >= 0.0
    ensures Exact(x, m, n) <= Exact(y, m, n)
    decreases n
  {
    if n > 0 {
      MulMonotone(m, x, y);
      ExactMonotone(Times(x, m), Times(y, m), m, n - 1);
    }
  }

  lemma {:induction false} ExactGrows(d: real, m: real, n: nat)
    requires d >= 0.0 && m >= 1.0
    ensures Exact(d, m, n) >= d
    decreases n
  {
    if n > 0 {
      MulMonotone(d, 1.0, m);
      ExactGrows(Times(d, m), m, n - 1);
    }
  }

  lemma ExactStep(d: real, m: real, e: real, n: nat)
    requires n > 0 && e == Times(d, m)
    ensures Exact(d, m, n) == Exact(e, m, n - 1)
  {
  }

  lemma ScaledBelow(s: Settings, delay: int)
    ensures Scaled(s, delay) as real <= Times(delay as real, s.multiplier)
  {
  }

  /** With any multiplier the fractions cut off at each step leave the delay at or below the exact exponential. */
  lemma {:induction false} GrownBelowExponential(s: Settings, delay: int, n: nat)
    requires s.multiplier >= 1.0 && 0 <= delay <= s.max
    ensures Grown(s, delay, n) as real <= Exact(delay as real, s.multiplier, n)
    decreases n
  {
    if n > 0 {
      var next, exact := Scaled(s, delay), Times(delay as real, s.multiplier);
      ScaledGrows(s, delay);
      ScaledBelow(s, delay);
      ExactStep(delay as real, s.multiplier, exact, n);
      if next <= s.max {
        GrownBelowExponential(s, next, n - 1);
        ExactMonotone(next as real, exact, s.multiplier, n - 1);
        assert Grown(s, delay, n) == Grown(s, next, n - 1);
      } else {
        ExactGrows(exact, s.multiplier, n - 1);
      }
    }
  }

  // ---------------------------------------------------------------- exactly when the growth is exponential

  predicate Whole(x: real) {
    x == x.Floor as real
  }

  /** The products d*m, d*m^2, ..., d*m^n are whole numbers of nanoseconds, so nothing is cut off. */
  predicate WholePowers(d: real, m: real, n: nat)
    decreases n
  {
    n == 0 || (Whole(Times(d, m)) && WholePowers(Times(d, m), m, n - 1))
  }

  /** Within n multiplications the delay, fractions cut off, reaches the cap. */
  predicate ReachesCap(s: Settings, delay: int, n: nat)
    decreases n
  {
    delay >= s.max || (n > 0 && ReachesCap(s, Scaled(s, delay), n - 1))
  }

  function Smaller(a: real, b: real): real {
    if a <= b then a else b
  }

  lemma {:induction false} CapIsReached(s: Settings, delay: int, n: nat)
    requires s.multiplier >= 1.0 && 0 <= delay <= s.max
    ensures ReachesCap(s, delay, n) <==> Grown(s, delay, n) == s.max
    decreases n
  {
    GrownBounds(s, delay, n);
    if n > 0 && delay < s.max {
      ScaledGrows(s, delay);
      if Scaled(s, delay) <= s.max {
        CapIsReached(s, Scaled(s, delay), n - 1);
      }
    }
  }

  lemma MulStrict(x: real, y: real, m: real)
    requires x < y && m > 0.0
    ensures Times(x, m) < Times(y, m)
  {
  }

  lemma {:induction false} ExactStrict(x: real, y: real, m: real, n: nat)
    requires x < y && m > 0.0
    ensures Exact(x, m, n) < Exact(y, m, n)
    decreases n
  {
    if n > 0 {
      MulStrict(x, y, m);
      ExactStrict(Times(x, m), Times(y, m), m, n - 1);
    }
  }

  /** A fraction cut off at the first step is never made up for below the cap. */
  lemma CutOffIsLost(s: Settings, delay: int, exact: real, n: nat)
    requires s.multiplier >= 1.0 && 0 <= delay <= s.max && delay as real < exact
    ensures Grown(s, delay, n) as real < Exact(exact, s.multiplier, n)
  {
    GrownBelowExponential(s, delay, n);
    ExactStrict(delay as real, exact, s.multiplier, n);
  }

  lemma WholeUnfold(d: real, m: real, e: real, n: nat)
    requires n > 0 && e == Times(d, m)
    ensures WholePowers(d, m, n) <==> Whole(e) && WholePowers(e, m, n - 1)
  {
  }

  lemma ScaledIsExact(s: Settings, delay: int, exact: real)
    requires exact == Times(delay as real, s.multiplier) && Whole(exact)
    ensures Scaled(s, delay) as real == exact
  {
  }

  lemma WholeStep(s: Settings, delay: int, n: nat)
    requires n > 0 && Scaled(s, delay) <= s.max && Scaled(s, delay) as real == Times(delay as real, s.multiplier)
    ensures var next := Scaled(s, delay);
            && Exact(delay as real, s.multiplier, n) == Exact(next as real, s.multiplier, n - 1)
            && Grown(s, delay, n) == Grown(s, next, n - 1)
            && (WholePowers(delay as real, s.multiplier, n) <==> WholePowers(next as real, s.multiplier, n - 1))
  {
    var next, exact := Scaled(s, delay), Times(delay as real, s.multiplier);
    assert Whole(exact);
    ExactStep(delay as real, s.multiplier, exact, n);
    WholeUnfold(delay as real, s.multiplier, exact, n);
  }

  lemma CutStep(s: Settings, delay: int, n: nat)
    requires s.multiplier >= 1.0 && n > 0 && 0 <= delay
    requires !Whole(Times(delay as real, s.multiplier)) && Scaled(s, delay) <= s.max
    ensures Grown(s, delay, n) as real < Exact(delay as real, s.multiplier, n)
    ensures !WholePowers(delay as real, s.multiplier, n)
  {
    var next, exact := Scaled(s, delay), Times(delay as real, s.multiplier);
    ScaledGrows(s, delay);
    ScaledBelow(s, delay);
    ExactStep(delay as real, s.multiplier, exact, n);
    WholeUnfold(delay as real, s.multiplier, exact, n);
    CutOffIsLost(s, next, exact, n - 1);
    assert Grown(s, delay, n) == Grown(s, next, n - 1);
  }

  lemma {:induction false} BelowCapIff(s: Settings, delay: int, n: nat)
    requires s.multiplier >= 1.0 && 0 <= delay <= s.max && Grown(s, delay, n) < s.max
    ensures Grown(s, delay, n) as real == Exact(delay as real, s.multiplier, n)
            <==> WholePowers(delay as real, s.multiplier, n)
    decreases n
  {
    if n > 0 {
      ScaledGrows(s, delay);
      var exact := Times(delay as real, s.multiplier);
      if Whole(exact) {
        ScaledIsExact(s, delay, exact);
        WholeStep(s, delay, n);
        BelowCapIff(s, Scaled(s, delay), n - 1);
      } else {
        CutStep(s, delay, n);
      }
    }
  }

  lemma GrownIsExponentialIff(s: Settings, delay: int, n: nat)
    requires s.multiplier >= 1.0 && 0 <= delay <= s.max
    ensures Grown(s, delay, n) as real == Smaller(s.max as real, Exact(delay as real, s.multiplier, n))
            <==> ReachesCap(s, delay, n) || WholePowers(delay as real, s.multiplier, n)
  {
    GrownBounds(s, delay, n);
    CapIsReached(s, delay, n);
    GrownBelowExponential(s, delay, n);
    if Grown(s, delay, n) < s.max {
      BelowCapIff(s, delay, n);
    }
  }

  /** For every multiplier that is at least one, fractional ones included: the k-th failure in a row sets a cooldown
      of min(max, base * multiplier^(k-1)) if and only if the delay has reached the cap or no multiplication on the
      way had a fraction of a nanosecond to cut off. */
  lemma DelayIsExponentialIff(s: Settings, k: nat)
    requires Proper(s) && s.multiplier >= 1.0 && s.base <= s.max && k > 0
    ensures Delay(s, k) as real == Smaller(s.max as real, Exact(s.base as real, s.multiplier, k - 1))
            <==> ReachesCap(s, s.base, k - 1) || WholePowers(s.base as real, s.multiplier, k - 1)
  {
    GrownIsExponentialIff(s, s.base, k - 1);
  }

  /** One nanosecond times 1.5 is cut off to one nanosecond. */
  lemma FractionIsLost()
    ensures var s := Settings(1, 10, 1.5);
            && Delay(s, 2) == 1 && Smaller(10.0, Exact(1.0, 1.5, 1)) == 1.5
            && !ReachesCap(s, 1, 1) && !WholePowers(1.0, 1.5, 1)
  {
    var s := Settings(1, 10, 1.5);
    assert Scaled(s, 1) == 1 by {
      assert Times(1 as real, s.multiplier) == 1.5;
    }
    assert Grown(s, 1, 1) == Grown(s, Scaled(s, 1), 0);
    assert Exact(1.0, 1.5, 1) == Exact(Times(1.0, 1.5), 1.5, 0);
    assert ReachesCap(s, 1, 1) == ReachesCap(s, Scaled(s, 1), 0);
  }

  /** 1 + m + ... + m^(n-1). */
  function Geometric(m: real, n: nat): real
    decreases n
  {
    if n == 0 then 0.0 else Exact(1.0, m, n - 1) + Geometric(m, n - 1)
  }

  lemma {:induction false} ExactLinear(d: real, e: real, m: real, n: nat)
    ensures Exact(d + e, m, n) == Exact(d, m, n) + Exact(e, m, n)
    decreases n
  {
    if n > 0 {
      assert Times(d + e, m) == Times(d, m) + Times(e, m);
      ExactLinear(Times(d, m), Times(e, m), m, n - 1);
    }
  }

  /** Below the cap the delay stays close: each multiplication loses less than one nanosecond, which later ones
      magnify. */
  lemma {:induction false} GrownNearExponential(s: Settings, delay: int, n: nat)
    requires s.multiplier >= 1.0 && 0 <= delay <= s.max && !ReachesCap(s, delay, n)
    ensures Grown(s, delay, n) as real >= Exact(delay as real, s.multiplier, n) - Geometric(s.multiplier, n)
    decreases n
  {
    if n > 0 {
      var next, exact := Scaled(s, delay), Times(delay as real, s.multiplier);
      ScaledGrows(s, delay);
      ExactStep(delay as real, s.multiplier, exact, n);
      GrownNearExponential(s, next, n - 1);
      ExactMonotone(exact, next as real + 1.0, s.multiplier, n - 1);
      ExactLinear(next as real, 1.0, s.multiplier, n - 1);
      assert Grown(s, delay, n) == Grown(s, next, n - 1);
    }
  }

  lemma {:induction false} GrownNonnegative(s: Settings, delay: int, n: nat)
    requires Proper(s) && delay >= 0
    ensures Grown(s, delay, n) >= 0
    decreases n
  {
    if n > 0 {
      assert Times(delay as real, s.multiplier) >= 0.0 by {
        MulMonotone(s.multiplier, 0.0, delay as real);
      }
      if Scaled(s, delay) <= s.max {
        GrownNonnegative(s, Scaled(s, delay), n - 1);
      }
    }
  }
}
