/** The token bucket in front of the model providers. Times are seconds as reals; the computed wait is a whole
    number of nanoseconds, as the timer takes it. */
module RateLimiter {
  const NANOS := 1000000000.0

  datatype Bucket = Bucket(tokens: real, lastTime: real)

  /** The bucket's fixed settings. */
  datatype Settings = Settings(rate: real, burst: real)

  /** Tokens gained between two moments. */
  function Gain(s: Settings, from: real, to: real): real {
    (to - from) * s.rate
  }

  function Refilled(s: Settings, b: Bucket, now: real): (r: Bucket)
    ensures r.lastTime == now && r.tokens <= s.burst
  {
    var t := b.tokens + Gain(s, b.lastTime, now);
    Bucket(if t > s.burst then s.burst else t, now)
  }

  /** One pass through the mutex: refill, then take a token if there is a whole one. */
  function Attempt(s: Settings, b: Bucket, now: real): (Bucket, bool) {
    var r := Refilled(s, b, now);
    if r.tokens >= 1.0 then (r.(tokens := r.tokens - 1.0), true) else (r, false)
  }

  /** The conversion to a whole number of nanoseconds cuts off the fraction, towards zero. */
  function Truncated(x: real): int {
    if x >= 0.0 then x.Floor else -(-x).Floor
  }

  /** The exact pause, in nanoseconds, after which the deficit is refilled. */
  function ExactNanos(s: Settings, tokens: real): real
    requires s.rate != 0.0
  {
    (1.0 - tokens) / s.rate * NANOS
  }

  /** The wait computed after a refusal. */
  function WaitNanos(s: Settings, tokens: real): int
    requires s.rate != 0.0
  {
    Truncated(ExactNanos(s, tokens))
  }

  class Limiter {
    var tokens: real
    var lastTime: real
    const maxBurst: real
    const rate: real

    ghost function View(): Bucket
      reads this
    {
      Bucket(tokens, lastTime)
    }

    ghost function Config(): Settings {
      Settings(rate, maxBurst)
    }

    constructor (rate: real, burst: int, now: real)
      ensures View() == Bucket(burst as real, now) && Config() == Settings(rate, burst as real)
    {
      this.tokens, this.maxBurst, this.rate, this.lastTime := burst as real, burst as real, rate, now;
    }

    /** The locked part of the loop in Wait. infinite is what the conversion makes of a division by a rate of zero. */
    method TryTake(now: real, infinite: int) returns (granted: bool, wait: int)
      modifies this
      ensures (View(), granted) == Attempt(Config(), old(View()), now)
      ensures !granted ==> wait == if rate == 0.0 then infinite else WaitNanos(Config(), tokens)
    {
      var elapsed := now - lastTime;
      assert elapsed * rate == Gain(Config(), lastTime, now);
      tokens := tokens + elapsed * rate;
      if tokens > maxBurst {
        tokens := maxBurst;
      }
      lastTime := now;
      if tokens >= 1.0 {
        tokens := tokens - 1.0;
        return true, 0;
      }
      var deficit := 1.0 - tokens;
      if rate == 0.0 {
        return false, infinite;
      }
      wait := Truncated(deficit / rate * NANOS);
      assert wait == WaitNanos(Config(), tokens);
      return false, wait;
    }

    /** Wait with the clock and the context as oracles: clock(i) is the time of the i-th pass, cancelled(i)
        whether the context ends during the sleep after it. patience bounds the passes looked at. */
    method Wait(clock: nat -> real, cancelled: nat -> bool, infinite: int, patience: nat)
      returns (granted: bool, passes: nat)
      modifies this
      ensures passes <= patience
      ensures View() == Passes(Config(), old(View()), clock, passes)
      ensures granted <==> passes > 0 && GrantedAtPass(Config(), old(View()), clock, passes - 1)
      ensures !granted && passes < patience ==> passes > 0 && cancelled(passes - 1)
    {
      passes, granted := 0, false;
      while passes < patience
        invariant passes <= patience && !granted
        invariant View() == Passes(Config(), old(View()), clock, passes)
        invariant passes > 0 ==> !GrantedAtPass(Config(), old(View()), clock, passes - 1)
      {
        var ok, wait := TryTake(clock(passes), infinite);
        passes := passes + 1;
        if ok {
          return true, passes;
        }
        if cancelled(passes - 1) {
          return false, passes;
        }
      }
    }
  }

  function Passes(s: Settings, b: Bucket, clock: nat -> real, n: nat): Bucket {
    if n == 0 then b else Attempt(s, Passes(s, b, clock, n - 1), clock(n - 1)).0
  }

  predicate GrantedAtPass(s: Settings, b: Bucket, clock: nat -> real, n: nat) {
    Attempt(s, Passes(s, b, clock, n), clock(n)).1
  }

  // ---------------------------------------------------------------- any callers, any clock

  /** The bucket after attempts at the given times, whoever makes them. */
  function After(s: Settings, b: Bucket, times: seq<real>): Bucket {
    if times == [] then b else Attempt(s, After(s, b, times[..|times| - 1]), times[|times| - 1]).0
  }

  predicate GrantedAt(s: Settings, b: Bucket, times: seq<real>, i: nat)
    requires i < |times|
  {
    Attempt(s, After(s, b, times[..i]), times[i]).1
  }

  /** Grants among the attempts from i on. */
  function GrantsFrom(s: Settings, b: Bucket, times: seq<real>, i: nat): nat
    requires i <= |times|
    decreases |times|
  {
    if i == |times| then 0
    else GrantsFrom(s, b, times[..|times| - 1], i) + if GrantedAt(s, b, times, |times| - 1) then 1 else 0
  }

  ghost predicate Nondecreasing(start: real, times: seq<real>) {
    forall i :: 0 <= i < |times| ==> start <= times[i] && forall j :: i <= j < |times| ==> times[i] <= times[j]
  }

  ghost predicate Legal(s: Settings, b: Bucket) {
    s.rate >= 0.0 && s.burst >= 0.0 && 0.0 <= b.tokens <= s.burst
  }

  /** A grant takes one token and nothing else is lost: an attempt finds the old tokens and what was gained since, as
      far as the burst has room, and is granted exactly when that is a whole one. */
  lemma AttemptMeans(s: Settings, b: Bucket, now: real)
    ensures var found := b.tokens + Gain(s, b.lastTime, now);
            var filled := if found <= s.burst then found else s.burst;
            && (Attempt(s, b, now).1 <==> filled >= 1.0)
            && Attempt(s, b, now).0 == Bucket(if filled >= 1.0 then filled - 1.0 else filled, now)
  {
  }

  /** So all the tokens there are can be had at once: of attempts at one moment, as many as there are tokens, each is
      granted. */
  lemma {:induction false} TokensAtOnce(s: Settings, b: Bucket, times: seq<real>)
    requires Legal(s, b) && b.tokens >= |times| as real && forall i :: 0 <= i < |times| ==> times[i] == b.lastTime
    ensures After(s, b, times) == b.(tokens := b.tokens - |times| as real)
    ensures GrantsFrom(s, b, times, 0) == |times|
  {
    if times != [] {
      var init := times[..|times| - 1];
      TokensAtOnce(s, b, init);
      GainAdds(s, b.lastTime, b.lastTime, b.lastTime);
      AttemptMeans(s, After(s, b, init), b.lastTime);
    }
  }

  lemma AttemptStaysLegal(s: Settings, b: Bucket, now: real)
    requires Legal(s, b) && b.lastTime <= now
    ensures Legal(s, Attempt(s, b, now).0) && Attempt(s, b, now).0.lastTime == now
    ensures Attempt(s, b, now).0.tokens
            <= b.tokens + Gain(s, b.lastTime, now) - if Attempt(s, b, now).1 then 1.0 else 0.0
    ensures Attempt(s, b, now).1 ==> Attempt(s, b, now).0.tokens <= s.burst - 1.0
  {
    GainNonnegative(s, b.lastTime, now);
  }

  lemma GainNonnegative(s: Settings, from: real, to: real)
    requires s.rate >= 0.0 && from <= to
    ensures Gain(s, from, to) >= 0.0
  {
    ProductNonnegative(to - from, s.rate);
  }

  lemma ProductNonnegative(x: real, y: real)
    requires x >= 0.0 && y >= 0.0
    ensures x * y >= 0.0
  {
  }

  lemma GainAdds(s: Settings, a: real, b: real, c: real)
    ensures Gain(s, a, b) + Gain(s, b, c) == Gain(s, a, c) && Gain(s, a, a) == 0.0
  {
  }

  /** Tokens stay between zero and the burst. */
  lemma {:induction false} TokensStayLegal(s: Settings, b: Bucket, times: seq<real>)
    requires Legal(s, b) && Nondecreasing(b.lastTime, times)
    ensures Legal(s, After(s, b, times))
    ensures After(s, b, times).lastTime == if times == [] then b.lastTime else times[|times| - 1]
  {
    if times != [] {
      var init := times[..|times| - 1];
      TokensStayLegal(s, b, init);
      AttemptStaysLegal(s, After(s, b, init), times[|times| - 1]);
    }
  }

  /** One more attempt: grant and tokens together grow by the refill at most, and stay within the burst. */
  lemma LastAttempt(s: Settings, b: Bucket, times: seq<real>)
    requires Legal(s, b) && Nondecreasing(b.lastTime, times) && times != []
    ensures var n := |times| - 1;
            var before, after := After(s, b, times[..n]), After(s, b, times);
            var grant := if GrantedAt(s, b, times, n) then 1.0 else 0.0;
            && grant + after.tokens <= s.burst
            && (n > 0 ==> grant + after.tokens <= before.tokens + Gain(s, times[n - 1], times[n]))
  {
    var n := |times| - 1;
    TokensStayLegal(s, b, times[..n]);
    AttemptStaysLegal(s, After(s, b, times[..n]), times[n]);
  }

  /** Potential argument: grants since attempt i plus the tokens left never exceed the burst plus the refill. */
  lemma {:induction false} GrantsPlusTokens(s: Settings, b: Bucket, times: seq<real>, i: nat)
    requires Legal(s, b) && Nondecreasing(b.lastTime, times) && i < |times|
    ensures GrantsFrom(s, b, times, i) as real + After(s, b, times).tokens
            <= s.burst + Gain(s, times[i], times[|times| - 1])
    decreases |times|
  {
    var n := |times| - 1;
    LastAttempt(s, b, times);
    if i < n {
      GrantsPlusTokens(s, b, times[..n], i);
      GainAdds(s, times[i], times[n - 1], times[n]);
    } else {
      GainAdds(s, times[i], times[i], times[i]);
      assert GrantsFrom(s, b, times[..n], i) == 0;
    }
  }

  /** In every window, from attempt i to attempt j, at most burst + rate * (length of the window) requests are
      granted, for any callers and any nondecreasing clock. */
  lemma WindowBound(s: Settings, b: Bucket, times: seq<real>, i: nat, j: nat)
    requires Legal(s, b) && Nondecreasing(b.lastTime, times) && i <= j < |times|
    ensures GrantsFrom(s, b, times[..j + 1], i) as real <= s.burst + Gain(s, times[i], times[j])
  {
    var window := times[..j + 1];
    GrantsPlusTokens(s, b, window, i);
    TokensStayLegal(s, b, window);
  }

  // ---------------------------------------------------------------- the computed wait

  /** A refused caller that nobody overtakes is granted after a pause exactly when the pause covers the deficit
      and the burst holds a whole token. */
  lemma RetryGrantedIff(s: Settings, b: Bucket, pause: real)
    requires s.rate > 0.0 && b.tokens < 1.0
    ensures Attempt(s, b, b.lastTime + pause).1 <==> s.burst >= 1.0 && pause * s.rate >= 1.0 - b.tokens
  {
    assert Gain(s, b.lastTime, b.lastTime + pause) == pause * s.rate;
  }

  /** Cutting off goes towards zero. */
  lemma TruncatedMeans(x: real)
    ensures x >= 0.0 ==> Truncated(x) as real <= x < Truncated(x) as real + 1.0
    ensures Truncated(-x) == -Truncated(x)
  {
  }

  /** With a positive rate the wait of a refused caller is positive, or zero when less than a nanosecond is missing. */
  lemma WaitIsFloor(s: Settings, b: Bucket)
    requires s.rate > 0.0 && b.tokens < 1.0
    ensures ExactNanos(s, b.tokens) > 0.0 && WaitNanos(s, b.tokens) == ExactNanos(s, b.tokens).Floor >= 0
  {
    QuotientPositive(1.0 - b.tokens, s.rate);
  }

  lemma QuotientPositive(x: real, y: real)
    requires x > 0.0 && y > 0.0
    ensures x / y > 0.0 && x / y * NANOS > 0.0
  {
    if x / y <= 0.0 {
      assert (x / y) * y == x;
    }
  }

  lemma PauseSuffices(s: Settings, b: Bucket, pause: real)
    requires s.rate > 0.0 && s.burst >= 1.0 && b.tokens < 1.0
    ensures Attempt(s, b, b.lastTime + pause).1 <==> ExactNanos(s, b.tokens) <= pause * NANOS
  {
    PauseCovers(1.0 - b.tokens, s.rate, pause);
    RetryGrantedIff(s, b, pause);
  }

  /** The computed wait is less than one nanosecond short: one more nanosecond always suffices. */
  lemma WaitAlmostSuffices(s: Settings, b: Bucket)
    requires s.rate > 0.0 && s.burst >= 1.0 && b.tokens < 1.0
    ensures Attempt(s, b, b.lastTime + (WaitNanos(s, b.tokens) + 1) as real / NANOS).1
  {
    WaitIsFloor(s, b);
    PauseSuffices(s, b, (WaitNanos(s, b.tokens) + 1) as real / NANOS);
  }

  lemma PauseCovers(deficit: real, rate: real, pause: real)
    requires rate > 0.0
    ensures deficit / rate * NANOS <= pause * NANOS <==> pause * rate >= deficit
  {
    var q := deficit / rate;
    assert q * rate == deficit;
    if q <= pause {
      assert (pause - q) * rate >= 0.0;
      assert pause * rate - q * rate == (pause - q) * rate;
    } else {
      assert (q - pause) * rate > 0.0;
      assert q * rate - pause * rate == (q - pause) * rate;
    }
  }

  /** Sleeping exactly the computed wait is enough if and only if no fraction of a nanosecond was cut off. */
  lemma WaitSufficesIff(s: Settings, b: Bucket)
    requires s.rate > 0.0 && s.burst >= 1.0 && b.tokens < 1.0
    ensures Attempt(s, b, b.lastTime + WaitNanos(s, b.tokens) as real / NANOS).1
            <==> WaitNanos(s, b.tokens) as real == ExactNanos(s, b.tokens)
  {
    WaitIsFloor(s, b);
    PauseSuffices(s, b, WaitNanos(s, b.tokens) as real / NANOS);
  }

  /** Three tokens a second: the wait for one is 333333333 nanoseconds and a third, the third is cut off, and a caller
      that sleeps exactly so long is refused again. */
  lemma ThirdOfASecondIsTooShort()
    ensures var s, b := Settings(3.0, 1.0), Bucket(0.0, 0.0);
            && WaitNanos(s, b.tokens) == 333333333
            && !Attempt(s, b, b.lastTime + WaitNanos(s, b.tokens) as real / NANOS).1
  {
    var s, b := Settings(3.0, 1.0), Bucket(0.0, 0.0);
    WaitIsFloor(s, b);
    WaitSufficesIff(s, b);
  }

  /** So a caller that nobody overtakes, and that sleeps at least as long as it should, is granted at its next pass,
      or at the one after as soon as a nanosecond has gone by. */
  lemma GrantedByThirdPass(s: Settings, b: Bucket, second: real, third: real)
    requires s.rate > 0.0 && s.burst >= 1.0 && b.tokens < 1.0
    requires second >= b.lastTime + WaitNanos(s, b.tokens) as real / NANOS && third >= second + 1.0 / NANOS
    ensures Attempt(s, b, second).1 || Attempt(s, Attempt(s, b, second).0, third).1
  {
    var after := Attempt(s, b, second).0;
    WaitIsFloor(s, b);
    PauseSuffices(s, b, third - b.lastTime);
    if !Attempt(s, b, second).1 {
      GainAdds(s, b.lastTime, second, third);
      assert after.tokens == b.tokens + Gain(s, b.lastTime, second);
    }
  }

  /** With a burst below one nothing is ever granted. */
  lemma SmallBurstNeverGrants(s: Settings, b: Bucket, now: real)
    requires s.burst < 1.0
    ensures !Attempt(s, b, now).1
  {
  }
}
