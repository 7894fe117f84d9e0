/**
 The token bucket, over exact arithmetic: times are in milliseconds, tokens and
 costs are real numbers. The clock is whatever each call read.
*/
module Bucket {

  class TokenBucketLimiter {
    const capacity: real
    const refillRatePerSec: real
    var tokens: real
    var lastRefillTimestamp: real

    ghost function Contents(): State
      reads this
    {
      State(tokens, lastRefillTimestamp)
    }

    ghost function Limits(): Config {
      Config(capacity, refillRatePerSec)
    }

    constructor (capacity: real, refillRatePerSec: real, now: real)
      ensures Limits() == Config(capacity, refillRatePerSec)
      ensures Contents() == After(Limits(), now, [], 0)
    {
      this.capacity := capacity;
      this.refillRatePerSec := refillRatePerSec;
      tokens := capacity;
      lastRefillTimestamp := now;
    }

    method Refill(now: real)
      modifies this
      ensures Contents() == Refilled(Limits(), old(Contents()), now)
    {
      var elapsedSeconds := (now - lastRefillTimestamp) / 1000.0;
      var addedTokens := elapsedSeconds * refillRatePerSec;
      tokens := MinReal(capacity, tokens + addedTokens);
      lastRefillTimestamp := now;
    }

    method TryConsume(cost: real, now: real) returns (admitted: bool)
      modifies this
      ensures admitted == Admits(Limits(), old(Contents()), Consume(now, cost))
      ensures Contents() == Step(Limits(), old(Contents()), Consume(now, cost))
    {
      Refill(now);
      if tokens >= cost {
        tokens := tokens - cost;
        return true;
      }
      return false;
    }

    method GetAvailableTokens(now: real) returns (available: int)
      modifies this
      ensures available as real <= tokens < available as real + 1.0
      ensures Contents() == Step(Limits(), old(Contents()), Peek(now))
    {
      Refill(now);
      available := tokens.Floor;
    }
  }

  datatype Config = Config(capacity: real, rate: real)

  datatype State = State(tokens: real, refilledAt: real)

  datatype Call = Consume(now: real, cost: real) | Peek(now: real)

  function MinReal(a: real, b: real): real {
    if b < a then b else a
  }

  /** Tokens produced between two times. */
  function Earned(c: Config, since: real, now: real): real {
    (now - since) / 1000.0 * c.rate
  }

  function Refilled(c: Config, s: State, now: real): State {
    State(MinReal(c.capacity, s.tokens + Earned(c, s.refilledAt, now)), now)
  }

  predicate Admits(c: Config, s: State, call: Call) {
    call.Consume? && Refilled(c, s, call.now).tokens >= call.cost
  }

  function Step(c: Config, s: State, call: Call): State {
    var r := Refilled(c, s, call.now);
    if Admits(c, s, call) then r.(tokens := r.tokens - call.cost) else r
  }

  /** A bucket created full at time `birth`, after the first `n` calls. */
  function After(c: Config, birth: real, calls: seq<Call>, n: nat): State
    requires n <= |calls|
  {
    if n == 0 then State(c.capacity, birth) else Step(c, After(c, birth, calls, n - 1), calls[n - 1])
  }

  predicate Admitted(c: Config, birth: real, calls: seq<Call>, i: nat)
    requires i < |calls|
  {
    Admits(c, After(c, birth, calls, i), calls[i])
  }

  /** What call `i` actually took out of the bucket. */
  function Charge(c: Config, birth: real, calls: seq<Call>, i: nat): real
    requires i < |calls|
  {
    if Admitted(c, birth, calls, i) then calls[i].cost else 0.0
  }

  /** The cost admitted by the calls from `i` up to but not including `n`. */
  function Spent(c: Config, birth: real, calls: seq<Call>, i: nat, n: nat): real
    requires i <= n <= |calls|
  {
    if i == n then 0.0 else Spent(c, birth, calls, i, n - 1) + Charge(c, birth, calls, n - 1)
  }

  /** The moments at which the bucket was known to be at most full: its creation, and the refill of each call. */
  datatype Moment = Birth | Refill(call: nat)

  /** The arrival curve from one moment: the cost admitted from then up to call `n`, plus
      `extra`, is at most the capacity plus the rate times the seconds from then to `now`. */
  predicate WithinCurve(c: Config, birth: real, calls: seq<Call>, n: nat, now: real, extra: real, from: Moment)
    requires n <= |calls| && (from.Refill? ==> from.call < n)
  {
    match from
    case Birth =>
      1000.0 * (Spent(c, birth, calls, 0, n) + extra) <= 1000.0 * c.capacity + c.rate * (now - birth)
    case Refill(j) =>
      1000.0 * (Spent(c, birth, calls, j, n) + extra) <= 1000.0 * c.capacity + c.rate * (now - calls[j].now)
  }

  /** Within the curve from every moment before call `n`. */
  ghost predicate WithinCurves(c: Config, birth: real, calls: seq<Call>, n: nat, now: real, extra: real)
    requires n <= |calls|
  {
    && WithinCurve(c, birth, calls, n, now, extra, Birth)
    && forall j: nat | j < n :: WithinCurve(c, birth, calls, n, now, extra, Refill(j))
  }

  /** The rate is per second, times are in milliseconds. */
  lemma EarnedMeans(c: Config, since: real, now: real)
    ensures 1000.0 * Earned(c, since, now) == c.rate * (now - since)
  {
    var seconds := (now - since) / 1000.0;
    assert 1000.0 * (seconds * c.rate) == (1000.0 * seconds) * c.rate;
    assert 1000.0 * seconds == now - since;
  }

  lemma EarnedSplits(c: Config, a: real, b: real, d: real)
    ensures Earned(c, a, d) == Earned(c, a, b) + Earned(c, b, d)
  {
    assert (d - a) / 1000.0 == (b - a) / 1000.0 + (d - b) / 1000.0;
  }

  /** What a bucket that is not cut off at its capacity would afford at some time. */
  predicate Affords(c: Config, s: State, now: real, extra: real) {
    1000.0 * extra <= 1000.0 * s.tokens + c.rate * (now - s.refilledAt)
  }

  lemma AffordsInTokens(c: Config, s: State, now: real, extra: real)
    ensures Affords(c, s, now, extra) <==> extra <= s.tokens + Earned(c, s.refilledAt, now)
  {
    EarnedMeans(c, s.refilledAt, now);
  }

  /** The time and the cost admitted since a moment. */
  function Since(c: Config, birth: real, calls: seq<Call>, n: nat, from: Moment): (real, real)
    requires n <= |calls| && (from.Refill? ==> from.call < n)
  {
    if from.Birth? then (birth, Spent(c, birth, calls, 0, n))
    else (calls[from.call].now, Spent(c, birth, calls, from.call, n))
  }

  lemma CurveInTokens(c: Config, birth: real, calls: seq<Call>, n: nat, now: real, extra: real, from: Moment)
    requires n <= |calls| && (from.Refill? ==> from.call < n)
    ensures var (since, spent) := Since(c, birth, calls, n, from);
            WithinCurve(c, birth, calls, n, now, extra, from) <==> spent + extra <= c.capacity + Earned(c, since, now)
  {
    EarnedMeans(c, Since(c, birth, calls, n, from).0, now);
  }

  /** One more call moves its charge, less what is earned since, from the calls to the claim. */
  lemma CurveMovesBack(c: Config, birth: real, calls: seq<Call>, n: nat, now: real, extra: real, from: Moment)
    requires 0 < n <= |calls| && (from.Refill? ==> from.call < n - 1)
    ensures var t := calls[n - 1].now;
            WithinCurve(c, birth, calls, n, now, extra, from) <==>
            WithinCurve(c, birth, calls, n - 1, t, extra + Charge(c, birth, calls, n - 1) - Earned(c, t, now), from)
  {
    var t := calls[n - 1].now;
    CurveInTokens(c, birth, calls, n, now, extra, from);
    CurveInTokens(c, birth, calls, n - 1, t, extra + Charge(c, birth, calls, n - 1) - Earned(c, t, now), from);
    EarnedSplits(c, Since(c, birth, calls, n, from).0, t, now);
  }

  lemma {:induction false} TokensWithinCurves(c: Config, birth: real, calls: seq<Call>, n: nat, now: real, extra: real)
    requires n <= |calls|
    ensures var s := After(c, birth, calls, n);
            extra <= s.tokens + Earned(c, s.refilledAt, now) <==> WithinCurves(c, birth, calls, n, now, extra)
  {
    CurveInTokens(c, birth, calls, n, now, extra, Birth);
    if n > 0 {
      var t := calls[n - 1].now;
      var due := extra + Charge(c, birth, calls, n - 1) - Earned(c, t, now);
      TokensWithinCurves(c, birth, calls, n - 1, t, due);
      CurveMovesBack(c, birth, calls, n, now, extra, Birth);
      forall j: nat | j < n - 1
        ensures WithinCurve(c, birth, calls, n, now, extra, Refill(j)) <==> WithinCurve(c, birth, calls, n - 1, t, due, Refill(j))
      {
        CurveMovesBack(c, birth, calls, n, now, extra, Refill(j));
      }
      SpentByOne(c, birth, calls, n - 1);
      CurveInTokens(c, birth, calls, n, now, extra, Refill(n - 1));
      assert WithinCurve(c, birth, calls, n, now, extra, Refill(n - 1)) <==> due <= c.capacity;
    }
  }

  /** What the bucket still holds, projected to any time, is the tightest of all the curves. */
  lemma TokensAreTightestCurve(c: Config, birth: real, calls: seq<Call>, n: nat, now: real, extra: real)
    requires n <= |calls|
    ensures Affords(c, After(c, birth, calls, n), now, extra) <==> WithinCurves(c, birth, calls, n, now, extra)
  {
    TokensWithinCurves(c, birth, calls, n, now, extra);
    AffordsInTokens(c, After(c, birth, calls, n), now, extra);
  }

  lemma SpentByOne(c: Config, birth: real, calls: seq<Call>, i: nat)
    requires i < |calls|
    ensures Spent(c, birth, calls, i, i + 1) == Charge(c, birth, calls, i)
  {
    assert Spent(c, birth, calls, i, i) == 0.0;
  }

  /** The limiter admits a call exactly when the cost is at most the capacity and
      stays within the arrival curve from creation and from every earlier refill.
      This holds for any clock, rate, capacity and costs. */
  lemma AdmitsIffWithinEveryCurve(c: Config, birth: real, calls: seq<Call>, n: nat)
    requires n < |calls| && calls[n].Consume?
    ensures Admitted(c, birth, calls, n) <==>
            && calls[n].cost <= c.capacity
            && WithinCurves(c, birth, calls, n, calls[n].now, calls[n].cost)
  {
    TokensWithinCurves(c, birth, calls, n, calls[n].now, calls[n].cost);
  }

  // ------------------------------------------------------------------
  // Consequences for a clock that does not step back
  // ------------------------------------------------------------------

  predicate Monotone(birth: real, calls: seq<Call>) {
    && (forall i :: 0 <= i < |calls| ==> birth <= calls[i].now)
    && (forall i, j :: 0 <= i < j < |calls| ==> calls[i].now <= calls[j].now)
  }

  lemma EarnedIsMonotone(c: Config, a: real, b: real)
    requires c.rate >= 0.0 && a <= b
    ensures Earned(c, a, b) >= 0.0
  {
    assert (b - a) / 1000.0 >= 0.0;
  }

  lemma {:induction false} SpentWithinEarned(c: Config, birth: real, calls: seq<Call>, i: nat, n: nat)
    requires c.rate >= 0.0 && c.capacity >= 0.0 && Monotone(birth, calls) && i <= n < |calls|
    ensures Spent(c, birth, calls, i, n + 1) <= c.capacity + Earned(c, calls[i].now, calls[n].now)
  {
    if Admitted(c, birth, calls, n) {
      AdmitsIffWithinEveryCurve(c, birth, calls, n);
      if i < n {
        CurveInTokens(c, birth, calls, n, calls[n].now, calls[n].cost, Refill(i));
      } else {
        SpentByOne(c, birth, calls, n);
        EarnedIsMonotone(c, calls[n].now, calls[n].now);
      }
    } else if i < n {
      SpentWithinEarned(c, birth, calls, i, n - 1);
      EarnedSplits(c, calls[i].now, calls[n - 1].now, calls[n].now);
      EarnedIsMonotone(c, calls[n - 1].now, calls[n].now);
    } else {
      SpentByOne(c, birth, calls, n);
      EarnedIsMonotone(c, calls[n].now, calls[n].now);
    }
  }

  /** The rate limit: no stretch of calls is admitted more than the capacity plus
      the rate times the seconds that it takes. */
  lemma NeverOverRate(c: Config, birth: real, calls: seq<Call>, i: nat, n: nat)
    requires c.rate >= 0.0 && c.capacity >= 0.0 && Monotone(birth, calls) && i <= n < |calls|
    ensures WithinCurve(c, birth, calls, n + 1, calls[n].now, 0.0, Refill(i))
  {
    SpentWithinEarned(c, birth, calls, i, n);
    CurveInTokens(c, birth, calls, n + 1, calls[n].now, 0.0, Refill(i));
  }

  /** The state after the first `n` calls if the peeks among them had not been made. */
  function AfterWithoutPeeks(c: Config, birth: real, calls: seq<Call>, n: nat): State
    requires n <= |calls|
  {
    if n == 0 then State(c.capacity, birth)
    else if calls[n - 1].Peek? then AfterWithoutPeeks(c, birth, calls, n - 1)
    else Step(c, AfterWithoutPeeks(c, birth, calls, n - 1), calls[n - 1])
  }

  /** A refill at `t` cuts tokens off at the capacity. */
  predicate CutsOff(c: Config, s: State, t: real) {
    1000.0 * c.capacity < 1000.0 * s.tokens + c.rate * (t - s.refilledAt)
  }

  predicate StepsBack(c: Config, t: real, now: real) {
    c.rate * (now - t) < 0.0
  }

  lemma CutsOffInTokens(c: Config, s: State, t: real, now: real)
    ensures CutsOff(c, s, t) <==> c.capacity < s.tokens + Earned(c, s.refilledAt, t)
    ensures StepsBack(c, t, now) <==> Earned(c, t, now) < 0.0
  {
    EarnedMeans(c, s.refilledAt, t);
    EarnedMeans(c, t, now);
  }

  /** A peek at `t` shows at a later refill exactly when it cut tokens off at the
      capacity and the clock has since stepped back. */
  lemma PeekShowsIff(c: Config, s: State, t: real, now: real)
    ensures Refilled(c, Step(c, s, Peek(t)), now) != Refilled(c, s, now) <==> CutsOff(c, s, t) && StepsBack(c, t, now)
  {
    CutsOffInTokens(c, s, t, now);
    EarnedSplits(c, s.refilledAt, t, now);
  }

  lemma {:induction false} PeeksDoNotShow(c: Config, birth: real, calls: seq<Call>, n: nat, now: real)
    requires c.rate >= 0.0 && Monotone(birth, calls) && n <= |calls|
    requires forall i :: 0 <= i < n ==> calls[i].now <= now
    ensures Refilled(c, After(c, birth, calls, n), now) == Refilled(c, AfterWithoutPeeks(c, birth, calls, n), now)
  {
    if n > 0 {
      var t := calls[n - 1].now;
      PeeksDoNotShow(c, birth, calls, n - 1, t);
      if calls[n - 1].Peek? {
        PeeksDoNotShow(c, birth, calls, n - 1, now);
        EarnedIsMonotone(c, t, now);
        CutsOffInTokens(c, After(c, birth, calls, n - 1), t, now);
        PeekShowsIff(c, After(c, birth, calls, n - 1), t, now);
      }
    }
  }

  /** Peeks never change a later decision. */
  lemma PeeksNeverChangeDecisions(c: Config, birth: real, calls: seq<Call>, n: nat)
    requires c.rate >= 0.0 && Monotone(birth, calls) && n < |calls|
    ensures Admitted(c, birth, calls, n) == Admits(c, AfterWithoutPeeks(c, birth, calls, n), calls[n])
  {
    PeeksDoNotShow(c, birth, calls, n, calls[n].now);
  }
}
