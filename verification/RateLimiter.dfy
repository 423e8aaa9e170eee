/** The token bucket over real arithmetic: exactly which calls it grants. */
module RateLimiter {

  /** `refill` is in tokens per second, `last` the time of the last refill. */
  datatype Bucket = Bucket(tokens: real, max: real, refill: real, last: real)

  function Fresh(burst: int, refill: real, now: real): Bucket {
    Bucket(burst as real, burst as real, refill, now)
  }

  function Rate(b: Bucket): real {
    if b.refill <= 0.0 then 0.0 else b.refill
  }

  function Refilled(b: Bucket, now: real): Bucket {
    if b.refill <= 0.0 then b
    else
      var tokens := b.tokens + (now - b.last) * b.refill;
      b.(tokens := if tokens > b.max then b.max else tokens, last := now)
  }

  predicate Grants(b: Bucket, now: real) {
    b.max <= 0.0 || Refilled(b, now).tokens >= 1.0
  }

  function AfterAllow(b: Bucket, now: real): Bucket {
    if b.max <= 0.0 then b
    else
      var r := Refilled(b, now);
      if r.tokens >= 1.0 then r.(tokens := r.tokens - 1.0) else r
  }

  // ---------------------------------------------------------------- Runs

  /** The bucket before call `n` of a run at the given times. */
  function Before(b: Bucket, times: seq<real>, n: nat): Bucket
    requires n <= |times|
  {
    if n == 0 then b else AfterAllow(Before(b, times, n - 1), times[n - 1])
  }

  predicate Granted(b: Bucket, times: seq<real>, n: nat)
    requires n < |times|
  {
    Grants(Before(b, times, n), times[n])
  }

  /** How many of the calls from `i` up to but not including `j` are granted. */
  function Count(b: Bucket, times: seq<real>, i: nat, j: nat): nat
    requires j <= |times|
    decreases j
  {
    if j <= i then 0 else Count(b, times, i, j - 1) + if Granted(b, times, j - 1) then 1 else 0
  }

  lemma {:induction false} Unchanged(b: Bucket, times: seq<real>, n: nat)
    requires n <= |times|
    ensures var c := Before(b, times, n); c.max == b.max && c.refill == b.refill
    ensures b.max > 0.0 && b.refill > 0.0 && n > 0 ==> Before(b, times, n).last == times[n - 1]
  {
    if n > 0 { Unchanged(b, times, n - 1); }
  }

  /** What the rate yields up to a time. */
  function Earned(b: Bucket, time: real): real {
    Rate(b) * time
  }

  lemma EarnedElapsed(b: Bucket, x: real, y: real)
    ensures Rate(b) * (y - x) == Earned(b, y) - Earned(b, x)
    ensures x <= y ==> Earned(b, x) <= Earned(b, y)
  {
  }

  /** The number of granted calls, 0 or 1, as a change of the level. */
  function Spent(b: Bucket, times: seq<real>, n: nat): real
    requires n < |times|
  {
    if Granted(b, times, n) then 1.0 else 0.0
  }

  /** What the calls from `i` on leave of burst and refill at the time of call `n`. */
  function Slack(b: Bucket, times: seq<real>, i: nat, n: nat): real
    requires i <= n < |times|
  {
    b.max + (Earned(b, times[n]) - Earned(b, times[i])) - Count(b, times, i, n) as real
  }

  lemma CountNext(b: Bucket, times: seq<real>, i: nat, n: nat)
    requires i <= n < |times|
    ensures Count(b, times, i, n + 1) as real == Count(b, times, i, n) as real + Spent(b, times, n)
  {
  }

  lemma SlackNext(b: Bucket, times: seq<real>, i: nat, n: nat)
    requires i <= n && n + 1 < |times|
    ensures Slack(b, times, i, n + 1) ==
            Slack(b, times, i, n) + (Earned(b, times[n + 1]) - Earned(b, times[n])) - Spent(b, times, n)
  {
    CountNext(b, times, i, n);
  }

  /** The tokens at the time of a call. */
  function Tokens(b: Bucket, times: seq<real>, n: nat): real
    requires n < |times|
  {
    Refilled(Before(b, times, n), times[n]).tokens
  }

  lemma TokensNext(b: Bucket, times: seq<real>, n: nat)
    requires b.max > 0.0 && n + 1 < |times|
    ensures var t := Tokens(b, times, n) + (Earned(b, times[n + 1]) - Earned(b, times[n])) - Spent(b, times, n);
            Tokens(b, times, n + 1) == if b.refill > 0.0 && t > b.max then b.max else t
  {
    Unchanged(b, times, n);
    Unchanged(b, times, n + 1);
    EarnedElapsed(b, times[n], times[n + 1]);
  }

  ghost predicate LeastSlack(b: Bucket, times: seq<real>, n: nat, t: real)
    requires n < |times|
  {
    (forall i: nat | i <= n :: t <= Slack(b, times, i, n)) && exists i: nat | i <= n :: t == Slack(b, times, i, n)
  }

  lemma LeastNext(b: Bucket, times: seq<real>, n: nat, t: real, u: real)
    requires n + 1 < |times| && LeastSlack(b, times, n, t)
    requires var v := t + (Earned(b, times[n + 1]) - Earned(b, times[n])) - Spent(b, times, n);
             u == v <= b.max || u == b.max <= v
    ensures LeastSlack(b, times, n + 1, u)
  {
    var m := n + 1;
    forall i: nat | i <= m ensures u <= Slack(b, times, i, m) {
      if i <= n { SlackNext(b, times, i, n); }
    }
    var i: nat :| i <= n && t == Slack(b, times, i, n);
    SlackNext(b, times, i, n);
    assert u == Slack(b, times, i, m) || u == Slack(b, times, m, m);
  }

  /** The tokens are the least slack over all windows that end at the call. */
  lemma {:induction false} TokensAreLeastSlack(burst: int, refill: real, start: real, times: seq<real>, n: nat)
    requires burst > 0 && n < |times| && times[0] >= start
    ensures var b := Fresh(burst, refill, start); LeastSlack(b, times, n, Tokens(b, times, n))
  {
    var b := Fresh(burst, refill, start);
    if n == 0 {
      FullAtStart(b, times[0]);
      assert Slack(b, times, 0, 0) == b.max;
    } else {
      TokensAreLeastSlack(burst, refill, start, times, n - 1);
      TokensNext(b, times, n - 1);
      assert Tokens(b, times, n - 1) <= Slack(b, times, n - 1, n - 1);
      LeastNext(b, times, n - 1, Tokens(b, times, n - 1), Tokens(b, times, n));
    }
  }

  lemma FullAtStart(b: Bucket, now: real)
    requires b.tokens == b.max && now >= b.last
    ensures Refilled(b, now).tokens == b.max
  {
    if b.refill > 0.0 { assert (now - b.last) * b.refill >= 0.0; }
  }

  /** Granting call `n` keeps the window from call `i` within burst plus rate times elapsed time. */
  predicate Within(b: Bucket, times: seq<real>, i: nat, n: nat)
    requires i <= n < |times|
  {
    Count(b, times, i, n) as real + 1.0 <= b.max + Rate(b) * (times[n] - times[i])
  }

  lemma WithinIs(b: Bucket, times: seq<real>, i: nat, n: nat)
    requires i <= n < |times|
    ensures Within(b, times, i, n) <==> Slack(b, times, i, n) >= 1.0
  {
    EarnedElapsed(b, times[i], times[n]);
  }

  /** A call is granted exactly when granting it keeps every window that ends with it within
      burst plus rate times elapsed time. */
  lemma GrantedIff(burst: int, refill: real, start: real, times: seq<real>, n: nat)
    requires burst > 0 && n < |times| && times[0] >= start
    ensures var b := Fresh(burst, refill, start);
            Granted(b, times, n) <==> forall i: nat | i <= n :: Within(b, times, i, n)
  {
    var b := Fresh(burst, refill, start);
    TokensAreLeastSlack(burst, refill, start, times, n);
    Unchanged(b, times, n);
    forall i: nat | i <= n ensures Within(b, times, i, n) <==> Slack(b, times, i, n) >= 1.0 {
      WithinIs(b, times, i, n);
    }
    assert Granted(b, times, n) <==> Tokens(b, times, n) >= 1.0;
  }

  predicate Monotone(times: seq<real>) {
    forall i, j | 0 <= i <= j < |times| :: times[i] <= times[j]
  }

  lemma {:induction false} WindowEarned(burst: int, refill: real, start: real, times: seq<real>, i: nat, j: nat)
    requires burst > 0 && i <= j < |times| && times[0] >= start && Monotone(times)
    ensures var b := Fresh(burst, refill, start);
            Count(b, times, i, j + 1) as real <= b.max + (Earned(b, times[j]) - Earned(b, times[i]))
    decreases j
  {
    var b := Fresh(burst, refill, start);
    CountNext(b, times, i, j);
    if Granted(b, times, j) {
      TokensAreLeastSlack(burst, refill, start, times, j);
      Unchanged(b, times, j);
      assert 1.0 <= Tokens(b, times, j) <= Slack(b, times, i, j);
    } else if i < j {
      WindowEarned(burst, refill, start, times, i, j - 1);
      EarnedElapsed(b, times[j - 1], times[j]);
    }
  }

  /** Between any two calls of a run, both included, at most burst plus rate times elapsed time
      are granted. */
  lemma WindowBound(burst: int, refill: real, start: real, times: seq<real>, i: nat, j: nat)
    requires burst > 0 && i <= j < |times| && times[0] >= start && Monotone(times)
    ensures var b := Fresh(burst, refill, start);
            Count(b, times, i, j + 1) as real <= burst as real + Rate(b) * (times[j] - times[i])
  {
    WindowEarned(burst, refill, start, times, i, j);
    EarnedElapsed(Fresh(burst, refill, start), times[i], times[j]);
  }

  lemma {:induction false} NoCapacityNoLimit(burst: int, refill: real, start: real, times: seq<real>, n: nat)
    requires burst <= 0 && n < |times|
    ensures Granted(Fresh(burst, refill, start), times, n)
  {
    Unchanged(Fresh(burst, refill, start), times, n);
  }

  /** Without a refill every call takes a token until the burst is used up. */
  lemma {:induction false} TokensRunOut(burst: int, refill: real, start: real, times: seq<real>, n: nat)
    requires burst > 0 && refill <= 0.0 && n <= |times|
    ensures Before(Fresh(burst, refill, start), times, n).tokens == (if n < burst then burst - n else 0) as real
  {
    if n > 0 {
      TokensRunOut(burst, refill, start, times, n - 1);
      Unchanged(Fresh(burst, refill, start), times, n - 1);
    }
  }

  /** Without a refill a call is granted exactly when there is no capacity at all or the call is one
      of the first `burst`, whatever the clock does. */
  lemma GrantedWithoutRefill(burst: int, refill: real, start: real, times: seq<real>, n: nat)
    requires refill <= 0.0 && n < |times|
    ensures Granted(Fresh(burst, refill, start), times, n) <==> burst <= 0 || n < burst
  {
    if burst <= 0 {
      NoCapacityNoLimit(burst, refill, start, times, n);
    } else {
      TokensRunOut(burst, refill, start, times, n);
      Unchanged(Fresh(burst, refill, start), times, n);
    }
  }

  /** The first call that a rate of zero refuses. */
  lemma ZeroRateRefuses(burst: nat, start: real, times: seq<real>)
    requires 0 < burst < |times|
    ensures !Granted(Fresh(burst, 0.0, start), times, burst)
  {
    GrantedWithoutRefill(burst, 0.0, start, times, burst);
  }

  /** A rate of zero limits nothing exactly when there is no capacity or the run is no longer than
      the burst. */
  lemma ZeroRateUnlimitedIff(burst: int, start: real, times: seq<real>)
    ensures (forall n: nat | n < |times| :: Granted(Fresh(burst, 0.0, start), times, n)) <==>
            burst <= 0 || |times| <= burst
  {
    forall n: nat | n < |times|
      ensures Granted(Fresh(burst, 0.0, start), times, n) <==> burst <= 0 || n < burst
    {
      GrantedWithoutRefill(burst, 0.0, start, times, n);
    }
    if 0 < burst < |times| { ZeroRateRefuses(burst, start, times); }
  }

  class Limiter {
    var tokens: real
    var max: real
    var refill: real
    var last: real

    ghost function Now(): Bucket
      reads this
    {
      Bucket(tokens, max, refill, last)
    }

    constructor (burst: int, refill: real, now: real)
      ensures Now() == Fresh(burst, refill, now)
    {
      tokens, max, this.refill, last := burst as real, burst as real, refill, now;
    }

    method RefillTokens(now: real)
      modifies this
      ensures Now() == Refilled(old(Now()), now)
    {
      if refill <= 0.0 { return; }
      tokens := tokens + (now - last) * refill;
      if tokens > max { tokens := max; }
      last := now;
    }

    method Allow(now: real) returns (ok: bool)
      modifies this
      ensures ok == Grants(old(Now()), now) && Now() == AfterAllow(old(Now()), now)
    {
      if max <= 0.0 { return true; }
      RefillTokens(now);
      if tokens >= 1.0 {
        tokens := tokens - 1.0;
        return true;
      }
      return false;
    }
  }
}
