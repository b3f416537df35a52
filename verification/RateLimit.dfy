/** `RateLimiter` (benchmarks/disagg_benchmarks/rate_limiter.py). */
module RateLimit {
  datatype Bucket = Bucket(rate: int, available: int, lastRefill: real)

  function Refilled(b: Bucket, now: real): Bucket {
    if now - b.lastRefill > 1.0 then b.(available := b.rate, lastRefill := now) else b
  }

  /** One pass through the critical section at time `now`: whether a token was granted, and the bucket after it. */
  function Attempt(b: Bucket, now: real): (bool, Bucket) {
    var r := Refilled(b, now);
    if r.available > 0 then (true, r.(available := r.available - 1)) else (false, r)
  }

  predicate Good(b: Bucket) {
    b.rate >= 1 && 0 <= b.available <= b.rate
  }

  class RateLimiter {
    const rateLimit: int
    var numAvailableTokens: int
    var lastRefill: real

    function Value(): Bucket
      reads this
    {
      Bucket(rateLimit, numAvailableTokens, lastRefill)
    }

    constructor (rateLimit: int, now: real)
      ensures Value() == Bucket(rateLimit, rateLimit, now)
    {
      this.rateLimit, numAvailableTokens, lastRefill := rateLimit, rateLimit, now;
    }

    /** The body of `acquire`'s loop. With a positive rate it keeps the tokens within 0..rate, grants whenever
        more than a second has passed since the last refill, and otherwise asks for a wait of at most a second,
        until then. */
    method TryAcquire(now: real) returns (granted: bool, wait: real)
      modifies this
      ensures (granted, Value()) == Attempt(old(Value()), now)
      ensures Good(old(Value())) ==> Good(Value())
      ensures Good(old(Value())) && now - old(lastRefill) > 1.0 ==> granted
      ensures Good(old(Value())) && !granted && old(lastRefill) <= now ==>
                0.0 <= wait <= 1.0 && now + wait == lastRefill + 1.0
    {
      var elapsed := now - lastRefill;
      if elapsed > 1.0 {
        numAvailableTokens, lastRefill := rateLimit, now;
      }
      if numAvailableTokens > 0 {
        numAvailableTokens := numAvailableTokens - 1;
        return true, 0.0;
      }
      return false, 1.0 - elapsed;
    }
  }

  // ----- Runs: the times of all attempts, by any number of acquirers, in the order they got the lock

  predicate Ascending(times: seq<real>) {
    forall i, j :: 0 <= i < j < |times| ==> times[i] <= times[j]
  }

  function After(b: Bucket, times: seq<real>): Bucket
    decreases |times|
  {
    if times == [] then b else After(Attempt(b, times[0]).1, times[1..])
  }

  function Granted(b: Bucket, times: seq<real>): nat
    decreases |times|
  {
    if times == [] then 0 else (if Attempt(b, times[0]).0 then 1 else 0) + Granted(Attempt(b, times[0]).1, times[1..])
  }

  lemma {:induction false} StaysGood(b: Bucket, times: seq<real>)
    requires Good(b)
    ensures Good(After(b, times)) && After(b, times).rate == b.rate
    decreases |times|
  {
    if times != [] {
      StaysGood(Attempt(b, times[0]).1, times[1..]);
    }
  }

  lemma {:induction false} RunSplits(b: Bucket, before: seq<real>, window: seq<real>)
    ensures Granted(b, before + window) == Granted(b, before) + Granted(After(b, before), window)
    decreases |before|
  {
    if before == [] {
      assert before + window == window;
    } else {
      assert (before + window)[1..] == before[1..] + window;
      RunSplits(Attempt(b, before[0]).1, before[1..], window);
    }
  }

  predicate Within(times: seq<real>, from: real, to: real) {
    forall i :: 0 <= i < |times| ==> from <= times[i] <= to
  }

  /** In a window of at most a second there is at most one refill. */
  lemma {:induction false} WindowGrants(b: Bucket, times: seq<real>, from: real)
    requires Good(b) && Within(times, from, from + 1.0)
    ensures Granted(b, times) <= b.available + if b.lastRefill >= from then 0 else b.rate
    decreases |times|
  {
    if times != [] {
      var b1 := Attempt(b, times[0]).1;
      WindowGrants(b1, times[1..], from);
    }
  }

  /** The most that a window of one second from `from` on can grant: the tokens left and a refill's worth, unless
      the last refill is too recent for another one, or so old that the first attempt refills. */
  function MostInWindow(b: Bucket, from: real): int {
    if b.lastRefill >= from then b.available
    else if b.lastRefill + 1.0 < from then b.rate
    else b.available + b.rate
  }

  lemma {:induction false} WindowAtMost(b: Bucket, window: seq<real>, from: real)
    requires Good(b) && Within(window, from, from + 1.0)
    ensures Granted(b, window) <= MostInWindow(b, from)
  {
    if window != [] {
      WindowGrants(Attempt(b, window[0]).1, window[1..], from);
    }
    WindowGrants(b, window, from);
  }

  /** A window that grants that many: take what is left at its start and, where a refill is still to come, all of
      that at its end. */
  lemma {:induction false} WindowReached(b: Bucket, from: real) returns (window: seq<real>)
    requires Good(b)
    ensures Ascending(window) && Within(window, from, from + 1.0) && Granted(b, window) == MostInWindow(b, from)
  {
    if b.lastRefill + 1.0 < from {
      window := Repeat(from, b.rate);
      Drain(b, from, b.rate);
    } else if b.lastRefill >= from {
      window := Repeat(from + 1.0, b.available);
      Drain(b, from + 1.0, b.available);
    } else {
      window := Repeat(from, b.available) + Repeat(from + 1.0, b.rate);
      Drain(b, from, b.available);
      RunSplits(b, Repeat(from, b.available), Repeat(from + 1.0, b.rate));
      Drain(b.(available := 0), from + 1.0, b.rate);
    }
  }

  /** Whatever happened before, any window of at most one second grants at most twice the rate. */
  lemma {:induction false} AnyWindow(b: Bucket, before: seq<real>, window: seq<real>, from: real)
    requires Good(b) && Within(window, from, from + 1.0)
    ensures Granted(b, before + window) - Granted(b, before) <= MostInWindow(After(b, before), from) <= 2 * b.rate
  {
    RunSplits(b, before, window);
    StaysGood(b, before);
    WindowAtMost(After(b, before), window, from);
  }

  /** Every window of one second stays within the rate if and only if, when it begins, no token is left, or the
      last refill is not before it, or that refill is more than a second back. */
  lemma {:induction false} RateHoldsIff(b: Bucket, before: seq<real>, from: real)
    requires Good(b)
    ensures (forall window :: Ascending(window) && Within(window, from, from + 1.0) ==>
                                Granted(b, before + window) - Granted(b, before) <= b.rate)
            <==> var c := After(b, before); c.available == 0 || c.lastRefill >= from || c.lastRefill + 1.0 < from
  {
    StaysGood(b, before);
    forall window | Within(window, from, from + 1.0)
      ensures Granted(b, before + window) - Granted(b, before) <= MostInWindow(After(b, before), from)
    {
      AnyWindow(b, before, window, from);
    }
    var window := WindowReached(After(b, before), from);
    RunSplits(b, before, window);
  }

  /** Twice the rate really happens within an arbitrarily short window: after one second but for `eps` of silence. */
  lemma {:induction false} TwiceTheRateHappens(rate: nat, eps: real)
    requires rate >= 1 && 0.0 < eps <= 1.0
    ensures var window := Repeat(1.0 - eps / 2.0, rate) + Repeat(1.0 + eps / 2.0, rate);
            && Within(window, 1.0 - eps / 2.0, 1.0 + eps / 2.0) && Ascending(window)
            && Granted(Bucket(rate, rate, 0.0), window) == 2 * rate
  {
    var b := Bucket(rate, rate, 0.0);
    var early, late := 1.0 - eps / 2.0, 1.0 + eps / 2.0;
    Drain(b, early, rate);
    RunSplits(b, Repeat(early, rate), Repeat(late, rate));
    Drain(Bucket(rate, rate, late), late, rate);
  }

  function Repeat(t: real, n: nat): (ts: seq<real>)
    ensures |ts| == n && forall i :: 0 <= i < n ==> ts[i] == t
  {
    seq(n, _ => t)
  }

  /** As many attempts at one moment as there are tokens then. */
  lemma {:induction false} Drain(b: Bucket, t: real, n: nat)
    requires Refilled(b, t).available == n
    ensures Granted(b, Repeat(t, n)) == n
    ensures n > 0 ==> After(b, Repeat(t, n)) == Refilled(b, t).(available := 0)
    decreases n
  {
    if n > 0 {
      assert Repeat(t, n)[1..] == Repeat(t, n - 1);
      Drain(Attempt(b, t).1, t, n - 1);
    }
  }

  /** The number of refills during a run. */
  function Refills(b: Bucket, times: seq<real>): nat
    decreases |times|
  {
    if times == [] then 0
    else (if times[0] - b.lastRefill > 1.0 then 1 else 0) + Refills(Attempt(b, times[0]).1, times[1..])
  }

  lemma {:induction false} RefillsAreRare(b: Bucket, times: seq<real>, until: real)
    requires Good(b) && b.lastRefill <= until && forall i :: 0 <= i < |times| ==> times[i] <= until
    ensures Refills(b, times) as real <= until - b.lastRefill
    ensures Granted(b, times) <= b.available + b.rate * Refills(b, times)
    decreases |times|
  {
    if times != [] {
      var b1 := Attempt(b, times[0]).1;
      RefillsAreRare(b1, times[1..], until);
      assert b.rate * (Refills(b1, times[1..]) + 1) == b.rate * Refills(b1, times[1..]) + b.rate;
    }
  }

  lemma {:induction false} ScaleBound(rate: nat, k: nat, d: real)
    requires k as real <= d
    ensures (rate * k) as real <= rate as real * d
  {
  }

  /** Within `d` seconds of construction at most `rate * (1 + d)` tokens are granted. */
  lemma LongRunBound(rate: nat, start: real, times: seq<real>, d: real)
    requires rate >= 1 && d >= 0.0 && forall i :: 0 <= i < |times| ==> times[i] <= start + d
    ensures Granted(Bucket(rate, rate, start), times) as real <= rate as real * (1.0 + d)
  {
    var b := Bucket(rate, rate, start);
    RefillsAreRare(b, times, start + d);
    var k := Refills(b, times);
    ScaleBound(rate, k, d);
  }
}
