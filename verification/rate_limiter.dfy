/**
  * The per-user sliding-window rate limiter of utils.py. The wall clock
  * (`time.time()`) is the parameter `now`.
  */
module RateLimit {

  /**
    * The timestamps of `ts` that are still inside the window at `now`
    * (`now - t < window`), in their original order.
    */
  function Recent(ts: seq<real>, now: real, window: real): (r: seq<real>)
    ensures |r| <= |ts|
    ensures forall i :: 0 <= i < |r| ==> now - r[i] < window
    ensures forall i :: 0 <= i < |ts| && now - ts[i] < window ==> ts[i] in r
  {
    if ts == [] then []
    else
      var init, last := ts[..|ts| - 1], ts[|ts| - 1];
      assert ts == init + [last];
      var kept := Recent(init, now, window);
      if now - last < window then kept + [last] else kept
  }

  /** The filter adds nothing: every kept timestamp is one of the input's, kept no more often. */
  lemma {:induction false} RecentSubMultiset(ts: seq<real>, now: real, window: real)
    ensures multiset(Recent(ts, now, window)) <= multiset(ts)
  {
    if ts != [] {
      var init := ts[..|ts| - 1];
      assert ts == init + [ts[|ts| - 1]];
      RecentSubMultiset(init, now, window);
    }
  }

  /** Filtering a list in two parts is filtering each part: the order of the kept timestamps is kept. */
  lemma {:induction false} RecentConcat(a: seq<real>, b: seq<real>, now: real, window: real)
    ensures Recent(a + b, now, window) == Recent(a, now, window) + Recent(b, now, window)
    decreases |b|
  {
    if b != [] {
      var init := b[..|b| - 1];
      assert (a + b)[..|a + b| - 1] == a + init;
      RecentConcat(a, init, now, window);
    } else {
      assert a + b == a;
    }
  }

  /** Filtering again at the same instant drops nothing more. */
  lemma {:induction false} RecentIdempotent(ts: seq<real>, now: real, window: real)
    ensures Recent(Recent(ts, now, window), now, window) == Recent(ts, now, window)
  {
    if ts != [] {
      var init := ts[..|ts| - 1];
      RecentIdempotent(init, now, window);
      var kept := Recent(init, now, window);
      if now - ts[|ts| - 1] < window {
        assert (kept + [ts[|ts| - 1]])[..|kept|] == kept;
      }
    }
  }

  function Max0(n: int): nat { if n < 0 then 0 else n }

  class RateLimiter {
    const maxRequests: int
    const windowSeconds: int
    /** `self.requests`: per user, the timestamps of the requests it let through. */
    var requests: map<int, seq<real>>

    /** No user's list is longer than the limit (none at all when the limit is not positive). */
    ghost predicate Valid()
      reads this
    {
      forall u :: u in requests ==> |requests[u]| <= Max0(maxRequests)
    }

    constructor (maxRequests: int, windowSeconds: int)
      ensures Valid()
      ensures this.maxRequests == maxRequests && this.windowSeconds == windowSeconds
      ensures requests == map[]
    {
      this.maxRequests := maxRequests;
      this.windowSeconds := windowSeconds;
      requests := map[];
    }

    /**
      * `is_allowed`: drop the user's timestamps that left the window, then let
      * the request through, recording `now`, iff fewer than `maxRequests` remain.
      * No other user's list changes.
      */
    method IsAllowed(userId: int, now: real) returns (allowed: bool)
      requires Valid()
      modifies this
      ensures Valid()
      ensures var kept := Recent(if userId in old(requests) then old(requests)[userId] else [], now, windowSeconds as real);
        && allowed == (|kept| < maxRequests)
        && requests == old(requests)[userId := if allowed then kept + [now] else kept]
    {
      if userId !in requests {
        requests := requests[userId := []];
      }
      var kept := Recent(requests[userId], now, windowSeconds as real);
      requests := requests[userId := kept];
      if |kept| < maxRequests {
        requests := requests[userId := kept + [now]];
        allowed := true;
      } else {
        allowed := false;
      }
    }

    /**
      * `get_remaining`: an unknown user gets the full allowance and no entry;
      * a known user's list is filtered as in `IsAllowed` and the room left in
      * it, never negative, is returned.
      */
    method GetRemaining(userId: int, now: real) returns (remaining: int)
      requires Valid()
      modifies this
      ensures Valid()
      ensures userId !in old(requests) ==> remaining == maxRequests && requests == old(requests)
      ensures userId in old(requests) ==>
        var kept := Recent(old(requests)[userId], now, windowSeconds as real);
        && requests == old(requests)[userId := kept]
        && remaining == Max0(maxRequests - |kept|)
      ensures maxRequests >= 0 ==> 0 <= remaining <= maxRequests
    {
      if userId !in requests {
        return maxRequests;
      }
      requests := requests[userId := Recent(requests[userId], now, windowSeconds as real)];
      remaining := Max0(maxRequests - |requests[userId]|);
    }
  }
}
