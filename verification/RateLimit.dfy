// internal/api/ratelimit.go: a fixed window per client with an opportunistic sweep.
// Times are nanoseconds of a clock that never runs backwards.
module RateLimit {

  const MINUTE: int := 60000000000
  const SWEEP_THRESHOLD: int := 1024

  datatype RateBucket = RateBucket(count: int, windowStart: int)

  type Buckets = map<string, RateBucket>

  predicate Elapsed(b: RateBucket, now: int) {
    now - b.windowStart >= MINUTE
  }

  function Swept(bs: Buckets, now: int): Buckets {
    map k | k in bs && !(bs[k].windowStart < now - 2 * MINUTE) :: bs[k]
  }

  predicate Opens(bs: Buckets, key: string, now: int) {
    key !in bs || Elapsed(bs[key], now)
  }

  function AllowSpec(bs: Buckets, limit: int, key: string, now: int): (Buckets, bool) {
    if Opens(bs, key, now) then
      var grown := bs[key := RateBucket(1, now)];
      (if |grown| > SWEEP_THRESHOLD then Swept(grown, now) else grown, true)
    else if bs[key].count >= limit then (bs, false)
    else (bs[key := RateBucket(bs[key].count + 1, bs[key].windowStart)], true)
  }

  class RateLimitMiddleware {
    const limitPerMinute: int
    var buckets: Buckets

    constructor (limitPerMinute: int)
      ensures this.limitPerMinute == limitPerMinute && buckets == map[]
    {
      this.limitPerMinute := limitPerMinute;
      buckets := map[];
    }

    // Wrap: a limit of zero or less disables limiting.
    method Serve(key: string, now: int) returns (ok: bool)
      modifies this
      ensures limitPerMinute <= 0 ==> ok && buckets == old(buckets)
      ensures limitPerMinute > 0 ==> (buckets, ok) == AllowSpec(old(buckets), limitPerMinute, key, now)
    {
      if limitPerMinute <= 0 {
        return true;
      }
      ok := Allow(key, now);
    }

    method Allow(key: string, now: int) returns (ok: bool)
      modifies this
      ensures (buckets, ok) == AllowSpec(old(buckets), limitPerMinute, key, now)
      // Whatever outlives a sweep began within the last two minutes.
      ensures Opens(old(buckets), key, now) && |old(buckets)[key := RateBucket(1, now)]| > SWEEP_THRESHOLD ==>
        forall k :: k in buckets ==> now - buckets[k].windowStart <= 2 * MINUTE
    {
      if key !in buckets || now - buckets[key].windowStart >= MINUTE {
        buckets := buckets[key := RateBucket(1, now)];
        if |buckets| > SWEEP_THRESHOLD {
          Sweep(now);
        }
        return true;
      }
      if buckets[key].count >= limitPerMinute {
        return false;
      }
      buckets := buckets[key := RateBucket(buckets[key].count + 1, buckets[key].windowStart)];
      return true;
    }

    // The deleting loop, in whatever order the map yields its keys.
    method Sweep(now: int)
      modifies this
      ensures buckets == Swept(old(buckets), now)
      ensures forall k :: k in buckets <==> k in old(buckets) && now - old(buckets)[k].windowStart <= 2 * MINUTE
    {
      var cutoff := now - 2 * MINUTE;
      var todo := buckets.Keys;
      while todo != {}
        invariant todo <= buckets.Keys <= old(buckets).Keys
        invariant forall k :: k in buckets ==> buckets[k] == old(buckets)[k]
        invariant forall k :: k in old(buckets) && k !in todo ==>
          (k in buckets <==> !(old(buckets)[k].windowStart < cutoff))
        decreases todo
      {
        var k :| k in todo;
        if buckets[k].windowStart < cutoff {
          buckets := buckets - {k};
        }
        todo := todo - {k};
      }
    }
  }

  // ----- Runs -----

  datatype Request = Request(key: string, at: int)

  ghost predicate Ordered(reqs: seq<Request>) {
    forall i, j :: 0 <= i < j < |reqs| ==> reqs[i].at <= reqs[j].at
  }

  // The buckets after serving the requests in turn from an empty middleware.
  function After(limit: int, reqs: seq<Request>): Buckets {
    if reqs == [] then map[]
    else
      var last := reqs[|reqs| - 1];
      AllowSpec(After(limit, reqs[..|reqs| - 1]), limit, last.key, last.at).0
  }

  // The answer to the last request.
  predicate Allowed(limit: int, reqs: seq<Request>)
    requires reqs != []
  {
    var last := reqs[|reqs| - 1];
    AllowSpec(After(limit, reqs[..|reqs| - 1]), limit, last.key, last.at).1
  }

  // How many requests of a key were allowed at times in [lo, hi).
  function AllowedIn(limit: int, reqs: seq<Request>, key: string, lo: int, hi: int): nat {
    if reqs == [] then 0
    else
      var last := reqs[|reqs| - 1];
      AllowedIn(limit, reqs[..|reqs| - 1], key, lo, hi)
      + if last.key == key && lo <= last.at < hi && Allowed(limit, reqs) then 1 else 0
  }

  // ----- One key on its own, without map or sweep -----

  datatype Window = NoWindow | Window(count: int, start: int)

  function OwnNext(w: Window, limit: int, now: int): Window {
    if w.NoWindow? || now - w.start >= MINUTE then Window(1, now)
    else if w.count >= limit then w
    else Window(w.count + 1, w.start)
  }

  predicate OwnAllows(w: Window, limit: int, now: int) {
    w.NoWindow? || now - w.start >= MINUTE || w.count < limit
  }

  function OwnWindow(limit: int, times: seq<int>): Window {
    if times == [] then NoWindow else OwnNext(OwnWindow(limit, times[..|times| - 1]), limit, times[|times| - 1])
  }

  predicate OwnAllowed(limit: int, times: seq<int>)
    requires times != []
  {
    OwnAllows(OwnWindow(limit, times[..|times| - 1]), limit, times[|times| - 1])
  }

  function OwnAllowedIn(limit: int, times: seq<int>, lo: int, hi: int): nat {
    if times == [] then 0
    else
      var now := times[|times| - 1];
      OwnAllowedIn(limit, times[..|times| - 1], lo, hi)
      + if lo <= now < hi && OwnAllowed(limit, times) then 1 else 0
  }

  function OwnTimes(reqs: seq<Request>, key: string): seq<int> {
    if reqs == [] then []
    else
      var last := reqs[|reqs| - 1];
      var before := OwnTimes(reqs[..|reqs| - 1], key);
      if last.key == key then before + [last.at] else before
  }

  // ----- The sweep is invisible -----

  // What the map holds for a key stands for the key's own window; a swept key's
  // window has run out.
  predicate Stands(bs: Buckets, key: string, w: Window, now: int) {
    if key in bs then w == Window(bs[key].count, bs[key].windowStart)
    else w.NoWindow? || now - w.start >= MINUTE
  }

  lemma ServeStands(bs: Buckets, limit: int, served: string, now: int, key: string, w: Window)
    requires Stands(bs, key, w, now)
    ensures Stands(AllowSpec(bs, limit, served, now).0, key, if served == key then OwnNext(w, limit, now) else w, now)
    ensures served == key ==> AllowSpec(bs, limit, served, now).1 == OwnAllows(w, limit, now)
  {
  }

  lemma OwnTimesOfLast(reqs: seq<Request>)
    requires reqs != []
    ensures var last := reqs[|reqs| - 1];
      var times := OwnTimes(reqs, last.key);
      times != [] && times[|times| - 1] == last.at && times[..|times| - 1] == OwnTimes(reqs[..|reqs| - 1], last.key)
  {
  }

  lemma {:induction false} MapStandsForWindows(limit: int, reqs: seq<Request>, key: string, now: int)
    requires Ordered(reqs) && (reqs != [] ==> reqs[|reqs| - 1].at <= now)
    ensures Stands(After(limit, reqs), key, OwnWindow(limit, OwnTimes(reqs, key)), now)
  {
    if reqs != [] {
      var before, last := reqs[..|reqs| - 1], reqs[|reqs| - 1];
      MapStandsForWindows(limit, before, key, last.at);
      ServeStands(After(limit, before), limit, last.key, last.at, key, OwnWindow(limit, OwnTimes(before, key)));
      OwnTimesOfLast(reqs);
    }
  }

  // The limiter with its map and sweep answers every request as the key's own
  // window would, whatever the other keys do.
  lemma {:induction false} SweepInvisible(limit: int, reqs: seq<Request>)
    requires reqs != [] && Ordered(reqs)
    ensures var key := reqs[|reqs| - 1].key;
      OwnTimes(reqs, key) != [] && Allowed(limit, reqs) == OwnAllowed(limit, OwnTimes(reqs, key))
  {
    var before, last := reqs[..|reqs| - 1], reqs[|reqs| - 1];
    MapStandsForWindows(limit, before, last.key, last.at);
    ServeStands(After(limit, before), limit, last.key, last.at, last.key, OwnWindow(limit, OwnTimes(before, last.key)));
    OwnTimesOfLast(reqs);
  }

  lemma {:induction false} AllowedInOwn(limit: int, reqs: seq<Request>, key: string, lo: int, hi: int)
    requires Ordered(reqs)
    ensures AllowedIn(limit, reqs, key, lo, hi) == OwnAllowedIn(limit, OwnTimes(reqs, key), lo, hi)
  {
    if reqs != [] {
      AllowedInOwn(limit, reqs[..|reqs| - 1], key, lo, hi);
      SweepInvisible(limit, reqs);
      OwnTimesOfLast(reqs);
    }
  }

  // ----- The bound -----

  ghost predicate OrderedTimes(times: seq<int>) {
    forall i, j :: 0 <= i < j < |times| ==> times[i] <= times[j]
  }

  lemma {:induction false} OwnTimesOrdered(reqs: seq<Request>, key: string)
    requires Ordered(reqs)
    ensures OrderedTimes(OwnTimes(reqs, key))
    ensures forall i :: 0 <= i < |OwnTimes(reqs, key)| ==> OwnTimes(reqs, key)[i] <= reqs[|reqs| - 1].at
  {
    if reqs != [] {
      var before, last := reqs[..|reqs| - 1], reqs[|reqs| - 1];
      OwnTimesOrdered(before, key);
      assert before != [] ==> before[|before| - 1].at <= last.at;
    }
  }

  lemma {:induction false} OwnCountWithinLimit(limit: int, times: seq<int>)
    requires limit >= 1 && OrderedTimes(times)
    ensures var w := OwnWindow(limit, times);
      w.Window? ==> 1 <= w.count <= limit && times != [] && w.start <= times[|times| - 1] < w.start + MINUTE
    ensures times != [] ==> OwnWindow(limit, times).Window?
  {
    if times != [] {
      OwnCountWithinLimit(limit, times[..|times| - 1]);
    }
  }

  // How many requests can have been allowed in [lo, lo + MINUTE + slack), given
  // the current window. Slack 1 makes the interval closed.
  lemma {:induction false} OwnBound(limit: int, times: seq<int>, lo: int, slack: nat)
    requires limit >= 1 && slack <= 1 && OrderedTimes(times)
    ensures var w, n := OwnWindow(limit, times), OwnAllowedIn(limit, times, lo, lo + MINUTE + slack);
      if w.NoWindow? || times[|times| - 1] < lo then n == 0
      else if w.start < lo then n <= w.count - 1
      else if w.start == lo then n <= w.count
      else if w.start < lo + MINUTE + slack then n <= limit - 1 + slack + w.count
      else n <= 2 * limit - 1 + slack
  {
    if times != [] {
      var before, now := times[..|times| - 1], times[|times| - 1];
      OwnBound(limit, before, lo, slack);
      OwnCountWithinLimit(limit, before);
    }
  }

  lemma {:induction false} OwnTotal(limit: int, times: seq<int>, lo: int, slack: nat)
    requires limit >= 1 && slack <= 1 && OrderedTimes(times)
    ensures OwnAllowedIn(limit, times, lo, lo + MINUTE + slack) <= 2 * limit - 1 + slack
  {
    OwnCountWithinLimit(limit, times);
    OwnBound(limit, times, lo, slack);
  }

  // Every half-open minute sees at most 2 * limit - 1 allowed requests of a key,
  // every closed one at most 2 * limit.
  lemma {:induction false} AtMostTwiceTheLimit(limit: int, reqs: seq<Request>, key: string, lo: int)
    requires limit >= 1 && Ordered(reqs)
    ensures AllowedIn(limit, reqs, key, lo, lo + MINUTE) <= 2 * limit - 1
    ensures AllowedIn(limit, reqs, key, lo, lo + MINUTE + 1) <= 2 * limit
  {
    OwnTimesOrdered(reqs, key);
    OwnTotal(limit, OwnTimes(reqs, key), lo, 0);
    OwnTotal(limit, OwnTimes(reqs, key), lo, 1);
    AllowedInOwn(limit, reqs, key, lo, lo + MINUTE);
    AllowedInOwn(limit, reqs, key, lo, lo + MINUTE + 1);
  }

  // The window that the n-th request opens allows at most the limit.
  lemma {:induction false} WindowWithinLimit(limit: int, times: seq<int>, n: nat)
    requires limit >= 1 && OrderedTimes(times)
    requires 0 < n <= |times| && OwnWindow(limit, times[..n]) == Window(1, times[n - 1])
    ensures var start := times[n - 1];
      var w, allowed := OwnWindow(limit, times), OwnAllowedIn(limit, times, start, start + MINUTE);
      && allowed <= limit
      && w.Window? && (if w.start == start then allowed <= w.count else start + MINUTE <= w.start)
    decreases |times|
  {
    var start, before := times[n - 1], times[..|times| - 1];
    OwnCountWithinLimit(limit, times);
    if n == |times| {
      assert times[..n] == times;
      OwnBound(limit, times, start, 0);
    } else {
      assert before[..n] == times[..n];
      WindowWithinLimit(limit, before, n);
      OwnCountWithinLimit(limit, before);
    }
  }

  // ----- Exactly which requests are allowed -----

  // The request that opened the window the last one falls into: the first, and
  // after that the first one a minute or more after the last opening.
  function Opener(times: seq<int>): (n: nat)
    requires times != []
    ensures n < |times|
  {
    if |times| == 1 then 0
    else
      var n := Opener(times[..|times| - 1]);
      if times[|times| - 1] - times[n] >= MINUTE then |times| - 1 else n
  }

  lemma {:induction false} OpenerWindow(limit: int, times: seq<int>)
    requires limit >= 1 && times != []
    ensures var n := |times| - Opener(times);
      OwnWindow(limit, times) == Window(if n < limit then n else limit, times[Opener(times)])
    ensures OwnAllowed(limit, times) <==> |times| - 1 - Opener(times) < limit
  {
    if |times| > 1 {
      OpenerWindow(limit, times[..|times| - 1]);
    } else {
      assert times[..|times| - 1] == [];
    }
  }

  // A request is allowed exactly when fewer than limit earlier ones of its key
  // came since the window it falls into was opened.
  lemma {:induction false} AllowedIff(limit: int, reqs: seq<Request>)
    requires limit >= 1 && reqs != [] && Ordered(reqs)
    ensures var times := OwnTimes(reqs, reqs[|reqs| - 1].key);
      times != [] && (Allowed(limit, reqs) <==> |times| - 1 - Opener(times) < limit)
  {
    SweepInvisible(limit, reqs);
    OpenerWindow(limit, OwnTimes(reqs, reqs[|reqs| - 1].key));
  }

  // A sweep takes away exactly what began more than two minutes ago.
  lemma SweptExactly(bs: Buckets, now: int)
    ensures forall k ::
      (k in Swept(bs, now) <==> k in bs && now - bs[k].windowStart <= 120000000000)
      && (k in Swept(bs, now) ==> Swept(bs, now)[k] == bs[k])
  {
  }

  // ----- Both bounds are attained -----

  function Burst(key: string, at: int, n: nat): seq<Request> {
    seq(n, _ => Request(key, at))
  }

  lemma Appended(limit: int, reqs: seq<Request>, r: Request, key: string, lo: int, hi: int)
    ensures var all := reqs + [r];
      && After(limit, all) == AllowSpec(After(limit, reqs), limit, r.key, r.at).0
      && Allowed(limit, all) == AllowSpec(After(limit, reqs), limit, r.key, r.at).1
      && AllowedIn(limit, all, key, lo, hi) == AllowedIn(limit, reqs, key, lo, hi)
         + if r.key == key && lo <= r.at < hi && Allowed(limit, all) then 1 else 0
  {
    assert (reqs + [r])[..|reqs|] == reqs;
  }

  // The key's window after the requests, and how many were allowed in [lo, hi).
  predicate Reaches(limit: int, reqs: seq<Request>, key: string, w: RateBucket, lo: int, hi: int, n: int) {
    key in After(limit, reqs) && After(limit, reqs)[key] == w && AllowedIn(limit, reqs, key, lo, hi) == n
  }

  // More requests at one time, within an open window that has room for them.
  lemma {:induction false} BurstReaches(limit: int, reqs: seq<Request>, key: string, w: RateBucket, at: int, m: nat,
                                        lo: int, hi: int, n: int)
    requires Reaches(limit, reqs, key, w, lo, hi, n)
    requires w.windowStart <= at < w.windowStart + MINUTE && w.count + m <= limit && lo <= at < hi
    ensures Reaches(limit, reqs + Burst(key, at, m), key, RateBucket(w.count + m, w.windowStart), lo, hi, n + m)
  {
    if m == 0 {
      assert reqs + Burst(key, at, m) == reqs;
    } else {
      var before := reqs + Burst(key, at, m - 1);
      BurstReaches(limit, reqs, key, w, at, m - 1, lo, hi, n);
      Appended(limit, before, Request(key, at), key, lo, hi);
      assert reqs + Burst(key, at, m) == before + [Request(key, at)];
    }
  }

  // limit requests at one time, the first of which opens a window.
  lemma FullBurstReaches(limit: int, reqs: seq<Request>, key: string, at: int, lo: int, hi: int)
    requires limit >= 1 && Opens(After(limit, reqs), key, at) && lo <= at < hi
    ensures Reaches(limit, reqs + Burst(key, at, limit), key, RateBucket(limit, at), lo, hi,
                    AllowedIn(limit, reqs, key, lo, hi) + limit)
  {
    var first := reqs + [Request(key, at)];
    Appended(limit, reqs, Request(key, at), key, lo, hi);
    BurstReaches(limit, first, key, RateBucket(1, at), at, limit - 1, lo, hi, AllowedIn(limit, reqs, key, lo, hi) + 1);
    assert reqs + Burst(key, at, limit) == first + Burst(key, at, limit - 1);
  }

  // One request, limit - 1 just before the minute is over, and limit when it is:
  // all but the first fall into one half-open minute.
  function HalfOpenRun(limit: int, key: string): seq<Request>
    requires limit >= 1
  {
    [Request(key, 0)] + Burst(key, MINUTE - 1, limit - 1) + Burst(key, MINUTE, limit)
  }

  // limit requests at once and limit more a minute later.
  function ClosedRun(limit: int, key: string): seq<Request>
    requires limit >= 1
  {
    Burst(key, 0, limit) + Burst(key, MINUTE, limit)
  }

  lemma RunsOrdered(limit: int, key: string)
    requires limit >= 1
    ensures Ordered(HalfOpenRun(limit, key)) && Ordered(ClosedRun(limit, key))
  {
  }

  lemma HalfOpenBoundAttained(limit: int, key: string)
    requires limit >= 1
    ensures AllowedIn(limit, HalfOpenRun(limit, key), key, 1, 1 + MINUTE) == 2 * limit - 1
  {
    var first := [Request(key, 0)];
    Appended(limit, [], Request(key, 0), key, 1, 1 + MINUTE);
    assert [] + first == first;
    BurstReaches(limit, first, key, RateBucket(1, 0), MINUTE - 1, limit - 1, 1, 1 + MINUTE, 0);
    FullBurstReaches(limit, first + Burst(key, MINUTE - 1, limit - 1), key, MINUTE, 1, 1 + MINUTE);
  }

  lemma ClosedBoundAttained(limit: int, key: string)
    requires limit >= 1
    ensures AllowedIn(limit, ClosedRun(limit, key), key, 0, MINUTE + 1) == 2 * limit
  {
    FullBurstReaches(limit, [], key, 0, 0, MINUTE + 1);
    assert [] + Burst(key, 0, limit) == Burst(key, 0, limit);
    FullBurstReaches(limit, Burst(key, 0, limit), key, MINUTE, 0, MINUTE + 1);
  }

  // ----- The documented sliding window -----

  function InMinuteFrom(limit: int, reqs: seq<Request>, key: string, lo: int): nat {
    AllowedIn(limit, reqs, key, lo, lo + MINUTE)
  }

  // No half-open minute ever sees more than limit allowed requests of a key.
  ghost predicate Slides(limit: int) {
    forall reqs, key, lo :: Ordered(reqs) ==> InMinuteFrom(limit, reqs, key, lo) <= limit
  }

  // The limiter is the documented sliding window exactly when the limit is one.
  lemma {:induction false} SlidesIffLimitIsOne(limit: int)
    requires limit >= 1
    ensures Slides(limit) <==> limit == 1
  {
    if limit == 1 {
      forall reqs, key, lo | Ordered(reqs)
        ensures InMinuteFrom(limit, reqs, key, lo) <= limit
      {
        AtMostTwiceTheLimit(limit, reqs, key, lo);
      }
    } else {
      RunsOrdered(limit, "client");
      HalfOpenBoundAttained(limit, "client");
      assert InMinuteFrom(limit, HalfOpenRun(limit, "client"), "client", 1) > limit;
    }
  }
}
