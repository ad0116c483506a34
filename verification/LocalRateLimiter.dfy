/** The in-memory limiter of app/api/local_rate_limiter.py: timestamp buckets per
    user and fixed window, with stale buckets deleted once a minute at most. */
module LocalRateLimiter {
  import opened Text

  const CLEANUP_INTERVAL_SEC := 60.0

  datatype Request = Request(user: string, limit: int, window: int, now: real) {
    predicate Valid() {
      window > 0
    }

    function Index(): int
      requires Valid()
    {
      WindowIndex(now, window)
    }

    function Start(): int
      requires Valid()
    {
      Index() * window
    }
  }

  datatype Verdict = Verdict(allowed: bool, remaining: int)

  // ----- windows -----

  function WindowIndex(now: real, window: int): int
    requires window > 0
  {
    (now / window as real).Floor
  }

  lemma WindowBounds(now: real, window: int)
    requires window > 0
    ensures var i := WindowIndex(now, window);
            (i * window) as real <= now < ((i + 1) * window) as real
  {
    var i, w := WindowIndex(now, window), window as real;
    var q := now / w;
    assert q * w == now;
    Scale(i as real, q, w);
    Scale(q, (i + 1) as real, w);
    assert (i * window) as real == i as real * w;
    assert ((i + 1) * window) as real == (i + 1) as real * w;
  }

  lemma Scale(a: real, b: real, w: real)
    requires a <= b && w > 0.0
    ensures a * w <= b * w
    ensures a < b ==> a * w < b * w
  {}

  lemma ScaleInt(a: int, b: int, w: int)
    requires a <= b && w > 0
    ensures a * w <= b * w
  {}

  lemma NextMultiple(i: int, w: int)
    ensures (i + 1) * w == i * w + w
    ensures (i - 1) * w == i * w - w
  {}

  /** A clock reading lies in window i exactly when it is between its two edges. */
  lemma IndexFromBounds(now: real, window: int, i: int)
    requires window > 0
    ensures now < ((i + 1) * window) as real ==> WindowIndex(now, window) <= i
    ensures (i * window) as real <= now ==> i <= WindowIndex(now, window)
  {
    WindowBounds(now, window);
    var j := WindowIndex(now, window);
    if now < ((i + 1) * window) as real && j > i {
      ScaleInt(i + 1, j, window);
    }
    if (i * window) as real <= now && i > j {
      ScaleInt(j + 1, i, window);
    }
  }

  // ----- bucket keys -----

  function BucketKey(user: string, start: int): string {
    user + ":" + Decimal(start)
  }

  /** The window start can be read back from a key although user ids may contain colons. */
  lemma {:induction false} KeyParses(user: string, start: int)
    ensures StartOf(BucketKey(user, start)) == Some(start)
  {
    LastSegmentOfJoin(user, Decimal(start));
    DecimalRoundTrip(start);
  }

  lemma {:induction false} SameHead(a: string, b: string, tail: string)
    requires a + ":" + tail == b + ":" + tail
    ensures a == b
  {
    assert |a| == |b|;
    assert a == (a + ":" + tail)[..|a|];
    assert b == (b + ":" + tail)[..|b|];
  }

  lemma {:induction false} KeyInjective(user: string, start: int, user': string, start': int)
    requires BucketKey(user, start) == BucketKey(user', start')
    ensures user == user' && start == start'
  {
    KeyParses(user, start);
    KeyParses(user', start');
    SameHead(user, user', Decimal(start));
  }

  // ----- one check -----

  type Buckets = map<string, seq<real>>

  datatype State = State(buckets: Buckets, cleanupLast: real)

  const INITIAL := State(map[], 0.0)

  function Entries(buckets: Buckets, key: string): seq<real> {
    if key in buckets then buckets[key] else []
  }

  predicate IsStale(key: string, bound: int) {
    var start := StartOf(key);
    start.Some? && start.value < bound
  }

  function Cleaned(s: State, now: real, bound: int): State {
    if now - s.cleanupLast > CLEANUP_INTERVAL_SEC
    then State(s.buckets - (set k | k in s.buckets && IsStale(k, bound)), now)
    else s
  }

  function Since(timestamps: seq<real>, start: int): seq<real> {
    if timestamps == [] then []
    else
      var front, last := timestamps[..|timestamps| - 1], timestamps[|timestamps| - 1];
      Since(front, start) + (if last >= start as real then [last] else [])
  }

  /** The bucket work of one check, once its key is known. */
  function Admit(s: State, key: string, start: int, limit: int, now: real): (State, Verdict) {
    var requests := Since(Entries(s.buckets, key), start);
    if |requests| >= limit then
      (s.(buckets := s.buckets[key := requests]), Verdict(false, 0))
    else
      (s.(buckets := s.buckets[key := requests + [now]]), Verdict(true, limit - (|requests| + 1)))
  }

  /** One check with its key, window start and deletion bound at hand. */
  function CheckAt(s: State, key: string, start: int, bound: int, limit: int, now: real): (State, Verdict) {
    Admit(Cleaned(s, now, bound), key, start, limit, now)
  }

  function Check(s: State, r: Request): (State, Verdict)
    requires r.Valid()
  {
    CheckAt(s, BucketKey(r.user, r.Start()), r.Start(), r.Start() - r.window, r.limit, r.now)
  }

  /** The buckets a cleanup deletes: those of windows that began before the bound. */
  ghost function Gone(cleanup: bool, bound: int): string -> bool {
    k => cleanup && IsStale(k, bound)
  }

  /** All buckets but the request's own are as before, or deleted. */
  ghost predicate OthersKept(before: Buckets, after: Buckets, key: string, gone: string -> bool) {
    forall k | k != key ::
      && (k in after <==> k in before && !gone(k))
      && (k in after ==> after[k] == before[k])
  }

  /** The request's own bucket keeps what is not older than the window and grows by the request
      exactly when that is below the limit, which is when the request is allowed. */
  ghost predicate Answered(
    before: seq<real>, after: seq<real>, start: int, limit: int, now: real, allowed: bool, remaining: int)
  {
    var kept := Since(before, start);
    && (allowed <==> |kept| < limit)
    && after == (if allowed then kept + [now] else kept)
    && remaining == (if allowed then limit - |kept| - 1 else 0)
  }

  /** What is kept is what is not older than the window, in order. */
  lemma {:induction false} SincePlaces(timestamps: seq<real>, start: int) returns (places: seq<nat>)
    ensures Increasing(places) && Picks(Since(timestamps, start), timestamps, places)
    ensures forall i: nat {:trigger i in places} :: i in places <==> i < |timestamps| && timestamps[i] >= start as real
  {
    if timestamps == [] {
      places := [];
    } else {
      var n := |timestamps| - 1;
      var front, also := timestamps[..n], timestamps[n] >= start as real;
      var earlier := SincePlaces(front, start);
      places := MorePlaces(Since(front, start), timestamps, earlier, also);
      forall i: nat ensures i in places <==> i < |timestamps| && timestamps[i] >= start as real {
        assert i in places <==> i in earlier || (also && i == n);
        if i < n {
          assert front[i] == timestamps[i];
        }
      }
    }
  }

  /** The window of a request starts at the last multiple of its length not after the request. */
  lemma StartMeaning(r: Request)
    requires r.Valid()
    ensures r.Start() % r.window == 0 && r.Start() as real <= r.now < (r.Start() + r.window) as real
  {
    WindowBounds(r.now, r.window);
    NextMultiple(r.Index(), r.window);
    MultipleOf(r.Index(), r.window);
  }

  lemma MultipleOf(i: int, w: int)
    requires w > 0
    ensures i * w % w == 0
  {
    var q, m := i * w / w, i * w % w;
    assert i * w == q * w + m && 0 <= m < w;
    assert (i - q) * w == m;
    if i > q {
      ScaleInt(1, i - q, w);
    } else if i < q {
      ScaleInt(i - q, -1, w);
    }
  }

  /** What one check does, cleanup included. */
  ghost predicate Checked(
    before: State, after: State, key: string, start: int, limit: int, now: real, v: Verdict, gone: string -> bool)
  {
    && OthersKept(before.buckets, after.buckets, key, gone)
    && key in after.buckets
    && Answered(if key in before.buckets && !gone(key) then before.buckets[key] else [],
                after.buckets[key], start, limit, now, v.allowed, v.remaining)
  }

  /** A check cleans up when the last cleanup is more than a minute ago, which deletes the
      buckets of windows that began before the bound, and then decides on its own bucket. */
  lemma {:induction false} CheckMeaning(
    s: State, key: string, start: int, bound: int, limit: int, now: real, after: State, v: Verdict)
    requires (after, v) == CheckAt(s, key, start, bound, limit, now)
    ensures var cleanup := now - s.cleanupLast > 60.0;
      && after.cleanupLast == (if cleanup then now else s.cleanupLast)
      && Checked(s, after, key, start, limit, now, v, Gone(cleanup, bound))
  {
    CleanedMeaning(s, now, bound);
    AdmitMeaning(s, Cleaned(s, now, bound), key, start, limit, now, Gone(now - s.cleanupLast > 60.0, bound));
  }

  lemma {:induction false} CleanedMeaning(s: State, now: real, bound: int)
    ensures var c := Cleaned(s, now, bound); var cleanup := now - s.cleanupLast > 60.0;
      && c.cleanupLast == (if cleanup then now else s.cleanupLast)
      && forall k :: (k in c.buckets <==> k in s.buckets && !Gone(cleanup, bound)(k))
                     && (k in c.buckets ==> c.buckets[k] == s.buckets[k])
  {}

  lemma {:induction false} AdmitMeaning(
    before: State, s: State, key: string, start: int, limit: int, now: real, gone: string -> bool)
    requires forall k :: (k in s.buckets <==> k in before.buckets && !gone(k))
                         && (k in s.buckets ==> s.buckets[k] == before.buckets[k])
    ensures var (after, v) := Admit(s, key, start, limit, now);
      after.cleanupLast == s.cleanupLast && Checked(before, after, key, start, limit, now, v, gone)
  {}

  class Limiter {
    var buckets: Buckets
    var cleanupLast: real

    ghost function Abs(): State
      reads this
    {
      State(buckets, cleanupLast)
    }

    constructor ()
      ensures Abs() == INITIAL
    {
      buckets, cleanupLast := map[], 0.0;
    }

    method CheckRequest(userId: string, limit: int, window: int, now: real)
      returns (allowed: bool, remaining: int)
      requires window > 0
      modifies this
      ensures (Abs(), Verdict(allowed, remaining)) == Check(old(Abs()), Request(userId, limit, window, now))
      ensures var start := (now / window as real).Floor * window;
        (Abs(), Verdict(allowed, remaining))
        == CheckAt(old(Abs()), BucketKey(userId, start), start, start - window, limit, now)
    {
      var windowStart := (now / window as real).Floor * window;
      var key := BucketKey(userId, windowStart);
      if now - cleanupLast > CLEANUP_INTERVAL_SEC {
        DeleteStale(windowStart - window);
        cleanupLast := now;
      }
      allowed, remaining := AdmitInto(key, windowStart, limit, now);
    }

    /** The rest of the locked section: filter the bucket, then refuse or append. */
    method AdmitInto(key: string, windowStart: int, limit: int, now: real)
      returns (allowed: bool, remaining: int)
      modifies this`buckets
      ensures (Abs(), Verdict(allowed, remaining)) == Admit(old(Abs()), key, windowStart, limit, now)
    {
      var requests := DropBefore(if key in buckets then buckets[key] else [], windowStart);
      if |requests| >= limit {
        buckets := buckets[key := requests];
        return false, 0;
      }
      requests := requests + [now];
      buckets := buckets[key := requests];
      return true, limit - |requests|;
    }

    method DeleteStale(bound: int)
      modifies this`buckets
      ensures buckets == old(buckets) - (set k | k in old(buckets) && IsStale(k, bound))
    {
      var stale := set k | k in buckets && IsStale(k, bound);
      ghost var all := stale;
      while stale != {}
        invariant stale <= all
        invariant buckets == old(buckets) - (all - stale)
      {
        var k :| k in stale;
        buckets := buckets - {k};
        stale := stale - {k};
      }
    }

    method DropBefore(timestamps: seq<real>, start: int) returns (kept: seq<real>)
      ensures kept == Since(timestamps, start)
    {
      kept := [];
      for i := 0 to |timestamps|
        invariant kept == Since(timestamps[..i], start)
      {
        assert timestamps[..i + 1][..i] == timestamps[..i];
        if timestamps[i] >= start as real {
          kept := kept + [timestamps[i]];
        }
      }
      assert timestamps[..|timestamps|] == timestamps;
    }

    method Reset()
      modifies this
      ensures Abs() == INITIAL
    {
      buckets, cleanupLast := map[], 0.0;
    }
  }

  // ----- runs -----

  predicate AllValid(reqs: seq<Request>) {
    forall i | 0 <= i < |reqs| :: reqs[i].Valid()
  }

  function Run(reqs: seq<Request>): (State, seq<Verdict>)
    requires AllValid(reqs)
  {
    if reqs == [] then (INITIAL, [])
    else
      var (s, verdicts) := Run(reqs[..|reqs| - 1]);
      var (s', v) := Check(s, reqs[|reqs| - 1]);
      (s', verdicts + [v])
  }

  predicate AllSince(timestamps: seq<real>, start: int) {
    forall i | 0 <= i < |timestamps| :: timestamps[i] >= start as real
  }

  /** The window start a key is filed under, as the cleanup reads it. */
  function StartOf(key: string): Option<int> {
    ParseInt(LastSegment(key))
  }

  ghost predicate FreshBucket(key: string, timestamps: seq<real>) {
    StartOf(key).Some? && AllSince(timestamps, StartOf(key).value)
  }

  /** Every bucket is filed under a well-formed key and holds nothing older than its window. */
  ghost predicate Fresh(b: Buckets) {
    forall k <- b :: FreshBucket(k, b[k])
  }

  lemma {:induction false} SinceKeepsAll(timestamps: seq<real>, start: int)
    requires AllSince(timestamps, start)
    ensures Since(timestamps, start) == timestamps
  {
    if timestamps != [] {
      SinceKeepsAll(timestamps[..|timestamps| - 1], start);
    }
  }

  lemma {:induction false} SinceKeepsBucket(b: Buckets, key: string, start: int)
    requires Fresh(b) && StartOf(key) == Some(start)
    ensures Since(Entries(b, key), start) == Entries(b, key)
  {
    SinceKeepsAll(Entries(b, key), start);
  }

  lemma {:induction false} AdmitKeepsFresh(s: State, key: string, start: int, limit: int, now: real)
    requires Fresh(s.buckets) && StartOf(key) == Some(start) && now >= start as real
    ensures Fresh(Admit(s, key, start, limit, now).0.buckets)
  {
    SinceKeepsBucket(s.buckets, key, start);
  }

  /** The key of a request parses back to a window start not after the request. */
  lemma RequestKey(r: Request)
    requires r.Valid()
    ensures StartOf(BucketKey(r.user, r.Start())) == Some(r.Start())
    ensures r.Start() as real <= r.now
  {
    KeyParses(r.user, r.Start());
    WindowBounds(r.now, r.window);
  }

  lemma {:induction false} CheckAtKeepsFresh(
    s: State, key: string, start: int, bound: int, limit: int, now: real, result: (State, Verdict))
    requires Fresh(s.buckets) && StartOf(key) == Some(start) && start as real <= now
    requires result == CheckAt(s, key, start, bound, limit, now)
    ensures Fresh(result.0.buckets)
  {
    AdmitKeepsFresh(Cleaned(s, now, bound), key, start, limit, now);
  }

  lemma {:induction false} CheckKeepsFresh(s: State, r: Request)
    requires r.Valid() && Fresh(s.buckets)
    ensures Fresh(Check(s, r).0.buckets)
  {
    RequestKey(r);
    CheckAtKeepsFresh(s, BucketKey(r.user, r.Start()), r.Start(), r.Start() - r.window, r.limit, r.now, Check(s, r));
  }

  /** Whatever the clock does, every key the cleanup meets parses as a window start, and
      the per-bucket filter of the next request drops nothing. */
  lemma {:induction false} FilterDropsNothing(reqs: seq<Request>, next: Request)
    requires AllValid(reqs) && next.Valid()
    ensures var b, key := Run(reqs).0.buckets, BucketKey(next.user, next.Start());
      && Fresh(b)
      && (forall k <- b :: StartOf(k).Some?)
      && Since(Entries(b, key), next.Start()) == Entries(b, key)
  {
    var s := Run(reqs).0;
    if reqs != [] {
      FilterDropsNothing(reqs[..|reqs| - 1], reqs[|reqs| - 1]);
      CheckKeepsFresh(Run(reqs[..|reqs| - 1]).0, reqs[|reqs| - 1]);
    }
    RequestKey(next);
    SinceKeepsBucket(s.buckets, BucketKey(next.user, next.Start()), next.Start());
  }
}
