/** The Redis and in-memory rate-limit handlers of app/api/middleware.py. */
module RateLimitMiddleware {
  import opened Text
  import opened LocalRateLimiter
  import opened RateLimitReference

  // ----- what both handlers answer -----

  /** Headers of a request that goes through, or the 429 response. */
  datatype Response =
    | Passed(limit: int, remaining: int, reset: int)
    | Limited(retryAfter: int, limit: int, reset: int)

  /** Python's int() on a float. */
  function Truncate(x: real): int {
    if x >= 0.0 then x.Floor else -(-x).Floor
  }

  /** The window stretched by the cooldown multiplier, in whole seconds. */
  function CooldownSeconds(window: int, cooldown: real): int {
    Truncate(window as real * cooldown)
  }

  function RetryAfter(now: int, windowStart: int, window: int, cooldown: real): int {
    Max(windowStart + window - now, CooldownSeconds(window, cooldown))
  }

  /** Whole seconds towards zero. */
  lemma CooldownMeaning(window: int, cooldown: real, x: real)
    requires x == window as real * cooldown
    ensures var c := CooldownSeconds(window, cooldown);
      if x >= 0.0 then c as real <= x < c as real + 1.0 else c as real - 1.0 < x <= c as real
  {}

  /** The middleware's own window start, from whole seconds. */
  function MiddlewareStart(now: int, window: int): int
    requires window > 0
  {
    now / window * window
  }

  lemma DivisionBounds(n: int, window: int)
    requires window > 0
    ensures n / window * window <= n < (n / window + 1) * window
  {
    NextMultiple(n / window, window);
    assert n == n / window * window + n % window;
  }

  /** The middleware and the limiter agree on the window of a non-negative clock reading. */
  lemma StartsAgree(now: real, window: int)
    requires window > 0 && now >= 0.0
    ensures MiddlewareStart(Truncate(now), window) == WindowIndex(now, window) * window
  {
    DivisionBounds(now.Floor, window);
    IndexFromBounds(now, window, now.Floor / window);
  }

  /** A refused client that waits as told comes back in a later window. */
  lemma RetryLandsLater(now: real, later: real, window: int, cooldown: real)
    requires window > 0 && now >= 0.0
    requires later >= now + RetryAfter(Truncate(now), MiddlewareStart(Truncate(now), window), window, cooldown) as real
    ensures WindowIndex(later, window) > WindowIndex(now, window)
  {
    StartsAgree(now, window);
    var i := WindowIndex(now, window);
    NextMultiple(i, window);
    IndexFromBounds(later, window, i + 1);
  }

  // ----- the Redis side -----

  datatype Counter = Counter(count: nat, expireAt: real)

  type Store = map<string, Counter>

  /** Redis drops keys whose time has come. */
  function Live(store: Store, now: real): Store {
    map k | k in store && now < store[k].expireAt :: store[k]
  }

  /** The pipeline INCR key; EXPIRE key ttl. */
  function Touch(store: Store, key: string, ttl: int, now: real): (Store, nat) {
    var live := Live(store, now);
    var count := (if key in live then live[key].count else 0) + 1;
    (live[key := Counter(count, now + ttl as real)], count)
  }

  /** redis_key(prefix, "rate", rate_key, str(window_start)); empty parts are skipped. */
  function RedisKey(prefix: string, rateKey: string, windowStart: int): string {
    prefix + ":rate" + (if rateKey == "" then "" else ":" + rateKey) + ":" + Decimal(windowStart)
  }

  lemma {:induction false} RedisKeyInjective(prefix: string, rateKey: string, start: int, rateKey': string, start': int)
    requires RedisKey(prefix, rateKey, start) == RedisKey(prefix, rateKey', start')
    ensures rateKey == rateKey' && start == start'
  {
    var head := prefix + ":rate" + (if rateKey == "" then "" else ":" + rateKey);
    var head' := prefix + ":rate" + (if rateKey' == "" then "" else ":" + rateKey');
    KeyInjective(head, start, head', start');
    var n := |prefix + ":rate"|;
    assert head[n..] == if rateKey == "" then "" else ":" + rateKey;
    assert head'[n..] == if rateKey' == "" then "" else ":" + rateKey';
    if rateKey != "" {
      assert head[n..][1..] == rateKey;
      assert rateKey' != "" && head'[n..][1..] == rateKey';
    }
  }

  /** The key as Redis sees it. */
  lemma {:induction false} RedisKeyText(prefix: string, rateKey: string, start: int)
    requires rateKey != ""
    ensures RedisKey(prefix, rateKey, start) == prefix + ":rate:" + rateKey + ":" + Decimal(start)
    ensures RedisKey(prefix, "", start) == prefix + ":rate:" + Decimal(start)
  {
    var digits := Decimal(start);
    assert prefix + ":rate" + (":" + rateKey) + ":" + digits == prefix + ":rate:" + rateKey + ":" + digits;
    assert prefix + ":rate" + "" + ":" + digits == prefix + ":rate:" + digits;
  }

  function Ttl(window: int, cooldown: real): int {
    Max(window + 5, CooldownSeconds(window, cooldown))
  }

  // ----- the handlers -----

  datatype Config = Config(prefix: string, cooldown: real)

  function LimitedResponse(r: Request, cfg: Config, now: int, windowStart: int): Response {
    Limited(RetryAfter(now, windowStart, r.window, cfg.cooldown), r.limit, windowStart + r.window)
  }

  function WithHeaders(r: Request, remaining: int, windowStart: int): Response {
    Passed(r.limit, Max(remaining, 0), windowStart + r.window)
  }

  /** A response from a decision and the count it left. */
  function Respond(r: Request, cfg: Config, allowed: bool, remaining: int): Response
    requires r.Valid()
  {
    var now := Truncate(r.now);
    var windowStart := MiddlewareStart(now, r.window);
    if allowed then WithHeaders(r, remaining, windowStart)
    else LimitedResponse(r, cfg, now, windowStart)
  }

  function RedisDecision(store: Store, cfg: Config, r: Request): (Store, Response)
    requires r.Valid()
  {
    var key := RedisKey(cfg.prefix, r.user, MiddlewareStart(Truncate(r.now), r.window));
    var (store', count) := Touch(store, key, Ttl(r.window, cfg.cooldown), r.now);
    (store', Respond(r, cfg, count <= r.limit, r.limit - count))
  }

  function LocalDecision(s: State, cfg: Config, r: Request): (State, Response)
    requires r.Valid()
  {
    var (s', v) := Check(s, r);
    (s', Respond(r, cfg, v.allowed, v.remaining))
  }

  class RedisClient {
    var store: Store

    constructor ()
      ensures store == map[]
    {
      store := map[];
    }

    /** INCR: a missing or expired key counts from zero; a live key keeps its expiry. */
    method Incr(key: string, now: real) returns (count: nat)
      modifies this
      ensures key in store && count == store[key].count
      ensures count == (if key in Live(old(store), now) then old(store)[key].count else 0) + 1
      ensures store.Keys == Live(old(store), now).Keys + {key}
      ensures forall k | k in Live(old(store), now) && k != key :: store[k] == old(store)[k]
    {
      store := Live(store, now);
      var entry := if key in store then store[key] else Counter(0, now);
      count := entry.count + 1;
      store := store[key := entry.(count := count)];
    }

    method Expire(key: string, ttl: int, now: real)
      modifies this
      ensures store == if key in old(store)
                       then old(store)[key := old(store)[key].(expireAt := now + ttl as real)]
                       else old(store)
    {
      if key in store {
        store := store[key := store[key].(expireAt := now + ttl as real)];
      }
    }

    /** The two commands run as one pipeline; the count is the reply to INCR. */
    method IncrAndExpire(key: string, ttl: int, now: real) returns (count: nat)
      modifies this
      ensures (store, count) == Touch(old(store), key, ttl, now)
    {
      count := Incr(key, now);
      Expire(key, ttl, now);
      assert store == Touch(old(store), key, ttl, now).0;
    }
  }

  method HandleRedisRateLimit(redis: RedisClient, cfg: Config, r: Request) returns (response: Response)
    requires r.Valid()
    modifies redis
    ensures (redis.store, response) == RedisDecision(old(redis.store), cfg, r)
  {
    var now := Truncate(r.now);
    var windowStart := MiddlewareStart(now, r.window);
    var key := RedisKey(cfg.prefix, r.user, windowStart);
    var count := redis.IncrAndExpire(key, Ttl(r.window, cfg.cooldown), r.now);
    if count > r.limit {
      response := LimitedResponse(r, cfg, now, windowStart);
    } else {
      response := WithHeaders(r, r.limit - count, windowStart);
    }
  }

  method HandleLocalRateLimit(limiter: Limiter, cfg: Config, r: Request) returns (response: Response)
    requires r.Valid()
    modifies limiter
    ensures (limiter.Abs(), response) == LocalDecision(old(limiter.Abs()), cfg, r)
  {
    var now := Truncate(r.now);
    var windowStart := MiddlewareStart(now, r.window);
    var allowed, remaining := limiter.CheckRequest(r.user, r.limit, r.window, r.now);
    if !allowed {
      response := LimitedResponse(r, cfg, now, windowStart);
    } else {
      response := WithHeaders(r, remaining, windowStart);
    }
  }

  // ----- runs of the two handlers -----

  function RedisRun(cfg: Config, reqs: seq<Request>): (Store, seq<Response>)
    requires AllValid(reqs)
  {
    if reqs == [] then (map[], [])
    else
      var (store, responses) := RedisRun(cfg, reqs[..|reqs| - 1]);
      var (store', response) := RedisDecision(store, cfg, reqs[|reqs| - 1]);
      (store', responses + [response])
  }

  function LocalRun(cfg: Config, reqs: seq<Request>): (State, seq<Response>)
    requires AllValid(reqs)
  {
    if reqs == [] then (INITIAL, [])
    else
      var (s, responses) := LocalRun(cfg, reqs[..|reqs| - 1]);
      var (s', response) := LocalDecision(s, cfg, reqs[|reqs| - 1]);
      (s', responses + [response])
  }

  predicate ForwardClock(reqs: seq<Request>) {
    && (forall i | 0 <= i < |reqs| :: reqs[i].now >= 0.0)
    && (forall i, j | 0 <= i < j < |reqs| :: reqs[i].now <= reqs[j].now)
  }

  // ----- Redis counts every request of a window that is still open -----

  /** A counter that has seen `total` requests and outlives `end`. */
  predicate Matches(store: Store, key: string, total: nat, end: real) {
    if key in store then store[key].count == total && total > 0 && store[key].expireAt >= end
    else total == 0
  }

  /** Touching one key, seen through that key or any other one. */
  lemma {:induction false} TouchMatches(
    store: Store, key: string, total: nat, end: real, ttl: int, now: real, key': string, total': nat, end': real)
    requires Matches(store, key, total, end) && Matches(store, key', total', end')
    requires now < end && now < end' && end <= now + ttl as real
    requires key == key' ==> end == end' && total == total'
    ensures var (store', count) := Touch(store, key, ttl, now);
            && count == total + 1
            && Matches(store', key', if key == key' then total + 1 else total', end')
  {}

  lemma {:induction false} SameRedisKey(prefix: string, user: string, start: int, user': string, start': int)
    ensures RedisKey(prefix, user, start) == RedisKey(prefix, user', start') <==> (user, start) == (user', start')
  {
    if RedisKey(prefix, user, start) == RedisKey(prefix, user', start') {
      RedisKeyInjective(prefix, user, start, user', start');
    }
  }

  predicate TracksKey(store: Store, cfg: Config, reqs: seq<Request>, window: int, user: string, start: int)
    requires AllValid(reqs)
  {
    Matches(store, RedisKey(cfg.prefix, user, start), Total(reqs, user, start), (start + window) as real)
  }

  ghost predicate Tracks(store: Store, cfg: Config, reqs: seq<Request>, window: int, now: real)
    requires AllValid(reqs)
  {
    forall user, start | (start + window) as real > now :: TracksKey(store, cfg, reqs, window, user, start)
  }

  /** The expiry set by a request lies beyond the end of its window: it is the longer of the
      window with five seconds to spare and the cooldown. */
  lemma TtlOutlivesWindow(r: Request, cfg: Config)
    requires r.Valid()
    ensures var ttl, cooldown := Ttl(r.window, cfg.cooldown), CooldownSeconds(r.window, cfg.cooldown);
            ttl >= r.window + 5 && ttl >= cooldown && (ttl == r.window + 5 || ttl == cooldown)
    ensures (r.Start() + r.window) as real <= r.now + Ttl(r.window, cfg.cooldown) as real
    ensures r.now < (r.Start() + r.window) as real
  {
    WindowBounds(r.now, r.window);
    NextMultiple(r.Index(), r.window);
  }

  lemma {:induction false} TotalSnoc(reqs: seq<Request>, r: Request, user: string, start: int)
    requires AllValid(reqs) && r.Valid() && AllValid(reqs + [r])
    ensures Total(reqs + [r], user, start)
         == Total(reqs, user, start) + (if (user, start) == (r.user, r.Start()) then 1 else 0)
  {
    assert (reqs + [r])[..|reqs|] == reqs;
  }

  /** The next Redis response, from the number of earlier requests in the window. */
  lemma {:induction false} RedisByTotal(store: Store, cfg: Config, reqs: seq<Request>, r: Request, before: real)
    requires AllValid(reqs) && r.Valid()
    requires 0.0 <= r.now && before <= r.now && Tracks(store, cfg, reqs, r.window, before)
    ensures RedisDecision(store, cfg, r).1
         == var n := Total(reqs, r.user, r.Start()) + 1; Respond(r, cfg, n <= r.limit, r.limit - n)
  {
    StartsAgree(r.now, r.window);
    RedisCount(store, cfg, reqs, r, before);
  }

  lemma {:induction false} RedisCount(store: Store, cfg: Config, reqs: seq<Request>, r: Request, before: real)
    requires AllValid(reqs) && r.Valid()
    requires before <= r.now && Tracks(store, cfg, reqs, r.window, before)
    ensures Touch(store, RedisKey(cfg.prefix, r.user, r.Start()), Ttl(r.window, cfg.cooldown), r.now).1
         == Total(reqs, r.user, r.Start()) + 1
  {
    TtlOutlivesWindow(r, cfg);
    var start := r.Start();
    var key, total, end := RedisKey(cfg.prefix, r.user, start), Total(reqs, r.user, start), (start + r.window) as real;
    assert TracksKey(store, cfg, reqs, r.window, r.user, start);
    TouchMatches(store, key, total, end, Ttl(r.window, cfg.cooldown), r.now, key, total, end);
  }

  lemma {:induction false} RedisStep(store: Store, cfg: Config, reqs: seq<Request>, r: Request, before: real)
    requires AllValid(reqs) && r.Valid() && AllValid(reqs + [r])
    requires 0.0 <= r.now && before <= r.now && Tracks(store, cfg, reqs, r.window, before)
    ensures Tracks(RedisDecision(store, cfg, r).0, cfg, reqs + [r], r.window, r.now)
  {
    StartsAgree(r.now, r.window);
    TtlOutlivesWindow(r, cfg);
    var ttl, start := Ttl(r.window, cfg.cooldown), r.Start();
    var key, total, end := RedisKey(cfg.prefix, r.user, start), Total(reqs, r.user, start), (start + r.window) as real;
    assert TracksKey(store, cfg, reqs, r.window, r.user, start);
    forall user, from | (from + r.window) as real > r.now
      ensures TracksKey(Touch(store, key, ttl, r.now).0, cfg, reqs + [r], r.window, user, from)
    {
      assert TracksKey(store, cfg, reqs, r.window, user, from);
      SameRedisKey(cfg.prefix, r.user, start, user, from);
      TotalSnoc(reqs, r, user, from);
      TouchMatches(store, key, total, end, ttl, r.now,
                   RedisKey(cfg.prefix, user, from), Total(reqs, user, from), (from + r.window) as real);
    }
  }

  lemma {:induction false} RunSnoc(cfg: Config, reqs: seq<Request>, r: Request)
    requires AllValid(reqs) && r.Valid() && AllValid(reqs + [r])
    ensures var (store, redis) := RedisRun(cfg, reqs);
            var (store', response) := RedisDecision(store, cfg, r);
            RedisRun(cfg, reqs + [r]) == (store', redis + [response])
    ensures var (s, local) := LocalRun(cfg, reqs);
            var (s', response) := LocalDecision(s, cfg, r);
            LocalRun(cfg, reqs + [r]) == (s', local + [response])
  {
    assert (reqs + [r])[..|reqs|] == reqs;
  }

  lemma {:induction false} TracksLater(
    store: Store, cfg: Config, reqs: seq<Request>, window: int, now: real, later: real)
    requires AllValid(reqs) && Tracks(store, cfg, reqs, window, now) && now <= later
    ensures Tracks(store, cfg, reqs, window, later)
  {}

  lemma {:induction false} RedisRunStep(cfg: Config, reqs: seq<Request>, r: Request, before: real)
    requires AllValid(reqs) && r.Valid() && AllValid(reqs + [r])
    requires 0.0 <= r.now && before <= r.now && Tracks(RedisRun(cfg, reqs).0, cfg, reqs, r.window, before)
    ensures Tracks(RedisRun(cfg, reqs + [r]).0, cfg, reqs + [r], r.window, r.now)
  {
    RedisStep(RedisRun(cfg, reqs).0, cfg, reqs, r, before);
    RunSnoc(cfg, reqs, r);
  }

  lemma EmptyTracks(cfg: Config, window: int, now: real)
    ensures Tracks(map[], cfg, [], window, now)
  {}

  lemma {:induction false} RedisTracks(cfg: Config, reqs: seq<Request>, window: int, now: real)
    requires OneWindow(reqs, window) && ForwardClock(reqs)
    requires reqs != [] ==> reqs[|reqs| - 1].now <= now
    ensures Tracks(RedisRun(cfg, reqs).0, cfg, reqs, window, now)
  {
    if reqs == [] {
      EmptyTracks(cfg, window, now);
    } else {
      var front, last := reqs[..|reqs| - 1], reqs[|reqs| - 1];
      RedisTracks(cfg, front, window, last.now);
      assert front + [last] == reqs;
      RedisRunStep(cfg, front, last, last.now);
      TracksLater(RedisRun(cfg, reqs).0, cfg, reqs, window, last.now, now);
    }
  }

  // ----- the two backends -----

  lemma {:induction false} LocalRunState(cfg: Config, reqs: seq<Request>)
    requires AllValid(reqs)
    ensures LocalRun(cfg, reqs).0 == Run(reqs).0
  {
    if reqs != [] {
      LocalRunState(cfg, reqs[..|reqs| - 1]);
    }
  }

  /** The reference counter's verdict, from the number of earlier requests in the window. */
  lemma {:induction false} CountByTotal(reqs: seq<Request>, r: Request)
    requires AllValid(reqs) && r.Valid() && SameLimit(reqs, r.user, r.limit)
    ensures var n, v := Total(reqs, r.user, r.Start()) + 1, Count(CountRun(reqs).0, r).1;
            && (v.allowed <==> n <= r.limit)
            && v.remaining == if v.allowed then r.limit - n else 0
  {
    GrantedIsCapped(reqs, r.user, r.Start(), r.limit);
  }

  /** The limiter's next verdict is the counter's. */
  lemma {:induction false} NextVerdict(reqs: seq<Request>, r: Request)
    requires AllValid(reqs) && r.Valid() && AllValid(reqs + [r]) && SteadyClock(reqs + [r])
    ensures Check(Run(reqs).0, r).1 == Count(CountRun(reqs).0, r).1
  {
    NextAnswers(reqs, r);
    HeldIsGranted(reqs, r.user, r.Start());
    SteadyNeverWipes(reqs, r);
  }

  lemma {:induction false} LocalByCounter(cfg: Config, reqs: seq<Request>, r: Request)
    requires AllValid(reqs) && r.Valid() && AllValid(reqs + [r]) && SteadyClock(reqs + [r])
    ensures LocalDecision(LocalRun(cfg, reqs).0, cfg, r).1
         == var v := Count(CountRun(reqs).0, r).1; Respond(r, cfg, v.allowed, v.remaining)
  {
    LocalRunState(cfg, reqs);
    NextVerdict(reqs, r);
  }

  /** The same response expressed by the number of earlier requests in the window. */
  lemma {:induction false} ResponseByTotal(cfg: Config, reqs: seq<Request>, r: Request, v: Verdict)
    requires AllValid(reqs) && r.Valid() && SameLimit(reqs, r.user, r.limit)
    requires v == Count(CountRun(reqs).0, r).1
    ensures Respond(r, cfg, v.allowed, v.remaining)
         == var n := Total(reqs, r.user, r.Start()) + 1; Respond(r, cfg, n <= r.limit, r.limit - n)
  {
    CountByTotal(reqs, r);
    var n := Total(reqs, r.user, r.Start()) + 1;
    SameResponse(r, cfg, v, n <= r.limit, r.limit - n);
  }

  lemma SameResponse(r: Request, cfg: Config, v: Verdict, allowed: bool, remaining: int)
    requires r.Valid() && v.allowed == allowed && (allowed ==> v.remaining == remaining)
    ensures Respond(r, cfg, v.allowed, v.remaining) == Respond(r, cfg, allowed, remaining)
  {}

  lemma {:induction false} SameDecision(cfg: Config, reqs: seq<Request>, r: Request)
    requires OneWindow(reqs, r.window) && ForwardClock(reqs) && SameLimit(reqs, r.user, r.limit)
    requires r.now >= 0.0 && (reqs != [] ==> reqs[|reqs| - 1].now <= r.now)
    requires AllValid(reqs + [r]) && SteadyClock(reqs + [r])
    ensures RedisDecision(RedisRun(cfg, reqs).0, cfg, r).1 == LocalDecision(LocalRun(cfg, reqs).0, cfg, r).1
  {
    assert r == (reqs + [r])[|reqs|];
    RedisTracks(cfg, reqs, r.window, r.now);
    RedisByTotal(RedisRun(cfg, reqs).0, cfg, reqs, r, r.now);
    LocalByCounter(cfg, reqs, r);
    ResponseByTotal(cfg, reqs, r, Count(CountRun(reqs).0, r).1);
  }

  /** What the comparison assumes of a request sequence. */
  predicate Comparable(reqs: seq<Request>, window: int) {
    OneWindow(reqs, window) && ForwardClock(reqs) && FixedLimits(reqs)
  }

  lemma {:induction false} ComparableFront(reqs: seq<Request>, window: int)
    requires reqs != [] && Comparable(reqs, window)
    ensures var front, last := reqs[..|reqs| - 1], reqs[|reqs| - 1];
            && Comparable(front, window) && last.window == window && last.now >= 0.0
            && SameLimit(front, last.user, last.limit)
            && (front != [] ==> front[|front| - 1].now <= last.now)
            && front + [last] == reqs
  {}

  /** On any request sequence with a clock that never goes back, one window length and one
      limit per key, Redis, which counts every request and renews the expiry each time, and
      the in-memory limiter, which counts admitted requests only, send the same responses:
      decision, remaining quota, reset time and retry delay. */
  lemma {:induction false} BackendsAgree(cfg: Config, reqs: seq<Request>, window: int)
    requires Comparable(reqs, window)
    ensures RedisRun(cfg, reqs).1 == LocalRun(cfg, reqs).1
  {
    if reqs != [] {
      ComparableFront(reqs, window);
      SmallSetbacksAreSteady(reqs, window);
      BackendsAgree(cfg, reqs[..|reqs| - 1], window);
      SameDecision(cfg, reqs[..|reqs| - 1], reqs[|reqs| - 1]);
    }
  }

  // ----- what the responses say -----

  lemma RespondWith(r: Request, cfg: Config, allowed: bool, remaining: int)
    requires r.Valid() && r.now >= 0.0
    ensures Respond(r, cfg, allowed, remaining)
         == if allowed then Passed(r.limit, Max(remaining, 0), r.Start() + r.window)
            else Limited(RetryAfter(Truncate(r.now), r.Start(), r.window, cfg.cooldown), r.limit, r.Start() + r.window)
  {
    StartsAgree(r.now, r.window);
  }

  lemma RetryAfterIs(now: real, later: real, window: int, cooldown: real)
    requires window > 0 && now >= 0.0
    ensures var start, longest := WindowIndex(now, window) * window, CooldownSeconds(window, cooldown);
      var wait := RetryAfter(Truncate(now), start, window, cooldown);
      && wait >= start + window - Truncate(now) && wait >= longest
      && (wait == start + window - Truncate(now) || wait == longest)
      && (later >= now + wait as real ==> WindowIndex(later, window) > WindowIndex(now, window))
  {
    StartsAgree(now, window);
    if later >= now + RetryAfter(Truncate(now), WindowIndex(now, window) * window, window, cooldown) as real {
      RetryLandsLater(now, later, window, cooldown);
    }
  }

  lemma {:induction false} ResponseAfter(cfg: Config, store: Store, before: seq<Request>, r: Request)
    requires AllValid(before) && r.Valid() && AllValid(before + [r])
    requires r.now >= 0.0 && Tracks(store, cfg, before, r.window, r.now)
    ensures var n := Total(before + [r], r.user, r.Start());
            RedisDecision(store, cfg, r).1 == Respond(r, cfg, n <= r.limit, r.limit - n)
  {
    RedisByTotal(store, cfg, before, r, r.now);
    TotalSnoc(before, r, r.user, r.Start());
  }

  lemma {:induction false} LastResponse(cfg: Config, front: seq<Request>, r: Request, window: int)
    requires OneWindow(front, window) && ForwardClock(front) && r.window == window && window > 0 && r.now >= 0.0
    requires front != [] ==> front[|front| - 1].now <= r.now
    requires AllValid(front + [r])
    ensures var n := Total(front + [r], r.user, r.Start());
      RedisDecision(RedisRun(cfg, front).0, cfg, r).1 == Respond(r, cfg, n <= r.limit, r.limit - n)
  {
    FrontTracked(cfg, front, r, window);
    ResponseAfter(cfg, RedisRun(cfg, front).0, front, r);
  }

  lemma {:induction false} OneMoreResponse(cfg: Config, front: seq<Request>, r: Request, window: int)
    requires OneWindow(front, window) && ForwardClock(front) && r.window == window && window > 0 && r.now >= 0.0
    requires front != [] ==> front[|front| - 1].now <= r.now
    requires AllValid(front + [r])
    ensures var n := Total(front + [r], r.user, r.Start());
      RedisRun(cfg, front + [r]).1 == RedisRun(cfg, front).1 + [Respond(r, cfg, n <= r.limit, r.limit - n)]
  {
    LastResponse(cfg, front, r, window);
    RunSnoc(cfg, front, r);
  }

  lemma {:induction false} FrontTracked(cfg: Config, front: seq<Request>, r: Request, window: int)
    requires OneWindow(front, window) && ForwardClock(front)
    requires front != [] ==> front[|front| - 1].now <= r.now
    ensures Tracks(RedisRun(cfg, front).0, cfg, front, window, r.now)
  {
    RedisTracks(cfg, front, window, r.now);
  }

  /** The i-th response, by the number of requests in its window up to then. */
  ghost function Expected(cfg: Config, reqs: seq<Request>, i: nat): Response
    requires AllValid(reqs) && i < |reqs|
  {
    var r := reqs[i];
    var n := Total(reqs[..i + 1], r.user, r.Start());
    Respond(r, cfg, n <= r.limit, r.limit - n)
  }

  lemma {:induction false} RedisResponses(cfg: Config, reqs: seq<Request>, window: int, responses: seq<Response>)
    requires Comparable(reqs, window) && responses == RedisRun(cfg, reqs).1
    ensures |responses| == |reqs| && forall i | 0 <= i < |reqs| :: responses[i] == Expected(cfg, reqs, i)
  {
    if reqs != [] {
      var front := reqs[..|reqs| - 1];
      var earlier := RedisRun(cfg, front).1;
      NextResponse(cfg, reqs, window, earlier);
      RedisResponses(cfg, front, window, earlier);
      ExpectedExtends(cfg, reqs, earlier, responses);
    }
  }

  lemma {:induction false} NextResponse(cfg: Config, reqs: seq<Request>, window: int, earlier: seq<Response>)
    requires Comparable(reqs, window) && reqs != [] && earlier == RedisRun(cfg, reqs[..|reqs| - 1]).1
    ensures Comparable(reqs[..|reqs| - 1], window)
    ensures var r := reqs[|reqs| - 1];
      var n := Total(reqs, r.user, r.Start());
      RedisRun(cfg, reqs).1 == earlier + [Respond(r, cfg, n <= r.limit, r.limit - n)]
  {
    ComparableFront(reqs, window);
    OneMoreResponse(cfg, reqs[..|reqs| - 1], reqs[|reqs| - 1], window);
  }

  lemma {:induction false} ExpectedExtends(
    cfg: Config, reqs: seq<Request>, earlier: seq<Response>, responses: seq<Response>)
    requires AllValid(reqs) && reqs != [] && |earlier| == |reqs| - 1 && |responses| == |reqs|
    requires responses[..|reqs| - 1] == earlier
    requires forall i | 0 <= i < |reqs| - 1 :: earlier[i] == Expected(cfg, reqs[..|reqs| - 1], i)
    requires var r := reqs[|reqs| - 1];
      var n := Total(reqs, r.user, r.Start());
      responses[|reqs| - 1] == Respond(r, cfg, n <= r.limit, r.limit - n)
    ensures forall i | 0 <= i < |reqs| :: responses[i] == Expected(cfg, reqs, i)
  {
    var front := reqs[..|reqs| - 1];
    assert reqs[..|reqs|] == reqs;
    forall i | 0 <= i < |front| ensures responses[i] == Expected(cfg, reqs, i) {
      assert front[..i + 1] == reqs[..i + 1] && responses[i] == earlier[i];
    }
  }

  /** Both backends, request by request: with n requests of the user in the window so far, this
      one included, it passes exactly when n is within the limit. It is told the limit, when
      the window ends and, if it passes, what is left of the limit. */
  lemma {:induction false} ResponsesMeaning(
    cfg: Config, reqs: seq<Request>, window: int, i: nat, responses: seq<Response>)
    requires Comparable(reqs, window) && i < |reqs|
    requires responses == RedisRun(cfg, reqs).1 || responses == LocalRun(cfg, reqs).1
    ensures |responses| == |reqs|
    ensures var response, r := responses[i], reqs[i];
      var n := Total(reqs[..i + 1], r.user, r.Start());
      && (response.Passed? <==> n <= r.limit)
      && response.limit == r.limit
      && response.reset == WindowIndex(r.now, window) * window + window
      && (response.Passed? ==> response.remaining == r.limit - n)
  {
    var r := reqs[i];
    var n := Total(reqs[..i + 1], r.user, r.Start());
    BothRespond(cfg, reqs, window, responses);
    assert responses[i] == Expected(cfg, reqs, i);
    RespondWith(r, cfg, n <= r.limit, r.limit - n);
  }

  lemma {:induction false} BothRespond(cfg: Config, reqs: seq<Request>, window: int, responses: seq<Response>)
    requires Comparable(reqs, window)
    requires responses == RedisRun(cfg, reqs).1 || responses == LocalRun(cfg, reqs).1
    ensures |responses| == |reqs| && forall i | 0 <= i < |reqs| :: responses[i] == Expected(cfg, reqs, i)
  {
    BackendsAgree(cfg, reqs, window);
    RedisResponses(cfg, reqs, window, responses);
  }

  /** A refused request is told to wait until its window has ended or for the cooldown,
      whichever is longer. */
  lemma {:induction false} RefusalsMeaning(
    cfg: Config, reqs: seq<Request>, window: int, i: nat, responses: seq<Response>)
    requires Comparable(reqs, window) && i < |reqs|
    requires responses == RedisRun(cfg, reqs).1 || responses == LocalRun(cfg, reqs).1
    requires |responses| == |reqs| && responses[i].Limited?
    ensures var now := reqs[i].now;
      responses[i].retryAfter
      == Max(WindowIndex(now, window) * window + window - Truncate(now), CooldownSeconds(window, cfg.cooldown))
  {
    var r := reqs[i];
    var n := Total(reqs[..i + 1], r.user, r.Start());
    BothRespond(cfg, reqs, window, responses);
    assert responses[i] == Expected(cfg, reqs, i);
    RespondWith(r, cfg, n <= r.limit, r.limit - n);
  }

  /** Whoever waits that long comes back in a later window. */
  lemma {:induction false} RefusedComeLater(
    cfg: Config, reqs: seq<Request>, window: int, i: nat, responses: seq<Response>, later: real)
    requires Comparable(reqs, window) && i < |reqs|
    requires responses == RedisRun(cfg, reqs).1 || responses == LocalRun(cfg, reqs).1
    requires |responses| == |reqs| && responses[i].Limited?
    requires later >= reqs[i].now + responses[i].retryAfter as real
    ensures WindowIndex(later, window) > WindowIndex(reqs[i].now, window)
  {
    RefusalsMeaning(cfg, reqs, window, i, responses);
    RetryAfterIs(reqs[i].now, later, window, cfg.cooldown);
  }
}
