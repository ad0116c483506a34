/** What the limiter of app/api/local_rate_limiter.py amounts to: a plain counter per user
    and window. When deleting buckets is invisible, and how many requests a window, or any
    interval, lets through. */
module RateLimitReference {
  import opened Text
  import opened LocalRateLimiter

  // ----- the reference: a counter that never forgets -----

  type Counts = map<(string, int), nat>

  function Granted(c: Counts, user: string, start: int): nat {
    if (user, start) in c then c[(user, start)] else 0
  }

  /** The answer when n requests of the window are already on record. */
  function Answer(n: nat, limit: int): Verdict {
    if n >= limit then Verdict(false, 0) else Verdict(true, limit - (n + 1))
  }

  function Count(c: Counts, r: Request): (Counts, Verdict)
    requires r.Valid()
  {
    var n := Granted(c, r.user, r.Start());
    (if n >= r.limit then c else c[(r.user, r.Start()) := n + 1], Answer(n, r.limit))
  }

  function CountRun(reqs: seq<Request>): (res: (Counts, seq<Verdict>))
    requires AllValid(reqs)
    ensures |res.1| == |reqs|
  {
    if reqs == [] then (map[], [])
    else
      var (c, verdicts) := CountRun(reqs[..|reqs| - 1]);
      var (c', v) := Count(c, reqs[|reqs| - 1]);
      (c', verdicts + [v])
  }

  predicate OneWindow(reqs: seq<Request>, window: int) {
    window > 0 && forall i | 0 <= i < |reqs| :: reqs[i].window == window
  }

  predicate FixedLimits(reqs: seq<Request>) {
    forall i, j | 0 <= i < |reqs| && 0 <= j < |reqs| && reqs[i].user == reqs[j].user ::
      reqs[i].limit == reqs[j].limit
  }

  predicate SameLimit(reqs: seq<Request>, user: string, limit: int) {
    forall i | 0 <= i < |reqs| && reqs[i].user == user :: reqs[i].limit == limit
  }

  predicate Hits(r: Request, user: string, start: int)
    requires r.Valid()
  {
    r.user == user && r.Start() == start
  }

  /** Requests of one user in one window, granted or not. */
  function Total(reqs: seq<Request>, user: string, start: int): nat
    requires AllValid(reqs)
  {
    if reqs == [] then 0
    else
      Total(reqs[..|reqs| - 1], user, start) + (if Hits(reqs[|reqs| - 1], user, start) then 1 else 0)
  }

  /** That many places in the list. */
  lemma {:induction false} TotalCounts(reqs: seq<Request>, user: string, start: int) returns (places: seq<nat>)
    requires AllValid(reqs)
    ensures |places| == Total(reqs, user, start)
    ensures forall j, k | 0 <= j < k < |places| :: places[j] < places[k]
    ensures forall i: nat :: i in places <==>
      i < |reqs| && reqs[i].user == user && WindowIndex(reqs[i].now, reqs[i].window) * reqs[i].window == start
  {
    places := [];
    if reqs != [] {
      var n := |reqs| - 1;
      places := TotalCounts(reqs[..n], user, start);
      assert n !in places && forall k | 0 <= k < |places| :: places[k] in places;
      if Hits(reqs[n], user, start) {
        places := places + [n];
      }
    }
  }

  function Capped(n: nat, limit: int): nat {
    if limit <= 0 then 0 else if n <= limit then n else limit
  }

  /** With one limit per user the counter stops exactly at the limit. */
  lemma {:induction false} GrantedIsCapped(reqs: seq<Request>, user: string, start: int, limit: int)
    requires AllValid(reqs) && SameLimit(reqs, user, limit)
    ensures Granted(CountRun(reqs).0, user, start) == Capped(Total(reqs, user, start), limit)
  {
    if reqs != [] {
      GrantedIsCapped(reqs[..|reqs| - 1], user, start, limit);
    }
  }

  lemma {:induction false} GrantedWereAsked(reqs: seq<Request>, user: string, start: int)
    requires AllValid(reqs)
    ensures Granted(CountRun(reqs).0, user, start) <= Total(reqs, user, start)
  {
    if reqs != [] {
      GrantedWereAsked(reqs[..|reqs| - 1], user, start);
    }
  }

  // ----- which cleanups happen, read off the requests alone -----

  /** The reading that last started a cleanup. */
  function LastCleanup(reqs: seq<Request>): real {
    if reqs == [] then 0.0
    else
      var before, now := LastCleanup(reqs[..|reqs| - 1]), reqs[|reqs| - 1].now;
      if now - before > CLEANUP_INTERVAL_SEC then now else before
  }

  /** The last request starts a cleanup that deletes the buckets of this window start. */
  predicate Deletes(reqs: seq<Request>, start: int)
    requires AllValid(reqs) && reqs != []
  {
    var front, last := reqs[..|reqs| - 1], reqs[|reqs| - 1];
    last.now - LastCleanup(front) > CLEANUP_INTERVAL_SEC && start < last.Start() - last.window
  }

  /** Some cleanup deleted the window's bucket after requests of the user had come in it. */
  predicate Wiped(reqs: seq<Request>, user: string, start: int)
    requires AllValid(reqs)
  {
    reqs != [] &&
    var front := reqs[..|reqs| - 1];
    Wiped(front, user, start) || (Deletes(reqs, start) && Total(front, user, start) > 0)
  }

  /** A further request of the user came in the window after that. */
  predicate Revived(reqs: seq<Request>, user: string, start: int)
    requires AllValid(reqs)
  {
    reqs != [] &&
    var front, last := reqs[..|reqs| - 1], reqs[|reqs| - 1];
    Revived(front, user, start) || (Hits(last, user, start) && Wiped(front, user, start))
  }

  /** Some user with a positive limit comes back to a window after its bucket, with earlier
      requests of that user, was deleted. */
  predicate CleanupShows(reqs: seq<Request>)
    requires AllValid(reqs)
  {
    reqs != [] &&
    var front, last := reqs[..|reqs| - 1], reqs[|reqs| - 1];
    CleanupShows(front) || (last.limit > 0 && Wiped(front, last.user, last.Start()))
  }

  lemma {:induction false} WipedWasUsed(reqs: seq<Request>, user: string, start: int)
    requires AllValid(reqs) && Wiped(reqs, user, start)
    ensures Total(reqs, user, start) > 0
  {
    var front := reqs[..|reqs| - 1];
    if Wiped(front, user, start) {
      WipedWasUsed(front, user, start);
    }
  }

  // ----- what the limiter holds, for every clock and every limit -----

  /** The requests granted in a window since its bucket was last deleted. */
  function Held(reqs: seq<Request>, user: string, start: int): nat
    requires AllValid(reqs)
  {
    if reqs == [] then 0
    else
      var front, last := reqs[..|reqs| - 1], reqs[|reqs| - 1];
      var before := if Deletes(reqs, start) then 0 else Held(front, user, start);
      before + (if Hits(last, user, start) && before < last.limit then 1 else 0)
  }

  lemma {:induction false} CleanupTime(reqs: seq<Request>)
    requires AllValid(reqs)
    ensures Run(reqs).0.cleanupLast == LastCleanup(reqs)
  {
    if reqs != [] {
      CleanupTime(reqs[..|reqs| - 1]);
    }
  }

  /** Cleaning empties a bucket or leaves it alone. */
  lemma {:induction false} CleaningOne(s: State, now: real, bound: int, user: string, start: int)
    ensures Entries(Cleaned(s, now, bound).buckets, BucketKey(user, start))
         == if now - s.cleanupLast > CLEANUP_INTERVAL_SEC && start < bound then []
            else Entries(s.buckets, BucketKey(user, start))
  {
    KeyParses(user, start);
  }

  /** Keys are distinct exactly when user or window start are. */
  lemma {:induction false} SameKey(user: string, start: int, user': string, start': int)
    ensures BucketKey(user, start) == BucketKey(user', start') <==> (user, start) == (user', start')
  {
    if BucketKey(user, start) == BucketKey(user', start') {
      KeyInjective(user, start, user', start');
    }
  }

  /** Admission answers by the length of its own bucket and lengthens no other. */
  lemma {:induction false} AdmitOne(s: State, key: string, start: int, limit: int, now: real, key': string)
    requires Since(Entries(s.buckets, key), start) == Entries(s.buckets, key)
    ensures var n, n', admitted :=
              |Entries(s.buckets, key)|, |Entries(s.buckets, key')|, Admit(s, key, start, limit, now);
            && admitted.1 == Answer(n, limit)
            && |Entries(admitted.0.buckets, key')| == n' + (if key == key' && n' < limit then 1 else 0)
  {}

  /** One check, seen through the bucket of any user and window. */
  lemma {:induction false} CheckOne(s: State, r: Request, user: string, start: int)
    requires r.Valid() && Fresh(s.buckets)
    ensures Check(s, r).1 == Answer(|Entries(s.buckets, BucketKey(r.user, r.Start()))|, r.limit)
    ensures var cleans := r.now - s.cleanupLast > CLEANUP_INTERVAL_SEC && start < r.Start() - r.window;
            var before := if cleans then 0 else |Entries(s.buckets, BucketKey(user, start))|;
            |Entries(Check(s, r).0.buckets, BucketKey(user, start))|
            == before + (if Hits(r, user, start) && before < r.limit then 1 else 0)
  {
    CheckAtOne(s, r.user, r.Start(), r.Start() - r.window, r.limit, r.now, user, start, Check(s, r));
  }

  lemma {:induction false} CheckAtOne(
    s: State, own: string, ownStart: int, bound: int, limit: int, now: real, user: string, start: int,
    checked: (State, Verdict))
    requires Fresh(s.buckets) && bound < ownStart
    requires checked == CheckAt(s, BucketKey(own, ownStart), ownStart, bound, limit, now)
    ensures checked.1 == Answer(|Entries(s.buckets, BucketKey(own, ownStart))|, limit)
    ensures var cleans := now - s.cleanupLast > CLEANUP_INTERVAL_SEC && start < bound;
            var before := if cleans then 0 else |Entries(s.buckets, BucketKey(user, start))|;
            |Entries(checked.0.buckets, BucketKey(user, start))|
            == before + (if (own, ownStart) == (user, start) && before < limit then 1 else 0)
  {
    var key := BucketKey(own, ownStart);
    CleaningOne(s, now, bound, own, ownStart);
    CleaningOne(s, now, bound, user, start);
    KeyParses(own, ownStart);
    SinceKeepsBucket(s.buckets, key, ownStart);
    SameKey(own, ownStart, user, start);
    AdmitOne(Cleaned(s, now, bound), key, ownStart, limit, now, BucketKey(user, start));
  }

  /** On every run, whatever the clock and the limits do, a bucket holds what was granted
      in its window since it was last deleted. */
  lemma {:induction false} BucketHolds(reqs: seq<Request>, user: string, start: int)
    requires AllValid(reqs)
    ensures |Entries(Run(reqs).0.buckets, BucketKey(user, start))| == Held(reqs, user, start)
  {
    if reqs != [] {
      var front, last := reqs[..|reqs| - 1], reqs[|reqs| - 1];
      BucketHolds(front, user, start);
      CleanupTime(front);
      FilterDropsNothing(front, last);
      CheckOne(Run(front).0, last, user, start);
    }
  }

  /** The next answers of the limiter and of the counter. */
  lemma {:induction false} NextAnswers(reqs: seq<Request>, r: Request)
    requires AllValid(reqs) && r.Valid()
    ensures Check(Run(reqs).0, r).1 == Answer(Held(reqs, r.user, r.Start()), r.limit)
    ensures Count(CountRun(reqs).0, r).1 == Answer(Granted(CountRun(reqs).0, r.user, r.Start()), r.limit)
  {
    FilterDropsNothing(reqs, r);
    CheckOne(Run(reqs).0, r, r.user, r.Start());
    BucketHolds(reqs, r.user, r.Start());
  }

  // ----- when cleanup is invisible -----

  /** As long as no deletion hit it, a bucket holds all that the counter granted. */
  lemma {:induction false} HeldIsGranted(reqs: seq<Request>, user: string, start: int)
    requires AllValid(reqs)
    ensures !Wiped(reqs, user, start) ==> Held(reqs, user, start) == Granted(CountRun(reqs).0, user, start)
  {
    if reqs != [] && !Wiped(reqs, user, start) {
      var front := reqs[..|reqs| - 1];
      HeldIsGranted(front, user, start);
      GrantedWereAsked(front, user, start);
    }
  }

  /** A cleanup that does not show changes no answer, for any mix of users and limits. */
  lemma {:induction false} HiddenCleanup(reqs: seq<Request>)
    requires AllValid(reqs) && !CleanupShows(reqs)
    ensures Run(reqs).1 == CountRun(reqs).1
  {
    if reqs != [] {
      var front, last := reqs[..|reqs| - 1], reqs[|reqs| - 1];
      HiddenCleanup(front);
      NextAnswers(front, last);
      HeldIsGranted(front, last.user, last.Start());
    }
  }

  /** Before a cleanup shows, a deleted bucket stays empty. */
  lemma {:induction false} WipedIsEmpty(reqs: seq<Request>, user: string, start: int, limit: int)
    requires AllValid(reqs) && SameLimit(reqs, user, limit) && limit > 0
    requires Wiped(reqs, user, start) && !CleanupShows(reqs)
    ensures Held(reqs, user, start) == 0
  {
    var front := reqs[..|reqs| - 1];
    if Wiped(front, user, start) {
      WipedIsEmpty(front, user, start, limit);
    }
  }

  /** With one limit per user, the limiter answers like the counter that forgets nothing
      exactly when no user with a positive limit comes back to a window whose bucket, with
      earlier requests of that user, a cleanup has deleted. */
  lemma {:induction false} CleanupInvisibleIff(reqs: seq<Request>)
    requires AllValid(reqs) && FixedLimits(reqs)
    ensures |Run(reqs).1| == |reqs|
    ensures Run(reqs).1 == CountRun(reqs).1 <==> !CleanupShows(reqs)
  {
    if reqs != [] {
      var front, last := reqs[..|reqs| - 1], reqs[|reqs| - 1];
      CleanupInvisibleIff(front);
      if CleanupShows(front) {
        assert Run(reqs).1[..|front|] == Run(front).1 && CountRun(reqs).1[..|front|] == CountRun(front).1;
      } else if CleanupShows(reqs) {
        FirstShowing(front, last);
        assert Run(reqs).1[|front|] != CountRun(reqs).1[|front|];
      } else {
        HiddenCleanup(reqs);
      }
    }
  }

  lemma {:induction false} FirstShowing(reqs: seq<Request>, r: Request)
    requires AllValid(reqs) && r.Valid() && SameLimit(reqs, r.user, r.limit) && r.limit > 0
    requires !CleanupShows(reqs) && Wiped(reqs, r.user, r.Start())
    ensures Check(Run(reqs).0, r).1 != Count(CountRun(reqs).0, r).1
  {
    NextAnswers(reqs, r);
    WipedIsEmpty(reqs, r.user, r.Start(), r.limit);
    WipedWasUsed(reqs, r.user, r.Start());
    GrantedIsCapped(reqs, r.user, r.Start(), r.limit);
  }

  /** No window a request falls in starts more than one window before an earlier one. */
  predicate SteadyClock(reqs: seq<Request>)
    requires AllValid(reqs)
  {
    forall i, j | 0 <= i < j < |reqs| :: reqs[j].Start() >= reqs[i].Start() - reqs[i].window
  }

  /** It is enough that the clock never falls more than one window below an earlier reading. */
  lemma {:induction false} SmallSetbacksAreSteady(reqs: seq<Request>, window: int)
    requires OneWindow(reqs, window)
    requires forall i, j | 0 <= i < j < |reqs| :: reqs[j].now >= reqs[i].now - window as real
    ensures SteadyClock(reqs)
  {
    forall i, j | 0 <= i < j < |reqs|
      ensures reqs[j].Start() >= reqs[i].Start() - reqs[i].window
    {
      SetbackByOneWindow(reqs[i].now, reqs[j].now, window);
    }
  }

  lemma SetbackByOneWindow(earlier: real, later: real, window: int)
    requires window > 0 && later >= earlier - window as real
    ensures WindowIndex(later, window) * window >= WindowIndex(earlier, window) * window - window
  {
    var i := WindowIndex(earlier, window);
    WindowBounds(earlier, window);
    NextMultiple(i, window);
    IndexFromBounds(later, window, i - 1);
    ScaleInt(i - 1, WindowIndex(later, window), window);
  }

  lemma {:induction false} WipedBySetback(reqs: seq<Request>, user: string, start: int) returns (i: nat)
    requires AllValid(reqs) && Wiped(reqs, user, start)
    ensures i < |reqs| && start < reqs[i].Start() - reqs[i].window
  {
    var front := reqs[..|reqs| - 1];
    if Wiped(front, user, start) {
      i := WipedBySetback(front, user, start);
    } else {
      i := |reqs| - 1;
    }
  }

  lemma {:induction false} SteadyNeverWipes(reqs: seq<Request>, r: Request)
    requires AllValid(reqs) && r.Valid() && AllValid(reqs + [r]) && SteadyClock(reqs + [r])
    ensures !Wiped(reqs, r.user, r.Start())
  {
    var all := reqs + [r];
    forall k | 0 <= k < |reqs| ensures r.Start() >= reqs[k].Start() - reqs[k].window {
      assert all[k] == reqs[k] && all[|reqs|] == r;
    }
    if Wiped(reqs, r.user, r.Start()) {
      var i := WipedBySetback(reqs, r.user, r.Start());
    }
  }

  lemma {:induction false} SteadyNeverShows(reqs: seq<Request>)
    requires AllValid(reqs) && SteadyClock(reqs)
    ensures !CleanupShows(reqs)
  {
    if reqs != [] {
      var front, last := reqs[..|reqs| - 1], reqs[|reqs| - 1];
      SteadyNeverShows(front);
      assert front + [last] == reqs;
      SteadyNeverWipes(front, last);
    }
  }

  /** When the clock never falls more than one window below an earlier reading, deleting
      stale buckets changes no answer: the limiter decides like a counter that forgets
      nothing, for any mix of users and limits. */
  lemma {:induction false} CleanupInvisible(reqs: seq<Request>, window: int)
    requires OneWindow(reqs, window)
    requires forall i, j | 0 <= i < j < |reqs| :: reqs[j].now >= reqs[i].now - window as real
    ensures Run(reqs).1 == CountRun(reqs).1
  {
    SmallSetbacksAreSteady(reqs, window);
    SteadyNeverShows(reqs);
    HiddenCleanup(reqs);
  }

  // ----- grants in windows and in intervals -----

  /** Grants to a user at times from lo up to but excluding hi. */
  function GrantedBetween(reqs: seq<Request>, verdicts: seq<Verdict>, user: string, lo: real, hi: real): nat
    requires |reqs| == |verdicts|
  {
    if reqs == [] then 0
    else
      var n := |reqs| - 1;
      GrantedBetween(reqs[..n], verdicts[..n], user, lo, hi)
        + (if reqs[n].user == user && verdicts[n].allowed && lo <= reqs[n].now < hi then 1 else 0)
  }

  /** Grants to a user in the windows with index from i up to but excluding j. */
  function GrantedInWindows(reqs: seq<Request>, verdicts: seq<Verdict>, user: string, i: int, j: int): nat
    requires |reqs| == |verdicts| && AllValid(reqs)
  {
    if reqs == [] then 0
    else
      var n := |reqs| - 1;
      GrantedInWindows(reqs[..n], verdicts[..n], user, i, j)
        + (if reqs[n].user == user && verdicts[n].allowed && i <= reqs[n].Index() < j then 1 else 0)
  }

  /** Grants to a user in window i. */
  function GrantedInWindow(reqs: seq<Request>, verdicts: seq<Verdict>, user: string, i: int): nat
    requires |reqs| == |verdicts| && AllValid(reqs)
  {
    GrantedInWindows(reqs, verdicts, user, i, i + 1)
  }

  lemma {:induction false} IntervalInWindows(
    reqs: seq<Request>, verdicts: seq<Verdict>, user: string, window: int, lo: real, k: nat)
    requires |reqs| == |verdicts| && OneWindow(reqs, window)
    ensures var i := WindowIndex(lo, window);
            GrantedBetween(reqs, verdicts, user, lo, lo + (k * window) as real)
            <= GrantedInWindows(reqs, verdicts, user, i, i + k + 1)
  {
    if reqs != [] {
      var n := |reqs| - 1;
      IntervalInWindows(reqs[..n], verdicts[..n], user, window, lo, k);
      if lo <= reqs[n].now < lo + (k * window) as real {
        IntervalCovers(lo, reqs[n].now, window, k);
      }
    }
  }

  lemma IntervalCovers(lo: real, now: real, window: int, k: nat)
    requires window > 0 && lo <= now < lo + (k * window) as real
    ensures WindowIndex(lo, window) <= WindowIndex(now, window) <= WindowIndex(lo, window) + k
  {
    var i := WindowIndex(lo, window);
    WindowBounds(lo, window);
    assert (i + k + 1) * window == (i + 1) * window + k * window;
    IndexFromBounds(now, window, i + k);
    IndexFromBounds(now, window, i);
  }

  lemma {:induction false} WindowsSplit(
    reqs: seq<Request>, verdicts: seq<Verdict>, user: string, i: int, j: int, k: int)
    requires |reqs| == |verdicts| && AllValid(reqs) && i <= j <= k
    ensures GrantedInWindows(reqs, verdicts, user, i, k)
         == GrantedInWindows(reqs, verdicts, user, i, j) + GrantedInWindows(reqs, verdicts, user, j, k)
  {
    if reqs != [] {
      var n := |reqs| - 1;
      WindowsSplit(reqs[..n], verdicts[..n], user, i, j, k);
    }
  }

  /** The counter's entry for a window is the number of grants in it. */
  lemma {:induction false} OneWindowGrants(reqs: seq<Request>, user: string, window: int, i: int)
    requires OneWindow(reqs, window)
    ensures GrantedInWindow(reqs, CountRun(reqs).1, user, i)
         == Granted(CountRun(reqs).0, user, i * window)
  {
    if reqs != [] {
      var front, last := reqs[..|reqs| - 1], reqs[|reqs| - 1];
      OneWindowGrants(front, user, window, i);
      SameIndexSameStart(last.Index(), i, window);
      assert CountRun(reqs).1[..|front|] == CountRun(front).1;
    }
  }

  lemma SameIndexSameStart(i: int, j: int, window: int)
    requires window > 0
    ensures i * window == j * window <==> i == j
  {
    if i < j {
      ScaleInt(i + 1, j, window);
    } else if j < i {
      ScaleInt(j + 1, i, window);
    }
  }

  /** If no single window is granted more than cap, n consecutive ones get at most n times that. */
  lemma {:induction false} WindowsAreCapped(
    reqs: seq<Request>, verdicts: seq<Verdict>, user: string, cap: nat, i: int, n: nat)
    requires |reqs| == |verdicts| && AllValid(reqs)
    requires forall j :: GrantedInWindow(reqs, verdicts, user, j) <= cap
    ensures GrantedInWindows(reqs, verdicts, user, i, i + n) <= n * cap
  {
    if n > 0 {
      WindowsAreCapped(reqs, verdicts, user, cap, i, n - 1);
      WindowsSplit(reqs, verdicts, user, i, i + (n - 1), i + n);
      assert i + n == (i + (n - 1)) + 1;
      assert GrantedInWindow(reqs, verdicts, user, i + (n - 1)) <= cap;
      assert n * cap == (n - 1) * cap + cap;
    } else {
      NoWindowsNoGrants(reqs, verdicts, user, i);
    }
  }

  lemma {:induction false} NoWindowsNoGrants(reqs: seq<Request>, verdicts: seq<Verdict>, user: string, i: int)
    requires |reqs| == |verdicts| && AllValid(reqs)
    ensures GrantedInWindows(reqs, verdicts, user, i, i) == 0
  {
    if reqs != [] {
      NoWindowsNoGrants(reqs[..|reqs| - 1], verdicts[..|reqs| - 1], user, i);
    }
  }

  /** An interval of k window lengths, wherever it starts, meets at most k + 1 windows. */
  lemma {:induction false} IntervalIsCapped(
    reqs: seq<Request>, verdicts: seq<Verdict>, window: int, user: string, cap: nat, lo: real, k: nat)
    requires |reqs| == |verdicts| && OneWindow(reqs, window)
    requires forall j :: GrantedInWindow(reqs, verdicts, user, j) <= cap
    ensures GrantedBetween(reqs, verdicts, user, lo, lo + (k * window) as real) <= (k + 1) * cap
  {
    var i := WindowIndex(lo, window);
    IntervalInWindows(reqs, verdicts, user, window, lo, k);
    WindowsAreCapped(reqs, verdicts, user, cap, i, k + 1);
    assert i + (k + 1) == i + k + 1;
  }

  /** The counter keeps the bound on every clock. */
  lemma {:induction false} CounterBurst(reqs: seq<Request>, window: int, user: string, limit: int, lo: real, k: nat)
    requires OneWindow(reqs, window) && SameLimit(reqs, user, limit)
    ensures GrantedBetween(reqs, CountRun(reqs).1, user, lo, lo + (k * window) as real)
            <= (k + 1) * Max(limit, 0)
  {
    forall j ensures GrantedInWindow(reqs, CountRun(reqs).1, user, j) <= Max(limit, 0) {
      OneWindowGrants(reqs, user, window, j);
      GrantedIsCapped(reqs, user, j * window, limit);
    }
    IntervalIsCapped(reqs, CountRun(reqs).1, window, user, Max(limit, 0), lo, k);
  }

  // ----- how much one window lets through, on every clock -----

  /** Of the `total` requests of a user in a window, g were granted, `held` of them since the
      bucket was last deleted. */
  predicate Ledger(total: nat, g: nat, held: nat, limit: int, wiped: bool, revived: bool) {
    && held <= g <= total
    && (!wiped ==> held == g)
    && (wiped ==> total > 0)
    && (!revived ==> g == Capped(total, limit) && (wiped ==> held == 0))
    && (revived ==> held < g && (g > limit <==> total > limit) && (total <= limit ==> g == total))
  }

  lemma LedgerStep(
    total: nat, g: nat, held: nat, limit: int, wiped: bool, revived: bool, deletes: bool, hits: bool)
    requires Ledger(total, g, held, limit, wiped, revived) && limit > 0
    requires !(deletes && hits)
    ensures var before := if deletes then 0 else held;
            var grant := if hits && before < limit then 1 else 0;
            Ledger(total + (if hits then 1 else 0), g + grant, before + grant, limit,
                   wiped || (deletes && total > 0), revived || (hits && wiped))
  {}

  function WindowGrants(reqs: seq<Request>, user: string, i: int): nat
    requires AllValid(reqs)
    requires |Run(reqs).1| == |reqs|
  {
    GrantedInWindow(reqs, Run(reqs).1, user, i)
  }

  lemma {:induction false} AnswerEach(reqs: seq<Request>)
    requires AllValid(reqs)
    ensures |Run(reqs).1| == |reqs|
  {
    if reqs != [] {
      AnswerEach(reqs[..|reqs| - 1]);
    }
  }

  /** The last request adds to a window's grants if it hits the window and its bucket has room. */
  lemma {:induction false} GrantsStep(reqs: seq<Request>, user: string, window: int, i: int)
    requires OneWindow(reqs, window) && reqs != []
    ensures var front, last, start := reqs[..|reqs| - 1], reqs[|reqs| - 1], i * window;
            && |Run(reqs).1| == |reqs| && |Run(front).1| == |front|
            && WindowGrants(reqs, user, i) == WindowGrants(front, user, i)
               + (if Hits(last, user, start) && Held(front, user, start) < last.limit then 1 else 0)
            && !(Deletes(reqs, start) && Hits(last, user, start))
  {
    var front, last := reqs[..|reqs| - 1], reqs[|reqs| - 1];
    AnswerEach(reqs);
    AnswerEach(front);
    SameIndexSameStart(last.Index(), i, window);
    NextAnswers(front, last);
    assert Run(reqs).1[..|front|] == Run(front).1;
  }

  lemma {:induction false} KeepsLedger(reqs: seq<Request>, user: string, window: int, limit: int, i: int)
    requires OneWindow(reqs, window) && SameLimit(reqs, user, limit) && limit > 0
    ensures |Run(reqs).1| == |reqs|
    ensures Ledger(Total(reqs, user, i * window), WindowGrants(reqs, user, i), Held(reqs, user, i * window), limit,
                   Wiped(reqs, user, i * window), Revived(reqs, user, i * window))
  {
    AnswerEach(reqs);
    if reqs != [] {
      var front, last, start := reqs[..|reqs| - 1], reqs[|reqs| - 1], i * window;
      KeepsLedger(front, user, window, limit, i);
      GrantsStep(reqs, user, window, i);
      LedgerStep(Total(front, user, start), WindowGrants(front, user, i), Held(front, user, start), limit,
                 Wiped(front, user, start), Revived(front, user, start), Deletes(reqs, start),
                 Hits(last, user, start));
    }
  }

  lemma {:induction false} NothingGranted(reqs: seq<Request>, user: string, window: int, limit: int, i: int)
    requires OneWindow(reqs, window) && SameLimit(reqs, user, limit) && limit <= 0
    ensures |Run(reqs).1| == |reqs| && WindowGrants(reqs, user, i) == 0
  {
    AnswerEach(reqs);
    if reqs != [] {
      var front, last := reqs[..|reqs| - 1], reqs[|reqs| - 1];
      NothingGranted(front, user, window, limit, i);
      GrantsStep(reqs, user, window, i);
    }
  }

  /** The user asked for more than the limit in a window, and came back to it after a
      cleanup had deleted its bucket. */
  predicate Overdrawn(reqs: seq<Request>, user: string, limit: int, start: int)
    requires AllValid(reqs)
  {
    limit > 0 && Total(reqs, user, start) > limit && Revived(reqs, user, start)
  }

  /** On every clock, a window is granted more than the limit exactly when it is overdrawn. */
  lemma {:induction false} WindowIsCappedIff(reqs: seq<Request>, user: string, window: int, limit: int, i: int)
    requires OneWindow(reqs, window) && SameLimit(reqs, user, limit)
    ensures |Run(reqs).1| == |reqs|
    ensures WindowGrants(reqs, user, i) <= Max(limit, 0) <==> !Overdrawn(reqs, user, limit, i * window)
  {
    if limit > 0 {
      KeepsLedger(reqs, user, window, limit, i);
    } else {
      NothingGranted(reqs, user, window, limit, i);
    }
  }

  /** On every clock, if none of the user's windows is overdrawn, an interval of k window
      lengths, wherever it starts, admits at most k + 1 times the limit. */
  lemma {:induction false} BurstBoundUnlessOverdrawn(
    reqs: seq<Request>, window: int, user: string, limit: int, lo: real, k: nat)
    requires OneWindow(reqs, window) && SameLimit(reqs, user, limit)
    requires forall i :: !Overdrawn(reqs, user, limit, i * window)
    ensures |Run(reqs).1| == |reqs|
    ensures GrantedBetween(reqs, Run(reqs).1, user, lo, lo + (k * window) as real)
            <= (k + 1) * Max(limit, 0)
  {
    AnswerEach(reqs);
    forall j ensures GrantedInWindow(reqs, Run(reqs).1, user, j) <= Max(limit, 0) {
      WindowIsCappedIff(reqs, user, window, limit, j);
    }
    IntervalIsCapped(reqs, Run(reqs).1, window, user, Max(limit, 0), lo, k);
  }

  lemma {:induction false} RevivedBySetback(reqs: seq<Request>, user: string, start: int)
    requires AllValid(reqs) && Revived(reqs, user, start)
    ensures !SteadyClock(reqs)
  {
    var front, last := reqs[..|reqs| - 1], reqs[|reqs| - 1];
    if Revived(front, user, start) {
      RevivedBySetback(front, user, start);
      var i, j :| 0 <= i < j < |front| && front[j].Start() < front[i].Start() - front[i].window;
      assert reqs[j] == front[j] && reqs[i] == front[i];
    } else {
      var i := WipedBySetback(front, user, start);
      assert reqs[i] == front[i] && reqs[|reqs| - 1] == last;
    }
  }

  /** No window is overdrawn, and the bound holds, whenever the clock never falls more than
      one window below an earlier reading. */
  lemma {:induction false} BurstBound(reqs: seq<Request>, window: int, user: string, limit: int, lo: real, k: nat)
    requires OneWindow(reqs, window) && SameLimit(reqs, user, limit)
    requires forall i, j | 0 <= i < j < |reqs| :: reqs[j].now >= reqs[i].now - window as real
    ensures |Run(reqs).1| == |reqs|
    ensures GrantedBetween(reqs, Run(reqs).1, user, lo, lo + (k * window) as real)
            <= (k + 1) * Max(limit, 0)
  {
    SmallSetbacksAreSteady(reqs, window);
    forall i ensures !Overdrawn(reqs, user, limit, i * window) {
      if Revived(reqs, user, i * window) {
        RevivedBySetback(reqs, user, i * window);
      }
    }
    BurstBoundUnlessOverdrawn(reqs, window, user, limit, lo, k);
  }

  lemma {:induction false} OneMore(reqs: seq<Request>, r: Request, user: string, start: int, lo: real, hi: real)
    requires AllValid(reqs) && r.Valid() && AllValid(reqs + [r])
    ensures |Run(reqs).1| == |reqs| && |Run(reqs + [r]).1| == |reqs| + 1
    ensures var cleans := r.now - LastCleanup(reqs) > CLEANUP_INTERVAL_SEC;
            var before := if cleans && start < r.Start() - r.window then 0 else Held(reqs, user, start);
            && LastCleanup(reqs + [r]) == (if cleans then r.now else LastCleanup(reqs))
            && Held(reqs + [r], user, start) == before + (if Hits(r, user, start) && before < r.limit then 1 else 0)
    ensures GrantedBetween(reqs + [r], Run(reqs + [r]).1, user, lo, hi)
         == GrantedBetween(reqs, Run(reqs).1, user, lo, hi)
            + (if r.user == user && Held(reqs, user, r.Start()) < r.limit && lo <= r.now < hi then 1 else 0)
  {
    AnswerEach(reqs);
    AnswerEach(reqs + [r]);
    NextAnswers(reqs, r);
    assert (reqs + [r])[..|reqs|] == reqs;
    assert Run(reqs + [r]).1[..|reqs|] == Run(reqs).1;
  }

  /** Some clocks break the bound: with windows of ten seconds and a limit of one, the
      readings 100, 200, 105, 300, 107 get three requests through between 100 and 110, as
      the readings 200 and 300 each delete the bucket of that window. */
  lemma {:induction false} SetbacksBreakBound(user: string) returns (reqs: seq<Request>)
    ensures OneWindow(reqs, 10) && SameLimit(reqs, user, 1) && |Run(reqs).1| == |reqs|
    ensures GrantedBetween(reqs, Run(reqs).1, user, 100.0, 110.0) == 3 > (1 + 1) * 1
  {
    reqs := [];
    reqs := AtReading(reqs, user, 100.0, 10);
    reqs := AtReading(reqs, user, 200.0, 20);
    reqs := AtReading(reqs, user, 105.0, 10);
    reqs := AtReading(reqs, user, 300.0, 30);
    reqs := AtReading(reqs, user, 107.0, 10);
  }

  lemma {:induction false} AtReading(reqs: seq<Request>, user: string, now: real, i: int) returns (more: seq<Request>)
    requires OneWindow(reqs, 10) && SameLimit(reqs, user, 1) && |Run(reqs).1| == |reqs|
    requires (i * 10) as real <= now < (i * 10 + 10) as real
    ensures more == reqs + [Request(user, 1, 10, now)]
    ensures OneWindow(more, 10) && SameLimit(more, user, 1) && |Run(more).1| == |more|
    ensures var cleans := now - LastCleanup(reqs) > CLEANUP_INTERVAL_SEC;
            var before := if cleans && 10 < i - 1 then 0 else Held(reqs, user, 100);
            && LastCleanup(more) == (if cleans then now else LastCleanup(reqs))
            && Held(more, user, 100) == before + (if i == 10 && before < 1 then 1 else 0)
    ensures GrantedBetween(more, Run(more).1, user, 100.0, 110.0)
         == GrantedBetween(reqs, Run(reqs).1, user, 100.0, 110.0)
            + (if i == 10 && Held(reqs, user, 100) < 1 then 1 else 0)
  {
    var r := Request(user, 1, 10, now);
    more := reqs + [r];
    StartAt(r, i);
    assert i == 10 <==> 100.0 <= now < 110.0;
    OneMore(reqs, r, user, 100, 100.0, 110.0);
  }

  lemma StartAt(r: Request, i: int)
    requires r.window == 10 && (i * 10) as real <= r.now < (i * 10 + 10) as real
    ensures r.Start() == i * 10
  {
    IndexFromBounds(r.now, 10, i);
  }
}
