/** The batch status tracker of app/adapter_models/batch_processing.py: entries found through
    an index by URL and driven by arbitrary sequences of marks. */
module BatchStatus {
  import opened Text

  datatype Status =
    | Pending | Processing | Extracting | Analyzing | Summarizing
    | Retrying | RetryWaiting | Complete | Cached | Failed

  datatype Entry = Entry(
    url: string,
    status: Status,
    title: Option<string>,
    errorType: Option<string>,
    errorMessage: Option<string>,
    processingTimeMs: real,
    startTime: Option<real>,
    contentLength: Option<int>,
    model: Option<string>,
    retryCount: int,
    maxRetries: int)

  /** What one mark_* call carries besides the URL. */
  datatype Mark =
    | ProcessingMark(now: real)
    | ExtractingMark(now: real)
    | AnalyzingMark(title: Option<string>, contentLength: Option<int>, model: Option<string>)
    | SummarizingMark(model: Option<string>)
    | RetryingMark(attempt: Option<int>, maxRetries: Option<int>)
    | RetryWaitingMark
    | CompleteMark(title: Option<string>, timeMs: Option<real>, now: real)
    | CachedMark(title: Option<string>)
    | FailedMark(errorType: string, errorMessage: string, timeMs: Option<real>, now: real)

  function StatusOf(m: Mark): Status {
    match m
    case ProcessingMark(_) => Processing
    case ExtractingMark(_) => Extracting
    case AnalyzingMark(_, _, _) => Analyzing
    case SummarizingMark(_) => Summarizing
    case RetryingMark(_, _) => Retrying
    case RetryWaitingMark => RetryWaiting
    case CompleteMark(_, _, _) => Complete
    case CachedMark(_) => Cached
    case FailedMark(_, _, _, _) => Failed
  }

  /** Python's `if value:` on an optional string or number. */
  function OrKeepText(given: Option<string>, kept: Option<string>): Option<string> {
    if given.Some? && given.value != "" then given else kept
  }

  function OrKeepLength(given: Option<int>, kept: Option<int>): Option<int> {
    if given.Some? && given.value != 0 then given else kept
  }

  /** The processing time on completion: given, or measured from a recorded start. */
  function TimeOn(e: Entry, timeMs: Option<real>, now: real): real {
    if timeMs.Some? then timeMs.value
    else if e.startTime.Some? && e.startTime.value != 0.0 then (now - e.startTime.value) * 1000.0
    else e.processingTimeMs
  }

  function Apply(e: Entry, m: Mark): Entry {
    var e' := e.(status := StatusOf(m));
    match m
    case ProcessingMark(now) => e'.(startTime := Some(now))
    case ExtractingMark(now) => if e.startTime.None? then e'.(startTime := Some(now)) else e'
    case AnalyzingMark(title, contentLength, model) =>
      e'.(title := OrKeepText(title, e.title),
          contentLength := OrKeepLength(contentLength, e.contentLength),
          model := OrKeepText(model, e.model))
    case SummarizingMark(model) => e'.(model := OrKeepText(model, e.model))
    case RetryingMark(attempt, maxRetries) =>
      e'.(retryCount := attempt.GetOr(e.retryCount), maxRetries := maxRetries.GetOr(e.maxRetries))
    case RetryWaitingMark => e'
    case CompleteMark(title, timeMs, now) => e'.(title := title, processingTimeMs := TimeOn(e, timeMs, now))
    case CachedMark(title) => e'.(title := title, processingTimeMs := 0.0)
    case FailedMark(errorType, errorMessage, timeMs, now) =>
      e'.(errorType := Some(errorType), errorMessage := Some(errorMessage),
          processingTimeMs := TimeOn(e, timeMs, now))
  }

  /** The sample a completion or failure adds to the timing list. */
  function Timed(e: Entry, m: Mark): seq<real> {
    var after := Apply(e, m);
    if (m.CompleteMark? || m.FailedMark?) && after.processingTimeMs > 0.0 then [after.processingTimeMs] else []
  }

  // ----- the tracker -----

  datatype State = State(entries: seq<Entry>, index: map<string, nat>, times: seq<real>)

  function Fresh(url: string): Entry {
    Entry(url, Pending, None, None, None, 0.0, None, None, None, 0, 0)
  }

  /** {url: index for index, url in enumerate(urls)}: the last index of a repeated URL wins. */
  function IndexOf(urls: seq<string>): map<string, nat> {
    if urls == [] then map[]
    else IndexOf(urls[..|urls| - 1])[urls[|urls| - 1] := |urls| - 1]
  }

  function FromUrls(urls: seq<string>): State {
    State(seq(|urls|, i requires 0 <= i < |urls| => Fresh(urls[i])), IndexOf(urls), [])
  }

  /** The first entry with the URL, as the linear fallback finds it. */
  function Scan(entries: seq<Entry>, url: string): (r: Option<nat>)
    ensures r.Some? ==> r.value < |entries| && entries[r.value].url == url
    ensures r.Some? ==> forall i | 0 <= i < r.value :: entries[i].url != url
    ensures r.None? ==> forall i | 0 <= i < |entries| :: entries[i].url != url
  {
    if entries == [] then None
    else
      var front := entries[..|entries| - 1];
      var earlier := Scan(front, url);
      if earlier.Some? then earlier
      else if entries[|entries| - 1].url == url then Some(|entries| - 1)
      else None
  }

  function Find(s: State, url: string): (r: Option<nat>)
    ensures r.Some? ==> r.value < |s.entries|
  {
    if url in s.index && s.index[url] < |s.entries| then Some(s.index[url]) else Scan(s.entries, url)
  }

  function Step(s: State, url: string, m: Mark): State {
    match Find(s, url)
    case None => s
    case Some(i) =>
      s.(entries := s.entries[i := Apply(s.entries[i], m)], times := s.times + Timed(s.entries[i], m))
  }

  datatype Event = Event(url: string, mark: Mark)

  function Run(urls: seq<string>, events: seq<Event>): State {
    if events == [] then FromUrls(urls)
    else
      var last := events[|events| - 1];
      Step(Run(urls, events[..|events| - 1]), last.url, last.mark)
  }

  // ----- finding entries -----

  predicate IsLastPlace(urls: seq<string>, i: nat)
    requires i < |urls|
  {
    forall j | i < j < |urls| :: urls[j] != urls[i]
  }

  lemma {:induction false} IndexIsLastPlace(urls: seq<string>, url: string)
    ensures url in IndexOf(urls) <==> url in urls
    ensures url in IndexOf(urls) ==>
      IndexOf(urls)[url] < |urls| && urls[IndexOf(urls)[url]] == url && IsLastPlace(urls, IndexOf(urls)[url])
  {
    if urls != [] {
      IndexIsLastPlace(urls[..|urls| - 1], url);
      assert urls == urls[..|urls| - 1] + [urls[|urls| - 1]];
    }
  }

  /** URLs and index never change. */
  lemma {:induction false} UrlsStay(urls: seq<string>, events: seq<Event>)
    ensures var s := Run(urls, events);
            && s.index == IndexOf(urls)
            && |s.entries| == |urls|
            && forall i | 0 <= i < |urls| :: s.entries[i].url == urls[i]
  {
    if events != [] {
      UrlsStay(urls, events[..|events| - 1]);
    }
  }

  /** A mark reaches the last place of its URL; unknown URLs reach nothing. */
  lemma {:induction false} FindIsLastPlace(urls: seq<string>, events: seq<Event>, url: string)
    ensures var r := Find(Run(urls, events), url);
            && (r.Some? <==> url in urls)
            && (r.Some? ==> r.value < |urls| && urls[r.value] == url && IsLastPlace(urls, r.value))
  {
    UrlsStay(urls, events);
    IndexIsLastPlace(urls, url);
    var s := Run(urls, events);
    if url !in urls {
      assert forall i | 0 <= i < |urls| :: s.entries[i].url != url;
    }
  }

  /** For distinct URLs the index lookup agrees with the linear scan in every reachable state. */
  lemma {:induction false} LookupAgreesWithScan(urls: seq<string>, events: seq<Event>, url: string)
    requires NoRepeats(urls)
    ensures Find(Run(urls, events), url) == Scan(Run(urls, events).entries, url)
  {
    UrlsStay(urls, events);
    FindIsLastPlace(urls, events, url);
    var found, scanned := Find(Run(urls, events), url), Scan(Run(urls, events).entries, url);
    if found.Some? {
      assert scanned.Some?;
    }
  }

  // ----- the last mark decides -----

  function LastStatus(events: seq<Event>, url: string): Status {
    if events == [] then Pending
    else if events[|events| - 1].url == url then StatusOf(events[|events| - 1].mark)
    else LastStatus(events[..|events| - 1], url)
  }

  /** At the last place of its URL an entry's status is that of the last mark on the URL;
      at any earlier place it stays pending. */
  lemma {:induction false} StatusIsLastMark(urls: seq<string>, events: seq<Event>, i: nat)
    requires i < |urls|
    ensures |Run(urls, events).entries| == |urls|
    ensures Run(urls, events).entries[i].status
         == if IsLastPlace(urls, i) then LastStatus(events, urls[i]) else Pending
  {
    if events != [] {
      var front, last := events[..|events| - 1], events[|events| - 1];
      StatusIsLastMark(urls, front, i);
      StepStatus(Run(urls, front), last.url, last.mark, i);
      MarkReaches(urls, front, last.url, i);
    }
  }

  /** Event k is the last on the URL. */
  ghost predicate IsLastOn(events: seq<Event>, url: string, k: int) {
    && 0 <= k < |events| && events[k].url == url
    && forall j | k < j < |events| :: events[j].url != url
  }

  /** After each kind of last mark the status is that of its phase. */
  lemma {:induction false} StatusAfter(urls: seq<string>, events: seq<Event>, i: nat, k: nat)
    requires i < |urls| && IsLastPlace(urls, i) && IsLastOn(events, urls[i], k)
    ensures |Run(urls, events).entries| == |urls|
    ensures var status := Run(urls, events).entries[i].status;
      match events[k].mark
      case ProcessingMark(_) => status == Processing
      case ExtractingMark(_) => status == Extracting
      case AnalyzingMark(_, _, _) => status == Analyzing
      case SummarizingMark(_) => status == Summarizing
      case RetryingMark(_, _) => status == Retrying
      case RetryWaitingMark => status == RetryWaiting
      case CompleteMark(_, _, _) => status == Complete
      case CachedMark(_) => status == Cached
      case FailedMark(_, _, _, _) => status == Failed
  {
    StatusIsLastMark(urls, events, i);
    LastStatusIs(events, urls[i], k);
  }

  lemma {:induction false} LastStatusIs(events: seq<Event>, url: string, k: nat)
    requires IsLastOn(events, url, k)
    ensures LastStatus(events, url) == StatusOf(events[k].mark)
  {
    if k < |events| - 1 {
      LastStatusIs(events[..|events| - 1], url, k);
    }
  }

  lemma {:induction false} NeverMarked(events: seq<Event>, url: string)
    requires forall j | 0 <= j < |events| :: events[j].url != url
    ensures LastStatus(events, url) == Pending
  {
    if events != [] {
      NeverMarked(events[..|events| - 1], url);
    }
  }

  /** The clock shows event k: the last processing mark on the URL, or without one the first
      extraction. */
  ghost predicate Shows(start: Option<real>, events: seq<Event>, url: string, k: nat) {
    if start == None then forall j | 0 <= j < |events| && events[j].url == url :: !Clocks(events[j].mark)
    else
      && k < |events| && events[k].url == url && Clocks(events[k].mark) && start == Some(events[k].mark.now)
      && (forall j | 0 <= j < |events| && events[j].url == url && events[j].mark.ProcessingMark? ::
            events[k].mark.ProcessingMark? && j <= k)
      && (events[k].mark.ExtractingMark? ==>
            forall j | 0 <= j < |events| && events[j].url == url && Clocks(events[j].mark) :: k <= j)
  }

  lemma {:induction false} ShowsNext(start: Option<real>, events: seq<Event>, url: string, k: nat, e: Event)
    requires Shows(start, events, url, k)
    ensures if e.url == url && (e.mark.ProcessingMark? || (e.mark.ExtractingMark? && start == None))
            then Shows(Some(e.mark.now), events + [e], url, |events|)
            else Shows(start, events + [e], url, k)
  {
    var more := events + [e];
    assert forall j | 0 <= j < |events| :: more[j] == events[j];
  }

  lemma {:induction false} ClockStarts(urls: seq<string>, events: seq<Event>, i: nat) returns (k: nat)
    requires i < |urls| && IsLastPlace(urls, i)
    ensures |Run(urls, events).entries| == |urls|
    ensures Shows(Run(urls, events).entries[i].startTime, events, urls[i], k)
  {
    k := 0;
    UrlsStay(urls, events);
    if events != [] {
      var n := |events| - 1;
      var front, last := events[..n], events[n];
      k := ClockStarts(urls, front, i);
      var before := Run(urls, front).entries[i].startTime;
      MarkReaches(urls, front, last.url, i);
      StepClock(Run(urls, front), last.url, last.mark, i);
      ShowsNext(before, front, urls[i], k, last);
      assert front + [last] == events;
      if last.url == urls[i] && (last.mark.ProcessingMark? || (last.mark.ExtractingMark? && before == None)) {
        k := n;
      }
    }
  }

  ghost predicate Clocks(m: Mark) {
    m.ProcessingMark? || m.ExtractingMark?
  }

  lemma {:induction false} StepClock(s: State, url: string, m: Mark, i: nat)
    requires i < |s.entries|
    ensures var s' := Step(s, url, m); var before := s.entries[i].startTime;
      && |s'.entries| == |s.entries|
      && s'.entries[i].startTime
         == if Find(s, url) == Some(i) && m.ProcessingMark? then Some(m.now)
            else if Find(s, url) == Some(i) && m.ExtractingMark? && before == None then Some(m.now)
            else before
  {}

  lemma {:induction false} StepStatus(s: State, url: string, m: Mark, i: nat)
    requires i < |s.entries|
    ensures var s' := Step(s, url, m);
            && |s'.entries| == |s.entries|
            && s'.entries[i].status == if Find(s, url) == Some(i) then StatusOf(m) else s.entries[i].status
  {}

  lemma {:induction false} MarkReaches(urls: seq<string>, events: seq<Event>, url: string, i: nat)
    requires i < |urls|
    ensures Find(Run(urls, events), url) == Some(i) <==> url == urls[i] && IsLastPlace(urls, i)
  {
    FindIsLastPlace(urls, events, url);
  }

  // ----- completion -----

  predicate IsSuccess(e: Entry) {
    e.status in {Complete, Cached}
  }

  predicate IsFailure(e: Entry) {
    e.status == Failed
  }

  function Completed(entries: seq<Entry>): seq<Entry> {
    if entries == [] then []
    else
      var earlier, last := Completed(entries[..|entries| - 1]), entries[|entries| - 1];
      if IsSuccess(last) then earlier + [last] else earlier
  }

  function FailedOnes(entries: seq<Entry>): seq<Entry> {
    if entries == [] then []
    else
      var earlier, last := FailedOnes(entries[..|entries| - 1]), entries[|entries| - 1];
      if IsFailure(last) then earlier + [last] else earlier
  }

  function DoneCount(s: State): nat {
    |Completed(s.entries)| + |FailedOnes(s.entries)|
  }

  predicate IsComplete(s: State) {
    DoneCount(s) >= |s.entries|
  }

  /** The successful entries are the complete and the cached ones, in order. */
  lemma {:induction false} CompletedPlaces(entries: seq<Entry>) returns (places: seq<nat>)
    ensures Increasing(places) && Picks(Completed(entries), entries, places)
    ensures forall i: nat {:trigger i in places} ::
      i in places <==> i < |entries| && (entries[i].status == Complete || entries[i].status == Cached)
  {
    places := [];
    if entries != [] {
      var n := |entries| - 1;
      places := CompletedPlaces(entries[..n]);
      OneMorePick(Completed(entries[..n]), entries, places);
      if entries[n].status == Complete || entries[n].status == Cached {
        OneMorePlace(places, n);
        places := places + [n];
      }
    }
  }

  /** The failed entries, in order. */
  lemma {:induction false} FailedPlaces(entries: seq<Entry>) returns (places: seq<nat>)
    ensures Increasing(places) && Picks(FailedOnes(entries), entries, places)
    ensures forall i: nat {:trigger i in places} :: i in places <==> i < |entries| && entries[i].status == Failed
  {
    places := [];
    if entries != [] {
      var n := |entries| - 1;
      places := FailedPlaces(entries[..n]);
      OneMorePick(FailedOnes(entries[..n]), entries, places);
      if entries[n].status == Failed {
        OneMorePlace(places, n);
        places := places + [n];
      }
    }
  }

  lemma {:induction false} DoneCountsDoneEntries(entries: seq<Entry>)
    ensures |Completed(entries)| + |FailedOnes(entries)| <= |entries|
    ensures |Completed(entries)| + |FailedOnes(entries)| == |entries|
       <==> forall i | 0 <= i < |entries| :: IsSuccess(entries[i]) || IsFailure(entries[i])
  {
    if entries != [] {
      DoneCountsDoneEntries(entries[..|entries| - 1]);
    }
  }

  /** The last mark on the URL is complete, cached or failed. */
  ghost predicate EndsFinished(events: seq<Event>, url: string) {
    exists k :: IsLastOn(events, url, k) && Finishes(events[k].mark)
  }

  ghost predicate Finishes(m: Mark) {
    m.CompleteMark? || m.CachedMark? || m.FailedMark?
  }

  lemma {:induction false} EndsFinishedIff(events: seq<Event>, url: string)
    ensures EndsFinished(events, url) <==> LastStatus(events, url) in {Complete, Cached, Failed}
  {
    if k :| IsLastOn(events, url, k) {
      LastStatusIs(events, url, k);
    } else {
      NoLast(events, url);
      NeverMarked(events, url);
    }
  }

  lemma {:induction false} NoLast(events: seq<Event>, url: string)
    requires forall k :: !IsLastOn(events, url, k)
    ensures forall j | 0 <= j < |events| :: events[j].url != url
  {
    if events != [] {
      var n := |events| - 1;
      assert !IsLastOn(events, url, n);
      forall k ensures !IsLastOn(events[..n], url, k) {
        assert !IsLastOn(events, url, k);
      }
      NoLast(events[..n], url);
    }
  }

  /** The batch is complete exactly when no URL was given twice and the last mark on every
      URL is complete, cached or failed. A repeated URL keeps its earlier entry pending for
      ever, so such a batch never completes, whatever is marked. */
  lemma {:induction false} IsCompleteIff(urls: seq<string>, events: seq<Event>)
    ensures IsComplete(Run(urls, events))
       <==> NoRepeats(urls) && forall i | 0 <= i < |urls| :: EndsFinished(events, urls[i])
  {
    var s := Run(urls, events);
    UrlsStay(urls, events);
    DoneCountsDoneEntries(s.entries);
    forall i | 0 <= i < |urls|
      ensures s.entries[i].status == if IsLastPlace(urls, i) then LastStatus(events, urls[i]) else Pending
    {
      StatusIsLastMark(urls, events, i);
    }
    forall i | 0 <= i < |urls|
      ensures EndsFinished(events, urls[i]) <==> LastStatus(events, urls[i]) in {Complete, Cached, Failed}
    {
      EndsFinishedIff(events, urls[i]);
    }
    if IsComplete(s) {
      forall i, j | 0 <= i < j < |urls| ensures urls[i] != urls[j] {
        assert IsSuccess(s.entries[i]) || IsFailure(s.entries[i]);
      }
      forall i | 0 <= i < |urls| ensures EndsFinished(events, urls[i]) {
        assert IsSuccess(s.entries[i]) || IsFailure(s.entries[i]);
      }
    }
  }

  // ----- timing -----

  function Sum(times: seq<real>): real {
    if times == [] then 0.0 else Sum(times[..|times| - 1]) + times[|times| - 1]
  }

  function Average(times: seq<real>): real {
    if times == [] then 0.0 else Sum(times) / |times| as real
  }

  function CountStatus(entries: seq<Entry>, statuses: set<Status>): nat {
    if entries == [] then 0
    else CountStatus(entries[..|entries| - 1], statuses) + (if entries[|entries| - 1].status in statuses then 1 else 0)
  }

  /** Pending entries and those in the three phases counted as active. */
  function Remaining(s: State): nat {
    CountStatus(s.entries, {Pending}) + CountStatus(s.entries, {Processing, Extracting, Analyzing})
  }

  function Ceiling(a: nat, b: nat): nat
    requires b > 0
  {
    (a + b - 1) / b
  }

  function Seconds(rounds: nat, averageMs: real): (seconds: real)
    ensures seconds * 1000.0 == rounds as real * averageMs
  {
    rounds as real * averageMs / 1000.0
  }

  function Estimate(s: State, concurrency: int): Option<real> {
    var remaining, average := Remaining(s), Average(s.times);
    if remaining == 0 then Some(0.0)
    else if average <= 0.0 then None
    else Some(Seconds(Ceiling(remaining, Max(1, concurrency)), average))
  }

  predicate AllPositive(times: seq<real>) {
    forall i | 0 <= i < |times| :: times[i] > 0.0
  }

  lemma {:induction false} TimesArePositive(urls: seq<string>, events: seq<Event>)
    ensures AllPositive(Run(urls, events).times)
  {
    if events != [] {
      TimesArePositive(urls, events[..|events| - 1]);
    }
  }

  lemma {:induction false} SumIsPositive(times: seq<real>)
    requires AllPositive(times)
    ensures Sum(times) >= 0.0 && (times != [] ==> Sum(times) > 0.0)
  {
    if times != [] {
      SumIsPositive(times[..|times| - 1]);
    }
  }

  lemma PositiveProduct(a: real, b: real)
    requires a > 0.0 && b > 0.0
    ensures a * b / 1000.0 > 0.0 && a / b > 0.0
  {
    assert a == (a / b) * b;
  }

  ghost predicate IsActive(e: Entry) {
    e.status == Processing || e.status == Extracting || e.status == Analyzing
  }

  /** The entries that count as remaining: the pending ones and those in the first three
      phases, but none being summarized or retried. */
  lemma {:induction false} RemainingPlaces(entries: seq<Entry>) returns (pending: seq<nat>, active: seq<nat>)
    ensures Increasing(pending) && Increasing(active)
    ensures forall i: nat {:trigger i in pending} :: i in pending <==> i < |entries| && entries[i].status == Pending
    ensures forall i: nat {:trigger i in active} :: i in active <==> i < |entries| && IsActive(entries[i])
    ensures forall index, times :: Remaining(State(entries, index, times)) == |pending| + |active|
  {
    pending := PendingPlaces(entries);
    active := ActivePlaces(entries);
  }

  lemma {:induction false} PendingPlaces(entries: seq<Entry>) returns (places: seq<nat>)
    ensures Increasing(places) && |places| == CountStatus(entries, {Pending})
    ensures forall i: nat {:trigger i in places} :: i in places <==> i < |entries| && entries[i].status == Pending
  {
    places := [];
    if entries != [] {
      var n := |entries| - 1;
      places := PendingPlaces(entries[..n]);
      if entries[n].status == Pending {
        OneMorePlace(places, n);
        places := places + [n];
      }
    }
  }

  lemma {:induction false} ActivePlaces(entries: seq<Entry>) returns (places: seq<nat>)
    ensures Increasing(places) && |places| == CountStatus(entries, {Processing, Extracting, Analyzing})
    ensures forall i: nat {:trigger i in places} :: i in places <==> i < |entries| && IsActive(entries[i])
  {
    places := [];
    if entries != [] {
      var n := |entries| - 1;
      places := ActivePlaces(entries[..n]);
      if IsActive(entries[n]) {
        OneMorePlace(places, n);
        places := places + [n];
      }
    }
  }

  /** The samples are added up one by one. */
  lemma {:induction false} SumAddsUp(times: seq<real>, t: real)
    ensures Sum([]) == 0.0 && Sum(times + [t]) == Sum(times) + t
  {
    assert (times + [t])[..|times|] == times;
  }

  /** In every reachable state there is no estimate exactly when work remains and nothing was
      timed yet. With nothing remaining the estimate is zero; otherwise it is the mean sample,
      in seconds, for each of the fewest rounds in which that many workers get through what
      remains. */
  lemma {:induction false} EstimateMeaning(urls: seq<string>, events: seq<Event>, concurrency: int)
    returns (rounds: nat, mean: real)
    ensures var s := Run(urls, events); var n := Remaining(s);
      var workers := if concurrency > 1 then concurrency else 1;
      && (Estimate(s, concurrency).None? <==> n > 0 && s.times == [])
      && (Estimate(s, concurrency) == Some(0.0) <==> n == 0)
      && rounds * workers >= n && (rounds == 0 || (rounds - 1) * workers < n)
      && (n > 0 && s.times != [] ==>
            mean == Sum(s.times) / |s.times| as real
            && Estimate(s, concurrency).Some? && Estimate(s, concurrency).value * 1000.0 == rounds as real * mean)
  {
    var s := Run(urls, events);
    TimesArePositive(urls, events);
    SumIsPositive(s.times);
    rounds, mean := Ceiling(Remaining(s), Max(1, concurrency)), 0.0;
    CeilingIsLeast(Remaining(s), Max(1, concurrency));
    if Remaining(s) > 0 && s.times != [] {
      PositiveProduct(Sum(s.times), |s.times| as real);
      PositiveProduct(rounds as real, Average(s.times));
      mean := Sum(s.times) / |s.times| as real;
      assert Average(s.times) == mean;
      assert Estimate(s, concurrency) == Some(Seconds(rounds, mean));
    }
  }

  lemma CeilingIsLeast(a: nat, b: nat)
    requires b > 0
    ensures Ceiling(a, b) * b >= a && (Ceiling(a, b) == 0 || (Ceiling(a, b) - 1) * b < a)
    ensures a > 0 ==> Ceiling(a, b) > 0
  {
    assert a + b - 1 == b * ((a + b - 1) / b) + (a + b - 1) % b;
  }

  // ----- the tracker object -----

  /** Only the entry found for the URL changes, in this way; if the change is timed and leaves a
      positive time, that is recorded too. */
  ghost predicate Changes(before: State, after: State, url: string, change: Entry -> Entry, timed: bool) {
    match Find(before, url)
    case None => after == before
    case Some(i) =>
      var e := change(before.entries[i]);
      && after.entries == before.entries[i := e] && after.index == before.index
      && after.times == before.times + if timed && e.processingTimeMs > 0.0 then [e.processingTimeMs] else []
  }

  /** The time on completion or failure is the given one, else that since a recorded start
      other than zero, in milliseconds, else what the entry had. */
  lemma TimeMeaning(e: Entry, timeMs: Option<real>, now: real)
    ensures timeMs.Some? ==> TimeOn(e, timeMs, now) == timeMs.value
    ensures timeMs == None && (e.startTime == None || e.startTime == Some(0.0)) ==>
      TimeOn(e, timeMs, now) == e.processingTimeMs
    ensures timeMs == None && e.startTime.Some? && e.startTime.value != 0.0 ==>
      TimeOn(e, timeMs, now) == now * 1000.0 - e.startTime.value * 1000.0
  {}

  class URLBatchStatus {
    var entries: seq<Entry>
    var urlIndex: map<string, nat>
    var processingTimes: seq<real>

    ghost function Abs(): State
      reads this
    {
      State(entries, urlIndex, processingTimes)
    }

    constructor (urls: seq<string>)
      ensures Abs() == FromUrls(urls)
      ensures |entries| == |urls| && processingTimes == []
      ensures forall i | 0 <= i < |urls| ::
        entries[i] == Entry(urls[i], Pending, None, None, None, 0.0, None, None, None, 0, 0)
    {
      entries := seq(|urls|, i requires 0 <= i < |urls| => Fresh(urls[i]));
      processingTimes := [];
      var index: map<string, nat> := map[];
      for i := 0 to |urls|
        invariant index == IndexOf(urls[..i])
      {
        assert urls[..i + 1][..i] == urls[..i];
        index := index[urls[i] := i];
      }
      assert urls[..|urls|] == urls;
      urlIndex := index;
    }

    method FindEntry(url: string) returns (found: Option<nat>)
      ensures found == Find(Abs(), url)
    {
      if url in urlIndex {
        var idx := urlIndex[url];
        if idx < |entries| {
          return Some(idx);
        }
      }
      for i := 0 to |entries|
        invariant Scan(entries[..i], url) == None
      {
        assert entries[..i + 1][..i] == entries[..i];
        if entries[i].url == url {
          ScanStops(entries, i + 1, url);
          return Some(i);
        }
      }
      assert entries[..|entries|] == entries;
      return None;
    }

    method MarkProcessing(url: string, now: real)
      modifies this
      ensures Abs() == Step(old(Abs()), url, ProcessingMark(now))
      ensures Changes(old(Abs()), Abs(), url, (e: Entry) => e.(status := Processing, startTime := Some(now)), false)
    {
      var found := FindEntry(url);
      if found.Some? {
        var i := found.value;
        entries := entries[i := entries[i].(status := Processing, startTime := Some(now))];
      }
    }

    method MarkExtracting(url: string, now: real)
      modifies this
      ensures Abs() == Step(old(Abs()), url, ExtractingMark(now))
      ensures Changes(old(Abs()), Abs(), url, (e: Entry) =>
        e.(status := Extracting, startTime := if e.startTime == None then Some(now) else e.startTime), false)
    {
      var found := FindEntry(url);
      if found.Some? {
        var i := found.value;
        var entry := entries[i].(status := Extracting);
        if entry.startTime.None? {
          entry := entry.(startTime := Some(now));
        }
        entries := entries[i := entry];
      }
    }

    method MarkAnalyzing(url: string, title: Option<string>, contentLength: Option<int>, model: Option<string>)
      modifies this
      ensures Abs() == Step(old(Abs()), url, AnalyzingMark(title, contentLength, model))
      ensures Changes(old(Abs()), Abs(), url, (e: Entry) =>
        e.(status := Analyzing,
           title := if title in {None, Some("")} then e.title else title,
           contentLength := if contentLength in {None, Some(0)} then e.contentLength else contentLength,
           model := if model in {None, Some("")} then e.model else model), false)
    {
      var found := FindEntry(url);
      if found.Some? {
        var i := found.value;
        var entry := entries[i].(status := Analyzing);
        if title.Some? && title.value != "" {
          entry := entry.(title := title);
        }
        if contentLength.Some? && contentLength.value != 0 {
          entry := entry.(contentLength := contentLength);
        }
        if model.Some? && model.value != "" {
          entry := entry.(model := model);
        }
        entries := entries[i := entry];
      }
    }

    method MarkSummarizing(url: string, model: Option<string>)
      modifies this
      ensures Abs() == Step(old(Abs()), url, SummarizingMark(model))
      ensures Changes(old(Abs()), Abs(), url, (e: Entry) =>
        e.(status := Summarizing, model := if model in {None, Some("")} then e.model else model), false)
    {
      var found := FindEntry(url);
      if found.Some? {
        var i := found.value;
        var entry := entries[i].(status := Summarizing);
        if model.Some? && model.value != "" {
          entry := entry.(model := model);
        }
        entries := entries[i := entry];
      }
    }

    method MarkRetrying(url: string, attempt: Option<int>, maxRetries: Option<int>)
      modifies this
      ensures Abs() == Step(old(Abs()), url, RetryingMark(attempt, maxRetries))
      ensures Changes(old(Abs()), Abs(), url, (e: Entry) =>
        e.(status := Retrying,
           retryCount := if attempt.Some? then attempt.value else e.retryCount,
           maxRetries := if maxRetries.Some? then maxRetries.value else e.maxRetries), false)
    {
      var found := FindEntry(url);
      if found.Some? {
        var i := found.value;
        var entry := entries[i].(status := Retrying);
        if attempt.Some? {
          entry := entry.(retryCount := attempt.value);
        }
        if maxRetries.Some? {
          entry := entry.(maxRetries := maxRetries.value);
        }
        entries := entries[i := entry];
      }
    }

    method MarkRetryWaiting(url: string)
      modifies this
      ensures Abs() == Step(old(Abs()), url, RetryWaitingMark)
      ensures Changes(old(Abs()), Abs(), url, (e: Entry) => e.(status := RetryWaiting), false)
    {
      var found := FindEntry(url);
      if found.Some? {
        var i := found.value;
        entries := entries[i := entries[i].(status := RetryWaiting)];
      }
    }

    method MarkComplete(url: string, title: Option<string>, timeMs: Option<real>, now: real)
      modifies this
      ensures Abs() == Step(old(Abs()), url, CompleteMark(title, timeMs, now))
      ensures Changes(old(Abs()), Abs(), url, (e: Entry) =>
        e.(status := Complete, title := title, processingTimeMs := TimeOn(e, timeMs, now)), true)
    {
      var found := FindEntry(url);
      if found.Some? {
        var i := found.value;
        Record(i, entries[i].(status := Complete, title := title), timeMs, now);
      }
    }

    method MarkCached(url: string, title: Option<string>)
      modifies this
      ensures Abs() == Step(old(Abs()), url, CachedMark(title))
      ensures Changes(old(Abs()), Abs(), url, (e: Entry) =>
        e.(status := Cached, title := title, processingTimeMs := 0.0), false)
    {
      var found := FindEntry(url);
      if found.Some? {
        var i := found.value;
        entries := entries[i := entries[i].(status := Cached, title := title, processingTimeMs := 0.0)];
      }
    }

    method MarkFailed(url: string, errorType: string, errorMessage: string, timeMs: Option<real>, now: real)
      modifies this
      ensures Abs() == Step(old(Abs()), url, FailedMark(errorType, errorMessage, timeMs, now))
      ensures Changes(old(Abs()), Abs(), url, (e: Entry) =>
        e.(status := Failed, errorType := Some(errorType), errorMessage := Some(errorMessage),
           processingTimeMs := TimeOn(e, timeMs, now)), true)
    {
      var found := FindEntry(url);
      if found.Some? {
        var i := found.value;
        var entry := entries[i].(status := Failed, errorType := Some(errorType), errorMessage := Some(errorMessage));
        Record(i, entry, timeMs, now);
      }
    }

    /** The timing part shared by completion and failure. */
    method Record(i: nat, entry: Entry, timeMs: Option<real>, now: real)
      requires i < |entries|
      modifies this`entries, this`processingTimes
      ensures var time := TimeOn(entry, timeMs, now);
        && entries == old(entries)[i := entry.(processingTimeMs := time)]
        && processingTimes == old(processingTimes) + (if time > 0.0 then [time] else [])
    {
      var time := entry.processingTimeMs;
      if timeMs.Some? {
        time := timeMs.value;
      } else if entry.startTime.Some? && entry.startTime.value != 0.0 {
        time := (now - entry.startTime.value) * 1000.0;
      }
      entries := entries[i := entry.(processingTimeMs := time)];
      if time > 0.0 {
        processingTimes := processingTimes + [time];
      }
    }
  }

  lemma {:induction false} ScanStops(entries: seq<Entry>, i: nat, url: string)
    requires 0 < i <= |entries| && Scan(entries[..i - 1], url).None? && entries[i - 1].url == url
    ensures Scan(entries, url) == Some(i - 1)
  {
    if i < |entries| {
      var front := entries[..|entries| - 1];
      assert front[..i - 1] == entries[..i - 1];
      ScanStops(front, i, url);
    }
  }
}
