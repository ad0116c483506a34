# Verified model of the summarizer's algorithms

The project models the self-contained algorithms and small state machines of the summarizer
backend in Dafny and proves what they are for. `dafny verify dfyconfig.toml` checks all of it.
One module per component:

| file | component | main results |
|---|---|---|
| SentenceChunker.dfy | greedy sentence packer | the packing is optimal and the only tight one; nothing is lost; exact condition for the documented limit |
| TextExtractor.dfy | HTML event handler with a skip depth | equals the recursive rendering; closed form on arbitrary streams |
| ProgressMessage.dfy | editable progress message, per-key locks | mutual exclusion, one message per epoch of a key and one more per failed edit, no deadlock, over all interleavings; what clearing and eviction cost |
| LocalRateLimiter.dfy, RateLimitReference.dfy | in-memory limiter and a plain counter | exact conditions, on every clock, for cleanup to be invisible and for a window to keep its limit; burst bound |
| RateLimitMiddleware.dfy | Redis and in-memory handlers | both backends send the same responses, which say what the request count says |
| FallbackOrderer.dfy | latency ranking with stickiness | who stands where in the order, and why; idempotence; exact condition for the documented promise |
| RepositoryBackfill.dfy | keyset paging over a table it changes | exactly the rows that need it, once each; counters conserve |
| ChunkWindows.dfy, VectorBackfill.dfy | grouped embedding, deferred writes | grouping refines the naive loop; what each summary leaves; exact condition for batching to be invisible; aborted runs |
| SummaryAggregate.dfy | chunk-wise merging | equals one-shot merging; exact condition for the statistics of the chunks at hand |
| SourceAggregation.dfy, SourceCoverage.dfy | contradiction hints, citation index | reported iff two sources disagree; citations are conserved |
| BatchStatus.dfy | URL batch tracker | status is the last mark; completeness characterised |
| JsonValidator.dfy | bounded JSON check | accepts exactly the bounded values; size bound; errors point at a culprit |
| Text.dfy | options, trimming, numerals | round trips the other modules need |

Code that updates state is modelled by classes and loops, each method proved against a
specification function; the theorems are lemmas about those functions. What such a function means
is said once more without it: by the places of a list it picks, by what each kind of input leads
to, or by what one more element adds. Dafny's automatic induction is switched off on lemmas about
sequences; their proofs are the ones written out.

What the models take as given:

- Clock readings are real-number parameters, one per request or segment. The code reads the
  clock twice per API request (`app/api/middleware.py:536`, `app/api/local_rate_limiter.py:44`).
- Backend equivalence is stated for one window length and one limit per key.
- Lower-casing, sentence splitting, number extraction and embedding are arbitrary functions.
- The embedding generator of the repository backfill is an arbitrary function of table and page
  that changes only the page's embeddings and reports each item once.
- The burst bound holds on clocks that never fall more than one window below an earlier reading,
  and on all others for users none of whose windows is overdrawn (`RateLimitReference.Overdrawn`);
  the exact results about cleanup and single windows are about every clock.
- A progress run interleaves segments between awaits; waiting tasks may get a free lock in any
  order, which includes asyncio's first-come order. A segment may also raise. Clearing or evicting
  a key ends an epoch of it; the theorems are about every epoch, and say which results need that
  no task of an earlier epoch is still at work. Two lemmas show what goes wrong otherwise.
- The latency theorems that compare configured positions ask for distinct models
  (`FallbackOrderer.DistinctModelsAreOrdered`); the permutation results do not.

Where the code and its own words differ, the model follows the code:

- `app/core/fallback_orderer.py:103-105` says only gaps of at least the stickiness factor override
  configured order. `FallbackOrderer.PromiseCanFail` shows a violation and
  `FallbackOrderer.PromiseHoldsIff` says exactly when the promise holds.
- `app/core/html_utils.py:257` says chunks stay under the limit; a single longer sentence is a
  chunk of its own. `SentenceChunker.LongSentenceOverruns` shows one and
  `SentenceChunker.WithinLimitIff` says exactly when the limit holds.
- `app/api/local_rate_limiter.py:42` promises at most `limit` requests per window. A clock that
  steps back by more than a window can break that, as in `RateLimitReference.SetbacksBreakBound`;
  `RateLimitReference.WindowIsCappedIff` says exactly when the promise holds.
- `app/core/summary_aggregate.py:83-87` marks a label as seen before its value converts, so
  merging statistics can depend on chunk boundaries; `SummaryAggregate.ChunkwiseIsOneShotIff` says
  exactly when it does not for the chunks at hand, `SummaryAggregate.ChunksDoNotMatterIff` when it
  does not for any chunks.
- `app/cli/backfill_vector_store.py:225-233` deletes at once while replacements wait, so a
  repeated request id can end with the older write; `VectorBackfill.BatchedEqualsDirectIff` says
  exactly when the result is that of immediate writing.
- `app/cli/backfill_vector_store.py:291-299` handles an empty vector list, which a non-empty list
  of windows never produces; `app/core/json_depth_validator.py:78` never fires either.
- A paging run starts at cursor 0 (`app/cli/backfill_repository_embeddings.py:90`), so rows with
  ids of zero or less are never visited; a limit of zero or less in `_dedupe_list` and
  `_merge_key_stats` acts as one.

## Model

| member | source | states |
|---|---|---|
| SentenceChunker.ChunkSentences | app/core/html_utils.py:256-278 | A value that is not a list gives no chunks. Otherwise the chunks are the joins of a tight packing of the trimmed non-empty sentences in order: every chunk is a single sentence or within max_chars, and together with a space and the next sentence it would not be; no other ordered split into admissible groups is shorter, joining the chunks reads like joining the sentences, and every chunk is within max_chars exactly when every sentence is |
| SentenceChunker.WordsPlaces | app/core/html_utils.py:263-266 | The sentences packed are the entries that hold a character other than space, trimmed, in order |
| SentenceChunker.WithinLimitIff | app/core/html_utils.py:257-278 | The documented limit holds of the chunks exactly when no sentence is longer than it |
| SentenceChunker.LongSentenceOverruns | app/core/html_utils.py:257-277 | With a limit of two and one sentence of three characters the only chunk is over the limit |
| SentenceChunker.StaysAhead | app/core/html_utils.py:267-275 | After i groups a tight packing has consumed at least as many sentences as any other admissible packing |
| SentenceChunker.TightIsOptimal | app/core/html_utils.py:256-278 | A tight packing uses the fewest groups among all ordered splits whose groups are single sentences or join to at most max_chars |
| SentenceChunker.TightIsUnique | app/core/html_utils.py:256-278 | Two tight packings of the same sentences are equal, so tightness determines the output completely |
| SentenceChunker.JoinOfChunks | app/core/html_utils.py:268-277 | Joining the chunks reads like joining the sentences: nothing is lost, repeated or reordered |
| SentenceChunker.StartGroup | app/core/html_utils.py:267-270 | Emitting the buffer keeps the loop invariant: `size` is the joined length of `buf` and the groups so far are tight |
| SentenceChunker.GrowGroup | app/core/html_utils.py:271-275 | Extending the buffer keeps the same invariant, the separating space included |
| TextExtractor.ArbitraryStream | app/core/html_utils.py:40-63 | On every event stream, nested or not, the skip depth is the balance of script/style tags minus the lowest balance reached, hence never negative, and the buffer is the output of the events standing at that lowest balance |
| TextExtractor.StreamRendersNode | app/core/html_utils.py:40-63 | Handling the events of a well-nested element appends its recursive rendering when nothing is being skipped, appends nothing otherwise, and restores the skip depth |
| TextExtractor.StreamRendersAll | app/core/html_utils.py:40-63 | The same for a sequence of sibling nodes |
| TextExtractor.DocumentRoundTrip | app/core/html_utils.py:35-63 | A fresh handler fed a well-nested document holds exactly the recursive rendering without script/style subtrees, at depth zero |
| TextExtractor.Extractor.HandleStarttag | app/core/html_utils.py:40-51 | script and style raise the skip depth; at depth zero br, li, the six block tags and the six headings append their line breaks; nothing else appends anything |
| TextExtractor.Extractor.HandleEndtag | app/core/html_utils.py:53-57 | A closing script or style lowers the depth only when it is positive; at depth zero p and div append a line break |
| TextExtractor.Extractor.HandleData | app/core/html_utils.py:59-63 | Trimmed non-empty text is kept only outside script/style |
| TextExtractor.Extractor.Feed | app/core/html_utils.py:40-63 | Feeding a stream is the fold of the three transitions |
| ProgressMessage.EveryRunIsSafe | app/core/telegram_progress_message.py:66-162 | In every interleaving, for every key, cleared or evicted as often as may be: tasks inside the critical section together entered in different epochs of the key (an epoch ends when the key is forgotten); in every epoch in which no task of an earlier one ran, messages sent number at most one plus the failed edits; if the current epoch is such a one, the table tracks its last message and every id its tasks returned was sent in it |
| ProgressMessage.ForgottenBetween | app/core/telegram_progress_message.py:79-162 | Two tasks of a key are inside the critical section together only if the key was cleared or evicted after one of them entered and before the other had its lock |
| ProgressMessage.ClearedKeyStartsAfresh | app/core/telegram_progress_message.py:137-162 | A key cleared while no task of it is unfinished, as finalize does after its last update, starts afresh: until it is forgotten again, messages sent number at most one plus the failed edits |
| ProgressMessage.EpochStaysClean | app/core/telegram_progress_message.py:79-162 | An epoch at some point of which no unfinished task of an earlier one is left, and none has run, stays free of them to its end |
| ProgressMessage.OneMessagePerKey | app/core/telegram_progress_message.py:66-124 | If in such an epoch no edit failed either, at most one message was sent, every finished task of the epoch returned its id, and it exists as soon as one task has finished |
| ProgressMessage.FailedEditsAreResent | app/core/telegram_progress_message.py:99-124 | In an epoch in which every send got through, no draft was delivered, nothing was raised and no task of an earlier epoch ran, however many edits failed: every finished task of the epoch returned the id of a message that was sent, and once one has finished and none is sending there is one message and one more for each failed edit |
| ProgressMessage.RepliesLeadTo | app/core/telegram_progress_message.py:83-124 | Where each reply of lock and transport takes a task: a delivered draft returns the tracked id, a failed edit leads to a send, and only a send that got through is recorded, with its time |
| ProgressMessage.KeylessReply | app/core/telegram_progress_message.py:66-78 | A task without a key sends a plain reply, returns no id and touches nothing |
| ProgressMessage.OtherKeysUntouched | app/core/telegram_progress_message.py:42-124 | A step of one key leaves every other task and every other key's histories as they were, and that key's entry, lock and epoch too, unless entering evicts it as stale |
| ProgressMessage.ForeignSegment | app/core/telegram_progress_message.py:42-50 | The table-level form: another key is either evicted for being stale or untouched |
| ProgressMessage.StepKeepsLocks | app/core/telegram_progress_message.py:34-40 | Each lock object is held by exactly the one task inside its critical section, across every step |
| ProgressMessage.CriticalAlone | app/core/telegram_progress_message.py:81-124 | Two tasks of one key and epoch inside the critical section are the same task |
| ProgressMessage.OwnSegment | app/core/telegram_progress_message.py:82-124 | A task's own segment keeps table, send history and phase of its key in agreement |
| ProgressMessage.Bystander | app/core/telegram_progress_message.py:82-124 | The same segment keeps another task of the key in agreement |
| ProgressMessage.StepKeepsKey | app/core/telegram_progress_message.py:52-162 | One step of any kind keeps every key's invariant, forgetting the key included |
| ProgressMessage.ForgetKeepsKey | app/core/telegram_progress_message.py:42-50 | Forgetting keys opens a new epoch for them, with nothing on record, and keeps every key's invariant |
| ProgressMessage.EnterKeepsKey | app/core/telegram_progress_message.py:79-82 | Entering with the key's lock, found or new, keeps the invariant |
| ProgressMessage.SegmentKeepsKey | app/core/telegram_progress_message.py:82-135 | Any later segment, by a task of the current or of an earlier epoch, keeps the invariant |
| ProgressMessage.StepKeepsInv | app/core/telegram_progress_message.py:52-162 | Every step of the system, arrivals, clears and exceptions included, keeps the whole invariant |
| ProgressMessage.RunKeepsInv | app/core/telegram_progress_message.py:52-162 | The invariant holds at the end of every run |
| ProgressMessage.SegmentsRunOut | app/core/telegram_progress_message.py:66-135 | Each segment brings its task strictly closer to its end and moves no other task |
| ProgressMessage.NeverStuck | app/core/telegram_progress_message.py:81-124 | No deadlock: an unfinished task can run, or waits for a lock whose holder can run |
| ProgressMessage.ClearBreaksExclusion | app/core/telegram_progress_message.py:157-162 | From every reachable state with a task of the key inside the critical section, clearing the key lets the next update go on to send while the first is still inside, because clear drops the lock object |
| ProgressMessage.EvictionRepeatsMessage | app/core/telegram_progress_message.py:42-50 | A run in which an entry aged past the time-to-live is evicted and the next update sends a second message although nothing failed |
| ProgressMessage.TelegramProgressMessage.GetLock | app/core/telegram_progress_message.py:34-40 | Returns the key's lock, creating it when absent, and changes nothing else |
| ProgressMessage.TelegramProgressMessage.EvictStale | app/core/telegram_progress_message.py:42-50 | Drops entry and lock of exactly the keys whose entry is more than 3600 seconds old |
| ProgressMessage.TelegramProgressMessage.BeginUpdate | app/core/telegram_progress_message.py:79-82 | The table after the first segment of an update is that of the state machine's Enter event |
| ProgressMessage.TelegramProgressMessage.ChooseTransport | app/core/telegram_progress_message.py:94-98 | Edit when a message is tracked, send otherwise |
| ProgressMessage.TelegramProgressMessage.FinishSend | app/core/telegram_progress_message.py:115-124 | The table after a send is that of the state machine's SendReturns event: the new id and its time if the send got through, else what it was |
| ProgressMessage.TelegramProgressMessage.Clear | app/core/telegram_progress_message.py:157-162 | Forgets exactly the one key |
| Text.DecimalRoundTrip | app/api/local_rate_limiter.py:46-51 | Reading back a printed integer gives the integer, negative ones included |
| Text.LastSegmentOfJoin | app/api/local_rate_limiter.py:46-51 | The last colon-separated segment survives any number of colons before it |
| Text.StripCuts | app/core/html_utils.py:264 | What str.strip removes at both ends is space, and what is left neither begins nor ends with any |
| LocalRateLimiter.KeyParses | app/api/local_rate_limiter.py:46-51 | The window start parses back from the bucket key although user ids may contain colons |
| LocalRateLimiter.KeyInjective | app/api/local_rate_limiter.py:46 | Equal bucket keys come from equal users and equal window starts |
| LocalRateLimiter.WindowBounds | app/api/local_rate_limiter.py:45 | A clock reading lies in its window, for readings of either sign |
| LocalRateLimiter.IndexFromBounds | app/api/local_rate_limiter.py:45 | A reading between the edges of a window has that window's index |
| LocalRateLimiter.CheckKeepsFresh | app/api/local_rate_limiter.py:44-65 | Every check keeps each bucket under a well-formed key with only timestamps of its own window |
| LocalRateLimiter.SinceKeepsAll | app/api/local_rate_limiter.py:59 | The timestamp filter returns a bucket without older entries unchanged |
| LocalRateLimiter.FilterDropsNothing | app/api/local_rate_limiter.py:57-59 | Over any run the per-bucket timestamp filter never drops anything |
| LocalRateLimiter.Limiter.CheckRequest | app/api/local_rate_limiter.py:36-65 | State and verdict are those of one check on the bucket of the window that holds the clock reading, with the start of the window before it as the cleanup bound |
| LocalRateLimiter.CheckMeaning | app/api/local_rate_limiter.py:49-65 | One check cleans up when the last cleanup is more than 60 seconds ago, which deletes exactly the buckets of windows that began before the bound; then the own bucket keeps what is not older than the window and grows by the request exactly when that is below the limit, which is when it is allowed; the other buckets stay |
| LocalRateLimiter.SincePlaces | app/api/local_rate_limiter.py:59 | The filter keeps exactly the timestamps at or after the window start, in order |
| LocalRateLimiter.StartMeaning | app/api/local_rate_limiter.py:45 | A window starts at the multiple of its length at or before the reading and ends after it |
| LocalRateLimiter.Limiter.AdmitInto | app/api/local_rate_limiter.py:57-65 | Filter, compare, append: as specified |
| LocalRateLimiter.Limiter.DeleteStale | app/api/local_rate_limiter.py:50-54 | Removes exactly the buckets whose key parses to a start before the bound |
| LocalRateLimiter.Limiter.DropBefore | app/api/local_rate_limiter.py:59 | Keeps exactly the timestamps at or after the window start, in order |
| LocalRateLimiter.Limiter.Reset | app/api/local_rate_limiter.py:67-71 | Back to the initial state |
| RateLimitReference.BucketHolds | app/api/local_rate_limiter.py:44-65 | On every run, whatever clock and limits do, a bucket holds as many timestamps as were granted in its window since it was last deleted |
| RateLimitReference.NextAnswers | app/api/local_rate_limiter.py:57-65 | The next answers of limiter and counter, from what each has on record |
| RateLimitReference.CleanupInvisibleIff | app/api/local_rate_limiter.py:49-65 | With one limit per user, the limiter answers like a counter that never forgets exactly when no user with a positive limit comes back to a window after a cleanup deleted its bucket with earlier requests of that user, which is read off the requests alone |
| RateLimitReference.HiddenCleanup | app/api/local_rate_limiter.py:49-65 | For any mix of limits, if no user comes back to such a window, every answer is the counter's |
| RateLimitReference.SmallSetbacksAreSteady | app/api/local_rate_limiter.py:49-55 | A clock that never falls more than one window below an earlier reading is steady |
| RateLimitReference.CleanupInvisible | app/api/local_rate_limiter.py:44-65 | If the clock never falls more than one window below an earlier reading, every verdict equals that of a plain counter per user and window |
| RateLimitReference.GrantedIsCapped | app/api/local_rate_limiter.py:61-65 | With one limit per user the grants of a window are the requests of that window, capped at the limit |
| RateLimitReference.TotalCounts | app/api/local_rate_limiter.py:44-65 | The requests counted are the places in the list with that user and a reading in that window |
| RateLimitReference.OneWindowGrants | app/api/local_rate_limiter.py:61-65 | The counter's entry is the number of grants in that window |
| RateLimitReference.WindowsAreCapped | app/api/local_rate_limiter.py:61-65 | If no single window is granted more than a cap, n consecutive windows are granted at most n times the cap |
| RateLimitReference.CounterBurst | app/api/local_rate_limiter.py:44-65 | The counter keeps the burst bound on every clock |
| RateLimitReference.WindowIsCappedIff | app/api/local_rate_limiter.py:42-65 | On every clock, a window is granted at most its limit unless the user asked for more than the limit in it and came back to it after its bucket had been deleted, and exactly then |
| RateLimitReference.KeepsLedger | app/api/local_rate_limiter.py:44-65 | How requests, grants, held timestamps and deletions of one window hang together after any run |
| RateLimitReference.BurstBoundUnlessOverdrawn | app/api/local_rate_limiter.py:44-65 | On every clock, if no window of the user is overdrawn in that sense, any half-open interval of k window lengths admits at most (k+1) times the limit |
| RateLimitReference.BurstBound | app/api/local_rate_limiter.py:44-65 | In particular, if the clock never falls more than one window below an earlier reading, any half-open interval of k window lengths, wherever it starts, admits at most (k+1) times the limit per user |
| RateLimitReference.SetbacksBreakBound | app/api/local_rate_limiter.py:49-65 | Without that, it can fail: window 10, limit 1, readings 100, 200, 105, 300, 107 get three requests through in [100, 110) |
| RateLimitMiddleware.BackendsAgree | app/api/middleware.py:309-411 | On every request sequence with a nondecreasing clock, one window length and one limit per key, the Redis and the in-memory handler send the same responses: decision, remaining, reset and retry delay |
| RateLimitMiddleware.ResponsesMeaning | app/api/middleware.py:309-411 | On such a sequence, with either backend and n requests of the user in the window so far, a request passes exactly when n is within its limit; it is told the limit, the end of its window and, when it passes, limit - n |
| RateLimitMiddleware.RefusalsMeaning | app/api/middleware.py:285-286 | A refused request is told to wait until its window has ended, or for the cooldown if that is longer |
| RateLimitMiddleware.RefusedComeLater | app/api/middleware.py:285-286 | Whoever waits as long as the response says comes back in a strictly later window |
| RateLimitMiddleware.RedisKeyText | app/infrastructure/redis.py:121-124 | The key is prefix, "rate", the rate key unless it is empty, and the window start, separated by colons |
| RateLimitMiddleware.TtlOutlivesWindow | app/api/middleware.py:373 | The expiry set by a request lies at or beyond the end of its window |
| RateLimitMiddleware.RedisTracks | app/api/middleware.py:372-377 | At every point of a run each live window's Redis counter is the number of requests of that window, and none has expired early |
| RateLimitMiddleware.RedisStep | app/api/middleware.py:372-377 | One more request keeps that correspondence |
| RateLimitMiddleware.RedisByTotal | app/api/middleware.py:372-411 | The Redis response, expressed by the number of earlier requests in the window |
| RateLimitMiddleware.NextVerdict | app/api/local_rate_limiter.py:44-65 | The in-memory limiter's next verdict is the reference counter's |
| RateLimitMiddleware.StartsAgree | app/api/middleware.py:536-537 | The middleware's window start from whole seconds equals the limiter's from the same fractional reading |
| RateLimitMiddleware.RetryLandsLater | app/api/middleware.py:285-286 | A denied client that waits the computed Retry-After lands in a strictly later window |
| RateLimitMiddleware.RedisKeyInjective | app/infrastructure/redis.py:121-124 | Different (key, window) pairs never share a Redis key, although empty parts are skipped |
| RateLimitMiddleware.RedisClient.Incr | app/api/middleware.py:374-377 | INCR: a missing or expired key counts from zero, a live one keeps its expiry, other live keys are untouched |
| RateLimitMiddleware.RedisClient.Expire | app/api/middleware.py:376 | EXPIRE replaces the expiry of an existing key and nothing else |
| RateLimitMiddleware.RedisClient.IncrAndExpire | app/api/middleware.py:374-377 | The pipeline is one Touch of the key, answering the new count |
| RateLimitMiddleware.HandleRedisRateLimit | app/api/middleware.py:358-411 | Store and response are those of the decision that ResponsesMeaning and RefusalsMeaning are about |
| RateLimitMiddleware.HandleLocalRateLimit | app/api/middleware.py:309-355 | Limiter state and response are those of the decision that ResponsesMeaning and RefusalsMeaning are about |
| FallbackOrderer.RankPermutes | app/core/fallback_orderer.py:112-127 | Ranking is a permutation of its input, for every factor and every latency |
| FallbackOrderer.ScanResult | app/core/fallback_orderer.py:118-124 | The model a scan ends with is its starting head or overtakes it, and no later model overtakes that model |
| FallbackOrderer.ScanSkips | app/core/fallback_orderer.py:120-124 | A model passed over although the pick does not overtake it was shielded by an earlier head, which the pick overtakes and it does not |
| FallbackOrderer.PickBeatsFirst | app/core/fallback_orderer.py:118-126 | The model taken is the earliest waiting one or faster than it by the factor |
| FallbackOrderer.PickJumps | app/core/fallback_orderer.py:118-126 | Every model the pick jumps is overtaken by it, or shielded by an earlier one that the pick overtakes and the jumped model does not |
| FallbackOrderer.FasterGoesFirst | app/core/fallback_orderer.py:115-127 | For a factor above one no model stands before one at least that many times faster |
| FallbackOrderer.RankIsIdentity | app/core/fallback_orderer.py:115-127 | Ranking changes nothing exactly when no configured model is at least s times slower than a later one |
| FallbackOrderer.RankIdempotent | app/core/fallback_orderer.py:115-127 | Ranking its own output again changes nothing |
| FallbackOrderer.FactorOneSorts | app/core/fallback_orderer.py:115-127 | With factor one the output is sorted by latency |
| FallbackOrderer.Reversal | app/core/fallback_orderer.py:115-127 | Why a configured pair is reversed: the promoted model overtakes the other, or an earlier model that the other does not overtake |
| FallbackOrderer.PromotedIsFaster | app/core/fallback_orderer.py:115-127 | In every reversed pair the promoted model is strictly faster |
| FallbackOrderer.PromotionsBeatTheEarliest | app/core/fallback_orderer.py:115-127 | At every position stands the earliest configured model still waiting, or one that beats it by the factor |
| FallbackOrderer.PromiseHoldsIff | app/core/fallback_orderer.py:103-105 | The documented promise that only gaps of at least the factor override configured order holds exactly when the latencies contain no bystander: three models in configured order of which the last overtakes the first, while the middle one neither overtakes the first nor is overtaken by the last |
| FallbackOrderer.PromiseCanFail | app/core/fallback_orderer.py:103-127 | Latencies 100, 60, 50 with factor two: the 50 jumps the 60 |
| FallbackOrderer.SortSorts | app/core/fallback_orderer.py:111-112 | The stable sort by configured position sorts and keeps the multiset |
| FallbackOrderer.DistinctModelsAreOrdered | app/core/fallback_orderer.py:111-112 | Distinct configured models satisfy what the ranking theorems ask of their input |
| FallbackOrderer.LastIndexIsLast | app/core/fallback_orderer.py:111 | A repeated model keeps its last configured position |
| FallbackOrderer.RankedNames | app/core/fallback_orderer.py:112-127 | The ranked names are the observed names with multiplicity |
| FallbackOrderer.PickNext | app/core/fallback_orderer.py:118-124 | The inner loop computes the pick |
| FallbackOrderer.RankWithStickiness | app/core/fallback_orderer.py:95-127 | The loop computes the specified ranking, a permutation of the observed names |
| FallbackOrderer.ObservedAndColdCoverAll | app/core/fallback_orderer.py:62-69 | Observed and cold models together are all candidates, with multiplicity |
| FallbackOrderer.GatherFails | app/core/fallback_orderer.py:61-75 | One failed lookup fails the whole gathering, whatever follows |
| FallbackOrderer.GatherTrace | app/core/fallback_orderer.py:61-92 | Lookup by lookup: a cached entry younger than a positive time-to-live is used, otherwise the answer is stored with the time; the gathering stops at the first question that fails, and else yields the statistics then on record |
| FallbackOrderer.NonPrimaryPlaces | app/core/fallback_orderer.py:57 | The candidates are the fallbacks other than the primary, with multiplicity and in order |
| FallbackOrderer.OrderPlaces | app/core/fallback_orderer.py:54-80 | Which candidate stands where: first exactly those with a latency from ten samples or more, then the rest as configured. For a factor above one none of the former is at least that many times faster than one before it; for distinct candidates next comes the earliest configured still waiting or one that beats it by the factor, and every reversed pair is explained |
| FallbackOrderer.OrderRearranges | app/core/fallback_orderer.py:54-80 | Primary first, then exactly the candidates with their multiplicities, whether the lookups succeed or fail |
| FallbackOrderer.Orderer.Lookup | app/core/fallback_orderer.py:82-92 | A fresh cached entry is used, otherwise the repository is asked and the cache updated; a failure leaves the cache |
| FallbackOrderer.Orderer.LookupAll | app/core/fallback_orderer.py:61-75 | The lookups in turn split the candidates into observed and cold, or fail as a whole |
| FallbackOrderer.Orderer.Candidates | app/core/fallback_orderer.py:57 | The fallbacks without the primary, in order |
| FallbackOrderer.Orderer.Order | app/core/fallback_orderer.py:54-80 | The primary comes first and the rest is a rearrangement of the other fallbacks, arranged as OrderPlaces says; without statistics they stand as configured |
| RepositoryBackfill.Backfill | app/cli/backfill_repository_embeddings.py:85-214 | The ids visited are, ascending and once each, exactly those of rows with a positive id whose embedding is missing or, with a target given, of another version, and of the given user if there is one, as they were at the start, although processing changes them. A real run hands page after page to the processing, all full but the last, and leaves the table as that did; its counters account for every visited row. A dry run changes nothing and counts |
| RepositoryBackfill.RunPage | app/cli/backfill_repository_embeddings.py:119-211 | One page keeps the loop's invariant, visits exactly its rows and leaves the rest to be visited |
| RepositoryBackfill.SelectMeaning | app/cli/backfill_repository_embeddings.py:92-115 | An id is selected exactly when a row beyond the cursor has it, its embedding is missing or a target is given and its version differs, and it is of the given user if there is one |
| RepositoryBackfill.WorkedOn | app/cli/backfill_repository_embeddings.py:165-172 | One more page on the record of what was handed to the processing and what came of it |
| RepositoryBackfill.ChosenPlaces | app/cli/backfill_repository_embeddings.py:173-187 | The ids done on the per-row path are those whose call succeeded, in order |
| RepositoryBackfill.MissingPlaces | app/cli/backfill_repository_embeddings.py:189-197 | Counted as created are the successes on rows that had no embedding when the run started |
| RepositoryBackfill.NextPageStartsWhereThisEnds | app/cli/backfill_repository_embeddings.py:92-122 | Continuing after the n-th selected id leaves exactly the rows not yet seen |
| RepositoryBackfill.SelectOnlyReadsBeyond | app/cli/backfill_repository_embeddings.py:100-117 | The query sees only rows beyond the cursor, so changes behind it cannot matter |
| RepositoryBackfill.SelectIsSorted | app/cli/backfill_repository_embeddings.py:100-101 | The selection is sorted, from the table and beyond the cursor |
| RepositoryBackfill.NextPage | app/cli/backfill_repository_embeddings.py:117-122 | One page advances the cursor and the list of visited ids together |
| RepositoryBackfill.CountPage | app/cli/backfill_repository_embeddings.py:165-209 | created + refreshed + errors is the page size on the batch path and on the per-row path, and created counts the successes flagged missing |
| RepositoryBackfill.CountRetries | app/cli/backfill_repository_embeddings.py:173-192 | The per-row path counts each row once |
| RepositoryBackfill.CountSuccesses | app/cli/backfill_repository_embeddings.py:194-198 | The batch path splits successes by the missing flag |
| RepositoryBackfill.FlagMissing | app/cli/backfill_repository_embeddings.py:125-163 | The page's table of missing flags |
| RepositoryBackfill.FlaggedIsMissing | app/cli/backfill_repository_embeddings.py:129-163 | The flags tell which rows had no embedding when the run started |
| RepositoryBackfill.TallyPage | app/cli/backfill_repository_embeddings.py:165-211 | The counters keep accounting for all rows visited so far |
| ChunkWindows.GenerateChunkWindowVectors | app/cli/backfill_vector_store.py:80-113 | Succeeds exactly when every language's batch has the right length; otherwise the error gives the lengths for the first window whose language's batch has not; on success window i gets the entry of its language's answer at its place |
| ChunkWindows.GroupByLanguage | app/cli/backfill_vector_store.py:85-90 | The batch table: languages in first-appearance order, each with its windows in order |
| ChunkWindows.EmbedByLanguage | app/cli/backfill_vector_store.py:92-105 | One call per language, answers scattered, or the length error of the first language whose answer has the wrong length |
| ChunkWindows.ScatterOne | app/cli/backfill_vector_store.py:104-105 | Fills each slot of one language exactly once and no other slot |
| ChunkWindows.CollectVectors | app/cli/backfill_vector_store.py:107-112 | Succeeds exactly when every slot is filled |
| ChunkWindows.PlaceInGroup | app/cli/backfill_vector_store.py:88-90 | Every window sits in its own language's batch at its place |
| ChunkWindows.SlotIsPlace | app/cli/backfill_vector_store.py:88-90 | Every slot of a batch belongs to the window at that place: the two are inverse |
| ChunkWindows.LanguagesDistinct | app/cli/backfill_vector_store.py:92 | No language is asked twice |
| ChunkWindows.LanguagePlaces | app/cli/backfill_vector_store.py:85-92 | The languages are asked in order of first appearance |
| ChunkWindows.GroupedIsNaive | app/cli/backfill_vector_store.py:80-113 | With a pointwise service the grouped call equals embedding each window on its own |
| VectorBackfill.BatchedEqualsDirectIff | app/cli/backfill_vector_store.py:162-185 | Batched writing leaves the same store as immediate writing exactly when no request's latest write is a deletion issued while a replacement of it was waiting, which is read off the operations and the batch size |
| VectorBackfill.BatchingIsInvisible | app/cli/backfill_vector_store.py:215-309 | With distinct request ids the stores are equal for every batch size |
| VectorBackfill.ReplaceThenDeleteSurvives | app/cli/backfill_vector_store.py:225-233 | A replacement followed by a deletion of the same request inside one batch: the replacement survives |
| VectorBackfill.EntryAgreesIff | app/cli/backfill_vector_store.py:162-185 | The same, request by request |
| VectorBackfill.StepView | app/cli/backfill_vector_store.py:225-306 | How one summary changes what a flush at that moment would leave |
| VectorBackfill.ClassifyMeaning | app/cli/backfill_vector_store.py:215-299 | A summary is ignored when an id is missing or zero, skipped when it has a payload but no embedding, and otherwise writes under its own request: nothing when it has neither windows nor text, a point for each window with its own vector and metadata, or the one existing embedding |
| VectorBackfill.LastWriteStays | app/cli/backfill_vector_store.py:162-185 | Writing at once leaves for a request what its last write asks for |
| VectorBackfill.LastWriteWins | app/cli/backfill_vector_store.py:225-309 | Batching gives a request what its last write asks for, unless that is a deletion: then an entry stays exactly when a replacement of the request was waiting |
| VectorBackfill.OvertakenLeaves | app/cli/backfill_vector_store.py:225-233 | The entry such a deletion leaves behind is the last replacement that was waiting |
| VectorBackfill.BatchedIsAsAsked | app/cli/backfill_vector_store.py:215-309 | Per request: the loop leaves what the last summary to reach it asks for whenever no two summaries reach one request, and in general unless that summary deletes; untouched requests keep their entry |
| VectorBackfill.ReplacedPlaces | app/cli/backfill_vector_store.py:301-303 | The replacements are those of the replacing summaries, in order |
| VectorBackfill.StoreFollowsCalls | app/cli/backfill_vector_store.py:162-185 | The store is what the calls made on it, replacements flushed in batches and deletions in between, make of the starting store |
| VectorBackfill.CallsThenWaiting | app/cli/backfill_vector_store.py:225-306 | Every replacement has been handed to the store or is waiting, once and in order, and every deletion has been handed over |
| VectorBackfill.PendingIsWaiting | app/cli/backfill_vector_store.py:301-306 | What is pending is read off the operations and the batch size alone |
| VectorBackfill.WaitingBelowBatch | app/cli/backfill_vector_store.py:302-306 | Between summaries the waiting vectors stay below the batch size |
| VectorBackfill.AbortLosesOnlyWaiting | app/cli/backfill_vector_store.py:256-260 | When a wrong batch length ends the run, requests still waiting keep their old entry and all others have the directly written one |
| VectorBackfill.CountersMeaning | app/cli/backfill_vector_store.py:234-303 | `deleted` and `skipped` are the numbers of deleting summaries and of those without an embedding, `processed` is the number of vectors in all replacements |
| VectorBackfill.Backfill.FlushPending | app/cli/backfill_vector_store.py:168-185 | Writes the pending replacements in order unless this is a dry run, and clears them |
| VectorBackfill.Backfill.DeleteNow | app/cli/backfill_vector_store.py:225-233 | A deletion goes to the store at once and is counted |
| VectorBackfill.Backfill.Defer | app/cli/backfill_vector_store.py:301-306 | A replacement is queued and counted, and a full batch is flushed; `pending_vector_count` stays the number of vectors pending |
| VectorBackfill.Backfill.HandleSummary | app/cli/backfill_vector_store.py:215-306 | One summary has exactly the effect of its operation, or fails without effect when a batch length is wrong |
| VectorBackfill.Backfill.ProcessAll | app/cli/backfill_vector_store.py:215-309 | The run fails exactly when some summary with ids, payload and embedding has a window whose language's batch comes back with the wrong length. A completed run leaves nothing pending and the batched store, which for summaries of different requests is, per request, what the summary asks for; a failed one leaves the writes so far; a dry run leaves the store alone with the same counters |
| SummaryAggregate.DedupeMeaning | app/core/summary_aggregate.py:12-25 | The result lists, in order, the trimmed items standing at exactly the positions that are first of their case-insensitive key |
| SummaryAggregate.DedupeKeepsKeys | app/core/summary_aggregate.py:12-25 | A key is in the result exactly when some non-blank item has it |
| SummaryAggregate.DedupeList | app/core/summary_aggregate.py:12-25 | The loop computes the deduplicated list cut at its limit; a limit of zero or less lets one entry through |
| SummaryAggregate.MergeStep | app/core/summary_aggregate.py:59-67 | Deduplicating early changes nothing |
| SummaryAggregate.EntitiesMergeAtOnce | app/core/summary_aggregate.py:59-67 | Folding the entity merge over chunks equals deduplicating the whole concatenation at once |
| SummaryAggregate.MergeKeyStats | app/core/summary_aggregate.py:70-97 | The loop computes the specified merge, early stop included |
| SummaryAggregate.AbsorbUpTo | app/core/summary_aggregate.py:73-97 | The early stop returns the first `limit` entries of the full pass |
| SummaryAggregate.FoldIsReported | app/core/summary_aggregate.py:70-97 | The limit only cuts the end off what merging chunk by chunk would report without it |
| SummaryAggregate.ReportedMeaning | app/core/summary_aggregate.py:70-97 | Merging chunk by chunk, limit aside, reports a label exactly when in some chunk the first item with it converts |
| SummaryAggregate.ChunkwiseIsOneShotIff | app/core/summary_aggregate.py:70-97 | For the chunks at hand, the fold equals the one-shot merge exactly when no chunk holds an item that converts, is the first of its label there, has a label of an earlier chunk that none has reported, and comes before the limit is reached |
| SummaryAggregate.FoldIsDistinct | app/core/summary_aggregate.py:70-97 | When no failed value is rescued later, fold and one-shot merge both give the first `limit` distinct labels of the concatenation |
| SummaryAggregate.ChunksDoNotMatterIff | app/core/summary_aggregate.py:70-97 | The fold equals the one-shot merge for every way of cutting the items exactly when no item that converts after an earlier failed one of its label comes before the limit is reached |
| SummaryAggregate.ConvertibleStatsMergeAtOnce | app/core/summary_aggregate.py:70-97 | When all values convert, chunk boundaries do not matter |
| SummaryAggregate.FailedValueIsRescued | app/core/summary_aggregate.py:83-87 | Two chunks where the failed value of the first lets the second through, while one chunk with both yields nothing |
| SummaryAggregate.SinglesRescued | app/core/summary_aggregate.py:70-97 | Merging item by item rescues none exactly when no item of the list is the first of its label to convert after a failed one, with the limit not yet reached |
| SummaryAggregate.FoldChunks | app/core/summary_aggregate.py:150-166 | After the loop each list accumulator is the concatenation of its field over the chunks; entities and statistics are merged chunk by chunk |
| SummaryAggregate.MergedKeys | app/core/summary_aggregate.py:12-25 | A key is in the merged list, before the cut, exactly when some chunk holds a non-blank item with it |
| SummaryAggregate.ReportedPlaces | app/core/summary_aggregate.py:70-97 | Merging chunk by chunk reports, in order of chunk and item, exactly the items that convert, are the first of their label in their chunk, and whose label opens no earlier chunk that way |
| SummaryAggregate.EntitiesTogether | app/core/summary_aggregate.py:59-67 | People, organizations and locations are each the deduplicated concatenation of that field |
| SummaryAggregate.AggregateChunkSummaries | app/core/summary_aggregate.py:150-237 | People, organizations and locations are the deduplicated concatenations of these fields; statistics are the first twenty that merging chunk by chunk reports, and those of one pass exactly when nothing is rescued; key ideas, topic tags, answered questions and keywords are the deduplicated concatenations cut at 10, 8, nothing and 15 |
| SourceAggregation.ReportedIffDisagrees | app/agents/multi_source_aggregation_agent.py:806-811 | At least two number tuples and at least two sources, tested separately, exactly when two mentions of different sources carry different numbers |
| SourceAggregation.GroupsAreMentions | app/agents/multi_source_aggregation_agent.py:790-802 | The group of a base is the list of its counted sentences over all documents in order |
| SourceAggregation.MentionPlaces | app/agents/multi_source_aggregation_agent.py:790-802 | The mentions of a base are the sentences with numbers and at least four base words that share it, trimmed, in the order read |
| SourceAggregation.ContradictedIffDisagrees | app/agents/multi_source_aggregation_agent.py:790-811 | Two sentences of different documents disagree exactly when two mentions in the group do |
| SourceAggregation.GroupingIsOrdered | app/agents/multi_source_aggregation_agent.py:790-805 | The dictionary's order lists every group exactly once |
| SourceAggregation.OrderPlaces | app/agents/multi_source_aggregation_agent.py:790-805 | The groups stand in order of the first sentence telling of their base |
| SourceAggregation.ReportedIffContradicted | app/agents/multi_source_aggregation_agent.py:790-821 | Before the cap a base is reported exactly when two sentences from different sources, each with numbers and at least four base words, share it and have different numbers |
| SourceAggregation.Truncate | app/agents/_aggregation_utils.py:61-65 | The trimmed text when it fits; otherwise a prefix of it without trailing space, cut right before the maximum but for spaces, and an ellipsis; never longer than the maximum |
| SourceAggregation.SourcesAreSorted | app/agents/multi_source_aggregation_agent.py:809 | The source ids of a hint are strictly ascending and exactly the sources of the group |
| SourceAggregation.PrecedesMeaning | app/agents/multi_source_aggregation_agent.py:809 | The order of the ids: a proper beginning comes first, else the smaller character at the first place that differs |
| SourceAggregation.HintTells | app/agents/multi_source_aggregation_agent.py:812-821 | A hint quotes the first two mentions, cut to 120 characters, and lists the sources in ascending order |
| SourceAggregation.HintIfReported | app/agents/multi_source_aggregation_agent.py:806-821 | A hint exactly for a reported group |
| SourceAggregation.GroupSentences | app/agents/multi_source_aggregation_agent.py:790-802 | The loops compute the grouping |
| SourceAggregation.DetectContradictionHints | app/agents/multi_source_aggregation_agent.py:783-822 | The hints are those of the first four bases, in order of first appearance, for which two sentences from different sources disagree; each quotes the first two mentions and lists the sources |
| SourceCoverage.FilteredMeaning | app/agents/_aggregation_utils.py:185-197 | The filter keeps exactly the known non-empty readings, each once, in order of first mention |
| SourceCoverage.FilteredMember | app/agents/_aggregation_utils.py:185-197 | An id is kept exactly when it is known, non-empty and mentioned |
| SourceCoverage.ParseEvidenceKinds | app/agents/_aggregation_utils.py:171-182 | The loop keeps the known evidence kinds among the trimmed and lower-cased entries |
| SourceCoverage.FilterSourceItemIds | app/agents/_aggregation_utils.py:185-197 | The loop computes the filter; a value that is not a list gives none |
| SourceCoverage.ParseClaims | app/agents/multi_source_aggregation_agent.py:599-629 | The loop computes the parsed claims; a value that is not a list gives none |
| SourceCoverage.ParsedPlaces | app/agents/multi_source_aggregation_agent.py:606-628 | The parsed claims are, in order, the dictionaries with text that cite a known source; text is trimmed, sources and evidence kinds are filtered, and a missing id is made from the place |
| SourceCoverage.KnownIdsMeaning | app/agents/_aggregation_utils.py:185-197 | The source ids of a claim are the trimmed, non-empty known ones, each where it first stands |
| SourceCoverage.KnownKindsMeaning | app/agents/_aggregation_utils.py:171-182 | The evidence kinds of a claim are the five known ones, trimmed and lower-cased, each where it first stands |
| SourceCoverage.ParsedAreWellCited | app/agents/multi_source_aggregation_agent.py:611-617 | A parsed claim cites at least one source, each known and none twice |
| SourceCoverage.AddClaim | app/agents/multi_source_aggregation_agent.py:552-554 | One claim adds its id to each cited source once per citation and to no other |
| SourceCoverage.IndexClaims | app/agents/multi_source_aggregation_agent.py:552-554 | The inverted index holds, for every source, the ids of the claims citing it in claim order |
| SourceCoverage.CountBySource | app/agents/multi_source_aggregation_agent.py:556-562 | The counts are the occurrences over all lists |
| SourceCoverage.BuildSourceCoverage | app/agents/multi_source_aggregation_agent.py:541-597 | One entry per item, each as specified from the claims, signals and weights alone |
| SourceCoverage.OneEntryPerCitingClaim | app/agents/multi_source_aggregation_agent.py:565-591 | A non-duplicate item lists exactly one entry per parsed claim citing it, in claim order; a duplicate lists none |
| SourceCoverage.CoverageMeaning | app/agents/multi_source_aggregation_agent.py:564-596 | An item counts as used exactly when it is no duplicate and some claim cites it or some contradiction or duplicate signal names it; a duplicate lists no claims and counts no contradictions, but keeps its duplicate signals and its weight |
| SourceCoverage.CitingIdsNext | app/agents/multi_source_aggregation_agent.py:552-554 | One more claim adds its id to a source as often as it cites it |
| SourceCoverage.OccurrencesNext | app/agents/multi_source_aggregation_agent.py:556-562 | Mentions in all lists are counted, repeated ones included |
| SourceCoverage.CitationsAreConserved | app/agents/multi_source_aggregation_agent.py:552-597 | If each cited id belongs to exactly one non-duplicate item, claim ids summed over items equal citations summed over claims |
| SourceCoverage.ParsedCitationsAreConserved | app/agents/multi_source_aggregation_agent.py:541-629 | The same for parsed claims, distinct ids and an item for every valid id |
| BatchStatus.LookupAgreesWithScan | app/adapter_models/batch_processing.py:255-263 | For distinct URLs the index lookup agrees with the linear scan in every reachable state |
| BatchStatus.FindIsLastPlace | app/adapter_models/batch_processing.py:244-263 | In every reachable state a mark reaches the last place of its URL, and unknown URLs reach nothing |
| BatchStatus.UrlsStay | app/adapter_models/batch_processing.py:244-392 | No mark changes URLs or index |
| BatchStatus.StatusIsLastMark | app/adapter_models/batch_processing.py:265-392 | After any marks an entry's status is that of the last mark on its URL; an earlier place of a repeated URL stays pending |
| BatchStatus.StatusAfter | app/adapter_models/batch_processing.py:265-392 | Which status each of the nine kinds of last mark leaves |
| BatchStatus.ClockStarts | app/adapter_models/batch_processing.py:265-280 | The start time is that of the last processing mark on the URL, or without one of the first extraction |
| BatchStatus.TimeMeaning | app/adapter_models/batch_processing.py:350-353 | The time on completion or failure is the given one, else that since a recorded start other than zero, else what the entry had |
| BatchStatus.CompletedPlaces | app/adapter_models/batch_processing.py:399-406 | The successful entries are the complete and the cached ones, in order |
| BatchStatus.FailedPlaces | app/adapter_models/batch_processing.py:408-411 | The failed entries, in order |
| BatchStatus.DoneCountsDoneEntries | app/adapter_models/batch_processing.py:399-427 | The done count reaches the total exactly when every entry succeeded or failed |
| BatchStatus.IsCompleteIff | app/adapter_models/batch_processing.py:474-476 | Complete exactly when no URL was given twice and the last mark on every URL is complete, cached or failed; so a repeated URL is never complete |
| BatchStatus.TimesArePositive | app/adapter_models/batch_processing.py:350-391 | Every recorded sample is positive, after any marks |
| BatchStatus.EstimateMeaning | app/adapter_models/batch_processing.py:444-468 | In every reachable state there is no estimate exactly when work remains and nothing was timed, and it is zero exactly when nothing counts as remaining; otherwise it is the mean sample, in seconds, for each of the fewest rounds in which that many workers get through what remains |
| BatchStatus.RemainingPlaces | app/adapter_models/batch_processing.py:413-422 | What counts as remaining: pending, processing, extracting and analyzing entries, but none being summarized or retried |
| BatchStatus.URLBatchStatus.constructor | app/adapter_models/batch_processing.py:244-249 | All URLs pending and untimed, with the index of their last places |
| BatchStatus.URLBatchStatus.FindEntry | app/adapter_models/batch_processing.py:255-263 | Index lookup with the linear fallback |
| BatchStatus.URLBatchStatus.MarkProcessing | app/adapter_models/batch_processing.py:265-271 | On a found entry sets the status and restarts the clock; the rest of the state is unchanged |
| BatchStatus.URLBatchStatus.MarkExtracting | app/adapter_models/batch_processing.py:273-280 | On a found entry sets the status and starts the clock only if it was not running; the rest of the state is unchanged |
| BatchStatus.URLBatchStatus.MarkAnalyzing | app/adapter_models/batch_processing.py:282-299 | On a found entry sets the status and overwrites only the non-empty details; the rest of the state is unchanged |
| BatchStatus.URLBatchStatus.MarkSummarizing | app/adapter_models/batch_processing.py:301-312 | On a found entry sets the status and a non-empty model; the rest of the state is unchanged |
| BatchStatus.URLBatchStatus.MarkRetrying | app/adapter_models/batch_processing.py:314-329 | On a found entry sets the status and the given counters; the rest of the state is unchanged |
| BatchStatus.URLBatchStatus.MarkRetryWaiting | app/adapter_models/batch_processing.py:331-336 | On a found entry sets the status only; the rest of the state is unchanged |
| BatchStatus.URLBatchStatus.MarkComplete | app/adapter_models/batch_processing.py:338-356 | On a found entry sets status and title, takes the given or measured time and records a positive one; the rest of the state is unchanged |
| BatchStatus.URLBatchStatus.MarkCached | app/adapter_models/batch_processing.py:358-370 | On a found entry sets status and title and zeroes the time, recording none; the rest of the state is unchanged |
| BatchStatus.URLBatchStatus.MarkFailed | app/adapter_models/batch_processing.py:372-392 | On a found entry sets status and error, takes the given or measured time and records a positive one; the rest of the state is unchanged |
| BatchStatus.URLBatchStatus.Record | app/adapter_models/batch_processing.py:350-355 | The timing step shared by completion and failure |
| JsonValidator.AbortsExactlyBeyond | app/core/json_depth_validator.py:22-54 | The bounded recursion gives the true depth when it fits and aborts exactly when it does not |
| JsonValidator.LimitsCheckIsSizesOk | app/core/json_depth_validator.py:82-103 | The recursive limit check passes exactly when every list and dictionary is within its limit |
| JsonValidator.AcceptsExactly | app/core/json_depth_validator.py:57-110 | Accepted are exactly the values with nothing nested deeper than the limit and no list or dictionary, however deep inside, over its own; the check on the measured depth never fires |
| JsonValidator.ErrorPointsAtCulprit | app/core/json_depth_validator.py:82-103 | A size error names a container that really is too large, reached by following the reported path of indexes and keys |
| JsonValidator.FirstCulprit | app/core/json_depth_validator.py:82-103 | The error is about the value itself if that is too large, and otherwise the one found in the first of its parts that is not within its limits |
| JsonValidator.NodesAddUp | app/core/json_depth_validator.py:57-105 | Every value counts as one node, together with all it contains |
| JsonValidator.AcceptedAreSmall | app/core/json_depth_validator.py:57-105 | A value within the limits has at most b^0 + ... + b^d nodes |
| JsonValidator.AcceptanceBoundsSize | app/core/json_depth_validator.py:57-110 | The same bound for whatever the validator accepts |

## Left out

- HTML tokenising, entity unescaping, blank-line collapse in `get_text`, and the trafilatura and spaCy paths: library calls and regular expressions.
- asyncio's first-come order of waiting tasks: the model allows any order, so its theorems cover it.
- `finalize` of the progress message: it is an update followed by a clear, both of which are steps of the model.
- The untracked plain reply keeps no state; only that it returns no id is modelled.
- Redis errors, the 503 answer when Redis is required, the aggregation client limit, and routing to buckets: one branch each.
- The second clock reading inside one API request: the two could fall in different windows, where the backends may differ.
- Floating-point rounding of clocks, latencies and the cooldown multiplier: reals stand for them.
- The embedding-generation pass at `app/cli/backfill_vector_store.py:187-213`: generator calls only.
- Exceptions of the embedding service or the vector store other than a batch of the wrong length, and a service whose answers change between equal calls.
- Repository rows inserted, deleted or re-owned by others during a paging run.
- SummaryAggregate.AggregateChunkSummaries: summary texts, insights and reading-time sums are left out, as are chunks skipped by an exception; the remaining lists are deduplicated the same way.
- The fixed resolution note of a contradiction hint.
- Duplicate-signal detection, weights, and the language-model prompt and output resolution of the aggregation agent.
- Batch entries are values in a sequence, so aliasing of an entry object by callers is not captured; `last_updated`, elapsed time and display helpers are left out.
- `RecursionError` in the JSON validator, and dictionary keys that are not strings.
