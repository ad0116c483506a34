/** Merging chunk summaries in app/core/summary_aggregate.py: lists, entities and key
    statistics are deduplicated chunk by chunk, by lower-cased trimmed text. */
module SummaryAggregate {
  import opened Text

  /** str.lower(), about which nothing needs to be known. */
  type Lower = string -> string

  function Flatten<T>(parts: seq<seq<T>>): seq<T> {
    if parts == [] then [] else Flatten(parts[..|parts| - 1]) + parts[|parts| - 1]
  }

  // ----- deduplicated lists -----

  predicate HasKey(out: seq<string>, key: string, lower: Lower) {
    exists i | 0 <= i < |out| :: lower(out[i]) == key
  }

  /** Adding one raw item to an already deduplicated list. */
  function Add(out: seq<string>, item: string, lower: Lower): seq<string> {
    var s := Strip(item);
    if s == "" || HasKey(out, lower(s), lower) then out else out + [s]
  }

  function DedupeOnto(out: seq<string>, items: seq<string>, lower: Lower): seq<string> {
    if items == [] then out
    else Add(DedupeOnto(out, items[..|items| - 1], lower), items[|items| - 1], lower)
  }

  function Dedupe(items: seq<string>, lower: Lower): seq<string> {
    DedupeOnto([], items, lower)
  }

  lemma {:induction false} HasKeySnoc(out: seq<string>, s: string, lower: Lower)
    ensures forall key :: HasKey(out + [s], key, lower) <==> HasKey(out, key, lower) || key == lower(s)
  {
    assert (out + [s])[|out|] == s;
    assert forall j | 0 <= j < |out| :: (out + [s])[j] == out[j];
  }

  function KeySet(out: seq<string>, lower: Lower): set<string> {
    if out == [] then {} else KeySet(out[..|out| - 1], lower) + {lower(out[|out| - 1])}
  }

  lemma {:induction false} KeySetIs(out: seq<string>, lower: Lower, key: string)
    ensures key in KeySet(out, lower) <==> HasKey(out, key, lower)
  {
    if out != [] {
      var front, last := out[..|out| - 1], out[|out| - 1];
      KeySetIs(front, lower, key);
      HasKeySnoc(front, last, lower);
      assert front + [last] == out;
    }
  }

  lemma {:induction false} KeySetSnoc(out: seq<string>, s: string, lower: Lower)
    ensures KeySet(out + [s], lower) == KeySet(out, lower) + {lower(s)}
  {
    assert (out + [s])[..|out|] == out;
  }

  /** One item, decided by the set of keys instead of a search. */
  lemma {:induction false} AddByKeySet(out: seq<string>, item: string, lower: Lower)
    ensures var s := Strip(item);
      && Add(out, item, lower) == (if s == "" || lower(s) in KeySet(out, lower) then out else out + [s])
      && KeySet(out + [s], lower) == KeySet(out, lower) + {lower(s)}
  {
    KeySetIs(out, lower, lower(Strip(item)));
    KeySetSnoc(out, Strip(item), lower);
  }

  lemma {:induction false} DedupeNext(items: seq<string>, i: nat, lower: Lower)
    requires i < |items|
    ensures Dedupe(items[..i + 1], lower) == Add(Dedupe(items[..i], lower), items[i], lower)
  {
    assert items[..i + 1][..i] == items[..i];
  }

  /** The deduplicated list, cut off once it has `limit` entries; one entry always fits. */
  function Limited(items: seq<string>, limit: Option<int>, lower: Lower): seq<string> {
    if limit.None? then Dedupe(items, lower) else Take(Dedupe(items, lower), Max(limit.value, 1))
  }

  /** Once the limit is reached, the rest of the input cannot matter. */
  lemma {:induction false} LimitedFull(items: seq<string>, i: nat, limit: int, lower: Lower)
    requires i <= |items| && |Dedupe(items[..i], lower)| == Max(limit, 1)
    ensures Limited(items, Some(limit), lower) == Dedupe(items[..i], lower)
  {
    DedupeGrows([], items, i, lower);
  }

  method DedupeList(items: seq<string>, limit: Option<int>, lower: Lower) returns (out: seq<string>)
    ensures out == Limited(items, limit, lower)
  {
    var seen: set<string> := {};
    out := [];
    for i := 0 to |items|
      invariant out == Dedupe(items[..i], lower) && seen == KeySet(out, lower)
      invariant limit.Some? ==> |out| < Max(limit.value, 1)
    {
      DedupeNext(items, i, lower);
      AddByKeySet(out, items[i], lower);
      var s := Strip(items[i]);
      if s == "" {
        continue;
      }
      var key := lower(s);
      if key in seen {
        continue;
      }
      seen := seen + {key};
      out := out + [s];
      if limit.Some? && |out| >= limit.value {
        LimitedFull(items, i + 1, limit.value, lower);
        return;
      }
    }
    assert items[..|items|] == items;
  }

  /** Longer input never changes what is already there. */
  lemma {:induction false} DedupeGrows(out: seq<string>, items: seq<string>, i: nat, lower: Lower)
    requires i <= |items|
    ensures DedupeOnto(out, items[..i], lower) <= DedupeOnto(out, items, lower)
    decreases |items|
  {
    if i == |items| {
      assert items[..i] == items;
    } else {
      var front := items[..|items| - 1];
      assert front[..i] == items[..i];
      DedupeGrows(out, front, i, lower);
    }
  }

  /** A non-blank item with no earlier item of the same key. */
  predicate IsFirst(items: seq<string>, i: nat, lower: Lower)
    requires i < |items|
  {
    Strip(items[i]) != "" &&
    forall h | 0 <= h < i && Strip(items[h]) != "" :: lower(Strip(items[h])) != lower(Strip(items[i]))
  }

  /** The result has a key exactly when some non-blank item has it. */
  lemma {:induction false} DedupeKeepsKeys(items: seq<string>, lower: Lower, key: string)
    ensures HasKey(Dedupe(items, lower), key, lower)
       <==> exists i | 0 <= i < |items| && Strip(items[i]) != "" :: lower(Strip(items[i])) == key
  {
    if items != [] {
      var n := |items| - 1;
      var front := items[..n];
      DedupeKeepsKeys(front, lower, key);
      HasKeySnoc(Dedupe(front, lower), Strip(items[n]), lower);
      assert forall i | 0 <= i < n :: front[i] == items[i];
    }
  }

  lemma {:induction false} LastIsFirst(items: seq<string>, lower: Lower)
    requires items != []
    ensures var n := |items| - 1;
      Dedupe(items, lower)
      == Dedupe(items[..n], lower) + (if IsFirst(items, n, lower) then [Strip(items[n])] else [])
  {
    var n := |items| - 1;
    var front := items[..n];
    DedupeKeepsKeys(front, lower, lower(Strip(items[n])));
    assert forall h | 0 <= h < n :: front[h] == items[h];
  }

  /** What deduplication means: the result lists, in order, the trimmed items standing at
      the first places of their keys. */
  lemma {:induction false} DedupeMeaning(items: seq<string>, lower: Lower) returns (first: seq<nat>)
    ensures |first| == |Dedupe(items, lower)|
    ensures forall j, k | 0 <= j < k < |first| :: first[j] < first[k]
    ensures forall i | 0 <= i < |items| :: i in first <==> IsFirst(items, i, lower)
    ensures forall j | 0 <= j < |first| :: first[j] < |items| && Dedupe(items, lower)[j] == Strip(items[first[j]])
  {
    first := [];
    if items != [] {
      var n := |items| - 1;
      var front := items[..n];
      first := DedupeMeaning(front, lower);
      forall i | 0 <= i < n ensures IsFirst(items, i, lower) == IsFirst(front, i, lower) {
        assert forall h | 0 <= h <= i :: front[h] == items[h];
      }
      LastIsFirst(items, lower);
      assert n !in first;
      if IsFirst(items, n, lower) {
        first := first + [n];
      }
    }
  }

  // ----- merging equals deduplicating the concatenation -----

  lemma {:induction false} OntoConcat(out: seq<string>, a: seq<string>, b: seq<string>, lower: Lower)
    ensures DedupeOnto(out, a + b, lower) == DedupeOnto(DedupeOnto(out, a, lower), b, lower)
  {
    if b == [] {
      assert a + b == a;
    } else {
      assert (a + b)[..|a + b| - 1] == a + b[..|b| - 1];
      OntoConcat(out, a, b[..|b| - 1], lower);
    }
  }

  /** A list that is already trimmed, non-blank and without repeated keys. */
  predicate Clean(out: seq<string>, lower: Lower) {
    && (forall i | 0 <= i < |out| :: out[i] != "" && Strip(out[i]) == out[i])
    && (forall i, j | 0 <= i < j < |out| :: lower(out[i]) != lower(out[j]))
  }

  lemma {:induction false} DedupeIsClean(items: seq<string>, lower: Lower)
    ensures Clean(Dedupe(items, lower), lower)
  {
    if items != [] {
      DedupeIsClean(items[..|items| - 1], lower);
      StripIdempotent(items[|items| - 1]);
    }
  }

  lemma {:induction false} CleanStays(out: seq<string>, lower: Lower)
    requires Clean(out, lower)
    ensures Dedupe(out, lower) == out
  {
    if out != [] {
      CleanStays(out[..|out| - 1], lower);
    }
  }

  /** Deduplicating early changes nothing. */
  lemma {:induction false} MergeStep(a: seq<string>, b: seq<string>, lower: Lower)
    ensures Dedupe(Dedupe(a, lower) + b, lower) == Dedupe(a + b, lower)
  {
    OntoConcat([], Dedupe(a, lower), b, lower);
    OntoConcat([], a, b, lower);
    DedupeIsClean(a, lower);
    CleanStays(Dedupe(a, lower), lower);
  }

  // ----- entities -----

  datatype Entities = Entities(people: seq<string>, organizations: seq<string>, locations: seq<string>)

  const NO_ENTITIES := Entities([], [], [])

  function MergeEntities(a: Entities, b: Entities, lower: Lower): Entities {
    Entities(
      Dedupe(a.people + b.people, lower),
      Dedupe(a.organizations + b.organizations, lower),
      Dedupe(a.locations + b.locations, lower))
  }

  function FoldEntities(chunks: seq<Entities>, lower: Lower): Entities {
    if chunks == [] then NO_ENTITIES
    else MergeEntities(FoldEntities(chunks[..|chunks| - 1], lower), chunks[|chunks| - 1], lower)
  }

  function Together(chunks: seq<Entities>): Entities {
    if chunks == [] then NO_ENTITIES
    else
      var earlier, last := Together(chunks[..|chunks| - 1]), chunks[|chunks| - 1];
      Entities(earlier.people + last.people, earlier.organizations + last.organizations,
               earlier.locations + last.locations)
  }

  /** Merging chunk by chunk is deduplicating everything at once. */
  lemma {:induction false} EntitiesMergeAtOnce(chunks: seq<Entities>, lower: Lower)
    ensures FoldEntities(chunks, lower) == MergeEntities(NO_ENTITIES, Together(chunks), lower)
  {
    if chunks != [] {
      var earlier, last := Together(chunks[..|chunks| - 1]), chunks[|chunks| - 1];
      EntitiesMergeAtOnce(chunks[..|chunks| - 1], lower);
      MergeStep(earlier.people, last.people, lower);
      MergeStep(earlier.organizations, last.organizations, lower);
      MergeStep(earlier.locations, last.locations, lower);
      NothingInFront(earlier);
      NothingInFront(Together(chunks));
    }
  }

  lemma NothingInFront(e: Entities)
    ensures [] + e.people == e.people
    ensures [] + e.organizations == e.organizations
    ensures [] + e.locations == e.locations
  {}

  // ----- key statistics -----

  const STATS_LIMIT := 20

  /** A raw statistic; `value` is None when float() raises on it. Anything that is not a
      dictionary is malformed. */
  datatype Stat =
    | Malformed
    | Stat(name: string, value: Option<real>, unit: Option<string>, excerpt: Option<string>)

  function KeyOf(x: Stat, lower: Lower): Option<string> {
    if x.Malformed? || Strip(x.name) == "" then None else Some(lower(Strip(x.name)))
  }

  predicate Converts(x: Stat) {
    x.Stat? && x.value.Some?
  }

  function Trimmed(x: Stat): Stat
    requires x.Stat?
  {
    x.(name := Strip(x.name))
  }

  datatype Acc = Acc(out: seq<Stat>, seen: set<string>)

  /** One item: its key counts as seen even when its value then fails to convert. */
  function Absorb(acc: Acc, x: Stat, lower: Lower): Acc {
    var key := KeyOf(x, lower);
    if key.None? || key.value in acc.seen then acc
    else if Converts(x) then Acc(acc.out + [Trimmed(x)], acc.seen + {key.value})
    else Acc(acc.out, acc.seen + {key.value})
  }

  function AbsorbAll(acc: Acc, items: seq<Stat>, lower: Lower): Acc {
    if items == [] then acc
    else Absorb(AbsorbAll(acc, items[..|items| - 1], lower), items[|items| - 1], lower)
  }

  function MergeStats(a: seq<Stat>, b: seq<Stat>, limit: int, lower: Lower): seq<Stat> {
    Take(AbsorbAll(Acc([], {}), a + b, lower).out, Max(limit, 1))
  }

  lemma {:induction false} AbsorbGrows(acc: Acc, items: seq<Stat>, i: nat, lower: Lower)
    requires i <= |items|
    ensures AbsorbAll(acc, items[..i], lower).out <= AbsorbAll(acc, items, lower).out
    decreases |items|
  {
    if i == |items| {
      assert items[..i] == items;
    } else {
      var front := items[..|items| - 1];
      assert front[..i] == items[..i];
      AbsorbGrows(acc, front, i, lower);
    }
  }

  lemma {:induction false} AbsorbNext(acc: Acc, items: seq<Stat>, i: nat, lower: Lower)
    requires i < |items|
    ensures AbsorbAll(acc, items[..i + 1], lower) == Absorb(AbsorbAll(acc, items[..i], lower), items[i], lower)
  {
    assert items[..i + 1][..i] == items[..i];
  }

  lemma {:induction false} AbsorbFull(items: seq<Stat>, i: nat, n: nat, lower: Lower)
    requires i <= |items| && |AbsorbAll(Acc([], {}), items[..i], lower).out| == n
    ensures Take(AbsorbAll(Acc([], {}), items, lower).out, n) == AbsorbAll(Acc([], {}), items[..i], lower).out
  {
    AbsorbGrows(Acc([], {}), items, i, lower);
  }

  method MergeKeyStats(a: seq<Stat>, b: seq<Stat>, limit: int, lower: Lower) returns (out: seq<Stat>)
    ensures out == MergeStats(a, b, limit, lower)
  {
    var items := a + b;
    out := AbsorbUpTo(items, limit, lower);
  }

  method AbsorbUpTo(items: seq<Stat>, limit: int, lower: Lower) returns (out: seq<Stat>)
    ensures out == Take(AbsorbAll(Acc([], {}), items, lower).out, Max(limit, 1))
  {
    out := [];
    var seen: set<string> := {};
    for i := 0 to |items|
      invariant Acc(out, seen) == AbsorbAll(Acc([], {}), items[..i], lower)
      invariant |out| < Max(limit, 1)
    {
      AbsorbNext(Acc([], {}), items, i, lower);
      var item := items[i];
      if item.Malformed? {
        continue;
      }
      var name := Strip(item.name);
      if name == "" || lower(name) in seen {
        continue;
      }
      seen := seen + {lower(name)};
      if item.value.None? {
        continue;
      }
      out := out + [Stat(name, item.value, item.unit, item.excerpt)];
      if |out| >= limit {
        AbsorbFull(items, i + 1, Max(limit, 1), lower);
        return;
      }
    }
    assert items[..|items|] == items;
  }

  function FoldStats(chunks: seq<seq<Stat>>, limit: int, lower: Lower): seq<Stat> {
    if chunks == [] then []
    else MergeStats(FoldStats(chunks[..|chunks| - 1], limit, lower), chunks[|chunks| - 1], limit, lower)
  }

  function OneShot(items: seq<Stat>, limit: int, lower: Lower): seq<Stat> {
    MergeStats([], items, limit, lower)
  }

  // ----- labels on record -----

  /** Some item carries the label. */
  predicate HasStat(out: seq<Stat>, key: Option<string>, lower: Lower) {
    exists i | 0 <= i < |out| :: KeyOf(out[i], lower) == key
  }

  lemma {:induction false} HasStatSnoc(out: seq<Stat>, x: Stat, key: Option<string>, lower: Lower)
    ensures HasStat(out + [x], key, lower) <==> HasStat(out, key, lower) || KeyOf(x, lower) == key
  {
    assert (out + [x])[|out|] == x;
    assert forall i | 0 <= i < |out| :: (out + [x])[i] == out[i];
  }

  lemma {:induction false} HasStatLast(out: seq<Stat>, key: Option<string>, lower: Lower)
    requires out != []
    ensures HasStat(out, key, lower)
       <==> HasStat(out[..|out| - 1], key, lower) || KeyOf(out[|out| - 1], lower) == key
  {
    assert out[..|out| - 1] + [out[|out| - 1]] == out;
    HasStatSnoc(out[..|out| - 1], out[|out| - 1], key, lower);
  }

  function StatKeys(out: seq<Stat>, lower: Lower): set<string> {
    if out == [] then {}
    else
      var key := KeyOf(out[|out| - 1], lower);
      StatKeys(out[..|out| - 1], lower) + (if key.Some? then {key.value} else {})
  }

  lemma {:induction false} StatKeysAre(out: seq<Stat>, lower: Lower, key: string)
    ensures key in StatKeys(out, lower) <==> HasStat(out, Some(key), lower)
  {
    if out != [] {
      StatKeysAre(out[..|out| - 1], lower, key);
      HasStatLast(out, Some(key), lower);
    }
  }

  lemma TrimmedKeepsKey(x: Stat, lower: Lower)
    requires x.Stat?
    ensures KeyOf(Trimmed(x), lower) == KeyOf(x, lower) && Trimmed(Trimmed(x)) == Trimmed(x)
  {
    StripIdempotent(x.name);
  }

  /** Convertible, trimmed, labelled, and no label twice. */
  predicate CleanStats(out: seq<Stat>, lower: Lower) {
    && (forall i | 0 <= i < |out| :: Converts(out[i]) && Trimmed(out[i]) == out[i] && KeyOf(out[i], lower).Some?)
    && (forall i, j | 0 <= i < j < |out| :: KeyOf(out[i], lower) != KeyOf(out[j], lower))
  }

  /** A clean list whose labels all count as seen. */
  ghost predicate CleanAcc(acc: Acc, lower: Lower) {
    CleanStats(acc.out, lower) && forall key | HasStat(acc.out, Some(key), lower) :: key in acc.seen
  }

  lemma AbsorbKeepsClean(acc: Acc, x: Stat, lower: Lower)
    requires CleanAcc(acc, lower)
    ensures CleanAcc(Absorb(acc, x, lower), lower)
  {
    var key := KeyOf(x, lower);
    if key.Some? && key.value !in acc.seen && Converts(x) {
      TrimmedKeepsKey(x, lower);
      assert !HasStat(acc.out, key, lower);
      forall k | HasStat(acc.out + [Trimmed(x)], Some(k), lower) ensures k in acc.seen + {key.value} {
        HasStatSnoc(acc.out, Trimmed(x), Some(k), lower);
      }
    }
  }

  lemma {:induction false} AbsorbAllKeepsClean(acc: Acc, items: seq<Stat>, lower: Lower)
    requires CleanAcc(acc, lower)
    ensures CleanAcc(AbsorbAll(acc, items, lower), lower)
  {
    if items != [] {
      AbsorbAllKeepsClean(acc, items[..|items| - 1], lower);
      AbsorbKeepsClean(AbsorbAll(acc, items[..|items| - 1], lower), items[|items| - 1], lower);
    }
  }

  /** Every label met counts as seen, and no other. */
  lemma {:induction false} SeenAre(acc: Acc, items: seq<Stat>, key: string, lower: Lower)
    ensures key in AbsorbAll(acc, items, lower).seen <==> key in acc.seen || HasStat(items, Some(key), lower)
  {
    if items != [] {
      SeenAre(acc, items[..|items| - 1], key, lower);
      HasStatLast(items, Some(key), lower);
    }
  }

  // ----- merging starts from what is there -----

  /** A list taken over with its labels. */
  function Resume(g: seq<Stat>, lower: Lower): Acc {
    Acc(g, StatKeys(g, lower))
  }

  lemma {:induction false} ResumeIsClean(g: seq<Stat>, lower: Lower)
    requires CleanStats(g, lower)
    ensures CleanAcc(Resume(g, lower), lower)
  {
    forall key | HasStat(g, Some(key), lower) ensures key in StatKeys(g, lower) {
      StatKeysAre(g, lower, key);
    }
  }

  lemma {:induction false} AbsorbClean(out: seq<Stat>, lower: Lower)
    requires CleanStats(out, lower)
    ensures AbsorbAll(Acc([], {}), out, lower) == Resume(out, lower)
  {
    if out != [] {
      var front, last := out[..|out| - 1], out[|out| - 1];
      AbsorbClean(front, lower);
      StatKeysAre(front, lower, KeyOf(last, lower).value);
    }
  }

  lemma {:induction false} AbsorbConcat(acc: Acc, a: seq<Stat>, b: seq<Stat>, lower: Lower)
    ensures AbsorbAll(acc, a + b, lower) == AbsorbAll(AbsorbAll(acc, a, lower), b, lower)
  {
    if b == [] {
      assert a + b == a;
    } else {
      assert (a + b)[..|a + b| - 1] == a + b[..|b| - 1];
      AbsorbConcat(acc, a, b[..|b| - 1], lower);
    }
  }

  /** Merging onto a clean list starts from that list. */
  lemma {:induction false} MergeOntoClean(a: seq<Stat>, b: seq<Stat>, limit: int, lower: Lower)
    requires CleanStats(a, lower)
    ensures MergeStats(a, b, limit, lower) == Take(AbsorbAll(Resume(a, lower), b, lower).out, Max(limit, 1))
    ensures a <= AbsorbAll(Resume(a, lower), b, lower).out
  {
    AbsorbConcat(Acc([], {}), a, b, lower);
    AbsorbClean(a, lower);
    AbsorbGrows(Resume(a, lower), b, 0, lower);
  }

  // ----- what chunk-wise merging reports, limit aside -----

  function Reported(chunks: seq<seq<Stat>>, lower: Lower): seq<Stat> {
    if chunks == [] then []
    else AbsorbAll(Resume(Reported(chunks[..|chunks| - 1], lower), lower), chunks[|chunks| - 1], lower).out
  }

  lemma {:induction false} ReportedIsClean(chunks: seq<seq<Stat>>, lower: Lower)
    ensures CleanStats(Reported(chunks, lower), lower)
  {
    if chunks != [] {
      var g := Reported(chunks[..|chunks| - 1], lower);
      ReportedIsClean(chunks[..|chunks| - 1], lower);
      ResumeIsClean(g, lower);
      AbsorbAllKeepsClean(Resume(g, lower), chunks[|chunks| - 1], lower);
    }
  }

  lemma {:induction false} TakeGrown<T>(small: seq<T>, large: seq<T>, n: nat)
    requires small <= large && |small| >= n
    ensures Take(small, n) == Take(large, n)
  {
    assert small == large[..|small|];
  }

  /** The limit only ever cuts the end off. */
  lemma {:induction false} FoldIsReported(chunks: seq<seq<Stat>>, limit: int, lower: Lower)
    ensures FoldStats(chunks, limit, lower) == Take(Reported(chunks, lower), Max(limit, 1))
  {
    if chunks != [] {
      var front, c, n := chunks[..|chunks| - 1], chunks[|chunks| - 1], Max(limit, 1);
      var g := Reported(front, lower);
      FoldIsReported(front, limit, lower);
      ReportedIsClean(front, lower);
      MergeOntoClean(Take(g, n), c, limit, lower);
      MergeOntoClean(g, c, limit, lower);
      if |g| > n {
        TakeGrown(g, Reported(chunks, lower), n);
        TakeGrown(Take(g, n), AbsorbAll(Resume(Take(g, n), lower), c, lower).out, n);
      }
    }
  }

  lemma {:induction false} FlattenHas(chunks: seq<seq<Stat>>, key: Option<string>, lower: Lower)
    requires chunks != []
    ensures HasStat(Flatten(chunks), key, lower)
       <==> HasStat(Flatten(chunks[..|chunks| - 1]), key, lower) || HasStat(chunks[|chunks| - 1], key, lower)
  {
    HasStatConcat(Flatten(chunks[..|chunks| - 1]), chunks[|chunks| - 1], key, lower);
  }

  lemma {:induction false} HasStatConcat(a: seq<Stat>, b: seq<Stat>, key: Option<string>, lower: Lower)
    ensures HasStat(a + b, key, lower) <==> HasStat(a, key, lower) || HasStat(b, key, lower)
  {
    var all := a + b;
    assert forall i | 0 <= i < |a| :: all[i] == a[i];
    assert forall i | 0 <= i < |b| :: all[|a| + i] == b[i];
    assert forall i | 0 <= i < |all| :: all[i] == if i < |a| then a[i] else b[i - |a|];
  }

  lemma {:induction false} ReportedWereGiven(chunks: seq<seq<Stat>>, key: string, lower: Lower)
    requires HasStat(Reported(chunks, lower), Some(key), lower)
    ensures HasStat(Flatten(chunks), Some(key), lower)
  {
    var front, c := chunks[..|chunks| - 1], chunks[|chunks| - 1];
    var g := Reported(front, lower);
    ReportedIsClean(front, lower);
    ResumeIsClean(g, lower);
    AbsorbAllKeepsClean(Resume(g, lower), c, lower);
    SeenAre(Resume(g, lower), c, key, lower);
    StatKeysAre(g, lower, key);
    FlattenHas(chunks, Some(key), lower);
    if HasStat(g, Some(key), lower) {
      ReportedWereGiven(front, key, lower);
    }
  }

  /** The first item with the label in the chunk converts. */
  predicate FirstConverts(c: seq<Stat>, key: string, lower: Lower) {
    exists j | 0 <= j < |c| :: KeyOf(c[j], lower) == Some(key) && Converts(c[j]) && !HasStat(c[..j], Some(key), lower)
  }

  /** A label is reported exactly when, in some chunk, the first item with it converts. */
  lemma {:induction false} ReportedMeaning(chunks: seq<seq<Stat>>, key: string, lower: Lower)
    ensures HasStat(Reported(chunks, lower), Some(key), lower)
       <==> exists i | 0 <= i < |chunks| :: FirstConverts(chunks[i], key, lower)
  {
    if chunks != [] {
      var front, c := chunks[..|chunks| - 1], chunks[|chunks| - 1];
      ReportedMeaning(front, key, lower);
      ChunkReports(Reported(front, lower), c, key, lower);
      assert forall i | 0 <= i < |front| :: chunks[i] == front[i];
      assert FirstConverts(c, key, lower) == FirstConverts(chunks[|front|], key, lower);
    }
  }

  lemma {:induction false} ChunkReports(g: seq<Stat>, c: seq<Stat>, key: string, lower: Lower)
    ensures HasStat(AbsorbAll(Resume(g, lower), c, lower).out, Some(key), lower)
       <==> HasStat(g, Some(key), lower) || FirstConverts(c, key, lower)
  {
    if c != [] {
      var front, x := c[..|c| - 1], c[|c| - 1];
      ChunkReports(g, front, key, lower);
      ItemReports(AbsorbAll(Resume(g, lower), front, lower), x, key, lower);
      SeenAre(Resume(g, lower), front, key, lower);
      StatKeysAre(g, lower, key);
      FirstConvertsLast(c, key, lower);
    }
  }

  lemma {:induction false} ItemReports(acc: Acc, x: Stat, key: string, lower: Lower)
    ensures HasStat(Absorb(acc, x, lower).out, Some(key), lower)
       <==> HasStat(acc.out, Some(key), lower)
            || (KeyOf(x, lower) == Some(key) && Converts(x) && key !in acc.seen)
  {
    if x.Stat? {
      TrimmedKeepsKey(x, lower);
      HasStatSnoc(acc.out, Trimmed(x), Some(key), lower);
    }
  }

  lemma {:induction false} FirstConvertsLast(c: seq<Stat>, key: string, lower: Lower)
    requires c != []
    ensures var front, x := c[..|c| - 1], c[|c| - 1];
      FirstConverts(c, key, lower)
      <==> FirstConverts(front, key, lower)
           || (KeyOf(x, lower) == Some(key) && Converts(x) && !HasStat(front, Some(key), lower))
  {
    var front := c[..|c| - 1];
    assert forall j | 0 <= j < |front| :: front[j] == c[j] && front[..j] == c[..j];
  }

  // ----- which statistics are reported, in which order -----

  /** The item carries the label. */
  predicate Labels(x: Stat, key: string, lower: Lower) {
    x.Stat? && Strip(x.name) != "" && lower(Strip(x.name)) == key
  }

  /** Item i converts and is the first of its label in the chunk. */
  predicate Opens(c: seq<Stat>, i: nat, key: string, lower: Lower)
    requires i < |c|
  {
    Labels(c[i], key, lower) && c[i].value.Some? && forall h | 0 <= h < i :: !Labels(c[h], key, lower)
  }

  /** ... and no earlier chunk has reported the label. */
  ghost predicate Chosen(chunks: seq<seq<Stat>>, c: nat, i: nat, lower: Lower)
    requires c < |chunks| && i < |chunks[c]|
  {
    exists key :: Opens(chunks[c], i, key, lower) &&
      forall d, h | 0 <= d < c && 0 <= h < |chunks[d]| :: !Opens(chunks[d], h, key, lower)
  }

  lemma LabelsIsKey(x: Stat, key: string, lower: Lower)
    ensures Labels(x, key, lower) <==> KeyOf(x, lower) == Some(key)
  {}

  lemma {:induction false} OpensIsFirst(c: seq<Stat>, i: nat, key: string, lower: Lower)
    requires i < |c|
    ensures Opens(c, i, key, lower)
       <==> KeyOf(c[i], lower) == Some(key) && Converts(c[i]) && !HasStat(c[..i], Some(key), lower)
  {
    assert forall h | 0 <= h < i :: c[..i][h] == c[h];
    forall h | 0 <= h <= i ensures Labels(c[h], key, lower) <==> KeyOf(c[h], lower) == Some(key) {
      LabelsIsKey(c[h], key, lower);
    }
  }

  lemma {:induction false} ReportedByOpening(chunks: seq<seq<Stat>>, key: string, lower: Lower)
    ensures HasStat(Reported(chunks, lower), Some(key), lower)
       <==> exists d, h :: 0 <= d < |chunks| && 0 <= h < |chunks[d]| && Opens(chunks[d], h, key, lower)
  {
    ReportedMeaning(chunks, key, lower);
    forall d | 0 <= d < |chunks|
      ensures FirstConverts(chunks[d], key, lower)
         <==> exists h :: 0 <= h < |chunks[d]| && Opens(chunks[d], h, key, lower)
    {
      forall h | 0 <= h < |chunks[d]|
        ensures Opens(chunks[d], h, key, lower)
           <==> KeyOf(chunks[d][h], lower) == Some(key) && Converts(chunks[d][h])
                && !HasStat(chunks[d][..h], Some(key), lower)
      {
        OpensIsFirst(chunks[d], h, key, lower);
      }
    }
  }

  /** Item i opens its label in the chunk, and g does not have it. */
  ghost predicate Tops(g: seq<Stat>, c: seq<Stat>, i: nat, lower: Lower)
    requires i < |c|
  {
    exists key :: Opens(c, i, key, lower) && !HasStat(g, Some(key), lower)
  }

  /** The places among the first n of the chunk whose items are reported on top of g. */
  ghost predicate TopPlaces(places: seq<nat>, g: seq<Stat>, c: seq<Stat>, n: nat, lower: Lower)
    requires n <= |c|
  {
    && Increasing(places) && (forall i: nat :: i in places <==> i < n && Tops(g, c, i, lower))
    && forall j | 0 <= j < |places| :: places[j] < n && c[places[j]].Stat?
  }

  lemma {:induction false} TopPlacesNext(places: seq<nat>, g: seq<Stat>, c: seq<Stat>, n: nat, lower: Lower)
    requires n < |c| && TopPlaces(places, g, c, n, lower)
    ensures if Tops(g, c, n, lower) then c[n].Stat? ==> TopPlaces(places + [n], g, c, n + 1, lower)
            else TopPlaces(places, g, c, n + 1, lower)
  {}

  lemma {:induction false} NextTop(g: seq<Stat>, c: seq<Stat>, n: nat, lower: Lower, places: seq<nat>)
    returns (more: seq<nat>)
    requires n < |c| && TopPlaces(places, g, c, n, lower)
    requires AbsorbAll(Resume(g, lower), c[..n], lower).out == g + TrimmedAt(c, places)
    ensures TopPlaces(more, g, c, n + 1, lower)
    ensures AbsorbAll(Resume(g, lower), c[..n + 1], lower).out == g + TrimmedAt(c, more)
  {
    more := if Tops(g, c, n, lower) then places + [n] else places;
    assert Tops(g, c, n, lower) ==> c[n].Stat? by {
      NextReported(g, c, n, lower);
    }
    assert TopPlaces(more, g, c, n + 1, lower) by {
      TopPlacesNext(places, g, c, n, lower);
    }
    AbsorbNext(Resume(g, lower), c, n, lower);
    NextReported(g, c, n, lower);
    if Tops(g, c, n, lower) {
      TrimmedSnoc(g, c, places, n);
    }
  }

  lemma {:induction false} ChunkPlaces(g: seq<Stat>, c: seq<Stat>, n: nat, lower: Lower) returns (places: seq<nat>)
    requires n <= |c|
    ensures TopPlaces(places, g, c, n, lower)
    ensures AbsorbAll(Resume(g, lower), c[..n], lower).out == g + TrimmedAt(c, places)
  {
    places := [];
    if n > 0 {
      places := ChunkPlaces(g, c, n - 1, lower);
      places := NextTop(g, c, n - 1, lower, places);
    } else {
      assert c[..0] == [];
    }
  }

  function TrimmedAt(c: seq<Stat>, places: seq<nat>): (out: seq<Stat>)
    requires forall j | 0 <= j < |places| :: places[j] < |c| && c[places[j]].Stat?
    ensures |out| == |places|
    ensures forall j | 0 <= j < |places| :: out[j] == c[places[j]].(name := Strip(c[places[j]].name))
  {
    seq(|places|, j requires 0 <= j < |places| => c[places[j]].(name := Strip(c[places[j]].name)))
  }

  lemma {:induction false} TrimmedSnoc(g: seq<Stat>, c: seq<Stat>, places: seq<nat>, p: nat)
    requires forall j | 0 <= j < |places| :: places[j] < |c| && c[places[j]].Stat?
    requires p < |c| && c[p].Stat?
    ensures g + TrimmedAt(c, places + [p]) == (g + TrimmedAt(c, places)) + [Trimmed(c[p])]
  {}

  lemma {:induction false} NextReported(g: seq<Stat>, c: seq<Stat>, n: nat, lower: Lower)
    requires n < |c|
    ensures var acc := AbsorbAll(Resume(g, lower), c[..n], lower);
      && Absorb(acc, c[n], lower).out == (if Tops(g, c, n, lower) then acc.out + [Trimmed(c[n])] else acc.out)
      && (Tops(g, c, n, lower) ==> c[n].Stat?)
  {
    var key := KeyOf(c[n], lower);
    if key.Some? {
      SeenAre(Resume(g, lower), c[..n], key.value, lower);
      StatKeysAre(g, lower, key.value);
      OpensIsFirst(c, n, key.value, lower);
    }
    forall k | Opens(c, n, k, lower) ensures key == Some(k) {
      OpensIsFirst(c, n, k, lower);
    }
  }

  predicate Earlier(p: (nat, nat), q: (nat, nat)) {
    p.0 < q.0 || (p.0 == q.0 && p.1 < q.1)
  }

  /** Places of one chunk, with the chunk's own. */
  function Within(c: nat, inner: seq<nat>): (r: seq<(nat, nat)>)
    ensures |r| == |inner| && forall j | 0 <= j < |inner| :: r[j] == (c, inner[j])
  {
    seq(|inner|, j requires 0 <= j < |inner| => (c, inner[j]))
  }

  lemma {:induction false} WithinHas(c: nat, inner: seq<nat>, p: (nat, nat))
    ensures p in Within(c, inner) <==> p.0 == c && p.1 in inner
  {
    if p.0 == c && p.1 in inner {
      var j :| 0 <= j < |inner| && inner[j] == p.1;
      assert Within(c, inner)[j] == p;
    }
  }

  ghost predicate ChosenPlaces(places: seq<(nat, nat)>, chunks: seq<seq<Stat>>, lower: Lower) {
    && (forall j, k | 0 <= j < k < |places| :: Earlier(places[j], places[k]))
    && (forall p: (nat, nat) :: p in places <==>
          p.0 < |chunks| && p.1 < |chunks[p.0]| && Chosen(chunks, p.0, p.1, lower))
  }

  ghost predicate ArePlaces(places: seq<(nat, nat)>, chunks: seq<seq<Stat>>) {
    forall j | 0 <= j < |places| ::
      places[j].0 < |chunks| && places[j].1 < |chunks[places[j].0]| && chunks[places[j].0][places[j].1].Stat?
  }

  /** The items at these places, with trimmed label and otherwise as they are. */
  ghost function ItemsAt(chunks: seq<seq<Stat>>, places: seq<(nat, nat)>): (out: seq<Stat>)
    requires ArePlaces(places, chunks)
    ensures |out| == |places|
    ensures forall j | 0 <= j < |places| ::
      var item := chunks[places[j].0][places[j].1]; out[j] == item.(name := Strip(item.name))
  {
    seq(|places|, j requires 0 <= j < |places| =>
      var item := chunks[places[j].0][places[j].1]; item.(name := Strip(item.name)))
  }

  lemma {:induction false} ItemsExtend(chunks: seq<seq<Stat>>, earlier: seq<(nat, nat)>, inner: seq<nat>)
    requires chunks != [] && ArePlaces(earlier, chunks[..|chunks| - 1])
    requires forall j | 0 <= j < |inner| ::
      inner[j] < |chunks[|chunks| - 1]| && chunks[|chunks| - 1][inner[j]].Stat?
    ensures var n := |chunks| - 1;
      && ArePlaces(earlier + Within(n, inner), chunks)
      && ItemsAt(chunks, earlier + Within(n, inner)) == ItemsAt(chunks[..n], earlier) + TrimmedAt(chunks[n], inner)
  {
    var n := |chunks| - 1;
    assert forall c | 0 <= c < n :: chunks[..n][c] == chunks[c];
  }

  /** Merging chunk by chunk reports, in order of chunk and item, exactly the chosen items. */
  lemma {:induction false} ReportedPlaces(chunks: seq<seq<Stat>>, lower: Lower) returns (places: seq<(nat, nat)>)
    ensures ChosenPlaces(places, chunks, lower) && ArePlaces(places, chunks)
    ensures Reported(chunks, lower) == ItemsAt(chunks, places)
  {
    places := [];
    if chunks != [] {
      var n := |chunks| - 1;
      var earlier := ReportedPlaces(chunks[..n], lower);
      var inner := ChunkPlaces(Reported(chunks[..n], lower), chunks[n], |chunks[n]|, lower);
      assert chunks[n][..|chunks[n]|] == chunks[n];
      ChosenExtend(chunks, earlier, inner, lower);
      ItemsExtend(chunks, earlier, inner);
      places := earlier + Within(n, inner);
    }
  }

  lemma {:induction false} ChosenExtend(
    chunks: seq<seq<Stat>>, earlier: seq<(nat, nat)>, inner: seq<nat>, lower: Lower)
    requires chunks != [] && ChosenPlaces(earlier, chunks[..|chunks| - 1], lower) && Increasing(inner)
    requires var n := |chunks| - 1;
      forall i: nat :: i in inner <==> i < |chunks[n]| && Tops(Reported(chunks[..n], lower), chunks[n], i, lower)
    ensures ChosenPlaces(earlier + Within(|chunks| - 1, inner), chunks, lower)
  {
    var n := |chunks| - 1;
    var later := Within(n, inner);
    var places := earlier + later;
    forall j, k | 0 <= j < k < |places| ensures Earlier(places[j], places[k]) {
      if j < |earlier| {
        assert earlier[j] in earlier;
      }
    }
    forall p: (nat, nat)
      ensures p in places <==> p.0 < |chunks| && p.1 < |chunks[p.0]| && Chosen(chunks, p.0, p.1, lower)
    {
      WithinHas(n, inner, p);
      ChosenLast(chunks, p.0, p.1, lower);
      assert p in places <==> p in earlier || p in later;
    }
  }

  lemma {:induction false} ChosenLast(chunks: seq<seq<Stat>>, c: nat, i: nat, lower: Lower)
    requires chunks != []
    ensures var n := |chunks| - 1;
      && (c < n && i < |chunks[c]| ==> (Chosen(chunks, c, i, lower) <==> Chosen(chunks[..n], c, i, lower)))
      && (c == n && i < |chunks[c]| ==>
            (Chosen(chunks, c, i, lower) <==> Tops(Reported(chunks[..n], lower), chunks[n], i, lower)))
  {
    var n := |chunks| - 1;
    var front := chunks[..n];
    assert forall d | 0 <= d < n :: front[d] == chunks[d];
    forall key
      ensures HasStat(Reported(front, lower), Some(key), lower)
         <==> exists d, h :: 0 <= d < n && 0 <= h < |chunks[d]| && Opens(chunks[d], h, key, lower)
    {
      ReportedByOpening(front, key, lower);
    }
  }

  // ----- when chunks matter -----

  /** Item j of chunk c, coming after the chunks in front, is reported although one pass
      would not report its label: it converts and is the first of its label in the chunk; the
      label came up in an earlier chunk, but in no earlier chunk did its first item convert;
      and the limit is not reached yet. */
  predicate RescuedAt(front: seq<seq<Stat>>, c: seq<Stat>, j: nat, limit: int, lower: Lower)
    requires j < |c|
  {
    var g, key := Reported(front, lower), KeyOf(c[j], lower);
    && key.Some? && Converts(c[j])
    && HasStat(Flatten(front), key, lower) && !HasStat(g, key, lower) && !HasStat(c[..j], key, lower)
    && |AbsorbAll(Resume(g, lower), c[..j], lower).out| < Max(limit, 1)
  }

  predicate NoneRescuedIn(front: seq<seq<Stat>>, c: seq<Stat>, n: nat, limit: int, lower: Lower)
    requires n <= |c|
  {
    forall j | 0 <= j < n :: !RescuedAt(front, c, j, limit, lower)
  }

  predicate NoneRescued(chunks: seq<seq<Stat>>, limit: int, lower: Lower) {
    chunks == [] ||
    var front, c := chunks[..|chunks| - 1], chunks[|chunks| - 1];
    NoneRescued(front, limit, lower) && NoneRescuedIn(front, c, |c|, limit, lower)
  }

  /** Equal, or both full and equal as far as the limit goes. */
  predicate Agree(a: seq<Stat>, b: seq<Stat>, n: nat) {
    a == b || (|a| >= n && |b| >= n && Take(a, n) == Take(b, n))
  }

  /** Within the limit, `many` reports a label that the single pass has used up. */
  ghost predicate Parted(one: Acc, many: seq<Stat>, n: nat, lower: Lower) {
    exists k | 0 <= k < |many| && k < n :: UsedUp(one, KeyOf(many[k], lower), lower)
  }

  predicate UsedUp(one: Acc, key: Option<string>, lower: Lower) {
    key.Some? && key.value in one.seen && !HasStat(one.out, key, lower)
  }

  lemma {:induction false} PartedDiffer(one: Acc, many: seq<Stat>, n: nat, lower: Lower)
    requires Parted(one, many, n, lower)
    ensures Take(one.out, n) != Take(many, n)
  {
    var k :| 0 <= k < |many| && k < n && UsedUp(one, KeyOf(many[k], lower), lower);
    assert Take(many, n)[k] == many[k];
    if k < |one.out| {
      assert Take(one.out, n)[k] == one.out[k];
      assert KeyOf(one.out[k], lower) != KeyOf(many[k], lower);
    }
  }

  /** The item is reported on one side only. */
  predicate Rescues(one: Acc, many: Acc, x: Stat, n: nat, lower: Lower) {
    var key := KeyOf(x, lower);
    key.Some? && Converts(x) && key.value in one.seen && key.value !in many.seen && |many.out| < n
  }

  lemma AgreeFurther(one: Acc, many: Acc, x: Stat, n: nat, lower: Lower)
    requires many.seen <= one.seen && Agree(one.out, many.out, n) && !Rescues(one, many, x, n, lower)
    ensures Agree(Absorb(one, x, lower).out, Absorb(many, x, lower).out, n)
  {}

  lemma PartHere(one: Acc, many: Acc, x: Stat, n: nat, lower: Lower)
    requires CleanAcc(many, lower) && Agree(one.out, many.out, n) && Rescues(one, many, x, n, lower)
    ensures Parted(Absorb(one, x, lower), Absorb(many, x, lower).out, n, lower)
  {
    TrimmedKeepsKey(x, lower);
    assert one.out == many.out;
    var many' := many.out + [Trimmed(x)];
    assert Absorb(one, x, lower) == one && Absorb(many, x, lower).out == many';
    assert UsedUp(one, KeyOf(many'[|many.out|], lower), lower);
  }

  lemma {:induction false} StayUsedUp(one: Acc, x: Stat, key: Option<string>, lower: Lower)
    requires UsedUp(one, key, lower)
    ensures UsedUp(Absorb(one, x, lower), key, lower)
  {
    if x.Stat? {
      TrimmedKeepsKey(x, lower);
      HasStatSnoc(one.out, Trimmed(x), key, lower);
    }
  }

  lemma StayParted(one: Acc, many: Acc, x: Stat, n: nat, lower: Lower)
    requires Parted(one, many.out, n, lower)
    ensures Parted(Absorb(one, x, lower), Absorb(many, x, lower).out, n, lower)
  {
    var k :| 0 <= k < |many.out| && k < n && UsedUp(one, KeyOf(many.out[k], lower), lower);
    StayUsedUp(one, x, KeyOf(many.out[k], lower), lower);
    assert Absorb(many, x, lower).out[k] == many.out[k];
  }

  /** The single pass and the chunk-wise merge after the chunks in front and n items of c. */
  function OnePass(front: seq<seq<Stat>>, c: seq<Stat>, n: nat, lower: Lower): Acc
    requires n <= |c|
  {
    AbsorbAll(Acc([], {}), Flatten(front) + c[..n], lower)
  }

  function ManyPasses(front: seq<seq<Stat>>, c: seq<Stat>, n: nat, lower: Lower): Acc
    requires n <= |c|
  {
    AbsorbAll(Resume(Reported(front, lower), lower), c[..n], lower)
  }

  lemma {:induction false} PassesNext(front: seq<seq<Stat>>, c: seq<Stat>, n: nat, lower: Lower)
    requires n < |c|
    ensures OnePass(front, c, n + 1, lower) == Absorb(OnePass(front, c, n, lower), c[n], lower)
    ensures ManyPasses(front, c, n + 1, lower) == Absorb(ManyPasses(front, c, n, lower), c[n], lower)
  {
    AbsorbSlice(Acc([], {}), Flatten(front), c, n, lower);
    AbsorbNext(Resume(Reported(front, lower), lower), c, n, lower);
  }

  lemma {:induction false} AbsorbSlice(acc: Acc, a: seq<Stat>, c: seq<Stat>, n: nat, lower: Lower)
    requires n < |c|
    ensures AbsorbAll(acc, a + c[..n + 1], lower) == Absorb(AbsorbAll(acc, a + c[..n], lower), c[n], lower)
  {
    assert a + c[..n + 1] == (a + c[..n]) + [c[n]];
    AbsorbSnoc(acc, a + c[..n], c[n], lower);
  }

  lemma {:induction false} AbsorbSnoc(acc: Acc, items: seq<Stat>, x: Stat, lower: Lower)
    ensures AbsorbAll(acc, items + [x], lower) == Absorb(AbsorbAll(acc, items, lower), x, lower)
  {
    assert (items + [x])[..|items|] == items;
  }

  lemma {:induction false} SeenByPasses(front: seq<seq<Stat>>, c: seq<Stat>, n: nat, key: string, lower: Lower)
    requires n <= |c|
    ensures key in OnePass(front, c, n, lower).seen
       <==> HasStat(Flatten(front), Some(key), lower) || HasStat(c[..n], Some(key), lower)
    ensures key in ManyPasses(front, c, n, lower).seen
       <==> HasStat(Reported(front, lower), Some(key), lower) || HasStat(c[..n], Some(key), lower)
    ensures HasStat(Reported(front, lower), Some(key), lower) ==> HasStat(Flatten(front), Some(key), lower)
  {
    SeenAre(Acc([], {}), Flatten(front) + c[..n], key, lower);
    HasStatConcat(Flatten(front), c[..n], Some(key), lower);
    SeenAre(Resume(Reported(front, lower), lower), c[..n], key, lower);
    StatKeysAre(Reported(front, lower), lower, key);
    if HasStat(Reported(front, lower), Some(key), lower) {
      ReportedWereGiven(front, key, lower);
    }
  }

  /** What distinguishes the passes at the next item is whether it is rescued. */
  lemma {:induction false} RescuedIsRescues(front: seq<seq<Stat>>, c: seq<Stat>, j: nat, limit: int, lower: Lower)
    requires j < |c|
    ensures var one, many := OnePass(front, c, j, lower), ManyPasses(front, c, j, lower);
      && CleanAcc(many, lower) && many.seen <= one.seen
      && (RescuedAt(front, c, j, limit, lower) <==> Rescues(one, many, c[j], Max(limit, 1), lower))
  {
    var one, many := OnePass(front, c, j, lower), ManyPasses(front, c, j, lower);
    ReportedIsClean(front, lower);
    ResumeIsClean(Reported(front, lower), lower);
    AbsorbAllKeepsClean(Resume(Reported(front, lower), lower), c[..j], lower);
    forall key | key in many.seen ensures key in one.seen {
      SeenByPasses(front, c, j, key, lower);
    }
    if KeyOf(c[j], lower).Some? {
      SeenByPasses(front, c, j, KeyOf(c[j], lower).value, lower);
    }
  }

  ghost predicate InStep(front: seq<seq<Stat>>, c: seq<Stat>, n: nat, limit: int, lower: Lower)
    requires n <= |c|
  {
    var one, many := OnePass(front, c, n, lower), ManyPasses(front, c, n, lower);
    if NoneRescued(front, limit, lower) && NoneRescuedIn(front, c, n, limit, lower)
    then Agree(one.out, many.out, Max(limit, 1))
    else Parted(one, many.out, Max(limit, 1), lower)
  }

  lemma {:induction false} NextInStep(front: seq<seq<Stat>>, c: seq<Stat>, n: nat, limit: int, lower: Lower)
    requires n < |c| && InStep(front, c, n, limit, lower)
    ensures InStep(front, c, n + 1, limit, lower)
  {
    var one, many := OnePass(front, c, n, lower), ManyPasses(front, c, n, lower);
    PassesNext(front, c, n, lower);
    RescuedIsRescues(front, c, n, limit, lower);
    assert NoneRescuedIn(front, c, n + 1, limit, lower)
      <==> NoneRescuedIn(front, c, n, limit, lower) && !RescuedAt(front, c, n, limit, lower);
    if !NoneRescued(front, limit, lower) || !NoneRescuedIn(front, c, n, limit, lower) {
      StayParted(one, many, c[n], Max(limit, 1), lower);
    } else if RescuedAt(front, c, n, limit, lower) {
      PartHere(one, many, c[n], Max(limit, 1), lower);
    } else {
      AgreeFurther(one, many, c[n], Max(limit, 1), lower);
    }
  }

  lemma {:induction false} ItemsInStep(front: seq<seq<Stat>>, c: seq<Stat>, n: nat, limit: int, lower: Lower)
    requires n <= |c|
    ensures InStep(front, c, n, limit, lower)
    decreases |front|, n + 1
  {
    if n == 0 {
      assert c[..0] == [] && Flatten(front) + c[..0] == Flatten(front);
      ChunksInStep(front, limit, lower);
    } else {
      ItemsInStep(front, c, n - 1, limit, lower);
      NextInStep(front, c, n - 1, limit, lower);
    }
  }

  lemma {:induction false} ChunksInStep(chunks: seq<seq<Stat>>, limit: int, lower: Lower)
    ensures var one, many := AbsorbAll(Acc([], {}), Flatten(chunks), lower), Reported(chunks, lower);
      if NoneRescued(chunks, limit, lower) then Agree(one.out, many, Max(limit, 1))
      else Parted(one, many, Max(limit, 1), lower)
    decreases |chunks|, 0
  {
    if chunks != [] {
      var front, c := chunks[..|chunks| - 1], chunks[|chunks| - 1];
      ItemsInStep(front, c, |c|, limit, lower);
      assert c[..|c|] == c;
    }
  }

  /** For the chunks at hand, merging them one by one equals one pass over all items exactly
      when no item is rescued. */
  lemma {:induction false} ChunkwiseIsOneShotIff(chunks: seq<seq<Stat>>, limit: int, lower: Lower)
    ensures FoldStats(chunks, limit, lower) == OneShot(Flatten(chunks), limit, lower)
       <==> NoneRescued(chunks, limit, lower)
  {
    var one, n := AbsorbAll(Acc([], {}), Flatten(chunks), lower), Max(limit, 1);
    assert [] + Flatten(chunks) == Flatten(chunks);
    FoldIsReported(chunks, limit, lower);
    ChunksInStep(chunks, limit, lower);
    if !NoneRescued(chunks, limit, lower) {
      PartedDiffer(one, Reported(chunks, lower), n, lower);
    }
  }

  // ----- when no way of cutting matters -----

  function Singles(items: seq<Stat>): seq<seq<Stat>> {
    if items == [] then [] else Singles(items[..|items| - 1]) + [[items[|items| - 1]]]
  }

  lemma {:induction false} SinglesNext(items: seq<Stat>)
    requires items != []
    ensures var all, n := Singles(items), |items| - 1;
            all[..|all| - 1] == Singles(items[..n]) && all[|all| - 1] == [items[n]]
  {}

  lemma {:induction false} SinglesFlatten(items: seq<Stat>)
    ensures Flatten(Singles(items)) == items
  {
    if items != [] {
      SinglesFlatten(items[..|items| - 1]);
      SinglesNext(items);
    }
  }

  /** Like Absorb, but an item that fails to convert leaves no trace. */
  function Collect(out: seq<Stat>, x: Stat, lower: Lower): seq<Stat> {
    var key := KeyOf(x, lower);
    if key.None? || !Converts(x) || HasStat(out, key, lower) then out else out + [Trimmed(x)]
  }

  /** The first convertible statistic of each label. */
  function Distinct(items: seq<Stat>, lower: Lower): seq<Stat> {
    if items == [] then []
    else Collect(Distinct(items[..|items| - 1], lower), items[|items| - 1], lower)
  }

  /** One item per chunk reports the first convertible statistic of each label. */
  lemma {:induction false} SinglesAreDistinct(items: seq<Stat>, lower: Lower)
    ensures Reported(Singles(items), lower) == Distinct(items, lower)
  {
    if items != [] {
      var front, x := items[..|items| - 1], items[|items| - 1];
      SinglesAreDistinct(front, lower);
      SinglesNext(items);
      assert [x][..0] == [];
      assert AbsorbAll(Resume(Distinct(front, lower), lower), [x], lower)
          == Absorb(Resume(Distinct(front, lower), lower), x, lower);
      if KeyOf(x, lower).Some? {
        StatKeysAre(Distinct(front, lower), lower, KeyOf(x, lower).value);
      }
    }
  }

  /** Item j is the first of its label to convert after an earlier one failed, and would
      still be among the first `limit` results. */
  predicate Rescue(items: seq<Stat>, j: nat, limit: int, lower: Lower)
    requires j < |items|
  {
    var key := KeyOf(items[j], lower);
    && key.Some? && Converts(items[j])
    && HasStat(items[..j], key, lower) && !HasStat(Distinct(items[..j], lower), key, lower)
    && |Distinct(items[..j], lower)| < Max(limit, 1)
  }

  predicate NoRescue(items: seq<Stat>, limit: int, lower: Lower) {
    forall j | 0 <= j < |items| :: !Rescue(items, j, limit, lower)
  }

  lemma {:induction false} NoRescueInPrefix(items: seq<Stat>, n: nat, limit: int, lower: Lower)
    requires n <= |items| && NoRescue(items, limit, lower)
    ensures NoRescue(items[..n], limit, lower)
  {
    forall j | 0 <= j < n ensures !Rescue(items[..n], j, limit, lower) {
      assert items[..n][..j] == items[..j];
      assert !Rescue(items, j, limit, lower);
    }
  }

  lemma {:induction false} NoRescueLast(items: seq<Stat>, limit: int, lower: Lower)
    requires items != []
    ensures NoRescue(items, limit, lower)
       <==> NoRescue(items[..|items| - 1], limit, lower) && !Rescue(items, |items| - 1, limit, lower)
  {
    var n := |items| - 1;
    if NoRescue(items, limit, lower) {
      NoRescueInPrefix(items, n, limit, lower);
    }
    forall j | 0 <= j < n ensures Rescue(items[..n], j, limit, lower) == Rescue(items, j, limit, lower) {
      assert items[..n][..j] == items[..j];
    }
  }

  lemma {:induction false} SingleRescued(front: seq<Stat>, x: Stat, limit: int, lower: Lower)
    ensures RescuedAt(Singles(front), [x], 0, limit, lower) <==> Rescue(front + [x], |front|, limit, lower)
  {
    SinglesFlatten(front);
    SinglesAreDistinct(front, lower);
    assert [x][..0] == [] && (front + [x])[..|front|] == front;
  }

  lemma {:induction false} NoneRescuedNext(front: seq<Stat>, x: Stat, limit: int, lower: Lower)
    ensures NoneRescued(Singles(front + [x]), limit, lower)
       <==> NoneRescued(Singles(front), limit, lower) && !Rescue(front + [x], |front|, limit, lower)
  {
    assert (front + [x])[..|front|] == front;
    SinglesNext(front + [x]);
    SingleRescued(front, x, limit, lower);
    assert NoneRescuedIn(Singles(front), [x], 1, limit, lower) <==> !RescuedAt(Singles(front), [x], 0, limit, lower);
  }

  /** The finest cutting rescues an item exactly when some cutting could. */
  lemma {:induction false} SinglesRescued(items: seq<Stat>, limit: int, lower: Lower)
    ensures NoneRescued(Singles(items), limit, lower) <==> NoRescue(items, limit, lower)
  {
    if items != [] {
      var front, x := items[..|items| - 1], items[|items| - 1];
      SinglesRescued(front, limit, lower);
      NoneRescuedNext(front, x, limit, lower);
      NoRescueLast(items, limit, lower);
      assert front + [x] == items;
    }
  }

  lemma {:induction false} NoRescueAgrees(items: seq<Stat>, limit: int, lower: Lower)
    requires NoRescue(items, limit, lower)
    ensures Agree(AbsorbAll(Acc([], {}), items, lower).out, Distinct(items, lower), Max(limit, 1))
  {
    SinglesRescued(items, limit, lower);
    SinglesFlatten(items);
    SinglesAreDistinct(items, lower);
    ChunksInStep(Singles(items), limit, lower);
  }

  /** All three equal, or all full and equal as far as the limit goes. */
  predicate AllAgree(a: seq<Stat>, b: seq<Stat>, c: seq<Stat>, n: nat) {
    Agree(a, b, n) && Agree(b, c, n) && (|a| < n ==> a == b == c)
  }

  lemma {:induction false} StillFull(a: seq<Stat>, b: seq<Stat>, a': seq<Stat>, b': seq<Stat>, n: nat)
    requires Agree(a, b, n) && |a| >= n && a <= a' && b <= b'
    ensures Agree(a', b', n) && |a'| >= n
  {
    TakeGrown(a, a', n);
    TakeGrown(b, b', n);
  }

  /** What a single pass reports chunks report too, and what chunks report is collected: if
      the outer two agree, so does the middle one. */
  lemma {:induction false} AllAgreeFurther(one: Acc, many: Acc, d: seq<Stat>, x: Stat, n: nat, lower: Lower)
    requires CleanAcc(many, lower) && many.seen <= one.seen && AllAgree(one.out, many.out, d, n)
    requires Agree(Absorb(one, x, lower).out, Collect(d, x, lower), n)
    ensures AllAgree(Absorb(one, x, lower).out, Absorb(many, x, lower).out, Collect(d, x, lower), n)
  {
    if |one.out| < n {
      AllEqualFurther(one, many, x, n, lower);
    } else {
      StillFull(one.out, many.out, Absorb(one, x, lower).out, Absorb(many, x, lower).out, n);
      StillFull(many.out, d, Absorb(many, x, lower).out, Collect(d, x, lower), n);
    }
  }

  lemma AllEqualFurther(one: Acc, many: Acc, x: Stat, n: nat, lower: Lower)
    requires CleanAcc(many, lower) && many.seen <= one.seen && one.out == many.out && |one.out| < n
    requires Agree(Absorb(one, x, lower).out, Collect(many.out, x, lower), n)
    ensures Absorb(one, x, lower).out == Absorb(many, x, lower).out == Collect(many.out, x, lower)
  {
    if Converts(x) && KeyOf(x, lower).Some? {
      assert KeyOf(x, lower).value !in many.seen ==> !HasStat(many.out, KeyOf(x, lower), lower);
    }
  }

  lemma {:induction false} ItemsAllAgree(front: seq<seq<Stat>>, c: seq<Stat>, n: nat, limit: int, lower: Lower)
    requires n <= |c| && NoRescue(Flatten(front) + c[..n], limit, lower)
    ensures AllAgree(OnePass(front, c, n, lower).out, ManyPasses(front, c, n, lower).out,
                     Distinct(Flatten(front) + c[..n], lower), Max(limit, 1))
    decreases |front|, n + 1
  {
    var all := Flatten(front) + c[..n];
    if n == 0 {
      assert c[..0] == [] && all == Flatten(front);
      ChunksAllAgree(front, limit, lower);
    } else {
      var before := Flatten(front) + c[..n - 1];
      assert all[..|before|] == before && all == before + [c[n - 1]];
      NoRescueInPrefix(all, |before|, limit, lower);
      ItemsAllAgree(front, c, n - 1, limit, lower);
      PassesNext(front, c, n - 1, lower);
      RescuedIsRescues(front, c, n - 1, limit, lower);
      NoRescueAgrees(all, limit, lower);
      AllAgreeFurther(OnePass(front, c, n - 1, lower), ManyPasses(front, c, n - 1, lower),
                      Distinct(before, lower), c[n - 1], Max(limit, 1), lower);
    }
  }

  lemma {:induction false} ChunksAllAgree(chunks: seq<seq<Stat>>, limit: int, lower: Lower)
    requires NoRescue(Flatten(chunks), limit, lower)
    ensures AllAgree(AbsorbAll(Acc([], {}), Flatten(chunks), lower).out, Reported(chunks, lower),
                     Distinct(Flatten(chunks), lower), Max(limit, 1))
    decreases |chunks|, 0
  {
    if chunks != [] {
      var front, c := chunks[..|chunks| - 1], chunks[|chunks| - 1];
      assert c[..|c|] == c;
      ItemsAllAgree(front, c, |c|, limit, lower);
    }
  }

  /** Without a rescue the fold gives the first `limit` distinct labels, however it is cut. */
  lemma {:induction false} FoldIsDistinct(chunks: seq<seq<Stat>>, limit: int, lower: Lower)
    requires NoRescue(Flatten(chunks), limit, lower)
    ensures FoldStats(chunks, limit, lower) == Take(Distinct(Flatten(chunks), lower), Max(limit, 1))
    ensures OneShot(Flatten(chunks), limit, lower) == Take(Distinct(Flatten(chunks), lower), Max(limit, 1))
  {
    assert [] + Flatten(chunks) == Flatten(chunks);
    FoldIsReported(chunks, limit, lower);
    ChunksAllAgree(chunks, limit, lower);
  }

  ghost predicate ChunksDoNotMatter(items: seq<Stat>, limit: int, lower: Lower) {
    forall chunks: seq<seq<Stat>> | Flatten(chunks) == items ::
      FoldStats(chunks, limit, lower) == OneShot(items, limit, lower)
  }

  /** Merging chunk by chunk equals one pass, however the items are cut into chunks,
      exactly when no failed value's label would be rescued by a later item. */
  lemma {:induction false} ChunksDoNotMatterIff(items: seq<Stat>, limit: int, lower: Lower)
    ensures ChunksDoNotMatter(items, limit, lower) <==> NoRescue(items, limit, lower)
  {
    if NoRescue(items, limit, lower) {
      forall chunks: seq<seq<Stat>> | Flatten(chunks) == items
        ensures FoldStats(chunks, limit, lower) == OneShot(items, limit, lower)
      {
        FoldIsDistinct(chunks, limit, lower);
      }
    } else {
      SinglesFlatten(items);
      SinglesRescued(items, limit, lower);
      ChunkwiseIsOneShotIff(Singles(items), limit, lower);
    }
  }

  /** When all values convert, the fold gives the first `limit` distinct labels of the
      concatenation, whatever the chunk boundaries. */
  lemma {:induction false} ConvertibleStatsMergeAtOnce(chunks: seq<seq<Stat>>, limit: int, lower: Lower)
    requires forall i | 0 <= i < |Flatten(chunks)| && KeyOf(Flatten(chunks)[i], lower).Some? ::
      Converts(Flatten(chunks)[i])
    ensures FoldStats(chunks, limit, lower) == OneShot(Flatten(chunks), limit, lower)
         == Take(Distinct(Flatten(chunks), lower), Max(limit, 1))
  {
    var items := Flatten(chunks);
    forall j | 0 <= j < |items| ensures !Rescue(items, j, limit, lower) {
      if HasStat(items[..j], KeyOf(items[j], lower), lower) && KeyOf(items[j], lower).Some? {
        ConvertedIsCollected(items[..j], KeyOf(items[j], lower), lower);
      }
    }
    FoldIsDistinct(chunks, limit, lower);
  }

  lemma {:induction false} ConvertedIsCollected(items: seq<Stat>, key: Option<string>, lower: Lower)
    requires forall i | 0 <= i < |items| && KeyOf(items[i], lower).Some? :: Converts(items[i])
    requires key.Some? && HasStat(items, key, lower)
    ensures HasStat(Distinct(items, lower), key, lower)
  {
    var front, x := items[..|items| - 1], items[|items| - 1];
    HasStatLast(items, key, lower);
    if x.Stat? {
      TrimmedKeepsKey(x, lower);
      HasStatSnoc(Distinct(front, lower), Trimmed(x), key, lower);
    }
    if HasStat(front, key, lower) {
      ConvertedIsCollected(front, key, lower);
    }
  }

  /** A failed value in one chunk and a good one in the next: one pass drops the label,
      merging chunk by chunk keeps it. */
  lemma FailedValueIsRescued(bad: Stat, good: Stat, lower: Lower)
    requires bad.Stat? && !Converts(bad) && KeyOf(bad, lower).Some?
    requires Converts(good) && KeyOf(good, lower) == KeyOf(bad, lower)
    ensures FoldStats([[bad], [good]], STATS_LIMIT, lower) == [Trimmed(good)]
    ensures OneShot([bad, good], STATS_LIMIT, lower) == []
  {
    PairOnePass(bad, good, lower);
    PairSingles(bad, good);
    FoldIsReported([[bad], [good]], STATS_LIMIT, lower);
    SinglesAreDistinct([bad, good], lower);
    assert [bad, good][..1] == [bad] && [bad][..0] == [];
    assert Distinct([bad], lower) == [];
  }

  lemma PairSingles(x: Stat, y: Stat)
    ensures Singles([x, y]) == [[x], [y]]
  {
    assert [x, y][..1] == [x] && [x][..0] == [];
    assert Singles([x]) == [[x]];
  }

  lemma PairOnePass(bad: Stat, good: Stat, lower: Lower)
    requires bad.Stat? && !Converts(bad) && KeyOf(bad, lower).Some? && KeyOf(good, lower) == KeyOf(bad, lower)
    ensures OneShot([bad, good], STATS_LIMIT, lower) == []
  {
    var items, key := [bad, good], KeyOf(bad, lower).value;
    assert items[..1] == [bad] && [bad][..0] == [] && [] + items == items;
    assert AbsorbAll(Acc([], {}), [bad], lower) == Acc([], {} + {key});
    assert AbsorbAll(Acc([], {}), items, lower) == Acc([], {} + {key});
  }

  // ----- lists over chunks -----

  /** Where an item of a part stands in the whole, and that there is nothing else. */
  lemma {:induction false} FlattenAt<T>(parts: seq<seq<T>>, c: nat, i: nat)
    requires c < |parts| && i < |parts[c]|
    ensures var at := |Flatten(parts[..c])| + i;
            at < |Flatten(parts)| && Flatten(parts)[at] == parts[c][i]
    decreases |parts|
  {
    var front := parts[..|parts| - 1];
    if c < |front| {
      FlattenAt(front, c, i);
      assert front[..c] == parts[..c];
    }
  }

  lemma {:induction false} FlattenFrom<T>(parts: seq<seq<T>>, k: nat) returns (c: nat, i: nat)
    requires k < |Flatten(parts)|
    ensures c < |parts| && i < |parts[c]| && Flatten(parts)[k] == parts[c][i] && k == |Flatten(parts[..c])| + i
  {
    var n := |parts| - 1;
    var front := parts[..n];
    if k < |Flatten(front)| {
      c, i := FlattenFrom(front, k);
      assert front[..c] == parts[..c];
    } else {
      c, i := n, k - |Flatten(front)|;
    }
  }

  /** A key is in the merged list exactly when some chunk holds a non-blank item with it. */
  lemma {:induction false} MergedKeys(parts: seq<seq<string>>, lower: Lower, key: string)
    ensures HasKey(Dedupe(Flatten(parts), lower), key, lower)
       <==> exists c, i :: 0 <= c < |parts| && 0 <= i < |parts[c]| &&
              Strip(parts[c][i]) != "" && lower(Strip(parts[c][i])) == key
  {
    var all := Flatten(parts);
    DedupeKeepsKeys(all, lower, key);
    forall k | 0 <= k < |all| && Strip(all[k]) != "" && lower(Strip(all[k])) == key
      ensures exists c, i ::
        0 <= c < |parts| && 0 <= i < |parts[c]| && Strip(parts[c][i]) != "" && lower(Strip(parts[c][i])) == key
    {
      var c, i := FlattenFrom(parts, k);
    }
    forall c, i |
      0 <= c < |parts| && 0 <= i < |parts[c]| && Strip(parts[c][i]) != "" && lower(Strip(parts[c][i])) == key
      ensures exists k :: 0 <= k < |all| && Strip(all[k]) != "" && lower(Strip(all[k])) == key
    {
      FlattenAt(parts, c, i);
    }
  }

  // ----- the aggregation loop -----

  datatype Lists = Lists(
    keyIdeas: seq<string>, topicTags: seq<string>, answered: seq<string>, seoKeywords: seq<string>)

  const NO_LISTS := Lists([], [], [], [])

  datatype Chunk = Chunk(entities: Entities, keyStats: seq<Stat>, lists: Lists)

  datatype Aggregate = Aggregate(entities: Entities, keyStats: seq<Stat>, lists: Lists)

  // Each field of the chunks, chunk by chunk.

  function EntityParts(chunks: seq<Chunk>): (parts: seq<Entities>)
    ensures |parts| == |chunks| && forall c | 0 <= c < |chunks| :: parts[c] == chunks[c].entities
  {
    seq(|chunks|, c requires 0 <= c < |chunks| => chunks[c].entities)
  }

  function StatParts(chunks: seq<Chunk>): (parts: seq<seq<Stat>>)
    ensures |parts| == |chunks| && forall c | 0 <= c < |chunks| :: parts[c] == chunks[c].keyStats
  {
    seq(|chunks|, c requires 0 <= c < |chunks| => chunks[c].keyStats)
  }

  function KeyIdeas(chunks: seq<Chunk>): (parts: seq<seq<string>>)
    ensures |parts| == |chunks| && forall c | 0 <= c < |chunks| :: parts[c] == chunks[c].lists.keyIdeas
  {
    seq(|chunks|, c requires 0 <= c < |chunks| => chunks[c].lists.keyIdeas)
  }

  function TopicTags(chunks: seq<Chunk>): (parts: seq<seq<string>>)
    ensures |parts| == |chunks| && forall c | 0 <= c < |chunks| :: parts[c] == chunks[c].lists.topicTags
  {
    seq(|chunks|, c requires 0 <= c < |chunks| => chunks[c].lists.topicTags)
  }

  function Answered(chunks: seq<Chunk>): (parts: seq<seq<string>>)
    ensures |parts| == |chunks| && forall c | 0 <= c < |chunks| :: parts[c] == chunks[c].lists.answered
  {
    seq(|chunks|, c requires 0 <= c < |chunks| => chunks[c].lists.answered)
  }

  function SeoKeywords(chunks: seq<Chunk>): (parts: seq<seq<string>>)
    ensures |parts| == |chunks| && forall c | 0 <= c < |chunks| :: parts[c] == chunks[c].lists.seoKeywords
  {
    seq(|chunks|, c requires 0 <= c < |chunks| => chunks[c].lists.seoKeywords)
  }

  function People(entities: seq<Entities>): (parts: seq<seq<string>>)
    ensures |parts| == |entities| && forall c | 0 <= c < |entities| :: parts[c] == entities[c].people
  {
    seq(|entities|, c requires 0 <= c < |entities| => entities[c].people)
  }

  function Organizations(entities: seq<Entities>): (parts: seq<seq<string>>)
    ensures |parts| == |entities| && forall c | 0 <= c < |entities| :: parts[c] == entities[c].organizations
  {
    seq(|entities|, c requires 0 <= c < |entities| => entities[c].organizations)
  }

  function Locations(entities: seq<Entities>): (parts: seq<seq<string>>)
    ensures |parts| == |entities| && forall c | 0 <= c < |entities| :: parts[c] == entities[c].locations
  {
    seq(|entities|, c requires 0 <= c < |entities| => entities[c].locations)
  }

  lemma {:induction false} FlattenLast<T>(parts: seq<seq<T>>, front: seq<seq<T>>, last: seq<T>)
    requires |parts| == |front| + 1 && parts[|front|] == last
    requires forall c | 0 <= c < |front| :: parts[c] == front[c]
    ensures Flatten(parts) == Flatten(front) + last
  {
    assert parts[..|parts| - 1] == front;
  }

  /** Field by field, the chunks' entities put together. */
  lemma {:induction false} TogetherIs(entities: seq<Entities>)
    ensures Together(entities)
         == Entities(Flatten(People(entities)), Flatten(Organizations(entities)), Flatten(Locations(entities)))
  {
    if entities != [] {
      var front, last := entities[..|entities| - 1], entities[|entities| - 1];
      TogetherIs(front);
      FlattenLast(People(entities), People(front), last.people);
      FlattenLast(Organizations(entities), Organizations(front), last.organizations);
      FlattenLast(Locations(entities), Locations(front), last.locations);
    }
  }

  /** The accumulators after the given chunks. */
  function FoldAll(chunks: seq<Chunk>, lower: Lower): Aggregate {
    if chunks == [] then Aggregate(NO_ENTITIES, [], NO_LISTS)
    else
      var earlier, last := FoldAll(chunks[..|chunks| - 1], lower), chunks[|chunks| - 1];
      Aggregate(
        MergeEntities(earlier.entities, last.entities, lower),
        MergeStats(earlier.keyStats, last.keyStats, STATS_LIMIT, lower),
        Append(earlier.lists, last.lists))
  }

  function Append(a: Lists, b: Lists): Lists {
    Lists(a.keyIdeas + b.keyIdeas, a.topicTags + b.topicTags, a.answered + b.answered, a.seoKeywords + b.seoKeywords)
  }

  lemma {:induction false} FoldAllByPart(chunks: seq<Chunk>, lower: Lower)
    ensures FoldAll(chunks, lower).entities == FoldEntities(EntityParts(chunks), lower)
    ensures FoldAll(chunks, lower).keyStats == FoldStats(StatParts(chunks), STATS_LIMIT, lower)
  {
    if chunks != [] {
      FoldAllByPart(chunks[..|chunks| - 1], lower);
      var entities, stats := EntityParts(chunks), StatParts(chunks);
      assert entities[..|entities| - 1] == EntityParts(chunks[..|chunks| - 1]);
      assert stats[..|stats| - 1] == StatParts(chunks[..|chunks| - 1]);
    }
  }

  lemma {:induction false} FoldAllLists(chunks: seq<Chunk>, lower: Lower)
    ensures FoldAll(chunks, lower).lists
         == Lists(Flatten(KeyIdeas(chunks)), Flatten(TopicTags(chunks)), Flatten(Answered(chunks)),
                  Flatten(SeoKeywords(chunks)))
  {
    if chunks != [] {
      var front, last := chunks[..|chunks| - 1], chunks[|chunks| - 1].lists;
      FoldAllLists(front, lower);
      FlattenLast(KeyIdeas(chunks), KeyIdeas(front), last.keyIdeas);
      FlattenLast(TopicTags(chunks), TopicTags(front), last.topicTags);
      FlattenLast(Answered(chunks), Answered(front), last.answered);
      FlattenLast(SeoKeywords(chunks), SeoKeywords(front), last.seoKeywords);
    }
  }

  /** The accumulators are those of the fold: chunk-wise merged entities and statistics, and
      each list as if the chunks had been concatenated. */
  method FoldChunks(chunks: seq<Chunk>, lower: Lower) returns (result: Aggregate)
    ensures result.entities == FoldEntities(EntityParts(chunks), lower)
    ensures result.keyStats == FoldStats(StatParts(chunks), STATS_LIMIT, lower)
    ensures result.lists.keyIdeas == Flatten(KeyIdeas(chunks))
    ensures result.lists.topicTags == Flatten(TopicTags(chunks))
    ensures result.lists.answered == Flatten(Answered(chunks))
    ensures result.lists.seoKeywords == Flatten(SeoKeywords(chunks))
  {
    var entities, keyStats, lists := NO_ENTITIES, [], NO_LISTS;
    for i := 0 to |chunks|
      invariant Aggregate(entities, keyStats, lists) == FoldAll(chunks[..i], lower)
    {
      assert chunks[..i + 1][..i] == chunks[..i];
      lists := Append(lists, chunks[i].lists);
      entities := MergeEntities(entities, chunks[i].entities, lower);
      keyStats := MergeKeyStats(keyStats, chunks[i].keyStats, STATS_LIMIT, lower);
    }
    assert chunks[..|chunks|] == chunks;
    FoldAllByPart(chunks, lower);
    FoldAllLists(chunks, lower);
    result := Aggregate(entities, keyStats, lists);
  }

  /** The incremental loop over chunk summaries. Entities and lists come out as if every
      chunk had been concatenated first; statistics are the first twenty that chunk-wise
      merging reports, and those of one pass exactly when none is rescued. */
  method AggregateChunkSummaries(chunks: seq<Chunk>, lower: Lower) returns (result: Aggregate)
    ensures result.entities.people == Dedupe(Flatten(People(EntityParts(chunks))), lower)
    ensures result.entities.organizations == Dedupe(Flatten(Organizations(EntityParts(chunks))), lower)
    ensures result.entities.locations == Dedupe(Flatten(Locations(EntityParts(chunks))), lower)
    ensures result.keyStats == Take(Reported(StatParts(chunks), lower), 20)
    ensures result.keyStats == OneShot(Flatten(StatParts(chunks)), STATS_LIMIT, lower)
       <==> NoneRescued(StatParts(chunks), STATS_LIMIT, lower)
    ensures result.lists.keyIdeas == Take(Dedupe(Flatten(KeyIdeas(chunks)), lower), 10)
    ensures result.lists.topicTags == Take(Dedupe(Flatten(TopicTags(chunks)), lower), 8)
    ensures result.lists.answered == Dedupe(Flatten(Answered(chunks)), lower)
    ensures result.lists.seoKeywords == Take(Dedupe(Flatten(SeoKeywords(chunks)), lower), 15)
  {
    result := FoldChunks(chunks, lower);
    EntitiesTogether(EntityParts(chunks), lower);
    ChunkwiseIsOneShotIff(StatParts(chunks), STATS_LIMIT, lower);
    FoldIsReported(StatParts(chunks), STATS_LIMIT, lower);
    var keyIdeas := DedupeList(result.lists.keyIdeas, Some(10), lower);
    var topicTags := DedupeList(result.lists.topicTags, Some(8), lower);
    var answered := DedupeList(result.lists.answered, None, lower);
    var seoKeywords := DedupeList(result.lists.seoKeywords, Some(15), lower);
    result := result.(lists := Lists(keyIdeas, topicTags, answered, seoKeywords));
  }

  lemma {:induction false} EntitiesTogether(entities: seq<Entities>, lower: Lower)
    ensures FoldEntities(entities, lower)
         == Entities(Dedupe(Flatten(People(entities)), lower), Dedupe(Flatten(Organizations(entities)), lower),
                     Dedupe(Flatten(Locations(entities)), lower))
  {
    EntitiesMergeAtOnce(entities, lower);
    TogetherIs(entities);
    NothingInFront(Together(entities));
  }
}
