/** Claim parsing and per-source coverage in app/agents/multi_source_aggregation_agent.py
    and app/agents/_aggregation_utils.py: which item is cited by which claims. */
module SourceCoverage {
  import opened Text

  // ----- claims -----

  /** str.lower(), about which nothing needs to be known. */
  type Lower = string -> string

  /** A claim as the model returned it; None for a list that is not one and for a confidence
      that is not a number, "" for a missing id or text. */
  datatype RawClaim =
    | NotADict
    | RawClaim(id: string, text: string, sources: Option<seq<string>>, evidence: Option<seq<string>>,
               confidence: Option<real>)

  datatype Claim = Claim(
    id: string, text: string, sources: seq<string>, evidence: seq<string>, confidence: Option<real>)

  const EVIDENCE_KINDS := {"text", "image", "ocr", "transcript", "metadata"}

  /** The known, non-empty readings of the raw entries, each once, in order of first mention. */
  function Filtered(raw: seq<string>, valid: set<string>, read: string -> string): seq<string> {
    if raw == [] then []
    else
      var earlier, id := Filtered(raw[..|raw| - 1], valid, read), read(raw[|raw| - 1]);
      if id != "" && id in valid && id !in earlier then earlier + [id] else earlier
  }

  /** The entry is a known id that no earlier entry mentions. */
  predicate FirstMention(raw: seq<string>, valid: set<string>, read: string -> string, i: nat)
    requires i < |raw|
  {
    read(raw[i]) != "" && read(raw[i]) in valid && forall h | 0 <= h < i :: read(raw[h]) != read(raw[i])
  }

  /** What is kept: each known id mentioned, at the place of its first mention. */
  lemma {:induction false} FilteredMeaning(raw: seq<string>, valid: set<string>, read: string -> string)
    returns (first: seq<nat>)
    ensures NoRepeats(Filtered(raw, valid, read))
    ensures |first| == |Filtered(raw, valid, read)|
    ensures forall j, k | 0 <= j < k < |first| :: first[j] < first[k]
    ensures forall i | 0 <= i < |raw| :: i in first <==> FirstMention(raw, valid, read, i)
    ensures forall j | 0 <= j < |first| :: first[j] < |raw| && Filtered(raw, valid, read)[j] == read(raw[first[j]])
  {
    first := [];
    if raw != [] {
      var n := |raw| - 1;
      var front := raw[..n];
      first := FilteredMeaning(front, valid, read);
      forall i | 0 <= i < n ensures FirstMention(raw, valid, read, i) == FirstMention(front, valid, read, i) {
        assert forall h | 0 <= h <= i :: front[h] == raw[h];
      }
      LastMention(raw, valid, read);
      assert n !in first;
      if FirstMention(raw, valid, read, n) {
        first := first + [n];
      }
    }
  }

  lemma {:induction false} LastMention(raw: seq<string>, valid: set<string>, read: string -> string)
    requires raw != []
    ensures var n := |raw| - 1;
      Filtered(raw, valid, read)
      == Filtered(raw[..n], valid, read) + (if FirstMention(raw, valid, read, n) then [read(raw[n])] else [])
  {
    var n := |raw| - 1;
    FilteredMember(raw[..n], valid, read, read(raw[n]));
    assert forall h | 0 <= h < n :: raw[..n][h] == raw[h];
  }

  /** Every known id mentioned is kept, and nothing else is. */
  lemma {:induction false} FilteredMember(raw: seq<string>, valid: set<string>, read: string -> string, id: string)
    ensures id in Filtered(raw, valid, read)
       <==> id != "" && id in valid && exists i | 0 <= i < |raw| :: read(raw[i]) == id
  {
    if raw != [] {
      var front := raw[..|raw| - 1];
      FilteredMember(front, valid, read, id);
      assert forall i | 0 <= i < |front| :: front[i] == raw[i];
      assert (exists i | 0 <= i < |raw| :: read(raw[i]) == id)
        <==> (exists i | 0 <= i < |front| :: read(front[i]) == id) || read(raw[|front|]) == id;
    }
  }

  method FilterList(raw: Option<seq<string>>, valid: set<string>, read: string -> string)
    returns (ids: seq<string>)
    ensures ids == if raw.None? then [] else Filtered(raw.value, valid, read)
  {
    ids := [];
    if raw.None? {
      return;
    }
    for i := 0 to |raw.value|
      invariant ids == Filtered(raw.value[..i], valid, read)
    {
      assert raw.value[..i + 1][..i] == raw.value[..i];
      var id := read(raw.value[i]);
      if id != "" && id in valid && id !in ids {
        ids := ids + [id];
      }
    }
    assert raw.value[..|raw.value|] == raw.value;
  }

  /** The known ids among the trimmed ones. */
  function KnownIds(raw: Option<seq<string>>, valid: set<string>): seq<string> {
    if raw.None? then [] else Filtered(raw.value, valid, Strip)
  }

  function KindName(raw: string, lower: Lower): string {
    lower(Strip(raw))
  }

  /** The evidence kinds among the trimmed and lower-cased ones. */
  function KnownKinds(raw: Option<seq<string>>, lower: Lower): seq<string> {
    if raw.None? then [] else Filtered(raw.value, EVIDENCE_KINDS, s => KindName(s, lower))
  }

  method FilterSourceItemIds(raw: Option<seq<string>>, valid: set<string>) returns (ids: seq<string>)
    ensures ids == KnownIds(raw, valid)
  {
    ids := FilterList(raw, valid, Strip);
  }

  method ParseEvidenceKinds(raw: Option<seq<string>>, lower: Lower) returns (kinds: seq<string>)
    ensures kinds == KnownKinds(raw, lower)
  {
    kinds := FilterList(raw, EVIDENCE_KINDS, s => KindName(s, lower));
  }

  /** A claim is kept when it has text and cites a known source. */
  predicate Keeps(raw: RawClaim, valid: set<string>) {
    raw.RawClaim? && Strip(raw.text) != "" && KnownIds(raw.sources, valid) != []
  }

  /** The parsed claims of the raw ones; a missing id is made from the position. */
  function Parsed(raw: seq<RawClaim>, valid: set<string>, lower: Lower): seq<Claim> {
    if raw == [] then []
    else
      var earlier, last := Parsed(raw[..|raw| - 1], valid, lower), raw[|raw| - 1];
      if !Keeps(last, valid) then earlier
      else
        var id := if last.id != "" then last.id else "claim_" + Decimal(|raw|);
        earlier + [Claim(id, Strip(last.text), KnownIds(last.sources, valid), KnownKinds(last.evidence, lower),
                         last.confidence)]
  }

  method ParseClaims(raw: Option<seq<RawClaim>>, valid: set<string>, lower: Lower) returns (claims: seq<Claim>)
    ensures claims == if raw.None? then [] else Parsed(raw.value, valid, lower)
  {
    claims := [];
    if raw.None? {
      return;
    }
    for i := 0 to |raw.value|
      invariant claims == Parsed(raw.value[..i], valid, lower)
    {
      assert raw.value[..i + 1][..i] == raw.value[..i];
      var item := raw.value[i];
      if item.NotADict? {
        continue;
      }
      var text := Strip(item.text);
      var sources := FilterSourceItemIds(item.sources, valid);
      if text == "" || sources == [] {
        continue;
      }
      var evidence := ParseEvidenceKinds(item.evidence, lower);
      var id := if item.id != "" then item.id else "claim_" + Decimal(i + 1);
      claims := claims + [Claim(id, text, sources, evidence, item.confidence)];
    }
    assert raw.value[..|raw.value|] == raw.value;
  }

  /** The source ids of a claim: the trimmed, non-empty known ones, each where it first stands. */
  lemma {:induction false} KnownIdsMeaning(raw: seq<string>, valid: set<string>) returns (first: seq<nat>)
    ensures Increasing(first) && |KnownIds(Some(raw), valid)| == |first|
    ensures forall i: nat | i < |raw| ::
      i in first <==> Strip(raw[i]) != "" && Strip(raw[i]) in valid
                      && forall h | 0 <= h < i :: Strip(raw[h]) != Strip(raw[i])
    ensures forall j | 0 <= j < |first| :: first[j] < |raw| && KnownIds(Some(raw), valid)[j] == Strip(raw[first[j]])
  {
    first := FilteredMeaning(raw, valid, Strip);
    forall i: nat | i < |raw|
      ensures i in first <==> Strip(raw[i]) != "" && Strip(raw[i]) in valid
                              && forall h | 0 <= h < i :: Strip(raw[h]) != Strip(raw[i])
    {
      assert i in first <==> FirstMention(raw, valid, Strip, i);
    }
  }

  /** The evidence kinds of a claim: the five known ones, trimmed and lower-cased, each where it
      first stands. */
  lemma {:induction false} KnownKindsMeaning(raw: seq<string>, lower: Lower) returns (first: seq<nat>)
    ensures Increasing(first) && |KnownKinds(Some(raw), lower)| == |first|
    ensures forall i: nat | i < |raw| ::
      i in first <==> lower(Strip(raw[i])) in {"text", "image", "ocr", "transcript", "metadata"}
                      && forall h | 0 <= h < i :: lower(Strip(raw[h])) != lower(Strip(raw[i]))
    ensures forall j | 0 <= j < |first| ::
      first[j] < |raw| && KnownKinds(Some(raw), lower)[j] == lower(Strip(raw[first[j]]))
  {
    first := FilteredMeaning(raw, EVIDENCE_KINDS, s => KindName(s, lower));
    forall i: nat | i < |raw|
      ensures i in first <==> lower(Strip(raw[i])) in {"text", "image", "ocr", "transcript", "metadata"}
                              && forall h | 0 <= h < i :: lower(Strip(raw[h])) != lower(Strip(raw[i]))
    {
      FirstKind(raw, lower, s => KindName(s, lower), i);
    }
  }

  lemma {:induction false} FirstKind(raw: seq<string>, lower: Lower, read: string -> string, i: nat)
    requires i < |raw| && forall s :: read(s) == KindName(s, lower)
    ensures FirstMention(raw, EVIDENCE_KINDS, read, i)
       <==> lower(Strip(raw[i])) in {"text", "image", "ocr", "transcript", "metadata"}
            && forall h | 0 <= h < i :: lower(Strip(raw[h])) != lower(Strip(raw[i]))
  {}

  /** Raw claim i is a dictionary with text and cites a known source. */
  ghost predicate Survives(raw: RawClaim, valid: set<string>) {
    && raw.RawClaim? && Strip(raw.text) != "" && raw.sources.Some?
    && var ids := raw.sources.value;
       exists k | 0 <= k < |ids| :: Strip(ids[k]) != "" && Strip(ids[k]) in valid
  }

  /** What raw claim i, counted from zero, becomes: a missing id is made from its place. */
  ghost predicate Becomes(c: Claim, raw: RawClaim, i: nat, valid: set<string>, lower: Lower) {
    && raw.RawClaim?
    && c.id == (if raw.id != "" then raw.id else "claim_" + Decimal(i + 1))
    && c.text == Strip(raw.text) && c.confidence == raw.confidence
    && c.sources == KnownIds(raw.sources, valid) && c.evidence == KnownKinds(raw.evidence, lower)
  }

  lemma {:induction false} KeepsMeaning(raw: RawClaim, valid: set<string>)
    ensures Keeps(raw, valid) <==> Survives(raw, valid)
  {
    if raw.RawClaim? && raw.sources.Some? {
      var ids := raw.sources.value;
      if KnownIds(raw.sources, valid) != [] {
        FilteredMember(ids, valid, Strip, KnownIds(raw.sources, valid)[0]);
      }
      forall k | 0 <= k < |ids| && Strip(ids[k]) != "" && Strip(ids[k]) in valid
        ensures KnownIds(raw.sources, valid) != []
      {
        FilteredMember(ids, valid, Strip, Strip(ids[k]));
      }
    }
  }

  /** The claims are what the raw ones at these places become. */
  ghost predicate AreClaims(
    claims: seq<Claim>, raw: seq<RawClaim>, places: seq<nat>, valid: set<string>, lower: Lower)
  {
    && |claims| == |places|
    && forall j | 0 <= j < |places| ::
         places[j] < |raw| && Becomes(claims[j], raw[places[j]], places[j], valid, lower)
  }

  lemma {:induction false} OneMoreClaim(
    claims: seq<Claim>, raw: seq<RawClaim>, places: seq<nat>, valid: set<string>, lower: Lower, c: Claim)
    requires raw != [] && AreClaims(claims, raw[..|raw| - 1], places, valid, lower)
    ensures AreClaims(claims, raw, places, valid, lower)
    ensures Becomes(c, raw[|raw| - 1], |raw| - 1, valid, lower) ==>
      AreClaims(claims + [c], raw, places + [|raw| - 1], valid, lower)
  {}

  lemma {:induction false} ParsedNext(raw: seq<RawClaim>, valid: set<string>, lower: Lower) returns (c: Claim)
    requires raw != []
    ensures var n := |raw| - 1;
      if Keeps(raw[n], valid)
      then Parsed(raw, valid, lower) == Parsed(raw[..n], valid, lower) + [c] && Becomes(c, raw[n], n, valid, lower)
      else Parsed(raw, valid, lower) == Parsed(raw[..n], valid, lower)
  {
    var last := raw[|raw| - 1];
    if Keeps(last, valid) {
      c := Parsed(raw, valid, lower)[|Parsed(raw[..|raw| - 1], valid, lower)|];
    } else {
      c := Claim("", "", [], [], None);
    }
  }

  lemma {:induction false} KeptPlaces(raw: seq<RawClaim>, valid: set<string>, lower: Lower)
    returns (places: seq<nat>)
    ensures Increasing(places) && AreClaims(Parsed(raw, valid, lower), raw, places, valid, lower)
    ensures forall i: nat {:trigger i in places} :: i in places <==> i < |raw| && Keeps(raw[i], valid)
  {
    places := [];
    if raw != [] {
      var n := |raw| - 1;
      var earlier := KeptPlaces(raw[..n], valid, lower);
      places := if Keeps(raw[n], valid) then earlier + [n] else earlier;
      assert AreClaims(Parsed(raw, valid, lower), raw, places, valid, lower) by {
        var c := ParsedNext(raw, valid, lower);
        OneMoreClaim(Parsed(raw[..n], valid, lower), raw, earlier, valid, lower, c);
      }
      OneMorePlace(earlier, n);
    }
  }

  /** The parsed claims are the surviving raw ones, in order. */
  lemma {:induction false} ParsedPlaces(raw: seq<RawClaim>, valid: set<string>, lower: Lower)
    returns (places: seq<nat>)
    ensures Increasing(places) && AreClaims(Parsed(raw, valid, lower), raw, places, valid, lower)
    ensures forall i: nat {:trigger i in places} :: i in places <==> i < |raw| && Survives(raw[i], valid)
  {
    places := KeptPlaces(raw, valid, lower);
    forall i: nat | i < |raw| ensures Keeps(raw[i], valid) <==> Survives(raw[i], valid) {
      KeepsMeaning(raw[i], valid);
    }
  }

  /** A parsed claim cites at least one source, each known and none twice. */
  predicate WellCited(c: Claim, valid: set<string>) {
    c.sources != [] && NoRepeats(c.sources) && forall i | 0 <= i < |c.sources| :: c.sources[i] in valid
  }

  lemma {:induction false} KnownIdsAreValid(raw: Option<seq<string>>, valid: set<string>)
    ensures NoRepeats(KnownIds(raw, valid))
    ensures forall i | 0 <= i < |KnownIds(raw, valid)| :: KnownIds(raw, valid)[i] in valid
  {
    if raw.Some? {
      var ids := Filtered(raw.value, valid, Strip);
      var first := FilteredMeaning(raw.value, valid, Strip);
      forall i | 0 <= i < |ids| ensures ids[i] in valid {
        assert FirstMention(raw.value, valid, Strip, first[i]);
      }
    }
  }

  lemma {:induction false} ParsedAreWellCited(raw: seq<RawClaim>, valid: set<string>, lower: Lower)
    ensures forall i | 0 <= i < |Parsed(raw, valid, lower)| :: WellCited(Parsed(raw, valid, lower)[i], valid)
  {
    if raw != [] {
      var last := raw[|raw| - 1];
      ParsedAreWellCited(raw[..|raw| - 1], valid, lower);
      if Keeps(last, valid) {
        KnownIdsAreValid(last.sources, valid);
      }
    }
  }

  // ----- coverage -----

  /** A submitted item; only its source id and whether it is a duplicate decide anything. */
  datatype Item = Item(position: int, itemId: int, source: string, kind: string, status: string) {
    predicate Duplicate() {
      status == "duplicate"
    }
  }

  datatype Coverage = Coverage(
    item: Item, used: bool, claimIds: seq<string>, contradictions: nat, duplicateSignals: nat,
    weight: Option<real>)

  function WeightOf(weights: map<string, real>, source: string): Option<real> {
    if source in weights then Some(weights[source]) else None
  }

  function Repeated(id: string, sources: seq<string>, source: string): seq<string> {
    if sources == [] then []
    else
      var earlier := Repeated(id, sources[..|sources| - 1], source);
      if sources[|sources| - 1] == source then earlier + [id] else earlier
  }

  /** The ids of the claims citing a source, in claim order, once per citation. */
  function CitingIds(claims: seq<Claim>, source: string): seq<string> {
    if claims == [] then []
    else
      var last := claims[|claims| - 1];
      CitingIds(claims[..|claims| - 1], source) + Repeated(last.id, last.sources, source)
  }

  function Occurrences(lists: seq<seq<string>>, source: string): nat {
    if lists == [] then 0
    else Occurrences(lists[..|lists| - 1], source) + multiset(lists[|lists| - 1])[source]
  }

  function CoverageOf(
    item: Item, claims: seq<Claim>, contradictions: seq<seq<string>>, signals: seq<seq<string>>,
    weights: map<string, real>): Coverage
  {
    var ids := if item.Duplicate() then [] else CitingIds(claims, item.source);
    var contradicted := if item.Duplicate() then 0 else Occurrences(contradictions, item.source);
    var signalled := Occurrences(signals, item.source);
    Coverage(item, !item.Duplicate() && (ids != [] || contradicted > 0 || signalled > 0),
             ids, contradicted, signalled, WeightOf(weights, item.source))
  }

  /** A claim adds its id as often as it cites the source. */
  lemma {:induction false} CitingIdsNext(claims: seq<Claim>, c: Claim, source: string)
    ensures CitingIds([], source) == []
    ensures CitingIds(claims + [c], source)
         == CitingIds(claims, source) + seq(multiset(c.sources)[source], _ => c.id)
  {
    assert (claims + [c])[..|claims|] == claims;
    RepeatedIs(c.id, c.sources, source);
  }

  lemma {:induction false} RepeatedIs(id: string, sources: seq<string>, source: string)
    ensures Repeated(id, sources, source) == seq(multiset(sources)[source], _ => id)
  {
    if sources != [] {
      assert sources == sources[..|sources| - 1] + [sources[|sources| - 1]];
      RepeatedIs(id, sources[..|sources| - 1], source);
    }
  }

  /** Mentions in all lists are counted, repeated ones included. */
  lemma {:induction false} OccurrencesNext(lists: seq<seq<string>>, list: seq<string>, source: string)
    ensures Occurrences([], source) == 0
    ensures Occurrences(lists + [list], source) == Occurrences(lists, source) + multiset(list)[source]
  {
    assert (lists + [list])[..|lists|] == lists;
  }

  lemma {:induction false} OccurrencesIff(lists: seq<seq<string>>, source: string)
    ensures Occurrences(lists, source) > 0 <==> exists i | 0 <= i < |lists| :: source in lists[i]
  {
    if lists != [] {
      var front, last := lists[..|lists| - 1], lists[|lists| - 1];
      OccurrencesIff(front, source);
      assert lists == front + [last];
      assert source in last <==> source in multiset(last);
    }
  }

  lemma {:induction false} CitingIff(claims: seq<Claim>, source: string)
    ensures CitingIds(claims, source) != [] <==> exists i | 0 <= i < |claims| :: source in claims[i].sources
  {
    if claims != [] {
      var front, last := claims[..|claims| - 1], claims[|claims| - 1];
      CitingIff(front, source);
      RepeatedIs(last.id, last.sources, source);
      assert claims == front + [last];
      assert source in last.sources <==> source in multiset(last.sources);
    }
  }

  /** An item counts as used when it is no duplicate and some claim cites it or some
      contradiction or duplicate signal names it. A duplicate lists no claims and counts no
      contradictions, but keeps its duplicate signals and its weight. */
  lemma {:induction false} CoverageMeaning(
    item: Item, claims: seq<Claim>, contradictions: seq<seq<string>>, signals: seq<seq<string>>,
    weights: map<string, real>)
    ensures var entry := CoverageOf(item, claims, contradictions, signals, weights);
      && entry.item == item
      && (entry.used <==>
            && item.status != "duplicate"
            && ((exists i | 0 <= i < |claims| :: item.source in claims[i].sources)
                || (exists i | 0 <= i < |contradictions| :: item.source in contradictions[i])
                || (exists i | 0 <= i < |signals| :: item.source in signals[i])))
      && entry.claimIds == (if item.status == "duplicate" then [] else CitingIds(claims, item.source))
      && entry.contradictions == (if item.status == "duplicate" then 0 else Occurrences(contradictions, item.source))
      && entry.duplicateSignals == Occurrences(signals, item.source)
      && (item.source in weights ==> entry.weight == Some(weights[item.source]))
      && (item.source !in weights ==> entry.weight == None)
  {
    CitingIff(claims, item.source);
    OccurrencesIff(contradictions, item.source);
    OccurrencesIff(signals, item.source);
  }

  function IdsAt(index: map<string, seq<string>>, source: string): seq<string> {
    if source in index then index[source] else []
  }

  function CountAt(counts: map<string, nat>, source: string): nat {
    if source in counts then counts[source] else 0
  }

  lemma {:induction false} AppendId(index: map<string, seq<string>>, source: string, id: string, s: string)
    ensures IdsAt(index[source := IdsAt(index, source) + [id]], s)
         == IdsAt(index, s) + (if s == source then [id] else [])
  {}

  lemma {:induction false} RepeatedNext(id: string, sources: seq<string>, k: nat, s: string)
    requires k < |sources|
    ensures Repeated(id, sources[..k + 1], s) == Repeated(id, sources[..k], s) + (if s == sources[k] then [id] else [])
  {
    assert sources[..k + 1][..k] == sources[..k];
  }

  /** Every source in the list got the id once per occurrence, the others did not. */
  ghost predicate Adds(
    after: map<string, seq<string>>, before: map<string, seq<string>>, id: string, sources: seq<string>)
  {
    forall s: string {:trigger IdsAt(after, s)} :: IdsAt(after, s) == IdsAt(before, s) + Repeated(id, sources, s)
  }

  lemma {:induction false} AddsNext(
    start: map<string, seq<string>>, index: map<string, seq<string>>, id: string, sources: seq<string>, k: nat)
    requires k < |sources| && Adds(index, start, id, sources[..k])
    ensures Adds(index[sources[k] := IdsAt(index, sources[k]) + [id]], start, id, sources[..k + 1])
  {
    var after := index[sources[k] := IdsAt(index, sources[k]) + [id]];
    forall s: string ensures IdsAt(after, s) == IdsAt(start, s) + Repeated(id, sources[..k + 1], s) {
      AppendId(index, sources[k], id, s);
      RepeatedNext(id, sources, k, s);
    }
  }

  method AddClaim(index: map<string, seq<string>>, claim: Claim) returns (index': map<string, seq<string>>)
    ensures Adds(index', index, claim.id, claim.sources)
  {
    index' := index;
    for k := 0 to |claim.sources|
      invariant Adds(index', index, claim.id, claim.sources[..k])
    {
      AddsNext(index, index', claim.id, claim.sources, k);
      index' := index'[claim.sources[k] := IdsAt(index', claim.sources[k]) + [claim.id]];
    }
    assert claim.sources[..|claim.sources|] == claim.sources;
  }

  method IndexClaims(claims: seq<Claim>) returns (index: map<string, seq<string>>)
    ensures forall s: string :: IdsAt(index, s) == CitingIds(claims, s)
  {
    index := map[];
    for c := 0 to |claims|
      invariant forall s: string :: IdsAt(index, s) == CitingIds(claims[..c], s)
    {
      assert claims[..c + 1][..c] == claims[..c];
      index := AddClaim(index, claims[c]);
    }
    assert claims[..|claims|] == claims;
  }

  method AddCounts(counts: map<string, nat>, list: seq<string>) returns (counts': map<string, nat>)
    ensures forall s: string :: CountAt(counts', s) == CountAt(counts, s) + multiset(list)[s]
  {
    counts' := counts;
    for k := 0 to |list|
      invariant forall s: string :: CountAt(counts', s) == CountAt(counts, s) + multiset(list[..k])[s]
    {
      assert list[..k + 1] == list[..k] + [list[k]];
      counts' := counts'[list[k] := CountAt(counts', list[k]) + 1];
    }
    assert list[..|list|] == list;
  }

  method CountBySource(lists: seq<seq<string>>) returns (counts: map<string, nat>)
    ensures forall s: string :: CountAt(counts, s) == Occurrences(lists, s)
  {
    counts := map[];
    for c := 0 to |lists|
      invariant forall s: string :: CountAt(counts, s) == Occurrences(lists[..c], s)
    {
      assert lists[..c + 1][..c] == lists[..c];
      counts := AddCounts(counts, lists[c]);
    }
    assert lists[..|lists|] == lists;
  }

  method BuildSourceCoverage(
    items: seq<Item>, claims: seq<Claim>, contradictions: seq<seq<string>>, signals: seq<seq<string>>,
    weights: map<string, real>)
    returns (coverage: seq<Coverage>)
    ensures |coverage| == |items|
    ensures forall i | 0 <= i < |items| ::
      coverage[i] == CoverageOf(items[i], claims, contradictions, signals, weights)
  {
    var index := IndexClaims(claims);
    var contradicted := CountBySource(contradictions);
    var signalled := CountBySource(signals);
    coverage := [];
    for i := 0 to |items|
      invariant |coverage| == i
      invariant forall k | 0 <= k < i ::
        coverage[k] == CoverageOf(items[k], claims, contradictions, signals, weights)
    {
      var item := items[i];
      var ids := if item.Duplicate() then [] else IdsAt(index, item.source);
      var c := if item.Duplicate() then 0 else CountAt(contradicted, item.source);
      var d := CountAt(signalled, item.source);
      coverage := coverage + [Coverage(item, !item.Duplicate() && (ids != [] || c > 0 || d > 0), ids, c, d,
                                       WeightOf(weights, item.source))];
    }
  }

  // ----- one entry per citing claim -----

  predicate Cites(c: Claim, source: string) {
    source in c.sources
  }

  function IdsOfCiting(claims: seq<Claim>, source: string): seq<string> {
    if claims == [] then []
    else
      var earlier, last := IdsOfCiting(claims[..|claims| - 1], source), claims[|claims| - 1];
      if Cites(last, source) then earlier + [last.id] else earlier
  }

  lemma {:induction false} CitingPlaces(claims: seq<Claim>, source: string) returns (places: seq<nat>)
    ensures Increasing(places) && |IdsOfCiting(claims, source)| == |places|
    ensures forall i: nat {:trigger i in places} :: i in places <==> i < |claims| && source in claims[i].sources
    ensures forall j | 0 <= j < |places| ::
      places[j] < |claims| && IdsOfCiting(claims, source)[j] == claims[places[j]].id
  {
    places := [];
    if claims != [] {
      var n := |claims| - 1;
      places := CitingPlaces(claims[..n], source);
      if Cites(claims[n], source) {
        OneMorePlace(places, n);
        places := places + [n];
      }
    }
  }

  lemma {:induction false} RepeatedOnce(id: string, sources: seq<string>, source: string)
    requires NoRepeats(sources)
    ensures Repeated(id, sources, source) == if source in sources then [id] else []
  {
    if sources != [] {
      var front, last := sources[..|sources| - 1], sources[|sources| - 1];
      assert sources == front + [last];
      RepeatedOnce(id, front, source);
    }
  }

  lemma {:induction false} CitingIdsOnce(claims: seq<Claim>, source: string)
    requires forall i | 0 <= i < |claims| :: NoRepeats(claims[i].sources)
    ensures CitingIds(claims, source) == IdsOfCiting(claims, source)
  {
    if claims != [] {
      CitingIdsOnce(claims[..|claims| - 1], source);
      RepeatedOnce(claims[|claims| - 1].id, claims[|claims| - 1].sources, source);
    }
  }

  /** For claims as parsed, a non-duplicate item lists exactly one entry per claim citing
      it, in claim order, and a duplicate lists nothing. */
  lemma {:induction false} OneEntryPerCitingClaim(
    item: Item, raw: seq<RawClaim>, valid: set<string>, lower: Lower,
    contradictions: seq<seq<string>>, signals: seq<seq<string>>, weights: map<string, real>)
    returns (places: seq<nat>)
    ensures Increasing(places)
    ensures var claims := Parsed(raw, valid, lower);
      var entry := CoverageOf(item, claims, contradictions, signals, weights);
      && |entry.claimIds| == |places|
      && (forall j | 0 <= j < |places| :: places[j] < |claims| && entry.claimIds[j] == claims[places[j]].id)
      && forall i: nat {:trigger i in places} ::
           i in places <==> item.status != "duplicate" && i < |claims| && item.source in claims[i].sources
  {
    var claims := Parsed(raw, valid, lower);
    ParsedAreWellCited(raw, valid, lower);
    assert forall i | 0 <= i < |claims| :: WellCited(claims[i], valid);
    CitingIdsOnce(claims, item.source);
    places := CitingPlaces(claims, item.source);
    if item.Duplicate() {
      places := [];
    }
  }

  // ----- conservation of citations -----

  function SumOfSources(claims: seq<Claim>): nat {
    if claims == [] then 0 else SumOfSources(claims[..|claims| - 1]) + |claims[|claims| - 1].sources|
  }

  function SumOfEntries(items: seq<Item>, claims: seq<Claim>): nat {
    if items == [] then 0
    else
      var last := items[|items| - 1];
      SumOfEntries(items[..|items| - 1], claims) + (if last.Duplicate() then 0 else |CitingIds(claims, last.source)|)
  }

  /** How often the non-duplicate items carry a source: 0 or 1 when their ids are distinct. */
  function Carriers(items: seq<Item>, source: string): nat {
    if items == [] then 0
    else
      var last := items[|items| - 1];
      Carriers(items[..|items| - 1], source) + (if !last.Duplicate() && last.source == source then 1 else 0)
  }

  predicate EachCitedHasOneItem(items: seq<Item>, citations: seq<string>) {
    forall k | 0 <= k < |citations| :: Carriers(items, citations[k]) == 1
  }

  lemma {:induction false} RepeatedLength(id: string, sources: seq<string>, source: string)
    ensures |Repeated(id, sources, source)| == multiset(sources)[source]
  {
    if sources != [] {
      assert sources == sources[..|sources| - 1] + [sources[|sources| - 1]];
      RepeatedLength(id, sources[..|sources| - 1], source);
    }
  }

  lemma {:induction false} SumOverNoClaims(items: seq<Item>)
    ensures SumOfEntries(items, []) == 0
  {
    if items != [] {
      SumOverNoClaims(items[..|items| - 1]);
    }
  }

  function Weighted(items: seq<Item>, sources: seq<string>): nat {
    if sources == [] then 0
    else Weighted(items, sources[..|sources| - 1]) + Carriers(items, sources[|sources| - 1])
  }

  /** One more claim adds, over all items, the carriers of its citations. */
  lemma {:induction false} SumGrowsByClaim(items: seq<Item>, claims: seq<Claim>)
    requires claims != []
    ensures var front, last := claims[..|claims| - 1], claims[|claims| - 1];
            SumOfEntries(items, claims) == SumOfEntries(items, front) + Weighted(items, last.sources)
  {
    var last := claims[|claims| - 1];
    if items == [] {
      WeightedNothing(last.sources);
    } else {
      var item := items[|items| - 1];
      SumGrowsByClaim(items[..|items| - 1], claims);
      RepeatedLength(last.id, last.sources, item.source);
      WeightedOneMore(items, last.sources);
    }
  }

  lemma {:induction false} WeightedNothing(sources: seq<string>)
    ensures Weighted([], sources) == 0
  {
    if sources != [] {
      WeightedNothing(sources[..|sources| - 1]);
    }
  }

  lemma {:induction false} WeightedOneMore(items: seq<Item>, sources: seq<string>)
    requires items != []
    ensures var item := items[|items| - 1];
            Weighted(items, sources) == Weighted(items[..|items| - 1], sources)
              + (if item.Duplicate() then 0 else multiset(sources)[item.source])
  {
    if sources != [] {
      assert sources == sources[..|sources| - 1] + [sources[|sources| - 1]];
      WeightedOneMore(items, sources[..|sources| - 1]);
    }
  }

  lemma {:induction false} WeightedByOne(items: seq<Item>, sources: seq<string>)
    requires EachCitedHasOneItem(items, sources)
    ensures Weighted(items, sources) == |sources|
  {
    if sources != [] {
      WeightedByOne(items, sources[..|sources| - 1]);
    }
  }

  /** No citation is lost or counted twice: the claim ids summed over items equal the
      citations summed over claims, when each cited source belongs to one non-duplicate item. */
  lemma {:induction false} CitationsAreConserved(items: seq<Item>, claims: seq<Claim>)
    requires forall c | 0 <= c < |claims| :: EachCitedHasOneItem(items, claims[c].sources)
    ensures SumOfEntries(items, claims) == SumOfSources(claims)
  {
    if claims == [] {
      SumOverNoClaims(items);
    } else {
      CitationsAreConserved(items, claims[..|claims| - 1]);
      SumGrowsByClaim(items, claims);
      WeightedByOne(items, claims[|claims| - 1].sources);
    }
  }

  predicate DistinctSources(items: seq<Item>) {
    forall i, j | 0 <= i < j < |items| && !items[i].Duplicate() && !items[j].Duplicate() ::
      items[i].source != items[j].source
  }

  lemma {:induction false} DistinctCarriers(items: seq<Item>, source: string)
    requires DistinctSources(items)
    ensures Carriers(items, source)
         == if exists i | 0 <= i < |items| :: !items[i].Duplicate() && items[i].source == source then 1 else 0
  {
    if items != [] {
      var front := items[..|items| - 1];
      DistinctCarriers(front, source);
      assert forall i | 0 <= i < |front| :: front[i] == items[i];
    }
  }

  /** The form met in practice: parsed claims, distinct ids, and an item for every valid id. */
  lemma {:induction false} ParsedCitationsAreConserved(
    items: seq<Item>, raw: seq<RawClaim>, valid: set<string>, lower: Lower)
    requires DistinctSources(items)
    requires forall id <- valid :: exists i | 0 <= i < |items| :: !items[i].Duplicate() && items[i].source == id
    ensures SumOfEntries(items, Parsed(raw, valid, lower)) == SumOfSources(Parsed(raw, valid, lower))
  {
    var claims := Parsed(raw, valid, lower);
    ParsedAreWellCited(raw, valid, lower);
    forall c, k | 0 <= c < |claims| && 0 <= k < |claims[c].sources|
      ensures Carriers(items, claims[c].sources[k]) == 1
    {
      assert WellCited(claims[c], valid);
      DistinctCarriers(items, claims[c].sources[k]);
    }
    CitationsAreConserved(items, claims);
  }
}
