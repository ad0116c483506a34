/** Grouped embedding of chunk windows in app/cli/backfill_vector_store.py: one service
    call per language, with the vectors scattered back to their windows. */
module ChunkWindows {
  import opened Text

  type Vector = seq<real>
  type Language = Option<string>

  /** A window's text, the language its metadata names, and the metadata itself. */
  datatype Window = Window(text: string, language: Language, metadata: string)

  datatype Failure = WrongBatchLength(returned: nat, expected: nat) | NotFilled

  /** The embedding service's batch call. */
  type Service = (seq<string>, Language) -> seq<Vector>

  // ----- grouping -----

  datatype Slot = Slot(index: nat, text: string)

  /** The windows of one language among the first n, with their places. */
  function Group(windows: seq<Window>, language: Language, n: nat): (slots: seq<Slot>)
    requires n <= |windows|
    ensures |slots| <= n
    ensures forall k | 0 <= k < |slots| ::
      && slots[k].index < n
      && windows[slots[k].index].text == slots[k].text
      && windows[slots[k].index].language == language
    ensures forall j, k | 0 <= j < k < |slots| :: slots[j].index < slots[k].index
  {
    if n == 0 then []
    else
      Group(windows, language, n - 1)
        + (if windows[n - 1].language == language then [Slot(n - 1, windows[n - 1].text)] else [])
  }

  /** How many earlier windows share the language of window i: its place in its batch. */
  function Place(windows: seq<Window>, i: nat): nat
    requires i < |windows|
  {
    |Group(windows, windows[i].language, i)|
  }

  function Texts(slots: seq<Slot>): (texts: seq<string>)
    ensures |texts| == |slots|
    ensures forall k | 0 <= k < |slots| :: texts[k] == slots[k].text
  {
    seq(|slots|, k requires 0 <= k < |slots| => slots[k].text)
  }

  /** The batch a language's windows make up. */
  function Batch(windows: seq<Window>, language: Language): seq<Slot> {
    Group(windows, language, |windows|)
  }

  function Answer(service: Service, windows: seq<Window>, language: Language): seq<Vector> {
    service(Texts(Batch(windows, language)), language)
  }

  predicate LengthsMatch(service: Service, windows: seq<Window>) {
    forall i | 0 <= i < |windows| ::
      |Answer(service, windows, windows[i].language)| == |Batch(windows, windows[i].language)|
  }

  /** Window i is the first whose language's batch comes back with the wrong length. */
  ghost predicate FirstMismatch(service: Service, windows: seq<Window>, i: nat, error: Failure)
    requires i < |windows|
  {
    && error == WrongBatchLength(|Answer(service, windows, windows[i].language)|,
                                 |Batch(windows, windows[i].language)|)
    && error.returned != error.expected
    && forall h | 0 <= h < i ::
         |Answer(service, windows, windows[h].language)| == |Batch(windows, windows[h].language)|
  }

  ghost predicate WrongAnswer(service: Service, windows: seq<Window>, error: Failure) {
    exists i | 0 <= i < |windows| :: FirstMismatch(service, windows, i, error)
  }

  /** Every window sits in exactly one slot of exactly its own language's batch. */
  lemma {:induction false} PlaceInGroup(windows: seq<Window>, i: nat, n: nat)
    requires i < n <= |windows|
    ensures var slots := Group(windows, windows[i].language, n);
            Place(windows, i) < |slots| && slots[Place(windows, i)] == Slot(i, windows[i].text)
    decreases n
  {
    if i < n - 1 {
      PlaceInGroup(windows, i, n - 1);
    }
  }

  lemma {:induction false} SlotIsPlace(windows: seq<Window>, language: Language, k: nat)
    requires k < |Batch(windows, language)|
    ensures var i := Batch(windows, language)[k].index;
            i < |windows| && windows[i].language == language && Place(windows, i) == k
  {
    var slots := Batch(windows, language);
    PlaceInGroup(windows, slots[k].index, |windows|);
    var p := Place(windows, slots[k].index);
    if p != k {
      assert slots[p].index == slots[k].index;
    }
  }

  // ----- the method -----

  function NextLanguages(langs: seq<Language>, windows: seq<Window>, n: nat): seq<Language>
    requires n < |windows|
  {
    if windows[n].language in langs then langs else langs + [windows[n].language]
  }

  /** The languages in order of first appearance among the first n windows. */
  function Languages(windows: seq<Window>, n: nat): seq<Language>
    requires n <= |windows|
  {
    if n == 0 then [] else NextLanguages(Languages(windows, n - 1), windows, n - 1)
  }

  lemma {:induction false} LanguagesDistinct(windows: seq<Window>, n: nat)
    requires n <= |windows|
    ensures forall j, k | 0 <= j < k < |Languages(windows, n)| :: Languages(windows, n)[j] != Languages(windows, n)[k]
  {
    if n > 0 {
      LanguagesDistinct(windows, n - 1);
    }
  }

  /** These are the places among the first n windows where a language appears for the first
      time, with the languages found there. */
  ghost predicate FirstPlaces(places: seq<nat>, langs: seq<Language>, windows: seq<Window>, n: nat)
    requires n <= |windows|
  {
    && Increasing(places) && (forall i: nat {:trigger i in places} :: i in places <==> i < n && IsFirst(windows, i))
    && |langs| == |places|
    && forall j | 0 <= j < |places| :: places[j] < n && langs[j] == windows[places[j]].language
  }

  lemma {:induction false} NextPlace(places: seq<nat>, langs: seq<Language>, windows: seq<Window>, n: nat)
    returns (more: seq<nat>)
    requires n < |windows| && FirstPlaces(places, langs, windows, n)
    requires IsFirst(windows, n) <==> windows[n].language !in langs
    ensures FirstPlaces(more, NextLanguages(langs, windows, n), windows, n + 1)
  {
    more := places;
    if IsFirst(windows, n) {
      OneMorePlace(places, n);
      more := places + [n];
    }
  }

  /** The languages are listed in order of first appearance. */
  lemma {:induction false} LanguagePlaces(windows: seq<Window>, n: nat) returns (places: seq<nat>)
    requires n <= |windows|
    ensures FirstPlaces(places, Languages(windows, n), windows, n)
  {
    if n == 0 {
      places := [];
    } else {
      FirstIsNew(windows, n - 1);
      var before := LanguagePlaces(windows, n - 1);
      places := NextPlace(before, Languages(windows, n - 1), windows, n - 1);
    }
  }

  /** No earlier window is in the language of window i. */
  ghost predicate IsFirst(windows: seq<Window>, i: nat) {
    i < |windows| && forall h | 0 <= h < i :: windows[h].language != windows[i].language
  }

  lemma {:induction false} FirstIsNew(windows: seq<Window>, i: nat)
    requires i < |windows|
    ensures IsFirst(windows, i) <==> windows[i].language !in Languages(windows, i)
  {
    if windows[i].language in Languages(windows, i) {
      var h := LanguageUsed(windows, i, windows[i].language);
    } else {
      forall h: nat | h < i ensures windows[h].language != windows[i].language {
        LanguageListed(windows, i, h);
      }
    }
  }

  lemma {:induction false} LanguageListed(windows: seq<Window>, n: nat, i: nat)
    requires i < n <= |windows|
    ensures windows[i].language in Languages(windows, n)
  {
    if i < n - 1 {
      LanguageListed(windows, n - 1, i);
    }
  }

  lemma {:induction false} LanguageUsed(windows: seq<Window>, n: nat, l: Language) returns (i: nat)
    requires n <= |windows| && l in Languages(windows, n)
    ensures i < n && windows[i].language == l
  {
    i := n - 1;
    if l in Languages(windows, n - 1) {
      i := LanguageUsed(windows, n - 1, l);
    }
  }

  /** The batch table after n windows. */
  ghost predicate Grouped(windows: seq<Window>, n: nat, langs: seq<Language>, batches: map<Language, seq<Slot>>)
    requires n <= |windows|
  {
    && langs == Languages(windows, n)
    && (forall l: Language :: l in batches <==> l in langs)
    && (forall l: Language | l in batches :: batches[l] == Group(windows, l, n))
  }

  lemma {:induction false} AbsentLanguage(windows: seq<Window>, language: Language, n: nat)
    requires n <= |windows| && language !in Languages(windows, n)
    ensures Group(windows, language, n) == []
  {
    if n > 0 {
      AbsentLanguage(windows, language, n - 1);
    }
  }

  method GroupByLanguage(windows: seq<Window>)
    returns (langs: seq<Language>, batches: map<Language, seq<Slot>>)
    ensures Grouped(windows, |windows|, langs, batches)
  {
    langs, batches := [], map[];
    for i := 0 to |windows|
      invariant Grouped(windows, i, langs, batches)
    {
      var language := windows[i].language;
      ghost var before := batches;
      if language !in batches {
        AbsentLanguage(windows, language, i);
        langs := langs + [language];
        batches := batches[language := []];
      }
      batches := batches[language := batches[language] + [Slot(i, windows[i].text)]];
      forall l: Language | l in batches ensures batches[l] == Group(windows, l, i + 1) {
        if l != language {
          assert before[l] == Group(windows, l, i);
        }
      }
    }
  }

  /** What the vector list holds once the first n languages are scattered: each window of
      those languages its own part of its batch's answer, the others nothing. */
  ghost predicate Scattered(
    service: Service, windows: seq<Window>, langs: seq<Language>, n: nat, vectors: seq<Option<Vector>>)
    requires n <= |langs|
  {
    && |vectors| == |windows|
    && forall i | 0 <= i < |windows| ::
         var answer := Answer(service, windows, windows[i].language);
         if windows[i].language in langs[..n]
         then Place(windows, i) < |answer| && vectors[i] == Some(answer[Place(windows, i)])
         else vectors[i] == None
  }

  method ScatterOne(vectors: seq<Option<Vector>>, ghost windows: seq<Window>, ghost language: Language,
                    batch: seq<Slot>, embeddings: seq<Vector>)
    returns (filled: seq<Option<Vector>>)
    requires |vectors| == |windows| && batch == Batch(windows, language) && |embeddings| == |batch|
    requires forall i | 0 <= i < |windows| && windows[i].language == language :: vectors[i] == None
    ensures |filled| == |vectors|
    ensures forall i | 0 <= i < |windows| ::
      if windows[i].language == language
      then Place(windows, i) < |embeddings| && filled[i] == Some(embeddings[Place(windows, i)])
      else filled[i] == vectors[i]
  {
    filled := vectors;
    for k := 0 to |batch|
      invariant |filled| == |vectors|
      invariant forall j | 0 <= j < k :: filled[batch[j].index] == Some(embeddings[j])
      invariant forall j | k <= j < |batch| :: filled[batch[j].index] == None
      invariant forall i | 0 <= i < |windows| && windows[i].language != language :: filled[i] == vectors[i]
    {
      // every slot is filled exactly once
      assert filled[batch[k].index] == None;
      filled := filled[batch[k].index := Some(embeddings[k])];
    }
    forall i | 0 <= i < |windows| && windows[i].language == language
      ensures Place(windows, i) < |embeddings| && filled[i] == Some(embeddings[Place(windows, i)])
    {
      PlaceInGroup(windows, i, |windows|);
    }
  }

  lemma {:induction false} OneMoreLanguage(
    service: Service, windows: seq<Window>, langs: seq<Language>, n: nat,
    before: seq<Option<Vector>>, after: seq<Option<Vector>>)
    requires n < |langs| && Scattered(service, windows, langs, n, before) && |after| == |before|
    requires forall i | 0 <= i < |windows| ::
      var answer := Answer(service, windows, langs[n]);
      if windows[i].language == langs[n]
      then Place(windows, i) < |answer| && after[i] == Some(answer[Place(windows, i)])
      else after[i] == before[i]
    ensures Scattered(service, windows, langs, n + 1, after)
  {
    assert langs[..n + 1] == langs[..n] + [langs[n]];
  }

  /** The n-th language's batch is the first to come back with the wrong length. */
  ghost predicate StopsAt(service: Service, windows: seq<Window>, langs: seq<Language>, n: nat, error: Failure)
    requires n < |langs|
  {
    && error == WrongBatchLength(|Answer(service, windows, langs[n])|, |Batch(windows, langs[n])|)
    && error.returned != error.expected
    && forall m | 0 <= m < n :: |Answer(service, windows, langs[m])| == |Batch(windows, langs[m])|
  }

  /** The calls to the service, one per language, and the scattering of their answers. */
  method EmbedByLanguage(
    service: Service, windows: seq<Window>, langs: seq<Language>, batches: map<Language, seq<Slot>>)
    returns (r: Result<seq<Option<Vector>>, Failure>, ghost stop: nat)
    requires Grouped(windows, |windows|, langs, batches)
    ensures r.Ok? ==> LengthsMatch(service, windows) && Scattered(service, windows, langs, |langs|, r.value)
    ensures r.Err? ==> stop < |langs| && StopsAt(service, windows, langs, stop, r.error)
  {
    var vectors: seq<Option<Vector>> := seq(|windows|, _ => None);
    LanguagesDistinct(windows, |windows|);
    for n := 0 to |langs|
      invariant Scattered(service, windows, langs, n, vectors)
      invariant forall m | 0 <= m < n :: |Answer(service, windows, langs[m])| == |Batch(windows, langs[m])|
    {
      var language := langs[n];
      var batch := batches[language];
      var embeddings := service(Texts(batch), language);
      if |embeddings| != |batch| {
        return Err(WrongBatchLength(|embeddings|, |batch|)), n;
      }
      assert language !in langs[..n];
      ghost var before := vectors;
      vectors := ScatterOne(vectors, windows, language, batch, embeddings);
      OneMoreLanguage(service, windows, langs, n, before, vectors);
    }
    AllLengthsMatch(service, windows, langs);
    r, stop := Ok(vectors), 0;
  }

  lemma {:induction false} FirstWrong(
    service: Service, windows: seq<Window>, langs: seq<Language>, n: nat, error: Failure)
    requires langs == Languages(windows, |windows|) && n < |langs| && StopsAt(service, windows, langs, n, error)
    ensures WrongAnswer(service, windows, error) && !LengthsMatch(service, windows)
  {
    var places := LanguagePlaces(windows, |windows|);
    forall h: nat | h < places[n]
      ensures |Answer(service, windows, windows[h].language)| == |Batch(windows, windows[h].language)|
    {
      var f := FirstOf(windows, h);
      assert f in places;
      var m :| 0 <= m < |places| && places[m] == f;
      assert m < n;
    }
    assert FirstMismatch(service, windows, places[n], error);
  }

  lemma {:induction false} FirstOf(windows: seq<Window>, h: nat) returns (f: nat)
    requires h < |windows|
    ensures f <= h && IsFirst(windows, f) && windows[f].language == windows[h].language
  {
    f := h;
    if !IsFirst(windows, h) {
      var g: nat :| g < h && windows[g].language == windows[h].language;
      f := FirstOf(windows, g);
    }
  }

  lemma {:induction false} AllLengthsMatch(service: Service, windows: seq<Window>, langs: seq<Language>)
    requires langs == Languages(windows, |windows|)
    requires forall m | 0 <= m < |langs| :: |Answer(service, windows, langs[m])| == |Batch(windows, langs[m])|
    ensures LengthsMatch(service, windows)
  {
    forall i | 0 <= i < |windows|
      ensures |Answer(service, windows, windows[i].language)| == |Batch(windows, windows[i].language)|
    {
      LanguageListed(windows, |windows|, i);
      var m :| 0 <= m < |langs| && langs[m] == windows[i].language;
    }
  }

  method CollectVectors(vectors: seq<Option<Vector>>) returns (r: Result<seq<Vector>, Failure>)
    ensures r.Ok? <==> forall i | 0 <= i < |vectors| :: vectors[i].Some?
    ensures r.Ok? ==> |r.value| == |vectors| && forall i | 0 <= i < |vectors| :: vectors[i] == Some(r.value[i])
  {
    var ordered: seq<Vector> := [];
    for i := 0 to |vectors|
      invariant |ordered| == i
      invariant forall j | 0 <= j < i :: vectors[j] == Some(ordered[j])
    {
      if vectors[i].None? {
        return Err(NotFilled);
      }
      ordered := ordered + [vectors[i].value];
    }
    r := Ok(ordered);
  }

  function Metadatas(windows: seq<Window>): (metadatas: seq<string>)
    ensures |metadatas| == |windows|
    ensures forall i | 0 <= i < |windows| :: metadatas[i] == windows[i].metadata
  {
    seq(|windows|, i requires 0 <= i < |windows| => windows[i].metadata)
  }

  /** Window i's part of its language's answer, for every i. */
  function Scatter(service: Service, windows: seq<Window>): (vectors: seq<Vector>)
    requires LengthsMatch(service, windows)
    ensures |vectors| == |windows|
    ensures forall i | 0 <= i < |windows| ::
      var answer := Answer(service, windows, windows[i].language);
      Place(windows, i) < |answer| && vectors[i] == answer[Place(windows, i)]
  {
    assert forall i | 0 <= i < |windows| ::
      Place(windows, i) < |Answer(service, windows, windows[i].language)| by {
      forall i | 0 <= i < |windows|
        ensures Place(windows, i) < |Answer(service, windows, windows[i].language)|
      {
        PlaceInGroup(windows, i, |windows|);
      }
    }
    seq(|windows|, i requires 0 <= i < |windows| =>
      Answer(service, windows, windows[i].language)[Place(windows, i)])
  }

  lemma {:induction false} AllFilled(
    service: Service, windows: seq<Window>, langs: seq<Language>, vectors: seq<Option<Vector>>)
    requires langs == Languages(windows, |windows|) && Scattered(service, windows, langs, |langs|, vectors)
    ensures forall i | 0 <= i < |vectors| :: vectors[i].Some?
  {
    assert langs[..|langs|] == langs;
    forall i | 0 <= i < |windows| ensures vectors[i].Some? {
      LanguageListed(windows, |windows|, i);
    }
  }

  lemma {:induction false} CollectedIsScatter(
    service: Service, windows: seq<Window>, langs: seq<Language>, vectors: seq<Option<Vector>>, values: seq<Vector>)
    requires langs == Languages(windows, |windows|) && Scattered(service, windows, langs, |langs|, vectors)
    requires LengthsMatch(service, windows) && |values| == |vectors|
    requires forall i | 0 <= i < |vectors| :: vectors[i] == Some(values[i])
    ensures values == Scatter(service, windows)
  {
    assert langs[..|langs|] == langs;
    forall i | 0 <= i < |windows| ensures values[i] == Scatter(service, windows)[i] {
      LanguageListed(windows, |windows|, i);
    }
  }

  /** The call fails exactly when some language's batch comes back with the wrong length,
      and then with that error: no window is ever left unfilled. Otherwise window i gets
      the entry of its language's answer at its place in the batch. */
  method GenerateChunkWindowVectors(service: Service, windows: seq<Window>)
    returns (r: Result<(seq<Vector>, seq<string>), Failure>)
    ensures r.Ok? <==> LengthsMatch(service, windows)
    ensures r.Err? ==> WrongAnswer(service, windows, r.error)
    ensures r.Ok? ==> r.value == (Scatter(service, windows), Metadatas(windows))
  {
    var langs, batches := GroupByLanguage(windows);
    var filled, stop := EmbedByLanguage(service, windows, langs, batches);
    match filled {
      case Err(failure) =>
        FirstWrong(service, windows, langs, stop, failure);
        return Err(failure);
      case Ok(vectors) =>
        AllFilled(service, windows, langs, vectors);
        var collected := CollectVectors(vectors);
        CollectedIsScatter(service, windows, langs, vectors, collected.value);
        r := Ok((collected.value, Metadatas(windows)));
    }
  }

  // ----- a pointwise service -----

  /** Embedding a batch is embedding each text on its own. */
  ghost predicate Pointwise(service: Service, embed: (string, Language) -> Vector) {
    forall texts: seq<string>, language: Language ::
      && |service(texts, language)| == |texts|
      && forall k | 0 <= k < |texts| :: service(texts, language)[k] == embed(texts[k], language)
  }

  /** With a pointwise service the grouped call is the naive loop. */
  lemma {:induction false} GroupedIsNaive(service: Service, embed: (string, Language) -> Vector, windows: seq<Window>)
    requires Pointwise(service, embed)
    ensures LengthsMatch(service, windows)
    ensures forall i | 0 <= i < |windows| ::
      Scatter(service, windows)[i] == embed(windows[i].text, windows[i].language)
  {
    forall i | 0 <= i < |windows|
      ensures LengthsMatch(service, windows)
      ensures Scatter(service, windows)[i] == embed(windows[i].text, windows[i].language)
    {
      PlaceInGroup(windows, i, |windows|);
    }
  }
}
