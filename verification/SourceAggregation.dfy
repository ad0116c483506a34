/** Contradiction hints in app/agents/multi_source_aggregation_agent.py: sentences that
    agree in wording but not in numbers are grouped and reported. */
module SourceAggregation {
  import opened Text

  // ----- contradiction hints -----

  /** A document's id and its sentences. */
  datatype Document = Document(source: string, sentences: seq<string>)

  /** The text operations: sorted numbers of a sentence, its wording without numbers and
      stop words, and the number of words. */
  datatype Reading = Reading(
    numbers: string -> seq<string>, base: string -> string, words: string -> nat)

  datatype Mention = Mention(source: string, sentence: string, numbers: seq<string>)

  /** A sentence is looked at when it has a number and at least four base words. */
  predicate Counts(sentence: string, rd: Reading) {
    rd.numbers(sentence) != [] && rd.words(rd.base(sentence)) >= 4
  }

  function MentionOf(source: string, sentence: string, rd: Reading): Mention {
    Mention(source, Strip(sentence), rd.numbers(sentence))
  }

  type Groups = map<string, seq<Mention>>

  /** Groups in order of first appearance, as a Python dictionary keeps them. */
  datatype Grouping = Grouping(order: seq<string>, groups: Groups)

  /** A sentence and the id of its document. */
  datatype Said = Said(source: string, sentence: string)

  function SaidIn(doc: Document): (said: seq<Said>)
    ensures |said| == |doc.sentences|
    ensures forall s | 0 <= s < |said| :: said[s] == Said(doc.source, doc.sentences[s])
  {
    seq(|doc.sentences|, s requires 0 <= s < |doc.sentences| => Said(doc.source, doc.sentences[s]))
  }

  /** All sentences in the order they are read. */
  function Stream(docs: seq<Document>): seq<Said> {
    if docs == [] then [] else Stream(docs[..|docs| - 1]) + SaidIn(docs[|docs| - 1])
  }

  lemma {:induction false} StreamNext(docs: seq<Document>, doc: Document)
    ensures Stream([]) == [] && Stream(docs + [doc]) == Stream(docs) + SaidIn(doc)
  {
    assert (docs + [doc])[..|docs|] == docs;
  }

  /** Sentence s of document d is this one. */
  ghost predicate Says(docs: seq<Document>, d: int, s: int, x: Said) {
    0 <= d < |docs| && 0 <= s < |docs[d].sentences| && x == Said(docs[d].source, docs[d].sentences[s])
  }

  lemma {:induction false} StreamHas(docs: seq<Document>, x: Said)
    ensures x in Stream(docs) <==> exists d, s :: Says(docs, d, s, x)
  {
    if docs != [] {
      var front, last := docs[..|docs| - 1], docs[|docs| - 1];
      StreamHas(front, x);
      if x in SaidIn(last) {
        var s :| 0 <= s < |last.sentences| && SaidIn(last)[s] == x;
        assert Says(docs, |front|, s, x);
      }
      if x in Stream(front) {
        var d, s :| Says(front, d, s, x);
        assert Says(docs, d, s, x);
      }
      if d, s :| Says(docs, d, s, x) {
        if d < |front| {
          assert Says(front, d, s, x);
        } else {
          assert SaidIn(last)[s] == x;
        }
      }
    }
  }

  function AddSentence(g: Grouping, said: Said, rd: Reading): Grouping {
    if !Counts(said.sentence, rd) then g
    else
      var base := rd.base(said.sentence);
      var earlier := if base in g.groups then g.groups[base] else [];
      Grouping(
        if base in g.groups then g.order else g.order + [base],
        g.groups[base := earlier + [MentionOf(said.source, said.sentence, rd)]])
  }

  function Grouped(said: seq<Said>, rd: Reading): Grouping {
    if said == [] then Grouping([], map[])
    else AddSentence(Grouped(said[..|said| - 1], rd), said[|said| - 1], rd)
  }

  lemma {:induction false} GroupedNext(said: seq<Said>, x: Said, rd: Reading)
    ensures Grouped(said + [x], rd) == AddSentence(Grouped(said, rd), x, rd)
  {
    assert (said + [x])[..|said|] == said;
  }

  function Sources(group: seq<Mention>): set<string> {
    set m | m in group :: m.source
  }

  function NumberTuples(group: seq<Mention>): set<seq<string>> {
    set m | m in group :: m.numbers
  }

  /** The code's test: at least two number tuples and at least two sources, separately. */
  predicate Reported(group: seq<Mention>) {
    |NumberTuples(group)| >= 2 && |Sources(group)| >= 2
  }

  /** The meaning: two mentions from different sources with different numbers. */
  predicate Disagrees(group: seq<Mention>) {
    exists i, j | 0 <= i < |group| && 0 <= j < |group| ::
      group[i].source != group[j].source && group[i].numbers != group[j].numbers
  }

  lemma AtLeastTwo<T>(s: set<T>, x: T, y: T)
    requires x in s && y in s && x != y
    ensures |s| >= 2
  {
    var rest := s - {x};
    assert y in rest;
    assert |rest| == |s| - 1;
  }

  lemma TwoOf<T>(s: set<T>) returns (x: T, y: T)
    requires |s| >= 2
    ensures x in s && y in s && x != y
  {
    x :| x in s;
    var rest := s - {x};
    assert |rest| == |s| - 1;
    y :| y in rest;
  }

  /** Two tuples and two sources found separately always come with one pair of mentions
      that differs in both. */
  lemma {:induction false} ReportedIffDisagrees(group: seq<Mention>)
    ensures Reported(group) <==> Disagrees(group)
  {
    if Disagrees(group) {
      var i, j :| 0 <= i < |group| && 0 <= j < |group| &&
        group[i].source != group[j].source && group[i].numbers != group[j].numbers;
      AtLeastTwo(NumberTuples(group), group[i].numbers, group[j].numbers);
      AtLeastTwo(Sources(group), group[i].source, group[j].source);
    }
    if Reported(group) {
      var p, q := TwoOf(NumberTuples(group));
      var a, b := TwoOf(Sources(group));
      var i :| 0 <= i < |group| && group[i].numbers == p;
      var j :| 0 <= j < |group| && group[j].numbers == q;
      if group[i].source == group[j].source {
        // some third mention comes from elsewhere and cannot agree with both
        var c := if group[i].source == a then b else a;
        var k :| 0 <= k < |group| && group[k].source == c;
        assert group[k].numbers != p || group[k].numbers != q;
      }
    }
  }

  // ----- from sentences to groups -----

  /** The sentence has numbers and at least four base words, which are those of the base. */
  ghost predicate TellsOf(sentence: string, base: string, rd: Reading) {
    && rd.numbers(sentence) != [] && rd.base(sentence) == base && rd.words(base) >= 4
  }

  function GroupOf(g: Grouping, base: string): seq<Mention> {
    if base in g.groups then g.groups[base] else []
  }

  /** The mentions of one base, in order. */
  function Mentions(said: seq<Said>, base: string, rd: Reading): seq<Mention> {
    if said == [] then []
    else
      var x := said[|said| - 1];
      Mentions(said[..|said| - 1], base, rd)
        + (if Counts(x.sentence, rd) && rd.base(x.sentence) == base then [MentionOf(x.source, x.sentence, rd)] else [])
  }

  lemma {:induction false} GroupsAreMentions(said: seq<Said>, rd: Reading, base: string)
    ensures GroupOf(Grouped(said, rd), base) == Mentions(said, base, rd)
  {
    if said != [] {
      GroupsAreMentions(said[..|said| - 1], rd, base);
    }
  }

  /** The mentions are those of the sentences at these places. */
  ghost predicate AreMentions(group: seq<Mention>, said: seq<Said>, places: seq<nat>, rd: Reading) {
    && |group| == |places|
    && forall j | 0 <= j < |places| ::
         && places[j] < |said|
         && var x := said[places[j]]; group[j] == Mention(x.source, Strip(x.sentence), rd.numbers(x.sentence))
  }

  lemma {:induction false} OneMoreMention(group: seq<Mention>, said: seq<Said>, places: seq<nat>, rd: Reading)
    requires said != [] && AreMentions(group, said[..|said| - 1], places, rd)
    ensures AreMentions(group, said, places, rd)
    ensures var x := said[|said| - 1];
      AreMentions(group + [MentionOf(x.source, x.sentence, rd)], said, places + [|said| - 1], rd)
  {}

  /** The mentions of a base are the sentences that tell of it, trimmed, in the order read. */
  lemma {:induction false} MentionPlaces(said: seq<Said>, base: string, rd: Reading) returns (places: seq<nat>)
    ensures Increasing(places) && AreMentions(Mentions(said, base, rd), said, places, rd)
    ensures forall i: nat {:trigger i in places} ::
      i in places <==> i < |said| && TellsOf(said[i].sentence, base, rd)
  {
    places := [];
    if said != [] {
      var n := |said| - 1;
      var earlier := MentionPlaces(said[..n], base, rd);
      OneMoreMention(Mentions(said[..n], base, rd), said, earlier, rd);
      OneMorePlace(earlier, n);
      places := if TellsOf(said[n].sentence, base, rd) then earlier + [n] else earlier;
    }
  }

  /** Two sentences of different documents tell of the base and disagree on the numbers. */
  ghost predicate Contradicted(docs: seq<Document>, base: string, rd: Reading) {
    exists d, s, e, t | 0 <= d < |docs| && 0 <= s < |docs[d].sentences|
                      && 0 <= e < |docs| && 0 <= t < |docs[e].sentences| ::
      && TellsOf(docs[d].sentences[s], base, rd) && TellsOf(docs[e].sentences[t], base, rd)
      && docs[d].source != docs[e].source
      && rd.numbers(docs[d].sentences[s]) != rd.numbers(docs[e].sentences[t])
  }

  lemma {:induction false} SentenceBehind(docs: seq<Document>, base: string, rd: Reading, i: nat)
    returns (d: nat, s: nat)
    requires i < |Mentions(Stream(docs), base, rd)|
    ensures d < |docs| && s < |docs[d].sentences| && TellsOf(docs[d].sentences[s], base, rd)
    ensures Mentions(Stream(docs), base, rd)[i] == MentionOf(docs[d].source, docs[d].sentences[s], rd)
  {
    var places := MentionPlaces(Stream(docs), base, rd);
    assert places[i] in places;
    var x := Stream(docs)[places[i]];
    StreamHas(docs, x);
    d, s :| Says(docs, d, s, x);
  }

  lemma {:induction false} MentionFor(docs: seq<Document>, base: string, rd: Reading, d: nat, s: nat) returns (i: nat)
    requires d < |docs| && s < |docs[d].sentences| && TellsOf(docs[d].sentences[s], base, rd)
    ensures i < |Mentions(Stream(docs), base, rd)|
    ensures Mentions(Stream(docs), base, rd)[i] == MentionOf(docs[d].source, docs[d].sentences[s], rd)
  {
    var x := Said(docs[d].source, docs[d].sentences[s]);
    StreamHas(docs, x);
    assert Says(docs, d, s, x);
    var p :| 0 <= p < |Stream(docs)| && Stream(docs)[p] == x;
    var places := MentionPlaces(Stream(docs), base, rd);
    assert p in places;
    i :| 0 <= i < |places| && places[i] == p;
  }

  lemma {:induction false} ContradictedIffDisagrees(docs: seq<Document>, base: string, rd: Reading)
    ensures Contradicted(docs, base, rd) <==> Disagrees(Mentions(Stream(docs), base, rd))
  {
    var group := Mentions(Stream(docs), base, rd);
    if Contradicted(docs, base, rd) {
      var d, s, e, t :| 0 <= d < |docs| && 0 <= s < |docs[d].sentences|
        && 0 <= e < |docs| && 0 <= t < |docs[e].sentences|
        && TellsOf(docs[d].sentences[s], base, rd) && TellsOf(docs[e].sentences[t], base, rd)
        && docs[d].source != docs[e].source
        && rd.numbers(docs[d].sentences[s]) != rd.numbers(docs[e].sentences[t]);
      var i := MentionFor(docs, base, rd, d, s);
      var j := MentionFor(docs, base, rd, e, t);
      assert group[i].source != group[j].source && group[i].numbers != group[j].numbers;
    }
    if Disagrees(group) {
      var i, j :| 0 <= i < |group| && 0 <= j < |group| &&
        group[i].source != group[j].source && group[i].numbers != group[j].numbers;
      var d, s := SentenceBehind(docs, base, rd, i);
      var e, t := SentenceBehind(docs, base, rd, j);
    }
  }

  // ----- the detection -----

  predicate OrderListsGroups(g: Grouping) {
    && (forall base <- g.order :: base in g.groups)
    && (forall base <- g.groups :: base in g.order)
    && (forall i, j | 0 <= i < j < |g.order| :: g.order[i] != g.order[j])
  }

  lemma {:induction false} GroupingIsOrdered(said: seq<Said>, rd: Reading)
    ensures OrderListsGroups(Grouped(said, rd))
  {
    if said != [] {
      GroupingIsOrdered(said[..|said| - 1], rd);
    }
  }

  /** The first sentence that tells of the base stands at place i. */
  ghost predicate FirstTells(said: seq<Said>, i: nat, base: string, rd: Reading) {
    && i < |said| && TellsOf(said[i].sentence, base, rd)
    && forall h | 0 <= h < i :: !TellsOf(said[h].sentence, base, rd)
  }

  /** The bases stand in order of first appearance, at these places. */
  ghost predicate InOrder(bases: seq<string>, places: seq<nat>, said: seq<Said>, rd: Reading) {
    && Increasing(places) && |places| == |bases|
    && forall j | 0 <= j < |bases| :: FirstTells(said, places[j], bases[j], rd)
  }

  lemma {:induction false} NewBase(said: seq<Said>, rd: Reading)
    requires said != [] && Counts(said[|said| - 1].sentence, rd)
    ensures var n := |said| - 1; var base := rd.base(said[n].sentence);
      base !in Grouped(said[..n], rd).groups ==> FirstTells(said, n, base, rd)
  {
    var n := |said| - 1;
    var base := rd.base(said[n].sentence);
    if base !in Grouped(said[..n], rd).groups {
      GroupsAreMentions(said[..n], rd, base);
      var places := MentionPlaces(said[..n], base, rd);
      forall h: nat | h < n ensures !TellsOf(said[h].sentence, base, rd) {
        assert h !in places && said[..n][h] == said[h];
      }
    }
  }

  /** The groups stand in order of the first sentence telling of their base. */
  lemma {:induction false} OrderPlaces(said: seq<Said>, rd: Reading) returns (places: seq<nat>)
    ensures InOrder(Grouped(said, rd).order, places, said, rd)
  {
    places := [];
    if said != [] {
      var n := |said| - 1;
      var before := Grouped(said[..n], rd);
      var earlier := OrderPlaces(said[..n], rd);
      InOrderExtends(before.order, earlier, said, rd);
      places := earlier;
      if Counts(said[n].sentence, rd) && rd.base(said[n].sentence) !in before.groups {
        NewBase(said, rd);
        places := earlier + [n];
      }
    }
  }

  lemma {:induction false} InOrderExtends(bases: seq<string>, places: seq<nat>, said: seq<Said>, rd: Reading)
    requires said != [] && InOrder(bases, places, said[..|said| - 1], rd)
    ensures InOrder(bases, places, said, rd) && forall j | 0 <= j < |places| :: places[j] < |said| - 1
  {
    var front := said[..|said| - 1];
    forall j | 0 <= j < |bases| ensures FirstTells(said, places[j], bases[j], rd) && places[j] < |said| - 1 {
      assert FirstTells(front, places[j], bases[j], rd);
      assert forall h | 0 <= h <= places[j] :: front[h] == said[h];
    }
  }

  /** The bases whose groups pass the test, in order. */
  function ReportedBases(order: seq<string>, groups: Groups): (bases: seq<string>)
    requires forall base <- order :: base in groups
  {
    if order == [] then []
    else
      var earlier, last := ReportedBases(order[..|order| - 1], groups), order[|order| - 1];
      if Reported(groups[last]) then earlier + [last] else earlier
  }

  lemma {:induction false} ReportedBasesAre(order: seq<string>, groups: Groups, base: string)
    requires forall b <- order :: b in groups
    ensures base in ReportedBases(order, groups) <==> base in order && Reported(groups[base])
  {
    if order != [] {
      ReportedBasesAre(order[..|order| - 1], groups, base);
      assert order == order[..|order| - 1] + [order[|order| - 1]];
    }
  }

  function AllReported(docs: seq<Document>, rd: Reading): seq<string> {
    GroupingIsOrdered(Stream(docs), rd);
    var g := Grouped(Stream(docs), rd);
    ReportedBases(g.order, g.groups)
  }

  /** Before the cap, a base is reported exactly when two sentences from different sources
      share it and give different numbers, although the code counts distinct numbers and
      distinct sources separately. */
  lemma {:induction false} ReportedIffContradicted(docs: seq<Document>, rd: Reading, base: string)
    ensures base in AllReported(docs, rd) <==> Contradicted(docs, base, rd)
  {
    var g := Grouped(Stream(docs), rd);
    GroupingIsOrdered(Stream(docs), rd);
    ReportedBasesAre(g.order, g.groups, base);
    GroupsAreMentions(Stream(docs), rd, base);
    ContradictedIffDisagrees(docs, base, rd);
    ReportedIffDisagrees(GroupOf(g, base));
  }

  lemma {:induction false} OneMoreBase(
    bases: seq<string>, places: seq<nat>, said: seq<Said>, rd: Reading, base: string, p: nat)
    requires InOrder(bases, places, said, rd) && FirstTells(said, p, base, rd)
    requires forall q: nat | q in places :: q < p
    ensures InOrder(bases + [base], places + [p], said, rd)
  {
    OneMorePlace(places, p);
  }

  lemma {:induction false} ReportedInOrder(
    order: seq<string>, groups: Groups, said: seq<Said>, rd: Reading, places: seq<nat>)
    returns (reported: seq<nat>)
    requires (forall b <- order :: b in groups) && InOrder(order, places, said, rd)
    ensures InOrder(ReportedBases(order, groups), reported, said, rd)
    ensures forall q | q in reported :: q in places
  {
    reported := [];
    if order != [] {
      var n := |order| - 1;
      var p := places[n];
      reported := ReportedInOrder(order[..n], groups, said, rd, places[..n]);
      assert forall q | q in places[..n] :: q in places && q < p;
      assert p in places;
      if Reported(groups[order[n]]) {
        OneMoreBase(ReportedBases(order[..n], groups), reported, said, rd, order[n], p);
        reported := reported + [p];
      }
    }
  }

  /** The reported bases stand in order of first appearance. */
  lemma {:induction false} ReportedPlaces(docs: seq<Document>, rd: Reading) returns (places: seq<nat>)
    ensures InOrder(AllReported(docs, rd), places, Stream(docs), rd)
  {
    var g := Grouped(Stream(docs), rd);
    GroupingIsOrdered(Stream(docs), rd);
    var all := OrderPlaces(Stream(docs), rd);
    places := ReportedInOrder(g.order, g.groups, Stream(docs), rd, all);
  }

  const ELLIPSIS := '\U{2026}'

  /** _truncate: the trimmed text if it fits; otherwise its beginning, cut after maxLength - 1
      characters and freed of trailing space, with an ellipsis. */
  function Truncate(value: string, maxLength: nat): (r: string)
    requires maxLength > 0
    ensures |r| <= maxLength
    ensures |Strip(value)| <= maxLength ==> r == Strip(value)
    ensures |Strip(value)| > maxLength ==>
      && r != "" && r[|r| - 1] == ELLIPSIS && r[..|r| - 1] <= Strip(value)
      && (|r| > 1 ==> !IsSpace(r[|r| - 2]))
      && forall k | |r| - 1 <= k < maxLength - 1 :: IsSpace(Strip(value)[k])
  {
    var stripped := Strip(value);
    if |stripped| <= maxLength then stripped
    else
      var kept := stripped[..maxLength - 1];
      StripRightCuts(kept);
      StripRight(kept) + [ELLIPSIS]
  }

  // ----- sorted source ids -----

  /** Python's order on strings. */
  predicate Precedes(a: string, b: string) {
    b != "" && (a == "" || a[0] < b[0] || (a[0] == b[0] && Precedes(a[1..], b[1..])))
  }

  /** One string precedes another when it is a proper beginning of it, or has the smaller
      character at the first place where they differ. */
  lemma {:induction false} PrecedesMeaning(a: string, b: string)
    ensures Precedes(a, b) <==> exists k :: BreaksAt(a, b, k)
  {
    if Precedes(a, b) {
      if a == "" || a[0] < b[0] {
        assert BreaksAt(a, b, 0);
      } else {
        PrecedesMeaning(a[1..], b[1..]);
        var k :| BreaksAt(a[1..], b[1..], k);
        assert a[..k + 1] == [a[0]] + a[1..][..k] && b[..k + 1] == [b[0]] + b[1..][..k];
        assert BreaksAt(a, b, k + 1);
      }
    }
    if k :| BreaksAt(a, b, k) {
      if k > 0 {
        assert a[0] == a[..k][0] == b[..k][0] == b[0];
        assert a[1..][..k - 1] == a[..k][1..] == b[..k][1..] == b[1..][..k - 1];
        assert BreaksAt(a[1..], b[1..], k - 1);
        PrecedesMeaning(a[1..], b[1..]);
      }
    }
  }

  ghost predicate BreaksAt(a: string, b: string, k: int) {
    0 <= k <= |a| && k < |b| && a[..k] == b[..k] && (k < |a| ==> a[k] < b[k])
  }

  lemma {:induction false} PrecedesIsTotal(a: string, b: string)
    ensures a == b || Precedes(a, b) || Precedes(b, a)
  {
    if a != "" && b != "" && a[0] == b[0] {
      PrecedesIsTotal(a[1..], b[1..]);
      assert a == [a[0]] + a[1..] && b == [b[0]] + b[1..];
    }
  }

  lemma {:induction false} PrecedesChains(a: string, b: string, c: string)
    requires Precedes(a, b) && Precedes(b, c)
    ensures Precedes(a, c)
  {
    if a != "" && a[0] == b[0] == c[0] {
      PrecedesChains(a[1..], b[1..], c[1..]);
    }
  }

  predicate Ascending(s: seq<string>) {
    forall i, j | 0 <= i < j < |s| :: Precedes(s[i], s[j])
  }

  /** Into its place, unless it is there. */
  function Place(sorted: seq<string>, x: string): seq<string> {
    if sorted == [] then [x]
    else
      var front, last := sorted[..|sorted| - 1], sorted[|sorted| - 1];
      if x == last then sorted
      else if Precedes(last, x) then sorted + [x]
      else Place(front, x) + [last]
  }

  lemma {:induction false} PlaceSorts(sorted: seq<string>, x: string)
    requires Ascending(sorted)
    ensures Ascending(Place(sorted, x))
    ensures forall y :: y in Place(sorted, x) <==> y in sorted || y == x
  {
    if sorted != [] {
      var front, last := sorted[..|sorted| - 1], sorted[|sorted| - 1];
      assert sorted == front + [last];
      PlaceSorts(front, x);
      if x != last && Precedes(last, x) {
        forall i | 0 <= i < |sorted| ensures Precedes(sorted[i], x) {
          if i < |front| {
            PrecedesChains(sorted[i], last, x);
          }
        }
      } else if x != last {
        PrecedesIsTotal(last, x);
        var placed := Place(front, x);
        forall i | 0 <= i < |placed| ensures Precedes(placed[i], last) {
          assert placed[i] in placed;
          if placed[i] != x {
            var k :| 0 <= k < |front| && front[k] == placed[i];
            assert Precedes(sorted[k], sorted[|front|]);
          }
        }
      }
    }
  }

  /** sorted() of the set of sources. */
  function SortedSources(group: seq<Mention>): seq<string> {
    if group == [] then [] else Place(SortedSources(group[..|group| - 1]), group[|group| - 1].source)
  }

  /** Strictly ascending, and exactly the sources of the group. */
  lemma {:induction false} SourcesAreSorted(group: seq<Mention>)
    ensures Ascending(SortedSources(group))
    ensures forall s :: s in SortedSources(group) <==> s in Sources(group)
  {
    if group != [] {
      var front, last := group[..|group| - 1], group[|group| - 1];
      assert group == front + [last];
      SourcesAreSorted(front);
      PlaceSorts(SortedSources(front), last.source);
      assert Sources(group) == Sources(front) + {last.source};
    }
  }

  // ----- the hints -----

  /** The summary sentence of a reported group and its sources in order. */
  datatype Hint = Hint(summary: string, sources: seq<string>)

  function Examples(group: seq<Mention>): seq<string> {
    var first := Take(group, 2);
    seq(|first|, i requires 0 <= i < |first| => Truncate(first[i].sentence, 120))
  }

  /** Python's "; ".join(parts). */
  function JoinWithSemicolons(parts: seq<string>): string {
    if parts == [] then ""
    else if |parts| == 1 then parts[0]
    else JoinWithSemicolons(parts[..|parts| - 1]) + "; " + parts[|parts| - 1]
  }

  function Summary(group: seq<Mention>): string {
    "Potential numeric disagreement detected: " + JoinWithSemicolons(Examples(group))
  }

  function HintFor(group: seq<Mention>): Hint {
    Hint(Summary(group), SortedSources(group))
  }

  function Hints(bases: seq<string>, groups: Groups): seq<Hint>
    requires forall base <- bases :: base in groups
  {
    if bases == [] then []
    else Hints(bases[..|bases| - 1], groups) + [HintFor(groups[bases[|bases| - 1]])]
  }

  /** The hint quotes the first two mentions, cut to 120 characters, and lists the sources. */
  ghost predicate Tells(hint: Hint, group: seq<Mention>) {
    && |group| >= 2
    && hint.summary == "Potential numeric disagreement detected: "
                       + Truncate(group[0].sentence, 120) + "; " + Truncate(group[1].sentence, 120)
    && Ascending(hint.sources)
    && forall s :: s in hint.sources <==> exists m | m in group :: m.source == s
  }

  lemma {:induction false} HintTells(group: seq<Mention>)
    requires Reported(group)
    ensures Tells(HintFor(group), group)
  {
    ReportedIffDisagrees(group);
    SourcesAreSorted(group);
    var examples := Examples(group);
    assert examples == [Truncate(group[0].sentence, 120), Truncate(group[1].sentence, 120)];
    assert examples[..1] == [examples[0]];
    assert JoinWithSemicolons(examples) == examples[0] + "; " + examples[1];
    JoinedSummary("Potential numeric disagreement detected: ", examples[0], examples[1]);
  }

  lemma JoinedSummary(prefix: string, a: string, b: string)
    ensures prefix + (a + "; " + b) == prefix + a + "; " + b
  {}

  lemma {:induction false} HintAt(bases: seq<string>, groups: Groups, k: nat)
    requires k < |bases| && forall b <- bases :: b in groups
    ensures |Hints(bases, groups)| == |bases| && Hints(bases, groups)[k] == HintFor(groups[bases[k]])
  {
    if k < |bases| - 1 {
      HintAt(bases[..|bases| - 1], groups, k);
    } else if |bases| > 1 {
      HintAt(bases[..|bases| - 1], groups, 0);
    }
  }

  lemma {:induction false} HintsSnoc(bases: seq<string>, base: string, groups: Groups)
    requires base in groups && forall b <- bases :: b in groups
    ensures Hints(bases + [base], groups) == Hints(bases, groups) + [HintFor(groups[base])]
  {
    assert (bases + [base])[..|bases|] == bases;
  }

  lemma {:induction false} ReportedSnoc(order: seq<string>, groups: Groups, k: nat)
    requires k < |order| && forall b <- order :: b in groups
    ensures ReportedBases(order[..k + 1], groups)
         == if Reported(groups[order[k]]) then ReportedBases(order[..k], groups) + [order[k]]
            else ReportedBases(order[..k], groups)
  {
    assert order[..k + 1][..k] == order[..k];
  }

  method GroupSentences(docs: seq<Document>, rd: Reading) returns (g: Grouping)
    ensures g == Grouped(Stream(docs), rd)
  {
    g := Grouping([], map[]);
    for d := 0 to |docs|
      invariant g == Grouped(Stream(docs[..d]), rd)
    {
      assert docs[..d + 1][..d] == docs[..d];
      var doc := docs[d];
      ghost var before := Stream(docs[..d]);
      assert before + SaidIn(doc)[..0] == before;
      for s := 0 to |doc.sentences|
        invariant g == Grouped(before + SaidIn(doc)[..s], rd)
      {
        NextSentence(before, doc, s, rd);
        var numbers := rd.numbers(doc.sentences[s]);
        if numbers == [] {
          continue;
        }
        var base := rd.base(doc.sentences[s]);
        if rd.words(base) < 4 {
          continue;
        }
        if base !in g.groups {
          g := Grouping(g.order + [base], g.groups[base := []]);
        }
        var mention := Mention(doc.source, Strip(doc.sentences[s]), numbers);
        SetTwice(g.groups, base, g.groups[base] + [mention]);
        g := g.(groups := g.groups[base := g.groups[base] + [mention]]);
      }
      assert SaidIn(doc)[..|doc.sentences|] == SaidIn(doc);
    }
    assert docs[..|docs|] == docs;
  }

  lemma SetTwice(groups: Groups, base: string, group: seq<Mention>)
    ensures groups[base := []][base := group] == groups[base := group]
  {}

  lemma {:induction false} NextSentence(before: seq<Said>, doc: Document, s: nat, rd: Reading)
    requires s < |doc.sentences|
    ensures Grouped(before + SaidIn(doc)[..s + 1], rd)
         == AddSentence(Grouped(before + SaidIn(doc)[..s], rd), Said(doc.source, doc.sentences[s]), rd)
  {
    var x := Said(doc.source, doc.sentences[s]);
    assert before + SaidIn(doc)[..s + 1] == before + SaidIn(doc)[..s] + [x];
    GroupedNext(before + SaidIn(doc)[..s], x, rd);
  }

  method HintIfReported(group: seq<Mention>) returns (hint: Option<Hint>)
    ensures hint == if Reported(group) then Some(HintFor(group)) else None
  {
    var distinctNumbers := set m | m in group :: m.numbers;
    if |distinctNumbers| < 2 {
      return None;
    }
    var sources := set m | m in group :: m.source;
    if |sources| < 2 {
      return None;
    }
    hint := Some(Hint(Summary(group), SortedSources(group)));
  }

  /** The hints are those of the first four of the reported bases, in order of appearance. */
  ghost predicate AreHints(hints: seq<Hint>, bases: seq<string>, said: seq<Said>, rd: Reading) {
    && |hints| == (if |bases| < 4 then |bases| else 4)
    && forall k | 0 <= k < |hints| :: Tells(hints[k], Mentions(said, bases[k], rd))
  }

  lemma {:induction false} HintTellsAt(docs: seq<Document>, rd: Reading, k: nat)
    requires k < |AllReported(docs, rd)|
    ensures var bases, groups := AllReported(docs, rd), Grouped(Stream(docs), rd).groups;
      && (forall base <- bases :: base in groups) && |Hints(bases, groups)| == |bases|
      && Tells(Hints(bases, groups)[k], Mentions(Stream(docs), bases[k], rd))
  {
    var said := Stream(docs);
    var g, bases := Grouped(said, rd), AllReported(docs, rd);
    ReportedAreGroups(docs, rd);
    ReportedBasesAre(g.order, g.groups, bases[k]);
    HintAt(bases, g.groups, k);
    GroupsAreMentions(said, rd, bases[k]);
    HintTells(g.groups[bases[k]]);
  }

  lemma {:induction false} ReportedAreGroups(docs: seq<Document>, rd: Reading)
    ensures OrderListsGroups(Grouped(Stream(docs), rd))
    ensures forall base <- AllReported(docs, rd) :: base in Grouped(Stream(docs), rd).groups
  {
    var g := Grouped(Stream(docs), rd);
    GroupingIsOrdered(Stream(docs), rd);
    forall base <- AllReported(docs, rd) ensures base in g.groups {
      ReportedBasesAre(g.order, g.groups, base);
    }
  }

  lemma {:induction false} HintsTell(docs: seq<Document>, rd: Reading)
    ensures var bases, groups := AllReported(docs, rd), Grouped(Stream(docs), rd).groups;
      && (forall base <- bases :: base in groups)
      && AreHints(Take(Hints(bases, groups), 4), bases, Stream(docs), rd)
  {
    var bases, groups := AllReported(docs, rd), Grouped(Stream(docs), rd).groups;
    ReportedAreGroups(docs, rd);
    var hints := Hints(bases, groups);
    assert |hints| == |bases| by {
      if bases != [] {
        HintAt(bases, groups, 0);
      }
    }
    forall k | 0 <= k < |bases| ensures Tells(hints[k], Mentions(Stream(docs), bases[k], rd)) {
      HintTellsAt(docs, rd, k);
    }
    FirstFour(hints, bases, Stream(docs), rd);
  }

  lemma {:induction false} FirstFour(hints: seq<Hint>, bases: seq<string>, said: seq<Said>, rd: Reading)
    requires |hints| == |bases|
    requires forall k | 0 <= k < |bases| :: Tells(hints[k], Mentions(said, bases[k], rd))
    ensures AreHints(Take(hints, 4), bases, said, rd)
  {}

  lemma {:induction false} HintsMeaning(docs: seq<Document>, rd: Reading) returns (places: seq<nat>)
    ensures var bases, groups := AllReported(docs, rd), Grouped(Stream(docs), rd).groups;
      && (forall base <- bases :: base in groups)
      && (forall base :: base in bases <==> Contradicted(docs, base, rd))
      && InOrder(bases, places, Stream(docs), rd)
      && AreHints(Take(Hints(bases, groups), 4), bases, Stream(docs), rd)
  {
    places := ReportedPlaces(docs, rd);
    HintsTell(docs, rd);
    forall base ensures base in AllReported(docs, rd) <==> Contradicted(docs, base, rd) {
      ReportedIffContradicted(docs, rd, base);
    }
  }

  method DetectContradictionHints(docs: seq<Document>, rd: Reading)
    returns (hints: seq<Hint>, ghost bases: seq<string>, ghost places: seq<nat>)
    ensures var groups := Grouped(Stream(docs), rd).groups;
      && (forall base <- AllReported(docs, rd) :: base in groups)
      && hints == Take(Hints(AllReported(docs, rd), groups), 4)
    ensures forall base :: base in bases <==> Contradicted(docs, base, rd)
    ensures InOrder(bases, places, Stream(docs), rd)
    ensures AreHints(hints, bases, Stream(docs), rd)
  {
    var g := GroupSentences(docs, rd);
    GroupingIsOrdered(Stream(docs), rd);
    hints := [];
    for k := 0 to |g.order|
      invariant forall base <- ReportedBases(g.order[..k], g.groups) :: base in g.groups
      invariant hints == Hints(ReportedBases(g.order[..k], g.groups), g.groups)
    {
      ReportedSnoc(g.order, g.groups, k);
      var hint := HintIfReported(g.groups[g.order[k]]);
      if hint.None? {
        continue;
      }
      HintsSnoc(ReportedBases(g.order[..k], g.groups), g.order[k], g.groups);
      hints := hints + [hint.value];
    }
    assert g.order[..|g.order|] == g.order;
    hints := Take(hints, 4);
    bases := AllReported(docs, rd);
    places := HintsMeaning(docs, rd);
  }
}
