/** The sentence packer of app/core/html_utils.py: consecutive sentences are
    grouped greedily into chunks of at most maxChars characters, or one longer sentence. */
module SentenceChunker {
  import opened Text

  /** What the caller may hand over in place of a list of sentences; an entry of
      the list may itself be missing. */
  datatype Input = NotAList | Sentences(items: seq<Option<string>>)

  /** Python's " ".join(words). */
  function Join(words: seq<string>): string {
    if |words| == 0 then ""
    else if |words| == 1 then words[0]
    else Join(words[..|words| - 1]) + " " + words[|words| - 1]
  }

  function JoinAll(groups: seq<seq<string>>): (chunks: seq<string>)
    ensures |chunks| == |groups|
    ensures forall i | 0 <= i < |groups| :: chunks[i] == Join(groups[i])
  {
    if groups == [] then [] else JoinAll(groups[..|groups| - 1]) + [Join(groups[|groups| - 1])]
  }

  function Flatten(groups: seq<seq<string>>): seq<string> {
    if groups == [] then [] else Flatten(groups[..|groups| - 1]) + groups[|groups| - 1]
  }

  /** The sentences that survive trimming, in order. */
  function Words(items: seq<Option<string>>): (words: seq<string>)
    ensures forall w <- words :: w != "" && Strip(w) == w
  {
    if items == [] then []
    else
      var s := Strip(items[|items| - 1].GetOr(""));
      StripIdempotent(items[|items| - 1].GetOr(""));
      Words(items[..|items| - 1]) + (if s == "" then [] else [s])
  }

  /** These are the trimmed items at these places. */
  ghost predicate AreTrimmed(words: seq<string>, items: seq<Option<string>>, places: seq<nat>) {
    && |words| == |places|
    && forall j | 0 <= j < |places| ::
         places[j] < |items| && items[places[j]].Some? && words[j] == Strip(items[places[j]].value)
  }

  lemma {:induction false} OneMoreWord(words: seq<string>, items: seq<Option<string>>, places: seq<nat>, w: string)
    requires items != [] && AreTrimmed(words, items[..|items| - 1], places)
    ensures AreTrimmed(words, items, places)
    ensures items[|items| - 1].Some? && w == Strip(items[|items| - 1].value) ==>
      AreTrimmed(words + [w], items, places + [|items| - 1])
  {}

  ghost predicate IsLeft(items: seq<Option<string>>, i: nat)
    requires i < |items|
  {
    Strip(items[i].GetOr("")) != ""
  }

  ghost predicate ArePlacesLeft(places: seq<nat>, items: seq<Option<string>>) {
    && Increasing(places)
    && forall i: nat {:trigger i in places} :: i in places <==> i < |items| && IsLeft(items, i)
  }

  lemma {:induction false} NextLeft(places: seq<nat>, items: seq<Option<string>>)
    requires items != [] && ArePlacesLeft(places, items[..|items| - 1])
    ensures var n := |items| - 1; ArePlacesLeft(if IsLeft(items, n) then places + [n] else places, items)
  {
    var n := |items| - 1;
    assert forall i: nat | i < n :: IsLeft(items[..n], i) == IsLeft(items, i);
    OneMorePlace(places, n);
  }

  lemma {:induction false} LeftPlaces(items: seq<Option<string>>) returns (places: seq<nat>)
    ensures ArePlacesLeft(places, items) && AreTrimmed(Words(items), items, places)
  {
    places := [];
    if items != [] {
      var n := |items| - 1;
      var w := Strip(items[n].GetOr(""));
      var earlier := LeftPlaces(items[..n]);
      NextLeft(earlier, items);
      OneMoreWord(Words(items[..n]), items, earlier, w);
      places := if IsLeft(items, n) then earlier + [n] else earlier;
    }
  }

  /** The sentences, with their places: those that hold something besides space, trimmed. */
  lemma {:induction false} WordsPlaces(items: seq<Option<string>>) returns (places: seq<nat>)
    ensures Increasing(places) && AreTrimmed(Words(items), items, places)
    ensures forall i: nat {:trigger i in places} :: i in places <==> i < |items| && HasText(items[i])
  {
    places := LeftPlaces(items);
    forall i: nat | i < |items| ensures IsLeft(items, i) <==> HasText(items[i]) {
      HasTextMeaning(items[i]);
    }
  }

  ghost predicate HasText(item: Option<string>) {
    item.Some? && exists k :: 0 <= k < |item.value| && !IsSpace(item.value[k])
  }

  lemma {:induction false} HasTextMeaning(item: Option<string>)
    ensures HasText(item) <==> Strip(item.GetOr("")) != ""
  {
    if item.Some? {
      var from, to := StripCuts(item.value);
      if Strip(item.value) != "" {
        assert !IsSpace(item.value[from]);
      }
    }
  }

  // ----- what a good chunking is -----

  /** A chunk is within the limit, or is a single sentence that cannot be split. */
  predicate Fits(group: seq<string>, maxChars: int) {
    |group| == 1 || (|group| > 1 && |Join(group)| <= maxChars)
  }

  /** An ordered split of words into consecutive admissible groups. */
  predicate Packing(groups: seq<seq<string>>, words: seq<string>, maxChars: int) {
    && Flatten(groups) == words
    && forall i | 0 <= i < |groups| :: Fits(groups[i], maxChars)
  }

  /** Group i could not have taken the first sentence of the next group. */
  predicate Overflows(groups: seq<seq<string>>, i: nat, maxChars: int)
    requires i < |groups| - 1
  {
    groups[i + 1] != [] && |Join(groups[i] + [groups[i + 1][0]])| > maxChars
  }

  predicate Tight(groups: seq<seq<string>>, maxChars: int) {
    forall i | 0 <= i < |groups| - 1 :: Overflows(groups, i, maxChars)
  }

  // ----- lengths of joined slices -----

  lemma {:induction false} SliceOfPrefix(words: seq<string>, n: nat, i: nat, j: nat)
    requires i <= j <= n <= |words|
    ensures words[..n][i..j] == words[i..j]
  {
    assert |words[..n][i..j]| == j - i;
    assert forall k | 0 <= k < j - i :: words[..n][i..j][k] == words[..n][i + k] == words[i + k] == words[i..j][k];
  }

  lemma {:induction false} SliceIsShorter(words: seq<string>, i: nat, j: nat)
    requires i < j <= |words|
    ensures |Join(words[i..j])| <= |Join(words)|
  {
    var n := |words|;
    var front := words[..n - 1];
    if j < n {
      SliceOfPrefix(words, n - 1, i, j);
      SliceIsShorter(front, i, j);
    } else if i < n - 1 {
      SliceOfPrefix(words, n - 1, i, n - 1);
      assert words[i..n] == words[i..n - 1] + [words[n - 1]];
      SliceIsShorter(front, i, n - 1);
    } else {
      assert words[i..j] == [words[n - 1]];
    }
  }

  lemma {:induction false} JoinConcat(a: seq<string>, b: seq<string>)
    requires a != [] && b != []
    ensures Join(a + b) == Join(a) + " " + Join(b)
  {
    assert (a + b)[..|a + b| - 1] == a + b[..|b| - 1];
    if |b| > 1 {
      JoinConcat(a, b[..|b| - 1]);
    } else {
      assert a + b[..|b| - 1] == a;
    }
  }

  // ----- where each group sits inside the flattened list -----

  lemma {:induction false} FlattenPrefix(groups: seq<seq<string>>, i: nat)
    requires i <= |groups|
    ensures Flatten(groups[..i]) <= Flatten(groups)
  {
    if i < |groups| {
      var front := groups[..|groups| - 1];
      assert front[..i] == groups[..i];
      FlattenPrefix(front, i);
    } else {
      assert groups[..i] == groups;
    }
  }

  lemma {:induction false} GroupSlice(groups: seq<seq<string>>, i: nat)
    requires i < |groups|
    ensures var from, to := |Flatten(groups[..i])|, |Flatten(groups[..i + 1])|;
            from <= to <= |Flatten(groups)| && Flatten(groups)[from..to] == groups[i]
  {
    FlattenPrefix(groups, i + 1);
    assert groups[..i + 1][..i] == groups[..i];
  }

  /** Chunking loses no text: the joined chunks read like the joined sentences. */
  lemma {:induction false} JoinOfChunks(groups: seq<seq<string>>)
    requires forall i | 0 <= i < |groups| :: groups[i] != []
    ensures Join(JoinAll(groups)) == Join(Flatten(groups))
    ensures groups != [] ==> Flatten(groups) != []
  {
    if |groups| > 0 {
      var front, last := groups[..|groups| - 1], groups[|groups| - 1];
      JoinOfChunks(front);
      if front == [] {
        assert Flatten(groups) == last;
      } else {
        JoinConcat(Flatten(front), last);
        JoinConcat(JoinAll(front), [Join(last)]);
      }
    }
  }

  // ----- greedy stays ahead -----

  /** An admissible group cannot contain an overflowing one and the sentence after it. */
  lemma {:induction false} NothingSwallows(words: seq<string>, a: nat, b: nat, c: nat, d: nat, maxChars: int)
    requires c <= a < b < d <= |words|
    requires |Join(words[a..b] + [words[b]])| > maxChars
    ensures !Fits(words[c..d], maxChars)
  {
    var p := words[c..d];
    assert words[a..b + 1] == words[a..b] + [words[b]];
    var i, j := a - c, b + 1 - c;
    assert |p| == d - c && 0 <= i < j <= |p|;
    assert forall k | 0 <= k < j - i :: p[i..j][k] == p[i + k] == words[a + k];
    assert p[i..j] == words[a..b + 1];
    SliceIsShorter(p, i, j);
  }

  /** After any number of groups a tight packing has consumed at least as many
      sentences as any other packing. */
  lemma {:induction false} StaysAhead(
    greedy: seq<seq<string>>, other: seq<seq<string>>, words: seq<string>, maxChars: int, i: nat)
    requires Packing(greedy, words, maxChars) && Tight(greedy, maxChars)
    requires Packing(other, words, maxChars)
    requires i <= |greedy| && i <= |other|
    ensures |Flatten(greedy[..i])| >= |Flatten(other[..i])|
  {
    if i > 0 {
      StaysAhead(greedy, other, words, maxChars, i - 1);
      CatchesUp(greedy, other, words, maxChars, i - 1);
    } else {
      assert greedy[..0] == [] && other[..0] == [];
    }
  }

  lemma {:induction false} CatchesUp(
    greedy: seq<seq<string>>, other: seq<seq<string>>, words: seq<string>, maxChars: int, i: nat)
    requires Packing(greedy, words, maxChars) && Tight(greedy, maxChars)
    requires Packing(other, words, maxChars)
    requires i < |greedy| && i < |other|
    requires |Flatten(greedy[..i])| >= |Flatten(other[..i])|
    ensures |Flatten(greedy[..i + 1])| >= |Flatten(other[..i + 1])|
  {
    GroupSlice(other, i);
    if i + 1 < |greedy| {
      TightSlice(greedy, words, maxChars, i);
      var a, b := |Flatten(greedy[..i])|, |Flatten(greedy[..i + 1])|;
      var c, d := |Flatten(other[..i])|, |Flatten(other[..i + 1])|;
      if b < d {
        NothingSwallows(words, a, b, c, d, maxChars);
        assert false;
      }
    } else {
      assert greedy[..i + 1] == greedy;
    }
  }

  /** In a tight packing a group and the sentence after it overflow. */
  lemma {:induction false} TightSlice(greedy: seq<seq<string>>, words: seq<string>, maxChars: int, i: nat)
    requires Packing(greedy, words, maxChars) && Tight(greedy, maxChars)
    requires i + 1 < |greedy|
    ensures var a, b := |Flatten(greedy[..i])|, |Flatten(greedy[..i + 1])|;
            a < b < |words| && |Join(words[a..b] + [words[b]])| > maxChars
  {
    GroupSlice(greedy, i);
    assert Fits(greedy[i], maxChars);
    assert Overflows(greedy, i, maxChars);
    NextWord(greedy, i + 1);
  }

  lemma {:induction false} NextWord(groups: seq<seq<string>>, i: nat)
    requires i < |groups| && groups[i] != []
    ensures var at := |Flatten(groups[..i])|; at < |Flatten(groups)| && Flatten(groups)[at] == groups[i][0]
  {
    GroupSlice(groups, i);
    var at := |Flatten(groups[..i])|;
    assert Flatten(groups)[at..|Flatten(groups[..i + 1])|][0] == groups[i][0];
  }

  /** A tight packing uses the fewest chunks. */
  lemma {:induction false} TightIsOptimal(
    greedy: seq<seq<string>>, other: seq<seq<string>>, words: seq<string>, maxChars: int)
    requires Packing(greedy, words, maxChars) && Tight(greedy, maxChars)
    requires Packing(other, words, maxChars)
    ensures |greedy| <= |other|
  {
    if |greedy| > |other| {
      StaysAhead(greedy, other, words, maxChars, |other|);
      assert other[..|other|] == other;
      assert Fits(greedy[|other|], maxChars);
      NextWord(greedy, |other|);
    }
  }

  /** There is only one tight packing, so tightness pins the chunker's answer down. */
  lemma {:induction false} TightIsUnique(
    one: seq<seq<string>>, two: seq<seq<string>>, words: seq<string>, maxChars: int)
    requires Packing(one, words, maxChars) && Tight(one, maxChars)
    requires Packing(two, words, maxChars) && Tight(two, maxChars)
    ensures one == two
  {
    TightIsOptimal(one, two, words, maxChars);
    TightIsOptimal(two, one, words, maxChars);
    forall i | 0 <= i < |one| ensures one[i] == two[i] {
      StaysAhead(one, two, words, maxChars, i);
      StaysAhead(two, one, words, maxChars, i);
      StaysAhead(one, two, words, maxChars, i + 1);
      StaysAhead(two, one, words, maxChars, i + 1);
      GroupSlice(one, i);
      GroupSlice(two, i);
    }
  }

  // ----- when every chunk stays within the limit -----

  /** The chunks are those of the tight packing of the words. */
  ghost predicate Packed(groups: seq<seq<string>>, chunks: seq<string>, words: seq<string>, maxChars: int) {
    && chunks == JoinAll(groups)
    && Packing(groups, words, maxChars)
    && Tight(groups, maxChars)
  }

  lemma {:induction false} GroupOfWord(groups: seq<seq<string>>, w: nat) returns (i: nat, k: nat)
    requires w < |Flatten(groups)|
    ensures i < |groups| && k < |groups[i]| && groups[i][k] == Flatten(groups)[w]
  {
    var front := groups[..|groups| - 1];
    if w < |Flatten(front)| {
      i, k := GroupOfWord(front, w);
    } else {
      i, k := |groups| - 1, w - |Flatten(front)|;
    }
  }

  lemma {:induction false} WordIsShorter(group: seq<string>, k: nat)
    requires k < |group|
    ensures |group[k]| <= |Join(group)|
  {
    SliceIsShorter(group, k, k + 1);
    assert group[k..k + 1] == [group[k]];
  }

  lemma {:induction false} FirstWord(groups: seq<seq<string>>, words: seq<string>, i: nat)
    requires Flatten(groups) == words && i < |groups| && groups[i] != []
    ensures exists w | 0 <= w < |words| :: words[w] == groups[i][0]
  {
    NextWord(groups, i);
  }

  predicate AllWithin(s: seq<string>, maxChars: int) {
    forall i | 0 <= i < |s| :: |s[i]| <= maxChars
  }

  /** No chunk is over the limit exactly when no sentence is. */
  lemma {:induction false} WithinLimitIff(
    groups: seq<seq<string>>, chunks: seq<string>, words: seq<string>, maxChars: int)
    requires Packed(groups, chunks, words, maxChars)
    ensures AllWithin(chunks, maxChars) <==> AllWithin(words, maxChars)
  {
    if AllWithin(chunks, maxChars) {
      forall w | 0 <= w < |words| ensures |words[w]| <= maxChars {
        var i, k := GroupOfWord(groups, w);
        WordIsShorter(groups[i], k);
        assert |chunks[i]| <= maxChars;
      }
    }
    if AllWithin(words, maxChars) {
      forall i | 0 <= i < |chunks| ensures |chunks[i]| <= maxChars {
        assert Fits(groups[i], maxChars);
        FirstWord(groups, words, i);
      }
    }
  }

  /** A limit of two characters and one sentence of three: the only chunk is over the limit. */
  lemma {:induction false} LongSentenceOverruns(groups: seq<seq<string>>, chunks: seq<string>)
    requires Packed(groups, chunks, Words([Some("abc")]), 2)
    ensures chunks == ["abc"] && !AllWithin(chunks, 2)
  {
    var word, one := "abc", [["abc"]];
    assert [Some(word)][..0] == [] && Strip(word) == word;
    assert Words([Some(word)]) == [word];
    assert one[..0] == [];
    assert Flatten(one) == [] + [word] == [word];
    TightIsUnique(groups, one, [word], 2);
    assert chunks[0] == Join([word]);
  }

  // ----- the packer -----

  /** The emitted groups together with the open buffer. */
  ghost function Pending(groups: seq<seq<string>>, buf: seq<string>): seq<seq<string>> {
    if buf == [] then groups else groups + [buf]
  }

  /** What holds between two sentences: `size` is always the joined length of the buffer. */
  ghost predicate Open(
    groups: seq<seq<string>>, chunks: seq<string>, buf: seq<string>, size: int, words: seq<string>, maxChars: int)
  {
    && chunks == JoinAll(groups)
    && size == |Join(buf)|
    && (buf == [] ==> groups == [])
    && Packing(Pending(groups, buf), words, maxChars)
    && Tight(Pending(groups, buf), maxChars)
  }

  /** A chunk is within the limit or a single sentence, and there was no room for the next one. */
  ghost predicate Filled(groups: seq<seq<string>>, chunks: seq<string>, maxChars: int) {
    && |groups| == |chunks|
    && (forall i | 0 <= i < |chunks| :: groups[i] != [] && (|groups[i]| == 1 || |chunks[i]| <= maxChars))
    && forall i | 0 <= i < |chunks| - 1 :: |chunks[i]| + 1 + |groups[i + 1][0]| > maxChars
  }

  /** The chunks are the tight packing of the words; no admissible packing has fewer; they
      read like the words; and none is over the limit unless a word is. */
  ghost predicate WellChunked(groups: seq<seq<string>>, chunks: seq<string>, words: seq<string>, maxChars: int) {
    && Packed(groups, chunks, words, maxChars) && Filled(groups, chunks, maxChars)
    && (forall other | Packing(other, words, maxChars) :: |chunks| <= |other|)
    && Join(chunks) == Join(words)
    && (AllWithin(chunks, maxChars) <==> AllWithin(words, maxChars))
  }

  lemma {:induction false} Finished(
    groups: seq<seq<string>>, chunks: seq<string>, buf: seq<string>, size: int, words: seq<string>, maxChars: int)
    requires Open(groups, chunks, buf, size, words, maxChars)
    ensures WellChunked(Pending(groups, buf), if buf == [] then chunks else chunks + [Join(buf)], words, maxChars)
  {
    var all, joined := Pending(groups, buf), if buf == [] then chunks else chunks + [Join(buf)];
    LastGroup(groups, chunks, buf, size, words, maxChars);
    PackedIsBest(all, joined, words, maxChars);
    WithinLimitIff(all, joined, words, maxChars);
    ChunkLengths(all, joined, words, maxChars);
  }

  method ChunkSentences(input: Input, maxChars: int) returns (chunks: seq<string>)
    ensures input.NotAList? ==> chunks == []
    ensures input.Sentences? ==> exists groups :: WellChunked(groups, chunks, Words(input.items), maxChars)
  {
    chunks := [];
    ghost var groups: seq<seq<string>> := [];
    if input.NotAList? {
      return;
    }
    var sentences := input.items;
    var buf: seq<string> := [];
    var size := 0;
    for k := 0 to |sentences|
      invariant Open(groups, chunks, buf, size, Words(sentences[..k]), maxChars)
    {
      var s := Strip(sentences[k].GetOr(""));
      WordsStep(sentences, k);
      if s == "" {
        continue;
      }
      if size + |s| + (if buf != [] then 1 else 0) > maxChars && buf != [] {
        StartGroup(groups, chunks, buf, size, s, Words(sentences[..k]), maxChars);
        groups := groups + [buf];
        chunks := chunks + [Join(buf)];
        buf := [s];
        size := |s|;
      } else {
        GrowGroup(groups, chunks, buf, size, s, Words(sentences[..k]), maxChars);
        if buf != [] {
          size := size + 1;
        }
        buf := buf + [s];
        size := size + |s|;
      }
    }
    assert sentences[..|sentences|] == sentences;
    Finished(groups, chunks, buf, size, Words(sentences), maxChars);
    if buf != [] {
      chunks := chunks + [Join(buf)];
    }
    assert WellChunked(Pending(groups, buf), chunks, Words(sentences), maxChars);
  }

  lemma {:induction false} ChunkLengths(
    groups: seq<seq<string>>, chunks: seq<string>, words: seq<string>, maxChars: int)
    requires Packed(groups, chunks, words, maxChars)
    ensures Filled(groups, chunks, maxChars)
  {
    assert forall i | 0 <= i < |groups| :: Fits(groups[i], maxChars);
    forall i | 0 <= i < |chunks| - 1 ensures |chunks[i]| + 1 + |groups[i + 1][0]| > maxChars {
      assert Overflows(groups, i, maxChars);
      JoinSnoc(groups[i], groups[i + 1][0]);
    }
  }

  lemma {:induction false} WordsStep(items: seq<Option<string>>, k: nat)
    requires k < |items|
    ensures var s := Strip(items[k].GetOr(""));
            Words(items[..k + 1]) == if s == "" then Words(items[..k]) else Words(items[..k]) + [s]
  {
    assert items[..k + 1][..k] == items[..k];
  }

  lemma {:induction false} JoinSnoc(buf: seq<string>, s: string)
    ensures Join(buf + [s]) == if buf == [] then s else Join(buf) + " " + s
  {
    assert (buf + [s])[..|buf|] == buf;
  }

  lemma {:induction false} JoinAllSnoc(groups: seq<seq<string>>, buf: seq<string>)
    ensures JoinAll(groups + [buf]) == JoinAll(groups) + [Join(buf)]
    ensures Flatten(groups + [buf]) == Flatten(groups) + buf
  {
    assert (groups + [buf])[..|groups|] == groups;
  }

  lemma {:induction false} TightStarts(groups: seq<seq<string>>, buf: seq<string>, s: string, maxChars: int)
    requires Tight(groups + [buf], maxChars) && |Join(buf + [s])| > maxChars
    ensures Tight(groups + [buf] + [[s]], maxChars)
  {
    var before, after := groups + [buf], groups + [buf] + [[s]];
    forall i | 0 <= i < |after| - 1 ensures Overflows(after, i, maxChars) {
      if i < |before| - 1 {
        assert Overflows(before, i, maxChars);
      }
    }
  }

  lemma {:induction false} TightGrows(groups: seq<seq<string>>, buf: seq<string>, s: string, maxChars: int)
    requires Tight(groups + [buf], maxChars) && buf != []
    ensures Tight(groups + [buf + [s]], maxChars)
  {
    var before, after := groups + [buf], groups + [buf + [s]];
    forall i | 0 <= i < |after| - 1 ensures Overflows(after, i, maxChars) {
      assert Overflows(before, i, maxChars);
    }
  }

  /** The sentence does not fit: the buffer is emitted and a new group begins. */
  lemma {:induction false} StartGroup(
    groups: seq<seq<string>>, chunks: seq<string>, buf: seq<string>, size: int, s: string,
    words: seq<string>, maxChars: int)
    requires Open(groups, chunks, buf, size, words, maxChars) && buf != [] && size + |s| + 1 > maxChars
    ensures Open(groups + [buf], chunks + [Join(buf)], [s], |s|, words + [s], maxChars)
  {
    JoinAllSnoc(groups, buf);
    JoinAllSnoc(groups + [buf], [s]);
    JoinSnoc(buf, s);
    TightStarts(groups, buf, s, maxChars);
  }

  /** The sentence fits, or is the first one: it joins the buffer. */
  lemma {:induction false} GrowGroup(
    groups: seq<seq<string>>, chunks: seq<string>, buf: seq<string>, size: int, s: string,
    words: seq<string>, maxChars: int)
    requires Open(groups, chunks, buf, size, words, maxChars)
    requires buf == [] || size + |s| + 1 <= maxChars
    ensures Open(groups, chunks, buf + [s], size + |s| + (if buf == [] then 0 else 1), words + [s], maxChars)
  {
    JoinSnoc(buf, s);
    JoinAllSnoc(groups, buf);
    JoinAllSnoc(groups, buf + [s]);
    if buf != [] {
      TightGrows(groups, buf, s, maxChars);
    }
  }

  lemma {:induction false} LastGroup(
    groups: seq<seq<string>>, chunks: seq<string>, buf: seq<string>, size: int, words: seq<string>, maxChars: int)
    requires Open(groups, chunks, buf, size, words, maxChars)
    ensures Packed(Pending(groups, buf), if buf == [] then chunks else chunks + [Join(buf)], words, maxChars)
  {
    JoinAllSnoc(groups, buf);
  }

  lemma {:induction false} PackedIsBest(
    groups: seq<seq<string>>, chunks: seq<string>, words: seq<string>, maxChars: int)
    requires Packed(groups, chunks, words, maxChars)
    ensures forall other | Packing(other, words, maxChars) :: |chunks| <= |other|
    ensures Join(chunks) == Join(words)
  {
    forall other | Packing(other, words, maxChars) ensures |chunks| <= |other| {
      TightIsOptimal(groups, other, words, maxChars);
    }
    assert forall i | 0 <= i < |groups| :: Fits(groups[i], maxChars);
    JoinOfChunks(groups);
  }
}
