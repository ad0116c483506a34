/** The latency-aware fallback order of app/core/fallback_orderer.py. */
module FallbackOrderer {
  import opened Text

  /** An observed model with its place in the configured order and its latency. */
  datatype Observed = Observed(pos: int, model: string, p95: real)

  /** y is fast enough to be promoted over x. */
  predicate Overtakes(y: Observed, x: Observed, s: real) {
    y.p95 > 0.0 && x.p95 >= y.p95 * s
  }

  // ----- the selection -----

  /** The inner scan: from position idx on, move the head to every candidate that overtakes it. */
  function Scan(rem: seq<Observed>, s: real, head: nat, idx: nat): (c: nat)
    requires head < |rem| && idx <= |rem|
    ensures c < |rem|
    decreases |rem| - idx
  {
    if idx == |rem| then head
    else if Overtakes(rem[idx], rem[head], s) then Scan(rem, s, idx, idx + 1)
    else Scan(rem, s, head, idx + 1)
  }

  function Pick(rem: seq<Observed>, s: real): (c: nat)
    requires rem != []
    ensures c < |rem|
  {
    Scan(rem, s, 0, 1)
  }

  function Without<T>(rem: seq<T>, c: nat): (rest: seq<T>)
    requires c < |rem|
    ensures |rest| == |rem| - 1
    ensures forall k | 0 <= k < |rest| :: rest[k] == rem[if k < c then k else k + 1]
  {
    rem[..c] + rem[c + 1..]
  }

  lemma {:induction false} WithoutMultiset<T>(rem: seq<T>, c: nat)
    requires c < |rem|
    ensures multiset(rem) == multiset{rem[c]} + multiset(Without(rem, c))
  {
    assert rem == rem[..c] + [rem[c]] + rem[c + 1..];
  }

  lemma {:induction false} ConsMultiset<T>(x: T, s: seq<T>)
    ensures multiset([x] + s) == multiset{x} + multiset(s)
  {}

  function Rank(rem: seq<Observed>, s: real): (ranked: seq<Observed>)
    ensures |ranked| == |rem|
    decreases |rem|
  {
    if rem == [] then []
    else
      var c := Pick(rem, s);
      [rem[c]] + Rank(Without(rem, c), s)
  }

  /** The ranking is a permutation of its input, whatever the factor and the latencies. */
  lemma {:induction false} RankPermutes(rem: seq<Observed>, s: real)
    ensures multiset(Rank(rem, s)) == multiset(rem)
    decreases |rem|
  {
    if rem != [] {
      var c := Pick(rem, s);
      RankPermutes(Without(rem, c), s);
      WithoutMultiset(rem, c);
      ConsMultiset(rem[c], Rank(Without(rem, c), s));
    }
  }

  /** Where in the input the p-th ranked model stood. */
  lemma {:induction false} InputAt(rem: seq<Observed>, s: real, p: nat) returns (a: nat)
    requires p < |rem|
    ensures a < |rem| && rem[a] == Rank(rem, s)[p]
    ensures p > 0 ==> a != Pick(rem, s)
    decreases |rem|
  {
    a := Pick(rem, s);
    if p > 0 {
      var k := InputAt(Without(rem, Pick(rem, s)), s, p - 1);
      a := if k < a then k else k + 1;
    }
  }

  /** Where in the ranking the a-th input model goes. */
  lemma {:induction false} RankedAt(rem: seq<Observed>, s: real, a: nat) returns (p: nat)
    requires a < |rem|
    ensures p < |rem| && Rank(rem, s)[p] == rem[a]
    decreases |rem|
  {
    var c := Pick(rem, s);
    p := 0;
    if a != c {
      var k := RankedAt(Without(rem, c), s, if a < c then a else a - 1);
      p := k + 1;
    }
  }

  // ----- positions: which input stands where in the output -----

  /** Each position below n exactly once. */
  ghost predicate IsPermutation(places: seq<nat>, n: nat) {
    |places| == n && NoRepeats(places) && forall k: nat :: k in places <==> k < n
  }

  lemma PlaceBelow(places: seq<nat>, n: nat, j: nat)
    requires IsPermutation(places, n) && j < n
    ensures places[j] < n
  {
    assert places[j] in places;
  }

  /** The k-th of the remaining positions, as counted before c was taken out. */
  function Restore(c: nat, k: nat): nat {
    if k < c then k else k + 1
  }

  lemma {:induction false} RankPlaces(rem: seq<Observed>, s: real) returns (places: seq<nat>)
    ensures IsPermutation(places, |rem|)
    ensures forall j | 0 <= j < |rem| :: places[j] < |rem| && Rank(rem, s)[j] == rem[places[j]]
    decreases |rem|
  {
    places := [];
    if rem != [] {
      var c := Pick(rem, s);
      var rest := RankPlaces(Without(rem, c), s);
      places := PutBack(rest, c, |rem|);
    }
  }

  lemma {:induction false} PutBack(rest: seq<nat>, c: nat, n: nat) returns (places: seq<nat>)
    requires c < n && IsPermutation(rest, n - 1)
    ensures IsPermutation(places, n)
    ensures places[0] == c && forall j | 0 < j < n :: places[j] == Restore(c, rest[j - 1])
  {
    var moved := seq(|rest|, k requires 0 <= k < |rest| => Restore(c, rest[k]));
    places := [c] + moved;
    forall k: nat ensures k in places <==> k < n {
      if k < n && k != c {
        var before := if k < c then k else k - 1;
        assert before in rest && Restore(c, before) == k;
        var j :| 0 <= j < |rest| && rest[j] == before;
        assert moved[j] == Restore(c, rest[j]);
        assert places[j + 1] == k;
      } else if k in places && k != c {
        var j :| 0 <= j < |places| && places[j] == k;
        PlaceBelow(rest, n - 1, j - 1);
      }
    }
  }

  // ----- what one pick guarantees -----

  lemma Grow(p: real, s: real)
    requires p > 0.0 && s >= 1.0
    ensures p * s >= p
    ensures s > 1.0 ==> p < p * s
  {
    assert p * s - p == p * (s - 1.0);
  }

  /** Overtaking chains. */
  lemma OvertakesChain(x: Observed, y: Observed, z: Observed, s: real)
    requires s >= 1.0 && Overtakes(y, x, s) && Overtakes(z, y, s)
    ensures Overtakes(z, x, s)
  {
    Grow(y.p95, s);
  }

  lemma {:induction false} ScanResult(rem: seq<Observed>, s: real, head: nat, idx: nat)
    requires head < idx <= |rem| && s >= 1.0
    ensures var c := Scan(rem, s, head, idx);
            && (c == head || (idx <= c && Overtakes(rem[c], rem[head], s)))
            && forall e | idx <= e < |rem| && c < e :: !Overtakes(rem[e], rem[c], s)
    decreases |rem| - idx
  {
    if idx < |rem| {
      if Overtakes(rem[idx], rem[head], s) {
        ScanResult(rem, s, idx, idx + 1);
        var c := Scan(rem, s, idx, idx + 1);
        if c != idx {
          OvertakesChain(rem[head], rem[idx], rem[c], s);
        }
      } else {
        ScanResult(rem, s, head, idx + 1);
      }
    }
  }

  /** A model passed over although the pick does not overtake it was shielded: an earlier
      head was not slow enough for it but is slow enough for the pick. */
  lemma {:induction false} ScanSkips(rem: seq<Observed>, s: real, head: nat, idx: nat, e: nat) returns (h: nat)
    requires head < idx <= e < |rem| && e < Scan(rem, s, head, idx) && s >= 1.0
    requires !Overtakes(rem[Scan(rem, s, head, idx)], rem[e], s)
    ensures h < e
    ensures Overtakes(rem[Scan(rem, s, head, idx)], rem[h], s) && !Overtakes(rem[e], rem[h], s)
    decreases |rem| - idx
  {
    if Overtakes(rem[idx], rem[head], s) {
      ScanResult(rem, s, idx, idx + 1);
      h := ScanSkips(rem, s, idx, idx + 1, e);
    } else if e == idx {
      ScanResult(rem, s, head, idx + 1);
      h := head;
    } else {
      h := ScanSkips(rem, s, head, idx + 1, e);
    }
  }

  /** The pick overtakes the earliest waiting model, or is that model. */
  lemma {:induction false} PickBeatsFirst(rem: seq<Observed>, s: real)
    requires rem != [] && s >= 1.0
    ensures Pick(rem, s) == 0 || Overtakes(rem[Pick(rem, s)], rem[0], s)
  {
    ScanResult(rem, s, 0, 1);
  }

  /** Every model the pick jumps is overtaken by it, or shielded by an earlier head. */
  lemma {:induction false} PickJumps(rem: seq<Observed>, s: real, e: nat) returns (h: nat)
    requires rem != [] && s >= 1.0 && e < Pick(rem, s)
    ensures h <= e && Overtakes(rem[Pick(rem, s)], rem[h], s)
    ensures h == e || !Overtakes(rem[e], rem[h], s)
  {
    var c := Pick(rem, s);
    ScanResult(rem, s, 0, 1);
    if e == 0 || Overtakes(rem[c], rem[e], s) {
      h := e;
    } else {
      h := ScanSkips(rem, s, 0, 1, e);
    }
  }

  // ----- the ranking -----

  /** No model stands before one at least s times faster. */
  predicate NoneWaitsTooLong(ranked: seq<Observed>, s: real) {
    forall i, j | 0 <= i < j < |ranked| :: !Overtakes(ranked[j], ranked[i], s)
  }

  lemma {:induction false} NothingOvertakesPick(rem: seq<Observed>, s: real, e: nat)
    requires rem != [] && s > 1.0 && e < |rem| && e != Pick(rem, s)
    ensures !Overtakes(rem[e], rem[Pick(rem, s)], s)
  {
    var c := Pick(rem, s);
    ScanResult(rem, s, 0, 1);
    if e < c && Overtakes(rem[e], rem[c], s) {
      var h := PickJumps(rem, s, e);
      NoCycle(rem[h], rem[c], rem[e], s);
    }
  }

  /** For a factor above one, overtaking means being strictly faster. */
  lemma Faster(y: Observed, x: Observed, s: real)
    requires s > 1.0 && Overtakes(y, x, s)
    ensures y.p95 < x.p95
  {
    Grow(y.p95, s);
  }

  /** c overtakes h and e overtakes c, so e overtakes h too and is faster. */
  lemma NoCycle(h: Observed, c: Observed, e: Observed, s: real)
    requires s > 1.0 && Overtakes(c, h, s) && Overtakes(e, c, s)
    ensures Overtakes(e, h, s) && e.p95 < h.p95
  {
    OvertakesChain(h, c, e, s);
    Faster(c, h, s);
    Faster(e, c, s);
  }

  lemma {:induction false} FasterGoesFirst(rem: seq<Observed>, s: real)
    requires s > 1.0
    ensures NoneWaitsTooLong(Rank(rem, s), s)
    decreases |rem|
  {
    if rem != [] {
      var c := Pick(rem, s);
      var ranked := Rank(rem, s);
      FasterGoesFirst(Without(rem, c), s);
      forall j | 0 < j < |ranked| ensures !Overtakes(ranked[j], ranked[0], s) {
        var e := InputAt(rem, s, j);
        NothingOvertakesPick(rem, s, e);
      }
    }
  }

  lemma {:induction false} IdentityWhenNoneWaits(rem: seq<Observed>, s: real)
    requires s >= 1.0 && NoneWaitsTooLong(rem, s)
    ensures Rank(rem, s) == rem
    decreases |rem|
  {
    if rem != [] {
      PickBeatsFirst(rem, s);
      assert Without(rem, 0) == rem[1..];
      IdentityWhenNoneWaits(rem[1..], s);
    }
  }

  /** Ranking is the identity exactly when no configured model is at least s times slower
      than a later one. */
  lemma {:induction false} RankIsIdentity(rem: seq<Observed>, s: real)
    requires s > 1.0
    ensures Rank(rem, s) == rem <==> NoneWaitsTooLong(rem, s)
  {
    FasterGoesFirst(rem, s);
    if NoneWaitsTooLong(rem, s) {
      IdentityWhenNoneWaits(rem, s);
    }
  }

  /** Ranking its own output again changes nothing. */
  lemma {:induction false} RankIdempotent(rem: seq<Observed>, s: real)
    requires s > 1.0
    ensures Rank(Rank(rem, s), s) == Rank(rem, s)
  {
    FasterGoesFirst(rem, s);
    IdentityWhenNoneWaits(Rank(rem, s), s);
  }

  predicate AllPositive(rem: seq<Observed>) {
    forall i | 0 <= i < |rem| :: rem[i].p95 > 0.0
  }

  predicate Ascending(ranked: seq<Observed>) {
    forall i, j | 0 <= i < j < |ranked| :: ranked[i].p95 <= ranked[j].p95
  }

  /** With factor one the ranking sorts by latency. */
  lemma {:induction false} FactorOneSorts(rem: seq<Observed>)
    requires AllPositive(rem)
    ensures Ascending(Rank(rem, 1.0))
    decreases |rem|
  {
    if rem != [] {
      var c := Pick(rem, 1.0);
      var ranked := Rank(rem, 1.0);
      FactorOneSorts(Without(rem, c));
      ScanResult(rem, 1.0, 0, 1);
      forall j | 0 < j < |ranked| ensures ranked[0].p95 <= ranked[j].p95 {
        var e := InputAt(rem, 1.0, j);
        if e < c {
          var h := PickJumps(rem, 1.0, e);
        }
      }
    }
  }

  // ----- pairs whose configured order is reversed -----

  /** Sorted by configured position, no two alike: the models are distinct. */
  predicate InConfiguredOrder(rem: seq<Observed>) {
    forall i, j | 0 <= i < j < |rem| :: rem[i].pos < rem[j].pos
  }

  /** Why ranked[i] was moved ahead of ranked[j]: it overtakes that model itself, or an
      earlier configured model h that ranked[j] does not overtake. */
  lemma {:induction false} Reversal(rem: seq<Observed>, s: real, i: nat, j: nat) returns (h: nat)
    requires s >= 1.0 && InConfiguredOrder(rem) && i < j < |rem|
    requires Rank(rem, s)[i].pos > Rank(rem, s)[j].pos
    ensures h < |rem| && Overtakes(Rank(rem, s)[i], rem[h], s)
    ensures rem[h] == Rank(rem, s)[j]
         || (rem[h].pos < Rank(rem, s)[j].pos && !Overtakes(Rank(rem, s)[j], rem[h], s))
    decreases |rem|
  {
    var c := Pick(rem, s);
    if i == 0 {
      h := ReversalByPick(rem, s, j);
    } else {
      RankTail(rem, s, i);
      RankTail(rem, s, j);
      var k := Reversal(Without(rem, c), s, i - 1, j - 1);
      h := Restored(rem, c, k);
    }
  }

  /** Where the k-th of the remaining models stood before c was taken out. */
  lemma {:induction false} Restored(rem: seq<Observed>, c: nat, k: nat) returns (h: nat)
    requires c < |rem| && k < |rem| - 1
    ensures h < |rem| && rem[h] == Without(rem, c)[k]
  {
    h := if k < c then k else k + 1;
  }

  lemma {:induction false} ReversalByPick(rem: seq<Observed>, s: real, j: nat) returns (h: nat)
    requires s >= 1.0 && InConfiguredOrder(rem) && 0 < j < |rem|
    requires Rank(rem, s)[0].pos > Rank(rem, s)[j].pos
    ensures h < |rem| && Overtakes(Rank(rem, s)[0], rem[h], s)
    ensures rem[h] == Rank(rem, s)[j]
         || (rem[h].pos < Rank(rem, s)[j].pos && !Overtakes(Rank(rem, s)[j], rem[h], s))
  {
    var e := InputAt(rem, s, j);
    h := PickJumps(rem, s, e);
  }

  /** Past the pick, the ranking is the ranking of the rest. */
  lemma {:induction false} RankTail(rem: seq<Observed>, s: real, p: nat)
    requires 0 < p < |rem|
    ensures |Without(rem, Pick(rem, s))| == |rem| - 1
    ensures Rank(rem, s)[p] == Rank(Without(rem, Pick(rem, s)), s)[p - 1]
    ensures InConfiguredOrder(rem) ==> InConfiguredOrder(Without(rem, Pick(rem, s)))
  {}

  /** A promoted model is strictly faster than every model it was moved ahead of. */
  lemma {:induction false} PromotedIsFaster(rem: seq<Observed>, s: real, i: nat, j: nat)
    requires s > 1.0 && InConfiguredOrder(rem) && AllPositive(rem) && i < j < |rem|
    requires Rank(rem, s)[i].pos > Rank(rem, s)[j].pos
    ensures Rank(rem, s)[i].p95 < Rank(rem, s)[j].p95
  {
    var h := Reversal(rem, s, i, j);
    var a := InputAt(rem, s, j);
    FasterThanBoth(Rank(rem, s)[i], rem[h], rem[a], s);
  }

  lemma FasterThanBoth(y: Observed, h: Observed, x: Observed, s: real)
    requires s > 1.0 && x.p95 > 0.0 && Overtakes(y, h, s)
    requires h == x || !Overtakes(x, h, s)
    ensures y.p95 < x.p95
  {
    if h == x {
      Faster(y, x, s);
    } else {
      LessTimes(y.p95, x.p95, s);
    }
  }

  lemma LessTimes(a: real, b: real, s: real)
    requires s > 0.0
    ensures a * s < b * s <==> a < b
  {
    assert b * s - a * s == (b - a) * s;
  }

  /** Whatever goes next is the earliest configured model still waiting, or overtakes it. */
  lemma {:induction false} PromotionsBeatTheEarliest(rem: seq<Observed>, s: real, i: nat, k: nat)
    requires s >= 1.0 && InConfiguredOrder(rem) && i <= k < |rem|
    requires forall m | i <= m < |rem| :: Rank(rem, s)[k].pos <= Rank(rem, s)[m].pos
    ensures k == i || Overtakes(Rank(rem, s)[i], Rank(rem, s)[k], s)
    decreases |rem|
  {
    var c := Pick(rem, s);
    var ranked := Rank(rem, s);
    if i > 0 {
      var rest := Without(rem, c);
      RankTail(rem, s, i);
      RankTail(rem, s, k);
      forall m | i - 1 <= m < |rest| ensures Rank(rest, s)[k - 1].pos <= Rank(rest, s)[m].pos {
        RankTail(rem, s, m + 1);
      }
      PromotionsBeatTheEarliest(rest, s, i - 1, k - 1);
    } else if k > 0 {
      var e := InputAt(rem, s, k);
      PickBeatsFirst(rem, s);
      FirstIsRanked(rem, s, e, k);
    }
  }

  lemma {:induction false} FirstIsRanked(rem: seq<Observed>, s: real, e: nat, k: nat)
    requires InConfiguredOrder(rem) && e < |rem| && 0 < k < |rem| && rem[e] == Rank(rem, s)[k]
    requires forall m | 0 <= m < |rem| :: Rank(rem, s)[k].pos <= Rank(rem, s)[m].pos
    ensures e == 0
  {
    var m := RankedAt(rem, s, 0);
  }

  // ----- the documented stickiness promise -----

  /** The documented promise: only a model at least s times faster jumps another one. */
  predicate OnlyMeaningfulGaps(rem: seq<Observed>, s: real) {
    forall i, j | 0 <= i < j < |rem| && Rank(rem, s)[i].pos > Rank(rem, s)[j].pos ::
      Overtakes(Rank(rem, s)[i], Rank(rem, s)[j], s)
  }

  /** Three models in configured order where the last overtakes the first, while the
      middle one neither overtakes the first nor is overtaken by the last. */
  ghost predicate HasBystander(rem: seq<Observed>, s: real) {
    exists a, b, c | 0 <= a < b < c < |rem| ::
      Overtakes(rem[c], rem[a], s) && !Overtakes(rem[c], rem[b], s) && !Overtakes(rem[b], rem[a], s)
  }

  lemma {:induction false} BystanderBreaksPromise(rem: seq<Observed>, s: real, a: nat, b: nat, c: nat)
    requires s > 1.0 && InConfiguredOrder(rem) && a < b < c < |rem|
    requires Overtakes(rem[c], rem[a], s) && !Overtakes(rem[c], rem[b], s) && !Overtakes(rem[b], rem[a], s)
    ensures !OnlyMeaningfulGaps(rem, s)
  {
    var pa := RankedAt(rem, s, a);
    var pb := RankedAt(rem, s, b);
    var pc := RankedAt(rem, s, c);
    FasterGoesFirst(rem, s);
    if pc < pb {
      assert Rank(rem, s)[pc].pos > Rank(rem, s)[pb].pos;
    } else {
      assert pb < pa;
      assert Rank(rem, s)[pb].pos > Rank(rem, s)[pa].pos;
    }
  }

  lemma {:induction false} BrokenPromiseHasBystander(rem: seq<Observed>, s: real, i: nat, j: nat)
    requires s > 1.0 && InConfiguredOrder(rem) && i < j < |rem|
    requires Rank(rem, s)[i].pos > Rank(rem, s)[j].pos
    requires !Overtakes(Rank(rem, s)[i], Rank(rem, s)[j], s)
    ensures HasBystander(rem, s)
  {
    var a := Reversal(rem, s, i, j);
    var b := InputAt(rem, s, j);
    var c := InputAt(rem, s, i);
    assert a < b < c;
  }

  /** The promise holds exactly when the configured latencies contain no such triple. */
  lemma {:induction false} PromiseHoldsIff(rem: seq<Observed>, s: real)
    requires s > 1.0 && InConfiguredOrder(rem)
    ensures OnlyMeaningfulGaps(rem, s) <==> !HasBystander(rem, s)
  {
    forall a, b, c | 0 <= a < b < c < |rem| && Overtakes(rem[c], rem[a], s)
                     && !Overtakes(rem[c], rem[b], s) && !Overtakes(rem[b], rem[a], s)
      ensures !OnlyMeaningfulGaps(rem, s)
    {
      BystanderBreaksPromise(rem, s, a, b, c);
    }
    forall i, j | 0 <= i < j < |rem| && Rank(rem, s)[i].pos > Rank(rem, s)[j].pos
                  && !Overtakes(Rank(rem, s)[i], Rank(rem, s)[j], s)
      ensures HasBystander(rem, s)
    {
      BrokenPromiseHasBystander(rem, s, i, j);
    }
  }

  /** Latencies 100, 60 and 50 with factor two: the third model jumps the second. */
  lemma {:induction false} PromiseCanFail(a: string, b: string, c: string)
    ensures var rem := [Observed(0, a, 100.0), Observed(1, b, 60.0), Observed(2, c, 50.0)];
            Rank(rem, 2.0) == [rem[2], rem[0], rem[1]] && !Overtakes(rem[2], rem[1], 2.0)
  {
    var x, y, z := Observed(0, a, 100.0), Observed(1, b, 60.0), Observed(2, c, 50.0);
    assert Scan([x, y, z], 2.0, 0, 1) == Scan([x, y, z], 2.0, 0, 2) == Scan([x, y, z], 2.0, 2, 3) == 2;
    assert Without([x, y, z], 2) == [x, y];
    assert Scan([x, y], 2.0, 0, 1) == Scan([x, y], 2.0, 0, 2) == 0;
    assert Without([x, y], 0) == [y] && Without([y], 0) == [];
    assert Rank([y], 2.0) == [y];
    assert Rank([x, y], 2.0) == [x, y];
  }

  // ----- sorting by configured position -----

  datatype Sample = Sample(model: string, p95: real)

  /** The position table: a repeated model keeps its last index. */
  function LastIndex(configured: seq<string>, model: string): (i: int)
    ensures i == -1 || (0 <= i < |configured| && configured[i] == model)
    ensures model in configured ==> i >= 0
  {
    if configured == [] then -1
    else if configured[|configured| - 1] == model then |configured| - 1
    else LastIndex(configured[..|configured| - 1], model)
  }

  lemma {:induction false} LastIndexIsLast(configured: seq<string>, model: string)
    ensures forall j | LastIndex(configured, model) < j < |configured| :: configured[j] != model
  {
    if configured != [] {
      LastIndexIsLast(configured[..|configured| - 1], model);
    }
  }

  function Insert(sorted: seq<Observed>, x: Observed): seq<Observed> {
    if sorted == [] || sorted[|sorted| - 1].pos <= x.pos then sorted + [x]
    else Insert(sorted[..|sorted| - 1], x) + [sorted[|sorted| - 1]]
  }

  /** The samples with their configured positions. */
  function Tagged(samples: seq<Sample>, configured: seq<string>): (tagged: seq<Observed>)
    ensures |tagged| == |samples|
    ensures forall i | 0 <= i < |samples| ::
      tagged[i] == Observed(LastIndex(configured, samples[i].model), samples[i].model, samples[i].p95)
  {
    seq(|samples|, i requires 0 <= i < |samples| =>
      Observed(LastIndex(configured, samples[i].model), samples[i].model, samples[i].p95))
  }

  function InsertionSort(tagged: seq<Observed>): seq<Observed> {
    if tagged == [] then [] else Insert(InsertionSort(tagged[..|tagged| - 1]), tagged[|tagged| - 1])
  }

  /** The samples in configured order: a stable sort by position. */
  function ByPosition(samples: seq<Sample>, configured: seq<string>): seq<Observed> {
    InsertionSort(Tagged(samples, configured))
  }

  predicate SortedByPosition(s: seq<Observed>) {
    forall i, j | 0 <= i < j < |s| :: s[i].pos <= s[j].pos
  }

  lemma {:induction false} InsertAdds(sorted: seq<Observed>, x: Observed)
    ensures multiset(Insert(sorted, x)) == multiset(sorted) + multiset{x}
  {
    if sorted != [] && sorted[|sorted| - 1].pos > x.pos {
      InsertAdds(sorted[..|sorted| - 1], x);
      assert sorted == sorted[..|sorted| - 1] + [sorted[|sorted| - 1]];
    }
  }

  lemma {:induction false} InsertMember(sorted: seq<Observed>, x: Observed, i: nat)
    requires i < |Insert(sorted, x)|
    ensures Insert(sorted, x)[i] == x || exists k | 0 <= k < |sorted| :: sorted[k] == Insert(sorted, x)[i]
  {
    if sorted != [] && sorted[|sorted| - 1].pos > x.pos {
      var front := sorted[..|sorted| - 1];
      if i < |Insert(front, x)| {
        InsertMember(front, x, i);
        assert forall k | 0 <= k < |front| :: front[k] == sorted[k];
      }
    }
  }

  lemma {:induction false} InsertSorts(sorted: seq<Observed>, x: Observed)
    requires SortedByPosition(sorted)
    ensures SortedByPosition(Insert(sorted, x))
  {
    if sorted != [] && sorted[|sorted| - 1].pos > x.pos {
      var front, last := sorted[..|sorted| - 1], sorted[|sorted| - 1];
      InsertSorts(front, x);
      forall i | 0 <= i < |Insert(front, x)| ensures Insert(front, x)[i].pos <= last.pos {
        InsertMember(front, x, i);
      }
    }
  }

  lemma {:induction false} InsertPlaces(sorted: seq<Observed>, x: Observed) returns (at: nat)
    ensures at <= |sorted|
    ensures Insert(sorted, x) == sorted[..at] + [x] + sorted[at..]
  {
    at := |sorted|;
    if sorted != [] && sorted[|sorted| - 1].pos > x.pos {
      var front, last := sorted[..|sorted| - 1], sorted[|sorted| - 1];
      at := InsertPlaces(front, x);
      assert sorted == front + [last];
      assert sorted[..at] == front[..at];
      assert sorted[at..] == front[at..] + [last];
    }
  }

  lemma {:induction false} SortPlaces(tagged: seq<Observed>) returns (places: seq<nat>)
    ensures IsPermutation(places, |tagged|) && |InsertionSort(tagged)| == |tagged|
    ensures forall j | 0 <= j < |tagged| :: places[j] < |tagged| && InsertionSort(tagged)[j] == tagged[places[j]]
  {
    places := [];
    if tagged != [] {
      var n := |tagged| - 1;
      var earlier := SortPlaces(tagged[..n]);
      var at := InsertPlaces(InsertionSort(tagged[..n]), tagged[n]);
      places := InsertPlace(earlier, at, n);
    }
  }

  lemma {:induction false} InsertPlace(earlier: seq<nat>, at: nat, n: nat) returns (places: seq<nat>)
    requires at <= n && IsPermutation(earlier, n)
    ensures IsPermutation(places, n + 1)
    ensures places == earlier[..at] + [n] + earlier[at..]
  {
    places := earlier[..at] + [n] + earlier[at..];
    assert earlier == earlier[..at] + earlier[at..];
    assert forall k: nat :: k in places <==> k in earlier || k == n;
    assert n !in earlier;
  }

  function Models(ranked: seq<Observed>): (models: seq<string>)
    ensures |models| == |ranked|
    ensures forall i | 0 <= i < |ranked| :: models[i] == ranked[i].model
  {
    seq(|ranked|, i requires 0 <= i < |ranked| => ranked[i].model)
  }

  lemma {:induction false} SortSorts(tagged: seq<Observed>)
    ensures SortedByPosition(InsertionSort(tagged))
    ensures multiset(InsertionSort(tagged)) == multiset(tagged)
  {
    if tagged != [] {
      var front, last := tagged[..|tagged| - 1], tagged[|tagged| - 1];
      assert tagged == front + [last];
      SortSorts(front);
      InsertSorts(InsertionSort(front), last);
      InsertAdds(InsertionSort(front), last);
    }
  }

  lemma Cancel<T>(x: T, a: multiset<T>, b: multiset<T>)
    requires multiset{x} + a == multiset{x} + b
    ensures a == b
  {
    assert (multiset{x} + a) - multiset{x} == a;
  }

  lemma {:induction false} FindMember<T>(a: seq<T>, b: seq<T>) returns (k: nat)
    requires a != [] && multiset(a) == multiset(b)
    ensures k < |b| && b[k] == a[|a| - 1]
  {
    assert a[|a| - 1] in multiset(b);
    k :| 0 <= k < |b| && b[k] == a[|a| - 1];
  }

  /** A rearrangement of the models is a rearrangement of their names. */
  lemma {:induction false} SameModels(a: seq<Observed>, b: seq<Observed>)
    requires multiset(a) == multiset(b)
    ensures multiset(Models(a)) == multiset(Models(b))
  {
    if a == [] {
      assert |multiset(b)| == 0;
    } else {
      var n := |a| - 1;
      var k := FindMember(a, b);
      WithoutMultiset(a, n);
      WithoutMultiset(b, k);
      Cancel(a[n], multiset(Without(a, n)), multiset(Without(b, k)));
      SameModels(Without(a, n), Without(b, k));
      ModelsWithout(a, n);
      ModelsWithout(b, k);
    }
  }

  lemma {:induction false} ModelsWithout(s: seq<Observed>, c: nat)
    requires c < |s|
    ensures multiset(Models(s)) == multiset{s[c].model} + multiset(Models(Without(s, c)))
  {
    ModelsOfRest(s, c);
    WithoutMultiset(Models(s), c);
  }

  lemma {:induction false} ModelsOfRest(s: seq<Observed>, c: nat)
    requires c < |s|
    ensures Models(Without(s, c)) == Without(Models(s), c)
  {
    var rest, names := Models(Without(s, c)), Without(Models(s), c);
    forall k | 0 <= k < |rest| ensures rest[k] == names[k] {
    }
  }

  // ----- the ranking method -----

  method PickNext(remaining: seq<Observed>, stickiness: real) returns (promotedIdx: nat)
    requires remaining != []
    ensures promotedIdx == Pick(remaining, stickiness)
  {
    var headP95 := remaining[0].p95;
    promotedIdx := 0;
    for idx := 1 to |remaining|
      invariant promotedIdx < |remaining| && headP95 == remaining[promotedIdx].p95
      invariant Pick(remaining, stickiness) == Scan(remaining, stickiness, promotedIdx, idx)
    {
      var candP95 := remaining[idx].p95;
      if candP95 > 0.0 && headP95 >= candP95 * stickiness {
        headP95 := candP95;
        promotedIdx := idx;
      }
    }
  }

  lemma {:induction false} RankedNames(samples: seq<Sample>, configured: seq<string>, s: real)
    ensures multiset(Models(Rank(ByPosition(samples, configured), s)))
         == multiset(Models(Tagged(samples, configured)))
  {
    SortSorts(Tagged(samples, configured));
    RankPermutes(ByPosition(samples, configured), s);
    SameModels(Rank(ByPosition(samples, configured), s), Tagged(samples, configured));
  }

  method RankWithStickiness(observed: seq<Sample>, configured: seq<string>, stickiness: real)
    returns (models: seq<string>)
    requires forall o <- observed :: o.model in configured
    ensures models == Models(Rank(ByPosition(observed, configured), stickiness))
    ensures multiset(models) == multiset(Models(Tagged(observed, configured)))
  {
    var byPosition := ByPosition(observed, configured);
    var result: seq<Observed> := [];
    var remaining := byPosition;
    while remaining != []
      invariant result + Rank(remaining, stickiness) == Rank(byPosition, stickiness)
      decreases |remaining|
    {
      var promotedIdx := PickNext(remaining, stickiness);
      result := result + [remaining[promotedIdx]];
      remaining := Without(remaining, promotedIdx);
    }
    assert result == Rank(byPosition, stickiness);
    models := Models(result);
    RankedNames(observed, configured, stickiness);
  }

  // ----- distinct models give distinct positions -----

  predicate DistinctModels(samples: seq<Sample>) {
    forall i, j | 0 <= i < j < |samples| :: samples[i].model != samples[j].model
  }

  lemma {:induction false} InsertKeepsStrict(sorted: seq<Observed>, x: Observed)
    requires InConfiguredOrder(sorted)
    requires forall i | 0 <= i < |sorted| :: sorted[i].pos != x.pos
    ensures InConfiguredOrder(Insert(sorted, x))
  {
    if sorted != [] && sorted[|sorted| - 1].pos > x.pos {
      var front, last := sorted[..|sorted| - 1], sorted[|sorted| - 1];
      InsertKeepsStrict(front, x);
      forall i | 0 <= i < |Insert(front, x)| ensures Insert(front, x)[i].pos < last.pos {
        InsertMember(front, x, i);
      }
    }
  }

  lemma {:induction false} SortMember(tagged: seq<Observed>, i: nat)
    requires i < |InsertionSort(tagged)|
    ensures exists k | 0 <= k < |tagged| :: tagged[k] == InsertionSort(tagged)[i]
  {
    var front, last := tagged[..|tagged| - 1], tagged[|tagged| - 1];
    InsertMember(InsertionSort(front), last, i);
    if InsertionSort(tagged)[i] != last {
      var j :| 0 <= j < |InsertionSort(front)| && InsertionSort(front)[j] == InsertionSort(tagged)[i];
      SortMember(front, j);
      var k :| 0 <= k < |front| && front[k] == InsertionSort(front)[j];
      assert tagged[k] == InsertionSort(tagged)[i];
    }
  }

  lemma {:induction false} DistinctTagsSort(tagged: seq<Observed>)
    requires forall i, j | 0 <= i < j < |tagged| :: tagged[i].pos != tagged[j].pos
    ensures InConfiguredOrder(InsertionSort(tagged))
  {
    if tagged != [] {
      var front, last := tagged[..|tagged| - 1], tagged[|tagged| - 1];
      DistinctTagsSort(front);
      forall i | 0 <= i < |InsertionSort(front)| ensures InsertionSort(front)[i].pos != last.pos {
        SortMember(front, i);
      }
      InsertKeepsStrict(InsertionSort(front), last);
    }
  }

  /** What the ranking theorems ask of their input holds for distinct configured models. */
  lemma {:induction false} DistinctModelsAreOrdered(samples: seq<Sample>, configured: seq<string>)
    requires forall o <- samples :: o.model in configured
    requires DistinctModels(samples)
    ensures InConfiguredOrder(ByPosition(samples, configured))
    ensures multiset(ByPosition(samples, configured)) == multiset(Tagged(samples, configured))
  {
    SortSorts(Tagged(samples, configured));
    DistinctTagsSort(Tagged(samples, configured));
  }

  // ----- the whole order, with cached latency lookups -----

  datatype LatencyStats = LatencyStats(p95: Option<real>, sampleCount: int) {
    predicate Sufficient() {
      sampleCount >= 10 && p95.Some?
    }
  }

  type Cache = map<string, (real, LatencyStats)>

  /** The clock readings and repository answers the k-th lookup meets; None is a
      repository exception. */
  datatype World = World(clock: nat -> real, fetch: (nat, string) -> Option<LatencyStats>)

  function LookUp(cache: Cache, model: string, ttl: real, now: real, fetched: Option<LatencyStats>)
    : (Cache, Option<LatencyStats>)
  {
    if model in cache && ttl > 0.0 && now - cache[model].0 < ttl then (cache, Some(cache[model].1))
    else match fetched
      case Some(stats) => (cache[model := (now, stats)], fetched)
      case None => (cache, None)
  }

  /** The statistics of all models in turn, or None from the first exception on. */
  function Gather(cache: Cache, models: seq<string>, ttl: real, w: World): (r: (Cache, Option<seq<LatencyStats>>))
    ensures r.1.Some? ==> |r.1.value| == |models|
  {
    if models == [] then (cache, Some([]))
    else
      var k := |models| - 1;
      var (cache', earlier) := Gather(cache, models[..k], ttl, w);
      if earlier.None? then (cache', None)
      else
        var (cache'', stats) := LookUp(cache', models[k], ttl, w.clock(k), w.fetch(k, models[k]));
        (cache'', if stats.None? then None else Some(earlier.value + [stats.value]))
  }

  function NonPrimary(fallbacks: seq<string>, primary: string): seq<string> {
    if fallbacks == [] then []
    else
      var last := fallbacks[|fallbacks| - 1];
      NonPrimary(fallbacks[..|fallbacks| - 1], primary) + (if last != primary then [last] else [])
  }

  /** The fallbacks that are not the primary, in their places. */
  lemma {:induction false} NonPrimaryPlaces(fallbacks: seq<string>, primary: string) returns (places: seq<nat>)
    ensures Increasing(places) && forall i: nat :: i in places <==> i < |fallbacks| && fallbacks[i] != primary
    ensures |NonPrimary(fallbacks, primary)| == |places|
    ensures forall j | 0 <= j < |places| ::
      places[j] < |fallbacks| && NonPrimary(fallbacks, primary)[j] == fallbacks[places[j]]
  {
    places := [];
    if fallbacks != [] {
      var n := |fallbacks| - 1;
      places := NonPrimaryPlaces(fallbacks[..n], primary);
      if fallbacks[n] != primary {
        places := places + [n];
      }
    }
  }

  /** A cached entry no older than the time to live allows. */
  predicate HasFresh(cache: Cache, model: string, ttl: real, now: real) {
    model in cache && ttl > 0.0 && now - cache[model].0 < ttl
  }

  /** A fresh entry is used and nothing changes, otherwise the repository's answer is stored
      with the time. */
  predicate Answered(
    before: Cache, after: Cache, model: string, ttl: real, now: real, fetched: Option<LatencyStats>)
  {
    if HasFresh(before, model, ttl, now) then after == before
    else fetched.Some? && after == before[model := (now, fetched.value)]
  }

  /** One answered lookup after the other, from the given cache on. */
  predicate IsTrace(caches: seq<Cache>, cache: Cache, models: seq<string>, ttl: real, w: World) {
    && 0 < |caches| <= |models| + 1 && caches[0] == cache
    && forall k | 0 <= k < |caches| - 1 ::
         Answered(caches[k], caches[k + 1], models[k], ttl, w.clock(k), w.fetch(k, models[k]))
  }

  lemma {:induction false} TraceExtends(
    caches: seq<Cache>, cache: Cache, models: seq<string>, ttl: real, w: World, next: Cache)
    requires models != [] && IsTrace(caches, cache, models[..|models| - 1], ttl, w)
    ensures IsTrace(caches, cache, models, ttl, w)
    ensures var n := |models| - 1;
      |caches| == n + 1 && Answered(caches[n], next, models[n], ttl, w.clock(n), w.fetch(n, models[n])) ==>
        IsTrace(caches + [next], cache, models, ttl, w)
  {
    var front := models[..|models| - 1];
    assert forall k | 0 <= k < |front| :: front[k] == models[k];
  }

  /** The statistics on record right after each lookup. */
  predicate OnRecord(stats: seq<LatencyStats>, caches: seq<Cache>, models: seq<string>) {
    && |stats| == |models| && |caches| == |models| + 1
    && forall k | 0 <= k < |models| :: models[k] in caches[k + 1] && stats[k] == caches[k + 1][models[k]].1
  }

  lemma {:induction false} OnRecordExtends(
    stats: seq<LatencyStats>, caches: seq<Cache>, models: seq<string>, next: Cache, found: LatencyStats)
    requires models != [] && OnRecord(stats, caches, models[..|models| - 1])
    requires models[|models| - 1] in next && found == next[models[|models| - 1]].1
    ensures OnRecord(stats + [found], caches + [next], models)
  {
    var front := models[..|models| - 1];
    assert forall k | 0 <= k < |front| :: front[k] == models[k];
  }

  /** Lookup by lookup: the gathering stops at the first question that fails; without one, the
      statistics are those then on record. */
  lemma {:induction false} GatherTrace(cache: Cache, models: seq<string>, ttl: real, w: World)
    returns (caches: seq<Cache>)
    ensures IsTrace(caches, cache, models, ttl, w)
    ensures Gather(cache, models, ttl, w).0 == caches[|caches| - 1]
    ensures match Gather(cache, models, ttl, w).1
      case Some(stats) => OnRecord(stats, caches, models)
      case None =>
        var k := |caches| - 1;
        k < |models| && !HasFresh(caches[k], models[k], ttl, w.clock(k)) && w.fetch(k, models[k]).None?
  {
    caches := [cache];
    if models != [] {
      var n := |models| - 1;
      caches := GatherTrace(cache, models[..n], ttl, w);
      var (after, stats) := Gather(cache, models[..n], ttl, w);
      var (next, found) := LookUp(after, models[n], ttl, w.clock(n), w.fetch(n, models[n]));
      LookUpAnswers(after, models[n], ttl, w.clock(n), w.fetch(n, models[n]));
      TraceExtends(caches, cache, models, ttl, w, next);
      if stats.Some? && found.Some? {
        OnRecordExtends(stats.value, caches, models, next, found.value);
        caches := caches + [next];
      }
    }
  }

  lemma LookUpAnswers(cache: Cache, model: string, ttl: real, now: real, fetched: Option<LatencyStats>)
    ensures var (next, found) := LookUp(cache, model, ttl, now, fetched);
      if found.Some? then
        Answered(cache, next, model, ttl, now, fetched) && model in next && found.value == next[model].1
      else
        !HasFresh(cache, model, ttl, now) && fetched.None? && next == cache
  {}

  function ObservedOnes(models: seq<string>, stats: seq<LatencyStats>): seq<Sample>
    requires |models| == |stats|
  {
    if models == [] then []
    else
      var k := |models| - 1;
      ObservedOnes(models[..k], stats[..k])
        + (if stats[k].Sufficient() then [Sample(models[k], stats[k].p95.value)] else [])
  }

  lemma {:induction false} ObservedAreCandidates(models: seq<string>, stats: seq<LatencyStats>)
    requires |models| == |stats|
    ensures forall o <- ObservedOnes(models, stats) :: o.model in models
  {
    if models != [] {
      ObservedAreCandidates(models[..|models| - 1], stats[..|models| - 1]);
    }
  }

  function ColdOnes(models: seq<string>, stats: seq<LatencyStats>): seq<string>
    requires |models| == |stats|
  {
    if models == [] then []
    else
      var k := |models| - 1;
      ColdOnes(models[..k], stats[..k]) + (if stats[k].Sufficient() then [] else [models[k]])
  }

  lemma {:induction false} TaggedSnoc(samples: seq<Sample>, x: Sample, configured: seq<string>)
    ensures Models(Tagged(samples + [x], configured)) == Models(Tagged(samples, configured)) + [x.model]
  {}

  /** One more element goes to one of the two parts. */
  lemma {:induction false} SplitGrows(
    a: seq<string>, b: seq<string>, all: seq<string>, a': seq<string>, b': seq<string>, all': seq<string>, x: string)
    requires multiset(a) + multiset(b) == multiset(all) && all' == all + [x]
    requires (a' == a + [x] && b' == b) || (a' == a && b' == b + [x])
    ensures multiset(a') + multiset(b') == multiset(all')
  {
    var one := multiset{x};
    assert (multiset(a) + one) + multiset(b) == (multiset(a) + multiset(b)) + one;
    assert multiset(a) + (multiset(b) + one) == (multiset(a) + multiset(b)) + one;
  }

  function ObservedNames(models: seq<string>, stats: seq<LatencyStats>, configured: seq<string>): seq<string>
    requires |models| == |stats|
  {
    Models(Tagged(ObservedOnes(models, stats), configured))
  }

  lemma {:induction false} LastSplits(models: seq<string>, stats: seq<LatencyStats>, configured: seq<string>, k: nat)
    requires |models| == |stats| == k + 1
    ensures models == models[..k] + [models[k]]
    ensures var names, cold := ObservedNames(models[..k], stats[..k], configured), ColdOnes(models[..k], stats[..k]);
      if stats[k].Sufficient()
      then ObservedNames(models, stats, configured) == names + [models[k]] && ColdOnes(models, stats) == cold
      else ObservedNames(models, stats, configured) == names && ColdOnes(models, stats) == cold + [models[k]]
  {
    var earlier, cold := ObservedOnes(models[..k], stats[..k]), ColdOnes(models[..k], stats[..k]);
    if stats[k].Sufficient() {
      TaggedSnoc(earlier, Sample(models[k], stats[k].p95.value), configured);
      assert ColdOnes(models, stats) == cold;
    } else {
      assert ObservedOnes(models, stats) == earlier;
    }
  }

  lemma {:induction false} ObservedAndColdCoverAll(
    models: seq<string>, stats: seq<LatencyStats>, configured: seq<string>)
    requires |models| == |stats|
    ensures multiset(ObservedNames(models, stats, configured)) + multiset(ColdOnes(models, stats)) == multiset(models)
  {
    if models != [] {
      var k := |models| - 1;
      ObservedAndColdCoverAll(models[..k], stats[..k], configured);
      LastSplits(models, stats, configured, k);
      SplitGrows(ObservedNames(models[..k], stats[..k], configured), ColdOnes(models[..k], stats[..k]), models[..k],
                 ObservedNames(models, stats, configured), ColdOnes(models, stats), models, models[k]);
    }
  }

  lemma {:induction false} ObservedPlaces(models: seq<string>, stats: seq<LatencyStats>) returns (warm: seq<nat>)
    requires |models| == |stats|
    ensures Increasing(warm) && forall i: nat :: i in warm <==> i < |stats| && stats[i].Sufficient()
    ensures |ObservedOnes(models, stats)| == |warm|
    ensures forall j | 0 <= j < |warm| ::
      && warm[j] < |models| && stats[warm[j]].Sufficient()
      && ObservedOnes(models, stats)[j] == Sample(models[warm[j]], stats[warm[j]].p95.value)
  {
    warm := [];
    if models != [] {
      var k := |models| - 1;
      warm := ObservedPlaces(models[..k], stats[..k]);
      if stats[k].Sufficient() {
        warm := warm + [k];
      }
    }
  }

  lemma {:induction false} ColdPlaces(models: seq<string>, stats: seq<LatencyStats>) returns (cold: seq<nat>)
    requires |models| == |stats|
    ensures Increasing(cold) && forall i: nat :: i in cold <==> i < |stats| && !stats[i].Sufficient()
    ensures |ColdOnes(models, stats)| == |cold|
    ensures forall j | 0 <= j < |cold| :: cold[j] < |models| && ColdOnes(models, stats)[j] == models[cold[j]]
  {
    cold := [];
    if models != [] {
      var k := |models| - 1;
      cold := ColdPlaces(models[..k], stats[..k]);
      if !stats[k].Sufficient() {
        cold := cold + [k];
      }
    }
  }

  /** The order that the gathered statistics lead to. */
  function OrderFrom(primary: string, candidates: seq<string>, stats: Option<seq<LatencyStats>>, s: real)
    : seq<string>
    requires stats.Some? ==> |stats.value| == |candidates|
  {
    if stats.None? then [primary] + candidates
    else
      [primary]
        + Models(Rank(ByPosition(ObservedOnes(candidates, stats.value), candidates), s))
        + ColdOnes(candidates, stats.value)
  }

  function At(places: seq<nat>, order: seq<nat>): (r: seq<nat>)
    requires forall j | 0 <= j < |order| :: order[j] < |places|
    ensures |r| == |order| && forall j | 0 <= j < |order| :: r[j] == places[order[j]]
  {
    seq(|order|, j requires 0 <= j < |order| => places[order[j]])
  }

  lemma {:induction false} PermutedPlaces(places: seq<nat>, order: seq<nat>) returns (r: seq<nat>)
    requires NoRepeats(places) && IsPermutation(order, |places|)
    ensures NoRepeats(r) && forall i :: i in r <==> i in places
    ensures |r| == |places| && forall j | 0 <= j < |r| :: order[j] < |places| && r[j] == places[order[j]]
  {
    forall j | 0 <= j < |order| ensures order[j] < |places| {
      PlaceBelow(order, |places|, j);
    }
    r := At(places, order);
    forall i | i in places ensures i in r {
      var k :| 0 <= k < |places| && places[k] == i;
      assert k in order;
      var j :| 0 <= j < |order| && order[j] == k;
      assert r[j] == i;
    }
  }

  /** These models, with these latencies, at these positions among the candidates. */
  ghost predicate StandFor(
    observed: seq<Observed>, places: seq<nat>, candidates: seq<string>, stats: seq<LatencyStats>)
    requires |candidates| == |stats|
  {
    && NoRepeats(places) && (forall i: nat :: i in places <==> i < |stats| && stats[i].Sufficient())
    && |observed| == |places|
    && forall j | 0 <= j < |places| ::
         && places[j] < |candidates| && stats[places[j]].Sufficient()
         && observed[j].model == candidates[places[j]] && observed[j].p95 == stats[places[j]].p95.value
         && observed[j].pos == LastIndex(candidates, candidates[places[j]])
  }

  lemma {:induction false} Permuted(
    before: seq<Observed>, after: seq<Observed>, places: seq<nat>, order: seq<nat>, candidates: seq<string>,
    stats: seq<LatencyStats>) returns (r: seq<nat>)
    requires |candidates| == |stats| && StandFor(before, places, candidates, stats)
    requires |after| == |before| && IsPermutation(order, |before|)
    requires forall j | 0 <= j < |before| :: order[j] < |before| && after[j] == before[order[j]]
    ensures StandFor(after, r, candidates, stats)
  {
    r := PermutedPlaces(places, order);
  }

  /** The observed models as ranked, by their positions among the candidates. */
  lemma {:induction false} WarmPlaces(candidates: seq<string>, stats: seq<LatencyStats>, s: real)
    returns (warm: seq<nat>)
    requires |candidates| == |stats|
    ensures StandFor(Rank(ByPosition(ObservedOnes(candidates, stats), candidates), s), warm, candidates, stats)
  {
    var places := ObservedPlaces(candidates, stats);
    var tagged := Tagged(ObservedOnes(candidates, stats), candidates);
    assert StandFor(tagged, places, candidates, stats);
    var sorted := SortPlaces(tagged);
    var ranked := RankPlaces(InsertionSort(tagged), s);
    var placesSorted := Permuted(tagged, InsertionSort(tagged), places, sorted, candidates, stats);
    warm := Permuted(InsertionSort(tagged), Rank(InsertionSort(tagged), s), placesSorted, ranked, candidates, stats);
  }

  /** Statistics that decide: a latency from ten samples or more. */
  predicate Decides(stats: LatencyStats) {
    stats.p95.Some? && stats.sampleCount >= 10
  }

  /** The order with statistics: first the candidates at the positions `warm`, those whose
      statistics decide, none of them at least s times faster than one before it; then those
      at the positions `cold`, all others as configured. */
  ghost predicate Arranged(
    order: seq<string>, candidates: seq<string>, stats: seq<LatencyStats>, warm: seq<nat>, cold: seq<nat>, s: real)
  {
    && |stats| == |candidates| && |order| == 1 + |warm| + |cold|
    && NoRepeats(warm) && (forall i: nat :: i in warm <==> i < |stats| && Decides(stats[i]))
    && Increasing(cold) && (forall i: nat :: i in cold <==> i < |stats| && !Decides(stats[i]))
    && (forall j | 0 <= j < |warm| :: warm[j] < |candidates| && order[1 + j] == candidates[warm[j]])
    && (forall j | 0 <= j < |cold| :: cold[j] < |candidates| && order[1 + |warm| + j] == candidates[cold[j]])
    && (s > 1.0 ==> forall j, k | 0 <= j < k < |warm| ::
          !FasterBy(stats[warm[k]], stats[warm[j]], s))
    && (s >= 1.0 && NoRepeats(candidates) ==> Sticky(stats, warm, s))
  }

  /** Of the positions from place i on, that at place k is the earliest configured. */
  ghost predicate EarliestFrom(warm: seq<nat>, i: nat, k: nat) {
    i <= k < |warm| && forall m | i <= m < |warm| :: warm[k] <= warm[m]
  }

  /** The position e explains why x goes before y: x beats it by the factor and, unless it is y
      itself, it stands before y and y does not. */
  ghost predicate Explains(stats: seq<LatencyStats>, e: nat, x: nat, y: nat, s: real)
    requires x < |stats| && y < |stats|
  {
    && e <= y && FasterBy(stats[x], stats[e], s)
    && (e == y || !FasterBy(stats[y], stats[e], s))
  }

  /** Configured order gives way only for a reason: next comes the earliest configured model
      still waiting or one that beats it by the factor, and every reversed pair is explained. */
  ghost predicate Sticky(stats: seq<LatencyStats>, warm: seq<nat>, s: real)
    requires forall j | 0 <= j < |warm| :: warm[j] < |stats|
  {
    && (forall i, k | 0 <= i < k && EarliestFrom(warm, i, k) :: FasterBy(stats[warm[i]], stats[warm[k]], s))
    && forall i, j | 0 <= i < j < |warm| && warm[j] < warm[i] ::
         exists e | e in warm :: Explains(stats, e, warm[i], warm[j], s)
  }

  predicate FasterBy(y: LatencyStats, x: LatencyStats, s: real) {
    y.p95.Some? && x.p95.Some? && y.p95.value > 0.0 && x.p95.value >= y.p95.value * s
  }

  /** Primary first, then exactly the candidates with their multiplicities. */
  lemma {:induction false} OrderRearranges(
    primary: string, candidates: seq<string>, stats: Option<seq<LatencyStats>>, s: real)
    requires stats.Some? ==> |stats.value| == |candidates|
    ensures var order := OrderFrom(primary, candidates, stats, s);
            order != [] && order[0] == primary && multiset(order[1..]) == multiset(candidates)
  {
    var order := OrderFrom(primary, candidates, stats, s);
    if stats.None? {
      assert order[1..] == candidates;
    } else {
      var samples, cold := ObservedOnes(candidates, stats.value), ColdOnes(candidates, stats.value);
      var ranked := Models(Rank(ByPosition(samples, candidates), s));
      assert order[1..] == ranked + cold;
      RankedAndCold(candidates, stats.value, s);
    }
  }

  lemma {:induction false} RankedAndCold(candidates: seq<string>, stats: seq<LatencyStats>, s: real)
    requires |stats| == |candidates|
    ensures var ranked := Models(Rank(ByPosition(ObservedOnes(candidates, stats), candidates), s));
            multiset(ranked + ColdOnes(candidates, stats)) == multiset(candidates)
  {
    RankedNames(ObservedOnes(candidates, stats), candidates, s);
    ObservedAndColdCoverAll(candidates, stats, candidates);
  }

  /** Which candidate stands where in the order. */
  lemma {:induction false} OrderPlaces(
    primary: string, candidates: seq<string>, gathered: Option<seq<LatencyStats>>, s: real)
    returns (warm: seq<nat>, cold: seq<nat>)
    requires gathered.Some? ==> |gathered.value| == |candidates|
    ensures var order := OrderFrom(primary, candidates, gathered, s);
      if gathered.None? then order[1..] == candidates
      else Arranged(order, candidates, gathered.value, warm, cold, s)
  {
    warm, cold := [], [];
    if gathered.Some? {
      var stats := gathered.value;
      var ranked := Rank(ByPosition(ObservedOnes(candidates, stats), candidates), s);
      warm := WarmPlaces(candidates, stats, s);
      cold := ColdPlaces(candidates, stats);
      if s > 1.0 {
        NoneFasterLater(candidates, stats, warm, s);
      }
      if s >= 1.0 && NoRepeats(candidates) {
        WarmIsSticky(candidates, stats, warm, s);
      }
      LaidOut(primary, Models(ranked), ColdOnes(candidates, stats), candidates, stats, warm, cold, s);
      assert OrderFrom(primary, candidates, gathered, s)
          == [primary] + Models(ranked) + ColdOnes(candidates, stats);
    }
  }

  lemma {:induction false} LaidOut(
    primary: string, ranked: seq<string>, rest: seq<string>, candidates: seq<string>, stats: seq<LatencyStats>,
    warm: seq<nat>, cold: seq<nat>, s: real)
    requires |stats| == |candidates| && |ranked| == |warm| && |rest| == |cold|
    requires NoRepeats(warm) && forall i: nat :: i in warm <==> i < |stats| && Decides(stats[i])
    requires Increasing(cold) && forall i: nat :: i in cold <==> i < |stats| && !Decides(stats[i])
    requires forall j | 0 <= j < |warm| :: warm[j] < |candidates| && ranked[j] == candidates[warm[j]]
    requires forall j | 0 <= j < |cold| :: cold[j] < |candidates| && rest[j] == candidates[cold[j]]
    requires s > 1.0 ==> forall j, k | 0 <= j < k < |warm| :: !FasterBy(stats[warm[k]], stats[warm[j]], s)
    requires s >= 1.0 && NoRepeats(candidates) ==> Sticky(stats, warm, s)
    ensures Arranged([primary] + ranked + rest, candidates, stats, warm, cold, s)
  {
    var order := [primary] + ranked + rest;
    assert forall j | 0 <= j < |ranked| :: order[1 + j] == ranked[j];
    assert forall j | 0 <= j < |rest| :: order[1 + |ranked| + j] == rest[j];
  }

  lemma {:induction false} NoneFasterLater(
    candidates: seq<string>, stats: seq<LatencyStats>, warm: seq<nat>, s: real)
    requires |stats| == |candidates| && s > 1.0
    requires StandFor(Rank(ByPosition(ObservedOnes(candidates, stats), candidates), s), warm, candidates, stats)
    ensures forall j, k | 0 <= j < k < |warm| :: !FasterBy(stats[warm[k]], stats[warm[j]], s)
  {
    var ranked := Rank(ByPosition(ObservedOnes(candidates, stats), candidates), s);
    FasterGoesFirst(ByPosition(ObservedOnes(candidates, stats), candidates), s);
    forall j, k | 0 <= j < k < |warm| ensures !FasterBy(stats[warm[k]], stats[warm[j]], s) {
      assert !Overtakes(ranked[k], ranked[j], s);
    }
  }

  lemma {:induction false} ObservedAreDistinct(candidates: seq<string>, stats: seq<LatencyStats>)
    requires |candidates| == |stats| && NoRepeats(candidates)
    ensures InConfiguredOrder(ByPosition(ObservedOnes(candidates, stats), candidates))
  {
    var samples := ObservedOnes(candidates, stats);
    var places := ObservedPlaces(candidates, stats);
    ObservedAreCandidates(candidates, stats);
    assert DistinctModels(samples);
    DistinctModelsAreOrdered(samples, candidates);
  }

  /** With distinct candidates an observed model's position is its place among them. */
  lemma {:induction false} PositionIsPlace(
    ranked: seq<Observed>, warm: seq<nat>, candidates: seq<string>, stats: seq<LatencyStats>)
    requires |candidates| == |stats| && NoRepeats(candidates) && StandFor(ranked, warm, candidates, stats)
    ensures forall j | 0 <= j < |warm| :: ranked[j].pos == warm[j]
  {}

  lemma {:induction false} WarmIsSticky(
    candidates: seq<string>, stats: seq<LatencyStats>, warm: seq<nat>, s: real)
    requires |stats| == |candidates| && s >= 1.0 && NoRepeats(candidates)
    requires StandFor(Rank(ByPosition(ObservedOnes(candidates, stats), candidates), s), warm, candidates, stats)
    ensures Sticky(stats, warm, s)
  {
    var rem := ByPosition(ObservedOnes(candidates, stats), candidates);
    var ranked := Rank(rem, s);
    ObservedAreDistinct(candidates, stats);
    PositionIsPlace(ranked, warm, candidates, stats);
    forall i, k | 0 <= i < k && EarliestFrom(warm, i, k) ensures FasterBy(stats[warm[i]], stats[warm[k]], s) {
      PromotionsBeatTheEarliest(rem, s, i, k);
    }
    forall i, j | 0 <= i < j < |warm| && warm[j] < warm[i]
      ensures exists e | e in warm :: Explains(stats, e, warm[i], warm[j], s)
    {
      var e := ReversalExplained(rem, s, warm, stats, candidates, i, j);
    }
  }

  lemma {:induction false} ReversalExplained(
    rem: seq<Observed>, s: real, warm: seq<nat>, stats: seq<LatencyStats>, candidates: seq<string>, i: nat, j: nat)
    returns (e: nat)
    requires s >= 1.0 && InConfiguredOrder(rem) && i < j < |rem| == |warm| && |candidates| == |stats|
    requires StandFor(Rank(rem, s), warm, candidates, stats)
    requires forall m | 0 <= m < |warm| :: Rank(rem, s)[m].pos == warm[m]
    requires warm[j] < warm[i]
    ensures e in warm && Explains(stats, e, warm[i], warm[j], s)
  {
    var h := Reversal(rem, s, i, j);
    var p := RankedAt(rem, s, h);
    e := warm[p];
    assert Rank(rem, s)[p] == rem[h];
  }

  class Orderer {
    const hasRepo: bool
    const stickiness: real
    const ttl: real
    var cache: Cache

    constructor (hasRepo: bool, stickiness: real, ttl: real)
      ensures this.hasRepo == hasRepo && this.stickiness == stickiness && this.ttl == ttl && cache == map[]
    {
      this.hasRepo, this.stickiness, this.ttl, cache := hasRepo, stickiness, ttl, map[];
    }

    method Lookup(model: string, now: real, fetched: Option<LatencyStats>) returns (stats: Option<LatencyStats>)
      modifies this
      ensures (cache, stats) == LookUp(old(cache), model, ttl, now, fetched)
    {
      if model in cache {
        var (stamp, known) := cache[model];
        if ttl > 0.0 && now - stamp < ttl {
          return Some(known);
        }
      }
      if fetched.Some? {
        cache := cache[model := (now, fetched.value)];
      }
      return fetched;
    }

    /** The primary comes first and the rest is a rearrangement of the other fallbacks. With
        statistics, the candidates at the positions `warm`, those with ten samples and a
        latency, none of them at least the stickiness factor faster than one before it and none
        moved ahead without reason; then those at the positions `cold`, all others as
        configured. Without, all as configured. */
    method Order(primary: string, fallbacks: seq<string>, w: World)
      returns (order: seq<string>, ghost warm: seq<nat>, ghost cold: seq<nat>)
      modifies this
      ensures var candidates := NonPrimary(fallbacks, primary);
        var stats := if hasRepo then Gather(old(cache), candidates, ttl, w).1 else None;
        order == OrderFrom(primary, candidates, stats, stickiness)
      ensures order != [] && order[0] == primary
      ensures multiset(order[1..]) == multiset(NonPrimary(fallbacks, primary))
      ensures var candidates := NonPrimary(fallbacks, primary);
        var gathered := if hasRepo then Gather(old(cache), candidates, ttl, w).1 else None;
        if gathered.None? then order[1..] == candidates
        else Arranged(order, candidates, gathered.value, warm, cold, stickiness)
    {
      var candidates := Candidates(primary, fallbacks);
      ghost var stats := if hasRepo then Gather(cache, candidates, ttl, w).1 else None;
      OrderRearranges(primary, candidates, stats, stickiness);
      warm, cold := OrderPlaces(primary, candidates, stats, stickiness);
      if !hasRepo || candidates == [] {
        order := [primary] + candidates;
        return;
      }
      var found := LookupAll(candidates, w);
      if found.None? {
        order := [primary] + candidates;
        return;
      }
      ObservedAreCandidates(candidates, stats.value);
      var ranked := RankWithStickiness(found.value.0, candidates, stickiness);
      order := [primary] + ranked + found.value.1;
    }

    /** The lookups split the candidates into observed and cold, or fail as a whole. */
    method LookupAll(candidates: seq<string>, w: World) returns (found: Option<(seq<Sample>, seq<string>)>)
      modifies this
      ensures var stats := Gather(old(cache), candidates, ttl, w).1;
        found == if stats.None? then None
                 else Some((ObservedOnes(candidates, stats.value), ColdOnes(candidates, stats.value)))
    {
      var observed: seq<Sample> := [];
      var cold: seq<string> := [];
      ghost var stats: seq<LatencyStats> := [];
      for k := 0 to |candidates|
        invariant Gather(old(cache), candidates[..k], ttl, w) == (cache, Some(stats))
        invariant |stats| == k
        invariant observed == ObservedOnes(candidates[..k], stats)
        invariant cold == ColdOnes(candidates[..k], stats)
      {
        var model := candidates[k];
        var answer := Lookup(model, w.clock(k), w.fetch(k, model));
        assert candidates[..k + 1][..k] == candidates[..k];
        if answer.None? {
          GatherFails(old(cache), candidates, ttl, w, k + 1);
          return None;
        }
        assert (stats + [answer.value])[..k] == stats;
        stats := stats + [answer.value];
        if answer.value.Sufficient() {
          observed := observed + [Sample(model, answer.value.p95.value)];
        } else {
          cold := cold + [model];
        }
      }
      assert candidates[..|candidates|] == candidates;
      found := Some((observed, cold));
    }

    method Candidates(primary: string, fallbacks: seq<string>) returns (candidates: seq<string>)
      ensures candidates == NonPrimary(fallbacks, primary)
      ensures primary !in candidates
    {
      candidates := [];
      for i := 0 to |fallbacks|
        invariant candidates == NonPrimary(fallbacks[..i], primary)
        invariant primary !in candidates
      {
        assert fallbacks[..i + 1][..i] == fallbacks[..i];
        if fallbacks[i] != primary {
          candidates := candidates + [fallbacks[i]];
        }
      }
      assert fallbacks[..|fallbacks|] == fallbacks;
    }
  }

  /** One failed lookup fails the whole gathering. */
  lemma {:induction false} GatherFails(cache: Cache, models: seq<string>, ttl: real, w: World, k: nat)
    requires k <= |models| && Gather(cache, models[..k], ttl, w).1.None?
    ensures Gather(cache, models, ttl, w).1.None?
    decreases |models|
  {
    if k == |models| {
      assert models[..k] == models;
    } else {
      var front := models[..|models| - 1];
      assert front[..k] == models[..k];
      GatherFails(cache, front, ttl, w, k);
    }
  }
}
