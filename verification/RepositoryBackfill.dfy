/** The paging loop of app/cli/backfill_repository_embeddings.py: pages of eligible rows are
    fetched by increasing id while their processing changes the very table being read. */
module RepositoryBackfill {
  import opened Text

  /** A repository row joined with its embedding's model version, if it has one. */
  datatype Row = Row(id: int, userId: int, version: Option<string>)

  type Table = seq<Row>

  predicate Sorted(t: Table) {
    forall i, j | 0 <= i < j < |t| :: t[i].id < t[j].id
  }

  datatype Query = Query(target: Option<string>, userId: Option<int>)

  /** Missing embedding, or one of another model version when a target is given. */
  predicate Eligible(r: Row, q: Query) {
    && (r.version.None? || (q.target.Some? && r.version != q.target))
    && (q.userId.None? || q.userId == Some(r.userId))
  }

  /** WHERE id > after AND eligible ORDER BY id. */
  function Select(t: Table, q: Query, after: int): seq<Row> {
    if t == [] then []
    else
      var last := t[|t| - 1];
      Select(t[..|t| - 1], q, after) + (if last.id > after && Eligible(last, q) then [last] else [])
  }

  function Ids(rows: seq<Row>): (ids: seq<int>)
    ensures |ids| == |rows|
    ensures forall i | 0 <= i < |rows| :: ids[i] == rows[i].id
  {
    seq(|rows|, i requires 0 <= i < |rows| => rows[i].id)
  }

  // ----- the embedding generator, seen from the loop -----

  /** What one page's processing reports: the batch call raised and each row was retried on
      its own, or the batch call listed its successes and failures. */
  datatype Outcome =
    | BatchRaised(rowSucceeded: seq<bool>)
    | BatchReturned(successes: seq<int>, failures: seq<int>)

  /** Only the page's rows change, and of those only the embedding. */
  predicate Touches(before: Table, after: Table, ids: seq<int>) {
    && |after| == |before|
    && forall i | 0 <= i < |before| ::
         && after[i].id == before[i].id
         && after[i].userId == before[i].userId
         && (before[i].id in ids || after[i] == before[i])
  }

  /** Every item of the page is reported exactly once. */
  predicate ReportsEach(ids: seq<int>, o: Outcome) {
    match o
    case BatchRaised(rowSucceeded) => |rowSucceeded| == |ids|
    case BatchReturned(successes, failures) => multiset(successes + failures) == multiset(ids)
  }

  type Generator = (Table, seq<int>) -> (Table, Outcome)

  ghost predicate Honest(work: Generator) {
    forall t: Table, ids: seq<int> ::
      Touches(t, work(t, ids).0, ids) && ReportsEach(ids, work(t, ids).1)
  }

  /** The ids an outcome reports as done. */
  function Succeeded(ids: seq<int>, o: Outcome): seq<int>
    requires ReportsEach(ids, o)
  {
    match o
    case BatchRaised(rowSucceeded) => Chosen(ids, rowSucceeded)
    case BatchReturned(successes, _) => successes
  }

  function Chosen(ids: seq<int>, flags: seq<bool>): (chosen: seq<int>)
    requires |ids| == |flags|
    ensures |chosen| <= |ids|
  {
    if ids == [] then []
    else
      var n := |ids| - 1;
      Chosen(ids[..n], flags[..n]) + (if flags[n] then [ids[n]] else [])
  }

  predicate WasMissing(t: Table, id: int) {
    exists i | 0 <= i < |t| :: t[i].id == id && t[i].version.None?
  }

  function CountMissing(t: Table, ids: seq<int>): (n: nat)
    ensures n <= |ids|
  {
    if ids == [] then 0
    else CountMissing(t, ids[..|ids| - 1]) + (if WasMissing(t, ids[|ids| - 1]) then 1 else 0)
  }

  /** The ids chosen are those at the places of the true flags, in order. */
  lemma {:induction false} ChosenPlaces(ids: seq<int>, flags: seq<bool>) returns (places: seq<nat>)
    requires |ids| == |flags|
    ensures Increasing(places) && Picks(Chosen(ids, flags), ids, places)
    ensures forall i: nat {:trigger i in places} :: i in places <==> i < |flags| && flags[i]
  {
    if ids == [] {
      places := [];
    } else {
      var n := |ids| - 1;
      var front, flag := flags[..n], flags[n];
      var earlier := ChosenPlaces(ids[..n], front);
      places := MorePlaces(Chosen(ids[..n], front), ids, earlier, flag);
      forall i: nat ensures i in places <==> i < |flags| && flags[i] {
        assert i in places <==> i in earlier || (flag && i == n);
        if i < n {
          assert front[i] == flags[i];
        }
      }
    }
  }

  lemma {:induction false} PlacesOfMissing(t: Table, ids: seq<int>) returns (places: seq<nat>)
    ensures Increasing(places) && |places| == CountMissing(t, ids)
    ensures forall i: nat :: i in places <==> i < |ids| && WasMissing(t, ids[i])
  {
    places := [];
    if ids != [] {
      var n := |ids| - 1;
      places := PlacesOfMissing(t, ids[..n]);
      if WasMissing(t, ids[n]) {
        OneMorePlace(places, n);
        places := places + [n];
      }
    }
  }

  /** The missing ids are counted place by place: those of rows without an embedding. */
  lemma {:induction false} MissingPlaces(t: Table, ids: seq<int>) returns (places: seq<nat>)
    ensures Increasing(places) && |places| == CountMissing(t, ids)
    ensures forall i: nat ::
      i in places <==> i < |ids| && exists j :: 0 <= j < |t| && t[j].id == ids[i] && t[j].version == None
  {
    places := PlacesOfMissing(t, ids);
    forall i: nat | i < |ids|
      ensures WasMissing(t, ids[i]) <==> exists j :: 0 <= j < |t| && t[j].id == ids[i] && t[j].version == None
    {
      if WasMissing(t, ids[i]) {
        var j :| 0 <= j < |t| && t[j].id == ids[i] && t[j].version.None?;
        assert t[j].version == None;
      }
    }
  }

  // ----- keyset pagination -----

  lemma {:induction false} SelectOnlyReadsBeyond(t: Table, u: Table, q: Query, after: int)
    requires |t| == |u|
    requires forall i | 0 <= i < |t| :: t[i].id == u[i].id && (t[i].id > after ==> t[i] == u[i])
    ensures Select(t, q, after) == Select(u, q, after)
  {
    if t != [] {
      SelectOnlyReadsBeyond(t[..|t| - 1], u[..|u| - 1], q, after);
    }
  }

  lemma {:induction false} SelectIsSorted(t: Table, q: Query, after: int)
    requires Sorted(t)
    ensures Sorted(Select(t, q, after))
    ensures forall i | 0 <= i < |Select(t, q, after)| :: Select(t, q, after)[i] in t
    ensures forall i | 0 <= i < |Select(t, q, after)| :: Select(t, q, after)[i].id > after
  {
    if t != [] {
      SelectIsSorted(t[..|t| - 1], q, after);
    }
  }

  /** Which ids are selected: those beyond the cursor of rows without an embedding, or with one
      of another version than a given target, and of the given user if there is one. */
  lemma {:induction false} SelectMeaning(t: Table, q: Query, after: int, id: int)
    requires Sorted(t)
    ensures id in Ids(Select(t, q, after))
       <==> id > after && exists i ::
              && 0 <= i < |t| && t[i].id == id
              && (t[i].version == None || (q.target != None && t[i].version.value != q.target.value))
              && (q.userId == None || t[i].userId == q.userId.value)
  {
    if t != [] {
      var front, last := t[..|t| - 1], t[|t| - 1];
      SelectMeaning(front, q, after, id);
      IdsHas(Select(front, q, after), [last], id);
      assert Select(front, q, after) + [] == Select(front, q, after);
      assert t == front + [last];
    }
  }

  lemma IdsHas(a: seq<Row>, b: seq<Row>, id: int)
    ensures id in Ids(a + b) <==> id in Ids(a) || id in Ids(b)
  {
    assert Ids(a + b) == Ids(a) + Ids(b);
  }

  lemma {:induction false} NothingBeyond(t: Table, q: Query, after: int)
    requires forall i | 0 <= i < |t| :: t[i].id <= after
    ensures Select(t, q, after) == []
  {
    if t != [] {
      NothingBeyond(t[..|t| - 1], q, after);
    }
  }

  /** Continuing after the n-th selected row leaves exactly the rows not yet seen. */
  lemma {:induction false} NextPageStartsWhereThisEnds(t: Table, q: Query, after: int, n: nat)
    requires Sorted(t) && 0 < n <= |Select(t, q, after)|
    ensures Select(t, q, Select(t, q, after)[n - 1].id) == Select(t, q, after)[n..]
  {
    var front, last := t[..|t| - 1], t[|t| - 1];
    var all, early := Select(t, q, after), Select(front, q, after);
    var bound := all[n - 1].id;
    SelectIsSorted(front, q, after);
    if n <= |early| {
      assert all[n - 1] == early[n - 1] && early[n - 1] in front;
      NextPageStartsWhereThisEnds(front, q, after, n);
    } else {
      assert all == early + [last] && bound == last.id;
      NothingBeyond(t, q, bound);
    }
  }

  // ----- counting one page -----

  function MissingTable(rows: seq<Row>): map<int, bool> {
    if rows == [] then map[]
    else
      var last := rows[|rows| - 1];
      MissingTable(rows[..|rows| - 1])[last.id := last.version.None?]
  }

  predicate FlaggedMissing(missing: map<int, bool>, id: int) {
    id in missing && missing[id]
  }

  function CountFlagged(missing: map<int, bool>, ids: seq<int>): (n: nat)
    ensures n <= |ids|
  {
    if ids == [] then 0
    else CountFlagged(missing, ids[..|ids| - 1]) + (if FlaggedMissing(missing, ids[|ids| - 1]) then 1 else 0)
  }

  /** The counters after one page, on the batch path and on the per-row fallback path. */
  method CountPage(rows: seq<Row>, outcome: Outcome) returns (created: nat, refreshed: nat, errors: nat)
    requires ReportsEach(Ids(rows), outcome)
    ensures created == CountFlagged(MissingTable(rows), Succeeded(Ids(rows), outcome))
    ensures created + refreshed == |Succeeded(Ids(rows), outcome)|
    ensures created + refreshed + errors == |rows|
  {
    var missing := FlagMissing(rows);
    match outcome
    case BatchRaised(rowSucceeded) =>
      created, refreshed, errors := CountRetries(missing, Ids(rows), rowSucceeded);
    case BatchReturned(successes, failures) =>
      created, refreshed := CountSuccesses(missing, successes);
      errors := |failures|;
      assert |successes + failures| == |multiset(successes + failures)| == |multiset(Ids(rows))| == |rows|;
  }

  method CountSuccesses(missing: map<int, bool>, successes: seq<int>) returns (created: nat, refreshed: nat)
    ensures created == CountFlagged(missing, successes) && created + refreshed == |successes|
  {
    created, refreshed := 0, 0;
    for i := 0 to |successes|
      invariant created == CountFlagged(missing, successes[..i]) && created + refreshed == i
    {
      assert successes[..i + 1][..i] == successes[..i];
      if successes[i] in missing && missing[successes[i]] {
        created := created + 1;
      } else {
        refreshed := refreshed + 1;
      }
    }
    assert successes[..|successes|] == successes;
  }

  lemma {:induction false} CountFlaggedSnoc(missing: map<int, bool>, ids: seq<int>, id: int)
    ensures CountFlagged(missing, ids + [id])
         == CountFlagged(missing, ids) + (if FlaggedMissing(missing, id) then 1 else 0)
  {
    assert (ids + [id])[..|ids|] == ids;
  }

  lemma {:induction false} ChosenSnoc(ids: seq<int>, flags: seq<bool>, i: nat)
    requires |ids| == |flags| && i < |ids|
    ensures Chosen(ids[..i + 1], flags[..i + 1])
         == if flags[i] then Chosen(ids[..i], flags[..i]) + [ids[i]] else Chosen(ids[..i], flags[..i])
  {
    assert ids[..i + 1][..i] == ids[..i] && flags[..i + 1][..i] == flags[..i];
  }

  method CountRetries(missing: map<int, bool>, ids: seq<int>, rowSucceeded: seq<bool>)
    returns (created: nat, refreshed: nat, errors: nat)
    requires |ids| == |rowSucceeded|
    ensures created == CountFlagged(missing, Chosen(ids, rowSucceeded))
    ensures created + refreshed == |Chosen(ids, rowSucceeded)|
    ensures created + refreshed + errors == |ids|
  {
    created, refreshed, errors := 0, 0, 0;
    for i := 0 to |ids|
      invariant created == CountFlagged(missing, Chosen(ids[..i], rowSucceeded[..i]))
      invariant created + refreshed == |Chosen(ids[..i], rowSucceeded[..i])|
      invariant created + refreshed + errors == i
    {
      ChosenSnoc(ids, rowSucceeded, i);
      if !rowSucceeded[i] {
        errors := errors + 1;
        continue;
      }
      CountFlaggedSnoc(missing, Chosen(ids[..i], rowSucceeded[..i]), ids[i]);
      if ids[i] in missing && missing[ids[i]] {
        created := created + 1;
      } else {
        refreshed := refreshed + 1;
      }
    }
    assert ids[..|ids|] == ids && rowSucceeded[..|ids|] == rowSucceeded;
  }

  method FlagMissing(rows: seq<Row>) returns (missing: map<int, bool>)
    ensures missing == MissingTable(rows)
  {
    missing := map[];
    for i := 0 to |rows|
      invariant missing == MissingTable(rows[..i])
    {
      assert rows[..i + 1][..i] == rows[..i];
      missing := missing[rows[i].id := rows[i].version.None?];
    }
    assert rows[..|rows|] == rows;
  }

  /** The page's flags say which rows had no embedding when the run started. */
  lemma {:induction false} FlagsAreInitial(t: Table, rows: seq<Row>, id: int)
    requires Sorted(t) && forall i | 0 <= i < |rows| :: rows[i] in t
    requires id in Ids(rows)
    ensures FlaggedMissing(MissingTable(rows), id) == WasMissing(t, id)
  {
    var front, last := rows[..|rows| - 1], rows[|rows| - 1];
    if last.id == id {
      var k :| 0 <= k < |t| && t[k] == last;
    } else {
      assert id in Ids(front);
      FlagsAreInitial(t, front, id);
    }
  }

  lemma {:induction false} FlaggedIsMissing(t: Table, rows: seq<Row>, ids: seq<int>)
    requires Sorted(t) && forall i | 0 <= i < |rows| :: rows[i] in t
    requires forall i | 0 <= i < |ids| :: ids[i] in Ids(rows)
    ensures CountFlagged(MissingTable(rows), ids) == CountMissing(t, ids)
  {
    if ids != [] {
      FlaggedIsMissing(t, rows, ids[..|ids| - 1]);
      FlagsAreInitial(t, rows, ids[|ids| - 1]);
    }
  }

  lemma {:induction false} CountMissingConcat(t: Table, a: seq<int>, b: seq<int>)
    ensures CountMissing(t, a + b) == CountMissing(t, a) + CountMissing(t, b)
  {
    if b == [] {
      assert a + b == a;
    } else {
      assert (a + b)[..|a + b| - 1] == a + b[..|b| - 1];
      CountMissingConcat(t, a, b[..|b| - 1]);
    }
  }

  lemma {:induction false} ChosenAreListed(ids: seq<int>, flags: seq<bool>)
    requires |ids| == |flags|
    ensures forall i | 0 <= i < |Chosen(ids, flags)| :: Chosen(ids, flags)[i] in ids
  {
    if ids != [] {
      ChosenAreListed(ids[..|ids| - 1], flags[..|ids| - 1]);
    }
  }

  lemma {:induction false} SucceededAreListed(ids: seq<int>, o: Outcome)
    requires ReportsEach(ids, o)
    ensures forall i | 0 <= i < |Succeeded(ids, o)| :: Succeeded(ids, o)[i] in ids
  {
    match o
    case BatchRaised(flags) => ChosenAreListed(ids, flags);
    case BatchReturned(successes, failures) =>
      forall i | 0 <= i < |successes| ensures successes[i] in ids {
        assert successes[i] == (successes + failures)[i];
        assert successes[i] in multiset(ids);
      }
  }

  // ----- the loop -----

  datatype Summary = Summary(
    processed: nat, created: nat, refreshed: nat, skipped: nat, errors: nat, wouldCreate: nat)

  /** Where the loop stands on its way through the ids eligible at the start. */
  ghost predicate Progress(start: Table, q: Query, lastSeen: int, visited: seq<int>) {
    && (forall i | 0 <= i < |visited| :: visited[i] <= lastSeen)
    && visited + Ids(Select(start, q, lastSeen)) == Ids(Select(start, q, 0))
  }

  lemma {:induction false} RowsAhead(start: Table, now: Table, q: Query, lastSeen: int, visited: seq<int>)
    requires Sorted(start) && Progress(start, q, lastSeen, visited) && Touches(start, now, visited)
    ensures Select(now, q, lastSeen) == Select(start, q, lastSeen)
    ensures Sorted(Select(start, q, lastSeen))
    ensures forall i | 0 <= i < |Select(start, q, lastSeen)| :: Select(start, q, lastSeen)[i] in start
    ensures forall i | 0 <= i < |Select(start, q, lastSeen)| :: Select(start, q, lastSeen)[i].id > lastSeen
  {
    SelectOnlyReadsBeyond(now, start, q, lastSeen);
    SelectIsSorted(start, q, lastSeen);
  }

  /** One page further. */
  lemma {:induction false} NextPage(start: Table, q: Query, lastSeen: int, visited: seq<int>, rows: seq<Row>)
    requires Sorted(start) && Progress(start, q, lastSeen, visited)
    requires rows != [] && rows <= Select(start, q, lastSeen)
    ensures var bound := rows[|rows| - 1].id;
            && lastSeen <= bound
            && Progress(start, q, bound, visited + Ids(rows))
            && Select(start, q, bound) == Select(start, q, lastSeen)[|rows|..]
  {
    var all, n := Select(start, q, lastSeen), |rows|;
    assert rows == all[..n] && rows[n - 1] == all[n - 1];
    NextPageStartsWhereThisEnds(start, q, lastSeen, n);
    IdsSplit(all, n, visited);
    PageIsBounded(start, q, lastSeen, visited, rows);
  }

  lemma {:induction false} IdsSplit(all: seq<Row>, n: nat, visited: seq<int>)
    requires n <= |all|
    ensures visited + Ids(all[..n]) + Ids(all[n..]) == visited + Ids(all)
  {
    assert Ids(all) == Ids(all[..n]) + Ids(all[n..]);
  }

  lemma {:induction false} PageIsBounded(start: Table, q: Query, lastSeen: int, visited: seq<int>, rows: seq<Row>)
    requires Sorted(start) && rows != [] && rows <= Select(start, q, lastSeen)
    requires forall i | 0 <= i < |visited| :: visited[i] <= lastSeen
    ensures lastSeen <= rows[|rows| - 1].id
    ensures forall i | 0 <= i < |visited + Ids(rows)| :: (visited + Ids(rows))[i] <= rows[|rows| - 1].id
  {
    SelectIsSorted(start, q, lastSeen);
    assert forall i | 0 <= i < |rows| :: rows[i] == Select(start, q, lastSeen)[i];
  }

  lemma {:induction false} TouchesCompose(a: Table, b: Table, c: Table, visited: seq<int>, ids: seq<int>)
    requires Touches(a, b, visited) && Touches(b, c, ids)
    ensures Touches(a, c, visited + ids)
  {}

  /** The counters account for the rows visited so far. */
  ghost predicate Tally(start: Table, visited: seq<int>, succeeded: seq<int>, s: Summary) {
    && s.wouldCreate == s.skipped == 0
    && s.processed == |visited|
    && s.processed == s.created + s.refreshed + s.errors
    && s.created + s.refreshed == |succeeded|
    && s.created == CountMissing(start, succeeded)
    && forall i | 0 <= i < |succeeded| :: succeeded[i] in visited
  }

  lemma {:induction false} TallyPage(
    start: Table, visited: seq<int>, succeeded: seq<int>, s: Summary, rows: seq<Row>, o: Outcome,
    c: nat, r: nat, e: nat)
    requires Sorted(start) && Tally(start, visited, succeeded, s) && ReportsEach(Ids(rows), o)
    requires forall i | 0 <= i < |rows| :: rows[i] in start
    requires c == CountFlagged(MissingTable(rows), Succeeded(Ids(rows), o))
    requires c + r == |Succeeded(Ids(rows), o)| && c + r + e == |rows|
    ensures Tally(start, visited + Ids(rows), succeeded + Succeeded(Ids(rows), o),
                  Summary(s.processed + |rows|, s.created + c, s.refreshed + r, 0, s.errors + e, 0))
  {
    SucceededAreListed(Ids(rows), o);
    FlaggedIsMissing(start, rows, Succeeded(Ids(rows), o));
    CountMissingConcat(start, succeeded, Succeeded(Ids(rows), o));
  }

  /** What a real run did, page by page: the ids of the page, the tables between the pages, what
      the page's processing reported, and the ids it reported as done. */
  datatype Trail = Trail(pages: seq<seq<int>>, tables: seq<Table>, outcomes: seq<Outcome>, done: seq<seq<int>>)

  function Joined(parts: seq<seq<int>>): seq<int> {
    if parts == [] then [] else Joined(parts[..|parts| - 1]) + parts[|parts| - 1]
  }

  /** Page after page was handed to the processing, which found the table as the page before left it. */
  ghost predicate Worked(work: Generator, start: Table, end: Table, batchSize: nat, trail: Trail) {
    && |trail.tables| == |trail.pages| + 1 && trail.tables[0] == start && trail.tables[|trail.pages|] == end
    && |trail.outcomes| == |trail.done| == |trail.pages|
    && forall k | 0 <= k < |trail.pages| ::
         && 0 < |trail.pages[k]| <= batchSize && (k + 1 < |trail.pages| ==> |trail.pages[k]| == batchSize)
         && work(trail.tables[k], trail.pages[k]) == (trail.tables[k + 1], trail.outcomes[k])
         && ReportsEach(trail.pages[k], trail.outcomes[k])
         && trail.done[k] == Succeeded(trail.pages[k], trail.outcomes[k])
  }

  ghost function Extended(trail: Trail, page: seq<int>, after: Table, o: Outcome): Trail
    requires ReportsEach(page, o)
  {
    Trail(trail.pages + [page], trail.tables + [after], trail.outcomes + [o], trail.done + [Succeeded(page, o)])
  }

  lemma {:induction false} WorkedOn(
    work: Generator, start: Table, table: Table, batchSize: nat, trail: Trail, page: seq<int>)
    requires Honest(work) && Worked(work, start, table, batchSize, trail)
    requires forall k | 0 <= k < |trail.pages| :: |trail.pages[k]| == batchSize
    requires 0 < |page| <= batchSize
    ensures var (after, o) := work(table, page);
      && ReportsEach(page, o)
      && Worked(work, start, after, batchSize, Extended(trail, page, after, o))
      && Joined(Extended(trail, page, after, o).pages) == Joined(trail.pages) + page
      && Joined(Extended(trail, page, after, o).done) == Joined(trail.done) + Succeeded(page, o)
  {
    var (after, o) := work(table, page);
    var more := Extended(trail, page, after, o);
    assert more.pages[..|trail.pages|] == trail.pages && more.done[..|trail.pages|] == trail.done;
  }

  /** The loop's variables between two pages. */
  datatype Loop = Loop(table: Table, lastSeen: int, visited: seq<int>, summary: Summary)

  ghost predicate LoopInv(
    work: Generator, start: Table, q: Query, batchSize: nat, dryRun: bool, loop: Loop, trail: Trail)
  {
    && Progress(start, q, loop.lastSeen, loop.visited)
    && Touches(start, loop.table, loop.visited)
    && if dryRun
       then loop.table == start && loop.summary == Summary(|loop.visited|, 0, 0, 0, 0, |loop.visited|)
       else
         && Worked(work, start, loop.table, batchSize, trail) && loop.visited == Joined(trail.pages)
         && Tally(start, loop.visited, Joined(trail.done), loop.summary)
  }

  ghost predicate AllFull(trail: Trail, batchSize: nat) {
    forall k | 0 <= k < |trail.pages| :: |trail.pages[k]| == batchSize
  }

  method RunPage(
    ghost start: Table, ghost q: Query, ghost batchSize: nat, dryRun: bool, work: Generator, loop: Loop,
    ghost trail: Trail, rows: seq<Row>)
    returns (loop': Loop, ghost trail': Trail)
    requires Sorted(start) && Honest(work)
    requires LoopInv(work, start, q, batchSize, dryRun, loop, trail) && AllFull(trail, batchSize)
    requires 0 < |rows| <= batchSize && rows <= Select(start, q, loop.lastSeen)
    requires forall i | 0 <= i < |rows| :: rows[i] in start
    ensures LoopInv(work, start, q, batchSize, dryRun, loop', trail')
    ensures |rows| == batchSize ==> AllFull(trail', batchSize)
    ensures loop'.visited == loop.visited + Ids(rows) && loop'.lastSeen == rows[|rows| - 1].id
    ensures Select(start, q, loop'.lastSeen) == Select(start, q, loop.lastSeen)[|rows|..]
  {
    NextPage(start, q, loop.lastSeen, loop.visited, rows);
    var s, visited, lastSeen := loop.summary, loop.visited + Ids(rows), rows[|rows| - 1].id;
    if dryRun {
      s := s.(processed := s.processed + |rows|, wouldCreate := s.wouldCreate + |rows|);
      return Loop(loop.table, lastSeen, visited, s), trail;
    }
    var (after, outcome) := work(loop.table, Ids(rows));
    var c, r, e := CountPage(rows, outcome);
    TallyPage(start, loop.visited, Joined(trail.done), s, rows, outcome, c, r, e);
    TouchesCompose(start, loop.table, after, loop.visited, Ids(rows));
    WorkedOn(work, start, loop.table, batchSize, trail, Ids(rows));
    s := Summary(s.processed + |rows|, s.created + c, s.refreshed + r, 0, s.errors + e, 0);
    loop' := Loop(after, lastSeen, visited, s);
    trail' := Extended(trail, Ids(rows), after, outcome);
  }

  /** A row with this positive id has no embedding, or one of another version than a given
      target, and belongs to the given user if there is one. */
  ghost predicate NeedsVisit(t: Table, q: Query, id: int) {
    && id > 0
    && exists i :: 0 <= i < |t| && t[i].id == id
         && (t[i].version == None || (q.target != None && t[i].version.value != q.target.value))
         && (q.userId == None || t[i].userId == q.userId.value)
  }

  /** These are the ids a run is to visit, in ascending order. */
  ghost predicate AreToVisit(ids: seq<int>, t: Table, q: Query) {
    && (forall i, j | 0 <= i < j < |ids| :: ids[i] < ids[j])
    && forall id :: id in ids <==> NeedsVisit(t, q, id)
  }

  lemma {:induction false} VisitedMeaning(t: Table, q: Query)
    requires Sorted(t)
    ensures AreToVisit(Ids(Select(t, q, 0)), t, q)
  {
    SelectIsSorted(t, q, 0);
    forall id ensures id in Ids(Select(t, q, 0)) <==> NeedsVisit(t, q, id) {
      SelectMeaning(t, q, 0, id);
    }
  }

  lemma {:induction false} AllVisited(start: Table, q: Query, batchSize: nat, loop: Loop)
    requires Sorted(start) && Progress(start, q, loop.lastSeen, loop.visited)
    requires if batchSize == 0 then loop.visited == [] else Select(start, q, loop.lastSeen) == []
    ensures if batchSize == 0 then loop.visited == [] else AreToVisit(loop.visited, start, q)
  {
    if batchSize > 0 {
      assert loop.visited + [] == loop.visited;
      VisitedMeaning(start, q);
    }
  }

  /** Every row eligible at the start with a positive id is visited exactly once, in
      increasing id order, although processing changes eligibility; a dry run changes
      nothing; a real run leaves the table as the processing of its pages did and accounts for
      each visited row as created, refreshed or failed, where "created" means the row had no
      embedding when the run started. */
  method Backfill(start: Table, q: Query, batchSize: nat, dryRun: bool, work: Generator)
    returns (table: Table, summary: Summary, visited: seq<int>, ghost trail: Trail)
    requires Sorted(start) && Honest(work)
    ensures if batchSize == 0 then visited == [] else AreToVisit(visited, start, q)
    ensures dryRun ==> table == start && summary == Summary(|visited|, 0, 0, 0, 0, |visited|)
    ensures !dryRun ==> Worked(work, start, table, batchSize, trail) && visited == Joined(trail.pages)
    ensures !dryRun ==> Touches(start, table, visited) && Tally(start, visited, Joined(trail.done), summary)
  {
    var loop := Loop(start, 0, [], Summary(0, 0, 0, 0, 0, 0));
    trail := Trail([], [start], [], []);
    while true
      invariant LoopInv(work, start, q, batchSize, dryRun, loop, trail) && AllFull(trail, batchSize)
      invariant batchSize == 0 ==> loop.visited == []
      decreases |Select(start, q, loop.lastSeen)|
    {
      var rows := Take(Select(loop.table, q, loop.lastSeen), batchSize);
      RowsAhead(start, loop.table, q, loop.lastSeen, loop.visited);
      if rows == [] {
        break;
      }
      loop, trail := RunPage(start, q, batchSize, dryRun, work, loop, trail, rows);
      if |rows| < batchSize {
        break;
      }
    }
    AllVisited(start, q, batchSize, loop);
    table, summary, visited := loop.table, loop.summary, loop.visited;
  }
}
