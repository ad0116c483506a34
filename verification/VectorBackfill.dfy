/** The write loop of app/cli/backfill_vector_store.py: replacements are gathered and
    written in batches while deletions go to the store at once. */
module VectorBackfill {
  import opened Text
  import opened ChunkWindows

  type RequestId = int

  datatype Point = Point(vector: Vector, metadata: string)

  type Store = map<RequestId, seq<Point>>

  // ----- what each summary asks for -----

  /** A summary's payload as the metadata builder prepares it. */
  datatype Payload = Payload(windows: seq<Window>, text: string, metadata: string)

  datatype Summary = Summary(id: Option<int>, requestId: Option<int>, payload: Option<Payload>)

  datatype Op =
    | Ignore
    | SkipNoEmbedding
    | Delete(request: RequestId)
    | Replace(request: RequestId, points: seq<Point>)

  predicate Absent(id: Option<int>) {
    id.None? || id.value == 0
  }

  /** The summary's windows are embedded and some language's batch comes back with the
      wrong length. */
  predicate Fails(s: Summary, existing: map<int, Vector>, service: Service) {
    && !Absent(s.id) && !Absent(s.requestId) && s.payload.Some? && s.id.value in existing
    && s.payload.value.windows != [] && !LengthsMatch(service, s.payload.value.windows)
  }

  function WindowPoints(service: Service, windows: seq<Window>): (points: seq<Point>)
    requires LengthsMatch(service, windows)
    ensures |points| == |windows|
  {
    Points(Scatter(service, windows), Metadatas(windows))
  }

  function Points(vectors: seq<Vector>, metadatas: seq<string>): (points: seq<Point>)
    requires |vectors| == |metadatas|
    ensures |points| == |vectors|
  {
    seq(|vectors|, i requires 0 <= i < |vectors| => Point(vectors[i], metadatas[i]))
  }

  function Classify(s: Summary, existing: map<int, Vector>, service: Service): Op
    requires !Fails(s, existing, service)
  {
    if Absent(s.id) || Absent(s.requestId) then Ignore
    else
      var request := s.requestId.value;
      match s.payload
      case None => Delete(request)
      case Some(payload) =>
        if s.id.value !in existing then SkipNoEmbedding
        else if payload.windows != [] then Replace(request, WindowPoints(service, payload.windows))
        else if payload.text == "" then Delete(request)
        else Replace(request, [Point(existing[s.id.value], payload.metadata)])
  }

  /** The summary reaches the store under this request id: both its ids are there, and it has
      an embedding if it has a payload. */
  ghost predicate Reaches(s: Summary, existing: map<int, Vector>, request: RequestId) {
    && s.requestId == Some(request) && request != 0
    && s.id != None && s.id != Some(0)
    && (s.payload == None || s.id.value in existing)
  }

  /** What a summary that reaches the store asks for: no points if it has neither windows nor
      text, a point for each window, in order and with its own vector and metadata, or else
      the one existing embedding. */
  ghost predicate Asks(s: Summary, existing: map<int, Vector>, service: Service, entry: Option<seq<Point>>)
    requires s.id.Some? && (s.payload == None || s.id.value in existing)
  {
    if s.payload == None then entry == None
    else
      var p := s.payload.value;
      if p.windows != [] then
        && entry.Some? && |entry.value| == |p.windows|
        && forall k | 0 <= k < |p.windows| ::
             && entry.value[k].metadata == p.windows[k].metadata
             && IsVectorOf(service, p.windows, k, entry.value[k].vector)
      else if p.text == "" then entry == None
      else entry == Some([Point(existing[s.id.value], p.metadata)])
  }

  /** The vector is the service's answer for window k: that of its language's batch, at the
      place given by how many earlier windows share the language. */
  ghost predicate IsVectorOf(service: Service, windows: seq<Window>, k: nat, v: Vector)
    requires k < |windows|
  {
    var answer := Answer(service, windows, windows[k].language);
    Place(windows, k) < |answer| && v == answer[Place(windows, k)]
  }

  /** A summary is skipped when only its embedding is missing, ignored when an id is, and
      otherwise asks for a deletion or a replacement of its own request. */
  lemma ClassifyMeaning(s: Summary, existing: map<int, Vector>, service: Service, request: RequestId)
    requires !Fails(s, existing, service)
    ensures var op := Classify(s, existing, service);
      && (op.Ignore? <==> s.id == None || s.id == Some(0) || s.requestId == None || s.requestId == Some(0))
      && (op.SkipNoEmbedding? <==>
            && s.id != None && s.id != Some(0) && s.requestId != None && s.requestId != Some(0)
            && s.payload.Some? && s.id.value !in existing)
      && (Writes(op, request) <==> Reaches(s, existing, request))
      && (Writes(op, request) ==> Asks(s, existing, service, Written(op)))
  {
    var op := Classify(s, existing, service);
    if op.Replace? || op.Delete? {
      assert s.requestId == Some(op.request);
      AsksWritten(s, existing, service);
    }
  }

  /** What a write leaves for its request. */
  function Written(op: Op): Option<seq<Point>> {
    if op.Replace? then Some(op.points) else None
  }

  lemma AsksWritten(s: Summary, existing: map<int, Vector>, service: Service)
    requires !Fails(s, existing, service)
    requires Classify(s, existing, service).Replace? || Classify(s, existing, service).Delete?
    ensures Asks(s, existing, service, Written(Classify(s, existing, service)))
  {
    if s.payload.Some? && s.payload.value.windows != [] {
      var windows := s.payload.value.windows;
      var points := WindowPoints(service, windows);
      forall k | 0 <= k < |windows|
        ensures points[k].metadata == windows[k].metadata && IsVectorOf(service, windows, k, points[k].vector)
      {
        assert points[k] == Point(Scatter(service, windows)[k], Metadatas(windows)[k]);
      }
    }
  }

  /** The service answers the batch of some window's language with a wrong number of vectors. */
  ghost predicate GoesWrong(s: Summary, existing: map<int, Vector>, service: Service) {
    && s.id != None && s.id != Some(0) && s.requestId != None && s.requestId != Some(0)
    && s.payload.Some? && s.id.value in existing
    && var windows := s.payload.value.windows;
       exists k | 0 <= k < |windows| ::
         |Answer(service, windows, windows[k].language)| != |ChunkWindows.Batch(windows, windows[k].language)|
  }

  lemma {:induction false} FailsMeaning(s: Summary, existing: map<int, Vector>, service: Service)
    ensures Fails(s, existing, service) <==> GoesWrong(s, existing, service)
  {}

  // ----- direct and batched writing -----

  function Write(store: Store, op: Op): Store {
    match op
    case Replace(request, points) => store[request := points]
    case Delete(request) => store - {request}
    case _ => store
  }

  /** Every operation applied to the store at once, in order. */
  function Direct(store: Store, ops: seq<Op>): Store {
    if ops == [] then store else Write(Direct(store, ops[..|ops| - 1]), ops[|ops| - 1])
  }

  datatype Pending = Pending(request: RequestId, points: seq<Point>)

  /** Writing out the pending replacements in order. */
  function Replay(store: Store, pending: seq<Pending>): Store {
    if pending == [] then store
    else
      var last := pending[|pending| - 1];
      Replay(store, pending[..|pending| - 1])[last.request := last.points]
  }

  function VectorCount(pending: seq<Pending>): nat {
    if pending == [] then 0
    else VectorCount(pending[..|pending| - 1]) + |pending[|pending| - 1].points|
  }

  datatype Batch = Batch(store: Store, pending: seq<Pending>)

  function Flush(b: Batch): Batch {
    Batch(Replay(b.store, b.pending), [])
  }

  function Step(b: Batch, op: Op, batchSize: int): Batch {
    match op
    case Replace(request, points) =>
      var b' := b.(pending := b.pending + [Pending(request, points)]);
      if VectorCount(b'.pending) >= batchSize then Flush(b') else b'
    case Delete(request) => b.(store := b.store - {request})
    case _ => b
  }

  function Run(store: Store, ops: seq<Op>, batchSize: int): Batch {
    if ops == [] then Batch(store, [])
    else Step(Run(store, ops[..|ops| - 1], batchSize), ops[|ops| - 1], batchSize)
  }

  /** The store after the loop and the final flush. */
  function Batched(store: Store, ops: seq<Op>, batchSize: int): Store {
    Flush(Run(store, ops, batchSize)).store
  }

  // ----- when the two agree -----

  function Entry(store: Store, request: RequestId): Option<seq<Point>> {
    if request in store then Some(store[request]) else None
  }

  predicate IsPending(pending: seq<Pending>, request: RequestId) {
    exists i | 0 <= i < |pending| :: pending[i].request == request
  }

  /** The replacements waiting to be written, read off the operations alone: those since the
      waiting vectors last amounted to a full batch. */
  function Waiting(ops: seq<Op>, batchSize: int): seq<Pending> {
    if ops == [] then []
    else
      var earlier, last := Waiting(ops[..|ops| - 1], batchSize), ops[|ops| - 1];
      if !last.Replace? then earlier
      else
        var more := earlier + [Pending(last.request, last.points)];
        if VectorCount(more) >= batchSize then [] else more
  }

  lemma {:induction false} PendingIsWaiting(store: Store, ops: seq<Op>, batchSize: int)
    ensures Run(store, ops, batchSize).pending == Waiting(ops, batchSize)
  {
    if ops != [] {
      PendingIsWaiting(store, ops[..|ops| - 1], batchSize);
    }
  }

  /** The request's latest write is a deletion issued while a replacement of the same
      request was still waiting. */
  predicate DeleteOvertaken(ops: seq<Op>, batchSize: int, request: RequestId) {
    ops != [] &&
    var front, last := ops[..|ops| - 1], ops[|ops| - 1];
    match last
    case Replace(r, _) => if r == request then false else DeleteOvertaken(front, batchSize, request)
    case Delete(r) =>
      if r == request then IsPending(Waiting(front, batchSize), request)
      else DeleteOvertaken(front, batchSize, request)
    case _ => DeleteOvertaken(front, batchSize, request)
  }

  lemma {:induction false} ReplayElsewhere(store: Store, pending: seq<Pending>, request: RequestId)
    ensures !IsPending(pending, request) ==> Entry(Replay(store, pending), request) == Entry(store, request)
    ensures IsPending(pending, request) ==> request in Replay(store, pending)
  {
    if pending != [] {
      var front := pending[..|pending| - 1];
      ReplayElsewhere(store, front, request);
      if IsPending(pending, request) && pending[|pending| - 1].request != request {
        var i :| 0 <= i < |pending| && pending[i].request == request;
        assert front[i].request == request;
      }
    }
  }

  /** A deletion below the pending replacements shows through only where none is pending. */
  lemma {:induction false} ReplayAfterDelete(
    store: Store, pending: seq<Pending>, deleted: RequestId, request: RequestId)
    ensures Entry(Replay(store - {deleted}, pending), request)
         == if request == deleted && !IsPending(pending, deleted) then None
            else Entry(Replay(store, pending), request)
  {
    if pending != [] {
      var front, last := pending[..|pending| - 1], pending[|pending| - 1];
      ReplayAfterDelete(store, front, deleted, request);
      if IsPending(pending, deleted) && last.request != deleted {
        var i :| 0 <= i < |pending| && pending[i].request == deleted;
        assert front[i].request == deleted;
      }
      if IsPending(front, deleted) {
        var i :| 0 <= i < |front| && front[i].request == deleted;
        assert pending[i].request == deleted;
      }
    }
  }

  /** Store and pending writes taken together: what a flush now would leave. */
  function View(b: Batch): Store {
    Replay(b.store, b.pending)
  }

  lemma StepView(b: Batch, op: Op, batchSize: int, request: RequestId)
    ensures Entry(View(Step(b, op, batchSize)), request)
         == match op
            case Replace(r, points) => if r == request then Some(points) else Entry(View(b), request)
            case Delete(r) =>
              if r == request && !IsPending(b.pending, request) then None else Entry(View(b), request)
            case _ => Entry(View(b), request)
  {
    match op
    case Replace(r, points) =>
      var extended := b.pending + [Pending(r, points)];
      assert extended[..|b.pending|] == b.pending;
    case Delete(r) => ReplayAfterDelete(b.store, b.pending, r, request);
    case _ =>
  }

  lemma {:induction false} EntryAgreesIff(store: Store, ops: seq<Op>, batchSize: int, request: RequestId)
    ensures Entry(View(Run(store, ops, batchSize)), request) == Entry(Direct(store, ops), request)
       <==> !DeleteOvertaken(ops, batchSize, request)
  {
    if ops != [] {
      var front, last := ops[..|ops| - 1], ops[|ops| - 1];
      var b := Run(store, front, batchSize);
      EntryAgreesIff(store, front, batchSize, request);
      PendingIsWaiting(store, front, batchSize);
      StepView(b, last, batchSize, request);
      ReplayElsewhere(b.store, b.pending, request);
    }
  }

  ghost predicate NoneOvertaken(ops: seq<Op>, batchSize: int) {
    forall request: RequestId :: !DeleteOvertaken(ops, batchSize, request)
  }

  /** The batched store equals the directly written one exactly when no request's latest
      write is a deletion overtaken by its own pending replacement. */
  lemma {:induction false} BatchedEqualsDirectIff(store: Store, ops: seq<Op>, batchSize: int)
    ensures Batched(store, ops, batchSize) == Direct(store, ops) <==> NoneOvertaken(ops, batchSize)
  {
    var batched, direct := Batched(store, ops, batchSize), Direct(store, ops);
    forall request: RequestId
      ensures Entry(batched, request) == Entry(direct, request)
         <==> !DeleteOvertaken(ops, batchSize, request)
    {
      EntryAgreesIff(store, ops, batchSize, request);
    }
    if NoneOvertaken(ops, batchSize) {
      SameEntries(batched, direct);
    }
  }

  lemma SameEntries(a: Store, b: Store)
    requires forall request :: Entry(a, request) == Entry(b, request)
    ensures a == b
  {
    forall request ensures request in a <==> request in b {
      assert Entry(a, request) == Entry(b, request);
    }
    forall request | request in a ensures a[request] == b[request] {
      assert Entry(a, request) == Entry(b, request);
    }
  }

  /** Writing at once leaves for a request what its last write asks for. */
  lemma {:induction false} LastWriteStays(store: Store, ops: seq<Op>, request: RequestId, i: nat)
    requires i < |ops| && Writes(ops[i], request)
    requires forall j | i < j < |ops| :: !Writes(ops[j], request)
    ensures Entry(Direct(store, ops), request)
         == Written(ops[i])
  {
    if i < |ops| - 1 {
      LastWriteStays(store, ops[..|ops| - 1], request, i);
    }
  }

  lemma {:induction false} UnwrittenStays(store: Store, ops: seq<Op>, request: RequestId)
    requires forall i | 0 <= i < |ops| :: !Writes(ops[i], request)
    ensures Entry(Direct(store, ops), request) == Entry(store, request)
  {
    if ops != [] {
      UnwrittenStays(store, ops[..|ops| - 1], request);
    }
  }

  /** Batching gives a request what its last write asks for too, unless that is a deletion
      issued while a replacement of the request was waiting: then the entry stays. */
  lemma {:induction false} LastWriteWins(store: Store, ops: seq<Op>, batchSize: int, request: RequestId, i: nat)
    requires i < |ops| && Writes(ops[i], request)
    requires forall j | i < j < |ops| :: !Writes(ops[j], request)
    ensures var entry := Entry(Batched(store, ops, batchSize), request);
      match ops[i]
      case Replace(_, points) => entry == Some(points)
      case _ => entry.Some? <==> IsPending(Waiting(ops[..i], batchSize), request)
  {
    LastWriteStays(store, ops, request, i);
    OvertakenAt(ops, batchSize, request, i);
    EntryAgreesIff(store, ops, batchSize, request);
  }

  /** Of several waiting replacements of a request the last is written last. */
  lemma {:induction false} LastPendingWins(store: Store, pending: seq<Pending>, request: RequestId, k: nat)
    requires k < |pending| && pending[k].request == request
    requires forall j | k < j < |pending| :: pending[j].request != request
    ensures Entry(Replay(store, pending), request) == Some(pending[k].points)
  {
    if k < |pending| - 1 {
      LastPendingWins(store, pending[..|pending| - 1], request, k);
    }
  }

  lemma {:induction false} ViewStays(store: Store, ops: seq<Op>, batchSize: int, request: RequestId, n: nat)
    requires n <= |ops| && forall j | n <= j < |ops| :: !Writes(ops[j], request)
    ensures Entry(View(Run(store, ops, batchSize)), request) == Entry(View(Run(store, ops[..n], batchSize)), request)
  {
    if n < |ops| {
      var front := ops[..|ops| - 1];
      ViewStays(store, front, batchSize, request, n);
      StepView(Run(store, front, batchSize), ops[|ops| - 1], batchSize, request);
      assert front[..n] == ops[..n];
    } else {
      assert ops[..n] == ops;
    }
  }

  /** The entry such a deletion leaves behind is the last replacement that was waiting. */
  lemma {:induction false} OvertakenLeaves(
    store: Store, ops: seq<Op>, batchSize: int, request: RequestId, i: nat, k: nat)
    requires i < |ops| && ops[i] == Delete(request) && forall j | i < j < |ops| :: !Writes(ops[j], request)
    requires k < |Waiting(ops[..i], batchSize)| && Waiting(ops[..i], batchSize)[k].request == request
    requires forall j | k < j < |Waiting(ops[..i], batchSize)| :: Waiting(ops[..i], batchSize)[j].request != request
    ensures Entry(Batched(store, ops, batchSize), request) == Some(Waiting(ops[..i], batchSize)[k].points)
  {
    var b := Run(store, ops[..i], batchSize);
    PendingIsWaiting(store, ops[..i], batchSize);
    ViewStays(store, ops, batchSize, request, i + 1);
    assert ops[..i + 1][..i] == ops[..i];
    StepView(b, ops[i], batchSize, request);
    LastPendingWins(b.store, b.pending, request, k);
  }

  lemma {:induction false} OvertakenAt(ops: seq<Op>, batchSize: int, request: RequestId, i: nat)
    requires i < |ops| && Writes(ops[i], request)
    requires forall j | i < j < |ops| :: !Writes(ops[j], request)
    ensures DeleteOvertaken(ops, batchSize, request)
       <==> ops[i].Delete? && IsPending(Waiting(ops[..i], batchSize), request)
  {
    if i < |ops| - 1 {
      var front := ops[..|ops| - 1];
      OvertakenAt(front, batchSize, request, i);
      assert front[..i] == ops[..i];
    }
  }

  predicate Writes(op: Op, request: RequestId) {
    (op.Replace? || op.Delete?) && op.request == request
  }

  predicate DistinctRequests(ops: seq<Op>) {
    forall i, j | 0 <= i < j < |ops| && (ops[i].Replace? || ops[i].Delete?) :: !Writes(ops[j], ops[i].request)
  }

  lemma {:induction false} WaitingWasWritten(ops: seq<Op>, batchSize: int, request: RequestId)
    requires IsPending(Waiting(ops, batchSize), request)
    ensures exists i | 0 <= i < |ops| :: Writes(ops[i], request)
  {
    var front, last := ops[..|ops| - 1], ops[|ops| - 1];
    if !Writes(last, request) {
      var before, after := Waiting(front, batchSize), Waiting(ops, batchSize);
      var k :| 0 <= k < |after| && after[k].request == request;
      assert before[k].request == request;
      WaitingWasWritten(front, batchSize, request);
      var i :| 0 <= i < |front| && Writes(front[i], request);
      assert Writes(ops[i], request);
    } else {
      assert Writes(ops[|ops| - 1], request);
    }
  }

  lemma {:induction false} DistinctNeverOvertaken(ops: seq<Op>, batchSize: int, request: RequestId)
    requires DistinctRequests(ops)
    ensures !DeleteOvertaken(ops, batchSize, request)
  {
    if ops != [] {
      var front, last := ops[..|ops| - 1], ops[|ops| - 1];
      DistinctNeverOvertaken(front, batchSize, request);
      if last.Delete? && last.request == request && IsPending(Waiting(front, batchSize), request) {
        WaitingWasWritten(front, batchSize, request);
      }
    }
  }

  /** With distinct request ids batching is invisible, for every batch size. */
  lemma {:induction false} BatchingIsInvisible(store: Store, ops: seq<Op>, batchSize: int)
    requires DistinctRequests(ops)
    ensures Batched(store, ops, batchSize) == Direct(store, ops)
  {
    forall request: RequestId ensures !DeleteOvertaken(ops, batchSize, request) {
      DistinctNeverOvertaken(ops, batchSize, request);
    }
    BatchedEqualsDirectIff(store, ops, batchSize);
  }

  /** Replace then delete of one request inside a batch: the replacement survives. */
  lemma ReplaceThenDeleteSurvives(request: RequestId, p: Point)
    ensures var ops := [Replace(request, [p]), Delete(request)];
            Batched(map[], ops, 50) == map[request := [p]] && Direct(map[], ops) == map[]
  {
    var r, d := Replace(request, [p]), Delete(request);
    assert [r, d][..1] == [r] && [r][..0] == [];
    var one := [Pending(request, [p])];
    assert one[..0] == [] && [] + one == one && VectorCount(one) == 1;
    assert Run(map[], [r], 50) == Batch(map[], one);
    assert Run(map[], [r, d], 50) == Batch(map[] - {request}, one);
    assert Replay(map[], one) == map[request := [p]];
    var empty: Store := map[];
    assert empty - {request} == empty;
    assert Direct(map[], [r]) == map[request := [p]];
    assert map[request := [p]] - {request} == map[];
  }

  // ----- what the store receives, and when -----

  function AsOps(pending: seq<Pending>): (ops: seq<Op>)
    ensures |ops| == |pending|
    ensures forall i | 0 <= i < |ops| :: ops[i] == Replace(pending[i].request, pending[i].points)
  {
    seq(|pending|, i requires 0 <= i < |pending| => Replace(pending[i].request, pending[i].points))
  }

  /** The calls made on the store before the final flush: a deletion at once, replacements
      when their batch is full. */
  function Calls(ops: seq<Op>, batchSize: int): seq<Op> {
    if ops == [] then []
    else
      var front, last := ops[..|ops| - 1], ops[|ops| - 1];
      Calls(front, batchSize) +
        match last
        case Delete(_) => [last]
        case Replace(r, points) =>
          if Waiting(ops, batchSize) == [] then AsOps(Waiting(front, batchSize) + [Pending(r, points)]) else []
        case _ => []
  }

  lemma {:induction false} DirectConcat(store: Store, a: seq<Op>, b: seq<Op>)
    ensures Direct(store, a + b) == Direct(Direct(store, a), b)
  {
    if b == [] {
      assert a + b == a;
    } else {
      assert (a + b)[..|a + b| - 1] == a + b[..|b| - 1];
      DirectConcat(store, a, b[..|b| - 1]);
    }
  }

  lemma {:induction false} ReplayIsDirect(store: Store, pending: seq<Pending>)
    ensures Replay(store, pending) == Direct(store, AsOps(pending))
  {
    if pending != [] {
      ReplayIsDirect(store, pending[..|pending| - 1]);
      assert AsOps(pending)[..|pending| - 1] == AsOps(pending[..|pending| - 1]);
    }
  }

  lemma OneDirect(store: Store, op: Op)
    ensures Direct(store, [op]) == Write(store, op)
  {
    assert [op][..0] == [];
  }

  /** The store is what these calls, in this order, make of it. */
  lemma {:induction false} StoreFollowsCalls(store: Store, ops: seq<Op>, batchSize: int)
    ensures Run(store, ops, batchSize).store == Direct(store, Calls(ops, batchSize))
  {
    if ops != [] {
      var front, last := ops[..|ops| - 1], ops[|ops| - 1];
      var calls, waiting := Calls(front, batchSize), Waiting(front, batchSize);
      StoreFollowsCalls(store, front, batchSize);
      PendingIsWaiting(store, front, batchSize);
      match last {
        case Delete(_) =>
          DirectConcat(store, calls, [last]);
          OneDirect(Direct(store, calls), last);
        case Replace(r, points) =>
          var more := waiting + [Pending(r, points)];
          DirectConcat(store, calls, AsOps(more));
          ReplayIsDirect(Direct(store, calls), more);
          StepReplace(Run(store, front, batchSize), r, points, batchSize);
          assert calls + [] == calls;
        case _ => assert calls + [] == calls;
      }
    }
  }

  function Deletions(ops: seq<Op>): seq<RequestId> {
    if ops == [] then []
    else
      var earlier, last := Deletions(ops[..|ops| - 1]), ops[|ops| - 1];
      if last.Delete? then earlier + [last.request] else earlier
  }

  lemma {:induction false} PartsConcat(a: seq<Op>, b: seq<Op>)
    ensures Replacements(a + b) == Replacements(a) + Replacements(b)
    ensures Deletions(a + b) == Deletions(a) + Deletions(b)
  {
    if b == [] {
      assert a + b == a;
    } else {
      assert (a + b)[..|a + b| - 1] == a + b[..|b| - 1];
      PartsConcat(a, b[..|b| - 1]);
    }
  }

  lemma {:induction false} PartsOfReplacements(pending: seq<Pending>)
    ensures Replacements(AsOps(pending)) == pending && Deletions(AsOps(pending)) == []
  {
    if pending != [] {
      PartsOfReplacements(pending[..|pending| - 1]);
      assert AsOps(pending)[..|pending| - 1] == AsOps(pending[..|pending| - 1]);
    }
  }

  lemma PartsOfDeletion(op: Op)
    requires op.Delete?
    ensures Replacements([op]) == [] && Deletions([op]) == [op.request]
  {
    assert [op][..0] == [];
  }

  /** Every replacement is handed over or waiting, once and in order, and every deletion is
      handed over at once. */
  lemma {:induction false} CallsThenWaiting(ops: seq<Op>, batchSize: int)
    ensures Replacements(Calls(ops, batchSize)) + Waiting(ops, batchSize) == Replacements(ops)
    ensures Deletions(Calls(ops, batchSize)) == Deletions(ops)
  {
    if ops != [] {
      var front, last := ops[..|ops| - 1], ops[|ops| - 1];
      CallsThenWaiting(front, batchSize);
      var calls, waiting := Calls(front, batchSize), Waiting(front, batchSize);
      match last {
        case Delete(_) =>
          PartsConcat(calls, [last]);
          PartsOfDeletion(last);
        case Replace(r, points) =>
          var more := waiting + [Pending(r, points)];
          PartsConcat(calls, AsOps(more));
          PartsOfReplacements(more);
          assert (Replacements(calls) + waiting) + [Pending(r, points)] == Replacements(calls) + more;
          assert calls + [] == calls;
        case _ => assert calls + [] == calls;
      }
    }
  }

  /** What is waiting never amounts to a full batch. */
  lemma {:induction false} WaitingBelowBatch(ops: seq<Op>, batchSize: int)
    ensures Waiting(ops, batchSize) == [] || VectorCount(Waiting(ops, batchSize)) < batchSize
  {
    if ops != [] {
      WaitingBelowBatch(ops[..|ops| - 1], batchSize);
    }
  }

  /** What an aborted run leaves: a request whose replacement is still waiting has its old
      entry, every other request the entry direct writing would have given it. */
  lemma {:induction false} AbortLosesOnlyWaiting(store: Store, ops: seq<Op>, batchSize: int, request: RequestId)
    requires DistinctRequests(ops)
    ensures var source := if IsPending(Waiting(ops, batchSize), request) then store else Direct(store, ops);
            Entry(Run(store, ops, batchSize).store, request) == Entry(source, request)
  {
    var b := Run(store, ops, batchSize);
    PendingIsWaiting(store, ops, batchSize);
    if IsPending(b.pending, request) {
      PendingIsUntouched(store, ops, batchSize, request);
    } else {
      ReplayElsewhere(b.store, b.pending, request);
      DistinctNeverOvertaken(ops, batchSize, request);
      EntryAgreesIff(store, ops, batchSize, request);
    }
  }

  lemma {:induction false} UnwrittenIsUntouched(store: Store, ops: seq<Op>, batchSize: int, request: RequestId)
    requires forall i | 0 <= i < |ops| :: !Writes(ops[i], request)
    ensures var b := Run(store, ops, batchSize);
            Entry(b.store, request) == Entry(store, request) && !IsPending(b.pending, request)
  {
    if ops != [] {
      var front, last := ops[..|ops| - 1], ops[|ops| - 1];
      UnwrittenIsUntouched(store, front, batchSize, request);
      var b := Run(store, front, batchSize);
      if last.Replace? {
        ReplayElsewhere(b.store, b.pending + [Pending(last.request, last.points)], request);
      }
    }
  }

  lemma {:induction false} PendingIsUntouched(store: Store, ops: seq<Op>, batchSize: int, request: RequestId)
    requires DistinctRequests(ops) && IsPending(Run(store, ops, batchSize).pending, request)
    ensures Entry(Run(store, ops, batchSize).store, request) == Entry(store, request)
  {
    var front, last := ops[..|ops| - 1], ops[|ops| - 1];
    if Writes(last, request) {
      UnwrittenIsUntouched(store, front, batchSize, request);
    } else {
      var before, after := Run(store, front, batchSize).pending, Run(store, ops, batchSize).pending;
      var k :| 0 <= k < |after| && after[k].request == request;
      assert before[k].request == request;
      PendingIsUntouched(store, front, batchSize, request);
    }
  }

  // ----- the loop -----

  /** How many summaries are dealt with before one fails. */
  function FirstFailure(summaries: seq<Summary>, existing: map<int, Vector>, service: Service): (n: nat)
    ensures n <= |summaries|
    ensures forall i | 0 <= i < n :: !Fails(summaries[i], existing, service)
    ensures n < |summaries| ==> Fails(summaries[n], existing, service)
  {
    if summaries == [] then 0
    else
      var n := FirstFailure(summaries[..|summaries| - 1], existing, service);
      if n == |summaries| - 1 && !Fails(summaries[n], existing, service) then n + 1 else n
  }

  /** The operations of the summaries before the first failure. */
  function Ops(summaries: seq<Summary>, existing: map<int, Vector>, service: Service): (ops: seq<Op>)
    ensures |ops| == FirstFailure(summaries, existing, service)
    ensures forall i | 0 <= i < |ops| ::
      !Fails(summaries[i], existing, service) && ops[i] == Classify(summaries[i], existing, service)
  {
    var n := FirstFailure(summaries, existing, service);
    seq(n, i requires 0 <= i < n => Classify(summaries[i], existing, service))
  }

  /** The last summary to reach the store under this request id. */
  ghost predicate LastToReach(summaries: seq<Summary>, existing: map<int, Vector>, request: RequestId, i: int) {
    && 0 <= i < |summaries| && Reaches(summaries[i], existing, request)
    && forall j | i < j < |summaries| :: !Reaches(summaries[j], existing, request)
  }

  /** No two summaries reach the store under one request id. */
  ghost predicate Apart(summaries: seq<Summary>, existing: map<int, Vector>) {
    forall request: RequestId, i, j | 0 <= i < j < |summaries| ::
      !(Reaches(summaries[i], existing, request) && Reaches(summaries[j], existing, request))
  }

  /** Each request's entry is what the last summary to reach it asks for, and the old entry if
      none does. */
  ghost predicate AsAsked(
    before: Store, after: Store, summaries: seq<Summary>, existing: map<int, Vector>, service: Service)
  {
    && (forall request, i | LastToReach(summaries, existing, request, i) ::
          Asks(summaries[i], existing, service, Entry(after, request)))
    && forall request | Unreached(summaries, existing, request) :: Entry(after, request) == Entry(before, request)
  }

  ghost predicate Unreached(summaries: seq<Summary>, existing: map<int, Vector>, request: RequestId) {
    forall i | 0 <= i < |summaries| :: !Reaches(summaries[i], existing, request)
  }

  lemma {:induction false} OpsReach(
    summaries: seq<Summary>, existing: map<int, Vector>, service: Service, request: RequestId)
    ensures var ops := Ops(summaries, existing, service);
      && |ops| <= |summaries|
      && forall i | 0 <= i < |ops| :: Writes(ops[i], request) <==> Reaches(summaries[i], existing, request)
  {
    var ops := Ops(summaries, existing, service);
    forall i | 0 <= i < |ops| ensures Writes(ops[i], request) <==> Reaches(summaries[i], existing, request) {
      ClassifyMeaning(summaries[i], existing, service, request);
    }
  }

  /** Immediate writing leaves what the summaries ask for. */
  lemma {:induction false} DirectIsAsAsked(
    store: Store, summaries: seq<Summary>, existing: map<int, Vector>, service: Service)
    requires FirstFailure(summaries, existing, service) == |summaries|
    ensures AsAsked(store, Direct(store, Ops(summaries, existing, service)), summaries, existing, service)
  {
    var ops := Ops(summaries, existing, service);
    forall request, i | LastToReach(summaries, existing, request, i)
      ensures Asks(summaries[i], existing, service, Entry(Direct(store, ops), request))
    {
      OpsReach(summaries, existing, service, request);
      LastWriteStays(store, ops, request, i);
      ClassifyMeaning(summaries[i], existing, service, request);
    }
    forall request | Unreached(summaries, existing, request)
      ensures Entry(Direct(store, ops), request) == Entry(store, request)
    {
      OpsReach(summaries, existing, service, request);
      UnwrittenStays(store, ops, request);
    }
  }

  lemma {:induction false} ApartIsDistinct(summaries: seq<Summary>, existing: map<int, Vector>, service: Service)
    requires Apart(summaries, existing)
    ensures DistinctRequests(Ops(summaries, existing, service))
  {
    var ops := Ops(summaries, existing, service);
    forall i, j | 0 <= i < j < |ops| && (ops[i].Replace? || ops[i].Delete?)
      ensures !Writes(ops[j], ops[i].request)
    {
      OpsReach(summaries, existing, service, ops[i].request);
    }
  }

  /** The whole loop leaves what the summaries ask for when no two reach the same request, and
      in general for every request not deleted last; a request deleted last keeps an entry
      exactly when a replacement of it was waiting at the deletion. */
  lemma {:induction false} BatchedIsAsAsked(
    store: Store, summaries: seq<Summary>, existing: map<int, Vector>, service: Service, batchSize: int)
    requires FirstFailure(summaries, existing, service) == |summaries|
    ensures var ops := Ops(summaries, existing, service); var after := Batched(store, ops, batchSize);
      && (Apart(summaries, existing) ==> AsAsked(store, after, summaries, existing, service))
      && (forall request | Unreached(summaries, existing, request) :: Entry(after, request) == Entry(store, request))
      && forall request, i | LastToReach(summaries, existing, request, i) ::
           if Asks(summaries[i], existing, service, None)
           then Entry(after, request).Some? <==> IsPending(Waiting(ops[..i], batchSize), request)
           else Asks(summaries[i], existing, service, Entry(after, request))
  {
    var ops := Ops(summaries, existing, service);
    var after := Batched(store, ops, batchSize);
    if Apart(summaries, existing) {
      ApartIsDistinct(summaries, existing, service);
      BatchingIsInvisible(store, ops, batchSize);
      DirectIsAsAsked(store, summaries, existing, service);
    }
    forall request | Unreached(summaries, existing, request)
      ensures Entry(after, request) == Entry(store, request)
    {
      OpsReach(summaries, existing, service, request);
      UnwrittenIsUntouched(store, ops, batchSize, request);
      ReplayElsewhere(Run(store, ops, batchSize).store, Run(store, ops, batchSize).pending, request);
    }
    forall request, i | LastToReach(summaries, existing, request, i)
      ensures if Asks(summaries[i], existing, service, None)
              then Entry(after, request).Some? <==> IsPending(Waiting(ops[..i], batchSize), request)
              else Asks(summaries[i], existing, service, Entry(after, request))
    {
      OpsReach(summaries, existing, service, request);
      LastWriteWins(store, ops, batchSize, request, i);
      ClassifyMeaning(summaries[i], existing, service, request);
    }
  }

  datatype Counters = Counters(processed: nat, deleted: nat, skipped: nat)

  function Count(c: Counters, op: Op): Counters {
    match op
    case Replace(_, points) => c.(processed := c.processed + |points|)
    case Delete(_) => c.(deleted := c.deleted + 1)
    case SkipNoEmbedding => c.(skipped := c.skipped + 1)
    case Ignore => c
  }

  function CountAll(ops: seq<Op>): Counters {
    if ops == [] then Counters(0, 0, 0) else Count(CountAll(ops[..|ops| - 1]), ops[|ops| - 1])
  }

  lemma {:induction false} DeletedPlaces(ops: seq<Op>) returns (places: seq<nat>)
    ensures Increasing(places) && |places| == CountAll(ops).deleted
    ensures forall i: nat :: i in places <==> i < |ops| && ops[i].Delete?
  {
    places := [];
    if ops != [] {
      places := DeletedPlaces(ops[..|ops| - 1]);
      if ops[|ops| - 1].Delete? {
        OneMorePlace(places, |ops| - 1);
        places := places + [|ops| - 1];
      }
    }
  }

  lemma {:induction false} SkippedPlaces(ops: seq<Op>) returns (places: seq<nat>)
    ensures Increasing(places) && |places| == CountAll(ops).skipped
    ensures forall i: nat :: i in places <==> i < |ops| && ops[i].SkipNoEmbedding?
  {
    places := [];
    if ops != [] {
      places := SkippedPlaces(ops[..|ops| - 1]);
      if ops[|ops| - 1].SkipNoEmbedding? {
        OneMorePlace(places, |ops| - 1);
        places := places + [|ops| - 1];
      }
    }
  }

  /** The replacements are those of the replacing operations, in order. */
  lemma {:induction false} ReplacedPlaces(ops: seq<Op>) returns (places: seq<nat>)
    ensures Increasing(places) && forall i: nat :: i in places <==> i < |ops| && ops[i].Replace?
    ensures |Replacements(ops)| == |places|
    ensures forall j | 0 <= j < |places| ::
      && places[j] < |ops| && ops[places[j]].Replace?
      && Replacements(ops)[j] == Pending(ops[places[j]].request, ops[places[j]].points)
  {
    places := [];
    if ops != [] {
      var front, last := ops[..|ops| - 1], ops[|ops| - 1];
      places := ReplacedPlaces(front);
      if last.Replace? {
        OneMorePlace(places, |front|);
        assert Replacements(ops) == Replacements(front) + [Pending(last.request, last.points)];
        places := places + [|front|];
      } else {
        assert Replacements(ops) == Replacements(front);
      }
    }
  }

  /** The counters are the number of deletions, that of summaries skipped for want of an
      embedding, and that of all vectors in replacements. */
  lemma {:induction false} CountersMeaning(ops: seq<Op>)
    returns (deleted: seq<nat>, skipped: seq<nat>)
    ensures CountAll(ops) == Counters(VectorCount(Replacements(ops)), |deleted|, |skipped|)
    ensures Increasing(deleted) && forall i: nat :: i in deleted <==> i < |ops| && ops[i].Delete?
    ensures Increasing(skipped) && forall i: nat :: i in skipped <==> i < |ops| && ops[i].SkipNoEmbedding?
  {
    deleted := DeletedPlaces(ops);
    skipped := SkippedPlaces(ops);
    ProcessedVectors(ops);
  }

  lemma {:induction false} ProcessedVectors(ops: seq<Op>)
    ensures CountAll(ops).processed == VectorCount(Replacements(ops))
  {
    if ops != [] {
      var front, last := ops[..|ops| - 1], ops[|ops| - 1];
      ProcessedVectors(front);
      if last.Replace? {
        VectorsAddUp(Replacements(front), Pending(last.request, last.points));
      }
    }
  }

  /** The vectors are added up, replacement by replacement. */
  lemma {:induction false} VectorsAddUp(pending: seq<Pending>, p: Pending)
    ensures VectorCount([]) == 0
    ensures VectorCount(pending + [p]) == VectorCount(pending) + |p.points|
  {
    assert (pending + [p])[..|pending|] == pending;
  }

  function Replacements(ops: seq<Op>): seq<Pending> {
    if ops == [] then []
    else
      var earlier, last := Replacements(ops[..|ops| - 1]), ops[|ops| - 1];
      if last.Replace? then earlier + [Pending(last.request, last.points)] else earlier
  }

  lemma {:induction false} OpsSnoc(start: Store, ops: seq<Op>, op: Op, batchSize: int)
    ensures Run(start, ops + [op], batchSize) == Step(Run(start, ops, batchSize), op, batchSize)
    ensures CountAll(ops + [op]) == Count(CountAll(ops), op)
  {
    assert (ops + [op])[..|ops|] == ops;
  }

  lemma {:induction false} StepReplace(b: Batch, request: RequestId, points: seq<Point>, batchSize: int)
    ensures var extended := b.pending + [Pending(request, points)];
            && VectorCount(extended) == VectorCount(b.pending) + |points|
            && Step(b, Replace(request, points), batchSize)
               == if VectorCount(extended) >= batchSize then Batch(Replay(b.store, extended), [])
                  else Batch(b.store, extended)
  {
    assert (b.pending + [Pending(request, points)])[..|b.pending|] == b.pending;
  }

  class Backfill {
    const dryRun: bool
    const batchSize: int
    var store: Store
    var pending: seq<Pending>
    var pendingVectorCount: nat
    var counters: Counters

    constructor (dryRun: bool, batchSize: int, store: Store)
      ensures this.dryRun == dryRun && this.batchSize == batchSize && this.store == store
      ensures pending == [] && pendingVectorCount == 0 && counters == Counters(0, 0, 0)
    {
      this.dryRun, this.batchSize, this.store := dryRun, batchSize, store;
      pending, pendingVectorCount, counters := [], 0, Counters(0, 0, 0);
    }

    /** Where a run on the given starting store stands after these operations. */
    ghost predicate Follows(start: Store, ops: seq<Op>)
      reads this
    {
      && pendingVectorCount == VectorCount(pending)
      && counters == CountAll(ops)
      && (if dryRun then store == start
          else store == Run(start, ops, batchSize).store && pending == Run(start, ops, batchSize).pending)
    }

    method FlushPending()
      modifies this`store, this`pending, this`pendingVectorCount
      ensures pending == [] && pendingVectorCount == 0
      ensures store == if dryRun then old(store) else Replay(old(store), old(pending))
    {
      if !dryRun {
        for i := 0 to |pending|
          invariant pending == old(pending)
          invariant store == Replay(old(store), pending[..i])
        {
          assert pending[..i + 1][..i] == pending[..i];
          store := store[pending[i].request := pending[i].points];
        }
        assert pending[..|pending|] == pending;
      }
      pending := [];
      pendingVectorCount := 0;
    }

    method DeleteNow(request: RequestId, ghost start: Store, ghost ops: seq<Op>)
      requires Follows(start, ops)
      modifies this`store, this`counters
      ensures Follows(start, ops + [Delete(request)])
    {
      OpsSnoc(start, ops, Delete(request), batchSize);
      if !dryRun {
        store := store - {request};
      }
      counters := counters.(deleted := counters.deleted + 1);
    }

    method Defer(request: RequestId, points: seq<Point>, ghost start: Store, ghost ops: seq<Op>)
      requires Follows(start, ops)
      modifies this`store, this`pending, this`pendingVectorCount, this`counters
      ensures Follows(start, ops + [Replace(request, points)])
    {
      OpsSnoc(start, ops, Replace(request, points), batchSize);
      StepReplace(Batch(store, pending), request, points, batchSize);
      ghost var extended, written := pending + [Pending(request, points)], store;
      pending := pending + [Pending(request, points)];
      pendingVectorCount := pendingVectorCount + |points|;
      counters := counters.(processed := counters.processed + |points|);
      assert pending == extended && pendingVectorCount == VectorCount(extended);
      if pendingVectorCount >= batchSize {
        FlushPending();
        assert !dryRun ==> store == Replay(written, extended);
      }
    }

    method HandleSummary(summary: Summary, existing: map<int, Vector>, service: Service,
                         ghost start: Store, ghost ops: seq<Op>) returns (failure: Option<Failure>)
      requires Follows(start, ops)
      modifies this`store, this`pending, this`pendingVectorCount, this`counters
      ensures failure.Some? <==> Fails(summary, existing, service)
      ensures failure.Some? ==> failure.value.WrongBatchLength? && Follows(start, ops)
      ensures failure.None? ==> Follows(start, ops + [Classify(summary, existing, service)])
    {
      failure := None;
      if !Fails(summary, existing, service) {
        OpsSnoc(start, ops, Classify(summary, existing, service), batchSize);
      }
      if Absent(summary.id) || Absent(summary.requestId) {
        return;
      }
      var request := summary.requestId.value;
      if summary.payload.None? {
        DeleteNow(request, start, ops);
        return;
      }
      var payload := summary.payload.value;
      if summary.id.value !in existing {
        counters := counters.(skipped := counters.skipped + 1);
        return;
      }
      if payload.windows != [] {
        var embedded := GenerateChunkWindowVectors(service, payload.windows);
        if embedded.Err? {
          return Some(embedded.error);
        }
        var (vectors, metadatas) := embedded.value;
        // windows exist, so vectors do: the code's branch for an empty list never runs
        assert vectors != [];
        Defer(request, Points(vectors, metadatas), start, ops);
      } else if payload.text == "" {
        DeleteNow(request, start, ops);
      } else {
        Defer(request, [Point(existing[summary.id.value], payload.metadata)], start, ops);
      }
    }

    /** The whole loop. When it runs to its final flush nothing is left pending, and the
        store is the batched one, or untouched by a dry run. A batch of the wrong length
        ends the run at once: what is pending then is never written. Either way the
        counters are those of the summaries dealt with, dry run or not. */
    method ProcessAll(summaries: seq<Summary>, existing: map<int, Vector>, service: Service)
      returns (failure: Option<Failure>)
      requires pending == [] && pendingVectorCount == 0 && counters == Counters(0, 0, 0)
      modifies this
      ensures failure.Some? <==> exists i :: 0 <= i < |summaries| && GoesWrong(summaries[i], existing, service)
      ensures failure.None? && !dryRun && Apart(summaries, existing) ==>
        AsAsked(old(store), store, summaries, existing, service)
      ensures var ops := Ops(summaries, existing, service);
        && counters == CountAll(ops)
        && (dryRun ==> store == old(store))
        && (failure.None? ==> pending == [] && pendingVectorCount == 0)
        && (!dryRun && failure.None? ==> store == Batched(old(store), ops, batchSize))
        && (!dryRun && failure.Some? ==> store == Run(old(store), ops, batchSize).store)
    {
      ghost var ops := Ops(summaries, existing, service);
      ghost var start := store;
      for i := 0 to |summaries|
        invariant i <= |ops| && Follows(start, ops[..i])
      {
        failure := HandleSummary(summaries[i], existing, service, start, ops[..i]);
        if failure.Some? {
          assert ops[..i] == ops;
          return;
        }
        assert ops[..i] + [ops[i]] == ops[..i + 1];
      }
      assert ops[..|ops|] == ops;
      failure := None;
      if pending != [] {
        FlushPending();
      }
      BatchedIsAsAsked(start, summaries, existing, service, batchSize);
    }
  }
}
