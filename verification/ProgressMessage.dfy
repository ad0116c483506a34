/** The editable progress message of app/core/telegram_progress_message.py.
    Every await in update() is a point where another task may run, so an update
    is a sequence of atomic segments and a run is any interleaving of them. */
module ProgressMessage {
  import opened Text

  type Key = (int, int)  // chat id, trigger message id
  type MessageId = int
  type LockId = nat
  type TaskId = nat

  const TTL_SECONDS := 3600.0

  // ----- the two dictionaries -----

  datatype Entry = Entry(id: MessageId, created: real)

  /** The tracked messages and the per-key locks. `nextLock` stands for allocating a new
      lock object; `epochs` counts how often each key was forgotten, that is, cleared or
      evicted. */
  datatype Table = Table(
    entries: map<Key, Entry>, locks: map<Key, LockId>, nextLock: LockId, epochs: map<Key, nat>)

  function EpochIn(epochs: map<Key, nat>, k: Key): nat {
    if k in epochs then epochs[k] else 0
  }

  function Epoch(d: Table, k: Key): nat {
    EpochIn(d.epochs, k)
  }

  function Bump(epochs: map<Key, nat>, keys: set<Key>): map<Key, nat> {
    map k | k in epochs.Keys + keys :: EpochIn(epochs, k) + (if k in keys then 1 else 0)
  }

  function Stale(entries: map<Key, Entry>, now: real): set<Key> {
    set k | k in entries && now - entries[k].created > TTL_SECONDS
  }

  function Forget(d: Table, keys: set<Key>): Table {
    Table(d.entries - keys, d.locks - keys, d.nextLock, Bump(d.epochs, keys))
  }

  function WithLock(d: Table, k: Key): (d': Table)
    ensures k in d'.locks
  {
    if k in d.locks then d
    else d.(locks := d.locks[k := d.nextLock], nextLock := d.nextLock + 1)
  }

  function Record(d: Table, k: Key, id: MessageId, at: real): Table {
    d.(entries := d.entries[k := Entry(id, at)])
  }

  function Tracked(d: Table, k: Key): Option<MessageId> {
    if k in d.entries then Some(d.entries[k].id) else None
  }

  // ----- tasks -----

  /** Where a task stands between two of its segments. */
  datatype Phase =
    | Arrived
    | ReplyingPlain
    | Waiting(lock: LockId)
    | Drafting(lock: LockId)
    | Editing(lock: LockId, target: MessageId)
    | Sending(lock: LockId)
    | Done(result: Option<MessageId>)
  {
    predicate Critical() {
      Drafting? || Editing? || Sending?
    }

    predicate HasLock() {
      Waiting? || Critical()
    }
  }

  /** A message without a chat or message id has no key. The epoch is that of the key when
      the task entered, zero before. */
  datatype Task = Task(key: Option<Key>, phase: Phase, epoch: nat)

  /** What lets a task run its next segment. */
  datatype Event =
    | Enter(now: real)
    | PlainReturns
    | Acquire(hasDraft: bool)
    | DraftReturns(ok: bool)
    | EditReturns(ok: bool)
    | SendReturns(newId: Option<MessageId>, at: real)
    | Raises

  /** What the transport did for a key during one epoch: the messages sent and when, and how
      often it failed; and how many segments were run by tasks that had entered in an earlier
      epoch. */
  datatype History = History(
    sent: seq<MessageId>, sentAt: seq<real>, failedEdits: nat, failedSends: nat, drafts: nat, raised: nat, strays: nat)
  {
    predicate Undisturbed() {
      strays == 0
    }

    /** Every send got through, no draft took its place and nothing was raised. */
    predicate Sound() {
      Undisturbed() && failedSends == 0 && drafts == 0 && raised == 0
    }
  }

  const BLANK := History([], [], 0, 0, 0, 0, 0)

  // ----- one segment -----

  /** After the draft attempt: edit the tracked message, or send a new one. */
  function EditOrSend(d: Table, k: Key, lock: LockId): Phase {
    match Tracked(d, k)
    case Some(id) => Editing(lock, id)
    case None => Sending(lock)
  }

  function NextTable(d: Table, k: Key, e: Event): Table {
    match e
    case Enter(now) => WithLock(Forget(d, Stale(d.entries, now)), k)
    case SendReturns(Some(id), at) => Record(d, k, id, at)
    case _ => d
  }

  function NextPhase(d: Table, k: Key, phase: Phase, e: Event): Phase
    requires e.Acquire? || e.DraftReturns? || e.EditReturns? ==> phase.HasLock()
    requires e.EditReturns? ==> phase.Editing?
  {
    match e
    case Enter(_) => Waiting(NextTable(d, k, e).locks[k])
    case Acquire(hasDraft) => if hasDraft then Drafting(phase.lock) else EditOrSend(d, k, phase.lock)
    case DraftReturns(ok) => if ok then Done(Tracked(d, k)) else EditOrSend(d, k, phase.lock)
    case EditReturns(ok) => if ok then Done(Some(phase.target)) else Sending(phase.lock)
    case SendReturns(newId, _) => Done(newId)
    case _ => Done(None)
  }

  function NextPast(past: History, e: Event): History {
    match e
    case DraftReturns(true) => past.(drafts := past.drafts + 1)
    case EditReturns(false) => past.(failedEdits := past.failedEdits + 1)
    case SendReturns(Some(id), at) => past.(sent := past.sent + [id], sentAt := past.sentAt + [at])
    case SendReturns(None, _) => past.(failedSends := past.failedSends + 1)
    case Raises => past.(raised := past.raised + 1)
    case _ => past
  }

  /** The same, when the task may have entered in an earlier epoch. */
  function Logged(past: History, e: Event, stray: bool): History {
    var next := NextPast(past, e);
    if stray then next.(strays := next.strays + 1) else next
  }

  /** `async with lock`: entering takes the lock, leaving in any way gives it back. */
  function HeldAfter(held: map<LockId, TaskId>, t: TaskId, before: Phase, after: Phase): map<LockId, TaskId> {
    if after.Critical() then held[after.lock := t]
    else if before.Critical() then held - {before.lock}
    else held
  }

  // ----- runs -----

  datatype State = State(
    table: Table, held: map<LockId, TaskId>, tasks: map<TaskId, Task>, history: map<(Key, nat), History>)
  {
    function PastOf(k: Key, epoch: nat): History {
      if (k, epoch) in history then history[(k, epoch)] else BLANK
    }

    /** The history of the key's current epoch. */
    function Past(k: Key): History {
      PastOf(k, Epoch(table, k))
    }

    predicate At(t: TaskId, k: Key) {
      t in tasks && tasks[t].key == Some(k)
    }
  }

  const INITIAL := State(Table(map[], map[], 0, map[]), map[], map[], map[])

  datatype Action =
    | Spawn(task: TaskId, key: Option<Key>)
    | Advance(task: TaskId, event: Event)
    | Clear(cleared: Key)

  predicate Enabled(s: State, a: Action) {
    match a
    case Spawn(t, _) => t !in s.tasks
    case Advance(t, e) => t in s.tasks && CanRun(s.held, s.tasks[t].phase, e)
    case Clear(_) => true
  }

  predicate CanRun(held: map<LockId, TaskId>, phase: Phase, e: Event) {
    match e
    case Enter(_) => phase.Arrived?
    case PlainReturns => phase.ReplyingPlain?
    case Acquire(_) => phase.Waiting? && phase.lock !in held
    case DraftReturns(_) => phase.Drafting?
    case EditReturns(_) => phase.Editing?
    case SendReturns(_, _) => phase.Sending?
    case Raises => phase.HasLock() || phase.ReplyingPlain?
  }

  function Step(s: State, a: Action): State
    requires Enabled(s, a)
  {
    match a
    case Spawn(t, key) => s.(tasks := s.tasks[t := Task(key, Arrived, 0)])
    case Clear(k) => s.(table := Forget(s.table, {k}))
    case Advance(t, e) =>
      var Task(key, phase, epoch) := s.tasks[t];
      match key
      case None =>
        var after := if e.Enter? then ReplyingPlain else Done(None);
        s.(tasks := s.tasks[t := Task(key, after, epoch)])
      case Some(k) =>
        if e.Enter? then EnterStep(s.(table := Forget(s.table, Stale(s.table.entries, e.now))), t, k)
        else SegmentStep(s, t, k, e)
  }

  /** After eviction: get the key's lock and wait for it. */
  function EnterStep(s: State, t: TaskId, k: Key): State {
    var d := WithLock(s.table, k);
    s.(table := d, tasks := s.tasks[t := Task(Some(k), Waiting(d.locks[k]), Epoch(d, k))])
  }

  function SegmentStep(s: State, t: TaskId, k: Key, e: Event): State
    requires t in s.tasks && CanRun(s.held, s.tasks[t].phase, e) && !e.Enter?
  {
    var Task(_, phase, epoch) := s.tasks[t];
    var after, now := NextPhase(s.table, k, phase, e), Epoch(s.table, k);
    State(
      NextTable(s.table, k, e),
      HeldAfter(s.held, t, phase, after),
      s.tasks[t := Task(Some(k), after, epoch)],
      s.history[(k, now) := Logged(s.PastOf(k, now), e, epoch != now)])
  }

  // ----- invariants -----

  /** A lock object is held by exactly the one task inside its critical section. */
  ghost predicate LocksExclusive(s: State) {
    && (forall l <- s.held :: s.held[l] in s.tasks
          && s.tasks[s.held[l]].phase.Critical() && s.tasks[s.held[l]].phase.lock == l)
    && (forall t <- s.tasks :: s.tasks[t].phase.Critical() ==>
          s.tasks[t].phase.lock in s.held && s.held[s.tasks[t].phase.lock] == t)
    && (forall t <- s.tasks :: s.tasks[t].phase.HasLock() ==> s.tasks[t].key.Some?)
  }

  ghost predicate OnKeyLock(d: Table, k: Key, phase: Phase) {
    phase.HasLock() ==> k in d.locks && phase.lock == d.locks[k]
  }

  /** The table tracks the latest message, and each message beyond the first was
      preceded by its own failed edit. */
  ghost predicate TracksLatest(d: Table, past: History, k: Key) {
    && |past.sentAt| == |past.sent|
    && (k in d.entries <==> past.sent != [])
    && (k in d.entries ==> d.entries[k] == Entry(past.sent[|past.sent| - 1], past.sentAt[|past.sent| - 1]))
    && |past.sent| <= 1 + past.failedEdits
  }

  ghost predicate PhaseAgrees(d: Table, past: History, k: Key, phase: Phase) {
    match phase
    case Editing(_, id) => k in d.entries && d.entries[k].id == id
    case Sending(_) => k in d.entries ==> |past.sent| <= past.failedEdits
    case Done(Some(id)) => id in past.sent
    case Done(None) => !past.Sound()
    case ReplyingPlain => false
    case _ => true
  }

  /** Tasks that entered in the same epoch of a key wait for the same lock, and in the
      current epoch it is the one on record. */
  ghost predicate LocksByEpoch(s: State, k: Key) {
    && (forall t | s.At(t, k) :: s.tasks[t].epoch <= Epoch(s.table, k) && !s.tasks[t].phase.ReplyingPlain?)
    && (forall t | s.At(t, k) && s.tasks[t].epoch == Epoch(s.table, k) :: OnKeyLock(s.table, k, s.tasks[t].phase))
    && (forall t, u | s.At(t, k) && s.At(u, k) && s.tasks[t].phase.HasLock() && s.tasks[u].phase.HasLock()
          && s.tasks[t].epoch == s.tasks[u].epoch :: s.tasks[t].phase.lock == s.tasks[u].phase.lock)
  }

  /** As long as sends get through, each failed edit has led to one more message, but for the
      one being sent. */
  ghost predicate SendsExact(past: History, sending: bool) {
    past.failedSends == 0 && past.raised == 0 ==>
      if past.sent == [] then past.failedEdits == 0
      else |past.sent| == past.failedEdits + (if sending then 0 else 1)
  }

  /** Some task of the key's current epoch is sending. */
  ghost predicate SomeoneSends(s: State, k: Key) {
    exists t :: s.At(t, k) && s.tasks[t].epoch == Epoch(s.table, k) && s.tasks[t].phase.Sending?
  }

  /** While no task of an earlier epoch has run in the current one, the tasks of the current
      one agree with the table. */
  ghost predicate MessagesAgree(s: State, k: Key) {
    s.Past(k).Undisturbed() ==>
      && TracksLatest(s.table, s.Past(k), k)
      && SendsExact(s.Past(k), SomeoneSends(s, k))
      && forall t | s.At(t, k) && s.tasks[t].epoch == Epoch(s.table, k) ::
           PhaseAgrees(s.table, s.Past(k), k, s.tasks[t].phase)
  }

  /** The bound on messages, for every epoch, and nothing on record for those to come. */
  ghost predicate EpochsBounded(s: State, k: Key) {
    forall e: nat ::
      && (e > Epoch(s.table, k) ==> s.PastOf(k, e) == BLANK)
      && (s.PastOf(k, e).Undisturbed() ==> |s.PastOf(k, e).sent| <= 1 + s.PastOf(k, e).failedEdits)
  }

  ghost predicate KeyInv(s: State, k: Key) {
    LocksByEpoch(s, k) && MessagesAgree(s, k) && EpochsBounded(s, k)
  }

  /** Lock objects in use were allocated. */
  ghost predicate LocksAllocated(s: State) {
    && (forall k <- s.table.locks :: s.table.locks[k] < s.table.nextLock)
    && (forall t <- s.tasks :: s.tasks[t].phase.HasLock() ==> s.tasks[t].phase.lock < s.table.nextLock)
  }

  ghost predicate Inv(s: State) {
    LocksExclusive(s) && LocksAllocated(s) && forall k: Key :: KeyInv(s, k)
  }

  /** A change of phase that takes a lock only when it is free and then keeps it. */
  predicate LegalMove(held: map<LockId, TaskId>, before: Phase, after: Phase) {
    after.Critical() ==>
      before.HasLock() && after.lock == before.lock && (before.Critical() || before.lock !in held)
  }

  lemma {:induction false} MoveKeepsLocks(s: State, s': State, t: TaskId, after: Phase)
    requires LocksExclusive(s) && t in s.tasks && LegalMove(s.held, s.tasks[t].phase, after)
    requires t in s'.tasks && s'.tasks[t].key == s.tasks[t].key && s'.tasks[t].phase == after
    requires s'.tasks == s.tasks[t := s'.tasks[t]]
    requires after.HasLock() ==> s.tasks[t].key.Some?
    requires s'.held == HeldAfter(s.held, t, s.tasks[t].phase, after)
    ensures LocksExclusive(s')
  {}

  lemma SegmentIsLegal(d: Table, held: map<LockId, TaskId>, k: Key, phase: Phase, e: Event)
    requires CanRun(held, phase, e)
    ensures LegalMove(held, phase, NextPhase(d, k, phase, e))
  {}

  lemma {:induction false} StepKeepsLocks(s: State, a: Action)
    requires LocksExclusive(s) && Enabled(s, a)
    ensures LocksExclusive(Step(s, a))
  {
    if a.Advance? {
      var Task(key, phase, _) := s.tasks[a.task];
      if key.Some? {
        SegmentIsLegal(s.table, s.held, key.value, phase, a.event);
      } else {
        assert !phase.HasLock();
      }
      MoveKeepsLocks(s, Step(s, a), a.task, Step(s, a).tasks[a.task].phase);
    }
  }

  lemma {:induction false} StepKeepsAllocated(s: State, a: Action)
    requires LocksAllocated(s) && Enabled(s, a)
    ensures LocksAllocated(Step(s, a))
  {
    if a.Advance? && s.tasks[a.task].key.Some? {
      var k := s.tasks[a.task].key.value;
      if a.event.Enter? {
        EnterKeepsAllocated(s.(table := Forget(s.table, Stale(s.table.entries, a.event.now))), a.task, k);
      } else {
        SegmentKeepsAllocated(s, a.task, k, a.event);
      }
    }
  }

  lemma {:induction false} EnterKeepsAllocated(s: State, t: TaskId, k: Key)
    requires LocksAllocated(s)
    ensures LocksAllocated(EnterStep(s, t, k))
  {}

  lemma {:induction false} SegmentKeepsAllocated(s: State, t: TaskId, k: Key, e: Event)
    requires LocksAllocated(s) && t in s.tasks && CanRun(s.held, s.tasks[t].phase, e) && !e.Enter?
    ensures LocksAllocated(SegmentStep(s, t, k, e))
  {
    var before, after := s.tasks[t].phase, SegmentStep(s, t, k, e).tasks[t].phase;
    assert after.HasLock() ==> before.HasLock() && after.lock == before.lock;
  }

  /** Two tasks of a key inside the critical section entered in different epochs. */
  lemma {:induction false} CriticalAlone(s: State, k: Key, t: TaskId, u: TaskId)
    requires Inv(s) && s.At(t, k) && s.At(u, k)
    requires s.tasks[t].phase.Critical() && s.tasks[u].phase.Critical()
    requires s.tasks[t].epoch == s.tasks[u].epoch
    ensures t == u
  {
    assert KeyInv(s, k);
  }

  // ----- a key left alone -----

  /** Nothing the key's invariant speaks of has changed, except that tasks may have arrived. */
  ghost predicate KeyCarries(s: State, s': State, k: Key) {
    && Epoch(s'.table, k) == Epoch(s.table, k)
    && (k in s'.table.entries <==> k in s.table.entries)
    && (k in s.table.entries ==> s'.table.entries[k] == s.table.entries[k])
    && (k in s'.table.locks <==> k in s.table.locks)
    && (k in s.table.locks ==> s'.table.locks[k] == s.table.locks[k])
    && (forall t | s'.At(t, k) :: s'.tasks[t] == Task(Some(k), Arrived, 0) || (s.At(t, k) && s'.tasks[t] == s.tasks[t]))
    && (forall t | s.At(t, k) :: s'.At(t, k) && s'.tasks[t] == s.tasks[t])
    && (forall e: nat :: s'.PastOf(k, e) == s.PastOf(k, e))
  }

  lemma {:induction false} CarriedKeyKeeps(s: State, s': State, k: Key)
    requires KeyInv(s, k) && KeyCarries(s, s', k)
    ensures KeyInv(s', k)
  {
    CarriedLocksKeep(s, s', k);
    CarriedMessagesKeep(s, s', k);
  }

  lemma {:induction false} CarriedMessagesKeep(s: State, s': State, k: Key)
    requires MessagesAgree(s, k) && KeyCarries(s, s', k)
    ensures MessagesAgree(s', k)
  {
    assert s'.Past(k) == s.Past(k);
    assert SomeoneSends(s', k) <==> SomeoneSends(s, k);
  }

  lemma {:induction false} CarriedLocksKeep(s: State, s': State, k: Key)
    requires LocksByEpoch(s, k) && KeyCarries(s, s', k)
    ensures LocksByEpoch(s', k)
  {}

  // ----- forgetting -----

  lemma {:induction false} ForgetKeepsKey(s: State, keys: set<Key>, k: Key)
    requires KeyInv(s, k)
    ensures KeyInv(s.(table := Forget(s.table, keys)), k)
  {
    var s' := s.(table := Forget(s.table, keys));
    if k in keys {
      NewEpochKeeps(s, keys, k);
    } else {
      CarriedKeyKeeps(s, s', k);
    }
  }

  lemma {:induction false} NewEpochKeeps(s: State, keys: set<Key>, k: Key)
    requires KeyInv(s, k) && k in keys
    ensures KeyInv(s.(table := Forget(s.table, keys)), k)
  {
    var s' := s.(table := Forget(s.table, keys));
    assert Epoch(s'.table, k) == Epoch(s.table, k) + 1;
    assert forall e: nat :: s'.PastOf(k, e) == s.PastOf(k, e);
    assert s'.Past(k) == BLANK;
    assert forall t | s'.At(t, k) :: s.At(t, k) && s'.tasks[t].epoch < Epoch(s'.table, k);
  }

  // ----- entering -----

  lemma {:induction false} EnterKeepsKey(s: State, t: TaskId, k: Key)
    requires KeyInv(s, k) && s.At(t, k) && s.tasks[t].phase.Arrived?
    ensures KeyInv(EnterStep(s, t, k), k)
  {
    var s' := EnterStep(s, t, k);
    EnterKeepsLocks(s, t, k);
    EnterKeepsMessages(s, t, k);
    assert forall e: nat :: s'.PastOf(k, e) == s.PastOf(k, e);
  }

  lemma {:induction false} EnterKeepsLocks(s: State, t: TaskId, k: Key)
    requires LocksByEpoch(s, k) && s.At(t, k) && s.tasks[t].phase.Arrived?
    ensures LocksByEpoch(EnterStep(s, t, k), k)
    ensures Epoch(EnterStep(s, t, k).table, k) == Epoch(s.table, k)
  {
    var s' := EnterStep(s, t, k);
    assert forall u | s'.At(u, k) && u != t :: s.At(u, k) && s'.tasks[u] == s.tasks[u];
  }

  lemma {:induction false} EnterKeepsMessages(s: State, t: TaskId, k: Key)
    requires MessagesAgree(s, k) && s.At(t, k) && s.tasks[t].phase.Arrived?
    ensures MessagesAgree(EnterStep(s, t, k), k)
  {
    var s' := EnterStep(s, t, k);
    assert s'.Past(k) == s.Past(k) && s'.table.entries == s.table.entries;
    assert forall u | u != t :: (s'.At(u, k) <==> s.At(u, k)) && (s.At(u, k) ==> s'.tasks[u] == s.tasks[u]);
    assert SomeoneSends(s', k) <==> SomeoneSends(s, k);
  }

  // ----- the other segments -----

  /** A segment keeps its own key's table, history and phase in agreement. */
  lemma OwnSegment(d: Table, past: History, k: Key, phase: Phase, e: Event)
    requires TracksLatest(d, past, k) && PhaseAgrees(d, past, k, phase)
    requires (e.Acquire? ==> phase.Waiting?) && (e.DraftReturns? ==> phase.Drafting?)
    requires (e.EditReturns? ==> phase.Editing?) && (e.SendReturns? ==> phase.Sending?)
    requires e != PlainReturns && !e.Enter?
    ensures var d', past', phase' := NextTable(d, k, e), NextPast(past, e), NextPhase(d, k, phase, e);
      TracksLatest(d', past', k) && PhaseAgrees(d', past', k, phase')
  {}

  /** It also leaves another task of the key in agreement: only a task outside the
      critical section can be running while that one is inside. */
  lemma Bystander(d: Table, past: History, k: Key, e: Event, other: Phase)
    requires PhaseAgrees(d, past, k, other) && !e.Enter?
    requires other.Critical() ==> e.Raises?
    ensures PhaseAgrees(NextTable(d, k, e), NextPast(past, e), k, other)
  {}

  /** A segment leaves the locks of the table alone and its task with its lock or none. */
  lemma {:induction false} SegmentKeepsLockPlan(s: State, t: TaskId, k: Key, e: Event)
    requires LocksByEpoch(s, k) && s.At(t, k) && CanRun(s.held, s.tasks[t].phase, e) && !e.Enter?
    ensures LocksByEpoch(SegmentStep(s, t, k, e), k)
  {
    var s' := SegmentStep(s, t, k, e);
    var before, after := s.tasks[t].phase, s'.tasks[t].phase;
    assert after.HasLock() ==> before.HasLock() && after.lock == before.lock;
    assert s'.table.locks == s.table.locks && s'.table.epochs == s.table.epochs;
    assert forall u | s'.At(u, k) && u != t :: s.At(u, k) && s'.tasks[u] == s.tasks[u];
  }

  /** The message count stays exact: of the tasks of the epoch at most the running one sends. */
  lemma {:induction false} SegmentKeepsCount(s: State, t: TaskId, k: Key, e: Event)
    requires LocksExclusive(s) && LocksByEpoch(s, k) && MessagesAgree(s, k) && s.Past(k).Undisturbed()
    requires s.At(t, k) && CanRun(s.held, s.tasks[t].phase, e) && !e.Enter?
    requires s.tasks[t].epoch == Epoch(s.table, k)
    ensures var s' := SegmentStep(s, t, k, e); SendsExact(NextPast(s.Past(k), e), SomeoneSends(s', k))
  {
    var s', now := SegmentStep(s, t, k, e), Epoch(s.table, k);
    var before, after := s.tasks[t].phase, s'.tasks[t].phase;
    assert s'.At(t, k) && s'.tasks[t].epoch == now == Epoch(s'.table, k);
    assert forall u | u != t :: s'.At(u, k) <==> s.At(u, k);
    assert forall u | u != t && s.At(u, k) :: s'.tasks[u] == s.tasks[u];
    if !e.Raises? {
      AloneAtWork(s, t, k, e);
      assert SomeoneSends(s, k) <==> before.Sending?;
      assert SomeoneSends(s', k) <==> after.Sending?;
      CountStep(s.table, s.Past(k), k, before, e);
    }
  }

  /** A task that gets the lock or has it is the only one of its epoch inside. */
  lemma {:induction false} AloneAtWork(s: State, t: TaskId, k: Key, e: Event)
    requires LocksExclusive(s) && LocksByEpoch(s, k) && s.At(t, k)
    requires CanRun(s.held, s.tasks[t].phase, e) && !e.Enter? && !e.Raises?
    ensures forall u | u != t && s.At(u, k) && s.tasks[u].epoch == s.tasks[t].epoch :: !s.tasks[u].phase.Critical()
  {}

  lemma CountStep(d: Table, past: History, k: Key, phase: Phase, e: Event)
    requires TracksLatest(d, past, k) && PhaseAgrees(d, past, k, phase) && SendsExact(past, phase.Sending?)
    requires (e.Acquire? ==> phase.Waiting?) && (e.DraftReturns? ==> phase.Drafting?)
    requires (e.EditReturns? ==> phase.Editing?) && (e.SendReturns? ==> phase.Sending?)
    requires e != PlainReturns && !e.Enter? && !e.Raises?
    ensures SendsExact(NextPast(past, e), NextPhase(d, k, phase, e).Sending?)
  {}

  /** A task of the current epoch that runs keeps every task of that epoch in agreement. */
  lemma {:induction false} SegmentKeepsMessages(s: State, t: TaskId, k: Key, e: Event)
    requires LocksExclusive(s) && LocksByEpoch(s, k) && MessagesAgree(s, k)
    requires s.At(t, k) && CanRun(s.held, s.tasks[t].phase, e) && !e.Enter?
    ensures MessagesAgree(SegmentStep(s, t, k, e), k)
  {
    var s', now := SegmentStep(s, t, k, e), Epoch(s.table, k);
    assert Epoch(s'.table, k) == now;
    if s.tasks[t].epoch == now && s.Past(k).Undisturbed() {
      assert s'.Past(k) == NextPast(s.Past(k), e);
      SegmentKeepsCount(s, t, k, e);
      OwnSegment(s.table, s.Past(k), k, s.tasks[t].phase, e);
      forall u | s'.At(u, k) && u != t && s'.tasks[u].epoch == now
        ensures PhaseAgrees(s'.table, s'.Past(k), k, s'.tasks[u].phase)
      {
        assert s.At(u, k) && s'.tasks[u] == s.tasks[u];
        Bystander(s.table, s.Past(k), k, e, s.tasks[u].phase);
      }
    } else {
      assert !s'.Past(k).Undisturbed();
    }
  }

  lemma {:induction false} SegmentKeepsKey(s: State, t: TaskId, k: Key, e: Event)
    requires LocksExclusive(s) && KeyInv(s, k)
    requires s.At(t, k) && CanRun(s.held, s.tasks[t].phase, e) && !e.Enter?
    ensures KeyInv(SegmentStep(s, t, k, e), k)
  {
    var s', now := SegmentStep(s, t, k, e), Epoch(s.table, k);
    SegmentKeepsLockPlan(s, t, k, e);
    SegmentKeepsMessages(s, t, k, e);
    assert Epoch(s'.table, k) == now && s'.Past(k) == s'.PastOf(k, now);
    assert forall other: nat | other != now :: s'.PastOf(k, other) == s.PastOf(k, other);
  }

  // ----- other keys -----

  /** A segment of one key leaves another key's entry and lock alone, except that entering
      evicts it when it is stale. */
  lemma ForeignSegment(d: Table, k: Key, e: Event, other: Key)
    requires other != k
    ensures var d' := NextTable(d, k, e);
      if e.Enter? && other in Stale(d.entries, e.now)
      then Epoch(d', other) == Epoch(d, other) + 1 && other !in d'.entries && other !in d'.locks
      else
        && (other in d'.entries <==> other in d.entries)
        && (other in d.entries ==> d'.entries[other] == d.entries[other])
        && (other in d'.locks <==> other in d.locks)
        && (other in d.locks ==> d'.locks[other] == d.locks[other])
        && Epoch(d', other) == Epoch(d, other)
  {}

  /** The same for whole steps: other keys are never affected. */
  lemma {:induction false} OtherKeysUntouched(s: State, t: TaskId, e: Event, k: Key, other: Key)
    requires Enabled(s, Advance(t, e)) && s.At(t, k) && other != k
    ensures var s' := Step(s, Advance(t, e));
      && s'.table == NextTable(s.table, k, e)
      && (forall u <- s.tasks | u != t :: u in s'.tasks && s'.tasks[u] == s.tasks[u])
      && (forall epoch: nat :: s'.PastOf(other, epoch) == s.PastOf(other, epoch))
      && (if e.Enter? && other in s.table.entries && e.now - s.table.entries[other].created > TTL_SECONDS
          then Epoch(s'.table, other) == Epoch(s.table, other) + 1
          else KeyCarries(s, s', other))
  {
    ForeignSegment(s.table, k, e, other);
  }

  // ----- every step -----

  lemma {:induction false} ArrivalCarries(s: State, t: TaskId, key: Option<Key>, k: Key)
    requires Enabled(s, Spawn(t, key))
    ensures KeyCarries(s, Step(s, Spawn(t, key)), k)
  {}

  lemma {:induction false} KeylessCarries(s: State, t: TaskId, e: Event, k: Key)
    requires Enabled(s, Advance(t, e)) && s.tasks[t].key.None?
    ensures KeyCarries(s, Step(s, Advance(t, e)), k)
  {}

  lemma {:induction false} ForeignEnterCarries(s: State, t: TaskId, own: Key, k: Key)
    requires s.At(t, own) && own != k
    ensures KeyCarries(s, EnterStep(s, t, own), k)
  {}

  lemma {:induction false} EnteringKeepsKey(s: State, t: TaskId, own: Key, now: real, k: Key)
    requires KeyInv(s, k) && s.At(t, own) && s.tasks[t].phase.Arrived?
    ensures KeyInv(Step(s, Advance(t, Enter(now))), k)
  {
    var stale := Stale(s.table.entries, now);
    var s1 := s.(table := Forget(s.table, stale));
    ForgetKeepsKey(s, stale, k);
    if own == k {
      EnterKeepsKey(s1, t, k);
    } else {
      ForeignEnterCarries(s1, t, own, k);
      CarriedKeyKeeps(s1, EnterStep(s1, t, own), k);
    }
  }

  lemma {:induction false} StepKeepsKey(s: State, a: Action, k: Key)
    requires LocksExclusive(s) && KeyInv(s, k) && Enabled(s, a)
    ensures KeyInv(Step(s, a), k)
  {
    match a
    case Spawn(t, key) =>
      ArrivalCarries(s, t, key, k);
      CarriedKeyKeeps(s, Step(s, a), k);
    case Clear(cleared) => ForgetKeepsKey(s, {cleared}, k);
    case Advance(t, e) =>
      if s.tasks[t].key.None? {
        KeylessCarries(s, t, e, k);
        CarriedKeyKeeps(s, Step(s, a), k);
      } else if e.Enter? {
        EnteringKeepsKey(s, t, s.tasks[t].key.value, e.now, k);
      } else if s.At(t, k) {
        SegmentKeepsKey(s, t, k, e);
      } else {
        OtherKeysUntouched(s, t, e, s.tasks[t].key.value, k);
        CarriedKeyKeeps(s, Step(s, a), k);
      }
  }

  lemma {:induction false} StepKeepsInv(s: State, a: Action)
    requires Inv(s) && Enabled(s, a)
    ensures Inv(Step(s, a))
  {
    StepKeepsLocks(s, a);
    StepKeepsAllocated(s, a);
    forall k: Key ensures KeyInv(Step(s, a), k) {
      StepKeepsKey(s, a, k);
    }
  }

  // ----- whole runs -----

  /** A run lists every state it passes through. */
  ghost predicate Run(states: seq<State>, actions: seq<Action>) {
    && |states| == |actions| + 1
    && states[0] == INITIAL
    && forall i | 0 <= i < |actions| ::
         Enabled(states[i], actions[i]) && states[i + 1] == Step(states[i], actions[i])
  }

  lemma {:induction false} RunKeepsInv(states: seq<State>, actions: seq<Action>)
    requires Run(states, actions)
    ensures Inv(states[|actions|])
  {
    if actions == [] {
      assert forall k: Key :: KeyInv(INITIAL, k);
    } else {
      var n := |actions| - 1;
      RunKeepsInv(states[..n + 1], actions[..n]);
      StepKeepsInv(states[n], actions[n]);
    }
  }

  /** At every point of every interleaving, for every key, cleared or evicted as often as it
      may be: two tasks inside the critical section entered in different epochs; in each
      epoch in which no task of an earlier one ran, no more messages were sent than one plus
      the number of failed edits; and if the current epoch is such a one, the table tracks
      its last message and every id its tasks returned was sent in it. */
  lemma {:induction false} EveryRunIsSafe(states: seq<State>, actions: seq<Action>, k: Key)
    requires Run(states, actions)
    ensures var s := states[|actions|];
      && (forall t, u | s.At(t, k) && s.At(u, k) && s.tasks[t].phase.Critical() && s.tasks[u].phase.Critical()
            && s.tasks[t].epoch == s.tasks[u].epoch :: t == u)
      && (forall e: nat | s.PastOf(k, e).Undisturbed() :: |s.PastOf(k, e).sent| <= 1 + s.PastOf(k, e).failedEdits)
      && (s.Past(k).Undisturbed() ==>
            && Tracked(s.table, k) ==
                 (if s.Past(k).sent == [] then None else Some(s.Past(k).sent[|s.Past(k).sent| - 1]))
            && (forall t, id | s.At(t, k) && s.tasks[t].epoch == Epoch(s.table, k)
                  && s.tasks[t].phase == Done(Some(id)) :: id in s.Past(k).sent))
  {
    RunKeepsInv(states, actions);
    var s := states[|actions|];
    assert KeyInv(s, k);
    forall t, u | s.At(t, k) && s.At(u, k) && s.tasks[t].phase.Critical() && s.tasks[u].phase.Critical()
                  && s.tasks[t].epoch == s.tasks[u].epoch
      ensures t == u
    {
      CriticalAlone(s, k, t, u);
    }
    if s.Past(k).Undisturbed() {
      forall t, id | s.At(t, k) && s.tasks[t].epoch == Epoch(s.table, k) && s.tasks[t].phase == Done(Some(id))
        ensures id in s.Past(k).sent
      {
        assert PhaseAgrees(s.table, s.Past(k), k, s.tasks[t].phase);
      }
    }
  }

  /** In an epoch with no task of an earlier one at work, in which every send got through, no
      draft took its place and nothing was raised, however many edits failed: every finished
      task returned the id of a message that was sent, and once one has finished and none is
      sending, there is exactly one message and one more for each failed edit. */
  lemma {:induction false} FailedEditsAreResent(states: seq<State>, actions: seq<Action>, k: Key)
    requires Run(states, actions)
    requires var past := states[|actions|].Past(k);
      past.strays == 0 && past.failedSends == 0 && past.drafts == 0 && past.raised == 0
    ensures var s := states[|actions|];
      && (forall t | s.At(t, k) && s.tasks[t].epoch == Epoch(s.table, k) && s.tasks[t].phase.Done? ::
            s.tasks[t].phase.result.Some? && s.tasks[t].phase.result.value in s.Past(k).sent)
      && ((exists t :: s.At(t, k) && s.tasks[t].epoch == Epoch(s.table, k) && s.tasks[t].phase.Done?)
          && (forall t | s.At(t, k) && s.tasks[t].epoch == Epoch(s.table, k) :: !s.tasks[t].phase.Sending?)
          ==> |s.Past(k).sent| == 1 + s.Past(k).failedEdits)
  {
    RunKeepsInv(states, actions);
    var s := states[|actions|];
    assert KeyInv(s, k);
    forall t | s.At(t, k) && s.tasks[t].epoch == Epoch(s.table, k) && s.tasks[t].phase.Done?
      ensures s.tasks[t].phase.result.Some? && s.tasks[t].phase.result.value in s.Past(k).sent
    {
      assert PhaseAgrees(s.table, s.Past(k), k, s.tasks[t].phase);
    }
    if forall t | s.At(t, k) && s.tasks[t].epoch == Epoch(s.table, k) :: !s.tasks[t].phase.Sending? {
      assert !SomeoneSends(s, k);
    }
  }

  /** If no edit failed either, at most one message is sent, every finished task returned its
      id, and the message exists as soon as one task has finished. */
  lemma {:induction false} OneMessagePerKey(states: seq<State>, actions: seq<Action>, k: Key)
    requires Run(states, actions)
    requires states[|actions|].Past(k).Sound() && states[|actions|].Past(k).failedEdits == 0
    ensures var s := states[|actions|];
      && |s.Past(k).sent| <= 1
      && (forall t | s.At(t, k) && s.tasks[t].epoch == Epoch(s.table, k) && s.tasks[t].phase.Done? ::
            |s.Past(k).sent| == 1 && s.tasks[t].phase.result == Some(s.Past(k).sent[0]))
  {
    FailedEditsAreResent(states, actions, k);
    EveryRunIsSafe(states, actions, k);
  }

  /** Where each reply of lock and transport takes a task of the key, and what it leaves
      behind: a delivered draft returns the tracked id, a failed edit leads to a send, and only
      a send that got through is recorded, with its time. */
  lemma {:induction false} RepliesLeadTo(s: State, t: TaskId, k: Key, e: Event)
    requires Enabled(s, Advance(t, e)) && s.At(t, k) && !e.Enter? && !e.PlainReturns?
    ensures var s' := Step(s, Advance(t, e));
      var before, after := s.tasks[t].phase, s'.tasks[t].phase;
      var tracked := if k in s.table.entries then Some(s.table.entries[k].id) else None;
      && (e == Acquire(true) ==> after == Drafting(before.lock))
      && (e == Acquire(false) || e == DraftReturns(false) ==>
            after == if tracked.Some? then Editing(before.lock, tracked.value) else Sending(before.lock))
      && (e == DraftReturns(true) ==> after == Done(tracked))
      && (e == EditReturns(true) ==> after == Done(Some(before.target)))
      && (e == EditReturns(false) ==> after == Sending(before.lock))
      && (e.SendReturns? ==> after == Done(e.newId))
      && (e.Raises? ==> after == Done(None))
      && s'.table == if e.SendReturns? && e.newId.Some?
                     then s.table.(entries := s.table.entries[k := Entry(e.newId.value, e.at)])
                     else s.table
  {}

  /** A task without a key sends a plain reply, returns no id and touches nothing. */
  lemma {:induction false} KeylessReply(s: State, t: TaskId, e: Event)
    requires Enabled(s, Advance(t, e)) && s.tasks[t].key.None?
    ensures var s' := Step(s, Advance(t, e));
      && s'.table == s.table && s'.held == s.held && s'.history == s.history
      && s'.tasks[t].phase == if e.Enter? then ReplyingPlain else Done(None)
  {}

  // ----- epochs over a run -----

  lemma {:induction false} StepKeepsEpochs(s: State, a: Action, k: Key)
    requires Enabled(s, a)
    ensures Epoch(s.table, k) <= Epoch(Step(s, a).table, k)
  {}

  predicate GrowsAt(states: seq<State>, k: Key, n: nat)
    requires n + 1 < |states|
  {
    Epoch(states[n].table, k) <= Epoch(states[n + 1].table, k)
  }

  lemma {:induction false} RunGrows(states: seq<State>, actions: seq<Action>, k: Key)
    requires Run(states, actions)
    ensures forall n | 0 <= n < |actions| :: GrowsAt(states, k, n)
  {
    forall n | 0 <= n < |actions| ensures GrowsAt(states, k, n) {
      StepKeepsEpochs(states[n], actions[n], k);
    }
  }

  lemma {:induction false} NeverBack(states: seq<State>, k: Key, i: nat, j: nat)
    requires i <= j < |states| && forall n | 0 <= n < |states| - 1 :: GrowsAt(states, k, n)
    ensures Epoch(states[i].table, k) <= Epoch(states[j].table, k)
    decreases j
  {
    if i < j {
      NeverBack(states, k, i, j - 1);
      assert GrowsAt(states, k, j - 1);
    }
  }

  lemma {:induction false} EpochsOnlyGrow(states: seq<State>, actions: seq<Action>, k: Key, i: nat, j: nat)
    requires Run(states, actions) && i <= j <= |actions|
    ensures Epoch(states[i].table, k) <= Epoch(states[j].table, k)
  {
    RunGrows(states, actions, k);
    NeverBack(states, k, i, j);
  }

  /** The action by which a task entered, and that its epoch was the key's just after. */
  lemma {:induction false} EnteredAt(states: seq<State>, actions: seq<Action>, n: nat, t: TaskId, k: Key)
    returns (i: nat)
    requires Run(states, actions) && n <= |actions|
    requires states[n].At(t, k) && !states[n].tasks[t].phase.Arrived?
    ensures i < n && actions[i].Advance? && actions[i].task == t && actions[i].event.Enter?
    ensures states[n].tasks[t].epoch == Epoch(states[i + 1].table, k)
    decreases n
  {
    var s, a := states[n - 1], actions[n - 1];
    i := n - 1;
    if !(a.Advance? && a.task == t && a.event.Enter?) {
      assert s.At(t, k) && !s.tasks[t].phase.Arrived? && states[n].tasks[t].epoch == s.tasks[t].epoch;
      i := EnteredAt(states, actions, n - 1, t, k);
    }
  }

  /** Two tasks of a key are inside the critical section together only if the key was
      forgotten after one of them entered and before the other had its lock. */
  lemma {:induction false} ForgottenBetween(states: seq<State>, actions: seq<Action>, k: Key, t: TaskId, u: TaskId)
    returns (i: nat, j: nat)
    requires Run(states, actions)
    requires var s := states[|actions|];
      && s.At(t, k) && s.At(u, k) && t != u
      && s.tasks[t].phase.Critical() && s.tasks[u].phase.Critical()
    ensures i < j < |actions| && Epoch(states[i + 1].table, k) < Epoch(states[j + 1].table, k)
    ensures actions[i].Advance? && actions[i].event.Enter? && actions[j].Advance? && actions[j].event.Enter?
    ensures {actions[i].task, actions[j].task} == {t, u}
  {
    RunKeepsInv(states, actions);
    var s := states[|actions|];
    if s.tasks[t].epoch == s.tasks[u].epoch {
      CriticalAlone(s, k, t, u);
    }
    i := EnteredAt(states, actions, |actions|, t, k);
    j := EnteredAt(states, actions, |actions|, u, k);
    if s.tasks[u].epoch < s.tasks[t].epoch {
      i, j := j, i;
    }
    if j < i {
      EpochsOnlyGrow(states, actions, k, j + 1, i + 1);
    }
  }

  /** No task that entered in an earlier epoch of the key is unfinished, and none has run in
      the current one. */
  ghost predicate CleanStart(s: State, k: Key) {
    s.Past(k).Undisturbed() &&
    forall t | s.At(t, k) && s.tasks[t].phase.HasLock() :: s.tasks[t].epoch == Epoch(s.table, k)
  }

  lemma {:induction false} StepKeepsClean(s: State, a: Action, k: Key)
    requires Inv(s) && CleanStart(s, k) && Enabled(s, a) && Epoch(Step(s, a).table, k) == Epoch(s.table, k)
    ensures CleanStart(Step(s, a), k)
  {
    assert KeyInv(s, k);
    if a.Advance? && s.At(a.task, k) && !a.event.Enter? {
      SegmentKeepsClean(s, a.task, k, a.event);
    } else {
      var s' := Step(s, a);
      assert s'.Past(k) == s.Past(k);
      forall t | s'.At(t, k) && s'.tasks[t].phase.HasLock() ensures s'.tasks[t].epoch == Epoch(s'.table, k) {
        assert (s.At(t, k) && s'.tasks[t] == s.tasks[t]) || (a.Advance? && a.task == t && a.event.Enter?);
      }
    }
  }

  lemma {:induction false} SegmentKeepsClean(s: State, t: TaskId, k: Key, e: Event)
    requires KeyInv(s, k) && CleanStart(s, k)
    requires s.At(t, k) && CanRun(s.held, s.tasks[t].phase, e) && !e.Enter?
    ensures CleanStart(SegmentStep(s, t, k, e), k)
  {
    var s' := SegmentStep(s, t, k, e);
    assert s.tasks[t].phase.HasLock() && s'.Past(k) == NextPast(s.Past(k), e);
    assert forall u | s'.At(u, k) && u != t :: s.At(u, k) && s'.tasks[u] == s.tasks[u];
  }

  ghost predicate StaysCleanAt(states: seq<State>, k: Key, n: nat)
    requires n + 1 < |states|
  {
    CleanStart(states[n], k) && Epoch(states[n].table, k) == Epoch(states[n + 1].table, k) ==>
      CleanStart(states[n + 1], k)
  }

  lemma {:induction false} RunStaysClean(states: seq<State>, actions: seq<Action>, k: Key)
    requires Run(states, actions)
    ensures forall n | 0 <= n < |actions| :: StaysCleanAt(states, k, n)
  {
    forall n | 0 <= n < |actions| ensures StaysCleanAt(states, k, n) {
      RunKeepsInv(states[..n + 1], actions[..n]);
      if CleanStart(states[n], k) && Epoch(states[n].table, k) == Epoch(states[n + 1].table, k) {
        StepKeepsClean(states[n], actions[n], k);
      }
    }
  }

  lemma {:induction false} SameEpochStaysClean(states: seq<State>, k: Key, i: nat, j: nat)
    requires i <= j < |states| && CleanStart(states[i], k)
    requires forall n | 0 <= n < |states| - 1 :: GrowsAt(states, k, n) && StaysCleanAt(states, k, n)
    requires Epoch(states[i].table, k) == Epoch(states[j].table, k)
    ensures CleanStart(states[j], k)
    decreases j
  {
    if i < j {
      NeverBack(states, k, i, j - 1);
      assert GrowsAt(states, k, j - 1) && StaysCleanAt(states, k, j - 1);
      SameEpochStaysClean(states, k, i, j - 1);
    }
  }

  /** An epoch that has once started clean stays so. */
  lemma {:induction false} EpochStaysClean(states: seq<State>, actions: seq<Action>, k: Key, i: nat, j: nat)
    requires Run(states, actions) && i <= j <= |actions| && CleanStart(states[i], k)
    requires Epoch(states[i].table, k) == Epoch(states[j].table, k)
    ensures CleanStart(states[j], k)
  {
    RunGrows(states, actions, k);
    RunStaysClean(states, actions, k);
    SameEpochStaysClean(states, k, i, j);
  }

  /** A key that is cleared while no task of it is unfinished, as finalize does after a last
      update, starts afresh: until it is forgotten again, the messages sent number at most
      one plus the failed edits. */
  lemma {:induction false} ClearedKeyStartsAfresh(states: seq<State>, actions: seq<Action>, k: Key, i: nat)
    requires Run(states, actions) && i < |actions| && actions[i] == Clear(k)
    requires forall t | states[i].At(t, k) :: !states[i].tasks[t].phase.HasLock()
    requires Epoch(states[|actions|].table, k) == Epoch(states[i + 1].table, k)
    ensures var past := states[|actions|].Past(k);
            past.Undisturbed() && |past.sent| <= 1 + past.failedEdits
  {
    RunKeepsInv(states[..i + 1], actions[..i]);
    assert KeyInv(states[i], k);
    assert Epoch(states[i + 1].table, k) == Epoch(states[i].table, k) + 1;
    assert states[i + 1].Past(k) == states[i].PastOf(k, Epoch(states[i].table, k) + 1) == BLANK;
    EpochStaysClean(states, actions, k, i + 1, |actions|);
    EveryRunIsSafe(states, actions, k);
  }

  // ----- no deadlock, no endless update -----

  function Rank(phase: Phase): nat {
    match phase
    case Arrived => 5
    case Waiting(_) => 4
    case Drafting(_) => 3
    case Editing(_, _) => 2
    case Sending(_) => 1
    case ReplyingPlain => 1
    case Done(_) => 0
  }

  /** Each segment brings its task closer to the end and moves no other task. */
  lemma {:induction false} SegmentsRunOut(s: State, t: TaskId, e: Event)
    requires Enabled(s, Advance(t, e))
    ensures var s' := Step(s, Advance(t, e));
      && s'.tasks.Keys == s.tasks.Keys
      && Rank(s'.tasks[t].phase) < Rank(s.tasks[t].phase)
      && forall u <- s.tasks | u != t :: s'.tasks[u] == s.tasks[u]
  {}

  /** No deadlock: while a task is unfinished, it or the task holding the lock it waits
      for can run its next segment. */
  lemma {:induction false} NeverStuck(s: State, t: TaskId) returns (u: TaskId, e: Event)
    requires Inv(s) && t in s.tasks && !s.tasks[t].phase.Done?
    ensures Enabled(s, Advance(u, e))
    ensures u == t || (s.tasks[t].phase.Waiting? && s.tasks[u].phase.Critical()
                       && s.tasks[u].phase.lock == s.tasks[t].phase.lock)
    ensures !e.Raises?
  {
    u := t;
    if s.tasks[t].phase.Waiting? && s.tasks[t].phase.lock in s.held {
      u := s.held[s.tasks[t].phase.lock];
    }
    e := match s.tasks[u].phase
      case Arrived => Enter(0.0)
      case ReplyingPlain => PlainReturns
      case Waiting(_) => Acquire(true)
      case Drafting(_) => DraftReturns(false)
      case Editing(_, _) => EditReturns(true)
      case _ => SendReturns(None, 0.0);
  }

  // ----- what forgetting costs -----

  lemma {:induction false} Extend(states: seq<State>, actions: seq<Action>, a: Action)
    requires Run(states, actions) && Enabled(states[|actions|], a)
    ensures Run(states + [Step(states[|actions|], a)], actions + [a])
  {}

  /** A new task of the key goes as far as the transport call it waits for, when the lock
      of its key is free. */
  lemma {:induction false} ArriveAndAcquire(states: seq<State>, actions: seq<Action>, t: TaskId, k: Key, now: real)
    returns (states': seq<State>, actions': seq<Action>)
    requires Run(states, actions) && t !in states[|actions|].tasks
    requires var d := NextTable(states[|actions|].table, k, Enter(now)); d.locks[k] !in states[|actions|].held
    ensures Run(states', actions')
    ensures actions' == actions + [Spawn(t, Some(k)), Advance(t, Enter(now)), Advance(t, Acquire(false))]
    ensures var s, s' := states[|actions|], states'[|actions'|];
            var d := NextTable(s.table, k, Enter(now));
            && s'.table == d
            && s'.tasks == s.tasks[t := Task(Some(k), EditOrSend(d, k, d.locks[k]), Epoch(d, k))]
            && s'.held == s.held[d.locks[k] := t]
            && (forall e: nat :: s'.PastOf(k, e) == s.PastOf(k, e))
  {
    var s := states[|actions|];
    var s1 := Step(s, Spawn(t, Some(k)));
    Extend(states, actions, Spawn(t, Some(k)));
    var s2 := Step(s1, Advance(t, Enter(now)));
    Extend(states + [s1], actions + [Spawn(t, Some(k))], Advance(t, Enter(now)));
    states', actions' := states + [s1] + [s2], actions + [Spawn(t, Some(k))] + [Advance(t, Enter(now))];
    Extend(states', actions', Advance(t, Acquire(false)));
    states', actions' := states' + [Step(s2, Advance(t, Acquire(false)))], actions' + [Advance(t, Acquire(false))];
  }

  /** Whenever a key is cleared while a task of it is inside the critical section, the next
      update gets a new lock, and with it goes on to send while the first is still inside. */
  lemma {:induction false} ClearBreaksExclusion(
    states: seq<State>, actions: seq<Action>, k: Key, t: TaskId, u: TaskId, now: real)
    returns (states': seq<State>, actions': seq<Action>)
    requires Run(states, actions) && u !in states[|actions|].tasks
    requires states[|actions|].At(t, k) && states[|actions|].tasks[t].phase.Critical()
    ensures Run(states', actions')
    ensures actions'
         == actions + [Clear(k), Spawn(u, Some(k)), Advance(u, Enter(now)), Advance(u, Acquire(false))]
    ensures var s, s' := states[|actions|], states'[|actions'|];
      && s'.At(t, k) && s'.tasks[t] == s.tasks[t]
      && s'.At(u, k) && s'.tasks[u].phase.Sending?
  {
    RunKeepsInv(states, actions);
    var s := states[|actions|];
    var s1 := Step(s, Clear(k));
    Extend(states, actions, Clear(k));
    var d := NextTable(s1.table, k, Enter(now));
    assert k !in s1.table.entries && k !in s1.table.locks;
    assert d.locks[k] == s.table.nextLock && d.locks[k] !in s.held;
    states', actions' := ArriveAndAcquire(states + [s1], actions + [Clear(k)], u, k, now);
  }

  /** A task that sends gets its message out. */
  lemma {:induction false} SendOut(states: seq<State>, actions: seq<Action>, t: TaskId, k: Key, id: MessageId, at: real)
    returns (states': seq<State>, actions': seq<Action>)
    requires Run(states, actions)
    requires states[|actions|].At(t, k) && states[|actions|].tasks[t].phase.Sending?
    requires states[|actions|].tasks[t].epoch == Epoch(states[|actions|].table, k)
    ensures Run(states', actions')
    ensures var s, s' := states[|actions|], states'[|actions'|];
      && s'.table == Record(s.table, k, id, at)
      && s'.held == s.held - {s.tasks[t].phase.lock}
      && s'.tasks.Keys == s.tasks.Keys
      && s'.Past(k) == s.Past(k).(sent := s.Past(k).sent + [id], sentAt := s.Past(k).sentAt + [at])
      && forall e: nat | e != Epoch(s.table, k) :: s'.PastOf(k, e) == s.PastOf(k, e)
  {
    var a := Advance(t, SendReturns(Some(id), at));
    Extend(states, actions, a);
    states', actions' := states + [Step(states[|actions|], a)], actions + [a];
  }

  /** Entries age from their first send and edits do not renew them, so an update that
      arrives more than an hour later sends a second message although nothing failed. */
  lemma EvictionRepeatsMessage(k: Key, first: MessageId, second: MessageId)
    returns (states: seq<State>, actions: seq<Action>)
    ensures Run(states, actions)
    ensures states[|actions|].PastOf(k, 0) == History([first], [0.0], 0, 0, 0, 0, 0)
    ensures states[|actions|].PastOf(k, 1) == History([second], [3601.0], 0, 0, 0, 0, 0)
  {
    states, actions := FirstMessage(k, first);
    EntryGoesStale(states[|actions|].table, k, first);
    states, actions := ArriveAndAcquire(states, actions, 1, k, 3601.0);
    states, actions := SendOut(states, actions, 1, k, second, 3601.0);
  }

  lemma FirstMessage(k: Key, first: MessageId) returns (states: seq<State>, actions: seq<Action>)
    ensures Run(states, actions)
    ensures var s := states[|actions|];
      && s.table.entries == map[k := Entry(first, 0.0)] && s.table.epochs == map[]
      && s.held == map[] && s.tasks.Keys == {0}
      && s.PastOf(k, 0) == History([first], [0.0], 0, 0, 0, 0, 0) && s.PastOf(k, 1) == BLANK
  {
    states, actions := ArriveAndAcquire([INITIAL], [], 0, k, 0.0);
    assert states[|actions|].table.epochs == map[];
    states, actions := SendOut(states, actions, 0, k, first, 0.0);
  }

  lemma EntryGoesStale(d: Table, k: Key, id: MessageId)
    requires d.entries == map[k := Entry(id, 0.0)] && d.epochs == map[]
    ensures var d' := NextTable(d, k, Enter(3601.0)); k !in d'.entries && Epoch(d', k) == 1
  {
    assert Stale(d.entries, 3601.0) == {k};
  }

  // ----- the object behind the table -----

  lemma ForgetNothing(d: Table)
    ensures Forget(d, {}) == d
  {
    assert Bump(d.epochs, {}) == d.epochs;
  }

  lemma ForgetMore(d: Table, keys: set<Key>, k: Key)
    requires k !in keys
    ensures Forget(Forget(d, keys), {k}) == Forget(d, keys + {k})
  {
    assert Bump(Bump(d.epochs, keys), {k}) == Bump(d.epochs, keys + {k});
  }

  class TelegramProgressMessage {
    var progressMsgs: map<Key, Entry>
    var locks: map<Key, LockId>
    var nextLock: LockId
    ghost var epochs: map<Key, nat>

    ghost function Contents(): Table
      reads this
    {
      Table(progressMsgs, locks, nextLock, epochs)
    }

    constructor ()
      ensures Contents() == INITIAL.table
    {
      progressMsgs, locks, nextLock, epochs := map[], map[], 0, map[];
    }

    method GetLock(key: Key) returns (lock: LockId)
      modifies this
      ensures Contents() == WithLock(old(Contents()), key)
      ensures lock == Contents().locks[key]
      ensures key in old(locks) ==> locks == old(locks) && lock == old(locks)[key]
      ensures key !in old(locks) ==> lock == old(nextLock) && locks == old(locks)[key := lock] && nextLock == lock + 1
      ensures progressMsgs == old(progressMsgs)
    {
      if key !in locks {
        locks := locks[key := nextLock];
        nextLock := nextLock + 1;
      }
      lock := locks[key];
    }

    method EvictStale(now: real)
      modifies this
      ensures Contents() == Forget(old(Contents()), Stale(old(progressMsgs), now))
      ensures forall k :: k in progressMsgs <==> k in old(progressMsgs) && now - old(progressMsgs)[k].created <= 3600.0
      ensures forall k :: k in locks <==>
        k in old(locks) && !(k in old(progressMsgs) && now - old(progressMsgs)[k].created > 3600.0)
      ensures (forall k <- progressMsgs :: progressMsgs[k] == old(progressMsgs)[k])
           && forall k <- locks :: locks[k] == old(locks)[k]
    {
      var stale := set k | k in progressMsgs && now - progressMsgs[k].created > TTL_SECONDS;
      ghost var all, gone := stale, {};
      ForgetNothing(Contents());
      while stale != {}
        invariant gone + stale == all && gone !! stale
        invariant Contents() == Forget(old(Contents()), gone)
      {
        var k :| k in stale;
        ForgetMore(old(Contents()), gone, k);
        progressMsgs := progressMsgs - {k};
        locks := locks - {k};
        epochs := Bump(epochs, {k});
        stale := stale - {k};
        gone := gone + {k};
      }
      assert gone == all;
    }

    /** The segment of update() from its start to waiting for the lock. */
    method BeginUpdate(key: Key, now: real) returns (lock: LockId)
      modifies this
      ensures Contents() == NextTable(old(Contents()), key, Enter(now))
      ensures Waiting(lock) == NextPhase(old(Contents()), key, Arrived, Enter(now))
    {
      EvictStale(now);
      lock := GetLock(key);
    }

    /** The segment that looks up the tracked message and picks edit or send. */
    method ChooseTransport(key: Key, lock: LockId) returns (next: Phase)
      ensures next == EditOrSend(Contents(), key, lock)
      ensures next == if key in progressMsgs then Editing(lock, progressMsgs[key].id) else Sending(lock)
    {
      if key in progressMsgs {
        next := Editing(lock, progressMsgs[key].id);
      } else {
        next := Sending(lock);
      }
    }

    /** The segment after safe_reply_with_id comes back. */
    method FinishSend(key: Key, newId: Option<MessageId>, at: real)
      modifies this
      ensures Contents() == NextTable(old(Contents()), key, SendReturns(newId, at))
      ensures progressMsgs == if newId == None then old(progressMsgs)
                              else old(progressMsgs)[key := Entry(newId.value, at)]
      ensures locks == old(locks)
    {
      if newId.Some? {
        progressMsgs := progressMsgs[key := Entry(newId.value, at)];
      }
    }

    method Clear(key: Key)
      modifies this
      ensures Contents() == Forget(old(Contents()), {key})
      ensures progressMsgs == old(progressMsgs) - {key} && locks == old(locks) - {key}
    {
      progressMsgs := progressMsgs - {key};
      locks := locks - {key};
      epochs := Bump(epochs, {key});
    }
  }
}
