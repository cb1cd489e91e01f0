/** src/orchestrator/task_registry.py: task lifecycle, idempotency index, tombstones and fan-out. */
module TaskRegistryModel {
  import opened Common
  import opened Sessions

  type TaskId(==, !new)
  type IdempotencyKey(==, !new)
  type Capability(==, !new)
  type SegmentId(==, !new)

  datatype TaskKind = Reflex | Interactive | Deliberative | Maintenance

  datatype TaskDataDependency = Full | ValidatedSpeech

  datatype TaskState =
    Created | Admitted | Queued | Running | Succeeded | Cancelling | Cancelled | Superseded | TimedOut | Failed

  datatype DataSnapshot = DataSnapshot(
    memoryRevision: nat, contextGeneration: nat, profileRevision: nat,
    consentRevision: nat, corpusRevision: nat, indexRevision: nat)

  const INITIAL_DATA := DataSnapshot(0, 0, 0, 0, 0, 0)

  datatype TaskRequest = TaskRequest(
    taskId: TaskId, sessionId: SessionId, turnId: TurnId, parent: Option<TaskId>, deadlineMs: int,
    snapshotRevision: int, key: IdempotencyKey, kind: TaskKind, epoch: int, capabilities: set<Capability>,
    segmentId: Option<SegmentId>, retryAttempt: int, data: DataSnapshot, dependency: TaskDataDependency)
  {
    predicate DataIsCurrent(current: DataSnapshot) {
      var compared :=
        if dependency.ValidatedSpeech?
        then current.(memoryRevision := data.memoryRevision, contextGeneration := data.contextGeneration)
        else current;
      data == compared
    }
  }

  datatype TaskRecord = TaskRecord(
    request: TaskRequest, state: TaskState, cancellationReason: Option<string>,
    supersededBy: Option<TaskId>, terminalAt: Option<int>)

  datatype Config = Config(allowedKinds: set<TaskKind>, maxChildren: int, maxRetries: int, tombstoneTtlMs: int)

  datatype RegistrationRejection =
    WrongSession | DuplicateTaskId | KindForbidden | RetryLimit | ParentNotFound | ParentTurnMismatch
    | FanOutLimit | ActiveTurnMismatch | StaleSnapshot

  datatype Registration =
    RegistrationAccepted(record: TaskRecord)
    | RegistrationDuplicate(existing: TaskRecord)
    | RegistrationRejected(reason: RegistrationRejection)

  predicate Live(state: TaskState) {
    state == Admitted || state == Queued || state == Running
  }

  predicate Terminal(state: TaskState) {
    state == Cancelled || state == Superseded || state == TimedOut || state == Succeeded || state == Failed
  }

  datatype RegistryState = RegistryState(
    sessionId: SessionId, config: Config,
    records: map<TaskId, TaskRecord>, idempotency: map<IdempotencyKey, TaskId>)
  {
    predicate Has(id: TaskId, state: TaskState) {
      id in records && records[id].state == state
    }

    predicate HasLive(id: TaskId) {
      id in records && Live(records[id].state)
    }

    ghost function ChildrenOf(parent: TaskId): set<TaskId> {
      set id | id in records && records[id].request.parent == Some(parent)
    }

    /** The two indexes are inverse to each other. */
    ghost predicate Indexed() {
      && (forall id :: id in records ==>
            && records[id].request.taskId == id
            && records[id].request.key in idempotency
            && idempotency[records[id].request.key] == id)
      && (forall key :: key in idempotency ==>
            idempotency[key] in records && records[idempotency[key]].request.key == key)
    }

    ghost predicate Stamped() {
      forall id :: id in records ==>
        && (records[id].terminalAt.Some? <==> Terminal(records[id].state))
        && (Live(records[id].state) || Terminal(records[id].state))
    }

    ghost predicate FanOutBounded() {
      forall parent :: ChildrenOf(parent) == {} || |ChildrenOf(parent)| <= config.maxChildren
    }

    ghost predicate Owned() {
      forall id :: id in records ==> records[id].request.sessionId == sessionId
    }

    ghost predicate Valid() {
      config.tombstoneTtlMs > 0 && Indexed() && Stamped() && FanOutBounded() && Owned()
    }
  }

  function EmptyRegistry(sessionId: SessionId, config: Config): RegistryState {
    RegistryState(sessionId, config, map[], map[])
  }

  /** `_store`: a terminal state is stamped once, and never restamped. */
  function Stamp(record: TaskRecord, now: int): TaskRecord {
    if Terminal(record.state) && record.terminalAt.None? then record.(terminalAt := Some(now)) else record
  }

  function KeysOf(r: RegistryState, ids: set<TaskId>): set<IdempotencyKey>
    requires ids <= r.records.Keys
  {
    set id | id in ids :: r.records[id].request.key
  }

  function Drop(r: RegistryState, ids: set<TaskId>): RegistryState
    requires ids <= r.records.Keys
  {
    r.(records := r.records - ids, idempotency := r.idempotency - KeysOf(r, ids))
  }

  function RegistrationRefusal(r: RegistryState, q: TaskRequest): Option<RegistrationRejection> {
    if q.sessionId != r.sessionId then Some(WrongSession)
    else if q.taskId in r.records then Some(DuplicateTaskId)
    else if q.kind !in r.config.allowedKinds then Some(KindForbidden)
    else if q.retryAttempt > r.config.maxRetries then Some(RetryLimit)
    else if q.parent.None? then None
    else if q.parent.value !in r.records then Some(ParentNotFound)
    else if r.records[q.parent.value].request.turnId != q.turnId then Some(ParentTurnMismatch)
    else if |set id | id in r.records && r.records[id].request.parent == q.parent| >= r.config.maxChildren
      then Some(FanOutLimit)
    else None
  }

  function Register(r: RegistryState, q: TaskRequest): (RegistryState, Registration)
    requires forall key :: key in r.idempotency ==> r.idempotency[key] in r.records
  {
    if q.key in r.idempotency then (r, RegistrationDuplicate(r.records[r.idempotency[q.key]]))
    else
      var refusal := RegistrationRefusal(r, q);
      if refusal.Some? then (r, RegistrationRejected(refusal.value))
      else
        var record := TaskRecord(q, Admitted, None, None, None);
        (r.(records := r.records[q.taskId := record], idempotency := r.idempotency[q.key := q.taskId]),
         RegistrationAccepted(record))
  }

  function Put(r: RegistryState, id: TaskId, record: TaskRecord): RegistryState {
    r.(records := r.records[id := record])
  }

  function Enqueued(r: RegistryState, id: TaskId): RegistryState {
    if r.Has(id, Admitted) then Put(r, id, r.records[id].(state := Queued)) else r
  }

  function Claimed(r: RegistryState, id: TaskId): RegistryState {
    if r.Has(id, Queued) then Put(r, id, Outcome(r.records[id], Running, None, None, 0)) else r
  }

  function Withdrawn(r: RegistryState, id: TaskId): RegistryState {
    if r.Has(id, Admitted) then Drop(r, {id}) else r
  }

  /** The record a transition leaves behind, stamped when it is the last one. */
  function Outcome(record: TaskRecord, state: TaskState, reason: Option<string>, replacement: Option<TaskId>, now: int): TaskRecord {
    Stamp(record.(state := state, cancellationReason := reason, supersededBy := replacement), now)
  }

  function CancelOne(r: RegistryState, id: TaskId, reason: string, now: int): RegistryState {
    if r.HasLive(id) then Put(r, id, Outcome(r.records[id], Cancelled, Some(reason), None, now)) else r
  }

  function CancelEvery(r: RegistryState, reason: string, now: int): RegistryState {
    r.(records := map id | id in r.records ::
      if Live(r.records[id].state) then Outcome(r.records[id], Cancelled, Some(reason), None, now) else r.records[id])
  }

  function TimeOut(r: RegistryState, id: TaskId, now: int): RegistryState {
    if r.HasLive(id) then Put(r, id, Outcome(r.records[id], TimedOut, None, None, now)) else r
  }

  function Fail(r: RegistryState, id: TaskId, reason: string, now: int): RegistryState {
    if r.Has(id, Running) then Put(r, id, Outcome(r.records[id], Failed, Some(reason), None, now)) else r
  }

  predicate MaySupersede(r: RegistryState, id: TaskId, replacement: TaskId) {
    && (r.Has(id, Queued) || r.Has(id, Running))
    && replacement in r.records
    && r.records[id].request.turnId != r.records[replacement].request.turnId
  }

  function Supersede(r: RegistryState, id: TaskId, replacement: TaskId, now: int): RegistryState {
    if MaySupersede(r, id, replacement)
    then Put(r, id, Outcome(r.records[id], Superseded, None, Some(replacement), now))
    else r
  }

  /** `complete` looks at nothing but the presence of the record. */
  function Complete(r: RegistryState, id: TaskId, now: int): RegistryState
    requires id in r.records
  {
    Put(r, id, Outcome(r.records[id], Succeeded, None, None, now))
  }

  function ExpiredIds(r: RegistryState, now: int): (ids: set<TaskId>) {
    set id | id in r.records && r.records[id].terminalAt.Some?
             && now - r.records[id].terminalAt.value >= r.config.tombstoneTtlMs
  }

  function TerminalIds(r: RegistryState): (ids: set<TaskId>) {
    set id | id in r.records && Terminal(r.records[id].state)
  }

  // ---------------------------------------------------------------------------------------------
  // What every operation keeps.

  /** One step of the registry: only the listed tasks move, and no finished task moves at all. */
  ghost predicate Keeps(r: RegistryState, r': RegistryState, touched: set<TaskId>) {
    && r'.sessionId == r.sessionId && r'.config == r.config
    && (forall id :: id in r.records && id !in touched ==> id in r'.records && r'.records[id] == r.records[id])
    && (forall id :: id in r'.records && id in r.records ==>
          && r'.records[id].request == r.records[id].request
          && (Terminal(r.records[id].state) ==> r'.records[id] == r.records[id]))
  }

  lemma ChildrenDependOnRequests(r: RegistryState, r': RegistryState)
    requires r'.config == r.config && r.FanOutBounded()
    requires r'.records.Keys == r.records.Keys
    requires forall id :: id in r.records ==> r'.records[id].request == r.records[id].request
    ensures r'.FanOutBounded()
  {
    forall parent ensures r'.ChildrenOf(parent) == r.ChildrenOf(parent) {
      assert forall id :: id in r'.records <==> id in r.records;
    }
  }

  /** A transition of one unfinished record moves no index, no child and no finished record. */
  lemma PutKeepsValid(r: RegistryState, id: TaskId, record: TaskRecord)
    requires r.Valid() && id in r.records
    requires record.request == r.records[id].request
    requires record.terminalAt.Some? <==> Terminal(record.state)
    requires Live(record.state) || Terminal(record.state)
    ensures Put(r, id, record).Valid()
    ensures Live(r.records[id].state) ==> Keeps(r, Put(r, id, record), {id})
  {
    ChildrenDependOnRequests(r, Put(r, id, record));
  }

  lemma OutcomeKeepsValid(
    r: RegistryState, id: TaskId, state: TaskState, reason: Option<string>, replacement: Option<TaskId>, now: int)
    requires r.Valid() && r.HasLive(id) && (Live(state) || Terminal(state))
    ensures var r' := Put(r, id, Outcome(r.records[id], state, reason, replacement, now)); r'.Valid() && Keeps(r, r', {id})
  {
    PutKeepsValid(r, id, Outcome(r.records[id], state, reason, replacement, now));
  }

  lemma RegisterInsertsOne(r: RegistryState, q: TaskRequest)
    requires r.Valid()
    ensures var (r', result) := Register(r, q);
            && (!result.RegistrationAccepted? ==> r' == r)
            && (result.RegistrationAccepted? ==>
                && q.taskId !in r.records && q.key !in r.idempotency && q.sessionId == r.sessionId
                && r' == r.(records := r.records[q.taskId := result.record], idempotency := r.idempotency[q.key := q.taskId])
                && result.record == TaskRecord(q, Admitted, None, None, None)
                && (q.parent.Some? ==> |r.ChildrenOf(q.parent.value)| < r.config.maxChildren))
            && (result.RegistrationDuplicate? ==> result.existing.request.key == q.key)
  {
    if q.parent.Some? {
      assert r.ChildrenOf(q.parent.value) == set id | id in r.records && r.records[id].request.parent == q.parent;
    }
  }

  /** When a registration is taken, and when it is the repetition of one. */
  lemma RegisterIsExact(r: RegistryState, q: TaskRequest)
    requires r.Valid()
    ensures var (r', result) := Register(r, q);
            && (result.RegistrationDuplicate? <==> exists id <- r.records :: r.records[id].request.key == q.key)
            && (result.RegistrationAccepted? <==>
                && (forall id <- r.records :: id != q.taskId && r.records[id].request.key != q.key)
                && q.sessionId == r.sessionId && q.kind in r.config.allowedKinds && q.retryAttempt <= r.config.maxRetries
                && (q.parent.Some? ==>
                      && q.parent.value in r.records && r.records[q.parent.value].request.turnId == q.turnId
                      && |r.ChildrenOf(q.parent.value)| < r.config.maxChildren))
  {
    if q.parent.Some? {
      assert r.ChildrenOf(q.parent.value) == set id | id in r.records && r.records[id].request.parent == q.parent;
    }
  }

  lemma InsertKeepsFanOut(r: RegistryState, r': RegistryState, q: TaskRequest)
    requires r.FanOutBounded() && q.taskId !in r.records && r'.config == r.config
    requires q.parent.Some? ==> |r.ChildrenOf(q.parent.value)| < r.config.maxChildren
    requires r'.records == r.records[q.taskId := TaskRecord(q, Admitted, None, None, None)]
    ensures r'.FanOutBounded()
  {
    forall parent ensures r'.ChildrenOf(parent) == {} || |r'.ChildrenOf(parent)| <= r'.config.maxChildren {
      if q.parent == Some(parent) {
        assert r'.ChildrenOf(parent) == r.ChildrenOf(parent) + {q.taskId};
      } else {
        assert r'.ChildrenOf(parent) == r.ChildrenOf(parent);
      }
    }
  }

  lemma InsertKeepsIndexes(r: RegistryState, r': RegistryState, q: TaskRequest)
    requires r.Indexed() && q.taskId !in r.records && q.key !in r.idempotency
    requires r'.records == r.records[q.taskId := TaskRecord(q, Admitted, None, None, None)]
    requires r'.idempotency == r.idempotency[q.key := q.taskId]
    ensures r'.Indexed()
  {
  }

  lemma RegisterKeepsValid(r: RegistryState, q: TaskRequest)
    requires r.Valid()
    ensures var (r', result) := Register(r, q); r'.Valid() && Keeps(r, r', {})
  {
    RegisterInsertsOne(r, q);
    var (r', result) := Register(r, q);
    if result.RegistrationAccepted? {
      InsertKeepsFanOut(r, r', q);
      InsertKeepsIndexes(r, r', q);
    }
  }

  lemma DropKeepsValid(r: RegistryState, ids: set<TaskId>)
    requires r.Valid()
    requires ids <= r.records.Keys
    ensures Drop(r, ids).Valid() && Keeps(r, Drop(r, ids), ids)
  {
    var r' := Drop(r, ids);
    var keys := KeysOf(r, ids);
    forall key | key in r'.idempotency
      ensures r'.idempotency[key] in r'.records && r'.records[r'.idempotency[key]].request.key == key
    {
      assert key !in keys;
    }
    forall id | id in r'.records
      ensures r'.records[id].request.key in r'.idempotency && r'.idempotency[r'.records[id].request.key] == id
    {
      assert r.idempotency[r.records[id].request.key] == id;
    }
    forall parent ensures r'.ChildrenOf(parent) == {} || |r'.ChildrenOf(parent)| <= r'.config.maxChildren {
      assert r'.ChildrenOf(parent) == r.ChildrenOf(parent) - ids;
      SubsetIsSmaller(r'.ChildrenOf(parent), r.ChildrenOf(parent));
    }
  }

  lemma {:induction false} SubsetIsSmaller<T>(a: set<T>, b: set<T>)
    requires a <= b
    ensures |a| <= |b|
  {
    if a != {} {
      var x :| x in a;
      SubsetIsSmaller(a - {x}, b - {x});
    }
  }

  lemma CancelEveryKeepsValid(r: RegistryState, reason: string, now: int)
    requires r.Valid()
    ensures var r' := CancelEvery(r, reason, now);
            && r'.Valid() && Keeps(r, r', r.records.Keys)
            && (forall id :: id in r'.records ==> Terminal(r'.records[id].state))
  {
    ChildrenDependOnRequests(r, CancelEvery(r, reason, now));
  }

  /**
   * `complete` has no guard of its own. On a registry where every record is live or finished it leaves
   * the finished records alone exactly when its target is still live or already the same success.
   */
  lemma CompleteNeedsItsCaller(r: RegistryState, id: TaskId, now: int)
    requires r.Valid() && id in r.records
    ensures Complete(r, id, now).Valid()
    ensures Keeps(r, Complete(r, id, now), {id}) <==>
            || Live(r.records[id].state)
            || (r.records[id].state == Succeeded
                && r.records[id].cancellationReason.None? && r.records[id].supersededBy.None?)
  {
    var before, after := r.records[id], Complete(r, id, now).records[id];
    PutKeepsValid(r, id, after);
    if Terminal(before.state) {
      assert Keeps(r, Complete(r, id, now), {id}) ==> after == before;
    }
  }

  class TaskRegistry {
    const sessionId: SessionId
    const config: Config
    var records: map<TaskId, TaskRecord>
    var idempotency: map<IdempotencyKey, TaskId>

    ghost function Model(): RegistryState
      reads this
    {
      RegistryState(sessionId, config, records, idempotency)
    }

    constructor (sessionId: SessionId, config: Config)
      requires config.tombstoneTtlMs > 0
      ensures Model() == EmptyRegistry(sessionId, config) && Model().Valid()
    {
      this.sessionId := sessionId;
      this.config := config;
      records := map[];
      idempotency := map[];
    }

    method Task(id: TaskId) returns (record: Option<TaskRecord>)
      ensures record == if id in records then Some(records[id]) else None
    {
      record := if id in records then Some(records[id]) else None;
    }

    /** Deletes each record and its key in turn; the assertions are the lookups that must not miss. */
    method Remove(ids: set<TaskId>)
      requires Model().Valid() && ids <= records.Keys
      modifies this
      ensures Model() == Drop(old(Model()), ids) && Model().Valid()
    {
      ghost var before := Model();
      DropKeepsValid(before, ids);
      var left := ids;
      while left != {}
        invariant left <= ids <= before.records.Keys
        invariant records == before.records - (ids - left)
        invariant idempotency == before.idempotency - KeysOf(before, ids - left)
        decreases left
      {
        var id :| id in left;
        var key := records[id].request.key;
        assert key in idempotency by {
          forall other | other in ids - left ensures before.records[other].request.key != key {
            assert before.idempotency[before.records[other].request.key] == other;
          }
        }
        records := records - {id};
        idempotency := idempotency - {key};
        assert KeysOf(before, ids - left + {id}) == KeysOf(before, ids - left) + {key};
        assert ids - left + {id} == ids - (left - {id});
        left := left - {id};
      }
      assert ids - left == ids;
    }

    method ExpireTerminalTombstones(now: int) returns (expired: set<TaskId>)
      requires Model().Valid()
      modifies this
      ensures expired == ExpiredIds(old(Model()), now)
      ensures Model() == Drop(old(Model()), expired) && Model().Valid()
    {
      expired := set id | id in records && records[id].terminalAt.Some?
                          && now - records[id].terminalAt.value >= config.tombstoneTtlMs;
      Remove(expired);
    }

    method ClearTerminalTombstones() returns (cleared: set<TaskId>)
      requires Model().Valid()
      modifies this
      ensures cleared == TerminalIds(old(Model()))
      ensures Model() == Drop(old(Model()), cleared) && Model().Valid()
    {
      cleared := set id | id in records && Terminal(records[id].state);
      Remove(cleared);
    }

    method RegisterTask(q: TaskRequest) returns (result: Registration)
      requires Model().Valid()
      modifies this
      ensures (Model(), result) == Register(old(Model()), q)
      ensures Model().Valid()
    {
      RegisterKeepsValid(Model(), q);
      if q.key in idempotency {
        return RegistrationDuplicate(records[idempotency[q.key]]);
      }
      var refusal := RegistrationRefusal(RegistryState(sessionId, config, records, idempotency), q);
      if refusal.Some? {
        return RegistrationRejected(refusal.value);
      }
      var record := TaskRecord(q, Admitted, None, None, None);
      records := records[q.taskId := record];
      idempotency := idempotency[q.key := q.taskId];
      return RegistrationAccepted(record);
    }

    method StoreRecord(record: TaskRecord, now: int)
      modifies this`records
      ensures Model() == Put(old(Model()), record.request.taskId, Stamp(record, now))
    {
      records := records[record.request.taskId := Stamp(record, now)];
    }

    method Cancel(id: TaskId, reason: string, now: int) returns (moved: bool)
      requires Model().Valid()
      modifies this
      ensures moved == old(Model()).HasLive(id)
      ensures Model() == CancelOne(old(Model()), id, reason, now) && Model().Valid()
    {
      moved := id in records && Live(records[id].state);
      if moved {
        OutcomeKeepsValid(Model(), id, TaskState.Cancelled, Some(reason), None, now);
        // The result gate closes first; provider cancellation is dispatched afterwards by the caller.
        var cancelling := records[id].(state := Cancelling, cancellationReason := Some(reason), supersededBy := None);
        StoreRecord(cancelling, now);
        StoreRecord(cancelling.(state := TaskState.Cancelled), now);
      }
    }

    method CancelPending(reason: string, now: int) returns (cancelled: set<TaskId>)
      requires Model().Valid()
      modifies this
      ensures Model() == CancelEvery(old(Model()), reason, now) && Model().Valid()
      ensures cancelled == set id | id in old(records) && Live(old(records)[id].state)
    {
      hide Outcome;
      ghost var before := Model();
      CancelEveryKeepsValid(before, reason, now);
      var left := records.Keys;
      cancelled := {};
      while left != {}
        invariant left <= before.records.Keys == records.Keys
        invariant Model().Valid() && idempotency == before.idempotency
        invariant forall id :: id in left ==> records[id] == before.records[id]
        invariant forall id :: id in before.records && id !in left ==> records[id] == CancelEvery(before, reason, now).records[id]
        invariant cancelled <= before.records.Keys - left
        invariant forall id :: id in before.records && id !in left ==> (id in cancelled <==> Live(before.records[id].state))
        decreases left
      {
        var id :| id in left;
        var moved := Cancel(id, reason, now);
        left := left - {id};
        cancelled := if moved then cancelled + {id} else cancelled;
      }
      assert records == CancelEvery(before, reason, now).records;
    }

    method Enqueue(id: TaskId) returns (moved: bool)
      requires Model().Valid()
      modifies this
      ensures moved == old(Model()).Has(id, Admitted)
      ensures Model() == Enqueued(old(Model()), id) && Model().Valid()
    {
      moved := id in records && records[id].state == Admitted;
      if moved {
        OutcomeKeepsValid(Model(), id, Queued, records[id].cancellationReason, records[id].supersededBy, 0);
        StoreRecord(records[id].(state := Queued), 0);
      }
    }

    method Claim(id: TaskId) returns (moved: bool)
      requires Model().Valid()
      modifies this
      ensures moved == old(Model()).Has(id, Queued)
      ensures Model() == Claimed(old(Model()), id) && Model().Valid()
    {
      moved := id in records && records[id].state == Queued;
      if moved {
        OutcomeKeepsValid(Model(), id, Running, None, None, 0);
        StoreRecord(records[id].(state := Running, cancellationReason := None, supersededBy := None), 0);
      }
    }

    method Withdraw(id: TaskId) returns (moved: bool)
      requires Model().Valid()
      modifies this
      ensures moved == old(Model()).Has(id, Admitted)
      ensures Model() == Withdrawn(old(Model()), id) && Model().Valid()
    {
      moved := id in records && records[id].state == Admitted;
      if moved {
        Remove({id});
      }
    }

    method TimeOutTask(id: TaskId, now: int) returns (moved: bool)
      requires Model().Valid()
      modifies this
      ensures moved == old(Model()).HasLive(id)
      ensures Model() == TimeOut(old(Model()), id, now) && Model().Valid()
    {
      moved := id in records && Live(records[id].state);
      if moved {
        OutcomeKeepsValid(Model(), id, TimedOut, None, None, now);
        StoreRecord(records[id].(state := TimedOut, cancellationReason := None, supersededBy := None), now);
      }
    }

    method FailTask(id: TaskId, reason: string, now: int) returns (moved: bool)
      requires Model().Valid()
      modifies this
      ensures moved == old(Model()).Has(id, Running)
      ensures Model() == Fail(old(Model()), id, reason, now) && Model().Valid()
    {
      moved := id in records && records[id].state == Running;
      if moved {
        OutcomeKeepsValid(Model(), id, Failed, Some(reason), None, now);
        StoreRecord(records[id].(state := Failed, cancellationReason := Some(reason), supersededBy := None), now);
      }
    }

    method SupersedeTask(id: TaskId, replacement: TaskId, now: int) returns (moved: bool)
      requires Model().Valid()
      modifies this
      ensures moved == MaySupersede(old(Model()), id, replacement)
      ensures Model() == Supersede(old(Model()), id, replacement, now) && Model().Valid()
    {
      moved := && id in records && replacement in records
               && (records[id].state == Queued || records[id].state == Running)
               && records[id].request.turnId != records[replacement].request.turnId;
      if moved {
        OutcomeKeepsValid(Model(), id, Superseded, None, Some(replacement), now);
        StoreRecord(records[id].(state := Superseded, cancellationReason := None, supersededBy := Some(replacement)), now);
      }
    }

    method CompleteTask(id: TaskId, now: int)
      requires Model().Valid() && id in records
      modifies this
      ensures Model() == Complete(old(Model()), id, now) && Model().Valid()
    {
      CompleteNeedsItsCaller(Model(), id, now);
      StoreRecord(records[id].(state := Succeeded, cancellationReason := None, supersededBy := None), now);
    }
  }
}
