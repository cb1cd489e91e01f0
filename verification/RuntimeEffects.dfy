/**
 * src/orchestrator/scheduler_runtime.py: what a caller of the runtime sees of each call, in terms of records,
 * lanes and the present session alone.
 */
module RuntimeEffects {
  import opened Common
  import opened Sessions
  import opened TaskRegistryModel
  import opened TaskExecutorModel
  import opened TaskReduction
  import opened ResultFence
  import opened LaneEntries

  /** A tombstone that has stood for its time. */
  predicate Expired(rt: Runtime, id: TaskId, now: int) {
    && id in rt.registry.records && rt.registry.records[id].terminalAt.Some?
    && now - rt.registry.records[id].terminalAt.value >= rt.registry.config.tombstoneTtlMs
  }

  predicate Remains(rt: Runtime, id: TaskId, now: int) {
    id in rt.registry.records && !Expired(rt, id, now)
  }

  /** What the present session asks of a request. */
  predicate SessionFits(rt: Runtime, q: TaskRequest) {
    var session := rt.scheduler.snapshot;
    && q.sessionId == session.sessionId && session.activeTurn == Some(q.turnId) && q.snapshotRevision == session.revision
    && (q.data == INITIAL_DATA || q.data == rt.data)
  }

  ghost function RemainingChildren(rt: Runtime, parent: TaskId, now: int): set<TaskId> {
    set id | id in rt.registry.records && Remains(rt, id, now) && rt.registry.records[id].request.parent == Some(parent)
  }

  /** What the records that remain ask of it. */
  ghost predicate RecordsFit(rt: Runtime, q: TaskRequest, now: int) {
    var records, config := rt.registry.records, rt.registry.config;
    && (forall id <- records :: Remains(rt, id, now) ==> id != q.taskId && records[id].request.key != q.key)
    && q.kind in config.allowedKinds && q.retryAttempt <= config.maxRetries
    && (q.parent.Some? ==>
          && Remains(rt, q.parent.value, now) && records[q.parent.value].request.turnId == q.turnId
          && |RemainingChildren(rt, q.parent.value, now)| < config.maxChildren)
  }

  /** The whole admission of a request, against the present of the runtime. */
  ghost predicate Schedulable(rt: Runtime, q: TaskRequest, now: int)
    requires Total(rt.lanes)
  {
    SessionFits(rt, q) && RecordsFit(rt, q, now) && |rt.lanes[q.kind]| < rt.capacity
  }

  lemma AdmittedExactly(rt: Runtime, r0: RegistryState, q: TaskRequest)
    requires r0.Valid()
    ensures Admit(rt, r0, StampedRequest(rt, q)).1.RegistrationAccepted? <==>
            SessionFits(rt, q) && Register(r0, StampedRequest(rt, q)).1.RegistrationAccepted?
  {
    hide Register;
  }

  lemma RemainingRecords(rt: Runtime, now: int)
    requires Inv(rt)
    ensures var r0 := Drop(rt.registry, ExpiredIds(rt.registry, now));
            && r0.Valid() && r0.sessionId == rt.scheduler.snapshot.sessionId && r0.config == rt.registry.config
            && (forall id :: id in r0.records <==> Remains(rt, id, now))
            && (forall id :: id in r0.records ==> r0.records[id] == rt.registry.records[id])
            && (forall parent :: r0.ChildrenOf(parent) == RemainingChildren(rt, parent, now))
  {
    DropKeepsValid(rt.registry, ExpiredIds(rt.registry, now));
  }

  lemma RegisteredExactly(rt: Runtime, r0: RegistryState, q: TaskRequest, now: int)
    requires r0.Valid() && r0.config == rt.registry.config && q.sessionId == r0.sessionId
    requires forall id :: id in r0.records <==> Remains(rt, id, now)
    requires forall id :: id in r0.records ==> id in rt.registry.records && r0.records[id] == rt.registry.records[id]
    requires forall parent :: r0.ChildrenOf(parent) == RemainingChildren(rt, parent, now)
    ensures Register(r0, q).1.RegistrationAccepted? <==> RecordsFit(rt, q, now)
  {
    RegisterIsExact(r0, q);
    hide Register, RegistryState.Valid, RemainingChildren, Expired;
  }

  /** `schedule_task` succeeds exactly when the session, the records that remain and the lane allow it. */
  lemma SchedulesExactly(rt: Runtime, q: TaskRequest, now: int)
    requires Inv(rt)
    ensures ScheduleStep(rt, q, now).2 <==> Schedulable(rt, q, now)
  {
    var r0, stamped := Drop(rt.registry, ExpiredIds(rt.registry, now)), StampedRequest(rt, q);
    RemainingRecords(rt, now);
    AdmittedExactly(rt, r0, q);
    if SessionFits(rt, q) {
      RegisteredExactly(rt, r0, stamped, now);
    }
    AdmittingKeepsCoherent(rt, r0, stamped);
    hide Admit, Register, RemainingChildren, Remains, ExpiredIds, Drop, SessionFits;
    assert RecordsFit(rt, stamped, now) == RecordsFit(rt, q, now);
  }

  /** The records left once expired tombstones are gone. */
  ghost predicate OnlyExpiredLeft(rt: Runtime, r': RegistryState, now: int, other: Option<TaskId>) {
    forall id :: Some(id) != other ==>
      && (id in r'.records <==> Remains(rt, id, now))
      && (id in r'.records ==> r'.records[id] == rt.registry.records[id])
  }

  /**
   * A scheduled request waits, queued, at the end of its lane, stamped with the runtime's data, epoch and
   * capabilities; one that is refused is nowhere. Nothing else changes, but expired tombstones go.
   */
  lemma SchedulingDoes(rt: Runtime, q: TaskRequest, now: int)
    requires Inv(rt)
    ensures var rt' := ScheduleStep(rt, q, now).0;
            var stamped := q.(data := rt.data, epoch := rt.epoch, capabilities := rt.capabilities);
            && rt' == rt.(registry := rt'.registry, lanes := rt'.lanes)
            && (Schedulable(rt, q, now) ==>
                  && q.taskId in rt'.registry.records
                  && rt'.registry.records[q.taskId] == TaskRecord(stamped, Queued, None, None, None)
                  && rt'.lanes == rt.lanes[q.kind := rt.lanes[q.kind] + [stamped]]
                  && OnlyExpiredLeft(rt, rt'.registry, now, Some(q.taskId)))
            && (!Schedulable(rt, q, now) ==> rt'.lanes == rt.lanes && OnlyExpiredLeft(rt, rt'.registry, now, None))
  {
    hide Schedulable, Admit, Register, RemainingChildren, EpochFenced, QueuedAreHeld, Bounded;
    SchedulesExactly(rt, q, now);
    RemainingRecords(rt, now);
    var r0, stamped := Drop(rt.registry, ExpiredIds(rt.registry, now)), StampedRequest(rt, q);
    AdmittedFits(rt, r0, q);
    AdmissionInserts(rt, r0, stamped);
    hide ExpiredIds, Drop, Remains, EnqueueIn, Withdrawn, StampedRequest;
    var (r1, admission) := Admit(rt, r0, stamped);
    if admission.RegistrationAccepted? {
      QueueingDoes(r0, r1, rt.lanes, rt.capacity, stamped);
    }
  }

  lemma QueueingDoes(r0: RegistryState, r1: RegistryState, lanes: Lanes, capacity: int, q: TaskRequest)
    requires Total(lanes) && q.taskId !in r0.records
    requires r1.records == r0.records[q.taskId := TaskRecord(q, Admitted, None, None, None)]
    ensures var (r2, lanes', queued) := EnqueueIn(r1, lanes, capacity, q);
            && (queued ==> r2.records == r0.records[q.taskId := TaskRecord(q, Queued, None, None, None)]
                           && lanes' == lanes[q.kind := lanes[q.kind] + [q]])
            && (!queued ==> r2 == r1 && lanes' == lanes && Withdrawn(r1, q.taskId).records == r0.records)
  {
    assert r1.Has(q.taskId, Admitted);
    assert (r0.records[q.taskId := TaskRecord(q, Admitted, None, None, None)]) - {q.taskId} == r0.records;
  }

  lemma AdmittedFits(rt: Runtime, r0: RegistryState, q: TaskRequest)
    requires r0.Valid()
    ensures Admit(rt, r0, StampedRequest(rt, q)).1.RegistrationAccepted? ==>
              StampedRequest(rt, q) == q.(data := rt.data, epoch := rt.epoch, capabilities := rt.capabilities)
  {
    AdmittedExactly(rt, r0, q);
    hide Admit;
  }

  lemma AdmissionInserts(rt: Runtime, r0: RegistryState, q: TaskRequest)
    requires r0.Valid()
    ensures var (r1, admission) := Admit(rt, r0, q);
            if admission.RegistrationAccepted?
            then q.taskId !in r0.records && r1.records == r0.records[q.taskId := TaskRecord(q, Admitted, None, None, None)]
            else r1 == r0
  {
    hide SchedulingRejection, RegistrationRefusal;
    RegisterInsertsOne(r0, q);
  }

  /** Which answer a registration gets: the first of these that applies. */
  lemma RegistrationAnswersAreExact(r: RegistryState, q: TaskRequest)
    requires r.Valid()
    ensures var answer := Register(r, q).1;
            if q.key in r.idempotency then answer == RegistrationDuplicate(r.records[r.idempotency[q.key]])
            else if q.sessionId != r.sessionId then answer == RegistrationRejected(WrongSession)
            else if q.taskId in r.records then answer == RegistrationRejected(DuplicateTaskId)
            else if q.kind !in r.config.allowedKinds then answer == RegistrationRejected(KindForbidden)
            else if q.retryAttempt > r.config.maxRetries then answer == RegistrationRejected(RetryLimit)
            else if q.parent.Some? && q.parent.value !in r.records then answer == RegistrationRejected(ParentNotFound)
            else if q.parent.Some? && r.records[q.parent.value].request.turnId != q.turnId then
              answer == RegistrationRejected(ParentTurnMismatch)
            else if q.parent.Some? && |r.ChildrenOf(q.parent.value)| >= r.config.maxChildren then
              answer == RegistrationRejected(FanOutLimit)
            else answer == RegistrationAccepted(TaskRecord(q, Admitted, None, None, None))
  {
    if q.parent.Some? {
      assert r.ChildrenOf(q.parent.value) == set id | id in r.records && r.records[id].request.parent == q.parent;
    }
  }

  /** Which answer a result gets from the reducer: the first of these that applies. */
  lemma ReductionAnswersAreExact(r: RegistryState, result: TaskResult, session: SessionSnapshot, now: int, data: DataSnapshot, commit: Commit)
    requires r.Valid()
    ensures var answer := Reduce(r, result, session, now, Some(data), commit).1;
            if result.taskId !in r.records then answer == ResultRejected(TaskNotFound)
            else
              var record, q := r.records[result.taskId], r.records[result.taskId].request;
              if record.state == Superseded then answer == ResultRejected(TaskSuperseded)
              else if record.state == TimedOut then answer == ResultRejected(DeadlineExceeded)
              else if record.state == Succeeded then answer == ResultRejected(AlreadyCompleted)
              else if record.state != Running then answer == ResultRejected(TaskCancelled)
              else if session.sessionId != q.sessionId then answer == ResultRejected(ResultSessionMismatch)
              else if session.revision != q.snapshotRevision then answer == ResultRejected(StaleResultRevision)
              else if session.activeTurn != Some(q.turnId) then answer == ResultRejected(TurnMismatch)
              else if !DataFits(q, data) then answer == ResultRejected(StaleDataSnapshot)
              else if now > q.deadlineMs then answer == ResultRejected(DeadlineExceeded)
              else if result.sessionId != q.sessionId then answer == ResultRejected(ResultSessionMismatch)
              else if result.turnId != q.turnId then answer == ResultRejected(TurnMismatch)
              else if result.snapshotRevision != q.snapshotRevision then answer == ResultRejected(StaleResultRevision)
              else if result.epoch != q.epoch || result.segmentId != q.segmentId then answer == ResultRejected(TaskCancelled)
              else if commit.Raises? then answer == CommitRaised
              else answer == ResultAccepted(Ended(record, Succeeded, None, None, now), result.effect)
  {
  }

  /** Whether a request's data is still the present one; speech that is already validated ignores memory and context. */
  predicate DataFits(q: TaskRequest, data: DataSnapshot) {
    && q.data.profileRevision == data.profileRevision && q.data.consentRevision == data.consentRevision
    && q.data.corpusRevision == data.corpusRevision && q.data.indexRevision == data.indexRevision
    && (q.dependency == Full ==>
          q.data.memoryRevision == data.memoryRevision && q.data.contextGeneration == data.contextGeneration)
  }

  predicate Unfinished(rt: Runtime, id: TaskId) {
    id in rt.registry.records && rt.registry.records[id].state in {Admitted, Queued, Running}
  }

  /** The final record of a task. */
  function Ended(record: TaskRecord, state: TaskState, reason: Option<string>, replacement: Option<TaskId>, now: int): TaskRecord {
    TaskRecord(record.request, state, reason, replacement, Some(now))
  }

  /** One record is replaced, if any; nothing else of the runtime moves. */
  ghost predicate OnlyRecord(rt: Runtime, rt': Runtime, id: TaskId, record: Option<TaskRecord>) {
    if record == None then rt' == rt
    else rt' == rt.(registry := rt.registry.(records := rt.registry.records[id := record.value]))
  }

  /** Cancelling and timing out: when they take effect, and what they leave. */
  lemma OneTaskEnds(rt: Runtime, id: TaskId, reason: string, now: int)
    requires Inv(rt)
    ensures OnlyRecord(rt, Step(rt, CancelTask(id, reason, now)).0, id,
              if Unfinished(rt, id) then Some(Ended(rt.registry.records[id], Cancelled, Some(reason), None, now)) else None)
    ensures OnlyRecord(rt, Step(rt, TimeOutTask(id, now)).0, id,
              if Unfinished(rt, id) then Some(Ended(rt.registry.records[id], TimedOut, None, None, now)) else None)
  {
  }

  /** The same for failing, which needs a running task. */
  lemma OneTaskFails(rt: Runtime, id: TaskId, reason: string, now: int)
    requires Inv(rt)
    ensures OnlyRecord(rt, Step(rt, FailTask(id, reason, now)).0, id,
              if rt.registry.Has(id, Running) then Some(Ended(rt.registry.records[id], Failed, Some(reason), None, now)) else None)
  {
  }

  /** And for superseding, which needs a record of another turn. */
  lemma OneTaskIsSuperseded(rt: Runtime, id: TaskId, replacement: TaskId, now: int)
    requires Inv(rt)
    ensures OnlyRecord(rt, Step(rt, SupersedeTask(id, replacement, now)).0, id,
              if (rt.registry.Has(id, Queued) || rt.registry.Has(id, Running)) && replacement in rt.registry.records
                 && rt.registry.records[id].request.turnId != rt.registry.records[replacement].request.turnId
              then Some(Ended(rt.registry.records[id], Superseded, None, Some(replacement), now)) else None)
  {
  }

  /** Every unfinished task is cancelled, every finished one left alone. */
  ghost predicate AllCancelled(rt: Runtime, r': RegistryState, reason: string, now: int) {
    && r' == rt.registry.(records := r'.records) && r'.records.Keys == rt.registry.records.Keys
    && forall id <- rt.registry.records ::
         r'.records[id] == if Unfinished(rt, id) then Ended(rt.registry.records[id], Cancelled, Some(reason), None, now)
                           else rt.registry.records[id]
  }

  lemma AllTasksEnd(rt: Runtime, reason: string, now: int)
    requires Inv(rt)
    ensures AllCancelled(rt, CancelEvery(rt.registry, reason, now), reason, now)
  {
  }

  /** A new epoch: one higher, with nothing left of the old one that could deliver. The end: nothing left at all. */
  lemma EpochsEnd(rt: Runtime, reason: string, now: int)
    requires Inv(rt)
    ensures var rt' := Step(rt, AdvanceEpoch(now)).0;
            rt' == rt.(epoch := rt.epoch + 1, registry := rt'.registry) && AllCancelled(rt, rt'.registry, "superseded_turn", now)
    ensures var rt' := Step(rt, CancelPending(reason, now)).0;
            rt' == rt.(registry := rt'.registry) && AllCancelled(rt, rt'.registry, reason, now)
    ensures var rt' := Step(rt, EndSession(now)).0;
            rt' == rt.(registry := rt.registry.(records := map[], idempotency := map[]))
  {
    AllTasksEnd(rt, "superseded_turn", now);
    AllTasksEnd(rt, reason, now);
    EndingEmpties(rt, now);
    hide CancelEvery, AllCancelled, Drop;
  }

  lemma EndingEmpties(rt: Runtime, now: int)
    requires Inv(rt)
    ensures var r1 := CancelEvery(rt.registry, "session_ended", now);
            TerminalIds(r1) <= r1.records.Keys
            && Drop(r1, TerminalIds(r1)) == rt.registry.(records := map[], idempotency := map[])
  {
    CancelEveryAdvances(rt.registry, "session_ended", now);
    AllTasksEnd(rt, "session_ended", now);
    var r1 := CancelEvery(rt.registry, "session_ended", now);
    assert TerminalIds(r1) == r1.records.Keys;
    assert forall key <- r1.idempotency :: key in KeysOf(r1, r1.records.Keys) by {
      forall key <- r1.idempotency ensures key in KeysOf(r1, r1.records.Keys) {
        assert r1.idempotency[key] in r1.records;
      }
    }
    assert r1.records - r1.records.Keys == map[];
    assert r1.idempotency - KeysOf(r1, r1.records.Keys) == map[];
  }

  /** What a refused result does: a task whose capabilities were revoked is cancelled, an overdue one timed out. */
  lemma RefusedResultDoes(rt: Runtime, result: TaskResult, now: int, commit: Commit)
    requires Inv(rt) && !FenceOpen(rt, result, now)
    ensures var id := result.taskId;
            var rt' := ReduceStep(rt, result, now, commit).0;
            var session := rt.scheduler.snapshot;
            if id !in rt.registry.records then rt' == rt
            else
              var record, q := rt.registry.records[id], rt.registry.records[id].request;
              if !(q.capabilities <= rt.capabilities) then
                OnlyRecord(rt, rt', id, if Unfinished(rt, id) then Some(Ended(record, Cancelled, Some("capability_revoked"), None, now)) else None)
              else if record.state == Running && q.snapshotRevision == session.revision && session.activeTurn == Some(q.turnId)
                      && DataFits(q, rt.data) && now > q.deadlineMs then
                OnlyRecord(rt, rt', id, Some(Ended(record, TimedOut, None, None, now)))
              else rt' == rt
  {
  }

  /**
   * An accepted result ends its task as a success and takes over what its persistence wrote. If that raises,
   * nothing happened.
   */
  lemma AcceptedResultDoes(rt: Runtime, result: TaskResult, now: int, commit: Commit)
    requires Inv(rt) && FenceOpen(rt, result, now)
    ensures var rt' := ReduceStep(rt, result, now, commit).0;
            if commit.Raises? then rt' == rt else
            && OnlyRecord(rt.(data := rt'.data), rt', result.taskId,
                       Some(Ended(rt.registry.records[result.taskId], Succeeded, None, None, now)))
            && rt'.data == (if commit.Commits? then commit.data else rt.data)
  {
  }

  /** The lanes in the order of their urgency. */
  function Waiting(lanes: Lanes): seq<TaskRequest>
    requires Total(lanes)
  {
    lanes[Reflex] + lanes[Interactive] + lanes[Deliberative] + lanes[Maintenance]
  }

  lemma WaitingIsTheLine(lanes: Lanes)
    requires Total(lanes)
    ensures Line(lanes, LANE_PRIORITY) == Waiting(lanes)
  {
    var a, b, c, d := lanes[Reflex], lanes[Interactive], lanes[Deliberative], lanes[Maintenance];
    var kinds := [Reflex, Interactive, Deliberative, Maintenance];
    var later := kinds[1..];
    assert later == [Interactive, Deliberative, Maintenance];
    var last := later[1..];
    assert last == [Deliberative, Maintenance] && last[1..] == [Maintenance] && last[1..][1..] == [];
    assert Line(lanes, last[1..]) == d + Line(lanes, last[1..][1..]) == d;
    assert Line(lanes, last) == c + d;
    assert Line(lanes, later) == b + (c + d);
    assert Line(lanes, kinds) == a + (b + (c + d)) == a + b + c + d;
  }

  /** A claim by id takes the id's first entry off the lanes, and hands it out exactly if the task is queued. */
  lemma ClaimDoes(rt: Runtime, id: TaskId)
    requires Inv(rt)
    ensures var line := Waiting(rt.lanes);
            var (r', lanes', found) := ClaimIn(rt.registry, rt.lanes, id, LANE_PRIORITY);
            && Total(lanes')
            && Step(rt, ClaimTask(id)).0 == rt.(registry := r', lanes := lanes')
            && found == (if rt.registry.Has(id, Queued) then FirstOf(line, id) else None)
            && Waiting(lanes') == WithoutFirst(line, id)
            && r' == (if found == None then rt.registry
                      else rt.registry.(records := rt.registry.records[id := rt.registry.records[id].(
                             state := Running, cancellationReason := None, supersededBy := None)]))
  {
    WaitingIsTheLine(rt.lanes);
    AllKinds(Reflex);
    ClaimTakesTheFirst(rt.registry, rt.lanes, id, LANE_PRIORITY);
    WaitingIsTheLine(ClaimIn(rt.registry, rt.lanes, id, LANE_PRIORITY).1);
    hide ClaimIn, Line, Waiting, WithoutFirst, FirstOf;
  }

  /** Taking the first entry of an id off a line. */
  function WithoutFirst(line: seq<TaskRequest>, id: TaskId): seq<TaskRequest> {
    var i := FirstWith(line, id);
    if i < |line| then line[..i] + line[i + 1..] else line
  }

  function FirstOf(line: seq<TaskRequest>, id: TaskId): Option<TaskRequest> {
    var i := FirstWith(line, id);
    if i < |line| then Some(line[i]) else None
  }

  lemma FirstSplits(a: seq<TaskRequest>, b: seq<TaskRequest>, id: TaskId)
    ensures if FirstOf(a, id).Some? then FirstOf(a + b, id) == FirstOf(a, id) && WithoutFirst(a + b, id) == WithoutFirst(a, id) + b
            else FirstOf(a + b, id) == FirstOf(b, id) && WithoutFirst(a + b, id) == a + WithoutFirst(b, id)
  {
    FirstWithSplits(a, b, id);
    var i, j := FirstWith(a, id), FirstWith(b, id);
    hide FirstWith;
    if i < |a| {
      DropBefore(a, b, i);
    } else if j < |b| {
      DropBehind(a, b, j);
    }
  }

  lemma {:induction false} ClaimTakesTheFirst(r: RegistryState, lanes: Lanes, id: TaskId, kinds: seq<TaskKind>)
    requires Total(lanes) && Distinct(kinds)
    ensures var line := Line(lanes, kinds);
            var (r', lanes', found) := ClaimIn(r, lanes, id, kinds);
            && Total(lanes')
            && found == (if r.Has(id, Queued) then FirstOf(line, id) else None)
            && Line(lanes', kinds) == WithoutFirst(line, id)
            && r' == (if FirstOf(line, id).Some? then Claimed(r, id) else r)
  {
    hide Claimed, WithoutFirst;
    if kinds != [] {
      var lane, rest := lanes[kinds[0]], Line(lanes, kinds[1..]);
      FirstSplits(lane, rest, id);
      if FirstOf(lane, id).None? {
        ClaimTakesTheFirst(r, lanes, id, kinds[1..]);
        ClaimKeepsOthers(r, lanes, id, kinds[1..], kinds[0]);
      } else {
        var i := FirstWith(lane, id);
        LineApart(lanes, kinds[1..], kinds[0], Without(lane, i));
        assert WithoutFirst(lane, id) == Without(lane, i) by { Unfolded(lane, id); }
      }
    } else {
      assert WithoutFirst([], id) == [] by { NothingToTake(id); }
    }
  }

  lemma NothingToTake(id: TaskId)
    ensures WithoutFirst([], id) == []
  {
  }

  lemma Unfolded(lane: seq<TaskRequest>, id: TaskId)
    requires FirstWith(lane, id) < |lane|
    ensures WithoutFirst(lane, id) == Without(lane, FirstWith(lane, id))
  {
  }

  lemma DropBehind<T>(a: seq<T>, b: seq<T>, i: nat)
    requires i < |b|
    ensures (a + b)[..|a| + i] + (a + b)[|a| + i + 1..] == a + (b[..i] + b[i + 1..]) && (a + b)[|a| + i] == b[i]
  {
  }

  lemma DropBefore<T>(a: seq<T>, b: seq<T>, i: nat)
    requires i < |a|
    ensures (a + b)[..i] + (a + b)[i + 1..] == (a[..i] + a[i + 1..]) + b && (a + b)[i] == a[i]
  {
  }

  lemma {:induction false} ClaimKeepsOthers(r: RegistryState, lanes: Lanes, id: TaskId, kinds: seq<TaskKind>, kind: TaskKind)
    requires Total(lanes) && kind !in kinds
    ensures var lanes' := ClaimIn(r, lanes, id, kinds).1; kind in lanes' && lanes'[kind] == lanes[kind]
  {
    if kinds != [] {
      ClaimKeepsOthers(r, lanes, id, kinds[1..], kind);
    }
  }

  lemma {:induction false} FirstWithSplits(a: seq<TaskRequest>, b: seq<TaskRequest>, id: TaskId)
    ensures FirstWith(a + b, id) == if FirstWith(a, id) < |a| then FirstWith(a, id) else |a| + FirstWith(b, id)
  {
    if a == [] {
      assert a + b == b;
    } else {
      assert (a + b)[1..] == a[1..] + b;
      FirstWithSplits(a[1..], b, id);
    }
  }

  /** What `next` makes of one record. */
  ghost predicate NextSettles(r: RegistryState, line: seq<TaskRequest>, now: int, found: Option<TaskRequest>, r': RegistryState, id: TaskId)
    requires id in r.records && id in r'.records
  {
    var before, after, i := r.records[id], r'.records[id], FirstWith(line, id);
    if before.state == Queued && found.Some? && found.value.taskId == id then
      after == before.(state := Running, cancellationReason := None, supersededBy := None)
    else if before.state == Queued && i < |line| && line[i].deadlineMs < now && NoneDue(r, line, now, i) then
      after == Ended(before, TimedOut, None, None, now)
    else after == before
  }

  /**
   * `next`, whole: of everything that waits, most urgent lanes first, the first entry due is handed out and
   * what stood in front of it is gone, its overdue tasks timed out; if none is due nothing is left waiting.
   */
  lemma NextDoes(rt: Runtime, now: int)
    requires Inv(rt)
    ensures var line := Waiting(rt.lanes);
            var (r', lanes', found) := NextIn(rt.registry, rt.lanes, now, LANE_PRIORITY);
            && Step(rt, NextTask(now)).0 == rt.(registry := r', lanes := lanes')
            && r'.records.Keys == rt.registry.records.Keys
            && (if found == None then NoneDue(rt.registry, line, now, |line|) && Waiting(lanes') == []
                else exists k: nat :: k < |line| && Due(rt.registry, line, now, k) && NoneDue(rt.registry, line, now, k)
                       && found == Some(line[k]) && Waiting(lanes') == line[k + 1..])
            && forall id <- rt.registry.records :: NextSettles(rt.registry, line, now, found, r', id)
  {
    var r, line := rt.registry, Waiting(rt.lanes);
    WaitingIsTheLine(rt.lanes);
    AllKinds(Reflex);
    NextWalksOneLine(r, rt.lanes, now, LANE_PRIORITY);
    WaitingIsTheLine(NextIn(r, rt.lanes, now, LANE_PRIORITY).1);
    NextInLaneAdvances(r, line, now);
    hide NextIn, Line, Waiting, Due, NoneDue, NextSettles, NextInLane, EpochFenced, QueuedAreHeld, Bounded;
    WhatIsHandedOut(r, line, now);
    forall id <- r.records ensures NextSettles(r, line, now, NextInLane(r, line, now).2, NextInLane(r, line, now).0, id) {
      WhatNextSettles(r, line, now, id);
    }
  }

  lemma WhatIsHandedOut(r: RegistryState, line: seq<TaskRequest>, now: int)
    requires r.Stamped()
    ensures var (r', line', found) := NextInLane(r, line, now);
            if found == None then NoneDue(r, line, now, |line|) && line' == []
            else exists k: nat :: k < |line| && Due(r, line, now, k) && NoneDue(r, line, now, k)
                   && found == Some(line[k]) && line' == line[k + 1..]
  {
    NextInLaneTakesAPrefix(r, line, now);
    var (r', line', found) := NextInLane(r, line, now);
    hide NextInLane, Due;
    if found.Some? {
      TheFirstDueIsHandedOut(r, line, now, |line| - |line'| - 1);
    } else {
      NothingDueWithoutHandOut(r, line, now, |line|);
    }
  }

  lemma {:induction false} NothingDueWithoutHandOut(r: RegistryState, line: seq<TaskRequest>, now: int, n: nat)
    requires n <= |line| && NextInLane(r, line, now).2 == None
    ensures NoneDue(r, line, now, n)
  {
    hide NextInLane, Due;
    if n > 0 {
      NothingDueWithoutHandOut(r, line, now, n - 1);
      TheFirstDueIsHandedOut(r, line, now, n - 1);
    }
  }

  lemma SettlesWhenFirstIsDue(r: RegistryState, line: seq<TaskRequest>, now: int, id: TaskId)
    requires id in r.records && line != [] && Due(r, line, now, 0)
    ensures var r' := Claimed(r, line[0].taskId);
            id in r'.records && NextSettles(r, line, now, Some(line[0]), r', id)
  {
    FirstStep(r, line, now);
    DueInFront(r, line, now, FirstWith(line, id));
    hide Due, NoneDue;
  }

  lemma SettlesTheFirst(r: RegistryState, line: seq<TaskRequest>, now: int, found: Option<TaskRequest>, r': RegistryState)
    requires r.Stamped() && line != [] && !Due(r, line, now, 0)
    requires var id, passed := line[0].taskId, Passed(r, line[0], now);
             && id in r.records && id in passed.records && id in r'.records
             && NextSettles(passed, line[1..], now, found, r', id)
             && (found.Some? ==> passed.Has(found.value.taskId, Queued))
    ensures NextSettles(r, line, now, found, r', line[0].taskId)
  {
    FirstStep(r, line, now);
    PassingSettles(r, line[0], now, line[0].taskId);
    DueInFront(r, line, now, 0);
    hide Due, NoneDue;
  }

  lemma SettlesLater(
    r: RegistryState, line: seq<TaskRequest>, now: int, found: Option<TaskRequest>, r': RegistryState, id: TaskId)
    requires line != [] && !Due(r, line, now, 0) && id != line[0].taskId && id in r.records && id in r'.records
    requires var passed := Passed(r, line[0], now);
             id in passed.records && NextSettles(passed, line[1..], now, found, r', id)
    ensures NextSettles(r, line, now, found, r', id)
  {
    PassingSettles(r, line[0], now, id);
    NoneDueShifts(r, line, now, FirstWith(line[1..], id));
    hide Due, NoneDue, Passed;
  }

  lemma {:induction false} WhatNextSettles(r: RegistryState, line: seq<TaskRequest>, now: int, id: TaskId)
    requires r.Stamped() && id in r.records
    ensures var (r', line', found) := NextInLane(r, line, now);
            id in r'.records && NextSettles(r, line, now, found, r', id)
    decreases |line|
  {
    hide Due, NextSettles;
    if line == [] {
      assert NextSettles(r, [], now, None, r, id) by { NothingSettles(r, now, id); }
    } else {
      FirstStep(r, line, now);
      if Due(r, line, now, 0) {
        SettlesWhenFirstIsDue(r, line, now, id);
      } else {
        var first, passed := line[0], Passed(r, line[0], now);
        if r.Has(first.taskId, Queued) {
          SettlingAdvances(r, first.taskId, TimedOut, now);
        }
        WhatNextSettles(passed, line[1..], now, id);
        assert passed.Stamped() by { PassedIsStamped(r, first, now); }
        NextInLaneHandsOverOnce(passed, line[1..], now);
        var (r', _, found) := NextInLane(passed, line[1..], now);
        hide Passed, NextInLane;
        if id == first.taskId {
          SettlesTheFirst(r, line, now, found, r');
        } else {
          SettlesLater(r, line, now, found, r', id);
        }
      }
    }
  }

  lemma PassedIsStamped(r: RegistryState, first: TaskRequest, now: int)
    requires r.Stamped()
    ensures Passed(r, first, now).Stamped()
  {
    if r.Has(first.taskId, Queued) {
      SettlingAdvances(r, first.taskId, TimedOut, now);
    }
  }

  lemma NothingSettles(r: RegistryState, now: int, id: TaskId)
    requires id in r.records
    ensures NextSettles(r, [], now, None, r, id)
  {
  }

  lemma DueInFront(r: RegistryState, line: seq<TaskRequest>, now: int, i: nat)
    requires line != [] && i <= |line|
    ensures NoneDue(r, line, now, 0)
    ensures i > 0 && Due(r, line, now, 0) ==> !NoneDue(r, line, now, i)
  {
    hide Due;
  }
}
