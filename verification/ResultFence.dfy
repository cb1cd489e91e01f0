/**
 * src/orchestrator/scheduler_runtime.py, the part that owns the task lifecycle of one session:
 * scheduling, epochs, cancellation and the reduction of provider results, over whole runs.
 */
module ResultFence {
  import opened Common
  import opened Sessions
  import opened TaskRegistryModel
  import opened TaskExecutorModel
  import opened TaskReduction

  datatype Runtime = Runtime(
    scheduler: SchedulerState, epoch: int, capabilities: set<Capability>, data: DataSnapshot,
    registry: RegistryState, lanes: Lanes, capacity: int)

  datatype Action =
    | Schedule(request: TaskRequest, now: int)
    | ClaimTask(id: TaskId)
    | NextTask(now: int)
    | Start(expectedRevision: int, event: SchedulerEvent)
    | AdvanceEpoch(now: int)
    | CancelTask(id: TaskId, reason: string, now: int)
    | CancelPending(reason: string, now: int)
    | TimeOutTask(id: TaskId, now: int)
    | FailTask(id: TaskId, reason: string, now: int)
    | SupersedeTask(id: TaskId, replacement: TaskId, now: int)
    | SetCapabilities(capabilities: set<Capability>)
    | SetData(data: DataSnapshot)
    | ReduceTask(result: TaskResult, now: int, commit: Commit)
    | EndSession(now: int)

  /** What a run leaves in its journal. */
  datatype Event = Registered(id: TaskId) | Accepted(id: TaskId)

  function InitialRuntime(sessionId: SessionId, prefix: string, config: Config, capabilities: set<Capability>, capacity: int): Runtime {
    Runtime(InitialScheduler(sessionId, prefix), 0, capabilities, INITIAL_DATA,
            EmptyRegistry(sessionId, config), EmptyLanes(), capacity)
  }

  function StampedRequest(rt: Runtime, q: TaskRequest): TaskRequest {
    WithCurrentData(q, rt.data).(epoch := rt.epoch, capabilities := rt.capabilities)
  }

  /** `_admit_task`, on a registry whose expired tombstones are already gone. */
  function Admit(rt: Runtime, r: RegistryState, q: TaskRequest): (RegistryState, Registration)
    requires forall key :: key in r.idempotency ==> r.idempotency[key] in r.records
  {
    if q.epoch != rt.epoch then (r, RegistrationRejected(StaleSnapshot))
    else
      var rejection := SchedulingRejection(q, rt.scheduler.snapshot);
      if rejection.Some? then (r, RegistrationRejected(rejection.value))
      else if q.data != rt.data then (r, RegistrationRejected(StaleSnapshot))
      else Register(r, q)
  }

  function ScheduleStep(rt: Runtime, q: TaskRequest, now: int): (Runtime, seq<Event>, bool)
    requires rt.registry.Valid() && Total(rt.lanes)
  {
    var stamped := StampedRequest(rt, q);
    var r0 := Drop(rt.registry, ExpiredIds(rt.registry, now));
    DropKeepsValid(rt.registry, ExpiredIds(rt.registry, now));
    var (r1, admission) := Admit(rt, r0, stamped);
    if !admission.RegistrationAccepted? then (rt.(registry := r1), [], false)
    else
      var (r2, lanes, queued) := EnqueueIn(r1, rt.lanes, rt.capacity, stamped);
      if queued then (rt.(registry := r2, lanes := lanes), [Registered(q.taskId)], true)
      else (rt.(registry := Withdrawn(r2, q.taskId)), [Registered(q.taskId)], false)
  }

  // The invariant no line of the runtime writes down.

  /** Every task that could still deliver was scheduled in the epoch the runtime is in now. */
  ghost predicate EpochFenced(rt: Runtime) {
    forall id :: rt.registry.HasLive(id) ==> rt.registry.records[id].request.epoch == rt.epoch
  }

  ghost predicate Inv(rt: Runtime) {
    && rt.scheduler.Valid()
    && rt.registry.sessionId == rt.scheduler.snapshot.sessionId
    && Coherent(rt.registry, rt.lanes, rt.capacity)
    && EpochFenced(rt)
  }

  /** The whole fence, read off the runtime's present: nothing here mentions what the task was scheduled under. */
  ghost predicate FenceOpen(rt: Runtime, result: TaskResult, now: int) {
    && rt.registry.Has(result.taskId, Running)
    && var q := rt.registry.records[result.taskId].request;
       && q.capabilities <= rt.capabilities
       && q.DataIsCurrent(rt.data)
       && now <= q.deadlineMs
       && result.segmentId == q.segmentId
       && result.turnId == q.turnId && result.snapshotRevision == q.snapshotRevision
       && result.sessionId == rt.scheduler.snapshot.sessionId
       && Some(result.turnId) == rt.scheduler.snapshot.activeTurn
       && result.snapshotRevision == rt.scheduler.snapshot.revision
       && result.epoch == rt.epoch
  }

  /**
   * `reduce_task`: a revoked capability cancels the task before its result is looked at. In every state a
   * run can reach, a result is taken exactly when the fence is open and its persistence does not raise.
   */
  function ReduceStep(rt: Runtime, result: TaskResult, now: int, commit: Commit): (step: (Runtime, seq<Event>, bool))
    requires Inv(rt)
    ensures step.2 <==> FenceOpen(rt, result, now) && !commit.Raises?
    ensures step.2 ==>
              && step.1 == [Accepted(result.taskId)]
              && step.0.registry == Complete(rt.registry, result.taskId, now)
              && step.0.data == (if commit.Commits? then commit.data else rt.data)
    ensures !step.2 ==> step.1 == [] && step.0.data == rt.data
    ensures step.0 == rt.(registry := step.0.registry, data := step.0.data)
  {
    if result.taskId in rt.registry.records
       && !(rt.registry.records[result.taskId].request.capabilities <= rt.capabilities)
    then (rt.(registry := CancelOne(rt.registry, result.taskId, "capability_revoked", now)), [], false)
    else
      var (r, reduction) := Reduce(rt.registry, result, rt.scheduler.snapshot, now, Some(rt.data), commit);
      var data := if reduction.ResultAccepted? && commit.Commits? then commit.data else rt.data;
      (rt.(registry := r, data := data),
       if reduction.ResultAccepted? then [Accepted(result.taskId)] else [],
       reduction.ResultAccepted?)
  }

  function Step(rt: Runtime, action: Action): (Runtime, seq<Event>)
    requires Inv(rt)
  {
    var r := rt.registry;
    match action
    case Schedule(q, now) => var (rt', events, _) := ScheduleStep(rt, q, now); (rt', events)
    case ClaimTask(id) => var (r', lanes, _) := ClaimIn(r, rt.lanes, id, LANE_PRIORITY); (rt.(registry := r', lanes := lanes), [])
    case NextTask(now) => var (r', lanes, _) := NextIn(r, rt.lanes, now, LANE_PRIORITY); (rt.(registry := r', lanes := lanes), [])
    case Start(revision, event) => (rt.(scheduler := StartTurn(rt.scheduler, revision, event).0), [])
    case AdvanceEpoch(now) => (rt.(epoch := rt.epoch + 1, registry := CancelEvery(r, "superseded_turn", now)), [])
    case CancelTask(id, reason, now) => (rt.(registry := CancelOne(r, id, reason, now)), [])
    case CancelPending(reason, now) => (rt.(registry := CancelEvery(r, reason, now)), [])
    case TimeOutTask(id, now) => (rt.(registry := TimeOut(r, id, now)), [])
    case FailTask(id, reason, now) => (rt.(registry := Fail(r, id, reason, now)), [])
    case SupersedeTask(id, replacement, now) => (rt.(registry := Supersede(r, id, replacement, now)), [])
    case SetCapabilities(capabilities) => (rt.(capabilities := capabilities), [])
    case SetData(data) => (rt.(data := data), [])
    case ReduceTask(result, now, commit) => var (rt', events, _) := ReduceStep(rt, result, now, commit); (rt', events)
    case EndSession(now) =>
      var r1 := CancelEvery(r, "session_ended", now);
      (rt.(registry := Drop(r1, TerminalIds(r1))), [])
  }

  // ---------------------------------------------------------------------------------------------
  // Every step keeps it.

  /** A registry step that admits nothing keeps the fence of the epoch it happens in. */
  lemma NothingRevivedStaysFenced(rt: Runtime, r': RegistryState)
    requires Inv(rt)
    requires forall id :: r'.HasLive(id) ==> rt.registry.HasLive(id) && r'.records[id].request == rt.registry.records[id].request
    ensures EpochFenced(rt.(registry := r'))
  {
  }

  lemma NothingQueuedStaysHeld(r: RegistryState, r': RegistryState, lanes: Lanes, capacity: int)
    requires Coherent(r, lanes, capacity) && r'.Valid()
    requires forall id :: r'.Has(id, Queued) ==> r.Has(id, Queued) && r'.records[id].request == r.records[id].request
    ensures Coherent(r', lanes, capacity)
  {
  }

  lemma ExpiringKeepsInv(rt: Runtime, now: int)
    requires Inv(rt)
    ensures Inv(rt.(registry := Drop(rt.registry, ExpiredIds(rt.registry, now))))
  {
    var r0 := Drop(rt.registry, ExpiredIds(rt.registry, now));
    DropKeepsValid(rt.registry, ExpiredIds(rt.registry, now));
    NothingQueuedStaysHeld(rt.registry, r0, rt.lanes, rt.capacity);
    NothingRevivedStaysFenced(rt, r0);
  }

  lemma AdmittingKeepsCoherent(rt: Runtime, r0: RegistryState, q: TaskRequest)
    requires Coherent(r0, rt.lanes, rt.capacity)
    ensures var (r1, admission) := Admit(rt, r0, q);
            && (!admission.RegistrationAccepted? ==> r1 == r0)
            && (admission.RegistrationAccepted? ==>
                && Coherent(r1, rt.lanes, rt.capacity) && r1.sessionId == r0.sessionId
                && r1.records == r0.records[q.taskId := TaskRecord(q, Admitted, None, None, None)])
  {
    hide SchedulingRejection, RegistrationRefusal;
    RegisterKeepsValid(r0, q);
    RegisterInsertsOne(r0, q);
    var (r1, admission) := Admit(rt, r0, q);
    if admission.RegistrationAccepted? {
      NothingQueuedStaysHeld(r0, r1, rt.lanes, rt.capacity);
    }
  }

  lemma ScheduleKeepsInv(rt: Runtime, q: TaskRequest, now: int)
    requires Inv(rt)
    ensures Inv(ScheduleStep(rt, q, now).0)
  {
    hide Admit, Withdrawn;
    var stamped := StampedRequest(rt, q);
    var r0 := Drop(rt.registry, ExpiredIds(rt.registry, now));
    ExpiringKeepsInv(rt, now);
    AdmittingKeepsCoherent(rt, r0, stamped);
    var (r1, admission) := Admit(rt, r0, stamped);
    if admission.RegistrationAccepted? {
      EnqueueKeepsCoherent(r1, rt.lanes, rt.capacity, stamped);
      WithdrawingKeepsCoherent(r1, rt.lanes, rt.capacity, q.taskId);
      AdmissionStaysFenced(rt, r0, r1, stamped);
    }
  }

  lemma WithdrawingKeepsCoherent(r: RegistryState, lanes: Lanes, capacity: int, id: TaskId)
    requires Coherent(r, lanes, capacity)
    ensures Coherent(Withdrawn(r, id), lanes, capacity) && Withdrawn(r, id).sessionId == r.sessionId
  {
    if r.Has(id, Admitted) {
      DropKeepsValid(r, {id});
      NothingQueuedStaysHeld(r, Withdrawn(r, id), lanes, capacity);
    }
  }

  lemma AdmissionStaysFenced(rt: Runtime, r0: RegistryState, r1: RegistryState, q: TaskRequest)
    requires EpochFenced(rt.(registry := r0)) && q.epoch == rt.epoch
    requires r1.records == r0.records[q.taskId := TaskRecord(q, Admitted, None, None, None)]
    ensures EpochFenced(rt.(registry := Enqueued(r1, q.taskId)))
    ensures EpochFenced(rt.(registry := Withdrawn(r1, q.taskId)))
  {
    var r2, r3 := Enqueued(r1, q.taskId), Withdrawn(r1, q.taskId);
    forall id | r2.HasLive(id) ensures r2.records[id].request.epoch == rt.epoch {
      assert id != q.taskId ==> r0.HasLive(id);
    }
    forall id | r3.HasLive(id) ensures r3.records[id].request.epoch == rt.epoch {
      assert id != q.taskId ==> r0.HasLive(id);
    }
  }

  lemma AdvancingKeepsInv(rt: Runtime, r': RegistryState)
    requires Inv(rt) && Advances(rt.registry, r')
    ensures Inv(rt.(registry := r'))
  {
    AdvancesKeepsValid(rt.registry, r');
    NothingQueuedStaysHeld(rt.registry, r', rt.lanes, rt.capacity);
    NothingRevivedStaysFenced(rt, r');
  }

  /** Ending one live task, whatever ends it, keeps everything. */
  lemma EndingKeepsInv(
    rt: Runtime, id: TaskId, state: TaskState, reason: Option<string>, replacement: Option<TaskId>, now: int)
    requires Inv(rt) && rt.registry.HasLive(id) && Terminal(state)
    ensures Inv(rt.(registry := Put(rt.registry, id, Outcome(rt.registry.records[id], state, reason, replacement, now))))
  {
    OutcomeAdvances(rt.registry, id, state, reason, replacement, now);
    AdvancingKeepsInv(rt, Put(rt.registry, id, Outcome(rt.registry.records[id], state, reason, replacement, now)));
  }

  lemma CancelKeepsInv(rt: Runtime, id: TaskId, reason: string, now: int)
    requires Inv(rt)
    ensures Inv(rt.(registry := CancelOne(rt.registry, id, reason, now)))
  {
    if rt.registry.HasLive(id) {
      EndingKeepsInv(rt, id, Cancelled, Some(reason), None, now);
    }
  }

  lemma TimeOutKeepsInv(rt: Runtime, id: TaskId, now: int)
    requires Inv(rt)
    ensures Inv(rt.(registry := TimeOut(rt.registry, id, now)))
  {
    if rt.registry.HasLive(id) {
      EndingKeepsInv(rt, id, TimedOut, None, None, now);
    }
  }

  lemma FailKeepsInv(rt: Runtime, id: TaskId, reason: string, now: int)
    requires Inv(rt)
    ensures Inv(rt.(registry := Fail(rt.registry, id, reason, now)))
  {
    if rt.registry.Has(id, Running) {
      EndingKeepsInv(rt, id, Failed, Some(reason), None, now);
    }
  }

  lemma SupersedeKeepsInv(rt: Runtime, id: TaskId, replacement: TaskId, now: int)
    requires Inv(rt)
    ensures Inv(rt.(registry := Supersede(rt.registry, id, replacement, now)))
  {
    if MaySupersede(rt.registry, id, replacement) {
      EndingKeepsInv(rt, id, Superseded, None, Some(replacement), now);
    }
  }

  lemma CompleteKeepsInv(rt: Runtime, id: TaskId, now: int)
    requires Inv(rt) && rt.registry.Has(id, Running)
    ensures Inv(rt.(registry := Complete(rt.registry, id, now)))
  {
    EndingKeepsInv(rt, id, Succeeded, None, None, now);
  }

  /** The things `reduce_task` may do to the registry. */
  ghost predicate ReduceCase(r: RegistryState, id: TaskId, now: int, r': RegistryState, events: seq<Event>) {
    || (events == [] && (r' == r || r' == CancelOne(r, id, "capability_revoked", now) || r' == TimeOut(r, id, now)))
    || (events == [Accepted(id)] && r.Has(id, Running) && r' == Complete(r, id, now))
  }

  lemma ReduceStepCases(rt: Runtime, result: TaskResult, now: int, commit: Commit)
    requires Inv(rt)
    ensures var (rt', events, accepted) := ReduceStep(rt, result, now, commit);
            && rt' == rt.(registry := rt'.registry, data := rt'.data)
            && ReduceCase(rt.registry, result.taskId, now, rt'.registry, events)
  {
  }

  lemma DataKeepsInv(rt: Runtime, data: DataSnapshot)
    requires Inv(rt)
    ensures Inv(rt.(data := data))
  {
  }

  lemma ReduceKeepsInv(rt: Runtime, result: TaskResult, now: int, commit: Commit)
    requires Inv(rt)
    ensures Inv(ReduceStep(rt, result, now, commit).0)
  {
    var (rt', events, accepted) := ReduceStep(rt, result, now, commit);
    ReduceStepCases(rt, result, now, commit);
    CancelKeepsInv(rt, result.taskId, "capability_revoked", now);
    TimeOutKeepsInv(rt, result.taskId, now);
    if rt.registry.Has(result.taskId, Running) {
      CompleteKeepsInv(rt, result.taskId, now);
    }
    DataKeepsInv(rt.(registry := rt'.registry), rt'.data);
  }

  lemma ClaimKeepsInv(rt: Runtime, id: TaskId)
    requires Inv(rt)
    ensures Inv(Step(rt, ClaimTask(id)).0)
  {
    var (r', lanes, found) := ClaimIn(rt.registry, rt.lanes, id, LANE_PRIORITY);
    ClaimKeepsCoherent(rt.registry, rt.lanes, rt.capacity, id);
    PoppingKeepsInv(rt, r', lanes);
  }

  lemma NextKeepsInv(rt: Runtime, now: int)
    requires Inv(rt)
    ensures Inv(Step(rt, NextTask(now)).0)
  {
    var (r', lanes, found) := NextIn(rt.registry, rt.lanes, now, LANE_PRIORITY);
    NextKeepsCoherent(rt.registry, rt.lanes, rt.capacity, now);
    PoppingKeepsInv(rt, r', lanes);
  }

  lemma PoppingKeepsInv(rt: Runtime, r': RegistryState, lanes: Lanes)
    requires Inv(rt) && Coherent(r', lanes, rt.capacity) && Advances(rt.registry, r')
    ensures Inv(rt.(registry := r', lanes := lanes))
  {
    NothingRevivedStaysFenced(rt, r');
  }

  lemma CancelEveryAdvances(r: RegistryState, reason: string, now: int)
    requires r.Stamped()
    ensures Advances(r, CancelEvery(r, reason, now))
    ensures forall id :: !CancelEvery(r, reason, now).HasLive(id)
  {
  }

  /** After every live task is cancelled the fence holds at whatever epoch comes next. */
  lemma SweepingKeepsInv(rt: Runtime, reason: string, now: int, epoch: int)
    requires Inv(rt)
    ensures Inv(rt.(registry := CancelEvery(rt.registry, reason, now), epoch := epoch))
  {
    CancelEveryAdvances(rt.registry, reason, now);
    AdvancingKeepsInv(rt, CancelEvery(rt.registry, reason, now));
  }

  lemma ClearingKeepsInv(rt: Runtime)
    requires Inv(rt) && forall id :: !rt.registry.HasLive(id)
    ensures Inv(rt.(registry := Drop(rt.registry, TerminalIds(rt.registry))))
  {
    var r' := Drop(rt.registry, TerminalIds(rt.registry));
    DropKeepsValid(rt.registry, TerminalIds(rt.registry));
    NothingQueuedStaysHeld(rt.registry, r', rt.lanes, rt.capacity);
  }

  lemma EndSessionKeepsInv(rt: Runtime, now: int)
    requires Inv(rt)
    ensures Inv(Step(rt, EndSession(now)).0)
  {
    CancelEveryAdvances(rt.registry, "session_ended", now);
    SweepingKeepsInv(rt, "session_ended", now, rt.epoch);
    ClearingKeepsInv(rt.(registry := CancelEvery(rt.registry, "session_ended", now)));
  }

  lemma StartKeepsInv(rt: Runtime, revision: int, event: SchedulerEvent)
    requires Inv(rt)
    ensures Inv(Step(rt, Start(revision, event)).0)
  {
    StartTurnOpensAFreshTurn(rt.scheduler, revision, event);
  }

  lemma StepKeepsInv(rt: Runtime, action: Action)
    requires Inv(rt)
    ensures Inv(Step(rt, action).0)
  {
    match action
    case Schedule(q, now) => ScheduleKeepsInv(rt, q, now);
    case ClaimTask(id) => ClaimKeepsInv(rt, id);
    case NextTask(now) => NextKeepsInv(rt, now);
    case Start(revision, event) => StartKeepsInv(rt, revision, event);
    case AdvanceEpoch(now) => SweepingKeepsInv(rt, "superseded_turn", now, rt.epoch + 1);
    case CancelTask(id, reason, now) => CancelKeepsInv(rt, id, reason, now);
    case CancelPending(reason, now) => SweepingKeepsInv(rt, reason, now, rt.epoch);
    case TimeOutTask(id, now) => TimeOutKeepsInv(rt, id, now);
    case FailTask(id, reason, now) => FailKeepsInv(rt, id, reason, now);
    case SupersedeTask(id, replacement, now) => SupersedeKeepsInv(rt, id, replacement, now);
    case SetCapabilities(capabilities) =>
    case SetData(data) =>
    case ReduceTask(result, now, commit) => ReduceKeepsInv(rt, result, now, commit);
    case EndSession(now) => EndSessionKeepsInv(rt, now);
  }

  lemma InitialInv(sessionId: SessionId, prefix: string, config: Config, capabilities: set<Capability>, capacity: int)
    requires config.tombstoneTtlMs > 0
    ensures Inv(InitialRuntime(sessionId, prefix, config, capabilities, capacity))
  {
    EmptyLanesAreTotal();
  }

  // ---------------------------------------------------------------------------------------------
  // A finished task stays finished, and delivers at most once per registration.

  /** What one step may do to the records, told from its journal. */
  ghost predicate Traced(r: RegistryState, r': RegistryState, events: seq<Event>) {
    && (forall id :: id in r'.records && Registered(id) !in events ==>
          && id in r.records
          && r'.records[id].request == r.records[id].request
          && (Terminal(r.records[id].state) ==> r'.records[id] == r.records[id])
          && (Live(r'.records[id].state) ==> Live(r.records[id].state)))
    && (forall id :: Accepted(id) in events ==> r.Has(id, Running) && !r'.HasLive(id))
    && (forall id :: Registered(id) in events ==> id !in r.records || Terminal(r.records[id].state))
  }

  lemma AdvancesIsTraced(r: RegistryState, r': RegistryState)
    requires Advances(r, r')
    ensures Traced(r, r', [])
  {
  }

  lemma RegistrationIsTraced(r: RegistryState, r0: RegistryState, r1: RegistryState, q: TaskRequest)
    requires r0.records.Keys <= r.records.Keys
    requires forall id :: id in r0.records ==> r0.records[id] == r.records[id]
    requires forall id :: id in r.records && id !in r0.records ==> Terminal(r.records[id].state)
    requires q.taskId !in r0.records
    requires r1 == Inserted(r0, q)
    ensures Traced(r, Enqueued(r1, q.taskId), [Registered(q.taskId)])
    ensures Traced(r, Withdrawn(r1, q.taskId), [Registered(q.taskId)])
  {
    assert Registered(q.taskId) in [Registered(q.taskId)];
  }

  lemma ExpiryTakesFinishedTasks(r: RegistryState, now: int)
    requires r.Valid()
    ensures var r0 := Drop(r, ExpiredIds(r, now));
            && r0.Valid() && r0.records.Keys <= r.records.Keys
            && (forall id :: id in r0.records ==> r0.records[id] == r.records[id])
            && (forall id :: id in r.records && id !in r0.records ==> Terminal(r.records[id].state))
  {
    DropKeepsValid(r, ExpiredIds(r, now));
  }

  lemma ScheduleIsTraced(rt: Runtime, q: TaskRequest, now: int)
    requires Inv(rt)
    ensures var (rt', events, queued) := ScheduleStep(rt, q, now);
            Traced(rt.registry, rt'.registry, events) && (queued ==> events == [Registered(q.taskId)])
  {
    var (rt', events, queued) := ScheduleStep(rt, q, now);
    ScheduleStepCases(rt, q, now);
    ExpiryTakesFinishedTasks(rt.registry, now);
    ScheduleCasesAreTraced(rt.registry, Drop(rt.registry, ExpiredIds(rt.registry, now)), StampedRequest(rt, q), rt'.registry, events);
  }

  function Inserted(r: RegistryState, q: TaskRequest): RegistryState {
    r.(records := r.records[q.taskId := TaskRecord(q, Admitted, None, None, None)], idempotency := r.idempotency[q.key := q.taskId])
  }

  ghost predicate ScheduleCase(r0: RegistryState, q: TaskRequest, r': RegistryState, events: seq<Event>) {
    || (r' == r0 && events == [])
    || (&& q.taskId !in r0.records && events == [Registered(q.taskId)]
        && (r' == Enqueued(Inserted(r0, q), q.taskId) || r' == Withdrawn(Inserted(r0, q), q.taskId)))
  }

  lemma ScheduleStepCases(rt: Runtime, q: TaskRequest, now: int)
    requires Inv(rt)
    ensures var (rt', events, queued) := ScheduleStep(rt, q, now);
            && ScheduleCase(Drop(rt.registry, ExpiredIds(rt.registry, now)), StampedRequest(rt, q), rt'.registry, events)
            && (queued ==> events == [Registered(q.taskId)])
  {
    var stamped := StampedRequest(rt, q);
    var r0 := Drop(rt.registry, ExpiredIds(rt.registry, now));
    DropKeepsValid(rt.registry, ExpiredIds(rt.registry, now));
    RegisterInsertsOne(r0, stamped);
  }

  lemma ScheduleCasesAreTraced(r: RegistryState, r0: RegistryState, q: TaskRequest, r': RegistryState, events: seq<Event>)
    requires r0.records.Keys <= r.records.Keys
    requires forall id :: id in r0.records ==> r0.records[id] == r.records[id]
    requires forall id :: id in r.records && id !in r0.records ==> Terminal(r.records[id].state)
    requires ScheduleCase(r0, q, r', events)
    ensures Traced(r, r', events)
  {
    if events != [] {
      RegistrationIsTraced(r, r0, Inserted(r0, q), q);
    }
  }

  lemma EndIsTraced(r: RegistryState, id: TaskId, state: TaskState, reason: Option<string>, replacement: Option<TaskId>, now: int)
    requires r.Stamped() && r.HasLive(id) && Terminal(state)
    ensures var r' := Put(r, id, Outcome(r.records[id], state, reason, replacement, now));
            Traced(r, r', []) && (r.Has(id, Running) ==> Traced(r, r', [Accepted(id)]))
  {
    var r' := Put(r, id, Outcome(r.records[id], state, reason, replacement, now));
    OutcomeAdvances(r, id, state, reason, replacement, now);
    AdvancesIsTraced(r, r');
    assert Registered(id) !in [Accepted(id)];
  }

  lemma CancelIsTraced(r: RegistryState, id: TaskId, reason: string, now: int)
    requires r.Stamped()
    ensures Traced(r, CancelOne(r, id, reason, now), [])
  {
    if r.HasLive(id) {
      EndIsTraced(r, id, Cancelled, Some(reason), None, now);
    }
  }

  lemma TimeOutIsTraced(r: RegistryState, id: TaskId, now: int)
    requires r.Stamped()
    ensures Traced(r, TimeOut(r, id, now), [])
  {
    if r.HasLive(id) {
      EndIsTraced(r, id, TimedOut, None, None, now);
    }
  }

  lemma FailIsTraced(r: RegistryState, id: TaskId, reason: string, now: int)
    requires r.Stamped()
    ensures Traced(r, Fail(r, id, reason, now), [])
  {
    if r.Has(id, Running) {
      EndIsTraced(r, id, Failed, Some(reason), None, now);
    }
  }

  lemma SupersedeIsTraced(r: RegistryState, id: TaskId, replacement: TaskId, now: int)
    requires r.Stamped()
    ensures Traced(r, Supersede(r, id, replacement, now), [])
  {
    if MaySupersede(r, id, replacement) {
      EndIsTraced(r, id, Superseded, None, Some(replacement), now);
    }
  }

  lemma ReduceIsTraced(rt: Runtime, result: TaskResult, now: int, commit: Commit)
    requires Inv(rt)
    ensures var (rt', events, accepted) := ReduceStep(rt, result, now, commit);
            Traced(rt.registry, rt'.registry, events)
  {
    var (rt', events, accepted) := ReduceStep(rt, result, now, commit);
    ReduceStepCases(rt, result, now, commit);
    ReduceCasesAreTraced(rt.registry, result.taskId, now, rt'.registry, events);
  }

  lemma ReduceCasesAreTraced(r: RegistryState, id: TaskId, now: int, r': RegistryState, events: seq<Event>)
    requires r.Stamped() && ReduceCase(r, id, now, r', events)
    ensures Traced(r, r', events)
  {
    if events != [] {
      EndIsTraced(r, id, Succeeded, None, None, now);
    } else {
      CancelIsTraced(r, id, "capability_revoked", now);
      TimeOutIsTraced(r, id, now);
    }
  }

  lemma StepIsTraced(rt: Runtime, action: Action)
    requires Inv(rt)
    ensures Traced(rt.registry, Step(rt, action).0.registry, Step(rt, action).1)
  {
    var r := rt.registry;
    match action
    case Schedule(q, now) => ScheduleIsTraced(rt, q, now);
    case ClaimTask(id) => ClaimAdvances(r, rt.lanes, id, LANE_PRIORITY);
    case NextTask(now) => NextInAdvances(r, rt.lanes, now, LANE_PRIORITY);
    case Start(revision, event) =>
    case AdvanceEpoch(now) => CancelEveryAdvances(r, "superseded_turn", now);
    case CancelTask(id, reason, now) => CancelIsTraced(r, id, reason, now);
    case CancelPending(reason, now) => CancelEveryAdvances(r, reason, now);
    case TimeOutTask(id, now) => TimeOutIsTraced(r, id, now);
    case FailTask(id, reason, now) => FailIsTraced(r, id, reason, now);
    case SupersedeTask(id, replacement, now) => SupersedeIsTraced(r, id, replacement, now);
    case SetCapabilities(capabilities) =>
    case SetData(data) =>
    case ReduceTask(result, now, commit) => ReduceIsTraced(rt, result, now, commit);
    case EndSession(now) => CancelEveryAdvances(r, "session_ended", now);
  }

  /** An accepted delivery of `id` with no registration of it since. */
  ghost predicate Spent(log: seq<Event>, id: TaskId) {
    exists i :: 0 <= i < |log| && log[i] == Accepted(id) && forall j :: i < j < |log| ==> log[j] != Registered(id)
  }

  /** Two deliveries of one task id are always separated by a new registration of that id. */
  ghost predicate OncePerRegistration(log: seq<Event>) {
    forall i, j :: 0 <= i < j < |log| && log[i].Accepted? && log[j] == log[i] ==>
      exists k :: i < k < j && log[k] == Registered(log[i].id)
  }

  /** A task that could not deliver at the start delivers only after it has been registered. */
  ghost predicate DeliveriesAreRegistered(r0: RegistryState, log: seq<Event>) {
    forall j :: 0 <= j < |log| && log[j].Accepted? && !r0.HasLive(log[j].id) ==>
      exists i :: 0 <= i < j && log[i] == Registered(log[j].id)
  }

  /** Since `r0`, an id that was not registered again kept its finished record and did not come alive. */
  ghost predicate UnregisteredIsFrozen(r0: RegistryState, r: RegistryState, log: seq<Event>) {
    forall id :: id in r.records && Registered(id) !in log ==>
      && id in r0.records
      && (Terminal(r0.records[id].state) ==> r.records[id] == r0.records[id])
      && (r.HasLive(id) ==> r0.HasLive(id))
  }

  /** What the journal of a run from `r0` to `r` says about it. */
  ghost predicate Journal(r0: RegistryState, r: RegistryState, log: seq<Event>) {
    && OncePerRegistration(log)
    && (forall id :: Spent(log, id) ==> !r.HasLive(id))
    && DeliveriesAreRegistered(r0, log)
    && UnregisteredIsFrozen(r0, r, log)
  }

  lemma SpentSplits(log: seq<Event>, more: seq<Event>, id: TaskId)
    requires Spent(log + more, id)
    ensures Accepted(id) in more || (Spent(log, id) && Registered(id) !in more)
  {
    var all := log + more;
    var i :| 0 <= i < |all| && all[i] == Accepted(id) && forall j :: i < j < |all| ==> all[j] != Registered(id);
    if i < |log| {
      assert log[i] == Accepted(id);
      forall j | i < j < |log| ensures log[j] != Registered(id) {
        assert all[j] == log[j];
      }
      forall j | 0 <= j < |more| ensures more[j] != Registered(id) {
        assert all[|log| + j] == more[j];
      }
    } else {
      assert more[i - |log|] == Accepted(id);
    }
  }

  lemma DeliveriesStaySeparate(r: RegistryState, r': RegistryState, log: seq<Event>, event: Event)
    requires OncePerRegistration(log) && (forall id :: Spent(log, id) ==> !r.HasLive(id))
    requires Traced(r, r', [event])
    ensures OncePerRegistration(log + [event])
  {
    var all := log + [event];
    forall i, j | 0 <= i < j < |all| && all[i].Accepted? && all[j] == all[i]
      ensures exists k :: i < k < j && all[k] == Registered(all[i].id)
    {
      var id := all[i].id;
      assert log[i] == Accepted(id);
      if j < |log| {
        assert log[j] == Accepted(id);
        var k :| i < k < j && log[k] == Registered(id);
        assert all[k] == Registered(id);
      } else {
        assert Accepted(id) in [event];
        assert !Spent(log, id);
        var k :| i < k < |log| && log[k] == Registered(id);
        assert all[k] == Registered(id);
      }
    }
  }

  lemma DeliveriesStayRegistered(r0: RegistryState, r: RegistryState, r': RegistryState, log: seq<Event>, event: Event)
    requires DeliveriesAreRegistered(r0, log) && UnregisteredIsFrozen(r0, r, log)
    requires Traced(r, r', [event])
    ensures DeliveriesAreRegistered(r0, log + [event])
  {
    var all := log + [event];
    forall j | 0 <= j < |all| && all[j].Accepted? && !r0.HasLive(all[j].id)
      ensures exists i :: 0 <= i < j && all[i] == Registered(all[j].id)
    {
      var id := all[j].id;
      if j < |log| {
        assert log[j] == Accepted(id);
        var i :| 0 <= i < j && log[i] == Registered(id);
        assert all[i] == Registered(id);
      } else {
        assert Accepted(id) in [event];
        var i :| 0 <= i < |log| && log[i] == Registered(id);
        assert all[i] == Registered(id);
      }
    }
  }

  lemma JournalExtends(r0: RegistryState, r: RegistryState, r': RegistryState, log: seq<Event>, more: seq<Event>)
    requires Journal(r0, r, log) && Traced(r, r', more) && |more| <= 1
    ensures Journal(r0, r', log + more)
  {
    if more == [] {
      assert log + more == log;
    } else {
      DeliveriesStaySeparate(r, r', log, more[0]);
      DeliveriesStayRegistered(r0, r, r', log, more[0]);
      assert more == [more[0]];
    }
    forall id | Spent(log + more, id) ensures !r'.HasLive(id) {
      SpentSplits(log, more, id);
    }
  }

  lemma OneEventPerStep(rt: Runtime, action: Action)
    requires Inv(rt)
    ensures |Step(rt, action).1| <= 1
  {
  }

  /**
   * Every run from every state of the invariant: each live task still carries the current epoch, each
   * task id delivers at most once per registration, and finished records are frozen until released.
   */
  function Run(rt: Runtime, actions: seq<Action>): (result: (Runtime, seq<Event>))
    requires Inv(rt)
    ensures Inv(result.0)
    ensures Journal(rt.registry, result.0.registry, result.1)
    decreases |actions|
  {
    if actions == [] then (rt, [])
    else
      var (before, log) := Run(rt, actions[..|actions| - 1]);
      Extend(rt, before, log, actions[|actions| - 1])
  }

  function Extend(rt: Runtime, before: Runtime, log: seq<Event>, action: Action): (result: (Runtime, seq<Event>))
    requires Inv(before) && Journal(rt.registry, before.registry, log)
    ensures Inv(result.0)
    ensures Journal(rt.registry, result.0.registry, result.1)
  {
    hide Inv, Step;
    StepKeepsInv(before, action);
    StepIsTraced(before, action);
    OneEventPerStep(before, action);
    var (after, more) := Step(before, action);
    JournalExtends(rt.registry, before.registry, after.registry, log, more);
    (after, log + more)
  }

  lemma AdvanceEpochLeavesNothingLive(rt: Runtime, now: int)
    requires Inv(rt)
    ensures forall id :: !Step(rt, AdvanceEpoch(now)).0.registry.HasLive(id)
  {
    CancelEveryAdvances(rt.registry, "superseded_turn", now);
  }

  /**
   * Advancing the epoch closes every result that was still out: whatever is accepted afterwards
   * was registered afterwards.
   */
  lemma NothingCrossesAnEpoch(start: Runtime, now: int, actions: seq<Action>)
    requires Inv(start)
    ensures var swept := Step(start, AdvanceEpoch(now)).0;
            && Inv(swept)
            && var log := Run(swept, actions).1;
               forall j :: 0 <= j < |log| && log[j].Accepted? ==> exists i :: 0 <= i < j && log[i] == Registered(log[j].id)
  {
    hide Inv, Step;
    StepKeepsInv(start, AdvanceEpoch(now));
    AdvanceEpochLeavesNothingLive(start, now);
  }
}
