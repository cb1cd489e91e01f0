/** src/orchestrator/task_reducer.py and task_admission.py: the checks at both ends of a task. */
module TaskReduction {
  import opened Common
  import opened Sessions
  import opened TaskRegistryModel

  datatype TaskEffect = TaskEffect(effectType: string, payload: string)

  datatype TaskResult = TaskResult(
    taskId: TaskId, sessionId: SessionId, turnId: TurnId, snapshotRevision: int,
    effect: TaskEffect, epoch: int, segmentId: Option<SegmentId>)

  datatype ResultRejection =
    TaskNotFound | TaskCancelled | TaskSuperseded | DeadlineExceeded | AlreadyCompleted
    | ResultSessionMismatch | TurnMismatch | StaleResultRevision | StaleDataSnapshot

  /** What the synchronous persistence callback does: there is none, it succeeds, or it raises. */
  datatype Commit = NoCommit | Commits(data: DataSnapshot) | Raises

  datatype Reduction = ResultAccepted(record: TaskRecord, effect: TaskEffect) | ResultRejected(reason: ResultRejection) | CommitRaised

  /** `with_current_data_snapshot`: a caller that left the initial value gets the runtime's. */
  function WithCurrentData(q: TaskRequest, data: DataSnapshot): TaskRequest {
    if q.data == INITIAL_DATA then q.(data := data) else q
  }

  function SchedulingRejection(q: TaskRequest, snapshot: SessionSnapshot): Option<RegistrationRejection> {
    if q.sessionId != snapshot.sessionId then Some(WrongSession)
    else if Some(q.turnId) != snapshot.activeTurn then Some(ActiveTurnMismatch)
    else if q.snapshotRevision != snapshot.revision then Some(StaleSnapshot)
    else None
  }

  function LifecycleRejection(record: TaskRecord): Option<ResultRejection> {
    match record.state
    case Running => None
    case Superseded => Some(TaskSuperseded)
    case TimedOut => Some(DeadlineExceeded)
    case Succeeded => Some(AlreadyCompleted)
    case _ => Some(TaskCancelled)
  }

  function SnapshotRejection(record: TaskRecord, snapshot: SessionSnapshot, data: Option<DataSnapshot>): Option<ResultRejection> {
    var q := record.request;
    if snapshot.sessionId != q.sessionId then Some(ResultSessionMismatch)
    else if snapshot.revision != q.snapshotRevision then Some(StaleResultRevision)
    else if snapshot.activeTurn != Some(q.turnId) then Some(TurnMismatch)
    else if !q.DataIsCurrent(if data.Some? then data.value else INITIAL_DATA) then Some(StaleDataSnapshot)
    else None
  }

  function ResultMismatch(record: TaskRecord, result: TaskResult): Option<ResultRejection> {
    var q := record.request;
    if result.sessionId != q.sessionId then Some(ResultSessionMismatch)
    else if result.turnId != q.turnId then Some(TurnMismatch)
    else if result.snapshotRevision != q.snapshotRevision then Some(StaleResultRevision)
    else if result.epoch != q.epoch then Some(TaskCancelled)
    else if result.segmentId != q.segmentId then Some(TaskCancelled)
    else None
  }

  function Reduce(r: RegistryState, result: TaskResult, snapshot: SessionSnapshot, now: int,
                  data: Option<DataSnapshot>, commit: Commit): (RegistryState, Reduction)
  {
    if result.taskId !in r.records then (r, ResultRejected(TaskNotFound))
    else
      var record := r.records[result.taskId];
      if LifecycleRejection(record).Some? then (r, ResultRejected(LifecycleRejection(record).value))
      else if SnapshotRejection(record, snapshot, data).Some? then
        (r, ResultRejected(SnapshotRejection(record, snapshot, data).value))
      else if now > record.request.deadlineMs then (TimeOut(r, result.taskId, now), ResultRejected(DeadlineExceeded))
      else if ResultMismatch(record, result).Some? then (r, ResultRejected(ResultMismatch(record, result).value))
      else if commit.Raises? then (r, CommitRaised)
      else
        var r' := Complete(r, result.taskId, now);
        (r', ResultAccepted(r'.records[result.taskId], result.effect))
  }

  /**
   * The reducer is the caller `complete` needs: it only ever completes a running task, so no finished
   * record changes, and whatever it changes it changes to a success or a timeout.
   */
  lemma ReduceGuardsCompletion(r: RegistryState, result: TaskResult, snapshot: SessionSnapshot, now: int,
                               data: Option<DataSnapshot>, commit: Commit)
    requires r.Valid()
    ensures var (r', reduction) := Reduce(r, result, snapshot, now, data, commit);
            && r'.Valid() && Keeps(r, r', {result.taskId})
            && (reduction.ResultAccepted? ==>
                r.Has(result.taskId, Running) && r' == Complete(r, result.taskId, now)
                && reduction.record == r'.records[result.taskId] && reduction.effect == result.effect)
            && (reduction.ResultRejected? && r' != r ==>
                reduction.reason == DeadlineExceeded && r' == TimeOut(r, result.taskId, now))
            && (reduction.CommitRaised? ==> r' == r)
  {
    hide Reduce, Outcome, Keeps, RegistryState.Valid;
    ReduceCases(r, result, snapshot, now, data, commit);
    NothingChanges(r, result.taskId);
    if r.Has(result.taskId, Running) {
      OutcomeKeepsValid(r, result.taskId, Succeeded, None, None, now);
      OutcomeKeepsValid(r, result.taskId, TimedOut, None, None, now);
    }
  }

  lemma NothingChanges(r: RegistryState, id: TaskId)
    ensures Keeps(r, r, {id})
  {
  }

  lemma ReduceCases(r: RegistryState, result: TaskResult, snapshot: SessionSnapshot, now: int,
                    data: Option<DataSnapshot>, commit: Commit)
    ensures var (r', reduction) := Reduce(r, result, snapshot, now, data, commit);
            && (r' != r ==> r.Has(result.taskId, Running))
            && (r' == r || r' == TimeOut(r, result.taskId, now)
                || (r.Has(result.taskId, Running) && r' == Complete(r, result.taskId, now)))
            && (reduction.ResultAccepted? ==>
                r.Has(result.taskId, Running) && r' == Complete(r, result.taskId, now)
                && reduction.record == r'.records[result.taskId] && reduction.effect == result.effect)
            && (reduction.ResultRejected? && r' != r ==>
                reduction.reason == DeadlineExceeded && r' == TimeOut(r, result.taskId, now))
            && (reduction.CommitRaised? ==> r' == r)
  {
    hide SnapshotRejection, ResultMismatch, Outcome;
  }

  class TaskResultReducer {
    const registry: TaskRegistry

    constructor (registry: TaskRegistry)
      ensures this.registry == registry
    {
      this.registry := registry;
    }

    method ReduceResult(result: TaskResult, snapshot: SessionSnapshot, now: int, data: Option<DataSnapshot>, commit: Commit)
      returns (reduction: Reduction)
      requires registry.Model().Valid()
      modifies registry
      ensures (registry.Model(), reduction) == Reduce(old(registry.Model()), result, snapshot, now, data, commit)
      ensures registry.Model().Valid()
    {
      ReduceGuardsCompletion(registry.Model(), result, snapshot, now, data, commit);
      var record := registry.Task(result.taskId);
      if record.None? {
        return ResultRejected(TaskNotFound);
      }
      var rejection := LifecycleRejection(record.value);
      if rejection.Some? {
        return ResultRejected(rejection.value);
      }
      rejection := SnapshotRejection(record.value, snapshot, data);
      if rejection.Some? {
        return ResultRejected(rejection.value);
      }
      if now > record.value.request.deadlineMs {
        var _ := registry.TimeOutTask(result.taskId, now);
        return ResultRejected(DeadlineExceeded);
      }
      rejection := ResultMismatch(record.value, result);
      if rejection.Some? {
        return ResultRejected(rejection.value);
      }
      if commit.Raises? {
        return CommitRaised;
      }
      registry.CompleteTask(result.taskId, now);
      return ResultAccepted(registry.records[result.taskId], result.effect);
    }
  }
}
