/** src/orchestrator/scheduler_runtime.py: the object whose methods are the steps of module ResultFence. */
module SessionRuntimes {
  import opened Common
  import opened Sessions
  import opened TaskRegistryModel
  import opened TaskExecutorModel
  import opened TaskReduction
  import opened ResultFence
  import RuntimeEffects
  import TurnCoordination

  class SessionRuntime {
    const scheduler: SessionScheduler
    const taskRegistry: TaskRegistry
    const taskReducer: TaskResultReducer
    const executor: TaskLaneExecutor
    const turnCoordinator: TurnCoordination.TurnCoordinator
    var cancellationEpoch: int
    var agentCapabilities: set<Capability>
    var dataSnapshot: DataSnapshot

    ghost function Model(): Runtime
      reads this, scheduler, taskRegistry, executor
    {
      Runtime(scheduler.Model(), cancellationEpoch, agentCapabilities, dataSnapshot,
              taskRegistry.Model(), executor.pending, executor.maxPendingPerLane)
    }

    ghost predicate Valid()
      reads this, scheduler, taskRegistry, executor, turnCoordinator
    {
      && turnCoordinator.Valid()
      && executor.registry == taskRegistry && taskReducer.registry == taskRegistry
      && Inv(Model())
    }

    constructor (sessionId: SessionId, turnIdPrefix: string, config: Config, capabilities: set<Capability>)
      requires config.tombstoneTtlMs > 0
      ensures Valid() && Model() == InitialRuntime(sessionId, turnIdPrefix, config, capabilities, 4)
      ensures fresh(scheduler) && fresh(taskRegistry) && fresh(executor)
    {
      InitialInv(sessionId, turnIdPrefix, config, capabilities, 4);
      scheduler := new SessionScheduler(sessionId, turnIdPrefix);
      var registry := new TaskRegistry(sessionId, config);
      taskRegistry := registry;
      taskReducer := new TaskResultReducer(registry);
      executor := new TaskLaneExecutor(registry, 4);
      turnCoordinator := new TurnCoordination.TurnCoordinator();
      cancellationEpoch := 0;
      agentCapabilities := capabilities;
      dataSnapshot := INITIAL_DATA;
    }

    /**
     * Fences and cancels unfinished work before a newer turn can run: no task stays live, and the coordinator
     * is left with no unfinished turn of the epoch that ends.
     */
    method AdvanceTurnEpoch(now: int) returns (cancelled: set<TaskId>)
      requires Valid()
      modifies this`cancellationEpoch, taskRegistry, turnCoordinator
      ensures turnCoordinator.state.turn.Some? && turnCoordinator.state.epoch == old(cancellationEpoch) ==>
                turnCoordinator.state.phase !in TurnCoordination.UNFINISHED
      ensures turnCoordinator.state == old(turnCoordinator.state) || turnCoordinator.state.phase == TurnCoordination.Cancelled
      ensures Valid() && Model() == Step(old(Model()), AdvanceEpoch(now)).0
      ensures forall id :: id in taskRegistry.records ==> !Live(taskRegistry.records[id].state)
    {
      hide Outcome, CancelEvery, Step;
      ghost var before := Model();
      AdvancingIsASweep(before, now);
      StepKeepsInv(before, AdvanceEpoch(now));
      AdvanceEpochLeavesNothingLive(before, now);
      EndUnfinishedTurn();
      cancellationEpoch := cancellationEpoch + 1;
      cancelled := taskRegistry.CancelPending("superseded_turn", now);
      assert Model() == Step(before, AdvanceEpoch(now)).0;
      forall id | id in taskRegistry.records ensures !Live(taskRegistry.records[id].state) {
        assert !Model().registry.HasLive(id);
      }
    }

    /** The first step of `_advance_turn_epoch`. */
    method EndUnfinishedTurn()
      requires turnCoordinator.Valid()
      modifies turnCoordinator
      ensures turnCoordinator.Valid()
      ensures turnCoordinator.state.turn.Some? && turnCoordinator.state.epoch == cancellationEpoch ==>
                turnCoordinator.state.phase !in TurnCoordination.UNFINISHED
      ensures turnCoordinator.state == old(turnCoordinator.state) || turnCoordinator.state.phase == TurnCoordination.Cancelled
    {
      var state := turnCoordinator.state;
      if state.turn.Some? && state.epoch == cancellationEpoch
         && state.phase !in {TurnCoordination.Idle, TurnCoordination.Playing, TurnCoordination.Completed} {
        var _ := turnCoordinator.CancelTurn(state.turn.value, state.epoch);
      }
    }

    method AdmitTask(q: TaskRequest, now: int) returns (admission: Registration)
      requires Valid()
      modifies taskRegistry
      ensures taskRegistry.Model().Valid()
      ensures var r0 := Drop(old(Model()).registry, ExpiredIds(old(Model()).registry, now));
              r0.Valid() && (taskRegistry.Model(), admission) == Admit(old(Model()), r0, q)
    {
      DropKeepsValid(taskRegistry.Model(), ExpiredIds(taskRegistry.Model(), now));
      var _ := taskRegistry.ExpireTerminalTombstones(now);
      if q.epoch != cancellationEpoch {
        return RegistrationRejected(StaleSnapshot);
      }
      var rejection := SchedulingRejection(q, scheduler.snapshot);
      if rejection.Some? {
        return RegistrationRejected(rejection.value);
      }
      if q.data != dataSnapshot {
        return RegistrationRejected(StaleSnapshot);
      }
      admission := taskRegistry.RegisterTask(q);
    }

    method ScheduleTask(q: TaskRequest, now: int) returns (accepted: bool)
      requires Valid()
      modifies taskRegistry, executor
      ensures Valid() && Model() == ScheduleStep(old(Model()), q, now).0
      ensures accepted == ScheduleStep(old(Model()), q, now).2
      ensures accepted <==> RuntimeEffects.Schedulable(old(Model()), q, now)
    {
      ghost var before := Model();
      RuntimeEffects.SchedulesExactly(before, q, now);
      hide RuntimeEffects.Schedulable;
      hide Inv, Withdrawn, TurnCoordination.Balanced;
      ScheduleKeepsInv(before, q, now);
      ScheduleAdmits(before, q, now);
      var stamped := WithCurrentData(q, dataSnapshot).(epoch := cancellationEpoch, capabilities := agentCapabilities);
      var admission := AdmitTask(stamped, now);
      if !admission.RegistrationAccepted? {
        return false;
      }
      accepted := executor.Enqueue(stamped);
      if !accepted {
        var _ := taskRegistry.Withdraw(stamped.taskId);
      }
    }

    method NextTask(now: int) returns (next: Option<TaskRequest>)
      requires Valid()
      modifies taskRegistry, executor
      ensures Valid() && Model() == Step(old(Model()), Action.NextTask(now)).0
      ensures next == NextIn(old(Model()).registry, old(Model()).lanes, now, LANE_PRIORITY).2
    {
      NextKeepsInv(Model(), now);
      next := executor.Next(now);
    }

    method ReduceTask(result: TaskResult, now: int, commit: Commit) returns (accepted: bool)
      requires Valid()
      modifies this`dataSnapshot, taskRegistry
      ensures Valid() && Model() == ReduceStep(old(Model()), result, now, commit).0
      ensures accepted <==> FenceOpen(old(Model()), result, now) && !commit.Raises?
    {
      hide Outcome, FenceOpen, SnapshotRejection, ResultMismatch, LifecycleRejection, Complete, TimeOut, EpochFenced, QueuedAreHeld;
      hide TurnCoordination.Balanced;
      ReduceKeepsInv(Model(), result, now, commit);
      var record := taskRegistry.Task(result.taskId);
      if record.Some? && !(record.value.request.capabilities <= agentCapabilities) {
        var _ := taskRegistry.Cancel(result.taskId, "capability_revoked", now);
        return false;
      }
      var reduction := taskReducer.ReduceResult(result, scheduler.snapshot, now, Some(dataSnapshot), commit);
      accepted := reduction.ResultAccepted?;
      if accepted && commit.Commits? {
        dataSnapshot := commit.data;
      }
    }

    method CancelTask(id: TaskId, now: int) returns (cancelled: bool)
      requires Valid()
      modifies taskRegistry
      ensures Valid() && Model() == Step(old(Model()), Action.CancelTask(id, "cancelled", now)).0
      ensures cancelled == old(Model()).registry.HasLive(id)
    {
      CancelKeepsInv(Model(), id, "cancelled", now);
      cancelled := taskRegistry.Cancel(id, "cancelled", now);
    }

    method EndSession(now: int)
      requires Valid()
      modifies taskRegistry
      ensures Valid() && Model() == Step(old(Model()), Action.EndSession(now)).0
    {
      hide Step, Outcome;
      ghost var before := Model();
      EndingIsASweep(before, now);
      EndSessionKeepsInv(before, now);
      var _ := taskRegistry.CancelPending("session_ended", now);
      var _ := taskRegistry.ClearTerminalTombstones();
    }
  }

  lemma AdvancingIsASweep(rt: Runtime, now: int)
    requires Inv(rt)
    ensures Step(rt, AdvanceEpoch(now)).0
         == rt.(epoch := rt.epoch + 1, registry := CancelEvery(rt.registry, "superseded_turn", now))
  {
  }

  lemma EndingIsASweep(rt: Runtime, now: int)
    requires Inv(rt)
    ensures var r1 := CancelEvery(rt.registry, "session_ended", now);
            Step(rt, Action.EndSession(now)).0 == rt.(registry := Drop(r1, TerminalIds(r1)))
  {
  }

  /** What `schedule_task` knows once its request is admitted: the record is new, admitted, and its own. */
  lemma ScheduleAdmits(rt: Runtime, q: TaskRequest, now: int)
    requires Inv(rt)
    ensures var stamped := StampedRequest(rt, q);
            var r0 := Drop(rt.registry, ExpiredIds(rt.registry, now));
            && r0.Valid()
            && var (r1, admission) := Admit(rt, r0, stamped);
               && r1.Valid()
               && (admission.RegistrationAccepted? ==>
                   && Coherent(r1, rt.lanes, rt.capacity)
                   && r1.Has(q.taskId, Admitted) && r1.records[q.taskId].request == stamped)
  {
    hide Admit;
    ExpiringKeepsInv(rt, now);
    AdmittingKeepsCoherent(rt, Drop(rt.registry, ExpiredIds(rt.registry, now)), StampedRequest(rt, q));
  }
}
