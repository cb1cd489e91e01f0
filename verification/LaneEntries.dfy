/**
 * src/orchestrator/task_executor.py under reuse of ids: a lane entry is matched with its record by the task
 * id alone, it stays behind when its record ends, and the id may be registered again after the tombstone.
 */
module LaneEntries {
  import opened Common
  import opened Sessions
  import opened TaskRegistryModel
  import opened TaskExecutorModel
  import opened TaskReduction
  import opened ResultFence

  /** All lanes behind each other, in the order `next` walks them. */
  function Line(lanes: Lanes, kinds: seq<TaskKind>): seq<TaskRequest>
    requires Total(lanes)
  {
    if kinds == [] then [] else lanes[kinds[0]] + Line(lanes, kinds[1..])
  }

  predicate Distinct(kinds: seq<TaskKind>) {
    forall i, j :: 0 <= i < j < |kinds| ==> kinds[i] != kinds[j]
  }

  lemma {:induction false} NextInLaneSplits(r: RegistryState, a: seq<TaskRequest>, b: seq<TaskRequest>, now: int)
    ensures var (r1, a1, found) := NextInLane(r, a, now);
            NextInLane(r, a + b, now) == if found.Some? then (r1, a1 + b, found) else NextInLane(r1, b, now)
    decreases |a|
  {
    if a == [] {
      assert a + b == b;
    } else {
      assert (a + b)[1..] == a[1..] + b;
      if !r.Has(a[0].taskId, Queued) {
        NextInLaneSplits(r, a[1..], b, now);
      } else if now > a[0].deadlineMs {
        NextInLaneSplits(TimeOut(r, a[0].taskId, now), a[1..], b, now);
      }
    }
  }

  /** `next` over all lanes does to the registry, hands out and leaves behind what one lane of all entries would. */
  lemma {:induction false} NextWalksOneLine(r: RegistryState, lanes: Lanes, now: int, kinds: seq<TaskKind>)
    requires Total(lanes) && Distinct(kinds)
    ensures var one, all := NextInLane(r, Line(lanes, kinds), now), NextIn(r, lanes, now, kinds);
            all.0 == one.0 && all.2 == one.2 && Line(all.1, kinds) == one.1
    decreases |kinds|
  {
    hide TimeOut;
    if kinds != [] {
      var kind := kinds[0];
      var (r1, lane1, found) := NextInLane(r, lanes[kind], now);
      NextInLaneSplits(r, lanes[kind], Line(lanes, kinds[1..]), now);
      LineApart(lanes, kinds[1..], kind, lane1);
      if found.None? {
        NextInLaneTakesAPrefix(r, lanes[kind], now);
        NextWalksOneLine(r1, lanes[kind := lane1], now, kinds[1..]);
        NextKeepsOthers(r1, lanes[kind := lane1], now, kinds[1..], kind);
      }
    }
  }

  lemma {:induction false} NextKeepsOthers(r: RegistryState, lanes: Lanes, now: int, kinds: seq<TaskKind>, kind: TaskKind)
    requires Total(lanes) && kind !in kinds
    ensures NextIn(r, lanes, now, kinds).1[kind] == lanes[kind]
    decreases |kinds|
  {
    if kinds != [] {
      var (r1, lane1, found) := NextInLane(r, lanes[kinds[0]], now);
      NextKeepsOthers(r1, lanes[kinds[0] := lane1], now, kinds[1..], kind);
    }
  }

  lemma {:induction false} LineApart(lanes: Lanes, kinds: seq<TaskKind>, kind: TaskKind, lane: seq<TaskRequest>)
    requires Total(lanes) && kind !in kinds
    ensures Line(lanes[kind := lane], kinds) == Line(lanes, kinds)
  {
    if kinds != [] {
      LineApart(lanes, kinds[1..], kind, lane);
    }
  }

  /** The entry `next` would hand out if nothing in front of it were: its id's first, queued and in time. */
  predicate Due(r: RegistryState, line: seq<TaskRequest>, now: int, j: nat)
    requires j < |line|
  {
    r.Has(line[j].taskId, Queued) && FirstWith(line, line[j].taskId) == j && now <= line[j].deadlineMs
  }

  predicate NoneDue(r: RegistryState, line: seq<TaskRequest>, now: int, before: nat)
    requires before <= |line|
  {
    forall j :: 0 <= j < before ==> !Due(r, line, now, j)
  }

  /** The registry behind the first entry, when that one is not handed out. */
  function Passed(r: RegistryState, first: TaskRequest, now: int): RegistryState {
    if r.Has(first.taskId, Queued) then TimeOut(r, first.taskId, now) else r
  }

  lemma PassingSettles(r: RegistryState, first: TaskRequest, now: int, id: TaskId)
    ensures Passed(r, first, now).Has(id, Queued) <==> r.Has(id, Queued) && id != first.taskId
    ensures id != first.taskId && id in r.records ==>
              id in Passed(r, first, now).records && Passed(r, first, now).records[id] == r.records[id]
    ensures r.Has(first.taskId, Queued) ==> Passed(r, first, now).Has(first.taskId, TimedOut)
  {
  }

  lemma DueShifts(r: RegistryState, line: seq<TaskRequest>, now: int, j: nat)
    requires j + 1 < |line|
    ensures Due(Passed(r, line[0], now), line[1..], now, j) <==> Due(r, line, now, j + 1)
  {
    PassingSettles(r, line[0], now, line[j + 1].taskId);
  }

  lemma NoneDueShifts(r: RegistryState, line: seq<TaskRequest>, now: int, before: nat)
    requires before + 1 <= |line| && !Due(r, line, now, 0)
    ensures NoneDue(Passed(r, line[0], now), line[1..], now, before) <==> NoneDue(r, line, now, before + 1)
  {
    hide Due, Passed;
    forall j: nat | j < before ensures Due(Passed(r, line[0], now), line[1..], now, j) <==> Due(r, line, now, j + 1) {
      DueShifts(r, line, now, j);
    }
    if NoneDue(Passed(r, line[0], now), line[1..], now, before) {
      forall j | 0 <= j < before + 1 ensures !Due(r, line, now, j) {
        assert j > 0 ==> !Due(Passed(r, line[0], now), line[1..], now, j - 1);
      }
    }
  }

  lemma FirstStep(r: RegistryState, line: seq<TaskRequest>, now: int)
    requires line != []
    ensures Due(r, line, now, 0) <==> r.Has(line[0].taskId, Queued) && now <= line[0].deadlineMs
    ensures Due(r, line, now, 0) ==> NextInLane(r, line, now) == (Claimed(r, line[0].taskId), line[1..], Some(line[0]))
    ensures !Due(r, line, now, 0) ==> NextInLane(r, line, now) == NextInLane(Passed(r, line[0], now), line[1..], now)
  {
  }

  /** Which entry is handed out, exactly: the first that is due. */
  lemma {:induction false} TheFirstDueIsHandedOut(r: RegistryState, line: seq<TaskRequest>, now: int, k: nat)
    requires k < |line|
    ensures NextInLane(r, line, now).2.Some? && |NextInLane(r, line, now).1| == |line| - k - 1
            <==> Due(r, line, now, k) && NoneDue(r, line, now, k)
    decreases |line|
  {
    hide NextInLane, Due, Passed;
    FirstStep(r, line, now);
    if Due(r, line, now, 0) {
      assert |line[1..]| == |line| - 1;
    } else if k > 0 {
      TheFirstDueIsHandedOut(Passed(r, line[0], now), line[1..], now, k - 1);
      DueShifts(r, line, now, k - 1);
      NoneDueShifts(r, line, now, k - 1);
    } else {
      assert |NextInLane(Passed(r, line[0], now), line[1..], now).1| <= |line| - 1 by {
        NextInLaneTakesAPrefix(Passed(r, line[0], now), line[1..], now);
      }
      NextInLaneTakesAPrefix(Passed(r, line[0], now), line[1..], now);
    }
  }

  /** A queued task is timed out exactly when its id's first entry is overdue and nothing in front of it is due. */
  lemma {:induction false} TimedOutByItsFirstEntry(r: RegistryState, line: seq<TaskRequest>, now: int, id: TaskId)
    requires r.Stamped() && r.Has(id, Queued)
    ensures var i := FirstWith(line, id);
            NextInLane(r, line, now).0.Has(id, TimedOut)
            <==> i < |line| && line[i].deadlineMs < now && NoneDue(r, line, now, i)
    decreases |line|
  {
    hide Due;
    if line != [] {
      FirstStep(r, line, now);
      var first, passed := line[0], Passed(r, line[0], now);
      PassingSettles(r, first, now, id);
      if !Due(r, line, now, 0) {
        if r.Has(first.taskId, Queued) {
          SettlingAdvances(r, first.taskId, TimedOut, now);
        }
        NextInLaneAdvances(passed, line[1..], now);
        if first.taskId != id {
          TimedOutByItsFirstEntry(passed, line[1..], now, id);
          NoneDueShifts(r, line, now, FirstWith(line[1..], id));
        }
      }
    }
  }

  /**
   * Over all lanes: `next` times a queued task out before its own deadline exactly when some lane entry of
   * an earlier namesake is the id's first, is overdue, and is reached.
   */
  lemma TimedOutEarlyExactly(r: RegistryState, lanes: Lanes, now: int, id: TaskId)
    requires r.Stamped() && Total(lanes) && r.Has(id, Queued) && now <= r.records[id].request.deadlineMs
    ensures var line := Line(lanes, LANE_PRIORITY);
            var i := FirstWith(line, id);
            NextIn(r, lanes, now, LANE_PRIORITY).0.Has(id, TimedOut)
            <==> i < |line| && line[i] != r.records[id].request && line[i].deadlineMs < now && NoneDue(r, line, now, i)
  {
    hide NextIn, NextInLane, Due, Line;
    NextWalksOneLine(r, lanes, now, LANE_PRIORITY);
    TimedOutByItsFirstEntry(r, Line(lanes, LANE_PRIORITY), now, id);
  }

  /** Over all lanes: what `next` hands out is not the record's own request exactly when the first entry due is not. */
  lemma ForeignRequestExactly(r: RegistryState, lanes: Lanes, now: int)
    requires r.Stamped() && Total(lanes)
    ensures var line, found := Line(lanes, LANE_PRIORITY), NextIn(r, lanes, now, LANE_PRIORITY).2;
            (found.Some? && r.Has(found.value.taskId, Queued) && r.records[found.value.taskId].request != found.value)
            <==> exists k: nat :: k < |line| && Due(r, line, now, k) && NoneDue(r, line, now, k)
                             && r.records[line[k].taskId].request != line[k]
  {
    hide NextIn, NextInLane, Line, NoneDue;
    var line := Line(lanes, LANE_PRIORITY);
    NextWalksOneLine(r, lanes, now, LANE_PRIORITY);
    NextInLaneTakesAPrefix(r, line, now);
    forall k: nat | k < |line|
      ensures NextInLane(r, line, now).2.Some? && |NextInLane(r, line, now).1| == |line| - k - 1
              <==> Due(r, line, now, k) && NoneDue(r, line, now, k) {
      TheFirstDueIsHandedOut(r, line, now, k);
    }
    if NextInLane(r, line, now).2.Some? {
      var k := |line| - |NextInLane(r, line, now).1| - 1;
      assert Due(r, line, now, k) && NoneDue(r, line, now, k);
    }
  }

  // ---------------------------------------------------------------------------------------------
  // Runs in which neither happens.

  /** Every waiting entry that still has a record is that record's own request. */
  ghost predicate LanesAreTrue(rt: Runtime)
    requires Total(rt.lanes)
  {
    forall kind: TaskKind, q :: q in rt.lanes[kind] && q.taskId in rt.registry.records ==>
      rt.registry.records[q.taskId].request == q
  }

  /** No lane entry of another request carries the id of `q`. */
  ghost predicate NoNamesake(lanes: Lanes, q: TaskRequest)
    requires Total(lanes)
  {
    forall kind: TaskKind, e :: e in lanes[kind] && e.taskId == q.taskId ==> e == q
  }

  /** The guard of a step: scheduling, if it queues at all, meets no namesake in the lanes. */
  ghost predicate Clean(rt: Runtime, action: Action)
    requires Inv(rt)
  {
    action.Schedule? && ScheduleStep(rt, action.request, action.now).2 ==>
      NoNamesake(rt.lanes, StampedRequest(rt, action.request))
  }

  ghost predicate Shrinks(lanes: Lanes, lanes': Lanes)
    requires Total(lanes) && Total(lanes')
  {
    forall kind: TaskKind, q :: q in lanes'[kind] ==> q in lanes[kind]
  }

  lemma ShrinkingStaysTrue(rt: Runtime, rt': Runtime)
    requires Total(rt.lanes) && Total(rt'.lanes) && LanesAreTrue(rt) && Shrinks(rt.lanes, rt'.lanes)
    requires forall id :: id in rt'.registry.records ==>
               id in rt.registry.records && rt'.registry.records[id].request == rt.registry.records[id].request
    ensures LanesAreTrue(rt')
  {
  }

  lemma {:induction false} ClaimShrinks(r: RegistryState, lanes: Lanes, id: TaskId, kinds: seq<TaskKind>)
    requires Total(lanes)
    ensures var lanes' := ClaimIn(r, lanes, id, kinds).1; Total(lanes') && Shrinks(lanes, lanes')
  {
    if kinds != [] {
      ClaimShrinks(r, lanes, id, kinds[1..]);
    }
  }

  lemma {:induction false} NextShrinks(r: RegistryState, lanes: Lanes, now: int, kinds: seq<TaskKind>)
    requires Total(lanes)
    ensures Shrinks(lanes, NextIn(r, lanes, now, kinds).1)
    decreases |kinds|
  {
    if kinds != [] {
      var (r1, lane1, found) := NextInLane(r, lanes[kinds[0]], now);
      NextInLaneTakesAPrefix(r, lanes[kinds[0]], now);
      NextShrinks(r1, lanes[kinds[0] := lane1], now, kinds[1..]);
    }
  }

  lemma OnlySchedulingRegisters(rt: Runtime, action: Action)
    requires Inv(rt) && !action.Schedule?
    ensures Total(Step(rt, action).0.lanes) && Shrinks(rt.lanes, Step(rt, action).0.lanes)
    ensures forall id :: Registered(id) !in Step(rt, action).1
  {
    hide ClaimIn, NextIn, Outcome, CancelEvery, Reduce;
    match action
    case ClaimTask(id) => ClaimShrinks(rt.registry, rt.lanes, id, LANE_PRIORITY);
    case NextTask(now) => NextShrinks(rt.registry, rt.lanes, now, LANE_PRIORITY);
    case _ =>
  }

  lemma OtherStepsStayTrue(rt: Runtime, action: Action)
    requires Inv(rt) && LanesAreTrue(rt) && !action.Schedule?
    ensures Inv(Step(rt, action).0) && LanesAreTrue(Step(rt, action).0)
  {
    hide Step, LanesAreTrue, Shrinks, Inv, EpochFenced;
    assert Total(rt.lanes) by { InvIsTotal(rt); }
    OnlySchedulingRegisters(rt, action);
    StepKeepsInv(rt, action);
    StepIsTraced(rt, action);
    ShrinkingStaysTrue(rt, Step(rt, action).0);
  }

  lemma InvIsTotal(rt: Runtime)
    requires Inv(rt)
    ensures Total(rt.lanes) && rt.registry.Valid()
  {
  }

  /** What the lanes and the registry are after scheduling. */
  lemma ScheduledLanes(rt: Runtime, q: TaskRequest, now: int)
    requires Inv(rt)
    ensures var r0, stamped := Drop(rt.registry, ExpiredIds(rt.registry, now)), StampedRequest(rt, q);
            var (rt', events, queued) := ScheduleStep(rt, q, now);
            && stamped.taskId == q.taskId
            && (queued ==> q.taskId !in r0.records && rt'.registry == Enqueued(Inserted(r0, stamped), q.taskId)
                           && rt'.lanes == rt.lanes[q.kind := rt.lanes[q.kind] + [stamped]])
            && (!queued ==> rt'.lanes == rt.lanes
                            && forall id :: id in rt'.registry.records ==> id in r0.records && rt'.registry.records[id] == r0.records[id])
  {
    hide Admit, Enqueued, Withdrawn;
    var r0, stamped := Drop(rt.registry, ExpiredIds(rt.registry, now)), StampedRequest(rt, q);
    DropKeepsValid(rt.registry, ExpiredIds(rt.registry, now));
    AdmissionInsertsOne(rt, r0, stamped);
    if q.taskId !in r0.records {
      WithdrawingLeavesOthers(r0, stamped);
    }
  }

  lemma AdmissionInsertsOne(rt: Runtime, r0: RegistryState, q: TaskRequest)
    requires r0.Valid()
    ensures var (r1, admission) := Admit(rt, r0, q);
            if admission.RegistrationAccepted? then q.taskId !in r0.records && r1 == Inserted(r0, q) else r1 == r0
  {
    hide SchedulingRejection, RegistrationRefusal;
    RegisterInsertsOne(r0, q);
  }

  lemma WithdrawingLeavesOthers(r: RegistryState, q: TaskRequest)
    requires q.taskId !in r.records
    ensures var r' := Withdrawn(Inserted(r, q), q.taskId);
            forall id :: id in r'.records ==> id in r.records && r'.records[id] == r.records[id]
  {
  }

  /** Scheduling keeps true lanes exactly when it is clean. */
  lemma SchedulingKeepsLanesTrue(rt: Runtime, q: TaskRequest, now: int)
    requires Inv(rt) && LanesAreTrue(rt)
    ensures Inv(ScheduleStep(rt, q, now).0)
    ensures LanesAreTrue(ScheduleStep(rt, q, now).0) <==> Clean(rt, Schedule(q, now))
  {
    hide ScheduleStep, Inv, NoNamesake;
    assert Total(rt.lanes) && rt.registry.Valid() by { InvIsTotal(rt); }
    ScheduleKeepsInv(rt, q, now);
    ScheduledLanes(rt, q, now);
    var r0, stamped := Drop(rt.registry, ExpiredIds(rt.registry, now)), StampedRequest(rt, q);
    var (rt', _, queued) := ScheduleStep(rt, q, now);
    assert Total(rt'.lanes) by { InvIsTotal(rt'); }
    if queued {
      QueueingKeepsLanesTrue(rt.(registry := r0), stamped, rt');
    } else {
      ShrinkingStaysTrue(rt, rt');
    }
  }

  lemma QueueingKeepsLanesTrue(rt: Runtime, q: TaskRequest, rt': Runtime)
    requires Total(rt.lanes) && LanesAreTrue(rt) && q.taskId !in rt.registry.records
    requires rt'.registry == Enqueued(Inserted(rt.registry, q), q.taskId)
    requires rt'.lanes == rt.lanes[q.kind := rt.lanes[q.kind] + [q]]
    ensures LanesAreTrue(rt') <==> NoNamesake(rt.lanes, q)
  {
    if LanesAreTrue(rt') {
      forall kind: TaskKind, e | e in rt.lanes[kind] && e.taskId == q.taskId ensures e == q {
        assert e in rt'.lanes[kind];
      }
    }
  }

  /** A step keeps true lanes exactly when it is clean. */
  lemma StepKeepsLanesTrue(rt: Runtime, action: Action)
    requires Inv(rt) && LanesAreTrue(rt)
    ensures Inv(Step(rt, action).0)
    ensures LanesAreTrue(Step(rt, action).0) <==> Clean(rt, action)
  {
    hide Inv, LanesAreTrue, NoNamesake, ScheduleStep;
    if action.Schedule? {
      SchedulingKeepsLanesTrue(rt, action.request, action.now);
    } else {
      OtherStepsStayTrue(rt, action);
    }
  }

  ghost predicate CleanRun(rt: Runtime, actions: seq<Action>)
    requires Inv(rt)
  {
    forall i :: 0 <= i < |actions| ==> Clean(Run(rt, actions[..i]).0, actions[i])
  }

  ghost predicate TrueThroughout(rt: Runtime, actions: seq<Action>)
    requires Inv(rt)
  {
    forall i :: 0 <= i <= |actions| ==> LanesAreTrue(Run(rt, actions[..i]).0)
  }

  lemma RunOneMore(rt: Runtime, actions: seq<Action>, action: Action)
    requires Inv(rt)
    ensures Run(rt, actions + [action]).0 == Step(Run(rt, actions).0, action).0
  {
    assert (actions + [action])[..|actions|] == actions;
  }

  /** From true lanes, the lanes are true throughout a run exactly when every step of it is clean. */
  lemma {:induction false} LanesAreTrueInCleanRuns(rt: Runtime, actions: seq<Action>)
    requires Inv(rt) && LanesAreTrue(rt)
    ensures TrueThroughout(rt, actions) <==> CleanRun(rt, actions)
    decreases |actions|
  {
    hide Inv, LanesAreTrue, CleanRun, TrueThroughout, Step, Run, Clean;
    if actions == [] {
      NothingDone(rt);
    } else {
      var front, last := actions[..|actions| - 1], actions[|actions| - 1];
      LanesAreTrueInCleanRuns(rt, front);
      LastStep(rt, actions);
      assert actions == front + [last];
      RunOneMore(rt, front, last);
      TrueAtTheEnd(rt, front);
      if TrueThroughout(rt, front) {
        StepKeepsLanesTrue(Run(rt, front).0, last);
      }
    }
  }

  lemma NothingDone(rt: Runtime)
    requires Inv(rt) && LanesAreTrue(rt)
    ensures TrueThroughout(rt, []) && CleanRun(rt, [])
  {
    hide Inv, LanesAreTrue;
  }

  lemma TrueAtTheEnd(rt: Runtime, actions: seq<Action>)
    requires Inv(rt)
    ensures TrueThroughout(rt, actions) ==> LanesAreTrue(Run(rt, actions).0)
  {
    hide Inv, LanesAreTrue, Run;
    assert actions[..|actions|] == actions;
  }

  lemma LastStep(rt: Runtime, actions: seq<Action>)
    requires Inv(rt) && actions != []
    ensures var front, last := actions[..|actions| - 1], actions[|actions| - 1];
            && (TrueThroughout(rt, actions) <==> TrueThroughout(rt, front) && LanesAreTrue(Run(rt, actions).0))
            && (CleanRun(rt, actions) <==> CleanRun(rt, front) && Clean(Run(rt, front).0, last))
  {
    hide Inv, LanesAreTrue, Run, Clean;
    var n := |actions| - 1;
    var front := actions[..n];
    forall i | 0 <= i <= n ensures actions[..i] == front[..i] { }
    assert actions[..n + 1] == actions;
  }

  /**
   * So after every clean run `next` hands out the record's own request, and times out no task whose own
   * deadline is still ahead.
   */
  lemma NextIsTrueAfterCleanRuns(rt: Runtime, actions: seq<Action>, now: int)
    requires Inv(rt) && LanesAreTrue(rt) && CleanRun(rt, actions)
    ensures var before := Run(rt, actions).0;
            var (r', lanes', found) := NextIn(before.registry, before.lanes, now, LANE_PRIORITY);
            && (found.Some? ==> before.registry.Has(found.value.taskId, Queued)
                                && before.registry.records[found.value.taskId].request == found.value)
            && (forall id :: before.registry.Has(id, Queued) && now <= before.registry.records[id].request.deadlineMs ==>
                  !r'.Has(id, TimedOut))
  {
    hide CleanRun, NextIn, Run, TrueThroughout, Inv, Line;
    LanesAreTrueInCleanRuns(rt, actions);
    var before := Run(rt, actions).0;
    TrueAtTheEnd(rt, actions);
    InvIsTotal(before);
    var r, lanes := before.registry, before.lanes;
    NextRespectsPriority(r, lanes, now, LANE_PRIORITY);
    forall id | r.Has(id, Queued) && now <= r.records[id].request.deadlineMs
      ensures !NextIn(r, lanes, now, LANE_PRIORITY).0.Has(id, TimedOut) {
      TimedOutEarlyExactly(r, lanes, now, id);
      LineIsTrue(before, LANE_PRIORITY, id);
    }
  }

  lemma {:induction false} LineIsTrue(rt: Runtime, kinds: seq<TaskKind>, id: TaskId)
    requires Total(rt.lanes) && LanesAreTrue(rt) && id in rt.registry.records
    ensures forall q <- Line(rt.lanes, kinds) :: q.taskId == id ==> q == rt.registry.records[id].request
  {
    if kinds != [] {
      LineIsTrue(rt, kinds[1..], id);
    }
  }

  lemma EmptyLanesAreTrue(sessionId: SessionId, prefix: string, config: Config, capabilities: set<Capability>, capacity: int)
    requires config.tombstoneTtlMs > 0
    ensures var rt := InitialRuntime(sessionId, prefix, config, capabilities, capacity); Inv(rt) && LanesAreTrue(rt)
  {
    InitialInv(sessionId, prefix, config, capabilities, capacity);
    EmptyLanesAreTotal();
  }

  // ---------------------------------------------------------------------------------------------
  // A run in which it happens.

  /** What the runtime asks of a first request of its first turn. */
  predicate Fits(rt: Runtime, q: TaskRequest) {
    && q.sessionId == rt.registry.sessionId == rt.scheduler.snapshot.sessionId
    && rt.scheduler.snapshot.activeTurn == Some(q.turnId) && q.snapshotRevision == rt.scheduler.snapshot.revision
    && q.data == INITIAL_DATA && q.parent == None
    && q.kind in rt.registry.config.allowedKinds && q.retryAttempt <= rt.registry.config.maxRetries
  }

  function Alone(r: RegistryState, q: TaskRequest, state: TaskState): RegistryState {
    r.(records := map[q.taskId := TaskRecord(q, state, None, None, None)], idempotency := map[q.key := q.taskId])
  }

  /** Scheduling onto a registry whose records have all expired leaves the one new task. */
  lemma ScheduledAlone(rt: Runtime, q: TaskRequest, now: int)
    requires Inv(rt) && Fits(rt, q) && ExpiredIds(rt.registry, now) == rt.registry.records.Keys
    requires |rt.lanes[q.kind]| < rt.capacity
    ensures var stamped := StampedRequest(rt, q);
            && stamped == q.(data := rt.data, epoch := rt.epoch, capabilities := rt.capabilities)
            && ScheduleStep(rt, q, now).0
               == rt.(registry := Alone(rt.registry, stamped, Queued), lanes := rt.lanes[q.kind := rt.lanes[q.kind] + [stamped]])
  {
    var r0, stamped := Drop(rt.registry, ExpiredIds(rt.registry, now)), StampedRequest(rt, q);
    assert r0.records == map[];
    assert r0.idempotency == map[] by {
      forall key | key in rt.registry.idempotency ensures key in KeysOf(rt.registry, rt.registry.records.Keys) {
        assert rt.registry.idempotency[key] in rt.registry.records;
      }
    }
    assert Register(r0, stamped).0 == Alone(rt.registry, stamped, Admitted);
    assert Enqueued(Alone(rt.registry, stamped, Admitted), q.taskId) == Alone(rt.registry, stamped, Queued);
  }

  lemma {:induction false} OneLaneIsTheLine(lanes: Lanes, kinds: seq<TaskKind>, kind: TaskKind)
    requires Total(lanes) && Distinct(kinds) && forall other: TaskKind :: other != kind ==> lanes[other] == []
    ensures Line(lanes, kinds) == if kind in kinds then lanes[kind] else []
  {
    if kinds != [] {
      OneLaneIsTheLine(lanes, kinds[1..], kind);
      assert kind in kinds <==> kinds[0] == kind || kind in kinds[1..];
      if kinds[0] == kind {
        assert kind !in kinds[1..];
      }
    }
  }

  /** Five calls on a new runtime: the second task of the same id has time left, and the first one's entry times it out. */
  function Reuse(event: SchedulerEvent, q: TaskRequest, second: TaskRequest, reason: string, at: int, again: int, now: int): seq<Action> {
    [Start(0, event), Schedule(q, at), CancelTask(q.taskId, reason, at), Schedule(second, again), NextTask(now)]
  }

  /** The state in which the second task waits behind the first one's entry. */
  ghost predicate Waiting(rt: Runtime, first: TaskRequest, second: TaskRequest) {
    && rt.registry.records == map[second.taskId := TaskRecord(second, Queued, None, None, None)]
    && Total(rt.lanes) && rt.lanes[second.kind] == [first, second]
    && forall other: TaskKind :: other != second.kind ==> rt.lanes[other] == []
  }

  lemma WaitingTimesOut(rt: Runtime, first: TaskRequest, second: TaskRequest, now: int)
    requires Waiting(rt, first, second) && first.taskId == second.taskId && first.deadlineMs < now <= second.deadlineMs
    ensures NextIn(rt.registry, rt.lanes, now, LANE_PRIORITY).0.Has(second.taskId, TimedOut)
  {
    hide NextIn;
    AllKinds(second.kind);
    OneLaneIsTheLine(rt.lanes, LANE_PRIORITY, second.kind);
    TimedOutEarlyExactly(rt.registry, rt.lanes, now, second.taskId);
    assert Line(rt.lanes, LANE_PRIORITY)[0] == first;
  }

  lemma AllKinds(kind: TaskKind)
    ensures kind in LANE_PRIORITY && Distinct(LANE_PRIORITY)
  {
    match kind
    case Reflex => assert LANE_PRIORITY[0] == kind;
    case Interactive => assert LANE_PRIORITY[1] == kind;
    case Deliberative => assert LANE_PRIORITY[2] == kind;
    case Maintenance => assert LANE_PRIORITY[3] == kind;
  }

  lemma ReuseWaits(rt: Runtime, q: TaskRequest, second: TaskRequest, reason: string, at: int, again: int)
    requires Inv(rt) && Fits(rt, q) && Fits(rt, second) && second.taskId == q.taskId && second.kind == q.kind
    requires rt.registry.records == map[] && rt.lanes == EmptyLanes() && rt.capacity == 4
    requires again - at >= rt.registry.config.tombstoneTtlMs
    ensures var rt2 := Step(rt, Schedule(q, at)).0;
            && Inv(rt2)
            && var rt3 := Step(rt2, CancelTask(q.taskId, reason, at)).0;
               && Inv(rt3)
               && Waiting(Step(rt3, Schedule(second, again)).0, StampedRequest(rt, q), StampedRequest(rt, second))
  {
    hide ScheduleStep, Inv;
    EmptyLanesAreTotal();
    ScheduledAlone(rt, q, at);
    StepKeepsInv(rt, Schedule(q, at));
    var rt2 := Step(rt, Schedule(q, at)).0;
    StepKeepsInv(rt2, CancelTask(q.taskId, reason, at));
    var rt3 := Step(rt2, CancelTask(q.taskId, reason, at)).0;
    assert ExpiredIds(rt3.registry, again) == rt3.registry.records.Keys;
    ScheduledAlone(rt3, second, again);
  }

  /**
   * The reuse is reachable: from a new runtime, any two requests that share an id and differ in their
   * deadline, the second scheduled when the tombstone of the first has run out.
   */
  lemma AStaleEntryTimesOutItsNamesake(
    sessionId: SessionId, prefix: string, config: Config, capabilities: set<Capability>, event: SchedulerEvent,
    q: TaskRequest, later: int, reason: string, at: int, again: int, now: int)
    requires config.tombstoneTtlMs > 0 && q.kind in config.allowedKinds && q.retryAttempt <= config.maxRetries
    requires q.sessionId == event.correlation.sessionId == sessionId && q.turnId == TurnId(prefix, 1)
    requires q.snapshotRevision == 1 && q.data == INITIAL_DATA && q.parent == None
    requires q.deadlineMs < now <= later && again - at >= config.tombstoneTtlMs
    ensures var rt := InitialRuntime(sessionId, prefix, config, capabilities, 4);
            && Inv(rt)
            && var calls := Reuse(event, q, q.(deadlineMs := later), reason, at, again, now);
               var before, after := Run(rt, calls[..4]).0.registry, Run(rt, calls).0.registry;
               && before.Has(q.taskId, Queued) && now <= before.records[q.taskId].request.deadlineMs
               && after.Has(q.taskId, TimedOut)
  {
    hide Inv, Step, NextIn;
    InitialInv(sessionId, prefix, config, capabilities, 4);
    var rt, second := InitialRuntime(sessionId, prefix, config, capabilities, 4), q.(deadlineMs := later);
    var calls := Reuse(event, q, second, reason, at, again, now);
    var rt1 := Step(rt, Start(0, event)).0;
    StepKeepsInv(rt, Start(0, event));
    FirstTurn(rt, event);
    ReuseWaits(rt1, q, second, reason, at, again);
    RunOfFive(rt, calls);
    WaitingTimesOut(Run(rt, calls[..4]).0, StampedRequest(rt1, q), StampedRequest(rt1, second), now);
    NextStep(Run(rt, calls[..4]).0, now);
  }

  lemma FirstTurn(rt: Runtime, event: SchedulerEvent)
    requires Inv(rt) && rt.scheduler.snapshot.revision == 0 && event.correlation.sessionId == rt.scheduler.snapshot.sessionId
    requires rt.scheduler.turnSequence == 0
    ensures var rt1 := Step(rt, Start(0, event)).0;
            && rt1 == rt.(scheduler := rt1.scheduler)
            && rt1.scheduler.snapshot == SessionSnapshot(rt.scheduler.snapshot.sessionId, 1, Some(TurnId(rt.scheduler.prefix, 1)))
  {
  }

  lemma NextStep(rt: Runtime, now: int)
    requires Inv(rt)
    ensures Step(rt, NextTask(now)).0.registry == NextIn(rt.registry, rt.lanes, now, LANE_PRIORITY).0
  {
    hide NextIn;
  }

  lemma RunOfFive(rt: Runtime, calls: seq<Action>)
    requires Inv(rt) && |calls| == 5
    ensures var a := Step(rt, calls[0]).0;
            && Inv(a)
            && var b := Step(a, calls[1]).0;
               && Inv(b)
               && var c := Step(b, calls[2]).0;
                  && Inv(c)
                  && Run(rt, calls[..4]).0 == Step(c, calls[3]).0
                  && Run(rt, calls).0 == Step(Run(rt, calls[..4]).0, calls[4]).0
  {
    hide Inv, Step, Run;
    assert Run(rt, []).0 == rt by { NoCalls(rt); }
    RunOneMore(rt, [], calls[0]);
    assert [] + [calls[0]] == calls[..1];
    RunOneMore(rt, calls[..1], calls[1]);
    assert calls[..1] + [calls[1]] == calls[..2];
    RunOneMore(rt, calls[..2], calls[2]);
    assert calls[..2] + [calls[2]] == calls[..3];
    RunOneMore(rt, calls[..3], calls[3]);
    assert calls[..3] + [calls[3]] == calls[..4];
    RunOneMore(rt, calls[..4], calls[4]);
    assert calls[..4] + [calls[4]] == calls;
  }

  lemma NoCalls(rt: Runtime)
    requires Inv(rt)
    ensures Run(rt, []).0 == rt
  {
  }
}
