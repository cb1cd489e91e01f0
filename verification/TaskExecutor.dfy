/** src/orchestrator/task_executor.py: one bounded queue per task kind, drained in priority order. */
module TaskExecutorModel {
  import opened Common
  import opened TaskRegistryModel

  const LANE_PRIORITY: seq<TaskKind> := [Reflex, Interactive, Deliberative, Maintenance]

  type Lanes = map<TaskKind, seq<TaskRequest>>

  ghost predicate Total(lanes: Lanes) {
    forall kind: TaskKind :: kind in lanes
  }

  function EmptyLanes(): Lanes {
    map[Reflex := [], Interactive := [], Deliberative := [], Maintenance := []]
  }

  lemma EmptyLanesAreTotal()
    ensures Total(EmptyLanes())
    ensures forall kind: TaskKind :: EmptyLanes()[kind] == []
  {
    forall kind: TaskKind ensures kind in EmptyLanes() && EmptyLanes()[kind] == [] {
      match kind
      case Reflex =>
      case Interactive =>
      case Deliberative =>
      case Maintenance =>
    }
  }

  /** Every queued record waits in the lane of its kind. */
  ghost predicate QueuedAreHeld(r: RegistryState, lanes: Lanes)
    requires Total(lanes)
  {
    forall id :: r.Has(id, Queued) ==> r.records[id].request in lanes[r.records[id].request.kind]
  }

  ghost predicate Bounded(lanes: Lanes, capacity: int)
    requires Total(lanes)
  {
    forall kind: TaskKind :: lanes[kind] == [] || |lanes[kind]| <= capacity
  }

  ghost predicate Coherent(r: RegistryState, lanes: Lanes, capacity: int) {
    r.Valid() && Total(lanes) && QueuedAreHeld(r, lanes) && Bounded(lanes, capacity)
  }

  function EnqueueIn(r: RegistryState, lanes: Lanes, capacity: int, q: TaskRequest): (RegistryState, Lanes, bool)
    requires Total(lanes)
  {
    if |lanes[q.kind]| >= capacity || !r.Has(q.taskId, Admitted) then (r, lanes, false)
    else (Enqueued(r, q.taskId), lanes[q.kind := lanes[q.kind] + [q]], true)
  }

  /** The position of the first entry carrying `id`, or the length of the lane. */
  function FirstWith(lane: seq<TaskRequest>, id: TaskId): (i: nat)
    ensures i <= |lane|
    ensures i < |lane| ==> lane[i].taskId == id
    ensures forall j :: 0 <= j < i ==> lane[j].taskId != id
  {
    if lane == [] || lane[0].taskId == id then 0 else 1 + FirstWith(lane[1..], id)
  }

  function Without(lane: seq<TaskRequest>, i: nat): seq<TaskRequest>
    requires i < |lane|
  {
    lane[..i] + lane[i + 1..]
  }

  function ClaimIn(r: RegistryState, lanes: Lanes, id: TaskId, kinds: seq<TaskKind>)
    : (RegistryState, Lanes, Option<TaskRequest>)
    requires Total(lanes)
  {
    if kinds == [] then (r, lanes, None)
    else
      var lane := lanes[kinds[0]];
      var i := FirstWith(lane, id);
      if i == |lane| then ClaimIn(r, lanes, id, kinds[1..])
      else (Claimed(r, id), lanes[kinds[0] := Without(lane, i)], if r.Has(id, Queued) then Some(lane[i]) else None)
  }

  function NextInLane(r: RegistryState, lane: seq<TaskRequest>, now: int)
    : (RegistryState, seq<TaskRequest>, Option<TaskRequest>)
    decreases |lane|
  {
    if lane == [] then (r, [], None)
    else if !r.Has(lane[0].taskId, Queued) then NextInLane(r, lane[1..], now)
    else if now > lane[0].deadlineMs then NextInLane(TimeOut(r, lane[0].taskId, now), lane[1..], now)
    else (Claimed(r, lane[0].taskId), lane[1..], Some(lane[0]))
  }

  function NextIn(r: RegistryState, lanes: Lanes, now: int, kinds: seq<TaskKind>)
    : (result: (RegistryState, Lanes, Option<TaskRequest>))
    requires Total(lanes)
    ensures Total(result.1)
    decreases |kinds|
  {
    if kinds == [] then (r, lanes, None)
    else
      var (r1, lane1, found) := NextInLane(r, lanes[kinds[0]], now);
      if found.Some? then (r1, lanes[kinds[0] := lane1], found)
      else NextIn(r1, lanes[kinds[0] := lane1], now, kinds[1..])
  }

  // ---------------------------------------------------------------------------------------------

  lemma EnqueueKeepsCoherent(r: RegistryState, lanes: Lanes, capacity: int, q: TaskRequest)
    requires Coherent(r, lanes, capacity)
    requires r.Has(q.taskId, Admitted) ==> r.records[q.taskId].request == q
    ensures var (r', lanes', done) := EnqueueIn(r, lanes, capacity, q);
            Coherent(r', lanes', capacity) && Keeps(r, r', {q.taskId})
  {
    var (r', lanes', done) := EnqueueIn(r, lanes, capacity, q);
    if done {
      OutcomeKeepsValid(r, q.taskId, Queued, r.records[q.taskId].cancellationReason, r.records[q.taskId].supersededBy, 0);
      assert r' == Put(r, q.taskId, r.records[q.taskId].(state := Queued));
    }
  }

  /** An update that queues nothing new may drop any entry whose own record is no longer queued. */
  lemma ForgettingKeepsHeld(r: RegistryState, r': RegistryState, lanes: Lanes, kind: TaskKind, lane': seq<TaskRequest>)
    requires Total(lanes) && QueuedAreHeld(r, lanes)
    requires forall id :: r'.Has(id, Queued) ==> r.Has(id, Queued) && r.records[id].request == r'.records[id].request
    requires forall q :: q in lanes[kind] && q !in lane' ==> !r'.Has(q.taskId, Queued)
    requires r.Indexed()
    ensures QueuedAreHeld(r', lanes[kind := lane'])
  {
    forall id | r'.Has(id, Queued)
      ensures r'.records[id].request in lanes[kind := lane'][r'.records[id].request.kind]
    {
      assert r.records[id].request.taskId == id;
    }
  }

  /** Tasks only move forward: nothing is queued, revived or rewritten, and no index changes. */
  ghost predicate Advances(r: RegistryState, r': RegistryState) {
    && r'.sessionId == r.sessionId && r'.config == r.config && r'.idempotency == r.idempotency
    && r'.records.Keys == r.records.Keys
    && r'.Stamped()
    && forall id :: id in r.records ==>
         && r'.records[id].request == r.records[id].request
         && (Terminal(r.records[id].state) ==> r'.records[id] == r.records[id])
         && (Live(r'.records[id].state) ==> Live(r.records[id].state))
         && (r'.records[id].state == Queued ==> r.records[id].state == Queued)
  }

  lemma AdvancesKeepsValid(r: RegistryState, r': RegistryState)
    requires r.Valid() && Advances(r, r')
    ensures r'.Valid() && Keeps(r, r', r.records.Keys)
  {
    ChildrenDependOnRequests(r, r');
  }

  lemma OutcomeAdvances(
    r: RegistryState, id: TaskId, state: TaskState, reason: Option<string>, replacement: Option<TaskId>, now: int)
    requires r.Stamped() && r.HasLive(id)
    requires Terminal(state) || (state == Running && r.Has(id, Queued))
    ensures Advances(r, Put(r, id, Outcome(r.records[id], state, reason, replacement, now)))
  {
  }

  lemma SettlingAdvances(r: RegistryState, id: TaskId, state: TaskState, now: int)
    requires r.Stamped() && r.Has(id, Queued) && (state == Running || state == TimedOut)
    ensures Advances(r, Put(r, id, Outcome(r.records[id], state, None, None, now)))
  {
    OutcomeAdvances(r, id, state, None, None, now);
  }

  lemma {:induction false} NextInLaneAdvances(r: RegistryState, lane: seq<TaskRequest>, now: int)
    requires r.Stamped()
    ensures Advances(r, NextInLane(r, lane, now).0)
    decreases |lane|
  {
    if lane != [] {
      var id := lane[0].taskId;
      if !r.Has(id, Queued) {
        NextInLaneAdvances(r, lane[1..], now);
      } else if now > lane[0].deadlineMs {
        SettlingAdvances(r, id, TimedOut, now);
        NextInLaneAdvances(TimeOut(r, id, now), lane[1..], now);
      } else {
        SettlingAdvances(r, id, Running, 0);
      }
    }
  }

  /** The lane keeps its tail; a task handed out is the last one taken off, still within its deadline. */
  lemma {:induction false} NextInLaneTakesAPrefix(r: RegistryState, lane: seq<TaskRequest>, now: int)
    ensures var (r', lane', found) := NextInLane(r, lane, now);
            && |lane'| <= |lane| && lane' == lane[|lane| - |lane'|..]
            && (found.None? ==> lane' == [])
            && (found.Some? ==>
                |lane'| < |lane| && found.value == lane[|lane| - |lane'| - 1] && now <= found.value.deadlineMs)
    decreases |lane|
  {
    if lane != [] {
      var r1 := if r.Has(lane[0].taskId, Queued) then TimeOut(r, lane[0].taskId, now) else r;
      NextInLaneTakesAPrefix(r1, lane[1..], now);
    }
  }

  lemma {:induction false} NextInLaneHandsOverOnce(r: RegistryState, lane: seq<TaskRequest>, now: int)
    requires r.Stamped()
    ensures var (r', lane', found) := NextInLane(r, lane, now);
            found.Some? ==> r.Has(found.value.taskId, Queued) && r'.Has(found.value.taskId, Running)
    decreases |lane|
  {
    if lane != [] {
      var id := lane[0].taskId;
      if !r.Has(id, Queued) {
        NextInLaneHandsOverOnce(r, lane[1..], now);
      } else if now > lane[0].deadlineMs {
        SettlingAdvances(r, id, TimedOut, now);
        NextInLaneHandsOverOnce(TimeOut(r, id, now), lane[1..], now);
      }
    }
  }

  /** Whatever comes off the lane is no longer queued. */
  lemma {:induction false} NextInLaneSettles(r: RegistryState, lane: seq<TaskRequest>, now: int, i: nat)
    requires r.Stamped()
    requires i < |lane| - |NextInLane(r, lane, now).1|
    ensures !NextInLane(r, lane, now).0.Has(lane[i].taskId, Queued)
    decreases |lane|
  {
    var id := lane[0].taskId;
    if !r.Has(id, Queued) || now > lane[0].deadlineMs {
      var r1 := if r.Has(id, Queued) then TimeOut(r, id, now) else r;
      if r.Has(id, Queued) {
        SettlingAdvances(r, id, TimedOut, now);
      }
      NextInLaneAdvances(r1, lane[1..], now);
      if i > 0 {
        NextInLaneSettles(r1, lane[1..], now, i - 1);
      }
    }
  }

  lemma NextInLaneKeepsHeld(r: RegistryState, lanes: Lanes, kind: TaskKind, now: int)
    requires r.Stamped() && r.Indexed() && Total(lanes) && QueuedAreHeld(r, lanes)
    ensures var (r', lane', found) := NextInLane(r, lanes[kind], now); QueuedAreHeld(r', lanes[kind := lane'])
  {
    var lane := lanes[kind];
    var (r', lane', found) := NextInLane(r, lane, now);
    NextInLaneAdvances(r, lane, now);
    NextInLaneTakesAPrefix(r, lane, now);
    var taken := lane[..|lane| - |lane'|];
    assert lane == taken + lane';
    forall q | q in lane && q !in lane' ensures !r'.Has(q.taskId, Queued) {
      var i :| 0 <= i < |taken| && taken[i] == q;
      NextInLaneSettles(r, lane, now, i);
    }
    ForgettingKeepsHeld(r, r', lanes, kind, lane');
  }

  lemma {:induction false} NextInAdvances(r: RegistryState, lanes: Lanes, now: int, kinds: seq<TaskKind>)
    requires r.Stamped() && Total(lanes)
    ensures Advances(r, NextIn(r, lanes, now, kinds).0)
    decreases |kinds|
  {
    if kinds != [] {
      var (r1, lane1, found) := NextInLane(r, lanes[kinds[0]], now);
      NextInLaneAdvances(r, lanes[kinds[0]], now);
      NextInAdvances(r1, lanes[kinds[0] := lane1], now, kinds[1..]);
    }
  }

  lemma {:induction false} NextKeepsHeld(r: RegistryState, lanes: Lanes, now: int, kinds: seq<TaskKind>)
    requires r.Stamped() && r.Indexed() && Total(lanes) && QueuedAreHeld(r, lanes)
    ensures var (r', lanes', found) := NextIn(r, lanes, now, kinds); Total(lanes') && QueuedAreHeld(r', lanes')
    decreases |kinds|
  {
    if kinds != [] {
      var (r1, lane1, found) := NextInLane(r, lanes[kinds[0]], now);
      NextInLaneAdvances(r, lanes[kinds[0]], now);
      NextInLaneKeepsHeld(r, lanes, kinds[0], now);
      NextKeepsHeld(r1, lanes[kinds[0] := lane1], now, kinds[1..]);
    }
  }

  /** A task is handed out only when every lane of higher priority has been drained. */
  lemma {:induction false} NextRespectsPriority(r: RegistryState, lanes: Lanes, now: int, kinds: seq<TaskKind>)
    requires r.Stamped() && Total(lanes)
    requires forall i, j :: 0 <= i < j < |kinds| ==> kinds[i] != kinds[j]
    ensures var (r', lanes', found) := NextIn(r, lanes, now, kinds);
            && (forall kind: TaskKind :: |lanes'[kind]| <= |lanes[kind]|)
            && (forall kind :: kind !in kinds ==> lanes'[kind] == lanes[kind])
            && (found.None? ==> forall kind :: kind in kinds ==> lanes'[kind] == [])
            && (found.Some? ==>
                && now <= found.value.deadlineMs
                && r.Has(found.value.taskId, Queued) && r'.Has(found.value.taskId, Running)
                && exists k :: 0 <= k < |kinds| && HandedOutFrom(lanes, lanes', kinds, k, found.value))
    decreases |kinds|
  {
    if kinds != [] {
      var kind := kinds[0];
      var (r1, lane1, found1) := NextInLane(r, lanes[kind], now);
      NextInLaneTakesAPrefix(r, lanes[kind], now);
      NextInLaneHandsOverOnce(r, lanes[kind], now);
      NextInLaneAdvances(r, lanes[kind], now);
      var lanes1 := lanes[kind := lane1];
      if found1.None? {
        NextRespectsPriority(r1, lanes1, now, kinds[1..]);
        var (r', lanes', found) := NextIn(r1, lanes1, now, kinds[1..]);
        if found.Some? {
          var k :| 0 <= k < |kinds[1..]| && HandedOutFrom(lanes1, lanes', kinds[1..], k, found.value);
          assert HandedOutFrom(lanes, lanes', kinds, k + 1, found.value);
        }
      } else {
        assert HandedOutFrom(lanes, lanes1, kinds, 0, found1.value);
      }
    }
  }

  ghost predicate HandedOutFrom(lanes: Lanes, lanes': Lanes, kinds: seq<TaskKind>, k: nat, q: TaskRequest)
    requires Total(lanes) && Total(lanes') && k < |kinds|
  {
    && q in lanes[kinds[k]]
    && (forall i :: 0 <= i < k ==> lanes'[kinds[i]] == [])
    && (forall i :: k < i < |kinds| ==> lanes'[kinds[i]] == lanes[kinds[i]])
  }

  lemma NextKeepsCoherent(r: RegistryState, lanes: Lanes, capacity: int, now: int)
    requires Coherent(r, lanes, capacity)
    ensures var (r', lanes', found) := NextIn(r, lanes, now, LANE_PRIORITY);
            Coherent(r', lanes', capacity) && Advances(r, r')
  {
    NextInAdvances(r, lanes, now, LANE_PRIORITY);
    AdvancesKeepsValid(r, NextIn(r, lanes, now, LANE_PRIORITY).0);
    NextKeepsHeld(r, lanes, now, LANE_PRIORITY);
    NextRespectsPriority(r, lanes, now, LANE_PRIORITY);
  }

  lemma {:induction false} ClaimAdvances(r: RegistryState, lanes: Lanes, id: TaskId, kinds: seq<TaskKind>)
    requires r.Stamped() && Total(lanes)
    ensures var (r', lanes', found) := ClaimIn(r, lanes, id, kinds);
            && Advances(r, r')
            && (found.Some? ==> found.value.taskId == id && r.Has(id, Queued) && r'.Has(id, Running))
            && (found.None? ==> r' == r)
  {
    if kinds != [] {
      if FirstWith(lanes[kinds[0]], id) == |lanes[kinds[0]]| {
        ClaimAdvances(r, lanes, id, kinds[1..]);
      } else if r.Has(id, Queued) {
        SettlingAdvances(r, id, Running, 0);
      }
    }
  }

  lemma {:induction false} ClaimKeepsHeld(r: RegistryState, lanes: Lanes, capacity: int, id: TaskId, kinds: seq<TaskKind>)
    requires r.Stamped() && r.Indexed() && Total(lanes) && QueuedAreHeld(r, lanes) && Bounded(lanes, capacity)
    ensures var (r', lanes', found) := ClaimIn(r, lanes, id, kinds);
            Total(lanes') && QueuedAreHeld(r', lanes') && Bounded(lanes', capacity)
  {
    if kinds != [] {
      var lane := lanes[kinds[0]];
      var i := FirstWith(lane, id);
      if i == |lane| {
        ClaimKeepsHeld(r, lanes, capacity, id, kinds[1..]);
      } else {
        assert lane == lane[..i] + [lane[i]] + lane[i + 1..];
        ForgettingKeepsHeld(r, Claimed(r, id), lanes, kinds[0], Without(lane, i));
      }
    }
  }

  lemma ClaimKeepsCoherent(r: RegistryState, lanes: Lanes, capacity: int, id: TaskId)
    requires Coherent(r, lanes, capacity)
    ensures var (r', lanes', found) := ClaimIn(r, lanes, id, LANE_PRIORITY);
            Coherent(r', lanes', capacity) && Advances(r, r')
  {
    ClaimAdvances(r, lanes, id, LANE_PRIORITY);
    AdvancesKeepsValid(r, ClaimIn(r, lanes, id, LANE_PRIORITY).0);
    ClaimKeepsHeld(r, lanes, capacity, id, LANE_PRIORITY);
  }

  class TaskLaneExecutor {
    const registry: TaskRegistry
    const maxPendingPerLane: int
    var pending: map<TaskKind, seq<TaskRequest>>

    ghost predicate Valid()
      reads this, registry
    {
      Coherent(registry.Model(), pending, maxPendingPerLane)
    }

    constructor (registry: TaskRegistry, maxPendingPerLane: int)
      requires registry.Model().Valid() && registry.records == map[]
      ensures this.registry == registry && this.maxPendingPerLane == maxPendingPerLane
      ensures pending == EmptyLanes() && Valid()
    {
      this.registry := registry;
      this.maxPendingPerLane := maxPendingPerLane;
      pending := map[Reflex := [], Interactive := [], Deliberative := [], Maintenance := []];
      EmptyLanesAreTotal();
    }

    method Enqueue(q: TaskRequest) returns (done: bool)
      requires Valid()
      requires registry.Model().Has(q.taskId, Admitted) ==> registry.records[q.taskId].request == q
      modifies this, registry
      ensures (registry.Model(), pending, done)
           == EnqueueIn(old(registry.Model()), old(pending), maxPendingPerLane, q)
      ensures Valid()
    {
      EnqueueKeepsCoherent(registry.Model(), pending, maxPendingPerLane, q);
      var lane := pending[q.kind];
      if |lane| >= maxPendingPerLane {
        return false;
      }
      var record := registry.Task(q.taskId);
      if record.None? || record.value.state != Admitted {
        return false;
      }
      var moved := registry.Enqueue(q.taskId);
      if !moved {
        return false;
      }
      pending := pending[q.kind := lane + [q]];
      return true;
    }

    method Claim(id: TaskId) returns (claimed: Option<TaskRequest>)
      requires Valid()
      modifies this, registry
      ensures (registry.Model(), pending, claimed) == ClaimIn(old(registry.Model()), old(pending), id, LANE_PRIORITY)
      ensures Valid()
    {
      ghost var r := registry.Model();
      ClaimKeepsCoherent(r, pending, maxPendingPerLane, id);
      var k := 0;
      while k < |LANE_PRIORITY|
        invariant k <= |LANE_PRIORITY| && registry.Model() == r && pending == old(pending) && Valid()
        invariant ClaimIn(r, pending, id, LANE_PRIORITY) == ClaimIn(r, pending, id, LANE_PRIORITY[k..])
      {
        var kind := LANE_PRIORITY[k];
        var lane := pending[kind];
        var i := 0;
        while i < |lane| && lane[i].taskId != id
          invariant i <= |lane| && forall j :: 0 <= j < i ==> lane[j].taskId != id
        {
          i := i + 1;
        }
        assert i == FirstWith(lane, id);
        if i < |lane| {
          pending := pending[kind := Without(lane, i)];
          var moved := registry.Claim(id);
          return if moved then Some(lane[i]) else None;
        }
        assert LANE_PRIORITY[k..][1..] == LANE_PRIORITY[k + 1..];
        k := k + 1;
      }
      return None;
    }

    /** Pops one lane until it hands out a task or runs dry. */
    method DrainLane(kind: TaskKind, now: int) returns (next: Option<TaskRequest>)
      requires Total(pending) && registry.Model().Valid()
      modifies this, registry
      ensures registry.Model().Valid()
      ensures var (r', lane', found) := NextInLane(old(registry.Model()), old(pending)[kind], now);
              registry.Model() == r' && pending == old(pending)[kind := lane'] && next == found
    {
      ghost var goal := NextInLane(registry.Model(), pending[kind], now);
      while pending[kind] != []
        invariant registry.Model().Valid() && kind in pending
        invariant pending == old(pending)[kind := pending[kind]]
        invariant goal == NextInLane(registry.Model(), pending[kind], now)
        decreases |pending[kind]|
      {
        var q := pending[kind][0];
        pending := pending[kind := pending[kind][1..]];
        next := Take(q, now);
        if next.Some? {
          return;
        }
      }
      return None;
    }

    /** One entry off a lane: it is skipped, timed out, or handed over. */
    method Take(q: TaskRequest, now: int) returns (next: Option<TaskRequest>)
      requires registry.Model().Valid()
      modifies registry
      ensures registry.Model().Valid()
      ensures var (r', lane', found) := NextInLane(old(registry.Model()), [q], now);
              registry.Model() == r' && next == found
    {
      var record := registry.Task(q.taskId);
      if record.None? || record.value.state != Queued {
        return None;
      }
      if now > q.deadlineMs {
        var _ := registry.TimeOutTask(q.taskId, now);
        return None;
      }
      var moved := registry.Claim(q.taskId);
      return if moved then Some(q) else None;
    }

    method Next(now: int) returns (next: Option<TaskRequest>)
      requires Valid()
      modifies this, registry
      ensures (registry.Model(), pending, next) == NextIn(old(registry.Model()), old(pending), now, LANE_PRIORITY)
      ensures Valid()
    {
      ghost var r0, lanes0 := registry.Model(), pending;
      NextKeepsCoherent(r0, lanes0, maxPendingPerLane, now);
      var k := 0;
      while k < |LANE_PRIORITY|
        invariant k <= |LANE_PRIORITY| && registry.Model().Valid() && Total(pending)
        invariant NextIn(r0, lanes0, now, LANE_PRIORITY) == NextIn(registry.Model(), pending, now, LANE_PRIORITY[k..])
      {
        assert LANE_PRIORITY[k..][1..] == LANE_PRIORITY[k + 1..];
        next := DrainLane(LANE_PRIORITY[k], now);
        if next.Some? {
          return;
        }
        k := k + 1;
      }
      return None;
    }
  }
}
