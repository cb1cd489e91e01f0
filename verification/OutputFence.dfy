/** src/orchestrator/scheduler_reflex.py: which audio epoch each stream may emit while a cutover is in flight. */
module OutputFence {
  import opened Common
  import opened Sessions
  import opened StreamingContracts

  datatype OutputLease = OutputLease(
    stream: StreamKey, turnId: TurnId, segmentId: OutputSegment, epoch: int, generation: int, target: Ssrc)

  datatype Replacement = Replacement(previous: OutputLease, lease: OutputLease, flush: StreamFlush)

  datatype Fence = Fence(
    scheduler: SchedulerState, leases: map<StreamKey, OutputLease>, lastGeneration: map<StreamKey, int>,
    pending: map<StreamKey, Replacement>, acknowledged: map<StreamKey, Replacement>,
    retained: map<StreamKey, OutputLease>, flushSequence: int)

  datatype Action =
    | Activate(stream: StreamKey, segment: OutputSegment, target: Option<int>, event: EventCorrelation)
    | ActivateForTurn(stream: StreamKey, segment: OutputSegment, turn: TurnId)
    | Interrupt(stream: StreamKey, segment: OutputSegment, event: EventCorrelation, correlation: Envelope)
    | InterruptForTurn(stream: StreamKey, segment: OutputSegment, turn: TurnId, correlation: Envelope)
    | Revoke(stream: StreamKey)
    | Acknowledge(ack: FlushAck)
    | Abandon(stream: StreamKey)
    | Commit(stream: StreamKey, epoch: int)
    | Retain
    | Finish(stream: StreamKey, playedTurn: Option<TurnId>, playedSegment: Option<OutputSegment>, playedEpoch: Option<int>)
    | NewTurn(event: EventCorrelation)

  function EmptyFence(scheduler: SchedulerState): Fence {
    Fence(scheduler, map[], map[], map[], map[], map[], 0)
  }

  /** `_start_turn`: the fence always names the revision and session the scheduler has, so it is never refused. */
  function TurnStarted(scheduler: SchedulerState, event: EventCorrelation): SchedulerState {
    var own := event.(sessionId := scheduler.snapshot.sessionId);
    StartTurn(scheduler, scheduler.snapshot.revision, SchedulerEvent("asr.final", own)).0
  }

  function NextGeneration(f: Fence, stream: StreamKey): int {
    if stream in f.leases then f.leases[stream].generation + 1
    else if stream in f.lastGeneration then f.lastGeneration[stream] + 1
    else 0
  }

  function LeaseOf(stream: StreamKey, turn: TurnId, segment: OutputSegment, generation: int, target: Option<int>): OutputLease {
    OutputLease(stream, turn, segment, generation, generation,
                if target.Some? then Given(target.value) else Derived(stream, generation))
  }

  function WithLease(f: Fence, lease: OutputLease): Fence {
    var s := lease.stream;
    f.(leases := f.leases[s := lease], lastGeneration := f.lastGeneration[s := lease.generation],
       pending := f.pending - {s}, acknowledged := f.acknowledged - {s}, retained := f.retained - {s})
  }

  function FlushFor(active: OutputLease, epoch: int, number: int, correlation: Envelope): StreamFlush {
    StreamFlush(active.stream, active.turnId, active.segmentId, epoch, FlushRequestId(active.stream, number),
                active.target, CONTRACT_VERSION, Some(correlation))
  }

  /** Prepares a replacement of the active lease; the lease itself stays where it is. */
  function Prepared(f: Fence, stream: StreamKey, segment: OutputSegment, turn: TurnId, correlation: Envelope): Fence
    requires stream in f.leases
  {
    var active := f.leases[stream];
    var lease := LeaseOf(stream, turn, segment, active.generation + 1, None);
    var flush := FlushFor(active, lease.epoch, f.flushSequence + 1, correlation);
    f.(lastGeneration := f.lastGeneration[stream := lease.generation],
       pending := f.pending[stream := Replacement(active, lease, flush)],
       retained := f.retained - {stream}, flushSequence := f.flushSequence + 1)
  }

  predicate AckMatches(f: Fence, ack: FlushAck) {
    ack.stream in f.pending && ack == FromFlush(f.pending[ack.stream].flush, Applied)
  }

  predicate FinishMatches(f: Fence, stream: StreamKey, turn: Option<TurnId>, segment: Option<OutputSegment>, epoch: Option<int>) {
    && stream in f.leases && stream !in f.pending
    && (turn.Some? ==> turn.value == f.leases[stream].turnId)
    && (segment.Some? ==> segment.value == f.leases[stream].segmentId)
    && epoch == Some(f.leases[stream].epoch)
  }

  predicate CommitMatches(f: Fence, stream: StreamKey, epoch: int) {
    && stream in f.acknowledged && f.acknowledged[stream].lease.epoch == epoch
    && stream in f.leases && f.leases[stream] == f.acknowledged[stream].lease
  }

  function Abandoned(f: Fence, stream: StreamKey): Fence {
    if stream in f.pending then f.(pending := f.pending - {stream})
    else if stream !in f.acknowledged then f
    else
      var closed := f.acknowledged[stream];
      var f' := f.(acknowledged := f.acknowledged - {stream});
      if stream in f.leases && f.leases[stream] == closed.lease
      then f'.(leases := f.leases[stream := closed.previous], retained := f.retained[stream := closed.previous])
      else f'
  }

  function Step(f: Fence, action: Action): Fence {
    match action
    case Activate(s, segment, target, event) =>
      var scheduler := TurnStarted(f.scheduler, event);
      WithLease(f.(scheduler := scheduler),
                LeaseOf(s, TurnId(f.scheduler.prefix, f.scheduler.turnSequence + 1), segment, NextGeneration(f, s), target))
    case ActivateForTurn(s, segment, turn) =>
      if f.scheduler.snapshot.activeTurn != Some(turn) then f
      else WithLease(f, LeaseOf(s, turn, segment, NextGeneration(f, s), None))
    case Interrupt(s, segment, event, correlation) =>
      if s !in f.leases then f
      else Prepared(f.(scheduler := TurnStarted(f.scheduler, event)), s, segment,
                    TurnId(f.scheduler.prefix, f.scheduler.turnSequence + 1), correlation)
    case InterruptForTurn(s, segment, turn, correlation) =>
      if f.scheduler.snapshot.activeTurn != Some(turn) || s !in f.leases then f
      else Prepared(f, s, segment, turn, correlation)
    case Revoke(s) =>
      f.(leases := f.leases - {s}, pending := f.pending - {s}, acknowledged := f.acknowledged - {s}, retained := f.retained - {s})
    case Acknowledge(ack) =>
      if !AckMatches(f, ack) then f
      else
        var matched := f.pending[ack.stream];
        f.(leases := f.leases[ack.stream := matched.lease], pending := f.pending - {ack.stream},
           acknowledged := f.acknowledged[ack.stream := matched])
    case Abandon(s) => Abandoned(f, s)
    case Commit(s, epoch) =>
      if !CommitMatches(f, s, epoch) then f
      else f.(acknowledged := f.acknowledged - {s}, retained := f.retained - {s})
    case Retain => f.(retained := f.retained + f.leases)
    case Finish(s, turn, segment, epoch) =>
      if !FinishMatches(f, s, turn, segment, epoch) then f
      else f.(leases := f.leases - {s}, retained := f.retained - {s})
    case NewTurn(event) => f.(scheduler := TurnStarted(f.scheduler, event))
  }

  predicate CanEmit(f: Fence, stream: StreamKey, epoch: int) {
    && stream in f.leases
    && if stream in f.pending then epoch == f.pending[stream].previous.epoch
       else epoch == f.leases[stream].epoch
            && (|| (stream in f.retained && f.retained[stream] == f.leases[stream])
                || f.scheduler.snapshot.activeTurn == Some(f.leases[stream].turnId))
  }

  // ---------------------------------------------------------------------------------------------

  ghost predicate WellFormed(r: Replacement, s: StreamKey, flushSequence: int) {
    && r.previous.stream == r.lease.stream == s
    && r.previous.epoch == r.previous.generation
    && r.lease.epoch == r.lease.generation == r.previous.generation + 1
    && r.flush.stream == s && r.flush.epoch == r.lease.epoch
    && r.flush.turnId == r.previous.turnId && r.flush.segmentId == r.previous.segmentId
    && r.flush.target == r.previous.target
    && r.flush.requestId.stream == s && r.flush.requestId.number <= flushSequence
  }

  ghost predicate InvAt(f: Fence, s: StreamKey) {
    && (s in f.leases ==>
          s in f.lastGeneration && f.leases[s].stream == s && f.leases[s].epoch == f.leases[s].generation)
    && (s in f.pending ==>
          s in f.leases && f.pending[s].previous == f.leases[s] && WellFormed(f.pending[s], s, f.flushSequence))
    && (s in f.acknowledged ==>
          WellFormed(f.acknowledged[s], s, f.flushSequence) && (s in f.leases ==> f.leases[s] == f.acknowledged[s].lease))
  }

  ghost predicate Inv(f: Fence) {
    forall s :: InvAt(f, s)
  }

  /** The fields of one stream, all that any step of another stream leaves alone. */
  ghost predicate SameAt(f: Fence, f': Fence, s: StreamKey) {
    && (s in f'.leases <==> s in f.leases) && (s in f.leases ==> f'.leases[s] == f.leases[s])
    && (s in f'.pending <==> s in f.pending) && (s in f.pending ==> f'.pending[s] == f.pending[s])
    && (s in f'.acknowledged <==> s in f.acknowledged) && (s in f.acknowledged ==> f'.acknowledged[s] == f.acknowledged[s])
    && (s in f'.lastGeneration <==> s in f.lastGeneration)
    && (s in f.lastGeneration ==> f'.lastGeneration[s] == f.lastGeneration[s])
  }

  /** The stream an action may move, if any. */
  function Target(action: Action): Option<StreamKey> {
    match action
    case Retain => None
    case NewTurn(_) => None
    case Acknowledge(ack) => Some(ack.stream)
    case Activate(s, _, _, _) => Some(s)
    case ActivateForTurn(s, _, _) => Some(s)
    case Interrupt(s, _, _, _) => Some(s)
    case InterruptForTurn(s, _, _, _) => Some(s)
    case Revoke(s) => Some(s)
    case Abandon(s) => Some(s)
    case Commit(s, _) => Some(s)
    case Finish(s, _, _, _) => Some(s)
  }

  lemma StepIsLocal(f: Fence, action: Action, s: StreamKey)
    requires Target(action) != Some(s)
    ensures SameAt(f, Step(f, action), s)
    ensures s in f.retained && !action.Retain? ==> s in Step(f, action).retained && Step(f, action).retained[s] == f.retained[s]
    ensures f.flushSequence <= Step(f, action).flushSequence
  {
    hide SameAt, Step;
    StepIsLocalToItsMaps(f, action, s);
    StepIsLocalToRetained(f, action, s);
  }

  lemma StepIsLocalToItsMaps(f: Fence, action: Action, s: StreamKey)
    requires Target(action) != Some(s)
    ensures SameAt(f, Step(f, action), s)
  {
    hide AckMatches, FinishMatches, CommitMatches, TurnStarted, NextGeneration, Prepared, WithLease, Abandoned;
    match action
    case Activate(t, segment, target, event) =>
      LeasingIsLocal(
        f.(scheduler := TurnStarted(f.scheduler, event)),
        LeaseOf(t, TurnId(f.scheduler.prefix, f.scheduler.turnSequence + 1), segment, NextGeneration(f, t), target), s);
    case ActivateForTurn(t, segment, turn) =>
      LeasingIsLocal(f, LeaseOf(t, turn, segment, NextGeneration(f, t), None), s);
    case Interrupt(t, segment, event, correlation) =>
      if t in f.leases {
        PreparingIsLocal(f.(scheduler := TurnStarted(f.scheduler, event)), t, segment,
                         TurnId(f.scheduler.prefix, f.scheduler.turnSequence + 1), correlation, s);
      }
    case InterruptForTurn(t, segment, turn, correlation) =>
      if t in f.leases {
        PreparingIsLocal(f, t, segment, turn, correlation, s);
      }
    case Abandon(t) => AbandoningIsLocal(f, t, s);
    case _ =>
  }

  lemma LeasingIsLocal(f: Fence, lease: OutputLease, s: StreamKey)
    requires lease.stream != s
    ensures SameAt(f, WithLease(f, lease), s)
  {
  }

  lemma PreparingIsLocal(f: Fence, t: StreamKey, segment: OutputSegment, turn: TurnId, correlation: Envelope, s: StreamKey)
    requires t != s && t in f.leases
    ensures SameAt(f, Prepared(f, t, segment, turn, correlation), s)
  {
  }

  lemma AbandoningIsLocal(f: Fence, t: StreamKey, s: StreamKey)
    requires t != s
    ensures SameAt(f, Abandoned(f, t), s)
  {
  }

  lemma StepIsLocalToRetained(f: Fence, action: Action, s: StreamKey)
    requires Target(action) != Some(s)
    ensures s in f.retained && !action.Retain? ==> s in Step(f, action).retained && Step(f, action).retained[s] == f.retained[s]
    ensures f.flushSequence <= Step(f, action).flushSequence
  {
    hide AckMatches, FinishMatches, CommitMatches, TurnStarted, NextGeneration;
  }

  lemma StepKeepsInvAt(f: Fence, action: Action, s: StreamKey)
    requires InvAt(f, s)
    ensures InvAt(Step(f, action), s)
  {
    if Target(action) != Some(s) {
      StepIsLocal(f, action, s);
    }
  }

  lemma StepKeepsInv(f: Fence, action: Action)
    requires Inv(f)
    ensures Inv(Step(f, action))
  {
    forall s ensures InvAt(Step(f, action), s) {
      assert InvAt(f, s);
      StepKeepsInvAt(f, action, s);
    }
  }

  /** In every state of every run at most one epoch may emit on a stream: that of the lease it holds. */
  lemma OnlyTheLeaseEmits(f: Fence, s: StreamKey, epoch: int)
    requires Inv(f)
    ensures CanEmit(f, s, epoch) ==> s in f.leases && epoch == f.leases[s].epoch
    ensures s in f.pending ==> (CanEmit(f, s, epoch) <==> s in f.leases && epoch == f.leases[s].epoch)
    ensures s in f.pending ==> !CanEmit(f, s, f.pending[s].lease.epoch)
  {
    assert InvAt(f, s);
  }

  function Run(f: Fence, actions: seq<Action>): (f': Fence)
    requires Inv(f)
    ensures Inv(f')
    decreases |actions|
  {
    if actions == [] then f
    else
      var before := Run(f, actions[..|actions| - 1]);
      StepKeepsInv(before, actions[|actions| - 1]);
      Step(before, actions[|actions| - 1])
  }

  // ---------------------------------------------------------------------------------------------
  // One exchange: an interrupt, whatever happens meanwhile, and its commit or abandonment.

  /** The replacement is prepared and the old lease in force, or acknowledged and itself in force. */
  ghost predicate Exchanging(f: Fence, s: StreamKey, r: Replacement) {
    && s in f.leases
    && if s in f.pending then f.pending[s] == r && f.leases[s] == r.previous
       else s in f.acknowledged && f.acknowledged[s] == r && f.leases[s] == r.lease
  }

  /** Nothing that takes the stream away or opens another exchange on it; acknowledgements of any kind may come. */
  predicate Quiet(action: Action, s: StreamKey) {
    Target(action) != Some(s) || action.Acknowledge?
  }

  lemma InterruptOpensAnExchange(f: Fence, action: Action, s: StreamKey)
    requires Inv(f) && Target(action) == Some(s) && (action.Interrupt? || action.InterruptForTurn?)
    ensures var f' := Step(f, action);
            || f' == f
            || (&& s in f.leases && s in f'.pending
                && f'.pending[s].previous == f.leases[s]
                && f'.leases == f.leases
                && f'.pending[s].lease.epoch == f.leases[s].epoch + 1
                && f'.pending[s].flush.requestId == FlushRequestId(s, f.flushSequence + 1)
                && Exchanging(f', s, f'.pending[s])
                && (action.Interrupt? ==> f'.scheduler.snapshot.activeTurn == Some(f'.pending[s].lease.turnId)))
  {
    assert InvAt(f, s);
  }

  lemma QuietKeepsExchanging(f: Fence, action: Action, s: StreamKey, r: Replacement)
    requires Exchanging(f, s, r) && Quiet(action, s)
    ensures Exchanging(Step(f, action), s, r)
    ensures s !in f.pending ==> s !in Step(f, action).pending
    ensures s in f.pending && s !in Step(f, action).pending ==> action == Acknowledge(FromFlush(r.flush, Applied))
  {
    if Target(action) != Some(s) {
      StepIsLocal(f, action, s);
    }
  }

  lemma {:induction false} QuietRunKeepsExchanging(f: Fence, actions: seq<Action>, s: StreamKey, r: Replacement)
    requires Inv(f) && Exchanging(f, s, r)
    requires forall i :: 0 <= i < |actions| ==> Quiet(actions[i], s)
    ensures Exchanging(Run(f, actions), s, r)
    decreases |actions|
  {
    if actions != [] {
      var front := actions[..|actions| - 1];
      QuietRunKeepsExchanging(f, front, s, r);
      QuietKeepsExchanging(Run(f, front), actions[|actions| - 1], s, r);
    }
  }

  /**
   * Abandoning undoes the latest interrupt whether or not Sound acknowledged it in between: the lease is
   * the one from before. Its epoch may emit at once if the flush had been acknowledged; if not, only while
   * its turn is active or `retain_playback` ran after the interrupt.
   */
  lemma AbandonUndoesInterrupt(f: Fence, interrupt: Action, actions: seq<Action>, s: StreamKey)
    requires Inv(f) && Target(interrupt) == Some(s) && (interrupt.Interrupt? || interrupt.InterruptForTurn?)
    requires Step(f, interrupt) != f
    requires forall i :: 0 <= i < |actions| ==> Quiet(actions[i], s)
    ensures s in f.leases && Inv(Step(f, interrupt))
    ensures var before := Run(Step(f, interrupt), actions);
            var after := Step(before, Abandon(s));
            && s in after.leases && after.leases[s] == f.leases[s] && s !in after.pending
            && (s !in before.pending ==> CanEmit(after, s, f.leases[s].epoch))
            && (s in before.pending ==>
                (CanEmit(after, s, f.leases[s].epoch) <==>
                 || (s in before.retained && before.retained[s] == f.leases[s])
                 || before.scheduler.snapshot.activeTurn == Some(f.leases[s].turnId)))
  {
    hide Inv, Step, Run, CanEmit, Exchanging, Quiet;
    InterruptOpensAnExchange(f, interrupt, s);
    StepKeepsInv(f, interrupt);
    var cut := Step(f, interrupt);
    QuietRunKeepsExchanging(cut, actions, s, cut.pending[s]);
    AbandonClosesExchange(Run(cut, actions), s, cut.pending[s]);
  }

  lemma AbandonClosesExchange(f: Fence, s: StreamKey, r: Replacement)
    requires Inv(f) && Exchanging(f, s, r)
    ensures var after := Step(f, Abandon(s));
            && s in after.leases && after.leases[s] == r.previous && s !in after.pending
            && (s !in f.pending ==> CanEmit(after, s, r.previous.epoch))
            && (s in f.pending ==>
                (CanEmit(after, s, r.previous.epoch) <==>
                 || (s in f.retained && f.retained[s] == r.previous)
                 || f.scheduler.snapshot.activeTurn == Some(r.previous.turnId)))
  {
    assert InvAt(f, s);
  }

  /** A turn the scheduler has handed out. */
  predicate Opened(scheduler: SchedulerState, turn: TurnId) {
    turn.prefix == scheduler.prefix && 1 <= turn.number <= scheduler.turnSequence
  }

  predicate OpenedAt(f: Fence, s: StreamKey) {
    && (s in f.leases ==> Opened(f.scheduler, f.leases[s].turnId))
    && (s in f.pending ==> Opened(f.scheduler, f.pending[s].lease.turnId))
    && (s in f.acknowledged ==>
          Opened(f.scheduler, f.acknowledged[s].previous.turnId) && Opened(f.scheduler, f.acknowledged[s].lease.turnId))
  }

  ghost predicate TurnsAreOpened(f: Fence) {
    f.scheduler.Valid() && forall s :: OpenedAt(f, s)
  }

  lemma SchedulerMovesOn(f: Fence, action: Action)
    requires f.scheduler.Valid()
    ensures var later := Step(f, action).scheduler;
            && later.Valid() && later.prefix == f.scheduler.prefix
            && (if action.Activate? || action.NewTurn? || (action.Interrupt? && action.stream in f.leases)
                then later.turnSequence == f.scheduler.turnSequence + 1
                     && later.snapshot.activeTurn == Some(TurnId(f.scheduler.prefix, later.turnSequence))
                else later == f.scheduler)
  {
    hide AckMatches, FinishMatches, CommitMatches, NextGeneration, LeaseOf, FlushFor;
    if action.Activate? || action.NewTurn? || action.Interrupt? {
      var own := action.event.(sessionId := f.scheduler.snapshot.sessionId);
      StartTurnOpensAFreshTurn(f.scheduler, f.scheduler.snapshot.revision, SchedulerEvent("asr.final", own));
    }
  }

  lemma ActiveTurnIsOpened(scheduler: SchedulerState)
    requires scheduler.Valid() && scheduler.snapshot.activeTurn.Some?
    ensures Opened(scheduler, scheduler.snapshot.activeTurn.value)
  {
  }

  lemma StepKeepsOpenedAt(f: Fence, action: Action, s: StreamKey)
    requires f.scheduler.Valid() && OpenedAt(f, s) && InvAt(f, s)
    ensures OpenedAt(Step(f, action), s)
  {
    hide FinishMatches, CommitMatches, NextGeneration, TurnStarted;
    SchedulerMovesOn(f, action);
    if Target(action) != Some(s) {
      StepIsLocal(f, action, s);
    } else if action.ActivateForTurn? || action.InterruptForTurn? {
      if f.scheduler.snapshot.activeTurn == Some(action.turn) {
        ActiveTurnIsOpened(f.scheduler);
      }
    }
  }

  /** In every run from a new fence each lease is that of a turn the scheduler has handed out. */
  lemma {:induction false} RunKeepsTurnsOpened(f: Fence, actions: seq<Action>)
    requires Inv(f) && TurnsAreOpened(f)
    ensures TurnsAreOpened(Run(f, actions))
    decreases |actions|
  {
    hide Inv, Step, OpenedAt;
    if actions != [] {
      var front, last := actions[..|actions| - 1], actions[|actions| - 1];
      RunKeepsTurnsOpened(f, front);
      var before := Run(f, front);
      SchedulerMovesOn(before, last);
      forall s ensures OpenedAt(Step(before, last), s) {
        assert InvAt(before, s) by { InvEverywhere(before, s); }
        StepKeepsOpenedAt(before, last, s);
      }
    }
  }

  /**
   * The un-acknowledged case of a reflex interruption, in every state a run from a new fence can reach: when
   * nothing else happens the stream is left silent, because the interrupt moved the active turn on and
   * dropped the retained lease, and abandoning restores neither.
   */
  lemma AbandonedReflexIsSilent(
    scheduler: SchedulerState, actions: seq<Action>, s: StreamKey, segment: OutputSegment, event: EventCorrelation,
    correlation: Envelope)
    requires scheduler.Valid() && Inv(EmptyFence(scheduler))
    requires s in Run(EmptyFence(scheduler), actions).leases
    ensures var f := Run(EmptyFence(scheduler), actions);
            var after := Step(Step(f, Interrupt(s, segment, event, correlation)), Abandon(s));
            && after.leases == f.leases
            && forall epoch :: !CanEmit(after, s, epoch)
  {
    hide Inv, Run, TurnStarted, NextGeneration;
    RunKeepsTurnsOpened(EmptyFence(scheduler), actions);
    var f := Run(EmptyFence(scheduler), actions);
    assert OpenedAt(f, s);
    SchedulerMovesOn(f, Interrupt(s, segment, event, correlation));
  }

  /** Once committed, an exchange cannot be undone: abandoning changes nothing until the next interrupt. */
  lemma {:induction false} CommitIsFinal(f: Fence, s: StreamKey, epoch: int, actions: seq<Action>)
    requires Inv(f) && CommitMatches(f, s, epoch) && s !in f.pending
    requires forall i :: 0 <= i < |actions| && Target(actions[i]) == Some(s) ==>
               !actions[i].Interrupt? && !actions[i].InterruptForTurn?
    ensures Inv(Step(f, Commit(s, epoch)))
    ensures var later := Run(Step(f, Commit(s, epoch)), actions);
            s !in later.pending && s !in later.acknowledged && Step(later, Abandon(s)) == later
    decreases |actions|
  {
    StepKeepsInv(f, Commit(s, epoch));
    var committed := Step(f, Commit(s, epoch));
    if actions == [] {
      AbandonNeedsAnExchange(committed, s);
    } else {
      hide Inv, CommitMatches, Step;
      var front, last := actions[..|actions| - 1], actions[|actions| - 1];
      CommitIsFinal(f, s, epoch, front);
      NoExchangeStarts(Run(committed, front), last, s);
      AbandonNeedsAnExchange(Run(committed, actions), s);
    }
  }

  lemma AbandonNeedsAnExchange(f: Fence, s: StreamKey)
    requires s !in f.pending && s !in f.acknowledged
    ensures Step(f, Abandon(s)) == f
  {
  }

  lemma NoExchangeStarts(f: Fence, action: Action, s: StreamKey)
    requires s !in f.pending && s !in f.acknowledged
    requires Target(action) == Some(s) ==> !action.Interrupt? && !action.InterruptForTurn?
    ensures s !in Step(f, action).pending && s !in Step(f, action).acknowledged
  {
    hide FinishMatches, CommitMatches, TurnStarted, NextGeneration, LeaseOf, FlushFor;
    if Target(action) != Some(s) {
      StepIsLocal(f, action, s);
    }
  }

  // ---------------------------------------------------------------------------------------------
  // Which acknowledgement switches a lease.

  /** The flush a step sends out, if it opens an exchange. */
  function Sent(f: Fence, action: Action): seq<StreamFlush> {
    var f' := Step(f, action);
    if f'.flushSequence == f.flushSequence then []
    else if Target(action).Some? && Target(action).value in f'.pending then [f'.pending[Target(action).value].flush]
    else []
  }

  function Flushes(f: Fence, actions: seq<Action>): (flushes: seq<StreamFlush>)
    requires Inv(f)
    decreases |actions|
  {
    if actions == [] then []
    else
      var front := actions[..|actions| - 1];
      Flushes(f, front) + Sent(Run(f, front), actions[|actions| - 1])
  }

  ghost predicate LastOn(flushes: seq<StreamFlush>, flush: StreamFlush) {
    exists i :: 0 <= i < |flushes| && flushes[i] == flush && forall j :: i < j < |flushes| ==> flushes[j].stream != flush.stream
  }

  lemma SentIsPending(f: Fence, action: Action)
    requires Inv(f)
    ensures Step(f, action).flushSequence == f.flushSequence + |Sent(f, action)|
    ensures Sent(f, action) != [] ==>
              && Target(action) == Some(Sent(f, action)[0].stream)
              && Sent(f, action)[0].stream in Step(f, action).pending
              && Step(f, action).pending[Sent(f, action)[0].stream].flush == Sent(f, action)[0]
              && Sent(f, action)[0].requestId.number == f.flushSequence + 1
    ensures forall s :: s in Step(f, action).pending ==>
              || (Sent(f, action) != [] && s == Sent(f, action)[0].stream)
              || (s in f.pending && Step(f, action).pending[s] == f.pending[s])
  {
    if Target(action).Some? {
      assert InvAt(f, Target(action).value);
    }
  }

  /** Request numbers count the flushes of a run, and a pending replacement always waits for the last one. */
  lemma {:induction false} PendingWaitsForTheLatestFlush(f: Fence, actions: seq<Action>)
    requires Inv(f) && f.pending == map[]
    ensures var flushes, end := Flushes(f, actions), Run(f, actions);
            && end.flushSequence == f.flushSequence + |flushes|
            && (forall i :: 0 <= i < |flushes| ==> flushes[i].requestId.number == f.flushSequence + i + 1)
            && (forall s :: s in end.pending ==> end.pending[s].flush.stream == s && LastOn(flushes, end.pending[s].flush))
    decreases |actions|
  {
    if actions != [] {
      var front, last := actions[..|actions| - 1], actions[|actions| - 1];
      PendingWaitsForTheLatestFlush(f, front);
      var before := Run(f, front);
      SentIsPending(before, last);
      var old_, sent := Flushes(f, front), Sent(before, last);
      var end := Step(before, last);
      forall s | s in end.pending ensures end.pending[s].flush.stream == s && LastOn(old_ + sent, end.pending[s].flush) {
        if sent != [] && s == sent[0].stream {
          assert (old_ + sent)[|old_|] == sent[0];
        } else {
          StillLast(old_, sent, before.pending[s].flush);
        }
      }
    }
  }

  lemma StillLast(flushes: seq<StreamFlush>, sent: seq<StreamFlush>, flush: StreamFlush)
    requires LastOn(flushes, flush) && |sent| <= 1
    requires sent != [] ==> sent[0].stream != flush.stream
    ensures LastOn(flushes + sent, flush)
  {
    var i :| 0 <= i < |flushes| && flushes[i] == flush && forall j :: i < j < |flushes| ==> flushes[j].stream != flush.stream;
    assert (flushes + sent)[i] == flush;
  }

  /**
   * While an exchange is open, only an acknowledgement equal to the latest flush on that stream in every
   * field switches the lease; one for any earlier flush of the run, or a replayed one, is refused.
   */
  lemma OnlyTheLatestFlushSwitches(f: Fence, actions: seq<Action>, ack: FlushAck)
    requires Inv(f) && f.pending == map[]
    ensures var flushes, end := Flushes(f, actions), Run(f, actions);
            && (AckMatches(end, ack) ==>
                  exists i :: 0 <= i < |flushes| && ack == FromFlush(flushes[i], Applied)
                    && forall j :: i < j < |flushes| ==> flushes[j].stream != ack.stream)
            && (ack.stream in end.pending && !AckMatches(end, ack) ==>
                  Step(end, Acknowledge(ack)) == end)
            && (forall i, j, d :: 0 <= i < j < |flushes| && flushes[i].stream == flushes[j].stream ==>
                  !AckMatches(end, FromFlush(flushes[i], d)))
  {
    PendingWaitsForTheLatestFlush(f, actions);
    var flushes, end := Flushes(f, actions), Run(f, actions);
    forall i, j, d | 0 <= i < j < |flushes| && flushes[i].stream == flushes[j].stream
      ensures !AckMatches(end, FromFlush(flushes[i], d))
    {
      var s := flushes[i].stream;
      if s in end.pending {
        var k :| 0 <= k < |flushes| && flushes[k] == end.pending[s].flush
                 && forall m :: k < m < |flushes| ==> flushes[m].stream != end.pending[s].flush.stream;
        assert flushes[i].requestId.number != flushes[k].requestId.number;
      }
    }
    if AckMatches(end, ack) {
      assert LastOn(flushes, end.pending[ack.stream].flush);
    }
  }

  /** A stream that waits for an acknowledgement changes its lease only by that acknowledgement, a new activation or a revocation. */
  lemma CutoverNeedsItsAck(f: Fence, action: Action, s: StreamKey)
    requires Inv(f) && s in f.pending
    ensures var f' := Step(f, action);
            s in f.leases && ((s !in f'.leases || f'.leases[s] != f.leases[s]) ==>
              || action == Acknowledge(FromFlush(f.pending[s].flush, Applied))
              || (Target(action) == Some(s) && (action.Activate? || action.ActivateForTurn? || action.Revoke?)))
  {
    assert InvAt(f, s);
    if Target(action) != Some(s) {
      StepIsLocal(f, action, s);
    }
  }

  // ---------------------------------------------------------------------------------------------
  // Generations, whose epochs name the SSRC of the audio.

  /** The generation a step hands out on a stream. */
  function Issue(f: Fence, action: Action, s: StreamKey): Option<int> {
    if Target(action) != Some(s) then None
    else match action
      case Activate(_, _, _, _) => Some(NextGeneration(f, s))
      case ActivateForTurn(_, _, turn) => if f.scheduler.snapshot.activeTurn == Some(turn) then Some(NextGeneration(f, s)) else None
      case Interrupt(_, _, _, _) => if s in f.leases then Some(f.leases[s].generation + 1) else None
      case InterruptForTurn(_, _, turn, _) =>
        if f.scheduler.snapshot.activeTurn == Some(turn) && s in f.leases then Some(f.leases[s].generation + 1) else None
      case _ => None
  }

  function Higher(a: Option<int>, b: Option<int>): Option<int> {
    if a.None? then b else if b.None? then a else if a.value >= b.value then a else b
  }

  function Highest(f: Fence, actions: seq<Action>, s: StreamKey): Option<int>
    requires Inv(f)
    decreases |actions|
  {
    if actions == [] then None
    else
      var front := actions[..|actions| - 1];
      Higher(Highest(f, front, s), Issue(Run(f, front), actions[|actions| - 1], s))
  }

  /** The retained generation is the highest ever issued. */
  predicate MarkIs(f: Fence, s: StreamKey, highest: Option<int>) {
    if s in f.lastGeneration then highest == Some(f.lastGeneration[s]) else highest == None
  }

  /** Issuing over a lease two or more behind the mark, by an interrupt or by an activation. */
  predicate Rewinds(f: Fence, action: Action, s: StreamKey) {
    && Issue(f, action, s).Some? && s in f.leases && s in f.lastGeneration
    && f.leases[s].generation + 1 < f.lastGeneration[s]
  }

  /** The mark is whatever was issued last. */
  lemma MarkFollowsIssue(f: Fence, action: Action, s: StreamKey)
    ensures var f', issued := Step(f, action), Issue(f, action, s);
            if issued.Some? then s in f'.lastGeneration && f'.lastGeneration[s] == issued.value
            else (s in f'.lastGeneration <==> s in f.lastGeneration)
                 && (s in f.lastGeneration ==> f'.lastGeneration[s] == f.lastGeneration[s])
  {
    hide AckMatches, FinishMatches, CommitMatches, TurnStarted;
    if Target(action) != Some(s) {
      StepIsLocal(f, action, s);
    }
  }

  lemma StepKeepsMark(f: Fence, action: Action, s: StreamKey, highest: Option<int>)
    requires InvAt(f, s) && MarkIs(f, s, highest)
    ensures MarkIs(Step(f, action), s, Higher(highest, Issue(f, action, s))) <==> !Rewinds(f, action, s)
  {
    hide Step;
    MarkFollowsIssue(f, action, s);
  }

  /** One step lowers the mark exactly when it issues over a lease two or more behind it. */
  lemma RewindingLowersTheMark(f: Fence, action: Action, s: StreamKey)
    requires InvAt(f, s) && s in f.lastGeneration
    ensures s in Step(f, action).lastGeneration
    ensures Step(f, action).lastGeneration[s] < f.lastGeneration[s] <==> Rewinds(f, action, s)
  {
    hide Step;
    MarkFollowsIssue(f, action, s);
  }

  ghost predicate NeverRewinds(f: Fence, actions: seq<Action>, s: StreamKey)
    requires Inv(f)
  {
    forall i :: 0 <= i < |actions| ==> !Rewinds(Run(f, actions[..i]), actions[i], s)
  }

  ghost predicate MarkedThroughout(f: Fence, actions: seq<Action>, s: StreamKey)
    requires Inv(f)
  {
    forall i :: 0 <= i <= |actions| ==> MarkIs(Run(f, actions[..i]), s, Highest(f, actions[..i], s))
  }

  /** Over every run on a stream that is new at its start: the mark is the highest throughout exactly if no step rewinds. */
  lemma {:induction false} MarkIsHighestExactly(f: Fence, actions: seq<Action>, s: StreamKey)
    requires Inv(f) && s !in f.lastGeneration
    ensures MarkedThroughout(f, actions, s) <==> NeverRewinds(f, actions, s)
    decreases |actions|
  {
    hide Inv, Step, MarkedThroughout, NeverRewinds, Rewinds, Issue, MarkIs, Run, Highest;
    if actions == [] {
      NothingIssued(f, s);
    } else {
      var front, last := actions[..|actions| - 1], actions[|actions| - 1];
      MarkIsHighestExactly(f, front, s);
      LastIssue(f, actions, s);
      if MarkIs(Run(f, front), s, Highest(f, front, s)) {
        assert InvAt(Run(f, front), s) by { InvEverywhere(Run(f, front), s); }
        StepKeepsMark(Run(f, front), last, s, Highest(f, front, s));
      }
    }
  }

  lemma InvEverywhere(f: Fence, s: StreamKey)
    requires Inv(f)
    ensures InvAt(f, s)
  {
  }

  lemma NothingIssued(f: Fence, s: StreamKey)
    requires Inv(f) && s !in f.lastGeneration
    ensures MarkedThroughout(f, [], s) && NeverRewinds(f, [], s)
  {
    hide Inv;
  }

  lemma LastIssue(f: Fence, actions: seq<Action>, s: StreamKey)
    requires Inv(f) && actions != []
    ensures var front, last := actions[..|actions| - 1], actions[|actions| - 1];
            && Run(f, actions) == Step(Run(f, front), last)
            && Highest(f, actions, s) == Higher(Highest(f, front, s), Issue(Run(f, front), last, s))
            && (NeverRewinds(f, actions, s) <==> NeverRewinds(f, front, s) && !Rewinds(Run(f, front), last, s))
            && (MarkedThroughout(f, actions, s) <==>
                  MarkedThroughout(f, front, s) && MarkIs(Run(f, actions), s, Highest(f, actions, s)))
            && (MarkedThroughout(f, front, s) ==> MarkIs(Run(f, front), s, Highest(f, front, s)))
  {
    hide Inv, Step, Rewinds, Issue, MarkIs;
    var n := |actions| - 1;
    var front := actions[..n];
    forall i | 0 <= i <= n ensures actions[..i] == front[..i] { }
    assert actions[..n + 1] == actions && front[..n] == front;
    hide Run, Highest;
  }

  /** The mark never exceeds what was issued. */
  lemma {:induction false} MarkWasIssued(f: Fence, actions: seq<Action>, s: StreamKey)
    requires Inv(f) && s !in f.lastGeneration
    ensures var end, highest := Run(f, actions), Highest(f, actions, s);
            && (s in end.lastGeneration <==> highest.Some?)
            && (highest.Some? ==> end.lastGeneration[s] <= highest.value)
    decreases |actions|
  {
    hide Inv, Step, Issue;
    if actions != [] {
      var front, last := actions[..|actions| - 1], actions[|actions| - 1];
      MarkWasIssued(f, front, s);
      MarkFollowsIssue(Run(f, front), last, s);
    }
  }

  /**
   * After a finish or a revocation the next activation gets a generation above every one issued before
   * exactly when the mark is the highest then, and so in every run in which no step rewinds.
   */
  lemma ReleasedStreamsGetFreshGenerations(f: Fence, actions: seq<Action>, next: Action, s: StreamKey)
    requires Inv(f) && s !in f.lastGeneration
    requires s !in Run(f, actions).leases && Issue(Run(f, actions), next, s).Some?
    ensures var generation, highest := Issue(Run(f, actions), next, s).value, Highest(f, actions, s);
            && s in Step(Run(f, actions), next).leases && Step(Run(f, actions), next).leases[s].generation == generation
            && (highest.None? || generation > highest.value <==> MarkIs(Run(f, actions), s, highest))
            && (NeverRewinds(f, actions, s) ==> generation == if highest.Some? then highest.value + 1 else 0)
  {
    hide Inv, Run, Highest, MarkedThroughout, NeverRewinds;
    MarkWasIssued(f, actions, s);
    MarkIsHighestExactly(f, actions, s);
    if NeverRewinds(f, actions, s) {
      MarkedAtTheEnd(f, actions, s);
    }
  }

  lemma MarkedAtTheEnd(f: Fence, actions: seq<Action>, s: StreamKey)
    requires Inv(f) && MarkedThroughout(f, actions, s)
    ensures MarkIs(Run(f, actions), s, Highest(f, actions, s))
  {
    hide Inv, Run, Highest, MarkIs;
    assert actions[..|actions|] == actions;
  }

  /** A lease in force is at most one behind the mark, and what an exchange prepared or switched to is the mark. */
  predicate Close(f: Fence, s: StreamKey) {
    && (s in f.leases ==> s in f.lastGeneration && f.lastGeneration[s] - 1 <= f.leases[s].generation)
    && (s in f.pending ==> s !in f.acknowledged && s in f.lastGeneration && f.lastGeneration[s] == f.pending[s].lease.generation)
    && (s in f.leases && s in f.acknowledged ==> s in f.lastGeneration && f.leases[s].generation == f.lastGeneration[s])
  }

  /** An interrupt over a replacement Sound has acknowledged but nobody has committed. */
  predicate OverridesAcknowledged(f: Fence, action: Action, s: StreamKey) {
    && Target(action) == Some(s) && (action.Interrupt? || action.InterruptForTurn?)
    && s in f.acknowledged
  }

  ghost predicate NeverOverridesAcknowledged(f: Fence, actions: seq<Action>, s: StreamKey)
    requires Inv(f)
  {
    forall i :: 0 <= i < |actions| ==> !OverridesAcknowledged(Run(f, actions[..i]), actions[i], s)
  }

  lemma StepStaysClose(f: Fence, action: Action, s: StreamKey)
    requires InvAt(f, s) && Close(f, s) && !OverridesAcknowledged(f, action, s)
    ensures Close(Step(f, action), s)
  {
    if Target(action) != Some(s) {
      StepIsLocal(f, action, s);
    }
  }

  /** One way never to rewind: no interrupt over an acknowledged replacement that is not committed. */
  lemma {:induction false} NotOverridingNeverRewinds(f: Fence, actions: seq<Action>, s: StreamKey)
    requires Inv(f) && Close(f, s) && NeverOverridesAcknowledged(f, actions, s)
    ensures Close(Run(f, actions), s) && NeverRewinds(f, actions, s)
    decreases |actions|
  {
    hide Inv, Step, Issue, Close;
    if actions != [] {
      var front, last := actions[..|actions| - 1], actions[|actions| - 1];
      assert forall i :: 0 <= i < |front| ==> actions[..i] == front[..i];
      NotOverridingNeverRewinds(f, front, s);
      LastIssue(f, actions, s);
      var before := Run(f, front);
      assert InvAt(before, s) by { InvEverywhere(before, s); }
      CloseNeverRewinds(before, last, s);
      StepStaysClose(before, last, s);
    }
  }

  lemma CloseNeverRewinds(f: Fence, action: Action, s: StreamKey)
    requires Close(f, s)
    ensures !Rewinds(f, action, s)
  {
  }

  /**
   * Interrupting over an acknowledged replacement breaks the mark: generation g + 2 is prepared, both
   * replacements are abandoned, the next interrupt issues g + 1 again, and after the release the activation
   * reuses g + 2.
   */
  lemma OverridingReusesAGeneration(f: Fence, s: StreamKey, segment: OutputSegment, turn: TurnId, correlation: Envelope)
    requires Inv(f) && s in f.leases && s !in f.pending && s !in f.acknowledged
    requires f.scheduler.snapshot.activeTurn == Some(turn)
    ensures var cut := InterruptForTurn(s, segment, turn, correlation);
            var g := f.leases[s].generation;
            var first := Step(f, cut);
            && s in first.pending
            && var acked := Step(first, Acknowledge(FromFlush(first.pending[s].flush, Applied)));
               var second := Step(acked, cut);
               var back := Step(Step(second, Abandon(s)), Abandon(s));
               var released := Step(Step(Step(back, cut), Abandon(s)), Revoke(s));
               && OverridesAcknowledged(acked, cut, s) && Issue(acked, cut, s) == Some(g + 2)
               && s in back.leases && back.leases[s] == f.leases[s]
               && Issue(back, cut, s) == Some(g + 1)
               && Issue(released, ActivateForTurn(s, segment, turn), s) == Some(g + 2)
  {
    assert InvAt(f, s);
    var cut := InterruptForTurn(s, segment, turn, correlation);
    var first := Step(f, cut);
    assert AckMatches(first, FromFlush(first.pending[s].flush, Applied));
  }

  class SchedulerOutputFence {
    const scheduler: SessionScheduler
    var leases: map<StreamKey, OutputLease>
    var lastGeneration: map<StreamKey, int>
    var pending: map<StreamKey, Replacement>
    var acknowledged: map<StreamKey, Replacement>
    var retained: map<StreamKey, OutputLease>
    var flushSequence: int

    ghost function Model(): Fence
      reads this, scheduler
    {
      Fence(scheduler.Model(), leases, lastGeneration, pending, acknowledged, retained, flushSequence)
    }

    ghost predicate Valid()
      reads this, scheduler
    {
      Inv(Model()) && scheduler.Model().Valid()
    }

    constructor (scheduler: SessionScheduler)
      requires scheduler.Model().Valid()
      ensures this.scheduler == scheduler && Model() == EmptyFence(scheduler.Model()) && Valid()
    {
      this.scheduler := scheduler;
      leases, lastGeneration, pending, acknowledged, retained := map[], map[], map[], map[], map[];
      flushSequence := 0;
    }

    method StartOwnTurn(event: EventCorrelation) returns (turn: TurnId)
      requires scheduler.Model().Valid()
      modifies scheduler
      ensures scheduler.Model() == TurnStarted(old(scheduler.Model()), event) && scheduler.Model().Valid()
      ensures turn == TurnId(old(scheduler.Model()).prefix, old(scheduler.Model()).turnSequence + 1)
    {
      var own := event.(sessionId := scheduler.snapshot.sessionId);
      var result := scheduler.Apply(scheduler.snapshot.revision, SchedulerEvent("asr.final", own));
      turn := result.accepted.turnId;
    }

    method ActivateLease(lease: OutputLease)
      requires lease.epoch == lease.generation
      modifies this
      ensures Model() == WithLease(old(Model()), lease)
    {
      leases := leases[lease.stream := lease];
      lastGeneration := lastGeneration[lease.stream := lease.generation];
      pending := pending - {lease.stream};
      acknowledged := acknowledged - {lease.stream};
      retained := retained - {lease.stream};
    }

    method Activate(s: StreamKey, segment: OutputSegment, target: Option<int>, event: EventCorrelation) returns (lease: OutputLease)
      requires Valid()
      modifies this, scheduler
      ensures Valid() && Model() == Step(old(Model()), Action.Activate(s, segment, target, event))
      ensures s in leases && leases[s] == lease
    {
      StepKeepsInv(Model(), Action.Activate(s, segment, target, event));
      var generation := if s in leases then leases[s].generation + 1
                        else if s in lastGeneration then lastGeneration[s] + 1 else 0;
      var turn := StartOwnTurn(event);
      lease := LeaseOf(s, turn, segment, generation, target);
      ActivateLease(lease);
    }

    method PrepareReplacement(s: StreamKey, segment: OutputSegment, turn: TurnId, correlation: Envelope)
      returns (lease: OutputLease, flush: StreamFlush)
      requires s in leases
      modifies this
      ensures Model() == Prepared(old(Model()), s, segment, turn, correlation)
      ensures s in pending && pending[s] == Replacement(old(leases)[s], lease, flush)
    {
      var active := leases[s];
      lease := LeaseOf(s, turn, segment, active.generation + 1, None);
      lastGeneration := lastGeneration[s := lease.generation];
      flushSequence := flushSequence + 1;
      flush := FlushFor(active, lease.epoch, flushSequence, correlation);
      pending := pending[s := Replacement(active, lease, flush)];
      retained := retained - {s};
    }

    method InterruptStream(s: StreamKey, segment: OutputSegment, event: EventCorrelation, correlation: Envelope)
      returns (prepared: Option<Replacement>)
      requires Valid()
      modifies this, scheduler
      ensures Valid() && Model() == Step(old(Model()), Interrupt(s, segment, event, correlation))
      ensures prepared == if s in old(leases) then Some(pending[s]) else None
    {
      StepKeepsInv(Model(), Interrupt(s, segment, event, correlation));
      if s !in leases {
        return None;
      }
      var turn := StartOwnTurn(event);
      var lease, flush := PrepareReplacement(s, segment, turn, correlation);
      return Some(pending[s]);
    }

    method ActivateForTurnNow(s: StreamKey, segment: OutputSegment, turn: TurnId) returns (lease: Option<OutputLease>)
      requires Valid()
      modifies this
      ensures Valid() && Model() == Step(old(Model()), ActivateForTurn(s, segment, turn))
      ensures lease.Some? <==> scheduler.snapshot.activeTurn == Some(turn)
      ensures lease.Some? ==> s in leases && leases[s] == lease.value
    {
      StepKeepsInv(Model(), ActivateForTurn(s, segment, turn));
      if scheduler.snapshot.activeTurn != Some(turn) {
        return None;
      }
      var generation := if s in leases then leases[s].generation + 1
                        else if s in lastGeneration then lastGeneration[s] + 1 else 0;
      var granted := LeaseOf(s, turn, segment, generation, None);
      ActivateLease(granted);
      return Some(granted);
    }

    method InterruptStreamForTurn(s: StreamKey, segment: OutputSegment, turn: TurnId, correlation: Envelope)
      returns (prepared: Option<Replacement>)
      requires Valid()
      modifies this
      ensures Valid() && Model() == Step(old(Model()), InterruptForTurn(s, segment, turn, correlation))
      ensures prepared.Some? <==> s in old(leases) && scheduler.snapshot.activeTurn == Some(turn)
      ensures prepared.Some? ==> s in pending && pending[s] == prepared.value && prepared.value.previous == old(leases)[s]
    {
      StepKeepsInv(Model(), InterruptForTurn(s, segment, turn, correlation));
      if scheduler.snapshot.activeTurn != Some(turn) || s !in leases {
        return None;
      }
      var lease, flush := PrepareReplacement(s, segment, turn, correlation);
      return Some(pending[s]);
    }

    method AcknowledgeFlush(ack: FlushAck) returns (switched: bool)
      requires Valid()
      modifies this
      ensures Valid() && Model() == Step(old(Model()), Acknowledge(ack)) && switched == AckMatches(old(Model()), ack)
    {
      StepKeepsInv(Model(), Acknowledge(ack));
      if ack.stream !in pending || ack != FromFlush(pending[ack.stream].flush, Applied) {
        return false;
      }
      var matched := pending[ack.stream];
      leases := leases[ack.stream := matched.lease];
      pending := pending - {ack.stream};
      acknowledged := acknowledged[ack.stream := matched];
      return true;
    }

    method AbandonReplacement(s: StreamKey) returns (abandoned: bool)
      requires Valid()
      modifies this
      ensures Valid() && Model() == Step(old(Model()), Abandon(s))
      ensures abandoned == (s in old(pending) || s in old(acknowledged))
    {
      StepKeepsInv(Model(), Abandon(s));
      if s in pending {
        pending := pending - {s};
        return true;
      }
      if s !in acknowledged {
        return false;
      }
      var closed := acknowledged[s];
      acknowledged := acknowledged - {s};
      if s in leases && leases[s] == closed.lease {
        leases := leases[s := closed.previous];
        retained := retained[s := closed.previous];
      }
      return true;
    }

    method CommitReplacement(s: StreamKey, epoch: int) returns (committed: bool)
      requires Valid()
      modifies this
      ensures Valid() && Model() == Step(old(Model()), Commit(s, epoch)) && committed == CommitMatches(old(Model()), s, epoch)
    {
      StepKeepsInv(Model(), Commit(s, epoch));
      if s !in acknowledged || acknowledged[s].lease.epoch != epoch || s !in leases || leases[s] != acknowledged[s].lease {
        return false;
      }
      acknowledged := acknowledged - {s};
      retained := retained - {s};
      return true;
    }

    method FinishStream(s: StreamKey, turn: Option<TurnId>, segment: Option<OutputSegment>, epoch: Option<int>) returns (released: bool)
      requires Valid()
      modifies this
      ensures Valid() && Model() == Step(old(Model()), Finish(s, turn, segment, epoch))
      ensures released == FinishMatches(old(Model()), s, turn, segment, epoch)
    {
      StepKeepsInv(Model(), Finish(s, turn, segment, epoch));
      if || s !in leases || s in pending
         || (turn.Some? && turn.value != leases[s].turnId)
         || (segment.Some? && segment.value != leases[s].segmentId)
         || epoch != Some(leases[s].epoch) {
        return false;
      }
      leases := leases - {s};
      retained := retained - {s};
      return true;
    }

    method RetainPlayback()
      requires Valid()
      modifies this
      ensures Valid() && Model() == Step(old(Model()), Retain)
    {
      StepKeepsInv(Model(), Retain);
      retained := retained + leases;
    }

    method RevokeStream(s: StreamKey)
      requires Valid()
      modifies this
      ensures Valid() && Model() == Step(old(Model()), Revoke(s))
    {
      StepKeepsInv(Model(), Revoke(s));
      leases, pending := leases - {s}, pending - {s};
      acknowledged, retained := acknowledged - {s}, retained - {s};
    }

    method CanEmitNow(s: StreamKey, epoch: int) returns (allowed: bool)
      ensures allowed == CanEmit(Model(), s, epoch)
    {
      if s !in leases {
        return false;
      }
      if s in pending {
        return epoch == pending[s].previous.epoch;
      }
      if s in retained && retained[s] == leases[s] {
        return epoch == leases[s].epoch;
      }
      return epoch == leases[s].epoch && scheduler.snapshot.activeTurn == Some(leases[s].turnId);
    }
  }
}
