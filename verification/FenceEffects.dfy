/**
 * src/orchestrator/scheduler_reflex.py: what Sound hears of each method of the fence, as the one epoch a
 * stream may emit before and after it.
 */
module FenceEffects {
  import opened Common
  import opened Sessions
  import opened StreamingContracts
  import opened OutputFence

  /** The epoch a stream may emit, if any. */
  function Audible(f: Fence, s: StreamKey): Option<int> {
    if s !in f.leases then None
    else if s in f.pending then Some(f.pending[s].previous.epoch)
    else if (s in f.retained && f.retained[s] == f.leases[s]) || f.scheduler.snapshot.activeTurn == Some(f.leases[s].turnId)
    then Some(f.leases[s].epoch)
    else None
  }

  lemma AudibleIsWhatMayEmit(f: Fence, s: StreamKey, epoch: int)
    ensures CanEmit(f, s, epoch) <==> Audible(f, s) == Some(epoch)
  {
  }

  /** Whether a playback was kept alive through `retain_playback`. */
  predicate Kept(f: Fence, s: StreamKey) {
    s in f.leases && s in f.retained && f.retained[s] == f.leases[s]
  }

  predicate StartsTurn(f: Fence, action: Action) {
    action.Activate? || action.NewTurn? || (action.Interrupt? && action.stream in f.leases)
  }

  /** A step of another stream that starts no turn and retains nothing is not heard. */
  lemma OthersAreNotHeard(f: Fence, action: Action, s: StreamKey)
    requires f.scheduler.Valid() && Target(action) != Some(s) && !StartsTurn(f, action) && !action.Retain?
    ensures Audible(Step(f, action), s) == Audible(f, s)
  {
    hide AckMatches, FinishMatches, CommitMatches, TurnStarted, NextGeneration;
    SchedulerMovesOn(f, action);
    StepIsLocal(f, action, s);
    RetainedIsLocal(f, action, s);
  }

  lemma RetainedIsLocal(f: Fence, action: Action, s: StreamKey)
    requires Target(action) != Some(s) && !action.Retain?
    ensures s in Step(f, action).retained <==> s in f.retained
    ensures s in f.retained ==> Step(f, action).retained[s] == f.retained[s]
  {
    hide AckMatches, FinishMatches, CommitMatches, TurnStarted, NextGeneration;
  }

  /** A new turn silences every stream but those in a cutover, which keep their old epoch, and those retained. */
  lemma NewTurnsSilence(f: Fence, action: Action, s: StreamKey)
    requires TurnsAreOpened(f) && Target(action) != Some(s) && StartsTurn(f, action)
    ensures Audible(Step(f, action), s) ==
            if s in f.leases && s in f.pending then Some(f.pending[s].previous.epoch)
            else if Kept(f, s) then Some(f.leases[s].epoch) else None
  {
    hide AckMatches, FinishMatches, CommitMatches, TurnStarted, NextGeneration;
    SchedulerMovesOn(f, action);
    StepIsLocal(f, action, s);
    RetainedIsLocal(f, action, s);
    assert OpenedAt(f, s);
  }

  /** Retained playback goes on, on every stream, through any number of new turns. */
  lemma {:induction false} RetainedPlaybackGoesOn(f: Fence, events: seq<EventCorrelation>, s: StreamKey)
    requires s in f.leases && s !in f.pending
    ensures Audible(TurnsAfter(Step(f, Retain), events), s) == Some(f.leases[s].epoch)
    ensures Kept(TurnsAfter(Step(f, Retain), events), s) && TurnsAfter(Step(f, Retain), events).leases == f.leases
    ensures TurnsAfter(Step(f, Retain), events).pending == f.pending
  {
    if events != [] {
      RetainedPlaybackGoesOn(f, events[..|events| - 1], s);
    }
  }

  function TurnsAfter(f: Fence, events: seq<EventCorrelation>): Fence {
    if events == [] then f else Step(TurnsAfter(f, events[..|events| - 1]), NewTurn(events[|events| - 1]))
  }

  /** An activation is heard at once, under a turn of its own, with the next generation of the stream. */
  lemma ActivationIsHeard(f: Fence, s: StreamKey, segment: OutputSegment, target: Option<int>, event: EventCorrelation)
    requires f.scheduler.Valid()
    ensures var f' := Step(f, Activate(s, segment, target, event));
            var generation := if s in f.leases then f.leases[s].generation + 1
                              else if s in f.lastGeneration then f.lastGeneration[s] + 1 else 0;
            && Audible(f', s) == Some(generation) && s in f'.leases
            && f'.leases[s] == OutputLease(s, TurnId(f.scheduler.prefix, f.scheduler.turnSequence + 1), segment, generation, generation,
                                           if target.Some? then Given(target.value) else Derived(s, generation))
            && s !in f'.pending && s !in f'.acknowledged
  {
    hide TurnStarted;
    SchedulerMovesOn(f, Activate(s, segment, target, event));
  }

  /** One for an accepted turn is heard exactly when that turn is the active one, and otherwise changes nothing. */
  lemma ActivationForATurnIsHeard(f: Fence, s: StreamKey, segment: OutputSegment, turn: TurnId)
    ensures var f' := Step(f, ActivateForTurn(s, segment, turn));
            var generation := if s in f.leases then f.leases[s].generation + 1
                              else if s in f.lastGeneration then f.lastGeneration[s] + 1 else 0;
            if f.scheduler.snapshot.activeTurn != Some(turn) then f' == f
            else Audible(f', s) == Some(generation) && s in f'.leases
                 && f'.leases[s] == OutputLease(s, turn, segment, generation, generation, Derived(s, generation))
                 && s !in f'.pending && s !in f'.acknowledged
  {
  }

  /** What is prepared, and the flush that announces it: addressed to the old lease, naming the new epoch. */
  ghost predicate Prepares(f: Fence, f': Fence, s: StreamKey, segment: OutputSegment, turn: TurnId, correlation: Envelope)
    requires s in f.leases
  {
    var old_, epoch := f.leases[s], f.leases[s].generation + 1;
    && s in f'.pending && f'.leases == f.leases && s !in f'.retained
    && f'.pending[s] == Replacement(
         old_, OutputLease(s, turn, segment, epoch, epoch, Derived(s, epoch)),
         StreamFlush(old_.stream, old_.turnId, old_.segmentId, epoch, FlushRequestId(s, f.flushSequence + 1), old_.target,
                     CONTRACT_VERSION, Some(correlation)))
    && f'.flushSequence == f.flushSequence + 1
  }

  /** A preparation is not heard: the old epoch goes on until Sound acknowledges, whatever the active turn. */
  lemma PreparingIsNotHeard(f: Fence, s: StreamKey, segment: OutputSegment, turn: TurnId, event: EventCorrelation, correlation: Envelope)
    requires f.scheduler.Valid() && InvAt(f, s)
    ensures var f' := Step(f, Interrupt(s, segment, event, correlation));
            if s !in f.leases then f' == f
            else Audible(f', s) == Some(f.leases[s].epoch)
                 && Prepares(f, f', s, segment, TurnId(f.scheduler.prefix, f.scheduler.turnSequence + 1), correlation)
    ensures var f' := Step(f, InterruptForTurn(s, segment, turn, correlation));
            if s !in f.leases || f.scheduler.snapshot.activeTurn != Some(turn) then f' == f
            else Audible(f', s) == Some(f.leases[s].epoch) && Prepares(f, f', s, segment, turn, correlation)
                 && f'.scheduler == f.scheduler
  {
    hide TurnStarted;
    SchedulerMovesOn(f, Interrupt(s, segment, event, correlation));
  }

  /** The exact acknowledgement makes the prepared lease the one in force; any other changes nothing. */
  lemma AcknowledgementSwitches(f: Fence, ack: FlushAck)
    ensures var s, f' := ack.stream, Step(f, Acknowledge(ack));
            if s in f.pending && ack == FromFlush(f.pending[s].flush, Applied)
            then && f' == f.(leases := f.leases[s := f.pending[s].lease], pending := f.pending - {s},
                             acknowledged := f.acknowledged[s := f.pending[s]])
                 && (f.scheduler.snapshot.activeTurn == Some(f.pending[s].lease.turnId) ==>
                       Audible(f', s) == Some(f.pending[s].lease.epoch))
            else f' == f
  {
  }

  /** A commit of the acknowledged epoch keeps its lease and closes the exchange; any other changes nothing. */
  lemma CommitCloses(f: Fence, s: StreamKey, epoch: int)
    ensures var f' := Step(f, Commit(s, epoch));
            if s in f.acknowledged && s in f.leases && f.leases[s] == f.acknowledged[s].lease && epoch == f.leases[s].epoch
            then f' == f.(acknowledged := f.acknowledged - {s}, retained := f.retained - {s})
            else f' == f
  {
  }

  /** Abandoning drops what is only prepared, and leads back to the old lease, kept alive, from what was switched to. */
  lemma AbandonLeadsBack(f: Fence, s: StreamKey)
    ensures var f' := Step(f, Abandon(s));
            if s in f.pending then f' == f.(pending := f.pending - {s})
            else if s in f.acknowledged && s in f.leases && f.leases[s] == f.acknowledged[s].lease then
              && f'.leases == f.leases[s := f.acknowledged[s].previous] && Audible(f', s) == Some(f.acknowledged[s].previous.epoch)
              && Kept(f', s) && s !in f'.acknowledged
            else f' == f.(acknowledged := f.acknowledged - {s})
  {
  }

  /** A revoked stream is silent and in no exchange; only its generations are remembered. */
  lemma RevocationSilences(f: Fence, s: StreamKey)
    ensures var f' := Step(f, Revoke(s));
            && Audible(f', s) == None && s !in f'.pending && s !in f'.acknowledged && s !in f'.retained
            && f'.lastGeneration == f.lastGeneration && f'.scheduler == f.scheduler
  {
  }

  /** What a finished report says of a lease; the epoch is not optional. */
  predicate Names(lease: OutputLease, turn: Option<TurnId>, segment: Option<OutputSegment>, epoch: Option<int>) {
    && epoch == Some(lease.epoch) && turn in {None, Some(lease.turnId)} && segment in {None, Some(lease.segmentId)}
  }

  /**
   * A finished report releases the lease in force exactly when it names it and no cutover waits on the
   * stream; the stream is silent then, and no other is touched. Any other report changes nothing.
   */
  lemma FinishReleasesExactly(f: Fence, s: StreamKey, turn: Option<TurnId>, segment: Option<OutputSegment>, epoch: Option<int>)
    requires f.scheduler.Valid()
    ensures var f' := Step(f, Finish(s, turn, segment, epoch));
            if s in f.leases && s !in f.pending && Names(f.leases[s], turn, segment, epoch)
            then && s !in f'.leases && s !in f'.retained && Audible(f', s) == None
                 && f' == f.(leases := f'.leases, retained := f'.retained)
                 && forall other :: other != s ==> Audible(f', other) == Audible(f, other)
            else f' == f
  {
    hide Audible;
    var action := Finish(s, turn, segment, epoch);
    assert Audible(Step(f, action), s) == None || Step(f, action) == f by { FinishedIsSilent(f, s, turn, segment, epoch); }
    forall other | other != s ensures Audible(Step(f, action), other) == Audible(f, other) {
      OthersAreNotHeard(f, action, other);
    }
  }

  lemma FinishedIsSilent(f: Fence, s: StreamKey, turn: Option<TurnId>, segment: Option<OutputSegment>, epoch: Option<int>)
    ensures Audible(Step(f, Finish(s, turn, segment, epoch)), s) == None || Step(f, Finish(s, turn, segment, epoch)) == f
  {
  }

  /** Sound's report on a lease. */
  function ReportOf(lease: OutputLease): Action {
    Finish(lease.stream, Some(lease.turnId), Some(lease.segmentId), Some(lease.epoch))
  }

  /** A late report of any lease of a run releases nothing once another turn, segment or epoch is in force, or none. */
  lemma LateReportsChangeNothing(f: Fence, actions: seq<Action>, i: nat, s: StreamKey)
    requires Inv(f) && i <= |actions| && s in Run(f, actions[..i]).leases
    ensures var lease, end := Run(f, actions[..i]).leases[s], Run(f, actions);
            && lease.stream == s
            && (Step(end, ReportOf(lease)) != end ==>
                  && s in end.leases && end.leases[s].turnId == lease.turnId
                  && end.leases[s].segmentId == lease.segmentId && end.leases[s].epoch == lease.epoch)
  {
    hide Run, Inv, Step;
    assert InvAt(Run(f, actions[..i]), s) by { InvEverywhere(Run(f, actions[..i]), s); }
    var lease := Run(f, actions[..i]).leases[s];
    FinishNeedsItsNames(Run(f, actions), s, Some(lease.turnId), Some(lease.segmentId), Some(lease.epoch));
  }

  lemma FinishNeedsItsNames(f: Fence, s: StreamKey, turn: Option<TurnId>, segment: Option<OutputSegment>, epoch: Option<int>)
    ensures Step(f, Finish(s, turn, segment, epoch)) != f ==> s in f.leases && Names(f.leases[s], turn, segment, epoch)
  {
  }

  /** So after a committed cutover the report of the old reply leaves the new one audible. */
  lemma OldReportsSpareTheNewReply(f: Fence, s: StreamKey, epoch: int)
    requires Inv(f) && CommitMatches(f, s, epoch)
    ensures var committed := Step(f, Commit(s, epoch));
            Step(committed, ReportOf(f.acknowledged[s].previous)) == committed
  {
    assert InvAt(f, s) by { InvEverywhere(f, s); }
  }
}
