/** src/orchestrator/transport_hub.py: one flush exchange with Sound, from the prepared replacement to its end. */
module Cutover {
  import opened Common
  import opened Sessions
  import opened StreamingContracts
  import opened OutputFence

  /** How an await ends; while it is suspended the rest of the process performs `meanwhile` on the fence. */
  datatype Await = Await(meanwhile: seq<Action>, ending: Ending)

  datatype Ending = Returns | TaskCancelled | TransportFails

  /** The outcomes of `_admit_replacement_if_current`: its second currency check, the callback, the reducer. */
  datatype Admission = Admission(current: bool, callback: Await, admitted: bool, completed: bool)

  /** One turn of the polling loop, taken before the deadline. */
  datatype Poll = Poll(current: bool, admission: Admission, pause: Await)

  /** Everything an exchange meets; `polls` ends where the three-second deadline falls. */
  datatype Script = Script(current: bool, request: Await, polls: seq<Poll>)

  /** What the caller gets: the epoch, nothing, or the cancellation raised again. */
  datatype ExchangeResult = Switched(epoch: int) | Kept | Reraised

  /** The two ways Sound or the hub may take a stream away. */
  predicate Releases(action: Action, s: StreamKey) {
    Target(action) == Some(s) && (action.Revoke? || action.Finish?)
  }

  predicate Released(trace: seq<Action>, s: StreamKey) {
    exists i :: 0 <= i < |trace| && Releases(trace[i], s)
  }

  /** The same replacement of the same lease; the flush that announces it may be another. */
  predicate Like(other: Replacement, r: Replacement) {
    other.lease == r.lease && other.previous == r.previous
  }

  /**
   * The exchange of `r` is where it belongs: prepared, acknowledged, undone, or without its stream.
   */
  ghost predicate Intact(f: Fence, s: StreamKey, r: Replacement, released: bool) {
    && r.previous.epoch == r.previous.generation && r.lease.epoch == r.lease.generation == r.previous.generation + 1
    && s in f.lastGeneration && f.lastGeneration[s] == r.lease.generation
    && (if s !in f.leases then released && s !in f.pending
        else if s in f.pending then Like(f.pending[s], r) && f.leases[s] == r.previous
        else if s in f.acknowledged then Like(f.acknowledged[s], r) && f.leases[s] == r.lease
        else f.leases[s] == r.previous)
  }

  /** How an exchange may leave the fence. */
  ghost predicate Closed(f: Fence, s: StreamKey, r: Replacement, released: bool, result: ExchangeResult) {
    && s !in f.pending
    && (result.Switched? ==>
        s in f.leases && f.leases[s] == r.lease && s !in f.acknowledged && result.epoch == r.lease.epoch)
    && (!result.Switched? ==> (s in f.leases && f.leases[s] == r.previous) || (released && s !in f.leases))
  }

  /** Whichever of its two ends the exchange comes to now, it leaves the fence closed. */
  ghost predicate ClosesNow(f: Fence, s: StreamKey, r: Replacement, released: bool) {
    && Closed(Step(f, Abandon(s)), s, r, released, Kept)
    && (CanEmit(f, s, r.lease.epoch) && CommitMatches(f, s, r.lease.epoch) ==>
          Closed(Step(f, Commit(s, r.lease.epoch)), s, r, released, Switched(r.lease.epoch)))
  }

  /** The same, now and after any one acknowledgement. */
  ghost predicate EndsWell(f: Fence, s: StreamKey, r: Replacement, released: bool) {
    && ClosesNow(f, s, r, released)
    && forall ack :: ClosesNow(Step(f, Acknowledge(ack)), s, r, released)
  }

  /**
   * The guard of a step in between: it issues a generation on the stream, unless by preparing the very same
   * replacement again; it commits what this exchange has switched to; or it abandons while an earlier
   * exchange of the stream is still open as well.
   */
  predicate Disturbs(f: Fence, action: Action, s: StreamKey, r: Replacement) {
    || (Issue(f, action, s).Some? && !(s in Step(f, action).pending && Like(Step(f, action).pending[s], r)))
    || (Target(action) == Some(s) && action.Commit? && CommitMatches(f, s, action.epoch) && s !in f.pending)
    || (Target(action) == Some(s) && action.Abandon? && s in f.pending && s in f.acknowledged)
  }

  lemma StepKeepsIntact(f: Fence, action: Action, s: StreamKey, r: Replacement, released: bool)
    requires InvAt(f, s) && Intact(f, s, r, released) && !Disturbs(f, action, s, r)
    ensures Intact(Step(f, action), s, r, released || Releases(action, s))
  {
    MarkFollowsIssue(f, action, s);
    if Target(action) != Some(s) {
      StepIsLocal(f, action, s);
    }
  }

  lemma IntactEndsWell(f: Fence, s: StreamKey, r: Replacement, released: bool)
    requires InvAt(f, s) && Intact(f, s, r, released)
    ensures EndsWell(f, s, r, released)
  {
    IntactClosesNow(f, s, r, released);
    forall ack ensures ClosesNow(Step(f, Acknowledge(ack)), s, r, released) {
      StepKeepsIntact(f, Acknowledge(ack), s, r, released);
      StepKeepsInvAt(f, Acknowledge(ack), s);
      IntactClosesNow(Step(f, Acknowledge(ack)), s, r, released);
    }
  }

  lemma IntactClosesNow(f: Fence, s: StreamKey, r: Replacement, released: bool)
    requires InvAt(f, s) && Intact(f, s, r, released)
    ensures ClosesNow(f, s, r, released)
  {
  }

  /** A lease two generations on, or the replacement without its exchange: neither end restores the old one. */
  lemma ActivatingBreaks(f: Fence, action: Action, s: StreamKey, r: Replacement, released: bool)
    requires InvAt(f, s) && Intact(f, s, r, released) && Issue(f, action, s).Some?
    requires action.Activate? || action.ActivateForTurn?
    ensures !ClosesNow(Step(f, action), s, r, released)
  {
  }

  /** Before the switch: a different replacement with the same epoch. */
  lemma PreparingAnotherBreaks(f: Fence, action: Action, s: StreamKey, r: Replacement, released: bool)
    requires InvAt(f, s) && Intact(f, s, r, released) && Disturbs(f, action, s, r)
    requires action.Interrupt? || action.InterruptForTurn?
    requires s in f.leases && f.leases[s] == r.previous
    ensures !EndsWell(Step(f, action), s, r, released)
  {
    PreparedIsEligible(f, action, s);
    hide Issue, TurnStarted, CanEmit;
    var other := Step(f, action);
    var acked := Step(other, Acknowledge(FromFlush(other.pending[s].flush, Applied)));
    assert !ClosesNow(acked, s, r, released);
  }

  /** Behind the switch: abandoning then leads back to the replacement only. */
  lemma PreparingOverBreaks(f: Fence, action: Action, s: StreamKey, r: Replacement, released: bool)
    requires InvAt(f, s) && Intact(f, s, r, released) && Disturbs(f, action, s, r)
    requires action.Interrupt? || action.InterruptForTurn?
    requires s !in f.leases || f.leases[s] != r.previous
    ensures !EndsWell(Step(f, action), s, r, released)
  {
    PreparedIsEligible(f, action, s);
    hide TurnStarted, CanEmit, CommitMatches;
    assert !ClosesNow(Step(f, action), s, r, released);
  }

  lemma PreparingBreaks(f: Fence, action: Action, s: StreamKey, r: Replacement, released: bool)
    requires InvAt(f, s) && Intact(f, s, r, released) && Disturbs(f, action, s, r)
    requires action.Interrupt? || action.InterruptForTurn?
    ensures !EndsWell(Step(f, action), s, r, released)
  {
    hide Intact, Disturbs, EndsWell, Step;
    if s in f.leases && f.leases[s] == r.previous {
      PreparingAnotherBreaks(f, action, s, r, released);
    } else {
      PreparingOverBreaks(f, action, s, r, released);
    }
  }

  /** Once its flush is acknowledged, what was prepared may emit, and be committed, by its epoch alone. */
  lemma PreparedIsEligible(f: Fence, action: Action, s: StreamKey)
    requires InvAt(f, s) && Issue(f, action, s).Some? && (action.Interrupt? || action.InterruptForTurn?)
    ensures var other := Step(f, action);
            && s in other.pending && other.pending[s].previous == f.leases[s]
            && var acked := Step(other, Acknowledge(FromFlush(other.pending[s].flush, Applied)));
               && s in acked.leases && acked.leases[s] == other.pending[s].lease
               && CanEmit(acked, s, f.leases[s].epoch + 1) && CommitMatches(acked, s, f.leases[s].epoch + 1)
  {
  }

  lemma EndingBreaks(f: Fence, action: Action, s: StreamKey, r: Replacement, released: bool)
    requires InvAt(f, s) && Intact(f, s, r, released) && Disturbs(f, action, s, r)
    requires action.Commit? || action.Abandon?
    ensures !ClosesNow(Step(f, action), s, r, released)
  {
  }

  /**
   * The guard is exact: after a step in between, both ends of the exchange still leave the committed
   * replacement or the old lease, whatever is acknowledged, if and only if the step does not disturb it.
   */
  lemma EndsWellExactlyWhenUndisturbed(f: Fence, action: Action, s: StreamKey, r: Replacement, released: bool)
    requires Inv(f) && Intact(f, s, r, released)
    ensures EndsWell(Step(f, action), s, r, released || Releases(action, s)) <==> !Disturbs(f, action, s, r)
  {
    hide Inv, Intact, EndsWell, Step, Issue, CommitMatches;
    assert InvAt(f, s) by { InvEverywhere(f, s); }
    if !Disturbs(f, action, s, r) {
      StepKeepsIntact(f, action, s, r, released);
      StepKeepsInvAt(f, action, s);
      IntactEndsWell(Step(f, action), s, r, released || Releases(action, s));
    } else if action.Commit? || action.Abandon? {
      EndingBreaks(f, action, s, r, released);
      assert !EndsWell(Step(f, action), s, r, released) by { NotNow(Step(f, action), s, r, released); }
    } else {
      IssuersOnly(f, action, s);
      if action.Activate? || action.ActivateForTurn? {
        ActivatingBreaks(f, action, s, r, released);
        NotNow(Step(f, action), s, r, released);
      } else {
        PreparingBreaks(f, action, s, r, released);
      }
    }
  }

  lemma NotNow(f: Fence, s: StreamKey, r: Replacement, released: bool)
    requires !ClosesNow(f, s, r, released)
    ensures !EndsWell(f, s, r, released)
  {
  }

  lemma IssuersOnly(f: Fence, action: Action, s: StreamKey)
    ensures Issue(f, action, s).Some? ==>
              action.Activate? || action.ActivateForTurn? || action.Interrupt? || action.InterruptForTurn?
  {
  }

  lemma PreparingIsIntact(f: Fence, action: Action, s: StreamKey)
    requires InvAt(f, s) && Issue(f, action, s).Some? && (action.Interrupt? || action.InterruptForTurn?)
    ensures var f' := Step(f, action); s in f'.pending && Intact(f', s, f'.pending[s], false)
    ensures Step(f, action).leases == f.leases
  {
  }

  /**
   * Two replies prepare on one stream without the hub keeping them apart, and Sound acknowledges the second
   * flush. Both replacements have the epoch g + 1, so the first reply finds its epoch eligible, commits the
   * second reply's lease, and the second reply's own commit is refused.
   */
  lemma OverlappingExchangesShareAnEpoch(
    f: Fence, s: StreamKey, a: TurnId, segmentA: OutputSegment, segmentB: OutputSegment, event: EventCorrelation,
    correlation: Envelope)
    requires Inv(f) && s in f.leases && f.scheduler.snapshot.activeTurn == Some(a)
    requires a != TurnId(f.scheduler.prefix, f.scheduler.turnSequence + 1)
    ensures var b := TurnId(f.scheduler.prefix, f.scheduler.turnSequence + 1);
            var first := Step(f, InterruptForTurn(s, segmentA, a, correlation));
            var second := Step(Step(first, NewTurn(event)), InterruptForTurn(s, segmentB, b, correlation));
            && s in first.pending && s in second.pending
            && var acked := Step(second, Acknowledge(FromFlush(second.pending[s].flush, Applied)));
               var epoch := first.pending[s].lease.epoch;
               && epoch == second.pending[s].lease.epoch == f.leases[s].epoch + 1
               && first.pending[s].lease != second.pending[s].lease
               && CanEmit(acked, s, epoch) && CommitMatches(acked, s, epoch)
               && var committed := Step(acked, Commit(s, epoch));
                  && committed.leases[s] == second.pending[s].lease
                  && !CommitMatches(committed, s, epoch)
  {
    hide Inv;
    assert InvAt(f, s) by { InvEverywhere(f, s); }
    var cut := InterruptForTurn(s, segmentA, a, correlation);
    PreparingIsIntact(f, cut, s);
    var first := Step(f, cut);
    StepKeepsInvAt(f, cut, s);
    var turned := Step(first, NewTurn(event));
    StepKeepsInvAt(first, NewTurn(event), s);
    PreparedIsEligible(turned, InterruptForTurn(s, segmentB, TurnId(f.scheduler.prefix, f.scheduler.turnSequence + 1), correlation), s);
  }

  // ---------------------------------------------------------------------------------------------

  ghost predicate Undisturbed(f: Fence, trace: seq<Action>, s: StreamKey, r: Replacement)
    requires Inv(f)
    decreases |trace|
  {
    trace == [] || (
      var front, last := trace[..|trace| - 1], trace[|trace| - 1];
      Undisturbed(f, front, s, r) && !Disturbs(Run(f, front), last, s, r))
  }

  /** Where an exchange that began in `start` stands after `trace`. */
  ghost predicate Tracks(start: Fence, trace: seq<Action>, f: Fence, s: StreamKey, r: Replacement) {
    && Inv(start) && f == Run(start, trace)
    && (Undisturbed(start, trace, s, r) ==> Intact(f, s, r, Released(trace, s)))
  }

  lemma TracksOneMore(start: Fence, trace: seq<Action>, f: Fence, action: Action, s: StreamKey, r: Replacement)
    requires Tracks(start, trace, f, s, r)
    ensures Tracks(start, trace + [action], Step(f, action), s, r)
  {
    hide Inv, Intact, Disturbs, Step, Released;
    var all := trace + [action];
    assert all[..|trace|] == trace;
    ReleasedOneMore(trace, action, s);
    if Undisturbed(start, all, s, r) {
      assert InvAt(f, s) by { InvEverywhere(f, s); }
      StepKeepsIntact(f, action, s, r, Released(trace, s));
    }
  }

  lemma ReleasedOneMore(trace: seq<Action>, action: Action, s: StreamKey)
    ensures Released(trace + [action], s) <==> Released(trace, s) || Releases(action, s)
  {
    hide Releases;
    var all := trace + [action];
    forall i | 0 <= i < |trace| ensures all[i] == trace[i] { }
    assert all[|trace|] == action;
  }

  lemma TracksFromTheStart(start: Fence, s: StreamKey, r: Replacement)
    requires Inv(start) && Intact(start, s, r, false)
    ensures Tracks(start, [], start, s, r)
  {
    hide Inv;
  }

  ghost predicate EndsWellThroughout(f: Fence, trace: seq<Action>, s: StreamKey, r: Replacement)
    requires Inv(f)
    decreases |trace|
  {
    && EndsWell(Run(f, trace), s, r, Released(trace, s))
    && (trace != [] ==> EndsWellThroughout(f, trace[..|trace| - 1], s, r))
  }

  /** Over a whole exchange: it could end well at every moment exactly when nothing in between disturbed it. */
  lemma {:induction false} EndsWellThroughoutExactly(f: Fence, trace: seq<Action>, s: StreamKey, r: Replacement)
    requires Inv(f) && Intact(f, s, r, false)
    ensures EndsWellThroughout(f, trace, s, r) <==> Undisturbed(f, trace, s, r)
    ensures Tracks(f, trace, Run(f, trace), s, r)
    decreases |trace|
  {
    hide Inv, Intact, EndsWell, Step, Disturbs, Released, Releases;
    if trace == [] {
      TracksFromTheStart(f, s, r);
      assert Run(f, []) == f;
      assert !Released([], s) by { NothingReleased(s); }
      assert InvAt(f, s) by { InvEverywhere(f, s); }
      IntactEndsWell(f, s, r, false);
    } else {
      var front, last := trace[..|trace| - 1], trace[|trace| - 1];
      EndsWellThroughoutExactly(f, front, s, r);
      var before := Run(f, front);
      TracksOneMore(f, front, before, last, s, r);
      assert trace == front + [last];
      ReleasedOneMore(front, last, s);
      if Undisturbed(f, front, s, r) {
        EndsWellExactlyWhenUndisturbed(before, last, s, r, Released(front, s));
      }
    }
  }

  lemma NothingReleased(s: StreamKey)
    ensures !Released([], s)
  {
  }

  function Pauses(polls: seq<Poll>, k: nat): seq<Action>
    requires k <= |polls|
  {
    if k == 0 then [] else Pauses(polls, k - 1) + polls[k - 1].pause.meanwhile
  }

  /** What happens during an exchange that has slept through `k` polls, and then perhaps been admitted. */
  function Performed(script: Script, k: nat, admitting: bool): seq<Action>
    requires k <= |script.polls| && (admitting ==> k < |script.polls|)
  {
    if !script.current then []
    else
      script.request.meanwhile + Pauses(script.polls, k)
      + if admitting then script.polls[k].admission.callback.meanwhile else []
  }

  /** Current still, the callback returned, and the reducer took the result. */
  predicate Accepts(a: Admission) {
    a.current && a.callback.ending == Returns && a.admitted && a.completed
  }

  /** The exchange was current and undisturbed by failures until it had slept `k` times. */
  predicate Sleeps(script: Script, k: nat)
    requires k <= |script.polls|
  {
    && script.current && script.request.ending == Returns
    && forall j :: 0 <= j < k ==> script.polls[j].current && script.polls[j].pause.ending == Returns
  }

  /** An await that ended in a cancellation. */
  predicate WasCancelled(script: Script, k: nat, admitting: bool)
    requires k <= |script.polls| && (admitting ==> k < |script.polls|)
  {
    || (script.current && script.request.ending == TaskCancelled)
    || (k > 0 && script.polls[k - 1].pause.ending == TaskCancelled)
    || (admitting && script.polls[k].admission.callback.ending == TaskCancelled)
  }

  class ReplacementExchange {
    const fence: SchedulerOutputFence

    constructor (fence: SchedulerOutputFence)
      ensures this.fence == fence
    {
      this.fence := fence;
    }

    method Perform(action: Action)
      requires fence.Valid()
      modifies fence, fence.scheduler
      ensures fence.Valid() && fence.Model() == Step(old(fence.Model()), action)
    {
      match action
      case Activate(s, segment, target, event) => var _ := fence.Activate(s, segment, target, event);
      case ActivateForTurn(s, segment, turn) => var _ := fence.ActivateForTurnNow(s, segment, turn);
      case Interrupt(s, segment, event, correlation) => var _ := fence.InterruptStream(s, segment, event, correlation);
      case InterruptForTurn(s, segment, turn, correlation) => var _ := fence.InterruptStreamForTurn(s, segment, turn, correlation);
      case Revoke(s) => fence.RevokeStream(s);
      case Acknowledge(ack) => var _ := fence.AcknowledgeFlush(ack);
      case Abandon(s) => var _ := fence.AbandonReplacement(s);
      case Commit(s, epoch) => var _ := fence.CommitReplacement(s, epoch);
      case Retain => fence.RetainPlayback();
      case Finish(s, turn, segment, epoch) => var _ := fence.FinishStream(s, turn, segment, epoch);
      case NewTurn(event) =>
        StepKeepsInv(fence.Model(), action);
        var _ := fence.StartOwnTurn(event);
    }

    /** Suspends: the rest of the process runs. */
    method Suspend(a: Await, s: StreamKey, ghost start: Fence, ghost trace: seq<Action>, ghost r: Replacement)
      requires fence.Valid() && Tracks(start, trace, fence.Model(), s, r)
      modifies fence, fence.scheduler
      ensures fence.Valid() && Tracks(start, trace + a.meanwhile, fence.Model(), s, r)
    {
      hide Tracks, Inv, Step;
      assert trace + a.meanwhile[..0] == trace;
      for i := 0 to |a.meanwhile|
        invariant fence.Valid() && Tracks(start, trace + a.meanwhile[..i], fence.Model(), s, r)
      {
        TracksOneMore(start, trace + a.meanwhile[..i], fence.Model(), a.meanwhile[i], s, r);
        assert trace + a.meanwhile[..i] + [a.meanwhile[i]] == trace + a.meanwhile[..i + 1];
        Perform(a.meanwhile[i]);
      }
      assert a.meanwhile[..|a.meanwhile|] == a.meanwhile;
    }

    /** `_admit_replacement_if_current`: whether the reducer accepted, and how the callback's await ended. */
    method AdmitReplacement(a: Admission, s: StreamKey, ghost start: Fence, ghost trace: seq<Action>, ghost r: Replacement)
      returns (accepted: bool, ending: Ending)
      requires fence.Valid() && Tracks(start, trace, fence.Model(), s, r)
      modifies fence, fence.scheduler
      ensures fence.Valid()
      ensures Tracks(start, trace + if a.current then a.callback.meanwhile else [], fence.Model(), s, r)
      ensures accepted <==> Accepts(a)
      ensures ending == if a.current then a.callback.ending else Returns
    {
      hide Tracks, Inv;
      if !a.current {
        assert trace + [] == trace;
        return false, Returns;
      }
      Suspend(a.callback, s, start, trace, r);
      ending := a.callback.ending;
      accepted := ending == Returns && a.admitted && a.completed;
    }

    /**
     * `_await_replacement_flush`, whatever the rest of the process does to the fence at its awaits. However
     * it ends (switched, timed out, stale, refused, cancelled or failed in transport) it ends with its commit
     * or its abandon, and unless one of the steps in between disturbed it, with the committed replacement or
     * the lease from before in place. It sleeps while its epoch may not emit, and commits exactly if then the
     * admission is accepted and the fence allows it.
     */
    method AwaitReplacementFlush(s: StreamKey, replacement: OutputLease, script: Script, ghost r: Replacement)
      returns (result: ExchangeResult, ghost k: nat, ghost admitting: bool)
      requires fence.Valid() && r.lease == replacement && Intact(fence.Model(), s, r, false)
      modifies fence, fence.scheduler
      ensures fence.Valid() && k <= |script.polls| && (admitting ==> k < |script.polls|)
      ensures var trace := Performed(script, k, admitting);
              && fence.Model() == Step(Run(old(fence.Model()), trace),
                                       if result.Switched? then Commit(s, replacement.epoch) else Abandon(s))
              && (Undisturbed(old(fence.Model()), trace, s, r) ==>
                    Closed(fence.Model(), s, r, Released(trace, s), result))
      ensures result.Switched? ==> result.epoch == replacement.epoch && Sleeps(script, k)
      ensures result.Switched? <==>
                && admitting && script.polls[k].current && Accepts(script.polls[k].admission)
                && CommitMatches(Run(old(fence.Model()), Performed(script, k, true)), s, replacement.epoch)
      ensures admitting ==> CanEmit(Run(old(fence.Model()), Performed(script, k, false)), s, replacement.epoch)
      ensures forall j :: 0 <= j < k ==> !CanEmit(Run(old(fence.Model()), Performed(script, j, false)), s, replacement.epoch)
      ensures result.Reraised? <==> WasCancelled(script, k, admitting)
    {
      hide Tracks, Inv, Step, Intact, Closed, Undisturbed, Released, CommitMatches, CanEmit, Performed, Run;
      ghost var start := fence.Model();
      assert Inv(start) by { ValidFence(fence); }
      TracksFromTheStart(start, s, r);
      k, admitting := 0, false;
      var ending := Returns;
      var stale := !script.current;
      if script.current {
        Suspend(script.request, s, start, [], r);
        ending := script.request.ending;
      }
      assert Tracks(start, Performed(script, 0, false), fence.Model(), s, r) by { NoPolls(script); }
      var i := 0;
      while ending == Returns && !stale && i < |script.polls|
        invariant i <= |script.polls| && k == i && !admitting && (stale <==> !script.current)
        invariant fence.Valid() && Tracks(start, Performed(script, i, false), fence.Model(), s, r)
        invariant i == 0 ==> ending == if stale then Returns else script.request.ending
        invariant i > 0 ==> Sleeps(script, i - 1) && script.polls[i - 1].current && ending == script.polls[i - 1].pause.ending
        invariant forall j :: 0 <= j < i ==> !CanEmit(Run(start, Performed(script, j, false)), s, replacement.epoch)
      {
        var poll := script.polls[i];
        assert fence.Model() == Run(start, Performed(script, i, false)) by { BothEnds(start, Performed(script, i, false), fence.Model(), s, r); }
        if !poll.current {
          stale := true;
          break;
        }
        var eligible := fence.CanEmitNow(s, replacement.epoch);
        if eligible {
          var accepted;
          accepted, ending := AdmitReplacement(poll.admission, s, start, Performed(script, i, false), r);
          admitting := poll.admission.current;
          assert Performed(script, i, admitting)
              == Performed(script, i, false) + if admitting then poll.admission.callback.meanwhile else [] by { Admitting(script, i); }
          if accepted {
            BothEnds(start, Performed(script, i, admitting), fence.Model(), s, r);
            RefusedCommitStays(fence.Model(), s, replacement.epoch);
            var committed := fence.CommitReplacement(s, replacement.epoch);
            if committed {
              return Switched(replacement.epoch), k, admitting;
            }
          }
          break;
        }
        Suspend(poll.pause, s, start, Performed(script, i, false), r);
        OneMorePause(script, i);
        ending := poll.pause.ending;
        i, k := i + 1, i + 1;
      }
      result := if ending == TaskCancelled then Reraised else Kept;
      BothEnds(start, Performed(script, k, admitting), fence.Model(), s, r);
      var _ := fence.AbandonReplacement(s);
    }

    /** Performs what happens during an await that no exchange is waiting in. */
    method Sleep(a: Await)
      requires fence.Valid()
      modifies fence, fence.scheduler
      ensures fence.Valid() && fence.Model() == Run(old(fence.Model()), a.meanwhile)
    {
      hide Inv, Step;
      ghost var start := fence.Model();
      assert Inv(start) by { ValidFence(fence); }
      assert a.meanwhile[..0] == [];
      for i := 0 to |a.meanwhile|
        invariant fence.Valid() && fence.Model() == Run(start, a.meanwhile[..i])
      {
        assert a.meanwhile[..i + 1][..i] == a.meanwhile[..i];
        Perform(a.meanwhile[i]);
      }
      assert a.meanwhile[..|a.meanwhile|] == a.meanwhile;
    }

    /**
     * `allocate_onsite_response_output`: the reply gets the next generation at once, if its turn is active;
     * then the transport is told, and the rest of the process runs.
     */
    method AllocateResponseOutput(
      s: StreamKey, segment: OutputSegment, turn: TurnId, correlation: Option<Envelope>, command: Option<Await>)
      returns (result: ExchangeResult)
      requires fence.Valid()
      modifies fence, fence.scheduler
      ensures fence.Valid()
      ensures var f := old(fence.Model());
              var granted := correlation.Some? && f.scheduler.snapshot.activeTurn == Some(turn);
              && (result.Kept? <==> !granted)
              && (result.Switched? ==> result.epoch == NextGeneration(f, s))
              && (!granted ==> fence.Model() == f)
              && (granted ==>
                    var leased := Step(f, ActivateForTurn(s, segment, turn));
                    Inv(leased) && fence.Model() == Run(leased, if command.Some? then command.value.meanwhile else []))
      ensures result.Switched? && (command.Some? ==> forall i :: 0 <= i < |command.value.meanwhile| ==> Target(command.value.meanwhile[i]) != Some(s)) ==>
                s in fence.leases && fence.leases[s].epoch == result.epoch && fence.leases[s].turnId == turn
    {
      hide Inv, Step;
      ghost var f := fence.Model();
      assert Inv(f) by { ValidFence(fence); }
      StepKeepsInv(f, ActivateForTurn(s, segment, turn));
      if correlation == None {
        return Kept;
      }
      ActivatedLease(f, s, segment, turn);
      var lease := fence.ActivateForTurnNow(s, segment, turn);
      if lease == None {
        return Kept;
      }
      ghost var granted := fence.Model();
      var ending := Returns;
      if command.Some? {
        Sleep(command.value);
        ending := command.value.ending;
        if forall i :: 0 <= i < |command.value.meanwhile| ==> Target(command.value.meanwhile[i]) != Some(s) {
          RunElsewhere(granted, command.value.meanwhile, s);
        }
      }
      result := if ending == Returns then Switched(lease.value.epoch) else Reraised;
    }

    /**
     * `prepare_onsite_response_output`. On a silent stream it allocates. On a playing one the exchange is the
     * only way: whatever refuses or ends it, the stream is left with the next epoch under the reply's turn or
     * with the lease it had, unless it was taken away or the exchange disturbed. `wired` is the presence of
     * the callbacks, `refused` a scheduler that declines the flush task.
     */
    method PrepareResponseOutput(
      s: StreamKey, segment: OutputSegment, opening: OutputSegment, turn: TurnId, correlation: Option<Envelope>,
      wired: bool, refused: bool, script: Script, command: Option<Await>)
      returns (result: ExchangeResult, ghost trace: seq<Action>)
      requires fence.Valid()
      modifies fence, fence.scheduler
      ensures fence.Valid()
      ensures s !in old(fence.leases) && result.Switched? ==> result.epoch == NextGeneration(old(fence.Model()), s)
      ensures s !in old(fence.leases) && result.Kept? ==> fence.Model() == old(fence.Model())
      ensures s in old(fence.leases) && (correlation.Some? ==>
                Calm(old(fence.Model()), InterruptForTurn(s, segment, turn, correlation.value), trace, s)) ==>
                && (result.Switched? ==>
                      && s in fence.leases && s !in fence.pending && s !in fence.acknowledged
                      && fence.leases[s].epoch == result.epoch == old(fence.leases)[s].epoch + 1
                      && fence.leases[s].turnId == turn)
                && (!result.Switched? ==>
                      || (s in fence.leases && fence.leases[s] == old(fence.leases)[s])
                      || (Released(trace, s) && s !in fence.leases))
    {
      hide Step, Inv, Undisturbed, Intact, Released;
      trace := [];
      ghost var f := fence.Model();
      assert Inv(f) && InvAt(f, s) by { ValidFence(fence); InvEverywhere(f, s); }
      if s !in fence.leases {
        result := AllocateResponseOutput(s, opening, turn, correlation, command);
        return;
      }
      if correlation == None || !wired {
        return Kept, [];
      }
      ghost var cut := InterruptForTurn(s, segment, turn, correlation.value);
      PreparedForTurn(f, s, segment, turn, correlation.value);
      var prepared := fence.InterruptStreamForTurn(s, segment, turn, correlation.value);
      if prepared == None {
        return Kept, [];
      }
      if refused {
        AbandonKeepsLease(fence.Model(), s);
        var _ := fence.AbandonReplacement(s);
        return Kept, [];
      }
      ghost var k, admitting;
      result, k, admitting := AwaitReplacementFlush(s, prepared.value.lease, script, prepared.value);
      trace := Performed(script, k, admitting);
    }
  }

  /** Nothing that happens while this preparation waits disturbs it. */
  ghost predicate Calm(f: Fence, action: Action, trace: seq<Action>, s: StreamKey) {
    var start := Step(f, action);
    Inv(start) && s in start.pending ==> Undisturbed(start, trace, s, start.pending[s])
  }

  lemma {:induction false} RunElsewhere(f: Fence, actions: seq<Action>, s: StreamKey)
    requires Inv(f) && forall i :: 0 <= i < |actions| ==> Target(actions[i]) != Some(s)
    ensures SameAt(f, Run(f, actions), s)
    decreases |actions|
  {
    hide Inv, Step;
    if actions != [] {
      var front := actions[..|actions| - 1];
      RunElsewhere(f, front, s);
      StepIsLocal(Run(f, front), actions[|actions| - 1], s);
    }
  }

  lemma ActivatedLease(f: Fence, s: StreamKey, segment: OutputSegment, turn: TurnId)
    ensures var f' := Step(f, ActivateForTurn(s, segment, turn));
            if f.scheduler.snapshot.activeTurn != Some(turn) then f' == f
            else s in f'.leases && f'.leases[s].epoch == NextGeneration(f, s) && f'.leases[s].turnId == turn
  {
  }

  lemma PreparedForTurn(f: Fence, s: StreamKey, segment: OutputSegment, turn: TurnId, correlation: Envelope)
    requires s in f.leases && InvAt(f, s)
    ensures var f' := Step(f, InterruptForTurn(s, segment, turn, correlation));
            && f'.leases == f.leases
            && (f.scheduler.snapshot.activeTurn != Some(turn) ==> f' == f)
            && (f.scheduler.snapshot.activeTurn == Some(turn) ==>
                  && s in f'.pending && Intact(f', s, f'.pending[s], false) && f'.pending[s].previous == f.leases[s]
                  && f'.pending[s].lease.epoch == f.leases[s].epoch + 1 && f'.pending[s].lease.turnId == turn)
  {
  }

  lemma AbandonKeepsLease(f: Fence, s: StreamKey)
    requires s in f.pending
    ensures Step(f, Abandon(s)).leases == f.leases
  {
  }

  lemma RefusedCommitStays(f: Fence, s: StreamKey, epoch: int)
    ensures !CommitMatches(f, s, epoch) ==> Step(f, Commit(s, epoch)) == f
  {
  }

  lemma ValidFence(fence: SchedulerOutputFence)
    requires fence.Valid()
    ensures Inv(fence.Model())
  {
  }

  lemma NoPolls(script: Script)
    ensures Performed(script, 0, false) == [] + if script.current then script.request.meanwhile else []
  {
  }

  lemma Admitting(script: Script, k: nat)
    requires k < |script.polls| && script.current
    ensures Performed(script, k, true) == Performed(script, k, false) + script.polls[k].admission.callback.meanwhile
    ensures Performed(script, k, false) + [] == Performed(script, k, false)
  {
    var before := script.request.meanwhile + Pauses(script.polls, k);
    assert before + [] == before;
  }

  lemma OneMorePause(script: Script, k: nat)
    requires k < |script.polls| && script.current
    ensures Performed(script, k + 1, false) == Performed(script, k, false) + script.polls[k].pause.meanwhile
  {
    var before := script.request.meanwhile + Pauses(script.polls, k);
    assert before + [] == before && before + script.polls[k].pause.meanwhile + [] == before + script.polls[k].pause.meanwhile;
  }

  /** What an undisturbed exchange leaves behind, from here, by either of its ends. */
  lemma BothEnds(start: Fence, trace: seq<Action>, f: Fence, s: StreamKey, r: Replacement)
    requires Tracks(start, trace, f, s, r)
    ensures Inv(start) && f == Run(start, trace)
    ensures Undisturbed(start, trace, s, r) ==>
              && Closed(Step(f, Abandon(s)), s, r, Released(trace, s), Kept)
              && Closed(Step(f, Abandon(s)), s, r, Released(trace, s), Reraised)
              && (CommitMatches(f, s, r.lease.epoch) ==>
                    Closed(Step(f, Commit(s, r.lease.epoch)), s, r, Released(trace, s), Switched(r.lease.epoch)))
  {
    hide Inv, Undisturbed, Released;
    if Undisturbed(start, trace, s, r) {
      assert InvAt(f, s) by { InvEverywhere(f, s); }
      IntactClosesNow(f, s, r, Released(trace, s));
    }
  }
}
