/**
 * src/orchestrator/scheduler_runtime.py: which answer each call of the audience queue gets, and exactly when
 * one of them starts a turn.
 */
module AudienceEffects {
  import opened AudienceQueues

  /** The item under evaluation may start its turn: nothing of what it was judged against has changed. */
  predicate MayStart(s: State, action: Action) {
    && action == Evaluation(Proposed(true, true)) && s.worker.Evaluating? && !s.ended
    && s.worker.item.correlation !in s.started
  }

  /** A turn starts exactly when a proposal is current and scheduled, in a running session, for a correlation without one. */
  lemma TurnsStartExactly(s: State, action: Action)
    ensures var t := Step(s, action);
            if MayStart(s, action)
            then t.turns == s.turns + [s.worker.item.correlation] && t.started == s.started + {s.worker.item.correlation}
            else t.turns == s.turns && t.started == s.started
  {
    hide Endings;
  }

  /** Over runs: the turns are those of the steps that may start one, in order. */
  function TurnsOf(s: State, actions: seq<Action>): seq<Correlation> {
    if actions == [] then []
    else
      var before, last := Run(s, actions[..|actions| - 1]), actions[|actions| - 1];
      TurnsOf(s, actions[..|actions| - 1])
      + if MayStart(before, last) && before.worker.Evaluating? then [before.worker.item.correlation] else []
  }

  lemma {:induction false} RunStartsExactly(s: State, actions: seq<Action>)
    ensures Run(s, actions).turns == s.turns + TurnsOf(s, actions)
    decreases |actions|
  {
    hide Step, MayStart;
    if actions != [] {
      var front, last := actions[..|actions| - 1], actions[|actions| - 1];
      RunStartsExactly(s, front);
      TurnsStartExactly(Run(s, front), last);
      assert MayStart(Run(s, front), last) ==> Run(s, front).worker.Evaluating? by { MayStartIsEvaluating(Run(s, front), last); }
    }
  }

  lemma MayStartIsEvaluating(s: State, action: Action)
    ensures MayStart(s, action) ==> s.worker.Evaluating?
  {
  }

  /** The next item for the worker. */
  function Head(s: State): Item
    requires s.voices != [] || s.comments != []
  {
    if s.voices != [] then s.voices[0] else s.comments[0]
  }

  predicate Waits(s: State) {
    s.voices != [] || s.comments != []
  }

  /** Which answers a step gives, and to whom. */
  predicate Answers(s: State, action: Action, ticket: nat, reason: Reason) {
    match action
    case Offering(source, correlation, prebrain) =>
      if s.ended then (ticket, reason) == (s.offers, SessionEnded)
      else if correlation in s.started || correlation in s.pending then (ticket, reason) == (s.offers, Duplicate)
      else if prebrain then (ticket, reason) == (s.offers, Prebrain)
      else if |s.voices| + |s.comments| < 16 then false
      else if source == Comment || s.comments == [] then (ticket, reason) == (s.offers, QueueFull)
      else (ticket, reason) == (s.comments[0].ticket, Evicted)
    case Taking(valid) =>
      s.worker == Woken && Waits(s) && (s.ended || !valid) && (ticket, reason) == (Head(s).ticket, Stale)
    case Evaluation(verdict) =>
      && s.worker.Evaluating? && ticket == s.worker.item.ticket
      && (match verdict
          case CandidateCancelled => s.ended && reason == SessionEnded
          case Refused => reason == Declined
          case Proposed(current, scheduled) =>
            reason == if s.ended || !current || s.worker.item.correlation in s.started then Stale
                      else if scheduled then Started else Declined)
    case Ending =>
      !s.ended && reason == SessionEnded && exists item <- s.voices + s.comments :: item.ticket == ticket
  }

  /** The answers of a step are these, and no earlier answer changes. */
  lemma AnswersAreExact(s: State, action: Action)
    requires |s.voices| + |s.comments| <= 16
    ensures var log := Step(s, action).log;
            && |s.log| <= |log| && log[..|s.log|] == s.log
            && forall ticket: nat, reason :: Resolution(ticket, reason) in log[|s.log|..] <==> Answers(s, action, ticket, reason)
  {
    if action.Ending? && !s.ended {
      EndingAnswers(s);
    } else {
      hide Endings;
      var log := Step(s, action).log;
      assert log == s.log || exists r :: log == s.log + [r] by { OneAnswer(s, action); }
    }
  }

  lemma OneAnswer(s: State, action: Action)
    requires !action.Ending? || s.ended
    ensures Step(s, action).log == s.log || exists r :: Step(s, action).log == s.log + [r]
  {
    hide Endings;
  }

  lemma EndingAnswers(s: State)
    requires !s.ended
    ensures var log := End(s).log;
            && |s.log| <= |log| && log[..|s.log|] == s.log
            && forall ticket: nat, reason :: Resolution(ticket, reason) in log[|s.log|..] <==> Answers(s, Ending, ticket, reason)
  {
    var all := s.voices + s.comments;
    assert Endings(all) == Endings(s.voices) + Endings(s.comments);
    assert End(s).log == s.log + Endings(all);
    assert End(s).log[|s.log|..] == Endings(all);
    forall ticket: nat, reason ensures Resolution(ticket, reason) in Endings(all) <==> Answers(s, Ending, ticket, reason) {
      if Resolution(ticket, reason) in Endings(all) {
        var i :| 0 <= i < |all| && Endings(all)[i] == Resolution(ticket, reason);
        assert all[i] in all && all[i].ticket == ticket;
      }
      if Answers(s, Ending, ticket, reason) {
        var item :| item in all && item.ticket == ticket;
        var i :| 0 <= i < |all| && all[i] == item;
        assert Endings(all)[i] == Resolution(ticket, reason);
      }
    }
  }

  /** What a call does to the queues. */
  lemma OfferingDoes(s: State, source: Source, correlation: Correlation, prebrain: bool)
    requires |s.voices| + |s.comments| <= 16
    ensures var t, item := Step(s, Offering(source, correlation, prebrain)), Item(s.offers, source, correlation);
            var full := |s.voices| + |s.comments| == 16;
            && t.offers == s.offers + 1 && t.ended == s.ended
            && (if Queues(s, source, correlation, prebrain)
                then && t.voices == s.voices + (if source == Voice then [item] else [])
                     && t.comments == (if full then s.comments[1..] else s.comments) + (if source == Comment then [item] else [])
                     && t.pending == s.pending + {correlation} - (if full then {s.comments[0].correlation} else {})
                     && t.worker != Idle && (s.worker != Idle ==> t.worker == s.worker)
                else t.voices == s.voices && t.comments == s.comments && t.pending == s.pending && t.worker == s.worker)
  {
    hide Endings;
  }

  /** The worker takes the head of the queue, and evaluates it only while it is valid and the session runs. */
  lemma TakingDoes(s: State, valid: bool)
    requires s.worker == Woken
    ensures var t := Step(s, Taking(valid));
            if !Waits(s) then t == s.(worker := Idle)
            else && t.voices == (if s.voices != [] then s.voices[1..] else [])
                 && t.comments == (if s.voices != [] then s.comments else s.comments[1..])
                 && (if valid && !s.ended then t.worker == Evaluating(Head(s)) && t.pending == s.pending
                     else t.worker == Woken && t.pending == s.pending - {Head(s).correlation})
  {
  }

  /** After an evaluation the worker looks again, unless it was cancelled under way; its correlation is free again. */
  lemma EvaluatingDoes(s: State, verdict: Verdict)
    requires s.worker.Evaluating?
    ensures var t := Step(s, Evaluation(verdict));
            && t.voices == s.voices && t.comments == s.comments && t.pending == s.pending - {s.worker.item.correlation}
            && t.worker == if verdict == CandidateCancelled && !s.ended then Idle else Woken
  {
  }

  /** The end empties the queue, and nothing is queued after it. */
  lemma EndingDoes(s: State)
    ensures var t := Step(s, Ending);
            if s.ended then t == s
            else t.ended && !Waits(t) && t.pending == {} && (s.worker.Evaluating? <==> t.worker.Evaluating?)
                 && (!s.worker.Evaluating? ==> t.worker == Idle)
  {
    hide Endings;
  }
}
