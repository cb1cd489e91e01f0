/** src/orchestrator/agent_state.py: the phases of one stream's turn and the media effects they allow. */
module TurnCoordination {
  import opened Common

  type Turn(==, !new)

  datatype Phase =
    Idle | Queued | Reasoning | WaitingTool | Synthesizing | CutoverPending | Playing | Completed | Cancelled | Failed

  datatype Effect = StartReasoning | CancelDeliberative | StartTts | FlushSound | EmitAudio | FinishAudio

  datatype GateOutcome = Discard | Accept | Interrupt

  datatype AgentState = AgentState(
    epoch: int, phase: Phase, pendingInterrupt: bool, turn: Option<Turn>, retained: Option<Turn>)

  const INITIAL := AgentState(0, Idle, false, None, None)

  datatype Transition = Transition(state: AgentState, effects: seq<Effect>)

  datatype Call =
    | Enqueue(turn: Turn, epoch: int, replacement: bool)
    | BeginReasoning(turn: Turn, epoch: int)
    | WaitForTool(turn: Turn, epoch: int)
    | ResumeReasoning(turn: Turn, epoch: int)
    | BeginSynthesizing(turn: Turn, epoch: int)
    | AwaitCutover(turn: Turn, epoch: int)
    | PlaybackStarted(turn: Turn, epoch: int)
    | RestoreRetainedPlayback(turn: Turn, epoch: int)
    | PlaybackFinished(turn: Turn, epoch: int)
    | OutputLost(turn: Turn, epoch: int)
    | CompleteWithoutOutput(turn: Turn, epoch: int)
    | Cancel(turn: Turn, epoch: int)
    | Fail(turn: Turn, epoch: int)
    | Gate(outcome: GateOutcome)
    | ReasoningComplete(epoch: int, hasText: bool)
    | AudioReady(epoch: int)
    | FlushAcknowledged(epoch: int)
    | AudioFinished(epoch: int)
    | ProviderFailed(epoch: int)

  function Still(s: AgentState): Transition {
    Transition(s, [])
  }

  const UNFINISHED: set<Phase> := {Queued, Reasoning, WaitingTool, Synthesizing, CutoverPending}

  /** `_advance`: the exact turn and epoch, from an allowed phase, keeping the retained turn. */
  function Advance(s: AgentState, turn: Turn, epoch: int, allowed: set<Phase>, phase: Phase, effects: seq<Effect>): Transition {
    if s.turn != Some(turn) || s.epoch != epoch || s.phase !in allowed then Still(s)
    else Transition(AgentState(epoch, phase, s.pendingInterrupt, Some(turn), s.retained), effects)
  }

  function GateStep(s: AgentState, outcome: GateOutcome): Transition {
    if outcome == Discard then Still(s)
    else if outcome == Accept && (s.phase == Idle || s.phase == Failed) then
      Transition(AgentState(s.epoch, Reasoning, false, s.turn, None), [StartReasoning])
    else if outcome == Accept && (s.phase == Reasoning || s.phase == Synthesizing) then
      Transition(AgentState(s.epoch + 1, Reasoning, false, s.turn, None), [CancelDeliberative, StartReasoning])
    else if outcome == Interrupt && s.phase == Playing then
      Transition(AgentState(s.epoch + 1, Reasoning, true, None, None), [CancelDeliberative, StartReasoning])
    else Still(s)
  }

  function Step(s: AgentState, call: Call): Transition {
    match call
    case Enqueue(turn, epoch, replacement) =>
      if epoch < s.epoch then Still(s)
      else Transition(AgentState(epoch, Queued, replacement, Some(turn),
                                 if replacement && s.phase == Playing then s.turn else None), [])
    case BeginReasoning(turn, epoch) => Advance(s, turn, epoch, {Queued}, Reasoning, [StartReasoning])
    case WaitForTool(turn, epoch) => Advance(s, turn, epoch, {Reasoning}, WaitingTool, [])
    case ResumeReasoning(turn, epoch) => Advance(s, turn, epoch, {WaitingTool}, Reasoning, [])
    case BeginSynthesizing(turn, epoch) =>
      if s.turn == Some(turn) && s.epoch == epoch && s.phase == Playing then
        Transition(AgentState(epoch, Synthesizing, true, Some(turn), Some(turn)), [StartTts])
      else if s.turn == Some(turn) && s.epoch == epoch && s.phase == Completed then
        Transition(AgentState(epoch, Synthesizing, false, Some(turn), None), [StartTts])
      else Advance(s, turn, epoch, {Reasoning}, Synthesizing, [StartTts])
    case AwaitCutover(turn, epoch) => Advance(s, turn, epoch, {Synthesizing}, CutoverPending, [FlushSound])
    case PlaybackStarted(turn, epoch) =>
      if s.turn != Some(turn) || s.epoch != epoch || (s.phase != Synthesizing && s.phase != CutoverPending) then Still(s)
      else Transition(AgentState(epoch, Playing, false, Some(turn), None), [EmitAudio])
    case RestoreRetainedPlayback(turn, epoch) =>
      if s.turn != Some(turn) || s.epoch != epoch || s.phase != CutoverPending || s.retained.None? then Still(s)
      else Transition(AgentState(epoch, Playing, false, s.retained, None), [])
    case PlaybackFinished(turn, epoch) => Advance(s, turn, epoch, {Playing}, Completed, [FinishAudio])
    case OutputLost(turn, epoch) => Advance(s, turn, epoch, {Synthesizing, CutoverPending, Playing}, Failed, [])
    case CompleteWithoutOutput(turn, epoch) => Advance(s, turn, epoch, {Reasoning}, Completed, [])
    case Cancel(turn, epoch) => Advance(s, turn, epoch, UNFINISHED, Cancelled, [CancelDeliberative])
    case Fail(turn, epoch) => Advance(s, turn, epoch, UNFINISHED, Failed, [])
    case Gate(outcome) => GateStep(s, outcome)
    case ReasoningComplete(epoch, hasText) =>
      if epoch != s.epoch || s.phase != Reasoning then Still(s)
      else if !hasText then Transition(AgentState(epoch, Failed, false, None, None), [])
      else Transition(AgentState(epoch, Synthesizing, s.pendingInterrupt, s.turn, None), [StartTts])
    case AudioReady(epoch) =>
      if epoch != s.epoch || s.phase != Synthesizing then Still(s)
      else if s.pendingInterrupt then Transition(AgentState(epoch, CutoverPending, true, s.turn, None), [FlushSound])
      else Transition(AgentState(epoch, Playing, false, s.turn, None), [EmitAudio])
    case FlushAcknowledged(epoch) =>
      if epoch != s.epoch || s.phase != CutoverPending then Still(s)
      else Transition(AgentState(epoch, Playing, false, s.turn, None), [EmitAudio])
    case AudioFinished(epoch) =>
      if epoch != s.epoch || s.phase != Playing then Still(s)
      else Transition(AgentState(epoch, Completed, false, s.turn, None), [FinishAudio])
    case ProviderFailed(epoch) =>
      if epoch != s.epoch then Still(s) else Transition(AgentState(epoch, Failed, false, s.turn, None), [])
  }

  // ---------------------------------------------------------------------------------------------

  /** The call names a turn or an epoch that is not the coordinator's. `enqueue` brings its own turn, `gate` names none. */
  predicate Stale(s: AgentState, call: Call) {
    match call
    case Enqueue(_, epoch, _) => epoch < s.epoch
    case Gate(_) => false
    case ReasoningComplete(epoch, _) => epoch != s.epoch
    case AudioReady(epoch) => epoch != s.epoch
    case FlushAcknowledged(epoch) => epoch != s.epoch
    case AudioFinished(epoch) => epoch != s.epoch
    case ProviderFailed(epoch) => epoch != s.epoch
    case _ => s.turn != Some(call.turn) || call.epoch != s.epoch
  }

  /** Nineteen calls, one guard: whoever names another turn or epoch is not heard. */
  lemma StaleCallsDoNothing(s: AgentState, call: Call)
    requires Stale(s, call)
    ensures Step(s, call) == Still(s)
  {
  }

  /** Which phases may follow which; a turn may be queued from, and its provider may fail in, any phase. */
  predicate MayFollow(from: Phase, to: Phase) {
    match to
    case Idle => false
    case Queued => true
    case Reasoning => from != Completed && from != Cancelled && from != CutoverPending
    case WaitingTool => from == Reasoning
    case Synthesizing => from == Reasoning || from == Playing || from == Completed
    case CutoverPending => from == Synthesizing
    case Playing => from == Synthesizing || from == CutoverPending
    case Completed => from == Playing || from == Reasoning
    case Cancelled => from in UNFINISHED
    case Failed => true
  }

  /** What a phase change costs or yields. Going back to a retained playback starts no audio: it never stopped. */
  function EffectsOf(from: Phase, to: Phase, restored: bool): seq<Effect> {
    match to
    case Reasoning =>
      if from == WaitingTool then []
      else if from == Idle || from == Failed || from == Queued then [StartReasoning]
      else [CancelDeliberative, StartReasoning]
    case Synthesizing => [StartTts]
    case CutoverPending => [FlushSound]
    case Playing => if restored then [] else [EmitAudio]
    case Completed => if from == Playing then [FinishAudio] else []
    case Cancelled => [CancelDeliberative]
    case _ => []
  }

  /** Whoever calls, the phases form one graph, and the effects are those of the edge taken. */
  lemma PhasesDecideEffects(s: AgentState, call: Call)
    ensures var next := Step(s, call);
            || next == Still(s)
            || (&& MayFollow(s.phase, next.state.phase)
                && next.effects == EffectsOf(s.phase, next.state.phase, call.RestoreRetainedPlayback?)
                && (call.RestoreRetainedPlayback? ==> next.state.turn == s.retained && s.phase == CutoverPending)
                && (next.state.epoch > s.epoch ==> next.state.phase == Queued || next.state.phase == Reasoning))
  {
  }

  /** Where a timely call leads from each phase, if it leads anywhere. */
  function Destination(s: AgentState, call: Call): Option<Phase> {
    match s.phase
    case Idle =>
      (match call case Gate(Accept) => Some(Reasoning) case _ => None)
    case Queued =>
      (match call case BeginReasoning(_, _) => Some(Reasoning) case Cancel(_, _) => Some(Cancelled) case Fail(_, _) => Some(Failed)
       case _ => None)
    case Reasoning =>
      (match call
       case WaitForTool(_, _) => Some(WaitingTool)
       case BeginSynthesizing(_, _) => Some(Synthesizing)
       case CompleteWithoutOutput(_, _) => Some(Completed)
       case Cancel(_, _) => Some(Cancelled)
       case Fail(_, _) => Some(Failed)
       case Gate(Accept) => Some(Reasoning)
       case ReasoningComplete(_, hasText) => Some(if hasText then Synthesizing else Failed)
       case _ => None)
    case WaitingTool =>
      (match call case ResumeReasoning(_, _) => Some(Reasoning) case Cancel(_, _) => Some(Cancelled) case Fail(_, _) => Some(Failed)
       case _ => None)
    case Synthesizing =>
      (match call
       case AwaitCutover(_, _) => Some(CutoverPending)
       case PlaybackStarted(_, _) => Some(Playing)
       case OutputLost(_, _) => Some(Failed)
       case Cancel(_, _) => Some(Cancelled)
       case Fail(_, _) => Some(Failed)
       case Gate(Accept) => Some(Reasoning)
       case AudioReady(_) => Some(if s.pendingInterrupt then CutoverPending else Playing)
       case _ => None)
    case CutoverPending =>
      (match call
       case PlaybackStarted(_, _) => Some(Playing)
       case RestoreRetainedPlayback(_, _) => if s.retained.Some? then Some(Playing) else None
       case OutputLost(_, _) => Some(Failed)
       case Cancel(_, _) => Some(Cancelled)
       case Fail(_, _) => Some(Failed)
       case FlushAcknowledged(_) => Some(Playing)
       case _ => None)
    case Playing =>
      (match call
       case BeginSynthesizing(_, _) => Some(Synthesizing)
       case PlaybackFinished(_, _) => Some(Completed)
       case OutputLost(_, _) => Some(Failed)
       case Gate(Interrupt) => Some(Reasoning)
       case AudioFinished(_) => Some(Completed)
       case _ => None)
    case Completed =>
      (match call case BeginSynthesizing(_, _) => Some(Synthesizing) case _ => None)
    case Failed =>
      (match call case Gate(Accept) => Some(Reasoning) case _ => None)
    case Cancelled => None
  }

  /** In every phase a turn may be queued and its provider may fail. */
  function Leads(s: AgentState, call: Call): Option<Phase> {
    if call.Enqueue? then Some(Queued) else if call.ProviderFailed? then Some(Failed) else Destination(s, call)
  }

  /** Every call that is neither stale nor out of place takes its edge, and no other call moves anything. */
  lemma TimelyCallsMove(s: AgentState, call: Call)
    ensures var next := Step(s, call);
            if Stale(s, call) || Leads(s, call) == None then next == Still(s)
            else next.state.phase == Leads(s, call).value
                 && next.effects == EffectsOf(s.phase, next.state.phase, call.RestoreRetainedPlayback?)
  {
  }

  /** Which turn a call leaves in charge, which playback goes on beneath it, and in which epoch. */
  lemma CallsLeave(s: AgentState, call: Call)
    requires !Stale(s, call) && Leads(s, call).Some?
    ensures var t := Step(s, call).state;
            && t.turn == (match call
                          case Enqueue(turn, _, _) => Some(turn)
                          case RestoreRetainedPlayback(_, _) => s.retained
                          case Gate(Interrupt) => None
                          case ReasoningComplete(_, hasText) => if hasText then s.turn else None
                          case _ => s.turn)
            && t.retained == (match call
                              case Enqueue(_, _, replacement) => if replacement && s.phase == Playing then s.turn else None
                              case BeginSynthesizing(turn, _) =>
                                if s.phase == Playing then Some(turn) else if s.phase == Completed then None else s.retained
                              case PlaybackStarted(_, _) => None
                              case RestoreRetainedPlayback(_, _) => None
                              case Gate(_) => None
                              case ReasoningComplete(_, _) => None
                              case AudioReady(_) => None
                              case FlushAcknowledged(_) => None
                              case AudioFinished(_) => None
                              case ProviderFailed(_) => None
                              case _ => s.retained)
            && t.epoch == (match call
                           case Enqueue(_, epoch, _) => epoch
                           case Gate(Accept) => if s.phase == Reasoning || s.phase == Synthesizing then s.epoch + 1 else s.epoch
                           case Gate(Interrupt) => s.epoch + 1
                           case _ => s.epoch)
            && t.pendingInterrupt == (match call
                                      case Enqueue(_, _, replacement) => replacement
                                      case BeginSynthesizing(_, _) =>
                                        s.phase == Playing || (s.phase == Reasoning && s.pendingInterrupt)
                                      case PlaybackStarted(_, _) => false
                                      case RestoreRetainedPlayback(_, _) => false
                                      case Gate(outcome) => outcome == Interrupt
                                      case ReasoningComplete(_, hasText) => hasText && s.pendingInterrupt
                                      case AudioReady(_) => s.pendingInterrupt
                                      case FlushAcknowledged(_) => false
                                      case AudioFinished(_) => false
                                      case ProviderFailed(_) => false
                                      case _ => s.pendingInterrupt)
  {
  }

  function Count(log: seq<Effect>, effect: Effect): nat {
    multiset(log)[effect]
  }

  function Rendering(s: AgentState): nat {
    if s.phase == Synthesizing || s.phase == CutoverPending then 1 else 0
  }

  function Audible(s: AgentState): nat {
    if s.phase == Playing || s.retained.Some? then 1 else 0
  }

  /** Audio starts only from a synthesis of its own, and finishes only once per start. */
  predicate Balanced(s: AgentState, log: seq<Effect>) {
    && Count(log, EmitAudio) + Rendering(s) <= Count(log, StartTts)
    && Count(log, FinishAudio) + Audible(s) <= Count(log, EmitAudio)
    && (s.phase == Playing ==> s.retained.None?)
  }

  /** The same count for the at most two effects of one call. */
  function CountFew(effects: seq<Effect>, effect: Effect): nat {
    (if |effects| > 0 && effects[0] == effect then 1 else 0) + (if |effects| > 1 && effects[1] == effect then 1 else 0)
  }

  lemma FewEffects(effects: seq<Effect>, effect: Effect)
    requires |effects| <= 2
    ensures Count(effects, effect) == CountFew(effects, effect)
  {
    if |effects| == 1 {
      assert effects == [effects[0]];
    } else if |effects| == 2 {
      assert effects == [effects[0], effects[1]];
    }
  }

  /** One call spends what it starts with: a rendering for each audio start, an audible turn for each finish. */
  predicate PaidFor(s: AgentState, next: Transition) {
    && |next.effects| <= 2
    && CountFew(next.effects, EmitAudio) + Rendering(next.state) <= Rendering(s) + CountFew(next.effects, StartTts)
    && CountFew(next.effects, FinishAudio) + Audible(next.state) <= Audible(s) + CountFew(next.effects, EmitAudio)
    && (next.state.phase == Playing ==> next.state.retained.None?)
    && s.epoch <= next.state.epoch
  }

  lemma StepIsPaidFor(s: AgentState, call: Call)
    requires s.phase == Playing ==> s.retained.None?
    ensures PaidFor(s, Step(s, call))
  {
  }

  lemma StepKeepsBalance(s: AgentState, log: seq<Effect>, call: Call)
    requires Balanced(s, log)
    ensures Balanced(Step(s, call).state, log + Step(s, call).effects)
    ensures s.epoch <= Step(s, call).state.epoch
  {
    hide Step;
    StepIsPaidFor(s, call);
    FewEffects(Step(s, call).effects, EmitAudio);
    FewEffects(Step(s, call).effects, StartTts);
    FewEffects(Step(s, call).effects, FinishAudio);
  }

  /** Every call sequence, from a new coordinator: the state it ends in and the effects it let through. */
  function Run(calls: seq<Call>): (result: Transition)
    ensures Balanced(result.state, result.effects)
    ensures forall k :: 0 <= k <= |calls| ==> Run(calls[..k]).state.epoch <= result.state.epoch
    decreases |calls|
  {
    hide Step, Balanced;
    if calls == [] then
      assert Balanced(INITIAL, []) by { NothingIsOwed(); }
      Still(INITIAL)
    else
      var before := Run(calls[..|calls| - 1]);
      var call := calls[|calls| - 1];
      StepKeepsBalance(before.state, before.effects, call);
      assert forall k :: 0 <= k < |calls| ==> calls[..|calls| - 1][..k] == calls[..k];
      var next := Step(before.state, call);
      Transition(next.state, before.effects + next.effects)
  }

  lemma NothingIsOwed()
    ensures Balanced(INITIAL, [])
  {
  }

  /** One field, replaced whole by every call; a stale call leaves it and returns no effect. */
  class TurnCoordinator {
    var state: AgentState
    ghost var history: seq<Effect>

    ghost predicate Valid()
      reads this
    {
      Balanced(state, history)
    }

    constructor ()
      ensures Valid() && state == INITIAL && history == []
    {
      state, history := INITIAL, [];
    }

    /** `_set` */
    method Set(next: AgentState, effects: seq<Effect>) returns (transition: Transition)
      modifies this
      ensures state == next && transition == Transition(next, effects) && history == old(history) + effects
    {
      state, history := next, history + effects;
      transition := Transition(next, effects);
    }

    /** `_advance` */
    method AdvanceTo(turn: Turn, epoch: int, allowed: set<Phase>, phase: Phase, effects: seq<Effect>)
      returns (transition: Transition)
      modifies this
      ensures transition == Advance(old(state), turn, epoch, allowed, phase, effects)
      ensures state == transition.state && history == old(history) + transition.effects
    {
      if state.turn != Some(turn) || state.epoch != epoch || state.phase !in allowed {
        return Still(state);
      }
      transition := Set(AgentState(epoch, phase, state.pendingInterrupt, Some(turn), state.retained), effects);
    }

    /** One call: the state and the effects of the transition, and nothing for a stale one. */
    twostate predicate Did(call: Call, transition: Transition)
      reads this
    {
      && transition == Step(old(state), call)
      && state == transition.state && history == old(history) + transition.effects
      && old(state).epoch <= state.epoch
      && (Stale(old(state), call) ==> state == old(state) && transition.effects == [])
    }

    method EnqueueTurn(turn: Turn, epoch: int, replacement: bool) returns (transition: Transition)
      requires Valid()
      modifies this
      ensures Valid() && Did(Enqueue(turn, epoch, replacement), transition)
    {
      StepKeepsBalance(state, history, Enqueue(turn, epoch, replacement));
      if epoch < state.epoch {
        return Still(state);
      }
      var retained := if replacement && state.phase == Playing then state.turn else None;
      transition := Set(AgentState(epoch, Queued, replacement, Some(turn), retained), []);
    }

    method StartReasoningOn(turn: Turn, epoch: int) returns (transition: Transition)
      requires Valid()
      modifies this
      ensures Valid() && Did(BeginReasoning(turn, epoch), transition)
    {
      StepKeepsBalance(state, history, BeginReasoning(turn, epoch));
      transition := AdvanceTo(turn, epoch, {Queued}, Reasoning, [StartReasoning]);
    }

    method WaitFor(turn: Turn, epoch: int) returns (transition: Transition)
      requires Valid()
      modifies this
      ensures Valid() && Did(WaitForTool(turn, epoch), transition)
    {
      StepKeepsBalance(state, history, WaitForTool(turn, epoch));
      transition := AdvanceTo(turn, epoch, {Reasoning}, WaitingTool, []);
    }

    method Resume(turn: Turn, epoch: int) returns (transition: Transition)
      requires Valid()
      modifies this
      ensures Valid() && Did(ResumeReasoning(turn, epoch), transition)
    {
      StepKeepsBalance(state, history, ResumeReasoning(turn, epoch));
      transition := AdvanceTo(turn, epoch, {WaitingTool}, Reasoning, []);
    }

    method StartSynthesizing(turn: Turn, epoch: int) returns (transition: Transition)
      requires Valid()
      modifies this
      ensures Valid() && Did(BeginSynthesizing(turn, epoch), transition)
    {
      StepKeepsBalance(state, history, BeginSynthesizing(turn, epoch));
      if state.turn == Some(turn) && state.epoch == epoch {
        if state.phase == Playing {
          transition := Set(AgentState(epoch, Synthesizing, true, Some(turn), Some(turn)), [StartTts]);
          return;
        }
        if state.phase == Completed {
          transition := Set(AgentState(epoch, Synthesizing, false, Some(turn), None), [StartTts]);
          return;
        }
      }
      transition := AdvanceTo(turn, epoch, {Reasoning}, Synthesizing, [StartTts]);
    }

    method AwaitCutoverOf(turn: Turn, epoch: int) returns (transition: Transition)
      requires Valid()
      modifies this
      ensures Valid() && Did(AwaitCutover(turn, epoch), transition)
    {
      StepKeepsBalance(state, history, AwaitCutover(turn, epoch));
      transition := AdvanceTo(turn, epoch, {Synthesizing}, CutoverPending, [FlushSound]);
    }

    method StartPlayback(turn: Turn, epoch: int) returns (transition: Transition)
      requires Valid()
      modifies this
      ensures Valid() && Did(PlaybackStarted(turn, epoch), transition)
    {
      StepKeepsBalance(state, history, PlaybackStarted(turn, epoch));
      if state.turn != Some(turn) || state.epoch != epoch || state.phase !in {Synthesizing, CutoverPending} {
        return Still(state);
      }
      transition := Set(AgentState(epoch, Playing, false, Some(turn), None), [EmitAudio]);
    }

    method RestoreRetained(turn: Turn, epoch: int) returns (transition: Transition)
      requires Valid()
      modifies this
      ensures Valid() && Did(RestoreRetainedPlayback(turn, epoch), transition)
    {
      StepKeepsBalance(state, history, RestoreRetainedPlayback(turn, epoch));
      if state.turn != Some(turn) || state.epoch != epoch || state.phase != CutoverPending || state.retained == None {
        return Still(state);
      }
      transition := Set(AgentState(epoch, Playing, false, state.retained, None), []);
    }

    method FinishPlayback(turn: Turn, epoch: int) returns (transition: Transition)
      requires Valid()
      modifies this
      ensures Valid() && Did(PlaybackFinished(turn, epoch), transition)
    {
      StepKeepsBalance(state, history, PlaybackFinished(turn, epoch));
      transition := AdvanceTo(turn, epoch, {Playing}, Completed, [FinishAudio]);
    }

    method LoseOutput(turn: Turn, epoch: int) returns (transition: Transition)
      requires Valid()
      modifies this
      ensures Valid() && Did(OutputLost(turn, epoch), transition)
    {
      StepKeepsBalance(state, history, OutputLost(turn, epoch));
      transition := AdvanceTo(turn, epoch, {Synthesizing, CutoverPending, Playing}, Failed, []);
    }

    method CompleteSilently(turn: Turn, epoch: int) returns (transition: Transition)
      requires Valid()
      modifies this
      ensures Valid() && Did(CompleteWithoutOutput(turn, epoch), transition)
    {
      StepKeepsBalance(state, history, CompleteWithoutOutput(turn, epoch));
      transition := AdvanceTo(turn, epoch, {Reasoning}, Completed, []);
    }

    method CancelTurn(turn: Turn, epoch: int) returns (transition: Transition)
      requires Valid()
      modifies this
      ensures Valid() && Did(Cancel(turn, epoch), transition)
    {
      StepKeepsBalance(state, history, Cancel(turn, epoch));
      transition := AdvanceTo(turn, epoch, {Queued, Reasoning, WaitingTool, Synthesizing, CutoverPending}, Cancelled, [CancelDeliberative]);
    }

    method FailTurn(turn: Turn, epoch: int) returns (transition: Transition)
      requires Valid()
      modifies this
      ensures Valid() && Did(Fail(turn, epoch), transition)
    {
      StepKeepsBalance(state, history, Fail(turn, epoch));
      transition := AdvanceTo(turn, epoch, {Queued, Reasoning, WaitingTool, Synthesizing, CutoverPending}, Failed, []);
    }

    method PassGate(outcome: GateOutcome) returns (transition: Transition)
      requires Valid()
      modifies this
      ensures Valid() && Did(Gate(outcome), transition)
    {
      hide Balanced;
      StepKeepsBalance(state, history, Gate(outcome));
      if outcome == Discard {
        return Still(state);
      }
      if outcome == Accept && state.phase in {Idle, Failed} {
        transition := Set(AgentState(state.epoch, Reasoning, false, state.turn, None), [StartReasoning]);
      } else if outcome == Accept && state.phase in {Reasoning, Synthesizing} {
        transition := Set(AgentState(state.epoch + 1, Reasoning, false, state.turn, None),
                          [CancelDeliberative, StartReasoning]);
      } else if outcome == Interrupt && state.phase == Playing {
        transition := Set(AgentState(state.epoch + 1, Reasoning, true, None, None), [CancelDeliberative, StartReasoning]);
      } else {
        transition := Still(state);
      }
    }

    method CompleteReasoning(epoch: int, hasText: bool) returns (transition: Transition)
      requires Valid()
      modifies this
      ensures Valid() && Did(ReasoningComplete(epoch, hasText), transition)
    {
      StepKeepsBalance(state, history, ReasoningComplete(epoch, hasText));
      if epoch != state.epoch || state.phase != Reasoning {
        return Still(state);
      }
      if !hasText {
        transition := Set(AgentState(epoch, Failed, false, None, None), []);
        return;
      }
      transition := Set(AgentState(epoch, Synthesizing, state.pendingInterrupt, state.turn, None), [StartTts]);
    }

    method ReadyAudio(epoch: int) returns (transition: Transition)
      requires Valid()
      modifies this
      ensures Valid() && Did(AudioReady(epoch), transition)
    {
      StepKeepsBalance(state, history, AudioReady(epoch));
      if epoch != state.epoch || state.phase != Synthesizing {
        return Still(state);
      }
      if state.pendingInterrupt {
        transition := Set(AgentState(epoch, CutoverPending, true, state.turn, None), [FlushSound]);
        return;
      }
      transition := Set(AgentState(epoch, Playing, false, state.turn, None), [EmitAudio]);
    }

    method AcknowledgeFlush(epoch: int) returns (transition: Transition)
      requires Valid()
      modifies this
      ensures Valid() && Did(FlushAcknowledged(epoch), transition)
    {
      StepKeepsBalance(state, history, FlushAcknowledged(epoch));
      if epoch != state.epoch || state.phase != CutoverPending {
        return Still(state);
      }
      transition := Set(AgentState(epoch, Playing, false, state.turn, None), [EmitAudio]);
    }

    method FinishAudioNow(epoch: int) returns (transition: Transition)
      requires Valid()
      modifies this
      ensures Valid() && Did(AudioFinished(epoch), transition)
    {
      StepKeepsBalance(state, history, AudioFinished(epoch));
      if epoch != state.epoch || state.phase != Playing {
        return Still(state);
      }
      transition := Set(AgentState(epoch, Completed, false, state.turn, None), [FinishAudio]);
    }

    method FailProvider(epoch: int) returns (transition: Transition)
      requires Valid()
      modifies this
      ensures Valid() && Did(ProviderFailed(epoch), transition)
    {
      StepKeepsBalance(state, history, ProviderFailed(epoch));
      if epoch != state.epoch {
        return Still(state);
      }
      transition := Set(AgentState(epoch, Failed, false, state.turn, None), []);
    }
  }
}
