/** src/orchestrator/sessions.py: the scheduler that owns the revision and the active turn. */
module Sessions {
  import opened Common

  type SessionId(==, !new)

  /** `prefix-0007` is kept as its two parts; the zero-padded rendering is injective in the number. */
  datatype TurnId = TurnId(prefix: string, number: nat)

  datatype SessionSnapshot = SessionSnapshot(sessionId: SessionId, revision: nat, activeTurn: Option<TurnId>)

  datatype EventCorrelation = EventCorrelation(traceId: string, sessionId: SessionId, sequence: int)

  datatype SchedulerEvent = SchedulerEvent(eventType: string, correlation: EventCorrelation)

  datatype AcceptedEvent = AcceptedEvent(event: SchedulerEvent, turnId: TurnId)

  datatype TransitionRejection = StaleRevision | SessionMismatch

  datatype TransitionResult =
    | TransitionAccepted(snapshot: SessionSnapshot, accepted: AcceptedEvent)
    | TransitionRejected(snapshot: SessionSnapshot, reason: TransitionRejection)

  datatype SchedulerState = SchedulerState(
    prefix: string, turnSequence: nat, snapshot: SessionSnapshot, history: seq<AcceptedEvent>)
  {
    /** One turn per revision, numbered in order, the last of them active. */
    ghost predicate Valid() {
      && turnSequence == snapshot.revision == |history|
      && (forall i :: 0 <= i < |history| ==> history[i].turnId == TurnId(prefix, i + 1))
      && (forall i :: 0 <= i < |history| ==> history[i].event.correlation.sessionId == snapshot.sessionId)
      && snapshot.activeTurn == (if history == [] then None else Some(history[|history| - 1].turnId))
    }
  }

  function InitialScheduler(sessionId: SessionId, prefix: string): SchedulerState {
    SchedulerState(prefix, 0, SessionSnapshot(sessionId, 0, None), [])
  }

  function StartTurn(s: SchedulerState, expectedRevision: int, event: SchedulerEvent): (SchedulerState, TransitionResult) {
    if expectedRevision != s.snapshot.revision then
      (s, TransitionRejected(s.snapshot, StaleRevision))
    else if event.correlation.sessionId != s.snapshot.sessionId then
      (s, TransitionRejected(s.snapshot, SessionMismatch))
    else
      var turnId := TurnId(s.prefix, s.turnSequence + 1);
      var accepted := AcceptedEvent(event, turnId);
      var snapshot := SessionSnapshot(s.snapshot.sessionId, s.snapshot.revision + 1, Some(turnId));
      (SchedulerState(s.prefix, s.turnSequence + 1, snapshot, s.history + [accepted]),
       TransitionAccepted(snapshot, accepted))
  }

  /** An accepted transition opens a turn no earlier event of the session was ever given. */
  lemma StartTurnOpensAFreshTurn(s: SchedulerState, expectedRevision: int, event: SchedulerEvent)
    requires s.Valid()
    ensures var (s', result) := StartTurn(s, expectedRevision, event);
            && s'.Valid()
            && (result.TransitionRejected? ==> s' == s)
            && (result.TransitionAccepted? <==>
                expectedRevision == s.snapshot.revision && event.correlation.sessionId == s.snapshot.sessionId)
            && (result.TransitionAccepted? ==>
                && s'.snapshot.activeTurn == Some(result.accepted.turnId)
                && s'.snapshot.revision == s.snapshot.revision + 1
                && (forall e :: e in s.history ==> e.turnId != result.accepted.turnId))
  {
  }

  class SessionScheduler {
    const turnIdPrefix: string
    var turnSequence: nat
    var snapshot: SessionSnapshot
    var eventHistory: seq<AcceptedEvent>

    ghost function Model(): SchedulerState
      reads this
    {
      SchedulerState(turnIdPrefix, turnSequence, snapshot, eventHistory)
    }

    constructor (sessionId: SessionId, turnIdPrefix: string)
      ensures Model() == InitialScheduler(sessionId, turnIdPrefix) && Model().Valid()
    {
      this.turnIdPrefix := turnIdPrefix;
      turnSequence := 0;
      snapshot := SessionSnapshot(sessionId, 0, None);
      eventHistory := [];
    }

    method Apply(expectedRevision: int, event: SchedulerEvent) returns (result: TransitionResult)
      requires Model().Valid()
      modifies this
      ensures (Model(), result) == StartTurn(old(Model()), expectedRevision, event)
      ensures Model().Valid()
    {
      StartTurnOpensAFreshTurn(Model(), expectedRevision, event);
      if expectedRevision != snapshot.revision {
        return TransitionRejected(snapshot, StaleRevision);
      }
      if event.correlation.sessionId != snapshot.sessionId {
        return TransitionRejected(snapshot, SessionMismatch);
      }
      turnSequence := turnSequence + 1;
      var turnId := TurnId(turnIdPrefix, turnSequence);
      var accepted := AcceptedEvent(event, turnId);
      eventHistory := eventHistory + [accepted];
      snapshot := SessionSnapshot(snapshot.sessionId, snapshot.revision + 1, Some(turnId));
      return TransitionAccepted(snapshot, accepted);
    }
  }
}
