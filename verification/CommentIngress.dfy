/**
 * src/orchestrator/comment_ingress.py: the replay window of the comment socket. Credentials, size and syntax
 * are decided before it and enter as `Turned`.
 */
module CommentIngress {
  import opened Common

  type Trace(==, !new)

  datatype Correlation = Correlation(trace: Trace, sequence: nat)

  datatype Rejection =
    | Unauthorized | ExpiredCredential | Malformed | PayloadTooLarge
    | Duplicate | StaleReplay | Backpressure

  datatype Message = Turned(rejection: Rejection) | Proposal(correlation: Correlation)

  datatype Config = Config(replayWindow: int, maxPending: nat)

  /** `accepted` and `handed`, what left the queue in order, are history. */
  datatype State = State(pending: seq<Correlation>, seen: set<Correlation>, highest: Option<nat>, accepted: seq<Correlation>,
                         handed: seq<Correlation>)

  const EMPTY := State([], {}, None, [], [])

  function Max(a: nat, b: nat): nat {
    if a >= b then a else b
  }

  predicate Expired(config: Config, highest: Option<nat>, sequence: nat) {
    highest.Some? && sequence < highest.value - config.replayWindow
  }

  /** `None` is acceptance. The checks come in this order. */
  function Verdict(config: Config, s: State, message: Message): Option<Rejection> {
    match message
    case Turned(rejection) => Some(rejection)
    case Proposal(c) =>
      if c in s.seen then Some(Duplicate)
      else if Expired(config, s.highest, c.sequence) then Some(StaleReplay)
      else if |s.pending| == config.maxPending then Some(Backpressure)
      else None
  }

  function Remembered(config: Config, highest: Option<nat>, seen: set<Correlation>): set<Correlation> {
    set c <- seen | !Expired(config, highest, c.sequence)
  }

  function Accept(config: Config, s: State, c: Correlation): State {
    var highest := Some(Max(c.sequence, s.highest.UnwrapOr(c.sequence)));
    State(s.pending + [c], Remembered(config, highest, s.seen + {c}), highest, s.accepted + [c], s.handed)
  }

  datatype Action = Receiving(message: Message) | Taking | CancellingPending

  function Step(config: Config, s: State, action: Action): State {
    match action
    case Receiving(message) => if Verdict(config, s, message) == None then Accept(config, s, message.correlation) else s
    case Taking => if s.pending == [] then s else s.(pending := s.pending[1..], handed := s.handed + [s.pending[0]])
    case CancellingPending => s.(pending := [], handed := s.handed + s.pending)
  }

  /** The same, with a memory that never forgets. */
  predicate AcceptedByReference(config: Config, s: State, message: Message) {
    && message.Proposal? && message.correlation !in s.accepted
    && (s.highest.Some? ==> message.correlation.sequence >= s.highest.value - config.replayWindow)
    && |s.pending| < config.maxPending
  }

  /** Whatever was accepted is still in the window's memory or below it. */
  ghost predicate Inv(config: Config, s: State) {
    && (forall c <- s.accepted :: c in s.seen || Expired(config, s.highest, c.sequence))
    && (forall c <- s.seen :: c in s.accepted)
    && (forall c <- s.accepted :: s.highest.Some? && c.sequence <= s.highest.value)
    && (forall i, j :: 0 <= i < j < |s.accepted| ==> s.accepted[i] != s.accepted[j])
    && |s.pending| <= config.maxPending
    && s.accepted == s.handed + s.pending
    && (if s.highest == None then s.accepted == [] else exists c <- s.accepted :: c.sequence == s.highest.value)
  }

  /** Which rejection a comment gets. */
  lemma RejectionsAreExact(config: Config, s: State, c: Correlation)
    requires Inv(config, s)
    ensures var below := s.highest.Some? && c.sequence < s.highest.value - config.replayWindow;
            && (Verdict(config, s, Proposal(c)) == Some(Duplicate) <==> c in s.accepted && c in s.seen)
            && (Verdict(config, s, Proposal(c)) == Some(StaleReplay) <==> below && c !in s.seen)
            && (Verdict(config, s, Proposal(c)) == Some(Backpressure) <==>
                  c !in s.accepted && !below && |s.pending| == config.maxPending)
            && (c in s.accepted && !below ==> c in s.seen)
  {
  }

  /** An accepted comment waits behind the others and is remembered; the queue is handed over from its front. */
  lemma StepsDo(config: Config, s: State, action: Action)
    requires Inv(config, s)
    ensures var t := Step(config, s, action);
            match action
            case Receiving(message) =>
              if !AcceptedByReference(config, s, message) then t == s
              else var c := message.correlation;
                   && t.pending == s.pending + [c] && t.accepted == s.accepted + [c] && t.handed == s.handed
                   && t.highest == Some(if s.highest.Some? && s.highest.value > c.sequence then s.highest.value else c.sequence)
                   && (config.replayWindow >= 0 ==> c in t.seen)
            case Taking => if s.pending == [] then t == s else t == s.(pending := s.pending[1..], handed := s.handed + [s.pending[0]])
            case CancellingPending => t == s.(pending := [], handed := s.handed + s.pending)
  {
    if action.Receiving? {
      WindowRefinesReference(config, s, action.message);
    }
  }

  /** The pruned window decides exactly as the reference does; only the name of the rejection can differ. */
  lemma WindowRefinesReference(config: Config, s: State, message: Message)
    requires Inv(config, s)
    ensures Verdict(config, s, message) == None <==> AcceptedByReference(config, s, message)
    ensures message.Proposal? && message.correlation in s.accepted ==>
              Verdict(config, s, message) in {Some(Duplicate), Some(StaleReplay)}
  {
  }

  lemma AcceptKeepsInv(config: Config, s: State, c: Correlation)
    requires Inv(config, s) && Verdict(config, s, Proposal(c)) == None
    ensures Inv(config, Accept(config, s, c))
  {
    WindowRefinesReference(config, s, Proposal(c));
    var t := Accept(config, s, c);
    assert t.highest.value >= c.sequence && (s.highest.Some? ==> t.highest.value >= s.highest.value);
    forall x <- t.accepted
      ensures (x in t.seen || Expired(config, t.highest, x.sequence)) && x.sequence <= t.highest.value {
      assert x in s.accepted || x == c;
    }
    forall x <- t.seen ensures x in t.accepted {
      assert t.accepted[|s.accepted|] == c;
      assert x in s.seen || x == c;
    }
  }

  /** No correlation is accepted twice and the queue stays within its bound, in every run. */
  function Run(config: Config, s: State, actions: seq<Action>): (t: State)
    ensures Inv(config, s) ==> Inv(config, t)
  {
    if actions == [] then s
    else
      var before, last := Run(config, s, actions[..|actions| - 1]), actions[|actions| - 1];
      assert Inv(config, before) ==> Inv(config, Step(config, before, last)) by {
        if Inv(config, before) && last.Receiving? && Verdict(config, before, last.message) == None {
          AcceptKeepsInv(config, before, last.message.correlation);
        }
      }
      Step(config, before, last)
  }

  /** A comment refused for lack of room can be sent again: nothing remembers it. */
  lemma BackpressureForgets(config: Config, s: State, c: Correlation)
    requires Inv(config, s) && Verdict(config, s, Proposal(c)) == Some(Backpressure)
    ensures Step(config, s, Receiving(Proposal(c))) == s && c !in s.accepted
    ensures config.maxPending > 0 ==>
              Verdict(config, Step(config, s, Taking), Proposal(c)) == None
  {
    WindowRefinesReference(config, s, Proposal(c));
  }

  class AuthenticatedCommentIngress {
    const config: Config
    var pending: seq<Correlation>
    var seen: set<Correlation>
    var highest: Option<nat>
    ghost var accepted: seq<Correlation>
    ghost var handed: seq<Correlation>

    ghost function Model(): State
      reads this
    {
      State(pending, seen, highest, accepted, handed)
    }

    constructor (config: Config)
      ensures Model() == EMPTY && this.config == config && Inv(config, Model())
    {
      this.config, pending, seen, highest, accepted, handed := config, [], {}, None, [], [];
    }

    method Receive(message: Message) returns (rejection: Option<Rejection>)
      requires Inv(config, Model())
      modifies this
      ensures Inv(config, Model()) && Model() == Step(config, old(Model()), Receiving(message))
      ensures rejection == Verdict(config, old(Model()), message)
      ensures rejection == None <==> AcceptedByReference(config, old(Model()), message)
    {
      hide Inv;
      WindowRefinesReference(config, Model(), message);
      if message.Turned? {
        return Some(message.rejection);
      }
      var c := message.correlation;
      if c in seen {
        return Some(Duplicate);
      }
      if Expired(config, highest, c.sequence) {
        return Some(StaleReplay);
      }
      if |pending| == config.maxPending {
        return Some(Backpressure);
      }
      AcceptKeepsInv(config, Model(), c);
      seen := seen + {c};
      // A highest sequence of 0 counts as none, which changes nothing: no sequence is below it.
      highest := Some(Max(c.sequence, if highest == None || highest == Some(0) then c.sequence else highest.value));
      DiscardExpired();
      pending, accepted := pending + [c], accepted + [c];
      return None;
    }

    method DiscardExpired()
      modifies `seen
      ensures seen == Remembered(config, highest, old(seen))
    {
      seen := set c <- seen | !Expired(config, highest, c.sequence);
    }

    method TakeNext() returns (next: Option<Correlation>)
      requires Inv(config, Model())
      modifies this
      ensures Inv(config, Model()) && Model() == Step(config, old(Model()), Taking)
      ensures next == if old(pending) == [] then None else Some(old(pending)[0])
    {
      if pending == [] {
        return None;
      }
      next := Some(pending[0]);
      pending, handed := pending[1..], handed + [pending[0]];
    }

    method CancelPending()
      requires Inv(config, Model())
      modifies this
      ensures Inv(config, Model()) && Model() == Step(config, old(Model()), CancellingPending)
    {
      pending, handed := [], handed + pending;
    }
  }
}
