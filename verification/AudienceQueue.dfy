/**
 * src/orchestrator/scheduler_runtime.py: the queue between what an audience says and the turns it starts.
 * Every section without an await is one step; the outcome of the Brain's evaluation is the environment's.
 */
module AudienceQueues {
  const CAPACITY := 16

  type Correlation(==, !new)

  datatype Source = Voice | Comment

  /** `ticket` numbers the calls; it stands for the caller's future. */
  datatype Item = Item(ticket: nat, source: Source, correlation: Correlation)

  datatype Reason = SessionEnded | Duplicate | Prebrain | QueueFull | Evicted | Stale | Declined | Started

  datatype Resolution = Resolution(ticket: nat, reason: Reason)

  /** `Woken`: the task exists and is about to look at the queue. */
  datatype Worker = Idle | Woken | Evaluating(item: Item)

  /**
   * History: `offers` counts the calls, `log` their resolutions, `lost` those whose evaluation was cancelled
   * under them, `voicesTaken` and `commentsTaken` what left the two queues before the end, in order.
   */
  datatype State = State(
    voices: seq<Item>, comments: seq<Item>, pending: set<Correlation>, started: set<Correlation>,
    ended: bool, worker: Worker,
    turns: seq<Correlation>, offers: nat, log: seq<Resolution>, lost: seq<nat>,
    voicesTaken: seq<nat>, commentsTaken: seq<nat>)

  const EMPTY := State([], [], {}, {}, false, Idle, [], 0, [], [], [], [])

  function Resolve(s: State, ticket: nat, reason: Reason): State {
    s.(log := s.log + [Resolution(ticket, reason)])
  }

  function Wake(s: State): State {
    s.(worker := if s.worker == Idle then Woken else s.worker)
  }

  function Enqueue(s: State, item: Item): State {
    Wake(if item.source == Voice then s.(voices := s.voices + [item]) else s.(comments := s.comments + [item]))
  }

  /** The oldest comment makes room. */
  function Evict(s: State): State
    requires s.comments != []
  {
    var evicted := s.comments[0];
    Resolve(
      s.(comments := s.comments[1..], pending := s.pending - {evicted.correlation},
         commentsTaken := s.commentsTaken + [evicted.ticket]),
      evicted.ticket, Evicted)
  }

  /** `_brain_and_enqueue_audience`; `prebrain` is the verdict of the filters that need no Brain. */
  function Offer(s: State, source: Source, correlation: Correlation, prebrain: bool): State {
    var called, ticket := s.(offers := s.offers + 1), s.offers;
    if s.ended then Resolve(called, ticket, SessionEnded)
    else if correlation in s.started || correlation in s.pending then Resolve(called, ticket, Duplicate)
    else if prebrain then Resolve(called, ticket, Prebrain)
    else
      var claimed, item := called.(pending := s.pending + {correlation}), Item(ticket, source, correlation);
      if |s.voices| + |s.comments| < CAPACITY then Enqueue(claimed, item)
      else if source == Comment || s.comments == [] then
        Resolve(called, ticket, QueueFull)
      else Enqueue(Evict(claimed), item)
  }

  /** The worker takes the next item, voice first; one that is no longer valid is turned away unheard. */
  function Take(s: State, valid: bool): State {
    if s.worker != Woken then s
    else if s.voices != [] then
      Begin(s.(voices := s.voices[1..], voicesTaken := s.voicesTaken + [s.voices[0].ticket]), s.voices[0], valid)
    else if s.comments != [] then
      Begin(s.(comments := s.comments[1..], commentsTaken := s.commentsTaken + [s.comments[0].ticket]), s.comments[0], valid)
    else s.(worker := Idle)
  }

  function Begin(s: State, item: Item, valid: bool): State {
    if s.ended || !valid then Resolve(s.(pending := s.pending - {item.correlation}), item.ticket, Stale)
    else s.(worker := Evaluating(item))
  }

  /** How an evaluation ends: what the Brain said, and whether the world it was asked about still stands. */
  datatype Verdict = CandidateCancelled | Refused | Proposed(current: bool, scheduled: bool)

  /**
   * The rest of `_evaluate_and_admit_audience` and of the worker's turn. A cancellation that is not the end
   * of the session passes through the worker and leaves the caller without an answer.
   */
  function Evaluated(s: State, verdict: Verdict): State {
    if !s.worker.Evaluating? then s
    else
      var item := s.worker.item;
      var done := s.(pending := s.pending - {item.correlation}, worker := Woken);
      match verdict
      case CandidateCancelled =>
        if s.ended then Resolve(done, item.ticket, SessionEnded)
        else done.(worker := Idle, lost := s.lost + [item.ticket])
      case Refused => Resolve(done, item.ticket, Declined)
      case Proposed(current, scheduled) =>
        if s.ended || item.correlation in s.started || !current then Resolve(done, item.ticket, Stale)
        else if !scheduled then Resolve(done, item.ticket, Declined)
        else Resolve(done.(started := s.started + {item.correlation}, turns := s.turns + [item.correlation]),
                     item.ticket, Started)
  }

  function Endings(items: seq<Item>): (log: seq<Resolution>) {
    seq(|items|, i requires 0 <= i < |items| => Resolution(items[i].ticket, SessionEnded))
  }

  /** `end_session`; an item under evaluation is cancelled and answers on its own. */
  function End(s: State): State {
    if s.ended then s
    else s.(ended := true, voices := [], comments := [], pending := {},
            worker := if s.worker == Woken then Idle else s.worker,
            log := s.log + Endings(s.voices) + Endings(s.comments))
  }

  datatype Action =
    | Offering(source: Source, correlation: Correlation, prebrain: bool)
    | Taking(valid: bool)
    | Evaluation(verdict: Verdict)
    | Ending

  function Step(s: State, action: Action): State {
    match action
    case Offering(source, correlation, prebrain) => Offer(s, source, correlation, prebrain)
    case Taking(valid) => Take(s, valid)
    case Evaluation(verdict) => Evaluated(s, verdict)
    case Ending => End(s)
  }

  function Tickets(items: seq<Item>): (tickets: seq<nat>)
    ensures |tickets| == |items|
  {
    seq(|items|, i requires 0 <= i < |items| => items[i].ticket)
  }

  function Answered(log: seq<Resolution>): (tickets: seq<nat>)
    ensures |tickets| == |log|
  {
    seq(|log|, i requires 0 <= i < |log| => log[i].ticket)
  }

  function InHand(s: State): seq<Item> {
    if s.worker.Evaluating? then [s.worker.item] else []
  }

  function Issued(n: nat): (tickets: multiset<nat>)
    ensures forall t: nat :: tickets[t] == if t < n then 1 else 0
  {
    if n == 0 then multiset{} else Issued(n - 1) + multiset{n - 1}
  }

  /** The five places a call can be in, as one multiset. */
  ghost function Everywhere(s: State): multiset<nat> {
    multiset(Tickets(s.voices)) + multiset(Tickets(s.comments)) + multiset(Tickets(InHand(s)))
      + multiset(Answered(s.log)) + multiset(s.lost)
  }

  /** Every call is waiting, being evaluated, answered or lost, and only one of these, once. */
  ghost predicate Accounted(s: State) {
    Everywhere(s) == Issued(s.offers)
  }

  predicate Ascending(tickets: seq<nat>) {
    forall i, j :: 0 <= i < j < |tickets| ==> tickets[i] < tickets[j]
  }

  predicate Below(tickets: seq<nat>, bound: nat) {
    forall i :: 0 <= i < |tickets| ==> tickets[i] < bound
  }

  /** What left a queue and what waits in it, in the order of the calls. */
  ghost predicate InOrder(taken: seq<nat>, waiting: seq<Item>, offers: nat) {
    Ascending(taken + Tickets(waiting)) && Below(taken + Tickets(waiting), offers)
  }

  ghost predicate FirstComeFirstServed(s: State) {
    InOrder(s.voicesTaken, s.voices, s.offers) && InOrder(s.commentsTaken, s.comments, s.offers)
  }

  function Correlations(items: seq<Item>): (correlations: seq<Correlation>)
    ensures |correlations| == |items|
  {
    seq(|items|, i requires 0 <= i < |items| => items[i].correlation)
  }

  ghost function Waiting(s: State): multiset<Correlation> {
    multiset(Correlations(s.voices)) + multiset(Correlations(s.comments)) + multiset(Correlations(InHand(s)))
  }

  /** `pending` is exactly what waits, nothing waits twice, and no correlation has two turns. */
  ghost predicate OnePerCorrelation(s: State) {
    && Lists(multiset(s.turns), s.started)
    && (if s.ended then s.pending == {} else Lists(Waiting(s), s.pending))
  }

  /** Each member once, and nothing else. */
  ghost predicate Lists(listed: multiset<Correlation>, members: set<Correlation>) {
    listed == multiset(members)
  }

  lemma ListsOneMore(listed: multiset<Correlation>, members: set<Correlation>, c: Correlation)
    requires Lists(listed, members) && c !in members
    ensures Lists(listed + multiset{c}, members + {c})
  {
  }

  lemma ListsOneLess(listed: multiset<Correlation>, members: set<Correlation>, c: Correlation)
    requires Lists(listed + multiset{c}, members)
    ensures Lists(listed, members - {c})
  {
    forall x ensures listed[x] == multiset(members - {c})[x] {
      assert (listed + multiset{c})[x] == multiset(members)[x];
    }
  }

  ghost predicate Shaped(s: State) {
    && |s.voices| + |s.comments| <= CAPACITY
    && (forall i :: 0 <= i < |s.voices| ==> s.voices[i].source == Voice)
    && (forall i :: 0 <= i < |s.comments| ==> s.comments[i].source == Comment)
    && (s.ended ==> s.voices == [] && s.comments == [])
  }

  lemma OneMoreTicket(items: seq<Item>, item: Item)
    ensures Tickets(items + [item]) == Tickets(items) + [item.ticket]
    ensures multiset(Tickets(items + [item])) == multiset(Tickets(items)) + multiset{item.ticket}
  {
    assert Tickets(items + [item]) == Tickets(items) + [item.ticket];
  }

  lemma FirstTicket(items: seq<Item>)
    requires items != []
    ensures Tickets(items) == [items[0].ticket] + Tickets(items[1..])
    ensures multiset(Tickets(items)) == multiset{items[0].ticket} + multiset(Tickets(items[1..]))
  {
    assert Tickets(items) == [items[0].ticket] + Tickets(items[1..]);
  }

  lemma OneMoreAnswer(log: seq<Resolution>, ticket: nat, reason: Reason)
    ensures multiset(Answered(log + [Resolution(ticket, reason)])) == multiset(Answered(log)) + multiset{ticket}
  {
    assert Answered(log + [Resolution(ticket, reason)]) == Answered(log) + [ticket];
  }

  lemma AllAnswered(log: seq<Resolution>, items: seq<Item>)
    ensures multiset(Answered(log + Endings(items))) == multiset(Answered(log)) + multiset(Tickets(items))
  {
    assert Answered(log + Endings(items)) == Answered(log) + Tickets(items);
  }

  lemma ResolveAccounts(s: State, ticket: nat, reason: Reason)
    ensures Everywhere(Resolve(s, ticket, reason)) == Everywhere(s) + multiset{ticket}
    ensures Resolve(s, ticket, reason).offers == s.offers
  {
    hide Tickets, Answered;
    OneMoreAnswer(s.log, ticket, reason);
  }

  lemma EnqueueAccounts(s: State, item: Item)
    ensures Everywhere(Enqueue(s, item)) == Everywhere(s) + multiset{item.ticket}
    ensures Enqueue(s, item).offers == s.offers
  {
    hide Tickets, Answered;
    OneMoreTicket(s.voices, item);
    OneMoreTicket(s.comments, item);
  }

  lemma EvictAccounts(s: State)
    requires s.comments != []
    ensures Everywhere(Evict(s)) == Everywhere(s)
    ensures Evict(s).offers == s.offers
  {
    hide Tickets, Answered;
    FirstTicket(s.comments);
    OneMoreAnswer(s.log, s.comments[0].ticket, Evicted);
  }

  /** What is not in one of the five places does not matter. */
  lemma Apart(s: State, t: State)
    requires s.voices == t.voices && s.comments == t.comments && InHand(s) == InHand(t) && s.log == t.log && s.lost == t.lost
    ensures Everywhere(s) == Everywhere(t)
  {
  }

  lemma OfferAccounts(s: State, source: Source, correlation: Correlation, prebrain: bool)
    requires Everywhere(s) == Issued(s.offers)
    ensures var t := Offer(s, source, correlation, prebrain); Everywhere(t) == Issued(t.offers)
  {
    hide Everywhere, Enqueue, Evict, Issued;
    OneMoreIssued(s.offers);
    var called := s.(offers := s.offers + 1);
    var claimed := called.(pending := s.pending + {correlation});
    Apart(s, called);
    Apart(s, claimed);
    forall reason ensures Everywhere(Resolve(called, s.offers, reason)) == Everywhere(called) + multiset{s.offers} {
      ResolveAccounts(called, s.offers, reason);
    }
    EnqueueAccounts(claimed, Item(s.offers, source, correlation));
    if s.comments != [] {
      EvictAccounts(claimed);
      EnqueueAccounts(Evict(claimed), Item(s.offers, source, correlation));
    }
  }

  lemma OneMoreIssued(n: nat)
    ensures Issued(n + 1) == Issued(n) + multiset{n}
  {
  }

  lemma BeginAccounts(s: State, item: Item, valid: bool)
    requires !s.worker.Evaluating?
    ensures Everywhere(Begin(s, item, valid)) == Everywhere(s) + multiset{item.ticket}
    ensures Begin(s, item, valid).offers == s.offers
  {
    if s.ended || !valid {
      hide Everywhere;
      var turned := s.(pending := s.pending - {item.correlation});
      Apart(s, turned);
      ResolveAccounts(turned, item.ticket, Stale);
    } else {
      hide Answered;
      assert Tickets([item]) == [item.ticket] && Tickets([]) == [];
      hide Tickets;
    }
  }

  lemma TakeAccounts(s: State, valid: bool)
    requires Everywhere(s) == Issued(s.offers)
    ensures var t := Take(s, valid); Everywhere(t) == Issued(t.offers)
  {
    hide Tickets, Answered, Issued, Begin;
    if s.worker != Woken {
    } else if s.voices != [] {
      FirstTicket(s.voices);
      BeginAccounts(s.(voices := s.voices[1..], voicesTaken := s.voicesTaken + [s.voices[0].ticket]), s.voices[0], valid);
    } else if s.comments != [] {
      FirstTicket(s.comments);
      BeginAccounts(s.(comments := s.comments[1..], commentsTaken := s.commentsTaken + [s.comments[0].ticket]),
                    s.comments[0], valid);
    }
  }

  lemma EvaluatedAccounts(s: State, verdict: Verdict)
    requires Everywhere(s) == Issued(s.offers)
    ensures var t := Evaluated(s, verdict); Everywhere(t) == Issued(t.offers)
  {
    hide Issued;
    if s.worker.Evaluating? {
      var item := s.worker.item;
      var done := s.(pending := s.pending - {item.correlation}, worker := Woken);
      var begun := done.(started := s.started + {item.correlation}, turns := s.turns + [item.correlation]);
      HandEmptied(s, done);
      Apart(done, begun);
      hide Everywhere;
      forall reason ensures Everywhere(Resolve(done, item.ticket, reason)) == Everywhere(s) {
        ResolveAccounts(done, item.ticket, reason);
      }
      ResolveAccounts(begun, item.ticket, Started);
      LoseAccounts(done, item.ticket);
    }
  }

  lemma HandEmptied(s: State, done: State)
    requires s.worker.Evaluating? && done == s.(pending := done.pending, worker := Woken)
    ensures Everywhere(s) == Everywhere(done) + multiset{s.worker.item.ticket}
  {
    hide Answered;
    assert Tickets([s.worker.item]) == [s.worker.item.ticket] && Tickets([]) == [];
    hide Tickets;
  }

  lemma LoseAccounts(s: State, ticket: nat)
    requires !s.worker.Evaluating?
    ensures Everywhere(s.(worker := Idle, lost := s.lost + [ticket])) == Everywhere(s) + multiset{ticket}
  {
    hide Answered, Tickets;
  }

  lemma EndAccounts(s: State)
    requires Everywhere(s) == Issued(s.offers)
    ensures var t := End(s); Everywhere(t) == Issued(t.offers)
  {
    hide Answered, Issued;
    assert Tickets([]) == [];
    hide Tickets;
    AllAnswered(s.log, s.voices);
    AllAnswered(s.log + Endings(s.voices), s.comments);
  }

  lemma OneMoreWaits(taken: seq<nat>, waiting: seq<Item>, offers: nat, item: Item)
    requires InOrder(taken, waiting, offers) && item.ticket == offers
    ensures InOrder(taken, waiting + [item], offers + 1)
    ensures InOrder(taken, waiting, offers + 1)
  {
    OneMoreTicket(waiting, item);
    assert taken + Tickets(waiting + [item]) == (taken + Tickets(waiting)) + [offers];
  }

  lemma FirstLeaves(taken: seq<nat>, waiting: seq<Item>, offers: nat)
    requires InOrder(taken, waiting, offers) && waiting != []
    ensures InOrder(taken + [waiting[0].ticket], waiting[1..], offers)
  {
    hide Ascending, Below;
    FirstTicket(waiting);
    assert (taken + [waiting[0].ticket]) + Tickets(waiting[1..]) == taken + Tickets(waiting);
  }

  lemma AllLeave(taken: seq<nat>, waiting: seq<Item>, offers: nat)
    requires InOrder(taken, waiting, offers)
    ensures InOrder(taken, [], offers)
  {
    var all := taken + Tickets(waiting);
    assert taken + Tickets([]) == taken == all[..|taken|];
    forall i | 0 <= i < |taken| ensures taken[i] < offers { assert all[i] == taken[i]; }
    forall i, j | 0 <= i < j < |taken| ensures taken[i] < taken[j] { assert all[i] == taken[i] && all[j] == taken[j]; }
  }

  lemma StepKeepsOrder(s: State, action: Action)
    requires FirstComeFirstServed(s)
    ensures FirstComeFirstServed(Step(s, action))
  {
    hide InOrder, Endings;
    if action.Offering? {
      var item := Item(s.offers, action.source, action.correlation);
      OneMoreWaits(s.voicesTaken, s.voices, s.offers, item);
      OneMoreWaits(s.commentsTaken, s.comments, s.offers, item);
      if s.comments != [] {
        FirstLeaves(s.commentsTaken, s.comments, s.offers);
        OneMoreWaits(s.commentsTaken + [s.comments[0].ticket], s.comments[1..], s.offers, item);
      }
    } else if action.Taking? {
      if s.voices != [] {
        FirstLeaves(s.voicesTaken, s.voices, s.offers);
      } else if s.comments != [] {
        FirstLeaves(s.commentsTaken, s.comments, s.offers);
      }
    } else if action.Ending? {
      AllLeave(s.voicesTaken, s.voices, s.offers);
      AllLeave(s.commentsTaken, s.comments, s.offers);
    }
  }

  lemma StepKeepsShape(s: State, action: Action)
    requires Shaped(s)
    ensures Shaped(Step(s, action))
  {
    hide Endings;
  }

  lemma OneMoreCorrelation(items: seq<Item>, item: Item)
    ensures multiset(Correlations(items + [item])) == multiset(Correlations(items)) + multiset{item.correlation}
  {
    assert Correlations(items + [item]) == Correlations(items) + [item.correlation];
  }

  lemma FirstCorrelation(items: seq<Item>)
    requires items != []
    ensures multiset(Correlations(items)) == multiset{items[0].correlation} + multiset(Correlations(items[1..]))
  {
    assert Correlations(items) == [items[0].correlation] + Correlations(items[1..]);
  }

  lemma EnqueueWaits(s: State, item: Item)
    ensures Waiting(Enqueue(s, item)) == Waiting(s) + multiset{item.correlation}
    ensures Enqueue(s, item) == s.(voices := Enqueue(s, item).voices, comments := Enqueue(s, item).comments, worker := Enqueue(s, item).worker)
  {
    hide Correlations;
    OneMoreCorrelation(s.voices, item);
    OneMoreCorrelation(s.comments, item);
  }

  lemma EvictWaits(s: State)
    requires s.comments != []
    ensures Waiting(s) == Waiting(Evict(s)) + multiset{s.comments[0].correlation}
    ensures Evict(s) == s.(pending := s.pending - {s.comments[0].correlation}, comments := Evict(s).comments,
                           commentsTaken := Evict(s).commentsTaken, log := Evict(s).log)
  {
    hide Correlations;
    FirstCorrelation(s.comments);
  }

  lemma OfferKeepsCorrelations(s: State, source: Source, correlation: Correlation, prebrain: bool)
    requires OnePerCorrelation(s)
    ensures OnePerCorrelation(Offer(s, source, correlation, prebrain))
  {
    hide Lists, Correlations, Answered, Waiting;
    if !s.ended && correlation !in s.started && correlation !in s.pending && !prebrain {
      var item := Item(s.offers, source, correlation);
      var claimed := s.(offers := s.offers + 1, pending := s.pending + {correlation});
      WaitingApart(s, claimed);
      EnqueueWaits(claimed, item);
      ListsOneMore(Waiting(s), s.pending, correlation);
      if s.comments != [] {
        var made := Evict(claimed);
        EvictWaits(claimed);
        EnqueueWaits(made, item);
        var oldest := s.comments[0].correlation;
        OneSwapped(Waiting(made), claimed.pending, oldest, s.pending, correlation);
      }
      hide Enqueue, Evict;
      WaitingApart(s, Resolve(s.(offers := s.offers + 1), s.offers, QueueFull));
    } else {
      WaitingApart(s, Offer(s, source, correlation, prebrain));
    }
  }

  /** The oldest leaves, a newcomer arrives. */
  lemma OneSwapped(left: multiset<Correlation>, claimed: set<Correlation>, oldest: Correlation, before: set<Correlation>, newcomer: Correlation)
    requires Lists(left + multiset{oldest}, before) && newcomer !in before && claimed == before + {newcomer}
    ensures Lists(left + multiset{newcomer}, claimed - {oldest})
  {
    ListsOneLess(left, before, oldest);
    ListsOneMore(left, before - {oldest}, newcomer);
    assert oldest in left + multiset{oldest} && oldest in multiset(before);
    assert claimed - {oldest} == (before - {oldest}) + {newcomer};
  }

  lemma WaitingApart(s: State, t: State)
    requires s.voices == t.voices && s.comments == t.comments && InHand(s) == InHand(t)
    ensures Waiting(s) == Waiting(t)
  {
  }

  lemma BeginWaits(s: State, item: Item, valid: bool)
    requires !s.worker.Evaluating?
    requires if s.ended then s.pending == {} else Lists(Waiting(s) + multiset{item.correlation}, s.pending)
    ensures var t := Begin(s, item, valid);
            && t.turns == s.turns && t.started == s.started && t.ended == s.ended
            && if t.ended then t.pending == {} else Lists(Waiting(t), t.pending)
  {
    if s.ended || !valid {
      hide Lists, Waiting;
      WaitingApart(s, Begin(s, item, valid));
      if !s.ended {
        ListsOneLess(Waiting(s), s.pending, item.correlation);
      }
    } else {
      assert Correlations([item]) == [item.correlation] && Correlations([]) == [];
      hide Lists, Correlations;
    }
  }

  lemma TakeKeepsCorrelations(s: State, valid: bool)
    requires OnePerCorrelation(s)
    ensures OnePerCorrelation(Take(s, valid))
  {
    hide Lists, Correlations, Begin, Tickets;
    if s.worker != Woken {
    } else if s.voices != [] {
      FirstCorrelation(s.voices);
      var rest := s.(voices := s.voices[1..], voicesTaken := s.voicesTaken + [s.voices[0].ticket]);
      assert Waiting(s) == Waiting(rest) + multiset{s.voices[0].correlation};
      BeginWaits(rest, s.voices[0], valid);
    } else if s.comments != [] {
      FirstCorrelation(s.comments);
      var rest := s.(comments := s.comments[1..], commentsTaken := s.commentsTaken + [s.comments[0].ticket]);
      assert Waiting(s) == Waiting(rest) + multiset{s.comments[0].correlation};
      BeginWaits(rest, s.comments[0], valid);
    }
  }

  lemma EvaluatedKeepsCorrelations(s: State, verdict: Verdict)
    requires OnePerCorrelation(s)
    ensures OnePerCorrelation(Evaluated(s, verdict))
  {
    if s.worker.Evaluating? {
      var c := s.worker.item.correlation;
      var done := s.(pending := s.pending - {c}, worker := Woken);
      HandWaits(s, done);
      hide Lists, Waiting, Correlations;
      if !s.ended {
        ListsOneLess(Waiting(done), s.pending, c);
      }
      if c !in s.started {
        ListsOneMore(multiset(s.turns), s.started, c);
        assert multiset(s.turns + [c]) == multiset(s.turns) + multiset{c};
      }
      WaitingApart(done, Evaluated(s, verdict));
    }
  }

  lemma HandWaits(s: State, done: State)
    requires s.worker.Evaluating? && done == s.(pending := done.pending, worker := Woken)
    ensures Waiting(s) == Waiting(done) + multiset{s.worker.item.correlation}
  {
    assert Correlations([s.worker.item]) == [s.worker.item.correlation] && Correlations([]) == [];
    hide Correlations;
  }

  lemma EndKeepsCorrelations(s: State)
    requires OnePerCorrelation(s)
    ensures OnePerCorrelation(End(s))
  {
  }

  ghost predicate Inv(s: State) {
    Shaped(s) && Accounted(s) && FirstComeFirstServed(s) && OnePerCorrelation(s) && (Stalled(s) ==> s.lost != [])
  }

  /** Calls wait and no worker will look at them. */
  predicate Stalled(s: State) {
    s.worker == Idle && (s.voices != [] || s.comments != [])
  }

  /** Whether a call gets a place in the queue. */
  predicate Queues(s: State, source: Source, correlation: Correlation, prebrain: bool) {
    && !s.ended && correlation !in s.started && correlation !in s.pending && !prebrain
    && (|s.voices| + |s.comments| < CAPACITY || (source == Voice && s.comments != []))
  }

  /**
   * The queue stalls exactly when an evaluation is cancelled while others wait and the session goes on, and
   * then nothing moves it again but the next call that gets a place in it, or the end of the session.
   */
  lemma StallsExactly(s: State, action: Action)
    requires Shaped(s)
    ensures !Stalled(s) ==>
              (Stalled(Step(s, action)) <==>
               && action == Evaluation(CandidateCancelled) && s.worker.Evaluating? && !s.ended
               && (s.voices != [] || s.comments != []))
    ensures Stalled(s) ==>
              (!Stalled(Step(s, action)) <==>
               || action.Ending?
               || (action.Offering? && Queues(s, action.source, action.correlation, action.prebrain)))
    ensures Stalled(s) && action.Offering? && !Stalled(Step(s, action)) ==> Step(s, action).worker == Woken
  {
    hide Endings;
  }

  /** The one way a caller gets no answer: its evaluation is cancelled although the session goes on. */
  lemma OnlyACancelledEvaluationLoses(s: State, action: Action)
    ensures Step(s, action).lost != s.lost <==>
            action == Evaluation(CandidateCancelled) && s.worker.Evaluating? && !s.ended
    ensures |s.lost| <= |Step(s, action).lost|
  {
    hide Endings;
    if s.worker.Evaluating? {
      assert |s.lost + [s.worker.item.ticket]| > |s.lost|;
    }
  }

  lemma StepKeepsStallsLost(s: State, action: Action)
    requires Shaped(s) && (Stalled(s) ==> s.lost != [])
    ensures Stalled(Step(s, action)) ==> Step(s, action).lost != []
  {
    hide Step, Shaped, Stalled, Queues;
    StallsExactly(s, action);
    OnlyACancelledEvaluationLoses(s, action);
  }

  lemma StepKeepsInv(s: State, action: Action)
    requires Inv(s)
    ensures Inv(Step(s, action))
  {
    hide Shaped, FirstComeFirstServed, OnePerCorrelation, Everywhere, Issued, Offer, Take, Evaluated, End, Stalled;
    StepKeepsStallsLost(s, action);
    StepKeepsShape(s, action);
    StepKeepsOrder(s, action);
    match action
    case Offering(source, correlation, prebrain) =>
      OfferAccounts(s, source, correlation, prebrain);
      OfferKeepsCorrelations(s, source, correlation, prebrain);
    case Taking(valid) =>
      TakeAccounts(s, valid);
      TakeKeepsCorrelations(s, valid);
    case Evaluation(verdict) =>
      EvaluatedAccounts(s, verdict);
      EvaluatedKeepsCorrelations(s, verdict);
    case Ending =>
      EndAccounts(s);
      EndKeepsCorrelations(s);
  }

  /** Any interleaving of calls, worker and end of session keeps the invariant. */
  function Run(s: State, actions: seq<Action>): (t: State)
    ensures Inv(s) ==> Inv(t)
  {
    hide Inv, Step;
    if actions == [] then s
    else
      var before := Run(s, actions[..|actions| - 1]);
      assert Inv(before) ==> Inv(Step(before, actions[|actions| - 1])) by {
        if Inv(before) { StepKeepsInv(before, actions[|actions| - 1]); }
      }
      Step(before, actions[|actions| - 1])
  }

  lemma EmptyIsSound()
    ensures Inv(EMPTY)
  {
    assert Tickets([]) == [] && Answered([]) == [] && Correlations([]) == [];
  }

  lemma AnswerCount(log: seq<Resolution>, i: nat)
    requires i < |log|
    ensures multiset(Answered(log))[log[i].ticket] >= 1
    ensures forall j :: i < j < |log| && log[j].ticket == log[i].ticket ==> multiset(Answered(log))[log[i].ticket] >= 2
  {
    var tickets := Answered(log);
    assert tickets[i] in multiset(tickets);
    forall j | i < j < |log| && log[j].ticket == log[i].ticket ensures multiset(tickets)[tickets[i]] >= 2 {
      CountedTwice(tickets, i, j);
    }
  }

  lemma CountedTwice<T>(xs: seq<T>, i: nat, j: nat)
    requires i < j < |xs|
    ensures xs[i] == xs[j] ==> multiset(xs)[xs[i]] >= 2
  {
    assert xs == (xs[..j] + [xs[j]]) + xs[j + 1..];
    assert xs[..j][i] == xs[i] && xs[i] in multiset(xs[..j]);
  }

  /** No caller is answered twice, and none that is answered still waits or was lost. */
  lemma AnsweredAtMostOnce(s: State, i: nat)
    requires Inv(s) && i < |s.log|
    ensures s.log[i].ticket < s.offers
    ensures forall j :: i < j < |s.log| ==> s.log[j].ticket != s.log[i].ticket
    ensures s.log[i].ticket !in Tickets(s.voices) + Tickets(s.comments) + Tickets(InHand(s)) + s.lost
  {
    hide Tickets, Answered, Issued, Shaped, FirstComeFirstServed, OnePerCorrelation;
    AnswerCount(s.log, i);
    var t := s.log[i].ticket;
    assert Everywhere(s)[t] <= 1;
    forall place: seq<nat> | place == Tickets(s.voices) || place == Tickets(s.comments) || place == Tickets(InHand(s)) || place == s.lost
      ensures t !in place
    {
      assert t in place ==> t in multiset(place);
    }
  }

  /** When nothing waits, every call has been answered, unless its evaluation was cancelled before the end. */
  lemma EveryCallIsAnswered(s: State, ticket: nat)
    requires Inv(s) && ticket < s.offers && s.voices == [] && s.comments == [] && !s.worker.Evaluating?
    ensures ticket in s.lost || exists i :: 0 <= i < |s.log| && s.log[i].ticket == ticket
  {
    assert Everywhere(s)[ticket] == 1;
    if ticket !in s.lost {
      assert ticket in multiset(Answered(s.log));
      assert ticket in Answered(s.log);
      var i :| 0 <= i < |s.log| && Answered(s.log)[i] == ticket;
      assert s.log[i].ticket == ticket;
    }
  }

  /** A correlation starts at most one turn in any run. */
  lemma OneTurnPerCorrelation(s: State, i: nat, j: nat)
    requires Inv(s) && i < j < |s.turns|
    ensures s.turns[i] != s.turns[j]
  {
    hide Shaped, Accounted, FirstComeFirstServed, Waiting;
    assert Lists(multiset(s.turns), s.started);
    CountedTwice(s.turns, i, j);
    assert multiset(s.started)[s.turns[i]] <= 1;
  }

  /**
   * The policy of a full queue: a call is turned away exactly when 16 wait and either it is a comment or all
   * 16 are voice; otherwise a waiting comment, the oldest, makes room. No waiting voice is ever dropped.
   */
  lemma FullQueuePolicy(s: State, source: Source, correlation: Correlation)
    requires Inv(s) && !s.ended && correlation !in s.started && correlation !in s.pending
    ensures var t := Offer(s, source, correlation, false);
            var full := |s.voices| + |s.comments| == CAPACITY;
            var refused := full && (source == Comment || |s.voices| == CAPACITY);
            && (t.log == s.log + [Resolution(s.offers, QueueFull)] <==> refused)
            && (refused ==> t.voices == s.voices && t.comments == s.comments && t.pending == s.pending)
            && (!refused && !full ==> t.log == s.log)
            && (!refused && full ==> t.log == s.log + [Resolution(s.comments[0].ticket, Evicted)] && source == Voice
                                     && forall i :: 0 < i < |s.comments| ==> s.comments[0].ticket < s.comments[i].ticket)
            && (!refused ==> t.voices == s.voices + if source == Voice then [Item(s.offers, source, correlation)] else [])
  {
    hide OnePerCorrelation, Accounted;
    if |s.voices| + |s.comments| == CAPACITY && s.comments != [] {
      var all := s.commentsTaken + Tickets(s.comments);
      var n := |s.commentsTaken|;
      var t := Offer(s, source, correlation, false);
      assert source == Voice ==> t.log[|s.log|] == Resolution(s.comments[0].ticket, Evicted);
      assert all[n] == s.comments[0].ticket && s.comments[0].ticket < s.offers;
      forall i | 0 < i < |s.comments| ensures s.comments[0].ticket < s.comments[i].ticket {
        assert all[n + i] == s.comments[i].ticket;
      }
    }
  }

  /** Voice first, and within a source in the order of the calls. */
  lemma VoiceComesFirst(s: State, valid: bool)
    requires Inv(s) && s.worker == Woken
    ensures var t := Take(s, valid);
            && (t.worker.Evaluating? ==> t.worker.item.source == Voice || s.voices == [])
            && (t.worker.Evaluating? ==> forall item <- t.voices + t.comments ::
                  item.source == t.worker.item.source ==> t.worker.item.ticket < item.ticket)
            && (t.worker == Idle <==> s.voices == [] && s.comments == [])
  {
    hide OnePerCorrelation, Accounted, Below;
    var queue, taken := if s.voices != [] then s.voices else s.comments, if s.voices != [] then s.voicesTaken else s.commentsTaken;
    var all := taken + Tickets(queue);
    forall i | 0 < i < |queue| ensures queue[0].ticket < queue[i].ticket {
      assert all[|taken|] == queue[0].ticket && all[|taken| + i] == queue[i].ticket;
    }
  }

  /** The admission fields of `SessionRuntime`; `log` is what the callers' futures are set to. */
  class AudienceAdmissions {
    var voices: seq<Item>
    var comments: seq<Item>
    var pending: set<Correlation>
    var started: set<Correlation>
    var ended: bool
    var worker: Worker
    var turns: seq<Correlation>
    var offers: nat
    var log: seq<Resolution>
    ghost var lost: seq<nat>
    ghost var voicesTaken: seq<nat>
    ghost var commentsTaken: seq<nat>

    ghost function Model(): State
      reads this
    {
      State(voices, comments, pending, started, ended, worker, turns, offers, log, lost, voicesTaken, commentsTaken)
    }

    constructor ()
      ensures Model() == EMPTY && Inv(Model())
    {
      voices, comments, pending, started, ended, worker := [], [], {}, {}, false, Idle;
      turns, offers, log, lost, voicesTaken, commentsTaken := [], 0, [], [], [], [];
      new;
      EmptyIsSound();
    }

    method Answer(ticket: nat, reason: Reason)
      modifies `log
      ensures log == old(log) + [Resolution(ticket, reason)]
    {
      log := log + [Resolution(ticket, reason)];
    }

    /** `_brain_and_enqueue_audience` up to the await of the caller's future. */
    method BrainAndEnqueue(source: Source, correlation: Correlation, prebrain: bool)
      requires Inv(Model())
      modifies this
      ensures Inv(Model()) && Model() == Offer(old(Model()), source, correlation, prebrain)
    {
      hide Inv;
      StepKeepsInv(Model(), Offering(source, correlation, prebrain));
      var ticket := offers;
      offers := offers + 1;
      if ended {
        Answer(ticket, SessionEnded);
        return;
      }
      if correlation in started || correlation in pending {
        Answer(ticket, Duplicate);
        return;
      }
      ghost var before := pending;
      pending := pending + {correlation};
      if prebrain {
        pending := pending - {correlation};
        assert pending == before;
        Answer(ticket, Prebrain);
        return;
      }
      if |voices| + |comments| >= CAPACITY {
        if source == Comment || comments == [] {
          pending := pending - {correlation};
          assert pending == before;
          Answer(ticket, QueueFull);
          return;
        }
        var evicted := comments[0];
        comments, commentsTaken := comments[1..], commentsTaken + [evicted.ticket];
        pending := pending - {evicted.correlation};
        Answer(evicted.ticket, Evicted);
      }
      if source == Voice {
        voices := voices + [Item(ticket, source, correlation)];
      } else {
        comments := comments + [Item(ticket, source, correlation)];
      }
      if worker == Idle {
        worker := Woken;
      }
    }

    /** The head of `_run_audience_admissions`. */
    method TakeNext(valid: bool)
      requires Inv(Model()) && worker == Woken
      modifies this
      ensures Inv(Model()) && Model() == Take(old(Model()), valid)
    {
      hide Inv;
      StepKeepsInv(Model(), Taking(valid));
      var item;
      if voices != [] {
        item := voices[0];
        voices, voicesTaken := voices[1..], voicesTaken + [item.ticket];
      } else if comments != [] {
        item := comments[0];
        comments, commentsTaken := comments[1..], commentsTaken + [item.ticket];
      } else {
        worker := Idle;
        return;
      }
      if ended || !valid {
        pending := pending - {item.correlation};
        Answer(item.ticket, Stale);
      } else {
        worker := Evaluating(item);
      }
    }

    /** The worker after its await. */
    method FinishEvaluation(verdict: Verdict)
      requires Inv(Model()) && worker.Evaluating?
      modifies this
      ensures Inv(Model()) && Model() == Evaluated(old(Model()), verdict)
    {
      hide Inv;
      StepKeepsInv(Model(), Evaluation(verdict));
      var item := worker.item;
      pending, worker := pending - {item.correlation}, Woken;
      match verdict
      case CandidateCancelled =>
        if ended {
          Answer(item.ticket, SessionEnded);
        } else {
          worker, lost := Idle, lost + [item.ticket];
        }
      case Refused => Answer(item.ticket, Declined);
      case Proposed(current, scheduled) =>
        if ended || item.correlation in started || !current {
          Answer(item.ticket, Stale);
        } else if !scheduled {
          Answer(item.ticket, Declined);
        } else {
          started, turns := started + {item.correlation}, turns + [item.correlation];
          Answer(item.ticket, Started);
        }
    }

    /** The admission part of `end_session`. */
    method EndSession() returns (accepted: bool)
      requires Inv(Model())
      modifies this
      ensures Inv(Model()) && Model() == End(old(Model())) && accepted == !old(ended)
    {
      hide Inv;
      StepKeepsInv(Model(), Ending);
      if ended {
        return false;
      }
      ended := true;
      if worker == Woken {
        worker := Idle;
      }
      var waiting := voices + comments;
      ghost var before := log;
      for i := 0 to |waiting|
        invariant log == before + Endings(waiting[..i])
        modifies `log
      {
        Answer(waiting[i].ticket, SessionEnded);
      }
      assert waiting[..|waiting|] == waiting;
      assert Endings(waiting) == Endings(voices) + Endings(comments);
      assert before + (Endings(voices) + Endings(comments)) == before + Endings(voices) + Endings(comments);
      voices, comments, pending := [], [], {};
      return true;
    }
  }
}
