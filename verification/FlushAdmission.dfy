/** src/orchestrator/streaming_contracts.py: one flush per stream, sent again once, timed out, or admitted. */
module FlushAdmissions {
  import opened StreamingContracts

  const RETRY_AFTER_MS := 250
  const TIMEOUT_AFTER_MS := 750

  /** `attempt` numbers the calls of `begin`; it is history, read by no operation. */
  datatype PendingFlush = PendingFlush(flush: StreamFlush, startedAt: int, retried: bool, attempt: nat)

  datatype Failure = Failure(flush: StreamFlush, reason: string)

  datatype Send = Send(flush: StreamFlush, at: int, attempt: nat)

  /** `pending` is the dictionary in insertion order, keyed by the stream of its flush; `sends` and `begins` are history. */
  datatype State = State(
    pending: seq<PendingFlush>, admitted: set<StreamFlush>, failures: seq<Failure>, sends: seq<Send>, begins: nat)

  datatype Action = Begin(flush: StreamFlush) | Acknowledge(ack: FlushAck) | Advance | RemoveStream(stream: StreamKey)

  const EMPTY := State([], {}, [], [], 0)

  /** The position of a stream's entry, or the size of the dictionary. */
  function Find(pending: seq<PendingFlush>, s: StreamKey): (i: nat)
    ensures i <= |pending|
    ensures i < |pending| ==> pending[i].flush.stream == s
    ensures forall j :: 0 <= j < i ==> pending[j].flush.stream != s
  {
    if pending == [] || pending[0].flush.stream == s then 0 else 1 + Find(pending[1..], s)
  }

  function Put(pending: seq<PendingFlush>, entry: PendingFlush): seq<PendingFlush> {
    var i := Find(pending, entry.flush.stream);
    if i < |pending| then pending[i := entry] else pending + [entry]
  }

  function Removed(pending: seq<PendingFlush>, s: StreamKey): seq<PendingFlush> {
    var i := Find(pending, s);
    if i < |pending| then pending[..i] + pending[i + 1..] else pending
  }

  function AdmittedElsewhere(admitted: set<StreamFlush>, s: StreamKey): set<StreamFlush> {
    set flush | flush in admitted && flush.stream != s
  }

  predicate Answers(ack: FlushAck, flush: StreamFlush) {
    ack == FromFlush(flush, Applied) || ack == FromFlush(flush, Replayed)
  }

  /** `_flush_for_request`: the first pending flush with the same request id, else one rebuilt from the ack. */
  function FlushForRequest(pending: seq<PendingFlush>, ack: FlushAck): StreamFlush {
    if pending == [] then
      StreamFlush(ack.stream, ack.turnId, ack.segmentId, ack.epoch, ack.requestId, ack.target, ack.version, ack.correlation)
    else if pending[0].flush.requestId == ack.requestId then pending[0].flush
    else FlushForRequest(pending[1..], ack)
  }

  function BeginStep(s: State, flush: StreamFlush, now: int): State {
    State(Put(s.pending, PendingFlush(flush, now, false, s.begins)), AdmittedElsewhere(s.admitted, flush.stream),
          s.failures, s.sends + [Send(flush, now, s.begins)], s.begins + 1)
  }

  function AcknowledgeStep(s: State, ack: FlushAck): (State, bool) {
    var i := Find(s.pending, ack.stream);
    if i == |s.pending| then (s.(failures := s.failures + [Failure(FlushForRequest(s.pending, ack), "invalid_ack")]), false)
    else if !Answers(ack, s.pending[i].flush) then (s.(failures := s.failures + [Failure(s.pending[i].flush, "invalid_ack")]), false)
    else (s.(pending := s.pending[..i] + s.pending[i + 1..], admitted := s.admitted + {s.pending[i].flush}), true)
  }

  /** The entry `advance` visits at position `i`; what follows it has not been visited yet. */
  function AdvanceAt(s: State, i: nat, now: int): State
    requires i < |s.pending|
  {
    var entry := s.pending[i];
    var elapsed := now - entry.startedAt;
    if elapsed >= TIMEOUT_AFTER_MS then
      s.(pending := s.pending[..i] + s.pending[i + 1..], failures := s.failures + [Failure(entry.flush, "timeout")])
    else if elapsed >= RETRY_AFTER_MS && !entry.retried then
      s.(pending := s.pending[i := entry.(retried := true)], sends := s.sends + [Send(entry.flush, now, entry.attempt)])
    else s
  }

  function AdvanceFrom(s: State, i: nat, now: int): State
    requires i <= |s.pending|
    decreases |s.pending| - i
  {
    if i == |s.pending| then s
    else
      var s' := AdvanceAt(s, i, now);
      AdvanceFrom(s', if |s'.pending| < |s.pending| then i else i + 1, now)
  }

  function Step(s: State, action: Action, now: int): State {
    match action
    case Begin(flush) => BeginStep(s, flush, now)
    case Acknowledge(ack) => AcknowledgeStep(s, ack).0
    case Advance => AdvanceFrom(s, 0, now)
    case RemoveStream(stream) => s.(pending := Removed(s.pending, stream), admitted := AdmittedElsewhere(s.admitted, stream))
  }

  // ---------------------------------------------------------------------------------------------

  function SendsOf(sends: seq<Send>, attempt: nat): seq<Send> {
    if sends == [] then []
    else
      var front, last := sends[..|sends| - 1], sends[|sends| - 1];
      SendsOf(front, attempt) + if last.attempt == attempt then [last] else []
  }

  /** A stream has one pending flush or one admitted flush, never both and never two. */
  ghost predicate OnePerStream(s: State) {
    && (forall i, j :: 0 <= i < j < |s.pending| ==> s.pending[i].flush.stream != s.pending[j].flush.stream)
    && (forall i, flush :: 0 <= i < |s.pending| && flush in s.admitted ==> flush.stream != s.pending[i].flush.stream)
    && (forall a, b :: a in s.admitted && b in s.admitted && a.stream == b.stream ==> a == b)
  }

  /** One send, or two of the same flush with the second in [250, 750) milliseconds after the first. */
  predicate Paced(sends: seq<Send>) {
    || |sends| == 1
    || (|sends| == 2 && sends[1].flush == sends[0].flush
        && RETRY_AFTER_MS <= sends[1].at - sends[0].at < TIMEOUT_AFTER_MS)
  }

  ghost predicate SendsMatch(s: State, entry: PendingFlush) {
    && entry.attempt < s.begins
    && |SendsOf(s.sends, entry.attempt)| == (if entry.retried then 2 else 1)
    && SendsOf(s.sends, entry.attempt)[0] == Send(entry.flush, entry.startedAt, entry.attempt)
  }

  ghost predicate SendsArePaced(s: State) {
    && (forall n: nat :: n < s.begins ==> Paced(SendsOf(s.sends, n)))
    && (forall n: nat :: n >= s.begins ==> SendsOf(s.sends, n) == [])
    && (forall i :: 0 <= i < |s.pending| ==> SendsMatch(s, s.pending[i]))
    && (forall i, j :: 0 <= i < j < |s.pending| ==> s.pending[i].attempt != s.pending[j].attempt)
  }

  ghost predicate Inv(s: State) {
    OnePerStream(s) && SendsArePaced(s)
  }

  lemma SendsOfOneMore(sends: seq<Send>, send: Send, attempt: nat)
    ensures SendsOf(sends + [send], attempt) == SendsOf(sends, attempt) + if send.attempt == attempt then [send] else []
  {
    assert (sends + [send])[..|sends|] == sends;
  }

  /** Dropping entries loses nothing. */
  lemma DroppingKeepsInv(s: State, i: nat)
    requires Inv(s) && i < |s.pending|
    ensures Inv(s.(pending := s.pending[..i] + s.pending[i + 1..]))
    ensures Inv(s.(pending := s.pending[..i] + s.pending[i + 1..], admitted := AdmittedElsewhere(s.admitted, s.pending[i].flush.stream) + {s.pending[i].flush}))
    ensures AdmittedElsewhere(s.admitted, s.pending[i].flush.stream) == s.admitted
  {
    hide Paced;
    var rest := s.pending[..i] + s.pending[i + 1..];
    assert forall j :: 0 <= j < |rest| ==> rest[j] == s.pending[if j < i then j else j + 1];
    assert forall flush :: flush in s.admitted ==> flush.stream != s.pending[i].flush.stream;
    assert AdmittedElsewhere(s.admitted, s.pending[i].flush.stream) == s.admitted;
    forall j | 0 <= j < |rest| ensures SendsMatch(s, rest[j]) { }
    hide SendsMatch, SendsOf, AdmittedElsewhere;
  }

  lemma BeginKeepsInv(s: State, flush: StreamFlush, now: int)
    requires Inv(s)
    ensures Inv(BeginStep(s, flush, now))
  {
    var s' := BeginStep(s, flush, now);
    var send := Send(flush, now, s.begins);
    forall n: nat ensures SendsOf(s'.sends, n) == SendsOf(s.sends, n) + if n == s.begins then [send] else [] {
      SendsOfOneMore(s.sends, send, n);
    }
    var i := Find(s.pending, flush.stream);
    forall j | 0 <= j < |s'.pending| ensures SendsMatch(s', s'.pending[j]) {
      if j != i {
        assert s'.pending[j] == s.pending[j] && SendsMatch(s, s.pending[j]);
      }
    }
  }

  lemma RetryKeepsInv(s: State, i: nat, now: int)
    requires Inv(s) && i < |s.pending| && !s.pending[i].retried
    requires RETRY_AFTER_MS <= now - s.pending[i].startedAt < TIMEOUT_AFTER_MS
    ensures Inv(AdvanceAt(s, i, now))
  {
    var s' := AdvanceAt(s, i, now);
    var entry := s.pending[i];
    var send := Send(entry.flush, now, entry.attempt);
    assert SendsMatch(s, entry);
    forall n: nat ensures SendsOf(s'.sends, n) == SendsOf(s.sends, n) + if n == entry.attempt then [send] else [] {
      SendsOfOneMore(s.sends, send, n);
    }
    forall j | 0 <= j < |s'.pending| ensures SendsMatch(s', s'.pending[j]) {
      assert SendsMatch(s, s.pending[j]);
    }
  }

  lemma {:induction false} AdvanceKeepsInv(s: State, i: nat, now: int)
    requires Inv(s) && i <= |s.pending|
    ensures Inv(AdvanceFrom(s, i, now)) && AdvanceFrom(s, i, now).admitted == s.admitted
    decreases |s.pending| - i
  {
    if i < |s.pending| {
      var s' := AdvanceAt(s, i, now);
      assert Inv(s') by {
        var elapsed := now - s.pending[i].startedAt;
        if elapsed >= TIMEOUT_AFTER_MS {
          DroppingKeepsInv(s, i);
        } else if elapsed >= RETRY_AFTER_MS && !s.pending[i].retried {
          RetryKeepsInv(s, i, now);
        }
      }
      AdvanceKeepsInv(s', if |s'.pending| < |s.pending| then i else i + 1, now);
    }
  }

  /** A flush becomes admitted only by an acknowledgement equal to it in every field but the disposition. */
  lemma AdmissionNeedsItsAck(s: State, action: Action, now: int, flush: StreamFlush)
    requires Inv(s) && flush !in s.admitted
    ensures flush in Step(s, action, now).admitted <==>
            && action.Acknowledge? && Answers(action.ack, flush)
            && exists i :: 0 <= i < |s.pending| && s.pending[i].flush == flush
  {
    match action
    case Advance => AdvanceKeepsInv(s, 0, now);
    case Acknowledge(ack) =>
      var i := Find(s.pending, ack.stream);
    case _ =>
  }

  lemma AcknowledgeKeepsInv(s: State, ack: FlushAck)
    requires Inv(s)
    ensures Inv(AcknowledgeStep(s, ack).0)
  {
    var i := Find(s.pending, ack.stream);
    if i < |s.pending| && Answers(ack, s.pending[i].flush) {
      DroppingKeepsInv(s, i);
    }
  }

  lemma RemoveKeepsInv(s: State, stream: StreamKey)
    requires Inv(s)
    ensures Inv(s.(pending := Removed(s.pending, stream), admitted := AdmittedElsewhere(s.admitted, stream)))
  {
    var i := Find(s.pending, stream);
    if i < |s.pending| {
      DroppingKeepsInv(s, i);
    }
  }

  lemma StepKeepsInv(s: State, action: Action, now: int)
    requires Inv(s)
    ensures Inv(Step(s, action, now))
  {
    match action
    case Begin(flush) => BeginKeepsInv(s, flush, now);
    case Advance => AdvanceKeepsInv(s, 0, now);
    case Acknowledge(ack) => AcknowledgeKeepsInv(s, ack);
    case RemoveStream(stream) => RemoveKeepsInv(s, stream);
  }

  /** Every run, at any clock readings: one flush per stream, and each `begin` sent once or, paced, twice. */
  function Run(actions: seq<Action>, clock: seq<int>): (s: State)
    requires |clock| == |actions|
    ensures OnePerStream(s)
    ensures forall n: nat :: n < s.begins ==> Paced(SendsOf(s.sends, n))
    ensures Inv(s)
    decreases |actions|
  {
    if actions == [] then EMPTY
    else
      var n := |actions| - 1;
      var before := Run(actions[..n], clock[..n]);
      StepKeepsInv(before, actions[n], clock[n]);
      Step(before, actions[n], clock[n])
  }

  class FlushAdmission {
    var pending: seq<PendingFlush>
    var admitted: set<StreamFlush>
    var failures: seq<Failure>
    var sends: seq<Send>
    var begins: nat

    ghost function Model(): State
      reads this
    {
      State(pending, admitted, failures, sends, begins)
    }

    constructor ()
      ensures Model() == EMPTY && Inv(Model())
    {
      pending, admitted, failures, sends, begins := [], {}, [], [], 0;
    }

    method Lookup(s: StreamKey) returns (i: nat)
      ensures i == Find(pending, s)
    {
      i := 0;
      while i < |pending| && pending[i].flush.stream != s
        invariant i <= |pending| && forall j :: 0 <= j < i ==> pending[j].flush.stream != s
      {
        i := i + 1;
      }
    }

    method BeginFlush(flush: StreamFlush, now: int)
      requires Inv(Model())
      modifies this
      ensures Model() == Step(old(Model()), Begin(flush), now) && Inv(Model())
    {
      BeginKeepsInv(Model(), flush, now);
      admitted := set held | held in admitted && held.stream != flush.stream;
      var i := Lookup(flush.stream);
      var entry := PendingFlush(flush, now, false, begins);
      pending := if i < |pending| then pending[i := entry] else pending + [entry];
      sends, begins := sends + [Send(flush, now, begins)], begins + 1;
    }

    method AcknowledgeFlush(ack: FlushAck) returns (accepted: bool)
      requires Inv(Model())
      modifies this
      ensures (Model(), accepted) == AcknowledgeStep(old(Model()), ack) && Inv(Model())
    {
      AcknowledgeKeepsInv(Model(), ack);
      var i := Lookup(ack.stream);
      if i == |pending| || !Answers(ack, pending[i].flush) {
        var flush := if i < |pending| then pending[i].flush else FlushForRequest(pending, ack);
        failures := failures + [Failure(flush, "invalid_ack")];
        return false;
      }
      admitted := admitted + {pending[i].flush};
      pending := pending[..i] + pending[i + 1..];
      return true;
    }

    method AdvanceClock(now: int)
      requires Inv(Model())
      modifies this
      ensures Model() == Step(old(Model()), Advance, now) && Inv(Model())
    {
      AdvanceKeepsInv(Model(), 0, now);
      ghost var goal := AdvanceFrom(Model(), 0, now);
      var i := 0;
      while i < |pending|
        invariant i <= |pending| && AdvanceFrom(Model(), i, now) == goal
        decreases |pending| - i
      {
        var entry := pending[i];
        var elapsed := now - entry.startedAt;
        if elapsed >= TIMEOUT_AFTER_MS {
          pending := pending[..i] + pending[i + 1..];
          failures := failures + [Failure(entry.flush, "timeout")];
        } else {
          if elapsed >= RETRY_AFTER_MS && !entry.retried {
            sends := sends + [Send(entry.flush, now, entry.attempt)];
            pending := pending[i := entry.(retried := true)];
          }
          i := i + 1;
        }
      }
    }

    method RemoveStreamNow(stream: StreamKey)
      requires Inv(Model())
      modifies this
      ensures Model() == Step(old(Model()), RemoveStream(stream), 0) && Inv(Model())
    {
      RemoveKeepsInv(Model(), stream);
      var i := Lookup(stream);
      pending := if i < |pending| then pending[..i] + pending[i + 1..] else pending;
      admitted := set held | held in admitted && held.stream != stream;
    }
  }
}
