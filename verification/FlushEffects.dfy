/** src/orchestrator/streaming_contracts.py: what each method of the flush handshake sends, drops and records. */
module FlushEffects {
  import opened StreamingContracts
  import opened FlushAdmissions

  /** One flush after the clock has moved: gone at 750 ms, marked as sent again from 250 ms on. */
  function Aged(entry: PendingFlush, now: int): seq<PendingFlush> {
    var age := now - entry.startedAt;
    if age >= 750 then [] else if age >= 250 then [entry.(retried := true)] else [entry]
  }

  function AllAged(pending: seq<PendingFlush>, now: int): seq<PendingFlush> {
    if pending == [] then [] else Aged(pending[0], now) + AllAged(pending[1..], now)
  }

  function Lapsed(e: PendingFlush, now: int): seq<Failure> {
    if now - e.startedAt >= 750 then [Failure(e.flush, "timeout")] else []
  }

  /** What is sent a second time: what waited 250 ms without being sent again. */
  function Again(e: PendingFlush, now: int): seq<Send> {
    if 250 <= now - e.startedAt < 750 && !e.retried then [Send(e.flush, now, e.attempt)] else []
  }

  function TimedOut(pending: seq<PendingFlush>, now: int): seq<Failure> {
    if pending == [] then [] else Lapsed(pending[0], now) + TimedOut(pending[1..], now)
  }

  function Resent(pending: seq<PendingFlush>, now: int): seq<Send> {
    if pending == [] then [] else Again(pending[0], now) + Resent(pending[1..], now)
  }

  lemma VisitingDoes(s: State, i: nat, now: int)
    requires i < |s.pending|
    ensures var s', e := AdvanceAt(s, i, now), s.pending[i];
            && s' == s.(pending := s'.pending, failures := s.failures + Lapsed(e, now), sends := s.sends + Again(e, now))
            && s'.pending == s.pending[..i] + Aged(e, now) + s.pending[i + 1..]
            && (|s'.pending| < |s.pending| <==> Aged(e, now) == [])
  {
    assert s.failures + [] == s.failures && s.sends + [] == s.sends;
    assert s.pending[..i] + [] + s.pending[i + 1..] == s.pending[..i] + s.pending[i + 1..];
  }

  lemma Parts(front: seq<PendingFlush>, visited: seq<PendingFlush>, rest: seq<PendingFlush>)
    ensures (front + visited + rest)[..|front| + |visited|] == front + visited
    ensures (front + visited + rest)[|front| + |visited|..] == rest
  {
  }

  lemma Associates<T>(a: seq<T>, b: seq<T>, c: seq<T>)
    ensures a + b + c == a + (b + c)
  {
  }

  lemma {:induction false} AdvancingFrom(s: State, i: nat, now: int)
    requires i <= |s.pending|
    ensures var t, rest := AdvanceFrom(s, i, now), s.pending[i..];
            && t == s.(pending := t.pending, failures := t.failures, sends := t.sends)
            && t.pending == s.pending[..i] + AllAged(rest, now)
            && t.failures == s.failures + TimedOut(rest, now) && t.sends == s.sends + Resent(rest, now)
    decreases |s.pending| - i
  {
    if i < |s.pending| {
      var e, front, rest := s.pending[i], s.pending[..i], s.pending[i + 1..];
      assert s.pending[i..][1..] == rest && s.pending[i..][0] == e;
      VisitingDoes(s, i, now);
      var s' := AdvanceAt(s, i, now);
      Parts(front, Aged(e, now), rest);
      AdvancingFrom(s', i + |Aged(e, now)|, now);
      hide AdvanceAt, Aged, Lapsed, Again;
      Associates(front, Aged(e, now), AllAged(rest, now));
      Associates(s.failures, Lapsed(e, now), TimedOut(rest, now));
      Associates(s.sends, Again(e, now), Resent(rest, now));
      assert |Aged(e, now)| <= 1 by { AgedOnce(e, now); }
    } else {
      assert s.pending[i..] == [];
    }
  }

  lemma AgedOnce(e: PendingFlush, now: int)
    ensures |Aged(e, now)| <= 1
  {
  }

  /** `advance`: every flush ages by the one clock reading; what is 750 ms old is dropped and recorded. */
  lemma AdvancingDoes(s: State, now: int)
    ensures var t := Step(s, Advance, now);
            && t == s.(pending := AllAged(s.pending, now), failures := s.failures + TimedOut(s.pending, now),
                       sends := s.sends + Resent(s.pending, now))
            && forall i :: 0 <= i < |t.pending| ==>
                 && now - t.pending[i].startedAt < 750 && (now - t.pending[i].startedAt >= 250 ==> t.pending[i].retried)
  {
    AdvancingFrom(s, 0, now);
    assert s.pending[0..] == s.pending && s.pending[..0] == [];
    AgedIsYoung(s.pending, now);
  }

  lemma {:induction false} AgedIsYoung(pending: seq<PendingFlush>, now: int)
    ensures forall i :: 0 <= i < |AllAged(pending, now)| ==>
              var e := AllAged(pending, now)[i]; now - e.startedAt < 750 && (now - e.startedAt >= 250 ==> e.retried)
  {
    if pending != [] {
      AgedIsYoung(pending[1..], now);
    }
  }

  /** `begin` sends, replaces what waited on the stream, and takes back its admission. */
  lemma BeginningDoes(s: State, flush: StreamFlush, now: int)
    ensures var t, i, entry := Step(s, Begin(flush), now), Find(s.pending, flush.stream), PendingFlush(flush, now, false, s.begins);
            && t.pending == (if i < |s.pending| then s.pending[i := entry] else s.pending + [entry])
            && t.sends == s.sends + [Send(flush, now, s.begins)] && t.failures == s.failures
            && forall other :: other in t.admitted <==> other in s.admitted && other.stream != flush.stream
  {
  }

  /** `acknowledge` admits the flush it answers in every field; anything else is only recorded. */
  lemma AcknowledgingDoes(s: State, ack: FlushAck, now: int)
    ensures var t, i := Step(s, Acknowledge(ack), now), Find(s.pending, ack.stream);
            if i < |s.pending| && (ack == FromFlush(s.pending[i].flush, Applied) || ack == FromFlush(s.pending[i].flush, Replayed))
            then t == s.(pending := s.pending[..i] + s.pending[i + 1..], admitted := s.admitted + {s.pending[i].flush})
            else t == s.(failures := t.failures) && |t.failures| == |s.failures| + 1 && t.failures[..|s.failures|] == s.failures
                 && t.failures[|s.failures|].reason == "invalid_ack"
                 && (i < |s.pending| ==> t.failures[|s.failures|].flush == s.pending[i].flush)
                 && AcknowledgeStep(s, ack).1 == false
  {
  }

  /** `remove_stream` forgets the stream and nothing else. */
  lemma RemovingDoes(s: State, stream: StreamKey, now: int)
    requires Inv(s)
    ensures var t, i := Step(s, RemoveStream(stream), now), Find(s.pending, stream);
            && t.pending == (if i < |s.pending| then s.pending[..i] + s.pending[i + 1..] else s.pending)
            && (forall j :: 0 <= j < |t.pending| ==> t.pending[j].flush.stream != stream)
            && (forall other :: other in t.admitted <==> other in s.admitted && other.stream != stream)
            && t.failures == s.failures && t.sends == s.sends
  {
    hide SendsArePaced;
    var i := Find(s.pending, stream);
    var rest := if i < |s.pending| then s.pending[..i] + s.pending[i + 1..] else s.pending;
    forall j | 0 <= j < |rest| ensures rest[j].flush.stream != stream {
      assert rest[j] == s.pending[if j < i then j else j + 1];
    }
  }
}
