/**
 * src/orchestrator/streaming_endpoint.py: which events a packet causes, what an utterance opens with, and
 * that a stream without gaps is never cut for one.
 */
module EndpointEffects {
  import opened Common
  import opened Pcm
  import opened Endpointing

  /** The last ten frames accepted since. */
  function Latest(heard: seq<Frame>, since: nat): seq<Frame>
    requires since <= |heard|
  {
    if |heard| - since > 10 then heard[|heard| - 10..] else heard[since..]
  }

  /** While no utterance is open the pre-roll is the last ten frames accepted since it was emptied. */
  predicate PreRolled(s: State) {
    s.cleared <= |s.heard| && (s.utterance == [] ==> s.preRoll == Latest(s.heard, s.cleared))
  }

  lemma WaitingRemembers(s: State, frame: Frame)
    requires PreRolled(s) && s.utterance == []
    ensures PreRolled(Wait(s, frame))
  {
    var longer, all := s.preRoll + [frame], s.heard + [frame];
    assert all[s.cleared..] == s.heard[s.cleared..] + [frame];
    if |s.heard| - s.cleared > 10 {
      assert longer == all[|all| - 11..];
      assert longer[1..] == all[|all| - 10..];
    } else if |s.heard| - s.cleared == 10 {
      assert longer == all[s.cleared..];
      assert longer[1..] == all[|all| - 10..];
    }
  }

  lemma FinalizingForgets(s: State, reason: Reason)
    requires PreRolled(s)
    ensures PreRolled(Finalize(s, reason).state)
  {
  }

  lemma HearingRemembers(s: State, frame: Frame)
    requires PreRolled(s)
    ensures PreRolled(Hear(s, frame).state)
  {
    hide IsSpeech, Latest, Finalize;
    if IsSpeech(frame) {
      FinalizingForgets(Speak(s, frame).state, Forced);
    } else if s.utterance != [] {
      FinalizingForgets(Linger(s, frame), Silence);
    } else {
      WaitingRemembers(s, frame);
    }
  }

  lemma AcceptRemembers(s: State, packet: RtpPacket)
    requires PreRolled(s)
    ensures PreRolled(Accept(s, packet).state)
  {
    hide Hear, Latest, Finalize;
    FinalizingForgets(s, Gap);
    HearingRemembers(Continue(s, packet).state, packet.frame);
  }

  lemma {:induction false} DrainRemembers(s: State)
    requires PreRolled(s)
    ensures PreRolled(Drain(s).state)
    decreases |s.pending|
  {
    hide Accept, Latest;
    if s.expectedSequence.Some? && s.expectedSequence.value in s.pending {
      var packet := s.pending[s.expectedSequence.value];
      var popped := s.(pending := s.pending - {s.expectedSequence.value});
      AcceptLeavesPending(popped, packet);
      AcceptRemembers(popped, packet);
      DrainRemembers(Accept(popped, packet).state);
    }
  }

  lemma StepRemembers(s: State, input: Input)
    requires PreRolled(s)
    ensures PreRolled(Step(s, input).state)
  {
    hide Accept, Drain, Finalize;
    if input.Received? {
      var packet := input.packet;
      var expected := s.expectedSequence.UnwrapOr(packet.sequence);
      var known := s.(expectedSequence := Some(expected));
      AcceptRemembers(known, packet);
      DrainRemembers(Accept(known, packet).state);
      FinalizingForgets(known, Gap);
      var cut := Finalize(known, Gap).state;
      AcceptRemembers(cut.(pending := map[], expectedSequence := Some(packet.sequence), expectedTimestamp := None), packet);
    } else {
      FinalizingForgets(s, Disconnect);
      FinalizedIsEmpty(s, Disconnect);
    }
  }

  lemma FinalizedIsEmpty(s: State, reason: Reason)
    ensures Finalize(s, reason).state.utterance == [] && Finalize(s, reason).state.heard == s.heard
  {
  }

  /** Over every run from `EMPTY`. */
  lemma {:induction false} RunRemembers(s: State, inputs: seq<Input>)
    requires PreRolled(s)
    ensures PreRolled(Run(s, inputs).state)
    decreases |inputs|
  {
    hide Step, PreRolled;
    if inputs != [] {
      RunRemembers(s, inputs[..|inputs| - 1]);
      StepRemembers(Run(s, inputs[..|inputs| - 1]).state, inputs[|inputs| - 1]);
    }
  }

  /** The frames of the utterance once this frame is in it. */
  function Open(s: State, frame: Frame): seq<Frame>
    requires PreRolled(s)
  {
    (if s.utterance == [] then Latest(s.heard, s.cleared) else s.utterance) + [frame]
  }

  /**
   * What a frame causes. Speech opens the utterance with the pre-roll or extends it, is announced, and ends
   * it at 750 frames. Silence in an utterance extends it, and the thirtieth in a row ends it. Silence
   * outside causes nothing.
   */
  lemma HearingDoes(s: State, frame: Frame)
    requires PreRolled(s)
    ensures var turn, segment, o := s.turns + 1, s.segments + 1, Hear(s, frame);
            && o.events ==
               (if IsSpeech(frame) then
                  [Partial(Open(s, frame), turn, segment)]
                  + if |Open(s, frame)| >= 750 then [Final(Open(s, frame), turn, segment, Forced)] else []
                else if s.utterance != [] && s.silence + 1 == 30 then [Final(Open(s, frame), turn, segment, Silence)]
                else [])
            && o.state.heard == s.heard + [frame]
            && (if o.events != [] && o.events[|o.events| - 1].Final?
                then o.state.utterance == [] && o.state.preRoll == [] && o.state.silence == 0
                     && o.state.turns == turn && o.state.segments == segment
                else && o.state.utterance == (if IsSpeech(frame) || s.utterance != [] then Open(s, frame) else [])
                     && o.state.silence == (if IsSpeech(frame) then 0 else if s.utterance == [] then s.silence else s.silence + 1)
                     && o.state.turns == s.turns && o.state.segments == s.segments)
  {
    hide IsSpeech, Latest;
  }

  /** A timestamp that does not continue the stream cuts an open utterance, and only that does. */
  lemma AcceptingDoes(s: State, packet: RtpPacket)
    ensures var cuts := s.utterance != [] && s.expectedTimestamp.Some? && packet.timestamp != s.expectedTimestamp.value;
            var before := if cuts then Finalize(s, Gap).state else s;
            var ready := before.(
              expectedSequence := Some((packet.sequence + 1) % 65_536),
              expectedTimestamp := Some((packet.timestamp + 320) % 4_294_967_296));
            var o, heard := Accept(s, packet), Hear(ready, packet.frame);
            && o.events == (if cuts then [Final(s.utterance, s.turns + 1, s.segments + 1, Gap)] else []) + heard.events
            && o.state == heard.state
  {
    hide IsSpeech, Remembered;
  }

  /** A packet that is neither expected nor next nor stale cuts an open utterance and starts the order anew. */
  lemma JumpsCut(s: State, packet: RtpPacket, expected: nat)
    requires s.expectedSequence == Some(expected) && expected < 65_536 && packet.sequence < 65_536
    ensures var ahead := (packet.sequence - expected) % 65_536;
            var cut := Finalize(s, Gap);
            var o := Push(s, packet);
            && (2 <= ahead < 32_768 && packet.sequence !in s.pending ==>
                  var restarted := cut.state.(pending := map[], expectedSequence := Some(packet.sequence), expectedTimestamp := None);
                  && o == cut.Then(Accept(restarted, packet))
                  && cut.events == if s.utterance == [] then [] else [Final(s.utterance, s.turns + 1, s.segments + 1, Gap)])
            && (ahead >= 32_768 || packet.sequence in s.pending ==>
                  (ahead != 0 && ahead != 1 ==> o == Outcome(s, [])))
            && (ahead == 1 ==> o == Outcome(if packet.sequence in s.pending then s else s.(pending := s.pending[packet.sequence := packet]), []))
  {
    hide Accept, Drain;
    assert s.(expectedSequence := Some(expected)) == s;
    Distances(packet.sequence, expected);
  }

  lemma Distances(a: nat, b: nat)
    requires a < 65_536 && b < 65_536
    ensures var ahead, behind := (a - b) % 65_536, (b - a) % 65_536;
            && (ahead == 0 <==> a == b) && (ahead == 1 <==> a == (b + 1) % 65_536)
            && (ahead != 0 ==> behind == 65_536 - ahead)
  {
  }

  /** Leaving ends an open utterance, and the next stream starts as if new, numbering aside. */
  lemma LeavingDoes(s: State)
    ensures var o := Leave(s);
            && o.events == (if s.utterance == [] then [] else [Final(s.utterance, s.turns + 1, s.segments + 1, Disconnect)])
            && o.state.utterance == [] && o.state.preRoll == [] && o.state.pending == map[]
            && o.state.expectedSequence == None && o.state.expectedTimestamp == None
  {
  }

  /** Packets 320 samples apart. */
  predicate Timed(stream: seq<RtpPacket>, start: nat) {
    forall i :: 0 <= i < |stream| ==> stream[i].timestamp == (start + 320 * i) % 4_294_967_296
  }

  predicate NoGap(events: seq<Event>) {
    forall i :: 0 <= i < |events| && events[i].Final? ==> events[i].reason != Gap
  }

  /** A stream without gaps is never cut for one, whatever its first timestamp and wherever the counters wrap. */
  lemma {:induction false} GaplessStreamsAreNeverCut(s: State, stream: seq<RtpPacket>, base: nat, start: nat, n: nat)
    requires s.expectedSequence == None && s.expectedTimestamp == None && s.pending == map[]
    requires Numbered(stream, base) && Timed(stream, start) && n <= |stream|
    ensures var o := Run(s, Deliveries(stream, n));
            && NoGap(o.events)
            && o.state.expectedTimestamp == if n == 0 then None else Some((start + 320 * n) % 4_294_967_296)
  {
    hide Run, Push, Numbered, Timed, NoGap, Accept;
    if n == 0 {
      assert Deliveries(stream, 0) == [];
      NothingRun(s);
      assert NoGap([]) by { NothingCut(); }
    } else {
      GaplessStreamsAreNeverCut(s, stream, base, start, n - 1);
      InOrderHoldsNothing(s, stream, base, n - 1);
      OneMoreDelivery(s, stream, n - 1);
      NumberAt(stream, base, n - 1);
      TimeAt(stream, start, n - 1);
      var before := Run(s, Deliveries(stream, n - 1));
      PushExpected(before.state, map[], stream[n - 1], stream[n - 1]);
      ContinuedIsNotCut(before.state.(expectedSequence := Some(stream[n - 1].sequence)), stream[n - 1]);
      NoGapSplits(before.events, Push(before.state, stream[n - 1]).events);
      TimeWraps(start, n - 1);
    }
  }

  lemma NothingCut()
    ensures NoGap([])
  {
  }

  lemma NoGapSplits(a: seq<Event>, b: seq<Event>)
    requires NoGap(a) && NoGap(b)
    ensures NoGap(a + b)
  {
  }

  lemma TimeAt(stream: seq<RtpPacket>, start: nat, i: nat)
    requires Timed(stream, start) && i < |stream|
    ensures stream[i].timestamp == (start + 320 * i) % 4_294_967_296
  {
  }

  lemma TimeWraps(start: nat, i: nat)
    ensures ((start + 320 * i) % 4_294_967_296 + 320) % 4_294_967_296 == (start + 320 * (i + 1)) % 4_294_967_296
  {
  }

  lemma ContinuedIsNotCut(s: State, packet: RtpPacket)
    requires s.expectedTimestamp.Some? ==> packet.timestamp == s.expectedTimestamp.value
    ensures NoGap(Accept(s, packet).events)
    ensures Accept(s, packet).state.expectedTimestamp == Some((packet.timestamp + 320) % 4_294_967_296)
  {
    hide IsSpeech, Remembered;
  }
}
