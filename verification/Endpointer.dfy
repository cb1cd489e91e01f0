/**
 * src/orchestrator/streaming_endpoint.py: RTP packets of one microphone stream to utterances. A buffer of
 * one packet undoes adjacent swaps; silence, length, gaps and disconnects end an utterance.
 */
module Endpointing {
  import opened Common
  import opened Pcm

  const PRE_ROLL_FRAMES := 10
  const SILENCE_FRAMES := 30
  const FORCED_FRAMES := 750
  const SPEECH_ENERGY := 900
  const FRAME_SAMPLES := 320
  const SEQUENCES := 0x1_0000
  const HALF_RANGE := 0x8000
  const LONGEST := 779

  /** One 20 ms payload, 16-bit samples in network byte order. */
  datatype Frame = Frame(bytes: seq<Byte>)

  datatype RtpPacket = RtpPacket(sequence: nat, timestamp: nat, frame: Frame)

  function Magnitude(v: int): nat {
    if v < 0 then -v else v
  }

  /** A missing byte shortens the sample, as slicing past the end does. */
  function MagnitudeAt(payload: seq<Byte>, offset: nat): nat {
    if offset + 1 < |payload| then Magnitude(Sample16(payload[offset + 1], payload[offset]))
    else if offset < |payload| then Magnitude(if payload[offset] < 128 then payload[offset] else (payload[offset] as int) - 256)
    else 0
  }

  function Energy(payload: seq<Byte>, samples: nat): nat {
    if samples == 0 then 0 else Energy(payload, samples - 1) + MagnitudeAt(payload, 2 * (samples - 1))
  }

  predicate IsSpeech(frame: Frame) {
    Energy(frame.bytes, FRAME_SAMPLES) >= SPEECH_ENERGY * FRAME_SAMPLES
  }

  function SumOfMagnitudes(xs: seq<Sample>): nat {
    if xs == [] then 0 else SumOfMagnitudes(xs[..|xs| - 1]) + Magnitude(xs[|xs| - 1])
  }

  /** The samples of a payload that count: at most 320 of them. */
  function Counted(payload: seq<Byte>): seq<Sample> {
    var xs := NetworkSamples(payload);
    if |xs| > 320 then xs[..320] else xs
  }

  lemma {:induction false} EnergyIsTheSum(payload: seq<Byte>, n: nat)
    requires |payload| % 2 == 0
    ensures var xs := NetworkSamples(payload);
            Energy(payload, n) == SumOfMagnitudes(if n < |xs| then xs[..n] else xs)
  {
    var xs := NetworkSamples(payload);
    if n == 0 {
      assert xs[..0] == [];
    } else {
      EnergyIsTheSum(payload, n - 1);
      if n <= |xs| {
        assert xs[..n][..n - 1] == xs[..n - 1] && xs[..|xs|] == xs;
        assert MagnitudeAt(payload, 2 * (n - 1)) == Magnitude(xs[n - 1]);
      }
    }
  }

  /** Speech is a frame whose samples, as a receiver of L16 hears them, have a mean magnitude of 900 over 320. */
  lemma SpeechIsLoudness(payload: seq<Byte>)
    requires |payload| % 2 == 0
    ensures IsSpeech(Frame(payload)) <==> SumOfMagnitudes(Counted(payload)) >= 900 * 320
  {
    EnergyIsTheSum(payload, 320);
    var xs := NetworkSamples(payload);
    assert xs[..|xs|] == xs;
  }

  /** In terms of what was spoken: 320 samples, sent in network order. */
  lemma SpokenFramesAreSpeech(xs: seq<Sample>)
    requires |xs| == 320
    ensures IsSpeech(Frame(Swapped(Encode(xs)))) <==> SumOfMagnitudes(xs) >= 288_000
  {
    EncodedIsHeard(xs);
    assert xs[..320] == xs;
    hide Encode, Swapped, NetworkSamples, IsSpeech;
    SpeechIsLoudness(Swapped(Encode(xs)));
  }

  datatype Reason = Silence | Forced | Gap | Disconnect

  /** Both kinds carry the frames of the utterance and its 1-based turn and segment numbers. */
  datatype Event =
    | Partial(frames: seq<Frame>, turn: nat, segment: nat)
    | Final(frames: seq<Frame>, turn: nat, segment: nat, reason: Reason)

  /** Where in the accepted frames an utterance lay. */
  datatype Span = Span(start: nat, end: nat)

  /**
   * `heard`, `spans` and `cleared` are history: every frame accepted so far, the place of every finalized
   * utterance, and how many frames had been accepted when the pre-roll was last emptied.
   */
  datatype State = State(
    preRoll: seq<Frame>, utterance: seq<Frame>, pending: map<nat, RtpPacket>,
    expectedSequence: Option<nat>, expectedTimestamp: Option<nat>,
    silence: nat, turns: nat, segments: nat, heard: seq<Frame>, spans: seq<Span>, cleared: nat)

  const EMPTY := State([], [], map[], None, None, 0, 0, 0, [], [], 0)

  datatype Outcome = Outcome(state: State, events: seq<Event>)
  {
    function Then(next: Outcome): Outcome {
      Outcome(next.state, events + next.events)
    }
  }

  /** Where the frames of the open utterance start. */
  function Begin(s: State): nat {
    if |s.utterance| <= |s.heard| then |s.heard| - |s.utterance| else 0
  }

  function Finalize(s: State, reason: Reason): Outcome {
    if s.utterance == [] then Outcome(s, [])
    else
      Outcome(s.(utterance := [], silence := 0, preRoll := [], turns := s.turns + 1, segments := s.segments + 1,
                spans := s.spans + [Span(Begin(s), |s.heard|)], cleared := |s.heard|),
              [Final(s.utterance, s.turns + 1, s.segments + 1, reason)])
  }

  /** A timestamp that does not continue the stream ends the utterance first. */
  function Continue(s: State, packet: RtpPacket): Outcome {
    var outcome := if s.expectedTimestamp.Some? && packet.timestamp != s.expectedTimestamp.value
                   then Finalize(s, Gap) else Outcome(s, []);
    outcome.(state := outcome.state.(
      expectedSequence := Some((packet.sequence + 1) % SEQUENCES),
      expectedTimestamp := Some((packet.timestamp + FRAME_SAMPLES) % 0x1_0000_0000)))
  }

  function Remembered(preRoll: seq<Frame>, frame: Frame): seq<Frame> {
    var longer := preRoll + [frame];
    if |longer| > PRE_ROLL_FRAMES then longer[|longer| - PRE_ROLL_FRAMES..] else longer
  }

  function Speak(s: State, frame: Frame): Outcome {
    var spoken := s.(utterance := (if s.utterance == [] then s.preRoll else s.utterance) + [frame],
                     silence := 0, heard := s.heard + [frame]);
    Outcome(spoken, [Partial(spoken.utterance, s.turns + 1, s.segments + 1)])
  }

  function Linger(s: State, frame: Frame): State {
    s.(utterance := s.utterance + [frame], silence := s.silence + 1, heard := s.heard + [frame])
  }

  function Wait(s: State, frame: Frame): State {
    s.(preRoll := Remembered(s.preRoll, frame), heard := s.heard + [frame])
  }

  function Hear(s: State, frame: Frame): Outcome {
    if IsSpeech(frame) then
      var spoken := Speak(s, frame);
      if |spoken.state.utterance| >= FORCED_FRAMES then spoken.Then(Finalize(spoken.state, Forced)) else spoken
    else if s.utterance != [] then
      var lingered := Linger(s, frame);
      if lingered.silence == SILENCE_FRAMES then Finalize(lingered, Silence) else Outcome(lingered, [])
    else
      Outcome(Wait(s, frame), [])
  }

  /** `_accept_ordered`. */
  function Accept(s: State, packet: RtpPacket): Outcome {
    var continued := Continue(s, packet);
    continued.Then(Hear(continued.state, packet.frame))
  }

  /** `_drain_pending`. */
  function Drain(s: State): Outcome
    decreases |s.pending|
  {
    if s.expectedSequence.None? || s.expectedSequence.value !in s.pending then Outcome(s, [])
    else
      var packet := s.pending[s.expectedSequence.value];
      var popped := s.(pending := s.pending - {s.expectedSequence.value});
      AcceptLeavesPending(popped, packet);
      var accepted := Accept(popped, packet);
      accepted.Then(Drain(accepted.state))
  }

  lemma AcceptLeavesPending(s: State, packet: RtpPacket)
    ensures Accept(s, packet).state.pending == s.pending
    ensures Accept(s, packet).state.expectedSequence == Some((packet.sequence + 1) % SEQUENCES)
  {
  }

  predicate IsStale(sequence: nat, expected: nat) {
    (expected - sequence) % SEQUENCES <= HALF_RANGE
  }

  /** `push`. */
  function Push(s: State, packet: RtpPacket): Outcome {
    var expected := s.expectedSequence.UnwrapOr(packet.sequence);
    var known := s.(expectedSequence := Some(expected));
    if packet.sequence == expected then
      var accepted := Accept(known, packet);
      accepted.Then(Drain(accepted.state))
    else if packet.sequence == (expected + 1) % SEQUENCES then
      Outcome(if packet.sequence in s.pending then known
              else known.(pending := s.pending[packet.sequence := packet]), [])
    else if packet.sequence in s.pending || IsStale(packet.sequence, expected) then
      Outcome(known, [])
    else
      var cut := Finalize(known, Gap);
      cut.Then(Accept(
        cut.state.(pending := map[], expectedSequence := Some(packet.sequence), expectedTimestamp := None), packet))
  }

  /** `disconnect`. */
  function Leave(s: State): Outcome {
    var cut := Finalize(s, Disconnect);
    cut.(state := cut.state.(
      preRoll := [], pending := map[], expectedSequence := None, expectedTimestamp := None, cleared := |cut.state.heard|))
  }

  datatype Input = Received(packet: RtpPacket) | Left

  function Step(s: State, input: Input): Outcome {
    match input
    case Received(packet) => Push(s, packet)
    case Left => Leave(s)
  }

  /** Only the packet after the expected one is ever held back. */
  predicate HoldsOne(s: State) {
    && (forall k <- s.pending :: s.expectedSequence.Some? && k == (s.expectedSequence.value + 1) % SEQUENCES)
    && (s.expectedSequence.Some? ==> s.expectedSequence.value < SEQUENCES)
    && (forall k <- s.pending :: s.pending[k].sequence == k)
  }

  lemma DrainsAtMostOne(s: State, sequence: nat)
    requires s.expectedSequence == Some(sequence) && sequence < SEQUENCES
    requires forall k <- s.pending :: k == sequence && s.pending[k].sequence == k
    ensures Drain(s) == if sequence in s.pending then Accept(s.(pending := map[]), s.pending[sequence]) else Outcome(s, [])
    ensures Drain(s).state.pending == map[]
    ensures Drain(s).state.expectedSequence.Some? && Drain(s).state.expectedSequence.value < SEQUENCES
  {
    if sequence in s.pending {
      assert s.pending - {sequence} == map[];
      AcceptLeavesPending(s.(pending := map[]), s.pending[sequence]);
    } else {
      assert s.pending == map[];
    }
  }

  lemma StepHoldsOne(s: State, input: Input)
    requires HoldsOne(s) && Sequenced(input)
    ensures HoldsOne(Step(s, input).state)
  {
    hide Accept, Drain;
    if input.Received? {
      var packet := input.packet;
      var expected := s.expectedSequence.UnwrapOr(packet.sequence);
      var known := s.(expectedSequence := Some(expected));
      AcceptLeavesPending(known, packet);
      if packet.sequence == expected {
        DrainsAtMostOne(Accept(known, packet).state, (expected + 1) % SEQUENCES);
      }
      var cut := Finalize(known, Gap);
      AcceptLeavesPending(
        cut.state.(pending := map[], expectedSequence := Some(packet.sequence), expectedTimestamp := None), packet);
    }
  }

  /** Every run from `EMPTY` keeps the invariants below. */
  function Run(s: State, inputs: seq<Input>): (outcome: Outcome)
    ensures Inv(s, []) ==> Inv(outcome.state, outcome.events)
    ensures HoldsOne(s) && (forall i :: 0 <= i < |inputs| ==> Sequenced(inputs[i])) ==> HoldsOne(outcome.state)
  {
    hide Inv, Step, HoldsOne, Sequenced;
    if inputs == [] then Outcome(s, [])
    else
      var before := Run(s, inputs[..|inputs| - 1]);
      var last := inputs[|inputs| - 1];
      assert Inv(s, []) ==> Inv(Step(before.state, last).state, before.events + Step(before.state, last).events) by {
        if Inv(s, []) { StepKeeps(before.state, before.events, last); }
      }
      assert HoldsOne(before.state) && Sequenced(last) ==> HoldsOne(Step(before.state, last).state) by {
        if HoldsOne(before.state) && Sequenced(last) { StepHoldsOne(before.state, last); }
      }
      before.Then(Step(before.state, last))
  }

  predicate Sequenced(input: Input) {
    input.Received? ==> input.packet.sequence < SEQUENCES
  }

  predicate Numbered(stream: seq<RtpPacket>, base: nat) {
    forall i :: 0 <= i < |stream| ==> stream[i].sequence == (base + i) % SEQUENCES
  }

  /** The oldest packet not yet received; equals `MissingIsOldest`'s characterization on every allowed order. */
  function Missing(received: seq<nat>): nat {
    if received == [] then 0
    else
      var earlier := received[..|received| - 1];
      if received[|received| - 1] != Missing(earlier) then Missing(earlier)
      else if Missing(earlier) + 1 in earlier then Missing(earlier) + 2
      else Missing(earlier) + 1
  }

  /**
   * Packets by number, as a network with adjacent swaps and duplicates hands them over: the first one comes
   * first, and each is at most one ahead of the oldest one missing and at most 32768 behind it.
   */
  ghost predicate Allowed(received: seq<nat>) {
    && (received != [] ==> received[0] == 0)
    && forall k :: 0 <= k < |received| ==> Fits(received[k], Missing(received[..k]))
  }

  predicate Fits(number: nat, missing: nat) {
    number <= missing + 1 && missing - number <= HALF_RANGE
  }

  lemma AllowedEarlier(received: seq<nat>)
    requires received != [] && Allowed(received)
    ensures Allowed(received[..|received| - 1])
    ensures Fits(received[|received| - 1], Missing(received[..|received| - 1]))
  {
    var earlier := received[..|received| - 1];
    forall k | 0 <= k < |earlier| ensures Fits(earlier[k], Missing(earlier[..k])) {
      assert earlier[..k] == received[..k];
    }
  }

  ghost predicate Oldest(missing: nat, received: seq<nat>) {
    && missing !in received
    && (forall i: nat :: i < missing ==> i in received)
    && (forall i <- received :: i <= missing + 1)
  }

  lemma OldestMoves(missing: nat, earlier: seq<nat>, number: nat)
    requires Oldest(missing, earlier) && number <= missing + 1
    ensures Oldest(if number != missing then missing else if missing + 1 in earlier then missing + 2 else missing + 1,
                   earlier + [number])
  {
    forall i: nat | i in earlier + [number] ensures i in earlier || i == number { }
    forall i: nat | i in earlier || i == number ensures i in earlier + [number] {
      if i == number { assert (earlier + [number])[|earlier|] == number; }
    }
  }

  lemma {:induction false} MissingIsOldest(received: seq<nat>)
    requires Allowed(received)
    ensures Oldest(Missing(received), received)
  {
    hide Allowed, Oldest;
    if received != [] {
      var earlier, number := received[..|received| - 1], received[|received| - 1];
      AllowedEarlier(received);
      MissingIsOldest(earlier);
      OldestMoves(Missing(earlier), earlier, number);
      assert received == earlier + [number];
    } else {
      assert Oldest(0, []) by { NothingIsMissingFirst(); }
    }
  }

  lemma NothingIsMissingFirst()
    ensures Oldest(0, [])
  {
  }

  lemma WrapStep(a: nat)
    ensures (a % SEQUENCES + 1) % SEQUENCES == (a + 1) % SEQUENCES
  {
  }

  lemma WrapDistance(a: nat, d: nat)
    requires d < SEQUENCES && d <= a
    ensures (a % SEQUENCES - (a - d) % SEQUENCES) % SEQUENCES == d
  {
  }

  /** A stream received in order never holds anything back. */
  lemma {:induction false} InOrderHoldsNothing(s: State, stream: seq<RtpPacket>, base: nat, n: nat)
    requires s.expectedSequence == None && s.pending == map[] && Numbered(stream, base) && n <= |stream|
    ensures var state := Run(s, Deliveries(stream, n)).state;
            && state.pending == map[]
            && state.expectedSequence == if n == 0 then None else Some((base + n) % SEQUENCES)
  {
    hide Push, Run, Numbered;
    if n == 0 {
      assert Deliveries(stream, 0) == [];
      NothingRun(s);
    } else {
      assert stream[n - 1].sequence == (base + n - 1) % SEQUENCES by { NumberAt(stream, base, n - 1); }
      InOrderHoldsNothing(s, stream, base, n - 1);
      OneMoreDelivery(s, stream, n - 1);
      var state := Run(s, Deliveries(stream, n - 1)).state;
      PushExpected(state, map[], stream[n - 1], stream[n - 1]);
      WrapStep(base + n - 1);
    }
  }

  lemma NothingRun(s: State)
    ensures Run(s, []) == Outcome(s, [])
  {
  }

  lemma NumberAt(stream: seq<RtpPacket>, base: nat, i: nat)
    requires Numbered(stream, base) && i < |stream|
    ensures stream[i].sequence == (base + i) % SEQUENCES
  {
  }

  function Deliveries(stream: seq<RtpPacket>, n: nat): (inputs: seq<Input>)
    requires n <= |stream|
  {
    seq(n, i requires 0 <= i < n => Received(stream[i]))
  }

  lemma OneMoreDelivery(s: State, stream: seq<RtpPacket>, n: nat)
    requires n < |stream|
    ensures Run(s, Deliveries(stream, n + 1))
         == var before := Run(s, Deliveries(stream, n)); before.Then(Push(before.state, stream[n]))
  {
    assert Deliveries(stream, n + 1)[..n] == Deliveries(stream, n);
  }

  /** The expected packet, with or without its successor held back. */
  lemma PushExpected(t: State, held: map<nat, RtpPacket>, packet: RtpPacket, next: RtpPacket)
    requires t.pending == map[] && packet.sequence < SEQUENCES
    requires t.expectedSequence == None || t.expectedSequence == Some(packet.sequence)
    requires held == map[] || (held == map[next.sequence := next] && next.sequence == (packet.sequence + 1) % SEQUENCES)
    ensures Push(t, packet) == Accept(t.(expectedSequence := Some(packet.sequence)), packet)
    ensures Push(t, packet).state.pending == map[]
    ensures Push(t, packet).state.expectedSequence == Some((packet.sequence + 1) % SEQUENCES)
    ensures Push(t.(pending := held), packet) == if held == map[] then Push(t, packet)
            else Push(t, packet).Then(Push(Push(t, packet).state, next))
  {
    hide Hear, Continue;
    var known := t.(expectedSequence := Some(packet.sequence));
    var one := Accept(known, packet);
    AcceptLeavesPending(known, packet);
    DrainsAtMostOne(one.state, (packet.sequence + 1) % SEQUENCES);
    if held != map[] {
      var both := Accept(known.(pending := held), packet);
      AcceptIgnoresPending(known, held, packet);
      DrainsAtMostOne(both.state, next.sequence);
      assert both.state.(pending := map[]) == one.state;
      AcceptLeavesPending(one.state, next);
      DrainsAtMostOne(Accept(one.state, next).state, (next.sequence + 1) % SEQUENCES);
    }
  }

  lemma AcceptIgnoresPending(s: State, held: map<nat, RtpPacket>, packet: RtpPacket)
    ensures Accept(s.(pending := held), packet)
         == var o := Accept(s, packet); o.(state := o.state.(pending := held))
  {
    hide Hear, Continue;
    ContinueIgnoresPending(s, held, packet);
    HearIgnoresPending(Continue(s, packet).state, held, packet.frame);
  }

  lemma ContinueIgnoresPending(s: State, held: map<nat, RtpPacket>, packet: RtpPacket)
    ensures Continue(s.(pending := held), packet)
         == var o := Continue(s, packet); o.(state := o.state.(pending := held))
  {
  }

  lemma HearIgnoresPending(s: State, held: map<nat, RtpPacket>, frame: Frame)
    ensures Hear(s.(pending := held), frame)
         == var o := Hear(s, frame); o.(state := o.state.(pending := held))
  {
    hide IsSpeech, Remembered;
  }

  /** The packet after the expected one is held back, and held back only once. */
  lemma PushAhead(t: State, held: map<nat, RtpPacket>, e: nat, packet: RtpPacket)
    requires t.expectedSequence == Some(e) && e < SEQUENCES && packet.sequence == (e + 1) % SEQUENCES
    requires held == map[] || held == map[packet.sequence := packet]
    ensures Push(t.(pending := held), packet) == Outcome(t.(pending := map[packet.sequence := packet]), [])
  {
    hide Accept, Drain, Finalize;
    assert t.(pending := held).(expectedSequence := Some(e)) == t.(pending := held);
  }

  lemma PushLate(t: State, held: map<nat, RtpPacket>, e: nat, packet: RtpPacket)
    requires t.expectedSequence == Some(e) && e < SEQUENCES && packet.sequence < SEQUENCES
    requires 1 <= (e - packet.sequence) % SEQUENCES <= HALF_RANGE
    ensures Push(t.(pending := held), packet) == Outcome(t.(pending := held), [])
  {
    hide Accept, Drain, Finalize;
    assert t.(pending := held).(expectedSequence := Some(e)) == t.(pending := held);
  }

  function Held(stream: seq<RtpPacket>, received: seq<nat>): map<nat, RtpPacket> {
    var ahead := Missing(received) + 1;
    if ahead in received && ahead < |stream| then map[stream[ahead].sequence := stream[ahead]] else map[]
  }

  function Arrivals(stream: seq<RtpPacket>, received: seq<nat>): (inputs: seq<Input>)
    requires forall i <- received :: i < |stream|
  {
    seq(|received|, k requires 0 <= k < |received| => assert received[k] in received; Received(stream[received[k]]))
  }

  ghost predicate Restored(s: State, stream: seq<RtpPacket>, received: seq<nat>, got: Outcome) {
    && Missing(received) <= |stream|
    && var ordered := Run(s, Deliveries(stream, Missing(received)));
       got == ordered.(state := ordered.state.(pending := Held(stream, received)))
  }

  /** One arrival in words of the state an in-order delivery of `m` packets leaves. */
  lemma ArrivalAtExpected(t: State, stream: seq<RtpPacket>, base: nat, m: nat, ahead: bool)
    requires t.pending == map[] && t.expectedSequence == (if m == 0 then None else Some((base + m) % SEQUENCES))
    requires Numbered(stream, base) && m < |stream| && (ahead ==> m + 1 < |stream|)
    ensures var held := if ahead then map[stream[m + 1].sequence := stream[m + 1]] else map[];
            Push(t.(pending := held), stream[m])
            == if ahead then Push(t, stream[m]).Then(Push(Push(t, stream[m]).state, stream[m + 1])) else Push(t, stream[m])
  {
    hide Push, Numbered;
    NumberAt(stream, base, m);
    if ahead {
      NumberAt(stream, base, m + 1);
      WrapStep(base + m);
      assert stream[m + 1].sequence in map[stream[m + 1].sequence := stream[m + 1]];
      PushExpected(t, map[stream[m + 1].sequence := stream[m + 1]], stream[m], stream[m + 1]);
    } else {
      PushExpected(t, map[], stream[m], stream[m]);
    }
  }

  lemma ArrivalElsewhere(t: State, held: map<nat, RtpPacket>, stream: seq<RtpPacket>, base: nat, m: nat, number: nat)
    requires m > 0 && t.pending == map[] && t.expectedSequence == Some((base + m) % SEQUENCES)
    requires Numbered(stream, base) && number < |stream| && number != m && Fits(number, m)
    requires held == map[] || (m + 1 < |stream| && held == map[stream[m + 1].sequence := stream[m + 1]])
    ensures Push(t.(pending := held), stream[number])
         == Outcome(t.(pending := if number > m then map[stream[number].sequence := stream[number]] else held), [])
  {
    hide Push, Numbered;
    NumberAt(stream, base, number);
    if number == m + 1 {
      WrapStep(base + m);
      PushAhead(t, held, (base + m) % SEQUENCES, stream[number]);
    } else {
      WrapDistance(base + m, m - number);
      PushLate(t, held, (base + m) % SEQUENCES, stream[number]);
    }
  }

  lemma HeldMoves(stream: seq<RtpPacket>, earlier: seq<nat>, number: nat)
    requires Oldest(Missing(earlier), earlier) && Fits(number, Missing(earlier))
    requires number < |stream| && forall i <- earlier :: i < |stream|
    ensures var m, all := Missing(earlier), earlier + [number];
            && (number == m ==> Held(stream, all) == map[] && Missing(all) == if m + 1 in earlier then m + 2 else m + 1)
            && (number == m + 1 ==> Held(stream, all) == map[stream[number].sequence := stream[number]])
            && (number < m ==> Held(stream, all) == Held(stream, earlier))
            && (number != m ==> Missing(all) == m)
            && (m + 1 in earlier ==> m + 1 < |stream|)
  {
    hide Missing;
    MissingMoves(earlier, number);
    var m, all := Missing(earlier), earlier + [number];
    assert m + 2 !in earlier && m + 3 !in earlier;
    assert number in all;
    forall i: nat | i in all ensures i in earlier || i == number { }
    forall i: nat | i in earlier ensures i in all { }
  }

  lemma OneMoreArrival(s: State, stream: seq<RtpPacket>, base: nat, earlier: seq<nat>, number: nat, got: Outcome)
    requires s.expectedSequence == None && s.pending == map[] && Numbered(stream, base)
    requires Restored(s, stream, earlier, got) && Oldest(Missing(earlier), earlier) && Fits(number, Missing(earlier))
    requires if earlier == [] then number == 0 else 0 in earlier
    requires number < |stream| && forall i <- earlier :: i < |stream|
    ensures Restored(s, stream, earlier + [number], got.Then(Push(got.state, stream[number])))
  {
    hide Run, Push, Numbered, Missing;
    var m := Missing(earlier);
    HeldMoves(stream, earlier, number);
    var ordered := Run(s, Deliveries(stream, m));
    InOrderHoldsNothing(s, stream, base, m);
    if number != m {
      ArrivalElsewhere(ordered.state, Held(stream, earlier), stream, base, m, number);
    } else {
      ArrivalAtExpected(ordered.state, stream, base, m, m + 1 in earlier);
      InOrderHoldsNothing(s, stream, base, m + 1);
      OneMoreDelivery(s, stream, m);
      if m + 1 in earlier {
        InOrderHoldsNothing(s, stream, base, m + 2);
        OneMoreDelivery(s, stream, m + 1);
        var one := Push(ordered.state, stream[m]);
        ThenAssociates(ordered, one, Push(one.state, stream[m + 1]));
      }
    }
  }

  lemma FirstComesFirst(received: seq<nat>)
    requires received != [] && Allowed(received)
    ensures received[0] == 0
  {
  }

  lemma ThenAssociates(a: Outcome, b: Outcome, c: Outcome)
    ensures a.Then(b).Then(c) == a.Then(b.Then(c))
  {
    assert (a.events + b.events) + c.events == a.events + (b.events + c.events);
  }

  lemma MissingMoves(earlier: seq<nat>, number: nat)
    ensures Missing(earlier + [number])
         == if number != Missing(earlier) then Missing(earlier)
            else if Missing(earlier) + 1 in earlier then Missing(earlier) + 2 else Missing(earlier) + 1
  {
    assert (earlier + [number])[..|earlier|] == earlier;
  }

  /**
   * Adjacent swaps after the first packet and duplicates up to 32768 old leave no trace: the events are those
   * of the packets up to the oldest missing one in order, each once, also across the 16-bit wrap.
   */
  lemma {:induction false} SwapsAndDuplicatesVanish(s: State, stream: seq<RtpPacket>, base: nat, received: seq<nat>)
    requires s.expectedSequence == None && s.pending == map[] && Numbered(stream, base)
    requires Allowed(received) && forall i <- received :: i < |stream|
    ensures Missing(received) <= |stream|
    ensures var ordered := Run(s, Deliveries(stream, Missing(received)));
            Run(s, Arrivals(stream, received)) == ordered.(state := ordered.state.(pending := Held(stream, received)))
  {
    hide Push, Numbered, Allowed, Run, Missing, Oldest, Fits, Held;
    if received == [] {
      NothingArrived(s, stream);
    } else {
      var earlier, number := received[..|received| - 1], received[|received| - 1];
      AllowedEarlier(received);
      FirstComesFirst(received);
      assert if earlier == [] then number == 0 else 0 in earlier by {
        assert earlier != [] ==> earlier[0] == received[0];
      }
      assert number in received;
      forall i <- earlier ensures i < |stream| { assert i in received; }
      SwapsAndDuplicatesVanish(s, stream, base, earlier);
      MissingIsOldest(earlier);
      OneMoreArrived(s, stream, received);
      OneMoreArrival(s, stream, base, earlier, number, Run(s, Arrivals(stream, earlier)));
      assert earlier + [number] == received;
    }
  }

  /** What a network may do next: hand over the next packet, the next two swapped, or an old one again. */
  datatype Delivery = InTurn | Swap | Repeat(number: nat)

  predicate Repeats(delivery: Delivery, count: nat) {
    delivery.Repeat? ==> delivery.number < count && count - delivery.number <= HALF_RANGE
  }

  /** How many different packets a script has handed over. */
  function Count(script: seq<Delivery>): nat {
    if script == [] then 0
    else
      Count(script[..|script| - 1])
      + match script[|script| - 1] case InTurn => 1 case Swap => 2 case Repeat(_) => 0
  }

  function Numbers(script: seq<Delivery>): seq<nat> {
    if script == [] then []
    else
      var n := Count(script[..|script| - 1]);
      Numbers(script[..|script| - 1])
      + match script[|script| - 1] case InTurn => [n] case Swap => [n + 1, n] case Repeat(number) => [number]
  }

  ghost predicate Legal(script: seq<Delivery>) {
    && (script != [] ==> script[0] == InTurn)
    && forall k :: 0 <= k < |script| ==> Repeats(script[k], Count(script[..k]))
  }

  lemma OneMoreFits(received: seq<nat>, number: nat)
    requires Allowed(received) && Fits(number, Missing(received)) && (received == [] ==> number == 0)
    ensures Allowed(received + [number])
  {
    hide Missing, Fits;
    var all := received + [number];
    forall k | 0 <= k < |all| ensures Fits(all[k], Missing(all[..k])) {
      assert all[..k] == if k < |received| then received[..k] else received;
    }
  }

  /** An allowed order in which the first `n` packets have come and nothing else. */
  ghost predicate Settled(received: seq<nat>, n: nat) {
    && Allowed(received) && Missing(received) == n && Oldest(n, received) && n + 1 !in received
    && (received == [] ==> n == 0)
  }

  lemma OnePacketSettles(received: seq<nat>, n: nat, number: nat)
    requires Settled(received, n) && number <= n && Fits(number, n) && (received == [] ==> number == 0)
    ensures Settled(received + [number], if number == n then n + 1 else n)
  {
    hide Allowed, Missing, Oldest;
    Arrives(received, n, number);
  }

  lemma SwapSettles(received: seq<nat>, n: nat)
    requires Settled(received, n) && received != []
    ensures Settled(received + [n + 1, n], n + 2)
  {
    hide Allowed, Missing, Oldest;
    Arrives(received, n, n + 1);
    Arrives(received + [n + 1], n, n);
    assert received + [n + 1] + [n] == received + [n + 1, n];
  }

  /** Every script is an allowed order that leaves nothing held back. */
  lemma {:induction false} ScriptsAreAllowed(script: seq<Delivery>)
    requires Legal(script)
    ensures Settled(Numbers(script), Count(script))
    ensures script != [] ==> Numbers(script) != []
  {
    hide Settled;
    if script == [] {
      NothingIsSettled();
    } else {
      var front, last := script[..|script| - 1], script[|script| - 1];
      LegalEarlier(script);
      ScriptsAreAllowed(front);
      var received, n := Numbers(front), Count(front);
      NothingReceived(received, n);
      match last
      case InTurn => OnePacketSettles(received, n, n);
      case Repeat(number) => OnePacketSettles(received, n, number);
      case Swap => SwapSettles(received, n);
    }
  }

  lemma NothingReceived(received: seq<nat>, n: nat)
    requires Settled(received, n)
    ensures received == [] ==> n == 0
  {
  }

  lemma NothingIsSettled()
    ensures Settled([], 0)
  {
    NothingIsMissingFirst();
  }

  lemma LegalEarlier(script: seq<Delivery>)
    requires script != [] && Legal(script)
    ensures Legal(script[..|script| - 1]) && Repeats(script[|script| - 1], Count(script[..|script| - 1]))
    ensures |script| == 1 ==> script[0] == InTurn
    ensures |script| > 1 ==> script[..|script| - 1] != []
  {
    hide Count, Repeats;
    var front := script[..|script| - 1];
    forall k | 0 <= k < |front| ensures Repeats(front[k], Count(front[..k])) {
      assert front[..k] == script[..k];
    }
  }

  lemma Arrives(received: seq<nat>, missing: nat, number: nat)
    requires Allowed(received) && Missing(received) == missing && Oldest(missing, received)
    requires Fits(number, missing) && (received == [] ==> number == 0)
    ensures var all := received + [number];
            && Allowed(all) && Oldest(Missing(all), all)
            && Missing(all) == (if number != missing then missing else if missing + 1 in received then missing + 2 else missing + 1)
            && (missing + 1 !in received ==> missing + 2 !in all && (number <= missing ==> Missing(all) + 1 !in all))
            && (number == missing && missing + 1 in received ==> Missing(all) + 1 !in all)
            && (number == missing + 1 ==> missing + 1 in all)
  {
    hide Allowed;
    OneMoreFits(received, number);
    MissingMoves(received, number);
    hide Missing;
    OldestMoves(missing, received, number);
    forall i: nat | i in received + [number] ensures i in received || i == number { }
    assert (received + [number])[|received|] == number;
  }

  /**
   * In words of the network: any mixture of packets in turn, disjoint adjacent swaps after the first packet
   * and repetitions up to 32768 old gives the events, and the state, of the plain stream.
   */
  lemma ScriptsLeaveNoTrace(s: State, stream: seq<RtpPacket>, base: nat, script: seq<Delivery>)
    requires s.expectedSequence == None && s.pending == map[] && Numbered(stream, base)
    requires Legal(script) && forall i <- Numbers(script) :: i < |stream|
    ensures Count(script) <= |stream|
    ensures Run(s, Arrivals(stream, Numbers(script))) == Run(s, Deliveries(stream, Count(script)))
  {
    hide Run, Numbered, Legal, Allowed, Missing, Oldest, Numbers, Count;
    ScriptsAreAllowed(script);
    SwapsAndDuplicatesVanish(s, stream, base, Numbers(script));
    InOrderHoldsNothing(s, stream, base, Count(script));
  }

  lemma NothingArrived(s: State, stream: seq<RtpPacket>)
    requires s.pending == map[]
    ensures Missing([]) == 0 && Held(stream, []) == map[]
    ensures Run(s, Arrivals(stream, [])) == Outcome(s, []) == Run(s, Deliveries(stream, 0))
  {
    assert Arrivals(stream, []) == [] == Deliveries(stream, 0);
  }

  lemma OneMoreArrived(s: State, stream: seq<RtpPacket>, received: seq<nat>)
    requires received != [] && forall i <- received :: i < |stream|
    ensures var earlier, number := received[..|received| - 1], received[|received| - 1];
            && (forall i <- earlier :: i < |stream|) && number < |stream|
            && var before := Run(s, Arrivals(stream, earlier));
               Run(s, Arrivals(stream, received)) == before.Then(Push(before.state, stream[number]))
  {
    hide Push;
    var earlier, number := received[..|received| - 1], received[|received| - 1];
    assert number in received;
    forall i <- earlier ensures i < |stream| { assert i in received; }
    assert Arrivals(stream, received)[..|earlier|] == Arrivals(stream, earlier);
  }

  function Floor(spans: seq<Span>): nat {
    if spans == [] then 0 else spans[|spans| - 1].end
  }

  function At(heard: seq<Frame>, span: Span): seq<Frame> {
    if span.start <= span.end <= |heard| then heard[span.start..span.end] else []
  }

  predicate NoSpeech(heard: seq<Frame>, from: nat, to: nat) {
    forall i :: from <= i < to && i < |heard| ==> !IsSpeech(heard[i])
  }

  predicate Begins<T(==)>(a: seq<T>, b: seq<T>) {
    |a| <= |b| && b[..|a|] == a
  }

  /** Non-empty, short, behind the one before, and no speech is lost between the two. */
  predicate SpanFits(heard: seq<Frame>, floor: nat, span: Span) {
    floor <= span.start < span.end <= |heard| && span.end - span.start <= LONGEST && NoSpeech(heard, floor, span.start)
  }

  ghost predicate SpansFit(heard: seq<Frame>, spans: seq<Span>) {
    forall i :: 0 <= i < |spans| ==> SpanFits(heard, Floor(spans[..i]), spans[i])
  }

  predicate Bounded(s: State) {
    && |s.preRoll| <= PRE_ROLL_FRAMES && s.silence < SILENCE_FRAMES
    && |s.utterance| < FORCED_FRAMES + s.silence
    && (s.utterance == [] ==> s.silence == 0)
  }

  /** Exactly the last `silence` frames are quiet. */
  predicate Trails(frames: seq<Frame>, silence: nat) {
    && silence < |frames| && IsSpeech(frames[|frames| - 1 - silence])
    && NoSpeech(frames, |frames| - silence, |frames|)
  }

  predicate Ends(frames: seq<Frame>, heard: seq<Frame>) {
    |frames| <= |heard| && heard[|heard| - |frames|..] == frames
  }

  /** The open utterance, or the pre-roll, is the latest stretch of accepted frames. */
  ghost predicate Placed(s: State) {
    && s.turns == s.segments == |s.spans| && SpansFit(s.heard, s.spans)
    && Ends(s.utterance, s.heard) && Floor(s.spans) + |s.utterance| <= |s.heard|
    && NoSpeech(s.heard, Floor(s.spans), |s.heard| - |s.utterance|)
    && (if s.utterance == [] then Ends(s.preRoll, s.heard) && Floor(s.spans) + |s.preRoll| <= |s.heard|
        else Trails(s.utterance, s.silence))
  }

  /**
   * A final event has the frames of its span, and ends for its reason. A partial event has a beginning of
   * the frames that its turn is, or will be, finalized with.
   */
  predicate Explained(s: State, event: Event) {
    && event.turn == event.segment && event.turn >= 1 && event.frames != []
    && (event.Final? ==>
          && event.turn <= |s.spans| && event.frames == At(s.heard, s.spans[event.turn - 1])
          && (event.reason == Silence ==> Trails(event.frames, SILENCE_FRAMES))
          && (event.reason == Forced ==> |event.frames| >= FORCED_FRAMES))
    && (event.Partial? ==>
          if event.turn <= |s.spans|
          then Begins(event.frames, At(s.heard, s.spans[event.turn - 1]))
          else event.turn == |s.spans| + 1 && Begins(event.frames, s.utterance))
  }

  predicate Before(first: Event, second: Event) {
    first.turn < second.turn || (first.turn == second.turn && first.Partial?)
  }

  /** After a partial event comes another one of its turn or the final one; after that the next turn. */
  predicate Follows(first: Event, second: Event) {
    second.turn == if first.Final? then first.turn + 1 else first.turn
  }

  ghost predicate Logged(s: State, log: seq<Event>) {
    && (forall i :: 0 <= i < |log| ==> Explained(s, log[i]))
    && (forall i, j :: 0 <= i < j < |log| ==> Before(log[i], log[j]))
    && (forall i :: 0 < i < |log| ==> Follows(log[i - 1], log[i]))
  }

  /** An open utterance has been announced. */
  predicate Announced(s: State, log: seq<Event>) {
    if log == [] then s.spans == [] && s.utterance == []
    else if log[|log| - 1].Final? then s.utterance == [] && log[|log| - 1].turn == |s.spans|
    else s.utterance != [] && log[|log| - 1].turn == |s.spans| + 1
  }

  ghost predicate Inv(s: State, log: seq<Event>) {
    Bounded(s) && Placed(s) && Logged(s, log) && Announced(s, log)
  }

  /** The history only grows, and the open utterance only grows until its span is fixed. */
  predicate Grows(s: State, t: State) {
    && Begins(s.heard, t.heard)
    && (|| (t.spans == s.spans && Begins(s.utterance, t.utterance))
        || (exists span <- t.spans :: t.spans == s.spans + [span] && Begins(s.utterance, At(t.heard, span))))
  }

  lemma BeginsBegins<T>(a: seq<T>, b: seq<T>, c: seq<T>)
    requires Begins(a, b) && Begins(b, c)
    ensures Begins(a, c)
  {
    assert c[..|a|] == c[..|b|][..|a|];
  }

  lemma SameFrames(heard: seq<Frame>, more: seq<Frame>, span: Span)
    requires Begins(heard, more) && span.end <= |heard|
    ensures At(more, span) == At(heard, span)
  {
    if span.start <= span.end {
      assert more[..|heard|][span.start..span.end] == more[span.start..span.end];
    }
  }

  ghost predicate Inside(s: State) {
    forall i :: 0 <= i < |s.spans| ==> s.spans[i].end <= |s.heard|
  }

  lemma ExplainedStays(s: State, t: State, event: Event)
    requires Explained(s, event) && Grows(s, t) && Inside(s)
    ensures Explained(t, event)
  {
    hide At, Begins, Trails;
    var k := event.turn - 1;
    if k < |s.spans| {
      SameFrames(s.heard, t.heard, s.spans[k]);
      assert t.spans[k] == s.spans[k];
    } else if t.spans == s.spans && Begins(s.utterance, t.utterance) {
      BeginsBegins(event.frames, s.utterance, t.utterance);
    } else {
      var span :| span in t.spans && t.spans == s.spans + [span] && Begins(s.utterance, At(t.heard, span));
      BeginsBegins(event.frames, s.utterance, At(t.heard, span));
      assert t.spans[k] == span;
    }
  }

  lemma LogStays(s: State, t: State, log: seq<Event>)
    requires Logged(s, log) && Grows(s, t) && Inside(s)
    ensures Logged(t, log)
  {
    hide Explained, Grows, Inside, Before;
    forall i | 0 <= i < |log| ensures Explained(t, log[i]) {
      ExplainedStays(s, t, log[i]);
    }
  }

  lemma OneMoreLogged(s: State, t: State, log: seq<Event>, event: Event)
    requires Logged(s, log) && Logged(t, log) && Explained(t, event) && event.turn == |s.spans| + 1
    requires Announced(s, log)
    ensures Logged(t, log + [event])
  {
    forall i | 0 <= i < |log| ensures Before(log[i], event) {
      assert Explained(s, log[i]);
    }
    hide Explained, Before;
  }

  lemma SpansStay(heard: seq<Frame>, frame: Frame, spans: seq<Span>)
    requires SpansFit(heard, spans)
    ensures SpansFit(heard + [frame], spans)
    ensures forall i :: 0 <= i < |spans| ==> spans[i].end <= |heard|
    ensures Floor(spans) <= |heard|
  {
    hide IsSpeech;
    forall i | 0 <= i < |spans| ensures SpanFits(heard + [frame], Floor(spans[..i]), spans[i]) {
      assert SpanFits(heard, Floor(spans[..i]), spans[i]);
    }
  }

  lemma EndsGrows(frames: seq<Frame>, heard: seq<Frame>, frame: Frame)
    requires Ends(frames, heard)
    ensures Ends(frames + [frame], heard + [frame]) && Begins(heard, heard + [frame]) && Begins(frames, frames + [frame])
  {
  }

  lemma StretchGrows(s: State, frames: seq<Frame>, frame: Frame)
    requires Placed(s) && Ends(frames, s.heard) && Floor(s.spans) + |frames| <= |s.heard|
    requires frames == s.utterance || s.utterance == []
    ensures Ends(frames + [frame], s.heard + [frame]) && SpansFit(s.heard + [frame], s.spans)
    ensures NoSpeech(s.heard + [frame], Floor(s.spans), |s.heard| - |frames|)
    ensures Begins(s.heard, s.heard + [frame]) && Begins(s.utterance, frames + [frame]) && Inside(s)
  {
    hide IsSpeech, Ends, SpansFit;
    SpansStay(s.heard, frame, s.spans);
    EndsGrows(frames, s.heard, frame);
  }

  lemma SpeakKeeps(s: State, log: seq<Event>, frame: Frame)
    requires Inv(s, log) && IsSpeech(frame)
    ensures var o := Speak(s, frame);
            && Placed(o.state) && Logged(o.state, log + o.events) && Announced(o.state, log + o.events) && o.state.silence == 0
            && 1 <= |o.state.utterance| <= LONGEST && |o.state.preRoll| <= PRE_ROLL_FRAMES
  {
    hide IsSpeech, Ends, SpansFit, Logged;
    StretchGrows(s, if s.utterance == [] then s.preRoll else s.utterance, frame);
    var t := Speak(s, frame).state;
    LogStays(s, t, log);
    OneMoreLogged(s, t, log, Speak(s, frame).events[0]);
  }

  lemma LingerKeeps(s: State, log: seq<Event>, frame: Frame)
    requires Inv(s, log) && s.utterance != [] && !IsSpeech(frame)
    ensures var t := Linger(s, frame);
            && Placed(t) && Logged(t, log) && Announced(t, log) && |t.utterance| <= LONGEST && |t.utterance| < FORCED_FRAMES + t.silence
            && t.silence <= SILENCE_FRAMES && |t.preRoll| <= PRE_ROLL_FRAMES
  {
    hide IsSpeech, Ends, SpansFit, Logged;
    StretchGrows(s, s.utterance, frame);
    LogStays(s, Linger(s, frame), log);
  }

  lemma WaitKeeps(s: State, log: seq<Event>, frame: Frame)
    requires Inv(s, log) && s.utterance == [] && !IsSpeech(frame)
    ensures Inv(Wait(s, frame), log)
  {
    hide IsSpeech, SpansFit, Logged;
    StretchGrows(s, s.preRoll, frame);
    EndsGrows([], s.heard, frame);
    LogStays(s, Wait(s, frame), log);
    RememberedEnds(s.preRoll, s.heard, frame);
    QuietGrows(s.heard, Floor(s.spans), frame);
    assert Ends([], s.heard + [frame]);
    hide Remembered, Ends, NoSpeech, Grows, Inside;
  }

  lemma QuietGrows(heard: seq<Frame>, floor: nat, frame: Frame)
    requires NoSpeech(heard, floor, |heard|) && !IsSpeech(frame)
    ensures NoSpeech(heard + [frame], floor, |heard| + 1)
  {
    hide IsSpeech;
  }

  lemma RememberedEnds(preRoll: seq<Frame>, heard: seq<Frame>, frame: Frame)
    requires Ends(preRoll, heard) && |preRoll| <= PRE_ROLL_FRAMES
    ensures Ends(Remembered(preRoll, frame), heard + [frame])
    ensures |Remembered(preRoll, frame)| <= PRE_ROLL_FRAMES && |Remembered(preRoll, frame)| <= |preRoll| + 1
  {
    EndsGrows(preRoll, heard, frame);
  }

  lemma FinalizeKeeps(s: State, log: seq<Event>, reason: Reason)
    requires Placed(s) && Logged(s, log) && Announced(s, log) && |s.utterance| <= LONGEST
    requires s.utterance == [] ==> Bounded(s)
    requires reason == Silence ==> s.silence == SILENCE_FRAMES
    requires reason == Forced ==> |s.utterance| >= FORCED_FRAMES
    ensures var o := Finalize(s, reason); Inv(o.state, log + o.events) && o.state.utterance == []
  {
    hide IsSpeech, Logged, Trails, SpansFit, NoSpeech;
    if s.utterance == [] {
      assert log + [] == log;
    } else {
      var o := Finalize(s, reason);
      var span := Span(|s.heard| - |s.utterance|, |s.heard|);
      OneMoreSpan(s.heard, s.spans, span);
      LogStays(s, o.state, log);
      OneMoreLogged(s, o.state, log, o.events[0]);
    }
  }

  lemma OneMoreSpan(heard: seq<Frame>, spans: seq<Span>, span: Span)
    requires SpansFit(heard, spans) && SpanFits(heard, Floor(spans), span)
    ensures SpansFit(heard, spans + [span])
    ensures forall i :: 0 <= i < |spans| ==> spans[i].end <= |heard|
    ensures NoSpeech(heard, |heard|, |heard|)
  {
    hide IsSpeech, NoSpeech, SpanFits;
    forall i | 0 <= i < |spans + [span]| ensures SpanFits(heard, Floor((spans + [span])[..i]), (spans + [span])[i]) {
      assert (spans + [span])[..i] == spans[..i];
      if i < |spans| {
        assert SpanFits(heard, Floor(spans[..i]), spans[i]);
      } else {
        assert spans[..i] == spans;
      }
    }
    forall i | 0 <= i < |spans| ensures spans[i].end <= |heard| {
      SpanInside(heard, Floor(spans[..i]), spans[i]);
    }
    NothingUnheard(heard);
  }

  lemma SpanInside(heard: seq<Frame>, floor: nat, span: Span)
    requires SpanFits(heard, floor, span)
    ensures span.end <= |heard|
  {
  }

  lemma NothingUnheard(heard: seq<Frame>)
    ensures NoSpeech(heard, |heard|, |heard|)
  {
  }

  lemma HearKeeps(s: State, log: seq<Event>, frame: Frame)
    requires Inv(s, log)
    ensures var o := Hear(s, frame); Inv(o.state, log + o.events)
  {
    hide IsSpeech, Placed, Logged, Finalize, Linger, Wait;
    assert log + [] == log;
    if IsSpeech(frame) {
      var o := Speak(s, frame);
      SpeakKeeps(s, log, frame);
      if |o.state.utterance| >= FORCED_FRAMES {
        FinalizeKeeps(o.state, log + o.events, Forced);
        var cut := Finalize(o.state, Forced);
        assert (log + o.events) + cut.events == log + (o.events + cut.events);
      }
    } else if s.utterance != [] {
      LingerKeeps(s, log, frame);
      LingerCounts(s, frame);
      if Linger(s, frame).silence == SILENCE_FRAMES {
        FinalizeKeeps(Linger(s, frame), log, Silence);
      }
    } else {
      WaitKeeps(s, log, frame);
    }
  }

  lemma LingerCounts(s: State, frame: Frame)
    ensures Linger(s, frame).silence == s.silence + 1 && Linger(s, frame).utterance != []
  {
  }

  lemma OrderingIsApart(s: State, log: seq<Event>, pending: map<nat, RtpPacket>, sequence: Option<nat>, timestamp: Option<nat>)
    requires Inv(s, log)
    ensures Inv(s.(pending := pending, expectedSequence := sequence, expectedTimestamp := timestamp), log)
  {
    hide IsSpeech, NoSpeech, Trails, Ends, SpansFit, Before;
  }

  lemma CutKeeps(s: State, log: seq<Event>, reason: Reason)
    requires Inv(s, log) && reason != Silence && reason != Forced
    ensures var o := Finalize(s, reason); Inv(o.state, log + o.events) && o.state.utterance == []
  {
    hide Placed, Logged, Finalize;
    FinalizeKeeps(s, log, reason);
  }

  lemma AcceptKeeps(s: State, log: seq<Event>, packet: RtpPacket)
    requires Inv(s, log)
    ensures var o := Accept(s, packet); Inv(o.state, log + o.events)
  {
    hide Inv, Finalize, Hear;
    assert log + [] == log;
    CutKeeps(s, log, Gap);
    var continued := Continue(s, packet);
    var cut := if s.expectedTimestamp.Some? && packet.timestamp != s.expectedTimestamp.value
               then Finalize(s, Gap) else Outcome(s, []);
    OrderingIsApart(cut.state, log + cut.events, cut.state.pending, continued.state.expectedSequence,
                    continued.state.expectedTimestamp);
    HearKeeps(continued.state, log + continued.events, packet.frame);
    var heard := Hear(continued.state, packet.frame);
    assert (log + continued.events) + heard.events == log + (continued.events + heard.events);
  }

  lemma {:induction false} DrainKeeps(s: State, log: seq<Event>)
    requires Inv(s, log)
    ensures Inv(Drain(s).state, log + Drain(s).events)
    decreases |s.pending|
  {
    hide Inv, Accept;
    assert log + [] == log;
    if s.expectedSequence.Some? && s.expectedSequence.value in s.pending {
      var packet := s.pending[s.expectedSequence.value];
      var popped := s.(pending := s.pending - {s.expectedSequence.value});
      OrderingIsApart(s, log, popped.pending, s.expectedSequence, s.expectedTimestamp);
      AcceptLeavesPending(popped, packet);
      AcceptKeeps(popped, log, packet);
      var accepted := Accept(popped, packet);
      DrainKeeps(accepted.state, log + accepted.events);
      var drained := Drain(accepted.state);
      assert (log + accepted.events) + drained.events == log + (accepted.events + drained.events);
    }
  }

  lemma PushKeeps(s: State, log: seq<Event>, packet: RtpPacket)
    requires Inv(s, log)
    ensures Inv(Push(s, packet).state, log + Push(s, packet).events)
  {
    hide Inv, Accept, Drain, Finalize;
    assert log + [] == log;
    var expected := s.expectedSequence.UnwrapOr(packet.sequence);
    var known := s.(expectedSequence := Some(expected));
    OrderingIsApart(s, log, s.pending, Some(expected), s.expectedTimestamp);
    if packet.sequence == expected {
      AcceptKeeps(known, log, packet);
      var accepted := Accept(known, packet);
      DrainKeeps(accepted.state, log + accepted.events);
      var drained := Drain(accepted.state);
      assert (log + accepted.events) + drained.events == log + (accepted.events + drained.events);
    } else if packet.sequence == (expected + 1) % SEQUENCES {
      OrderingIsApart(s, log, s.pending[packet.sequence := packet], Some(expected), s.expectedTimestamp);
    } else if packet.sequence !in s.pending && !IsStale(packet.sequence, expected) {
      CutKeeps(known, log, Gap);
      var cut := Finalize(known, Gap);
      var reset := cut.state.(pending := map[], expectedSequence := Some(packet.sequence), expectedTimestamp := None);
      OrderingIsApart(cut.state, log + cut.events, map[], Some(packet.sequence), None);
      AcceptKeeps(reset, log + cut.events, packet);
      var accepted := Accept(reset, packet);
      assert (log + cut.events) + accepted.events == log + (cut.events + accepted.events);
    }
  }

  lemma LeaveKeeps(s: State, log: seq<Event>)
    requires Inv(s, log)
    ensures Inv(Leave(s).state, log + Leave(s).events)
  {
    hide Finalize, Logged;
    CutKeeps(s, log, Disconnect);
    var cut := Finalize(s, Disconnect);
    ForgetPreRoll(cut.state, log + cut.events);
    OrderingIsApart(cut.state.(preRoll := [], cleared := |cut.state.heard|), log + cut.events, map[], None, None);
  }

  lemma ForgetPreRoll(s: State, log: seq<Event>)
    requires Inv(s, log) && s.utterance == []
    ensures Inv(s.(preRoll := [], cleared := |s.heard|), log)
  {
    hide IsSpeech, NoSpeech, Trails, SpansFit, Before;
  }

  lemma StepKeeps(s: State, log: seq<Event>, input: Input)
    requires Inv(s, log)
    ensures Inv(Step(s, input).state, log + Step(s, input).events)
  {
    hide Inv, Push, Leave;
    if input.Received? {
      PushKeeps(s, log, input.packet);
    } else {
      LeaveKeeps(s, log);
    }
  }

  lemma EmptyIsSound()
    ensures Inv(EMPTY, []) && HoldsOne(EMPTY)
  {
  }

  lemma {:induction false} SpansInOrder(heard: seq<Frame>, spans: seq<Span>, i: nat, j: nat)
    requires SpansFit(heard, spans) && i < j < |spans|
    ensures spans[i].end <= spans[j].start && spans[j].end <= |heard|
    decreases j
  {
    hide IsSpeech;
    assert SpanFits(heard, Floor(spans[..j]), spans[j]);
    assert spans[..j][j - 1] == spans[j - 1];
    if i < j - 1 {
      SpansInOrder(heard, spans, i, j - 1);
      assert SpanFits(heard, Floor(spans[..j - 1]), spans[j - 1]);
    }
  }

  /** Finalized utterances are disjoint, ordered, contiguous stretches of the accepted frames, none above 779. */
  lemma UtterancesAreDisjoint(s: State, log: seq<Event>, i: nat, j: nat)
    requires Inv(s, log) && i < j < |log| && log[i].Final? && log[j].Final?
    ensures exists first: Span, second: Span ::
              && first.end <= second.start && second.end <= |s.heard|
              && log[i].frames == At(s.heard, first) && log[j].frames == At(s.heard, second)
              && 0 < |log[i].frames| <= 779 && 0 < |log[j].frames| <= 779
    ensures log[i].turn < log[j].turn
  {
    hide IsSpeech, NoSpeech, Trails, Ends, SpansFit, Begins;
    assert Before(log[i], log[j]) && Explained(s, log[i]) && Explained(s, log[j]);
    var a, b := log[i].turn - 1, log[j].turn - 1;
    SpansInOrder(s.heard, s.spans, a, b);
    SpanIsShort(s, a);
    SpanIsShort(s, b);
    assert s.spans[a].end <= s.spans[b].start;
  }

  lemma SpanIsShort(s: State, k: nat)
    requires Placed(s) && k < |s.spans|
    ensures |At(s.heard, s.spans[k])| <= LONGEST
  {
    hide IsSpeech, NoSpeech, Trails, Ends;
    assert SpanFits(s.heard, Floor(s.spans[..k]), s.spans[k]);
  }

  /** The final event that follows a partial one has its turn and segment, and its frames begin with the partial's. */
  lemma {:induction false} PartialsBelongToTheirFinal(s: State, log: seq<Event>, i: nat, j: nat)
    requires Inv(s, log) && i < j < |log| && log[j].Final?
    requires forall k :: i <= k < j ==> log[k].Partial?
    ensures log[i].turn == log[j].turn && log[i].segment == log[j].segment
    ensures Begins(log[i].frames, log[j].frames)
  {
    hide IsSpeech, NoSpeech, Trails, Ends, SpansFit, Begins, Placed;
    SameTurn(s, log, i, j);
    assert Explained(s, log[i]) && Explained(s, log[j]);
  }

  lemma {:induction false} SameTurn(s: State, log: seq<Event>, i: nat, j: nat)
    requires Logged(s, log) && i <= j < |log| && forall k :: i <= k < j ==> log[k].Partial?
    ensures log[i].turn == log[j].turn
    decreases j
  {
    hide Explained, Before;
    if i < j {
      SameTurn(s, log, i, j - 1);
      assert Follows(log[j - 1], log[j]);
    }
  }

  /** No accepted speech is lost: a speech frame outside every finalized utterance is in the open one. */
  lemma SpeechIsNeverLost(s: State, log: seq<Event>, at: nat)
    requires Inv(s, log) && at < |s.heard| && IsSpeech(s.heard[at])
    ensures at >= |s.heard| - |s.utterance| || exists span <- s.spans :: span.start <= at < span.end
  {
    hide IsSpeech, Trails, Ends, SpansFit, Logged;
    if at < Floor(s.spans) {
      SpeechInASpan(s.heard, s.spans, at);
    }
  }

  lemma {:induction false} SpeechInASpan(heard: seq<Frame>, spans: seq<Span>, at: nat)
    requires SpansFit(heard, spans) && at < Floor(spans) && at < |heard| && IsSpeech(heard[at])
    ensures exists span <- spans :: span.start <= at < span.end
    decreases |spans|
  {
    hide IsSpeech;
    var earlier, last := spans[..|spans| - 1], spans[|spans| - 1];
    assert SpanFits(heard, Floor(earlier), last);
    assert last in spans;
    if at < last.start {
      forall i | 0 <= i < |earlier| ensures SpanFits(heard, Floor(earlier[..i]), earlier[i]) {
        assert earlier[..i] == spans[..i];
        assert SpanFits(heard, Floor(spans[..i]), spans[i]);
      }
      SpeechInASpan(heard, earlier, at);
      var span :| span in earlier && span.start <= at < span.end;
      assert span in spans;
    }
  }

  class StreamEndpointer {
    var preRoll: seq<Frame>
    var utterance: seq<Frame>
    var pending: map<nat, RtpPacket>
    var expectedSequence: Option<nat>
    var expectedTimestamp: Option<nat>
    var silence: nat
    var turns: nat
    var segments: nat
    ghost var heard: seq<Frame>
    ghost var spans: seq<Span>
    ghost var cleared: nat
    ghost var log: seq<Event>

    ghost function Model(): State
      reads this
    {
      State(preRoll, utterance, pending, expectedSequence, expectedTimestamp, silence, turns, segments, heard, spans, cleared)
    }

    ghost predicate Valid()
      reads this
    {
      Inv(Model(), log) && HoldsOne(Model())
    }

    constructor ()
      ensures Valid() && Model() == EMPTY && log == []
    {
      preRoll, utterance, pending, silence, turns, segments := [], [], map[], 0, 0, 0;
      expectedSequence, expectedTimestamp, heard, spans, log, cleared := None, None, [], [], [], 0;
      new;
      EmptyIsSound();
    }

    method Push(packet: RtpPacket) returns (events: seq<Event>)
      requires Valid() && packet.sequence < SEQUENCES
      modifies this
      ensures Valid() && log == old(log) + events
      ensures Outcome(Model(), events) == Step(old(Model()), Received(packet))
    {
      hide Inv, HoldsOne, Accept, Drain, Finalize;
      ghost var before := Model();
      PushKeeps(before, log, packet);
      StepHoldsOne(before, Received(packet));
      if expectedSequence == None {
        expectedSequence := Some(packet.sequence);
      }
      var expected := expectedSequence.value;
      if packet.sequence == expected {
        events := AcceptOrdered(packet);
        var drained := DrainPending();
        events := events + drained;
      } else if packet.sequence == (expected + 1) % SEQUENCES {
        if packet.sequence !in pending {
          pending := pending[packet.sequence := packet];
        }
        events := [];
      } else if packet.sequence in pending || IsStale(packet.sequence, expected) {
        events := [];
      } else {
        events := FinalizeOpen(Gap);
        pending, expectedSequence, expectedTimestamp := map[], Some(packet.sequence), None;
        var accepted := AcceptOrdered(packet);
        events := events + accepted;
      }
      log := log + events;
    }

    /** `disconnect`. */
    method Close() returns (event: Option<Event>)
      requires Valid()
      modifies this
      ensures Valid() && log == old(log) + if event.Some? then [event.value] else []
      ensures Outcome(Model(), if event.Some? then [event.value] else []) == Leave(old(Model()))
    {
      hide Inv, HoldsOne, Finalize;
      LeaveKeeps(Model(), log);
      StepHoldsOne(Model(), Left);
      AtMostOneFinal(Model(), Disconnect);
      var events := FinalizeOpen(Disconnect);
      preRoll, pending, expectedSequence, expectedTimestamp, cleared := [], map[], None, None, |heard|;
      event := if events != [] then Some(events[0]) else None;
      log := log + events;
    }

    method AcceptOrdered(packet: RtpPacket) returns (events: seq<Event>)
      modifies `preRoll, `utterance, `expectedSequence, `expectedTimestamp, `silence, `turns, `segments, `heard, `spans, `cleared
      ensures Outcome(Model(), events) == Accept(old(Model()), packet)
    {
      events := [];
      if expectedTimestamp.Some? && packet.timestamp != expectedTimestamp.value {
        events := FinalizeOpen(Gap);
      }
      expectedSequence := Some((packet.sequence + 1) % SEQUENCES);
      expectedTimestamp := Some((packet.timestamp + FRAME_SAMPLES) % 0x1_0000_0000);
      var more := Listen(packet.frame);
      events := events + more;
    }

    method Listen(frame: Frame) returns (events: seq<Event>)
      modifies `preRoll, `utterance, `silence, `turns, `segments, `heard, `spans, `cleared
      ensures Outcome(Model(), events) == Hear(old(Model()), frame)
    {
      hide IsSpeech;
      events := [];
      heard := heard + [frame];
      if IsSpeech(frame) {
        if utterance == [] {
          utterance := preRoll;
        }
        utterance := utterance + [frame];
        silence := 0;
        events := [Partial(utterance, turns + 1, segments + 1)];
        if |utterance| >= FORCED_FRAMES {
          var final := FinalizeOpen(Forced);
          events := events + final;
        }
      } else if utterance != [] {
        utterance := utterance + [frame];
        silence := silence + 1;
        if silence == SILENCE_FRAMES {
          events := FinalizeOpen(Silence);
        }
      } else {
        preRoll := Remembered(preRoll, frame);
      }
    }

    method DrainPending() returns (events: seq<Event>)
      modifies this
      ensures log == old(log)
      ensures Outcome(Model(), events) == Drain(old(Model()))
    {
      hide Accept;
      events := [];
      ghost var goal := Drain(Model());
      while expectedSequence.Some? && expectedSequence.value in pending
        invariant log == old(log)
        invariant goal == Outcome(Model(), events).Then(Drain(Model()))
        decreases |pending|
      {
        ghost var done := Outcome(Model(), events);
        var packet := pending[expectedSequence.value];
        pending := pending - {expectedSequence.value};
        AcceptLeavesPending(Model(), packet);
        ghost var popped := Model();
        var accepted := AcceptOrdered(packet);
        ThenAssociates(done, Outcome(Model(), accepted), Drain(Model()));
        events := events + accepted;
      }
    }

    method FinalizeOpen(reason: Reason) returns (events: seq<Event>)
      modifies `preRoll, `utterance, `silence, `turns, `segments, `spans, `cleared
      ensures Outcome(Model(), events) == Finalize(old(Model()), reason)
    {
      if utterance == [] {
        return [];
      }
      spans, cleared := spans + [Span(Begin(Model()), |heard|)], |heard|;
      turns, segments := turns + 1, segments + 1;
      events := [Final(utterance, turns, segments, reason)];
      utterance, silence, preRoll := [], 0, [];
    }
  }

  lemma AtMostOneFinal(s: State, reason: Reason)
    ensures |Finalize(s, reason).events| <= 1
  {
  }
}
