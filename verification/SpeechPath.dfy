/**
 * src/orchestrator/onsite_bridge.py: one reply as paced RTP, from a finished clip or from a stream that is
 * still being synthesized. Pacing itself (the sleeps) is not part of this model.
 */
module SpeechPath {
  import opened Common
  import opened Pcm
  import opened RtpPackets
  import opened Resampling

  const STARTUP_BYTES := 32_000

  datatype Delivery = Sent | OutputFails | OutputCancelled

  /** What the surroundings of one reply do: the output lease, the commit callback, each delivery, the iterator's close, the end marker. */
  datatype Surroundings = Surroundings(
    lease: bool, ssrc: nat, started: bool, deliveries: seq<Delivery>, closeFails: bool,
    markerFails: bool)
  {
    predicate Valid() {
      ssrc < 0x1_0000_0000
    }

    function Delivering(k: nat): Delivery {
      if k < |deliveries| then deliveries[k] else Sent
    }

    /** The lease is granted, the first frame commits, nothing fails. */
    predicate Clean() {
      lease && started && !closeFails && !markerFails && forall k :: 0 <= k < |deliveries| ==> deliveries[k] == Sent
    }
  }

  /** What the chunk pump yields; `Stopped` is the moment the cancellation token is first seen. */
  datatype Item = Chunk(data: seq<Byte>) | ProviderError | StreamEnd | Stopped | TaskCancelled

  /** `Marker` is the call that sends the end marker. */
  datatype Event = Got(bytes: nat) | Ended | Out(packet: seq<Byte>) | Marker

  datatype Verdict = Spoke | Declined | Raised | Reraised

  datatype Emission = Went | Refused | Failed | Cancelled

  function Outputs(log: seq<Event>): seq<seq<Byte>> {
    if log == [] then []
    else
      var last := log[|log| - 1];
      Outputs(log[..|log| - 1]) + if last.Out? then [last.packet] else []
  }

  function Markers(log: seq<Event>): nat {
    multiset(log)[Marker]
  }

  function BytesGot(log: seq<Event>): nat {
    if log == [] then 0
    else
      var last := log[|log| - 1];
      BytesGot(log[..|log| - 1]) + if last.Got? then last.bytes else 0
  }

  lemma OneMoreEvent(log: seq<Event>, event: Event)
    ensures Outputs(log + [event]) == Outputs(log) + if event.Out? then [event.packet] else []
    ensures BytesGot(log + [event]) == BytesGot(log) + if event.Got? then event.bytes else 0
    ensures Markers(log + [event]) == Markers(log) + if event == Marker then 1 else 0
  {
    assert (log + [event])[..|log|] == log;
  }

  /** No packet leaves before a second of PCM has arrived or the stream has ended. */
  ghost predicate BuffersFirst(log: seq<Event>) {
    forall i :: 0 <= i < |log| && log[i].Out? ==> BytesGot(log[..i]) >= 32_000 || Ended in log[..i]
  }

  lemma StaysBuffered(log: seq<Event>, event: Event)
    requires BuffersFirst(log)
    requires event.Out? ==> BytesGot(log) >= STARTUP_BYTES || Ended in log
    ensures BuffersFirst(log + [event])
    ensures BytesGot(log + [event]) >= BytesGot(log)
    ensures Ended in log + [event] <==> Ended in log || event == Ended
  {
    OneMoreEvent(log, event);
    forall i | 0 <= i < |log + [event]| && (log + [event])[i].Out?
      ensures BytesGot((log + [event])[..i]) >= 32_000 || Ended in (log + [event])[..i]
    {
      assert (log + [event])[..i] == log[..i];
      assert log[..|log|] == log;
    }
  }

  /** Appends an event that is no packet. */
  function Noted(log: seq<Event>, event: Event): (log': seq<Event>)
    requires !event.Out?
    ensures |log'| == |log| + 1 && log'[|log|] == event
    ensures Outputs(log') == Outputs(log)
    ensures Markers(log') == Markers(log) + if event == Marker then 1 else 0
    ensures BytesGot(log') == BytesGot(log) + if event.Got? then event.bytes else 0
    ensures Ended in log' <==> Ended in log || event == Ended
    ensures BuffersFirst(log) ==> BuffersFirst(log')
  {
    OneMoreEvent(log, event);
    assert BuffersFirst(log) ==> BuffersFirst(log + [event]) by {
      if BuffersFirst(log) { StaysBuffered(log, event); }
    }
    log + [event]
  }

  predicate IsPrefix<T(==)>(a: seq<T>, b: seq<T>) {
    |a| <= |b| && b[..|a|] == a
  }

  /**
   * The delivery loop of both paths. Packets go out in order until one fails; the first success asks
   * `output_started`, whose refusal ends the reply.
   */
  method Emit(around: Surroundings, packets: seq<seq<Byte>>, before: seq<Event>, buffered: bool)
    returns (log: seq<Event>, how: Emission)
    requires around.Valid() && (Outputs(before) != [] ==> around.started)
    requires buffered ==> BuffersFirst(before) && (BytesGot(before) >= STARTUP_BYTES || Ended in before)
    ensures IsPrefix(Outputs(before), Outputs(log)) && IsPrefix(Outputs(log), Outputs(before) + packets)
    ensures Markers(log) == Markers(before) && BytesGot(log) == BytesGot(before) && (Ended in log <==> Ended in before)
    ensures buffered ==> BuffersFirst(log)
    ensures how == Went ==> Outputs(log) == Outputs(before) + packets && (Outputs(log) != [] ==> around.started)
    ensures how == Refused ==> Outputs(log) != [] && !around.started
    ensures how == Failed || how == Cancelled ==> !around.Clean() && (Outputs(log) != [] ==> around.started)
    ensures around.Clean() ==> how == Went
  {
    log := before;
    for i := 0 to |packets|
      invariant Outputs(log) == Outputs(before) + packets[..i]
      invariant Markers(log) == Markers(before) && BytesGot(log) == BytesGot(before) && (Ended in log <==> Ended in before)
      invariant buffered ==> BuffersFirst(log)
      invariant Outputs(log) != [] ==> around.started
    {
      var delivery := around.Delivering(|Outputs(log)|);
      if delivery == OutputFails {
        return log, Failed;
      }
      if delivery == OutputCancelled {
        return log, Cancelled;
      }
      OneMoreEvent(log, Out(packets[i]));
      if buffered {
        StaysBuffered(log, Out(packets[i]));
      }
      log := log + [Out(packets[i])];
      assert packets[..i + 1] == packets[..i] + [packets[i]];
      assert multiset([Out(packets[i])])[Ended] == 0;
      if !around.started {
        return log, Refused;
      }
    }
    assert packets[..|packets|] == packets;
    how := Went;
  }

  /** `_close_unfinished_stream`: a stream that was heard is ended. */
  function CloseUnfinished(log: seq<Event>, committed: bool): (log': seq<Event>)
    ensures Outputs(log') == Outputs(log) && (BuffersFirst(log) ==> BuffersFirst(log'))
    ensures Markers(log') == Markers(log) + if committed then 1 else 0
  {
    if committed then Noted(log, Marker) else log
  }

  /** `_speak_buffered_response`. */
  method SpeakBuffered(around: Surroundings, chunks: seq<seq<Byte>>) returns (log: seq<Event>, verdict: Verdict)
    requires around.Valid()
    ensures IsPrefix(Outputs(log), Packets(around.ssrc, Padded(Join(chunks))))
    ensures around.lease && |Join(chunks)| % 2 != 0 ==> log == [] && verdict == Raised
    ensures verdict == Spoke ==> Outputs(log) == Packets(around.ssrc, Padded(Join(chunks))) != []
    ensures around.Clean() && |Join(chunks)| % 2 == 0 ==>
              Outputs(log) == Packets(around.ssrc, Padded(Join(chunks))) && (verdict == Spoke <==> Join(chunks) != [])
    ensures Markers(log) == if Outputs(log) != [] && around.started && verdict != Reraised then 1 else 0
  {
    hide Packets, Padded, BytesGot, BuffersFirst, Packet;
    NothingYet(around.ssrc, Join(chunks));
    log := [];
    if !around.lease || chunks == [] {
      NothingInNoPackets(around.ssrc);
      return log, Declined;
    }
    var packets := PacketizeChunks(around.ssrc, chunks);
    if packets == None {
      return log, Raised;
    }
    if packets.value == [] {
      return log, Declined;
    }
    var how;
    log, how := Emit(around, packets.value, log, false);
    match how
    case Cancelled => verdict := Reraised;
    case Refused => verdict := Declined;
    case Failed =>
      log := CloseUnfinished(log, Outputs(log) != [] && around.started);
      verdict := Raised;
    case Went =>
      log := Noted(log, Marker);
      verdict := if around.markerFails then Raised else Spoke;
  }

  /** The chunks that arrive before the pump reports anything else. */
  function Arrived(items: seq<Item>): seq<seq<Byte>> {
    if items == [] || !items[0].Chunk? then [] else [items[0].data] + Arrived(items[1..])
  }

  /** What ends the chunks; a source that simply runs out ends them normally. */
  function Ending(items: seq<Item>): (item: Item)
    ensures !item.Chunk?
  {
    if items == [] then StreamEnd else if items[0].Chunk? then Ending(items[1..]) else items[0]
  }

  lemma JoinCons(chunk: seq<Byte>, chunks: seq<seq<Byte>>)
    ensures Join([chunk] + chunks) == chunk + Join(chunks)
  {
    if chunks != [] {
      JoinCons(chunk, chunks[..|chunks| - 1]);
      assert ([chunk] + chunks)[..|chunks|] == [chunk] + chunks[..|chunks| - 1];
    } else {
      assert [chunk] + chunks == [chunk];
      JoinOneMore([], chunk);
    }
  }

  lemma EarlierPacketsAreAPrefix(ssrc: nat, data: seq<Byte>, more: seq<Byte>)
    requires ssrc < 0x1_0000_0000
    ensures IsPrefix(Packets(ssrc, data), Packets(ssrc, Padded(data + more)))
    ensures IsPrefix(Packets(ssrc, data), Packets(ssrc, data + more))
  {
    var whole := Padded(data + more);
    PacketsGrow(ssrc, data, whole[|data|..]);
    PacketsGrow(ssrc, data, more);
    assert whole[..|data + more|][..|data|] == data;
    assert data + whole[|data|..] == whole;
  }

  lemma NextItem(items: seq<Item>)
    requires items != [] && items[0].Chunk?
    ensures Join(Arrived(items)) == items[0].data + Join(Arrived(items[1..]))
    ensures Ending(items) == Ending(items[1..])
  {
    JoinCons(items[0].data, Arrived(items[1..]));
  }

  lemma NothingLeft(items: seq<Item>)
    requires items == [] || !items[0].Chunk?
    ensures Join(Arrived(items)) == []
    ensures Ending(items) == if items == [] then StreamEnd else items[0]
  {
  }

  /** What ended a delivery loop early ends the reply. */
  function Broken(log: seq<Event>, how: Emission, started: bool): (result: (seq<Event>, Verdict))
    requires how != Went && (how == Refused ==> !started)
    ensures Outputs(result.0) == Outputs(log) && (BuffersFirst(log) ==> BuffersFirst(result.0))
    ensures result.1 != Spoke
    ensures Markers(result.0) == Markers(log) + if Outputs(log) != [] && started && result.1 != Reraised then 1 else 0
  {
    match how
    case Cancelled => (log, Reraised)
    case Refused => (log, Declined)
    case Failed => (CloseUnfinished(log, Outputs(log) != [] && started), Raised)
  }

  /** One push in mid-stream, and the delivery of what it yields. */
  method Feed(around: Surroundings, packetizer: TtsPcmRtpPacketizer, buffered: seq<Byte>, before: seq<Event>, ghost all: seq<Byte>)
    returns (log: seq<Event>, how: Emission)
    requires around.Valid() && packetizer.Valid() && !packetizer.finished && packetizer.ssrc == around.ssrc
    requires |packetizer.data + buffered| >= STARTUP_BYTES && IsPrefix(packetizer.data + buffered, all)
    requires Outputs(before) == Packets(around.ssrc, packetizer.data) && (Outputs(before) != [] ==> around.started)
    requires BuffersFirst(before) && BytesGot(before) >= STARTUP_BYTES && Markers(before) == 0 && Ended !in before
    modifies packetizer
    ensures packetizer.Valid() && !packetizer.finished && packetizer.data == old(packetizer.data) + buffered
    ensures BuffersFirst(log) && BytesGot(log) == BytesGot(before) && Markers(log) == 0 && Ended !in log
    ensures IsPrefix(Outputs(log), Packets(around.ssrc, Padded(all)))
    ensures how == Went ==> around.started && Outputs(log) == Packets(around.ssrc, packetizer.data) != []
    ensures how == Refused ==> !around.started
    ensures around.Clean() ==> how == Went
  {
    hide Packets, Padded, Outputs, Markers, BytesGot, BuffersFirst, Packet;
    var packets := packetizer.Push(buffered);
    var got := packetizer.data;
    assert all == got + all[|got|..];
    EarlierPacketsAreAPrefix(around.ssrc, got, all[|got|..]);
    log, how := Emit(around, packets.value, before, true);
    PrefixOfPrefix(Outputs(log), Packets(around.ssrc, got), Packets(around.ssrc, Padded(all)));
  }

  /**
   * The body of `_speak_streaming_response` up to its `finally`: `Spoke` means the stream ran to its end
   * with a frame committed, the marker still to be sent.
   */
  method Stream(around: Surroundings, items: seq<Item>) returns (log: seq<Event>, verdict: Verdict)
    requires around.Valid()
    ensures IsPrefix(Outputs(log), Packets(around.ssrc, Padded(Join(Arrived(items)))))
    ensures BuffersFirst(log)
    ensures verdict == Spoke ==>
              && around.started && Outputs(log) == Packets(around.ssrc, Padded(Join(Arrived(items)))) != []
              && Ending(items) == StreamEnd && Markers(log) == 0
    ensures verdict != Spoke ==>
              Markers(log) == if Outputs(log) != [] && around.started && verdict != Reraised then 1 else 0
    ensures around.Clean() && Ending(items) == StreamEnd && |Join(Arrived(items))| % 2 == 0 ==>
              (verdict == Spoke <==> Join(Arrived(items)) != []) && (verdict == Spoke || verdict == Declined)
    ensures around.Clean() && Ending(items) == StreamEnd && |Join(Arrived(items))| % 2 != 0 ==>
              verdict == Raised && (Outputs(log) != [] <==> |Join(Arrived(items))| >= STARTUP_BYTES)
  {
    hide Packets, Padded, Outputs, Markers, BytesGot, BuffersFirst, Packet, IsPrefix, Join, Arrived, Ending;
    log, verdict := [], Declined;
    var buffered: seq<Byte>, i := [], 0;
    var packetizer: TtsPcmRtpPacketizer? := null;
    ghost var all, got: seq<Byte> := Join(Arrived(items)), [];
    NothingYet(around.ssrc, all);
    assert items[0..] == items;
    while i < |items| && items[i].Chunk?
      invariant i <= |items| && all == got + Join(Arrived(items[i..])) && Ending(items) == Ending(items[i..])
      invariant BuffersFirst(log) && Markers(log) == 0 && BytesGot(log) == |got| && Ended !in log
      invariant packetizer == null ==> Outputs(log) == [] && buffered == got && |got| < STARTUP_BYTES
      invariant packetizer != null ==>
                  && packetizer.Valid() && !packetizer.finished && fresh(packetizer) && packetizer.ssrc == around.ssrc
                  && packetizer.data + buffered == got && |got| >= STARTUP_BYTES
                  && around.started && Outputs(log) == Packets(around.ssrc, packetizer.data) != []
    {
      NextItem(items[i..]);
      assert items[i..][1..] == items[i + 1..];
      var data := items[i].data;
      log, buffered, i := Noted(log, Got(|data|)), buffered + data, i + 1;
      assert (got + data) + Join(Arrived(items[i..])) == got + (data + Join(Arrived(items[i..])));
      got := got + data;
      assert IsPrefix(got, all) by { StartsWith(got, Join(Arrived(items[i..]))); }
      if |buffered| >= if packetizer == null then STARTUP_BYTES else FRAME_BYTES {
        if packetizer == null {
          if !around.lease {
            NothingYet(around.ssrc, all);
            return log, Declined;
          }
          packetizer := new TtsPcmRtpPacketizer(around.ssrc);
          NothingYet(around.ssrc, all);
        }
        assert packetizer.data + buffered == got;
        var how;
        log, how := Feed(around, packetizer, buffered, log, all);
        if how != Went {
          var (log', verdict') := Broken(log, how, around.started);
          return log', verdict';
        }
        buffered := [];
        assert packetizer.data + [] == packetizer.data;
      }
    }
    NothingLeft(items[i..]);
    assert got == all;
    log, verdict := Conclude(around, packetizer, buffered, log, if i < |items| then items[i] else StreamEnd);
  }

  /** What follows the last chunk. */
  method Conclude(around: Surroundings, started: TtsPcmRtpPacketizer?, buffered: seq<Byte>, before: seq<Event>, ending: Item)
    returns (log: seq<Event>, verdict: Verdict)
    requires around.Valid() && !ending.Chunk?
    requires started != null ==>
               && started.Valid() && !started.finished && started.ssrc == around.ssrc && around.started
               && Outputs(before) == Packets(around.ssrc, started.data) != []
    requires started == null ==> Outputs(before) == []
    requires BuffersFirst(before) && Markers(before) == 0
    modifies started
    ensures BuffersFirst(log)
    ensures var all := (if started == null then [] else old(started.data)) + buffered;
            var packets := Packets(around.ssrc, Padded(all));
            && IsPrefix(Outputs(log), packets)
            && (verdict == Spoke ==>
                  around.started && Outputs(log) == packets && packets != [] && ending == StreamEnd && Markers(log) == 0)
            && (around.Clean() && ending == StreamEnd && |all| % 2 == 0 ==> verdict == if all != [] then Spoke else Declined)
            && (around.Clean() && ending == StreamEnd && |all| % 2 != 0 ==> verdict == Raised && Outputs(log) == Outputs(before))
    ensures verdict != Spoke ==>
              Markers(log) == if Outputs(log) != [] && around.started && verdict != Reraised then 1 else 0
  {
    hide Packets, Padded, Outputs, Markers, BytesGot, BuffersFirst, Packet, IsPrefix;
    NothingYet(around.ssrc, []);
    EarlierPacketsAreAPrefix(around.ssrc, if started == null then [] else started.data, buffered);
    log, verdict := before, Declined;
    match ending
    case ProviderError => log, verdict := CloseUnfinished(log, started != null), Raised;
    case Stopped => log := CloseUnfinished(log, started != null);
    case TaskCancelled => verdict := Reraised;
    case StreamEnd =>
      log := Noted(log, Ended);
      var packetizer := started;
      if packetizer == null {
        if buffered == [] || !around.lease {
          return log, Declined;
        }
        packetizer := new TtsPcmRtpPacketizer(around.ssrc);
      } else {
        assert |Packets(around.ssrc, started.data)| > 0;
      }
      log, verdict := LastPackets(around, packetizer, buffered, log);
  }

  /** The last push and `finish`; an odd total raises before any packet of this step leaves. */
  method LastPackets(around: Surroundings, packetizer: TtsPcmRtpPacketizer, buffered: seq<Byte>, before: seq<Event>)
    returns (log: seq<Event>, verdict: Verdict)
    requires around.Valid() && packetizer.Valid() && !packetizer.finished && packetizer.ssrc == around.ssrc
    requires packetizer.data + buffered != []
    requires Outputs(before) == Packets(around.ssrc, packetizer.data) && (Outputs(before) != [] ==> around.started)
    requires BuffersFirst(before) && Ended in before && Markers(before) == 0
    modifies packetizer
    ensures BuffersFirst(log)
    ensures var all := Packets(around.ssrc, Padded(old(packetizer.data) + buffered));
            && IsPrefix(Outputs(log), all)
            && (verdict == Spoke ==> around.started && Outputs(log) == all && all != [] && Markers(log) == 0)
    ensures verdict != Spoke ==>
              Markers(log) == if Outputs(log) != [] && around.started && verdict != Reraised then 1 else 0
    ensures around.Clean() && |old(packetizer.data) + buffered| % 2 == 0 ==> verdict == Spoke
    ensures |old(packetizer.data) + buffered| % 2 != 0 ==> verdict == Raised && Outputs(log) == Outputs(before)
  {
    hide Packets, Padded, Outputs, Markers, BytesGot, BuffersFirst, Packet, IsPrefix;
    ghost var data, whole := packetizer.data, packetizer.data + buffered;
    EarlierPacketsAreAPrefix(around.ssrc, data, buffered);
    var packets := packetizer.Push(buffered);
    var last := packetizer.Finish();
    if last == None {
      return CloseUnfinished(before, Outputs(before) != [] && around.started), Raised;
    }
    assert Packets(around.ssrc, data) + (packets.value + last.value) == Packets(around.ssrc, Padded(whole));
    var how;
    log, how := Emit(around, packets.value + last.value, before, true);
    if how == Went {
      WholePrefix(Outputs(log));
      verdict := Spoke;
    } else {
      var (log', verdict') := Broken(log, how, around.started);
      log, verdict := log', verdict';
    }
  }

  /**
   * `_speak_streaming_response`. A failing `close` of the iterator replaces the outcome. Without failures
   * the packets are those of the buffered path for the same PCM. The end marker comes once after a
   * committed first frame, also when the provider fails later, and never otherwise. An odd total fails as it
   * does there, but 32000 bytes or more have already been heard in part by then, and nothing there.
   */
  method SpeakStreaming(around: Surroundings, items: seq<Item>) returns (log: seq<Event>, verdict: Verdict)
    requires around.Valid()
    ensures IsPrefix(Outputs(log), Packets(around.ssrc, Padded(Join(Arrived(items)))))
    ensures BuffersFirst(log)
    ensures around.Clean() && Ending(items) == StreamEnd && |Join(Arrived(items))| % 2 == 0 ==>
              && Outputs(log) == Packets(around.ssrc, Padded(Join(Arrived(items))))
              && (verdict == Spoke <==> Join(Arrived(items)) != [])
    ensures around.Clean() && Ending(items) == StreamEnd && |Join(Arrived(items))| % 2 != 0 ==>
              verdict == Raised && (Outputs(log) != [] <==> |Join(Arrived(items))| >= STARTUP_BYTES)
    ensures verdict == Spoke ==>
              around.started && Ending(items) == StreamEnd && Outputs(log) == Packets(around.ssrc, Padded(Join(Arrived(items)))) != []
    ensures !around.closeFails ==>
              Markers(log) == if Outputs(log) != [] && around.started && verdict != Reraised then 1 else 0
    ensures around.closeFails ==> verdict == Raised && Markers(log) <= 1
    ensures Outputs(log) == [] || !around.started ==> Markers(log) == 0
  {
    hide Packets, Padded, Outputs, Markers, BytesGot, BuffersFirst, Packet, Join, Arrived, Ending;
    log, verdict := Stream(around, items);
    NothingYet(around.ssrc, []);
    EarlierPacketsAreAPrefix(around.ssrc, Join(Arrived(items)), []);
    if around.closeFails {
      verdict := Raised;
    } else if verdict == Spoke {
      log := Noted(log, Marker);
      verdict := if around.markerFails then Raised else Spoke;
    }
  }

  lemma {:induction false} ArrivedChunks(chunks: seq<seq<Byte>>, items: seq<Item>)
    requires |items| == |chunks| + 1 && !items[|chunks|].Chunk?
    requires forall i :: 0 <= i < |chunks| ==> items[i] == Chunk(chunks[i])
    ensures Arrived(items) == chunks && Ending(items) == items[|chunks|]
  {
    if chunks != [] {
      ArrivedChunks(chunks[1..], items[1..]);
      assert chunks == [chunks[0]] + chunks[1..];
    }
  }

  /** What a listener decodes from the packets of a clip: its samples, and silence up to a full frame. */
  lemma ListenersHearTheSamples(ssrc: nat, xs: seq<Sample>)
    requires ssrc < 0x1_0000_0000
    ensures var packets := Packets(ssrc, Padded(Encode(xs)));
            && (forall i :: 0 <= i < |packets| ==> |packets[i]| == HEADER_BYTES + FRAME_BYTES)
            && var heard := NetworkSamples(Payloads(packets));
               && |xs| <= |heard| < |xs| + FRAME_SAMPLES && heard[..|xs|] == xs
               && forall i :: |xs| <= i < |heard| ==> heard[i] == 0
  {
    PayloadsRecoverTheInput(ssrc, Encode(xs));
    EncodeThenSamples(xs);
    var pcm, padded := Encode(xs), Padded(Encode(xs));
    var sent := Payloads(Packets(ssrc, padded));
    SwappingTwiceIsIdentity(sent);
    SwappedIsHeard(padded);
    hide Packets, Payloads, Swapped, Encode, NetworkSamples;
    assert NetworkSamples(sent) == Samples(padded);
    assert padded[..|pcm|] == pcm;
    forall i | 0 <= i < |xs| ensures Samples(padded)[i] == xs[i] {
      assert Samples(pcm)[i] == xs[i];
    }
  }

  /**
   * The streaming providers end to end, whatever the surroundings do: an HTTP body at 24 kHz, in whatever
   * pieces it comes, leaves as a prefix of the packets of its batch resampling. Where nothing fails an even
   * body leaves whole and ends with one marker unless there was nothing to say; an odd one fails.
   */
  method SpeakHttpBody(around: Surroundings, body: seq<seq<Byte>>) returns (log: seq<Event>, verdict: Verdict)
    requires around.Valid()
    ensures var all := Packets(around.ssrc, Padded(Encode(Batch(Samples(WholeSamples(Join(body)))))));
            && IsPrefix(Outputs(log), all) && BuffersFirst(log)
            && (verdict == Spoke ==> Outputs(log) == all != [] && |Join(body)| % 2 == 0 && Markers(log) == 1)
            && (around.Clean() && |Join(body)| % 2 == 0 ==> Outputs(log) == all && (verdict == Spoke <==> all != []))
    ensures around.Clean() && |Join(body)| % 2 != 0 ==> verdict != Spoke
    ensures !around.closeFails ==>
              Markers(log) == if Outputs(log) != [] && around.started && verdict != Reraised then 1 else 0
  {
    hide Packets, Padded, Outputs, Markers, BytesGot, BuffersFirst, Packet, Join, Arrived, Ending, Encode, Batch, Samples, WholeSamples;
    var converted, failed := StreamPcm16le(body, |body|);
    var ending := if failed then ProviderError else StreamEnd;
    var items := seq(|converted| + 1, i requires 0 <= i <= |converted| => if i < |converted| then Chunk(converted[i]) else ending);
    ArrivedChunks(converted, items);
    log, verdict := SpeakStreaming(around, items);
    NothingYet(around.ssrc, []);
    var pcm := Join(converted);
    assert |pcm| % 2 == 0;
    assert |Packets(around.ssrc, Padded(pcm))| == |Padded(pcm)| / FRAME_BYTES;
    if pcm != [] {
      assert |Padded(pcm)| >= FRAME_BYTES;
    }
  }

  lemma PrefixOfPrefix<T>(a: seq<T>, b: seq<T>, c: seq<T>)
    requires IsPrefix(a, b) && IsPrefix(b, c)
    ensures IsPrefix(a, c)
  {
    assert c[..|a|] == c[..|b|][..|a|];
  }

  lemma StartsWith<T>(a: seq<T>, b: seq<T>)
    ensures IsPrefix(a, a + b)
  {
  }

  lemma WholePrefix<T>(a: seq<T>)
    ensures IsPrefix(a, a)
  {
  }

  lemma NothingYet(ssrc: nat, all: seq<Byte>)
    requires ssrc < 0x1_0000_0000
    ensures Outputs([]) == [] == Packets(ssrc, []) && Markers([]) == 0 && BytesGot([]) == 0 && BuffersFirst([])
    ensures IsPrefix([], Packets(ssrc, Padded(all))) && Packets(ssrc, Padded([])) == []
  {
  }
}
