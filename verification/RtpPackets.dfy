/**
 * src/orchestrator/tts_rtp.py: PCM chunks to RTP packets. The header is that of section 5.1 of RFC 3550,
 * the payload L16 of section 4.5.11 of RFC 3551.
 */
module RtpPackets {
  import opened Common
  import opened Pcm

  const FRAME_BYTES := 640
  const FRAME_SAMPLES := 320
  const HEADER_BYTES := 12
  const TIMESTAMP_START := 96_000

  function Big16(v: nat): seq<Byte>
    requires v < 0x1_0000
  {
    [v / 256, v % 256]
  }

  function Big32(v: nat): seq<Byte>
    requires v < 0x1_0000_0000
  {
    [v / 0x100_0000, v / 0x1_0000 % 256, v / 256 % 256, v % 256]
  }

  function FromBig16(b: seq<Byte>): nat
    requires |b| == 2
  {
    (b[0] as int) * 256 + (b[1] as int)
  }

  function FromBig32(b: seq<Byte>): nat
    requires |b| == 4
  {
    (b[0] as int) * 0x100_0000 + (b[1] as int) * 0x1_0000 + (b[2] as int) * 256 + (b[3] as int)
  }

  lemma Big16RoundTrip(v: nat)
    requires v < 0x1_0000
    ensures FromBig16(Big16(v)) == v
  {
  }

  lemma Big32RoundTrip(v: nat)
    requires v < 0x1_0000_0000
    ensures FromBig32(Big32(v)) == v
  {
    var b := Big32(v);
    var upper := v / 0x1_0000;
    assert v == 0x1_0000 * upper + v % 0x1_0000;
    assert upper == 256 * (upper / 256) + upper % 256 && upper / 256 == v / 0x100_0000;
    var lower := v % 0x1_0000;
    assert lower == 256 * (lower / 256) + lower % 256;
    LowerBytes(v);
  }

  lemma LowerBytes(v: nat)
    ensures v % 0x1_0000 / 256 == v / 256 % 256
    ensures v % 0x1_0000 % 256 == v % 256
  {
    var upper, lower := v / 0x1_0000, v % 0x1_0000;
    assert v == 0x1_0000 * upper + lower;
    assert v / 256 == 256 * upper + lower / 256;
  }

  /** The `k`-th packet of a stream: both counters wrap, the payload is the frame in network byte order. */
  function Packet(k: nat, ssrc: nat, frame: seq<Byte>): (packet: seq<Byte>)
    requires ssrc < 0x1_0000_0000
  {
    [0x80, 0x60] + Big16(k % 0x1_0000) + Big32((TIMESTAMP_START + FRAME_SAMPLES * k) % 0x1_0000_0000)
      + Big32(ssrc) + Swapped(frame)
  }

  /** What a receiver reads back. */
  lemma PacketFields(k: nat, ssrc: nat, frame: seq<Byte>)
    requires ssrc < 0x1_0000_0000
    ensures var p := Packet(k, ssrc, frame);
            && |p| == 12 + |frame|
            && p[0] == 0x80 && p[1] == 0x60
            && FromBig16(p[2..4]) == k % 0x1_0000
            && FromBig32(p[4..8]) == (96_000 + 320 * k) % 0x1_0000_0000
            && FromBig32(p[8..12]) == ssrc
            && Swapped(p[12..]) == frame && NetworkSamples(p[12..]) == Samples(frame)
  {
    SwappedIsHeard(frame);
    var p := Packet(k, ssrc, frame);
    var sequence, timestamp := k % 0x1_0000, (TIMESTAMP_START + FRAME_SAMPLES * k) % 0x1_0000_0000;
    assert p[2..4] == Big16(sequence);
    assert p[4..8] == Big32(timestamp);
    assert p[8..12] == Big32(ssrc);
    assert p[12..] == Swapped(frame);
    Big16RoundTrip(sequence);
    Big32RoundTrip(timestamp);
    Big32RoundTrip(ssrc);
    SwappingTwiceIsIdentity(frame);
  }

  function FrameAt(data: seq<Byte>, k: nat): seq<Byte>
    requires FRAME_BYTES * (k + 1) <= |data|
  {
    data[FRAME_BYTES * k..FRAME_BYTES * (k + 1)]
  }

  /** The packets of the whole frames of `data`: what any chunking of it has to produce. */
  function Packets(ssrc: nat, data: seq<Byte>): (packets: seq<seq<Byte>>)
    requires ssrc < 0x1_0000_0000
    ensures |packets| == |data| / FRAME_BYTES
  {
    seq(|data| / FRAME_BYTES, k requires 0 <= k < |data| / FRAME_BYTES => Packet(k, ssrc, FrameAt(data, k)))
  }

  function Zeros(n: nat): seq<Byte> {
    seq(n, _ => 0)
  }

  function Padded(data: seq<Byte>): (padded: seq<Byte>)
    ensures |padded| % FRAME_BYTES == 0
    ensures |data| <= |padded| < |data| + FRAME_BYTES
    ensures padded[..|data|] == data && forall i :: |data| <= i < |padded| ==> padded[i] == 0
  {
    if |data| % FRAME_BYTES == 0 then data else data + Zeros(FRAME_BYTES - |data| % FRAME_BYTES)
  }

  lemma PacketsGrow(ssrc: nat, data: seq<Byte>, more: seq<Byte>)
    requires ssrc < 0x1_0000_0000
    ensures |Packets(ssrc, data)| <= |Packets(ssrc, data + more)|
    ensures Packets(ssrc, data + more)[..|Packets(ssrc, data)|] == Packets(ssrc, data)
  {
    var n := |data| / FRAME_BYTES;
    forall k | 0 <= k < n ensures Packets(ssrc, data + more)[k] == Packets(ssrc, data)[k] {
      assert FrameAt(data + more, k) == FrameAt(data, k);
    }
  }

  function Payloads(packets: seq<seq<Byte>>): seq<Byte>
    requires forall i :: 0 <= i < |packets| ==> |packets[i]| >= HEADER_BYTES
  {
    if packets == [] then []
    else Payloads(packets[..|packets| - 1]) + packets[|packets| - 1][HEADER_BYTES..]
  }

  lemma PacketsAreFull(ssrc: nat, data: seq<Byte>, i: nat)
    requires ssrc < 0x1_0000_0000 && i < |data| / FRAME_BYTES
    ensures FRAME_BYTES * (i + 1) <= |data|
    ensures |Packets(ssrc, data)[i]| == HEADER_BYTES + FRAME_BYTES
    ensures Swapped(Packets(ssrc, data)[i][HEADER_BYTES..]) == FrameAt(data, i)
  {
    PacketFields(i, ssrc, FrameAt(data, i));
  }

  lemma EvenLength(n: nat)
    ensures FRAME_BYTES * n % 2 == 0
  {
    var half := 320 * n;
    assert FRAME_BYTES * n == 2 * half;
    assert 2 * half % 2 == 0;
  }

  lemma PayloadsOneMore(packets: seq<seq<Byte>>, packet: seq<Byte>)
    requires forall i :: 0 <= i < |packets| ==> |packets[i]| == HEADER_BYTES + FRAME_BYTES
    requires |packet| == HEADER_BYTES + FRAME_BYTES
    ensures Swapped(Payloads(packets + [packet])) == Swapped(Payloads(packets)) + Swapped(packet[HEADER_BYTES..])
  {
    hide Swapped;
    assert (packets + [packet])[..|packets|] == packets;
    PayloadLength(packets);
    EvenLength(|packets|);
    SwappedAppends(Payloads(packets), packet[HEADER_BYTES..]);
  }

  /** Nothing is lost: the payloads, joined and swapped back, are the frames that went in. */
  lemma {:induction false} PayloadsAreTheFrames(ssrc: nat, data: seq<Byte>, n: nat)
    requires ssrc < 0x1_0000_0000 && n <= |data| / FRAME_BYTES
    ensures forall i :: 0 <= i < n ==> |Packets(ssrc, data)[i]| == HEADER_BYTES + FRAME_BYTES
    ensures FRAME_BYTES * n <= |data|
    ensures Swapped(Payloads(Packets(ssrc, data)[..n])) == data[..FRAME_BYTES * n]
  {
    hide Packets, Swapped, Payloads;
    var packets := Packets(ssrc, data);
    if n == 0 {
      NoPayloads();
      assert packets[..0] == [];
    } else {
      PayloadsAreTheFrames(ssrc, data, n - 1);
      PacketsAreFull(ssrc, data, n - 1);
      PayloadsOneMore(packets[..n - 1], packets[n - 1]);
      assert packets[..n] == packets[..n - 1] + [packets[n - 1]];
      assert data[..FRAME_BYTES * n] == data[..FRAME_BYTES * (n - 1)] + FrameAt(data, n - 1);
    }
  }

  lemma NoPayloads()
    ensures Swapped(Payloads([])) == []
  {
  }

  lemma {:induction false} PayloadLength(packets: seq<seq<Byte>>)
    requires forall i :: 0 <= i < |packets| ==> |packets[i]| == HEADER_BYTES + FRAME_BYTES
    ensures |Payloads(packets)| == FRAME_BYTES * |packets|
  {
    if packets != [] {
      PayloadLength(packets[..|packets| - 1]);
    }
  }

  /** Over a finished stream: the joined payloads are the input, zero-padded to whole frames. */
  lemma PayloadsRecoverTheInput(ssrc: nat, data: seq<Byte>)
    requires ssrc < 0x1_0000_0000
    ensures var packets := Packets(ssrc, Padded(data));
            && (forall i :: 0 <= i < |packets| ==> |packets[i]| == HEADER_BYTES + FRAME_BYTES)
            && Swapped(Payloads(packets)) == Padded(data)
  {
    var packets := Packets(ssrc, Padded(data));
    PayloadsAreTheFrames(ssrc, Padded(data), |packets|);
    assert packets[..|packets|] == packets;
    assert Padded(data)[..FRAME_BYTES * |packets|] == Padded(data);
  }

  /** A 32-bit word, most significant bit first. */
  type Word = w: seq<bool> | |w| == 32 witness Flag(false)

  /** The word 0, or the word 1. */
  function Flag(last: bool): (w: seq<bool>)
    ensures |w| == 32
  {
    seq(31, _ => false) + [last]
  }

  function Xor(a: Word, b: Word): Word {
    seq(32, i requires 0 <= i < 32 => a[i] != b[i])
  }

  /** `generated_ssrc`, with the checksum of the stream name as its seed. */
  function GeneratedSsrc(seed: Word, epoch: Word): Word {
    if Xor(seed, epoch) == Flag(false) then Flag(true) else Xor(seed, epoch)
  }

  lemma XorSolves(a: Word, b: Word, c: Word)
    ensures Xor(a, b) == c <==> b == Xor(a, c)
  {
    if Xor(a, b) == c {
      assert forall i :: 0 <= i < 32 ==> c[i] == (a[i] != b[i]);
    }
    if b == Xor(a, c) {
      assert forall i :: 0 <= i < 32 ==> b[i] == (a[i] != c[i]);
    }
  }

  lemma XorIdentities(a: Word, b: Word)
    ensures Xor(a, Flag(false)) == a
    ensures Xor(a, Xor(a, b)) == b
    ensures Flag(true) != Flag(false)
  {
    assert Flag(true)[31] && !Flag(false)[31];
    assert forall i :: 0 <= i < 32 ==> !Flag(false)[i];
  }

  /**
   * Successive epochs of a stream are meant to have different sources. They do, except for one pair: the
   * epoch equal to the seed falls back to 1, which is what the seed with its last bit flipped gives.
   */
  lemma SsrcCollidesExactlyAtTheSeed(seed: Word, first: Word, second: Word)
    ensures GeneratedSsrc(seed, first) != Flag(false)
    ensures GeneratedSsrc(seed, first) == GeneratedSsrc(seed, second) <==>
            || first == second
            || (first == seed && second == Xor(seed, Flag(true)))
            || (second == seed && first == Xor(seed, Flag(true)))
  {
    hide Xor;
    XorIdentities(seed, second);
    XorSolves(seed, first, Flag(false));
    XorSolves(seed, second, Flag(false));
    XorSolves(seed, first, Flag(true));
    XorSolves(seed, second, Flag(true));
    XorSolves(seed, first, Xor(seed, second));
  }

  lemma CountersWrap(k: nat)
    ensures (k % 0x1_0000 + 1) % 0x1_0000 == (k + 1) % 0x1_0000
    ensures ((TIMESTAMP_START + FRAME_SAMPLES * k) % 0x1_0000_0000 + FRAME_SAMPLES) % 0x1_0000_0000
         == (TIMESTAMP_START + FRAME_SAMPLES * (k + 1)) % 0x1_0000_0000
  {
    WrappedSum(k, 1, 0x1_0000);
    WrappedSum(TIMESTAMP_START + FRAME_SAMPLES * k, FRAME_SAMPLES, 0x1_0000_0000);
  }

  lemma WrappedSum(a: int, b: int, m: int)
    requires m > 0
    ensures (a % m + b) % m == (a + b) % m
  {
    var q := a / m;
    assert a + b == (a % m + b) + q * m;
    Periodic(a % m + b, q, m);
  }

  lemma {:induction false} Periodic(r: int, q: int, m: int)
    requires m > 0
    ensures (r + q * m) % m == r % m
  {
    var d := r / m;
    assert r + q * m == (d + q) * m + r % m;
    UniqueRemainder(r + q * m, d + q, r % m, m);
  }

  lemma UniqueRemainder(x: int, d: int, r: int, m: int)
    requires m > 0 && 0 <= r < m && x == d * m + r
    ensures x % m == r
  {
    assert x == (x / m) * m + x % m;
    var e := d - x / m;
    assert e * m == x % m - r;
    MultipleIsFar(e, m);
  }

  lemma MultipleIsFar(e: int, m: int)
    requires m > 0
    ensures e >= 1 ==> e * m >= m
    ensures e <= -1 ==> e * m <= -m
  {
  }

  lemma SliceOfSlice(data: seq<Byte>, a: nat, b: nat, i: nat, j: nat)
    requires a <= b <= |data| && i <= j <= b - a
    ensures data[a..b][i..j] == data[a + i..a + j]
  {
    var inner, outer := data[a..b][i..j], data[a + i..a + j];
    assert |inner| == |outer|;
    forall k | 0 <= k < |inner| ensures inner[k] == outer[k] {
      assert inner[k] == data[a..b][i + k] == data[a + i + k] == outer[k];
    }
  }

  lemma FrameInside(data: seq<Byte>, sent: nat, frames: seq<Byte>, i: nat)
    requires FRAME_BYTES * sent + |frames| <= |data| && frames == data[FRAME_BYTES * sent..FRAME_BYTES * sent + |frames|]
    requires FRAME_BYTES * (i + 1) <= |frames|
    ensures FRAME_BYTES * (sent + i + 1) <= |data| && FrameAt(frames, i) == FrameAt(data, sent + i)
  {
    SliceOfSlice(data, FRAME_BYTES * sent, FRAME_BYTES * sent + |frames|, FRAME_BYTES * i, FRAME_BYTES * (i + 1));
  }

  class TtsPcmRtpPacketizer {
    const ssrc: nat
    var pending: seq<Byte>
    var sequence: nat
    var timestamp: nat
    var cancelled: bool
    var finished: bool
    ghost var data: seq<Byte>
    ghost var sent: nat

    ghost predicate Valid()
      reads this
    {
      && ssrc < 0x1_0000_0000
      && sequence == sent % 0x1_0000 && timestamp == (TIMESTAMP_START + FRAME_SAMPLES * sent) % 0x1_0000_0000
      && (cancelled ==> finished)
      && (!finished ==> sent == |data| / FRAME_BYTES && pending == data[FRAME_BYTES * sent..])
    }

    constructor (ssrc: nat)
      requires ssrc < 0x1_0000_0000
      ensures Valid() && this.ssrc == ssrc && data == [] && !finished && !cancelled
    {
      this.ssrc := ssrc;
      pending, sequence, timestamp, cancelled, finished, data, sent := [], 0, TIMESTAMP_START, false, false, [], 0;
    }

    method NextPacket(frame: seq<Byte>) returns (packet: seq<Byte>)
      requires ssrc < 0x1_0000_0000
      requires sequence == sent % 0x1_0000 && timestamp == (TIMESTAMP_START + FRAME_SAMPLES * sent) % 0x1_0000_0000
      modifies `sequence, `timestamp, `sent
      ensures packet == Packet(old(sent), ssrc, frame) && sent == old(sent) + 1
      ensures sequence == sent % 0x1_0000 && timestamp == (TIMESTAMP_START + FRAME_SAMPLES * sent) % 0x1_0000_0000
    {
      CountersWrap(sent);
      packet := [0x80, 0x60] + Big16(sequence) + Big32(timestamp) + Big32(ssrc) + Swapped(frame);
      sequence := (sequence + 1) % 0x1_0000;
      timestamp := (timestamp + FRAME_SAMPLES) % 0x1_0000_0000;
      sent := sent + 1;
    }

    /**
     * Emits what the packets of the whole input have gained; a finished packetizer raises (`None`), a
     * cancelled one emits nothing. Less than a frame stays behind.
     */
    method Push(chunk: seq<Byte>) returns (packets: Option<seq<seq<Byte>>>)
      requires Valid()
      modifies this
      ensures Valid() && finished == old(finished) && cancelled == old(cancelled)
      ensures cancelled ==> packets == Some([]) && data == old(data)
      ensures !cancelled && finished ==> packets == None && data == old(data)
      ensures !finished ==>
                && packets.Some? && data == old(data) + chunk && |pending| < FRAME_BYTES
                && Packets(ssrc, old(data)) + packets.value == Packets(ssrc, data)
    {
      hide Packets, Packet;
      if cancelled {
        return Some([]);
      }
      if finished {
        return None;
      }
      PacketsGrow(ssrc, data, chunk);
      var all := pending + chunk;
      ghost var before, whole := data, data + chunk;
      CutFrames(data, chunk);
      var completeBytes := |all| - |all| % 2;
      var complete := all[..completeBytes];
      var frameBytes := |complete| - |complete| % FRAME_BYTES;
      var frames := complete[..frameBytes];
      pending := complete[frameBytes..] + all[completeBytes..];
      data := whole;
      var out := EmitFrames(frames);
      packets := Some(out);
      assert Packets(ssrc, before) + Packets(ssrc, whole)[|before| / FRAME_BYTES..] == Packets(ssrc, whole);
    }

    /** One packet for each frame, in order. */
    method EmitFrames(frames: seq<Byte>) returns (out: seq<seq<Byte>>)
      requires ssrc < 0x1_0000_0000 && |frames| % FRAME_BYTES == 0
      requires FRAME_BYTES * sent + |frames| <= |data| && frames == data[FRAME_BYTES * sent..FRAME_BYTES * sent + |frames|]
      requires sequence == sent % 0x1_0000 && timestamp == (TIMESTAMP_START + FRAME_SAMPLES * sent) % 0x1_0000_0000
      modifies `sequence, `timestamp, `sent
      ensures sent == old(sent) + |frames| / FRAME_BYTES <= |data| / FRAME_BYTES
      ensures sequence == sent % 0x1_0000 && timestamp == (TIMESTAMP_START + FRAME_SAMPLES * sent) % 0x1_0000_0000
      ensures out == Packets(ssrc, data)[old(sent)..sent]
    {
      hide Packet;
      out := [];
      var n := |frames| / FRAME_BYTES;
      ghost var packets := Packets(ssrc, data);
      for i := 0 to n
        invariant sent == old(sent) + i && sent <= |packets|
        invariant sequence == sent % 0x1_0000 && timestamp == (TIMESTAMP_START + FRAME_SAMPLES * sent) % 0x1_0000_0000
        invariant out == packets[old(sent)..sent]
      {
        var frame := FrameAt(frames, i);
        FrameInside(data, old(sent), frames, i);
        var packet := NextPacket(frame);
        assert packet == packets[sent - 1];
        out := out + [packet];
      }
    }

    /**
     * Emits the zero-padded rest. An odd total raises (`None`), and raises only after the packetizer has
     * already marked itself finished.
     */
    method Finish() returns (packets: Option<seq<seq<Byte>>>)
      requires Valid()
      modifies this
      ensures Valid() && finished && cancelled == old(cancelled) && data == old(data)
      ensures cancelled ==> packets == Some([])
      ensures !cancelled && old(finished) ==> packets == None
      ensures !old(finished) ==> (packets.None? <==> |data| % 2 != 0)
      ensures !old(finished) && packets.Some? ==>
                Packets(ssrc, data) + packets.value == Packets(ssrc, Padded(data)) && |packets.value| <= 1
    {
      hide Packet;
      if cancelled {
        return Some([]);
      }
      if finished {
        return None;
      }
      finished := true;
      FramesAreEven(|data|);
      if |pending| % 2 != 0 {
        return None;
      }
      if pending == [] {
        assert Packets(ssrc, data) + [] == Packets(ssrc, data);
        return Some([]);
      }
      var frame := pending + Zeros(FRAME_BYTES - |pending|);
      pending := [];
      LastFrameIsPadded(data, frame);
      PacketsGrow(ssrc, data, Padded(data)[|data|..]);
      assert data + Padded(data)[|data|..] == Padded(data);
      var packet := NextPacket(frame);
      packets := Some([packet]);
      assert Packets(ssrc, Padded(data))[sent - 1] == packet;
      assert Packets(ssrc, Padded(data)) == Packets(ssrc, Padded(data))[..sent - 1] + [packet];
    }

    method Cancel()
      requires Valid()
      modifies this
      ensures Valid() && cancelled && finished && pending == []
    {
      cancelled, finished, pending := true, true, [];
    }
  }

  /** A frame is an even number of bytes, so cutting samples first and frames second cuts frames. */
  lemma FramesAreEven(n: nat)
    ensures (n - n % 2) - (n - n % 2) % FRAME_BYTES == n - n % FRAME_BYTES
    ensures n % FRAME_BYTES % 2 == n % 2
    ensures n - n % FRAME_BYTES == FRAME_BYTES * (n / FRAME_BYTES)
  {
    var q, r := n / 640, n % 640;
    assert n == 640 * q + r;
    assert n % 2 == r % 2;
    assert n - n % 2 == 640 * q + (r - r % 2);
    QuotientOf(n - n % 2, q, r - r % 2);
  }

  lemma QuotientOf(n: nat, q: nat, r: nat)
    requires n == 640 * q + r && r < 640
    ensures n / FRAME_BYTES == q && n % FRAME_BYTES == r
  {
  }

  lemma FramesAdd(sent: nat, whole: nat, rest: nat)
    requires whole == FRAME_BYTES * sent + rest
    ensures sent + rest / FRAME_BYTES == whole / FRAME_BYTES
    ensures whole % FRAME_BYTES == rest % FRAME_BYTES
  {
    assert rest == 640 * (rest / 640) + rest % 640;
    QuotientOf(whole, sent + rest / 640, rest % 640);
  }

  /** The slices `push` takes: whole frames that start where the last packet ended, and the rest behind them. */
  lemma CutFrames(data: seq<Byte>, chunk: seq<Byte>)
    ensures FRAME_BYTES * (|data| / FRAME_BYTES) <= |data|
    ensures var sent := |data| / FRAME_BYTES;
            var whole := data + chunk;
            var all := data[FRAME_BYTES * sent..] + chunk;
            var completeBytes := |all| - |all| % 2;
            var frameBytes := completeBytes - completeBytes % FRAME_BYTES;
            && all == whole[FRAME_BYTES * sent..]
            && frameBytes % FRAME_BYTES == 0
            && sent + frameBytes / FRAME_BYTES == |whole| / FRAME_BYTES
            && all[..completeBytes][..frameBytes] == whole[FRAME_BYTES * sent..FRAME_BYTES * sent + frameBytes]
            && all[..completeBytes][frameBytes..] + all[completeBytes..] == whole[FRAME_BYTES * (|whole| / FRAME_BYTES)..]
            && |whole| - FRAME_BYTES * (|whole| / FRAME_BYTES) < FRAME_BYTES
  {
    var sent := |data| / FRAME_BYTES;
    FramesAreEven(|data|);
    var all := data[FRAME_BYTES * sent..] + chunk;
    var whole := data + chunk;
    FramesAreEven(|all|);
    FramesAdd(sent, |whole|, |all|);
    FramesAreEven(|whole|);
    var frameBytes := |all| - |all| % FRAME_BYTES;
    QuotientOf(frameBytes, |all| / FRAME_BYTES, 0);
    Slices(data, chunk, FRAME_BYTES * sent, |all| - |all| % 2, frameBytes);
  }

  lemma Slices(data: seq<Byte>, chunk: seq<Byte>, start: nat, complete: nat, frame: nat)
    requires start <= |data| && frame <= complete <= |data| - start + |chunk|
    ensures var all := data[start..] + chunk;
            var whole := data + chunk;
            && all == whole[start..]
            && all[..complete][..frame] == whole[start..start + frame]
            && all[..complete][frame..] + all[complete..] == whole[start + frame..]
  {
  }

  lemma LastFrameIsPadded(data: seq<Byte>, frame: seq<Byte>)
    requires |data| % FRAME_BYTES != 0
    requires frame == data[FRAME_BYTES * (|data| / FRAME_BYTES)..] + Zeros(FRAME_BYTES - |data| % FRAME_BYTES)
    ensures |Padded(data)| / FRAME_BYTES == |data| / FRAME_BYTES + 1
    ensures FrameAt(Padded(data), |data| / FRAME_BYTES) == frame
  {
    var n := |data| / FRAME_BYTES;
    assert |data| == FRAME_BYTES * n + |data| % FRAME_BYTES;
    assert |Padded(data)| == FRAME_BYTES * (n + 1);
    assert Padded(data) == data + Zeros(FRAME_BYTES - |data| % FRAME_BYTES);
  }

  /**
   * One push per chunk and a finish: for every byte split the packets are those of the whole body padded
   * to full frames, and the stream fails exactly on an odd total.
   */
  method PacketizeChunks(ssrc: nat, chunks: seq<seq<Byte>>) returns (packets: Option<seq<seq<Byte>>>)
    requires ssrc < 0x1_0000_0000
    ensures packets == if |Join(chunks)| % 2 != 0 then None else Some(Packets(ssrc, Padded(Join(chunks))))
  {
    hide Packets, Packet, Padded;
    var packetizer := new TtsPcmRtpPacketizer(ssrc);
    var all := [];
    NothingInNoPackets(ssrc);
    for i := 0 to |chunks|
      invariant packetizer.Valid() && !packetizer.finished && packetizer.ssrc == ssrc && fresh(packetizer)
      invariant packetizer.data == Join(chunks[..i]) && all == Packets(ssrc, packetizer.data)
    {
      assert chunks[..i + 1] == chunks[..i] + [chunks[i]];
      JoinOneMore(chunks[..i], chunks[i]);
      var more := packetizer.Push(chunks[i]);
      all := all + more.value;
    }
    assert chunks[..|chunks|] == chunks;
    var rest := packetizer.Finish();
    packets := if rest.Some? then Some(all + rest.value) else None;
  }

  lemma NothingInNoPackets(ssrc: nat)
    requires ssrc < 0x1_0000_0000
    ensures Packets(ssrc, []) == []
  {
  }
}
