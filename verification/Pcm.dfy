/** Little-endian PCM16 as bytes and as samples, and joined chunks of them. */
module Pcm {
  type Byte = b: int | 0 <= b < 256

  type Sample = v: int | -0x8000 <= v < 0x8000

  function Sample16(low: Byte, high: Byte): Sample {
    var raw := low + 256 * high;
    if raw < 0x8000 then raw else raw - 0x1_0000
  }

  function LowByte(v: Sample): Byte {
    v % 256
  }

  function HighByte(v: Sample): Byte {
    (if v < 0 then v + 0x1_0000 else v) / 256
  }

  /** The whole samples of a payload; an odd last byte belongs to none. */
  function Samples(pcm: seq<Byte>): (xs: seq<Sample>)
    ensures |xs| == |pcm| / 2
  {
    seq(|pcm| / 2, i requires 0 <= i < |pcm| / 2 => Sample16(pcm[2 * i], pcm[2 * i + 1]))
  }

  function Encode(xs: seq<Sample>): (pcm: seq<Byte>)
    ensures |pcm| == 2 * |xs|
  {
    seq(2 * |xs|, i requires 0 <= i < 2 * |xs| => if i % 2 == 0 then LowByte(xs[i / 2]) else HighByte(xs[i / 2]))
  }

  lemma EncodeThenSamples(xs: seq<Sample>)
    ensures Samples(Encode(xs)) == xs
  {
    forall i | 0 <= i < |xs| ensures Samples(Encode(xs))[i] == xs[i] {
      assert Encode(xs)[2 * i] == LowByte(xs[i]) && Encode(xs)[2 * i + 1] == HighByte(xs[i]);
    }
  }

  lemma EncodeAppends(xs: seq<Sample>, ys: seq<Sample>)
    ensures Encode(xs + ys) == Encode(xs) + Encode(ys)
  {
  }

  lemma SamplesAppend(a: seq<Byte>, b: seq<Byte>)
    requires |a| % 2 == 0
    ensures Samples(a + b) == Samples(a) + Samples(b)
  {
  }

  function Join<T>(chunks: seq<seq<T>>): seq<T> {
    if chunks == [] then [] else Join(chunks[..|chunks| - 1]) + chunks[|chunks| - 1]
  }

  lemma JoinOneMore<T>(chunks: seq<seq<T>>, chunk: seq<T>)
    ensures Join(chunks + [chunk]) == Join(chunks) + chunk
  {
    assert (chunks + [chunk])[..|chunks|] == chunks;
  }

  /** The largest even prefix: what an arbitrary byte partition may hand on so far. */
  function WholeSamples(pcm: seq<Byte>): seq<Byte> {
    pcm[..|pcm| - |pcm| % 2]
  }

  /** `_swap_pcm16_byte_order`: each pair reversed, an odd last byte left alone. */
  function Swapped(pcm: seq<Byte>): (l16: seq<Byte>)
    ensures |l16| == |pcm|
  {
    seq(|pcm|, i requires 0 <= i < |pcm| =>
      if i % 2 == 1 then pcm[i - 1] else if i + 1 < |pcm| then pcm[i + 1] else pcm[i])
  }

  lemma SwappingTwiceIsIdentity(pcm: seq<Byte>)
    ensures Swapped(Swapped(pcm)) == pcm
  {
  }

  lemma SwappedAppends(a: seq<Byte>, b: seq<Byte>)
    requires |a| % 2 == 0
    ensures Swapped(a + b) == Swapped(a) + Swapped(b)
  {
  }

  /** A 16-bit two's complement sample with its most significant byte first. */
  function NetworkSample(first: Byte, second: Byte): Sample {
    if first < 0x80 then 256 * first + second else 256 * first + second - 0x1_0000
  }

  /** What a receiver of L16 hears in a payload. */
  function NetworkSamples(payload: seq<Byte>): (xs: seq<Sample>)
    ensures |xs| == |payload| / 2
  {
    seq(|payload| / 2, i requires 0 <= i < |payload| / 2 => NetworkSample(payload[2 * i], payload[2 * i + 1]))
  }

  /** The other byte order: swapping exchanges the two readings of a payload. */
  lemma SwappedIsHeard(pcm: seq<Byte>)
    ensures NetworkSamples(Swapped(pcm)) == Samples(pcm)
  {
    forall i | 0 <= i < |pcm| / 2 ensures NetworkSamples(Swapped(pcm))[i] == Samples(pcm)[i] {
      SwappedPair(pcm, i);
      assert Samples(pcm)[i] == Sample16(pcm[2 * i], pcm[2 * i + 1]);
    }
  }

  lemma SwappedPair(pcm: seq<Byte>, i: nat)
    requires 2 * i + 1 < |pcm|
    ensures Swapped(pcm)[2 * i] == pcm[2 * i + 1] && Swapped(pcm)[2 * i + 1] == pcm[2 * i]
  {
    assert (2 * i) % 2 == 0 && (2 * i + 1) % 2 == 1;
  }

  /** Swapped into network order, encoded samples are heard as they were. */
  lemma EncodedIsHeard(xs: seq<Sample>)
    ensures NetworkSamples(Swapped(Encode(xs))) == xs
  {
    hide NetworkSamples, Swapped, Encode, Samples;
    SwappedIsHeard(Encode(xs));
    EncodeThenSamples(xs);
  }
}
