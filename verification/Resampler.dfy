/**
 * 24 kHz to 16 kHz: the batch resampler of src/orchestrator/onsite_bridge_contracts.py, the streaming one
 * of src/orchestrator/media_adapters.py, and their agreement for every split of the input.
 */
module Resampling {
  import opened Common
  import opened Pcm

  /** `_resample_24000_to_16000` counts its output this way. */
  function OutputCount(n: nat): nat {
    n * 16_000 / 24_000
  }

  /** The count is floor(2n/3), and the last interpolation still has its right neighbour. */
  lemma OutputCountIsTwoThirds(n: nat, k: nat)
    ensures OutputCount(n) == 2 * n / 3
    ensures k < OutputCount(n) <==> 3 * k / 2 + 1 < n
    ensures k * 24_000 / 16_000 == 3 * k / 2
    ensures k * 24_000 % 16_000 == if k % 2 == 0 then 0 else 8_000
  {
  }

  function FloorAverage(a: Sample, b: Sample): Sample {
    (a + b) / 2
  }

  lemma HalfwayIsAverage(a: Sample, b: Sample)
    ensures a + (b - a) * 8_000 / 16_000 == FloorAverage(a, b)
  {
    assert (b - a) * 8_000 / 16_000 == (b - a) / 2;
  }

  /** `_interpolated_sample`. At a half position it is the floor of the average, so it never leaves 16 bits. */
  function Interpolated(xs: seq<Sample>, k: nat): (value: Sample)
    requires k < OutputCount(|xs|)
    ensures 3 * k / 2 + 1 < |xs|
    ensures k % 2 == 0 ==> value == xs[3 * k / 2]
    ensures k % 2 == 1 ==> value == FloorAverage(xs[3 * k / 2], xs[3 * k / 2 + 1])
  {
    OutputCountIsTwoThirds(|xs|, k);
    var index := k * 24_000 / 16_000;
    var remainder := k * 24_000 % 16_000;
    if remainder == 0 then xs[index]
    else
      HalfwayIsAverage(xs[index], xs[index + 1]);
      xs[index] + (xs[index + 1] - xs[index]) * remainder / 16_000
  }

  function Batch(xs: seq<Sample>): (ys: seq<Sample>)
    ensures |ys| == OutputCount(|xs|)
  {
    seq(OutputCount(|xs|), k requires 0 <= k < OutputCount(|xs|) => Interpolated(xs, k))
  }

  lemma BatchAt(xs: seq<Sample>, k: nat)
    requires k < OutputCount(|xs|)
    ensures 3 * k / 2 + 1 < |xs|
    ensures Batch(xs)[k] == if k % 2 == 0 then xs[3 * k / 2] else FloorAverage(xs[3 * k / 2], xs[3 * k / 2 + 1])
  {
    assert Batch(xs)[k] == Interpolated(xs, k);
  }

  /** More input never changes output already due. */
  lemma BatchGrows(xs: seq<Sample>, more: seq<Sample>)
    ensures OutputCount(|xs|) <= OutputCount(|xs + more|)
    ensures Batch(xs + more)[..OutputCount(|xs|)] == Batch(xs)
  {
    OutputCountIsTwoThirds(|xs|, 0);
    OutputCountIsTwoThirds(|xs + more|, 0);
    forall k | 0 <= k < OutputCount(|xs|) ensures Batch(xs + more)[k] == Batch(xs)[k] {
      assert Interpolated(xs + more, k) == Interpolated(xs, k);
    }
  }

  /** What is left to buffer after an input of `n` samples: at most the one under the next position. */
  lemma OneSampleOfLookAhead(n: nat)
    ensures n - 1 <= 3 * OutputCount(n) / 2 <= n
  {
    OutputCountIsTwoThirds(n, 0);
  }

  class Resampler24To16 {
    var samples: seq<Sample>
    var sampleOffset: nat
    var nextPositionHalves: nat
    ghost var input: seq<Sample>

    ghost predicate Valid()
      reads this
    {
      && nextPositionHalves == 3 * OutputCount(|input|)
      && sampleOffset == nextPositionHalves / 2 <= |input|
      && samples == input[sampleOffset..]
    }

    constructor ()
      ensures Valid() && input == []
    {
      samples, sampleOffset, nextPositionHalves, input := [], 0, 0, [];
    }

    /** Emits exactly what the batch resampler has gained, keeps at most one sample, and refuses half a sample. */
    method Push(pcm: seq<Byte>) returns (output: Option<seq<Byte>>)
      requires Valid()
      modifies this
      ensures Valid() && |samples| <= 1
      ensures output.None? <==> |pcm| % 2 != 0
      ensures output.None? ==> unchanged(this)
      ensures output.Some? ==>
                && input == old(input) + Samples(pcm)
                && Encode(Batch(old(input))) + output.value == Encode(Batch(input))
    {
      hide OutputCount, Batch, Encode, Samples;
      OneSampleOfLookAhead(|input|);
      if |pcm| % 2 != 0 {
        return None;
      }
      ghost var before := input;
      samples := samples + Samples(pcm);
      input := input + Samples(pcm);
      BatchGrows(before, Samples(pcm));
      var out := Drain(OutputCount(|before|));
      assert Batch(input) == Batch(before) + Batch(input)[OutputCount(|before|)..];
      EncodeAppends(Batch(before), Batch(input)[OutputCount(|before|)..]);
      OneSampleOfLookAhead(|input|);
      var nextSourceIndex := nextPositionHalves / 2;
      var discard := if nextSourceIndex > sampleOffset then nextSourceIndex - sampleOffset else 0;
      samples := samples[discard..];
      sampleOffset := sampleOffset + discard;
      output := Some(out);
    }

    /** The interpolation loop: every output position whose right neighbour has arrived, and no other. */
    method Drain(ghost due: nat) returns (out: seq<Byte>)
      requires nextPositionHalves == 3 * due && due <= OutputCount(|input|)
      requires sampleOffset <= |input| && samples == input[sampleOffset..] && sampleOffset <= nextPositionHalves / 2
      modifies `nextPositionHalves
      ensures nextPositionHalves == 3 * OutputCount(|input|)
      ensures out == Encode(Batch(input)[due..])
    {
      hide OutputCount, Batch, Encode, FloorAverage, LowByte, HighByte;
      out := [];
      ghost var k := due;
      assert Batch(input)[due..due] == [];
      EncodeNothing();
      var end := sampleOffset + |samples|;
      while true
        invariant nextPositionHalves == 3 * k && due <= k <= OutputCount(|input|)
        invariant out == Encode(Batch(input)[due..k])
        decreases OutputCount(|input|) - k
      {
        var sourceIndex := nextPositionHalves / 2;
        OutputCountIsTwoThirds(|input|, k);
        if sourceIndex + 1 >= end {
          break;
        }
        SameParity(k);
        var value := samples[sourceIndex - sampleOffset];
        if nextPositionHalves % 2 != 0 {
          value := FloorAverage(value, samples[sourceIndex + 1 - sampleOffset]);
        }
        BatchAt(input, k);
        NextSample(Batch(input), due, k, value);
        out := out + [LowByte(value), HighByte(value)];
        nextPositionHalves := nextPositionHalves + 3;
        k := k + 1;
      }
      assert Batch(input)[due..k] == Batch(input)[due..];
    }
  }

  lemma SameParity(k: nat)
    ensures 3 * k % 2 == k % 2
  {
  }

  lemma NextSample(ys: seq<Sample>, due: nat, k: nat, value: Sample)
    requires due <= k < |ys| && ys[k] == value
    ensures Encode(ys[due..k + 1]) == Encode(ys[due..k]) + [LowByte(value), HighByte(value)]
  {
    AppendSample(ys[due..k], value);
    assert ys[due..k + 1] == ys[due..k] + [value];
  }

  lemma EncodeNothing()
    ensures Encode([]) == []
  {
  }

  lemma AppendSample(xs: seq<Sample>, value: Sample)
    ensures Encode(xs + [value]) == Encode(xs) + [LowByte(value), HighByte(value)]
  {
    EncodeAppends(xs, [value]);
    assert Encode([value]) == [LowByte(value), HighByte(value)];
  }

  /**
   * `_raw_pcm16le_chunks`: whole samples only, whatever the partition of the body; `stop` is the chunk at
   * which a cancellation is first seen. Fails exactly on a body read to its end inside a sample.
   */
  method RawPcmChunks(chunks: seq<seq<Byte>>, stop: nat) returns (ready: seq<seq<Byte>>, failed: bool)
    ensures Join(ready) == WholeSamples(Join(if stop < |chunks| then chunks[..stop] else chunks))
    ensures EvenChunks(ready)
    ensures failed <==> stop >= |chunks| && |Join(chunks)| % 2 != 0
  {
    hide Held, WholeSamples, EvenChunks, Join;
    NoChunksAreEven();
    HeldNothing();
    var pending: seq<Byte> := [];
    ready := [];
    var i := 0;
    assert chunks[..0] == [];
    while i < |chunks|
      invariant i <= |chunks| && i <= stop
      invariant Held(ready, pending, Join(chunks[..i]))
      invariant EvenChunks(ready)
    {
      if i == stop {
        HeldIsWhole(ready, pending, Join(chunks[..i]));
        return ready, false;
      }
      assert chunks[..i + 1] == chunks[..i] + [chunks[i]];
      JoinOneMore(chunks[..i], chunks[i]);
      HoldMore(ready, pending, Join(chunks[..i]), chunks[i]);
      pending := pending + chunks[i];
      i := i + 1;
      var usable := |pending| - |pending| % 2;
      if usable == 0 {
        continue;
      }
      OneMoreEvenChunk(ready, pending[..usable]);
      ready := ready + [pending[..usable]];
      pending := pending[usable..];
    }
    assert chunks[..i] == chunks;
    HeldIsWhole(ready, pending, Join(chunks));
    failed := pending != [];
  }

  /** Whole samples in every chunk, and at least one. */
  predicate EvenChunks(chunks: seq<seq<Byte>>) {
    forall i :: 0 <= i < |chunks| ==> |chunks[i]| % 2 == 0 && chunks[i] != []
  }

  lemma NoChunksAreEven()
    ensures EvenChunks([])
  {
  }

  lemma OneMoreEvenChunk(chunks: seq<seq<Byte>>, chunk: seq<Byte>)
    requires EvenChunks(chunks) && |chunk| % 2 == 0 && chunk != []
    ensures EvenChunks(chunks + [chunk])
  {
  }

  /** What was handed on and what is held back are the body so far, and only a half sample is held back. */
  ghost predicate Held(ready: seq<seq<Byte>>, pending: seq<Byte>, body: seq<Byte>) {
    Join(ready) + pending == body && |pending| == |body| % 2
  }

  lemma HeldNothing()
    ensures Held([], [], Join([]))
  {
  }

  lemma HoldMore(ready: seq<seq<Byte>>, pending: seq<Byte>, body: seq<Byte>, chunk: seq<Byte>)
    requires Held(ready, pending, body)
    ensures var all := pending + chunk;
            var usable := |all| - |all| % 2;
            && usable % 2 == 0
            && Held(ready + [all[..usable]], all[usable..], body + chunk)
            && (usable == 0 ==> Held(ready, all, body + chunk))
  {
    var all := pending + chunk;
    var usable := |all| - |all| % 2;
    JoinOneMore(ready, all[..usable]);
    assert Join(ready) + all == body + chunk;
    assert all == all[..usable] + all[usable..];
    assert |body| == |Join(ready)| + |pending|;
  }

  lemma HeldIsWhole(ready: seq<seq<Byte>>, pending: seq<Byte>, body: seq<Byte>)
    requires Held(ready, pending, body)
    ensures Join(ready) == WholeSamples(body) && |pending| == |body| % 2
  {
    assert body[..|Join(ready)|] == Join(ready);
  }

  lemma {:induction false} EvenJoin(chunks: seq<seq<Byte>>)
    requires forall i :: 0 <= i < |chunks| ==> |chunks[i]| % 2 == 0
    ensures |Join(chunks)| % 2 == 0
  {
    if chunks != [] {
      EvenJoin(chunks[..|chunks| - 1]);
    }
  }

  lemma NothingInNothingOut()
    ensures Samples([]) == [] && Encode(Batch([])) == []
  {
  }

  /**
   * The streaming provider path: any partition of an HTTP body yields, joined, the batch resampling of the
   * whole samples in it, byte for byte.
   */
  method StreamPcm16le(chunks: seq<seq<Byte>>, stop: nat) returns (converted: seq<seq<Byte>>, failed: bool)
    ensures var body := Join(if stop < |chunks| then chunks[..stop] else chunks);
            Join(converted) == Encode(Batch(Samples(WholeSamples(body))))
    ensures failed <==> stop >= |chunks| && |Join(chunks)| % 2 != 0
    ensures forall i :: 0 <= i < |converted| ==> converted[i] != []
  {
    hide OutputCount, Batch, Encode, Samples, WholeSamples;
    var ready;
    ready, failed := RawPcmChunks(chunks, stop);
    var resampler := new Resampler24To16();
    converted := [];
    NothingInNothingOut();
    for i := 0 to |ready|
      invariant resampler.Valid() && fresh(resampler)
      invariant resampler.input == Samples(Join(ready[..i])) && Join(converted) == Encode(Batch(resampler.input))
      invariant forall j :: 0 <= j < |converted| ==> converted[j] != []
    {
      assert ready[..i + 1] == ready[..i] + [ready[i]];
      JoinOneMore(ready[..i], ready[i]);
      EvenJoin(ready[..i]);
      SamplesAppend(Join(ready[..i]), ready[i]);
      var output := resampler.Push(ready[i]);
      if output.value != [] {
        JoinOneMore(converted, output.value);
        converted := converted + [output.value];
      }
    }
    assert ready[..|ready|] == ready;
  }
}
