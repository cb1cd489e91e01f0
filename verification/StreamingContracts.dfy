/** src/orchestrator/streaming_contracts.py: the flush request, its acknowledgement and its retry protocol. */
module StreamingContracts {
  import opened Common
  import opened Sessions

  type StreamKey(==, !new)
  type OutputSegment(==, !new)
  type Envelope(==, !new)

  /** `session:stream:flush:n`; `n` alone identifies the flush within one fence. */
  datatype FlushRequestId = FlushRequestId(stream: StreamKey, number: int)

  /** The derived value is a function of stream and epoch; module RtpPackets says when two of them collide. */
  datatype Ssrc = Derived(stream: StreamKey, epoch: int) | Given(value: int)

  datatype Disposition = Applied | Replayed

  datatype StreamFlush = StreamFlush(
    stream: StreamKey, turnId: TurnId, segmentId: OutputSegment, epoch: int,
    requestId: FlushRequestId, target: Ssrc, version: string, correlation: Option<Envelope>)

  const CONTRACT_VERSION := "1.0.0"

  datatype FlushAck = FlushAck(
    stream: StreamKey, turnId: TurnId, segmentId: OutputSegment, epoch: int,
    requestId: FlushRequestId, target: Ssrc, disposition: Disposition, version: string, correlation: Option<Envelope>)

  function FromFlush(flush: StreamFlush, disposition: Disposition): FlushAck {
    FlushAck(flush.stream, flush.turnId, flush.segmentId, flush.epoch, flush.requestId, flush.target,
             disposition, flush.version, flush.correlation)
  }

  /** An acknowledgement repeats every field of its flush, so it answers that one and no other. */
  lemma AcknowledgementsNameTheirFlush(a: StreamFlush, b: StreamFlush, d: Disposition, e: Disposition)
    ensures FromFlush(a, d) == FromFlush(b, e) <==> a == b && d == e
    ensures var ack := FromFlush(a, d);
            && ack.stream == a.stream && ack.turnId == a.turnId && ack.segmentId == a.segmentId && ack.epoch == a.epoch
            && ack.requestId == a.requestId && ack.target == a.target && ack.version == a.version
            && ack.correlation == a.correlation && ack.disposition == d
  {
  }
}
