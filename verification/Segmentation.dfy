/** The part of bacpypes3/appservice.py that both segmentation state machines share: class SSM. */
module Segmentation {
  import opened Apdus

  datatype State =
    | IDLE | SEGMENTED_REQUEST | AWAIT_CONFIRMATION | AWAIT_RESPONSE
    | SEGMENTED_RESPONSE | SEGMENTED_CONFIRMATION | COMPLETED | ABORTED

  datatype Support = SegmentedBoth | SegmentedTransmit | SegmentedReceive | NoSegmentation
  {
    predicate Transmits() { SegmentedBoth? || SegmentedTransmit? }

    predicate Receives() { SegmentedBoth? || SegmentedReceive? }
  }

  /** What a device cache says of the peer. */
  datatype DeviceInfo = DeviceInfo(
    maxApduLengthAccepted: Option<nat>, maxNpduLength: Option<nat>,
    segmentationSupported: Support, maxSegmentsAccepted: Option<nat>)

  /** The settings a transaction copies from its device object or service access point. */
  datatype Config = Config(
    numberOfApduRetries: nat, apduTimeout: nat, segmentTimeout: nat, applicationTimeout: nat,
    segmentationSupported: Support, maxSegmentsAccepted: Option<nat>, maxApduLengthAccepted: nat,
    proposedWindowSize: byte)

  /** The fields of an SSM. A number the source has not set yet, and never reads before it
      does, is 0. The timer holds the delay it was last started with, in milliseconds. */
  datatype Ssm = Ssm(
    state: State, invokeID: Option<byte>, timer: Option<nat>,
    segmentAPDU: Option<Apdu>, segmentSize: nat, segmentCount: nat,
    retryCount: nat, segmentRetryCount: nat, sentAllSegments: bool,
    lastSequenceNumber: byte, initialSequenceNumber: byte, actualWindowSize: Option<byte>,
    maxSegmentsAccepted: Option<nat>, maxApduLengthAccepted: nat, segmentedResponseAccepted: bool)
  {
    predicate Finished() { state == COMPLETED || state == ABORTED }
  }

  /** A PDU handed to the network or to the application. */
  datatype Effect = Down(apdu: Apdu) | Up(apdu: Apdu)

  /** The state after a handler has run, what it sent in order, and whether it ended in an exception. */
  datatype Outcome = Outcome(ssm: Ssm, out: seq<Effect>, raised: bool)

  function NewSsm(c: Config): Ssm {
    Ssm(IDLE, None, None, None, 0, 0, 0, 0, false, 0, 0, None, c.maxSegmentsAccepted, c.maxApduLengthAccepted, false)
  }

  /** set_state: any timer stops, and a new one starts when a delay is given. */
  function Enter(s: Ssm, state: State, msecs: nat): Ssm {
    s.(state := state, timer := if msecs == 0 then None else Some(msecs))
  }

  function Restart(s: Ssm, msecs: nat): Ssm {
    s.(timer := Some(msecs))
  }

  /** Number of pieces of at most size octets, at least one. */
  function CountSegments(length: nat, size: nat): (count: nat)
    requires length == 0 || 0 < size
    ensures 0 < count
    ensures 0 < length ==> (count - 1) * size < length <= count * size
  {
    if length == 0 then 1 else if length % size == 0 then length / size else length / size + 1
  }

  /** A slice of an octet string, with the bounds clamped to its length. */
  function Chunk(data: Bytes, size: nat, indx: nat): Bytes {
    data[Clamp(indx * size, |data|)..Clamp((indx + 1) * size, |data|)]
  }

  function Clamp(n: nat, limit: nat): nat {
    if n < limit then n else limit
  }

  /** get_segment; None stands for any of its exceptions. */
  function GetSegment(s: Ssm, c: Config, indx: nat): (r: Option<Apdu>)
    ensures r.Some? ==> s.segmentAPDU.Some? && indx < s.segmentCount
    ensures r.Some? ==> r.value.ConfirmedRequest? || r.value.ComplexAck?
    ensures r.Some? ==> r.value.data == Chunk(s.segmentAPDU.value.data, s.segmentSize, indx)
    ensures r.Some? ==> r.value.seg == (s.segmentCount != 1) && r.value.mor == (indx < s.segmentCount - 1)
    ensures r.Some? && r.value.seg ==> r.value.seqNo == indx % 256
  {
    if s.segmentAPDU.None? || s.segmentCount <= indx then None
    else if s.segmentCount != 1 && indx != 0 && s.actualWindowSize.None? then None
    else if s.segmentSize == 0 then None
    else
      var segmented := s.segmentCount != 1;
      var more := indx < s.segmentCount - 1;
      var seqNo := if segmented then indx % 256 else 0;
      var win := if !segmented then 0 else if indx == 0 then c.proposedWindowSize else s.actualWindowSize.value;
      var data := Chunk(s.segmentAPDU.value.data, s.segmentSize, indx);
      match s.segmentAPDU.value
      case ConfirmedRequest(_, _, _, _, _, _, _, _, service, _) =>
        var maxSegs := EncodeMaxSegments(s.maxSegmentsAccepted);
        var maxResp := EncodeMaxApduLength(s.maxApduLengthAccepted);
        if maxSegs.None? || maxResp.None? || s.invokeID.None? then None
        else
          Some(ConfirmedRequest(segmented, more, c.segmentationSupported.Receives(), maxSegs.value, maxResp.value,
                                s.invokeID.value, seqNo, win, service, data))
      case ComplexAck(_, _, invokeID, _, _, service, _) =>
        Some(ComplexAck(segmented, more, invokeID, seqNo, win, service, data))
      case _ => None
  }

  /** append_segment, on the APDU being built. */
  function AppendData(a: Apdu, more: Bytes): (r: Apdu)
    requires a.ConfirmedRequest? || a.ComplexAck?
    ensures r.ConfirmedRequest? == a.ConfirmedRequest? && r.ComplexAck? == a.ComplexAck?
    ensures r.data == a.data + more
  {
    if a.ConfirmedRequest? then
      ConfirmedRequest(a.seg, a.mor, a.sa, a.maxSegs, a.maxResp, a.invokeID, a.seqNo, a.win, a.service, a.data + more)
    else ComplexAck(a.seg, a.mor, a.invokeID, a.seqNo, a.win, a.service, a.data + more)
  }

  /** in_window, for a window size that is set and not zero. */
  predicate InWindow(seqA: byte, seqB: byte, window: byte) {
    (seqA - seqB + 256) % 256 < window
  }

  /** What fill_window has sent, whether it reached the last segment, and whether it raised. */
  datatype Fill = Fill(sent: seq<Apdu>, last: bool, raised: bool)

  /** fill_window from the ix-th place of the window on. */
  function FillFrom(s: Ssm, c: Config, seqNum: nat, ix: nat, window: byte): (f: Fill)
    decreases window - ix
  {
    if window <= ix then Fill([], false, false)
    else
      match GetSegment(s, c, seqNum + ix)
      case None => Fill([], false, true)
      case Some(apdu) =>
        if (apdu.ConfirmedRequest? || apdu.ComplexAck?) && !apdu.mor then Fill([apdu], true, false)
        else
          var rest := FillFrom(s, c, seqNum, ix + 1, window);
          Fill([apdu] + rest.sent, rest.last, rest.raised)
  }

  function Downs(apdus: seq<Apdu>): (effects: seq<Effect>)
    ensures |effects| == |apdus|
    ensures forall i :: 0 <= i < |apdus| ==> effects[i] == Down(apdus[i])
  {
    seq(|apdus|, i requires 0 <= i < |apdus| => Down(apdus[i]))
  }

  /** fill_window followed by the rest of its caller: the timer restarts unless something raised. */
  function FillWindow(s: Ssm, c: Config, seqNum: byte, sendOk: bool, restart: bool): Outcome {
    if s.actualWindowSize.None? || s.actualWindowSize.value == 0 then Outcome(s, [], true)
    else
      var fill := FillFrom(s, c, seqNum, 0, s.actualWindowSize.value);
      if !sendOk && fill.sent != [] then Outcome(s, [], true)
      else
        var s1 := s.(sentAllSegments := s.sentAllSegments || fill.last);
        Outcome(if restart && !fill.raised then Restart(s1, c.segmentTimeout) else s1, Downs(fill.sent), fill.raised)
  }

  /** A sender moves past an acknowledged segment and fills the next window. */
  function SendNextWindow(s: Ssm, c: Config, acked: byte, sendOk: bool): Outcome {
    var next := (acked + 1) % 256;
    FillWindow(s.(initialSequenceNumber := next, segmentRetryCount := 0), c, next, sendOk, true)
  }
}
