/** Every handler of ServerSSM (bacpypes3/appservice.py) as a function from state to state. */
module ServerSteps {
  import opened Apdus
  import opened Segmentation

  /** The longest APDU the client takes: its own claim, unless a cached one is at least as long. */
  function AcceptedLength(info: Option<DeviceInfo>, claimed: nat): nat {
    if info.Some? && info.value.maxApduLengthAccepted.Some? && claimed <= info.value.maxApduLengthAccepted.value
    then info.value.maxApduLengthAccepted.value
    else claimed
  }

  /** The size of the pieces a response is cut into. */
  function ResponseSegmentSize(s: Ssm, info: Option<DeviceInfo>): nat {
    if info.Some? && info.value.maxNpduLength.Some? && info.value.maxNpduLength.value < s.maxApduLengthAccepted
    then info.value.maxNpduLength.value
    else s.maxApduLengthAccepted
  }

  /** abort, sent to the peer only. */
  function AbortToPeer(s: Ssm, reason: byte, sendOk: bool): Outcome
    requires s.invokeID.Some?
  {
    Outcome(Enter(s, ABORTED, 0), if sendOk then [Down(AbortOf(true, s.invokeID.value, reason))] else [], !sendOk)
  }

  /** abort, handed to the application and then sent to the peer. */
  function AbortToBoth(s: Ssm, reason: byte, sendOk: bool): Outcome
    requires s.invokeID.Some?
  {
    var abort := AbortOf(true, s.invokeID.value, reason);
    Outcome(Enter(s, ABORTED, 0), [Up(abort)] + if sendOk then [Down(abort)] else [], !sendOk)
  }

  /** A send that ends the handler. */
  function SendLast(s: Ssm, apdu: Apdu, sendOk: bool): Outcome {
    Outcome(s, if sendOk then [Down(apdu)] else [], !sendOk)
  }

  /** ServerSSM.idle, for a segmented request: whatever segment comes first opens the transaction. */
  function OpenRequest(s: Ssm, c: Config, apdu: Apdu, sendOk: bool): Outcome
    requires s.invokeID.Some? && apdu.ConfirmedRequest?
  {
    if !c.segmentationSupported.Receives() then AbortToPeer(s, SEGMENTATION_NOT_SUPPORTED, sendOk)
    else
      var window := if apdu.win < c.proposedWindowSize then apdu.win else c.proposedWindowSize;
      var s1 := s.(segmentAPDU := Some(apdu), actualWindowSize := Some(window),
                   lastSequenceNumber := 0, initialSequenceNumber := 0);
      SendLast(Enter(s1, SEGMENTED_REQUEST, c.segmentTimeout),
               SegmentAckOf(false, true, s.invokeID.value, 0, window), sendOk)
  }

  /** ServerSSM.idle */
  function Idle(s: Ssm, c: Config, info: Option<DeviceInfo>, apdu: Apdu, sendOk: bool): Outcome {
    if !apdu.ConfirmedRequest? then Outcome(s, [], true)
    else
      var s1 := s.(invokeID := Some(apdu.invokeID), segmentedResponseAccepted := apdu.sa);
      var claimed := DecodeMaxApduLength(apdu.maxResp);
      if claimed.None? || 8 <= apdu.maxSegs then Outcome(s1, [], true)
      else
        var s2 := s1.(maxApduLengthAccepted := AcceptedLength(info, claimed.value),
                      maxSegmentsAccepted := DecodeMaxSegments(apdu.maxSegs));
        if !apdu.seg then Outcome(Enter(s2, AWAIT_RESPONSE, c.applicationTimeout), [Up(apdu)], false)
        else OpenRequest(s2, c, apdu, sendOk)
  }

  /** What a receiver of a segmented request holds. */
  predicate Receiving(s: Ssm) {
    s.invokeID.Some? && s.segmentAPDU.Some? && s.segmentAPDU.value.ConfirmedRequest? && s.actualWindowSize.Some?
  }

  /** The last segment: ack it and forward the whole to the application. */
  function TakeLast(s: Ssm, c: Config, sendOk: bool): Outcome
    requires Receiving(s)
  {
    var ack := SegmentAckOf(false, true, s.invokeID.value, s.lastSequenceNumber, s.actualWindowSize.value);
    if sendOk then
      Outcome(Enter(s, AWAIT_RESPONSE, c.applicationTimeout), [Down(ack), Up(s.segmentAPDU.value)], false)
    else Outcome(s, [], true)
  }

  /** Any other segment: ack it when it ends its group. */
  function TakeMiddle(s: Ssm, c: Config, sendOk: bool): Outcome
    requires Receiving(s)
  {
    var s1 := Restart(s, c.segmentTimeout);
    if s.lastSequenceNumber == (s.initialSequenceNumber + s.actualWindowSize.value) % 256 then
      SendLast(s1.(initialSequenceNumber := s.lastSequenceNumber),
               SegmentAckOf(false, true, s.invokeID.value, s.lastSequenceNumber, s.actualWindowSize.value), sendOk)
    else Outcome(s1, [], false)
  }

  /** ServerSSM.segmented_request, when the segment is the one expected. */
  function TakeNext(s: Ssm, c: Config, apdu: Apdu, sendOk: bool): Outcome
    requires Receiving(s) && apdu.ConfirmedRequest?
  {
    var s1 := s.(segmentAPDU := Some(AppendData(s.segmentAPDU.value, apdu.data)), lastSequenceNumber := apdu.seqNo);
    if apdu.mor then TakeMiddle(s1, c, sendOk) else TakeLast(s1, c, sendOk)
  }

  /** ServerSSM.segmented_request */
  function SegmentedRequest(s: Ssm, c: Config, apdu: Apdu, sendOk: bool): Outcome
    requires Receiving(s)
  {
    if apdu.Abort? then SendLast(Enter(s, COMPLETED, 0), apdu, sendOk)
    else if !apdu.ConfirmedRequest? || !apdu.seg then AbortToBoth(s, INVALID_APDU_IN_THIS_STATE, sendOk)
    else if apdu.seqNo != (s.lastSequenceNumber + 1) % 256 then
      SendLast(Restart(s, c.segmentTimeout),
               SegmentAckOf(true, true, s.invokeID.value, s.initialSequenceNumber, s.actualWindowSize.value), sendOk)
    else TakeNext(s, c, apdu, sendOk)
  }

  /** ServerSSM.await_response */
  function AwaitResponse(s: Ssm, apdu: Apdu): Outcome {
    match apdu
    case ConfirmedRequest(_, _, _, _, _, _, _, _, _, _) => Outcome(s, [], false)
    case Abort(_, _, _, _) => Outcome(Enter(s, ABORTED, 0), [Up(apdu)], false)
    case _ => Outcome(s, [], true)
  }

  /** Why a response of that many segments is refused. */
  function Refusal(s: Ssm, c: Config, count: nat): Option<byte> {
    if count <= 1 then None
    else if !c.segmentationSupported.Transmits() || !s.segmentedResponseAccepted then Some(SEGMENTATION_NOT_SUPPORTED)
    else if s.maxSegmentsAccepted.Some? && count > s.maxSegmentsAccepted.value then Some(APDU_TOO_LONG)
    else None
  }

  /** An answer that fits in one PDU; the transaction is over once it is sent. */
  function AnswerWhole(s: Ssm, apdu: Apdu, sendOk: bool): Outcome
    requires apdu.ComplexAck?
  {
    var whole := ComplexAck(false, false, apdu.invokeID, apdu.seqNo, apdu.win, apdu.service, apdu.data);
    var s1 := s.(segmentAPDU := Some(whole));
    if sendOk then Outcome(Enter(s1, COMPLETED, 0), [Down(whole)], false) else Outcome(s1, [], true)
  }

  /** An answer that is sent in segments. */
  function AnswerFirst(s: Ssm, c: Config, sendOk: bool): Outcome {
    match GetSegment(s, c, 0)
    case None => Outcome(s, [], true)
    case Some(first) =>
      if sendOk then Outcome(Enter(s, SEGMENTED_RESPONSE, c.segmentTimeout), [Down(first)], false)
      else Outcome(s, [], true)
  }

  /** An answer once it is known into how many segments it is cut. */
  function AnswerCut(s: Ssm, c: Config, apdu: Apdu, sendOk: bool): Outcome
    requires s.invokeID.Some? && apdu.ComplexAck?
  {
    var refusal := Refusal(s, c, s.segmentCount);
    if refusal.Some? then AbortToPeer(s, refusal.value, sendOk)
    else
      var s1 := s.(segmentRetryCount := 0, initialSequenceNumber := 0, actualWindowSize := None);
      if s1.segmentCount == 1 then AnswerWhole(s1, apdu, sendOk) else AnswerFirst(s1, c, sendOk)
  }

  /** ServerSSM.confirmation: the application answers. */
  function Confirmation(s: Ssm, c: Config, info: Option<DeviceInfo>, apdu: Apdu, sendOk: bool): Outcome
    requires s.invokeID.Some?
  {
    match apdu
    case Abort(_, _, _, _) => SendLast(Enter(s, ABORTED, 0), apdu, sendOk)
    case SimpleAck(_, _, _) => SendLast(Enter(s, COMPLETED, 0), apdu, sendOk)
    case ErrorAck(_, _, _) => SendLast(Enter(s, COMPLETED, 0), apdu, sendOk)
    case Reject(_, _, _) => SendLast(Enter(s, COMPLETED, 0), apdu, sendOk)
    case ComplexAck(_, _, _, _, _, _, data) =>
      var size := ResponseSegmentSize(s, info);
      var s1 := s.(segmentAPDU := Some(apdu), segmentSize := size);
      if 0 < |data| && size == 0 then Outcome(s1, [], true)
      else
        var s2 := s1.(segmentCount := CountSegments(|data|, size));
        AnswerCut(s2, c, apdu, sendOk)
    case _ => Outcome(s, [], true)
  }

  /** ServerSSM.segmented_response */
  function SegmentedResponse(s: Ssm, c: Config, apdu: Apdu, sendOk: bool): Outcome
  {
    match apdu
    case SegmentAck(_, _, _, seqNo, win, _) =>
      var s1 := s.(actualWindowSize := Some(win));
      if win == 0 then Outcome(s1, [], true)
      else if !InWindow(seqNo, s.initialSequenceNumber, win) then Outcome(Restart(s1, c.segmentTimeout), [], false)
      else if s.sentAllSegments then Outcome(Enter(s1, COMPLETED, 0), [], false)
      else SendNextWindow(s1, c, seqNo, sendOk)
    case Abort(_, _, _, _) => SendLast(Enter(s, COMPLETED, 0), apdu, sendOk)
    case _ => Outcome(s, [], true)
  }

  /** Send segment 0 once more. */
  function ResendFirst(s: Ssm, c: Config, sendOk: bool): Outcome {
    match GetSegment(s, c, 0)
    case None => Outcome(s, [], true)
    case Some(first) => SendLast(s, first, sendOk)
  }

  /** ServerSSM.segmented_response_timeout */
  function SegmentedResponseTimeout(s: Ssm, c: Config, sendOk: bool): Outcome {
    if s.segmentRetryCount < c.numberOfApduRetries then
      var s1 := Restart(s.(segmentRetryCount := s.segmentRetryCount + 1), c.segmentTimeout);
      if s.initialSequenceNumber == 0 then ResendFirst(s1, c, sendOk)
      else FillWindow(s1, c, s.initialSequenceNumber, sendOk, false)
    else Outcome(Enter(s, ABORTED, 0), [], false)
  }

  /** What every handler past idle relies on. */
  predicate Running(s: Ssm) {
    && (s.state != IDLE ==> s.invokeID.Some?)
    && (s.state == SEGMENTED_REQUEST ==> Receiving(s))
  }

  /** ServerSSM.indication */
  function Indication(s: Ssm, c: Config, info: Option<DeviceInfo>, apdu: Apdu, sendOk: bool): Outcome
    requires Running(s)
  {
    match s.state
    case IDLE => Idle(s, c, info, apdu, sendOk)
    case SEGMENTED_REQUEST => SegmentedRequest(s, c, apdu, sendOk)
    case AWAIT_RESPONSE => AwaitResponse(s, apdu)
    case SEGMENTED_RESPONSE => SegmentedResponse(s, c, apdu, sendOk)
    case _ => Outcome(s, [], false)
  }

  /** ServerSSM.timer_expired and the handler it schedules. */
  function TimerExpired(s: Ssm, c: Config, sendOk: bool): Outcome
    requires Running(s)
  {
    var s0 := s.(timer := None);
    match s.state
    case SEGMENTED_REQUEST => Outcome(Enter(s0, ABORTED, 0), [], false)
    case AWAIT_RESPONSE =>
      Outcome(Enter(s0, ABORTED, 0), [Up(AbortOf(true, s0.invokeID.value, SERVER_TIMEOUT))], false)
    case SEGMENTED_RESPONSE => SegmentedResponseTimeout(s0, c, sendOk)
    case COMPLETED => Outcome(s0, [], false)
    case ABORTED => Outcome(s0, [], false)
    case _ => Outcome(s0, [], true)
  }
}
