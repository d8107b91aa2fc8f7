/** Every handler of ClientSSM (bacpypes3/appservice.py) as a function from state to state.
    sendOk says whether the network accepts what the handler sends; when it does not, the
    first send raises and only the first transmission of a request recovers from that. */
module ClientSteps {
  import opened Apdus
  import opened Segmentation

  /** The size of the pieces a request is cut into. */
  function RequestSegmentSize(c: Config, info: Option<DeviceInfo>): nat {
    if info.None? || info.value.maxApduLengthAccepted.None? then c.maxApduLengthAccepted
    else if info.value.maxNpduLength.None? then info.value.maxApduLengthAccepted.value
    else if info.value.maxNpduLength.value < info.value.maxApduLengthAccepted.value then info.value.maxNpduLength.value
    else info.value.maxApduLengthAccepted.value
  }

  /** Why a request of that many segments is refused before anything is sent. */
  function Refusal(c: Config, info: Option<DeviceInfo>, count: nat): Option<byte> {
    if count <= 1 then None
    else if !c.segmentationSupported.Transmits() then Some(SEGMENTATION_NOT_SUPPORTED)
    else if info.None? then None
    else if !info.value.segmentationSupported.Receives() then Some(SEGMENTATION_NOT_SUPPORTED)
    else if info.value.maxSegmentsAccepted.None? || info.value.maxSegmentsAccepted.value == 0 then None
    else if count > info.value.maxSegmentsAccepted.value then Some(APDU_TOO_LONG)
    else None
  }

  /** abort, with the abort also sent to the peer when toPeer is set. */
  function AbortWith(s: Ssm, reason: byte, toPeer: bool, sendOk: bool): Outcome
    requires s.invokeID.Some?
  {
    var s1 := Enter(s, ABORTED, 0);
    var abort := AbortOf(false, s.invokeID.value, reason);
    if !toPeer then Outcome(s1, [Up(abort)], false)
    else if sendOk then Outcome(s1, [Down(abort), Up(abort)], false)
    else Outcome(s1, [], true)
  }

  /** Report a result to the application and finish. */
  function Complete(s: Ssm, apdu: Apdu): Outcome {
    Outcome(Enter(s, COMPLETED, 0), [Up(apdu)], false)
  }

  /** The state of a request that is about to be sent for the first time, or again. */
  function Prepare(s: Ssm, c: Config, size: nat, apdu: Apdu): Ssm
    requires apdu.ConfirmedRequest? && (|apdu.data| == 0 || 0 < size)
  {
    s.(segmentAPDU := Some(apdu), segmentSize := size, invokeID := Some(apdu.invokeID),
       segmentCount := CountSegments(|apdu.data|, size))
  }

  function Start(s: Ssm, c: Config): Ssm {
    if s.segmentCount == 1 then
      Enter(s.(sentAllSegments := true, retryCount := 0), AWAIT_CONFIRMATION, c.apduTimeout)
    else
      Enter(s.(sentAllSegments := false, retryCount := 0, segmentRetryCount := 0, initialSequenceNumber := 0,
               actualWindowSize := None), SEGMENTED_REQUEST, c.segmentTimeout)
  }

  /** Send segment 0; when the network refuses it the transaction ends with that error. */
  function FirstSegment(s: Ssm, c: Config, refused: Apdu, sendOk: bool): Outcome {
    match GetSegment(s, c, 0)
    case None => Outcome(s, [], true)
    case Some(first) => if sendOk then Outcome(s, [Down(first)], false) else Complete(s, refused)
  }

  /** Send segment 0 once more. */
  function ResendFirst(s: Ssm, c: Config, sendOk: bool): Outcome {
    match GetSegment(s, c, 0)
    case None => Outcome(s, [], true)
    case Some(first) => if sendOk then Outcome(s, [Down(first)], false) else Outcome(s, [], true)
  }

  /** ClientSSM.indication */
  function Indication(s: Ssm, c: Config, info: Option<DeviceInfo>, apdu: Apdu, sendOk: bool): Outcome
  {
    if !apdu.ConfirmedRequest? then Outcome(s, [], true)
    else
      var size := RequestSegmentSize(c, info);
      if 0 < |apdu.data| && size == 0 then
        Outcome(s.(segmentAPDU := Some(apdu), segmentSize := size, invokeID := Some(apdu.invokeID)), [], true)
      else
        var s1 := Prepare(s, c, size, apdu);
        var refusal := Refusal(c, info, s1.segmentCount);
        if refusal.Some? then AbortWith(s1, refusal.value, false, sendOk)
        else FirstSegment(Start(s1, c), c, ErrorAck(apdu.invokeID, apdu.service, []), sendOk)
  }

  /** ClientSSM.segmented_request */
  function SegmentedRequest(s: Ssm, c: Config, apdu: Apdu, sendOk: bool): Outcome
    requires s.invokeID.Some?
  {
    match apdu
    case SegmentAck(_, _, _, seqNo, win, _) =>
      var s1 := s.(actualWindowSize := Some(win));
      if win == 0 then Outcome(s1, [], true)
      else if !InWindow(seqNo, s.initialSequenceNumber, win) then Outcome(Restart(s1, c.segmentTimeout), [], false)
      else if s.sentAllSegments then Outcome(Enter(s1, AWAIT_CONFIRMATION, c.apduTimeout), [], false)
      else SendNextWindow(s1, c, seqNo, sendOk)
    case SimpleAck(_, _, _) =>
      if !s.sentAllSegments then AbortWith(s, INVALID_APDU_IN_THIS_STATE, true, sendOk) else Complete(s, apdu)
    case ComplexAck(seg, _, _, _, win, _, _) =>
      if !s.sentAllSegments then AbortWith(s, INVALID_APDU_IN_THIS_STATE, true, sendOk)
      else if !seg then Complete(s, apdu)
      else
        var window := if win < c.proposedWindowSize then win else c.proposedWindowSize;
        var s1 := s.(segmentAPDU := Some(apdu), actualWindowSize := Some(window),
                     lastSequenceNumber := 0, initialSequenceNumber := 0);
        Outcome(Enter(s1, SEGMENTED_CONFIRMATION, c.segmentTimeout), [], false)
    case ErrorAck(_, _, _) => Complete(s, apdu)
    case Reject(_, _, _) => Complete(s, apdu)
    case Abort(_, _, _, _) => Complete(s, apdu)
    case _ => Outcome(s, [], true)
  }

  /** ClientSSM.segmented_request_timeout */
  function SegmentedRequestTimeout(s: Ssm, c: Config, sendOk: bool): Outcome
    requires s.invokeID.Some?
  {
    if s.segmentRetryCount < c.numberOfApduRetries then
      var s1 := Restart(s.(segmentRetryCount := s.segmentRetryCount + 1), c.segmentTimeout);
      if s.initialSequenceNumber == 0 then ResendFirst(s1, c, sendOk)
      else FillWindow(s1, c, s.initialSequenceNumber, sendOk, false)
    else AbortWith(s, NO_RESPONSE, false, sendOk)
  }

  /** ClientSSM.await_confirmation */
  function AwaitConfirmation(s: Ssm, c: Config, apdu: Apdu, sendOk: bool): Outcome
    requires s.invokeID.Some?
  {
    match apdu
    case Abort(_, _, _, _) => Outcome(Enter(s, ABORTED, 0), [Up(apdu)], false)
    case SimpleAck(_, _, _) => Complete(s, apdu)
    case ErrorAck(_, _, _) => Complete(s, apdu)
    case Reject(_, _, _) => Complete(s, apdu)
    case ComplexAck(seg, _, _, seqNo, win, _, _) =>
      if !seg then Complete(s, apdu)
      else if !c.segmentationSupported.Receives() then AbortWith(s, SEGMENTATION_NOT_SUPPORTED, false, sendOk)
      else if seqNo == 0 then
        var s1 := Enter(s.(segmentAPDU := Some(apdu), actualWindowSize := Some(win),
                           lastSequenceNumber := 0, initialSequenceNumber := 0),
                        SEGMENTED_CONFIRMATION, c.segmentTimeout);
        if sendOk then Outcome(s1, [Down(SegmentAckOf(false, false, s.invokeID.value, 0, win))], false)
        else Outcome(s1, [], true)
      else AbortWith(s, INVALID_APDU_IN_THIS_STATE, true, sendOk)
    case SegmentAck(_, _, _, _, _, _) => Outcome(Restart(s, c.segmentTimeout), [], false)
    case _ => Outcome(s, [], true)
  }

  /** The same outcome with the retry count put back, unless an exception came first. */
  function Recounted(o: Outcome, retries: nat): Outcome {
    if o.raised then o else Outcome(o.ssm.(retryCount := retries), o.out, false)
  }

  /** The request starts again from the top, and the retry count survives it. */
  function StartAgain(s: Ssm, c: Config, info: Option<DeviceInfo>, retries: nat, sendOk: bool): Outcome
    requires s.segmentAPDU.Some?
  {
    Recounted(Indication(s.(retryCount := retries), c, info, s.segmentAPDU.value, sendOk), retries)
  }

  /** ClientSSM.await_confirmation_timeout */
  function AwaitConfirmationTimeout(s: Ssm, c: Config, info: Option<DeviceInfo>, sendOk: bool): Outcome
    requires s.invokeID.Some? && s.segmentAPDU.Some?
  {
    if s.retryCount < c.numberOfApduRetries then
      StartAgain(s, c, info, s.retryCount + 1, sendOk)
    else AbortWith(s, NO_RESPONSE, false, sendOk)
  }

  /** A new start does not depend on the retry count before it. */
  lemma StartsAlike(s: Ssm, t: Ssm, c: Config, info: Option<DeviceInfo>, retries: nat, sendOk: bool)
    requires s.segmentAPDU.Some? && t == s.(retryCount := retries)
    ensures StartAgain(s, c, info, retries, sendOk) == StartAgain(t, c, info, retries, sendOk)
  {
    assert s.(retryCount := retries) == t.(retryCount := retries);
  }

  lemma TimeoutStartsAgain(s: Ssm, c: Config, info: Option<DeviceInfo>, sendOk: bool)
    requires s.invokeID.Some? && s.segmentAPDU.Some? && s.retryCount < c.numberOfApduRetries
    ensures AwaitConfirmationTimeout(s, c, info, sendOk) == StartAgain(s, c, info, s.retryCount + 1, sendOk)
  {
  }

  /** What a receiver of a segmented answer holds. */
  predicate Receiving(s: Ssm) {
    s.invokeID.Some? && s.segmentAPDU.Some? && s.segmentAPDU.value.ComplexAck? && s.actualWindowSize.Some?
  }

  /** The last segment: ack it and report the whole to the application. */
  function TakeLast(s: Ssm, c: Config, sendOk: bool): Outcome
    requires Receiving(s)
  {
    var ack := SegmentAckOf(false, false, s.invokeID.value, s.lastSequenceNumber, s.actualWindowSize.value);
    if sendOk then Outcome(Enter(s, COMPLETED, 0), [Down(ack), Up(s.segmentAPDU.value)], false)
    else Outcome(s, [], true)
  }

  /** Any other segment: ack it when it ends its group. */
  function TakeMiddle(s: Ssm, c: Config, sendOk: bool): Outcome
    requires Receiving(s)
  {
    var s1 := Restart(s, c.segmentTimeout);
    if s.lastSequenceNumber == (s.initialSequenceNumber + s.actualWindowSize.value) % 256 then
      var ack := SegmentAckOf(false, false, s.invokeID.value, s.lastSequenceNumber, s.actualWindowSize.value);
      Outcome(s1.(initialSequenceNumber := s.lastSequenceNumber), if sendOk then [Down(ack)] else [], !sendOk)
    else Outcome(s1, [], false)
  }

  /** ClientSSM.segmented_confirmation, when the segment is the one expected. */
  function TakeNext(s: Ssm, c: Config, apdu: Apdu, sendOk: bool): Outcome
    requires Receiving(s) && apdu.ComplexAck?
  {
    var s1 := s.(segmentAPDU := Some(AppendData(s.segmentAPDU.value, apdu.data)), lastSequenceNumber := apdu.seqNo);
    if apdu.mor then TakeMiddle(s1, c, sendOk) else TakeLast(s1, c, sendOk)
  }

  /** ClientSSM.segmented_confirmation */
  function SegmentedConfirmation(s: Ssm, c: Config, apdu: Apdu, sendOk: bool): Outcome
    requires Receiving(s)
  {
    if !apdu.ComplexAck? || !apdu.seg then AbortWith(s, INVALID_APDU_IN_THIS_STATE, true, sendOk)
    else if apdu.seqNo != (s.lastSequenceNumber + 1) % 256 then
      var s1 := Restart(s, c.segmentTimeout);
      var nak := SegmentAckOf(true, false, s.invokeID.value, s.lastSequenceNumber, s.actualWindowSize.value);
      if sendOk then Outcome(s1, [Down(nak)], false) else Outcome(s1, [], true)
    else TakeNext(s, c, apdu, sendOk)
  }

  /** ClientSSM.segmented_confirmation_timeout */
  function SegmentedConfirmationTimeout(s: Ssm, c: Config, sendOk: bool): Outcome
    requires s.invokeID.Some?
  {
    AbortWith(s, NO_RESPONSE, false, sendOk)
  }

  /** What every handler past indication relies on. */
  predicate Running(s: Ssm) {
    && s.invokeID.Some? && s.segmentAPDU.Some?
    && (s.state == SEGMENTED_CONFIRMATION ==> Receiving(s))
  }

  /** ClientSSM.confirmation */
  function Confirmation(s: Ssm, c: Config, apdu: Apdu, sendOk: bool): Outcome
    requires Running(s)
  {
    match s.state
    case SEGMENTED_REQUEST => SegmentedRequest(s, c, apdu, sendOk)
    case AWAIT_CONFIRMATION => AwaitConfirmation(s, c, apdu, sendOk)
    case SEGMENTED_CONFIRMATION => SegmentedConfirmation(s, c, apdu, sendOk)
    case _ => Outcome(s, [], true)
  }

  /** ClientSSM.timer_expired and the handler it schedules; the expired timer is spent. */
  function TimerExpired(s: Ssm, c: Config, info: Option<DeviceInfo>, sendOk: bool): Outcome
    requires Running(s)
  {
    var s0 := s.(timer := None);
    match s.state
    case SEGMENTED_REQUEST => SegmentedRequestTimeout(s0, c, sendOk)
    case AWAIT_CONFIRMATION => AwaitConfirmationTimeout(s0, c, info, sendOk)
    case SEGMENTED_CONFIRMATION => SegmentedConfirmationTimeout(s0, c, sendOk)
    case COMPLETED => Outcome(s0, [], false)
    case ABORTED => Outcome(s0, [], false)
    case _ => Outcome(s0, [], true)
  }
}
