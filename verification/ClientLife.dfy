/** One client transaction from the request to its end, whatever the network and its peer do:
    what it reports to its application, how often it starts the request, and that it ends. */
module ClientLife {
  import opened Apdus
  import opened Segmentation
  import opened ClientSteps

  /** sendOk says whether the network accepts what the handler sends. */
  datatype Input = FromPeer(apdu: Apdu, sendOk: bool) | Expires(sendOk: bool)

  /** The machine, the results it has reported, and how often it has started the request. */
  datatype Life = Life(ssm: Ssm, results: seq<Apdu>, starts: nat)

  /** A request, and delays that are positive. */
  predicate Valid(c: Config, req: Apdu) {
    0 < c.apduTimeout && 0 < c.segmentTimeout && req.ConfirmedRequest?
  }

  /** It cannot be cut. */
  predicate Uncut(c: Config, info: Option<DeviceInfo>, req: Apdu)
    requires req.ConfirmedRequest?
  {
    req.data != [] && RequestSegmentSize(c, info) == 0
  }

  /** The number of its segments. */
  function Pieces(c: Config, info: Option<DeviceInfo>, req: Apdu): nat
    requires req.ConfirmedRequest? && !Uncut(c, info, req)
  {
    CountSegments(|req.data|, RequestSegmentSize(c, info))
  }

  /** No segment of it can be built: pieces have no size, or what the device accepts has no code. */
  predicate Unbuilt(c: Config, info: Option<DeviceInfo>) {
    RequestSegmentSize(c, info) == 0 || c.maxSegmentsAccepted == Some(1) || c.maxApduLengthAccepted < 50
  }

  /** The first segment goes out, or the request is refused before. */
  predicate Sendable(c: Config, info: Option<DeviceInfo>, req: Apdu)
    requires req.ConfirmedRequest?
  {
    !Uncut(c, info, req) && (Refusal(c, info, Pieces(c, info, req)).Some? || !Unbuilt(c, info))
  }

  /** It fits in one PDU that cannot be built, and there are retries. */
  predicate Hopeless(c: Config, info: Option<DeviceInfo>, req: Apdu)
    requires req.ConfirmedRequest?
  {
    !Uncut(c, info, req) && Pieces(c, info, req) == 1 && Unbuilt(c, info) && 0 < c.numberOfApduRetries
  }

  /** It needs segments that cannot be built. */
  predicate Mute(c: Config, info: Option<DeviceInfo>, req: Apdu)
    requires req.ConfirmedRequest?
  {
    !Uncut(c, info, req) && Pieces(c, info, req) != 1 && !Sendable(c, info, req)
  }

  /** Which requests come to an end. */
  predicate Settles(c: Config, info: Option<DeviceInfo>, req: Apdu)
    requires req.ConfirmedRequest?
  {
    !Uncut(c, info, req) && !Hopeless(c, info, req)
  }

  /** indication raises an exception exactly when the request cannot be sent. */
  lemma RaisesExactly(c: Config, info: Option<DeviceInfo>, req: Apdu, s: Ssm, sendOk: bool)
    requires req.ConfirmedRequest?
    requires s.maxSegmentsAccepted == c.maxSegmentsAccepted && s.maxApduLengthAccepted == c.maxApduLengthAccepted
    ensures Indication(s, c, info, req, sendOk).raised <==> !Sendable(c, info, req)
  {
  }

  function Results(out: seq<Effect>): seq<Apdu> {
    if out == [] then [] else (if out[0].Up? then [out[0].apdu] else []) + Results(out[1..])
  }

  function Ran(l: Life, o: Outcome, started: nat): Life {
    Life(o.ssm, l.results + Results(o.out), l.starts + started)
  }

  function Begin(c: Config, info: Option<DeviceInfo>, req: Apdu, sendOk: bool): Life {
    Ran(Life(NewSsm(c), [], 0), Indication(NewSsm(c), c, info, req, sendOk), 1)
  }

  /** A finished machine is no longer listed, and only an armed timer expires. */
  predicate Enabled(l: Life, i: Input) {
    !l.ssm.Finished() && Running(l.ssm) && (i.Expires? ==> l.ssm.timer.Some?)
  }

  /** What the machine does on an input. */
  function Reaction(c: Config, info: Option<DeviceInfo>, l: Life, i: Input): Outcome
    requires Enabled(l, i)
  {
    match i
    case FromPeer(apdu, ok) => Confirmation(l.ssm, c, apdu, ok)
    case Expires(ok) => TimerExpired(l.ssm, c, info, ok)
  }

  function Step(c: Config, info: Option<DeviceInfo>, l: Life, i: Input): Life {
    if !Enabled(l, i) then l
    else
      var again := i.Expires? && l.ssm.state == AWAIT_CONFIRMATION && l.ssm.retryCount < c.numberOfApduRetries;
      Ran(l, Reaction(c, info, l, i), if again then 1 else 0)
  }

  /** A PDU that the state has no use for: it is answered with an abort, and the abort goes to
      the peer before the application hears of it. */
  predicate Unwelcome(c: Config, s: Ssm, apdu: Apdu) {
    match s.state
    case SEGMENTED_REQUEST => !s.sentAllSegments && (apdu.SimpleAck? || apdu.ComplexAck?)
    case AWAIT_CONFIRMATION => apdu.ComplexAck? && apdu.seg && c.segmentationSupported.Receives() && apdu.seqNo != 0
    case SEGMENTED_CONFIRMATION => !(apdu.ComplexAck? && apdu.seg)
    case _ => false
  }

  /** The network refuses the abort that answers an unwelcome PDU. */
  predicate Silences(c: Config, l: Life, i: Input) {
    Enabled(l, i) && i.FromPeer? && !i.sendOk && Unwelcome(c, l.ssm, i.apdu)
  }

  predicate Silenced(c: Config, info: Option<DeviceInfo>, l: Life, inputs: seq<Input>)
    decreases |inputs|
  {
    inputs != [] && (Silences(c, l, inputs[0]) || Silenced(c, info, Step(c, info, l, inputs[0]), inputs[1..]))
  }

  function Run(c: Config, info: Option<DeviceInfo>, l: Life, inputs: seq<Input>): Life
    decreases |inputs|
  {
    if inputs == [] then l else Run(c, info, Step(c, info, l, inputs[0]), inputs[1..])
  }

  // ----- the invariant

  /** A machine that is waiting for something has a timer. */
  predicate Waiting(c: Config, req: Apdu, s: Ssm) {
    && Running(s) && s.timer.Some?
    && (s.state == SEGMENTED_REQUEST || s.state == AWAIT_CONFIRMATION || s.state == SEGMENTED_CONFIRMATION)
    && (s.state != SEGMENTED_CONFIRMATION ==> s.segmentAPDU == Some(req))
    && s.maxSegmentsAccepted == c.maxSegmentsAccepted && s.maxApduLengthAccepted == c.maxApduLengthAccepted
    && s.retryCount <= c.numberOfApduRetries
    && (s.state == SEGMENTED_REQUEST ==> s.segmentRetryCount <= c.numberOfApduRetries)
  }

  /** A request that needs segments that cannot be built is never past its first window. */
  predicate StillMute(c: Config, info: Option<DeviceInfo>, req: Apdu, s: Ssm)
    requires req.ConfirmedRequest?
  {
    Mute(c, info, req) ==> s.state == SEGMENTED_REQUEST && !s.sentAllSegments
  }

  /** A request that cannot be cut has left its machine where it was, without a timer. */
  predicate Idle(s: Ssm) {
    Running(s) && s.state == IDLE && s.timer.None?
  }

  predicate Inv(c: Config, info: Option<DeviceInfo>, req: Apdu, l: Life)
    requires req.ConfirmedRequest?
  {
    && (!l.ssm.Finished() ==>
      && l.results == []
      && if Uncut(c, info, req) then Idle(l.ssm) else Waiting(c, req, l.ssm) && StillMute(c, info, req, l.ssm))
    && (Settles(c, info, req) ==>
      && (!l.ssm.Finished() ==> l.starts == l.ssm.retryCount + 1)
      && l.starts <= c.numberOfApduRetries + 1)
  }

  /** What a handler does to a waiting machine: it goes on waiting and reports nothing, or it
      finishes and reports once, unless its abort was refused. */
  predicate Good(c: Config, req: Apdu, o: Outcome, retries: nat, sendOk: bool) {
    if o.ssm.Finished() then
      |Results(o.out)| == (if o.raised then 0 else 1) && (sendOk ==> !o.raised)
    else Waiting(c, req, o.ssm) && Results(o.out) == [] && o.ssm.retryCount == retries
  }

  lemma NoResults(apdus: seq<Apdu>)
    ensures Results(Downs(apdus)) == []
    decreases |apdus|
  {
    if apdus != [] {
      NoResults(apdus[1..]);
      assert Downs(apdus)[1..] == Downs(apdus[1..]);
    }
  }

  lemma FewResults(a: Apdu, b: Apdu)
    ensures Results([Up(a)]) == [a] && Results([Down(a)]) == [] && Results([Down(a), Up(b)]) == [b]
  {
    assert [Up(a)][1..] == [] && [Down(a)][1..] == [] && [Down(a), Up(b)][1..] == [Up(b)] && [Up(b)][1..] == [];
  }

  lemma AbortGood(c: Config, req: Apdu, s: Ssm, reason: byte, toPeer: bool, sendOk: bool)
    requires s.invokeID.Some?
    ensures Good(c, req, AbortWith(s, reason, toPeer, sendOk), s.retryCount, sendOk)
  {
    var abort := AbortOf(false, s.invokeID.value, reason);
    FewResults(abort, abort);
  }

  lemma CompleteGood(c: Config, req: Apdu, s: Ssm, apdu: Apdu, sendOk: bool)
    ensures Good(c, req, Complete(s, apdu), s.retryCount, sendOk)
  {
    FewResults(apdu, apdu);
  }

  lemma FillGood(c: Config, req: Apdu, s: Ssm, seqNum: byte, sendOk: bool, restart: bool)
    requires Waiting(c, req, s)
    ensures Good(c, req, FillWindow(s, c, seqNum, sendOk, restart), s.retryCount, sendOk)
  {
    if s.actualWindowSize.Some? { NoResults(FillFrom(s, c, seqNum, 0, s.actualWindowSize.value).sent); }
  }

  /** Starting, or starting again. */
  lemma IndicationGood(c: Config, info: Option<DeviceInfo>, req: Apdu, s: Ssm, sendOk: bool)
    requires Valid(c, req) && !Uncut(c, info, req)
    requires s.maxSegmentsAccepted == c.maxSegmentsAccepted && s.maxApduLengthAccepted == c.maxApduLengthAccepted
    ensures var o := Indication(s, c, info, req, sendOk);
      && Good(c, req, o, 0, sendOk) && (o.raised <==> !Sendable(c, info, req)) && (o.raised ==> !o.ssm.Finished())
      && (!o.ssm.Finished() ==> StillMute(c, info, req, o.ssm) && o.ssm.state != SEGMENTED_CONFIRMATION)
  {
    var s1 := Prepare(s, c, RequestSegmentSize(c, info), req);
    var refusal := Refusal(c, info, s1.segmentCount);
    RaisesExactly(c, info, req, s, sendOk);
    if refusal.Some? {
      AbortGood(c, req, s1, refusal.value, false, sendOk);
    } else {
      StartGood(c, info, req, s, sendOk);
      StartMute(c, info, req, s, sendOk);
    }
  }

  lemma StillGood(c: Config, req: Apdu, s: Ssm, out: seq<Effect>, raised: bool, sendOk: bool)
    requires Waiting(c, req, s) && Results(out) == []
    ensures Good(c, req, Outcome(s, out, raised), s.retryCount, sendOk)
  {
  }

  lemma FirstSegmentGood(c: Config, req: Apdu, s: Ssm, refused: Apdu, sendOk: bool)
    requires Waiting(c, req, s)
    ensures var o := FirstSegment(s, c, refused, sendOk);
      Good(c, req, o, s.retryCount, sendOk) && (o.raised ==> !o.ssm.Finished())
  {
    match GetSegment(s, c, 0) {
      case None => StillGood(c, req, s, [], true, sendOk);
      case Some(first) =>
        FewResults(first, refused);
        StillGood(c, req, s, [Down(first)], false, sendOk);
        CompleteGood(c, req, s, refused, sendOk);
    }
  }

  lemma StartGood(c: Config, info: Option<DeviceInfo>, req: Apdu, s: Ssm, sendOk: bool)
    requires Valid(c, req) && !Uncut(c, info, req)
    requires s.maxSegmentsAccepted == c.maxSegmentsAccepted && s.maxApduLengthAccepted == c.maxApduLengthAccepted
    ensures var s2 := Start(Prepare(s, c, RequestSegmentSize(c, info), req), c);
      var o := FirstSegment(s2, c, ErrorAck(req.invokeID, req.service, []), sendOk);
      Good(c, req, o, 0, sendOk) && (o.raised ==> !o.ssm.Finished())
  {
    var s2 := Start(Prepare(s, c, RequestSegmentSize(c, info), req), c);
    assert Waiting(c, req, s2) && s2.retryCount == 0;
    FirstSegmentGood(c, req, s2, ErrorAck(req.invokeID, req.service, []), sendOk);
  }

  lemma StartMute(c: Config, info: Option<DeviceInfo>, req: Apdu, s: Ssm, sendOk: bool)
    requires Valid(c, req) && !Uncut(c, info, req)
    ensures var s2 := Start(Prepare(s, c, RequestSegmentSize(c, info), req), c);
      var o := FirstSegment(s2, c, ErrorAck(req.invokeID, req.service, []), sendOk);
      !o.ssm.Finished() ==> StillMute(c, info, req, o.ssm) && o.ssm.state != SEGMENTED_CONFIRMATION
  {
  }

  lemma SegmentAckGood(c: Config, req: Apdu, s: Ssm, apdu: Apdu, sendOk: bool)
    requires Waiting(c, req, s) && s.state == SEGMENTED_REQUEST && apdu.SegmentAck? && 0 < c.apduTimeout
    ensures Good(c, req, SegmentedRequest(s, c, apdu, sendOk), s.retryCount, sendOk)
  {
    var s1 := s.(actualWindowSize := Some(apdu.win));
    var next := (apdu.seqNo + 1) % 256;
    FillGood(c, req, s1.(initialSequenceNumber := next, segmentRetryCount := 0), next, sendOk, true);
  }

  lemma SegmentedRequestGood(c: Config, req: Apdu, s: Ssm, apdu: Apdu, sendOk: bool)
    requires Waiting(c, req, s) && s.state == SEGMENTED_REQUEST && 0 < c.apduTimeout && 0 < c.segmentTimeout
    ensures Good(c, req, SegmentedRequest(s, c, apdu, sendOk), s.retryCount, sendOk)
  {
    AbortGood(c, req, s, INVALID_APDU_IN_THIS_STATE, true, sendOk);
    CompleteGood(c, req, s, apdu, sendOk);
    if apdu.SegmentAck? { SegmentAckGood(c, req, s, apdu, sendOk); }
  }

  lemma AwaitConfirmationGood(c: Config, req: Apdu, s: Ssm, apdu: Apdu, sendOk: bool)
    requires Waiting(c, req, s) && s.state == AWAIT_CONFIRMATION && 0 < c.segmentTimeout
    ensures Good(c, req, AwaitConfirmation(s, c, apdu, sendOk), s.retryCount, sendOk)
  {
    AbortGood(c, req, s, INVALID_APDU_IN_THIS_STATE, true, sendOk);
    AbortGood(c, req, s, SEGMENTATION_NOT_SUPPORTED, false, sendOk);
    CompleteGood(c, req, s, apdu, sendOk);
    if apdu.ComplexAck? { FewResults(SegmentAckOf(false, false, s.invokeID.value, 0, apdu.win), apdu); }
  }

  lemma TakeLastGood(c: Config, req: Apdu, s: Ssm, sendOk: bool)
    requires Waiting(c, req, s) && s.state == SEGMENTED_CONFIRMATION
    ensures Good(c, req, TakeLast(s, c, sendOk), s.retryCount, sendOk)
  {
    FewResults(SegmentAckOf(false, false, s.invokeID.value, s.lastSequenceNumber, s.actualWindowSize.value),
        s.segmentAPDU.value);
  }

  lemma TakeMiddleGood(c: Config, req: Apdu, s: Ssm, sendOk: bool)
    requires Waiting(c, req, s) && s.state == SEGMENTED_CONFIRMATION
    ensures Good(c, req, TakeMiddle(s, c, sendOk), s.retryCount, sendOk)
  {
    FewResults(SegmentAckOf(false, false, s.invokeID.value, s.lastSequenceNumber, s.actualWindowSize.value),
        s.segmentAPDU.value);
  }

  lemma TakeNextGood(c: Config, req: Apdu, s: Ssm, apdu: Apdu, sendOk: bool)
    requires Waiting(c, req, s) && s.state == SEGMENTED_CONFIRMATION && apdu.ComplexAck?
    ensures Good(c, req, TakeNext(s, c, apdu, sendOk), s.retryCount, sendOk)
  {
    var s1 := s.(segmentAPDU := Some(AppendData(s.segmentAPDU.value, apdu.data)), lastSequenceNumber := apdu.seqNo);
    TakeLastGood(c, req, s1, sendOk);
    TakeMiddleGood(c, req, s1, sendOk);
  }

  lemma NakGood(c: Config, req: Apdu, s: Ssm, sendOk: bool)
    requires Waiting(c, req, s) && s.state == SEGMENTED_CONFIRMATION
    ensures var nak := SegmentAckOf(true, false, s.invokeID.value, s.lastSequenceNumber, s.actualWindowSize.value);
      var s1 := Restart(s, c.segmentTimeout);
      Good(c, req, if sendOk then Outcome(s1, [Down(nak)], false) else Outcome(s1, [], true), s.retryCount, sendOk)
  {
    var nak := SegmentAckOf(true, false, s.invokeID.value, s.lastSequenceNumber, s.actualWindowSize.value);
    FewResults(nak, nak);
  }

  lemma SegmentedConfirmationGood(c: Config, req: Apdu, s: Ssm, apdu: Apdu, sendOk: bool)
    requires Waiting(c, req, s) && s.state == SEGMENTED_CONFIRMATION
    ensures Good(c, req, SegmentedConfirmation(s, c, apdu, sendOk), s.retryCount, sendOk)
  {
    AbortGood(c, req, s, INVALID_APDU_IN_THIS_STATE, true, sendOk);
    NakGood(c, req, s, sendOk);
    if apdu.ComplexAck? { TakeNextGood(c, req, s, apdu, sendOk); }
  }

  lemma ConfirmationGood(c: Config, req: Apdu, s: Ssm, apdu: Apdu, sendOk: bool)
    requires Waiting(c, req, s) && 0 < c.apduTimeout && 0 < c.segmentTimeout
    ensures Good(c, req, Confirmation(s, c, apdu, sendOk), s.retryCount, sendOk)
  {
    match s.state {
      case SEGMENTED_REQUEST => SegmentedRequestGood(c, req, s, apdu, sendOk);
      case AWAIT_CONFIRMATION => AwaitConfirmationGood(c, req, s, apdu, sendOk);
      case _ => SegmentedConfirmationGood(c, req, s, apdu, sendOk);
    }
  }

  // ----- timeouts and the measure

  /** How many more times the timer can expire before the machine has ended. */
  function Fuel(c: Config, s: Ssm): nat
    requires s.retryCount <= c.numberOfApduRetries
    requires s.state == SEGMENTED_REQUEST ==> s.segmentRetryCount <= c.numberOfApduRetries
  {
    match s.state
    case SEGMENTED_REQUEST => c.numberOfApduRetries - s.segmentRetryCount + 1
    case AWAIT_CONFIRMATION => c.numberOfApduRetries - s.retryCount + c.numberOfApduRetries + 2
    case SEGMENTED_CONFIRMATION => 1
    case _ => 0
  }

  lemma ResendGood(c: Config, req: Apdu, s: Ssm, sendOk: bool)
    requires Waiting(c, req, s)
    ensures Good(c, req, ResendFirst(s, c, sendOk), s.retryCount, sendOk)
  {
    if GetSegment(s, c, 0).Some? { FewResults(GetSegment(s, c, 0).value, req); }
  }

  /** Sending a window, or segment 0, again leaves the retry counts alone. */
  lemma FillKeeps(c: Config, s: Ssm, seqNum: byte, sendOk: bool)
    ensures var t := FillWindow(s, c, seqNum, sendOk, false).ssm;
      t.state == s.state && t.retryCount == s.retryCount && t.segmentRetryCount == s.segmentRetryCount
  {
  }

  lemma RetryFirstGood(c: Config, req: Apdu, s: Ssm, sendOk: bool)
    requires Waiting(c, req, s) && s.state == SEGMENTED_REQUEST
    ensures var o := ResendFirst(s, c, sendOk);
      Good(c, req, o, s.retryCount, sendOk) && !o.ssm.Finished() && Fuel(c, o.ssm) == Fuel(c, s)
  {
    ResendGood(c, req, s, sendOk);
  }

  lemma RetryWindowGood(c: Config, req: Apdu, s: Ssm, sendOk: bool)
    requires Waiting(c, req, s) && s.state == SEGMENTED_REQUEST
    ensures var o := FillWindow(s, c, s.initialSequenceNumber, sendOk, false);
      Good(c, req, o, s.retryCount, sendOk) && !o.ssm.Finished() && Fuel(c, o.ssm) == Fuel(c, s)
  {
    FillGood(c, req, s, s.initialSequenceNumber, sendOk, false);
    FillKeeps(c, s, s.initialSequenceNumber, sendOk);
  }

  lemma RetryGood(c: Config, req: Apdu, s: Ssm, sendOk: bool)
    requires Waiting(c, req, s) && s.state == SEGMENTED_REQUEST && s.segmentRetryCount < c.numberOfApduRetries
    ensures var o := SegmentedRequestTimeout(s.(timer := None), c, sendOk);
      Good(c, req, o, s.retryCount, sendOk) && !o.ssm.Finished() && Fuel(c, o.ssm) < Fuel(c, s)
  {
    var s1 := Restart(s.(segmentRetryCount := s.segmentRetryCount + 1), c.segmentTimeout);
    assert Waiting(c, req, s1) && Fuel(c, s1) < Fuel(c, s);
    RetryFirstGood(c, req, s1, sendOk);
    RetryWindowGood(c, req, s1, sendOk);
    assert SegmentedRequestTimeout(s.(timer := None), c, sendOk)
        == if s.initialSequenceNumber == 0 then ResendFirst(s1, c, sendOk)
           else FillWindow(s1, c, s.initialSequenceNumber, sendOk, false);
  }

  /** A timeout while the request goes out uses up one retry of the window. */
  lemma RequestTimeoutGood(c: Config, req: Apdu, s: Ssm, sendOk: bool)
    requires Waiting(c, req, s) && s.state == SEGMENTED_REQUEST
    ensures var o := SegmentedRequestTimeout(s.(timer := None), c, sendOk);
      && Good(c, req, o, s.retryCount, sendOk)
      && (!o.ssm.Finished() ==> Fuel(c, o.ssm) < Fuel(c, s))
      && !(o.ssm.Finished() && o.raised)
  {
    if s.segmentRetryCount < c.numberOfApduRetries { RetryGood(c, req, s, sendOk); }
    else { AbortGood(c, req, s.(timer := None), NO_RESPONSE, false, sendOk); }
  }

  /** The retry count after a timeout: a start that raises leaves it at 0. */
  function Retried(c: Config, info: Option<DeviceInfo>, req: Apdu, s: Ssm): nat
    requires req.ConfirmedRequest?
  {
    if !(s.state == AWAIT_CONFIRMATION && s.retryCount < c.numberOfApduRetries) then s.retryCount
    else if Sendable(c, info, req) then s.retryCount + 1
    else 0
  }

  lemma NothingBuilt(c: Config, info: Option<DeviceInfo>, req: Apdu, s: Ssm, indx: nat)
    requires req.ConfirmedRequest? && Mute(c, info, req) && s.segmentAPDU == Some(req)
    requires s.maxSegmentsAccepted == c.maxSegmentsAccepted && s.maxApduLengthAccepted == c.maxApduLengthAccepted
    ensures GetSegment(s, c, indx).None?
  {
  }

  lemma FillMute(c: Config, info: Option<DeviceInfo>, req: Apdu, s: Ssm, seqNum: byte, sendOk: bool, restart: bool)
    requires req.ConfirmedRequest? && Waiting(c, req, s) && s.state == SEGMENTED_REQUEST && StillMute(c, info, req, s)
    ensures StillMute(c, info, req, FillWindow(s, c, seqNum, sendOk, restart).ssm)
  {
    if Mute(c, info, req) { NothingBuilt(c, info, req, s, seqNum); }
  }

  lemma RequestTimeoutMute(c: Config, info: Option<DeviceInfo>, req: Apdu, s: Ssm, sendOk: bool)
    requires req.ConfirmedRequest? && Waiting(c, req, s) && s.state == SEGMENTED_REQUEST && StillMute(c, info, req, s)
    ensures var o := SegmentedRequestTimeout(s.(timer := None), c, sendOk);
      !o.ssm.Finished() ==> StillMute(c, info, req, o.ssm)
  {
    if s.segmentRetryCount < c.numberOfApduRetries {
      var s1 := Restart(s.(timer := None, segmentRetryCount := s.segmentRetryCount + 1), c.segmentTimeout);
      FillMute(c, info, req, s1, s.initialSequenceNumber, sendOk, false);
    }
  }

  lemma ConfirmationMute(c: Config, info: Option<DeviceInfo>, req: Apdu, s: Ssm, apdu: Apdu, sendOk: bool)
    requires req.ConfirmedRequest? && Waiting(c, req, s) && StillMute(c, info, req, s)
    ensures var o := Confirmation(s, c, apdu, sendOk); !o.ssm.Finished() ==> StillMute(c, info, req, o.ssm)
  {
    if Mute(c, info, req) && apdu.SegmentAck? {
      var next := (apdu.seqNo + 1) % 256;
      FillMute(c, info, req, s.(actualWindowSize := Some(apdu.win), initialSequenceNumber := next,
          segmentRetryCount := 0),
               next, sendOk, true);
    }
  }

  /** What a timeout may do. It uses up fuel unless it started in vain. */
  predicate TimedOut(c: Config, info: Option<DeviceInfo>, req: Apdu, s: Ssm, o: Outcome, sendOk: bool)
    requires Waiting(c, req, s) && req.ConfirmedRequest?
  {
    var again := s.state == AWAIT_CONFIRMATION && s.retryCount < c.numberOfApduRetries;
    && Good(c, req, o, Retried(c, info, req, s), sendOk)
    && (!o.ssm.Finished() && (again ==> Sendable(c, info, req)) ==> Fuel(c, o.ssm) < Fuel(c, s))
    && !(o.ssm.Finished() && o.raised)
    && (!o.ssm.Finished() && s.state == AWAIT_CONFIRMATION ==> again)
  }

  lemma SameTimedOut(c: Config, info: Option<DeviceInfo>, req: Apdu, s: Ssm, o: Outcome, same: Outcome, sendOk: bool)
    requires Waiting(c, req, s) && req.ConfirmedRequest? && TimedOut(c, info, req, s, o, sendOk) && o == same
    ensures TimedOut(c, info, req, s, same, sendOk)
  {
  }

  lemma AgainTimedOut(c: Config, info: Option<DeviceInfo>, req: Apdu, s: Ssm, sendOk: bool)
    requires Valid(c, req) && !Uncut(c, info, req) && Waiting(c, req, s) && s.state == AWAIT_CONFIRMATION
    requires s.retryCount < c.numberOfApduRetries
    ensures var o := StartAgain(s.(timer := None), c, info, s.retryCount + 1, sendOk);
      TimedOut(c, info, req, s, o, sendOk) && (!o.ssm.Finished() ==> StillMute(c, info, req, o.ssm))
  {
    var s1 := s.(timer := None, retryCount := s.retryCount + 1);
    IndicationGood(c, info, req, s1, sendOk);
    RecountedGood(c, info, req, s, Indication(s1, c, info, req, sendOk), sendOk);
  }

  lemma RecountedGood(c: Config, info: Option<DeviceInfo>, req: Apdu, s: Ssm, o: Outcome, sendOk: bool)
    requires Waiting(c, req, s) && s.state == AWAIT_CONFIRMATION && s.retryCount < c.numberOfApduRetries
    requires req.ConfirmedRequest?
    requires Good(c, req, o, 0, sendOk) && (o.raised <==> !Sendable(c, info, req)) && (o.raised ==> !o.ssm.Finished())
    requires !o.ssm.Finished() ==> o.ssm.state != SEGMENTED_CONFIRMATION
    ensures TimedOut(c, info, req, s, Recounted(o, s.retryCount + 1), sendOk)
  {
  }

  /** A timeout while the answer is awaited starts the request again. */
  lemma ConfirmationTimeoutGood(c: Config, info: Option<DeviceInfo>, req: Apdu, s: Ssm, sendOk: bool)
    requires Valid(c, req) && !Uncut(c, info, req) && Waiting(c, req, s) && s.state == AWAIT_CONFIRMATION
    ensures var o := AwaitConfirmationTimeout(s.(timer := None), c, info, sendOk);
      TimedOut(c, info, req, s, o, sendOk) && (!o.ssm.Finished() ==> StillMute(c, info, req, o.ssm))
  {
    var s0 := s.(timer := None);
    if s.retryCount < c.numberOfApduRetries {
      AgainTimedOut(c, info, req, s, sendOk);
      TimeoutStartsAgain(s0, c, info, sendOk);
      SameTimedOut(c, info, req, s, StartAgain(s0, c, info, s.retryCount + 1, sendOk),
                   AwaitConfirmationTimeout(s0, c, info, sendOk), sendOk);
    } else {
      AbortGood(c, req, s0, NO_RESPONSE, false, sendOk);
    }
  }

  /** Every expiry of the timer brings the end nearer, unless it starts a request again that
      cannot be sent. */
  lemma TimeoutGood(c: Config, info: Option<DeviceInfo>, req: Apdu, s: Ssm, sendOk: bool)
    requires Valid(c, req) && !Uncut(c, info, req) && Waiting(c, req, s) && StillMute(c, info, req, s)
    ensures var o := TimerExpired(s, c, info, sendOk);
      TimedOut(c, info, req, s, o, sendOk) && (!o.ssm.Finished() ==> StillMute(c, info, req, o.ssm))
  {
    match s.state {
      case SEGMENTED_REQUEST =>
        RequestTimeoutGood(c, req, s, sendOk);
        RequestTimeoutMute(c, info, req, s, sendOk);
      case AWAIT_CONFIRMATION => ConfirmationTimeoutGood(c, info, req, s, sendOk);
      case _ => AbortGood(c, req, s.(timer := None), NO_RESPONSE, false, sendOk);
    }
  }

  // ----- silence

  lemma RequestSilence(c: Config, req: Apdu, s: Ssm, apdu: Apdu, sendOk: bool)
    requires Waiting(c, req, s) && s.state == SEGMENTED_REQUEST
    ensures var o := SegmentedRequest(s, c, apdu, sendOk);
      o.ssm.Finished() && o.raised <==> !sendOk && Unwelcome(c, s, apdu)
  {
  }

  lemma AwaitSilence(c: Config, req: Apdu, s: Ssm, apdu: Apdu, sendOk: bool)
    requires Waiting(c, req, s) && s.state == AWAIT_CONFIRMATION
    ensures var o := AwaitConfirmation(s, c, apdu, sendOk);
      o.ssm.Finished() && o.raised <==> !sendOk && Unwelcome(c, s, apdu)
  {
  }

  lemma AnswerSilence(c: Config, req: Apdu, s: Ssm, apdu: Apdu, sendOk: bool)
    requires Waiting(c, req, s) && s.state == SEGMENTED_CONFIRMATION
    ensures var o := SegmentedConfirmation(s, c, apdu, sendOk);
      o.ssm.Finished() && o.raised <==> !sendOk && Unwelcome(c, s, apdu)
  {
  }

  /** A handler finishes the machine and raises exactly when an abort to the peer is refused. */
  lemma ConfirmationSilence(c: Config, req: Apdu, s: Ssm, apdu: Apdu, sendOk: bool)
    requires Waiting(c, req, s)
    ensures var o := Confirmation(s, c, apdu, sendOk);
      o.ssm.Finished() && o.raised <==> !sendOk && Unwelcome(c, s, apdu)
  {
    match s.state {
      case SEGMENTED_REQUEST => RequestSilence(c, req, s, apdu, sendOk);
      case AWAIT_CONFIRMATION => AwaitSilence(c, req, s, apdu, sendOk);
      case _ => AnswerSilence(c, req, s, apdu, sendOk);
    }
  }

  // ----- every run

  predicate AllSent(inputs: seq<Input>) {
    forall i :: 0 <= i < |inputs| ==> inputs[i].sendOk
  }

  /** One step of an unfinished machine: it finishes without a result exactly when the network
      refuses the abort for an unwelcome PDU, and with one result otherwise. */
  lemma StepInv(c: Config, info: Option<DeviceInfo>, req: Apdu, l: Life, i: Input)
    requires Valid(c, req) && Inv(c, info, req, l)
    ensures Inv(c, info, req, Step(c, info, l, i))
    ensures !l.ssm.Finished() ==>
      var u := Step(c, info, l, i);
      |u.results| == if u.ssm.Finished() && !Silences(c, l, i) then 1 else 0
    ensures Silences(c, l, i) ==> Step(c, info, l, i).ssm.Finished()
  {
    if Enabled(l, i) && !Uncut(c, info, req) {
      match i {
        case FromPeer(apdu, ok) =>
          ConfirmationGood(c, req, l.ssm, apdu, ok);
          ConfirmationMute(c, info, req, l.ssm, apdu, ok);
          ConfirmationSilence(c, req, l.ssm, apdu, ok);
        case Expires(ok) => TimeoutGood(c, info, req, l.ssm, ok);
      }
    }
  }

  lemma BeginInv(c: Config, info: Option<DeviceInfo>, req: Apdu, sendOk: bool)
    requires Valid(c, req)
    ensures var l := Begin(c, info, req, sendOk);
      Inv(c, info, req, l) && |l.results| == if l.ssm.Finished() then 1 else 0
  {
    if !Uncut(c, info, req) { IndicationGood(c, info, req, NewSsm(c), sendOk); }
  }

  /** A finished machine stays as it is. */
  lemma {:induction false} FinishedStays(c: Config, info: Option<DeviceInfo>, l: Life, inputs: seq<Input>)
    requires l.ssm.Finished()
    ensures Run(c, info, l, inputs) == l && !Silenced(c, info, l, inputs)
    decreases |inputs|
  {
    if inputs != [] { FinishedStays(c, info, l, inputs[1..]); }
  }

  lemma {:induction false} RunInv(c: Config, info: Option<DeviceInfo>, req: Apdu, l: Life, inputs: seq<Input>)
    requires Valid(c, req) && Inv(c, info, req, l) && |l.results| == if l.ssm.Finished() then 1 else 0
    ensures var u := Run(c, info, l, inputs);
      && Inv(c, info, req, u)
      && |u.results| == (if u.ssm.Finished() && !Silenced(c, info, l, inputs) then 1 else 0)
      && (Silenced(c, info, l, inputs) ==> u.ssm.Finished())
    decreases |inputs|
  {
    if inputs != [] {
      var next := Step(c, info, l, inputs[0]);
      StepInv(c, info, req, l, inputs[0]);
      if next.ssm.Finished() {
        FinishedStays(c, info, next, inputs[1..]);
      } else {
        RunInv(c, info, req, next, inputs[1..]);
      }
    }
  }

  lemma {:induction false} SentIsHeard(c: Config, info: Option<DeviceInfo>, l: Life, inputs: seq<Input>)
    requires AllSent(inputs)
    ensures !Silenced(c, info, l, inputs)
    decreases |inputs|
  {
    if inputs != [] { SentIsHeard(c, info, Step(c, info, l, inputs[0]), inputs[1..]); }
  }

  /** Exactly one outcome, for every request: in every run the application has received one
      result if the machine has finished and none before, except that a machine which finished
      on an unwelcome PDU whose abort the network refused has reported nothing. A request that
      settles is started at most once more than there are retries. */
  lemma ExactlyOneOutcome(c: Config, info: Option<DeviceInfo>, req: Apdu, sendOk: bool, inputs: seq<Input>)
    requires Valid(c, req)
    ensures var l0 := Begin(c, info, req, sendOk);
      var l := Run(c, info, l0, inputs);
      && |l.results| == (if l.ssm.Finished() && !Silenced(c, info, l0, inputs) then 1 else 0)
      && (Silenced(c, info, l0, inputs) ==> l.ssm.Finished())
      && (AllSent(inputs) ==> !Silenced(c, info, l0, inputs))
      && 1 <= l.starts && (Settles(c, info, req) ==> l.starts <= c.numberOfApduRetries + 1)
  {
    var l0 := Begin(c, info, req, sendOk);
    BeginInv(c, info, req, sendOk);
    RunInv(c, info, req, l0, inputs);
    StartsGrow(c, info, l0, inputs);
    if AllSent(inputs) { SentIsHeard(c, info, l0, inputs); }
  }

  lemma {:induction false} StartsGrow(c: Config, info: Option<DeviceInfo>, l: Life, inputs: seq<Input>)
    ensures l.starts <= Run(c, info, l, inputs).starts
    decreases |inputs|
  {
    if inputs != [] { StartsGrow(c, info, Step(c, info, l, inputs[0]), inputs[1..]); }
  }

  /** A step from a waiting machine ends it without a result if and only if the network refuses
      the abort for a PDU that the state has no use for. */
  lemma SilencedExactly(c: Config, info: Option<DeviceInfo>, req: Apdu, l: Life, i: Input)
    requires Valid(c, req) && Inv(c, info, req, l) && Enabled(l, i)
    ensures var u := Step(c, info, l, i); u.ssm.Finished() && u.results == [] <==> Silences(c, l, i)
  {
    StepInv(c, info, req, l, i);
  }

  function PeerInputs(inputs: seq<Input>): nat {
    if inputs == [] then 0 else (if inputs[0].FromPeer? then 1 else 0) + PeerInputs(inputs[1..])
  }

  /** Every input of the run is one the machine can take when it comes. */
  predicate Busy(c: Config, info: Option<DeviceInfo>, l: Life, inputs: seq<Input>)
    decreases |inputs|
  {
    inputs == [] || (Enabled(l, inputs[0]) && Busy(c, info, Step(c, info, l, inputs[0]), inputs[1..]))
  }

  /** The most expiries a waiting machine can see without hearing from its peer. */
  function Bound(c: Config): nat { 2 * c.numberOfApduRetries + 2 }

  /** What is left of a life: nothing once it has finished. */
  function Remaining(c: Config, info: Option<DeviceInfo>, req: Apdu, l: Life): nat
    requires req.ConfirmedRequest? && !Uncut(c, info, req) && Inv(c, info, req, l)
  {
    if l.ssm.Finished() then 0 else Fuel(c, l.ssm)
  }

  lemma StepUsesFuel(c: Config, info: Option<DeviceInfo>, req: Apdu, l: Life, i: Input)
    requires Valid(c, req) && Settles(c, info, req) && Inv(c, info, req, l) && Enabled(l, i)
    ensures Inv(c, info, req, Step(c, info, l, i))
    ensures var r := Remaining(c, info, req, Step(c, info, l, i));
      if i.Expires? then r < Remaining(c, info, req, l) else r <= Bound(c)
  {
    StepInv(c, info, req, l, i);
    if i.Expires? { TimeoutGood(c, info, req, l.ssm, i.sendOk); }
  }

  lemma Distribute(k: nat, b: nat)
    ensures (k + 1) * b == k * b + b
  {
  }

  lemma {:induction false} RunsEnd(c: Config, info: Option<DeviceInfo>, req: Apdu, l: Life, inputs: seq<Input>)
    requires Valid(c, req) && Settles(c, info, req) && Inv(c, info, req, l) && Busy(c, info, l, inputs)
    ensures var k := PeerInputs(inputs); |inputs| <= k + k * Bound(c) + Remaining(c, info, req, l)
    decreases |inputs|
  {
    if inputs != [] {
      StepUsesFuel(c, info, req, l, inputs[0]);
      RunsEnd(c, info, req, Step(c, info, l, inputs[0]), inputs[1..]);
      Distribute(PeerInputs(inputs[1..]), Bound(c));
    }
  }

  /** Liveness: for a request that settles, a machine that has not finished has an armed timer,
      and a run in which the peer is heard k times is over, with the machine finished, after at
      most k messages and (k + 1) * (2 * retries + 2) expiries. */
  lemma AlwaysEnds(c: Config, info: Option<DeviceInfo>, req: Apdu, sendOk: bool, inputs: seq<Input>)
    requires Valid(c, req) && Settles(c, info, req)
    ensures Ends(c, info, Begin(c, info, req, sendOk), inputs)
  {
    var l0 := Begin(c, info, req, sendOk);
    BeginInv(c, info, req, sendOk);
    RunInv(c, info, req, l0, inputs);
    if Busy(c, info, l0, inputs) {
      RunsEnd(c, info, req, l0, inputs);
      Distribute(PeerInputs(inputs), Bound(c));
    }
  }

  /** The run leaves the machine finished or with an armed timer, and is no longer than that. */
  predicate Ends(c: Config, info: Option<DeviceInfo>, l0: Life, inputs: seq<Input>) {
    var l := Run(c, info, l0, inputs);
    && (l.ssm.Finished() || l.ssm.timer.Some?)
    && (Busy(c, info, l0, inputs) ==> |inputs| <= PeerInputs(inputs) + (PeerInputs(inputs) + 1) * Bound(c))
  }

  // ----- requests that never end

  /** A machine that has started a request which cannot be built, and hears nothing. */
  predicate Stuck(c: Config, req: Apdu, s: Ssm) {
    Waiting(c, req, s) && s.state == AWAIT_CONFIRMATION && s.retryCount == 0
  }

  lemma HopelessStart(c: Config, info: Option<DeviceInfo>, req: Apdu, s: Ssm, sendOk: bool)
    requires Valid(c, req) && Hopeless(c, info, req)
    requires s.maxSegmentsAccepted == c.maxSegmentsAccepted && s.maxApduLengthAccepted == c.maxApduLengthAccepted
    ensures var o := Indication(s, c, info, req, sendOk); Stuck(c, req, o.ssm) && o.out == [] && o.raised
  {
  }

  lemma HopelessStep(c: Config, info: Option<DeviceInfo>, req: Apdu, l: Life, sendOk: bool)
    requires Valid(c, req) && Hopeless(c, info, req) && Stuck(c, req, l.ssm) && l.results == []
    ensures Enabled(l, Expires(sendOk))
    ensures var u := Step(c, info, l, Expires(sendOk));
      Stuck(c, req, u.ssm) && u.results == [] && u.starts == l.starts + 1
  {
    HopelessStart(c, info, req, l.ssm.(timer := None, retryCount := 1), sendOk);
    TimeoutStartsAgain(l.ssm.(timer := None), c, info, sendOk);
  }

  predicate OnlyExpiries(inputs: seq<Input>) {
    forall i :: 0 <= i < |inputs| ==> inputs[i].Expires?
  }

  lemma {:induction false} StaysStuck(c: Config, info: Option<DeviceInfo>, req: Apdu, l: Life, inputs: seq<Input>)
    requires Valid(c, req) && Hopeless(c, info, req) && Stuck(c, req, l.ssm) && l.results == [] && OnlyExpiries(inputs)
    ensures Busy(c, info, l, inputs)
    ensures var u := Run(c, info, l, inputs); Stuck(c, req, u.ssm) && u.results == [] && u.starts == l.starts + |inputs|
    decreases |inputs|
  {
    if inputs != [] {
      HopelessStep(c, info, req, l, inputs[0].sendOk);
      StaysStuck(c, info, req, Step(c, info, l, inputs[0]), inputs[1..]);
    }
  }

  /** A request that fits in one PDU which cannot be built never ends while its peer is silent: each
      expiry starts it again, the start raises, and the retry count is back at 0. */
  lemma NeverEnds(c: Config, info: Option<DeviceInfo>, req: Apdu, sendOk: bool, inputs: seq<Input>)
    requires Valid(c, req) && Hopeless(c, info, req) && OnlyExpiries(inputs)
    ensures var l0 := Begin(c, info, req, sendOk);
      var l := Run(c, info, l0, inputs);
      Busy(c, info, l0, inputs) && !l.ssm.Finished() && l.results == [] && l.starts == |inputs| + 1
  {
    HopelessStart(c, info, req, NewSsm(c), sendOk);
    StaysStuck(c, info, req, Begin(c, info, req, sendOk), inputs);
  }

  /** A request that cannot be cut leaves its machine idle for ever, without a timer. */
  lemma {:induction false} NeverBegins(c: Config, info: Option<DeviceInfo>, req: Apdu, sendOk: bool, inputs: seq<Input>)
    requires Valid(c, req) && Uncut(c, info, req)
    ensures var l := Run(c, info, Begin(c, info, req, sendOk), inputs); Idle(l.ssm) && l.results == []
    decreases |inputs|
  {
    StaysIdle(c, info, Begin(c, info, req, sendOk), inputs);
  }

  lemma {:induction false} StaysIdle(c: Config, info: Option<DeviceInfo>, l: Life, inputs: seq<Input>)
    requires Idle(l.ssm)
    ensures var u := Run(c, info, l, inputs); Idle(u.ssm) && u.results == l.results
    decreases |inputs|
  {
    if inputs != [] { StaysIdle(c, info, Step(c, info, l, inputs[0]), inputs[1..]); }
  }

  function Expiries(k: nat): (inputs: seq<Input>)
    ensures |inputs| == k && OnlyExpiries(inputs)
  {
    seq(k, i => Expires(true))
  }

  lemma TooLong(c: Config, info: Option<DeviceInfo>, l0: Life, inputs: seq<Input>)
    requires Busy(c, info, l0, inputs) && PeerInputs(inputs) == 0 && Bound(c) < |inputs|
    ensures !Ends(c, info, l0, inputs)
  {
  }

  lemma {:induction false} NoPeer(inputs: seq<Input>)
    requires OnlyExpiries(inputs)
    ensures PeerInputs(inputs) == 0
    decreases |inputs|
  {
    if inputs != [] { NoPeer(inputs[1..]); }
  }

  /** One more expiry than any run that ends can have. */
  lemma NotAllEnd(c: Config, info: Option<DeviceInfo>, req: Apdu, sendOk: bool) returns (inputs: seq<Input>)
    requires Valid(c, req) && !Settles(c, info, req)
    ensures !Ends(c, info, Begin(c, info, req, sendOk), inputs)
  {
    if Uncut(c, info, req) {
      inputs := [];
      NeverBegins(c, info, req, sendOk, inputs);
    } else {
      inputs := Expiries(Bound(c) + 1);
      NoPeer(inputs);
      NeverEnds(c, info, req, sendOk, inputs);
      TooLong(c, info, Begin(c, info, req, sendOk), inputs);
    }
  }

  /** Every run ends if and only if the request settles. */
  lemma EndsExactly(c: Config, info: Option<DeviceInfo>, req: Apdu, sendOk: bool)
    requires Valid(c, req)
    ensures (forall inputs :: Ends(c, info, Begin(c, info, req, sendOk), inputs)) <==> Settles(c, info, req)
  {
    var l0 := Begin(c, info, req, sendOk);
    if Settles(c, info, req) {
      forall inputs ensures Ends(c, info, l0, inputs) { AlwaysEnds(c, info, req, sendOk, inputs); }
    } else {
      var inputs := NotAllEnd(c, info, req, sendOk);
    }
  }

  /** A device that accepts answers of one segment only, which has no code. */
  const ONE_SEGMENT := Config(3, 3000, 1500, 3000, SegmentedBoth, Some(1), 480, 2)

  /** Whatever request of up to 480 octets it makes, it makes it for ever. */
  lemma OneSegmentNeverEnds(req: Apdu, inputs: seq<Input>)
    requires req.ConfirmedRequest? && |req.data| <= 480 && OnlyExpiries(inputs)
    ensures var l := Run(ONE_SEGMENT, None, Begin(ONE_SEGMENT, None, req, true), inputs);
      !l.ssm.Finished() && l.results == [] && l.starts == |inputs| + 1
  {
    NeverEnds(ONE_SEGMENT, None, req, true, inputs);
  }
}
