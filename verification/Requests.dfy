/** What a client transaction puts on the network, in every run and against any peer: its request,
    whole if the peer accepts that, and otherwise in the longest pieces that the peer accepts. */
module Requests {
  import opened Apdus
  import opened Segmentation
  import opened ClientSteps
  import opened ClientLife
  import Windows

  // ----- what may be sent

  /** So many octets of data in one APDU are no more than the peer is known to accept, nor than the
      way there is known to carry; while the peer's length is not known the device's own counts. */
  predicate Acceptable(c: Config, info: Option<DeviceInfo>, n: nat) {
    if info.None? || info.value.maxApduLengthAccepted.None? then n <= c.maxApduLengthAccepted
    else
      && n <= info.value.maxApduLengthAccepted.value
      && (info.value.maxNpduLength.Some? ==> n <= info.value.maxNpduLength.value)
  }

  predicate IsLimit(c: Config, info: Option<DeviceInfo>, size: nat) {
    Acceptable(c, info, size) && !Acceptable(c, info, size + 1)
  }

  predicate CanTransmit(c: Config) {
    c.segmentationSupported == SegmentedBoth || c.segmentationSupported == SegmentedTransmit
  }

  predicate CanReceive(support: Support) {
    support == SegmentedBoth || support == SegmentedReceive
  }

  /** The peer is not known to accept fewer pieces of that size. */
  predicate FewEnough(info: Option<DeviceInfo>, length: nat, size: nat) {
    info.Some? && info.value.maxSegmentsAccepted.Some? && 0 < info.value.maxSegmentsAccepted.value ==>
      length <= info.value.maxSegmentsAccepted.value * size
  }

  /** The device may send that much data in pieces of that size. */
  predicate MaySegment(c: Config, info: Option<DeviceInfo>, length: nat, size: nat) {
    CanTransmit(c) && (info.Some? ==> CanReceive(info.value.segmentationSupported)) && FewEnough(info, length, size)
  }

  /** The code for how many segments an answer may have, of section 20.1.2.4. */
  predicate SegmentsCode(max: Option<nat>, code: byte) {
    if max.None? || max.value == 0 then code == 0
    else if max.value <= 3 then code == 1
    else if max.value <= 7 then code == 2
    else if max.value <= 15 then code == 3
    else if max.value <= 31 then code == 4
    else if max.value <= 63 then code == 5
    else if max.value == 64 then code == 6
    else code == 7
  }

  /** The code for how long an answer may be, of section 20.1.2.5. */
  predicate LengthCode(max: nat, code: byte) {
    if max < 128 then code == 0
    else if max < 206 then code == 1
    else if max < 480 then code == 2
    else if max < 1024 then code == 3
    else if max < 1476 then code == 4
    else code == 5
  }

  /** The header of every part of the request. */
  predicate HasHeader(c: Config, req: Apdu, a: Apdu)
    requires req.ConfirmedRequest?
  {
    && a.ConfirmedRequest? && a.invokeID == req.invokeID && a.service == req.service
    && a.sa == CanReceive(c.segmentationSupported)
    && SegmentsCode(c.maxSegmentsAccepted, a.maxSegs) && LengthCode(c.maxApduLengthAccepted, a.maxResp)
  }

  predicate IsWhole(c: Config, req: Apdu, a: Apdu)
    requires req.ConfirmedRequest?
  {
    HasHeader(c, req, a) && !a.seg && !a.mor && a.seqNo == 0 && a.win == 0 && a.data == req.data
  }

  /** Piece k of that size. */
  predicate IsPart(c: Config, req: Apdu, size: nat, a: Apdu, k: nat)
    requires req.ConfirmedRequest?
  {
    && HasHeader(c, req, a) && a.seg && a.seqNo == k % 256
    && k * size < |req.data|
    && (if (k + 1) * size < |req.data| then a.mor && a.data == req.data[k * size..(k + 1) * size]
        else !a.mor && a.data == req.data[k * size..])
    && (k == 0 ==> a.win == c.proposedWindowSize)
  }

  /** A part of the request that may be sent. */
  ghost predicate Proper(c: Config, info: Option<DeviceInfo>, req: Apdu, size: nat, a: Apdu)
    requires req.ConfirmedRequest?
  {
    && Acceptable(c, info, |a.data|)
    && if Acceptable(c, info, |req.data|) then IsWhole(c, req, a)
       else MaySegment(c, info, |req.data|, size) && exists k :: IsPart(c, req, size, a, k)
  }

  // ----- what is sent

  function SentBy(out: seq<Effect>): seq<Apdu> {
    if out == [] then [] else (if out[0].Down? then [out[0].apdu] else []) + SentBy(out[1..])
  }

  /** All that the machine sends while it takes these inputs. */
  function SentIn(c: Config, info: Option<DeviceInfo>, l: Life, inputs: seq<Input>): seq<Apdu>
    decreases |inputs|
  {
    if inputs == [] then []
    else
      (if Enabled(l, inputs[0]) then SentBy(Reaction(c, info, l, inputs[0]).out) else [])
      + SentIn(c, info, Step(c, info, l, inputs[0]), inputs[1..])
  }

  /** All that it sends, from the start. */
  function AllSentIn(c: Config, info: Option<DeviceInfo>, req: Apdu, sendOk: bool, inputs: seq<Input>): seq<Apdu> {
    SentBy(Indication(NewSsm(c), c, info, req, sendOk).out) + SentIn(c, info, Begin(c, info, req, sendOk), inputs)
  }

  // ----- the invariant

  lemma LimitIsSize(c: Config, info: Option<DeviceInfo>, size: nat)
    ensures IsLimit(c, info, size) <==> size == RequestSegmentSize(c, info)
  {
  }

  lemma WithinLimit(c: Config, info: Option<DeviceInfo>, n: nat)
    ensures Acceptable(c, info, n) <==> n <= RequestSegmentSize(c, info)
  {
  }

  predicate Sized(c: Config, info: Option<DeviceInfo>, req: Apdu, s: Ssm)
    requires req.ConfirmedRequest?
  {
    var size := RequestSegmentSize(c, info);
    && s.segmentAPDU == Some(req) && s.segmentSize == size && s.invokeID == Some(req.invokeID)
    && (|req.data| == 0 || 0 < size) && s.segmentCount == CountSegments(|req.data|, size)
    && s.maxSegmentsAccepted == c.maxSegmentsAccepted && s.maxApduLengthAccepted == c.maxApduLengthAccepted
  }

  predicate SizedInv(c: Config, info: Option<DeviceInfo>, req: Apdu, s: Ssm)
    requires req.ConfirmedRequest?
  {
    && s.maxSegmentsAccepted == c.maxSegmentsAccepted && s.maxApduLengthAccepted == c.maxApduLengthAccepted
    && (s.state == AWAIT_CONFIRMATION || s.state == SEGMENTED_REQUEST ==>
      Sized(c, info, req, s) && MaySend(c, info, req))
  }

  /** The request goes out, whole or in pieces. */
  predicate MaySend(c: Config, info: Option<DeviceInfo>, req: Apdu)
    requires req.ConfirmedRequest?
  {
    Acceptable(c, info, |req.data|) || MaySegment(c, info, |req.data|, RequestSegmentSize(c, info))
  }

  ghost predicate SizedOutcome(c: Config, info: Option<DeviceInfo>, req: Apdu, o: Outcome)
    requires req.ConfirmedRequest?
  {
    && SizedInv(c, info, req, o.ssm)
    && forall e :: e in o.out && e.Down? && e.apdu.ConfirmedRequest? ==>
      Proper(c, info, req, RequestSegmentSize(c, info), e.apdu)
  }

  /** The pieces that a count makes, octet by octet. */
  lemma PieceBounds(length: nat, size: nat, k: nat)
    requires 0 < size && k < CountSegments(length, size)
    ensures length == 0 || k * size < length
    ensures k < CountSegments(length, size) - 1 <==> (k + 1) * size < length
    ensures CountSegments(length, size) == 1 <==> length <= size
  {
    var count := CountSegments(length, size);
    if 0 < length {
      Windows.MulMono(k, count - 1, size);
      if k < count - 1 { Windows.MulMono(k + 1, count - 1, size); }
      if count != 1 { Windows.MulMono(1, count - 1, size); }
    } else {
      assert k == 0;
    }
  }

  lemma PieceIs(data: Bytes, size: nat, k: nat)
    requires 0 < size && k * size < |data|
    ensures Chunk(data, size, k) == if (k + 1) * size < |data| then data[k * size..(k + 1) * size] else data[k * size..]
    ensures |Chunk(data, size, k)| <= size
  {
    assert (k + 1) * size == k * size + size;
  }

  lemma CodesAreRight(c: Config)
    ensures var code := EncodeMaxSegments(c.maxSegmentsAccepted);
      code.Some? ==> SegmentsCode(c.maxSegmentsAccepted, code.value)
    ensures var code := EncodeMaxApduLength(c.maxApduLengthAccepted);
      code.Some? ==> LengthCode(c.maxApduLengthAccepted, code.value)
  {
  }

  lemma SegmentHeader(c: Config, info: Option<DeviceInfo>, req: Apdu, s: Ssm, k: nat)
    requires req.ConfirmedRequest? && Sized(c, info, req, s) && GetSegment(s, c, k).Some?
    ensures HasHeader(c, req, GetSegment(s, c, k).value)
  {
    CodesAreRight(c);
  }

  lemma SegmentProper(c: Config, info: Option<DeviceInfo>, req: Apdu, s: Ssm, k: nat)
    requires req.ConfirmedRequest? && Sized(c, info, req, s) && MaySend(c, info, req) && GetSegment(s, c, k).Some?
    ensures Proper(c, info, req, RequestSegmentSize(c, info), GetSegment(s, c, k).value)
  {
    var a, size := GetSegment(s, c, k).value, RequestSegmentSize(c, info);
    SegmentHeader(c, info, req, s, k);
    PieceBounds(|req.data|, size, k);
    WithinLimit(c, info, |req.data|);
    WithinLimit(c, info, |a.data|);
    if s.segmentCount == 1 {
      assert k == 0 && Chunk(req.data, size, 0) == req.data;
      assert IsWhole(c, req, a);
    } else {
      PieceIs(req.data, size, k);
      assert IsPart(c, req, size, a, k);
    }
  }

  // ----- every handler keeps it

  lemma FewEnoughPieces(length: nat, size: nat, max: nat)
    requires 0 < size
    ensures 0 < max ==> (CountSegments(length, size) <= max <==> length <= max * size)
  {
    var count := CountSegments(length, size);
    if count <= max { Windows.MulMono(count, max, size); } else { Windows.MulMono(max, count - 1, size); }
  }

  /** Why a request that has to go out in pieces is refused. */
  lemma RefusedWhen(c: Config, info: Option<DeviceInfo>, length: nat)
    requires 0 < RequestSegmentSize(c, info) < length
    ensures var size := RequestSegmentSize(c, info);
      Refusal(c, info, CountSegments(length, size))
      == if !CanTransmit(c) then Some(4)
         else if info.Some? && !CanReceive(info.value.segmentationSupported) then Some(4)
         else if !FewEnough(info, length, size) then Some(11)
         else None
  {
    var size := RequestSegmentSize(c, info);
    PieceBounds(length, size, 0);
    if info.Some? && info.value.maxSegmentsAccepted.Some? {
      FewEnoughPieces(length, size, info.value.maxSegmentsAccepted.value);
    }
  }

  lemma UnrefusedMaySend(c: Config, info: Option<DeviceInfo>, req: Apdu)
    requires req.ConfirmedRequest? && (|req.data| == 0 || 0 < RequestSegmentSize(c, info))
    ensures Refusal(c, info, CountSegments(|req.data|, RequestSegmentSize(c, info))).None? <==> MaySend(c, info, req)
  {
    var size := RequestSegmentSize(c, info);
    WithinLimit(c, info, |req.data|);
    if size < |req.data| { RefusedWhen(c, info, |req.data|); } else if 0 < size { PieceBounds(|req.data|, size, 0); }
  }

  lemma FirstSized(c: Config, info: Option<DeviceInfo>, req: Apdu, s: Ssm, refused: Apdu, sendOk: bool)
    requires req.ConfirmedRequest? && Sized(c, info, req, s) && MaySend(c, info, req)
    ensures SizedOutcome(c, info, req, FirstSegment(s, c, refused, sendOk))
    ensures SizedOutcome(c, info, req, ResendFirst(s, c, sendOk))
  {
    if GetSegment(s, c, 0).Some? { SegmentProper(c, info, req, s, 0); }
  }

  lemma {:induction false} FillSized(c: Config, info: Option<DeviceInfo>, req: Apdu, s: Ssm, seqNum: nat, ix: nat,
                                    window: byte)
    requires req.ConfirmedRequest? && Sized(c, info, req, s) && MaySend(c, info, req)
    ensures forall a :: a in FillFrom(s, c, seqNum, ix, window).sent ==>
      Proper(c, info, req, RequestSegmentSize(c, info), a)
    decreases window - ix
  {
    if ix < window && GetSegment(s, c, seqNum + ix).Some? {
      SegmentProper(c, info, req, s, seqNum + ix);
      FillSized(c, info, req, s, seqNum, ix + 1, window);
    }
  }

  lemma WindowSized(c: Config, info: Option<DeviceInfo>, req: Apdu, s: Ssm, seqNum: byte, sendOk: bool, restart: bool)
    requires req.ConfirmedRequest? && Sized(c, info, req, s) && MaySend(c, info, req)
    ensures SizedOutcome(c, info, req, FillWindow(s, c, seqNum, sendOk, restart))
  {
    if s.actualWindowSize.Some? { FillSized(c, info, req, s, seqNum, 0, s.actualWindowSize.value); }
  }

  lemma IndicationSized(c: Config, info: Option<DeviceInfo>, req: Apdu, s: Ssm, sendOk: bool)
    requires req.ConfirmedRequest?
    requires (s.state != AWAIT_CONFIRMATION && s.state != SEGMENTED_REQUEST) || Sized(c, info, req, s)
    requires s.maxSegmentsAccepted == c.maxSegmentsAccepted && s.maxApduLengthAccepted == c.maxApduLengthAccepted
    ensures SizedOutcome(c, info, req, Indication(s, c, info, req, sendOk))
  {
    var size := RequestSegmentSize(c, info);
    if |req.data| == 0 || 0 < size {
      var s1 := Prepare(s, c, size, req);
      UnrefusedMaySend(c, info, req);
      if MaySend(c, info, req) {
        FirstSized(c, info, req, Start(s1, c), ErrorAck(req.invokeID, req.service, []), sendOk);
      }
    }
  }

  lemma OneSized(c: Config, info: Option<DeviceInfo>, req: Apdu, s: Ssm, out: seq<Effect>, raised: bool)
    requires req.ConfirmedRequest? && SizedInv(c, info, req, s)
    requires |out| <= 2 && forall i :: 0 <= i < |out| ==> out[i].Down? ==> !out[i].apdu.ConfirmedRequest?
    ensures SizedOutcome(c, info, req, Outcome(s, out, raised))
  {
  }

  lemma NextWindowSized(c: Config, info: Option<DeviceInfo>, req: Apdu, s: Ssm, acked: byte, sendOk: bool)
    requires req.ConfirmedRequest? && SizedInv(c, info, req, s) && s.state == SEGMENTED_REQUEST
    ensures SizedOutcome(c, info, req, SendNextWindow(s, c, acked, sendOk))
  {
    var next := (acked + 1) % 256;
    WindowSized(c, info, req, s.(initialSequenceNumber := next, segmentRetryCount := 0), next, sendOk, true);
  }

  lemma AckSized(c: Config, info: Option<DeviceInfo>, req: Apdu, s: Ssm, apdu: Apdu, sendOk: bool)
    requires req.ConfirmedRequest? && SizedInv(c, info, req, s) && s.state == SEGMENTED_REQUEST && apdu.SegmentAck?
    ensures SizedOutcome(c, info, req, SegmentedRequest(s, c, apdu, sendOk))
  {
    if apdu.win != 0 && InWindow(apdu.seqNo, s.initialSequenceNumber, apdu.win) && !s.sentAllSegments {
      NextWindowSized(c, info, req, s.(actualWindowSize := Some(apdu.win)), apdu.seqNo, sendOk);
    }
  }

  lemma RequestSized(c: Config, info: Option<DeviceInfo>, req: Apdu, s: Ssm, apdu: Apdu, sendOk: bool)
    requires req.ConfirmedRequest? && SizedInv(c, info, req, s) && s.state == SEGMENTED_REQUEST
    ensures SizedOutcome(c, info, req, SegmentedRequest(s, c, apdu, sendOk))
  {
    if apdu.SegmentAck? { AckSized(c, info, req, s, apdu, sendOk); }
  }

  lemma RequestTimeoutSized(c: Config, info: Option<DeviceInfo>, req: Apdu, s: Ssm, sendOk: bool)
    requires req.ConfirmedRequest? && SizedInv(c, info, req, s) && s.state == SEGMENTED_REQUEST
    ensures SizedOutcome(c, info, req, SegmentedRequestTimeout(s, c, sendOk))
  {
    if s.segmentRetryCount < c.numberOfApduRetries {
      var s1 := Restart(s.(segmentRetryCount := s.segmentRetryCount + 1), c.segmentTimeout);
      if s.initialSequenceNumber == 0 {
        FirstSized(c, info, req, s1, req, sendOk);
      } else {
        WindowSized(c, info, req, s1, s.initialSequenceNumber, sendOk, false);
      }
    }
  }

  lemma AwaitTimeoutSized(c: Config, info: Option<DeviceInfo>, req: Apdu, s: Ssm, sendOk: bool)
    requires req.ConfirmedRequest? && SizedInv(c, info, req, s) && s.state == AWAIT_CONFIRMATION
    ensures SizedOutcome(c, info, req, AwaitConfirmationTimeout(s, c, info, sendOk))
  {
    if s.retryCount < c.numberOfApduRetries {
      TimeoutStartsAgain(s, c, info, sendOk);
      IndicationSized(c, info, req, s.(retryCount := s.retryCount + 1), sendOk);
    }
  }

  lemma AwaitAnswerSized(c: Config, info: Option<DeviceInfo>, req: Apdu, s: Ssm, apdu: Apdu, sendOk: bool)
    requires req.ConfirmedRequest? && SizedInv(c, info, req, s) && s.state == AWAIT_CONFIRMATION && Running(s)
    requires apdu.ComplexAck?
    ensures SizedOutcome(c, info, req, AwaitConfirmation(s, c, apdu, sendOk))
  {
    var o := AwaitConfirmation(s, c, apdu, sendOk);
    OneSized(c, info, req, o.ssm, o.out, o.raised);
  }

  lemma AwaitSized(c: Config, info: Option<DeviceInfo>, req: Apdu, s: Ssm, apdu: Apdu, sendOk: bool)
    requires req.ConfirmedRequest? && SizedInv(c, info, req, s) && s.state == AWAIT_CONFIRMATION && Running(s)
    ensures SizedOutcome(c, info, req, AwaitConfirmation(s, c, apdu, sendOk))
  {
    if apdu.ComplexAck? {
      AwaitAnswerSized(c, info, req, s, apdu, sendOk);
    } else {
      var o := AwaitConfirmation(s, c, apdu, sendOk);
      OneSized(c, info, req, o.ssm, o.out, o.raised);
    }
  }

  lemma AnswerSized(c: Config, info: Option<DeviceInfo>, req: Apdu, s: Ssm, apdu: Apdu, sendOk: bool)
    requires req.ConfirmedRequest? && SizedInv(c, info, req, s) && s.state == SEGMENTED_CONFIRMATION && Receiving(s)
    ensures SizedOutcome(c, info, req, SegmentedConfirmation(s, c, apdu, sendOk))
  {
  }

  lemma ConfirmationSized(c: Config, info: Option<DeviceInfo>, req: Apdu, s: Ssm, apdu: Apdu, sendOk: bool)
    requires req.ConfirmedRequest? && SizedInv(c, info, req, s) && Running(s)
    ensures SizedOutcome(c, info, req, Confirmation(s, c, apdu, sendOk))
  {
    match s.state {
      case SEGMENTED_REQUEST => RequestSized(c, info, req, s, apdu, sendOk);
      case AWAIT_CONFIRMATION => AwaitSized(c, info, req, s, apdu, sendOk);
      case SEGMENTED_CONFIRMATION => AnswerSized(c, info, req, s, apdu, sendOk);
      case _ =>
    }
  }

  lemma ExpirySized(c: Config, info: Option<DeviceInfo>, req: Apdu, s: Ssm, sendOk: bool)
    requires req.ConfirmedRequest? && SizedInv(c, info, req, s) && Running(s)
    ensures SizedOutcome(c, info, req, TimerExpired(s, c, info, sendOk))
  {
    if s.state == SEGMENTED_REQUEST {
      RequestTimeoutSized(c, info, req, s.(timer := None), sendOk);
    } else if s.state == AWAIT_CONFIRMATION {
      AwaitTimeoutSized(c, info, req, s.(timer := None), sendOk);
    }
  }

  lemma ReactionSized(c: Config, info: Option<DeviceInfo>, req: Apdu, l: Life, i: Input)
    requires req.ConfirmedRequest? && SizedInv(c, info, req, l.ssm) && Enabled(l, i)
    ensures SizedOutcome(c, info, req, Reaction(c, info, l, i))
  {
    match i {
      case FromPeer(apdu, ok) => ConfirmationSized(c, info, req, l.ssm, apdu, ok);
      case Expires(ok) => ExpirySized(c, info, req, l.ssm, ok);
    }
  }

  // ----- every run

  lemma {:induction false} SentIsDown(out: seq<Effect>)
    ensures forall a :: a in SentBy(out) ==> Down(a) in out
    decreases |out|
  {
    if out != [] { SentIsDown(out[1..]); }
  }

  lemma {:induction false} SentProper(c: Config, info: Option<DeviceInfo>, req: Apdu, l: Life, inputs: seq<Input>,
                                     a: Apdu)
    requires req.ConfirmedRequest? && SizedInv(c, info, req, l.ssm)
    requires a in SentIn(c, info, l, inputs) && a.ConfirmedRequest?
    ensures Proper(c, info, req, RequestSegmentSize(c, info), a)
    decreases |inputs|
  {
    if Enabled(l, inputs[0]) {
      ReactionSized(c, info, req, l, inputs[0]);
      SentIsDown(Reaction(c, info, l, inputs[0]).out);
      if a in SentBy(Reaction(c, info, l, inputs[0]).out) { return; }
    }
    SentProper(c, info, req, Step(c, info, l, inputs[0]), inputs[1..], a);
  }

  /** Whatever the peer and the network do, every request PDU that is sent has no more octets than
      the peer accepts. It is the whole request if the peer accepts that; otherwise it is a piece of
      it, each but the last as long as the peer accepts, and the device may send pieces, the peer is
      not known to refuse them, and they are no more than it accepts. */
  lemma SendsWhatIsAccepted(c: Config, info: Option<DeviceInfo>, req: Apdu, sendOk: bool, inputs: seq<Input>, size: nat,
                            a: Apdu)
    requires req.ConfirmedRequest? && IsLimit(c, info, size)
    requires a in AllSentIn(c, info, req, sendOk, inputs) && a.ConfirmedRequest?
    ensures Acceptable(c, info, |a.data|)
    ensures if Acceptable(c, info, |req.data|) then IsWhole(c, req, a)
            else MaySegment(c, info, |req.data|, size) && exists k :: IsPart(c, req, size, a, k)
  {
    LimitIsSize(c, info, size);
    IndicationSized(c, info, req, NewSsm(c), sendOk);
    SentIsDown(Indication(NewSsm(c), c, info, req, sendOk).out);
    if a !in SentBy(Indication(NewSsm(c), c, info, req, sendOk).out) {
      SentProper(c, info, req, Begin(c, info, req, sendOk), inputs, a);
    }
  }

  // ----- the start

  /** Nothing has been sent, and that has been reported. */
  predicate Refuses(l: Life, sent: seq<Apdu>, result: Apdu) {
    l.ssm.state == ABORTED && sent == [] && l.results == [result]
  }

  /** The device can say in a request what answers it accepts: segments by the code, and length. */
  predicate HasCodes(c: Config) {
    c.maxSegmentsAccepted != Some(1) && 50 <= c.maxApduLengthAccepted
  }

  /** What starting a request does: it is sent whole when the peer accepts that; when it would have
      to be sent in pieces and may not, nothing is sent and the application is told why, with
      reason 4 for segmentation not supported and 11 for an APDU too long; and otherwise its first
      piece is sent. When the network refuses that the application is told of an error. */
  lemma StartsSo(c: Config, info: Option<DeviceInfo>, req: Apdu, size: nat, sendOk: bool)
    requires req.ConfirmedRequest? && IsLimit(c, info, size) && 0 < size && HasCodes(c)
    ensures var l, sent := Begin(c, info, req, sendOk), AllSentIn(c, info, req, sendOk, []);
      var whole := Acceptable(c, info, |req.data|);
      if !whole && (!CanTransmit(c) || (info.Some? && !CanReceive(info.value.segmentationSupported))) then
        Refuses(l, sent, Abort(false, req.invokeID, 4, []))
      else if !whole && !FewEnough(info, |req.data|, size) then
        Refuses(l, sent, Abort(false, req.invokeID, 11, []))
      else if !sendOk then
        l.ssm.state == COMPLETED && sent == [] && l.results == [ErrorAck(req.invokeID, req.service, [])]
      else
        && l.ssm.state == (if whole then AWAIT_CONFIRMATION else SEGMENTED_REQUEST) && l.results == [] && |sent| == 1
        && if whole then IsWhole(c, req, sent[0]) else IsPart(c, req, size, sent[0], 0)
  {
    LimitIsSize(c, info, size);
    WithinLimit(c, info, |req.data|);
    PieceBounds(|req.data|, size, 0);
    var s2 := Start(Prepare(NewSsm(c), c, size, req), c);
    UnrefusedMaySend(c, info, req);
    if MaySend(c, info, req) {
      FirstSent(c, info, req, s2, size);
      FewResults(ErrorAck(req.invokeID, req.service, []), req);
      OnlyUp(ErrorAck(req.invokeID, req.service, []));
    } else {
      RefusedWhen(c, info, |req.data|);
      var unable := !CanTransmit(c) || (info.Some? && !CanReceive(info.value.segmentationSupported));
      var abort := Abort(false, req.invokeID, if unable then 4 else 11, []);
      FewResults(abort, abort);
      OnlyUp(abort);
    }
  }

  lemma OnlyUp(a: Apdu)
    ensures SentBy([Up(a)]) == [] && SentBy([Down(a)]) == [a]
  {
    assert [Up(a)][1..] == [] && [Down(a)][1..] == [];
  }

  lemma FirstSent(c: Config, info: Option<DeviceInfo>, req: Apdu, s: Ssm, size: nat)
    requires req.ConfirmedRequest? && size == RequestSegmentSize(c, info) && 0 < size && HasCodes(c)
    requires Sized(c, info, req, s) && MaySend(c, info, req)
    ensures var o := FirstSegment(s, c, ErrorAck(req.invokeID, req.service, []), true);
      && o.ssm == s && !o.raised && Results(o.out) == [] && |SentBy(o.out)| == 1
      && if Acceptable(c, info, |req.data|) then IsWhole(c, req, SentBy(o.out)[0])
         else IsPart(c, req, size, SentBy(o.out)[0], 0)
  {
    assert GetSegment(s, c, 0).Some?;
    var a := GetSegment(s, c, 0).value;
    FewResults(a, a);
    OnlyUp(a);
    SegmentHeader(c, info, req, s, 0);
    PieceBounds(|req.data|, size, 0);
    WithinLimit(c, info, |req.data|);
    if |req.data| <= size {
      assert Chunk(req.data, size, 0) == req.data;
    } else {
      PieceIs(req.data, size, 0);
    }
  }
}
