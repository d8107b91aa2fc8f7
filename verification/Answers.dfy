/** What a server transaction sends, in every run, whatever its client, the network and its
    application do: what the application answers, if the client's request says that it takes it. */
module Answers {
  import opened Apdus
  import opened Segmentation
  import opened ServerSteps
  import opened ServerLife
  import opened Requests
  import Windows

  // ----- what the request says

  /** The length of the answers that the client takes, of section 20.1.2.5. */
  function CodedLength(code: byte): nat
    requires code < 6
  {
    match code
    case 0 => 50
    case 1 => 128
    case 2 => 206
    case 3 => 480
    case 4 => 1024
    case _ => 1476
  }

  /** The number of segments, of section 20.1.2.4, when the request says. */
  function CodedSegments(code: byte): Option<nat>
    requires code < 8
  {
    match code
    case 1 => Some(2)
    case 2 => Some(4)
    case 3 => Some(8)
    case 4 => Some(16)
    case 5 => Some(32)
    case 6 => Some(64)
    case _ => None
  }

  /** A request that says what answers its client takes. */
  predicate Says(a: Apdu) {
    a.ConfirmedRequest? && a.maxResp < 6 && a.maxSegs < 8
  }

  /** The client takes so many octets in one APDU: no more than its request says, unless it is known
      to take that and more, and no more than the way there is known to carry. */
  predicate Takes(info: Option<DeviceInfo>, a: Apdu, n: nat)
    requires Says(a)
  {
    var said := CodedLength(a.maxResp);
    && (if info.Some? && info.value.maxApduLengthAccepted.Some? && said <= info.value.maxApduLengthAccepted.value then
          n <= info.value.maxApduLengthAccepted.value
        else n <= said)
    && (info.Some? && info.value.maxNpduLength.Some? ==> n <= info.value.maxNpduLength.value)
  }

  predicate IsLimit(info: Option<DeviceInfo>, a: Apdu, size: nat)
    requires Says(a)
  {
    Takes(info, a, size) && !Takes(info, a, size + 1)
  }

  /** The client takes the data in pieces of that size. */
  predicate TakesPieces(c: Config, a: Apdu, length: nat, size: nat)
    requires Says(a)
  {
    CanTransmit(c) && a.sa && (CodedSegments(a.maxSegs).Some? ==> length <= CodedSegments(a.maxSegs).value * size)
  }

  // ----- what is due

  /** What is to be sent for an answer, and the state after that. */
  datatype Due = Due(sent: seq<Apdu>, state: State)

  /** What the application answers is sent as it is, but for an acknowledgement with data: that goes
      out whole if the client takes it so; in pieces if it takes them; and otherwise the client is
      told that the answer was aborted, with reason 4 for segmentation not supported and 11 for an
      APDU too long. */
  function DueOnAnswer(c: Config, info: Option<DeviceInfo>, a: Apdu, size: nat, answer: Apdu): Due
    requires Says(a) && 0 < size && IsLimit(info, a, size)
  {
    match answer
    case ComplexAck(_, _, id, seqNo, win, service, data) =>
      if Takes(info, a, |data|) then Due([ComplexAck(false, false, id, seqNo, win, service, data)], COMPLETED)
      else if !CanTransmit(c) || !a.sa then Due([Abort(true, a.invokeID, 4, [])], ABORTED)
      else if !TakesPieces(c, a, |data|, size) then Due([Abort(true, a.invokeID, 11, [])], ABORTED)
      else Due([ComplexAck(true, true, id, 0, c.proposedWindowSize, service, data[..size])], SEGMENTED_RESPONSE)
    case _ => Due([answer], if answer.Abort? then ABORTED else COMPLETED)
  }

  /** Piece k of that size of an answer. */
  predicate IsPiece(answer: Apdu, size: nat, a: Apdu, k: nat) {
    && answer.ComplexAck? && a.ComplexAck? && a.seg && a.seqNo == k % 256
    && a.invokeID == answer.invokeID && a.service == answer.service
    && k * size < |answer.data|
    && if (k + 1) * size < |answer.data| then a.mor && a.data == answer.data[k * size..(k + 1) * size]
       else !a.mor && a.data == answer.data[k * size..]
  }

  // ----- the request that opened the transaction

  /** The transaction keeps what its request says. */
  predicate Keeps(info: Option<DeviceInfo>, s: Ssm, a: Apdu)
    requires Says(a)
  {
    && s.invokeID == Some(a.invokeID) && s.segmentedResponseAccepted == a.sa
    && s.maxSegmentsAccepted == CodedSegments(a.maxSegs)
    && s.maxApduLengthAccepted == AcceptedLength(info, CodedLength(a.maxResp))
  }

  lemma SizeIsLimit(info: Option<DeviceInfo>, s: Ssm, a: Apdu, size: nat)
    requires Says(a) && Keeps(info, s, a)
    ensures IsLimit(info, a, size) <==> size == ResponseSegmentSize(s, info)
    ensures forall n: nat :: Takes(info, a, n) <==> n <= ResponseSegmentSize(s, info)
  {
  }

  lemma CodesMean(a: Apdu)
    requires Says(a)
    ensures DecodeMaxApduLength(a.maxResp) == Some(CodedLength(a.maxResp))
    ensures DecodeMaxSegments(a.maxSegs) == CodedSegments(a.maxSegs)
  {
  }

  lemma OpeningKeeps(c: Config, info: Option<DeviceInfo>, s: Ssm, a: Apdu, sendOk: bool)
    requires s.state == IDLE
    ensures var t := Idle(s, c, info, a, sendOk).ssm; t.state != IDLE ==> Says(a) && Keeps(info, t, a)
  {
    if Says(a) { CodesMean(a); }
  }

  /** The request that took the machine out of its first state. */
  function Opener(c: Config, info: Option<DeviceInfo>, l: Life, inputs: seq<Input>): Option<Apdu>
    decreases |inputs|
  {
    if inputs == [] then None
    else
      var next := Step(c, info, l, inputs[0]);
      if l.ssm.state == IDLE && next.ssm.state != IDLE && inputs[0].FromPeer? then Some(inputs[0].apdu)
      else Opener(c, info, next, inputs[1..])
  }

  /** The application answers only what has been opened. */
  predicate InTurn(c: Config, info: Option<DeviceInfo>, l: Life, inputs: seq<Input>)
    decreases |inputs|
  {
    inputs == [] ||
    (!(l.ssm.state == IDLE && inputs[0].Answer?) && InTurn(c, info, Step(c, info, l, inputs[0]), inputs[1..]))
  }

  lemma AskingKeeps(c: Config, info: Option<DeviceInfo>, s: Ssm, apdu: Apdu, sendOk: bool, a: Apdu)
    requires Running(s) && s.state == SEGMENTED_REQUEST && Says(a) && Keeps(info, s, a)
    ensures var t := SegmentedRequest(s, c, apdu, sendOk).ssm; t.state != IDLE && Keeps(info, t, a)
  {
  }

  lemma ReplyingKeeps(c: Config, info: Option<DeviceInfo>, s: Ssm, apdu: Apdu, sendOk: bool, a: Apdu)
    requires s.state == SEGMENTED_RESPONSE && Says(a) && Keeps(info, s, a)
    ensures var t := SegmentedResponse(s, c, apdu, sendOk).ssm; t.state != IDLE && Keeps(info, t, a)
  {
  }

  lemma PeerKeeps(c: Config, info: Option<DeviceInfo>, s: Ssm, apdu: Apdu, sendOk: bool, a: Apdu)
    requires Running(s) && s.state != IDLE && Says(a) && Keeps(info, s, a)
    ensures var t := Indication(s, c, info, apdu, sendOk).ssm; t.state != IDLE && Keeps(info, t, a)
  {
    match s.state {
      case SEGMENTED_REQUEST => AskingKeeps(c, info, s, apdu, sendOk, a);
      case SEGMENTED_RESPONSE => ReplyingKeeps(c, info, s, apdu, sendOk, a);
      case _ =>
    }
  }

  lemma CutKeeps(c: Config, info: Option<DeviceInfo>, s: Ssm, answer: Apdu, sendOk: bool, a: Apdu)
    requires s.state != IDLE && Says(a) && Keeps(info, s, a) && answer.ComplexAck?
    ensures var t := AnswerCut(s, c, answer, sendOk).ssm; t.state != IDLE && Keeps(info, t, a)
  {
  }

  lemma AnswerKeeps(c: Config, info: Option<DeviceInfo>, s: Ssm, apdu: Apdu, sendOk: bool, a: Apdu)
    requires Running(s) && s.state != IDLE && Says(a) && Keeps(info, s, a)
    ensures var t := Confirmation(s, c, info, apdu, sendOk).ssm; t.state != IDLE && Keeps(info, t, a)
  {
    if apdu.ComplexAck? {
      var size := ResponseSegmentSize(s, info);
      if apdu.data == [] || 0 < size {
        var s2 := s.(segmentAPDU := Some(apdu), segmentSize := size, segmentCount := CountSegments(|apdu.data|, size));
        CutKeeps(c, info, s2, apdu, sendOk, a);
      }
    }
  }

  lemma ExpiryKeeps(c: Config, info: Option<DeviceInfo>, s: Ssm, sendOk: bool, a: Apdu)
    requires Running(s) && s.state != IDLE && Says(a) && Keeps(info, s, a)
    ensures var t := TimerExpired(s, c, sendOk).ssm; t.state != IDLE && Keeps(info, t, a)
  {
  }

  lemma StepKeeps(c: Config, info: Option<DeviceInfo>, l: Life, i: Input, a: Apdu)
    requires l.ssm.state != IDLE && Says(a) && Keeps(info, l.ssm, a)
    ensures var t := Step(c, info, l, i).ssm; t.state != IDLE && Keeps(info, t, a)
  {
    if Enabled(c, info, l, i) {
      match i {
        case FromPeer(apdu, ok) => PeerKeeps(c, info, l.ssm, apdu, ok, a);
        case Answer(apdu, ok) => AnswerKeeps(c, info, l.ssm, apdu, ok, a);
        case Expires(ok) => ExpiryKeeps(c, info, l.ssm, ok, a);
      }
    }
  }

  lemma {:induction false} RunKeeps(c: Config, info: Option<DeviceInfo>, l: Life, inputs: seq<Input>, a: Apdu)
    requires l.ssm.state != IDLE && Says(a) && Keeps(info, l.ssm, a)
    ensures var t := Run(c, info, l, inputs).ssm; t.state != IDLE && Keeps(info, t, a)
    decreases |inputs|
  {
    if inputs != [] {
      StepKeeps(c, info, l, inputs[0], a);
      RunKeeps(c, info, Step(c, info, l, inputs[0]), inputs[1..], a);
    }
  }

  lemma StepOpens(c: Config, info: Option<DeviceInfo>, l: Life, i: Input)
    requires l.ssm.state == IDLE && Step(c, info, l, i).ssm.state != IDLE && !i.Answer?
    ensures i.FromPeer? && Says(i.apdu) && Keeps(info, Step(c, info, l, i).ssm, i.apdu)
  {
    if i.FromPeer? { OpeningKeeps(c, info, l.ssm, i.apdu, i.sendOk); }
  }

  /** A transaction that has left its first state keeps what its opener says. */
  lemma {:induction false} OpenerIsKept(c: Config, info: Option<DeviceInfo>, l: Life, inputs: seq<Input>)
    requires l.ssm.state == IDLE && InTurn(c, info, l, inputs)
    ensures var t, a := Run(c, info, l, inputs).ssm, Opener(c, info, l, inputs);
      if a.None? then t.state == IDLE else t.state != IDLE && Says(a.value) && Keeps(info, t, a.value)
    decreases |inputs|
  {
    if inputs != [] {
      var next := Step(c, info, l, inputs[0]);
      if next.ssm.state == IDLE {
        OpenerIsKept(c, info, next, inputs[1..]);
      } else {
        StepOpens(c, info, l, inputs[0]);
        RunKeeps(c, info, next, inputs[1..], inputs[0].apdu);
      }
    }
  }

  // ----- an answer

  lemma RefusedWhen(c: Config, info: Option<DeviceInfo>, s: Ssm, a: Apdu, length: nat)
    requires Says(a) && Keeps(info, s, a) && 0 < ResponseSegmentSize(s, info)
    ensures var size := ResponseSegmentSize(s, info);
      Refusal(s, c, CountSegments(length, size))
      == if Takes(info, a, length) then None
         else if !CanTransmit(c) || !a.sa then Some(4)
         else if !TakesPieces(c, a, length, size) then Some(11)
         else None
  {
    var size := ResponseSegmentSize(s, info);
    SizeIsLimit(info, s, a, size);
    PieceBounds(length, size, 0);
    if CodedSegments(a.maxSegs).Some? { FewEnoughPieces(length, size, CodedSegments(a.maxSegs).value); }
  }

  lemma WholeWhen(info: Option<DeviceInfo>, s: Ssm, a: Apdu, length: nat)
    requires Says(a) && Keeps(info, s, a) && 0 < ResponseSegmentSize(s, info)
    ensures CountSegments(length, ResponseSegmentSize(s, info)) == 1 <==> Takes(info, a, length)
  {
    SizeIsLimit(info, s, a, ResponseSegmentSize(s, info));
    PieceBounds(length, ResponseSegmentSize(s, info), 0);
  }

  lemma CutAnswer(c: Config, info: Option<DeviceInfo>, s: Ssm, a: Apdu, size: nat, answer: Apdu, sendOk: bool)
    requires Says(a) && Keeps(info, s, a) && 0 < size && IsLimit(info, a, size) && answer.ComplexAck?
    requires !Takes(info, a, |answer.data|) && TakesPieces(c, a, |answer.data|, size)
    ensures var o, due := Confirmation(s, c, info, answer, sendOk), DueOnAnswer(c, info, a, size, answer);
      && (sendOk ==> o.ssm.state == due.state && !o.raised)
      && o.out == if sendOk then [Down(due.sent[0])] else []
  {
    SizeIsLimit(info, s, a, size);
    RefusedWhen(c, info, s, a, |answer.data|);
    WholeWhen(info, s, a, |answer.data|);
    PieceIs(answer.data, size, 0);
    PieceBounds(|answer.data|, size, 0);
  }

  /** In every run, and whenever the application answers, what goes out is what is due by the request
      that opened the transaction; when the network refuses it nothing does. */
  lemma AnswerIsDue(c: Config, info: Option<DeviceInfo>, inputs: seq<Input>, size: nat, answer: Apdu, sendOk: bool)
    requires InTurn(c, info, Life(NewSsm(c), []), inputs)
    requires var l := Run(c, info, Life(NewSsm(c), []), inputs);
      l.ssm.state != IDLE && Enabled(c, info, l, Answer(answer, sendOk))
    requires answer.ComplexAck? || answer.SimpleAck? || answer.ErrorAck? || answer.Reject? || answer.Abort?
    requires 0 < size
    ensures var l0 := Life(NewSsm(c), []);
      var l, a := Run(c, info, l0, inputs), Opener(c, info, l0, inputs);
      && a.Some? && Says(a.value)
      && (IsLimit(info, a.value, size) ==>
        var o, due := Reaction(c, info, l, Answer(answer, sendOk)), DueOnAnswer(c, info, a.value, size, answer);
        && |due.sent| == 1
        && o.out == (if sendOk then [Down(due.sent[0])] else [])
        && (sendOk ==> o.ssm.state == due.state && !o.raised))
  {
    var l0 := Life(NewSsm(c), []);
    var l, a := Run(c, info, l0, inputs), Opener(c, info, l0, inputs);
    OpenerIsKept(c, info, l0, inputs);
    if IsLimit(info, a.value, size) { ConfirmationIsDue(c, info, l.ssm, a.value, size, answer, sendOk); }
  }

  lemma ConfirmationIsDue(c: Config, info: Option<DeviceInfo>, s: Ssm, a: Apdu, size: nat, answer: Apdu, sendOk: bool)
    requires Says(a) && Keeps(info, s, a) && 0 < size && IsLimit(info, a, size)
    requires answer.ComplexAck? || answer.SimpleAck? || answer.ErrorAck? || answer.Reject? || answer.Abort?
    ensures var o, due := Confirmation(s, c, info, answer, sendOk), DueOnAnswer(c, info, a, size, answer);
      && |due.sent| == 1 && o.out == (if sendOk then [Down(due.sent[0])] else [])
      && (sendOk ==> o.ssm.state == due.state && !o.raised)
  {
    if answer.ComplexAck? {
      SizeIsLimit(info, s, a, size);
      RefusedWhen(c, info, s, a, |answer.data|);
      WholeWhen(info, s, a, |answer.data|);
      if !Takes(info, a, |answer.data|) && TakesPieces(c, a, |answer.data|, size) {
        CutAnswer(c, info, s, a, size, answer, sendOk);
      }
    }
  }

  // ----- all that is sent

  /** All that the machine sends while it takes these inputs. */
  function SentIn(c: Config, info: Option<DeviceInfo>, l: Life, inputs: seq<Input>): seq<Apdu>
    decreases |inputs|
  {
    if inputs == [] then []
    else
      (if Enabled(c, info, l, inputs[0]) then SentBy(Reaction(c, info, l, inputs[0]).out) else [])
      + SentIn(c, info, Step(c, info, l, inputs[0]), inputs[1..])
  }

  /** A part of the answer that the client takes. */
  ghost predicate Proper(c: Config, a: Apdu, info: Option<DeviceInfo>, size: nat, answer: Apdu, x: Apdu)
    requires Says(a)
  {
    && answer.ComplexAck? && x.ComplexAck? && Takes(info, a, |x.data|)
    && if Takes(info, a, |answer.data|) then
         x == ComplexAck(false, false, answer.invokeID, answer.seqNo, answer.win, answer.service, answer.data)
       else TakesPieces(c, a, |answer.data|, size) && exists k :: IsPiece(answer, size, x, k)
  }

  /** The machine sends the answer in pieces. */
  predicate Pieces(c: Config, info: Option<DeviceInfo>, a: Apdu, s: Ssm, answer: Apdu)
    requires Says(a)
  {
    && Keeps(info, s, a) && answer.ComplexAck? && s.segmentAPDU == Some(answer)
    && var size := ResponseSegmentSize(s, info);
      && 0 < size && s.segmentSize == size && s.segmentCount == CountSegments(|answer.data|, size)
      && !Takes(info, a, |answer.data|) && TakesPieces(c, a, |answer.data|, size)
  }

  ghost predicate SendsProper(c: Config, info: Option<DeviceInfo>, a: Apdu, size: nat, answer: Apdu, o: Outcome)
    requires Says(a)
  {
    && (o.ssm.state == SEGMENTED_RESPONSE ==> Pieces(c, info, a, o.ssm, answer))
    && forall e :: e in o.out && e.Down? && e.apdu.ComplexAck? ==> Proper(c, a, info, size, answer, e.apdu)
  }

  lemma PieceProper(c: Config, info: Option<DeviceInfo>, a: Apdu, s: Ssm, answer: Apdu, k: nat)
    requires Says(a) && Pieces(c, info, a, s, answer) && GetSegment(s, c, k).Some?
    ensures Proper(c, a, info, ResponseSegmentSize(s, info), answer, GetSegment(s, c, k).value)
  {
    var size := ResponseSegmentSize(s, info);
    SizeIsLimit(info, s, a, size);
    PieceBounds(|answer.data|, size, k);
    PieceIs(answer.data, size, k);
    assert IsPiece(answer, size, GetSegment(s, c, k).value, k);
  }

  lemma {:induction false} FillProper(c: Config, info: Option<DeviceInfo>, a: Apdu, s: Ssm, answer: Apdu, seqNum: nat,
                                     ix: nat, window: byte)
    requires Says(a) && Pieces(c, info, a, s, answer)
    ensures forall x :: x in FillFrom(s, c, seqNum, ix, window).sent ==>
      Proper(c, a, info, ResponseSegmentSize(s, info), answer, x)
    decreases window - ix
  {
    if ix < window && GetSegment(s, c, seqNum + ix).Some? {
      PieceProper(c, info, a, s, answer, seqNum + ix);
      FillProper(c, info, a, s, answer, seqNum, ix + 1, window);
    }
  }

  lemma WindowProper(c: Config, info: Option<DeviceInfo>, a: Apdu, s: Ssm, answer: Apdu, seqNum: byte, sendOk: bool,
                     restart: bool)
    requires Says(a) && Pieces(c, info, a, s, answer)
    ensures SendsProper(c, info, a, ResponseSegmentSize(s, info), answer, FillWindow(s, c, seqNum, sendOk, restart))
  {
    if s.actualWindowSize.Some? { FillProper(c, info, a, s, answer, seqNum, 0, s.actualWindowSize.value); }
  }

  lemma NextProper(c: Config, info: Option<DeviceInfo>, a: Apdu, s: Ssm, answer: Apdu, acked: byte, sendOk: bool)
    requires Says(a) && Pieces(c, info, a, s, answer)
    ensures SendsProper(c, info, a, ResponseSegmentSize(s, info), answer, SendNextWindow(s, c, acked, sendOk))
  {
    var next := (acked + 1) % 256;
    WindowProper(c, info, a, s.(initialSequenceNumber := next, segmentRetryCount := 0), answer, next, sendOk, true);
  }

  lemma ResponseProper(c: Config, info: Option<DeviceInfo>, a: Apdu, s: Ssm, answer: Apdu, apdu: Apdu, sendOk: bool)
    requires Says(a) && Pieces(c, info, a, s, answer) && s.state == SEGMENTED_RESPONSE
    ensures SendsProper(c, info, a, ResponseSegmentSize(s, info), answer, SegmentedResponse(s, c, apdu, sendOk))
  {
    if apdu.SegmentAck? {
      NextProper(c, info, a, s.(actualWindowSize := Some(apdu.win)), answer, apdu.seqNo, sendOk);
    }
  }

  lemma RetryProper(c: Config, info: Option<DeviceInfo>, a: Apdu, s: Ssm, answer: Apdu, sendOk: bool)
    requires Says(a) && Pieces(c, info, a, s, answer)
    ensures SendsProper(c, info, a, ResponseSegmentSize(s, info), answer, ResendFirst(s, c, sendOk))
    ensures SendsProper(c, info, a, ResponseSegmentSize(s, info), answer,
                        FillWindow(s, c, s.initialSequenceNumber, sendOk, false))
  {
    if GetSegment(s, c, 0).Some? { PieceProper(c, info, a, s, answer, 0); }
    WindowProper(c, info, a, s, answer, s.initialSequenceNumber, sendOk, false);
  }

  lemma TimeoutProper(c: Config, info: Option<DeviceInfo>, a: Apdu, s: Ssm, answer: Apdu, sendOk: bool)
    requires Says(a) && Pieces(c, info, a, s, answer) && s.state == SEGMENTED_RESPONSE
    ensures SendsProper(c, info, a, ResponseSegmentSize(s, info), answer, SegmentedResponseTimeout(s, c, sendOk))
  {
    if s.segmentRetryCount < c.numberOfApduRetries {
      RetryProper(c, info, a, Restart(s.(segmentRetryCount := s.segmentRetryCount + 1), c.segmentTimeout), answer,
                  sendOk);
    }
  }

  lemma AnswerProper(c: Config, info: Option<DeviceInfo>, a: Apdu, s: Ssm, answer: Apdu, sendOk: bool)
    requires Says(a) && Keeps(info, s, a) && s.state != SEGMENTED_RESPONSE && answer.ComplexAck?
    ensures SendsProper(c, info, a, ResponseSegmentSize(s, info), answer, Confirmation(s, c, info, answer, sendOk))
  {
    var size := ResponseSegmentSize(s, info);
    SizeIsLimit(info, s, a, size);
    if 0 < size {
      ConfirmationIsDue(c, info, s, a, size, answer, sendOk);
      RefusedWhen(c, info, s, a, |answer.data|);
      WholeWhen(info, s, a, |answer.data|);
      PieceBounds(|answer.data|, size, 0);
      var due := DueOnAnswer(c, info, a, size, answer);
      if due.state == SEGMENTED_RESPONSE { assert IsPiece(answer, size, due.sent[0], 0); }
    }
  }

  lemma AskingSendsNone(c: Config, s: Ssm, apdu: Apdu, sendOk: bool)
    requires Running(s) && s.state == SEGMENTED_REQUEST
    ensures var o := SegmentedRequest(s, c, apdu, sendOk);
      o.ssm.state != SEGMENTED_RESPONSE && forall e :: e in o.out && e.Down? ==> !e.apdu.ComplexAck?
  {
  }

  lemma IdleSendsNone(c: Config, info: Option<DeviceInfo>, s: Ssm, apdu: Apdu, sendOk: bool)
    requires s.state == IDLE
    ensures var o := Idle(s, c, info, apdu, sendOk);
      o.ssm.state != SEGMENTED_RESPONSE && forall e :: e in o.out && e.Down? ==> !e.apdu.ComplexAck?
  {
  }

  lemma PeerProper(c: Config, info: Option<DeviceInfo>, a: Apdu, s: Ssm, answer: Apdu, apdu: Apdu, sendOk: bool)
    requires Running(s) && s.state != IDLE && Says(a) && Keeps(info, s, a)
    requires s.state == SEGMENTED_RESPONSE ==> Pieces(c, info, a, s, answer)
    ensures SendsProper(c, info, a, ResponseSegmentSize(s, info), answer, Indication(s, c, info, apdu, sendOk))
  {
    match s.state {
      case SEGMENTED_REQUEST => AskingSendsNone(c, s, apdu, sendOk);
      case SEGMENTED_RESPONSE => ResponseProper(c, info, a, s, answer, apdu, sendOk);
      case _ =>
    }
  }

  lemma ExpiryProper(c: Config, info: Option<DeviceInfo>, a: Apdu, s: Ssm, answer: Apdu, sendOk: bool)
    requires Running(s) && s.state != IDLE && Says(a) && Keeps(info, s, a)
    requires s.state == SEGMENTED_RESPONSE ==> Pieces(c, info, a, s, answer)
    ensures SendsProper(c, info, a, ResponseSegmentSize(s, info), answer, TimerExpired(s, c, sendOk))
  {
    if s.state == SEGMENTED_RESPONSE { TimeoutProper(c, info, a, s.(timer := None), answer, sendOk); }
  }

  lemma OtherAnswerProper(c: Config, info: Option<DeviceInfo>, a: Apdu, s: Ssm, answer: Apdu, apdu: Apdu, sendOk: bool)
    requires Running(s) && s.state != IDLE && s.state != SEGMENTED_RESPONSE && Says(a) && !apdu.ComplexAck?
    requires s.invokeID.Some?
    ensures SendsProper(c, info, a, ResponseSegmentSize(s, info), answer, Confirmation(s, c, info, apdu, sendOk))
  {
  }

  /** The application answers each request once. */
  predicate Once(c: Config, info: Option<DeviceInfo>, l: Life, inputs: seq<Input>)
    decreases |inputs|
  {
    inputs == [] ||
    (&& !(l.ssm.state == SEGMENTED_RESPONSE && inputs[0].Answer?)
     && Once(c, info, Step(c, info, l, inputs[0]), inputs[1..]))
  }

  /** The answer is one that the application gives. */
  ghost predicate Given(inputs: seq<Input>, answer: Apdu) {
    exists i :: 0 <= i < |inputs| && inputs[i].Answer? && inputs[i].apdu == answer
  }

  /** What one step sends is part of the answer it is given, or of the one it sends already. */
  lemma StepProper(c: Config, info: Option<DeviceInfo>, a: Apdu, l: Life, answer: Apdu, i: Input)
    requires l.ssm.state != IDLE && Says(a) && Keeps(info, l.ssm, a) && Enabled(c, info, l, i)
    requires l.ssm.state == SEGMENTED_RESPONSE ==> !i.Answer? && Pieces(c, info, a, l.ssm, answer)
    ensures SendsProper(c, info, a, ResponseSegmentSize(l.ssm, info),
                        if i.Answer? && i.apdu.ComplexAck? then i.apdu else answer, Reaction(c, info, l, i))
  {
    match i {
      case FromPeer(apdu, ok) => PeerProper(c, info, a, l.ssm, answer, apdu, ok);
      case Answer(apdu, ok) =>
        if apdu.ComplexAck? {
          AnswerProper(c, info, a, l.ssm, apdu, ok);
        } else {
          OtherAnswerProper(c, info, a, l.ssm, answer, apdu, ok);
        }
      case Expires(ok) => ExpiryProper(c, info, a, l.ssm, answer, ok);
    }
  }

  lemma {:induction false} SentFrom(c: Config, info: Option<DeviceInfo>, a: Apdu, size: nat, l: Life, given: Apdu,
                                   inputs: seq<Input>, x: Apdu) returns (answer: Apdu)
    requires l.ssm.state != IDLE && Says(a) && Keeps(info, l.ssm, a) && size == ResponseSegmentSize(l.ssm, info)
    requires l.ssm.state == SEGMENTED_RESPONSE ==> Pieces(c, info, a, l.ssm, given)
    requires Once(c, info, l, inputs) && x in SentIn(c, info, l, inputs) && x.ComplexAck?
    ensures (answer == given || Given(inputs, answer)) && Proper(c, a, info, size, answer, x)
    decreases |inputs|
  {
    var i := inputs[0];
    var now := if Enabled(c, info, l, i) && i.Answer? && i.apdu.ComplexAck? then i.apdu else given;
    var next := Step(c, info, l, i);
    StepKeeps(c, info, l, i, a);
    if Enabled(c, info, l, i) {
      StepProper(c, info, a, l, given, i);
      var o := Reaction(c, info, l, i);
      SentIsDown(o.out);
      if x in SentBy(o.out) {
        assert Down(x) in o.out;
        return now;
      }
    }
    answer := SentFrom(c, info, a, size, next, now, inputs[1..], x);
    if answer != given {
      if answer == now {
        assert inputs[0].Answer? && inputs[0].apdu == answer;
      } else {
        var j :| 0 <= j < |inputs[1..]| && inputs[1..][j].Answer? && inputs[1..][j].apdu == answer;
        assert inputs[j + 1] == inputs[1..][j];
      }
    }
  }

  lemma IdleStepSendsNone(c: Config, info: Option<DeviceInfo>, l: Life, i: Input)
    requires l.ssm.state == IDLE && !i.Answer? && Enabled(c, info, l, i)
    ensures var o := Reaction(c, info, l, i);
      o.ssm.state != SEGMENTED_RESPONSE && forall e :: e in o.out && e.Down? ==> !e.apdu.ComplexAck?
  {
    if i.FromPeer? { IdleSendsNone(c, info, l.ssm, i.apdu, i.sendOk); }
  }

  /** In every run, every acknowledgement with data that is sent is part of an answer the application
      gave, as the request that opened the transaction says that its client takes it: no more octets
      than that; the whole answer if the client takes that; and otherwise a piece of it, the device
      sends pieces, the request says that its client takes them, and they are no more than it says. */
  lemma {:induction false} SendsWhatIsTaken(c: Config, info: Option<DeviceInfo>, l: Life, inputs: seq<Input>, size: nat,
                                           x: Apdu) returns (answer: Apdu)
    requires l.ssm.state == IDLE && InTurn(c, info, l, inputs) && Once(c, info, l, inputs)
    requires x in SentIn(c, info, l, inputs) && x.ComplexAck?
    ensures var a := Opener(c, info, l, inputs);
      && a.Some? && Says(a.value)
      && (IsLimit(info, a.value, size) ==> Given(inputs, answer) && Proper(c, a.value, info, size, answer, x))
    decreases |inputs|
  {
    var i := inputs[0];
    var next := Step(c, info, l, i);
    if Enabled(c, info, l, i) {
      IdleStepSendsNone(c, info, l, i);
      SentIsDown(Reaction(c, info, l, i).out);
    }
    if next.ssm.state == IDLE {
      answer := SendsWhatIsTaken(c, info, next, inputs[1..], size, x);
    } else {
      StepOpens(c, info, l, i);
      SizeIsLimit(info, next.ssm, i.apdu, size);
      answer := SentFrom(c, info, i.apdu, ResponseSegmentSize(next.ssm, info), next, SimpleAck(0, 0, []), inputs[1..],
                         x);
    }
    GivenLater(inputs, answer);
  }

  lemma GivenLater(inputs: seq<Input>, answer: Apdu)
    requires inputs != []
    ensures Given(inputs[1..], answer) ==> Given(inputs, answer)
  {
    if Given(inputs[1..], answer) {
      var j :| 0 <= j < |inputs[1..]| && inputs[1..][j].Answer? && inputs[1..][j].apdu == answer;
      assert inputs[j + 1] == inputs[1..][j];
    }
  }
}
