/** Which result a client transaction reports, for which input, and in which state it ends: in every
    run, whatever the network and the peer do. */
module Outcomes {
  import opened Apdus
  import opened Segmentation
  import opened ClientSteps
  import opened ClientLife
  import opened Requests

  // ----- what is due

  /** On an input an unfinished transaction goes on, or it ends in that state with those results. */
  datatype Due = GoesOn | Ends(state: State, results: seq<Apdu>)

  /** The peer's PDU is out of place: it is told so, and then the application. */
  function OutOfPlace(req: Apdu, sendOk: bool): Due
    requires req.ConfirmedRequest?
  {
    Ends(ABORTED, if sendOk then [Abort(false, req.invokeID, 2, [])] else [])
  }

  /** No response. */
  function GivesUp(req: Apdu): Due
    requires req.ConfirmedRequest?
  {
    Ends(ABORTED, [Abort(false, req.invokeID, 65, [])])
  }

  /** An answer with more data. */
  function WithMore(answer: Apdu, data: Bytes): Apdu
    requires answer.ComplexAck?
  {
    ComplexAck(answer.seg, answer.mor, answer.invokeID, answer.seqNo, answer.win, answer.service, answer.data + data)
  }

  function DueOnExpiry(c: Config, info: Option<DeviceInfo>, req: Apdu, s: Ssm, sendOk: bool): Due
    requires req.ConfirmedRequest?
  {
    if s.state == SEGMENTED_REQUEST && s.segmentRetryCount < c.numberOfApduRetries then GoesOn
    else if s.state == AWAIT_CONFIRMATION && s.retryCount < c.numberOfApduRetries then
      if !sendOk && HasCodes(c) && Acceptable(c, info, 1) then
        Ends(COMPLETED, [ErrorAck(req.invokeID, req.service, [])])
      else GoesOn
    else GivesUp(req)
  }

  /** While the answer comes in. */
  function DueOnAnswer(c: Config, req: Apdu, s: Ssm, a: Apdu, sendOk: bool): Due
    requires req.ConfirmedRequest? && s.segmentAPDU.Some? && s.segmentAPDU.value.ComplexAck?
  {
    if !(a.ComplexAck? && a.seg) then OutOfPlace(req, sendOk)
    else if a.seqNo == (s.lastSequenceNumber + 1) % 256 && !a.mor && sendOk then
      Ends(COMPLETED, [WithMore(s.segmentAPDU.value, a.data)])
    else GoesOn
  }

  /** Before that; an acknowledgement is in place once all of the request has been sent. */
  function DueOnReply(c: Config, req: Apdu, s: Ssm, a: Apdu, sendOk: bool): Due
    requires req.ConfirmedRequest?
  {
    var awaits := s.state == AWAIT_CONFIRMATION;
    match a
    case Abort(_, _, _, _) => Ends(if awaits then ABORTED else COMPLETED, [a])
    case ErrorAck(_, _, _) => Ends(COMPLETED, [a])
    case Reject(_, _, _) => Ends(COMPLETED, [a])
    case SimpleAck(_, _, _) =>
      if awaits || s.sentAllSegments then Ends(COMPLETED, [a]) else OutOfPlace(req, sendOk)
    case ComplexAck(seg, _, _, seqNo, _, _, _) =>
      if !(awaits || s.sentAllSegments) then OutOfPlace(req, sendOk)
      else if !seg then Ends(COMPLETED, [a])
      else if !awaits then GoesOn
      else if !CanReceive(c.segmentationSupported) then Ends(ABORTED, [Abort(false, req.invokeID, 4, [])])
      else if seqNo != 0 then OutOfPlace(req, sendOk)
      else GoesOn
    case _ => GoesOn
  }

  function DueOn(c: Config, info: Option<DeviceInfo>, req: Apdu, l: Life, i: Input): Due
    requires req.ConfirmedRequest? && Enabled(l, i)
  {
    match i
    case Expires(ok) => DueOnExpiry(c, info, req, l.ssm, ok)
    case FromPeer(a, ok) =>
      if l.ssm.state == SEGMENTED_CONFIRMATION then DueOnAnswer(c, req, l.ssm, a, ok)
      else DueOnReply(c, req, l.ssm, a, ok)
  }

  // ----- every handler does it

  /** The machine is one of a run, and has not finished. */
  predicate Under(c: Config, info: Option<DeviceInfo>, req: Apdu, s: Ssm)
    requires req.ConfirmedRequest?
  {
    && Valid(c, req) && Waiting(c, req, s) && SizedInv(c, info, req, s) && s.invokeID == Some(req.invokeID)
  }

  predicate Does(o: Outcome, due: Due) {
    match due
    case GoesOn => !o.ssm.Finished() && Results(o.out) == []
    case Ends(state, results) => o.ssm.state == state && o.ssm.Finished() && Results(o.out) == results
  }

  lemma AbortDoes(req: Apdu, s: Ssm, reason: byte, toPeer: bool, sendOk: bool)
    requires req.ConfirmedRequest? && s.invokeID == Some(req.invokeID)
    ensures Does(AbortWith(s, reason, toPeer, sendOk),
                 Ends(ABORTED, if toPeer && !sendOk then [] else [Abort(false, req.invokeID, reason, [])]))
  {
    var abort := AbortOf(false, req.invokeID, reason);
    FewResults(abort, abort);
  }

  lemma CompleteDoes(s: Ssm, a: Apdu)
    ensures Does(Complete(s, a), Ends(COMPLETED, [a]))
  {
    FewResults(a, a);
  }

  lemma RequestDoes(c: Config, info: Option<DeviceInfo>, req: Apdu, s: Ssm, a: Apdu, sendOk: bool)
    requires req.ConfirmedRequest? && Under(c, info, req, s) && s.state == SEGMENTED_REQUEST
    ensures Does(SegmentedRequest(s, c, a, sendOk), DueOnReply(c, req, s, a, sendOk))
  {
    AbortDoes(req, s, 2, true, sendOk);
    CompleteDoes(s, a);
    if a.SegmentAck? { SegmentAckGood(c, req, s, a, sendOk); }
  }

  lemma AwaitDoes(c: Config, info: Option<DeviceInfo>, req: Apdu, s: Ssm, a: Apdu, sendOk: bool)
    requires req.ConfirmedRequest? && Under(c, info, req, s) && s.state == AWAIT_CONFIRMATION
    ensures Does(AwaitConfirmation(s, c, a, sendOk), DueOnReply(c, req, s, a, sendOk))
  {
    AbortDoes(req, s, 2, true, sendOk);
    AbortDoes(req, s, 4, false, sendOk);
    CompleteDoes(s, a);
    if a.ComplexAck? { FewResults(SegmentAckOf(false, false, req.invokeID, 0, a.win), a); }
    FewResults(a, a);
  }

  lemma AnswerDoes(c: Config, info: Option<DeviceInfo>, req: Apdu, s: Ssm, a: Apdu, sendOk: bool)
    requires req.ConfirmedRequest? && Under(c, info, req, s) && s.state == SEGMENTED_CONFIRMATION
    ensures Does(SegmentedConfirmation(s, c, a, sendOk), DueOnAnswer(c, req, s, a, sendOk))
  {
    AbortDoes(req, s, 2, true, sendOk);
    if a.ComplexAck? && a.seg {
      NakGood(c, req, s, sendOk);
      if a.seqNo == (s.lastSequenceNumber + 1) % 256 {
        var s1 := s.(segmentAPDU := Some(AppendData(s.segmentAPDU.value, a.data)), lastSequenceNumber := a.seqNo);
        var ack := SegmentAckOf(false, false, s.invokeID.value, a.seqNo, s.actualWindowSize.value);
        FewResults(ack, WithMore(s.segmentAPDU.value, a.data));
        TakeMiddleGood(c, req, s1, sendOk);
      }
    }
  }

  lemma StartDoes(c: Config, info: Option<DeviceInfo>, req: Apdu, s: Ssm, sendOk: bool)
    requires req.ConfirmedRequest? && Valid(c, req) && SizedInv(c, info, req, s) && s.state == AWAIT_CONFIRMATION
    ensures Does(Indication(s, c, info, req, sendOk),
                 if !sendOk && HasCodes(c) && Acceptable(c, info, 1) then
                   Ends(COMPLETED, [ErrorAck(req.invokeID, req.service, [])])
                 else GoesOn)
  {
    var size, refused := RequestSegmentSize(c, info), ErrorAck(req.invokeID, req.service, []);
    var s2 := Start(Prepare(s, c, size, req), c);
    UnrefusedMaySend(c, info, req);
    WithinLimit(c, info, 1);
    assert GetSegment(s2, c, 0).Some? <==> HasCodes(c) && 0 < size;
    CompleteDoes(s2, refused);
    if GetSegment(s2, c, 0).Some? { FewResults(GetSegment(s2, c, 0).value, refused); }
    assert Indication(s, c, info, req, sendOk) == FirstSegment(s2, c, refused, sendOk);
  }

  lemma AwaitExpiryDoes(c: Config, info: Option<DeviceInfo>, req: Apdu, s: Ssm, sendOk: bool)
    requires req.ConfirmedRequest? && Under(c, info, req, s) && s.state == AWAIT_CONFIRMATION
    ensures Does(AwaitConfirmationTimeout(s.(timer := None), c, info, sendOk), DueOnExpiry(c, info, req, s, sendOk))
  {
    var s0 := s.(timer := None);
    if s.retryCount < c.numberOfApduRetries {
      TimeoutStartsAgain(s0, c, info, sendOk);
      StartDoes(c, info, req, s0.(retryCount := s.retryCount + 1), sendOk);
    } else {
      AbortDoes(req, s0, 65, false, sendOk);
    }
  }

  lemma ExpiryDoes(c: Config, info: Option<DeviceInfo>, req: Apdu, s: Ssm, sendOk: bool)
    requires req.ConfirmedRequest? && Under(c, info, req, s)
    ensures Does(TimerExpired(s, c, info, sendOk), DueOnExpiry(c, info, req, s, sendOk))
  {
    if s.state == AWAIT_CONFIRMATION {
      AwaitExpiryDoes(c, info, req, s, sendOk);
    } else if s.state == SEGMENTED_REQUEST && s.segmentRetryCount < c.numberOfApduRetries {
      RetryGood(c, req, s, sendOk);
    } else {
      AbortDoes(req, s.(timer := None), 65, false, sendOk);
    }
  }

  lemma ReactionDoes(c: Config, info: Option<DeviceInfo>, req: Apdu, l: Life, i: Input)
    requires req.ConfirmedRequest? && Under(c, info, req, l.ssm) && Enabled(l, i)
    ensures Does(Reaction(c, info, l, i), DueOn(c, info, req, l, i))
  {
    match i {
      case Expires(ok) => ExpiryDoes(c, info, req, l.ssm, ok);
      case FromPeer(a, ok) =>
        match l.ssm.state {
          case SEGMENTED_REQUEST => RequestDoes(c, info, req, l.ssm, a, ok);
          case AWAIT_CONFIRMATION => AwaitDoes(c, info, req, l.ssm, a, ok);
          case _ => AnswerDoes(c, info, req, l.ssm, a, ok);
        }
    }
  }

  // ----- every run

  lemma PeerKeepsID(c: Config, s: Ssm, a: Apdu, sendOk: bool)
    requires Running(s)
    ensures Confirmation(s, c, a, sendOk).ssm.invokeID == s.invokeID
  {
  }

  lemma StartKeepsID(c: Config, info: Option<DeviceInfo>, req: Apdu, s: Ssm, sendOk: bool)
    requires req.ConfirmedRequest?
    ensures Indication(s, c, info, req, sendOk).ssm.invokeID == Some(req.invokeID)
  {
  }

  lemma ExpiryKeepsID(c: Config, info: Option<DeviceInfo>, req: Apdu, s: Ssm, sendOk: bool)
    requires req.ConfirmedRequest? && Under(c, info, req, s)
    ensures TimerExpired(s, c, info, sendOk).ssm.invokeID == Some(req.invokeID)
  {
    if s.state == AWAIT_CONFIRMATION && s.retryCount < c.numberOfApduRetries {
      TimeoutStartsAgain(s.(timer := None), c, info, sendOk);
      StartKeepsID(c, info, req, s.(timer := None, retryCount := s.retryCount + 1), sendOk);
    }
  }

  lemma ReactionKeepsID(c: Config, info: Option<DeviceInfo>, req: Apdu, l: Life, i: Input)
    requires req.ConfirmedRequest? && Under(c, info, req, l.ssm) && Enabled(l, i)
    ensures Reaction(c, info, l, i).ssm.invokeID == Some(req.invokeID)
  {
    match i {
      case FromPeer(a, ok) => PeerKeepsID(c, l.ssm, a, ok);
      case Expires(ok) => ExpiryKeepsID(c, info, req, l.ssm, ok);
    }
  }

  /** What every machine of a run satisfies: it has reported nothing yet, or it has finished. */
  predicate OutcomeInv(c: Config, info: Option<DeviceInfo>, req: Apdu, l: Life)
    requires req.ConfirmedRequest?
  {
    Inv(c, info, req, l) && (!l.ssm.Finished() && !Uncut(c, info, req) ==> Under(c, info, req, l.ssm))
  }

  lemma StepOutcome(c: Config, info: Option<DeviceInfo>, req: Apdu, l: Life, i: Input)
    requires Valid(c, req) && !Uncut(c, info, req) && OutcomeInv(c, info, req, l)
    ensures OutcomeInv(c, info, req, Step(c, info, l, i))
    ensures Enabled(l, i) ==> Does(Reaction(c, info, l, i), DueOn(c, info, req, l, i))
  {
    StepInv(c, info, req, l, i);
    if Enabled(l, i) {
      ReactionDoes(c, info, req, l, i);
      ReactionSized(c, info, req, l, i);
      ReactionKeepsID(c, info, req, l, i);
    }
  }

  lemma BeginOutcome(c: Config, info: Option<DeviceInfo>, req: Apdu, sendOk: bool)
    requires Valid(c, req) && !Uncut(c, info, req)
    ensures OutcomeInv(c, info, req, Begin(c, info, req, sendOk))
  {
    BeginInv(c, info, req, sendOk);
    IndicationSized(c, info, req, NewSsm(c), sendOk);
  }

  lemma {:induction false} RunOutcome(c: Config, info: Option<DeviceInfo>, req: Apdu, l: Life, inputs: seq<Input>)
    requires Valid(c, req) && !Uncut(c, info, req) && OutcomeInv(c, info, req, l)
    ensures OutcomeInv(c, info, req, Run(c, info, l, inputs))
    decreases |inputs|
  {
    if inputs != [] {
      StepOutcome(c, info, req, l, inputs[0]);
      RunOutcome(c, info, req, Step(c, info, l, inputs[0]), inputs[1..]);
    }
  }

  lemma {:induction false} RunLast(c: Config, info: Option<DeviceInfo>, l: Life, inputs: seq<Input>, i: Input)
    ensures Run(c, info, l, inputs + [i]) == Step(c, info, Run(c, info, l, inputs), i)
    decreases |inputs|
  {
    if inputs == [] {
      assert [i][1..] == [] && [] + [i] == [i];
    } else {
      assert (inputs + [i])[1..] == inputs[1..] + [i];
      RunLast(c, info, Step(c, info, l, inputs[0]), inputs[1..], i);
    }
  }

  /** In every run and for every next input, the transaction goes on without a word, or ends, with
      exactly the results that are due and in the state that is due. */
  lemma EveryStepIsDue(c: Config, info: Option<DeviceInfo>, req: Apdu, sendOk: bool, inputs: seq<Input>, i: Input)
    requires Valid(c, req) && !Uncut(c, info, req)
    requires Enabled(Run(c, info, Begin(c, info, req, sendOk), inputs), i)
    ensures var l := Run(c, info, Begin(c, info, req, sendOk), inputs);
      var u := Step(c, info, l, i);
      match DueOn(c, info, req, l, i)
      case GoesOn => !u.ssm.Finished() && u.results == []
      case Ends(state, results) => u.ssm.Finished() && u.ssm.state == state && u.results == results
  {
    var l0 := Begin(c, info, req, sendOk);
    BeginOutcome(c, info, req, sendOk);
    RunOutcome(c, info, req, l0, inputs);
    StepOutcome(c, info, req, Run(c, info, l0, inputs), i);
  }

  // ----- where an assembled answer comes from

  /** The next segment of the answer. */
  predicate IsNext(last: byte, i: Input) {
    i.FromPeer? && i.apdu.ComplexAck? && i.apdu.seg && i.apdu.seqNo == (last + 1) % 256
  }

  /** An answer and what the next segments among the inputs add to it. */
  function Joined(answer: Apdu, last: byte, inputs: seq<Input>): (Apdu, byte)
    requires answer.ComplexAck?
    decreases |inputs|
  {
    if inputs == [] then (answer, last)
    else if IsNext(last, inputs[0]) then
      Joined(WithMore(answer, inputs[0].apdu.data), inputs[0].apdu.seqNo, inputs[1..])
    else Joined(answer, last, inputs[1..])
  }

  lemma {:induction false} JoinedLast(answer: Apdu, last: byte, inputs: seq<Input>, i: Input)
    requires answer.ComplexAck?
    ensures var j := Joined(answer, last, inputs);
      j.0.ComplexAck? && Joined(answer, last, inputs + [i])
      == if IsNext(j.1, i) then (WithMore(j.0, i.apdu.data), i.apdu.seqNo) else j
    decreases |inputs|
  {
    if inputs == [] {
      assert [i][1..] == [] && [] + [i] == [i];
    } else {
      assert (inputs + [i])[1..] == inputs[1..] + [i];
      if IsNext(last, inputs[0]) {
        JoinedLast(WithMore(answer, inputs[0].apdu.data), inputs[0].apdu.seqNo, inputs[1..], i);
      } else {
        JoinedLast(answer, last, inputs[1..], i);
      }
    }
  }

  /** Input number o opened the answer, and the machine holds it with all that came next. */
  predicate HoldsSince(s: Ssm, inputs: seq<Input>, o: nat)
    requires o < |inputs|
  {
    && inputs[o].FromPeer? && inputs[o].apdu.ComplexAck? && inputs[o].apdu.seg
    && var j := Joined(inputs[o].apdu, 0, inputs[o + 1..]);
      s.segmentAPDU == Some(j.0) && s.lastSequenceNumber == j.1
  }

  lemma TakesSegment(c: Config, s: Ssm, a: Apdu, sendOk: bool)
    requires Receiving(s) && s.state == SEGMENTED_CONFIRMATION
    ensures var o := SegmentedConfirmation(s, c, a, sendOk);
      o.ssm.state == SEGMENTED_CONFIRMATION ==>
        && a.ComplexAck? && a.seg
        && if a.seqNo == (s.lastSequenceNumber + 1) % 256 then
             o.ssm.segmentAPDU == Some(WithMore(s.segmentAPDU.value, a.data)) && o.ssm.lastSequenceNumber == a.seqNo
           else o.ssm.segmentAPDU == s.segmentAPDU && o.ssm.lastSequenceNumber == s.lastSequenceNumber
  {
  }

  /** The machine has been opened by the segment. */
  predicate OpenedBy(s: Ssm, i: Input) {
    i.FromPeer? && i.apdu.ComplexAck? && i.apdu.seg && s.segmentAPDU == Some(i.apdu) && s.lastSequenceNumber == 0
  }

  lemma RequestOpens(c: Config, s: Ssm, a: Apdu, sendOk: bool)
    requires s.invokeID.Some? && s.state == SEGMENTED_REQUEST
    ensures var t := SegmentedRequest(s, c, a, sendOk).ssm;
      t.state == SEGMENTED_CONFIRMATION ==> OpenedBy(t, FromPeer(a, sendOk))
  {
  }

  lemma AwaitOpens(c: Config, s: Ssm, a: Apdu, sendOk: bool)
    requires s.invokeID.Some? && s.state == AWAIT_CONFIRMATION
    ensures var t := AwaitConfirmation(s, c, a, sendOk).ssm;
      t.state == SEGMENTED_CONFIRMATION ==> OpenedBy(t, FromPeer(a, sendOk))
  {
  }

  lemma StartOpensNothing(c: Config, info: Option<DeviceInfo>, req: Apdu, s: Ssm, sendOk: bool)
    requires req.ConfirmedRequest? && s.state != SEGMENTED_CONFIRMATION
    ensures Indication(s, c, info, req, sendOk).ssm.state != SEGMENTED_CONFIRMATION
  {
  }

  lemma ExpiryOpensNothing(c: Config, info: Option<DeviceInfo>, req: Apdu, s: Ssm, sendOk: bool)
    requires req.ConfirmedRequest? && Under(c, info, req, s) && s.state != SEGMENTED_CONFIRMATION
    ensures TimerExpired(s, c, info, sendOk).ssm.state != SEGMENTED_CONFIRMATION
  {
    if s.state == AWAIT_CONFIRMATION && s.retryCount < c.numberOfApduRetries {
      TimeoutStartsAgain(s.(timer := None), c, info, sendOk);
      StartOpensNothing(c, info, req, s.(timer := None, retryCount := s.retryCount + 1), sendOk);
    }
  }

  lemma OpensAnswer(c: Config, info: Option<DeviceInfo>, req: Apdu, l: Life, i: Input)
    requires req.ConfirmedRequest? && Under(c, info, req, l.ssm) && Enabled(l, i) && !Uncut(c, info, req)
    requires l.ssm.state != SEGMENTED_CONFIRMATION
    requires Reaction(c, info, l, i).ssm.state == SEGMENTED_CONFIRMATION
    ensures OpenedBy(Reaction(c, info, l, i).ssm, i)
  {
    match i {
      case FromPeer(a, ok) =>
        if l.ssm.state == SEGMENTED_REQUEST { RequestOpens(c, l.ssm, a, ok); } else { AwaitOpens(c, l.ssm, a, ok); }
      case Expires(ok) => ExpiryOpensNothing(c, info, req, l.ssm, ok);
    }
  }

  /** While an answer comes in, the machine holds what the segments since the one that opened it
      make up, in order. */
  lemma {:induction false} AnswerIsJoined(c: Config, info: Option<DeviceInfo>, req: Apdu, sendOk: bool,
                                         inputs: seq<Input>)
    requires Valid(c, req) && !Uncut(c, info, req)
    ensures var l := Run(c, info, Begin(c, info, req, sendOk), inputs);
      l.ssm.state == SEGMENTED_CONFIRMATION ==> exists o :: 0 <= o < |inputs| && HoldsSince(l.ssm, inputs, o)
    decreases |inputs|
  {
    var l0 := Begin(c, info, req, sendOk);
    BeginOutcome(c, info, req, sendOk);
    if inputs == [] {
      IndicationGood(c, info, req, NewSsm(c), sendOk);
    } else {
      var before, i := inputs[..|inputs| - 1], inputs[|inputs| - 1];
      assert inputs == before + [i];
      RunLast(c, info, l0, before, i);
      AnswerIsJoined(c, info, req, sendOk, before);
      RunOutcome(c, info, req, l0, before);
      JoinedStep(c, info, req, Run(c, info, l0, before), before, i);
    }
  }

  lemma JoinedStep(c: Config, info: Option<DeviceInfo>, req: Apdu, l: Life, before: seq<Input>, i: Input)
    requires Valid(c, req) && !Uncut(c, info, req) && OutcomeInv(c, info, req, l)
    requires l.ssm.state == SEGMENTED_CONFIRMATION ==> exists o :: 0 <= o < |before| && HoldsSince(l.ssm, before, o)
    ensures var u, inputs := Step(c, info, l, i), before + [i];
      u.ssm.state == SEGMENTED_CONFIRMATION ==> exists o :: 0 <= o < |inputs| && HoldsSince(u.ssm, inputs, o)
  {
    var u, inputs := Step(c, info, l, i), before + [i];
    if u.ssm.state == SEGMENTED_CONFIRMATION {
      if l.ssm.state != SEGMENTED_CONFIRMATION {
        OpensAnswer(c, info, req, l, i);
        assert inputs[|before| + 1..] == [];
        assert HoldsSince(u.ssm, inputs, |before|);
      } else {
        var o :| 0 <= o < |before| && HoldsSince(l.ssm, before, o);
        assert Enabled(l, i) by { if i.Expires? { assert l.ssm.timer.Some?; } }
        assert i.FromPeer?;
        TakesSegment(c, l.ssm, i.apdu, i.sendOk);
        assert inputs[o + 1..] == before[o + 1..] + [i];
        JoinedLast(before[o].apdu, 0, before[o + 1..], i);
        assert HoldsSince(u.ssm, inputs, o);
      }
    }
  }

  // ----- the result

  /** Input number k ended the transaction, in that state and with those results: they were due
      then, and an answer in segments was the one that had come in since a segment opened it. */
  ghost predicate EndedBy(c: Config, info: Option<DeviceInfo>, req: Apdu, l0: Life, inputs: seq<Input>, k: nat, l: Life)
    requires req.ConfirmedRequest? && k < |inputs|
  {
    var p := Run(c, info, l0, inputs[..k]);
    && Enabled(p, inputs[k]) && DueOn(c, info, req, p, inputs[k]) == Ends(l.ssm.state, l.results)
    && (p.ssm.state == SEGMENTED_CONFIRMATION ==> exists o :: 0 <= o < k && HoldsSince(p.ssm, inputs[..k], o))
  }

  /** The results of every run that has ended are those of its start, or those that were due on one
      input. */
  lemma {:induction false} EveryResult(c: Config, info: Option<DeviceInfo>, req: Apdu, sendOk: bool, inputs: seq<Input>)
    requires Valid(c, req) && !Uncut(c, info, req)
    ensures var l0 := Begin(c, info, req, sendOk);
      var l := Run(c, info, l0, inputs);
      l.ssm.Finished() ==>
        l == l0 || exists k :: 0 <= k < |inputs| && EndedBy(c, info, req, l0, inputs, k, l)
    decreases |inputs|
  {
    var l0 := Begin(c, info, req, sendOk);
    var l := Run(c, info, l0, inputs);
    if l.ssm.Finished() && inputs != [] {
      var n := |inputs| - 1;
      var before, i := inputs[..n], inputs[n];
      assert inputs == before + [i];
      RunLast(c, info, l0, before, i);
      var p := Run(c, info, l0, before);
      if p.ssm.Finished() {
        EveryResult(c, info, req, sendOk, before);
        if l != l0 {
          var k :| 0 <= k < |before| && EndedBy(c, info, req, l0, before, k, p);
          assert before[..k] == inputs[..k] && before[k] == inputs[k];
          assert EndedBy(c, info, req, l0, inputs, k, l);
        }
      } else {
        BeginOutcome(c, info, req, sendOk);
        RunOutcome(c, info, req, l0, before);
        assert Enabled(p, i);
        EveryStepIsDue(c, info, req, sendOk, before, i);
        AnswerIsJoined(c, info, req, sendOk, before);
        assert EndedBy(c, info, req, l0, inputs, n, l);
      }
    }
  }

  // ----- a peer that is silent

  /** The first PDU of a request. */
  predicate IsFirst(c: Config, info: Option<DeviceInfo>, req: Apdu, size: nat, a: Apdu)
    requires req.ConfirmedRequest?
  {
    if Acceptable(c, info, |req.data|) then IsWhole(c, req, a) else IsPart(c, req, size, a, 0)
  }

  /** The request has been sent, and nothing heard since but j expiries. */
  predicate Silent(c: Config, info: Option<DeviceInfo>, req: Apdu, s: Ssm, j: nat)
    requires req.ConfirmedRequest?
  {
    && Under(c, info, req, s) && HasCodes(c) && 0 < RequestSegmentSize(c, info) && j <= c.numberOfApduRetries
    && if Acceptable(c, info, |req.data|) then s.state == AWAIT_CONFIRMATION && s.retryCount == j
       else s.state == SEGMENTED_REQUEST && s.initialSequenceNumber == 0 && s.segmentRetryCount == j
  }

  lemma WholeAgain(c: Config, info: Option<DeviceInfo>, req: Apdu, s: Ssm, j: nat)
    requires req.ConfirmedRequest? && Silent(c, info, req, s, j) && Acceptable(c, info, |req.data|)
    requires j < c.numberOfApduRetries
    ensures var o := TimerExpired(s, c, info, true);
      && Silent(c, info, req, o.ssm, j + 1) && Results(o.out) == []
      && |SentBy(o.out)| == 1 && IsFirst(c, info, req, RequestSegmentSize(c, info), SentBy(o.out)[0])
  {
    var size, s0 := RequestSegmentSize(c, info), s.(timer := None);
    var s1 := s0.(retryCount := j + 1);
    TimeoutStartsAgain(s0, c, info, true);
    UnrefusedMaySend(c, info, req);
    WithinLimit(c, info, |req.data|);
    PieceBounds(|req.data|, size, 0);
    var s2 := Start(Prepare(s1, c, size, req), c);
    assert Sized(c, info, req, s2) && s2.state == AWAIT_CONFIRMATION && Waiting(c, req, s2);
    FirstSent(c, info, req, s2, size);
    assert Indication(s1, c, info, req, true)
        == FirstSegment(s2, c, ErrorAck(req.invokeID, req.service, []), true);
  }

  lemma FirstAgain(c: Config, info: Option<DeviceInfo>, req: Apdu, s: Ssm, j: nat)
    requires req.ConfirmedRequest? && Silent(c, info, req, s, j) && !Acceptable(c, info, |req.data|)
    requires j < c.numberOfApduRetries
    ensures var o := TimerExpired(s, c, info, true);
      && Silent(c, info, req, o.ssm, j + 1) && Results(o.out) == []
      && |SentBy(o.out)| == 1 && IsFirst(c, info, req, RequestSegmentSize(c, info), SentBy(o.out)[0])
  {
    var s1 := Restart(s.(timer := None, segmentRetryCount := j + 1), c.segmentTimeout);
    FirstSent(c, info, req, s1, RequestSegmentSize(c, info));
    assert TimerExpired(s, c, info, true) == ResendFirst(s1, c, true);
  }

  lemma SilentStep(c: Config, info: Option<DeviceInfo>, req: Apdu, s: Ssm, j: nat)
    requires req.ConfirmedRequest? && Silent(c, info, req, s, j)
    ensures var o := TimerExpired(s, c, info, true);
      if j < c.numberOfApduRetries then
        && Silent(c, info, req, o.ssm, j + 1) && Results(o.out) == []
        && |SentBy(o.out)| == 1 && IsFirst(c, info, req, RequestSegmentSize(c, info), SentBy(o.out)[0])
      else o.ssm.state == ABORTED && SentBy(o.out) == [] && Results(o.out) == [Abort(false, req.invokeID, 65, [])]
  {
    if j == c.numberOfApduRetries {
      ExpiryDoes(c, info, req, s, true);
      OnlyUp(AbortOf(false, req.invokeID, 65));
    } else if Acceptable(c, info, |req.data|) {
      WholeAgain(c, info, req, s, j);
    } else {
      FirstAgain(c, info, req, s, j);
    }
  }

  predicate AllFirst(c: Config, info: Option<DeviceInfo>, req: Apdu, size: nat, sent: seq<Apdu>)
    requires req.ConfirmedRequest?
  {
    forall i :: 0 <= i < |sent| ==> IsFirst(c, info, req, size, sent[i])
  }

  lemma OneExpiry(c: Config, info: Option<DeviceInfo>, req: Apdu, l: Life, j: nat)
    requires req.ConfirmedRequest? && Silent(c, info, req, l.ssm, j) && l.results == []
    ensures Enabled(l, Expires(true))
    ensures var u, sent := Step(c, info, l, Expires(true)), SentBy(Reaction(c, info, l, Expires(true)).out);
      if j < c.numberOfApduRetries then
        && Silent(c, info, req, u.ssm, j + 1) && u.results == []
        && |sent| == 1 && IsFirst(c, info, req, RequestSegmentSize(c, info), sent[0])
      else u.ssm.state == ABORTED && u.results == [Abort(false, req.invokeID, 65, [])] && sent == []
  {
    SilentStep(c, info, req, l.ssm, j);
  }

  lemma NextExpiry(c: Config, info: Option<DeviceInfo>, l: Life, k: nat)
    requires 0 < k && Enabled(l, Expires(true))
    ensures var u := Step(c, info, l, Expires(true));
      && Run(c, info, l, Expiries(k)) == Run(c, info, u, Expiries(k - 1))
      && SentIn(c, info, l, Expiries(k))
         == SentBy(Reaction(c, info, l, Expires(true)).out) + SentIn(c, info, u, Expiries(k - 1))
  {
    assert Expiries(k)[0] == Expires(true) && Expiries(k)[1..] == Expiries(k - 1);
  }

  lemma NoExpiry(c: Config, info: Option<DeviceInfo>, l: Life)
    ensures Run(c, info, l, Expiries(0)) == l && SentIn(c, info, l, Expiries(0)) == []
  {
  }

  /** After k expiries, j having gone before. */
  predicate Tried(c: Config, info: Option<DeviceInfo>, req: Apdu, u: Life, sent: seq<Apdu>, j: nat, k: nat)
    requires req.ConfirmedRequest?
  {
    && AllFirst(c, info, req, RequestSegmentSize(c, info), sent)
    && if j + k <= c.numberOfApduRetries then !u.ssm.Finished() && u.results == [] && |sent| == k
       else u.ssm.state == ABORTED && u.results == [Abort(false, req.invokeID, 65, [])] && |sent| == k - 1
  }

  lemma OneMoreTry(c: Config, info: Option<DeviceInfo>, req: Apdu, u: Life, first: seq<Apdu>, rest: seq<Apdu>, j: nat,
                   k: nat)
    requires req.ConfirmedRequest? && 0 < k && Tried(c, info, req, u, rest, j + 1, k - 1)
    requires |first| == 1 && IsFirst(c, info, req, RequestSegmentSize(c, info), first[0])
    ensures Tried(c, info, req, u, first + rest, j, k)
  {
  }

  lemma {:induction false} StaysSilent(c: Config, info: Option<DeviceInfo>, req: Apdu, l: Life, j: nat, k: nat)
    requires req.ConfirmedRequest? && Silent(c, info, req, l.ssm, j) && l.results == []
    requires j + k <= c.numberOfApduRetries + 1
    ensures Tried(c, info, req, Run(c, info, l, Expiries(k)), SentIn(c, info, l, Expiries(k)), j, k)
    decreases k
  {
    if k == 0 {
      NoExpiry(c, info, l);
    } else {
      var u := Step(c, info, l, Expires(true));
      OneExpiry(c, info, req, l, j);
      NextExpiry(c, info, l, k);
      if j < c.numberOfApduRetries {
        StaysSilent(c, info, req, u, j + 1, k - 1);
        OneMoreTry(c, info, req, Run(c, info, u, Expiries(k - 1)),
                   SentBy(Reaction(c, info, l, Expires(true)).out), SentIn(c, info, u, Expiries(k - 1)), j, k);
      } else {
        NoExpiry(c, info, u);
      }
    }
  }

  /** The number of tries: a request that may be sent is sent once, and once again at each expiry as
      long as there are retries, always as its first PDU; at the next expiry the application is told
      that there was no response. */
  lemma SilentPeer(c: Config, info: Option<DeviceInfo>, req: Apdu, size: nat, k: nat)
    requires Valid(c, req) && IsLimit(c, info, size) && 0 < size && HasCodes(c)
    requires Acceptable(c, info, |req.data|) || MaySegment(c, info, |req.data|, size)
    requires k <= c.numberOfApduRetries + 1
    ensures var l, sent := Run(c, info, Begin(c, info, req, true), Expiries(k)),
                           AllSentIn(c, info, req, true, Expiries(k));
      && AllFirst(c, info, req, size, sent)
      && if k <= c.numberOfApduRetries then !l.ssm.Finished() && l.results == [] && |sent| == k + 1
         else l.ssm.state == ABORTED && l.results == [Abort(false, req.invokeID, 65, [])] && |sent| == k
  {
    LimitIsSize(c, info, size);
    StartsSo(c, info, req, size, true);
    StartsSilent(c, info, req);
    StaysSilent(c, info, req, Begin(c, info, req, true), 0, k);
  }

  lemma StartsSilent(c: Config, info: Option<DeviceInfo>, req: Apdu)
    requires Valid(c, req) && 0 < RequestSegmentSize(c, info) && HasCodes(c) && MaySend(c, info, req)
    ensures Silent(c, info, req, Begin(c, info, req, true).ssm, 0)
  {
    var size := RequestSegmentSize(c, info);
    BeginOutcome(c, info, req, true);
    UnrefusedMaySend(c, info, req);
    WithinLimit(c, info, |req.data|);
    PieceBounds(|req.data|, size, 0);
  }
}
