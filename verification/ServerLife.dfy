/** One server transaction, whatever its client, the network and its application do: the request
    is forwarded to the application at most once. */
module ServerLife {
  import opened Apdus
  import opened Segmentation
  import opened ServerSteps

  datatype Input = FromPeer(apdu: Apdu, sendOk: bool) | Answer(apdu: Apdu, sendOk: bool) | Expires(sendOk: bool)

  /** The machine, and what it has forwarded other than aborts. */
  datatype Life = Life(ssm: Ssm, forwarded: seq<Apdu>)

  function Forwarded(out: seq<Effect>): seq<Apdu> {
    if out == [] then []
    else (if out[0].Up? && !out[0].apdu.Abort? then [out[0].apdu] else []) + Forwarded(out[1..])
  }

  /** A complex answer to a request that is still coming in, when it cannot be cut or the network
      refuses it: it takes the place of the request, and the state stays as it was. */
  predicate Spoils(s: Ssm, c: Config, info: Option<DeviceInfo>, apdu: Apdu, sendOk: bool) {
    && s.state == SEGMENTED_REQUEST && apdu.ComplexAck?
    && var size := ResponseSegmentSize(s, info);
      if apdu.data != [] && size == 0 then true
      else Refusal(s, c, CountSegments(|apdu.data|, size)).None? && !sendOk
  }

  /** A finished machine is no longer listed, one that has had no request is not found, and only
      an armed timer expires. */
  predicate Enabled(c: Config, info: Option<DeviceInfo>, l: Life, i: Input) {
    && !l.ssm.Finished() && Running(l.ssm)
    && (i.Answer? ==> l.ssm.invokeID.Some? && !Spoils(l.ssm, c, info, i.apdu, i.sendOk))
    && (i.Expires? ==> l.ssm.timer.Some?)
  }

  /** What the machine does on an input. */
  function Reaction(c: Config, info: Option<DeviceInfo>, l: Life, i: Input): Outcome
    requires Enabled(c, info, l, i)
  {
    match i
    case FromPeer(apdu, ok) => Indication(l.ssm, c, info, apdu, ok)
    case Answer(apdu, ok) => Confirmation(l.ssm, c, info, apdu, ok)
    case Expires(ok) => TimerExpired(l.ssm, c, ok)
  }

  function Step(c: Config, info: Option<DeviceInfo>, l: Life, i: Input): Life {
    if !Enabled(c, info, l, i) then l
    else
      var o := Reaction(c, info, l, i);
      Life(o.ssm, l.forwarded + Forwarded(o.out))
  }

  function Run(c: Config, info: Option<DeviceInfo>, l: Life, inputs: seq<Input>): Life
    decreases |inputs|
  {
    if inputs == [] then l else Run(c, info, Step(c, info, l, inputs[0]), inputs[1..])
  }

  /** The states before the request is complete. */
  predicate Asking(s: Ssm) { s.state == IDLE || s.state == SEGMENTED_REQUEST }

  predicate Inv(l: Life) {
    && (l.ssm.Finished() || Running(l.ssm))
    && |l.forwarded| <= if Asking(l.ssm) then 0 else 1
  }

  /** A handler forwards at most one request, and only on the way out of the asking states. */
  predicate Good(s: Ssm, o: Outcome) {
    && (o.ssm.Finished() || Running(o.ssm))
    && |Forwarded(o.out)| <= (if Asking(s) && !Asking(o.ssm) then 1 else 0)
    && (!Asking(s) ==> !Asking(o.ssm))
  }

  lemma FewForwarded(a: Apdu, b: Apdu)
    ensures Forwarded([Down(a)]) == [] && |Forwarded([Up(a)])| == (if a.Abort? then 0 else 1)
    ensures |Forwarded([Down(a), Up(b)])| == (if b.Abort? then 0 else 1)
    ensures |Forwarded([Up(a), Down(b)])| == (if a.Abort? then 0 else 1)
  {
    assert [Up(a)][1..] == [] && [Down(a)][1..] == [];
    assert [Down(a), Up(b)][1..] == [Up(b)] && [Up(b)][1..] == [];
    assert [Up(a), Down(b)][1..] == [Down(b)] && [Down(b)][1..] == [];
  }

  lemma NoneForwarded(apdus: seq<Apdu>)
    ensures Forwarded(Downs(apdus)) == []
    decreases |apdus|
  {
    if apdus != [] {
      NoneForwarded(apdus[1..]);
      assert Downs(apdus)[1..] == Downs(apdus[1..]);
    }
  }

  lemma SendGood(s: Ssm, t: Ssm, apdu: Apdu, sendOk: bool)
    requires (t.Finished() || Running(t)) && (!Asking(s) ==> !Asking(t))
    ensures Good(s, SendLast(t, apdu, sendOk))
  {
    FewForwarded(apdu, apdu);
  }

  lemma IdleGood(s: Ssm, c: Config, info: Option<DeviceInfo>, apdu: Apdu, sendOk: bool)
    requires Running(s) && s.state == IDLE
    ensures Good(s, Idle(s, c, info, apdu, sendOk))
  {
    var o := Idle(s, c, info, apdu, sendOk);
    assert o.out == [] || o.out == [Up(apdu)] || (|o.out| == 1 && o.out[0].Down? && o.out == [Down(o.out[0].apdu)]);
    if o.out != [] { FewForwarded(o.out[0].apdu, apdu); }
  }

  lemma TakeNextGood(s: Ssm, c: Config, apdu: Apdu, sendOk: bool)
    requires Running(s) && s.state == SEGMENTED_REQUEST && apdu.ConfirmedRequest?
    ensures Good(s, TakeNext(s, c, apdu, sendOk))
  {
    var ack := SegmentAckOf(false, true, s.invokeID.value, apdu.seqNo, s.actualWindowSize.value);
    var built := AppendData(s.segmentAPDU.value, apdu.data);
    FewForwarded(ack, built);
    assert TakeNext(s, c, apdu, sendOk).out in {[], [Down(ack)], [Down(ack), Up(built)]};
  }

  lemma SegmentedRequestGood(s: Ssm, c: Config, apdu: Apdu, sendOk: bool)
    requires Running(s) && s.state == SEGMENTED_REQUEST
    ensures Good(s, SegmentedRequest(s, c, apdu, sendOk))
  {
    var abort := AbortOf(true, s.invokeID.value, INVALID_APDU_IN_THIS_STATE);
    FewForwarded(abort, abort);
    FewForwarded(apdu, apdu);
    FewForwarded(SegmentAckOf(true, true, s.invokeID.value, s.initialSequenceNumber, s.actualWindowSize.value), apdu);
    if apdu.ConfirmedRequest? { TakeNextGood(s, c, apdu, sendOk); }
    assert [Up(abort)] + [Down(abort)] == [Up(abort), Down(abort)] && [Up(abort)] + [] == [Up(abort)];
  }

  lemma AwaitResponseGood(s: Ssm, apdu: Apdu)
    requires Running(s) && s.state == AWAIT_RESPONSE
    ensures Good(s, AwaitResponse(s, apdu))
  {
    FewForwarded(apdu, apdu);
  }

  lemma FillGood(s: Ssm, t: Ssm, c: Config, seqNum: byte, sendOk: bool, restart: bool)
    requires Running(t) && (!Asking(s) ==> !Asking(t))
    ensures Good(s, FillWindow(t, c, seqNum, sendOk, restart))
  {
    if t.actualWindowSize.Some? { NoneForwarded(FillFrom(t, c, seqNum, 0, t.actualWindowSize.value).sent); }
  }

  lemma SegmentedResponseGood(s: Ssm, c: Config, apdu: Apdu, sendOk: bool)
    requires Running(s) && s.state == SEGMENTED_RESPONSE
    ensures Good(s, SegmentedResponse(s, c, apdu, sendOk))
  {
    FewForwarded(apdu, apdu);
    if apdu.SegmentAck? {
      var next := (apdu.seqNo + 1) % 256;
      var t := s.(actualWindowSize := Some(apdu.win), initialSequenceNumber := next, segmentRetryCount := 0);
      FillGood(s, t, c, next, sendOk, true);
    }
  }

  lemma ComplexAnswerGood(s: Ssm, c: Config, info: Option<DeviceInfo>, apdu: Apdu, sendOk: bool)
    requires Running(s) && s.invokeID.Some? && apdu.ComplexAck? && !Spoils(s, c, info, apdu, sendOk)
    ensures Good(s, Confirmation(s, c, info, apdu, sendOk))
  {
    var out := Confirmation(s, c, info, apdu, sendOk).out;
    assert out == [] || (|out| == 1 && out[0].Down?);
    if out != [] {
      FewForwarded(out[0].apdu, apdu);
      assert out == [Down(out[0].apdu)];
    }
  }

  lemma ConfirmationGood(s: Ssm, c: Config, info: Option<DeviceInfo>, apdu: Apdu, sendOk: bool)
    requires Running(s) && s.invokeID.Some? && !Spoils(s, c, info, apdu, sendOk)
    ensures Good(s, Confirmation(s, c, info, apdu, sendOk))
  {
    FewForwarded(apdu, apdu);
    if apdu.ComplexAck? { ComplexAnswerGood(s, c, info, apdu, sendOk); }
  }

  /** An answer leaves a machine that can take the next PDU exactly when it does not spoil it. */
  lemma SpoilsExactly(s: Ssm, c: Config, info: Option<DeviceInfo>, apdu: Apdu, sendOk: bool)
    requires Running(s) && s.invokeID.Some?
    ensures var o := Confirmation(s, c, info, apdu, sendOk);
      o.ssm.Finished() || Running(o.ssm) <==> !Spoils(s, c, info, apdu, sendOk)
  {
    if !Spoils(s, c, info, apdu, sendOk) { ConfirmationGood(s, c, info, apdu, sendOk); }
  }

  lemma ResponseTimeoutGood(s: Ssm, c: Config, sendOk: bool)
    requires Running(s) && s.state == SEGMENTED_RESPONSE
    ensures Good(s, SegmentedResponseTimeout(s, c, sendOk))
  {
    var t := Restart(s.(segmentRetryCount := s.segmentRetryCount + 1), c.segmentTimeout);
    if s.segmentRetryCount < c.numberOfApduRetries {
      if s.initialSequenceNumber != 0 {
        FillGood(s, t, c, s.initialSequenceNumber, sendOk, false);
      } else if GetSegment(t, c, 0).Some? {
        SendGood(s, t, GetSegment(t, c, 0).value, sendOk);
      }
    }
  }

  lemma IndicationGood(s: Ssm, c: Config, info: Option<DeviceInfo>, apdu: Apdu, sendOk: bool)
    requires Running(s)
    ensures Good(s, Indication(s, c, info, apdu, sendOk))
  {
    match s.state {
      case IDLE => IdleGood(s, c, info, apdu, sendOk);
      case SEGMENTED_REQUEST => SegmentedRequestGood(s, c, apdu, sendOk);
      case AWAIT_RESPONSE => AwaitResponseGood(s, apdu);
      case SEGMENTED_RESPONSE => SegmentedResponseGood(s, c, apdu, sendOk);
      case _ =>
    }
  }

  lemma TimerGood(s: Ssm, c: Config, sendOk: bool)
    requires Running(s)
    ensures Good(s, TimerExpired(s, c, sendOk))
  {
    if s.invokeID.Some? { FewForwarded(AbortOf(true, s.invokeID.value, SERVER_TIMEOUT),
        AbortOf(true, s.invokeID.value, SERVER_TIMEOUT)); }
    if s.state == SEGMENTED_RESPONSE { ResponseTimeoutGood(s.(timer := None), c, sendOk); }
  }

  lemma StepInv(c: Config, info: Option<DeviceInfo>, l: Life, i: Input)
    requires Inv(l)
    ensures Inv(Step(c, info, l, i))
  {
    if Enabled(c, info, l, i) {
      match i {
        case FromPeer(apdu, ok) => IndicationGood(l.ssm, c, info, apdu, ok);
        case Answer(apdu, ok) => ConfirmationGood(l.ssm, c, info, apdu, ok);
        case Expires(ok) => TimerGood(l.ssm, c, ok);
      }
    }
  }

  lemma {:induction false} RunInv(c: Config, info: Option<DeviceInfo>, l: Life, inputs: seq<Input>)
    requires Inv(l)
    ensures Inv(Run(c, info, l, inputs))
    decreases |inputs|
  {
    if inputs != [] {
      StepInv(c, info, l, inputs[0]);
      RunInv(c, info, Step(c, info, l, inputs[0]), inputs[1..]);
    }
  }

  /** However often a client repeats its request and however the rest goes, one transaction
      forwards at most one request, and none until the request is complete. */
  lemma ForwardsAtMostOnce(c: Config, info: Option<DeviceInfo>, inputs: seq<Input>)
    ensures var l := Run(c, info, Life(NewSsm(c), []), inputs);
      |l.forwarded| <= if Asking(l.ssm) then 0 else 1
  {
    RunInv(c, info, Life(NewSsm(c), []), inputs);
  }
}
