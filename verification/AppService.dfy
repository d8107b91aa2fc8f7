/** bacpypes3/appservice.py in its own form: transactions are objects whose handlers change
    them in place, and the access point finds a transaction in its two lists and lets it run.
    Each handler is proved to do what its function in ClientSteps or ServerSteps says; what the
    runs of those functions promise is proved in the modules around this one. */
module AppService {
  import opened Apdus
  import opened Segmentation
  import Client = ClientSteps
  import Server = ServerSteps
  import Life = ServerLife

  datatype Address = Address(network: Option<nat>, mac: Bytes)

  /** list.remove: the first occurrence goes. */
  function Without<T(==)>(list: seq<T>, x: T): seq<T> {
    if list == [] then [] else if list[0] == x then list[1..] else [list[0]] + Without(list[1..], x)
  }

  ghost predicate Distinct<T>(list: seq<T>) {
    forall i, j :: 0 <= i < j < |list| ==> list[i] != list[j]
  }

  /** What fill_window has done after it has already sent some segments. */
  function Extended(sent: seq<Apdu>, rest: Fill): Fill {
    Fill(sent + rest.sent, rest.last, rest.raised)
  }

  lemma ExtendedOnce(sent: seq<Apdu>, rest: Fill)
    requires rest.sent != []
    ensures Extended(sent, rest) == Extended(sent + [rest.sent[0]], Fill(rest.sent[1..], rest.last, rest.raised))
  {
    assert sent + rest.sent == sent + [rest.sent[0]] + rest.sent[1..];
  }

  /** The loop of fill_window: it stops at the last segment, and at the first thing that raises. */
  method SendWindow(s: Ssm, c: Config, seqNum: byte, window: byte, sendOk: bool) returns (fill: Fill)
    ensures var whole := FillFrom(s, c, seqNum, 0, window);
      fill == if !sendOk && whole.sent != [] then Fill([], false, true) else whole
  {
    var sent: seq<Apdu> := [];
    var ix := 0;
    while ix < window
      invariant 0 <= ix <= window
      invariant sent == [] || sendOk
      invariant FillFrom(s, c, seqNum, 0, window) == Extended(sent, FillFrom(s, c, seqNum, ix, window))
    {
      var segment := GetSegment(s, c, seqNum + ix);
      if segment.None? {
        assert sent + [] == sent;
        return Fill(sent, false, true);
      }
      if !sendOk {
        return Fill([], false, true);
      }
      ExtendedOnce(sent, FillFrom(s, c, seqNum, ix, window));
      sent := sent + [segment.value];
      assert sent + [] == sent;
      if !segment.value.mor {
        return Fill(sent, true, false);
      }
      ix := ix + 1;
    }
    return Fill(sent, false, false);
  }

  class ClientSSM {
    const ssmSAP: ApplicationServiceAccessPoint
    const pduAddress: Address
    const config: Config
    var state: State
    var invokeID: Option<byte>
    var timer: Option<nat>
    var segmentAPDU: Option<Apdu>
    var segmentSize: nat
    var segmentCount: nat
    var retryCount: nat
    var segmentRetryCount: nat
    var sentAllSegments: bool
    var lastSequenceNumber: byte
    var initialSequenceNumber: byte
    var actualWindowSize: Option<byte>
    var maxSegmentsAccepted: Option<nat>
    var maxApduLengthAccepted: nat
    /** Everything this transaction has handed to the network and to the application. */
    ghost var trace: seq<Effect>

    constructor (sap: ApplicationServiceAccessPoint, address: Address)
      ensures ssmSAP == sap && pduAddress == address && config == sap.config
      ensures Snapshot() == NewSsm(config) && trace == []
    {
      ssmSAP, pduAddress, config := sap, address, sap.config;
      state, invokeID, timer := IDLE, None, None;
      segmentAPDU, segmentSize, segmentCount := None, 0, 0;
      retryCount, segmentRetryCount, sentAllSegments := 0, 0, false;
      lastSequenceNumber, initialSequenceNumber, actualWindowSize := 0, 0, None;
      maxSegmentsAccepted, maxApduLengthAccepted := sap.config.maxSegmentsAccepted, sap.config.maxApduLengthAccepted;
      trace := [];
    }

    function Snapshot(): Ssm
      reads this
    {
      Ssm(state, invokeID, timer, segmentAPDU, segmentSize, segmentCount, retryCount, segmentRetryCount,
          sentAllSegments, lastSequenceNumber, initialSequenceNumber, actualWindowSize,
          maxSegmentsAccepted, maxApduLengthAccepted, false)
    }

    predicate Finished()
      reads this
    {
      state == COMPLETED || state == ABORTED
    }

    /** A handler has done what its outcome says, and a finished transaction has left the list. */
    twostate predicate Did(o: Outcome, raised: bool)
      reads this, ssmSAP
    {
      && Snapshot() == o.ssm && trace == old(trace) + o.out && raised == o.raised
      && ssmSAP.clientTransactions ==
         if Finished() then Without(old(ssmSAP.clientTransactions), this) else old(ssmSAP.clientTransactions)
    }

    method StartTimer(msecs: nat)
      modifies this`timer
      ensures timer == Some(msecs)
    {
      timer := Some(msecs);
    }

    method StopTimer()
      modifies this`timer
      ensures timer == None
    {
      timer := None;
    }

    method SetState(newState: State, msecs: nat)
      requires !Finished()
      modifies this`state, this`timer, ssmSAP`clientTransactions
      ensures Did(Outcome(Enter(old(Snapshot()), newState, msecs), [], false), false)
    {
      StopTimer();
      state := newState;
      if msecs != 0 { StartTimer(msecs); }
      if newState == COMPLETED || newState == ABORTED {
        ssmSAP.clientTransactions := Without(ssmSAP.clientTransactions, this);
      }
    }

    /** To the network, which may raise. */
    method Request(apdu: Apdu, sendOk: bool) returns (raised: bool)
      modifies this`trace
      ensures raised == !sendOk && trace == old(trace) + if sendOk then [Down(apdu)] else []
    {
      if sendOk { trace := trace + [Down(apdu)]; }
      raised := !sendOk;
    }

    /** To the application. */
    method Response(apdu: Apdu)
      modifies this`trace
      ensures trace == old(trace) + [Up(apdu)]
    {
      trace := trace + [Up(apdu)];
    }

    method FillWindow(seqNum: byte, sendOk: bool) returns (raised: bool)
      requires !Finished()
      modifies this`sentAllSegments, this`trace
      ensures Did(Segmentation.FillWindow(old(Snapshot()), config, seqNum, sendOk, false), raised)
    {
      if actualWindowSize.None? || actualWindowSize.value == 0 {
        return true;
      }
      var fill := SendWindow(Snapshot(), config, seqNum, actualWindowSize.value, sendOk);
      trace := trace + Downs(fill.sent);
      if fill.last { sentAllSegments := true; }
      raised := fill.raised;
    }

    /** Past an acknowledged segment, the next window is filled and the timer restarts. */
    method SendMore(acked: byte, sendOk: bool) returns (raised: bool)
      requires !Finished()
      modifies this
      ensures Did(SendNextWindow(old(Snapshot()), config, acked, sendOk), raised)
    {
      initialSequenceNumber := (acked + 1) % 256;
      segmentRetryCount := 0;
      raised := FillWindow(initialSequenceNumber, sendOk);
      if !raised { StartTimer(config.segmentTimeout); }
    }

    method Abort(reason: byte) returns (abort: Apdu)
      requires !Finished() && invokeID.Some?
      modifies this`state, this`timer, ssmSAP`clientTransactions
      ensures Did(Outcome(Enter(old(Snapshot()), ABORTED, 0), [], false), false)
      ensures abort == AbortOf(false, old(invokeID.value), reason)
    {
      SetState(ABORTED, 0);
      abort := AbortOf(false, invokeID.value, reason);
    }

    method AbortHere(reason: byte)
      requires !Finished() && invokeID.Some?
      modifies this`state, this`timer, this`trace, ssmSAP`clientTransactions
      ensures Did(Client.AbortWith(old(Snapshot()), reason, false, true), false)
    {
      var abort := Abort(reason);
      Response(abort);
    }

    method AbortBoth(reason: byte, sendOk: bool) returns (raised: bool)
      requires !Finished() && invokeID.Some?
      modifies this`state, this`timer, this`trace, ssmSAP`clientTransactions
      ensures Did(Client.AbortWith(old(Snapshot()), reason, true, sendOk), raised)
    {
      var abort := Abort(reason);
      raised := Request(abort, sendOk);
      if !raised { Response(abort); }
    }

    method Finish(newState: State, apdu: Apdu)
      requires !Finished() && (newState == COMPLETED || newState == ABORTED)
      modifies this`state, this`timer, this`trace, ssmSAP`clientTransactions
      ensures Did(Outcome(Enter(old(Snapshot()), newState, 0), [Up(apdu)], false), false)
    {
      SetState(newState, 0);
      Response(apdu);
    }

    method Indication(apdu: Apdu, sendOk: bool) returns (raised: bool)
      requires !Finished()
      modifies this, ssmSAP`clientTransactions
      ensures Did(Client.Indication(old(Snapshot()), config, ssmSAP.DeviceInfoOf(pduAddress), apdu, sendOk), raised)
    {
      if !apdu.ConfirmedRequest? {
        return true;
      }
      var info := ssmSAP.DeviceInfoOf(pduAddress);
      segmentAPDU := Some(apdu);
      segmentSize := Client.RequestSegmentSize(config, info);
      invokeID := Some(apdu.invokeID);
      if apdu.data == [] {
        segmentCount := 1;
      } else if segmentSize == 0 {
        return true;
      } else {
        segmentCount := CountSegments(|apdu.data|, segmentSize);
      }
      assert Snapshot() == Client.Prepare(old(Snapshot()), config, segmentSize, apdu);
      var refusal := Client.Refusal(config, info, segmentCount);
      if refusal.Some? {
        AbortHere(refusal.value);
        return false;
      }
      raised := SendFirst(apdu, sendOk);
    }

    method SendFirst(apdu: Apdu, sendOk: bool) returns (raised: bool)
      requires !Finished() && apdu.ConfirmedRequest?
      modifies this, ssmSAP`clientTransactions
      ensures Did(Client.FirstSegment(Client.Start(old(Snapshot()), config), config,
                                      ErrorAck(apdu.invokeID, apdu.service, []), sendOk), raised)
    {
      Start();
      var first := GetSegment(Snapshot(), config, 0);
      if first.None? {
        return true;
      }
      var refused := Request(first.value, sendOk);
      if refused { Finish(COMPLETED, ErrorAck(apdu.invokeID, apdu.service, [])); }
      return false;
    }

    method Start()
      requires !Finished()
      modifies this, ssmSAP`clientTransactions
      ensures Did(Outcome(Client.Start(old(Snapshot()), config), [], false), false)
    {
      if segmentCount == 1 {
        sentAllSegments, retryCount := true, 0;
        SetState(AWAIT_CONFIRMATION, config.apduTimeout);
      } else {
        sentAllSegments, retryCount, segmentRetryCount := false, 0, 0;
        initialSequenceNumber, actualWindowSize := 0, None;
        SetState(SEGMENTED_REQUEST, config.segmentTimeout);
      }
    }

    method SegmentedRequest(apdu: Apdu, sendOk: bool) returns (raised: bool)
      requires !Finished() && invokeID.Some?
      modifies this, ssmSAP`clientTransactions
      ensures Did(Client.SegmentedRequest(old(Snapshot()), config, apdu, sendOk), raised)
    {
      raised := false;
      match apdu {
        case SegmentAck(_, _, _, _, _, _) =>
          raised := TakeSegmentAck(apdu, sendOk);
        case SimpleAck(_, _, _) =>
          if !sentAllSegments {
            raised := AbortBoth(INVALID_APDU_IN_THIS_STATE, sendOk);
          } else {
            Finish(COMPLETED, apdu);
          }
        case ComplexAck(_, _, _, _, _, _, _) =>
          raised := TakeComplexAck(apdu, sendOk);
        case ErrorAck(_, _, _) => Finish(COMPLETED, apdu);
        case Reject(_, _, _) => Finish(COMPLETED, apdu);
        case Abort(_, _, _, _) => Finish(COMPLETED, apdu);
        case _ => raised := true;
      }
    }

    method TakeComplexAck(apdu: Apdu, sendOk: bool) returns (raised: bool)
      requires !Finished() && invokeID.Some? && apdu.ComplexAck?
      modifies this, ssmSAP`clientTransactions
      ensures Did(Client.SegmentedRequest(old(Snapshot()), config, apdu, sendOk), raised)
    {
      raised := false;
      if !sentAllSegments {
        raised := AbortBoth(INVALID_APDU_IN_THIS_STATE, sendOk);
      } else if !apdu.seg {
        Finish(COMPLETED, apdu);
      } else {
        EnterConfirmation(apdu, if apdu.win < config.proposedWindowSize then apdu.win else config.proposedWindowSize);
      }
    }

    method TakeSegmentAck(apdu: Apdu, sendOk: bool) returns (raised: bool)
      requires !Finished() && invokeID.Some? && apdu.SegmentAck?
      modifies this, ssmSAP`clientTransactions
      ensures Did(Client.SegmentedRequest(old(Snapshot()), config, apdu, sendOk), raised)
    {
      raised := false;
      actualWindowSize := Some(apdu.win);
      if apdu.win == 0 {
        raised := true;
      } else if !InWindow(apdu.seqNo, initialSequenceNumber, apdu.win) {
        StartTimer(config.segmentTimeout);
      } else if sentAllSegments {
        SetState(AWAIT_CONFIRMATION, config.apduTimeout);
      } else {
        raised := SendMore(apdu.seqNo, sendOk);
      }
    }

    method ResendFirst(sendOk: bool) returns (raised: bool)
      requires !Finished()
      modifies this`trace
      ensures Did(Client.ResendFirst(old(Snapshot()), config, sendOk), raised)
    {
      var first := GetSegment(Snapshot(), config, 0);
      if first.None? {
        return true;
      }
      raised := Request(first.value, sendOk);
    }

    method SegmentedRequestTimeout(sendOk: bool) returns (raised: bool)
      requires !Finished() && invokeID.Some?
      modifies this, ssmSAP`clientTransactions
      ensures Did(Client.SegmentedRequestTimeout(old(Snapshot()), config, sendOk), raised)
    {
      raised := false;
      if segmentRetryCount < config.numberOfApduRetries {
        segmentRetryCount := segmentRetryCount + 1;
        StartTimer(config.segmentTimeout);
        if initialSequenceNumber == 0 {
          raised := ResendFirst(sendOk);
        } else {
          raised := FillWindow(initialSequenceNumber, sendOk);
        }
      } else {
        AbortHere(NO_RESPONSE);
      }
    }

    method AwaitConfirmation(apdu: Apdu, sendOk: bool) returns (raised: bool)
      requires !Finished() && invokeID.Some?
      modifies this, ssmSAP`clientTransactions
      ensures Did(Client.AwaitConfirmation(old(Snapshot()), config, apdu, sendOk), raised)
    {
      raised := false;
      match apdu {
        case Abort(_, _, _, _) => Finish(ABORTED, apdu);
        case SimpleAck(_, _, _) => Finish(COMPLETED, apdu);
        case ErrorAck(_, _, _) => Finish(COMPLETED, apdu);
        case Reject(_, _, _) => Finish(COMPLETED, apdu);
        case ComplexAck(_, _, _, _, _, _, _) =>
          if !apdu.seg {
            Finish(COMPLETED, apdu);
          } else if !config.segmentationSupported.Receives() {
            AbortHere(SEGMENTATION_NOT_SUPPORTED);
          } else if apdu.seqNo == 0 {
            raised := OpenConfirmation(apdu, sendOk);
          } else {
            raised := AbortBoth(INVALID_APDU_IN_THIS_STATE, sendOk);
          }
        case SegmentAck(_, _, _, _, _, _) => StartTimer(config.segmentTimeout);
        case _ => raised := true;
      }
    }

    method OpenConfirmation(apdu: Apdu, sendOk: bool) returns (raised: bool)
      requires !Finished() && invokeID.Some?
      requires apdu.ComplexAck? && apdu.seg && apdu.seqNo == 0 && config.segmentationSupported.Receives()
      modifies this, ssmSAP`clientTransactions
      ensures Did(Client.AwaitConfirmation(old(Snapshot()), config, apdu, sendOk), raised)
    {
      EnterConfirmation(apdu, apdu.win);
      raised := Request(SegmentAckOf(false, false, invokeID.value, initialSequenceNumber, apdu.win), sendOk);
    }

    method EnterConfirmation(apdu: Apdu, window: byte)
      requires !Finished()
      modifies this, ssmSAP`clientTransactions
      ensures Did(Outcome(Enter(old(Snapshot()).(segmentAPDU := Some(apdu), actualWindowSize := Some(window),
                                                 lastSequenceNumber := 0, initialSequenceNumber := 0),
                                SEGMENTED_CONFIRMATION, config.segmentTimeout), [], false), false)
    {
      segmentAPDU := Some(apdu);
      actualWindowSize := Some(window);
      lastSequenceNumber, initialSequenceNumber := 0, 0;
      SetState(SEGMENTED_CONFIRMATION, config.segmentTimeout);
    }

    /** The retry count survives the new start. */
    method StartAgain(saveCount: nat, sendOk: bool) returns (raised: bool)
      requires !Finished() && segmentAPDU.Some? && retryCount == saveCount
      modifies this, ssmSAP`clientTransactions
      ensures Did(Client.StartAgain(old(Snapshot()), config, ssmSAP.DeviceInfoOf(pduAddress), saveCount, sendOk),
          raised)
    {
      assert Snapshot().(retryCount := saveCount) == Snapshot();
      raised := Indication(segmentAPDU.value, sendOk);
      if !raised { retryCount := saveCount; }
    }

    method AwaitConfirmationTimeout(sendOk: bool) returns (raised: bool)
      requires !Finished() && invokeID.Some? && segmentAPDU.Some?
      modifies this, ssmSAP`clientTransactions
      ensures Did(Client.AwaitConfirmationTimeout(old(Snapshot()), config, ssmSAP.DeviceInfoOf(pduAddress), sendOk),
          raised)
    {
      raised := false;
      if retryCount < config.numberOfApduRetries {
        ghost var s := Snapshot();
        retryCount := retryCount + 1;
        Client.TimeoutStartsAgain(s, config, ssmSAP.DeviceInfoOf(pduAddress), sendOk);
        Client.StartsAlike(s, Snapshot(), config, ssmSAP.DeviceInfoOf(pduAddress), retryCount, sendOk);
        raised := StartAgain(retryCount, sendOk);
      } else {
        AbortHere(NO_RESPONSE);
      }
    }

    method SegmentedConfirmation(apdu: Apdu, sendOk: bool) returns (raised: bool)
      requires !Finished() && Client.Receiving(Snapshot())
      modifies this, ssmSAP`clientTransactions
      ensures Did(Client.SegmentedConfirmation(old(Snapshot()), config, apdu, sendOk), raised)
    {
      if !apdu.ComplexAck? || !apdu.seg {
        raised := AbortBoth(INVALID_APDU_IN_THIS_STATE, sendOk);
      } else if apdu.seqNo != (lastSequenceNumber + 1) % 256 {
        StartTimer(config.segmentTimeout);
        raised := Request(SegmentAckOf(true, false, invokeID.value, lastSequenceNumber, actualWindowSize.value),
            sendOk);
      } else {
        raised := TakeNext(apdu, sendOk);
      }
    }

    method TakeNext(apdu: Apdu, sendOk: bool) returns (raised: bool)
      requires !Finished() && Client.Receiving(Snapshot()) && apdu.ComplexAck?
      requires apdu.seqNo == (lastSequenceNumber + 1) % 256
      modifies this, ssmSAP`clientTransactions
      ensures Did(Client.TakeNext(old(Snapshot()), config, apdu, sendOk), raised)
    {
      segmentAPDU := Some(AppendData(segmentAPDU.value, apdu.data));
      lastSequenceNumber := (lastSequenceNumber + 1) % 256;
      if apdu.mor {
        raised := TakeMiddle(sendOk);
      } else {
        raised := TakeLast(sendOk);
      }
    }

    method TakeLast(sendOk: bool) returns (raised: bool)
      requires !Finished() && Client.Receiving(Snapshot())
      modifies this`state, this`timer, this`trace, ssmSAP`clientTransactions
      ensures Did(Client.TakeLast(old(Snapshot()), config, sendOk), raised)
    {
      raised := Request(SegmentAckOf(false, false, invokeID.value, lastSequenceNumber, actualWindowSize.value), sendOk);
      if !raised { Finish(COMPLETED, segmentAPDU.value); }
    }

    method TakeMiddle(sendOk: bool) returns (raised: bool)
      requires !Finished() && Client.Receiving(Snapshot())
      modifies this`initialSequenceNumber, this`timer, this`trace
      ensures Did(Client.TakeMiddle(old(Snapshot()), config, sendOk), raised)
    {
      raised := false;
      StartTimer(config.segmentTimeout);
      if lastSequenceNumber == (initialSequenceNumber + actualWindowSize.value) % 256 {
        initialSequenceNumber := lastSequenceNumber;
        raised := Request(SegmentAckOf(false, false, invokeID.value, lastSequenceNumber, actualWindowSize.value),
            sendOk);
      }
    }

    method SegmentedConfirmationTimeout(sendOk: bool) returns (raised: bool)
      requires !Finished() && invokeID.Some?
      modifies this, ssmSAP`clientTransactions
      ensures Did(Client.SegmentedConfirmationTimeout(old(Snapshot()), config, sendOk), raised)
    {
      AbortHere(NO_RESPONSE);
      raised := false;
    }

    method Confirmation(apdu: Apdu, sendOk: bool) returns (raised: bool)
      requires !Finished() && Client.Running(Snapshot())
      modifies this, ssmSAP`clientTransactions
      ensures Did(Client.Confirmation(old(Snapshot()), config, apdu, sendOk), raised)
    {
      match state {
        case SEGMENTED_REQUEST => raised := SegmentedRequest(apdu, sendOk);
        case AWAIT_CONFIRMATION => raised := AwaitConfirmation(apdu, sendOk);
        case SEGMENTED_CONFIRMATION => raised := SegmentedConfirmation(apdu, sendOk);
        case _ => raised := true;
      }
    }

    method TimerExpired(sendOk: bool) returns (raised: bool)
      requires !Finished() && Client.Running(Snapshot())
      modifies this, ssmSAP`clientTransactions
      ensures Did(Client.TimerExpired(old(Snapshot()), config, ssmSAP.DeviceInfoOf(pduAddress), sendOk), raised)
    {
      StopTimer();
      match state {
        case SEGMENTED_REQUEST => raised := SegmentedRequestTimeout(sendOk);
        case AWAIT_CONFIRMATION => raised := AwaitConfirmationTimeout(sendOk);
        case SEGMENTED_CONFIRMATION => raised := SegmentedConfirmationTimeout(sendOk);
        case _ => raised := true;
      }
    }
  }

  class ServerSSM {
    const ssmSAP: ApplicationServiceAccessPoint
    const pduAddress: Address
    const config: Config
    var state: State
    var invokeID: Option<byte>
    var timer: Option<nat>
    var segmentAPDU: Option<Apdu>
    var segmentSize: nat
    var segmentCount: nat
    var retryCount: nat
    var segmentRetryCount: nat
    var sentAllSegments: bool
    var lastSequenceNumber: byte
    var initialSequenceNumber: byte
    var actualWindowSize: Option<byte>
    var maxSegmentsAccepted: Option<nat>
    var maxApduLengthAccepted: nat
    var segmentedResponseAccepted: bool
    /** Everything this transaction has handed to the network and to the application. */
    ghost var trace: seq<Effect>

    constructor (sap: ApplicationServiceAccessPoint, address: Address)
      ensures ssmSAP == sap && pduAddress == address && config == sap.config
      ensures Snapshot() == NewSsm(config) && trace == []
    {
      ssmSAP, pduAddress, config := sap, address, sap.config;
      state, invokeID, timer := IDLE, None, None;
      segmentAPDU, segmentSize, segmentCount := None, 0, 0;
      retryCount, segmentRetryCount, sentAllSegments := 0, 0, false;
      lastSequenceNumber, initialSequenceNumber, actualWindowSize := 0, 0, None;
      maxSegmentsAccepted, maxApduLengthAccepted := sap.config.maxSegmentsAccepted, sap.config.maxApduLengthAccepted;
      segmentedResponseAccepted := false;
      trace := [];
    }

    function Snapshot(): Ssm
      reads this
    {
      Ssm(state, invokeID, timer, segmentAPDU, segmentSize, segmentCount, retryCount, segmentRetryCount,
          sentAllSegments, lastSequenceNumber, initialSequenceNumber, actualWindowSize,
          maxSegmentsAccepted, maxApduLengthAccepted, segmentedResponseAccepted)
    }

    predicate Finished()
      reads this
    {
      state == COMPLETED || state == ABORTED
    }

    /** A handler has done what its outcome says, and a finished transaction has left the list. */
    twostate predicate Did(o: Outcome, raised: bool)
      reads this, ssmSAP
    {
      && Snapshot() == o.ssm && trace == old(trace) + o.out && raised == o.raised
      && ssmSAP.serverTransactions ==
         if Finished() then Without(old(ssmSAP.serverTransactions), this) else old(ssmSAP.serverTransactions)
    }

    method StartTimer(msecs: nat)
      modifies this`timer
      ensures timer == Some(msecs)
    {
      timer := Some(msecs);
    }

    method StopTimer()
      modifies this`timer
      ensures timer == None
    {
      timer := None;
    }

    method SetState(newState: State, msecs: nat)
      requires !Finished()
      modifies this`state, this`timer, ssmSAP`serverTransactions
      ensures Did(Outcome(Enter(old(Snapshot()), newState, msecs), [], false), false)
    {
      StopTimer();
      state := newState;
      if msecs != 0 { StartTimer(msecs); }
      if newState == COMPLETED || newState == ABORTED {
        ssmSAP.serverTransactions := Without(ssmSAP.serverTransactions, this);
      }
    }

    /** To the network, which may raise. */
    method Response(apdu: Apdu, sendOk: bool) returns (raised: bool)
      modifies this`trace
      ensures raised == !sendOk && trace == old(trace) + if sendOk then [Down(apdu)] else []
    {
      if sendOk { trace := trace + [Down(apdu)]; }
      raised := !sendOk;
    }

    /** To the application. */
    method Request(apdu: Apdu)
      modifies this`trace
      ensures trace == old(trace) + [Up(apdu)]
    {
      trace := trace + [Up(apdu)];
    }

    method FillWindow(seqNum: byte, sendOk: bool) returns (raised: bool)
      requires !Finished()
      modifies this`sentAllSegments, this`trace
      ensures Did(Segmentation.FillWindow(old(Snapshot()), config, seqNum, sendOk, false), raised)
    {
      if actualWindowSize.None? || actualWindowSize.value == 0 {
        return true;
      }
      var fill := SendWindow(Snapshot(), config, seqNum, actualWindowSize.value, sendOk);
      trace := trace + Downs(fill.sent);
      if fill.last { sentAllSegments := true; }
      raised := fill.raised;
    }

    /** Past an acknowledged segment, the next window is filled and the timer restarts. */
    method SendMore(acked: byte, sendOk: bool) returns (raised: bool)
      requires !Finished()
      modifies this
      ensures Did(SendNextWindow(old(Snapshot()), config, acked, sendOk), raised)
    {
      initialSequenceNumber := (acked + 1) % 256;
      segmentRetryCount := 0;
      raised := FillWindow(initialSequenceNumber, sendOk);
      if !raised { StartTimer(config.segmentTimeout); }
    }

    method Abort(reason: byte) returns (abort: Apdu)
      requires !Finished() && invokeID.Some?
      modifies this`state, this`timer, ssmSAP`serverTransactions
      ensures Did(Outcome(Enter(old(Snapshot()), ABORTED, 0), [], false), false)
      ensures abort == AbortOf(true, old(invokeID.value), reason)
    {
      SetState(ABORTED, 0);
      abort := AbortOf(true, invokeID.value, reason);
    }

    method AbortPeer(reason: byte, sendOk: bool) returns (raised: bool)
      requires !Finished() && invokeID.Some?
      modifies this`state, this`timer, this`trace, ssmSAP`serverTransactions
      ensures Did(Server.AbortToPeer(old(Snapshot()), reason, sendOk), raised)
    {
      var abort := Abort(reason);
      raised := Response(abort, sendOk);
    }

    method AbortBoth(reason: byte, sendOk: bool) returns (raised: bool)
      requires !Finished() && invokeID.Some?
      modifies this`state, this`timer, this`trace, ssmSAP`serverTransactions
      ensures Did(Server.AbortToBoth(old(Snapshot()), reason, sendOk), raised)
    {
      var abort := Abort(reason);
      Request(abort);
      raised := Response(abort, sendOk);
    }

    /** The state changes first, then the last PDU goes out. */
    method Leave(newState: State, apdu: Apdu, sendOk: bool) returns (raised: bool)
      requires !Finished()
      modifies this`state, this`timer, this`trace, ssmSAP`serverTransactions
      ensures Did(Server.SendLast(Enter(old(Snapshot()), newState, 0), apdu, sendOk), raised)
    {
      SetState(newState, 0);
      raised := Response(apdu, sendOk);
    }

    method Idle(apdu: Apdu, sendOk: bool) returns (raised: bool)
      requires !Finished()
      modifies this, ssmSAP`serverTransactions
      ensures Did(Server.Idle(old(Snapshot()), config, ssmSAP.DeviceInfoOf(pduAddress), apdu, sendOk), raised)
    {
      if !apdu.ConfirmedRequest? {
        return true;
      }
      invokeID := Some(apdu.invokeID);
      segmentedResponseAccepted := apdu.sa;
      var claimed := DecodeMaxApduLength(apdu.maxResp);
      if claimed.None? || 8 <= apdu.maxSegs {
        return true;
      }
      maxApduLengthAccepted := Server.AcceptedLength(ssmSAP.DeviceInfoOf(pduAddress), claimed.value);
      maxSegmentsAccepted := DecodeMaxSegments(apdu.maxSegs);
      if apdu.seg {
        raised := OpenRequest(apdu, sendOk);
      } else {
        raised := TakeWhole(apdu);
      }
    }

    method TakeWhole(apdu: Apdu) returns (raised: bool)
      requires !Finished()
      modifies this`state, this`timer, this`trace, ssmSAP`serverTransactions
      ensures Did(Outcome(Enter(old(Snapshot()), AWAIT_RESPONSE, config.applicationTimeout), [Up(apdu)], false), raised)
    {
      SetState(AWAIT_RESPONSE, config.applicationTimeout);
      Request(apdu);
      raised := false;
    }

    method OpenRequest(apdu: Apdu, sendOk: bool) returns (raised: bool)
      requires !Finished() && invokeID.Some? && apdu.ConfirmedRequest?
      modifies this, ssmSAP`serverTransactions
      ensures Did(Server.OpenRequest(old(Snapshot()), config, apdu, sendOk), raised)
    {
      if !config.segmentationSupported.Receives() {
        raised := AbortPeer(SEGMENTATION_NOT_SUPPORTED, sendOk);
        return;
      }
      var window: byte := if apdu.win < config.proposedWindowSize then apdu.win else config.proposedWindowSize;
      EnterRequest(apdu, window);
      raised := Response(SegmentAckOf(false, true, invokeID.value, initialSequenceNumber, window), sendOk);
    }

    method EnterRequest(apdu: Apdu, window: byte)
      requires !Finished()
      modifies this, ssmSAP`serverTransactions
      ensures Did(Outcome(Enter(old(Snapshot()).(segmentAPDU := Some(apdu), actualWindowSize := Some(window),
                                                 lastSequenceNumber := 0, initialSequenceNumber := 0),
                                SEGMENTED_REQUEST, config.segmentTimeout), [], false), false)
    {
      segmentAPDU := Some(apdu);
      actualWindowSize := Some(window);
      lastSequenceNumber, initialSequenceNumber := 0, 0;
      SetState(SEGMENTED_REQUEST, config.segmentTimeout);
    }

    method SegmentedRequest(apdu: Apdu, sendOk: bool) returns (raised: bool)
      requires !Finished() && Server.Receiving(Snapshot())
      modifies this, ssmSAP`serverTransactions
      ensures Did(Server.SegmentedRequest(old(Snapshot()), config, apdu, sendOk), raised)
    {
      if apdu.Abort? {
        raised := Leave(COMPLETED, apdu, sendOk);
      } else if !apdu.ConfirmedRequest? || !apdu.seg {
        raised := AbortBoth(INVALID_APDU_IN_THIS_STATE, sendOk);
      } else if apdu.seqNo != (lastSequenceNumber + 1) % 256 {
        StartTimer(config.segmentTimeout);
        raised := Response(SegmentAckOf(true, true, invokeID.value, initialSequenceNumber, actualWindowSize.value),
            sendOk);
      } else {
        raised := TakeNext(apdu, sendOk);
      }
    }

    method TakeNext(apdu: Apdu, sendOk: bool) returns (raised: bool)
      requires !Finished() && Server.Receiving(Snapshot()) && apdu.ConfirmedRequest?
      requires apdu.seqNo == (lastSequenceNumber + 1) % 256
      modifies this, ssmSAP`serverTransactions
      ensures Did(Server.TakeNext(old(Snapshot()), config, apdu, sendOk), raised)
    {
      segmentAPDU := Some(AppendData(segmentAPDU.value, apdu.data));
      lastSequenceNumber := (lastSequenceNumber + 1) % 256;
      if apdu.mor {
        raised := TakeMiddle(sendOk);
      } else {
        raised := TakeLast(sendOk);
      }
    }

    method TakeLast(sendOk: bool) returns (raised: bool)
      requires !Finished() && Server.Receiving(Snapshot())
      modifies this`state, this`timer, this`trace, ssmSAP`serverTransactions
      ensures Did(Server.TakeLast(old(Snapshot()), config, sendOk), raised)
    {
      raised := Response(SegmentAckOf(false, true, invokeID.value, lastSequenceNumber, actualWindowSize.value), sendOk);
      if !raised {
        SetState(AWAIT_RESPONSE, config.applicationTimeout);
        Request(segmentAPDU.value);
      }
    }

    method TakeMiddle(sendOk: bool) returns (raised: bool)
      requires !Finished() && Server.Receiving(Snapshot())
      modifies this`initialSequenceNumber, this`timer, this`trace
      ensures Did(Server.TakeMiddle(old(Snapshot()), config, sendOk), raised)
    {
      raised := false;
      StartTimer(config.segmentTimeout);
      if lastSequenceNumber == (initialSequenceNumber + actualWindowSize.value) % 256 {
        initialSequenceNumber := lastSequenceNumber;
        raised := Response(SegmentAckOf(false, true, invokeID.value, lastSequenceNumber, actualWindowSize.value),
            sendOk);
      }
    }

    method AwaitResponse(apdu: Apdu) returns (raised: bool)
      requires !Finished()
      modifies this, ssmSAP`serverTransactions
      ensures Did(Server.AwaitResponse(old(Snapshot()), apdu), raised)
    {
      raised := false;
      match apdu {
        case ConfirmedRequest(_, _, _, _, _, _, _, _, _, _) =>
        case Abort(_, _, _, _) =>
          SetState(ABORTED, 0);
          Request(apdu);
        case _ => raised := true;
      }
    }

    method Confirmation(apdu: Apdu, sendOk: bool) returns (raised: bool)
      requires !Finished() && invokeID.Some?
      modifies this, ssmSAP`serverTransactions
      ensures Did(Server.Confirmation(old(Snapshot()), config, ssmSAP.DeviceInfoOf(pduAddress), apdu, sendOk), raised)
    {
      match apdu {
        case Abort(_, _, _, _) => raised := Leave(ABORTED, apdu, sendOk);
        case SimpleAck(_, _, _) => raised := Leave(COMPLETED, apdu, sendOk);
        case ErrorAck(_, _, _) => raised := Leave(COMPLETED, apdu, sendOk);
        case Reject(_, _, _) => raised := Leave(COMPLETED, apdu, sendOk);
        case ComplexAck(_, _, _, _, _, _, _) => raised := Answer(apdu, sendOk);
        case _ => raised := true;
      }
    }

    method Answer(apdu: Apdu, sendOk: bool) returns (raised: bool)
      requires !Finished() && invokeID.Some? && apdu.ComplexAck?
      modifies this, ssmSAP`serverTransactions
      ensures Did(Server.Confirmation(old(Snapshot()), config, ssmSAP.DeviceInfoOf(pduAddress), apdu, sendOk), raised)
    {
      segmentAPDU := Some(apdu);
      segmentSize := Server.ResponseSegmentSize(Snapshot(), ssmSAP.DeviceInfoOf(pduAddress));
      if apdu.data == [] {
        segmentCount := 1;
      } else if segmentSize == 0 {
        return true;
      } else {
        segmentCount := CountSegments(|apdu.data|, segmentSize);
      }
      raised := AnswerCut(apdu, sendOk);
    }

    method AnswerCut(apdu: Apdu, sendOk: bool) returns (raised: bool)
      requires !Finished() && invokeID.Some? && apdu.ComplexAck?
      modifies this, ssmSAP`serverTransactions
      ensures Did(Server.AnswerCut(old(Snapshot()), config, apdu, sendOk), raised)
    {
      var refusal := Server.Refusal(Snapshot(), config, segmentCount);
      if refusal.Some? {
        raised := AbortPeer(refusal.value, sendOk);
        return;
      }
      segmentRetryCount, initialSequenceNumber, actualWindowSize := 0, 0, None;
      if segmentCount == 1 {
        raised := AnswerWhole(apdu, sendOk);
      } else {
        raised := AnswerFirst(sendOk);
      }
    }

    method AnswerWhole(apdu: Apdu, sendOk: bool) returns (raised: bool)
      requires !Finished() && apdu.ComplexAck?
      modifies this, ssmSAP`serverTransactions
      ensures Did(Server.AnswerWhole(old(Snapshot()), apdu, sendOk), raised)
    {
      var whole := ComplexAck(false, false, apdu.invokeID, apdu.seqNo, apdu.win, apdu.service, apdu.data);
      segmentAPDU := Some(whole);
      raised := Response(whole, sendOk);
      if !raised { SetState(COMPLETED, 0); }
    }

    method AnswerFirst(sendOk: bool) returns (raised: bool)
      requires !Finished()
      modifies this, ssmSAP`serverTransactions
      ensures Did(Server.AnswerFirst(old(Snapshot()), config, sendOk), raised)
    {
      var first := GetSegment(Snapshot(), config, 0);
      if first.None? {
        return true;
      }
      raised := Response(first.value, sendOk);
      if !raised { SetState(SEGMENTED_RESPONSE, config.segmentTimeout); }
    }

    method SegmentedResponse(apdu: Apdu, sendOk: bool) returns (raised: bool)
      requires !Finished()
      modifies this, ssmSAP`serverTransactions
      ensures Did(Server.SegmentedResponse(old(Snapshot()), config, apdu, sendOk), raised)
    {
      raised := false;
      match apdu {
        case SegmentAck(_, _, _, _, _, _) =>
          actualWindowSize := Some(apdu.win);
          if apdu.win == 0 {
            raised := true;
          } else if !InWindow(apdu.seqNo, initialSequenceNumber, apdu.win) {
            StartTimer(config.segmentTimeout);
          } else if sentAllSegments {
            SetState(COMPLETED, 0);
          } else {
            raised := SendMore(apdu.seqNo, sendOk);
          }
        case Abort(_, _, _, _) => raised := Leave(COMPLETED, apdu, sendOk);
        case _ => raised := true;
      }
    }

    method ResendFirst(sendOk: bool) returns (raised: bool)
      requires !Finished()
      modifies this`trace
      ensures Did(Server.ResendFirst(old(Snapshot()), config, sendOk), raised)
    {
      var first := GetSegment(Snapshot(), config, 0);
      if first.None? {
        return true;
      }
      raised := Response(first.value, sendOk);
    }

    method SegmentedResponseTimeout(sendOk: bool) returns (raised: bool)
      requires !Finished()
      modifies this, ssmSAP`serverTransactions
      ensures Did(Server.SegmentedResponseTimeout(old(Snapshot()), config, sendOk), raised)
    {
      raised := false;
      if segmentRetryCount < config.numberOfApduRetries {
        segmentRetryCount := segmentRetryCount + 1;
        StartTimer(config.segmentTimeout);
        if initialSequenceNumber == 0 {
          raised := ResendFirst(sendOk);
        } else {
          raised := FillWindow(initialSequenceNumber, sendOk);
        }
      } else {
        SetState(ABORTED, 0);
      }
    }

    method Indication(apdu: Apdu, sendOk: bool) returns (raised: bool)
      requires !Finished() && Server.Running(Snapshot())
      modifies this, ssmSAP`serverTransactions
      ensures Did(Server.Indication(old(Snapshot()), config, ssmSAP.DeviceInfoOf(pduAddress), apdu, sendOk), raised)
    {
      match state {
        case IDLE => raised := Idle(apdu, sendOk);
        case SEGMENTED_REQUEST => raised := SegmentedRequest(apdu, sendOk);
        case AWAIT_RESPONSE => raised := AwaitResponse(apdu);
        case SEGMENTED_RESPONSE => raised := SegmentedResponse(apdu, sendOk);
        case _ => raised := false;
      }
    }

    method TimerExpired(sendOk: bool) returns (raised: bool)
      requires !Finished() && Server.Running(Snapshot())
      modifies this, ssmSAP`serverTransactions
      ensures Did(Server.TimerExpired(old(Snapshot()), config, sendOk), raised)
    {
      StopTimer();
      raised := false;
      match state {
        case SEGMENTED_REQUEST => SetState(ABORTED, 0);
        case AWAIT_RESPONSE =>
          var abort := Abort(SERVER_TIMEOUT);
          Request(abort);
        case SEGMENTED_RESPONSE => raised := SegmentedResponseTimeout(sendOk);
        case _ => raised := true;
      }
    }
  }

  // ----- what the access point's invariant needs of the handlers

  lemma FirstForwarded(a: seq<Effect>)
    requires a != []
    ensures Life.Forwarded(a) == (if a[0].Up? && !a[0].apdu.Abort? then [a[0].apdu] else []) + Life.Forwarded(a[1..])
  {
  }

  lemma {:induction false} ForwardedJoin(a: seq<Effect>, b: seq<Effect>)
    ensures Life.Forwarded(a + b) == Life.Forwarded(a) + Life.Forwarded(b)
    decreases |a|
  {
    if a == [] {
      assert a + b == b;
    } else {
      ForwardedJoin(a[1..], b);
      FirstForwarded(a);
      FirstForwarded(a + b);
      assert (a + b)[0] == a[0] && (a + b)[1..] == a[1..] + b;
    }
  }

  lemma ServerKeepsID(s: Ssm, c: Config, info: Option<DeviceInfo>, apdu: Apdu, sendOk: bool)
    requires Server.Running(s)
    ensures var o := Server.Indication(s, c, info, apdu, sendOk);
      o.ssm.invokeID == if s.state == IDLE && apdu.ConfirmedRequest? then Some(apdu.invokeID) else s.invokeID
  {
  }

  lemma AnswerKeepsID(s: Ssm, c: Config, info: Option<DeviceInfo>, apdu: Apdu, sendOk: bool)
    requires s.invokeID.Some?
    ensures Server.Confirmation(s, c, info, apdu, sendOk).ssm.invokeID == s.invokeID
  {
  }

  lemma TimerKeepsID(s: Ssm, c: Config, sendOk: bool)
    requires Server.Running(s)
    ensures Server.TimerExpired(s, c, sendOk).ssm.invokeID == s.invokeID
  {
  }

  /** A client handler leaves a machine that the next handler can run on. */
  predicate ClientRuns(o: Outcome) {
    o.ssm.Finished() || Client.Running(o.ssm)
  }

  lemma ClientStartRuns(s: Ssm, c: Config, info: Option<DeviceInfo>, apdu: Apdu, sendOk: bool)
    requires s.state != SEGMENTED_CONFIRMATION && (apdu.ConfirmedRequest? || Client.Running(s))
    ensures ClientRuns(Client.Indication(s, c, info, apdu, sendOk))
  {
  }

  lemma ClientRequestRuns(s: Ssm, c: Config, apdu: Apdu, sendOk: bool)
    requires Client.Running(s) && s.state == SEGMENTED_REQUEST
    ensures ClientRuns(Client.SegmentedRequest(s, c, apdu, sendOk))
  {
  }

  lemma ClientAnswerRuns(s: Ssm, c: Config, apdu: Apdu, sendOk: bool)
    requires Client.Running(s) && s.state == SEGMENTED_CONFIRMATION
    ensures ClientRuns(Client.SegmentedConfirmation(s, c, apdu, sendOk))
  {
  }

  lemma ClientConfirmationRuns(s: Ssm, c: Config, apdu: Apdu, sendOk: bool)
    requires Client.Running(s)
    ensures ClientRuns(Client.Confirmation(s, c, apdu, sendOk))
  {
    match s.state {
      case SEGMENTED_REQUEST => ClientRequestRuns(s, c, apdu, sendOk);
      case SEGMENTED_CONFIRMATION => ClientAnswerRuns(s, c, apdu, sendOk);
      case _ =>
    }
  }

  lemma ClientAgainRuns(s: Ssm, c: Config, info: Option<DeviceInfo>, retries: nat, sendOk: bool)
    requires Client.Running(s) && s.state == AWAIT_CONFIRMATION
    ensures ClientRuns(Client.StartAgain(s, c, info, retries, sendOk))
  {
    ClientStartRuns(s.(retryCount := retries), c, info, s.segmentAPDU.value, sendOk);
  }

  lemma SameRuns(o: Outcome, same: Outcome)
    requires ClientRuns(o) && o == same
    ensures ClientRuns(same)
  {
  }

  lemma ClientGivesUpRuns(s: Ssm, c: Config, info: Option<DeviceInfo>, sendOk: bool)
    requires Client.Running(s) && s.state == AWAIT_CONFIRMATION && c.numberOfApduRetries <= s.retryCount
    ensures ClientRuns(Client.AwaitConfirmationTimeout(s, c, info, sendOk))
  {
  }

  lemma ClientTimeoutRuns(s: Ssm, c: Config, info: Option<DeviceInfo>, sendOk: bool)
    requires Client.Running(s) && s.state == AWAIT_CONFIRMATION
    ensures ClientRuns(Client.AwaitConfirmationTimeout(s, c, info, sendOk))
  {
    if s.retryCount < c.numberOfApduRetries {
      var again := Client.StartAgain(s, c, info, s.retryCount + 1, sendOk);
      ClientAgainRuns(s, c, info, s.retryCount + 1, sendOk);
      Client.TimeoutStartsAgain(s, c, info, sendOk);
      SameRuns(again, Client.AwaitConfirmationTimeout(s, c, info, sendOk));
    } else {
      ClientGivesUpRuns(s, c, info, sendOk);
    }
  }

  lemma ClientTimerRuns(s: Ssm, c: Config, info: Option<DeviceInfo>, sendOk: bool)
    requires Client.Running(s)
    ensures ClientRuns(Client.TimerExpired(s, c, info, sendOk))
  {
    if s.state == AWAIT_CONFIRMATION { ClientTimeoutRuns(s.(timer := None), c, info, sendOk); }
  }

  lemma {:induction false} WithoutRemoves<T>(list: seq<T>, x: T)
    requires Distinct(list)
    ensures Distinct(Without(list, x)) && x !in Without(list, x)
    ensures forall y :: y in Without(list, x) <==> y in list && y != x
    decreases |list|
  {
    if list != [] && list[0] != x {
      assert forall i, j :: 0 <= i < j < |list[1..]| ==> list[1..][i] == list[i + 1] && list[1..][j] == list[j + 1];
      WithoutRemoves(list[1..], x);
      var rest := Without(list[1..], x);
      assert Without(list, x) == [list[0]] + rest;
      assert list == [list[0]] + list[1..];
      assert list[0] !in list[1..];
    } else if list != [] {
      assert list == [list[0]] + list[1..];
    }
  }

  class ApplicationServiceAccessPoint {
    const config: Config
    const deviceInfoCache: map<Address, DeviceInfo>
    var clientTransactions: seq<ClientSSM>
    var serverTransactions: seq<ServerSSM>
    /** Every transaction there has ever been. */
    ghost var clients: set<ClientSSM>
    ghost var servers: set<ServerSSM>

    constructor (config: Config, deviceInfoCache: map<Address, DeviceInfo>)
      ensures Valid() && this.config == config && this.deviceInfoCache == deviceInfoCache
      ensures clientTransactions == [] && serverTransactions == [] && clients == {} && servers == {}
    {
      this.config, this.deviceInfoCache := config, deviceInfoCache;
      clientTransactions, serverTransactions, clients, servers := [], [], {}, {};
    }

    function DeviceInfoOf(address: Address): Option<DeviceInfo> {
      if address in deviceInfoCache then Some(deviceInfoCache[address]) else None
    }

    /** The client list holds exactly the unfinished transactions, each once. */
    ghost predicate ClientsListed()
      reads this, clients
    {
      && Distinct(clientTransactions)
      && (forall t :: t in clientTransactions ==> t in clients)
      && (forall t :: t in clients ==> (t in clientTransactions <==> !t.Finished()))
      && (forall t :: t in clients ==> t.ssmSAP == this && t.config == config)
    }

    ghost predicate ClientsOk()
      reads this, clients
    {
      ClientsListed() && forall t :: t in clients ==> t.Finished() || Client.Running(t.Snapshot())
    }

    /** So does the server list, and no transaction has forwarded more than one request. */
    ghost predicate ServersListed()
      reads this, servers
    {
      && Distinct(serverTransactions)
      && (forall t :: t in serverTransactions ==> t in servers)
      && (forall t :: t in servers ==> (t in serverTransactions <==> !t.Finished()))
      && (forall t :: t in servers ==> t.ssmSAP == this && t.config == config && OneRequest(t))
    }

    /** At most one live server transaction for each peer and invoke ID. */
    ghost predicate ServersOk()
      reads this, servers
    {
      && ServersListed()
      && (forall t, u :: t in serverTransactions && u in serverTransactions && t != u ==> !SameRequest(t, u))
    }

    ghost predicate OneRequest(t: ServerSSM)
      reads t
    {
      Life.Inv(Life.Life(t.Snapshot(), Life.Forwarded(t.trace)))
    }

    predicate SameRequest(t: ServerSSM, u: ServerSSM)
      reads t, u
    {
      t.pduAddress == u.pduAddress && t.invokeID == u.invokeID
    }

    ghost predicate Valid()
      reads this, clients, servers
    {
      ClientsOk() && ServersOk()
    }

    /** The first transaction in the list that matches, as the for loops with a break find it. */
    method FindServer(id: byte, address: Address) returns (tr: ServerSSM?)
      ensures tr == null ==> forall t :: t in serverTransactions ==> !ServerMatches(t, id, address)
      ensures tr != null ==> tr in serverTransactions && ServerMatches(tr, id, address)
    {
      var i := 0;
      while i < |serverTransactions|
        invariant 0 <= i <= |serverTransactions|
        invariant forall k :: 0 <= k < i ==> !ServerMatches(serverTransactions[k], id, address)
      {
        if serverTransactions[i].invokeID == Some(id) && serverTransactions[i].pduAddress == address {
          return serverTransactions[i];
        }
        i := i + 1;
      }
      tr := null;
    }

    method FindClient(id: byte, address: Address) returns (tr: ClientSSM?)
      ensures tr == null ==> forall t :: t in clientTransactions ==> !ClientMatches(t, id, address)
      ensures tr != null ==> tr in clientTransactions && ClientMatches(tr, id, address)
    {
      var i := 0;
      while i < |clientTransactions|
        invariant 0 <= i <= |clientTransactions|
        invariant forall k :: 0 <= k < i ==> !ClientMatches(clientTransactions[k], id, address)
      {
        if clientTransactions[i].invokeID == Some(id) && clientTransactions[i].pduAddress == address {
          return clientTransactions[i];
        }
        i := i + 1;
      }
      tr := null;
    }

    /** One server transaction has run a handler and nothing else has changed. */
    twostate predicate ServerRan(t: ServerSSM, o: Outcome, raised: bool)
      reads this, t
    {
      && t.Snapshot() == o.ssm && t.trace == old(t.trace) + o.out && raised == o.raised
      && servers == old(servers) && clients == old(clients) && clientTransactions == old(clientTransactions)
      && serverTransactions == if t.Finished() then Without(old(serverTransactions), t) else old(serverTransactions)
    }

    /** One client transaction has run a handler and nothing else has changed. */
    twostate predicate ClientRan(t: ClientSSM, o: Outcome, raised: bool)
      reads this, t
    {
      && t.Snapshot() == o.ssm && t.trace == old(t.trace) + o.out && raised == o.raised
      && servers == old(servers) && clients == old(clients) && serverTransactions == old(serverTransactions)
      && clientTransactions == if t.Finished() then Without(old(clientTransactions), t) else old(clientTransactions)
    }

    /** What holds of all the server transactions but one, when that one has the given invoke ID. */
    ghost predicate OthersOk(t: ServerSSM, id: Option<byte>, list: seq<ServerSSM>, all: set<ServerSSM>)
      reads all - {t}
    {
      && Distinct(list) && t in list && t in all && t.ssmSAP == this && t.config == config
      && (forall u :: u in list ==> u in all)
      && (forall u :: u in all - {t} ==> (u in list <==> !u.Finished()))
      && (forall u :: u in all - {t} ==> u.ssmSAP == this && u.config == config && OneRequest(u))
      && (forall u, v :: u in list && v in list && u != v && u in all - {t} && v in all - {t} ==> !SameRequest(u, v))
      && (forall u :: u in list && u in all - {t} ==> !(u.pduAddress == t.pduAddress && u.invokeID == id))
    }

    lemma Before(t: ServerSSM)
      requires ServersOk() && t in serverTransactions
      ensures OthersOk(t, t.invokeID, serverTransactions, servers) && !t.Finished() && OneRequest(t)
    {
    }

    lemma After(t: ServerSSM, list: seq<ServerSSM>)
      requires OthersOk(t, t.invokeID, list, servers) && OneRequest(t)
      requires serverTransactions == if t.Finished() then Without(list, t) else list
      ensures ServersOk()
    {
      WithoutRemoves(list, t);
    }

    /** The same for the client transactions. */
    ghost predicate OtherClientsOk(t: ClientSSM, list: seq<ClientSSM>, all: set<ClientSSM>)
      reads all - {t}
    {
      && Distinct(list) && t in list && t in all && t.ssmSAP == this && t.config == config
      && (forall u :: u in list ==> u in all)
      && (forall u :: u in all - {t} ==> (u in list <==> !u.Finished()))
      && (forall u :: u in all - {t} ==> u.ssmSAP == this && u.config == config)
      && (forall u :: u in all - {t} ==> u.Finished() || Client.Running(u.Snapshot()))
    }

    lemma BeforeClient(t: ClientSSM)
      requires ClientsOk() && t in clientTransactions
      ensures OtherClientsOk(t, clientTransactions, clients) && !t.Finished() && Client.Running(t.Snapshot())
    {
    }

    lemma AfterClient(t: ClientSSM, list: seq<ClientSSM>, o: Outcome)
      requires OtherClientsOk(t, list, clients) && t.Snapshot() == o.ssm && ClientRuns(o)
      requires clientTransactions == if t.Finished() then Without(list, t) else list
      ensures ClientsOk()
    {
      WithoutRemoves(list, t);
    }

    /** One more step of a transaction that has forwarded at most one request. */
    lemma StillOneRequest(t: ServerSSM, s: Ssm, trace: seq<Effect>, o: Outcome)
      requires Life.Inv(Life.Life(s, Life.Forwarded(trace))) && Life.Good(s, o)
      requires t.Snapshot() == o.ssm && t.trace == trace + o.out
      ensures OneRequest(t)
    {
      ForwardedJoin(trace, o.out);
    }

    // ----- one transaction runs: the lists stay exact

    method RunServer(t: ServerSSM, apdu: Apdu, sendOk: bool) returns (raised: bool)
      requires Valid() && t in serverTransactions
      requires apdu.ConfirmedRequest? ==> t.invokeID == Some(apdu.invokeID)
      modifies this`serverTransactions, t
      ensures Valid()
      ensures ServerRan(t, Server.Indication(old(t.Snapshot()), config, DeviceInfoOf(t.pduAddress), apdu, sendOk),
          raised)
    {
      Before(t);
      ghost var s := t.Snapshot();
      ghost var o := Server.Indication(s, config, DeviceInfoOf(t.pduAddress), apdu, sendOk);
      Life.IndicationGood(s, config, DeviceInfoOf(t.pduAddress), apdu, sendOk);
      ServerKeepsID(s, config, DeviceInfoOf(t.pduAddress), apdu, sendOk);
      raised := t.Indication(apdu, sendOk);
      StillOneRequest(t, s, old(t.trace), o);
      After(t, old(serverTransactions));
    }

    method RunClient(t: ClientSSM, apdu: Apdu, sendOk: bool) returns (raised: bool)
      requires Valid() && t in clientTransactions
      modifies this`clientTransactions, t
      ensures Valid()
      ensures ClientRan(t, Client.Confirmation(old(t.Snapshot()), config, apdu, sendOk), raised)
    {
      BeforeClient(t);
      ghost var o := Client.Confirmation(t.Snapshot(), config, apdu, sendOk);
      ClientConfirmationRuns(t.Snapshot(), config, apdu, sendOk);
      raised := t.Confirmation(apdu, sendOk);
      AfterClient(t, old(clientTransactions), o);
    }

    /** A transaction that cannot go on. */
    lemma Spoiled(t: ServerSSM)
      requires t in servers && !t.Finished() && !Server.Running(t.Snapshot())
      ensures !ServersOk()
    {
      assert !OneRequest(t);
    }

    lemma Answered(t: ServerSSM, s: Ssm, trace: seq<Effect>, apdu: Apdu, sendOk: bool, list: seq<ServerSSM>)
      requires Life.Inv(Life.Life(s, Life.Forwarded(trace))) && s.invokeID.Some? && Server.Running(s) && t in servers
      requires var o := Server.Confirmation(s, config, DeviceInfoOf(t.pduAddress), apdu, sendOk);
        t.Snapshot() == o.ssm && t.trace == trace + o.out
      requires OthersOk(t, t.invokeID, list, servers)
      requires serverTransactions == if t.Finished() then Without(list, t) else list
      ensures ServersOk() <==> !Life.Spoils(s, config, DeviceInfoOf(t.pduAddress), apdu, sendOk)
    {
      Life.SpoilsExactly(s, config, DeviceInfoOf(t.pduAddress), apdu, sendOk);
      if Life.Spoils(s, config, DeviceInfoOf(t.pduAddress), apdu, sendOk) {
        Spoiled(t);
      } else {
        Life.ConfirmationGood(s, config, DeviceInfoOf(t.pduAddress), apdu, sendOk);
        StillOneRequest(t, s, trace, Server.Confirmation(s, config, DeviceInfoOf(t.pduAddress), apdu, sendOk));
        After(t, list);
      }
    }

    method AnswerServer(t: ServerSSM, apdu: Apdu, sendOk: bool) returns (raised: bool)
      requires Valid() && t in serverTransactions && t.invokeID.Some?
      modifies this`serverTransactions, t
      ensures ClientsOk()
      ensures ServersOk() <==> !Life.Spoils(old(t.Snapshot()), config, DeviceInfoOf(t.pduAddress), apdu, sendOk)
      ensures ServerRan(t, Server.Confirmation(old(t.Snapshot()), config, DeviceInfoOf(t.pduAddress), apdu, sendOk),
          raised)
    {
      Before(t);
      ghost var s, trace, list := t.Snapshot(), t.trace, serverTransactions;
      AnswerKeepsID(s, config, DeviceInfoOf(t.pduAddress), apdu, sendOk);
      raised := t.Confirmation(apdu, sendOk);
      Answered(t, s, trace, apdu, sendOk, list);
    }

    method ServerTimerExpired(t: ServerSSM, sendOk: bool) returns (raised: bool)
      requires Valid() && t in serverTransactions
      modifies this`serverTransactions, t
      ensures Valid()
      ensures ServerRan(t, Server.TimerExpired(old(t.Snapshot()), config, sendOk), raised)
    {
      Before(t);
      ghost var s := t.Snapshot();
      ghost var o := Server.TimerExpired(s, config, sendOk);
      Life.TimerGood(s, config, sendOk);
      TimerKeepsID(s, config, sendOk);
      raised := t.TimerExpired(sendOk);
      StillOneRequest(t, s, old(t.trace), o);
      After(t, old(serverTransactions));
    }

    method ClientTimerExpired(t: ClientSSM, sendOk: bool) returns (raised: bool)
      requires Valid() && t in clientTransactions
      modifies this`clientTransactions, t
      ensures Valid()
      ensures ClientRan(t, Client.TimerExpired(old(t.Snapshot()), config, DeviceInfoOf(t.pduAddress), sendOk), raised)
    {
      BeforeClient(t);
      ghost var o := Client.TimerExpired(t.Snapshot(), config, DeviceInfoOf(t.pduAddress), sendOk);
      ClientTimerRuns(t.Snapshot(), config, DeviceInfoOf(t.pduAddress), sendOk);
      raised := t.TimerExpired(sendOk);
      AfterClient(t, old(clientTransactions), o);
    }

    // ----- new transactions

    predicate ServerMatches(t: ServerSSM, id: byte, address: Address)
      reads t
    {
      t.invokeID == Some(id) && t.pduAddress == address
    }

    predicate ClientMatches(t: ClientSSM, id: byte, address: Address)
      reads t
    {
      t.invokeID == Some(id) && t.pduAddress == address
    }

    /** A new transaction is listed before it runs. */
    lemma Newcomer(t: ServerSSM, id: byte, source: Address, list: seq<ServerSSM>, all: set<ServerSSM>)
      requires Distinct(list) && (forall u :: u in list ==> u in all) && t !in all
      requires forall u :: u in all ==> (u in list <==> !u.Finished()) && u.ssmSAP == this && u.config == config
                                        && OneRequest(u)
      requires forall u, v :: u in list && v in list && u != v ==> !SameRequest(u, v)
      requires t.ssmSAP == this && t.config == config && t.pduAddress == source
      requires forall u :: u in list ==> !ServerMatches(u, id, source)
      ensures OthersOk(t, Some(id), list + [t], all + {t})
    {
      assert (all + {t}) - {t} == all;
    }

    method ListServer(source: Address, id: byte) returns (t: ServerSSM)
      requires Valid() && forall u :: u in serverTransactions ==> !ServerMatches(u, id, source)
      modifies this`serverTransactions, this`servers
      ensures fresh(t) && t.pduAddress == source && t.Snapshot() == NewSsm(config) && t.trace == []
      ensures ClientsOk() && OneRequest(t) && OthersOk(t, Some(id), serverTransactions, servers)
      ensures serverTransactions == old(serverTransactions) + [t] && servers == old(servers) + {t}
    {
      t := new ServerSSM(this, source);
      Newcomer(t, id, source, serverTransactions, servers);
      serverTransactions := serverTransactions + [t];
      servers := servers + {t};
    }

    /** A new server transaction that has been listed takes the request that opened it. */
    method StartServer(t: ServerSSM, apdu: Apdu, sendOk: bool) returns (raised: bool)
      requires ClientsOk() && OneRequest(t) && apdu.ConfirmedRequest?
      requires OthersOk(t, Some(apdu.invokeID), serverTransactions, servers)
      requires t.Snapshot() == NewSsm(config) && t.trace == []
      modifies this`serverTransactions, t
      ensures Valid()
      ensures var o := Server.Indication(NewSsm(config), config, DeviceInfoOf(t.pduAddress), apdu, sendOk);
        t.Snapshot() == o.ssm && t.trace == o.out && raised == o.raised
    {
      ghost var s := NewSsm(config);
      ghost var list := serverTransactions;
      ghost var o := Server.Indication(s, config, DeviceInfoOf(t.pduAddress), apdu, sendOk);
      Life.IndicationGood(s, config, DeviceInfoOf(t.pduAddress), apdu, sendOk);
      ServerKeepsID(s, config, DeviceInfoOf(t.pduAddress), apdu, sendOk);
      raised := t.Indication(apdu, sendOk);
      assert t.trace == o.out && [] + o.out == o.out;
      StillOneRequest(t, s, [], o);
      After(t, list);
    }

    method OpenServer(apdu: Apdu, source: Address, sendOk: bool) returns (t: ServerSSM, raised: bool)
      requires Valid() && apdu.ConfirmedRequest?
      requires forall u :: u in serverTransactions ==> !ServerMatches(u, apdu.invokeID, source)
      modifies this`serverTransactions, this`servers
      ensures Valid() && fresh(t) && t.pduAddress == source && servers == old(servers) + {t}
      ensures var o := Server.Indication(NewSsm(config), config, DeviceInfoOf(source), apdu, sendOk);
        t.Snapshot() == o.ssm && t.trace == o.out && raised == o.raised
    {
      t := ListServer(source, apdu.invokeID);
      raised := StartServer(t, apdu, sendOk);
    }

    method ListClient(destination: Address) returns (t: ClientSSM)
      requires Valid()
      modifies this`clientTransactions, this`clients
      ensures fresh(t) && t.pduAddress == destination && t.Snapshot() == NewSsm(config) && t.trace == []
      ensures ServersOk() && OtherClientsOk(t, clientTransactions, clients)
      ensures clientTransactions == old(clientTransactions) + [t] && clients == old(clients) + {t}
    {
      t := new ClientSSM(this, destination);
      clientTransactions := clientTransactions + [t];
      clients := clients + {t};
    }

    /** A new client transaction that has been listed begins its request. */
    method StartClient(t: ClientSSM, apdu: Apdu, sendOk: bool) returns (raised: bool)
      requires ServersOk() && OtherClientsOk(t, clientTransactions, clients) && apdu.ConfirmedRequest?
      requires t.Snapshot() == NewSsm(config) && t.trace == []
      modifies this`clientTransactions, t
      ensures Valid()
      ensures var o := Client.Indication(NewSsm(config), config, DeviceInfoOf(t.pduAddress), apdu, sendOk);
        t.Snapshot() == o.ssm && t.trace == o.out && raised == o.raised
    {
      ghost var list := clientTransactions;
      ghost var o := Client.Indication(NewSsm(config), config, DeviceInfoOf(t.pduAddress), apdu, sendOk);
      ClientStartRuns(NewSsm(config), config, DeviceInfoOf(t.pduAddress), apdu, sendOk);
      raised := t.Indication(apdu, sendOk);
      assert [] + o.out == o.out;
      AfterClient(t, list, o);
    }

    method OpenClient(apdu: Apdu, destination: Address, sendOk: bool) returns (t: ClientSSM, raised: bool)
      requires Valid() && apdu.ConfirmedRequest?
      modifies this`clientTransactions, this`clients
      ensures Valid() && fresh(t) && t.pduAddress == destination && clients == old(clients) + {t}
      ensures var o := Client.Indication(NewSsm(config), config, DeviceInfoOf(destination), apdu, sendOk);
        t.Snapshot() == o.ssm && t.trace == o.out && raised == o.raised
    {
      t := ListClient(destination);
      raised := StartClient(t, apdu, sendOk);
    }

    // ----- what the network and the application hand in

    /** Nothing has happened to any transaction. */
    twostate predicate Unmoved()
      reads this, clients, servers
    {
      && clientTransactions == old(clientTransactions) && serverTransactions == old(serverTransactions)
      && clients == old(clients) && servers == old(servers)
      && unchanged(clients) && unchanged(servers)
    }

    /** Nothing has happened to any transaction but that one. */
    twostate predicate OnlyMoved(new t: object)
      reads this, clients, servers
    {
      && (forall u :: u in old(clients) && u != t ==> u in clients && unchanged(u))
      && (forall u :: u in old(servers) && u != t ==> u in servers && unchanged(u))
    }

    /** A PDU for a live server transaction goes to the one that matches, if there is one. */
    method ToServer(apdu: Apdu, id: byte, source: Address, sendOk: bool) returns (ghost t: ServerSSM?, raised: bool)
      requires Valid() && !apdu.ConfirmedRequest?
      modifies this`serverTransactions, serverTransactions
      ensures Valid()
      ensures t == null <==> forall u :: u in old(serverTransactions) ==> !old(ServerMatches(u, id, source))
      ensures t == null ==> Unmoved() && !raised
      ensures t != null ==> t in old(serverTransactions) && old(ServerMatches(t, id, source)) && OnlyMoved(t)
      ensures t != null ==>
        ServerRan(t, Server.Indication(old(t.Snapshot()), config, DeviceInfoOf(source), apdu, sendOk), raised)
    {
      var tr := FindServer(id, source);
      t := tr;
      raised := false;
      if tr != null { raised := RunServer(tr, apdu, sendOk); }
    }

    /** A PDU for a client transaction goes to one that matches, if there is one. */
    method ToClient(apdu: Apdu, id: byte, source: Address, sendOk: bool) returns (ghost t: ClientSSM?, raised: bool)
      requires Valid()
      modifies this`clientTransactions, clientTransactions
      ensures Valid()
      ensures t == null <==> forall u :: u in old(clientTransactions) ==> !old(ClientMatches(u, id, source))
      ensures t == null ==> Unmoved() && !raised
      ensures t != null ==> t in old(clientTransactions) && old(ClientMatches(t, id, source)) && OnlyMoved(t)
      ensures t != null ==> ClientRan(t, Client.Confirmation(old(t.Snapshot()), config, apdu, sendOk), raised)
    {
      var tr := FindClient(id, source);
      t := tr;
      raised := false;
      if tr != null { raised := RunClient(tr, apdu, sendOk); }
    }

    /** A confirmed request goes to the one live transaction for its peer and invoke ID, which
        is new when there was none. */
    method RequestToServer(apdu: Apdu, source: Address, sendOk: bool) returns (ghost t: ServerSSM, raised: bool)
      requires Valid() && apdu.ConfirmedRequest?
      modifies this`serverTransactions, this`servers, serverTransactions
      ensures Valid() && OnlyMoved(t) && clients == old(clients)
      ensures fresh(t) <==> forall u :: u in old(serverTransactions) ==> !old(ServerMatches(u, apdu.invokeID, source))
      ensures fresh(t) ==> servers == old(servers) + {t} && t.pduAddress == source
      ensures fresh(t) ==> var o := Server.Indication(NewSsm(config), config, DeviceInfoOf(source), apdu, sendOk);
        t.Snapshot() == o.ssm && t.trace == o.out && raised == o.raised
      ensures !fresh(t) ==> t in old(serverTransactions) && old(ServerMatches(t, apdu.invokeID, source))
      ensures !fresh(t) ==>
        ServerRan(t, Server.Indication(old(t.Snapshot()), config, DeviceInfoOf(source), apdu, sendOk), raised)
    {
      var tr := FindServer(apdu.invokeID, source);
      if tr == null {
        t, raised := OpenServer(apdu, source, sendOk);
      } else {
        t := tr;
        raised := RunServer(tr, apdu, sendOk);
      }
    }

    /** The transaction a PDU from the network is for: a server's, a client's, or none. */
    predicate ForServer(apdu: Apdu) {
      apdu.ConfirmedRequest? || ((apdu.Abort? || apdu.SegmentAck?) && !apdu.srv)
    }

    predicate ForClient(apdu: Apdu) {
      !apdu.UnconfirmedRequest? && !ForServer(apdu)
    }

    /** confirmation, after the PDU has been decoded. */
    method Confirmation(apdu: Apdu, source: Address, sendOk: bool)
      returns (ghost server: ServerSSM?, ghost client: ClientSSM?, up: Option<Apdu>, raised: bool)
      requires Valid()
      modifies this`clientTransactions, this`serverTransactions, this`servers, clientTransactions, serverTransactions
      ensures Valid()
      ensures up == if apdu.UnconfirmedRequest? then Some(apdu) else None
      ensures clients == old(clients)
      ensures server != null ==> ForServer(apdu) && server.pduAddress == source && OnlyMoved(server)
      ensures client != null ==> ForClient(apdu) && client.pduAddress == source && OnlyMoved(client)
      ensures client != null ==> servers == old(servers)
      ensures server == null && client == null ==> Unmoved() && !raised
      ensures apdu.ConfirmedRequest? ==> server != null
      ensures ForServer(apdu) && server == null ==>
        forall u :: u in old(serverTransactions) ==> !old(ServerMatches(u, apdu.invokeID, source))
      ensures ForClient(apdu) && client == null ==>
        forall u :: u in old(clientTransactions) ==> !old(ClientMatches(u, apdu.invokeID, source))
      ensures server != null ==> server in old(serverTransactions) || (fresh(server) && apdu.ConfirmedRequest?)
      ensures server != null && fresh(server) ==>
        && servers == old(servers) + {server}
        && (forall u :: u in old(serverTransactions) ==> !old(ServerMatches(u, apdu.invokeID, source)))
        && var o := Server.Indication(NewSsm(config), config, DeviceInfoOf(source), apdu, sendOk);
          server.Snapshot() == o.ssm && server.trace == o.out && raised == o.raised
      ensures server in old(serverTransactions) ==>
        old(ServerMatches(server, apdu.invokeID, source)) && servers == old(servers)
      ensures server in old(serverTransactions) ==>
        ServerRan(server, Server.Indication(old(server.Snapshot()), config, DeviceInfoOf(source), apdu, sendOk), raised)
      ensures client != null ==>
        client in old(clientTransactions) && old(ClientMatches(client, apdu.invokeID, source))
            && ClientRan(client, Client.Confirmation(old(client.Snapshot()), config, apdu, sendOk), raised)
    {
      server, client, up, raised := null, null, None, false;
      if apdu.ConfirmedRequest? {
        server, raised := RequestToServer(apdu, source, sendOk);
      } else if apdu.UnconfirmedRequest? {
        up := Some(apdu);
      } else if ForServer(apdu) {
        server, raised := ToServer(apdu, apdu.invokeID, source, sendOk);
      } else {
        client, raised := ToClient(apdu, apdu.invokeID, source, sendOk);
      }
    }

    /** sap_indication, for a request already encoded: what goes down at once, and the
        transaction started otherwise. */
    method SapIndication(apdu: Apdu, destination: Address, sendOk: bool)
      returns (ghost t: ClientSSM?, down: Option<Apdu>, raised: bool)
      requires Valid()
      modifies this`clientTransactions, this`clients
      ensures Valid()
      ensures down == if apdu.UnconfirmedRequest? && sendOk then Some(apdu) else None
      ensures t != null <==> apdu.ConfirmedRequest?
      ensures t == null ==> Unmoved() && raised == !apdu.UnconfirmedRequest?
      ensures t != null ==> fresh(t) && t.pduAddress == destination && clients == old(clients) + {t}
      ensures t != null ==> var o := Client.Indication(NewSsm(config), config, DeviceInfoOf(destination), apdu, sendOk);
        t.Snapshot() == o.ssm && t.trace == o.out && raised == o.raised
    {
      t, down, raised := null, None, false;
      if apdu.UnconfirmedRequest? {
        if sendOk { down := Some(apdu); }
      } else if apdu.ConfirmedRequest? {
        t, raised := OpenClient(apdu, destination, sendOk);
      } else {
        raised := true;
      }
    }

    /** What an application may answer. */
    predicate IsAnswer(apdu: Apdu) {
      apdu.SimpleAck? || apdu.ComplexAck? || apdu.ErrorAck? || apdu.Reject? || apdu.Abort?
    }

    /** sap_confirmation: an answer goes to the transaction it matches, or nowhere, and the lists
        and their transactions stay as they should be unless it comes too early and spoils one. */
    method SapConfirmation(apdu: Apdu, destination: Address, sendOk: bool) returns (ghost t: ServerSSM?, raised: bool)
      requires Valid()
      modifies this`serverTransactions, serverTransactions
      ensures !IsAnswer(apdu) ==> t == null && raised
      ensures t == null ==> Valid() && Unmoved()
      ensures IsAnswer(apdu) ==> (t == null <==>
        forall u :: u in old(serverTransactions) ==> !old(ServerMatches(u, apdu.invokeID, destination)))
      ensures t != null ==> t in old(serverTransactions) && old(ServerMatches(t, apdu.invokeID, destination))
                            && OnlyMoved(t)
      ensures t != null ==>
        (Valid() <==> !Life.Spoils(old(t.Snapshot()), config, DeviceInfoOf(destination), apdu, sendOk))
      ensures t != null ==>
        ServerRan(t, Server.Confirmation(old(t.Snapshot()), config, DeviceInfoOf(destination), apdu, sendOk), raised)
    {
      t, raised := null, true;
      if IsAnswer(apdu) {
        var tr := FindServer(apdu.invokeID, destination);
        t := tr;
        raised := false;
        if tr != null { raised := AnswerServer(tr, apdu, sendOk); }
      }
    }
  }
}
