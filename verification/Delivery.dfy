/** A client and a server transaction over a network that loses, repeats and reorders at will:
    whatever was ever sent may arrive at any later time, any number of times, or never.
    Timers fire at any time, and the access point opens a new server transaction whenever
    none is live. What is handed up is then what was sent. */
module Delivery {
  import opened Apdus
  import opened Segmentation
  import opened Pieces
  import Client = ClientSteps
  import Server = ServerSteps

  /** What stays fixed during a transaction: the request, the answer the serving application
      gives, what each side knows of the other, and what follows from that: the sizes and the
      pieces in which both APDUs travel, and the length the server takes the client to accept. */
  datatype Setup = Setup(
    req: Apdu, answer: Apdu, cc: Config, sc: Config, ci: Option<DeviceInfo>, si: Option<DeviceInfo>,
    requestSize: nat, replySize: nat, request: seq<Bytes>, reply: seq<Bytes>, claimedLength: nat)

  /** An APDU handed up, and the number of the segment that opened its receiver. */
  datatype Handed = Handed(openedBy: nat, apdu: Apdu)

  datatype Net = Net(
    client: Ssm, server: Option<Ssm>, toServer: set<Apdu>, toClient: set<Apdu>,
    clientOpenedBy: nat, serverOpenedBy: nat, served: seq<Handed>, results: seq<Handed>)

  datatype Event =
    | ToServer(apdu: Apdu, sendOk: bool)
    | ToClient(apdu: Apdu, sendOk: bool)
    | ClientTimer(sendOk: bool)
    | ServerTimer(sendOk: bool)
    | Answer(apdu: Apdu, sendOk: bool)

  // ----- the setup

  /** At most 256 pieces each way. */
  predicate Shape(p: Setup) {
    && p.req.ConfirmedRequest? && p.answer.ComplexAck?
    && 0 < |p.request| <= 256 && 0 < |p.reply| <= 256
  }

  ghost predicate ValidSetup(p: Setup) {
    && Shape(p)
    && p.requestSize == Client.RequestSegmentSize(p.cc, p.ci) && 0 < p.requestSize
    && IsCut(p.request, p.req.data, p.requestSize)
    && p.claimedLength == ClaimedLength(p.cc, p.si)
    && p.replySize == ReplySize(p.sc, p.si, p.claimedLength) && 0 < p.replySize
    && IsCut(p.reply, p.answer.data, p.replySize)
  }

  /** The length a server takes the client to accept, from what the client's segments say. */
  function ClaimedLength(cc: Config, si: Option<DeviceInfo>): nat {
    var code := EncodeMaxApduLength(cc.maxApduLengthAccepted);
    if code.None? then 0 else Server.AcceptedLength(si, MAX_APDU_LENGTH[code.value])
  }

  function ReplySize(sc: Config, si: Option<DeviceInfo>, claimed: nat): nat {
    Server.ResponseSegmentSize(NewSsm(sc).(maxApduLengthAccepted := claimed), si)
  }

  /** The network may refuse what the receiver of this PDU sends. One that cannot acknowledge the
      last segment keeps its number, so of 256 segments segment 0 would get in again (module
      Limits). */
  predicate MayRefuse(pieces: seq<Bytes>, apdu: Apdu) {
    |pieces| < 256 || !((apdu.ConfirmedRequest? || apdu.ComplexAck?) && apdu.seg && !apdu.mor)
  }

  // ----- the network

  /** The access point's dispatch of an APDU from the client: a request opens a transaction. */
  function ServerTakes(p: Setup, n: Net, apdu: Apdu, sendOk: bool): Net
    requires n.server.Some? ==> Server.Running(n.server.value)
  {
    if n.server.None? && !apdu.ConfirmedRequest? then n
    else
      var s := if n.server.Some? then n.server.value else NewSsm(p.sc);
      ServerRan(n, s, Server.Indication(s, p.sc, p.si, apdu, sendOk), Place(apdu))
  }

  /** The effects of a server handler that ran in state s on a segment of that number. */
  function ServerRan(n: Net, s: Ssm, o: Outcome, seqNo: nat): Net {
    var k := if s.state == IDLE && o.ssm.state != IDLE then seqNo else n.serverOpenedBy;
    n.(server := if o.ssm.Finished() then None else Some(o.ssm),
       toClient := n.toClient + Sent(o.out), serverOpenedBy := k, served := n.served + HandedUp(o.out, k))
  }

  function ClientRan(n: Net, o: Outcome, seqNo: nat): Net {
    var k := if n.client.state != SEGMENTED_CONFIRMATION then seqNo else n.clientOpenedBy;
    n.(client := o.ssm, toServer := n.toServer + Sent(o.out), clientOpenedBy := k,
       results := n.results + HandedUp(o.out, k))
  }

  function Sent(out: seq<Effect>): set<Apdu> {
    set e | e in out && e.Down? :: e.apdu
  }

  function HandedUp(out: seq<Effect>, k: nat): seq<Handed> {
    if out == [] then []
    else (if out[0].Up? then [Handed(k, out[0].apdu)] else []) + HandedUp(out[1..], k)
  }

  /** The number of the segment, 0 for anything that is not one. */
  function Place(apdu: Apdu): nat {
    if (apdu.ConfirmedRequest? || apdu.ComplexAck?) && apdu.seg then apdu.seqNo else 0
  }

  predicate Enabled(p: Setup, n: Net, e: Event)
  {
    match e {
      case ToServer(apdu, ok) =>
        && apdu in n.toServer && (ok || MayRefuse(p.request, apdu))
        && (n.server.Some? ==> Server.Running(n.server.value))
      case ToClient(apdu, ok) =>
        && apdu in n.toClient && (ok || MayRefuse(p.reply, apdu))
        && !n.client.Finished() && Client.Running(n.client)
      case ClientTimer(_) => n.client.timer.Some? && !n.client.Finished() && Client.Running(n.client)
      case ServerTimer(_) => n.server.Some? && Server.Running(n.server.value) && n.server.value.timer.Some?
      case Answer(apdu, _) =>
        && n.server.Some? && n.server.value.state == AWAIT_RESPONSE && n.server.value.invokeID.Some?
        && (apdu.ComplexAck? ==> apdu == p.answer)
    }
  }

  function Apply(p: Setup, n: Net, e: Event): Net
  {
    if !Enabled(p, n, e) then n
    else
      match e
      case ToServer(apdu, ok) => ServerTakes(p, n, apdu, ok)
      case ToClient(apdu, ok) =>
        ClientRan(n, Client.Confirmation(n.client, p.cc, apdu, ok), Place(apdu))
      case ClientTimer(ok) => ClientRan(n, Client.TimerExpired(n.client, p.cc, p.ci, ok), 0)
      case ServerTimer(ok) => ServerRan(n, n.server.value, Server.TimerExpired(n.server.value, p.sc, ok), 0)
      case Answer(apdu, ok) =>
        ServerRan(n, n.server.value, Server.Confirmation(n.server.value, p.sc, p.si, apdu, ok), 0)
  }

  /** The application issues the request. */
  function Begin(p: Setup, sendOk: bool): Net
  {
    ClientRan(Net(NewSsm(p.cc), None, {}, {}, 0, 0, [], []),
        Client.Indication(NewSsm(p.cc), p.cc, p.ci, p.req, sendOk), 0)
  }

  function Run(p: Setup, n: Net, events: seq<Event>): Net
    decreases |events|
  {
    if events == [] then n else Run(p, Apply(p, n, events[0]), events[1..])
  }

  // ----- the invariant

  /** A request or answer APDU on the wire is a piece of the whole, numbered by its place. */
  predicate IsPiece(pieces: seq<Bytes>, apdu: Apdu)
    requires apdu.ConfirmedRequest? || apdu.ComplexAck?
  {
    var k := Place(apdu);
    apdu.seg == (|pieces| != 1) && k < |pieces| && apdu.data == pieces[k] && apdu.mor == (k < |pieces| - 1)
  }

  predicate RequestPiece(p: Setup, apdu: Apdu) {
    apdu.ConfirmedRequest? ==>
      && IsPiece(p.request, apdu)
      && EncodeMaxApduLength(p.cc.maxApduLengthAccepted) == Some(apdu.maxResp)
  }

  predicate AnswerPiece(p: Setup, apdu: Apdu) {
    apdu.ComplexAck? ==> IsPiece(p.reply, apdu)
  }

  /** A receiver opened by piece k holds it and all the pieces from 1 to its last number. */
  predicate Building(pieces: seq<Bytes>, k: nat, last: nat, apdu: Apdu) {
    && 1 < |pieces| && k < |pieces| && last < |pieces|
    && (last == |pieces| - 1 ==> |pieces| < 256)
    && apdu.data == Assembled(pieces, k, last)
  }

  predicate Sending(s: Ssm, apdu: Apdu, size: nat, count: nat) {
    s.segmentAPDU == Some(apdu) && s.segmentSize == size && s.segmentCount == count
  }

  predicate ClientOk(p: Setup, s: Ssm, k: nat) {
    && s.maxApduLengthAccepted == p.cc.maxApduLengthAccepted
    && (s.Finished() || Client.Running(s))
    && (s.state == SEGMENTED_REQUEST || s.state == AWAIT_CONFIRMATION ==> Sending(s, p.req, p.requestSize, |p.request|))
    && (s.state == SEGMENTED_CONFIRMATION ==> Building(p.reply, k, s.lastSequenceNumber, s.segmentAPDU.value))
    && s.state != AWAIT_RESPONSE && s.state != SEGMENTED_RESPONSE && s.state != IDLE
  }

  predicate ServerOk(p: Setup, s: Ssm, k: nat) {
    && Server.Running(s)
    && (s.state != IDLE ==> s.maxApduLengthAccepted == p.claimedLength)
    && (s.state == SEGMENTED_REQUEST ==> Building(p.request, k, s.lastSequenceNumber, s.segmentAPDU.value))
    && (s.state == SEGMENTED_RESPONSE ==> Sending(s, p.answer, p.replySize, |p.reply|))
    && s.state != AWAIT_CONFIRMATION && s.state != SEGMENTED_CONFIRMATION
  }

  predicate ServedOk(p: Setup, h: Handed) {
    h.apdu.ConfirmedRequest? ==>
      h.openedBy < |p.request| && h.apdu.data == Assembled(p.request, h.openedBy, |p.request| - 1)
  }

  predicate ResultOk(p: Setup, h: Handed) {
    h.apdu.ComplexAck? ==>
      h.openedBy < |p.reply| && h.apdu.data == Assembled(p.reply, h.openedBy, |p.reply| - 1)
  }

  ghost predicate Inv(p: Setup, n: Net) {
    && ClientOk(p, n.client, n.clientOpenedBy)
    && (n.server.Some? ==> ServerOk(p, n.server.value, n.serverOpenedBy))
    && (forall a :: a in n.toServer ==> RequestPiece(p, a))
    && (forall a :: a in n.toClient ==> AnswerPiece(p, a))
    && (forall h :: h in n.served ==> ServedOk(p, h))
    && (forall h :: h in n.results ==> ResultOk(p, h))
  }

  /** What a client handler has to establish. */
  ghost predicate ClientEffects(p: Setup, out: seq<Effect>, k: nat) {
    forall e :: e in out ==> if e.Down? then RequestPiece(p, e.apdu) else ResultOk(p, Handed(k, e.apdu))
  }

  ghost predicate ClientOutcomeOk(p: Setup, o: Outcome, k: nat) {
    ClientOk(p, o.ssm, k) && ClientEffects(p, o.out, k)
  }

  ghost predicate ServerEffects(p: Setup, out: seq<Effect>, k: nat) {
    forall e :: e in out ==> if e.Down? then AnswerPiece(p, e.apdu) else ServedOk(p, Handed(k, e.apdu))
  }

  ghost predicate ServerOutcomeOk(p: Setup, o: Outcome, k: nat) {
    (o.ssm.Finished() || ServerOk(p, o.ssm, k)) && ServerEffects(p, o.out, k)
  }

  // ----- senders send pieces

  lemma SegmentIsRequestPiece(p: Setup, s: Ssm, indx: nat)
    requires ValidSetup(p) && Sending(s, p.req, p.requestSize, |p.request|)
    requires s.maxApduLengthAccepted == p.cc.maxApduLengthAccepted
    ensures GetSegment(s, p.cc, indx).Some? ==> RequestPiece(p, GetSegment(s, p.cc, indx).value)
  {
  }

  lemma SegmentIsAnswerPiece(p: Setup, s: Ssm, indx: nat)
    requires ValidSetup(p) && Sending(s, p.answer, p.replySize, |p.reply|)
    ensures GetSegment(s, p.sc, indx).Some? ==> AnswerPiece(p, GetSegment(s, p.sc, indx).value)
  {
  }

  lemma {:induction false} FillSendsRequestPieces(p: Setup, s: Ssm, seqNum: nat, ix: nat, window: byte)
    requires ValidSetup(p) && Sending(s, p.req, p.requestSize, |p.request|)
    requires s.maxApduLengthAccepted == p.cc.maxApduLengthAccepted
    ensures forall a :: a in FillFrom(s, p.cc, seqNum, ix, window).sent ==> RequestPiece(p, a)
    decreases window - ix
  {
    if ix < window {
      SegmentIsRequestPiece(p, s, seqNum + ix);
      FillSendsRequestPieces(p, s, seqNum, ix + 1, window);
    }
  }

  lemma {:induction false} FillSendsAnswerPieces(p: Setup, s: Ssm, seqNum: nat, ix: nat, window: byte)
    requires ValidSetup(p) && Sending(s, p.answer, p.replySize, |p.reply|)
    ensures forall a :: a in FillFrom(s, p.sc, seqNum, ix, window).sent ==> AnswerPiece(p, a)
    decreases window - ix
  {
    if ix < window {
      SegmentIsAnswerPiece(p, s, seqNum + ix);
      FillSendsAnswerPieces(p, s, seqNum, ix + 1, window);
    }
  }

  lemma ClientFills(p: Setup, s: Ssm, seqNum: byte, sendOk: bool, restart: bool, k: nat)
    requires ValidSetup(p) && ClientOk(p, s, k) && s.state == SEGMENTED_REQUEST
    ensures ClientOutcomeOk(p, FillWindow(s, p.cc, seqNum, sendOk, restart), k)
  {
    if s.actualWindowSize.Some? { FillSendsRequestPieces(p, s, seqNum, 0, s.actualWindowSize.value); }
  }

  lemma ServerFills(p: Setup, s: Ssm, seqNum: byte, sendOk: bool, restart: bool, k: nat)
    requires ValidSetup(p) && ServerOk(p, s, k) && s.state == SEGMENTED_RESPONSE
    ensures ServerOutcomeOk(p, FillWindow(s, p.sc, seqNum, sendOk, restart), k)
  {
    if s.actualWindowSize.Some? { FillSendsAnswerPieces(p, s, seqNum, 0, s.actualWindowSize.value); }
  }

  /** A piece opens an assembly, and completes it when it is the only one. */
  lemma OpeningPiece(pieces: seq<Bytes>, apdu: Apdu)
    requires apdu.ConfirmedRequest? || apdu.ComplexAck?
    requires IsPiece(pieces, apdu)
    ensures apdu.data == Assembled(pieces, Place(apdu), 0)
  {
  }

  /** The next expected number is the next piece. */
  lemma NextPiece(pieces: seq<Bytes>, k: nat, last: byte, built: Apdu, apdu: Apdu)
    requires |pieces| <= 256 && Building(pieces, k, last, built)
    requires apdu.ConfirmedRequest? || apdu.ComplexAck?
    requires IsPiece(pieces, apdu) && apdu.seg && apdu.seqNo == (last + 1) % 256
    ensures apdu.seqNo == last + 1 && apdu.mor == (apdu.seqNo < |pieces| - 1)
    ensures built.data + apdu.data == Assembled(pieces, k, apdu.seqNo)
  {
    AssembledStep(pieces, k, last);
  }

  // ----- the client keeps its part

  lemma IndicationOk(p: Setup, s: Ssm, sendOk: bool, k: nat)
    requires ValidSetup(p) && s.maxApduLengthAccepted == p.cc.maxApduLengthAccepted
    ensures ClientOutcomeOk(p, Client.Indication(s, p.cc, p.ci, p.req, sendOk), k)
  {
    var s1 := Client.Prepare(s, p.cc, p.requestSize, p.req);
    if Client.Refusal(p.cc, p.ci, s1.segmentCount).None? {
      var s2 := Client.Start(s1, p.cc);
      assert ClientOk(p, s2, k);
      SegmentIsRequestPiece(p, s2, 0);
      assert Client.Indication(s, p.cc, p.ci, p.req, sendOk)
          == Client.FirstSegment(s2, p.cc, ErrorAck(p.req.invokeID, p.req.service, []), sendOk);
    }
  }

  lemma ClientSendsMoreOk(p: Setup, s: Ssm, acked: byte, sendOk: bool, k: nat)
    requires ValidSetup(p) && ClientOk(p, s, k) && s.state == SEGMENTED_REQUEST
    ensures ClientOutcomeOk(p, SendNextWindow(s, p.cc, acked, sendOk), k)
  {
    var next := (acked + 1) % 256;
    ClientFills(p, s.(initialSequenceNumber := next, segmentRetryCount := 0), next, sendOk, true, k);
  }

  lemma ClientTakesAckOk(p: Setup, s: Ssm, apdu: Apdu, sendOk: bool)
    requires ValidSetup(p) && ClientOk(p, s, 0) && s.state == SEGMENTED_REQUEST && apdu.SegmentAck?
    ensures ClientOutcomeOk(p, Client.SegmentedRequest(s, p.cc, apdu, sendOk), 0)
  {
    ClientSendsMoreOk(p, s.(actualWindowSize := Some(apdu.win)), apdu.seqNo, sendOk, 0);
  }

  lemma ClientSegmentedRequestOk(p: Setup, s: Ssm, apdu: Apdu, sendOk: bool, k: nat)
    requires ValidSetup(p) && ClientOk(p, s, k) && s.state == SEGMENTED_REQUEST && AnswerPiece(p, apdu)
    ensures ClientOutcomeOk(p, Client.SegmentedRequest(s, p.cc, apdu, sendOk), Place(apdu))
  {
    if apdu.SegmentAck? {
      ClientTakesAckOk(p, s, apdu, sendOk);
    } else if apdu.ComplexAck? {
      OpeningPiece(p.reply, apdu);
    }
  }

  lemma ResendFirstOk(p: Setup, s: Ssm, sendOk: bool, k: nat)
    requires ValidSetup(p) && ClientOk(p, s, k) && s.state == SEGMENTED_REQUEST
    ensures ClientOutcomeOk(p, Client.ResendFirst(s, p.cc, sendOk), k)
  {
    SegmentIsRequestPiece(p, s, 0);
  }

  lemma RetryOk(p: Setup, s: Ssm, sendOk: bool, k: nat)
    requires ValidSetup(p) && ClientOk(p, s, k) && s.state == SEGMENTED_REQUEST
    requires s.segmentRetryCount < p.cc.numberOfApduRetries
    ensures ClientOutcomeOk(p, Client.SegmentedRequestTimeout(s, p.cc, sendOk), k)
  {
    var s1 := Restart(s.(segmentRetryCount := s.segmentRetryCount + 1), p.cc.segmentTimeout);
    assert ClientOk(p, s1, k);
    ResendFirstOk(p, s1, sendOk, k);
    ClientFills(p, s1, s.initialSequenceNumber, sendOk, false, k);
  }

  lemma SegmentedRequestTimeoutOk(p: Setup, s: Ssm, sendOk: bool, k: nat)
    requires ValidSetup(p) && ClientOk(p, s, k) && s.state == SEGMENTED_REQUEST
    ensures ClientOutcomeOk(p, Client.SegmentedRequestTimeout(s, p.cc, sendOk), k)
  {
    if s.segmentRetryCount < p.cc.numberOfApduRetries { RetryOk(p, s, sendOk, k); }
  }

  lemma RecountOk(p: Setup, o: Outcome, retries: nat, k: nat)
    requires ClientOutcomeOk(p, o, k)
    ensures ClientOutcomeOk(p, Client.Recounted(o, retries), k)
  {
  }

  lemma AbortedOk(p: Setup, s: Ssm, reason: byte, sendOk: bool, k: nat)
    requires s.invokeID.Some? && s.maxApduLengthAccepted == p.cc.maxApduLengthAccepted
    ensures ClientOutcomeOk(p, Client.AbortWith(s, reason, false, sendOk), k)
  {
  }

  lemma StartAgainOk(p: Setup, s: Ssm, retries: nat, sendOk: bool, k: nat)
    requires ValidSetup(p) && s.segmentAPDU == Some(p.req) && s.maxApduLengthAccepted == p.cc.maxApduLengthAccepted
    ensures ClientOutcomeOk(p, Client.StartAgain(s, p.cc, p.ci, retries, sendOk), k)
  {
    IndicationOk(p, s.(retryCount := retries), sendOk, k);
    RecountOk(p, Client.Indication(s.(retryCount := retries), p.cc, p.ci, p.req, sendOk), retries, k);
  }

  lemma SameOutcomeOk(p: Setup, o: Outcome, same: Outcome, k: nat)
    requires ClientOutcomeOk(p, o, k) && o == same
    ensures ClientOutcomeOk(p, same, k)
  {
  }

  lemma AwaitConfirmationTimeoutOk(p: Setup, s: Ssm, sendOk: bool, k: nat)
    requires s.invokeID.Some? && s.segmentAPDU.Some? && s.maxApduLengthAccepted == p.cc.maxApduLengthAccepted
    requires ClientOutcomeOk(p, Client.StartAgain(s, p.cc, p.ci, s.retryCount + 1, sendOk), k)
    ensures ClientOutcomeOk(p, Client.AwaitConfirmationTimeout(s, p.cc, p.ci, sendOk), k)
  {
    if s.retryCount < p.cc.numberOfApduRetries {
      Client.TimeoutStartsAgain(s, p.cc, p.ci, sendOk);
      SameOutcomeOk(p, Client.StartAgain(s, p.cc, p.ci, s.retryCount + 1, sendOk),
                    Client.AwaitConfirmationTimeout(s, p.cc, p.ci, sendOk), k);
    } else {
      AbortedOk(p, s, NO_RESPONSE, sendOk, k);
    }
  }

  lemma ConfirmationExpires(p: Setup, s: Ssm, sendOk: bool)
    requires Client.Running(s) && s.state == AWAIT_CONFIRMATION
    ensures Client.TimerExpired(s, p.cc, p.ci, sendOk)
         == Client.AwaitConfirmationTimeout(s.(timer := None), p.cc, p.ci, sendOk)
  {
  }

  lemma ConfirmationExpiresOk(p: Setup, s: Ssm, sendOk: bool, k: nat)
    requires ValidSetup(p) && ClientOk(p, s, k) && s.state == AWAIT_CONFIRMATION
    ensures ClientOutcomeOk(p, Client.TimerExpired(s, p.cc, p.ci, sendOk), k)
  {
    var s0 := s.(timer := None);
    StartAgainOk(p, s0, s0.retryCount + 1, sendOk, k);
    AwaitConfirmationTimeoutOk(p, s0, sendOk, k);
    ConfirmationExpires(p, s, sendOk);
    SameOutcomeOk(p, Client.AwaitConfirmationTimeout(s0, p.cc, p.ci, sendOk),
                  Client.TimerExpired(s, p.cc, p.ci, sendOk), k);
  }

  lemma ClientTimeoutOk(p: Setup, s: Ssm, sendOk: bool, k: nat)
    requires ValidSetup(p) && ClientOk(p, s, k) && !s.Finished()
    ensures ClientOutcomeOk(p, Client.TimerExpired(s, p.cc, p.ci, sendOk), k)
  {
    match s.state {
      case SEGMENTED_REQUEST => SegmentedRequestTimeoutOk(p, s.(timer := None), sendOk, k);
      case AWAIT_CONFIRMATION => ConfirmationExpiresOk(p, s, sendOk, k);
      case _ => AbortedOk(p, s.(timer := None), NO_RESPONSE, sendOk, k);
    }
  }

  lemma AwaitConfirmationOk(p: Setup, s: Ssm, apdu: Apdu, sendOk: bool, k: nat)
    requires Shape(p) && ClientOk(p, s, k) && s.state == AWAIT_CONFIRMATION && AnswerPiece(p, apdu)
    ensures ClientOutcomeOk(p, Client.AwaitConfirmation(s, p.cc, apdu, sendOk), Place(apdu))
  {
    if apdu.ComplexAck? { OpeningPiece(p.reply, apdu); }
  }

  lemma ClientTakeNextOk(p: Setup, s: Ssm, apdu: Apdu, sendOk: bool, k: nat)
    requires Shape(p) && ClientOk(p, s, k) && s.state == SEGMENTED_CONFIRMATION && (sendOk || MayRefuse(p.reply, apdu))
    requires apdu.ComplexAck? && AnswerPiece(p, apdu) && apdu.seg && apdu.seqNo == (s.lastSequenceNumber + 1) % 256
    ensures ClientOutcomeOk(p, Client.TakeNext(s, p.cc, apdu, sendOk), k)
  {
    NextPiece(p.reply, k, s.lastSequenceNumber, s.segmentAPDU.value, apdu);
  }

  lemma ClientNaksOk(p: Setup, s: Ssm, apdu: Apdu, sendOk: bool, k: nat)
    requires Shape(p) && ClientOk(p, s, k) && s.state == SEGMENTED_CONFIRMATION
    requires !(apdu.ComplexAck? && apdu.seg && apdu.seqNo == (s.lastSequenceNumber + 1) % 256)
    ensures ClientOutcomeOk(p, Client.SegmentedConfirmation(s, p.cc, apdu, sendOk), k)
  {
  }

  lemma SegmentedConfirmationOk(p: Setup, s: Ssm, apdu: Apdu, sendOk: bool, k: nat)
    requires Shape(p) && ClientOk(p, s, k) && s.state == SEGMENTED_CONFIRMATION && AnswerPiece(p, apdu)
    requires sendOk || MayRefuse(p.reply, apdu)
    ensures ClientOutcomeOk(p, Client.SegmentedConfirmation(s, p.cc, apdu, sendOk), k)
  {
    if apdu.ComplexAck? && apdu.seg && apdu.seqNo == (s.lastSequenceNumber + 1) % 256 {
      ClientTakeNextOk(p, s, apdu, sendOk, k);
    } else {
      ClientNaksOk(p, s, apdu, sendOk, k);
    }
  }

  // ----- the server keeps its part

  lemma IdleOk(p: Setup, s: Ssm, apdu: Apdu, sendOk: bool, k: nat)
    requires ValidSetup(p) && s.state == IDLE && RequestPiece(p, apdu) && apdu.ConfirmedRequest?
    ensures var o := Server.Idle(s, p.sc, p.si, apdu, sendOk);
      ServerOutcomeOk(p, o, if o.ssm.state == IDLE then k else Place(apdu))
  {
    OpeningPiece(p.request, apdu);
  }

  lemma ServerTakeNextOk(p: Setup, s: Ssm, apdu: Apdu, sendOk: bool, k: nat)
    requires Shape(p) && ServerOk(p, s, k) && s.state == SEGMENTED_REQUEST && (sendOk || MayRefuse(p.request, apdu))
    requires apdu.ConfirmedRequest? && RequestPiece(p, apdu) && apdu.seg
    requires apdu.seqNo == (s.lastSequenceNumber + 1) % 256
    ensures ServerOutcomeOk(p, Server.TakeNext(s, p.sc, apdu, sendOk), k)
  {
    NextPiece(p.request, k, s.lastSequenceNumber, s.segmentAPDU.value, apdu);
  }

  lemma ServerSegmentedRequestOk(p: Setup, s: Ssm, apdu: Apdu, sendOk: bool, k: nat)
    requires Shape(p) && ServerOk(p, s, k) && s.state == SEGMENTED_REQUEST && RequestPiece(p, apdu)
    requires sendOk || MayRefuse(p.request, apdu)
    ensures ServerOutcomeOk(p, Server.SegmentedRequest(s, p.sc, apdu, sendOk), k)
  {
    if apdu.ConfirmedRequest? && apdu.seg && apdu.seqNo == (s.lastSequenceNumber + 1) % 256 {
      ServerTakeNextOk(p, s, apdu, sendOk, k);
    }
  }

  lemma AnswerOk(p: Setup, s: Ssm, apdu: Apdu, sendOk: bool, k: nat)
    requires ValidSetup(p) && ServerOk(p, s, k) && s.state == AWAIT_RESPONSE && (apdu.ComplexAck? ==> apdu == p.answer)
    ensures ServerOutcomeOk(p, Server.Confirmation(s, p.sc, p.si, apdu, sendOk), k)
  {
    if apdu.ComplexAck? {
      assert Server.ResponseSegmentSize(s, p.si) == p.replySize;
      var s1 := s.(segmentAPDU := Some(apdu), segmentSize := p.replySize, segmentCount := |p.reply|,
                   segmentRetryCount := 0, initialSequenceNumber := 0, actualWindowSize := None);
      SegmentIsAnswerPiece(p, s1, 0);
      if |p.reply| == 1 {
        CutIsUnique(p.reply, p.answer.data, p.replySize);
        AssembledAll(p.answer.data, p.replySize);
      }
    }
  }

  lemma ServerSendsMoreOk(p: Setup, s: Ssm, acked: byte, sendOk: bool, k: nat)
    requires ValidSetup(p) && ServerOk(p, s, k) && s.state == SEGMENTED_RESPONSE
    ensures ServerOutcomeOk(p, SendNextWindow(s, p.sc, acked, sendOk), k)
  {
    var next := (acked + 1) % 256;
    ServerFills(p, s.(initialSequenceNumber := next, segmentRetryCount := 0), next, sendOk, true, k);
  }

  lemma SegmentedResponseOk(p: Setup, s: Ssm, apdu: Apdu, sendOk: bool, k: nat)
    requires ValidSetup(p) && ServerOk(p, s, k) && s.state == SEGMENTED_RESPONSE
    ensures ServerOutcomeOk(p, Server.SegmentedResponse(s, p.sc, apdu, sendOk), k)
  {
    if apdu.SegmentAck? {
      ServerSendsMoreOk(p, s.(actualWindowSize := Some(apdu.win)), apdu.seqNo, sendOk, k);
    }
  }

  lemma ResponseRetryOk(p: Setup, s: Ssm, sendOk: bool, k: nat)
    requires ValidSetup(p) && ServerOk(p, s, k) && s.state == SEGMENTED_RESPONSE
    requires s.segmentRetryCount < p.sc.numberOfApduRetries
    ensures ServerOutcomeOk(p, Server.SegmentedResponseTimeout(s, p.sc, sendOk), k)
  {
    var s1 := Restart(s.(segmentRetryCount := s.segmentRetryCount + 1), p.sc.segmentTimeout);
    assert ServerOk(p, s1, k);
    SegmentIsAnswerPiece(p, s1, 0);
    ServerFills(p, s1, s.initialSequenceNumber, sendOk, false, k);
  }

  lemma ServerTimeoutOk(p: Setup, s: Ssm, sendOk: bool, k: nat)
    requires ValidSetup(p) && ServerOk(p, s, k)
    ensures ServerOutcomeOk(p, Server.TimerExpired(s, p.sc, sendOk), k)
  {
    if s.state == SEGMENTED_RESPONSE && s.segmentRetryCount < p.sc.numberOfApduRetries {
      ResponseRetryOk(p, s.(timer := None), sendOk, k);
    }
  }

  // ----- every run

  lemma {:induction false} HandedUpMembers(out: seq<Effect>, k: nat, h: Handed)
    requires h in HandedUp(out, k)
    ensures h.openedBy == k && Up(h.apdu) in out
  {
    if !(out[0].Up? && h == Handed(k, out[0].apdu)) { HandedUpMembers(out[1..], k, h); }
  }

  lemma ClientRanInv(p: Setup, n: Net, o: Outcome, place: nat)
    requires Inv(p, n)
    requires ClientOutcomeOk(p, o, if n.client.state != SEGMENTED_CONFIRMATION then place else n.clientOpenedBy)
    ensures Inv(p, ClientRan(n, o, place))
  {
    var n' := ClientRan(n, o, place);
    forall h | h in n'.results ensures ResultOk(p, h) {
      if h !in n.results { HandedUpMembers(o.out, n'.clientOpenedBy, h); }
    }
  }

  lemma ServerRanInv(p: Setup, n: Net, s: Ssm, o: Outcome, place: nat)
    requires Inv(p, n)
    requires ServerOutcomeOk(p, o, if s.state == IDLE && o.ssm.state != IDLE then place else n.serverOpenedBy)
    ensures Inv(p, ServerRan(n, s, o, place))
  {
    var n' := ServerRan(n, s, o, place);
    forall h | h in n'.served ensures ServedOk(p, h) {
      if h !in n.served { HandedUpMembers(o.out, n'.serverOpenedBy, h); }
    }
  }

  lemma ServerTakesInv(p: Setup, n: Net, apdu: Apdu, sendOk: bool)
    requires ValidSetup(p) && Inv(p, n) && apdu in n.toServer && (sendOk || MayRefuse(p.request, apdu))
    ensures Inv(p, ServerTakes(p, n, apdu, sendOk))
  {
    if n.server.Some? || apdu.ConfirmedRequest? {
      var s := if n.server.Some? then n.server.value else NewSsm(p.sc);
      var o := Server.Indication(s, p.sc, p.si, apdu, sendOk);
      match s.state {
        case IDLE => if apdu.ConfirmedRequest? { IdleOk(p, s, apdu, sendOk, n.serverOpenedBy); }
        case SEGMENTED_REQUEST => ServerSegmentedRequestOk(p, s, apdu, sendOk, n.serverOpenedBy);
        case SEGMENTED_RESPONSE => SegmentedResponseOk(p, s, apdu, sendOk, n.serverOpenedBy);
        case _ =>
      }
      ServerRanInv(p, n, s, o, Place(apdu));
    }
  }

  lemma ClientTakesInv(p: Setup, n: Net, apdu: Apdu, sendOk: bool)
    requires ValidSetup(p) && Inv(p, n) && apdu in n.toClient && (sendOk || MayRefuse(p.reply, apdu))
        && !n.client.Finished()
    ensures Inv(p, ClientRan(n, Client.Confirmation(n.client, p.cc, apdu, sendOk), Place(apdu)))
  {
    match n.client.state {
      case SEGMENTED_REQUEST => ClientSegmentedRequestOk(p, n.client, apdu, sendOk, n.clientOpenedBy);
      case AWAIT_CONFIRMATION => AwaitConfirmationOk(p, n.client, apdu, sendOk, n.clientOpenedBy);
      case _ => SegmentedConfirmationOk(p, n.client, apdu, sendOk, n.clientOpenedBy);
    }
    ClientRanInv(p, n, Client.Confirmation(n.client, p.cc, apdu, sendOk), Place(apdu));
  }

  /** Every event keeps the invariant. */
  lemma ApplyInv(p: Setup, n: Net, e: Event)
    requires ValidSetup(p) && Inv(p, n)
    ensures Inv(p, Apply(p, n, e))
  {
    if Enabled(p, n, e) {
      match e {
        case ToServer(apdu, ok) => ServerTakesInv(p, n, apdu, ok);
        case ToClient(apdu, ok) => ClientTakesInv(p, n, apdu, ok);
        case ClientTimer(ok) =>
          ClientTimeoutOk(p, n.client, ok, if n.client.state != SEGMENTED_CONFIRMATION then 0 else n.clientOpenedBy);
          ClientRanInv(p, n, Client.TimerExpired(n.client, p.cc, p.ci, ok), 0);
        case ServerTimer(ok) =>
          ServerTimeoutOk(p, n.server.value, ok, n.serverOpenedBy);
          ServerRanInv(p, n, n.server.value, Server.TimerExpired(n.server.value, p.sc, ok), 0);
        case Answer(apdu, ok) =>
          AnswerOk(p, n.server.value, apdu, ok, n.serverOpenedBy);
          ServerRanInv(p, n, n.server.value, Server.Confirmation(n.server.value, p.sc, p.si, apdu, ok), 0);
      }
    }
  }

  lemma BeginInv(p: Setup, sendOk: bool)
    requires ValidSetup(p)
    ensures Inv(p, Begin(p, sendOk))
  {
    var o := Client.Indication(NewSsm(p.cc), p.cc, p.ci, p.req, sendOk);
    IndicationOk(p, NewSsm(p.cc), sendOk, 0);
    forall h | h in Begin(p, sendOk).results ensures ResultOk(p, h) { HandedUpMembers(o.out, 0, h); }
  }

  lemma {:induction false} RunInv(p: Setup, n: Net, events: seq<Event>)
    requires ValidSetup(p) && Inv(p, n)
    ensures Inv(p, Run(p, n, events))
    decreases |events|
  {
    if events != [] {
      ApplyInv(p, n, events[0]);
      RunInv(p, Apply(p, n, events[0]), events[1..]);
    }
  }

  /** Client to server: in every run, a request handed to the serving application carries the
      client's data exactly when the segment that opened its transaction has the contents of
      segment 0; in particular whenever segment 0 opened it. */
  lemma RequestsArriveWhole(p: Setup, sendOk: bool, events: seq<Event>, h: Handed)
    requires ValidSetup(p)
    requires h in Run(p, Begin(p, sendOk), events).served && h.apdu.ConfirmedRequest?
    ensures h.apdu.data == p.req.data
       <==> Chunk(p.req.data, p.requestSize, h.openedBy) == Chunk(p.req.data, p.requestSize, 0)
  {
    BeginInv(p, sendOk);
    RunInv(p, Begin(p, sendOk), events);
    AssembledRequest(p, h);
  }

  lemma AssembledRequest(p: Setup, h: Handed)
    requires ValidSetup(p) && ServedOk(p, h) && h.apdu.ConfirmedRequest?
    ensures h.apdu.data == p.req.data
       <==> Chunk(p.req.data, p.requestSize, h.openedBy) == Chunk(p.req.data, p.requestSize, 0)
  {
    CutIsUnique(p.request, p.req.data, p.requestSize);
    AssembledWhole(p.req.data, p.requestSize, h.openedBy);
  }

  /** Server to client, likewise. */
  lemma AnswersArriveWhole(p: Setup, sendOk: bool, events: seq<Event>, h: Handed)
    requires ValidSetup(p)
    requires h in Run(p, Begin(p, sendOk), events).results && h.apdu.ComplexAck?
    ensures h.apdu.data == p.answer.data
       <==> Chunk(p.answer.data, p.replySize, h.openedBy) == Chunk(p.answer.data, p.replySize, 0)
  {
    BeginInv(p, sendOk);
    RunInv(p, Begin(p, sendOk), events);
    AssembledReply(p, h);
  }

  lemma AssembledReply(p: Setup, h: Handed)
    requires ValidSetup(p) && ResultOk(p, h) && h.apdu.ComplexAck?
    ensures h.apdu.data == p.answer.data
       <==> Chunk(p.answer.data, p.replySize, h.openedBy) == Chunk(p.answer.data, p.replySize, 0)
  {
    CutIsUnique(p.reply, p.answer.data, p.replySize);
    AssembledWhole(p.answer.data, p.replySize, h.openedBy);
  }
}
