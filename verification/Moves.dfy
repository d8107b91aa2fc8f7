/** What both machines send and hand up on every input, in which order, the state they are then in and
    the timer that then runs: as a table in terms of the input, beside the handlers. */
module Moves {
  import opened Apdus
  import opened Segmentation
  import opened Requests
  import opened Outcomes
  import Answers
  import Client = ClientSteps
  import ClientLife
  import Server = ServerSteps
  import ServerLife

  /** The effects in order, the next state, and the timer. */
  datatype Move = Move(out: seq<Effect>, state: State, timer: Option<nat>)

  /** A timer of no time is none. */
  function Armed(msecs: nat): Option<nat> {
    if msecs == 0 then None else Some(msecs)
  }

  /** It stays as it is. */
  function Stays(s: Ssm): Move {
    Move([], s.state, s.timer)
  }

  predicate Made(o: Outcome, m: Move) {
    o.out == m.out && o.ssm.state == m.state && o.ssm.timer == m.timer
  }

  /** Less than a window past the number. */
  predicate Within(seqNo: byte, from: byte, win: byte) {
    if from <= seqNo then seqNo - from < win else seqNo + 256 - from < win
  }

  function Least(a: byte, b: byte): byte {
    if a < b then a else b
  }

  // ----- the client

  function ClientAbort(s: Ssm, reason: byte, toPeer: bool): Move
    requires s.invokeID.Some?
  {
    var abort := Abort(false, s.invokeID.value, reason, []);
    Move((if toPeer then [Down(abort)] else []) + [Up(abort)], ABORTED, None)
  }

  /** A PDU while the request goes out; None while more of it is to be sent. */
  function WhileAsking(s: Ssm, c: Config, a: Apdu): Option<Move>
    requires s.invokeID.Some?
  {
    match a
    case SegmentAck(_, _, _, seqNo, win, _) =>
      if win == 0 then Some(Stays(s))
      else if !Within(seqNo, s.initialSequenceNumber, win) then
        Some(Move([], SEGMENTED_REQUEST, Some(c.segmentTimeout)))
      else if s.sentAllSegments then Some(Move([], AWAIT_CONFIRMATION, Armed(c.apduTimeout)))
      else None
    case SimpleAck(_, _, _) =>
      Some(if s.sentAllSegments then Move([Up(a)], COMPLETED, None) else ClientAbort(s, 2, true))
    case ComplexAck(seg, _, _, _, _, _, _) =>
      Some(if !s.sentAllSegments then ClientAbort(s, 2, true)
           else if seg then Move([], SEGMENTED_CONFIRMATION, Armed(c.segmentTimeout))
           else Move([Up(a)], COMPLETED, None))
    case ErrorAck(_, _, _) => Some(Move([Up(a)], COMPLETED, None))
    case Reject(_, _, _) => Some(Move([Up(a)], COMPLETED, None))
    case Abort(_, _, _, _) => Some(Move([Up(a)], COMPLETED, None))
    case _ => Some(Stays(s))
  }

  /** A PDU while the answer is waited for. */
  function WhileWaiting(s: Ssm, c: Config, a: Apdu): Move
    requires s.invokeID.Some?
  {
    match a
    case SegmentAck(_, _, _, _, _, _) => Move([], AWAIT_CONFIRMATION, Some(c.segmentTimeout))
    case SimpleAck(_, _, _) => Move([Up(a)], COMPLETED, None)
    case ErrorAck(_, _, _) => Move([Up(a)], COMPLETED, None)
    case Reject(_, _, _) => Move([Up(a)], COMPLETED, None)
    case Abort(_, _, _, _) => Move([Up(a)], ABORTED, None)
    case ComplexAck(seg, _, _, seqNo, win, _, _) =>
      if !seg then Move([Up(a)], COMPLETED, None)
      else if !CanReceive(c.segmentationSupported) then ClientAbort(s, 4, false)
      else if seqNo != 0 then ClientAbort(s, 2, true)
      else Move([Down(SegmentAck(false, false, s.invokeID.value, 0, win, []))], SEGMENTED_CONFIRMATION,
                Armed(c.segmentTimeout))
    case _ => Stays(s)
  }

  /** A PDU while a segmented answer comes in: the next segment is acknowledged when it is the last or
      ends its group, and any other is answered with the number of the last one taken. */
  function WhileReceiving(s: Ssm, c: Config, a: Apdu): Move
    requires s.invokeID.Some? && s.segmentAPDU.Some? && s.segmentAPDU.value.ComplexAck? && s.actualWindowSize.Some?
  {
    var id, win := s.invokeID.value, s.actualWindowSize.value;
    if !(a.ComplexAck? && a.seg) then ClientAbort(s, 2, true)
    else if a.seqNo != (s.lastSequenceNumber + 1) % 256 then
      Move([Down(SegmentAck(true, false, id, s.lastSequenceNumber, win, []))], SEGMENTED_CONFIRMATION,
           Some(c.segmentTimeout))
    else
      var ack := SegmentAck(false, false, id, a.seqNo, win, []);
      if !a.mor then Move([Down(ack), Up(WithMore(s.segmentAPDU.value, a.data))], COMPLETED, None)
      else
        Move(if a.seqNo == (s.initialSequenceNumber + win) % 256 then [Down(ack)] else [], SEGMENTED_CONFIRMATION,
             Some(c.segmentTimeout))
  }

  /** What an unfinished client does with a PDU from its peer; None for an acknowledgement that makes it
      send the next window. */
  function ClientMove(s: Ssm, c: Config, a: Apdu): Option<Move>
    requires Client.Running(s)
  {
    match s.state
    case SEGMENTED_REQUEST => WhileAsking(s, c, a)
    case AWAIT_CONFIRMATION => Some(WhileWaiting(s, c, a))
    case SEGMENTED_CONFIRMATION => Some(WhileReceiving(s, c, a))
    case _ => Some(Stays(s))
  }

  lemma ClientMovesAsDue(s: Ssm, c: Config, a: Apdu)
    requires Client.Running(s) && ClientMove(s, c, a).Some?
    ensures Made(Client.Confirmation(s, c, a, true), ClientMove(s, c, a).value)
  {
    match s.state {
      case SEGMENTED_REQUEST => AsksAsDue(s, c, a);
      case AWAIT_CONFIRMATION => WaitsAsDue(s, c, a);
      case SEGMENTED_CONFIRMATION => ReceivesAsDue(s, c, a);
      case _ =>
    }
  }

  lemma AsksAsDue(s: Ssm, c: Config, a: Apdu)
    requires Client.Running(s) && s.state == SEGMENTED_REQUEST && WhileAsking(s, c, a).Some?
    ensures Made(Client.Confirmation(s, c, a, true), WhileAsking(s, c, a).value)
  {
  }

  lemma WaitsAsDue(s: Ssm, c: Config, a: Apdu)
    requires Client.Running(s) && s.state == AWAIT_CONFIRMATION
    ensures Made(Client.Confirmation(s, c, a, true), WhileWaiting(s, c, a))
  {
  }

  lemma ReceivesAsDue(s: Ssm, c: Config, a: Apdu)
    requires Client.Running(s) && s.state == SEGMENTED_CONFIRMATION
    ensures Made(Client.Confirmation(s, c, a, true), WhileReceiving(s, c, a))
  {
  }

  /** The machine has been opened by the segment and counts from there, in windows of that size. */
  predicate Opened(t: Ssm, a: Apdu, win: byte) {
    && t.segmentAPDU == Some(a) && t.actualWindowSize == Some(win)
    && t.lastSequenceNumber == 0 && t.initialSequenceNumber == 0
  }

  /** The first segment of an answer opens the client: in windows of the size that the segment proposes
      when the answer was waited for, and of the smaller of that and its own before. */
  lemma ClientOpens(s: Ssm, c: Config, a: Apdu, sendOk: bool)
    requires Client.Running(s) && s.state != SEGMENTED_CONFIRMATION
    requires Client.Confirmation(s, c, a, sendOk).ssm.state == SEGMENTED_CONFIRMATION
    ensures a.ComplexAck? && a.seg
    ensures Opened(Client.Confirmation(s, c, a, sendOk).ssm, a,
                   if s.state == AWAIT_CONFIRMATION then a.win else Least(a.win, c.proposedWindowSize))
  {
  }

  /** The timers after the start: for the answer when the request goes out whole, for the first
      acknowledgement when it goes out in segments. */
  lemma StartsTimer(c: Config, info: Option<DeviceInfo>, req: Apdu, sendOk: bool)
    requires req.ConfirmedRequest?
    ensures var s := ClientLife.Begin(c, info, req, sendOk).ssm;
      match s.state
      case AWAIT_CONFIRMATION => s.timer == Armed(c.apduTimeout)
      case SEGMENTED_REQUEST => s.timer == Armed(c.segmentTimeout)
      case _ => s.timer == None
  {
  }

  /** When its timer expires a client that may not try again gives up; one that sends its segments
      once more waits as long for the acknowledgement. */
  lemma ClientExpires(s: Ssm, c: Config, info: Option<DeviceInfo>, sendOk: bool)
    requires Client.Running(s)
    ensures var o := Client.TimerExpired(s, c, info, sendOk);
      match s.state
      case SEGMENTED_REQUEST =>
        if s.segmentRetryCount < c.numberOfApduRetries then
          && o.ssm.state == SEGMENTED_REQUEST && o.ssm.timer == Some(c.segmentTimeout)
          && o.ssm.segmentRetryCount == s.segmentRetryCount + 1
        else Made(o, ClientAbort(s, 65, false))
      case AWAIT_CONFIRMATION => s.retryCount < c.numberOfApduRetries || Made(o, ClientAbort(s, 65, false))
      case SEGMENTED_CONFIRMATION => Made(o, ClientAbort(s, 65, false))
      case _ => o.out == []
  {
  }

  // ----- the server

  function ServerAbort(s: Ssm, reason: byte, toBoth: bool): Move
    requires s.invokeID.Some?
  {
    var abort := Abort(true, s.invokeID.value, reason, []);
    Move((if toBoth then [Up(abort)] else []) + [Down(abort)], ABORTED, None)
  }

  /** The first PDU. */
  function WhileIdle(s: Ssm, c: Config, a: Apdu): Move {
    if !Answers.Says(a) then Stays(s)
    else if !a.seg then Move([Up(a)], AWAIT_RESPONSE, Armed(c.applicationTimeout))
    else if !CanReceive(c.segmentationSupported) then Move([Down(Abort(true, a.invokeID, 4, []))], ABORTED, None)
    else
      Move([Down(SegmentAck(false, true, a.invokeID, 0, Least(a.win, c.proposedWindowSize), []))], SEGMENTED_REQUEST,
           Armed(c.segmentTimeout))
  }

  /** A request with more data. */
  function Longer(req: Apdu, data: Bytes): Apdu
    requires req.ConfirmedRequest?
  {
    ConfirmedRequest(req.seg, req.mor, req.sa, req.maxSegs, req.maxResp, req.invokeID, req.seqNo, req.win, req.service,
                     req.data + data)
  }

  /** A PDU while a segmented request comes in: the next segment is acknowledged when it is the last or
      ends its group, and any other is answered with the number of the group. */
  function WhileTaking(s: Ssm, c: Config, a: Apdu): Move
    requires Server.Receiving(s)
  {
    var id, win := s.invokeID.value, s.actualWindowSize.value;
    if a.Abort? then Move([Down(a)], COMPLETED, None)
    else if !(a.ConfirmedRequest? && a.seg) then ServerAbort(s, 2, true)
    else if a.seqNo != (s.lastSequenceNumber + 1) % 256 then
      Move([Down(SegmentAck(true, true, id, s.initialSequenceNumber, win, []))], SEGMENTED_REQUEST,
           Some(c.segmentTimeout))
    else
      var ack := SegmentAck(false, true, id, a.seqNo, win, []);
      if !a.mor then
        Move([Down(ack), Up(Longer(s.segmentAPDU.value, a.data))], AWAIT_RESPONSE, Armed(c.applicationTimeout))
      else
        Move(if a.seqNo == (s.initialSequenceNumber + win) % 256 then [Down(ack)] else [], SEGMENTED_REQUEST,
             Some(c.segmentTimeout))
  }

  /** A PDU while the answer goes out; None while more of it is to be sent. */
  function WhileAnswering(s: Ssm, c: Config, a: Apdu): Option<Move> {
    match a
    case SegmentAck(_, _, _, seqNo, win, _) =>
      if win == 0 then Some(Stays(s))
      else if !Within(seqNo, s.initialSequenceNumber, win) then
        Some(Move([], SEGMENTED_RESPONSE, Some(c.segmentTimeout)))
      else if s.sentAllSegments then Some(Move([], COMPLETED, None))
      else None
    case Abort(_, _, _, _) => Some(Move([Down(a)], COMPLETED, None))
    case _ => Some(Stays(s))
  }

  /** What an unfinished server does with a PDU from its peer; None for an acknowledgement that makes it
      send the next window. */
  function ServerMove(s: Ssm, c: Config, a: Apdu): Option<Move>
    requires Server.Running(s)
  {
    match s.state
    case IDLE => Some(WhileIdle(s, c, a))
    case SEGMENTED_REQUEST => Some(WhileTaking(s, c, a))
    case AWAIT_RESPONSE => Some(if a.Abort? then Move([Up(a)], ABORTED, None) else Stays(s))
    case SEGMENTED_RESPONSE => WhileAnswering(s, c, a)
    case _ => Some(Stays(s))
  }

  lemma IdlesAsDue(s: Ssm, c: Config, info: Option<DeviceInfo>, a: Apdu)
    requires s.state == IDLE
    ensures Made(Server.Idle(s, c, info, a, true), WhileIdle(s, c, a))
  {
  }

  lemma TakesAsDue(s: Ssm, c: Config, a: Apdu)
    requires Server.Receiving(s) && s.state == SEGMENTED_REQUEST
    ensures Made(Server.SegmentedRequest(s, c, a, true), WhileTaking(s, c, a))
  {
  }

  lemma AnswersAsDue(s: Ssm, c: Config, a: Apdu)
    requires s.state == SEGMENTED_RESPONSE && WhileAnswering(s, c, a).Some?
    ensures Made(Server.SegmentedResponse(s, c, a, true), WhileAnswering(s, c, a).value)
  {
  }

  lemma ServerMovesAsDue(s: Ssm, c: Config, info: Option<DeviceInfo>, a: Apdu)
    requires Server.Running(s) && ServerMove(s, c, a).Some?
    ensures Made(Server.Indication(s, c, info, a, true), ServerMove(s, c, a).value)
  {
    match s.state {
      case IDLE => IdlesAsDue(s, c, info, a);
      case SEGMENTED_REQUEST => TakesAsDue(s, c, a);
      case SEGMENTED_RESPONSE => AnswersAsDue(s, c, a);
      case _ =>
    }
  }

  /** A segment of a request opens the server, in windows of the smaller of the two sizes. */
  lemma ServerOpens(s: Ssm, c: Config, info: Option<DeviceInfo>, a: Apdu, sendOk: bool)
    requires s.state == IDLE && Server.Indication(s, c, info, a, sendOk).ssm.state == SEGMENTED_REQUEST
    ensures a.ConfirmedRequest? && a.seg
    ensures Opened(Server.Indication(s, c, info, a, sendOk).ssm, a, Least(a.win, c.proposedWindowSize))
  {
  }

  /** When its timer expires a server drops a request that has not come in whole, tells the application
      that its time is over, and sends its segments once more as long as it may. */
  lemma ServerExpires(s: Ssm, c: Config, sendOk: bool)
    requires Server.Running(s)
    ensures var o := Server.TimerExpired(s, c, sendOk);
      match s.state
      case SEGMENTED_REQUEST => Made(o, Move([], ABORTED, None))
      case AWAIT_RESPONSE => Made(o, Move([Up(Abort(true, s.invokeID.value, 64, []))], ABORTED, None))
      case SEGMENTED_RESPONSE =>
        if s.segmentRetryCount < c.numberOfApduRetries then
          && o.ssm.state == SEGMENTED_RESPONSE && o.ssm.timer == Some(c.segmentTimeout)
          && o.ssm.segmentRetryCount == s.segmentRetryCount + 1
        else Made(o, Move([], ABORTED, None))
      case _ => o.out == []
  {
  }

  /** The timer after the application has answered: for the first acknowledgement when the answer goes
      out in segments, and none when all is over. */
  lemma AnswersTimer(s: Ssm, c: Config, info: Option<DeviceInfo>, answer: Apdu)
    requires s.invokeID.Some?
    ensures var o := Server.Confirmation(s, c, info, answer, true);
      o.raised || o.ssm.timer == if o.ssm.Finished() then None else Armed(c.segmentTimeout)
  {
  }

  // ----- the window that segments carry

  /** All but those with number 0 carry that window. */
  predicate Carry(apdus: seq<Apdu>, win: byte) {
    forall a :: a in apdus ==>
      (a.ConfirmedRequest? || a.ComplexAck?) && a.seg && (a.seqNo != 0 ==> a.win == win)
  }

  lemma {:induction false} FillCarries(s: Ssm, c: Config, seqNum: nat, ix: nat, w: byte)
    requires s.actualWindowSize == Some(w) && s.segmentCount != 1
    ensures Carry(FillFrom(s, c, seqNum, ix, w).sent, w)
    decreases w - ix
  {
    if ix < w && GetSegment(s, c, seqNum + ix).Some? { FillCarries(s, c, seqNum, ix + 1, w); }
  }

  lemma NextWindowCarries(s: Ssm, c: Config, a: Apdu)
    requires a.SegmentAck? && s.actualWindowSize == Some(a.win) && s.segmentCount != 1
    ensures forall e :: e in SendNextWindow(s, c, a.seqNo, true).out ==> e.Down? && Carry([e.apdu], a.win)
  {
    var next := (a.seqNo + 1) % 256;
    var t := s.(initialSequenceNumber := next, segmentRetryCount := 0);
    FillCarries(t, c, next, 0, a.win);
    forall e | e in SendNextWindow(s, c, a.seqNo, true).out ensures e.Down? && Carry([e.apdu], a.win) {
      assert e.apdu in FillFrom(t, c, next, 0, a.win).sent;
    }
  }

  /** An acknowledgement that makes a machine send the next window makes it carry the window that the
      acknowledgement grants; nothing else is sent, and nothing handed up. */
  lemma WindowsAreGranted(s: Ssm, c: Config, a: Apdu)
    requires a.SegmentAck? && a.win != 0 && Within(a.seqNo, s.initialSequenceNumber, a.win)
    requires !s.sentAllSegments && s.segmentCount != 1
    ensures s.state == SEGMENTED_REQUEST && Client.Running(s) ==>
      forall e :: e in Client.Confirmation(s, c, a, true).out ==> e.Down? && Carry([e.apdu], a.win)
    ensures s.state == SEGMENTED_RESPONSE && s.invokeID.Some? ==>
      forall e :: e in Server.SegmentedResponse(s, c, a, true).out ==> e.Down? && Carry([e.apdu], a.win)
  {
    NextWindowCarries(s.(actualWindowSize := Some(a.win)), c, a);
  }

  // ----- a network that refuses

  predicate Quiet(out: seq<Effect>) {
    forall e :: e in out ==> !e.Down?
  }

  /** What the network refuses is not sent, and nothing else in its place. */
  lemma ClientIsQuiet(s: Ssm, c: Config, info: Option<DeviceInfo>, a: Apdu)
    requires Client.Running(s)
    ensures Quiet(Client.Confirmation(s, c, a, false).out) && Quiet(Client.TimerExpired(s, c, info, false).out)
  {
  }

  lemma ServerIsQuiet(s: Ssm, c: Config, info: Option<DeviceInfo>, a: Apdu)
    requires Server.Running(s)
    ensures Quiet(Server.Indication(s, c, info, a, false).out) && Quiet(Server.TimerExpired(s, c, false).out)
    ensures s.invokeID.Some? ==> Quiet(Server.Confirmation(s, c, info, a, false).out)
  {
    if s.invokeID.Some? { AnswerIsQuiet(s, c, info, a); }
  }

  lemma AnswerIsQuiet(s: Ssm, c: Config, info: Option<DeviceInfo>, a: Apdu)
    requires s.invokeID.Some?
    ensures Quiet(Server.Confirmation(s, c, info, a, false).out)
  {
  }
}
