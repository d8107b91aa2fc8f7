/** A client and a server transaction joined by two channels that keep their order and may lose
    anything, while a segmented request goes out. Every step runs the handlers of ClientSSM and
    ServerSSM; module Windows is this system with the contents of the messages left out. */
module Stream {
  import opened Apdus
  import opened Segmentation
  import opened Pieces
  import opened Windows
  import Client = ClientSteps
  import Server = ServerSteps
  import Rounds

  /** A request, both configurations, and what follows: the pieces and the agreed window. */
  datatype Transfer = Transfer(
    req: Apdu, cc: Config, sc: Config, ci: Option<DeviceInfo>, si: Option<DeviceInfo>,
    size: nat, pieces: seq<Bytes>, window: byte)
  {
    function Count(): nat { |pieces| }
  }

  /** The smaller of the two proposals. */
  function AgreedWindow(cc: Config, sc: Config): byte {
    if cc.proposedWindowSize < sc.proposedWindowSize then cc.proposedWindowSize else sc.proposedWindowSize
  }

  /** The request needs segments, neither side refuses them, and the window is 1 to 127. */
  ghost predicate Valid(p: Transfer) {
    && p.req.ConfirmedRequest?
    && p.size == Client.RequestSegmentSize(p.cc, p.ci) && 0 < p.size
    && IsCut(p.pieces, p.req.data, p.size) && 1 < p.Count()
    && Client.Refusal(p.cc, p.ci, p.Count()).None?
    && p.cc.maxSegmentsAccepted != Some(1) && 50 <= p.cc.maxApduLengthAccepted
    && p.sc.segmentationSupported.Receives()
    && p.window == AgreedWindow(p.cc, p.sc)
    && 0 < p.window < 128
  }

  /** Handed holds the data of each request the server has given its application. */
  datatype Link = Link(client: Ssm, server: Option<Ssm>, toServer: seq<Apdu>, toClient: seq<Apdu>, handed: seq<Bytes>,
                       raised: bool)

  function Sent(out: seq<Effect>): seq<Apdu> {
    if out == [] then [] else (if out[0].Down? then [out[0].apdu] else []) + Sent(out[1..])
  }

  function Handed(out: seq<Effect>): seq<Bytes> {
    if out == [] then []
    else (if out[0].Up? && out[0].apdu.ConfirmedRequest? then [out[0].apdu.data] else []) + Handed(out[1..])
  }

  function ServerRan(l: Link, o: Outcome): Link {
    l.(server := if o.ssm.Finished() then None else Some(o.ssm),
       toClient := l.toClient + Sent(o.out), handed := l.handed + Handed(o.out), raised := l.raised || o.raised)
  }

  function ClientRan(l: Link, o: Outcome): Link {
    l.(client := o.ssm, toServer := l.toServer + Sent(o.out), raised := l.raised || o.raised)
  }

  /** A client that has no retry left gives up, and the run ends there. */
  predicate Enabled(p: Transfer, l: Link, m: Move) {
    && l.client.state == SEGMENTED_REQUEST && Client.Running(l.client)
    && (l.server.Some? ==> Server.Running(l.server.value))
    && match m {
      case TakeSegment => l.toServer != []
      case LoseSegment(i) => i < |l.toServer|
      case TakeAck => l.toClient != []
      case LoseAck(i) => i < |l.toClient|
      case Timeout => l.client.segmentRetryCount < p.cc.numberOfApduRetries
    }
  }

  function Drop(s: seq<Apdu>, i: nat): seq<Apdu>
    requires i < |s|
  {
    s[..i] + s[i + 1..]
  }

  function Step(p: Transfer, l: Link, m: Move): Link {
    if !Enabled(p, l, m) then l
    else
      match m
      case TakeSegment =>
        var s := if l.server.Some? then l.server.value else NewSsm(p.sc);
        ServerRan(l.(toServer := l.toServer[1..]), Server.Indication(s, p.sc, p.si, l.toServer[0], true))
      case LoseSegment(i) => l.(toServer := Drop(l.toServer, i))
      case TakeAck =>
        ClientRan(l.(toClient := l.toClient[1..]), Client.Confirmation(l.client, p.cc, l.toClient[0], true))
      case LoseAck(i) => l.(toClient := Drop(l.toClient, i))
      case Timeout => ClientRan(l, Client.TimerExpired(l.client, p.cc, p.ci, true))
  }

  function Run(p: Transfer, l: Link, moves: seq<Move>): Link
    decreases |moves|
  {
    if moves == [] then l else Run(p, Step(p, l, moves[0]), moves[1..])
  }

  /** The application has issued the request. */
  function Begin(p: Transfer): Link {
    ClientRan(Link(NewSsm(p.cc), None, [], [], [], false), Client.Indication(NewSsm(p.cc), p.cc, p.ci, p.req, true))
  }

  // ----- the view of a link

  predicate IsSegment(p: Transfer, a: Apdu, k: nat) {
    && k < p.Count() && a.ConfirmedRequest? && a.seg
    && a.seqNo == k % 256 && a.mor == (k < p.Count() - 1) && a.data == p.pieces[k]
    && a.maxResp < 6 && a.maxSegs < 8 && (k == 0 ==> a.win == p.cc.proposedWindowSize)
  }

  predicate AreSegments(p: Transfer, apdus: seq<Apdu>, numbers: seq<nat>) {
    |apdus| == |numbers| && forall i :: 0 <= i < |numbers| ==> IsSegment(p, apdus[i], numbers[i])
  }

  predicate IsAck(p: Transfer, a: Apdu, k: nat) {
    a.SegmentAck? && a.seqNo == k % 256 && a.win == p.window
  }

  /** The contents of the segments taken, one after the other. */
  function Content(p: Transfer, taken: seq<nat>): Bytes {
    if taken == [] then []
    else Content(p, taken[..|taken| - 1]) + (var k := taken[|taken| - 1]; if k < p.Count() then p.pieces[k] else [])
  }

  predicate Sender(p: Transfer, s: Ssm) {
    && s.state == SEGMENTED_REQUEST && s.invokeID.Some?
    && s.segmentAPDU == Some(p.req) && s.segmentSize == p.size && s.segmentCount == p.Count()
    && s.maxSegmentsAccepted == p.cc.maxSegmentsAccepted && s.maxApduLengthAccepted == p.cc.maxApduLengthAccepted
  }

  predicate ClientView(p: Transfer, s: Ssm, v: View) {
    if v.finished then s.state == AWAIT_CONFIRMATION
    else
      && Sender(p, s) && s.initialSequenceNumber == v.base && s.sentAllSegments == v.sentAll
      && (v.base != 0 ==> s.actualWindowSize == Some(p.window))
  }

  predicate Receiver(p: Transfer, s: Ssm, v: View) {
    && s.state == SEGMENTED_REQUEST && Server.Receiving(s) && s.actualWindowSize == Some(p.window)
    && s.lastSequenceNumber == (|v.taken| - 1) % 256 && s.initialSequenceNumber == v.group % 256
    && s.segmentAPDU.value.ConfirmedRequest? && s.segmentAPDU.value.data == Content(p, v.taken)
  }

  predicate ServerView(p: Transfer, server: Option<Ssm>, v: View) {
    if v.taken == [] then server.None?
    else
      && server.Some?
      && if v.complete then server.value.state == AWAIT_RESPONSE && server.value.invokeID.Some?
         else Receiver(p, server.value, v)
  }

  ghost predicate Channels(p: Transfer, l: Link, v: View) {
    && AreSegments(p, l.toServer, v.segments)
    && |l.toClient| == |v.acks| && (forall i :: 0 <= i < |v.acks| ==> IsAck(p, l.toClient[i], v.acks[i]))
  }

  ghost predicate Rel(p: Transfer, l: Link, v: View) {
    && ClientView(p, l.client, v) && ServerView(p, l.server, v) && Channels(p, l, v)
    && !v.overrun && !l.raised && v.base < 256 && v.base < p.Count()
    && (v.taken == [] ==>
      && v.base == 0 && !v.complete && v.acks == []
      && forall i :: 0 <= i < |v.segments| ==> v.segments[i] == 0)
    && l.handed == if v.complete then [Content(p, v.taken)] else []
  }

  // ----- the sender

  lemma SegmentOf(p: Transfer, s: Ssm, k: nat)
    requires Valid(p) && Sender(p, s) && k < p.Count() && (k != 0 ==> s.actualWindowSize.Some?)
    ensures var r := GetSegment(s, p.cc, k); r.Some? && IsSegment(p, r.value, k)
  {
  }

  /** The segments from one number on, in order. */
  predicate InRow(p: Transfer, apdus: seq<Apdu>, first: nat) {
    forall i :: 0 <= i < |apdus| ==> IsSegment(p, apdus[i], first + i)
  }

  lemma OneBefore(p: Transfer, a: Apdu, apdus: seq<Apdu>, first: nat)
    requires IsSegment(p, a, first) && InRow(p, apdus, first + 1)
    ensures InRow(p, [a] + apdus, first)
  {
    forall i | 0 <= i < |[a] + apdus| ensures IsSegment(p, ([a] + apdus)[i], first + i) {
      if 0 < i { assert IsSegment(p, apdus[i - 1], first + 1 + (i - 1)); }
    }
  }

  /** fill_window sends exactly the segments of the window. */
  lemma {:induction false} FillSendsWindow(p: Transfer, s: Ssm, base: nat, ix: nat)
    requires Valid(p) && Sender(p, s) && s.actualWindowSize == Some(p.window)
    requires base < p.Count() && base + ix <= End(p.Count(), p.window, base)
    requires ix == 0 || base + ix < p.Count() || ix == p.window
    ensures var f, end := FillFrom(s, p.cc, base, ix, p.window), End(p.Count(), p.window, base);
      && !f.raised && f.last == (base + ix < end == p.Count()) && |f.sent| == end - (base + ix)
      && InRow(p, f.sent, base + ix)
    decreases p.window - ix
  {
    if ix < p.window {
      SegmentOf(p, s, base + ix);
      if base + ix < p.Count() - 1 {
        FillSendsWindow(p, s, base, ix + 1);
        OneBefore(p, GetSegment(s, p.cc, base + ix).value, FillFrom(s, p.cc, base, ix + 1, p.window).sent, base + ix);
      }
    }
  }

  lemma {:induction false} SentDowns(apdus: seq<Apdu>)
    ensures Sent(Downs(apdus)) == apdus && Handed(Downs(apdus)) == []
    decreases |apdus|
  {
    if apdus != [] {
      SentDowns(apdus[1..]);
      assert Downs(apdus)[1..] == Downs(apdus[1..]);
    }
  }

  lemma SentOne(a: Apdu)
    ensures Sent([Down(a)]) == [a] && Handed([Down(a)]) == []
  {
    assert [Down(a)][1..] == [];
  }

  lemma MoreSegments(p: Transfer, apdus: seq<Apdu>, numbers: seq<nat>, more: seq<Apdu>, moreNumbers: seq<nat>)
    requires AreSegments(p, apdus, numbers) && AreSegments(p, more, moreNumbers)
    ensures AreSegments(p, apdus + more, numbers + moreNumbers)
  {
  }

  lemma FillOutcome(p: Transfer, s: Ssm, base: byte, restart: bool, f: Fill)
    requires Sender(p, s) && s.actualWindowSize == Some(p.window) && 0 < p.window
    requires f == FillFrom(s, p.cc, base, 0, p.window) && !f.raised
    ensures var s1 := s.(sentAllSegments := s.sentAllSegments || f.last);
      FillWindow(s, p.cc, base, true, restart)
      == Outcome(if restart then Restart(s1, p.cc.segmentTimeout) else s1, Downs(f.sent), false)
  {
  }

  lemma FillSent(p: Transfer, s: Ssm, base: byte)
    requires Valid(p) && Sender(p, s) && s.actualWindowSize == Some(p.window) && base < p.Count()
    ensures var f := FillFrom(s, p.cc, base, 0, p.window);
      !f.raised && f.last == (p.Count() <= base + p.window) && AreSegments(p, f.sent, Window(p.Count(), p.window, base))
  {
    FillSendsWindow(p, s, base, 0);
  }

  /** fill_window, as the sender's next state and what goes on the wire. */
  lemma FillView(p: Transfer, s: Ssm, base: byte, restart: bool)
    requires Valid(p) && Sender(p, s) && s.actualWindowSize == Some(p.window) && base < p.Count()
    ensures var o := FillWindow(s, p.cc, base, true, restart);
      && !o.raised && AreSegments(p, Sent(o.out), Window(p.Count(), p.window, base))
      && Sender(p, o.ssm) && o.ssm.actualWindowSize == Some(p.window)
      && o.ssm.initialSequenceNumber == s.initialSequenceNumber
      && o.ssm.sentAllSegments == (s.sentAllSegments || p.Count() <= base + p.window)
  {
    var f := FillFrom(s, p.cc, base, 0, p.window);
    FillSent(p, s, base);
    FillOutcome(p, s, base, restart, f);
    SentDowns(f.sent);
  }

  // ----- the server's side of a step

  lemma ContentStep(p: Transfer, taken: seq<nat>, k: nat)
    requires k < p.Count()
    ensures Content(p, taken + [k]) == Content(p, taken) + p.pieces[k]
  {
    assert (taken + [k])[..|taken|] == taken;
  }

  /** Segment 0 opens a transaction. */
  lemma OpensServer(p: Transfer, a: Apdu)
    requires Valid(p) && IsSegment(p, a, 0)
    ensures var o := Server.Idle(NewSsm(p.sc), p.sc, p.si, a, true);
      && !o.raised && o.ssm.state == SEGMENTED_REQUEST && Server.Receiving(o.ssm)
      && o.ssm.actualWindowSize == Some(p.window)
      && o.ssm.lastSequenceNumber == 0 && o.ssm.initialSequenceNumber == 0 && o.ssm.segmentAPDU == Some(a)
      && |o.out| == 1 && o.out[0].Down? && IsAck(p, o.out[0].apdu, 0)
  {
  }

  lemma ServerIgnores(p: Transfer, s: Ssm, a: Apdu)
    requires a.ConfirmedRequest? && s.state == AWAIT_RESPONSE && s.invokeID.Some?
    ensures Server.Indication(s, p.sc, p.si, a, true) == Outcome(s, [], false)
  {
  }

  lemma ServerRefuses(p: Transfer, s: Ssm, v: View, a: Apdu, k: nat)
    requires Receiver(p, s, v) && v.taken != [] && IsSegment(p, a, k) && k % 256 != |v.taken| % 256
    ensures var o := Server.Indication(s, p.sc, p.si, a, true);
      && !o.raised && o.ssm == Restart(s, p.sc.segmentTimeout)
      && |o.out| == 1 && o.out[0].Down? && IsAck(p, o.out[0].apdu, v.group)
  {
  }

  /** The server has appended segment k. */
  predicate Took(p: Transfer, v: View, k: nat, s: Ssm) {
    && s.invokeID.Some? && s.actualWindowSize == Some(p.window)
    && s.segmentAPDU.Some? && s.segmentAPDU.value.ConfirmedRequest?
    && s.segmentAPDU.value.data == Content(p, v.taken + [k])
    && s.lastSequenceNumber == |v.taken| % 256
  }

  lemma ServerAccepts(p: Transfer, s: Ssm, v: View, a: Apdu, k: nat)
    requires Receiver(p, s, v) && v.taken != [] && IsSegment(p, a, k) && k % 256 == |v.taken| % 256
    ensures Server.Indication(s, p.sc, p.si, a, true) == Server.TakeNext(s, p.sc, a, true)
    ensures Took(p, v, k, Server.TakeNext(s, p.sc, a, true).ssm)
  {
    ContentStep(p, v.taken, k);
  }

  lemma TakesLast(p: Transfer, s: Ssm, v: View, a: Apdu, k: nat)
    requires Receiver(p, s, v) && v.taken != [] && IsSegment(p, a, k) && k % 256 == |v.taken| % 256
    requires k == p.Count() - 1
    ensures var o := Server.TakeNext(s, p.sc, a, true);
      && !o.raised && o.ssm.state == AWAIT_RESPONSE && |o.out| == 2
      && o.out[0].Down? && IsAck(p, o.out[0].apdu, |v.taken|) && o.out[1] == Up(o.ssm.segmentAPDU.value)
  {
  }

  lemma GroupEnd(group: nat, w: byte)
    ensures (group % 256 + w) % 256 == (group + w) % 256
  {
  }

  lemma TakesGroup(p: Transfer, s: Ssm, v: View, a: Apdu, k: nat)
    requires Receiver(p, s, v) && v.taken != [] && IsSegment(p, a, k) && k % 256 == |v.taken| % 256
    requires k != p.Count() - 1
    requires k % 256 == (v.group + p.window) % 256
    ensures var o := Server.TakeNext(s, p.sc, a, true);
      && !o.raised && o.ssm.state == SEGMENTED_REQUEST && o.ssm.initialSequenceNumber == |v.taken| % 256
      && |o.out| == 1 && o.out[0].Down? && IsAck(p, o.out[0].apdu, |v.taken|)
  {
    GroupEnd(v.group, p.window);
  }

  lemma TakesMiddle(p: Transfer, s: Ssm, v: View, a: Apdu, k: nat)
    requires Receiver(p, s, v) && v.taken != [] && IsSegment(p, a, k) && k % 256 == |v.taken| % 256
    requires k != p.Count() - 1
    requires k % 256 != (v.group + p.window) % 256
    ensures var o := Server.TakeNext(s, p.sc, a, true);
      !o.raised && o.ssm.state == SEGMENTED_REQUEST && o.ssm.initialSequenceNumber == v.group % 256 && o.out == []
  {
    GroupEnd(v.group, p.window);
  }

  // ----- every step is a step of the view

  lemma OneSent(out: seq<Effect>)
    requires |out| == 1 && out[0].Down?
    ensures Sent(out) == [out[0].apdu] && Handed(out) == []
  {
    assert out[1..] == [];
  }

  lemma SentAndHanded(out: seq<Effect>)
    requires |out| == 2 && out[0].Down? && out[1].Up? && out[1].apdu.ConfirmedRequest?
    ensures Sent(out) == [out[0].apdu] && Handed(out) == [out[1].apdu.data]
  {
    var rest := out[1..];
    assert rest == [out[1]] && rest[1..] == [];
    assert Sent(rest) == [] && Handed(rest) == [out[1].apdu.data];
  }

  lemma OpenSim(p: Transfer, l: Link, v: View)
    requires Valid(p) && Rel(p, l, v) && l.toServer != [] && v.taken == [] && Enabled(p, l, TakeSegment)
    ensures Rel(p, Step(p, l, TakeSegment), Segment(p.Count(), p.window, v))
  {
    OpensServer(p, l.toServer[0]);
    var o := Server.Idle(NewSsm(p.sc), p.sc, p.si, l.toServer[0], true);
    OneSent(o.out);
    assert Content(p, [0]) == p.pieces[0] by { ContentStep(p, [], 0); assert [] + [0] == [0]; }
  }

  lemma IgnoreSim(p: Transfer, l: Link, v: View)
    requires Valid(p) && Rel(p, l, v) && l.toServer != [] && v.taken != [] && v.complete && Enabled(p, l, TakeSegment)
    ensures Rel(p, Step(p, l, TakeSegment), Segment(p.Count(), p.window, v))
  {
    ServerIgnores(p, l.server.value, l.toServer[0]);
  }

  lemma RefuseSim(p: Transfer, l: Link, v: View)
    requires Valid(p) && Rel(p, l, v) && l.toServer != [] && v.taken != [] && !v.complete && Enabled(p, l, TakeSegment)
    requires v.segments[0] % 256 != |v.taken| % 256
    ensures Rel(p, Step(p, l, TakeSegment), Segment(p.Count(), p.window, v))
  {
    var o := Server.Indication(l.server.value, p.sc, p.si, l.toServer[0], true);
    ServerRefuses(p, l.server.value, v, l.toServer[0], v.segments[0]);
    OneSent(o.out);
  }

  lemma LastSim(p: Transfer, l: Link, v: View)
    requires Valid(p) && Rel(p, l, v) && l.toServer != [] && v.taken != [] && !v.complete && Enabled(p, l, TakeSegment)
    requires v.segments[0] % 256 == |v.taken| % 256 && v.segments[0] == p.Count() - 1
    ensures Rel(p, Step(p, l, TakeSegment), Segment(p.Count(), p.window, v))
  {
    var s, a, k := l.server.value, l.toServer[0], v.segments[0];
    ServerAccepts(p, s, v, a, k);
    TakesLast(p, s, v, a, k);
    SentAndHanded(Server.TakeNext(s, p.sc, a, true).out);
  }

  lemma GroupSim(p: Transfer, l: Link, v: View)
    requires Valid(p) && Rel(p, l, v) && l.toServer != [] && v.taken != [] && !v.complete && Enabled(p, l, TakeSegment)
    requires v.segments[0] % 256 == |v.taken| % 256 && v.segments[0] != p.Count() - 1
    requires v.segments[0] % 256 == (v.group + p.window) % 256
    ensures Rel(p, Step(p, l, TakeSegment), Segment(p.Count(), p.window, v))
  {
    var s, a, k := l.server.value, l.toServer[0], v.segments[0];
    ServerAccepts(p, s, v, a, k);
    TakesGroup(p, s, v, a, k);
    OneSent(Server.TakeNext(s, p.sc, a, true).out);
  }

  lemma MiddleSim(p: Transfer, l: Link, v: View)
    requires Valid(p) && Rel(p, l, v) && l.toServer != [] && v.taken != [] && !v.complete && Enabled(p, l, TakeSegment)
    requires v.segments[0] % 256 == |v.taken| % 256 && v.segments[0] != p.Count() - 1
    requires v.segments[0] % 256 != (v.group + p.window) % 256
    ensures Rel(p, Step(p, l, TakeSegment), Segment(p.Count(), p.window, v))
  {
    var s, a, k := l.server.value, l.toServer[0], v.segments[0];
    ServerAccepts(p, s, v, a, k);
    TakesMiddle(p, s, v, a, k);
  }

  // ----- the client's side of a step

  lemma OldAckSim(p: Transfer, l: Link, v: View)
    requires Valid(p) && Rel(p, l, v) && l.toClient != [] && !v.finished && Enabled(p, l, TakeAck)
    requires !InWindow(v.acks[0] % 256, v.base, p.window)
    ensures Rel(p, Step(p, l, TakeAck), Acknowledge(p.Count(), p.window, v))
  {
    var o := Client.SegmentedRequest(l.client, p.cc, l.toClient[0], true);
    assert IsAck(p, l.toClient[0], v.acks[0]);
    assert o == Outcome(Restart(l.client.(actualWindowSize := Some(p.window)), p.cc.segmentTimeout), [], false);
  }

  lemma FinalAckSim(p: Transfer, l: Link, v: View)
    requires Valid(p) && Rel(p, l, v) && l.toClient != [] && !v.finished && Enabled(p, l, TakeAck)
    requires InWindow(v.acks[0] % 256, v.base, p.window) && v.sentAll
    ensures Rel(p, Step(p, l, TakeAck), Acknowledge(p.Count(), p.window, v))
  {
    var o := Client.SegmentedRequest(l.client, p.cc, l.toClient[0], true);
    assert IsAck(p, l.toClient[0], v.acks[0]);
    assert o == Outcome(Enter(l.client.(actualWindowSize := Some(p.window)), AWAIT_CONFIRMATION, p.cc.apduTimeout),
        [], false);
  }

  lemma NextAckIsFill(p: Transfer, s: Ssm, a: Apdu, acked: nat)
    requires Sender(p, s) && IsAck(p, a, acked) && !s.sentAllSegments && 0 < p.window
    requires InWindow(acked % 256, s.initialSequenceNumber, p.window)
    ensures var next := (acked + 1) % 256;
      Client.SegmentedRequest(s, p.cc, a, true)
      == FillWindow(s.(actualWindowSize := Some(p.window), initialSequenceNumber := next, segmentRetryCount := 0),
          p.cc, next, true, true)
  {
    assert (acked % 256 + 1) % 256 == (acked + 1) % 256;
    assert Client.SegmentedRequest(s, p.cc, a, true)
        == SendNextWindow(s.(actualWindowSize := Some(p.window)), p.cc, acked % 256, true);
  }

  /** The handler has gone on to the next window. */
  predicate GoesOn(p: Transfer, o: Outcome, next: nat)
    requires next < p.Count()
  {
    && !o.raised && AreSegments(p, Sent(o.out), Window(p.Count(), p.window, next))
    && Sender(p, o.ssm) && o.ssm.actualWindowSize == Some(p.window) && o.ssm.initialSequenceNumber == next
    && o.ssm.sentAllSegments == (p.Count() <= next + p.window)
  }

  /** What an acknowledgement that opens the next window does to the sender. */
  lemma NextAckFills(p: Transfer, s: Ssm, a: Apdu, acked: nat, base: nat)
    requires Valid(p) && Sender(p, s) && IsAck(p, a, acked) && s.initialSequenceNumber == base && !s.sentAllSegments
    requires InWindow(acked % 256, base, p.window) && (acked + 1) % 256 < p.Count()
    ensures GoesOn(p, Client.SegmentedRequest(s, p.cc, a, true), (acked + 1) % 256)
  {
    var next := (acked + 1) % 256;
    var s1 := s.(actualWindowSize := Some(p.window), initialSequenceNumber := next, segmentRetryCount := 0);
    NextAckIsFill(p, s, a, acked);
    FillView(p, s1, next, true);
  }

  lemma NextWindowView(p: Transfer, l: Link, v: View, o: Outcome, now: Link)
    requires Rel(p, l, v) && v.acks != [] && !v.finished && !v.sentAll && (v.acks[0] + 1) % 256 < p.Count()
    requires InWindow(v.acks[0] % 256, v.base, p.window) && GoesOn(p, o, (v.acks[0] + 1) % 256)
    requires now == ClientRan(l.(toClient := l.toClient[1..]), o)
    ensures Rel(p, now, Acknowledge(p.Count(), p.window, v))
  {
    MoreSegments(p, l.toServer, v.segments, Sent(o.out), Window(p.Count(), p.window, (v.acks[0] + 1) % 256));
  }

  lemma AckStep(p: Transfer, l: Link)
    requires l.toClient != [] && Enabled(p, l, TakeAck)
    ensures Step(p, l, TakeAck) == ClientRan(l.(toClient := l.toClient[1..]),
                                             Client.SegmentedRequest(l.client, p.cc, l.toClient[0], true))
  {
  }

  lemma NextAckSim(p: Transfer, l: Link, v: View)
    requires Valid(p) && Rel(p, l, v) && l.toClient != [] && !v.finished && Enabled(p, l, TakeAck)
    requires InWindow(v.acks[0] % 256, v.base, p.window) && !v.sentAll && (v.acks[0] + 1) % 256 < p.Count()
    ensures Rel(p, Step(p, l, TakeAck), Acknowledge(p.Count(), p.window, v))
  {
    AckStep(p, l);
    assert IsAck(p, l.toClient[0], v.acks[0]);
    NextAckFills(p, l.client, l.toClient[0], v.acks[0], v.base);
    NextWindowView(p, l, v, Client.SegmentedRequest(l.client, p.cc, l.toClient[0], true), Step(p, l, TakeAck));
  }

  /** What a timeout with a retry left sends. */
  lemma TimeoutResends(p: Transfer, s: Ssm, base: nat)
    requires Valid(p) && Sender(p, s) && s.initialSequenceNumber == base < p.Count()
    requires s.segmentRetryCount < p.cc.numberOfApduRetries
    requires base != 0 ==> s.actualWindowSize == Some(p.window)
    ensures var o := Client.SegmentedRequestTimeout(s, p.cc, true);
      && !o.raised && Sender(p, o.ssm) && o.ssm.initialSequenceNumber == base
      && o.ssm.actualWindowSize == s.actualWindowSize
      && AreSegments(p, Sent(o.out), if base == 0 then [0] else Window(p.Count(), p.window, base))
      && o.ssm.sentAllSegments == (s.sentAllSegments || (base != 0 && p.Count() <= base + p.window))
  {
    var s1 := Restart(s.(segmentRetryCount := s.segmentRetryCount + 1), p.cc.segmentTimeout);
    if base == 0 {
      SegmentOf(p, s1, 0);
      SentOne(GetSegment(s1, p.cc, 0).value);
    } else {
      FillView(p, s1, base, false);
    }
  }

  lemma TimeoutSim(p: Transfer, l: Link, v: View)
    requires Valid(p) && Rel(p, l, v) && !v.finished && Enabled(p, l, Timeout)
    ensures Rel(p, Step(p, l, Timeout), Resend(p.Count(), p.window, v))
  {
    var o := Client.SegmentedRequestTimeout(l.client.(timer := None), p.cc, true);
    TimeoutResends(p, l.client.(timer := None), v.base);
    MoreSegments(p, l.toServer, v.segments, Sent(o.out), if v.base == 0 then [0]
        else Window(p.Count(), p.window, v.base));
    assert Step(p, l, Timeout) == ClientRan(l, o);
  }

  lemma LossSim(p: Transfer, l: Link, v: View, m: Move)
    requires Valid(p) && Rel(p, l, v) && !v.finished && (m.LoseSegment? || m.LoseAck?) && Enabled(p, l, m)
    ensures Rel(p, Step(p, l, m), Windows.Step(p.Count(), p.window, v, m))
  {
  }

  lemma SegmentSim(p: Transfer, l: Link, v: View)
    requires Valid(p) && Rel(p, l, v) && l.toServer != [] && Enabled(p, l, TakeSegment)
    ensures Rel(p, Step(p, l, TakeSegment), Segment(p.Count(), p.window, v))
  {
    if v.taken == [] { OpenSim(p, l, v); }
    else if v.complete { IgnoreSim(p, l, v); }
    else if v.segments[0] % 256 != |v.taken| % 256 { RefuseSim(p, l, v); }
    else if v.segments[0] == p.Count() - 1 { LastSim(p, l, v); }
    else if v.segments[0] % 256 == (v.group + p.window) % 256 { GroupSim(p, l, v); }
    else { MiddleSim(p, l, v); }
  }

  /** A step of the link, unless it is a timeout with no retry left, is a step of its view. */
  lemma StepSim(p: Transfer, l: Link, v: View, m: Move)
    requires Valid(p) && Rel(p, l, v)
    requires !Windows.Step(p.Count(), p.window, v, m).overrun
    ensures Rel(p, Step(p, l, m), if m.Timeout? && !Enabled(p, l, m) then v
        else Windows.Step(p.Count(), p.window, v, m))
  {
    if !v.finished && Enabled(p, l, m) {
      match m {
        case TakeSegment => SegmentSim(p, l, v);
        case TakeAck =>
          if !InWindow(v.acks[0] % 256, v.base, p.window) { OldAckSim(p, l, v); }
          else if v.sentAll { FinalAckSim(p, l, v); }
          else { NextAckSim(p, l, v); }
        case Timeout => TimeoutSim(p, l, v);
        case _ => LossSim(p, l, v, m);
      }
    }
  }
}
