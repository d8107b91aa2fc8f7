/** When a client may conclude from a segment ack that its request has arrived, on a network that
    loses, repeats and reorders and between machines that may both time out: a server that has
    given up is replaced by one that acknowledges its first segment with number 0, and that number
    is in the client's last window if the window, counted in full, goes past 255. */
module Completion {
  import opened Apdus
  import opened Segmentation
  import opened Delivery
  import Client = ClientSteps
  import Server = ServerSteps
  import Stream
  import Rounds
  import Transfers
  import Windows

  function Window(p: Setup): byte {
    Stream.AgreedWindow(p.cc, p.sc)
  }

  predicate Segmented(p: Setup) {
    1 < |p.request| && 0 < Window(p)
  }

  /** Windows start at 1, 1 + w, 1 + 2w and so on; this one holds the last segment. */
  function LastStart(p: Setup): int
    requires Segmented(p)
  {
    1 + (|p.request| - 2) / Window(p) * Window(p)
  }

  /** The last window, counted in full, ends before the numbers start over. */
  predicate Unwrapped(p: Setup)
    requires Segmented(p)
  {
    LastStart(p) + Window(p) <= 256
  }

  /** The serving application has been handed a request. */
  predicate Served(n: Net) {
    exists h :: h in n.served && h.apdu.ConfirmedRequest?
  }

  /** The client has concluded that its request has arrived. */
  predicate Concluded(s: Ssm) {
    s.state == AWAIT_CONFIRMATION || s.state == SEGMENTED_CONFIRMATION
  }

  // ----- the invariant, as long as no request has been handed up

  predicate IsMultiple(k: nat, w: nat)
    requires 0 < w
  {
    k == 0 || (w <= k && IsMultiple(k - w, w))
  }

  /** A segment that ends a group and is not the last one. */
  predicate EndsGroup(p: Setup, k: nat)
    requires Segmented(p)
  {
    IsMultiple(k, Window(p)) && k < |p.request| - 1
  }

  predicate FromServer(p: Setup, a: Apdu)
    requires Segmented(p)
  {
    a.Abort? || (a.SegmentAck? && a.win == Window(p) && EndsGroup(p, a.seqNo))
  }

  predicate FromClient(p: Setup, a: Apdu) {
    a.ConfirmedRequest? ==> a.win == Window(p) || a.win == p.cc.proposedWindowSize
  }

  predicate Sends(p: Setup, s: Ssm)
    requires Segmented(p)
  {
    s.Finished() ||
    (&& s.state == SEGMENTED_REQUEST
     && (s.actualWindowSize.Some? ==> s.actualWindowSize == Some(Window(p)))
     && (s.initialSequenceNumber != 0 ==> EndsGroup(p, s.initialSequenceNumber - 1))
     && (s.sentAllSegments ==>
          s.initialSequenceNumber != 0 && |p.request| <= s.initialSequenceNumber + Window(p)))
  }

  predicate Collects(p: Setup, s: Ssm)
    requires Segmented(p)
  {
    s.state == IDLE ||
    (&& s.state == SEGMENTED_REQUEST && s.actualWindowSize == Some(Window(p))
     && EndsGroup(p, s.initialSequenceNumber) && s.initialSequenceNumber <= s.lastSequenceNumber
     && (0 < s.lastSequenceNumber < |p.request| - 1 ==> s.timer.Some?))
  }

  ghost predicate Unserved(p: Setup, n: Net)
    requires Segmented(p)
  {
    && Sends(p, n.client) && (n.server.Some? ==> Collects(p, n.server.value))
    && (forall a :: a in n.toServer ==> FromClient(p, a))
    && (forall a :: a in n.toClient ==> FromServer(p, a))
  }

  /** What a client handler has to establish. */
  ghost predicate SendsOn(p: Setup, o: Outcome)
    requires Segmented(p)
  {
    Sends(p, o.ssm) && forall e :: e in o.out && e.Down? ==> FromClient(p, e.apdu)
  }

  ghost predicate CollectsOn(p: Setup, o: Outcome)
    requires Segmented(p)
  {
    (o.ssm.Finished() || Collects(p, o.ssm)) && forall e :: e in o.out && e.Down? ==> FromServer(p, e.apdu)
  }

  predicate Serves(o: Outcome) {
    exists e :: e in o.out && e.Up? && e.apdu.ConfirmedRequest?
  }

  // ----- the client

  lemma SegmentWindow(p: Setup, s: Ssm, indx: nat)
    requires s.actualWindowSize.Some? ==> s.actualWindowSize == Some(Window(p))
    ensures GetSegment(s, p.cc, indx).Some? && s.segmentCount != 1 ==> FromClient(p, GetSegment(s, p.cc, indx).value)
  {
  }

  lemma {:induction false} FillEnds(p: Setup, s: Ssm, seqNum: nat, ix: nat)
    requires ValidSetup(p) && Segmented(p) && Delivery.Sending(s, p.req, p.requestSize, |p.request|)
    requires s.actualWindowSize == Some(Window(p))
    ensures var f := FillFrom(s, p.cc, seqNum, ix, Window(p));
      && (forall a :: a in f.sent ==> FromClient(p, a))
      && (f.last ==> |p.request| <= seqNum + Window(p))
    decreases Window(p) - ix
  {
    if ix < Window(p) {
      SegmentWindow(p, s, seqNum + ix);
      FillEnds(p, s, seqNum, ix + 1);
    }
  }

  lemma FillSendsOn(p: Setup, s: Ssm, seqNum: byte, sendOk: bool, restart: bool)
    requires ValidSetup(p) && Segmented(p) && Delivery.Sending(s, p.req, p.requestSize, |p.request|)
    requires Sends(p, s) && s.state == SEGMENTED_REQUEST && seqNum == s.initialSequenceNumber != 0
    ensures SendsOn(p, FillWindow(s, p.cc, seqNum, sendOk, restart))
  {
    if s.actualWindowSize.Some? { FillEnds(p, s, seqNum, 0); }
  }

  lemma {:induction false} Multiple(k: nat, w: nat) returns (t: nat)
    requires 0 < w && IsMultiple(k, w)
    ensures k == t * w
  {
    if k == 0 {
      t := 0;
    } else {
      t := Multiple(k - w, w);
      assert (t + 1) * w == t * w + w;
      t := t + 1;
    }
  }

  /** Different multiples are at least w apart. */
  lemma MultiplesApart(t: nat, u: nat, w: nat)
    ensures if t < u then t * w + w <= u * w else u * w <= t * w
  {
    if t < u {
      Windows.MulMono(t + 1, u, w);
      assert (t + 1) * w == t * w + w;
    } else {
      Windows.MulMono(u, t, w);
    }
  }

  lemma Quotient(a: nat, w: nat)
    requires 0 < w
    ensures a / w * w <= a < a / w * w + w
  {
    assert a == a / w * w + a % w;
  }

  lemma MultipleWithin(t: nat, a: nat, w: nat)
    requires 0 < w && t * w <= a
    ensures t * w <= a / w * w
  {
    Quotient(a, w);
    MultiplesApart(a / w, t, w);
  }

  lemma StartsWithin(p: Setup, base: byte)
    requires Segmented(p) && base != 0 && EndsGroup(p, base - 1)
    ensures base <= LastStart(p)
  {
    var t := Multiple(base - 1, Window(p));
    MultipleWithin(t, |p.request| - 2, Window(p));
  }

  /** Once the window that starts at base has the last segment in it, no other number of a group
      that may be acknowledged is in it. */
  lemma NothingInLastWindow(p: Setup, acked: byte, base: byte)
    requires Segmented(p) && Unwrapped(p) && base != 0 && EndsGroup(p, base - 1) && EndsGroup(p, acked)
    requires |p.request| <= base + Window(p)
    ensures !InWindow(acked, base, Window(p))
  {
    var w := Window(p);
    StartsWithin(p, base);
    var t := Multiple(base - 1, w);
    var u := Multiple(acked, w);
    MultiplesApart(t, u, w);
  }

  /** The ack of something in the last window, which the client has sent. */
  predicate AcksLast(s: Ssm, apdu: Apdu) {
    apdu.SegmentAck? && s.sentAllSegments && InWindow(apdu.seqNo, s.initialSequenceNumber, apdu.win)
  }

  lemma NothingAcksLast(p: Setup, s: Ssm, apdu: Apdu)
    requires Segmented(p) && Unwrapped(p) && Sends(p, s) && s.state == SEGMENTED_REQUEST && FromServer(p, apdu)
    ensures !AcksLast(s, apdu)
  {
    if apdu.SegmentAck? && s.sentAllSegments {
      NothingInLastWindow(p, apdu.seqNo, s.initialSequenceNumber);
    }
  }

  lemma NextWindowSendsOn(p: Setup, s: Ssm, acked: byte, sendOk: bool)
    requires ValidSetup(p) && Segmented(p) && Delivery.Sending(s, p.req, p.requestSize, |p.request|)
    requires s.state == SEGMENTED_REQUEST && s.actualWindowSize == Some(Window(p)) && !s.sentAllSegments
    requires EndsGroup(p, acked)
    ensures SendsOn(p, SendNextWindow(s, p.cc, acked, sendOk))
  {
    var next := (acked + 1) % 256;
    assert next == acked + 1;
    FillSendsOn(p, s.(initialSequenceNumber := next, segmentRetryCount := 0), next, sendOk, true);
  }

  /** The client moves on to await its confirmation only on such an ack. */
  lemma AckSendsOn(p: Setup, s: Ssm, apdu: Apdu, sendOk: bool)
    requires ValidSetup(p) && Segmented(p) && Delivery.Sending(s, p.req, p.requestSize, |p.request|)
    requires Sends(p, s) && s.state == SEGMENTED_REQUEST && s.invokeID.Some? && FromServer(p, apdu)
    ensures var o := Client.SegmentedRequest(s, p.cc, apdu, sendOk);
      if AcksLast(s, apdu) then Concluded(o.ssm) else SendsOn(p, o)
  {
    if apdu.SegmentAck? && InWindow(apdu.seqNo, s.initialSequenceNumber, apdu.win) && !s.sentAllSegments {
      NextWindowSendsOn(p, s.(actualWindowSize := Some(apdu.win)), apdu.seqNo, sendOk);
    }
  }

  lemma RetrySendsOn(p: Setup, s: Ssm, sendOk: bool)
    requires ValidSetup(p) && Segmented(p) && Delivery.Sending(s, p.req, p.requestSize, |p.request|)
    requires Sends(p, s) && s.state == SEGMENTED_REQUEST
    ensures SendsOn(p, if s.initialSequenceNumber == 0 then Client.ResendFirst(s, p.cc, sendOk)
                       else FillWindow(s, p.cc, s.initialSequenceNumber, sendOk, false))
  {
    if s.initialSequenceNumber == 0 {
      SegmentWindow(p, s, 0);
    } else {
      FillSendsOn(p, s, s.initialSequenceNumber, sendOk, false);
    }
  }

  lemma TimeoutSendsOn(p: Setup, s: Ssm, sendOk: bool)
    requires ValidSetup(p) && Segmented(p) && Delivery.Sending(s, p.req, p.requestSize, |p.request|)
    requires Sends(p, s) && s.state == SEGMENTED_REQUEST && s.invokeID.Some?
    ensures SendsOn(p, Client.SegmentedRequestTimeout(s, p.cc, sendOk))
  {
    if s.segmentRetryCount < p.cc.numberOfApduRetries {
      RetrySendsOn(p, Restart(s.(segmentRetryCount := s.segmentRetryCount + 1), p.cc.segmentTimeout), sendOk);
    }
  }

  lemma BeginSendsOn(p: Setup, sendOk: bool)
    requires ValidSetup(p) && Segmented(p)
    ensures SendsOn(p, Client.Indication(NewSsm(p.cc), p.cc, p.ci, p.req, sendOk))
  {
    var s1 := Client.Prepare(NewSsm(p.cc), p.cc, p.requestSize, p.req);
    SegmentWindow(p, Client.Start(s1, p.cc), 0);
  }

  // ----- the server

  lemma OpenCollectsOn(p: Setup, s: Ssm, apdu: Apdu, sendOk: bool)
    requires ValidSetup(p) && Segmented(p) && s.state == IDLE
    requires apdu.ConfirmedRequest? && RequestPiece(p, apdu) && FromClient(p, apdu)
    ensures CollectsOn(p, Server.Idle(s, p.sc, p.si, apdu, sendOk))
  {
  }

  /** The end of the group that follows. */
  lemma NextGroup(p: Setup, initial: byte, last: byte)
    requires Segmented(p) && EndsGroup(p, initial) && initial < last < |p.request| - 1
    requires last == (initial + Window(p)) % 256
    ensures EndsGroup(p, last)
  {
    assert last == initial + Window(p);
  }

  predicate Grouping(p: Setup, s: Ssm)
    requires Segmented(p)
  {
    && s.state == SEGMENTED_REQUEST && Server.Receiving(s) && s.actualWindowSize == Some(Window(p))
    && EndsGroup(p, s.initialSequenceNumber) && s.initialSequenceNumber < s.lastSequenceNumber
  }

  lemma MiddleCollectsOn(p: Setup, s: Ssm, sendOk: bool)
    requires Segmented(p) && Grouping(p, s) && s.lastSequenceNumber < |p.request| - 1
    ensures CollectsOn(p, Server.TakeMiddle(s, p.sc, sendOk))
  {
    if s.lastSequenceNumber == (s.initialSequenceNumber + Window(p)) % 256 {
      NextGroup(p, s.initialSequenceNumber, s.lastSequenceNumber);
    }
  }

  lemma LastServes(p: Setup, s: Ssm, sendOk: bool)
    requires Segmented(p) && Grouping(p, s) && s.lastSequenceNumber == |p.request| - 1
    ensures var o := Server.TakeLast(s, p.sc, sendOk); if sendOk then Serves(o) else CollectsOn(p, o)
  {
    var o := Server.TakeLast(s, p.sc, sendOk);
    if sendOk { assert o.out[1].Up? && o.out[1] in o.out; }
  }

  lemma TakeCollectsOn(p: Setup, s: Ssm, apdu: Apdu, sendOk: bool, k: nat)
    requires ValidSetup(p) && Segmented(p) && ServerOk(p, s, k) && Collects(p, s) && s.state == SEGMENTED_REQUEST
    requires apdu.ConfirmedRequest? && RequestPiece(p, apdu) && apdu.seqNo == (s.lastSequenceNumber + 1) % 256
    ensures var o := Server.TakeNext(s, p.sc, apdu, sendOk); CollectsOn(p, o) || Serves(o)
  {
    NextPiece(p.request, k, s.lastSequenceNumber, s.segmentAPDU.value, apdu);
    var s1 := s.(segmentAPDU := Some(AppendData(s.segmentAPDU.value, apdu.data)), lastSequenceNumber := apdu.seqNo);
    if apdu.mor { MiddleCollectsOn(p, s1, sendOk); } else { LastServes(p, s1, sendOk); }
  }

  lemma RequestCollectsOn(p: Setup, s: Ssm, apdu: Apdu, sendOk: bool, k: nat)
    requires ValidSetup(p) && Segmented(p) && ServerOk(p, s, k) && Collects(p, s) && s.state == SEGMENTED_REQUEST
    requires RequestPiece(p, apdu)
    ensures var o := Server.SegmentedRequest(s, p.sc, apdu, sendOk); CollectsOn(p, o) || Serves(o)
  {
    if apdu.ConfirmedRequest? && apdu.seqNo == (s.lastSequenceNumber + 1) % 256 {
      TakeCollectsOn(p, s, apdu, sendOk, k);
    }
  }

  // ----- every run

  lemma {:induction false} HandedUpHas(out: seq<Effect>, e: Effect, k: nat)
    requires e in out && e.Up?
    ensures Handed(k, e.apdu) in HandedUp(out, k)
  {
    if e != out[0] { HandedUpHas(out[1..], e, k); }
  }

  lemma ServerRanGoesOn(p: Setup, n: Net, s: Ssm, o: Outcome, place: nat)
    requires Segmented(p) && Unserved(p, n) && (CollectsOn(p, o) || Serves(o))
    ensures Unserved(p, ServerRan(n, s, o, place)) || Served(ServerRan(n, s, o, place))
  {
    if Serves(o) {
      var e :| e in o.out && e.Up? && e.apdu.ConfirmedRequest?;
      var n' := ServerRan(n, s, o, place);
      HandedUpHas(o.out, e, n'.serverOpenedBy);
      assert Handed(n'.serverOpenedBy, e.apdu) in n'.served;
    }
  }

  lemma ServerTakesGoesOn(p: Setup, n: Net, apdu: Apdu, sendOk: bool)
    requires ValidSetup(p) && Segmented(p) && Inv(p, n) && Unserved(p, n) && apdu in n.toServer
    ensures var n' := ServerTakes(p, n, apdu, sendOk); Unserved(p, n') || Served(n')
  {
    if n.server.Some? || apdu.ConfirmedRequest? {
      var s := if n.server.Some? then n.server.value else NewSsm(p.sc);
      if s.state == IDLE {
        if apdu.ConfirmedRequest? { OpenCollectsOn(p, s, apdu, sendOk); }
      } else {
        RequestCollectsOn(p, s, apdu, sendOk, n.serverOpenedBy);
      }
      ServerRanGoesOn(p, n, s, Server.Indication(s, p.sc, p.si, apdu, sendOk), Place(apdu));
    }
  }

  lemma ClientRanGoesOn(p: Setup, n: Net, o: Outcome, place: nat)
    requires Segmented(p) && Unserved(p, n) && SendsOn(p, o)
    ensures Unserved(p, ClientRan(n, o, place))
  {
  }

  lemma ClientTakesGoesOn(p: Setup, n: Net, apdu: Apdu, sendOk: bool)
    requires ValidSetup(p) && Segmented(p) && Inv(p, n) && Unserved(p, n)
    requires apdu in n.toClient && n.client.state == SEGMENTED_REQUEST
    ensures var n' := ClientRan(n, Client.Confirmation(n.client, p.cc, apdu, sendOk), Place(apdu));
      Unserved(p, n') || (!Unwrapped(p) && Concluded(n'.client))
  {
    AckSendsOn(p, n.client, apdu, sendOk);
    if AcksLast(n.client, apdu) {
      if Unwrapped(p) { NothingAcksLast(p, n.client, apdu); }
    } else {
      ClientRanGoesOn(p, n, Client.Confirmation(n.client, p.cc, apdu, sendOk), Place(apdu));
    }
  }

  /** Until a request is handed up the invariant lasts, but for a client whose last window goes
      past 255. */
  lemma ApplyGoesOn(p: Setup, n: Net, e: Event)
    requires ValidSetup(p) && Segmented(p) && Inv(p, n) && Unserved(p, n)
    ensures var n' := Apply(p, n, e);
      Unserved(p, n') || Served(n') || (!Unwrapped(p) && Concluded(n'.client))
  {
    if Enabled(p, n, e) {
      match e {
        case ToServer(apdu, ok) => ServerTakesGoesOn(p, n, apdu, ok);
        case ToClient(apdu, ok) => ClientTakesGoesOn(p, n, apdu, ok);
        case ClientTimer(ok) =>
          TimeoutSendsOn(p, n.client.(timer := None), ok);
          ClientRanGoesOn(p, n, Client.TimerExpired(n.client, p.cc, p.ci, ok), 0);
        case ServerTimer(ok) =>
          ServerRanGoesOn(p, n, n.server.value, Server.TimerExpired(n.server.value, p.sc, ok), 0);
        case Answer(apdu, ok) =>
      }
    }
  }

  lemma ServedStays(p: Setup, n: Net, e: Event)
    requires Served(n)
    ensures Served(Apply(p, n, e))
  {
    var h :| h in n.served && h.apdu.ConfirmedRequest?;
    assert n.served <= Apply(p, n, e).served;
    assert h in Apply(p, n, e).served;
  }

  /** The client has concluded that a request has arrived which has not been handed up. */
  predicate Early(n: Net) {
    Concluded(n.client) && !Served(n)
  }

  lemma StepGoesOn(p: Setup, n: Net, e: Event)
    requires ValidSetup(p) && Segmented(p) && Inv(p, n) && (Unserved(p, n) || Served(n))
    ensures var n' := Apply(p, n, e);
      Inv(p, n') && (Unserved(p, n') || Served(n') || (!Unwrapped(p) && Early(n')))
  {
    ApplyInv(p, n, e);
    if Served(n) { ServedStays(p, n, e); } else { ApplyGoesOn(p, n, e); }
  }

  lemma FirstEvents(p: Setup, n: Net, events: seq<Event>, k: nat)
    requires 0 < k <= |events|
    ensures Run(p, n, events[..k]) == Run(p, Apply(p, n, events[0]), events[1..][..k - 1])
  {
    assert events[..k][0] == events[0] && events[..k][1..] == events[1..][..k - 1];
  }

  /** If the invariant does not last, it is because the client concludes early, after some k events. */
  lemma {:induction false} RunGoesOn(p: Setup, n: Net, events: seq<Event>) returns (k: nat)
    requires ValidSetup(p) && Segmented(p) && Inv(p, n) && (Unserved(p, n) || Served(n))
    ensures k <= |events|
    ensures Unserved(p, Run(p, n, events)) || Served(Run(p, n, events))
         || (!Unwrapped(p) && Early(Run(p, n, events[..k])))
    decreases |events|
  {
    k := 0;
    if events != [] {
      var n' := Apply(p, n, events[0]);
      StepGoesOn(p, n, events[0]);
      if Unserved(p, n') || Served(n') { k := RunGoesOn(p, n', events[1..]); }
      k := k + 1;
      FirstEvents(p, n, events, k);
    }
  }

  lemma BeginsUnserved(p: Setup, sendOk: bool)
    requires ValidSetup(p) && Segmented(p)
    ensures Inv(p, Begin(p, sendOk)) && Unserved(p, Begin(p, sendOk))
  {
    BeginInv(p, sendOk);
    BeginSendsOn(p, sendOk);
    ClientRanGoesOn(p, Net(NewSsm(p.cc).(state := ABORTED), None, {}, {}, 0, 0, [], []),
                    Client.Indication(NewSsm(p.cc), p.cc, p.ci, p.req, sendOk), 0);
  }

  /** In no run does the client conclude early. */
  ghost predicate NeverEarly(p: Setup) {
    forall sendOk: bool, events: seq<Event> :: !Early(Run(p, Begin(p, sendOk), events))
  }

  /** A client whose last window does not go past 255 moves on only when a request has been handed
      up, whatever is lost, repeated and late, and whichever timers expire. */
  lemma ConcludesSoundly(p: Setup)
    requires ValidSetup(p) && Segmented(p) && Unwrapped(p)
    ensures NeverEarly(p)
  {
    forall sendOk: bool, events: seq<Event> ensures !Early(Run(p, Begin(p, sendOk), events)) {
      BeginsUnserved(p, sendOk);
      var k := RunGoesOn(p, Begin(p, sendOk), events);
    }
  }

  // ----- a lossless transfer as a run

  function TransferOf(p: Setup): Stream.Transfer {
    Stream.Transfer(p.req, p.cc, p.sc, p.ci, p.si, p.requestSize, p.request, Window(p))
  }

  /** A link of the two machines that keeps the order is such a network, with less under way. */
  ghost predicate Alike(l: Stream.Link, n: Net) {
    && l.client == n.client && l.server == n.server
    && (forall a :: a in l.toServer ==> a in n.toServer) && (forall a :: a in l.toClient ==> a in n.toClient)
    && (l.handed == [] ==> !Served(n))
  }

  lemma {:induction false} SentAlike(out: seq<Effect>)
    ensures forall a :: a in Stream.Sent(out) ==> a in Sent(out)
    decreases |out|
  {
    if out != [] {
      SentAlike(out[1..]);
      forall a | a in Stream.Sent(out) ensures a in Sent(out) {
        if !(out[0].Down? && out[0].apdu == a) { assert a in Sent(out[1..]); }
      }
    }
  }

  lemma {:induction false} NoneHanded(out: seq<Effect>, k: nat)
    requires Stream.Handed(out) == []
    ensures forall h :: h in HandedUp(out, k) ==> !h.apdu.ConfirmedRequest?
    decreases |out|
  {
    if out != [] { NoneHanded(out[1..], k); }
  }

  lemma RunSplit(p: Setup, n: Net, first: seq<Event>, second: seq<Event>)
    ensures Run(p, n, first + second) == Run(p, Run(p, n, first), second)
    decreases |first|
  {
    if first == [] {
      assert first + second == second;
    } else {
      assert (first + second)[1..] == first[1..] + second;
      RunSplit(p, Apply(p, n, first[0]), first[1..], second);
    }
  }

  lemma RunOne(p: Setup, n: Net, e: Event)
    ensures Run(p, n, [e]) == Apply(p, n, e)
  {
    assert [e][1..] == [];
  }

  lemma TakenAlike(p: Setup, l: Stream.Link, n: Net)
    requires Alike(l, n) && l.toServer != [] && l.toServer[0].ConfirmedRequest?
    requires Stream.Enabled(TransferOf(p), l, Windows.TakeSegment)
    ensures Alike(Stream.Step(TransferOf(p), l, Windows.TakeSegment), Apply(p, n, ToServer(l.toServer[0], true)))
  {
    var s := if l.server.Some? then l.server.value else NewSsm(p.sc);
    var o := Server.Indication(s, p.sc, p.si, l.toServer[0], true);
    var n' := Apply(p, n, ToServer(l.toServer[0], true));
    SentAlike(o.out);
    if Stream.Handed(o.out) == [] { NoneHanded(o.out, n'.serverOpenedBy); }
  }

  lemma AnsweredAlike(p: Setup, l: Stream.Link, n: Net)
    requires Alike(l, n) && Stream.Enabled(TransferOf(p), l, Windows.TakeAck)
    ensures Alike(Stream.Step(TransferOf(p), l, Windows.TakeAck), Apply(p, n, ToClient(l.toClient[0], true)))
  {
    SentAlike(Client.Confirmation(l.client, p.cc, l.toClient[0], true).out);
  }

  lemma StepAlike(p: Setup, l: Stream.Link, v: Windows.View, n: Net, m: Windows.Move) returns (events: seq<Event>)
    requires Stream.Valid(TransferOf(p)) && Stream.Rel(TransferOf(p), l, v) && Alike(l, n)
    requires m.TakeSegment? || m.TakeAck?
    ensures Alike(Stream.Step(TransferOf(p), l, m), Run(p, n, events))
  {
    if !Stream.Enabled(TransferOf(p), l, m) {
      events := [];
    } else if m.TakeSegment? {
      assert Stream.IsSegment(TransferOf(p), l.toServer[0], v.segments[0]);
      TakenAlike(p, l, n);
      events := [ToServer(l.toServer[0], true)];
      RunOne(p, n, events[0]);
    } else {
      AnsweredAlike(p, l, n);
      events := [ToClient(l.toClient[0], true)];
      RunOne(p, n, events[0]);
    }
  }

  lemma RunCopies(t: Stream.Transfer, l: Stream.Link, m: Windows.Move, k: nat)
    requires 0 < k
    ensures Stream.Run(t, l, Rounds.Copies(m, k)) == Stream.Run(t, Stream.Step(t, l, m), Rounds.Copies(m, k - 1))
  {
    assert Rounds.Copies(m, k)[1..] == Rounds.Copies(m, k - 1);
  }

  lemma {:induction false} CopiesAlike(p: Setup, l: Stream.Link, v: Windows.View, n: Net, m: Windows.Move, k: nat)
    returns (events: seq<Event>)
    requires Stream.Valid(TransferOf(p)) && Transfers.Tracked(TransferOf(p), l, v) && Alike(l, n)
    requires m.TakeSegment? || m.TakeAck?
    ensures Alike(Stream.Run(TransferOf(p), l, Rounds.Copies(m, k)), Run(p, n, events))
    decreases k
  {
    var t := TransferOf(p);
    events := [];
    if k > 0 {
      events := StepAlike(p, l, v, n, m);
      Transfers.TrackedStep(t, l, v, m);
      var l1, v1 := Stream.Step(t, l, m), Windows.Step(t.Count(), t.window, v, m);
      var rest := CopiesAlike(p, l1, v1, Run(p, n, events), m, k - 1);
      RunCopies(t, l, m, k);
      RunSplit(p, n, events, rest);
      events := events + rest;
    }
  }

  lemma {:induction false} ExchangesAlike(p: Setup, r: nat) returns (events: seq<Event>)
    requires ValidSetup(p) && Stream.Valid(TransferOf(p))
    ensures Alike(Transfers.Exchanges(TransferOf(p), r), Run(p, Begin(p, true), events))
  {
    var t := TransferOf(p);
    events := [];
    if r == 0 {
      SentAlike(Client.Indication(NewSsm(p.cc), p.cc, p.ci, p.req, true).out);
    } else {
      events := ExchangesAlike(p, r - 1);
      Transfers.TrackedExchanges(t, r - 1);
      var n := Run(p, Begin(p, true), events);
      var l, v := Transfers.Exchanges(t, r - 1), Rounds.Exchanges(t.Count(), t.window, r - 1);
      var taken := CopiesAlike(p, l, v, n, Windows.TakeSegment, |l.toServer|);
      Transfers.TrackedCopies(t, l, v, Windows.TakeSegment, |v.segments|);
      var u := Stream.Run(t, l, Rounds.Copies(Windows.TakeSegment, |l.toServer|));
      var answered := CopiesAlike(p, u, Rounds.TakeSegments(t.Count(), t.window, v), Run(p, n, taken), Windows.TakeAck,
                                  |u.toClient|);
      RunSplit(p, n, taken, answered);
      RunSplit(p, Begin(p, true), events, taken + answered);
      events := events + (taken + answered);
    }
  }

  // ----- and how it goes wrong

  lemma GivesUp(p: Setup, n: Net)
    requires n.server.Some? && n.server.value.state == SEGMENTED_REQUEST && n.server.value.timer.Some?
    requires Server.Running(n.server.value)
    ensures Apply(p, n, ServerTimer(true)) == n.(server := None)
  {
  }

  function FirstAck(p: Setup, invokeID: byte): Apdu {
    SegmentAckOf(false, true, invokeID, 0, Window(p))
  }

  lemma OpensAnother(p: Setup, n: Net, a: Apdu)
    requires Stream.Valid(TransferOf(p)) && n.server.None?
    requires a in n.toServer && a.ConfirmedRequest? && a.seg && a.maxResp < 6 && a.maxSegs < 8 && FromClient(p, a)
    ensures var n' := Apply(p, n, ToServer(a, true));
      n'.client == n.client && n'.served == n.served && FirstAck(p, a.invokeID) in n'.toClient
  {
    var o := Server.Idle(NewSsm(p.sc), p.sc, p.si, a, true);
    assert o.out == [Down(FirstAck(p, a.invokeID))];
    assert Down(FirstAck(p, a.invokeID)) in o.out;
    assert HandedUp(o.out, Place(a)) == HandedUp(o.out[1..], Place(a)) == [];
    assert Apply(p, n, ToServer(a, true)) == ServerRan(n, NewSsm(p.sc), o, Place(a));
  }

  lemma TakesFirstAck(p: Setup, n: Net, invokeID: byte)
    requires 0 < Window(p) && Client.Running(n.client) && FirstAck(p, invokeID) in n.toClient
    requires n.client.state == SEGMENTED_REQUEST && n.client.sentAllSegments
    requires 256 < n.client.initialSequenceNumber + Window(p)
    ensures var n' := Apply(p, n, ToClient(FirstAck(p, invokeID), true));
      n'.client.state == AWAIT_CONFIRMATION && n'.served == n.served
  {
  }

  /** The server gives up, the first segment of the client's last window opens another transaction,
      and the client takes its acknowledgement for one of that window. */
  lemma GivesUpEarly(p: Setup, n: Net, a: Apdu) returns (events: seq<Event>)
    requires Stream.Valid(TransferOf(p)) && Client.Running(n.client)
    requires n.client.state == SEGMENTED_REQUEST && n.client.sentAllSegments && !Served(n)
    requires 256 < n.client.initialSequenceNumber + Window(p)
    requires n.server.Some? && n.server.value.state == SEGMENTED_REQUEST && n.server.value.timer.Some?
    requires Server.Running(n.server.value)
    requires a in n.toServer && a.ConfirmedRequest? && a.seg && a.maxResp < 6 && a.maxSegs < 8 && FromClient(p, a)
    ensures Early(Run(p, n, events))
  {
    var first, second, third := ServerTimer(true), ToServer(a, true), ToClient(FirstAck(p, a.invokeID), true);
    var n1 := n.(server := None);
    GivesUp(p, n);
    var n2 := Apply(p, n1, second);
    OpensAnother(p, n1, a);
    TakesFirstAck(p, n2, a.invokeID);
    RunOne(p, n2, third);
    RunSplit(p, n1, [second], [third]);
    RunOne(p, n1, second);
    RunSplit(p, n, [first], [second] + [third]);
    RunOne(p, n, first);
    events := [first] + ([second] + [third]);
  }

  lemma LastLap(p: Setup) returns (r: nat)
    requires 1 < |p.request| <= 256 && 0 < Window(p) < 128
    ensures var v := Rounds.Exchanges(|p.request|, Window(p), r);
      Rounds.AtWindow(|p.request|, Window(p), v, 0) && v.base == LastStart(p) && v.sentAll
  {
    var size, w := |p.request|, Window(p);
    r := (size - 2) / w + 1;
    assert size - 2 == (r - 1) * w + (size - 2) % w;
    Rounds.FirstLap(size, w, r);
  }

  lemma LastWindowView(p: Setup, l: Stream.Link, v: Windows.View, a: Apdu)
    requires Stream.Rel(TransferOf(p), l, v) && Rounds.AtWindow(|p.request|, Window(p), v, 0)
    requires v.sentAll && a == l.toServer[0]
    ensures l.client.state == SEGMENTED_REQUEST && l.client.initialSequenceNumber == v.base && l.client.sentAllSegments
    ensures l.handed == [] && l.server.Some? && l.server.value.state == SEGMENTED_REQUEST
    ensures l.server.value.lastSequenceNumber == v.base - 1 && Stream.IsSegment(TransferOf(p), a, v.base)
  {
    assert v.segments[0] == v.base;
  }

  /** Without loss, the client comes to its last window before the server has any of it. */
  lemma LastWindowSent(p: Setup) returns (r: nat, a: Apdu)
    requires ValidSetup(p) && Stream.Valid(TransferOf(p))
    ensures var l := Transfers.Exchanges(TransferOf(p), r);
      && l.client.state == SEGMENTED_REQUEST && l.client.initialSequenceNumber == LastStart(p)
      && l.client.sentAllSegments && l.handed == []
      && l.server.Some? && l.server.value.state == SEGMENTED_REQUEST
      && l.server.value.lastSequenceNumber == LastStart(p) - 1
      && a in l.toServer && Stream.IsSegment(TransferOf(p), a, LastStart(p))
  {
    var t := TransferOf(p);
    r := LastLap(p);
    Transfers.TrackedExchanges(t, r);
    a := Transfers.Exchanges(t, r).toServer[0];
    LastWindowView(p, Transfers.Exchanges(t, r), Rounds.Exchanges(|p.request|, Window(p), r), a);
  }

  /** Otherwise there is a run in which it concludes early: a transfer without loss up to the last
      window, and there the server gives up. */
  lemma MayConcludeEarly(p: Setup) returns (events: seq<Event>)
    requires ValidSetup(p) && Stream.Valid(TransferOf(p)) && !Unwrapped(p)
    ensures Early(Run(p, Begin(p, true), events))
  {
    var r, a := LastWindowSent(p);
    events := ExchangesAlike(p, r);
    var n := Run(p, Begin(p, true), events);
    BeginsUnserved(p, true);
    RunInv(p, Begin(p, true), events);
    var k := RunGoesOn(p, Begin(p, true), events);
    if Early(Run(p, Begin(p, true), events[..k])) {
      events := events[..k];
    } else {
      var more := GivesUpEarly(p, n, a);
      RunSplit(p, Begin(p, true), events, more);
      events := events + more;
    }
  }

  lemma UnwrappedExactly(p: Setup)
    requires Segmented(p)
    ensures Unwrapped(p) <==> |p.request| <= 255 / Window(p) * Window(p) + 1
  {
    var n, w := |p.request|, Window(p);
    var r, q := (n - 2) / w, 255 / w;
    Quotient(n - 2, w);
    Quotient(255, w);
    MultiplesApart(r, q, w);
  }

  /** A request of n segments never makes its client conclude early if and only if the windows of w
      that it takes after segment 0, all counted in full, end below 256. */
  lemma ConcludesSoundlyExactly(p: Setup)
    requires ValidSetup(p) && Stream.Valid(TransferOf(p))
    ensures NeverEarly(p) <==> |p.request| <= 255 / Window(p) * Window(p) + 1
  {
    UnwrappedExactly(p);
    if Unwrapped(p) {
      ConcludesSoundly(p);
    } else {
      var events := MayConcludeEarly(p);
    }
  }
}
