/** Promises that segmentation does not keep in general, each with the exact condition under
    which it does: a server does not check that segment 0 opens a request, a receiver whose last
    ack is refused goes on taking segments, and a server that has sent everything takes any ack
    in its last window for the last one. */
module Limits {
  import opened Apdus
  import opened Segmentation
  import opened Pieces
  import opened Receivers
  import Client = ClientSteps
  import Server = ServerSteps

  // ----- a request opened by another segment

  /** Pieces i up to the last, in order. */
  predicate InOrder(apdus: seq<Apdu>, pieces: seq<Bytes>, i: nat) {
    && i + |apdus| == |pieces|
    && forall j :: 0 <= j < |apdus| ==>
      apdus[j].ConfirmedRequest? && Carries(apdus[j], Delivery(i + j, pieces[i + j], i + j < |pieces| - 1))
  }

  /** The rest of the pieces, delivered in order, complete what a machine holds. */
  lemma {:induction false} RestCompletes(s: Ssm, c: Config, window: byte, pieces: seq<Bytes>, k: nat, last: nat,
                                         initial: nat, apdus: seq<Apdu>)
    requires 0 < window && k < |pieces| && last < |pieces| - 1
    requires ServerRel(s, window, Receiver(last, initial, Assembled(pieces, k, last), false))
    requires InOrder(apdus, pieces, last + 1)
    ensures var t := ServerRun(s, c, apdus);
      t.state == AWAIT_RESPONSE && t.segmentAPDU.Some? && t.segmentAPDU.value.data == Assembled(pieces, k, |pieces| - 1)
    decreases |apdus|
  {
    var r := Receiver(last, initial, Assembled(pieces, k, last), false);
    var d := Delivery(last + 1, pieces[last + 1], last + 1 < |pieces| - 1);
    assert Carries(apdus[0], d);
    NearIsUnmistakable(r, d);
    ServerTakes(s, c, window, r, d, apdus[0]);
    AssembledStep(pieces, k, last);
    var t := Take(r, window, true, d).receiver;
    if d.more {
      RestCompletes(Server.SegmentedRequest(s, c, apdus[0], true).ssm, c, window, pieces, k, last + 1, t.initial,
          apdus[1..]);
    }
  }

  /** What a server can make sense of in the first segment it sees. */
  predicate Readable(c: Config, apdu: Apdu) {
    c.segmentationSupported.Receives() && apdu.ConfirmedRequest? && apdu.seg && apdu.maxResp < 6 && apdu.maxSegs < 8
  }

  lemma Opened(c: Config, info: Option<DeviceInfo>, window: byte, apdu: Apdu)
    requires Readable(c, apdu) && 0 < window
    requires window == if apdu.win < c.proposedWindowSize then apdu.win else c.proposedWindowSize
    ensures ServerRel(Server.Idle(NewSsm(c), c, info, apdu, true).ssm, window, Receiver(0, 0, apdu.data, false))
  {
  }

  /** A transaction opened by piece k goes on as if that had been piece 0: pieces 1 to the last
      complete it, and what it hands up is the request exactly when piece k has the contents of
      piece 0. */
  lemma AnySegmentOpens(c: Config, info: Option<DeviceInfo>, window: byte, data: Bytes, size: nat, k: nat,
                        opening: Apdu, rest: seq<Apdu>)
    requires 0 < size && k < |Cut(data, size)| && 1 < |Cut(data, size)| && 0 < window
    requires Readable(c, opening) && Carries(opening, Delivery(k, Cut(data, size)[k], k < |Cut(data, size)| - 1))
    requires window == if opening.win < c.proposedWindowSize then opening.win else c.proposedWindowSize
    requires InOrder(rest, Cut(data, size), 1)
    ensures var s := Server.Idle(NewSsm(c), c, info, opening, true).ssm;
      && Server.Receiving(s)
      && var t := ServerRun(s, c, rest);
      && t.state == AWAIT_RESPONSE && t.segmentAPDU.Some?
      && (t.segmentAPDU.value.data == data <==> Chunk(data, size, k) == Chunk(data, size, 0))
  {
    var pieces := Cut(data, size);
    Opened(c, info, window, opening);
    assert opening.data == Assembled(pieces, k, 0);
    RestCompletes(Server.Idle(NewSsm(c), c, info, opening, true).ssm, c, window, pieces, k, 0, 0, rest);
    AssembledWhole(data, size, k);
  }

  // ----- a last ack that the network refuses

  /** A server that has put pieces 0 to k together, or at least thinks so. */
  predicate Holding(s: Ssm, k: nat, data: Bytes) {
    s.state == SEGMENTED_REQUEST && Server.Receiving(s) && s.lastSequenceNumber == k % 256
        && s.segmentAPDU.value.data == data
  }

  /** The last segment is appended even when it cannot be acknowledged. */
  lemma LastAckRefused(s: Ssm, c: Config, pieces: seq<Bytes>, last: Apdu)
    requires 1 < |pieces| && Holding(s, |pieces| - 2, Assembled(pieces, 0, |pieces| - 2))
    requires last.ConfirmedRequest? && Carries(last, Delivery(|pieces| - 1, pieces[|pieces| - 1], false))
    ensures Holding(Server.SegmentedRequest(s, c, last, false).ssm, |pieces| - 1, Assembled(pieces, 0, |pieces| - 1))
  {
    AssembledStep(pieces, 0, |pieces| - 2);
    NextNumber(Receiver(|pieces| - 2, 0, [], false));
  }

  /** The server then takes segment 0 again, and with it something that is not the request,
      exactly when the number of segments is a multiple of 256. */
  lemma ZeroIsTakenAgain(s: Ssm, c: Config, pieces: seq<Bytes>, last: Apdu, zero: Apdu)
    requires 1 < |pieces| && pieces[0] != [] && Holding(s, |pieces| - 2, Assembled(pieces, 0, |pieces| - 2))
    requires last.ConfirmedRequest? && Carries(last, Delivery(|pieces| - 1, pieces[|pieces| - 1], false))
    requires zero.ConfirmedRequest? && Carries(zero, Delivery(0, pieces[0], true))
    ensures var t := Server.SegmentedRequest(s, c, last, false).ssm;
      && Server.Receiving(t)
      && var u := Server.SegmentedRequest(t, c, zero, true).ssm;
      && u.segmentAPDU.Some?
      && (u.segmentAPDU.value.data != Assembled(pieces, 0, |pieces| - 1) <==> |pieces| % 256 == 0)
  {
    LastAckRefused(s, c, pieces, last);
    var t := Server.SegmentedRequest(s, c, last, false).ssm;
    NextNumber(Receiver(|pieces| - 1, 0, [], false));
    if |pieces| % 256 == 0 {
      ServerAppends(t, c, zero);
      assert |t.segmentAPDU.value.data + pieces[0]| > |t.segmentAPDU.value.data|;
    }
  }

  /** A segment with the number that comes next is taken. */
  lemma NextIsTaken(s: Ssm, c: Config, k: nat, data: Bytes, apdu: Apdu)
    requires Holding(s, k, data) && apdu.ConfirmedRequest? && apdu.seg && apdu.seqNo == (k + 1) % 256
    ensures var t := Server.SegmentedRequest(s, c, apdu, true).ssm;
      && (apdu.mor ==> Holding(t, k + 1, data + apdu.data))
      && (!apdu.mor ==> t.state == AWAIT_RESPONSE && t.segmentAPDU.Some?
                        && t.segmentAPDU.value.data == data + apdu.data)
      && Server.Receiving(t)
  {
    NextNumber(Receiver(k, 0, [], false));
  }

  lemma {:induction false} RestIsAppended(s: Ssm, c: Config, pieces: seq<Bytes>, before: Bytes, k: nat,
                                        apdus: seq<Apdu>)
    requires k < |pieces| - 1 && Holding(s, k, before + Later(pieces, k)) && InOrder(apdus, pieces, k + 1)
    ensures var t := ServerRun(s, c, apdus);
      t.state == AWAIT_RESPONSE && t.segmentAPDU.Some?
          && t.segmentAPDU.value.data == before + Later(pieces, |pieces| - 1)
    decreases |apdus|
  {
    assert Carries(apdus[0], Delivery(k + 1, pieces[k + 1], k + 1 < |pieces| - 1));
    NextIsTaken(s, c, k, before + Later(pieces, k), apdus[0]);
    assert before + Later(pieces, k) + pieces[k + 1] == before + Later(pieces, k + 1);
    if apdus[0].mor {
      RestIsAppended(Server.SegmentedRequest(s, c, apdus[0], true).ssm, c, pieces, before, k + 1, apdus[1..]);
    }
  }

  /** Some pieces from number i on, in order. */
  predicate InOrderFrom(apdus: seq<Apdu>, pieces: seq<Bytes>, i: nat) {
    && i + |apdus| < |pieces|
    && forall j :: 0 <= j < |apdus| ==>
      apdus[j].ConfirmedRequest? && Carries(apdus[j], Delivery(i + j, pieces[i + j], true))
  }

  lemma {:induction false} PartIsAppended(s: Ssm, c: Config, pieces: seq<Bytes>, before: Bytes, k: nat,
                                        apdus: seq<Apdu>)
    requires k < |pieces| && Holding(s, k, before + Later(pieces, k)) && InOrderFrom(apdus, pieces, k + 1)
    ensures Holding(ServerRun(s, c, apdus), k + |apdus|, before + Later(pieces, k + |apdus|))
    decreases |apdus|
  {
    if apdus != [] {
      assert Carries(apdus[0], Delivery(k + 1, pieces[k + 1], true));
      NextIsTaken(s, c, k, before + Later(pieces, k), apdus[0]);
      assert before + Later(pieces, k) + pieces[k + 1] == before + Later(pieces, k + 1);
      PartIsAppended(Server.SegmentedRequest(s, c, apdus[0], true).ssm, c, pieces, before, k + 1, apdus[1..]);
    }
  }

  lemma OpeningIsHeld(c: Config, info: Option<DeviceInfo>, zero: Apdu)
    requires Readable(c, zero)
    ensures Holding(Server.Idle(NewSsm(c), c, info, zero, true).ssm, 0, zero.data)
  {
  }

  /** The server once it has been opened by segment 0 and has taken segments 1 to 254. */
  function AlmostAll(c: Config, info: Option<DeviceInfo>, zero: Apdu, rest: seq<Apdu>): Ssm
    requires Readable(c, zero)
  {
    OpeningIsHeld(c, info, zero);
    ServerRun(Server.Idle(NewSsm(c), c, info, zero, true).ssm, c, rest)
  }

  lemma AlmostAllIsHeld(c: Config, info: Option<DeviceInfo>, pieces: seq<Bytes>, zero: Apdu, rest: seq<Apdu>)
    requires |pieces| == 256 && Readable(c, zero) && zero.data == pieces[0]
    requires InOrderFrom(rest, pieces, 1) && |rest| == 254
    ensures Holding(AlmostAll(c, info, zero, rest), 254, Assembled(pieces, 0, 254))
  {
    OpeningIsHeld(c, info, zero);
    assert pieces[0] + Later(pieces, 0) == pieces[0];
    PartIsAppended(Server.Idle(NewSsm(c), c, info, zero, true).ssm, c, pieces, pieces[0], 0, rest);
  }

  lemma AllOnceMore(t: Ssm, c: Config, pieces: seq<Bytes>, whole: Bytes, zero: Apdu, again: seq<Apdu>)
    requires |pieces| == 256 && Holding(t, 255, whole) && zero.ConfirmedRequest?
    requires Carries(zero, Delivery(0, pieces[0], true)) && InOrder(again, pieces, 1)
    ensures var u0 := Server.SegmentedRequest(t, c, zero, true).ssm;
      && Server.Receiving(u0)
      && var u := ServerRun(u0, c, again);
      u.state == AWAIT_RESPONSE && u.segmentAPDU.Some? && u.segmentAPDU.value.data == whole + Assembled(pieces, 0, 255)
  {
    NextIsTaken(t, c, 255, whole, zero);
    assert whole + pieces[0] == (whole + pieces[0]) + Later(pieces, 0);
    RestIsAppended(Server.SegmentedRequest(t, c, zero, true).ssm, c, pieces, whole + pieces[0], 0, again);
    assert (whole + pieces[0]) + Later(pieces, 255) == whole + (pieces[0] + Later(pieces, 255));
  }

  /** A run in which that happens, from the start: 256 segments, the ack of the last one refused,
      and then all of them once more. What the server hands up is the request twice over. */
  lemma RequestTwiceOver(c: Config, info: Option<DeviceInfo>, pieces: seq<Bytes>, zero: Apdu, rest: seq<Apdu>,
                         last: Apdu)
    requires |pieces| == 256 && Readable(c, zero) && Carries(zero, Delivery(0, pieces[0], true))
    requires InOrderFrom(rest, pieces, 1) && |rest| == 254
    requires last.ConfirmedRequest? && Carries(last, Delivery(255, pieces[255], false))
    ensures var s := AlmostAll(c, info, zero, rest);
      && Server.Receiving(s)
      && var t := Server.SegmentedRequest(s, c, last, false).ssm;
      && Server.Receiving(t) && Server.Receiving(Server.SegmentedRequest(t, c, zero, true).ssm)
      && var u := ServerRun(Server.SegmentedRequest(t, c, zero, true).ssm, c, rest + [last]);
      && u.state == AWAIT_RESPONSE && u.segmentAPDU.Some?
      && u.segmentAPDU.value.data == Assembled(pieces, 0, 255) + Assembled(pieces, 0, 255)
  {
    AlmostAllIsHeld(c, info, pieces, zero, rest);
    var s := AlmostAll(c, info, zero, rest);
    LastAckRefused(s, c, pieces, last);
    OneLonger(pieces, rest, last);
    AllOnceMore(Server.SegmentedRequest(s, c, last, false).ssm, c, pieces, Assembled(pieces, 0, 255), zero,
        rest + [last]);
  }

  lemma OneLonger(pieces: seq<Bytes>, rest: seq<Apdu>, last: Apdu)
    requires |pieces| == 256 && InOrderFrom(rest, pieces, 1) && |rest| == 254
    requires last.ConfirmedRequest? && Carries(last, Delivery(255, pieces[255], false))
    ensures InOrder(rest + [last], pieces, 1)
  {
  }

  // ----- a server that finishes early

  /** A server whose last window starts at the given place, all sent. */
  predicate AllSent(s: Ssm, base: nat) {
    s.state == SEGMENTED_RESPONSE && s.sentAllSegments && s.initialSequenceNumber == base % 256
  }

  /** On any ack of a segment of its last window a server finishes, and the client then has
      everything exactly when that was the very last segment. */
  lemma FinishedIsDelivered(server: Ssm, c: Config, base: nat, pieces: seq<Bytes>, r: Receiver, ack: Apdu)
    requires AllSent(server, base) && base <= r.last < |pieces| && r.data == Assembled(pieces, 0, r.last)
    requires forall p :: p in pieces ==> p != []
    requires ack.SegmentAck? && ack.seqNo == r.last % 256 && r.last < base + ack.win
    ensures Server.SegmentedResponse(server, c, ack, true).ssm.state == COMPLETED
    ensures r.data == Assembled(pieces, 0, |pieces| - 1) <==> r.last == |pieces| - 1
  {
    InWindowIsMembership(r.last, base, ack.win);
    if r.last < |pieces| - 1 { Shorter(pieces, r.last, |pieces| - 1); }
  }

  lemma {:induction false} TakeAllSplits(r: Receiver, window: byte, naksGroup: bool, ds: seq<Delivery>, i: nat)
    requires i <= |ds|
    ensures TakeAll(r, window, naksGroup, ds) == TakeAll(TakeAll(r, window, naksGroup, ds[..i]), window, naksGroup,
        ds[i..])
    decreases i
  {
    if i == 0 || r.done {
      assert ds[0..] == ds;
    } else {
      TakeAllSplits(Take(r, window, naksGroup, ds[0]).receiver, window, naksGroup, ds[1..], i - 1);
      assert ds[1..][..i - 1] == ds[..i][1..] && ds[1..][i - 1..] == ds[i..];
    }
  }

  /** A receiver only moves forwards, and no further than what has been sent. */
  lemma {:induction false} TakesForwards(r: Receiver, window: byte, naksGroup: bool, ds: seq<Delivery>, end: nat)
    requires r.last < end && forall d :: d in ds ==> d.place < end
    ensures r.last <= TakeAll(r, window, naksGroup, ds).last < end
    decreases |ds|
  {
    if ds != [] && !r.done { TakesForwards(Take(r, window, naksGroup, ds[0]).receiver, window, naksGroup, ds[1..],
        end); }
  }

  lemma {:induction false} NothingMistaken(pieces: seq<Bytes>, r: Receiver, window: byte, naksGroup: bool,
                                        ds: seq<Delivery>)
    requires 1 < |pieces| <= 256 && OfOne(pieces, ds) && (!r.done ==> r.last < |pieces| - 1)
    ensures AllUnmistakable(r, window, naksGroup, ds)
    ensures var t := TakeAll(r, window, naksGroup, ds); !t.done ==> t.last < |pieces| - 1
    decreases |ds|
  {
    if ds != [] && !r.done {
      assert ds[0] in ds;
      NearIsUnmistakable(r, ds[0]);
      NothingMistaken(pieces, Take(r, window, naksGroup, ds[0]).receiver, window, naksGroup, ds[1..]);
    }
  }

  /** What is known of a client that has taken some of an answer: what it holds, and that it is
      between the start of the server's last window and its end. */
  predicate Midway(t: Ssm, window: byte, pieces: seq<Bytes>, base: nat, r: Receiver) {
    && ClientRel(t, window, r) && !r.done && base <= r.last + 1 <= base + window && r.last < |pieces| - 1
    && r.data == Assembled(pieces, 0, r.last)
  }

  lemma GotMidway(client: Ssm, cc: Config, window: byte, pieces: seq<Bytes>, ds: seq<Delivery>, apdus: seq<Apdu>,
                  i: nat)
    requires 1 < |pieces| <= 256 && 0 < window < 128 && i <= |ds|
    requires ClientRel(client, window, Receiver(0, 0, pieces[0], false)) && OfOne(pieces, ds)
    requires AllCarry(apdus, ds, false)
    requires ClientRun(client, cc, apdus).state == SEGMENTED_CONFIRMATION
    requires var base := TakeAll(Receiver(0, 0, pieces[0], false), window, false, ds[..i]).last + 1;
      forall d :: d in ds ==> d.place < base + window
    ensures var r0 := Receiver(0, 0, pieces[0], false);
      Midway(ClientRun(client, cc, apdus), window, pieces, TakeAll(r0, window, false, ds[..i]).last + 1,
             TakeAll(r0, window, false, ds))
  {
    var r0 := Receiver(0, 0, pieces[0], false);
    var end := TakeAll(r0, window, false, ds[..i]).last + 1 + window;
    assert r0.data == Assembled(pieces, 0, 0);
    NothingMistaken(pieces, r0, window, false, ds);
    ClientRefines(client, cc, window, r0, ds, apdus);
    TakesInOrder(pieces, r0, window, false, ds);
    TakeAllSplits(r0, window, false, ds, i);
    TakesForwards(TakeAll(r0, window, false, ds[..i]), window, false, ds[i..], end);
  }

  /** What a client answers to its next segment, and what that does to a server whose last window
      is out. The client has taken segment 0 and after it whatever has arrived, in any order and
      any number of times; the server began that window on the ack the client sent after the
      first i of those. The ack finishes the server if and only if it is of the window, and the
      answer is handed up with it, as it was cut, if and only if it is of the very last segment. */
  lemma FinishedByAck(server: Ssm, sc: Config, client: Ssm, cc: Config, window: byte, data: Bytes, size: nat,
                      ds: seq<Delivery>, apdus: seq<Apdu>, i: nat, next: Delivery, apdu: Apdu)
    requires 0 < size && 1 < |Cut(data, size)| <= 256 && 0 < window < 128 && i <= |ds|
    requires ClientRel(client, window, Receiver(0, 0, Cut(data, size)[0], false))
    requires OfOne(Cut(data, size), ds + [next]) && AllCarry(apdus, ds, false) && Carries(apdu, next)
    requires apdu.ComplexAck?
    requires ClientRun(client, cc, apdus).state == SEGMENTED_CONFIRMATION
    requires var base := TakeAll(Receiver(0, 0, Cut(data, size)[0], false), window, false, ds[..i]).last + 1;
      AllSent(server, base) && forall d :: d in ds + [next] ==> d.place < base + window
    ensures var pieces := Cut(data, size);
      var r := Receiver(0, 0, pieces[0], false);
      var base := TakeAll(r, window, false, ds[..i]).last + 1;
      var t := ClientRun(client, cc, apdus);
      && Client.Receiving(t)
      && var o := Client.SegmentedConfirmation(t, cc, apdu, true);
      && !o.raised
      && (o.out != [] ==>
        && o.out[0].Down? && o.out[0].apdu.SegmentAck?
        && (Server.SegmentedResponse(server, sc, o.out[0].apdu, true).ssm.state == COMPLETED
            <==> base <= o.out[0].apdu.seqNo)
        && (o.ssm.state == COMPLETED <==> o.out[0].apdu.seqNo == |pieces| - 1)
        && (o.ssm.state == COMPLETED ==> |o.out| == 2 && o.out[1].Up? && o.out[1].apdu.ComplexAck?
                                         && o.out[1].apdu.data == data))
  {
    var pieces := Cut(data, size);
    var r0 := Receiver(0, 0, pieces[0], false);
    var base, r := TakeAll(r0, window, false, ds[..i]).last + 1, TakeAll(r0, window, false, ds);
    assert forall d :: d in ds ==> d in ds + [next];
    assert next in ds + [next];
    GotMidway(client, cc, window, pieces, ds, apdus, i);
    AnswersNext(server, sc, ClientRun(client, cc, apdus), cc, window, pieces, base, r, next, apdu);
    AssembledAll(data, size);
  }

  /** One segment at such a client. */
  lemma AnswersNext(server: Ssm, sc: Config, t: Ssm, cc: Config, window: byte, pieces: seq<Bytes>, base: nat,
                    r: Receiver,
                    next: Delivery, apdu: Apdu)
    requires 1 < |pieces| <= 256 && 0 < window < 128 && Midway(t, window, pieces, base, r) && AllSent(server, base)
    requires OfOne(pieces, [next]) && next.place < base + window && Carries(apdu, next) && apdu.ComplexAck?
    ensures var o := Client.SegmentedConfirmation(t, cc, apdu, true);
      && !o.raised
      && (o.out != [] ==>
        && o.out[0].Down? && o.out[0].apdu.SegmentAck?
        && (Server.SegmentedResponse(server, sc, o.out[0].apdu, true).ssm.state == COMPLETED
            <==> base <= o.out[0].apdu.seqNo)
        && (o.ssm.state == COMPLETED <==> o.out[0].apdu.seqNo == |pieces| - 1)
        && (o.ssm.state == COMPLETED ==> |o.out| == 2 && o.out[1].Up? && o.out[1].apdu.ComplexAck?
                                         && o.out[1].apdu.data == Assembled(pieces, 0, |pieces| - 1)))
  {
    assert next in [next];
    NearIsUnmistakable(r, next);
    ClientTakes(t, cc, window, r, next, apdu);
    AckOfNext(server, sc, window, pieces, base, r, next, t.invokeID.value);
    if next.place == r.last + 1 { AssembledStep(pieces, 0, r.last); }
  }

  /** The same, of the receiver that counts without bound. */
  lemma AckOfNext(server: Ssm, sc: Config, window: byte, pieces: seq<Bytes>, base: nat, r: Receiver, next: Delivery,
                  id: byte)
    requires 1 < |pieces| <= 256 && 0 < window < 128 && AllSent(server, base) && base <= r.last + 1 <= base + window
    requires r.last < |pieces| - 1 && next.place < |pieces| && next.place < base + window
    requires next.more == (next.place < |pieces| - 1)
    requires !r.done
    ensures var u := Take(r, window, false, next);
      var n := if u.answer.Ack? || u.answer.Nak? then u.answer.number else 0;
      u.answer != Silent ==>
        && n == u.receiver.last && n % 256 == n && (u.receiver.done <==> n == |pieces| - 1)
        && forall nak ::
          (Server.SegmentedResponse(server, sc, SegmentAckOf(nak, false, id, n, window), true).ssm.state == COMPLETED
           <==> base <= n)
  {
    var u := Take(r, window, false, next);
    if u.answer != Silent {
      var n := u.answer.number;
      assert n == u.receiver.last;
      InWindowIsMembership(n, base, window);
    }
  }

  lemma {:induction false} Shorter(pieces: seq<Bytes>, i: nat, j: nat)
    requires i < j < |pieces| && forall p :: p in pieces ==> p != []
    ensures |Assembled(pieces, 0, i)| < |Assembled(pieces, 0, j)|
    decreases j
  {
    assert pieces[j] in pieces;
    if i < j - 1 { Shorter(pieces, i, j - 1); }
  }

  /** It happens under plain loss: the client takes the first segment of the last window, the
      second is lost, and the nak for the third finishes the server, with the client waiting
      for two segments or more. */
  lemma ServerFinishesEarly(server: Ssm, sc: Config, client: Ssm, cc: Config, window: byte, pieces: seq<Bytes>,
                            base: nat, first: Apdu, third: Apdu)
    requires 3 <= window && 0 < base && base + 2 < |pieces|
    requires AllSent(server, base)
    requires ClientRel(client, window, Receiver(base - 1, base - 1, Assembled(pieces, 0, base - 1), false))
    requires first.ComplexAck? && Carries(first, Delivery(base, pieces[base], true))
    requires third.ComplexAck? && Carries(third, Delivery(base + 2, pieces[base + 2], base + 2 < |pieces| - 1))
    ensures var c1 := Client.SegmentedConfirmation(client, cc, first, true).ssm;
      && Client.Receiving(c1)
      && var o := Client.SegmentedConfirmation(c1, cc, third, true);
      && o.ssm.state == SEGMENTED_CONFIRMATION && o.ssm.lastSequenceNumber == base % 256
      && |o.out| == 1 && o.out[0].Down?
      && Server.SegmentedResponse(server, sc, o.out[0].apdu, true).ssm.state == COMPLETED
  {
    var r := Receiver(base - 1, base - 1, Assembled(pieces, 0, base - 1), false);
    var d := Delivery(base, pieces[base], true);
    NearIsUnmistakable(r, d);
    ClientTakes(client, cc, window, r, d, first);
    var c1 := Client.SegmentedConfirmation(client, cc, first, true).ssm;
    var r1 := Take(r, window, false, d).receiver;
    var d1 := Delivery(base + 2, pieces[base + 2], base + 2 < |pieces| - 1);
    NearIsUnmistakable(r1, d1);
    ClientTakes(c1, cc, window, r1, d1, third);
    var nak := SegmentAckOf(true, false, client.invokeID.value, base % 256, window);
    InWindowIsMembership(base, base, window);
    FinishesOn(server, sc, base, nak);
  }

  lemma FinishesOn(server: Ssm, c: Config, base: nat, ack: Apdu)
    requires AllSent(server, base) && ack.SegmentAck? && 0 < ack.win && InWindow(ack.seqNo, base % 256, ack.win)
    ensures Server.SegmentedResponse(server, c, ack, true).ssm.state == COMPLETED
  {
  }
}
