/** Segment numbers travel mod 256. A receiver that only knows them so behaves like one that
    knows the true numbers, for APDUs of any length, as long as no delivered segment is a
    nonzero multiple of 256 away from the one expected. */
module Receivers {
  import opened Apdus
  import opened Segmentation
  import opened Pieces
  import Client = ClientSteps
  import Server = ServerSteps

  /** A segment of a long APDU, by its true place. */
  datatype Delivery = Delivery(place: nat, data: Bytes, more: bool)

  /** What a receiver answers: an ack of the segment just taken, or a nak. */
  datatype Answer = Silent | Ack(number: nat) | Nak(number: nat)

  /** A receiver that counts without bound. */
  datatype Receiver = Receiver(last: nat, initial: nat, data: Bytes, done: bool)

  datatype Took = Took(receiver: Receiver, answer: Answer)

  /** naksGroup tells a server, which naks with its last group ack, from a client. */
  function Take(r: Receiver, window: byte, naksGroup: bool, d: Delivery): Took {
    if d.place != r.last + 1 then Took(r, Nak(if naksGroup then r.initial else r.last))
    else
      var data := r.data + d.data;
      if !d.more then Took(Receiver(d.place, r.initial, data, true), Ack(d.place))
      else if d.place == r.initial + window then Took(Receiver(d.place, d.place, data, false), Ack(d.place))
      else Took(Receiver(d.place, r.initial, data, false), Silent)
  }

  /** Less than a window past the last group. */
  predicate Sound(r: Receiver, window: byte) {
    r.initial <= r.last < r.initial + window
  }

  /** The delivered segment cannot be mistaken for the one expected. */
  predicate Unmistakable(r: Receiver, d: Delivery) {
    d.place % 256 == (r.last + 1) % 256 ==> d.place == r.last + 1
  }

  /** In particular when it is fewer than 256 places away from it. */
  lemma NearIsUnmistakable(r: Receiver, d: Delivery)
    requires -256 < d.place - (r.last + 1) < 256
    ensures Unmistakable(r, d)
  {
  }

  lemma NextNumber(r: Receiver)
    ensures (r.last % 256 + 1) % 256 == (r.last + 1) % 256
  {
  }

  // ----- the two machines

  function AnswerOf(srv: bool, id: byte, window: byte, a: Answer): seq<Effect> {
    match a
    case Silent => []
    case Ack(n) => [Down(SegmentAckOf(false, srv, id, n % 256, window))]
    case Nak(n) => [Down(SegmentAckOf(true, srv, id, n % 256, window))]
  }

  /** A server machine and a receiver that counts without bound hold the same. */
  predicate ServerRel(s: Ssm, window: byte, r: Receiver) {
    && Server.Receiving(s) && s.actualWindowSize == Some(window) && s.segmentAPDU.value.data == r.data
    && s.state == (if r.done then AWAIT_RESPONSE else SEGMENTED_REQUEST)
    && s.lastSequenceNumber == r.last % 256 && s.initialSequenceNumber == r.initial % 256
    && (r.done || Sound(r, window))
  }

  predicate ClientRel(s: Ssm, window: byte, r: Receiver) {
    && Client.Receiving(s) && s.actualWindowSize == Some(window) && s.segmentAPDU.value.data == r.data
    && s.state == (if r.done then COMPLETED else SEGMENTED_CONFIRMATION)
    && s.lastSequenceNumber == r.last % 256 && s.initialSequenceNumber == r.initial % 256
    && (r.done || Sound(r, window))
  }

  /** The PDU that carries a segment. */
  predicate Carries(apdu: Apdu, d: Delivery) {
    && (apdu.ConfirmedRequest? || apdu.ComplexAck?)
    && apdu.seg && apdu.seqNo == d.place % 256 && apdu.data == d.data && apdu.mor == d.more
  }

  /** The last segment of a group is the same mod 256. */
  lemma GroupEnd(r: Receiver, window: byte)
    requires Sound(r, window)
    ensures (r.last + 1) % 256 == (r.initial % 256 + window) % 256 <==> r.last + 1 == r.initial + window
  {
  }

  lemma ServerNaks(s: Ssm, c: Config, window: byte, r: Receiver, d: Delivery, apdu: Apdu)
    requires ServerRel(s, window, r) && !r.done && apdu.ConfirmedRequest? && Carries(apdu, d)
    requires d.place != r.last + 1 && apdu.seqNo != (s.lastSequenceNumber + 1) % 256
    ensures var t := Take(r, window, true, d);
      var o := Server.SegmentedRequest(s, c, apdu, true);
      ServerRel(o.ssm, window, t.receiver) && !o.raised && o.out == AnswerOf(true, s.invokeID.value, window, t.answer)
  {
  }

  lemma ServerTakesLast(s: Ssm, c: Config, window: byte, r: Receiver, d: Delivery, apdu: Apdu)
    requires ServerRel(s, window, r) && !r.done && d.place == r.last + 1 && !d.more
    requires apdu.ConfirmedRequest? && Carries(apdu, d)
    ensures var t := Take(r, window, true, d);
      var o := Server.TakeNext(s, c, apdu, true);
      && ServerRel(o.ssm, window, t.receiver) && !o.raised
      && o.out == AnswerOf(true, s.invokeID.value, window, t.answer) + [Up(o.ssm.segmentAPDU.value)]
  {
  }

  lemma ServerTakesMiddle(s: Ssm, c: Config, window: byte, r: Receiver, d: Delivery, apdu: Apdu)
    requires ServerRel(s, window, r) && !r.done && d.place == r.last + 1 && d.more
    requires apdu.ConfirmedRequest? && Carries(apdu, d)
    ensures var t := Take(r, window, true, d);
      var o := Server.TakeNext(s, c, apdu, true);
      && ServerRel(o.ssm, window, t.receiver) && !o.raised
      && o.out == AnswerOf(true, s.invokeID.value, window, t.answer)
  {
    GroupEnd(r, window);
  }

  /** One segment at a server: the machine does what the receiver that counts without bound
      does, and hands up what that one has put together. */
  lemma ServerTakes(s: Ssm, c: Config, window: byte, r: Receiver, d: Delivery, apdu: Apdu)
    requires ServerRel(s, window, r) && !r.done && Unmistakable(r, d)
    requires apdu.ConfirmedRequest? && Carries(apdu, d)
    ensures var t := Take(r, window, true, d);
      var o := Server.SegmentedRequest(s, c, apdu, true);
      && ServerRel(o.ssm, window, t.receiver) && !o.raised
      && o.out == AnswerOf(true, s.invokeID.value, window, t.answer) +
                  if t.receiver.done then [Up(o.ssm.segmentAPDU.value)] else []
  {
    NextNumber(r);
    if d.place == r.last + 1 {
      if d.more { ServerTakesMiddle(s, c, window, r, d, apdu); } else { ServerTakesLast(s, c, window, r, d, apdu); }
      assert Server.SegmentedRequest(s, c, apdu, true) == Server.TakeNext(s, c, apdu, true);
    } else {
      ServerNaks(s, c, window, r, d, apdu);
    }
  }

  lemma ClientNaks(s: Ssm, c: Config, window: byte, r: Receiver, d: Delivery, apdu: Apdu)
    requires ClientRel(s, window, r) && !r.done && apdu.ComplexAck? && Carries(apdu, d)
    requires d.place != r.last + 1 && apdu.seqNo != (s.lastSequenceNumber + 1) % 256
    ensures var t := Take(r, window, false, d);
      var o := Client.SegmentedConfirmation(s, c, apdu, true);
      ClientRel(o.ssm, window, t.receiver) && !o.raised && o.out == AnswerOf(false, s.invokeID.value, window, t.answer)
  {
  }

  lemma ClientTakesLast(s: Ssm, c: Config, window: byte, r: Receiver, d: Delivery, apdu: Apdu)
    requires ClientRel(s, window, r) && !r.done && d.place == r.last + 1 && !d.more
    requires apdu.ComplexAck? && Carries(apdu, d)
    ensures var t := Take(r, window, false, d);
      var o := Client.TakeNext(s, c, apdu, true);
      && ClientRel(o.ssm, window, t.receiver) && !o.raised
      && o.out == AnswerOf(false, s.invokeID.value, window, t.answer) + [Up(o.ssm.segmentAPDU.value)]
  {
  }

  lemma ClientTakesMiddle(s: Ssm, c: Config, window: byte, r: Receiver, d: Delivery, apdu: Apdu)
    requires ClientRel(s, window, r) && !r.done && d.place == r.last + 1 && d.more
    requires apdu.ComplexAck? && Carries(apdu, d)
    ensures var t := Take(r, window, false, d);
      var o := Client.TakeNext(s, c, apdu, true);
      && ClientRel(o.ssm, window, t.receiver) && !o.raised
      && o.out == AnswerOf(false, s.invokeID.value, window, t.answer)
  {
    GroupEnd(r, window);
  }

  lemma ClientTakes(s: Ssm, c: Config, window: byte, r: Receiver, d: Delivery, apdu: Apdu)
    requires ClientRel(s, window, r) && !r.done && Unmistakable(r, d)
    requires apdu.ComplexAck? && Carries(apdu, d)
    ensures var t := Take(r, window, false, d);
      var o := Client.SegmentedConfirmation(s, c, apdu, true);
      && ClientRel(o.ssm, window, t.receiver) && !o.raised
      && o.out == AnswerOf(false, s.invokeID.value, window, t.answer) +
                  if t.receiver.done then [Up(o.ssm.segmentAPDU.value)] else []
  {
    NextNumber(r);
    if d.place == r.last + 1 {
      if d.more { ClientTakesMiddle(s, c, window, r, d, apdu); } else { ClientTakesLast(s, c, window, r, d, apdu); }
      assert Client.SegmentedConfirmation(s, c, apdu, true) == Client.TakeNext(s, c, apdu, true);
    } else {
      ClientNaks(s, c, window, r, d, apdu);
    }
  }

  lemma ServerAppends(s: Ssm, c: Config, apdu: Apdu)
    requires Server.Receiving(s) && apdu.ConfirmedRequest?
    ensures var t := Server.TakeNext(s, c, apdu, true).ssm;
      t.segmentAPDU.Some? && t.segmentAPDU.value.data == s.segmentAPDU.value.data + apdu.data
  {
  }

  lemma ServerMistakes(s: Ssm, c: Config, window: byte, r: Receiver, d: Delivery, apdu: Apdu)
    requires ServerRel(s, window, r) && !r.done && apdu.ConfirmedRequest? && Carries(apdu, d) && d.data != []
    requires !Unmistakable(r, d)
    ensures var t := Server.SegmentedRequest(s, c, apdu, true).ssm;
      t.segmentAPDU.Some? && t.segmentAPDU.value.data != r.data
  {
    NextNumber(r);
    assert apdu.seqNo == (s.lastSequenceNumber + 1) % 256;
    ServerAppends(s, c, apdu);
    assert |r.data + d.data| > |r.data|;
  }

  lemma ClientAppends(s: Ssm, c: Config, apdu: Apdu)
    requires Client.Receiving(s) && apdu.ComplexAck?
    ensures var t := Client.TakeNext(s, c, apdu, true).ssm;
      t.segmentAPDU.Some? && t.segmentAPDU.value.data == s.segmentAPDU.value.data + apdu.data
  {
  }

  lemma ClientMistakes(s: Ssm, c: Config, window: byte, r: Receiver, d: Delivery, apdu: Apdu)
    requires ClientRel(s, window, r) && !r.done && apdu.ComplexAck? && Carries(apdu, d) && d.data != []
    requires !Unmistakable(r, d)
    ensures var t := Client.SegmentedConfirmation(s, c, apdu, true).ssm;
      t.segmentAPDU.Some? && t.segmentAPDU.value.data != r.data
  {
    NextNumber(r);
    assert apdu.seqNo == (s.lastSequenceNumber + 1) % 256;
    ClientAppends(s, c, apdu);
    assert |r.data + d.data| > |r.data|;
  }

  /** The condition is exact: a segment that can be mistaken is taken for the one expected. */
  lemma ServerTakesExactly(s: Ssm, c: Config, window: byte, r: Receiver, d: Delivery, apdu: Apdu)
    requires ServerRel(s, window, r) && !r.done
    requires apdu.ConfirmedRequest? && Carries(apdu, d) && d.data != []
    ensures ServerRel(Server.SegmentedRequest(s, c, apdu, true).ssm, window, Take(r, window, true, d).receiver)
       <==> Unmistakable(r, d)
  {
    if Unmistakable(r, d) {
      ServerTakes(s, c, window, r, d, apdu);
    } else {
      ServerMistakes(s, c, window, r, d, apdu);
    }
  }

  lemma ClientTakesExactly(s: Ssm, c: Config, window: byte, r: Receiver, d: Delivery, apdu: Apdu)
    requires ClientRel(s, window, r) && !r.done
    requires apdu.ComplexAck? && Carries(apdu, d) && d.data != []
    ensures ClientRel(Client.SegmentedConfirmation(s, c, apdu, true).ssm, window, Take(r, window, false, d).receiver)
       <==> Unmistakable(r, d)
  {
    if Unmistakable(r, d) {
      ClientTakes(s, c, window, r, d, apdu);
    } else {
      ClientMistakes(s, c, window, r, d, apdu);
    }
  }

  // ----- whole runs

  /** A run of the receiver that counts without bound; it ends with the last segment. */
  function TakeAll(r: Receiver, window: byte, naksGroup: bool, ds: seq<Delivery>): Receiver
    decreases |ds|
  {
    if ds == [] || r.done then r
    else TakeAll(Take(r, window, naksGroup, ds[0]).receiver, window, naksGroup, ds[1..])
  }

  predicate AllUnmistakable(r: Receiver, window: byte, naksGroup: bool, ds: seq<Delivery>)
    decreases |ds|
  {
    ds == [] || r.done ||
    (Unmistakable(r, ds[0]) && AllUnmistakable(Take(r, window, naksGroup, ds[0]).receiver, window, naksGroup, ds[1..]))
  }

  /** A run of a server machine over the segments in the order in which they arrive. */
  function ServerRun(s: Ssm, c: Config, apdus: seq<Apdu>): Ssm
    requires Server.Receiving(s)
    decreases |apdus|
  {
    if apdus == [] || s.state != SEGMENTED_REQUEST || !apdus[0].ConfirmedRequest? || !apdus[0].seg then s
    else ServerRun(Server.SegmentedRequest(s, c, apdus[0], true).ssm, c, apdus[1..])
  }

  function ClientRun(s: Ssm, c: Config, apdus: seq<Apdu>): Ssm
    requires Client.Receiving(s)
    decreases |apdus|
  {
    if apdus == [] || s.state != SEGMENTED_CONFIRMATION || !apdus[0].ComplexAck? || !apdus[0].seg then s
    else ClientRun(Client.SegmentedConfirmation(s, c, apdus[0], true).ssm, c, apdus[1..])
  }

  predicate AllCarry(apdus: seq<Apdu>, ds: seq<Delivery>, request: bool) {
    |apdus| == |ds| &&
    forall i :: 0 <= i < |ds| ==> Carries(apdus[i], ds[i]) && apdus[i].ConfirmedRequest? == request
  }

  lemma {:induction false} ServerRefines(s: Ssm, c: Config, window: byte, r: Receiver, ds: seq<Delivery>,
                                        apdus: seq<Apdu>)
    requires ServerRel(s, window, r) && AllCarry(apdus, ds, true) && AllUnmistakable(r, window, true, ds)
    ensures ServerRel(ServerRun(s, c, apdus), window, TakeAll(r, window, true, ds))
    decreases |ds|
  {
    if ds != [] && !r.done {
      ServerTakes(s, c, window, r, ds[0], apdus[0]);
      ServerRefines(Server.SegmentedRequest(s, c, apdus[0], true).ssm, c, window,
                    Take(r, window, true, ds[0]).receiver, ds[1..], apdus[1..]);
    }
  }

  lemma {:induction false} ClientRefines(s: Ssm, c: Config, window: byte, r: Receiver, ds: seq<Delivery>,
                                        apdus: seq<Apdu>)
    requires ClientRel(s, window, r) && AllCarry(apdus, ds, false) && AllUnmistakable(r, window, false, ds)
    ensures ClientRel(ClientRun(s, c, apdus), window, TakeAll(r, window, false, ds))
    decreases |ds|
  {
    if ds != [] && !r.done {
      ClientTakes(s, c, window, r, ds[0], apdus[0]);
      ClientRefines(Client.SegmentedConfirmation(s, c, apdus[0], true).ssm, c, window,
                    Take(r, window, false, ds[0]).receiver, ds[1..], apdus[1..]);
    }
  }

  // ----- what is handed up

  function Ups(out: seq<Effect>): seq<Apdu> {
    if out == [] then [] else (if out[0].Up? then [out[0].apdu] else []) + Ups(out[1..])
  }

  /** All that the server machine hands up in a run. */
  function ServerHandsUp(s: Ssm, c: Config, apdus: seq<Apdu>): seq<Apdu>
    requires Server.Receiving(s)
    decreases |apdus|
  {
    if apdus == [] || s.state != SEGMENTED_REQUEST || !apdus[0].ConfirmedRequest? || !apdus[0].seg then []
    else
      var o := Server.SegmentedRequest(s, c, apdus[0], true);
      Ups(o.out) + ServerHandsUp(o.ssm, c, apdus[1..])
  }

  function ClientHandsUp(s: Ssm, c: Config, apdus: seq<Apdu>): seq<Apdu>
    requires Client.Receiving(s)
    decreases |apdus|
  {
    if apdus == [] || s.state != SEGMENTED_CONFIRMATION || !apdus[0].ComplexAck? || !apdus[0].seg then []
    else
      var o := Client.SegmentedConfirmation(s, c, apdus[0], true);
      Ups(o.out) + ClientHandsUp(o.ssm, c, apdus[1..])
  }

  lemma UpsOfAnswer(srv: bool, id: byte, window: byte, a: Answer, whole: Apdu)
    ensures Ups(AnswerOf(srv, id, window, a)) == []
    ensures Ups(AnswerOf(srv, id, window, a) + [Up(whole)]) == [whole]
  {
    var answer := AnswerOf(srv, id, window, a);
    assert Ups([Up(whole)]) == [whole] by { assert [Up(whole)][1..] == []; }
    if answer != [] {
      assert answer[1..] == [] && (answer + [Up(whole)])[1..] == [Up(whole)];
    } else {
      assert answer + [Up(whole)] == [Up(whole)];
    }
  }

  /** Nothing is handed up before the last segment, and then once. */
  lemma {:induction false} ServerHandsUpOnce(s: Ssm, c: Config, window: byte, r: Receiver, ds: seq<Delivery>,
                                            apdus: seq<Apdu>)
    requires ServerRel(s, window, r) && !r.done && AllCarry(apdus, ds, true) && AllUnmistakable(r, window, true, ds)
    ensures var t := TakeAll(r, window, true, ds);
      var up := ServerHandsUp(s, c, apdus);
      if t.done then |up| == 1 && up[0].data == t.data else up == []
    decreases |ds|
  {
    if ds != [] {
      var took, o := Take(r, window, true, ds[0]), Server.SegmentedRequest(s, c, apdus[0], true);
      ServerTakes(s, c, window, r, ds[0], apdus[0]);
      assert o.ssm.segmentAPDU.Some?;
      UpsOfAnswer(true, s.invokeID.value, window, took.answer, o.ssm.segmentAPDU.value);
      if !took.receiver.done { ServerHandsUpOnce(o.ssm, c, window, took.receiver, ds[1..], apdus[1..]); }
    }
  }

  lemma {:induction false} ClientHandsUpOnce(s: Ssm, c: Config, window: byte, r: Receiver, ds: seq<Delivery>,
                                            apdus: seq<Apdu>)
    requires ClientRel(s, window, r) && !r.done && AllCarry(apdus, ds, false) && AllUnmistakable(r, window, false, ds)
    ensures var t := TakeAll(r, window, false, ds);
      var up := ClientHandsUp(s, c, apdus);
      if t.done then |up| == 1 && up[0].data == t.data else up == []
    decreases |ds|
  {
    if ds != [] {
      var took, o := Take(r, window, false, ds[0]), Client.SegmentedConfirmation(s, c, apdus[0], true);
      ClientTakes(s, c, window, r, ds[0], apdus[0]);
      assert o.ssm.segmentAPDU.Some?;
      UpsOfAnswer(false, s.invokeID.value, window, took.answer, o.ssm.segmentAPDU.value);
      if !took.receiver.done { ClientHandsUpOnce(o.ssm, c, window, took.receiver, ds[1..], apdus[1..]); }
    }
  }

  // ----- segments of one APDU, of any length

  predicate OfOne(pieces: seq<Bytes>, ds: seq<Delivery>) {
    forall d :: d in ds ==> d.place < |pieces| && d.data == pieces[d.place] && d.more == (d.place < |pieces| - 1)
  }

  /** A receiver that counts without bound puts the pieces together in order, whatever is
      lost, repeated or late. */
  lemma {:induction false} TakesInOrder(pieces: seq<Bytes>, r: Receiver, window: byte, naksGroup: bool,
                                        ds: seq<Delivery>)
    requires OfOne(pieces, ds) && r.last < |pieces| && r.data == Assembled(pieces, 0, r.last)
    requires r.done ==> r.last == |pieces| - 1
    ensures var t := TakeAll(r, window, naksGroup, ds);
      t.last < |pieces| && t.data == Assembled(pieces, 0, t.last) && (t.done ==> t.last == |pieces| - 1)
    decreases |ds|
  {
    if ds != [] && !r.done {
      if ds[0].place == r.last + 1 { AssembledStep(pieces, 0, r.last); }
      TakesInOrder(pieces, Take(r, window, naksGroup, ds[0]).receiver, window, naksGroup, ds[1..]);
    }
  }

  /** An APDU of any length, from a sender that cuts it into any number of pieces: a server
      that was opened by segment 0 hands up exactly what was cut, once, if it reaches the end, and
      nothing otherwise, when no segment on the way can be mistaken for the one expected. */
  lemma LongRequestsArriveWhole(s: Ssm, c: Config, window: byte, data: Bytes, size: nat, ds: seq<Delivery>,
                                apdus: seq<Apdu>)
    requires 0 < size && OfOne(Cut(data, size), ds) && AllCarry(apdus, ds, true)
    requires ServerRel(s, window, Receiver(0, 0, Cut(data, size)[0], false))
    requires AllUnmistakable(Receiver(0, 0, Cut(data, size)[0], false), window, true, ds)
    ensures var up := ServerHandsUp(s, c, apdus);
      if ServerRun(s, c, apdus).state == AWAIT_RESPONSE then |up| == 1 && up[0].data == data else up == []
  {
    var r := Receiver(0, 0, Cut(data, size)[0], false);
    assert r.data == Assembled(Cut(data, size), 0, 0);
    ServerRefines(s, c, window, r, ds, apdus);
    ServerHandsUpOnce(s, c, window, r, ds, apdus);
    TakesInOrder(Cut(data, size), r, window, true, ds);
    AssembledAll(data, size);
  }

  lemma LongAnswersArriveWhole(s: Ssm, c: Config, window: byte, data: Bytes, size: nat, ds: seq<Delivery>,
                               apdus: seq<Apdu>)
    requires 0 < size && OfOne(Cut(data, size), ds) && AllCarry(apdus, ds, false)
    requires ClientRel(s, window, Receiver(0, 0, Cut(data, size)[0], false))
    requires AllUnmistakable(Receiver(0, 0, Cut(data, size)[0], false), window, false, ds)
    ensures var up := ClientHandsUp(s, c, apdus);
      if ClientRun(s, c, apdus).state == COMPLETED then |up| == 1 && up[0].data == data else up == []
  {
    var r := Receiver(0, 0, Cut(data, size)[0], false);
    assert r.data == Assembled(Cut(data, size), 0, 0);
    ClientRefines(s, c, window, r, ds, apdus);
    ClientHandsUpOnce(s, c, window, r, ds, apdus);
    TakesInOrder(Cut(data, size), r, window, false, ds);
    AssembledAll(data, size);
  }

  // ----- acknowledgements

  /** in_window, on numbers mod 256, sees a true number in some window of a multiple of 256. */
  lemma InWindowMod(a: nat, b: nat, window: byte)
    ensures InWindow(a % 256, b % 256, window) <==> (a - b) % 256 < window
  {
  }

  /** It is true window membership for an ack less than 256 ahead and at most 256 minus the
      window behind. */
  lemma InWindowIsMembership(a: nat, b: nat, window: byte)
    requires b + window <= a + 256 && a < b + 256
    ensures InWindow(a % 256, b % 256, window) <==> b <= a < b + window
  {
    InWindowMod(a, b, window);
    if a < b { assert (a - b) % 256 == a - b + 256; }
  }

  /** One further either way, and a window that is not empty takes in an ack it must not. */
  lemma InWindowNoFurther(a: nat, b: nat, window: byte)
    requires 0 < window && (a + 257 == b + window || a == b + 256)
    ensures InWindow(a % 256, b % 256, window) && !(b <= a < b + window)
  {
    InWindowMod(a, b, window);
    if a + 257 == b + window { assert a - b == -256 + (window - 1); }
  }
}
