/** The APDU header of section 20.1 (class APCI of bacpypes3/apdu.py) over a buffer. */
module Headers {
  import opened Apdus
  import opened Buffers

  function Bit(b: bool, weight: byte): byte {
    if b then weight else 0
  }

  predicate HasBit(n: byte, weight: byte)
    requires 0 < weight
  {
    (n / weight) % 2 == 1
  }

  /** The sequence number and window of a segment. */
  function Segment(seg: bool, seqNo: byte, win: byte): Bytes {
    if seg then [seqNo, win] else []
  }

  /** What the two length fields of a request make together; more than one octet cannot be put. */
  function Lengths(a: Apdu): nat
    requires a.ConfirmedRequest?
  {
    a.maxSegs * 16 + a.maxResp
  }

  predicate Encodable(a: Apdu) {
    a.ConfirmedRequest? ==> Lengths(a) < 256
  }

  function EncodeHeader(a: Apdu): Bytes
    requires Encodable(a)
  {
    match a
    case ConfirmedRequest(seg, mor, sa, _, _, id, seqNo, win, service, _) =>
      [Bit(seg, 8) + Bit(mor, 4) + Bit(sa, 2), Lengths(a), id] + Segment(seg, seqNo, win) + [service]
    case UnconfirmedRequest(service, _) => [16, service]
    case SimpleAck(id, service, _) => [32, id, service]
    case ComplexAck(seg, mor, id, seqNo, win, service, _) =>
      [48 + Bit(seg, 8) + Bit(mor, 4), id] + Segment(seg, seqNo, win) + [service]
    case SegmentAck(nak, srv, id, seqNo, win, _) => [64 + Bit(nak, 2) + Bit(srv, 1), id, seqNo, win]
    case ErrorAck(id, service, _) => [80, id, service]
    case Reject(id, reason, _) => [96, id, reason]
    case Abort(srv, id, reason, _) => [112 + Bit(srv, 1), id, reason]
  }

  /** The header with the user data behind it. */
  function Encode(a: Apdu): Bytes
    requires Encodable(a)
  {
    EncodeHeader(a) + a.data
  }

  function DecodeRequest(first: byte, b: Bytes): Option<Apdu> {
    var seg := HasBit(first, 8);
    var n := if seg then 5 else 3;
    if |b| < n then None
    else Some(ConfirmedRequest(seg, HasBit(first, 4), HasBit(first, 2), (b[0] / 16) % 8, b[0] % 16, b[1],
                               if seg then b[2] else 0, if seg then b[3] else 0, b[n - 1], b[n..]))
  }

  function DecodeComplexAck(first: byte, b: Bytes): Option<Apdu> {
    var seg := HasBit(first, 8);
    var n := if seg then 4 else 2;
    if |b| < n then None
    else Some(ComplexAck(seg, HasBit(first, 4), b[0], if seg then b[1] else 0, if seg then b[2]
        else 0, b[n - 1], b[n..]))
  }

  function DecodeSegmentAck(first: byte, b: Bytes): Option<Apdu> {
    if |b| < 3 then None else Some(SegmentAck(HasBit(first, 2), HasBit(first, 1), b[0], b[1], b[2], b[3..]))
  }

  /** The types whose header goes on with an invoke ID and one more octet. */
  function DecodeShort(first: byte, b: Bytes): Option<Apdu> {
    if |b| < 2 then None
    else
      match first / 16
      case 2 => Some(SimpleAck(b[0], b[1], b[2..]))
      case 5 => Some(ErrorAck(b[0], b[1], b[2..]))
      case 6 => Some(Reject(b[0], b[1], b[2..]))
      case 7 => Some(Abort(HasBit(first, 1), b[0], b[1], b[2..]))
      case _ => None
  }

  function DecodeUnconfirmed(b: Bytes): Option<Apdu> {
    if b == [] then None else Some(UnconfirmedRequest(b[0], b[1..]))
  }

  /** None stands for a decoding error. */
  function Decode(b: Bytes): Option<Apdu> {
    if b == [] then None
    else
      match b[0] / 16
      case 0 => DecodeRequest(b[0], b[1..])
      case 1 => DecodeUnconfirmed(b[1..])
      case 3 => DecodeComplexAck(b[0], b[1..])
      case 4 => DecodeSegmentAck(b[0], b[1..])
      case _ => DecodeShort(b[0], b[1..])
  }

  /** What is not on the wire is zero, and the lengths fit their fields. */
  predicate WellFormed(a: Apdu) {
    match a
    case ConfirmedRequest(seg, _, _, maxSegs, maxResp, _, seqNo, win, _, _) =>
      maxSegs < 8 && maxResp < 16 && (seg || (seqNo == 0 && win == 0))
    case ComplexAck(seg, _, _, seqNo, win, _, _) => seg || (seqNo == 0 && win == 0)
    case _ => true
  }

  lemma Bits(seg: bool, mor: bool, sa: bool)
    ensures var first := Bit(seg, 8) + Bit(mor, 4) + Bit(sa, 2);
      first < 16 && HasBit(first, 8) == seg && HasBit(first, 4) == mor && HasBit(first, 2) == sa
    ensures var first := 48 + Bit(seg, 8) + Bit(mor, 4);
      first / 16 == 3 && HasBit(first, 8) == seg && HasBit(first, 4) == mor
    ensures var first := 64 + Bit(seg, 2) + Bit(mor, 1);
      first / 16 == 4 && HasBit(first, 2) == seg && HasBit(first, 1) == mor
    ensures var first := 112 + Bit(seg, 1);
      first / 16 == 7 && HasBit(first, 1) == seg
  {
  }

  /** Decoding an encoded PDU of any type gives it back, its user data included, exactly when it
      is well formed. */
  lemma RoundTrip(a: Apdu)
    requires Encodable(a)
    ensures Decode(Encode(a)) == Some(a) <==> WellFormed(a)
  {
    match a {
      case ConfirmedRequest(_, _, _, _, _, _, _, _, _, _) => RequestRoundTrip(a);
      case ComplexAck(_, _, _, _, _, _, _) => ComplexAckRoundTrip(a);
      case _ => ShortRoundTrips(a);
    }
  }

  lemma ShortRoundTrips(a: Apdu)
    requires !a.ConfirmedRequest? && !a.ComplexAck?
    ensures Decode(Encode(a)) == Some(a)
  {
    var b := Encode(a);
    match a {
      case UnconfirmedRequest(service, data) => assert b[1..] == [service] + data;
      case SimpleAck(id, service, data) => assert b[1..] == [id, service] + data;
      case SegmentAck(nak, srv, id, seqNo, win, data) =>
        Bits(nak, srv, false);
        assert b[1..] == [id, seqNo, win] + data;
      case ErrorAck(id, service, data) => assert b[1..] == [id, service] + data;
      case Reject(id, reason, data) => assert b[1..] == [id, reason] + data;
      case Abort(srv, id, reason, data) =>
        Bits(srv, false, false);
        assert b[1..] == [id, reason] + data;
    }
  }

  lemma RequestRoundTrip(a: Apdu)
    requires a.ConfirmedRequest? && Encodable(a)
    ensures Decode(Encode(a)) == Some(a) <==> WellFormed(a)
  {
    Bits(a.seg, a.mor, a.sa);
    var b := Encode(a);
    var tail := Segment(a.seg, a.seqNo, a.win) + [a.service] + a.data;
    assert b[1..] == [Lengths(a), a.invokeID] + tail;
    assert b[1..][if a.seg then 5 else 3..] == a.data;
  }

  lemma ComplexAckRoundTrip(a: Apdu)
    requires a.ComplexAck?
    ensures Decode(Encode(a)) == Some(a) <==> WellFormed(a)
  {
    Bits(a.seg, a.mor, false);
    var b := Encode(a);
    assert b[1..] == [a.invokeID] + (Segment(a.seg, a.seqNo, a.win) + [a.service] + a.data);
    assert b[1..][if a.seg then 4 else 2..] == a.data;
  }

  // ----- the same over a buffer

  method PutSegment(pdu: PDUData, seg: bool, seqNo: byte, win: byte)
    modifies pdu
    ensures pdu.pduData == old(pdu.pduData) + Segment(seg, seqNo, win)
  {
    if seg {
      pdu.Put(seqNo);
      pdu.Put(win);
    }
  }

  /** APCI.encode; false stands for the ValueError of a number that is no octet. */
  method EncodeApci(a: Apdu) returns (ok: bool, pdu: PDUData)
    ensures fresh(pdu) && (ok <==> Encodable(a))
    ensures ok ==> pdu.pduData == EncodeHeader(a)
  {
    pdu := new PDUData([]);
    ok := true;
    match a {
      case ConfirmedRequest(_, _, _, _, _, _, _, _, _, _) => ok := PutRequest(pdu, a);
      case UnconfirmedRequest(service, _) =>
        pdu.Put(16);
        pdu.Put(service);
      case ComplexAck(_, _, _, _, _, _, _) =>
        pdu.Put(48 + Bit(a.seg, 8) + Bit(a.mor, 4));
        pdu.Put(a.invokeID);
        PutSegment(pdu, a.seg, a.seqNo, a.win);
        pdu.Put(a.service);
      case SegmentAck(nak, srv, id, seqNo, win, _) =>
        pdu.Put(64 + Bit(nak, 2) + Bit(srv, 1));
        pdu.Put(id);
        pdu.Put(seqNo);
        pdu.Put(win);
      case SimpleAck(id, service, _) => PutThree(pdu, 32, id, service);
      case ErrorAck(id, service, _) => PutThree(pdu, 80, id, service);
      case Reject(id, reason, _) => PutThree(pdu, 96, id, reason);
      case Abort(srv, id, reason, _) => PutThree(pdu, 112 + Bit(srv, 1), id, reason);
    }
  }

  method PutThree(pdu: PDUData, x: byte, y: byte, z: byte)
    modifies pdu
    ensures pdu.pduData == old(pdu.pduData) + [x, y, z]
  {
    pdu.Put(x);
    pdu.Put(y);
    pdu.Put(z);
  }

  method PutRequest(pdu: PDUData, a: Apdu) returns (ok: bool)
    requires a.ConfirmedRequest? && pdu.pduData == []
    modifies pdu
    ensures ok <==> Encodable(a)
    ensures ok ==> pdu.pduData == EncodeHeader(a)
  {
    pdu.Put(Bit(a.seg, 8) + Bit(a.mor, 4) + Bit(a.sa, 2));
    if 256 <= Lengths(a) {
      return false;
    }
    pdu.Put(Lengths(a));
    pdu.Put(a.invokeID);
    PutSegment(pdu, a.seg, a.seqNo, a.win);
    pdu.Put(a.service);
    ok := true;
  }

  /** APCI.decode, with what is left in the buffer as the user data. */
  method DecodeApci(pdu: PDUData) returns (r: Option<Apdu>)
    modifies pdu
    ensures r == Decode(old(pdu.pduData))
    ensures r.Some? ==> r.value.data == pdu.pduData
  {
    var first := pdu.Get();
    if first.None? {
      return None;
    }
    match first.value / 16 {
      case 0 => r := GetRequest(first.value, pdu);
      case 1 =>
        var service := pdu.Get();
        r := if service.None? then None else Some(UnconfirmedRequest(service.value, pdu.pduData));
      case 3 => r := GetComplexAck(first.value, pdu);
      case 4 => r := GetSegmentAck(first.value, pdu);
      case _ => r := GetShort(first.value, pdu);
    }
  }

  method GetSegment(seg: bool, pdu: PDUData) returns (r: Option<(byte, byte)>)
    modifies pdu
    ensures !seg ==> r == Some((0, 0)) && pdu.pduData == old(pdu.pduData)
    ensures seg && 2 <= |old(pdu.pduData)| ==>
      r == Some((old(pdu.pduData)[0], old(pdu.pduData)[1])) && pdu.pduData == old(pdu.pduData)[2..]
    ensures seg && |old(pdu.pduData)| < 2 ==> r == None
  {
    if !seg {
      return Some((0, 0));
    }
    var seqNo := pdu.Get();
    var win := pdu.Get();
    r := if seqNo.None? || win.None? then None else Some((seqNo.value, win.value));
  }

  method GetRequest(first: byte, pdu: PDUData) returns (r: Option<Apdu>)
    modifies pdu
    ensures r == DecodeRequest(first, old(pdu.pduData))
    ensures r.Some? ==> r.value.data == pdu.pduData
  {
    var seg := HasBit(first, 8);
    var lengths := pdu.Get();
    var id := pdu.Get();
    var segment := GetSegment(seg, pdu);
    var service := pdu.Get();
    if lengths.None? || id.None? || segment.None? || service.None? {
      return None;
    }
    r := Some(ConfirmedRequest(seg, HasBit(first, 4), HasBit(first, 2), (lengths.value / 16) % 8, lengths.value % 16,
                               id.value, segment.value.0, segment.value.1, service.value, pdu.pduData));
  }

  method GetComplexAck(first: byte, pdu: PDUData) returns (r: Option<Apdu>)
    modifies pdu
    ensures r == DecodeComplexAck(first, old(pdu.pduData))
    ensures r.Some? ==> r.value.data == pdu.pduData
  {
    var seg := HasBit(first, 8);
    var id := pdu.Get();
    var segment := GetSegment(seg, pdu);
    var service := pdu.Get();
    if id.None? || segment.None? || service.None? {
      return None;
    }
    r := Some(ComplexAck(seg, HasBit(first, 4), id.value, segment.value.0, segment.value.1, service.value,
        pdu.pduData));
  }

  method GetSegmentAck(first: byte, pdu: PDUData) returns (r: Option<Apdu>)
    modifies pdu
    ensures r == DecodeSegmentAck(first, old(pdu.pduData))
    ensures r.Some? ==> r.value.data == pdu.pduData
  {
    var id := pdu.Get();
    var segment := GetSegment(true, pdu);
    if id.None? || segment.None? {
      return None;
    }
    r := Some(SegmentAck(HasBit(first, 2), HasBit(first, 1), id.value, segment.value.0, segment.value.1, pdu.pduData));
  }

  method GetShort(first: byte, pdu: PDUData) returns (r: Option<Apdu>)
    modifies pdu
    ensures r == DecodeShort(first, old(pdu.pduData))
    ensures r.Some? ==> r.value.data == pdu.pduData
  {
    var id := pdu.Get();
    var more := pdu.Get();
    if id.None? || more.None? {
      return None;
    }
    match first / 16 {
      case 2 => r := Some(SimpleAck(id.value, more.value, pdu.pduData));
      case 5 => r := Some(ErrorAck(id.value, more.value, pdu.pduData));
      case 6 => r := Some(Reject(id.value, more.value, pdu.pduData));
      case 7 => r := Some(Abort(HasBit(first, 1), id.value, more.value, pdu.pduData));
      case _ => r := None;
    }
  }
}
