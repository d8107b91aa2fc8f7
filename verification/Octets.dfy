/** Where every field of the two headers stands among the octets: of the APDU header by section 20.1,
    of the NPDU header by section 6.2. What decodes is exactly what is laid out so, and what is encoded
    is the one such octet string that leaves the spare bits clear. */
module Octets {
  import opened Apdus
  import opened Buffers
  import Headers
  import NetworkHeaders

  predicate BitIs(n: byte, weight: byte, on: bool)
    requires 0 < weight
  {
    on <==> n / weight % 2 == 1
  }

  lemma SameHalf(x: nat, y: nat)
    requires x / 2 == y / 2 && x % 2 == y % 2
    ensures x == y
  {
  }

  lemma Halves(x: nat)
    ensures x / 2 / 2 == x / 4 && x / 4 / 2 == x / 8 && x / 8 / 2 == x / 16 && x / 16 / 2 == x / 32
    ensures x / 32 / 2 == x / 64 && x / 64 / 2 == x / 128
  {
  }

  /** A number is determined by its high part and the bits below it. */
  lemma SameNibble(x: nat, y: nat)
    requires x / 16 == y / 16 && x / 8 % 2 == y / 8 % 2 && x / 4 % 2 == y / 4 % 2
    requires x / 2 % 2 == y / 2 % 2 && x % 2 == y % 2
    ensures x == y
  {
    Halves(x);
    Halves(y);
    SameHalf(x / 8, y / 8);
    SameHalf(x / 4, y / 4);
    SameHalf(x / 2, y / 2);
    SameHalf(x, y);
  }

  lemma SameHigh(x: byte, y: byte)
    requires x / 128 % 2 == y / 128 % 2 && x / 64 % 2 == y / 64 % 2 && x / 32 % 2 == y / 32 % 2
    requires x / 16 % 2 == y / 16 % 2
    ensures x / 16 == y / 16
  {
    Halves(x);
    Halves(y);
    assert x / 128 < 2 && y / 128 < 2;
    SameHalf(x / 64, y / 64);
    SameHalf(x / 32, y / 32);
    SameHalf(x / 16, y / 16);
  }

  lemma LowBits(x: nat)
    ensures x % 4 == 2 * (x / 2 % 2) + x % 2
    ensures x % 16 == 8 * (x / 8 % 2) + 4 * (x / 4 % 2) + x % 4
  {
    Halves(x);
    LowEight(x);
    assert x % 16 == 8 * (x / 8 % 2) + x % 8;
  }

  lemma LowEight(x: nat)
    ensures x % 8 == 4 * (x / 4 % 2) + x % 4
  {
  }

  lemma ZeroBits(x: nat)
    ensures x % 4 == 0 ==> x / 2 % 2 == 0 && x % 2 == 0
    ensures x % 16 < 4 ==> x / 8 % 2 == 0 && x / 4 % 2 == 0
    ensures x % 16 < 2 ==> x / 2 % 2 == 0
    ensures x % 16 == 0 ==> x % 2 == 0
  {
    LowBits(x);
  }

  // ----- the APDU header

  predicate RequestAt(a: Apdu, b: Bytes)
    requires a.ConfirmedRequest?
  {
    && 4 <= |b| && b[0] / 16 == 0 && BitIs(b[0], 8, a.seg) && BitIs(b[0], 4, a.mor) && BitIs(b[0], 2, a.sa)
    && a.maxSegs == b[1] / 16 % 8 && a.maxResp == b[1] % 16 && a.invokeID == b[2]
    && if a.seg then 6 <= |b| && a.seqNo == b[3] && a.win == b[4] && a.service == b[5] && a.data == b[6..]
       else a.seqNo == 0 && a.win == 0 && a.service == b[3] && a.data == b[4..]
  }

  predicate ComplexAckAt(a: Apdu, b: Bytes)
    requires a.ComplexAck?
  {
    && 3 <= |b| && b[0] / 16 == 3 && BitIs(b[0], 8, a.seg) && BitIs(b[0], 4, a.mor) && a.invokeID == b[1]
    && if a.seg then 5 <= |b| && a.seqNo == b[2] && a.win == b[3] && a.service == b[4] && a.data == b[5..]
       else a.seqNo == 0 && a.win == 0 && a.service == b[2] && a.data == b[3..]
  }

  /** The PDU stands in the octets. */
  predicate At(a: Apdu, b: Bytes) {
    match a
    case ConfirmedRequest(_, _, _, _, _, _, _, _, _, _) => RequestAt(a, b)
    case UnconfirmedRequest(service, data) => 2 <= |b| && b[0] / 16 == 1 && service == b[1] && data == b[2..]
    case SimpleAck(id, service, data) =>
      3 <= |b| && b[0] / 16 == 2 && id == b[1] && service == b[2] && data == b[3..]
    case ComplexAck(_, _, _, _, _, _, _) => ComplexAckAt(a, b)
    case SegmentAck(nak, srv, id, seqNo, win, data) =>
      && 4 <= |b| && b[0] / 16 == 4 && BitIs(b[0], 2, nak) && BitIs(b[0], 1, srv)
      && id == b[1] && seqNo == b[2] && win == b[3] && data == b[4..]
    case ErrorAck(id, service, data) =>
      3 <= |b| && b[0] / 16 == 5 && id == b[1] && service == b[2] && data == b[3..]
    case Reject(id, reason, data) =>
      3 <= |b| && b[0] / 16 == 6 && id == b[1] && reason == b[2] && data == b[3..]
    case Abort(srv, id, reason, data) =>
      && 3 <= |b| && b[0] / 16 == 7 && BitIs(b[0], 1, srv)
      && id == b[1] && reason == b[2] && data == b[3..]
  }

  /** The bits that no field uses are 0. */
  predicate SpareClear(b: Bytes)
    requires 2 <= |b|
  {
    match b[0] / 16
    case 0 => b[0] % 2 == 0 && b[1] < 128
    case 3 => b[0] % 4 == 0
    case 4 => b[0] % 16 < 4
    case 7 => b[0] % 16 < 2
    case _ => b[0] % 16 == 0
  }

  lemma RequestDecodes(b: Bytes, a: Apdu)
    requires b != [] && b[0] / 16 == 0
    ensures Headers.Decode(b) == Some(a) <==> a.ConfirmedRequest? && RequestAt(a, b)
  {
    var seg := Headers.HasBit(b[0], 8);
    if (if seg then 6 else 4) <= |b| { assert b[1..][if seg then 5 else 3..] == b[if seg then 6 else 4..]; }
  }

  lemma ComplexAckDecodes(b: Bytes, a: Apdu)
    requires b != [] && b[0] / 16 == 3
    ensures Headers.Decode(b) == Some(a) <==> a.ComplexAck? && ComplexAckAt(a, b)
  {
    var seg := Headers.HasBit(b[0], 8);
    if (if seg then 5 else 3) <= |b| { assert b[1..][if seg then 4 else 2..] == b[if seg then 5 else 3..]; }
  }

  /** A PDU is decoded from exactly the octets it stands in. */
  lemma DecodesExactly(b: Bytes, a: Apdu)
    ensures Headers.Decode(b) == Some(a) <==> At(a, b)
  {
    if b != [] {
      if b[0] / 16 == 0 {
        RequestDecodes(b, a);
      } else if b[0] / 16 == 3 {
        ComplexAckDecodes(b, a);
      } else {
        if 2 <= |b| { assert b[1..][1..] == b[2..]; }
        if 3 <= |b| { assert b[1..][2..] == b[3..]; }
        if 4 <= |b| { assert b[1..][3..] == b[4..]; }
      }
    }
  }

  /** The shortest header of each type. */
  function Shortest(b: Bytes): nat
    requires b != [] && b[0] / 16 < 8
  {
    match b[0] / 16
    case 0 => if b[0] / 8 % 2 == 1 then 6 else 4
    case 1 => 2
    case 3 => if b[0] / 8 % 2 == 1 then 5 else 3
    case 4 => 4
    case _ => 3
  }

  /** Decoding fails exactly on nothing, on an unknown type and on a header that is cut short. */
  lemma FailsExactly(b: Bytes)
    ensures Headers.Decode(b) == None <==> b == [] || 8 <= b[0] / 16 || |b| < Shortest(b)
  {
  }

  lemma SpareOf(a: Apdu)
    requires Headers.Encodable(a) && Headers.WellFormed(a)
    ensures 2 <= |Headers.Encode(a)| && SpareClear(Headers.Encode(a))
  {
    Headers.Bits(false, false, false);
  }

  /** The first octet of a PDU, when the spare bits are clear. */
  lemma SameFirst(a: Apdu, b: Bytes, e: Bytes)
    requires At(a, b) && At(a, e) && SpareClear(b) && SpareClear(e)
    ensures b[0] == e[0]
  {
    ZeroBits(b[0]);
    ZeroBits(e[0]);
    SameNibble(b[0], e[0]);
  }

  lemma SamePrefix(b: Bytes, e: Bytes, n: nat)
    requires n <= |b| && n <= |e| && b[n..] == e[n..] && forall i :: 0 <= i < n ==> b[i] == e[i]
    ensures b == e
  {
    assert b == b[..n] + b[n..] && e == e[..n] + e[n..];
  }

  /** With the spare bits clear the octets are determined by the fields. */
  lemma SameOctets(a: Apdu, b: Bytes, e: Bytes)
    requires At(a, b) && At(a, e) && SpareClear(b) && SpareClear(e)
    ensures b == e
  {
    SameFirst(a, b, e);
    match a {
      case ConfirmedRequest(seg, _, _, _, _, _, _, _, _, _) => SamePrefix(b, e, if seg then 6 else 4);
      case UnconfirmedRequest(_, _) => SamePrefix(b, e, 2);
      case ComplexAck(seg, _, _, _, _, _, _) => SamePrefix(b, e, if seg then 5 else 3);
      case SegmentAck(_, _, _, _, _, _) => SamePrefix(b, e, 4);
      case _ => SamePrefix(b, e, 3);
    }
  }

  /** A PDU is encoded as the octets it stands in, the spare bits clear. */
  lemma EncodesExactly(a: Apdu, b: Bytes)
    requires Headers.Encodable(a) && Headers.WellFormed(a)
    ensures b == Headers.Encode(a) <==> At(a, b) && SpareClear(b)
  {
    Headers.RoundTrip(a);
    DecodesExactly(Headers.Encode(a), a);
    SpareOf(a);
    if At(a, b) && SpareClear(b) { SameOctets(a, b, Headers.Encode(a)); }
  }

  // ----- the NPDU header

  /** A network number stands at i, most significant octet first. */
  predicate ShortIs(b: Bytes, i: nat, net: nat) {
    i + 2 <= |b| && net == (b[i] as nat) * 256 + (b[i + 1] as nat)
  }

  /** A network number, the length of an address and the address stand from i to end. */
  predicate AddressIs(b: Bytes, i: nat, net: nat, mac: Bytes, end: nat) {
    ShortIs(b, i, net) && i + 3 <= end <= |b| && b[i + 2] as nat == |mac| && mac == b[i + 3..end]
  }

  /** The destination stands from 2 to end; the address behind the global network is not read. */
  predicate DestinationIs(dadr: Option<NetworkHeaders.Destination>, b: Bytes, end: nat) {
    match dadr
    case None => end == 2
    case Some(GlobalBroadcast) => ShortIs(b, 2, 65535) && 5 <= |b| && end == 5 + b[4] as nat <= |b|
    case Some(RemoteBroadcast(net)) => AddressIs(b, 2, net, [], end) && net != 65535 && end == 5
    case Some(RemoteStation(net, mac)) =>
      AddressIs(b, 2, net, mac, end) && net != 65535 && mac != [] && end == 5 + |mac|
  }

  predicate SourceIs(sadr: Option<NetworkHeaders.Station>, b: Bytes, i: nat, end: nat) {
    match sadr
    case None => end == i
    case Some(Station(net, mac)) => AddressIs(b, i, net, mac, end) && net != 65535 && mac != [] && end == i + 3 + |mac|
  }

  /** A message type stands from m to end, and after a proprietary one its vendor. */
  predicate MessageIs(message: Option<byte>, vendorID: nat, b: Bytes, m: nat, end: nat) {
    match message
    case None => end == m && vendorID == 0
    case Some(kind) =>
      && m < |b| && kind == b[m]
      && if kind < 128 then end == m + 1 && vendorID == 0 else end == m + 3 && ShortIs(b, m + 1, vendorID)
  }

  /** The hop count, which follows the addresses, and after it the message. */
  predicate TailIs(h: NetworkHeaders.Npci, b: Bytes, i: nat, end: nat) {
    var m := if h.dadr.Some? then i + 1 else i;
    && m <= |b| && (if h.dadr.Some? then h.hopCount == b[i] else h.hopCount == 0)
    && MessageIs(h.netMessage, h.vendorID, b, m, end)
  }

  /** The control octet: bit 7 for a network layer message, 5 for a destination, 3 for a source and 2
      for a reply that is expected, and the priority in the lowest two. */
  predicate ControlIs(h: NetworkHeaders.Npci, control: byte) {
    && BitIs(control, 128, h.netMessage.Some?) && BitIs(control, 32, h.dadr.Some?) && BitIs(control, 8, h.sadr.Some?)
    && BitIs(control, 4, h.expectingReply) && h.priority == control % 4
  }

  /** Where the destination of these octets ends, if it has one. */
  function DestinationEnd(b: Bytes): nat
    requires 2 <= |b|
  {
    if b[1] / 32 % 2 == 1 && 5 <= |b| then 5 + b[4] as nat else 2
  }

  function SourceEnd(b: Bytes, i: nat): nat
    requires 2 <= |b|
  {
    if b[1] / 8 % 2 == 1 && i + 3 <= |b| then i + 3 + b[i + 2] as nat else i
  }

  lemma TakesAddress(b: Bytes, i: nat)
    requires i <= |b|
    ensures var t := NetworkHeaders.TakeAddress(b[i..]);
      && (t.Some? <==> i + 3 <= |b| && i + 3 + b[i + 2] as nat <= |b|)
      && (t.Some? ==> var end := i + 3 + b[i + 2] as nat;
        t.value.2 == b[end..] && AddressIs(b, i, t.value.0, t.value.1, end))
  {
    if i + 3 <= |b| && i + 3 + b[i + 2] as nat <= |b| {
      var end := i + 3 + b[i + 2] as nat;
      assert b[i..][3..3 + b[i + 2] as nat] == b[i + 3..end] && b[i..][3 + b[i + 2] as nat..] == b[end..];
    }
  }

  /** What is left of the octets from end on. */
  predicate Leaves(b: Bytes, end: int, rest: Bytes) {
    0 <= end <= |b| && rest == b[end..]
  }

  lemma MessageDecodes(b: Bytes, m: nat, present: bool, message: Option<byte>, vendorID: nat, rest: Bytes)
    requires m <= |b|
    ensures NetworkHeaders.TakeMessage(present, b[m..]) == Some((message, vendorID, rest))
       <==> message.Some? == present && Leaves(b, |b| - |rest|, rest)
            && MessageIs(message, vendorID, b, m, |b| - |rest|)
  {
    if m < |b| { assert b[m..][1..] == b[m + 1..]; }
    if m + 3 <= |b| { assert b[m..][3..] == b[m + 3..]; }
  }

  lemma TailDecodes(b: Bytes, j: nat, dadr: Option<NetworkHeaders.Destination>, sadr: Option<NetworkHeaders.Station>,
                    h: NetworkHeaders.Npci, rest: Bytes)
    requires 2 <= j <= |b| && (dadr.Some? <==> b[1] / 32 % 2 == 1)
    ensures NetworkHeaders.DecodeTail(b[1], dadr, sadr, b[j..]) == Some((h, rest))
       <==> h.dadr == dadr && h.sadr == sadr && h.expectingReply == (b[1] / 4 % 2 == 1) && h.priority == b[1] % 4
            && h.netMessage.Some? == (b[1] / 128 % 2 == 1)
            && Leaves(b, |b| - |rest|, rest) && TailIs(h, b, j, |b| - |rest|)
  {
    var m := if dadr.Some? then j + 1 else j;
    if m <= |b| {
      assert b[j..][m - j..] == b[m..];
      MessageDecodes(b, m, b[1] / 128 % 2 == 1, h.netMessage, h.vendorID, rest);
    }
  }

  /** The rest of the header stands from the source on. */
  predicate FromSourceIs(h: NetworkHeaders.Npci, b: Bytes, i: nat, rest: Bytes)
    requires 2 <= |b|
  {
    && ControlIs(h, b[1]) && SourceIs(h.sadr, b, i, SourceEnd(b, i))
    && Leaves(b, |b| - |rest|, rest) && TailIs(h, b, SourceEnd(b, i), |b| - |rest|)
  }

  lemma SourceDecodes(b: Bytes, i: nat, dadr: Option<NetworkHeaders.Destination>, h: NetworkHeaders.Npci, rest: Bytes)
    requires 2 <= i <= |b| && (dadr.Some? <==> b[1] / 32 % 2 == 1)
    ensures NetworkHeaders.DecodeSource(b[1], dadr, b[i..]) == Some((h, rest))
       <==> h.dadr == dadr && FromSourceIs(h, b, i, rest)
  {
    var j := SourceEnd(b, i);
    TakesAddress(b, i);
    var t := NetworkHeaders.TakeSource(b[1] / 8 % 2 == 1, b[i..]);
    if t.Some? {
      TailDecodes(b, j, dadr, t.value.0, h, rest);
    }
  }

  lemma TakesDestination(b: Bytes, dadr: Option<NetworkHeaders.Destination>)
    requires 2 <= |b|
    ensures var i, t := DestinationEnd(b), NetworkHeaders.TakeDestination(b[1] / 32 % 2 == 1, b[2..]);
      && (t.Some? ==> i <= |b| && t.value.1 == b[i..] && t.value.0.Some? == (b[1] / 32 % 2 == 1))
      && (t.Some? && t.value.0 == dadr
        <==> DestinationIs(dadr, b, i) && i <= |b| && dadr.Some? == (b[1] / 32 % 2 == 1))
  {
    TakesAddress(b, 2);
  }

  lemma DestinationDecodes(b: Bytes, h: NetworkHeaders.Npci, rest: Bytes)
    requires 2 <= |b|
    ensures NetworkHeaders.DecodeDestination(b[1], b[2..]) == Some((h, rest))
       <==> ControlIs(h, b[1]) && DestinationIs(h.dadr, b, DestinationEnd(b)) && DestinationEnd(b) <= |b|
            && FromSourceIs(h, b, DestinationEnd(b), rest)
  {
    TakesDestination(b, h.dadr);
    var t := NetworkHeaders.TakeDestination(b[1] / 32 % 2 == 1, b[2..]);
    if t.Some? { SourceDecodes(b, DestinationEnd(b), t.value.0, h, rest); }
  }

  /** The header stands in the octets, and the rest after it. */
  predicate HeaderIs(h: NetworkHeaders.Npci, b: Bytes, rest: Bytes) {
    && 2 <= |b| && b[0] == 1 && ControlIs(h, b[1])
    && DestinationIs(h.dadr, b, DestinationEnd(b)) && DestinationEnd(b) <= |b|
    && FromSourceIs(h, b, DestinationEnd(b), rest)
  }

  /** A header is decoded from exactly the octets it stands in, and what follows is left. */
  lemma HeaderDecodesExactly(b: Bytes, h: NetworkHeaders.Npci, rest: Bytes)
    ensures NetworkHeaders.Decode(b) == Some((h, rest)) <==> HeaderIs(h, b, rest)
  {
    if 2 <= |b| { DestinationDecodes(b, h, rest); }
  }

  /** Bits 6 and 4 of the control octet are 0, and the global network has no address. */
  predicate HeaderSpareClear(h: NetworkHeaders.Npci, b: Bytes)
    requires 2 <= |b|
  {
    && b[1] / 64 % 2 == 0 && b[1] / 16 % 2 == 0
    && (h.dadr == Some(NetworkHeaders.GlobalBroadcast) ==> 5 <= |b| && b[4] == 0)
  }

  lemma SameControl(h: NetworkHeaders.Npci, x: byte, y: byte)
    requires ControlIs(h, x) && ControlIs(h, y)
    requires x / 64 % 2 == y / 64 % 2 && x / 16 % 2 == y / 16 % 2
    ensures x == y
  {
    LowBits(x);
    LowBits(y);
    SameHigh(x, y);
    SameNibble(x, y);
  }

  lemma SameShort(b: Bytes, e: Bytes, i: nat, net: nat)
    requires ShortIs(b, i, net) && ShortIs(e, i, net)
    ensures b[i] == e[i] && b[i + 1] == e[i + 1]
  {
  }

  lemma SameAddress(b: Bytes, e: Bytes, i: nat, net: nat, mac: Bytes, end: nat)
    requires AddressIs(b, i, net, mac, end) && AddressIs(e, i, net, mac, end)
    ensures b[i..end] == e[i..end]
  {
    SameShort(b, e, i, net);
    assert b[i..end] == b[i..i + 3] + b[i + 3..end] && e[i..end] == e[i..i + 3] + e[i + 3..end];
  }

  lemma SameDestination(h: NetworkHeaders.Npci, b: Bytes, e: Bytes, rest: Bytes)
    requires HeaderIs(h, b, rest) && HeaderIs(h, e, rest) && b[1] == e[1]
    requires HeaderSpareClear(h, b) && HeaderSpareClear(h, e)
    ensures DestinationEnd(b) == DestinationEnd(e) && b[..DestinationEnd(b)] == e[..DestinationEnd(b)]
  {
    var i := DestinationEnd(b);
    match h.dadr {
      case None =>
      case Some(GlobalBroadcast) => SameShort(b, e, 2, 65535);
      case Some(RemoteBroadcast(net)) => SameAddress(b, e, 2, net, [], 5);
      case Some(RemoteStation(net, mac)) => SameAddress(b, e, 2, net, mac, 5 + |mac|);
    }
    if h.dadr.Some? { assert b[..i] == b[..2] + b[2..i] && e[..i] == e[..2] + e[2..i]; }
  }

  lemma SameSource(h: NetworkHeaders.Npci, b: Bytes, e: Bytes, i: nat, rest: Bytes)
    requires 2 <= i <= |b| && i <= |e| && FromSourceIs(h, b, i, rest) && FromSourceIs(h, e, i, rest)
    requires b[1] == e[1] && b[..i] == e[..i]
    ensures SourceEnd(b, i) == SourceEnd(e, i) <= |b| && SourceEnd(e, i) <= |e|
    ensures b[..SourceEnd(b, i)] == e[..SourceEnd(b, i)]
  {
    var j := SourceEnd(b, i);
    if h.sadr.Some? {
      SameAddress(b, e, i, h.sadr.value.net, h.sadr.value.mac, j);
      assert b[..j] == b[..i] + b[i..j] && e[..j] == e[..i] + e[i..j];
    }
  }

  lemma SameTail(h: NetworkHeaders.Npci, b: Bytes, e: Bytes, j: nat, rest: Bytes)
    requires j <= |b| && j <= |e| && b[..j] == e[..j]
    requires Leaves(b, |b| - |rest|, rest) && TailIs(h, b, j, |b| - |rest|)
    requires Leaves(e, |e| - |rest|, rest) && TailIs(h, e, j, |e| - |rest|)
    ensures b == e
  {
    var end := |b| - |rest|;
    assert |b| == |e| && j <= end;
    if h.netMessage.Some? && 128 <= h.netMessage.value { SameShort(b, e, end - 2, h.vendorID); }
    assert b == b[..j] + b[j..end] + b[end..] && e == e[..j] + e[j..end] + e[end..];
    assert b[j..end] == e[j..end];
  }

  lemma SameHeader(h: NetworkHeaders.Npci, b: Bytes, e: Bytes, rest: Bytes)
    requires HeaderIs(h, b, rest) && HeaderSpareClear(h, b) && HeaderIs(h, e, rest) && HeaderSpareClear(h, e)
    ensures b == e
  {
    SameControl(h, b[1], e[1]);
    SameDestination(h, b, e, rest);
    SameSource(h, b, e, DestinationEnd(b), rest);
    SameTail(h, b, e, SourceEnd(b, DestinationEnd(b)), rest);
  }

  /** A header is encoded as the octets it stands in, the spare bits clear. */
  lemma HeaderEncodesExactly(h: NetworkHeaders.Npci, b: Bytes, rest: Bytes)
    requires NetworkHeaders.Encodable(h) && NetworkHeaders.WellFormed(h)
    ensures b == NetworkHeaders.Encode(h) + rest <==> HeaderIs(h, b, rest) && HeaderSpareClear(h, b)
  {
    var e := NetworkHeaders.Encode(h) + rest;
    NetworkHeaders.RoundTrip(h, rest);
    HeaderDecodesExactly(e, h, rest);
    EncodedSpareClear(h, rest);
    if HeaderIs(h, b, rest) && HeaderSpareClear(h, b) { SameHeader(h, b, e, rest); }
  }

  lemma EncodedSpareClear(h: NetworkHeaders.Npci, rest: Bytes)
    requires NetworkHeaders.Encodable(h)
    ensures var e := NetworkHeaders.Encode(h) + rest; 2 <= |e| && HeaderSpareClear(h, e)
  {
    NetworkHeaders.EncodedParts(h, rest);
    SpareOfControl(h);
    if h.dadr == Some(NetworkHeaders.GlobalBroadcast) {
      assert NetworkHeaders.DestinationOctets(h.dadr)[2] == 0;
      assert (NetworkHeaders.Encode(h) + rest)[2..][2] == 0;
    }
  }

  lemma SpareOfControl(h: NetworkHeaders.Npci)
    ensures NetworkHeaders.Control(h) / 64 % 2 == 0 && NetworkHeaders.Control(h) / 16 % 2 == 0
  {
  }

  // ----- the network layer messages

  /** Network numbers stand one after the other, two octets each, up to the end. */
  predicate NetsAre(nets: seq<nat>, b: Bytes) {
    |b| == 2 * |nets| && forall k :: 0 <= k < |nets| ==> ShortIs(b, 2 * k, nets[k])
  }

  /** An entry of a routing table: network, port, length of the port information, port information. */
  predicate EntryIs(e: NetworkHeaders.RoutingTableEntry, b: Bytes, i: nat) {
    && ShortIs(b, i, e.dnet) && i + 4 + |e.portInfo| <= |b|
    && b[i + 2] == e.portID && b[i + 3] as nat == |e.portInfo| && b[i + 4..i + 4 + |e.portInfo|] == e.portInfo
  }

  /** The entries stand one after the other from i to end. */
  predicate EntriesAre(table: seq<NetworkHeaders.RoutingTableEntry>, b: Bytes, i: nat, end: nat)
    decreases |table|
  {
    if table == [] then end == i
    else EntryIs(table[0], b, i) && EntriesAre(table[1..], b, i + 4 + |table[0].portInfo|, end)
  }

  /** A routing table: how many entries, and the entries. */
  predicate TableIs(table: seq<NetworkHeaders.RoutingTableEntry>, b: Bytes, end: nat) {
    b != [] && b[0] as nat == |table| && EntriesAre(table, b, 1, end)
  }

  /** The body of a message of that type stands from 0 to end. */
  predicate BodyIs(kind: byte, m: NetworkHeaders.Message, b: Bytes, end: nat) {
    match m
    case WhoIsRouterToNetwork(None) => kind == 0 && b == [] && end == 0
    case WhoIsRouterToNetwork(Some(net)) => kind == 0 && ShortIs(b, 0, net) && end == 2
    case IAmRouterToNetwork(nets) => kind == 1 && NetsAre(nets, b) && end == |b|
    case ICouldBeRouterToNetwork(net, index) => kind == 2 && ShortIs(b, 0, net) && 3 <= |b| && b[2] == index && end == 3
    case RejectMessageToNetwork(reason, dnet) => kind == 3 && ShortIs(b, 1, dnet) && b[0] == reason && end == 3
    case RouterBusyToNetwork(nets) => kind == 4 && NetsAre(nets, b) && end == |b|
    case RouterAvailableToNetwork(nets) => kind == 5 && NetsAre(nets, b) && end == |b|
    case InitializeRoutingTable(table) => kind == 6 && TableIs(table, b, end)
    case InitializeRoutingTableAck(table) => kind == 7 && TableIs(table, b, end)
    case EstablishConnectionToNetwork(dnet, time) =>
      kind == 8 && ShortIs(b, 0, dnet) && 3 <= |b| && b[2] == time && end == 3
    case DisconnectConnectionToNetwork(dnet) => kind == 9 && ShortIs(b, 0, dnet) && end == 2
    case WhatIsNetworkNumber => kind == 18 && end == 0
    case NetworkNumberIs(net, flag) => kind == 19 && ShortIs(b, 0, net) && 3 <= |b| && b[2] == flag && end == 3
  }

  lemma NetsStep(b: Bytes, n: nat, nets: seq<nat>)
    requires 2 <= |b|
    ensures NetsAre([n] + nets, b) <==> n == ShortAt(b) && NetsAre(nets, b[2..])
  {
    if n == ShortAt(b) && NetsAre(nets, b[2..]) {
      forall k | 0 <= k < |[n] + nets| ensures ShortIs(b, 2 * k, ([n] + nets)[k]) {
        if k > 0 { assert ShortIs(b[2..], 2 * (k - 1), nets[k - 1]); }
      }
    }
    if NetsAre([n] + nets, b) {
      assert ShortIs(b, 2 * 0, ([n] + nets)[0]);
      forall k | 0 <= k < |nets| ensures ShortIs(b[2..], 2 * k, nets[k]) {
        assert ShortIs(b, 2 * (k + 1), ([n] + nets)[k + 1]);
      }
    }
  }

  lemma {:induction false} NetsDecode(b: Bytes, nets: seq<nat>)
    ensures NetworkHeaders.TakeShorts(b) == Some(nets) <==> NetsAre(nets, b)
    decreases |b|
  {
    if 2 <= |b| {
      if nets != [] {
        assert nets == [nets[0]] + nets[1..];
        NetsStep(b, nets[0], nets[1..]);
        NetsDecode(b[2..], nets[1..]);
      }
    }
  }

  lemma EntryDecodes(b: Bytes, i: nat, e: NetworkHeaders.RoutingTableEntry, rest: Bytes)
    requires i <= |b|
    ensures NetworkHeaders.TakeEntry(b[i..]) == Some((e, rest))
       <==> EntryIs(e, b, i) && rest == b[i + 4 + |e.portInfo|..]
  {
    if i + 4 <= |b| && i + 4 + b[i + 3] as nat <= |b| {
      var end := i + 4 + b[i + 3] as nat;
      assert b[i..][4..4 + b[i + 3] as nat] == b[i + 4..end] && b[i..][4 + b[i + 3] as nat..] == b[end..];
    }
  }

  lemma EntriesStep(b: Bytes, i: nat, n: nat, table: seq<NetworkHeaders.RoutingTableEntry>, rest: Bytes)
    requires i <= |b| && 0 < n
    ensures NetworkHeaders.TakeEntries(n, b[i..]) == Some((table, rest))
       <==> table != [] && EntryIs(table[0], b, i)
            && NetworkHeaders.TakeEntries(n - 1, b[i + 4 + |table[0].portInfo|..]) == Some((table[1..], rest))
  {
    var t := NetworkHeaders.TakeEntry(b[i..]);
    if table != [] {
      EntryDecodes(b, i, table[0], b[if i + 4 + |table[0].portInfo| <= |b| then i + 4 + |table[0].portInfo| else i..]);
      assert table == [table[0]] + table[1..];
    }
    if t.Some? { EntryDecodes(b, i, t.value.0, t.value.1); }
  }

  lemma {:induction false} EntriesDecode(b: Bytes, i: nat, n: nat, table: seq<NetworkHeaders.RoutingTableEntry>,
                                         rest: Bytes)
    requires i <= |b|
    ensures NetworkHeaders.TakeEntries(n, b[i..]) == Some((table, rest))
       <==> |table| == n && Leaves(b, |b| - |rest|, rest) && EntriesAre(table, b, i, |b| - |rest|)
    decreases n
  {
    if n > 0 {
      EntriesStep(b, i, n, table, rest);
      if table != [] && EntryIs(table[0], b, i) {
        EntriesDecode(b, i + 4 + |table[0].portInfo|, n - 1, table[1..], rest);
      }
    }
  }

  lemma TableDecodes(b: Bytes, table: seq<NetworkHeaders.RoutingTableEntry>, rest: Bytes)
    ensures NetworkHeaders.TakeTable(b) == Some((table, rest))
       <==> Leaves(b, |b| - |rest|, rest) && TableIs(table, b, |b| - |rest|)
  {
    if b != [] { EntriesDecode(b, 1, b[0], table, rest); }
  }

  lemma ShortFrom(b: Bytes, i: nat)
    requires i + 2 <= |b|
    ensures ShortIs(b, i, ShortAt(b[i..]))
  {
  }

  lemma NetsBody(kind: byte, b: Bytes, m: NetworkHeaders.Message, rest: Bytes)
    requires kind == 1 || kind == 4 || kind == 5
    ensures NetworkHeaders.DecodeBody(kind, b) == Some((m, rest))
       <==> Leaves(b, |b| - |rest|, rest) && BodyIs(kind, m, b, |b| - |rest|)
  {
    if m.IAmRouterToNetwork? || m.RouterBusyToNetwork? || m.RouterAvailableToNetwork? { NetsDecode(b, m.nets); }
  }

  lemma TableBody(kind: byte, b: Bytes, m: NetworkHeaders.Message, rest: Bytes)
    requires kind == 6 || kind == 7
    ensures NetworkHeaders.DecodeBody(kind, b) == Some((m, rest))
       <==> Leaves(b, |b| - |rest|, rest) && BodyIs(kind, m, b, |b| - |rest|)
  {
    if m.InitializeRoutingTable? || m.InitializeRoutingTableAck? { TableDecodes(b, m.table, rest); }
  }

  lemma PairBody(kind: byte, b: Bytes, m: NetworkHeaders.Message, rest: Bytes)
    requires kind == 2 || kind == 8 || kind == 19
    ensures NetworkHeaders.DecodeBody(kind, b) == Some((m, rest))
       <==> Leaves(b, |b| - |rest|, rest) && BodyIs(kind, m, b, |b| - |rest|)
  {
  }

  lemma OtherBody(kind: byte, b: Bytes, m: NetworkHeaders.Message, rest: Bytes)
    requires kind == 0 || kind == 3 || kind == 9 || 10 <= kind != 19
    ensures NetworkHeaders.DecodeBody(kind, b) == Some((m, rest))
       <==> Leaves(b, |b| - |rest|, rest) && BodyIs(kind, m, b, |b| - |rest|)
  {
    if 3 <= |b| { ShortFrom(b, 1); }
  }

  /** A message is decoded from exactly the octets it stands in, by its type, and what follows is left. */
  lemma BodyDecodesExactly(kind: byte, b: Bytes, m: NetworkHeaders.Message, rest: Bytes)
    ensures NetworkHeaders.DecodeBody(kind, b) == Some((m, rest))
       <==> Leaves(b, |b| - |rest|, rest) && BodyIs(kind, m, b, |b| - |rest|)
  {
    if kind == 1 || kind == 4 || kind == 5 {
      NetsBody(kind, b, m, rest);
    } else if kind == 6 || kind == 7 {
      TableBody(kind, b, m, rest);
    } else if kind == 2 || kind == 8 || kind == 19 {
      PairBody(kind, b, m, rest);
    } else {
      OtherBody(kind, b, m, rest);
    }
  }

  lemma SameNets(nets: seq<nat>, b: Bytes, e: Bytes)
    requires NetsAre(nets, b) && NetsAre(nets, e)
    ensures b == e
  {
    forall i | 0 <= i < |b| ensures b[i] == e[i] {
      assert ShortIs(b, 2 * (i / 2), nets[i / 2]) && ShortIs(e, 2 * (i / 2), nets[i / 2]);
    }
  }

  lemma {:induction false} SameEntries(table: seq<NetworkHeaders.RoutingTableEntry>, b: Bytes, e: Bytes, i: nat,
                                       end: nat)
    requires EntriesAre(table, b, i, end) && EntriesAre(table, e, i, end) && i <= |b| && i <= |e| && b[..i] == e[..i]
    ensures end <= |b| && end <= |e| && b[..end] == e[..end]
    decreases |table|
  {
    if table != [] {
      var j := i + 4 + |table[0].portInfo|;
      assert b[..j] == b[..i] + b[i..i + 4] + b[i + 4..j] && e[..j] == e[..i] + e[i..i + 4] + e[i + 4..j];
      assert b[i..i + 4] == e[i..i + 4];
      SameEntries(table[1..], b, e, j, end);
    }
  }

  lemma SameBody(kind: byte, m: NetworkHeaders.Message, b: Bytes, e: Bytes, end: nat)
    requires BodyIs(kind, m, b, end) && BodyIs(kind, m, e, end) && end <= |b| && end <= |e|
    ensures b[..end] == e[..end]
  {
    if m.IAmRouterToNetwork? || m.RouterBusyToNetwork? || m.RouterAvailableToNetwork? {
      SameNets(m.nets, b, e);
    } else if m.InitializeRoutingTable? || m.InitializeRoutingTableAck? {
      SameEntries(m.table, b, e, 1, end);
    }
  }

  lemma SameEnd(kind: byte, m: NetworkHeaders.Message, b: Bytes, e: Bytes, end: nat, other: nat)
    requires BodyIs(kind, m, b, end) && BodyIs(kind, m, e, other)
    ensures end == other
  {
    if m.InitializeRoutingTable? || m.InitializeRoutingTableAck? { SameTableEnd(m.table, b, e, 1, end, other); }
  }

  lemma {:induction false} SameTableEnd(table: seq<NetworkHeaders.RoutingTableEntry>, b: Bytes, e: Bytes, i: nat,
                                        end: nat, other: nat)
    requires EntriesAre(table, b, i, end) && EntriesAre(table, e, i, other)
    ensures end == other
    decreases |table|
  {
    if table != [] { SameTableEnd(table[1..], b, e, i + 4 + |table[0].portInfo|, end, other); }
  }

  lemma SameMessage(kind: byte, m: NetworkHeaders.Message, b: Bytes, e: Bytes, rest: Bytes)
    requires Leaves(b, |b| - |rest|, rest) && BodyIs(kind, m, b, |b| - |rest|)
    requires Leaves(e, |e| - |rest|, rest) && BodyIs(kind, m, e, |e| - |rest|)
    ensures b == e
  {
    var end := |e| - |rest|;
    SameEnd(kind, m, b, e, |b| - |rest|, end);
    SameBody(kind, m, b, e, end);
    assert b == b[..end] + b[end..] && e == e[..end] + e[end..];
  }

  lemma EncodedBody(m: NetworkHeaders.Message, rest: Bytes)
    requires NetworkHeaders.EncodableMessage(m) && NetworkHeaders.WellFormedMessage(m)
    requires NetworkHeaders.TakesAll(m) ==> rest == []
    ensures var e := NetworkHeaders.EncodeBody(m) + rest;
      Leaves(e, |e| - |rest|, rest) && BodyIs(NetworkHeaders.TypeOf(m), m, e, |e| - |rest|)
  {
    NetworkHeaders.BodyRoundTrip(m, rest);
    BodyDecodesExactly(NetworkHeaders.TypeOf(m), NetworkHeaders.EncodeBody(m) + rest, m, rest);
  }

  /** A message is encoded as the octets it stands in, whatever follows. */
  lemma BodyEncodesExactly(m: NetworkHeaders.Message, b: Bytes, rest: Bytes)
    requires NetworkHeaders.EncodableMessage(m) && NetworkHeaders.WellFormedMessage(m)
    requires NetworkHeaders.TakesAll(m) ==> rest == []
    ensures b == NetworkHeaders.EncodeBody(m) + rest
       <==> Leaves(b, |b| - |rest|, rest) && BodyIs(NetworkHeaders.TypeOf(m), m, b, |b| - |rest|)
  {
    EncodedBody(m, rest);
    if Leaves(b, |b| - |rest|, rest) && BodyIs(NetworkHeaders.TypeOf(m), m, b, |b| - |rest|) {
      SameMessage(NetworkHeaders.TypeOf(m), m, b, NetworkHeaders.EncodeBody(m) + rest, rest);
    }
  }
}
