/** The NPDU header and the network layer messages of section 6.2 (bacpypes3/npdu.py). */
module NetworkHeaders {
  import opened Apdus
  import opened Buffers
  import opened Headers

  const GLOBAL: nat := 0xFFFF

  /** The destinations that a header can carry. */
  datatype Destination = RemoteStation(net: nat, mac: Bytes) | RemoteBroadcast(net: nat) | GlobalBroadcast

  datatype Station = Station(net: nat, mac: Bytes)

  /** The fields of the header. The hop count is there when the destination is, and the vendor
      when the message is proprietary; otherwise they are 0. */
  datatype Npci = Npci(
    expectingReply: bool, priority: byte, dadr: Option<Destination>, sadr: Option<Station>,
    hopCount: byte, netMessage: Option<byte>, vendorID: nat)

  // ----- the header

  function AddressOctets(net: nat, mac: Bytes): Bytes
    requires |mac| < 256
  {
    Short(net) + [|mac|] + mac
  }

  predicate Encodable(h: Npci) {
    && (h.dadr.Some? && h.dadr.value.RemoteStation? ==> |h.dadr.value.mac| < 256)
    && (h.sadr.Some? ==> |h.sadr.value.mac| < 256)
  }

  function DestinationOctets(dadr: Option<Destination>): Bytes
    requires dadr.Some? && dadr.value.RemoteStation? ==> |dadr.value.mac| < 256
  {
    match dadr
    case Some(RemoteStation(net, mac)) => AddressOctets(net, mac)
    case Some(RemoteBroadcast(net)) => AddressOctets(net, [])
    case Some(GlobalBroadcast) => AddressOctets(GLOBAL, [])
    case None => []
  }

  function SourceOctets(sadr: Option<Station>): Bytes
    requires sadr.Some? ==> |sadr.value.mac| < 256
  {
    if sadr.None? then [] else AddressOctets(sadr.value.net, sadr.value.mac)
  }

  predicate Proprietary(message: byte) {
    0x80 <= message
  }

  function MessageOctets(h: Npci): Bytes {
    if h.netMessage.None? then []
    else [h.netMessage.value] + if Proprietary(h.netMessage.value) then Short(h.vendorID) else []
  }

  function Control(h: Npci): byte {
    Bit(h.netMessage.Some?, 128) + Bit(h.dadr.Some?, 32) + Bit(h.sadr.Some?, 8) + Bit(h.expectingReply, 4)
    + h.priority % 4
  }

  function Encode(h: Npci): Bytes
    requires Encodable(h)
  {
    [1, Control(h)] + DestinationOctets(h.dadr) + SourceOctets(h.sadr)
    + (if h.dadr.Some? then [h.hopCount] else []) + MessageOctets(h)
  }

  /** A network and an address of any length, and what follows them. */
  function TakeAddress(b: Bytes): Option<(nat, Bytes, Bytes)> {
    if |b| < 3 || |b| < 3 + b[2] as nat then None
    else Some((ShortAt(b), b[3..3 + b[2] as nat], b[3 + b[2] as nat..]))
  }

  function DestinationOf(net: nat, mac: Bytes): Destination {
    if net == GLOBAL then GlobalBroadcast else if mac == [] then RemoteBroadcast(net) else RemoteStation(net, mac)
  }

  function TakeDestination(present: bool, b: Bytes): Option<(Option<Destination>, Bytes)> {
    if !present then Some((None, b))
    else
      match TakeAddress(b)
      case None => None
      case Some((net, mac, rest)) => Some((Some(DestinationOf(net, mac)), rest))
  }

  function TakeSource(present: bool, b: Bytes): Option<(Option<Station>, Bytes)> {
    if !present then Some((None, b))
    else
      match TakeAddress(b)
      case None => None
      case Some((net, mac, rest)) => if net == GLOBAL || mac == [] then None else Some((Some(Station(net, mac)), rest))
  }

  function TakeHops(present: bool, b: Bytes): Option<(byte, Bytes)> {
    if !present then Some((0, b)) else if b == [] then None else Some((b[0], b[1..]))
  }

  function TakeMessage(present: bool, b: Bytes): Option<(Option<byte>, nat, Bytes)> {
    if !present then Some((None, 0, b))
    else if b == [] then None
    else if !Proprietary(b[0]) then Some((Some(b[0]), 0, b[1..]))
    else if |b| < 3 then None
    else Some((Some(b[0]), ShortAt(b[1..]), b[3..]))
  }

  /** The hop count and the message, after the addresses. */
  function DecodeTail(control: byte, dadr: Option<Destination>, sadr: Option<Station>, b: Bytes): Option<(Npci,
                      Bytes)> {
    match TakeHops(HasBit(control, 32), b)
    case None => None
    case Some((hops, b1)) =>
      match TakeMessage(HasBit(control, 128), b1)
      case None => None
      case Some((message, vendor, rest)) =>
        Some((Npci(HasBit(control, 4), control % 4, dadr, sadr, hops, message, vendor), rest))
  }

  function DecodeSource(control: byte, dadr: Option<Destination>, b: Bytes): Option<(Npci, Bytes)> {
    match TakeSource(HasBit(control, 8), b)
    case None => None
    case Some((sadr, rest)) => DecodeTail(control, dadr, sadr, rest)
  }

  function DecodeDestination(control: byte, b: Bytes): Option<(Npci, Bytes)> {
    match TakeDestination(HasBit(control, 32), b)
    case None => None
    case Some((dadr, rest)) => DecodeSource(control, dadr, rest)
  }

  /** The header and what is left; None stands for a decoding error. */
  function Decode(b: Bytes): Option<(Npci, Bytes)> {
    if |b| < 2 || b[0] != 1 then None else DecodeDestination(b[1], b[2..])
  }

  /** No network is cut short or taken for the global one, no station is without an address, and
      what is not on the wire is 0. */
  predicate WellFormed(h: Npci) {
    WellFormedDestination(h.dadr) && WellFormedSource(h.sadr) && WellFormedTail(h)
  }

  predicate WellFormedDestination(dadr: Option<Destination>) {
    match dadr
    case Some(RemoteStation(net, mac)) => net < GLOBAL && mac != []
    case Some(RemoteBroadcast(net)) => net < GLOBAL
    case Some(GlobalBroadcast) => true
    case None => true
  }

  predicate WellFormedSource(sadr: Option<Station>) {
    sadr.Some? ==> sadr.value.net < GLOBAL && sadr.value.mac != []
  }

  lemma TakesAddress(net: nat, mac: Bytes, rest: Bytes)
    requires |mac| < 256
    ensures TakeAddress(AddressOctets(net, mac) + rest) == Some((net % 65536, mac, rest))
  {
    var b := AddressOctets(net, mac) + rest;
    assert b == Short(net) + ([|mac|] + mac + rest);
    ShortRoundTrip(net, [|mac|] + mac + rest);
    assert b[2] == |mac| && b[3..3 + |mac|] == mac && b[3 + |mac|..] == rest;
  }

  lemma TakesDestination(dadr: Option<Destination>, rest: Bytes)
    requires dadr.Some? && dadr.value.RemoteStation? ==> |dadr.value.mac| < 256
    ensures var t := TakeDestination(dadr.Some?, DestinationOctets(dadr) + rest);
      t.Some? && t.value.1 == rest && (t.value.0 == dadr <==> WellFormedDestination(dadr))
  {
    match dadr {
      case Some(RemoteStation(net, mac)) => TakesAddress(net, mac, rest);
      case Some(RemoteBroadcast(net)) => TakesAddress(net, [], rest);
      case Some(GlobalBroadcast) => TakesAddress(GLOBAL, [], rest);
      case None => assert DestinationOctets(dadr) + rest == rest;
    }
  }

  lemma TakesSource(sadr: Option<Station>, rest: Bytes)
    requires sadr.Some? ==> |sadr.value.mac| < 256
    ensures TakeSource(sadr.Some?, SourceOctets(sadr) + rest) == Some((sadr, rest)) <==> WellFormedSource(sadr)
  {
    if sadr.Some? {
      TakesAddress(sadr.value.net, sadr.value.mac, rest);
    } else {
      assert SourceOctets(sadr) + rest == rest;
    }
  }

  /** Either it is not read at all, or what is read is what comes next. */
  lemma TakesSourceRest(sadr: Option<Station>, rest: Bytes)
    requires sadr.Some? ==> |sadr.value.mac| < 256
    ensures var t := TakeSource(sadr.Some?, SourceOctets(sadr) + rest);
      t.Some? ==> t.value.1 == rest && (t.value.0 == sadr <==> WellFormedSource(sadr))
  {
    if sadr.Some? {
      TakesAddress(sadr.value.net, sadr.value.mac, rest);
    } else {
      assert SourceOctets(sadr) + rest == rest;
    }
  }

  lemma TakesMessage(h: Npci, rest: Bytes)
    ensures var t := TakeMessage(h.netMessage.Some?, MessageOctets(h) + rest);
      var vendorID := if h.netMessage.Some? && Proprietary(h.netMessage.value) then h.vendorID % 65536 else 0;
      t == Some((h.netMessage, vendorID, rest))
  {
    if h.netMessage.None? {
      assert MessageOctets(h) + rest == rest;
    } else if Proprietary(h.netMessage.value) {
      ShortRoundTrip(h.vendorID, rest);
      var b := MessageOctets(h) + rest;
      assert b[1..] == Short(h.vendorID) + rest && b[3..] == b[1..][2..];
    } else {
      assert (MessageOctets(h) + rest)[1..] == rest;
    }
  }

  lemma ControlBits(h: Npci)
    ensures HasBit(Control(h), 128) == h.netMessage.Some? && HasBit(Control(h), 32) == h.dadr.Some?
    ensures HasBit(Control(h), 8) == h.sadr.Some? && HasBit(Control(h), 4) == h.expectingReply
    ensures Control(h) % 4 == h.priority % 4
  {
  }

  predicate WellFormedTail(h: Npci) {
    && h.priority < 4
    && (h.dadr.None? ==> h.hopCount == 0)
    && h.vendorID < 65536 && (h.netMessage.None? || !Proprietary(h.netMessage.value) ==> h.vendorID == 0)
  }

  function TailOctets(h: Npci): Bytes {
    (if h.dadr.Some? then [h.hopCount] else []) + MessageOctets(h)
  }

  lemma TailTaken(h: Npci, payload: Bytes)
    ensures forall dadr, sadr :: var t := DecodeTail(Control(h), dadr, sadr, TailOctets(h) + payload);
      && t.Some? && t.value.1 == payload && t.value.0.dadr == dadr && t.value.0.sadr == sadr
      && (t.value.0 == h <==> dadr == h.dadr && sadr == h.sadr && WellFormedTail(h))
  {
    ControlBits(h);
    var b := TailOctets(h) + payload;
    if h.dadr.Some? {
      assert b[1..] == MessageOctets(h) + payload;
    } else {
      assert b == MessageOctets(h) + payload;
    }
    TakesMessage(h, payload);
  }

  lemma SourceTaken(h: Npci, payload: Bytes)
    requires Encodable(h)
    ensures forall dadr :: var t := DecodeSource(Control(h), dadr, SourceOctets(h.sadr) + (TailOctets(h) + payload));
      t == Some((h, payload)) <==> dadr == h.dadr && WellFormedSource(h.sadr) && WellFormedTail(h)
  {
    ControlBits(h);
    var rest := TailOctets(h) + payload;
    TakesSource(h.sadr, rest);
    TakesSourceRest(h.sadr, rest);
    TailTaken(h, payload);
  }

  lemma EncodedParts(h: Npci, payload: Bytes)
    requires Encodable(h)
    ensures var b := Encode(h) + payload;
      && 2 <= |b| && b[0] == 1 && b[1] == Control(h)
      && b[2..] == DestinationOctets(h.dadr) + (SourceOctets(h.sadr) + (TailOctets(h) + payload))
  {
    assert Encode(h) + payload
        == [1, Control(h)] + (DestinationOctets(h.dadr) + (SourceOctets(h.sadr) + (TailOctets(h) + payload)));
  }

  lemma DestinationTaken(h: Npci, payload: Bytes)
    requires Encodable(h)
    ensures var b := DestinationOctets(h.dadr) + (SourceOctets(h.sadr) + (TailOctets(h) + payload));
      DecodeDestination(Control(h), b) == Some((h, payload)) <==> WellFormed(h)
  {
    ControlBits(h);
    TakesDestination(h.dadr, SourceOctets(h.sadr) + (TailOctets(h) + payload));
    SourceTaken(h, payload);
  }

  /** Decoding an encoded header gives it back, and leaves exactly the payload, exactly when it
      is well formed. */
  lemma RoundTrip(h: Npci, payload: Bytes)
    requires Encodable(h)
    ensures Decode(Encode(h) + payload) == Some((h, payload)) <==> WellFormed(h)
  {
    EncodedParts(h, payload);
    DestinationTaken(h, payload);
  }

  // ----- the messages

  datatype RoutingTableEntry = RoutingTableEntry(dnet: nat, portID: byte, portInfo: Bytes)

  /** The network layer messages that have a class of their own. */
  datatype Message =
    | WhoIsRouterToNetwork(wanted: Option<nat>)
    | IAmRouterToNetwork(nets: seq<nat>)
    | ICouldBeRouterToNetwork(net: nat, performanceIndex: byte)
    | RejectMessageToNetwork(reason: byte, dnet: nat)
    | RouterBusyToNetwork(nets: seq<nat>)
    | RouterAvailableToNetwork(nets: seq<nat>)
    | InitializeRoutingTable(table: seq<RoutingTableEntry>)
    | InitializeRoutingTableAck(table: seq<RoutingTableEntry>)
    | EstablishConnectionToNetwork(dnet: nat, terminationTime: byte)
    | DisconnectConnectionToNetwork(dnet: nat)
    | WhatIsNetworkNumber
    | NetworkNumberIs(net: nat, flag: byte)

  function TypeOf(m: Message): byte {
    match m
    case WhoIsRouterToNetwork(_) => 0x00
    case IAmRouterToNetwork(_) => 0x01
    case ICouldBeRouterToNetwork(_, _) => 0x02
    case RejectMessageToNetwork(_, _) => 0x03
    case RouterBusyToNetwork(_) => 0x04
    case RouterAvailableToNetwork(_) => 0x05
    case InitializeRoutingTable(_) => 0x06
    case InitializeRoutingTableAck(_) => 0x07
    case EstablishConnectionToNetwork(_, _) => 0x08
    case DisconnectConnectionToNetwork(_) => 0x09
    case WhatIsNetworkNumber => 0x12
    case NetworkNumberIs(_, _) => 0x13
  }

  function Shorts(nets: seq<nat>): Bytes {
    if nets == [] then [] else Short(nets[0]) + Shorts(nets[1..])
  }

  predicate EncodableTable(table: seq<RoutingTableEntry>) {
    |table| < 256 && forall e :: e in table ==> |e.portInfo| < 256
  }

  function EntryOctets(e: RoutingTableEntry): Bytes
    requires |e.portInfo| < 256
  {
    Short(e.dnet) + [e.portID, |e.portInfo|] + e.portInfo
  }

  function EntriesOctets(table: seq<RoutingTableEntry>): Bytes
    requires forall e :: e in table ==> |e.portInfo| < 256
  {
    if table == [] then [] else EntryOctets(table[0]) + EntriesOctets(table[1..])
  }

  predicate EncodableMessage(m: Message) {
    m.InitializeRoutingTable? || m.InitializeRoutingTableAck? ==> EncodableTable(m.table)
  }

  function EncodeBody(m: Message): Bytes
    requires EncodableMessage(m)
  {
    match m
    case WhoIsRouterToNetwork(wanted) => if wanted.None? then [] else Short(wanted.value)
    case IAmRouterToNetwork(nets) => Shorts(nets)
    case ICouldBeRouterToNetwork(net, index) => Short(net) + [index]
    case RejectMessageToNetwork(reason, dnet) => [reason] + Short(dnet)
    case RouterBusyToNetwork(nets) => Shorts(nets)
    case RouterAvailableToNetwork(nets) => Shorts(nets)
    case InitializeRoutingTable(table) => [|table|] + EntriesOctets(table)
    case InitializeRoutingTableAck(table) => [|table|] + EntriesOctets(table)
    case EstablishConnectionToNetwork(dnet, time) => Short(dnet) + [time]
    case DisconnectConnectionToNetwork(dnet) => Short(dnet)
    case WhatIsNetworkNumber => []
    case NetworkNumberIs(net, flag) => Short(net) + [flag]
  }

  /** The networks that take up the rest of the buffer; an odd octet at the end is an error. */
  function TakeShorts(b: Bytes): Option<seq<nat>> {
    if b == [] then Some([])
    else if |b| < 2 then None
    else
      match TakeShorts(b[2..])
      case None => None
      case Some(nets) => Some([ShortAt(b)] + nets)
  }

  function TakeEntry(b: Bytes): Option<(RoutingTableEntry, Bytes)> {
    if |b| < 4 || |b| < 4 + b[3] as nat then None
    else Some((RoutingTableEntry(ShortAt(b), b[2], b[4..4 + b[3] as nat]), b[4 + b[3] as nat..]))
  }

  function TakeEntries(n: nat, b: Bytes): Option<(seq<RoutingTableEntry>, Bytes)> {
    if n == 0 then Some(([], b))
    else
      match TakeEntry(b)
      case None => None
      case Some((e, rest)) =>
        match TakeEntries(n - 1, rest)
        case None => None
        case Some((table, left)) => Some(([e] + table, left))
  }

  function TakeTable(b: Bytes): Option<(seq<RoutingTableEntry>, Bytes)> {
    if b == [] then None else TakeEntries(b[0] as nat, b[1..])
  }

  function TakeShortAndOctet(b: Bytes): Option<(nat, byte, Bytes)> {
    if |b| < 3 then None else Some((ShortAt(b), b[2], b[3..]))
  }

  /** The message of that type, and what is left. */
  function DecodeBody(kind: byte, b: Bytes): Option<(Message, Bytes)> {
    match kind
    case 0x00 =>
      if b == [] then Some((WhoIsRouterToNetwork(None), b))
      else if |b| < 2 then None else Some((WhoIsRouterToNetwork(Some(ShortAt(b))), b[2..]))
    case 0x01 => DecodeNets(kind, b)
    case 0x02 => DecodePair(kind, b)
    case 0x03 => if |b| < 3 then None else Some((RejectMessageToNetwork(b[0], ShortAt(b[1..])), b[3..]))
    case 0x04 => DecodeNets(kind, b)
    case 0x05 => DecodeNets(kind, b)
    case 0x06 => DecodeTable(kind, b)
    case 0x07 => DecodeTable(kind, b)
    case 0x08 => DecodePair(kind, b)
    case 0x09 => if |b| < 2 then None else Some((DisconnectConnectionToNetwork(ShortAt(b)), b[2..]))
    case 0x12 => Some((WhatIsNetworkNumber, b))
    case 0x13 => DecodePair(kind, b)
    case _ => None
  }

  function DecodeNets(kind: byte, b: Bytes): Option<(Message, Bytes)> {
    match TakeShorts(b)
    case None => None
    case Some(nets) =>
      Some((if kind == 0x01 then IAmRouterToNetwork(nets) else if kind == 0x04 then RouterBusyToNetwork(nets)
            else RouterAvailableToNetwork(nets), []))
  }

  function PairMessage(kind: byte, n: nat, x: byte): Message {
    if kind == 0x02 then ICouldBeRouterToNetwork(n, x) else if kind == 0x08 then EstablishConnectionToNetwork(n, x)
    else NetworkNumberIs(n, x)
  }

  function DecodePair(kind: byte, b: Bytes): Option<(Message, Bytes)> {
    match TakeShortAndOctet(b)
    case None => None
    case Some((n, x, rest)) => Some((PairMessage(kind, n, x), rest))
  }

  function DecodeTable(kind: byte, b: Bytes): Option<(Message, Bytes)> {
    match TakeTable(b)
    case None => None
    case Some((table, rest)) =>
      Some((if kind == 0x06 then InitializeRoutingTable(table) else InitializeRoutingTableAck(table), rest))
  }

  predicate AllShort(nets: seq<nat>) {
    forall n :: n in nets ==> n < 65536
  }

  predicate WellFormedMessage(m: Message) {
    match m
    case WhoIsRouterToNetwork(wanted) => wanted.Some? ==> wanted.value < 65536
    case IAmRouterToNetwork(nets) => AllShort(nets)
    case ICouldBeRouterToNetwork(net, _) => net < 65536
    case RejectMessageToNetwork(_, dnet) => dnet < 65536
    case RouterBusyToNetwork(nets) => AllShort(nets)
    case RouterAvailableToNetwork(nets) => AllShort(nets)
    case InitializeRoutingTable(table) => forall e :: e in table ==> e.dnet < 65536
    case InitializeRoutingTableAck(table) => forall e :: e in table ==> e.dnet < 65536
    case EstablishConnectionToNetwork(dnet, _) => dnet < 65536
    case DisconnectConnectionToNetwork(dnet) => dnet < 65536
    case WhatIsNetworkNumber => true
    case NetworkNumberIs(net, _) => net < 65536
  }

  lemma {:induction false} ShortsTaken(nets: seq<nat>)
    requires AllShort(nets)
    ensures TakeShorts(Shorts(nets)) == Some(nets)
    decreases |nets|
  {
    if nets != [] {
      assert nets[0] in nets;
      assert forall n :: n in nets[1..] ==> n in nets;
      ShortsTaken(nets[1..]);
      FirstShort(nets[0], Shorts(nets[1..]));
      assert nets == [nets[0]] + nets[1..];
    }
  }

  lemma FirstShort(n: nat, rest: Bytes)
    requires n < 65536
    ensures TakeShorts(Short(n) + rest) ==
      if TakeShorts(rest).None? then None else Some([n] + TakeShorts(rest).value)
  {
    ShortRoundTrip(n, rest);
  }

  lemma EntryTaken(e: RoutingTableEntry, rest: Bytes)
    requires |e.portInfo| < 256 && e.dnet < 65536
    ensures TakeEntry(EntryOctets(e) + rest) == Some((e, rest))
  {
    var b := EntryOctets(e) + rest;
    assert b == Short(e.dnet) + ([e.portID, |e.portInfo|] + e.portInfo + rest);
    ShortRoundTrip(e.dnet, [e.portID, |e.portInfo|] + e.portInfo + rest);
    assert b[2] == e.portID && b[3] == |e.portInfo|;
    assert b[4..4 + |e.portInfo|] == e.portInfo && b[4 + |e.portInfo|..] == rest;
  }

  lemma {:induction false} EntriesTaken(table: seq<RoutingTableEntry>, rest: Bytes)
    requires forall e :: e in table ==> |e.portInfo| < 256 && e.dnet < 65536
    ensures TakeEntries(|table|, EntriesOctets(table) + rest) == Some((table, rest))
    decreases |table|
  {
    if table == [] {
      assert EntriesOctets(table) + rest == rest;
    } else {
      assert table[0] in table;
      assert EntriesOctets(table) + rest == EntryOctets(table[0]) + (EntriesOctets(table[1..]) + rest);
      EntryTaken(table[0], EntriesOctets(table[1..]) + rest);
      EntriesTaken(table[1..], rest);
      assert table == [table[0]] + table[1..];
    }
  }

  lemma PairTaken(n: nat, x: byte, rest: Bytes)
    ensures TakeShortAndOctet(Short(n) + [x] + rest) == Some((n % 65536, x, rest))
  {
    assert Short(n) + [x] + rest == Short(n) + ([x] + rest);
    ShortRoundTrip(n, [x] + rest);
    assert (Short(n) + [x] + rest)[3..] == rest;
  }

  /** The messages without a list leave whatever follows them; those that end with a list of
      networks take all there is. */
  predicate TakesAll(m: Message) {
    m.IAmRouterToNetwork? || m.RouterBusyToNetwork? || m.RouterAvailableToNetwork? || m == WhoIsRouterToNetwork(None)
  }

  lemma NetsRoundTrip(m: Message)
    requires m.IAmRouterToNetwork? || m.RouterBusyToNetwork? || m.RouterAvailableToNetwork?
    requires WellFormedMessage(m)
    ensures DecodeNets(TypeOf(m), EncodeBody(m)) == Some((m, []))
  {
    ShortsTaken(m.nets);
  }

  lemma PairDecoded(kind: byte, n: nat, x: byte, rest: Bytes)
    requires n < 65536
    ensures DecodePair(kind, Short(n) + [x] + rest) == Some((PairMessage(kind, n, x), rest))
  {
    PairTaken(n, x, rest);
  }

  lemma PairRoundTrip(m: Message, rest: Bytes)
    requires m.ICouldBeRouterToNetwork? || m.EstablishConnectionToNetwork? || m.NetworkNumberIs?
    requires WellFormedMessage(m)
    ensures DecodePair(TypeOf(m), EncodeBody(m) + rest) == Some((m, rest))
  {
    match m {
      case ICouldBeRouterToNetwork(net, index) => PairDecoded(TypeOf(m), net, index, rest);
      case EstablishConnectionToNetwork(dnet, time) => PairDecoded(TypeOf(m), dnet, time, rest);
      case NetworkNumberIs(net, flag) => PairDecoded(TypeOf(m), net, flag, rest);
    }
  }

  lemma TableTaken(table: seq<RoutingTableEntry>, rest: Bytes)
    requires EncodableTable(table) && forall e :: e in table ==> e.dnet < 65536
    ensures TakeTable([|table|] + EntriesOctets(table) + rest) == Some((table, rest))
  {
    EntriesTaken(table, rest);
    CountedTable(|table|, EntriesOctets(table), rest);
  }

  lemma CountedTable(n: byte, entries: Bytes, rest: Bytes)
    ensures TakeTable([n] + entries + rest) == TakeEntries(n, entries + rest)
  {
    assert ([n] + entries + rest)[1..] == entries + rest;
  }

  lemma TableRoundTrip(m: Message, rest: Bytes)
    requires m.InitializeRoutingTable? || m.InitializeRoutingTableAck?
    requires EncodableMessage(m) && WellFormedMessage(m)
    ensures DecodeTable(TypeOf(m), EncodeBody(m) + rest) == Some((m, rest))
  {
    TableTaken(m.table, rest);
  }

  lemma RejectRoundTrip(m: Message, rest: Bytes)
    requires m.RejectMessageToNetwork? && WellFormedMessage(m)
    ensures DecodeBody(TypeOf(m), EncodeBody(m) + rest) == Some((m, rest))
  {
    ShortRoundTrip(m.dnet, rest);
    var b := EncodeBody(m) + rest;
    assert b[1..] == Short(m.dnet) + rest && b[3..] == rest;
  }

  /** Decoding the body of any message whose networks are network numbers gives the message
      back, lists of any length included, and leaves exactly what followed. */
  lemma BodyRoundTrip(m: Message, rest: Bytes)
    requires EncodableMessage(m) && WellFormedMessage(m) && (TakesAll(m) ==> rest == [])
    ensures DecodeBody(TypeOf(m), EncodeBody(m) + rest) == Some((m, rest))
  {
    match m {
      case WhoIsRouterToNetwork(wanted) => if wanted.Some? { ShortRoundTrip(wanted.value, rest); }
      case DisconnectConnectionToNetwork(dnet) => ShortRoundTrip(dnet, rest);
      case WhatIsNetworkNumber => assert [] + rest == rest;
      case RejectMessageToNetwork(_, _) => RejectRoundTrip(m, rest);
      case _ => ListedRoundTrip(m, rest);
    }
  }

  lemma ListedRoundTrip(m: Message, rest: Bytes)
    requires EncodableMessage(m) && WellFormedMessage(m) && (TakesAll(m) ==> rest == [])
    requires !m.WhoIsRouterToNetwork? && !m.DisconnectConnectionToNetwork? && !m.WhatIsNetworkNumber?
    requires !m.RejectMessageToNetwork?
    ensures DecodeBody(TypeOf(m), EncodeBody(m) + rest) == Some((m, rest))
  {
    if m.InitializeRoutingTable? || m.InitializeRoutingTableAck? {
      TableRoundTrip(m, rest);
    } else if TakesAll(m) {
      assert EncodeBody(m) + [] == EncodeBody(m);
      NetsRoundTrip(m);
    } else {
      PairRoundTrip(m, rest);
    }
  }

  /** A whole network layer message: header and body, there and back. */
  lemma MessageRoundTrip(h: Npci, m: Message)
    requires Encodable(h) && WellFormed(h) && h.netMessage == Some(TypeOf(m)) && EncodableMessage(m)
    requires WellFormedMessage(m)
    ensures var d := Decode(Encode(h) + EncodeBody(m));
      d == Some((h, EncodeBody(m))) && DecodeBody(d.value.0.netMessage.value, d.value.1) == Some((m, []))
  {
    RoundTrip(h, EncodeBody(m));
    BodyRoundTrip(m, []);
    assert EncodeBody(m) + [] == EncodeBody(m);
  }

  // ----- the same over a buffer

  method PutAddress(pdu: PDUData, net: nat, mac: Bytes)
    requires |mac| < 256
    modifies pdu
    ensures pdu.pduData == old(pdu.pduData) + AddressOctets(net, mac)
  {
    pdu.PutShort(net);
    pdu.Put(|mac|);
    pdu.PutData(mac);
  }

  method PutDestination(pdu: PDUData, dadr: Option<Destination>)
    requires dadr.Some? && dadr.value.RemoteStation? ==> |dadr.value.mac| < 256
    modifies pdu
    ensures pdu.pduData == old(pdu.pduData) + DestinationOctets(dadr)
  {
    match dadr {
      case Some(RemoteStation(net, mac)) => PutAddress(pdu, net, mac);
      case Some(RemoteBroadcast(net)) => PutAddress(pdu, net, []);
      case Some(GlobalBroadcast) => PutAddress(pdu, GLOBAL, []);
      case None =>
    }
  }

  /** NPCI.encode */
  method EncodeNpci(h: Npci) returns (pdu: PDUData)
    requires Encodable(h)
    ensures fresh(pdu) && pdu.pduData == Encode(h)
  {
    pdu := new PDUData([]);
    pdu.Put(1);
    pdu.Put(Control(h));
    PutDestination(pdu, h.dadr);
    PutSource(pdu, h.sadr);
    PutTail(pdu, h);
  }

  method PutSource(pdu: PDUData, sadr: Option<Station>)
    requires sadr.Some? ==> |sadr.value.mac| < 256
    modifies pdu
    ensures pdu.pduData == old(pdu.pduData) + SourceOctets(sadr)
  {
    if sadr.Some? { PutAddress(pdu, sadr.value.net, sadr.value.mac); }
  }

  method PutTail(pdu: PDUData, h: Npci)
    modifies pdu
    ensures pdu.pduData == old(pdu.pduData) + (if h.dadr.Some? then [h.hopCount] else []) + MessageOctets(h)
  {
    if h.dadr.Some? { pdu.Put(h.hopCount); }
    if h.netMessage.Some? { PutMessageType(pdu, h); }
  }

  method PutMessageType(pdu: PDUData, h: Npci)
    requires h.netMessage.Some?
    modifies pdu
    ensures pdu.pduData == old(pdu.pduData) + MessageOctets(h)
  {
    pdu.Put(h.netMessage.value);
    if Proprietary(h.netMessage.value) { pdu.PutShort(h.vendorID); }
  }

  lemma Slices(b: Bytes, i: nat, n: nat)
    requires i + n <= |b|
    ensures b[i..][..n] == b[i..i + n] && b[i..][n..] == b[i + n..]
  {
  }

  method GetAddress(pdu: PDUData) returns (r: Option<(nat, Bytes)>)
    modifies pdu
    ensures r.Some? <==> TakeAddress(old(pdu.pduData)).Some?
    ensures r.Some? ==> TakeAddress(old(pdu.pduData)) == Some((r.value.0, r.value.1, pdu.pduData))
  {
    var net := pdu.GetShort();
    if net.None? {
      return None;
    }
    var len := pdu.Get();
    if len.None? {
      return None;
    }
    Slices(old(pdu.pduData), 2, 1);
    if len.value as nat <= |pdu.pduData| { Slices(old(pdu.pduData), 3, len.value); }
    var mac := pdu.GetData(len.value);
    r := if mac.None? then None else Some((net.value, mac.value));
  }

  /** NPCI.decode; None stands for a decoding error. */
  method DecodeNpci(pdu: PDUData) returns (r: Option<Npci>)
    modifies pdu
    ensures r.Some? <==> Decode(old(pdu.pduData)).Some?
    ensures r.Some? ==> Decode(old(pdu.pduData)) == Some((r.value, pdu.pduData))
  {
    if |pdu.pduData| < 2 {
      return None;
    }
    var version := pdu.Get();
    if version.value != 1 {
      return None;
    }
    var control := pdu.Get();
    r := GetAfterControl(control.value, pdu);
  }

  method GetAfterControl(control: byte, pdu: PDUData) returns (r: Option<Npci>)
    modifies pdu
    ensures r.Some? <==> DecodeDestination(control, old(pdu.pduData)).Some?
    ensures r.Some? ==> DecodeDestination(control, old(pdu.pduData)) == Some((r.value, pdu.pduData))
  {
    var dadr: Option<Destination> := None;
    if HasBit(control, 32) {
      var to := GetAddress(pdu);
      if to.None? {
        return None;
      }
      dadr := Some(if to.value.0 == GLOBAL then GlobalBroadcast else if to.value.1
          == [] then RemoteBroadcast(to.value.0)
                   else RemoteStation(to.value.0, to.value.1));
    }
    r := GetAfterDestination(control, dadr, pdu);
  }

  method GetAfterDestination(control: byte, dadr: Option<Destination>, pdu: PDUData) returns (r: Option<Npci>)
    modifies pdu
    ensures r.Some? <==> DecodeSource(control, dadr, old(pdu.pduData)).Some?
    ensures r.Some? ==> DecodeSource(control, dadr, old(pdu.pduData)) == Some((r.value, pdu.pduData))
  {
    var sadr: Option<Station> := None;
    if HasBit(control, 8) {
      var from := GetAddress(pdu);
      if from.None? || from.value.0 == GLOBAL || from.value.1 == [] {
        return None;
      }
      sadr := Some(Station(from.value.0, from.value.1));
    }
    r := GetTail(control, dadr, sadr, pdu);
  }

  method GetTail(control: byte, dadr: Option<Destination>, sadr: Option<Station>,
                 pdu: PDUData) returns (r: Option<Npci>)
    modifies pdu
    ensures r.Some? <==> DecodeTail(control, dadr, sadr, old(pdu.pduData)).Some?
    ensures r.Some? ==> DecodeTail(control, dadr, sadr, old(pdu.pduData)) == Some((r.value, pdu.pduData))
  {
    var hops: byte, message: Option<byte>, vendor: nat := 0, None, 0;
    if HasBit(control, 32) {
      var octet := pdu.Get();
      if octet.None? {
        return None;
      }
      hops := octet.value;
    }
    if HasBit(control, 128) {
      message := pdu.Get();
      if message.None? {
        return None;
      }
      if Proprietary(message.value) {
        var number := pdu.GetShort();
        if number.None? {
          return None;
        }
        vendor := number.value;
      }
    }
    r := Some(Npci(HasBit(control, 4), control % 4, dadr, sadr, hops, message, vendor));
  }

  /** The loops of the messages that carry a list of networks. */
  method PutShorts(pdu: PDUData, nets: seq<nat>)
    modifies pdu
    ensures pdu.pduData == old(pdu.pduData) + Shorts(nets)
  {
    ghost var start := pdu.pduData;
    var i := 0;
    while i < |nets|
      invariant 0 <= i <= |nets|
      invariant pdu.pduData + Shorts(nets[i..]) == start + Shorts(nets)
    {
      assert nets[i..][0] == nets[i] && nets[i..][1..] == nets[i + 1..];
      ghost var sofar := pdu.pduData;
      pdu.PutShort(nets[i]);
      assert sofar + (Short(nets[i]) + Shorts(nets[i + 1..])) == sofar + Short(nets[i]) + Shorts(nets[i + 1..]);
      i := i + 1;
    }
    assert pdu.pduData + [] == pdu.pduData;
  }

  method GetShorts(pdu: PDUData) returns (r: Option<seq<nat>>)
    modifies pdu
    ensures r == TakeShorts(old(pdu.pduData))
    ensures r.Some? ==> pdu.pduData == []
  {
    ghost var whole := TakeShorts(pdu.pduData);
    var nets: seq<nat> := [];
    assert whole.Some? ==> [] + whole.value == whole.value;
    while pdu.pduData != []
      invariant whole == After(nets, TakeShorts(pdu.pduData))
      decreases |pdu.pduData|
    {
      AfterOne(nets, pdu.pduData);
      var net := pdu.GetShort();
      if net.None? {
        return None;
      }
      nets := nets + [net.value];
    }
    assert nets + [] == nets;
    r := Some(nets);
  }

  function After<T>(taken: seq<T>, rest: Option<seq<T>>): Option<seq<T>> {
    if rest.None? then None else Some(taken + rest.value)
  }

  lemma AfterOne(nets: seq<nat>, b: Bytes)
    requires b != []
    ensures After(nets, TakeShorts(b)) == if |b| < 2 then None else After(nets + [ShortAt(b)], TakeShorts(b[2..]))
  {
    if 2 <= |b| && TakeShorts(b[2..]).Some? {
      var more := TakeShorts(b[2..]).value;
      assert nets + ([ShortAt(b)] + more) == nets + [ShortAt(b)] + more;
    }
  }

  /** The loops of the routing table messages. */
  method PutTable(pdu: PDUData, table: seq<RoutingTableEntry>)
    requires EncodableTable(table)
    modifies pdu
    ensures pdu.pduData == old(pdu.pduData) + [|table|] + EntriesOctets(table)
  {
    pdu.Put(|table|);
    ghost var start := pdu.pduData;
    var i := 0;
    while i < |table|
      invariant 0 <= i <= |table|
      invariant pdu.pduData + EntriesOctets(table[i..]) == start + EntriesOctets(table)
    {
      assert table[i..][0] == table[i] && table[i..][1..] == table[i + 1..];
      ghost var sofar := pdu.pduData;
      PutEntry(pdu, table[i]);
      assert sofar + (EntryOctets(table[i]) + EntriesOctets(table[i + 1..]))
          == sofar + EntryOctets(table[i]) + EntriesOctets(table[i + 1..]);
      i := i + 1;
    }
    assert pdu.pduData + [] == pdu.pduData;
  }

  method PutEntry(pdu: PDUData, e: RoutingTableEntry)
    requires |e.portInfo| < 256
    modifies pdu
    ensures pdu.pduData == old(pdu.pduData) + EntryOctets(e)
  {
    pdu.PutShort(e.dnet);
    pdu.Put(e.portID);
    pdu.Put(|e.portInfo|);
    pdu.PutData(e.portInfo);
  }

  method GetEntry(pdu: PDUData) returns (r: Option<RoutingTableEntry>)
    modifies pdu
    ensures r.Some? <==> TakeEntry(old(pdu.pduData)).Some?
    ensures r.Some? ==> TakeEntry(old(pdu.pduData)) == Some((r.value, pdu.pduData))
  {
    var dnet := pdu.GetShort();
    if dnet.None? {
      return None;
    }
    var port := pdu.Get();
    var len := pdu.Get();
    if port.None? || len.None? {
      return None;
    }
    Slices(old(pdu.pduData), 2, 1);
    Slices(old(pdu.pduData), 3, 1);
    if len.value as nat <= |pdu.pduData| { Slices(old(pdu.pduData), 4, len.value); }
    var info := pdu.GetData(len.value);
    r := if info.None? then None else Some(RoutingTableEntry(dnet.value, port.value, info.value));
  }

  method GetTable(pdu: PDUData) returns (r: Option<seq<RoutingTableEntry>>)
    modifies pdu
    ensures r.Some? <==> TakeTable(old(pdu.pduData)).Some?
    ensures r.Some? ==> TakeTable(old(pdu.pduData)) == Some((r.value, pdu.pduData))
  {
    var count := pdu.Get();
    if count.None? {
      return None;
    }
    ghost var whole := TakeEntries(count.value, pdu.pduData);
    var table: seq<RoutingTableEntry> := [];
    var i := 0;
    assert whole.Some? ==> [] + whole.value.0 == whole.value.0;
    while i < count.value
      invariant 0 <= i <= count.value
      invariant whole == AfterEntries(table, TakeEntries(count.value - i, pdu.pduData))
    {
      AfterEntry(table, count.value - i, pdu.pduData);
      var entry := GetEntry(pdu);
      if entry.None? {
        return None;
      }
      table := table + [entry.value];
      i := i + 1;
    }
    assert table + [] == table;
    r := Some(table);
  }

  function AfterEntries(taken: seq<RoutingTableEntry>, rest: Option<(seq<RoutingTableEntry>, Bytes)>):
    Option<(seq<RoutingTableEntry>, Bytes)>
  {
    if rest.None? then None else Some((taken + rest.value.0, rest.value.1))
  }

  lemma AfterEntry(table: seq<RoutingTableEntry>, n: nat, b: Bytes)
    requires 0 < n
    ensures AfterEntries(table, TakeEntries(n, b)) ==
      if TakeEntry(b).None? then None
      else AfterEntries(table + [TakeEntry(b).value.0], TakeEntries(n - 1, TakeEntry(b).value.1))
  {
    if TakeEntry(b).Some? {
      var more := TakeEntries(n - 1, TakeEntry(b).value.1);
      if more.Some? {
        assert table + ([TakeEntry(b).value.0] + more.value.0) == table + [TakeEntry(b).value.0] + more.value.0;
      }
    }
  }

  /** encode of each message class, after the header. */
  method PutBody(pdu: PDUData, m: Message)
    requires EncodableMessage(m)
    modifies pdu
    ensures pdu.pduData == old(pdu.pduData) + EncodeBody(m)
  {
    match m {
      case WhoIsRouterToNetwork(wanted) => if wanted.Some? { pdu.PutShort(wanted.value); }
      case IAmRouterToNetwork(nets) => PutShorts(pdu, nets);
      case RouterBusyToNetwork(nets) => PutShorts(pdu, nets);
      case RouterAvailableToNetwork(nets) => PutShorts(pdu, nets);
      case InitializeRoutingTable(table) => PutTable(pdu, table);
      case InitializeRoutingTableAck(table) => PutTable(pdu, table);
      case RejectMessageToNetwork(reason, dnet) =>
        pdu.Put(reason);
        pdu.PutShort(dnet);
      case ICouldBeRouterToNetwork(net, index) => PutPair(pdu, net, index);
      case EstablishConnectionToNetwork(dnet, time) => PutPair(pdu, dnet, time);
      case NetworkNumberIs(net, flag) => PutPair(pdu, net, flag);
      case DisconnectConnectionToNetwork(dnet) => pdu.PutShort(dnet);
      case WhatIsNetworkNumber =>
    }
  }

  method PutPair(pdu: PDUData, n: nat, x: byte)
    modifies pdu
    ensures pdu.pduData == old(pdu.pduData) + (Short(n) + [x])
  {
    pdu.PutShort(n);
    pdu.Put(x);
  }

  /** decode of each message class. */
  method GetBody(kind: byte, pdu: PDUData) returns (r: Option<Message>)
    modifies pdu
    ensures r.Some? <==> DecodeBody(kind, old(pdu.pduData)).Some?
    ensures r.Some? ==> DecodeBody(kind, old(pdu.pduData)) == Some((r.value, pdu.pduData))
  {
    r := None;
    match kind {
      case 0x00 => r := GetWanted(pdu);
      case 0x01 => r := GetNets(kind, pdu);
      case 0x02 => r := GetPair(kind, pdu);
      case 0x03 => r := GetReject(pdu);
      case 0x04 => r := GetNets(kind, pdu);
      case 0x05 => r := GetNets(kind, pdu);
      case 0x06 => r := GetTableMessage(kind, pdu);
      case 0x07 => r := GetTableMessage(kind, pdu);
      case 0x08 => r := GetPair(kind, pdu);
      case 0x09 =>
        var dnet := pdu.GetShort();
        if dnet.Some? { r := Some(DisconnectConnectionToNetwork(dnet.value)); }
      case 0x12 => r := Some(WhatIsNetworkNumber);
      case 0x13 => r := GetPair(kind, pdu);
      case _ =>
    }
  }

  method GetWanted(pdu: PDUData) returns (r: Option<Message>)
    modifies pdu
    ensures r.Some? <==> DecodeBody(0x00, old(pdu.pduData)).Some?
    ensures r.Some? ==> DecodeBody(0x00, old(pdu.pduData)) == Some((r.value, pdu.pduData))
  {
    if pdu.pduData == [] {
      return Some(WhoIsRouterToNetwork(None));
    }
    var net := pdu.GetShort();
    r := if net.None? then None else Some(WhoIsRouterToNetwork(net));
  }

  method GetReject(pdu: PDUData) returns (r: Option<Message>)
    modifies pdu
    ensures r.Some? <==> DecodeBody(0x03, old(pdu.pduData)).Some?
    ensures r.Some? ==> DecodeBody(0x03, old(pdu.pduData)) == Some((r.value, pdu.pduData))
  {
    var reason := pdu.Get();
    if reason.None? {
      return None;
    }
    var dnet := pdu.GetShort();
    r := if dnet.None? then None else Some(RejectMessageToNetwork(reason.value, dnet.value));
  }

  method GetPair(kind: byte, pdu: PDUData) returns (r: Option<Message>)
    modifies pdu
    ensures r.Some? <==> DecodePair(kind, old(pdu.pduData)).Some?
    ensures r.Some? ==> DecodePair(kind, old(pdu.pduData)) == Some((r.value, pdu.pduData))
  {
    var n := pdu.GetShort();
    if n.None? {
      return None;
    }
    var x := pdu.Get();
    if x.None? {
      return None;
    }
    Slices(old(pdu.pduData), 2, 1);
    r := Some(PairMessage(kind, n.value, x.value));
  }

  method GetNets(kind: byte, pdu: PDUData) returns (r: Option<Message>)
    modifies pdu
    ensures r.Some? <==> DecodeNets(kind, old(pdu.pduData)).Some?
    ensures r.Some? ==> DecodeNets(kind, old(pdu.pduData)) == Some((r.value, pdu.pduData))
  {
    var nets := GetShorts(pdu);
    if nets.None? {
      return None;
    }
    r := Some(if kind == 0x01 then IAmRouterToNetwork(nets.value) else if kind
        == 0x04 then RouterBusyToNetwork(nets.value)
              else RouterAvailableToNetwork(nets.value));
  }

  method GetTableMessage(kind: byte, pdu: PDUData) returns (r: Option<Message>)
    modifies pdu
    ensures r.Some? <==> DecodeTable(kind, old(pdu.pduData)).Some?
    ensures r.Some? ==> DecodeTable(kind, old(pdu.pduData)) == Some((r.value, pdu.pduData))
  {
    var table := GetTable(pdu);
    if table.None? {
      return None;
    }
    r := Some(if kind == 0x06 then InitializeRoutingTable(table.value) else InitializeRoutingTableAck(table.value));
  }
}
