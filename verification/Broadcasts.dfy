/** Messages for more than one node: what a node does with a broadcast, and who is handed one that
    an application sends. */
module Broadcasts {
  import opened Apdus
  import opened RouterCache
  import opened Routing
  import opened Forwarding
  import opened Journeys
  import opened Conversations

  // ----- one node

  /** The message claims to come from a network that the node is on itself. */
  predicate Spoofed(n: Node, d: Delivery) {
    d.npdu.sadr.Some? && Attached(n.adapters, d.npdu.sadr.value.net)
  }

  /** The copy of a global broadcast that leaves on an adapter. */
  function GlobalCopy(d: Delivery, a: Adapter): Sent
    requires 0 < d.npdu.hopCount
  {
    Sent(a.net, Npdu(a.mac, Some(LocalBroadcast), Some(GlobalBroadcast), Some(Originator(d)), d.npdu.hopCount - 1,
                     d.npdu.netMessage, d.npdu.data))
  }

  lemma {:induction false} PutAllMembers(adapters: seq<Adapter>, but: Adapter, npdu: Npdu)
    ensures forall a :: a in adapters && a != but ==> Put(a, npdu, LocalBroadcast) in PutAll(adapters, but, npdu)
    decreases |adapters|
  {
    if adapters != [] {
      PutAllMembers(adapters[1..], but, npdu);
      forall a | a in adapters && a != but ensures Put(a, npdu, LocalBroadcast) in PutAll(adapters, but, npdu) {
        if a != adapters[0] { assert a in adapters[1..]; }
      }
    }
  }

  predicate DistinctAdapters(adapters: seq<Adapter>) {
    forall i, j :: 0 <= i < j < |adapters| ==> adapters[i].net != adapters[j].net
  }

  predicate DistinctSent(sent: seq<Sent>) {
    forall i, j :: 0 <= i < j < |sent| ==> sent[i].net != sent[j].net
  }

  lemma {:induction false} PutAllCount(adapters: seq<Adapter>, but: Adapter, npdu: Npdu)
    requires DistinctAdapters(adapters)
    ensures |PutAll(adapters, but, npdu)| == |adapters| - (if but in adapters then 1 else 0)
    ensures DistinctSent(PutAll(adapters, but, npdu))
    decreases |adapters|
  {
    if adapters != [] {
      var rest := PutAll(adapters[1..], but, npdu);
      PutAllCount(adapters[1..], but, npdu);
      assert DistinctAdapters(adapters[1..]);
      assert but in adapters <==> but == adapters[0] || but in adapters[1..];
      if but in adapters[1..] { assert but != adapters[0]; }
      forall s | s in rest ensures s.net != adapters[0].net {
        var a :| a in adapters[1..] && a != but && s == Put(a, npdu, LocalBroadcast);
      }
    }
  }

  /** A network layer message of a type that has no class. */
  predicate Unknown(d: Delivery) {
    d.npdu.netMessage.Some? && !(d.npdu.netMessage.value in {0, 1, 2, 3, 4, 5, 6, 7, 8, 9, 18, 19})
  }

  /** On every adapter but the one it came in on a router sends one copy of a global broadcast, as
      long as it has hops; the copy has one hop less and the originator's network and address. */
  lemma GlobalGoesOn(n: Node, d: Delivery)
    requires ValidNode(n) && d.arrival in n.adapters && d.npdu.dadr == Some(GlobalBroadcast)
    requires !Spoofed(n, d) && !Unknown(d)
    ensures var sent := Process(n, d.arrival, d.npdu).sent;
      && |sent| == (if 0 < d.npdu.hopCount then |n.adapters| - 1 else 0) && DistinctSent(sent)
      && (0 < d.npdu.hopCount ==>
        && (forall a :: a in n.adapters && a != d.arrival ==> GlobalCopy(d, a) in sent)
        && (forall s :: s in sent ==> exists a :: a in n.adapters && a != d.arrival && s == GlobalCopy(d, a)))
  {
    var now := n.(paths := Learn(n, d.arrival, d.npdu).value);
    var sent := Process(n, d.arrival, d.npdu).sent;
    assert sent == Forward(now, d.arrival, d.npdu).sent;
    if 0 < d.npdu.hopCount {
      var next := Onward(d.arrival, d.npdu);
      forall a ensures Put(a, next, LocalBroadcast) == GlobalCopy(d, a) {}
      PutAllMembers(n.adapters, d.arrival, next);
      PutAllCount(n.adapters, d.arrival, next);
      if 1 < |n.adapters| {
        assert sent == PutAll(n.adapters, d.arrival, next);
      } else {
        assert n.adapters == [d.arrival];
      }
    }
  }

  /** Whether a message that is no network layer message is handed up. */
  predicate ForNode(n: Node, d: Delivery)
    requires ValidNode(n)
  {
    var local := n.adapters[n.local];
    !Spoofed(n, d) &&
    match d.npdu.dadr
    case None => d.arrival == local
    case Some(GlobalBroadcast) => true
    case Some(RemoteBroadcast(net)) => net == local.net != d.arrival.net
    case Some(RemoteStation(net, mac)) => net == local.net != d.arrival.net && mac == local.mac
    case Some(_) => false
  }

  /** What is handed up: where the message is from, whom it was for, and its data. It is from a
      station here if it came in on the local adapter without a source network. */
  function Handing(n: Node, d: Delivery): Pdu
    requires ValidNode(n)
  {
    var local, from := n.adapters[n.local], Originator(d);
    Pdu(if d.arrival == local && d.npdu.sadr.None? then LocalStation(from.mac) else RemoteStation(from.net, from.mac),
        match d.npdu.dadr
        case None => d.npdu.destination
        case Some(GlobalBroadcast) => Some(GlobalBroadcast)
        case Some(RemoteBroadcast(_)) => Some(LocalBroadcast)
        case Some(_) => Some(LocalStation(local.mac)),
        d.npdu.data)
  }

  /** An application is handed exactly what is for it, as it looks from there. */
  lemma HandedUpExactly(n: Node, d: Delivery)
    requires ValidNode(n) && d.arrival in n.adapters
    ensures Process(n, d.arrival, d.npdu).up
         == if d.npdu.netMessage.None? && n.server && ForNode(n, d) then Some(Handing(n, d)) else None
  {
    assert |n.adapters| == 1 ==> d.arrival == n.adapters[n.local];
  }

  /** The service element gets a network layer message of a known type that is for the node, or for
      none in particular, and nothing else. */
  lemma ServiceExactly(n: Node, d: Delivery)
    requires ValidNode(n) && d.arrival in n.adapters
    ensures Process(n, d.arrival, d.npdu).service
       <==> d.npdu.netMessage.Some? && !Unknown(d)
            && (if d.npdu.dadr.None? then !Spoofed(n, d) else ForNode(n, d))
  {
  }

  /** A message of an unknown type for the node goes no further, either. */
  lemma UnknownStops(n: Node, d: Delivery)
    requires ValidNode(n) && d.arrival in n.adapters && Unknown(d) && (d.npdu.dadr.None? || ForNode(n, d))
    ensures var h := Process(n, d.arrival, d.npdu); h.up == None && !h.service && h.sent == [] && !h.search
  {
  }

  /** The node knows no way to the network. */
  ghost predicate NoWay(adapters: seq<Adapter>, paths: Paths, net: nat) {
    forall a :: a in adapters ==> a.net != net && (Some(a.net), net) !in paths
  }

  /** A message for another network is to be sent on. */
  predicate IsPassedOn(n: Node, d: Delivery)
    requires ValidNode(n)
  {
    && !Spoofed(n, d) && d.npdu.dadr.Some? && (d.npdu.dadr.value.RemoteStation? || d.npdu.dadr.value.RemoteBroadcast?)
    && d.npdu.dadr.value.net != d.arrival.net && !(ForNode(n, d) && (d.npdu.dadr.value.RemoteStation? || Unknown(d)))
    && 1 < |n.adapters| && 0 < d.npdu.hopCount
  }

  /** A router looks for a router exactly when it is to send on a message for a network to which it
      knows no way, with what it has just learned. */
  lemma SearchesExactly(n: Node, d: Delivery)
    requires ValidNode(n) && d.arrival in n.adapters
    ensures var h := Process(n, d.arrival, d.npdu);
      h.search <==> IsPassedOn(n, d) && NoWay(n.adapters, h.paths, d.npdu.dadr.value.net)
  {
  }

  /** A message without a destination network goes no further. */
  lemma LocalStays(n: Node, d: Delivery)
    requires ValidNode(n) && d.arrival in n.adapters && d.npdu.dadr.None?
    ensures Process(n, d.arrival, d.npdu).sent == []
  {
  }

  // ----- who hears what is sent

  /** No node is in two of the deliveries. */
  predicate NoTwo(ds: seq<Delivery>) {
    forall i, j :: 0 <= i < j < |ds| ==> ds[i].node != ds[j].node
  }

  predicate At(ds: seq<Delivery>, id: nat) {
    exists d :: d in ds && d.node == id
  }

  lemma NoTwoJoin(a: seq<Delivery>, b: seq<Delivery>)
    requires NoTwo(a) && NoTwo(b) && forall d, e :: d in a && e in b ==> d.node != e.node
    ensures NoTwo(a + b)
  {
  }

  lemma {:induction false} AtNodeExactly(id: nat, adapters: seq<Adapter>, s: Sent)
    requires DistinctAdapters(adapters)
    ensures forall d :: d in AtNode(id, adapters, s)
                   <==> d.node == id && d.arrival in adapters && Hears(d.arrival, s) && d.npdu == s.npdu
    ensures NoTwo(AtNode(id, adapters, s))
    decreases |adapters|
  {
    if adapters != [] {
      var rest := AtNode(id, adapters[1..], s);
      AtNodeExactly(id, adapters[1..], s);
      if Hears(adapters[0], s) { NoneAtNode(id, adapters[1..], s); }
      forall a ensures a in adapters <==> a == adapters[0] || a in adapters[1..] {}
    }
  }

  lemma {:induction false} CarryExactly(w: World, k: nat, s: Sent)
    requires ValidWorld(w) && k <= |w|
    ensures forall d :: d in Carry(w, k, s) <==>
      k <= d.node < |w| && d.arrival in w[d.node].adapters && Hears(d.arrival, s) && d.npdu == s.npdu
    ensures NoTwo(Carry(w, k, s))
    decreases |w| - k
  {
    if k < |w| {
      assert w[k] in w;
      AtNodeExactly(k, w[k].adapters, s);
      CarryExactly(w, k + 1, s);
      NoTwoJoin(AtNode(k, w[k].adapters, s), Carry(w, k + 1, s));
    }
  }

  /** The delivery is what the adapter makes of one of the messages. */
  predicate Carried(w: World, sent: seq<Sent>, d: Delivery) {
    ValidDelivery(w, d) && exists s :: s in sent && Hears(d.arrival, s) && d.npdu == s.npdu
  }

  /** No node hears two of them. */
  predicate HeardOnce(w: World, sent: seq<Sent>) {
    forall i, j, id, a, b :: 0 <= i < j < |sent| && 0 <= id < |w| && a in w[id].adapters && b in w[id].adapters ==>
      !(Hears(a, sent[i]) && Hears(b, sent[j]))
  }

  lemma {:induction false} CarryAllExactly(w: World, sent: seq<Sent>)
    requires ValidWorld(w)
    ensures forall d :: d in CarryAll(w, sent) <==> Carried(w, sent, d)
    decreases |sent|
  {
    if sent != [] {
      CarryExactly(w, 0, sent[0]);
      CarryAllExactly(w, sent[1..]);
      forall d ensures d in CarryAll(w, sent) <==> Carried(w, sent, d) {
        assert d in CarryAll(w, sent) <==> d in Carry(w, 0, sent[0]) || d in CarryAll(w, sent[1..]);
        assert forall s :: s in sent <==> s == sent[0] || s in sent[1..];
      }
    }
  }

  lemma HeardOnceLater(w: World, sent: seq<Sent>)
    requires ValidWorld(w) && HeardOnce(w, sent) && sent != []
    ensures HeardOnce(w, sent[1..])
  {
    var rest := sent[1..];
    forall i, j, id, a, b | 0 <= i < j < |rest| && 0 <= id < |w| && a in w[id].adapters && b in w[id].adapters
      ensures !(Hears(a, rest[i]) && Hears(b, rest[j]))
    {
      assert rest[i] == sent[i + 1] && rest[j] == sent[j + 1];
    }
  }

  lemma FirstApart(w: World, sent: seq<Sent>, d: Delivery, e: Delivery)
    requires ValidWorld(w) && HeardOnce(w, sent) && sent != []
    requires ValidDelivery(w, d) && Hears(d.arrival, sent[0]) && Carried(w, sent[1..], e)
    ensures d.node != e.node
  {
    var s :| s in sent[1..] && Hears(e.arrival, s);
    var j :| 0 <= j < |sent[1..]| && sent[1..][j] == s;
    assert sent[j + 1] == s;
  }

  lemma {:induction false} CarryAllNoTwo(w: World, sent: seq<Sent>)
    requires ValidWorld(w) && HeardOnce(w, sent)
    ensures NoTwo(CarryAll(w, sent))
    decreases |sent|
  {
    if sent != [] {
      CarryExactly(w, 0, sent[0]);
      CarryAllExactly(w, sent[1..]);
      HeardOnceLater(w, sent);
      CarryAllNoTwo(w, sent[1..]);
      forall d, e | d in Carry(w, 0, sent[0]) && e in CarryAll(w, sent[1..]) ensures d.node != e.node {
        FirstApart(w, sent, d, e);
      }
      NoTwoJoin(Carry(w, 0, sent[0]), CarryAll(w, sent[1..]));
    }
  }

  // ----- what each node is handed in a run

  function HandedTo(handed: seq<(nat, Pdu)>, id: nat): seq<Pdu> {
    if handed == [] then []
    else (if handed[0].0 == id then [handed[0].1] else []) + HandedTo(handed[1..], id)
  }

  lemma HandedFirst(first: Option<Pdu>, node: nat, rest: seq<(nat, Pdu)>, id: nat)
    ensures HandedTo((if first.Some? then [(node, first.value)] else []) + rest, id)
         == (if first.Some? && node == id then [first.value] else []) + HandedTo(rest, id)
  {
    if first.Some? {
      assert ([(node, first.value)] + rest)[1..] == rest;
    } else {
      assert [] + rest == rest;
    }
  }

  /** What is handed up in a run, one arrival at a time. */
  lemma HandedStep(t: Traffic, picks: seq<nat>, id: nat)
    requires Valid(t) && Happens(t, picks) && picks != []
    ensures picks[0] < |t.flight| && Valid(Arrive(t, picks[0])) && Happens(Arrive(t, picks[0]), picks[1..])
    ensures var up := Received(t, picks[0]).up;
      HandedTo(HandedUp(t, picks), id)
      == (if up.Some? && t.flight[picks[0]].node == id then [up.value] else [])
         + HandedTo(HandedUp(Arrive(t, picks[0]), picks[1..]), id)
    ensures Ran(t, picks) == Ran(Arrive(t, picks[0]), picks[1..])
  {
    ArriveValid(t, picks[0]);
    HandedFirst(Received(t, picks[0]).up, t.flight[picks[0]].node, HandedUp(Arrive(t, picks[0]), picks[1..]), id);
  }

  // ----- messages for the network they are on

  /** What a node hands up of a message that is no network layer message. */
  function Handed(n: Node, d: Delivery): seq<Pdu>
    requires ValidNode(n)
  {
    if n.server && ForNode(n, d) then [Handing(n, d)] else []
  }

  lemma SameHanded(n: Node, m: Node, d: Delivery)
    requires ValidNode(n) && m.adapters == n.adapters && m.local == n.local && m.server == n.server
    ensures ValidNode(m) && Handed(m, d) == Handed(n, d)
  {
  }

  predicate Local(npdu: Npdu) {
    npdu.dadr.None? && npdu.netMessage.None?
  }

  lemma SplitMembers(flight: seq<Delivery>, i: nat)
    requires i < |flight| && NoTwo(flight)
    ensures var rest := flight[..i] + flight[i + 1..];
      && NoTwo(rest) && (forall d :: d in rest ==> d in flight && d.node != flight[i].node)
      && (forall d :: d in flight && d != flight[i] ==> d in rest)
  {
    var rest := flight[..i] + flight[i + 1..];
    assert forall j :: 0 <= j < |rest| ==> rest[j] == if j < i then flight[j] else flight[j + 1];
    forall d | d in flight && d != flight[i] ensures d in rest {
      var j :| 0 <= j < |flight| && flight[j] == d;
      if j < i { assert rest[j] == d; } else { assert rest[j - 1] == d; }
    }
  }

  /** One of them arrives, is handed up if it is for the node, and that is all. */
  lemma LocalArrives(t: Traffic, i: nat)
    requires Valid(t) && i < |t.flight| && Local(t.flight[i].npdu)
    ensures var u, d := Arrive(t, i), t.flight[i];
      && u.flight == t.flight[..i] + t.flight[i + 1..] && SameNodes(t.world, u.world)
      && ValidDelivery(t.world, d) && ValidNode(t.world[d.node])
      && (if Received(t, i).up.Some? then [Received(t, i).up.value] else []) == Handed(t.world[d.node], d)
  {
    var d := t.flight[i];
    assert d in t.flight && t.world[d.node] in t.world;
    LocalStays(t.world[d.node], d);
    HandedUpExactly(t.world[d.node], d);
    assert CarryAll(Learned(t, i), []) == [];
  }

  predicate AllLocal(flight: seq<Delivery>) {
    NoTwo(flight) && forall d :: d in flight ==> Local(d.npdu)
  }

  lemma LocalStep(t: Traffic, picks: seq<nat>, id: nat)
    requires Valid(t) && Happens(t, picks) && AllLocal(t.flight) && picks != []
    ensures var i := picks[0];
      var u, d := Arrive(t, i), t.flight[i];
      && Valid(u) && Happens(u, picks[1..]) && AllLocal(u.flight) && SameNodes(t.world, u.world)
      && ValidDelivery(t.world, d) && ValidNode(t.world[d.node])
      && Ran(t, picks) == Ran(u, picks[1..])
      && HandedTo(HandedUp(t, picks), id)
         == (if id == d.node then Handed(t.world[d.node], d) else []) + HandedTo(HandedUp(u, picks[1..]), id)
      && (forall e :: e in u.flight ==> e in t.flight && e.node != d.node)
      && (forall e :: e in t.flight && e != d ==> e in u.flight)
  {
    HandedStep(t, picks, id);
    assert t.flight[picks[0]] in t.flight;
    LocalArrives(t, picks[0]);
    SplitMembers(t.flight, picks[0]);
  }

  lemma {:induction false} LocalToNobody(t: Traffic, picks: seq<nat>, id: nat)
    requires Valid(t) && Happens(t, picks) && AllLocal(t.flight) && !At(t.flight, id)
    ensures HandedTo(HandedUp(t, picks), id) == [] && !At(Ran(t, picks).flight, id)
    decreases |picks|
  {
    if picks != [] {
      LocalStep(t, picks, id);
      assert t.flight[picks[0]] in t.flight;
      LocalToNobody(Arrive(t, picks[0]), picks[1..], id);
    }
  }

  /** Messages for the networks they are on: in any order, each node whose local adapter hears one is
      handed it, once it has arrived. */
  lemma {:induction false} LocalToOne(t: Traffic, picks: seq<nat>, d: Delivery)
    requires Valid(t) && Happens(t, picks) && AllLocal(t.flight) && d in t.flight
    ensures ValidDelivery(t.world, d) && ValidNode(t.world[d.node])
    ensures HandedTo(HandedUp(t, picks), d.node)
         == if d in Ran(t, picks).flight then [] else Handed(t.world[d.node], d)
    decreases |picks|
  {
    assert t.world[d.node] in t.world;
    if picks != [] {
      LocalStep(t, picks, d.node);
      var u, d0 := Arrive(t, picks[0]), t.flight[picks[0]];
      if d != d0 {
        LocalToOne(u, picks[1..], d);
        SameHanded(t.world[d.node], u.world[d.node], d);
      } else {
        LocalToNobody(u, picks[1..], d.node);
      }
    }
  }

  // ----- what an application sends to a network its node is on

  /** The traffic after an application has sent something. */
  function Issued(w: World, origin: nat, to: Address, data: Bytes): (t: Traffic)
    requires ValidWorld(w) && origin < |w|
    ensures Valid(t)
  {
    assert w[origin] in w;
    Traffic(w, CarryAll(w, Indicate(w[origin], to, data).sent))
  }

  /** The destination is on the network of the adapter, where it has that address. */
  predicate Here(n: Node, to: Address, a: Adapter, there: Address)
    requires ValidNode(n)
  {
    a in n.adapters &&
    match to
    case LocalStation(_) => a == n.adapters[n.local] && there == to
    case LocalBroadcast => a == n.adapters[n.local] && there == to
    case RemoteStation(net, mac) => a.net == net && there == LocalStation(mac)
    case RemoteBroadcast(net) => a.net == net && there == LocalBroadcast
    case GlobalBroadcast => false
  }

  /** It leaves once, on that adapter, without DADR, with the local station as SADR if that is on
      another network. */
  lemma LeavesHere(n: Node, to: Address, a: Adapter, there: Address, data: Bytes)
    requires ValidNode(n) && Here(n, to, a, there)
    ensures var local := n.adapters[n.local];
      Indicate(n, to, data) ==
        Sending([Sent(a.net, Npdu(a.mac, Some(there), None,
                                  if a == local then None else Some(Station(local.net, local.mac)), 255, None, data))],
                false)
  {
    var direct := AdapterOn(n.adapters, a.net);
    assert direct.value == a by { if direct.value != a { DistinctNets(n, direct.value, a); } }
  }

  /** A node whose application is handed what another node sends on that adapter: its local adapter
      is on the network and hears it, and it is not on the network that the message says it is from. */
  predicate Listens(n: Node, a: Adapter, there: Address, from: Option<Station>)
    requires ValidNode(n)
  {
    var own := n.adapters[n.local];
    && n.server && own.net == a.net && own.mac != a.mac && (there == LocalBroadcast || there == LocalStation(own.mac))
    && (from.Some? ==> !Attached(n.adapters, from.value.net))
  }

  lemma HandedWhenListening(n: Node, d: Delivery, a: Adapter, there: Address, from: Option<Station>)
    requires ValidNode(n) && d.arrival in n.adapters && Local(d.npdu) && d.npdu.sadr == from
    requires d.npdu.source == a.mac && d.npdu.destination == Some(there)
    requires there == LocalBroadcast || there.LocalStation?
    requires d.arrival.net == a.net && d.arrival.mac != a.mac
    requires there == LocalBroadcast || there == LocalStation(d.arrival.mac)
    ensures Handed(n, d)
         == if Listens(n, a, there, from) then
              [Pdu(if from.None? then LocalStation(a.mac) else RemoteStation(from.value.net, from.value.mac),
                   Some(there), d.npdu.data)]
            else []
  {
    var own := n.adapters[n.local];
    if own.net == a.net && own != d.arrival { DistinctNets(n, own, d.arrival); }
  }

  /** It is on one network, for all or for one station there. */
  predicate OnNetwork(a: Adapter, there: Address, s: Sent) {
    && s.net == a.net && Local(s.npdu) && s.npdu.source == a.mac && s.npdu.destination == Some(there)
    && (there == LocalBroadcast || there.LocalStation?)
  }

  lemma OneCarriedExactly(w: World, s: Sent, d: Delivery)
    requires ValidWorld(w)
    ensures d in CarryAll(w, [s]) <==> ValidDelivery(w, d) && d.npdu == s.npdu && Hears(d.arrival, s)
  {
    CarryAllExactly(w, [s]);
    assert Carried(w, [s], d) <==> ValidDelivery(w, d) && Hears(d.arrival, s) && d.npdu == s.npdu;
  }

  lemma ListensOnce(w: World, a: Adapter, s: Sent, there: Address, id: nat)
    requires ValidWorld(w) && id < |w| && OnNetwork(a, there, s)
    ensures var ds := CarryAll(w, [s]);
      && AllLocal(ds) && ValidNode(w[id])
      && (At(ds, id) <==> exists b :: b in w[id].adapters && Hears(b, s))
      && (forall d :: d in ds ==> ValidDelivery(w, d) && d.npdu == s.npdu && Hears(d.arrival, s))
  {
    CarryAllNoTwo(w, [s]);
    assert w[id] in w;
    if b :| b in w[id].adapters && Hears(b, s) { OneCarriedExactly(w, s, Delivery(id, b, s.npdu)); }
    forall d | d in CarryAll(w, [s]) ensures ValidDelivery(w, d) && d.npdu == s.npdu && Hears(d.arrival, s) {
      OneCarriedExactly(w, s, d);
    }
  }

  /** What is sent on one network is handed to the applications that listen there, once each. */
  lemma HeardHere(w: World, s: Sent, a: Adapter, there: Address, picks: seq<nat>, id: nat)
    requires ValidWorld(w) && id < |w| && OnNetwork(a, there, s)
    requires var t := Traffic(w, CarryAll(w, [s]));
      Valid(t) && Happens(t, picks) && Ran(t, picks).flight == []
    ensures ValidNode(w[id])
    ensures var from := s.npdu.sadr;
      HandedTo(HandedUp(Traffic(w, CarryAll(w, [s])), picks), id)
      == if Listens(w[id], a, there, from) then
           [Pdu(if from.None? then LocalStation(a.mac) else RemoteStation(from.value.net, from.value.mac),
                Some(there), s.npdu.data)]
         else []
  {
    var t := Traffic(w, CarryAll(w, [s]));
    ListensOnce(w, a, s, there, id);
    if At(t.flight, id) {
      var d :| d in t.flight && d.node == id;
      LocalToOne(t, picks, d);
      HandedWhenListening(w[id], d, a, there, s.npdu.sadr);
    } else {
      LocalToNobody(t, picks, id);
      assert !Listens(w[id], a, there, s.npdu.sadr) by {
        var own := w[id].adapters[w[id].local];
        assert own in w[id].adapters && !Hears(own, s);
      }
    }
  }

  /** What an application sends to a network that its node is on, to one station or to all, is handed
      to the applications whose local adapters hear it there, once each, and to nobody else. It is
      from a station here if it left on the local adapter, and from a remote one otherwise. */
  lemma HandedHere(w: World, origin: nat, to: Address, a: Adapter, there: Address, data: Bytes, picks: seq<nat>,
                   id: nat)
    requires ValidWorld(w) && origin < |w| && id < |w| && ValidNode(w[origin]) && Here(w[origin], to, a, there)
    requires Happens(Issued(w, origin, to, data), picks) && Ran(Issued(w, origin, to, data), picks).flight == []
    ensures ValidNode(w[id])
    ensures var local := w[origin].adapters[w[origin].local];
      var from := if a == local then None else Some(Station(local.net, local.mac));
      HandedTo(HandedUp(Issued(w, origin, to, data), picks), id)
      == if Listens(w[id], a, there, from) then
           [Pdu(if a == local then LocalStation(local.mac) else RemoteStation(local.net, local.mac), Some(there), data)]
         else []
  {
    var local := w[origin].adapters[w[origin].local];
    var from := if a == local then None else Some(Station(local.net, local.mac));
    var s := Sent(a.net, Npdu(a.mac, Some(there), None, from, 255, None, data));
    LeavesHere(w[origin], to, a, there, data);
    HeardHere(w, s, a, there, picks, id);
  }
}
