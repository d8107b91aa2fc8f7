/** A broadcast for one other network, on networks in levels: who is handed it. */
module RemoteBroadcasts {
  import opened Apdus
  import opened RouterCache
  import opened Routing
  import opened Forwarding
  import opened Journeys
  import opened Conversations
  import opened Broadcasts

  /** The same message for one station of that network. */
  function Twin(d: Delivery, target: Adapter): Delivery {
    d.(npdu := d.npdu.(dadr := Some(RemoteStation(target.net, target.mac))))
  }

  /** The broadcast, as it is between two routers on its way to the network. */
  predicate BoundFor(d: Delivery, w: World, target: Adapter, level: nat -> nat) {
    d.npdu.dadr == Some(RemoteBroadcast(target.net)) && Bound(Twin(d, target), w, target, level)
  }

  /** What a router sends on: to the next router, or to all on the network when it is there. */
  function PassedFor(w: World, d: Delivery, target: Adapter): Sent
    requires d.node < |w| && 0 < d.npdu.hopCount && Way(w[d.node], target.net, target.mac).Some?
  {
    var way := Way(w[d.node], target.net, target.mac).value;
    var here := Attached(w[d.node].adapters, target.net);
    Sent(way.0.net, Npdu(way.0.mac, Some(if here then LocalBroadcast else LocalStation(way.1)),
                         if here then None else Some(RemoteBroadcast(target.net)), Some(Originator(d)),
                         d.npdu.hopCount - 1, None, d.npdu.data))
  }

  /** The application is on the network. */
  predicate IsOn(n: Node, net: nat)
    requires ValidNode(n)
  {
    n.server && n.adapters[n.local].net == net
  }

  function Announced(d: Delivery): Pdu {
    Pdu(RemoteStation(Originator(d).net, Originator(d).mac), Some(LocalBroadcast), d.npdu.data)
  }

  lemma SendsOnFor(n: Node, d: Delivery, target: Adapter, next: Npdu)
    requires ValidNode(n) && d.arrival in n.adapters && next.dadr == Some(RemoteBroadcast(target.net))
    requires Way(n, target.net, target.mac).Some? && d.arrival != Way(n, target.net, target.mac).value.0
    ensures var way := Way(n, target.net, target.mac).value;
      SendOn(n, d.arrival, next, target.net) ==
        Sending([if Attached(n.adapters, target.net) then Put(way.0, next.(dadr := None), LocalBroadcast)
                 else Put(way.0, next, LocalStation(way.1))], false)
  {
  }

  lemma RouterSends(n: Node, d: Delivery, target: Adapter)
    requires ValidNode(n) && IsRouter(n) && d.arrival in n.adapters && d.arrival.net != target.net
    requires d.npdu.dadr == Some(RemoteBroadcast(target.net)) && d.npdu.netMessage.None? && !Spoofed(n, d)
    requires d.npdu.sadr.Some? ==> d.npdu.sadr.value.net != target.net
    requires Way(n, target.net, target.mac).Some? && d.arrival != Way(n, target.net, target.mac).value.0
    ensures var h, way := Process(n, d.arrival, d.npdu), Way(n, target.net, target.mac).value;
      && h.paths == Knows(n, d)
      && h.sent == if d.npdu.hopCount == 0 then []
                   else
                     var next := Onward(d.arrival, d.npdu);
                     [if Attached(n.adapters, target.net) then Put(way.0, next.(dadr := None), LocalBroadcast)
                      else Put(way.0, next, LocalStation(way.1))]
  {
    var now := n.(paths := Knows(n, d));
    assert Learn(n, d.arrival, d.npdu) == Some(now.paths);
    SameWay(n, now, target);
    assert Process(n, d.arrival, d.npdu).sent == Forward(now, d.arrival, d.npdu).sent;
    if 0 < d.npdu.hopCount { SendsOnFor(now, d, target, Onward(d.arrival, d.npdu)); }
  }

  lemma RouterKnows(w: World, d: Delivery, target: Adapter, level: nat -> nat)
    requires ValidWorld(w) && Levelled(w, target, level) && BoundFor(d, w, target, level)
    ensures ValidNode(w[d.node]) && Process(w[d.node], d.arrival, Twin(d, target).npdu).paths == Knows(w[d.node], d)
  {
    assert w[d.node] in w;
    RouterStep(w, Twin(d, target), target, level);
  }

  /** The broadcast is what its twin is, and where it is. */
  lemma TwinFacts(w: World, d: Delivery, target: Adapter, level: nat -> nat)
    requires ValidWorld(w) && Levelled(w, target, level) && BoundFor(d, w, target, level)
    ensures ValidDelivery(w, d) && ValidNode(w[d.node]) && IsRouter(w[d.node]) && d.npdu.netMessage.None?
    ensures !Spoofed(w[d.node], d) && d.arrival.net != target.net
    ensures d.npdu.sadr.Some? ==> d.npdu.sadr.value.net != target.net
    ensures var way := Way(w[d.node], target.net, target.mac); way.Some? && d.arrival != way.value.0
  {
    assert w[d.node] in w;
    Spoofless(w, Twin(d, target), target, level);
  }

  lemma RouterAnnounces(n: Node, d: Delivery, net: nat)
    requires ValidNode(n) && d.arrival in n.adapters && d.arrival.net != net
    requires d.npdu.dadr == Some(RemoteBroadcast(net)) && d.npdu.netMessage.None? && !Spoofed(n, d)
    ensures Process(n, d.arrival, d.npdu).up == if IsOn(n, net) then Some(Announced(d)) else None
  {
    HandedUpExactly(n, d);
  }

  /** One router on the way. */
  lemma RouterPasses(w: World, d: Delivery, target: Adapter, level: nat -> nat)
    requires ValidWorld(w) && Levelled(w, target, level) && BoundFor(d, w, target, level)
    ensures ValidDelivery(w, d) && ValidNode(w[d.node])
    ensures var h := Process(w[d.node], d.arrival, d.npdu);
      && h.paths == Knows(w[d.node], d)
      && h.sent == (if d.npdu.hopCount == 0 then [] else [PassedFor(w, d, target)])
      && h.up == (if IsOn(w[d.node], target.net) then Some(Announced(d)) else None)
  {
    TwinFacts(w, d, target, level);
    RouterAnnounces(w[d.node], d, target.net);
    RouterSends(w[d.node], d, target);
    if d.npdu.hopCount != 0 { PassedIs(w, d, target); }
  }

  lemma PassedIs(w: World, d: Delivery, target: Adapter)
    requires d.node < |w| && 0 < d.npdu.hopCount && Way(w[d.node], target.net, target.mac).Some?
    requires d.npdu.dadr == Some(RemoteBroadcast(target.net)) && d.npdu.netMessage.None?
    ensures var way, next := Way(w[d.node], target.net, target.mac).value, Onward(d.arrival, d.npdu);
      PassedFor(w, d, target)
      == if Attached(w[d.node].adapters, target.net) then Put(way.0, next.(dadr := None), LocalBroadcast)
         else Put(way.0, next, LocalStation(way.1))
  {
  }

  lemma SameAfter(w: World, d: Delivery, target: Adapter, level: nat -> nat)
    requires ValidWorld(w) && Levelled(w, target, level) && BoundFor(d, w, target, level)
    ensures After(w, d) == After(w, Twin(d, target))
  {
    RouterPasses(w, d, target, level);
    RouterKnows(w, d, target, level);
  }

  lemma OneCarried(v: World, s: Sent)
    ensures CarryAll(v, [s]) == Carry(v, 0, s)
  {
    assert CarryAll(v, [s][1..]) == [];
  }

  /** One adapter hears what is for one station. */
  lemma OneHears(v: World, s: Sent, id: nat, a: Adapter)
    requires ValidWorld(v) && Unique(v) && id < |v| && a in v[id].adapters
    requires s.net == a.net && s.npdu.source != a.mac && s.npdu.destination == Some(LocalStation(a.mac))
    ensures CarryAll(v, [s]) == [Delivery(id, a, s.npdu)]
  {
    forall i, b | 0 <= i < |v| && b in v[i].adapters && Hears(b, s) ensures i == id {
      assert b == a;
    }
    OneFrom(v, 0, s, id, a);
    OneCarried(v, s);
  }

  lemma StillWorks(w: World, d: Delivery, target: Adapter, level: nat -> nat)
    requires ValidWorld(w) && Unique(w) && Levelled(w, target, level) && BoundFor(d, w, target, level)
    ensures var v := After(w, d); Unique(v) && Levelled(v, target, level) && v == After(w, Twin(d, target))
  {
    SameAfter(w, d, target, level);
    AfterSameWays(w, Twin(d, target), target, level);
    StillLevelled(w, After(w, d), target, level);
    StillUnique(w, After(w, d));
  }

  lemma TwinNext(w: World, d: Delivery, target: Adapter, next: Delivery)
    requires d.node < |w| && 0 < d.npdu.hopCount && Way(w[d.node], target.net, target.mac).Some?
    requires !Attached(w[d.node].adapters, target.net) && d.npdu.netMessage.None?
    requires next.npdu == PassedFor(w, d, target).npdu
    ensures Twin(next, target) == next.(npdu := Passed(w, Twin(d, target), target).npdu)
    ensures next.npdu.dadr == Some(RemoteBroadcast(target.net)) && Originator(next) == Originator(d)
    ensures next.npdu.hopCount == d.npdu.hopCount - 1 && next.npdu.data == d.npdu.data
  {
  }

  /** The next router on the way. */
  lemma NextIsBound(w: World, d: Delivery, target: Adapter, level: nat -> nat) returns (next: Delivery)
    requires ValidWorld(w) && Unique(w) && Levelled(w, target, level) && BoundFor(d, w, target, level)
    requires 0 < d.npdu.hopCount && !Attached(w[d.node].adapters, target.net)
    ensures var v := After(w, d);
      && Unique(v) && Levelled(v, target, level) && BoundFor(next, v, target, level)
      && CarryAll(v, [PassedFor(w, d, target)]) == [next] && level(d.arrival.net) == level(next.arrival.net) + 1
      && Originator(next) == Originator(d) && next.npdu.hopCount == d.npdu.hopCount - 1
      && next.npdu.data == d.npdu.data
  {
    var twin := Twin(d, target);
    StillWorks(w, d, target, level);
    NextRouter(w, twin, target, level);
    NotToItself(w, twin, target, level);
    var way := Way(w[d.node], target.net, target.mac).value;
    var a, s := Adapter(way.0.net, way.1), PassedFor(w, d, target);
    next := Delivery(Owner(w, a).value, a, s.npdu);
    OneHears(After(w, d), s, next.node, a);
    TwinNext(w, d, target, next);
  }

  // ----- every run

  /** The application is handed the broadcast: it is on the network, and its node is the router that
      brings it there or has no adapter on the originator's network. */
  predicate Hearer(w: World, d: Delivery, target: Adapter, router: nat, id: nat)
    requires ValidWorld(w) && id < |w|
  {
    assert w[id] in w;
    IsOn(w[id], target.net) && (id == router || !Attached(w[id].adapters, Originator(d).net))
  }

  lemma ArrivesAlone(w: World, d: Delivery)
    requires ValidWorld(w) && ValidDelivery(w, d)
    ensures var h, v := Process(w[d.node], d.arrival, d.npdu), After(w, d);
      Received(Alone(w, d), 0) == h && Arrive(Alone(w, d), 0) == Traffic(v, CarryAll(v, h.sent))
  {
    assert [d][..0] + [d][1..] == [];
    assert Learned(Alone(w, d), 0) == After(w, d);
  }

  /** One message arrives and these follow. */
  lemma OneFollows(w: World, d: Delivery, picks: seq<nat>, id: nat)
    requires ValidWorld(w) && ValidDelivery(w, d) && Happens(Alone(w, d), picks) && picks != []
    ensures var h, v := Process(w[d.node], d.arrival, d.npdu), After(w, d);
      var u := Traffic(v, CarryAll(v, h.sent));
      && Valid(u) && Happens(u, picks[1..]) && Ran(Alone(w, d), picks) == Ran(u, picks[1..])
      && HandedTo(HandedUp(Alone(w, d), picks), id)
         == (if h.up.Some? && d.node == id then [h.up.value] else []) + HandedTo(HandedUp(u, picks[1..]), id)
  {
    assert picks[0] == 0;
    HandedStep(Alone(w, d), picks, id);
    ArrivesAlone(w, d);
  }

  /** Who listens when a node sends to all on one of its networks: every application there but its own. */
  lemma WhoListens(w: World, router: nat, a: Adapter, from: Station, id: nat)
    requires ValidWorld(w) && Unique(w) && router < |w| && a in w[router].adapters && id < |w|
    ensures ValidNode(w[id])
    ensures Listens(w[id], a, LocalBroadcast, Some(from))
       <==> id != router && IsOn(w[id], a.net) && !Attached(w[id].adapters, from.net)
  {
    assert w[id] in w && w[router] in w;
    var own := w[id].adapters[w[id].local];
    assert own in w[id].adapters;
    if id == router {
      if own.net == a.net && own != a { DistinctNets(w[id], own, a); }
    } else {
      assert own != a;
    }
  }

  lemma SameListens(n: Node, m: Node, a: Adapter, from: Station)
    requires ValidNode(n) && m.adapters == n.adapters && m.local == n.local && m.server == n.server
    ensures ValidNode(m)
    ensures Listens(m, a, LocalBroadcast, Some(from)) <==> Listens(n, a, LocalBroadcast, Some(from))
  {
  }

  lemma AllHear(w: World, d: Delivery, target: Adapter, v: World, picks: seq<nat>, id: nat)
    requires ValidWorld(w) && Unique(w) && ValidWorld(v) && SameNodes(w, v) && id < |w| && d.node < |w|
    requires 0 < d.npdu.hopCount && Attached(w[d.node].adapters, target.net)
    requires var t := Traffic(v, CarryAll(v, [PassedFor(w, d, target)]));
      Valid(t) && Happens(t, picks) && Ran(t, picks).flight == []
    ensures ValidNode(w[id])
    ensures var heard := IsOn(w[id], target.net) && !Attached(w[id].adapters, Originator(d).net);
      HandedTo(HandedUp(Traffic(v, CarryAll(v, [PassedFor(w, d, target)])), picks), id)
      == if id != d.node && heard then [Announced(d)] else []
  {
    var way := Way(w[d.node], target.net, target.mac).value;
    assert w[id] in w;
    WhoListens(w, d.node, way.0, Originator(d), id);
    SameListens(w[id], v[id], way.0, Originator(d));
    HeardHere(v, PassedFor(w, d, target), way.0, LocalBroadcast, picks, id);
  }

  /** The router on the network: all there hear what it sends. */
  lemma LastRouter(w: World, d: Delivery, target: Adapter, level: nat -> nat, picks: seq<nat>, id: nat)
    requires ValidWorld(w) && Unique(w) && Levelled(w, target, level) && BoundFor(d, w, target, level) && id < |w|
    requires 0 < d.npdu.hopCount && Attached(w[d.node].adapters, target.net)
    requires Happens(Alone(w, d), picks) && Ran(Alone(w, d), picks).flight == []
    ensures HandedTo(HandedUp(Alone(w, d), picks), id)
         == if Hearer(w, d, target, d.node, id) then [Announced(d)] else []
  {
    RouterPasses(w, d, target, level);
    OneFollows(w, d, picks, id);
    AllHear(w, d, target, After(w, d), picks[1..], id);
  }

  /** One router further, nobody has been handed anything, and the same nodes will be. */
  lemma OneFurther(w: World, d: Delivery, target: Adapter, level: nat -> nat, picks: seq<nat>, id: nat)
    returns (v: World, next: Delivery)
    requires ValidWorld(w) && Unique(w) && Levelled(w, target, level) && BoundFor(d, w, target, level) && id < |w|
    requires 0 < d.npdu.hopCount && !Attached(w[d.node].adapters, target.net)
    requires Happens(Alone(w, d), picks) && Ran(Alone(w, d), picks).flight == []
    ensures ValidWorld(v) && SameNodes(w, v) && Unique(v) && Levelled(v, target, level)
    ensures BoundFor(next, v, target, level)
    ensures level(d.arrival.net) == level(next.arrival.net) + 1 && next.npdu.hopCount == d.npdu.hopCount - 1
    ensures Announced(next) == Announced(d) && Originator(next) == Originator(d)
    ensures picks != [] && Happens(Alone(v, next), picks[1..]) && Ran(Alone(v, next), picks[1..]).flight == []
    ensures HandedTo(HandedUp(Alone(w, d), picks), id) == HandedTo(HandedUp(Alone(v, next), picks[1..]), id)
  {
    v := After(w, d);
    next := NextIsBound(w, d, target, level);
    RouterPasses(w, d, target, level);
    OneFollows(w, d, picks, id);
    NotOn(w[d.node], target.net);
    var rest := HandedTo(HandedUp(Alone(v, next), picks[1..]), id);
    assert [] + rest == rest;
  }

  lemma SameHearer(w: World, v: World, d: Delivery, next: Delivery, target: Adapter, router: nat, id: nat)
    requires ValidWorld(w) && ValidWorld(v) && SameNodes(w, v) && id < |w| && router < |v|
    requires Originator(next) == Originator(d)
    ensures router < |w| && (IsRouter(v[router]) <==> IsRouter(w[router])) && w[router].adapters == v[router].adapters
    ensures Hearer(v, next, target, router, id) <==> Hearer(w, d, target, router, id)
  {
  }

  /** A broadcast for another network, from any router on its way and with a hop for every level
      still to go: once its traffic is over, whatever the order, every application on that network
      has been handed it, exactly once, as a local broadcast of a remote station, and nobody else
      has been handed anything. */
  lemma {:induction false} ReachesNetwork(w: World, d: Delivery, target: Adapter, level: nat -> nat, picks: seq<nat>,
                                         id: nat) returns (router: nat)
    requires ValidWorld(w) && Unique(w) && Levelled(w, target, level) && BoundFor(d, w, target, level) && id < |w|
    requires level(d.arrival.net) <= d.npdu.hopCount
    requires Happens(Alone(w, d), picks) && Ran(Alone(w, d), picks).flight == []
    ensures router < |w| && IsRouter(w[router]) && Attached(w[router].adapters, target.net)
    ensures HandedTo(HandedUp(Alone(w, d), picks), id)
         == if Hearer(w, d, target, router, id) then [Announced(d)] else []
    decreases d.npdu.hopCount
  {
    Spoofless(w, Twin(d, target), target, level);
    if Attached(w[d.node].adapters, target.net) {
      LastRouter(w, d, target, level, picks, id);
      router := d.node;
    } else {
      var v, next := OneFurther(w, d, target, level, picks, id);
      router := ReachesNetwork(v, next, target, level, picks[1..], id);
      SameHearer(w, v, d, next, target, router, id);
    }
  }

  lemma NotOn(n: Node, net: nat)
    requires ValidNode(n) && !Attached(n.adapters, net)
    ensures !IsOn(n, net)
  {
    assert n.adapters[n.local] in n.adapters;
  }

  // ----- from application to applications

  /** What an application sends to a network that its node is not on goes to the router that the cache
      names, on the adapter of that path, with the destination as DADR and all hops; when the cache
      names none a router is looked for. */
  lemma LeavesForRouter(n: Node, to: Address, net: nat, data: Bytes)
    requires ValidNode(n) && !Attached(n.adapters, net)
    requires (to.RemoteStation? || to.RemoteBroadcast?) && to.net == net
    ensures Indicate(n, to, data) ==
      match FindPath(n.adapters, n.paths, net)
      case None => Sending([], true)
      case Some((a, router)) =>
        Sending([Sent(a.net, Npdu(a.mac, Some(LocalStation(router)), Some(to), None, 255, None, data))], false)
  {
  }

  /** The broadcast of an application, as the first router receives it. */
  function FirstHop(a: Adapter, router: nat, entry: Adapter, net: nat, data: Bytes): Delivery {
    Delivery(router, entry,
             Npdu(a.mac, Some(LocalStation(entry.mac)), Some(RemoteBroadcast(net)), None, 255, None, data))
  }

  /** End to end: when the cache of the sender's node names a router that is on its way, a broadcast
      for a network within 255 levels is handed to every application there, exactly once, and to
      nobody else. */
  lemma IssuedReachesNetwork(w: World, origin: nat, a: Adapter, entry: Adapter, first: nat, target: Adapter,
                             level: nat -> nat, data: Bytes, picks: seq<nat>, id: nat) returns (router: nat)
    requires ValidWorld(w) && Unique(w) && Levelled(w, target, level) && origin < |w| && id < |w| && first < |w|
    requires !Attached(w[origin].adapters, target.net)
    requires FindPath(w[origin].adapters, w[origin].paths, target.net) == Some((a, entry.mac))
    requires entry in w[first].adapters && entry.net == a.net && entry.mac != a.mac
    requires BoundFor(FirstHop(a, first, entry, target.net, data), w, target, level) && level(entry.net) <= 255
    requires var t := Issued(w, origin, RemoteBroadcast(target.net), data);
      Happens(t, picks) && Ran(t, picks).flight == []
    ensures router < |w| && IsRouter(w[router]) && Attached(w[router].adapters, target.net)
    ensures var d := FirstHop(a, first, entry, target.net, data);
      HandedTo(HandedUp(Issued(w, origin, RemoteBroadcast(target.net), data), picks), id)
      == if Hearer(w, d, target, router, id) then
           [Pdu(RemoteStation(a.net, a.mac), Some(LocalBroadcast), data)]
         else []
  {
    var d := FirstHop(a, first, entry, target.net, data);
    assert w[origin] in w;
    LeavesForRouter(w[origin], RemoteBroadcast(target.net), target.net, data);
    OneHears(w, Sent(a.net, d.npdu), first, entry);
    assert Issued(w, origin, RemoteBroadcast(target.net), data) == Alone(w, d);
    router := ReachesNetwork(w, d, target, level, picks, id);
  }
}
