/** A message for one station of another network, followed from node to node: whether it gets
    there, what it says on arrival, and how the answer finds its way back. */
module Journeys {
  import opened Apdus
  import opened RouterCache
  import opened Routing
  import opened Forwarding

  // ----- following a message

  /** A node that sent the message on: where it came in and from whom, and where it went out. */
  datatype Hop = Hop(node: nat, inward: Adapter, from: Mac, outward: Adapter)

  /** How a journey ends: the caches by then, the nodes that sent the message on, and what the
      last node received and did. */
  datatype Journey = Journey(world: World, hops: seq<Hop>, last: Delivery, handled: Handled)

  /** The node with that adapter. */
  function OwnerFrom(w: World, k: nat, a: Adapter): (id: Option<nat>)
    requires k <= |w|
    ensures id.Some? ==> id.value < |w| && a in w[id.value].adapters
    ensures id.None? ==> forall i :: k <= i < |w| ==> a !in w[i].adapters
    decreases |w| - k
  {
    if k == |w| then None else if a in w[k].adapters then Some(k) else OwnerFrom(w, k + 1, a)
  }

  function Owner(w: World, a: Adapter): (id: Option<nat>)
    ensures id.Some? ==> id.value < |w| && a in w[id.value].adapters
    ensures id.None? ==> forall i :: 0 <= i < |w| ==> a !in w[i].adapters
  {
    OwnerFrom(w, 0, a)
  }

  /** No two nodes have an adapter in common. */
  predicate Unique(w: World) {
    forall i, j, a :: 0 <= i < |w| && 0 <= j < |w| && a in w[i].adapters && a in w[j].adapters ==> i == j
  }

  lemma {:induction false} OwnerFound(w: World, k: nat, id: nat, a: Adapter)
    requires Unique(w) && k <= id < |w| && a in w[id].adapters
    ensures OwnerFrom(w, k, a) == Some(id)
    decreases id - k
  {
    if k < id { OwnerFound(w, k + 1, id, a); }
  }

  /** The caches may differ, the nodes do not. */
  predicate SameNodes(w: World, v: World) {
    |w| == |v| && forall i :: 0 <= i < |w| ==>
      v[i].adapters == w[i].adapters && v[i].local == w[i].local && v[i].server == w[i].server
  }

  /** The world after a node has received the message. */
  function After(w: World, d: Delivery): (v: World)
    requires ValidWorld(w) && ValidDelivery(w, d)
    ensures ValidWorld(v) && SameNodes(w, v)
    ensures forall i :: 0 <= i < |w| && i != d.node ==> v[i] == w[i]
  {
    var n := w[d.node];
    var v := w[d.node := n.(paths := Process(n, d.arrival, d.npdu).paths)];
    assert forall m :: m in v ==> m in w || m == n.(paths := Process(n, d.arrival, d.npdu).paths);
    v
  }

  /** Where the message goes next, when it goes to one node and that hears it. */
  function Follow(w: World, h: Handled): (next: Option<Delivery>)
    ensures next.Some? ==> |h.sent| == 1 && next.value.npdu == h.sent[0].npdu && ValidDelivery(w, next.value)
  {
    if |h.sent| == 1 && h.sent[0].npdu.destination.Some? && h.sent[0].npdu.destination.value.LocalStation? then
      var a := Adapter(h.sent[0].net, h.sent[0].npdu.destination.value.mac);
      match Owner(w, a)
      case None => None
      case Some(id) => if Hears(a, h.sent[0]) then Some(Delivery(id, a, h.sent[0].npdu)) else None
    else None
  }

  function Travel(w: World, d: Delivery): (j: Journey)
    requires ValidWorld(w) && ValidDelivery(w, d)
    ensures j.last.node < |w| && |j.world| == |w|
    decreases d.npdu.hopCount
  {
    var n := w[d.node];
    var h := Process(n, d.arrival, d.npdu);
    match Follow(After(w, d), h)
    case None => Journey(After(w, d), [], d, h)
    case Some(next) =>
      ForwardedCopies(n, d.arrival, d.npdu, h.sent[0]);
      var rest := Travel(After(w, d), next);
      var hop := Hop(d.node, d.arrival, d.npdu.source, Adapter(h.sent[0].net, h.sent[0].npdu.source));
      Journey(rest.world, [hop] + rest.hops, rest.last, rest.handled)
  }

  // ----- networks in levels

  /** Where a node sends what is for a station of the network: on the adapter there, to the
      station itself, or to the router its cache names. */
  function Way(n: Node, net: nat, mac: Mac): Option<(Adapter, Mac)> {
    var direct := AdapterOn(n.adapters, net);
    if direct.Some? then Some((direct.value, mac)) else FindPath(n.adapters, n.paths, net)
  }

  predicate IsRouter(n: Node) {
    1 < |n.adapters|
  }

  predicate IsStation(n: Node, a: Adapter) {
    n.adapters == [a] && n.local == 0 && n.server
  }

  /** A way of numbering the networks such that every router has its way to the target on one
      network and all its others one level further out, and the router it names is on that
      network with its own way one level further in. On a tree whose caches point towards the
      target, the distance from it is such a numbering. */
  ghost predicate Levelled(w: World, target: Adapter, level: nat -> nat) {
    && level(target.net) == 0
    && forall i :: 0 <= i < |w| && IsRouter(w[i]) ==> RouterLevelled(w, target, level, i)
  }

  ghost predicate RouterLevelled(w: World, target: Adapter, level: nat -> nat, i: nat)
    requires i < |w|
  {
    var way := Way(w[i], target.net, target.mac);
    && way.Some?
    && (forall a :: a in w[i].adapters && a != way.value.0 ==> level(a.net) == level(way.value.0.net) + 1)
    && (if Attached(w[i].adapters, target.net) then target !in w[i].adapters
        else
          var next := Owner(w, Adapter(way.value.0.net, way.value.1));
          && next.Some? && IsRouter(w[next.value])
          && var onward := Way(w[next.value], target.net, target.mac);
             onward.Some? && level(way.value.0.net) == level(onward.value.0.net) + 1)
  }

  /** The message, as it is between two routers on its way to the target. */
  predicate Bound(d: Delivery, w: World, target: Adapter, level: nat -> nat) {
    && ValidDelivery(w, d) && IsRouter(w[d.node])
    && d.npdu.dadr == Some(RemoteStation(target.net, target.mac)) && d.npdu.netMessage.None?
    && Way(w[d.node], target.net, target.mac).Some?
    && d.arrival != Way(w[d.node], target.net, target.mac).value.0
    && (d.npdu.sadr.Some? ==> level(d.arrival.net) < level(d.npdu.sadr.value.net))
  }

  /** Whose message it is. */
  function Originator(d: Delivery): Station {
    if d.npdu.sadr.Some? then d.npdu.sadr.value else Station(d.arrival.net, d.npdu.source)
  }

  /** What a router sends on. */
  function Passed(w: World, d: Delivery, target: Adapter): Sent
    requires d.node < |w| && 0 < d.npdu.hopCount && Way(w[d.node], target.net, target.mac).Some?
  {
    var way := Way(w[d.node], target.net, target.mac).value;
    var next := Onward(d.arrival, d.npdu);
    Put(way.0, if Attached(w[d.node].adapters, target.net) then next.(dadr := None) else next, LocalStation(way.1))
  }

  /** The networks of a router are at two levels, and the arrival is at the outer one. */
  lemma Spoofless(w: World, d: Delivery, target: Adapter, level: nat -> nat)
    requires ValidWorld(w) && Levelled(w, target, level) && Bound(d, w, target, level)
    ensures level(d.arrival.net) == level(Way(w[d.node], target.net, target.mac).value.0.net) + 1
    ensures forall a :: a in w[d.node].adapters ==> level(a.net) <= level(d.arrival.net)
    ensures d.npdu.sadr.Some? ==> !Attached(w[d.node].adapters, d.npdu.sadr.value.net)
    ensures Originator(d).net != target.net && d.arrival.net != target.net
    ensures target !in w[d.node].adapters
  {
    assert RouterLevelled(w, target, level, d.node);
  }

  /** The paths a router knows once it has received the message. */
  function Knows(n: Node, d: Delivery): Paths {
    if d.npdu.sadr.None? then n.paths
    else Announce(n.paths, Some(d.arrival.net), d.npdu.source, {d.npdu.sadr.value.net})
  }

  /** One router on the way: it learns the way back, and sends the message on while it has hops. */
  lemma RouterStep(w: World, d: Delivery, target: Adapter, level: nat -> nat)
    requires ValidWorld(w) && Levelled(w, target, level) && Bound(d, w, target, level)
    ensures Process(w[d.node], d.arrival, d.npdu) ==
      Handled(Knows(w[d.node], d), None, false, if d.npdu.hopCount == 0 then [] else [Passed(w, d, target)], false)
  {
    Spoofless(w, d, target, level);
    var n := w[d.node];
    assert n in w;
    var now := n.(paths := Knows(n, d));
    SameWay(n, now, target);
    PassesOn(now, d, target);
    if 0 < d.npdu.hopCount {
      assert Forward(now, d.arrival, d.npdu).sent == [Passed(w, d, target)];
    }
  }

  lemma PassesOn(n: Node, d: Delivery, target: Adapter)
    requires ValidNode(n) && IsRouter(n) && d.arrival in n.adapters && target !in n.adapters
    requires d.arrival.net != target.net
    requires d.npdu.dadr == Some(RemoteStation(target.net, target.mac)) && d.npdu.netMessage.None?
    requires Way(n, target.net, target.mac).Some? && d.arrival != Way(n, target.net, target.mac).value.0
    ensures Classify(n, d.arrival, d.npdu) == Some((false, true))
    ensures var way := Way(n, target.net, target.mac).value;
      Forward(n, d.arrival, d.npdu) ==
        if d.npdu.hopCount == 0 then Sending([], false)
        else
          var next := Onward(d.arrival, d.npdu);
          Sending([Put(way.0, if Attached(n.adapters, target.net) then next.(dadr := None)
              else next, LocalStation(way.1))], false)
  {
    var local := n.adapters[n.local];
    assert local in n.adapters && local != target;
    if 0 < d.npdu.hopCount { PassedOn(n, d, target, Onward(d.arrival, d.npdu)); }
  }

  /** Learning the way to one network does not change the way to another. */
  lemma SameWay(n: Node, now: Node, target: Adapter)
    requires now.adapters == n.adapters
    requires forall s :: (s, target.net) in now.paths <==> (s, target.net) in n.paths
    requires forall s :: (s, target.net) in now.paths
               ==> now.paths[(s, target.net)].router == n.paths[(s, target.net)].router
    ensures Way(now, target.net, target.mac) == Way(n, target.net, target.mac)
  {
    SamePath(n.adapters, n.paths, now.paths, target.net);
  }

  lemma {:induction false} SamePath(adapters: seq<Adapter>, p: Paths, q: Paths, net: nat)
    requires forall s :: (s, net) in q <==> (s, net) in p
    requires forall s :: (s, net) in q ==> q[(s, net)].router == p[(s, net)].router
    ensures FindPath(adapters, q, net) == FindPath(adapters, p, net)
    decreases |adapters|
  {
    if adapters != [] { SamePath(adapters[1..], p, q, net); }
  }

  lemma PassedOn(n: Node, d: Delivery, target: Adapter, next: Npdu)
    requires ValidNode(n) && d.arrival in n.adapters && next.dadr == Some(RemoteStation(target.net, target.mac))
    requires Way(n, target.net, target.mac).Some? && d.arrival != Way(n, target.net, target.mac).value.0
    ensures var way := Way(n, target.net, target.mac).value;
      SendOn(n, d.arrival, next, target.net) ==
        Sending([Put(way.0, if Attached(n.adapters, target.net) then next.(dadr := None)
            else next, LocalStation(way.1))], false)
  {
  }

  // ----- the levels stay

  /** Every node goes the same way to the target. */
  predicate SameWays(w: World, v: World, target: Adapter) {
    SameNodes(w, v) &&
    forall i :: 0 <= i < |w| ==> Way(v[i], target.net, target.mac) == Way(w[i], target.net, target.mac)
  }

  lemma {:induction false} SameOwner(w: World, v: World, k: nat, a: Adapter)
    requires SameNodes(w, v) && k <= |w|
    ensures OwnerFrom(v, k, a) == OwnerFrom(w, k, a)
    decreases |w| - k
  {
    if k < |w| { SameOwner(w, v, k + 1, a); }
  }

  lemma StillLevelled(w: World, v: World, target: Adapter, level: nat -> nat)
    requires Levelled(w, target, level) && SameWays(w, v, target)
    ensures Levelled(v, target, level)
  {
    forall i | 0 <= i < |v| && IsRouter(v[i]) ensures RouterLevelled(v, target, level, i) {
      assert RouterLevelled(w, target, level, i);
      var way := Way(w[i], target.net, target.mac).value;
      SameOwner(w, v, 0, Adapter(way.0.net, way.1));
    }
  }

  lemma StillUnique(w: World, v: World)
    requires Unique(w) && SameNodes(w, v)
    ensures Unique(v)
  {
  }

  lemma AfterSameWays(w: World, d: Delivery, target: Adapter, level: nat -> nat)
    requires ValidWorld(w) && Levelled(w, target, level) && Bound(d, w, target, level)
    ensures SameWays(w, After(w, d), target)
  {
    RouterStep(w, d, target, level);
    Spoofless(w, d, target, level);
    SameWay(w[d.node], After(w, d)[d.node], target);
  }

  // ----- one router further

  /** A router's message goes to the node that its way names. */
  lemma FollowsWay(w: World, d: Delivery, target: Adapter, level: nat -> nat, id: nat)
    requires ValidWorld(w) && Unique(w) && Levelled(w, target, level) && Bound(d, w, target, level)
    requires 0 < d.npdu.hopCount
    requires var way := Way(w[d.node], target.net, target.mac).value; Owner(w, Adapter(way.0.net, way.1)) == Some(id)
    ensures var h := Process(w[d.node], d.arrival, d.npdu);
      var way := Way(w[d.node], target.net, target.mac).value;
      && h.sent == [Passed(w, d, target)]
      && Follow(After(w, d), h) == Some(Delivery(id, Adapter(way.0.net, way.1), Passed(w, d, target).npdu))
  {
    RouterStep(w, d, target, level);
    var way := Way(w[d.node], target.net, target.mac).value;
    SameOwner(w, After(w, d), 0, Adapter(way.0.net, way.1));
    NotToItself(w, d, target, level);
  }

  /** The next stop: the target itself, or a router one level further in. */
  lemma NextStop(w: World, d: Delivery, target: Adapter, level: nat -> nat, station: nat)
    requires ValidWorld(w) && Unique(w) && Levelled(w, target, level) && Bound(d, w, target, level)
    requires station < |w| && target in w[station].adapters && 0 < d.npdu.hopCount
    ensures var h := Process(w[d.node], d.arrival, d.npdu);
      var next := Follow(After(w, d), h);
      && next.Some? && h.sent == [Passed(w, d, target)] && next.value.npdu == Passed(w, d, target).npdu
      && if Attached(w[d.node].adapters, target.net) then next.value.node == station && next.value.arrival == target
         else
           && Bound(next.value, After(w, d), target, level)
           && level(d.arrival.net) == level(next.value.arrival.net) + 1
  {
    if Attached(w[d.node].adapters, target.net) {
      OwnerFound(w, 0, station, target);
      FollowsWay(w, d, target, level, station);
    } else {
      NextRouter(w, d, target, level);
      var way := Way(w[d.node], target.net, target.mac).value;
      FollowsWay(w, d, target, level, Owner(w, Adapter(way.0.net, way.1)).value);
    }
  }

  /** A router does not send to itself. */
  lemma NotToItself(w: World, d: Delivery, target: Adapter, level: nat -> nat)
    requires ValidWorld(w) && Unique(w) && Levelled(w, target, level) && Bound(d, w, target, level)
    ensures var way := Way(w[d.node], target.net, target.mac).value; way.0 in w[d.node].adapters && way.0.mac != way.1
  {
    Spoofless(w, d, target, level);
    assert RouterLevelled(w, target, level, d.node);
  }

  lemma NextRouter(w: World, d: Delivery, target: Adapter, level: nat -> nat)
    requires ValidWorld(w) && Levelled(w, target, level) && Bound(d, w, target, level)
    requires 0 < d.npdu.hopCount && !Attached(w[d.node].adapters, target.net)
    ensures var way := Way(w[d.node], target.net, target.mac).value;
      var a := Adapter(way.0.net, way.1);
      && Owner(w, a).Some?
      && Bound(Delivery(Owner(w, a).value, a, Passed(w, d, target).npdu), After(w, d), target, level)
      && level(d.arrival.net) == level(a.net) + 1
  {
    Spoofless(w, d, target, level);
    AfterSameWays(w, d, target, level);
    assert RouterLevelled(w, target, level, d.node);
    var way := Way(w[d.node], target.net, target.mac).value;
    var a := Adapter(way.0.net, way.1);
    var id := Owner(w, a).value;
    var onward := Way(w[id], target.net, target.mac).value;
    assert level(a.net) == level(onward.0.net) + 1 && a != onward.0;
  }

  // ----- the target receives it

  /** A station takes the message, and learns the way back. */
  lemma StationTakes(n: Node, d: Delivery, target: Adapter)
    requires IsStation(n, target) && d.arrival == target
    requires d.npdu.dadr.None? && d.npdu.netMessage.None? && d.npdu.sadr.Some? && d.npdu.sadr.value.net != target.net
    ensures ValidNode(n)
    ensures Process(n, d.arrival, d.npdu) ==
      Handled(Knows(n, d), Some(Pdu(RemoteStation(d.npdu.sadr.value.net, d.npdu.sadr.value.mac), d.npdu.destination,
          d.npdu.data)),
              false, [], false)
  {
  }

  // ----- the whole way

  /** What the target is handed. */
  function Expected(d: Delivery, target: Adapter): Pdu {
    Pdu(RemoteStation(Originator(d).net, Originator(d).mac), Some(LocalStation(target.mac)), d.npdu.data)
  }

  predicate Reached(j: Journey, d: Delivery, target: Adapter, station: nat, level: nat) {
    && j.last.node == station && j.last.npdu.dadr.None? && j.last.npdu.sadr == Some(Originator(d))
    && j.handled.up == Some(Expected(d, target)) && |j.hops| == level
  }

  /** A journey that goes on is one hop and the rest of it. */
  lemma GoesOn(w: World, d: Delivery, next: Delivery)
    requires ValidWorld(w) && ValidDelivery(w, d)
    requires Follow(After(w, d), Process(w[d.node], d.arrival, d.npdu)) == Some(next)
    ensures ValidDelivery(After(w, d), next)
    ensures var j := Travel(w, d);
      var rest := Travel(After(w, d), next);
      && j.world == rest.world && j.last == rest.last && j.handled == rest.handled
      && j.hops == [Hop(d.node, d.arrival, d.npdu.source, Adapter(next.arrival.net, next.npdu.source))] + rest.hops
  {
  }

  lemma GoesNoFurther(w: World, d: Delivery)
    requires ValidWorld(w) && ValidDelivery(w, d) && Process(w[d.node], d.arrival, d.npdu).sent == []
    ensures Travel(w, d) == Journey(After(w, d), [], d, Process(w[d.node], d.arrival, d.npdu))
  {
  }

  /** From any router on its way, with hops for every level still to go, the message reaches the
      target: unicast there, no longer addressed to another network, and with
      the originator's network and address as its source. */
  lemma {:induction false} ReachesTarget(w: World, d: Delivery, target: Adapter, level: nat -> nat, station: nat)
    requires ValidWorld(w) && Unique(w) && Levelled(w, target, level) && Bound(d, w, target, level)
    requires station < |w| && IsStation(w[station], target)
    requires level(d.arrival.net) <= d.npdu.hopCount
    ensures Reached(Travel(w, d), d, target, station, level(d.arrival.net))
    decreases d.npdu.hopCount
  {
    Spoofless(w, d, target, level);
    NextStop(w, d, target, level, station);
    var v := After(w, d);
    var next := Follow(v, Process(w[d.node], d.arrival, d.npdu)).value;
    GoesOn(w, d, next);
    AfterSameWays(w, d, target, level);
    if Attached(w[d.node].adapters, target.net) {
      LastStop(w, d, target, level, station);
    } else {
      StillLevelled(w, v, target, level);
      StillUnique(w, v);
      ReachesTarget(v, next, target, level, station);
    }
  }

  lemma LastStop(w: World, d: Delivery, target: Adapter, level: nat -> nat, station: nat)
    requires ValidWorld(w) && Unique(w) && Levelled(w, target, level) && Bound(d, w, target, level)
    requires station < |w| && IsStation(w[station], target) && 0 < d.npdu.hopCount
    requires Attached(w[d.node].adapters, target.net)
    ensures var next := Delivery(station, target, Passed(w, d, target).npdu);
      && ValidDelivery(After(w, d), next) && level(d.arrival.net) == 1
      && Reached(Travel(After(w, d), next), d, target, station, 0)
      && Travel(After(w, d), next).hops == []
  {
    Spoofless(w, d, target, level);
    assert RouterLevelled(w, target, level, d.node);
    var next := Delivery(station, target, Passed(w, d, target).npdu);
    var v := After(w, d);
    assert v[station].adapters == [target];
    StationTakes(v[station], next, target);
    GoesNoFurther(v, next);
  }

  lemma LastLevel(w: World, d: Delivery, target: Adapter, level: nat -> nat)
    requires ValidWorld(w) && Levelled(w, target, level) && Bound(d, w, target, level)
    ensures Attached(w[d.node].adapters, target.net) ==> level(d.arrival.net) == 1
  {
    Spoofless(w, d, target, level);
  }

  predicate Stuck(j: Journey, w: World) {
    j.handled.up.None? && j.handled.sent == [] && j.last.node < |w| && IsRouter(w[j.last.node])
  }

  /** One step of a message that has another router before it. */
  lemma OnwardStep(w: World, d: Delivery, target: Adapter, level: nat -> nat, station: nat)
    requires ValidWorld(w) && Unique(w) && Levelled(w, target, level) && Bound(d, w, target, level)
    requires station < |w| && IsStation(w[station], target)
    requires 0 < d.npdu.hopCount && !Attached(w[d.node].adapters, target.net)
    ensures var v := After(w, d);
      var next := Follow(v, Process(w[d.node], d.arrival, d.npdu));
      && Unique(v) && Levelled(v, target, level) && IsStation(v[station], target)
      && next.Some? && Bound(next.value, v, target, level)
      && next.value.npdu == Passed(w, d, target).npdu && level(d.arrival.net) == level(next.value.arrival.net) + 1
      && next.value.arrival.net == Way(w[d.node], target.net, target.mac).value.0.net
  {
    NextStop(w, d, target, level, station);
    AfterSameWays(w, d, target, level);
    StillLevelled(w, After(w, d), target, level);
    StillUnique(w, After(w, d));
  }

  /** With fewer hops it ends at a router and is handed to nobody. */
  lemma {:induction false} FallsShort(w: World, d: Delivery, target: Adapter, level: nat -> nat, station: nat)
    requires ValidWorld(w) && Unique(w) && Levelled(w, target, level) && Bound(d, w, target, level)
    requires station < |w| && IsStation(w[station], target)
    requires d.npdu.hopCount < level(d.arrival.net)
    ensures Stuck(Travel(w, d), w)
    decreases d.npdu.hopCount
  {
    if d.npdu.hopCount == 0 {
      StopsHere(w, d, target, level);
    } else {
      LastLevel(w, d, target, level);
      OnwardStep(w, d, target, level, station);
      var v := After(w, d);
      var next := Follow(v, Process(w[d.node], d.arrival, d.npdu)).value;
      FallsShort(v, next, target, level, station);
      GoesOn(w, d, next);
    }
  }

  lemma StopsHere(w: World, d: Delivery, target: Adapter, level: nat -> nat)
    requires ValidWorld(w) && Levelled(w, target, level) && Bound(d, w, target, level) && d.npdu.hopCount == 0
    ensures Stuck(Travel(w, d), w) && Travel(w, d).world == After(w, d) && Travel(w, d).hops == []
  {
    RouterStep(w, d, target, level);
    GoesNoFurther(w, d);
  }

  // ----- the way back

  predicate Before(adapters: seq<Adapter>, j: nat, a: Adapter)
    requires j < |adapters|
  {
    a !in adapters[..j + 1]
  }

  /** Of the adapters before that one, in the order in which they were bound, none has a path to
      the network. */
  predicate NoneBefore(adapters: seq<Adapter>, paths: Paths, net: nat, a: Adapter) {
    forall j :: 0 <= j < |adapters| && Before(adapters, j, a) ==> (Some(adapters[j].net), net) !in paths
  }

  lemma NoneBeforeFirst(adapters: seq<Adapter>, paths: Paths, net: nat, a: Adapter)
    requires adapters != [] && adapters[0] != a
    ensures NoneBefore(adapters, paths, net, a)
       <==> (Some(adapters[0].net), net) !in paths && NoneBefore(adapters[1..], paths, net, a)
  {
    var rest := adapters[1..];
    forall j | 0 <= j < |rest| ensures Before(rest, j, a) <==> Before(adapters, j + 1, a) {
      assert adapters[..j + 2] == [adapters[0]] + rest[..j + 1];
    }
    assert forall j :: 0 <= j < |rest| ==> rest[j] == adapters[j + 1];
    assert adapters[..1] == [adapters[0]] && Before(adapters, 0, a);
    if NoneBefore(adapters, paths, net, a) {
      forall j | 0 <= j < |rest| && Before(rest, j, a) ensures (Some(rest[j].net), net) !in paths {
        assert Before(adapters, j + 1, a);
      }
    }
  }

  /** The path through an adapter is the one that is found exactly when no adapter before it has
      one. */
  lemma {:induction false} FirstPath(adapters: seq<Adapter>, paths: Paths, net: nat, a: Adapter)
    requires a in adapters && (Some(a.net), net) in paths
    ensures FindPath(adapters, paths, net) == Some((a, paths[(Some(a.net), net)].router))
       <==> NoneBefore(adapters, paths, net, a)
    decreases |adapters|
  {
    if adapters[0] != a {
      assert adapters == [adapters[0]] + adapters[1..];
      NoneBeforeFirst(adapters, paths, net, a);
      FirstPath(adapters[1..], paths, net, a);
    }
  }

  /** The routers that the caches name on the way to the target, and where each is reached; k is
      the most there can be. */
  function Route(w: World, id: nat, inward: Adapter, target: Adapter, k: nat): (route: seq<(nat, Adapter)>)
    requires id < |w|
    ensures forall s :: s in route ==> s.0 < |w|
    decreases k
  {
    if k == 0 then []
    else
      var way := Way(w[id], target.net, target.mac);
      if Attached(w[id].adapters, target.net) || way.None? then [(id, inward)]
      else
        var a := Adapter(way.value.0.net, way.value.1);
        match Owner(w, a)
        case None => [(id, inward)]
        case Some(next) => [(id, inward)] + Route(w, next, a, target, k - 1)
  }

  /** At every one of them but the first, which is on the network, no adapter before the one
      where it is reached has a path to that network. */
  predicate Unspoiled(w: World, route: seq<(nat, Adapter)>, first: bool, net: nat)
    requires forall s :: s in route ==> s.0 < |w|
  {
    forall i :: 0 <= i < |route| && (first ==> i != 0) ==>
      (assert route[i] in route; NoneBefore(w[route[i].0].adapters, w[route[i].0].paths, net, route[i].1))
  }

  lemma JoinUnspoiled(w: World, s: (nat, Adapter), route: seq<(nat, Adapter)>, first: bool, net: nat)
    requires s.0 < |w| && forall t :: t in route ==> t.0 < |w|
    ensures forall t :: t in [s] + route ==> t.0 < |w|
    ensures Unspoiled(w, [s] + route, first, net)
       <==> (first || NoneBefore(w[s.0].adapters, w[s.0].paths, net, s.1)) && Unspoiled(w, route, false, net)
  {
    var all := [s] + route;
    assert forall i :: 0 <= i < |route| ==> all[i + 1] == route[i];
    if Unspoiled(w, all, first, net) {
      forall i | 0 <= i < |route| ensures NoneBefore(w[route[i].0].adapters, w[route[i].0].paths, net, route[i].1) {
        assert all[i + 1] == route[i];
      }
      if !first { assert all[0] == s; }
    }
  }

  lemma {:induction false} SameRoute(w: World, v: World, id: nat, inward: Adapter, target: Adapter, k: nat)
    requires SameWays(w, v, target) && id < |w|
    ensures Route(v, id, inward, target, k) == Route(w, id, inward, target, k)
    decreases k
  {
    var way := Way(w[id], target.net, target.mac);
    if k > 0 && way.Some? {
      var a := Adapter(way.value.0.net, way.value.1);
      SameOwner(w, v, 0, a);
      if Owner(w, a).Some? { SameRoute(w, v, Owner(w, a).value, a, target, k - 1); }
    }
  }

  /** A router that is reached from outside. */
  predicate Facing(w: World, id: nat, inward: Adapter, target: Adapter) {
    && id < |w| && IsRouter(w[id]) && inward in w[id].adapters
    && Way(w[id], target.net, target.mac).Some? && inward != Way(w[id], target.net, target.mac).value.0
  }

  lemma NextIsFacing(w: World, id: nat, inward: Adapter, target: Adapter, level: nat -> nat)
    requires Levelled(w, target, level) && Facing(w, id, inward, target)
    ensures forall a :: a in w[id].adapters ==> level(a.net) <= level(inward.net)
    ensures !Attached(w[id].adapters, target.net) ==>
      var way := Way(w[id], target.net, target.mac).value;
      var b := Adapter(way.0.net, way.1);
      Owner(w, b).Some? && Facing(w, Owner(w, b).value, b, target) && level(b.net) < level(inward.net)
  {
    assert RouterLevelled(w, target, level, id);
  }

  /** A route leads inwards, so it does not come to a node that is further out. */
  lemma {:induction false} RouteAvoids(w: World, id: nat, inward: Adapter, target: Adapter, level: nat -> nat, k: nat,
                                       outer: nat, a: Adapter)
    requires Levelled(w, target, level) && Facing(w, id, inward, target)
    requires outer < |w| && a in w[outer].adapters && level(inward.net) < level(a.net)
    ensures forall s :: s in Route(w, id, inward, target, k) ==> s.0 != outer
    decreases k
  {
    NextIsFacing(w, id, inward, target, level);
    if k > 0 && !Attached(w[id].adapters, target.net) {
      var way := Way(w[id], target.net, target.mac).value;
      var b := Adapter(way.0.net, way.1);
      RouteAvoids(w, Owner(w, b).value, b, target, level, k - 1, outer, a);
    }
  }

  /** A node that sent the message on has a path back to the network it came from: the first
      is on that network, and any other goes through the adapter the message came in on, to
      the node that sent it there. */
  predicate LeadsBack(w: World, h: Hop, first: bool, net: nat) {
    && h.node < |w| && h.inward in w[h.node].adapters && h.outward in w[h.node].adapters && h.inward != h.outward
    && (first ==> h.inward.net == net)
    && (!first ==> !Attached(w[h.node].adapters, net)
                   && FindPath(w[h.node].adapters, w[h.node].paths, net) == Some((h.inward, h.from)))
  }

  /** Each hop starts where the one before it ended, at another adapter. */
  predicate Linked(hops: seq<Hop>) {
    forall i :: 0 < i < |hops| ==>
      hops[i - 1].outward == Adapter(hops[i].inward.net, hops[i].from) && hops[i].from != hops[i].inward.mac
  }

  predicate AllLeadBack(w: World, hops: seq<Hop>, first: bool, net: nat) {
    forall i :: 0 <= i < |hops| ==> LeadsBack(w, hops[i], first && i == 0, net)
  }

  /** The journey of a message at the last router. */
  lemma EndOfTheLine(w: World, d: Delivery, target: Adapter, level: nat -> nat, station: nat)
    requires ValidWorld(w) && Unique(w) && Levelled(w, target, level) && Bound(d, w, target, level)
    requires station < |w| && IsStation(w[station], target) && 0 < d.npdu.hopCount
    requires Attached(w[d.node].adapters, target.net)
    ensures var way := Way(w[d.node], target.net, target.mac).value;
      var next := Delivery(station, target, Passed(w, d, target).npdu);
      var j := Travel(w, d);
      && way.0.net == target.net && station != d.node && ValidDelivery(After(w, d), next)
      && j.hops == [Hop(d.node, d.arrival, d.npdu.source, way.0)] && j.last == next
      && j.world == After(After(w, d), next)
  {
    NextStop(w, d, target, level, station);
    LastStop(w, d, target, level, station);
    Spoofless(w, d, target, level);
    var next := Delivery(station, target, Passed(w, d, target).npdu);
    GoesOn(w, d, next);
    var v := After(w, d);
    assert v[station].adapters == [target];
    StationTakes(v[station], next, target);
    GoesNoFurther(v, next);
  }

  lemma {:induction false} OuterUntouched(w: World, d: Delivery, target: Adapter, level: nat -> nat, station: nat,
                                        i: nat, a: Adapter)
    requires ValidWorld(w) && Unique(w) && Levelled(w, target, level) && Bound(d, w, target, level)
    requires station < |w| && IsStation(w[station], target)
    requires i < |w| && a in w[i].adapters && level(d.arrival.net) < level(a.net)
    ensures Travel(w, d).world[i] == w[i]
    decreases d.npdu.hopCount
  {
    Spoofless(w, d, target, level);
    assert i != d.node;
    if d.npdu.hopCount == 0 {
      StopsHere(w, d, target, level);
    } else if Attached(w[d.node].adapters, target.net) {
      EndOfTheLine(w, d, target, level, station);
      assert i != station;
    } else {
      OnwardStep(w, d, target, level, station);
      var v := After(w, d);
      var next := Follow(v, Process(w[d.node], d.arrival, d.npdu)).value;
      GoesOn(w, d, next);
      OuterUntouched(v, next, target, level, station, i, a);
    }
  }

  /** The router that has just sent the message on leads back exactly when no earlier adapter of
      it has a path there already. */
  lemma HopLeadsBack(w: World, d: Delivery, target: Adapter, level: nat -> nat)
    requires ValidWorld(w) && Levelled(w, target, level) && Bound(d, w, target, level)
    ensures LeadsBack(After(w, d), Hop(d.node, d.arrival, d.npdu.source,
        Way(w[d.node], target.net, target.mac).value.0),
                      d.npdu.sadr.None?, Originator(d).net)
       <==> d.npdu.sadr.None? || NoneBefore(w[d.node].adapters, w[d.node].paths, Originator(d).net, d.arrival)
  {
    Spoofless(w, d, target, level);
    RouterStep(w, d, target, level);
    if d.npdu.sadr.Some? {
      var n, net := After(w, d)[d.node], d.npdu.sadr.value.net;
      FirstPath(n.adapters, n.paths, net, d.arrival);
      LearningKeepsEarlier(w[d.node], d, net);
    }
  }

  /** What is learned on an adapter is no path on an earlier one. */
  lemma LearningKeepsEarlier(n: Node, d: Delivery, net: nat)
    requires ValidNode(n) && d.arrival in n.adapters && d.npdu.sadr.Some? && d.npdu.sadr.value.net == net
    ensures NoneBefore(n.adapters, Knows(n, d), net, d.arrival) <==> NoneBefore(n.adapters, n.paths, net, d.arrival)
  {
    forall j | 0 <= j < |n.adapters| && Before(n.adapters, j, d.arrival)
      ensures (Some(n.adapters[j].net), net) in Knows(n, d) <==> (Some(n.adapters[j].net), net) in n.paths
    {
      assert n.adapters[j] in n.adapters[..j + 1];
      DistinctNets(n, n.adapters[j], d.arrival);
    }
  }

  /** What a journey leaves behind for the answer, at any rate. */
  predicate Track(j: Journey, d: Delivery, target: Adapter, station: nat) {
    && j.hops != [] && j.hops[0].inward == d.arrival && j.hops[0].from == d.npdu.source && j.hops[0].node == d.node
    && Linked(j.hops) && station < |j.world|
    && FindPath(j.world[station].adapters, j.world[station].paths, Originator(d).net)
       == Some((target, j.hops[|j.hops| - 1].outward.mac))
    && j.hops[|j.hops| - 1].outward.net == target.net
  }

  /** And what it leaves behind when every router leads back. */
  predicate Trail(j: Journey, d: Delivery, target: Adapter, station: nat) {
    Track(j, d, target, station) && AllLeadBack(j.world, j.hops, d.npdu.sadr.None?, Originator(d).net)
  }

  /** The route of a message, as the caches have it before. */
  function RouteOf(w: World, d: Delivery, target: Adapter, level: nat -> nat): (route: seq<(nat, Adapter)>)
    requires d.node < |w|
    ensures forall s :: s in route ==> s.0 < |w|
  {
    Route(w, d.node, d.arrival, target, level(d.arrival.net))
  }

  /** After the message has been delivered, the target has a path to the network of its
      originator, and every router on its way leads back there exactly when none of them has an
      older path on an earlier adapter. */
  lemma {:induction false} LeavesTrail(w: World, d: Delivery, target: Adapter, level: nat -> nat, station: nat)
    requires ValidWorld(w) && Unique(w) && Levelled(w, target, level) && Bound(d, w, target, level)
    requires station < |w| && IsStation(w[station], target)
    requires level(d.arrival.net) <= d.npdu.hopCount
    ensures Track(Travel(w, d), d, target, station)
    ensures Trail(Travel(w, d), d, target, station)
       <==> Unspoiled(w, RouteOf(w, d, target, level), d.npdu.sadr.None?, Originator(d).net)
    decreases d.npdu.hopCount
  {
    Spoofless(w, d, target, level);
    if Attached(w[d.node].adapters, target.net) {
      TrailEnds(w, d, target, level, station);
    } else {
      OnwardStep(w, d, target, level, station);
      var v := After(w, d);
      var next := Follow(v, Process(w[d.node], d.arrival, d.npdu)).value;
      LeavesTrail(v, next, target, level, station);
      RestOfRoute(w, d, target, level, station);
      TrailGoesOn(w, d, target, level, station, next);
    }
  }

  /** The route after the first router, and what its caches say, are the same before and after the
      message has been there. */
  lemma RestOfRoute(w: World, d: Delivery, target: Adapter, level: nat -> nat, station: nat)
    requires ValidWorld(w) && Unique(w) && Levelled(w, target, level) && Bound(d, w, target, level)
    requires station < |w| && IsStation(w[station], target) && 0 < d.npdu.hopCount
    requires !Attached(w[d.node].adapters, target.net)
    ensures var v := After(w, d);
      var next := Follow(v, Process(w[d.node], d.arrival, d.npdu));
      && next.Some? && next.value.node < |v|
      && var rest := RouteOf(v, next.value, target, level);
      && RouteOf(w, d, target, level) == [(d.node, d.arrival)] + rest
      && (Unspoiled(v, rest, false, Originator(d).net) <==> Unspoiled(w, rest, false, Originator(d).net))
  {
    OnwardStep(w, d, target, level, station);
    var v := After(w, d);
    var next := Follow(v, Process(w[d.node], d.arrival, d.npdu)).value;
    RouteGoesOn(w, d, target, level, station, next);
    RouteLeaves(v, next, target, level, d.node, d.arrival);
    SameCaches(w, v, d.node, RouteOf(v, next, target, level), Originator(d).net);
  }

  lemma RouteLeaves(v: World, next: Delivery, target: Adapter, level: nat -> nat, outer: nat, a: Adapter)
    requires Levelled(v, target, level) && Bound(next, v, target, level)
    requires outer < |v| && a in v[outer].adapters && level(next.arrival.net) < level(a.net)
    ensures forall s :: s in RouteOf(v, next, target, level) ==> s.0 != outer
  {
    RouteAvoids(v, next.node, next.arrival, target, level, level(next.arrival.net), outer, a);
  }

  lemma RouteGoesOn(w: World, d: Delivery, target: Adapter, level: nat -> nat, station: nat, next: Delivery)
    requires ValidWorld(w) && Unique(w) && Levelled(w, target, level) && Bound(d, w, target, level)
    requires station < |w| && IsStation(w[station], target) && 0 < d.npdu.hopCount
    requires !Attached(w[d.node].adapters, target.net) && level(d.arrival.net) == level(next.arrival.net) + 1
    requires Follow(After(w, d), Process(w[d.node], d.arrival, d.npdu)) == Some(next)
    ensures RouteOf(w, d, target, level) == [(d.node, d.arrival)] + RouteOf(After(w, d), next, target, level)
  {
    AfterSameWays(w, d, target, level);
    NextOfRoute(w, d, target, level, station, next);
    SameRoute(w, After(w, d), next.node, next.arrival, target, level(next.arrival.net));
  }

  lemma NextOfRoute(w: World, d: Delivery, target: Adapter, level: nat -> nat, station: nat, next: Delivery)
    requires ValidWorld(w) && Unique(w) && Levelled(w, target, level) && Bound(d, w, target, level)
    requires station < |w| && IsStation(w[station], target) && 0 < d.npdu.hopCount
    requires !Attached(w[d.node].adapters, target.net)
    requires Follow(After(w, d), Process(w[d.node], d.arrival, d.npdu)) == Some(next)
    ensures var way := Way(w[d.node], target.net, target.mac).value;
      next.arrival == Adapter(way.0.net, way.1) && Owner(w, next.arrival) == Some(next.node)
  {
    RouterStep(w, d, target, level);
    var way := Way(w[d.node], target.net, target.mac).value;
    SameOwner(w, After(w, d), 0, Adapter(way.0.net, way.1));
  }

  lemma SameCaches(w: World, v: World, id: nat, route: seq<(nat, Adapter)>, net: nat)
    requires |w| == |v| && (forall i :: 0 <= i < |w| && i != id ==> v[i] == w[i])
    requires forall s :: s in route ==> s.0 < |w| && s.0 != id
    ensures Unspoiled(v, route, false, net) <==> Unspoiled(w, route, false, net)
  {
    forall i | 0 <= i < |route| ensures v[route[i].0] == w[route[i].0] { assert route[i] in route; }
  }

  lemma TrailGoesOn(w: World, d: Delivery, target: Adapter, level: nat -> nat, station: nat, next: Delivery)
    requires ValidWorld(w) && Unique(w) && Levelled(w, target, level) && Bound(d, w, target, level)
    requires station < |w| && IsStation(w[station], target) && 0 < d.npdu.hopCount
    requires !Attached(w[d.node].adapters, target.net)
    requires Follow(After(w, d), Process(w[d.node], d.arrival, d.npdu)) == Some(next)
    requires ValidDelivery(After(w, d), next)
    requires var v := After(w, d);
      var rest := RouteOf(v, next, target, level);
      && Track(Travel(v, next), next, target, station)
      && (Trail(Travel(v, next), next, target, station) <==> Unspoiled(v, rest, false, Originator(d).net))
      && RouteOf(w, d, target, level) == [(d.node, d.arrival)] + rest
      && (Unspoiled(v, rest, false, Originator(d).net) <==> Unspoiled(w, rest, false, Originator(d).net))
    ensures Track(Travel(w, d), d, target, station)
    ensures Trail(Travel(w, d), d, target, station)
       <==> Unspoiled(w, RouteOf(w, d, target, level), d.npdu.sadr.None?, Originator(d).net)
  {
    OnwardStep(w, d, target, level, station);
    Spoofless(w, d, target, level);
    var v := After(w, d);
    var rest := Travel(v, next);
    var hop := Hop(d.node, d.arrival, d.npdu.source, Adapter(next.arrival.net, next.npdu.source));
    GoesOn(w, d, next);
    HopLeadsBack(w, d, target, level);
    OuterUntouched(v, next, target, level, station, d.node, d.arrival);
    JoinTrack(Travel(w, d), rest, hop, d, next, target, station);
    JoinLeadsBack(rest.world, hop, rest.hops, d.npdu.sadr.None?, Originator(d).net);
    JoinUnspoiled(w, (d.node, d.arrival), RouteOf(v, next, target, level), d.npdu.sadr.None?, Originator(d).net);
    assert hop.outward == Way(w[d.node], target.net, target.mac).value.0;
  }

  lemma JoinLinked(hop: Hop, hops: seq<Hop>)
    requires Linked(hops) && hops != [] && hop.outward == Adapter(hops[0].inward.net, hops[0].from)
    requires hops[0].from != hops[0].inward.mac
    ensures Linked([hop] + hops)
  {
    var all := [hop] + hops;
    forall i | 0 < i < |all|
      ensures all[i - 1].outward == Adapter(all[i].inward.net, all[i].from) && all[i].from != all[i].inward.mac
    {
      if 1 < i { assert all[i] == hops[i - 1] && all[i - 1] == hops[i - 2]; }
    }
  }

  lemma JoinLeadsBack(w: World, hop: Hop, hops: seq<Hop>, first: bool, net: nat)
    ensures AllLeadBack(w, [hop] + hops, first, net)
        <==> LeadsBack(w, hop, first, net) && AllLeadBack(w, hops, false, net)
  {
    var all := [hop] + hops;
    assert all[0] == hop && forall i :: 0 <= i < |hops| ==> all[i + 1] == hops[i];
    if AllLeadBack(w, all, first, net) {
      forall i | 0 <= i < |hops| ensures LeadsBack(w, hops[i], false, net) {
        assert LeadsBack(w, all[i + 1], false, net);
      }
    }
  }

  lemma JoinTrack(j: Journey, rest: Journey, hop: Hop, d: Delivery, next: Delivery, target: Adapter, station: nat)
    requires j.hops == [hop] + rest.hops && j.world == rest.world
    requires Track(rest, next, target, station) && next.npdu.sadr == Some(Originator(d))
    requires hop.node == d.node && hop.inward == d.arrival && hop.from == d.npdu.source
    requires hop.outward == Adapter(next.arrival.net, next.npdu.source) && next.npdu.source != next.arrival.mac
    ensures Track(j, d, target, station)
  {
    JoinLinked(hop, rest.hops);
    assert j.hops[|j.hops| - 1] == rest.hops[|rest.hops| - 1];
  }

  lemma TrailEnds(w: World, d: Delivery, target: Adapter, level: nat -> nat, station: nat)
    requires ValidWorld(w) && Unique(w) && Levelled(w, target, level) && Bound(d, w, target, level)
    requires station < |w| && IsStation(w[station], target) && 0 < d.npdu.hopCount
    requires Attached(w[d.node].adapters, target.net)
    ensures Track(Travel(w, d), d, target, station)
    ensures Trail(Travel(w, d), d, target, station)
       <==> Unspoiled(w, RouteOf(w, d, target, level), d.npdu.sadr.None?, Originator(d).net)
  {
    Spoofless(w, d, target, level);
    EndOfTheLine(w, d, target, level, station);
    var j := Travel(w, d);
    HopLeadsBack(w, d, target, level);
    StationLearns(After(w, d), j.last, target);
    JoinUnspoiled(w, (d.node, d.arrival), [], d.npdu.sadr.None?, Originator(d).net);
    JoinLeadsBack(j.world, j.hops[0], [], d.npdu.sadr.None?, Originator(d).net);
    assert j.hops == [j.hops[0]] + [] && RouteOf(w, d, target, level) == [(d.node, d.arrival)] + [];
    assert j.world[d.node] == After(w, d)[d.node];
  }

  lemma StationLearns(v: World, d: Delivery, target: Adapter)
    requires ValidWorld(v) && ValidDelivery(v, d) && IsStation(v[d.node], target) && d.arrival == target
    requires d.npdu.dadr.None? && d.npdu.netMessage.None? && d.npdu.sadr.Some? && d.npdu.sadr.value.net != target.net
    ensures var n := After(v, d)[d.node];
      FindPath(n.adapters, n.paths, d.npdu.sadr.value.net) == Some((target, d.npdu.source))
  {
    StationTakes(v[d.node], d, target);
    var n := After(v, d)[d.node];
    FirstPath(n.adapters, n.paths, d.npdu.sadr.value.net, target);
    assert n.adapters[..1] == [target];
  }

  // ----- the answer

  /** A router that is not the target passes on what is for it. */
  lemma AnswerStep(n: Node, d: Delivery, home: Adapter)
    requires ValidNode(n) && IsRouter(n) && d.arrival in n.adapters && home !in n.adapters && d.arrival.net != home.net
    requires d.npdu.dadr == Some(RemoteStation(home.net, home.mac)) && d.npdu.netMessage.None? && 0 < d.npdu.hopCount
    requires Way(n, home.net, home.mac).Some? && d.arrival != Way(n, home.net, home.mac).value.0
    requires d.npdu.sadr.Some? ==> d.npdu.sadr.value.net != home.net && !Attached(n.adapters, d.npdu.sadr.value.net)
    ensures var way := Way(n, home.net, home.mac).value;
      var next := Onward(d.arrival, d.npdu);
      Process(n, d.arrival, d.npdu) ==
        Handled(Knows(n, d), None, false,
                [Put(way.0, if Attached(n.adapters, home.net) then next.(dadr := None)
                    else next, LocalStation(way.1))], false)
  {
    var now := n.(paths := Knows(n, d));
    SameWay(n, now, home);
    PassesOn(now, d, home);
  }

  /** An answer on its way back along the hops: about to be received by the last of them, on the
      adapter on which that sent the message. */
  ghost predicate Returning(w: World, hops: seq<Hop>, d: Delivery, home: Adapter) {
    && hops != [] && Linked(hops) && AllLeadBack(w, hops, true, home.net)
    && d.node == hops[|hops| - 1].node && d.arrival == hops[|hops| - 1].outward
    && d.npdu.dadr == Some(RemoteStation(home.net, home.mac)) && d.npdu.netMessage.None?
    && Originator(d).net != home.net
    && (forall h :: h in hops ==> h.node < |w| && IsRouter(w[h.node]) && home !in w[h.node].adapters)
    && (forall h :: h in hops[..|hops| - 1] ==> !Attached(w[h.node].adapters, Originator(d).net))
    && (d.npdu.sadr.Some? ==> !Attached(w[d.node].adapters, Originator(d).net))
  }

  lemma ReturnWay(w: World, hops: seq<Hop>, d: Delivery, home: Adapter)
    requires ValidWorld(w) && Returning(w, hops, d, home)
    ensures ValidDelivery(w, d) && d.arrival.net != home.net
    ensures var last := hops[|hops| - 1];
      Way(w[d.node], home.net, home.mac) == Some((last.inward, if |hops| == 1 then home.mac else last.from))
      && d.arrival != last.inward && (Attached(w[d.node].adapters, home.net) <==> |hops| == 1)
  {
    var last := hops[|hops| - 1];
    assert LeadsBack(w, last, |hops| == 1, home.net);
    assert w[d.node] in w;
    DistinctNets(w[d.node], last.inward, last.outward);
    if |hops| == 1 {
      var a := AdapterOn(w[d.node].adapters, home.net);
      if a.value != last.inward { DistinctNets(w[d.node], a.value, last.inward); }
    }
  }

  /** The next stop of an answer: home, or the hop before. */
  lemma AnswerNext(w: World, hops: seq<Hop>, d: Delivery, home: Adapter, owner: nat)
    requires ValidWorld(w) && Unique(w) && Returning(w, hops, d, home) && 0 < d.npdu.hopCount
    requires owner < |w| && home in w[owner].adapters
    ensures var last := hops[|hops| - 1];
      var next := Onward(d.arrival, d.npdu);
      var v := After(w, d);
      && v[d.node].paths == Knows(w[d.node], d)
      && Follow(v, Process(w[d.node], d.arrival, d.npdu)) == Some(
           if |hops| == 1 then
             Delivery(owner, home, Put(last.inward, next.(dadr := None), LocalStation(home.mac)).npdu)
           else
             Delivery(hops[|hops| - 2].node, hops[|hops| - 2].outward,
                 Put(last.inward, next, LocalStation(last.from)).npdu))
  {
    ReturnWay(w, hops, d, home);
    var last := hops[|hops| - 1];
    assert last in hops && w[d.node] in w;
    AnswerStep(w[d.node], d, home);
    var v := After(w, d);
    StillUnique(w, v);
    if |hops| == 1 {
      OwnerFound(v, 0, owner, home);
    } else {
      var prior := hops[|hops| - 2];
      assert prior.outward == Adapter(last.inward.net, last.from);
      assert LeadsBack(w, prior, |hops| == 2, home.net);
      OwnerFound(v, 0, prior.node, prior.outward);
    }
  }

  /** What the answer teaches on its way does not change the way home. */
  lemma StillLeadsBack(w: World, d: Delivery, hops: seq<Hop>, net: nat)
    requires ValidWorld(w) && ValidDelivery(w, d) && After(w, d)[d.node].paths == Knows(w[d.node], d)
    requires AllLeadBack(w, hops, true, net) && Originator(d).net != net
    ensures AllLeadBack(After(w, d), hops, true, net)
  {
    var v := After(w, d);
    forall i | 0 <= i < |hops| ensures LeadsBack(v, hops[i], i == 0, net) {
      assert LeadsBack(w, hops[i], i == 0, net);
      SamePath(w[hops[i].node].adapters, w[hops[i].node].paths, v[hops[i].node].paths, net);
    }
  }

  lemma StillReturning(w: World, hops: seq<Hop>, d: Delivery, home: Adapter, owner: nat, next: Delivery)
    requires ValidWorld(w) && Unique(w) && Returning(w, hops, d, home) && 0 < d.npdu.hopCount && 1 < |hops|
    requires owner < |w| && home in w[owner].adapters
    requires Follow(After(w, d), Process(w[d.node], d.arrival, d.npdu)) == Some(next)
    ensures Returning(After(w, d), hops[..|hops| - 1], next, home)
    ensures Originator(next) == Originator(d) && next.npdu.data == d.npdu.data
    ensures next.npdu.hopCount == d.npdu.hopCount - 1
  {
    var v := After(w, d);
    AnswerNext(w, hops, d, home, owner);
    StillLeadsBack(w, d, hops, home.net);
    Shortened(v, hops, home.net);
    assert hops[|hops| - 2] in hops[..|hops| - 1];
  }

  lemma Shortened(w: World, hops: seq<Hop>, net: nat)
    requires 1 < |hops| && Linked(hops) && AllLeadBack(w, hops, true, net)
    ensures var rest := hops[..|hops| - 1];
      && Linked(rest) && AllLeadBack(w, rest, true, net) && (forall h :: h in rest ==> h in hops)
      && forall h :: h in rest[..|rest| - 1] ==> h in rest
  {
    var rest := hops[..|hops| - 1];
    forall i | 0 <= i < |rest| ensures LeadsBack(w, rest[i], i == 0, net) { assert LeadsBack(w, hops[i], i == 0, net); }
  }

  /** An answer with enough hops goes back along the hops, one by one, and is handed to the
      station the message came from. */
  lemma {:induction false} AnswerReturns(w: World, hops: seq<Hop>, d: Delivery, home: Adapter, owner: nat)
    requires ValidWorld(w) && Unique(w) && Returning(w, hops, d, home) && |hops| <= d.npdu.hopCount
    requires owner < |w| && IsStation(w[owner], home)
    ensures ValidDelivery(w, d) && Reached(Travel(w, d), d, home, owner, |hops|)
    decreases |hops|
  {
    ReturnWay(w, hops, d, home);
    AnswerNext(w, hops, d, home, owner);
    var v := After(w, d);
    var next := Follow(v, Process(w[d.node], d.arrival, d.npdu)).value;
    GoesOn(w, d, next);
    if |hops| == 1 {
      assert v[owner].adapters == [home];
      StationTakes(v[owner], next, home);
      GoesNoFurther(v, next);
    } else {
      StillUnique(w, v);
      StillReturning(w, hops, d, home, owner, next);
      AnswerReturns(v, hops[..|hops| - 1], next, home, owner);
    }
  }

  // ----- there and back

  /** A request from one station to another, as the first router receives it. */
  function Request(w: World, home: Adapter, router: nat, entry: Adapter, target: Adapter, data: Bytes): Delivery {
    Delivery(router, entry, Npdu(home.mac, Some(LocalStation(entry.mac)), Some(RemoteStation(target.net, target.mac)),
                                 None, 255, None, data))
  }

  /** What a station sends to another network goes to the router its cache names, and to no other. */
  lemma StationSends(n: Node, home: Adapter, target: Adapter, router: Mac, data: Bytes)
    requires IsStation(n, home) && home.net != target.net
    ensures ValidNode(n)
    ensures var npdu := Npdu(home.mac, Some(LocalStation(router)), Some(RemoteStation(target.net, target.mac)),
                             None, 255, None, data);
      Indicate(n, RemoteStation(target.net, target.mac), data) == Sending([Sent(home.net, npdu)], false)
      <==> FindPath(n.adapters, n.paths, target.net) == Some((home, router))
  {
  }

  /** The answer to a request that has been delivered, as the last router on its way receives it. */
  function Reply(j: Journey, home: Adapter, target: Adapter, data: Bytes): Delivery
    requires j.hops != []
  {
    var last := j.hops[|j.hops| - 1];
    Delivery(last.node, last.outward,
             Npdu(target.mac, Some(LocalStation(last.outward.mac)), Some(RemoteStation(home.net, home.mac)), None,
                 255, None, data))
  }

  /** The nodes of the hops are routers, and only the last is on the network. */
  predicate RoutersBefore(w: World, hops: seq<Hop>, net: nat) {
    && (forall h :: h in hops ==> h.node < |w| && IsRouter(w[h.node]))
    && (forall i :: 0 <= i < |hops| - 1 ==> !Attached(w[hops[i].node].adapters, net))
  }

  lemma JoinRouters(w: World, hop: Hop, hops: seq<Hop>, net: nat)
    requires RoutersBefore(w, hops, net) && hop.node < |w| && IsRouter(w[hop.node])
    requires !Attached(w[hop.node].adapters, net)
    ensures RoutersBefore(w, [hop] + hops, net)
  {
    var all := [hop] + hops;
    forall i | 0 <= i < |all| - 1 ensures !Attached(w[all[i].node].adapters, net) {
      if 0 < i { assert all[i] == hops[i - 1]; }
    }
  }

  lemma SameRouters(w: World, v: World, hops: seq<Hop>, net: nat)
    requires RoutersBefore(v, hops, net) && SameNodes(w, v)
    ensures RoutersBefore(w, hops, net)
  {
  }

  lemma {:induction false} HopsAreRouters(w: World, d: Delivery, target: Adapter, level: nat -> nat, station: nat)
    requires ValidWorld(w) && Unique(w) && Levelled(w, target, level) && Bound(d, w, target, level)
    requires station < |w| && IsStation(w[station], target)
    ensures RoutersBefore(w, Travel(w, d).hops, target.net)
    decreases d.npdu.hopCount
  {
    if d.npdu.hopCount == 0 {
      StopsHere(w, d, target, level);
    } else if Attached(w[d.node].adapters, target.net) {
      EndOfTheLine(w, d, target, level, station);
    } else {
      OnwardStep(w, d, target, level, station);
      var v := After(w, d);
      var next := Follow(v, Process(w[d.node], d.arrival, d.npdu)).value;
      HopsAreRouters(v, next, target, level, station);
      SameRouters(w, v, Travel(v, next).hops, target.net);
      JoinRouters(w, Hop(d.node, d.arrival, d.npdu.source, Adapter(next.arrival.net, next.npdu.source)),
                  Travel(v, next).hops, target.net);
      GoesOn(w, d, next);
    }
  }

  lemma {:induction false} TravelKeepsNodes(w: World, d: Delivery)
    requires ValidWorld(w) && ValidDelivery(w, d)
    ensures ValidWorld(Travel(w, d).world) && SameNodes(w, Travel(w, d).world)
    decreases d.npdu.hopCount
  {
    var next := Follow(After(w, d), Process(w[d.node], d.arrival, d.npdu));
    if next.Some? {
      ForwardedCopies(w[d.node], d.arrival, d.npdu, Process(w[d.node], d.arrival, d.npdu).sent[0]);
      TravelKeepsNodes(After(w, d), next.value);
    }
  }

  /** The setting of a conversation between two stations of different networks. */
  ghost predicate Setting(w: World, home: Adapter, owner: nat, router: nat, entry: Adapter, target: Adapter,
                          station: nat, level: nat -> nat) {
    && ValidWorld(w) && Unique(w) && Levelled(w, target, level)
    && owner < |w| && IsStation(w[owner], home) && station < |w| && IsStation(w[station], target)
    && router < |w| && IsRouter(w[router]) && entry in w[router].adapters && entry.net == home.net != target.net
    && Way(w[router], target.net, target.mac).Some? && entry != Way(w[router], target.net, target.mac).value.0
    && level(home.net) <= 255
  }

  /** A request is handed to the station it is for, with the originator's network and address,
      and the answer is handed to the originator, along the same routers in reverse. The request
      goes to the router if and only if the originator's cache names that router. Nothing need
      be known beforehand about the originator's network but that no router on the way, after the
      first, has an older path there on an adapter before the one where the request comes in. */
  lemma RequestAndAnswer(w: World, home: Adapter, owner: nat, router: nat, entry: Adapter, target: Adapter,
                         station: nat, level: nat -> nat, data: Bytes, answer: Bytes)
    requires Setting(w, home, owner, router, entry, target, station, level)
    requires var d := Request(w, home, router, entry, target, data);
      Unspoiled(w, RouteOf(w, d, target, level), true, home.net)
    ensures var d := Request(w, home, router, entry, target, data);
      && ValidDelivery(w, d)
      && (Indicate(w[owner], RemoteStation(target.net, target.mac), data) == Sending([Sent(home.net, d.npdu)], false)
          <==> FindPath(w[owner].adapters, w[owner].paths, target.net) == Some((home, entry.mac)))
    ensures var j := Travel(w, Request(w, home, router, entry, target, data));
      && j.last.node == station && |j.hops| == level(home.net)
      && ValidWorld(j.world) && IsStation(j.world[station], target)
      && j.handled.up == Some(Pdu(RemoteStation(home.net, home.mac), Some(LocalStation(target.mac)), data))
      && j.hops != []
      && var d := Reply(j, home, target, answer);
      && Indicate(j.world[station], RemoteStation(home.net, home.mac), answer)
          == Sending([Sent(target.net, d.npdu)], false)
      && ValidDelivery(j.world, d)
      && var back := Travel(j.world, d);
      && back.last.node == owner && |back.hops| == |j.hops|
      && back.handled.up == Some(Pdu(RemoteStation(target.net, target.mac), Some(LocalStation(home.mac)), answer))
  {
    var d := Request(w, home, router, entry, target, data);
    var j := Travel(w, d);
    ReachesTarget(w, d, target, level, station);
    LeavesTrail(w, d, target, level, station);
    TravelKeepsNodes(w, d);
    StationSends(w[owner], home, target, entry.mac, data);
    StationSends(j.world[station], target, home, j.hops[|j.hops| - 1].outward.mac, answer);
    HopsAreRouters(w, d, target, level, station);
    SameRouters(j.world, w, j.hops, target.net);
    NotHome(w, j.world, j.hops, home, owner, target.net);
    AnswerSetsOut(j, d, home, target, station, answer);
    StillUnique(w, j.world);
    AnswerReturns(j.world, j.hops, Reply(j, home, target, answer), home, owner);
  }

  lemma AnswerSetsOut(j: Journey, d: Delivery, home: Adapter, target: Adapter, station: nat, answer: Bytes)
    requires Trail(j, d, target, station) && d.npdu.sadr.None? && Originator(d).net == home.net
    requires home.net != target.net
    requires RoutersBefore(j.world, j.hops, target.net)
    requires forall h :: h in j.hops ==> home !in j.world[h.node].adapters
    ensures Returning(j.world, j.hops, Reply(j, home, target, answer), home)
  {
    var hops := j.hops;
    forall h | h in hops[..|hops| - 1] ensures !Attached(j.world[h.node].adapters, target.net) {
      var i :| 0 <= i < |hops| - 1 && hops[i] == h;
    }
  }

  /** A router is not a station. */
  lemma NotHome(w: World, v: World, hops: seq<Hop>, home: Adapter, owner: nat, net: nat)
    requires Unique(w) && SameNodes(w, v) && owner < |w| && IsStation(w[owner], home) && RoutersBefore(v, hops, net)
    ensures forall h :: h in hops ==> home !in v[h.node].adapters
  {
    forall h | h in hops ensures home !in v[h.node].adapters {
      assert home in w[owner].adapters;
    }
  }

  /** A smallest such setting: two stations, and a router between their networks. */
  lemma SmallestSetting(home: Mac, target: Mac, near: Mac, far: Mac)
    requires home != near && target != far
    ensures var w := [Node([Adapter(1, home)], 0, true, map[]),
                      Node([Adapter(1, near), Adapter(2, far)], 0, false, map[]),
                      Node([Adapter(2, target)], 0, true, map[])];
      && Setting(w, Adapter(1, home), 0, 1, Adapter(1, near), Adapter(2, target), 2, net => if net == 2 then 0 else 1)
      && forall level: nat -> nat ::
        Unspoiled(w, RouteOf(w, Request(w, Adapter(1, home), 1, Adapter(1, near), Adapter(2, target), []),
            Adapter(2, target), level),
                  true, 1)
  {
    var level := net => if net == 2 then 0 else 1;
    var w := [Node([Adapter(1, home)], 0, true, map[]),
              Node([Adapter(1, near), Adapter(2, far)], 0, false, map[]),
              Node([Adapter(2, target)], 0, true, map[])];
    var d := Request(w, Adapter(1, home), 1, Adapter(1, near), Adapter(2, target), []);
    assert w[1].adapters[1..] == [Adapter(2, far)];
    assert Adapter(1, near) in w[1].adapters && Adapter(2, far) in w[1].adapters;
    assert RouterLevelled(w, Adapter(2, target), level, 1);
    forall level: nat -> nat ensures Unspoiled(w, RouteOf(w, d, Adapter(2, target), level), true, 1) {
      assert |RouteOf(w, d, Adapter(2, target), level)| <= 1;
    }
  }
}
