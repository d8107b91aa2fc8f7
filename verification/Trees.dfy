/** Trees of networks: a tree whose caches point towards the target is a network in levels. */
module Trees {
  import opened Apdus
  import opened RouterCache
  import opened Routing
  import opened Forwarding
  import opened Journeys
  import opened Conversations

  /** The network is the target's, or one of those routers is on it. */
  predicate Within(w: World, target: Adapter, routers: seq<nat>, net: nat) {
    net == target.net || exists id :: id in routers && id < |w| && Attached(w[id].adapters, net)
  }

  /** Router number k of a tree that grows from the target's network: with its way to the target
      it is on a network that is there already, and it brings all its other networks. Its cache
      names the router that brought the network of its way. */
  predicate Branches(w: World, target: Adapter, order: seq<nat>, k: nat)
    requires k < |order| && order[k] < |w|
  {
    var n := w[order[k]];
    var way := Way(n, target.net, target.mac);
    && way.Some? && Within(w, target, order[..k], way.value.0.net)
    && (forall a :: a in n.adapters && a != way.value.0 ==> !Within(w, target, order[..k], a.net))
    && (if Attached(n.adapters, target.net) then target !in n.adapters
        else exists j :: 0 <= j < k && Brought(w, target, order, j, way.value.0.net)
               && Owner(w, Adapter(way.value.0.net, way.value.1)) == Some(order[j]))
  }

  /** Router number j is the first on the network. */
  predicate Brought(w: World, target: Adapter, order: seq<nat>, j: nat, net: nat)
    requires j < |order|
  {
    order[j] < |w| && Attached(w[order[j]].adapters, net) && !Within(w, target, order[..j], net)
  }

  /** The routers, in an order in which a tree grows outwards from the target's network. */
  predicate Tree(w: World, target: Adapter, order: seq<nat>) {
    && (forall i :: 0 <= i < |w| && IsRouter(w[i]) ==> i in order)
    && (forall k :: 0 <= k < |order| ==> order[k] < |w| && IsRouter(w[order[k]]) && Branches(w, target, order, k))
  }

  /** The distance of a network from the target's, in routers, in the tree of the first k. */
  function Distance(w: World, target: Adapter, order: seq<nat>, k: nat, net: nat): nat
    requires k <= |order|
  {
    if k == 0 then 0
    else if Brought(w, target, order, k - 1, net) then
      var way := Way(w[order[k - 1]], target.net, target.mac);
      if way.Some? then Distance(w, target, order, k - 1, way.value.0.net) + 1 else 0
    else Distance(w, target, order, k - 1, net)
  }

  lemma {:induction false} DistanceBounded(w: World, target: Adapter, order: seq<nat>, k: nat, net: nat)
    requires k <= |order|
    ensures Distance(w, target, order, k, net) <= k
  {
    if k > 0 {
      if Brought(w, target, order, k - 1, net) {
        var way := Way(w[order[k - 1]], target.net, target.mac);
        if way.Some? { DistanceBounded(w, target, order, k - 1, way.value.0.net); }
      } else {
        DistanceBounded(w, target, order, k - 1, net);
      }
    }
  }

  lemma WithinMore(w: World, target: Adapter, order: seq<nat>, k: nat, m: nat, net: nat)
    requires k <= m <= |order| && Within(w, target, order[..k], net)
    ensures Within(w, target, order[..m], net)
  {
    if net != target.net {
      var id :| id in order[..k] && id < |w| && Attached(w[id].adapters, net);
      assert id in order[..m];
    }
  }

  /** The distance of a network that is there does not change as the tree grows. */
  lemma {:induction false} DistanceStays(w: World, target: Adapter, order: seq<nat>, k: nat, m: nat, net: nat)
    requires k <= m <= |order| && Within(w, target, order[..k], net)
    ensures Distance(w, target, order, m, net) == Distance(w, target, order, k, net)
    decreases m
  {
    if k < m {
      WithinMore(w, target, order, k, m - 1, net);
      DistanceStays(w, target, order, k, m - 1, net);
    }
  }

  /** A network that router k brought is one further out than the router's way. */
  lemma BroughtIsFurther(w: World, target: Adapter, order: seq<nat>, k: nat, net: nat)
    requires k < |order| && order[k] < |w| && Branches(w, target, order, k) && Brought(w, target, order, k, net)
    ensures var way := Way(w[order[k]], target.net, target.mac).value;
      Distance(w, target, order, |order|, net) == Distance(w, target, order, |order|, way.0.net) + 1
  {
    var way := Way(w[order[k]], target.net, target.mac).value;
    assert order[k] in order[..k + 1];
    assert Within(w, target, order[..k + 1], net);
    DistanceStays(w, target, order, k + 1, |order|, net);
    DistanceStays(w, target, order, k, |order|, way.0.net);
  }

  lemma OuterOfRouter(w: World, target: Adapter, order: seq<nat>, k: nat, a: Adapter)
    requires Tree(w, target, order) && k < |order| && a in w[order[k]].adapters
    ensures Branches(w, target, order, k)
    ensures var way := Way(w[order[k]], target.net, target.mac).value;
      a != way.0 ==> Distance(w, target, order, |order|, a.net) == Distance(w, target, order, |order|, way.0.net) + 1
  {
    var way := Way(w[order[k]], target.net, target.mac).value;
    if a != way.0 {
      assert Brought(w, target, order, k, a.net);
      BroughtIsFurther(w, target, order, k, a.net);
    }
  }

  /** The router that the cache names, and how far its own way is. */
  lemma InnerOfRouter(w: World, target: Adapter, order: seq<nat>, k: nat)
    requires Tree(w, target, order) && k < |order| && !Attached(w[order[k]].adapters, target.net)
    ensures Branches(w, target, order, k)
    ensures var way := Way(w[order[k]], target.net, target.mac).value;
      var next := Owner(w, Adapter(way.0.net, way.1));
      && next.Some? && IsRouter(w[next.value])
      && var onward := Way(w[next.value], target.net, target.mac);
        onward.Some? && Distance(w, target, order, |order|, way.0.net)
            == Distance(w, target, order, |order|, onward.value.0.net) + 1
  {
    assert Branches(w, target, order, k);
    var way := Way(w[order[k]], target.net, target.mac).value;
    var j :| 0 <= j < k && Brought(w, target, order, j, way.0.net)
        && Owner(w, Adapter(way.0.net, way.1)) == Some(order[j]);
    assert Branches(w, target, order, j);
    BroughtIsFurther(w, target, order, j, way.0.net);
  }

  lemma RouterOfTree(w: World, target: Adapter, order: seq<nat>, k: nat, level: nat -> nat)
    requires Tree(w, target, order) && k < |order|
    requires forall net :: level(net) == Distance(w, target, order, |order|, net)
    ensures RouterLevelled(w, target, level, order[k])
  {
    var n := w[order[k]];
    assert Branches(w, target, order, k);
    forall a | a in n.adapters
      ensures a != Way(n, target.net, target.mac).value.0
          ==> level(a.net) == level(Way(n, target.net, target.mac).value.0.net) + 1
    {
      OuterOfRouter(w, target, order, k, a);
    }
    if !Attached(n.adapters, target.net) { InnerOfRouter(w, target, order, k); }
  }

  /** A tree of networks whose caches point towards the target is in levels, the level of a
      network being its distance from the target's. */
  lemma TreeIsLevelled(w: World, target: Adapter, order: seq<nat>, level: nat -> nat)
    requires Tree(w, target, order)
    requires forall net :: level(net) == Distance(w, target, order, |order|, net)
    ensures Levelled(w, target, level)
    ensures forall net :: level(net) <= |order|
  {
    DistanceStays(w, target, order, 0, |order|, target.net);
    forall i | 0 <= i < |w| && IsRouter(w[i]) ensures RouterLevelled(w, target, level, i) {
      var k :| 0 <= k < |order| && order[k] == i;
      RouterOfTree(w, target, order, k, level);
    }
    forall net ensures level(net) <= |order| { DistanceBounded(w, target, order, |order|, net); }
  }

  /** On a tree of no more routers than the message has hops, every request reaches its target and nobody else. */
  lemma TreeDelivers(w: World, d: Delivery, target: Adapter, order: seq<nat>, station: nat, picks: seq<nat>)
    requires ValidWorld(w) && Unique(w) && Tree(w, target, order) && |order| <= d.npdu.hopCount
    requires station < |w| && IsStation(w[station], target)
    requires ValidDelivery(w, d) && IsRouter(w[d.node]) && d.npdu.sadr.None? && d.npdu.netMessage.None?
    requires d.npdu.dadr == Some(RemoteStation(target.net, target.mac))
    requires Way(w[d.node], target.net, target.mac).Some? && d.arrival != Way(w[d.node], target.net, target.mac).value.0
    requires Happens(Alone(w, d), picks)
    ensures HandedUp(Alone(w, d), picks)
         == if Ran(Alone(w, d), picks).flight == [] then [(station, Expected(d, target))] else []
  {
    var level := (net: nat) => Distance(w, target, order, |order|, net);
    TreeIsLevelled(w, target, order, level);
    ReachesOnlyTarget(w, d, target, level, station, picks);
  }

  /** A whole conversation on a tree: request and answer are handed to the two stations, and
      nothing to anyone else, if no router on the way has an older path to the originator's
      network on an earlier adapter. */
  lemma TreeConversation(w: World, home: Adapter, owner: nat, router: nat, entry: Adapter, target: Adapter,
                         station: nat, order: seq<nat>, level: nat -> nat, data: Bytes, answer: Bytes,
                         there: seq<nat>, back: seq<nat>)
    requires ValidWorld(w) && Unique(w) && Tree(w, target, order) && |order| <= 255
    requires forall net :: level(net) == Distance(w, target, order, |order|, net)
    requires owner < |w| && IsStation(w[owner], home) && station < |w| && IsStation(w[station], target)
    requires router < |w| && IsRouter(w[router]) && entry in w[router].adapters && entry.net == home.net != target.net
    requires Way(w[router], target.net, target.mac).Some? && entry != Way(w[router], target.net, target.mac).value.0
    requires var d := Request(w, home, router, entry, target, data);
      && Unspoiled(w, RouteOf(w, d, target, level), true, home.net)
      && Happens(Alone(w, d), there) && Ran(Alone(w, d), there).flight == []
    ensures var d := Request(w, home, router, entry, target, data);
      var j := Travel(w, d);
      && HandedUp(Alone(w, d), there)
         == [(station, Pdu(RemoteStation(home.net, home.mac), Some(LocalStation(target.mac)), data))]
      && Ran(Alone(w, d), there).world == j.world && ValidWorld(j.world) && j.hops != []
      && var e := Reply(j, home, target, answer);
      && ValidDelivery(j.world, e)
      && (Happens(Alone(j.world, e), back) && Ran(Alone(j.world, e), back).flight == [] ==>
        HandedUp(Alone(j.world, e), back)
        == [(owner, Pdu(RemoteStation(target.net, target.mac), Some(LocalStation(home.mac)), answer))])
  {
    TreeIsLevelled(w, target, order, level);
    OnlyTheTwoHear(w, home, owner, router, entry, target, station, level, data, answer, there, back);
  }

  /** The smallest tree: one router between two networks. */
  lemma SmallestTree(home: Mac, target: Mac, near: Mac, far: Mac)
    requires home != near && target != far
    ensures Tree([Node([Adapter(1, home)], 0, true, map[]),
                  Node([Adapter(1, near), Adapter(2, far)], 0, false, map[]),
                  Node([Adapter(2, target)], 0, true, map[])], Adapter(2, target), [1])
  {
    var w := [Node([Adapter(1, home)], 0, true, map[]),
              Node([Adapter(1, near), Adapter(2, far)], 0, false, map[]),
              Node([Adapter(2, target)], 0, true, map[])];
    assert w[1].adapters[1..] == [Adapter(2, far)];
    assert Adapter(1, near) in w[1].adapters && Adapter(2, far) in w[1].adapters;
    assert Branches(w, Adapter(2, target), [1], 0);
  }
}
