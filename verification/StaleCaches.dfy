/** An answer that is lost: a router on its way has an older path to the originator's network on
    an adapter that was bound before the one where the request came in. */
module StaleCaches {
  import opened Apdus
  import opened RouterCache
  import opened Routing
  import opened Forwarding
  import opened Journeys
  import opened Conversations

  /** Two stations with two routers between them. The second router has another adapter, bound
      first, with an old path to the first station's network through a router that is gone. */
  function StaleWorld(home: Mac, near: Mac, far: Mac, side: Mac, mid: Mac, out: Mac, target: Mac, gone: Mac): World {
    [Node([Adapter(1, home)], 0, true, map[]),
     Node([Adapter(1, near), Adapter(2, far)], 0, false, map[(Some(2), 3) := PathInfo(mid, AVAILABLE)]),
     Node([Adapter(9, side), Adapter(2, mid), Adapter(3, out)], 0, false,
         map[(Some(9), 1) := PathInfo(gone, AVAILABLE)]),
     Node([Adapter(3, target)], 0, true, map[])]
  }

  function StaleLevel(net: nat): nat {
    if net == 3 then 0 else if net == 1 then 2 else 1
  }

  /** The eight addresses, where they have to differ. */
  predicate Differ(home: Mac, near: Mac, far: Mac, side: Mac, mid: Mac, out: Mac, target: Mac, gone: Mac) {
    home != near && far != mid && out != target && gone != side
  }

  lemma StaleNodes(home: Mac, near: Mac, far: Mac, side: Mac, mid: Mac, out: Mac, target: Mac, gone: Mac)
    requires Differ(home, near, far, side, mid, out, target, gone)
    ensures var w := StaleWorld(home, near, far, side, mid, out, target, gone); ValidWorld(w) && Unique(w)
  {
  }

  lemma StaleOwners(home: Mac, near: Mac, far: Mac, side: Mac, mid: Mac, out: Mac, target: Mac, gone: Mac)
    requires Differ(home, near, far, side, mid, out, target, gone)
    ensures var w := StaleWorld(home, near, far, side, mid, out, target, gone);
      Owner(w, Adapter(2, mid)) == Some(2) && Owner(w, Adapter(9, gone)) == None
  {
    var w := StaleWorld(home, near, far, side, mid, out, target, gone);
    StaleNodes(home, near, far, side, mid, out, target, gone);
    assert w[2].adapters[1] == Adapter(2, mid);
    OwnerFound(w, 0, 2, Adapter(2, mid));
  }

  lemma StaleLevels(home: Mac, near: Mac, far: Mac, side: Mac, mid: Mac, out: Mac, target: Mac, gone: Mac)
    requires Differ(home, near, far, side, mid, out, target, gone)
    ensures Levelled(StaleWorld(home, near, far, side, mid, out, target, gone), Adapter(3, target), StaleLevel)
  {
    var w := StaleWorld(home, near, far, side, mid, out, target, gone);
    StaleWays(home, near, far, side, mid, out, target, gone);
    StaleOwners(home, near, far, side, mid, out, target, gone);
    assert RouterLevelled(w, Adapter(3, target), StaleLevel, 1);
    assert RouterLevelled(w, Adapter(3, target), StaleLevel, 2);
  }

  /** What matters of that world. */
  ghost predicate Stale(w: World, home: Mac, near: Mac, far: Mac, side: Mac, mid: Mac, out: Mac, target: Mac,
                        gone: Mac) {
    && Setting(w, Adapter(1, home), 0, 1, Adapter(1, near), Adapter(3, target), 3, StaleLevel) && |w| == 4
    && Way(w[1], 3, target) == Some((Adapter(2, far), mid)) && !Attached(w[1].adapters, 3)
    && w[2].adapters == [Adapter(9, side), Adapter(2, mid), Adapter(3, out)] && w[2].local == 0
    && w[2].paths == map[(Some(9), 1) := PathInfo(gone, AVAILABLE)]
    && Owner(w, Adapter(2, mid)) == Some(2) && Owner(w, Adapter(9, gone)) == None
  }

  lemma StaleWorldIsStale(home: Mac, near: Mac, far: Mac, side: Mac, mid: Mac, out: Mac, target: Mac, gone: Mac)
    requires Differ(home, near, far, side, mid, out, target, gone)
    ensures Stale(StaleWorld(home, near, far, side, mid, out, target, gone), home, near, far, side, mid, out, target,
        gone)
  {
    var w := StaleWorld(home, near, far, side, mid, out, target, gone);
    StaleNodes(home, near, far, side, mid, out, target, gone);
    StaleWays(home, near, far, side, mid, out, target, gone);
    StaleOwners(home, near, far, side, mid, out, target, gone);
    StaleLevels(home, near, far, side, mid, out, target, gone);
    assert w[1].adapters[0] == Adapter(1, near);
  }

  lemma StaleWays(home: Mac, near: Mac, far: Mac, side: Mac, mid: Mac, out: Mac, target: Mac, gone: Mac)
    ensures var w := StaleWorld(home, near, far, side, mid, out, target, gone);
      && Way(w[1], 3, target) == Some((Adapter(2, far), mid)) && !Attached(w[1].adapters, 3)
      && Way(w[2], 3, target) == Some((Adapter(3, out), target)) && Attached(w[2].adapters, 3)
  {
    var w := StaleWorld(home, near, far, side, mid, out, target, gone);
    assert w[1].adapters[1..] == [Adapter(2, far)];
    assert w[2].adapters[1..] == [Adapter(2, mid), Adapter(3, out)] && w[2].adapters[1..][1..] == [Adapter(3, out)];
    assert w[2].adapters[2] == Adapter(3, out);
  }

  /** The condition under which the way back is found does not hold. */
  lemma StaleIsSpoiled(w: World, home: Mac, near: Mac, far: Mac, side: Mac, mid: Mac, out: Mac, target: Mac,
                       gone: Mac, data: Bytes)
    requires Stale(w, home, near, far, side, mid, out, target, gone)
    ensures var d := Request(w, Adapter(1, home), 1, Adapter(1, near), Adapter(3, target), data);
      !Unspoiled(w, RouteOf(w, d, Adapter(3, target), StaleLevel), true, 1)
  {
    var d := Request(w, Adapter(1, home), 1, Adapter(1, near), Adapter(3, target), data);
    var route := RouteOf(w, d, Adapter(3, target), StaleLevel);
    assert w[2].adapters[2] == Adapter(3, out);
    assert route == [(1, Adapter(1, near))] + Route(w, 2, Adapter(2, mid), Adapter(3, target), 1);
    assert route[1] == (2, Adapter(2, mid));
    assert Before(w[2].adapters, 0, Adapter(2, mid)) && (Some(w[2].adapters[0].net), 1) in w[2].paths;
    assert !NoneBefore(w[2].adapters, w[2].paths, 1, Adapter(2, mid));
  }

  /** The first router sends the request on to the second. */
  lemma StaleFirst(w: World, home: Mac, near: Mac, far: Mac, side: Mac, mid: Mac, out: Mac, target: Mac, gone: Mac,
                   data: Bytes)
    requires Stale(w, home, near, far, side, mid, out, target, gone)
    ensures var d := Request(w, Adapter(1, home), 1, Adapter(1, near), Adapter(3, target), data);
      var v := After(w, d);
      var next := Follow(v, Process(w[1], d.arrival, d.npdu));
      && next.Some? && next.value.node == 2 && next.value.arrival == Adapter(2, mid)
      && Bound(next.value, v, Adapter(3, target), StaleLevel) && Unique(v)
      && Levelled(v, Adapter(3, target), StaleLevel)
      && next.value.npdu.source == far && next.value.npdu.sadr == Some(Station(1, home))
      && next.value.npdu.hopCount == 254
  {
    var to := Adapter(3, target);
    var d := Request(w, Adapter(1, home), 1, Adapter(1, near), to, data);
    OnwardStep(w, d, to, StaleLevel, 3);
    NextOfRoute(w, d, to, StaleLevel, 3, Follow(After(w, d), Process(w[1], d.arrival, d.npdu)).value);
  }

  /** The request reaches its target, and the second router has learned the way back. */
  lemma StaleRequest(w: World, home: Mac, near: Mac, far: Mac, side: Mac, mid: Mac, out: Mac, target: Mac, gone: Mac,
                     data: Bytes)
    requires Stale(w, home, near, far, side, mid, out, target, gone)
    ensures var j := Travel(w, Request(w, Adapter(1, home), 1, Adapter(1, near), Adapter(3, target), data));
      && j.last.node == 3 && j.handled.up.Some?
      && j.hops != [] && j.hops[|j.hops| - 1].node == 2 && j.hops[|j.hops| - 1].outward == Adapter(3, out)
      && |j.world| == 4 && j.world[2].paths == Announce(w[2].paths, Some(2), far, {1})
  {
    var to := Adapter(3, target);
    var d := Request(w, Adapter(1, home), 1, Adapter(1, near), to, data);
    StaleFirst(w, home, near, far, side, mid, out, target, gone, data);
    var v := After(w, d);
    var next := Follow(v, Process(w[1], d.arrival, d.npdu)).value;
    ReachesTarget(w, d, to, StaleLevel, 3);
    GoesOn(w, d, next);
    StaleSecond(w, v, next, to, far, out);
    JoinLast(Hop(d.node, d.arrival, d.npdu.source, Adapter(next.arrival.net, next.npdu.source)), Travel(v, next).hops);
  }

  lemma JoinLast(hop: Hop, hops: seq<Hop>)
    requires hops != []
    ensures ([hop] + hops)[|[hop] + hops| - 1] == hops[|hops| - 1]
  {
  }

  lemma StaleSecond(w: World, v: World, next: Delivery, to: Adapter, far: Mac, out: Mac)
    requires ValidWorld(v) && Unique(v) && Levelled(v, to, StaleLevel) && Bound(next, v, to, StaleLevel)
    requires |w| == 4 && |v| == 4 && v[2] == w[2] && IsStation(v[3], to) && next.node == 2 && 0 < next.npdu.hopCount
    requires v[2].adapters[1..] == [Adapter(2, next.arrival.mac), Adapter(3, out)] && v[2].adapters[0].net == 9
    requires to.net == 3
    requires next.npdu.source == far && next.arrival.net == 2 && next.npdu.sadr.Some? && next.npdu.sadr.value.net == 1
    ensures var j := Travel(v, next);
      && |j.hops| == 1 && j.hops[0].node == 2 && j.hops[0].outward == Adapter(3, out)
      && |j.world| == 4 && j.world[2].paths == Announce(w[2].paths, Some(2), far, {1})
  {
    assert v[2].adapters[1..][1..] == [Adapter(3, out)] && v[2].adapters[2] == Adapter(3, out);
    assert Attached(v[2].adapters, 3);
    StaleLast(v, next, to, far);
  }

  lemma StaleLast(v: World, next: Delivery, to: Adapter, far: Mac)
    requires ValidWorld(v) && Unique(v) && Levelled(v, to, StaleLevel) && Bound(next, v, to, StaleLevel)
    requires |v| == 4 && IsStation(v[3], to) && next.node == 2 && 0 < next.npdu.hopCount
    requires Attached(v[2].adapters, to.net)
    requires next.npdu.source == far && next.arrival.net == 2 && next.npdu.sadr.Some? && next.npdu.sadr.value.net == 1
    ensures var j := Travel(v, next);
      var way := Way(v[2], to.net, to.mac).value;
      && j.hops == [Hop(2, next.arrival, far, way.0)] && j.last.node == 3
      && |j.world| == 4 && j.world[2].paths == Announce(v[2].paths, Some(2), far, {1})
  {
    EndOfTheLine(v, next, to, StaleLevel, 3);
    RouterStep(v, next, to, StaleLevel);
  }

  lemma StaleReply(w: World, v: World, e: Delivery, side: Mac, mid: Mac, out: Mac, gone: Mac, far: Mac)
    requires ValidWorld(v) && SameNodes(w, v) && |w| == 4 && Owner(w, Adapter(9, gone)) == None
    requires w[2].adapters == [Adapter(9, side), Adapter(2, mid), Adapter(3, out)] && w[2].local == 0
    requires (Some(9), 1) in w[2].paths && w[2].paths[(Some(9), 1)].router == gone
    requires v[2].paths == Announce(w[2].paths, Some(2), far, {1}) && e.node == 2
    requires e.arrival == Adapter(3, out) && e.npdu.sadr.None? && e.npdu.netMessage.None? && 0 < e.npdu.hopCount
    requires e.npdu.dadr.Some? && e.npdu.dadr.value.RemoteStation? && e.npdu.dadr.value.net == 1
    ensures ValidDelivery(v, e) && Travel(v, e).handled.up.None? && Travel(v, e).hops == []
  {
    assert v[2] in v && v[2].adapters[2] == e.arrival;
    StaleStep(v[2], e, side, mid, out, gone);
    SameOwner(w, After(v, e), 0, Adapter(9, gone));
  }

  /** The request is handed to its target, whose answer the second router sends through the older
      path on the earlier adapter: nobody is handed it, in any run. */
  lemma StaleAnswerIsLost(w: World, home: Mac, near: Mac, far: Mac, side: Mac, mid: Mac, out: Mac, target: Mac,
                          gone: Mac,
                          data: Bytes, answer: Bytes, picks: seq<nat>)
    requires Stale(w, home, near, far, side, mid, out, target, gone)
    ensures var j := Travel(w, Request(w, Adapter(1, home), 1, Adapter(1, near), Adapter(3, target), data));
      && j.last.node == 3 && j.handled.up.Some? && ValidWorld(j.world) && j.hops != []
      && var e := Reply(j, Adapter(1, home), Adapter(3, target), answer);
      && ValidDelivery(j.world, e)
      && (Happens(Alone(j.world, e), picks) ==> HandedUp(Alone(j.world, e), picks) == [])
  {
    var d := Request(w, Adapter(1, home), 1, Adapter(1, near), Adapter(3, target), data);
    var j := Travel(w, d);
    StaleRequest(w, home, near, far, side, mid, out, target, gone, data);
    TravelKeepsNodes(w, d);
    StillUnique(w, j.world);
    var e := Reply(j, Adapter(1, home), Adapter(3, target), answer);
    StaleReply(w, j.world, e, side, mid, out, gone, far);
    if Happens(Alone(j.world, e), picks) { TravelIsTraffic(j.world, e, picks); }
  }

  lemma StaleStep(n: Node, e: Delivery, side: Mac, mid: Mac, out: Mac, gone: Mac)
    requires n.adapters == [Adapter(9, side), Adapter(2, mid), Adapter(3, out)] && ValidNode(n) && n.local == 0
    requires (Some(9), 1) in n.paths && n.paths[(Some(9), 1)].router == gone
    requires e.arrival == Adapter(3, out) && e.npdu.sadr.None? && e.npdu.netMessage.None? && 0 < e.npdu.hopCount
    requires e.npdu.dadr.Some? && e.npdu.dadr.value.RemoteStation? && e.npdu.dadr.value.net == 1
    ensures var h := Process(n, e.arrival, e.npdu);
      && h.up.None? && |h.sent| == 1 && h.sent[0].net == 9 && h.sent[0].npdu.destination == Some(LocalStation(gone))
  {
    assert n.adapters[2] == e.arrival;
    assert !Attached(n.adapters, 1);
  }
}
