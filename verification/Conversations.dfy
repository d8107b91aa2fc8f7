/** Journeys and traffic: what module Journeys follows from node to node is all that happens on
    the networks, whatever arrives when, so nobody else is handed anything. */
module Conversations {
  import opened Apdus
  import opened RouterCache
  import opened Routing
  import opened Forwarding
  import opened Journeys

  // ----- who hears one message

  /** For one station, here or elsewhere. */
  predicate Unicast(npdu: Npdu) {
    npdu.dadr.None? || npdu.dadr.value.RemoteStation?
  }

  /** What a node does with a message for one station: hand it up, or send it on to one address,
      and then it is still for one station. */
  lemma UnicastHandled(n: Node, arrival: Adapter, npdu: Npdu)
    requires ValidNode(n) && arrival in n.adapters && Unicast(npdu)
    ensures var h := Process(n, arrival, npdu);
      && |h.sent| <= 1
      && (h.sent != [] ==>
        && h.up.None? && Unicast(h.sent[0].npdu)
        && h.sent[0].npdu.destination.Some? && h.sent[0].npdu.destination.value.LocalStation?)
  {
  }

  /** The adapter that a message for one station is for. */
  function For(s: Sent): Adapter
    requires s.npdu.destination.Some? && s.npdu.destination.value.LocalStation?
  {
    Adapter(s.net, s.npdu.destination.value.mac)
  }

  lemma {:induction false} NoneAtNode(id: nat, adapters: seq<Adapter>, s: Sent)
    requires forall a :: a in adapters ==> !Hears(a, s)
    ensures AtNode(id, adapters, s) == []
    decreases |adapters|
  {
    if adapters != [] {
      assert adapters[0] in adapters;
      NoneAtNode(id, adapters[1..], s);
    }
  }

  /** Of the adapters of a node, which are on different networks, one hears it. */
  lemma {:induction false} OneAtNode(id: nat, adapters: seq<Adapter>, s: Sent, a: Adapter)
    requires forall i, j :: 0 <= i < j < |adapters| ==> adapters[i].net != adapters[j].net
    requires a in adapters && Hears(a, s)
    ensures AtNode(id, adapters, s) == [Delivery(id, a, s.npdu)]
    decreases |adapters|
  {
    if adapters[0] == a {
      NoneAtNode(id, adapters[1..], s);
    } else {
      assert !Hears(adapters[0], s);
      OneAtNode(id, adapters[1..], s, a);
    }
  }

  lemma {:induction false} NoneFrom(w: World, k: nat, s: Sent)
    requires k <= |w|
    requires forall i, a :: k <= i < |w| && a in w[i].adapters ==> !Hears(a, s)
    ensures Carry(w, k, s) == []
    decreases |w| - k
  {
    if k < |w| {
      NoneAtNode(k, w[k].adapters, s);
      NoneFrom(w, k + 1, s);
    }
  }

  lemma {:induction false} OneFrom(w: World, k: nat, s: Sent, id: nat, a: Adapter)
    requires ValidWorld(w) && k <= id < |w| && a in w[id].adapters && Hears(a, s)
    requires forall i, b :: 0 <= i < |w| && b in w[i].adapters && Hears(b, s) ==> i == id
    ensures Carry(w, k, s) == [Delivery(id, a, s.npdu)]
    decreases |w| - k
  {
    if k < id {
      NoneAtNode(k, w[k].adapters, s);
      OneFrom(w, k + 1, s, id, a);
    } else {
      assert w[id] in w;
      OneAtNode(id, w[id].adapters, s, a);
      NoneFrom(w, k + 1, s);
    }
  }

  /** Whom the message goes to next is who hears it, and if that is nobody then nobody does. */
  lemma FollowedIsCarried(w: World, h: Handled)
    requires ValidWorld(w) && Unique(w) && |h.sent| == 1
    requires h.sent[0].npdu.destination.Some? && h.sent[0].npdu.destination.value.LocalStation?
    ensures CarryAll(w, h.sent) == if Follow(w, h).Some? then [Follow(w, h).value] else []
  {
    var s := h.sent[0];
    var a := For(s);
    assert forall b :: Hears(b, s) ==> b == a;
    assert CarryAll(w, h.sent[1..]) == [];
    if Follow(w, h).Some? {
      OneFrom(w, 0, s, Owner(w, a).value, a);
    } else {
      NoneFrom(w, 0, s);
    }
  }

  // ----- whole runs

  /** The traffic after these arrivals. */
  function Ran(t: Traffic, picks: seq<nat>): Traffic
    requires Valid(t) && Happens(t, picks)
    decreases |picks|
  {
    if picks == [] then t else ArriveValid(t, picks[0]); Ran(Arrive(t, picks[0]), picks[1..])
  }

  /** What the nodes hand up to their applications in them, in order. */
  function HandedUp(t: Traffic, picks: seq<nat>): seq<(nat, Pdu)>
    requires Valid(t) && Happens(t, picks)
    decreases |picks|
  {
    if picks == [] then []
    else
      ArriveValid(t, picks[0]);
      (if Received(t, picks[0]).up.Some? then [(t.flight[picks[0]].node, Received(t, picks[0]).up.value)] else [])
      + HandedUp(Arrive(t, picks[0]), picks[1..])
  }

  /** One message in flight, and nothing else. */
  function Alone(w: World, d: Delivery): (t: Traffic)
    requires ValidWorld(w) && ValidDelivery(w, d)
    ensures Valid(t)
  {
    Traffic(w, [d])
  }

  /** The one message in flight arrives, and what it causes is the next stop of its journey. */
  lemma OneArrives(w: World, d: Delivery)
    requires ValidWorld(w) && Unique(w) && ValidDelivery(w, d) && Unicast(d.npdu)
    ensures var h := Process(w[d.node], d.arrival, d.npdu);
      var next := Follow(After(w, d), h);
      && Received(Alone(w, d), 0) == h
      && Arrive(Alone(w, d), 0) == Traffic(After(w, d), if next.Some? then [next.value] else [])
      && (next.Some? ==> h.up.None? && Unicast(next.value.npdu))
  {
    var v := After(w, d);
    UnicastHandled(w[d.node], d.arrival, d.npdu);
    StillUnique(w, v);
    var h := Process(w[d.node], d.arrival, d.npdu);
    if h.sent != [] { FollowedIsCarried(v, h); }
    assert Learned(Alone(w, d), 0) == v;
    assert [d][..0] + [d][1..] == [];
  }

  lemma {:induction false} NothingHappens(t: Traffic, picks: seq<nat>)
    requires Valid(t) && t.flight == [] && Happens(t, picks)
    ensures picks == []
  {
  }

  /** A message for one station, alone on any networks: every run of the traffic is its journey.
      The run is over exactly when the last node has received the message, and what has been
      handed up by then is what that node handed up; before that it is nothing. */
  lemma {:induction false} TravelIsTraffic(w: World, d: Delivery, picks: seq<nat>)
    requires ValidWorld(w) && Unique(w) && ValidDelivery(w, d) && Unicast(d.npdu) && Happens(Alone(w, d), picks)
    ensures var j := Travel(w, d);
      var over := |picks| == |j.hops| + 1;
      && |picks| <= |j.hops| + 1
      && (over <==> Ran(Alone(w, d), picks).flight == [])
      && (over ==> Ran(Alone(w, d), picks).world == j.world)
      && HandedUp(Alone(w, d), picks) == if over && j.handled.up.Some? then [(j.last.node, j.handled.up.value)] else []
    decreases |picks|
  {
    if picks != [] {
      OneArrives(w, d);
      var v := After(w, d);
      var h := Process(w[d.node], d.arrival, d.npdu);
      var next := Follow(v, h);
      ArriveValid(Alone(w, d), 0);
      if next.Some? {
        StillUnique(w, v);
        GoesOn(w, d, next.value);
        TravelIsTraffic(v, next.value, picks[1..]);
      } else {
        NothingHappens(Arrive(Alone(w, d), 0), picks[1..]);
      }
    }
  }

  function Firsts(k: nat): (picks: seq<nat>)
    ensures |picks| == k && forall i :: 0 <= i < k ==> picks[i] == 0
  {
    seq(k, i => 0)
  }

  lemma FirstHappens(w: World, d: Delivery, picks: seq<nat>)
    requires ValidWorld(w) && Unique(w) && ValidDelivery(w, d) && Unicast(d.npdu) && picks != [] && picks[0] == 0
    requires var next := Follow(After(w, d), Process(w[d.node], d.arrival, d.npdu));
      if next.Some? then Happens(Alone(After(w, d), next.value), picks[1..]) else picks[1..] == []
    ensures Happens(Alone(w, d), picks)
  {
    OneArrives(w, d);
    ArriveValid(Alone(w, d), 0);
  }

  lemma NextStop(w: World, d: Delivery, next: Delivery)
    requires ValidWorld(w) && Unique(w) && ValidDelivery(w, d) && Unicast(d.npdu)
    requires Follow(After(w, d), Process(w[d.node], d.arrival, d.npdu)) == Some(next)
    ensures ValidDelivery(After(w, d), next) && Unicast(next.npdu) && next.npdu.hopCount < d.npdu.hopCount
    ensures |Travel(w, d).hops| == |Travel(After(w, d), next).hops| + 1
  {
    OneArrives(w, d);
    GoesOn(w, d, next);
    ForwardedCopies(w[d.node], d.arrival, d.npdu, Process(w[d.node], d.arrival, d.npdu).sent[0]);
  }

  lemma NoNextStop(w: World, d: Delivery)
    requires ValidWorld(w) && ValidDelivery(w, d)
    requires Follow(After(w, d), Process(w[d.node], d.arrival, d.npdu)).None?
    ensures Travel(w, d).hops == []
  {
  }

  lemma LastHappens(w: World, d: Delivery)
    requires ValidWorld(w) && Unique(w) && ValidDelivery(w, d) && Unicast(d.npdu)
    requires Follow(After(w, d), Process(w[d.node], d.arrival, d.npdu)).None?
    ensures Happens(Alone(w, d), Firsts(1))
  {
    assert Firsts(1)[1..] == [];
    FirstHappens(w, d, Firsts(1));
  }

  lemma MoreHappens(w: World, d: Delivery, next: Delivery, k: nat)
    requires ValidWorld(w) && Unique(w) && ValidDelivery(w, d) && Unicast(d.npdu)
    requires Follow(After(w, d), Process(w[d.node], d.arrival, d.npdu)) == Some(next)
    requires Happens(Alone(After(w, d), next), Firsts(k))
    ensures Happens(Alone(w, d), Firsts(k + 1))
  {
    assert Firsts(k + 1)[1..] == Firsts(k);
    FirstHappens(w, d, Firsts(k + 1));
  }

  /** And there is a run that is over. */
  lemma {:induction false} TrafficEnds(w: World, d: Delivery, k: nat)
    requires ValidWorld(w) && Unique(w) && ValidDelivery(w, d) && Unicast(d.npdu) && k == |Travel(w, d).hops|
    ensures Happens(Alone(w, d), Firsts(k + 1))
    decreases d.npdu.hopCount
  {
    var v := After(w, d);
    var follow := Follow(v, Process(w[d.node], d.arrival, d.npdu));
    if follow.Some? {
      NextStop(w, d, follow.value);
      StillUnique(w, v);
      TrafficEnds(v, follow.value, k - 1);
      MoreHappens(w, d, follow.value, k);
    } else {
      NoNextStop(w, d);
      LastHappens(w, d);
    }
  }

  // ----- nobody else

  /** Whoever hears anything, and in whatever order: once the traffic is over, the target has been
      handed the message, and nothing else has been handed to anyone; before that nothing has. */
  lemma ReachesOnlyTarget(w: World, d: Delivery, target: Adapter, level: nat -> nat, station: nat, picks: seq<nat>)
    requires ValidWorld(w) && Unique(w) && Levelled(w, target, level) && Bound(d, w, target, level)
    requires station < |w| && IsStation(w[station], target)
    requires level(d.arrival.net) <= d.npdu.hopCount && Happens(Alone(w, d), picks)
    ensures HandedUp(Alone(w, d), picks)
         == if Ran(Alone(w, d), picks).flight == [] then [(station, Expected(d, target))] else []
    ensures |picks| == level(d.arrival.net) + 1 <==> Ran(Alone(w, d), picks).flight == []
  {
    ReachesTarget(w, d, target, level, station);
    TravelIsTraffic(w, d, picks);
  }

  /** With too few hops nobody is handed anything. */
  lemma ReachesNobody(w: World, d: Delivery, target: Adapter, level: nat -> nat, station: nat, picks: seq<nat>)
    requires ValidWorld(w) && Unique(w) && Levelled(w, target, level) && Bound(d, w, target, level)
    requires station < |w| && IsStation(w[station], target)
    requires d.npdu.hopCount < level(d.arrival.net) && Happens(Alone(w, d), picks)
    ensures HandedUp(Alone(w, d), picks) == []
  {
    FallsShort(w, d, target, level, station);
    TravelIsTraffic(w, d, picks);
  }

  /** All of a conversation: whatever run the request's traffic takes, only the target is handed
      anything, and whatever run the answer's takes from there, only the originator is. */
  lemma OnlyTheTwoHear(w: World, home: Adapter, owner: nat, router: nat, entry: Adapter, target: Adapter, station: nat,
                       level: nat -> nat, data: Bytes, answer: Bytes, there: seq<nat>, back: seq<nat>)
    requires Setting(w, home, owner, router, entry, target, station, level)
    requires var d := Request(w, home, router, entry, target, data);
      && Unspoiled(w, RouteOf(w, d, target, level), true, home.net)
      && Happens(Alone(w, d), there) && Ran(Alone(w, d), there).flight == []
    ensures var d := Request(w, home, router, entry, target, data);
      var j := Travel(w, d);
      && HandedUp(Alone(w, d), there)
         == [(station, Pdu(RemoteStation(home.net, home.mac), Some(LocalStation(target.mac)), data))]
      && Ran(Alone(w, d), there).world == j.world && ValidWorld(j.world) && j.hops != []
      && var e := Reply(j, home, target, answer);
      && ValidDelivery(j.world, e)
      && (Happens(Alone(j.world, e), back) && Ran(Alone(j.world, e), back).flight == [] ==>
        HandedUp(Alone(j.world, e), back)
        == [(owner, Pdu(RemoteStation(target.net, target.mac), Some(LocalStation(home.mac)), answer))])
  {
    var d := Request(w, home, router, entry, target, data);
    var j := Travel(w, d);
    RequestAndAnswer(w, home, owner, router, entry, target, station, level, data, answer);
    TravelIsTraffic(w, d, there);
    TravelKeepsNodes(w, d);
    StillUnique(w, j.world);
    var e := Reply(j, home, target, answer);
    if Happens(Alone(j.world, e), back) { TravelIsTraffic(j.world, e, back); }
  }
}
