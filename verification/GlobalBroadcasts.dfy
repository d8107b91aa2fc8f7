/** A global broadcast on a tree of networks: every other application is handed it, exactly once,
    in whatever order the copies arrive. */
module GlobalBroadcasts {
  import opened Apdus
  import opened RouterCache
  import opened Routing
  import opened Forwarding
  import opened Journeys
  import opened Conversations
  import opened Broadcasts

  // ----- trees

  /** The node is the first on the network, coming from the origin of the broadcast: every network of
      the origin, and of any other node every network but that of its innermost adapter. */
  predicate Feeds(w: World, origin: nat, inner: nat -> Adapter, j: nat, a: Adapter) {
    j < |w| && a in w[j].adapters && (j == origin || a != inner(j))
  }

  ghost predicate Fed(w: World, origin: nat, inner: nat -> Adapter, j: nat, net: nat) {
    exists a :: Feeds(w, origin, inner, j, a) && a.net == net
  }

  /** Every other node has its innermost adapter on a network that some node feeds, and its other
      networks are one further out; no network is fed by two nodes. */
  ghost predicate Rooted(w: World, origin: nat, level: nat -> nat, inner: nat -> Adapter) {
    && origin < |w|
    && (forall a :: a in w[origin].adapters ==> level(a.net) == 0)
    && (forall i :: 0 <= i < |w| && i != origin ==> Branch(w, origin, level, inner, i))
    && (forall i, j, net :: Fed(w, origin, inner, i, net) && Fed(w, origin, inner, j, net) ==> i == j)
  }

  ghost predicate Branch(w: World, origin: nat, level: nat -> nat, inner: nat -> Adapter, i: nat)
    requires i < |w|
  {
    && inner(i) in w[i].adapters
    && (forall a :: a in w[i].adapters && a != inner(i) ==> level(a.net) == level(inner(i).net) + 1)
    && exists j: nat :: Fed(w, origin, inner, j, inner(i).net)
  }

  /** The station in whose name the broadcast goes out. */
  function Home(w: World, origin: nat): (a: Adapter)
    requires ValidWorld(w) && origin < |w|
    ensures a in w[origin].adapters
  {
    assert w[origin] in w;
    w[origin].adapters[w[origin].local]
  }

  /** A copy of the broadcast, as a node receives it. */
  predicate IsCopy(home: Adapter, data: Bytes, hops: nat, level: nat -> nat, inner: nat -> Adapter, d: Delivery) {
    && d.arrival == inner(d.node)
    && d.npdu.dadr == Some(GlobalBroadcast) && d.npdu.netMessage.None? && d.npdu.data == data
    && d.npdu.hopCount + level(d.arrival.net) == hops
    && (if d.arrival.net == home.net then d.npdu.sadr.None? && d.npdu.source == home.mac
        else d.npdu.sadr == Some(Station(home.net, home.mac)))
  }

  /** What an application is handed of it: from a station here if its node is on the originator's
      network and that is the node's local one. */
  function Announcement(home: Adapter, n: Node, arrival: Adapter, data: Bytes): Pdu
    requires ValidNode(n)
  {
    Pdu(if arrival == n.adapters[n.local] && arrival.net == home.net then LocalStation(home.mac)
        else RemoteStation(home.net, home.mac),
        Some(GlobalBroadcast), data)
  }

  // ----- the invariant

  /** The node's turn has come: the node that feeds its innermost network has had the message, with a
      hop left. */
  ghost predicate Reached(w: World, origin: nat, hops: nat, level: nat -> nat, inner: nat -> Adapter, got: set<nat>,
                          i: nat)
  {
    || Fed(w, origin, inner, origin, inner(i).net)
    || exists j :: j in got && j != origin && level(inner(j).net) < hops && Fed(w, origin, inner, j, inner(i).net)
  }

  /** The message has been received by got, is on its way to those it is due at, and to nobody else. */
  ghost predicate Spreads(w: World, origin: nat, data: Bytes, hops: nat, level: nat -> nat, inner: nat -> Adapter,
                          flight: seq<Delivery>, got: set<nat>)
    requires ValidWorld(w) && origin < |w|
  {
    && NoTwo(flight)
    && (forall d :: d in flight ==>
      && ValidDelivery(w, d) && d.node != origin && d.node !in got
      && IsCopy(Home(w, origin), data, hops, level, inner, d))
    && (forall i :: i in got ==> i < |w| && i != origin && level(inner(i).net) <= hops)
    && (forall i: nat :: i < |w| && i != origin ==>
      (i in got || At(flight, i) <==> Reached(w, origin, hops, level, inner, got, i)))
  }

  // ----- what a node that feeds networks sends

  /** One message on each network the node feeds, for all there. */
  ghost predicate Floods(w: World, origin: nat, inner: nat -> Adapter, j: nat, sent: seq<Sent>) {
    && DistinctSent(sent)
    && (forall s :: s in sent ==>
      s.npdu.destination == Some(LocalBroadcast) && Feeds(w, origin, inner, j, Adapter(s.net, s.npdu.source)))
    && (forall a :: Feeds(w, origin, inner, j, a) ==> exists s :: s in sent && s.net == a.net && s.npdu.source == a.mac)
  }

  lemma InnerHears(w: World, origin: nat, level: nat -> nat, inner: nat -> Adapter, j: nat, a: Adapter, s: Sent,
                   id: nat, b: Adapter)
    requires ValidWorld(w) && Rooted(w, origin, level, inner) && Feeds(w, origin, inner, j, a)
    requires s.net == a.net && s.npdu.source == a.mac
    requires id < |w| && b in w[id].adapters && Hears(b, s)
    ensures id != origin && id != j && b == inner(id) && Fed(w, origin, inner, j, inner(id).net)
  {
    assert Fed(w, origin, inner, j, a.net);
    if id == j {
      assert w[j] in w;
      DistinctNets(w[j], a, b);
    }
    if Feeds(w, origin, inner, id, b) { assert Fed(w, origin, inner, id, b.net); }
  }

  /** Exactly the nodes whose innermost network it feeds hear what it sends, each once. */
  lemma FloodsReach(w: World, origin: nat, level: nat -> nat, inner: nat -> Adapter, j: nat, sent: seq<Sent>)
    requires ValidWorld(w) && Unique(w) && Rooted(w, origin, level, inner) && Floods(w, origin, inner, j, sent)
    ensures var ds := CarryAll(w, sent);
      && NoTwo(ds)
      && (forall d :: d in ds ==>
        && ValidDelivery(w, d) && d.node != origin && d.node != j && d.arrival == inner(d.node)
        && exists s :: s in sent && s.net == d.arrival.net && d.npdu == s.npdu)
      && (forall i: nat :: i < |w| && i != origin ==> (At(ds, i) <==> Fed(w, origin, inner, j, inner(i).net)))
  {
    CarryAllExactly(w, sent);
    forall m, k, id, a, b | 0 <= m < k < |sent| && 0 <= id < |w| && a in w[id].adapters && b in w[id].adapters
      ensures !(Hears(a, sent[m]) && Hears(b, sent[k]))
    {
      if Hears(a, sent[m]) && Hears(b, sent[k]) {
        assert sent[m] in sent && sent[k] in sent;
        InnerHears(w, origin, level, inner, j, Adapter(sent[m].net, sent[m].npdu.source), sent[m], id, a);
        InnerHears(w, origin, level, inner, j, Adapter(sent[k].net, sent[k].npdu.source), sent[k], id, b);
      }
    }
    CarryAllNoTwo(w, sent);
    forall d | d in CarryAll(w, sent)
      ensures ValidDelivery(w, d) && d.node != origin && d.node != j && d.arrival == inner(d.node)
      ensures Fed(w, origin, inner, j, inner(d.node).net)
      ensures exists s :: s in sent && s.net == d.arrival.net && d.npdu == s.npdu
    {
      assert Carried(w, sent, d);
      var s :| s in sent && Hears(d.arrival, s) && d.npdu == s.npdu;
      InnerHears(w, origin, level, inner, j, Adapter(s.net, s.npdu.source), s, d.node, d.arrival);
    }
    forall i: nat | i < |w| && i != origin && Fed(w, origin, inner, j, inner(i).net) ensures At(CarryAll(w, sent), i) {
      FedHears(w, origin, level, inner, j, sent, i);
    }
  }

  lemma FedHears(w: World, origin: nat, level: nat -> nat, inner: nat -> Adapter, j: nat, sent: seq<Sent>, i: nat)
    requires ValidWorld(w) && Unique(w) && Rooted(w, origin, level, inner) && Floods(w, origin, inner, j, sent)
    requires i < |w| && i != origin && Fed(w, origin, inner, j, inner(i).net)
    ensures At(CarryAll(w, sent), i)
  {
    var a :| Feeds(w, origin, inner, j, a) && a.net == inner(i).net;
    var s :| s in sent && s.net == a.net && s.npdu.source == a.mac;
    assert Branch(w, origin, level, inner, i);
    CarryAllExactly(w, sent);
    assert Hears(inner(i), s);
    assert Carried(w, sent, Delivery(i, inner(i), s.npdu));
    assert Delivery(i, inner(i), s.npdu) in CarryAll(w, sent);
  }

  // ----- one copy arrives

  /** The node of a copy is not on the originator's network, unless the copy came in there. */
  lemma NotAtHome(w: World, origin: nat, level: nat -> nat, inner: nat -> Adapter, i: nat)
    requires ValidWorld(w) && Rooted(w, origin, level, inner) && i < |w| && i != origin
    requires inner(i).net != Home(w, origin).net
    ensures !Attached(w[i].adapters, Home(w, origin).net)
  {
    var home := Home(w, origin);
    assert Branch(w, origin, level, inner, i) && level(home.net) == 0;
  }

  /** The node hands it up and floods the networks that it feeds. */
  lemma CopyArrives(w: World, origin: nat, data: Bytes, hops: nat, level: nat -> nat, inner: nat -> Adapter,
                    d: Delivery)
    requires ValidWorld(w) && Rooted(w, origin, level, inner)
    requires ValidDelivery(w, d) && d.node != origin && IsCopy(Home(w, origin), data, hops, level, inner, d)
    ensures ValidNode(w[d.node])
    ensures var h, home := Process(w[d.node], d.arrival, d.npdu), Home(w, origin);
      && h.up == (if w[d.node].server then Some(Announcement(home, w[d.node], d.arrival, data)) else None)
      && (if d.npdu.hopCount == 0 then h.sent == [] else Floods(w, origin, inner, d.node, h.sent))
      && forall s :: s in h.sent ==>
        s.npdu == Npdu(s.npdu.source, Some(LocalBroadcast), Some(GlobalBroadcast), Some(Station(home.net, home.mac)),
                       d.npdu.hopCount - 1, None, data)
  {
    var n := w[d.node];
    assert n in w;
    if d.npdu.sadr.Some? { NotAtHome(w, origin, level, inner, d.node); }
    GlobalGoesOn(n, d);
    HandedUpExactly(n, d);
    if 0 < d.npdu.hopCount { CopiesFlood(w, origin, inner, d); }
  }

  lemma CopiesFlood(w: World, origin: nat, inner: nat -> Adapter, d: Delivery)
    requires ValidWorld(w) && ValidDelivery(w, d) && d.node != origin && d.arrival == inner(d.node)
    requires d.npdu.dadr == Some(GlobalBroadcast) && d.npdu.netMessage.None? && !Spoofed(w[d.node], d)
    requires 0 < d.npdu.hopCount
    ensures ValidNode(w[d.node])
    ensures Floods(w, origin, inner, d.node, Process(w[d.node], d.arrival, d.npdu).sent)
  {
    var n := w[d.node];
    assert n in w;
    GlobalGoesOn(n, d);
    var sent := Process(n, d.arrival, d.npdu).sent;
    forall a | Feeds(w, origin, inner, d.node, a)
      ensures exists s :: s in sent && s.net == a.net && s.npdu.source == a.mac
    {
      assert GlobalCopy(d, a) in sent;
    }
  }

  // ----- the invariant is kept

  lemma FedBefore(w: World, origin: nat, data: Bytes, hops: nat, level: nat -> nat, inner: nat -> Adapter,
                  flight: seq<Delivery>, got: set<nat>, i: nat, j: nat)
    requires ValidWorld(w) && Rooted(w, origin, level, inner)
    requires Spreads(w, origin, data, hops, level, inner, flight, got)
    requires i < |w| && i != origin && j < |w| && j != origin && j !in got && Fed(w, origin, inner, j, inner(i).net)
    ensures i !in got && !At(flight, i) && i != j
    ensures level(inner(i).net) == level(inner(j).net) + 1
  {
    assert !Reached(w, origin, hops, level, inner, got, i);
    assert Branch(w, origin, level, inner, j);
    var a :| Feeds(w, origin, inner, j, a) && a.net == inner(i).net;
  }

  /** What is in flight once the k-th message has arrived and the node has sent these. */
  function Onwards(w: World, flight: seq<Delivery>, k: nat, sent: seq<Sent>): seq<Delivery>
    requires k < |flight|
  {
    flight[..k] + flight[k + 1..] + CarryAll(w, sent)
  }

  lemma MovedOn(flight: seq<Delivery>, got: set<nat>, k: nat, i: nat)
    requires NoTwo(flight) && k < |flight|
    ensures i in got + {flight[k].node} || At(flight[..k] + flight[k + 1..], i) <==> i in got || At(flight, i)
  {
    SplitMembers(flight, k);
    assert flight[k] in flight;
    if e :| e in flight && e.node == i {
      if e != flight[k] { assert e in flight[..k] + flight[k + 1..]; }
    }
  }

  /** What the node sends is new to those who hear it. */
  lemma NewCopy(w: World, origin: nat, data: Bytes, hops: nat, level: nat -> nat, inner: nat -> Adapter,
                flight: seq<Delivery>, got: set<nat>, k: nat, sent: seq<Sent>, e: Delivery)
    requires ValidWorld(w) && Unique(w) && Rooted(w, origin, level, inner)
    requires Spreads(w, origin, data, hops, level, inner, flight, got) && k < |flight| && 0 < flight[k].npdu.hopCount
    requires Floods(w, origin, inner, flight[k].node, sent) && e in CarryAll(w, sent)
    requires var d, home := flight[k], Home(w, origin);
      forall s :: s in sent ==>
        s.npdu == Npdu(s.npdu.source, Some(LocalBroadcast), Some(GlobalBroadcast), Some(Station(home.net, home.mac)),
                       d.npdu.hopCount - 1, None, data)
    ensures e.node !in got + {flight[k].node} && !At(flight[..k] + flight[k + 1..], e.node)
    ensures IsCopy(Home(w, origin), data, hops, level, inner, e)
  {
    var d, home := flight[k], Home(w, origin);
    assert d in flight;
    SplitMembers(flight, k);
    FloodsReach(w, origin, level, inner, d.node, sent);
    assert At(CarryAll(w, sent), e.node);
    FedBefore(w, origin, data, hops, level, inner, flight, got, e.node, d.node);
    var s :| s in sent && s.net == e.arrival.net && e.npdu == s.npdu;
    assert level(home.net) == 0;
  }

  lemma NewReached(w: World, origin: nat, hops: nat, level: nat -> nat, inner: nat -> Adapter, flight: seq<Delivery>,
                   got: set<nat>, k: nat, ds: seq<Delivery>, i: nat)
    requires k < |flight| && NoTwo(flight) && i < |w| && i != origin
    requires var j := flight[k].node;
      && j != origin && level(inner(j).net) < hops
      && (At(ds, i) <==> Fed(w, origin, inner, j, inner(i).net))
    requires i in got || At(flight, i) <==> Reached(w, origin, hops, level, inner, got, i)
    ensures i in got + {flight[k].node} || At(flight[..k] + flight[k + 1..] + ds, i)
       <==> Reached(w, origin, hops, level, inner, got + {flight[k].node}, i)
  {
    var j, rest := flight[k].node, flight[..k] + flight[k + 1..];
    MovedOn(flight, got, k, i);
    assert At(rest + ds, i) <==> At(rest, i) || At(ds, i) by {
      if e :| e in rest && e.node == i { assert e in rest + ds; }
      if e :| e in ds && e.node == i { assert e in rest + ds; }
    }
    if Fed(w, origin, inner, j, inner(i).net) { assert j in got + {j}; }
  }

  lemma SpreadsOn(w: World, origin: nat, data: Bytes, hops: nat, level: nat -> nat, inner: nat -> Adapter,
                  flight: seq<Delivery>, got: set<nat>, k: nat, sent: seq<Sent>)
    requires ValidWorld(w) && Unique(w) && Rooted(w, origin, level, inner)
    requires Spreads(w, origin, data, hops, level, inner, flight, got) && k < |flight|
    requires var d, home := flight[k], Home(w, origin);
      && (if d.npdu.hopCount == 0 then sent == [] else Floods(w, origin, inner, d.node, sent))
      && forall s :: s in sent ==>
        s.npdu == Npdu(s.npdu.source, Some(LocalBroadcast), Some(GlobalBroadcast), Some(Station(home.net, home.mac)),
                       d.npdu.hopCount - 1, None, data)
    ensures Spreads(w, origin, data, hops, level, inner, Onwards(w, flight, k, sent), got + {flight[k].node})
  {
    var d := flight[k];
    assert d in flight;
    SplitMembers(flight, k);
    var rest := flight[..k] + flight[k + 1..];
    if d.npdu.hopCount == 0 {
      assert CarryAll(w, sent) == [] && Onwards(w, flight, k, sent) == rest;
      NothingNew(w, origin, data, hops, level, inner, flight, got, k);
    } else {
      FloodsReach(w, origin, level, inner, d.node, sent);
      var ds := CarryAll(w, sent);
      forall e | e in ds
        ensures e.node !in got + {d.node} && !At(rest, e.node) && IsCopy(Home(w, origin), data, hops, level, inner, e)
      {
        NewCopy(w, origin, data, hops, level, inner, flight, got, k, sent, e);
      }
      NoTwoJoin(rest, ds);
      forall i: nat | i < |w| && i != origin
        ensures i in got + {d.node} || At(rest + ds, i) <==> Reached(w, origin, hops, level, inner, got + {d.node}, i)
      {
        NewReached(w, origin, hops, level, inner, flight, got, k, ds, i);
      }
    }
  }

  /** A node whose message had no hop left. */
  lemma NothingNew(w: World, origin: nat, data: Bytes, hops: nat, level: nat -> nat, inner: nat -> Adapter,
                   flight: seq<Delivery>, got: set<nat>, k: nat)
    requires ValidWorld(w) && Rooted(w, origin, level, inner)
    requires Spreads(w, origin, data, hops, level, inner, flight, got) && k < |flight| && flight[k].npdu.hopCount == 0
    ensures Spreads(w, origin, data, hops, level, inner, flight[..k] + flight[k + 1..], got + {flight[k].node})
  {
    var d := flight[k];
    var rest, now := flight[..k] + flight[k + 1..], got + {d.node};
    assert d in flight;
    SplitMembers(flight, k);
    forall i: nat | i < |w| && i != origin
      ensures i in now || At(rest, i) <==> Reached(w, origin, hops, level, inner, now, i)
    {
      assert i in now || At(rest, i) <==> i in got || At(flight, i) by { MovedOn(flight, got, k, i); }
    }
  }

  // ----- every run

  lemma SameTree(w: World, v: World, origin: nat, level: nat -> nat, inner: nat -> Adapter)
    requires SameNodes(w, v) && Rooted(w, origin, level, inner)
    ensures Rooted(v, origin, level, inner)
    ensures forall j, net :: Fed(v, origin, inner, j, net) <==> Fed(w, origin, inner, j, net)
  {
    forall j, a ensures Feeds(v, origin, inner, j, a) <==> Feeds(w, origin, inner, j, a) {}
    forall j, net ensures Fed(v, origin, inner, j, net) <==> Fed(w, origin, inner, j, net) {
      if Fed(w, origin, inner, j, net) {
        var a :| Feeds(w, origin, inner, j, a) && a.net == net;
        assert Feeds(v, origin, inner, j, a);
      }
      if Fed(v, origin, inner, j, net) {
        var a :| Feeds(v, origin, inner, j, a) && a.net == net;
        assert Feeds(w, origin, inner, j, a);
      }
    }
    forall i | 0 <= i < |v| && i != origin ensures Branch(v, origin, level, inner, i) {
      assert Branch(w, origin, level, inner, i);
    }
  }

  lemma SameSpreads(w: World, v: World, origin: nat, data: Bytes, hops: nat, level: nat -> nat, inner: nat -> Adapter,
                    flight: seq<Delivery>, got: set<nat>)
    requires ValidWorld(w) && ValidWorld(v) && SameNodes(w, v) && Rooted(w, origin, level, inner)
    requires Spreads(w, origin, data, hops, level, inner, flight, got)
    ensures Spreads(v, origin, data, hops, level, inner, flight, got)
  {
    SameTree(w, v, origin, level, inner);
    forall i
      ensures Reached(v, origin, hops, level, inner, got, i) <==> Reached(w, origin, hops, level, inner, got, i) {}
  }

  /** One of the copies arrives. */
  lemma ArrivalSpreads(t: Traffic, origin: nat, data: Bytes, hops: nat, level: nat -> nat, inner: nat -> Adapter,
                       got: set<nat>, k: nat)
    requires Valid(t) && Unique(t.world) && Rooted(t.world, origin, level, inner) && k < |t.flight|
    requires Spreads(t.world, origin, data, hops, level, inner, t.flight, got)
    ensures var u, d := Arrive(t, k), t.flight[k];
      && Valid(u) && SameNodes(t.world, u.world) && Unique(u.world) && Rooted(u.world, origin, level, inner)
      && Spreads(u.world, origin, data, hops, level, inner, u.flight, got + {d.node})
      && d.node < |t.world| && d.node !in got && ValidNode(t.world[d.node]) && d.arrival == inner(d.node)
      && Received(t, k).up == if t.world[d.node].server then
                                Some(Announcement(Home(t.world, origin), t.world[d.node], d.arrival, data))
                              else None
  {
    var d := t.flight[k];
    assert d in t.flight;
    ArriveValid(t, k);
    var v, sent := Learned(t, k), Received(t, k).sent;
    assert SameNodes(t.world, v);
    StillUnique(t.world, v);
    CopyArrives(t.world, origin, data, hops, level, inner, d);
    SameTree(t.world, v, origin, level, inner);
    SameSpreads(t.world, v, origin, data, hops, level, inner, t.flight, got);
    if d.npdu.hopCount != 0 { SameFloods(t.world, v, origin, inner, d.node, sent); }
    SpreadsOn(v, origin, data, hops, level, inner, t.flight, got, k, sent);
  }

  lemma SameFloods(w: World, v: World, origin: nat, inner: nat -> Adapter, j: nat, sent: seq<Sent>)
    requires SameNodes(w, v) && Floods(w, origin, inner, j, sent)
    ensures Floods(v, origin, inner, j, sent)
  {
    forall a ensures Feeds(v, origin, inner, j, a) <==> Feeds(w, origin, inner, j, a) {}
  }

  /** What the node is handed once it has had the message. */
  function Due(w: World, origin: nat, inner: nat -> Adapter, data: Bytes, id: nat): seq<Pdu>
    requires ValidWorld(w) && origin < |w| && id < |w|
  {
    assert w[id] in w;
    if w[id].server then [Announcement(Home(w, origin), w[id], inner(id), data)] else []
  }

  lemma SameDue(w: World, v: World, origin: nat, inner: nat -> Adapter, data: Bytes, id: nat)
    requires ValidWorld(w) && ValidWorld(v) && SameNodes(w, v) && origin < |w| && id < |w|
    ensures Due(v, origin, inner, data, id) == Due(w, origin, inner, data, id)
  {
    assert w[id] in w && v[id] in v;
  }

  lemma HandedInOrder(t: Traffic, origin: nat, data: Bytes, inner: nat -> Adapter, got: set<nat>, after: set<nat>,
                      picks: seq<nat>, id: nat)
    requires Valid(t) && Happens(t, picks) && picks != [] && origin < |t.world| && id < |t.world|
    requires picks[0] < |t.flight|
    requires var node := t.flight[picks[0]].node;
      && node < |t.world| && node !in got && node in after
      && (if Received(t, picks[0]).up.Some? then [Received(t, picks[0]).up.value] else [])
         == Due(t.world, origin, inner, data, node)
    requires var u, now := Arrive(t, picks[0]), got + {t.flight[picks[0]].node};
      && Valid(u) && Happens(u, picks[1..]) && SameNodes(t.world, u.world)
      && HandedTo(HandedUp(u, picks[1..]), id)
         == if id in after && id !in now then Due(u.world, origin, inner, data, id) else []
    ensures HandedTo(HandedUp(t, picks), id)
         == if id in after && id !in got then Due(t.world, origin, inner, data, id) else []
  {
    HandedStep(t, picks, id);
    SameDue(t.world, Arrive(t, picks[0]).world, origin, inner, data, id);
  }

  /** In any run each node is handed the message when it receives it, and never again. */
  lemma {:induction false} SpreadsInOrder(t: Traffic, origin: nat, data: Bytes, hops: nat, level: nat -> nat,
                                         inner: nat -> Adapter, got: set<nat>, picks: seq<nat>)
    returns (after: set<nat>)
    requires Valid(t) && Unique(t.world) && Rooted(t.world, origin, level, inner) && Happens(t, picks)
    requires Spreads(t.world, origin, data, hops, level, inner, t.flight, got)
    ensures var u := Ran(t, picks);
      && Valid(u) && SameNodes(t.world, u.world) && Rooted(u.world, origin, level, inner) && got <= after
      && Spreads(u.world, origin, data, hops, level, inner, u.flight, after)
    ensures forall id: nat :: id < |t.world| ==>
      HandedTo(HandedUp(t, picks), id)
      == if id in after && id !in got then Due(t.world, origin, inner, data, id) else []
    decreases |picks|
  {
    if picks == [] {
      after := got;
    } else {
      var k := picks[0];
      HandedStep(t, picks, 0);
      var u, node := Arrive(t, k), t.flight[k].node;
      ArrivalSpreads(t, origin, data, hops, level, inner, got, k);
      after := SpreadsInOrder(u, origin, data, hops, level, inner, got + {node}, picks[1..]);
      forall id: nat | id < |t.world|
        ensures HandedTo(HandedUp(t, picks), id)
             == if id in after && id !in got then Due(t.world, origin, inner, data, id) else []
      {
        HandedInOrder(t, origin, data, inner, got, after, picks, id);
      }
    }
  }

  /** Once nothing is under way, every node within the hops has had it. */
  lemma {:induction false} AllHaveIt(w: World, origin: nat, data: Bytes, hops: nat, level: nat -> nat,
                                    inner: nat -> Adapter, got: set<nat>, i: nat)
    requires ValidWorld(w) && Rooted(w, origin, level, inner)
    requires Spreads(w, origin, data, hops, level, inner, [], got)
    requires i < |w| && i != origin && level(inner(i).net) <= hops
    ensures i in got
    decreases level(inner(i).net)
  {
    assert Branch(w, origin, level, inner, i);
    var j: nat :| Fed(w, origin, inner, j, inner(i).net);
    var a :| Feeds(w, origin, inner, j, a) && a.net == inner(i).net;
    if j != origin {
      assert Branch(w, origin, level, inner, j);
      AllHaveIt(w, origin, data, hops, level, inner, got, j);
    }
    assert Reached(w, origin, hops, level, inner, got, i);
  }

  // ----- the start

  /** The broadcast as it leaves on an adapter of the originator: it says that it is for all, and on
      any but the local network whom it is from. */
  function FirstCopy(local: Adapter, a: Adapter, data: Bytes): Sent {
    Sent(a.net, Npdu(a.mac, Some(LocalBroadcast), Some(GlobalBroadcast),
                     if a == local then None else Some(Station(local.net, local.mac)), 255, None, data))
  }

  /** What leaves on the adapters that are not the local one. */
  lemma OthersLeave(n: Node, local: Adapter, next: Npdu, data: Bytes)
    requires ValidNode(n) && local in n.adapters
    requires next.(source := []) == Npdu([], next.destination, Some(GlobalBroadcast),
                                         Some(Station(local.net, local.mac)), 255, None, data)
    ensures var others := PutAll(n.adapters, local, next);
      && |others| == |n.adapters| - 1 && DistinctSent(others)
      && (forall a :: a in n.adapters && a != local ==> FirstCopy(local, a, data) in others)
      && (forall s :: s in others ==>
        s.net != local.net && exists a :: a in n.adapters && s == FirstCopy(local, a, data))
  {
    forall a | a != local ensures Put(a, next, LocalBroadcast) == FirstCopy(local, a, data) {}
    PutAllMembers(n.adapters, local, next);
    PutAllCount(n.adapters, local, next);
    forall s | s in PutAll(n.adapters, local, next)
      ensures s.net != local.net && exists a :: a in n.adapters && s == FirstCopy(local, a, data)
    {
      var a :| a in n.adapters && a != local && s == Put(a, next, LocalBroadcast);
      DistinctNets(n, a, local);
    }
  }

  /** A global broadcast leaves once on every adapter. */
  lemma LeavesEverywhere(n: Node, data: Bytes)
    requires ValidNode(n)
    ensures var local, sent := n.adapters[n.local], Indicate(n, GlobalBroadcast, data).sent;
      && !Indicate(n, GlobalBroadcast, data).search && |sent| == |n.adapters| && DistinctSent(sent)
      && (forall a :: a in n.adapters ==> FirstCopy(local, a, data) in sent)
      && (forall s :: s in sent ==> exists a :: a in n.adapters && s == FirstCopy(local, a, data))
  {
    var local := n.adapters[n.local];
    var first := Npdu(local.mac, Some(GlobalBroadcast), Some(GlobalBroadcast), None, 255, None, data);
    var next := first.(sadr := Some(Station(local.net, local.mac)));
    var all := PutAll(n.adapters, local, next);
    OthersLeave(n, local, next, data);
    if 1 == |n.adapters| { assert all == []; }
    assert Indicate(n, GlobalBroadcast, data).sent == [FirstCopy(local, local, data)] + all;
  }

  lemma StartFloods(w: World, origin: nat, inner: nat -> Adapter, data: Bytes)
    requires ValidWorld(w) && origin < |w|
    ensures ValidNode(w[origin]) && Floods(w, origin, inner, origin, Indicate(w[origin], GlobalBroadcast, data).sent)
  {
    var n := w[origin];
    assert n in w;
    LeavesEverywhere(n, data);
    var sent := Indicate(n, GlobalBroadcast, data).sent;
    forall a | Feeds(w, origin, inner, origin, a)
      ensures exists s :: s in sent && s.net == a.net && s.npdu.source == a.mac
    {
      assert FirstCopy(n.adapters[n.local], a, data) in sent;
    }
  }

  lemma StartSpreads(w: World, origin: nat, level: nat -> nat, inner: nat -> Adapter, data: Bytes)
    requires ValidWorld(w) && Unique(w) && Rooted(w, origin, level, inner)
    ensures Spreads(w, origin, data, 255, level, inner, Issued(w, origin, GlobalBroadcast, data).flight, {})
  {
    var n := w[origin];
    assert n in w;
    var sent, ds := Indicate(n, GlobalBroadcast, data).sent, Issued(w, origin, GlobalBroadcast, data).flight;
    StartFloods(w, origin, inner, data);
    FloodsReach(w, origin, level, inner, origin, sent);
    LeavesEverywhere(n, data);
    forall d | d in ds ensures IsCopy(Home(w, origin), data, 255, level, inner, d) {
      var s :| s in sent && s.net == d.arrival.net && d.npdu == s.npdu;
      var a :| a in n.adapters && s == FirstCopy(Home(w, origin), a, data);
      if a != Home(w, origin) { DistinctNets(n, a, Home(w, origin)); }
    }
    forall i: nat | i < |w| && i != origin
      ensures i in {} || At(ds, i) <==> Reached(w, origin, 255, level, inner, {}, i) {}
  }

  /** A global broadcast that an application sends on a tree of networks, caches and the order of
      arrivals being anything: once it is over, every other application within 256 networks has been
      handed it, exactly once and in the originator's name, and nobody else anything; before that
      nobody has been handed it twice. */
  lemma ReachesEveryone(w: World, origin: nat, level: nat -> nat, inner: nat -> Adapter, data: Bytes, picks: seq<nat>,
                        id: nat)
    requires ValidWorld(w) && Unique(w) && Rooted(w, origin, level, inner) && id < |w|
    requires Happens(Issued(w, origin, GlobalBroadcast, data), picks)
    ensures ValidNode(w[id])
    ensures var t := Issued(w, origin, GlobalBroadcast, data);
      var handed := HandedTo(HandedUp(t, picks), id);
      && (handed == [] || handed == [Announcement(Home(w, origin), w[id], inner(id), data)])
      && (Ran(t, picks).flight == [] ==>
        (handed != [] <==> id != origin && w[id].server && level(inner(id).net) <= 255))
  {
    var t := Issued(w, origin, GlobalBroadcast, data);
    assert w[id] in w;
    StartSpreads(w, origin, level, inner, data);
    var after := SpreadsInOrder(t, origin, data, 255, level, inner, {}, picks);
    var u := Ran(t, picks);
    if u.flight == [] && id != origin && level(inner(id).net) <= 255 {
      AllHaveIt(u.world, origin, data, 255, level, inner, after, id);
    }
  }

  // ----- how deep a tree can be

  /** A network further out is fed by a router one level further in. */
  lemma RouterBelow(w: World, origin: nat, level: nat -> nat, inner: nat -> Adapter, i: nat) returns (j: nat)
    requires Rooted(w, origin, level, inner) && i < |w| && i != origin && level(inner(i).net) != 0
    ensures j < |w| && j != origin && IsRouter(w[j]) && level(inner(i).net) == level(inner(j).net) + 1
  {
    assert Branch(w, origin, level, inner, i);
    j :| Fed(w, origin, inner, j, inner(i).net);
    var a :| Feeds(w, origin, inner, j, a) && a.net == inner(i).net;
    assert Branch(w, origin, level, inner, j);
    assert |w[j].adapters| <= 1 ==> a == inner(j);
  }

  /** Under a network at some level there are as many routers, one at each level below. */
  lemma {:induction false} RoutersBelow(w: World, origin: nat, level: nat -> nat, inner: nat -> Adapter, i: nat)
    returns (routers: set<nat>)
    requires Rooted(w, origin, level, inner) && i < |w| && i != origin
    ensures |routers| == level(inner(i).net)
    ensures forall j :: j in routers ==>
      j < |w| && j != origin && IsRouter(w[j]) && level(inner(j).net) < level(inner(i).net)
    decreases level(inner(i).net)
  {
    routers := {};
    if level(inner(i).net) != 0 {
      var j := RouterBelow(w, origin, level, inner, i);
      var before := RoutersBelow(w, origin, level, inner, j);
      routers := before + {j};
    }
  }

  /** On a tree of no more than 255 other routers everyone is within reach. */
  lemma ReachesEveryoneOnSmallTrees(w: World, origin: nat, level: nat -> nat, inner: nat -> Adapter, data: Bytes,
                                    picks: seq<nat>, id: nat)
    requires ValidWorld(w) && Unique(w) && Rooted(w, origin, level, inner) && id < |w| && id != origin && w[id].server
    requires |(set j | 0 <= j < |w| && j != origin && IsRouter(w[j]))| <= 255
    requires Happens(Issued(w, origin, GlobalBroadcast, data), picks)
    requires Ran(Issued(w, origin, GlobalBroadcast, data), picks).flight == []
    ensures ValidNode(w[id])
    ensures HandedTo(HandedUp(Issued(w, origin, GlobalBroadcast, data), picks), id)
         == [Announcement(Home(w, origin), w[id], inner(id), data)]
  {
    var all := set j | 0 <= j < |w| && j != origin && IsRouter(w[j]);
    var routers := RoutersBelow(w, origin, level, inner, id);
    Smaller(routers, all);
    ReachesEveryone(w, origin, level, inner, data, picks, id);
  }

  lemma {:induction false} Smaller(a: set<nat>, b: set<nat>)
    requires a <= b
    ensures |a| <= |b|
    decreases |a|
  {
    if x :| x in a { Smaller(a - {x}, b - {x}); }
  }

  /** There are such trees: a station, a router, and a station beyond it. */
  lemma SmallestRooted(home: Mac, near: Mac, far: Mac, other: Mac) returns (level: nat -> nat, inner: nat -> Adapter)
    requires home != near && far != other
    ensures var w := [Node([Adapter(1, home)], 0, true, map[]),
                      Node([Adapter(1, near), Adapter(2, far)], 0, true, map[]),
                      Node([Adapter(2, other)], 0, true, map[])];
      ValidWorld(w) && Unique(w) && Rooted(w, 0, level, inner)
  {
    var w := [Node([Adapter(1, home)], 0, true, map[]),
              Node([Adapter(1, near), Adapter(2, far)], 0, true, map[]),
              Node([Adapter(2, other)], 0, true, map[])];
    level := net => if net == 1 then 0 else 1;
    inner := i => if i == 2 then Adapter(2, other) else Adapter(1, near);
    assert w[1].adapters[0] == Adapter(1, near) && w[1].adapters[1] == Adapter(2, far);
    assert Feeds(w, 0, inner, 0, Adapter(1, home)) && Feeds(w, 0, inner, 1, Adapter(2, far));
    assert Fed(w, 0, inner, 0, 1) && Fed(w, 0, inner, 1, 2);
    assert Branch(w, 0, level, inner, 1) && Branch(w, 0, level, inner, 2);
  }
}
