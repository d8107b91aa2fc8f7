/** Nodes on any graph of networks, cycles included: what is forwarded comes to an end. */
module Forwarding {
  import opened Apdus
  import opened RouterCache
  import opened Routing

  /** The nodes of an internetwork. */
  type World = seq<Node>

  /** An NPDU about to be received by a node on one of its adapters. */
  datatype Delivery = Delivery(node: nat, arrival: Adapter, npdu: Npdu)

  predicate ValidWorld(w: World) {
    forall n :: n in w ==> ValidNode(n)
  }

  predicate ValidDelivery(w: World, d: Delivery) {
    d.node < |w| && d.arrival in w[d.node].adapters
  }

  // ----- one message at one node

  /** Nothing leaves on the adapter it came in on, every copy has one hop less, and a message
      without hops goes no further. */
  lemma ForwardedCopies(n: Node, arrival: Adapter, npdu: Npdu, s: Sent)
    requires ValidNode(n) && arrival in n.adapters && s in Process(n, arrival, npdu).sent
    ensures s.net != arrival.net && 0 < npdu.hopCount && s.npdu.hopCount == npdu.hopCount - 1
    ensures exists a :: a in n.adapters && a.net == s.net && a.mac == s.npdu.source
    ensures s.npdu.sadr == if npdu.sadr.Some? then npdu.sadr else Some(Station(arrival.net, npdu.source))
  {
    var now := n.(paths := Learn(n, arrival, npdu).value);
    var next := Onward(arrival, npdu);
    assert s in Forward(now, arrival, npdu).sent;
    if npdu.dadr == Some(GlobalBroadcast) {
      var a :| a in n.adapters && a != arrival && s == Put(a, next, LocalBroadcast);
      DistinctNets(n, a, arrival);
    } else {
      var dnet := npdu.dadr.value.net;
      SentOn(now, arrival, next, dnet, s);
    }
  }

  lemma DistinctNets(n: Node, a: Adapter, b: Adapter)
    requires ValidNode(n) && a in n.adapters && b in n.adapters && a != b
    ensures a.net != b.net
  {
  }

  lemma SentOn(n: Node, arrival: Adapter, npdu: Npdu, dnet: nat, s: Sent)
    requires ValidNode(n) && arrival in n.adapters
    requires npdu.dadr.Some? && (npdu.dadr.value.RemoteStation? || npdu.dadr.value.RemoteBroadcast?)
    requires s in SendOn(n, arrival, npdu, dnet).sent
    ensures s.net != arrival.net && s.npdu.hopCount == npdu.hopCount && s.npdu.sadr == npdu.sadr
    ensures exists a :: a in n.adapters && a.net == s.net && a.mac == s.npdu.source
  {
    var direct := AdapterOn(n.adapters, dnet);
    var a := if direct.Some? then direct.value else FindPath(n.adapters, n.paths, dnet).value.0;
    assert a in n.adapters && a.net == s.net && a.mac == s.npdu.source;
    DistinctNets(n, a, arrival);
  }

  lemma FewSent(n: Node, arrival: Adapter, npdu: Npdu)
    requires ValidNode(n) && arrival in n.adapters
    ensures |Process(n, arrival, npdu).sent| <= |n.adapters|
  {
  }

  // ----- the networks carry what is sent

  /** Who receives what is sent: every adapter of its network it is meant for, but not the
      sender's own. */
  predicate Hears(a: Adapter, s: Sent) {
    a.net == s.net && a.mac != s.npdu.source && (s.npdu.destination == Some(LocalBroadcast)
        || s.npdu.destination == Some(LocalStation(a.mac)))
  }

  function AtNode(id: nat, adapters: seq<Adapter>, s: Sent): (ds: seq<Delivery>)
    ensures |ds| <= |adapters|
    ensures forall d :: d in ds ==> d.node == id && d.arrival in adapters && d.npdu == s.npdu
  {
    if adapters == [] then []
    else (if Hears(adapters[0], s) then [Delivery(id, adapters[0], s.npdu)] else []) + AtNode(id, adapters[1..], s)
  }

  /** The adapters there are. */
  function Ports(w: World): nat {
    if w == [] then 0 else |w[0].adapters| + Ports(w[1..])
  }

  function Carry(w: World, id: nat, s: Sent): (ds: seq<Delivery>)
    requires id <= |w|
    ensures |ds| <= Ports(w[id..])
    ensures forall d :: d in ds ==> ValidDelivery(w, d) && d.npdu == s.npdu
    decreases |w| - id
  {
    if id == |w| then []
    else
      assert w[id..][0] == w[id] && w[id..][1..] == w[id + 1..];
      AtNode(id, w[id].adapters, s) + Carry(w, id + 1, s)
  }

  function CarryAll(w: World, sent: seq<Sent>): (ds: seq<Delivery>)
    ensures forall d :: d in ds ==> ValidDelivery(w, d) && exists s :: s in sent && d.npdu == s.npdu
  {
    if sent == [] then []
    else
      assert forall d :: d in Carry(w, 0, sent[0]) ==> d.npdu == sent[0].npdu && sent[0] in sent;
      Carry(w, 0, sent[0]) + CarryAll(w, sent[1..])
  }

  lemma {:induction false} FewCarried(w: World, sent: seq<Sent>)
    ensures |CarryAll(w, sent)| <= |sent| * Ports(w)
    decreases |sent|
  {
    if sent != [] {
      FewCarried(w, sent[1..]);
      assert w[0..] == w;
      OneMore(|sent|, Ports(w));
    }
  }

  lemma OneMore(a: nat, b: nat)
    requires 0 < a
    ensures b + (a - 1) * b == a * b
  {
  }

  lemma {:induction false} OneOfThePorts(w: World, id: nat)
    requires id < |w|
    ensures |w[id].adapters| <= Ports(w)
    decreases |w|
  {
    if id != 0 { OneOfThePorts(w[1..], id - 1); }
  }

  // ----- a run

  datatype Traffic = Traffic(world: World, flight: seq<Delivery>)

  predicate Valid(t: Traffic) {
    ValidWorld(t.world) && forall d :: d in t.flight ==> ValidDelivery(t.world, d)
  }

  /** What the i-th message in flight makes its receiver do. */
  function Received(t: Traffic, i: nat): Handled
    requires Valid(t) && i < |t.flight|
  {
    var d := t.flight[i];
    assert d in t.flight;
    Process(t.world[d.node], d.arrival, d.npdu)
  }

  function Learned(t: Traffic, i: nat): World
    requires Valid(t) && i < |t.flight|
  {
    var d := t.flight[i];
    assert d in t.flight;
    t.world[d.node := t.world[d.node].(paths := Received(t, i).paths)]
  }

  /** Any of the messages in flight arrives next. */
  function Arrive(t: Traffic, i: nat): Traffic
    requires Valid(t) && i < |t.flight|
  {
    Traffic(Learned(t, i), t.flight[..i] + t.flight[i + 1..] + CarryAll(Learned(t, i), Received(t, i).sent))
  }

  lemma ArriveValid(t: Traffic, i: nat)
    requires Valid(t) && i < |t.flight|
    ensures Valid(Arrive(t, i)) && Ports(Arrive(t, i).world) == Ports(t.world)
  {
    var d := t.flight[i];
    assert d in t.flight;
    var n := t.world[d.node];
    var now := n.(paths := Received(t, i).paths);
    SamePorts(t.world, d.node, now);
    var world := Learned(t, i);
    forall m | m in world ensures ValidNode(m) { assert n in t.world; }
    forall e | e in Arrive(t, i).flight ensures ValidDelivery(world, e) {
      if e !in CarryAll(world, Received(t, i).sent) { assert e in t.flight; }
    }
  }

  lemma {:induction false} SamePorts(w: World, id: nat, n: Node)
    requires id < |w| && |n.adapters| == |w[id].adapters|
    ensures Ports(w[id := n]) == Ports(w)
    decreases |w|
  {
    if id == 0 {
      assert w[id := n][1..] == w[1..];
    } else {
      assert w[id := n][1..] == w[1..][id - 1 := n];
      SamePorts(w[1..], id - 1, n);
    }
  }

  // ----- the weight falls

  function Power(f: nat, e: nat): nat {
    if e == 0 then 1 else f * Power(f, e - 1)
  }

  /** More than one arrival can cause. */
  function Fan(w: World): nat {
    Ports(w) * Ports(w) + 1
  }

  function Weight(f: nat, flight: seq<Delivery>): nat {
    if flight == [] then 0 else Power(f, flight[0].npdu.hopCount + 1) + Weight(f, flight[1..])
  }

  lemma {:induction false} WeightJoin(f: nat, a: seq<Delivery>, b: seq<Delivery>)
    ensures Weight(f, a + b) == Weight(f, a) + Weight(f, b)
    decreases |a|
  {
    if a == [] {
      assert a + b == b;
    } else {
      WeightJoin(f, a[1..], b);
      assert (a + b)[1..] == a[1..] + b;
    }
  }

  lemma {:induction false} WeightWithout(f: nat, flight: seq<Delivery>, i: nat)
    requires i < |flight|
    ensures Weight(f, flight) == Weight(f, flight[..i] + flight[i + 1..]) + Power(f, flight[i].npdu.hopCount + 1)
  {
    assert flight == flight[..i] + ([flight[i]] + flight[i + 1..]);
    WeightJoin(f, flight[..i], [flight[i]] + flight[i + 1..]);
    assert ([flight[i]] + flight[i + 1..])[1..] == flight[i + 1..];
    WeightJoin(f, flight[..i], flight[i + 1..]);
  }

  lemma {:induction false} EqualWeights(f: nat, ds: seq<Delivery>, hops: nat)
    requires forall d :: d in ds ==> d.npdu.hopCount == hops
    ensures Weight(f, ds) == |ds| * Power(f, hops + 1)
    decreases |ds|
  {
    if ds != [] {
      assert ds[0] in ds;
      EqualWeights(f, ds[1..], hops);
      OneMore(|ds|, Power(f, hops + 1));
    }
  }

  lemma {:induction false} PowerPositive(f: nat, e: nat)
    requires 0 < f
    ensures 0 < Power(f, e)
    decreases e
  {
    if e != 0 {
      PowerPositive(f, e - 1);
      Product(f, Power(f, e - 1), 1, 1);
    }
  }

  lemma Product(a: nat, b: nat, c: nat, d: nat)
    requires c <= a && d <= b
    ensures c * d <= a * b
  {
    assert c * d <= a * d <= a * b;
  }

  /** What one arrival puts in flight weighs less than what it takes out. */
  lemma CopiesWeighLess(t: Traffic, i: nat)
    requires Valid(t) && i < |t.flight|
    ensures Weight(Fan(t.world), CarryAll(Learned(t, i), Received(t, i).sent))
          < Power(Fan(t.world), t.flight[i].npdu.hopCount + 1)
  {
    var d := t.flight[i];
    assert d in t.flight;
    var f := Fan(t.world);
    var ds := CarryAll(Learned(t, i), Received(t, i).sent);
    PowerPositive(f, d.npdu.hopCount + 1);
    if ds != [] {
      CopiesHops(t.world[d.node], d, Learned(t, i), ds);
      EqualWeights(f, ds, d.npdu.hopCount - 1);
      FewCopies(t.world, d, Learned(t, i));
      PowerPositive(f, d.npdu.hopCount);
      Outweighed(|ds|, f, Power(f, d.npdu.hopCount));
    }
  }

  lemma CopiesHops(n: Node, d: Delivery, world: World, ds: seq<Delivery>)
    requires ValidNode(n) && d.arrival in n.adapters
    requires ds == CarryAll(world, Process(n, d.arrival, d.npdu).sent) && ds != []
    ensures 0 < d.npdu.hopCount && forall e :: e in ds ==> e.npdu.hopCount == d.npdu.hopCount - 1
  {
    var sent := Process(n, d.arrival, d.npdu).sent;
    forall e | e in ds ensures 0 < d.npdu.hopCount && e.npdu.hopCount == d.npdu.hopCount - 1 {
      var s :| s in sent && e.npdu == s.npdu;
      ForwardedCopies(n, d.arrival, d.npdu, s);
    }
    assert ds[0] in ds;
  }

  lemma FewCopies(w: World, d: Delivery, world: World)
    requires ValidWorld(w) && ValidDelivery(w, d)
    requires world == w[d.node := w[d.node].(paths := Process(w[d.node], d.arrival, d.npdu).paths)]
    ensures |CarryAll(world, Process(w[d.node], d.arrival, d.npdu).sent)| < Fan(w)
  {
    var n := w[d.node];
    var h := Process(n, d.arrival, d.npdu);
    FewSent(n, d.arrival, d.npdu);
    FewCarried(world, h.sent);
    SamePorts(w, d.node, n.(paths := h.paths));
    OneOfThePorts(w, d.node);
    Product(Ports(w), Ports(w), |h.sent|, Ports(w));
  }

  lemma Outweighed(count: nat, f: nat, p: nat)
    requires count < f && 0 < p
    ensures count * p < f * p
  {
    assert (count + 1) * p == count * p + p;
    Product(f, p, count + 1, p);
  }

  lemma WeightFalls(t: Traffic, i: nat)
    requires Valid(t) && i < |t.flight|
    ensures Weight(Fan(t.world), Arrive(t, i).flight) < Weight(Fan(t.world), t.flight)
  {
    var f := Fan(t.world);
    WeightWithout(f, t.flight, i);
    WeightJoin(f, t.flight[..i] + t.flight[i + 1..], CarryAll(Learned(t, i), Received(t, i).sent));
    CopiesWeighLess(t, i);
  }

  // ----- every run ends

  /** Each pick is a message then in flight. */
  predicate Happens(t: Traffic, picks: seq<nat>)
    requires Valid(t)
    decreases |picks|
  {
    picks == [] ||
    (picks[0] < |t.flight| && (ArriveValid(t, picks[0]); Happens(Arrive(t, picks[0]), picks[1..])))
  }

  /** In any internetwork and from any messages in flight, the order in which they arrive being
      anything at all, no more arrivals can happen than the messages weigh. */
  lemma {:induction false} ForwardingEnds(t: Traffic, picks: seq<nat>)
    requires Valid(t) && Happens(t, picks)
    ensures |picks| <= Weight(Fan(t.world), t.flight)
    decreases |picks|
  {
    if picks != [] {
      ArriveValid(t, picks[0]);
      WeightFalls(t, picks[0]);
      ForwardingEnds(Arrive(t, picks[0]), picks[1..]);
    }
  }
}
