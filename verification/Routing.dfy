/** The network layer of one node (bacpypes3/netservice.py): what it does with an NPDU that
    arrives on one of its adapters, and with one its application wants to send. */
module Routing {
  import opened Apdus
  import opened RouterCache

  datatype Address =
    | LocalStation(mac: Mac)
    | LocalBroadcast
    | RemoteStation(net: nat, mac: Mac)
    | RemoteBroadcast(net: nat)
    | GlobalBroadcast

  datatype Station = Station(net: nat, mac: Mac)

  /** An NPDU on a network: who put it there and for whom, and its routing header. */
  datatype Npdu = Npdu(
    source: Mac, destination: Option<Address>, dadr: Option<Address>, sadr: Option<Station>,
    hopCount: nat, netMessage: Option<byte>, data: Bytes)

  /** The network behind an adapter, and the address of the node there. */
  datatype Adapter = Adapter(net: nat, mac: Mac)

  /** The adapters in the order in which they were bound, which of them is the local one,
      whether there is an application, and the paths in the cache. */
  datatype Node = Node(adapters: seq<Adapter>, local: nat, server: bool, paths: Paths)

  /** An NPDU for one of the adapters to send. */
  datatype Sent = Sent(net: nat, npdu: Npdu)

  /** What is handed to the application. */
  datatype Pdu = Pdu(source: Address, destination: Option<Address>, data: Bytes)

  /** What a node has done: the paths it now knows, what went to its application, whether its
      service element got the message, what it sent, and whether it looks for a router. */
  datatype Handled = Handled(paths: Paths, up: Option<Pdu>, service: bool, sent: seq<Sent>, search: bool)

  predicate ValidNode(n: Node) {
    && n.local < |n.adapters|
    && forall i, j :: 0 <= i < j < |n.adapters| ==> n.adapters[i].net != n.adapters[j].net
  }

  predicate Attached(adapters: seq<Adapter>, net: nat) {
    exists a :: a in adapters && a.net == net
  }

  function AdapterOn(adapters: seq<Adapter>, net: nat): (r: Option<Adapter>)
    ensures r.Some? <==> Attached(adapters, net)
    ensures r.Some? ==> r.value in adapters && r.value.net == net
  {
    if adapters == [] then None
    else if adapters[0].net == net then Some(adapters[0])
    else
      var rest := AdapterOn(adapters[1..], net);
      assert adapters == [adapters[0]] + adapters[1..];
      rest
  }

  /** The first adapter whose network has a path to the destination network. */
  function FindPath(adapters: seq<Adapter>, paths: Paths, dnet: nat): (r: Option<(Adapter, Mac)>)
    ensures r.Some? ==> r.value.0 in adapters && (Some(r.value.0.net), dnet) in paths
    ensures r.Some? ==> paths[(Some(r.value.0.net), dnet)].router == r.value.1
    ensures r.None? ==> forall a :: a in adapters ==> (Some(a.net), dnet) !in paths
  {
    if adapters == [] then None
    else if (Some(adapters[0].net), dnet) in paths then Some((adapters[0], paths[(Some(adapters[0].net), dnet)].router))
    else FindPath(adapters[1..], paths, dnet)
  }

  // ----- an NPDU arrives

  /** A source beyond this network is learned, unless it claims a network of the node's own. */
  function Learn(n: Node, arrival: Adapter, npdu: Npdu): Option<Paths> {
    if npdu.sadr.None? then Some(n.paths)
    else if Attached(n.adapters, npdu.sadr.value.net) then None
    else Some(Announce(n.paths, Some(arrival.net), npdu.source, {npdu.sadr.value.net}))
  }

  /** Is the message for this node, is it to be sent on; None for a path error. */
  function Classify(n: Node, arrival: Adapter, npdu: Npdu): Option<(bool, bool)>
    requires ValidNode(n)
  {
    var local := n.adapters[n.local];
    match npdu.dadr
    case None => Some((arrival == local || npdu.netMessage.Some?, false))
    case Some(RemoteBroadcast(net)) => if net == arrival.net then None else Some((net == local.net, true))
    case Some(RemoteStation(net, mac)) =>
      if net == arrival.net then None
      else
        var mine := net == local.net && mac == local.mac;
        Some((mine, !mine))
    case Some(GlobalBroadcast) => Some((true, true))
    case Some(_) => None
  }

  /** How a message looks to the application. */
  function Deliver(n: Node, arrival: Adapter, npdu: Npdu): Pdu
    requires ValidNode(n)
  {
    var local := n.adapters[n.local];
    if 1 < |n.adapters| && arrival != local then
      var source := if npdu.sadr.None? then RemoteStation(arrival.net, npdu.source)
                    else RemoteStation(npdu.sadr.value.net, npdu.sadr.value.mac);
      var destination := if npdu.dadr == Some(GlobalBroadcast) then GlobalBroadcast
                         else if npdu.dadr.Some? && npdu.dadr.value.RemoteBroadcast? then LocalBroadcast
                         else LocalStation(local.mac);
      Pdu(source, Some(destination), npdu.data)
    else
      var source := if npdu.sadr.Some? then RemoteStation(npdu.sadr.value.net, npdu.sadr.value.mac)
                    else LocalStation(npdu.source);
      Pdu(source, if npdu.dadr == Some(GlobalBroadcast) then Some(GlobalBroadcast) else npdu.destination, npdu.data)
  }

  /** The copy that goes on: one hop less, and with the originator's network and address. */
  function Onward(arrival: Adapter, npdu: Npdu): Npdu
    requires 0 < npdu.hopCount
  {
    npdu.(hopCount := npdu.hopCount - 1,
          sadr := if npdu.sadr.None? then Some(Station(arrival.net, npdu.source)) else npdu.sadr)
  }

  /** On an adapter, for that destination; the adapter puts its own address in. */
  function Put(a: Adapter, npdu: Npdu, destination: Address): Sent {
    Sent(a.net, npdu.(source := a.mac, destination := Some(destination)))
  }

  function PutAll(adapters: seq<Adapter>, but: Adapter, npdu: Npdu): (sent: seq<Sent>)
    ensures forall s :: s in sent ==> exists a :: a in adapters && a != but && s == Put(a, npdu, LocalBroadcast)
    ensures |sent| <= |adapters|
  {
    if adapters == [] then []
    else
      (if adapters[0] != but then [Put(adapters[0], npdu, LocalBroadcast)] else [])
      + PutAll(adapters[1..], but, npdu)
  }

  /** One turn of the loop over the adapters. */
  lemma PutNext(adapters: seq<Adapter>, i: nat, but: Adapter, npdu: Npdu, sent: seq<Sent>)
    requires i < |adapters|
    ensures sent + PutAll(adapters[i..], but, npdu)
         == (if adapters[i] != but then sent + [Put(adapters[i], npdu, LocalBroadcast)] else sent)
            + PutAll(adapters[i + 1..], but, npdu)
  {
    assert adapters[i..][0] == adapters[i] && adapters[i..][1..] == adapters[i + 1..];
  }

  datatype Sending = Sending(sent: seq<Sent>, search: bool)

  /** A message for another network. */
  function SendOn(n: Node, arrival: Adapter, npdu: Npdu, dnet: nat): Sending
    requires npdu.dadr.Some? && (npdu.dadr.value.RemoteStation? || npdu.dadr.value.RemoteBroadcast?)
  {
    var direct := AdapterOn(n.adapters, dnet);
    if direct.Some? then
      if direct.value == arrival then Sending([], false)
      else
        var last := npdu.(dadr := None);
        var destination := if npdu.dadr.value.RemoteBroadcast? then LocalBroadcast
            else LocalStation(npdu.dadr.value.mac);
        Sending([Put(direct.value, last, destination)], false)
    else
      match FindPath(n.adapters, n.paths, dnet)
      case None => Sending([], true)
      case Some((a, router)) =>
        if a == arrival then Sending([], false) else Sending([Put(a, npdu, LocalStation(router))], false)
  }

  function Forward(n: Node, arrival: Adapter, npdu: Npdu): Sending {
    if |n.adapters| == 1 || npdu.hopCount == 0 || npdu.dadr.None? then Sending([], false)
    else
      var next := Onward(arrival, npdu);
      match npdu.dadr.value
      case GlobalBroadcast => Sending(PutAll(n.adapters, arrival, next), false)
      case RemoteBroadcast(net) => SendOn(n, arrival, next, net)
      case RemoteStation(net, _) => SendOn(n, arrival, next, net)
      case _ => Sending([], false)
  }

  /** The network layer messages that have a class: npdu_types. */
  predicate Known(message: byte) {
    message <= 0x09 || message == 0x12 || message == 0x13
  }

  /** process_npdu */
  function Process(n: Node, arrival: Adapter, npdu: Npdu): Handled
    requires ValidNode(n) && arrival in n.adapters
  {
    var learned := Learn(n, arrival, npdu);
    if learned.None? then Handled(n.paths, None, false, [], false)
    else
      var now := n.(paths := learned.value);
      var what := Classify(now, arrival, npdu);
      if what.None? then Handled(now.paths, None, false, [], false)
      else if what.value.0 && npdu.netMessage.Some? && !Known(npdu.netMessage.value) then
        Handled(now.paths, None, false, [], false)
      else
        var application := npdu.netMessage.None?;
        var up := if what.value.0 && application && n.server then Some(Deliver(now, arrival, npdu)) else None;
        var sending := if what.value.1 then Forward(now, arrival, npdu) else Sending([], false);
        Handled(now.paths, up, what.value.0 && !application, sending.sent, sending.search)
  }

  // ----- the application sends

  /** The routing part of indication. */
  function Indicate(n: Node, to: Address, data: Bytes): Sending
    requires ValidNode(n)
  {
    var local := n.adapters[n.local];
    var npdu := Npdu(local.mac, Some(to), None, None, 255, None, data);
    match to
    case LocalStation(_) => Sending([Put(local, npdu, to)], false)
    case LocalBroadcast => Sending([Put(local, npdu, to)], false)
    case GlobalBroadcast =>
      var first := npdu.(dadr := Some(to));
      var others :=
        if 1 < |n.adapters| then PutAll(n.adapters, local, first.(sadr := Some(Station(local.net, local.mac)))) else [];
      Sending([Put(local, first, LocalBroadcast)] + others, false)
    case RemoteStation(net, mac) => IndicateRemote(n, npdu, net, LocalStation(mac), to)
    case RemoteBroadcast(net) => IndicateRemote(n, npdu, net, LocalBroadcast, to)
  }

  /** To a network of its own, with the remote destination made local, or to a router. */
  function IndicateRemote(n: Node, npdu: Npdu, dnet: nat, there: Address, to: Address): Sending
    requires ValidNode(n)
  {
    var local := n.adapters[n.local];
    var direct := AdapterOn(n.adapters, dnet);
    if direct.Some? then
      var sadr := if direct.value != local then Some(Station(local.net, local.mac)) else None;
      Sending([Put(direct.value, npdu.(sadr := sadr), there)], false)
    else
      match FindPath(n.adapters, n.paths, dnet)
      case None => Sending([], true)
      case Some((a, router)) => Sending([Put(a, npdu.(dadr := Some(to)), LocalStation(router))], false)
  }

  // ----- the same in the form of the source

  class NetworkServiceAccessPoint {
    const adapters: seq<Adapter>
    const localAdapter: nat
    const serverPeer: bool
    const routerInfoCache: RouterInfoCache

    constructor (adapters: seq<Adapter>, localAdapter: nat, serverPeer: bool)
      requires ValidNode(Node(adapters, localAdapter, serverPeer, map[]))
      ensures this.adapters == adapters && this.localAdapter == localAdapter && this.serverPeer == serverPeer
      ensures fresh(routerInfoCache) && routerInfoCache.pathInfo == map[] && Valid()
    {
      this.adapters, this.localAdapter, this.serverPeer := adapters, localAdapter, serverPeer;
      routerInfoCache := new RouterInfoCache();
    }

    function AsNode(): Node
      reads routerInfoCache
    {
      Node(adapters, localAdapter, serverPeer, routerInfoCache.pathInfo)
    }

    predicate Valid()
      reads routerInfoCache
    {
      ValidNode(AsNode()) && routerInfoCache.Valid()
    }

    /** self.adapters.get(net) */
    method Adapters(net: nat) returns (r: Option<Adapter>)
      ensures r == AdapterOn(adapters, net)
    {
      var i := 0;
      while i < |adapters|
        invariant 0 <= i <= |adapters| && AdapterOn(adapters, net) == AdapterOn(adapters[i..], net)
      {
        assert adapters[i..][0] == adapters[i] && adapters[i..][1..] == adapters[i + 1..];
        if adapters[i].net == net {
          return Some(adapters[i]);
        }
        i := i + 1;
      }
      r := None;
    }

    /** The loop over the adapters that looks for a path. */
    method SearchPath(dnet: nat) returns (r: Option<(Adapter, Mac)>)
      ensures r == FindPath(adapters, routerInfoCache.pathInfo, dnet)
    {
      var i := 0;
      while i < |adapters|
        invariant 0 <= i <= |adapters|
        invariant FindPath(adapters, routerInfoCache.pathInfo, dnet)
               == FindPath(adapters[i..], routerInfoCache.pathInfo, dnet)
      {
        assert adapters[i..][0] == adapters[i] && adapters[i..][1..] == adapters[i + 1..];
        var info := routerInfoCache.GetPathInfo(Some(adapters[i].net), dnet);
        if info.Some? {
          return Some((adapters[i], info.value.router));
        }
        i := i + 1;
      }
      r := None;
    }

    /** The loop over the adapters that sends a broadcast on all but one. */
    method Broadcast(but: Adapter, npdu: Npdu) returns (sent: seq<Sent>)
      ensures sent == PutAll(adapters, but, npdu)
    {
      sent := [];
      var i := 0;
      while i < |adapters|
        invariant 0 <= i <= |adapters|
        invariant PutAll(adapters, but, npdu) == sent + PutAll(adapters[i..], but, npdu)
      {
        PutNext(adapters, i, but, npdu, sent);
        if adapters[i] != but { sent := sent + [Put(adapters[i], npdu, LocalBroadcast)]; }
        i := i + 1;
      }
    }

    /** The way to a source beyond this network; one that claims a network of the node's own is not
        learned, and its message goes no further. */
    method LearnSource(arrival: Adapter, npdu: Npdu) returns (learned: bool)
      requires Valid()
      modifies routerInfoCache
      ensures Valid()
      ensures var paths := Learn(old(AsNode()), arrival, npdu);
        learned == paths.Some? && routerInfoCache.pathInfo == if learned then paths.value
            else old(routerInfoCache.pathInfo)
    {
      learned := true;
      if npdu.sadr.Some? {
        var own := Adapters(npdu.sadr.value.net);
        if own.Some? {
          return false;
        }
        routerInfoCache.UpdatePathInfo(Some(arrival.net), npdu.source, {npdu.sadr.value.net});
      }
    }

    method ProcessNpdu(arrival: Adapter, npdu: Npdu) returns (up: Option<Pdu>, service: bool, sent: seq<Sent>,
                       search: bool)
      requires Valid() && arrival in adapters
      modifies routerInfoCache
      ensures Valid()
      ensures Handled(routerInfoCache.pathInfo, up, service, sent, search) == Process(old(AsNode()), arrival, npdu)
    {
      up, service, sent, search := None, false, [], false;
      var learned := LearnSource(arrival, npdu);
      if !learned {
        return;
      }
      var what := Classify(AsNode(), arrival, npdu);
      if what.None? {
        return;
      }
      if what.value.0 {
        if npdu.netMessage.Some? {
          if !Known(npdu.netMessage.value) {
            return;
          }
          service := true;
        } else if serverPeer {
          up := Some(Deliver(AsNode(), arrival, npdu));
        }
      }
      if what.value.1 {
        sent, search := ForwardNpdu(arrival, npdu);
      }
    }

    method ForwardNpdu(arrival: Adapter, npdu: Npdu) returns (sent: seq<Sent>, search: bool)
      requires Valid() && arrival in adapters
      ensures Sending(sent, search) == Forward(AsNode(), arrival, npdu)
    {
      sent, search := [], false;
      if |adapters| == 1 || npdu.hopCount == 0 || npdu.dadr.None? {
        return;
      }
      var next := npdu;
      next := next.(hopCount := npdu.hopCount - 1);
      if npdu.sadr.None? { next := next.(sadr := Some(Station(arrival.net, npdu.source))); }
      match npdu.dadr.value {
        case GlobalBroadcast => sent := Broadcast(arrival, next);
        case RemoteBroadcast(net) => sent, search := SendNpduOn(arrival, next, net);
        case RemoteStation(net, _) => sent, search := SendNpduOn(arrival, next, net);
        case _ =>
      }
    }

    method SendNpduOn(arrival: Adapter, npdu: Npdu, dnet: nat) returns (sent: seq<Sent>, search: bool)
      requires npdu.dadr.Some? && (npdu.dadr.value.RemoteStation? || npdu.dadr.value.RemoteBroadcast?)
      ensures Sending(sent, search) == SendOn(AsNode(), arrival, npdu, dnet)
    {
      sent, search := [], false;
      var direct := Adapters(dnet);
      if direct.Some? {
        if direct.value != arrival {
          var destination := if npdu.dadr.value.RemoteBroadcast? then LocalBroadcast
              else LocalStation(npdu.dadr.value.mac);
          sent := [Put(direct.value, npdu.(dadr := None), destination)];
        }
        return;
      }
      var found := SearchPath(dnet);
      if found.None? {
        search := true;
      } else if found.value.0 != arrival {
        sent := [Put(found.value.0, npdu, LocalStation(found.value.1))];
      }
    }

    method Indication(to: Address, data: Bytes) returns (sent: seq<Sent>, search: bool)
      requires Valid()
      ensures Sending(sent, search) == Indicate(AsNode(), to, data)
    {
      search := false;
      var local := adapters[localAdapter];
      var npdu := Npdu(local.mac, Some(to), None, None, 255, None, data);
      match to {
        case GlobalBroadcast =>
          npdu := npdu.(dadr := Some(to));
          sent := [Put(local, npdu, LocalBroadcast)];
          if 1 < |adapters| {
            var others := Broadcast(local, npdu.(sadr := Some(Station(local.net, local.mac))));
            sent := sent + others;
          }
        case RemoteStation(net, mac) => sent, search := IndicationTo(npdu, net, LocalStation(mac), to);
        case RemoteBroadcast(net) => sent, search := IndicationTo(npdu, net, LocalBroadcast, to);
        case _ => sent := [Put(local, npdu, to)];
      }
    }

    method IndicationTo(npdu: Npdu, dnet: nat, there: Address, to: Address) returns (sent: seq<Sent>, search: bool)
      requires Valid()
      ensures Sending(sent, search) == IndicateRemote(AsNode(), npdu, dnet, there, to)
    {
      sent, search := [], false;
      var local := adapters[localAdapter];
      var direct := Adapters(dnet);
      if direct.Some? {
        var sadr := if direct.value != local then Some(Station(local.net, local.mac)) else None;
        sent := [Put(direct.value, npdu.(sadr := sadr), there)];
        return;
      }
      var found := SearchPath(dnet);
      if found.None? {
        search := true;
      } else {
        sent := [Put(found.value.0, npdu.(dadr := Some(to)), LocalStation(found.value.1))];
      }
    }
  }
}
