/** RouterInfoCache (bacpypes3/netservice.py): which router leads from a source network to a
    destination network, and which networks each router leads to. */
module RouterCache {
  import opened Apdus

  type Mac = Bytes

  /** The network of an adapter, when it is known. */
  type Source = Option<nat>

  datatype Status = AVAILABLE | BUSY | DISCONNECTED

  datatype PathInfo = PathInfo(router: Mac, status: Status)

  type Paths = map<(Source, nat), PathInfo>

  type Routers = map<(Source, Mac), set<nat>>

  /** Every path names a router that lists its network, and every router lists only networks
      whose path names it. */
  predicate Inverse(paths: Paths, routers: Routers) {
    && (forall k :: k in paths ==> (k.0, paths[k].router) in routers && k.1 in routers[(k.0, paths[k].router)])
    && (forall r, d :: r in routers && d in routers[r] ==> (r.0, d) in paths && paths[(r.0, d)].router == r.1)
  }

  // ----- what each update means for the paths

  /** A router has announced networks: it is the way to them from now on. A path that already
      led through it keeps its status. */
  function Announce(paths: Paths, snet: Source, router: Mac, dnets: set<nat>): (r: Paths)
    ensures forall k :: k in r <==> k in paths || (k.0 == snet && k.1 in dnets)
    ensures forall k :: k in r && !(k.0 == snet && k.1 in dnets) ==> r[k] == paths[k]
    ensures forall k :: k in r && k.0 == snet && k.1 in dnets ==>
      r[k] == if k in paths && paths[k].router == router then paths[k] else PathInfo(router, AVAILABLE)
  {
    map k | k in paths.Keys + (set d | d in dnets :: (snet, d)) ::
      if !(k.0 == snet && k.1 in dnets) then paths[k]
      else if k in paths && paths[k].router == router then paths[k]
      else PathInfo(router, AVAILABLE)
  }

  /** The paths to those networks through that router, or through any when none is given. */
  predicate Forgotten(paths: Paths, snet: Source, router: Option<Mac>, dnets: Option<set<nat>>, k: (Source, nat)) {
    && k in paths && k.0 == snet
    && (router.Some? ==> paths[k].router == router.value)
    && (dnets.Some? ==> k.1 in dnets.value)
  }

  function Forget(paths: Paths, snet: Source, router: Option<Mac>, dnets: Option<set<nat>>): Paths {
    map k | k in paths && !Forgotten(paths, snet, router, dnets, k) :: paths[k]
  }

  function SetStatus(paths: Paths, snet: Source, router: Mac, status: Status): Paths {
    map k | k in paths :: if k.0 == snet && paths[k].router == router then PathInfo(router, status) else paths[k]
  }

  /** Paths from the old network are paths from the new one. */
  function Renumber(paths: Paths, oldNet: Source, newNet: Source): Paths {
    map k | k in paths.Keys + (set q | q in paths && q.0 == oldNet :: (newNet, q.1))
        && (k.0 == oldNet ==> oldNet == newNet) ::
      if k.0 == newNet && (oldNet, k.1) in paths then paths[(oldNet, k.1)] else paths[k]
  }

  /** The networks are taken off the lists of the routers there, which stay even when empty. */
  function Struck(routers: Routers, snet: Source, dnets: set<nat>): Routers {
    map r | r in routers :: if r.0 == snet then routers[r] - dnets else routers[r]
  }

  /** The routers of one source network have lost some of their networks, and those that have lost
      their last one are gone. */
  ghost predicate Drained(was: Routers, now: Routers, snet: Source, gone: set<nat>) {
    && (forall r :: r in now <==> r in was && !(r.0 == snet && was[r] != {} && was[r] <= gone))
    && (forall r :: r in now ==> now[r] == if r.0 == snet then was[r] - gone else was[r])
  }

  /** The router that has announced networks lists them besides those it listed before, and the
      others there no longer do. */
  ghost predicate Relisted(was: Routers, now: Routers, snet: Source, router: Mac, dnets: set<nat>) {
    var known := if (snet, router) in was then was[(snet, router)] else {};
    if (snet, router) in was && dnets <= known then now == was
    else
      && (snet, router) in now && now[(snet, router)] == known + dnets
      && Drained(was - {(snet, router)}, now - {(snet, router)}, snet, dnets - known)
  }

  /** The networks that a removal takes from a router go off its list, and the router with the
      last of them; when no router is given they go off every list, and the routers stay. */
  function Unlisted(routers: Routers, snet: Source, router: Option<Mac>, dnets: Option<set<nat>>): Routers {
    if router.None? then (if dnets.None? then routers else Struck(routers, snet, dnets.value))
    else if (snet, router.value) !in routers then routers
    else
      var left := if dnets.None? then {} else routers[(snet, router.value)] - dnets.value;
      if left == {} then routers - {(snet, router.value)} else routers[(snet, router.value) := left]
  }

  /** A removal through a router leaves the others as they are, and leaves that router exactly when it
      lists a network that was not removed. */
  lemma UnlistedExactly(routers: Routers, snet: Source, router: Mac, dnets: Option<set<nat>>, r: (Source, Mac))
    ensures var now := Unlisted(routers, snet, Some(router), dnets);
      && (r in now <==>
           r in routers && (r == (snet, router) ==> dnets.Some? && exists d :: d in routers[r] && d !in dnets.value))
      && (r in now && r != (snet, router) ==> now[r] == routers[r])
      && (r in now && r == (snet, router) ==>
        forall d :: d in now[r] <==> d in routers[r] && (dnets.Some? ==> d !in dnets.value))
  {
    if r == (snet, router) && r in routers && dnets.Some? {
      assert routers[r] - dnets.value == {} <==> !exists d :: d in routers[r] && d !in dnets.value by {
        if d :| d in routers[r] && d !in dnets.value { assert d in routers[r] - dnets.value; }
      }
    }
  }

  /** Routers of the old network are routers of the new one, in place of one that was there. */
  function RenumberRouters(routers: Routers, oldNet: Source, newNet: Source): Routers {
    map r | r in routers.Keys + (set q | q in routers && q.0 == oldNet :: (newNet, q.1))
        && (r.0 == oldNet ==> oldNet == newNet) ::
      if r.0 == newNet && (oldNet, r.1) in routers then routers[(oldNet, r.1)] else routers[r]
  }

  /** A path from the new network is replaced if and only if the list of its router is. */
  predicate Mergeable(paths: Paths, routers: Routers, oldNet: Source, newNet: Source) {
    oldNet == newNet ||
    forall k :: k in paths && k.0 == newNet ==> ((oldNet, k.1) in paths <==> (oldNet, paths[k].router) in routers)
  }

  /** One turn of a loop over a set. */
  lemma Take(all: set<nat>, rest: set<nat>, one: nat)
    requires one in rest && rest <= all
    ensures all - rest + {one} == all - (rest - {one}) && rest - {one} <= all
  {
  }

  lemma TakeRouter(all: set<(Source, Mac)>, rest: set<(Source, Mac)>, one: (Source, Mac))
    requires one in rest && rest <= all
    ensures all - rest + {one} == all - (rest - {one}) && rest - {one} <= all
  {
  }

  class RouterInfoCache {
    var pathInfo: Paths
    var routerDnets: Routers

    constructor ()
      ensures Valid() && pathInfo == map[] && routerDnets == map[]
    {
      pathInfo, routerDnets := map[], map[];
    }

    predicate Valid()
      reads this
    {
      Inverse(pathInfo, routerDnets)
    }

    method GetPathInfo(snet: Source, dnet: nat) returns (r: Option<PathInfo>)
      ensures r == if (snet, dnet) in pathInfo then Some(pathInfo[(snet, dnet)]) else None
    {
      r := if (snet, dnet) in pathInfo then Some(pathInfo[(snet, dnet)]) else None;
    }

    method SetPathInfo(snet: Source, dnet: nat, router: Mac, status: Status) returns (changed: bool)
      modifies this`pathInfo
      ensures pathInfo == old(pathInfo)[(snet, dnet) := PathInfo(router, status)]
      ensures changed <==> pathInfo != old(pathInfo)
    {
      if (snet, dnet) in pathInfo && pathInfo[(snet, dnet)] == PathInfo(router, status) {
        return false;
      }
      pathInfo := pathInfo[(snet, dnet) := PathInfo(router, status)];
      assert pathInfo[(snet, dnet)] == PathInfo(router, status);
      changed := true;
    }

    method DeletePathInfo(snet: Source, dnet: nat) returns (changed: bool)
      modifies this`pathInfo
      ensures pathInfo == old(pathInfo) - {(snet, dnet)}
      ensures changed <==> (snet, dnet) in old(pathInfo)
    {
      if (snet, dnet) !in pathInfo {
        return false;
      }
      pathInfo := pathInfo - {(snet, dnet)};
      changed := true;
    }

    method GetRouterDnets(snet: Source, router: Mac) returns (r: Option<set<nat>>)
      ensures r == if (snet, router) in routerDnets then Some(routerDnets[(snet, router)]) else None
    {
      r := if (snet, router) in routerDnets then Some(routerDnets[(snet, router)]) else None;
    }

    method SetRouterDnets(snet: Source, router: Mac, dnets: set<nat>) returns (changed: bool)
      modifies this`routerDnets
      ensures routerDnets == old(routerDnets)[(snet, router) := dnets]
      ensures changed <==> routerDnets != old(routerDnets)
    {
      if (snet, router) in routerDnets && routerDnets[(snet, router)] == dnets {
        return false;
      }
      routerDnets := routerDnets[(snet, router) := dnets];
      assert routerDnets[(snet, router)] == dnets;
      changed := true;
    }

    method DeleteRouterDnets(snet: Source, router: Option<Mac>) returns (changed: bool)
      modifies this`routerDnets
      ensures routerDnets == if router.Some? then old(routerDnets) - {(snet, router.value)} else old(routerDnets)
      ensures changed <==> router.Some? && (snet, router.value) in old(routerDnets)
    {
      if router.None? || (snet, router.value) !in routerDnets {
        return false;
      }
      routerDnets := routerDnets - {(snet, router.value)};
      changed := true;
    }

    /** update_path_info. The errors it raises on a conflict cannot happen. */
    method UpdatePathInfo(snet: Source, router: Mac, dnets: set<nat>)
      requires Valid()
      modifies this
      ensures Valid() && pathInfo == Announce(old(pathInfo), snet, router, dnets)
      ensures Relisted(old(routerDnets), routerDnets, snet, router, dnets)
    {
      var known := GetRouterDnets(snet, router);
      var newDnets := dnets;
      if known.Some? {
        newDnets := newDnets - known.value;
        if newDnets == {} {
          assert forall d :: d in dnets && d !in known.value ==> d in newDnets;
          KnownAnnounce(pathInfo, routerDnets, snet, router, dnets, newDnets);
          AnnounceNone(pathInfo, snet, router);
          return;
        }
      }
      LeaveOldRouters(snet, newDnets);
      ghost var left := routerDnets;
      var _ := SetRouterDnets(snet, router, (if known.Some? then known.value else {}) + newDnets);
      Rejoined(old(routerDnets), left, routerDnets, snet, router, dnets, newDnets);
      SetPaths(snet, router, newDnets);
      KnownAnnounce(old(pathInfo), old(routerDnets), snet, router, dnets, newDnets);
      AnnounceInverse(old(pathInfo), old(routerDnets), routerDnets, snet, router, newDnets);
    }

    /** The networks are no longer reached through the routers they were reached through; a
        router left with none is forgotten. */
    method LeaveOldRouters(snet: Source, dnets: set<nat>)
      requires Valid()
      modifies this`routerDnets
      ensures Drained(old(routerDnets), routerDnets, snet, dnets)
    {
      var rest := dnets;
      ghost var gone: set<nat> := {};
      while rest != {}
        invariant rest <= dnets && gone == dnets - rest
        invariant Drained(old(routerDnets), routerDnets, snet, gone)
        decreases |rest|
      {
        var dnet :| dnet in rest;
        var path := GetPathInfo(snet, dnet);
        if path.Some? {
          LeaveOldRouter(snet, path.value.router, dnet, old(routerDnets), gone);
        } else {
          NobodyLists(pathInfo, old(routerDnets), routerDnets, snet, gone, dnet);
        }
        Take(dnets, rest, dnet);
        rest := rest - {dnet};
        gone := gone + {dnet};
      }
    }

    method LeaveOldRouter(snet: Source, oldRouter: Mac, dnet: nat, ghost was: Routers, ghost gone: set<nat>)
      requires Inverse(pathInfo, was) && Drained(was, routerDnets, snet, gone) && dnet !in gone
      requires (snet, dnet) in pathInfo && pathInfo[(snet, dnet)].router == oldRouter
      modifies this`routerDnets
      ensures Drained(was, routerDnets, snet, gone + {dnet})
    {
      var oldDnets := GetRouterDnets(snet, oldRouter);
      if oldDnets.None? || dnet !in oldDnets.value {
        assert false;
      }
      var left := oldDnets.value - {dnet};
      var _ := SetRouterDnets(snet, oldRouter, left);
      if left == {} { var _ := DeleteRouterDnets(snet, Some(oldRouter)); }
    }

    method SetPaths(snet: Source, router: Mac, dnets: set<nat>)
      requires forall d :: d in dnets && (snet, d) in pathInfo ==> pathInfo[(snet, d)].router != router
      modifies this`pathInfo
      ensures pathInfo == Announce(old(pathInfo), snet, router, dnets)
    {
      var rest := dnets;
      ghost var done: set<nat> := {};
      AnnounceNone(pathInfo, snet, router);
      while rest != {}
        invariant rest <= dnets && done == dnets - rest
        invariant pathInfo == Announce(old(pathInfo), snet, router, done)
        decreases |rest|
      {
        var dnet :| dnet in rest;
        var _ := SetPathInfo(snet, dnet, router, AVAILABLE);
        AnnounceOne(old(pathInfo), snet, router, done, dnet);
        Take(dnets, rest, dnet);
        rest := rest - {dnet};
        done := done + {dnet};
      }
    }

    /** remove_path_info, with the networks limited to those of the router, as its comment says. */
    method RemovePathInfo(snet: Source, router: Option<Mac>, dnets: Option<set<nat>>) returns (raised: bool)
      requires Valid()
      modifies this
      ensures raised <==> router.None? && dnets.None?
      ensures Valid() && pathInfo == if raised then old(pathInfo) else Forget(old(pathInfo), snet, router, dnets)
      ensures routerDnets == Unlisted(old(routerDnets), snet, router, dnets)
    {
      raised := false;
      if router.Some? {
        RemoveThroughRouter(snet, router.value, dnets);
      } else if dnets.None? {
        raised := true;
      } else {
        RemoveEach(snet, dnets.value);
      }
    }

    method RemoveThroughRouter(snet: Source, router: Mac, dnets: Option<set<nat>>)
      requires Valid()
      modifies this
      ensures Valid() && pathInfo == Forget(old(pathInfo), snet, Some(router), dnets)
      ensures routerDnets == Unlisted(old(routerDnets), snet, Some(router), dnets)
    {
      var known := GetRouterDnets(snet, router);
      if known.None? {
        ForgetThrough(pathInfo, routerDnets, snet, router, dnets, {});
        return;
      }
      var some := if dnets.None? then known.value else dnets.value * known.value;
      ForgetThrough(pathInfo, routerDnets, snet, router, dnets, some);
      ghost var was, paths := routerDnets, pathInfo;
      DeletePaths(snet, some);
      var left := known.value - some;
      if left == {} {
        var _ := DeleteRouterDnets(snet, Some(router));
      } else {
        var _ := SetRouterDnets(snet, router, left);
      }
      assert left == if dnets.None? then {} else known.value - dnets.value;
      RemoveInverse(paths, was, routerDnets, snet, router, some);
    }

    method DeletePaths(snet: Source, dnets: set<nat>)
      modifies this`pathInfo
      ensures pathInfo == Forget(old(pathInfo), snet, None, Some(dnets))
    {
      var rest := dnets;
      ghost var done: set<nat> := {};
      assert pathInfo == Forget(pathInfo, snet, None, Some({}));
      while rest != {}
        invariant rest <= dnets && done == dnets - rest
        invariant pathInfo == Forget(old(pathInfo), snet, None, Some(done))
        decreases |rest|
      {
        var dnet :| dnet in rest;
        ForgetOneMore(old(pathInfo), snet, done, dnet);
        var _ := DeletePathInfo(snet, dnet);
        Take(dnets, rest, dnet);
        rest := rest - {dnet};
        done := done + {dnet};
      }
    }

    method RemoveEach(snet: Source, dnets: set<nat>)
      requires Valid()
      modifies this
      ensures Valid() && pathInfo == Forget(old(pathInfo), snet, None, Some(dnets))
      ensures routerDnets == Struck(old(routerDnets), snet, dnets)
    {
      var rest := dnets;
      ghost var done: set<nat> := {};
      assert pathInfo == Forget(pathInfo, snet, None, Some({}));
      StruckNone(routerDnets, snet);
      while rest != {}
        invariant rest <= dnets && done == dnets - rest
        invariant routerDnets == Struck(old(routerDnets), snet, done)
        invariant Valid() && pathInfo == Forget(old(pathInfo), snet, None, Some(done))
        decreases |rest|
      {
        var dnet :| dnet in rest;
        ForgetOneMore(old(pathInfo), snet, done, dnet);
        RemoveOne(snet, dnet);
        StruckOneMore(old(routerDnets), snet, done, dnet);
        Take(dnets, rest, dnet);
        rest := rest - {dnet};
        done := done + {dnet};
      }
      assert done == dnets;
    }

    /** A router left without networks stays in the cache here: the entry that is deleted is
        that of the address given, which is none. */
    method RemoveOne(snet: Source, dnet: nat)
      requires Valid()
      modifies this
      ensures Valid() && pathInfo == old(pathInfo) - {(snet, dnet)}
      ensures routerDnets == Struck(old(routerDnets), snet, {dnet})
    {
      StruckOne(pathInfo, routerDnets, snet, dnet);
      var path := GetPathInfo(snet, dnet);
      if path.None? {
        return;
      }
      var known := GetRouterDnets(snet, path.value.router);
      if known.None? || dnet !in known.value {
        assert false;
      }
      var left := known.value - {dnet};
      var _ := SetRouterDnets(snet, path.value.router, left);
      var _ := DeletePathInfo(snet, dnet);
      if left == {} { var _ := DeleteRouterDnets(snet, None); }
    }

    /** update_router_status */
    method UpdateRouterStatus(snet: Source, router: Mac, status: Status)
      requires Valid()
      modifies this`pathInfo
      ensures Valid() && pathInfo == SetStatus(old(pathInfo), snet, router, status)
    {
      var known := GetRouterDnets(snet, router);
      if known.None? {
        assert pathInfo == SetStatus(pathInfo, snet, router, status);
        return;
      }
      SetStatuses(snet, known.value, router, status);
      StatusInverse(old(pathInfo), routerDnets, snet, router, status);
    }

    method SetStatuses(snet: Source, dnets: set<nat>, router: Mac, status: Status)
      requires forall d :: d in dnets ==> (snet, d) in pathInfo
      modifies this`pathInfo
      ensures pathInfo == StatusOf(old(pathInfo), snet, dnets, router, status)
    {
      var rest := dnets;
      ghost var done: set<nat> := {};
      assert pathInfo == StatusOf(pathInfo, snet, {}, router, status);
      while rest != {}
        invariant rest <= dnets && done == dnets - rest
        invariant pathInfo == StatusOf(old(pathInfo), snet, done, router, status)
        decreases |rest|
      {
        var dnet :| dnet in rest;
        StatusOneMore(old(pathInfo), snet, done, dnet, router, status);
        var _ := SetPathInfo(snet, dnet, router, status);
        Take(dnets, rest, dnet);
        rest := rest - {dnet};
        done := done + {dnet};
      }
    }

    /** update_source_network: the number of the network behind an adapter becomes known. */
    method UpdateSourceNetwork(oldNet: Source, newNet: Source)
      requires Valid()
      modifies this
      ensures pathInfo == Renumber(old(pathInfo), oldNet, newNet)
      ensures routerDnets == RenumberRouters(old(routerDnets), oldNet, newNet)
      ensures Valid() <==> Mergeable(old(pathInfo), old(routerDnets), oldNet, newNet)
    {
      ghost var paths, was := pathInfo, routerDnets;
      var items := routerDnets.Keys;
      var rest := items;
      ghost var done: set<(Source, Mac)> := {};
      MovedNone(paths, was, oldNet, newNet);
      while rest != {}
        invariant rest <= items && done == items - rest
        invariant routerDnets == MovedRouters(was, done, oldNet, newNet)
        invariant pathInfo == MovedPaths(paths, done, oldNet, newNet)
        decreases |rest|
      {
        var r :| r in rest;
        if r.0 == oldNet {
          MoveRouter(r, oldNet, newNet, paths, was, done);
        } else {
          NotMoved(paths, was, done, r, oldNet, newNet);
        }
        TakeRouter(items, rest, r);
        rest := rest - {r};
        done := done + {r};
      }
      assert done == was.Keys;
      MovedAll(paths, was, oldNet, newNet);
      RenumberInverse(paths, was, oldNet, newNet);
    }

    method MoveRouter(r: (Source, Mac), oldNet: Source, newNet: Source, ghost paths: Paths, ghost was: Routers,
                      ghost done: set<(Source, Mac)>)
      requires Inverse(paths, was)
      requires r in was && r !in done && r.0 == oldNet
      requires routerDnets == MovedRouters(was, done, oldNet, newNet)
      requires pathInfo == MovedPaths(paths, done, oldNet, newNet)
      modifies this
      ensures routerDnets == MovedRouters(was, done + {r}, oldNet, newNet)
      ensures pathInfo == MovedPaths(paths, done + {r}, oldNet, newNet)
    {
      RouterMoves(was, done, r, oldNet, newNet);
      var dnets := routerDnets[r];
      routerDnets := (routerDnets - {r})[(newNet, r.1) := dnets];
      MoveRouterPaths(r, dnets, oldNet, newNet, paths, was, done);
    }

    method MovePath(oldNet: Source, newNet: Source, dnet: nat)
      requires (oldNet, dnet) in pathInfo
      modifies this`pathInfo
      ensures pathInfo == (old(pathInfo) - {(oldNet, dnet)})[(newNet, dnet) := old(pathInfo)[(oldNet, dnet)]]
    {
      var info := pathInfo[(oldNet, dnet)];
      pathInfo := pathInfo - {(oldNet, dnet)};
      pathInfo := pathInfo[(newNet, dnet) := info];
    }

    method MoveRouterPaths(r: (Source, Mac), dnets: set<nat>, oldNet: Source, newNet: Source,
                           ghost paths: Paths, ghost was: Routers, ghost done: set<(Source, Mac)>)
      requires Inverse(paths, was)
      requires r in was && r !in done && r.0 == oldNet && dnets == was[r]
      requires pathInfo == MovedPaths(paths, done, oldNet, newNet)
      modifies this`pathInfo
      ensures pathInfo == MovedPaths(paths, done + {r}, oldNet, newNet)
    {
      var rest := dnets;
      ghost var gone: set<nat> := {};
      PathsMoveNone(paths, was, done, r, oldNet, newNet);
      while rest != {}
        invariant rest <= dnets && gone == dnets - rest
        invariant pathInfo == MovedWith(paths, done, r.1, gone, oldNet, newNet)
        decreases |rest|
      {
        var dnet :| dnet in rest;
        PathMoves(paths, was, done, r, gone, dnet, oldNet, newNet);
        MovePath(oldNet, newNet, dnet);
        Take(dnets, rest, dnet);
        rest := rest - {dnet};
        gone := gone + {dnet};
      }
      PathsMoveAll(paths, was, done, r, oldNet, newNet);
    }
  }

  /** The routers after some of those of the old network have been moved to the new one. */
  function MovedRouters(was: Routers, done: set<(Source, Mac)>, oldNet: Source, newNet: Source): Routers {
    map r | r in was.Keys + (set q | q in done && q.0 == oldNet :: (newNet, q.1))
            && (if r.0 == newNet && (oldNet, r.1) in done then (oldNet, r.1) in was
                else r in was && !(r.0 == oldNet && r in done)) ::
      if r.0 == newNet && (oldNet, r.1) in done then was[(oldNet, r.1)] else was[r]
  }

  /** A path moves with its router. */
  predicate PathMoved(paths: Paths, done: set<(Source, Mac)>, router: Mac, gone: set<nat>, oldNet: Source, d: nat) {
    (oldNet, d) in paths &&
    ((oldNet, paths[(oldNet, d)].router) in done || (paths[(oldNet, d)].router == router && d in gone))
  }

  function MovedWith(paths: Paths, done: set<(Source, Mac)>, router: Mac, gone: set<nat>, oldNet: Source,
                     newNet: Source): Paths {
    map k | k in paths.Keys + (set q | q in paths && q.0 == oldNet :: (newNet, q.1))
            && (if k.0 == newNet && PathMoved(paths, done, router, gone, oldNet, k.1) then true
                else k in paths && !(k.0 == oldNet && PathMoved(paths, done, router, gone, oldNet, k.1))) ::
      if k.0 == newNet && PathMoved(paths, done, router, gone, oldNet, k.1) then paths[(oldNet, k.1)] else paths[k]
  }

  function MovedPaths(paths: Paths, done: set<(Source, Mac)>, oldNet: Source, newNet: Source): Paths {
    MovedWith(paths, done, [], {}, oldNet, newNet)
  }

  function StatusOf(paths: Paths, snet: Source, dnets: set<nat>, router: Mac, status: Status): Paths {
    map k | k in paths :: if k.0 == snet && k.1 in dnets then PathInfo(router, status) else paths[k]
  }

  lemma StatusOneMore(paths: Paths, snet: Source, done: set<nat>, dnet: nat, router: Mac, status: Status)
    requires (snet, dnet) in paths
    ensures StatusOf(paths, snet, done, router, status)[(snet, dnet) := PathInfo(router, status)]
         == StatusOf(paths, snet, done + {dnet}, router, status)
  {
    var a := StatusOf(paths, snet, done, router, status)[(snet, dnet) := PathInfo(router, status)];
    var b := StatusOf(paths, snet, done + {dnet}, router, status);
    assert forall k :: k in a <==> k in b;
    assert forall k :: k in a ==> a[k] == b[k];
  }

  lemma NobodyLists(paths: Paths, was: Routers, now: Routers, snet: Source, gone: set<nat>, dnet: nat)
    requires Inverse(paths, was) && Drained(was, now, snet, gone) && (snet, dnet) !in paths
    ensures Drained(was, now, snet, gone + {dnet})
  {
    forall r | r in now ensures r in was && now[r] == if r.0 == snet then was[r] - (gone + {dnet}) else was[r] {
      if r.0 == snet { assert dnet !in was[r]; }
    }
  }

  lemma AnnounceNone(paths: Paths, snet: Source, router: Mac)
    ensures Announce(paths, snet, router, {}) == paths
  {
  }

  lemma AnnounceOne(paths: Paths, snet: Source, router: Mac, done: set<nat>, dnet: nat)
    requires (snet, dnet) in paths ==> paths[(snet, dnet)].router != router
    ensures Announce(paths, snet, router, done + {dnet})
         == Announce(paths, snet, router, done)[(snet, dnet) := PathInfo(router, AVAILABLE)]
  {
    var a := Announce(paths, snet, router, done + {dnet});
    var b := Announce(paths, snet, router, done)[(snet, dnet) := PathInfo(router, AVAILABLE)];
    assert forall k :: k in a <==> k in b;
    assert forall k :: k in a ==> a[k] == b[k];
  }

  /** Announcing again what is known changes nothing. */
  lemma KnownAnnounce(paths: Paths, routers: Routers, snet: Source, router: Mac, dnets: set<nat>, newDnets: set<nat>)
    requires Inverse(paths, routers)
    requires newDnets == if (snet, router) in routers then dnets - routers[(snet, router)] else dnets
    ensures Announce(paths, snet, router, dnets) == Announce(paths, snet, router, newDnets)
    ensures forall d :: d in newDnets && (snet, d) in paths ==> paths[(snet, d)].router != router
  {
    var a := Announce(paths, snet, router, dnets);
    var b := Announce(paths, snet, router, newDnets);
    assert forall k :: k in a <==> k in b;
    assert forall k :: k in a ==> a[k] == b[k];
  }

  lemma Rejoined(was: Routers, left: Routers, now: Routers, snet: Source, router: Mac, dnets: set<nat>,
                 newDnets: set<nat>)
    requires newDnets == if (snet, router) in was then dnets - was[(snet, router)] else dnets
    requires Drained(was, left, snet, newDnets) && ((snet, router) in was ==> newDnets != {})
    requires now == left[(snet, router) := (if (snet, router) in was then was[(snet, router)] else {}) + newDnets]
    ensures Relisted(was, now, snet, router, dnets)
    ensures Drained(was - {(snet, router)}, now - {(snet, router)}, snet, newDnets)
  {
    var known := if (snet, router) in was then was[(snet, router)] else {};
    assert newDnets == dnets - known && known + newDnets == known + dnets;
    assert !((snet, router) in was && dnets <= known);
  }

  lemma AnnounceInverse(paths: Paths, was: Routers, now: Routers, snet: Source, router: Mac, dnets: set<nat>)
    requires Inverse(paths, was)
    requires (snet, router) in now
    requires now[(snet, router)] == (if (snet, router) in was then was[(snet, router)] else {}) + dnets
    requires (snet, router) in was ==> was[(snet, router)] !! dnets
    requires Drained(was - {(snet, router)}, now - {(snet, router)}, snet, dnets)
    ensures Inverse(Announce(paths, snet, router, dnets), now)
  {
    var p := Announce(paths, snet, router, dnets);
    forall k | k in p ensures (k.0, p[k].router) in now && k.1 in now[(k.0, p[k].router)] {
      if k.0 == snet && k.1 in dnets {
      } else {
        assert (k.0, paths[k].router) in was && k.1 in was[(k.0, paths[k].router)];
      }
    }
    forall r, d | r in now && d in now[r] ensures (r.0, d) in p && p[(r.0, d)].router == r.1 {
      if r == (snet, router) && d in dnets {
        assert p[(snet, d)].router == router;
      } else {
        assert r in was && d in was[r];
      }
    }
  }

  /** The paths through a router are those to the networks it lists. */
  lemma ForgetThrough(paths: Paths, routers: Routers, snet: Source, router: Mac, dnets: Option<set<nat>>,
                      some: set<nat>)
    requires Inverse(paths, routers)
    requires var known := if (snet, router) in routers then routers[(snet, router)] else {};
      some == if dnets.None? then known else dnets.value * known
    ensures Forget(paths, snet, Some(router), dnets) == Forget(paths, snet, None, Some(some))
    ensures some == {} ==> Forget(paths, snet, Some(router), dnets) == paths
  {
    forall k | k in paths
      ensures Forgotten(paths, snet, Some(router), dnets, k) <==> Forgotten(paths, snet, None, Some(some), k)
    {
      if k.0 == snet && paths[k].router == router { assert k.1 in routers[(k.0, paths[k].router)]; }
      if k.0 == snet && k.1 in some { assert (snet, router) in routers && k.1 in routers[(snet, router)]; }
    }
    var a := Forget(paths, snet, Some(router), dnets);
    var b := Forget(paths, snet, None, Some(some));
    assert forall k :: k in a <==> k in b;
  }

  lemma ForgetOneMore(paths: Paths, snet: Source, done: set<nat>, dnet: nat)
    ensures Forget(paths, snet, None, Some(done)) - {(snet, dnet)} == Forget(paths, snet, None, Some(done + {dnet}))
  {
    var a := Forget(paths, snet, None, Some(done)) - {(snet, dnet)};
    var b := Forget(paths, snet, None, Some(done + {dnet}));
    assert forall k :: k in a <==> k in b;
  }

  lemma StatusInverse(paths: Paths, routers: Routers, snet: Source, router: Mac, status: Status)
    requires Inverse(paths, routers) && (snet, router) in routers
    ensures var now := StatusOf(paths, snet, routers[(snet, router)], router, status);
      now == SetStatus(paths, snet, router, status) && Inverse(now, routers)
  {
    var dnets := routers[(snet, router)];
    forall k | k in paths ensures k.0 == snet && k.1 in dnets <==> k.0 == snet && paths[k].router == router {
      if k.0 == snet && k.1 in dnets { assert (snet, k.1) == k && paths[(snet, k.1)].router == router; }
    }
    var now := StatusOf(paths, snet, dnets, router, status);
    assert forall k :: k in now ==> now[k] == SetStatus(paths, snet, router, status)[k];
    assert forall k :: k in now ==> now[k].router == paths[k].router;
  }

  lemma StruckNone(routers: Routers, snet: Source)
    ensures Struck(routers, snet, {}) == routers
  {
    SameRouters(Struck(routers, snet, {}), routers);
  }

  lemma StruckOneMore(routers: Routers, snet: Source, done: set<nat>, dnet: nat)
    ensures Struck(Struck(routers, snet, done), snet, {dnet}) == Struck(routers, snet, done + {dnet})
  {
    SameRouters(Struck(Struck(routers, snet, done), snet, {dnet}), Struck(routers, snet, done + {dnet}));
  }

  /** One network is on the list of the router of its path, and on no other. */
  lemma StruckOne(paths: Paths, routers: Routers, snet: Source, dnet: nat)
    requires Inverse(paths, routers)
    ensures Struck(routers, snet, {dnet}) ==
      if (snet, dnet) !in paths then routers
      else
        var r := (snet, paths[(snet, dnet)].router);
        if r in routers then routers[r := routers[r] - {dnet}] else routers
  {
    var struck := Struck(routers, snet, {dnet});
    if (snet, dnet) !in paths {
      forall r | r in routers ensures struck[r] == routers[r] {
        if r.0 == snet { assert dnet !in routers[r]; }
      }
      SameRouters(struck, routers);
    } else {
      var k := (snet, dnet);
      var r := (snet, paths[k].router);
      assert r in routers;
      forall q | q in routers ensures struck[q] == routers[r := routers[r] - {dnet}][q] {
        if q.0 == snet && q != r { assert dnet !in routers[q]; }
      }
      SameRouters(struck, routers[r := routers[r] - {dnet}]);
    }
  }

  lemma RemoveInverse(paths: Paths, was: Routers, now: Routers, snet: Source, router: Mac, some: set<nat>)
    requires Inverse(paths, was) && (snet, router) in was && some <= was[(snet, router)]
    requires var left := was[(snet, router)] - some;
      now == if left == {} then was - {(snet, router)} else was[(snet, router) := left]
    ensures Inverse(Forget(paths, snet, None, Some(some)), now)
  {
    var p := Forget(paths, snet, None, Some(some));
    forall k | k in p ensures (k.0, p[k].router) in now && k.1 in now[(k.0, p[k].router)] {
      assert k.1 in was[(k.0, paths[k].router)];
      if (k.0, paths[k].router) == (snet, router) { assert k.1 in was[(snet, router)] - some; }
    }
    forall r, d | r in now && d in now[r] ensures (r.0, d) in p && p[(r.0, d)].router == r.1 {
      assert d in was[r];
    }
  }

  lemma SamePaths(a: Paths, b: Paths)
    requires forall k :: k in a <==> k in b
    requires forall k :: k in a ==> a[k] == b[k]
    ensures a == b
  {
  }

  lemma SameRouters(a: Routers, b: Routers)
    requires forall k :: k in a <==> k in b
    requires forall k :: k in a ==> a[k] == b[k]
    ensures a == b
  {
  }

  lemma MovedNone(paths: Paths, was: Routers, oldNet: Source, newNet: Source)
    ensures MovedRouters(was, {}, oldNet, newNet) == was && MovedPaths(paths, {}, oldNet, newNet) == paths
  {
    SameRouters(MovedRouters(was, {}, oldNet, newNet), was);
    SamePaths(MovedPaths(paths, {}, oldNet, newNet), paths);
  }

  lemma NotMoved(paths: Paths, was: Routers, done: set<(Source, Mac)>, r: (Source, Mac), oldNet: Source, newNet: Source)
    requires r.0 != oldNet
    ensures MovedRouters(was, done + {r}, oldNet, newNet) == MovedRouters(was, done, oldNet, newNet)
    ensures MovedPaths(paths, done + {r}, oldNet, newNet) == MovedPaths(paths, done, oldNet, newNet)
  {
    SameRouters(MovedRouters(was, done + {r}, oldNet, newNet), MovedRouters(was, done, oldNet, newNet));
    SamePaths(MovedPaths(paths, done + {r}, oldNet, newNet), MovedPaths(paths, done, oldNet, newNet));
  }

  lemma RouterMoves(was: Routers, done: set<(Source, Mac)>, r: (Source, Mac), oldNet: Source, newNet: Source)
    requires r in was && r !in done && r.0 == oldNet
    ensures var now := MovedRouters(was, done, oldNet, newNet);
      r in now && now[r] == was[r]
      && MovedRouters(was, done + {r}, oldNet, newNet) == (now - {r})[(newNet, r.1) := was[r]]
  {
    var now := MovedRouters(was, done, oldNet, newNet);
    SameRouters(MovedRouters(was, done + {r}, oldNet, newNet), (now - {r})[(newNet, r.1) := was[r]]);
  }

  lemma PathsMoveNone(paths: Paths, was: Routers, done: set<(Source, Mac)>, r: (Source, Mac), oldNet: Source,
                      newNet: Source)
    ensures MovedWith(paths, done, r.1, {}, oldNet, newNet) == MovedPaths(paths, done, oldNet, newNet)
  {
    SamePaths(MovedWith(paths, done, r.1, {}, oldNet, newNet), MovedPaths(paths, done, oldNet, newNet));
  }

  lemma PathMoves(paths: Paths, was: Routers, done: set<(Source, Mac)>, r: (Source, Mac), gone: set<nat>, dnet: nat,
                  oldNet: Source, newNet: Source)
    requires Inverse(paths, was)
    requires r in was && r !in done && r.0 == oldNet && dnet in was[r] && dnet !in gone
    ensures var now := MovedWith(paths, done, r.1, gone, oldNet, newNet);
      (oldNet, dnet) in now && now[(oldNet, dnet)] == paths[(oldNet, dnet)]
      && MovedWith(paths, done, r.1, gone + {dnet}, oldNet, newNet)
         == (now - {(oldNet, dnet)})[(newNet, dnet) := now[(oldNet, dnet)]]
  {
    assert (oldNet, dnet) in paths && paths[(oldNet, dnet)].router == r.1;
    OnePathMoves(paths, done, r.1, gone, dnet, oldNet, newNet);
  }

  lemma OnePathMoves(paths: Paths, done: set<(Source, Mac)>, router: Mac, gone: set<nat>, dnet: nat,
                     oldNet: Source, newNet: Source)
    requires (oldNet, dnet) in paths && paths[(oldNet, dnet)].router == router
    requires (oldNet, router) !in done && dnet !in gone
    ensures var now := MovedWith(paths, done, router, gone, oldNet, newNet);
      (oldNet, dnet) in now && now[(oldNet, dnet)] == paths[(oldNet, dnet)]
      && MovedWith(paths, done, router, gone + {dnet}, oldNet, newNet)
         == (now - {(oldNet, dnet)})[(newNet, dnet) := now[(oldNet, dnet)]]
  {
    var now := MovedWith(paths, done, router, gone, oldNet, newNet);
    forall d: nat ensures PathMoved(paths, done, router, gone + {dnet}, oldNet, d)
                <==> PathMoved(paths, done, router, gone, oldNet, d) || d == dnet {
    }
    SamePaths(MovedWith(paths, done, router, gone + {dnet}, oldNet, newNet),
              (now - {(oldNet, dnet)})[(newNet, dnet) := now[(oldNet, dnet)]]);
  }

  lemma PathsMoveAll(paths: Paths, was: Routers, done: set<(Source, Mac)>, r: (Source, Mac), oldNet: Source,
                     newNet: Source)
    requires Inverse(paths, was) && r in was && r.0 == oldNet
    ensures MovedWith(paths, done, r.1, was[r], oldNet, newNet) == MovedPaths(paths, done + {r}, oldNet, newNet)
  {
    forall d | (oldNet, d) in paths
      ensures PathMoved(paths, done, r.1, was[r], oldNet, d) <==> PathMoved(paths, done + {r}, [], {}, oldNet, d)
    {
      assert d in was[(oldNet, paths[(oldNet, d)].router)];
    }
    SamePaths(MovedWith(paths, done, r.1, was[r], oldNet, newNet), MovedPaths(paths, done + {r}, oldNet, newNet));
  }

  lemma MovedAll(paths: Paths, was: Routers, oldNet: Source, newNet: Source)
    requires Inverse(paths, was)
    ensures MovedPaths(paths, was.Keys, oldNet, newNet) == Renumber(paths, oldNet, newNet)
    ensures MovedRouters(was, was.Keys, oldNet, newNet) == RenumberRouters(was, oldNet, newNet)
  {
    SameRouters(MovedRouters(was, was.Keys, oldNet, newNet), RenumberRouters(was, oldNet, newNet));
    forall d: nat ensures PathMoved(paths, was.Keys, [], {}, oldNet, d) <==> (oldNet, d) in paths {
    }
    SamePaths(MovedPaths(paths, was.Keys, oldNet, newNet), Renumber(paths, oldNet, newNet));
  }

  /** The two maps still agree after a renumbering if and only if no path of the new network is
      left without its router, or its router without it. */
  lemma RenumberInverse(paths: Paths, was: Routers, oldNet: Source, newNet: Source)
    requires Inverse(paths, was)
    ensures Inverse(Renumber(paths, oldNet, newNet), RenumberRouters(was, oldNet, newNet))
       <==> Mergeable(paths, was, oldNet, newNet)
  {
    if Mergeable(paths, was, oldNet, newNet) {
      MergedInverse(paths, was, oldNet, newNet);
    } else {
      var k :| k in paths && k.0 == newNet && !((oldNet, k.1) in paths <==> (oldNet, paths[k].router) in was);
      MergedDisagree(paths, was, oldNet, newNet, k.1);
    }
  }

  lemma MergedInverse(paths: Paths, was: Routers, oldNet: Source, newNet: Source)
    requires Inverse(paths, was) && Mergeable(paths, was, oldNet, newNet)
    ensures Inverse(Renumber(paths, oldNet, newNet), RenumberRouters(was, oldNet, newNet))
  {
    var p := Renumber(paths, oldNet, newNet);
    var q := RenumberRouters(was, oldNet, newNet);
    forall k | k in p ensures (k.0, p[k].router) in q && k.1 in q[(k.0, p[k].router)] {
      var from := if k.0 == newNet && (oldNet, k.1) in paths then (oldNet, k.1) else k;
      assert from in paths && (from.0, paths[from].router) in was && from.1 in was[(from.0, paths[from].router)];
    }
    forall r, d | r in q && d in q[r] ensures (r.0, d) in p && p[(r.0, d)].router == r.1 {
      var from := if r.0 == newNet && (oldNet, r.1) in was then (oldNet, r.1) else r;
      assert from in was && d in was[from];
      assert (from.0, d) in paths && paths[(from.0, d)].router == from.1;
    }
  }

  lemma MergedDisagree(paths: Paths, was: Routers, oldNet: Source, newNet: Source, d: nat)
    requires Inverse(paths, was) && oldNet != newNet && (newNet, d) in paths
    requires !((oldNet, d) in paths <==> (oldNet, paths[(newNet, d)].router) in was)
    ensures !Inverse(Renumber(paths, oldNet, newNet), RenumberRouters(was, oldNet, newNet))
  {
    var p := Renumber(paths, oldNet, newNet);
    var q := RenumberRouters(was, oldNet, newNet);
    var router := paths[(newNet, d)].router;
    assert (newNet, router) in was && d in was[(newNet, router)];
    if (oldNet, d) in paths {
      assert (oldNet, paths[(oldNet, d)].router) in was;
      assert (newNet, router) in q && d in q[(newNet, router)] && p[(newNet, d)].router != router;
    } else {
      assert d !in was[(oldNet, router)];
      assert (newNet, d) in p && p[(newNet, d)].router == router && d !in q[(newNet, router)];
    }
  }

  /** An adapter that takes the number of another: both had a router to network 5, and the one
      that was there goes on listing it although the path leads through the other. */
  lemma MergedExample(a: Mac, b: Mac)
    requires a != b
    ensures var paths: Paths := map[(Some(1), 5) := PathInfo(a, AVAILABLE), (Some(2), 5) := PathInfo(b, AVAILABLE)];
      var routers: Routers := map[(Some(1), a) := {5}, (Some(2), b) := {5}];
      && Inverse(paths, routers)
      && !Inverse(Renumber(paths, Some(1), Some(2)), RenumberRouters(routers, Some(1), Some(2)))
  {
    var paths: Paths := map[(Some(1), 5) := PathInfo(a, AVAILABLE), (Some(2), 5) := PathInfo(b, AVAILABLE)];
    var routers: Routers := map[(Some(1), a) := {5}, (Some(2), b) := {5}];
    assert Inverse(paths, routers);
    MergedDisagree(paths, routers, Some(1), Some(2), 5);
  }

  // ----- any run of updates

  datatype Update =
    | Announced(snet: Source, router: Mac, dnets: set<nat>)
    | Removed(snet: Source, through: Option<Mac>, some: Option<set<nat>>)
    | StatusChanged(snet: Source, router: Mac, status: Status)
    | Renumbered(oldNet: Source, newNet: Source)

  function Apply(paths: Paths, u: Update): Paths {
    match u
    case Announced(snet, router, dnets) => Announce(paths, snet, router, dnets)
    case Removed(snet, through, some) =>
      if through.None? && some.None? then paths else Forget(paths, snet, through, some)
    case StatusChanged(snet, router, status) => SetStatus(paths, snet, router, status)
    case Renumbered(oldNet, newNet) => Renumber(paths, oldNet, newNet)
  }

  function Run(updates: seq<Update>): Paths {
    if updates == [] then map[] else Apply(Run(updates[..|updates| - 1]), updates[|updates| - 1])
  }

  predicate Announces(u: Update, k: (Source, nat)) {
    u.Announced? && k.0 == u.snet && k.1 in u.dnets
  }

  /** The update takes the path away, or gives its source network another number. */
  predicate Takes(paths: Paths, u: Update, k: (Source, nat)) {
    match u
    case Announced(_, _, _) => false
    case Removed(snet, through, some) =>
      && k in paths && k.0 == snet && (through.Some? || some.Some?)
      && (through.Some? ==> paths[k].router == through.value) && (some.Some? ==> k.1 in some.value)
    case StatusChanged(_, _, _) => false
    case Renumbered(oldNet, newNet) => k.0 == oldNet != newNet
  }

  /** The key that a path had before the update. */
  function Back(paths: Paths, u: Update, k: (Source, nat)): (Source, nat) {
    if u.Renumbered? && k.0 == u.newNet && (u.oldNet, k.1) in paths then (u.oldNet, k.1) else k
  }

  /** The key that a path had after the first n updates. */
  function Was(updates: seq<Update>, n: nat, k: (Source, nat)): (Source, nat)
    decreases |updates|
  {
    if |updates| <= n then k
    else
      var before := updates[..|updates| - 1];
      Was(before, n, Back(Run(before), updates[|updates| - 1], k))
  }

  /** The update announces the network under the number it then had, and after it nothing announces
      it again or takes the path away. */
  predicate Announcer(updates: seq<Update>, i: nat, k: (Source, nat))
    requires i < |updates|
  {
    && Announces(updates[i], Was(updates, i + 1, k))
    && forall j {:trigger updates[j]} :: i < j < |updates| ==>
         !Announces(updates[j], Was(updates, j + 1, k)) && !Takes(Run(updates[..j]), updates[j], Was(updates, j + 1, k))
  }

  /** What one update does to one path. */
  lemma ApplyPath(paths: Paths, u: Update, k: (Source, nat))
    ensures k in Apply(paths, u) <==> Announces(u, k) || (Back(paths, u, k) in paths && !Takes(paths, u, k))
    ensures k in Apply(paths, u) ==>
      Apply(paths, u)[k].router == if Announces(u, k) then u.router else paths[Back(paths, u, k)].router
  {
  }

  lemma AnnouncerBefore(updates: seq<Update>, i: nat, k: (Source, nat))
    requires i < |updates| - 1
    ensures var before, u := updates[..|updates| - 1], updates[|updates| - 1];
      Announcer(updates, i, k)
      <==> Announcer(before, i, Back(Run(before), u, k)) && !Announces(u, k) && !Takes(Run(before), u, k)
  {
    var before, u := updates[..|updates| - 1], updates[|updates| - 1];
    assert Was(updates, |updates|, k) == k;
    forall j | i <= j < |before|
      ensures before[j] == updates[j] && before[..j] == updates[..j]
      ensures Was(updates, j + 1, k) == Was(before, j + 1, Back(Run(before), u, k))
    {
    }
  }

  lemma AnnouncerNow(updates: seq<Update>, k: (Source, nat))
    requires updates != []
    ensures Announcer(updates, |updates| - 1, k) <==> Announces(updates[|updates| - 1], k)
  {
  }

  /** A path is there, and who announced it. */
  ghost predicate Leads(updates: seq<Update>, k: (Source, nat), paths: Paths) {
    && (k in paths <==> exists i :: 0 <= i < |updates| && Announcer(updates, i, k))
    && forall i :: 0 <= i < |updates| && Announcer(updates, i, k) ==> k in paths && paths[k].router == updates[i].router
  }

  lemma OneMoreUpdate(updates: seq<Update>, k: (Source, nat), before: seq<Update>, was: Paths, now: Paths)
    requires updates != [] && before == updates[..|updates| - 1] && was == Run(before)
    requires var u := updates[|updates| - 1];
      var k' := Back(was, u, k);
      && Leads(before, k', was)
      && (k in now <==> Announces(u, k) || (k' in was && !Takes(was, u, k)))
      && (k in now ==> now[k].router == if Announces(u, k) then u.router else was[k'].router)
    ensures Leads(updates, k, now)
  {
    var n := |updates| - 1;
    var u := updates[n];
    var k' := Back(was, u, k);
    AnnouncerNow(updates, k);
    forall i | 0 <= i < n
      ensures Announcer(updates, i, k) <==> Announcer(before, i, k') && !Announces(u, k) && !Takes(was, u, k)
    {
      AnnouncerBefore(updates, i, k);
    }
    if k in now && !Announces(u, k) {
      var i :| 0 <= i < n && Announcer(before, i, k');
      assert Announcer(updates, i, k);
    }
  }

  /** After any run of updates, removals and renumberings included, there is a path if and only if
      an announcement of it still stands, and it names the router that announced its network last. */
  lemma {:induction false} LastAnnouncerWins(updates: seq<Update>, k: (Source, nat))
    ensures k in Run(updates) <==> exists i :: 0 <= i < |updates| && Announcer(updates, i, k)
    ensures forall i :: 0 <= i < |updates| && Announcer(updates, i, k) ==>
      k in Run(updates) && Run(updates)[k].router == updates[i].router
    decreases |updates|
  {
    if updates != [] {
      var before, u := updates[..|updates| - 1], updates[|updates| - 1];
      LastAnnouncerWins(before, Back(Run(before), u, k));
      ApplyPath(Run(before), u, k);
      OneMoreUpdate(updates, k, before, Run(before), Run(updates));
    }
  }

  /** And there is no path to a network that was never announced, under any number that it had. */
  lemma NoPathUnannounced(updates: seq<Update>, k: (Source, nat))
    requires forall j :: 0 <= j < |updates| ==> !Announces(updates[j], Was(updates, j + 1, k))
    ensures k !in Run(updates)
  {
    LastAnnouncerWins(updates, k);
  }

  // ----- the status of a path

  /** The status that the update gives to a path: what is reported of its router, or available when
      the path is new or leads through another router than before. */
  function Gives(paths: Paths, u: Update, k: (Source, nat)): Option<Status> {
    match u
    case StatusChanged(snet, router, status) =>
      if k in paths && k.0 == snet && paths[k].router == router then Some(status) else None
    case Announced(_, router, _) =>
      if Announces(u, k) && (k in paths ==> paths[k].router != router) then Some(AVAILABLE) else None
    case _ => None
  }

  function GivesAt(updates: seq<Update>, i: nat, k: (Source, nat)): Option<Status>
    requires i < |updates|
  {
    Gives(Run(updates[..i]), updates[i], Was(updates, i + 1, k))
  }

  /** The update is the last that gave the path a status, and gave it this one. */
  predicate Giver(updates: seq<Update>, i: nat, k: (Source, nat), status: Status)
    requires i < |updates|
  {
    GivesAt(updates, i, k) == Some(status) && forall j :: i < j < |updates| ==> GivesAt(updates, j, k).None?
  }

  lemma GivesBefore(updates: seq<Update>, i: nat, k: (Source, nat))
    requires i < |updates| - 1
    ensures var before := updates[..|updates| - 1];
      GivesAt(updates, i, k) == GivesAt(before, i, Back(Run(before), updates[|updates| - 1], k))
  {
    var before := updates[..|updates| - 1];
    assert before[i] == updates[i] && before[..i] == updates[..i];
  }

  lemma GivesLast(updates: seq<Update>, k: (Source, nat))
    requires updates != []
    ensures var before := updates[..|updates| - 1];
      GivesAt(updates, |updates| - 1, k) == Gives(Run(before), updates[|updates| - 1], k)
  {
  }

  lemma GiverBefore(updates: seq<Update>, i: nat, k: (Source, nat), status: Status)
    requires i < |updates| - 1 && GivesAt(updates, |updates| - 1, k).None?
    requires var before := updates[..|updates| - 1];
      Giver(before, i, Back(Run(before), updates[|updates| - 1], k), status)
    ensures Giver(updates, i, k, status)
  {
    forall j | i <= j < |updates| - 1
      ensures var before := updates[..|updates| - 1];
        GivesAt(updates, j, k) == GivesAt(before, j, Back(Run(before), updates[|updates| - 1], k))
    {
      GivesBefore(updates, j, k);
    }
  }

  /** What one update does to the status of one path. */
  lemma ApplyStatus(paths: Paths, u: Update, k: (Source, nat))
    requires k in Apply(paths, u)
    ensures Gives(paths, u, k).Some? ==> Apply(paths, u)[k].status == Gives(paths, u, k).value
    ensures Gives(paths, u, k).None? ==>
      Back(paths, u, k) in paths && Apply(paths, u)[k].status == paths[Back(paths, u, k)].status
  {
  }

  /** After any run of updates, every path has the status that it was given last. */
  lemma {:induction false} LastStatusWins(updates: seq<Update>, k: (Source, nat))
    requires k in Run(updates)
    ensures exists i :: 0 <= i < |updates| && Giver(updates, i, k, Run(updates)[k].status)
    decreases |updates|
  {
    var n := |updates| - 1;
    var before, u := updates[..n], updates[n];
    ApplyStatus(Run(before), u, k);
    GivesLast(updates, k);
    if Gives(Run(before), u, k).Some? {
      assert Giver(updates, n, k, Run(updates)[k].status);
    } else {
      LastStatusWins(before, Back(Run(before), u, k));
      var i :| 0 <= i < n && Giver(before, i, Back(Run(before), u, k), Run(updates)[k].status);
      GiverBefore(updates, i, k, Run(updates)[k].status);
    }
  }
}
