/** Two tables of bacpypes3/app.py: the requests an application has outstanding, told apart by
    invoke ID, and what it knows of other devices, by address and by instance. */
module Applications {
  import opened Apdus
  import opened AppService

  // ----- invoke IDs

  /** An outstanding request: which one it is, and its invoke ID. */
  datatype Pending = Pending(handle: nat, invokeID: byte)

  function IDs(pending: seq<Pending>): set<byte> {
    set p | p in pending :: p.invokeID
  }

  predicate DistinctIDs(pending: seq<Pending>) {
    forall i, j :: 0 <= i < j < |pending| ==> pending[i].invokeID != pending[j].invokeID
  }

  predicate DistinctHandles(pending: seq<Pending>) {
    forall i, j :: 0 <= i < j < |pending| ==> pending[i].handle != pending[j].handle
  }

  function Below(n: nat): (s: set<byte>)
    requires n <= 256
    ensures forall b: byte :: b in s <==> b < n
    ensures |s| == n
  {
    if n == 0 then {} else Below(n - 1) + {n - 1}
  }

  lemma SubsetCount(a: set<byte>, b: set<byte>)
    requires a <= b
    ensures |a| <= |b|
    decreases |a|
  {
    if a != {} {
      var x :| x in a;
      SubsetCount(a - {x}, b - {x});
    }
  }

  predicate AllUsed(used: set<byte>, next: byte, t: nat) {
    forall u: nat {:trigger Nth(next, u)} :: u < t ==> Nth(next, u) in used
  }

  lemma EveryIDIsReached(next: byte, b: byte)
    ensures Nth(next, (b - next + 256) % 256) == b
  {
  }

  /** With fewer than 256 in use, one of the 256 IDs from any place on is free. */
  lemma SomeIDIsFree(used: set<byte>, next: byte)
    requires |used| < 256
    ensures !AllUsed(used, next, 256)
  {
    if AllUsed(used, next, 256) {
      forall b: byte | b in Below(256) ensures b in used {
        EveryIDIsReached(next, b);
      }
      SubsetCount(Below(256), used);
    }
  }

  /** With all of them in use none is: the search would never end. */
  lemma NoIDIsFree(used: set<byte>, next: byte, t: nat)
    requires |used| >= 256
    ensures Nth(next, t) in used
  {
    if Nth(next, t) !in used {
      SubsetCount(used, Below(256) - {Nth(next, t)});
    }
  }

  lemma OneIsFree(used: set<byte>, id: byte)
    requires id !in used
    ensures |used| < 256
  {
    SubsetCount(used, Below(256) - {id});
  }

  function Nth(next: byte, t: nat): byte {
    (next + t) % 256
  }

  /** The first ID not in use, from the given one on. */
  ghost predicate FirstFree(used: set<byte>, next: byte, id: byte) {
    && id !in used
    && exists t: nat {:trigger Nth(next, t)} :: id == Nth(next, t) && t < 256 && AllUsed(used, next, t)
  }

  class Application {
    var nextInvokeID: byte
    var requests: map<Address, seq<Pending>>

    constructor ()
      ensures Valid() && requests == map[] && nextInvokeID == 0
    {
      nextInvokeID, requests := 0, map[];
    }

    /** Outstanding requests to one destination differ in their IDs, and no list is empty. */
    predicate Valid()
      reads this
    {
      forall a :: a in requests ==> requests[a] != [] && DistinctIDs(requests[a]) && DistinctHandles(requests[a])
    }

    function Outstanding(a: Address): seq<Pending>
      reads this
    {
      if a in requests then requests[a] else []
    }

    /** The part of request that picks the invoke ID and records the request: the ID asked for
        if it is free, otherwise the first free one from the next in turn. None stands for a
        search that never ends, which is what happens when all IDs are in use. */
    method Request(handle: nat, asked: Option<byte>, destination: Address) returns (id: Option<byte>)
      requires Valid()
      requires forall p :: p in Outstanding(destination) ==> p.handle != handle
      modifies this
      ensures Valid()
      ensures id.None? <==> |old(Outstanding(destination))| >= 256
      ensures id.None? ==> requests == old(requests)
      ensures id.Some? ==>
        requests == old(requests)[destination := old(Outstanding(destination)) + [Pending(handle, id.value)]]
      ensures id.Some? && asked.Some? && asked.value !in IDs(old(Outstanding(destination))) ==>
        id == asked && nextInvokeID == old(nextInvokeID)
      ensures id.Some? && (asked.None? || asked.value in IDs(old(Outstanding(destination)))) ==>
        FirstFree(IDs(old(Outstanding(destination))), old(nextInvokeID), id.value)
            && nextInvokeID == (id.value + 1) % 256
      ensures id.Some? ==> id.value !in IDs(old(Outstanding(destination)))
    {
      var used := IDs(Outstanding(destination));
      CountIDs(Outstanding(destination));
      if asked.Some? && asked.value !in used {
        OneIsFree(used, asked.value);
        id := asked;
      } else {
        id := FreeID(used);
      }
      if id.Some? {
        NewID(Outstanding(destination), handle, id.value);
        requests := requests[destination := Outstanding(destination) + [Pending(handle, id.value)]];
      }
    }

    /** The search loop, which comes back to where it began after 256 tries. */
    method FreeID(used: set<byte>) returns (r: Option<byte>)
      modifies this`nextInvokeID
      ensures r.None? <==> |used| >= 256
      ensures r.Some? ==> FirstFree(used, old(nextInvokeID), r.value) && nextInvokeID == (r.value + 1) % 256
    {
      var id: byte := nextInvokeID;
      nextInvokeID := (nextInvokeID + 1) % 256;
      var t := 0;
      ghost var start := old(nextInvokeID);
      assert id == Nth(start, 0);
      while id in used
        invariant t < 256 && id == Nth(start, t) && nextInvokeID == (id + 1) % 256
        invariant AllUsed(used, start, t)
        decreases 256 - t
      {
        if t == 255 {
          assert AllUsed(used, start, 256);
          if |used| < 256 { SomeIDIsFree(used, start); }
          return None;
        }
        id := nextInvokeID;
        nextInvokeID := (nextInvokeID + 1) % 256;
        t := t + 1;
      }
      OneIsFree(used, id);
      r := Some(id);
    }

    /** _request_done: the request is no longer outstanding. */
    method RequestDone(handle: nat, destination: Address)
      requires Valid()
      modifies this`requests
      ensures Valid()
      ensures forall p :: p in Outstanding(destination) <==> p in old(Outstanding(destination)) && p.handle != handle
      ensures forall a :: a != destination ==> Outstanding(a) == old(Outstanding(a))
    {
      if destination !in requests {
        return;
      }
      var pending := requests[destination];
      var i := 0;
      while i < |pending| && pending[i].handle != handle
        invariant 0 <= i <= |pending| && forall k :: 0 <= k < i ==> pending[k].handle != handle
      {
        i := i + 1;
      }
      if i == |pending| {
        return;
      }
      var rest := pending[..i] + pending[i + 1..];
      DeletedOne(pending, i);
      if rest == [] {
        requests := requests - {destination};
      } else {
        requests := requests[destination := rest];
      }
    }

    /** confirmation: the one request the answer is for, if there is one. */
    method Confirmation(invokeID: byte, source: Address) returns (r: Option<Pending>)
      requires Valid()
      ensures r.Some? ==> r.value in Outstanding(source) && r.value.invokeID == invokeID
      ensures forall p :: p in Outstanding(source) && p.invokeID == invokeID ==> r == Some(p)
    {
      if source !in requests {
        return None;
      }
      var pending := requests[source];
      var i := 0;
      while i < |pending|
        invariant 0 <= i <= |pending| && forall k :: 0 <= k < i ==> pending[k].invokeID != invokeID
      {
        if pending[i].invokeID == invokeID {
          return Some(pending[i]);
        }
        i := i + 1;
      }
      r := None;
    }
  }

  lemma FirstID(pending: seq<Pending>)
    requires pending != [] && DistinctIDs(pending)
    ensures DistinctIDs(pending[1..])
    ensures IDs(pending) == IDs(pending[1..]) + {pending[0].invokeID} && pending[0].invokeID !in IDs(pending[1..])
  {
    var rest := pending[1..];
    forall i, j | 0 <= i < j < |rest| ensures rest[i].invokeID != rest[j].invokeID {
      assert rest[i] == pending[i + 1] && rest[j] == pending[j + 1];
    }
    assert pending == [pending[0]] + rest;
    assert forall p :: p in pending <==> p == pending[0] || p in rest;
  }

  /** Outstanding requests have as many IDs as there are of them. */
  lemma {:induction false} CountIDs(pending: seq<Pending>)
    requires DistinctIDs(pending)
    ensures |IDs(pending)| == |pending|
    decreases |pending|
  {
    if pending != [] {
      FirstID(pending);
      CountIDs(pending[1..]);
    }
  }

  lemma NewID(pending: seq<Pending>, handle: nat, id: byte)
    requires DistinctIDs(pending) && DistinctHandles(pending) && id !in IDs(pending)
    requires forall p :: p in pending ==> p.handle != handle
    ensures DistinctIDs(pending + [Pending(handle, id)]) && DistinctHandles(pending + [Pending(handle, id)])
  {
    assert forall i :: 0 <= i < |pending| ==> pending[i] in pending && pending[i].invokeID in IDs(pending);
  }

  lemma DeletedOne(pending: seq<Pending>, i: nat)
    requires i < |pending| && DistinctIDs(pending) && DistinctHandles(pending)
    ensures var rest := pending[..i] + pending[i + 1..];
      && DistinctIDs(rest) && DistinctHandles(rest)
      && forall p :: p in rest <==> p in pending && p.handle != pending[i].handle
  {
    var rest := pending[..i] + pending[i + 1..];
    assert forall k :: 0 <= k < |rest| ==> rest[k] == if k < i then pending[k] else pending[k + 1];
    forall p | p in pending && p.handle != pending[i].handle ensures p in rest {
      var k :| 0 <= k < |pending| && pending[k] == p;
      assert rest[if k < i then k else k - 1] == p;
    }
  }

  // ----- what is known of other devices

  class DeviceInfoRecord {
    const deviceInstance: nat
    const deviceAddress: Address
    var maxApduLengthAccepted: nat
    var segmentationSupported: byte
    var vendorIdentifier: nat

    constructor (instance: nat, address: Address)
      ensures deviceInstance == instance && deviceAddress == address
    {
      deviceInstance, deviceAddress := instance, address;
      maxApduLengthAccepted, segmentationSupported, vendorIdentifier := 1024, 3, 0;
    }
  }

  class DeviceInfoCache {
    var addressCache: map<Address, DeviceInfoRecord>
    var instanceCache: map<nat, DeviceInfoRecord>

    constructor ()
      ensures Valid() && addressCache == map[] && instanceCache == map[]
    {
      addressCache, instanceCache := map[], map[];
    }

    /** Either key of a record leads to it, and each key leads to a record that has it. */
    ghost predicate Valid()
      reads this
    {
      && (forall a :: a in addressCache ==>
            addressCache[a].deviceAddress == a && addressCache[a].deviceInstance in instanceCache
            && instanceCache[addressCache[a].deviceInstance] == addressCache[a])
      && (forall i :: i in instanceCache ==>
            instanceCache[i].deviceInstance == i && instanceCache[i].deviceAddress in addressCache
            && addressCache[instanceCache[i].deviceAddress] == instanceCache[i])
    }

    /** set_device_info: an I-Am makes its sender the one device with that address and with that
        instance; whatever was known under either key alone is forgotten. */
    method SetDeviceInfo(address: Address, instance: nat, maxApdu: nat, segmentation: byte, vendor: nat)
      returns (info: DeviceInfoRecord)
      requires Valid()
      modifies this, addressCache.Values
      ensures Valid()
      ensures address in addressCache && addressCache[address] == info && info.deviceInstance == instance
      ensures forall a :: a != address ==> (a in addressCache <==>
        a in old(addressCache) && old(addressCache)[a].deviceInstance != instance)
      ensures forall a :: a != address && a in addressCache ==> addressCache[a] == old(addressCache)[a]
      ensures forall i :: i != instance ==> (i in instanceCache <==>
        i in old(instanceCache) && old(instanceCache)[i].deviceAddress != address)
      ensures info.maxApduLengthAccepted == maxApdu && info.segmentationSupported == segmentation
      ensures info.vendorIdentifier == vendor
      ensures forall r :: r in old(addressCache).Values && r != info ==> unchanged(r)
    {
      var known := address in addressCache && instance in instanceCache
          && addressCache[address] == instanceCache[instance];
      if known {
        info := addressCache[address];
        assert info in addressCache.Values;
      } else {
        info := Replace(address, instance);
      }
      info.maxApduLengthAccepted := maxApdu;
      info.segmentationSupported := segmentation;
      info.vendorIdentifier := vendor;
    }

    method Replace(address: Address, instance: nat) returns (info: DeviceInfoRecord)
      requires Valid()
      requires !(address in addressCache && instance in instanceCache
          && addressCache[address] == instanceCache[instance])
      modifies this
      ensures Valid() && fresh(info)
      ensures address in addressCache && addressCache[address] == info && info.deviceInstance == instance
      ensures forall a :: a != address ==> (a in addressCache <==>
        a in old(addressCache) && old(addressCache)[a].deviceInstance != instance)
      ensures forall a :: a != address && a in addressCache ==> addressCache[a] == old(addressCache)[a]
      ensures forall i :: i != instance ==> (i in instanceCache <==>
        i in old(instanceCache) && old(instanceCache)[i].deviceAddress != address)
    {
      if address in addressCache && instance in instanceCache {
        var info1, info2 := addressCache[address], instanceCache[instance];
        instanceCache := instanceCache - {info1.deviceInstance};
        addressCache := addressCache - {info2.deviceAddress};
      } else if address in addressCache {
        instanceCache := instanceCache - {addressCache[address].deviceInstance};
      } else if instance in instanceCache {
        addressCache := addressCache - {instanceCache[instance].deviceAddress};
      }
      info := new DeviceInfoRecord(instance, address);
      addressCache := addressCache[address := info];
      instanceCache := instanceCache[instance := info];
    }

    /** update_device_info puts the record back under its keys. The two keys still agree exactly
        when neither had been given to another device meanwhile. */
    method UpdateDeviceInfo(info: DeviceInfoRecord)
      requires Valid()
      modifies this
      ensures Valid() <==>
        && (info.deviceAddress in old(addressCache)
            ==> old(addressCache)[info.deviceAddress].deviceInstance == info.deviceInstance)
        && (info.deviceInstance in old(instanceCache)
            ==> old(instanceCache)[info.deviceInstance].deviceAddress == info.deviceAddress)
      ensures addressCache == old(addressCache)[info.deviceAddress := info]
      ensures instanceCache == old(instanceCache)[info.deviceInstance := info]
    {
      ghost var a, i := info.deviceAddress, info.deviceInstance;
      addressCache := addressCache[info.deviceAddress := info];
      instanceCache := instanceCache[info.deviceInstance := info];
      if a in old(addressCache) && old(addressCache)[a].deviceInstance != i {
        assert old(addressCache)[a].deviceInstance in instanceCache;
      }
      if i in old(instanceCache) && old(instanceCache)[i].deviceAddress != a {
        assert old(instanceCache)[i].deviceAddress in addressCache;
      }
    }
  }
}
