/**
 Passing PCI devices through: the hosts as libvirt shows them, the lazily filled device cache, and
 the handler that attaches and detaches devices.
 */
module PciDevices {
  import opened Sequences
  import opened PciNames

  datatype NodeDevice = NodeDevice(address: PciAddress, id: PciId)

  type Inventory = seq<NodeDevice>

  ghost predicate DistinctAddresses(inv: Inventory) {
    forall i, j :: 0 <= i < j < |inv| ==> inv[i].address != inv[j].address
  }

  /** The addresses of the devices of one type, in the order of the inventory. */
  function OfType(inv: Inventory, id: PciId): seq<PciAddress> {
    if inv == [] then []
    else OfType(inv[..|inv| - 1], id) + if inv[|inv| - 1].id == id then [inv[|inv| - 1].address] else []
  }

  predicate IsOfType(inv: Inventory, a: PciAddress, id: PciId) {
    NodeDevice(a, id) in inv
  }

  lemma {:induction false} OfTypeMembers(inv: Inventory, id: PciId, a: PciAddress)
    ensures a in OfType(inv, id) <==> IsOfType(inv, a, id)
  {
    if inv != [] {
      var n := |inv| - 1;
      OfTypeMembers(inv[..n], id, a);
      assert inv == inv[..n] + [inv[n]];
    }
  }

  lemma OneType(inv: Inventory, a: PciAddress, id: PciId, id': PciId)
    requires DistinctAddresses(inv) && IsOfType(inv, a, id) && IsOfType(inv, a, id')
    ensures id == id'
  {
    var i :| 0 <= i < |inv| && inv[i] == NodeDevice(a, id);
    var j :| 0 <= j < |inv| && inv[j] == NodeDevice(a, id');
    if i < j {
      assert inv[i].address != inv[j].address;
    }
  }

  lemma {:induction false} OfTypeDistinct(inv: Inventory, id: PciId)
    requires DistinctAddresses(inv)
    ensures forall i, j :: 0 <= i < j < |OfType(inv, id)| ==> OfType(inv, id)[i] != OfType(inv, id)[j]
  {
    if inv != [] {
      var n := |inv| - 1;
      OfTypeDistinct(inv[..n], id);
      OfTypeMembers(inv[..n], id, inv[n].address);
    }
  }

  ghost predicate CanAttach(usable: set<PciAddress>, owner: map<PciAddress, string>, a: PciAddress) {
    a in usable && a !in owner
  }

  /** The devices of a type that can be attached. */
  ghost function Free(inv: Inventory, usable: set<PciAddress>, owner: map<PciAddress, string>, id: PciId)
    : set<PciAddress>
  {
    set a | a in usable && CanAttach(usable, owner, a) && IsOfType(inv, a, id)
  }

  ghost predicate NoDuplicates<T(!new)>(s: seq<T>) {
    forall i, j :: 0 <= i < j < |s| ==> s[i] != s[j]
  }

  lemma NoDuplicatesSnoc<T(!new)>(s: seq<T>, x: T)
    requires NoDuplicates(s) && x !in s
    ensures NoDuplicates(s + [x])
    ensures forall y :: y in s + [x] <==> y in s || y == x
  {
  }

  lemma {:induction false} NoDuplicatesCard<T(!new)>(s: seq<T>, all: set<T>)
    requires NoDuplicates(s) && forall x :: x in s <==> x in all
    ensures |s| == |all|
  {
    if s == [] {
      assert all == {};
    } else {
      var n := |s| - 1;
      forall x
        ensures x in s[..n] <==> x in all - {s[n]}
      {
        if x in s[..n] {
          var i :| 0 <= i < n && s[i] == x;
        }
        if x in all && x != s[n] {
          var i :| 0 <= i < |s| && s[i] == x;
          assert s[..n][i] == x;
        }
      }
      assert s[n] in all;
      NoDuplicatesCard(s[..n], all - {s[n]});
    }
  }

  /** Of the given addresses those of one type, in order. */
  function OfTypeIn(inv: Inventory, addresses: seq<PciAddress>, id: PciId): seq<PciAddress> {
    if addresses == [] then []
    else
      var n := |addresses| - 1;
      OfTypeIn(inv, addresses[..n], id) + if IsOfType(inv, addresses[n], id) then [addresses[n]] else []
  }

  lemma {:induction false} OfTypeInMembers(inv: Inventory, addresses: seq<PciAddress>, id: PciId)
    ensures forall a :: a in OfTypeIn(inv, addresses, id) <==> a in addresses && IsOfType(inv, a, id)
    ensures NoDuplicates(addresses) ==> NoDuplicates(OfTypeIn(inv, addresses, id))
  {
    if addresses != [] {
      var n := |addresses| - 1;
      OfTypeInMembers(inv, addresses[..n], id);
      assert addresses == addresses[..n] + [addresses[n]];
      assert NoDuplicates(addresses) ==> NoDuplicates(addresses[..n]) && addresses[n] !in addresses[..n];
    }
  }

  /** The devices of a type that a machine has. */
  ghost function Owned(inv: Inventory, owner: map<PciAddress, string>, vm: string, id: PciId): set<PciAddress> {
    set a | a in owner && owner[a] == vm && IsOfType(inv, a, id)
  }

  /** Attaching a device takes it, and nothing else, from the free devices of its type. */
  lemma FreeAfterAttach(inv: Inventory, usable: set<PciAddress>, owner: map<PciAddress, string>, id: PciId,
                        a: PciAddress, vm: string, id': PciId)
    requires DistinctAddresses(inv) && a in Free(inv, usable, owner, id)
    ensures var free, free' := Free(inv, usable, owner, id'), Free(inv, usable, owner[a := vm], id');
            && free' == free - {a}
            && |free'| == |free| - if id' == id then 1 else 0
  {
    var free, free' := Free(inv, usable, owner, id'), Free(inv, usable, owner[a := vm], id');
    assert free' == free - {a};
    if id' == id {
      assert a in free;
    } else if a in free {
      OneType(inv, a, id, id');
    } else {
      assert free' == free;
    }
  }

  method IndexOf<T(==)>(s: seq<T>, x: T) returns (i: Option<nat>)
    ensures i.Some? ==> i.value < |s| && s[i.value] == x
    ensures i.None? ==> x !in s
  {
    for k := 0 to |s|
      invariant x !in s[..k]
    {
      if s[k] == x {
        return Some(k);
      }
    }
    return None;
  }

  /** The names under which the library knows the node devices. */
  function Names(inv: Inventory): (names: seq<string>)
    ensures |names| == |inv|
  {
    seq(|inv|, i requires 0 <= i < |inv| => ToNameFmt(inv[i].address))
  }

  class Device {
    const address: PciAddress
    var attachedHint: bool

    constructor (address: PciAddress)
      ensures this.address == address && !attachedHint
    {
      this.address := address;
      attachedHint := false;
    }
  }

  function Addresses(devices: seq<Device>): seq<PciAddress> {
    seq(|devices|, i requires 0 <= i < |devices| => devices[i].address)
  }

  /**
   A host: its hardware, what of it can be passed through, what of that cannot be taken back because
   detaching fails, and which machine has it.
   */
  class Host {
    const uri: string
    const inventory: Inventory
    const usable: set<PciAddress>
    const stuck: set<PciAddress>
    var owner: map<PciAddress, string>

    constructor (uri: string, inventory: Inventory, usable: set<PciAddress>, stuck: set<PciAddress>)
      ensures this.uri == uri && this.inventory == inventory && this.usable == usable && this.stuck == stuck
      ensures owner == map[]
    {
      this.uri, this.inventory, this.usable, this.stuck, owner := uri, inventory, usable, stuck, map[];
    }

    /** Takes the device description as text, as the library does. */
    method AttachDevice(vm: string, hostdev: AddressText) returns (ok: bool)
      modifies this
      ensures var a := FromText(hostdev);
              && ok == (a.Some? && a.value in usable && a.value !in old(owner))
              && owner == if ok then old(owner)[a.value := vm] else old(owner)
    {
      var a := FromText(hostdev);
      ok := a.Some? && a.value in usable && a.value !in owner;
      if ok {
        owner := owner[a.value := vm];
      }
    }

    method DetachDevice(vm: string, hostdev: AddressText) returns (ok: bool)
      modifies this
      ensures var a := FromText(hostdev);
              && ok == (a.Some? && a.value in old(owner) && old(owner)[a.value] == vm && a.value !in stuck)
              && owner == if ok then old(owner) - {a.value} else old(owner)
    {
      var a := FromText(hostdev);
      ok := a.Some? && a.value in owner && owner[a.value] == vm && a.value !in stuck;
      if ok {
        owner := owner - {a.value};
      }
    }

    /** The host devices in the description of a domain, in some order. */
    method DomainHostdevs(vm: string) returns (hostdevs: seq<AddressText>, ghost addresses: seq<PciAddress>)
      ensures |hostdevs| == |addresses|
      ensures forall i :: 0 <= i < |addresses| ==> hostdevs[i] == ToText(addresses[i])
      ensures NoDuplicates(addresses) && forall a :: a in addresses <==> a in owner && owner[a] == vm
    {
      var left := set a | a in owner && owner[a] == vm;
      ghost var all := left;
      hostdevs, addresses := [], [];
      while left != {}
        invariant left <= all
        invariant |hostdevs| == |addresses|
        invariant forall i :: 0 <= i < |addresses| ==> hostdevs[i] == ToText(addresses[i])
        invariant NoDuplicates(addresses) && forall a :: a in addresses <==> a in all - left
        decreases left
      {
        var a :| a in left;
        NoDuplicatesSnoc(addresses, a);
        left := left - {a};
        hostdevs := hostdevs + [ToText(a)];
        addresses := addresses + [a];
      }
    }

    /** The node device of this name, by its place in the inventory. */
    method LookupByName(name: string) returns (d: Option<nat>)
      ensures d.Some? ==> d.value < |inventory| && Names(inventory)[d.value] == name
      ensures d.None? ==> name !in Names(inventory)
    {
      d := IndexOf(Names(inventory), name);
    }
  }

  // ---------------------------------------------------------------------------------------------
  // The cache
  // ---------------------------------------------------------------------------------------------

  /** Unhinted devices come first. */
  ghost predicate UnhintedFirst(vec: seq<Device>)
    reads vec
  {
    forall i, j :: 0 <= i < j < |vec| && vec[i].attachedHint ==> vec[j].attachedHint
  }

  /** The library sort by hint; only the contract may be relied on. */
  method SortByHint(vec: seq<Device>) returns (sorted: seq<Device>)
    ensures multiset(sorted) == multiset(vec) && UnhintedFirst(sorted)
  {
    var unhinted: seq<Device>, hinted: seq<Device> := [], [];
    for i := 0 to |vec|
      invariant multiset(unhinted) + multiset(hinted) == multiset(vec[..i])
      invariant forall k :: 0 <= k < |unhinted| ==> !unhinted[k].attachedHint
      invariant forall k :: 0 <= k < |hinted| ==> hinted[k].attachedHint
    {
      assert vec[..i + 1] == vec[..i] + [vec[i]];
      if vec[i].attachedHint {
        hinted := hinted + [vec[i]];
      } else {
        unhinted := unhinted + [vec[i]];
      }
    }
    assert vec[..|vec|] == vec;
    sorted := unhinted + hinted;
  }

  /** The library shuffle: any exchange of elements. */
  method Shuffle(vec: seq<Device>) returns (shuffled: seq<Device>)
    ensures multiset(shuffled) == multiset(vec)
  {
    shuffled := vec;
    for i := 0 to |vec|
      invariant |shuffled| == |vec| && multiset(shuffled) == multiset(vec)
    {
      var j: nat :| i <= j < |vec|;
      shuffled := shuffled[i := shuffled[j]][j := shuffled[i]];
    }
  }

  class DeviceCache {
    /** The hardware of all hosts, which does not change. */
    ghost const hardware: map<string, Inventory>
    var devices: map<(string, PciId), seq<Device>>
    /** All objects in the cache. */
    ghost var known: set<Device>

    /** Every entry is empty or lists the devices of its host and type. */
    ghost predicate Valid()
      reads this
    {
      && (forall k :: k in devices && devices[k] != [] ==>
            k.0 in hardware && Addresses(devices[k]) == OfType(hardware[k.0], k.1))
      && (forall k, i :: k in devices && 0 <= i < |devices[k]| ==> devices[k][i] in known)
    }

    ghost predicate Knows(host: Host) {
      host.uri in hardware && hardware[host.uri] == host.inventory
    }

    constructor (ghost hardware: map<string, Inventory>)
      ensures this.hardware == hardware && devices == map[] && Valid()
    {
      this.hardware := hardware;
      devices, known := map[], {};
    }

    /** The search on a cache miss: one object for every device of the type. */
    static method FindDevices(host: Host, id: PciId) returns (found: seq<Device>)
      ensures Addresses(found) == OfType(host.inventory, id)
      ensures forall k :: 0 <= k < |found| ==> fresh(found[k]) && !found[k].attachedHint
    {
      found := [];
      for i := 0 to |host.inventory|
        invariant Addresses(found) == OfType(host.inventory[..i], id)
        invariant forall k :: 0 <= k < |found| ==> fresh(found[k]) && !found[k].attachedHint
      {
        assert host.inventory[..i + 1][..i] == host.inventory[..i];
        if host.inventory[i].id == id {
          var dev := new Device(host.inventory[i].address);
          found := found + [dev];
        }
      }
      assert host.inventory[..|host.inventory|] == host.inventory;
    }

    /** The cache lookup: an empty entry is searched for, a filled one stays as it is. */
    method Lookup(host: Host, id: PciId)
      requires Valid() && Knows(host)
      modifies this
      ensures Valid()
      ensures var key := (host.uri, id);
              && key in devices && Addresses(devices[key]) == OfType(host.inventory, id)
              && (key in old(devices) && old(devices)[key] != [] ==> devices[key] == old(devices)[key])
              && devices == old(devices)[key := devices[key]]
      ensures old(known) <= known && fresh(known - old(known))
      ensures forall d :: d in known && d !in old(known) ==> !d.attachedHint
    {
      var key := (host.uri, id);
      if key !in devices || devices[key] == [] {
        var found := FindDevices(host, id);
        devices := devices[key := found];
        known := known + set d | d in found;
        assert devices == old(devices)[key := found];
      } else {
        assert devices == old(devices)[key := devices[key]];
      }
    }

    /**
     The devices of a type on a host: all of them, the same objects every time, and in the sorted
     form those thought to be free before those thought to be attached.
     */
    method GetDevices(host: Host, id: PciId, sortAndShuffle: bool) returns (vec: seq<Device>)
      requires Valid() && Knows(host)
      modifies this
      ensures Valid()
      ensures var key := (host.uri, id);
              && key in devices && Addresses(devices[key]) == OfType(host.inventory, id)
              && multiset(vec) == multiset(devices[key]) && (!sortAndShuffle ==> vec == devices[key])
              && (key in old(devices) && old(devices)[key] != [] ==> devices[key] == old(devices)[key])
              && devices == old(devices)[key := devices[key]]
      ensures old(known) <= known && fresh(known - old(known))
      ensures forall d :: d in known && d !in old(known) ==> !d.attachedHint
      ensures sortAndShuffle ==> UnhintedFirst(vec)
    {
      Lookup(host, id);
      vec := devices[(host.uri, id)];
      if sortAndShuffle {
        vec := SortAndShuffle(vec);
      }
    }
  }

  /** The unhinted devices in any order, then the hinted ones. */
  method SortAndShuffle(devices: seq<Device>) returns (vec: seq<Device>)
    ensures multiset(vec) == multiset(devices) && UnhintedFirst(vec)
  {
    var sorted := SortByHint(devices);
    var end := 0;
    while end < |sorted| && !sorted[end].attachedHint
      invariant 0 <= end <= |sorted|
      invariant forall k :: 0 <= k < end ==> !sorted[k].attachedHint
    {
      end := end + 1;
    }
    var front := Shuffle(sorted[..end]);
    vec := front + sorted[end..];
    ShuffledFront(sorted, end, front);
  }

  /** Shuffling the devices before the first hinted one keeps the order of the two groups. */
  lemma ShuffledFront(sorted: seq<Device>, end: nat, front: seq<Device>)
    requires UnhintedFirst(sorted) && end <= |sorted| && multiset(front) == multiset(sorted[..end])
    requires forall k :: 0 <= k < end ==> !sorted[k].attachedHint
    requires end < |sorted| ==> sorted[end].attachedHint
    ensures UnhintedFirst(front + sorted[end..]) && multiset(front + sorted[end..]) == multiset(sorted)
  {
    PermutationMembers(front, sorted[..end]);
    forall k | 0 <= k < |front|
      ensures !front[k].attachedHint
    {
      assert front[k] in sorted[..end];
    }
    assert sorted == sorted[..end] + sorted[end..];
  }

  // ---------------------------------------------------------------------------------------------
  // Attaching
  // ---------------------------------------------------------------------------------------------

  lemma AddressOf(devices: seq<Device>, a: PciAddress)
    ensures a in Addresses(devices) <==> exists i :: 0 <= i < |devices| && devices[i].address == a
  {
    if i :| 0 <= i < |devices| && devices[i].address == a {
      assert Addresses(devices)[i] == a;
    }
  }

  /** Cached devices of a type, in any order, are the host's devices of that type. */
  lemma ListedAreOfType(inv: Inventory, id: PciId, cached: seq<Device>, order: seq<Device>, a: PciAddress)
    requires Addresses(cached) == OfType(inv, id) && multiset(order) == multiset(cached)
    ensures IsOfType(inv, a, id) <==> exists i :: 0 <= i < |order| && order[i].address == a
  {
    OfTypeMembers(inv, id, a);
    AddressOf(cached, a);
    PermutationMembers(order, cached);
    if i :| 0 <= i < |order| && order[i].address == a {
      assert order[i] in cached;
    }
    if i :| 0 <= i < |cached| && cached[i].address == a {
      assert cached[i] in order;
    }
  }

  /** Trying all devices of a type in turn finds a free one exactly if there is one. */
  lemma TryingFinds(inv: Inventory, usable: set<PciAddress>, owner: map<PciAddress, string>, id: PciId,
                    cached: seq<Device>, order: seq<Device>)
    requires Addresses(cached) == OfType(inv, id) && multiset(order) == multiset(cached)
    ensures forall k :: 0 <= k < |order| && CanAttach(usable, owner, order[k].address) ==>
                          order[k].address in Free(inv, usable, owner, id)
    ensures (forall k :: 0 <= k < |order| ==> !CanAttach(usable, owner, order[k].address)) ==>
              Free(inv, usable, owner, id) == {}
  {
    forall k | 0 <= k < |order| && CanAttach(usable, owner, order[k].address)
      ensures order[k].address in Free(inv, usable, owner, id)
    {
      ListedAreOfType(inv, id, cached, order, order[k].address);
    }
    forall a | a in Free(inv, usable, owner, id)
      ensures exists k :: 0 <= k < |order| && order[k].address == a
    {
      ListedAreOfType(inv, id, cached, order, a);
    }
  }

  // ---------------------------------------------------------------------------------------------
  // Detaching
  // ---------------------------------------------------------------------------------------------

  /** The addresses grouped by the type of device the host has there; no group is empty. */
  ghost predicate Grouped(inv: Inventory, addresses: seq<PciAddress>, byId: map<PciId, seq<PciAddress>>) {
    && (forall id :: id in byId ==> byId[id] == OfTypeIn(inv, addresses, id))
    && (forall id :: id in byId <==> OfTypeIn(inv, addresses, id) != [])
  }

  ghost predicate Present(inv: Inventory, a: PciAddress) {
    exists i :: 0 <= i < |inv| && inv[i].address == a
  }

  /** Parsing the addresses in a domain description; a malformed one throws. */
  method ParseHostdevs(hostdevs: seq<AddressText>) returns (r: Result<seq<PciAddress>>)
    ensures r.Ok? <==> forall i :: 0 <= i < |hostdevs| ==> FromText(hostdevs[i]).Some?
    ensures r.Ok? ==> |r.value| == |hostdevs|
    ensures r.Ok? ==> forall i :: 0 <= i < |hostdevs| ==> FromText(hostdevs[i]) == Some(r.value[i])
  {
    var addresses := [];
    for i := 0 to |hostdevs|
      invariant |addresses| == i
      invariant forall k :: 0 <= k < i ==> FromText(hostdevs[k]) == Some(addresses[k])
    {
      var a := FromText(hostdevs[i]);
      if a.None? {
        return Thrown;
      }
      addresses := addresses + [a.value];
    }
    r := Ok(addresses);
  }

  /** The type of the device at an address, found through the name of the node device. */
  method TypeAt(host: Host, a: PciAddress) returns (id: PciId)
    requires Present(host.inventory, a)
    ensures IsOfType(host.inventory, a, id)
  {
    var k := host.LookupByName(ToNameFmt(a));
    ghost var i :| 0 <= i < |host.inventory| && host.inventory[i].address == a;
    assert Names(host.inventory)[i] == ToNameFmt(a);
    NameFmtInjective(a, host.inventory[k.value].address);
    id := host.inventory[k.value].id;
  }

  lemma GroupOne(inv: Inventory, addresses: seq<PciAddress>, n: nat, id: PciId, byId: map<PciId, seq<PciAddress>>)
    requires DistinctAddresses(inv) && n < |addresses| && IsOfType(inv, addresses[n], id)
    requires Grouped(inv, addresses[..n], byId)
    ensures Grouped(inv, addresses[..n + 1], byId[id := (if id in byId then byId[id] else []) + [addresses[n]]])
  {
    var more := addresses[..n + 1];
    assert more[..n] == addresses[..n] && more[n] == addresses[n];
    forall k
      ensures OfTypeIn(inv, more, k) == OfTypeIn(inv, addresses[..n], k) + if k == id then [addresses[n]] else []
    {
      if IsOfType(inv, addresses[n], k) {
        OneType(inv, addresses[n], id, k);
      }
    }
  }

  method GroupByType(host: Host, addresses: seq<PciAddress>) returns (byId: map<PciId, seq<PciAddress>>)
    requires DistinctAddresses(host.inventory)
    requires forall i :: 0 <= i < |addresses| ==> Present(host.inventory, addresses[i])
    ensures Grouped(host.inventory, addresses, byId)
  {
    byId := map[];
    for n := 0 to |addresses|
      invariant Grouped(host.inventory, addresses[..n], byId)
    {
      var id := TypeAt(host, addresses[n]);
      GroupOne(host.inventory, addresses, n, id, byId);
      byId := byId[id := (if id in byId then byId[id] else []) + [addresses[n]]];
    }
    assert addresses[..|addresses|] == addresses;
  }

  /** The cached object for an address; there is one, as the cache lists all devices of the type. */
  method FindDevice(devices: seq<Device>, a: PciAddress) returns (d: Device)
    requires a in Addresses(devices)
    ensures d in devices && d.address == a
  {
    AddressOf(devices, a);
    var i := 0;
    while devices[i].address != a
      invariant 0 <= i < |devices|
      invariant forall k :: 0 <= k < i ==> devices[k].address != a
      decreases |devices| - i
    {
      i := i + 1;
    }
    d := devices[i];
  }

  /** The devices found so far are those of the types done. */
  ghost predicate FoundFor(byId: map<PciId, seq<PciAddress>>, done: set<PciId>, found: seq<PciAddress>) {
    && NoDuplicates(found)
    && forall a :: a in found <==> exists id :: id in done && id in byId && a in byId[id]
  }

  /** The groups are disjoint. */
  lemma GroupsDisjoint(inv: Inventory, addresses: seq<PciAddress>, byId: map<PciId, seq<PciAddress>>,
                       id: PciId, id': PciId, a: PciAddress)
    requires DistinctAddresses(inv) && Grouped(inv, addresses, byId)
    requires id in byId && id' in byId && a in byId[id] && a in byId[id']
    ensures id == id'
  {
    OfTypeInMembers(inv, addresses, id);
    OfTypeInMembers(inv, addresses, id');
    OneType(inv, a, id, id');
  }

  /** One more group, none of whose addresses was found before. */
  lemma FoundMore(byId: map<PciId, seq<PciAddress>>, done: set<PciId>, id: PciId, found: seq<PciAddress>)
    requires FoundFor(byId, done, found) && id in byId && NoDuplicates(byId[id])
    requires forall k, a :: k in done && k in byId && a in byId[k] ==> a !in byId[id]
    ensures FoundFor(byId, done + {id}, found + byId[id])
  {
    var all := found + byId[id];
    forall i, j | 0 <= i < j < |all|
      ensures all[i] != all[j]
    {
      if i < |found| <= j {
        assert all[i] in found && all[j] in byId[id];
      }
    }
    forall a
      ensures a in all <==> exists k :: k in done + {id} && k in byId && a in byId[k]
    {
      assert a in all <==> a in found || a in byId[id];
    }
  }

  method FindAll(devices: seq<Device>, addresses: seq<PciAddress>) returns (found: seq<Device>)
    requires forall k :: 0 <= k < |addresses| ==> addresses[k] in Addresses(devices)
    ensures Addresses(found) == addresses
    ensures forall d :: d in found ==> d in devices
  {
    found := [];
    for k := 0 to |addresses|
      invariant Addresses(found) == addresses[..k]
      invariant forall d :: d in found ==> d in devices
    {
      var d := FindDevice(devices, addresses[k]);
      found := found + [d];
    }
    assert addresses[..|addresses|] == addresses;
  }

  /** The cached objects of one group. */
  method FindGroup(cache: DeviceCache, host: Host, id: PciId, addresses: seq<PciAddress>) returns (found: seq<Device>)
    requires cache.Valid() && cache.Knows(host)
    requires forall k :: 0 <= k < |addresses| ==> IsOfType(host.inventory, addresses[k], id)
    modifies cache
    ensures cache.Valid() && Addresses(found) == addresses
    ensures old(cache.known) <= cache.known && fresh(cache.known - old(cache.known))
    ensures forall d :: d in cache.known && d !in old(cache.known) ==> !d.attachedHint
    ensures forall d :: d in found ==> d in cache.known
  {
    var devices := cache.GetDevices(host, id, false);
    forall k | 0 <= k < |addresses|
      ensures addresses[k] in Addresses(devices)
    {
      OfTypeMembers(host.inventory, id, addresses[k]);
    }
    found := FindAll(devices, addresses);
  }

  /** The cached objects of all groups, type by type in any order. */
  method FindInCache(cache: DeviceCache, host: Host, ghost addresses: seq<PciAddress>,
                     byId: map<PciId, seq<PciAddress>>)
    returns (found: seq<Device>)
    requires cache.Valid() && cache.Knows(host) && DistinctAddresses(host.inventory)
    requires NoDuplicates(addresses) && Grouped(host.inventory, addresses, byId)
    modifies cache
    ensures cache.Valid() && FoundFor(byId, byId.Keys, Addresses(found))
    ensures old(cache.known) <= cache.known && fresh(cache.known - old(cache.known))
    ensures forall d :: d in cache.known && d !in old(cache.known) ==> !d.attachedHint
    ensures forall d :: d in found ==> d in cache.known
  {
    found := [];
    var todo := byId.Keys;
    while todo != {}
      invariant todo <= byId.Keys && cache.Valid()
      invariant FoundFor(byId, byId.Keys - todo, Addresses(found))
      invariant old(cache.known) <= cache.known && fresh(cache.known - old(cache.known))
      invariant forall d :: d in cache.known && d !in old(cache.known) ==> !d.attachedHint
      invariant forall d :: d in found ==> d in cache.known
      decreases todo
    {
      var id :| id in todo;
      OfTypeInMembers(host.inventory, addresses, id);
      var more := FindGroup(cache, host, id, byId[id]);
      forall k, a | k in byId.Keys - todo && k in byId && a in byId[k]
        ensures a !in byId[id]
      {
        if a in byId[id] {
          GroupsDisjoint(host.inventory, addresses, byId, k, id, a);
        }
      }
      FoundMore(byId, byId.Keys - todo, id, Addresses(found));
      assert Addresses(found + more) == Addresses(found) + byId[id];
      assert byId.Keys - (todo - {id}) == (byId.Keys - todo) + {id};
      found := found + more;
      todo := todo - {id};
    }
    assert byId.Keys - todo == byId.Keys;
  }

  ghost function Elements(s: seq<PciAddress>): set<PciAddress> {
    set a | a in s
  }

  lemma ElementsSnoc(s: seq<PciAddress>, i: nat)
    requires i < |s|
    ensures Elements(s[..i + 1]) == Elements(s[..i]) + {s[i]}
    ensures NoDuplicates(s) ==> s[i] !in Elements(s[..i])
  {
    assert s[..i + 1] == s[..i] + [s[i]];
  }

  /** The address goes through text on its way to the host. */
  method DetachHostdev(host: Host, vm: string, a: PciAddress) returns (ok: bool)
    modifies host
    ensures ok == (a in old(host.owner) && old(host.owner)[a] == vm && a !in host.stuck)
    ensures host.owner == if ok then old(host.owner) - {a} else old(host.owner)
  {
    AddressRoundTrip(a);
    ok := host.DetachDevice(vm, ToText(a));
  }

  /** Detaches every device once and takes its hint back; a failure to detach is passed over. */
  method DetachAll(host: Host, vm: string, devices: seq<Device>)
    requires NoDuplicates(Addresses(devices))
    requires forall a :: a in Addresses(devices) ==> a in host.owner && host.owner[a] == vm
    modifies host, set d | d in devices
    ensures host.owner == old(host.owner) - (Elements(Addresses(devices)) - host.stuck)
    ensures forall d :: d in devices ==> !d.attachedHint
  {
    ghost var all := Addresses(devices);
    for i := 0 to |devices|
      invariant host.owner == old(host.owner) - (Elements(all[..i]) - host.stuck)
      invariant forall k :: 0 <= k < i ==> !devices[k].attachedHint
    {
      ElementsSnoc(all, i);
      assert all[i] in all;
      var ok := DetachHostdev(host, vm, devices[i].address);
      assert ok <==> all[i] !in host.stuck;
      devices[i].attachedHint := false;
    }
    assert all[..|devices|] == all;
  }

  /** What the machine had, by type. */
  ghost predicate CountsOwned(inv: Inventory, owner: map<PciAddress, string>, vm: string, counts: map<PciId, nat>) {
    && (forall id :: id in counts ==> counts[id] == |Owned(inv, owner, vm, id)|)
    && (forall id :: id in counts <==> Owned(inv, owner, vm, id) != {})
  }

  lemma GroupCounts(inv: Inventory, addresses: seq<PciAddress>, byId: map<PciId, seq<PciAddress>>,
                    owner: map<PciAddress, string>, vm: string, id: PciId)
    requires Grouped(inv, addresses, byId) && NoDuplicates(addresses)
    requires forall a :: a in addresses <==> a in owner && owner[a] == vm
    ensures |OfTypeIn(inv, addresses, id)| == |Owned(inv, owner, vm, id)|
    ensures id in byId ==> byId[id] == OfTypeIn(inv, addresses, id)
    ensures id in byId <==> Owned(inv, owner, vm, id) != {}
  {
    OfTypeInMembers(inv, addresses, id);
    NoDuplicatesCard(OfTypeIn(inv, addresses, id), Owned(inv, owner, vm, id));
  }

  /** Every listed address is in the group of its type, so all are found and nothing else. */
  lemma FoundIsListed(inv: Inventory, addresses: seq<PciAddress>, byId: map<PciId, seq<PciAddress>>,
                      found: seq<PciAddress>)
    requires Grouped(inv, addresses, byId) && FoundFor(byId, byId.Keys, found)
    requires forall i :: 0 <= i < |addresses| ==> Present(inv, addresses[i])
    ensures forall a :: a in found <==> a in addresses
  {
    forall a
      ensures a in found <==> a in addresses
    {
      if a in addresses {
        assert Present(inv, a);
        var i :| 0 <= i < |inv| && inv[i].address == a;
        assert inv[i] == NodeDevice(a, inv[i].id);
        OfTypeInMembers(inv, addresses, inv[i].id);
      }
      if a in found {
        var id :| id in byId && a in byId[id];
        OfTypeInMembers(inv, addresses, id);
      }
    }
  }

  ghost predicate AllPresent(inv: Inventory, owner: map<PciAddress, string>, vm: string) {
    forall a :: a in owner && owner[a] == vm ==> Present(inv, a)
  }

  /** What the other machines have. */
  ghost function OthersOf(owner: map<PciAddress, string>, vm: string): map<PciAddress, string> {
    map a | a in owner && owner[a] != vm :: owner[a]
  }

  /** What is left when all of a machine's devices have been detached but those that are stuck. */
  ghost function LeftAfter(owner: map<PciAddress, string>, vm: string, stuck: set<PciAddress>)
    : map<PciAddress, string>
  {
    map a | a in owner && (owner[a] != vm || a in stuck) :: owner[a]
  }

  lemma CountsOfGroups(inv: Inventory, addresses: seq<PciAddress>, byId: map<PciId, seq<PciAddress>>,
                       owner: map<PciAddress, string>, vm: string, counts: map<PciId, nat>)
    requires Grouped(inv, addresses, byId) && NoDuplicates(addresses)
    requires forall a :: a in addresses <==> a in owner && owner[a] == vm
    requires counts.Keys == byId.Keys && forall id :: id in counts ==> counts[id] == |byId[id]|
    ensures CountsOwned(inv, owner, vm, counts)
  {
    forall id: PciId
      ensures id in byId ==> |byId[id]| == |Owned(inv, owner, vm, id)|
      ensures id in byId <==> Owned(inv, owner, vm, id) != {}
    {
      GroupCounts(inv, addresses, byId, owner, vm, id);
    }
  }

  lemma OwnedAfterAttach(inv: Inventory, owner: map<PciAddress, string>, id: PciId, a: PciAddress, vm: string, k: PciId)
    requires DistinctAddresses(inv) && a !in owner && IsOfType(inv, a, id)
    ensures |Owned(inv, owner[a := vm], vm, k)| == |Owned(inv, owner, vm, k)| + if k == id then 1 else 0
  {
    var own, own' := Owned(inv, owner, vm, k), Owned(inv, owner[a := vm], vm, k);
    if k == id {
      assert own' == own + {a};
    } else {
      if IsOfType(inv, a, k) {
        OneType(inv, a, id, k);
      }
      assert own' == own;
    }
  }

  /** Giving a free device to a machine. */
  lemma GivenOne(inv: Inventory, usable: set<PciAddress>, owner: map<PciAddress, string>, id: PciId, a: PciAddress,
                 vm: string)
    requires DistinctAddresses(inv) && a in Free(inv, usable, owner, id)
    ensures forall k :: |Owned(inv, owner[a := vm], vm, k)| == |Owned(inv, owner, vm, k)| + if k == id then 1 else 0
    ensures OthersOf(owner[a := vm], vm) == OthersOf(owner, vm)
    ensures AllPresent(inv, owner, vm) ==> AllPresent(inv, owner[a := vm], vm)
  {
    forall k: PciId
      ensures |Owned(inv, owner[a := vm], vm, k)| == |Owned(inv, owner, vm, k)| + if k == id then 1 else 0
    {
      OwnedAfterAttach(inv, owner, id, a, vm, k);
    }
    var i :| 0 <= i < |inv| && inv[i] == NodeDevice(a, id);
    assert Present(inv, a);
  }

  /** Detaches the devices with these addresses, all that the machine has. */
  method TakeAll(cache: DeviceCache, host: Host, vm: string, ghost addresses: seq<PciAddress>,
                 byId: map<PciId, seq<PciAddress>>)
    requires cache.Valid() && cache.Knows(host) && DistinctAddresses(host.inventory)
    requires NoDuplicates(addresses) && Grouped(host.inventory, addresses, byId)
    requires forall a :: a in addresses <==> a in host.owner && host.owner[a] == vm
    requires forall i :: 0 <= i < |addresses| ==> Present(host.inventory, addresses[i])
    modifies host, cache, cache.known
    ensures cache.Valid() && fresh(cache.known - old(cache.known)) && old(cache.known) <= cache.known
    ensures host.owner == LeftAfter(old(host.owner), vm, host.stuck)
  {
    var found := FindInCache(cache, host, addresses, byId);
    FoundIsListed(host.inventory, addresses, byId, Addresses(found));
    DetachAll(host, vm, found);
  }

  class PciDeviceHandler {
    const cache: DeviceCache

    constructor (cache: DeviceCache)
      ensures this.cache == cache
    {
      this.cache := cache;
    }

    /** The address goes through text on its way to the host. */
    method AttachHostdev(host: Host, vm: string, a: PciAddress) returns (ok: bool)
      modifies host
      ensures ok == CanAttach(host.usable, old(host.owner), a)
      ensures host.owner == if ok then old(host.owner)[a := vm] else old(host.owner)
    {
      AddressRoundTrip(a);
      ok := host.AttachDevice(vm, ToText(a));
    }

    /** Tries the devices one after the other until one can be attached, hinting each tried. */
    method TryAttach(host: Host, vm: string, devices: seq<Device>) returns (r: Result<()>, tried: nat)
      modifies host, set d | d in devices
      ensures tried <= |devices|
      ensures r.Ok? ==>
                && tried > 0 && CanAttach(host.usable, old(host.owner), devices[tried - 1].address)
                && host.owner == old(host.owner)[devices[tried - 1].address := vm]
      ensures r.Thrown? ==>
                && tried == |devices| && host.owner == old(host.owner)
                && forall k :: 0 <= k < |devices| ==> !CanAttach(host.usable, host.owner, devices[k].address)
      ensures forall d :: d in devices ==> d.attachedHint == (d in devices[..tried] || old(d.attachedHint))
    {
      r, tried := Thrown, 0;
      while tried < |devices| && r.Thrown?
        invariant tried <= |devices|
        invariant r.Thrown? ==>
                    && host.owner == old(host.owner)
                    && forall k :: 0 <= k < tried ==> !CanAttach(host.usable, host.owner, devices[k].address)
        invariant r.Ok? ==>
                    && tried > 0 && CanAttach(host.usable, old(host.owner), devices[tried - 1].address)
                    && host.owner == old(host.owner)[devices[tried - 1].address := vm]
        invariant forall d :: d in devices ==> d.attachedHint == (d in devices[..tried] || old(d.attachedHint))
        decreases |devices| - tried
      {
        var device := devices[tried];
        var ok := AttachHostdev(host, vm, device.address);
        device.attachedHint := true;
        if ok {
          r := Ok(());
        }
        assert devices[..tried + 1] == devices[..tried] + [device];
        tried := tried + 1;
      }
    }

    /**
     Attaches one device of the type. The hints decide only in which order devices are tried:
     the call succeeds exactly if some device of the type is free, takes one free device of the
     type on success and none on failure, and hints exactly the devices it tried.
     */
    method Attach(host: Host, vm: string, id: PciId) returns (r: Result<()>, ghost order: seq<Device>, ghost tried: nat)
      requires cache.Valid() && cache.Knows(host)
      modifies host, cache, cache.known
      ensures cache.Valid()
      ensures var key := (host.uri, id);
              && key in cache.devices && multiset(order) == multiset(cache.devices[key])
              && cache.devices == old(cache.devices)[key := cache.devices[key]]
      ensures tried <= |order|
      ensures r.Ok? <==> Free(host.inventory, host.usable, old(host.owner), id) != {}
      ensures r.Ok? ==>
                && tried > 0 && order[tried - 1].address in Free(host.inventory, host.usable, old(host.owner), id)
                && host.owner == old(host.owner)[order[tried - 1].address := vm]
      ensures r.Thrown? ==> tried == |order| && host.owner == old(host.owner)
      ensures old(cache.known) <= cache.known && fresh(cache.known - old(cache.known))
      ensures forall d :: d in cache.known ==>
                d.attachedHint == (d in order[..tried] || (d in old(cache.known) && old(d.attachedHint)))
    {
      var devices := cache.GetDevices(host, id, true);
      order, tried := devices, 0;
      ghost var cached := cache.devices[(host.uri, id)];
      PermutationMembers(order, cached);
      TryingFinds(host.inventory, host.usable, host.owner, id, cached, order);
      if |devices| == 0 {
        return Thrown, order, tried;
      }
      var n: nat;
      r, n := TryAttach(host, vm, devices);
      tried := n;
    }

    /** The devices of a machine, out of the text of its domain description. */
    method ListDevices(host: Host, vm: string) returns (addresses: seq<PciAddress>)
      ensures NoDuplicates(addresses) && forall a :: a in addresses <==> a in host.owner && host.owner[a] == vm
    {
      var hostdevs;
      ghost var listed;
      hostdevs, listed := host.DomainHostdevs(vm);
      forall i | 0 <= i < |hostdevs|
        ensures FromText(hostdevs[i]) == Some(listed[i])
      {
        AddressRoundTrip(listed[i]);
      }
      var parsed := ParseHostdevs(hostdevs);
      addresses := parsed.value;
      assert addresses == listed;
    }

    /**
     Takes all devices from a machine. Each is parsed out of the description of the domain, found
     in the cache under its own type and detached once; the result counts them by type, also those
     that are stuck and stay with the machine.
     */
    method Detach(host: Host, vm: string) returns (counts: map<PciId, nat>)
      requires cache.Valid() && cache.Knows(host) && DistinctAddresses(host.inventory)
      requires AllPresent(host.inventory, host.owner, vm)
      modifies host, cache, cache.known
      ensures cache.Valid()
      ensures old(cache.known) <= cache.known && fresh(cache.known - old(cache.known))
      ensures host.owner == LeftAfter(old(host.owner), vm, host.stuck)
      ensures CountsOwned(host.inventory, old(host.owner), vm, counts)
    {
      ghost var owner := host.owner;
      var addresses := ListDevices(host, vm);
      var byId := GroupByType(host, addresses);
      TakeAll(cache, host, vm, addresses, byId);
      counts := map id | id in byId :: |byId[id]|;
      CountsOfGroups(host.inventory, addresses, byId, owner, vm, counts);
    }

    /** Attaches the devices a new machine asks for, in order; the first failure throws. */
    method AttachAll(host: Host, vm: string, ids: seq<PciId>) returns (n: nat)
      requires cache.Valid() && cache.Knows(host) && DistinctAddresses(host.inventory)
      requires forall a :: a in host.owner ==> host.owner[a] != vm
      modifies host, cache, cache.known
      ensures cache.Valid() && fresh(cache.known - old(cache.known))
      ensures n <= |ids| && (n < |ids| ==> Free(host.inventory, host.usable, host.owner, ids[n]) == {})
      ensures forall id :: |Owned(host.inventory, host.owner, vm, id)| == multiset(ids[..n])[id]
      ensures OthersOf(host.owner, vm) == old(host.owner) && AllPresent(host.inventory, host.owner, vm)
    {
      n := 0;
      assert OthersOf(host.owner, vm) == host.owner;
      assert forall id :: Owned(host.inventory, host.owner, vm, id) == {};
      while n < |ids|
        invariant cache.Valid() && fresh(cache.known - old(cache.known))
        invariant n <= |ids|
        invariant forall id :: |Owned(host.inventory, host.owner, vm, id)| == multiset(ids[..n])[id]
        invariant OthersOf(host.owner, vm) == old(host.owner) && AllPresent(host.inventory, host.owner, vm)
      {
        ghost var owner := host.owner;
        var r;
        ghost var a;
        r, a := AttachOne(host, vm, ids[n]);
        if r.Thrown? {
          return;
        }
        GivenOne(host.inventory, host.usable, owner, ids[n], a, vm);
        assert ids[..n + 1] == ids[..n] + [ids[n]];
        n := n + 1;
      }
    }

    /** `attach` without what it says about hints. */
    method AttachOne(host: Host, vm: string, id: PciId) returns (r: Result<()>, ghost a: PciAddress)
      requires cache.Valid() && cache.Knows(host)
      modifies host, cache, cache.known
      ensures cache.Valid() && fresh(cache.known - old(cache.known))
      ensures r.Ok? ==>
                && a in Free(host.inventory, host.usable, old(host.owner), id)
                && host.owner == old(host.owner)[a := vm]
      ensures r.Thrown? ==> host.owner == old(host.owner) && Free(host.inventory, host.usable, host.owner, id) == {}
    {
      ghost var order, tried;
      r, order, tried := Attach(host, vm, id);
      a := if r.Ok? then order[tried - 1].address else PciAddress(0, 0, 0, 0);
    }

    /**
     Attach then detach is a round trip, through text and cache: whatever was attached to a new
     machine is detached again, unless it is stuck, and the counts are the numbers attached of each type.
     */
    method AttachThenDetach(host: Host, vm: string, ids: seq<PciId>) returns (n: nat, counts: map<PciId, nat>)
      requires cache.Valid() && cache.Knows(host) && DistinctAddresses(host.inventory)
      requires forall a :: a in host.owner ==> host.owner[a] != vm
      modifies host, cache, cache.known
      ensures cache.Valid() && OthersOf(host.owner, vm) == old(host.owner)
      ensures forall a :: a in host.owner && a !in old(host.owner) ==> a in host.stuck && host.owner[a] == vm
      ensures n <= |ids| && forall id :: (if id in counts then counts[id] else 0) == multiset(ids[..n])[id]
    {
      n := AttachAll(host, vm, ids);
      counts := Detach(host, vm);
    }
  }

  // ---------------------------------------------------------------------------------------------
  // Reattaching on the destination
  // ---------------------------------------------------------------------------------------------

  function CountIn(counts: map<PciId, nat>, id: PciId): nat {
    if id in counts then counts[id] else 0
  }

  /** Of every type: what has been attached since, plus what is still to do, is what was recorded. */
  ghost predicate CountsConserved(inv: Inventory, usable: set<PciAddress>, owner0: map<PciAddress, string>,
                                  owner: map<PciAddress, string>, counts0: map<PciId, nat>, counts: map<PciId, nat>)
  {
    && counts.Keys == counts0.Keys
    && forall id :: |Free(inv, usable, owner0, id)| - |Free(inv, usable, owner, id)| + CountIn(counts, id)
                    == CountIn(counts0, id)
  }

  /** Nothing is taken from anybody, and what is new can be passed through and belongs to the machine. */
  ghost predicate OnlyGivenTo(usable: set<PciAddress>, owner0: map<PciAddress, string>, owner: map<PciAddress, string>,
                              vm: string)
  {
    && (forall a :: a in owner0 ==> a in owner && owner[a] == owner0[a])
    && (forall a :: a in owner && a !in owner0 ==> a in usable && owner[a] == vm)
  }

  /** What is no longer free on a host the machine has on top of what it had there. */
  lemma GivenIsOwned(inv: Inventory, usable: set<PciAddress>, owner0: map<PciAddress, string>,
                     owner: map<PciAddress, string>, vm: string, id: PciId)
    requires OnlyGivenTo(usable, owner0, owner, vm)
    ensures Owned(inv, owner0, vm, id) <= Owned(inv, owner, vm, id)
    ensures |Owned(inv, owner, vm, id)| - |Owned(inv, owner0, vm, id)|
         == |Free(inv, usable, owner0, id)| - |Free(inv, usable, owner, id)|
  {
    var before, after := Free(inv, usable, owner0, id), Free(inv, usable, owner, id);
    var had, has := Owned(inv, owner0, vm, id), Owned(inv, owner, vm, id);
    assert after <= before && had <= has;
    forall a
      ensures a in has - had <==> a in before - after
    {
    }
    CardWithout(had, has);
    CardWithout(after, before);
    assert has - had == before - after;
  }

  lemma CardWithout<T>(a: set<T>, b: set<T>)
    requires a <= b
    ensures |b - a| == |b| - |a|
  {
    assert b == a + (b - a);
  }

  /** All that a machine has can be detached and passed through again. */
  ghost predicate AllReturn(usable: set<PciAddress>, stuck: set<PciAddress>, owner: map<PciAddress, string>,
                            vm: string)
  {
    forall a :: a in owner && owner[a] == vm ==> a in usable && a !in stuck
  }

  /** What was taken from a machine always fits where it was. */
  lemma TakenFitsBack(inv: Inventory, usable: set<PciAddress>, stuck: set<PciAddress>, owner: map<PciAddress, string>,
                      vm: string, id: PciId)
    requires AllReturn(usable, stuck, owner, vm)
    ensures |Owned(inv, owner, vm, id)| <= |Free(inv, usable, LeftAfter(owner, vm, stuck), id)|
  {
    var had, free := Owned(inv, owner, vm, id), Free(inv, usable, LeftAfter(owner, vm, stuck), id);
    assert had <= free;
    assert free == had + (free - had);
  }

  lemma AttachConserves(inv: Inventory, usable: set<PciAddress>, owner0: map<PciAddress, string>,
                        owner: map<PciAddress, string>, counts0: map<PciId, nat>, counts: map<PciId, nat>,
                        id: PciId, a: PciAddress, vm: string)
    requires DistinctAddresses(inv) && CountsConserved(inv, usable, owner0, owner, counts0, counts)
    requires a in Free(inv, usable, owner, id) && id in counts && counts[id] > 0
    ensures CountsConserved(inv, usable, owner0, owner[a := vm], counts0, counts[id := counts[id] - 1])
  {
    forall k: PciId
      ensures |Free(inv, usable, owner[a := vm], k)| == |Free(inv, usable, owner, k)| - if k == id then 1 else 0
    {
      FreeAfterAttach(inv, usable, owner, id, a, vm, k);
    }
  }

  /** Of type `bad` something is left to do, of every other type all or nothing. */
  ghost predicate StoppedAt(counts0: map<PciId, nat>, counts: map<PciId, nat>, bad: PciId) {
    && counts.Keys == counts0.Keys && bad in counts && counts[bad] > 0
    && forall id :: id in counts && id != bad ==> counts[id] == 0 || counts[id] == counts0[id]
  }

  /** The guard that gives back what its constructor took. */
  class MigrateDevicesGuard {
    const handler: PciDeviceHandler
    const vm: string
    var host: Host
    var counts: map<PciId, nat>

    /** Detaches all devices of the machine. */
    constructor (handler: PciDeviceHandler, host: Host, vm: string)
      requires handler.cache.Valid() && handler.cache.Knows(host) && DistinctAddresses(host.inventory)
      requires AllPresent(host.inventory, host.owner, vm)
      modifies host, handler.cache, handler.cache.known
      ensures this.handler == handler && this.host == host && this.vm == vm
      ensures handler.cache.Valid() && fresh(handler.cache.known - old(handler.cache.known))
      ensures host.owner == LeftAfter(old(host.owner), vm, host.stuck)
      ensures CountsOwned(host.inventory, old(host.owner), vm, counts)
    {
      this.handler, this.host, this.vm, this.counts := handler, host, vm, map[];
      new;
      counts := handler.Detach(host, vm);
    }

    method SetDestinationDomain(host: Host)
      modifies this`host
      ensures this.host == host
    {
      this.host := host;
    }

    /** One device of the type, and one less to do. */
    method ReattachOne(id: PciId, ghost owner0: map<PciAddress, string>, ghost counts0: map<PciId, nat>)
      returns (r: Result<()>)
      requires handler.cache.Valid() && handler.cache.Knows(host) && DistinctAddresses(host.inventory)
      requires id in counts && counts[id] > 0
      requires CountsConserved(host.inventory, host.usable, owner0, host.owner, counts0, counts)
      requires OnlyGivenTo(host.usable, owner0, host.owner, vm)
      modifies this`counts, host, handler.cache, handler.cache.known
      ensures handler.cache.Valid()
      ensures fresh(handler.cache.known - old(handler.cache.known))
      ensures CountsConserved(host.inventory, host.usable, owner0, host.owner, counts0, counts)
      ensures OnlyGivenTo(host.usable, owner0, host.owner, vm)
      ensures r.Ok? ==> counts == old(counts)[id := old(counts)[id] - 1]
      ensures r.Thrown? ==> counts == old(counts) && Free(host.inventory, host.usable, host.owner, id) == {}
    {
      ghost var before := host.owner;
      ghost var a: PciAddress;
      r, a := handler.AttachOne(host, vm, id);
      if r.Ok? {
        AttachConserves(host.inventory, host.usable, owner0, before, counts0, counts, id, a, vm);
        counts := counts[id := counts[id] - 1];
      }
    }

    /** All devices of one type. */
    method ReattachType(id: PciId, ghost owner0: map<PciAddress, string>, ghost counts0: map<PciId, nat>)
      returns (r: Result<()>)
      requires handler.cache.Valid() && handler.cache.Knows(host) && DistinctAddresses(host.inventory)
      requires id in counts
      requires CountsConserved(host.inventory, host.usable, owner0, host.owner, counts0, counts)
      requires OnlyGivenTo(host.usable, owner0, host.owner, vm)
      modifies this`counts, host, handler.cache, handler.cache.known
      ensures handler.cache.Valid()
      ensures fresh(handler.cache.known - old(handler.cache.known))
      ensures CountsConserved(host.inventory, host.usable, owner0, host.owner, counts0, counts)
      ensures OnlyGivenTo(host.usable, owner0, host.owner, vm)
      ensures id in counts && forall k :: k in counts && k != id ==> k in old(counts) && counts[k] == old(counts)[k]
      ensures r.Ok? ==> counts[id] == 0
      ensures r.Thrown? ==> counts[id] > 0 && Free(host.inventory, host.usable, host.owner, id) == {}
    {
      while counts[id] != 0
        invariant handler.cache.Valid() && id in counts
        invariant forall k :: k in counts && k != id ==> k in old(counts) && counts[k] == old(counts)[k]
        invariant fresh(handler.cache.known - old(handler.cache.known))
        invariant CountsConserved(host.inventory, host.usable, owner0, host.owner, counts0, counts)
        invariant OnlyGivenTo(host.usable, owner0, host.owner, vm)
        decreases counts[id]
      {
        r := ReattachOne(id, owner0, counts0);
        if r.Thrown? {
          return;
        }
      }
      r := Ok(());
    }

    /**
     Attaches as many devices of every type as were detached. Also when it throws midway, nothing
     is lost or counted twice; it succeeds exactly if the host has enough free devices of each type.
     It leaves both loops at the first device that cannot be attached, so the other types are then
     done or have not been begun.
     */
    method Reattach() returns (r: Result<()>)
      requires handler.cache.Valid() && handler.cache.Knows(host) && DistinctAddresses(host.inventory)
      modifies this`counts, host, handler.cache, handler.cache.known
      ensures handler.cache.Valid()
      ensures CountsConserved(host.inventory, host.usable, old(host.owner), host.owner, old(counts), counts)
      ensures OnlyGivenTo(host.usable, old(host.owner), host.owner, vm)
      ensures r.Ok? <==> forall id :: id in old(counts) ==>
                           old(counts)[id] <= |Free(host.inventory, host.usable, old(host.owner), id)|
      ensures r.Ok? ==> forall id :: id in counts ==> counts[id] == 0
      ensures r.Thrown? ==> exists bad :: bad in counts && StoppedAt(old(counts), counts, bad)
                                          && Free(host.inventory, host.usable, host.owner, bad) == {}
    {
      ghost var owner0, counts0 := host.owner, counts;
      var todo := counts.Keys;
      while todo != {}
        invariant handler.cache.Valid() && todo <= counts.Keys
        invariant fresh(handler.cache.known - old(handler.cache.known))
        invariant CountsConserved(host.inventory, host.usable, owner0, host.owner, counts0, counts)
        invariant OnlyGivenTo(host.usable, owner0, host.owner, vm)
        invariant forall id :: id in counts && id !in todo ==> counts[id] == 0
        invariant forall id :: id in todo ==> counts[id] == counts0[id]
        decreases todo
      {
        var id :| id in todo;
        todo := todo - {id};
        r := ReattachType(id, owner0, counts0);
        if r.Thrown? {
          assert |Free(host.inventory, host.usable, host.owner, id)| == 0;
          assert counts0[id] > |Free(host.inventory, host.usable, owner0, id)|;
          assert StoppedAt(counts0, counts, id);
          return;
        }
      }
      r := Ok(());
    }
  }

  /** What is owned on the destination once the source has let go of the machine's devices. */
  ghost function OwnedBefore(src: Host, dst: Host, srcOwner: map<PciAddress, string>, dstOwner: map<PciAddress, string>,
                             vm: string): map<PciAddress, string>
  {
    if src == dst then LeftAfter(srcOwner, vm, src.stuck) else dstOwner
  }

  /**
   The devices of a machine from their detaching to their reattaching, on another host or, when the
   migration failed, on the same one. The destination gives as many of each type if it can, and says
   so exactly then; the machine then owns as many of each type as before, on top of what it may still
   have there. Going back to where they were succeeds if all could be detached.
   */
  method MoveDevices(handler: PciDeviceHandler, src: Host, dst: Host, vm: string) returns (r: Result<()>)
    requires handler.cache.Valid() && handler.cache.Knows(src) && handler.cache.Knows(dst)
    requires DistinctAddresses(src.inventory) && DistinctAddresses(dst.inventory)
    requires AllPresent(src.inventory, src.owner, vm)
    modifies src, dst, handler.cache, handler.cache.known
    ensures src != dst ==> src.owner == LeftAfter(old(src.owner), vm, src.stuck)
    ensures OnlyGivenTo(dst.usable, OwnedBefore(src, dst, old(src.owner), old(dst.owner), vm), dst.owner, vm)
    ensures r.Ok? <==> forall id :: |Owned(src.inventory, old(src.owner), vm, id)|
                                    <= |Free(dst.inventory, dst.usable,
                                             OwnedBefore(src, dst, old(src.owner), old(dst.owner), vm), id)|
    ensures r.Ok? ==> forall id ::
              |Owned(dst.inventory, dst.owner, vm, id)|
              == |Owned(dst.inventory, OwnedBefore(src, dst, old(src.owner), old(dst.owner), vm), vm, id)|
                 + |Owned(src.inventory, old(src.owner), vm, id)|
    ensures src == dst && AllReturn(src.usable, src.stuck, old(src.owner), vm) ==> r.Ok?
  {
    ghost var owner := src.owner;
    var guard := new MigrateDevicesGuard(handler, src, vm);
    guard.SetDestinationDomain(dst);
    ghost var counts, before := guard.counts, dst.owner;
    r := guard.Reattach();
    assert forall id :: id !in counts ==> |Owned(src.inventory, owner, vm, id)| == 0;
    if src == dst && AllReturn(src.usable, src.stuck, owner, vm) {
      forall id
        ensures |Owned(src.inventory, owner, vm, id)| <= |Free(dst.inventory, dst.usable, before, id)|
      {
        TakenFitsBack(src.inventory, src.usable, src.stuck, owner, vm, id);
      }
    }
    if r.Ok? {
      forall id: PciId
        ensures |Owned(dst.inventory, dst.owner, vm, id)|
             == |Owned(dst.inventory, before, vm, id)| + |Owned(src.inventory, owner, vm, id)|
      {
        GivenIsOwned(dst.inventory, dst.usable, before, dst.owner, vm, id);
      }
    }
  }
}
