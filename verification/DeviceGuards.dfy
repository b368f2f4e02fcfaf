/**
 The device guard in the small and in the large: `PciDevices` attaches and detaches one device after the
 other, `Guards` gives a machine a multiset of types back at once. Detaching and reattaching are proved
 to be the constructor and the destructor of the large model.
 */
module DeviceGuards {
  import opened Sequences
  import opened PciNames
  import opened PciDevices
  import Guards

  /** The types of the devices a machine has, with their numbers. */
  ghost function OwnedTypes(inv: Inventory, owner: map<PciAddress, string>, vm: string): multiset<PciId> {
    if inv == [] then multiset{}
    else
      var n := |inv| - 1;
      OwnedTypes(inv[..n], owner, vm)
      + if inv[n].address in owner && owner[inv[n].address] == vm then multiset{inv[n].id} else multiset{}
  }

  lemma {:induction false} OwnedTypesCount(inv: Inventory, owner: map<PciAddress, string>, vm: string, id: PciId)
    requires DistinctAddresses(inv)
    ensures OwnedTypes(inv, owner, vm)[id] == |Owned(inv, owner, vm, id)|
  {
    if inv == [] {
      assert Owned(inv, owner, vm, id) == {};
    } else {
      var n := |inv| - 1;
      OwnedTypesCount(inv[..n], owner, vm, id);
      OwnedSnoc(inv, owner, vm, id);
    }
  }

  lemma OwnedSnoc(inv: Inventory, owner: map<PciAddress, string>, vm: string, id: PciId)
    requires DistinctAddresses(inv) && inv != []
    ensures var d := inv[|inv| - 1];
            |Owned(inv, owner, vm, id)| == |Owned(inv[..|inv| - 1], owner, vm, id)|
              + if d.id == id && d.address in owner && owner[d.address] == vm then 1 else 0
  {
    var n := |inv| - 1;
    var d := inv[n];
    var before, after := Owned(inv[..n], owner, vm, id), Owned(inv, owner, vm, id);
    assert inv == inv[..n] + [d];
    forall a
      ensures IsOfType(inv, a, id) <==> IsOfType(inv[..n], a, id) || (a == d.address && d.id == id)
      ensures IsOfType(inv[..n], a, id) ==> a != d.address
    {
      if IsOfType(inv[..n], a, id) {
        var i :| 0 <= i < n && inv[..n][i] == NodeDevice(a, id);
        assert inv[i].address != inv[n].address;
      }
    }
    if d.id == id && d.address in owner && owner[d.address] == vm {
      assert after == before + {d.address};
    } else {
      assert after == before;
    }
  }

  /** The multiset of types that a guard has recorded. */
  ghost predicate Recorded(counts: map<PciId, nat>, m: multiset<PciId>) {
    forall id :: m[id] == CountIn(counts, id)
  }

  /** Reattaching stops within one type, the others are done or not begun. */
  ghost predicate StopsWithin(recorded: multiset<PciId>, attached: multiset<PciId>, bad: PciId) {
    && attached[bad] < recorded[bad]
    && forall id :: id != bad ==> attached[id] == 0 || attached[id] == recorded[id]
  }

  /** The constructor of the large model: what is stuck stays, and all that was there is recorded. */
  lemma ConstructorIsLarge(inv: Inventory, owner: map<PciAddress, string>, vm: string, stuck: set<PciAddress>,
                           counts: map<PciId, nat>)
    requires DistinctAddresses(inv) && CountsOwned(inv, owner, vm, counts)
    ensures var had, has := OwnedTypes(inv, owner, vm), OwnedTypes(inv, LeftAfter(owner, vm, stuck), vm);
            Recorded(counts, had) && has == had * has
  {
    var had, has := OwnedTypes(inv, owner, vm), OwnedTypes(inv, LeftAfter(owner, vm, stuck), vm);
    forall id: PciId
      ensures had[id] == CountIn(counts, id) && has[id] <= had[id]
    {
      OwnedTypesCount(inv, owner, vm, id);
      OwnedTypesCount(inv, LeftAfter(owner, vm, stuck), vm, id);
      var kept, all := Owned(inv, LeftAfter(owner, vm, stuck), vm, id), Owned(inv, owner, vm, id);
      assert kept <= all;
      CardWithout(kept, all);
    }
  }

  /** What reattaching has got done when it completes or throws. */
  lemma AttachedSoFar(inv: Inventory, usable: set<PciAddress>, owner0: map<PciAddress, string>,
                      owner: map<PciAddress, string>, counts0: map<PciId, nat>, counts: map<PciId, nat>, vm: string,
                      recorded: multiset<PciId>)
    returns (attached: multiset<PciId>)
    requires DistinctAddresses(inv) && Recorded(counts0, recorded) && OnlyGivenTo(usable, owner0, owner, vm)
    requires CountsConserved(inv, usable, owner0, owner, counts0, counts)
    ensures attached <= recorded && OwnedTypes(inv, owner, vm) == OwnedTypes(inv, owner0, vm) + attached
    ensures forall id :: attached[id] + CountIn(counts, id) == recorded[id]
  {
    var before, after := OwnedTypes(inv, owner0, vm), OwnedTypes(inv, owner, vm);
    attached := after - before;
    forall id: PciId
      ensures after[id] + CountIn(counts, id) == before[id] + recorded[id] && before[id] <= after[id]
    {
      OwnedTypesCount(inv, owner0, vm, id);
      OwnedTypesCount(inv, owner, vm, id);
      GivenIsOwned(inv, usable, owner0, owner, vm, id);
      CardWithout(Owned(inv, owner0, vm, id), Owned(inv, owner, vm, id));
    }
  }

  lemma StopsOnce(counts0: map<PciId, nat>, counts: map<PciId, nat>, bad: PciId,
                  recorded: multiset<PciId>, attached: multiset<PciId>)
    requires StoppedAt(counts0, counts, bad) && Recorded(counts0, recorded)
    requires forall id :: attached[id] + CountIn(counts, id) == recorded[id]
    ensures StopsWithin(recorded, attached, bad) && !(recorded <= attached)
  {
    forall id: PciId | id != bad
      ensures attached[id] == 0 || attached[id] == recorded[id]
    {
      assert id in counts || CountIn(counts, id) == 0;
    }
    assert attached[bad] < recorded[bad];
  }

  lemma ReleaseIs(d: Guards.Domain, recorded: multiset<PciId>, attached: multiset<PciId>, w: Guards.World,
                  unwinding: bool, rest: Guards.Restore)
    requires d in w.active && attached <= recorded
    ensures var i := w.active[d];
            Guards.Release(Guards.Devices(d, recorded), w, unwinding, rest.(attached := attached))
            == (w.(active := w.active[d := i.(pci := i.pci + attached)]), !(recorded <= attached))
  {
    assert recorded * attached == attached;
  }

  /**
   The destructor of the large model. Reattaching the recorded devices one after the other, up to the
   first that cannot be attached, does to the machine what releasing the large guard does, and it
   throws exactly then. Types that come after the one it stopped at have not been touched.
   */
  method ReattachIsRelease(guard: MigrateDevicesGuard, ghost recorded: multiset<PciId>, ghost d: Guards.Domain,
                           ghost w: Guards.World, ghost unwinding: bool, ghost rest: Guards.Restore)
    returns (r: Result<()>, ghost attached: multiset<PciId>)
    requires guard.handler.cache.Valid() && guard.handler.cache.Knows(guard.host)
    requires DistinctAddresses(guard.host.inventory) && Recorded(guard.counts, recorded)
    requires d in w.active && w.active[d].pci == OwnedTypes(guard.host.inventory, guard.host.owner, guard.vm)
    modifies guard`counts, guard.host, guard.handler.cache, guard.handler.cache.known
    ensures guard.host == old(guard.host)
    ensures var i := w.active[d].(pci := OwnedTypes(guard.host.inventory, guard.host.owner, guard.vm));
            Guards.Release(Guards.Devices(d, recorded), w, unwinding, rest.(attached := attached))
            == (w.(active := w.active[d := i]), r.Thrown?)
    ensures attached <= recorded && (r.Thrown? ==> exists bad :: StopsWithin(recorded, attached, bad))
  {
    ghost var counts0, owner0 := guard.counts, guard.host.owner;
    r := guard.Reattach();
    attached := AttachedSoFar(guard.host.inventory, guard.host.usable, owner0, guard.host.owner, counts0, guard.counts,
                              guard.vm, recorded);
    if r.Thrown? {
      ghost var bad :| bad in guard.counts && StoppedAt(counts0, guard.counts, bad);
      StopsOnce(counts0, guard.counts, bad, recorded, attached);
    } else {
      assert forall id :: CountIn(guard.counts, id) == 0;
      assert recorded <= attached;
    }
    ReleaseIs(d, recorded, attached, w, unwinding, rest);
  }
}
