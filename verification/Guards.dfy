/**
 The scope guards that surround a migration, and what leaving the scope does.

 A guard takes something from a virtual machine in its constructor and gives it back, to whatever
 domain handle it then holds, in its destructor. Guards are destroyed in reverse order. While an
 exception unwinds the stack the destructors swallow their own exceptions, and the repin guard
 only resumes; otherwise an exception of a destructor starts the unwinding for the guards below.
 */
module Guards {
  import opened Sequences
  import opened PciNames

  /** A handle to the domain of a virtual machine on one host. */
  datatype Domain = Domain(vm: string, host: string)

  datatype Shmem =
    Shmem(name: string, aliasName: string, model: string, size: string, unit: string, address: Option<string>)

  /** What libvirt shows of a domain that is active on a host. */
  datatype Instance = Instance(paused: bool, pinned: bool, pci: multiset<PciId>, shmem: seq<Shmem>)

  /**
   The cluster: the active domains, the virtual machines whose pscom processes are suspended, the
   response topics subscribed to, the snapshot records, and the snapshot contents on shared disks.
   */
  datatype World = World(active: map<Domain, Instance>, suspended: set<string>, subscribed: set<string>,
                         records: set<Domain>, saved: map<string, Instance>)

  datatype Guard =
    | Pscom(vm: string, expected: nat)
    | Devices(domain: Domain, counts: multiset<PciId>)
    | Shared(domain: Domain, detached: seq<Shmem>)
    | Repin(domain: Domain, hasMap: bool)

  /**
   Which of the calls that restore one virtual machine succeed. `attached` is what reattaching gets done,
   by type, before it completes or throws; `DeviceGuards` shows that the device guard does just that.
   */
  datatype Restore =
    Restore(repin: bool, resume: bool, attached: multiset<PciId>, shmem: bool, send: bool, answers: bool)

  /** Repinning and resuming work, and devices of all these types can be attached. */
  predicate Works(r: Restore, counts: multiset<PciId>) {
    r.repin && r.resume && counts <= r.attached && r.shmem
  }

  function VmOf(g: Guard): string {
    if g.Pscom? then g.vm else g.domain.vm
  }

  // ---------------------------------------------------------------------------------------------
  // The shared memory device as the guard rewrites it
  // ---------------------------------------------------------------------------------------------

  /**
   A detached device is parsed from the children of its element, so the name comes from the alias;
   it is written back with that name and the one model the handler knows.
   */
  function Rebuilt(d: Shmem): Shmem {
    d.(name := d.aliasName, model := "ivshmem-plain")
  }

  function AllRebuilt(s: seq<Shmem>): seq<Shmem> {
    seq(|s|, k requires 0 <= k < |s| => Rebuilt(s[k]))
  }

  /** What the guard hands back for d: the same device by size and address, under its alias. */
  predicate HandedBack(d: Shmem, d': Shmem) {
    && d'.name == d.aliasName && d'.aliasName == d.aliasName && d'.model == "ivshmem-plain"
    && d'.size == d.size && d'.unit == d.unit && d'.address == d.address
  }

  predicate AllHandedBack(s: seq<Shmem>, s': seq<Shmem>) {
    |s'| == |s| && forall k :: 0 <= k < |s| ==> HandedBack(s[k], s'[k])
  }

  /** Rewriting hands back every device, and there is no other way to do so. */
  lemma RebuiltIsHandedBack(s: seq<Shmem>, s': seq<Shmem>)
    ensures AllHandedBack(s, s') <==> s' == AllRebuilt(s)
  {
    if AllHandedBack(s, s') {
      forall k | 0 <= k < |s|
        ensures s'[k] == AllRebuilt(s)[k]
      {
        assert HandedBack(s[k], s'[k]);
      }
    }
  }

  /** A device that the guard's rewriting leaves as it is. */
  predicate Plain(d: Shmem) {
    d.name == d.aliasName && d.model == "ivshmem-plain"
  }

  predicate AllPlain(s: seq<Shmem>) {
    forall k :: 0 <= k < |s| ==> Plain(s[k])
  }

  /** Devices that come back rewritten are those that were there exactly if they are plain. */
  lemma RebuiltIsSameIff(s: seq<Shmem>)
    ensures AllRebuilt(s) == s <==> AllPlain(s)
  {
    if AllRebuilt(s) == s {
      forall k | 0 <= k < |s|
        ensures Plain(s[k])
      {
        assert AllRebuilt(s)[k] == s[k];
      }
    }
  }

  // ---------------------------------------------------------------------------------------------
  // Destructors
  // ---------------------------------------------------------------------------------------------

  /** What the body of the destructor does, and whether it throws. */
  function Release(g: Guard, w: World, unwinding: bool, r: Restore): (World, bool) {
    match g
    case Repin(d, hasMap) =>
      if !hasMap then (w, false)
      else if d !in w.active then (w, true)
      else if !unwinding && !r.repin then (w, true)
      else
        var i := w.active[d].(pinned := w.active[d].pinned || !unwinding);
        if r.resume then (w.(active := w.active[d := i.(paused := false)]), false)
        else (w.(active := w.active[d := i]), true)
    case Devices(d, counts) =>
      if d !in w.active then (w, counts != multiset{})
      else
        var i := w.active[d];
        (w.(active := w.active[d := i.(pci := i.pci + counts * r.attached)]), !(counts <= r.attached))
    case Shared(d, detached) =>
      if detached == [] then (w, false)
      else if d in w.active && r.shmem then
        var i := w.active[d];
        (w.(active := w.active[d := i.(shmem := i.shmem + detached)]), false)
      else (w, true)
    case Pscom(vm, expected) =>
      if expected == 0 then (w, false)
      else
        var closed := w.(subscribed := w.subscribed - {vm});
        if r.send then (closed.(suspended := w.suspended - {vm}), !r.answers) else (closed, true)
  }

  /** Exceptions of a destructor are swallowed while unwinding. */
  function Destroy(g: Guard, w: World, unwinding: bool, r: Restore): (World, bool) {
    var (w', threw) := Release(g, w, unwinding, r);
    (w', threw && !unwinding)
  }

  /** Leaving the scope: the guards are destroyed from the last to the first. */
  function Unwind(guards: seq<Guard>, w: World, unwinding: bool, env: string -> Restore): (World, bool) {
    if guards == [] then (w, unwinding)
    else
      var g := guards[|guards| - 1];
      var (w', threw) := Destroy(g, w, unwinding, env(VmOf(g)));
      Unwind(guards[..|guards| - 1], w', unwinding || threw, env)
  }

  lemma {:induction false} UnwindConcat(a: seq<Guard>, b: seq<Guard>, w: World, unwinding: bool, env: string -> Restore)
    ensures var (w', u') := Unwind(b, w, unwinding, env);
            Unwind(a + b, w, unwinding, env) == Unwind(a, w', u', env)
    decreases |b|
  {
    if b == [] {
      assert a + b == a;
    } else {
      var g := b[|b| - 1];
      var (w', threw) := Destroy(g, w, unwinding, env(VmOf(g)));
      assert (a + b)[..|a + b| - 1] == a + b[..|b| - 1];
      assert (a + b)[|a + b| - 1] == g;
      UnwindConcat(a, b[..|b| - 1], w', unwinding || threw, env);
    }
  }

  // ---------------------------------------------------------------------------------------------
  // What the guards of one virtual machine hold
  // ---------------------------------------------------------------------------------------------

  /** All guards of the machine point to this domain. */
  ghost predicate Aimed(guards: seq<Guard>, d: Domain) {
    forall k :: 0 <= k < |guards| && VmOf(guards[k]) == d.vm && !guards[k].Pscom? ==> guards[k].domain == d
  }

  function HeldPci(guards: seq<Guard>, vm: string): multiset<PciId> {
    if guards == [] then multiset{}
    else
      var g := guards[|guards| - 1];
      HeldPci(guards[..|guards| - 1], vm) + if g.Devices? && g.domain.vm == vm then g.counts else multiset{}
  }

  /** Of the held devices, those that reattaching gets done. */
  function RestoredPci(guards: seq<Guard>, vm: string, attached: multiset<PciId>): multiset<PciId> {
    if guards == [] then multiset{}
    else
      var g := guards[|guards| - 1];
      RestoredPci(guards[..|guards| - 1], vm, attached)
      + if g.Devices? && g.domain.vm == vm then g.counts * attached else multiset{}
  }

  function HeldShmem(guards: seq<Guard>, vm: string): seq<Shmem> {
    if guards == [] then []
    else
      var g := guards[|guards| - 1];
      HeldHere(g, vm) + HeldShmem(guards[..|guards| - 1], vm)
  }

  ghost predicate Repins(guards: seq<Guard>, vm: string) {
    exists k :: 0 <= k < |guards| && guards[k].Repin? && guards[k].domain.vm == vm && guards[k].hasMap
  }

  ghost predicate HoldsPscom(guards: seq<Guard>, vm: string) {
    exists k :: 0 <= k < |guards| && guards[k].Pscom? && guards[k].vm == vm && guards[k].expected > 0
  }

  lemma {:induction false} RestoredAll(guards: seq<Guard>, vm: string, attached: multiset<PciId>)
    requires HeldPci(guards, vm) <= attached
    ensures RestoredPci(guards, vm, attached) == HeldPci(guards, vm)
  {
    if guards != [] {
      RestoredAll(guards[..|guards| - 1], vm, attached);
    }
  }

  // ---------------------------------------------------------------------------------------------
  // Leaving the scope restores every machine that its guards point to
  // ---------------------------------------------------------------------------------------------

  /** Leaving neither moves a machine nor touches a snapshot. */
  lemma {:induction false} UnwindMovesNothing(guards: seq<Guard>, w: World, unwinding: bool, env: string -> Restore)
    ensures var w' := Unwind(guards, w, unwinding, env).0;
            w'.active.Keys == w.active.Keys && w'.records == w.records && w'.saved == w.saved
    decreases |guards|
  {
    if guards != [] {
      var g := guards[|guards| - 1];
      var (w', threw) := Destroy(g, w, unwinding, env(VmOf(g)));
      UnwindMovesNothing(guards[..|guards| - 1], w', unwinding || threw, env);
    }
  }

  /** Domains that no guard points to are left alone. */
  lemma {:induction false} UnwindLeavesOthers(guards: seq<Guard>, w: World, unwinding: bool, env: string -> Restore,
                                              d: Domain)
    requires d in w.active
    requires forall k :: 0 <= k < |guards| && !guards[k].Pscom? ==> guards[k].domain != d
    ensures var w' := Unwind(guards, w, unwinding, env).0;
            d in w'.active && w'.active[d] == w.active[d]
    decreases |guards|
  {
    if guards != [] {
      var g := guards[|guards| - 1];
      var (w', threw) := Destroy(g, w, unwinding, env(VmOf(g)));
      UnwindLeavesOthers(guards[..|guards| - 1], w', unwinding || threw, env, d);
    }
  }

  lemma DestroyReattaches(g: Guard, w: World, unwinding: bool, r: Restore, d: Domain)
    requires d in w.active && (VmOf(g) == d.vm && !g.Pscom? ==> g.domain == d)
    ensures var w' := Destroy(g, w, unwinding, r).0;
            && d in w'.active
            && w'.active[d].pci
               == w.active[d].pci + (if g.Devices? && g.domain.vm == d.vm then g.counts * r.attached else multiset{})
            && w'.active[d].shmem
               == w.active[d].shmem + (if g.Shared? && g.domain.vm == d.vm && r.shmem then g.detached else [])
  {
  }

  lemma {:induction false} UnwindReattachesPci(guards: seq<Guard>, w: World, unwinding: bool, env: string -> Restore,
                                               d: Domain)
    requires d in w.active && Aimed(guards, d)
    ensures var w' := Unwind(guards, w, unwinding, env).0;
            && d in w'.active
            && w'.active[d].pci == w.active[d].pci + RestoredPci(guards, d.vm, env(d.vm).attached)
    decreases |guards|
  {
    if guards != [] {
      var g := guards[|guards| - 1];
      var (w', threw) := Destroy(g, w, unwinding, env(VmOf(g)));
      DestroyReattaches(g, w, unwinding, env(VmOf(g)), d);
      UnwindReattachesPci(guards[..|guards| - 1], w', unwinding || threw, env, d);
    }
  }

  /** The part of a held device list that the call gives back. */
  function Given(works: bool, s: seq<Shmem>): seq<Shmem> {
    if works then s else []
  }

  function HeldHere(g: Guard, vm: string): seq<Shmem> {
    if g.Shared? && g.domain.vm == vm then g.detached else []
  }

  lemma GivenConcat(works: bool, a: seq<Shmem>, x: seq<Shmem>, y: seq<Shmem>)
    ensures (a + Given(works, x)) + Given(works, y) == a + Given(works, x + y)
  {
  }

  lemma {:induction false} UnwindReattachesShmem(guards: seq<Guard>, w: World, unwinding: bool, env: string -> Restore,
                                                 d: Domain)
    requires d in w.active && Aimed(guards, d)
    ensures var w' := Unwind(guards, w, unwinding, env).0;
            && d in w'.active
            && w'.active[d].shmem == w.active[d].shmem + Given(env(d.vm).shmem, HeldShmem(guards, d.vm))
    decreases |guards|
  {
    var works := env(d.vm).shmem;
    if guards != [] {
      var g, rest := guards[|guards| - 1], guards[..|guards| - 1];
      var (w', threw) := Destroy(g, w, unwinding, env(VmOf(g)));
      DestroyReattaches(g, w, unwinding, env(VmOf(g)), d);
      assert w'.active[d].shmem == w.active[d].shmem + Given(works, HeldHere(g, d.vm));
      UnwindReattachesShmem(rest, w', unwinding || threw, env, d);
      GivenConcat(works, w.active[d].shmem, HeldHere(g, d.vm), HeldShmem(rest, d.vm));
    } else {
      assert w.active[d].shmem + [] == w.active[d].shmem;
    }
  }

  /**
   The devices come back to where the machine is, whatever else fails on the way: PCI devices and
   shared memory depend on what their own guard gets done, and on no other.
   */
  lemma UnwindReattaches(guards: seq<Guard>, w: World, unwinding: bool, env: string -> Restore, d: Domain)
    requires d in w.active && Aimed(guards, d)
    ensures var w', r := Unwind(guards, w, unwinding, env).0, env(d.vm);
            && d in w'.active
            && w'.active[d].pci == w.active[d].pci + RestoredPci(guards, d.vm, r.attached)
            && w'.active[d].shmem == w.active[d].shmem + Given(r.shmem, HeldShmem(guards, d.vm))
  {
    UnwindReattachesPci(guards, w, unwinding, env, d);
    UnwindReattachesShmem(guards, w, unwinding, env, d);
  }

  /** The run state: only a repin guard of the machine with a cpu map changes it. */
  lemma {:induction false} UnwindKeepsRunState(guards: seq<Guard>, w: World, unwinding: bool, env: string -> Restore,
                                               d: Domain)
    requires d in w.active && !Repins(guards, d.vm)
    ensures var w' := Unwind(guards, w, unwinding, env).0;
            d in w'.active && w'.active[d].paused == w.active[d].paused && w'.active[d].pinned == w.active[d].pinned
    decreases |guards|
  {
    if guards != [] {
      var g := guards[|guards| - 1];
      var (w', threw) := Destroy(g, w, unwinding, env(VmOf(g)));
      UnwindKeepsRunState(guards[..|guards| - 1], w', unwinding || threw, env, d);
    }
  }

  /** While unwinding, the machine is resumed without repinning. */
  lemma {:induction false} UnwindingResumes(guards: seq<Guard>, w: World, env: string -> Restore, d: Domain)
    requires d in w.active && Aimed(guards, d)
    ensures var w' := Unwind(guards, w, true, env).0;
            && d in w'.active && w'.active[d].pinned == w.active[d].pinned
            && w'.active[d].paused == (w.active[d].paused && !(Repins(guards, d.vm) && env(d.vm).resume))
    decreases |guards|
  {
    if guards != [] {
      var n := |guards| - 1;
      var g, rest := guards[n], guards[..n];
      var (w', threw) := Destroy(g, w, true, env(VmOf(g)));
      UnwindingResumes(rest, w', env, d);
      assert Repins(guards, d.vm) <==> Repins(rest, d.vm) || (g.Repin? && g.domain.vm == d.vm && g.hasMap) by {
        if Repins(rest, d.vm) {
          var k :| 0 <= k < |rest| && rest[k].Repin? && rest[k].domain.vm == d.vm && rest[k].hasMap;
          assert guards[k] == rest[k];
        }
      }
    }
  }

  /** In any case: if its own repin and resume calls succeed, the machine runs afterwards. */
  lemma {:induction false} UnwindResumes(guards: seq<Guard>, w: World, unwinding: bool, env: string -> Restore,
                                         d: Domain)
    requires d in w.active && Aimed(guards, d)
    requires env(d.vm).repin && env(d.vm).resume
    ensures var w' := Unwind(guards, w, unwinding, env).0;
            && d in w'.active
            && w'.active[d].paused == (w.active[d].paused && !Repins(guards, d.vm))
    decreases |guards|
  {
    if guards != [] {
      var n := |guards| - 1;
      var g, rest := guards[n], guards[..n];
      var (w', threw) := Destroy(g, w, unwinding, env(VmOf(g)));
      UnwindResumes(rest, w', unwinding || threw, env, d);
      assert Repins(guards, d.vm) <==> Repins(rest, d.vm) || (g.Repin? && g.domain.vm == d.vm && g.hasMap) by {
        if Repins(rest, d.vm) {
          var k :| 0 <= k < |rest| && rest[k].Repin? && rest[k].domain.vm == d.vm && rest[k].hasMap;
          assert guards[k] == rest[k];
        }
      }
    }
  }

  /** Pscom processes are resumed exactly if the request can be sent; subscriptions always end. */
  lemma {:induction false} UnwindResumesPscom(guards: seq<Guard>, w: World, unwinding: bool, env: string -> Restore,
                                              vm: string)
    ensures var w' := Unwind(guards, w, unwinding, env).0;
            && (vm in w'.suspended <==> vm in w.suspended && !(HoldsPscom(guards, vm) && env(vm).send))
            && (vm in w'.subscribed <==> vm in w.subscribed && !HoldsPscom(guards, vm))
    decreases |guards|
  {
    if guards != [] {
      var n := |guards| - 1;
      var g, rest := guards[n], guards[..n];
      var (w', threw) := Destroy(g, w, unwinding, env(VmOf(g)));
      UnwindResumesPscom(rest, w', unwinding || threw, env, vm);
      assert HoldsPscom(guards, vm) <==> HoldsPscom(rest, vm) || (g.Pscom? && g.vm == vm && g.expected > 0) by {
        if HoldsPscom(rest, vm) {
          var k :| 0 <= k < |rest| && rest[k].Pscom? && rest[k].vm == vm && rest[k].expected > 0;
          assert guards[k] == rest[k];
        }
      }
    }
  }

  lemma {:induction false} UnwindPscomOnly(guards: seq<Guard>, w: World, unwinding: bool, env: string -> Restore)
    requires forall k :: 0 <= k < |guards| ==> guards[k].Pscom?
    ensures Unwind(guards, w, unwinding, env).0.active == w.active
    decreases |guards|
  {
    if guards != [] {
      var g := guards[|guards| - 1];
      var (w', threw) := Destroy(g, w, unwinding, env(VmOf(g)));
      UnwindPscomOnly(guards[..|guards| - 1], w', unwinding || threw, env);
    }
  }

  lemma {:induction false} UnwindWithoutPscom(guards: seq<Guard>, w: World, unwinding: bool, env: string -> Restore)
    requires forall k :: 0 <= k < |guards| ==> !guards[k].Pscom?
    ensures Unwind(guards, w, unwinding, env).0.suspended == w.suspended
    decreases |guards|
  {
    if guards != [] {
      var g := guards[|guards| - 1];
      var (w', threw) := Destroy(g, w, unwinding, env(VmOf(g)));
      UnwindWithoutPscom(guards[..|guards| - 1], w', unwinding || threw, env);
    }
  }

  /**
   Processes are resumed only when everything else is in place: with the pscom guards at the bottom
   of the stack, the machines are in their final state while all processes are still suspended.
   */
  lemma PscomIsResumedLast(pscom: seq<Guard>, others: seq<Guard>, w: World, unwinding: bool, env: string -> Restore)
    requires forall k :: 0 <= k < |pscom| ==> pscom[k].Pscom?
    requires forall k :: 0 <= k < |others| ==> !others[k].Pscom?
    ensures var (mid, u) := Unwind(others, w, unwinding, env);
            && mid.suspended == w.suspended
            && Unwind(pscom + others, w, unwinding, env) == Unwind(pscom, mid, u, env)
            && Unwind(pscom + others, w, unwinding, env).0.active == mid.active
  {
    var (mid, u) := Unwind(others, w, unwinding, env);
    UnwindWithoutPscom(others, w, unwinding, env);
    UnwindConcat(pscom, others, w, unwinding, env);
    UnwindPscomOnly(pscom, mid, u, env);
  }

  /** An exception in flight stays in flight. */
  lemma {:induction false} UnwindingStays(guards: seq<Guard>, w: World, env: string -> Restore)
    ensures Unwind(guards, w, true, env).1
    decreases |guards|
  {
    if guards != [] {
      var g := guards[|guards| - 1];
      var (w', threw) := Destroy(g, w, true, env(VmOf(g)));
      UnwindingStays(guards[..|guards| - 1], w', env);
    }
  }

  // ---------------------------------------------------------------------------------------------
  // Whether leaving the scope throws
  // ---------------------------------------------------------------------------------------------

  /** The call that this guard needs to restore its machine does not work. */
  predicate Failing(g: Guard, active: set<Domain>, r: Restore) {
    match g
    case Repin(d, hasMap) => hasMap && !(d in active && r.repin && r.resume)
    case Devices(d, counts) => counts != multiset{} && !(d in active && counts <= r.attached)
    case Shared(d, detached) => detached != [] && !(d in active && r.shmem)
    case Pscom(vm, expected) => expected > 0 && !(r.send && r.answers)
  }

  ghost predicate SomeFailing(guards: seq<Guard>, active: set<Domain>, env: string -> Restore) {
    exists k :: 0 <= k < |guards| && Failing(guards[k], active, env(VmOf(guards[k])))
  }

  lemma DestroyThrowsIff(g: Guard, w: World, r: Restore)
    ensures Destroy(g, w, false, r).1 <==> Failing(g, w.active.Keys, r)
    ensures Destroy(g, w, false, r).0.active.Keys == w.active.Keys
  {
  }

  /**
   Any stack of guards: if no exception is in flight, leaving the scope throws exactly if one of the
   guards cannot restore its machine, whichever of them throws first and however many.
   */
  lemma {:induction false} UnwindThrowsIff(guards: seq<Guard>, w: World, env: string -> Restore)
    ensures Unwind(guards, w, false, env).1 <==> SomeFailing(guards, w.active.Keys, env)
    decreases |guards|
  {
    if guards != [] {
      var n := |guards| - 1;
      var g, rest := guards[n], guards[..n];
      var (w', threw) := Destroy(g, w, false, env(VmOf(g)));
      DestroyThrowsIff(g, w, env(VmOf(g)));
      if threw {
        UnwindingStays(rest, w', env);
      } else {
        UnwindThrowsIff(rest, w', env);
        if SomeFailing(guards, w.active.Keys, env) {
          var k :| 0 <= k <= n && Failing(guards[k], w.active.Keys, env(VmOf(guards[k])));
          assert rest[k] == guards[k];
        }
        if k :| 0 <= k < n && Failing(rest[k], w.active.Keys, env(VmOf(rest[k]))) {
          assert guards[k] == rest[k];
        }
      }
    }
  }
}
