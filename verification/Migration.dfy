/** Migration of one virtual machine: the stack frame with its guards, and `migrate` itself. */
module Migration {
  import opened PciNames
  import opened Guards

  /** What happens while processes are asked to suspend: connection, request, and replies in time. */
  datatype PscomOpen = PscomOpen(connected: bool, send: bool, replies: nat)

  /** Which calls work before and during the migration, and the devices that fail to detach. */
  datatype Faults = Faults(connect: bool, find: bool, pscom: PscomOpen, detachShmem: bool, listDevices: bool,
                           stuck: multiset<PciId>, connectDestination: bool, resolveUri: bool, migrate: bool)

  predicate PscomOpens(p: PscomOpen, expected: nat) {
    expected == 0 || (p.connected && p.send && expected <= p.replies)
  }

  /** The effect of asking for suspension, complete or not. */
  function PscomAsked(w: World, vm: string, expected: nat, p: PscomOpen): World {
    w.(subscribed := w.subscribed + if expected > 0 && p.connected then {vm} else {},
       suspended := w.suspended + if expected > 0 && p.connected && p.send then {vm} else {})
  }

  function WithInstance(w: World, d: Domain, i: Instance): World {
    w.(active := w.active[d := i])
  }

  function Retarget(g: Guard, d: Domain): Guard {
    if g.Pscom? then g else g.(domain := d)
  }

  // ---------------------------------------------------------------------------------------------
  // How far a migration gets
  // ---------------------------------------------------------------------------------------------

  predicate Started(w: World, src: Domain, f: Faults) {
    f.connect && f.find && src in w.active && !w.active[src].paused
  }

  predicate TakesShmem(w: World, src: Domain, expected: nat, f: Faults) {
    && Started(w, src, f) && PscomOpens(f.pscom, expected)
    && (w.active[src].shmem == [] || (|w.active[src].shmem| == 1 && f.detachShmem))
  }

  predicate TakesDevices(w: World, src: Domain, expected: nat, f: Faults) {
    TakesShmem(w, src, expected, f) && f.listDevices
  }

  predicate Moves(w: World, src: Domain, dst: Domain, expected: nat, f: Faults) {
    && TakesDevices(w, src, expected, f)
    && f.connectDestination && f.resolveUri && f.migrate && dst !in w.active
  }

  // ---------------------------------------------------------------------------------------------
  // Leaving a scope with the four guards of a migration
  // ---------------------------------------------------------------------------------------------

  lemma UnwindLast(guards: seq<Guard>, g: Guard, w: World, unwinding: bool, env: string -> Restore)
    ensures var (w', threw) := Destroy(g, w, unwinding, env(VmOf(g)));
            Unwind(guards + [g], w, unwinding, env) == Unwind(guards, w', unwinding || threw, env)
  {
    assert (guards + [g])[..|guards|] == guards;
  }

  /** The exception bit after a normal return: set exactly if some restoring call failed. */
  lemma UnwindReports(vm: string, d: Domain, expected: nat, shmem: seq<Shmem>, counts: multiset<PciId>, hasMap: bool,
                      w: World, env: string -> Restore)
    requires d in w.active && d.vm == vm
    ensures var r := env(vm);
            Unwind([Pscom(vm, expected), Shared(d, shmem), Devices(d, counts), Repin(d, hasMap)], w, false, env).1
            <==> (hasMap && !(r.repin && r.resume)) || !(counts <= r.attached) || (shmem != [] && !r.shmem)
                 || (expected > 0 && !(r.send && r.answers))
  {
    var gs := [Pscom(vm, expected), Shared(d, shmem), Devices(d, counts), Repin(d, hasMap)];
    UnwindThrowsIff(gs, w, env);
    assert SomeFailing(gs, w.active.Keys, env)
      <==> Failing(gs[0], w.active.Keys, env(vm)) || Failing(gs[1], w.active.Keys, env(vm))
           || Failing(gs[2], w.active.Keys, env(vm)) || Failing(gs[3], w.active.Keys, env(vm));
  }

  /** The guards of a migration that has got this far, all pointing to `at`. */
  function GuardsAt(w: World, src: Domain, at: Domain, expected: nat, hasMap: bool, f: Faults): seq<Guard>
    requires Started(w, src, f)
  {
    var i := w.active[src];
    (if PscomOpens(f.pscom, expected) then [Pscom(src.vm, expected)] else [])
    + (if TakesShmem(w, src, expected, f) then [Shared(at, AllRebuilt(i.shmem))] else [])
    + (if TakesDevices(w, src, expected, f) then [Devices(at, i.pci), Repin(at, hasMap)] else [])
  }

  /** What the guards have taken from the machine. */
  function Stripped(w: World, src: Domain, expected: nat, f: Faults): Instance
    requires Started(w, src, f)
  {
    var i := w.active[src];
    var i1 := if TakesShmem(w, src, expected, f) then i.(shmem := []) else i;
    if TakesDevices(w, src, expected, f) then i1.(pci := i.pci * f.stuck) else i1
  }

  lemma HeldSnoc(guards: seq<Guard>, g: Guard, vm: string, attached: multiset<PciId>)
    ensures HeldShmem(guards + [g], vm) == HeldHere(g, vm) + HeldShmem(guards, vm)
    ensures RestoredPci(guards + [g], vm, attached)
         == RestoredPci(guards, vm, attached)
            + if g.Devices? && g.domain.vm == vm then g.counts * attached else multiset{}
  {
    assert (guards + [g])[..|guards|] == guards;
  }

  lemma HeldByPair(vm: string, expected: nat, d: Domain, shmem: seq<Shmem>, attached: multiset<PciId>)
    requires d.vm == vm
    ensures var p, s := Pscom(vm, expected), Shared(d, shmem);
            && HeldShmem([p], vm) == [] && RestoredPci([p], vm, attached) == multiset{}
            && HeldShmem([p, s], vm) == shmem && RestoredPci([p, s], vm, attached) == multiset{}
  {
    var p, s := Pscom(vm, expected), Shared(d, shmem);
    HeldSnoc([], p, vm, attached);
    HeldSnoc([p], s, vm, attached);
    assert [] + [p] == [p] && [p] + [s] == [p, s];
  }

  lemma HeldByFour(vm: string, expected: nat, d: Domain, shmem: seq<Shmem>, counts: multiset<PciId>, hasMap: bool,
                   attached: multiset<PciId>)
    requires d.vm == vm
    ensures var gs := [Pscom(vm, expected), Shared(d, shmem), Devices(d, counts), Repin(d, hasMap)];
            HeldShmem(gs, vm) == shmem && RestoredPci(gs, vm, attached) == counts * attached
  {
    var p, s, c, r := Pscom(vm, expected), Shared(d, shmem), Devices(d, counts), Repin(d, hasMap);
    HeldByPair(vm, expected, d, shmem, attached);
    HeldSnoc([p, s], c, vm, attached);
    HeldSnoc([p, s, c], r, vm, attached);
    assert [p, s] + [c] == [p, s, c] && [p, s, c] + [r] == [p, s, c, r];
  }

  lemma HeldByMigration(w: World, src: Domain, at: Domain, expected: nat, hasMap: bool, f: Faults,
                        attached: multiset<PciId>)
    requires Started(w, src, f) && at.vm == src.vm
    ensures var gs, i := GuardsAt(w, src, at, expected, hasMap, f), w.active[src];
            && HeldShmem(gs, src.vm) == (if TakesShmem(w, src, expected, f) then AllRebuilt(i.shmem) else [])
            && RestoredPci(gs, src.vm, attached)
               == (if TakesDevices(w, src, expected, f) then i.pci * attached else multiset{})
  {
    var i, vm := w.active[src], src.vm;
    var gs := GuardsAt(w, src, at, expected, hasMap, f);
    var p, s := Pscom(vm, expected), Shared(at, AllRebuilt(i.shmem));
    if TakesDevices(w, src, expected, f) {
      HeldByFour(vm, expected, at, AllRebuilt(i.shmem), i.pci, hasMap, attached);
      assert gs == [p, s, Devices(at, i.pci), Repin(at, hasMap)];
    } else {
      HeldByPair(vm, expected, at, AllRebuilt(i.shmem), attached);
      assert gs == if !PscomOpens(f.pscom, expected) then []
                   else if TakesShmem(w, src, expected, f) then [p, s] else [p];
    }
  }

  /** The run state after leaving the scope. */
  lemma RunStateAtExit(w: World, src: Domain, at: Domain, expected: nat, hasMap: bool, f: Faults, moved: bool,
                       body: World, env: string -> Restore)
    requires Started(w, src, f) && at.vm == src.vm && at in body.active
    requires moved ==> TakesDevices(w, src, expected, f)
    ensures var gs, r := GuardsAt(w, src, at, expected, hasMap, f), env(src.vm);
            var i, w' := body.active[at], Unwind(gs, body, !moved, env).0;
            && at in w'.active
            && (moved ==> w'.active[at].paused == (i.paused && !(hasMap && r.repin && r.resume)))
            && (moved ==> w'.active[at].pinned == (i.pinned || (hasMap && r.repin)))
            && (!moved && !i.paused ==> !w'.active[at].paused && w'.active[at].pinned == i.pinned)
  {
    var gs := GuardsAt(w, src, at, expected, hasMap, f);
    if moved {
      var g, rest := Repin(at, hasMap), gs[..|gs| - 1];
      assert gs == rest + [g];
      assert !Repins(rest, at.vm);
      var (w', threw) := Destroy(g, body, false, env(at.vm));
      UnwindLast(rest, g, body, false, env);
      UnwindKeepsRunState(rest, w', threw, env, at);
    } else {
      UnwindingResumes(gs, body, env, at);
    }
  }

  /** The devices after leaving the scope. */
  lemma DevicesAtExit(w: World, src: Domain, at: Domain, expected: nat, hasMap: bool, f: Faults, unwinding: bool,
                      body: World, env: string -> Restore)
    requires Started(w, src, f) && at.vm == src.vm && at in body.active
    requires var i := Stripped(w, src, expected, f); body.active[at].pci == i.pci && body.active[at].shmem == i.shmem
    ensures var gs, r := GuardsAt(w, src, at, expected, hasMap, f), env(src.vm);
            var i, w' := w.active[src], Unwind(gs, body, unwinding, env).0;
            && at in w'.active
            && w'.active[at].pci
               == (if TakesDevices(w, src, expected, f) then i.pci * f.stuck + i.pci * r.attached else i.pci)
            && w'.active[at].shmem
               == (if TakesShmem(w, src, expected, f) then Given(r.shmem, AllRebuilt(i.shmem)) else i.shmem)
  {
    var gs := GuardsAt(w, src, at, expected, hasMap, f);
    var i, r := w.active[src], env(src.vm);
    UnwindReattaches(gs, body, unwinding, env, at);
    HeldByMigration(w, src, at, expected, hasMap, f, r.attached);
    var held, restored := HeldShmem(gs, src.vm), RestoredPci(gs, src.vm, r.attached);
    StrippedAndBack(i, TakesShmem(w, src, expected, f), TakesDevices(w, src, expected, f), f.stuck, r,
                    body.active[at], held, restored);
  }

  /** What was stripped from a machine and what is given back on top of what is left. */
  lemma StrippedAndBack(i: Instance, shmem: bool, devices: bool, stuck: multiset<PciId>, r: Restore,
                        left: Instance, held: seq<Shmem>, restored: multiset<PciId>)
    requires left.shmem == (if shmem then [] else i.shmem) && left.pci == (if devices then i.pci * stuck else i.pci)
    requires held == (if shmem then AllRebuilt(i.shmem) else [])
    requires restored == (if devices then i.pci * r.attached else multiset{})
    ensures left.pci + restored == if devices then i.pci * stuck + i.pci * r.attached else i.pci
    ensures left.shmem + Given(r.shmem, held) == if shmem then Given(r.shmem, AllRebuilt(i.shmem)) else i.shmem
  {
  }

  /** The machine itself after leaving the scope, wherever it is then. */
  lemma InstanceAtExit(w: World, src: Domain, at: Domain, expected: nat, hasMap: bool, f: Faults, moved: bool,
                       body: World, env: string -> Restore)
    requires Started(w, src, f) && at.vm == src.vm && at in body.active
    requires moved ==> TakesDevices(w, src, expected, f)
    requires body.active[at] == Stripped(w, src, expected, f).(paused := moved && hasMap)
    ensures var gs, r := GuardsAt(w, src, at, expected, hasMap, f), env(src.vm);
            var i, w' := w.active[src], Unwind(gs, body, !moved, env).0;
            && at in w'.active
            && w'.active[at].pci
               == (if TakesDevices(w, src, expected, f) then i.pci * f.stuck + i.pci * r.attached else i.pci)
            && w'.active[at].shmem
               == (if TakesShmem(w, src, expected, f) then Given(r.shmem, AllRebuilt(i.shmem)) else i.shmem)
            && w'.active[at].paused == (moved && hasMap && !(r.repin && r.resume))
            && w'.active[at].pinned == (i.pinned || (moved && hasMap && r.repin))
  {
    RunStateAtExit(w, src, at, expected, hasMap, f, moved, body, env);
    DevicesAtExit(w, src, at, expected, hasMap, f, !moved, body, env);
  }

  /** What becomes of the machine: i' is its instance at the end. */
  ghost predicate InstanceRestored(w: World, src: Domain, expected: nat, hasMap: bool, f: Faults, r: Restore,
                                   moved: bool, i': Instance)
    requires src in w.active
  {
    var i := w.active[src];
    && i'.pci == (if TakesDevices(w, src, expected, f) then i.pci * f.stuck + i.pci * r.attached else i.pci)
    && i'.shmem == (if TakesShmem(w, src, expected, f) then Given(r.shmem, AllRebuilt(i.shmem)) else i.shmem)
    && i'.paused == (if moved then hasMap && !(r.repin && r.resume) else i.paused)
    && i'.pinned == (i.pinned || (moved && hasMap && r.repin))
  }

  /**
   The shared memory device after a migration, whatever else failed: it is the one that was there if
   and only if the guard was never constructed, there was none, or it can be attached and is plain.
   */
  lemma SharedMemoryReturnsIff(w: World, src: Domain, expected: nat, hasMap: bool, f: Faults, r: Restore,
                               moved: bool, i': Instance)
    requires src in w.active && InstanceRestored(w, src, expected, hasMap, f, r, moved, i')
    ensures var s := w.active[src].shmem;
            i'.shmem == s <==> !TakesShmem(w, src, expected, f) || s == [] || (r.shmem && AllPlain(s))
  {
    RebuiltIsSameIff(w.active[src].shmem);
  }

  /** A device with an alias of its own comes back under another name, even if nothing fails. */
  lemma AliasedDeviceIsRenamed(w: World, src: Domain, expected: nat, hasMap: bool, f: Faults, r: Restore,
                               moved: bool, i': Instance, d: Shmem)
    requires src in w.active && InstanceRestored(w, src, expected, hasMap, f, r, moved, i')
    requires w.active[src].shmem == [d] && d.name != d.aliasName && TakesShmem(w, src, expected, f) && r.shmem
    ensures |i'.shmem| == 1 && HandedBack(d, i'.shmem[0]) && i'.shmem != w.active[src].shmem
  {
    RebuiltIsHandedBack(w.active[src].shmem, i'.shmem);
    SharedMemoryReturnsIff(w, src, expected, hasMap, f, r, moved, i');
    assert !Plain(w.active[src].shmem[0]);
  }

  /**
   The processes of the machine are resumed after all other guards are done: until the last guard
   they stay suspended, and by then the machine is in its final state.
   */
  lemma MigrationResumesPscomLast(w: World, src: Domain, at: Domain, expected: nat, hasMap: bool, f: Faults,
                                  moved: bool, body: World, env: string -> Restore)
    requires Started(w, src, f) && PscomOpens(f.pscom, expected)
    ensures var gs := GuardsAt(w, src, at, expected, hasMap, f);
            && gs != [] && gs[0] == Pscom(src.vm, expected)
            && var (mid, u) := Unwind(gs[1..], body, !moved, env);
               && mid.suspended == body.suspended
               && Unwind(gs, body, !moved, env) == Unwind(gs[..1], mid, u, env)
               && Unwind(gs, body, !moved, env).0.active == mid.active
  {
    var gs := GuardsAt(w, src, at, expected, hasMap, f);
    assert gs == gs[..1] + gs[1..];
    PscomIsResumedLast(gs[..1], gs[1..], body, !moved, env);
  }

  /** What becomes of the pscom processes and subscriptions, of this machine and of the others. */
  ghost predicate PscomRestored(w: World, src: Domain, expected: nat, f: Faults, r: Restore, w': World) {
    var asked := Started(w, src, f) && expected > 0;
    var open := asked && PscomOpens(f.pscom, expected);
    && w'.suspended - {src.vm} == w.suspended - {src.vm}
    && w'.subscribed - {src.vm} == w.subscribed - {src.vm}
    && (src.vm in w'.suspended
        <==> if open then !r.send else src.vm in w.suspended || (asked && f.pscom.connected && f.pscom.send))
    && (src.vm in w'.subscribed <==> !open && (src.vm in w.subscribed || (asked && f.pscom.connected)))
  }

  /** Every call that restores something this machine had is successful. */
  predicate AllWork(i: Instance, expected: nat, hasMap: bool, r: Restore) {
    && (hasMap ==> r.repin && r.resume) && i.pci <= r.attached && (i.shmem == [] || r.shmem)
    && (expected == 0 || (r.send && r.answers))
  }

  lemma PscomAtExit(w: World, src: Domain, at: Domain, expected: nat, hasMap: bool, f: Faults, moved: bool,
                    body: World, env: string -> Restore)
    requires Started(w, src, f)
    requires var asked := PscomAsked(w, src.vm, expected, f.pscom);
             body.suspended == asked.suspended && body.subscribed == asked.subscribed
    ensures PscomRestored(w, src, expected, f, env(src.vm),
                          Unwind(GuardsAt(w, src, at, expected, hasMap, f), body, !moved, env).0)
  {
    var gs := GuardsAt(w, src, at, expected, hasMap, f);
    var w' := Unwind(gs, body, !moved, env).0;
    forall vm: string
      ensures vm in w'.suspended <==> vm in body.suspended && !(HoldsPscom(gs, vm) && env(vm).send)
      ensures vm in w'.subscribed <==> vm in body.subscribed && !HoldsPscom(gs, vm)
    {
      UnwindResumesPscom(gs, body, !moved, env, vm);
    }
    if PscomOpens(f.pscom, expected) && expected > 0 {
      assert gs[0] == Pscom(src.vm, expected);
    }
  }

  /** Leaving the scope of a migration that got this far. */
  lemma ScopeExit(w: World, src: Domain, dst: Domain, expected: nat, hasMap: bool, f: Faults, moved: bool,
                  body: World, env: string -> Restore)
    requires Started(w, src, f) && src.vm == dst.vm && moved == Moves(w, src, dst, expected, f)
    requires body == PscomAsked(w, src.vm, expected, f.pscom).(active := (w.active - {src})
               [if moved then dst else src := Stripped(w, src, expected, f).(paused := moved && hasMap)])
    ensures var at := if moved then dst else src;
            var (w', u) := Unwind(GuardsAt(w, src, at, expected, hasMap, f), body, !moved, env);
            && w'.active.Keys == w.active.Keys - {src} + {at}
            && (forall d :: d in w.active && d != src ==> w'.active[d] == w.active[d])
            && w'.records == w.records && w'.saved == w.saved
            && InstanceRestored(w, src, expected, hasMap, f, env(src.vm), moved, w'.active[at])
            && PscomRestored(w, src, expected, f, env(src.vm), w')
            && (!u <==> moved && AllWork(w.active[src], expected, hasMap, env(src.vm)))
  {
    var at := if moved then dst else src;
    var gs := GuardsAt(w, src, at, expected, hasMap, f);
    UnwindMovesNothing(gs, body, !moved, env);
    InstanceAtExit(w, src, at, expected, hasMap, f, moved, body, env);
    PscomAtExit(w, src, at, expected, hasMap, f, moved, body, env);
    forall d | d in w.active && d != src
      ensures d in body.active && Unwind(gs, body, !moved, env).0.active[d] == w.active[d]
    {
      UnwindLeavesOthers(gs, body, !moved, env, d);
    }
    if moved {
      var i := w.active[src];
      assert gs == [Pscom(src.vm, expected), Shared(at, AllRebuilt(i.shmem)), Devices(at, i.pci), Repin(at, hasMap)];
      UnwindReports(src.vm, at, expected, AllRebuilt(i.shmem), i.pci, hasMap, body, env);
    } else {
      UnwindingStays(gs, body, env);
    }
  }

  class Frame {
    var world: World
    var guards: seq<Guard>
    var unwinding: bool

    constructor (w: World)
      ensures world == w && guards == [] && !unwinding
    {
      world, guards, unwinding := w, [], false;
    }

    /**
     The constructor of the pscom guard; `read` is the number of replies read. It succeeds exactly if
     nothing is expected or the request goes out and as many replies as expected arrive and are read;
     else it has read all there are.
     */
    method NewPscom(vm: string, expected: nat, p: PscomOpen) returns (ok: bool, read: nat)
      modifies this`world, this`guards
      ensures ok == PscomOpens(p, expected)
      ensures read <= p.replies && read <= expected
      ensures ok <==> expected == 0 || (p.connected && p.send && read == expected)
      ensures expected > 0 && p.connected && p.send && !ok ==> read == p.replies < expected
      ensures !(expected > 0 && p.connected && p.send) ==> read == 0
      ensures world == PscomAsked(old(world), vm, expected, p)
      ensures guards == old(guards) + if ok then [Pscom(vm, expected)] else []
    {
      read := 0;
      if expected > 0 {
        if !p.connected {
          return false, read;
        }
        world := world.(subscribed := world.subscribed + {vm});
        if !p.send {
          return false, read;
        }
        world := world.(suspended := world.suspended + {vm});
        var answers := 0;
        while answers != expected
          invariant 0 <= answers <= expected && answers == read <= p.replies
          decreases expected - answers
        {
          if read == p.replies {
            return false, read;
          }
          read := read + 1;
          answers := answers + 1;
        }
      }
      guards := guards + [Pscom(vm, expected)];
      return true, read;
    }

    /** The constructor of the shared memory guard; a failing call leaves the device in place. */
    method NewShared(d: Domain, works: bool) returns (ok: bool)
      requires d in world.active
      modifies this`world, this`guards
      ensures var s := old(world).active[d].shmem;
              && ok == (s == [] || (|s| == 1 && works))
              && world == (if ok then WithInstance(old(world), d, old(world).active[d].(shmem := [])) else old(world))
              && guards == old(guards) + if ok then [Shared(d, AllRebuilt(s))] else []
    {
      var s := world.active[d].shmem;
      var detached: seq<Shmem> := [];
      for k := 0 to |s|
        invariant detached == AllRebuilt(s[..k])
      {
        assert s[..k + 1] == s[..k] + [s[k]];
        detached := detached + [Rebuilt(s[k])];
      }
      assert s[..|s|] == s;
      if |detached| > 1 {
        return false;
      }
      if |detached| == 1 {
        if !works {
          return false;
        }
      }
      world := WithInstance(world, d, world.active[d].(shmem := []));
      guards := guards + [Shared(d, detached)];
      return true;
    }

    /** The constructor of the device guard: every device found counts, detached or not. */
    method NewDevices(d: Domain, listed: bool, stuck: multiset<PciId>) returns (ok: bool)
      requires d in world.active
      modifies this`world, this`guards
      ensures var i := old(world).active[d];
              && ok == listed
              && world == (if ok then WithInstance(old(world), d, i.(pci := i.pci * stuck)) else old(world))
              && guards == old(guards) + if ok then [Devices(d, i.pci)] else []
    {
      if !listed {
        return false;
      }
      var i := world.active[d];
      world := WithInstance(world, d, i.(pci := i.pci * stuck));
      guards := guards + [Devices(d, i.pci)];
      return true;
    }

    /** The constructor of the repin guard also sets the paused flag for the migration. */
    method NewRepin(d: Domain, hasMap: bool, flags: bool) returns (flags': bool)
      modifies this`guards
      ensures flags' == (flags || hasMap)
      ensures guards == old(guards) + [Repin(d, hasMap)]
    {
      guards := guards + [Repin(d, hasMap)];
      flags' := flags;
      if hasMap {
        flags' := true;
      }
    }

    method SetDestination(k: nat, d: Domain)
      requires k < |guards|
      modifies this`guards
      ensures guards == old(guards)[k := Retarget(old(guards)[k], d)]
    {
      guards := guards[k := Retarget(guards[k], d)];
    }

    /** The machine moves as a whole or not at all. */
    method MigrateDomain(src: Domain, dst: Domain, works: bool, paused: bool) returns (ok: bool)
      requires src in world.active
      modifies this`world
      ensures ok == (works && dst !in old(world).active)
      ensures world == if ok then old(world).(active := (old(world).active - {src})
                                                        [dst := old(world).active[src].(paused := paused)])
                       else old(world)
    {
      ok := works && dst !in world.active;
      if ok {
        world := world.(active := (world.active - {src})[dst := world.active[src].(paused := paused)]);
      }
    }

    /** Leaving the scope, with an exception in flight or without. */
    method Leave(threw: bool, env: string -> Restore)
      modifies this
      ensures guards == []
      ensures (world, unwinding) == Unwind(old(guards), old(world), threw, env)
    {
      unwinding := threw;
      while guards != []
        invariant Unwind(guards, world, unwinding, env) == Unwind(old(guards), old(world), threw, env)
        decreases |guards|
      {
        var g := guards[|guards| - 1];
        guards := guards[..|guards| - 1];
        var (w, t) := Destroy(g, world, unwinding, env(VmOf(g)));
        world := w;
        unwinding := unwinding || t;
      }
    }

    /** The statements of `migrate` up to the repin guard; false when one of them throws. */
    method Prepare(src: Domain, expected: nat, hasMap: bool, f: Faults) returns (ok: bool, flags: bool)
      requires guards == []
      modifies this`world, this`guards
      ensures ok == TakesDevices(old(world), src, expected, f)
      ensures ok ==> flags == hasMap
      ensures !Started(old(world), src, f) ==> world == old(world) && guards == []
      ensures var w := old(world);
              Started(w, src, f) ==>
                && world == PscomAsked(w, src.vm, expected, f.pscom)
                            .(active := w.active[src := Stripped(w, src, expected, f)])
                && guards == GuardsAt(w, src, src, expected, hasMap, f)
    {
      flags := false;
      if !f.connect || !f.find || src !in world.active || world.active[src].paused {
        return false, flags;
      }
      ghost var w := world;
      assert w.active[src := w.active[src]] == w.active;
      var read;
      ok, read := NewPscom(src.vm, expected, f.pscom);
      if !ok {
        return;
      }
      ok := NewShared(src, f.detachShmem);
      if !ok {
        return;
      }
      ok := NewDevices(src, f.listDevices, f.stuck);
      if !ok {
        return;
      }
      flags := NewRepin(src, hasMap, flags);
    }

    /** The statements of `migrate` up to the end of its scope; false when one of them throws. */
    method MigrateBody(src: Domain, dst: Domain, expected: nat, hasMap: bool, f: Faults) returns (moved: bool)
      requires guards == []
      modifies this`world, this`guards
      ensures moved == Moves(old(world), src, dst, expected, f)
      ensures !Started(old(world), src, f) ==> world == old(world) && guards == []
      ensures var w := old(world);
              Started(w, src, f) ==>
                var at := if moved then dst else src;
                var i := Stripped(w, src, expected, f).(paused := moved && hasMap);
                && world == PscomAsked(w, src.vm, expected, f.pscom).(active := (w.active - {src})[at := i])
                && guards == GuardsAt(w, src, at, expected, hasMap, f)
    {
      ghost var w := world;
      var ok, flags := Prepare(src, expected, hasMap, f);
      ghost var i := if src in world.active then world.active[src] else Instance(false, false, multiset{}, []);
      assert (w.active - {src})[src := i] == w.active[src := i];
      if !ok || !f.connectDestination || !f.resolveUri {
        return false;
      }
      moved := MigrateDomain(src, dst, f.migrate, flags);
      if !moved {
        return false;
      }
      SetDestination(3, dst);
      SetDestination(2, dst);
      SetDestination(1, dst);
      assert w.active[src := i] - {src} == w.active - {src};
    }

    /**
     `migrate`, whatever fails and wherever. The machine ends on the destination exactly if
     migrate_domain returned, else where it was. Its PCI devices and its shared memory device
     come back as far as their own calls work; it is left paused exactly if it moved with a cpu map
     and repinning or resuming failed; and a completed suspension is lifted if the request goes out.
     An exception leaves `migrate` unless everything worked.
     */
    method Migrate(src: Domain, dst: Domain, expected: nat, hasMap: bool, f: Faults, env: string -> Restore)
      returns (moved: bool)
      requires guards == [] && src.vm == dst.vm
      modifies this
      ensures moved <==>
                && f.connect && f.find && src in old(world).active && !old(world).active[src].paused
                && (expected == 0 || (f.pscom.connected && f.pscom.send && expected <= f.pscom.replies))
                && (var n := |old(world).active[src].shmem|; n == 0 || (n == 1 && f.detachShmem))
                && f.listDevices && f.connectDestination && f.resolveUri && f.migrate
                && dst !in old(world).active
      ensures world.active.Keys == if moved then old(world).active.Keys - {src} + {dst} else old(world).active.Keys
      ensures forall d :: d in old(world).active && d != src ==> world.active[d] == old(world).active[d]
      ensures world.records == old(world).records && world.saved == old(world).saved
      ensures src in old(world).active ==>
                InstanceRestored(old(world), src, expected, hasMap, f, env(src.vm), moved,
                                 world.active[if moved then dst else src])
      ensures src in old(world).active ==>
                var s := old(world).active[src].shmem;
                var s' := world.active[if moved then dst else src].shmem;
                && (TakesShmem(old(world), src, expected, f) && env(src.vm).shmem ==> AllHandedBack(s, s'))
                && (!TakesShmem(old(world), src, expected, f) ==> s' == s)
      ensures src in old(world).active ==>
                var s := old(world).active[src].shmem;
                world.active[if moved then dst else src].shmem == s
                <==> !TakesShmem(old(world), src, expected, f) || s == [] || (env(src.vm).shmem && AllPlain(s))
      ensures PscomRestored(old(world), src, expected, f, env(src.vm), world)
      ensures guards == []
      ensures !unwinding <==> moved && AllWork(old(world).active[src], expected, hasMap, env(src.vm))
    {
      ghost var w := world;
      moved := MigrateBody(src, dst, expected, hasMap, f);
      ghost var gs, body := guards, world;
      Leave(!moved, env);
      if Started(w, src, f) {
        ScopeExit(w, src, dst, expected, hasMap, f, moved, body, env);
      }
      if src in w.active {
        ghost var i' := world.active[if moved then dst else src];
        SharedMemoryReturnsIff(w, src, expected, hasMap, f, env(src.vm), moved, i');
        RebuiltIsHandedBack(w.active[src].shmem, i'.shmem);
      }
    }
  }
}
