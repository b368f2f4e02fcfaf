/** How a swap migration ends: the exception that leaves it, and runs that reach each kind of end. */
module SwapOutcomes {
  import opened Guards
  import opened Migration
  import opened SwapMigration

  // ---------------------------------------------------------------------------------------------
  // The exception that leaves a swap
  // ---------------------------------------------------------------------------------------------

  predicate HoldsDevices(g: Guard, vm: string) {
    g.Devices? && g.domain.vm == vm
  }

  predicate HoldsShared(g: Guard, vm: string) {
    g.Shared? && g.domain.vm == vm
  }

  lemma {:induction false} HeldPciAlone(guards: seq<Guard>, k: nat, vm: string)
    requires forall j :: 0 <= j < |guards| && j != k ==> !HoldsDevices(guards[j], vm)
    ensures HeldPci(guards, vm) == if k < |guards| && HoldsDevices(guards[k], vm) then guards[k].counts else multiset{}
  {
    if guards != [] {
      HeldPciAlone(guards[..|guards| - 1], k, vm);
    }
  }

  lemma {:induction false} HeldShmemAlone(guards: seq<Guard>, k: nat, vm: string)
    requires forall j :: 0 <= j < |guards| && j != k ==> !HoldsShared(guards[j], vm)
    ensures HeldShmem(guards, vm) == if k < |guards| && HoldsShared(guards[k], vm) then guards[k].detached else []
  {
    if guards != [] {
      HeldShmemAlone(guards[..|guards| - 1], k, vm);
    }
  }

  /** With all guards in place, they hold all that the machine had. */
  lemma GuardsHold(c: Swap, s: State, w0: World, z: Side)
    requires Distinct(c) && Inv(c, s, w0) && |s.guards| == 8
    ensures Home(c, z) in w0.active
    ensures var i0, d, h := w0.active[Home(c, z)], s.guards[GuardOf(1, z)], s.guards[GuardOf(2, z)];
            && d.Devices? && d.counts == i0.pci
            && h.Shared? && h.detached == AllRebuilt(i0.shmem)
  {
    var vm := Of(c, z).vm;
    forall k | 0 <= k < 8
      ensures HoldsDevices(s.guards[k], vm) <==> k == GuardOf(1, z)
      ensures HoldsShared(s.guards[k], vm) <==> k == GuardOf(2, z)
    {
      assert Shaped(c, s, k, s.guards[k]);
    }
    HeldPciAlone(s.guards, GuardOf(1, z), vm);
    HeldShmemAlone(s.guards, GuardOf(2, z), vm);
    assert SideOk(c, s, w0, z);
  }

  ghost predicate SideFailing(s: State, z: Side, env: string -> Restore)
    requires |s.guards| == 8
  {
    exists kind: nat :: kind < 4 && FailingAt(s, GuardOf(kind, z), env)
  }

  ghost predicate FailingAt(s: State, k: nat, env: string -> Restore) {
    k < |s.guards| && Failing(s.guards[k], s.world.active.Keys, env(VmOf(s.guards[k])))
  }

  /** The guards of one machine, all at d with all that the machine had. */
  ghost predicate GuardsOf(s: State, z: Side, p: Party, d: Domain, i0: Instance) {
    && |s.guards| == 8 && d in s.world.active && d.vm == p.vm
    && s.guards[GuardOf(0, z)] == Pscom(p.vm, p.expected)
    && s.guards[GuardOf(1, z)] == Devices(d, i0.pci)
    && s.guards[GuardOf(2, z)] == Shared(d, AllRebuilt(i0.shmem))
    && s.guards[GuardOf(3, z)] == Repin(d, p.hasMap)
  }

  lemma ReturnedGuards(c: Swap, s: State, w0: World, z: Side)
    requires Distinct(c) && Inv(c, s, w0) && s.exit == ByReturn
    ensures Home(c, z) in w0.active && GuardsOf(s, z, Of(c, z), Copy(c, s, z), w0.active[Home(c, z)])
  {
    GuardsHold(c, s, w0, z);
    ReturnedShapes(c, s, z);
    assert SideOk(c, s, w0, z);
  }

  lemma ReturnedShapes(c: Swap, s: State, z: Side)
    requires Stacked(c, s) && ExitOk(s) && s.exit == ByReturn
    ensures var d := Copy(c, s, z);
            && |s.guards| == 8
            && s.guards[GuardOf(0, z)] == Pscom(Of(c, z).vm, Of(c, z).expected)
            && s.guards[GuardOf(1, z)].Devices? && s.guards[GuardOf(1, z)].domain == d
            && s.guards[GuardOf(2, z)].Shared? && s.guards[GuardOf(2, z)].domain == d
            && s.guards[GuardOf(3, z)] == Repin(d, Of(c, z).hasMap)
  {
    assert Shaped(c, s, GuardOf(0, z), s.guards[GuardOf(0, z)]);
    assert Shaped(c, s, GuardOf(1, z), s.guards[GuardOf(1, z)]);
    assert Shaped(c, s, GuardOf(2, z), s.guards[GuardOf(2, z)]);
    assert Shaped(c, s, GuardOf(3, z), s.guards[GuardOf(3, z)]);
  }

  lemma SideFailsIff(s: State, z: Side, p: Party, d: Domain, i0: Instance, env: string -> Restore)
    requires GuardsOf(s, z, p, d, i0)
    ensures SideFailing(s, z, env) <==> !AllWork(i0, p.expected, p.hasMap, env(p.vm))
  {
    assert SideFailing(s, z, env) <==>
      FailingAt(s, GuardOf(0, z), env) || FailingAt(s, GuardOf(1, z), env)
      || FailingAt(s, GuardOf(2, z), env) || FailingAt(s, GuardOf(3, z), env);
    assert FailingAt(s, GuardOf(1, z), env) <==> !(i0.pci <= env(p.vm).attached);
    assert |AllRebuilt(i0.shmem)| == |i0.shmem|;
  }

  lemma EightGuards(s: State, env: string -> Restore)
    requires |s.guards| == 8
    ensures SomeFailing(s.guards, s.world.active.Keys, env)
       <==> SideFailing(s, Local, env) || SideFailing(s, Remote, env)
  {
    if k :| 0 <= k < 8 && Failing(s.guards[k], s.world.active.Keys, env(VmOf(s.guards[k]))) {
      assert FailingAt(s, GuardOf(k / 2, SideOf(k)), env);
    }
    if kind: nat :| kind < 4 && FailingAt(s, GuardOf(kind, Local), env) {
      assert Failing(s.guards[GuardOf(kind, Local)], s.world.active.Keys, env(VmOf(s.guards[GuardOf(kind, Local)])));
    }
    if kind: nat :| kind < 4 && FailingAt(s, GuardOf(kind, Remote), env) {
      assert Failing(s.guards[GuardOf(kind, Remote)], s.world.active.Keys, env(VmOf(s.guards[GuardOf(kind, Remote)])));
    }
  }

  /**
   Every end of a swap: an exception leaves it if and only if one of its own statements threw, or,
   after they all ended, one of the two machines could not be restored. What the threads of the
   parallel path threw has no part in it.
   */
  lemma SwapThrowsIff(c: Swap, w0: World, ss: seq<State>, env: string -> Restore)
    requires Distinct(c) && Ready(c, w0) && Behaviour(c, w0, ss) && ss[|ss| - 1].exit != Inside
    ensures var s := ss[|ss| - 1];
            Unwind(s.guards, s.world, s.exit == ByThrow, env).1
            <==> s.exit == ByThrow
                 || !AllWork(w0.active[Home(c, Local)], c.local.expected, c.local.hasMap, env(c.local.vm))
                 || !AllWork(w0.active[Home(c, Remote)], c.remote.expected, c.remote.hasMap, env(c.remote.vm))
  {
    AlwaysInv(c, w0, ss);
    ExitThrowsIff(c, ss[|ss| - 1], w0, env);
  }

  lemma ExitThrowsIff(c: Swap, s: State, w0: World, env: string -> Restore)
    requires Distinct(c) && Ready(c, w0) && Inv(c, s, w0) && s.exit != Inside
    ensures Unwind(s.guards, s.world, s.exit == ByThrow, env).1
       <==> s.exit == ByThrow
            || !AllWork(w0.active[Home(c, Local)], c.local.expected, c.local.hasMap, env(c.local.vm))
            || !AllWork(w0.active[Home(c, Remote)], c.remote.expected, c.remote.hasMap, env(c.remote.vm))
  {
    if s.exit == ByThrow {
      UnwindingStays(s.guards, s.world, env);
    } else {
      UnwindThrowsIff(s.guards, s.world, env);
      ReturnedGuards(c, s, w0, Local);
      ReturnedGuards(c, s, w0, Remote);
      SideFailsIff(s, Local, c.local, Copy(c, s, Local), w0.active[Home(c, Local)], env);
      SideFailsIff(s, Remote, c.remote, Copy(c, s, Remote), w0.active[Home(c, Remote)], env);
      EightGuards(s, env);
    }
  }

  /**
   Every end of a swap in which the shared memory of a machine can be attached where its guards point:
   once it has been taken, it comes back with its size and address, under its alias.
   */
  lemma SwapHandsBack(c: Swap, w0: World, ss: seq<State>, z: Side, env: string -> Restore)
    requires Distinct(c) && Ready(c, w0) && Behaviour(c, w0, ss) && ss[|ss| - 1].exit != Inside
    requires Where(ss[|ss| - 1], z) != OnDisk && !Misaimed(ss[|ss| - 1], z) && env(Of(c, z).vm).shmem
    ensures var s := ss[|ss| - 1];
            var w', before := Unwind(s.guards, s.world, s.exit == ByThrow, env).0, w0.active[Home(c, z)].shmem;
            && Copy(c, s, z) in w'.active
            && var after := w'.active[Copy(c, s, z)].shmem;
               if |s.guards| > GuardOf(2, z) then AllHandedBack(before, after) else after == before
  {
    AlwaysInv(c, w0, ss);
    var s := ss[|ss| - 1];
    ShmemAtExit(c, s, w0, z, env);
    RebuiltIsHandedBack(w0.active[Home(c, z)].shmem, AllRebuilt(w0.active[Home(c, z)].shmem));
  }

  lemma ShmemAtExit(c: Swap, s: State, w0: World, z: Side, env: string -> Restore)
    requires Distinct(c) && Inv(c, s, w0) && s.exit != Inside
    requires Where(s, z) != OnDisk && !Misaimed(s, z) && env(Of(c, z).vm).shmem
    ensures Home(c, z) in w0.active
    ensures var w', before := Unwind(s.guards, s.world, s.exit == ByThrow, env).0, w0.active[Home(c, z)].shmem;
            && Copy(c, s, z) in w'.active
            && w'.active[Copy(c, s, z)].shmem
               == if |s.guards| > GuardOf(2, z) then AllRebuilt(before) else before
  {
    var d := Copy(c, s, z);
    assert SideOk(c, s, w0, z);
    GuardsFollow(c, s, w0, z);
    UnwindReattaches(s.guards, s.world, s.exit == ByThrow, env, d);
    var held := HeldShmem(s.guards, Of(c, z).vm);
    assert s.world.active[d].shmem + [] == s.world.active[d].shmem && [] + held == held;
  }

  /** The machine that is halted is the smaller one, and of two of the same size the remote one. */
  lemma SmallerIsHalted(c: Swap, w0: World, ss: seq<State>)
    requires Distinct(c) && Ready(c, w0) && Behaviour(c, w0, ss) && ss[|ss| - 1].stage == MigrateLarge
    ensures var w := ss[|ss| - 1].world;
            && (Home(c, Local) !in w.active <==> c.local.size < c.remote.size)
            && (Home(c, Remote) !in w.active <==> c.remote.size <= c.local.size)
  {
    AlwaysInv(c, w0, ss);
    var s := ss[|ss| - 1];
    assert SideOk(c, s, w0, Local) && SideOk(c, s, w0, Remote);
  }

  // ---------------------------------------------------------------------------------------------
  // Running and pinned
  // ---------------------------------------------------------------------------------------------

  predicate RepinFails(hasMap: bool, r: Restore) {
    hasMap && !(r.repin && r.resume)
  }

  lemma OneRepin(g: Guard, w: World, unwinding: bool, r: Restore)
    requires g.Repin? && g.domain in w.active
    ensures var (w', threw) := Destroy(g, w, unwinding, r);
            && w'.active.Keys == w.active.Keys
            && RanThrough(w.active[g.domain], w'.active[g.domain], g.hasMap, r, unwinding)
            && (forall d :: d in w.active && d != g.domain ==> w'.active[d] == w.active[d])
            && (!unwinding ==> threw == RepinFails(g.hasMap, r))
  {
  }

  /** Two repin guards on top of others: when the upper one throws, the lower one only resumes. */
  lemma TwoRepins(rest: seq<Guard>, l: Guard, r: Guard, w: World, env: string -> Restore)
    requires forall k :: 0 <= k < |rest| ==> !rest[k].Repin?
    requires l.Repin? && r.Repin? && l.domain.vm != r.domain.vm && l.domain in w.active && r.domain in w.active
    ensures var a, b := env(l.domain.vm), env(r.domain.vm);
            var w', t := Unwind(rest + [l] + [r], w, false, env).0, RepinFails(r.hasMap, b);
            && l.domain in w'.active && r.domain in w'.active
            && RanThrough(w.active[r.domain], w'.active[r.domain], r.hasMap, b, false)
            && RanThrough(w.active[l.domain], w'.active[l.domain], l.hasMap, a, t)
  {
    var (w1, t1) := Destroy(r, w, false, env(r.domain.vm));
    var (w2, t2) := Destroy(l, w1, t1, env(l.domain.vm));
    OneRepin(r, w, false, env(r.domain.vm));
    OneRepin(l, w1, t1, env(l.domain.vm));
    UnwindLast(rest + [l], r, w, false, env);
    UnwindLast(rest, l, w1, t1, env);
    UnwindKeepsRunState(rest, w2, t1 || t2, env, l.domain);
    UnwindKeepsRunState(rest, w2, t1 || t2, env, r.domain);
  }

  /** What a repin guard makes of the run state, with an exception in flight or without. */
  predicate RanThrough(i: Instance, i': Instance, hasMap: bool, r: Restore, unwinding: bool) {
    && i'.pinned == (i.pinned || (hasMap && r.repin && !unwinding))
    && i'.paused == (i.paused && !(hasMap && r.resume && (unwinding || r.repin)))
  }

  /** The guard of the other machine is destroyed first, and it throws. */
  predicate Disturbed(c: Swap, z: Side, env: string -> Restore) {
    z == Local && RepinFails(c.remote.hasMap, env(c.remote.vm))
  }

  /** The run state of a machine, given how the statements ended and where it is. */
  ghost predicate RunStateIs(c: Swap, s: State, i0: Instance, z: Side, env: string -> Restore, i': Instance) {
    var r, hasMap, throwing := env(Of(c, z).vm), Of(c, z).hasMap, s.exit == ByThrow;
    var unwinding := throwing || Disturbed(c, z, env);
    && i'.pinned == (i0.pinned || (hasMap && r.repin && !unwinding))
    && i'.paused == (Where(s, z) == AtAway && hasMap
                     && (Misaimed(s, z) || !(r.resume && (unwinding || r.repin))))
  }

  lemma ReturnRunState(c: Swap, s: State, w0: World, z: Side, env: string -> Restore)
    requires Distinct(c) && Inv(c, s, w0) && s.exit == ByReturn
    ensures var w' := Unwind(s.guards, s.world, false, env).0;
            && Home(c, z) in w0.active && Copy(c, s, z) in w'.active
            && RunStateIs(c, s, w0.active[Home(c, z)], z, env, w'.active[Copy(c, s, z)])
  {
    ReturnedGuards(c, s, w0, Local);
    ReturnedGuards(c, s, w0, Remote);
    var rest := s.guards[..6];
    forall k | 0 <= k < 6
      ensures !rest[k].Repin?
    {
      assert Shaped(c, s, k, s.guards[k]);
    }
    assert s.guards == rest + [s.guards[6]] + [s.guards[7]];
    TwoRepins(rest, s.guards[6], s.guards[7], s.world, env);
    ReturnedSide(c, s, w0, z);
  }

  lemma ReturnedSide(c: Swap, s: State, w0: World, z: Side)
    requires Distinct(c) && SideOk(c, s, w0, z) && ExitOk(s) && s.exit == ByReturn
    ensures Copy(c, s, z) in s.world.active && !Misaimed(s, z)
    ensures s.world.active[Copy(c, s, z)].pinned == w0.active[Home(c, z)].pinned
    ensures s.world.active[Copy(c, s, z)].paused == (Where(s, z) == AtAway && Of(c, z).hasMap)
  {
  }

  lemma ThrowRunState(c: Swap, s: State, w0: World, z: Side, env: string -> Restore)
    requires Distinct(c) && Inv(c, s, w0) && s.exit == ByThrow && Where(s, z) != OnDisk
    ensures var w' := Unwind(s.guards, s.world, true, env).0;
            && Home(c, z) in w0.active && Copy(c, s, z) in w'.active
            && RunStateIs(c, s, w0.active[Home(c, z)], z, env, w'.active[Copy(c, s, z)])
  {
    var d := Copy(c, s, z);
    assert SideOk(c, s, w0, z);
    GuardsFollow(c, s, w0, z);
    if Misaimed(s, z) {
      UnwindLeavesOthers(s.guards, s.world, true, env, d);
    } else {
      UnwindingResumes(s.guards, s.world, env, d);
      if s.world.active[d].paused {
        RepinsIfPaused(c, s, w0, z);
      }
    }
  }

  /**
   Running and pinned, at every end of a swap and whatever calls fail. A machine with a cpu map is
   repinned if and only if no exception is in flight and its own repin call works. For the local
   machine that includes an exception of the remote guard, which is destroyed first: then the local
   machine is not repinned although its own calls work. A machine that moved with a cpu map stays
   paused if and only if its guard does not come to resume it, or the resume call fails.
   */
  lemma SwapRunState(c: Swap, w0: World, ss: seq<State>, z: Side, env: string -> Restore)
    requires Distinct(c) && Ready(c, w0) && Behaviour(c, w0, ss) && ss[|ss| - 1].exit != Inside
    requires Where(ss[|ss| - 1], z) != OnDisk
    ensures var s := ss[|ss| - 1];
            var w' := Unwind(s.guards, s.world, s.exit == ByThrow, env).0;
            && Copy(c, s, z) in w'.active
            && RunStateIs(c, s, w0.active[Home(c, z)], z, env, w'.active[Copy(c, s, z)])
  {
    AlwaysInv(c, w0, ss);
    if ss[|ss| - 1].exit == ByReturn {
      ReturnRunState(c, ss[|ss| - 1], w0, z, env);
    } else {
      ThrowRunState(c, ss[|ss| - 1], w0, z, env);
    }
  }

  /** Processes are resumed only when both machines are in their final state. */
  lemma SwapResumesPscomLast(c: Swap, w0: World, ss: seq<State>, env: string -> Restore)
    requires Distinct(c) && Ready(c, w0) && Behaviour(c, w0, ss) && |ss[|ss| - 1].guards| >= 2
    ensures var s := ss[|ss| - 1];
            var u := s.exit == ByThrow;
            var (mid, u') := Unwind(s.guards[2..], s.world, u, env);
            && s.guards[..2] == [Pscom(c.local.vm, c.local.expected), Pscom(c.remote.vm, c.remote.expected)]
            && mid.suspended == s.world.suspended
            && Unwind(s.guards, s.world, u, env) == Unwind(s.guards[..2], mid, u', env)
            && Unwind(s.guards, s.world, u, env).0.active == mid.active
  {
    AlwaysInv(c, w0, ss);
    var s := ss[|ss| - 1];
    forall k | 0 <= k < |s.guards|
      ensures Shaped(c, s, k, s.guards[k])
    {
    }
    assert s.guards == s.guards[..2] + s.guards[2..];
    PscomIsResumedLast(s.guards[..2], s.guards[2..], s.world, s.exit == ByThrow, env);
  }

  // ---------------------------------------------------------------------------------------------
  // Runs that reach each end
  // ---------------------------------------------------------------------------------------------

  ghost predicate Reachable(c: Swap, w0: World, s: State) {
    exists ss :: Behaviour(c, w0, ss) && ss[|ss| - 1] == s
  }

  /** Both machines are ready, and each has at most the one shared memory device that is supported. */
  ghost predicate Supported(c: Swap, w0: World) {
    && Distinct(c) && Ready(c, w0)
    && |w0.active[Home(c, Local)].shmem| <= 1 && |w0.active[Home(c, Remote)].shmem| <= 1
  }

  lemma Reach(c: Swap, w0: World, s: State, s': State)
    requires Reachable(c, w0, s) && Next(c, s, s')
    ensures Reachable(c, w0, s')
  {
    var ss :| Behaviour(c, w0, ss) && ss[|ss| - 1] == s;
    var all := ss + [s'];
    forall k | 0 <= k < |all| - 1
      ensures Next(c, all[k], all[k + 1])
    {
      if k < |ss| - 1 {
        assert Next(c, ss[k], ss[k + 1]);
      }
    }
    assert all[|all| - 1] == s';
  }

  lemma ReachableInv(c: Swap, w0: World, s: State)
    requires Distinct(c) && Ready(c, w0) && Reachable(c, w0, s)
    ensures Inv(c, s, w0)
  {
    var ss :| Behaviour(c, w0, ss) && ss[|ss| - 1] == s;
    AlwaysInv(c, w0, ss);
  }

  /** The state after the next guard has been constructed. */
  function Opened(c: Swap, s: State): State
    requires Home(c, SideOf(|s.guards|)) in s.world.active
  {
    var k, w := |s.guards|, s.world;
    var z := SideOf(k);
    var p, d := Of(c, z), Home(c, z);
    if k < 2 then s.(guards := s.guards + [Pscom(p.vm, p.expected)],
                     world := PscomAsked(w, p.vm, p.expected, PscomOpen(true, true, p.expected)))
    else if k < 4 then s.(guards := s.guards + [Devices(d, w.active[d].pci)],
                          world := WithInstance(w, d, w.active[d].(pci := multiset{})))
    else if k < 6 then s.(guards := s.guards + [Shared(d, AllRebuilt(w.active[d].shmem))],
                          world := WithInstance(w, d, w.active[d].(shmem := [])))
    else s.(guards := s.guards + [Repin(d, p.hasMap)])
  }

  lemma OpenNext(c: Swap, w0: World, s: State)
    requires Supported(c, w0) && Reachable(c, w0, s) && s.stage == Opening && s.exit == Inside && |s.guards| < 8
    ensures Home(c, SideOf(|s.guards|)) in s.world.active && Reachable(c, w0, Opened(c, s))
  {
    var z := SideOf(|s.guards|);
    ReachableInv(c, w0, s);
    assert SideOk(c, s, w0, z);
    assert OpenGuard(c, s, Opened(c, s));
    Reach(c, w0, s, Opened(c, s));
  }

  lemma {:induction false} OpenAll(c: Swap, w0: World, k: nat) returns (s: State)
    requires Supported(c, w0) && k <= 8
    ensures Reachable(c, w0, s) && s.stage == Opening && s.exit == Inside && |s.guards| == k
  {
    if k == 0 {
      s := Initial(w0);
      assert Behaviour(c, w0, [s]) && [s][|[s]| - 1] == s;
    } else {
      var t := OpenAll(c, w0, k - 1);
      OpenNext(c, w0, t);
      s := Opened(c, t);
    }
  }

  lemma Step(c: Swap, w0: World, s: State, s': State)
    requires Reachable(c, w0, s) && s.exit == Inside && (ScopeStep(c, s, s') || SnapshotStep(c, s, s'))
    ensures Reachable(c, w0, s')
  {
    Reach(c, w0, s, s');
  }

  /** The smaller machine has been snapshotted and the other one has moved. */
  lemma ReachRedefine(c: Swap, w0: World) returns (s: State)
    requires Supported(c, w0)
    ensures Reachable(c, w0, s) && s.stage == Redefine && s.exit == Inside && |s.guards| == 8
  {
    var s0 := OpenAll(c, w0, 8);
    var s1 := s0.(stage := TakeSnapshot, small := SmallSide(c));
    Step(c, w0, s0, s1);
    SnapshotFits(c, w0, s1);
    var s2 := s1.(stage := MigrateLarge, world := Halted(s1.world, Home(c, s1.small)));
    Step(c, w0, s1, s2);
    MigrationFits(c, w0, s2);
    var y := Other(s2.small);
    var s3 := s2.(stage := Lookup, world := Move(s2.world, Home(c, y), Away(c, y), Of(c, y).hasMap),
                  guards := AimAll(c, s2.guards, y));
    Step(c, w0, s2, s3);
    s := s3.(stage := Redefine);
    Step(c, w0, s3, s);
  }

  lemma SnapshotFits(c: Swap, w0: World, s: State)
    requires Distinct(c) && Ready(c, w0) && Reachable(c, w0, s) && s.stage == TakeSnapshot
    ensures Home(c, s.small) in s.world.active
  {
    ReachableInv(c, w0, s);
    assert SideOk(c, s, w0, s.small);
  }

  lemma MigrationFits(c: Swap, w0: World, s: State)
    requires Distinct(c) && Ready(c, w0) && Reachable(c, w0, s) && s.stage == MigrateLarge
    ensures Home(c, Other(s.small)) in s.world.active && Away(c, Other(s.small)) !in s.world.active
  {
    ReachableInv(c, w0, s);
    assert SideOk(c, s, w0, Other(s.small));
  }

  /** The record on the source is gone, and the one on the destination exists or not. */
  lemma ReachRevert(c: Swap, w0: World, valid: bool) returns (s: State)
    requires Supported(c, w0)
    ensures Reachable(c, w0, s) && s.stage == Revert && s.valid == valid && s.exit == Inside && |s.guards| == 8
    ensures s.small == SmallSide(c)
  {
    var s0 := ReachRedefine(c, w0);
    var records := s0.world.records + if valid then {Away(c, s0.small)} else {};
    var s1 := s0.(stage := DeleteSource, valid := valid, world := s0.world.(records := records));
    assert !valid ==> records == s0.world.records;
    assert Redefines(c, s0, s1);
    Step(c, w0, s0, s1);
    s := s1.(stage := Revert, world := s1.world.(records := s1.world.records - {Home(c, s1.small)}));
    Step(c, w0, s1, s);
    ReachableInv(c, w0, s);
  }

  lemma ReachDeleteDest(c: Swap, w0: World) returns (s: State)
    requires Supported(c, w0)
    ensures Reachable(c, w0, s) && s.stage == DeleteDest && s.exit == Inside && |s.guards| == 8
    ensures s.small == SmallSide(c)
  {
    var s0 := ReachRevert(c, w0, true);
    ReachableInv(c, w0, s0);
    assert SideOk(c, s0, w0, s0.small);
    s := s0.(stage := DeleteDest, world := Revived(s0.world, Away(c, s0.small), Of(c, s0.small).hasMap));
    assert Reverts(c, s0, s);
    Step(c, w0, s0, s);
  }

  /**
   The input that loses a machine, from any start: redefining the snapshot fails, deleting the record
   on the source succeeds, and the revert throws. Leaving the scope does not bring the machine back.
   */
  lemma MachineCanBeLost(c: Swap, w0: World, env: string -> Restore) returns (s: State)
    requires Supported(c, w0)
    ensures Reachable(c, w0, s) && s.stage == Revert && s.exit == ByThrow
    ensures Lost(c, s.world, SmallSide(c)) && Lost(c, Unwind(s.guards, s.world, true, env).0, SmallSide(c))
  {
    var s0 := ReachRevert(c, w0, false);
    s := s0.(exit := ByThrow);
    Step(c, w0, s0, s);
    ReachableInv(c, w0, s);
    StateIsSafe(c, s, w0, SmallSide(c));
    UnwindMovesNothing(s.guards, s.world, true, env);
  }

  /** The input that leaves guards behind: deleting the last snapshot throws. */
  lemma MachineCanBeLeftBare(c: Swap, w0: World, env: string -> Restore) returns (s: State)
    requires Supported(c, w0)
    requires Works(env(Of(c, SmallSide(c)).vm), w0.active[Home(c, SmallSide(c))].pci)
    ensures Reachable(c, w0, s) && s.stage == DeleteDest && s.exit == ByThrow
    ensures var x := SmallSide(c);
            var i0, w' := w0.active[Home(c, x)], Unwind(s.guards, s.world, true, env).0;
            i0.pci != multiset{} || i0.shmem != [] || Of(c, x).hasMap ==> !Restored(w', Away(c, x), i0)
  {
    var s0 := ReachDeleteDest(c, w0);
    s := s0.(exit := ByThrow);
    Step(c, w0, s0, s);
    ReachableInv(c, w0, s);
    ExitRestores(c, s, w0, SmallSide(c), env);
  }

  /** A snapshot swap can come to its end. */
  lemma SwapCanComplete(c: Swap, w0: World) returns (s: State)
    requires Supported(c, w0)
    ensures Reachable(c, w0, s) && s.stage == Complete && s.exit == ByReturn
    ensures OnlyAt(s.world, c.local.vm, {Away(c, Local)}) && OnlyAt(s.world, c.remote.vm, {Away(c, Remote)})
  {
    var s0 := ReachDeleteDest(c, w0);
    s := s0.(stage := Complete, exit := ByReturn, world := WithoutSnapshot(s0.world, Away(c, s0.small)),
             guards := AimAll(c, s0.guards, s0.small));
    assert DeletesDest(c, s0, s);
    Step(c, w0, s0, s);
    ReachableInv(c, w0, s);
    CompleteState(c, s, w0);
  }

  /**
   The input that leaves the local machine where it is pinned: a swap that came to its end, after which
   a call for the remote machine fails. The local machine runs, but it has not been repinned.
   */
  lemma LocalCanMissRepin(c: Swap, w0: World, env: string -> Restore) returns (s: State)
    requires Supported(c, w0) && c.local.hasMap && env(c.local.vm).repin && env(c.local.vm).resume
    requires RepinFails(c.remote.hasMap, env(c.remote.vm))
    ensures Reachable(c, w0, s) && s.stage == Complete && s.exit == ByReturn
    ensures var w' := Unwind(s.guards, s.world, false, env).0;
            && Away(c, Local) in w'.active && !w'.active[Away(c, Local)].paused
            && w'.active[Away(c, Local)].pinned == w0.active[Home(c, Local)].pinned
  {
    s := SwapCanComplete(c, w0);
    ReachableInv(c, w0, s);
    ReturnRunState(c, s, w0, Local, env);
  }

  /** Both threads of the parallel path fail. */
  lemma ReachBothFailed(c: Swap, w0: World) returns (s: State)
    requires Supported(c, w0)
    ensures Reachable(c, w0, s) && s.stage == Parallel(Failed, Failed) && s.exit == ByReturn
  {
    var s0 := OpenAll(c, w0, 8);
    var s1 := s0.(stage := Parallel(Migrating, Migrating));
    Step(c, w0, s0, s1);
    var s2 := s1.(stage := Parallel(Failed, Migrating));
    assert ThreadFails(s1, Local, s2);
    Reach(c, w0, s1, s2);
    var s3 := s2.(stage := Parallel(Failed, Failed));
    assert ThreadFails(s2, Remote, s3);
    Reach(c, w0, s2, s3);
    s := s3.(exit := ByReturn);
    Step(c, w0, s3, s);
  }

  /**
   Returning normally does not mean that anything moved: from any start both threads may fail, and
   if the restoring calls work the swap returns without an exception, with both machines running
   where they were.
   */
  lemma FailuresGoUnnoticed(c: Swap, w0: World, env: string -> Restore) returns (s: State)
    requires Supported(c, w0)
    requires AllWork(w0.active[Home(c, Local)], c.local.expected, c.local.hasMap, env(c.local.vm))
    requires AllWork(w0.active[Home(c, Remote)], c.remote.expected, c.remote.hasMap, env(c.remote.vm))
    ensures Reachable(c, w0, s) && s.stage == Parallel(Failed, Failed) && s.exit == ByReturn
    ensures var (w', threw) := Unwind(s.guards, s.world, false, env);
            !threw && OnlyAt(w', c.local.vm, {Home(c, Local)}) && OnlyAt(w', c.remote.vm, {Home(c, Remote)})
  {
    s := ReachBothFailed(c, w0);
    ReachableInv(c, w0, s);
    ExitThrowsIff(c, s, w0, env);
    UnwindMovesNothing(s.guards, s.world, false, env);
    assert SideOk(c, s, w0, Local) && SideOk(c, s, w0, Remote);
  }
}
