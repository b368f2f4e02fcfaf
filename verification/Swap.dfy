/**
 Swap migration: two machines change hosts, under eight guards, either by two migrations in
 parallel threads or, when memory is short, by snapshotting one machine, migrating the other and
 reverting the snapshot on the far side. Every library call is a step that may throw.
 */
module SwapMigration {
  import opened Guards
  import opened Migration

  datatype Side = Local | Remote

  datatype Party = Party(vm: string, home: string, size: nat, hasMap: bool, expected: nat)

  datatype Swap = Swap(local: Party, remote: Party)

  /** The threads of the parallel path; `Aiming(n)` has n guards pointed to the destination. */
  datatype Thread = Migrating | Aiming(n: nat) | Moved | Failed

  datatype Stage =
    | Opening | TakeSnapshot | MigrateLarge | Lookup | Redefine | DeleteSource | Revert | DeleteDest | Complete
    | Parallel(local: Thread, remote: Thread)

  /** How the statements of the swap end; only then are its guards destroyed, which may throw. */
  datatype Exit = Inside | ByThrow | ByReturn

  /** `small` is the snapshotted side; `valid` says whether the redefined snapshot exists. */
  datatype State = State(stage: Stage, small: Side, valid: bool, exit: Exit, world: World, guards: seq<Guard>)

  function Of(c: Swap, z: Side): Party {
    if z == Local then c.local else c.remote
  }

  function Other(z: Side): Side {
    if z == Local then Remote else Local
  }

  function Home(c: Swap, z: Side): Domain {
    Domain(Of(c, z).vm, Of(c, z).home)
  }

  function Away(c: Swap, z: Side): Domain {
    Domain(Of(c, z).vm, Of(c, Other(z)).home)
  }

  predicate Distinct(c: Swap) {
    c.local.vm != c.remote.vm && c.local.home != c.remote.home
  }

  /** The active copies of a machine are exactly these. */
  ghost predicate OnlyAt(w: World, vm: string, copies: set<Domain>) {
    forall d: Domain :: d.vm == vm ==> (d in w.active <==> d in copies)
  }

  ghost predicate ReadySide(c: Swap, w: World, z: Side) {
    && OnlyAt(w, Of(c, z).vm, {Home(c, z)})
    && Home(c, z) in w.active && !w.active[Home(c, z)].paused
    && Of(c, z).vm !in w.saved && Of(c, z).vm !in w.suspended
    && Home(c, z) !in w.records && Away(c, z) !in w.records
  }

  /** Both machines run at home and nowhere else, with no snapshot around. */
  ghost predicate Ready(c: Swap, w: World) {
    ReadySide(c, w, Local) && ReadySide(c, w, Remote)
  }

  // ---------------------------------------------------------------------------------------------
  // Library calls
  // ---------------------------------------------------------------------------------------------

  function Move(w: World, src: Domain, dst: Domain, paused: bool): World
    requires src in w.active
  {
    w.(active := (w.active - {src})[dst := w.active[src].(paused := paused)])
  }

  /** A snapshot with halt: the machine stops, its contents are on disk, its record on the host. */
  function Halted(w: World, d: Domain): World
    requires d in w.active
  {
    w.(active := w.active - {d}, saved := w.saved[d.vm := w.active[d]], records := w.records + {d})
  }

  function Revived(w: World, d: Domain, paused: bool): World
    requires d.vm in w.saved
  {
    w.(active := w.active[d := w.saved[d.vm].(paused := paused)])
  }

  function WithoutSnapshot(w: World, d: Domain): World {
    w.(records := w.records - {d}, saved := w.saved - {d.vm})
  }

  /** The first argument is the machine of lesser size; on equal sizes the second is snapshotted. */
  function SmallSide(c: Swap): Side {
    if c.local.size < c.remote.size then Local else Remote
  }

  // ---------------------------------------------------------------------------------------------
  // Steps
  // ---------------------------------------------------------------------------------------------

  function SideOf(k: nat): Side {
    if k % 2 == 0 then Local else Remote
  }

  /** The guards are constructed in this order: pscom, devices, shared memory, repin; local first. */
  ghost predicate OpenGuard(c: Swap, s: State, s': State) {
    var k, w := |s.guards|, s.world;
    var z := SideOf(k);
    var p, d := Of(c, z), Home(c, z);
    && s.stage == Opening && k < 8 && d in w.active
    && if k < 2 then
         s' == s.(guards := s.guards + [Pscom(p.vm, p.expected)],
                  world := PscomAsked(w, p.vm, p.expected, PscomOpen(true, true, p.expected)))
       else if k < 4 then
         s' == s.(guards := s.guards + [Devices(d, w.active[d].pci)],
                  world := WithInstance(w, d, w.active[d].(pci := multiset{})))
       else if k < 6 then
         && |w.active[d].shmem| <= 1
         && s' == s.(guards := s.guards + [Shared(d, AllRebuilt(w.active[d].shmem))],
                     world := WithInstance(w, d, w.active[d].(shmem := [])))
       else
         s' == s.(guards := s.guards + [Repin(d, p.hasMap)])
  }

  /** A pscom constructor that throws, having done what o says; its destructor will not run. */
  ghost predicate PscomFailsWith(c: Swap, s: State, o: PscomOpen, s': State) {
    var k := |s.guards|;
    var p := Of(c, SideOf(k));
    && s.stage == Opening && k < 2 && (p.expected == 0 || !PscomOpens(o, p.expected))
    && s' == s.(exit := ByThrow, world := PscomAsked(s.world, p.vm, p.expected, o))
  }

  ghost predicate PscomFails(c: Swap, s: State, s': State) {
    exists o: PscomOpen :: PscomFailsWith(c, s, o, s')
  }

  ghost predicate ChoosePath(c: Swap, s: State, s': State) {
    && s.stage == Opening && |s.guards| == 8
    && (s' == s.(stage := TakeSnapshot, small := SmallSide(c)) || s' == s.(stage := Parallel(Migrating, Migrating)))
  }

  function GuardOf(kind: nat, z: Side): nat {
    2 * kind + if z == Local then 0 else 1
  }

  /** set_destination_domain on the guard of this kind: 1 devices, 2 shared memory, 3 repin. */
  function Aim(c: Swap, guards: seq<Guard>, kind: nat, z: Side): seq<Guard>
    requires |guards| == 8 && kind < 4
  {
    guards[GuardOf(kind, z) := Retarget(guards[GuardOf(kind, z)], Away(c, z))]
  }

  function AimAll(c: Swap, guards: seq<Guard>, z: Side): seq<Guard>
    requires |guards| == 8
  {
    Aim(c, Aim(c, Aim(c, guards, 3, z), 1, z), 2, z)
  }

  /** vm1 is snapshotted and halted. */
  ghost predicate TakesSnapshot(c: Swap, s: State, s': State) {
    && s.stage == TakeSnapshot && Home(c, s.small) in s.world.active
    && s' == s.(stage := MigrateLarge, world := Halted(s.world, Home(c, s.small)))
  }

  /** vm2 migrates, and its guards are pointed to the destination. */
  ghost predicate MigratesLarge(c: Swap, s: State, s': State) {
    var y := Other(s.small);
    && s.stage == MigrateLarge && |s.guards| == 8
    && Home(c, y) in s.world.active && Away(c, y) !in s.world.active
    && s' == s.(stage := Lookup, world := Move(s.world, Home(c, y), Away(c, y), Of(c, y).hasMap),
                guards := AimAll(c, s.guards, y))
  }

  /** vm1 is looked up on the other host. */
  ghost predicate LooksUp(s: State, s': State) {
    s.stage == Lookup && s' == s.(stage := Redefine)
  }

  /** The record is created there, or not: the null result of a failure is not checked. */
  ghost predicate Redefines(c: Swap, s: State, s': State) {
    && s.stage == Redefine
    && (|| s' == s.(stage := DeleteSource, valid := true,
                    world := s.world.(records := s.world.records + {Away(c, s.small)}))
        || s' == s.(stage := DeleteSource, valid := false))
  }

  /** The record on the source host is deleted, the contents stay. */
  ghost predicate DeletesSource(c: Swap, s: State, s': State) {
    && s.stage == DeleteSource
    && s' == s.(stage := Revert, world := s.world.(records := s.world.records - {Home(c, s.small)}))
  }

  /** vm1 is revived from the snapshot, which must exist. */
  ghost predicate Reverts(c: Swap, s: State, s': State) {
    && s.stage == Revert && s.valid && Of(c, s.small).vm in s.world.saved
    && s' == s.(stage := DeleteDest, world := Revived(s.world, Away(c, s.small), Of(c, s.small).hasMap))
  }

  /** The snapshot is deleted, and only now the guards of vm1 are pointed to the destination. */
  ghost predicate DeletesDest(c: Swap, s: State, s': State) {
    && s.stage == DeleteDest && |s.guards| == 8
    && s' == s.(stage := Complete, exit := ByReturn, world := WithoutSnapshot(s.world, Away(c, s.small)),
                guards := AimAll(c, s.guards, s.small))
  }

  function ThreadOf(stage: Stage, z: Side): Thread
    requires stage.Parallel?
  {
    if z == Local then stage.local else stage.remote
  }

  function WithThread(stage: Stage, z: Side, t: Thread): Stage
    requires stage.Parallel?
  {
    if z == Local then stage.(local := t) else stage.(remote := t)
  }

  /** The thread of side z migrates its machine. */
  ghost predicate ThreadMigrates(c: Swap, s: State, z: Side, s': State) {
    && s.stage.Parallel? && ThreadOf(s.stage, z) == Migrating
    && Home(c, z) in s.world.active && Away(c, z) !in s.world.active
    && s' == s.(stage := WithThread(s.stage, z, Aiming(0)),
                world := Move(s.world, Home(c, z), Away(c, z), Of(c, z).hasMap))
  }

  ghost predicate ThreadFails(s: State, z: Side, s': State) {
    && s.stage.Parallel? && ThreadOf(s.stage, z) == Migrating
    && s' == s.(stage := WithThread(s.stage, z, Failed))
  }

  /** It points the guards to the destination, one at a time. */
  ghost predicate ThreadAims(c: Swap, s: State, z: Side, s': State) {
    && s.stage.Parallel? && |s.guards| == 8 && ThreadOf(s.stage, z).Aiming? && ThreadOf(s.stage, z).n < 3
    && var n := ThreadOf(s.stage, z).n;
       s' == s.(stage := WithThread(s.stage, z, if n == 2 then Moved else Aiming(n + 1)),
                guards := Aim(c, s.guards, n + 1, z))
  }

  /** Both futures are destroyed, which joins the threads; whatever they threw is never read. */
  ghost predicate Join(s: State, s': State) {
    && s.stage.Parallel?
    && (s.stage.local == Moved || s.stage.local == Failed) && (s.stage.remote == Moved || s.stage.remote == Failed)
    && s' == s.(exit := ByReturn)
  }

  predicate MayThrow(stage: Stage) {
    stage != Redefine && stage != Complete && !stage.Parallel?
  }

  ghost predicate Throws(s: State, s': State) {
    MayThrow(s.stage) && s' == s.(exit := ByThrow)
  }

  ghost predicate SnapshotStep(c: Swap, s: State, s': State) {
    || TakesSnapshot(c, s, s') || MigratesLarge(c, s, s') || LooksUp(s, s') || Redefines(c, s, s')
    || DeletesSource(c, s, s') || Reverts(c, s, s') || DeletesDest(c, s, s')
  }

  ghost predicate ThreadStep(c: Swap, s: State, z: Side, s': State) {
    ThreadMigrates(c, s, z, s') || ThreadFails(s, z, s') || ThreadAims(c, s, z, s')
  }

  ghost predicate ScopeStep(c: Swap, s: State, s': State) {
    OpenGuard(c, s, s') || PscomFails(c, s, s') || ChoosePath(c, s, s') || Join(s, s') || Throws(s, s')
  }

  ghost predicate Next(c: Swap, s: State, s': State) {
    && s.exit == Inside
    && (|| ScopeStep(c, s, s') || SnapshotStep(c, s, s')
        || ThreadStep(c, s, Local, s') || ThreadStep(c, s, Remote, s'))
  }

  function Initial(w: World): State {
    State(Opening, Local, false, Inside, w, [])
  }

  ghost predicate Behaviour(c: Swap, w: World, ss: seq<State>) {
    && ss != [] && ss[0] == Initial(w)
    && forall k :: 0 <= k < |ss| - 1 ==> Next(c, ss[k], ss[k + 1])
  }

  // ---------------------------------------------------------------------------------------------
  // The invariant
  // ---------------------------------------------------------------------------------------------

  datatype Site = AtHome | AtAway | OnDisk

  function Where(s: State, z: Side): Site {
    match s.stage
    case Opening | TakeSnapshot => AtHome
    case MigrateLarge => if z == s.small then OnDisk else AtHome
    case Lookup | Redefine | DeleteSource | Revert => if z == s.small then OnDisk else AtAway
    case DeleteDest | Complete => AtAway
    case Parallel(l, r) => (var t := ThreadOf(s.stage, z); if t == Migrating || t == Failed then AtHome else AtAway)
  }

  function Copies(c: Swap, s: State, z: Side): set<Domain> {
    match Where(s, z)
    case AtHome => {Home(c, z)}
    case AtAway => {Away(c, z)}
    case OnDisk => {}
  }

  /** Whether the guard of this kind has been pointed to the destination. */
  predicate AimedAway(s: State, kind: nat, z: Side) {
    match s.stage
    case Opening | TakeSnapshot | MigrateLarge => false
    case Lookup | Redefine | DeleteSource | Revert | DeleteDest => z != s.small
    case Complete => true
    case Parallel(l, r) =>
      (match ThreadOf(s.stage, z) case Aiming(n) => kind <= n case Moved => true case _ => false)
  }

  function Target(c: Swap, s: State, kind: nat, z: Side): Domain {
    if AimedAway(s, kind, z) then Away(c, z) else Home(c, z)
  }

  /** The stack of guards: kinds in order, each pointing where the stage says. */
  ghost predicate Stacked(c: Swap, s: State) {
    && |s.guards| <= 8 && (s.stage != Opening ==> |s.guards| == 8)
    && forall k :: 0 <= k < |s.guards| ==> Shaped(c, s, k, s.guards[k])
  }

  ghost predicate Shaped(c: Swap, s: State, k: nat, g: Guard) {
    var z := SideOf(k);
    if k < 2 then g == Pscom(Of(c, z).vm, Of(c, z).expected)
    else if k < 4 then g.Devices? && g.domain == Target(c, s, 1, z)
    else if k < 6 then g.Shared? && g.domain == Target(c, s, 2, z)
    else g == Repin(Target(c, s, 3, z), Of(c, z).hasMap)
  }

  /** The machine as it is now, running or on disk. */
  function Content(c: Swap, s: State, z: Side): Instance
    requires Located(c, s, z)
  {
    match Where(s, z)
    case AtHome => s.world.active[Home(c, z)]
    case AtAway => s.world.active[Away(c, z)]
    case OnDisk => s.world.saved[Of(c, z).vm]
  }

  predicate Located(c: Swap, s: State, z: Side) {
    match Where(s, z)
    case AtHome => Home(c, z) in s.world.active
    case AtAway => Away(c, z) in s.world.active
    case OnDisk => Of(c, z).vm in s.world.saved
  }

  /**
   What the machine has now and what its guards hold make up what it had at the start, except that the
   shared memory guard holds its device rewritten.
   */
  ghost predicate Conserved(i: Instance, guards: seq<Guard>, z: Side, vm: string, i0: Instance) {
    && i.pci + HeldPci(guards, vm) == i0.pci
    && (if |guards| > GuardOf(2, z) then i.shmem == [] && HeldShmem(guards, vm) == AllRebuilt(i0.shmem)
        else i.shmem == i0.shmem && HeldShmem(guards, vm) == [])
  }

  /** Once their guard is there, the PCI devices are gone from the machine. */
  predicate Bare(i: Instance, guards: nat, z: Side) {
    guards > GuardOf(1, z) ==> i.pci == multiset{}
  }

  ghost predicate SideOk(c: Swap, s: State, w0: World, z: Side) {
    && OnlyAt(s.world, Of(c, z).vm, Copies(c, s, z))
    && Located(c, s, z)
    && Home(c, z) in w0.active
    && Conserved(Content(c, s, z), s.guards, z, Of(c, z).vm, w0.active[Home(c, z)])
    && (Content(c, s, z).paused <==> Where(s, z) == AtAway && Of(c, z).hasMap)
    && Content(c, s, z).pinned == w0.active[Home(c, z)].pinned
    && Bare(Content(c, s, z), |s.guards|, z)
  }

  /** The snapshot records at each stage. */
  function Records(c: Swap, s: State): set<Domain> {
    var source, dest := {Home(c, s.small)}, if s.valid then {Away(c, s.small)} else {};
    match s.stage
    case MigrateLarge | Lookup | Redefine => source
    case DeleteSource => source + dest
    case Revert => dest
    case DeleteDest => {Away(c, s.small)}
    case _ => {}
  }

  ghost predicate SnapshotOk(c: Swap, s: State, w0: World) {
    && s.world.records == w0.records + Records(c, s)
    && (s.stage == DeleteDest ==> Of(c, s.small).vm in s.world.saved && s.valid)
    && (s.stage == Complete || s.stage.Parallel? || s.stage == Opening || s.stage == TakeSnapshot
        ==> s.world.saved == w0.saved)
    && s.world.saved - {Of(c, s.small).vm} == w0.saved - {Of(c, s.small).vm}
    && (s.stage != Opening && !s.stage.Parallel? ==> s.small == SmallSide(c))
  }

  ghost predicate Inv(c: Swap, s: State, w0: World) {
    && Stacked(c, s)
    && SideOk(c, s, w0, Local) && SideOk(c, s, w0, Remote)
    && SnapshotOk(c, s, w0)
    && ExitOk(s)
  }

  /** From which stages the scope is left, and how. */
  predicate ExitOk(s: State) {
    && (s.exit == ByReturn ==> s.stage == Complete || Joined(s.stage))
    && (s.exit != ByReturn ==> s.stage != Complete)
    && (s.exit == ByThrow ==> MayThrow(s.stage))
  }

  predicate Joined(stage: Stage) {
    && stage.Parallel?
    && (stage.local == Moved || stage.local == Failed) && (stage.remote == Moved || stage.remote == Failed)
  }

  // ---------------------------------------------------------------------------------------------
  // Every step keeps the invariant
  // ---------------------------------------------------------------------------------------------

  lemma HeldPush(guards: seq<Guard>, g: Guard, vm: string)
    ensures HeldPci(guards + [g], vm)
         == HeldPci(guards, vm) + if g.Devices? && g.domain.vm == vm then g.counts else multiset{}
    ensures HeldShmem(guards + [g], vm) == HeldHere(g, vm) + HeldShmem(guards, vm)
  {
    assert (guards + [g])[..|guards|] == guards;
  }

  /** Pointing a guard elsewhere does not change what it holds. */
  lemma {:induction false} HeldRetarget(guards: seq<Guard>, k: nat, d: Domain, vm: string)
    requires k < |guards| && VmOf(guards[k]) == d.vm
    ensures HeldPci(guards[k := Retarget(guards[k], d)], vm) == HeldPci(guards, vm)
    ensures HeldShmem(guards[k := Retarget(guards[k], d)], vm) == HeldShmem(guards, vm)
    decreases |guards|
  {
    var n := |guards| - 1;
    var guards' := guards[k := Retarget(guards[k], d)];
    if k == n {
      assert guards'[..n] == guards[..n];
    } else {
      assert guards'[..n] == guards[..n][k := Retarget(guards[k], d)];
      HeldRetarget(guards[..n], k, d, vm);
    }
  }

  lemma AimHolds(c: Swap, guards: seq<Guard>, kind: nat, z: Side, vm: string)
    requires |guards| == 8 && kind < 4 && VmOf(guards[GuardOf(kind, z)]) == Of(c, z).vm
    ensures HeldPci(Aim(c, guards, kind, z), vm) == HeldPci(guards, vm)
    ensures HeldShmem(Aim(c, guards, kind, z), vm) == HeldShmem(guards, vm)
  {
    HeldRetarget(guards, GuardOf(kind, z), Away(c, z), vm);
  }

  lemma AimAllHolds(c: Swap, guards: seq<Guard>, z: Side, vm: string)
    requires |guards| == 8
    requires forall kind :: 1 <= kind <= 3 ==> VmOf(guards[GuardOf(kind, z)]) == Of(c, z).vm
    ensures HeldPci(AimAll(c, guards, z), vm) == HeldPci(guards, vm)
    ensures HeldShmem(AimAll(c, guards, z), vm) == HeldShmem(guards, vm)
  {
    assert VmOf(guards[GuardOf(1, z)]) == VmOf(guards[GuardOf(2, z)]) == VmOf(guards[GuardOf(3, z)]) == Of(c, z).vm;
    var g1 := Aim(c, guards, 3, z);
    var g2 := Aim(c, g1, 1, z);
    AimHolds(c, guards, 3, z, vm);
    AimHolds(c, g1, 1, z, vm);
    AimHolds(c, g2, 2, z, vm);
  }

  lemma ShapedVm(c: Swap, s: State, k: nat)
    requires Stacked(c, s) && k < |s.guards|
    ensures VmOf(s.guards[k]) == Of(c, SideOf(k)).vm
  {
    assert Shaped(c, s, k, s.guards[k]);
  }

  /** A guard constructor takes from its own machine exactly what the guard then holds. */
  lemma OpeningConserves(i: Instance, guards: seq<Guard>, z: Side, vm: string, i0: Instance, g: Guard, i': Instance)
    requires Conserved(i, guards, z, vm, i0) && VmOf(g) == vm
    requires g.Shared? <==> |guards| == GuardOf(2, z)
    requires || (g.Devices? && g.counts == i.pci && i' == i.(pci := multiset{}))
             || (g.Shared? && g.detached == AllRebuilt(i.shmem) && i' == i.(shmem := []))
             || (!g.Devices? && !g.Shared? && i' == i)
    ensures Conserved(i', guards + [g], z, vm, i0)
  {
    HeldPush(guards, g, vm);
    var held := HeldShmem(guards, vm);
    assert [] + held == held && AllRebuilt(i.shmem) + [] == AllRebuilt(i.shmem);
  }

  lemma OthersConserve(i: Instance, guards: seq<Guard>, z: Side, vm: string, i0: Instance, g: Guard)
    requires Conserved(i, guards, z, vm, i0) && VmOf(g) != vm && z == Other(SideOf(|guards|))
    ensures Conserved(i, guards + [g], z, vm, i0)
  {
    HeldPush(guards, g, vm);
    assert [] + HeldShmem(guards, vm) == HeldShmem(guards, vm);
  }

  /** The two worlds agree on one machine. */
  ghost predicate SameFor(w: World, w': World, vm: string) {
    && (forall d: Domain :: d.vm == vm ==> (d in w.active <==> d in w'.active))
    && (forall d: Domain :: d.vm == vm && d in w.active && d in w'.active ==> w'.active[d] == w.active[d])
    && (vm in w.saved <==> vm in w'.saved)
    && (vm in w.saved && vm in w'.saved ==> w'.saved[vm] == w.saved[vm])
  }

  ghost predicate SameHeld(guards: seq<Guard>, guards': seq<Guard>, vm: string) {
    HeldPci(guards', vm) == HeldPci(guards, vm) && HeldShmem(guards', vm) == HeldShmem(guards, vm)
  }

  /** A machine the step does not touch. */
  lemma OtherSide(c: Swap, s: State, s': State, w0: World, z: Side)
    requires SideOk(c, s, w0, z) && Where(s', z) == Where(s, z) && |s'.guards| == |s.guards|
    requires SameFor(s.world, s'.world, Of(c, z).vm) && SameHeld(s.guards, s'.guards, Of(c, z).vm)
    ensures SideOk(c, s', w0, z)
  {
    assert Copies(c, s', z) == Copies(c, s, z);
  }

  /** The machine a step moves from home to the other host. */
  lemma MovedSide(c: Swap, s: State, s': State, w0: World, z: Side)
    requires Distinct(c) && SideOk(c, s, w0, z) && Where(s, z) == AtHome && Where(s', z) == AtAway
    requires s'.world == Move(s.world, Home(c, z), Away(c, z), Of(c, z).hasMap)
    requires SameHeld(s.guards, s'.guards, Of(c, z).vm) && |s'.guards| == |s.guards|
    ensures SideOk(c, s', w0, z) && SameFor(s.world, s'.world, Of(c, Other(z)).vm)
  {
    assert Home(c, z) != Away(c, z);
  }

  lemma HaltedSide(c: Swap, s: State, s': State, w0: World, z: Side)
    requires Distinct(c) && SideOk(c, s, w0, z) && Where(s, z) == AtHome && Where(s', z) == OnDisk
    requires s'.world == Halted(s.world, Home(c, z)) && s'.guards == s.guards
    ensures SideOk(c, s', w0, z) && SameFor(s.world, s'.world, Of(c, Other(z)).vm)
  {
  }

  lemma RevivedSide(c: Swap, s: State, s': State, w0: World, z: Side)
    requires Distinct(c) && SideOk(c, s, w0, z) && Where(s, z) == OnDisk && Where(s', z) == AtAway
    requires s'.world == Revived(s.world, Away(c, z), Of(c, z).hasMap) && s'.guards == s.guards
    ensures SideOk(c, s', w0, z) && SameFor(s.world, s'.world, Of(c, Other(z)).vm)
  {
  }

  // Opening the guards

  lemma OpenGuardWorld(c: Swap, s: State, s': State, z: Side)
    requires Distinct(c) && OpenGuard(c, s, s') && z == SideOf(|s.guards|)
    requires OnlyAt(s.world, Of(c, z).vm, {Home(c, z)})
    ensures OnlyAt(s'.world, Of(c, z).vm, {Home(c, z)}) && Home(c, z) in s'.world.active
    ensures SameFor(s.world, s'.world, Of(c, Other(z)).vm)
    ensures s'.world.active[Home(c, z)].paused == s.world.active[Home(c, z)].paused
    ensures s'.world.active[Home(c, z)].pinned == s.world.active[Home(c, z)].pinned
    ensures Bare(s.world.active[Home(c, z)], |s.guards|, z) ==> Bare(s'.world.active[Home(c, z)], |s'.guards|, z)
    ensures s'.world.saved == s.world.saved && s'.world.records == s.world.records
  {
  }

  /** What the new guard holds, and what the machine has left. */
  lemma OpenGuardTakes(c: Swap, s: State, s': State, z: Side)
    requires OpenGuard(c, s, s') && z == SideOf(|s.guards|)
    ensures |s'.guards| == |s.guards| + 1 && s'.guards == s.guards + [s'.guards[|s.guards|]]
    ensures s'.stage == Opening
    ensures Home(c, z) in s.world.active && Home(c, z) in s'.world.active
    ensures VmOf(s'.guards[|s.guards|]) == Of(c, z).vm
    ensures s'.guards[|s.guards|].Shared? <==> |s.guards| == GuardOf(2, z)
    ensures var g, i, i' := s'.guards[|s.guards|], s.world.active[Home(c, z)], s'.world.active[Home(c, z)];
            || (g.Devices? && g.counts == i.pci && i' == i.(pci := multiset{}))
            || (g.Shared? && g.detached == AllRebuilt(i.shmem) && i' == i.(shmem := []))
            || (!g.Devices? && !g.Shared? && i' == i)
  {
  }

  lemma SideAtHome(c: Swap, s: State, w0: World, z: Side)
    requires s.stage == Opening && OnlyAt(s.world, Of(c, z).vm, {Home(c, z)})
    requires Home(c, z) in s.world.active && Home(c, z) in w0.active
    requires var i := s.world.active[Home(c, z)];
             && Conserved(i, s.guards, z, Of(c, z).vm, w0.active[Home(c, z)])
             && !i.paused && i.pinned == w0.active[Home(c, z)].pinned && Bare(i, |s.guards|, z)
    ensures SideOk(c, s, w0, z)
  {
  }

  lemma AtHomeFacts(c: Swap, s: State, w0: World, z: Side)
    requires s.stage == Opening && SideOk(c, s, w0, z)
    ensures OnlyAt(s.world, Of(c, z).vm, {Home(c, z)})
    ensures Home(c, z) in s.world.active && Home(c, z) in w0.active
    ensures var i := s.world.active[Home(c, z)];
            && Conserved(i, s.guards, z, Of(c, z).vm, w0.active[Home(c, z)])
            && !i.paused && i.pinned == w0.active[Home(c, z)].pinned && Bare(i, |s.guards|, z)
  {
  }

  lemma OpenGuardOwnSide(c: Swap, s: State, s': State, w0: World, z: Side)
    requires Distinct(c) && SideOk(c, s, w0, z) && OpenGuard(c, s, s') && z == SideOf(|s.guards|)
    ensures SideOk(c, s', w0, z)
  {
    var d := Home(c, z);
    OpenGuardTakes(c, s, s', z);
    OpenGuardWorld(c, s, s', z);
    OpeningConserves(s.world.active[d], s.guards, z, Of(c, z).vm, w0.active[d], s'.guards[|s.guards|],
                     s'.world.active[d]);
    SideAtHome(c, s', w0, z);
  }

  lemma OpenGuardOtherSide(c: Swap, s: State, s': State, w0: World, z: Side)
    requires Distinct(c) && SideOk(c, s, w0, z) && OpenGuard(c, s, s') && z == Other(SideOf(|s.guards|))
    requires SameFor(s.world, s'.world, Of(c, z).vm)
    ensures SideOk(c, s', w0, z)
  {
    OpenGuardTakes(c, s, s', SideOf(|s.guards|));
    OtherGuard(c, s, s', w0, z, s'.guards[|s.guards|]);
  }

  /** A new guard of the other machine changes nothing for this one. */
  lemma OtherGuard(c: Swap, s: State, s': State, w0: World, z: Side, g: Guard)
    requires SideOk(c, s, w0, z) && s.stage == Opening && s'.stage == Opening
    requires s'.guards == s.guards + [g] && VmOf(g) != Of(c, z).vm && z == Other(SideOf(|s.guards|))
    requires SameFor(s.world, s'.world, Of(c, z).vm)
    ensures SideOk(c, s', w0, z)
  {
    var d := Home(c, z);
    AtHomeFacts(c, s, w0, z);
    OthersConserve(s.world.active[d], s.guards, z, Of(c, z).vm, w0.active[d], g);
    assert s'.world.active[d] == s.world.active[d];
    SideAtHome(c, s', w0, z);
  }

  lemma OpenGuardKeepsInv(c: Swap, s: State, s': State, w0: World)
    requires Distinct(c) && Inv(c, s, w0) && s.exit == Inside && OpenGuard(c, s, s')
    ensures Inv(c, s', w0)
  {
    var z := SideOf(|s.guards|);
    OpenGuardWorld(c, s, s', z);
    OpenGuardOwnSide(c, s, s', w0, z);
    OpenGuardOtherSide(c, s, s', w0, Other(z));
    OpenGuardStack(c, s, s');
  }

  lemma OpenGuardStack(c: Swap, s: State, s': State)
    requires Stacked(c, s) && OpenGuard(c, s, s')
    ensures Stacked(c, s')
  {
    forall k | 0 <= k < |s'.guards|
      ensures Shaped(c, s', k, s'.guards[k])
    {
      if k < |s.guards| {
        assert Shaped(c, s, k, s.guards[k]);
      }
    }
  }

  // Steps that change neither the machines nor the guards

  lemma QuietStack(c: Swap, s: State, s': State)
    requires Stacked(c, s) && s'.guards == s.guards
    requires s'.stage != Opening ==> |s.guards| == 8
    requires forall kind, z: Side :: 1 <= kind <= 3 ==> AimedAway(s', kind, z) == AimedAway(s, kind, z)
    ensures Stacked(c, s')
  {
    forall k | 0 <= k < |s'.guards|
      ensures Shaped(c, s', k, s'.guards[k])
    {
      assert Shaped(c, s, k, s.guards[k]);
      assert AimedAway(s', 1, SideOf(k)) == AimedAway(s, 1, SideOf(k));
      assert AimedAway(s', 2, SideOf(k)) == AimedAway(s, 2, SideOf(k));
      assert AimedAway(s', 3, SideOf(k)) == AimedAway(s, 3, SideOf(k));
    }
  }

  /** Steps that change neither the machines nor the guards keep each side as it is. */
  lemma QuietSides(c: Swap, s: State, s': State, w0: World)
    requires SideOk(c, s, w0, Local) && SideOk(c, s, w0, Remote)
    requires s'.guards == s.guards && s'.world.active == s.world.active && s'.world.saved == s.world.saved
    requires Where(s', Local) == Where(s, Local) && Where(s', Remote) == Where(s, Remote)
    ensures SideOk(c, s', w0, Local) && SideOk(c, s', w0, Remote)
  {
    OtherSide(c, s, s', w0, Local);
    OtherSide(c, s, s', w0, Remote);
  }

  lemma ExitKeepsInv(c: Swap, s: State, s': State, w0: World)
    requires Inv(c, s, w0) && s.exit == Inside
    requires PscomFails(c, s, s') || Join(s, s') || Throws(s, s')
    ensures Inv(c, s', w0)
  {
    QuietSides(c, s, s', w0);
    QuietStack(c, s, s');
  }

  lemma ChoosePathKeepsInv(c: Swap, s: State, s': State, w0: World)
    requires Inv(c, s, w0) && s.exit == Inside && ChoosePath(c, s, s')
    ensures Inv(c, s', w0)
  {
    QuietSides(c, s, s', w0);
    QuietStack(c, s, s');
  }

  // The snapshot path

  lemma AimedStack(c: Swap, s: State, s': State, z: Side)
    requires Distinct(c) && Stacked(c, s) && |s.guards| == 8
    requires s'.guards == AimAll(c, s.guards, z) && s'.stage != Opening
    requires forall kind :: 1 <= kind <= 3 ==> AimedAway(s', kind, z)
    requires forall kind :: 1 <= kind <= 3 ==> AimedAway(s', kind, Other(z)) == AimedAway(s, kind, Other(z))
    ensures Stacked(c, s')
  {
    assert AimedAway(s', 1, z) && AimedAway(s', 2, z) && AimedAway(s', 3, z);
    var x := Other(z);
    assert AimedAway(s', 1, x) == AimedAway(s, 1, x);
    assert AimedAway(s', 2, x) == AimedAway(s, 2, x);
    assert AimedAway(s', 3, x) == AimedAway(s, 3, x);
    forall k | 0 <= k < 8
      ensures Shaped(c, s', k, s'.guards[k])
    {
      assert Shaped(c, s, k, s.guards[k]);
      assert SideOf(k) == z || SideOf(k) == x;
    }
  }

  lemma AimedHeld(c: Swap, s: State, s': State, z: Side)
    requires Stacked(c, s) && |s.guards| == 8 && s'.guards == AimAll(c, s.guards, z)
    ensures SameHeld(s.guards, s'.guards, c.local.vm) && SameHeld(s.guards, s'.guards, c.remote.vm)
  {
    forall kind | 1 <= kind <= 3
      ensures VmOf(s.guards[GuardOf(kind, z)]) == Of(c, z).vm
    {
      ShapedVm(c, s, GuardOf(kind, z));
    }
    AimAllHolds(c, s.guards, z, c.local.vm);
    AimAllHolds(c, s.guards, z, c.remote.vm);
  }

  lemma TakeSnapshotRecords(c: Swap, s: State, s': State, w0: World)
    requires SnapshotOk(c, s, w0) && TakesSnapshot(c, s, s')
    ensures SnapshotOk(c, s', w0)
  {
  }

  lemma TakeSnapshotKeepsInv(c: Swap, s: State, s': State, w0: World)
    requires Distinct(c) && Inv(c, s, w0) && s.exit == Inside && TakesSnapshot(c, s, s')
    ensures Inv(c, s', w0)
  {
    TakeSnapshotRecords(c, s, s', w0);
    HaltedSide(c, s, s', w0, s.small);
    OtherSide(c, s, s', w0, Other(s.small));
    QuietStack(c, s, s');
  }

  lemma MigrateLargeKeepsInv(c: Swap, s: State, s': State, w0: World)
    requires Distinct(c) && Inv(c, s, w0) && s.exit == Inside && MigratesLarge(c, s, s')
    ensures Inv(c, s', w0)
  {
    var y := Other(s.small);
    AimedStack(c, s, s', y);
    AimedHeld(c, s, s', y);
    MovedSide(c, s, s', w0, y);
    OtherSide(c, s, s', w0, s.small);
  }

  lemma RecordStepRecords(c: Swap, s: State, s': State, w0: World)
    requires Distinct(c) && Ready(c, w0) && SnapshotOk(c, s, w0)
    requires LooksUp(s, s') || Redefines(c, s, s') || DeletesSource(c, s, s')
    ensures SnapshotOk(c, s', w0)
  {
    assert Home(c, s.small) !in w0.records;
    assert Home(c, s.small) != Away(c, s.small);
    assert s'.world.records == w0.records + Records(c, s');
  }

  lemma RecordStepSides(c: Swap, s: State, s': State, w0: World)
    requires Stacked(c, s) && SideOk(c, s, w0, Local) && SideOk(c, s, w0, Remote)
    requires LooksUp(s, s') || Redefines(c, s, s') || DeletesSource(c, s, s')
    ensures Stacked(c, s') && SideOk(c, s', w0, Local) && SideOk(c, s', w0, Remote)
  {
    QuietSides(c, s, s', w0);
    QuietStack(c, s, s');
  }

  lemma RecordStepKeepsInv(c: Swap, s: State, s': State, w0: World)
    requires Distinct(c) && Ready(c, w0) && Inv(c, s, w0) && s.exit == Inside
    requires LooksUp(s, s') || Redefines(c, s, s') || DeletesSource(c, s, s')
    ensures Inv(c, s', w0)
  {
    assert ExitOk(s');
    RecordStepSides(c, s, s', w0);
    RecordStepRecords(c, s, s', w0);
  }

  lemma RevertSides(c: Swap, s: State, s': State, w0: World)
    requires Distinct(c) && Stacked(c, s) && SideOk(c, s, w0, Local) && SideOk(c, s, w0, Remote)
    requires Reverts(c, s, s')
    ensures Stacked(c, s') && SideOk(c, s', w0, Local) && SideOk(c, s', w0, Remote)
  {
    RevivedSide(c, s, s', w0, s.small);
    OtherSide(c, s, s', w0, Other(s.small));
    QuietStack(c, s, s');
  }

  lemma RevertRecords(c: Swap, s: State, s': State, w0: World)
    requires SnapshotOk(c, s, w0) && Reverts(c, s, s')
    ensures SnapshotOk(c, s', w0)
  {
  }

  lemma RevertKeepsInv(c: Swap, s: State, s': State, w0: World)
    requires Distinct(c) && Inv(c, s, w0) && s.exit == Inside && Reverts(c, s, s')
    ensures Inv(c, s', w0)
  {
    RevertSides(c, s, s', w0);
    RevertRecords(c, s, s', w0);
  }

  lemma DeleteDestRecords(c: Swap, s: State, s': State, w0: World)
    requires Distinct(c) && Ready(c, w0) && SnapshotOk(c, s, w0) && DeletesDest(c, s, s')
    ensures SnapshotOk(c, s', w0)
  {
    var x := s.small;
    assert Of(c, x).vm !in w0.saved && Away(c, x) !in w0.records;
    assert w0.saved - {Of(c, x).vm} == w0.saved;
    assert s'.world.records == w0.records + Records(c, s');
  }

  lemma DeleteDestSides(c: Swap, s: State, s': State, w0: World)
    requires Distinct(c) && Stacked(c, s) && SideOk(c, s, w0, Local) && SideOk(c, s, w0, Remote)
    requires DeletesDest(c, s, s')
    ensures Stacked(c, s') && SideOk(c, s', w0, Local) && SideOk(c, s', w0, Remote)
  {
    AimedStack(c, s, s', s.small);
    AimedHeld(c, s, s', s.small);
    DeletedSide(c, s, s', w0, s.small);
    OtherSide(c, s, s', w0, Other(s.small));
  }

  lemma DeleteDestKeepsInv(c: Swap, s: State, s': State, w0: World)
    requires Distinct(c) && Ready(c, w0) && Inv(c, s, w0) && s.exit == Inside && DeletesDest(c, s, s')
    ensures Inv(c, s', w0)
  {
    DeleteDestSides(c, s, s', w0);
    DeleteDestRecords(c, s, s', w0);
  }

  lemma DeletedSide(c: Swap, s: State, s': State, w0: World, z: Side)
    requires Distinct(c) && SideOk(c, s, w0, z) && Where(s, z) == AtAway && Where(s', z) == AtAway
    requires s'.world == WithoutSnapshot(s.world, Away(c, z)) && SameHeld(s.guards, s'.guards, Of(c, z).vm)
    requires |s'.guards| == |s.guards|
    ensures SideOk(c, s', w0, z) && SameFor(s.world, s'.world, Of(c, Other(z)).vm)
  {
    assert Copies(c, s', z) == Copies(c, s, z);
  }

  lemma SnapshotStepKeepsInv(c: Swap, s: State, s': State, w0: World)
    requires Distinct(c) && Ready(c, w0) && Inv(c, s, w0) && s.exit == Inside && SnapshotStep(c, s, s')
    ensures Inv(c, s', w0)
  {
    if TakesSnapshot(c, s, s') {
      TakeSnapshotKeepsInv(c, s, s', w0);
    } else if MigratesLarge(c, s, s') {
      MigrateLargeKeepsInv(c, s, s', w0);
    } else if Reverts(c, s, s') {
      RevertKeepsInv(c, s, s', w0);
    } else if DeletesDest(c, s, s') {
      DeleteDestKeepsInv(c, s, s', w0);
    } else {
      RecordStepKeepsInv(c, s, s', w0);
    }
  }

  // The parallel path

  lemma ThreadAimsKeepsInv(c: Swap, s: State, s': State, w0: World, z: Side)
    requires Distinct(c) && Inv(c, s, w0) && s.exit == Inside && ThreadAims(c, s, z, s')
    ensures Inv(c, s', w0)
  {
    ThreadAimsStack(c, s, s', z);
    ThreadAimsSides(c, s, s', w0, z);
    ThreadRecords(c, s, s', w0);
  }

  lemma ThreadAimsSides(c: Swap, s: State, s': State, w0: World, z: Side)
    requires SideOk(c, s, w0, Local) && SideOk(c, s, w0, Remote) && ThreadAims(c, s, z, s')
    requires SameHeld(s.guards, s'.guards, c.local.vm) && SameHeld(s.guards, s'.guards, c.remote.vm)
    ensures SideOk(c, s', w0, Local) && SideOk(c, s', w0, Remote)
  {
    OtherSide(c, s, s', w0, Local);
    OtherSide(c, s, s', w0, Remote);
  }

  lemma ThreadAimsStack(c: Swap, s: State, s': State, z: Side)
    requires Stacked(c, s) && ThreadAims(c, s, z, s')
    ensures Stacked(c, s')
    ensures SameHeld(s.guards, s'.guards, c.local.vm) && SameHeld(s.guards, s'.guards, c.remote.vm)
  {
    var kind := ThreadOf(s.stage, z).n + 1;
    forall k | 0 <= k < 8
      ensures Shaped(c, s', k, s'.guards[k])
    {
      assert Shaped(c, s, k, s.guards[k]);
    }
    ShapedVm(c, s, GuardOf(kind, z));
    AimHolds(c, s.guards, kind, z, c.local.vm);
    AimHolds(c, s.guards, kind, z, c.remote.vm);
  }

  lemma ThreadFailsKeepsInv(c: Swap, s: State, s': State, w0: World, z: Side)
    requires Distinct(c) && Inv(c, s, w0) && s.exit == Inside && ThreadFails(s, z, s')
    ensures Inv(c, s', w0)
  {
    QuietStack(c, s, s');
    QuietSides(c, s, s', w0);
  }

  lemma ThreadMigratesKeepsInv(c: Swap, s: State, s': State, w0: World, z: Side)
    requires Distinct(c) && Inv(c, s, w0) && s.exit == Inside && ThreadMigrates(c, s, z, s')
    ensures Inv(c, s', w0)
  {
    ThreadMigratesSides(c, s, s', w0, z);
    ThreadRecords(c, s, s', w0);
  }

  lemma ThreadMigratesSides(c: Swap, s: State, s': State, w0: World, z: Side)
    requires Distinct(c) && Stacked(c, s) && SideOk(c, s, w0, Local) && SideOk(c, s, w0, Remote)
    requires ThreadMigrates(c, s, z, s')
    ensures Stacked(c, s') && SideOk(c, s', w0, Local) && SideOk(c, s', w0, Remote)
  {
    QuietStack(c, s, s');
    MovedSide(c, s, s', w0, z);
    OtherSide(c, s, s', w0, Other(z));
  }

  /** Migrations leave the snapshots alone. */
  lemma ThreadRecords(c: Swap, s: State, s': State, w0: World)
    requires SnapshotOk(c, s, w0) && s.stage.Parallel? && s'.stage.Parallel?
    requires s'.world.records == s.world.records && s'.world.saved == s.world.saved && s'.small == s.small
    ensures SnapshotOk(c, s', w0)
  {
  }

  lemma ThreadStepKeepsInv(c: Swap, s: State, s': State, w0: World, z: Side)
    requires Distinct(c) && Inv(c, s, w0) && s.exit == Inside && ThreadStep(c, s, z, s')
    ensures Inv(c, s', w0)
  {
    if ThreadMigrates(c, s, z, s') {
      ThreadMigratesKeepsInv(c, s, s', w0, z);
    } else if ThreadFails(s, z, s') {
      ThreadFailsKeepsInv(c, s, s', w0, z);
    } else {
      ThreadAimsKeepsInv(c, s, s', w0, z);
    }
  }

  lemma ScopeStepKeepsInv(c: Swap, s: State, s': State, w0: World)
    requires Distinct(c) && Inv(c, s, w0) && s.exit == Inside && ScopeStep(c, s, s')
    ensures Inv(c, s', w0)
  {
    if OpenGuard(c, s, s') {
      OpenGuardKeepsInv(c, s, s', w0);
    } else if ChoosePath(c, s, s') {
      ChoosePathKeepsInv(c, s, s', w0);
    } else {
      ExitKeepsInv(c, s, s', w0);
    }
  }

  lemma StepKeepsInv(c: Swap, s: State, s': State, w0: World)
    requires Distinct(c) && Ready(c, w0) && Inv(c, s, w0) && Next(c, s, s')
    ensures Inv(c, s', w0)
  {
    if ScopeStep(c, s, s') {
      ScopeStepKeepsInv(c, s, s', w0);
    } else if SnapshotStep(c, s, s') {
      SnapshotStepKeepsInv(c, s, s', w0);
    } else if ThreadStep(c, s, Local, s') {
      ThreadStepKeepsInv(c, s, s', w0, Local);
    } else {
      ThreadStepKeepsInv(c, s, s', w0, Remote);
    }
  }

  lemma InitialOk(c: Swap, w0: World)
    requires Distinct(c) && Ready(c, w0)
    ensures Inv(c, Initial(w0), w0)
  {
    InitialSide(c, w0, Local);
    InitialSide(c, w0, Remote);
    assert w0.records + {} == w0.records;
  }

  lemma InitialSide(c: Swap, w0: World, z: Side)
    requires ReadySide(c, w0, z)
    ensures SideOk(c, Initial(w0), w0, z)
  {
    var i0 := w0.active[Home(c, z)];
    assert i0.shmem + [] == i0.shmem;
  }

  lemma BehaviourLast(c: Swap, w0: World, ss: seq<State>)
    requires Behaviour(c, w0, ss) && |ss| > 1
    ensures Behaviour(c, w0, ss[..|ss| - 1]) && Next(c, ss[|ss| - 2], ss[|ss| - 1])
  {
    var n := |ss| - 2;
    assert Next(c, ss[n], ss[n + 1]);
  }

  lemma {:induction false} AlwaysInv(c: Swap, w0: World, ss: seq<State>)
    requires Distinct(c) && Ready(c, w0) && Behaviour(c, w0, ss)
    ensures Inv(c, ss[|ss| - 1], w0)
    decreases |ss|
  {
    if |ss| == 1 {
      InitialOk(c, w0);
    } else {
      BehaviourLast(c, w0, ss);
      AlwaysInv(c, w0, ss[..|ss| - 1]);
      StepKeepsInv(c, ss[|ss| - 2], ss[|ss| - 1], w0);
    }
  }

  // ---------------------------------------------------------------------------------------------
  // No machine is duplicated or lost
  // ---------------------------------------------------------------------------------------------

  /** The machine runs nowhere and no snapshot record leads to it. */
  ghost predicate Lost(c: Swap, w: World, z: Side) {
    && Home(c, z) !in w.active && Away(c, z) !in w.active
    && Home(c, z) !in w.records && Away(c, z) !in w.records
  }

  /**
   In every state of every run, whatever was thrown: a machine has at most one active copy; a
   machine without one has its contents on disk; and it is lost in one case only, when redefining
   its snapshot failed unnoticed and the record on the source was then deleted.
   */
  lemma SwapDuplicatesNothing(c: Swap, w0: World, ss: seq<State>, z: Side)
    requires Distinct(c) && Ready(c, w0) && Behaviour(c, w0, ss)
    ensures var s := ss[|ss| - 1];
            && OnlyAt(s.world, Of(c, z).vm, Copies(c, s, z)) && |Copies(c, s, z)| <= 1
            && (Copies(c, s, z) == {} ==> Of(c, z).vm in s.world.saved)
            && (Lost(c, s.world, z) <==> s.stage == Revert && z == s.small && !s.valid)
  {
    AlwaysInv(c, w0, ss);
    StateIsSafe(c, ss[|ss| - 1], w0, z);
  }

  lemma StateIsSafe(c: Swap, s: State, w0: World, z: Side)
    requires Ready(c, w0) && Inv(c, s, w0)
    ensures OnlyAt(s.world, Of(c, z).vm, Copies(c, s, z)) && |Copies(c, s, z)| <= 1
    ensures Copies(c, s, z) == {} ==> Of(c, z).vm in s.world.saved
    ensures Lost(c, s.world, z) <==> s.stage == Revert && z == s.small && !s.valid
  {
    assert SideOk(c, s, w0, z) && ReadySide(c, w0, z);
    LostOnlyIf(c, s, w0, z);
  }

  lemma LostOnlyIf(c: Swap, s: State, w0: World, z: Side)
    requires ReadySide(c, w0, z) && SideOk(c, s, w0, z) && SnapshotOk(c, s, w0)
    ensures Lost(c, s.world, z) <==> s.stage == Revert && z == s.small && !s.valid
  {
    var copies := Copies(c, s, z);
    assert Home(c, z) in s.world.active <==> Home(c, z) in copies;
    assert Away(c, z) in s.world.active <==> Away(c, z) in copies;
  }

  /** A complete snapshot swap: the machines have changed hosts and no snapshot is left. */
  lemma CompleteSwapExchanges(c: Swap, w0: World, ss: seq<State>)
    requires Distinct(c) && Ready(c, w0) && Behaviour(c, w0, ss)
    requires ss[|ss| - 1].stage == Complete
    ensures var w := ss[|ss| - 1].world;
            && ss[|ss| - 1].exit == ByReturn
            && OnlyAt(w, c.local.vm, {Away(c, Local)}) && OnlyAt(w, c.remote.vm, {Away(c, Remote)})
            && w.records == w0.records && w.saved == w0.saved
  {
    AlwaysInv(c, w0, ss);
    CompleteState(c, ss[|ss| - 1], w0);
  }

  lemma CompleteState(c: Swap, s: State, w0: World)
    requires Inv(c, s, w0) && s.stage == Complete
    ensures OnlyAt(s.world, c.local.vm, {Away(c, Local)}) && OnlyAt(s.world, c.remote.vm, {Away(c, Remote)})
    ensures s.world.records == w0.records && s.world.saved == w0.saved
    ensures s.exit == ByReturn
  {
  }

  // ---------------------------------------------------------------------------------------------
  // What leaving the scope restores
  // ---------------------------------------------------------------------------------------------

  /** The place where the machine runs. */
  function Copy(c: Swap, s: State, z: Side): Domain {
    if Where(s, z) == AtHome then Home(c, z) else Away(c, z)
  }

  /** The guards of vm1 still point to the source although it runs on the destination. */
  predicate Misaimed(s: State, z: Side) {
    s.stage == DeleteDest && z == s.small
  }

  lemma GuardsFollow(c: Swap, s: State, w0: World, z: Side)
    requires Distinct(c) && Inv(c, s, w0) && s.exit != Inside && Where(s, z) != OnDisk
    ensures !Misaimed(s, z) ==> Aimed(s.guards, Copy(c, s, z))
    ensures Misaimed(s, z) ==>
              forall k :: 0 <= k < |s.guards| && !s.guards[k].Pscom? ==> s.guards[k].domain != Copy(c, s, z)
  {
    var d := Copy(c, s, z);
    forall k | 0 <= k < |s.guards| && !s.guards[k].Pscom?
      ensures !Misaimed(s, z) && VmOf(s.guards[k]) == d.vm ==> s.guards[k].domain == d
      ensures Misaimed(s, z) ==> s.guards[k].domain != d
    {
      GuardFollows(c, s, z, k);
    }
  }

  lemma GuardFollows(c: Swap, s: State, z: Side, k: nat)
    requires Distinct(c) && Stacked(c, s) && ExitOk(s) && s.exit != Inside && Where(s, z) != OnDisk
    requires k < |s.guards| && !s.guards[k].Pscom?
    ensures !Misaimed(s, z) && VmOf(s.guards[k]) == Of(c, z).vm ==> s.guards[k].domain == Copy(c, s, z)
    ensures Misaimed(s, z) ==> s.guards[k].domain != Copy(c, s, z)
  {
    assert Shaped(c, s, k, s.guards[k]);
    assert Home(c, z) != Away(c, z);
  }

  lemma HoldsMap(c: Swap, s: State, w0: World, z: Side)
    requires Distinct(c) && Inv(c, s, w0) && |s.guards| == 8
    ensures Repins(s.guards, Of(c, z).vm) <==> Of(c, z).hasMap
  {
    forall k | 0 <= k < 8
      ensures Shaped(c, s, k, s.guards[k])
    {
    }
    var k := if z == Local then 6 else 7;
    assert s.guards[k] == Repin(Target(c, s, 3, z), Of(c, z).hasMap);
  }

  /** The machine has exactly the devices it had and runs. Which cpus it is pinned to is in `SwapRunState`. */
  ghost predicate Restored(w: World, d: Domain, i0: Instance) {
    d in w.active && !w.active[d].paused && w.active[d].pci == i0.pci && w.active[d].shmem == i0.shmem
  }

  /** The machine runs, with its PCI devices and with its shared memory as the guard hands it back. */
  ghost predicate Resumed(c: Swap, s: State, w: World, z: Side, i0: Instance) {
    var d := Copy(c, s, z);
    && d in w.active && !w.active[d].paused && w.active[d].pci == i0.pci
    && w.active[d].shmem == if |s.guards| > GuardOf(2, z) then AllRebuilt(i0.shmem) else i0.shmem
  }

  /** Whether the shared memory of the machine is safe: not taken at all, or plain. */
  predicate KeepsShmem(s: State, z: Side, i0: Instance) {
    |s.guards| <= GuardOf(2, z) || AllPlain(i0.shmem)
  }

  lemma DevicesComeBack(i: Instance, guards: seq<Guard>, z: Side, vm: string, i0: Instance, r: Restore)
    requires Conserved(i, guards, z, vm, i0) && i0.pci <= r.attached && r.shmem
    ensures i.pci + RestoredPci(guards, vm, r.attached) == i0.pci
    ensures i.shmem + Given(r.shmem, HeldShmem(guards, vm))
         == if |guards| > GuardOf(2, z) then AllRebuilt(i0.shmem) else i0.shmem
  {
    RestoredAll(guards, vm, r.attached);
    assert i.shmem + [] == i.shmem && [] + HeldShmem(guards, vm) == HeldShmem(guards, vm);
  }

  lemma RepinsIfPaused(c: Swap, s: State, w0: World, z: Side)
    requires Distinct(c) && Inv(c, s, w0) && Where(s, z) != OnDisk && Content(c, s, z).paused
    ensures Repins(s.guards, Of(c, z).vm)
  {
    HoldsMap(c, s, w0, z);
  }

  /** A machine that all its guards point to. */
  lemma AimedIsResumed(c: Swap, s: State, w0: World, z: Side, env: string -> Restore)
    requires Distinct(c) && Inv(c, s, w0) && s.exit != Inside && Where(s, z) != OnDisk && !Misaimed(s, z)
    requires Works(env(Of(c, z).vm), w0.active[Home(c, z)].pci)
    ensures Resumed(c, s, Unwind(s.guards, s.world, s.exit == ByThrow, env).0, z, w0.active[Home(c, z)])
  {
    var d, vm := Copy(c, s, z), Of(c, z).vm;
    GuardsFollow(c, s, w0, z);
    UnwindReattaches(s.guards, s.world, s.exit == ByThrow, env, d);
    UnwindResumes(s.guards, s.world, s.exit == ByThrow, env, d);
    DevicesComeBack(s.world.active[d], s.guards, z, vm, w0.active[Home(c, z)], env(vm));
    if s.world.active[d].paused {
      RepinsIfPaused(c, s, w0, z);
    }
  }

  lemma ResumedIsRestoredIff(c: Swap, s: State, w: World, z: Side, i0: Instance)
    requires Resumed(c, s, w, z, i0)
    ensures Restored(w, Copy(c, s, z), i0) <==> KeepsShmem(s, z, i0)
  {
    RebuiltIsSameIff(i0.shmem);
  }

  /**
   Leaving the scope of a swap after any run, thrown out of it or not, when the restoring calls of
   the machine work. A machine that its guards point to runs again, with its PCI devices; it has
   exactly the devices it had if and only if its shared memory was not taken or is plain. One
   exception: if deleting the snapshot throws after the revert, the guards of the reverted machine
   still point to the host it left, and it is restored only if there is nothing to restore.
   */
  lemma SwapRestores(c: Swap, w0: World, ss: seq<State>, z: Side, env: string -> Restore)
    requires Distinct(c) && Ready(c, w0) && Behaviour(c, w0, ss) && ss[|ss| - 1].exit != Inside
    requires Home(c, z) in w0.active && Works(env(Of(c, z).vm), w0.active[Home(c, z)].pci)
    ensures RestoresExactly(c, ss[|ss| - 1], w0.active[Home(c, z)], z, env)
  {
    AlwaysInv(c, w0, ss);
    ExitRestores(c, ss[|ss| - 1], w0, z, env);
  }

  ghost predicate RestoresExactly(c: Swap, s: State, i0: Instance, z: Side, env: string -> Restore) {
    var w' := Unwind(s.guards, s.world, s.exit == ByThrow, env).0;
    && OnlyAt(w', Of(c, z).vm, Copies(c, s, z))
    && (Where(s, z) != OnDisk ==>
          && Copies(c, s, z) == {Copy(c, s, z)}
          && (!Misaimed(s, z) ==> Resumed(c, s, w', z, i0))
          && (Restored(w', Copy(c, s, z), i0)
              <==> if Misaimed(s, z) then i0.pci == multiset{} && i0.shmem == [] && !Of(c, z).hasMap
                   else KeepsShmem(s, z, i0)))
  }

  lemma ExitRestores(c: Swap, s: State, w0: World, z: Side, env: string -> Restore)
    requires Distinct(c) && Inv(c, s, w0) && s.exit != Inside
    requires Works(env(Of(c, z).vm), w0.active[Home(c, z)].pci)
    ensures RestoresExactly(c, s, w0.active[Home(c, z)], z, env)
  {
    UnwindMovesNothing(s.guards, s.world, s.exit == ByThrow, env);
    if Where(s, z) != OnDisk {
      if Misaimed(s, z) {
        MisaimedStays(c, s, w0, z, env);
      } else {
        AimedIsResumed(c, s, w0, z, env);
        ResumedIsRestoredIff(c, s, Unwind(s.guards, s.world, s.exit == ByThrow, env).0, z, w0.active[Home(c, z)]);
      }
    }
  }

  /** A machine whose guards have all been constructed has given up all its devices. */
  lemma MisaimedStays(c: Swap, s: State, w0: World, z: Side, env: string -> Restore)
    requires Distinct(c) && Inv(c, s, w0) && s.exit != Inside && Misaimed(s, z)
    ensures var d, w' := Away(c, z), Unwind(s.guards, s.world, s.exit == ByThrow, env).0;
            && d in w'.active && w'.active[d].paused == Of(c, z).hasMap
            && w'.active[d].pci == multiset{} && w'.active[d].shmem == []
  {
    GuardsFollow(c, s, w0, z);
    UnwindLeavesOthers(s.guards, s.world, s.exit == ByThrow, env, Away(c, z));
  }

  // ---------------------------------------------------------------------------------------------
  // Memory
  // ---------------------------------------------------------------------------------------------

  function UsedBy(c: Swap, w: World, z: Side, host: string): nat {
    if Domain(Of(c, z).vm, host) in w.active then Of(c, z).size else 0
  }

  /** Free memory on the host of side z, given what was free there at the start. */
  function FreeAt(c: Swap, w: World, free: Side -> nat, z: Side): int {
    var host := Of(c, z).home;
    free(z) + Of(c, z).size - UsedBy(c, w, Local, host) - UsedBy(c, w, Remote, host)
  }

  /**
   The machine of lesser size is the one snapshotted. So whenever the migration of the other one
   fits, free memory never becomes negative, and the later revert finds room.
   */
  lemma RevertAlwaysFits(c: Swap, w0: World, ss: seq<State>, free: Side -> nat)
    requires Distinct(c) && Ready(c, w0) && Behaviour(c, w0, ss) && !ss[|ss| - 1].stage.Parallel?
    requires var x := SmallSide(c); Of(c, Other(x)).size <= free(x) + Of(c, x).size
    ensures var s := ss[|ss| - 1];
            && FreeAt(c, s.world, free, Local) >= 0 && FreeAt(c, s.world, free, Remote) >= 0
            && (s.stage == Revert ==> Of(c, s.small).size <= FreeAt(c, s.world, free, Other(s.small)))
  {
    AlwaysInv(c, w0, ss);
    MemoryAt(c, ss[|ss| - 1], free);
  }

  lemma MemoryAt(c: Swap, s: State, free: Side -> nat)
    requires Distinct(c) && !s.stage.Parallel?
    requires s.stage != Opening ==> s.small == SmallSide(c)
    requires OnlyAt(s.world, c.local.vm, Copies(c, s, Local)) && OnlyAt(s.world, c.remote.vm, Copies(c, s, Remote))
    requires var x := SmallSide(c); Of(c, Other(x)).size <= free(x) + Of(c, x).size
    ensures FreeAt(c, s.world, free, Local) >= 0 && FreeAt(c, s.world, free, Remote) >= 0
    ensures s.stage == Revert ==> Of(c, s.small).size <= FreeAt(c, s.world, free, Other(s.small))
  {
  }
}
