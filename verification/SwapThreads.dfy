/** The parallel path of a swap: what its two threads do does not depend on how they interleave. */
module SwapThreads {
  import opened Guards
  import opened Migration
  import opened SwapMigration

  /** How many guards a thread has pointed to the destination, and whether its machine is there. */
  function Aims(t: Thread): nat {
    match t case Migrating | Failed => 0 case Aiming(n) => n case Moved => 3
  }

  predicate HasMoved(t: Thread) {
    t.Aiming? || t == Moved
  }

  function MovedIf(c: Swap, w: World, z: Side, moved: bool): World
    requires Home(c, z) in w.active
  {
    if moved then Move(w, Home(c, z), Away(c, z), Of(c, z).hasMap) else w
  }

  /** The cluster as the two threads leave it, the local one first. */
  function Moves(c: Swap, w: World, stage: Stage): World
    requires stage.Parallel? && Distinct(c) && Home(c, Local) in w.active && Home(c, Remote) in w.active
  {
    MovedIf(c, MovedIf(c, w, Local, HasMoved(stage.local)), Remote, HasMoved(stage.remote))
  }

  function Aimings(c: Swap, guards: seq<Guard>, stage: Stage): (r: seq<Guard>)
    requires stage.Parallel? && |guards| == 8
    ensures |r| == 8
  {
    seq(8, k requires 0 <= k < 8 =>
      if 1 <= k / 2 <= Aims(ThreadOf(stage, SideOf(k))) then Retarget(guards[k], Away(c, SideOf(k))) else guards[k])
  }

  /** What two threads have made of the state in which all guards were in place. */
  ghost predicate Follows(c: Swap, base: State, s: State) {
    && base.stage == Opening && base.exit == Inside && |base.guards| == 8
    && Home(c, Local) in base.world.active && Home(c, Remote) in base.world.active
    && s.stage.Parallel? && Distinct(c)
    && s.world == Moves(c, base.world, s.stage) && s.guards == Aimings(c, base.guards, s.stage)
    && s.small == base.small && s.valid == base.valid
  }

  lemma MovesCommute(c: Swap, w: World)
    requires Distinct(c) && Home(c, Local) in w.active && Home(c, Remote) in w.active
    ensures MovedIf(c, MovedIf(c, w, Remote, true), Local, true) == MovedIf(c, MovedIf(c, w, Local, true), Remote, true)
  {
    var a := MovedIf(c, MovedIf(c, w, Remote, true), Local, true);
    var b := MovedIf(c, MovedIf(c, w, Local, true), Remote, true);
    assert a.active == b.active;
  }

  lemma MigratesFollows(c: Swap, base: State, s: State, s': State, z: Side)
    requires Follows(c, base, s) && ThreadMigrates(c, s, z, s')
    ensures Follows(c, base, s')
  {
    MovesCommute(c, base.world);
    assert Aimings(c, base.guards, s'.stage) == Aimings(c, base.guards, s.stage);
  }

  lemma AimsFollows(c: Swap, base: State, s: State, s': State, z: Side)
    requires Follows(c, base, s) && ThreadAims(c, s, z, s')
    ensures Follows(c, base, s')
  {
    assert s'.guards == Aimings(c, base.guards, s'.stage);
  }

  lemma FailsFollows(c: Swap, base: State, s: State, s': State, z: Side)
    requires Follows(c, base, s) && ThreadFails(s, z, s')
    ensures Follows(c, base, s')
  {
    assert Aimings(c, base.guards, s'.stage) == Aimings(c, base.guards, s.stage);
  }

  lemma ThreadFollows(c: Swap, base: State, s: State, s': State, z: Side)
    requires Follows(c, base, s) && ThreadStep(c, s, z, s')
    ensures Follows(c, base, s')
  {
    if ThreadMigrates(c, s, z, s') {
      MigratesFollows(c, base, s, s', z);
    } else if ThreadAims(c, s, z, s') {
      AimsFollows(c, base, s, s', z);
    } else {
      FailsFollows(c, base, s, s', z);
    }
  }

  lemma OnlyGuardsOpen(c: Swap, s: State, s': State)
    requires Next(c, s, s') && s'.stage == Opening && s'.exit == Inside
    ensures s.stage == Opening && OpenGuard(c, s, s') && |s'.guards| == |s.guards| + 1
  {
    assert !ThreadStep(c, s, Local, s') && !ThreadStep(c, s, Remote, s');
    assert !SnapshotStep(c, s, s');
  }

  lemma OnlyChoiceForks(c: Swap, s: State, s': State)
    requires Next(c, s, s') && s.stage == Opening && s'.stage.Parallel?
    ensures |s.guards| == 8 && s' == s.(stage := Parallel(Migrating, Migrating)) && s.exit == Inside
  {
    assert !SnapshotStep(c, s, s');
    assert ChoosePath(c, s, s');
  }

  /** Guards are put in place one per step, so nothing else happens in the first eight. */
  lemma {:induction false} OpeningLength(c: Swap, w0: World, ss: seq<State>)
    requires Behaviour(c, w0, ss) && ss[|ss| - 1].stage == Opening && ss[|ss| - 1].exit == Inside
    ensures |ss[|ss| - 1].guards| == |ss| - 1
    ensures |ss| > 1 ==> ss[|ss| - 2].stage == Opening && OpenGuard(c, ss[|ss| - 2], ss[|ss| - 1])
    decreases |ss|
  {
    if |ss| > 1 {
      BehaviourLast(c, w0, ss);
      OnlyGuardsOpen(c, ss[|ss| - 2], ss[|ss| - 1]);
      OpeningLength(c, w0, ss[..|ss| - 1]);
    }
  }

  lemma {:induction false} OpeningIsDetermined(c: Swap, w0: World, ss: seq<State>, tt: seq<State>)
    requires Behaviour(c, w0, ss) && ss[|ss| - 1].stage == Opening && ss[|ss| - 1].exit == Inside
    requires Behaviour(c, w0, tt) && tt[|tt| - 1].stage == Opening && tt[|tt| - 1].exit == Inside
    requires |ss| == |tt|
    ensures ss[|ss| - 1] == tt[|tt| - 1]
    decreases |ss|
  {
    OpeningLength(c, w0, ss);
    OpeningLength(c, w0, tt);
    if |ss| > 1 {
      BehaviourLast(c, w0, ss);
      BehaviourLast(c, w0, tt);
      OpeningIsDetermined(c, w0, ss[..|ss| - 1], tt[..|tt| - 1]);
    }
  }

  lemma BothAtHome(c: Swap, s: State, w0: World)
    requires Inv(c, s, w0) && s.stage == Opening
    ensures Home(c, Local) in s.world.active && Home(c, Remote) in s.world.active
  {
  }

  lemma PathChosen(c: Swap, w0: World, ss: seq<State>)
    requires Distinct(c) && Ready(c, w0) && Behaviour(c, w0, ss) && |ss| > 1
    requires ss[|ss| - 2].stage == Opening && ss[|ss| - 1].stage.Parallel?
    ensures |ss| == 10 && Follows(c, ss[8], ss[9])
  {
    BehaviourLast(c, w0, ss);
    OnlyChoiceForks(c, ss[|ss| - 2], ss[|ss| - 1]);
    OpeningLength(c, w0, ss[..|ss| - 1]);
    AlwaysInv(c, w0, ss[..|ss| - 1]);
    BothAtHome(c, ss[8], w0);
    assert ss[8].guards == Aimings(c, ss[8].guards, ss[9].stage);
  }

  lemma {:induction false} ParallelFollows(c: Swap, w0: World, ss: seq<State>)
    requires Distinct(c) && Ready(c, w0) && Behaviour(c, w0, ss) && ss[|ss| - 1].stage.Parallel?
    ensures |ss| > 8 && Follows(c, ss[8], ss[|ss| - 1])
    decreases |ss|
  {
    BehaviourLast(c, w0, ss);
    var s, s' := ss[|ss| - 2], ss[|ss| - 1];
    if s.stage == Opening {
      PathChosen(c, w0, ss);
    } else {
      ParallelFollows(c, w0, ss[..|ss| - 1]);
      if ThreadStep(c, s, Local, s') {
        ThreadFollows(c, ss[8], s, s', Local);
      } else if ThreadStep(c, s, Remote, s') {
        ThreadFollows(c, ss[8], s, s', Remote);
      }
    }
  }

  /**
   Interleaving does not matter: in any two runs in which the two threads have come equally far, with
   the same success or failure each, the whole cluster and all guards are the same.
   */
  lemma InterleavingDoesNotMatter(c: Swap, w0: World, ss: seq<State>, tt: seq<State>)
    requires Distinct(c) && Ready(c, w0) && Behaviour(c, w0, ss) && Behaviour(c, w0, tt)
    requires ss[|ss| - 1].stage.Parallel? && tt[|tt| - 1].stage == ss[|ss| - 1].stage
    ensures ss[|ss| - 1] == tt[|tt| - 1].(exit := ss[|ss| - 1].exit)
  {
    ParallelFollows(c, w0, ss);
    ParallelFollows(c, w0, tt);
    OpeningIsDetermined(c, w0, ss[..9], tt[..9]);
    assert ss[8] == tt[8];
  }

  /**
   What the threads throw never leaves the parallel path: its statements always end normally. Each
   machine is then on exactly one host, the other one just if its own thread succeeded, and its three
   guards point to it there.
   */
  lemma ParallelOutcome(c: Swap, w0: World, ss: seq<State>, z: Side)
    requires Distinct(c) && Ready(c, w0) && Behaviour(c, w0, ss)
    requires ss[|ss| - 1].stage.Parallel? && ss[|ss| - 1].exit != Inside
    ensures var s := ss[|ss| - 1];
            var d := if ThreadOf(s.stage, z) == Moved then Away(c, z) else Home(c, z);
            && s.exit == ByReturn && OnlyAt(s.world, Of(c, z).vm, {d})
            && |s.guards| == 8
            && forall kind :: 1 <= kind <= 3 ==>
                 !s.guards[GuardOf(kind, z)].Pscom? && s.guards[GuardOf(kind, z)].domain == d
  {
    AlwaysInv(c, w0, ss);
    var s := ss[|ss| - 1];
    forall kind | 1 <= kind <= 3
      ensures !s.guards[GuardOf(kind, z)].Pscom?
      ensures s.guards[GuardOf(kind, z)].domain == if ThreadOf(s.stage, z) == Moved then Away(c, z) else Home(c, z)
    {
      assert Shaped(c, s, GuardOf(kind, z), s.guards[GuardOf(kind, z)]);
    }
  }
}
