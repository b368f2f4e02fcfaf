/** What becomes of suspended processes and of subscriptions at every end of a swap migration. */
module SwapPscom {
  import opened Guards
  import opened Migration
  import opened SwapMigration

  function VmAt(c: Swap, z: Side): string {
    Of(c, z).vm
  }

  /** The machine is suspended and subscribed to just if these hold. */
  ghost predicate Status(w: World, vm: string, suspended: bool, subscribed: bool) {
    (vm in w.suspended <==> suspended) && (vm in w.subscribed <==> subscribed)
  }

  ghost predicate SameStatus(w: World, w': World, vm: string) {
    Status(w', vm, vm in w.suspended, vm in w.subscribed)
  }

  /** Whether the pscom guard of the machine has been constructed. */
  predicate Opened(s: State, z: Side) {
    |s.guards| > GuardOf(0, z)
  }

  /** While the body runs: what a constructed guard did stays, and nothing else happens. */
  ghost predicate BodyStatus(c: Swap, s: State, w0: World, z: Side) {
    var asked := Opened(s, z) && Of(c, z).expected > 0;
    Status(s.world, VmAt(c, z), asked, VmAt(c, z) in w0.subscribed || asked)
  }

  /** Steps that neither construct a pscom guard nor fail to. */
  lemma OtherStepsKeepStatus(c: Swap, s: State, s': State, vm: string)
    requires Next(c, s, s') && !(OpenGuard(c, s, s') && |s.guards| < 2) && !PscomFails(c, s, s')
    ensures SameStatus(s.world, s'.world, vm)
  {
  }

  lemma OpenKeepsStatus(c: Swap, s: State, s': State, w0: World, z: Side)
    requires Distinct(c) && OpenGuard(c, s, s') && |s.guards| < 2 && BodyStatus(c, s, w0, z)
    ensures BodyStatus(c, s', w0, z)
  {
  }

  lemma OtherStepsKeepOpened(c: Swap, s: State, s': State, z: Side)
    requires Next(c, s, s') && !(OpenGuard(c, s, s') && |s.guards| < 2)
    ensures Opened(s', z) <==> Opened(s, z)
  {
    assert |s'.guards| == |s.guards| || OpenGuard(c, s, s');
  }

  lemma {:induction false} BodyKeepsStatus(c: Swap, w0: World, ss: seq<State>, z: Side)
    requires Distinct(c) && Ready(c, w0) && Behaviour(c, w0, ss)
    requires |ss| > 1 ==> !PscomFails(c, ss[|ss| - 2], ss[|ss| - 1])
    ensures BodyStatus(c, ss[|ss| - 1], w0, z)
    decreases |ss|
  {
    if |ss| > 1 {
      var s, s' := ss[|ss| - 2], ss[|ss| - 1];
      BehaviourLast(c, w0, ss);
      InsideDidNotFail(c, w0, ss);
      BodyKeepsStatus(c, w0, ss[..|ss| - 1], z);
      if OpenGuard(c, s, s') && |s.guards| < 2 {
        OpenKeepsStatus(c, s, s', w0, z);
      } else {
        OtherStepsKeepOpened(c, s, s', z);
        OtherStepsKeepStatus(c, s, s', VmAt(c, z));
      }
    }
  }

  /** A failing constructor ends the body, so it can only be the last step. */
  lemma InsideDidNotFail(c: Swap, w0: World, ss: seq<State>)
    requires Behaviour(c, w0, ss) && |ss| > 1
    ensures |ss| > 2 ==> !PscomFails(c, ss[|ss| - 3], ss[|ss| - 2])
  {
    BehaviourLast(c, w0, ss);
    assert ss[|ss| - 2].exit == Inside;
  }

  lemma GuardHeld(c: Swap, s: State, z: Side)
    requires Distinct(c) && Stacked(c, s)
    ensures HoldsPscom(s.guards, VmAt(c, z)) <==> Opened(s, z) && Of(c, z).expected > 0
  {
    forall k | 0 <= k < |s.guards|
      ensures Shaped(c, s, k, s.guards[k])
    {
    }
    if Opened(s, z) {
      assert s.guards[GuardOf(0, z)] == Pscom(VmAt(c, z), Of(c, z).expected);
    }
  }

  /** The last step is the constructor of this machine's pscom guard, which throws after what o says. */
  ghost predicate FailedWith(c: Swap, ss: seq<State>, z: Side, o: PscomOpen) {
    |ss| > 1 && |ss[|ss| - 2].guards| == GuardOf(0, z) && PscomFailsWith(c, ss[|ss| - 2], o, ss[|ss| - 1])
  }

  /** If the last step is a failing constructor, o says what it did. */
  ghost predicate Explains(c: Swap, ss: seq<State>, o: PscomOpen) {
    |ss| > 1 && PscomFails(c, ss[|ss| - 2], ss[|ss| - 1]) ==> PscomFailsWith(c, ss[|ss| - 2], o, ss[|ss| - 1])
  }

  lemma FailingStatus(c: Swap, s: State, s': State, w0: World, z: Side, o: PscomOpen)
    requires Distinct(c) && PscomFailsWith(c, s, o, s') && BodyStatus(c, s, w0, z)
    ensures var p := Of(c, z);
            var asked := Opened(s', z) && p.expected > 0;
            var failed := |s.guards| == GuardOf(0, z) && p.expected > 0;
            && !(asked && failed)
            && Status(s'.world, p.vm, asked || (failed && o.connected && o.send),
                      p.vm in w0.subscribed || asked || (failed && o.connected))
  {
    assert Of(c, SideOf(|s.guards|)).vm == VmAt(c, z) <==> |s.guards| == GuardOf(0, z);
  }

  lemma BodyEnd(c: Swap, w0: World, ss: seq<State>, z: Side, o: PscomOpen)
    requires Distinct(c) && Ready(c, w0) && Behaviour(c, w0, ss) && Explains(c, ss, o)
    ensures var s, p := ss[|ss| - 1], Of(c, z);
            var asked := Opened(s, z) && p.expected > 0;
            var failed := FailedWith(c, ss, z, o) && p.expected > 0;
            && !(asked && failed)
            && Status(s.world, p.vm, asked || (failed && o.connected && o.send),
                      p.vm in w0.subscribed || asked || (failed && o.connected))
  {
    if |ss| > 1 && PscomFails(c, ss[|ss| - 2], ss[|ss| - 1]) {
      BehaviourLast(c, w0, ss);
      InsideDidNotFail(c, w0, ss);
      BodyKeepsStatus(c, w0, ss[..|ss| - 1], z);
      FailingStatus(c, ss[|ss| - 2], ss[|ss| - 1], w0, z, o);
    } else {
      BodyKeepsStatus(c, w0, ss, z);
      assert !FailedWith(c, ss, z, o);
    }
  }

  /**
   Every end of a swap, also in the middle of the constructors: processes stay suspended if and only
   if they were asked to and the request to resume cannot be sent, or their own constructor threw
   after sending its request. A subscription that was not there before is left over if and only if
   that constructor threw after subscribing.
   */
  lemma SwapPscomAtExit(c: Swap, w0: World, ss: seq<State>, z: Side, o: PscomOpen, env: string -> Restore)
    requires Distinct(c) && Ready(c, w0) && Behaviour(c, w0, ss) && Explains(c, ss, o)
    requires ss[|ss| - 1].exit != Inside
    ensures var s, p := ss[|ss| - 1], Of(c, z);
            var asked := Opened(s, z) && p.expected > 0;
            var failed := FailedWith(c, ss, z, o) && p.expected > 0;
            Status(Unwind(s.guards, s.world, s.exit == ByThrow, env).0, p.vm,
                   if asked then !env(p.vm).send else failed && o.connected && o.send,
                   !asked && (p.vm in w0.subscribed || (failed && o.connected)))
  {
    var s := ss[|ss| - 1];
    AlwaysInv(c, w0, ss);
    BodyEnd(c, w0, ss, z, o);
    GuardHeld(c, s, z);
    UnwindResumesPscom(s.guards, s.world, s.exit == ByThrow, env, VmAt(c, z));
  }
}
