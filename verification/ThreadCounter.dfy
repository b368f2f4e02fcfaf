/**
 The monitor that lets the task handler wait for its detached threads: a counter under a mutex and
 one condition variable, signalled with notify_one when the counter reaches zero.
 */
module ThreadCounter {

  /** A thread in wait_for_threads_to_finish. */
  datatype Waiter = Outside | Asleep | Woken | Back

  /** `spawned` threads have not constructed their counter yet; `live` ones hold it. */
  datatype State = State(spawned: set<nat>, live: set<nat>, count: nat, waiters: seq<Waiter>)

  function Start(waiters: nat): State {
    State({}, {}, 0, seq(waiters, _ => Outside))
  }

  ghost predicate Spawn(s: State, t: nat, s': State) {
    t !in s.spawned && t !in s.live && s' == s.(spawned := s.spawned + {t})
  }

  ghost predicate Construct(s: State, t: nat, s': State) {
    t in s.spawned && s' == s.(spawned := s.spawned - {t}, live := s.live + {t}, count := s.count + 1)
  }

  /** notify_one wakes one sleeping waiter, if there is one. */
  ghost predicate Notified(waiters: seq<Waiter>, waiters': seq<Waiter>) {
    if exists i :: 0 <= i < |waiters| && waiters[i] == Asleep
    then exists i :: 0 <= i < |waiters| && waiters[i] == Asleep && waiters' == waiters[i := Woken]
    else waiters' == waiters
  }

  ghost predicate Destroy(s: State, t: nat, s': State) {
    && t in s.live && s.count > 0
    && s'.spawned == s.spawned && s'.live == s.live - {t} && s'.count == s.count - 1
    && if s'.count == 0 then Notified(s.waiters, s'.waiters) else s'.waiters == s.waiters
  }

  /** Entering the wait, and waking from it with or without a notification: the loop looks again. */
  ghost predicate Look(s: State, i: nat, s': State) {
    && i < |s.waiters| && s.waiters[i] != Back
    && s' == s.(waiters := s.waiters[i := if s.count == 0 then Back else Asleep])
  }

  ghost predicate Next(s: State, k: nat, s': State) {
    Spawn(s, k, s') || Construct(s, k, s') || Destroy(s, k, s') || Look(s, k, s')
  }

  /** `ks` names the thread or waiter of every step. */
  ghost predicate Behaviour(ss: seq<State>, ks: seq<nat>, waiters: nat) {
    && |ss| == |ks| + 1 && ss[0] == Start(waiters)
    && forall i :: 0 <= i < |ks| ==> Next(ss[i], ks[i], ss[i + 1])
  }

  /** A notification is under way to some waiter. */
  ghost predicate Pending(s: State) {
    exists i :: 0 <= i < |s.waiters| && s.waiters[i] == Woken
  }

  /** A waiter sleeps although nothing is left to wait for, and nobody is going to wake it. */
  ghost predicate WakeUpLost(s: State) {
    && s.live == {} && !Pending(s)
    && exists i :: 0 <= i < |s.waiters| && s.waiters[i] == Asleep
  }

  ghost predicate Inv(s: State) {
    && s.count == |s.live| && s.spawned !! s.live
    && (|s.waiters| <= 1 ==> forall i :: 0 <= i < |s.waiters| && s.waiters[i] == Asleep ==> s.count > 0)
  }

  lemma StepKeepsInv(s: State, k: nat, s': State)
    requires Inv(s) && Next(s, k, s')
    ensures Inv(s') && |s'.waiters| == |s.waiters|
  {
    if Destroy(s, k, s') && s'.count == 0 {
      if i :| 0 <= i < |s.waiters| && s.waiters[i] == Asleep {
        assert Notified(s.waiters, s'.waiters);
      }
    }
  }

  /** The counter counts the live counters in every reachable state. */
  lemma {:induction false} CountIsLive(ss: seq<State>, ks: seq<nat>, waiters: nat)
    requires Behaviour(ss, ks, waiters)
    ensures Inv(ss[|ks|]) && |ss[|ks|].waiters| == waiters
    decreases |ks|
  {
    if |ks| > 0 {
      var n := |ks| - 1;
      CountIsLive(ss[..n + 1], ks[..n], waiters);
      assert Next(ss[n], ks[n], ss[n + 1]);
      StepKeepsInv(ss[n], ks[n], ss[n + 1]);
    }
  }

  /**
   A waiter goes back only when no counter is live. The threads that have been spawned but have not
   constructed their counter are not waited for.
   */
  lemma WaiterLeavesIdle(ss: seq<State>, ks: seq<nat>, waiters: nat, i: nat)
    requires Behaviour(ss, ks, waiters) && |ks| > 0
    requires i < waiters && |ss[|ks| - 1].waiters| == |ss[|ks|].waiters| == waiters
    requires ss[|ks| - 1].waiters[i] != Back && ss[|ks|].waiters[i] == Back
    ensures ss[|ks|].live == {} && ss[|ks|].count == 0
  {
    var n := |ks| - 1;
    CountIsLive(ss[..n + 1], ks[..n], waiters);
    assert Next(ss[n], ks[n], ss[n + 1]);
    assert |ss[n].live| == 0;
  }

  // ---------------------------------------------------------------------------------------------
  // Which threads are waited for
  // ---------------------------------------------------------------------------------------------

  ghost predicate SpawnedAt(ss: seq<State>, ks: seq<nat>, p: nat) {
    p + 1 < |ss| && p < |ks| && Spawn(ss[p], ks[p], ss[p + 1])
  }

  ghost predicate ConstructsAt(ss: seq<State>, t: nat, c: nat) {
    c + 1 < |ss| && Construct(ss[c], t, ss[c + 1])
  }

  ghost predicate DestroysAt(ss: seq<State>, t: nat, d: nat) {
    d + 1 < |ss| && Destroy(ss[d], t, ss[d + 1])
  }

  /** After step p and before step m, thread t constructs its counter. */
  ghost predicate ConstructsIn(ss: seq<State>, t: nat, p: nat, m: nat) {
    exists c: nat :: p < c < m && ConstructsAt(ss, t, c)
  }

  /** After step p and before step m, thread t destroys its counter. */
  ghost predicate DestroysIn(ss: seq<State>, t: nat, p: nat, m: nat) {
    exists d: nat :: p < d < m && DestroysAt(ss, t, d)
  }

  /** A thread that becomes live has constructed its counter. */
  lemma {:induction false} LiveWasConstructed(ss: seq<State>, ks: seq<nat>, waiters: nat, t: nat, p: nat, m: nat)
    requires Behaviour(ss, ks, waiters) && p < m <= |ks| && t !in ss[p + 1].live && t in ss[m].live
    ensures ConstructsIn(ss, t, p, m)
    decreases m
  {
    assert Next(ss[m - 1], ks[m - 1], ss[m]);
    if t in ss[m - 1].live {
      LiveWasConstructed(ss, ks, waiters, t, p, m - 1);
    } else {
      assert ConstructsAt(ss, t, m - 1);
    }
  }

  /** A thread that ceases to be live has destroyed its counter. */
  lemma {:induction false} DeadWasDestroyed(ss: seq<State>, ks: seq<nat>, waiters: nat, t: nat, c: nat, m: nat)
    requires Behaviour(ss, ks, waiters) && c < m <= |ks| && t in ss[c + 1].live && t !in ss[m].live
    ensures DestroysIn(ss, t, c, m)
    decreases m
  {
    assert Next(ss[m - 1], ks[m - 1], ss[m]);
    if t !in ss[m - 1].live {
      DeadWasDestroyed(ss, ks, waiters, t, c, m - 1);
    } else {
      assert DestroysAt(ss, t, m - 1);
    }
  }

  /** Waiter i goes back in the last step. */
  ghost predicate GoesBack(ss: seq<State>, ks: seq<nat>, waiters: nat, i: nat) {
    && Behaviour(ss, ks, waiters) && |ks| > 0
    && i < waiters && |ss[|ks| - 1].waiters| == |ss[|ks|].waiters| == waiters
    && ss[|ks| - 1].waiters[i] != Back && ss[|ks|].waiters[i] == Back
  }

  lemma EndedHasConstructed(ss: seq<State>, ks: seq<nat>, waiters: nat, p: nat)
    requires Behaviour(ss, ks, waiters) && SpawnedAt(ss, ks, p) && DestroysIn(ss, ks[p], p, |ks|)
    ensures ConstructsIn(ss, ks[p], p, |ks|)
  {
    var t := ks[p];
    var d: nat :| p < d < |ks| && DestroysAt(ss, t, d);
    assert t !in ss[p + 1].live;
    LiveWasConstructed(ss, ks, waiters, t, p, d);
    var c: nat :| p < c < d && ConstructsAt(ss, t, c);
    assert c < |ks|;
  }

  lemma ConstructedHasEnded(ss: seq<State>, ks: seq<nat>, waiters: nat, t: nat, p: nat)
    requires Behaviour(ss, ks, waiters) && ss[|ks|].live == {} && ConstructsIn(ss, t, p, |ks|)
    ensures DestroysIn(ss, t, p, |ks|)
  {
    var c: nat :| p < c < |ks| && ConstructsAt(ss, t, c);
    assert t in ss[c + 1].live;
    DeadWasDestroyed(ss, ks, waiters, t, c, |ks|);
    var d: nat :| c < d < |ks| && DestroysAt(ss, t, d);
    assert p < d;
  }

  /** Of one thread: when a waiter goes back it has ended exactly if it had constructed its counter. */
  lemma ThreadHasEndedIff(ss: seq<State>, ks: seq<nat>, waiters: nat, i: nat, p: nat)
    requires GoesBack(ss, ks, waiters, i) && SpawnedAt(ss, ks, p)
    ensures DestroysIn(ss, ks[p], p, |ks|) <==> ConstructsIn(ss, ks[p], p, |ks|)
  {
    WaiterLeavesIdle(ss, ks, waiters, i);
    if DestroysIn(ss, ks[p], p, |ks|) {
      EndedHasConstructed(ss, ks, waiters, p);
    }
    if ConstructsIn(ss, ks[p], p, |ks|) {
      ConstructedHasEnded(ss, ks, waiters, ks[p], p);
    }
  }

  /**
   What the wait waits for: when a waiter goes back, all threads spawned so far have ended if and only
   if all of them had constructed their counter by then. The counter is constructed in the spawned
   thread, so nothing makes sure of that.
   */
  lemma AllEndedIffAllConstructed(ss: seq<State>, ks: seq<nat>, waiters: nat, i: nat)
    requires GoesBack(ss, ks, waiters, i)
    ensures (forall p: nat :: SpawnedAt(ss, ks, p) ==> DestroysIn(ss, ks[p], p, |ks|))
       <==> (forall p: nat :: SpawnedAt(ss, ks, p) ==> ConstructsIn(ss, ks[p], p, |ks|))
  {
    forall p: nat | SpawnedAt(ss, ks, p)
      ensures DestroysIn(ss, ks[p], p, |ks|) <==> ConstructsIn(ss, ks[p], p, |ks|)
    {
      ThreadHasEndedIff(ss, ks, waiters, i, p);
    }
  }

  /** The input that shows it: a thread is spawned, and any waiter goes back before it has begun. */
  lemma WaitMissesSpawnedThread(waiters: nat, i: nat, t: nat) returns (ss: seq<State>, ks: seq<nat>)
    requires i < waiters
    ensures GoesBack(ss, ks, waiters, i)
    ensures SpawnedAt(ss, ks, 0) && ks[0] == t && !DestroysIn(ss, t, 0, |ks|)
  {
    var w := Start(waiters).waiters;
    var s1, s2 := State({t}, {}, 0, w), State({t}, {}, 0, w[i := Back]);
    ss, ks := [Start(waiters), s1, s2], [t, i];
    assert Spawn(ss[0], t, ss[1]) && Look(ss[1], i, ss[2]);
    assert !DestroysAt(ss, t, 1);
  }

  /** With two waiters one notification is not enough: the second sleeps on. */
  lemma TwoWaitersLoseWakeUp(waiters: nat) returns (ss: seq<State>, ks: seq<nat>)
    requires waiters >= 2
    ensures Behaviour(ss, ks, waiters) && WakeUpLost(ss[|ks|])
  {
    var w0 := Start(waiters).waiters;
    var w1 := w0[0 := Asleep];
    var w2 := w1[1 := Asleep];
    var s0, s1, s2 := Start(waiters), State({0}, {}, 0, w0), State({}, {0}, 1, w0);
    var s3, s4 := State({}, {0}, 1, w1), State({}, {0}, 1, w2);
    var s5, s6 := State({}, {}, 0, w2[0 := Woken]), State({}, {}, 0, w2[0 := Back]);
    ss, ks := [s0, s1, s2, s3, s4, s5, s6], [0, 0, 0, 1, 0, 0];
    assert Spawn(s0, 0, s1) && Construct(s1, 0, s2) && Look(s2, 0, s3) && Look(s3, 1, s4);
    assert w2[0] == Asleep;
    assert Destroy(s4, 0, s5);
    assert w2[0 := Woken][0 := Back] == w2[0 := Back];
    assert Look(s5, 0, s6);
    assert s6.waiters[1] == Asleep;
  }

  /**
   No wake-up is ever lost exactly if at most one thread waits. The program has one, the destructor
   of the task handler.
   */
  lemma WakeUpLostIff(waiters: nat)
    ensures (exists ss, ks :: Behaviour(ss, ks, waiters) && WakeUpLost(ss[|ks|])) <==> waiters >= 2
  {
    if waiters >= 2 {
      var ss, ks := TwoWaitersLoseWakeUp(waiters);
    } else {
      forall ss, ks | Behaviour(ss, ks, waiters)
        ensures !WakeUpLost(ss[|ks|])
      {
        CountIsLive(ss, ks, waiters);
      }
    }
  }
}
