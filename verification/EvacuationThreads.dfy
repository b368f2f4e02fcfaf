/**
 The scheduler under the threads of one node evacuation. Whether the list is empty is checked before
 the lock is taken, so a call is two steps, Check and Take, and the steps of different threads
 interleave. The list is initialised before the threads start and not again while they run; several
 node evacuations, which share the list, are in EvacuationMessages.
 */
module EvacuationThreads {
  import opened Sequences
  import opened Evacuation

  /** `Broken` is a thread that took from an empty list, for which the program has no meaning. */
  datatype Pc<H> = Waiting | Checked | Served(host: H) | Refused | Broken

  /** `history` holds the lists before, between and after the takes so far; its last is the list now. */
  datatype State<H> = State(threads: seq<Pc<H>>, history: seq<Deque<H>>)

  function Queue<H>(s: State<H>): Deque<H>
    requires s.history != []
  {
    s.history[|s.history| - 1]
  }

  function Start<H>(q: Deque<H>, n: nat): State<H> {
    State(Repeat(Waiting, n), [q])
  }

  ghost predicate Check<H>(s: State<H>, i: nat, s': State<H>) {
    && i < |s.threads| && s.threads[i] == Waiting && s.history != []
    && s' == s.(threads := s.threads[i := if Queue(s) == [] then Refused else Checked])
  }

  ghost predicate Take<H>(s: State<H>, overbooking: bool, mode: Mode, i: nat, s': State<H>) {
    && i < |s.threads| && s.threads[i] == Checked && s.history != []
    && if Queue(s) == [] then s' == s.(threads := s.threads[i := Broken])
       else
         && |s'.history| == |s.history| + 1
         && Taken(Queue(s), overbooking, mode, Queue(s'))
         && s' == State(s.threads[i := Served(Queue(s)[0].host)], s.history + [Queue(s')])
  }

  ghost predicate Step<H>(s: State<H>, overbooking: bool, mode: Mode, i: nat, s': State<H>) {
    Check(s, i, s') || Take(s, overbooking, mode, i, s')
  }

  ghost predicate Next<H>(s: State<H>, overbooking: bool, mode: Mode, s': State<H>) {
    exists i: nat :: Step(s, overbooking, mode, i, s')
  }

  /** An interleaving of n threads that start with the list q. */
  ghost predicate Behaviour<H>(ss: seq<State<H>>, q: Deque<H>, n: nat, overbooking: bool, mode: Mode) {
    && ss != [] && ss[0] == Start(q, n)
    && forall k :: 0 <= k < |ss| - 1 ==> Next(ss[k], overbooking, mode, ss[k + 1])
  }

  /** A behaviour without its last step, and that step. */
  lemma BehaviourLast<H>(ss: seq<State<H>>, q: Deque<H>, n: nat, overbooking: bool, mode: Mode) returns (i: nat)
    requires Behaviour(ss, q, n, overbooking, mode) && |ss| > 1
    ensures Behaviour(ss[..|ss| - 1], q, n, overbooking, mode)
    ensures Step(ss[|ss| - 2], overbooking, mode, i, ss[|ss| - 1])
  {
    var m := |ss| - 2;
    assert Next(ss[m], overbooking, mode, ss[m + 1]);
    i :| Step(ss[m], overbooking, mode, i, ss[m + 1]);
  }

  /** The destinations that the threads hold. */
  function Held<H>(threads: seq<Pc<H>>): multiset<H> {
    if threads == [] then multiset{}
    else (if threads[0].Served? then multiset{threads[0].host} else multiset{}) + Held(threads[1..])
  }

  lemma {:induction false} HeldUpdate<H>(threads: seq<Pc<H>>, i: nat, pc: Pc<H>)
    requires i < |threads| && !threads[i].Served?
    ensures Held(threads[i := pc]) == Held(threads) + if pc.Served? then multiset{pc.host} else multiset{}
    ensures |Held(threads)| <= |threads| - 1
  {
    if i == 0 {
      assert threads[0 := pc][1..] == threads[1..];
      HeldBound(threads[1..]);
    } else {
      assert threads[i := pc][1..] == threads[1..][i - 1 := pc];
      HeldUpdate(threads[1..], i - 1, pc);
    }
  }

  lemma {:induction false} HeldBound<H>(threads: seq<Pc<H>>)
    ensures |Held(threads)| <= |threads|
  {
    if threads != [] {
      HeldBound(threads[1..]);
    }
  }

  lemma {:induction false} HeldNothing<H>(n: nat)
    ensures Held(Repeat<Pc<H>>(Waiting, n)) == multiset{}
  {
    if n > 0 {
      assert Repeat<Pc<H>>(Waiting, n)[1..] == Repeat<Pc<H>>(Waiting, n - 1);
      HeldNothing<H>(n - 1);
    }
  }

  // ---------------------------------------------------------------------------------------------
  // Every interleaving is a sequential run
  // ---------------------------------------------------------------------------------------------

  /** The takes form a run, and each destination it hands out is held by one thread. */
  ghost predicate Linear<H>(s: State<H>, q: Deque<H>, n: nat, overbooking: bool, mode: Mode) {
    && |s.threads| == n
    && Run(s.history, overbooking, mode) && s.history[0] == q
    && Held(s.threads) == multiset(Destinations(s.history))
  }

  lemma StepKeepsLinear<H>(s: State<H>, q: Deque<H>, n: nat, overbooking: bool, mode: Mode, i: nat, s': State<H>)
    requires Linear(s, q, n, overbooking, mode) && Step(s, overbooking, mode, i, s')
    ensures Linear(s', q, n, overbooking, mode)
  {
    HeldUpdate(s.threads, i, s'.threads[i]);
    if s'.history != s.history {
      RunExtend(s.history, overbooking, mode, Queue(s'));
      DestinationsLast(s'.history);
      assert s'.history[..|s'.history| - 1] == s.history;
    }
  }

  /**
   Whatever the interleaving of one node evacuation, the destinations in the order they were taken are those of a
   sequential run, and the threads hold exactly these.
   */
  lemma {:induction false} InterleavingIsSequential<H>(ss: seq<State<H>>, q: Deque<H>, n: nat,
                                                       overbooking: bool, mode: Mode)
    requires Behaviour(ss, q, n, overbooking, mode)
    ensures Linear(ss[|ss| - 1], q, n, overbooking, mode)
    ensures mode != Auto ==>
              Destinations(ss[|ss| - 1].history) == Outputs(q, overbooking, mode, |ss[|ss| - 1].history| - 1)
    decreases |ss|
  {
    if |ss| == 1 {
      HeldNothing<H>(n);
      assert Destinations([q]) == [];
    } else {
      var m := |ss| - 2;
      var i := BehaviourLast(ss, q, n, overbooking, mode);
      InterleavingIsSequential(ss[..|ss| - 1], q, n, overbooking, mode);
      StepKeepsLinear(ss[m], q, n, overbooking, mode, i, ss[m + 1]);
    }
    if mode != Auto {
      RunIsDetermined(ss[|ss| - 1].history, overbooking, mode);
    }
  }

  // ---------------------------------------------------------------------------------------------
  // When the unlocked check is enough
  // ---------------------------------------------------------------------------------------------

  /** Enough destinations for n threads, so that a thread not served yet always finds one. */
  predicate Enough<H>(q: Deque<H>, n: nat, overbooking: bool, mode: Mode) {
    q != [] && (NeverDrops(overbooking, mode) || n <= Total(q))
  }

  lemma UnservedFindsOne<H>(s: State<H>, q: Deque<H>, n: nat, overbooking: bool, mode: Mode, i: nat)
    requires Linear(s, q, n, overbooking, mode) && Enough(q, n, overbooking, mode)
    requires NeverDrops(overbooking, mode) || AllPositive(q)
    requires i < n && !s.threads[i].Served?
    ensures Queue(s) != []
  {
    HeldUpdate(s.threads, i, s.threads[i]);
    Conservation(s.history, overbooking, mode);
    assert |multiset(Destinations(s.history))| == |s.history| - 1;
  }

  /** In one node evacuation with enough destinations no interleaving refuses a thread or takes from an empty list. */
  lemma {:induction false} EnoughIsSafe<H>(ss: seq<State<H>>, q: Deque<H>, n: nat, overbooking: bool, mode: Mode,
                                           i: nat)
    requires Behaviour(ss, q, n, overbooking, mode) && Enough(q, n, overbooking, mode)
    requires NeverDrops(overbooking, mode) || AllPositive(q)
    requires i < n
    ensures i < |ss[|ss| - 1].threads|
    ensures ss[|ss| - 1].threads[i] != Broken && ss[|ss| - 1].threads[i] != Refused
    decreases |ss|
  {
    if |ss| > 1 {
      var j := BehaviourLast(ss, q, n, overbooking, mode);
      InterleavingIsSequential(ss[..|ss| - 1], q, n, overbooking, mode);
      EnoughIsSafe(ss[..|ss| - 1], q, n, overbooking, mode, i);
      SafeStep(ss[|ss| - 2], q, n, overbooking, mode, j, ss[|ss| - 1], i);
    }
  }

  lemma SafeStep<H>(s: State<H>, q: Deque<H>, n: nat, overbooking: bool, mode: Mode, j: nat, s': State<H>, i: nat)
    requires Linear(s, q, n, overbooking, mode) && Enough(q, n, overbooking, mode)
    requires NeverDrops(overbooking, mode) || AllPositive(q)
    requires Step(s, overbooking, mode, j, s')
    requires i < n && s.threads[i] != Broken && s.threads[i] != Refused
    ensures i < |s'.threads| && s'.threads[i] != Broken && s'.threads[i] != Refused
  {
    UnservedFindsOne(s, q, n, overbooking, mode, j);
  }

  /** An empty list refuses everybody. */
  lemma {:induction false} EmptyListIsSafe<H>(ss: seq<State<H>>, n: nat, overbooking: bool, mode: Mode, i: nat)
    requires Behaviour(ss, [], n, overbooking, mode) && i < n
    ensures var s := ss[|ss| - 1];
            s.history == [[]] && i < |s.threads| && (s.threads[i] == Waiting || s.threads[i] == Refused)
    decreases |ss|
  {
    if |ss| > 1 {
      var j := BehaviourLast(ss, [], n, overbooking, mode);
      var init := ss[..|ss| - 1];
      EmptyListIsSafe(init, n, overbooking, mode, i);
      InterleavingIsSequential(init, [], n, overbooking, mode);
      EmptyListIsSafe(init, n, overbooking, mode, j);
    }
  }

  /** The first k threads have been served, the others up to `checked` have checked. */
  function Phase<H>(q: Deque<H>, n: nat, mode: Mode, checked: nat, k: nat): (threads: seq<Pc<H>>)
    requires mode != Auto && k <= checked <= n && k <= |Outputs(q, false, mode, k)|
  {
    seq(n, i requires 0 <= i =>
      if i < k then Served(Outputs(q, false, mode, k)[i]) else if i < checked then Checked else Waiting)
  }

  lemma BehaviourExtend<H>(ss: seq<State<H>>, q: Deque<H>, n: nat, overbooking: bool, mode: Mode, i: nat, s': State<H>)
    requires Behaviour(ss, q, n, overbooking, mode) && Step(ss[|ss| - 1], overbooking, mode, i, s')
    ensures Behaviour(ss + [s'], q, n, overbooking, mode)
  {
    var all := ss + [s'];
    forall k | 0 <= k < |all| - 1
      ensures Next(all[k], overbooking, mode, all[k + 1])
    {
      if k < |ss| - 1 {
        assert Next(ss[k], overbooking, mode, ss[k + 1]);
      } else {
        assert Step(all[k], overbooking, mode, i, all[k + 1]);
      }
    }
  }

  lemma {:induction false} AllCheck<H>(q: Deque<H>, n: nat, mode: Mode, checked: nat) returns (ss: seq<State<H>>)
    requires q != [] && mode != Auto && checked <= n
    ensures Behaviour(ss, q, n, false, mode)
    ensures ss[|ss| - 1] == State(Phase(q, n, mode, checked, 0), [q])
    decreases checked
  {
    if checked == 0 {
      ss := [Start(q, n)];
      assert Start(q, n).threads == Phase(q, n, mode, 0, 0);
    } else {
      ss := AllCheck(q, n, mode, checked - 1);
      var s, s' := ss[|ss| - 1], State(Phase(q, n, mode, checked, 0), [q]);
      assert s'.threads == s.threads[checked - 1 := Checked];
      BehaviourExtend(ss, q, n, false, mode, checked - 1, s');
      ss := ss + [s'];
    }
  }

  lemma {:induction false} SomeTake<H>(q: Deque<H>, n: nat, mode: Mode, k: nat) returns (ss: seq<State<H>>)
    requires q != [] && AllPositive(q) && (mode == Compact || mode == Scatter)
    requires k <= n && k <= Total(q)
    ensures Behaviour(ss, q, n, false, mode)
    ensures k <= |Outputs(q, false, mode, k)| && ss[|ss| - 1].threads == Phase(q, n, mode, n, k)
    ensures ss[|ss| - 1].history != [] && Queue(ss[|ss| - 1]) == After(q, false, mode, k)
    decreases k
  {
    CallsUntilExhausted(q, mode, k);
    if k == 0 {
      ss := AllCheck(q, n, mode, n);
    } else {
      ss := SomeTake(q, n, mode, k - 1);
      CallsUntilExhausted(q, mode, k - 1);
      var s' := TakeInPhase(ss[|ss| - 1], q, n, mode, k);
      BehaviourExtend(ss, q, n, false, mode, k - 1, s');
      ss := ss + [s'];
    }
  }

  lemma TakeInPhase<H>(s: State<H>, q: Deque<H>, n: nat, mode: Mode, k: nat) returns (s': State<H>)
    requires mode != Auto && 0 < k <= n
    requires |Outputs(q, false, mode, k)| == k && |Outputs(q, false, mode, k - 1)| == k - 1
    requires s.threads == Phase(q, n, mode, n, k - 1)
    requires s.history != [] && Queue(s) == After(q, false, mode, k - 1) != []
    ensures Step(s, false, mode, k - 1, s')
    ensures s'.threads == Phase(q, n, mode, n, k)
    ensures s'.history != [] && Queue(s') == After(q, false, mode, k)
  {
    RunsCompose(q, false, mode, k - 1, 1);
    OneCall(Queue(s), false, mode);
    var host := Queue(s)[0].host;
    assert Outputs(q, false, mode, k) == Outputs(q, false, mode, k - 1) + [host];
    assert Phase(q, n, mode, n, k) == s.threads[k - 1 := Served(host)];
    s' := State(s.threads[k - 1 := Served(host)], s.history + [Rearranged(Queue(s), false, mode)]);
    assert Take(s, false, mode, k - 1, s');
  }

  ghost predicate SomeBroken<H>(s: State<H>) {
    exists i :: 0 <= i < |s.threads| && s.threads[i] == Broken
  }

  /** Some interleaving takes from an empty list. */
  ghost predicate CanBreak<H(!new)>(q: Deque<H>, n: nat, overbooking: bool, mode: Mode) {
    exists ss: seq<State<H>> :: Behaviour(ss, q, n, overbooking, mode) && SomeBroken(ss[|ss| - 1])
  }

  /**
   Exactly when the unlocked check is not enough within one node evacuation: hosts are dropped, the
   list is not empty at the start, and there are more threads than the hosts have capacity in total.
   */
  lemma UnlockedCheckBreaksIff<H(!new)>(q: Deque<H>, n: nat, overbooking: bool, mode: Mode)
    requires NeverDrops(overbooking, mode) || AllPositive(q)
    ensures CanBreak(q, n, overbooking, mode)
       <==> !NeverDrops(overbooking, mode) && q != [] && n > Total(q)
  {
    if CanBreak(q, n, overbooking, mode) {
      var ss: seq<State<H>> :| Behaviour(ss, q, n, overbooking, mode) && SomeBroken(ss[|ss| - 1]);
      var i: nat :| i < |ss[|ss| - 1].threads| && ss[|ss| - 1].threads[i] == Broken;
      InterleavingIsSequential(ss, q, n, overbooking, mode);
      if q == [] {
        EmptyListIsSafe(ss, n, overbooking, mode, i);
      } else if Enough(q, n, overbooking, mode) {
        EnoughIsSafe(ss, q, n, overbooking, mode, i);
      }
    }
    if !NeverDrops(overbooking, mode) && q != [] && n > Total(q) {
      TotalOfPositive(q);
      var k := Total(q);
      var ss := SomeTake(q, n, mode, k);
      CallsUntilExhausted(q, mode, k);
      var s := ss[|ss| - 1];
      var s' := s.(threads := s.threads[k := Broken]);
      assert Take(s, false, mode, k, s');
      BehaviourExtend(ss, q, n, false, mode, k, s');
      ss := ss + [s'];
      assert ss[|ss| - 1].threads[k] == Broken;
      assert SomeBroken(ss[|ss| - 1]);
    }
  }
}
