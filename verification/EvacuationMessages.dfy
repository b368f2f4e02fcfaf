/**
 Several node evacuations. The list of destinations is one for the whole program, and it is
 initialised in the loop thread, without the lock, while detached threads of earlier requests may
 still use it. Free capacities, reachable hosts and the number of local domains are up to the
 environment.
 */
module EvacuationMessages {
  import opened Sequences
  import opened Evacuation
  import opened EvacuationThreads

  /** A request to evacuate the node; a detached one is not waited for by the loop thread. */
  datatype Request = Request(destinations: seq<string>, overbooking: bool, mode: Mode, detached: bool)

  /** A thread evacuating one domain, with the index of its request. */
  datatype Worker = Worker(pc: Pc<string>, request: nat)

  /** The loop thread waits for a message, or has listed i destinations of the current request. */
  datatype LoopPc = Idle | Filling(i: nat)

  /** `next` requests have been received; the list is the one of request `current`. */
  datatype Program =
    Program(workers: seq<Worker>, queue: Deque<string>, current: nat, next: nat, loop: LoopPc)

  predicate Drops(r: Request) {
    !NeverDrops(r.overbooking, r.mode)
  }

  predicate IsDone(pc: Pc<string>) {
    pc.Served? || pc.Refused? || pc.Broken?
  }

  /** The loop thread is free: the workers it has to wait for are done. */
  ghost predicate Free(rs: seq<Request>, s: Program) {
    && s.loop == Idle && s.next < |rs|
    && forall k :: 0 <= k < |s.workers| && s.workers[k].request < |rs| && !rs[s.workers[k].request].detached ==>
         IsDone(s.workers[k].pc)
  }

  /** The next request fails before it touches the list. */
  ghost predicate Rejects(rs: seq<Request>, s: Program, s': Program) {
    Free(rs, s) && s' == s.(next := s.next + 1)
  }

  ghost predicate Clears(rs: seq<Request>, s: Program, s': Program) {
    Free(rs, s) && s' == s.(queue := [], current := s.next, next := s.next + 1, loop := Filling(0))
  }

  ghost predicate Appends(rs: seq<Request>, s: Program, capacity: int, s': Program) {
    && s.loop.Filling? && s.current < |rs| && s.loop.i < |rs[s.current].destinations|
    && s' == s.(queue := s.queue + [Entry(rs[s.current].destinations[s.loop.i], capacity)],
                loop := Filling(s.loop.i + 1))
  }

  /** The next destination cannot be reached, which throws and leaves the list as it is. */
  ghost predicate Fails(rs: seq<Request>, s: Program, s': Program) {
    && s.loop.Filling? && s.current < |rs| && s.loop.i < |rs[s.current].destinations|
    && s' == s.(loop := Idle)
  }

  function Filtered(r: Request, q: Deque<string>): Deque<string> {
    if r.overbooking then q else Left(q, 0)
  }

  /** All destinations are listed: full hosts are dropped if need be, and n workers start. */
  ghost predicate Finishes(rs: seq<Request>, s: Program, n: nat, s': Program) {
    && s.loop.Filling? && s.current < |rs| && s.loop.i == |rs[s.current].destinations|
    && s' == s.(queue := Filtered(rs[s.current], s.queue), loop := Idle,
                workers := s.workers + Repeat(Worker(Waiting, s.current), n))
  }

  ghost predicate Checks(s: Program, k: nat, s': Program) {
    && k < |s.workers| && s.workers[k].pc == Waiting
    && s' == s.(workers := s.workers[k := s.workers[k].(pc := if s.queue == [] then Refused else Checked)])
  }

  ghost predicate Takes(rs: seq<Request>, s: Program, k: nat, s': Program) {
    && k < |s.workers| && s.workers[k].pc == Checked && s.workers[k].request < |rs|
    && var w, r := s.workers[k], rs[s.workers[k].request];
       if s.queue == [] then s' == s.(workers := s.workers[k := w.(pc := Broken)])
       else
         && Taken(s.queue, r.overbooking, r.mode, s'.queue)
         && s' == s.(queue := s'.queue, workers := s.workers[k := w.(pc := Served(s.queue[0].host))])
  }

  ghost predicate LoopStep(rs: seq<Request>, s: Program, s': Program) {
    || Rejects(rs, s, s') || Clears(rs, s, s') || Fails(rs, s, s')
    || (exists c: int :: Appends(rs, s, c, s'))
    || (exists n: nat :: Finishes(rs, s, n, s'))
  }

  ghost predicate WorkerStep(rs: seq<Request>, s: Program, s': Program) {
    exists k: nat :: Checks(s, k, s') || Takes(rs, s, k, s')
  }

  ghost predicate Moves(rs: seq<Request>, s: Program, s': Program) {
    LoopStep(rs, s, s') || WorkerStep(rs, s, s')
  }

  function Boot(): Program {
    Program([], [], 0, 0, Idle)
  }

  ghost predicate Trace(rs: seq<Request>, ss: seq<Program>) {
    && ss != [] && ss[0] == Boot()
    && forall k :: 0 <= k < |ss| - 1 ==> Moves(rs, ss[k], ss[k + 1])
  }

  ghost predicate Reachable(rs: seq<Request>, s: Program) {
    exists ss :: Trace(rs, ss) && ss[|ss| - 1] == s
  }

  ghost predicate BrokenWorker(s: Program) {
    exists k :: 0 <= k < |s.workers| && s.workers[k].pc == Broken
  }

  /** Some environment and some interleaving make a worker take from an empty list. */
  ghost predicate CanBreakWith(rs: seq<Request>) {
    exists s :: Reachable(rs, s) && BrokenWorker(s)
  }

  predicate Last(rs: seq<Request>, j: nat) {
    j == |rs| - 1
  }

  /**
   What puts request j in danger, if it lists any destination: its own workers drop hosts; it is
   detached and another request follows, which clears the list; or a worker of an earlier detached
   request meets its list, which is then cleared, filtered, or emptied by that worker's own kind.
   */
  ghost predicate Endangered(rs: seq<Request>, j: nat)
    requires j < |rs|
  {
    && rs[j].destinations != []
    && (|| Drops(rs[j])
        || (rs[j].detached && !Last(rs, j))
        || exists i :: 0 <= i < j && rs[i].detached && (!Last(rs, j) || !rs[j].overbooking || Drops(rs[i])))
  }

  // ---------------------------------------------------------------------------------------------
  // Requests out of danger are safe
  // ---------------------------------------------------------------------------------------------

  ghost predicate Safe(rs: seq<Request>, s: Program) {
    && s.current <= s.next <= |rs| && (s.current == s.next ==> s.queue == [] && s.workers == [])
    && (s.loop.Filling? ==> s.current < s.next)
    && (s.queue != [] ==> s.current < s.next && rs[s.current].destinations != [])
    && forall k :: 0 <= k < |s.workers| ==> WorkerSafe(rs, s, s.workers[k])
  }

  ghost predicate WorkerSafe(rs: seq<Request>, s: Program, w: Worker) {
    && w.request <= s.current && w.request < |rs| && (s.loop.Filling? ==> w.request < s.current)
    && w.pc != Broken && (w.pc == Checked ==> s.queue != [])
    && (w.request < s.current && !rs[w.request].detached ==> IsDone(w.pc))
  }

  ghost predicate OutOfDanger(rs: seq<Request>) {
    forall j :: 0 <= j < |rs| ==> !Endangered(rs, j)
  }

  lemma StepIsSafe(rs: seq<Request>, s: Program, s': Program)
    requires OutOfDanger(rs) && Safe(rs, s) && Moves(rs, s, s')
    ensures Safe(rs, s')
  {
    if LoopStep(rs, s, s') {
      LoopStepIsSafe(rs, s, s');
    } else {
      var k: nat :| Checks(s, k, s') || Takes(rs, s, k, s');
      WorkerStepIsSafe(rs, s, s', k);
    }
  }

  lemma LoopStepIsSafe(rs: seq<Request>, s: Program, s': Program)
    requires OutOfDanger(rs) && Safe(rs, s) && LoopStep(rs, s, s')
    ensures Safe(rs, s')
  {
    if s.current < |rs| {
      assert !Endangered(rs, s.current);
    }
    forall k | 0 <= k < |s'.workers|
      ensures WorkerSafe(rs, s', s'.workers[k])
    {
      if k < |s.workers| {
        assert WorkerSafe(rs, s, s.workers[k]);
      }
    }
  }

  lemma WorkerStepIsSafe(rs: seq<Request>, s: Program, s': Program, k: nat)
    requires OutOfDanger(rs) && Safe(rs, s) && (Checks(s, k, s') || Takes(rs, s, k, s'))
    ensures Safe(rs, s')
  {
    var w := s.workers[k];
    assert WorkerSafe(rs, s, w);
    if w.pc == Checked {
      assert !Endangered(rs, s.current);
      var r := rs[w.request];
      assert NeverDrops(r.overbooking, r.mode);
      if r.mode == Auto {
        PermutationLength(Used(s.queue), s'.queue);
      }
      assert s'.queue != [];
    }
    forall l | 0 <= l < |s'.workers|
      ensures WorkerSafe(rs, s', s'.workers[l])
    {
      assert WorkerSafe(rs, s, s.workers[l]);
    }
  }

  lemma SafeIsUnbroken(rs: seq<Request>, s: Program)
    requires Safe(rs, s)
    ensures !BrokenWorker(s)
  {
    forall k | 0 <= k < |s.workers|
      ensures s.workers[k].pc != Broken
    {
      assert WorkerSafe(rs, s, s.workers[k]);
    }
  }

  lemma {:induction false} TraceIsSafe(rs: seq<Request>, ss: seq<Program>)
    requires OutOfDanger(rs) && Trace(rs, ss)
    ensures Safe(rs, ss[|ss| - 1])
    decreases |ss|
  {
    if |ss| > 1 {
      var n := |ss| - 2;
      TraceIsSafe(rs, ss[..|ss| - 1]);
      assert Moves(rs, ss[n], ss[n + 1]);
      StepIsSafe(rs, ss[n], ss[n + 1]);
    }
  }

  // ---------------------------------------------------------------------------------------------
  // A request in danger breaks
  // ---------------------------------------------------------------------------------------------

  lemma Reach(rs: seq<Request>, s: Program, s': Program)
    requires Reachable(rs, s) && Moves(rs, s, s')
    ensures Reachable(rs, s')
  {
    var ss :| Trace(rs, ss) && ss[|ss| - 1] == s;
    var all := ss + [s'];
    forall k | 0 <= k < |all| - 1
      ensures Moves(rs, all[k], all[k + 1])
    {
      if k < |ss| - 1 {
        assert Moves(rs, ss[k], ss[k + 1]);
      }
    }
    assert all[|all| - 1] == s';
  }

  /** Requests may be rejected until request j is the next. */
  lemma {:induction false} RejectUntil(rs: seq<Request>, s: Program, j: nat)
    requires Reachable(rs, s) && s.loop == Idle && s.next <= j <= |rs|
    requires forall k :: 0 <= k < |s.workers| && s.workers[k].request < |rs| ==> rs[s.workers[k].request].detached
    ensures Reachable(rs, s.(next := j))
    decreases j - s.next
  {
    if s.next < j {
      var s' := s.(next := s.next + 1);
      assert Rejects(rs, s, s');
      Reach(rs, s, s');
      RejectUntil(rs, s', j);
    }
  }

  /** The list of a request whose first host has room c and whose others are full. */
  function Listed(destinations: seq<string>, c: int, n: nat): Deque<string>
    requires n <= |destinations|
  {
    if n == 0 then [] else Listed(destinations, c, n - 1) + [Entry(destinations[n - 1], if n == 1 then c else 0)]
  }

  lemma {:induction false} FillUp(rs: seq<Request>, s: Program, c: int, n: nat)
    requires Reachable(rs, s) && s.current < |rs| && s.loop.Filling?
    requires s.loop.i <= n <= |rs[s.current].destinations|
    requires s.queue == Listed(rs[s.current].destinations, c, s.loop.i)
    ensures Reachable(rs, s.(queue := Listed(rs[s.current].destinations, c, n), loop := Filling(n)))
    decreases n - s.loop.i
  {
    if s.loop.i < n {
      var i, d := s.loop.i, rs[s.current].destinations;
      var s' := s.(queue := Listed(d, c, i + 1), loop := Filling(i + 1));
      assert Appends(rs, s, if i == 0 then c else 0, s');
      Reach(rs, s, s');
      FillUp(rs, s', c, n);
    }
  }

  lemma {:induction false} ListedFiltered(d: seq<string>, c: int, n: nat)
    requires 0 < n <= |d|
    ensures Left(Listed(d, c, n), 0) == if c > 0 then [Entry(d[0], c)] else []
    ensures Listed(d, c, n) != [] && Listed(d, c, n)[0] == Entry(d[0], c)
  {
    if n == 1 {
      assert Listed(d, c, 1) == [Entry(d[0], c)];
      assert [Entry(d[0], c)][1..] == [];
    } else {
      ListedFiltered(d, c, n - 1);
      LeftFull(Listed(d, c, n - 1), d[n - 1]);
    }
  }

  lemma {:induction false} LeftFull(q: Deque<string>, host: string)
    ensures Left(q + [Entry(host, 0)], 0) == Left(q, 0)
  {
    if q == [] {
      assert q + [Entry(host, 0)] == [Entry(host, 0)] && [Entry(host, 0)][1..] == [];
    } else {
      assert (q + [Entry(host, 0)])[1..] == q[1..] + [Entry(host, 0)];
      LeftFull(q[1..], host);
    }
  }

  /** Request j is taken up by an idle program. */
  lemma TakeUp(rs: seq<Request>, s: Program, j: nat) returns (s': Program)
    requires Reachable(rs, s) && s.loop == Idle && s.next <= j < |rs|
    requires forall k :: 0 <= k < |s.workers| && s.workers[k].request < |rs| ==> rs[s.workers[k].request].detached
    ensures Reachable(rs, s')
    ensures s' == s.(queue := [], current := j, next := j + 1, loop := Filling(0))
  {
    RejectUntil(rs, s, j);
    s' := s.(queue := [], current := j, next := j + 1, loop := Filling(0));
    assert Clears(rs, s.(next := j), s');
    Reach(rs, s.(next := j), s');
  }

  lemma BootIsReachable(rs: seq<Request>)
    ensures Reachable(rs, Boot())
  {
    assert Trace(rs, [Boot()]) && [Boot()][|[Boot()]| - 1] == Boot();
  }

  /** Request j has come through its initialisation with room c on its first host only. */
  lemma Initialised(rs: seq<Request>, s: Program, j: nat, c: int, n: nat) returns (s': Program)
    requires Reachable(rs, s) && s == s.(queue := [], current := j, next := j + 1, loop := Filling(0)) && j < |rs|
    ensures Reachable(rs, s')
    ensures s' == s.(queue := Filtered(rs[j], Listed(rs[j].destinations, c, |rs[j].destinations|)), loop := Idle,
                     workers := s.workers + Repeat(Worker(Waiting, j), n))
  {
    var d := rs[j].destinations;
    FillUp(rs, s, c, |d|);
    var full := s.(queue := Listed(d, c, |d|), loop := Filling(|d|));
    s' := full.(queue := Filtered(rs[j], full.queue), loop := Idle,
                workers := s.workers + Repeat(Worker(Waiting, j), n));
    assert Finishes(rs, full, n, s');
    Reach(rs, full, s');
  }

  /** Worker k, waiting, checks a list that is not empty. */
  lemma CheckPasses(rs: seq<Request>, s: Program, k: nat) returns (s': Program)
    requires Reachable(rs, s) && k < |s.workers| && s.workers[k].pc == Waiting && s.queue != []
    ensures Reachable(rs, s') && s' == s.(workers := s.workers[k := s.workers[k].(pc := Checked)])
  {
    s' := s.(workers := s.workers[k := s.workers[k].(pc := Checked)]);
    assert Checks(s, k, s');
    Reach(rs, s, s');
  }

  lemma TakeBreaks(rs: seq<Request>, s: Program, k: nat) returns (b: Program)
    requires Reachable(rs, s) && k < |s.workers| && s.workers[k].pc == Checked && s.workers[k].request < |rs|
    requires s.queue == []
    ensures Reachable(rs, b) && b == s.(workers := s.workers[k := s.workers[k].(pc := Broken)])
    ensures CanBreakWith(rs)
  {
    b := s.(workers := s.workers[k := s.workers[k].(pc := Broken)]);
    assert Takes(rs, s, k, b);
    Reach(rs, s, b);
    assert b.workers[k].pc == Broken;
  }

  /** Two workers of a kind that drops hosts have both checked a list of one host with one place. */
  lemma TwoDroppersBreak(rs: seq<Request>, s: Program, i: nat, host: string)
    requires Reachable(rs, s) && i < |rs| && Drops(rs[i]) && s.queue == [Entry(host, 1)]
    requires s.workers == Repeat(Worker(Waiting, i), 2)
    ensures CanBreakWith(rs)
  {
    var s1 := CheckPasses(rs, s, 0);
    var s2 := CheckPasses(rs, s1, 1);
    var s3 := s2.(queue := [], workers := s2.workers[0 := Worker(Served(host), i)]);
    assert Used(s2.queue) == [Entry(host, 0)] && [Entry(host, 0)][1..] == [];
    assert Takes(rs, s2, 0, s3);
    Reach(rs, s2, s3);
    var b := TakeBreaks(rs, s3, 1);
  }

  /**
   Whatever the next request lists: from every state in which a worker has checked and the loop thread
   can take that request up, there is a run in which this worker takes from an empty list.
   */
  lemma NextRequestBreaks(rs: seq<Request>, s: Program, k: nat) returns (b: Program)
    requires Reachable(rs, s) && Free(rs, s)
    requires k < |s.workers| && s.workers[k].pc == Checked && s.workers[k].request < |rs|
    ensures Reachable(rs, b) && |b.workers| == |s.workers| && b.workers[k].pc == Broken
    ensures CanBreakWith(rs)
  {
    var s' := s.(queue := [], current := s.next, next := s.next + 1, loop := Filling(0));
    assert Clears(rs, s, s');
    Reach(rs, s, s');
    b := TakeBreaks(rs, s', k);
  }

  /** The own workers of request j drop hosts. */
  lemma DroppersBreak(rs: seq<Request>, j: nat)
    requires j < |rs| && rs[j].destinations != [] && Drops(rs[j])
    ensures CanBreakWith(rs)
  {
    BootIsReachable(rs);
    var s := TakeUp(rs, Boot(), j);
    ListedFiltered(rs[j].destinations, 1, |rs[j].destinations|);
    var s' := Initialised(rs, s, j, 1, 2);
    assert [] + Repeat(Worker(Waiting, j), 2) == Repeat(Worker(Waiting, j), 2);
    TwoDroppersBreak(rs, s', j, rs[j].destinations[0]);
  }

  /** Request j is detached and another one follows. */
  lemma FollowedBreaks(rs: seq<Request>, j: nat)
    requires j < |rs| - 1 && rs[j].destinations != [] && rs[j].detached
    ensures CanBreakWith(rs)
  {
    BootIsReachable(rs);
    var s := TakeUp(rs, Boot(), j);
    ListedFiltered(rs[j].destinations, 1, |rs[j].destinations|);
    var s1 := Initialised(rs, s, j, 1, 1);
    var s2 := CheckPasses(rs, s1, 0);
    assert s2.workers == [Worker(Checked, j)];
    var b := NextRequestBreaks(rs, s2, 0);
  }

  /** Workers of request i, which lists nothing, are still waiting when request j is taken up. */
  lemma Stragglers(rs: seq<Request>, i: nat, j: nat, n: nat) returns (s: Program)
    requires i < j < |rs| && rs[i].detached && rs[i].destinations == []
    ensures Reachable(rs, s)
    ensures s == Program(Repeat(Worker(Waiting, i), n), [], j, j + 1, Filling(0))
  {
    BootIsReachable(rs);
    var s1 := TakeUp(rs, Boot(), i);
    var s2 := Initialised(rs, s1, i, 0, n);
    assert [] + Repeat(Worker(Waiting, i), n) == Repeat(Worker(Waiting, i), n);
    s := TakeUp(rs, s2, j);
  }

  lemma OneListed(rs: seq<Request>, s: Program, j: nat, c: int) returns (s': Program)
    requires Reachable(rs, s) && j < |rs| && rs[j].destinations != []
    requires s == s.(queue := [], current := j, loop := Filling(0))
    ensures Reachable(rs, s')
    ensures s' == s.(queue := [Entry(rs[j].destinations[0], c)], loop := Filling(1))
  {
    FillUp(rs, s, c, 1);
    assert Listed(rs[j].destinations, c, 1) == [Entry(rs[j].destinations[0], c)];
    s' := s.(queue := [Entry(rs[j].destinations[0], c)], loop := Filling(1));
  }

  /** A worker of an earlier request meets the list of request j. */
  lemma StragglerBreaks(rs: seq<Request>, i: nat, j: nat)
    requires i < j < |rs| && rs[i].detached && rs[i].destinations == [] && rs[j].destinations != []
    requires !Last(rs, j) || !rs[j].overbooking || Drops(rs[i])
    ensures CanBreakWith(rs)
  {
    if Drops(rs[i]) {
      var s := Stragglers(rs, i, j, 2);
      var s1 := OneListed(rs, s, j, 1);
      TwoDroppersBreak(rs, s1, i, rs[j].destinations[0]);
    } else if !rs[j].overbooking {
      StragglerMeetsFilter(rs, i, j);
    } else {
      StragglerMeetsNext(rs, i, j);
    }
  }

  lemma StragglerMeetsFilter(rs: seq<Request>, i: nat, j: nat)
    requires i < j < |rs| && rs[i].detached && rs[i].destinations == [] && rs[j].destinations != []
    requires !rs[j].overbooking
    ensures CanBreakWith(rs)
  {
    var d := rs[j].destinations;
    var s := Stragglers(rs, i, j, 1);
    var s1 := OneListed(rs, s, j, 0);
    var s2 := CheckPasses(rs, s1, 0);
    assert Listed(d, 0, 1) == [Entry(d[0], 0)];
    FillUp(rs, s2, 0, |d|);
    var s3 := s2.(queue := Listed(d, 0, |d|), loop := Filling(|d|));
    ListedFiltered(d, 0, |d|);
    var s4 := s3.(queue := [], loop := Idle);
    assert s3.workers + Repeat(Worker(Waiting, j), 0) == s3.workers;
    assert Finishes(rs, s3, 0, s4);
    Reach(rs, s3, s4);
    var b := TakeBreaks(rs, s4, 0);
  }

  lemma StragglerMeetsNext(rs: seq<Request>, i: nat, j: nat)
    requires i < j < |rs| - 1 && rs[i].detached && rs[i].destinations == [] && rs[j].destinations != []
    ensures CanBreakWith(rs)
  {
    var s := Stragglers(rs, i, j, 1);
    var s1 := OneListed(rs, s, j, 1);
    var s2 := CheckPasses(rs, s1, 0);
    assert s2.workers == [Worker(Checked, i)];
    var s3 := s2.(loop := Idle);
    if |rs[j].destinations| > 1 {
      assert Fails(rs, s2, s3);
    } else {
      ListedFiltered(rs[j].destinations, 1, 1);
      assert Listed(rs[j].destinations, 1, 1) == s2.queue;
      assert s2.workers + Repeat(Worker(Waiting, j), 0) == s2.workers;
      assert Finishes(rs, s2, 0, s3);
    }
    Reach(rs, s2, s3);
    var b := NextRequestBreaks(rs, s3, 0);
  }

  lemma DangerBreaks(rs: seq<Request>, j: nat)
    requires j < |rs| && Endangered(rs, j)
    ensures CanBreakWith(rs)
  {
    if Drops(rs[j]) {
      DroppersBreak(rs, j);
    } else if rs[j].detached && !Last(rs, j) {
      FollowedBreaks(rs, j);
    } else {
      var i :| 0 <= i < j && rs[i].detached && (!Last(rs, j) || !rs[j].overbooking || Drops(rs[i]));
      if rs[i].destinations != [] {
        FollowedBreaks(rs, i);
      } else {
        StragglerBreaks(rs, i, j);
      }
    }
  }

  /**
   Exactly which requests may end with a worker that takes from an empty list: for every sequence of
   node evacuations, some environment and some interleaving do, if and only if one of them is in
   danger. In particular detached requests are safe only one at a time.
   */
  lemma RequestsBreakIff(rs: seq<Request>)
    ensures CanBreakWith(rs) <==> exists j :: 0 <= j < |rs| && Endangered(rs, j)
  {
    if j :| 0 <= j < |rs| && Endangered(rs, j) {
      DangerBreaks(rs, j);
    } else if CanBreakWith(rs) {
      var s :| Reachable(rs, s) && BrokenWorker(s);
      var ss :| Trace(rs, ss) && ss[|ss| - 1] == s;
      TraceIsSafe(rs, ss);
      SafeIsUnbroken(rs, s);
      assert false;
    }
  }

  /** The input that shows it: a request as it is by default, with any other request after it. */
  lemma TwoEvacuationsBreak(destinations: seq<string>, other: Request)
    requires destinations != []
    ensures CanBreakWith([Request(destinations, true, Auto, true), other])
  {
    var rs := [Request(destinations, true, Auto, true), other];
    assert Endangered(rs, 0);
    RequestsBreakIff(rs);
  }

  // ---------------------------------------------------------------------------------------------
  // What to avoid in a single run
  // ---------------------------------------------------------------------------------------------

  ghost predicate Between(s: Program) {
    exists k :: 0 <= k < |s.workers| && s.workers[k].pc == Checked
  }

  /** No list is cleared or filtered between a Check and its Take. */
  ghost predicate Undisturbed(rs: seq<Request>, ss: seq<Program>) {
    forall k :: 0 <= k < |ss| - 1 && Between(ss[k]) ==> !Disturbs(rs, ss[k], ss[k + 1])
  }

  ghost predicate Disturbs(rs: seq<Request>, s: Program, s': Program) {
    Clears(rs, s, s') || (exists n: nat :: Finishes(rs, s, n, s'))
  }

  ghost predicate CheckedFindsOne(rs: seq<Request>, s: Program) {
    && !BrokenWorker(s) && (Between(s) ==> s.queue != [])
    && s.next <= |rs| && forall k :: 0 <= k < |s.workers| ==> s.workers[k].request < |rs|
  }

  ghost predicate NoneDrops(rs: seq<Request>) {
    forall j :: 0 <= j < |rs| ==> !Drops(rs[j])
  }

  lemma UndisturbedTake(rs: seq<Request>, s: Program, s': Program, k: nat)
    requires NoneDrops(rs) && CheckedFindsOne(rs, s) && Takes(rs, s, k, s')
    ensures s.queue != [] && s'.queue != []
  {
    assert Between(s);
    var r := rs[s.workers[k].request];
    assert NeverDrops(r.overbooking, r.mode);
    if r.mode == Auto {
      PermutationLength(Used(s.queue), s'.queue);
    }
  }

  lemma UndisturbedStep(rs: seq<Request>, s: Program, s': Program)
    requires NoneDrops(rs) && Moves(rs, s, s') && CheckedFindsOne(rs, s)
    requires Between(s) ==> !Disturbs(rs, s, s')
    ensures CheckedFindsOne(rs, s')
  {
    if LoopStep(rs, s, s') {
      forall k | 0 <= k < |s'.workers|
        ensures s'.workers[k].pc != Broken && s'.workers[k].request < |rs|
        ensures s'.workers[k].pc == Checked ==> Between(s)
      {
        if k < |s.workers| {
          assert s'.workers[k] == s.workers[k];
        }
      }
    } else {
      var k: nat :| Checks(s, k, s') || Takes(rs, s, k, s');
      if s.workers[k].pc == Checked {
        UndisturbedTake(rs, s, s', k);
      }
      forall l | 0 <= l < |s'.workers|
        ensures s'.workers[l].pc != Broken && (s'.workers[l].pc == Checked ==> s'.queue != [])
      {
        assert l != k ==> s'.workers[l] == s.workers[l];
        assert s.workers[l].pc == Checked ==> Between(s);
      }
    }
  }

  /**
   A run of requests that never drop hosts is safe if no list is cleared or filtered between a Check
   and its Take. `NextRequestBreaks` is the other half: a clear in between can always break.
   */
  lemma {:induction false} UndisturbedIsSafe(rs: seq<Request>, ss: seq<Program>)
    requires NoneDrops(rs) && Trace(rs, ss) && Undisturbed(rs, ss)
    ensures CheckedFindsOne(rs, ss[|ss| - 1])
    decreases |ss|
  {
    if |ss| > 1 {
      var n := |ss| - 2;
      var init := ss[..|ss| - 1];
      assert Undisturbed(rs, init) by {
        forall k | 0 <= k < |init| - 1 && Between(init[k])
          ensures !Disturbs(rs, init[k], init[k + 1])
        {
          assert ss[k] == init[k] && ss[k + 1] == init[k + 1];
        }
      }
      UndisturbedIsSafe(rs, init);
      assert Moves(rs, ss[n], ss[n + 1]);
      UndisturbedStep(rs, ss[n], ss[n + 1]);
    }
  }
}
