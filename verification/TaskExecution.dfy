/** Running the subtasks of a container: fan-out into futures, fan-in in container order. */
module TaskExecution {
  import opened Sequences

  /**
   A subtask with its future. Asynchronous ones run in threads of their own; deferred ones run in
   the collecting thread when their result is asked for. Standard exceptions end in the result, so
   every subtask that finishes has one.
   */
  datatype Status<R> = Unstarted | Deferred | InThread | InCollector | Done(result: R)

  /** The container thread: it starts all subtasks, collects all results, and sends one reply. */
  datatype Pc = Starting(n: nat) | Collecting(n: nat) | Sent

  datatype State<R> = State(pc: Pc, subtasks: seq<Status<R>>, results: seq<R>, replies: seq<seq<R>>)

  function Start<R>(n: nat): State<R> {
    State(Starting(0), Repeat(Unstarted, n), [], [])
  }

  /** `concurrent[i]` is the flag of subtask i. */
  ghost predicate StartsOne<R>(concurrent: seq<bool>, s: State<R>, s': State<R>) {
    && s.pc.Starting? && s.pc.n < |s.subtasks| == |concurrent|
    && s' == s.(pc := Starting(s.pc.n + 1),
                subtasks := s.subtasks[s.pc.n := if concurrent[s.pc.n] then InThread else Deferred])
  }

  ghost predicate AllStarted<R>(s: State<R>, s': State<R>) {
    s.pc == Starting(|s.subtasks|) && s' == s.(pc := Collecting(0))
  }

  ghost predicate ThreadFinishes<R>(s: State<R>, i: nat, r: R, s': State<R>) {
    i < |s.subtasks| && s.subtasks[i] == InThread && s' == s.(subtasks := s.subtasks[i := Done(r)])
  }

  /** Asking a deferred future for its result runs the subtask. */
  ghost predicate RunsDeferred<R>(s: State<R>, s': State<R>) {
    && s.pc.Collecting? && s.pc.n < |s.subtasks| && s.subtasks[s.pc.n] == Deferred
    && s' == s.(subtasks := s.subtasks[s.pc.n := InCollector])
  }

  ghost predicate DeferredFinishes<R>(s: State<R>, r: R, s': State<R>) {
    && s.pc.Collecting? && s.pc.n < |s.subtasks| && s.subtasks[s.pc.n] == InCollector
    && s' == s.(subtasks := s.subtasks[s.pc.n := Done(r)])
  }

  ghost predicate Collects<R>(s: State<R>, s': State<R>) {
    && s.pc.Collecting? && s.pc.n < |s.subtasks| && s.subtasks[s.pc.n].Done?
    && s' == s.(pc := Collecting(s.pc.n + 1), results := s.results + [s.subtasks[s.pc.n].result])
  }

  ghost predicate Replies<R>(s: State<R>, s': State<R>) {
    s.pc == Collecting(|s.subtasks|) && s' == s.(pc := Sent, replies := s.replies + [s.results])
  }

  ghost predicate Next<R(!new)>(concurrent: seq<bool>, s: State<R>, s': State<R>) {
    || StartsOne(concurrent, s, s') || AllStarted(s, s') || RunsDeferred(s, s') || Collects(s, s') || Replies(s, s')
    || (exists i: nat, r :: ThreadFinishes(s, i, r, s'))
    || (exists r :: DeferredFinishes(s, r, s'))
  }

  ghost predicate Behaviour<R(!new)>(concurrent: seq<bool>, ss: seq<State<R>>) {
    && ss != [] && ss[0] == Start(|concurrent|)
    && forall k :: 0 <= k < |ss| - 1 ==> Next(concurrent, ss[k], ss[k + 1])
  }

  /** How far collecting has come. */
  function Collected<R>(s: State<R>): nat {
    match s.pc case Starting(_) => 0 case Collecting(n) => n case Sent => |s.subtasks|
  }

  function Started<R>(s: State<R>): nat {
    if s.pc.Starting? then s.pc.n else |s.subtasks|
  }

  /** What a subtask may be doing, given its flag and how far the container thread is. */
  ghost predicate SubtaskOk<R>(concurrent: seq<bool>, s: State<R>, i: nat)
    requires i < |s.subtasks| == |concurrent|
  {
    match s.subtasks[i]
    case Unstarted => i >= Started(s)
    case Deferred => i < Started(s) && !concurrent[i] && i >= Collected(s)
    case InThread => i < Started(s) && concurrent[i] && i >= Collected(s)
    case InCollector => !concurrent[i] && s.pc == Collecting(i)
    case Done(r) =>
      && i < Started(s)
      && (i < Collected(s) ==> i < |s.results| && s.results[i] == r)
      && (!concurrent[i] ==> s.pc != Starting(Started(s)) && i <= Collected(s))
  }

  ghost predicate Inv<R>(concurrent: seq<bool>, s: State<R>) {
    && |s.subtasks| == |concurrent| && Started(s) <= |s.subtasks| && Collected(s) <= |s.subtasks|
    && |s.results| == Collected(s)
    && s.replies == (if s.pc == Sent then [s.results] else [])
    && forall i :: 0 <= i < |s.subtasks| ==> SubtaskOk(concurrent, s, i)
  }

  lemma StepKeepsInv<R(!new)>(concurrent: seq<bool>, s: State<R>, s': State<R>)
    requires Inv(concurrent, s) && Next(concurrent, s, s')
    ensures Inv(concurrent, s')
  {
    assert |s'.subtasks| == |s.subtasks|;
    forall i | 0 <= i < |s'.subtasks|
      ensures SubtaskOk(concurrent, s', i)
    {
      assert SubtaskOk(concurrent, s, i);
    }
  }

  lemma {:induction false} AlwaysInv<R(!new)>(concurrent: seq<bool>, ss: seq<State<R>>)
    requires Behaviour(concurrent, ss)
    ensures Inv(concurrent, ss[|ss| - 1])
    decreases |ss|
  {
    if |ss| > 1 {
      var n := |ss| - 2;
      AlwaysInv(concurrent, ss[..|ss| - 1]);
      assert Next(concurrent, ss[n], ss[n + 1]);
      StepKeepsInv(concurrent, ss[n], ss[n + 1]);
    }
  }

  /**
   The reply of a container: exactly one, with one result per subtask in container order, whatever
   the order in which the subtasks finished.
   */
  lemma OneReplyInOrder<R(!new)>(concurrent: seq<bool>, ss: seq<State<R>>)
    requires Behaviour(concurrent, ss) && ss[|ss| - 1].pc == Sent
    ensures var s := ss[|ss| - 1];
            && |s.replies| == 1 && |s.replies[0]| == |concurrent| == |s.subtasks|
            && forall i :: 0 <= i < |concurrent| ==> s.subtasks[i] == Done(s.replies[0][i])
  {
    AlwaysInv(concurrent, ss);
    var s := ss[|ss| - 1];
    forall i | 0 <= i < |concurrent|
      ensures s.subtasks[i] == Done(s.replies[0][i])
    {
      assert SubtaskOk(concurrent, s, i);
    }
  }

  /**
   Deferred subtasks run one at a time and in container order: while one runs, those before it are
   done and those after it have not begun, whatever the asynchronous ones do.
   */
  lemma DeferredRunInOrder<R(!new)>(concurrent: seq<bool>, ss: seq<State<R>>, i: nat, j: nat)
    requires Behaviour(concurrent, ss) && i < |concurrent| && j < |concurrent| && i != j
    requires |ss[|ss| - 1].subtasks| == |concurrent| && ss[|ss| - 1].subtasks[i] == InCollector && !concurrent[j]
    ensures ss[|ss| - 1].subtasks[j] == Deferred <==> j > i
    ensures ss[|ss| - 1].subtasks[j].Done? <==> j < i
  {
    AlwaysInv(concurrent, ss);
    var s := ss[|ss| - 1];
    assert SubtaskOk(concurrent, s, i) && SubtaskOk(concurrent, s, j);
  }

  // ---------------------------------------------------------------------------------------------
  // Progress
  // ---------------------------------------------------------------------------------------------

  /** The steps a subtask still has before it. */
  function Ahead<R>(t: Status<R>): nat {
    match t case Unstarted => 3 case Deferred => 2 case InThread => 1 case InCollector => 1 case Done(_) => 0
  }

  function AheadAll<R>(ts: seq<Status<R>>): nat {
    if ts == [] then 0 else Ahead(ts[0]) + AheadAll(ts[1..])
  }

  /** The steps the container thread has before it, besides starting and running subtasks. */
  function PcAhead<R>(s: State<R>): int {
    match s.pc case Starting(_) => |s.subtasks| + 2 case Collecting(n) => |s.subtasks| + 1 - n case Sent => 0
  }

  function Measure<R>(s: State<R>): int {
    AheadAll(s.subtasks) + PcAhead(s)
  }

  lemma {:induction false} AheadUpdate<R>(ts: seq<Status<R>>, i: nat, t: Status<R>)
    requires i < |ts|
    ensures AheadAll(ts[i := t]) == AheadAll(ts) - Ahead(ts[i]) + Ahead(t)
  {
    if i == 0 {
      assert ts[0 := t][1..] == ts[1..];
    } else {
      assert ts[i := t][1..] == ts[1..][i - 1 := t];
      AheadUpdate(ts[1..], i - 1, t);
    }
  }

  /** Every step brings the reply nearer. */
  lemma StepFalls<R(!new)>(concurrent: seq<bool>, s: State<R>, s': State<R>)
    requires Inv(concurrent, s) && Next(concurrent, s, s')
    ensures 0 <= Measure(s') < Measure(s)
  {
    StepKeepsInv(concurrent, s, s');
    if StartsOne(concurrent, s, s') {
      OneFalls(concurrent, s, s', s.pc.n);
    } else if RunsDeferred(s, s') {
      OneFalls(concurrent, s, s', s.pc.n);
    } else if i: nat, r :| ThreadFinishes(s, i, r, s') {
      OneFalls(concurrent, s, s', i);
    } else if r :| DeferredFinishes(s, r, s') {
      OneFalls(concurrent, s, s', s.pc.n);
    }
  }

  /** A step of subtask i alone. */
  lemma OneFalls<R>(concurrent: seq<bool>, s: State<R>, s': State<R>, i: nat)
    requires Inv(concurrent, s) && i < |s.subtasks| && |s'.subtasks| == |s.subtasks|
    requires s'.subtasks == s.subtasks[i := s'.subtasks[i]]
    ensures SubtaskOk(concurrent, s, i)
    ensures AheadAll(s'.subtasks) == AheadAll(s.subtasks) - Ahead(s.subtasks[i]) + Ahead(s'.subtasks[i])
  {
    AheadUpdate(s.subtasks, i, s'.subtasks[i]);
  }

  /** Before the reply is sent some step is always possible; `r` stands for what a subtask may result in. */
  lemma StepExists<R(!new)>(concurrent: seq<bool>, s: State<R>, r: R) returns (s': State<R>)
    requires Inv(concurrent, s) && s.pc != Sent
    ensures Next(concurrent, s, s')
  {
    match s.pc
    case Starting(n) =>
      if n < |s.subtasks| {
        s' := s.(pc := Starting(n + 1), subtasks := s.subtasks[n := if concurrent[n] then InThread else Deferred]);
        assert StartsOne(concurrent, s, s');
      } else {
        s' := s.(pc := Collecting(0));
        assert AllStarted(s, s');
      }
    case Collecting(n) =>
      if n == |s.subtasks| {
        s' := s.(pc := Sent, replies := s.replies + [s.results]);
        assert Replies(s, s');
      } else {
        assert SubtaskOk(concurrent, s, n);
        match s.subtasks[n]
        case Deferred =>
          s' := s.(subtasks := s.subtasks[n := InCollector]);
          assert RunsDeferred(s, s');
        case InThread =>
          s' := s.(subtasks := s.subtasks[n := Done(r)]);
          assert ThreadFinishes(s, n, r, s');
        case InCollector =>
          s' := s.(subtasks := s.subtasks[n := Done(r)]);
          assert DeferredFinishes(s, r, s');
        case Done(x) =>
          s' := s.(pc := Collecting(n + 1), results := s.results + [x]);
          assert Collects(s, s');
      }
  }

  lemma {:induction false} RunIsBounded<R(!new)>(concurrent: seq<bool>, ss: seq<State<R>>)
    requires Behaviour(concurrent, ss)
    ensures 0 <= Measure(ss[|ss| - 1]) && |ss| - 1 + Measure(ss[|ss| - 1]) <= 4 * |concurrent| + 2
    decreases |ss|
  {
    AlwaysInv(concurrent, ss);
    if |ss| == 1 {
      StartMeasure<R>(|concurrent|);
    } else {
      var n := |ss| - 2;
      AlwaysInv(concurrent, ss[..|ss| - 1]);
      RunIsBounded(concurrent, ss[..|ss| - 1]);
      assert Next(concurrent, ss[n], ss[n + 1]);
      StepFalls(concurrent, ss[n], ss[n + 1]);
    }
  }

  lemma {:induction false} StartMeasure<R>(n: nat)
    ensures AheadAll(Repeat<Status<R>>(Unstarted, n)) == 3 * n
  {
    if n > 0 {
      assert Repeat<Status<R>>(Unstarted, n)[1..] == Repeat<Status<R>>(Unstarted, n - 1);
      StartMeasure<R>(n - 1);
    }
  }

  ghost predicate CanGoOn<R(!new)>(concurrent: seq<bool>, s: State<R>) {
    exists s' :: Next(concurrent, s, s')
  }

  /** Once the reply is sent nothing is left to do. */
  lemma SentIsFinal<R(!new)>(concurrent: seq<bool>, s: State<R>)
    requires Inv(concurrent, s) && s.pc == Sent
    ensures !CanGoOn(concurrent, s)
  {
    forall i: nat | i < |s.subtasks|
      ensures s.subtasks[i].Done?
    {
      assert SubtaskOk(concurrent, s, i);
    }
  }

  /**
   Every container is answered: no run has more than 4n + 2 steps for n subtasks, and a run can go on
   exactly as long as the reply has not been sent.
   */
  lemma RunsEndInReply<R(!new)>(concurrent: seq<bool>, ss: seq<State<R>>, r: R)
    requires Behaviour(concurrent, ss)
    ensures |ss| - 1 <= 4 * |concurrent| + 2
    ensures CanGoOn(concurrent, ss[|ss| - 1]) <==> ss[|ss| - 1].pc != Sent
  {
    var s := ss[|ss| - 1];
    AlwaysInv(concurrent, ss);
    RunIsBounded(concurrent, ss);
    if s.pc != Sent {
      var s' := StepExists(concurrent, s, r);
    } else {
      SentIsFinal(concurrent, s);
    }
  }
}
