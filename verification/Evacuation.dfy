/**
 The evacuation scheduler: a deque of destination hosts with their remaining capacities, of which
 every call takes the front host and then rearranges the deque according to the mode.

 The host type is a parameter. The scheduler never looks at a host, so a run on labelled hosts
 shows which position of the list was served (see `ErasedRun`), even when a host is listed twice.
 */
module Evacuation {
  import opened Sequences

  datatype Mode = Compact | Scatter | Auto | Unknown

  datatype Entry<+H> = Entry(host: H, capacity: int)

  type Deque<H> = seq<Entry<H>>

  function ParseMode(mode: string): Mode {
    if mode == "compact" then Compact
    else if mode == "scatter" then Scatter
    else if mode == "auto" then Auto
    else Unknown
  }

  /** One domain is placed on the front host. */
  function Used<H>(q: Deque<H>): Deque<H>
    requires q != []
  {
    [q[0].(capacity := q[0].capacity - 1)] + q[1..]
  }

  /** The deque after one call in the modes whose outcome is determined. */
  function Rearranged<H>(q: Deque<H>, overbooking: bool, mode: Mode): Deque<H>
    requires q != [] && mode != Auto
  {
    var u := Used(q);
    match mode
    case Compact => if u[0].capacity < 1 then (if overbooking then Rotate(u) else u[1..]) else u
    case Scatter => if u[0].capacity < 1 && !overbooking then u[1..] else Rotate(u)
    case Unknown => u
  }

  ghost predicate Descending<H>(q: Deque<H>) {
    forall i, j :: 0 <= i < j < |q| ==> q[i].capacity >= q[j].capacity
  }

  /** What std::sort promises: some descending order, ties in any order. */
  ghost predicate DescendingPermutation<H>(q: Deque<H>, q': Deque<H>) {
    Descending(q') && multiset(q') == multiset(q)
  }

  /** One successful call turns the deque q into q'; the destination is q[0].host. */
  ghost predicate Taken<H>(q: Deque<H>, overbooking: bool, mode: Mode, q': Deque<H>) {
    && q != []
    && if mode == Auto then DescendingPermutation(Used(q), q') else q' == Rearranged(q, overbooking, mode)
  }

  /** No deque but the last may be empty. */
  ghost predicate NeverEmpty<H>(qs: seq<Deque<H>>) {
    && |qs| > 0
    && forall i :: 0 <= i < |qs| - 1 ==> |qs[i]| > 0
  }

  /** The deques before, between and after |qs| - 1 successful calls. */
  ghost predicate Run<H>(qs: seq<Deque<H>>, overbooking: bool, mode: Mode) {
    && NeverEmpty(qs)
    && forall i :: 0 <= i < |qs| - 1 ==> Taken(qs[i], overbooking, mode, qs[i + 1])
  }

  /** A run without its last call, and that call. */
  lemma RunLast<H>(qs: seq<Deque<H>>, overbooking: bool, mode: Mode)
    requires Run(qs, overbooking, mode) && |qs| > 1
    ensures Run(qs[..|qs| - 1], overbooking, mode)
    ensures qs[|qs| - 2] != [] && Taken(qs[|qs| - 2], overbooking, mode, qs[|qs| - 1])
  {
    var n := |qs| - 2;
    assert Taken(qs[n], overbooking, mode, qs[n + 1]);
    assert |qs[n]| > 0;
  }

  /** A run without its first call, and that call. */
  lemma RunFirst<H>(qs: seq<Deque<H>>, overbooking: bool, mode: Mode)
    requires Run(qs, overbooking, mode) && |qs| > 1
    ensures Run(qs[1..], overbooking, mode)
    ensures qs[0] != [] && Taken(qs[0], overbooking, mode, qs[1])
  {
    var tail := qs[1..];
    forall i | 0 <= i < |tail| - 1
      ensures |tail[i]| > 0 && Taken(tail[i], overbooking, mode, tail[i + 1])
    {
      assert |qs[i + 1]| > 0 && Taken(qs[i + 1], overbooking, mode, qs[i + 1 + 1]);
    }
    assert Taken(qs[0], overbooking, mode, qs[0 + 1]);
  }

  lemma RunExtend<H>(qs: seq<Deque<H>>, overbooking: bool, mode: Mode, q': Deque<H>)
    requires Run(qs, overbooking, mode) && Taken(qs[|qs| - 1], overbooking, mode, q')
    ensures Run(qs + [q'], overbooking, mode)
  {
    var all := qs + [q'];
    forall i | 0 <= i < |all| - 1
      ensures |all[i]| > 0 && Taken(all[i], overbooking, mode, all[i + 1])
    {
      if i < |qs| - 1 {
        assert |qs[i]| > 0 && Taken(qs[i], overbooking, mode, qs[i + 1]);
      }
    }
  }

  /** The destinations handed out by n calls; calls on an empty deque throw and hand out nothing. */
  function Outputs<H>(q: Deque<H>, overbooking: bool, mode: Mode, n: nat): seq<H>
    requires mode != Auto
    decreases n
  {
    if n == 0 || q == [] then []
    else [q[0].host] + Outputs(Rearranged(q, overbooking, mode), overbooking, mode, n - 1)
  }

  /** The deque after n calls. */
  function After<H>(q: Deque<H>, overbooking: bool, mode: Mode, n: nat): Deque<H>
    requires mode != Auto
    decreases n
  {
    if n == 0 || q == [] then q
    else After(Rearranged(q, overbooking, mode), overbooking, mode, n - 1)
  }

  function Hosts<H>(q: Deque<H>): (hs: seq<H>) {
    seq(|q|, i requires 0 <= i < |q| => q[i].host)
  }

  function Total<H>(q: Deque<H>): int {
    SumBy((e: Entry<H>) => e.capacity, q)
  }

  ghost predicate AllPositive<H>(q: Deque<H>) {
    forall i :: 0 <= i < |q| ==> q[i].capacity >= 1
  }

  /** No call ever drops a host: its domains may exceed its capacity. */
  predicate NeverDrops(overbooking: bool, mode: Mode) {
    overbooking || mode == Auto || mode == Unknown
  }

  // ---------------------------------------------------------------------------------------------
  // Runs compose
  // ---------------------------------------------------------------------------------------------

  lemma {:induction false} RunsCompose<H>(q: Deque<H>, overbooking: bool, mode: Mode, m: nat, n: nat)
    requires mode != Auto
    ensures Outputs(q, overbooking, mode, m + n)
         == Outputs(q, overbooking, mode, m) + Outputs(After(q, overbooking, mode, m), overbooking, mode, n)
    ensures After(q, overbooking, mode, m + n) == After(After(q, overbooking, mode, m), overbooking, mode, n)
    decreases m
  {
    if m != 0 && q != [] {
      var next := Rearranged(q, overbooking, mode);
      RunsCompose(next, overbooking, mode, m - 1, n);
      var head, first := [q[0].host], Outputs(next, overbooking, mode, m - 1);
      var mid := After(next, overbooking, mode, m - 1);
      var second := Outputs(mid, overbooking, mode, n);
      assert head + (first + second) == (head + first) + second;
      assert Outputs(q, overbooking, mode, m + n) == head + (first + second) by {
        OneMoreCall(q, overbooking, mode, m - 1 + n);
      }
      assert Outputs(q, overbooking, mode, m) == head + first && After(q, overbooking, mode, m) == mid by {
        OneMoreCall(q, overbooking, mode, m - 1);
      }
    } else {
      assert Outputs(q, overbooking, mode, m) == [] && After(q, overbooking, mode, m) == q;
    }
  }

  lemma OneMoreCall<H>(q: Deque<H>, overbooking: bool, mode: Mode, n: nat)
    requires mode != Auto && q != []
    ensures Outputs(q, overbooking, mode, n + 1)
         == [q[0].host] + Outputs(Rearranged(q, overbooking, mode), overbooking, mode, n)
    ensures After(q, overbooking, mode, n + 1) == After(Rearranged(q, overbooking, mode), overbooking, mode, n)
  {
  }

  lemma {:induction false} OutputsBound<H>(q: Deque<H>, overbooking: bool, mode: Mode, n: nat)
    requires mode != Auto
    ensures |Outputs(q, overbooking, mode, n)| <= n
    ensures After(q, overbooking, mode, n) != [] ==> |Outputs(q, overbooking, mode, n)| == n
    decreases n
  {
    if n != 0 && q != [] {
      OutputsBound(Rearranged(q, overbooking, mode), overbooking, mode, n - 1);
    }
  }

  lemma OneCall<H>(q: Deque<H>, overbooking: bool, mode: Mode)
    requires mode != Auto && q != []
    ensures Outputs(q, overbooking, mode, 1) == [q[0].host]
    ensures After(q, overbooking, mode, 1) == Rearranged(q, overbooking, mode)
  {
    var next := Rearranged(q, overbooking, mode);
    assert Outputs(next, overbooking, mode, 0) == [] && After(next, overbooking, mode, 0) == next;
  }

  /** Two stretches of calls, each known, make up the whole. */
  lemma RunsChain<H>(q: Deque<H>, overbooking: bool, mode: Mode, m: nat, n: nat,
                     o: seq<H>, mid: Deque<H>, o': seq<H>, last: Deque<H>)
    requires mode != Auto
    requires Outputs(q, overbooking, mode, m) == o && After(q, overbooking, mode, m) == mid
    requires Outputs(mid, overbooking, mode, n) == o' && After(mid, overbooking, mode, n) == last
    ensures Outputs(q, overbooking, mode, m + n) == o + o'
    ensures After(q, overbooking, mode, m + n) == last
  {
    RunsCompose(q, overbooking, mode, m, n);
  }

  /** Fewer calls hand out a prefix of what more calls hand out. */
  lemma OutputsPrefix<H>(q: Deque<H>, overbooking: bool, mode: Mode, n: nat, m: nat)
    requires mode != Auto
    ensures Outputs(q, overbooking, mode, n) == Prefix(Outputs(q, overbooking, mode, n + m), n)
  {
    RunsCompose(q, overbooking, mode, n, m);
    OutputsBound(q, overbooking, mode, n);
    var o := Outputs(q, overbooking, mode, n);
    if After(q, overbooking, mode, n) == [] {
      assert o + [] == o;
    }
  }

  /** Once the deque is empty, more calls hand out nothing. */
  lemma NothingAfter<H>(q: Deque<H>, overbooking: bool, mode: Mode, n: nat, m: nat)
    requires mode != Auto && After(q, overbooking, mode, n) == []
    ensures Outputs(q, overbooking, mode, n + m) == Outputs(q, overbooking, mode, n)
    ensures After(q, overbooking, mode, n + m) == []
  {
    RunsCompose(q, overbooking, mode, n, m);
    assert Outputs(q, overbooking, mode, n) + [] == Outputs(q, overbooking, mode, n);
  }

  // ---------------------------------------------------------------------------------------------
  // Conservation
  // ---------------------------------------------------------------------------------------------

  lemma UsedTotal<H>(q: Deque<H>)
    requires q != []
    ensures Total(Used(q)) == Total(q) - 1
  {
    assert Used(q)[1..] == q[1..];
  }

  lemma RotateTotal<H>(q: Deque<H>)
    requires q != []
    ensures Total(Rotate(q)) == Total(q)
  {
    SumByConcat((e: Entry<H>) => e.capacity, q[1..], [q[0]]);
  }

  /** One call takes exactly one unit of capacity, and without overbooking no entry falls below 1. */
  lemma TakenConserves<H>(q: Deque<H>, overbooking: bool, mode: Mode, q': Deque<H>)
    requires Taken(q, overbooking, mode, q')
    requires NeverDrops(overbooking, mode) || AllPositive(q)
    ensures Total(q') == Total(q) - 1
    ensures NeverDrops(overbooking, mode) ==> |q'| == |q|
    ensures !NeverDrops(overbooking, mode) ==> AllPositive(q')
  {
    var u := Used(q);
    UsedTotal(q);
    if mode == Auto {
      SumByPermutation((e: Entry<H>) => e.capacity, u, q');
      PermutationLength(u, q');
    } else {
      RotateTotal(u);
      assert u == [u[0]] + u[1..];
    }
  }

  /** Every run: the capacity spent is the number of calls, whichever hosts were served. */
  lemma {:induction false} Conservation<H>(qs: seq<Deque<H>>, overbooking: bool, mode: Mode)
    requires Run(qs, overbooking, mode)
    requires NeverDrops(overbooking, mode) || AllPositive(qs[0])
    ensures var last := qs[|qs| - 1];
            && Total(qs[0]) - Total(last) == |qs| - 1
            && (NeverDrops(overbooking, mode) ==> |last| == |qs[0]|)
            && (!NeverDrops(overbooking, mode) ==> AllPositive(last))
  {
    if |qs| > 1 {
      RunLast(qs, overbooking, mode);
      Conservation(qs[..|qs| - 1], overbooking, mode);
      TakenConserves(qs[|qs| - 2], overbooking, mode, qs[|qs| - 1]);
    }
  }

  /** The destinations handed out in a run. */
  ghost function Destinations<H>(qs: seq<Deque<H>>): (hosts: seq<H>)
    requires NeverEmpty(qs)
  {
    seq(|qs| - 1, i requires 0 <= i < |qs| - 1 => qs[i][0].host)
  }

  /** In the determined modes there is only one run, the one `Outputs` and `After` describe. */
  lemma {:induction false} RunIsDetermined<H>(qs: seq<Deque<H>>, overbooking: bool, mode: Mode)
    requires Run(qs, overbooking, mode) && mode != Auto
    ensures Destinations(qs) == Outputs(qs[0], overbooking, mode, |qs| - 1)
    ensures qs[|qs| - 1] == After(qs[0], overbooking, mode, |qs| - 1)
    decreases |qs|
  {
    if |qs| > 1 {
      RunFirst(qs, overbooking, mode);
      RunIsDetermined(qs[1..], overbooking, mode);
      assert Destinations(qs) == [qs[0][0].host] + Destinations(qs[1..]);
    }
  }

  /** The capacity listed for host h, over all the positions that name it. */
  ghost function CapacityOf<H>(q: Deque<H>, h: H): int {
    SumBy((e: Entry<H>) => if e.host == h then e.capacity else 0, q)
  }

  lemma {:induction false} CapacityOfPositive<H>(q: Deque<H>, h: H)
    requires AllPositive(q)
    ensures CapacityOf(q, h) >= 0
  {
    if q != [] {
      CapacityOfPositive(q[1..], h);
    }
  }

  lemma TakenServesFront<H>(q: Deque<H>, overbooking: bool, mode: Mode, q': Deque<H>, h: H)
    requires Taken(q, overbooking, mode, q')
    requires NeverDrops(overbooking, mode) || AllPositive(q)
    ensures CapacityOf(q', h) == CapacityOf(q, h) - if q[0].host == h then 1 else 0
  {
    var f := (e: Entry<H>) => if e.host == h then e.capacity else 0;
    var u := Used(q);
    assert u[1..] == q[1..];
    assert SumBy(f, u) == CapacityOf(q, h) - if q[0].host == h then 1 else 0;
    if mode == Auto {
      SumByPermutation(f, u, q');
    } else {
      SumByConcat(f, u[1..], [u[0]]);
    }
  }

  /** Every run: what a host has left plus the domains it received is what it had, in every mode. */
  lemma {:induction false} HostConservation<H>(qs: seq<Deque<H>>, overbooking: bool, mode: Mode, h: H)
    requires Run(qs, overbooking, mode)
    requires NeverDrops(overbooking, mode) || AllPositive(qs[0])
    ensures CapacityOf(qs[0], h) == CapacityOf(qs[|qs| - 1], h) + multiset(Destinations(qs))[h]
    ensures !NeverDrops(overbooking, mode) ==> multiset(Destinations(qs))[h] <= CapacityOf(qs[0], h)
    decreases |qs|
  {
    if |qs| == 1 {
      assert Destinations(qs) == [];
    } else {
      var n := |qs| - 2;
      var init := qs[..|qs| - 1];
      RunLast(qs, overbooking, mode);
      HostConservation(init, overbooking, mode, h);
      Conservation(init, overbooking, mode);
      TakenServesFront(qs[n], overbooking, mode, qs[n + 1], h);
      DestinationsLast(qs);
    }
    Conservation(qs, overbooking, mode);
    if !NeverDrops(overbooking, mode) {
      CapacityOfPositive(qs[|qs| - 1], h);
    }
  }

  lemma DestinationsLast<H>(qs: seq<Deque<H>>)
    requires NeverEmpty(qs) && |qs| > 1
    ensures |qs[|qs| - 2]| > 0
    ensures Destinations(qs) == Destinations(qs[..|qs| - 1]) + [qs[|qs| - 2][0].host]
  {
  }

  lemma {:induction false} TotalOfPositive<H>(q: Deque<H>)
    requires AllPositive(q)
    ensures Total(q) >= |q|
  {
    if q != [] {
      TotalOfPositive(q[1..]);
    }
  }

  /** With overbooking off, exactly Total(q) calls succeed; the next one throws. */
  lemma {:induction false} CallsUntilExhausted<H>(q: Deque<H>, mode: Mode, n: nat)
    requires AllPositive(q) && (mode == Compact || mode == Scatter)
    ensures |Outputs(q, false, mode, n)| == Min(n, Total(q))
    ensures After(q, false, mode, n) == [] <==> n >= Total(q)
    ensures AllPositive(After(q, false, mode, n))
    ensures Total(After(q, false, mode, n)) == Total(q) - |Outputs(q, false, mode, n)|
    decreases n
  {
    TotalOfPositive(q);
    if n != 0 && q != [] {
      TakenConserves(q, false, mode, Rearranged(q, false, mode));
      CallsUntilExhausted(Rearranged(q, false, mode), mode, n - 1);
    }
  }

  // ---------------------------------------------------------------------------------------------
  // Compact: fill one host, then go to the next
  // ---------------------------------------------------------------------------------------------

  /** Every host as often as it has capacity, but at least `least` times, in list order. */
  function Filled<H>(q: Deque<H>, least: nat): seq<H> {
    if q == [] then [] else Repeat(q[0].host, Max(least, q[0].capacity)) + Filled(q[1..], least)
  }

  /** The front host is served until it is full, and at least once. */
  lemma {:induction false} CompactFront<H>(q: Deque<H>, overbooking: bool)
    requires q != []
    ensures var n := Max(1, q[0].capacity);
            && Outputs(q, overbooking, Compact, n) == Repeat(q[0].host, n)
            && After(q, overbooking, Compact, n)
               == q[1..] + if overbooking then [q[0].(capacity := q[0].capacity - n)] else []
    decreases q[0].capacity
  {
    var n := Max(1, q[0].capacity);
    var next := Rearranged(q, overbooking, Compact);
    if q[0].capacity > 1 {
      CompactFront(next, overbooking);
      assert Repeat(q[0].host, n) == [q[0].host] + Repeat(q[0].host, n - 1);
      assert next[1..] == q[1..];
      if overbooking {
        assert next[0].(capacity := next[0].capacity - (n - 1)) == q[0].(capacity := q[0].capacity - n);
      }
    } else {
      assert n == 1;
      assert Outputs(q, overbooking, Compact, 1) == [q[0].host] + Outputs(next, overbooking, Compact, 0);
      assert After(q, overbooking, Compact, 1) == After(next, overbooking, Compact, 0) == next;
      assert Repeat(q[0].host, 1) == [q[0].host];
      assert next == q[1..] + if overbooking then [q[0].(capacity := q[0].capacity - 1)] else [];
    }
  }

  lemma {:induction false} CompactFill<H>(q: Deque<H>)
    requires AllPositive(q)
    ensures Outputs(q, false, Compact, |Filled(q, 0)|) == Filled(q, 0)
    ensures After(q, false, Compact, |Filled(q, 0)|) == []
  {
    if q != [] {
      var n := q[0].capacity;
      assert Max(0, n) == Max(1, n) == n;
      CompactFront(q, false);
      assert q[1..] + [] == q[1..];
      CompactFill(q[1..]);
      RunsCompose(q, false, Compact, n, |Filled(q[1..], 0)|);
    }
  }

  /** Compact without overbooking: every host c_i times in list order, then nothing. */
  lemma CompactFillsInOrder<H>(q: Deque<H>, n: nat)
    requires AllPositive(q)
    ensures Outputs(q, false, Compact, n) == Prefix(Filled(q, 0), n)
  {
    var all := Filled(q, 0);
    CompactFill(q);
    if n <= |all| {
      OutputsPrefix(q, false, Compact, n, |all| - n);
    } else {
      RunsCompose(q, false, Compact, |all|, n - |all|);
      assert all + [] == all;
    }
  }

  ghost predicate AllSpent<H>(q: Deque<H>) {
    forall i :: 0 <= i < |q| ==> q[i].capacity <= 0
  }

  /** Endless round-robin over a list. */
  function Cyclic<H>(hosts: seq<H>, n: nat): seq<H>
    requires hosts != []
  {
    seq(n, k requires 0 <= k => hosts[k % |hosts|])
  }

  lemma CyclicUnfold<H>(hosts: seq<H>, n: nat)
    requires hosts != [] && n > 0
    ensures Cyclic(hosts, n) == [hosts[0]] + Cyclic(Rotate(hosts), n - 1)
  {
    var l := |hosts|;
    forall k: nat | k < n - 1
      ensures hosts[(k + 1) % l] == Rotate(hosts)[k % l]
    {
      NextIndex(k, l);
    }
    assert |Rotate(hosts)| == l;
    var lhs, rhs := Cyclic(hosts, n), [hosts[0]] + Cyclic(Rotate(hosts), n - 1);
    forall k: nat | k < n
      ensures lhs[k] == rhs[k]
    {
      if k > 0 {
        assert rhs[k] == Rotate(hosts)[(k - 1) % l];
        assert lhs[k] == hosts[k % l];
      }
    }
  }

  lemma NextIndex(k: nat, l: nat)
    requires l > 0
    ensures (k + 1) % l == if k % l == l - 1 then 0 else k % l + 1
  {
    var d, r := k / l, k % l;
    assert k == d * l + r;
    if r == l - 1 {
      assert k + 1 == (d + 1) * l;
      Remainder(k + 1, l, d + 1, 0);
    } else {
      Remainder(k + 1, l, d, r + 1);
    }
  }

  lemma NonzeroMultiple(x: int, l: nat)
    requires l > 0
    ensures x != 0 ==> x * l >= l || l + x * l <= 0
  {
    if x >= 1 {
      assert x * l >= l;
    } else if x <= -1 {
      assert (-x) * l >= l;
    }
  }

  lemma Remainder(k: nat, l: nat, d: nat, r: nat)
    requires l > 0 && r < l && k == d * l + r
    ensures k % l == r
  {
    var x := k / l - d;
    assert x * l == r - k % l;
    NonzeroMultiple(x, l);
  }

  /** A mode that rotates after every call serves the hosts in turn. */
  lemma {:induction false} RotatingIsCyclic<H>(q: Deque<H>, mode: Mode, n: nat)
    requires q != [] && (mode == Scatter || (mode == Compact && AllSpent(q)))
    ensures Outputs(q, true, mode, n) == Cyclic(Hosts(q), n)
    decreases n
  {
    if n > 0 {
      var next := Rearranged(q, true, mode);
      assert next == Rotate(Used(q));
      assert Hosts(next) == Rotate(Hosts(q));
      RotatingIsCyclic(next, mode, n - 1);
      CyclicUnfold(Hosts(q), n);
    }
  }

  /** Scatter with overbooking is plain round-robin over the list, for ever. */
  lemma ScatterOverbookingIsRoundRobin<H>(q: Deque<H>, n: nat)
    requires q != []
    ensures Outputs(q, true, Scatter, n) == Cyclic(Hosts(q), n)
  {
    RotatingIsCyclic(q, Scatter, n);
  }

  lemma {:induction false} CompactFirstPass<H>(ahead: Deque<H>, spent: Deque<H>) returns (rest: Deque<H>)
    requires AllSpent(spent)
    ensures Outputs(ahead + spent, true, Compact, |Filled(ahead, 1)|) == Filled(ahead, 1)
    ensures After(ahead + spent, true, Compact, |Filled(ahead, 1)|) == rest
    ensures Hosts(rest) == Hosts(spent) + Hosts(ahead) && AllSpent(rest)
    decreases |ahead|
  {
    var q := ahead + spent;
    if ahead == [] {
      rest := spent;
      assert q == spent;
      assert Hosts(spent) + Hosts<H>([]) == Hosts(spent);
    } else {
      var n, done := Max(1, ahead[0].capacity), Done(ahead[0]);
      HostDone(ahead, spent);
      HostsMove(ahead, spent);
      rest := CompactFirstPass(ahead[1..], spent + [done]);
      RunsChain(q, true, Compact, n, |Filled(ahead[1..], 1)|, Repeat(ahead[0].host, n),
                ahead[1..] + (spent + [done]), Filled(ahead[1..], 1), rest);
    }
  }

  /** A host after its turn in the first pass. */
  function Done<H>(e: Entry<H>): Entry<H> {
    e.(capacity := e.capacity - Max(1, e.capacity))
  }

  lemma HostsMove<H>(ahead: Deque<H>, spent: Deque<H>)
    requires ahead != []
    ensures Hosts(spent + [Done(ahead[0])]) + Hosts(ahead[1..]) == Hosts(spent) + Hosts(ahead)
  {
  }

  lemma HostDone<H>(ahead: Deque<H>, spent: Deque<H>)
    requires ahead != [] && AllSpent(spent)
    ensures var n := Max(1, ahead[0].capacity);
            && Outputs(ahead + spent, true, Compact, n) == Repeat(ahead[0].host, n)
            && After(ahead + spent, true, Compact, n) == ahead[1..] + (spent + [Done(ahead[0])])
    ensures AllSpent(spent + [Done(ahead[0])])
  {
    var q := ahead + spent;
    CompactFront(q, true);
    assert q[1..] + [Done(ahead[0])] == ahead[1..] + (spent + [Done(ahead[0])]);
  }

  /**
   Compact with overbooking: in a first pass the host at position i gets max(1, c_i) domains in a
   row, in list order; after that the hosts are served in turn for ever.
   */
  lemma CompactOverbookingClosedForm<H>(q: Deque<H>, n: nat)
    requires q != []
    ensures Outputs(q, true, Compact, n)
         == Prefix(Filled(q, 1), n) + Cyclic(Hosts(q), Max(0, n - |Filled(q, 1)|))
  {
    var first := Filled(q, 1);
    var rest := FirstPass(q);
    if n <= |first| {
      OutputsPrefix(q, true, Compact, n, |first| - n);
      assert Cyclic(Hosts(q), 0) == [];
    } else {
      var m := n - |first|;
      RotatingIsCyclic(rest, Compact, m);
      RunsChain(q, true, Compact, |first|, m, first, rest, Cyclic(Hosts(q), m), After(rest, true, Compact, m));
    }
  }

  lemma FirstPass<H>(q: Deque<H>) returns (rest: Deque<H>)
    ensures Outputs(q, true, Compact, |Filled(q, 1)|) == Filled(q, 1)
    ensures After(q, true, Compact, |Filled(q, 1)|) == rest
    ensures Hosts(rest) == Hosts(q) && |rest| == |q| && AllSpent(rest)
  {
    assert q + [] == q;
    assert Hosts<H>([]) + Hosts(q) == Hosts(q);
    rest := CompactFirstPass(q, []);
    assert |rest| == |Hosts(rest)|;
  }

  /** In an unknown mode every call serves the front host, whatever its capacity. */
  lemma {:induction false} UnknownServesFront<H>(q: Deque<H>, overbooking: bool, n: nat)
    requires q != []
    ensures Outputs(q, overbooking, Unknown, n) == Repeat(q[0].host, n)
    ensures After(q, overbooking, Unknown, n) == [q[0].(capacity := q[0].capacity - n)] + q[1..]
    decreases n
  {
    if n == 0 {
      assert [q[0]] + q[1..] == q;
    } else {
      var next := Rearranged(q, overbooking, Unknown);
      UnknownServesFront(next, overbooking, n - 1);
      OneMoreCall(q, overbooking, Unknown, n - 1);
      assert next[1..] == q[1..];
      assert Repeat(q[0].host, n) == [q[0].host] + Repeat(q[0].host, n - 1);
    }
  }

  // ---------------------------------------------------------------------------------------------
  // Scatter without overbooking: the round table
  // ---------------------------------------------------------------------------------------------

  /** The entries with capacity above r, reduced by r: what is left once r rounds are over. */
  function Left<H>(q: Deque<H>, r: nat): Deque<H> {
    if q == [] then []
    else (if q[0].capacity > r then [q[0].(capacity := q[0].capacity - r)] else []) + Left(q[1..], r)
  }

  /** Round r of the table: the hosts with capacity above r, in list order. */
  function Round<H>(q: Deque<H>, r: nat): seq<H> {
    if q == [] then []
    else (if q[0].capacity > r then [q[0].host] else []) + Round(q[1..], r)
  }

  function LargestCapacity<H>(q: Deque<H>): nat {
    if q == [] then 0 else Max(Max(0, q[0].capacity), LargestCapacity(q[1..]))
  }

  /** Rounds r, r + 1, ... up to the last that has a host. */
  function RoundTable<H>(q: Deque<H>, r: nat): seq<H>
    decreases LargestCapacity(q) - r
  {
    if r >= LargestCapacity(q) then [] else Round(q, r) + RoundTable(q, r + 1)
  }

  lemma HostsUnfold<H>(a: Deque<H>)
    requires a != []
    ensures Hosts(a) == [a[0].host] + Hosts(a[1..])
  {
  }

  lemma {:induction false} LeftFacts<H>(q: Deque<H>, r: nat)
    ensures Hosts(Left(q, r)) == Round(q, r)
    ensures AllPositive(Left(q, r))
    ensures Left(q, r) == [] <==> r >= LargestCapacity(q)
  {
    if q != [] {
      LeftFacts(q[1..], r);
      if q[0].capacity > r {
        assert Left(q, r)[1..] == Left(q[1..], r);
        HostsUnfold(Left(q, r));
      } else {
        assert Left(q, r) == Left(q[1..], r) && Round(q, r) == Round(q[1..], r);
      }
    }
  }

  lemma {:induction false} LeftLeft<H>(q: Deque<H>, r: nat)
    ensures Left(Left(q, r), 1) == Left(q, r + 1)
  {
    if q != [] {
      LeftLeft(q[1..], r);
      if q[0].capacity > r {
        assert Left(q, r)[1..] == Left(q[1..], r);
      } else {
        assert Left(q, r) == Left(q[1..], r) && Left(q, r + 1) == Left(q[1..], r + 1);
      }
    }
  }

  lemma {:induction false} LeftZero<H>(q: Deque<H>)
    requires AllPositive(q)
    ensures Left(q, 0) == q
  {
    if q != [] {
      LeftZero(q[1..]);
    }
  }

  /** Where an entry goes after being served: to the back if it still has capacity. */
  function Again<H>(e: Entry<H>): Deque<H> {
    if e.capacity > 1 then [e.(capacity := e.capacity - 1)] else []
  }

  lemma ScatterOnce<H>(q: Deque<H>)
    requires q != [] && q[0].capacity >= 1
    ensures Outputs(q, false, Scatter, 1) == [q[0].host]
    ensures After(q, false, Scatter, 1) == q[1..] + Again(q[0])
  {
    OneCall(q, false, Scatter);
    assert Used(q)[1..] == q[1..];
    assert q[1..] + [] == q[1..];
  }

  lemma LeftUnfold<H>(a: Deque<H>)
    requires a != [] && a[0].capacity >= 1
    ensures Left(a, 1) == Again(a[0]) + Left(a[1..], 1)
  {
  }

  /** One round: the hosts in `a` are served once each; those not full yet queue up again. */
  lemma {:induction false} ScatterRound<H>(a: Deque<H>, b: Deque<H>)
    requires AllPositive(a)
    ensures Outputs(a + b, false, Scatter, |a|) == Hosts(a)
    ensures After(a + b, false, Scatter, |a|) == b + Left(a, 1)
    decreases |a|
  {
    if a == [] {
      assert b + [] == b && a + b == b;
    } else {
      var x := Again(a[0]);
      ScatterRound(a[1..], b + x);
      LeftUnfold(a);
      Regroup(a, b, x, Left(a[1..], 1));
      ScatterThen(a + b, a[1..] + (b + x), |a| - 1, Hosts(a[1..]), b + Left(a, 1));
      HostsUnfold(a);
    }
  }

  lemma Regroup<T>(a: seq<T>, b: seq<T>, x: seq<T>, y: seq<T>)
    requires a != []
    ensures (a + b)[1..] + x == a[1..] + (b + x)
    ensures (b + x) + y == b + (x + y)
  {
  }

  lemma ScatterThen<H>(q: Deque<H>, mid: Deque<H>, n: nat, hosts: seq<H>, last: Deque<H>)
    requires q != [] && q[0].capacity >= 1 && q[1..] + Again(q[0]) == mid
    requires Outputs(mid, false, Scatter, n) == hosts && After(mid, false, Scatter, n) == last
    ensures Outputs(q, false, Scatter, n + 1) == [q[0].host] + hosts
    ensures After(q, false, Scatter, n + 1) == last
  {
    ScatterOnce(q);
    RunsChain(q, false, Scatter, 1, n, [q[0].host], mid, hosts, last);
  }

  lemma {:induction false} ScatterRounds<H>(q: Deque<H>, r: nat)
    ensures Outputs(Left(q, r), false, Scatter, |RoundTable(q, r)|) == RoundTable(q, r)
    ensures After(Left(q, r), false, Scatter, |RoundTable(q, r)|) == []
    decreases LargestCapacity(q) - r
  {
    LeftFacts(q, r);
    if r < LargestCapacity(q) {
      OneRound(q, r);
      ScatterRounds(q, r + 1);
      RunsChain(Left(q, r), false, Scatter, |Round(q, r)|, |RoundTable(q, r + 1)|,
                Round(q, r), Left(q, r + 1), RoundTable(q, r + 1), []);
    }
  }

  lemma OneRound<H>(q: Deque<H>, r: nat)
    ensures Outputs(Left(q, r), false, Scatter, |Round(q, r)|) == Round(q, r)
    ensures After(Left(q, r), false, Scatter, |Round(q, r)|) == Left(q, r + 1)
  {
    var l := Left(q, r);
    LeftFacts(q, r);
    LeftLeft(q, r);
    ScatterRound(l, []);
    assert l + [] == l && [] + Left(l, 1) == Left(l, 1);
    assert |Round(q, r)| == |l|;
  }

  /** Scatter without overbooking hands out the round table, row by row, and then nothing. */
  lemma ScatterIsRoundTable<H>(q: Deque<H>, n: nat)
    requires AllPositive(q)
    ensures Outputs(q, false, Scatter, n) == Prefix(RoundTable(q, 0), n)
    ensures |RoundTable(q, 0)| == Total(q)
  {
    var all := RoundTable(q, 0);
    LeftZero(q);
    ScatterRounds(q, 0);
    CallsUntilExhausted(q, Scatter, |all|);
    CallsUntilExhausted(q, Scatter, |all| + 1);
    NothingAfter(q, false, Scatter, |all|, 1);
    if n <= |all| {
      OutputsPrefix(q, false, Scatter, n, |all| - n);
    } else {
      NothingAfter(q, false, Scatter, |all|, n - |all|);
    }
  }

  // ---------------------------------------------------------------------------------------------
  // Which position was served how often
  // ---------------------------------------------------------------------------------------------

  /** Every entry remembers its position and its capacity at the start. */
  datatype Label<+H> = Label(name: H, position: nat, initial: int)

  function Labelled<H>(q: Deque<H>): (l: Deque<Label<H>>)
    ensures Erased(l) == q
  {
    seq(|q|, i requires 0 <= i < |q| => Entry(Label(q[i].host, i, q[i].capacity), q[i].capacity))
  }

  function Erased<H>(l: Deque<Label<H>>): (q: Deque<H>)
    ensures |q| == |l|
  {
    seq(|l|, i requires 0 <= i < |l| => Entry(l[i].host.name, l[i].capacity))
  }

  function Names<H>(labels: seq<Label<H>>): seq<H> {
    seq(|labels|, i requires 0 <= i < |labels| => labels[i].name)
  }

  /** The scheduler does not look at hosts: a labelled run is the plain run with labels added. */
  lemma {:induction false} ErasedRun<H>(l: Deque<Label<H>>, overbooking: bool, mode: Mode, n: nat)
    requires mode != Auto
    ensures Outputs(Erased(l), overbooking, mode, n) == Names(Outputs(l, overbooking, mode, n))
    ensures After(Erased(l), overbooking, mode, n) == Erased(After(l, overbooking, mode, n))
    decreases n
  {
    if n != 0 && l != [] {
      var next := Rearranged(l, overbooking, mode);
      ErasedCall(l, overbooking, mode);
      ErasedRun(next, overbooking, mode, n - 1);
      OneMoreCall(l, overbooking, mode, n - 1);
      OneMoreCall(Erased(l), overbooking, mode, n - 1);
      NamesUnfold(l[0].host, Outputs(next, overbooking, mode, n - 1));
    }
  }

  lemma NamesUnfold<H>(first: Label<H>, rest: seq<Label<H>>)
    ensures Names([first] + rest) == [first.name] + Names(rest)
  {
  }

  lemma ErasedCall<H>(l: Deque<Label<H>>, overbooking: bool, mode: Mode)
    requires mode != Auto && l != []
    ensures Rearranged(Erased(l), overbooking, mode) == Erased(Rearranged(l, overbooking, mode))
  {
    var u := Used(l);
    assert Used(Erased(l)) == Erased(u);
    assert Rotate(Erased(u)) == Erased(Rotate(u));
    assert Erased(u)[1..] == Erased(u[1..]);
  }

  lemma {:induction false} ErasedPermutation<H>(a: Deque<Label<H>>, b: Deque<Label<H>>)
    requires multiset(a) == multiset(b)
    ensures multiset(Erased(a)) == multiset(Erased(b))
    decreases |a|
  {
    PermutationLength(a, b);
    if a != [] {
      var i := FindFirst(a, b);
      ErasedPermutation(a[1..], Without(b, i));
      assert a[1..] == Without(a, 0);
      ErasedWithout(a, 0);
      ErasedWithout(b, i);
    }
  }

  lemma ErasedWithout<H>(l: Deque<Label<H>>, i: nat)
    requires i < |l|
    ensures Without(Erased(l), i) == Erased(Without(l, i))
    ensures multiset(Erased(l)) == multiset(Erased(Without(l, i))) + multiset{Erased(l)[i]}
  {
    WithoutMultiset(Erased(l), i);
    assert Without(Erased(l), i) == Erased(Without(l, i));
  }

  /** A reordering of the plain list is a reordering of the labelled one. */
  lemma {:induction false} LiftPermutation<H>(u: Deque<Label<H>>, q: Deque<H>) returns (l: Deque<Label<H>>)
    requires multiset(Erased(u)) == multiset(q)
    ensures Erased(l) == q && multiset(l) == multiset(u)
    decreases |q|
  {
    PermutationLength(Erased(u), q);
    if q == [] {
      l := [];
    } else {
      var i := FindFirst(q, Erased(u));
      ErasedWithout(u, i);
      WithoutMultiset(u, i);
      var rest := LiftPermutation(Without(u, i), q[1..]);
      l := [u[i]] + rest;
      assert Erased(l) == [q[0]] + Erased(rest);
    }
  }

  /** Every step of a labelled list is, without the labels, a step of the plain list, in every mode. */
  lemma ErasedTaken<H>(l: Deque<Label<H>>, overbooking: bool, mode: Mode, l': Deque<Label<H>>)
    requires Taken(l, overbooking, mode, l')
    ensures Taken(Erased(l), overbooking, mode, Erased(l'))
  {
    if mode == Auto {
      ErasedPermutation(Used(l), l');
      assert Used(Erased(l)) == Erased(Used(l));
    } else {
      ErasedCall(l, overbooking, mode);
    }
  }

  lemma LiftTaken<H>(l: Deque<Label<H>>, overbooking: bool, mode: Mode, q': Deque<H>) returns (l': Deque<Label<H>>)
    requires Taken(Erased(l), overbooking, mode, q')
    ensures Taken(l, overbooking, mode, l') && Erased(l') == q'
  {
    if mode == Auto {
      assert Used(Erased(l)) == Erased(Used(l));
      l' := LiftPermutation(Used(l), q');
      forall i, j | 0 <= i < j < |l'|
        ensures l'[i].capacity >= l'[j].capacity
      {
        assert q'[i].capacity >= q'[j].capacity;
      }
    } else {
      ErasedCall(l, overbooking, mode);
      l' := Rearranged(l, overbooking, mode);
    }
  }

  /** Every run, in every mode, is a run of positions with the names added. */
  lemma {:induction false} RunCanBeLabelled<H>(qs: seq<Deque<H>>, overbooking: bool, mode: Mode)
    returns (ls: seq<Deque<Label<H>>>)
    requires Run(qs, overbooking, mode)
    ensures Run(ls, overbooking, mode) && |ls| == |qs| && ls[0] == Labelled(qs[0])
    ensures forall i :: 0 <= i < |qs| ==> Erased(ls[i]) == qs[i]
    decreases |qs|
  {
    if |qs| == 1 {
      ls := [Labelled(qs[0])];
    } else {
      var n := |qs| - 1;
      RunLast(qs, overbooking, mode);
      ls := RunCanBeLabelled(qs[..n], overbooking, mode);
      assert Erased(ls[n - 1]) == qs[..n][n - 1] == qs[n - 1];
      var l' := LiftTaken(ls[n - 1], overbooking, mode, qs[n]);
      RunExtend(ls, overbooking, mode, l');
      ls := ls + [l'];
    }
  }

  /** The number of domains a listed position has received. */
  function Received<H>(e: Entry<Label<H>>): int {
    e.host.initial - e.capacity
  }

  /** The first k entries have received r domains, the others one more. */
  ghost predicate InRound<H>(l: Deque<Label<H>>, r: nat, k: nat) {
    && k <= |l|
    && (forall i :: 0 <= i < k ==> Received(l[i]) == r)
    && (forall i :: k <= i < |l| ==> Received(l[i]) == r + 1)
  }

  lemma {:induction false} ScatterStaysInRound<H>(l: Deque<Label<H>>, overbooking: bool, n: nat, r: nat, k: nat)
    returns (r': nat, k': nat)
    requires InRound(l, r, k)
    ensures InRound(After(l, overbooking, Scatter, n), r', k')
    decreases n, k == 0
  {
    if n == 0 || l == [] {
      r', k' := r, k;
    } else if k == 0 {
      r', k' := ScatterStaysInRound(l, overbooking, n, r + 1, |l|);
    } else {
      r', k' := ScatterStaysInRound(Rearranged(l, overbooking, Scatter), overbooking, n - 1, r, k - 1);
    }
  }

  /** Scatter is fair: positions still listed differ by at most one in the domains they received. */
  lemma ScatterIsFair<H>(q: Deque<H>, overbooking: bool, n: nat)
    ensures var l := After(Labelled(q), overbooking, Scatter, n);
            forall i, j :: 0 <= i < |l| && 0 <= j < |l| ==> Received(l[i]) <= Received(l[j]) + 1
  {
    assert InRound(Labelled(q), 0, |q|);
    var r, k := ScatterStaysInRound(Labelled(q), overbooking, n, 0, |q|);
  }
}
