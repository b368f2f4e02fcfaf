/**
 The auto mode places every domain on a host with the most remaining capacity, except for the very
 first one: the list is not sorted before the first call. This module says exactly when the
 outcome is nevertheless the best possible, in the strongest sense: for every threshold, no
 placement leaves less capacity above it.
 */
module WaterFilling {
  import opened Sequences
  import opened Evacuation

  /** The capacity above level t, over all entries: the water missing up to t. */
  function Excess<H>(q: Deque<H>, t: int): int {
    if q == [] then 0 else Max(0, q[0].capacity - t) + Excess(q[1..], t)
  }

  lemma {:induction false} ExcessIsSum<H>(q: Deque<H>, t: int)
    ensures Excess(q, t) == SumBy((e: Entry<H>) => Max(0, e.capacity - t), q)
  {
    if q != [] {
      ExcessIsSum(q[1..], t);
    }
  }

  lemma ExcessPermutation<H>(a: Deque<H>, b: Deque<H>, t: int)
    requires multiset(a) == multiset(b)
    ensures Excess(a, t) == Excess(b, t)
  {
    ExcessIsSum(a, t);
    ExcessIsSum(b, t);
    SumByPermutation((e: Entry<H>) => Max(0, e.capacity - t), a, b);
  }

  lemma {:induction false} ExcessBounds<H>(q: Deque<H>, t: int)
    ensures Excess(q, t) >= 0
    ensures Excess(q, t) == 0 <==> forall i :: 0 <= i < |q| ==> q[i].capacity <= t
    ensures Excess(q, t) >= Total(q) - |q| * t
    ensures Excess(q, t) == Total(q) - |q| * t <==> forall i :: 0 <= i < |q| ==> q[i].capacity >= t
  {
    if q != [] {
      var r := q[1..];
      ExcessBounds(r, t);
      assert |q| * t == |r| * t + t;
      assert forall i :: 0 <= i < |r| ==> r[i] == q[i + 1];
      assert forall i :: 1 <= i < |q| ==> q[i] == r[i - 1];
    }
  }

  // ---------------------------------------------------------------------------------------------
  // Placements
  // ---------------------------------------------------------------------------------------------

  /** One way of placing k domains: y[i] of them on the host at position i. */
  ghost predicate Placement<H>(q: Deque<H>, k: nat, y: seq<nat>) {
    |y| == |q| && Sum(y) == k
  }

  /** The list after placing y[i] domains on the host at position i. */
  function Placed<H>(q: Deque<H>, y: seq<nat>): (p: Deque<H>)
    requires |y| == |q|
  {
    seq(|q|, i requires 0 <= i < |q| => q[i].(capacity := q[i].capacity - y[i]))
  }

  /** No placement of k domains on the hosts of q leaves less capacity above any level than q' has. */
  ghost predicate Optimal<H>(q: Deque<H>, k: nat, q': Deque<H>) {
    forall y: seq<nat>, t: int | Placement(q, k, y) :: Excess(q', t) <= Excess(Placed(q, y), t)
  }

  lemma PlacedUnfold<H>(q: Deque<H>, y: seq<nat>)
    requires |y| == |q| && q != []
    ensures Placed(q, y)[0] == q[0].(capacity := q[0].capacity - y[0])
    ensures Placed(q, y)[1..] == Placed(q[1..], y[1..])
  {
  }

  /** Every domain placed lowers the capacity above t by at most one. */
  lemma {:induction false} ExcessOfPlacement<H>(q: Deque<H>, y: seq<nat>, t: int)
    requires |y| == |q|
    ensures Excess(Placed(q, y), t) >= Excess(q, t) - Sum(y)
  {
    if q != [] {
      PlacedUnfold(q, y);
      ExcessOfPlacement(q[1..], y[1..], t);
    }
  }

  /** As long as there is capacity above t, k domains can all be placed on it. */
  lemma {:induction false} SkimPlacement<H>(q: Deque<H>, k: nat, t: int) returns (y: seq<nat>)
    requires k <= Excess(q, t)
    ensures Placement(q, k, y)
    ensures Excess(Placed(q, y), t) == Excess(q, t) - k
    decreases |q|
  {
    if q == [] {
      y := [];
    } else {
      var n: nat := Min(k, Max(0, q[0].capacity - t));
      ExcessBounds(q[1..], t);
      var rest := SkimPlacement(q[1..], k - n, t);
      y := [n] + rest;
      assert y[1..] == rest;
      PlacedUnfold(q, y);
    }
  }

  lemma {:induction false} PlacedTotal<H>(q: Deque<H>, y: seq<nat>)
    requires |y| == |q|
    ensures Total(Placed(q, y)) == Total(q) - Sum(y)
  {
    if q != [] {
      PlacedUnfold(q, y);
      PlacedTotal(q[1..], y[1..]);
    }
  }

  /**
   An optimal outcome has the least possible maximum and the greatest possible minimum: a bound
   that some placement keeps, the outcome keeps too.
   */
  lemma OptimalBalances<H>(q: Deque<H>, k: nat, q': Deque<H>, y: seq<nat>, b: int)
    requires Optimal(q, k, q') && Placement(q, k, y)
    requires |q'| == |q| && Total(q') == Total(q) - k
    ensures (forall i :: 0 <= i < |q| ==> Placed(q, y)[i].capacity <= b)
        ==> (forall i :: 0 <= i < |q| ==> q'[i].capacity <= b)
    ensures (forall i :: 0 <= i < |q| ==> Placed(q, y)[i].capacity >= b)
        ==> (forall i :: 0 <= i < |q| ==> q'[i].capacity >= b)
  {
    var p := Placed(q, y);
    assert Excess(q', b) <= Excess(p, b);
    PlacedTotal(q, y);
    ExcessBounds(p, b);
    ExcessBounds(q', b);
  }

  // ---------------------------------------------------------------------------------------------
  // Runs of auto calls
  // ---------------------------------------------------------------------------------------------

  lemma ExcessOfUsed<H>(q: Deque<H>, t: int)
    requires q != []
    ensures Excess(Used(q), t) == Excess(q, t) - if q[0].capacity > t then 1 else 0
  {
    assert Used(q)[1..] == q[1..];
  }

  lemma ExcessOfTaken<H>(q: Deque<H>, overbooking: bool, q': Deque<H>, t: int)
    requires Taken(q, overbooking, Auto, q')
    ensures Excess(q', t) == Excess(q, t) - if q[0].capacity > t then 1 else 0
  {
    ExcessOfUsed(q, t);
    ExcessPermutation(Used(q), q', t);
  }

  /** The new front is not above the old one once the list is sorted. */
  lemma FrontSinks<H>(q: Deque<H>, overbooking: bool, q': Deque<H>)
    requires Taken(q, overbooking, Auto, q') && Descending(q)
    ensures q' != [] && q'[0].capacity <= q[0].capacity
  {
    var u := Used(q);
    PermutationLength(u, q');
    PermutationMembers(u, q');
    assert q'[0] in u;
  }

  /**
   From a sorted list: below the current maximum every domain counted, at any level it took at
   most its own unit.
   */
  lemma {:induction false} SortedRun<H>(qs: seq<Deque<H>>, overbooking: bool, t: int)
    requires Run(qs, overbooking, Auto) && Descending(qs[0]) && qs[0] != []
    ensures var k, last := |qs| - 1, qs[|qs| - 1];
            && last != [] && Descending(last)
            && Excess(last, t) >= Excess(qs[0], t) - k
            && (t < last[0].capacity ==> Excess(last, t) == Excess(qs[0], t) - k)
    decreases |qs|
  {
    if |qs| > 1 {
      RunLast(qs, overbooking, Auto);
      SortedRun(qs[..|qs| - 1], overbooking, t);
      var prev, last := qs[|qs| - 2], qs[|qs| - 1];
      ExcessOfTaken(prev, overbooking, last, t);
      FrontSinks(prev, overbooking, last);
    }
  }

  /** The same from any list, where the first domain went to the front host, tall or not. */
  lemma AnyRun<H>(qs: seq<Deque<H>>, overbooking: bool, t: int)
    requires Run(qs, overbooking, Auto) && |qs| > 1
    ensures var k, q, last := |qs| - 1, qs[0], qs[|qs| - 1];
            var wasted := if q != [] && t >= q[0].capacity then 1 else 0;
            && last != [] && Descending(last)
            && Excess(last, t) >= Excess(q, t) - k + wasted
            && (t < last[0].capacity ==> Excess(last, t) == Excess(q, t) - k + wasted)
  {
    RunFirst(qs, overbooking, Auto);
    ExcessOfTaken(qs[0], overbooking, qs[1], t);
    PermutationLength(Used(qs[0]), qs[1]);
    SortedRun(qs[1..], overbooking, t);
  }

  lemma MaximumIsFront<H>(q: Deque<H>, t: int)
    requires q != [] && Descending(q)
    ensures Excess(q, t) >= 0
    ensures Excess(q, t) == 0 <==> q[0].capacity <= t
  {
    ExcessBounds(q, t);
  }

  /**
   Exactly when auto is optimal: k >= 1 calls leave the hosts as evenly loaded as any placement of
   k domains could, if and only if k exceeds the capacity that the list holds above its front
   entry. This is for every list, sorted or not, and for every tie order of the sort.
   */
  lemma WaterFillingOptimalIff<H>(qs: seq<Deque<H>>, overbooking: bool)
    requires Run(qs, overbooking, Auto) && |qs| > 1
    ensures var k, q := |qs| - 1, qs[0];
            q != [] && (Optimal(q, k, qs[|qs| - 1]) <==> k > Excess(q, q[0].capacity))
  {
    var k, q, last := |qs| - 1, qs[0], qs[|qs| - 1];
    RunFirst(qs, overbooking, Auto);
    var c := q[0].capacity;
    AnyRun(qs, overbooking, c);
    MaximumIsFront(last, c);
    if k > Excess(q, c) {
      assert last[0].capacity <= c;
      forall y: seq<nat>, t: int | Placement(q, k, y)
        ensures Excess(last, t) <= Excess(Placed(q, y), t)
      {
        AnyRun(qs, overbooking, t);
        MaximumIsFront(last, t);
        ExcessOfPlacement(q, y, t);
        ExcessBounds(Placed(q, y), t);
      }
    } else {
      var y := SkimPlacement(q, k, c);
      assert Excess(last, c) > Excess(Placed(q, y), c);
    }
  }

  /** In particular a list whose front is a maximum is served optimally by any number of calls. */
  lemma SortedListIsServedOptimally<H>(qs: seq<Deque<H>>, overbooking: bool)
    requires Run(qs, overbooking, Auto) && qs[0] != []
    requires forall i :: 0 <= i < |qs[0]| ==> qs[0][i].capacity <= qs[0][0].capacity
    ensures Optimal(qs[0], |qs| - 1, qs[|qs| - 1])
  {
    var q := qs[0];
    if |qs| > 1 {
      ExcessBounds(q, q[0].capacity);
      WaterFillingOptimalIff(qs, overbooking);
    } else {
      forall y: seq<nat>, t: int | Placement(q, 0, y)
        ensures Excess(q, t) <= Excess(Placed(q, y), t)
      {
        ExcessOfPlacement(q, y, t);
      }
    }
  }

  /**
   In words of a run: if there are enough calls, or the front host has most capacity, then a bound
   from above or from below that any placement of as many domains keeps, the remaining capacities
   keep too. So their maximum is the least and their minimum the greatest possible.
   */
  lemma AutoBalances<H>(qs: seq<Deque<H>>, overbooking: bool, y: seq<nat>, b: int)
    requires Run(qs, overbooking, Auto) && qs[0] != [] && Placement(qs[0], |qs| - 1, y)
    requires |qs| - 1 > Excess(qs[0], qs[0][0].capacity) || Excess(qs[0], qs[0][0].capacity) == 0
    ensures var q, last := qs[0], qs[|qs| - 1];
            && |last| == |q|
            && ((forall i :: 0 <= i < |q| ==> Placed(q, y)[i].capacity <= b)
                ==> (forall i :: 0 <= i < |q| ==> last[i].capacity <= b))
            && ((forall i :: 0 <= i < |q| ==> Placed(q, y)[i].capacity >= b)
                ==> (forall i :: 0 <= i < |q| ==> last[i].capacity >= b))
  {
    var q := qs[0];
    Conservation(qs, overbooking, Auto);
    ExcessBounds(q, q[0].capacity);
    if Excess(q, q[0].capacity) == 0 {
      SortedListIsServedOptimally(qs, overbooking);
    } else {
      WaterFillingOptimalIff(qs, overbooking);
    }
    OptimalBalances(q, |qs| - 1, qs[|qs| - 1], y, b);
  }

  /** The list that init leaves need not be sorted: one domain on hosts with room 0 and 5. */
  lemma UnsortedListIsServedBadly()
    ensures var q := [Entry("a", 0), Entry("b", 5)];
            var q' := [Entry("b", 5), Entry("a", -1)];
            Run([q, q'], true, Auto) && !Optimal(q, 1, q')
  {
    var q := [Entry("a", 0), Entry("b", 5)];
    var q' := [Entry("b", 5), Entry("a", -1)];
    assert Used(q) == [Entry("a", -1), Entry("b", 5)];
    assert multiset(Used(q)) == multiset{Entry("a", -1), Entry("b", 5)} == multiset(q');
    assert q[1..] == [Entry("b", 5)] && q[1..][1..] == [];
    assert Excess(q, 0) == 5;
    WaterFillingOptimalIff([q, q'], true);
  }

  // ---------------------------------------------------------------------------------------------
  // The outcome is itself a placement
  // ---------------------------------------------------------------------------------------------

  lemma {:induction false} SumBump(y: seq<nat>, i: nat)
    requires i < |y|
    ensures Sum(y[i := y[i] + 1]) == Sum(y) + 1
  {
    if i > 0 {
      assert y[i := y[i] + 1][1..] == y[1..][i - 1 := y[1..][i - 1] + 1];
      SumBump(y[1..], i - 1);
    } else {
      assert y[0 := y[0] + 1][1..] == y[1..];
    }
  }

  lemma ReplaceOne<T>(s: seq<T>, i: nat, x: T, m: multiset<T>)
    requires i < |s| && multiset(s) == m
    ensures multiset(s[i := x]) == m - multiset{s[i]} + multiset{x}
  {
    WithoutMultiset(s, i);
    WithoutMultiset(s[i := x], i);
    assert Without(s[i := x], i) == Without(s, i);
  }

  /** What k calls leave is what some placement of k domains leaves, in another order. */
  lemma {:induction false} RunIsPlacement<H>(qs: seq<Deque<H>>, overbooking: bool) returns (y: seq<nat>)
    requires Run(qs, overbooking, Auto)
    ensures Placement(qs[0], |qs| - 1, y)
    ensures multiset(Placed(qs[0], y)) == multiset(qs[|qs| - 1])
    decreases |qs|
  {
    var q := qs[0];
    if |qs| == 1 {
      y := Repeat(0, |q|);
      SumZero(|q|);
      assert Placed(q, y) == q;
    } else {
      RunLast(qs, overbooking, Auto);
      var before := RunIsPlacement(qs[..|qs| - 1], overbooking);
      y := PlaceOneMore(q, before, qs[|qs| - 2]);
    }
  }

  /** If a placement leaves q', one more domain on the front of q' makes another placement. */
  lemma PlaceOneMore<H>(q: Deque<H>, y: seq<nat>, q': Deque<H>) returns (y': seq<nat>)
    requires |y| == |q| && q' != [] && multiset(Placed(q, y)) == multiset(q')
    ensures |y'| == |q| && Sum(y') == Sum(y) + 1
    ensures multiset(Placed(q, y')) == multiset(Used(q'))
  {
    var p, front := Placed(q, y), q'[0];
    PermutationMembers(p, q');
    assert front in q';
    var i :| 0 <= i < |p| && p[i] == front;
    y' := y[i := y[i] + 1];
    SumBump(y, i);
    var spent := front.(capacity := front.capacity - 1);
    assert Placed(q, y') == p[i := spent];
    ReplaceOne(p, i, spent, multiset(q'));
    ReplaceOne(q', 0, spent, multiset(q'));
    assert Used(q') == q'[0 := spent];
  }

  lemma {:induction false} SumZero(n: nat)
    ensures Sum(Repeat<nat>(0, n)) == 0
  {
    if n > 0 {
      assert Repeat<nat>(0, n)[1..] == Repeat<nat>(0, n - 1);
      SumZero(n - 1);
    }
  }

  // ---------------------------------------------------------------------------------------------
  // The overbooking flag
  // ---------------------------------------------------------------------------------------------

  lemma FrontHasRoom<H>(q: Deque<H>)
    requires Descending(q) && Total(q) > 0
    ensures q != [] && q[0].capacity > 0
  {
    ExcessBounds(q, 0);
  }

  /** No host holds more domains than it has capacity for. */
  ghost predicate WithinCapacity<H>(q: Deque<H>) {
    forall i :: 0 <= i < |q| ==> q[i].capacity >= 0
  }

  lemma StaysWithin<H>(q: Deque<H>, q': Deque<H>)
    requires WithinCapacity(q) && Taken(q, false, Auto, q') && q[0].capacity > 0
    ensures WithinCapacity(q')
  {
    var u := Used(q);
    assert WithinCapacity(u);
    PermutationMembers(u, q');
    forall i | 0 <= i < |q'|
      ensures q'[i].capacity >= 0
    {
      assert q'[i] in u;
    }
  }

  /**
   The flag is documented to forbid overbooking when off. In auto mode it does not: the calls never
   throw, and the hosts stay within their capacity exactly as long as the domains fit in total.
   */
  lemma {:induction false} AutoOverbooksIff<H>(qs: seq<Deque<H>>)
    requires Run(qs, false, Auto) && AllPositive(qs[0]) && qs[0] != []
    ensures WithinCapacity(qs[|qs| - 1]) <==> |qs| - 1 <= Total(qs[0])
    decreases |qs|
  {
    var k, last := |qs| - 1, qs[|qs| - 1];
    Conservation(qs, false, Auto);
    if k > Total(qs[0]) {
      ExcessBounds(last, 0);
    } else if k > 0 {
      var init, prev := qs[..|qs| - 1], qs[|qs| - 2];
      RunLast(qs, false, Auto);
      AutoOverbooksIff(init);
      Conservation(init, false, Auto);
      if k > 1 {
        AnyRun(init, false, 0);
        FrontHasRoom(prev);
      }
      StaysWithin(prev, last);
    }
  }
}
