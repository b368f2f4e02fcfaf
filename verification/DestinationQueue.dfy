/** The shared list of destinations as the hypervisor changes it in place. */
module DestinationQueue {
  import opened Sequences
  import opened Evacuation
  import opened WaterFilling

  const INT_RANGE := 0x1_0000_0000
  const SIZE_RANGE := 0x1_0000_0000_0000_0000

  /** Conversion of an unsigned value to a 32-bit int. */
  function ToInt(u: nat): (i: int) {
    var low := u % INT_RANGE;
    if low >= INT_RANGE / 2 then low - INT_RANGE else low
  }

  /** Free CPUs of a host: the subtraction is done on size_t and its result converted back to int. */
  function GetCapacity(cpuCount: nat, domainCount: nat): int {
    ToInt((cpuCount - domainCount) % SIZE_RANGE)
  }

  /** A host with more domains than CPUs gets its true, negative capacity despite the wrap-around. */
  lemma CapacityIsDifference(cpuCount: nat, domainCount: nat)
    requires cpuCount < INT_RANGE / 2 && domainCount <= INT_RANGE / 2
    ensures GetCapacity(cpuCount, domainCount) == cpuCount - domainCount
  {
    var d := cpuCount - domainCount;
    if d < 0 {
      assert d % SIZE_RANGE == d + SIZE_RANGE;
      assert (d + SIZE_RANGE) % INT_RANGE == d + INT_RANGE;
    } else {
      assert d % SIZE_RANGE == d;
    }
  }

  /** The entries for the destinations whose capacity is known, up to the first unreachable host. */
  function Reached(destinations: seq<string>, capacities: seq<Option<int>>): Deque<string>
    requires |destinations| == |capacities|
  {
    if destinations == [] || capacities[0].None? then []
    else [Entry(destinations[0], capacities[0].value)] + Reached(destinations[1..], capacities[1..])
  }

  lemma {:induction false} ReachedPrefix(destinations: seq<string>, capacities: seq<Option<int>>, i: nat)
    requires |destinations| == |capacities| && i < |destinations|
    requires forall j :: 0 <= j < i ==> capacities[j].Some?
    ensures capacities[i].None? ==>
              Reached(destinations[..i], capacities[..i]) == Reached(destinations, capacities)
    ensures capacities[i].Some? ==>
              Reached(destinations[..i + 1], capacities[..i + 1])
              == Reached(destinations[..i], capacities[..i]) + [Entry(destinations[i], capacities[i].value)]
  {
    if i > 0 {
      assert capacities[0].Some?;
      ReachedPrefix(destinations[1..], capacities[1..], i - 1);
      assert destinations[..i][1..] == destinations[1..][..i - 1];
      assert capacities[..i][1..] == capacities[1..][..i - 1];
      assert destinations[..i + 1][1..] == destinations[1..][..i];
      assert capacities[..i + 1][1..] == capacities[1..][..i];
    } else {
      assert destinations[..1][1..] == [] && capacities[..1][1..] == [];
      assert Reached([], []) == [];
    }
  }

  /** The destinations up to the first that is unreachable are listed, in order, with their capacities. */
  lemma {:induction false} ReachedUpTo(destinations: seq<string>, capacities: seq<Option<int>>, n: nat)
    requires |destinations| == |capacities| && n <= |capacities|
    requires forall i :: 0 <= i < n ==> capacities[i].Some?
    requires n < |capacities| ==> capacities[n].None?
    ensures var q := Reached(destinations, capacities);
            |q| == n && forall i :: 0 <= i < n ==> q[i] == Entry(destinations[i], capacities[i].value)
  {
    if n > 0 {
      ReachedUpTo(destinations[1..], capacities[1..], n - 1);
    }
  }

  lemma {:induction false} LeftSnoc<H>(q: Deque<H>, e: Entry<H>)
    ensures Left(q + [e], 0) == Left(q, 0) + if e.capacity > 0 then [e] else []
  {
    if q == [] {
      assert q + [e] == [e] && [e][1..] == [];
      assert e.(capacity := e.capacity - 0) == e;
    } else {
      assert (q + [e])[1..] == q[1..] + [e];
      LeftSnoc(q[1..], e);
    }
  }

  /** Inserting at the place found keeps the order. */
  lemma InsertAt<H>(s: Deque<H>, i: nat, e: Entry<H>, s': Deque<H>)
    requires Descending(s) && i <= |s|
    requires i > 0 ==> s[i - 1].capacity >= e.capacity
    requires i < |s| ==> s[i].capacity <= e.capacity
    requires |s'| == |s| + 1
    requires forall k :: 0 <= k < |s'| ==> s'[k] == if k < i then s[k] else if k == i then e else s[k - 1]
    ensures Descending(s')
  {
    assert forall k :: 0 <= k < i ==> s[k].capacity >= s[i - 1].capacity;
    assert forall k :: i <= k < |s| ==> s[k].capacity <= s[i].capacity;
    forall a, b | 0 <= a < b < |s'|
      ensures s'[a].capacity >= s'[b].capacity
    {
      assert s'[a] == if a < i then s[a] else if a == i then e else s[a - 1];
      assert s'[b] == if b < i then s[b] else if b == i then e else s[b - 1];
      var x, y := if a < i then a else a - 1, if b < i then b else b - 1;
      if a != i && b != i {
        assert s[x].capacity >= s[y].capacity;
      }
    }
  }

  lemma InsertMultiset<T>(s: seq<T>, i: nat, x: T)
    requires i <= |s|
    ensures multiset(s[..i] + [x] + s[i..]) == multiset(s) + multiset{x}
  {
    assert s == s[..i] + s[i..];
  }

  method InsertDescending(s: Deque<string>, e: Entry<string>) returns (s': Deque<string>)
    requires Descending(s)
    ensures Descending(s') && multiset(s') == multiset(s) + multiset{e}
  {
    var i := |s|;
    while i > 0 && s[i - 1].capacity < e.capacity
      invariant 0 <= i <= |s|
      invariant i < |s| ==> s[i].capacity < e.capacity
    {
      i := i - 1;
    }
    s' := s[..i] + [e] + s[i..];
    InsertAt(s, i, e, s');
    InsertMultiset(s, i, e);
  }

  /**
   What one call leaves, by the name of the mode: compact keeps serving the front host until it is
   full, scatter goes on to the next one, auto sorts, and any other name does nothing else.
   */
  ghost predicate LeavesByName(q: Deque<string>, overbooking: bool, mode: string, q': Deque<string>)
    requires q != []
  {
    var served := Entry(q[0].host, q[0].capacity - 1);
    && (mode == "compact" && q[0].capacity > 1 ==> q' == [served] + q[1..])
    && (mode == "compact" && q[0].capacity <= 1 ==> q' == q[1..] + if overbooking then [served] else [])
    && (mode == "scatter" && (q[0].capacity > 1 || overbooking) ==> q' == q[1..] + [served])
    && (mode == "scatter" && q[0].capacity <= 1 && !overbooking ==> q' == q[1..])
    && (mode == "auto" ==> DescendingPermutation([served] + q[1..], q'))
    && (mode != "compact" && mode != "scatter" && mode != "auto" ==> q' == [served] + q[1..])
  }

  /**
   The library sort. Callers may rely on its contract only, which leaves the order of equal
   capacities open, just as std::sort does.
   */
  method SortDescending(q: Deque<string>) returns (s: Deque<string>)
    ensures DescendingPermutation(q, s)
  {
    s := [];
    for n := 0 to |q|
      invariant Descending(s) && multiset(s) == multiset(q[..n])
    {
      assert q[..n + 1] == q[..n] + [q[n]];
      s := InsertDescending(s, q[n]);
    }
    assert q[..|q|] == q;
  }

  /** An evacuate task. */
  datatype EvacuateTask =
    EvacuateTask(destinations: seq<string>, mode: Option<string>, overbooking: Option<bool>,
                 retryCounter: Option<nat>, migrationType: Option<string>, rdmaMigration: Option<bool>,
                 pscomHookProcs: Option<string>, driver: Option<string>, transport: Option<string>,
                 vmName: Option<string>, concurrent: Option<bool>, timeMeasurement: Option<bool>)

  /** The task for one domain: neither the concurrency flag nor the time measurement is passed on. */
  function TaskFor(base: EvacuateTask, domain: string): EvacuateTask {
    base.(vmName := Some(domain), concurrent := None, timeMeasurement := None)
  }

  /** A run of compact calls as long as the domains or the hosts last. */
  lemma CompactRun(qs: seq<Deque<string>>, domains: nat)
    requires Run(qs, false, Compact) && AllPositive(qs[0])
    requires |qs| - 1 <= domains && (|qs| - 1 < domains ==> qs[|qs| - 1] == [])
    ensures |Filled(qs[0], 0)| == Total(qs[0]) && |qs| - 1 == Min(domains, Total(qs[0]))
    ensures Destinations(qs) == Prefix(Filled(qs[0], 0), |qs| - 1)
  {
    var list := qs[0];
    RunIsDetermined(qs, false, Compact);
    CallsUntilExhausted(list, Compact, |qs| - 1);
    CompactFillsInOrder(list, |qs| - 1);
    FilledTotal(list);
  }

  lemma {:induction false} FilledTotal<H>(q: Deque<H>)
    requires AllPositive(q)
    ensures |Filled(q, 0)| == Total(q)
  {
    if q != [] {
      FilledTotal(q[1..]);
    }
  }

  lemma CompactOverbookedRun(qs: seq<Deque<string>>, domains: nat)
    requires Run(qs, true, Compact) && qs[0] != []
    requires |qs| - 1 <= domains && (|qs| - 1 < domains ==> qs[|qs| - 1] == [])
    ensures |qs| - 1 == domains
    ensures var first, hosts := Filled(qs[0], 1), Hosts(qs[0]);
            forall i :: 0 <= i < domains ==>
              Destinations(qs)[i] == if i < |first| then first[i] else hosts[(i - |first|) % |hosts|]
  {
    Conservation(qs, true, Compact);
    RunIsDetermined(qs, true, Compact);
    CompactOverbookingClosedForm(qs[0], domains);
  }

  class DestinationCapacities {
    var destCaps: Deque<string>

    constructor ()
      ensures destCaps == []
    {
      destCaps := [];
    }

    /**
     Fills the list. `capacities[i]` is None when the connection to destination i fails, which
     throws and leaves the list half filled and unfiltered.
     */
    method Init(destinations: seq<string>, capacities: seq<Option<int>>, overbooking: bool)
      returns (r: Result<()>)
      requires |destinations| == |capacities|
      modifies this
      ensures r.Ok? <==> forall i :: 0 <= i < |capacities| ==> capacities[i].Some?
      ensures destCaps == if r.Ok? && !overbooking then Left(Reached(destinations, capacities), 0)
                          else Reached(destinations, capacities)
      ensures r.Ok? && !overbooking ==> AllPositive(destCaps)
    {
      destCaps := [];
      for i := 0 to |destinations|
        invariant forall j :: 0 <= j < i ==> capacities[j].Some?
        invariant destCaps == Reached(destinations[..i], capacities[..i])
      {
        ReachedPrefix(destinations, capacities, i);
        if capacities[i].None? {
          return Thrown;
        }
        destCaps := destCaps + [Entry(destinations[i], capacities[i].value)];
      }
      assert destinations[..|destinations|] == destinations && capacities[..|capacities|] == capacities;
      if !overbooking {
        var kept: Deque<string> := [];
        for i := 0 to |destCaps|
          invariant destCaps == Reached(destinations, capacities)
          invariant kept == Left(destCaps[..i], 0)
        {
          assert destCaps[..i + 1] == destCaps[..i] + [destCaps[i]];
          LeftSnoc(destCaps[..i], destCaps[i]);
          if !(destCaps[i].capacity < 1) {
            kept := kept + [destCaps[i]];
          }
        }
        assert destCaps[..|destCaps|] == destCaps;
        LeftFacts(destCaps, 0);
        destCaps := kept;
      }
      return Ok(());
    }

    /**
     One task per local domain, each like the one received, except that its flags for concurrent
     execution and for time measurement are not set, whatever was asked for. The executor takes the
     first to mean concurrent and the second to mean no measurement. `domains` is None if connecting to
     the local host or listing its domains fails, which throws before the list is touched.
     */
    method GetEvacuateTasks(base: EvacuateTask, capacities: seq<Option<int>>, domains: Option<seq<string>>)
      returns (r: Result<seq<EvacuateTask>>)
      requires |base.destinations| == |capacities|
      modifies this
      ensures r.Ok? <==> domains.Some? && forall i :: 0 <= i < |capacities| ==> capacities[i].Some?
      ensures r.Ok? ==> |r.value| == |domains.value| && forall i :: 0 <= i < |r.value| ==>
                var t := r.value[i];
                && t.vmName == Some(domains.value[i]) && t.concurrent == None && t.timeMeasurement == None
                && t.destinations == base.destinations && t.mode == base.mode && t.overbooking == base.overbooking
                && t.retryCounter == base.retryCounter && t.migrationType == base.migrationType
                && t.rdmaMigration == base.rdmaMigration && t.pscomHookProcs == base.pscomHookProcs
                && t.driver == base.driver && t.transport == base.transport
      ensures domains.None? ==> destCaps == old(destCaps)
      ensures domains.Some? ==>
                destCaps == if r.Ok? && base.overbooking == Some(false)
                            then Left(Reached(base.destinations, capacities), 0)
                            else Reached(base.destinations, capacities)
      ensures r.Ok? && base.overbooking == Some(false) ==> AllPositive(destCaps)
    {
      if domains.None? {
        return Thrown;
      }
      var tasks: seq<EvacuateTask> := [];
      for i := 0 to |domains.value|
        invariant |tasks| == i && destCaps == old(destCaps)
        invariant forall j :: 0 <= j < i ==> tasks[j] == TaskFor(base, domains.value[j])
      {
        tasks := tasks + [EvacuateTask(base.destinations, base.mode, base.overbooking, base.retryCounter,
                                       base.migrationType, base.rdmaMigration, base.pscomHookProcs,
                                       base.driver, base.transport, Some(domains.value[i]), None, None)];
      }
      var overbooking := if base.overbooking.Some? then base.overbooking.value else true;
      var done := Init(base.destinations, capacities, overbooking);
      return if done.Ok? then Ok(tasks) else Thrown;
    }

    /** One call, undisturbed by other threads. */
    method GetNextDestination(overbooking: bool, mode: string) returns (r: Result<string>)
      modifies this
      ensures old(destCaps) == [] ==> r.Thrown? && destCaps == []
      ensures old(destCaps) != [] ==>
                && r == Ok(old(destCaps)[0].host)
                && Taken(old(destCaps), overbooking, ParseMode(mode), destCaps)
      ensures old(destCaps) != [] ==> LeavesByName(old(destCaps), overbooking, mode, destCaps)
    {
      if destCaps == [] {
        return Thrown;
      }
      var destination := destCaps[0].host;
      destCaps := destCaps[0 := destCaps[0].(capacity := destCaps[0].capacity - 1)];
      assert destCaps == Used(old(destCaps));
      if mode == "compact" {
        if destCaps[0].capacity < 1 {
          if !overbooking {
            destCaps := destCaps[1..];
          } else {
            destCaps := destCaps[1..] + [destCaps[0]];
          }
        }
      } else if mode == "scatter" {
        if destCaps[0].capacity < 1 && !overbooking {
          destCaps := destCaps[1..];
        } else {
          destCaps := destCaps[1..] + [destCaps[0]];
        }
      } else if mode == "auto" {
        destCaps := SortDescending(destCaps);
      }
      return Ok(destination);
    }

    /** The destination for one task; a task names no mode for auto, and no flag for overbooking. */
    method NextFor(task: EvacuateTask) returns (r: Result<string>)
      modifies this
      ensures old(destCaps) == [] ==> r.Thrown? && destCaps == []
      ensures old(destCaps) != [] ==>
                && r == Ok(old(destCaps)[0].host)
                && LeavesByName(old(destCaps), task.overbooking != Some(false),
                                if task.mode.Some? then task.mode.value else "auto", destCaps)
    {
      var mode := if task.mode.Some? then task.mode.value else "auto";
      var overbooking := if task.overbooking.Some? then task.overbooking.value else true;
      r := GetNextDestination(overbooking, mode);
    }

    /** The evacuation tasks of all domains, one after the other, with the run they make. */
    method EvacuateInOrder(domains: nat, overbooking: bool, mode: string)
      returns (results: seq<Result<string>>, ghost qs: seq<Deque<string>>)
      modifies this
      ensures Run(qs, overbooking, ParseMode(mode)) && qs[0] == old(destCaps) && qs[|qs| - 1] == destCaps
      ensures |qs| - 1 <= domains && (|qs| - 1 < domains ==> destCaps == [])
      ensures |results| == domains
      ensures forall i :: 0 <= i < domains ==>
                results[i] == if i < |qs| - 1 then Ok(Destinations(qs)[i]) else Thrown
    {
      results, qs := [], [destCaps];
      for n := 0 to domains
        invariant Run(qs, overbooking, ParseMode(mode)) && qs[0] == old(destCaps) && qs[|qs| - 1] == destCaps
        invariant |qs| - 1 <= n && (|qs| - 1 < n ==> destCaps == [])
        invariant |results| == n
        invariant forall i :: 0 <= i < n ==>
                    results[i] == if i < |qs| - 1 then Ok(qs[i][0].host) else Thrown
      {
        var r := GetNextDestination(overbooking, mode);
        if r.Ok? {
          RunExtend(qs, overbooking, ParseMode(mode), destCaps);
          qs := qs + [destCaps];
        }
        results := results + [r];
      }
    }

    /**
     A whole node evacuated in scatter mode without overbooking: domain by domain the round table
     of the free hosts, and an error for every domain beyond the total free capacity.
     */
    method EvacuateScattered(destinations: seq<string>, capacities: seq<Option<int>>, domains: nat)
      returns (results: seq<Result<string>>)
      requires |destinations| == |capacities| && forall i :: 0 <= i < |capacities| ==> capacities[i].Some?
      modifies this
      ensures |results| == domains
      ensures var free := Left(Reached(destinations, capacities), 0);
              && |RoundTable(free, 0)| == Total(free)
              && forall i :: 0 <= i < domains ==>
                   results[i] == if i < Total(free) then Ok(RoundTable(free, 0)[i]) else Thrown
    {
      var r := Init(destinations, capacities, false);
      ghost var free := destCaps;
      ghost var qs: seq<Deque<string>>;
      results, qs := EvacuateInOrder(domains, false, "scatter");
      RunIsDetermined(qs, false, Scatter);
      ScatterIsRoundTable(free, |qs| - 1);
      CallsUntilExhausted(free, Scatter, |qs| - 1);
    }

    /**
     A whole node evacuated in compact mode without overbooking: every free host is filled in list
     order, and the domains beyond the total free capacity fail.
     */
    method EvacuateCompact(destinations: seq<string>, capacities: seq<Option<int>>, domains: nat)
      returns (results: seq<Result<string>>)
      requires |destinations| == |capacities| && forall i :: 0 <= i < |capacities| ==> capacities[i].Some?
      modifies this
      ensures |results| == domains
      ensures var free := Left(Reached(destinations, capacities), 0);
              && |Filled(free, 0)| == Total(free)
              && forall i :: 0 <= i < domains ==>
                   results[i] == if i < Total(free) then Ok(Filled(free, 0)[i]) else Thrown
    {
      var r := Init(destinations, capacities, false);
      ghost var free := destCaps;
      ghost var qs: seq<Deque<string>>;
      results, qs := EvacuateInOrder(domains, false, "compact");
      CompactRun(qs, domains);
    }

    /**
     The same with overbooking: every host, also a full one, gets as many domains in a row as it has
     room, but at least one; after that the hosts are served in turn, and no domain fails.
     */
    method EvacuateCompactOverbooked(destinations: seq<string>, capacities: seq<Option<int>>, domains: nat)
      returns (results: seq<Result<string>>)
      requires |destinations| == |capacities| && forall i :: 0 <= i < |capacities| ==> capacities[i].Some?
      requires destinations != []
      modifies this
      ensures |results| == domains
      ensures var first := Filled(Reached(destinations, capacities), 1);
              forall i :: 0 <= i < domains ==>
                results[i] == Ok(if i < |first| then first[i] else destinations[(i - |first|) % |destinations|])
    {
      ReachedUpTo(destinations, capacities, |destinations|);
      assert Hosts(Reached(destinations, capacities)) == destinations;
      var r := Init(destinations, capacities, true);
      ghost var qs: seq<Deque<string>>;
      results, qs := EvacuateInOrder(domains, true, "compact");
      CompactOverbookedRun(qs, domains);
    }

    /**
     A whole node evacuated in auto mode, which never throws when there is a host: afterwards the list
     is sorted, and the hosts are loaded as evenly as any distribution of the domains allows if and
     only if there are more domains than capacity above the host listed first.
     */
    method EvacuateAuto(destinations: seq<string>, capacities: seq<Option<int>>, overbooking: bool, domains: nat)
      returns (results: seq<Result<string>>)
      requires |destinations| == |capacities| && forall i :: 0 <= i < |capacities| ==> capacities[i].Some?
      modifies this
      ensures |results| == domains
      ensures var all := Reached(destinations, capacities);
              var list := if overbooking then all else Left(all, 0);
              && (list != [] ==> forall i :: 0 <= i < domains ==> results[i].Ok?)
              && (list != [] && domains > 0 ==>
                    && Descending(destCaps)
                    && (Optimal(list, domains, destCaps) <==> domains > Excess(list, list[0].capacity)))
    {
      var r := Init(destinations, capacities, overbooking);
      ghost var list := destCaps;
      ghost var qs: seq<Deque<string>>;
      results, qs := EvacuateInOrder(domains, overbooking, "auto");
      if list != [] {
        Conservation(qs, overbooking, Auto);
        if domains > 0 {
          RunLast(qs, overbooking, Auto);
          WaterFillingOptimalIff(qs, overbooking);
        }
      }
    }
  }
}
