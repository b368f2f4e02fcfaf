/** The byte maps through which virtual CPUs are pinned to the CPUs of a node. */
module CpuMaps {
  import opened Sequences

  /** Bytes needed for one bit per CPU. */
  function CpuMapLen(cpus: nat): nat {
    (cpus + 7) / 8
  }

  function Bit(k: nat): bv8
    requires k < 8
  {
    if k == 0 then 1 else if k == 1 then 2 else if k == 2 then 4 else if k == 3 then 8
    else if k == 4 then 16 else if k == 5 then 32 else if k == 6 then 64 else 128
  }

  predicate BitSet(bytes: seq<bv8>, cpu: nat) {
    cpu / 8 < |bytes| && bytes[cpu / 8] & Bit(cpu % 8) != 0
  }

  lemma SetOneBit(x: bv8, j: nat, k: nat)
    requires j < 8 && k < 8
    ensures (x | Bit(k)) & Bit(j) != 0 <==> x & Bit(j) != 0 || j == k
  {
    assert Bit(k) & Bit(j) == if j == k then Bit(j) else 0;
    assert (x | Bit(k)) & Bit(j) == (x & Bit(j)) | (Bit(k) & Bit(j));
    assert Bit(j) != 0;
  }

  lemma ByteAndBit(b: nat, cpu: nat)
    ensures b == cpu <==> b / 8 == cpu / 8 && b % 8 == cpu % 8
  {
  }

  /** Setting the bit of one CPU leaves the bits of all others. */
  lemma UseCpu(bytes: seq<bv8>, bytes': seq<bv8>, cpu: nat, b: nat)
    requires cpu / 8 < |bytes| == |bytes'|
    requires bytes'[cpu / 8] == bytes[cpu / 8] | Bit(cpu % 8)
    requires forall i :: 0 <= i < |bytes| && i != cpu / 8 ==> bytes'[i] == bytes[i]
    ensures BitSet(bytes', b) <==> BitSet(bytes, b) || b == cpu
  {
    ByteAndBit(b, cpu);
    if b / 8 == cpu / 8 {
      SetOneBit(bytes[cpu / 8], b % 8, cpu % 8);
    }
  }

  // ---------------------------------------------------------------------------------------------
  // Which bit of a byte a CPU has
  // ---------------------------------------------------------------------------------------------

  function Power2(k: nat): (p: nat)
    ensures p > 0
  {
    if k == 0 then 1 else 2 * Power2(k - 1)
  }

  lemma Powers()
    ensures Power2(0) == 1 && Power2(1) == 2 && Power2(2) == 4 && Power2(3) == 8
    ensures Power2(4) == 16 && Power2(5) == 32 && Power2(6) == 64 && Power2(7) == 128
  {
    assert Power2(3) == 8;
    assert Power2(5) == 32;
  }

  lemma Digit0(x: bv8)
    ensures x & 1 != 0 <==> x as nat % 2 == 1
  {
  }

  lemma Digit1(x: bv8)
    ensures x & 2 != 0 <==> (x as nat / 2) % 2 == 1
  {
  }

  lemma Digit2(x: bv8)
    ensures x & 4 != 0 <==> (x as nat / 4) % 2 == 1
  {
  }

  lemma Digit3(x: bv8)
    ensures x & 8 != 0 <==> (x as nat / 8) % 2 == 1
  {
  }

  lemma Digit4(x: bv8)
    ensures x & 16 != 0 <==> (x as nat / 16) % 2 == 1
  {
  }

  lemma Digit5(x: bv8)
    ensures x & 32 != 0 <==> (x as nat / 32) % 2 == 1
  {
  }

  lemma Digit6(x: bv8)
    ensures x & 64 != 0 <==> (x as nat / 64) % 2 == 1
  {
  }

  lemma Digit7(x: bv8)
    ensures x & 128 != 0 <==> (x as nat / 128) % 2 == 1
  {
  }

  /** Digit k of n in base 2, counted from the least significant. */
  predicate BinaryDigit(n: nat, k: nat) {
    (n / Power2(k)) % 2 == 1
  }

  /** The bit of a CPU in its byte is counted from the least significant. */
  lemma BitIsDigit(x: bv8, k: nat)
    requires k < 8
    ensures x & Bit(k) != 0 <==> BinaryDigit(x as nat, k)
  {
    Powers();
    if k == 0 {
      Digit0(x);
    } else if k == 1 {
      Digit1(x);
    } else if k == 2 {
      Digit2(x);
    } else if k == 3 {
      Digit3(x);
    } else if k == 4 {
      Digit4(x);
    } else if k == 5 {
      Digit5(x);
    } else if k == 6 {
      Digit6(x);
    } else {
      Digit7(x);
    }
  }

  /** CPU b is digit b % 8, counted from the least significant, of the number in byte b / 8. */
  predicate DigitSet(bytes: seq<bv8>, cpu: nat) {
    cpu / 8 < |bytes| && BinaryDigit(bytes[cpu / 8] as nat, cpu % 8)
  }

  lemma SetIsDigit(bytes: seq<bv8>, cpu: nat)
    ensures DigitSet(bytes, cpu) <==> BitSet(bytes, cpu)
  {
    if cpu / 8 < |bytes| {
      BitIsDigit(bytes[cpu / 8], cpu % 8);
    }
  }

  predicate AllWithin(cpus: seq<nat>, maplen: nat) {
    forall i :: 0 <= i < |cpus| ==> cpus[i] < 8 * maplen
  }

  /**
   The map has the bit of a CPU set exactly if the CPU is in the list. None stands for a write beyond
   the map, for which the program has no meaning; it happens exactly if a CPU is outside.
   */
  method PinVcpuToCpus(cpus: seq<nat>, maplen: nat) returns (cpumap: Option<seq<bv8>>)
    ensures cpumap.Some? <==> AllWithin(cpus, maplen)
    ensures cpumap.Some? ==> |cpumap.value| == maplen && forall b: nat :: DigitSet(cpumap.value, b) <==> b in cpus
  {
    var bytes := new bv8[maplen](_ => 0);
    for i := 0 to |cpus|
      invariant forall j :: 0 <= j < i ==> cpus[j] < 8 * maplen
      invariant forall b: nat :: BitSet(bytes[..], b) <==> b in cpus[..i]
    {
      var cpu := cpus[i];
      if cpu / 8 >= maplen {
        return None;
      }
      ghost var before := bytes[..];
      bytes[cpu / 8] := bytes[cpu / 8] | Bit(cpu % 8);
      assert cpus[..i + 1] == cpus[..i] + [cpu];
      forall b: nat
        ensures BitSet(bytes[..], b) <==> b in cpus[..i + 1]
      {
        UseCpu(before, bytes[..], cpu, b);
      }
    }
    assert cpus[..|cpus|] == cpus;
    forall b: nat
      ensures DigitSet(bytes[..], b) <==> BitSet(bytes[..], b)
    {
      SetIsDigit(bytes[..], b);
    }
    cpumap := Some(bytes[..]);
  }

  /** How repinning ends. */
  datatype Repinned = AllPinned | Threw | WroteBeyond

  /** The call that pins this virtual CPU, if it is reached, does not come back with success. */
  predicate Stops(vcpuMap: seq<seq<nat>>, nodeCpus: nat, failing: Option<nat>, v: nat)
    requires v < |vcpuMap|
  {
    failing == Some(v) || !AllWithin(vcpuMap[v], CpuMapLen(nodeCpus))
  }

  /** Pinning came exactly to the first virtual CPU that stops it, and ended as that one says. */
  ghost predicate PinnedUpTo(vcpuMap: seq<seq<nat>>, nodeCpus: nat, failing: Option<nat>,
                             pinned: seq<seq<bv8>>, end: Repinned)
  {
    && |pinned| <= |vcpuMap|
    && (forall v :: 0 <= v < |pinned| ==> !Stops(vcpuMap, nodeCpus, failing, v))
    && (end == AllPinned <==> |pinned| == |vcpuMap|)
    && (end != AllPinned ==>
          && Stops(vcpuMap, nodeCpus, failing, |pinned|)
          && (end == WroteBeyond <==> !AllWithin(vcpuMap[|pinned|], CpuMapLen(nodeCpus))))
    && (forall v :: 0 <= v < |pinned| ==> |pinned[v]| == CpuMapLen(nodeCpus))
  }

  /**
   Every virtual CPU gets the map of its list, in order, up to the first that cannot be pinned
   (`failing`, if any) or whose list names a CPU beyond the map of the node. If the number of CPUs of
   the node cannot be told (`node` is None), nothing is pinned.
   */
  method RepinVcpus(vcpuMap: seq<seq<nat>>, node: Option<nat>, failing: Option<nat>)
    returns (pinned: seq<seq<bv8>>, end: Repinned)
    ensures node.None? ==> pinned == [] && end == Threw
    ensures node.Some? ==> PinnedUpTo(vcpuMap, node.value, failing, pinned, end)
    ensures |pinned| <= |vcpuMap|
    ensures forall v, b: nat :: 0 <= v < |pinned| ==> (DigitSet(pinned[v], b) <==> b in vcpuMap[v])
  {
    pinned := [];
    if node.None? {
      return pinned, Threw;
    }
    var nodeCpus := node.value;
    var maplen := CpuMapLen(nodeCpus);
    for v := 0 to |vcpuMap|
      invariant |pinned| == v
      invariant forall u :: 0 <= u < v ==> !Stops(vcpuMap, nodeCpus, failing, u)
      invariant forall u :: 0 <= u < v ==> |pinned[u]| == maplen
      invariant forall u, b: nat :: 0 <= u < v ==> (DigitSet(pinned[u], b) <==> b in vcpuMap[u])
    {
      var cpumap := PinVcpuToCpus(vcpuMap[v], maplen);
      if cpumap.None? {
        return pinned, WroteBeyond;
      }
      if failing == Some(v) {
        return pinned, Threw;
      }
      pinned := pinned + [cpumap.value];
    }
    end := AllPinned;
  }

  /** Lists that name only CPUs of the node never lead beyond the map, and no shorter map would do. */
  lemma NodeCpusFit(cpus: seq<nat>, nodeCpus: nat)
    requires forall i :: 0 <= i < |cpus| ==> cpus[i] < nodeCpus
    ensures AllWithin(cpus, CpuMapLen(nodeCpus))
    ensures nodeCpus > 0 ==> 8 * (CpuMapLen(nodeCpus) - 1) < nodeCpus
  {
    assert 8 * ((nodeCpus + 7) / 8) >= nodeCpus;
  }
}
