/** Finite sums over sequences and the facts about permutations that the models share. */
module Sequences {

  datatype Option<+T> = None | Some(value: T)

  datatype Result<+T> = Ok(value: T) | Thrown

  function Max(a: int, b: int): int {
    if a < b then b else a
  }

  function Min(a: int, b: int): int {
    if a < b then a else b
  }

  function Sum(s: seq<nat>): nat {
    if s == [] then 0 else s[0] + Sum(s[1..])
  }

  function Repeat<T>(x: T, n: nat): seq<T> {
    seq(n, _ => x)
  }

  /** The first n elements of s, or all of s when it is shorter. */
  function Prefix<T>(s: seq<T>, n: nat): seq<T> {
    if n < |s| then s[..n] else s
  }

  function Rotate<T>(s: seq<T>): seq<T>
    requires s != []
  {
    s[1..] + [s[0]]
  }

  function SumBy<T>(f: T -> int, s: seq<T>): int {
    if s == [] then 0 else f(s[0]) + SumBy(f, s[1..])
  }

  lemma {:induction false} SumByConcat<T>(f: T -> int, a: seq<T>, b: seq<T>)
    ensures SumBy(f, a + b) == SumBy(f, a) + SumBy(f, b)
  {
    if a == [] {
      assert a + b == b;
    } else {
      assert (a + b)[1..] == a[1..] + b;
      SumByConcat(f, a[1..], b);
    }
  }

  /** Taking out one element of a sequence. */
  function Without<T>(s: seq<T>, i: nat): seq<T>
    requires i < |s|
  {
    s[..i] + s[i + 1..]
  }

  lemma WithoutMultiset<T>(s: seq<T>, i: nat)
    requires i < |s|
    ensures multiset(s) == multiset(Without(s, i)) + multiset{s[i]}
  {
    assert s == s[..i] + [s[i]] + s[i + 1..];
  }

  lemma SumByWithout<T>(f: T -> int, s: seq<T>, i: nat)
    requires i < |s|
    ensures SumBy(f, s) == f(s[i]) + SumBy(f, Without(s, i))
  {
    var a, b := s[..i], s[i + 1..];
    assert s == a + s[i..];
    SumByConcat(f, a, s[i..]);
    SumByConcat(f, a, b);
    assert SumBy(f, s[i..]) == f(s[i]) + SumBy(f, b) by {
      assert s[i..][1..] == b;
    }
  }

  lemma SameRemainder<T>(a: multiset<T>, b: multiset<T>, x: T)
    requires a + multiset{x} == b + multiset{x}
    ensures a == b
  {
    assert a == (a + multiset{x}) - multiset{x};
    assert b == (b + multiset{x}) - multiset{x};
  }

  /** The place of the first element of a in a reordering of a. */
  lemma FindFirst<T>(a: seq<T>, b: seq<T>) returns (i: nat)
    requires multiset(a) == multiset(b) && a != []
    ensures i < |b| && b[i] == a[0] && multiset(a[1..]) == multiset(Without(b, i))
  {
    assert a[0] in multiset(a);
    i :| 0 <= i < |b| && b[i] == a[0];
    WithoutMultiset(a, 0);
    WithoutMultiset(b, i);
    assert Without(a, 0) == a[1..];
    SameRemainder(multiset(a[1..]), multiset(Without(b, i)), a[0]);
  }

  /** A sum does not depend on the order of its terms. */
  lemma {:induction false} SumByPermutation<T>(f: T -> int, a: seq<T>, b: seq<T>)
    requires multiset(a) == multiset(b)
    ensures SumBy(f, a) == SumBy(f, b)
  {
    if a == [] {
      assert |multiset(b)| == 0;
    } else {
      var i := FindFirst(a, b);
      SumByPermutation(f, a[1..], Without(b, i));
      SumByWithout(f, b, i);
    }
  }

  lemma PermutationLength<T>(a: seq<T>, b: seq<T>)
    requires multiset(a) == multiset(b)
    ensures |a| == |b|
  {
    assert |multiset(a)| == |a| && |multiset(b)| == |b|;
  }

  lemma PermutationMembers<T>(a: seq<T>, b: seq<T>)
    requires multiset(a) == multiset(b)
    ensures forall x :: x in a <==> x in b
  {
    assert forall x :: x in a <==> x in multiset(a);
    assert forall x :: x in b <==> x in multiset(b);
  }
}
