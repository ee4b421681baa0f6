/** Sequence helpers shared by the editor operations. */
module Seqs {
  import opened Wrappers

  ghost predicate Distinct<T>(s: seq<T>) {
    forall i, j :: 0 <= i < j < |s| ==> s[i] != s[j]
  }

  /** The elements of `s` that differ from `x`, in their order: `s.filter(f => f !== x)`. */
  function Without<T(==)>(s: seq<T>, x: T): (r: seq<T>)
    ensures |r| <= |s|
    ensures forall i :: 0 <= i < |r| ==> r[i] in s && r[i] != x
    ensures forall i :: 0 <= i < |s| && s[i] != x ==> s[i] in r
  {
    if s == [] then [] else (if s[0] == x then [] else [s[0]]) + Without(s[1..], x)
  }

  /** Filtering distributes over concatenation, so the kept elements stay in their relative order. */
  lemma {:induction false} WithoutConcat<T>(a: seq<T>, b: seq<T>, x: T)
    ensures Without(a + b, x) == Without(a, x) + Without(b, x)
  {
    if a != [] {
      assert (a + b)[1..] == a[1..] + b;
      WithoutConcat(a[1..], b, x);
    } else {
      assert a + b == b;
    }
  }

  /** Filtering removes every copy of `x` and keeps every other element with its multiplicity. */
  lemma {:induction false} WithoutMultiset<T>(s: seq<T>, x: T)
    ensures multiset(Without(s, x)) == multiset(s)[x := 0]
  {
    if s != [] {
      var rest := s[1..];
      WithoutMultiset(rest, x);
      assert s == [s[0]] + rest;
      DropFromAdded(multiset(rest), s[0], x);
      if s[0] == x {
        assert Without(s, x) == Without(rest, x);
      } else {
        assert Without(s, x) == [s[0]] + Without(rest, x);
        assert multiset(Without(s, x)) == multiset{s[0]} + multiset(Without(rest, x));
      }
    }
  }

  /** Dropping `x` from a multiset with one more `y`: the extra `y` survives unless it is `x`. */
  lemma DropFromAdded<T>(m: multiset<T>, y: T, x: T)
    ensures (multiset{y} + m)[x := 0] == if y == x then m[x := 0] else multiset{y} + m[x := 0]
  {
    var l := (multiset{y} + m)[x := 0];
    var r := if y == x then m[x := 0] else multiset{y} + m[x := 0];
    assert forall z :: l[z] == r[z];
  }

  /** Filtering a sequence that does not hold `x` changes nothing. */
  lemma {:induction false} WithoutAbsent<T>(s: seq<T>, x: T)
    requires x !in s
    ensures Without(s, x) == s
  {
    if s != [] {
      assert s[0] != x && x !in s[1..];
      WithoutAbsent(s[1..], x);
      assert Without(s, x) == [s[0]] + s[1..];
      assert s == [s[0]] + s[1..];
    }
  }

  /** Filtering keeps a duplicate-free sequence duplicate-free. */
  lemma {:induction false} WithoutDistinct<T>(s: seq<T>, x: T)
    requires Distinct(s)
    ensures Distinct(Without(s, x))
  {
    if s != [] {
      WithoutDistinct(s[1..], x);
      var tail := Without(s[1..], x);
      assert s[0] !in s[1..];
      assert s[0] !in tail;
    }
  }

  /** The first position of `x` in `s`: `s.indexOf(x)`, with -1 as `None`. */
  function IndexOf<T(==)>(s: seq<T>, x: T): (r: Option<nat>)
    ensures r.Some? ==> r.value < |s| && s[r.value] == x && x !in s[..r.value]
    ensures r.None? ==> x !in s
  {
    if s == [] then None
    else if s[0] == x then Some(0)
    else match IndexOf(s[1..], x)
      case None => None
      case Some(i) =>
        assert s[..i + 1] == [s[0]] + s[1..][..i];
        Some(i + 1)
  }

  /**
   * A position argument of `slice` or `splice` on a list of length `len`:
   * a negative value counts back from the end, and the result lies in `0..len`.
   */
  function ClampIndex(len: nat, i: int): (r: nat)
    ensures r <= len
    ensures 0 <= i <= len ==> r == i
    ensures i > len ==> r == len
    ensures i < 0 ==> r == if len + i < 0 then 0 else len + i
  {
    if i < 0 then (if len + i < 0 then 0 else len + i)
    else if i > len then len
    else i
  }
}
