/**
 * Python's `sorted()` on a list of reals, as an insertion sort: the result is the
 * ascending permutation of its argument, and there is only one such permutation.
 */
module Sorting {
  import opened Counting

  predicate IsAscending(s: seq<real>) {
    forall i, j :: 0 <= i < j < |s| ==> s[i] <= s[j]
  }

  predicate IsStrictlyAscending(s: seq<real>) {
    forall i, j :: 0 <= i < j < |s| ==> s[i] < s[j]
  }

  /** Every element of `s` is at least `lo`. */
  predicate LowerBound(lo: real, s: seq<real>) {
    forall i :: 0 <= i < |s| ==> lo <= s[i]
  }

  lemma AscendingCons(h: real, t: seq<real>)
    requires IsAscending(t) && LowerBound(h, t)
    ensures IsAscending([h] + t)
  {
    var s := [h] + t;
    forall i, j | 0 <= i < j < |s|
      ensures s[i] <= s[j]
    {
      if i > 0 {
        assert s[i] == t[i - 1] && s[j] == t[j - 1];
      } else {
        assert s[j] == t[j - 1];
      }
    }
  }

  lemma LowerBoundOfMultiset(lo: real, s: seq<real>, t: seq<real>)
    requires LowerBound(lo, s)
    requires multiset(t) <= multiset(s)
    ensures LowerBound(lo, t)
  {
    forall i | 0 <= i < |t|
      ensures lo <= t[i]
    {
      assert t[i] in multiset(t);
      assert t[i] in multiset(s);
      var k :| 0 <= k < |s| && s[k] == t[i];
    }
  }

  /** Inserts `x` into an ascending sequence before the first element not smaller. */
  function Insert(x: real, s: seq<real>): (r: seq<real>)
    requires IsAscending(s)
    ensures multiset(r) == multiset(s) + multiset{x}
    ensures IsAscending(r)
  {
    if s == [] || x <= s[0] then
      assert LowerBound(x, s);
      AscendingCons(x, s);
      [x] + s
    else
      assert s == [s[0]] + s[1..];
      var rest := Insert(x, s[1..]);
      assert LowerBound(s[0], s[1..] + [x]);
      assert multiset(rest) == multiset(s[1..] + [x]);
      LowerBoundOfMultiset(s[0], s[1..] + [x], rest);
      AscendingCons(s[0], rest);
      [s[0]] + rest
  }

  /** `sorted(s)` */
  function Sort(s: seq<real>): (r: seq<real>)
    ensures multiset(r) == multiset(s)
    ensures IsAscending(r)
  {
    if s == [] then []
    else
      assert s == [s[0]] + s[1..];
      Insert(s[0], Sort(s[1..]))
  }

  /** Sorting neither adds nor loses elements. */
  lemma SortMembers(s: seq<real>)
    ensures forall x :: x in Sort(s) <==> x in s
  {
    assert forall x :: x in Sort(s) <==> x in multiset(Sort(s));
    assert forall x :: x in s <==> x in multiset(s);
  }

  /** An ascending sequence without repeated elements is strictly ascending. */
  lemma AscendingDistinct(s: seq<real>)
    requires IsAscending(s) && NoDuplicates(s)
    ensures IsStrictlyAscending(s)
  {
  }

  lemma {:induction false} NoDuplicatesMultiset(s: seq<real>)
    requires NoDuplicates(s)
    ensures forall x :: multiset(s)[x] <= 1
  {
    if s != [] {
      var t := s[..|s| - 1];
      assert s == t + [s[|s| - 1]];
      NoDuplicatesMultiset(t);
      assert s[|s| - 1] !in t;
    }
  }

  lemma MultisetNoDuplicates(s: seq<real>)
    requires forall x :: multiset(s)[x] <= 1
    ensures NoDuplicates(s)
  {
    forall i, j | 0 <= i < j < |s|
      ensures s[i] != s[j]
    {
      RepeatCounts(s, i, j);
    }
  }

  lemma RepeatCounts(s: seq<real>, i: nat, j: nat)
    requires i < j < |s|
    ensures s[i] == s[j] ==> multiset(s)[s[i]] >= 2
  {
    assert s == s[..i] + [s[i]] + s[i + 1..j] + [s[j]] + s[j + 1..];
  }

  /** Sorting values that are all different gives a strictly ascending sequence. */
  lemma SortDistinct(s: seq<real>)
    requires NoDuplicates(s)
    ensures IsStrictlyAscending(Sort(s))
  {
    NoDuplicatesMultiset(s);
    MultisetNoDuplicates(Sort(s));
    AscendingDistinct(Sort(s));
  }

  /** The first element of an ascending sequence is its least. */
  lemma HeadIsLeast(a: seq<real>, x: real)
    requires IsAscending(a) && x in multiset(a)
    ensures a[0] <= x
  {
    var k :| 0 <= k < |a| && a[k] == x;
  }

  lemma AscendingTail(a: seq<real>)
    requires a != [] && IsAscending(a)
    ensures IsAscending(a[1..])
  {
    assert forall i :: 0 <= i < |a[1..]| ==> a[1..][i] == a[i + 1];
  }

  /** Two ascending sequences with the same non-empty elements agree on their
      head and on the elements of their tail. */
  lemma SameHead(a: seq<real>, b: seq<real>)
    requires IsAscending(a) && IsAscending(b)
    requires a != [] && multiset(a) == multiset(b)
    ensures b != [] && a[0] == b[0]
    ensures multiset(a[1..]) == multiset(b[1..])
  {
    assert |multiset(a)| == |a| && |multiset(b)| == |b|;
    HeadIsLeast(a, b[0]);
    HeadIsLeast(b, a[0]);
    MultisetTail(a);
    MultisetTail(b);
  }

  /** The elements of a non-empty sequence past its head. */
  lemma MultisetTail(a: seq<real>)
    requires a != []
    ensures multiset(a[1..]) == multiset(a) - multiset{a[0]}
  {
    assert a == [a[0]] + a[1..];
  }

  /** Two ascending sequences with the same elements are equal. */
  lemma {:induction false} AscendingUnique(a: seq<real>, b: seq<real>)
    requires IsAscending(a) && IsAscending(b)
    requires multiset(a) == multiset(b)
    ensures a == b
    decreases |a|
  {
    if a == [] {
      assert |multiset(b)| == 0;
    } else {
      SameHead(a, b);
      AscendingTail(a);
      AscendingTail(b);
      AscendingUnique(a[1..], b[1..]);
      assert a == [a[0]] + a[1..] && b == [b[0]] + b[1..];
    }
  }

  /** Sorting an ascending sequence returns it unchanged. */
  lemma SortAscending(s: seq<real>)
    requires IsAscending(s)
    ensures Sort(s) == s
  {
    AscendingUnique(Sort(s), s);
  }

  /** The sorted order depends only on the elements, not on their order. */
  lemma SortPermutation(s: seq<real>, t: seq<real>)
    requires multiset(s) == multiset(t)
    ensures Sort(s) == Sort(t)
  {
    AscendingUnique(Sort(s), Sort(t));
  }
}
