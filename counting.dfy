/**
 * Occurrence counting, shared by the two places where the source tallies values
 * in a dict (`freq[x] = freq.get(x, 0) + 1`). A Python dict of counts is
 * represented by the sequence of its (key, count) items in the dict's order.
 */
module Counting {

  /** The number of occurrences of `x` in `s`. */
  function Count<T(==)>(s: seq<T>, x: T): (n: nat)
    ensures n <= |s|
    ensures n > 0 <==> x in s
  {
    if s == [] then 0
    else
      assert s == s[..|s| - 1] + [s[|s| - 1]];
      Count(s[..|s| - 1], x) + (if s[|s| - 1] == x then 1 else 0)
  }

  lemma CountSnoc<T>(s: seq<T>, y: T, x: T)
    ensures Count(s + [y], x) == Count(s, x) + (if y == x then 1 else 0)
  {
    assert (s + [y])[..|s|] == s;
  }

  /** Counting distributes over concatenation. */
  lemma {:induction false} CountAppend<T>(a: seq<T>, b: seq<T>, x: T)
    ensures Count(a + b, x) == Count(a, x) + Count(b, x)
  {
    if b != [] {
      var b' := b[..|b| - 1];
      assert a + b == (a + b') + [b[|b| - 1]];
      assert b == b' + [b[|b| - 1]];
      CountAppend(a, b', x);
      CountSnoc(a + b', b[|b| - 1], x);
      CountSnoc(b', b[|b| - 1], x);
    } else {
      assert a + b == a;
    }
  }

  predicate NoDuplicates<T(==)>(s: seq<T>) {
    forall i, j :: 0 <= i < j < |s| ==> s[i] != s[j]
  }

  /** The position of the first occurrence of `x` in `s`. */
  function FirstIndex<T(==)>(s: seq<T>, x: T): (k: nat)
    requires x in s
    ensures k < |s| && s[k] == x
    ensures forall i :: 0 <= i < k ==> s[i] != x
  {
    if s[0] == x then 0 else 1 + FirstIndex(s[1..], x)
  }

  /** An occurrence with none before it is the first one. */
  lemma {:induction false} FirstIndexUnique<T>(s: seq<T>, x: T, k: nat)
    requires k < |s| && s[k] == x
    requires forall i :: 0 <= i < k ==> s[i] != x
    ensures FirstIndex(s, x) == k
  {
    if k > 0 {
      assert s[0] != x;
      assert forall i :: 0 <= i < k - 1 ==> s[1..][i] == s[i + 1];
      FirstIndexUnique(s[1..], x, k - 1);
    }
  }

  /** Appending an element leaves the first occurrences already present in place. */
  lemma FirstIndexSnoc<T>(s: seq<T>, y: T, x: T)
    requires x in s
    ensures FirstIndex(s + [y], x) == FirstIndex(s, x)
  {
    var k := FirstIndex(s, x);
    assert forall i :: 0 <= i <= k ==> (s + [y])[i] == s[i];
    FirstIndexUnique(s + [y], x, k);
  }

  /** A new element first occurs at the end. */
  lemma FirstIndexSnocNew<T>(s: seq<T>, y: T)
    requires y !in s
    ensures FirstIndex(s + [y], y) == |s|
  {
    assert forall i :: 0 <= i < |s| ==> (s + [y])[i] == s[i];
    FirstIndexUnique(s + [y], y, |s|);
  }

  /** The distinct elements of `s` in the order of their first occurrence: the
      order in which a Python dict receives its keys. */
  function Distinct<T(==)>(s: seq<T>): (d: seq<T>)
    ensures NoDuplicates(d)
    ensures forall x :: x in d ==> x in s
    ensures forall x :: x in s ==> x in d
    ensures forall i, j :: 0 <= i < j < |d| ==> FirstIndex(s, d[i]) < FirstIndex(s, d[j])
  {
    if s == [] then []
    else
      var init, y := s[..|s| - 1], s[|s| - 1];
      assert s == init + [y];
      var p := Distinct(init);
      forall x | x in p
        ensures FirstIndex(s, x) == FirstIndex(init, x) < |init|
      {
        FirstIndexSnoc(init, y, x);
      }
      if y in p then p
      else
        FirstIndexSnocNew(init, y);
        var d := p + [y];
        assert forall i :: 0 <= i < |p| ==> d[i] == p[i] && d[i] in p;
        d
  }

  lemma DistinctSnoc<T>(s: seq<T>, y: T)
    ensures Distinct(s + [y]) == if y in Distinct(s) then Distinct(s) else Distinct(s) + [y]
  {
    assert (s + [y])[..|s|] == s;
  }

  /** A counting dict: a key for each element of `s`, holding its number of
      occurrences. */
  ghost predicate Counts<T(!new)>(freq: map<T, nat>, s: seq<T>) {
    && (forall x :: x in freq <==> x in s)
    && (forall x :: x in freq ==> freq[x] == Count(s, x))
  }

  /** `freq[y] = freq.get(y, 0) + 1` keeps a counting dict up to date. */
  lemma CountsStep<T(!new)>(freq: map<T, nat>, s: seq<T>, y: T)
    requires Counts(freq, s)
    ensures Counts(freq[y := (if y in freq then freq[y] else 0) + 1], s + [y])
  {
    var f := freq[y := (if y in freq then freq[y] else 0) + 1];
    forall x
      ensures Count(s + [y], x) == Count(s, x) + (if y == x then 1 else 0)
    {
      CountSnoc(s, y, x);
    }
    assert forall x :: x in s + [y] <==> x in s || x == y;
  }

  /** One step of a counting loop: the dict is updated by `freq.get(y, 0) + 1`
      and `y` joins the key order when it is new. */
  lemma CountingLoopStep<T(!new)>(freq: map<T, nat>, order: seq<T>, s: seq<T>, y: T)
    requires order == Distinct(s) && Counts(freq, s)
    ensures (if y in freq then order else order + [y]) == Distinct(s + [y])
    ensures Counts(freq[y := (if y in freq then freq[y] else 0) + 1], s + [y])
  {
    DistinctSnoc(s, y);
    CountsStep(freq, s, y);
    assert y in freq <==> y in order;
  }

  /** The keys of a table, in table order. */
  function Keys<K, V>(t: seq<(K, V)>): seq<K> {
    seq(|t|, i requires 0 <= i < |t| => t[i].0)
  }

  /** The sum of the counts of a table. */
  function SumCounts<K>(t: seq<(K, nat)>): nat {
    if t == [] then 0 else t[0].1 + SumCounts(t[1..])
  }

  /** `t` tallies `s`: its keys are the distinct elements of `s`, each once, and
      each key comes with its number of occurrences in `s`. */
  ghost predicate IsTally<T>(t: seq<(T, nat)>, s: seq<T>) {
    && NoDuplicates(Keys(t))
    && (forall x :: x in Keys(t) ==> x in s)
    && (forall x :: x in s ==> x in Keys(t))
    && (forall i :: 0 <= i < |t| ==> t[i].1 == Count(s, t[i].0))
  }

  /** The table that pairs each of `keys` with its number of occurrences in `s`. */
  function Tabulate<T(==)>(keys: seq<T>, s: seq<T>): (t: seq<(T, nat)>)
    ensures Keys(t) == keys
  {
    var t := seq(|keys|, i requires 0 <= i < |keys| => (keys[i], Count(s, keys[i])));
    assert Keys(t) == keys;
    t
  }

  /** Tabulating the distinct elements of `s`, in any order, tallies `s`. */
  lemma TabulateIsTally<T>(keys: seq<T>, s: seq<T>)
    requires NoDuplicates(keys)
    requires forall x :: x in keys <==> x in s
    ensures IsTally(Tabulate(keys, s), s)
  {
  }

  /** Every count of a tally is at least one. */
  lemma TallyCountsPositive<T>(t: seq<(T, nat)>, s: seq<T>, i: nat)
    requires IsTally(t, s) && i < |t|
    ensures t[i].1 >= 1
  {
    assert t[i].0 == Keys(t)[i];
  }

  /** `s` with every occurrence of `k` removed. */
  function Without<T(==)>(s: seq<T>, k: T): (r: seq<T>)
    ensures |r| <= |s|
  {
    if s == [] then []
    else if s[|s| - 1] == k then Without(s[..|s| - 1], k)
    else Without(s[..|s| - 1], k) + [s[|s| - 1]]
  }

  lemma {:induction false} CountWithout<T>(s: seq<T>, k: T, x: T)
    ensures Count(Without(s, k), x) == if x == k then 0 else Count(s, x)
  {
    if s != [] {
      var s' := s[..|s| - 1];
      CountWithout(s', k, x);
      if s[|s| - 1] != k {
        CountSnoc(Without(s', k), s[|s| - 1], x);
      }
    }
  }

  lemma {:induction false} LengthWithout<T>(s: seq<T>, k: T)
    ensures |s| == Count(s, k) + |Without(s, k)|
  {
    if s != [] {
      LengthWithout(s[..|s| - 1], k);
    }
  }

  lemma FirstIsElement<T>(s: seq<T>)
    ensures s == [] || s[0] in s
  {
  }

  /** Past its first entry, a tally of `s` tallies `s` without that entry's key. */
  lemma TallyTail<T>(t: seq<(T, nat)>, s: seq<T>)
    requires IsTally(t, s) && t != []
    ensures IsTally(t[1..], Without(s, t[0].0))
  {
    var k := t[0].0;
    var w := Without(s, k);
    var rest := t[1..];
    assert Keys(t) == [k] + Keys(rest);
    forall i, j | 0 <= i < j < |rest|
      ensures Keys(rest)[i] != Keys(rest)[j]
    {
      assert Keys(rest)[i] == Keys(t)[i + 1] && Keys(rest)[j] == Keys(t)[j + 1];
    }
    forall x
      ensures Count(w, x) == if x == k then 0 else Count(s, x)
    {
      CountWithout(s, k, x);
    }
    forall j | 0 <= j < |rest|
      ensures Keys(rest)[j] == rest[j].0 != k && rest[j].0 in s
      ensures rest[j].1 == Count(w, rest[j].0)
    {
      assert rest[j] == t[j + 1];
      assert rest[j].0 == Keys(t)[j + 1] && Keys(t)[0] == k;
    }
    forall x | x in Keys(rest)
      ensures x in w
    {
      var j :| 0 <= j < |rest| && Keys(rest)[j] == x;
      assert Count(w, x) > 0;
    }
    forall x | x in w
      ensures x in Keys(rest)
    {
      assert Count(w, x) > 0 && x != k;
      assert x in s && x in Keys(t);
      var i :| 0 <= i < |t| && Keys(t)[i] == x;
      assert i != 0 && Keys(rest)[i - 1] == x;
    }
  }

  /** The counts of a tally add up to the length of the tallied sequence. */
  lemma {:induction false} TallySum<T>(t: seq<(T, nat)>, s: seq<T>)
    requires IsTally(t, s)
    ensures SumCounts(t) == |s|
    decreases |t|
  {
    if t == [] {
      assert Keys(t) == [];
      FirstIsElement(s);
    } else {
      var k := t[0].0;
      TallyTail(t, s);
      TallySum(t[1..], Without(s, k));
      LengthWithout(s, k);
    }
  }
}
