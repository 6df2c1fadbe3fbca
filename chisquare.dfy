/**
 * What `chi_square_test()` computes from the single row of counts it passes to
 * `chi2_contingency`, next to the goodness-of-fit test its docstring describes.
 * On a table of one row the expected frequencies of a contingency test are the
 * observed counts themselves, so its statistic is always 0; a goodness-of-fit
 * test compares the counts with equal expected counts instead.
 */
module ChiSquare {
  /** The counts as reals. */
  function AsReals(counts: seq<nat>): (r: seq<real>)
    ensures |r| == |counts|
  {
    seq(|counts|, j requires 0 <= j < |counts| => counts[j] as real)
  }

  function Total(counts: seq<nat>): nat {
    if counts == [] then 0 else counts[0] + Total(counts[1..])
  }

  predicate AllPositive(e: seq<real>) {
    forall j :: 0 <= j < |e| ==> e[j] > 0.0
  }

  /** A product of reals, kept as a term of its own so that facts about it
      are stated once, here. */
  function Product(a: real, b: real): real {
    a * b
  }

  lemma ProductPositive(a: real, b: real)
    requires a > 0.0 && b > 0.0
    ensures Product(a, b) > 0.0
  {
  }

  /** x^2, as the product of |x| with itself: never negative, and positive
      unless x is 0. */
  function Square(x: real): (r: real)
    ensures r >= 0.0
    ensures x != 0.0 ==> r > 0.0
  {
    var a := if x < 0.0 then -x else x;
    if a > 0.0 then ProductPositive(a, a); Product(a, a) else 0.0
  }

  /** The contribution of one cell: (observed - expected)^2 / expected. */
  function Term(o: real, e: real): (t: real)
    requires e > 0.0
    ensures t >= 0.0
  {
    Square(o - e) / e
  }

  /** Pearson's statistic: the sum of the terms of all cells. */
  function PearsonStatistic(observed: seq<real>, expected: seq<real>): (chi2: real)
    requires |observed| == |expected| && AllPositive(expected)
    ensures chi2 >= 0.0
  {
    if observed == [] then 0.0
    else
      assert AllPositive(expected[1..]) by {
        assert forall j :: 0 <= j < |expected[1..]| ==> expected[1..][j] == expected[j + 1];
      }
      Term(observed[0], expected[0]) + PearsonStatistic(observed[1..], expected[1..])
  }

  /** The statistic vanishes when every observed count is its expected count. */
  lemma {:induction false} PearsonOfItself(e: seq<real>)
    requires AllPositive(e)
    ensures PearsonStatistic(e, e) == 0.0
  {
    if e != [] {
      assert AllPositive(e[1..]) by {
        assert forall j :: 0 <= j < |e[1..]| ==> e[1..][j] == e[j + 1];
      }
      PearsonOfItself(e[1..]);
    }
  }

  /** The expected frequency of a cell of a contingency table: its row total
      times its column total over the grand total. */
  function CellExpected(rowTotal: real, columnTotal: real, grandTotal: real): real
    requires grandTotal > 0.0
  {
    rowTotal * columnTotal / grandTotal
  }

  /** The expected frequencies `chi2_contingency` uses on the table `[counts]`.
      The only row total and the grand total are both the total of the counts,
      and each column total is the column's one count. */
  function ContingencyExpected(counts: seq<nat>): (e: seq<real>)
    requires Total(counts) > 0
    ensures |e| == |counts|
  {
    var t := Total(counts) as real;
    seq(|counts|, j requires 0 <= j < |counts| => CellExpected(t, counts[j] as real, t))
  }

  lemma ExpectedIsObserved(counts: seq<nat>)
    requires Total(counts) > 0
    ensures ContingencyExpected(counts) == AsReals(counts)
  {
    var t := Total(counts) as real;
    var e, o := ContingencyExpected(counts), AsReals(counts);
    forall j | 0 <= j < |counts|
      ensures e[j] == o[j]
    {
      assert e[j] == CellExpected(t, counts[j] as real, t);
      CancelTotal(t, counts[j] as real);
    }
  }

  /** With a single row, a cell expects exactly its own count. */
  lemma CancelTotal(t: real, c: real)
    requires t > 0.0
    ensures CellExpected(t, c, t) == c
  {
    assert t * c == c * t;
  }

  /** The degrees of freedom `chi2_contingency` reports for a table of `rows`
      rows and `cols` columns: `expected.size - sum(expected.shape) +
      expected.ndim - 1`, which is (rows - 1) * (cols - 1). */
  function ContingencyDof(rows: nat, cols: nat): (dof: int)
    ensures dof == (rows - 1) * (cols - 1)
  {
    rows * cols - (rows + cols) + 2 - 1
  }

  /** `chi2_contingency([counts])` as the code calls it: a table of one row, so
      no degrees of freedom, and a statistic comparing the counts with the
      expected counts of that table. */
  function ContingencySingleRow(counts: seq<nat>): (r: (real, int))
    requires Total(counts) > 0
    requires forall j :: 0 <= j < |counts| ==> counts[j] >= 1
    ensures r.1 == 0
  {
    ExpectedIsObserved(counts);
    var table := [counts];
    (PearsonStatistic(AsReals(counts), ContingencyExpected(counts)), ContingencyDof(|table|, |table[0]|))
  }

  /** Whatever the counts, the test as written reports a statistic of 0 on 0
      degrees of freedom: it never finds a difference between the categories. */
  lemma ContingencyAlwaysZero(counts: seq<nat>)
    requires Total(counts) > 0
    requires forall j :: 0 <= j < |counts| ==> counts[j] >= 1
    ensures ContingencySingleRow(counts) == (0.0, 0)
  {
    ExpectedIsObserved(counts);
    PearsonOfItself(AsReals(counts));
  }

  /** Equal expected counts: the total spread evenly over the categories. */
  function UniformExpected(counts: seq<nat>): (e: seq<real>)
    requires |counts| > 0 && Total(counts) > 0
    ensures |e| == |counts| && AllPositive(e)
  {
    seq(|counts|, _ => Total(counts) as real / |counts| as real)
  }

  /** The goodness-of-fit test against equal frequencies (`scipy.stats.chisquare`
      with its default expectation): the statistic, on k - 1 degrees of freedom. */
  function GoodnessOfFit(counts: seq<nat>): (r: (real, nat))
    requires |counts| >= 2 && Total(counts) > 0
    ensures r.0 >= 0.0 && r.1 == |counts| - 1
  {
    (PearsonStatistic(AsReals(counts), UniformExpected(counts)), |counts| - 1)
  }

  /** Two counts of total `t`. */
  lemma TotalOfTwo(counts: seq<nat>)
    requires |counts| == 2
    ensures Total(counts) == counts[0] + counts[1]
  {
    var rest := counts[1..];
    assert rest[0] == counts[1] && rest[1..] == [];
    assert Total(rest[1..]) == 0;
    assert Total(rest) == counts[1];
  }

  /** The statistic on two categories. */
  lemma PearsonOfTwo(o: seq<real>, e: seq<real>)
    requires |o| == |e| == 2 && AllPositive(e)
    ensures PearsonStatistic(o, e) == Term(o[0], e[0]) + Term(o[1], e[1])
  {
    var o', e' := o[1..], e[1..];
    assert o'[0] == o[1] && e'[0] == e[1];
    assert o'[1..] == [] && e'[1..] == [];
    assert AllPositive(e');
    assert PearsonStatistic(o'[1..], e'[1..]) == 0.0;
    assert PearsonStatistic(o', e') == Term(o[1], e[1]);
  }

  /** A cell whose count differs from its expected count adds a positive term. */
  lemma TermPositive(o: real, e: real)
    requires e > 0.0 && o != e
    ensures Term(o, e) > 0.0
  {
    DivPositive(Square(o - e), e);
  }

  lemma DivPositive(a: real, b: real)
    requires a > 0.0 && b > 0.0
    ensures a / b > 0.0
  {
    var q := a / b;
    assert q * b == a;
  }

  /** One differing cell makes the statistic positive. */
  lemma {:induction false} PearsonPositive(o: seq<real>, e: seq<real>, j: nat)
    requires |o| == |e| && AllPositive(e)
    requires j < |o| && o[j] != e[j]
    ensures PearsonStatistic(o, e) > 0.0
  {
    assert AllPositive(e[1..]) by {
      assert forall i :: 0 <= i < |e[1..]| ==> e[1..][i] == e[i + 1];
    }
    if j == 0 {
      TermPositive(o[0], e[0]);
    } else {
      assert o[1..][j - 1] == o[j] && e[1..][j - 1] == e[j];
      PearsonPositive(o[1..], e[1..], j - 1);
    }
  }

  /** The statistic is 0 exactly when every cell meets its expected count. */
  lemma PearsonZeroIff(o: seq<real>, e: seq<real>)
    requires |o| == |e| && AllPositive(e)
    ensures PearsonStatistic(o, e) == 0.0 <==> forall j :: 0 <= j < |o| ==> o[j] == e[j]
  {
    if forall j :: 0 <= j < |o| ==> o[j] == e[j] {
      assert o == e;
      PearsonOfItself(e);
    } else {
      var j :| 0 <= j < |o| && o[j] != e[j];
      PearsonPositive(o, e, j);
    }
  }

  /** k equal counts of c add up to k * c. */
  lemma {:induction false} TotalConst(counts: seq<nat>, c: nat)
    requires forall j :: 0 <= j < |counts| ==> counts[j] == c
    ensures Total(counts) == |counts| * c
  {
    if counts != [] {
      assert forall j :: 0 <= j < |counts[1..]| ==> counts[1..][j] == counts[j + 1];
      TotalConst(counts[1..], c);
    }
  }

  /** The share of each category when k equal counts of c are spread evenly. */
  lemma EvenShare(k: nat, c: nat)
    requires k > 0
    ensures (k * c) as real / k as real == c as real
  {
    assert (k * c) as real == k as real * c as real;
  }

  /** The goodness-of-fit test finds nothing exactly when all categories have the
      same count: any difference between two counts gives a positive statistic,
      which the test as written never reports. */
  lemma GoodnessOfFitZeroIff(counts: seq<nat>)
    requires |counts| >= 2 && Total(counts) > 0
    ensures GoodnessOfFit(counts).0 == 0.0 <==> forall i, j :: 0 <= i < |counts| && 0 <= j < |counts| ==> counts[i] == counts[j]
  {
    var o, e := AsReals(counts), UniformExpected(counts);
    var m := Total(counts) as real / |counts| as real;
    assert forall j :: 0 <= j < |e| ==> e[j] == m;
    PearsonZeroIff(o, e);
    if forall i, j :: 0 <= i < |counts| && 0 <= j < |counts| ==> counts[i] == counts[j] {
      var c := counts[0];
      TotalConst(counts, c);
      EvenShare(|counts|, c);
      assert forall j :: 0 <= j < |o| ==> o[j] == e[j];
    }
    if GoodnessOfFit(counts).0 == 0.0 {
      forall i, j | 0 <= i < |counts| && 0 <= j < |counts|
        ensures counts[i] == counts[j]
      {
        assert o[i] == m && o[j] == m;
      }
    }
  }

  /** On the counts {Yes: 9, No: 1} the contingency test reports 0, while the
      goodness-of-fit test reports (9 - 5)^2 / 5 + (1 - 5)^2 / 5 = 6.4. */
  lemma SkewedCountsExample(counts: seq<nat>)
    requires counts == [9, 1]
    ensures ContingencySingleRow(counts).0 == 0.0
    ensures GoodnessOfFit(counts).0 == 6.4
  {
    TotalOfTwo(counts);
    ContingencyAlwaysZero(counts);
    var o, e := AsReals(counts), UniformExpected(counts);
    assert o[0] == 9.0 && o[1] == 1.0;
    assert e[0] == 5.0 && e[1] == 5.0;
    PearsonOfTwo(o, e);
    assert Term(9.0, 5.0) == 3.2 && Term(1.0, 5.0) == 3.2;
  }

  /** The test suite's counts {Yes: 3, No: 3} are even: the goodness-of-fit test
      reports 0 too. */
  lemma EvenCountsExample(counts: seq<nat>)
    requires counts == [3, 3]
    ensures GoodnessOfFit(counts).0 == 0.0
  {
    TotalOfTwo(counts);
    var o, e := AsReals(counts), UniformExpected(counts);
    assert e[0] == 3.0 && e[1] == 3.0;
    assert e == o;
    PearsonOfItself(o);
  }
}
