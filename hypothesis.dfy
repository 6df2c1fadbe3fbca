/**
 * `HypothesisTester` (hypothesis_module.py): column cleaning, the category
 * counts fed to the chi-square test, and the size guards in front of the three
 * tests. The scipy calls behind the guards are not modelled: a test that passes
 * its guard returns the arguments it would hand to scipy.
 */
module Hypothesis {
  import opened Wrappers
  import opened PyValues
  import opened Counting

  /** The ValueErrors the tests raise before calling scipy. */
  datatype TestError =
    | OneSampleTooSmall   // "Not enough data for one-sample t-test."
    | SamplesTooSmall     // "Both samples must have at least 2 numeric entries."
    | TooFewCategories    // "Need at least two categories for chi-square test."

  /** `self.data.get(column_name, [])` */
  function ColumnOrEmpty(data: Data, name: string): seq<Value> {
    if name in data then data[name] else []
  }

  /** What `_clean_column(name)` returns: the floats of the column, in order,
      skipping both kinds of conversion error; a missing column is empty. */
  function Cleaned(data: Data, name: string, parse: FloatParser): seq<real> {
    Lenient(ColumnOrEmpty(data, name), parse)
  }

  /** `_clean_column()`: appends `float(val)` for every value, continuing past
      ValueError and TypeError. */
  method CleanColumn(data: Data, name: string, parse: FloatParser) returns (cleaned: seq<real>)
    ensures cleaned == Cleaned(data, name, parse)
    ensures name !in data ==> cleaned == []
    ensures |cleaned| <= |ColumnOrEmpty(data, name)|
  {
    var column := if name in data then data[name] else [];
    cleaned := [];
    for i := 0 to |column|
      invariant cleaned == Lenient(column[..i], parse)
    {
      var val := column[i];
      assert column[..i + 1] == column[..i] + [val];
      FilterMapSnoc(column[..i], val, FloatOrSkip(parse));
      var c := ToFloat(val, parse);
      if c.Converted? {
        cleaned := cleaned + [c.value];
      }
    }
    assert column[..|column|] == column;
  }

  /** A value on which `float()` raises, of either kind, is skipped: cleaning the
      column gives what cleaning it without that value gives. */
  lemma {:induction false} CleanSkipsErrors(column: seq<Value>, parse: FloatParser, i: nat)
    requires i < |column|
    requires ToFloat(column[i], parse).RaisesValueError? || ToFloat(column[i], parse).RaisesTypeError?
    ensures Lenient(column, parse) == Lenient(column[..i] + column[i + 1..], parse)
  {
    var f := FloatOrSkip(parse);
    FilterMapSplit(column, f, i);
    FilterMapAppend(column[..i], column[i + 1..], f);
  }

  /** A value `float()` converts is kept, in its place among the kept values. */
  lemma {:induction false} CleanKeepsConverted(column: seq<Value>, parse: FloatParser, i: nat)
    requires i < |column| && ToFloat(column[i], parse).Converted?
    ensures Lenient(column, parse)
      == Lenient(column[..i], parse) + [ToFloat(column[i], parse).value] + Lenient(column[i + 1..], parse)
  {
    FilterMapSplit(column, FloatOrSkip(parse), i);
  }

  /** Every cleaned value is `float()` of some value of the column. */
  lemma CleanedFromColumn(data: Data, name: string, parse: FloatParser, j: nat)
    requires j < |Cleaned(data, name, parse)|
    ensures name in data
    ensures exists i :: 0 <= i < |data[name]| && ToFloat(data[name][i], parse) == Converted(Cleaned(data, name, parse)[j])
  {
    var column := ColumnOrEmpty(data, name);
    FilterMapFromElements(column, FloatOrSkip(parse), j);
  }

  /** `one_sample_t_test()`: fewer than two cleaned values (a missing column
      among them) raise ValueError; otherwise the sample and `popmean` go to
      `ttest_1samp`. */
  function OneSampleTTest(data: Data, name: string, parse: FloatParser, popmean: real := 0.0)
    : (r: Result<(seq<real>, real), TestError>)
    ensures r.Failure? <==> |Cleaned(data, name, parse)| < 2
    ensures r.Failure? ==> r.error == OneSampleTooSmall
    ensures name !in data ==> r.Failure?
    ensures r.Success? ==> r.value.0 == Cleaned(data, name, parse) && r.value.1 == popmean
  {
    var sample := Cleaned(data, name, parse);
    if |sample| < 2 then Failure(OneSampleTooSmall) else Success((sample, popmean))
  }

  /** `two_sample_t_test()`: both cleaned samples need two values or more. */
  function TwoSampleTTest(data: Data, col1: string, col2: string, parse: FloatParser)
    : (r: Result<(seq<real>, seq<real>), TestError>)
    ensures r.Failure? <==> |Cleaned(data, col1, parse)| < 2 || |Cleaned(data, col2, parse)| < 2
    ensures r.Failure? ==> r.error == SamplesTooSmall
    ensures col1 !in data || col2 !in data ==> r.Failure?
    ensures r.Success? ==> r.value == (Cleaned(data, col1, parse), Cleaned(data, col2, parse))
  {
    var sample1 := Cleaned(data, col1, parse);
    var sample2 := Cleaned(data, col2, parse);
    if |sample1| < 2 || |sample2| < 2 then Failure(SamplesTooSmall) else Success((sample1, sample2))
  }

  // ---------------------------------------------------------------------------
  // extract_observed_frequencies
  // ---------------------------------------------------------------------------

  /** `str(val).strip()` when it is non-empty: the category a value counts for. */
  function Label(v: Value): (r: Option<string>)
    ensures r.Some? <==> !AllSpace(Text(v))
    ensures r.Some? ==> r.value == Strip(Text(v))
  {
    StripEmptyIff(Text(v));
    var t := Strip(Text(v));
    if t == [] then None else Some(t)
  }

  /** The categories of a column, one per non-blank value, in column order. */
  function Labels(column: seq<Value>): seq<string> {
    FilterMap(column, Label)
  }

  /** The number of values of `column` whose text is not blank. */
  function NonBlankCount(column: seq<Value>): nat {
    if column == [] then 0
    else (if AllSpace(Text(column[0])) then 0 else 1) + NonBlankCount(column[1..])
  }

  /** There is one category per non-blank value. */
  lemma {:induction false} LabelsLength(column: seq<Value>)
    ensures |Labels(column)| == NonBlankCount(column)
  {
    if column != [] {
      LabelsLength(column[1..]);
    }
  }

  /** The dict `extract_observed_frequencies()` returns: each category with its
      number of occurrences, in the order the categories first appear. */
  function ObservedFrequencies(column: seq<Value>): seq<(string, nat)> {
    Tabulate(Distinct(Labels(column)), Labels(column))
  }

  /** `extract_observed_frequencies()`: counts `str(val).strip()` for every value
      whose stripped text is not empty; a missing column gives an empty dict. */
  method ExtractObservedFrequencies(data: Data, name: string) returns (table: seq<(string, nat)>)
    ensures table == ObservedFrequencies(ColumnOrEmpty(data, name))
    ensures name !in data ==> table == []
  {
    var column := if name in data then data[name] else [];
    var freq, order := CountLabels(column);
    ReadInOrder(order, Labels(column), freq);
    table := seq(|order|, j requires 0 <= j < |order| => (order[j], freq[order[j]]));
  }

  /** The counting loop of `extract_observed_frequencies()`: the dict it builds,
      and the order in which the dict receives its keys. */
  method CountLabels(column: seq<Value>) returns (freq: map<string, nat>, order: seq<string>)
    ensures order == Distinct(Labels(column))
    ensures Counts(freq, Labels(column))
  {
    freq, order := map[], [];
    ghost var labels: seq<string> := [];
    for i := 0 to |column|
      invariant labels == Labels(column[..i])
      invariant order == Distinct(labels)
      invariant Counts(freq, labels)
    {
      LabelsSnoc(column, i);
      var lab := Label(column[i]);
      if lab.Some? {
        var val := lab.value;
        CountingLoopStep(freq, order, labels, val);
        if val !in freq {
          order := order + [val];
        }
        freq := freq[val := (if val in freq then freq[val] else 0) + 1];
        labels := labels + [val];
      }
    }
    assert column[..|column|] == column;
  }

  lemma LabelsSnoc(column: seq<Value>, i: nat)
    requires i < |column|
    ensures Labels(column[..i + 1]) == Labels(column[..i]) + (if Label(column[i]).Some? then [Label(column[i]).value] else [])
  {
    assert column[..i + 1] == column[..i] + [column[i]];
    FilterMapSnoc(column[..i], column[i], Label);
  }

  /** Reading the finished dict in key order gives count of each key. */
  lemma ReadInOrder(keys: seq<string>, labels: seq<string>, freq: map<string, nat>)
    requires forall x :: x in keys ==> x in labels
    requires forall x :: x in labels ==> x in freq
    requires forall x :: x in freq ==> freq[x] == Count(labels, x)
    ensures forall j :: 0 <= j < |keys| ==> keys[j] in freq && freq[keys[j]] == Count(labels, keys[j])
  {
    forall j | 0 <= j < |keys|
      ensures keys[j] in freq && freq[keys[j]] == Count(labels, keys[j])
    {
      var k := keys[j];
      assert k in keys;
      assert k in labels;
    }
  }

  /** The observed frequencies tally the categories: each category once, with its
      number of occurrences. */
  lemma ObservedIsTally(column: seq<Value>)
    ensures IsTally(ObservedFrequencies(column), Labels(column))
  {
    TabulateIsTally(Distinct(Labels(column)), Labels(column));
  }

  /** Every key is the stripped text of some value of the column, and is neither
      empty nor padded with white space. */
  lemma ObservedKeys(column: seq<Value>, j: nat)
    requires j < |ObservedFrequencies(column)|
    ensures var k := ObservedFrequencies(column)[j].0;
      k != [] && Trimmed(k) && exists i :: 0 <= i < |column| && Strip(Text(column[i])) == k
  {
    var labels := Labels(column);
    var k := ObservedFrequencies(column)[j].0;
    assert k == Distinct(labels)[j];
    assert k in labels;
    var m :| 0 <= m < |labels| && labels[m] == k;
    FilterMapFromElements(column, Label, m);
  }

  /** Each count is at least one, and the counts add up to the number of
      non-blank values. */
  lemma ObservedSum(column: seq<Value>)
    ensures SumCounts(ObservedFrequencies(column)) == NonBlankCount(column)
    ensures forall j :: 0 <= j < |ObservedFrequencies(column)| ==> ObservedFrequencies(column)[j].1 >= 1
  {
    var t := ObservedFrequencies(column);
    ObservedIsTally(column);
    TallySum(t, Labels(column));
    LabelsLength(column);
    forall j | 0 <= j < |t|
      ensures t[j].1 >= 1
    {
      TallyCountsPositive(t, Labels(column), j);
    }
  }

  /** A blank value is never counted: the table is the one of the column without
      it. */
  lemma ObservedIgnoresBlank(column: seq<Value>, i: nat)
    requires i < |column| && AllSpace(Text(column[i]))
    ensures ObservedFrequencies(column) == ObservedFrequencies(column[..i] + column[i + 1..])
  {
    LabelsIgnoreBlank(column, i);
  }

  lemma LabelsIgnoreBlank(column: seq<Value>, i: nat)
    requires i < |column| && AllSpace(Text(column[i]))
    ensures Labels(column) == Labels(column[..i] + column[i + 1..])
  {
    assert Label(column[i]).None?;
    FilterMapSplit(column, Label, i);
    FilterMapAppend(column[..i], column[i + 1..], Label);
  }

  /** `chi_square_test()`: fewer than two categories raise ValueError; otherwise
      the counts, in dict order, are the single row handed to `chi2_contingency`. */
  function ChiSquareTest(observed: seq<(string, nat)>): (r: Result<seq<nat>, TestError>)
    ensures r.Failure? <==> |observed| < 2
    ensures r.Failure? ==> r.error == TooFewCategories
    ensures r.Success? ==> |r.value| == |observed|
    ensures r.Success? ==> forall j :: 0 <= j < |observed| ==> r.value[j] == observed[j].1
  {
    if |observed| < 2 then Failure(TooFewCategories)
    else Success(seq(|observed|, j requires 0 <= j < |observed| => observed[j].1))
  }

  // The categorical column of the test suite: ['Yes', 'No', 'Yes', 'Yes', 'No', 'No'].

  /** A column of Python strings. */
  function Strs(texts: seq<string>): (column: seq<Value>)
    ensures |column| == |texts|
  {
    seq(|texts|, i requires 0 <= i < |texts| => Str(texts[i]))
  }

  /** Non-blank strings without padding are their own categories. */
  lemma TrimmedLabels(texts: seq<string>)
    requires forall i :: 0 <= i < |texts| ==> texts[i] != [] && Trimmed(texts[i])
    ensures Labels(Strs(texts)) == texts
  {
    var column := Strs(texts);
    forall i | 0 <= i < |column|
      ensures Label(column[i]).Some? && Label(column[i]).value == texts[i]
    {
      StripTrimmed(texts[i]);
    }
    FilterMapKeepsAll(column, Label);
  }

  /** Two categories in the order y, n, y, y, n, n: three of each, y first. */
  lemma TwoCategoryTally<T>(labels: seq<T>, y: T, n: T)
    requires y != n && labels == [y, n, y, y, n, n]
    ensures Tabulate(Distinct(labels), labels) == [(y, 3), (n, 3)]
  {
    TwoCategoryOrder(labels, y, n);
    TwoCategoryCount(labels, y, n, y);
    TwoCategoryCount(labels, y, n, n);
  }

  lemma TwoCategoryOrder<T>(labels: seq<T>, y: T, n: T)
    requires y != n && labels == [y, n, y, y, n, n]
    ensures Distinct(labels) == [y, n]
  {
    var l1 := [y];
    var l2 := l1 + [n];
    var l3 := l2 + [y];
    var l4 := l3 + [y];
    var l5 := l4 + [n];
    assert labels == l5 + [n];
    assert l1 == [] + [y];
    var d := [y, n];
    DistinctSnoc([], y);
    assert Distinct(l1) == [y];
    DistinctSnoc(l1, n);
    assert Distinct(l2) == d;
    DistinctSnoc(l2, y);
    assert Distinct(l3) == d;
    DistinctSnoc(l3, y);
    assert Distinct(l4) == d;
    DistinctSnoc(l4, n);
    assert Distinct(l5) == d;
    DistinctSnoc(l5, n);
  }

  lemma TwoCategoryCount<T>(labels: seq<T>, y: T, n: T, x: T)
    requires y != n && labels == [y, n, y, y, n, n]
    ensures Count(labels, x) == (if x == y then 3 else 0) + (if x == n then 3 else 0)
  {
    var l1 := [y];
    var l2 := l1 + [n];
    var l3 := l2 + [y];
    var l4 := l3 + [y];
    var l5 := l4 + [n];
    assert labels == l5 + [n];
    assert l1 == [] + [y];
    CountSnoc([], y, x);
    CountSnoc(l1, n, x);
    CountSnoc(l2, y, x);
    CountSnoc(l3, y, x);
    CountSnoc(l4, n, x);
    CountSnoc(l5, n, x);
  }

  /** A column of two categories in the order y, n, y, y, n, n counts three of
      each, y first. */
  lemma TwoCategories(y: string, n: string)
    requires y != n
    requires y != [] && Trimmed(y) && n != [] && Trimmed(n)
    ensures ObservedFrequencies(Strs([y, n, y, y, n, n])) == [(y, 3), (n, 3)]
  {
    var texts := [y, n, y, y, n, n];
    TrimmedLabels(texts);
    TwoCategoryTally(texts, y, n);
  }

  /** The test suite's column ['Yes', 'No', 'Yes', 'Yes', 'No', 'No'] gives
      {Yes: 3, No: 3}. */
  lemma ExampleObserved()
    ensures ObservedFrequencies(Strs(["Yes", "No", "Yes", "Yes", "No", "No"])) == [("Yes", 3), ("No", 3)]
  {
    TwoCategories("Yes", "No");
  }
}
