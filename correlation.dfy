/**
 * `CorrelationAnalyzer.__init__` (correlation_module.py): the ordered checks
 * that either raise or leave the analyzer with two cleaned columns of equal
 * length, at least two values each. `pearson_correlation` is a scipy call and
 * is not modelled.
 */
module Correlation {
  import opened Wrappers
  import opened PyValues

  /** The exceptions `__init__` lets out, in the order it can raise them. */
  datatype InitError =
    | ColumnsNotFound     // ValueError: a column name is not in the data
    | TypeErrorRaised     // TypeError from float() on None or another object
    | LengthMismatch      // ValueError: cleaned columns of different lengths
    | NotEnoughData       // ValueError: fewer than two values

  /** A constructed analyzer: its fields `x` and `y`. */
  datatype Analyzer = Analyzer(x: seq<real>, y: seq<real>)

  /** What `_clean_column(column)` does: collect `float(val)`, skip the values on
      which it raises ValueError, and let the first TypeError escape. */
  function Strict(column: seq<Value>, parse: FloatParser): (r: Result<seq<real>, InitError>)
    ensures r.Failure? ==> r.error == TypeErrorRaised
  {
    if column == [] then Success([])
    else
      var prefix := Strict(column[..|column| - 1], parse);
      if prefix.Failure? then prefix
      else
        match ToFloat(column[|column| - 1], parse)
        case Converted(x) => Success(prefix.value + [x])
        case RaisesValueError => prefix
        case RaisesTypeError => Failure(TypeErrorRaised)
  }

  /** Cleaning fails exactly when some value makes `float()` raise TypeError,
      that is, when the column holds None or another non-numeric object. */
  lemma {:induction false} StrictFailsIff(column: seq<Value>, parse: FloatParser)
    ensures Strict(column, parse).Failure?
      <==> exists i :: 0 <= i < |column| && ToFloat(column[i], parse).RaisesTypeError?
  {
    if column != [] {
      var init := column[..|column| - 1];
      StrictFailsIff(init, parse);
      if exists i :: 0 <= i < |init| && ToFloat(init[i], parse).RaisesTypeError? {
        var i :| 0 <= i < |init| && ToFloat(init[i], parse).RaisesTypeError?;
        assert column[i] == init[i];
      }
      if exists i :: 0 <= i < |column| && ToFloat(column[i], parse).RaisesTypeError? {
        var i :| 0 <= i < |column| && ToFloat(column[i], parse).RaisesTypeError?;
        if i < |init| {
          assert init[i] == column[i];
        }
      }
    }
  }

  /** None is not skipped: a column holding None fails with TypeError. */
  lemma NoneRaises(column: seq<Value>, parse: FloatParser, i: nat)
    requires i < |column| && column[i] == NoneValue
    ensures Strict(column, parse) == Failure(TypeErrorRaised)
  {
    StrictFailsIff(column, parse);
  }

  /** When no TypeError occurs, the cleaned column is what the lenient cleaning
      gives: the converted values, in order. */
  lemma {:induction false} StrictIsLenient(column: seq<Value>, parse: FloatParser)
    requires Strict(column, parse).Success?
    ensures Strict(column, parse).value == Lenient(column, parse)
  {
    if column != [] {
      var init := column[..|column| - 1];
      var last := column[|column| - 1];
      StrictIsLenient(init, parse);
      assert column == init + [last];
      FilterMapSnoc(init, last, FloatOrSkip(parse));
    }
  }

  /** `_clean_column()` as written: a loop appending `float(val)` and continuing
      past ValueError only. */
  method CleanColumn(column: seq<Value>, parse: FloatParser) returns (r: Result<seq<real>, InitError>)
    ensures r == Strict(column, parse)
  {
    var cleaned := [];
    for i := 0 to |column|
      invariant Strict(column[..i], parse) == Success(cleaned)
    {
      var val := column[i];
      assert column[..i + 1][..i] == column[..i];
      var c := ToFloat(val, parse);
      if c.RaisesTypeError? {
        StrictFailsAfter(column, parse, i + 1);
        return Failure(TypeErrorRaised);
      }
      if c.Converted? {
        cleaned := cleaned + [c.value];
      }
    }
    assert column[..|column|] == column;
    r := Success(cleaned);
  }

  /** Once a prefix of the column fails, the whole column fails the same way. */
  lemma {:induction false} StrictFailsAfter(column: seq<Value>, parse: FloatParser, k: nat)
    requires k <= |column| && Strict(column[..k], parse).Failure?
    ensures Strict(column, parse) == Strict(column[..k], parse)
    decreases |column| - k
  {
    if k < |column| {
      assert column[..k + 1][..k] == column[..k];
      StrictFailsAfter(column, parse, k + 1);
    } else {
      assert column[..k] == column;
    }
  }

  /** `CorrelationAnalyzer(data, col1, col2)`: both names must be present, and a
      missing one is reported whatever the columns hold; each column is then
      cleaned on its own, the first, then the second; the cleaned lengths must
      agree, and only then must there be two values or more. */
  function Init(data: Data, col1: string, col2: string, parse: FloatParser): (r: Result<Analyzer, InitError>)
    ensures col1 !in data || col2 !in data ==> r == Failure(ColumnsNotFound)
    ensures r.Success? ==> |r.value.x| == |r.value.y| >= 2
    ensures r.Success? ==> r.value.x == Lenient(data[col1], parse) && r.value.y == Lenient(data[col2], parse)
  {
    if col1 !in data || col2 !in data then Failure(ColumnsNotFound)
    else
      var x := Strict(data[col1], parse);
      if x.Failure? then Failure(x.error)
      else
        var y := Strict(data[col2], parse);
        if y.Failure? then Failure(y.error)
        else if |x.value| != |y.value| then Failure(LengthMismatch)
        else if |x.value| < 2 then Failure(NotEnoughData)
        else
          StrictIsLenient(data[col1], parse);
          StrictIsLenient(data[col2], parse);
          Success(Analyzer(x.value, y.value))
  }

  /** `__init__` as a sequence of steps, reading and cleaning each column with the
      method the class uses. */
  method Create(data: Data, col1: string, col2: string, parse: FloatParser) returns (r: Result<Analyzer, InitError>)
    ensures r == Init(data, col1, col2, parse)
  {
    if col1 !in data || col2 !in data {
      return Failure(ColumnsNotFound);
    }
    var x := CleanColumn(data[col1], parse);
    if x.Failure? {
      return Failure(x.error);
    }
    var y := CleanColumn(data[col2], parse);
    if y.Failure? {
      return Failure(y.error);
    }
    if |x.value| != |y.value| {
      return Failure(LengthMismatch);
    }
    if |x.value| < 2 {
      return Failure(NotEnoughData);
    }
    r := Success(Analyzer(x.value, y.value));
  }

  /** The TypeError of either column escapes `__init__`. */
  lemma TypeErrorEscapes(data: Data, col1: string, col2: string, parse: FloatParser)
    requires col1 in data && col2 in data
    requires (exists i :: 0 <= i < |data[col1]| && ToFloat(data[col1][i], parse).RaisesTypeError?)
      || (exists i :: 0 <= i < |data[col2]| && ToFloat(data[col2][i], parse).RaisesTypeError?)
    ensures Init(data, col1, col2, parse) == Failure(TypeErrorRaised)
  {
    StrictFailsIff(data[col1], parse);
    StrictFailsIff(data[col2], parse);
  }

  /** The error classes of `__init__`, each exactly characterised: a length
      mismatch is reported whenever the cleaned columns differ in length, even
      when one of them also has fewer than two values. */
  lemma InitErrors(data: Data, col1: string, col2: string, parse: FloatParser)
    requires col1 in data && col2 in data
    requires Strict(data[col1], parse).Success? && Strict(data[col2], parse).Success?
    ensures var n1, n2 := |Lenient(data[col1], parse)|, |Lenient(data[col2], parse)|;
      && (Init(data, col1, col2, parse) == Failure(LengthMismatch) <==> n1 != n2)
      && (Init(data, col1, col2, parse) == Failure(NotEnoughData) <==> n1 == n2 < 2)
      && (Init(data, col1, col2, parse).Success? <==> n1 == n2 >= 2)
  {
    StrictIsLenient(data[col1], parse);
    StrictIsLenient(data[col2], parse);
  }

  /** The columns are cleaned independently and not row by row: when the second
      column converts entirely and the first has a value that raises
      ValueError, the cleaned lengths differ and construction fails, although
      both columns have the same number of rows. */
  lemma NotRowAligned(data: Data, col1: string, col2: string, parse: FloatParser, i: nat)
    requires col1 in data && col2 in data && |data[col1]| == |data[col2]|
    requires forall j :: 0 <= j < |data[col1]| ==> !ToFloat(data[col1][j], parse).RaisesTypeError?
    requires forall j :: 0 <= j < |data[col2]| ==> ToFloat(data[col2][j], parse).Converted?
    requires i < |data[col1]| && ToFloat(data[col1][i], parse).RaisesValueError?
    ensures Init(data, col1, col2, parse) == Failure(LengthMismatch)
  {
    var f := FloatOrSkip(parse);
    StrictFailsIff(data[col1], parse);
    StrictFailsIff(data[col2], parse);
    FilterMapDrops(data[col1], f, i);
    FilterMapKeepsAll(data[col2], f);
    InitErrors(data, col1, col2, parse);
  }
}
