/**
 * `StatisticsCalculator` (cli_stat_calculator/stats_module.py). An instance holds
 * the list `data` that its constructor filters out of the values it is given and
 * never changes it afterwards, so the model represents an instance by that list.
 * Mean, median, variance and mode are the library's definitions over reals.
 */
module Stats {
  import opened Wrappers
  import opened PyValues
  import opened Counting
  import opened Sorting

  datatype StatsError =
    | NoValidData       // ValueError("No valid numerical data provided.")
    | StatisticsError   // statistics.StatisticsError, raised by statistics.variance

  // ---------------------------------------------------------------------------
  // The constructor's filter
  // ---------------------------------------------------------------------------

  /** The index of the first `c` in `s`, or `|s|` when there is none. */
  function IndexOf(s: string, c: char): (k: nat)
    ensures k <= |s|
    ensures forall i :: 0 <= i < k ==> s[i] != c
    ensures k < |s| ==> s[k] == c
  {
    if s == [] then 0 else if s[0] == c then 0 else 1 + IndexOf(s[1..], c)
  }

  /** `s.replace(c, '', 1)`: `s` without its first `c`. */
  function RemoveFirst(s: string, c: char): string {
    var k := IndexOf(s, c);
    if k == |s| then s else s[..k] + s[k + 1..]
  }

  /** `str.isdigit()` on ASCII: non-empty and made of digits only. */
  predicate IsDigitString(s: string) {
    |s| > 0 && forall i :: 0 <= i < |s| ==> IsDigit(s[i])
  }

  /** The text test of the constructor: `str(x).strip().replace('.', '', 1).isdigit()`. */
  predicate IsNumericText(s: string) {
    IsDigitString(RemoveFirst(Strip(s), '.'))
  }

  /** A plain decimal numeral: digits and at most one point, with a digit somewhere. */
  predicate IsDecimalNumeral(t: string) {
    && (forall i :: 0 <= i < |t| ==> IsDigit(t[i]) || t[i] == '.')
    && (forall i, j :: 0 <= i < j < |t| ==> !(t[i] == '.' && t[j] == '.'))
    && (exists i :: 0 <= i < |t| && IsDigit(t[i]))
  }

  /** The constructor keeps a value when it is an int (bools included), a float
      or a str, and its text passes the test. */
  predicate Admissible(v: Value) {
    (v.Str? || v.Int? || v.Bool? || v.Float?) && IsNumericText(Text(v))
  }

  /** Removing the first point from a text with one shifts what follows it. */
  lemma RemoveFirstShape(t: string)
    requires IndexOf(t, '.') < |t|
    ensures var k, u := IndexOf(t, '.'), RemoveFirst(t, '.');
      && |u| == |t| - 1
      && (forall i :: 0 <= i < k ==> u[i] == t[i])
      && (forall i :: k < i < |t| ==> u[i - 1] == t[i])
  {
  }

  /** With a point present, `isdigit()` after removing it holds exactly for a
      plain decimal numeral. */
  lemma PointCase(t: string)
    requires IndexOf(t, '.') < |t|
    ensures IsDigitString(RemoveFirst(t, '.')) <==> IsDecimalNumeral(t)
  {
    var k, u := IndexOf(t, '.'), RemoveFirst(t, '.');
    RemoveFirstShape(t);
    if IsDigitString(u) {
      assert forall i :: 0 <= i < |t| && i != k ==> IsDigit(t[i]) by {
        forall i | 0 <= i < |t| && i != k
          ensures IsDigit(t[i])
        {
          if i < k {
            assert u[i] == t[i];
          } else {
            assert u[i - 1] == t[i];
          }
        }
      }
      if k > 0 {
        assert IsDigit(t[0]);
      } else {
        assert IsDigit(t[1]);
      }
    }
    if IsDecimalNumeral(t) {
      assert forall i :: 0 <= i < |t| && i != k ==> IsDigit(t[i]);
      var d :| 0 <= d < |t| && IsDigit(t[d]);
      assert |u| > 0;
      forall i | 0 <= i < |u|
        ensures IsDigit(u[i])
      {
        if i < k {
          assert u[i] == t[i];
        } else {
          assert u[i] == t[i + 1];
        }
      }
    }
  }

  /** Without a point, the numeral test is `isdigit()` itself. */
  lemma NoPointCase(t: string)
    requires IndexOf(t, '.') == |t|
    ensures IsDigitString(RemoveFirst(t, '.')) <==> IsDecimalNumeral(t)
  {
    if IsDecimalNumeral(t) {
      var d :| 0 <= d < |t| && IsDigit(t[d]);
    }
    if IsDigitString(t) {
      assert IsDigit(t[0]);
    }
  }

  /** The text test accepts exactly the strings whose stripped form is a plain
      decimal numeral: no sign, no exponent, not blank, not a lone point. */
  lemma NumericTextIff(s: string)
    ensures IsNumericText(s) <==> IsDecimalNumeral(Strip(s))
  {
    var t := Strip(s);
    if IndexOf(t, '.') < |t| {
      PointCase(t);
    } else {
      NoPointCase(t);
    }
  }

  function Pow10(n: nat): (p: nat)
    ensures p > 0
  {
    if n == 0 then 1 else 10 * Pow10(n - 1)
  }

  /** The number a plain decimal numeral denotes: what `float()` returns for it,
      before rounding to a double. */
  function DecimalValue(t: string): real
    requires IsDecimalNumeral(t)
  {
    var k := IndexOf(t, '.');
    if k == |t| then
      DigitsValue(t) as real
    else
      assert forall i :: k < i < |t| ==> t[i] != '.';
      DigitsValue(t[..k]) as real + DigitsValue(t[k + 1..]) as real / Pow10(|t| - k - 1) as real
  }

  /** `float(x)` for a value the constructor keeps. */
  function Coerce(v: Value): real
    requires Admissible(v)
  {
    match v
    case Str(s) => NumericTextIff(s); DecimalValue(Strip(s))
    case Int(n) => n as real
    case Bool(b) => if b then 1.0 else 0.0
    case Float(x, _) => x
  }

  /** What the comprehension of the constructor makes of one value: `float(x)`
      when the value passes the test, nothing otherwise. */
  function Keep(v: Value): (r: Option<real>)
    ensures r.Some? <==> Admissible(v)
  {
    if Admissible(v) then Some(Coerce(v)) else None
  }

  /** The comprehension of the constructor: the kept values, converted, in order. */
  function NumericData(data: seq<Value>): (r: seq<real>)
    ensures |r| <= |data|
  {
    FilterMap(data, Keep)
  }

  /** `StatisticsCalculator(data)`: fails when no value survives the filter and
      otherwise holds the filtered list, which is then non-empty. */
  function NewStatisticsCalculator(data: seq<Value>): (r: Result<seq<real>, StatsError>)
    ensures r.Failure? <==> forall i :: 0 <= i < |data| ==> !Admissible(data[i])
    ensures r.Failure? ==> r.error == NoValidData
    ensures r.Success? ==> r.value == NumericData(data) && |r.value| > 0
  {
    var kept := NumericData(data);
    FilterMapEmptyIff(data, Keep);
    if kept == [] then Failure(NoValidData) else Success(kept)
  }

  /** `str()` of an int is made of digits, after a minus sign for a negative one. */
  lemma IntTextChars(n: int)
    ensures var t := IntText(n);
      && |t| > 0 && Trimmed(t) && (n < 0 <==> t[0] == '-')
      && forall i :: 0 <= i < |t| ==> IsDigit(t[i]) || t[i] == '-'
  {
    if n < 0 {
      var t := IntText(n);
      assert forall i :: 1 <= i < |t| ==> t[i] == NatText(-n)[i - 1];
    }
  }

  /** An int passes the text test exactly when it is not negative. */
  lemma IntAdmissible(n: int)
    ensures Admissible(Int(n)) <==> n >= 0
  {
    var t := IntText(n);
    IntTextChars(n);
    assert '.' !in t;
    PointFreeText(t);
    assert Admissible(Int(n)) == IsDigitString(t);
    if n < 0 {
      assert !IsDigit(t[0]);
    }
  }

  /** For a text without white space at the ends and without a point, the test
      is `isdigit()` itself. */
  lemma PointFreeText(t: string)
    requires Trimmed(t) && '.' !in t
    ensures IsNumericText(t) == IsDigitString(t)
  {
    StripTrimmed(t);
    assert IndexOf(t, '.') == |t|;
  }

  /** A text whose stripped form holds anything but digits and points (a sign,
      an exponent, a letter, inner white space) is dropped. */
  lemma RejectsOtherCharacter(s: string, i: nat)
    requires i < |Strip(s)| && !IsDigit(Strip(s)[i]) && Strip(s)[i] != '.'
    ensures !IsNumericText(s)
  {
    NumericTextIff(s);
  }

  /** A text whose stripped form has two points is dropped. */
  lemma RejectsTwoPoints(s: string, i: nat, j: nat)
    requires i < j < |Strip(s)| && Strip(s)[i] == '.' && Strip(s)[j] == '.'
    ensures !IsNumericText(s)
  {
    NumericTextIff(s);
  }

  /** A text without a digit (empty, blank, a lone point) is dropped. */
  lemma RejectsNoDigit(s: string)
    requires forall i :: 0 <= i < |s| ==> !IsDigit(s[i])
    ensures !IsNumericText(s)
  {
    var t := Strip(s);
    NumericTextIff(s);
    forall i | 0 <= i < |t|
      ensures !IsDigit(t[i])
    {
      StripIsInfix(s, i);
    }
  }

  /** Every character of `strip(s)` is a character of `s`. */
  lemma StripIsInfix(s: string, i: nat)
    requires i < |Strip(s)|
    ensures Strip(s)[i] in s
  {
    var l := TrimLeft(s);
    var r := TrimRight(l);
    assert r == l[..|r|];
    var k := |s| - |l| + i;
    assert l[i] == s[k];
    assert r[i] == s[k];
  }

  /** Digits, a point, digits: a plain decimal numeral whose point is at `|a|`. */
  lemma PointedNumeral(a: string, b: string)
    requires forall i :: 0 <= i < |a| ==> IsDigit(a[i])
    requires forall i :: 0 <= i < |b| ==> IsDigit(b[i])
    requires |a| + |b| > 0
    ensures var t := a + "." + b;
      && IsDecimalNumeral(t) && Trimmed(t)
      && IndexOf(t, '.') == |a| && t[..|a|] == a && t[|a| + 1..] == b
  {
    var t := a + "." + b;
    assert t[|a|] == '.';
    assert forall i :: 0 <= i < |a| ==> t[i] == a[i];
    assert forall i :: |a| < i < |t| ==> t[i] == b[i - |a| - 1];
    assert t[..|a|] == a && t[|a| + 1..] == b;
    if |a| > 0 {
      assert IsDigit(t[0]);
    } else {
      assert IsDigit(t[|a| + 1]);
    }
    if |b| > 0 {
      assert IsDigit(t[|t| - 1]);
    }
  }

  /** Padded digits around one point are kept, as the digits before the point
      plus the digits after it in tenths, hundredths, .... */
  lemma AcceptsDecimal(pre: string, a: string, b: string, suf: string)
    requires AllSpace(pre) && AllSpace(suf)
    requires forall i :: 0 <= i < |a| ==> IsDigit(a[i])
    requires forall i :: 0 <= i < |b| ==> IsDigit(b[i])
    requires |a| + |b| > 0
    ensures var s := pre + (a + "." + b) + suf;
      && IsNumericText(s)
      && Coerce(Str(s)) == DigitsValue(a) as real + DigitsValue(b) as real / Pow10(|b|) as real
  {
    PointedValue(a, b);
    AcceptsNumeral(pre, a + "." + b, suf);
  }

  /** A decimal numeral padded with white space is kept, with its value. */
  lemma AcceptsNumeral(pre: string, t: string, suf: string)
    requires AllSpace(pre) && AllSpace(suf)
    requires IsDecimalNumeral(t) && Trimmed(t)
    ensures IsNumericText(pre + t + suf) && Coerce(Str(pre + t + suf)) == DecimalValue(t)
  {
    StripOfPadded(pre, t, suf);
    NumericTextIff(pre + t + suf);
  }

  /** The value of digits, a point and digits. */
  lemma PointedValue(a: string, b: string)
    requires forall i :: 0 <= i < |a| ==> IsDigit(a[i])
    requires forall i :: 0 <= i < |b| ==> IsDigit(b[i])
    requires |a| + |b| > 0
    ensures IsDecimalNumeral(a + "." + b) && Trimmed(a + "." + b)
    ensures DecimalValue(a + "." + b) == DigitsValue(a) as real + DigitsValue(b) as real / Pow10(|b|) as real
  {
    var t := a + "." + b;
    PointedNumeral(a, b);
    assert |t| - |a| - 1 == |b|;
  }

  /** The filter works value by value and keeps the order: around any value, the
      list holds what is kept before it, then the value itself when it passes,
      then what is kept after it. */
  lemma KeptInPlace(data: seq<Value>, i: nat)
    requires i < |data|
    ensures NumericData(data)
      == NumericData(data[..i]) + (if Admissible(data[i]) then [Coerce(data[i])] else []) + NumericData(data[i + 1..])
  {
    FilterMapSplit(data, Keep, i);
  }

  /** Every value of the list is `float()` of a value that passes the test. */
  lemma KeptFromData(data: seq<Value>, j: nat)
    requires j < |NumericData(data)|
    ensures exists i :: 0 <= i < |data| && Admissible(data[i]) && Coerce(data[i]) == NumericData(data)[j]
  {
    FilterMapFromElements(data, Keep, j);
  }

  /** Bools are ints to `isinstance`, but "True" and "False" hold no digit. */
  lemma BoolRejected(b: bool)
    ensures !Admissible(Bool(b))
  {
    RejectsNoDigit(Text(Bool(b)));
  }

  /** "-5" is dropped, as is the int -5. */
  lemma MinusFiveRejected()
    ensures !IsNumericText("-5") && !Admissible(Str("-5")) && !Admissible(Int(-5))
  {
    StripTrimmed("-5");
    RejectsOtherCharacter("-5", 0);
    IntAdmissible(-5);
  }

  /** The filter drops negative numbers altogether: a list holding only -5, as an
      int or as a string, is refused as holding no numerical data. */
  lemma NegativeOnlyRefused(data: seq<Value>)
    requires data == [Int(-5)] || data == [Str("-5")]
    ensures NewStatisticsCalculator(data) == Failure(NoValidData)
  {
    MinusFiveRejected();
    assert !Admissible(data[0]);
  }

  /** A text that starts with a minus sign is dropped, whatever follows. */
  lemma LeadingMinusRejected(s: string)
    requires |s| > 0 && s[0] == '-'
    ensures !IsNumericText(s)
  {
    assert TrimLeft(s) == s;
    assert Strip(s)[0] == '-';
    RejectsOtherCharacter(s, 0);
  }

  /** A float whose `str()` starts with a minus sign, as that of every negative
      float does, is dropped: the rows the command line reads from a CSV file
      into floats lose their negative values here. */
  lemma NegativeFloatDropped(x: real, repr: string)
    requires |repr| > 0 && repr[0] == '-'
    ensures !Admissible(Float(x, repr))
  {
    LeadingMinusRejected(repr);
  }

  /** The constructor as its docstring describes it ("a list of numerical
      data"): every value of the admitted types that `float()` converts is
      kept. Ints, bools and floats convert, so negative numbers and
      exponent forms are kept; strings are kept when the parser accepts them. */
  function CorrectedStatisticsCalculator(data: seq<Value>, parse: FloatParser)
    : (r: Result<seq<real>, StatsError>)
    ensures r.Failure? <==> forall i :: 0 <= i < |data| ==> !ToFloat(data[i], parse).Converted?
    ensures r.Failure? ==> r.error == NoValidData
    ensures r.Success? ==> r.value == Lenient(data, parse) && |r.value| > 0
  {
    var kept := Lenient(data, parse);
    FilterMapEmptyIff(data, FloatOrSkip(parse));
    if kept == [] then Failure(NoValidData) else Success(kept)
  }

  /** Every int, bool and float is kept, with its value and in order, whatever
      its sign or its printed form. */
  lemma CorrectedKeepsNumbers(data: seq<Value>, parse: FloatParser)
    requires |data| > 0
    requires forall i :: 0 <= i < |data| ==> data[i].Int? || data[i].Bool? || data[i].Float?
    ensures CorrectedStatisticsCalculator(data, parse)
      == Success(seq(|data|, i requires 0 <= i < |data| => ToFloat(data[i], parse).value))
  {
    var f := FloatOrSkip(parse);
    assert forall i :: 0 <= i < |data| ==> f(data[i]).Some? && f(data[i]).value == ToFloat(data[i], parse).value;
    FilterMapKeepsAll(data, f);
    assert Lenient(data, parse) == seq(|data|, i requires 0 <= i < |data| => ToFloat(data[i], parse).value);
  }

  /** The corrected constructor keeps the -5 the one as written refuses. */
  lemma NegativeKept(data: seq<Value>, parse: FloatParser)
    requires data == [Int(-5)]
    ensures CorrectedStatisticsCalculator(data, parse) == Success([-5.0])
  {
    CorrectedKeepsNumbers(data, parse);
    assert seq(|data|, i requires 0 <= i < |data| => ToFloat(data[i], parse).value) == [-5.0];
  }

  /** A parser that reads every plain decimal numeral, surrounded by white
      space or not, as the number it denotes, as `float()` does. */
  ghost predicate ParsesDecimals(parse: FloatParser) {
    forall s :: IsDecimalNumeral(Strip(s)) ==> parse(s) == Some(DecimalValue(Strip(s)))
  }

  /** On a value the constructor keeps, `float()` of the corrected constructor
      and the conversion of the one as written agree. */
  lemma ConversionAgrees(v: Value, parse: FloatParser)
    requires ParsesDecimals(parse) && Admissible(v)
    ensures ToFloat(v, parse) == Converted(Coerce(v))
  {
    if v.Str? {
      NumericTextIff(v.s);
    }
  }

  /** On data that all passes the text test, the corrected constructor and the
      one as written build the same list. */
  lemma CorrectedAgreesOnAdmissible(data: seq<Value>, parse: FloatParser)
    requires ParsesDecimals(parse)
    requires forall i :: 0 <= i < |data| ==> Admissible(data[i])
    ensures CorrectedStatisticsCalculator(data, parse) == NewStatisticsCalculator(data)
  {
    var f := FloatOrSkip(parse);
    forall i | 0 <= i < |data|
      ensures f(data[i]) == Keep(data[i])
    {
      ConversionAgrees(data[i], parse);
    }
    FilterMapAgree(data, f, Keep);
  }

  /** Every value the constructor as written keeps, the corrected one keeps
      too, with the same value and in the same place among the values it keeps. */
  lemma CorrectedKeepsKept(data: seq<Value>, parse: FloatParser, i: nat)
    requires ParsesDecimals(parse)
    requires i < |data| && Admissible(data[i])
    ensures Lenient(data, parse) == Lenient(data[..i], parse) + [Coerce(data[i])] + Lenient(data[i + 1..], parse)
  {
    ConversionAgrees(data[i], parse);
    FilterMapSplit(data, FloatOrSkip(parse), i);
  }

  /** The corrected constructor succeeds whenever the one as written does: a
      value that passes the text test is one `float()` converts. */
  lemma CorrectedSucceedsWhenKept(data: seq<Value>, parse: FloatParser)
    requires ParsesDecimals(parse)
    requires NewStatisticsCalculator(data).Success?
    ensures CorrectedStatisticsCalculator(data, parse).Success?
  {
    var i :| 0 <= i < |data| && Admissible(data[i]);
    ConversionAgrees(data[i], parse);
  }

  // ---------------------------------------------------------------------------
  // frequency_distribution and text_histogram
  // ---------------------------------------------------------------------------

  /** The table `frequency_distribution` returns: every distinct value, in
      ascending order, with its number of occurrences. */
  function Frequencies(data: seq<real>): seq<(real, nat)> {
    Tabulate(Sort(Distinct(data)), data)
  }

  /** The frequency table tallies the data, its keys strictly ascending. */
  lemma FrequenciesIsTally(data: seq<real>)
    ensures IsTally(Frequencies(data), data)
    ensures IsStrictlyAscending(Keys(Frequencies(data)))
  {
    var keys := Sort(Distinct(data));
    SortDistinct(Distinct(data));
    assert forall x :: x in keys <==> x in multiset(Distinct(data));
    TabulateIsTally(keys, data);
  }

  /** The counts of the frequency table are at least one and add up to the
      number of data values. */
  lemma FrequenciesSum(data: seq<real>)
    ensures SumCounts(Frequencies(data)) == |data|
    ensures forall i :: 0 <= i < |Frequencies(data)| ==> Frequencies(data)[i].1 >= 1
  {
    FrequenciesIsTally(data);
    TallySum(Frequencies(data), data);
    forall i | 0 <= i < |Frequencies(data)|
      ensures Frequencies(data)[i].1 >= 1
    {
      TallyCountsPositive(Frequencies(data), data, i);
    }
  }

  /** `frequency_distribution()`: counts each value in a dict, then sorts the
      dict's items. Dict keys are unique, so sorting the items is sorting them by
      key, and the counts never take part in the comparison. */
  method FrequencyDistribution(data: seq<real>) returns (table: seq<(real, nat)>)
    ensures table == Frequencies(data)
    ensures IsTally(table, data)
    ensures IsStrictlyAscending(Keys(table))
  {
    var freq, order := CountValues(data);
    var keys := Sort(order);
    SortMembers(order);
    KeysCounted(keys, data, freq);
    table := seq(|keys|, j requires 0 <= j < |keys| => (keys[j], freq[keys[j]]));
    assert table == Frequencies(data);
    FrequenciesIsTally(data);
  }

  lemma KeysCounted(keys: seq<real>, data: seq<real>, freq: map<real, nat>)
    requires forall x :: x in keys ==> x in data
    requires forall x :: x in data ==> x in freq
    requires forall x :: x in freq ==> freq[x] == Count(data, x)
    ensures forall j :: 0 <= j < |keys| ==> keys[j] in freq && freq[keys[j]] == Count(data, keys[j])
  {
    forall j | 0 <= j < |keys|
      ensures keys[j] in freq && freq[keys[j]] == Count(data, keys[j])
    {
      var k := keys[j];
      assert k in keys;
      assert k in data;
    }
  }

  /** The counting loop of `frequency_distribution()`: the dict it builds, and the
      order in which the dict receives its keys. */
  method CountValues(data: seq<real>) returns (freq: map<real, nat>, order: seq<real>)
    ensures order == Distinct(data)
    ensures Counts(freq, data)
  {
    freq, order := map[], [];
    ghost var seen: seq<real> := [];
    for i := 0 to |data|
      invariant seen == data[..i]
      invariant order == Distinct(seen)
      invariant Counts(freq, seen)
    {
      var num := data[i];
      CountingLoopStep(freq, order, seen, num);
      if num !in freq {
        order := order + [num];
      }
      freq := freq[num := (if num in freq then freq[num] else 0) + 1];
      seen := seen + [num];
      assert seen == data[..i + 1];
    }
    assert seen == data;
  }

  /** The bar character of the histogram, U+2588. */
  const Block: char := '\U{2588}'

  /** `'█' * count` */
  function Bar(count: nat): (b: string)
    ensures |b| == count && forall i :: 0 <= i < count ==> b[i] == Block
  {
    seq(count, _ => Block)
  }

  /** `format(s, '>width')`: `s` right-aligned with spaces in a field of `width`. */
  function PadLeft(s: string, width: nat): (r: string)
    ensures |r| == if |s| < width then width else |s|
    ensures r[|r| - |s|..] == s
    ensures forall i :: 0 <= i < |r| - |s| ==> r[i] == ' '
  {
    if |s| < width then seq(width - |s|, _ => ' ') + s else s
  }

  /** One line of the histogram, without its newline. */
  function LineBody(text: string, count: nat): string {
    PadLeft(text, 6) + ": " + Bar(count)
  }

  /** The histogram text of a table: one newline-terminated line per entry.
      `show` is `str()` of a float, which the model does not spell out. */
  function Histogram(table: seq<(real, nat)>, show: real -> string): string {
    if table == [] then ""
    else LineBody(show(table[0].0), table[0].1) + "\n" + Histogram(table[1..], show)
  }

  lemma {:induction false} HistogramSnoc(table: seq<(real, nat)>, e: (real, nat), show: real -> string)
    ensures Histogram(table + [e], show) == Histogram(table, show) + LineBody(show(e.0), e.1) + "\n"
  {
    if table == [] {
      assert [] + [e] == [e];
      assert [e][1..] == [];
    } else {
      assert (table + [e])[1..] == table[1..] + [e];
      HistogramSnoc(table[1..], e, show);
    }
  }

  /** `text_histogram()`: one line per entry of the frequency table, in its order. */
  method TextHistogram(data: seq<real>, show: real -> string) returns (histogram: string)
    ensures histogram == Histogram(Frequencies(data), show)
  {
    var freq := FrequencyDistribution(data);
    histogram := RenderLines(freq, show);
  }

  /** The loop of `text_histogram()` that appends one line per table entry. */
  method RenderLines(freq: seq<(real, nat)>, show: real -> string) returns (histogram: string)
    ensures histogram == Histogram(freq, show)
  {
    histogram := "";
    for i := 0 to |freq|
      invariant histogram == Histogram(freq[..i], show)
    {
      assert freq[..i + 1] == freq[..i] + [freq[i]];
      HistogramSnoc(freq[..i], freq[i], show);
      histogram := histogram + LineBody(show(freq[i].0), freq[i].1) + "\n";
    }
    assert freq[..|freq|] == freq;
  }

  /** The text split at its newlines, each line without its newline; a final
      newline does not open an empty line. */
  function SplitLines(s: string): seq<string>
    decreases |s|
  {
    if s == [] then []
    else
      var k := IndexOf(s, '\n');
      if k == |s| then [s] else [s[..k]] + SplitLines(s[k + 1..])
  }

  lemma SplitLinesCons(line: string, rest: string)
    requires '\n' !in line
    ensures SplitLines(line + "\n" + rest) == [line] + SplitLines(rest)
  {
    var s := line + "\n" + rest;
    assert s[|line|] == '\n';
    assert forall i :: 0 <= i < |line| ==> s[i] == line[i];
    assert IndexOf(s, '\n') == |line|;
    assert s[..|line|] == line && s[|line| + 1..] == rest;
  }

  /** A line of the histogram contains no newline when its value text has none. */
  lemma LineBodyHasNoNewline(text: string, count: nat)
    requires '\n' !in text
    ensures '\n' !in LineBody(text, count)
  {
    var p := PadLeft(text, 6);
    assert forall i :: 0 <= i < |p| ==> p[i] == ' ' || p[i] in text by {
      forall i | 0 <= i < |p|
        ensures p[i] == ' ' || p[i] in text
      {
        if i >= |p| - |text| {
          assert p[i] == p[|p| - |text|..][i - (|p| - |text|)];
        }
      }
    }
  }

  /** The histogram has exactly one line per table entry, in table order, and
      each line ends in a bar of exactly as many blocks as the entry's count. */
  lemma {:induction false} HistogramLines(table: seq<(real, nat)>, show: real -> string)
    requires forall i :: 0 <= i < |table| ==> '\n' !in show(table[i].0)
    ensures |SplitLines(Histogram(table, show))| == |table|
    ensures forall i :: 0 <= i < |table| ==>
      SplitLines(Histogram(table, show))[i] == PadLeft(show(table[i].0), 6) + ": " + Bar(table[i].1)
  {
    if table != [] {
      var body := LineBody(show(table[0].0), table[0].1);
      LineBodyHasNoNewline(show(table[0].0), table[0].1);
      SplitLinesCons(body, Histogram(table[1..], show));
      HistogramLines(table[1..], show);
    }
  }

  /** What `text_histogram()` prints: one line per distinct value, the values in
      ascending order, each line the right-aligned value, a colon and a bar of as
      many blocks as the value occurs in the data. */
  lemma TextHistogramShape(data: seq<real>, show: real -> string)
    requires forall x :: x in data ==> '\n' !in show(x)
    ensures var lines := SplitLines(Histogram(Frequencies(data), show));
      var keys := Keys(Frequencies(data));
      && |lines| == |keys| == |Distinct(data)|
      && IsStrictlyAscending(keys)
      && (forall x :: x in keys <==> x in data)
      && (forall i :: 0 <= i < |lines| ==>
            lines[i] == PadLeft(show(keys[i]), 6) + ": " + Bar(Count(data, keys[i])))
  {
    var table := Frequencies(data);
    var keys := Keys(table);
    FrequenciesIsTally(data);
    assert keys == Sort(Distinct(data));
    assert |keys| == |multiset(keys)| == |multiset(Distinct(data))| == |Distinct(data)|;
    forall i | 0 <= i < |table|
      ensures table[i].0 == keys[i] && keys[i] in data
    {
      assert keys[i] in keys;
    }
    HistogramLines(table, show);
  }

  // ---------------------------------------------------------------------------
  // mean, median, variance, mode over reals
  // ---------------------------------------------------------------------------

  function Sum(s: seq<real>): real {
    if s == [] then 0.0 else s[0] + Sum(s[1..])
  }

  function Min(s: seq<real>): (m: real)
    requires |s| > 0
    ensures m in s && forall i :: 0 <= i < |s| ==> m <= s[i]
  {
    if |s| == 1 then s[0]
    else
      var m := Min(s[1..]);
      assert forall i :: 1 <= i < |s| ==> s[i] == s[1..][i - 1];
      if s[0] <= m then s[0] else m
  }

  function Max(s: seq<real>): (m: real)
    requires |s| > 0
    ensures m in s && forall i :: 0 <= i < |s| ==> s[i] <= m
  {
    if |s| == 1 then s[0]
    else
      var m := Max(s[1..]);
      assert forall i :: 1 <= i < |s| ==> s[i] == s[1..][i - 1];
      if s[0] >= m then s[0] else m
  }

  /** `statistics.mean` */
  function Mean(data: seq<real>): real
    requires |data| > 0
  {
    Sum(data) / |data| as real
  }

  /** The length of `s`, counted in reals. */
  function RealLength(s: seq<real>): (n: real)
    ensures n == |s| as real
  {
    if s == [] then 0.0 else 1.0 + RealLength(s[1..])
  }

  lemma {:induction false} SumBounds(s: seq<real>, lo: real, hi: real)
    requires forall i :: 0 <= i < |s| ==> lo <= s[i] <= hi
    ensures RealLength(s) * lo <= Sum(s) <= RealLength(s) * hi
  {
    if s != [] {
      var t := s[1..];
      assert forall i :: 0 <= i < |t| ==> t[i] == s[i + 1];
      SumBounds(t, lo, hi);
      var m := RealLength(t);
      assert RealLength(s) * lo == lo + m * lo;
      assert RealLength(s) * hi == hi + m * hi;
    }
  }

  lemma QuotientBounds(x: real, n: real, lo: real, hi: real)
    requires n > 0.0 && n * lo <= x <= n * hi
    ensures lo <= x / n <= hi
  {
    assert x / n - lo == (x - n * lo) / n;
    assert hi - x / n == (n * hi - x) / n;
  }

  /** The mean lies between the least and the greatest value. */
  lemma MeanBetweenMinAndMax(data: seq<real>)
    requires |data| > 0
    ensures Min(data) <= Mean(data) <= Max(data)
  {
    MeanBounds(data, Min(data), Max(data));
  }

  /** The mean of values within bounds is within the same bounds. */
  lemma MeanBounds(data: seq<real>, lo: real, hi: real)
    requires |data| > 0
    requires forall i :: 0 <= i < |data| ==> lo <= data[i] <= hi
    ensures lo <= Mean(data) <= hi
  {
    var n := RealLength(data);
    SumBounds(data, lo, hi);
    QuotientBounds(Sum(data), n, lo, hi);
    MeanIsQuotient(data, Sum(data) / n);
  }

  lemma MeanIsQuotient(data: seq<real>, q: real)
    requires |data| > 0 && q == Sum(data) / RealLength(data)
    ensures Mean(data) == q
  {
  }

  /** `statistics.median`: the middle of the sorted data, or the average of the
      two middle values when there is an even number of them. */
  function Median(data: seq<real>): real
    requires |data| > 0
  {
    var s := Sort(data);
    var n := |s|;
    assert |multiset(s)| == |multiset(data)|;
    if n % 2 == 1 then s[n / 2] else (s[n / 2 - 1] + s[n / 2]) / 2.0
  }

  /** For data already in order the median is its middle element, or the average
      of its two middle elements. */
  lemma MedianOfAscending(data: seq<real>)
    requires |data| > 0 && IsAscending(data)
    ensures var n := |data|;
      Median(data) == if n % 2 == 1 then data[n / 2] else (data[n / 2 - 1] + data[n / 2]) / 2.0
  {
    SortAscending(data);
  }

  /** The median depends only on the values, not on their order. */
  lemma MedianOrderFree(data: seq<real>, other: seq<real>)
    requires |data| > 0 && multiset(other) == multiset(data)
    ensures |other| > 0 && Median(other) == Median(data)
  {
    assert |multiset(other)| == |multiset(data)|;
    SortPermutation(data, other);
  }

  /** Bounds on the elements carry over to any rearrangement of them. */
  lemma PermutationBounds(data: seq<real>, s: seq<real>, lo: real, hi: real)
    requires multiset(s) == multiset(data)
    requires forall i :: 0 <= i < |data| ==> lo <= data[i] <= hi
    ensures forall i :: 0 <= i < |s| ==> lo <= s[i] <= hi
  {
    forall i | 0 <= i < |s|
      ensures lo <= s[i] <= hi
    {
      assert s[i] in multiset(data);
    }
  }

  /** Any bounds on the values also bound their median. */
  lemma MedianBounds(data: seq<real>, lo: real, hi: real)
    requires |data| > 0
    requires forall i :: 0 <= i < |data| ==> lo <= data[i] <= hi
    ensures lo <= Median(data) <= hi
  {
    var s := Sort(data);
    assert |multiset(s)| == |multiset(data)|;
    PermutationBounds(data, s, lo, hi);
  }

  /** The median lies between the least and the greatest value. */
  lemma MedianBetweenMinAndMax(data: seq<real>)
    requires |data| > 0
    ensures Min(data) <= Median(data) <= Max(data)
  {
    MedianBounds(data, Min(data), Max(data));
  }

  lemma SquareNonNegative(x: real)
    ensures x * x >= 0.0
  {
    if x < 0.0 {
      assert x * x == (-x) * (-x);
    }
  }

  /** The sum of squared deviations from `c`. */
  function SquaredDeviations(s: seq<real>, c: real): (d: real)
    ensures d >= 0.0
  {
    if s == [] then 0.0
    else
      SquareNonNegative(s[0] - c);
      (s[0] - c) * (s[0] - c) + SquaredDeviations(s[1..], c)
  }

  /** `statistics.variance`: the sample variance, with n - 1 in the denominator;
      fewer than two values raise StatisticsError. */
  function Variance(data: seq<real>): (r: Result<real, StatsError>)
    ensures r.Failure? <==> |data| < 2
    ensures r.Failure? ==> r.error == StatisticsError
    ensures r.Success? ==> r.value >= 0.0
  {
    if |data| < 2 then Failure(StatisticsError)
    else Success(SquaredDeviations(data, Mean(data)) / (|data| - 1) as real)
  }

  /** The index of the first key with the greatest count: the scan `max()` makes
      over the items of a Counter, replacing its candidate only on a strictly
      greater count. */
  function MostCommonIndex(keys: seq<real>, data: seq<real>): (k: nat)
    requires |keys| > 0
    ensures k < |keys|
    ensures forall j :: 0 <= j < |keys| ==> Count(data, keys[j]) <= Count(data, keys[k])
    ensures forall j :: 0 <= j < k ==> Count(data, keys[j]) < Count(data, keys[k])
  {
    if |keys| == 1 then 0
    else
      var b := MostCommonIndex(keys[..|keys| - 1], data);
      if Count(data, keys[|keys| - 1]) > Count(data, keys[b]) then |keys| - 1 else b
  }

  /** `statistics.mode` (Python 3.8 and later): the most common value; among
      equally common values, the one that occurs first. */
  function Mode(data: seq<real>): real
    requires |data| > 0
  {
    var keys := Distinct(data);
    assert data[0] in keys;
    keys[MostCommonIndex(keys, data)]
  }

  /** The mode occurs in the data, no value occurs more often, and every value
      whose first occurrence comes before the mode's occurs strictly less often. */
  lemma ModeIsFirstMostCommon(data: seq<real>)
    requires |data| > 0
    ensures Mode(data) in data
    ensures forall x :: x in data ==> Count(data, x) <= Count(data, Mode(data))
    ensures forall x :: x in data && FirstIndex(data, x) < FirstIndex(data, Mode(data)) ==>
      Count(data, x) < Count(data, Mode(data))
  {
    var keys := Distinct(data);
    assert data[0] in keys;
    var k := MostCommonIndex(keys, data);
    forall x | x in data
      ensures Count(data, x) <= Count(data, Mode(data))
      ensures FirstIndex(data, x) < FirstIndex(data, Mode(data)) ==> Count(data, x) < Count(data, Mode(data))
    {
      var j :| 0 <= j < |keys| && keys[j] == x;
      if FirstIndex(data, x) < FirstIndex(data, Mode(data)) {
        assert !(k < j);
        assert j != k;
      }
    }
  }

  /** Non-negative ints are all kept, in order, as their values. */
  lemma NaturalsKept(data: seq<Value>)
    requires |data| > 0
    requires forall i :: 0 <= i < |data| ==> data[i].Int? && data[i].n >= 0
    ensures NewStatisticsCalculator(data) == Success(seq(|data|, i requires 0 <= i < |data| => data[i].n as real))
  {
    var want := seq(|data|, i requires 0 <= i < |data| => data[i].n as real);
    forall i | 0 <= i < |data|
      ensures Keep(data[i]) == Some(want[i])
    {
      KeepNatural(data[i]);
    }
    KeepsAll(data, want);
  }

  /** When every value passes the test, all are kept, in order. */
  lemma KeepsAll(data: seq<Value>, want: seq<real>)
    requires |data| == |want| > 0
    requires forall i :: 0 <= i < |data| ==> Keep(data[i]) == Some(want[i])
    ensures NewStatisticsCalculator(data) == Success(want)
  {
    KeptValues(data, want);
    assert NumericData(data) != [];
  }

  /** The kept values, when each value is kept as the matching one of `want`. */
  lemma KeptValues(data: seq<Value>, want: seq<real>)
    requires |data| == |want|
    requires forall i :: 0 <= i < |data| ==> Keep(data[i]) == Some(want[i])
    ensures NumericData(data) == want
  {
    FilterMapKeepsAll(data, Keep);
    var got := seq(|data|, i requires 0 <= i < |data| => Keep(data[i]).value);
    assert got == want;
  }

  lemma KeepNatural(v: Value)
    requires v.Int? && v.n >= 0
    ensures Keep(v) == Some(v.n as real)
  {
    IntAdmissible(v.n);
  }

  // The figures the test suite checks for the data [10, 20, 20, 30, 40].

  lemma ExampleMean()
    ensures Mean([10.0, 20.0, 20.0, 30.0, 40.0]) == 24.0
  {
  }

  lemma ExampleVariance()
    ensures Variance([10.0, 20.0, 20.0, 30.0, 40.0]) == Success(130.0)
  {
    ExampleMean();
  }

  lemma ExampleMedian(d: seq<real>)
    requires d == [10.0, 20.0, 20.0, 30.0, 40.0]
    ensures Median(d) == 20.0
  {
    MedianOfAscending(d);
  }

  /** The occurrences of each value in the example data. */
  lemma ExampleCount(d: seq<real>, x: real)
    requires d == [10.0, 20.0, 20.0, 30.0, 40.0]
    ensures Count(d, x) == (if x == 10.0 then 1 else 0) + (if x == 20.0 then 2 else 0)
      + (if x == 30.0 then 1 else 0) + (if x == 40.0 then 1 else 0)
  {
    var d1: seq<real> := [10.0];
    var d2 := d1 + [20.0];
    var d3 := d2 + [20.0];
    var d4 := d3 + [30.0];
    assert d == d4 + [40.0];
    assert d1 == [] + [10.0];
    CountSnoc([], 10.0, x);
    CountSnoc(d1, 20.0, x);
    CountSnoc(d2, 20.0, x);
    CountSnoc(d3, 30.0, x);
    CountSnoc(d4, 40.0, x);
  }

  lemma ExampleMode(d: seq<real>)
    requires d == [10.0, 20.0, 20.0, 30.0, 40.0]
    ensures Mode(d) == 20.0
  {
    ModeIsFirstMostCommon(d);
    ExampleCount(d, 20.0);
    ExampleCount(d, Mode(d));
  }
}
