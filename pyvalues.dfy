/**
 * The Python values that reach the core (CSV cells, list elements) and the three
 * built-ins the core applies to them: `str()`, `str.strip()` and `float()`.
 */
module PyValues {
  import opened Wrappers

  /** A Python value as seen by the core. A float is given by its value and by the
      text `str()` prints for it. `Other` is an object `float()` refuses with
      TypeError (a list, a dict, ...), given by its `str()` text; bytes and
      objects with `__float__` or `__index__` are not among these values. */
  datatype Value =
    | Str(s: string)
    | Int(n: int)
    | Bool(b: bool)
    | Float(x: real, repr: string)
    | NoneValue
    | Other(text: string)

  /** The CSV data: the list of values of each column, by column name. */
  type Data = map<string, seq<Value>>

  /** `str.isspace()` on the ASCII range: space, \t \n \v \f \r and the
      four information separators 0x1C..0x1F. */
  predicate IsSpace(c: char) {
    c == ' ' || (9 <= c as int <= 13) || (28 <= c as int <= 31)
  }

  predicate IsDigit(c: char) {
    '0' as int <= c as int <= '9' as int
  }

  predicate AllSpace(s: string) {
    forall i :: 0 <= i < |s| ==> IsSpace(s[i])
  }

  /** Drops the leading white space of `s`. */
  function TrimLeft(s: string): (r: string)
    ensures |r| <= |s| && r == s[|s| - |r|..]
    ensures AllSpace(s[..|s| - |r|])
    ensures r != [] ==> !IsSpace(r[0])
  {
    if s != [] && IsSpace(s[0]) then TrimLeft(s[1..]) else s
  }

  /** Drops the trailing white space of `s`. */
  function TrimRight(s: string): (r: string)
    ensures |r| <= |s| && r == s[..|r|]
    ensures AllSpace(s[|r|..])
    ensures r != [] ==> !IsSpace(r[|r| - 1])
  {
    if s != [] && IsSpace(s[|s| - 1]) then TrimRight(s[..|s| - 1]) else s
  }

  /** `str.strip()`: white space removed at both ends. */
  function Strip(s: string): (r: string)
    ensures |r| <= |s|
    ensures r != [] ==> !IsSpace(r[0]) && !IsSpace(r[|r| - 1])
  {
    TrimRight(TrimLeft(s))
  }

  /** A string without white space at either end. */
  predicate Trimmed(t: string) {
    t == [] || (!IsSpace(t[0]) && !IsSpace(t[|t| - 1]))
  }

  lemma TrimLeftOfPadded(pre: string, w: string)
    requires AllSpace(pre)
    requires w == [] || !IsSpace(w[0])
    ensures TrimLeft(pre + w) == w
  {
    var s := pre + w;
    assert s[|pre|..] == w;
  }

  lemma TrimRightOfPadded(w: string, suf: string)
    requires AllSpace(suf)
    requires w == [] || !IsSpace(w[|w| - 1])
    ensures TrimRight(w + suf) == w
  {
    var s := w + suf;
    assert s[..|w|] == w;
  }

  /** `strip()` removes exactly the white-space padding around a trimmed core. */
  lemma {:induction false} StripOfPadded(pre: string, t: string, suf: string)
    requires AllSpace(pre) && AllSpace(suf) && Trimmed(t)
    ensures Strip(pre + t + suf) == t
  {
    if t == [] {
      assert pre + t + suf == pre + suf;
      TrimLeftOfPadded(pre + suf, []);
      assert pre + suf + [] == pre + suf;
      assert TrimRight([]) == [];
    } else {
      assert pre + t + suf == pre + (t + suf);
      TrimLeftOfPadded(pre, t + suf);
      TrimRightOfPadded(t, suf);
    }
  }

  /** `strip()` leaves a trimmed string alone. */
  lemma StripTrimmed(t: string)
    requires Trimmed(t)
    ensures Strip(t) == t
  {
    assert [] + t + [] == t;
    StripOfPadded([], t, []);
  }

  /** `strip()` of a string made only of white space is empty, and only then. */
  lemma StripEmptyIff(s: string)
    ensures Strip(s) == [] <==> AllSpace(s)
  {
    if AllSpace(s) {
      assert s + [] + [] == s;
      StripOfPadded(s, [], []);
    }
  }

  /** The decimal digit of value `d`. */
  function DigitChar(d: nat): (c: char)
    requires d < 10
    ensures IsDigit(c) && c as int - '0' as int == d
  {
    ('0' as int + d) as char
  }

  /** The value of a string of decimal digits. */
  function DigitsValue(s: string): nat
    requires forall i :: 0 <= i < |s| ==> IsDigit(s[i])
  {
    if s == [] then 0
    else
      var c := s[|s| - 1];
      assert IsDigit(c);
      10 * DigitsValue(s[..|s| - 1]) + (c as int - '0' as int)
  }

  /** The decimal numeral of a non-negative integer, without leading zeros:
      digits that denote `n`. */
  function NatText(n: nat): (s: string)
    ensures |s| > 0 && forall i :: 0 <= i < |s| ==> IsDigit(s[i])
    ensures DigitsValue(s) == n
    ensures s[0] == '0' ==> n == 0
  {
    if n < 10 then [DigitChar(n)]
    else
      var p := NatText(n / 10);
      var s := p + [DigitChar(n % 10)];
      assert s[..|s| - 1] == p;
      assert s[0] == p[0];
      s
  }

  /** `str(n)` for a Python int. */
  function IntText(n: int): string {
    if n < 0 then "-" + NatText(-n) else NatText(n)
  }

  /** `str(v)`. */
  function Text(v: Value): string {
    match v
    case Str(s) => s
    case Int(n) => IntText(n)
    case Bool(b) => if b then "True" else "False"
    case Float(_, repr) => repr
    case NoneValue => "None"
    case Other(text) => text
  }

  /** Python's `float()` on strings: the reals it returns for the texts it accepts.
      The grammar it accepts ("1e5", "inf", "  -2 ", ...) is not modelled, and the
      parser is a parameter of every operation that uses it. */
  type FloatParser = string -> Option<real>

  /** What `float(v)` does: return a value, raise ValueError, or raise TypeError. */
  datatype Conversion = Converted(value: real) | RaisesValueError | RaisesTypeError

  /** `float(v)`: ints, bools and floats convert, strings go through the
      parser, and None and the other objects modelled raise TypeError. An int too large for
      a double, on which Python raises OverflowError, converts here too. */
  function ToFloat(v: Value, parse: FloatParser): (c: Conversion)
    ensures c.RaisesTypeError? <==> v.NoneValue? || v.Other?
    ensures c.RaisesValueError? <==> v.Str? && parse(v.s).None?
  {
    match v
    case Str(s) => if parse(s).Some? then Converted(parse(s).value) else RaisesValueError
    case Int(n) => Converted(n as real)
    case Bool(b) => Converted(if b then 1.0 else 0.0)
    case Float(x, _) => Converted(x)
    case NoneValue => RaisesTypeError
    case Other(_) => RaisesTypeError
  }

  /** `[f(x) for x in s if <f applies to x>]`: the comprehension that keeps the
      elements `f` maps to a value, mapped and in order. */
  function FilterMap<A, B>(s: seq<A>, f: A -> Option<B>): (r: seq<B>)
    ensures |r| <= |s|
  {
    if s == [] then []
    else (if f(s[0]).Some? then [f(s[0]).value] else []) + FilterMap(s[1..], f)
  }

  /** The comprehension works element by element: it commutes with concatenation. */
  lemma {:induction false} FilterMapAppend<A, B>(a: seq<A>, b: seq<A>, f: A -> Option<B>)
    ensures FilterMap(a + b, f) == FilterMap(a, f) + FilterMap(b, f)
  {
    if a == [] {
      assert a + b == b;
    } else {
      var h := if f(a[0]).Some? then [f(a[0]).value] else [];
      assert (a + b)[0] == a[0];
      assert (a + b)[1..] == a[1..] + b;
      FilterMapAppend(a[1..], b, f);
      calc {
        FilterMap(a + b, f);
        h + FilterMap(a[1..] + b, f);
        h + (FilterMap(a[1..], f) + FilterMap(b, f));
        (h + FilterMap(a[1..], f)) + FilterMap(b, f);
      }
    }
  }

  /** Nothing is kept exactly when `f` maps no element to a value. */
  lemma {:induction false} FilterMapEmptyIff<A, B>(s: seq<A>, f: A -> Option<B>)
    ensures FilterMap(s, f) == [] <==> forall i :: 0 <= i < |s| ==> f(s[i]).None?
  {
    if s != [] {
      FilterMapEmptyIff(s[1..], f);
      assert forall i :: 1 <= i < |s| ==> s[i] == s[1..][i - 1];
    }
  }

  /** When `f` maps every element to a value, nothing is dropped and the order
      is kept. */
  lemma {:induction false} FilterMapKeepsAll<A, B>(s: seq<A>, f: A -> Option<B>)
    requires forall i :: 0 <= i < |s| ==> f(s[i]).Some?
    ensures FilterMap(s, f) == seq(|s|, i requires 0 <= i < |s| => f(s[i]).value)
  {
    if s != [] {
      assert forall i :: 1 <= i < |s| ==> s[i] == s[1..][i - 1];
      FilterMapKeepsAll(s[1..], f);
    }
  }

  /** Every kept value is the image of an element, and the kept values appear in
      the order of their elements. */
  lemma {:induction false} FilterMapFromElements<A, B>(s: seq<A>, f: A -> Option<B>, j: nat)
    requires j < |FilterMap(s, f)|
    ensures exists i :: 0 <= i < |s| && f(s[i]) == Some(FilterMap(s, f)[j])
  {
    if f(s[0]).Some? && j == 0 {
      assert f(s[0]) == Some(FilterMap(s, f)[0]);
    } else {
      var j' := if f(s[0]).Some? then j - 1 else j;
      assert FilterMap(s, f)[j] == FilterMap(s[1..], f)[j'];
      FilterMapFromElements(s[1..], f, j');
      var i :| 0 <= i < |s[1..]| && f(s[1..][i]) == Some(FilterMap(s[1..], f)[j']);
      assert s[i + 1] == s[1..][i];
    }
  }

  /** The comprehension at one more element. */
  lemma FilterMapSnoc<A, B>(s: seq<A>, a: A, f: A -> Option<B>)
    ensures FilterMap(s + [a], f) == FilterMap(s, f) + (if f(a).Some? then [f(a).value] else [])
  {
    FilterMapAppend(s, [a], f);
    assert FilterMap([a], f) == (if f(a).Some? then [f(a).value] else []) + FilterMap([], f);
  }

  /** The comprehension around one element: what it keeps before the element, the
      element's own image if any, and what it keeps after it. */
  lemma FilterMapSplit<A, B>(s: seq<A>, f: A -> Option<B>, i: nat)
    requires i < |s|
    ensures FilterMap(s, f)
      == FilterMap(s[..i], f) + (if f(s[i]).Some? then [f(s[i]).value] else []) + FilterMap(s[i + 1..], f)
  {
    var tail := s[i..];
    assert s == s[..i] + tail;
    FilterMapAppend(s[..i], tail, f);
    assert tail[0] == s[i] && tail[1..] == s[i + 1..];
  }

  /** An element `f` maps to nothing makes the result shorter than the input. */
  lemma FilterMapDrops<A, B>(s: seq<A>, f: A -> Option<B>, i: nat)
    requires i < |s| && f(s[i]).None?
    ensures |FilterMap(s, f)| < |s|
  {
    FilterMapSplit(s, f, i);
    assert |FilterMap(s[..i], f)| <= i;
  }

  /** Two maps that agree on every element give the same comprehension. */
  lemma {:induction false} FilterMapAgree<A, B>(s: seq<A>, f: A -> Option<B>, g: A -> Option<B>)
    requires forall i :: 0 <= i < |s| ==> f(s[i]) == g(s[i])
    ensures FilterMap(s, f) == FilterMap(s, g)
  {
    if s != [] {
      assert forall i :: 0 <= i < |s[1..]| ==> s[1..][i] == s[i + 1];
      FilterMapAgree(s[1..], f, g);
    }
  }

  /** `float(v)`, with both of its errors turned into "no value". */
  function FloatOrSkip(parse: FloatParser): (f: Value -> Option<real>)
    ensures forall v :: f(v).Some? <==> ToFloat(v, parse).Converted?
    ensures forall v :: f(v).Some? ==> f(v).value == ToFloat(v, parse).value
  {
    v => if ToFloat(v, parse).Converted? then Some(ToFloat(v, parse).value) else None
  }

  /** The floats `float()` gives for the values of `column`, in order, skipping
      every value on which it raises ValueError or TypeError. */
  function Lenient(column: seq<Value>, parse: FloatParser): seq<real> {
    FilterMap(column, FloatOrSkip(parse))
  }
}
