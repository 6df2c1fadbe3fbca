/**
 * The two interpretations `ReportWriter` (report_writer.py) writes next to the
 * figures: the strength of a Pearson coefficient, and the decision of a
 * hypothesis test. The file writing around them is not modelled.
 */
module Report {

  /** The four interpretations of a correlation coefficient, weakest first. */
  datatype Strength = VeryWeak | Weak | Moderate | Strong {
    /** Its position on the weak-to-strong scale. */
    function Rank(): nat {
      match this
      case VeryWeak => 0
      case Weak => 1
      case Moderate => 2
      case Strong => 3
    }

    /** The text written after "Interpretation: ". */
    function Text(): string {
      match this
      case VeryWeak => "Very weak or no correlation"
      case Weak => "Weak correlation"
      case Moderate => "Moderate correlation"
      case Strong => "Strong correlation"
    }
  }

  function Abs(r: real): real {
    if r < 0.0 then -r else r
  }

  /** The if/elif chain of `write_correlation_report()` on `abs(value)`. */
  function Interpret(value: real): (s: Strength)
    ensures s == Strong <==> Abs(value) >= 0.7
    ensures s == Moderate <==> 0.4 <= Abs(value) < 0.7
    ensures s == Weak <==> 0.2 <= Abs(value) < 0.4
    ensures s == VeryWeak <==> Abs(value) < 0.2
  {
    if Abs(value) >= 0.7 then Strong
    else if Abs(value) >= 0.4 then Moderate
    else if Abs(value) >= 0.2 then Weak
    else VeryWeak
  }

  /** The sign of the coefficient plays no part: r and -r read the same. */
  lemma InterpretSymmetric(value: real)
    ensures Interpret(-value) == Interpret(value)
  {
  }

  /** A coefficient larger in absolute value never reads weaker. */
  lemma InterpretMonotone(a: real, b: real)
    requires Abs(a) <= Abs(b)
    ensures Interpret(a).Rank() <= Interpret(b).Rank()
  {
  }

  /** The four texts differ, so the text determines the interpretation. */
  lemma TextsDistinct(s: Strength, t: Strength)
    ensures s.Text() == t.Text() <==> s == t
  {
    if s != t {
      assert s.Text()[0] != t.Text()[0] || |s.Text()| != |t.Text()|;
    }
  }

  /** The two decisions of `write_hypothesis_test_report()`. */
  datatype Decision = Reject | FailToReject {
    function Text(): string {
      match this
      case Reject => "Reject the null hypothesis (significant result)"
      case FailToReject => "Fail to reject the null hypothesis (not significant)"
    }
  }

  /** The significance level used when the caller gives none. */
  const DefaultAlpha: real := 0.05

  /** `p_value < alpha` rejects the null hypothesis, anything else fails to. */
  function Decide(pValue: real, alpha: real := DefaultAlpha): (d: Decision)
    ensures d == Reject <==> pValue < alpha
    ensures d == FailToReject <==> pValue >= alpha
  {
    if pValue < alpha then Reject else FailToReject
  }

  /** A p-value equal to alpha is not significant. */
  lemma AtAlphaNotSignificant(alpha: real)
    ensures Decide(alpha, alpha) == FailToReject
  {
  }

  /** With the default level, significance means a p-value below 0.05. */
  lemma DefaultLevel(pValue: real)
    ensures Decide(pValue) == Reject <==> pValue < 0.05
  {
  }

  /** A smaller p-value, or a larger alpha, can only move the decision towards
      rejecting. */
  lemma DecideMonotone(p: real, q: real, alpha: real, beta: real)
    requires p <= q && alpha <= beta
    ensures Decide(q, alpha) == Reject ==> Decide(p, beta) == Reject
  {
  }
}
