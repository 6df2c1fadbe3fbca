# CLI Stat Calculator: a verified model of its cleaning, counting and decision logic

CLI Stat Calculator is a small Python command-line tool. It reads a CSV file and
reports descriptive statistics, a Pearson correlation and three hypothesis tests
(one-sample t, two-sample t, chi-square). Most of the numbers are computed by
`statistics` and `scipy`. What the tool computes itself is modelled here:

- **`StatisticsCalculator`** (`stats_module.py`), in module `Stats`:
  - the text filter of the constructor and its "no valid data" error;
  - the frequency table, as a counting loop over a dict followed by a sort;
  - the text histogram, as a loop appending one line per key;
  - mean, median, sample variance and mode, by their definitions over reals.
- **`HypothesisTester`** (`hypothesis_module.py`), in module `Hypothesis`:
  - the column cleaning loop;
  - the category counting loop;
  - the size guards in front of the three tests.
- **`CorrelationAnalyzer.__init__`** (`correlation_module.py`), in module
  `Correlation`: the ordered checks, with the stricter column cleaning of that
  class, which lets TypeError escape.
- **`ReportWriter`** (`report_writer.py`), in module `Report`: the four-way
  strength interpretation of a coefficient and the reject / fail-to-reject
  decision.
- Module `ChiSquare` holds the chi-square statistic, for one of the findings
  below.

The shared vocabulary lives in three generic modules:

- `PyValues` describes the Python values found in the CSV cells and lists (str,
  int, bool, float, None, other objects). It also models `str()`, `str.strip()`,
  the outcome of `float()`, and the filter-map comprehension.
- `Counting` covers occurrence counts, first-occurrence order and tally tables.
- `Sorting` is an insertion sort on reals, proved ascending, a permutation, and
  the only ascending permutation.

Modelling choices:

- **Python `float()` on strings is a parameter** `parse: string -> Option<real>`.
  Ints, bools and floats convert, an int of any size included. None and the
  other objects modelled (those `float()` refuses, such as lists and dicts)
  raise TypeError.
  A string the parser refuses raises ValueError.
- **Objects that are never mutated are values.** `StatisticsCalculator.data`,
  `HypothesisTester.data` and `CorrelationAnalyzer.x`/`y` are set once in
  `__init__`, so an instance is modelled by those values.
- **The loops stay loops.** The loops that update a dict or an accumulator are
  `method`s with loop invariants. Each is proved equal to a specification
  function, and the properties are lemmas about that function:
  - `Stats.CountValues` and `Stats.FrequencyDistribution`;
  - `Stats.RenderLines`;
  - `Hypothesis.CleanColumn`;
  - `Hypothesis.CountLabels` and `Hypothesis.ExtractObservedFrequencies`;
  - `Correlation.CleanColumn`.
- **A dict that is returned is a sequence of (key, count) pairs in dict order.**
  That is insertion order while counting, and key order after `sorted()`.
- **Python 3.8 semantics for `statistics.mode`**: the first of the most common
  values.
- **ASCII** for `isdigit()` and `isspace()`.

## Model

| member | source | states |
|---|---|---|
| PyValues.ToFloat | cli_stat_calculator/hypothesis_module.py:26-28 | `float(v)` raises TypeError exactly on None and the other objects modelled, and raises ValueError exactly on a string the parser refuses; otherwise it converts (OverflowError is not modelled) |
| PyValues.Strip | cli_stat_calculator/stats_module.py:12 | `strip()` leaves no white space at either end and never lengthens the text |
| PyValues.StripOfPadded | cli_stat_calculator/stats_module.py:12 | stripping a trimmed text padded with white space on both sides gives the text back |
| PyValues.StripEmptyIff | cli_stat_calculator/hypothesis_module.py:63-64 | `strip()` gives the empty string exactly when the text is all white space |
| PyValues.NatText | cli_stat_calculator/stats_module.py:12 | `str()` of a non-negative int is a non-empty string of digits whose decimal value is the int, with no leading zero unless the int is 0 |
| PyValues.IntText | cli_stat_calculator/stats_module.py:12 | `str()` of an int: its decimal digits, after a minus sign when it is negative; Stats.IntTextChars states its shape |
| PyValues.Text | cli_stat_calculator/stats_module.py:12 | `str(v)`: a string itself, an int's decimal digits after a minus sign when negative, "True" or "False", a float's printed form, "None"; its properties are stated by NatText, Stats.IntTextChars and Stats.BoolRejected |
| PyValues.FilterMapAppend | cli_stat_calculator/stats_module.py:12 | the keep-and-convert comprehension distributes over concatenation |
| PyValues.FilterMapEmptyIff | cli_stat_calculator/stats_module.py:12-14 | the comprehension is empty exactly when no element is kept |
| PyValues.FilterMapKeepsAll | cli_stat_calculator/stats_module.py:12 | when every element is kept, the result is every element converted, in order |
| PyValues.FilterMapFromElements | cli_stat_calculator/stats_module.py:12 | every result is the image of some element |
| PyValues.FilterMapSplit | cli_stat_calculator/hypothesis_module.py:24-28 | around any element, the result is what is kept before it, the element's own image if kept, then what is kept after it |
| PyValues.FilterMapDrops | cli_stat_calculator/correlation_module.py:21-31 | an element that is not kept makes the result strictly shorter than the input |
| PyValues.FilterMapAgree | cli_stat_calculator/stats_module.py:12 | two conversions that agree on every element give the same comprehension |
| PyValues.Lenient | cli_stat_calculator/hypothesis_module.py:22-29 | the cleaning loop as a comprehension: `float()` of each value, in order, skipping ValueError and TypeError; Hypothesis.CleanColumn is proved to compute it |
| PyValues.FloatOrSkip | cli_stat_calculator/hypothesis_module.py:25-28 | `float()` with both errors turned into a skip: gives a value exactly when `float()` converts, and that value |
| Stats.RemoveFirst | cli_stat_calculator/stats_module.py:12 | `.replace('.', '', 1)`: the text without its first point, or unchanged when it has none; Stats.RemoveFirstShape states how what follows the point shifts |
| Stats.IsDigitString | cli_stat_calculator/stats_module.py:12 | `isdigit()` on ASCII: the text is non-empty and every character is a digit |
| Stats.IsNumericText | cli_stat_calculator/stats_module.py:12 | the text test as written: strip, drop the first point, then `isdigit()`; NumericTextIff characterises it |
| Stats.Admissible | cli_stat_calculator/stats_module.py:12 | the condition of the comprehension: the value is a str, an int (a bool included) or a float, and its `str()` passes the text test |
| Stats.Keep | cli_stat_calculator/stats_module.py:12 | the comprehension keeps a value exactly when it is an int, bool, float or str whose text passes the test, and then gives `float()` of it |
| Stats.Coerce | cli_stat_calculator/stats_module.py:12 | `float(x)` of a kept value: a string's stripped numeral read as a decimal number, an int's value, a float itself |
| Stats.NumericData | cli_stat_calculator/stats_module.py:12 | the comprehension of the constructor: the kept values converted, in order, never more than the input |
| Stats.NumericTextIff | cli_stat_calculator/stats_module.py:12 | `str(x).strip().replace('.', '', 1).isdigit()` holds exactly when the stripped text is digits with at most one point and at least one digit |
| Stats.PointCase | cli_stat_calculator/stats_module.py:12 | when a point is present, removing it leaves all digits exactly for a plain decimal numeral |
| Stats.NoPointCase | cli_stat_calculator/stats_module.py:12 | without a point, the test is `isdigit()` itself |
| Stats.NewStatisticsCalculator | cli_stat_calculator/stats_module.py:12-14 | ValueError exactly when no value passes the filter; otherwise `data` is the non-empty list of kept values |
| Stats.KeptInPlace | cli_stat_calculator/stats_module.py:12 | the filter keeps order: around any value, `data` holds what is kept before it, the value itself when it passes, and what is kept after it |
| Stats.KeptFromData | cli_stat_calculator/stats_module.py:12 | every element of `data` is `float()` of an input value that passed the test |
| Stats.IntTextChars | cli_stat_calculator/stats_module.py:12 | `str()` of an int is non-empty, has no surrounding white space, starts with '-' exactly when the int is negative, and holds only digits and '-' |
| Stats.IntAdmissible | cli_stat_calculator/stats_module.py:12 | an int is kept exactly when it is not negative |
| Stats.BoolRejected | cli_stat_calculator/stats_module.py:12 | bools pass `isinstance(x, int)` but are always dropped, since "True" and "False" hold no digit |
| Stats.MinusFiveRejected | cli_stat_calculator/stats_module.py:12 | "-5" and the int -5 are dropped |
| Stats.RejectsOtherCharacter | cli_stat_calculator/stats_module.py:12 | a stripped text containing a sign, an exponent letter, inner white space or any other non-digit other than a point is dropped |
| Stats.LeadingMinusRejected | cli_stat_calculator/stats_module.py:12 | any text starting with a minus sign is dropped |
| Stats.NegativeFloatDropped | cli_stat_calculator/stats_module.py:12 | a float whose printed form starts with a minus sign, as every negative float's does, is dropped |
| Stats.RejectsTwoPoints | cli_stat_calculator/stats_module.py:12 | a stripped text with two points is dropped |
| Stats.RejectsNoDigit | cli_stat_calculator/stats_module.py:12 | a text without digits is dropped: empty, blank, or a lone point |
| Stats.AcceptsDecimal | cli_stat_calculator/stats_module.py:12 | digits a, a point and digits b (a or b may be empty, not both), padded with white space, are kept with value a + b / 10^\|b\| |
| Stats.NaturalsKept | cli_stat_calculator/stats_module.py:12 | a list of non-negative ints is kept whole, in order, as reals |
| Stats.NegativeOnlyRefused | cli_stat_calculator/stats_module.py:12-14 | the list [-5], as an int or as a string, is refused with "No valid numerical data provided." |
| Stats.CorrectedStatisticsCalculator | cli_stat_calculator/stats_module.py:8-14 | the constructor as documented: ValueError exactly when `float()` converts no value; otherwise the converted values, in order |
| Stats.CorrectedKeepsNumbers | cli_stat_calculator/stats_module.py:8-14 | in the corrected constructor, every int, bool and float is kept, with its value, whatever its sign |
| Stats.ConversionAgrees | cli_stat_calculator/stats_module.py:12 | for a parser that reads plain decimal numerals as their value, `float()` and the conversion of a kept value agree |
| Stats.CorrectedAgreesOnAdmissible | cli_stat_calculator/stats_module.py:8-14 | on data that all passes the text test, the corrected constructor and the one as written give the same result |
| Stats.CorrectedKeepsKept | cli_stat_calculator/stats_module.py:8-14 | every value the constructor as written keeps, the corrected one keeps too, with the same value, in its place among the values kept |
| Stats.CorrectedSucceedsWhenKept | cli_stat_calculator/stats_module.py:8-14 | the corrected constructor succeeds whenever the one as written does |
| Stats.NegativeKept | cli_stat_calculator/stats_module.py:8-14 | the corrected constructor keeps [-5] as [-5.0] |
| Stats.Frequencies | cli_stat_calculator/stats_module.py:40-44 | the frequency table: the distinct values in ascending order, each with its count; FrequenciesIsTally and FrequenciesSum state its properties |
| Stats.CountValues | cli_stat_calculator/stats_module.py:41-43 | the dict loop: each distinct value exactly once, in first-occurrence order, and its number of occurrences |
| Stats.FrequencyDistribution | cli_stat_calculator/stats_module.py:40-44 | the table has each value of the data exactly once, with its number of occurrences and no other key, in strictly ascending key order |
| Stats.FrequenciesIsTally | cli_stat_calculator/stats_module.py:40-44 | a key is present iff the value occurs in the data, counts are occurrence counts, keys strictly ascending |
| Stats.FrequenciesSum | cli_stat_calculator/stats_module.py:40-44 | every count is at least 1 and the counts add up to `len(data)` |
| Stats.TextHistogram | cli_stat_calculator/stats_module.py:46-51 | the histogram is the rendering of the sorted frequency table |
| Stats.RenderLines | cli_stat_calculator/stats_module.py:48-51 | the appending loop produces the lines of the table's entries, in table order |
| Stats.Bar | cli_stat_calculator/stats_module.py:50 | `'█' * count`: exactly `count` block characters |
| Stats.PadLeft | cli_stat_calculator/stats_module.py:50 | `:>6`: the text right-aligned with spaces to the field width, never cut when longer |
| Stats.LineBody | cli_stat_calculator/stats_module.py:50 | the f-string of one line: the key padded to width 6, ": " and the bar; Stats.HistogramLines states its shape |
| Stats.Histogram | cli_stat_calculator/stats_module.py:48-51 | the histogram text: one line per table entry, in table order; HistogramSnoc and HistogramLines state its shape |
| Stats.HistogramSnoc | cli_stat_calculator/stats_module.py:49-50 | one more table entry appends exactly one more line |
| Stats.HistogramLines | cli_stat_calculator/stats_module.py:49-50 | one line per table entry, in table order, each the right-aligned key, ": " and a bar of exactly `count` blocks |
| Stats.TextHistogramShape | cli_stat_calculator/stats_module.py:46-51 | one line per distinct value in ascending key order, and each bar has exactly as many blocks as the value occurs |
| Stats.Min | cli_stat_calculator/stats_module.py:16-17 | the least element occurs in the data and bounds every element from below |
| Stats.Max | cli_stat_calculator/stats_module.py:16-17 | the greatest element occurs in the data and bounds every element from above |
| Stats.Mean | cli_stat_calculator/stats_module.py:16-17 | `statistics.mean`: the sum over the count; MeanBetweenMinAndMax and MeanBounds state its properties |
| Stats.MeanBetweenMinAndMax | cli_stat_calculator/stats_module.py:16-17 | the mean lies between the least and the greatest value |
| Stats.MeanBounds | cli_stat_calculator/stats_module.py:16-17 | any bounds on the values also bound their mean |
| Stats.Median | cli_stat_calculator/stats_module.py:19-20 | `statistics.median`: the middle of the sorted data, or the mean of its two middle values; MedianOfAscending onwards state its properties |
| Stats.MedianOfAscending | cli_stat_calculator/stats_module.py:19-20 | for sorted data the median is the middle element, or the average of the two middle elements when the length is even |
| Stats.MedianOrderFree | cli_stat_calculator/stats_module.py:19-20 | the median depends only on the multiset of values |
| Stats.MedianBetweenMinAndMax | cli_stat_calculator/stats_module.py:19-20 | the median lies between the least and the greatest value |
| Stats.MedianBounds | cli_stat_calculator/stats_module.py:19-20 | any bounds on the values also bound their median |
| Stats.Variance | cli_stat_calculator/stats_module.py:31-32 | StatisticsError exactly when there are fewer than two values; otherwise a variance that is never negative |
| Stats.MostCommonIndex | cli_stat_calculator/stats_module.py:22-24 | the chosen key has the greatest count, and every earlier key has a strictly smaller count |
| Stats.Mode | cli_stat_calculator/stats_module.py:22-24 | `statistics.mode`: the most common value seen first; ModeIsFirstMostCommon states it |
| Stats.ModeIsFirstMostCommon | cli_stat_calculator/stats_module.py:22-24 | the mode occurs in the data, no value occurs more often, and every value first seen before it occurs strictly less often |
| Stats.ExampleVariance | cli_stat_calculator/test_all.py:10-26 | the sample variance of [10, 20, 20, 30, 40] is 130 |
| Stats.ExampleMedian | cli_stat_calculator/test_all.py:10-17 | the median of [10, 20, 20, 30, 40] is 20 |
| Stats.ExampleCount | cli_stat_calculator/test_all.py:10 | in [10, 20, 20, 30, 40], 20 occurs twice and 10, 30 and 40 once each |
| Stats.ExampleMode | cli_stat_calculator/test_all.py:10-20 | the mode of [10, 20, 20, 30, 40] is 20 |
| Stats.ExampleMean | cli_stat_calculator/test_all.py:10-14 | the mean of [10, 20, 20, 30, 40] is 24 |
| Counting.FirstIndex | cli_stat_calculator/hypothesis_module.py:61-65 | the position of the first occurrence of an element |
| Counting.Distinct | cli_stat_calculator/hypothesis_module.py:61-65 | the keys a dict gets while counting: no duplicates, exactly the elements of the input, ordered by their first occurrence |
| Counting.CountsStep | cli_stat_calculator/hypothesis_module.py:65 | `freq[k] = freq.get(k, 0) + 1` keeps the dict equal to the counts of the values seen so far |
| Counting.CountingLoopStep | cli_stat_calculator/stats_module.py:42-43 | one step of a counting loop keeps the dict equal to the counts of the values seen and its keys in first-occurrence order |
| Counting.TabulateIsTally | cli_stat_calculator/stats_module.py:40-44 | pairing the distinct elements with their counts gives a tally of the input |
| Counting.TallyCountsPositive | cli_stat_calculator/hypothesis_module.py:64-65 | every count of a tally is at least 1 |
| Counting.TallySum | cli_stat_calculator/stats_module.py:40-44 | the counts of a tally add up to the length of the input |
| Sorting.Sort | cli_stat_calculator/stats_module.py:44 | `sorted()` on reals: an ascending permutation of its input |
| Sorting.SortDistinct | cli_stat_calculator/stats_module.py:44 | sorting values without duplicates gives strictly ascending keys |
| Sorting.AscendingUnique | cli_stat_calculator/stats_module.py:19-20 | two ascending sequences with the same multiset are equal |
| Sorting.SortPermutation | cli_stat_calculator/stats_module.py:19-20 | sorted output depends only on the multiset of the input |
| Hypothesis.ColumnOrEmpty | cli_stat_calculator/hypothesis_module.py:22 | `self.data.get(column_name, [])`: the named column, or the empty list when it is missing |
| Hypothesis.Cleaned | cli_stat_calculator/hypothesis_module.py:18-29 | the cleaned column: the lenient conversion of the named column, or of [] when it is missing |
| Hypothesis.CleanColumn | cli_stat_calculator/hypothesis_module.py:18-29 | the values of the column that `float()` converts, in order, skipping ValueError and TypeError; a missing column gives []; never longer than the column |
| Hypothesis.CleanSkipsErrors | cli_stat_calculator/hypothesis_module.py:25-28 | a value raising ValueError or TypeError is skipped: removing it changes nothing |
| Hypothesis.CleanKeepsConverted | cli_stat_calculator/hypothesis_module.py:25-26 | a value that converts is kept, in its place among the kept values |
| Hypothesis.CleanedFromColumn | cli_stat_calculator/hypothesis_module.py:18-29 | every cleaned value is `float()` of a value of a column that exists |
| Hypothesis.OneSampleTTest | cli_stat_calculator/hypothesis_module.py:31-40 | ValueError exactly when fewer than two values survive cleaning, a missing column included; otherwise the sample and `popmean`, which defaults to 0 |
| Hypothesis.TwoSampleTTest | cli_stat_calculator/hypothesis_module.py:42-53 | ValueError exactly when either cleaned sample has fewer than two values; otherwise both samples |
| Hypothesis.Label | cli_stat_calculator/hypothesis_module.py:63-64 | a value counts exactly when its text is not all white space, under its stripped text |
| Hypothesis.Labels | cli_stat_calculator/hypothesis_module.py:62-64 | the sequence of categories the loop counts: the stripped text of every non-blank value, in order |
| Hypothesis.LabelsLength | cli_stat_calculator/hypothesis_module.py:62-65 | there is one category occurrence per non-blank value |
| Hypothesis.ObservedFrequencies | cli_stat_calculator/hypothesis_module.py:55-66 | the returned dict: the distinct categories in first-occurrence order, each with its count; ObservedIsTally, ObservedKeys and ObservedSum state it |
| Hypothesis.ExtractObservedFrequencies | cli_stat_calculator/hypothesis_module.py:55-66 | the dict of each stripped non-blank text, in first-occurrence order, with its count; a missing column gives an empty dict |
| Hypothesis.CountLabels | cli_stat_calculator/hypothesis_module.py:61-65 | the loop's dict holds exactly the categories with their counts, its keys in first-occurrence order |
| Hypothesis.ObservedIsTally | cli_stat_calculator/hypothesis_module.py:55-66 | each category exactly once, with its number of occurrences |
| Hypothesis.ObservedKeys | cli_stat_calculator/hypothesis_module.py:63-65 | every key is non-empty, has no surrounding white space, and is the stripped text of some value of the column |
| Hypothesis.ObservedSum | cli_stat_calculator/hypothesis_module.py:60-66 | each count is at least 1 and the counts add up to the number of non-blank values |
| Hypothesis.ObservedIgnoresBlank | cli_stat_calculator/hypothesis_module.py:64 | a blank or white-space value is never counted: removing it leaves the dict unchanged |
| Hypothesis.LabelsIgnoreBlank | cli_stat_calculator/hypothesis_module.py:64 | removing a blank value leaves the category sequence unchanged |
| Hypothesis.ChiSquareTest | cli_stat_calculator/hypothesis_module.py:68-77 | ValueError exactly when there are fewer than two categories; otherwise the counts in dict order |
| Hypothesis.TrimmedLabels | cli_stat_calculator/hypothesis_module.py:63-65 | non-empty strings without padding are their own categories |
| Hypothesis.TwoCategories | cli_stat_calculator/hypothesis_module.py:55-66 | a column y, n, y, y, n, n gives {y: 3, n: 3}, with y first |
| Hypothesis.ExampleObserved | cli_stat_calculator/test_all.py:48-67 | ['Yes', 'No', 'Yes', 'Yes', 'No', 'No'] gives {Yes: 3, No: 3} |
| Correlation.Strict | cli_stat_calculator/correlation_module.py:21-31 | the cleaning of this class can fail only with TypeError |
| Correlation.StrictFailsIff | cli_stat_calculator/correlation_module.py:25-31 | cleaning fails exactly when some value makes `float()` raise TypeError |
| Correlation.NoneRaises | cli_stat_calculator/correlation_module.py:28-30 | a None in the column is not skipped: TypeError escapes |
| Correlation.StrictIsLenient | cli_stat_calculator/correlation_module.py:25-31 | when no TypeError occurs, the result is the values `float()` converts, in order |
| Correlation.CleanColumn | cli_stat_calculator/correlation_module.py:21-31 | the loop appends `float(val)`, continues past ValueError only, and lets the first TypeError escape |
| Correlation.StrictFailsAfter | cli_stat_calculator/correlation_module.py:25-31 | once a prefix fails, the whole column fails the same way |
| Correlation.Init | cli_stat_calculator/correlation_module.py:6-19 | a missing name fails with ColumnsNotFound whatever the columns hold; on success `len(x) == len(y) >= 2`, and x and y are the cleaned columns |
| Correlation.Create | cli_stat_calculator/correlation_module.py:6-19 | the statement sequence of `__init__` computes exactly `Init` |
| Correlation.TypeErrorEscapes | cli_stat_calculator/correlation_module.py:13-14 | a TypeError in either column escapes `__init__` |
| Correlation.InitErrors | cli_stat_calculator/correlation_module.py:16-19 | length mismatch iff the cleaned lengths differ, even when both are short; too little data iff they are equal and below 2; success iff equal and at least 2 |
| Correlation.NotRowAligned | cli_stat_calculator/correlation_module.py:13-16 | columns are cleaned independently: one skipped value in the first column makes equal-length columns mismatch |
| Report.Interpret | cli_stat_calculator/report_writer.py:45-52 | Strong iff \|r\| >= 0.7, Moderate iff 0.4 <= \|r\| < 0.7, Weak iff 0.2 <= \|r\| < 0.4, Very weak iff \|r\| < 0.2 |
| Report.InterpretSymmetric | cli_stat_calculator/report_writer.py:45-52 | r and -r get the same interpretation |
| Report.InterpretMonotone | cli_stat_calculator/report_writer.py:45-52 | a larger \|r\| never reads weaker |
| Report.TextsDistinct | cli_stat_calculator/report_writer.py:46-52 | the four interpretation texts are pairwise different |
| Report.Decide | cli_stat_calculator/report_writer.py:58-70 | Reject iff `p_value < alpha`, Fail to reject iff `p_value >= alpha`; alpha defaults to 0.05 |
| Report.AtAlphaNotSignificant | cli_stat_calculator/report_writer.py:67-70 | `p_value == alpha` fails to reject |
| Report.DefaultLevel | cli_stat_calculator/report_writer.py:58-67 | with the default level, rejecting means `p_value < 0.05` |
| Report.DecideMonotone | cli_stat_calculator/report_writer.py:67-70 | a smaller p-value or a larger alpha only moves the decision towards rejecting |
| ChiSquare.PearsonStatistic | cli_stat_calculator/hypothesis_module.py:76 | Pearson's statistic is never negative |
| ChiSquare.PearsonOfItself | cli_stat_calculator/hypothesis_module.py:76 | the statistic is 0 when every observed count equals its expected count |
| ChiSquare.ExpectedIsObserved | cli_stat_calculator/hypothesis_module.py:76 | on the one-row table `[observed]`, each expected count is the observed count |
| ChiSquare.ContingencyDof | cli_stat_calculator/hypothesis_module.py:76 | the degrees of freedom scipy computes from the table's shape, `size - sum(shape) + ndim - 1`, are (rows - 1) * (columns - 1) |
| ChiSquare.ContingencySingleRow | cli_stat_calculator/hypothesis_module.py:76 | `chi2_contingency([observed])` as called: the degrees of freedom computed from the shape of the one-row table are 0 |
| ChiSquare.ContingencyAlwaysZero | cli_stat_calculator/hypothesis_module.py:76 | whatever the counts, the test as written reports statistic 0 on 0 degrees of freedom |
| ChiSquare.GoodnessOfFit | cli_stat_calculator/hypothesis_module.py:68-72 | the goodness-of-fit statistic against equal frequencies is never negative, on k - 1 degrees of freedom |
| ChiSquare.TermPositive | cli_stat_calculator/hypothesis_module.py:68-72 | a cell whose count differs from its expected count adds a positive term |
| ChiSquare.PearsonPositive | cli_stat_calculator/hypothesis_module.py:68-72 | one differing cell makes the statistic positive |
| ChiSquare.PearsonZeroIff | cli_stat_calculator/hypothesis_module.py:68-72 | the statistic is 0 exactly when every observed count equals its expected count |
| ChiSquare.TotalConst | cli_stat_calculator/hypothesis_module.py:68-72 | k equal counts c add up to k * c |
| ChiSquare.GoodnessOfFitZeroIff | cli_stat_calculator/hypothesis_module.py:68-72 | the goodness-of-fit statistic is 0 exactly when all categories have the same count |
| ChiSquare.SkewedCountsExample | cli_stat_calculator/hypothesis_module.py:68-77 | on counts {Yes: 9, No: 1} the test as written reports 0, while goodness of fit reports 6.4 |
| ChiSquare.EvenCountsExample | cli_stat_calculator/test_all.py:48-69 | on the test suite's counts {Yes: 3, No: 3} goodness of fit reports 0 too |

## Left out

- The scipy calls are foreign-library numerics over floating point (t and chi-square distributions, p-values), so they are left out: `skew`, `kurtosis`, `ttest_1samp`, `ttest_ind`, `pearsonr`, the p-value of `chi2_contingency`. A test that passes its guard returns the arguments it would pass to scipy. `pearson_correlation` is this one scipy call and is not modelled.
- `standard_deviation` is left out: it is a square root, which is not exact over reals.
- Floating point is left out: everything is exact real arithmetic, with no rounding, NaN, infinities or signed zero. The texts "nan", "inf" and "-0.0" cannot pass the constructor's filter, because they lack a digit or carry a sign. A numeral too large for a double can pass, though: a string of 310 or more digits passes the test, and Python's `float()` makes it infinity, where the model keeps the exact number.
- PyValues.ToFloat: an int too large for a double (about 2^1024 and more) makes Python's `float()` raise OverflowError, which none of stats_module.py:12, hypothesis_module.py:27 and correlation_module.py:29 catches. The model converts it to the exact real instead, so it does not show that exception escaping. `Other` stands only for objects that `float()` refuses with TypeError (lists, dicts, ...); bytes, which `float()` converts or refuses with ValueError, and objects with `__float__` or `__index__` (`decimal.Decimal`, `fractions.Fraction`, numpy scalars), which it converts, are not modelled. For those values Correlation.Strict, Correlation.StrictFailsIff and Correlation.TypeErrorEscapes would not apply; the CSV reader yields only strings and None.
- `generate_report`, the file writing of `ReportWriter`, the `datetime` timestamps and the `:.2f`/`:.4f` formatting are output formatting and I/O, and are left out.
- The grammar of `float()` on strings is left out; it is the parameter `parse`. The printed form of a float is left out too: a `Float` value carries its `str()` text, and `text_histogram` takes `str()` of a key as the parameter `show`.
- `isdigit()` and `isspace()` are ASCII only. Unicode digits such as '²' pass Python's `isdigit()`, but the model rejects them.
- Stats.Mode: the "No unique mode" branch (stats_module.py:25-26) is not modelled. From Python 3.8, `statistics.mode` raises only on empty data, and `data` is never empty after the constructor. Under Python 3.7 and earlier, ties raise.
- Stats.TextHistogramShape: it requires that the printed form of a key holds no newline, which `str()` of a float never does.
- Stats.ExampleMedian, Stats.ExampleMode and Stats.ExampleCount take the test data as a parameter equal to the literal list rather than writing the literal in the ensures. Hypothesis.TwoCategories states the test suite's category column for any two distinct trimmed labels.
- Hypothesis.OneSampleTTest and Hypothesis.TwoSampleTTest return what they would pass to scipy instead of a t statistic and p-value.
- Hypothesis.ChiSquareTest returns the list of counts it would pass to scipy. The statistic scipy would compute from it is modelled separately in `ChiSquare`.
- The `HypothesisTester` and `CorrelationAnalyzer` objects are modelled by their data and fields. The methods take the data as an argument, and no object identity is modelled.
- cli_calculator.py (the interactive menu) and file_handler.py (CSV reading) are not part of this model.

## Findings

| source | as written | input that shows it | evidently intended | confidence | as-written member | corrected member |
|---|---|---|---|---|---|---|
| cli_stat_calculator/stats_module.py:12 | the filter keeps a value only if `str(x).strip().replace('.', '', 1).isdigit()`, so negative numbers and exponent-form floats are silently dropped | `StatisticsCalculator([-5])` raises "No valid numerical data provided."; `[-5, 10]` is reduced to `[10.0]` | keep every int, float or numeric string that `float()` converts, as the docstring's "list of numerical data" says | not executed; high that the code drops them, medium that this is unintended | Stats.NegativeOnlyRefused | Stats.CorrectedStatisticsCalculator |
| cli_stat_calculator/hypothesis_module.py:76 | `chi2_contingency([observed])` treats the counts as a one-row contingency table, whose expected counts equal the observed ones | observed {Yes: 9, No: 1}: the statistic is 0 on 0 degrees of freedom, so the result is never significant | a goodness-of-fit test against equal frequencies, as the docstring at line 70 says (statistic 6.4 on 1 degree of freedom for this input), which is 0 exactly when all counts are equal (ChiSquare.GoodnessOfFitZeroIff) | not executed; high | ChiSquare.ContingencyAlwaysZero | ChiSquare.GoodnessOfFit |
