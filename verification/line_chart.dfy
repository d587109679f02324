/**
 * The two aggregations of the line-chart exercise: avgHeightByYear, the
 * running average height of the lighthouses built by each year, and
 * parseReachByYear, the average reach of the lighthouses built by each
 * year from 1831 to 1911. Both read rows of the historical-lighthouses CSV.
 */
module LineChart {
  import opened Js

  // ---------------------------------------------------------------------
  // Running totals over a prefix of the rows
  // ---------------------------------------------------------------------

  /**
   * What a running total adds up: the heights counted for the bucket of a
   * year (avgHeightByYear) or the reaches counted in a year (parseReachByYear).
   */
  datatype Measure = HeightBy(year: int) | ReachIn(year: int)

  /** What `row` adds to the running total of measure `m`, if anything. */
  function Contribution(num: NumberParse, m: Measure, row: Row): (c: Option<nat>)
  {
    match m
    case HeightBy(year) => HeightContribution(num, row, year)
    case ReachIn(year) => ReachContribution(num, row, year)
  }

  /** The amount an optional contribution adds to a running sum. */
  function Amount(c: Option<nat>): (a: nat)
  {
    match c
    case Some(x) => x
    case None => 0
  }

  /** The amount an optional contribution adds to a running count. */
  function Tick(c: Option<nat>): (t: nat)
  {
    if c.Some? then 1 else 0
  }

  /** The sum of what the first `n` rows of `data` contribute. */
  function Total(num: NumberParse, data: seq<Row>, n: nat, m: Measure): (sum: nat)
    requires n <= |data|
  {
    if n == 0 then 0
    else Total(num, data, n - 1, m) + Amount(Contribution(num, m, data[n - 1]))
  }

  /** How many of the first `n` rows of `data` contribute anything. */
  function Contributors(num: NumberParse, data: seq<Row>, n: nat, m: Measure): (count: nat)
    requires n <= |data|
  {
    if n == 0 then 0
    else Contributors(num, data, n - 1, m) + Tick(Contribution(num, m, data[n - 1]))
  }

  /** The positions among the first `n` rows that contribute to measure `m`. */
  function ContributingRows(num: NumberParse, data: seq<Row>, n: nat, m: Measure): (rows: set<nat>)
    requires n <= |data|
  {
    set i: nat | i < n && Contribution(num, m, data[i]).Some?
  }

  /** Extending the prefix by one row adds that row's position exactly when it contributes. */
  lemma {:induction false} ContributingRowsStep(num: NumberParse, data: seq<Row>, n: nat, m: Measure)
    requires 0 < n <= |data|
    ensures var before := ContributingRows(num, data, n - 1, m);
      && n - 1 !in before
      && ContributingRows(num, data, n, m) == if Contribution(num, m, data[n - 1]).Some? then before + {n - 1} else before
  {
  }

  /** Contributors is the number of row positions that contribute. */
  lemma {:induction false} ContributorsCountsRows(num: NumberParse, data: seq<Row>, n: nat, m: Measure)
    requires n <= |data|
    ensures Contributors(num, data, n, m) == |ContributingRows(num, data, n, m)|
  {
    if n > 0 {
      ContributorsCountsRows(num, data, n - 1, m);
      ContributingRowsStep(num, data, n, m);
    }
  }

  /** Totals over the first `n` rows depend only on those rows. */
  lemma {:induction false} TotalsOfSamePrefix(num: NumberParse, d1: seq<Row>, d2: seq<Row>, n: nat, m: Measure)
    requires n <= |d1| && n <= |d2|
    requires forall i | 0 <= i < n :: d1[i] == d2[i]
    ensures Total(num, d1, n, m) == Total(num, d2, n, m)
    ensures Contributors(num, d1, n, m) == Contributors(num, d2, n, m)
  {
    if n > 0 {
      TotalsOfSamePrefix(num, d1, d2, n - 1, m);
    }
  }

  /** `rest` is `data` with the row at position `p` taken out. */
  predicate RowRemoved(data: seq<Row>, p: nat, rest: seq<Row>)
  {
    && p < |data| && |rest| == |data| - 1
    && (forall i | 0 <= i < p :: rest[i] == data[i])
    && (forall i | p <= i < |rest| :: rest[i] == data[i + 1])
  }

  /** Joining `a` and `b` is `a + [row] + b` with `row` taken out. */
  lemma {:induction false} RowRemovedFromJoin(a: seq<Row>, row: Row, b: seq<Row>)
    ensures RowRemoved(a + [row] + b, |a|, a + b)
  {
    var data, rest := a + [row] + b, a + b;
    forall i | |a| <= i < |rest| ensures rest[i] == data[i + 1] {
      assert rest[i] == b[i - |a|];
    }
  }

  /** Taking out a row removes exactly its contribution from every prefix that reaches past it. */
  lemma {:induction false} TotalsWithoutRow(num: NumberParse, data: seq<Row>, p: nat, rest: seq<Row>, n: nat, m: Measure)
    requires RowRemoved(data, p, rest) && p <= n < |data|
    ensures Total(num, data, n + 1, m) == Total(num, rest, n, m) + Amount(Contribution(num, m, data[p]))
    ensures Contributors(num, data, n + 1, m) == Contributors(num, rest, n, m) + Tick(Contribution(num, m, data[p]))
  {
    if n == p {
      TotalsOfSamePrefix(num, data, rest, p, m);
    } else {
      TotalsWithoutRow(num, data, p, rest, n - 1, m);
      assert rest[n - 1] == data[n];
    }
  }

  /**
   * Wherever a row stands, it adds exactly its own contribution: a row
   * that contributes nothing changes neither the total nor the count.
   */
  lemma {:induction false} TotalWithRow(num: NumberParse, a: seq<Row>, row: Row, b: seq<Row>, m: Measure)
    ensures Total(num, a + [row] + b, |a| + 1 + |b|, m) == Total(num, a + b, |a| + |b|, m) + Amount(Contribution(num, m, row))
    ensures Contributors(num, a + [row] + b, |a| + 1 + |b|, m) == Contributors(num, a + b, |a| + |b|, m) + Tick(Contribution(num, m, row))
  {
    RowRemovedFromJoin(a, row, b);
    TotalsWithoutRow(num, a + [row] + b, |a|, a + b, |a| + |b|, m);
  }

  /** When every row that contributes to `small` contributes the same to `large`, totals and counts can only grow. */
  lemma {:induction false} TotalsGrow(num: NumberParse, data: seq<Row>, n: nat, small: Measure, large: Measure)
    requires n <= |data|
    requires forall i | 0 <= i < n && Contribution(num, small, data[i]).Some? ::
      Contribution(num, large, data[i]) == Contribution(num, small, data[i])
    ensures Total(num, data, n, small) <= Total(num, data, n, large)
    ensures Contributors(num, data, n, small) <= Contributors(num, data, n, large)
  {
    if n > 0 {
      TotalsGrow(num, data, n - 1, small, large);
    }
  }

  /** Measures that agree on every row give the same totals. */
  lemma {:induction false} TotalsAgree(num: NumberParse, data: seq<Row>, n: nat, m1: Measure, m2: Measure)
    requires n <= |data|
    requires forall i | 0 <= i < n :: Contribution(num, m1, data[i]) == Contribution(num, m2, data[i])
    ensures Total(num, data, n, m1) == Total(num, data, n, m2)
    ensures Contributors(num, data, n, m1) == Contributors(num, data, n, m2)
  {
    if n > 0 {
      TotalsAgree(num, data, n - 1, m1, m2);
    }
  }

  /** With only positive contributions, the total is 0 exactly when nothing contributes. */
  lemma {:induction false} ZeroTotalIffNoContributors(num: NumberParse, data: seq<Row>, n: nat, m: Measure)
    requires n <= |data|
    requires forall i | 0 <= i < n && Contribution(num, m, data[i]).Some? :: Contribution(num, m, data[i]).value > 0
    ensures Total(num, data, n, m) == 0 <==> Contributors(num, data, n, m) == 0
  {
    if n > 0 {
      ZeroTotalIffNoContributors(num, data, n - 1, m);
    }
  }

  // ---------------------------------------------------------------------
  // avgHeightByYear
  // ---------------------------------------------------------------------

  /** The `step` between bucket years. */
  const Step := 1

  /**
   * One element of avgHeightByYear's output: the running `sum` and `count`
   * of heights for `year`, and `avg_height`, which stays None (the
   * property is absent) until the final pass assigns it.
   */
  datatype Bucket = Bucket(year: int, sum: nat, count: nat, avgHeight: Option<JsNumber>)

  /** `Number(YearBuilt)` when it is positive, i.e. when the row counts as built. */
  function BuiltYear(num: NumberParse, row: Row): (y: Option<nat>)
    ensures y.Some? ==> y.value > 0
  {
    match NumberAt(num, row, "YearBuilt")
    case Some(year) => if year > 0 then Some(year) else None
    case None => None
  }

  /** `Number(Height)` when it is positive. */
  function PositiveHeight(num: NumberParse, row: Row): (h: Option<nat>)
    ensures h.Some? ==> h.value > 0
  {
    match NumberAt(num, row, "Height")
    case Some(height) => if height > 0 then Some(height) else None
    case None => None
  }

  /** What `row` adds to the bucket of `year`: its height, when it was built by then and has one. */
  function HeightContribution(num: NumberParse, row: Row, year: int): (c: Option<nat>)
  {
    match (BuiltYear(num, row), PositiveHeight(num, row))
    case (Some(built), Some(h)) => if built <= year then Some(h) else None
    case _ => None
  }

  /** `Math.min(start, built)`, where `start` begins as Infinity. */
  function MathMin(a: JsNumber, b: int): (m: JsNumber)
  {
    match a
    case Finite(x) => Finite(if x <= b then x else b)
    case Infinity => Finite(b)
    case NaN => NaN
  }

  /** `Math.max(end, built)`. */
  function MathMax(a: int, b: int): (m: int)
  {
    if a >= b then a else b
  }

  /**
   * The `start` of avgHeightByYear over the first `n` rows: Infinity until
   * a row has a positive YearBuilt, then the least such year
   * (EarliestBuiltIsLeast).
   */
  function EarliestBuilt(num: NumberParse, data: seq<Row>, n: nat): (start: JsNumber)
    requires n <= |data|
    ensures start.Infinity? || start.Finite?
  {
    if n == 0 then Infinity
    else
      var start := EarliestBuilt(num, data, n - 1);
      match BuiltYear(num, data[n - 1])
      case Some(built) => MathMin(start, built)
      case None => start
  }

  /**
   * The `end` of avgHeightByYear over the first `n` rows: 0 until a row has
   * a positive YearBuilt, then the greatest such year (LatestBuiltIsGreatest).
   */
  function LatestBuilt(num: NumberParse, data: seq<Row>, n: nat): (end: nat)
    requires n <= |data|
  {
    if n == 0 then 0
    else
      var end := LatestBuilt(num, data, n - 1);
      match BuiltYear(num, data[n - 1])
      case Some(built) => MathMax(end, built)
      case None => end
  }

  /** `start` stays Infinity exactly when no row is built, and is otherwise the least built year. */
  lemma {:induction false} EarliestBuiltIsLeast(num: NumberParse, data: seq<Row>, n: nat)
    requires n <= |data|
    ensures var start := EarliestBuilt(num, data, n);
      && (start.Infinity? <==> forall i | 0 <= i < n :: BuiltYear(num, data[i]).None?)
      && (start.Finite? ==> exists i | 0 <= i < n :: BuiltYear(num, data[i]) == Some(start.n))
      && (start.Finite? ==> forall i | 0 <= i < n && BuiltYear(num, data[i]).Some? :: start.n <= BuiltYear(num, data[i]).value)
  {
    if n > 0 {
      EarliestBuiltIsLeast(num, data, n - 1);
    }
  }

  /** `end` is at least every built year, and is 0 or one of them. */
  lemma {:induction false} LatestBuiltIsGreatest(num: NumberParse, data: seq<Row>, n: nat)
    requires n <= |data|
    ensures var end := LatestBuilt(num, data, n);
      && (forall i | 0 <= i < n && BuiltYear(num, data[i]).Some? :: BuiltYear(num, data[i]).value <= end)
      && (end == 0 || exists i | 0 <= i < n :: BuiltYear(num, data[i]) == Some(end))
  {
    if n > 0 {
      LatestBuiltIsGreatest(num, data, n - 1);
    }
  }

  /** `ToLength`: the length Array.from takes from a number (only integers arise here). */
  function ToLength(x: int): (len: nat)
  {
    if x < 0 then 0 else x
  }

  /**
   * The length avgHeightByYear asks Array.from for: `(end - start) + 1 / step + 1`.
   * With `start` still Infinity that is -Infinity, which ToLength turns into 0.
   */
  function BucketArrayLength(start: JsNumber, end: int): (n: nat)
    ensures n > 0 ==> start.Finite?
  {
    match start
    case Finite(s) => ToLength((end - s) + 1 / Step + 1)
    case _ => 0
  }

  /** The finished bucket for `year`: running sum, count and rounded average over all of `data`. */
  function AvgBucket(num: NumberParse, data: seq<Row>, year: int): (b: Bucket)
  {
    var sum := Total(num, data, |data|, HeightBy(year));
    var count := Contributors(num, data, |data|, HeightBy(year));
    Bucket(year, sum, count, Some(RoundQuotient(sum, count)))
  }

  /** The finished buckets for the years first..last. */
  function YearBuckets(num: NumberParse, data: seq<Row>, first: int, last: int): (out: seq<Bucket>)
  {
    seq(if first <= last then last - first + 1 else 0, i => AvgBucket(num, data, first + i))
  }

  /**
   * What avgHeightByYear returns: nothing when no row has a positive
   * YearBuilt; otherwise one bucket per year from the earliest positive
   * YearBuilt through one year PAST the latest one.
   */
  function AvgHeightBuckets(num: NumberParse, data: seq<Row>): (out: seq<Bucket>)
  {
    match EarliestBuilt(num, data, |data|)
    case Finite(first) => YearBuckets(num, data, first, LatestBuilt(num, data, |data|) + 1)
    case _ => []
  }

  /** A bucket after the second pass has folded in the first `k` rows of `data`. */
  function TalliedBucket(num: NumberParse, data: seq<Row>, k: nat, year: int): (b: Bucket)
    requires k <= |data|
  {
    Bucket(year, Total(num, data, k, HeightBy(year)), Contributors(num, data, k, HeightBy(year)), None)
  }

  /** A bucket once the last pass has given it `avg_height`. */
  function Averaged(b: Bucket): (a: Bucket)
  {
    b.(avgHeight := Some(RoundQuotient(b.sum, b.count)))
  }

  /** With some row built, the bucket array has one slot per year from `start` through `end + 1`. */
  lemma {:induction false} BucketArrayCoversYears(num: NumberParse, data: seq<Row>)
    requires EarliestBuilt(num, data, |data|).Finite?
    ensures var first, end := EarliestBuilt(num, data, |data|).n, LatestBuilt(num, data, |data|);
      first <= end && BucketArrayLength(EarliestBuilt(num, data, |data|), end) == end - first + 2
  {
    EarliestBuiltIsLeast(num, data, |data|);
    LatestBuiltIsGreatest(num, data, |data|);
    var i :| 0 <= i < |data| && BuiltYear(num, data[i]) == Some(EarliestBuilt(num, data, |data|).n);
  }

  /** Every positive YearBuilt has a bucket in the array avgHeightByYear allocates. */
  lemma {:induction false} BuiltYearsInBuckets(num: NumberParse, data: seq<Row>)
    ensures var start, end := EarliestBuilt(num, data, |data|), LatestBuilt(num, data, |data|);
      var first := if start.Finite? then start.n else 0;
      forall i | 0 <= i < |data| && BuiltYear(num, data[i]).Some? ::
        first <= BuiltYear(num, data[i]).value < first + BucketArrayLength(start, end)
  {
    EarliestBuiltIsLeast(num, data, |data|);
    LatestBuiltIsGreatest(num, data, |data|);
    if EarliestBuilt(num, data, |data|).Finite? {
      BucketArrayCoversYears(num, data);
    }
  }

  /** The contribution of a built row with a height: its height from its own year on. */
  lemma {:induction false} ContributionFromBuiltYear(num: NumberParse, row: Row, built: nat, height: nat)
    requires BuiltYear(num, row) == Some(built) && PositiveHeight(num, row) == Some(height)
    ensures forall year :: HeightContribution(num, row, year) == if built <= year then Some(height) else None
  {
  }

  /** Averaging the buckets tallied over all of `data` for the years first..last gives the finished buckets. */
  lemma {:induction false} AveragedTalliesAreOutput(num: NumberParse, data: seq<Row>, first: int, last: int, tallied: seq<Bucket>, output: seq<Bucket>)
    requires first <= last
    requires |tallied| == |output| == last - first + 1
    requires forall j | 0 <= j < |tallied| :: tallied[j] == TalliedBucket(num, data, |data|, first + j)
    requires forall j | 0 <= j < |output| :: output[j] == Averaged(tallied[j])
    ensures output == YearBuckets(num, data, first, last)
  {
    var expected := YearBuckets(num, data, first, last);
    forall j | 0 <= j < |output|
      ensures output[j] == expected[j]
    {
      assert expected[j] == AvgBucket(num, data, first + j);
    }
  }

  /** The first pass of avgHeightByYear: `start` and `end`, the least and greatest positive YearBuilt. */
  method FindBuiltRange(num: NumberParse, data: seq<Row>) returns (start: JsNumber, end: int)
    ensures start == EarliestBuilt(num, data, |data|)
    ensures end == LatestBuilt(num, data, |data|)
  {
    start := Infinity;
    end := 0;
    for k := 0 to |data|
      invariant start == EarliestBuilt(num, data, k)
      invariant end == LatestBuilt(num, data, k)
    {
      var built := NumberAt(num, data[k], "YearBuilt");
      if built.Some? && built.value > 0 {
        start := MathMin(start, built.value);
        end := MathMax(end, built.value);
      }
    }
  }

  /**
   * The inner loop of the second pass: `height` is added to the sum, and 1
   * to the count, of every bucket from index `from` to the end.
   */
  method AddToLaterBuckets(buckets: array<Bucket>, from: nat, height: nat)
    modifies buckets
    ensures forall j | 0 <= j < buckets.Length ::
      buckets[j] == if from <= j then old(buckets[j]).(sum := old(buckets[j]).sum + height, count := old(buckets[j]).count + 1)
                    else old(buckets[j])
  {
    var i := from;
    while i < buckets.Length
      invariant forall j | 0 <= j < buckets.Length ::
        buckets[j] == if from <= j < i then old(buckets[j]).(sum := old(buckets[j]).sum + height, count := old(buckets[j]).count + 1)
                      else old(buckets[j])
    {
      buckets[i] := buckets[i].(sum := buckets[i].sum + height, count := buckets[i].count + 1);
      i := i + 1;
    }
  }

  /**
   * The second pass of avgHeightByYear over buckets for the years
   * `first`, `first` + 1, ...: every built row with a positive height adds
   * to the bucket of its own year and of every later year.
   */
  method TallyHeights(num: NumberParse, data: seq<Row>, buckets: array<Bucket>, first: int)
    requires forall j | 0 <= j < buckets.Length :: buckets[j] == TalliedBucket(num, data, 0, first + j)
    requires forall i | 0 <= i < |data| && BuiltYear(num, data[i]).Some? ::
      first <= BuiltYear(num, data[i]).value < first + buckets.Length
    modifies buckets
    ensures forall j | 0 <= j < buckets.Length :: buckets[j] == TalliedBucket(num, data, |data|, first + j)
  {
    for k := 0 to |data|
      invariant forall j | 0 <= j < buckets.Length :: buckets[j] == TalliedBucket(num, data, k, first + j)
    {
      var yearBuilt := NumberAt(num, data[k], "YearBuilt");
      var isBuilt := yearBuilt.Some? && yearBuilt.value > 0;
      var height := NumberAt(num, data[k], "Height");
      var hasHeight := height.Some? && height.value > 0;
      if isBuilt && hasHeight {
        assert BuiltYear(num, data[k]) == Some(yearBuilt.value);
        ContributionFromBuiltYear(num, data[k], yearBuilt.value, height.value);
        AddToLaterBuckets(buckets, yearBuilt.value - first, height.value);
      }
    }
  }

  /** The last pass of avgHeightByYear: `avg_height = Math.round(sum / count)` in every bucket. */
  method AssignAverages(buckets: array<Bucket>)
    modifies buckets
    ensures forall j | 0 <= j < buckets.Length :: buckets[j] == Averaged(old(buckets[j]))
  {
    for i := 0 to buckets.Length
      invariant forall j | 0 <= j < buckets.Length :: buckets[j] == if j < i then Averaged(old(buckets[j])) else old(buckets[j])
    {
      var sum, count := buckets[i].sum, buckets[i].count;
      buckets[i] := buckets[i].(avgHeight := Some(RoundQuotient(sum, count)));
    }
  }

  /** `Array.from({length}, (_, i) => ({year: start + i * step, sum: 0, count: 0}))`. */
  method NewBuckets(first: int, length: nat) returns (buckets: array<Bucket>)
    ensures fresh(buckets) && buckets.Length == length
    ensures forall j | 0 <= j < length :: buckets[j] == Bucket(first + j, 0, 0, None)
  {
    buckets := new Bucket[length];
    for i := 0 to length
      invariant forall j | 0 <= j < i :: buckets[j] == Bucket(first + j, 0, 0, None)
    {
      buckets[i] := Bucket(first + i * Step, 0, 0, None);
    }
  }

  /** avgHeightByYear: the three passes of the source over a freshly allocated bucket array. */
  method AvgHeightByYear(num: NumberParse, data: seq<Row>) returns (output: seq<Bucket>)
    ensures output == AvgHeightBuckets(num, data)
  {
    var start, end := FindBuiltRange(num, data);
    BuiltYearsInBuckets(num, data);
    if start.Finite? {
      BucketArrayCoversYears(num, data);
    }

    // The array is empty unless `start` is finite, so `first` only stands
    // in for a finite `start`.
    var length := BucketArrayLength(start, end);
    var first := if start.Finite? then start.n else 0;
    var buckets := NewBuckets(first, length);
    assert forall j | 0 <= j < length :: buckets[j] == TalliedBucket(num, data, 0, first + j);

    TallyHeights(num, data, buckets, first);
    ghost var tallied := buckets[..];
    AssignAverages(buckets);
    output := buckets[..];
    if start.Finite? {
      AveragedTalliesAreOutput(num, data, start.n, end + 1, tallied, output);
    }
  }

  /** avgHeightByYear returns no buckets exactly when no row has a positive YearBuilt. */
  lemma {:induction false} AvgHeightBucketsEmpty(num: NumberParse, data: seq<Row>)
    ensures AvgHeightBuckets(num, data) == [] <==> forall i | 0 <= i < |data| :: BuiltYear(num, data[i]).None?
  {
    EarliestBuiltIsLeast(num, data, |data|);
    if EarliestBuilt(num, data, |data|).Finite? {
      BucketArrayCoversYears(num, data);
    }
  }

  /**
   * The layout of a non-empty output: at least two buckets, for
   * consecutive years, each holding the finished bucket of its year.
   */
  lemma {:induction false} AvgHeightBucketLayout(num: NumberParse, data: seq<Row>)
    requires AvgHeightBuckets(num, data) != []
    ensures var out := AvgHeightBuckets(num, data);
      && |out| >= 2
      && forall j | 0 <= j < |out| :: out[j].year == out[0].year + j && out[j] == AvgBucket(num, data, out[j].year)
  {
    BucketArrayCoversYears(num, data);
    YearBucketsLayout(num, data, EarliestBuilt(num, data, |data|).n, LatestBuilt(num, data, |data|) + 1);
  }

  /**
   * The years a non-empty output spans: from the least positive YearBuilt
   * through one year after the greatest, so there are
   * (greatest - least) + 2 buckets.
   */
  lemma {:induction false} AvgHeightBucketRange(num: NumberParse, data: seq<Row>)
    requires AvgHeightBuckets(num, data) != []
    ensures var out := AvgHeightBuckets(num, data);
      && (exists i | 0 <= i < |data| :: BuiltYear(num, data[i]) == Some(out[0].year))
      && (exists i | 0 <= i < |data| :: BuiltYear(num, data[i]) == Some(out[|out| - 1].year - 1))
      && (forall i | 0 <= i < |data| && BuiltYear(num, data[i]).Some? ::
            out[0].year <= BuiltYear(num, data[i]).value <= out[|out| - 1].year - 1)
  {
    var out := AvgHeightBuckets(num, data);
    var first, end := EarliestBuilt(num, data, |data|).n, LatestBuilt(num, data, |data|);
    BucketArrayCoversYears(num, data);
    assert |out| == end - first + 2;
    assert out[0] == AvgBucket(num, data, first) && out[|out| - 1] == AvgBucket(num, data, end + 1);
    EarliestBuiltIsLeast(num, data, |data|);
    LatestBuiltIsGreatest(num, data, |data|);
    var i :| 0 <= i < |data| && BuiltYear(num, data[i]) == Some(end);
  }

  /** YearBuckets holds the finished bucket of each year first..last, in order. */
  lemma {:induction false} YearBucketsLayout(num: NumberParse, data: seq<Row>, first: int, last: int)
    requires first <= last
    ensures var out := YearBuckets(num, data, first, last);
      && |out| == last - first + 1
      && forall j | 0 <= j < |out| :: out[j].year == first + j && out[j] == AvgBucket(num, data, out[j].year)
  {
    var out := YearBuckets(num, data, first, last);
    forall j | 0 <= j < |out|
      ensures out[j].year == first + j && out[j] == AvgBucket(num, data, out[j].year)
    {
      assert out[j] == AvgBucket(num, data, first + j);
    }
  }

  /**
   * Bucket contents: the sum of the bucket for `year` is the total height,
   * and its count the number, of the rows built by that year that have a
   * positive height; avg_height is Math.round(sum / count), which is NaN
   * exactly for an empty bucket and never Infinity.
   */
  lemma {:induction false} AvgBucketContents(num: NumberParse, data: seq<Row>, year: int)
    ensures var b := AvgBucket(num, data, year);
      && b.year == year
      && b.sum == Total(num, data, |data|, HeightBy(year))
      && b.count == |ContributingRows(num, data, |data|, HeightBy(year))|
      && b.avgHeight == Some(RoundQuotient(b.sum, b.count))
      && (b.count == 0 <==> b.sum == 0)
      && (b.count == 0 <==> b.avgHeight == Some(NaN))
      && b.avgHeight != Some(Infinity)
  {
    ContributorsCountsRows(num, data, |data|, HeightBy(year));
    ZeroTotalIffNoContributors(num, data, |data|, HeightBy(year));
  }

  /** A row that is built later than `year` or has no positive height adds nothing to that year's bucket. */
  lemma {:induction false} NonContributingRowIgnored(num: NumberParse, a: seq<Row>, row: Row, b: seq<Row>, year: int)
    requires HeightContribution(num, row, year).None?
    ensures AvgBucket(num, a + [row] + b, year) == AvgBucket(num, a + b, year)
  {
    TotalWithRow(num, a, row, b, HeightBy(year));
  }

  /** The running sum and count never decrease from one year to the next. */
  lemma {:induction false} HeightTotalsGrowWithYear(num: NumberParse, data: seq<Row>, year: int)
    ensures Total(num, data, |data|, HeightBy(year)) <= Total(num, data, |data|, HeightBy(year + 1))
    ensures Contributors(num, data, |data|, HeightBy(year)) <= Contributors(num, data, |data|, HeightBy(year + 1))
  {
    TotalsGrow(num, data, |data|, HeightBy(year), HeightBy(year + 1));
  }

  /** In avgHeightByYear's output, `sum` and `count` never decrease from bucket to bucket. */
  lemma {:induction false} AvgHeightBucketsNeverDecrease(num: NumberParse, data: seq<Row>)
    ensures var out := AvgHeightBuckets(num, data);
      forall j | 0 <= j < |out| - 1 :: out[j].sum <= out[j + 1].sum && out[j].count <= out[j + 1].count
  {
    var out := AvgHeightBuckets(num, data);
    if out != [] {
      AvgHeightBucketLayout(num, data);
    }
    forall j | 0 <= j < |out| - 1
      ensures out[j].sum <= out[j + 1].sum && out[j].count <= out[j + 1].count
    {
      HeightTotalsGrowWithYear(num, data, out[j].year);
    }
  }

  /**
   * The last two buckets (the greatest YearBuilt and the year after it) hold
   * the same sum and count: no row is built in the extra year.
   */
  lemma {:induction false} LastTwoBucketsEqual(num: NumberParse, data: seq<Row>)
    requires AvgHeightBuckets(num, data) != []
    ensures var out := AvgHeightBuckets(num, data);
      |out| >= 2 && out[|out| - 2].sum == out[|out| - 1].sum && out[|out| - 2].count == out[|out| - 1].count
  {
    var out := AvgHeightBuckets(num, data);
    AvgHeightBucketLayout(num, data);
    AvgHeightBucketRange(num, data);
    var last := out[|out| - 1].year - 1;
    forall i | 0 <= i < |data|
      ensures HeightContribution(num, data[i], last) == HeightContribution(num, data[i], last + 1)
    {
    }
    TotalsAgree(num, data, |data|, HeightBy(last), HeightBy(last + 1));
  }

  /** Two lighthouses: one built in 1820, 100 high, one built in 1825, 50 high. */
  function TwoLighthouses(): (data: seq<Row>)
  {
    [map["YearBuilt" := "1820", "Height" := "100"],
     map["YearBuilt" := "1825", "Height" := "50"]]
  }

  /** Their buckets: from 1820 the first lighthouse alone, from 1825 both. */
  lemma {:induction false} TwoLighthousesBuckets(num: NumberParse, year: int)
    requires num("1820") == Some(1820) && num("100") == Some(100) && num("1825") == Some(1825) && num("50") == Some(50)
    ensures 1820 <= year < 1825 ==> AvgBucket(num, TwoLighthouses(), year) == Bucket(year, 100, 1, Some(Finite(100)))
    ensures 1825 <= year ==> AvgBucket(num, TwoLighthouses(), year) == Bucket(year, 150, 2, Some(Finite(75)))
  {
    var data := TwoLighthouses();
    assert BuiltYear(num, data[0]) == Some(1820) && PositiveHeight(num, data[0]) == Some(100);
    assert BuiltYear(num, data[1]) == Some(1825) && PositiveHeight(num, data[1]) == Some(50);
    assert |data| == 2;
    ContributionFromBuiltYear(num, data[0], 1820, 100);
    ContributionFromBuiltYear(num, data[1], 1825, 50);
    var m := HeightBy(year);
    assert Total(num, data, 1, m) == Amount(Contribution(num, m, data[0]));
    assert Contributors(num, data, 1, m) == Tick(Contribution(num, m, data[0]));
    assert Total(num, data, 2, m) == Amount(Contribution(num, m, data[0])) + Amount(Contribution(num, m, data[1]));
    assert Contributors(num, data, 2, m) == Tick(Contribution(num, m, data[0])) + Tick(Contribution(num, m, data[1]));
    if 1820 <= year < 1825 {
      assert Total(num, data, 2, HeightBy(year)) == 100 && Contributors(num, data, 2, HeightBy(year)) == 1;
      assert RoundQuotient(100, 1) == Finite(100);
    } else if 1825 <= year {
      assert Total(num, data, 2, HeightBy(year)) == 150 && Contributors(num, data, 2, HeightBy(year)) == 2;
      assert RoundQuotient(150, 2) == Finite(75);
    }
  }

  /**
   * avgHeightByYear on TwoLighthouses: seven buckets, 1820 through 1826,
   * the last one a year past the latest YearBuilt.
   */
  lemma {:induction false} TwoLighthousesOutput(num: NumberParse)
    requires num("1820") == Some(1820) && num("100") == Some(100) && num("1825") == Some(1825) && num("50") == Some(50)
    ensures var out := AvgHeightBuckets(num, TwoLighthouses());
      && |out| == 7
      && out[0] == Bucket(1820, 100, 1, Some(Finite(100)))
      && out[2] == Bucket(1822, 100, 1, Some(Finite(100)))
      && out[5] == Bucket(1825, 150, 2, Some(Finite(75)))
      && out[6] == Bucket(1826, 150, 2, Some(Finite(75)))
  {
    var data := TwoLighthouses();
    assert BuiltYear(num, data[0]) == Some(1820) && BuiltYear(num, data[1]) == Some(1825);
    assert EarliestBuilt(num, data, 2) == Finite(1820);
    assert LatestBuilt(num, data, 2) == 1825;
    var out := AvgHeightBuckets(num, data);
    assert out == YearBuckets(num, data, 1820, 1826);
    TwoLighthousesBuckets(num, 1820);
    TwoLighthousesBuckets(num, 1822);
    TwoLighthousesBuckets(num, 1825);
    TwoLighthousesBuckets(num, 1826);
  }

  // ---------------------------------------------------------------------
  // parseReachByYear
  // ---------------------------------------------------------------------

  /** The first and last year parseReachByYear visits. */
  const FirstReachYear := 1831
  const LastReachYear := 1911

  /** One element of parseReachByYear's output; `reachAvg` is kept in hundredths. */
  datatype ReachPoint = ReachPoint(year: int, reachAvgHundredths: int)

  /** The reach column read for `year`. */
  function ReachColumn(year: int): (column: string)
  {
    if year < 1851 then "REACH_1831"
    else if year < 1911 then "REACH_1851"
    else "REACH_1911"
  }

  /** `Number(YearBuilt)`, with NaN replaced by 0. */
  function YearBuiltOrZero(num: NumberParse, row: Row): (y: int)
  {
    match NumberAt(num, row, "YearBuilt")
    case Some(year) => year
    case None => 0
  }

  /** What `row` adds in `year`: the reach in that year's column, when the row is built by then and that reach is positive. */
  function ReachContribution(num: NumberParse, row: Row, year: int): (c: Option<nat>)
  {
    if YearBuiltOrZero(num, row) <= year then
      match NumberAt(num, row, ReachColumn(year))
      case Some(reach) => if reach > 0 then Some(reach) else None
      case None => None
    else None
  }

  /** `Math.round((reachSum / lhCount) * 100)`: the average reach in hundredths, before the division by 100. */
  function ReachAvgHundredths(reachSum: nat, lhCount: nat): (r: int)
    requires lhCount > 0
  {
    RoundQuotient(100 * reachSum, lhCount).n
  }

  /** The condition under which parseReachByYear reports `year`. */
  predicate ReportsYear(num: NumberParse, data: seq<Row>, year: int)
  {
    Contributors(num, data, |data|, ReachIn(year)) > 0 && Total(num, data, |data|, ReachIn(year)) > 0
  }

  /** The point reported for `year`. */
  function ReachPointFor(num: NumberParse, data: seq<Row>, year: int): (p: ReachPoint)
    requires ReportsYear(num, data, year)
  {
    ReachPoint(year, ReachAvgHundredths(Total(num, data, |data|, ReachIn(year)), Contributors(num, data, |data|, ReachIn(year))))
  }

  /** The points parseReachByYear has pushed before it reaches `year`. */
  function ReachPointsBefore(num: NumberParse, data: seq<Row>, year: int): (points: seq<ReachPoint>)
    decreases year - FirstReachYear
  {
    if year <= FirstReachYear then []
    else
      ReachPointsBefore(num, data, year - 1)
      + (if ReportsYear(num, data, year - 1) then [ReachPointFor(num, data, year - 1)] else [])
  }

  /**
   * The inner loop of parseReachByYear for one year: `reachSum` and
   * `lhCount` over the lighthouses built by then with a positive reach.
   */
  method SumReaches(num: NumberParse, data: seq<Row>, year: int) returns (reachSum: nat, lhCount: nat)
    ensures reachSum == Total(num, data, |data|, ReachIn(year))
    ensures lhCount == Contributors(num, data, |data|, ReachIn(year))
  {
    reachSum := 0;
    lhCount := 0;
    for k := 0 to |data|
      invariant reachSum == Total(num, data, k, ReachIn(year))
      invariant lhCount == Contributors(num, data, k, ReachIn(year))
    {
      var lighthouse := data[k];
      var parsedYear := NumberAt(num, lighthouse, "YearBuilt");
      var yearBuilt := if parsedYear.None? then 0 else parsedYear.value;
      if yearBuilt <= year {
        var reach: Option<int>;
        if year < 1851 {
          reach := NumberAt(num, lighthouse, "REACH_1831");
        } else if year < 1911 {
          reach := NumberAt(num, lighthouse, "REACH_1851");
        } else {
          reach := NumberAt(num, lighthouse, "REACH_1911");
        }
        if reach.Some? && reach.value > 0 {
          lhCount := lhCount + 1;
          reachSum := reachSum + reach.value;
        }
      }
    }
  }

  /** parseReachByYear: for each year, total the reaches of the lighthouses built by then and push the average. */
  method ParseReachByYear(num: NumberParse, data: seq<Row>) returns (lighthouses: seq<ReachPoint>)
    ensures lighthouses == ReachPointsBefore(num, data, LastReachYear + 1)
  {
    lighthouses := [];
    var end := LastReachYear;
    var year := FirstReachYear;
    while year <= end
      invariant FirstReachYear <= year <= end + 1
      invariant lighthouses == ReachPointsBefore(num, data, year)
    {
      var reachSum, lhCount := SumReaches(num, data, year);
      if lhCount > 0 && reachSum > 0 {
        lighthouses := lighthouses + [ReachPoint(year, ReachAvgHundredths(reachSum, lhCount))];
      }
      year := year + 1;
    }
  }

  /** One more year either pushes nothing or pushes the point for that year. */
  lemma {:induction false} ReachPointsBeforeSplit(num: NumberParse, data: seq<Row>, year: int)
    requires year > FirstReachYear
    ensures var points, before := ReachPointsBefore(num, data, year), ReachPointsBefore(num, data, year - 1);
      && |before| <= |points| <= |before| + 1
      && (forall i | 0 <= i < |before| :: points[i] == before[i])
      && (|points| == |before| + 1 <==> ReportsYear(num, data, year - 1))
      && (|points| == |before| + 1 ==> points[|before|] == ReachPointFor(num, data, year - 1))
  {
  }

  /** The points pushed before `year` have strictly ascending years, all in FirstReachYear..year-1. */
  lemma {:induction false} ReachPointsBeforeAscend(num: NumberParse, data: seq<Row>, year: int)
    ensures var points := ReachPointsBefore(num, data, year);
      && (forall i | 0 <= i < |points| :: FirstReachYear <= points[i].year < year)
      && (forall i, j | 0 <= i < j < |points| :: points[i].year < points[j].year)
    decreases year - FirstReachYear
  {
    if year > FirstReachYear {
      ReachPointsBeforeAscend(num, data, year - 1);
      ReachPointsBeforeSplit(num, data, year);
    }
  }

  /** Every point pushed before `year` is for a reported year, with that year's rounded average. */
  lemma {:induction false} ReachPointsBeforeValues(num: NumberParse, data: seq<Row>, year: int)
    ensures var points := ReachPointsBefore(num, data, year);
      forall i | 0 <= i < |points| ::
        ReportsYear(num, data, points[i].year) && points[i] == ReachPointFor(num, data, points[i].year)
    decreases year - FirstReachYear
  {
    if year > FirstReachYear {
      ReachPointsBeforeValues(num, data, year - 1);
      ReachPointsBeforeSplit(num, data, year);
    }
  }

  /** Every reported year before `year` has been pushed. */
  lemma {:induction false} ReachPointsBeforeComplete(num: NumberParse, data: seq<Row>, year: int)
    ensures var points := ReachPointsBefore(num, data, year);
      forall y | FirstReachYear <= y < year && ReportsYear(num, data, y) :: exists i | 0 <= i < |points| :: points[i].year == y
    decreases year - FirstReachYear
  {
    if year > FirstReachYear {
      ReachPointsBeforeComplete(num, data, year - 1);
      ReachPointsBeforeSplit(num, data, year);
      var points := ReachPointsBefore(num, data, year);
      var before := ReachPointsBefore(num, data, year - 1);
      forall y | FirstReachYear <= y < year && ReportsYear(num, data, y)
        ensures exists i | 0 <= i < |points| :: points[i].year == y
      {
        if y < year - 1 {
          var i :| 0 <= i < |before| && before[i].year == y;
          assert points[i] == before[i];
        } else {
          assert points[|points| - 1].year == y;
        }
      }
    }
  }

  /** Only positive reaches are counted, so `reachSum > 0` holds exactly when `lhCount > 0`. */
  lemma {:induction false} ReachCountedIffPositiveSum(num: NumberParse, data: seq<Row>, year: int)
    ensures Total(num, data, |data|, ReachIn(year)) > 0 <==> Contributors(num, data, |data|, ReachIn(year)) > 0
  {
    ZeroTotalIffNoContributors(num, data, |data|, ReachIn(year));
  }

  /**
   * parseReachByYear's output: years strictly ascending within 1831..1911,
   * a year present exactly when some lighthouse built by then has a
   * positive reach in that year's column, with the average of those reaches.
   */
  lemma {:induction false} ReachByYearShape(num: NumberParse, data: seq<Row>)
    ensures var points := ReachPointsBefore(num, data, LastReachYear + 1);
      && (forall i, j | 0 <= i < j < |points| :: points[i].year < points[j].year)
      && (forall i | 0 <= i < |points| ::
            && FirstReachYear <= points[i].year <= LastReachYear
            && ReportsYear(num, data, points[i].year)
            && points[i] == ReachPointFor(num, data, points[i].year))
      && (forall y | FirstReachYear <= y <= LastReachYear && Contributors(num, data, |data|, ReachIn(y)) > 0 ::
            exists i | 0 <= i < |points| :: points[i].year == y)
  {
    ReachPointsBeforeAscend(num, data, LastReachYear + 1);
    ReachPointsBeforeValues(num, data, LastReachYear + 1);
    ReachPointsBeforeComplete(num, data, LastReachYear + 1);
    forall y | FirstReachYear <= y <= LastReachYear && Contributors(num, data, |data|, ReachIn(y)) > 0
      ensures ReportsYear(num, data, y)
    {
      ReachCountedIffPositiveSum(num, data, y);
    }
  }

  /**
   * A lighthouse whose YearBuilt is not a number counts as built in every
   * year of the range: it adds its reach whenever that reach is positive.
   */
  lemma {:induction false} UnparsedYearBuiltCountsEveryYear(num: NumberParse, a: seq<Row>, row: Row, b: seq<Row>, year: int, reach: nat)
    requires NumberAt(num, row, "YearBuilt").None?
    requires FirstReachYear <= year <= LastReachYear
    requires NumberAt(num, row, ReachColumn(year)) == Some(reach) && reach > 0
    ensures Total(num, a + [row] + b, |a| + 1 + |b|, ReachIn(year)) == Total(num, a + b, |a| + |b|, ReachIn(year)) + reach
    ensures Contributors(num, a + [row] + b, |a| + 1 + |b|, ReachIn(year)) == Contributors(num, a + b, |a| + |b|, ReachIn(year)) + 1
  {
    TotalWithRow(num, a, row, b, ReachIn(year));
  }

  /** A lighthouse built after `year`, or without a positive reach in that year's column, changes nothing. */
  lemma {:induction false} NonPositiveReachIgnored(num: NumberParse, a: seq<Row>, row: Row, b: seq<Row>, year: int)
    requires YearBuiltOrZero(num, row) > year || forall reach :: NumberAt(num, row, ReachColumn(year)) == Some(reach) ==> reach <= 0
    ensures Total(num, a + [row] + b, |a| + 1 + |b|, ReachIn(year)) == Total(num, a + b, |a| + |b|, ReachIn(year))
    ensures Contributors(num, a + [row] + b, |a| + 1 + |b|, ReachIn(year)) == Contributors(num, a + b, |a| + |b|, ReachIn(year))
  {
    TotalWithRow(num, a, row, b, ReachIn(year));
  }

  /** Years before 1851 read REACH_1831, years from 1851 to 1910 read REACH_1851, and only 1911 reads REACH_1911. */
  lemma {:induction false} ReachColumnEras(year: int)
    requires FirstReachYear <= year <= LastReachYear
    ensures ReachColumn(year) == "REACH_1831" <==> year <= 1850
    ensures ReachColumn(year) == "REACH_1851" <==> 1851 <= year <= 1910
    ensures ReachColumn(year) == "REACH_1911" <==> year == LastReachYear
  {
  }
}
