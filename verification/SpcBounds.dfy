/**
 * Limits computed from the judged points bound the alarms those points can raise, and the charts
 * treat high and low alike.
 */
module SpcBounds {
  import opened Arithmetic
  import opened Wrappers
  import opened Spc

  // ----- Sums -----------------------------------------------------------------------------------

  lemma {:induction false} SumsConcat(a: seq<real>, b: seq<real>)
    ensures Sum(a + b) == Sum(a) + Sum(b)
    ensures SumOfSquares(a + b) == SumOfSquares(a) + SumOfSquares(b)
  {
    if a == [] {
      assert a + b == b;
    } else {
      assert (a + b)[1..] == a[1..] + b;
      SumsConcat(a[1..], b);
    }
  }

  lemma {:induction false} SquaresNonNegative(xs: seq<real>)
    ensures SumOfSquares(xs) >= 0.0
  {
    if xs == [] {
    } else {
      SquaresNonNegative(xs[1..]);
    }
  }

  lemma SquareNonNegative(x: real)
    ensures Square(x) >= 0.0
  {
  }

  lemma SquareStep(n: real, s: real, q: real, x: real)
    requires n > 0.0 && s * s <= n * q
    ensures (s + x) * (s + x) <= (n + 1.0) * (q + x * x)
  {
    // From (s - n x)^2 >= 0: 2 n s x <= s^2 + n^2 x^2 <= n (q + n x^2).
    SquareNonNegative(s - n * x);
    assert (s - n * x) * (s - n * x) == s * s - n * (2.0 * (s * x)) + n * (n * (x * x));
    assert n * (2.0 * (s * x)) <= n * (q + n * (x * x));
    CancelFactor(n, 2.0 * (s * x), q + n * (x * x));
    assert (s + x) * (s + x) == s * s + 2.0 * (s * x) + x * x;
    assert (n + 1.0) * (q + x * x) == n * q + n * (x * x) + q + x * x;
  }

  lemma CancelFactor(n: real, a: real, b: real)
    requires n > 0.0 && n * a <= n * b
    ensures a <= b
  {
  }

  /** The square of a sum is at most the number of terms times the sum of their squares. */
  lemma {:induction false} SumSquared(xs: seq<real>)
    ensures Square(Sum(xs)) <= |xs| as real * SumOfSquares(xs)
  {
    if |xs| > 1 {
      var rest := xs[1..];
      SumSquared(rest);
      SquareStep(|rest| as real, Sum(rest), SumOfSquares(rest), xs[0]);
    }
  }

  lemma {:induction false} SumOfDeviations(xs: seq<real>, mean: real)
    ensures Sum(Deviations(xs, mean)) == Sum(xs) - |xs| as real * mean
  {
    if xs == [] {
    } else {
      assert Deviations(xs, mean)[1..] == Deviations(xs[1..], mean);
      SumOfDeviations(xs[1..], mean);
    }
  }

  lemma DeviationsCancel(xs: seq<real>)
    requires xs != []
    ensures Sum(Deviations(xs, Mean(xs))) == 0.0
  {
    SumOfDeviations(xs, Mean(xs));
  }

  /** With deviations that cancel out, one of them is limited by all: n d^2 <= (n - 1) times their squares. */
  lemma OneDeviation(ds: seq<real>, i: nat)
    requires i < |ds| && Sum(ds) == 0.0
    ensures |ds| as real * Square(ds[i]) <= (|ds| as real - 1.0) * SumOfSquares(ds)
  {
    var others := ds[..i] + ds[i + 1..];
    Without(ds, i);
    OthersBound(others, ds[i], |ds| - 1);
    OneTerm(|ds| as real, SumOfSquares(others), SumOfSquares(ds), ds[i]);
  }

  lemma OthersBound(others: seq<real>, d: real, m: nat)
    requires |others| == m && Sum(others) == -d
    ensures Square(d) <= ((m + 1) as real - 1.0) * SumOfSquares(others)
  {
    SumSquared(others);
    assert Square(-d) == Square(d) && (m + 1) as real - 1.0 == m as real;
  }

  lemma Without(ds: seq<real>, i: nat)
    requires i < |ds|
    ensures Sum(ds[..i] + ds[i + 1..]) == Sum(ds) - ds[i]
    ensures SumOfSquares(ds[..i] + ds[i + 1..]) == SumOfSquares(ds) - Square(ds[i])
  {
    Middle(ds, i);
    MiddleSums(ds[..i], ds[i], ds[i + 1..]);
  }

  lemma Middle(ds: seq<real>, i: nat)
    requires i < |ds|
    ensures ds == ds[..i] + ([ds[i]] + ds[i + 1..])
  {
  }

  lemma MiddleSums(before: seq<real>, d: real, after: seq<real>)
    ensures Sum(before + ([d] + after)) == Sum(before + after) + d
    ensures SumOfSquares(before + ([d] + after)) == SumOfSquares(before + after) + Square(d)
  {
    SumsConcat(before, [d] + after);
    SumsConcat(before, after);
    HeadSums(d, after);
  }

  lemma HeadSums(d: real, after: seq<real>)
    ensures Sum([d] + after) == d + Sum(after)
    ensures SumOfSquares([d] + after) == Square(d) + SumOfSquares(after)
  {
    assert ([d] + after)[1..] == after;
  }

  lemma OneTerm(n: real, restSquares: real, q: real, d: real)
    requires restSquares == q - Square(d) && Square(d) <= (n - 1.0) * restSquares
    ensures n * Square(d) <= (n - 1.0) * q
  {
    assert (n - 1.0) * (q - d * d) == (n - 1.0) * q - n * (d * d) + d * d;
  }

  // ----- Points beyond three sigma --------------------------------------------------------------

  predicate Far(x: real, b: Baseline) {
    x > b.ucl || x < b.lcl
  }

  /** How many of the points lie outside the limits. */
  function FarCount(xs: seq<real>, b: Baseline): nat {
    if xs == [] then 0 else (if Far(xs[0], b) then 1 else 0) + FarCount(xs[1..], b)
  }

  ghost predicate Charted(sample: seq<real>, b: Baseline) {
    && |sample| >= 2 && b.n == |sample| && b.mean == Mean(sample) && IsStdev(sample, b.std)
    && b.ucl == b.mean + 3.0 * b.std && b.lcl == b.mean - 3.0 * b.std
  }

  lemma FarSquared(x: real, b: Baseline)
    requires b.std >= 0.0 && b.ucl == b.mean + 3.0 * b.std && b.lcl == b.mean - 3.0 * b.std && Far(x, b)
    ensures Square(x - b.mean) > 9.0 * Square(b.std)
  {
    var d, t := x - b.mean, 3.0 * b.std;
    if d > t {
      LargerSquare(d, t);
    } else {
      LargerSquare(-d, t);
      assert (-d) * (-d) == d * d;
    }
    assert t * t == 9.0 * Square(b.std);
  }

  lemma {:induction false} FarPointsAddUp(xs: seq<real>, b: Baseline)
    requires b.std >= 0.0 && b.ucl == b.mean + 3.0 * b.std && b.lcl == b.mean - 3.0 * b.std
    ensures SumOfSquares(Deviations(xs, b.mean)) >= 9.0 * Square(b.std) * FarCount(xs, b) as real
    ensures FarCount(xs, b) > 0 ==>
              SumOfSquares(Deviations(xs, b.mean)) > 9.0 * Square(b.std) * FarCount(xs, b) as real
  {
    if xs == [] {
    } else {
      var d := xs[0] - b.mean;
      assert Deviations(xs, b.mean) == [d] + Deviations(xs[1..], b.mean);
      HeadSums(d, Deviations(xs[1..], b.mean));
      FarPointsAddUp(xs[1..], b);
      SquareNonNegative(d);
      if Far(xs[0], b) {
        FarSquared(xs[0], b);
      }
      OneMore(9.0 * Square(b.std), FarCount(xs[1..], b));
    }
  }

  lemma OneMore(x: real, k: nat)
    ensures x * (1 + k) as real == x + x * k as real
  {
    assert (1 + k) as real == 1.0 + k as real;
  }

  /** `k` points of the sample beyond three sigma need more than 9 k + 1 points in all. */
  lemma FarCountBound(sample: seq<real>, b: Baseline)
    requires Charted(sample, b) && FarCount(sample, b) > 0
    ensures 9 * FarCount(sample, b) < |sample| - 1
  {
    FarPointsAddUp(sample, b);
    SquareNonNegative(b.std);
    var v, k, m := Square(b.std), FarCount(sample, b), |sample| - 1;
    var q := SumOfSquares(Deviations(sample, b.mean));
    assert v * m as real == q;
    CountArithmetic(v, k, m, q);
  }

  lemma CountArithmetic(v: real, k: nat, m: int, q: real)
    requires v >= 0.0 && m >= 0 && v * m as real == q && q > 9.0 * v * k as real
    ensures 9 * k < m
  {
    var k9 := (9 * k) as real;
    assert v * k9 == 9.0 * v * k as real;
    if 9 * k >= m {
      MulAtMost(m as real, k9, v);
    }
  }

  /** A point of the sample beyond its own three sigma limits needs more than nine others around it. */
  lemma FarPointNeedsEleven(sample: seq<real>, b: Baseline, i: nat)
    requires Charted(sample, b) && i < |sample| && Far(sample[i], b)
    ensures |sample| >= 11
  {
    var ds := Deviations(sample, b.mean);
    DeviationsCancel(sample);
    OneDeviation(ds, i);
    FarSquared(sample[i], b);
    SquareNonNegative(b.std);
    FarArithmetic(|sample| as real, Square(b.std), Square(ds[i]), SumOfSquares(ds));
    SmallSquares(|sample|);
  }

  lemma FarArithmetic(n: real, v: real, dd: real, q: real)
    requires n >= 1.0 && v >= 0.0 && q == v * (n - 1.0)
    requires n * dd <= (n - 1.0) * q && dd > 9.0 * v
    ensures (n - 1.0) * (n - 1.0) > 9.0 * n
  {
    var m := n - 1.0;
    assert n * dd > n * (9.0 * v);
    assert m * q == v * (m * m) by {
      assert m * (v * m) == v * (m * m);
    }
    assert n * (9.0 * v) == v * (9.0 * n);
    if m * m <= 9.0 * n {
      MulAtMost(m * m, 9.0 * n, v);
    }
  }

  lemma SmallSquares(n: int)
    ensures 1 <= n <= 10 ==> (n as real - 1.0) * (n as real - 1.0) <= 9.0 * n as real
  {
    assert (n as real - 1.0) * (n as real - 1.0) == ((n - 1) * (n - 1)) as real;
    assert 1 <= n <= 10 ==> (n - 1) * (n - 1) <= 9 * n;
  }

  // ----- Series ---------------------------------------------------------------------------------

  lemma {:induction false} PointsConcat(a: seq<Option<real>>, b: seq<Option<real>>)
    ensures Points(a + b) == Points(a) + Points(b)
  {
    if a == [] {
      assert a + b == b;
    } else {
      assert (a + b)[1..] == a[1..] + b;
      PointsConcat(a[1..], b);
    }
  }

  /** The baseline is charted on the first points of the series it judges. */
  lemma BaselineCharted(values: seq<Option<real>>, n: nat, stdev: seq<real> -> real)
    requires LawfulStdev(stdev)
    requires ComputeBaseline(values, n, stdev).Some?
    ensures var b := ComputeBaseline(values, n, stdev).value;
            b.n <= |Points(values)| && Charted(Points(values)[..b.n], b)
  {
    var sample := Sample(values, n);
    SampleIsPrefix(values, n);
    assert IsStdev(sample, stdev(sample));
  }

  lemma SampleIsPrefix(values: seq<Option<real>>, n: nat)
    ensures |Sample(values, n)| <= |Points(values)| && Points(values)[..|Sample(values, n)|] == Sample(values, n)
  {
    if n <= |values| {
      assert values == values[..n] + values[n..];
      PointsConcat(values[..n], values[n..]);
    }
  }

  lemma {:induction false} PointsAtMost(values: seq<Option<real>>)
    ensures |Points(values)| <= |values|
  {
    if values == [] {
    } else {
      PointsAtMost(values[1..]);
    }
  }

  lemma {:induction false} FarCountMany(xs: seq<real>, b: Baseline, where_: set<int>)
    requires forall i :: i in where_ ==> 0 <= i < |xs| && Far(xs[i], b)
    ensures |where_| <= FarCount(xs, b)
    decreases |xs|
  {
    if xs == [] {
      assert forall i :: i !in where_;
      assert where_ == {};
    } else {
      var last := |xs| - 1;
      var fewer := where_ - {last};
      FarCountInit(xs, b);
      FarCountMany(xs[..last], b, fewer);
      if last in where_ {
        assert where_ == fewer + {last};
      } else {
        assert fewer == where_;
      }
    }
  }

  lemma {:induction false} FarCountInit(xs: seq<real>, b: Baseline)
    requires xs != []
    ensures FarCount(xs, b) == FarCount(xs[..|xs| - 1], b) + (if Far(xs[|xs| - 1], b) then 1 else 0)
  {
    if |xs| > 1 {
      FarCountInit(xs[1..], b);
      assert xs[..|xs| - 1][1..] == xs[1..][..|xs| - 2];
    }
  }

  /** Of the points among the first twenty values, from which the limits come, at most two fire the rule. */
  lemma AtMostTwoOfTheSample(values: seq<Option<real>>, stdev: seq<real> -> real, b: Baseline,
      fired: set<Violation>)
    requires LawfulStdev(stdev) && ComputeBaseline(values, BASELINE_N, stdev) == Some(b)
    requires forall v :: v in fired ==> v in Violations(Points(values), b) && v.rule == Beyond3Sigma && v.index < b.n
    ensures |fired| <= 2
  {
    BaselineCharted(values, BASELINE_N, stdev);
    PointsAtMost(if BASELINE_N <= |values| then values[..BASELINE_N] else values);
    var sample := Points(values)[..b.n];
    forall v | v in fired ensures FiresAt(Points(values), b, v) {
      ViolationsExactly(Points(values), b, v);
    }
    AtMostFarCount(Points(values), b, fired);
    if FarCount(sample, b) > 0 {
      FarCountBound(sample, b);
    }
  }

  lemma AtMostFarCount(pts: seq<real>, b: Baseline, fired: set<Violation>)
    requires b.n <= |pts|
    requires forall v :: v in fired ==> FiresAt(pts, b, v) && v.rule == Beyond3Sigma && v.index < b.n
    ensures |fired| <= FarCount(pts[..b.n], b)
  {
    var indices := set v | v in fired :: v.index as int;
    forall i | i in indices ensures 0 <= i < b.n && Far(pts[..b.n][i], b) {
      var v :| v in fired && v.index == i;
      assert FiresAt(pts, b, v);
    }
    FarCountMany(pts[..b.n], b, indices);
    SameIndexSameViolation(pts, b, fired);
    SizeByIndex(fired, indices);
  }

  lemma SameIndexSameViolation(pts: seq<real>, b: Baseline, fired: set<Violation>)
    requires forall v :: v in fired ==> FiresAt(pts, b, v) && v.rule == Beyond3Sigma
    ensures forall v, w :: v in fired && w in fired && v.index == w.index ==> v == w
  {
  }

  lemma {:induction false} SizeByIndex(fired: set<Violation>, indices: set<int>)
    requires forall v, w :: v in fired && w in fired && v.index == w.index ==> v == w
    requires indices == set v | v in fired :: v.index as int
    ensures |fired| == |indices|
    decreases fired
  {
    if fired != {} {
      var v :| v in fired;
      var rest, restIndices := fired - {v}, indices - {v.index as int};
      assert restIndices == set w | w in rest :: w.index as int;
      SizeByIndex(rest, restIndices);
    }
  }

  /** No point comes after the first `n` values: the baseline is computed from every point. */
  predicate AllInBaseline(values: seq<Option<real>>, n: nat) {
    forall i :: n <= i < |values| ==> values[i].None?
  }

  ghost predicate FiresBeyond(pts: seq<real>, b: Baseline) {
    exists v :: v in Violations(pts, b) && v.rule == Beyond3Sigma
  }

  lemma FewPointsNotFar(pts: seq<real>, b: Baseline, i: nat)
    requires b.n <= |pts| && Charted(pts[..b.n], b) && b.n <= 10 && i < b.n
    ensures !Far(pts[i], b)
  {
    if Far(pts[i], b) {
      FarPointNeedsEleven(pts[..b.n], b, i);
    }
  }

  lemma FarPointFires(pts: seq<real>, b: Baseline, i: nat)
    requires i < |pts| && Far(pts[i], b)
    ensures FiresBeyond(pts, b)
  {
    var v := Violation(Beyond3Sigma, i, if pts[i] > b.ucl then Alto else Bajo);
    ViolationsExactly(pts, b, v);
  }

  lemma OnlyLaterPointsFire(pts: seq<real>, b: Baseline)
    requires b.n <= |pts| && Charted(pts[..b.n], b) && b.n <= 10
    ensures FiresBeyond(pts, b) <==> exists i :: b.n <= i < |pts| && Far(pts[i], b)
  {
    if i :| b.n <= i < |pts| && Far(pts[i], b) {
      FarPointFires(pts, b, i);
    }
    if v :| v in Violations(pts, b) && v.rule == Beyond3Sigma {
      ViolationsExactly(pts, b, v);
      assert Far(pts[v.index], b);
      if v.index < b.n {
        FewPointsNotFar(pts, b, v.index);
      }
    }
  }

  /** Limits computed from at most ten points are only ever left by points that come after those. */
  lemma OnlyLatePointsFire(values: seq<Option<real>>, n: nat, stdev: seq<real> -> real, b: Baseline)
    requires LawfulStdev(stdev) && ComputeBaseline(values, n, stdev) == Some(b) && b.n <= 10
    ensures FiresBeyond(Points(values), b) <==> exists i :: b.n <= i < |Points(values)| && Far(Points(values)[i], b)
  {
    BaselineCharted(values, n, stdev);
    OnlyLaterPointsFire(Points(values), b);
  }

  // ----- Short series, whatever the scores ------------------------------------------------------

  /** The same gaps. */
  predicate SameLayout(a: seq<Option<real>>, b: seq<Option<real>>) {
    |a| == |b| && forall i :: 0 <= i < |a| ==> (a[i].Some? <==> b[i].Some?)
  }

  lemma {:induction false} LayoutCounts(a: seq<Option<real>>, b: seq<Option<real>>)
    requires SameLayout(a, b)
    ensures |Points(a)| == |Points(b)|
  {
    if a == [] {
    } else {
      LayoutCounts(a[1..], b[1..]);
    }
  }

  lemma SampleSize(a: seq<Option<real>>, b: seq<Option<real>>, n: nat)
    requires SameLayout(a, b)
    ensures |Sample(a, n)| == |Sample(b, n)|
  {
    if n <= |a| {
      LayoutCounts(a[..n], b[..n]);
    } else {
      LayoutCounts(a, b);
    }
  }

  lemma AllInSample(values: seq<Option<real>>, n: nat)
    requires AllInBaseline(values, n)
    ensures Sample(values, n) == Points(values)
  {
    if n <= |values| {
      NoPoints(values[n..]);
      PointsConcat(values[..n], values[n..]);
      assert values == values[..n] + values[n..];
    }
  }

  /** No scores in these places fire the three sigma rule. */
  ghost predicate NeverBeyond(values: seq<Option<real>>, n: nat, stdev: seq<real> -> real) {
    forall filled, b :: SameLayout(values, filled) && ComputeBaseline(filled, n, stdev) == Some(b)
      ==> !FiresBeyond(Points(filled), b)
  }

  /** Whatever the scores in these places, an agent that has a chart is labelled stable. */
  ghost predicate AlwaysStable(values: seq<Option<real>>, n: nat, stdev: seq<real> -> real) {
    forall filled :: SameLayout(values, filled) && Summary(filled, n, stdev).Some?
      ==> Summary(filled, n, stdev).value.trend == Estable
  }

  lemma AllInBaselineNeverFires(values: seq<Option<real>>, n: nat, stdev: seq<real> -> real, b: Baseline)
    requires LawfulStdev(stdev) && ComputeBaseline(values, n, stdev) == Some(b)
    requires |Points(values)| <= 10 && AllInBaseline(values, n)
    ensures !FiresBeyond(Points(values), b)
  {
    AllInSample(values, n);
    OnlyLatePointsFire(values, n, stdev, b);
  }

  /** Zeros in the first `n` places, ones after them. */
  function ZerosThenOnes(values: seq<Option<real>>, n: nat): (r: seq<Option<real>>)
    ensures SameLayout(values, r)
  {
    seq(|values|, i requires 0 <= i < |values| =>
      if values[i].None? then None else Some(if i < n then 0.0 else 1.0))
  }

  lemma {:induction false} PointsAreAll(values: seq<Option<real>>, x: real)
    requires forall i :: 0 <= i < |values| && values[i].Some? ==> values[i].value == x
    ensures forall i :: 0 <= i < |Points(values)| ==> Points(values)[i] == x
  {
    if values == [] {
    } else {
      PointsAreAll(values[1..], x);
    }
  }

  lemma {:induction false} SomePoint(values: seq<Option<real>>, i: nat)
    requires i < |values| && values[i].Some?
    ensures Points(values) != []
  {
    if i == 0 {
    } else {
      SomePoint(values[1..], i - 1);
    }
  }

  /** The sample is all zeros, so its limits are at zero; and a one follows. */
  lemma OnesFollow(values: seq<Option<real>>, n: nat, i: nat)
    requires n <= i < |values| && values[i].Some?
    ensures var filled := ZerosThenOnes(values, n);
            && (forall j :: 0 <= j < |Sample(filled, n)| ==> Sample(filled, n)[j] == 0.0)
            && |Sample(filled, n)| < |Points(filled)|
            && Points(filled)[|Sample(filled, n)|] == 1.0
  {
    var filled := ZerosThenOnes(values, n);
    var early, late := filled[..n], filled[n..];
    PointsAreAll(early, 0.0);
    PointsAreAll(late, 1.0);
    SomePoint(late, i - n);
    PointsConcat(early, late);
    assert filled == early + late;
  }

  lemma ZeroSampleChart(sample: seq<real>, s: real)
    requires |sample| >= 2 && IsStdev(sample, s) && forall i :: 0 <= i < |sample| ==> sample[i] == 0.0
    ensures Mean(sample) == 0.0 && s == 0.0
  {
    ConstantSums(sample, 0.0);
    ConstantSums(Deviations(sample, 0.0), 0.0);
    ZeroRoot(s, (|sample| - 1) as real);
  }

  lemma ZeroRoot(s: real, m: real)
    requires s >= 0.0 && m > 0.0 && s * s * m == 0.0
    ensures s == 0.0
  {
    if s > 0.0 {
      LargerSquare(s, 0.0);
    }
  }

  lemma LatePointFires(values: seq<Option<real>>, n: nat, stdev: seq<real> -> real, i: nat)
    requires LawfulStdev(stdev) && |Sample(values, n)| >= 2
    requires n <= i < |values| && values[i].Some?
    ensures var filled := ZerosThenOnes(values, n);
            && ComputeBaseline(filled, n, stdev).Some?
            && var b := ComputeBaseline(filled, n, stdev).value;
               var late := Violation(Beyond3Sigma, b.n, Alto);
               late in Violations(Points(filled), b)
  {
    var filled := ZerosThenOnes(values, n);
    SampleSize(values, filled, n);
    OnesFollow(values, n, i);
    ZeroBaseline(filled, n, stdev);
    HighPointFires(Points(filled), ComputeBaseline(filled, n, stdev).value);
  }

  lemma ZeroBaseline(values: seq<Option<real>>, n: nat, stdev: seq<real> -> real)
    requires LawfulStdev(stdev) && |Sample(values, n)| >= 2
    requires forall j :: 0 <= j < |Sample(values, n)| ==> Sample(values, n)[j] == 0.0
    ensures ComputeBaseline(values, n, stdev) == Some(Baseline(0.0, 0.0, 0.0, 0.0, |Sample(values, n)|))
  {
    var sample := Sample(values, n);
    assert IsStdev(sample, stdev(sample));
    ZeroSampleChart(sample, stdev(sample));
  }

  lemma HighPointFires(pts: seq<real>, b: Baseline)
    requires b.n < |pts| && pts[b.n] > b.ucl
    ensures Violation(Beyond3Sigma, b.n, Alto) in Violations(pts, b)
  {
    ViolationsExactly(pts, b, Violation(Beyond3Sigma, b.n, Alto));
  }

  /**
   * At most ten points never fire the three sigma rule, whatever the scores, exactly when there is no
   * chart or no point comes after the values that the chart is computed from.
   */
  lemma TenPointsNeverBeyond(values: seq<Option<real>>, n: nat, stdev: seq<real> -> real)
    requires LawfulStdev(stdev) && |Points(values)| <= 10
    ensures NeverBeyond(values, n, stdev) <==> |Sample(values, n)| < 2 || AllInBaseline(values, n)
  {
    if |Sample(values, n)| < 2 {
      NoChartNeverBeyond(values, n, stdev);
    } else if AllInBaseline(values, n) {
      TenInBaselineNeverBeyond(values, n, stdev);
    } else {
      LatePointNotNever(values, n, stdev);
    }
  }

  lemma NoChartNeverBeyond(values: seq<Option<real>>, n: nat, stdev: seq<real> -> real)
    requires |Sample(values, n)| < 2
    ensures NeverBeyond(values, n, stdev)
  {
    forall filled | SameLayout(values, filled) ensures ComputeBaseline(filled, n, stdev).None? {
      SampleSize(values, filled, n);
    }
  }

  lemma TenInBaselineNeverBeyond(values: seq<Option<real>>, n: nat, stdev: seq<real> -> real)
    requires LawfulStdev(stdev) && |Points(values)| <= 10 && AllInBaseline(values, n)
    ensures NeverBeyond(values, n, stdev)
  {
    forall filled, b | SameLayout(values, filled) && ComputeBaseline(filled, n, stdev) == Some(b)
      ensures !FiresBeyond(Points(filled), b)
    {
      LayoutCounts(values, filled);
      AllInBaselineNeverFires(filled, n, stdev, b);
    }
  }

  lemma LatePointNotNever(values: seq<Option<real>>, n: nat, stdev: seq<real> -> real)
    requires LawfulStdev(stdev) && |Sample(values, n)| >= 2 && !AllInBaseline(values, n)
    ensures !NeverBeyond(values, n, stdev)
  {
    var i :| n <= i < |values| && values[i].Some?;
    var filled := ZerosThenOnes(values, n);
    LatePointFires(values, n, stdev, i);
    assert FiresBeyond(Points(filled), ComputeBaseline(filled, n, stdev).value);
  }

  lemma FewPointsInBaseline(values: seq<Option<real>>, filled: seq<Option<real>>, n: nat, stdev: seq<real> -> real)
    requires LawfulStdev(stdev) && |Points(values)| <= 5 && AllInBaseline(values, n)
    requires SameLayout(values, filled) && Summary(filled, n, stdev).Some?
    ensures Summary(filled, n, stdev).value.trend == Estable
  {
    LayoutCounts(values, filled);
    FewPointsNoViolation(filled, n, stdev, ComputeBaseline(filled, n, stdev).value);
  }

  /** An agent with at most five scores is labelled stable, whatever they are, under the same condition. */
  lemma FewPointsAreStable(values: seq<Option<real>>, n: nat, stdev: seq<real> -> real)
    requires LawfulStdev(stdev) && |Points(values)| <= 5
    ensures AlwaysStable(values, n, stdev) <==> |Sample(values, n)| < 2 || AllInBaseline(values, n)
  {
    forall filled | SameLayout(values, filled) && Summary(filled, n, stdev).Some?
      ensures AllInBaseline(values, n) ==> Summary(filled, n, stdev).value.trend == Estable
      ensures |Sample(values, n)| >= 2
    {
      SampleSize(values, filled, n);
      if AllInBaseline(values, n) {
        FewPointsInBaseline(values, filled, n, stdev);
      }
    }
    if i :| |Sample(values, n)| >= 2 && n <= i < |values| && values[i].Some? {
      LatePointFires(values, n, stdev, i);
      HighAlarmIsNotStable(ZerosThenOnes(values, n), n, stdev);
    }
  }

  lemma HighAlarmIsNotStable(values: seq<Option<real>>, n: nat, stdev: seq<real> -> real)
    requires Summary(values, n, stdev).Some?
    requires exists v :: v in Summary(values, n, stdev).value.violations && v.direction == Alto
    ensures Summary(values, n, stdev).value.trend != Estable
  {
  }

  lemma FewPointsNoViolation(values: seq<Option<real>>, n: nat, stdev: seq<real> -> real, b: Baseline)
    requires LawfulStdev(stdev) && ComputeBaseline(values, n, stdev) == Some(b)
    requires |Points(values)| <= 5 && AllInBaseline(values, n)
    ensures Violations(Points(values), b) == []
  {
    var violations := Violations(Points(values), b);
    if violations != [] {
      var v := violations[0];
      ViolationsExactly(Points(values), b, v);
      FewPointsNoWindow(Points(values), b, v);
      AllInBaselineNeverFires(values, n, stdev, b);
    }
  }

  /** Two zeros, eighteen gaps and a one: only the zeros make the limits. */
  function LatePoint(): seq<Option<real>> {
    [Some(0.0), Some(0.0)] + seq(18, _ => None) + [Some(1.0)]
  }

  lemma {:induction false} NoPoints(values: seq<Option<real>>)
    requires forall i :: 0 <= i < |values| ==> values[i].None?
    ensures Points(values) == []
  {
    if values == [] {
    } else {
      NoPoints(values[1..]);
    }
  }

  /** With a point that is not in the baseline, three points are enough to raise an alarm. */
  lemma LatePointCanFire(stdev: seq<real> -> real)
    requires LawfulStdev(stdev)
    ensures Points(LatePoint()) == [0.0, 0.0, 1.0] && !AllInBaseline(LatePoint(), BASELINE_N)
    ensures Summary(LatePoint(), BASELINE_N, stdev).Some?
    ensures Violation(Beyond3Sigma, 2, Alto) in Summary(LatePoint(), BASELINE_N, stdev).value.violations
  {
    LatePointShape();
    ZerosThenOne(LatePoint());
    LatePointFires(LatePoint(), BASELINE_N, stdev, BASELINE_N);
  }

  lemma ZerosThenOne(values: seq<Option<real>>)
    requires |values| == BASELINE_N + 1 && values[BASELINE_N] == Some(1.0)
    requires forall i :: 0 <= i < BASELINE_N && values[i].Some? ==> values[i].value == 0.0
    ensures values == ZerosThenOnes(values, BASELINE_N)
  {
  }

  lemma LatePointShape()
    ensures var values := LatePoint();
            && |values| == BASELINE_N + 1 && values[BASELINE_N] == Some(1.0)
            && (forall i :: 0 <= i < BASELINE_N && values[i].Some? ==> values[i].value == 0.0)
            && Points(values) == [0.0, 0.0, 1.0] && Sample(values, BASELINE_N) == [0.0, 0.0]
  {
    LatePointParts([Some(0.0), Some(0.0)], seq(18, _ => None), [Some(1.0)]);
  }

  lemma LatePointParts(head: seq<Option<real>>, gaps: seq<Option<real>>, last: seq<Option<real>>)
    requires head == [Some(0.0), Some(0.0)] && |gaps| == 18 && forall i :: 0 <= i < |gaps| ==> gaps[i].None?
    requires last == [Some(1.0)]
    ensures Points(head + gaps) == [0.0, 0.0] && Points(head + gaps + last) == [0.0, 0.0, 1.0]
    ensures (head + gaps + last)[..BASELINE_N] == head + gaps
  {
    NoPoints(gaps);
    PointsConcat(head, gaps);
    PointsConcat(head + gaps, last);
    assert head[1..] == [Some(0.0)] && head[1..][1..] == [] && last[1..] == [];
    assert Points(head) == [0.0, 0.0] && Points(last) == [1.0];
  }

  lemma FewPointsNoWindow(pts: seq<real>, b: Baseline, v: Violation)
    requires |pts| <= 5 && FiresAt(pts, b, v)
    ensures v.rule == Beyond3Sigma
  {
  }

  /** Eleven is tight: ten zeros and an eleven put the last point beyond the limit. */
  lemma ElevenPointsCanFire(s: real)
    requires s >= 0.0 && s * s == 11.0
    ensures var xs := seq(10, _ => 0.0) + [11.0];
            var b := Baseline(1.0, s, 1.0 + 3.0 * s, 1.0 - 3.0 * s, 11);
            Charted(xs, b) && Far(xs[10], b)
  {
    var zeros := seq(10, _ => 0.0);
    var xs := zeros + [11.0];
    ConstantSums(zeros, 0.0);
    SumsConcat(zeros, [11.0]);
    assert Sum([11.0]) == 11.0;
    assert Mean(xs) == 1.0;
    var low := seq(10, _ => -1.0);
    ConstantSums(low, -1.0);
    SumsConcat(low, [10.0]);
    assert SumOfSquares([10.0]) == 100.0;
    assert Deviations(xs, 1.0) == low + [10.0];
    if 3.0 * s >= 10.0 {
      MulAtMost(10.0, 3.0 * s, 3.0 * s);
    }
  }

  /** Two is attained: eighteen zeros, a nineteen and its opposite put both ends beyond the limits. */
  lemma TwoOfTwentyCanFire(s: real)
    requires s >= 0.0 && s * s == 38.0
    ensures var xs := seq(18, _ => 0.0) + [19.0, -19.0];
            var b := Baseline(0.0, s, 3.0 * s, -(3.0 * s), 20);
            Charted(xs, b) && Far(xs[18], b) && Far(xs[19], b)
  {
    var zeros := seq(18, _ => 0.0);
    var xs := zeros + [19.0, -19.0];
    TwoEndsSums(zeros);
    assert Mean(xs) == 0.0;
    assert Deviations(xs, 0.0) == xs;
    if 3.0 * s >= 19.0 {
      MulAtMost(19.0, 3.0 * s, 3.0 * s);
    }
  }

  lemma TwoEndsSums(zeros: seq<real>)
    requires forall i :: 0 <= i < |zeros| ==> zeros[i] == 0.0
    ensures Sum(zeros + [19.0, -19.0]) == 0.0 && SumOfSquares(zeros + [19.0, -19.0]) == 722.0
  {
    var last := [-19.0];
    ConstantSums(zeros, 0.0);
    SumsConcat(zeros, [19.0, -19.0]);
    HeadSums(19.0, last);
    HeadSums(-19.0, []);
    assert [19.0, -19.0] == [19.0] + last && last == last + [];
  }

  lemma {:induction false} ConstantSums(xs: seq<real>, c: real)
    requires forall i :: 0 <= i < |xs| ==> xs[i] == c
    ensures Sum(xs) == |xs| as real * c
    ensures SumOfSquares(xs) == |xs| as real * Square(c)
  {
    if xs == [] {
    } else {
      ConstantSums(xs[1..], c);
      assert |xs| as real == 1.0 + |xs[1..]| as real;
    }
  }

  // ----- Reflection -----------------------------------------------------------------------------

  function Mirror(pts: seq<real>, mean: real): (r: seq<real>)
    ensures |r| == |pts| && forall i :: 0 <= i < |pts| ==> r[i] == 2.0 * mean - pts[i]
  {
    seq(|pts|, i requires 0 <= i < |pts| => 2.0 * mean - pts[i])
  }

  function Opposite(d: Direction): Direction {
    if d == Alto then Bajo else Alto
  }

  function Flip(v: Violation): Violation {
    v.(direction := Opposite(v.direction))
  }

  function FlipAll(vs: seq<Violation>): seq<Violation> {
    if vs == [] then [] else [Flip(vs[0])] + FlipAll(vs[1..])
  }

  lemma {:induction false} FlipConcat(a: seq<Violation>, b: seq<Violation>)
    ensures FlipAll(a + b) == FlipAll(a) + FlipAll(b)
  {
    if a == [] {
      assert a + b == b;
    } else {
      assert (a + b)[1..] == a[1..] + b;
      FlipConcat(a[1..], b);
    }
  }

  ghost predicate Symmetric(b: Baseline) {
    b.std >= 0.0 && b.ucl == b.mean + 3.0 * b.std && b.lcl == b.mean - 3.0 * b.std
  }

  /** Windows of the mirrored series are the windows of the series, on the other side. */
  lemma MirrorWindows(pts: seq<real>, mean: real, i: nat)
    requires i < |pts|
    ensures EightAbove(Mirror(pts, mean), mean, i) <==> EightBelow(pts, mean, i)
    ensures EightBelow(Mirror(pts, mean), mean, i) <==> EightAbove(pts, mean, i)
    ensures SixRising(Mirror(pts, mean), i) <==> SixFalling(pts, i)
    ensures SixFalling(Mirror(pts, mean), i) <==> SixRising(pts, i)
  {
    var m := Mirror(pts, mean);
    forall j | 0 < j < |pts| ensures Rises(m, j) == Falls(pts, j) && Falls(m, j) == Rises(pts, j) {
    }
  }

  lemma MirrorEight(pts: seq<real>, mean: real, i: nat)
    requires i < |pts|
    ensures EightAbove(Mirror(pts, mean), mean, i) == EightBelow(pts, mean, i)
    ensures EightBelow(Mirror(pts, mean), mean, i) == EightAbove(pts, mean, i)
  {
    MirrorWindows(pts, mean, i);
  }

  lemma MirrorSix(pts: seq<real>, mean: real, i: nat)
    requires i < |pts|
    ensures SixRising(Mirror(pts, mean), i) == SixFalling(pts, i)
    ensures SixFalling(Mirror(pts, mean), i) == SixRising(pts, i)
  {
    MirrorWindows(pts, mean, i);
  }

  /** No window is high and low at once, so the order of the two checks does not show. */
  lemma NotBoth(pts: seq<real>, mean: real, i: nat)
    ensures !(EightAbove(pts, mean, i) && EightBelow(pts, mean, i))
    ensures !(SixRising(pts, i) && SixFalling(pts, i))
  {
    assert i < |pts| ==> !(pts[i] > mean && pts[i] < mean);
    assert i < |pts| ==> !(Rises(pts, i) && Falls(pts, i));
  }

  /** The alarms of a rule after one more point, and those of the mirrored series. */
  lemma FlipStep(before: seq<Violation>, rule: Rule, i: nat, high: bool, low: bool)
    requires !(high && low)
    ensures FlipAll(before) + When(low, Violation(rule, i, Alto)) + When(high, Violation(rule, i, Bajo))
         == FlipAll(before + When(high, Violation(rule, i, Alto)) + When(low, Violation(rule, i, Bajo)))
  {
    var flipped, up, down := FlipAll(before), Violation(rule, i, Alto), Violation(rule, i, Bajo);
    FlipLast(before, up);
    FlipLast(before, down);
    assert before + [] == before && flipped + [] == flipped;
    assert before + [up] + [] == before + [up] && flipped + [up] + [] == flipped + [up];
  }

  lemma BeyondStep(pts: seq<real>, b: Baseline, i: nat)
    requires i < |pts|
    ensures Beyond(pts, b, i + 1) == Beyond(pts, b, i) + When(pts[i] > b.ucl, Violation(Beyond3Sigma, i, Alto))
              + When(pts[i] < b.lcl && !(pts[i] > b.ucl), Violation(Beyond3Sigma, i, Bajo))
  {
    assert Beyond(pts, b, i) + [] == Beyond(pts, b, i);
  }

  lemma SameSideStep(pts: seq<real>, mean: real, i: nat)
    requires i < |pts|
    ensures SameSide(pts, mean, i + 1)
         == SameSide(pts, mean, i) + When(EightAbove(pts, mean, i), Violation(EightSameSide, i, Alto))
              + When(EightBelow(pts, mean, i), Violation(EightSameSide, i, Bajo))
  {
  }

  lemma TrendStep(pts: seq<real>, i: nat)
    requires i < |pts|
    ensures Trends(pts, i + 1) == Trends(pts, i) + When(SixRising(pts, i), Violation(TrendSix, i, Alto))
              + When(SixFalling(pts, i), Violation(TrendSix, i, Bajo))
  {
  }

  lemma {:induction false} MirrorBeyond(pts: seq<real>, b: Baseline, n: nat)
    requires Symmetric(b) && n <= |pts|
    ensures Beyond(Mirror(pts, b.mean), b, n) == FlipAll(Beyond(pts, b, n))
  {
    if n == 0 {
    } else {
      var i := n - 1;
      MirrorBeyond(pts, b, i);
      BeyondStep(pts, b, i);
      BeyondStep(Mirror(pts, b.mean), b, i);
      FlipStep(Beyond(pts, b, i), Beyond3Sigma, i, pts[i] > b.ucl, pts[i] < b.lcl && !(pts[i] > b.ucl));
    }
  }

  lemma {:induction false} MirrorSameSide(pts: seq<real>, mean: real, n: nat)
    requires n <= |pts|
    ensures SameSide(Mirror(pts, mean), mean, n) == FlipAll(SameSide(pts, mean, n))
  {
    if n == 0 {
    } else {
      var i := n - 1;
      MirrorSameSide(pts, mean, i);
      SameSideStep(pts, mean, i);
      SameSideStep(Mirror(pts, mean), mean, i);
      MirrorEight(pts, mean, i);
      NotBoth(pts, mean, i);
      var m, high, low := Mirror(pts, mean), EightAbove(pts, mean, i), EightBelow(pts, mean, i);
      FlipStep(SameSide(pts, mean, i), EightSameSide, i, high, low);
      assert SameSide(m, mean, n) == SameSide(m, mean, i) + When(low, Violation(EightSameSide, i, Alto))
                                     + When(high, Violation(EightSameSide, i, Bajo));
    }
  }

  lemma FlipLast(vs: seq<Violation>, v: Violation)
    ensures FlipAll(vs + [v]) == FlipAll(vs) + [Flip(v)]
  {
    FlipConcat(vs, [v]);
    assert FlipAll([v]) == [Flip(v)];
  }

  lemma {:induction false} MirrorTrends(pts: seq<real>, mean: real, n: nat)
    requires n <= |pts|
    ensures Trends(Mirror(pts, mean), n) == FlipAll(Trends(pts, n))
  {
    if n == 0 {
    } else {
      var i := n - 1;
      MirrorTrends(pts, mean, i);
      TrendStep(pts, i);
      TrendStep(Mirror(pts, mean), i);
      MirrorSix(pts, mean, i);
      NotBoth(pts, mean, i);
      var m, high, low := Mirror(pts, mean), SixRising(pts, i), SixFalling(pts, i);
      FlipStep(Trends(pts, i), TrendSix, i, high, low);
      assert Trends(m, n) == Trends(m, i) + When(low, Violation(TrendSix, i, Alto))
                             + When(high, Violation(TrendSix, i, Bajo));
    }
  }

  /** Reflecting the series about the mean keeps every alarm's rule and index and swaps high and low. */
  lemma MirrorViolations(pts: seq<real>, b: Baseline)
    requires Symmetric(b)
    ensures Violations(Mirror(pts, b.mean), b) == FlipAll(Violations(pts, b))
  {
    MirrorBeyond(pts, b, |pts|);
    MirrorSameSide(pts, b.mean, |pts|);
    MirrorTrends(pts, b.mean, |pts|);
    FlipConcat(Beyond(pts, b, |pts|) + SameSide(pts, b.mean, |pts|), Trends(pts, |pts|));
    FlipConcat(Beyond(pts, b, |pts|), SameSide(pts, b.mean, |pts|));
  }

  /** The reflected sample has the same chart: same mean, same deviation, same limits. */
  lemma MirrorCharted(sample: seq<real>, b: Baseline)
    requires Charted(sample, b)
    ensures Charted(Mirror(sample, b.mean), b)
  {
    var m := Mirror(sample, b.mean);
    MirrorSum(sample, b.mean);
    assert |sample| as real * b.mean == Sum(sample);
    assert Sum(m) == Sum(sample);
    assert Mean(m) == b.mean;
    MirrorSquares(sample, b.mean);
  }

  lemma {:induction false} MirrorSum(xs: seq<real>, mean: real)
    ensures Sum(Mirror(xs, mean)) == 2.0 * (|xs| as real * mean) - Sum(xs)
  {
    if xs == [] {
    } else {
      assert Mirror(xs, mean)[1..] == Mirror(xs[1..], mean);
      MirrorSum(xs[1..], mean);
      assert |xs| as real * mean == mean + |xs[1..]| as real * mean;
    }
  }

  lemma {:induction false} MirrorSquares(xs: seq<real>, mean: real)
    ensures SumOfSquares(Deviations(Mirror(xs, mean), mean)) == SumOfSquares(Deviations(xs, mean))
  {
    if xs == [] {
    } else {
      assert Mirror(xs, mean)[1..] == Mirror(xs[1..], mean);
      assert Deviations(xs, mean)[1..] == Deviations(xs[1..], mean);
      assert Deviations(Mirror(xs, mean), mean)[1..] == Deviations(Mirror(xs[1..], mean), mean);
      MirrorSquares(xs[1..], mean);
      var d := xs[0] - mean;
      assert Deviations(Mirror(xs, mean), mean)[0] == -d && Square(-d) == Square(d);
    }
  }

  /** The scores reflected about `mean`, gaps where they were. */
  function MirrorValues(values: seq<Option<real>>, mean: real): (r: seq<Option<real>>)
    ensures |r| == |values|
  {
    seq(|values|, i requires 0 <= i < |values| =>
      if values[i].None? then None else Some(2.0 * mean - values[i].value))
  }

  lemma {:induction false} MirrorPoints(values: seq<Option<real>>, mean: real)
    ensures Points(MirrorValues(values, mean)) == Mirror(Points(values), mean)
  {
    if values == [] {
    } else {
      var rest := Points(values[1..]);
      MirrorPoints(values[1..], mean);
      assert MirrorValues(values, mean)[1..] == MirrorValues(values[1..], mean);
      if values[0].Some? {
        assert Mirror([values[0].value] + rest, mean) == [2.0 * mean - values[0].value] + Mirror(rest, mean);
      }
    }
  }

  lemma MirrorSample(values: seq<Option<real>>, n: nat, mean: real)
    ensures Sample(MirrorValues(values, mean), n) == Mirror(Sample(values, n), mean)
  {
    if n <= |values| {
      MirrorPoints(values[..n], mean);
      assert MirrorValues(values, mean)[..n] == MirrorValues(values[..n], mean);
    } else {
      MirrorPoints(values, mean);
    }
  }

  lemma RootAtMost(s: real, t: real, m: real, q: real)
    requires s >= 0.0 && t >= 0.0 && m > 0.0 && Square(s) * m == q && Square(t) * m == q
    ensures s <= t
  {
    if s > t {
      LargerSquare(s, t);
      MulLess(Square(t), Square(s), m);
    }
  }

  lemma DeviationIsUnique(xs: seq<real>, s: real, t: real)
    requires |xs| >= 2 && IsStdev(xs, s) && IsStdev(xs, t)
    ensures s == t
  {
    var m, q := (|xs| - 1) as real, SumOfSquares(Deviations(xs, Mean(xs)));
    RootAtMost(s, t, m, q);
    RootAtMost(t, s, m, q);
  }

  /** A reflected series has the same chart, and each alarm of the series on the other side. */
  lemma MirrorSummary(values: seq<Option<real>>, n: nat, stdev: seq<real> -> real)
    requires LawfulStdev(stdev) && Summary(values, n, stdev).Some?
    ensures var chart := Summary(values, n, stdev).value;
            var mirrored := Summary(MirrorValues(values, chart.baseline.mean), n, stdev);
            && mirrored.Some?
            && mirrored.value.baseline == chart.baseline
            && mirrored.value.violations == FlipAll(chart.violations)
  {
    var b := ComputeBaseline(values, n, stdev).value;
    MirrorBaseline(values, n, stdev, b);
    MirrorPoints(values, b.mean);
    MirrorViolations(Points(values), b);
  }

  lemma MirrorBaseline(values: seq<Option<real>>, n: nat, stdev: seq<real> -> real, b: Baseline)
    requires LawfulStdev(stdev) && ComputeBaseline(values, n, stdev) == Some(b)
    ensures Symmetric(b) && ComputeBaseline(MirrorValues(values, b.mean), n, stdev) == Some(b)
  {
    MirrorSample(values, n, b.mean);
    MirroredBaseline(Sample(values, n), Mirror(Sample(values, n), b.mean), stdev, b);
  }

  lemma MirroredBaseline(sample: seq<real>, reflected: seq<real>, stdev: seq<real> -> real, b: Baseline)
    requires LawfulStdev(stdev) && |sample| >= 2 && b == BaselineOf(sample, stdev)
    requires reflected == Mirror(sample, b.mean)
    ensures Symmetric(b) && BaselineOf(reflected, stdev) == b
  {
    assert IsStdev(sample, b.std) && IsStdev(reflected, stdev(reflected));
    assert Charted(sample, b);
    MirrorCharted(sample, b);
    DeviationIsUnique(reflected, b.std, stdev(reflected));
  }
}
