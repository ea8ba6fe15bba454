/** Control charts per agent: a baseline from the first points, and the Western Electric rules. */
module Spc {
  import opened Wrappers

  datatype Baseline = Baseline(mean: real, std: real, ucl: real, lcl: real, n: nat)

  datatype Rule = Beyond3Sigma | EightSameSide | TrendSix

  datatype Direction = Alto | Bajo

  datatype Violation = Violation(rule: Rule, index: nat, direction: Direction)

  datatype Trend = Degradacion | Mejora | Estable

  datatype SpcSummary = SpcSummary(baseline: Baseline, trend: Trend, violations: seq<Violation>)

  const TREND_LEN := 6
  const SAME_SIDE_LEN := 8
  const BASELINE_N := 20

  // ----- Baseline -------------------------------------------------------------------------------

  function Points(values: seq<Option<real>>): seq<real> {
    if values == [] then []
    else (if values[0].Some? then [values[0].value] else []) + Points(values[1..])
  }

  function Sum(xs: seq<real>): real {
    if xs == [] then 0.0 else xs[0] + Sum(xs[1..])
  }

  function Square(x: real): real {
    x * x
  }

  function SumOfSquares(xs: seq<real>): real {
    if xs == [] then 0.0 else Square(xs[0]) + SumOfSquares(xs[1..])
  }

  function Mean(xs: seq<real>): real
    requires xs != []
  {
    Sum(xs) / |xs| as real
  }

  function Deviations(xs: seq<real>, mean: real): (r: seq<real>)
    ensures |r| == |xs| && forall i :: 0 <= i < |xs| ==> r[i] == xs[i] - mean
  {
    seq(|xs|, i requires 0 <= i < |xs| => xs[i] - mean)
  }

  /** `s` is the sample standard deviation: s^2 (n - 1) is the sum of the squared deviations. */
  predicate IsStdev(xs: seq<real>, s: real)
    requires |xs| >= 2
  {
    s >= 0.0 && Square(s) * (|xs| - 1) as real == SumOfSquares(Deviations(xs, Mean(xs)))
  }

  ghost predicate LawfulStdev(stdev: seq<real> -> real) {
    forall xs :: |xs| >= 2 ==> IsStdev(xs, stdev(xs))
  }

  function Sample(values: seq<Option<real>>, n: nat): seq<real> {
    Points(if n <= |values| then values[..n] else values)
  }

  function BaselineOf(sample: seq<real>, stdev: seq<real> -> real): Baseline
    requires sample != []
  {
    var mean := Mean(sample);
    var std := stdev(sample);
    Baseline(mean, std, mean + 3.0 * std, mean - 3.0 * std, |sample|)
  }

  /** `compute_baseline`; the square root is a parameter. */
  function ComputeBaseline(values: seq<Option<real>>, n: nat, stdev: seq<real> -> real): Option<Baseline> {
    var sample := Sample(values, n);
    if |sample| < 2 then None else Some(BaselineOf(sample, stdev))
  }

  // ----- The rules as windows -------------------------------------------------------------------

  /** Point `i` and the seven before it are all above the mean. */
  predicate EightAbove(pts: seq<real>, mean: real, i: int) {
    SAME_SIDE_LEN - 1 <= i < |pts| && forall j :: i - (SAME_SIDE_LEN - 1) <= j <= i ==> pts[j] > mean
  }

  predicate EightBelow(pts: seq<real>, mean: real, i: int) {
    SAME_SIDE_LEN - 1 <= i < |pts| && forall j :: i - (SAME_SIDE_LEN - 1) <= j <= i ==> pts[j] < mean
  }

  predicate Rises(pts: seq<real>, j: int) {
    0 < j < |pts| && pts[j] > pts[j - 1]
  }

  predicate Falls(pts: seq<real>, j: int) {
    0 < j < |pts| && pts[j] < pts[j - 1]
  }

  /** Point `i` and the five before it rise strictly. */
  predicate SixRising(pts: seq<real>, i: int) {
    TREND_LEN - 1 <= i < |pts| && forall j :: i - (TREND_LEN - 2) <= j <= i ==> Rises(pts, j)
  }

  predicate SixFalling(pts: seq<real>, i: int) {
    TREND_LEN - 1 <= i < |pts| && forall j :: i - (TREND_LEN - 2) <= j <= i ==> Falls(pts, j)
  }

  function When(fires: bool, v: Violation): seq<Violation> {
    if fires then [v] else []
  }

  /** The alarms of the first rule among the first `n` points. */
  function Beyond(pts: seq<real>, b: Baseline, n: nat): seq<Violation>
    requires n <= |pts|
  {
    if n == 0 then []
    else
      var i := n - 1;
      Beyond(pts, b, i)
      + (if pts[i] > b.ucl then [Violation(Beyond3Sigma, i, Alto)]
         else When(pts[i] < b.lcl, Violation(Beyond3Sigma, i, Bajo)))
  }

  function SameSide(pts: seq<real>, mean: real, n: nat): seq<Violation>
    requires n <= |pts|
  {
    if n == 0 then []
    else
      var i := n - 1;
      SameSide(pts, mean, i)
      + When(EightAbove(pts, mean, i), Violation(EightSameSide, i, Alto))
      + When(EightBelow(pts, mean, i), Violation(EightSameSide, i, Bajo))
  }

  function Trends(pts: seq<real>, n: nat): seq<Violation>
    requires n <= |pts|
  {
    if n == 0 then []
    else
      var i := n - 1;
      Trends(pts, i)
      + When(SixRising(pts, i), Violation(TrendSix, i, Alto))
      + When(SixFalling(pts, i), Violation(TrendSix, i, Bajo))
  }

  function Violations(pts: seq<real>, b: Baseline): seq<Violation> {
    Beyond(pts, b, |pts|) + SameSide(pts, b.mean, |pts|) + Trends(pts, |pts|)
  }

  // ----- The loops ------------------------------------------------------------------------------

  function Side(v: real, mean: real): int {
    if v > mean then 1 else if v < mean then -1 else 0
  }

  /** The last `run` of the first `n` points lie on one side, and the point before them does not. */
  predicate RunOfSide(pts: seq<real>, mean: real, n: int, side: int, run: int) {
    && 0 <= run <= n <= |pts| && -1 <= side <= 1
    && (run == 0 <==> side == 0)
    && (forall j :: n - run <= j < n ==> Side(pts[j], mean) == side)
    && (0 < run < n ==> Side(pts[n - run - 1], mean) != side)
    && (run == 0 && n > 0 ==> Side(pts[n - 1], mean) == 0)
  }

  lemma RunShowsWindow(pts: seq<real>, mean: real, n: int, side: int, run: int)
    requires 0 < n && RunOfSide(pts, mean, n, side, run)
    ensures EightAbove(pts, mean, n - 1) <==> run >= SAME_SIDE_LEN && side > 0
    ensures EightBelow(pts, mean, n - 1) <==> run >= SAME_SIDE_LEN && side < 0
  {
    if run < SAME_SIDE_LEN <= n {
      // The point that broke the run, or the one on the mean, lies inside the window.
      var j := if run == 0 then n - 1 else n - run - 1;
      assert Side(pts[j], mean) != side || side == 0;
      assert Side(pts[n - 1], mean) == side;
    }
    if run >= SAME_SIDE_LEN {
      assert Side(pts[n - 1], mean) == side;
    }
  }

  /** The points of the strict rise that ends at point `i`. */
  function UpRun(pts: seq<real>, i: nat): (up: nat)
    requires i < |pts|
    ensures 1 <= up <= i + 1
  {
    if i > 0 && pts[i] > pts[i - 1] then UpRun(pts, i - 1) + 1 else 1
  }

  function DownRun(pts: seq<real>, i: nat): (down: nat)
    requires i < |pts|
    ensures 1 <= down <= i + 1
  {
    if i > 0 && pts[i] < pts[i - 1] then DownRun(pts, i - 1) + 1 else 1
  }

  lemma {:induction false} UpRunIsRise(pts: seq<real>, i: nat)
    requires i < |pts|
    ensures forall j :: i - UpRun(pts, i) + 1 < j <= i ==> Rises(pts, j)
    ensures UpRun(pts, i) <= i ==> !Rises(pts, i - UpRun(pts, i) + 1)
  {
    if i > 0 && pts[i] > pts[i - 1] {
      UpRunIsRise(pts, i - 1);
      assert Rises(pts, i);
    }
  }

  lemma {:induction false} DownRunIsFall(pts: seq<real>, i: nat)
    requires i < |pts|
    ensures forall j :: i - DownRun(pts, i) + 1 < j <= i ==> Falls(pts, j)
    ensures DownRun(pts, i) <= i ==> !Falls(pts, i - DownRun(pts, i) + 1)
  {
    if i > 0 && pts[i] < pts[i - 1] {
      DownRunIsFall(pts, i - 1);
      assert Falls(pts, i);
    }
  }

  lemma RunsShowTrend(pts: seq<real>, i: nat)
    requires i < |pts|
    ensures SixRising(pts, i) <==> UpRun(pts, i) >= TREND_LEN
    ensures SixFalling(pts, i) <==> DownRun(pts, i) >= TREND_LEN
  {
    UpRunIsRise(pts, i);
    DownRunIsFall(pts, i);
  }

  lemma TrendsStep(pts: seq<real>, i: nat)
    requires i < |pts|
    ensures Trends(pts, i + 1) == Trends(pts, i) + When(UpRun(pts, i) >= TREND_LEN, Violation(TrendSix, i, Alto))
              + When(DownRun(pts, i) >= TREND_LEN, Violation(TrendSix, i, Bajo))
  {
    RunsShowTrend(pts, i);
  }

  lemma Appended(was: seq<Violation>, high: bool, v: Violation, low: bool, w: Violation, out: seq<Violation>)
    requires var first := if high then was + [v] else was; out == if low then first + [w] else first
    ensures out == was + When(high, v) + When(low, w)
  {
  }

  method CheckRules(pts: seq<real>, b: Baseline) returns (out: seq<Violation>)
    ensures out == Violations(pts, b)
  {
    out := [];
    for i := 0 to |pts|
      invariant out == Beyond(pts, b, i)
    {
      if pts[i] > b.ucl {
        out := out + [Violation(Beyond3Sigma, i, Alto)];
      } else if pts[i] < b.lcl {
        out := out + [Violation(Beyond3Sigma, i, Bajo)];
      }
    }
    var sides := CheckSides(pts, b.mean);
    var trends := CheckTrends(pts);
    out := out + sides + trends;
  }

  /** Second rule: eight points in a row on the same side of the mean. */
  method CheckSides(pts: seq<real>, mean: real) returns (out: seq<Violation>)
    ensures out == SameSide(pts, mean, |pts|)
  {
    out := [];
    var runSide, side := 0, 0;
    for i := 0 to |pts|
      invariant RunOfSide(pts, mean, i, side, runSide)
      invariant out == SameSide(pts, mean, i)
    {
      var cur := Side(pts[i], mean);
      if cur != 0 && cur == side {
        runSide := runSide + 1;
      } else {
        side, runSide := cur, if cur != 0 then 1 else 0;
      }
      RunShowsWindow(pts, mean, i + 1, side, runSide);
      if runSide >= SAME_SIDE_LEN {
        out := out + [Violation(EightSameSide, i, if side > 0 then Alto else Bajo)];
      }
    }
  }

  /** The two counters after one more point. */
  method CountRuns(pts: seq<real>, i: nat, up: nat, down: nat) returns (rising: nat, falling: nat)
    requires 0 < i < |pts| && up == UpRun(pts, i - 1) && down == DownRun(pts, i - 1)
    ensures rising == UpRun(pts, i) && falling == DownRun(pts, i)
  {
    if pts[i] > pts[i - 1] {
      rising, falling := up + 1, 1;
    } else if pts[i] < pts[i - 1] {
      rising, falling := 1, down + 1;
    } else {
      rising, falling := 1, 1;
    }
  }

  method ReportTrends(was: seq<Violation>, i: nat, up: nat, down: nat) returns (out: seq<Violation>)
    ensures out == was + When(up >= TREND_LEN, Violation(TrendSix, i, Alto))
                       + When(down >= TREND_LEN, Violation(TrendSix, i, Bajo))
  {
    out := was;
    if up >= TREND_LEN {
      out := out + [Violation(TrendSix, i, Alto)];
    }
    if down >= TREND_LEN {
      out := out + [Violation(TrendSix, i, Bajo)];
    }
    Appended(was, up >= TREND_LEN, Violation(TrendSix, i, Alto),
             down >= TREND_LEN, Violation(TrendSix, i, Bajo), out);
  }

  /** Third rule: six points in a row rising or falling. */
  method CheckTrends(pts: seq<real>) returns (out: seq<Violation>)
    ensures out == Trends(pts, |pts|)
  {
    out := [];
    if pts == [] {
      return;
    }
    var up, down := 1, 1;
    TrendsStep(pts, 0);
    for i := 1 to |pts|
      invariant up == UpRun(pts, i - 1) && down == DownRun(pts, i - 1)
      invariant out == Trends(pts, i)
    {
      up, down := CountRuns(pts, i, up, down);
      out := ReportTrends(out, i, up, down);
      TrendsStep(pts, i);
    }
  }

  // ----- Drift ----------------------------------------------------------------------------------

  predicate Fires(violations: seq<Violation>, direction: Direction) {
    exists v :: v in violations && v.direction == direction
  }

  function Drift(violations: seq<Violation>): Trend {
    if violations == [] then Estable
    else if Fires(violations, Bajo) then Degradacion
    else if Fires(violations, Alto) then Mejora
    else Estable
  }

  function Summary(values: seq<Option<real>>, n: nat, stdev: seq<real> -> real): Option<SpcSummary> {
    match ComputeBaseline(values, n, stdev)
    case None => None
    case Some(b) =>
      var violations := Violations(Points(values), b);
      Some(SpcSummary(b, Drift(violations), violations))
  }

  /** `spc_summary`. */
  method Summarize(values: seq<Option<real>>, n: nat, stdev: seq<real> -> real) returns (r: Option<SpcSummary>)
    ensures r == Summary(values, n, stdev)
  {
    var baseline := ComputeBaseline(values, n, stdev);
    if baseline.None? {
      return None;
    }
    var violations := CheckRules(Points(values), baseline.value);
    r := Some(SpcSummary(baseline.value, Drift(violations), violations));
  }

  // ----- What fires, and where ------------------------------------------------------------------

  predicate FiresAt(pts: seq<real>, b: Baseline, v: Violation) {
    && v.index < |pts|
    && match (v.rule, v.direction)
       case (Beyond3Sigma, Alto) => pts[v.index] > b.ucl
       case (Beyond3Sigma, Bajo) => pts[v.index] < b.lcl && !(pts[v.index] > b.ucl)
       case (EightSameSide, Alto) => EightAbove(pts, b.mean, v.index)
       case (EightSameSide, Bajo) => EightBelow(pts, b.mean, v.index)
       case (TrendSix, Alto) => SixRising(pts, v.index)
       case (TrendSix, Bajo) => SixFalling(pts, v.index)
  }

  lemma {:induction false} BeyondMembers(pts: seq<real>, b: Baseline, n: nat, v: Violation)
    requires n <= |pts|
    ensures v in Beyond(pts, b, n) <==> v.rule == Beyond3Sigma && v.index < n && FiresAt(pts, b, v)
  {
    if n == 0 {
    } else {
      BeyondMembers(pts, b, n - 1, v);
    }
  }

  lemma MemberStep(before: seq<Violation>, high: bool, hi: Violation, low: bool, lo: Violation, v: Violation)
    ensures v in before + When(high, hi) + When(low, lo) <==> v in before || (high && v == hi) || (low && v == lo)
  {
  }

  lemma {:induction false} SameSideMembers(pts: seq<real>, b: Baseline, n: nat, v: Violation)
    requires n <= |pts|
    ensures v in SameSide(pts, b.mean, n) <==> v.rule == EightSameSide && v.index < n && FiresAt(pts, b, v)
  {
    if n == 0 {
    } else {
      var i := n - 1;
      SameSideMembers(pts, b, i, v);
      MemberStep(SameSide(pts, b.mean, i), EightAbove(pts, b.mean, i), Violation(EightSameSide, i, Alto),
                 EightBelow(pts, b.mean, i), Violation(EightSameSide, i, Bajo), v);
    }
  }

  predicate TrendBefore(pts: seq<real>, b: Baseline, n: nat, v: Violation) {
    v.rule == TrendSix && v.index < n && FiresAt(pts, b, v)
  }

  lemma TrendBeforeStep(pts: seq<real>, b: Baseline, i: nat, n: nat, v: Violation)
    requires n == i + 1 && n <= |pts|
    ensures TrendBefore(pts, b, n, v)
       <==> (TrendBefore(pts, b, i, v)
             || (SixRising(pts, i) && v == Violation(TrendSix, i, Alto))
             || (SixFalling(pts, i) && v == Violation(TrendSix, i, Bajo)))
  {
  }

  lemma {:induction false} TrendMembers(pts: seq<real>, b: Baseline, n: nat, v: Violation)
    requires n <= |pts|
    ensures v in Trends(pts, n) <==> TrendBefore(pts, b, n, v)
  {
    if n == 0 {
    } else {
      var i := n - 1;
      TrendMembers(pts, b, i, v);
      TrendBeforeStep(pts, b, i, n, v);
      MemberStep(Trends(pts, i), SixRising(pts, i), Violation(TrendSix, i, Alto),
                 SixFalling(pts, i), Violation(TrendSix, i, Bajo), v);
    }
  }

  /** The three loops report exactly the windows that satisfy a rule. */
  lemma ViolationsExactly(pts: seq<real>, b: Baseline, v: Violation)
    ensures v in Violations(pts, b) <==> FiresAt(pts, b, v)
  {
    BeyondMembers(pts, b, |pts|, v);
    SameSideMembers(pts, b, |pts|, v);
    TrendMembers(pts, b, |pts|, v);
  }

  /** The series of scores has an alarm of this direction. */
  ghost predicate Alarms(pts: seq<real>, b: Baseline, direction: Direction) {
    exists v :: FiresAt(pts, b, v) && v.direction == direction
  }

  lemma AlarmsFire(pts: seq<real>, b: Baseline, direction: Direction)
    ensures Fires(Violations(pts, b), direction) <==> Alarms(pts, b, direction)
  {
    forall v ensures v in Violations(pts, b) <==> FiresAt(pts, b, v) {
      ViolationsExactly(pts, b, v);
    }
  }

  /** The label: any low alarm means degradation, otherwise any high one improvement, otherwise stable. */
  lemma TrendOfAlarms(values: seq<Option<real>>, n: nat, stdev: seq<real> -> real)
    requires Summary(values, n, stdev).Some?
    ensures var s := Summary(values, n, stdev).value;
            var low, high := Alarms(Points(values), s.baseline, Bajo), Alarms(Points(values), s.baseline, Alto);
            && (s.trend == Degradacion <==> low)
            && (s.trend == Mejora <==> high && !low)
            && (s.trend == Estable <==> !high && !low)
  {
    var s := Summary(values, n, stdev).value;
    AlarmsFire(Points(values), s.baseline, Bajo);
    AlarmsFire(Points(values), s.baseline, Alto);
    if s.violations != [] {
      assert s.violations[0] in s.violations;
    }
  }

  /** Six points that rise raise a high alarm at the sixth, and eight above the mean at the eighth. */
  lemma ShortestRuns(pts: seq<real>, b: Baseline)
    ensures |pts| == 6 && (forall j :: 1 <= j < 6 ==> pts[j] > pts[j - 1]) ==>
              FiresAt(pts, b, Violation(TrendSix, 5, Alto))
    ensures |pts| == 8 && (forall j :: 0 <= j < 8 ==> pts[j] > b.mean) ==>
              FiresAt(pts, b, Violation(EightSameSide, 7, Alto))
    ensures forall v :: FiresAt(pts, b, v) && v.rule == TrendSix ==> v.index >= 5
    ensures forall v :: FiresAt(pts, b, v) && v.rule == EightSameSide ==> v.index >= 7
  {
  }
}
