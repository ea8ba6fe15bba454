/** Accumulated reputation: a moving average that is rounded to two decimals at every step. */
module Reputation {
  import opened Arithmetic
  import opened Wrappers
  import opened Rounding

  datatype AgentRep = AgentRep(avgScore: Option<real>, scoreCount: nat, vetoCount: nat)

  datatype Label = Problematico | LeadCalificado | Recurrente | Neutral

  datatype UserRep = UserRep(avgSentiment: Option<real>, sentimentCount: nat, fraudAttempts: nat, risky: bool,
                             tag: Label)

  /** `merge_avg`. */
  function MergeAvg(oldAvg: Option<real>, oldCount: nat, value: real): real {
    if oldCount == 0 || oldAvg.None? then value
    else (oldAvg.value * oldCount as real + value) / (oldCount + 1) as real
  }

  /** `risk_label`. */
  function RiskLabel(fraudAttempts: nat, avgSentiment: Option<real>, isLead: bool): Label {
    if fraudAttempts >= 2 then Problematico
    else if isLead then LeadCalificado
    else if avgSentiment.Some? && avgSentiment.value >= 4.0 then Recurrente
    else Neutral
  }

  /** The average after all the scores, oldest first, as it is stored. */
  function RunningAverage(scores: seq<int>): Option<real> {
    if scores == [] then None
    else
      var last := |scores| - 1;
      Some(Round2(MergeAvg(RunningAverage(scores[..last]), last, scores[last] as real)))
  }

  function AgentAfter(rep: Option<AgentRep>, score: Option<int>, hasVeto: bool): AgentRep {
    var stored := if rep.Some? then rep.value else AgentRep(None, 0, 0);
    AgentRep(
      if score.Some? then Some(Round2(MergeAvg(stored.avgScore, stored.scoreCount, score.value as real)))
      else stored.avgScore,
      stored.scoreCount + (if score.Some? then 1 else 0),
      stored.vetoCount + (if hasVeto then 1 else 0))
  }

  /** `update_agent_reputation`: the stored record, created on first use. */
  method UpdateAgent(rep: Option<AgentRep>, score: Option<int>, hasVeto: bool) returns (r: AgentRep)
    ensures r == AgentAfter(rep, score, hasVeto)
  {
    r := if rep.Some? then rep.value else AgentRep(None, 0, 0);
    if score.Some? {
      r := r.(avgScore := Some(Round2(MergeAvg(r.avgScore, r.scoreCount, score.value as real))));
      r := r.(scoreCount := r.scoreCount + 1);
    }
    if hasVeto {
      r := r.(vetoCount := r.vetoCount + 1);
    }
  }

  function UserAfter(rep: Option<UserRep>, sentiment: Option<int>, isLead: bool, isFraud: bool): UserRep {
    var stored := if rep.Some? then rep.value else UserRep(None, 0, 0, false, Neutral);
    var avg := if sentiment.Some?
               then Some(Round2(MergeAvg(stored.avgSentiment, stored.sentimentCount, sentiment.value as real)))
               else stored.avgSentiment;
    var frauds := stored.fraudAttempts + (if isFraud then 1 else 0);
    UserRep(avg, stored.sentimentCount + (if sentiment.Some? then 1 else 0), frauds, frauds >= 2,
            RiskLabel(frauds, avg, isLead))
  }

  /** `update_user_reputation`. */
  method UpdateUser(rep: Option<UserRep>, sentiment: Option<int>, isLead: bool, isFraud: bool) returns (r: UserRep)
    ensures r == UserAfter(rep, sentiment, isLead, isFraud)
  {
    r := if rep.Some? then rep.value else UserRep(None, 0, 0, false, Neutral);
    if sentiment.Some? {
      r := r.(avgSentiment := Some(Round2(MergeAvg(r.avgSentiment, r.sentimentCount, sentiment.value as real))));
      r := r.(sentimentCount := r.sentimentCount + 1);
    }
    if isFraud {
      r := r.(fraudAttempts := r.fraudAttempts + 1);
    }
    r := r.(risky := r.fraudAttempts >= 2);
    r := r.(tag := RiskLabel(r.fraudAttempts, r.avgSentiment, isLead));
  }

  /** The label follows from the fraud attempts first, then the lead, then a good average. */
  predicate Labelled(rep: UserRep, isLead: bool) {
    && (rep.tag == Problematico <==> rep.fraudAttempts >= 2)
    && (rep.tag == LeadCalificado <==> rep.fraudAttempts < 2 && isLead)
    && (rep.tag == Recurrente <==> rep.fraudAttempts < 2 && !isLead && GoodAverage(rep))
    && (rep.tag == Neutral <==> rep.fraudAttempts < 2 && !isLead && !GoodAverage(rep))
  }

  predicate GoodAverage(rep: UserRep) {
    rep.avgSentiment.Some? && rep.avgSentiment.value >= 4.0
  }

  function FraudsOf(rep: Option<UserRep>): nat {
    if rep.Some? then rep.value.fraudAttempts else 0
  }

  /** One update of a user: attempts grow by one exactly with a fraud, and two of them make the user risky. */
  lemma UserUpdate(rep: Option<UserRep>, sentiment: Option<int>, isLead: bool, isFraud: bool)
    ensures var r := UserAfter(rep, sentiment, isLead, isFraud);
            && r.fraudAttempts == FraudsOf(rep) + (if isFraud then 1 else 0)
            && (r.risky <==> r.fraudAttempts >= 2)
            && Labelled(r, isLead)
            && (sentiment.None? && rep.Some? ==>
                  r.avgSentiment == rep.value.avgSentiment && r.sentimentCount == rep.value.sentimentCount)
  {
  }

  /** One update extends the history that the stored average stands for. */
  lemma AverageExtends(avg: Option<real>, scores: seq<int>, score: int)
    requires avg == RunningAverage(scores)
    ensures Some(Round2(MergeAvg(avg, |scores|, score as real))) == RunningAverage(scores + [score])
  {
    assert (scores + [score])[..|scores|] == scores;
  }

  // ----- How far the stored average can drift ---------------------------------------------------

  function SumOf(scores: seq<int>): int {
    if scores == [] then 0 else SumOf(scores[..|scores| - 1]) + scores[|scores| - 1]
  }

  predicate AllWithin(scores: seq<int>, low: int, high: int) {
    forall i :: 0 <= i < |scores| ==> low <= scores[i] <= high
  }

  lemma MixBetween(a: real, v: real, n: real, m: real, low: real, high: real)
    requires n >= 0.0 && m == n + 1.0 && low <= a <= high && low <= v <= high
    ensures low <= (a * n + v) / m <= high
  {
    assert low * n <= a * n <= high * n;
    assert low * m == low * n + low && high * m == high * n + high;
    QuotientWithin(a * n + v, m, low, high);
  }

  lemma RoundedWithin(x: real, low: int, high: int)
    requires low as real <= x <= high as real
    ensures low as real <= Round2(x) <= high as real
  {
    Round2Monotone(low as real, x);
    Round2Monotone(x, high as real);
    Round2Integer(low);
    Round2Integer(high);
  }

  lemma RunningStep(scores: seq<int>, v: int)
    requires scores != []
    ensures RunningAverage(scores).Some?
    ensures RunningAverage(scores + [v]) == Some(Round2(MergeAvg(RunningAverage(scores), |scores|, v as real)))
    ensures SumOf(scores + [v]) == SumOf(scores) + v
  {
    assert (scores + [v])[..|scores|] == scores;
  }

  lemma RunningFirst(v: int)
    ensures RunningAverage([v]) == Some(v as real) && SumOf([v]) == v
  {
    assert [v][..0] == [];
    Round2Integer(v);
  }

  /** The stored average never leaves the range of the scores seen. */
  lemma {:induction false} AverageWithinScores(scores: seq<int>, low: int, high: int)
    requires scores != [] && AllWithin(scores, low, high)
    ensures RunningAverage(scores).Some?
    ensures low as real <= RunningAverage(scores).value <= high as real
  {
    var init, v := scores[..|scores| - 1], scores[|scores| - 1];
    assert scores == init + [v];
    if init == [] {
      RunningFirst(v);
    } else {
      AverageWithinScores(init, low, high);
      RunningStep(init, v);
      MergedWithin(RunningAverage(init).value, |init|, v, low, high);
    }
  }

  lemma MergedWithin(a: real, n: nat, v: int, low: int, high: int)
    requires n > 0 && low as real <= a <= high as real && low <= v <= high
    ensures low as real <= Round2(MergeAvg(Some(a), n, v as real)) <= high as real
  {
    MixBetween(a, v as real, n as real, (n + 1) as real, low as real, high as real);
    RoundedWithin(MergeAvg(Some(a), n, v as real), low, high);
  }

  function Abs(x: real): real {
    if x < 0.0 then -x else x
  }

  lemma DriftStep(exact: real, m: real, rounded: real, an: real, v: real, s: real, bound: real)
    requires m > 0.0 && exact * m == an + v && Abs(an - s) <= bound
    requires -0.005 <= rounded - exact <= 0.005
    ensures Abs(rounded * m - (s + v)) <= bound + 0.005 * m
  {
    var e := rounded - exact;
    assert e * m == rounded * m - exact * m;
    Scaled(e, m);
    Triangle(an - s, e * m, bound, 0.005 * m);
  }

  lemma Triangle(x: real, y: real, b: real, c: real)
    requires Abs(x) <= b && -c <= y <= c
    ensures Abs(x + y) <= b + c
  {
  }

  lemma MergeTimes(a: real, n: nat, v: real)
    requires n > 0
    ensures MergeAvg(Some(a), n, v) * (n + 1) as real == a * n as real + v
  {
    var sum, m := a * n as real + v, (n + 1) as real;
    assert sum / m * m == sum;
  }

  lemma Scaled(e: real, m: real)
    requires -0.005 <= e <= 0.005 && m > 0.0
    ensures -(0.005 * m) <= e * m <= 0.005 * m
  {
  }

  /** What n roundings may add up to, scaled by n. */
  function Budget(n: int): real {
    0.0025 * (n * (n + 1) - 2) as real
  }

  lemma BudgetStep(n: int)
    ensures Budget(n) + 0.005 * (n + 1) as real == Budget(n + 1)
  {
    assert (n + 1) * (n + 2) - 2 == (n * (n + 1) - 2) + 2 * (n + 1);
  }

  /** n times the average is off the sum by at most what n roundings may add up to. */
  predicate CloseInTotal(avg: Option<real>, n: nat, sum: int) {
    avg.Some? && Abs(avg.value * n as real - sum as real) <= Budget(n)
  }

  /** The average is off the mean of the n scores by at most 0.0025 (n + 1). */
  predicate CloseToMean(avg: Option<real>, n: nat, sum: int) {
    avg.Some? && n > 0 && Abs(avg.value - sum as real / n as real) <= 0.0025 * (n + 1) as real
  }

  lemma CloseFirst(v: int)
    ensures CloseInTotal(Some(v as real), 1, v)
  {
  }

  lemma CloseStep(a: real, n: nat, sum: int, v: int, rounded: real)
    requires n > 0 && CloseInTotal(Some(a), n, sum)
    requires -0.005 <= rounded - MergeAvg(Some(a), n, v as real) <= 0.005
    ensures CloseInTotal(Some(rounded), n + 1, sum + v)
  {
    var m, exact := (n + 1) as real, MergeAvg(Some(a), n, v as real);
    MergeTimes(a, n, v as real);
    DriftStep(exact, m, rounded, a * n as real, v as real, sum as real, Budget(n));
    BudgetStep(n);
    ExtendDrift(rounded * m, sum, v, Budget(n), 0.005 * m, Budget(n + 1));
  }

  lemma ExtendDrift(x: real, sum: int, v: int, bound: real, more: real, total: real)
    requires Abs(x - (sum as real + v as real)) <= bound + more && bound + more == total
    ensures Abs(x - (sum + v) as real) <= total
  {
    assert (sum + v) as real == sum as real + v as real;
  }

  /** After n scores, n times the stored average is off their sum by at most 0.0025 (n (n + 1) - 2). */
  lemma {:induction false} TotalDrift(scores: seq<int>)
    requires scores != []
    ensures CloseInTotal(RunningAverage(scores), |scores|, SumOf(scores))
  {
    var init, v := scores[..|scores| - 1], scores[|scores| - 1];
    assert scores == init + [v];
    if init == [] {
      RunningFirst(v);
      CloseFirst(v);
      assert scores == [v];
    } else {
      TotalDrift(init);
      RunningStep(init, v);
      CloseStep(RunningAverage(init).value, |init|, SumOf(init), v, RunningAverage(scores).value);
    }
  }

  /** The stored average differs from the true mean of n scores by at most 0.0025 (n + 1). */
  lemma AverageDrift(scores: seq<int>)
    requires scores != []
    ensures CloseToMean(RunningAverage(scores), |scores|, SumOf(scores))
  {
    TotalDrift(scores);
    MeanDrift(RunningAverage(scores), |scores|, SumOf(scores));
  }

  lemma MeanDrift(avg: Option<real>, n: nat, sum: int)
    requires n > 0 && CloseInTotal(avg, n, sum)
    ensures CloseToMean(avg, n, sum)
  {
    BudgetPerScore(n);
    DividedDrift(avg.value, n as real, sum as real, 0.0025 * (n + 1) as real);
  }

  lemma BudgetPerScore(n: int)
    requires n > 0
    ensures Budget(n) <= 0.0025 * (n + 1) as real * n as real
  {
    assert (n * (n + 1) - 2) as real <= (n + 1) as real * n as real;
  }

  lemma DividedDrift(a: real, m: real, s: real, b: real)
    requires m > 0.0 && Abs(a * m - s) <= b * m
    ensures Abs(a - s / m) <= b
  {
    var mean := s / m;
    assert mean * m == s;
    var e := a - mean;
    assert e * m == a * m - s;
    if e > b {
      MulLess(b, e, m);
    }
    if -e > b {
      MulLess(b, -e, m);
      assert (-e) * m == -(e * m);
    }
  }
}
