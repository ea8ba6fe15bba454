/** The deterministic score of a rubric: category means, renormalised weights, and the veto cap. */
module RubricScoring {
  import opened Arithmetic
  import opened Wrappers
  import opened Rounding

  /** A judged dimension; without evidence it has no score. */
  datatype Dimension = Dimension(id: string, score: Option<int>)

  datatype Rubric = Rubric(dimensions: seq<Dimension>, vetoFlags: set<string>, confidence: real)

  datatype ScoreResult = ScoreResult(gross: Option<int>, final: Option<int>, hasVeto: bool, vetoFlags: set<string>,
                                     confidence: real, vetoFirm: bool)

  const VETO_CAP := 20
  const ALWAYS_FIRM: set<string> := {"A5_cbu_invalido", "B1_jailbreak"}
  const CATEGORIES: seq<char> := ['A', 'B', 'C', 'D', 'E', 'F']

  function Weight(c: char): (w: real)
    ensures w > 0.0
  {
    match c
    case 'A' => 0.30
    case 'C' => 0.20
    case 'D' => 0.15
    case 'E' => 0.15
    case _ => 0.10
  }

  function Upper(c: char): char {
    if 'a' <= c <= 'z' then (c as int - 32) as char else c
  }

  /** The category of a dimension: the first letter of its id, when it is one of the six. */
  predicate InCategory(d: Dimension, c: char) {
    d.id != [] && Upper(d.id[0]) == c
  }

  /** The judge's schema: scores from 1 to 5. */
  predicate WellFormed(dims: seq<Dimension>) {
    forall i :: 0 <= i < |dims| && dims[i].score.Some? ==> 1 <= dims[i].score.value <= 5
  }

  /** `_norm`: 1 to 5 becomes 0 to 100. */
  function Norm(score: int): real {
    (score - 1) as real / 4.0 * 100.0
  }

  // ----- Category means -------------------------------------------------------------------------

  /** The scores with evidence of one category, in order. */
  function ScoresIn(dims: seq<Dimension>, c: char): seq<int> {
    if dims == [] then []
    else
      var d := dims[|dims| - 1];
      ScoresIn(dims[..|dims| - 1], c) + if d.score.Some? && InCategory(d, c) then [d.score.value] else []
  }

  function SumOfNorms(scores: seq<int>): real {
    if scores == [] then 0.0 else SumOfNorms(scores[..|scores| - 1]) + Norm(scores[|scores| - 1])
  }

  function MeanNorm(scores: seq<int>): real
    requires scores != []
  {
    SumOfNorms(scores) / |scores| as real
  }

  /** The weight of a category, if it is present. */
  function WeightIn(dims: seq<Dimension>, c: char): real {
    if ScoresIn(dims, c) == [] then 0.0 else Weight(c)
  }

  /** Its weighted mean. */
  function PortionOf(scores: seq<int>, c: char): real {
    if scores == [] then 0.0 else Weight(c) * MeanNorm(scores)
  }

  /** The weight of the categories present among the first `k`. */
  function TotalWeight(dims: seq<Dimension>, k: nat): real
    requires k <= |CATEGORIES|
  {
    if k == 0 then 0.0 else TotalWeight(dims, k - 1) + WeightIn(dims, CATEGORIES[k - 1])
  }

  function Weighted(dims: seq<Dimension>, k: nat): real
    requires k <= |CATEGORIES|
  {
    if k == 0 then 0.0
    else Weighted(dims, k - 1) + PortionOf(ScoresIn(dims, CATEGORIES[k - 1]), CATEGORIES[k - 1])
  }

  /** Some dimension has a score in one of the six categories. */
  predicate Scored(dims: seq<Dimension>) {
    Present(dims, |CATEGORIES|)
  }

  lemma WeightShowsScores(dims: seq<Dimension>, j: nat)
    requires j < |CATEGORIES|
    ensures WeightIn(dims, CATEGORIES[j]) >= 0.0
    ensures WeightIn(dims, CATEGORIES[j]) > 0.0 <==> ScoresIn(dims, CATEGORIES[j]) != []
  {
  }

  /** Some dimension has a score in one of the first `k` categories. */
  predicate Present(dims: seq<Dimension>, k: nat)
    requires k <= |CATEGORIES|
  {
    exists j :: 0 <= j < k && ScoresIn(dims, CATEGORIES[j]) != []
  }

  lemma PresentStep(dims: seq<Dimension>, k: nat)
    requires 0 < k <= |CATEGORIES|
    ensures Present(dims, k) <==> Present(dims, k - 1) || ScoresIn(dims, CATEGORIES[k - 1]) != []
  {
  }

  lemma {:induction false} ScoredHasWeight(dims: seq<Dimension>, k: nat)
    requires k <= |CATEGORIES|
    ensures TotalWeight(dims, k) >= 0.0
    ensures TotalWeight(dims, k) > 0.0 <==> Present(dims, k)
  {
    if k == 0 {
    } else {
      ScoredHasWeight(dims, k - 1);
      WeightShowsScores(dims, k - 1);
      PresentStep(dims, k);
    }
  }

  function Gross(dims: seq<Dimension>): Option<int> {
    if !Scored(dims) then None
    else
      ScoredHasWeight(dims, |CATEGORIES|);
      Some(PyRound(Weighted(dims, |CATEGORIES|) / TotalWeight(dims, |CATEGORIES|)))
  }

  /** A veto is firm with a deterministic flag, or with a judged one and enough confidence. */
  predicate Firm(vetoFlags: set<string>, deterministic: set<string>, confidence: real, threshold: real) {
    var vetoSet := vetoFlags + deterministic;
    var firmSet := deterministic + vetoSet * ALWAYS_FIRM;
    vetoSet != {} && (firmSet != {} || (vetoSet - firmSet != {} && confidence >= threshold))
  }

  /** One flag is enough: a deterministic one, one of the two that always are, or any with enough confidence. */
  lemma FirmExactly(vetoFlags: set<string>, deterministic: set<string>, confidence: real, threshold: real)
    ensures Firm(vetoFlags, deterministic, confidence, threshold)
       <==> exists f :: f in vetoFlags + deterministic
              && (f in deterministic || f in {"A5_cbu_invalido", "B1_jailbreak"} || confidence >= threshold)
  {
    var vetoSet := vetoFlags + deterministic;
    var firmSet := deterministic + vetoSet * ALWAYS_FIRM;
    if f :| f in vetoSet && (f in deterministic || f in ALWAYS_FIRM || confidence >= threshold) {
      assert f in firmSet || f in vetoSet - firmSet;
    }
    if firmSet != {} {
      var f :| f in firmSet;
      assert f in vetoSet;
    } else if vetoSet - firmSet != {} {
      var f :| f in vetoSet - firmSet;
      assert f in vetoSet;
    }
  }

  /** 1, if the category has a score. */
  function Here(dims: seq<Dimension>, c: char): real {
    if ScoresIn(dims, c) == [] then 0.0 else 1.0
  }

  /** The mean of the category's scores on the scale from 0 to 100. */
  function Average(dims: seq<Dimension>, c: char): real {
    if ScoresIn(dims, c) == [] then 0.0 else MeanNorm(ScoresIn(dims, c))
  }

  /** The six terms of the formula, in order. */
  function Six(a: real, b: real, c: real, d: real, e: real, f: real): real {
    0.30 * a + 0.10 * b + 0.20 * c + 0.15 * d + 0.15 * e + 0.10 * f
  }

  /** The formula written out over the six categories; an absent one counts in neither sum. */
  lemma GrossFormula(dims: seq<Dimension>)
    ensures Scored(dims) ==>
              var weight := Six(Here(dims, 'A'), Here(dims, 'B'), Here(dims, 'C'), Here(dims, 'D'), Here(dims, 'E'),
                                Here(dims, 'F'));
              var sum := Six(Average(dims, 'A'), Average(dims, 'B'), Average(dims, 'C'), Average(dims, 'D'),
                             Average(dims, 'E'), Average(dims, 'F'));
              weight > 0.0 && Gross(dims) == Some(PyRound(sum / weight))
  {
    WeightFormula(dims);
    SumFormula(dims);
    ScoredHasWeight(dims, 6);
  }

  lemma WeightFormula(dims: seq<Dimension>)
    ensures TotalWeight(dims, 6) == Six(Here(dims, 'A'), Here(dims, 'B'), Here(dims, 'C'), Here(dims, 'D'),
                                        Here(dims, 'E'), Here(dims, 'F'))
  {
    WeightStep(dims, 1, 'A', 0.30);
    WeightStep(dims, 2, 'B', 0.10);
    WeightStep(dims, 3, 'C', 0.20);
    WeightStep(dims, 4, 'D', 0.15);
    WeightStep(dims, 5, 'E', 0.15);
    WeightStep(dims, 6, 'F', 0.10);
  }

  lemma SumFormula(dims: seq<Dimension>)
    ensures Weighted(dims, 6) == Six(Average(dims, 'A'), Average(dims, 'B'), Average(dims, 'C'), Average(dims, 'D'),
                                     Average(dims, 'E'), Average(dims, 'F'))
  {
    var a, b, c := Average(dims, 'A'), Average(dims, 'B'), Average(dims, 'C');
    var three := SumOfThree(dims, a, b, c);
    SumOfSix(dims, three, Average(dims, 'D'), Average(dims, 'E'), Average(dims, 'F'));
  }

  lemma SumOfThree(dims: seq<Dimension>, a: real, b: real, c: real) returns (sum: real)
    requires a == Average(dims, 'A') && b == Average(dims, 'B') && c == Average(dims, 'C')
    ensures Weighted(dims, 3) == sum == 0.30 * a + 0.10 * b + 0.20 * c
  {
    SumStep(dims, 1, 'A', 0.30);
    SumStep(dims, 2, 'B', 0.10);
    SumStep(dims, 3, 'C', 0.20);
    sum := Weighted(dims, 3);
  }

  lemma SumOfSix(dims: seq<Dimension>, three: real, d: real, e: real, f: real)
    requires three == Weighted(dims, 3)
    requires d == Average(dims, 'D') && e == Average(dims, 'E') && f == Average(dims, 'F')
    ensures Weighted(dims, 6) == three + 0.15 * d + 0.15 * e + 0.10 * f
  {
    SumStep(dims, 4, 'D', 0.15);
    SumStep(dims, 5, 'E', 0.15);
    SumStep(dims, 6, 'F', 0.10);
  }

  lemma WeightStep(dims: seq<Dimension>, k: nat, c: char, w: real)
    requires 0 < k <= |CATEGORIES| && CATEGORIES[k - 1] == c && Weight(c) == w
    ensures TotalWeight(dims, k) == (if k == 1 then 0.0 else TotalWeight(dims, k - 1)) + w * Here(dims, c)
  {
  }

  lemma SumStep(dims: seq<Dimension>, k: nat, c: char, w: real)
    requires 0 < k <= |CATEGORIES| && CATEGORIES[k - 1] == c && Weight(c) == w
    ensures Weighted(dims, k) == (if k == 1 then 0.0 else Weighted(dims, k - 1)) + w * Average(dims, c)
  {
  }

  function SumOfScores(scores: seq<int>): int {
    if scores == [] then 0 else SumOfScores(scores[..|scores| - 1]) + scores[|scores| - 1]
  }

  /** The mean on that scale: 1 is 0, 3 is 50, 5 is 100. */
  lemma {:induction false} SumOfNormsIs(scores: seq<int>)
    ensures SumOfNorms(scores) == 25.0 * (SumOfScores(scores) - |scores|) as real
  {
    if scores == [] {
    } else {
      SumOfNormsIs(scores[..|scores| - 1]);
    }
  }

  function Min(a: int, b: int): int {
    if a < b then a else b
  }

  function Final(gross: Option<int>, firm: bool): Option<int> {
    if !firm then gross else if gross.None? then Some(VETO_CAP) else Some(Min(gross.value, VETO_CAP))
  }

  function Scores(rubric: Rubric, deterministic: set<string>, threshold: real): ScoreResult {
    var firm := Firm(rubric.vetoFlags, deterministic, rubric.confidence, threshold);
    var gross := Gross(rubric.dimensions);
    ScoreResult(gross, Final(gross, firm), rubric.vetoFlags + deterministic != {}, rubric.vetoFlags + deterministic,
                rubric.confidence, firm)
  }

  /** The category is the first letter of the id, in either case. */
  lemma CategoryIs(d: Dimension, c: char)
    requires c in CATEGORIES
    ensures InCategory(d, c) <==> d.id != [] && (d.id[0] == c || d.id[0] as int == c as int + 32)
  {
  }

  /** What is reported: a firm veto caps the final score at 20, or reports 20 where there is none. */
  lemma ScoresAre(rubric: Rubric, deterministic: set<string>, threshold: real)
    ensures var r := Scores(rubric, deterministic, threshold);
            && r.vetoFlags == rubric.vetoFlags + deterministic && r.confidence == rubric.confidence
            && (r.hasVeto <==> exists f :: f in rubric.vetoFlags || f in deterministic)
            && (r.vetoFirm <==> Firm(rubric.vetoFlags, deterministic, rubric.confidence, threshold))
            && (r.gross.Some? <==> Scored(rubric.dimensions)) && r.gross == Gross(rubric.dimensions)
            && (!r.vetoFirm ==> r.final == r.gross)
            && (r.vetoFirm && r.gross.None? ==> r.final == Some(20))
            && (r.vetoFirm && r.gross.Some? ==>
                  r.final.Some? && r.final.value <= 20 && r.final.value <= r.gross.value
                  && r.final.value in {20, r.gross.value})
  {
    var all := rubric.vetoFlags + deterministic;
    assert all != {} <==> exists f :: f in all;
  }

  // ----- The code -------------------------------------------------------------------------------

  predicate Groups(byCat: map<char, seq<int>>, dims: seq<Dimension>) {
    && (forall c :: c in byCat ==> c in CATEGORIES)
    && (forall c :: c in CATEGORIES ==>
          if c in byCat then byCat[c] != [] && byCat[c] == ScoresIn(dims, c) else ScoresIn(dims, c) == [])
  }

  lemma GroupOne(byCat: map<char, seq<int>>, dims: seq<Dimension>, d: Dimension)
    requires Groups(byCat, dims)
    ensures var cat := if d.id == [] then ' ' else Upper(d.id[0]);
            Groups(if d.score.None? || cat !in CATEGORIES then byCat
                   else byCat[cat := (if cat in byCat then byCat[cat] else []) + [d.score.value]], dims + [d])
  {
    assert (dims + [d])[..|dims|] == dims;
    assert ' ' !in CATEGORIES;
    forall c | c in CATEGORIES
      ensures ScoresIn(dims + [d], c)
           == ScoresIn(dims, c) + if d.score.Some? && InCategory(d, c) then [d.score.value] else []
    {
    }
  }

  /** Groups the scored dimensions by category. */
  method GroupScores(dims: seq<Dimension>) returns (byCat: map<char, seq<int>>)
    ensures Groups(byCat, dims)
  {
    byCat := map[];
    for i := 0 to |dims|
      invariant Groups(byCat, dims[..i])
    {
      var d := dims[i];
      GroupOne(byCat, dims[..i], d);
      assert dims[..i + 1] == dims[..i] + [d];
      if d.score.None? {
        continue;
      }
      var cat := if d.id == [] then ' ' else Upper(d.id[0]);
      if cat in CATEGORIES {
        byCat := byCat[cat := (if cat in byCat then byCat[cat] else []) + [d.score.value]];
      }
    }
    assert dims[..|dims|] == dims;
  }

  lemma GroupsShowScored(byCat: map<char, seq<int>>, dims: seq<Dimension>)
    requires Groups(byCat, dims)
    ensures byCat == map[] <==> !Scored(dims)
  {
    if byCat != map[] {
      var c :| c in byCat;
      var k :| 0 <= k < |CATEGORIES| && CATEGORIES[k] == c;
    }
    forall k | 0 <= k < |CATEGORIES| && ScoresIn(dims, CATEGORIES[k]) != [] ensures byCat != map[] {
      assert CATEGORIES[k] in CATEGORIES && CATEGORIES[k] in byCat;
    }
  }

  lemma GroupsShowCategory(byCat: map<char, seq<int>>, dims: seq<Dimension>, c: char)
    requires Groups(byCat, dims) && c in CATEGORIES
    ensures c in byCat ==> ScoresIn(dims, c) == byCat[c] != []
    ensures c !in byCat ==> ScoresIn(dims, c) == []
  {
  }

  method WeighCategories(byCat: map<char, seq<int>>, ghost dims: seq<Dimension>)
    returns (totalWeight: real, weighted: real)
    requires Groups(byCat, dims)
    ensures totalWeight == TotalWeight(dims, |CATEGORIES|) && weighted == Weighted(dims, |CATEGORIES|)
  {
    totalWeight, weighted := 0.0, 0.0;
    for k := 0 to |CATEGORIES|
      invariant totalWeight == TotalWeight(dims, k)
      invariant weighted == Weighted(dims, k)
    {
      var c := CATEGORIES[k];
      GroupsShowCategory(byCat, dims, c);
      if c in byCat {
        totalWeight := totalWeight + Weight(c);
        weighted := weighted + PortionOf(byCat[c], c);
      }
    }
  }

  /** The weighted mean over the categories present. */
  method GrossScore(byCat: map<char, seq<int>>, ghost dims: seq<Dimension>) returns (gross: int)
    requires Groups(byCat, dims) && byCat != map[]
    ensures Gross(dims) == Some(gross)
  {
    var totalWeight, weighted := WeighCategories(byCat, dims);
    GroupsShowScored(byCat, dims);
    ScoredHasWeight(dims, |CATEGORIES|);
    gross := PyRound(weighted / totalWeight);
  }

  /** `compute_scores`; both spellings of the deterministic flags are given as one set. */
  method ComputeScores(rubric: Rubric, deterministic: set<string>, threshold: real) returns (r: ScoreResult)
    ensures r == Scores(rubric, deterministic, threshold)
  {
    var byCat := GroupScores(rubric.dimensions);
    GroupsShowScored(byCat, rubric.dimensions);
    var vetoSet := rubric.vetoFlags + deterministic;
    var hasVeto := vetoSet != {};
    var firmSet := deterministic + vetoSet * ALWAYS_FIRM;
    var judged := vetoSet - firmSet;
    var firm := hasVeto && (firmSet != {} || (judged != {} && rubric.confidence >= threshold));
    if byCat == map[] {
      return ScoreResult(None, if firm then Some(VETO_CAP) else None, hasVeto, vetoSet, rubric.confidence, firm);
    }
    var gross := GrossScore(byCat, rubric.dimensions);
    var final := if firm then Min(gross, VETO_CAP) else gross;
    r := ScoreResult(Some(gross), Some(final), hasVeto, vetoSet, rubric.confidence, firm);
  }

  // ----- Bounds ---------------------------------------------------------------------------------

  predicate NormsWithin(dims: seq<Dimension>, low: real, high: real) {
    forall i :: 0 <= i < |dims| && dims[i].score.Some? ==> low <= Norm(dims[i].score.value) <= high
  }

  lemma {:induction false} CategoryWithin(dims: seq<Dimension>, c: char, low: real, high: real)
    requires NormsWithin(dims, low, high)
    ensures forall i :: 0 <= i < |ScoresIn(dims, c)| ==> low <= Norm(ScoresIn(dims, c)[i]) <= high
  {
    if dims == [] {
    } else {
      CategoryWithin(dims[..|dims| - 1], c, low, high);
    }
  }

  lemma {:induction false} SumWithin(scores: seq<int>, low: real, high: real)
    requires forall i :: 0 <= i < |scores| ==> low <= Norm(scores[i]) <= high
    ensures low * |scores| as real <= SumOfNorms(scores) <= high * |scores| as real
  {
    if scores == [] {
    } else {
      var last := |scores| - 1;
      SumWithin(scores[..last], low, high);
      OneMoreWithin(SumOfNorms(scores[..last]), Norm(scores[last]), last, low, high);
    }
  }

  lemma OneMoreWithin(sum: real, x: real, n: nat, low: real, high: real)
    requires low * n as real <= sum <= high * n as real && low <= x <= high
    ensures low * (n + 1) as real <= sum + x <= high * (n + 1) as real
  {
    OneMore(low, n);
    OneMore(high, n);
  }

  lemma OneMore(x: real, n: nat)
    ensures x * (n + 1) as real == x * n as real + x
  {
    assert (n + 1) as real == n as real + 1.0;
  }

  lemma MeanWithin(scores: seq<int>, low: real, high: real)
    requires scores != [] && forall i :: 0 <= i < |scores| ==> low <= Norm(scores[i]) <= high
    ensures low <= MeanNorm(scores) <= high
  {
    SumWithin(scores, low, high);
    QuotientWithin(SumOfNorms(scores), |scores| as real, low, high);
  }

  /** `x` is `weight` times something between `low` and `high`. */
  predicate Share(x: real, weight: real, low: real, high: real) {
    low * weight <= x <= high * weight
  }

  lemma ShareAdd(x: real, v: real, y: real, w: real, low: real, high: real)
    requires Share(x, v, low, high) && Share(y, w, low, high)
    ensures Share(x + y, v + w, low, high)
  {
    assert low * (v + w) == low * v + low * w;
    assert high * (v + w) == high * v + high * w;
  }

  lemma PortionWithin(dims: seq<Dimension>, c: char, low: real, high: real)
    requires NormsWithin(dims, low, high)
    ensures Share(PortionOf(ScoresIn(dims, c), c), WeightIn(dims, c), low, high)
  {
    var scores := ScoresIn(dims, c);
    if scores != [] {
      CategoryWithin(dims, c, low, high);
      MeanWithin(scores, low, high);
      MulAtMost(low, MeanNorm(scores), Weight(c));
      MulAtMost(MeanNorm(scores), high, Weight(c));
    }
  }

  lemma {:induction false} WeightedWithin(dims: seq<Dimension>, k: nat, low: real, high: real)
    requires k <= |CATEGORIES| && NormsWithin(dims, low, high)
    ensures Share(Weighted(dims, k), TotalWeight(dims, k), low, high)
  {
    if k == 0 {
    } else {
      var c := CATEGORIES[k - 1];
      WeightedWithin(dims, k - 1, low, high);
      PortionWithin(dims, c, low, high);
      ShareAdd(Weighted(dims, k - 1), TotalWeight(dims, k - 1), PortionOf(ScoresIn(dims, c), c), WeightIn(dims, c),
               low, high);
    }
  }

  /** The gross score lies between the rounded extremes of the normalised dimensions. */
  lemma GrossWithin(dims: seq<Dimension>, low: real, high: real)
    requires Scored(dims) && NormsWithin(dims, low, high)
    ensures Gross(dims).Some? && PyRound(low) <= Gross(dims).value <= PyRound(high)
  {
    var k := |CATEGORIES|;
    ScoredHasWeight(dims, k);
    WeightedWithin(dims, k, low, high);
    var mean := Weighted(dims, k) / TotalWeight(dims, k);
    QuotientWithin(Weighted(dims, k), TotalWeight(dims, k), low, high);
    PyRoundMonotone(low, mean);
    PyRoundMonotone(mean, high);
  }

  /** With the judge's scores from 1 to 5, hence between 0 and 100. */
  lemma GrossIsPercentage(dims: seq<Dimension>)
    requires Scored(dims) && WellFormed(dims)
    ensures Gross(dims).Some? && 0 <= Gross(dims).value <= 100
  {
    forall i | 0 <= i < |dims| && dims[i].score.Some? ensures 0.0 <= Norm(dims[i].score.value) <= 100.0 {
    }
    GrossWithin(dims, 0.0, 100.0);
    PyRoundInteger(0);
    PyRoundInteger(100);
  }

  // ----- Order of the dimensions ----------------------------------------------------------------

  lemma {:induction false} ScoresConcat(a: seq<Dimension>, b: seq<Dimension>, c: char)
    ensures ScoresIn(a + b, c) == ScoresIn(a, c) + ScoresIn(b, c)
  {
    if b == [] {
      assert a + b == a;
    } else {
      var last := |b| - 1;
      assert (a + b)[..|a + b| - 1] == a + b[..last];
      ScoresConcat(a, b[..last], c);
    }
  }

  lemma {:induction false} NormsConcat(a: seq<int>, b: seq<int>)
    ensures SumOfNorms(a + b) == SumOfNorms(a) + SumOfNorms(b)
  {
    if b == [] {
      assert a + b == a;
    } else {
      var last := |b| - 1;
      assert (a + b)[..|a + b| - 1] == a + b[..last];
      NormsConcat(a, b[..last]);
    }
  }

  lemma CategorySplit(before: seq<Dimension>, middle: seq<Dimension>, after: seq<Dimension>, c: char)
    ensures |ScoresIn(before + middle + after, c)|
         == |ScoresIn(before, c)| + |ScoresIn(middle, c)| + |ScoresIn(after, c)|
    ensures SumOfNorms(ScoresIn(before + middle + after, c))
         == SumOfNorms(ScoresIn(before, c)) + SumOfNorms(ScoresIn(middle, c)) + SumOfNorms(ScoresIn(after, c))
  {
    CategoryJoin(before + middle, after, c);
    CategoryJoin(before, middle, c);
  }

  lemma LastApart(a: seq<Dimension>)
    requires a != []
    ensures multiset(a) == multiset(a[..|a| - 1]) + multiset{a[|a| - 1]}
  {
    assert a == a[..|a| - 1] + [a[|a| - 1]];
  }

  lemma OneApart(b: seq<Dimension>, i: nat)
    requires i < |b|
    ensures b == b[..i] + [b[i]] + b[i + 1..]
    ensures multiset(b) == multiset(b[..i] + b[i + 1..]) + multiset{b[i]}
  {
    assert b == b[..i] + [b[i]] + b[i + 1..];
  }

  lemma CancelOne(x: multiset<Dimension>, y: multiset<Dimension>, d: Dimension)
    requires x + multiset{d} == y + multiset{d}
    ensures x == y
  {
    assert x == (x + multiset{d}) - multiset{d};
    assert y == (y + multiset{d}) - multiset{d};
  }

  /** Taking the last dimension out of `a`, and an equal one out of `b`, leaves permutations. */
  lemma RemoveLast(a: seq<Dimension>, b: seq<Dimension>) returns (before: seq<Dimension>, after: seq<Dimension>)
    requires multiset(a) == multiset(b) && a != []
    ensures a == a[..|a| - 1] + [a[|a| - 1]] && b == before + [a[|a| - 1]] + after
    ensures multiset(a[..|a| - 1]) == multiset(before + after)
  {
    var d := a[|a| - 1];
    LastApart(a);
    assert d in multiset(b);
    var i :| 0 <= i < |b| && b[i] == d;
    OneApart(b, i);
    before, after := b[..i], b[i + 1..];
    CancelOne(multiset(a[..|a| - 1]), multiset(before + after), d);
  }

  lemma CategoryMoved(init: seq<Dimension>, last: seq<Dimension>, before: seq<Dimension>, after: seq<Dimension>,
      c: char)
    requires |ScoresIn(init, c)| == |ScoresIn(before + after, c)|
    requires SumOfNorms(ScoresIn(init, c)) == SumOfNorms(ScoresIn(before + after, c))
    ensures |ScoresIn(init + last, c)| == |ScoresIn(before + last + after, c)|
    ensures SumOfNorms(ScoresIn(init + last, c)) == SumOfNorms(ScoresIn(before + last + after, c))
  {
    CategoryJoin(init, last, c);
    CategoryJoin(before, after, c);
    CategorySplit(before, last, after, c);
  }

  lemma CategoryJoin(a: seq<Dimension>, b: seq<Dimension>, c: char)
    ensures |ScoresIn(a + b, c)| == |ScoresIn(a, c)| + |ScoresIn(b, c)|
    ensures SumOfNorms(ScoresIn(a + b, c)) == SumOfNorms(ScoresIn(a, c)) + SumOfNorms(ScoresIn(b, c))
  {
    ScoresConcat(a, b, c);
    NormsConcat(ScoresIn(a, c), ScoresIn(b, c));
  }

  /** Sum and number of a category's scores do not depend on the order of the dimensions. */
  lemma {:induction false} CategoryOfPermutation(a: seq<Dimension>, b: seq<Dimension>, c: char)
    requires multiset(a) == multiset(b)
    ensures |ScoresIn(a, c)| == |ScoresIn(b, c)|
    ensures SumOfNorms(ScoresIn(a, c)) == SumOfNorms(ScoresIn(b, c))
    decreases |a|
  {
    if a == [] {
      assert |b| == |multiset(b)| == 0;
    } else {
      var init, last := a[..|a| - 1], [a[|a| - 1]];
      var before, after := RemoveLast(a, b);
      CategoryOfPermutation(init, before + after, c);
      CategoryMoved(init, last, before, after, c);
    }
  }

  lemma CategorySame(a: seq<Dimension>, b: seq<Dimension>, c: char)
    requires multiset(a) == multiset(b)
    ensures WeightIn(a, c) == WeightIn(b, c) && PortionOf(ScoresIn(a, c), c) == PortionOf(ScoresIn(b, c), c)
  {
    CategoryOfPermutation(a, b, c);
  }

  lemma TotalsStep(dims: seq<Dimension>, k: nat)
    requires k < |CATEGORIES|
    ensures TotalWeight(dims, k + 1) == TotalWeight(dims, k) + WeightIn(dims, CATEGORIES[k])
    ensures Weighted(dims, k + 1) == Weighted(dims, k) + PortionOf(ScoresIn(dims, CATEGORIES[k]), CATEGORIES[k])
  {
  }

  lemma {:induction false} WeightsOfPermutation(a: seq<Dimension>, b: seq<Dimension>, k: nat)
    requires multiset(a) == multiset(b) && k <= |CATEGORIES|
    ensures TotalWeight(a, k) == TotalWeight(b, k) && Weighted(a, k) == Weighted(b, k)
  {
    if k == 0 {
    } else {
      WeightsOfPermutation(a, b, k - 1);
      CategorySame(a, b, CATEGORIES[k - 1]);
      TotalsStep(a, k - 1);
      TotalsStep(b, k - 1);
    }
  }

  /** Reordering the dimensions changes nothing. */
  lemma ScoresOfPermutation(a: Rubric, b: Rubric, deterministic: set<string>, threshold: real)
    requires multiset(a.dimensions) == multiset(b.dimensions)
    requires a.vetoFlags == b.vetoFlags && a.confidence == b.confidence
    ensures Scores(a, deterministic, threshold) == Scores(b, deterministic, threshold)
  {
    GrossOfPermutation(a.dimensions, b.dimensions);
  }

  lemma GrossOfPermutation(a: seq<Dimension>, b: seq<Dimension>)
    requires multiset(a) == multiset(b)
    ensures Gross(a) == Gross(b)
  {
    WeightsOfPermutation(a, b, |CATEGORIES|);
    GrossIs(a);
    GrossIs(b);
  }

  // ----- Raising one dimension ------------------------------------------------------------------

  function Raise(dims: seq<Dimension>, i: nat, score: int): seq<Dimension>
    requires i < |dims|
  {
    dims[i := dims[i].(score := Some(score))]
  }

  lemma RaisedCategory(dims: seq<Dimension>, i: nat, score: int, c: char)
    requires i < |dims| && dims[i].score.Some? && dims[i].score.value <= score
    ensures |ScoresIn(Raise(dims, i, score), c)| == |ScoresIn(dims, c)|
    ensures SumOfNorms(ScoresIn(Raise(dims, i, score), c)) >= SumOfNorms(ScoresIn(dims, c))
  {
    var before, after := dims[..i], dims[i + 1..];
    var old_, new_ := [dims[i]], [dims[i].(score := Some(score))];
    assert dims == before + old_ + after && Raise(dims, i, score) == before + new_ + after;
    CategorySplit(before, old_, after, c);
    CategorySplit(before, new_, after, c);
    OneScore(dims[i], c);
    OneScore(dims[i].(score := Some(score)), c);
  }

  lemma OneScore(d: Dimension, c: char)
    requires d.score.Some?
    ensures ScoresIn([d], c) == if InCategory(d, c) then [d.score.value] else []
    ensures SumOfNorms(ScoresIn([d], c)) == if InCategory(d, c) then Norm(d.score.value) else 0.0
  {
    assert [d][..0] == [];
    assert [d.score.value][..0] == [];
  }

  lemma {:induction false} RaisedWeights(dims: seq<Dimension>, i: nat, score: int, k: nat)
    requires i < |dims| && dims[i].score.Some? && dims[i].score.value <= score && k <= |CATEGORIES|
    ensures TotalWeight(Raise(dims, i, score), k) == TotalWeight(dims, k)
    ensures Weighted(Raise(dims, i, score), k) >= Weighted(dims, k)
  {
    if k == 0 {
    } else {
      RaisedWeights(dims, i, score, k - 1);
      RaisedPortion(dims, i, score, CATEGORIES[k - 1]);
      TotalsStep(dims, k - 1);
      TotalsStep(Raise(dims, i, score), k - 1);
    }
  }

  lemma RaisedPortion(dims: seq<Dimension>, i: nat, score: int, c: char)
    requires i < |dims| && dims[i].score.Some? && dims[i].score.value <= score
    ensures WeightIn(Raise(dims, i, score), c) == WeightIn(dims, c)
    ensures PortionOf(ScoresIn(Raise(dims, i, score), c), c) >= PortionOf(ScoresIn(dims, c), c)
  {
    RaisedCategory(dims, i, score, c);
    PortionMonotone(ScoresIn(dims, c), ScoresIn(Raise(dims, i, score), c), c);
  }

  lemma PortionMonotone(a: seq<int>, b: seq<int>, c: char)
    requires |a| == |b| && SumOfNorms(a) <= SumOfNorms(b)
    ensures PortionOf(a, c) <= PortionOf(b, c)
  {
    if a != [] {
      QuotientAtMost(SumOfNorms(a), SumOfNorms(b), |a| as real);
      MulAtMost(MeanNorm(a), MeanNorm(b), Weight(c));
    }
  }

  /** The gross score never falls when one dimension rises. */
  lemma GrossMonotone(dims: seq<Dimension>, i: nat, score: int)
    requires Scored(dims) && i < |dims| && dims[i].score.Some? && dims[i].score.value <= score
    ensures Gross(dims).Some? && Gross(Raise(dims, i, score)).Some?
    ensures Gross(dims).value <= Gross(Raise(dims, i, score)).value
  {
    var k, raised := |CATEGORIES|, Raise(dims, i, score);
    RaisedWeights(dims, i, score, k);
    GrossIs(dims);
    GrossIs(raised);
    var total, low, high := TotalWeight(dims, k), Weighted(dims, k), Weighted(raised, k);
    QuotientAtMost(low, high, total);
    PyRoundMonotone(low / total, high / total);
  }

  lemma GrossIs(dims: seq<Dimension>)
    ensures var total := TotalWeight(dims, |CATEGORIES|);
            && (Scored(dims) <==> total > 0.0)
            && (total > 0.0 ==> Gross(dims) == Some(PyRound(Weighted(dims, |CATEGORIES|) / total)))
  {
    ScoredHasWeight(dims, |CATEGORIES|);
  }

  // ----- The veto -------------------------------------------------------------------------------

  /** With more flags, deterministic or judged, and more confidence, a firm veto stays firm. */
  lemma FirmMonotone(flags: set<string>, det: set<string>, confidence: real,
                     flags': set<string>, det': set<string>, confidence': real, threshold: real)
    requires flags <= flags' && det <= det' && confidence <= confidence'
    requires Firm(flags, det, confidence, threshold)
    ensures Firm(flags', det', confidence', threshold)
  {
    var vetoSet, vetoSet' := flags + det, flags' + det';
    var firmSet, firmSet' := det + vetoSet * ALWAYS_FIRM, det' + vetoSet' * ALWAYS_FIRM;
    assert firmSet <= firmSet' && vetoSet <= vetoSet';
    if firmSet' == {} {
      assert firmSet == {};
      var f :| f in vetoSet;
      assert f in vetoSet' - firmSet';
    } else {
      var f :| f in firmSet';
      assert f in vetoSet';
    }
  }

  /** On a scored rubric, more flags or more confidence never raise the final score. */
  lemma FinalAntitone(a: Rubric, det: set<string>, b: Rubric, det': set<string>, threshold: real)
    requires Scored(a.dimensions) && b.dimensions == a.dimensions
    requires a.vetoFlags <= b.vetoFlags && det <= det' && a.confidence <= b.confidence
    ensures Scores(a, det, threshold).final.Some? && Scores(b, det', threshold).final.Some?
    ensures Scores(b, det', threshold).final.value <= Scores(a, det, threshold).final.value
  {
    if Firm(a.vetoFlags, det, a.confidence, threshold) {
      FirmMonotone(a.vetoFlags, det, a.confidence, b.vetoFlags, det', b.confidence, threshold);
    }
  }

  /** A capped score: at most 20 exactly when the gross is, or a firm veto caps it. */
  lemma CapIff(rubric: Rubric, deterministic: set<string>, threshold: real)
    requires Scored(rubric.dimensions)
    ensures var r := Scores(rubric, deterministic, threshold);
            r.final.Some? && r.gross.Some? && r.final.value <= r.gross.value
            && (r.final.value <= VETO_CAP <==> r.vetoFirm || r.gross.value <= VETO_CAP)
  {
  }

  /** Without any score a firm veto still reports the cap, so there a flag does raise what was missing. */
  lemma UnscoredVeto(rubric: Rubric, deterministic: set<string>, threshold: real)
    requires !Scored(rubric.dimensions)
    ensures var r := Scores(rubric, deterministic, threshold);
            r.gross.None? && r.final == if r.vetoFirm then Some(VETO_CAP) else None
  {
  }

  /** The score is reported higher than before, or for the first time. */
  predicate Raises(before: Option<int>, after: Option<int>) {
    after.Some? && (before.None? || before.value < after.value)
  }

  /** The same dimensions with at least the flags and the confidence. */
  predicate MoreVeto(a: Rubric, det: set<string>, b: Rubric, det': set<string>) {
    b.dimensions == a.dimensions && a.vetoFlags <= b.vetoFlags && det <= det' && a.confidence <= b.confidence
  }

  lemma MoreVetoNeverRaises(a: Rubric, det: set<string>, b: Rubric, det': set<string>, threshold: real)
    requires MoreVeto(a, det, b, det')
    requires Scored(a.dimensions) || Scores(a, det, threshold).vetoFirm
    ensures !Raises(Scores(a, det, threshold).final, Scores(b, det', threshold).final)
  {
    if Scored(a.dimensions) {
      FinalAntitone(a, det, b, det', threshold);
    } else {
      UnscoredVeto(a, det, threshold);
      UnscoredVeto(b, det', threshold);
    }
  }

  lemma FlagReportsCap(a: Rubric, det: set<string>, flag: string, threshold: real)
    requires !Scored(a.dimensions) && !Scores(a, det, threshold).vetoFirm
    ensures Raises(Scores(a, det, threshold).final, Scores(a, det + {flag}, threshold).final)
  {
    assert flag in det + {flag};
    UnscoredVeto(a, det, threshold);
    UnscoredVeto(a, det + {flag}, threshold);
    DeterministicFlagIsFirm(a.vetoFlags, det + {flag}, flag, a.confidence, threshold);
  }

  lemma DeterministicFlagIsFirm(flags: set<string>, det: set<string>, flag: string, confidence: real, threshold: real)
    requires flag in det
    ensures Firm(flags, det, confidence, threshold)
  {
  }

  /**
   * More flags and more confidence can never raise the final score exactly when the rubric has a score
   * or its veto is already firm; without either, a flag reports the cap where there was no score.
   */
  lemma VetoNeverRaisesIff(a: Rubric, det: set<string>, threshold: real)
    ensures (forall b, det' :: MoreVeto(a, det, b, det')
               ==> !Raises(Scores(a, det, threshold).final, Scores(b, det', threshold).final))
       <==> Scored(a.dimensions) || Firm(a.vetoFlags, det, a.confidence, threshold)
  {
    if Scored(a.dimensions) || Firm(a.vetoFlags, det, a.confidence, threshold) {
      forall b, det' | MoreVeto(a, det, b, det')
        ensures !Raises(Scores(a, det, threshold).final, Scores(b, det', threshold).final)
      {
        MoreVetoNeverRaises(a, det, b, det', threshold);
      }
    } else {
      FlagReportsCap(a, det, "flag", threshold);
      assert MoreVeto(a, det, a, det + {"flag"});
    }
  }
}
