/** Price contradictions: the amounts an agent states that neither the catalogue nor arithmetic explains. */
module Prices {
  import opened Wrappers
  import opened Rounding
  import opened DigitText
  import opened Quotes

  const MAX_UNITS := 100
  const MAX_ADDENDS := 10

  // ----- Reading numbers ------------------------------------------------------------------------

  function WithoutSeparators(s: string): string {
    if s == [] then []
    else (if s[0] == '.' || s[0] == ',' then [] else [s[0]]) + WithoutSeparators(s[1..])
  }

  /** `_normalize`. */
  function Normalize(num: string): Option<nat> {
    var digits := WithoutSeparators(num);
    if digits == [] || !AllDigits(digits) then None else Some(NumberOf(Digits(digits)))
  }

  /** A decimal number reads as itself. */
  lemma NormalizeReads(n: nat)
    ensures Normalize(Decimal(n)) == Some(n)
  {
    DecimalReads(n);
    NoSeparators(Decimal(n));
  }

  lemma {:induction false} NoSeparators(s: string)
    requires AllDigits(s)
    ensures WithoutSeparators(s) == s
  {
    if s == [] {
    } else {
      NoSeparators(s[1..]);
    }
  }

  /** A separator anywhere makes no difference. */
  lemma NormalizeSkips(before: string, c: char, after: string)
    requires c == '.' || c == ','
    ensures Normalize(before + [c] + after) == Normalize(before + after)
  {
    SeparatorsConcat(before + [c], after);
    SeparatorsConcat(before, [c]);
    SeparatorsConcat(before, after);
    OneSeparator(c);
    assert WithoutSeparators(before) + [] == WithoutSeparators(before);
  }

  lemma OneSeparator(c: char)
    requires c == '.' || c == ','
    ensures WithoutSeparators([c]) == []
  {
    var rest: string := [c][1..];
    assert rest == [];
  }

  lemma {:induction false} SeparatorsConcat(s: string, t: string)
    ensures WithoutSeparators(s + t) == WithoutSeparators(s) + WithoutSeparators(t)
  {
    if s == [] {
      assert s + t == t;
    } else {
      assert (s + t)[0] == s[0] && (s + t)[1..] == s[1..] + t;
      SeparatorsConcat(s[1..], t);
    }
  }

  lemma {:induction false} SeparatorsAre(s: string, c: char)
    ensures c in WithoutSeparators(s) <==> c in s && c != '.' && c != ','
  {
    if s == [] {
    } else {
      SeparatorsAre(s[1..], c);
      assert s == [s[0]] + s[1..];
    }
  }

  /** Only digits and separators make a number, and at least one digit. */
  lemma NormalizeFails(s: string)
    ensures Normalize(s).Some? <==>
              (exists c :: c in s && IsDigit(c)) && forall c :: c in s ==> IsDigit(c) || c == '.' || c == ','
  {
    var digits := WithoutSeparators(s);
    forall c ensures c in digits <==> c in s && c != '.' && c != ',' {
      SeparatorsAre(s, c);
    }
    if digits != [] && AllDigits(digits) {
      assert digits[0] in digits;
    }
    if c :| c in s && IsDigit(c) {
      assert c in digits;
    }
    if forall c :: c in s ==> IsDigit(c) || c == '.' || c == ',' {
      forall i | 0 <= i < |digits| ensures IsDigit(digits[i]) {
        assert digits[i] in digits;
      }
    }
  }

  /** `n` is the value of some numeric leaf of the price list. */
  ghost predicate HasPrice(prices: Json, n: int)
    decreases prices
  {
    match prices
    case JDict(entries) => exists i :: 0 <= i < |entries| && HasPrice(entries[i].1, n)
    case JList(items) => exists i :: 0 <= i < |items| && HasPrice(items[i], n)
    case JInt(k) => n == k
    case JFloat(x) => n == PyRound(x)
    case JStr(s) => Normalize(s) == Some(n)
    case _ => false
  }

  /** `flatten_prices`. */
  method FlattenPrices(prices: Json) returns (out: set<int>)
    ensures forall n :: n in out <==> HasPrice(prices, n)
    decreases prices
  {
    out := {};
    match prices {
      case JDict(entries) =>
        for i := 0 to |entries|
          invariant forall n :: n in out <==> exists k :: 0 <= k < i && HasPrice(entries[k].1, n)
        {
          var leaves := FlattenPrices(entries[i].1);
          out := out + leaves;
        }
      case JList(items) =>
        for i := 0 to |items|
          invariant forall n :: n in out <==> exists k :: 0 <= k < i && HasPrice(items[k], n)
        {
          var leaves := FlattenPrices(items[i]);
          out := out + leaves;
        }
      case JInt(k) => out := {k};
      case JFloat(x) => out := {PyRound(x)};
      case JStr(s) =>
        if Normalize(s).Some? {
          out := {Normalize(s).value};
        }
      case _ =>
    }
  }

  /** A number the money pattern found, and whether a currency mark stands beside it. */
  datatype Money = Money(raw: string, marked: bool)

  predicate HasSeparator(raw: string) {
    '.' in raw || ',' in raw
  }

  predicate IsPrice(m: Money) {
    Normalize(m.raw).Some? && (m.marked || HasSeparator(m.raw))
  }

  /** The amounts of the matches that read as prices, in order. */
  function Stated(matches: seq<Money>): seq<nat> {
    if matches == [] then []
    else
      var last := |matches| - 1;
      Stated(matches[..last]) + if IsPrice(matches[last]) then [Normalize(matches[last].raw).value] else []
  }

  /** `stated_prices`. */
  method StatedPrices(matches: seq<Money>) returns (found: seq<nat>)
    ensures found == Stated(matches)
  {
    found := [];
    for i := 0 to |matches|
      invariant found == Stated(matches[..i])
    {
      assert matches[..i + 1][..i] == matches[..i];
      var n := Normalize(matches[i].raw);
      if n.None? {
        continue;
      }
      if !matches[i].marked && !HasSeparator(matches[i].raw) {
        continue;
      }
      found := found + [n.value];
    }
    assert matches[..|matches|] == matches;
  }

  /** A figure is stated when it reads as a number and has a currency mark or a separator. */
  lemma {:induction false} StatedAre(matches: seq<Money>, n: nat)
    ensures n in Stated(matches) <==>
              exists m :: m in matches && Normalize(m.raw) == Some(n) && (m.marked || '.' in m.raw || ',' in m.raw)
  {
    if matches == [] {
    } else {
      var last := |matches| - 1;
      StatedAre(matches[..last], n);
      assert matches == matches[..last] + [matches[last]];
    }
  }

  /** In the order of the text, repetitions included. */
  lemma {:induction false} StatedInOrder(before: seq<Money>, after: seq<Money>)
    ensures Stated(before + after) == Stated(before) + Stated(after)
  {
    if after == [] {
      assert before + after == before && Stated(before) + [] == Stated(before);
    } else {
      var init, last := after[..|after| - 1], after[|after| - 1];
      assert before + after == (before + init) + [last] && after == init + [last];
      StatedInOrder(before, init);
      StatedStep(before + init, last);
      StatedStep(init, last);
      Joined(Stated(before), Stated(init), if IsPrice(last) then [Normalize(last.raw).value] else []);
    }
  }

  lemma StatedStep(matches: seq<Money>, m: Money)
    ensures Stated(matches + [m]) == Stated(matches) + if IsPrice(m) then [Normalize(m.raw).value] else []
  {
    assert (matches + [m])[..|matches|] == matches;
  }

  lemma Joined(a: seq<nat>, b: seq<nat>, c: seq<nat>)
    ensures (a + b) + c == a + (b + c)
  {
  }

  // ----- Derivable amounts ----------------------------------------------------------------------

  function Total(xs: seq<nat>): nat {
    if xs == [] then 0 else Total(xs[..|xs| - 1]) + xs[|xs| - 1]
  }

  ghost predicate AllCited(xs: seq<nat>, cited: seq<nat>) {
    forall i :: 0 <= i < |xs| ==> xs[i] in cited
  }

  /** The amount is a sum of at most `k` cited prices, repetitions allowed. */
  ghost predicate IsSum(amount: nat, cited: seq<nat>, k: nat) {
    exists xs: seq<nat> :: |xs| <= k && AllCited(xs, cited) && Total(xs) == amount
  }

  function Times(n: nat, p: nat): nat {
    n * p
  }

  /** The amount is 2 to 100 units of one cited price. */
  ghost predicate IsMultiple(amount: nat, cited: seq<nat>) {
    exists p, n: nat :: p in cited && p > 0 && 2 <= n <= MAX_UNITS && amount == Times(n, p)
  }

  /** What `_derivable` is for. */
  ghost predicate Explained(amount: nat, cited: seq<nat>) {
    cited != [] && (IsMultiple(amount, cited) || IsSum(amount, cited, MAX_ADDENDS))
  }

  predicate Divides(amount: nat, p: nat) {
    p > 0 && amount % p == 0 && 2 <= amount / p <= MAX_UNITS
  }

  lemma DividesIff(amount: nat, p: nat)
    ensures Divides(amount, p) <==> p > 0 && exists n: nat :: 2 <= n <= MAX_UNITS && amount == Times(n, p)
  {
    if p > 0 {
      assert amount == Times(amount / p, p) + amount % p;
      forall n: nat | amount == Times(n, p) ensures amount / p == n && amount % p == 0 {
        ExactQuotient(n, p);
      }
    }
  }

  lemma ExactQuotient(n: nat, p: nat)
    requires p > 0
    ensures Times(n, p) / p == n && Times(n, p) % p == 0
  {
    QuotientUnique(n, p, Times(n, p) / p, Times(n, p) % p);
  }

  lemma QuotientUnique(n: int, p: int, q: int, r: int)
    requires n * p == q * p + r && 0 <= r < p
    ensures q == n && r == 0
  {
    var d := n - q;
    assert d * p == r;
    assert d >= 1 ==> d * p >= p;
    assert d <= -1 ==> d * p <= -p;
  }

  lemma SumsStart(cited: seq<nat>)
    ensures forall m: nat :: IsSum(m, cited, 0) <==> m == 0
  {
    assert Total([]) == 0 && AllCited([], cited);
  }

  /** One more addend: a sum that was there, or one plus a cited price. */
  lemma SumsGrow(m: nat, cited: seq<nat>, k: nat)
    ensures IsSum(m, cited, k + 1)
       <==> IsSum(m, cited, k) || exists p :: p in cited && p <= m && IsSum(m - p, cited, k)
  {
    if IsSum(m, cited, k + 1) {
      var xs: seq<nat> :| |xs| <= k + 1 && AllCited(xs, cited) && Total(xs) == m;
      if |xs| == k + 1 {
        var p := xs[k];
        assert AllCited(xs[..k], cited);
        assert p in cited && p <= m && IsSum(m - p, cited, k);
      }
    }
    forall p | p in cited && p <= m && IsSum(m - p, cited, k) ensures IsSum(m, cited, k + 1) {
      var xs: seq<nat> :| |xs| <= k && AllCited(xs, cited) && Total(xs) == m - p;
      assert (xs + [p])[..|xs|] == xs;
      assert AllCited(xs + [p], cited) && Total(xs + [p]) == m;
    }
  }

  /** A round that adds nothing ends the search: no longer sum can reach anything new below the amount. */
  lemma {:induction false} Saturated(xs: seq<nat>, cited: seq<nat>, amount: nat, reached: set<nat>)
    requires 0 in reached
    requires forall a, p :: a in reached && p in cited && a + p <= amount ==> a + p in reached
    requires AllCited(xs, cited) && Total(xs) <= amount
    ensures Total(xs) in reached
  {
    if xs == [] {
    } else {
      var last := |xs| - 1;
      assert AllCited(xs[..last], cited);
      Saturated(xs[..last], cited, amount, reached);
      assert xs[last] in cited;
    }
  }

  /** `_derivable`: the bounded search with pruning and early exits decides `Explained` exactly. */
  method Derivable(amount: nat, cited: seq<nat>) returns (r: bool)
    ensures r <==> Explained(amount, cited)
  {
    if cited == [] {
      return false;
    }
    for i := 0 to |cited|
      invariant forall k :: 0 <= k < i ==> !Divides(amount, cited[k])
    {
      if Divides(amount, cited[i]) {
        DividesIff(amount, cited[i]);
        assert cited[i] in cited;
        return true;
      }
    }
    NotMultiple(amount, cited);
    r := Reachable(amount, cited);
  }

  lemma NotMultiple(amount: nat, cited: seq<nat>)
    requires forall k :: 0 <= k < |cited| ==> !Divides(amount, cited[k])
    ensures !IsMultiple(amount, cited)
  {
    forall p, n: nat | p in cited && p > 0 && 2 <= n <= MAX_UNITS ensures amount != Times(n, p) {
      DividesIff(amount, p);
    }
  }

  /** The sums of at most `k` cited prices, cut off at the amount. */
  ghost predicate Reaches(reached: set<nat>, amount: nat, cited: seq<nat>, k: nat) {
    forall m: nat :: m in reached <==> m <= amount && IsSum(m, cited, k)
  }

  method Reachable(amount: nat, cited: seq<nat>) returns (r: bool)
    ensures r <==> IsSum(amount, cited, MAX_ADDENDS)
  {
    var reached: set<nat> := {0};
    SumsStart(cited);
    for k := 0 to MAX_ADDENDS
      invariant Reaches(reached, amount, cited, k)
    {
      var fresh_ := set a, p | a in reached && p in cited && a + p <= amount :: a + p;
      if fresh_ <= reached {
        SearchEnds(reached, amount, cited, k);
        return amount in reached;
      }
      RoundReaches(reached, fresh_, amount, cited, k);
      reached := reached + fresh_;
      if amount in reached {
        MoreAddends(amount, cited, k + 1, MAX_ADDENDS);
        return true;
      }
    }
    r := amount in reached;
  }

  lemma MoreAddends(m: nat, cited: seq<nat>, k: nat, n: nat)
    requires k <= n && IsSum(m, cited, k)
    ensures IsSum(m, cited, n)
  {
    var xs: seq<nat> :| |xs| <= k && AllCited(xs, cited) && Total(xs) == m;
  }

  lemma RoundReaches(reached: set<nat>, added: set<nat>, amount: nat, cited: seq<nat>, k: nat)
    requires Reaches(reached, amount, cited, k)
    requires added == set a, p | a in reached && p in cited && a + p <= amount :: a + p
    ensures Reaches(reached + added, amount, cited, k + 1)
  {
    forall m: nat ensures m in reached + added <==> m <= amount && IsSum(m, cited, k + 1) {
      SumsGrow(m, cited, k);
      if m <= amount && IsSum(m, cited, k + 1) && !IsSum(m, cited, k) {
        var p :| p in cited && p <= m && IsSum(m - p, cited, k);
        var a: nat := m - p;
        assert a in reached && a + p == m;
      }
    }
  }

  lemma SearchEnds(reached: set<nat>, amount: nat, cited: seq<nat>, k: nat)
    requires k <= MAX_ADDENDS && Reaches(reached, amount, cited, k)
    requires (set a, p | a in reached && p in cited && a + p <= amount :: a + p) <= reached
    ensures amount in reached <==> IsSum(amount, cited, MAX_ADDENDS)
  {
    if amount in reached {
      MoreAddends(amount, cited, k, MAX_ADDENDS);
    }
    if IsSum(amount, cited, MAX_ADDENDS) {
      var xs: seq<nat> :| |xs| <= MAX_ADDENDS && AllCited(xs, cited) && Total(xs) == amount;
      assert AllCited([], cited) && Total([]) == 0;
      forall a, p | a in reached && p in cited && a + p <= amount ensures a + p in reached {
        assert a + p in set a, p | a in reached && p in cited && a + p <= amount :: a + p;
      }
      Saturated(xs, cited, amount, reached);
    }
  }

  // ----- The check ------------------------------------------------------------------------------

  datatype PriceCheck = PriceCheck(contradictions: seq<nat>, ok: bool)

  predicate Near(p: int, amounts: set<int>, tolerance: int) {
    exists a :: a in amounts && a - tolerance <= p <= a + tolerance
  }

  function QuoteTolerance(tolerance: int): int {
    if tolerance < 1 then 1 else tolerance
  }

  /** The stated amounts that are catalogue prices. */
  function Cited(stated: seq<nat>, catalogue: set<int>, tolerance: int): (r: seq<nat>)
    ensures forall p :: p in r <==> p in stated && Near(p, catalogue, tolerance)
  {
    if stated == [] then []
    else (if Near(stated[0], catalogue, tolerance) then [stated[0]] else []) + Cited(stated[1..], catalogue, tolerance)
  }

  /** The amount is off the catalogue, off every quote, and no arithmetic on cited prices gives it. */
  ghost predicate Contradicts(p: nat, stated: seq<nat>, catalogue: set<int>, quotes: set<int>, tolerance: int) {
    && !Near(p, catalogue, tolerance)
    && !Near(p, quotes, QuoteTolerance(tolerance))
    && !Explained(p, Cited(stated, catalogue, tolerance))
  }

  /** The contradicting ones among the first `n` stated amounts, in order and with repetitions. */
  ghost function Contradictions(stated: seq<nat>, n: nat, catalogue: set<int>, quotes: set<int>,
      tolerance: int): seq<nat>
    requires n <= |stated|
  {
    if n == 0 then []
    else
      Contradictions(stated, n - 1, catalogue, quotes, tolerance)
      + if Contradicts(stated[n - 1], stated, catalogue, quotes, tolerance) then [stated[n - 1]] else []
  }

  /** What is reported: nothing is checked against an empty catalogue. */
  ghost function Reported(stated: seq<nat>, catalogue: set<int>, quotes: set<int>, tolerance: int): seq<nat> {
    if catalogue == {} then [] else Contradictions(stated, |stated|, catalogue, quotes, tolerance)
  }

  /** Some price of the catalogue is within the tolerance. */
  predicate Listed(p: int, catalogue: set<int>, tolerance: int) {
    exists a :: a in catalogue && Distance(p, a) <= tolerance
  }

  function Distance(p: int, a: int): int {
    if p < a then a - p else p - a
  }

  /** A stated amount that the catalogue lists. */
  predicate CitedPrice(c: nat, stated: seq<nat>, catalogue: set<int>, tolerance: int) {
    c in stated && Listed(c, catalogue, tolerance)
  }

  ghost predicate SomeUnits(p: nat, stated: seq<nat>, catalogue: set<int>, tolerance: int) {
    exists c, n: nat :: CitedPrice(c, stated, catalogue, tolerance) && c > 0 && 2 <= n <= 100 && p == Times(n, c)
  }

  ghost predicate SomeTotal(p: nat, stated: seq<nat>, catalogue: set<int>, tolerance: int) {
    && (exists c :: CitedPrice(c, stated, catalogue, tolerance))
    && exists xs: seq<nat> ::
         |xs| <= 10 && Total(xs) == p && forall x :: x in xs ==> CitedPrice(x, stated, catalogue, tolerance)
  }

  /**
   * What is reported: a stated amount that is neither in the catalogue nor within one unit of a quote (or the
   * tolerance, if larger), nor 2 to 100 times a cited price, nor a sum of at most ten of them.
   */
  lemma ReportedAre(p: nat, stated: seq<nat>, catalogue: set<int>, quotes: set<int>, tolerance: int)
    ensures p in Reported(stated, catalogue, quotes, tolerance) <==>
              && catalogue != {} && p in stated && !Listed(p, catalogue, tolerance)
              && (forall q :: q in quotes ==> Distance(p, q) > tolerance && Distance(p, q) > 1)
              && !SomeUnits(p, stated, catalogue, tolerance) && !SomeTotal(p, stated, catalogue, tolerance)
  {
    ContradictionsAre(p, stated, |stated|, catalogue, quotes, tolerance);
    ListedIsNear(p, stated, catalogue, quotes, tolerance);
    ExplainedAre(p, stated, catalogue, tolerance);
    assert stated[..|stated|] == stated;
  }

  lemma {:induction false} ContradictionsAre(p: nat, stated: seq<nat>, n: nat, catalogue: set<int>, quotes: set<int>,
      tolerance: int)
    requires n <= |stated|
    ensures p in Contradictions(stated, n, catalogue, quotes, tolerance)
       <==> p in stated[..n] && Contradicts(p, stated, catalogue, quotes, tolerance)
  {
    if n == 0 {
    } else {
      ContradictionsAre(p, stated, n - 1, catalogue, quotes, tolerance);
      assert stated[..n] == stated[..n - 1] + [stated[n - 1]];
    }
  }

  lemma ListedIsNear(p: int, stated: seq<nat>, catalogue: set<int>, quotes: set<int>, tolerance: int)
    ensures forall x: int :: Listed(x, catalogue, tolerance) <==> Near(x, catalogue, tolerance)
    ensures (forall q :: q in quotes ==> Distance(p, q) > tolerance && Distance(p, q) > 1)
       <==> !Near(p, quotes, QuoteTolerance(tolerance))
  {
    forall x: int ensures Listed(x, catalogue, tolerance) <==> Near(x, catalogue, tolerance) {
      if a :| a in catalogue && Distance(x, a) <= tolerance {
        assert a - tolerance <= x <= a + tolerance;
      }
      if a :| a in catalogue && a - tolerance <= x <= a + tolerance {
        assert Distance(x, a) <= tolerance;
      }
    }
    var near := QuoteTolerance(tolerance);
    if q :| q in quotes && q - near <= p <= q + near {
      assert Distance(p, q) <= near;
    }
    if q :| q in quotes && Distance(p, q) <= near {
      assert q - near <= p <= q + near;
    }
  }

  lemma ExplainedAre(p: nat, stated: seq<nat>, catalogue: set<int>, tolerance: int)
    requires forall x: int :: Listed(x, catalogue, tolerance) <==> Near(x, catalogue, tolerance)
    ensures Explained(p, Cited(stated, catalogue, tolerance))
       <==> SomeUnits(p, stated, catalogue, tolerance) || SomeTotal(p, stated, catalogue, tolerance)
  {
    var cited := Cited(stated, catalogue, tolerance);
    assert forall c :: c in cited <==> CitedPrice(c, stated, catalogue, tolerance);
    MultipleAre(p, cited, stated, catalogue, tolerance);
    SumsAre(p, cited, stated, catalogue, tolerance);
    if cited != [] {
      assert cited[0] in cited;
    }
  }

  lemma MultipleAre(p: nat, cited: seq<nat>, stated: seq<nat>, catalogue: set<int>, tolerance: int)
    requires forall c :: c in cited <==> CitedPrice(c, stated, catalogue, tolerance)
    ensures IsMultiple(p, cited) <==> SomeUnits(p, stated, catalogue, tolerance)
  {
  }

  lemma SumsAre(p: nat, cited: seq<nat>, stated: seq<nat>, catalogue: set<int>, tolerance: int)
    requires forall c :: c in cited <==> CitedPrice(c, stated, catalogue, tolerance)
    ensures cited != [] && IsSum(p, cited, MAX_ADDENDS) <==> SomeTotal(p, stated, catalogue, tolerance)
  {
    if SomeTotal(p, stated, catalogue, tolerance) {
      var xs: seq<nat> :|
        |xs| <= 10 && Total(xs) == p && forall x :: x in xs ==> CitedPrice(x, stated, catalogue, tolerance);
      assert AllCited(xs, cited);
    }
    if cited != [] && IsSum(p, cited, MAX_ADDENDS) {
      var xs: seq<nat> :| |xs| <= MAX_ADDENDS && AllCited(xs, cited) && Total(xs) == p;
      assert cited[0] in cited;
      forall x | x in xs ensures CitedPrice(x, stated, catalogue, tolerance) {
        var i :| 0 <= i < |xs| && xs[i] == x;
      }
    }
  }

  /** The loop of `check_prices`. */
  method FindContradictions(stated: seq<nat>, allowed: set<int>, derived: set<int>, tolerance: int)
    returns (bad: seq<nat>)
    ensures bad == Contradictions(stated, |stated|, allowed, derived, tolerance)
  {
    var cited := Cited(stated, allowed, tolerance);
    bad := [];
    for i := 0 to |stated|
      invariant bad == Contradictions(stated, i, allowed, derived, tolerance)
    {
      if Near(stated[i], allowed, tolerance) {
        continue;
      }
      if Near(stated[i], derived, QuoteTolerance(tolerance)) {
        continue;
      }
      var explained := Derivable(stated[i], cited);
      if explained {
        continue;
      }
      bad := bad + [stated[i]];
    }
  }

  /** `check_prices` on a text whose money figures and square metres have been found. */
  method CheckPrices(matches: seq<Money>, figures: seq<real>, prices: Json, tolerance: int)
    returns (r: PriceCheck, ghost catalogue: set<int>, ghost quotes: set<int>)
    ensures forall n :: n in catalogue <==> HasPrice(prices, n)
    ensures forall n :: n in quotes <==> Quoted(n, prices, Surfaces(figures))
    ensures r.contradictions == Reported(Stated(matches), catalogue, quotes, tolerance)
    ensures r.ok <==> r.contradictions == []
  {
    var allowed := FlattenPrices(prices);
    var derived, _ := Derivables(prices, Surfaces(figures));
    catalogue, quotes := allowed, derived;
    if allowed == {} {
      return PriceCheck([], true), catalogue, quotes;
    }
    var stated := StatedPrices(matches);
    var bad := FindContradictions(stated, allowed, derived, tolerance);
    r := PriceCheck(bad, |bad| == 0);
  }

  lemma ExplainedByMore(amount: nat, cited: seq<nat>, more: seq<nat>)
    requires Explained(amount, cited) && forall p :: p in cited ==> p in more
    ensures Explained(amount, more)
  {
    assert cited[0] in cited;
    if IsSum(amount, cited, MAX_ADDENDS) {
      var xs: seq<nat> :| |xs| <= MAX_ADDENDS && AllCited(xs, cited) && Total(xs) == amount;
      assert AllCited(xs, more);
    } else {
      var p, n: nat :| p in cited && p > 0 && 2 <= n <= MAX_UNITS && amount == Times(n, p);
    }
  }

  /** A larger catalogue contradicts less. */
  lemma ContradictsLess(p: nat, stated: seq<nat>, catalogue: set<int>, larger: set<int>, quotes: set<int>,
      tolerance: int)
    requires catalogue <= larger && Contradicts(p, stated, larger, quotes, tolerance)
    ensures Contradicts(p, stated, catalogue, quotes, tolerance)
  {
    var cited, more := Cited(stated, catalogue, tolerance), Cited(stated, larger, tolerance);
    assert forall q :: Near(q, catalogue, tolerance) ==> Near(q, larger, tolerance);
    if Explained(p, cited) {
      ExplainedByMore(p, cited, more);
    }
  }

  /** The elements of `xs` that also satisfy the check against another catalogue. */
  ghost function StillBad(xs: seq<nat>, stated: seq<nat>, catalogue: set<int>, quotes: set<int>,
      tolerance: int): seq<nat> {
    if xs == [] then []
    else
      var last := |xs| - 1;
      StillBad(xs[..last], stated, catalogue, quotes, tolerance)
      + if Contradicts(xs[last], stated, catalogue, quotes, tolerance) then [xs[last]] else []
  }

  /** With more prices the loop keeps its old list with some entries struck out. */
  lemma {:induction false} ContradictionsStruckOut(stated: seq<nat>, n: nat, catalogue: set<int>, larger: set<int>,
      quotes: set<int>, tolerance: int)
    requires n <= |stated| && catalogue <= larger
    ensures Contradictions(stated, n, larger, quotes, tolerance)
         == StillBad(Contradictions(stated, n, catalogue, quotes, tolerance), stated, larger, quotes, tolerance)
  {
    if n == 0 {
    } else {
      ContradictionsStruckOut(stated, n - 1, catalogue, larger, quotes, tolerance);
      var p := stated[n - 1];
      var before := Contradictions(stated, n - 1, catalogue, quotes, tolerance);
      var now := Contradicts(p, stated, catalogue, quotes, tolerance);
      var later := Contradicts(p, stated, larger, quotes, tolerance);
      assert later ==> now by {
        if later {
          ContradictsLess(p, stated, catalogue, larger, quotes, tolerance);
        }
      }
      assert StillBad(before + [p], stated, larger, quotes, tolerance)
          == StillBad(before, stated, larger, quotes, tolerance) + if later then [p] else [] by {
        StillBadAppend(before, p, stated, larger, quotes, tolerance);
      }
      assert Contradictions(stated, n, catalogue, quotes, tolerance) == before + if now then [p] else [];
      assert before + [] == before;
    }
  }

  lemma StillBadAppend(xs: seq<nat>, p: nat, stated: seq<nat>, catalogue: set<int>, quotes: set<int>, tolerance: int)
    ensures StillBad(xs + [p], stated, catalogue, quotes, tolerance)
         == StillBad(xs, stated, catalogue, quotes, tolerance)
            + if Contradicts(p, stated, catalogue, quotes, tolerance) then [p] else []
  {
    assert (xs + [p])[..|xs|] == xs;
  }

  lemma {:induction false} StillBadMembers(xs: seq<nat>, stated: seq<nat>, catalogue: set<int>, quotes: set<int>,
      tolerance: int)
    ensures forall p :: p in StillBad(xs, stated, catalogue, quotes, tolerance) ==> p in xs
  {
    if xs == [] {
    } else {
      StillBadMembers(xs[..|xs| - 1], stated, catalogue, quotes, tolerance);
    }
  }

  /** Some amount is reported with the larger catalogue and was not before. */
  ghost predicate Creates(stated: seq<nat>, catalogue: set<int>, larger: set<int>, quotes: set<int>, tolerance: int) {
    && catalogue <= larger
    && exists p ::
         p in Reported(stated, larger, quotes, tolerance) && p !in Reported(stated, catalogue, quotes, tolerance)
  }

  lemma LargerCatalogueCreatesNone(stated: seq<nat>, catalogue: set<int>, larger: set<int>, quotes: set<int>,
      tolerance: int)
    requires catalogue != {} && catalogue <= larger
    ensures Reported(stated, larger, quotes, tolerance)
         == StillBad(Reported(stated, catalogue, quotes, tolerance), stated, larger, quotes, tolerance)
    ensures !Creates(stated, catalogue, larger, quotes, tolerance)
  {
    assert larger != {};
    ContradictionsStruckOut(stated, |stated|, catalogue, larger, quotes, tolerance);
    StillBadMembers(Reported(stated, catalogue, quotes, tolerance), stated, larger, quotes, tolerance);
  }

  /** Nothing is reported against an empty catalogue, and the first price makes a stated 7 a contradiction. */
  lemma FirstPriceMayContradict()
    ensures Reported([7], {}, {}, 0) == [] && Reported([7], {5}, {}, 0) == [7]
  {
    assert Cited([7], {5}, 0) == [];
    assert Contradictions([7], 0, {5}, {}, 0) == [];
  }

  /** Adding prices can create no contradiction, quotes unchanged, exactly when there was a price before. */
  lemma MoreCatalogueFewerContradictions(catalogue: set<int>)
    ensures (forall stated, larger, quotes, tolerance :: !Creates(stated, catalogue, larger, quotes, tolerance))
       <==> catalogue != {}
  {
    if catalogue == {} {
      FirstPriceMayContradict();
      assert Creates([7], catalogue, {5}, {}, 0);
    } else {
      forall stated, larger, quotes, tolerance ensures !Creates(stated, catalogue, larger, quotes, tolerance) {
        if catalogue <= larger {
          LargerCatalogueCreatesNone(stated, catalogue, larger, quotes, tolerance);
        }
      }
    }
  }
}
