/** Service quotes: every amount that the tariff sheet yields for the surfaces a text mentions. */
module Quotes {
  import opened Wrappers
  import opened Rounding

  /** A JSON value as the services receive it; dict keys keep their order. */
  datatype Json =
    | JNull
    | JBool(flag: bool)
    | JInt(n: int)
    | JFloat(x: real)
    | JStr(s: string)
    | JList(items: seq<Json>)
    | JDict(entries: seq<(string, Json)>)
  {
    /** `isinstance(v, (int, float)) and not isinstance(v, bool)`. */
    predicate IsNumber() {
      JInt? || JFloat?
    }

    function Number(): real
      requires IsNumber()
    {
      if JInt? then n as real else x
    }

    /** `d.get(key)`. */
    function Get(key: string): Json
      requires JDict?
    {
      Lookup(entries, key)
    }
  }

  /** The entry of that key; keys are unique, so the first one is the one. */
  function Lookup(entries: seq<(string, Json)>, key: string): (r: Json)
    ensures (forall e :: e in entries ==> e.0 != key) ==> r == JNull
    ensures (exists e :: e in entries && e.0 == key) ==> (key, r) in entries
  {
    if entries == [] then JNull
    else if entries[0].0 == key then entries[0].1
    else Lookup(entries[1..], key)
  }

  /** The elements without repetitions (the source also sorts them; nothing depends on that order). */
  function Distinct<T(==,!new)>(xs: seq<T>): (r: seq<T>)
    ensures forall x :: x in r <==> x in xs
    ensures forall i, j :: 0 <= i < j < |r| ==> r[i] != r[j]
  {
    if xs == [] then []
    else
      var init := Distinct(xs[..|xs| - 1]);
      if xs[|xs| - 1] in init then init else init + [xs[|xs| - 1]]
  }

  predicate Ascending(xs: seq<int>) {
    forall i, j :: 0 <= i < j < |xs| ==> xs[i] < xs[j]
  }

  function InsertOnce(v: int, xs: seq<int>): (r: seq<int>)
    requires Ascending(xs)
    ensures Ascending(r)
    ensures forall x :: x in r <==> x == v || x in xs
  {
    if xs == [] then [v]
    else if v < xs[0] then [v] + xs
    else if v == xs[0] then xs
    else
      assert xs == [xs[0]] + xs[1..];
      SmallerFirst(xs[0], InsertOnce(v, xs[1..]));
      [xs[0]] + InsertOnce(v, xs[1..])
  }

  lemma SmallerFirst(x: int, rest: seq<int>)
    requires Ascending(rest) && forall y :: y in rest ==> x < y
    ensures Ascending([x] + rest)
  {
    var all := [x] + rest;
    forall i, j | 0 <= i < j < |all| ensures all[i] < all[j] {
      assert all[j] == rest[j - 1] && rest[j - 1] in rest;
    }
  }

  /** `sorted(set(xs))`. */
  function SortedSet(xs: seq<int>): (r: seq<int>)
    ensures Ascending(r)
    ensures forall x :: x in r <==> x in xs
  {
    if xs == [] then []
    else
      assert xs == [xs[0]] + xs[1..];
      InsertOnce(xs[0], SortedSet(xs[1..]))
  }

  /** `superficies_mencionadas` over the figures the pattern found: rounded, within (0, 100000], in order. */
  function Surfaces(figures: seq<real>): (r: seq<int>)
    ensures forall v :: v in r <==> 0 < v <= 100_000 && exists f :: f in figures && v == PyRound(f)
    ensures Ascending(r)
  {
    SortedSet(Plausible(figures))
  }

  function Plausible(figures: seq<real>): (r: seq<int>)
    ensures forall v :: v in r <==> 0 < v <= 100_000 && exists f :: f in figures && v == PyRound(f)
  {
    if figures == [] then []
    else
      var v := PyRound(figures[0]);
      (if 0 < v <= 100_000 then [v] else []) + Plausible(figures[1..])
  }

  function Numbers(entries: seq<(string, Json)>): seq<real> {
    if entries == [] then []
    else (if entries[0].1.IsNumber() then [entries[0].1.Number()] else []) + Numbers(entries[1..])
  }

  function Between(xs: seq<real>, low: real, strict: bool, high: real): seq<real> {
    if xs == [] then []
    else
      var ok := (if strict then low < xs[0] else low <= xs[0]) && xs[0] <= high;
      (if ok then [xs[0]] else []) + Between(xs[1..], low, strict, high)
  }

  const SURCHARGE := "recargo_"

  function SurchargeEntries(entries: seq<(string, Json)>): seq<(string, Json)> {
    if entries == [] then []
    else (if SURCHARGE <= entries[0].0 then [entries[0]] else []) + SurchargeEntries(entries[1..])
  }

  function PlusOne(xs: seq<real>): seq<real> {
    seq(|xs|, i requires 0 <= i < |xs| => 1.0 + xs[i])
  }

  /** `_recargos`: no surcharge, and each declared fraction in [0, 5]. */
  function Surcharges(service: Json): seq<real>
    requires service.JDict?
  {
    Distinct([1.0] + PlusOne(Between(Numbers(SurchargeEntries(service.entries)), 0.0, false, 5.0)))
  }

  /** `_frecuencias`: once, and each declared multiplier in (0, 2]. */
  function Frequencies(prices: Json): seq<real> {
    if prices.JDict? && prices.Get("frecuencia").JDict?
    then Distinct([1.0] + Between(Numbers(prices.Get("frecuencia").entries), 0.0, true, 2.0))
    else [1.0]
  }

  /** `_tarifas`. */
  function Tariffs(prices: Json): seq<(string, Json)> {
    if prices.JDict? && prices.Get("servicios").JDict? then prices.Get("servicios").entries else []
  }

  function Minimum(service: Json): real
    requires service.JDict?
  {
    if service.Get("minimo").IsNumber() then service.Get("minimo").Number() else 0.0
  }

  /** One row of the enumeration. */
  datatype Combo = Combo(rate: real, surcharge: real, frequency: real, surface: int)

  function Max(a: real, b: real): (r: real)
    ensures r >= a && r >= b && (r == a || r == b)
  {
    if a < b then b else a
  }

  function Gross(rate: real, surface: int, surcharge: real): (gross: real)
    ensures gross == rate * surface as real * surcharge
  {
    rate * surface as real * surcharge
  }

  /** A quote with the minimum applied before the frequency discount. */
  function FloorFirst(gross: real, frequency: real, minimum: real): int {
    PyRound(Max(gross, minimum) * frequency)
  }

  /** A quote with the minimum applied after it. */
  function FloorLast(gross: real, frequency: real, minimum: real): int {
    PyRound(Max(gross * frequency, minimum))
  }

  predicate IsQuote(amount: int, c: Combo, minimum: real) {
    var gross := Gross(c.rate, c.surface, c.surcharge);
    amount == FloorFirst(gross, c.frequency, minimum) || amount == FloorLast(gross, c.frequency, minimum)
  }

  function Row<A(!new), B(!new)>(x: A, ys: seq<B>): (r: seq<(A, B)>)
    ensures |r| == |ys|
    ensures forall a, y :: (a, y) in r <==> a == x && y in ys
  {
    var r := seq(|ys|, i requires 0 <= i < |ys| => (x, ys[i]));
    assert forall i :: 0 <= i < |ys| ==> r[i] == (x, ys[i]);
    r
  }

  function Spread<A(!new), B(!new)>(xs: seq<A>, ys: seq<B>): (r: seq<(A, B)>)
    ensures |r| == |xs| * |ys|
    ensures forall x, y :: (x, y) in r <==> x in xs && y in ys
  {
    if xs == [] then []
    else
      assert (1 + |xs[1..]|) * |ys| == |ys| + |xs[1..]| * |ys|;
      assert xs == [xs[0]] + xs[1..];
      Row(xs[0], ys) + Spread(xs[1..], ys)
  }

  /** `itertools.product`. */
  function Product(rates: seq<real>, surcharges: seq<real>, frequencies: seq<real>, surfaces: seq<int>): (r: seq<Combo>)
    ensures |r| == |rates| * |surcharges| * (|frequencies| * |surfaces|)
    ensures forall c :: c in r <==>
              c.rate in rates && c.surcharge in surcharges && c.frequency in frequencies && c.surface in surfaces
  {
    var pairs := Spread(Spread(rates, surcharges), Spread(frequencies, surfaces));
    var r := seq(|pairs|, i requires 0 <= i < |pairs| =>
      Combo(pairs[i].0.0, pairs[i].0.1, pairs[i].1.0, pairs[i].1.1));
    assert forall c: Combo :: c in r <==> ((c.rate, c.surcharge), (c.frequency, c.surface)) in pairs by {
      forall c: Combo | ((c.rate, c.surcharge), (c.frequency, c.surface)) in pairs ensures c in r {
        var i :| 0 <= i < |pairs| && pairs[i] == ((c.rate, c.surcharge), (c.frequency, c.surface));
        assert r[i] == c;
      }
    }
    r
  }

  /** The service declares rates per square metre. */
  predicate Quotable(service: Json) {
    service.JDict? && service.Get("precio_m2").JDict?
  }

  function Combos(service: Json, frequencies: seq<real>, surfaces: seq<int>): seq<Combo>
    requires Quotable(service)
  {
    Product(Numbers(service.Get("precio_m2").entries), Surcharges(service), frequencies, surfaces)
  }

  // ----- The tariff, entry by entry -------------------------------------------------------------

  /** The entry holds this number, whichever of the two JSON forms it has. */
  predicate NumberIs(v: Json, r: real) {
    v == JFloat(r) || (v.JInt? && v.n as real == r)
  }

  ghost predicate HasNumber(d: Json, r: real) {
    d.JDict? && exists e :: e in d.entries && NumberIs(e.1, r)
  }

  /** No surcharge, or one plus the fraction of some `recargo_` entry, if that is from 0 to 5. */
  ghost predicate SurchargeFactor(service: Json, s: real)
    requires service.JDict?
  {
    || s == 1.0
    || (&& 0.0 <= s - 1.0 <= 5.0
        && exists e :: e in service.entries && "recargo_" <= e.0 && NumberIs(e.1, s - 1.0))
  }

  /** Once, or some declared multiplier above 0 and up to 2. */
  ghost predicate FrequencyFactor(prices: Json, q: real) {
    q == 1.0 || (0.0 < q <= 2.0 && prices.JDict? && HasNumber(prices.Get("frecuencia"), q))
  }

  /** The service's minimum; without a number there is none. */
  ghost predicate MinimumIs(service: Json, low: real)
    requires service.JDict?
  {
    NumberIs(service.Get("minimo"), low) || (low == 0.0 && forall x: real :: !NumberIs(service.Get("minimo"), x))
  }

  /** The rounded product, the minimum applied before the frequency or after it. */
  predicate Amounts(n: int, gross: real, q: real, low: real) {
    n == PyRound(Max(gross, low) * q) || n == PyRound(Max(gross * q, low))
  }

  ghost predicate ServiceAmount(n: int, service: Json, r: real, a: int, s: real, q: real)
    requires service.JDict?
  {
    && HasNumber(service.Get("precio_m2"), r) && SurchargeFactor(service, s)
    && FloorsAt(n, service, Gross(r, a, s), q)
  }

  ghost predicate FloorsAt(n: int, service: Json, gross: real, q: real)
    requires service.JDict?
  {
    exists low :: MinimumIs(service, low) && Amounts(n, gross, q, low)
  }

  /** The service yields the amount for one of the frequencies and surfaces. */
  ghost predicate QuotedBy(n: int, service: Json, frequencies: seq<real>, surfaces: seq<int>) {
    service.JDict? && exists r, a, s, q :: a in surfaces && q in frequencies && ServiceAmount(n, service, r, a, s, q)
  }

  ghost predicate Serves(prices: Json, service: Json) {
    && prices.JDict? && prices.Get("servicios").JDict?
    && exists e :: e in prices.Get("servicios").entries && e.1 == service
  }

  /** The amount follows from some service, rate, surcharge, frequency and surface. */
  ghost predicate Quoted(n: int, prices: Json, surfaces: seq<int>) {
    exists service, r, a, s, q ::
      && Serves(prices, service) && a in surfaces && FrequencyFactor(prices, q)
      && service.JDict? && ServiceAmount(n, service, r, a, s, q)
  }

  lemma {:induction false} NumbersAre(entries: seq<(string, Json)>, r: real)
    ensures r in Numbers(entries) <==> exists e :: e in entries && NumberIs(e.1, r)
  {
    if entries == [] {
    } else {
      NumbersAre(entries[1..], r);
      assert entries == [entries[0]] + entries[1..];
    }
  }

  lemma {:induction false} BetweenIs(xs: seq<real>, low: real, strict: bool, high: real, x: real)
    ensures x in Between(xs, low, strict, high) <==> x in xs && low <= x <= high && (strict ==> low < x)
  {
    if xs == [] {
    } else {
      BetweenIs(xs[1..], low, strict, high, x);
      assert xs == [xs[0]] + xs[1..];
    }
  }

  lemma {:induction false} SurchargeEntriesAre(entries: seq<(string, Json)>, e: (string, Json))
    ensures e in SurchargeEntries(entries) <==> e in entries && "recargo_" <= e.0
  {
    if entries == [] {
    } else {
      SurchargeEntriesAre(entries[1..], e);
      assert entries == [entries[0]] + entries[1..];
    }
  }

  lemma PlusOneIs(xs: seq<real>, s: real)
    ensures s in PlusOne(xs) <==> s - 1.0 in xs
  {
    if s - 1.0 in xs {
      var i :| 0 <= i < |xs| && xs[i] == s - 1.0;
      assert PlusOne(xs)[i] == s;
    }
  }

  lemma SurchargesAre(service: Json, s: real)
    requires service.JDict?
    ensures s in Surcharges(service) <==> SurchargeFactor(service, s)
  {
    var entries := SurchargeEntries(service.entries);
    var fractions := Between(Numbers(entries), 0.0, false, 5.0);
    PlusOneIs(fractions, s);
    BetweenIs(Numbers(entries), 0.0, false, 5.0, s - 1.0);
    NumbersAre(entries, s - 1.0);
    forall e ensures e in entries <==> e in service.entries && "recargo_" <= e.0 {
      SurchargeEntriesAre(service.entries, e);
    }
  }

  lemma FrequenciesAre(prices: Json, q: real)
    ensures q in Frequencies(prices) <==> FrequencyFactor(prices, q)
  {
    if prices.JDict? && prices.Get("frecuencia").JDict? {
      var entries := prices.Get("frecuencia").entries;
      BetweenIs(Numbers(entries), 0.0, true, 2.0, q);
      NumbersAre(entries, q);
    }
  }

  lemma MinimumAre(service: Json, low: real)
    requires service.JDict?
    ensures MinimumIs(service, low) <==> low == Minimum(service)
  {
    var v := service.Get("minimo");
    if v.IsNumber() {
      assert NumberIs(v, v.Number());
    }
  }

  lemma QuoteAmounts(n: int, gross: real, q: real, low: real)
    ensures Amounts(n, gross, q, low) <==> n == FloorFirst(gross, q, low) || n == FloorLast(gross, q, low)
  {
  }

  lemma CombosAre(service: Json, frequencies: seq<real>, surfaces: seq<int>, c: Combo)
    requires Quotable(service)
    ensures c in Combos(service, frequencies, surfaces)
       <==> HasNumber(service.Get("precio_m2"), c.rate) && SurchargeFactor(service, c.surcharge)
            && c.frequency in frequencies && c.surface in surfaces
  {
    NumbersAre(service.Get("precio_m2").entries, c.rate);
    SurchargesAre(service, c.surcharge);
  }

  lemma FloorsAtMinimum(n: int, service: Json, gross: real, q: real)
    requires service.JDict?
    ensures FloorsAt(n, service, gross, q) <==> Amounts(n, gross, q, Minimum(service))
  {
    forall low ensures MinimumIs(service, low) <==> low == Minimum(service) {
      MinimumAre(service, low);
    }
  }

  lemma QuoteFloors(n: int, service: Json, c: Combo)
    requires service.JDict?
    ensures IsQuote(n, c, Minimum(service))
       <==> FloorsAt(n, service, Gross(c.rate, c.surface, c.surcharge), c.frequency)
  {
    FloorsAtMinimum(n, service, Gross(c.rate, c.surface, c.surcharge), c.frequency);
    QuoteAmounts(n, Gross(c.rate, c.surface, c.surcharge), c.frequency, Minimum(service));
  }

  lemma ServiceAmountIs(n: int, service: Json, c: Combo)
    requires service.JDict?
    ensures ServiceAmount(n, service, c.rate, c.surface, c.surcharge, c.frequency)
       <==> HasNumber(service.Get("precio_m2"), c.rate) && SurchargeFactor(service, c.surcharge)
            && FloorsAt(n, service, Gross(c.rate, c.surface, c.surcharge), c.frequency)
  {
  }

  /** The enumeration of one service finds exactly its quotes. */
  lemma CombosQuote(n: int, service: Json, frequencies: seq<real>, surfaces: seq<int>)
    requires Quotable(service)
    ensures QuotedBy(n, service, frequencies, surfaces)
       <==> exists c :: c in Combos(service, frequencies, surfaces) && IsQuote(n, c, Minimum(service))
  {
    if QuotedBy(n, service, frequencies, surfaces) {
      var r, a, s, q :| a in surfaces && q in frequencies && ServiceAmount(n, service, r, a, s, q);
      var c := Combo(r, s, q, a);
      CombosAre(service, frequencies, surfaces, c);
      ServiceAmountIs(n, service, c);
      QuoteFloors(n, service, c);
    }
    forall c | c in Combos(service, frequencies, surfaces) && IsQuote(n, c, Minimum(service))
      ensures QuotedBy(n, service, frequencies, surfaces)
    {
      CombosAre(service, frequencies, surfaces, c);
      ServiceAmountIs(n, service, c);
      QuoteFloors(n, service, c);
    }
  }

  lemma UnquotableQuotesNothing(n: int, service: Json, frequencies: seq<real>, surfaces: seq<int>)
    requires !Quotable(service)
    ensures !QuotedBy(n, service, frequencies, surfaces)
  {
  }

  /** The services of the sheet together, with its frequencies, find exactly the quotes of the tariff. */
  lemma TariffQuotes(n: int, prices: Json, surfaces: seq<int>)
    ensures Quoted(n, prices, surfaces)
       <==> exists t :: t in Tariffs(prices) && QuotedBy(n, t.1, Frequencies(prices), surfaces)
  {
    if Quoted(n, prices, surfaces) {
      var service, r, a, s, q :|
        && Serves(prices, service) && a in surfaces && FrequencyFactor(prices, q)
        && service.JDict? && ServiceAmount(n, service, r, a, s, q);
      FrequenciesAre(prices, q);
      var e :| e in prices.Get("servicios").entries && e.1 == service;
      assert e in Tariffs(prices) && QuotedBy(n, e.1, Frequencies(prices), surfaces);
    }
    forall t | t in Tariffs(prices) && QuotedBy(n, t.1, Frequencies(prices), surfaces)
      ensures Quoted(n, prices, surfaces)
    {
      var r, a, s, q :| a in surfaces && q in Frequencies(prices) && ServiceAmount(n, t.1, r, a, s, q);
      FrequenciesAre(prices, q);
      assert Serves(prices, t.1);
    }
  }

  function Pairs(m: nat, n: nat): nat {
    m * n
  }

  function ServiceCount(service: Json, frequencies: seq<real>, surfaces: seq<int>): nat {
    if Quotable(service)
    then Pairs(Pairs(|Numbers(service.Get("precio_m2").entries)|, |Surcharges(service)|),
               Pairs(|frequencies|, |surfaces|))
    else 0
  }

  /** How many combinations the first `n` services contribute. */
  function CombinationCount(tariffs: seq<(string, Json)>, n: nat, frequencies: seq<real>, surfaces: seq<int>): nat
    requires n <= |tariffs|
  {
    if n == 0 then 0
    else CombinationCount(tariffs, n - 1, frequencies, surfaces) + ServiceCount(tariffs[n - 1].1, frequencies, surfaces)
  }

  ghost predicate QuotedBefore(amount: int, tariffs: seq<(string, Json)>, n: nat, frequencies: seq<real>,
      surfaces: seq<int>)
    requires n <= |tariffs|
  {
    exists k :: 0 <= k < n && QuotedBy(amount, tariffs[k].1, frequencies, surfaces)
  }

  lemma QuotedStep(amount: int, tariffs: seq<(string, Json)>, i: nat, frequencies: seq<real>, surfaces: seq<int>)
    requires i < |tariffs|
    ensures QuotedBefore(amount, tariffs, i + 1, frequencies, surfaces)
       <==> QuotedBefore(amount, tariffs, i, frequencies, surfaces)
            || QuotedBy(amount, tariffs[i].1, frequencies, surfaces)
  {
  }

  /** `derivables`: exactly the quotes of the tariff sheet, and how many combinations were tried. */
  method Derivables(prices: Json, surfaces: seq<int>) returns (amounts: set<int>, combinations: nat)
    ensures forall n :: n in amounts <==> Quoted(n, prices, surfaces)
    ensures combinations == if surfaces == [] then 0
                            else CombinationCount(Tariffs(prices), |Tariffs(prices)|, Frequencies(prices), surfaces)
  {
    amounts, combinations := {}, 0;
    var tariffs := Tariffs(prices);
    var frequencies := Frequencies(prices);
    if surfaces == [] {
      NoSurfacesNoQuotes(prices);
      return;
    }
    for i := 0 to |tariffs|
      invariant forall n :: n in amounts <==> QuotedBefore(n, tariffs, i, frequencies, surfaces)
      invariant combinations == CombinationCount(tariffs, i, frequencies, surfaces)
    {
      var found, tried := ServiceQuotes(tariffs[i].1, frequencies, surfaces);
      forall n ensures QuotedBefore(n, tariffs, i + 1, frequencies, surfaces)
                  <==> QuotedBefore(n, tariffs, i, frequencies, surfaces) || n in found {
        QuotedStep(n, tariffs, i, frequencies, surfaces);
      }
      amounts := amounts + found;
      combinations := combinations + tried;
    }
    forall n ensures n in amounts <==> Quoted(n, prices, surfaces) {
      TariffQuotes(n, prices, surfaces);
    }
  }

  lemma NoSurfacesNoQuotes(prices: Json)
    ensures forall n :: !Quoted(n, prices, [])
  {
  }

  method ServiceQuotes(service: Json, frequencies: seq<real>, surfaces: seq<int>)
    returns (amounts: set<int>, tried: nat)
    ensures forall n :: n in amounts <==> QuotedBy(n, service, frequencies, surfaces)
    ensures tried == ServiceCount(service, frequencies, surfaces)
  {
    if !Quotable(service) {
      forall n ensures !QuotedBy(n, service, frequencies, surfaces) {
        UnquotableQuotesNothing(n, service, frequencies, surfaces);
      }
      return {}, 0;
    }
    amounts, tried := ComboQuotes(Combos(service, frequencies, surfaces), Minimum(service));
    forall n ensures n in amounts <==> QuotedBy(n, service, frequencies, surfaces) {
      CombosQuote(n, service, frequencies, surfaces);
    }
  }

  method ComboQuotes(combos: seq<Combo>, minimum: real) returns (amounts: set<int>, tried: nat)
    ensures forall n :: n in amounts <==> exists c :: c in combos && IsQuote(n, c, minimum)
    ensures tried == |combos|
  {
    amounts, tried := {}, 0;
    for i := 0 to |combos|
      invariant tried == i
      invariant forall n :: n in amounts <==> exists k :: 0 <= k < i && IsQuote(n, combos[k], minimum)
    {
      tried := tried + 1;
      var gross := Gross(combos[i].rate, combos[i].surface, combos[i].surcharge);
      amounts := amounts + {FloorFirst(gross, combos[i].frequency, minimum)}
                 + {FloorLast(gross, combos[i].frequency, minimum)};
    }
  }

  // ----- A worked sheet -------------------------------------------------------------------------

  /** 100 for the square metre, and 30 per cent more if it is urgent. */
  function UrgentService(): Json {
    JDict([("precio_m2", JDict([("fina", JInt(100))])), ("recargo_urgente", JFloat(0.3))])
  }

  lemma UrgentFacts()
    ensures var service := UrgentService();
            && HasNumber(service.Get("precio_m2"), 100.0)
            && SurchargeFactor(service, 1.0) && SurchargeFactor(service, 1.3) && MinimumIs(service, 0.0)
  {
    var service := UrgentService();
    var rates := service.Get("precio_m2");
    assert rates == JDict([("fina", JInt(100))]);
    assert NumberIs(rates.entries[0].1, 100.0) && rates.entries[0] in rates.entries;
    assert NumberIs(service.entries[1].1, 0.3) && service.entries[1] in service.entries;
    assert service.entries[1].0 == "recargo_urgente";
    assert service.Get("minimo") == JNull;
  }

  lemma UrgentAmounts()
    ensures Amounts(6000, Gross(100.0, 60, 1.0), 1.0, 0.0) && Amounts(7800, Gross(100.0, 60, 1.3), 1.0, 0.0)
  {
    PyRoundInteger(6000);
    PyRoundInteger(7800);
    assert Gross(100.0, 60, 1.0) == 6000.0 && Gross(100.0, 60, 1.3) == 7800.0;
  }

  /** Sixty square metres cost 6000, and 7800 with the surcharge. */
  lemma SurchargedQuote(prices: Json)
    requires prices == JDict([("servicios", JDict([("limpieza", UrgentService())]))])
    ensures Quoted(6000, prices, [60]) && Quoted(7800, prices, [60])
  {
    var service := UrgentService();
    UrgentFacts();
    UrgentAmounts();
    assert prices.Get("servicios").entries[0].1 == service;
    assert Serves(prices, service) && FrequencyFactor(prices, 1.0);
    assert FloorsAt(6000, service, Gross(100.0, 60, 1.0), 1.0) && FloorsAt(7800, service, Gross(100.0, 60, 1.3), 1.0);
    assert ServiceAmount(6000, service, 100.0, 60, 1.0, 1.0) && ServiceAmount(7800, service, 100.0, 60, 1.3, 1.0);
  }
}
