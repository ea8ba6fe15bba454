/**
 * What the anonymiser takes out: whatever a pattern or the recogniser finds in the text it reads has
 * its token in its place in the result, and is in the dictionary.
 */
module AnonymizerRedaction {
  import opened Wrappers
  import opened Text
  import opened TokenText
  import opened DigitText
  import opened Anonymizer
  import opened AnonymizerRoundTrip
  import Luhn

  const PATTERNS := 4

  /** The kinds of the patterns, the first one to be looked for first. */
  const ORDER: seq<string> := ["EMAIL", "CARD", "PHONE", "DNI"]

  /** Pattern number `n` finds this piece of the text, and it is to be replaced: a card number has to be valid. */
  predicate Finds(p: Patterns, n: nat, text: string, sp: Span) {
    && sp.start < sp.end <= |text|
    && (|| (n == 0 && sp in p.email(text))
        || (n == 1 && sp in p.card(text) && Luhn.Valid(Digits(text[sp.start..sp.end])))
        || (n == 2 && sp in p.phone(text))
        || (n == 3 && sp in DigitSpans(p.dni(text))))
  }

  /** What is looked for, and the token that takes its place. */
  datatype Rule = Rule(finds: (string, Span) -> bool, token: string -> string)

  function PatternRule(p: Patterns, n: nat, kind: string): Rule {
    Rule((s, sp) => Finds(p, n, s, sp), w => TokenOf(kind, p.hash(w)))
  }

  ghost predicate Silent(rule: Rule, text: string) {
    forall sp :: !rule.finds(text, sp)
  }

  /** What `[start, end)` of the rendered `before` was is now its token. */
  ghost predicate TokenFrom(token: string -> string, before: seq<Sym>, after: seq<Sym>, start: nat, end: nat) {
    && start <= end <= |Render(before)|
    && var w := Render(before)[start..end];
       PlacedFrom(before, after, start, Tk(token(w), w))
  }

  /** All that the rule finds in the text it reads has become a token, and no token has moved. */
  ghost predicate Redacts(rule: Rule, before: seq<Sym>, after: seq<Sym>) {
    && Kept(before, after)
    && (forall sp: Span :: rule.finds(Render(before), sp) ==> TokenFrom(rule.token, before, after, sp.start, sp.end))
    && (Silent(rule, Render(before)) ==> after == before)
  }

  // ----- The passes -----------------------------------------------------------------------------

  lemma {:induction false} AcceptedTakes(s: string, kind: string, spans: seq<Span>, sp: Span)
    requires InOrder(spans, s) && sp in spans && !Keeps(kind, s[sp.start..sp.end])
    ensures sp in Accepted(s, kind, spans)
  {
    if sp != spans[0] {
      assert sp in spans[1..];
      AcceptedTakes(s, kind, spans[1..], sp);
    }
  }

  lemma CutAtSpan(p: Patterns, s: string, kind: string, spans: seq<Span>, sp: Span)
    requires InOrder(spans, s) && sp in spans
    ensures Cut(sp.start, sp.end, TokenOf(kind, p.hash(s[sp.start..sp.end]))) in CutsFor(p, s, kind, spans)
  {
    var i :| 0 <= i < |spans| && spans[i] == sp;
    assert CutsFor(p, s, kind, spans)[i] in CutsFor(p, s, kind, spans);
  }

  /** The spans are what the pattern finds, but for the card numbers that are not valid. */
  ghost predicate SpansOf(p: Patterns, n: nat, kind: string, s: string, spans: seq<Span>) {
    && InOrder(spans, s)
    && forall sp: Span :: sp.start < sp.end <= |s| ==>
         (Finds(p, n, s, sp) <==> sp in spans && !Keeps(kind, s[sp.start..sp.end]))
  }

  lemma SilentAcceptsNone(p: Patterns, n: nat, kind: string, s: string, spans: seq<Span>)
    requires SpansOf(p, n, kind, s, spans) && forall sp :: !Finds(p, n, s, sp)
    ensures Accepted(s, kind, spans) == []
  {
    var accepted := Accepted(s, kind, spans);
    if accepted != [] {
      assert accepted[0] in accepted;
      AcceptedPassCheck(s, kind, spans, accepted[0]);
      assert false;
    }
  }

  lemma PassRedacts(p: Patterns, n: nat, d: Draft, kind: string, spans: seq<Span>, syms: seq<Sym>, origin: string,
      log: seq<(string, string)>)
    returns (r: seq<Sym>)
    requires forall s :: IsHexSuffix(p.hash(s))
    requires kind in KINDS && LawfulSpans(spans, d.text) && SpansOf(p, n, kind, d.text, spans)
    requires Represents(syms, d.text, origin, log) && Within(Pass(p, d, kind, spans).log, log)
    ensures Represents(r, Pass(p, d, kind, spans).text, origin, log)
    ensures Redacts(PatternRule(p, n, kind), syms, r)
    ensures Shown(syms, d.log) ==> Shown(r, Pass(p, d, kind, spans).log)
  {
    r := PassRepresents(p, d, kind, spans, syms, origin, log);
    var rule := PatternRule(p, n, kind);
    forall sp: Span | rule.finds(d.text, sp) ensures TokenFrom(rule.token, syms, r, sp.start, sp.end) {
      AcceptedTakes(d.text, kind, spans, sp);
      CutAtSpan(p, d.text, kind, Accepted(d.text, kind, spans), sp);
    }
    if Silent(rule, d.text) {
      assert forall sp :: rule.finds(d.text, sp) <==> Finds(p, n, d.text, sp);
      SilentAcceptsNone(p, n, kind, d.text, spans);
    }
  }

  // ----- The recogniser -------------------------------------------------------------------------

  lemma {:induction false} FindAllSound(s: string, token: string, from: nat, sp: Span)
    requires token != [] && sp in FindAll(s, token, from)
    ensures At(s, sp.start, token) && sp.end == sp.start + |token|
    decreases |s| - from
  {
    var i := Find(s, token, from).value;
    if sp != Span(i, i + |token|) {
      FindAllSound(s, token, i + |token|, sp);
    }
  }

  lemma {:induction false} RangesSound(s: string, keys: seq<string>, from: nat, sp: Span)
    requires NonEmpty(keys) && from <= |keys| && sp in TokenRanges(s, keys, from)
    ensures exists k :: k in keys && At(s, sp.start, k) && sp.end == sp.start + |k|
    decreases |keys| - from
  {
    if sp in FindAll(s, keys[from], 0) {
      FindAllSound(s, keys[from], 0, sp);
    } else {
      RangesSound(s, keys, from + 1, sp);
    }
  }

  /** The entity is off every occurrence of a token that has been placed. */
  ghost predicate OffTokens(syms: seq<Sym>, e: Entity) {
    forall x, i :: x in syms && x.Tk? && At(Render(syms), i, x.token) ==> e.end <= i || i + |x.token| <= e.start
  }

  /** The recogniser finds this entity in the text it reads, and it is to be replaced. */
  ghost predicate FindsEntity(p: Patterns, types: map<string, string>, syms: seq<Sym>, e: Entity) {
    && p.analyze.Some? && e in p.analyze.value(Render(syms)) && e.entityType in types
    && e.start < e.end <= |Render(syms)| && OffTokens(syms, e)
    && var w := Render(syms)[e.start..e.end];
       BracketFree(w) && !p.isStopWord(w)
  }

  predicate Overlap(e: Entity, f: Entity) {
    e.start < f.end && f.start < e.end
  }

  ghost predicate EntityTokenFrom(p: Patterns, kind: string, before: seq<Sym>, after: seq<Sym>, f: Entity) {
    && f.start <= f.end <= |Render(before)|
    && var w := Render(before)[f.start..f.end];
       PlacedFrom(before, after, f.start, Tk(TokenOf(kind, p.hash(w)), w))
  }

  ghost predicate EntityPlaced(p: Patterns, types: map<string, string>, before: seq<Sym>, after: seq<Sym>, f: Entity) {
    FindsEntity(p, types, before, f) && EntityTokenFrom(p, types[f.entityType], before, after, f)
  }

  lemma OffTokensIsClear(syms: seq<Sym>, log: seq<(string, string)>, e: Entity)
    requires NonEmpty(DictOf(log).keys) && Shown(syms, log) && OffTokens(syms, e)
    ensures !Overlaps(TokenRanges(Render(syms), DictOf(log).keys, 0), e)
  {
    var s, keys := Render(syms), DictOf(log).keys;
    forall sp | sp in TokenRanges(s, keys, 0) ensures e.end <= sp.start || e.start >= sp.end {
      RangesSound(s, keys, 0, sp);
      var k :| k in keys && At(s, sp.start, k) && sp.end == sp.start + |k|;
      DictFacts(log);
      var entry := (k, DictOf(log).values[k]);
      assert entry in log && Tk(entry.0, entry.1) in syms;
    }
  }

  lemma ClearIsOffTokens(syms: seq<Sym>, origin: string, log: seq<(string, string)>, e: Entity)
    requires TokensLogged(log) && NonEmpty(DictOf(log).keys) && Represents(syms, Render(syms), origin, log)
    requires e.start < e.end <= |Render(syms)| && !Overlaps(TokenRanges(Render(syms), DictOf(log).keys, 0), e)
    ensures OffTokens(syms, e)
  {
    var s, keys := Render(syms), DictOf(log).keys;
    forall x, i | x in syms && x.Tk? && At(s, i, x.token) ensures e.end <= i || i + |x.token| <= e.start {
      assert (x.token, x.original) in log;
      DictFacts(log);
      TokenShapedIsBracketed(x.token);
      var n :| 0 <= n < |keys| && keys[n] == x.token;
      RangesComplete(s, keys, n, i, 0);
    }
  }

  /** Every entity to be replaced is, unless it overlaps one that is; and no token has moved. */
  ghost predicate RedactsEntities(p: Patterns, types: map<string, string>, before: seq<Sym>, after: seq<Sym>) {
    && Kept(before, after)
    && forall e :: FindsEntity(p, types, before, e) ==>
         exists f :: EntityPlaced(p, types, before, after, f) && Overlap(e, f)
  }

  lemma NerRedacts(p: Patterns, types: map<string, string>, d: Draft, syms: seq<Sym>, origin: string,
      log: seq<(string, string)>)
    returns (r: seq<Sym>)
    requires Lawful(p) && TokensLogged(d.log) && NonEmpty(DictOf(d.log).keys) && types == PRESIDIO_KIND_MAP
    requires Represents(syms, d.text, origin, d.log) && Shown(syms, d.log) && Within(NerPass(p, d).log, log)
    ensures Represents(r, NerPass(p, d).text, origin, log) && RedactsEntities(p, types, syms, r)
  {
    r := NerRepresents(p, d, syms, origin, log);
    forall e | FindsEntity(p, types, syms, e) ensures exists f :: EntityPlaced(p, types, syms, r, f) && Overlap(e, f) {
      var f := EntityBehind(p, types, d, syms, origin, r, e);
    }
  }

  lemma EntityBehind(p: Patterns, types: map<string, string>, d: Draft, syms: seq<Sym>, origin: string, r: seq<Sym>,
      e: Entity)
    returns (f: Entity)
    requires Lawful(p) && TokensLogged(d.log) && NonEmpty(DictOf(d.log).keys) && types == PRESIDIO_KIND_MAP
    requires Represents(syms, d.text, origin, d.log) && Shown(syms, d.log) && FindsEntity(p, types, syms, e)
    requires Placed(syms, r, d.text, NerCuts(p, d))
    ensures EntityPlaced(p, types, syms, r, f) && Overlap(e, f)
  {
    OffTokensIsClear(syms, d.log, e);
    EntityReplacedOrClashes(p, d, e);
    var c :| c in NerCuts(p, d) && Clash(e, c);
    f := CutSource(p, d, c);
    ClearIsOffTokens(syms, origin, d.log, f);
    assert PlacedFrom(syms, r, c.start, Tk(c.token, Chunk(d.text, c)));
  }

  // ----- The whole run --------------------------------------------------------------------------

  /** Each rule in turn redacts all it finds in the text that the earlier ones have left. */
  ghost predicate RunOfStages(rules: seq<Rule>, stages: seq<seq<Sym>>) {
    && |stages| == |rules| + 1
    && (rules != [] ==> Redacts(rules[0], stages[0], stages[1]) && RunOfStages(rules[1..], stages[1..]))
  }

  lemma OneMoreStage(rules: seq<Rule>, stages: seq<seq<Sym>>)
    requires rules != [] && |stages| >= 2 && Redacts(rules[0], stages[0], stages[1])
    requires RunOfStages(rules[1..], stages[1..])
    ensures RunOfStages(rules, stages)
  {
  }

  lemma NoMoreStages(s: seq<Sym>)
    ensures RunOfStages([], [s])
  {
  }

  lemma Tails<T>(a: T, b: T, c: T, d: T, e: T)
    ensures [a, b][1..] == [b] && [a, b, c][1..] == [b, c] && [a, b, c, d][1..] == [b, c, d]
    ensures [a, b, c, d, e][1..] == [b, c, d, e] && [a][1..] == []
  {
  }

  lemma TwoStages(c: Rule, d: Rule, s2: seq<Sym>, s3: seq<Sym>, s4: seq<Sym>)
    requires Redacts(c, s2, s3) && Redacts(d, s3, s4)
    ensures RunOfStages([c, d], [s2, s3, s4])
  {
    NoMoreStages(s4);
    Tails(c, d, d, d, d);
    Tails(d, d, d, d, d);
    Tails(s3, s4, s4, s4, s4);
    Tails(s2, s3, s4, s4, s4);
    OneMoreStage([d], [s3, s4]);
    OneMoreStage([c, d], [s2, s3, s4]);
  }

  lemma FourStages(a: Rule, b: Rule, c: Rule, d: Rule, s0: seq<Sym>, s1: seq<Sym>, s2: seq<Sym>, s3: seq<Sym>,
      s4: seq<Sym>)
    requires Redacts(a, s0, s1) && Redacts(b, s1, s2) && Redacts(c, s2, s3) && Redacts(d, s3, s4)
    ensures RunOfStages([a, b, c, d], [s0, s1, s2, s3, s4])
  {
    TwoStages(c, d, s2, s3, s4);
    Tails(a, b, c, d, d);
    Tails(b, c, d, d, d);
    Tails(s0, s1, s2, s3, s4);
    Tails(s1, s2, s3, s4, s4);
    OneMoreStage([b, c, d], [s1, s2, s3, s4]);
    OneMoreStage([a, b, c, d], [s0, s1, s2, s3, s4]);
  }

  function RulesOf(p: Patterns): (rules: seq<Rule>)
    ensures |rules| == PATTERNS
  {
    [PatternRule(p, 0, "EMAIL"), PatternRule(p, 1, "CARD"), PatternRule(p, 2, "PHONE"), PatternRule(p, 3, "DNI")]
  }

  lemma EmailStage(p: Patterns, d: Draft, syms: seq<Sym>, origin: string, log: seq<(string, string)>)
    returns (r: seq<Sym>)
    requires Lawful(p) && Represents(syms, d.text, origin, log)
    requires Within(Pass(p, d, "EMAIL", p.email(d.text)).log, log)
    ensures Represents(r, Pass(p, d, "EMAIL", p.email(d.text)).text, origin, log)
    ensures Redacts(PatternRule(p, 0, "EMAIL"), syms, r)
    ensures Shown(syms, d.log) ==> Shown(r, Pass(p, d, "EMAIL", p.email(d.text)).log)
  {
    r := PassRedacts(p, 0, d, "EMAIL", p.email(d.text), syms, origin, log);
  }

  lemma CardStage(p: Patterns, d: Draft, syms: seq<Sym>, origin: string, log: seq<(string, string)>)
    returns (r: seq<Sym>)
    requires Lawful(p) && Represents(syms, d.text, origin, log)
    requires Within(Pass(p, d, "CARD", p.card(d.text)).log, log)
    ensures Represents(r, Pass(p, d, "CARD", p.card(d.text)).text, origin, log)
    ensures Redacts(PatternRule(p, 1, "CARD"), syms, r)
    ensures Shown(syms, d.log) ==> Shown(r, Pass(p, d, "CARD", p.card(d.text)).log)
  {
    r := PassRedacts(p, 1, d, "CARD", p.card(d.text), syms, origin, log);
  }

  lemma PhoneStage(p: Patterns, d: Draft, syms: seq<Sym>, origin: string, log: seq<(string, string)>)
    returns (r: seq<Sym>)
    requires Lawful(p) && Represents(syms, d.text, origin, log)
    requires Within(Pass(p, d, "PHONE", p.phone(d.text)).log, log)
    ensures Represents(r, Pass(p, d, "PHONE", p.phone(d.text)).text, origin, log)
    ensures Redacts(PatternRule(p, 2, "PHONE"), syms, r)
    ensures Shown(syms, d.log) ==> Shown(r, Pass(p, d, "PHONE", p.phone(d.text)).log)
  {
    r := PassRedacts(p, 2, d, "PHONE", p.phone(d.text), syms, origin, log);
  }

  lemma DniStage(p: Patterns, d: Draft, syms: seq<Sym>, origin: string, log: seq<(string, string)>)
    returns (r: seq<Sym>)
    requires Lawful(p) && Represents(syms, d.text, origin, log) && LawfulDni(p.dni(d.text), d.text)
    requires Within(Pass(p, d, "DNI", DigitSpans(p.dni(d.text))).log, log)
    ensures Represents(r, Pass(p, d, "DNI", DigitSpans(p.dni(d.text))).text, origin, log)
    ensures Redacts(PatternRule(p, 3, "DNI"), syms, r)
    ensures Shown(syms, d.log) ==> Shown(r, Pass(p, d, "DNI", DigitSpans(p.dni(d.text))).log)
  {
    r := PassRedacts(p, 3, d, "DNI", DigitSpans(p.dni(d.text)), syms, origin, log);
  }

  lemma RegexStages(p: Patterns, text: string)
    returns (s1: seq<Sym>, s2: seq<Sym>, s3: seq<Sym>, s4: seq<Sym>)
    requires Lawful(p)
    ensures Redacts(PatternRule(p, 0, "EMAIL"), Chars(text), s1) && Redacts(PatternRule(p, 1, "CARD"), s1, s2)
    ensures Redacts(PatternRule(p, 2, "PHONE"), s2, s3) && Redacts(PatternRule(p, 3, "DNI"), s3, s4)
    ensures var d := RegexPasses(p, text);
            Represents(s4, d.text, text, d.log) && Shown(s4, d.log)
  {
    var d0 := Draft(text, []);
    var d1 := Pass(p, d0, "EMAIL", p.email(text));
    var d2 := Pass(p, d1, "CARD", p.card(d1.text));
    var d3 := Pass(p, d2, "PHONE", p.phone(d2.text));
    var spans := DigitSpans(p.dni(d3.text));
    var log := Pass(p, d3, "DNI", spans).log;
    assert LawfulDni(p.dni(d3.text), d3.text);
    PassGrows(p, d1, "CARD", p.card(d1.text));
    PassGrows(p, d2, "PHONE", p.phone(d2.text));
    PassGrows(p, d3, "DNI", spans);
    CharsRepresent(text, log);
    s1 := EmailStage(p, d0, Chars(text), text, log);
    s2 := CardStage(p, d1, s1, text, log);
    s3 := PhoneStage(p, d2, s2, text, log);
    s4 := DniStage(p, d3, s3, text, log);
  }

  /** The stages of any run: each pattern in turn, in that order, and then the recogniser. */
  lemma RunHasStages(p: Patterns, types: map<string, string>, text: string) returns (stages: seq<seq<Sym>>, r: seq<Sym>)
    requires Lawful(p) && text != [] && types == PRESIDIO_KIND_MAP
    ensures RunOfStages(RulesOf(p), stages) && |stages| == PATTERNS + 1 && stages[0] == Chars(text)
    ensures RedactsEntities(p, types, stages[PATTERNS], r) && Represents(r, Run(p, text).text, text, Run(p, text).log)
  {
    var s1, s2, s3, s4 := RegexStages(p, text);
    var rules := RulesOf(p);
    FourStages(rules[0], rules[1], rules[2], rules[3], Chars(text), s1, s2, s3, s4);
    stages := [Chars(text), s1, s2, s3, s4];
    RunIs(p, text);
    r := NerRedacts(p, types, RegexPasses(p, text), s4, text, Run(p, text).log);
  }

  /** The piece `w` at offset `o` of the text has this token in its place in the result, and in the dictionary. */
  ghost predicate Redacted(p: Patterns, text: string, o: nat, w: string, token: string)
    requires Lawful(p)
  {
    && (exists syms :: Represents(syms, Run(p, text).text, text, Run(p, text).log) && Has(syms, o, Tk(token, w)))
    && Occurs(Run(p, text).text, token) && (token, w) in Run(p, text).log && token in DictOf(Run(p, text).log).keys
  }

  lemma TokenSeen(syms: seq<Sym>, text: string, origin: string, log: seq<(string, string)>, o: nat, x: Sym)
    requires Represents(syms, text, origin, log) && Has(syms, o, x) && x.Tk?
    ensures Occurs(text, x.token) && (x.token, x.original) in log && x.token in DictOf(log).keys
  {
    var k :| 0 <= k < |syms| && syms[k] == x && |Origin(syms[..k])| == o;
    TokenAt(syms, k);
    assert syms[k] in syms;
    DictFacts(log);
  }

  lemma ShownIsRedacted(p: Patterns, text: string, syms: seq<Sym>, o: nat, w: string, token: string)
    requires Lawful(p) && Represents(syms, Run(p, text).text, text, Run(p, text).log) && Has(syms, o, Tk(token, w))
    ensures Redacted(p, text, o, w, token)
  {
    TokenSeen(syms, Run(p, text).text, text, Run(p, text).log, o, Tk(token, w));
  }

  lemma {:induction false} SilentStages(rules: seq<Rule>, text: string, stages: seq<seq<Sym>>)
    requires RunOfStages(rules, stages) && stages[0] == Chars(text)
    requires forall m :: 0 <= m < |rules| ==> Silent(rules[m], text)
    ensures stages[|rules|] == Chars(text)
  {
    if rules == [] {
    } else {
      StaysSilent(rules[0], text, stages[0], stages[1]);
      SilentStages(rules[1..], text, stages[1..]);
    }
  }

  lemma StaysSilent(rule: Rule, text: string, before: seq<Sym>, after: seq<Sym>)
    requires Redacts(rule, before, after) && before == Chars(text) && Silent(rule, text)
    ensures after == before
  {
    CharsAreThemselves(text);
  }

  lemma {:induction false} KeptToTheEnd(rules: seq<Rule>, stages: seq<seq<Sym>>, o: nat, x: Sym)
    requires RunOfStages(rules, stages) && Has(stages[0], o, x) && x.Tk?
    ensures Has(stages[|rules|], o, x)
  {
    if rules == [] {
    } else {
      assert Redacts(rules[0], stages[0], stages[1]) && stages[1..][0] == stages[1];
      KeptToTheEnd(rules[1..], stages[1..], o, x);
    }
  }

  /** Were this the first rule, its token is still there at the end. */
  lemma MatchOfFirst(rules: seq<Rule>, text: string, stages: seq<seq<Sym>>, sp: Span, x: Sym)
    requires rules != [] && RunOfStages(rules, stages) && stages[0] == Chars(text)
    requires rules[0].finds(text, sp) && sp.start <= sp.end <= |text|
    requires x == Tk(rules[0].token(text[sp.start..sp.end]), text[sp.start..sp.end])
    ensures Has(stages[|rules|], sp.start, x)
  {
    FoundInPlain(rules[0], text, stages[1], sp, x);
    KeptToTheEnd(rules[1..], stages[1..], sp.start, x);
  }

  lemma SilentFirst(rules: seq<Rule>, text: string, stages: seq<seq<Sym>>)
    requires rules != [] && RunOfStages(rules, stages) && stages[0] == Chars(text) && Silent(rules[0], text)
    ensures |stages| == |rules| + 1 && RunOfStages(rules[1..], stages[1..]) && stages[1] == Chars(text)
  {
    StaysSilent(rules[0], text, stages[0], stages[1]);
  }

  /** The first rule that finds something in the text: its token is still there at the end. */
  lemma {:induction false} FirstMatch(rules: seq<Rule>, text: string, stages: seq<seq<Sym>>, n: nat, sp: Span, x: Sym)
    requires RunOfStages(rules, stages) && stages[0] == Chars(text) && n < |rules|
    requires rules[n].finds(text, sp) && sp.start <= sp.end <= |text|
    requires x == Tk(rules[n].token(text[sp.start..sp.end]), text[sp.start..sp.end])
    requires forall m :: 0 <= m < n ==> Silent(rules[m], text)
    ensures Has(stages[|rules|], sp.start, x)
  {
    if n == 0 {
      MatchOfFirst(rules, text, stages, sp, x);
    } else {
      SilentFirst(rules, text, stages);
      FirstMatch(rules[1..], text, stages[1..], n - 1, sp, x);
    }
  }

  lemma FoundInPlain(rule: Rule, text: string, after: seq<Sym>, sp: Span, x: Sym)
    requires Redacts(rule, Chars(text), after) && rule.finds(text, sp) && sp.start <= sp.end <= |text|
    requires x == Tk(rule.token(text[sp.start..sp.end]), text[sp.start..sp.end])
    ensures Has(after, sp.start, x)
  {
    CharsAreThemselves(text);
    assert TokenFrom(rule.token, Chars(text), after, sp.start, sp.end);
    PlacedInPlain(text, after, sp.start, x);
  }

  lemma PlacedInPlain(text: string, r: seq<Sym>, a: nat, x: Sym)
    requires PlacedFrom(Chars(text), r, a, x)
    ensures Has(r, a, x)
  {
    var o :| OffsetAt(Chars(text), a, o) && Has(r, o, x);
    PlainOffset(text, a, o);
  }

  ghost predicate FindsNothing(p: Patterns, n: nat, text: string) {
    forall sp :: !Finds(p, n, text, sp)
  }

  lemma RuleOf(p: Patterns, kinds: seq<string>, n: nat)
    requires kinds == ORDER && n < PATTERNS
    ensures RulesOf(p)[n] == PatternRule(p, n, kinds[n])
  {
  }

  lemma SilentRules(p: Patterns, kinds: seq<string>, text: string, n: nat)
    requires kinds == ORDER && n <= PATTERNS && forall m :: 0 <= m < n ==> FindsNothing(p, m, text)
    ensures forall m :: 0 <= m < n ==> Silent(RulesOf(p)[m], text)
  {
    forall m | 0 <= m < n ensures Silent(RulesOf(p)[m], text) {
      RuleOf(p, kinds, m);
      assert FindsNothing(p, m, text);
    }
  }

  /**
   * What the pattern of one kind finds in the text, the earlier kinds finding nothing, is redacted under
   * that kind at its place, whatever the later patterns and the recogniser find: so a piece that two
   * patterns match gets the earlier kind.
   */
  lemma MatchIsRedacted(p: Patterns, kinds: seq<string>, text: string, n: nat, sp: Span)
    requires Lawful(p) && kinds == ORDER && n < |kinds| && Finds(p, n, text, sp)
    requires forall m :: 0 <= m < n ==> FindsNothing(p, m, text)
    ensures var w := text[sp.start..sp.end];
            Redacted(p, text, sp.start, w, TokenOf(kinds[n], p.hash(w)))
  {
    var stages, r := RunHasStages(p, PRESIDIO_KIND_MAP, text);
    RuleOf(p, kinds, n);
    SilentRules(p, kinds, text, n);
    MatchStaysRedacted(p, RulesOf(p), text, stages, r, n, sp);
  }

  lemma MatchStaysRedacted(p: Patterns, rules: seq<Rule>, text: string, stages: seq<seq<Sym>>, r: seq<Sym>, n: nat,
      sp: Span)
    requires Lawful(p) && RunOfStages(rules, stages) && stages[0] == Chars(text) && n < |rules|
    requires rules[n].finds(text, sp) && sp.start <= sp.end <= |text|
    requires forall m :: 0 <= m < n ==> Silent(rules[m], text)
    requires Kept(stages[|rules|], r) && Represents(r, Run(p, text).text, text, Run(p, text).log)
    ensures var w := text[sp.start..sp.end];
            Redacted(p, text, sp.start, w, rules[n].token(w))
  {
    var w := text[sp.start..sp.end];
    var x := Tk(rules[n].token(w), w);
    FirstMatch(rules, text, stages, n, sp, x);
    assert Has(r, sp.start, x);
    ShownIsRedacted(p, text, r, sp.start, w, x.token);
  }

  /** The recogniser finds the entity in plain text; it is of a known type and no stop word. */
  predicate Known(p: Patterns, types: map<string, string>, text: string, e: Entity) {
    && p.analyze.Some? && e in p.analyze.value(text) && e.entityType in types
    && e.start < e.end <= |text| && BracketFree(text[e.start..e.end]) && !p.isStopWord(text[e.start..e.end])
  }

  /** Where no pattern finds anything, a known entity is redacted under its kind, or one that it overlaps. */
  lemma EntityIsRedacted(p: Patterns, types: map<string, string>, text: string, e: Entity) returns (f: Entity)
    requires Lawful(p) && types == PRESIDIO_KIND_MAP && (forall m :: 0 <= m < PATTERNS ==> FindsNothing(p, m, text))
    requires Known(p, types, text, e)
    ensures Known(p, types, text, f) && Overlap(e, f)
    ensures var w := text[f.start..f.end];
            Redacted(p, text, f.start, w, TokenOf(types[f.entityType], p.hash(w)))
  {
    var syms, d := PlainStage(p, text);
    var r := NerRepresents(p, d, syms, text, Run(p, text).log);
    PlainEntity(p, types, text, e);
    f := EntityBehind(p, types, d, syms, text, r, e);
    PlacedEntity(p, types, text, r, f);
    var w := text[f.start..f.end];
    ShownIsRedacted(p, text, r, f.start, w, TokenOf(types[f.entityType], p.hash(w)));
  }

  /** What the recogniser gets where no pattern finds anything: the text. */
  lemma PlainStage(p: Patterns, text: string) returns (syms: seq<Sym>, d: Draft)
    requires Lawful(p) && text != [] && forall m :: 0 <= m < PATTERNS ==> FindsNothing(p, m, text)
    ensures syms == Chars(text) && Represents(syms, d.text, text, d.log) && Shown(syms, d.log)
    ensures TokensLogged(d.log) && NonEmpty(DictOf(d.log).keys) && Run(p, text) == NerPass(p, d)
  {
    var s1, s2, s3, s4 := RegexStages(p, text);
    var rules := RulesOf(p);
    FourStages(rules[0], rules[1], rules[2], rules[3], Chars(text), s1, s2, s3, s4);
    SilentRules(p, ORDER, text, PATTERNS);
    SilentStages(rules, text, [Chars(text), s1, s2, s3, s4]);
    RunIs(p, text);
    syms, d := s4, RegexPasses(p, text);
  }

  lemma PlainEntity(p: Patterns, types: map<string, string>, text: string, e: Entity)
    ensures Known(p, types, text, e) <==> FindsEntity(p, types, Chars(text), e)
  {
    CharsAreThemselves(text);
  }

  lemma PlacedEntity(p: Patterns, types: map<string, string>, text: string, r: seq<Sym>, f: Entity)
    requires EntityPlaced(p, types, Chars(text), r, f)
    ensures Known(p, types, text, f)
    ensures var w := text[f.start..f.end];
            Has(r, f.start, Tk(TokenOf(types[f.entityType], p.hash(w)), w))
  {
    CharsAreThemselves(text);
    PlainEntity(p, types, text, f);
    var w := text[f.start..f.end];
    PlacedInPlain(text, r, f.start, Tk(TokenOf(types[f.entityType], p.hash(w)), w));
  }
}
