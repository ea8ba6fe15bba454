/** What the anonymiser promises: reversible text, and entity spans applied as if all at once. */
module AnonymizerRoundTrip {
  import opened Wrappers
  import opened Text
  import opened TokenText
  import opened Anonymizer

  /** `syms` reads `text`, stands for `origin`, and every token in it is accounted for in `log`. */
  ghost predicate Represents(syms: seq<Sym>, text: string, origin: string, log: seq<(string, string)>) {
    && Render(syms) == text && Origin(syms) == origin
    && forall x :: x in syms && x.Tk? ==> TokenShaped(x.token) && (x.token, x.original) in log
  }

  lemma RepresentedTokens(syms: seq<Sym>, text: string, origin: string, log: seq<(string, string)>)
    requires Represents(syms, text, origin, log)
    ensures TokensBracketed(syms)
  {
    forall x | x in syms && x.Tk? ensures Bracketed(x.token) {
      TokenShapedIsBracketed(x.token);
    }
  }

  // ----- Substitution on symbols ----------------------------------------------------------------

  function From(text: string, cuts: seq<Cut>): int {
    if cuts == [] then |text| else cuts[0].start
  }

  ghost predicate Applicable(syms: seq<Sym>, text: string, log: seq<(string, string)>, cuts: seq<Cut>) {
    && ValidCuts(text, cuts)
    && forall c :: c in cuts ==>
         Avoids(syms, c.start, c.end) && TokenShaped(c.token) && (c.token, Chunk(text, c)) in log
  }

  /** Every assignment of the log can be seen as a token. */
  ghost predicate Shown(syms: seq<Sym>, log: seq<(string, string)>) {
    forall entry :: entry in log ==> Tk(entry.0, entry.1) in syms
  }

  /** `r` is what the cuts have made of `syms`: nothing else has moved, and the text before them is as it was. */
  ghost predicate Applied(syms: seq<Sym>, r: seq<Sym>, text: string, cuts: seq<Cut>)
    requires ValidCuts(text, cuts)
  {
    && Kept(syms, r) && Placed(syms, r, text, cuts) && SamePrefix(syms, r, From(text, cuts))
    && forall a: nat, b: nat :: b <= From(text, cuts) && Avoids(syms, a, b) ==> Avoids(r, a, b)
  }

  lemma {:induction false} ApplyCuts(syms: seq<Sym>, text: string, origin: string, log: seq<(string, string)>,
      cuts: seq<Cut>)
    returns (r: seq<Sym>)
    requires Represents(syms, text, origin, log) && Applicable(syms, text, log, cuts)
    ensures Represents(r, RightToLeft(text, cuts), origin, log)
    ensures Applied(syms, r, text, cuts) && (cuts == [] ==> r == syms)
    decreases |cuts|
  {
    if cuts == [] {
      return syms;
    }
    var c := cuts[0];
    var rest := cuts[1..];
    assert Applicable(syms, text, log, rest) by {
      forall x | x in rest ensures x in cuts { }
    }
    var later := ApplyCuts(syms, text, origin, log, rest);
    ChunkUntouched(text, c, rest);
    assert c in cuts && Avoids(later, c.start, c.end);
    r := ApplyCut(later, RightToLeft(text, rest), origin, log, c);
    RepresentedTokens(syms, text, origin, log);
    RepresentedTokens(later, RightToLeft(text, rest), origin, log);
    AppliedStep(syms, later, r, text, cuts);
  }

  lemma AppliedStep(syms: seq<Sym>, later: seq<Sym>, r: seq<Sym>, text: string, cuts: seq<Cut>)
    requires ValidCuts(text, cuts) && cuts != [] && TokensBracketed(syms) && TokensBracketed(later)
    requires ValidCuts(text, cuts[1..]) && Applied(syms, later, text, cuts[1..])
    requires Render(syms) == text && Avoids(syms, cuts[0].start, cuts[0].end)
    requires CutTo(later, r, cuts[0]) && Kept(later, r) && SamePrefix(later, r, cuts[0].start)
    requires PlacedFrom(later, r, cuts[0].start, Tk(cuts[0].token, Chunk(text, cuts[0])))
    ensures Applied(syms, r, text, cuts)
  {
    var c, rest := cuts[0], cuts[1..];
    AvoidsKept(later, r, c);
    PrefixTransitive(syms, later, r, c.start, From(text, rest));
    PlacedFirst(syms, later, r, c.start, c.end, Tk(c.token, Chunk(text, c)));
    PlacedOn(syms, later, r, text, cuts);
    forall a: nat, b: nat | b <= c.start && Avoids(syms, a, b) ensures Avoids(r, a, b) {
      assert b <= From(text, rest) && Avoids(later, a, b);
    }
  }

  /** Every cut has become a token where its piece was. */
  ghost predicate Placed(syms: seq<Sym>, r: seq<Sym>, text: string, cuts: seq<Cut>)
    requires ValidCuts(text, cuts)
  {
    forall c :: c in cuts ==> PlacedFrom(syms, r, c.start, Tk(c.token, Chunk(text, c)))
  }

  /** What has become a token of `later`, where `syms` have the same prefix, was at the same place there. */
  lemma PlacedFirst(syms: seq<Sym>, later: seq<Sym>, r: seq<Sym>, a: nat, b: nat, x: Sym)
    requires TokensBracketed(syms) && TokensBracketed(later) && SamePrefix(syms, later, a)
    requires a < b <= |Render(syms)| && Avoids(syms, a, b) && PlacedFrom(later, r, a, x)
    ensures PlacedFrom(syms, r, a, x)
  {
    var o :| OffsetAt(later, a, o) && Has(r, o, x);
    var k :| 0 <= k <= |later| && |Render(later[..k])| == a && |Origin(later[..k])| == o;
    var i, j := LiteralRun(syms, a, b);
    CutUnique(later, i, k);
    assert OffsetAt(syms, a, o);
  }

  lemma PlacedOn(syms: seq<Sym>, later: seq<Sym>, r: seq<Sym>, text: string, cuts: seq<Cut>)
    requires ValidCuts(text, cuts) && cuts != [] && ValidCuts(text, cuts[1..])
    requires Placed(syms, later, text, cuts[1..]) && Kept(later, r)
    requires PlacedFrom(syms, r, cuts[0].start, Tk(cuts[0].token, Chunk(text, cuts[0])))
    ensures Placed(syms, r, text, cuts)
  {
    forall c | c in cuts ensures PlacedFrom(syms, r, c.start, Tk(c.token, Chunk(text, c))) {
      if c in cuts[1..] {
        PlacedAndKept(syms, later, r, c.start, Tk(c.token, Chunk(text, c)));
      }
    }
  }

  lemma ChunkUntouched(text: string, c: Cut, rest: seq<Cut>)
    requires ValidCuts(text, rest) && c.start < c.end <= From(text, rest)
    ensures c.end <= |RightToLeft(text, rest)| && Chunk(RightToLeft(text, rest), c) == Chunk(text, c)
  {
    SlicesAgree(RightToLeft(text, rest), text, From(text, rest), c.start, c.end);
  }

  lemma SlicesAgree(s: string, t: string, n: nat, a: nat, b: nat)
    requires a <= b <= n <= |s| && n <= |t| && s[..n] == t[..n]
    ensures s[a..b] == t[a..b]
  {
    assert s[..n][a..b] == s[a..b] && t[..n][a..b] == t[a..b];
  }

  /** The cut `c` has turned the symbols `syms` into `r`. */
  ghost predicate CutTo(syms: seq<Sym>, r: seq<Sym>, c: Cut) {
    exists i: nat, j: nat :: i <= j <= |syms| && |Render(syms[..i])| == c.start && r == Spliced(syms, i, j, c.token)
  }

  lemma AvoidsKept(syms: seq<Sym>, r: seq<Sym>, c: Cut)
    requires CutTo(syms, r, c)
    ensures forall a: nat, b: nat :: b <= c.start && Avoids(syms, a, b) ==> Avoids(r, a, b)
  {
    var i: nat, j: nat :| i <= j <= |syms| && |Render(syms[..i])| == c.start && r == Spliced(syms, i, j, c.token);
    forall a: nat, b: nat | b <= c.start && Avoids(syms, a, b) ensures Avoids(r, a, b) {
      AvoidsAfterSplice(syms, i, j, c.token, a, b);
    }
  }

  lemma ApplyCut(syms: seq<Sym>, text: string, origin: string, log: seq<(string, string)>, c: Cut) returns (r: seq<Sym>)
    requires Represents(syms, text, origin, log)
    requires c.start < c.end <= |text| && Avoids(syms, c.start, c.end)
    requires TokenShaped(c.token) && (c.token, Chunk(text, c)) in log
    ensures Represents(r, text[..c.start] + c.token + text[c.end..], origin, log)
    ensures CutTo(syms, r, c) && Kept(syms, r) && SamePrefix(syms, r, c.start)
    ensures PlacedFrom(syms, r, c.start, Tk(c.token, Chunk(text, c)))
  {
    RepresentedTokens(syms, text, origin, log);
    var i, j := LiteralRun(syms, c.start, c.end);
    r := Spliced(syms, i, j, c.token);
    SplicedMeaning(syms, i, j, c.token);
    SplicedTokens(syms, i, j, c.token, Chunk(text, c));
    SplicePrefix(syms, i, j, c.token);
  }

  /** A splice over literal characters adds one token and moves none. */
  lemma SplicedTokens(syms: seq<Sym>, i: nat, j: nat, token: string, w: string)
    requires i <= j <= |syms| && syms[i..j] == Chars(w)
    ensures var r := Spliced(syms, i, j, token);
            && Kept(syms, r) && PlacedFrom(syms, r, |Render(syms[..i])|, Tk(token, w))
            && forall x :: x in r ==> x in syms || x == Tk(token, w)
  {
    CharsAreThemselves(w);
    forall k | i <= k < j ensures syms[k].Ch? {
      assert syms[i..j][k - i] == syms[k];
    }
    SpliceKeeps(syms, i, j, token);
    assert OffsetAt(syms, |Render(syms[..i])|, |Origin(syms[..i])|);
  }

  lemma ShownGrows(syms: seq<Sym>, r: seq<Sym>, text: string, cuts: seq<Cut>, log: seq<(string, string)>,
      more: seq<(string, string)>)
    requires Shown(syms, log) && Kept(syms, r) && ValidCuts(text, cuts) && Placed(syms, r, text, cuts)
    requires forall entry :: entry in more ==> entry in LogOf(text, cuts)
    ensures Shown(r, log + more)
  {
    LogMembers(text, cuts);
    forall entry | entry in log + more ensures Tk(entry.0, entry.1) in r {
      if entry in log {
        KeptMember(syms, r, Tk(entry.0, entry.1));
      } else {
        var c :| c in cuts && entry == (c.token, Chunk(text, c));
        var o :| Has(r, o, Tk(c.token, Chunk(text, c)));
      }
    }
  }

  // ----- The pattern passes ---------------------------------------------------------------------

  lemma MissesAvoids(syms: seq<Sym>, text: string, origin: string, log: seq<(string, string)>, start: nat, end: nat)
    requires Represents(syms, text, origin, log) && MissesTokens(text, start, end)
    ensures Avoids(syms, start, end)
  {
    forall k | 0 <= k < |syms| && syms[k].Tk?
      ensures end <= |Render(syms[..k])| || |Render(syms[..k + 1])| <= start
    {
      TokenAt(syms, k);
      assert syms[k] in syms;
    }
  }

  ghost predicate Within(part: seq<(string, string)>, log: seq<(string, string)>) {
    forall entry :: entry in part ==> entry in log
  }

  lemma PassCutFits(p: Patterns, d: Draft, kind: string, spans: seq<Span>, c: Cut)
    requires forall s :: IsHexSuffix(p.hash(s))
    requires kind in KINDS && LawfulSpans(spans, d.text)
    requires c in CutsFor(p, d.text, kind, Accepted(d.text, kind, spans))
    ensures c.start < c.end <= |d.text| && MissesTokens(d.text, c.start, c.end) && TokenShaped(c.token)
    ensures (c.token, Chunk(d.text, c)) in Pass(p, d, kind, spans).log
  {
    var accepted := Accepted(d.text, kind, spans);
    var i :| 0 <= i < |accepted| && c == CutsFor(p, d.text, kind, accepted)[i];
    assert accepted[i] in accepted && accepted[i] in spans;
    PassCutLogged(p, d, kind, spans, c);
  }

  lemma PassCutLogged(p: Patterns, d: Draft, kind: string, spans: seq<Span>, c: Cut)
    requires InOrder(spans, d.text) && c in CutsFor(p, d.text, kind, Accepted(d.text, kind, spans))
    ensures c.start <= c.end <= |d.text| && (c.token, Chunk(d.text, c)) in Pass(p, d, kind, spans).log
  {
    var cuts := CutsFor(p, d.text, kind, Accepted(d.text, kind, spans));
    LogMembers(d.text, cuts);
    assert (c.token, Chunk(d.text, c)) in LogOf(d.text, cuts);
  }

  lemma PassRepresents(p: Patterns, d: Draft, kind: string, spans: seq<Span>, syms: seq<Sym>, origin: string,
      log: seq<(string, string)>)
    returns (r: seq<Sym>)
    requires forall s :: IsHexSuffix(p.hash(s))
    requires kind in KINDS && LawfulSpans(spans, d.text)
    requires Represents(syms, d.text, origin, log) && Within(Pass(p, d, kind, spans).log, log)
    ensures Represents(r, Pass(p, d, kind, spans).text, origin, log)
    ensures Shown(syms, d.log) ==> Shown(r, Pass(p, d, kind, spans).log)
    ensures Kept(syms, r) && Placed(syms, r, d.text, CutsFor(p, d.text, kind, Accepted(d.text, kind, spans)))
    ensures Accepted(d.text, kind, spans) == [] ==> r == syms
  {
    var cuts := CutsFor(p, d.text, kind, Accepted(d.text, kind, spans));
    forall c | c in cuts
      ensures Avoids(syms, c.start, c.end) && TokenShaped(c.token) && (c.token, Chunk(d.text, c)) in log
    {
      PassCutFits(p, d, kind, spans, c);
      MissesAvoids(syms, d.text, origin, log, c.start, c.end);
    }
    r := ApplyCuts(syms, d.text, origin, log, cuts);
    RightToLeftIsSimultaneous(d.text, 0, cuts);
    assert d.text[..0] == [];
    if Shown(syms, d.log) {
      ShownGrows(syms, r, d.text, cuts, d.log, LogOf(d.text, cuts));
    }
  }

  lemma RegexRepresents(p: Patterns, text: string, syms: seq<Sym>, origin: string, log: seq<(string, string)>)
    returns (r: seq<Sym>)
    requires Lawful(p) && Represents(syms, text, origin, log) && Within(RegexPasses(p, text).log, log)
    ensures Represents(r, RegexPasses(p, text).text, origin, log) && Shown(r, RegexPasses(p, text).log)
  {
    var d0 := Draft(text, []);
    var d1 := Pass(p, d0, "EMAIL", p.email(text));
    var d2 := Pass(p, d1, "CARD", p.card(d1.text));
    var d3 := Pass(p, d2, "PHONE", p.phone(d2.text));
    var spans := DigitSpans(p.dni(d3.text));
    PassGrows(p, d1, "CARD", p.card(d1.text));
    PassGrows(p, d2, "PHONE", p.phone(d2.text));
    PassGrows(p, d3, "DNI", spans);
    r := PassRepresents(p, d0, "EMAIL", p.email(text), syms, origin, log);
    r := PassRepresents(p, d1, "CARD", p.card(d1.text), r, origin, log);
    r := PassRepresents(p, d2, "PHONE", p.phone(d2.text), r, origin, log);
    assert LawfulDni(p.dni(d3.text), d3.text);
    r := PassRepresents(p, d3, "DNI", spans, r, origin, log);
  }

  lemma PassGrows(p: Patterns, d: Draft, kind: string, spans: seq<Span>)
    requires InOrder(spans, d.text)
    ensures Within(d.log, Pass(p, d, kind, spans).log)
  {
  }

  // ----- Named entities -------------------------------------------------------------------------

  /** Occurrences of a bracketed token cannot overlap, so the scan finds them all. */
  lemma {:induction false} FindAllComplete(s: string, token: string, from: nat, i: nat)
    requires Bracketed(token) && from <= i && At(s, i, token)
    ensures Span(i, i + |token|) in FindAll(s, token, from)
    decreases |s| - from
  {
    var j := Find(s, token, from).value;
    if j < i {
      OccurrencesApart(s, token, j, i);
      FindAllComplete(s, token, j + |token|, i);
    }
  }

  lemma OccurrencesApart(s: string, token: string, j: nat, i: nat)
    requires Bracketed(token) && At(s, j, token) && At(s, i, token) && j < i
    ensures j + |token| <= i
  {
    assert s[i..i + |token|][0] == s[i] == token[0] == '[';
    forall k | j < k < j + |token| ensures s[k] != '[' {
      assert s[j..j + |token|][k - j] == token[k - j];
    }
  }

  lemma {:induction false} RangesComplete(s: string, keys: seq<string>, k: nat, i: nat, from: nat)
    requires NonEmpty(keys) && from <= k < |keys| && Bracketed(keys[k]) && At(s, i, keys[k])
    ensures Span(i, i + |keys[k]|) in TokenRanges(s, keys, from)
    decreases k - from
  {
    if from == k {
      FindAllComplete(s, keys[k], 0, i);
    } else {
      RangesComplete(s, keys, k, i, from + 1);
    }
  }

  lemma {:induction false} EntityCutsSound(p: Patterns, s: string, ranges: seq<Span>, entities: seq<Entity>, i: nat,
      limit: nat)
    requires Descending(entities, s) && i <= |entities| && limit <= |s|
    ensures forall c :: c in EntityCuts(p, s, ranges, entities, i, limit) ==>
              exists e :: e in entities && Eligible(p, s, ranges, e) && c == CutOf(p, s, e)
    decreases |entities| - i
  {
    if i < |entities| {
      var e := entities[i];
      assert e in entities;
      EntityCutsSound(p, s, ranges, entities, i + 1, limit);
      if e.end <= limit {
        EntityCutsSound(p, s, ranges, entities, i + 1, e.start);
      }
    }
  }

  ghost predicate Clash(e: Entity, c: Cut) {
    e.start < c.end && c.start < e.end
  }

  /** An eligible entity is left out only where it overlaps one that is replaced, or reaches past `limit`. */
  lemma {:induction false} EntityCutsMaximal(p: Patterns, s: string, ranges: seq<Span>, entities: seq<Entity>,
      i: nat, limit: nat, e: Entity)
    requires Descending(entities, s) && i <= |entities| && limit <= |s|
    requires e in entities[i..] && Eligible(p, s, ranges, e)
    ensures limit < e.end || exists c :: c in EntityCuts(p, s, ranges, entities, i, limit) && Clash(e, c)
    decreases |entities| - i
  {
    var first := entities[i];
    if Eligible(p, s, ranges, first) && first.end <= limit {
      var cut := CutOf(p, s, first);
      assert cut in EntityCuts(p, s, ranges, entities, i, limit);
      if e == first {
        assert Clash(e, cut);
      } else {
        assert e in entities[i + 1..];
        var k :| i < k < |entities| && entities[k] == e;
        assert e.start <= first.start;
        EntityCutsMaximal(p, s, ranges, entities, i + 1, first.start, e);
        if first.start < e.end {
          assert Clash(e, cut);
        } else {
          var c :| c in EntityCuts(p, s, ranges, entities, i + 1, first.start) && Clash(e, c);
          assert c in EntityCuts(p, s, ranges, entities, i, limit);
        }
      }
    } else if e != first {
      assert e in entities[i + 1..];
      EntityCutsMaximal(p, s, ranges, entities, i + 1, limit, e);
    }
  }

  /** A replaced entity touches no occurrence of a token that the patterns placed. */
  lemma EntityMissesTokens(p: Patterns, s: string, keys: seq<string>, e: Entity, k: string, i: nat)
    requires NonEmpty(keys) && k in keys && Bracketed(k) && At(s, i, k)
    requires e.start < e.end <= |s| && Eligible(p, s, TokenRanges(s, keys, 0), e)
    ensures e.end <= i || i + |k| <= e.start
  {
    var n :| 0 <= n < |keys| && keys[n] == k;
    RangesComplete(s, keys, n, i, 0);
  }

  /** The entity behind a substitution. */
  lemma CutSource(p: Patterns, d: Draft, c: Cut) returns (e: Entity)
    requires Lawful(p) && p.analyze.Some? && NonEmpty(DictOf(d.log).keys)
    requires c in NerCuts(p, d)
    ensures e in p.analyze.value(d.text) && e.entityType in PRESIDIO_KIND_MAP && e.start < e.end <= |d.text|
    ensures Eligible(p, d.text, TokenRanges(d.text, DictOf(d.log).keys, 0), e) && c == CutOf(p, d.text, e)
  {
    var entities := p.analyze.value(d.text);
    var ranges := TokenRanges(d.text, DictOf(d.log).keys, 0);
    assert LawfulEntities(entities, d.text);
    OrderedDescends(entities, d.text);
    EntityCutsSound(p, d.text, ranges, Ordered(entities), 0, |d.text|);
    e :| e in Ordered(entities) && Eligible(p, d.text, ranges, e) && c == CutOf(p, d.text, e);
  }

  /**
   * For any list of entity spans, overlapping or nested: the replaced ones are pairwise disjoint,
   * read the redacted text at their own offsets, and miss every token of the pattern passes; every
   * other known span is ineligible or overlaps a replaced one; and the result is what replacing
   * all of them at once would give.
   */
  lemma EntitySpansSound(p: Patterns, d: Draft)
    requires Lawful(p) && p.analyze.Some? && TokensLogged(d.log) && NonEmpty(DictOf(d.log).keys)
    ensures ValidCuts(d.text, NerCuts(p, d))
    ensures forall c :: c in NerCuts(p, d) ==> exists e ::
              && e in p.analyze.value(d.text) && e.entityType in PRESIDIO_KIND_MAP && e.start < e.end <= |d.text|
              && Eligible(p, d.text, TokenRanges(d.text, DictOf(d.log).keys, 0), e) && c == CutOf(p, d.text, e)
    ensures forall c, k, i: nat :: c in NerCuts(p, d) && k in DictOf(d.log).keys && At(d.text, i, k) ==>
              c.end <= i || i + |k| <= c.start
    ensures forall e :: (e in p.analyze.value(d.text) && e.entityType in PRESIDIO_KIND_MAP
                         && Eligible(p, d.text, TokenRanges(d.text, DictOf(d.log).keys, 0), e)) ==>
              exists c :: c in NerCuts(p, d) && Clash(e, c)
    ensures NerPass(p, d).text == Simultaneous(d.text, 0, NerCuts(p, d)) == RightToLeft(d.text, NerCuts(p, d))
  {
    var cuts, keys := NerCuts(p, d), DictOf(d.log).keys;
    var ranges := TokenRanges(d.text, keys, 0);
    forall c | c in cuts
      ensures exists e :: e in p.analyze.value(d.text) && e.entityType in PRESIDIO_KIND_MAP
                && e.start < e.end <= |d.text|
                       && Eligible(p, d.text, ranges, e) && c == CutOf(p, d.text, e)
    {
      var e := CutSource(p, d, c);
    }
    forall c, k, i: nat | c in cuts && k in keys && At(d.text, i, k) ensures c.end <= i || i + |k| <= c.start {
      var e := CutSource(p, d, c);
      LoggedKeys(d.log);
      EntityMissesTokens(p, d.text, keys, e, k, i);
    }
    forall e | e in p.analyze.value(d.text) && e.entityType in PRESIDIO_KIND_MAP && Eligible(p, d.text, ranges, e)
      ensures exists c :: c in cuts && Clash(e, c)
    {
      EntityReplacedOrClashes(p, d, e);
    }
    RightToLeftIsSimultaneous(d.text, 0, cuts);
    assert d.text[..0] == [];
  }

  lemma EntityReplacedOrClashes(p: Patterns, d: Draft, e: Entity)
    requires Lawful(p) && p.analyze.Some? && NonEmpty(DictOf(d.log).keys)
    requires e in p.analyze.value(d.text) && e.entityType in PRESIDIO_KIND_MAP && e.start < e.end <= |d.text|
    requires Eligible(p, d.text, TokenRanges(d.text, DictOf(d.log).keys, 0), e)
    ensures exists c :: c in NerCuts(p, d) && Clash(e, c)
  {
    var entities := p.analyze.value(d.text);
    var ranges, ordered := TokenRanges(d.text, DictOf(d.log).keys, 0), Ordered(entities);
    assert LawfulEntities(entities, d.text);
    OrderedDescends(entities, d.text);
    assert e in ordered && ordered[0..] == ordered;
    EntityCutsMaximal(p, d.text, ranges, ordered, 0, |d.text|, e);
  }

  lemma NerCutFits(p: Patterns, d: Draft, syms: seq<Sym>, origin: string, c: Cut)
    requires Lawful(p) && p.analyze.Some? && TokensLogged(d.log) && NonEmpty(DictOf(d.log).keys)
    requires Represents(syms, d.text, origin, d.log) && c in NerCuts(p, d)
    ensures Avoids(syms, c.start, c.end) && TokenShaped(c.token)
  {
    var keys := DictOf(d.log).keys;
    var e := CutSource(p, d, c);
    KindMapTokens(e.entityType, p.hash(d.text[e.start..e.end]));
    forall k | 0 <= k < |syms| && syms[k].Tk?
      ensures c.end <= |Render(syms[..k])| || |Render(syms[..k + 1])| <= c.start
    {
      TokenAt(syms, k);
      var x := syms[k];
      assert x in syms && (x.token, x.original) in d.log;
      DictFacts(d.log);
      assert x.token in keys;
      TokenShapedIsBracketed(x.token);
      EntityMissesTokens(p, d.text, keys, e, x.token, |Render(syms[..k])|);
    }
  }

  lemma NerCutLogged(p: Patterns, d: Draft, c: Cut)
    requires Lawful(p) && p.analyze.Some? && NonEmpty(DictOf(d.log).keys) && c in NerCuts(p, d)
    ensures c.start <= c.end <= |d.text| && (c.token, Chunk(d.text, c)) in NerPass(p, d).log
  {
    var cuts := NerCuts(p, d);
    LogMembers(d.text, cuts);
    assert (c.token, Chunk(d.text, c)) in LogFromRight(d.text, cuts);
  }

  lemma NerText(p: Patterns, d: Draft)
    requires Lawful(p) && p.analyze.Some? && NonEmpty(DictOf(d.log).keys)
    ensures NerPass(p, d).text == RightToLeft(d.text, NerCuts(p, d))
    ensures Within(d.log, NerPass(p, d).log)
  {
    RightToLeftIsSimultaneous(d.text, 0, NerCuts(p, d));
    assert d.text[..0] == [];
  }

  lemma NerRepresents(p: Patterns, d: Draft, syms: seq<Sym>, origin: string, log: seq<(string, string)>)
    returns (r: seq<Sym>)
    requires Lawful(p) && TokensLogged(d.log) && NonEmpty(DictOf(d.log).keys)
    requires Represents(syms, d.text, origin, d.log) && Within(NerPass(p, d).log, log)
    ensures Represents(r, NerPass(p, d).text, origin, log)
    ensures Shown(syms, d.log) ==> Shown(r, NerPass(p, d).log)
    ensures Kept(syms, r) && (p.analyze.Some? ==> Placed(syms, r, d.text, NerCuts(p, d)))
  {
    if p.analyze.None? {
      return syms;
    }
    NerText(p, d);
    var cuts := NerCuts(p, d);
    forall c | c in cuts
      ensures Avoids(syms, c.start, c.end) && TokenShaped(c.token) && (c.token, Chunk(d.text, c)) in log
    {
      NerCutFits(p, d, syms, origin, c);
      NerCutLogged(p, d, c);
    }
    r := ApplyCuts(syms, d.text, origin, log, cuts);
    if Shown(syms, d.log) {
      LogMembers(d.text, cuts);
      ShownGrows(syms, r, d.text, cuts, d.log, LogFromRight(d.text, cuts));
    }
  }

  // ----- The round trip -------------------------------------------------------------------------

  /** No two different originals were replaced by the same token: no collision of the short hash. */
  ghost predicate Injective(log: seq<(string, string)>) {
    forall a, b :: a in log && b in log && a.0 == b.0 ==> a.1 == b.1
  }

  ghost predicate NoTokenIn(text: string, log: seq<(string, string)>) {
    forall entry :: entry in log ==> !Occurs(text, entry.0)
  }

  /** `anonymize(text)` followed by `reverse`. */
  ghost function Restored(p: Patterns, text: string): string
    requires Lawful(p)
  {
    var d := Run(p, text);
    RunTokens(p, text);
    LoggedKeys(d.log);
    Reverse(DictOf(d.log).keys, DictOf(d.log).values, d.text)
  }

  lemma RunTokens(p: Patterns, text: string)
    requires Lawful(p)
    ensures TokensLogged(Run(p, text).log)
  {
    if text != [] {
      RegexTokens(p, text);
      NerTokens(p, RegexPasses(p, text));
    }
  }

  lemma NerTokens(p: Patterns, d: Draft)
    requires Lawful(p) && TokensLogged(d.log) && NonEmpty(DictOf(d.log).keys)
    ensures TokensLogged(NerPass(p, d).log)
  {
    if p.analyze.Some? {
      var cuts := NerCuts(p, d);
      LogMembers(d.text, cuts);
      forall c | c in cuts ensures TokenShaped(c.token) {
        var e := CutSource(p, d, c);
        KindMapTokens(e.entityType, p.hash(d.text[e.start..e.end]));
      }
    }
  }

  lemma CharsRepresent(text: string, log: seq<(string, string)>)
    ensures Represents(Chars(text), text, text, log)
  {
    CharsAreThemselves(text);
  }

  lemma RunIs(p: Patterns, text: string)
    requires Lawful(p) && text != []
    ensures var d := RegexPasses(p, text);
            TokensLogged(d.log) && NonEmpty(DictOf(d.log).keys) && Run(p, text) == NerPass(p, d)
  {
    RegexTokens(p, text);
  }

  lemma RunRepresents(p: Patterns, text: string) returns (r: seq<Sym>)
    requires Lawful(p)
    ensures Represents(r, Run(p, text).text, text, Run(p, text).log) && Shown(r, Run(p, text).log)
  {
    r := Chars(text);
    if text == [] {
      CharsRepresent(text, []);
    } else {
      var d := RegexPasses(p, text);
      RunIs(p, text);
      CharsRepresent(text, d.log);
      r := RegexRepresents(p, text, r, text, d.log);
      r := NerRepresents(p, d, r, text, NerPass(p, d).log);
    }
  }

  lemma LogCovers(syms: seq<Sym>, text: string, origin: string, log: seq<(string, string)>)
    requires Represents(syms, text, origin, log) && TokensLogged(log) && Injective(log)
    ensures Covered(syms, DictOf(log).keys, DictOf(log).values)
  {
    LoggedKeys(log);
    DictFacts(log);
    var dict := DictOf(log);
    forall x | x in syms && x.Tk? ensures x.token in dict.keys && dict.values[x.token] == x.original {
      assert (x.token, dict.values[x.token]) in log;
    }
  }

  /**
   * Reversal restores the text, whatever the patterns and the recogniser match, when the hash did
   * not collide on what was replaced and none of the tokens was in the text beforehand.
   */
  lemma RoundTrip(p: Patterns, text: string)
    requires Lawful(p)
    requires Injective(Run(p, text).log)
    requires NoTokenIn(text, Run(p, text).log)
    ensures Restored(p, text) == text
  {
    var d := Run(p, text);
    var syms := RunRepresents(p, text);
    RunTokens(p, text);
    LogCovers(syms, d.text, text, d.log);
    DictFacts(d.log);
    forall k | k in DictOf(d.log).keys ensures !Occurs(text, k) {
      assert (k, DictOf(d.log).values[k]) in d.log;
    }
    ReverseRestores(syms, DictOf(d.log).keys, DictOf(d.log).values);
  }

  // ----- When a token was already there ---------------------------------------------------------

  /** The text with the token at offset `i` read as a token. */
  function Marked(text: string, i: nat, token: string, original: string): seq<Sym>
    requires At(text, i, token)
  {
    Chars(text[..i]) + [Tk(token, original)] + Chars(text[i + |token|..])
  }

  lemma MarkedMeaning(text: string, i: nat, token: string, original: string)
    requires At(text, i, token)
    ensures Render(Marked(text, i, token, original)) == text
    ensures Origin(Marked(text, i, token, original)) == text[..i] + original + text[i + |token|..]
  {
    var before, after := text[..i], text[i + |token|..];
    Concat3(Chars(before), [Tk(token, original)], Chars(after));
    CharsAreThemselves(before);
    CharsAreThemselves(after);
    Single(Tk(token, original));
    SplitAt(text, i, token);
  }

  lemma SplitAt(text: string, i: nat, token: string)
    requires At(text, i, token)
    ensures text == text[..i] + token + text[i + |token|..]
  {
  }

  lemma MarkedOpens(text: string, i: nat, token: string, original: string)
    requires At(text, i, token) && Bracketed(token) && BracketFree(original)
    ensures Opens(text[..i] + original + text[i + |token|..]) == Opens(text) - 1
  {
    var before, after := text[..i], text[i + |token|..];
    assert text == before + token + after;
    OpensConcat3(before, token, after);
    OpensConcat3(before, original, after);
    NoOpens(original);
    OneOpen(token);
  }

  lemma MarkedTokens(text: string, i: nat, token: string, original: string)
    requires At(text, i, token)
    ensures forall x :: x in Marked(text, i, token, original) && x.Tk? ==> x == Tk(token, original)
  {
  }

  lemma OpensConcat3(a: string, b: string, c: string)
    ensures Opens(a + b + c) == Opens(a) + Opens(b) + Opens(c)
  {
    OpensConcat(a + b, c);
    OpensConcat(a, b);
  }

  lemma PassOriginals(p: Patterns, d: Draft, kind: string, spans: seq<Span>)
    requires LawfulSpans(spans, d.text)
    requires forall entry :: entry in d.log ==> BracketFree(entry.1)
    ensures forall entry :: entry in Pass(p, d, kind, spans).log ==> BracketFree(entry.1)
  {
    var accepted := Accepted(d.text, kind, spans);
    var cuts := CutsFor(p, d.text, kind, accepted);
    LogMembers(d.text, cuts);
    forall c | c in cuts ensures BracketFree(Chunk(d.text, c)) {
      var i :| 0 <= i < |cuts| && c == cuts[i];
      assert accepted[i] in accepted && accepted[i] in spans;
    }
  }

  lemma RegexOriginals(p: Patterns, text: string)
    requires Lawful(p)
    ensures forall entry :: entry in RegexPasses(p, text).log ==> BracketFree(entry.1)
  {
    var d0 := Draft(text, []);
    var d1 := Pass(p, d0, "EMAIL", p.email(text));
    var d2 := Pass(p, d1, "CARD", p.card(d1.text));
    var d3 := Pass(p, d2, "PHONE", p.phone(d2.text));
    PassOriginals(p, d0, "EMAIL", p.email(text));
    PassOriginals(p, d1, "CARD", p.card(d1.text));
    PassOriginals(p, d2, "PHONE", p.phone(d2.text));
    assert LawfulDni(p.dni(d3.text), d3.text);
    PassOriginals(p, d3, "DNI", DigitSpans(p.dni(d3.text)));
  }

  lemma NerOriginals(p: Patterns, d: Draft)
    requires Lawful(p) && NonEmpty(DictOf(d.log).keys)
    requires forall entry :: entry in d.log ==> BracketFree(entry.1)
    ensures forall entry :: entry in NerPass(p, d).log ==> BracketFree(entry.1)
  {
    if p.analyze.Some? {
      var cuts := NerCuts(p, d);
      LogMembers(d.text, cuts);
      forall c | c in cuts ensures BracketFree(Chunk(d.text, c)) {
        var e := CutSource(p, d, c);
      }
    }
  }

  lemma RunOriginals(p: Patterns, text: string)
    requires Lawful(p)
    ensures forall entry :: entry in Run(p, text).log ==> BracketFree(entry.1)
  {
    if text != [] {
      RunIs(p, text);
      RegexOriginals(p, text);
      NerOriginals(p, RegexPasses(p, text));
    }
  }

  ghost predicate CutsMissTokens(s: string, cuts: seq<Cut>) {
    forall c :: c in cuts ==> MissesTokens(s, c.start, c.end)
  }

  /** The recogniser, if there is one, replaces no part of anything token-shaped in the redacted text. */
  ghost predicate EntitiesMissTokens(p: Patterns, text: string)
    requires Lawful(p)
  {
    if p.analyze.None? || text == [] then true
    else
      RunIs(p, text);
      var d := RegexPasses(p, text);
      CutsMissTokens(d.text, NerCuts(p, d))
  }

  lemma NerCutShaped(p: Patterns, d: Draft, c: Cut)
    requires Lawful(p) && p.analyze.Some? && NonEmpty(DictOf(d.log).keys) && c in NerCuts(p, d)
    ensures TokenShaped(c.token)
  {
    var e := CutSource(p, d, c);
    KindMapTokens(e.entityType, p.hash(d.text[e.start..e.end]));
  }

  /** When the entities miss every token-shaped piece, it does not matter which of these are placed tokens. */
  lemma NerKeepsMarked(p: Patterns, d: Draft, syms: seq<Sym>, origin: string, log: seq<(string, string)>)
    returns (r: seq<Sym>)
    requires Lawful(p) && NonEmpty(DictOf(d.log).keys)
    requires p.analyze.Some? ==> CutsMissTokens(d.text, NerCuts(p, d))
    requires Represents(syms, d.text, origin, log) && Within(NerPass(p, d).log, log)
    ensures Represents(r, NerPass(p, d).text, origin, log)
  {
    if p.analyze.None? {
      return syms;
    }
    NerText(p, d);
    var cuts := NerCuts(p, d);
    forall c | c in cuts
      ensures Avoids(syms, c.start, c.end) && TokenShaped(c.token) && (c.token, Chunk(d.text, c)) in log
    {
      NerCutShaped(p, d, c);
      NerCutLogged(p, d, c);
      MissesAvoids(syms, d.text, origin, log, c.start, c.end);
    }
    r := ApplyCuts(syms, d.text, origin, log, cuts);
  }

  /** A token that was in the text comes back as an original, so the result has too few brackets. */
  lemma TokenInTextIsLost(p: Patterns, text: string, entry: (string, string))
    requires Lawful(p) && EntitiesMissTokens(p, text)
    requires entry in Run(p, text).log && Occurs(text, entry.0)
    ensures Opens(Restored(p, text)) < Opens(text)
  {
    RunTokens(p, text);
    RunOriginals(p, text);
    var syms := MarkedRun(p, text, entry);
    var read := Reread(p, text, syms, Origin(syms));
  }

  lemma NerGrows(p: Patterns, d: Draft)
    requires Lawful(p) && NonEmpty(DictOf(d.log).keys)
    ensures Within(d.log, NerPass(p, d).log)
  {
    if p.analyze.Some? {
      NerText(p, d);
    }
  }

  /** The run on the text with that occurrence read as a token: nothing ever touches it. */
  lemma MarkedRun(p: Patterns, text: string, entry: (string, string)) returns (r: seq<Sym>)
    requires Lawful(p) && EntitiesMissTokens(p, text)
    requires entry in Run(p, text).log && TokenShaped(entry.0) && BracketFree(entry.1) && Occurs(text, entry.0)
    ensures Represents(r, Run(p, text).text, Origin(r), Run(p, text).log)
    ensures Opens(Origin(r)) == Opens(text) - 1
  {
    assert text != [];
    var d := RegexPasses(p, text);
    RunIs(p, text);
    NerGrows(p, d);
    var log := NerPass(p, d).log;
    r := MarkOne(text, entry, log);
    r := RegexRepresents(p, text, r, Origin(r), log);
    r := NerKeepsMarked(p, d, r, Origin(r), log);
  }

  lemma MarkOne(text: string, entry: (string, string), log: seq<(string, string)>) returns (r: seq<Sym>)
    requires entry in log && TokenShaped(entry.0) && BracketFree(entry.1) && Occurs(text, entry.0)
    ensures Represents(r, text, Origin(r), log)
    ensures Opens(Origin(r)) == Opens(text) - 1
  {
    TokenShapedIsBracketed(entry.0);
    var token, original := entry.0, entry.1;
    assert entry == (token, original);
    var i :| At(text, i, token);
    r := Marked(text, i, token, original);
    MarkedMeaning(text, i, token, original);
    MarkedOpens(text, i, token, original);
    MarkedTokens(text, i, token, original);
  }

  // ----- When the hash collides -----------------------------------------------------------------

  /** The symbols as `reverse` reads them: it restores that reading, or an opening bracket is lost. */
  lemma Reread(p: Patterns, text: string, syms: seq<Sym>, origin: string) returns (r: seq<Sym>)
    requires Lawful(p) && Represents(syms, Run(p, text).text, origin, Run(p, text).log)
    ensures IsReading(syms, r, Run(p, text).log)
    ensures Opens(Origin(r)) == Opens(origin) && SameOrFewerOpens(Restored(p, text), Origin(r))
  {
    var d := Run(p, text);
    RunTokens(p, text);
    RunOriginals(p, text);
    r := Reading(syms, d.text, origin, d.log);
    ReadingOpens(syms, r, d.text, origin, d.log);
    PlainValues(d.log);
    ReverseOrLoses(r, DictOf(d.log).keys, DictOf(d.log).values);
  }

  lemma Reading(syms: seq<Sym>, text: string, origin: string, log: seq<(string, string)>) returns (r: seq<Sym>)
    requires Represents(syms, text, origin, log) && TokensLogged(log)
    ensures IsReading(syms, r, log) && Render(r) == text
    ensures Covered(r, DictOf(log).keys, DictOf(log).values)
  {
    LoggedKeys(log);
    TokensKnown(syms, text, origin, log);
    r := Relabelled(syms, DictOf(log).values);
    SameFaces(r, syms);
  }

  /** `r` is `syms` with every token standing for what the log assigned to it last. */
  ghost predicate IsReading(syms: seq<Sym>, r: seq<Sym>, log: seq<(string, string)>) {
    && |r| == |syms|
    && (forall i :: 0 <= i < |r| ==> SameFace(r[i], syms[i]))
    && (forall i :: 0 <= i < |r| && syms[i].Tk? ==> Stored(log, syms[i].token, r[i].original))
  }

  ghost predicate Stored(log: seq<(string, string)>, token: string, original: string) {
    token in DictOf(log).values && DictOf(log).values[token] == original
  }

  lemma TokensKnown(syms: seq<Sym>, text: string, origin: string, log: seq<(string, string)>)
    requires Represents(syms, text, origin, log)
    ensures forall x :: x in syms && x.Tk? ==> x.token in DictOf(log).values && x.token in DictOf(log).keys
  {
    DictFacts(log);
    forall x | x in syms && x.Tk? ensures x.token in DictOf(log).values && x.token in DictOf(log).keys {
      assert (x.token, x.original) in log;
    }
  }

  lemma ReadingOpens(syms: seq<Sym>, r: seq<Sym>, text: string, origin: string, log: seq<(string, string)>)
    requires Represents(syms, text, origin, log) && IsReading(syms, r, log)
    requires forall entry :: entry in log ==> BracketFree(entry.1)
    ensures Opens(Origin(r)) == Opens(origin)
  {
    DictFacts(log);
    forall i | 0 <= i < |r| ensures Opens(Back(r[i])) == Opens(Back(syms[i])) {
      if syms[i].Tk? {
        assert syms[i] in syms && (syms[i].token, r[i].original) in log;
        assert (syms[i].token, syms[i].original) in log;
        NoOpens(syms[i].original);
        NoOpens(r[i].original);
      }
    }
    SameOpens(r, syms);
  }

  lemma PlainValues(log: seq<(string, string)>)
    requires forall entry :: entry in log ==> BracketFree(entry.1)
    ensures forall k :: k in DictOf(log).keys ==> k in DictOf(log).values && Opens(DictOf(log).values[k]) == 0
  {
    DictFacts(log);
    forall k | k in DictOf(log).keys ensures Opens(DictOf(log).values[k]) == 0 {
      assert (k, DictOf(log).values[k]) in log;
      NoOpens(DictOf(log).values[k]);
    }
  }

  /** No original is longer than the one `reverse` has for its token. */
  ghost predicate LastIsLongest(log: seq<(string, string)>) {
    forall entry, last :: entry in log && Stored(log, entry.0, last) ==> |entry.1| <= |last|
  }

  ghost predicate LastIsShortest(log: seq<(string, string)>) {
    forall entry, last :: entry in log && Stored(log, entry.0, last) ==> |last| <= |entry.1|
  }

  /** The lengths cannot make up for one another. */
  ghost predicate OneSided(log: seq<(string, string)>) {
    LastIsLongest(log) || LastIsShortest(log)
  }

  lemma InjectiveIsOneSided(log: seq<(string, string)>)
    requires Injective(log)
    ensures OneSided(log)
  {
    DictFacts(log);
    forall entry, last | entry in log && Stored(log, entry.0, last) ensures entry.1 == last {
      assert (entry.0, last) in log;
    }
  }

  /** With a collision, some token stands for something else than what was there. */
  lemma CollisionChangesReading(syms: seq<Sym>, r: seq<Sym>, log: seq<(string, string)>)
    requires Shown(syms, log) && IsReading(syms, r, log) && !Injective(log)
    ensures r != syms
  {
    if r == syms {
      forall a, b | a in log && b in log && a.0 == b.0 ensures a.1 == b.1 {
        ReadAsStored(syms, r, log, a);
        ReadAsStored(syms, r, log, b);
      }
    }
  }

  lemma ReadAsStored(syms: seq<Sym>, r: seq<Sym>, log: seq<(string, string)>, entry: (string, string))
    requires Shown(syms, log) && IsReading(syms, r, log) && r == syms && entry in log
    ensures Stored(log, entry.0, entry.1)
  {
    var x := Tk(entry.0, entry.1);
    assert x in syms;
    var i :| 0 <= i < |syms| && syms[i] == x;
    assert Stored(log, syms[i].token, r[i].original);
  }

  lemma ReadingsDiffer(syms: seq<Sym>, r: seq<Sym>, text: string, origin: string, log: seq<(string, string)>)
    requires Represents(syms, text, origin, log) && IsReading(syms, r, log) && OneSided(log) && r != syms
    ensures Origin(r) != origin
  {
    forall i | 0 <= i < |syms| && syms[i].Tk?
      ensures LastIsLongest(log) ==> |syms[i].original| <= |r[i].original|
      ensures LastIsShortest(log) ==> |r[i].original| <= |syms[i].original|
    {
      LengthsOf(syms, i, text, origin, log, r[i].original);
    }
    if LastIsLongest(log) {
      ReadingsAgree(syms, r);
    } else {
      ReadingsAgree(r, syms);
    }
  }

  lemma LengthsOf(syms: seq<Sym>, i: nat, text: string, origin: string, log: seq<(string, string)>, last: string)
    requires Represents(syms, text, origin, log)
    requires i < |syms| && syms[i].Tk? && Stored(log, syms[i].token, last)
    ensures LastIsLongest(log) ==> |syms[i].original| <= |last|
    ensures LastIsShortest(log) ==> |last| <= |syms[i].original|
  {
    var entry := (syms[i].token, syms[i].original);
    assert syms[i] in syms && entry in log && Stored(log, entry.0, last);
  }

  /** A collision is never undone, whatever is in the text: `reverse` has one original for each token. */
  lemma CollisionIsLost(p: Patterns, text: string)
    requires Lawful(p) && OneSided(Run(p, text).log) && !Injective(Run(p, text).log)
    ensures Restored(p, text) != text
  {
    var d := Run(p, text);
    var syms := RunRepresents(p, text);
    var r := Reread(p, text, syms, text);
    CollisionChangesReading(syms, r, d.log);
    ReadingsDiffer(syms, r, d.text, text, d.log);
  }

  /**
   * With entities that miss what looks like a token, and lengths that cannot make up for one another,
   * the round trip succeeds exactly when the hash did not collide and no used token was in the text.
   */
  lemma RoundTripIff(p: Patterns, text: string)
    requires Lawful(p) && EntitiesMissTokens(p, text) && OneSided(Run(p, text).log)
    ensures Restored(p, text) == text <==> NoTokenIn(text, Run(p, text).log) && Injective(Run(p, text).log)
  {
    var log := Run(p, text).log;
    if !Injective(log) {
      CollisionIsLost(p, text);
    } else if NoTokenIn(text, log) {
      RoundTrip(p, text);
    } else {
      var entry :| entry in log && Occurs(text, entry.0);
      TokenInTextIsLost(p, text, entry);
    }
  }

  /** So it does whenever there is no recogniser. */
  lemma PatternsRoundTripIff(p: Patterns, text: string)
    requires Lawful(p) && p.analyze.None? && OneSided(Run(p, text).log)
    ensures Restored(p, text) == text <==> NoTokenIn(text, Run(p, text).log) && Injective(Run(p, text).log)
  {
    RoundTripIff(p, text);
  }

  // ----- What a caller can check before ---------------------------------------------------------

  /** A match of the pattern for this kind. */
  predicate Matches(p: Patterns, kind: string, s: string, sp: Span) {
    || (kind == "EMAIL" && sp in p.email(s))
    || (kind == "CARD" && sp in p.card(s))
    || (kind == "PHONE" && sp in p.phone(s))
    || (kind == "DNI" && sp in DigitSpans(p.dni(s)))
  }

  /** A pass or the recogniser may replace the piece `w` at this place of `s` by a token of this kind. */
  ghost predicate FoundAt(p: Patterns, kind: string, s: string, sp: Span, w: string) {
    || (Matches(p, kind, s, sp) && !Keeps(kind, w))
    || (p.analyze.Some? && exists e :: e in p.analyze.value(s) && EntityAs(e, kind, sp))
  }

  predicate EntityAs(e: Entity, kind: string, sp: Span) {
    Span(e.start, e.end) == sp && e.entityType in PRESIDIO_KIND_MAP && PRESIDIO_KIND_MAP[e.entityType] == kind
  }

  /** A piece that may get a token of this kind: in some text it is found. */
  ghost predicate Findable(p: Patterns, kind: string, w: string) {
    exists s, sp: Span :: sp.end == sp.start + |w| && At(s, sp.start, w) && FoundAt(p, kind, s, sp, w)
  }

  /** The token is that of the original, which is findable. */
  ghost predicate TokenFor(p: Patterns, kind: string, entry: (string, string)) {
    Findable(p, kind, entry.1) && entry.0 == TokenOf(kind, p.hash(entry.1))
  }

  /** Every original is a findable piece of the text, and its token carries its kind and hash. */
  ghost predicate Accounted(p: Patterns, log: seq<(string, string)>, text: string) {
    forall entry :: entry in log ==> entry.1 != [] && Occurs(text, entry.1) && exists kind :: TokenFor(p, kind, entry)
  }

  lemma FoundIsFindable(p: Patterns, kind: string, s: string, sp: Span)
    requires sp.start < sp.end <= |s| && FoundAt(p, kind, s, sp, s[sp.start..sp.end])
    ensures Findable(p, kind, s[sp.start..sp.end])
  {
    assert At(s, sp.start, s[sp.start..sp.end]);
  }

  /** Literal text that is still there was in the original text. */
  lemma ChunkOccurs(syms: seq<Sym>, text: string, origin: string, log: seq<(string, string)>, c: Cut)
    requires Represents(syms, text, origin, log)
    requires c.start < c.end <= |text| && Avoids(syms, c.start, c.end)
    ensures Occurs(origin, Chunk(text, c))
  {
    RepresentedTokens(syms, text, origin, log);
    var i, j := LiteralRun(syms, c.start, c.end);
    MiddleOccurs(syms, i, j, Chunk(text, c));
  }

  lemma MiddleOccurs(syms: seq<Sym>, i: nat, j: nat, w: string)
    requires i <= j <= |syms| && syms[i..j] == Chars(w)
    ensures Occurs(Origin(syms), w)
  {
    assert syms == syms[..i] + syms[i..j] + syms[j..];
    Concat3(syms[..i], syms[i..j], syms[j..]);
    CharsAreThemselves(w);
    MiddleAt(Origin(syms[..i]), w, Origin(syms[j..]));
  }

  lemma MiddleAt(before: string, w: string, after: string)
    ensures Occurs(before + w + after, w)
  {
    assert At(before + w + after, |before|, w);
  }

  lemma PassAccounted(p: Patterns, d: Draft, kind: string, spans: seq<Span>, syms: seq<Sym>, origin: string)
    requires forall s :: IsHexSuffix(p.hash(s))
    requires kind in KINDS && LawfulSpans(spans, d.text)
    requires Represents(syms, d.text, origin, d.log) && Accounted(p, d.log, origin)
    requires forall sp :: sp in spans ==> Matches(p, kind, d.text, sp)
    ensures Accounted(p, Pass(p, d, kind, spans).log, origin)
  {
    var cuts := CutsFor(p, d.text, kind, Accepted(d.text, kind, spans));
    LogMembers(d.text, cuts);
    forall c | c in cuts
      ensures Chunk(d.text, c) != [] && Occurs(origin, Chunk(d.text, c))
      ensures TokenFor(p, kind, (c.token, Chunk(d.text, c)))
    {
      PassCutFits(p, d, kind, spans, c);
      MissesAvoids(syms, d.text, origin, d.log, c.start, c.end);
      ChunkOccurs(syms, d.text, origin, d.log, c);
      PassCutFound(p, d, kind, spans, c);
    }
  }

  lemma PassCutFound(p: Patterns, d: Draft, kind: string, spans: seq<Span>, c: Cut)
    requires InOrder(spans, d.text) && c in CutsFor(p, d.text, kind, Accepted(d.text, kind, spans))
    requires forall sp :: sp in spans ==> Matches(p, kind, d.text, sp)
    ensures c.start < c.end <= |d.text| && TokenFor(p, kind, (c.token, Chunk(d.text, c)))
  {
    var accepted := Accepted(d.text, kind, spans);
    var i :| 0 <= i < |accepted| && c == CutsFor(p, d.text, kind, accepted)[i];
    assert accepted[i] in accepted && accepted[i] in spans;
    AcceptedPassCheck(d.text, kind, spans, accepted[i]);
    FoundIsFindable(p, kind, d.text, accepted[i]);
  }

  lemma {:induction false} AcceptedPassCheck(s: string, kind: string, spans: seq<Span>, sp: Span)
    requires InOrder(spans, s) && sp in Accepted(s, kind, spans)
    ensures sp in spans && !Keeps(kind, s[sp.start..sp.end])
  {
    if sp in Accepted(s, kind, spans[1..]) {
      AcceptedPassCheck(s, kind, spans[1..], sp);
    }
  }

  lemma NerAccounted(p: Patterns, d: Draft, syms: seq<Sym>, origin: string)
    requires Lawful(p) && TokensLogged(d.log) && NonEmpty(DictOf(d.log).keys)
    requires Represents(syms, d.text, origin, d.log) && Accounted(p, d.log, origin)
    ensures Accounted(p, NerPass(p, d).log, origin)
  {
    if p.analyze.Some? {
      var cuts := NerCuts(p, d);
      LogMembers(d.text, cuts);
      forall c | c in cuts
        ensures Chunk(d.text, c) != [] && Occurs(origin, Chunk(d.text, c))
        ensures exists kind :: TokenFor(p, kind, (c.token, Chunk(d.text, c)))
      {
        NerCutFits(p, d, syms, origin, c);
        ChunkOccurs(syms, d.text, origin, d.log, c);
        NerCutFound(p, d, c);
      }
    }
  }

  lemma NerCutFound(p: Patterns, d: Draft, c: Cut)
    requires Lawful(p) && p.analyze.Some? && NonEmpty(DictOf(d.log).keys) && c in NerCuts(p, d)
    ensures c.start < c.end <= |d.text| && exists kind :: TokenFor(p, kind, (c.token, Chunk(d.text, c)))
  {
    var e := CutSource(p, d, c);
    var kind, sp := PRESIDIO_KIND_MAP[e.entityType], Span(e.start, e.end);
    assert EntityAs(e, kind, sp);
    FoundIsFindable(p, kind, d.text, sp);
    assert TokenFor(p, kind, (c.token, Chunk(d.text, c)));
  }

  lemma PassStep(p: Patterns, d: Draft, kind: string, spans: seq<Span>, syms: seq<Sym>, origin: string)
    returns (r: seq<Sym>)
    requires forall s :: IsHexSuffix(p.hash(s))
    requires kind in KINDS && LawfulSpans(spans, d.text)
    requires Represents(syms, d.text, origin, d.log) && Accounted(p, d.log, origin)
    requires forall sp :: sp in spans ==> Matches(p, kind, d.text, sp)
    ensures var after := Pass(p, d, kind, spans);
            Represents(r, after.text, origin, after.log) && Accounted(p, after.log, origin)
  {
    var after := Pass(p, d, kind, spans);
    PassGrows(p, d, kind, spans);
    PassAccounted(p, d, kind, spans, syms, origin);
    assert Represents(syms, d.text, origin, after.log);
    r := PassRepresents(p, d, kind, spans, syms, origin, after.log);
  }

  lemma RunAccounted(p: Patterns, text: string)
    requires Lawful(p)
    ensures Accounted(p, Run(p, text).log, text)
  {
    if text != [] {
      var d0 := Draft(text, []);
      var d1 := Pass(p, d0, "EMAIL", p.email(text));
      var d2 := Pass(p, d1, "CARD", p.card(d1.text));
      var d3 := Pass(p, d2, "PHONE", p.phone(d2.text));
      assert LawfulDni(p.dni(d3.text), d3.text);
      CharsRepresent(text, []);
      var r := PassStep(p, d0, "EMAIL", p.email(text), Chars(text), text);
      r := PassStep(p, d1, "CARD", p.card(d1.text), r, text);
      r := PassStep(p, d2, "PHONE", p.phone(d2.text), r, text);
      r := PassStep(p, d3, "DNI", DigitSpans(p.dni(d3.text)), r, text);
      RunIs(p, text);
      NerAccounted(p, RegexPasses(p, text), r, text);
    }
  }

  /** No piece of the text looks like a token. */
  ghost predicate NothingTokenShaped(text: string) {
    forall i, w :: At(text, i, w) ==> !TokenShaped(w)
  }

  /** The hash tells apart what can be found in the text as things of one kind. */
  ghost predicate HashSeparates(p: Patterns, text: string) {
    forall kind, a, b :: Candidate(p, kind, text, a) && Candidate(p, kind, text, b) && p.hash(a) == p.hash(b) ==> a == b
  }

  ghost predicate Candidate(p: Patterns, kind: string, text: string, w: string) {
    w != [] && Occurs(text, w) && Findable(p, kind, w)
  }

  lemma SameTokenParts(kind: string, suffix: string, kind': string, suffix': string)
    requires IsHexSuffix(suffix) && IsHexSuffix(suffix') && TokenOf(kind, suffix) == TokenOf(kind', suffix')
    ensures kind == kind' && suffix == suffix'
  {
    TokenParts(kind, suffix);
    TokenParts(kind', suffix');
  }

  lemma TokenParts(kind: string, suffix: string)
    requires IsHexSuffix(suffix)
    ensures var t := TokenOf(kind, suffix);
            |t| >= 7 && t[1..|t| - 6] == kind && t[|t| - 5..|t| - 1] == suffix
  {
  }

  lemma SeparatedIsInjective(p: Patterns, log: seq<(string, string)>, text: string)
    requires (forall s :: IsHexSuffix(p.hash(s))) && Accounted(p, log, text) && HashSeparates(p, text)
    ensures Injective(log)
  {
    forall a, b | a in log && b in log && a.0 == b.0 ensures a.1 == b.1 {
      var k :| TokenFor(p, k, a);
      var k' :| TokenFor(p, k', b);
      SameTokenParts(k, p.hash(a.1), k', p.hash(b.1));
      assert Candidate(p, k, text, a.1) && Candidate(p, k, text, b.1);
    }
  }

  /**
   * What a caller can check before: when nothing in the text looks like a token, and the hash tells apart
   * what can be found in it, it comes back, whatever the patterns and the recogniser do find.
   */
  lemma RoundTripOfCheckedText(p: Patterns, text: string)
    requires Lawful(p) && NothingTokenShaped(text) && HashSeparates(p, text)
    ensures Restored(p, text) == text
  {
    var log := Run(p, text).log;
    RunAccounted(p, text);
    SeparatedIsInjective(p, log, text);
    RunTokens(p, text);
    forall entry | entry in log ensures !Occurs(text, entry.0) {
      assert TokenShaped(entry.0);
    }
    RoundTrip(p, text);
  }
}
