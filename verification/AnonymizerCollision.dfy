/** Runs that do not come back, because the hash collides or a token was there; and one that does by chance. */
module AnonymizerCollision {
  import opened Wrappers
  import opened Text
  import opened TokenText
  import opened Anonymizer
  import opened AnonymizerRoundTrip

  const TEXT := "a@b.co c@d.co"

  /** The two addresses match; the hash gives both the same suffix. */
  function Colliding(): Patterns {
    Patterns(
      (s: string) => if s == TEXT then [Span(0, 6), Span(7, 13)] else [],
      (s: string) => [],
      (s: string) => [],
      (s: string) => [],
      (s: string) => "0000",
      None,
      (s: string) => false)
  }

  lemma NothingShapedWithoutBrackets(s: string)
    requires BracketFree(s)
    ensures forall i, w :: At(s, i, w) ==> !TokenShaped(w)
  {
    forall i, w | At(s, i, w) ensures !TokenShaped(w) {
      if TokenShaped(w) {
        TokenShapedIsBracketed(w);
        assert false;
      }
    }
  }

  lemma PlainSpansLawful(spans: seq<Span>, s: string)
    requires InOrder(spans, s) && BracketFree(s)
    ensures LawfulSpans(spans, s)
  {
    NothingShapedWithoutBrackets(s);
  }

  /** The hash is constant, and only the first pattern finds anything, in one text. */
  ghost predicate OneTextMatches(p: Patterns, text: string, spans: seq<Span>) {
    && p.analyze.None?
    && (forall s :: p.hash(s) == "0000")
    && (forall s :: p.email(s) == if s == text then spans else [])
    && (forall s :: p.card(s) == [] && p.phone(s) == [] && p.dni(s) == [])
  }

  lemma NothingIsLawful(s: string)
    ensures LawfulSpans([], s) && LawfulDni([], s)
  {
    assert DigitSpans([]) == [];
  }

  lemma OneTextIsLawful(p: Patterns, text: string, spans: seq<Span>)
    requires OneTextMatches(p, text, spans) && LawfulSpans(spans, text)
    ensures Lawful(p)
  {
    forall s ensures LawfulSpans([], s) && LawfulDni([], s) {
      NothingIsLawful(s);
    }
  }

  lemma CollidingIsLawful()
    ensures Lawful(Colliding())
  {
    PlainSpansLawful([Span(0, 6), Span(7, 13)], TEXT);
    OneTextIsLawful(Colliding(), TEXT, [Span(0, 6), Span(7, 13)]);
  }

  lemma PassNothing(p: Patterns, d: Draft, kind: string)
    ensures Pass(p, d, kind, []) == d
  {
    assert d.text[0..] == d.text && d.log + [] == d.log;
  }

  /** The first pass over a text of two matches and a gap. */
  lemma TwoMatches(p: Patterns, a: string, gap: string, b: string)
    requires a != [] && b != []
    ensures Pass(p, Draft(a + gap + b, []), "EMAIL", [Span(0, |a|), Span(|a| + |gap|, |a| + |gap| + |b|)])
         == Draft(TokenOf("EMAIL", p.hash(a)) + gap + TokenOf("EMAIL", p.hash(b)),
                  [(TokenOf("EMAIL", p.hash(a)), a), (TokenOf("EMAIL", p.hash(b)), b)])
  {
    ThreeParts(a, gap, b);
    TwoSpans(p, a + gap + b, |a|, |a| + |gap|);
  }

  lemma TwoSpans(p: Patterns, s: string, m: nat, n: nat)
    requires 0 < m <= n < |s|
    ensures var first, last := TokenOf("EMAIL", p.hash(s[0..m])), TokenOf("EMAIL", p.hash(s[n..|s|]));
            Pass(p, Draft(s, []), "EMAIL", [Span(0, m), Span(n, |s|)])
            == Draft(first + s[m..n] + last, [(first, s[0..m]), (last, s[n..|s|])])
  {
    PassIs(p, Draft(s, []), "EMAIL", [Span(0, m), Span(n, |s|)]);
    TwoSpansText(p, s, m, n);
    TwoSpansLog(p, s, m, n);
  }

  lemma TwoSpansText(p: Patterns, s: string, m: nat, n: nat)
    requires 0 < m <= n < |s|
    ensures TextFrom(p, s, "EMAIL", [Span(0, m), Span(n, |s|)], 0, 0)
         == TokenOf("EMAIL", p.hash(s[0..m])) + s[m..n] + TokenOf("EMAIL", p.hash(s[n..|s|]))
  {
    var spans := [Span(0, m), Span(n, |s|)];
    var first, last := TokenOf("EMAIL", p.hash(s[0..m])), TokenOf("EMAIL", p.hash(s[n..|s|]));
    assert TextFrom(p, s, "EMAIL", spans, 2, |s|) == [];
    assert TextFrom(p, s, "EMAIL", spans, 1, m) == (s[m..n] + last) + [];
    assert TextFrom(p, s, "EMAIL", spans, 0, 0) == (s[0..0] + first) + ((s[m..n] + last) + []);
    Regroup(first, s[m..n], last);
    assert s[0..0] + first == first && (s[m..n] + last) + [] == s[m..n] + last;
  }

  lemma TwoSpansLog(p: Patterns, s: string, m: nat, n: nat)
    requires 0 < m <= n < |s|
    ensures LogFrom(p, s, "EMAIL", [Span(0, m), Span(n, |s|)], 0)
         == [(TokenOf("EMAIL", p.hash(s[0..m])), s[0..m]), (TokenOf("EMAIL", p.hash(s[n..|s|])), s[n..|s|])]
  {
    var spans := [Span(0, m), Span(n, |s|)];
    assert LogFrom(p, s, "EMAIL", spans, 2) == [];
    assert LogFrom(p, s, "EMAIL", spans, 1) == [(TokenOf("EMAIL", p.hash(s[n..|s|])), s[n..|s|])];
  }

  lemma ThreeParts(a: string, gap: string, b: string)
    ensures var s, n := a + gap + b, |a| + |gap|;
            |s| == n + |b| && s[0..|a|] == a && s[|a|..n] == gap && s[n..|s|] == b
  {
  }

  /** A run where only the first pass matches anything and no recogniser is installed. */
  lemma FirstPassOnly(p: Patterns, text: string, d: Draft)
    requires Lawful(p) && text != [] && p.analyze.None?
    requires d == Pass(p, Draft(text, []), "EMAIL", p.email(text))
    requires p.card(d.text) == [] && p.phone(d.text) == [] && p.dni(d.text) == []
    ensures Run(p, text) == d
  {
    PassNothing(p, d, "CARD");
    PassNothing(p, d, "PHONE");
    PassNothing(p, d, "DNI");
    assert DigitSpans([]) == [];
  }

  lemma DictOfOne(token: string, a: string)
    ensures DictOf([(token, a)]) == Dict([token], map[token := a])
  {
    var empty: seq<(string, string)> := [];
    assert [(token, a)][..0] == empty && DictOf(empty) == Dict([], map[]);
    assert map[][token := a] == map[token := a] && [] + [token] == [token];
  }

  lemma DictOfTwo(token: string, a: string, b: string)
    ensures DictOf([(token, a), (token, b)]) == Dict([token], map[token := b])
  {
    var log := [(token, a), (token, b)];
    assert log[..1] == [(token, a)];
    assert DictOf(log) == DictOf(log[..1]).Put(token, b);
    DictOfOne(token, a);
    assert map[token := a][token := b] == map[token := b];
  }

  /** Reversing two equal tokens gives the last original assigned to them, twice. */
  lemma ReverseTwice(token: string, gap: string, b: string)
    requires Bracketed(token) && BracketFree(b + gap + b)
    ensures Reverse([token], map[token := b], token + gap + token) == b + gap + b
  {
    var x := Tk(token, b);
    var syms := [x] + Chars(gap) + [x];
    Concat3([x], Chars(gap), [x]);
    CharsAreThemselves(gap);
    Single(x);
    NoBracketedIn(b + gap + b, token);
    ReverseRestores(syms, [token], map[token := b]);
  }

  lemma NoBracketedIn(s: string, token: string)
    requires Bracketed(token) && BracketFree(s)
    ensures !Occurs(s, token)
  {
    forall i ensures !At(s, i, token) {
      if At(s, i, token) {
        assert false;
      }
    }
  }

  lemma RestoredTwice(p: Patterns, text: string, token: string, a: string, gap: string, b: string)
    requires Lawful(p) && Run(p, text) == Draft(token + gap + token, [(token, a), (token, b)])
    requires Bracketed(token) && BracketFree(b + gap + b)
    ensures Restored(p, text) == b + gap + b
  {
    DictOfTwo(token, a, b);
    ReverseTwice(token, gap, b);
  }

  lemma LogOfTwoNotIn(text: string, token: string, a: string, b: string)
    requires Bracketed(token) && BracketFree(text)
    ensures NoTokenIn(text, [(token, a), (token, b)])
  {
    NoBracketedIn(text, token);
  }

  /** A text of two different addresses, of which only the first pass finds any, and a hash that collides on them. */
  ghost predicate TwoColliding(p: Patterns, a: string, gap: string, b: string) {
    && Lawful(p) && p.analyze.None?
    && a != b && a != [] && b != [] && BracketFree(a + gap + b)
    && p.email(a + gap + b) == [Span(0, |a|), Span(|a| + |gap|, |a| + |gap| + |b|)]
    && p.hash(a) == p.hash(b)
    && var token := TokenOf("EMAIL", p.hash(a));
       p.card(token + gap + token) == [] && p.phone(token + gap + token) == [] && p.dni(token + gap + token) == []
  }

  lemma CollidingRun(p: Patterns, a: string, gap: string, b: string)
    requires TwoColliding(p, a, gap, b)
    ensures var token := TokenOf("EMAIL", p.hash(a));
            && TokenShaped(token)
            && Run(p, a + gap + b) == Draft(token + gap + token, [(token, a), (token, b)])
  {
    var token := TokenOf("EMAIL", p.hash(a));
    TwoMatches(p, a, gap, b);
    FirstPassOnly(p, a + gap + b, Draft(token + gap + token, [(token, a), (token, b)]));
    assert "EMAIL" in KINDS;
  }

  lemma PartsBracketFree(a: string, gap: string, b: string)
    requires BracketFree(a + gap + b)
    ensures BracketFree(b + gap + b)
  {
    var text := a + gap + b;
    assert forall i :: 0 <= i < |b| ==> b[i] == text[|a| + |gap| + i];
    assert forall i :: 0 <= i < |gap| ==> gap[i] == text[|a| + i];
  }

  lemma FirstPartTells(a: string, gap: string, b: string)
    requires a != b
    ensures b + gap + b != a + gap + b
  {
    assert (a + gap + b)[..|a|] == a && (b + gap + b)[..|b|] == b;
  }

  /** Both addresses come back as the second one, although no token was in the text. */
  lemma CollisionBreaksTheRoundTrip(p: Patterns, a: string, gap: string, b: string)
    requires TwoColliding(p, a, gap, b)
    ensures NoTokenIn(a + gap + b, Run(p, a + gap + b).log)
    ensures Restored(p, a + gap + b) == b + gap + b != a + gap + b
  {
    var text, token := a + gap + b, TokenOf("EMAIL", p.hash(a));
    CollidingRun(p, a, gap, b);
    TokenShapedIsBracketed(token);
    LogOfTwoNotIn(text, token, a, b);
    PartsBracketFree(a, gap, b);
    RestoredTwice(p, text, token, a, gap, b);
    FirstPartTells(a, gap, b);
  }

  lemma CollidingPair()
    ensures TwoColliding(Colliding(), "a@b.co", " ", "c@d.co")
  {
    CollidingIsLawful();
    assert TEXT == "a@b.co" + " " + "c@d.co";
    assert "a@b.co"[0] != "c@d.co"[0];
  }

  /** There is such a run. */
  lemma CollisionExists(p: Patterns, a: string, gap: string, b: string)
    requires p == Colliding() && a == "a@b.co" && gap == " " && b == "c@d.co"
    ensures Lawful(p) && p.analyze.None? && NoTokenIn(a + gap + b, Run(p, a + gap + b).log)
    ensures Restored(p, a + gap + b) == b + gap + b != a + gap + b
  {
    CollidingPair();
    CollisionBreaksTheRoundTrip(p, a, gap, b);
  }

  // ----- A token that was there -----------------------------------------------------------------

  const WITH_TOKEN := "a@b.co [EMAIL_0000]"

  /** Only the address matches, and its token is the one that the text already has. */
  function Preempted(): Patterns {
    Patterns(
      (s: string) => if s == WITH_TOKEN then [Span(0, 6)] else [],
      (s: string) => [],
      (s: string) => [],
      (s: string) => [],
      (s: string) => "0000",
      None,
      (s: string) => false)
  }

  lemma LeadingSpanLawful(s: string, n: nat)
    requires 0 < n <= |s| && BracketFree(s[..n])
    ensures LawfulSpans([Span(0, n)], s)
  {
    assert s[0..n] == s[..n];
    assert forall k :: 0 <= k < n ==> s[k] == s[..n][k] && s[k] != '[';
    forall i, w | At(s, i, w) && TokenShaped(w) ensures n <= i {
      TokenShapedIsBracketed(w);
      assert s[i] == w[0] == '[';
    }
  }

  lemma PreemptedIsLawful()
    ensures Lawful(Preempted())
  {
    LeadingSpanLawful(WITH_TOKEN, 6);
    OneTextIsLawful(Preempted(), WITH_TOKEN, [Span(0, 6)]);
  }

  lemma OneSpanLog(p: Patterns, s: string, n: nat)
    requires 0 < n <= |s|
    ensures Pass(p, Draft(s, []), "EMAIL", [Span(0, n)]).log == [(TokenOf("EMAIL", p.hash(s[0..n])), s[0..n])]
  {
    var spans := [Span(0, n)];
    PassIs(p, Draft(s, []), "EMAIL", spans);
    assert LogFrom(p, s, "EMAIL", spans, 1) == [];
  }

  /** A run whose one match is the text's beginning. */
  lemma OneMatchRun(p: Patterns, s: string, n: nat)
    requires Lawful(p) && p.analyze.None? && 0 < n <= |s| && p.email(s) == [Span(0, n)]
    requires forall t :: p.card(t) == [] && p.phone(t) == [] && p.dni(t) == []
    ensures Run(p, s).log == [(TokenOf("EMAIL", p.hash(s[0..n])), s[0..n])]
  {
    FirstPassOnly(p, s, Pass(p, Draft(s, []), "EMAIL", [Span(0, n)]));
    OneSpanLog(p, s, n);
  }

  lemma OneEntry(log: seq<(string, string)>, entry: (string, string))
    requires log == [entry]
    ensures entry in log && Injective(log)
  {
  }

  lemma NoEntitiesMissAll(p: Patterns, text: string)
    requires Lawful(p) && p.analyze.None?
    ensures EntitiesMissTokens(p, text)
  {
  }

  lemma OneTokenLost(p: Patterns, text: string, entry: (string, string))
    requires Lawful(p) && p.analyze.None? && Run(p, text).log == [entry] && Occurs(text, entry.0)
    ensures Injective(Run(p, text).log) && Restored(p, text) != text
  {
    OneEntry(Run(p, text).log, entry);
    NoEntitiesMissAll(p, text);
    TokenInTextIsLost(p, text, entry);
  }

  lemma WithTokenParts()
    ensures WITH_TOKEN[0..6] == "a@b.co" && TokenOf("EMAIL", "0000") == "[EMAIL_0000]"
    ensures Occurs(WITH_TOKEN, "[EMAIL_0000]")
  {
    assert At(WITH_TOKEN, 7, "[EMAIL_0000]");
  }

  /** A lawful run, without a collision, that does not come back because its token was in the text. */
  lemma TokenAlreadyThere(p: Patterns)
    requires p == Preempted()
    ensures Lawful(p) && p.analyze.None?
    ensures Run(p, WITH_TOKEN).log == [("[EMAIL_0000]", "a@b.co")]
    ensures Injective(Run(p, WITH_TOKEN).log) && Occurs(WITH_TOKEN, "[EMAIL_0000]")
    ensures Restored(p, WITH_TOKEN) != WITH_TOKEN
  {
    PreemptedIsLawful();
    WithTokenParts();
    OneMatchRun(p, WITH_TOKEN, 6);
    OneTokenLost(p, WITH_TOKEN, ("[EMAIL_0000]", "a@b.co"));
  }

  // ----- Lengths that make up for one another ---------------------------------------------------

  const SIX := "aaaaaa"

  /** Three neighbouring matches of lengths one, three and two, all with one token. */
  function Compensating(): Patterns {
    Patterns(
      (s: string) => if s == SIX then [Span(0, 1), Span(1, 4), Span(4, 6)] else [],
      (s: string) => [],
      (s: string) => [],
      (s: string) => [],
      (s: string) => "0000",
      None,
      (s: string) => false)
  }

  lemma CompensatingIsLawful()
    ensures Lawful(Compensating())
  {
    PlainSpansLawful([Span(0, 1), Span(1, 4), Span(4, 6)], SIX);
    OneTextIsLawful(Compensating(), SIX, [Span(0, 1), Span(1, 4), Span(4, 6)]);
  }

  /** A match right at the writing position adds its token and nothing else. */
  lemma NeighbourStep(p: Patterns, s: string, spans: seq<Span>, i: nat, token: string)
    requires InOrder(spans, s) && i < |spans|
    requires token == TokenOf("EMAIL", p.hash(s[spans[i].start..spans[i].end]))
    ensures TextFrom(p, s, "EMAIL", spans, i, spans[i].start)
         == token + TextFrom(p, s, "EMAIL", spans, i + 1, spans[i].end)
    ensures LogFrom(p, s, "EMAIL", spans, i)
         == [(token, s[spans[i].start..spans[i].end])] + LogFrom(p, s, "EMAIL", spans, i + 1)
  {
    assert s[spans[i].start..spans[i].start] + token == token;
  }

  lemma Neighbours(p: Patterns, s: string, m: nat, n: nat, token: string)
    requires 0 < m < n < |s| && forall w :: TokenOf("EMAIL", p.hash(w)) == token
    ensures Pass(p, Draft(s, []), "EMAIL", [Span(0, m), Span(m, n), Span(n, |s|)])
         == Draft(token + token + token, [(token, s[0..m]), (token, s[m..n]), (token, s[n..|s|])])
  {
    var spans := [Span(0, m), Span(m, n), Span(n, |s|)];
    NeighbourStep(p, s, spans, 0, token);
    NeighbourStep(p, s, spans, 1, token);
    NeighbourStep(p, s, spans, 2, token);
    PassIs(p, Draft(s, []), "EMAIL", spans);
    assert TextFrom(p, s, "EMAIL", spans, 3, |s|) == [] && LogFrom(p, s, "EMAIL", spans, 3) == [];
    Regroup(token, token, token);
    assert token + [] == token;
  }

  lemma SixParts()
    ensures |SIX| == 6 && SIX[0..1] == "a" && SIX[1..4] == "aaa" && SIX[4..6] == "aa"
  {
  }

  lemma CompensatingRun(p: Patterns, token: string)
    requires p == Compensating() && token == TokenOf("EMAIL", "0000")
    ensures Lawful(p)
    ensures Run(p, SIX) == Draft(token + token + token, [(token, "a"), (token, "aaa"), (token, "aa")])
  {
    CompensatingIsLawful();
    SixParts();
    Neighbours(p, SIX, 1, 4, token);
    FirstPassOnly(p, SIX, Draft(token + token + token, [(token, "a"), (token, "aaa"), (token, "aa")]));
  }

  lemma ReverseThrice(token: string, b: string)
    requires Bracketed(token) && BracketFree(b + b + b)
    ensures Reverse([token], map[token := b], token + token + token) == b + b + b
  {
    var x := Tk(token, b);
    Concat3([x], [x], [x]);
    Single(x);
    NoBracketedIn(b + b + b, token);
    ReverseRestores([x] + [x] + [x], [token], map[token := b]);
  }

  lemma DictOfThree(token: string, a: string, b: string, c: string)
    ensures DictOf([(token, a), (token, b), (token, c)]) == Dict([token], map[token := c])
  {
    var log := [(token, a), (token, b), (token, c)];
    assert log[..2] == [(token, a), (token, b)];
    DictOfTwo(token, a, b);
    assert map[token := b][token := c] == map[token := c];
  }

  lemma NotOneSided(log: seq<(string, string)>, token: string, a: string, b: string, c: string)
    requires log == [(token, a), (token, b), (token, c)] && |a| < |c| < |b|
    ensures !Injective(log) && !OneSided(log)
  {
    DictOfThree(token, a, b, c);
    assert log[0] == (token, a) && log[1] == (token, b) && Stored(log, token, c);
  }

  lemma RestoredThrice(p: Patterns, text: string, token: string, a: string, b: string, c: string)
    requires Lawful(p) && Run(p, text) == Draft(token + token + token, [(token, a), (token, b), (token, c)])
    requires Bracketed(token) && BracketFree(c + c + c) && |a| < |c| < |b|
    ensures !Injective(Run(p, text).log) && !OneSided(Run(p, text).log)
    ensures Restored(p, text) == c + c + c
  {
    DictOfThree(token, a, b, c);
    ReverseThrice(token, c);
    NotOneSided(Run(p, text).log, token, a, b, c);
  }

  lemma SixIsThrice()
    ensures "aa" + "aa" + "aa" == SIX && BracketFree("aa" + "aa" + "aa")
  {
  }

  lemma PlainToken(token: string)
    requires token == TokenOf("EMAIL", "0000")
    ensures Bracketed(token)
  {
    assert "EMAIL" in KINDS && IsHexSuffix("0000");
    TokenShapedIsBracketed(token);
  }

  /**
   * A collision that does not show: the last original, put back three times, happens to make up the text.
   * So the exact condition needs lengths that are one-sided.
   */
  lemma LengthsMayCompensate(p: Patterns)
    requires p == Compensating()
    ensures Lawful(p)
    ensures !Injective(Run(p, SIX).log) && !OneSided(Run(p, SIX).log)
    ensures Restored(p, SIX) == SIX
  {
    var token := TokenOf("EMAIL", "0000");
    PlainToken(token);
    CompensatingRun(p, token);
    SixIsThrice();
    RestoredThrice(p, SIX, token, "a", "aaa", "aa");
  }
}
