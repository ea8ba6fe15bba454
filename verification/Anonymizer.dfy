/**
 * The reversible PII anonymiser: four pattern passes, then named entities from right to left, then
 * `reverse`. The pattern engine, the entity recogniser and the hash are parameters.
 */
module Anonymizer {
  import opened Wrappers
  import opened Text
  import opened TokenText
  import opened DigitText
  import Luhn
  import Sorting

  // ----- Data -----------------------------------------------------------------------------------

  datatype Span = Span(start: nat, end: nat)

  /** A match of the DNI pattern; its group is the tail `[digits, end)`. */
  datatype DniMatch = DniMatch(start: nat, digits: nat, end: nat)

  datatype Entity = Entity(start: nat, end: nat, entityType: string)

  /** What the service takes from its libraries. `analyze` is None when the recogniser is not installed. */
  datatype Patterns = Patterns(
    email: string -> seq<Span>,
    card: string -> seq<Span>,
    phone: string -> seq<Span>,
    dni: string -> seq<DniMatch>,
    hash: string -> string,
    analyze: Option<string -> seq<Entity>>,
    isStopWord: string -> bool)

  /** A Python dict: keys in the order of their first insertion. */
  datatype Dict = Dict(keys: seq<string>, values: map<string, string>) {
    function Put(key: string, value: string): Dict {
      Dict(if key in values then keys else keys + [key], values[key := value])
    }
  }

  datatype AnonymizationResult = AnonymizationResult(text: string, replacements: Dict)

  /** A text under work, and every assignment made to the replacements so far, oldest first. */
  datatype Draft = Draft(text: string, log: seq<(string, string)>)

  /** One substitution: the token that takes the place of `[start, end)`. */
  datatype Cut = Cut(start: nat, end: nat, token: string)

  const PRESIDIO_KIND_MAP: map<string, string> := map[
    "PERSON" := "NAME",
    "LOCATION" := "LOC",
    "EMAIL_ADDRESS" := "EMAIL",
    "CREDIT_CARD" := "CARD",
    "IBAN_CODE" := "IBAN",
    "IP_ADDRESS" := "IP",
    "URL" := "URL"]

  const KINDS: set<string> := {"EMAIL", "CARD", "PHONE", "DNI", "NAME", "LOC", "IBAN", "IP", "URL"}

  // ----- Tokens ---------------------------------------------------------------------------------

  predicate IsHexSuffix(h: string) {
    |h| == 4 && forall i :: 0 <= i < 4 ==> '0' <= h[i] <= '9' || 'A' <= h[i] <= 'F'
  }

  function TokenOf(kind: string, suffix: string): string {
    "[" + kind + "_" + suffix + "]"
  }

  ghost predicate TokenShaped(w: string) {
    exists kind, suffix :: kind in KINDS && IsHexSuffix(suffix) && w == TokenOf(kind, suffix)
  }

  predicate BracketFree(s: string) {
    forall i :: 0 <= i < |s| ==> s[i] != '[' && s[i] != ']'
  }

  lemma KindsAreBracketFree(kind: string)
    requires kind in KINDS
    ensures BracketFree(kind)
  {
    assert kind == "EMAIL" || kind == "CARD" || kind == "PHONE" || kind == "DNI" || kind == "NAME"
        || kind == "LOC" || kind == "IBAN" || kind == "IP" || kind == "URL";
  }

  lemma TokenShapedIsBracketed(w: string)
    requires TokenShaped(w)
    ensures Bracketed(w)
  {
    var kind, suffix :| kind in KINDS && IsHexSuffix(suffix) && w == TokenOf(kind, suffix);
    KindsAreBracketFree(kind);
    var inner := kind + "_" + suffix;
    assert w == ['['] + inner + [']'];
    assert forall i :: 0 < i < |w| - 1 ==> w[i] == inner[i - 1];
  }

  // ----- What the libraries promise -------------------------------------------------------------

  /** Non-empty, inside the text, in order and disjoint: what `finditer` yields. */
  predicate InOrder(spans: seq<Span>, s: string) {
    && (forall i :: 0 <= i < |spans| ==> spans[i].start < spans[i].end <= |s|)
    && (forall i, j :: 0 <= i < j < |spans| ==> spans[i].end <= spans[j].start)
  }

  /** No part of a token-shaped piece of `s` lies in `[start, end)`. */
  ghost predicate MissesTokens(s: string, start: nat, end: nat) {
    forall i, w :: At(s, i, w) && TokenShaped(w) ==> end <= i || i + |w| <= start
  }

  /** The patterns have no bracket in their alphabets and cannot match inside `[KIND_HHHH]`. */
  ghost predicate LawfulSpans(spans: seq<Span>, s: string) {
    && InOrder(spans, s)
    && forall sp :: sp in spans ==> BracketFree(s[sp.start..sp.end]) && MissesTokens(s, sp.start, sp.end)
  }

  /** The DNI group ends the match; its first character, a digit, does not occur before it. */
  predicate DniShape(m: DniMatch, s: string) {
    && m.start <= m.digits < m.end <= |s|
    && forall i :: m.start <= i < m.digits ==> s[i] != s[m.digits]
  }

  predicate DniInOrder(matches: seq<DniMatch>, s: string) {
    && (forall i :: 0 <= i < |matches| ==> DniShape(matches[i], s))
    && (forall i, j :: 0 <= i < j < |matches| ==> matches[i].end <= matches[j].start)
  }

  function DigitSpans(matches: seq<DniMatch>): (r: seq<Span>)
    ensures |r| == |matches| && forall i :: 0 <= i < |r| ==> r[i] == Span(matches[i].digits, matches[i].end)
  {
    seq(|matches|, i requires 0 <= i < |matches| => Span(matches[i].digits, matches[i].end))
  }

  ghost predicate LawfulDni(matches: seq<DniMatch>, s: string) {
    DniInOrder(matches, s) && LawfulSpans(DigitSpans(matches), s)
  }

  ghost predicate Lawful(p: Patterns) {
    && (forall s :: LawfulSpans(p.email(s), s))
    && (forall s :: LawfulSpans(p.card(s), s))
    && (forall s :: LawfulSpans(p.phone(s), s))
    && (forall s :: LawfulDni(p.dni(s), s))
    && (forall s :: IsHexSuffix(p.hash(s)))
    && (p.analyze.Some? ==> forall s :: LawfulEntities(p.analyze.value(s), s))
  }

  predicate LawfulEntities(entities: seq<Entity>, s: string) {
    forall e :: e in entities ==> e.start < e.end <= |s|
  }

  // ----- Substitution ---------------------------------------------------------------------------

  predicate ValidCuts(s: string, cuts: seq<Cut>) {
    && (forall i :: 0 <= i < |cuts| ==> cuts[i].start < cuts[i].end <= |s|)
    && (forall i, j :: 0 <= i < j < |cuts| ==> cuts[i].end <= cuts[j].start)
  }

  /** All substitutions at once, every chunk and every gap read from `s` itself; from `pos` on. */
  function Simultaneous(s: string, pos: nat, cuts: seq<Cut>): string
    requires ValidCuts(s, cuts) && pos <= |s|
    requires cuts != [] ==> pos <= cuts[0].start
    decreases |cuts|
  {
    if cuts == [] then s[pos..]
    else s[pos..cuts[0].start] + cuts[0].token + Simultaneous(s, cuts[0].end, cuts[1..])
  }

  /** The same substitutions one by one, the last one first. */
  function RightToLeft(s: string, cuts: seq<Cut>): string
    requires ValidCuts(s, cuts)
    ensures var from := if cuts == [] then |s| else cuts[0].start;
            |RightToLeft(s, cuts)| >= from && RightToLeft(s, cuts)[..from] == s[..from]
  {
    if cuts == [] then s
    else
      var later := RightToLeft(s, cuts[1..]);
      assert s[..cuts[0].start] == later[..cuts[0].start] by {
        var from := if cuts[1..] == [] then |s| else cuts[1].start;
        assert later[..from][..cuts[0].start] == s[..from][..cuts[0].start];
      }
      later[..cuts[0].start] + cuts[0].token + later[cuts[0].end..]
  }

  /** Working from the right keeps the offsets of what is left to do, so the order does not show. */
  lemma {:induction false} RightToLeftIsSimultaneous(s: string, pos: nat, cuts: seq<Cut>)
    requires ValidCuts(s, cuts) && pos <= |s|
    requires cuts != [] ==> pos <= cuts[0].start
    ensures RightToLeft(s, cuts) == s[..pos] + Simultaneous(s, pos, cuts)
    decreases |cuts|
  {
    if cuts == [] {
      assert s == s[..pos] + s[pos..];
    } else {
      var c := cuts[0];
      var rest := Simultaneous(s, c.end, cuts[1..]);
      RightToLeftIsSimultaneous(s, c.end, cuts[1..]);
      Splice(s, pos, c, rest);
    }
  }

  lemma Splice(s: string, pos: nat, c: Cut, rest: string)
    requires pos <= c.start <= c.end <= |s|
    ensures (s[..c.end] + rest)[..c.start] + c.token + (s[..c.end] + rest)[c.end..]
         == s[..pos] + (s[pos..c.start] + c.token + rest)
  {
    var later := s[..c.end] + rest;
    assert later[..c.start] == s[..c.start] && later[c.end..] == rest;
    assert s[..c.start] == s[..pos] + s[pos..c.start];
  }

  function Chunk(s: string, c: Cut): string
    requires c.start <= c.end <= |s|
  {
    s[c.start..c.end]
  }

  /** The dict assignments of a left-to-right pass. */
  function LogOf(s: string, cuts: seq<Cut>): seq<(string, string)>
    requires ValidCuts(s, cuts)
  {
    if cuts == [] then [] else [(cuts[0].token, Chunk(s, cuts[0]))] + LogOf(s, cuts[1..])
  }

  /** The dict assignments of a right-to-left pass. */
  function LogFromRight(s: string, cuts: seq<Cut>): seq<(string, string)>
    requires ValidCuts(s, cuts)
  {
    if cuts == [] then [] else LogFromRight(s, cuts[1..]) + [(cuts[0].token, Chunk(s, cuts[0]))]
  }

  function DictOf(log: seq<(string, string)>): Dict {
    if log == [] then Dict([], map[])
    else
      var last := |log| - 1;
      DictOf(log[..last]).Put(log[last].0, log[last].1)
  }

  // ----- The passes -----------------------------------------------------------------------------

  /** The spans of a pass that its callback replaces: the card pass wants a valid card number. */
  function Accepted(s: string, kind: string, spans: seq<Span>): (r: seq<Span>)
    requires InOrder(spans, s)
    ensures InOrder(r, s)
    ensures forall sp :: sp in r ==> sp in spans
    ensures r != [] ==> spans != [] && r[0].start >= spans[0].start
  {
    if spans == [] then []
    else
      var rest := Accepted(s, kind, spans[1..]);
      if kind == "CARD" && !Luhn.Valid(Digits(s[spans[0].start..spans[0].end])) then rest
      else [spans[0]] + rest
  }

  function CutsFor(p: Patterns, s: string, kind: string, spans: seq<Span>): (r: seq<Cut>)
    requires InOrder(spans, s)
    ensures |r| == |spans| && ValidCuts(s, r)
    ensures forall i :: 0 <= i < |r| ==>
              r[i] == Cut(spans[i].start, spans[i].end, TokenOf(kind, p.hash(s[spans[i].start..spans[i].end])))
  {
    seq(|spans|, i requires 0 <= i < |spans| =>
      Cut(spans[i].start, spans[i].end, TokenOf(kind, p.hash(s[spans[i].start..spans[i].end]))))
  }

  /** One `re.sub` pass. */
  function Pass(p: Patterns, d: Draft, kind: string, spans: seq<Span>): Draft
    requires InOrder(spans, d.text)
  {
    var cuts := CutsFor(p, d.text, kind, Accepted(d.text, kind, spans));
    Draft(Simultaneous(d.text, 0, cuts), d.log + LogOf(d.text, cuts))
  }

  ghost function RegexPasses(p: Patterns, text: string): Draft
    requires Lawful(p)
  {
    var d1 := Pass(p, Draft(text, []), "EMAIL", p.email(text));
    var d2 := Pass(p, d1, "CARD", p.card(d1.text));
    var d3 := Pass(p, d2, "PHONE", p.phone(d2.text));
    Pass(p, d3, "DNI", DigitSpans(p.dni(d3.text)))
  }

  // ----- Named entities -------------------------------------------------------------------------

  /** The occurrences of one token from `from` on, none inside another. */
  function FindAll(s: string, token: string, from: nat): seq<Span>
    requires token != []
    decreases |s| - from
  {
    match Find(s, token, from)
    case None => []
    case Some(i) => [Span(i, i + |token|)] + FindAll(s, token, i + |token|)
  }

  predicate NonEmpty(keys: seq<string>) {
    forall i :: 0 <= i < |keys| ==> keys[i] != []
  }

  /** The occurrences of the tokens from number `i` on. */
  function TokenRanges(s: string, keys: seq<string>, i: nat): seq<Span>
    requires NonEmpty(keys) && i <= |keys|
    decreases |keys| - i
  {
    if i == |keys| then [] else FindAll(s, keys[i], 0) + TokenRanges(s, keys, i + 1)
  }

  predicate Overlaps(ranges: seq<Span>, e: Entity) {
    exists r :: r in ranges && !(e.end <= r.start || e.start >= r.end)
  }

  function Known(entities: seq<Entity>): (r: seq<Entity>)
    ensures forall e :: e in r <==> e in entities && e.entityType in PRESIDIO_KIND_MAP
  {
    if entities == [] then []
    else if entities[0].entityType in PRESIDIO_KIND_MAP then [entities[0]] + Known(entities[1..])
    else Known(entities[1..])
  }

  /** Known entities, the rightmost start first. */
  function Ordered(entities: seq<Entity>): seq<Entity> {
    Sorting.StableSort(Known(entities), (e: Entity) => 0 - e.start)
  }

  predicate Descending(entities: seq<Entity>, s: string) {
    && (forall e :: e in entities ==> e.start < e.end <= |s| && e.entityType in PRESIDIO_KIND_MAP)
    && (forall i, j :: 0 <= i < j < |entities| ==> entities[i].start >= entities[j].start)
  }

  /** Replaceable in the redacted text: off the placed tokens, without brackets, not a stop word. */
  predicate Eligible(p: Patterns, s: string, ranges: seq<Span>, e: Entity)
    requires e.start < e.end <= |s|
  {
    !Overlaps(ranges, e) && BracketFree(s[e.start..e.end]) && !p.isStopWord(s[e.start..e.end])
  }

  function CutOf(p: Patterns, s: string, e: Entity): Cut
    requires e.start < e.end <= |s| && e.entityType in PRESIDIO_KIND_MAP
  {
    Cut(e.start, e.end, TokenOf(PRESIDIO_KIND_MAP[e.entityType], p.hash(s[e.start..e.end])))
  }

  /**
   * The entities from number `i` on that get replaced, leftmost first: every eligible one that
   * ends by `limit`, greedily from the right.
   */
  function EntityCuts(p: Patterns, s: string, ranges: seq<Span>, entities: seq<Entity>, i: nat,
      limit: nat): (r: seq<Cut>)
    requires Descending(entities, s) && i <= |entities| && limit <= |s|
    ensures ValidCuts(s, r)
    ensures r != [] ==> r[|r| - 1].end <= limit
    decreases |entities| - i
  {
    if i == |entities| then []
    else
      var e := entities[i];
      if Eligible(p, s, ranges, e) && e.end <= limit
      then EntityCuts(p, s, ranges, entities, i + 1, e.start) + [CutOf(p, s, e)]
      else EntityCuts(p, s, ranges, entities, i + 1, limit)
  }

  lemma OrderedDescends(entities: seq<Entity>, s: string)
    requires LawfulEntities(entities, s)
    ensures Descending(Ordered(entities), s)
    ensures forall e :: e in Ordered(entities) <==> e in entities && e.entityType in PRESIDIO_KIND_MAP
  {
    var key := (e: Entity) => 0 - e.start;
    Sorting.StableSortProperties(Known(entities), key);
    Sorting.SortKeepsMembers(Known(entities), key);
    var sorted := Ordered(entities);
    forall i, j | 0 <= i < j < |sorted| ensures sorted[i].start >= sorted[j].start {
      assert key(sorted[i]) <= key(sorted[j]);
    }
  }

  ghost function NerCuts(p: Patterns, d: Draft): (r: seq<Cut>)
    requires Lawful(p) && p.analyze.Some?
    requires NonEmpty(DictOf(d.log).keys)
    ensures ValidCuts(d.text, r)
  {
    var entities := p.analyze.value(d.text);
    OrderedDescends(entities, d.text);
    EntityCuts(p, d.text, TokenRanges(d.text, DictOf(d.log).keys, 0), Ordered(entities), 0, |d.text|)
  }

  ghost function NerPass(p: Patterns, d: Draft): Draft
    requires Lawful(p)
    requires NonEmpty(DictOf(d.log).keys)
  {
    if p.analyze.None? then d
    else
      var cuts := NerCuts(p, d);
      Draft(Simultaneous(d.text, 0, cuts), d.log + LogFromRight(d.text, cuts))
  }

  // ----- Dict facts -----------------------------------------------------------------------------

  lemma {:induction false} DictFacts(log: seq<(string, string)>)
    ensures forall k :: k in DictOf(log).keys <==> k in DictOf(log).values
    ensures forall k :: k in DictOf(log).values ==> (k, DictOf(log).values[k]) in log
    ensures forall entry :: entry in log ==> entry.0 in DictOf(log).values
  {
    if log == [] {
    } else {
      var last := |log| - 1;
      DictFacts(log[..last]);
      assert log == log[..last] + [log[last]];
    }
  }

  ghost predicate TokensLogged(log: seq<(string, string)>) {
    forall entry :: entry in log ==> TokenShaped(entry.0)
  }

  lemma LoggedKeys(log: seq<(string, string)>)
    requires TokensLogged(log)
    ensures forall k :: k in DictOf(log).keys ==> k in DictOf(log).values && Bracketed(k)
  {
    DictFacts(log);
    forall k | k in DictOf(log).keys ensures Bracketed(k) {
      assert (k, DictOf(log).values[k]) in log;
      TokenShapedIsBracketed(k);
    }
  }

  // ----- The whole run --------------------------------------------------------------------------

  lemma PassTokens(p: Patterns, d: Draft, kind: string, spans: seq<Span>)
    requires (forall x :: IsHexSuffix(p.hash(x))) && InOrder(spans, d.text) && kind in KINDS && TokensLogged(d.log)
    ensures TokensLogged(Pass(p, d, kind, spans).log)
  {
    var cuts := CutsFor(p, d.text, kind, Accepted(d.text, kind, spans));
    LogMembers(d.text, cuts);
  }

  lemma {:induction false} LogMembers(s: string, cuts: seq<Cut>)
    requires ValidCuts(s, cuts)
    ensures forall entry :: entry in LogOf(s, cuts) <==> exists c :: c in cuts && entry == (c.token, Chunk(s, c))
    ensures forall entry :: entry in LogFromRight(s, cuts) <==> entry in LogOf(s, cuts)
  {
    if cuts == [] {
    } else {
      LogMembers(s, cuts[1..]);
      assert cuts == [cuts[0]] + cuts[1..];
    }
  }

  lemma RegexTokens(p: Patterns, text: string)
    requires Lawful(p)
    ensures TokensLogged(RegexPasses(p, text).log)
    ensures NonEmpty(DictOf(RegexPasses(p, text).log).keys)
  {
    var d0 := Draft(text, []);
    var d1 := Pass(p, d0, "EMAIL", p.email(text));
    var d2 := Pass(p, d1, "CARD", p.card(d1.text));
    var d3 := Pass(p, d2, "PHONE", p.phone(d2.text));
    PassTokens(p, d0, "EMAIL", p.email(text));
    PassTokens(p, d1, "CARD", p.card(d1.text));
    PassTokens(p, d2, "PHONE", p.phone(d2.text));
    PassTokens(p, d3, "DNI", DigitSpans(p.dni(d3.text)));
    var log := RegexPasses(p, text).log;
    assert TokensLogged(log);
    LoggedKeys(log);
    forall i | 0 <= i < |DictOf(log).keys| ensures DictOf(log).keys[i] != [] {
      assert DictOf(log).keys[i] in DictOf(log).keys;
    }
  }

  /** The specification of `anonymize`. */
  ghost function Run(p: Patterns, text: string): Draft
    requires Lawful(p)
  {
    if text == [] then Draft(text, [])
    else
      RegexTokens(p, text);
      NerPass(p, RegexPasses(p, text))
  }

  // ----- The code -------------------------------------------------------------------------------

  predicate Keeps(kind: string, chunk: string) {
    kind == "CARD" && !Luhn.Valid(Digits(chunk))
  }

  /** What a pass still has to write once it stands at `pos`, before match `i`. */
  function TextFrom(p: Patterns, s: string, kind: string, spans: seq<Span>, i: nat, pos: nat): string
    requires InOrder(spans, s) && i <= |spans| && pos <= |s| && (i < |spans| ==> pos <= spans[i].start)
    decreases |spans| - i
  {
    if i == |spans| then s[pos..]
    else
      var chunk := s[spans[i].start..spans[i].end];
      if Keeps(kind, chunk) then TextFrom(p, s, kind, spans, i + 1, pos)
      else
        (s[pos..spans[i].start] + TokenOf(kind, p.hash(chunk))) + TextFrom(p, s, kind, spans, i + 1, spans[i].end)
  }

  function LogFrom(p: Patterns, s: string, kind: string, spans: seq<Span>, i: nat): seq<(string, string)>
    requires InOrder(spans, s) && i <= |spans|
    decreases |spans| - i
  {
    if i == |spans| then []
    else
      var chunk := s[spans[i].start..spans[i].end];
      if Keeps(kind, chunk) then LogFrom(p, s, kind, spans, i + 1)
      else [(TokenOf(kind, p.hash(chunk)), chunk)] + LogFrom(p, s, kind, spans, i + 1)
  }

  function CutsFrom(p: Patterns, s: string, kind: string, spans: seq<Span>, i: nat): (r: seq<Cut>)
    requires InOrder(spans, s) && i <= |spans|
    ensures ValidCuts(s, r)
    ensures r != [] ==> i < |spans| && spans[i].start <= r[0].start
  {
    CutsFor(p, s, kind, Accepted(s, kind, spans[i..]))
  }

  lemma CutsStep(p: Patterns, s: string, kind: string, spans: seq<Span>, i: nat)
    requires InOrder(spans, s) && i < |spans|
    ensures CutsFrom(p, s, kind, spans, i)
         == (if Keeps(kind, s[spans[i].start..spans[i].end]) then [] else [
               Cut(spans[i].start, spans[i].end, TokenOf(kind, p.hash(s[spans[i].start..spans[i].end])))])
            + CutsFrom(p, s, kind, spans, i + 1)
  {
    var head, tail := spans[i], spans[i + 1..];
    assert spans[i..] == [head] + tail && ([head] + tail)[1..] == tail;
    if !Keeps(kind, s[head.start..head.end]) {
      CutsHead(p, s, kind, head, Accepted(s, kind, tail));
    }
  }

  lemma CutsHead(p: Patterns, s: string, kind: string, head: Span, tail: seq<Span>)
    requires head.start < head.end <= |s| && InOrder(tail, s) && InOrder([head] + tail, s)
    ensures CutsFor(p, s, kind, [head] + tail)
         == [Cut(head.start, head.end, TokenOf(kind, p.hash(s[head.start..head.end])))] + CutsFor(p, s, kind, tail)
  {
  }

  lemma {:induction false} PassFrom(p: Patterns, s: string, kind: string, spans: seq<Span>, i: nat, pos: nat)
    requires InOrder(spans, s) && i <= |spans| && pos <= |s| && (i < |spans| ==> pos <= spans[i].start)
    ensures TextFrom(p, s, kind, spans, i, pos) == Simultaneous(s, pos, CutsFrom(p, s, kind, spans, i))
    ensures LogFrom(p, s, kind, spans, i) == LogOf(s, CutsFrom(p, s, kind, spans, i))
    decreases |spans| - i
  {
    if i < |spans| {
      var sp, rest := spans[i], CutsFrom(p, s, kind, spans, i + 1);
      var chunk := s[sp.start..sp.end];
      CutsStep(p, s, kind, spans, i);
      PassFrom(p, s, kind, spans, i + 1, if Keeps(kind, chunk) then pos else sp.end);
      assert [] + rest == rest;
      assert ([Cut(sp.start, sp.end, TokenOf(kind, p.hash(chunk)))] + rest)[1..] == rest;
    }
  }

  lemma PassIs(p: Patterns, d: Draft, kind: string, spans: seq<Span>)
    requires InOrder(spans, d.text)
    ensures Pass(p, d, kind, spans)
         == Draft(TextFrom(p, d.text, kind, spans, 0, 0), d.log + LogFrom(p, d.text, kind, spans, 0))
  {
    assert spans[0..] == spans;
    PassFrom(p, d.text, kind, spans, 0, 0);
  }

  lemma Regroup<T>(done: seq<T>, piece: seq<T>, rest: seq<T>)
    ensures done + (piece + rest) == (done + piece) + rest
  {
  }

  lemma PutIsAppend(log: seq<(string, string)>, key: string, value: string)
    ensures DictOf(log + [(key, value)]) == DictOf(log).Put(key, value)
  {
    assert (log + [(key, value)])[..|log|] == log;
  }

  lemma SubStep(p: Patterns, s: string, kind: string, spans: seq<Span>, i: nat, pos: nat, out: string,
      done: seq<(string, string)>)
    requires InOrder(spans, s) && i < |spans| && pos <= spans[i].start
    requires !Keeps(kind, s[spans[i].start..spans[i].end])
    ensures var chunk := s[spans[i].start..spans[i].end];
            var token := TokenOf(kind, p.hash(chunk));
            && out + TextFrom(p, s, kind, spans, i, pos)
            == out + (s[pos..spans[i].start] + token) + TextFrom(p, s, kind, spans, i + 1, spans[i].end)
            && done + LogFrom(p, s, kind, spans, i)
            == done + [(token, chunk)] + LogFrom(p, s, kind, spans, i + 1)
  {
    var chunk := s[spans[i].start..spans[i].end];
    var token := TokenOf(kind, p.hash(chunk));
    Regroup(out, s[pos..spans[i].start] + token, TextFrom(p, s, kind, spans, i + 1, spans[i].end));
    Regroup(done, [(token, chunk)], LogFrom(p, s, kind, spans, i + 1));
  }

  /** The card callback returns a candidate that fails the Luhn check unchanged. */
  method KeepsCandidate(kind: string, candidate: string) returns (kept: bool)
    ensures kept == Keeps(kind, candidate)
  {
    if kind != "CARD" {
      return false;
    }
    var valid := Luhn.LuhnCheck(candidate);
    kept := !valid;
  }

  /** `PATTERN.sub(callback, s)`. */
  method SubPass(p: Patterns, s: string, kind: string, spans: seq<Span>, replacements: Dict,
      ghost log: seq<(string, string)>)
    returns (out: string, updated: Dict)
    requires InOrder(spans, s) && replacements == DictOf(log)
    ensures out == Pass(p, Draft(s, log), kind, spans).text
    ensures updated == DictOf(Pass(p, Draft(s, log), kind, spans).log)
  {
    out, updated := "", replacements;
    var pos: nat := 0;
    ghost var done := log;
    ghost var text, entries := TextFrom(p, s, kind, spans, 0, 0), log + LogFrom(p, s, kind, spans, 0);
    for i := 0 to |spans|
      invariant pos <= |s| && (i < |spans| ==> pos <= spans[i].start)
      invariant out + TextFrom(p, s, kind, spans, i, pos) == text
      invariant done + LogFrom(p, s, kind, spans, i) == entries
      invariant updated == DictOf(done)
    {
      var candidate := s[spans[i].start..spans[i].end];
      var kept := KeepsCandidate(kind, candidate);
      if !kept {
        var token := TokenOf(kind, p.hash(candidate));
        SubStep(p, s, kind, spans, i, pos, out, done);
        PutIsAppend(done, token, candidate);
        updated := updated.Put(token, candidate);
        done := done + [(token, candidate)];
        out := out + (s[pos..spans[i].start] + token);
        pos := spans[i].end;
      }
    }
    out := out + s[pos..];
    assert done + [] == done;
    PassIs(p, Draft(s, log), kind, spans);
  }

  /** Replacing the digits inside a DNI match touches its tail only. */
  lemma DniReplacement(matched: string, prefix: string, digits: string, token: string)
    requires matched == prefix + digits && digits != []
    requires forall i :: 0 <= i < |prefix| ==> prefix[i] != digits[0]
    ensures Replace(matched, digits, token) == prefix + token
  {
    ReplaceSkips(prefix, digits, digits, token);
    assert digits[..|digits|] == digits && digits[|digits|..] == [];
    assert token + Replace([], digits, token) == token;
  }

  lemma DniPiece(s: string, pos: nat, m: DniMatch, token: string)
    requires DniShape(m, s) && pos <= m.start
    ensures s[pos..m.start] + Replace(s[m.start..m.end], s[m.digits..m.end], token) == s[pos..m.digits] + token
  {
    var prefix := s[m.start..m.digits];
    assert s[m.start..m.end] == prefix + s[m.digits..m.end];
    DniReplacement(s[m.start..m.end], prefix, s[m.digits..m.end], token);
    assert s[pos..m.digits] == s[pos..m.start] + prefix;
  }

  /** `DNI.sub(_dni_repl, s)`. */
  method SubDni(p: Patterns, s: string, matches: seq<DniMatch>, replacements: Dict, ghost log: seq<(string, string)>)
    returns (out: string, updated: Dict)
    requires DniInOrder(matches, s) && InOrder(DigitSpans(matches), s) && replacements == DictOf(log)
    ensures out == Pass(p, Draft(s, log), "DNI", DigitSpans(matches)).text
    ensures updated == DictOf(Pass(p, Draft(s, log), "DNI", DigitSpans(matches)).log)
  {
    out, updated := "", replacements;
    var pos: nat := 0;
    ghost var done := log;
    ghost var spans := DigitSpans(matches);
    ghost var text, entries := TextFrom(p, s, "DNI", spans, 0, 0), log + LogFrom(p, s, "DNI", spans, 0);
    for i := 0 to |matches|
      invariant pos <= |s| && (i < |matches| ==> pos <= matches[i].start <= matches[i].digits)
      invariant out + TextFrom(p, s, "DNI", spans, i, pos) == text
      invariant done + LogFrom(p, s, "DNI", spans, i) == entries
      invariant updated == DictOf(done)
    {
      var m := matches[i];
      assert DniShape(m, s) && spans[i] == Span(m.digits, m.end);
      var digits := s[m.digits..m.end];
      var token := TokenOf("DNI", p.hash(digits));
      var piece := s[pos..m.start] + Replace(s[m.start..m.end], digits, token);
      DniPiece(s, pos, m, token);
      SubStep(p, s, "DNI", spans, i, pos, out, done);
      PutIsAppend(done, token, digits);
      updated := updated.Put(token, digits);
      done := done + [(token, digits)];
      out := out + piece;
      pos := m.end;
    }
    out := out + s[pos..];
    assert done + [] == done;
    PassIs(p, Draft(s, log), "DNI", spans);
  }

  method FindToken(s: string, token: string) returns (ranges: seq<Span>)
    requires token != []
    ensures ranges == FindAll(s, token, 0)
  {
    ranges := [];
    var idx: nat := 0;
    while true
      invariant ranges + FindAll(s, token, idx) == FindAll(s, token, 0)
      decreases |s| - idx
    {
      var found := Find(s, token, idx);
      if found.None? {
        break;
      }
      idx := found.value + |token|;
      Regroup(ranges, [Span(found.value, idx)], FindAll(s, token, idx));
      ranges := ranges + [Span(found.value, idx)];
    }
  }

  /** The character ranges that already hold a token. */
  method FindRanges(s: string, keys: seq<string>) returns (ranges: seq<Span>)
    requires NonEmpty(keys)
    ensures ranges == TokenRanges(s, keys, 0)
  {
    ranges := [];
    for i := 0 to |keys|
      invariant ranges + TokenRanges(s, keys, i) == TokenRanges(s, keys, 0)
    {
      var occurrences := FindToken(s, keys[i]);
      Regroup(ranges, occurrences, TokenRanges(s, keys, i + 1));
      ranges := ranges + occurrences;
    }
  }

  /** Once a token sits at `limit`, a span that starts before it and reaches over it shows its bracket. */
  lemma ChunkOfWorkedText(s: string, cuts: seq<Cut>, e: Entity)
    requires ValidCuts(s, cuts) && e.start < e.end <= |s|
    requires cuts != [] ==> e.start <= cuts[0].start && Bracketed(cuts[0].token)
    ensures var limit := if cuts == [] then |s| else cuts[0].start;
            var chunk := Slice(RightToLeft(s, cuts), e.start, e.end);
            if e.end <= limit then chunk == s[e.start..e.end] else !BracketFree(chunk)
  {
    var limit := if cuts == [] then |s| else cuts[0].start;
    var worked := RightToLeft(s, cuts);
    if e.end <= limit {
      assert worked[..limit][e.start..e.end] == s[..limit][e.start..e.end];
    } else {
      assert worked[limit] == '[';
      assert Slice(worked, e.start, e.end)[limit - e.start] == '[';
    }
  }

  /** Where the replaced part of the text starts. */
  function Limit(s: string, cuts: seq<Cut>): nat
    requires ValidCuts(s, cuts)
  {
    if cuts == [] then |s| else cuts[0].start
  }

  /** The loop has dealt with the first `i` entities and replaced `cuts`. */
  ghost predicate Worked(p: Patterns, s: string, ranges: seq<Span>, spans: seq<Entity>, log: seq<(string, string)>,
      i: nat, cuts: seq<Cut>, out: string, updated: Dict)
    requires Descending(spans, s) && i <= |spans|
  {
    && ValidCuts(s, cuts)
    && (cuts != [] ==> Bracketed(cuts[0].token) && forall j :: i <= j < |spans| ==> spans[j].start <= cuts[0].start)
    && EntityCuts(p, s, ranges, spans, i, Limit(s, cuts)) + cuts == EntityCuts(p, s, ranges, spans, 0, |s|)
    && out == RightToLeft(s, cuts)
    && updated == DictOf(log + LogFromRight(s, cuts))
  }

  lemma WorkedStart(p: Patterns, s: string, ranges: seq<Span>, spans: seq<Entity>, log: seq<(string, string)>)
    requires Descending(spans, s)
    ensures Worked(p, s, ranges, spans, log, 0, [], s, DictOf(log))
  {
    assert log + [] == log;
    assert EntityCuts(p, s, ranges, spans, 0, |s|) + [] == EntityCuts(p, s, ranges, spans, 0, |s|);
  }

  lemma SkipEntity(p: Patterns, s: string, ranges: seq<Span>, spans: seq<Entity>, log: seq<(string, string)>,
      i: nat, cuts: seq<Cut>, out: string, updated: Dict)
    requires Descending(spans, s) && i < |spans| && Worked(p, s, ranges, spans, log, i, cuts, out, updated)
    requires !(Eligible(p, s, ranges, spans[i]) && spans[i].end <= Limit(s, cuts))
    ensures Worked(p, s, ranges, spans, log, i + 1, cuts, out, updated)
  {
  }

  lemma TakeEntity(p: Patterns, s: string, ranges: seq<Span>, spans: seq<Entity>, log: seq<(string, string)>,
      i: nat, cuts: seq<Cut>, out: string, updated: Dict)
    requires Descending(spans, s) && i < |spans| && Worked(p, s, ranges, spans, log, i, cuts, out, updated)
    requires Eligible(p, s, ranges, spans[i]) && spans[i].end <= Limit(s, cuts)
    requires forall x :: IsHexSuffix(p.hash(x))
    ensures var c := CutOf(p, s, spans[i]);
            && c.end <= |out|
            && Worked(p, s, ranges, spans, log, i + 1, [c] + cuts, out[..c.start] + c.token + out[c.end..],
                      updated.Put(c.token, Chunk(s, c)))
  {
    var e, c := spans[i], CutOf(p, s, spans[i]);
    KindMapTokens(e.entityType, p.hash(s[e.start..e.end]));
    GrowLeft(s, c, cuts);
    PutIsAppend(log + LogFromRight(s, cuts), c.token, Chunk(s, c));
    Regroup(log, LogFromRight(s, cuts), [(c.token, Chunk(s, c))]);
    Regroup(EntityCuts(p, s, ranges, spans, i + 1, e.start), [c], cuts);
  }

  lemma WorkedOut(p: Patterns, s: string, ranges: seq<Span>, spans: seq<Entity>, log: seq<(string, string)>,
      cuts: seq<Cut>, out: string, updated: Dict)
    requires Descending(spans, s) && Worked(p, s, ranges, spans, log, |spans|, cuts, out, updated)
    ensures var all := EntityCuts(p, s, ranges, spans, 0, |s|);
            out == Simultaneous(s, 0, all) && updated == DictOf(log + LogFromRight(s, all))
  {
    RightToLeftIsSimultaneous(s, 0, cuts);
    assert [] + cuts == cuts && s[..0] == [];
  }

  /** The recogniser's spans, applied right to left on the redacted text. */
  method SubEntities(p: Patterns, s: string, spans: seq<Entity>, ranges: seq<Span>, replacements: Dict,
      ghost log: seq<(string, string)>)
    returns (out: string, updated: Dict)
    requires Descending(spans, s) && replacements == DictOf(log)
    requires forall x :: IsHexSuffix(p.hash(x))
    ensures out == Simultaneous(s, 0, EntityCuts(p, s, ranges, spans, 0, |s|))
    ensures updated == DictOf(log + LogFromRight(s, EntityCuts(p, s, ranges, spans, 0, |s|)))
  {
    out, updated := s, replacements;
    ghost var cuts: seq<Cut> := [];
    WorkedStart(p, s, ranges, spans, log);
    for i := 0 to |spans|
      invariant Worked(p, s, ranges, spans, log, i, cuts, out, updated)
    {
      var e := spans[i];
      ChunkOfWorkedText(s, cuts, e);
      if Overlaps(ranges, e) {
        SkipEntity(p, s, ranges, spans, log, i, cuts, out, updated);
        continue;
      }
      var chunk := Slice(out, e.start, e.end);
      if !BracketFree(chunk) {
        SkipEntity(p, s, ranges, spans, log, i, cuts, out, updated);
        continue;
      }
      if p.isStopWord(chunk) {
        SkipEntity(p, s, ranges, spans, log, i, cuts, out, updated);
        continue;
      }
      TakeEntity(p, s, ranges, spans, log, i, cuts, out, updated);
      var token := TokenOf(PRESIDIO_KIND_MAP[e.entityType], p.hash(chunk));
      updated := updated.Put(token, chunk);
      out := out[..e.start] + token + out[e.end..];
      cuts := [CutOf(p, s, e)] + cuts;
    }
    WorkedOut(p, s, ranges, spans, log, cuts, out, updated);
  }

  lemma GrowLeft(s: string, c: Cut, cuts: seq<Cut>)
    requires ValidCuts(s, cuts) && c.start < c.end <= |s|
    requires cuts != [] ==> c.end <= cuts[0].start
    ensures ValidCuts(s, [c] + cuts)
    ensures |RightToLeft(s, cuts)| >= c.end
    ensures RightToLeft(s, [c] + cuts) == RightToLeft(s, cuts)[..c.start] + c.token + RightToLeft(s, cuts)[c.end..]
    ensures LogFromRight(s, [c] + cuts) == LogFromRight(s, cuts) + [(c.token, Chunk(s, c))]
  {
    assert ([c] + cuts)[1..] == cuts;
  }

  lemma KindMapTokens(entityType: string, suffix: string)
    requires entityType in PRESIDIO_KIND_MAP && IsHexSuffix(suffix)
    ensures TokenShaped(TokenOf(PRESIDIO_KIND_MAP[entityType], suffix))
    ensures Bracketed(TokenOf(PRESIDIO_KIND_MAP[entityType], suffix))
  {
    assert PRESIDIO_KIND_MAP[entityType] in KINDS;
    TokenShapedIsBracketed(TokenOf(PRESIDIO_KIND_MAP[entityType], suffix));
  }

  method RegexLayers(p: Patterns, text: string) returns (out: string, replacements: Dict)
    requires Lawful(p)
    ensures out == RegexPasses(p, text).text && replacements == DictOf(RegexPasses(p, text).log)
  {
    ghost var d0 := Draft(text, []);
    out, replacements := SubPass(p, text, "EMAIL", p.email(text), Dict([], map[]), []);
    ghost var d1 := Pass(p, d0, "EMAIL", p.email(text));
    out, replacements := SubPass(p, out, "CARD", p.card(out), replacements, d1.log);
    ghost var d2 := Pass(p, d1, "CARD", p.card(d1.text));
    out, replacements := SubPass(p, out, "PHONE", p.phone(out), replacements, d2.log);
    ghost var d3 := Pass(p, d2, "PHONE", p.phone(d2.text));
    out, replacements := SubDni(p, out, p.dni(out), replacements, d3.log);
  }

  /** The layer of the recogniser, when there is one. */
  method NerLayer(p: Patterns, text: string, replacements: Dict, ghost log: seq<(string, string)>)
    returns (out: string, updated: Dict)
    requires Lawful(p) && replacements == DictOf(log) && NonEmpty(replacements.keys)
    ensures out == NerPass(p, Draft(text, log)).text && updated == DictOf(NerPass(p, Draft(text, log)).log)
  {
    if p.analyze.None? {
      return text, replacements;
    }
    var results := p.analyze.value(text);
    OrderedDescends(results, text);
    var ranges := FindRanges(text, replacements.keys);
    out, updated := SubEntities(p, text, Ordered(results), ranges, replacements, log);
  }

  method Anonymize(p: Patterns, text: string) returns (r: AnonymizationResult)
    requires Lawful(p)
    ensures r.text == Run(p, text).text
    ensures r.replacements == DictOf(Run(p, text).log)
  {
    if text == "" {
      return AnonymizationResult(text, Dict([], map[]));
    }
    var out, replacements := RegexLayers(p, text);
    RegexTokens(p, text);
    ghost var d := RegexPasses(p, text);
    assert d == Draft(out, d.log);
    out, replacements := NerLayer(p, out, replacements, d.log);
    r := AnonymizationResult(out, replacements);
  }

  /** `AnonymizationResult.reverse`. */
  method ReverseText(replacements: Dict, anonymized: string) returns (out: string)
    requires forall k :: k in replacements.keys ==> k in replacements.values && k != []
    ensures out == Reverse(replacements.keys, replacements.values, anonymized)
  {
    out := anonymized;
    var keys := replacements.keys;
    for i := 0 to |keys|
      invariant forall k :: k in keys[i..] ==> k in keys
      invariant Reverse(keys[i..], replacements.values, out) == Reverse(keys, replacements.values, anonymized)
    {
      assert keys[i..][1..] == keys[i + 1..];
      assert keys[i] in keys;
      out := Replace(out, keys[i], replacements.values[keys[i]]);
    }
  }
}
