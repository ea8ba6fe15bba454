/**
 * Texts that mix literal characters with reversible tokens. `Render` is what the text looks like,
 * `Origin` what it stands for. Tokens carry brackets at their two ends only, so a text can be read
 * back without ambiguity as long as no token was there to begin with.
 */
module TokenText {
  import opened Text

  datatype Sym = Ch(c: char) | Tk(token: string, original: string)

  function Face(x: Sym): string {
    if x.Ch? then [x.c] else x.token
  }

  function Back(x: Sym): string {
    if x.Ch? then [x.c] else x.original
  }

  function Render(syms: seq<Sym>): string {
    if syms == [] then [] else Face(syms[0]) + Render(syms[1..])
  }

  function Origin(syms: seq<Sym>): string {
    if syms == [] then [] else Back(syms[0]) + Origin(syms[1..])
  }

  /** A bracket at each end and none in between. */
  predicate Bracketed(w: string) {
    && |w| >= 2 && w[0] == '[' && w[|w| - 1] == ']'
    && forall i :: 0 < i < |w| - 1 ==> w[i] != '[' && w[i] != ']'
  }

  predicate TokensBracketed(syms: seq<Sym>) {
    forall x :: x in syms && x.Tk? ==> Bracketed(x.token)
  }

  function Chars(s: string): (r: seq<Sym>)
    ensures |r| == |s| && forall i :: 0 <= i < |s| ==> r[i] == Ch(s[i])
  {
    seq(|s|, i requires 0 <= i < |s| => Ch(s[i]))
  }

  lemma {:induction false} Concat(xs: seq<Sym>, ys: seq<Sym>)
    ensures Render(xs + ys) == Render(xs) + Render(ys)
    ensures Origin(xs + ys) == Origin(xs) + Origin(ys)
  {
    if xs == [] {
      assert xs + ys == ys;
    } else {
      var tail := xs[1..];
      assert (xs + ys)[0] == xs[0] && (xs + ys)[1..] == tail + ys;
      Concat(tail, ys);
      Associative(Face(xs[0]), Render(tail), Render(ys));
      Associative(Back(xs[0]), Origin(tail), Origin(ys));
    }
  }

  lemma Associative(a: string, b: string, c: string)
    ensures a + (b + c) == (a + b) + c
  {
  }

  lemma {:induction false} CharsAreThemselves(s: string)
    ensures Render(Chars(s)) == s && Origin(Chars(s)) == s
  {
    if s == [] {
    } else {
      assert Chars(s)[1..] == Chars(s[1..]);
      CharsAreThemselves(s[1..]);
    }
  }

  /** A rendered text that does not start with an opening bracket starts with a literal character. */
  lemma LiteralFirst(syms: seq<Sym>)
    requires TokensBracketed(syms) && Render(syms) != [] && Render(syms)[0] != '['
    ensures syms != [] && syms[0] == Ch(Render(syms)[0]) && Render(syms)[1..] == Render(syms[1..])
  {
    assert syms[0] in syms;
  }

  /** A rendered prefix without opening brackets is literal text. */
  lemma {:induction false} PrefixIsLiteral(syms: seq<Sym>, w: string)
    requires TokensBracketed(syms)
    requires |w| <= |Render(syms)| && Render(syms)[..|w|] == w
    requires forall i :: 0 <= i < |w| ==> w[i] != '['
    ensures |w| <= |syms| && syms[..|w|] == Chars(w)
  {
    if w == [] {
    } else {
      assert Render(syms)[0] == w[0];
      LiteralFirst(syms);
      PrefixTail(w[0], Render(syms[1..]), w);
      PrefixIsLiteral(syms[1..], w[1..]);
      PrefixOfChars(syms, w);
    }
  }

  /** A token read off the front is either the first symbol or literal text. */
  lemma LeadingToken(syms: seq<Sym>, k: string)
    requires TokensBracketed(syms) && Bracketed(k)
    requires |k| <= |Render(syms)| && Render(syms)[..|k|] == k
    ensures syms != []
    ensures syms[0].Tk? ==> syms[0].token == k
    ensures syms[0].Ch? ==> |k| <= |syms| && syms[..|k|] == Chars(k)
  {
    if syms[0].Ch? {
      PrefixTail(syms[0].c, Render(syms[1..]), k);
      PrefixIsLiteral(syms[1..], k[1..]);
      PrefixOfChars(syms, k);
    } else {
      SameToken(syms[0].token, k, Render(syms));
    }
  }

  lemma PrefixTail(c: char, rest: string, k: string)
    requires 0 < |k| <= |[c] + rest| && ([c] + rest)[..|k|] == k
    ensures k[0] == c && |k| - 1 <= |rest| && rest[..|k| - 1] == k[1..]
  {
    assert rest == ([c] + rest)[1..];
  }

  lemma PrefixOfChars(syms: seq<Sym>, k: string)
    requires syms != [] && k != [] && syms[0] == Ch(k[0])
    requires |k| - 1 <= |syms[1..]| && syms[1..][..|k| - 1] == Chars(k[1..])
    ensures |k| <= |syms| && syms[..|k|] == Chars(k)
  {
    assert syms[..|k|] == [syms[0]] + syms[1..][..|k| - 1];
    assert Chars(k) == [Ch(k[0])] + Chars(k[1..]);
  }

  /** Two tokens that start a text are the same: each ends at the first closing bracket. */
  lemma SameToken(t: string, k: string, text: string)
    requires Bracketed(t) && Bracketed(k)
    requires |t| <= |text| && text[..|t|] == t && |k| <= |text| && text[..|k|] == k
    ensures t == k
  {
    var n, m := |t| - 1, |k| - 1;
    assert t[n] == text[n] && k[m] == text[m];
    ClosesFirst(t, text, m);
    ClosesFirst(k, text, n);
  }

  lemma ClosesFirst(t: string, text: string, m: nat)
    requires Bracketed(t) && |t| <= |text| && text[..|t|] == t
    requires 0 < m < |text| && text[m] == ']'
    ensures |t| - 1 <= m
  {
    assert m < |t| ==> t[m] == text[m];
  }

  /**
   * `r` is `syms` after `str.replace` of one token: the placed tokens turn back into their
   * original, and nothing else changes unless the token was also part of the original text; then
   * an opening bracket is lost.
   */
  ghost predicate Replaced(syms: seq<Sym>, k: string, o: string, r: seq<Sym>)
    requires k != []
  {
    && Render(r) == Replace(Render(syms), k, o)
    && (forall x :: x in r && x.Tk? ==> x in syms && x.token != k)
    && (!Occurs(Origin(syms), k) ==> Origin(r) == Origin(syms))
    && (Opens(o) == 0 ==> SameOrFewerOpens(Origin(r), Origin(syms)))
  }

  predicate SameOrFewerOpens(s: string, t: string) {
    s == t || Opens(s) < Opens(t)
  }

  lemma {:induction false} ReplaceToken(syms: seq<Sym>, k: string, o: string) returns (r: seq<Sym>)
    requires TokensBracketed(syms) && Bracketed(k)
    requires forall x :: x in syms && x.Tk? && x.token == k ==> x.original == o
    ensures Replaced(syms, k, o, r)
    decreases |syms|
  {
    if syms == [] {
      return [];
    }
    var text := Render(syms);
    if |text| >= |k| && text[..|k|] == k {
      LeadingToken(syms, k);
      var n := if syms[0].Tk? then 1 else |k|;
      assert syms == syms[..n] + syms[n..];
      var rest := ReplaceToken(syms[n..], k, o);
      ReplacedHit(syms[..n], syms[n..], k, o, rest);
      r := Chars(o) + rest;
    } else {
      assert syms == [syms[0]] + syms[1..];
      var rest := ReplaceToken(syms[1..], k, o);
      ReplacedMiss(syms[0], syms[1..], k, o, rest);
      r := [syms[0]] + rest;
    }
  }

  lemma ReplacedHit(head: seq<Sym>, tail: seq<Sym>, k: string, o: string, rest: seq<Sym>)
    requires Bracketed(k) && (head == [Tk(k, o)] || head == Chars(k))
    requires Replaced(tail, k, o, rest)
    ensures Replaced(head + tail, k, o, Chars(o) + rest)
  {
    HitOrigin(head, tail, k, o, rest);
    if Opens(o) == 0 {
      HitOpens(head, tail, k, o, rest);
    }
    ReplaceHit(head, tail, k, o, rest);
  }

  lemma ReplacedMiss(x: Sym, tail: seq<Sym>, k: string, o: string, rest: seq<Sym>)
    requires Bracketed(k) && (x.Tk? ==> Bracketed(x.token))
    requires !(|k| <= |Render([x] + tail)| && Render([x] + tail)[..|k|] == k)
    requires Replaced(tail, k, o, rest)
    ensures Replaced([x] + tail, k, o, [x] + rest)
  {
    Concat([x], tail);
    Concat([x], rest);
    Single(x);
    ReplaceHead(Face(x), Render(tail), k, o);
    SuffixFacts(Back(x), Origin(tail), k);
    OpensConcat(Back(x), Origin(rest));
    OpensConcat(Back(x), Origin(tail));
  }

  lemma Single(x: Sym)
    ensures Render([x]) == Face(x) && Origin([x]) == Back(x)
  {
    assert [x][1..] == [] && Face(x) + [] == Face(x) && Back(x) + [] == Back(x);
  }

  /** One step of `str.replace`: `head` renders as the token and becomes the characters of `o`. */
  lemma ReplaceHit(head: seq<Sym>, tail: seq<Sym>, k: string, o: string, rest: seq<Sym>)
    requires Bracketed(k) && Render(head) == k
    requires Render(rest) == Replace(Render(tail), k, o)
    ensures Render(Chars(o) + rest) == Replace(Render(head + tail), k, o)
  {
    Concat(head, tail);
    CharsAreThemselves(o);
    Concat(Chars(o), rest);
    var text := k + Render(tail);
    assert text[..|k|] == k && text[|k|..] == Render(tail);
  }

  /** What that step does to the text the symbols stand for. */
  lemma HitOrigin(head: seq<Sym>, tail: seq<Sym>, k: string, o: string, rest: seq<Sym>)
    requires Bracketed(k) && (head == [Tk(k, o)] || head == Chars(k))
    ensures Render(head) == k
    ensures Origin(Chars(o) + rest) == o + Origin(rest)
    ensures head == [Tk(k, o)] ==> Origin(head + tail) == o + Origin(tail)
    ensures head == Chars(k) ==> Occurs(Origin(head + tail), k)
    ensures Occurs(Origin(tail), k) ==> Occurs(Origin(head + tail), k)
  {
    Single(Tk(k, o));
    CharsAreThemselves(k);
    CharsAreThemselves(o);
    Concat(head, tail);
    Concat(Chars(o), rest);
    SuffixFacts(Origin(head), Origin(tail), k);
    assert head == Chars(k) ==> At(Origin(head) + Origin(tail), 0, k);
  }

  /** Nothing is lost where the token had been placed, a bracket where it was literal text. */
  lemma HitOpens(head: seq<Sym>, tail: seq<Sym>, k: string, o: string, rest: seq<Sym>)
    requires Bracketed(k) && (head == [Tk(k, o)] || head == Chars(k))
    requires Opens(o) == 0 && SameOrFewerOpens(Origin(rest), Origin(tail))
    ensures SameOrFewerOpens(Origin(Chars(o) + rest), Origin(head + tail))
  {
    Single(Tk(k, o));
    CharsAreThemselves(k);
    CharsAreThemselves(o);
    Concat(head, tail);
    Concat(Chars(o), rest);
    OpensConcat(o, Origin(rest));
    OpensConcat(Origin(head), Origin(tail));
    OneOpen(k);
  }

  lemma OneOpen(token: string)
    requires Bracketed(token)
    ensures Opens(token) == 1
  {
    NoOpens(token[1..]);
  }

  lemma SuffixFacts(prefix: string, s: string, k: string)
    ensures Occurs(s, k) ==> Occurs(prefix + s, k)
    ensures Opens(prefix + s) == Opens(prefix) + Opens(s)
  {
    if Occurs(s, k) {
      OccursInSuffix(prefix, s, k);
    }
    OpensConcat(prefix, s);
  }

  /** A first symbol that is not the token survives whole. */
  lemma ReplaceHead(head: string, rest: string, k: string, o: string)
    requires Bracketed(k) && (|head| == 1 || Bracketed(head))
    requires !(|head + rest| >= |k| && (head + rest)[..|k|] == k)
    ensures Replace(head + rest, k, o) == head + Replace(rest, k, o)
  {
    if |head + rest| >= |k| {
      var tail := head[1..];
      assert tail + rest == (head + rest)[1..] && head == [head[0]] + tail;
      NoOpenAfterFirst(head);
      ReplaceSkips(tail, rest, k, o);
      Associative([head[0]], tail, Replace(rest, k, o));
    }
  }

  lemma NoOpenAfterFirst(head: string)
    requires |head| == 1 || Bracketed(head)
    ensures forall i :: 0 <= i < |head[1..]| ==> head[1..][i] != '['
  {
  }

  /** `reverse`: the replacements in dictionary order. */
  function Reverse(keys: seq<string>, values: map<string, string>, s: string): string
    requires forall k :: k in keys ==> k in values && k != []
  {
    if keys == [] then s
    else
      assert keys[0] in keys && forall k :: k in keys[1..] ==> k in keys;
      Reverse(keys[1..], values, Replace(s, keys[0], values[keys[0]]))
  }

  ghost predicate Covered(syms: seq<Sym>, keys: seq<string>, values: map<string, string>) {
    && (forall k :: k in keys ==> k in values && Bracketed(k))
    && (forall x :: x in syms && x.Tk? ==> x.token in keys && values[x.token] == x.original)
  }

  lemma {:induction false} NoTokensLeft(syms: seq<Sym>)
    requires forall x :: x in syms ==> x.Ch?
    ensures Render(syms) == Origin(syms)
  {
    if syms == [] {
    } else {
      NoTokensLeft(syms[1..]);
    }
  }

  /** Sequential replacement in dictionary order restores the original text on every intermediate mix. */
  lemma {:induction false} ReverseRestores(syms: seq<Sym>, keys: seq<string>, values: map<string, string>)
    requires Covered(syms, keys, values)
    requires forall k :: k in keys ==> !Occurs(Origin(syms), k)
    ensures Reverse(keys, values, Render(syms)) == Origin(syms)
    decreases |keys|
  {
    if keys == [] {
      NoTokensLeft(syms);
    } else {
      var next := ReplaceToken(syms, keys[0], values[keys[0]]);
      ReverseRestores(next, keys[1..], values);
    }
  }

  /** Whatever the text holds, reversing leaves what it stands for, or loses an opening bracket. */
  lemma {:induction false} ReverseOrLoses(syms: seq<Sym>, keys: seq<string>, values: map<string, string>)
    requires Covered(syms, keys, values)
    requires forall k :: k in keys ==> Opens(values[k]) == 0
    ensures SameOrFewerOpens(Reverse(keys, values, Render(syms)), Origin(syms))
    decreases |keys|
  {
    if keys == [] {
      NoTokensLeft(syms);
    } else {
      var next := ReplaceToken(syms, keys[0], values[keys[0]]);
      ReverseOrLoses(next, keys[1..], values);
    }
  }

  // ----- Symbols that a dictionary reads otherwise ----------------------------------------------

  /** The same text, every token standing for what the dictionary gives for it. */
  function Relabelled(syms: seq<Sym>, values: map<string, string>): (r: seq<Sym>)
    requires forall x :: x in syms && x.Tk? ==> x.token in values
    ensures |r| == |syms|
    ensures forall i :: 0 <= i < |r| ==>
              r[i] == if syms[i].Ch? then syms[i] else Tk(syms[i].token, values[syms[i].token])
  {
    seq(|syms|, i requires 0 <= i < |syms| =>
      if syms[i].Ch? then syms[i] else Tk(syms[i].token, values[syms[i].token]))
  }

  predicate SameFace(x: Sym, y: Sym) {
    (x.Ch? <==> y.Ch?) && Face(x) == Face(y)
  }

  /** Symbol by symbol the same face, and originals that are nowhere longer on the left. */
  ghost predicate NoLonger(xs: seq<Sym>, ys: seq<Sym>) {
    && |xs| == |ys|
    && (forall i :: 0 <= i < |xs| ==> SameFace(xs[i], ys[i]))
    && (forall i :: 0 <= i < |xs| ==> |Back(xs[i])| <= |Back(ys[i])|)
  }

  lemma {:induction false} SameFaces(xs: seq<Sym>, ys: seq<Sym>)
    requires |xs| == |ys| && forall i :: 0 <= i < |xs| ==> Face(xs[i]) == Face(ys[i])
    ensures Render(xs) == Render(ys)
  {
    if xs == [] {
    } else {
      SameFaces(xs[1..], ys[1..]);
    }
  }

  /** Two readings of one text, neither anywhere longer than the other's, say the same only if they are the same. */
  lemma {:induction false} ReadingsAgree(xs: seq<Sym>, ys: seq<Sym>)
    requires NoLonger(xs, ys)
    ensures |Origin(xs)| <= |Origin(ys)|
    ensures Origin(xs) == Origin(ys) ==> xs == ys
  {
    if xs == [] {
    } else {
      ReadingsAgree(xs[1..], ys[1..]);
      HeadsAgree(Back(xs[0]), Origin(xs[1..]), Back(ys[0]), Origin(ys[1..]));
      assert xs == [xs[0]] + xs[1..] && ys == [ys[0]] + ys[1..];
    }
  }

  lemma HeadsAgree(a: string, s: string, b: string, t: string)
    requires |a| <= |b| && |s| <= |t|
    ensures a + s == b + t ==> a == b && s == t
  {
    if a + s == b + t {
      assert |a| == |b| && (a + s)[..|a|] == a && (b + t)[..|b|] == b;
      assert (a + s)[|a|..] == s && (b + t)[|b|..] == t;
    }
  }

  lemma {:induction false} SameOpens(xs: seq<Sym>, ys: seq<Sym>)
    requires |xs| == |ys| && forall i :: 0 <= i < |xs| ==> Opens(Back(xs[i])) == Opens(Back(ys[i]))
    ensures Opens(Origin(xs)) == Opens(Origin(ys))
  {
    if xs == [] {
    } else {
      SameOpens(xs[1..], ys[1..]);
      OpensConcat(Back(xs[0]), Origin(xs[1..]));
      OpensConcat(Back(ys[0]), Origin(ys[1..]));
    }
  }

  /** The span `[a, b)` of the rendered text touches no token. */
  ghost predicate Avoids(syms: seq<Sym>, a: int, b: int) {
    forall k :: 0 <= k < |syms| && syms[k].Tk? ==> b <= |Render(syms[..k])| || |Render(syms[..k + 1])| <= a
  }

  lemma RenderStep(syms: seq<Sym>, k: nat)
    requires k < |syms|
    ensures Render(syms[..k + 1]) == Render(syms[..k]) + Render([syms[k]])
    ensures Origin(syms[..k + 1]) == Origin(syms[..k]) + Origin([syms[k]])
  {
    assert syms[..k + 1] == syms[..k] + [syms[k]];
    Concat(syms[..k], [syms[k]]);
  }

  lemma RenderSplit(syms: seq<Sym>, i: nat)
    requires i <= |syms|
    ensures Render(syms) == Render(syms[..i]) + Render(syms[i..])
    ensures Origin(syms) == Origin(syms[..i]) + Origin(syms[i..])
  {
    assert syms == syms[..i] + syms[i..];
    Concat(syms[..i], syms[i..]);
  }

  lemma RenderMonotone(syms: seq<Sym>, i: nat, j: nat)
    requires i <= j <= |syms|
    ensures |Render(syms[..i])| <= |Render(syms[..j])|
  {
    assert syms[..j][..i] == syms[..i];
    RenderSplit(syms[..j], i);
  }

  /** An offset that is not inside a token falls between two symbols. */
  lemma {:induction false} CutAt(syms: seq<Sym>, a: nat) returns (i: nat)
    requires a <= |Render(syms)|
    requires Avoids(syms, a, a)
    ensures i <= |syms| && |Render(syms[..i])| == a
    decreases |syms|
  {
    var n := |syms|;
    assert syms[..n] == syms;
    if a == |Render(syms)| {
      return n;
    }
    var init := syms[..n - 1];
    RenderStep(syms, n - 1);
    assert a <= |Render(init)|;
    forall k | 0 <= k < |init| && init[k].Tk?
      ensures a <= |Render(init[..k])| || |Render(init[..k + 1])| <= a
    {
      assert init[..k] == syms[..k] && init[..k + 1] == syms[..k + 1];
    }
    i := CutAt(init, a);
    assert init[..i] == syms[..i];
  }

  /** A span that touches no token is a run of literal characters. */
  lemma LiteralRun(syms: seq<Sym>, a: nat, b: nat) returns (i: nat, j: nat)
    requires TokensBracketed(syms)
    requires a < b <= |Render(syms)| && Avoids(syms, a, b)
    ensures i < j <= |syms|
    ensures |Render(syms[..i])| == a && |Render(syms[..j])| == b
    ensures Render(syms[..i]) == Render(syms)[..a] && Render(syms[j..]) == Render(syms)[b..]
    ensures syms[i..j] == Chars(Render(syms)[a..b])
  {
    i := CutAt(syms, a);
    j := CutAt(syms, b);
    RenderSplit(syms, i);
    RenderSplit(syms, j);
    if j <= i {
      RenderMonotone(syms, j, i);
    }
    BetweenCuts(syms, i, j);
    forall k | i <= k < j ensures syms[k].Ch? {
      NoTokenBetween(syms, a, b, i, j, k);
    }
    AllCharsRender(syms[i..j]);
  }

  lemma BetweenCuts(syms: seq<Sym>, i: nat, j: nat)
    requires i <= j <= |syms|
    ensures |Render(syms[..i])| <= |Render(syms[..j])| <= |Render(syms)|
    ensures Render(syms[i..j]) == Render(syms)[|Render(syms[..i])|..|Render(syms[..j])|]
  {
    assert syms[..j][..i] == syms[..i] && syms[..j][i..] == syms[i..j];
    RenderSplit(syms[..j], i);
    RenderSplit(syms, j);
  }

  lemma NoTokenBetween(syms: seq<Sym>, a: nat, b: nat, i: nat, j: nat, k: nat)
    requires TokensBracketed(syms) && Avoids(syms, a, b)
    requires i <= k < j <= |syms| && |Render(syms[..i])| == a && |Render(syms[..j])| == b
    ensures syms[k].Ch?
  {
    RenderMonotone(syms, i, k);
    RenderMonotone(syms, k + 1, j);
    RenderStep(syms, k);
    assert Render([syms[k]]) == Face(syms[k]);
  }

  lemma {:induction false} AllCharsRender(syms: seq<Sym>)
    requires forall x :: x in syms ==> x.Ch?
    ensures syms == Chars(Render(syms))
  {
    if syms == [] {
    } else {
      AllCharsRender(syms[1..]);
    }
  }

  /** The symbols after the run `[i, j)` has become a token. */
  function Spliced(syms: seq<Sym>, i: nat, j: nat, token: string): seq<Sym>
    requires i <= j <= |syms|
  {
    syms[..i] + [Tk(token, Origin(syms[i..j]))] + syms[j..]
  }

  lemma SplicedMeaning(syms: seq<Sym>, i: nat, j: nat, token: string)
    requires i <= j <= |syms|
    ensures Render(Spliced(syms, i, j, token)) == Render(syms[..i]) + token + Render(syms[j..])
    ensures Origin(Spliced(syms, i, j, token)) == Origin(syms)
  {
    var before, middle, after := syms[..i], syms[i..j], syms[j..];
    Concat3(before, [Tk(token, Origin(middle))], after);
    Concat3(before, middle, after);
    Single(Tk(token, Origin(middle)));
    Pieces(syms, i, j);
  }

  lemma Pieces(syms: seq<Sym>, i: nat, j: nat)
    requires i <= j <= |syms|
    ensures syms == syms[..i] + syms[i..j] + syms[j..]
  {
  }

  lemma Concat3(xs: seq<Sym>, ys: seq<Sym>, zs: seq<Sym>)
    ensures Render(xs + ys + zs) == Render(xs) + Render(ys) + Render(zs)
    ensures Origin(xs + ys + zs) == Origin(xs) + Origin(ys) + Origin(zs)
  {
    Concat(xs + ys, zs);
    Concat(xs, ys);
  }

  /** A span to the left of a splice still touches no token. */
  lemma AvoidsAfterSplice(syms: seq<Sym>, i: nat, j: nat, token: string, a: nat, b: nat)
    requires i <= j <= |syms| && b <= |Render(syms[..i])| && Avoids(syms, a, b)
    ensures Avoids(Spliced(syms, i, j, token), a, b)
  {
    var r := Spliced(syms, i, j, token);
    forall k | 0 <= k < |r| && r[k].Tk?
      ensures b <= |Render(r[..k])| || |Render(r[..k + 1])| <= a
    {
      if k < i {
        assert r[..k] == syms[..k] && r[..k + 1] == syms[..k + 1] && r[k] == syms[k];
      } else {
        assert r[..i] == syms[..i];
        RenderMonotone(r, i, k);
      }
    }
  }

  /** A placed token can be seen in the rendered text. */
  lemma TokenAt(syms: seq<Sym>, k: nat)
    requires k < |syms| && syms[k].Tk?
    ensures At(Render(syms), |Render(syms[..k])|, syms[k].token)
    ensures |Render(syms[..k + 1])| == |Render(syms[..k])| + |syms[k].token|
  {
    RenderStep(syms, k);
    RenderSplit(syms, k + 1);
    assert Render([syms[k]]) == syms[k].token;
  }

  // ----- Where a symbol stands ------------------------------------------------------------------

  /** The symbol `x` starts at offset `o` of the text that the symbols stand for. */
  ghost predicate Has(syms: seq<Sym>, o: nat, x: Sym) {
    exists k :: 0 <= k < |syms| && syms[k] == x && |Origin(syms[..k])| == o
  }

  /** The tokens of `syms` are still there in `r`, at their places. */
  ghost predicate Kept(syms: seq<Sym>, r: seq<Sym>) {
    forall o, x :: Has(syms, o, x) && x.Tk? ==> Has(r, o, x)
  }

  /** Offset `a` of the rendered text is offset `o` of the text behind it. */
  ghost predicate OffsetAt(syms: seq<Sym>, a: nat, o: nat) {
    exists i :: 0 <= i <= |syms| && |Render(syms[..i])| == a && |Origin(syms[..i])| == o
  }

  /** What was at offset `a` of the rendered `syms` is the symbol `x` of `r`. */
  ghost predicate PlacedFrom(syms: seq<Sym>, r: seq<Sym>, a: nat, x: Sym) {
    exists o :: OffsetAt(syms, a, o) && Has(r, o, x)
  }

  lemma KeptMember(syms: seq<Sym>, r: seq<Sym>, x: Sym)
    requires Kept(syms, r) && x in syms && x.Tk?
    ensures x in r
  {
    var k :| 0 <= k < |syms| && syms[k] == x;
    assert Has(syms, |Origin(syms[..k])|, x);
  }

  lemma PlacedAndKept(syms: seq<Sym>, r: seq<Sym>, after: seq<Sym>, a: nat, x: Sym)
    requires PlacedFrom(syms, r, a, x) && Kept(r, after) && x.Tk?
    ensures PlacedFrom(syms, after, a, x)
  {
    var o :| OffsetAt(syms, a, o) && Has(r, o, x);
    assert Has(after, o, x);
  }

  /** No symbol renders as nothing. */
  lemma RenderStrict(syms: seq<Sym>, i: nat, j: nat)
    requires TokensBracketed(syms) && i < j <= |syms|
    ensures |Render(syms[..i])| < |Render(syms[..j])|
  {
    RenderStep(syms, i);
    RenderMonotone(syms, i + 1, j);
    assert syms[i] in syms && |Face(syms[i])| > 0;
    Single(syms[i]);
  }

  /** An offset falls before one symbol only. */
  lemma CutUnique(syms: seq<Sym>, i: nat, j: nat)
    requires TokensBracketed(syms) && i <= |syms| && j <= |syms|
    requires |Render(syms[..j])| == |Render(syms[..i])|
    ensures i == j
  {
    if i < j {
      RenderStrict(syms, i, j);
    } else if j < i {
      RenderStrict(syms, j, i);
    }
  }

  /** The symbols before offset `a` of the rendered text are the same in both. */
  ghost predicate SamePrefix(syms: seq<Sym>, r: seq<Sym>, a: int) {
    forall i: nat :: i <= |syms| && |Render(syms[..i])| <= a ==> i <= |r| && r[..i] == syms[..i]
  }

  lemma SplicePrefix(syms: seq<Sym>, i: nat, j: nat, token: string)
    requires TokensBracketed(syms) && i <= j <= |syms|
    ensures SamePrefix(syms, Spliced(syms, i, j, token), |Render(syms[..i])|)
  {
    var r := Spliced(syms, i, j, token);
    forall k: nat | k <= |syms| && |Render(syms[..k])| <= |Render(syms[..i])| ensures k <= |r| && r[..k] == syms[..k] {
      if i < k {
        RenderStrict(syms, i, k);
      }
      assert r[..k] == syms[..k];
    }
  }

  lemma PrefixTransitive(a: seq<Sym>, b: seq<Sym>, c: seq<Sym>, n: int, m: int)
    requires SamePrefix(a, b, m) && SamePrefix(b, c, n) && n <= m
    ensures SamePrefix(a, c, n)
  {
    forall i: nat | i <= |a| && |Render(a[..i])| <= n ensures i <= |c| && c[..i] == a[..i] {
      assert b[..i] == a[..i];
    }
  }

  /** In literal text both offsets agree. */
  lemma PlainOffset(text: string, a: nat, o: nat)
    requires OffsetAt(Chars(text), a, o)
    ensures o == a
  {
    var i :| 0 <= i <= |text| && |Render(Chars(text)[..i])| == a && |Origin(Chars(text)[..i])| == o;
    assert Chars(text)[..i] == Chars(text[..i]);
    CharsAreThemselves(text[..i]);
  }

  /** A splice over literal characters moves no token. */
  lemma SpliceKeeps(syms: seq<Sym>, i: nat, j: nat, token: string)
    requires i <= j <= |syms| && forall k :: i <= k < j ==> syms[k].Ch?
    ensures Kept(syms, Spliced(syms, i, j, token))
    ensures Has(Spliced(syms, i, j, token), |Origin(syms[..i])|, Tk(token, Origin(syms[i..j])))
  {
    var r := Spliced(syms, i, j, token);
    assert r[..i] == syms[..i] && r[i] == Tk(token, Origin(syms[i..j]));
    forall o, x | Has(syms, o, x) && x.Tk? ensures Has(r, o, x) {
      var k :| 0 <= k < |syms| && syms[k] == x && |Origin(syms[..k])| == o;
      if k < i {
        assert r[k] == x && r[..k] == syms[..k];
      } else {
        SpliceMoves(syms, i, j, token, k);
      }
    }
  }

  lemma SpliceMoves(syms: seq<Sym>, i: nat, j: nat, token: string, k: nat)
    requires i <= j <= k < |syms|
    ensures Has(Spliced(syms, i, j, token), |Origin(syms[..k])|, syms[k])
  {
    var r, m := Spliced(syms, i, j, token), k - j + i + 1;
    assert syms[..k][..i] == syms[..i] && syms[..k][i..j] == syms[i..j] && syms[..k][j..] == syms[j..k];
    assert r[m] == syms[k];
    assert r[..m] == Spliced(syms[..k], i, j, token);
    SplicedMeaning(syms[..k], i, j, token);
  }
}
