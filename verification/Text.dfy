/** The `str` operations the services rely on: `find`, `replace`, `strip` and slices. */
module Text {
  import opened Wrappers

  /** `w` starts at offset `i` of `s`. */
  predicate At(s: string, i: int, w: string) {
    0 <= i && i + |w| <= |s| && s[i..i + |w|] == w
  }

  ghost predicate Occurs(s: string, w: string) {
    exists i :: At(s, i, w)
  }

  /** `s[a:b]` for `a <= b`: bounds past the end are clamped. */
  function Slice(s: string, a: nat, b: nat): string
    requires a <= b
  {
    if |s| <= a then [] else if |s| <= b then s[a..] else s[a..b]
  }

  /** The first `limit` characters, `s[:limit]`. */
  function Clip(s: string, limit: nat): string {
    if |s| <= limit then s else s[..limit]
  }

  /** What `str.isspace` accepts. */
  predicate IsSpace(c: char) {
    var n := c as int;
    || 9 <= n <= 13 || 28 <= n <= 32 || n == 0x85 || n == 0xA0 || n == 0x1680
    || 0x2000 <= n <= 0x200A || n == 0x2028 || n == 0x2029 || n == 0x202F || n == 0x205F || n == 0x3000
  }

  function StripLeft(s: string): string {
    if s != [] && IsSpace(s[0]) then StripLeft(s[1..]) else s
  }

  function StripRight(s: string): string {
    if s != [] && IsSpace(s[|s| - 1]) then StripRight(s[..|s| - 1]) else s
  }

  /** `s.strip()`. */
  function Strip(s: string): string {
    StripRight(StripLeft(s))
  }

  predicate AllSpace(s: string) {
    forall i :: 0 <= i < |s| ==> IsSpace(s[i])
  }

  /** `text` is `s` without the white space at its two ends. */
  ghost predicate Trimmed(text: string, s: string) {
    && (exists i, j :: 0 <= i <= j <= |s| && text == s[i..j] && AllSpace(s[..i]) && AllSpace(s[j..]))
    && (text != "" ==> !IsSpace(text[0]) && !IsSpace(text[|text| - 1]))
  }

  lemma {:induction false} StripLeftTrims(s: string) returns (i: nat)
    ensures i <= |s| && StripLeft(s) == s[i..] && AllSpace(s[..i])
    ensures StripLeft(s) != "" ==> !IsSpace(StripLeft(s)[0])
  {
    if s != [] && IsSpace(s[0]) {
      var k := StripLeftTrims(s[1..]);
      i := k + 1;
      assert s[..i] == [s[0]] + s[1..][..k];
    } else {
      i := 0;
    }
  }

  lemma {:induction false} StripRightTrims(s: string) returns (j: nat)
    ensures j <= |s| && StripRight(s) == s[..j] && AllSpace(s[j..])
    ensures StripRight(s) != "" ==> !IsSpace(StripRight(s)[|StripRight(s)| - 1])
  {
    var n := |s|;
    if s != [] && IsSpace(s[n - 1]) {
      j := StripRightTrims(s[..n - 1]);
      assert s[j..] == s[..n - 1][j..] + [s[n - 1]] && s[..n - 1][..j] == s[..j];
    } else {
      j := n;
    }
  }

  lemma StripTrims(s: string)
    ensures Trimmed(Strip(s), s)
  {
    var left := StripLeft(s);
    var i := StripLeftTrims(s);
    var k := StripRightTrims(left);
    assert left[..k] == s[i..i + k] && left[k..] == s[i + k..];
  }

  /** `s.find(w, from)`: the first occurrence at or after `from`. */
  function Find(s: string, w: string, from: nat): (r: Option<nat>)
    ensures r.Some? ==> from <= r.value && At(s, r.value, w) && forall i :: from <= i < r.value ==> !At(s, i, w)
    ensures r.None? ==> forall i :: from <= i ==> !At(s, i, w)
    decreases |s| - from
  {
    if from + |w| > |s| then None
    else if s[from..from + |w|] == w then Some(from)
    else if from == |s| then None
    else Find(s, w, from + 1)
  }

  /** `s.replace(old, new)` for a non-empty `old`: leftmost occurrences first, none inside another. */
  function Replace(s: string, old_: string, new_: string): string
    requires old_ != []
  {
    if |s| < |old_| then s
    else if s[..|old_|] == old_ then new_ + Replace(s[|old_|..], old_, new_)
    else [s[0]] + Replace(s[1..], old_, new_)
  }

  lemma OccursInSuffix(prefix: string, s: string, w: string)
    requires Occurs(s, w)
    ensures Occurs(prefix + s, w)
  {
    var i :| At(s, i, w);
    assert At(prefix + s, |prefix| + i, w);
  }

  /** Text whose characters never start `old` is left alone. */
  lemma {:induction false} ReplaceSkips(prefix: string, s: string, old_: string, new_: string)
    requires old_ != [] && forall i :: 0 <= i < |prefix| ==> prefix[i] != old_[0]
    ensures Replace(prefix + s, old_, new_) == prefix + Replace(s, old_, new_)
  {
    var all := prefix + s;
    if prefix == [] {
      assert all == s;
    } else {
      assert all[1..] == prefix[1..] + s;
      if |all| >= |old_| {
        assert all[..|old_|][0] == prefix[0];
        ReplaceSkips(prefix[1..], s, old_, new_);
        assert all[0] == prefix[0];
        assert prefix == [prefix[0]] + prefix[1..];
      } else {
        assert Replace(s, old_, new_) == s;
      }
    }
  }

  /** The number of opening brackets. */
  function Opens(s: string): nat {
    if s == [] then 0 else (if s[0] == '[' then 1 else 0) + Opens(s[1..])
  }

  lemma {:induction false} OpensConcat(a: string, b: string)
    ensures Opens(a + b) == Opens(a) + Opens(b)
  {
    if a == [] {
      assert a + b == b;
    } else {
      assert (a + b)[1..] == a[1..] + b;
      OpensConcat(a[1..], b);
    }
  }

  lemma {:induction false} NoOpens(s: string)
    requires forall i :: 0 <= i < |s| ==> s[i] != '['
    ensures Opens(s) == 0
  {
    if s == [] {
    } else {
      NoOpens(s[1..]);
    }
  }
}
