/** Digit strings, as `re.sub(r"\D", "", s)` and `[int(c) for c in s if c.isdigit()]` read them. */
module DigitText {

  type Digit = d: int | 0 <= d <= 9

  predicate IsDigit(c: char) {
    '0' <= c <= '9'
  }

  function Value(c: char): Digit
    requires IsDigit(c)
  {
    c as int - '0' as int
  }

  /** The values of the digit characters of `s`, in order; everything else is dropped. */
  function Digits(s: string): seq<Digit> {
    if s == [] then []
    else if IsDigit(s[0]) then [Value(s[0])] + Digits(s[1..])
    else Digits(s[1..])
  }

  predicate AllDigits(s: string) {
    forall i :: 0 <= i < |s| ==> IsDigit(s[i])
  }

  lemma {:induction false} DigitsOfAllDigits(s: string)
    requires AllDigits(s)
    ensures |Digits(s)| == |s|
    ensures forall i :: 0 <= i < |s| ==> Digits(s)[i] == Value(s[i])
  {
    if s == [] {
    } else {
      DigitsOfAllDigits(s[1..]);
    }
  }

  lemma {:induction false} DigitsConcat(s: string, t: string)
    ensures Digits(s + t) == Digits(s) + Digits(t)
  {
    if s == [] {
      assert s + t == t;
    } else {
      assert (s + t)[0] == s[0] && (s + t)[1..] == s[1..] + t;
      DigitsConcat(s[1..], t);
    }
  }

  lemma DigitsOfOne(c: char)
    ensures Digits([c]) == if IsDigit(c) then [Value(c)] else []
  {
    var rest: string := [c][1..];
    assert rest == [];
  }

  lemma DigitsConcat3(a: string, b: string, c: string)
    ensures Digits(a + b + c) == Digits(a) + Digits(b) + Digits(c)
  {
    DigitsConcat(a + b, c);
    DigitsConcat(a, b);
  }

  lemma SplitAround(s: string, i: nat)
    requires i < |s|
    ensures s == s[..i] + [s[i]] + s[i + 1..]
  {
  }

  /** What the character at offset `i` contributes. */
  lemma DigitsAround(s: string, i: nat)
    requires i < |s|
    ensures Digits(s) == Digits(s[..i]) + (if IsDigit(s[i]) then [Value(s[i])] else []) + Digits(s[i + 1..])
  {
    SplitAround(s, i);
    DigitsConcat3(s[..i], [s[i]], s[i + 1..]);
    DigitsOfOne(s[i]);
  }

  /** Replacing a digit character by another replaces one digit, the one that the digits before it count. */
  lemma DigitsUpdate(s: string, i: nat, c: char)
    requires i < |s| && IsDigit(s[i]) && IsDigit(c)
    ensures |Digits(s[..i])| < |Digits(s)| && Digits(s)[|Digits(s[..i])|] == Value(s[i])
    ensures Digits(s[i := c]) == Digits(s)[|Digits(s[..i])| := Value(c)]
  {
    DigitsAround(s, i);
    DigitsAround(s[i := c], i);
    assert s[i := c][..i] == s[..i] && s[i := c][i + 1..] == s[i + 1..];
  }

  /** No digit strictly between two digit characters: they are neighbours among the digits. */
  lemma DigitsBetween(s: string, i: nat, j: nat)
    requires i < j <= |s| && IsDigit(s[i]) && forall k :: i < k < j ==> !IsDigit(s[k])
    ensures |Digits(s[..j])| == |Digits(s[..i])| + 1
  {
    assert s[..j][..i] == s[..i];
    DigitsAround(s[..j], i);
    NoDigits(s[..j][i + 1..]);
  }

  lemma {:induction false} NoDigits(s: string)
    requires forall k :: 0 <= k < |s| ==> !IsDigit(s[k])
    ensures Digits(s) == []
  {
    if s == [] {
    } else {
      NoDigits(s[1..]);
    }
  }

  // ----- Decimal numbers ------------------------------------------------------------------------

  function NumberOf(digits: seq<Digit>): nat {
    if digits == [] then 0 else 10 * NumberOf(digits[..|digits| - 1]) + digits[|digits| - 1]
  }

  function DigitChar(d: Digit): char {
    ('0' as int + d) as char
  }

  /** `str(n)`. */
  function Decimal(n: nat): string {
    if n < 10 then [DigitChar(n)] else Decimal(n / 10) + [DigitChar(n % 10)]
  }

  /** It reads as `n`, and has no leading zero. */
  lemma {:induction false} DecimalReads(n: nat)
    ensures AllDigits(Decimal(n)) && Decimal(n) != [] && NumberOf(Digits(Decimal(n))) == n
    ensures n > 0 ==> Decimal(n)[0] != '0'
  {
    if n < 10 {
      DigitsAround(Decimal(n), 0);
      assert Digits(Decimal(n)) == [n] && [n][..0] == [];
    } else {
      var init, last := Decimal(n / 10), DigitChar(n % 10);
      DecimalReads(n / 10);
      DigitsConcat(init, [last]);
      DigitsOfOne(last);
      assert (Digits(init) + [n % 10])[..|Digits(init)|] == Digits(init);
    }
  }
}
