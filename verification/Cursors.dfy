/** Page cursors: the 16 bytes of a row id in unpadded base64url (sections 3.2 and 5 of RFC 4648). */
module Cursors {
  import opened Wrappers

  type Byte = b: int | 0 <= b < 256

  type Sextet = v: int | 0 <= v < 64

  datatype CursorError = InvalidCursor

  // ----- Base64 ---------------------------------------------------------------------------------

  function CharOf(v: Sextet): char {
    if v < 26 then ('A' as int + v) as char
    else if v < 52 then ('a' as int + v - 26) as char
    else if v < 62 then ('0' as int + v - 52) as char
    else if v == 62 then '-' else '_'
  }

  /** The value of a character; the decoder takes both alphabets and ignores every other character. */
  function ValueOf(c: char): Option<Sextet> {
    if 'A' <= c <= 'Z' then Some(c as int - 'A' as int)
    else if 'a' <= c <= 'z' then Some(c as int - 'a' as int + 26)
    else if '0' <= c <= '9' then Some(c as int - '0' as int + 52)
    else if c == '-' || c == '+' then Some(62)
    else if c == '_' || c == '/' then Some(63)
    else None
  }

  lemma ValueOfCharOf(v: Sextet)
    ensures ValueOf(CharOf(v)) == Some(v) && CharOf(v) != '='
  {
  }

  /** The encoding without its padding. */
  function Body(bytes: seq<Byte>): string {
    if bytes == [] then []
    else if |bytes| == 1 then [CharOf(bytes[0] / 4), CharOf(bytes[0] % 4 * 16)]
    else if |bytes| == 2 then
      [CharOf(bytes[0] / 4), CharOf(bytes[0] % 4 * 16 + bytes[1] / 16), CharOf(bytes[1] % 16 * 4)]
    else
      [CharOf(bytes[0] / 4), CharOf(bytes[0] % 4 * 16 + bytes[1] / 16),
       CharOf(bytes[1] % 16 * 4 + bytes[2] / 64), CharOf(bytes[2] % 64)] + Body(bytes[3..])
  }

  function Pads(n: nat): string {
    if n == 0 then [] else ['='] + Pads(n - 1)
  }

  function PadCount(bytes: seq<Byte>): nat {
    if |bytes| % 3 == 0 then 0 else 3 - |bytes| % 3
  }

  /** `base64.urlsafe_b64encode`. */
  function Encode(bytes: seq<Byte>): string {
    Body(bytes) + Pads(PadCount(bytes))
  }

  /** `s.rstrip("=")`. */
  function StripPads(s: string): string {
    if s != [] && s[|s| - 1] == '=' then StripPads(s[..|s| - 1]) else s
  }

  /** `value + "=" * (-len(value) % 4)`. */
  function Repad(s: string): string {
    s + Pads((4 - |s| % 4) % 4)
  }

  /**
   * The decoder: `quad` characters of the current group are read, `left` holds the bits not written
   * yet, `pads` counts padding; a complete padding ends the input.
   */
  function Decode(s: string, quad: nat, left: nat, pads: nat): Option<seq<Byte>>
    requires quad < 4
    requires (quad == 1 ==> left < 64) && (quad == 2 ==> left < 16) && (quad == 3 ==> left < 4)
  {
    if s == [] then if quad == 0 then Some([]) else None
    else if s[0] == '=' then
      if quad < 2 then Decode(s[1..], quad, left, pads)
      else if quad + pads + 1 >= 4 then Some([])
      else Decode(s[1..], quad, left, pads + 1)
    else
      match ValueOf(s[0])
      case None => Decode(s[1..], quad, left, pads)
      case Some(v) =>
        if quad == 0 then Decode(s[1..], 1, v, 0)
        else if quad == 1 then Prepend(left * 4 + v / 16, Decode(s[1..], 2, v % 16, 0))
        else if quad == 2 then Prepend(left * 16 + v / 4, Decode(s[1..], 3, v % 4, 0))
        else Prepend(left * 64 + v, Decode(s[1..], 0, 0, 0))
  }

  function Prepend(b: Byte, rest: Option<seq<Byte>>): Option<seq<Byte>> {
    if rest.None? then None else Some([b] + rest.value)
  }

  lemma DecodeStep(c: char, v: Sextet, rest: string, quad: nat, left: nat, pads: nat)
    requires quad < 4 && (quad == 1 ==> left < 64) && (quad == 2 ==> left < 16) && (quad == 3 ==> left < 4)
    requires c == CharOf(v)
    ensures Decode([c] + rest, quad, left, pads) ==
      if quad == 0 then Decode(rest, 1, v, 0)
      else if quad == 1 then Prepend(left * 4 + v / 16, Decode(rest, 2, v % 16, 0))
      else if quad == 2 then Prepend(left * 16 + v / 4, Decode(rest, 3, v % 4, 0))
      else Prepend(left * 64 + v, Decode(rest, 0, 0, 0))
  {
    ValueOfCharOf(v);
    assert ([c] + rest)[1..] == rest;
  }

  lemma DecodeFour(s1: Sextet, s2: Sextet, s3: Sextet, s4: Sextet, rest: string)
    ensures Decode([CharOf(s1), CharOf(s2), CharOf(s3), CharOf(s4)] + rest, 0, 0, 0)
         == Prepend(s1 * 4 + s2 / 16, Prepend(s2 % 16 * 16 + s3 / 4, Prepend(s3 % 4 * 64 + s4, Decode(rest, 0, 0, 0))))
  {
    var r3 := [CharOf(s4)] + rest;
    var r2 := [CharOf(s3)] + r3;
    var r1 := [CharOf(s2)] + r2;
    assert [CharOf(s1), CharOf(s2), CharOf(s3), CharOf(s4)] + rest == [CharOf(s1)] + r1;
    DecodeStep(CharOf(s1), s1, r1, 0, 0, 0);
    DecodeStep(CharOf(s2), s2, r2, 1, s1, 0);
    DecodeStep(CharOf(s3), s3, r3, 2, s2 % 16, 0);
    DecodeStep(CharOf(s4), s4, rest, 3, s3 % 4, 0);
  }

  lemma DecodeThree(a: Byte, b: Byte, c: Byte, rest: string)
    ensures Decode([CharOf(a / 4), CharOf(a % 4 * 16 + b / 16), CharOf(b % 16 * 4 + c / 64), CharOf(c % 64)]
                   + rest, 0, 0, 0)
         == Prepend(a, Prepend(b, Prepend(c, Decode(rest, 0, 0, 0))))
  {
    Sextets(a, b, c);
    DecodeFour(a / 4, a % 4 * 16 + b / 16, b % 16 * 4 + c / 64, c % 64, rest);
  }

  /** Three bytes as four groups of six bits. */
  lemma Sextets(a: Byte, b: Byte, c: Byte)
    ensures var s2, s3 := a % 4 * 16 + b / 16, b % 16 * 4 + c / 64;
            && a / 4 * 4 + s2 / 16 == a
            && s2 % 16 * 16 + s3 / 4 == b
            && s3 % 4 * 64 + c % 64 == c
  {
  }

  lemma DecodePads()
    ensures Decode(Pads(2), 2, 0, 0) == Some([]) && Decode(Pads(1), 3, 0, 0) == Some([])
  {
    var one := Pads(1);
    assert one == ['='] && Pads(2)[1..] == one;
    assert Decode(one, 2, 0, 1) == Some([]);
  }

  /** The groups of the encoding are independent of what follows the first three bytes. */
  lemma EncodeThree(a: Byte, b: Byte, c: Byte, rest: seq<Byte>)
    ensures Encode([a, b, c] + rest)
         == [CharOf(a / 4), CharOf(a % 4 * 16 + b / 16), CharOf(b % 16 * 4 + c / 64), CharOf(c % 64)] + Encode(rest)
  {
    var bytes := [a, b, c] + rest;
    assert bytes[3..] == rest;
    assert PadCount(bytes) == PadCount(rest);
  }

  lemma DecodeOne(a: Byte)
    ensures Decode(Encode([a]), 0, 0, 0) == Some([a])
  {
    var s1: Sextet, s2: Sextet := a / 4, a % 4 * 16;
    var r1 := [CharOf(s2)] + Pads(2);
    assert Encode([a]) == [CharOf(s1)] + r1;
    DecodeStep(CharOf(s1), s1, r1, 0, 0, 0);
    DecodeStep(CharOf(s2), s2, Pads(2), 1, s1, 0);
    DecodePads();
    assert s2 % 16 == 0 && s1 * 4 + s2 / 16 == a;
    assert Decode(Encode([a]), 0, 0, 0) == Prepend(a, Some([]));
    assert [a] + [] == [a];
  }

  lemma DecodeTwo(a: Byte, b: Byte)
    ensures Decode(Encode([a, b]), 0, 0, 0) == Some([a, b])
  {
    var s1: Sextet, s2: Sextet, s3: Sextet := a / 4, a % 4 * 16 + b / 16, b % 16 * 4;
    var r2 := [CharOf(s3)] + Pads(1);
    var r1 := [CharOf(s2)] + r2;
    assert Encode([a, b]) == [CharOf(s1)] + r1;
    DecodeStep(CharOf(s1), s1, r1, 0, 0, 0);
    DecodeStep(CharOf(s2), s2, r2, 1, s1, 0);
    DecodeStep(CharOf(s3), s3, Pads(1), 2, s2 % 16, 0);
    DecodePads();
    assert s3 % 4 == 0 && s1 * 4 + s2 / 16 == a && s2 % 16 * 16 + s3 / 4 == b;
    assert Decode(Encode([a, b]), 0, 0, 0) == Prepend(a, Prepend(b, Some([])));
    assert [a] + ([b] + []) == [a, b];
  }

  /** Decoding inverts encoding, for every byte string. */
  lemma {:induction false} DecodeEncode(bytes: seq<Byte>)
    ensures Decode(Encode(bytes), 0, 0, 0) == Some(bytes)
  {
    if bytes == [] {
      assert Encode(bytes) == [];
    } else if |bytes| == 1 {
      DecodeOne(bytes[0]);
      assert bytes == [bytes[0]];
    } else if |bytes| == 2 {
      DecodeTwo(bytes[0], bytes[1]);
      assert bytes == [bytes[0], bytes[1]];
    } else {
      var a, b, c, rest := bytes[0], bytes[1], bytes[2], bytes[3..];
      DecodeEncode(rest);
      assert bytes == [a, b, c] + rest;
      EncodeThree(a, b, c, rest);
      DecodeThree(a, b, c, Encode(rest));
      assert [a] + ([b] + ([c] + rest)) == bytes;
    }
  }

  lemma {:induction false} BodyHasNoPads(bytes: seq<Byte>)
    ensures forall i :: 0 <= i < |Body(bytes)| ==> Body(bytes)[i] != '='
  {
    if |bytes| >= 3 {
      BodyHasNoPads(bytes[3..]);
    }
  }

  lemma GroupLengths(chars: nat, bytes: nat)
    ensures (4 + chars) % 4 == chars % 4 && (3 + bytes) % 3 == bytes % 3
  {
  }

  lemma {:induction false} BodyLength(bytes: seq<Byte>)
    ensures (4 - |Body(bytes)| % 4) % 4 == PadCount(bytes)
  {
    if |bytes| >= 3 {
      BodyLength(bytes[3..]);
      GroupLengths(|Body(bytes[3..])|, |bytes[3..]|);
    }
  }

  lemma {:induction false} StripsPads(s: string, n: nat)
    requires s == [] || s[|s| - 1] != '='
    ensures StripPads(s + Pads(n)) == s
  {
    if n == 0 {
      assert s + Pads(0) == s;
    } else {
      PadsEnd(n);
      assert (s + Pads(n))[..|s + Pads(n)| - 1] == s + Pads(n - 1);
      StripsPads(s, n - 1);
    }
  }

  lemma {:induction false} PadsEnd(n: nat)
    requires n > 0
    ensures |Pads(n)| == n && Pads(n) == Pads(n - 1) + ['=']
  {
    if n > 1 {
      PadsEnd(n - 1);
    }
  }

  /** Dropping the padding loses nothing: it is recomputed from the length. */
  lemma RepadRestores(bytes: seq<Byte>)
    ensures Repad(StripPads(Encode(bytes))) == Encode(bytes)
  {
    BodyHasNoPads(bytes);
    BodyLength(bytes);
    StripsPads(Body(bytes), PadCount(bytes));
  }

  /** The test vectors of section 10 of RFC 4648 for "f", "fo" and "foo", and the alphabet's last characters. */
  lemma KnownEncodings()
    ensures Encode([0x66]) == "Zg==" && Encode([0x66, 0x6F]) == "Zm8=" && Encode([0x66, 0x6F, 0x6F]) == "Zm9v"
    ensures Encode([0xFB, 0xFF, 0xFE]) == "-__-"
  {
    assert Pads(0) == "" && Pads(1) == "=" && Pads(2) == "==";
    assert Body([0x66]) == "Zg" && Body([0x66, 0x6F]) == "Zm8";
    Whole(0x66, 0x6F, 0x6F);
    Whole(0xFB, 0xFF, 0xFE);
  }

  lemma Whole(a: Byte, b: Byte, c: Byte)
    ensures Encode([a, b, c])
         == [CharOf(a / 4), CharOf(a % 4 * 16 + b / 16), CharOf(b % 16 * 4 + c / 64), CharOf(c % 64)]
  {
    var bytes := [a, b, c];
    assert bytes[3..] == [] && Body([]) == [] && Pads(0) == [];
  }

  // ----- Row ids --------------------------------------------------------------------------------

  function Pow256(k: nat): (p: nat)
    ensures p > 0
  {
    if k == 0 then 1 else 256 * Pow256(k - 1)
  }

  const ID_BYTES := 16

  const ID_LIMIT := 0x1_0000_0000_0000_0000_0000_0000_0000_0000

  /** A row id is a 128-bit number, written most significant byte first. */
  type RowId = n: nat | n < ID_LIMIT witness 0

  lemma IdLimit()
    ensures Pow256(ID_BYTES) == ID_LIMIT
  {
    assert Pow256(4) == 0x1_0000_0000;
    assert Pow256(8) == 0x1_0000_0000_0000_0000;
    assert Pow256(12) == 0x1_0000_0000_0000_0000_0000_0000;
  }

  function Bytes(n: nat, k: nat): (r: seq<Byte>)
    ensures |r| == k
  {
    if k == 0 then [] else Bytes(n / 256, k - 1) + [n % 256]
  }

  function Number(bytes: seq<Byte>): nat {
    if bytes == [] then 0 else 256 * Number(bytes[..|bytes| - 1]) + bytes[|bytes| - 1]
  }

  lemma {:induction false} NumberOfBytes(n: nat, k: nat)
    requires n < Pow256(k)
    ensures Number(Bytes(n, k)) == n
  {
    if k == 0 {
    } else {
      NumberOfBytes(n / 256, k - 1);
      assert Bytes(n, k)[..k - 1] == Bytes(n / 256, k - 1);
    }
  }

  lemma {:induction false} NumberBound(bytes: seq<Byte>)
    ensures Number(bytes) < Pow256(|bytes|)
  {
    if bytes == [] {
    } else {
      NumberBound(bytes[..|bytes| - 1]);
    }
  }

  /** Comparing ids as numbers is comparing their bytes from the first on, as the database does. */
  lemma {:induction false} NumberOrder(a: seq<Byte>, b: seq<Byte>, i: nat)
    requires |a| == |b| && i < |a| && a[..i] == b[..i] && a[i] < b[i]
    ensures Number(a) < Number(b)
  {
    var n := |a| - 1;
    if i == n {
      assert a[..n] == b[..n];
    } else {
      assert a[..n][..i] == a[..i] && b[..n][..i] == b[..i];
      NumberOrder(a[..n], b[..n], i);
    }
  }

  /** `_encode_cursor`. */
  function EncodeCursor(id: RowId): string {
    StripPads(Encode(Bytes(id, ID_BYTES)))
  }

  /** `_decode_cursor`: malformed base64, or a wrong number of bytes, is an invalid cursor. */
  function DecodeCursor(cursor: string): Result<RowId, CursorError> {
    var bytes := Decode(Repad(cursor), 0, 0, 0);
    if bytes.None? || |bytes.value| != ID_BYTES then Err(InvalidCursor)
    else
      NumberBound(bytes.value);
      IdLimit();
      Ok(Number(bytes.value))
  }

  /** Every row id survives its cursor. */
  lemma CursorRoundTrip(id: RowId)
    ensures DecodeCursor(EncodeCursor(id)) == Ok(id)
  {
    var bytes := Bytes(id, ID_BYTES);
    RepadRestores(bytes);
    DecodeEncode(bytes);
    IdLimit();
    NumberOfBytes(id, ID_BYTES);
  }
}
