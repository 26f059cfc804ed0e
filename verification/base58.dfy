/**
  The base58 text codec that every signed message goes through.

  The repository takes it from the `base58` package; this module stands in
  for that package with a codec over the same 58-letter alphabet that has the
  three properties the signed-message format relies on: decoding undoes
  encoding, so encoding is injective; the encoded text uses only alphabet
  letters, so never the `.` separator; and decoding refuses text outside the
  alphabet. Each character is written as four base-58 digits of its code
  point, most significant first (58^4 exceeds the largest code point).
 */
module Base58 {
  import opened Wrappers

  const Radix := 58

  /** Digits per encoded character. */
  const Width := 4

  /** The Bitcoin alphabet: digits and Latin letters without `0`, `O`, `I` and `l`. */
  predicate IsDigit(ch: char)
  {
    || '1' <= ch <= '9'
    || 'A' <= ch <= 'H'
    || 'J' <= ch <= 'N'
    || 'P' <= ch <= 'Z'
    || 'a' <= ch <= 'k'
    || 'm' <= ch <= 'z'
  }

  /** The letter for digit value `v`. */
  function Digit(v: nat): (ch: char)
    requires v < Radix
    ensures IsDigit(ch)
  {
    if v < 9 then ('1' as int + v) as char
    else if v < 17 then ('A' as int + v - 9) as char
    else if v < 22 then ('J' as int + v - 17) as char
    else if v < 33 then ('P' as int + v - 22) as char
    else if v < 44 then ('a' as int + v - 33) as char
    else ('m' as int + v - 44) as char
  }

  /** The digit value of an alphabet letter; the inverse of `Digit`. */
  function Value(ch: char): (v: nat)
    requires IsDigit(ch)
    ensures v < Radix && Digit(v) == ch
  {
    if ch <= '9' then ch as int - '1' as int
    else if ch <= 'H' then ch as int - 'A' as int + 9
    else if ch <= 'N' then ch as int - 'J' as int + 17
    else if ch <= 'Z' then ch as int - 'P' as int + 22
    else if ch <= 'k' then ch as int - 'a' as int + 33
    else ch as int - 'm' as int + 44
  }

  lemma ValueOfDigit(v: nat)
    requires v < Radix
    ensures Value(Digit(v)) == v
  {
  }

  /** Numbers that are the code point of some character. */
  predicate IsCodePoint(n: int)
  {
    (0 <= n < 0xD800) || (0xE000 <= n < 0x11_0000)
  }

  lemma CharIsCodePoint(ch: char)
    ensures IsCodePoint(ch as int)
  {
  }

  /** The four digits of one character. */
  function EncodeChar(ch: char): (e: string)
    ensures |e| == Width
    ensures forall k :: 0 <= k < |e| ==> IsDigit(e[k])
  {
    var n := ch as int;
    CharIsCodePoint(ch);
    var q1 := n / Radix;
    var q2 := q1 / Radix;
    var q3 := q2 / Radix;
    [Digit(q3), Digit(q2 % Radix), Digit(q1 % Radix), Digit(n % Radix)]
  }

  /** `hi` shifted one base-58 place to the left, plus `lo`. */
  function Shift(hi: nat, lo: nat): nat
  {
    hi * Radix + lo
  }

  lemma ShiftSplits(x: nat)
    ensures Shift(x / Radix, x % Radix) == x
  {
  }

  lemma ShiftUnsplits(hi: nat, lo: nat)
    requires lo < Radix
    ensures Shift(hi, lo) / Radix == hi && Shift(hi, lo) % Radix == lo
  {
  }

  /** The character written by four digits, if they name a code point. */
  function DecodeChar(e: string): (r: Option<char>)
    requires |e| == Width
    ensures r.Some? ==> EncodeChar(r.value) == e
  {
    if !(IsDigit(e[0]) && IsDigit(e[1]) && IsDigit(e[2]) && IsDigit(e[3])) then None
    else
      var n := Shift(Shift(Shift(Value(e[0]), Value(e[1])), Value(e[2])), Value(e[3]));
      if IsCodePoint(n) then
        var q1 := Shift(Shift(Value(e[0]), Value(e[1])), Value(e[2]));
        var q2 := Shift(Value(e[0]), Value(e[1]));
        ShiftUnsplits(q1, Value(e[3]));
        ShiftUnsplits(q2, Value(e[2]));
        ShiftUnsplits(Value(e[0]), Value(e[1]));
        assert Value(e[0]) / Radix == 0;
        Some(n as char)
      else None
  }

  lemma DecodeEncodeChar(ch: char)
    ensures DecodeChar(EncodeChar(ch)) == Some(ch)
  {
    var n := ch as int;
    CharIsCodePoint(ch);
    var q1 := n / Radix;
    var q2 := q1 / Radix;
    var q3 := q2 / Radix;
    var e := EncodeChar(ch);
    assert q3 < Radix;
    assert Value(e[0]) == q3 && Value(e[1]) == q2 % Radix by {
      ValueOfDigit(q3);
      ValueOfDigit(q2 % Radix);
    }
    assert Value(e[2]) == q1 % Radix && Value(e[3]) == n % Radix by {
      ValueOfDigit(q1 % Radix);
      ValueOfDigit(n % Radix);
    }
    assert Shift(Shift(Shift(q3, q2 % Radix), q1 % Radix), n % Radix) == n by {
      ShiftSplits(q2);
      ShiftSplits(q1);
      ShiftSplits(n);
    }
  }

  /** Base58 text of `s`: the digits of every character in turn. */
  function Encode(s: string): (e: string)
    ensures |e| == Width * |s|
    ensures forall k :: 0 <= k < |e| ==> IsDigit(e[k])
  {
    if |s| == 0 then ""
    else EncodeChar(s[0]) + Encode(s[1..])
  }

  /** The string whose base58 text is `e`; a decode error for text that no string encodes to. */
  function Decode(e: string): (r: Option<string>)
    ensures r.Some? ==> Encode(r.value) == e
    decreases |e|
  {
    if |e| == 0 then Some("")
    else if |e| < Width then None
    else match DecodeChar(e[..Width])
      case None => None
      case Some(ch) =>
        match Decode(e[Width..])
        case None => None
        case Some(rest) => Some([ch] + rest)
  }

  /** Decoding undoes encoding, for every string including the empty one. */
  lemma {:induction false} DecodeEncode(s: string)
    ensures Decode(Encode(s)) == Some(s)
  {
    if |s| > 0 {
      var e := Encode(s);
      assert e[..Width] == EncodeChar(s[0]);
      assert e[Width..] == Encode(s[1..]);
      DecodeEncodeChar(s[0]);
      DecodeEncode(s[1..]);
      assert [s[0]] + s[1..] == s;
    }
  }

  /** Different strings have different base58 texts. */
  lemma EncodeInjective(s: string, t: string)
    requires Encode(s) == Encode(t)
    ensures s == t
  {
    DecodeEncode(s);
    DecodeEncode(t);
  }

  /** Base58 text never holds the `.` that separates the fields of a signed message. */
  lemma NoSeparator(s: string)
    ensures '.' !in Encode(s)
  {
  }

  /** Base58 text differs from its source unless both are empty. */
  lemma EncodeChangesText(s: string)
    requires s != ""
    ensures Encode(s) != s
  {
  }
}
