/**
  Standard base64 (section 4 of RFC 4648), with `=` padding.

  `btoa` over the string whose characters are the signature's octets, as the
  repository writes signatures, is exactly this encoding of those octets.
 */
module Base64 {
  import opened Wrappers
  import opened Bytes

  const Pad: char := '='

  /** The 64 letters of the alphabet: `A`-`Z`, `a`-`z`, `0`-`9`, `+` and `/`. */
  predicate IsDigit(ch: char)
  {
    || 'A' <= ch <= 'Z'
    || 'a' <= ch <= 'z'
    || '0' <= ch <= '9'
    || ch == '+'
    || ch == '/'
  }

  function Digit(v: nat): (ch: char)
    requires v < 64
    ensures IsDigit(ch)
  {
    if v < 26 then ('A' as int + v) as char
    else if v < 52 then ('a' as int + v - 26) as char
    else if v < 62 then ('0' as int + v - 52) as char
    else if v == 62 then '+'
    else '/'
  }

  /** The six-bit value of an alphabet letter; the inverse of `Digit`. */
  function Value(ch: char): (v: nat)
    requires IsDigit(ch)
    ensures v < 64 && Digit(v) == ch
  {
    if 'A' <= ch <= 'Z' then ch as int - 'A' as int
    else if 'a' <= ch <= 'z' then ch as int - 'a' as int + 26
    else if '0' <= ch <= '9' then ch as int - '0' as int + 52
    else if ch == '+' then 62
    else 63
  }

  /** Letters and padding: everything base64 text may hold. */
  predicate IsTextChar(ch: char)
  {
    IsDigit(ch) || ch == Pad
  }

  /** The four six-bit values of octets `x0`, `x1`, `x2`, most significant bits first. */
  function Sextet0(x0: Byte): (v: nat)
    ensures v < 64
  {
    x0 as int / 4
  }

  function Sextet1(x0: Byte, x1: Byte): (v: nat)
    ensures v < 64
  {
    x0 as int % 4 * 16 + x1 as int / 16
  }

  function Sextet2(x1: Byte, x2: Byte): (v: nat)
    ensures v < 64
  {
    x1 as int % 16 * 4 + x2 as int / 64
  }

  function Sextet3(x2: Byte): (v: nat)
    ensures v < 64
  {
    x2 as int % 64
  }

  /** The three octets of four six-bit values. */
  function Octet0(v0: nat, v1: nat): Byte
    requires v0 < 64 && v1 < 64
  {
    (v0 * 4 + v1 / 16) as Byte
  }

  function Octet1(v1: nat, v2: nat): Byte
    requires v1 < 64 && v2 < 64
  {
    (v1 % 16 * 16 + v2 / 4) as Byte
  }

  function Octet2(v2: nat, v3: nat): Byte
    requires v2 < 64 && v3 < 64
  {
    (v2 % 4 * 64 + v3) as Byte
  }

  lemma Octet0OfSextets(x0: Byte, x1: Byte)
    ensures Octet0(Sextet0(x0), Sextet1(x0, x1)) == x0
  {
  }

  lemma Octet1OfSextets(x0: Byte, x1: Byte, x2: Byte)
    ensures Octet1(Sextet1(x0, x1), Sextet2(x1, x2)) == x1
  {
    assert Sextet1(x0, x1) % 16 == x1 as int / 16;
    assert Sextet2(x1, x2) / 4 == x1 as int % 16;
  }

  lemma Octet2OfSextets(x1: Byte, x2: Byte)
    ensures Octet2(Sextet2(x1, x2), Sextet3(x2)) == x2
  {
    assert Sextet2(x1, x2) % 4 == x2 as int / 64;
  }

  /** The four letters of one full group of three octets. */
  function EncodeGroup(b0: Byte, b1: Byte, b2: Byte): (e: string)
    ensures |e| == 4
  {
    [Digit(Sextet0(b0)), Digit(Sextet1(b0, b1)), Digit(Sextet2(b1, b2)), Digit(Sextet3(b2))]
  }

  /** The padded group that ends an input whose length is not a multiple of three. */
  function EncodeTail(b: seq<Byte>): (e: string)
    requires 1 <= |b| <= 2
    ensures |e| == 4
  {
    if |b| == 1 then [Digit(Sextet0(b[0])), Digit(Sextet1(b[0], 0)), Pad, Pad]
    else [Digit(Sextet0(b[0])), Digit(Sextet1(b[0], b[1])), Digit(Sextet2(b[1], 0)), Pad]
  }

  function Encode(b: seq<Byte>): (e: string)
    ensures |e| == 4 * ((|b| + 2) / 3)
  {
    if |b| == 0 then ""
    else if |b| < 3 then EncodeTail(b)
    else EncodeGroup(b[0], b[1], b[2]) + Encode(b[3..])
  }

  /** The octets of one group of four characters, the last group of the text when `last` holds. */
  function DecodeGroup(e: string, last: bool): (r: Option<seq<Byte>>)
    requires |e| == 4
    ensures r.Some? ==> 1 <= |r.value| <= 3
    ensures r.Some? && !last ==> |r.value| == 3
  {
    if !(IsDigit(e[0]) && IsDigit(e[1])) then None
    else
      var v0, v1 := Value(e[0]), Value(e[1]);
      if last && e[2] == Pad && e[3] == Pad then Some([Octet0(v0, v1)])
      else if !IsDigit(e[2]) then None
      else
        var v2 := Value(e[2]);
        if last && e[3] == Pad then Some([Octet0(v0, v1), Octet1(v1, v2)])
        else if !IsDigit(e[3]) then None
        else Some([Octet0(v0, v1), Octet1(v1, v2), Octet2(v2, Value(e[3]))])
  }

  /** The octets whose base64 text is `e`; `None` for text that is not base64. */
  function Decode(e: string): (r: Option<seq<Byte>>)
    decreases |e|
  {
    if |e| == 0 then Some([])
    else if |e| < 4 then None
    else match DecodeGroup(e[..4], |e| == 4)
      case None => None
      case Some(head) =>
        match Decode(e[4..])
        case None => None
        case Some(rest) => Some(head + rest)
  }

  lemma DecodeEncodeGroup(b0: Byte, b1: Byte, b2: Byte, last: bool)
    ensures DecodeGroup(EncodeGroup(b0, b1, b2), last) == Some([b0, b1, b2])
  {
    var e := EncodeGroup(b0, b1, b2);
    assert Value(e[0]) == Sextet0(b0) && Value(e[1]) == Sextet1(b0, b1);
    assert Value(e[2]) == Sextet2(b1, b2) && Value(e[3]) == Sextet3(b2);
    Octet0OfSextets(b0, b1);
    Octet1OfSextets(b0, b1, b2);
    Octet2OfSextets(b1, b2);
  }

  lemma DecodeEncodeTail(b: seq<Byte>)
    requires 1 <= |b| <= 2
    ensures DecodeGroup(EncodeTail(b), true) == Some(b)
  {
    var e := EncodeTail(b);
    assert Value(e[0]) == Sextet0(b[0]);
    if |b| == 1 {
      assert Value(e[1]) == Sextet1(b[0], 0);
      Octet0OfSextets(b[0], 0);
      assert b == [b[0]];
    } else {
      assert Value(e[1]) == Sextet1(b[0], b[1]);
      assert Value(e[2]) == Sextet2(b[1], 0);
      assert e[2] != Pad;
      Octet0OfSextets(b[0], b[1]);
      Octet1OfSextets(b[0], b[1], 0);
      assert b == [b[0], b[1]];
    }
  }

  /** Decoding a text that starts with a whole group decodes that group, then the remainder. */
  lemma DecodeLeadingGroup(g: string, rest: string, head: seq<Byte>, tail: seq<Byte>)
    requires |g| == 4
    requires DecodeGroup(g, |rest| == 0) == Some(head)
    requires Decode(rest) == Some(tail)
    ensures Decode(g + rest) == Some(head + tail)
  {
    var e := g + rest;
    assert e[..4] == g && e[4..] == rest;
  }

  lemma DecodeEncodeShort(b: seq<Byte>)
    requires 1 <= |b| <= 2
    ensures Decode(Encode(b)) == Some(b)
  {
    var e := EncodeTail(b);
    assert Encode(b) == e + "";
    DecodeEncodeTail(b);
    DecodeLeadingGroup(e, "", b, []);
    assert b + [] == b;
  }

  /** Decoding undoes encoding, for every octet string including the empty one. */
  lemma {:induction false} DecodeEncode(b: seq<Byte>)
    ensures Decode(Encode(b)) == Some(b)
    decreases |b|
  {
    if |b| == 0 {
    } else if |b| < 3 {
      DecodeEncodeShort(b);
    } else {
      DecodeEncode(b[3..]);
      DecodeEncodeLong(b);
    }
  }

  lemma EncodeLeadingGroup(b: seq<Byte>)
    requires |b| >= 3
    ensures Encode(b) == EncodeGroup(b[0], b[1], b[2]) + Encode(b[3..])
  {
  }

  lemma SplitOffGroup(b: seq<Byte>)
    requires |b| >= 3
    ensures [b[0], b[1], b[2]] + b[3..] == b
  {
  }

  /** The step of the round trip: a whole leading group, then a remainder that already round-trips. */
  lemma DecodeEncodeLong(b: seq<Byte>)
    requires |b| >= 3
    requires Decode(Encode(b[3..])) == Some(b[3..])
    ensures Decode(Encode(b)) == Some(b)
  {
    var rest := b[3..];
    var head := [b[0], b[1], b[2]];
    var g, er := EncodeGroup(b[0], b[1], b[2]), Encode(rest);
    EncodeLeadingGroup(b);
    DecodeEncodeGroup(b[0], b[1], b[2], |er| == 0);
    DecodeLeadingGroup(g, er, head, rest);
    SplitOffGroup(b);
  }

  /** Base64 text holds only alphabet letters and padding. */
  lemma {:induction false} EncodeAlphabet(b: seq<Byte>)
    ensures forall k :: 0 <= k < |Encode(b)| ==> IsTextChar(Encode(b)[k])
    decreases |b|
  {
    if |b| >= 3 {
      EncodeAlphabet(b[3..]);
      var g := EncodeGroup(b[0], b[1], b[2]);
      assert forall k :: 0 <= k < 4 ==> IsDigit(g[k]);
      assert Encode(b) == g + Encode(b[3..]);
    } else if |b| > 0 {
      assert forall k :: 0 <= k < 4 ==> IsTextChar(EncodeTail(b)[k]);
    }
  }

  /** Base64 text never holds the `.` that separates the fields of a signed message. */
  lemma NoSeparator(b: seq<Byte>)
    ensures '.' !in Encode(b)
  {
    EncodeAlphabet(b);
  }
}
