/** Strict UTF-8, as Python's `bytes.decode("utf-8")` accepts it: exactly
    the well-formed byte sequences of Table 3-7 of The Unicode Standard
    (no overlong forms, no surrogates, nothing above U+10FFFF). */
module Utf8 {
  import opened Outcomes
  import opened Values

  predicate IsCont(b: byte)
  {
    0x80 <= b <= 0xBF
  }

  /** The scalar value at the head of `bs` and the number of bytes it
      occupies, or None when the head is not well formed. */
  function DecodeFirst(bs: seq<byte>): (r: Option<(char, nat)>)
    requires |bs| > 0
    ensures r.Some? ==> 1 <= r.value.1 <= 4 && r.value.1 <= |bs|
  {
    var b0 := bs[0] as int;
    if b0 <= 0x7F then
      Some((b0 as char, 1))
    else if 0xC2 <= b0 <= 0xDF then
      if |bs| >= 2 && IsCont(bs[1]) then
        Some((Scalar2(b0 - 0xC0, bs[1]) as char, 2))
      else None
    else if 0xE0 <= b0 <= 0xEF then
      var lo := if b0 == 0xE0 then 0xA0 else 0x80;
      var hi := if b0 == 0xED then 0x9F else 0xBF;
      if |bs| >= 3 && lo <= bs[1] <= hi && IsCont(bs[2]) then
        Some((Scalar3(b0 - 0xE0, bs[1], bs[2]) as char, 3))
      else None
    else if 0xF0 <= b0 <= 0xF4 then
      var lo := if b0 == 0xF0 then 0x90 else 0x80;
      var hi := if b0 == 0xF4 then 0x8F else 0xBF;
      if |bs| >= 4 && lo <= bs[1] <= hi && IsCont(bs[2]) && IsCont(bs[3]) then
        Some((Scalar4(b0 - 0xF0, bs[1], bs[2], bs[3]) as char, 4))
      else None
    else None
  }

  /** The six payload bits of a continuation byte. */
  function Bits(b: byte): int
  {
    b as int - 0x80
  }

  function Scalar2(lead: int, b1: byte): int
  {
    lead * 64 + Bits(b1)
  }

  function Scalar3(lead: int, b1: byte, b2: byte): int
  {
    Scalar2(lead * 64 + Bits(b1), b2)
  }

  function Scalar4(lead: int, b1: byte, b2: byte, b3: byte): int
  {
    Scalar3(lead * 64 + Bits(b1), b2, b3)
  }

  /** `bs.decode("utf-8")`, or None where Python raises `UnicodeDecodeError`. */
  function Decode(bs: seq<byte>): Option<string>
    decreases |bs|
  {
    if |bs| == 0 then Some([])
    else match DecodeFirst(bs)
      case None => None
      case Some((c, n)) =>
        match Decode(bs[n..])
        case None => None
        case Some(rest) => Some([c] + rest)
  }

  /** The shortest UTF-8 form of one scalar value. */
  function EncodeChar(c: char): (r: seq<byte>)
    ensures 1 <= |r| <= 4
  {
    var cp := c as int;
    var q1 := cp / 64;
    var q2 := q1 / 64;
    var q3 := q2 / 64;
    if cp < 0x80 then [cp]
    else if cp < 0x800 then [0xC0 + q1, 0x80 + cp % 64]
    else if cp < 0x10000 then [0xE0 + q2, 0x80 + q1 % 64, 0x80 + cp % 64]
    else [0xF0 + q3, 0x80 + q2 % 64, 0x80 + q1 % 64, 0x80 + cp % 64]
  }

  /** `s.encode("utf-8")`. */
  function Encode(s: string): seq<byte>
  {
    if |s| == 0 then [] else EncodeChar(s[0]) + Encode(s[1..])
  }

  lemma DecodeFirstOfEncodeChar(c: char, rest: seq<byte>)
    ensures DecodeFirst(EncodeChar(c) + rest) == Some((c, |EncodeChar(c)|))
  {
    var cp := c as int;
    var q1 := cp / 64;
    var q2 := q1 / 64;
    var q3 := q2 / 64;
    assert cp == 64 * q1 + cp % 64;
    assert q1 == 64 * q2 + q1 % 64;
    assert q2 == 64 * q3 + q2 % 64;
  }

  lemma DivMod64(x: int, y: int)
    requires 0 <= y < 64
    ensures (64 * x + y) / 64 == x && (64 * x + y) % 64 == y
  {
  }

  lemma EncodeCharOfDecodeFirst(bs: seq<byte>)
    requires |bs| > 0 && DecodeFirst(bs).Some?
    ensures EncodeChar(DecodeFirst(bs).value.0) == bs[..DecodeFirst(bs).value.1]
  {
    var b0 := bs[0] as int;
    var n := DecodeFirst(bs).value.1;
    var cp := DecodeFirst(bs).value.0 as int;
    if n == 2 {
      DivMod64(b0 - 0xC0, Bits(bs[1]));
    } else if n == 3 {
      var t := (b0 - 0xE0) * 64 + Bits(bs[1]);
      DivMod64(t, Bits(bs[2]));
      DivMod64(b0 - 0xE0, Bits(bs[1]));
    } else if n == 4 {
      var u := (b0 - 0xF0) * 64 + Bits(bs[1]);
      var t := u * 64 + Bits(bs[2]);
      DivMod64(t, Bits(bs[3]));
      DivMod64(u, Bits(bs[2]));
      DivMod64(b0 - 0xF0, Bits(bs[1]));
    }
  }

  /** Decoding undoes encoding. */
  lemma {:induction false} DecodeEncode(s: string)
    ensures Decode(Encode(s)) == Some(s)
  {
    if |s| > 0 {
      var e := EncodeChar(s[0]);
      DecodeFirstOfEncodeChar(s[0], Encode(s[1..]));
      assert (e + Encode(s[1..]))[|e|..] == Encode(s[1..]);
      DecodeEncode(s[1..]);
      assert [s[0]] + s[1..] == s;
    }
  }

  /** Encoding undoes decoding: a byte string that decodes is exactly the
      encoding of what it decodes to. */
  lemma {:induction false} EncodeDecode(bs: seq<byte>)
    requires Decode(bs).Some?
    ensures Encode(Decode(bs).value) == bs
    decreases |bs|
  {
    if |bs| > 0 {
      var p := DecodeFirst(bs).value;
      EncodeCharOfDecodeFirst(bs);
      EncodeDecode(bs[p.1..]);
      var s := Decode(bs).value;
      assert s[0] == p.0 && s[1..] == Decode(bs[p.1..]).value;
      assert bs[..p.1] + bs[p.1..] == bs;
    }
  }

  /** A byte string decodes to `s` exactly when it is the encoding of `s`. */
  lemma DecodeIffEncode(bs: seq<byte>, s: string)
    ensures Decode(bs) == Some(s) <==> Encode(s) == bs
  {
    if Decode(bs) == Some(s) {
      EncodeDecode(bs);
    }
    if Encode(s) == bs {
      DecodeEncode(s);
    }
  }
}
