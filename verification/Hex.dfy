/** Lowercase base16 (section 8 of RFC 4648) as `generateToken` produces it:
    every byte rendered with `toString(16)` and left-padded to two
    characters with `padStart(2, "0")`, the pieces joined without a
    separator. */
module Hex {
  import opened Base

  /** A lowercase hex digit. */
  predicate IsHexDigit(c: char) {
    '0' <= c <= '9' || 'a' <= c <= 'f'
  }

  /** The lowercase digit of a value below 16. */
  function Digit(v: nat): (c: char)
    requires v < 16
    ensures IsHexDigit(c)
  {
    if v < 10 then ('0' as int + v) as char else ('a' as int + v - 10) as char
  }

  function DigitValue(c: char): (v: nat)
    requires IsHexDigit(c)
    ensures v < 16 && Digit(v) == c
  {
    if '0' <= c <= '9' then (c - '0') as nat else (c - 'a') as nat + 10
  }

  lemma DigitRoundTrip(v: nat)
    requires v < 16
    ensures DigitValue(Digit(v)) == v
  {
  }

  /** `byte.toString(16)`: one digit below 16, two digits otherwise, no
      leading zero. */
  function Radix16(b: byte): (s: string)
    ensures 1 <= |s| <= 2 && (|s| == 1 <==> b < 16)
    ensures forall i :: 0 <= i < |s| ==> IsHexDigit(s[i])
    ensures |s| == 2 ==> s[0] != '0'
    ensures |s| == 1 ==> DigitValue(s[0]) == b as nat
    ensures |s| == 2 ==> DigitValue(s[0]) * 16 + DigitValue(s[1]) == b as nat
  {
    var v := b as nat;
    DigitRoundTrip(v % 16);
    if v < 16 then [Digit(v)]
    else
      DigitRoundTrip(v / 16);
      [Digit(v / 16), Digit(v % 16)]
  }

  /** `s.padStart(2, "0")` */
  function PadStart2(s: string): (r: string)
    ensures |s| >= 2 ==> r == s
    ensures |s| < 2 ==> |r| == 2 && r[2 - |s|..] == s && forall i :: 0 <= i < 2 - |s| ==> r[i] == '0'
  {
    if |s| >= 2 then s else seq(2 - |s|, _ => '0') + s
  }

  /** The two characters one byte contributes to a token. */
  function EncodeByte(b: byte): (s: string)
    ensures s == [Digit(b as nat / 16), Digit(b as nat % 16)]
  {
    PadStart2(Radix16(b))
  }

  /** `Array.from(bytes, b => b.toString(16).padStart(2, "0")).join("")` */
  function Encode(bytes: seq<byte>): (s: string)
    ensures |s| == 2 * |bytes|
    ensures forall i :: 0 <= i < |s| ==> IsHexDigit(s[i])
  {
    if bytes == [] then "" else EncodeByte(bytes[0]) + Encode(bytes[1..])
  }

  /** The inverse of `Encode`: `None` for an odd length or a character that
      is not a lowercase hex digit. */
  function Decode(s: string): (r: Option<seq<byte>>)
    ensures r.Some? ==> |s| == 2 * |r.value|
  {
    if s == [] then Some([])
    else if |s| < 2 || !IsHexDigit(s[0]) || !IsHexDigit(s[1]) then None
    else match Decode(s[2..])
      case None => None
      case Some(rest) => Some([(DigitValue(s[0]) * 16 + DigitValue(s[1])) as byte] + rest)
  }

  /** Two hex digits recombine into the byte they were split from. */
  lemma SplitCombine(b: nat)
    requires b < 256
    ensures b / 16 < 16 && (b / 16) * 16 + b % 16 == b
  {
  }

  lemma CombineSplit(hi: nat, lo: nat)
    requires hi < 16 && lo < 16
    ensures hi * 16 + lo < 256 && (hi * 16 + lo) / 16 == hi && (hi * 16 + lo) % 16 == lo
  {
  }

  /** Decoding a string that starts with two hex digits. */
  lemma DecodeCons(s: string)
    requires |s| >= 2 && IsHexDigit(s[0]) && IsHexDigit(s[1])
    ensures Decode(s) ==
      match Decode(s[2..])
      case None => None
      case Some(rest) => Some([(DigitValue(s[0]) * 16 + DigitValue(s[1])) as byte] + rest)
  {
  }

  /** Decoding undoes the encoding of one leading byte. */
  lemma DecodeByte(b: byte, t: string)
    requires Decode(t).Some?
    ensures Decode(EncodeByte(b) + t) == Some([b] + Decode(t).value)
  {
    var s := EncodeByte(b) + t;
    assert s[2..] == t;
    var v := b as nat;
    DigitRoundTrip(v / 16);
    DigitRoundTrip(v % 16);
    SplitCombine(v);
    DecodeCons(s);
  }

  lemma {:induction false} DecodeEncode(bytes: seq<byte>)
    ensures Decode(Encode(bytes)) == Some(bytes)
  {
    if bytes != [] {
      DecodeEncode(bytes[1..]);
      DecodeByte(bytes[0], Encode(bytes[1..]));
      assert [bytes[0]] + bytes[1..] == bytes;
    }
  }

  /** Encoding the byte two digits combine into gives those digits back. */
  lemma EncodeCombined(c0: char, c1: char)
    requires IsHexDigit(c0) && IsHexDigit(c1)
    ensures DigitValue(c0) * 16 + DigitValue(c1) < 256
    ensures EncodeByte((DigitValue(c0) * 16 + DigitValue(c1)) as byte) == [c0, c1]
  {
    CombineSplit(DigitValue(c0), DigitValue(c1));
  }

  /** Encoding one leading byte and the rest. */
  lemma EncodeCons(b: byte, rest: seq<byte>)
    ensures Encode([b] + rest) == EncodeByte(b) + Encode(rest)
  {
    assert ([b] + rest)[1..] == rest;
  }

  lemma {:induction false} EncodeDecode(s: string)
    requires Decode(s).Some?
    ensures Encode(Decode(s).value) == s
  {
    if s != [] {
      assert |s| >= 2 && IsHexDigit(s[0]) && IsHexDigit(s[1]) && Decode(s[2..]).Some?;
      EncodeCombined(s[0], s[1]);
      DecodeCons(s);
      var rest := Decode(s[2..]).value;
      var b := (DigitValue(s[0]) * 16 + DigitValue(s[1])) as byte;
      assert Decode(s).value == [b] + rest;
      EncodeDecode(s[2..]);
      EncodeCons(b, rest);
      assert s == [s[0], s[1]] + s[2..];
    }
  }

  /** Distinct byte strings give distinct tokens. */
  lemma EncodeInjective(a: seq<byte>, b: seq<byte>)
    requires Encode(a) == Encode(b)
    ensures a == b
  {
    DecodeEncode(a);
    DecodeEncode(b);
  }
}
