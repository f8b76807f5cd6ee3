/** UTF-8: `str::as_bytes` (encoding) and `String::from_utf8` (strict
    validation and decoding), over Unicode scalar values. */
module Utf8 {
  import opened Wrappers
  import opened Primitives

  predicate IsContinuation(x: Byte) {
    0x80 <= x < 0xC0
  }

  /** The one to four bytes that encode `c`. */
  function EncodeChar(c: char): (b: seq<Byte>)
    ensures 1 <= |b| <= 4
    ensures (|b| == 1) <==> (c as int < 0x80)
  {
    var v := c as int;
    if v < 0x80 then [v]
    else if v < 0x800 then [0xC0 + v / 64, 0x80 + v % 64]
    else if v < 0x1_0000 then [0xE0 + v / 4096, 0x80 + v / 64 % 64, 0x80 + v % 64]
    else [0xF0 + v / 262144, 0x80 + v / 4096 % 64, 0x80 + v / 64 % 64, 0x80 + v % 64]
  }

  /** The bytes of a string, as `s.as_bytes()` exposes them. */
  function Encode(s: string): (b: seq<Byte>)
    ensures |b| >= |s|
  {
    if s == [] then [] else EncodeChar(s[0]) + Encode(s[1..])
  }

  /** Decodes the first scalar value of `b` with the well-formedness rules of
      Unicode's table 3-7 (no overlong forms, no surrogates, nothing above
      U+10FFFF); the result gives the character and how many bytes it took. */
  function DecodeFirst(b: seq<Byte>): (r: Option<(char, nat)>)
    requires |b| > 0
    ensures r.Some? ==> 1 <= r.value.1 <= |b| && r.value.1 <= 4
  {
    var b0: int := b[0];
    if b0 < 0x80 then Some((b0 as char, 1))
    else if 0xC2 <= b0 < 0xE0 then
      if |b| >= 2 && IsContinuation(b[1])
      then Some((((b0 - 0xC0) * 64 + (b[1] as int - 0x80)) as char, 2))
      else None
    else if 0xE0 <= b0 < 0xF0 then
      var lo := if b0 == 0xE0 then 0xA0 else 0x80;
      var hi := if b0 == 0xED then 0xA0 else 0xC0;
      if |b| >= 3 && lo <= b[1] < hi && IsContinuation(b[2])
      then Some((((b0 - 0xE0) * 4096 + (b[1] as int - 0x80) * 64 + (b[2] as int - 0x80)) as char, 3))
      else None
    else if 0xF0 <= b0 < 0xF5 then
      var lo := if b0 == 0xF0 then 0x90 else 0x80;
      var hi := if b0 == 0xF4 then 0x90 else 0xC0;
      if |b| >= 4 && lo <= b[1] < hi && IsContinuation(b[2]) && IsContinuation(b[3])
      then Some((((b0 - 0xF0) * 262144 + (b[1] as int - 0x80) * 4096 + (b[2] as int - 0x80) * 64 + (b[3] as int - 0x80)) as char, 4))
      else None
    else None
  }

  /** `String::from_utf8`: the text when `b` is well-formed UTF-8, else `None`. */
  function Decode(b: seq<Byte>): Option<string>
    decreases |b|
  {
    if b == [] then Some([])
    else match DecodeFirst(b)
      case None => None
      case Some((c, n)) =>
        match Decode(b[n..])
        case None => None
        case Some(rest) => Some([c] + rest)
  }

  /** Base-64 digits of a number below 2^21, as the encoder splits it. */
  lemma SplitSixBits(v: int)
    requires 0 <= v
    ensures v == (v / 64) * 64 + v % 64
    ensures v / 64 == (v / 4096) * 64 + v / 64 % 64
    ensures v / 4096 == (v / 262144) * 64 + v / 4096 % 64
  {
  }

  /** The first character of an encoding decodes from its own bytes. */
  lemma DecodeFirstOfEncodeChar(c: char, rest: seq<Byte>)
    ensures DecodeFirst(EncodeChar(c) + rest) == Some((c, |EncodeChar(c)|))
  {
    var v := c as int;
    if v < 0x80 {
    } else if v < 0x800 {
      DecodeFirstOfTwo(c, rest);
    } else if v < 0x1_0000 {
      DecodeFirstOfThree(c, rest);
    } else {
      DecodeFirstOfFour(c, rest);
    }
  }

  lemma DecodeFirstOfTwo(c: char, rest: seq<Byte>)
    requires 0x80 <= c as int < 0x800
    ensures DecodeFirst(EncodeChar(c) + rest) == Some((c, 2))
  {
    var v := c as int;
    var b := EncodeChar(c) + rest;
    SplitSixBits(v);
    var x0, x1: int := v / 64, v % 64;
    assert b[0] as int == 0xC0 + x0 && b[1] as int == 0x80 + x1;
    assert x0 * 64 + x1 == v;
  }

  lemma DecodeFirstOfThree(c: char, rest: seq<Byte>)
    requires 0x800 <= c as int < 0x1_0000
    ensures DecodeFirst(EncodeChar(c) + rest) == Some((c, 3))
  {
    var v := c as int;
    var b := EncodeChar(c) + rest;
    SplitSixBits(v);
    var x0, x1, x2: int := v / 4096, v / 64 % 64, v % 64;
    assert b[0] as int == 0xE0 + x0 && b[1] as int == 0x80 + x1 && b[2] as int == 0x80 + x2;
    assert x0 * 4096 + x1 * 64 + x2 == v;
  }

  lemma DecodeFirstOfFour(c: char, rest: seq<Byte>)
    requires 0x1_0000 <= c as int
    ensures DecodeFirst(EncodeChar(c) + rest) == Some((c, 4))
  {
    var v := c as int;
    var b := EncodeChar(c) + rest;
    SplitSixBits(v);
    var x0, x1, x2, x3: int := v / 262144, v / 4096 % 64, v / 64 % 64, v % 64;
    assert b[0] as int == 0xF0 + x0 && b[1] as int == 0x80 + x1;
    assert b[2] as int == 0x80 + x2 && b[3] as int == 0x80 + x3;
    assert x0 * 262144 + x1 * 4096 + x2 * 64 + x3 == v;
  }

  /** Round trip: the bytes of any string are valid UTF-8 and decode back to it. */
  lemma {:induction false} DecodeEncode(s: string)
    ensures Decode(Encode(s)) == Some(s)
  {
    if s != [] {
      var b := Encode(s);
      DecodeFirstOfEncodeChar(s[0], Encode(s[1..]));
      assert b[|EncodeChar(s[0])|..] == Encode(s[1..]);
      DecodeEncode(s[1..]);
      assert [s[0]] + s[1..] == s;
    }
  }

  /** Taking a number apart in base 64 and putting it back loses nothing. */
  lemma DivMod64(q: int, r: int)
    requires q >= 0 && 0 <= r < 64
    ensures (q * 64 + r) / 64 == q && (q * 64 + r) % 64 == r
  {
  }

  lemma DivDiv(v: int)
    requires v >= 0
    ensures v / 4096 == v / 64 / 64 && v / 262144 == v / 4096 / 64
  {
  }

  lemma EncodeCharOfDecodeFirst(b: seq<Byte>)
    requires |b| > 0 && DecodeFirst(b).Some?
    ensures EncodeChar(DecodeFirst(b).value.0) == b[..DecodeFirst(b).value.1]
  {
    var c := DecodeFirst(b).value.0;
    var v := c as int;
    var b0: int := b[0];
    if b0 < 0x80 {
      assert b[..1] == [b[0]];
    } else if b0 < 0xE0 {
      var x0, x1: int := b0 - 0xC0, b[1] as int - 0x80;
      assert v == x0 * 64 + x1;
      DivMod64(x0, x1);
      assert b[..2] == [b[0], b[1]];
    } else if b0 < 0xF0 {
      EncodeCharOfThree(b);
    } else {
      EncodeCharOfFour(b);
    }
  }

  lemma EncodeCharOfThree(b: seq<Byte>)
    requires |b| > 0 && DecodeFirst(b).Some? && 0xE0 <= b[0] < 0xF0
    ensures EncodeChar(DecodeFirst(b).value.0) == b[..3]
  {
    var v := DecodeFirst(b).value.0 as int;
    var x0, x1, x2: int := b[0] as int - 0xE0, b[1] as int - 0x80, b[2] as int - 0x80;
    assert v == (x0 * 64 + x1) * 64 + x2;
    DivDiv(v);
    DivMod64(x0 * 64 + x1, x2);
    DivMod64(x0, x1);
    assert b[..3] == [b[0], b[1], b[2]];
  }

  lemma EncodeCharOfFour(b: seq<Byte>)
    requires |b| > 0 && DecodeFirst(b).Some? && 0xF0 <= b[0]
    ensures EncodeChar(DecodeFirst(b).value.0) == b[..4]
  {
    var v := DecodeFirst(b).value.0 as int;
    var x0, x1, x2, x3: int := b[0] as int - 0xF0, b[1] as int - 0x80, b[2] as int - 0x80, b[3] as int - 0x80;
    assert v == ((x0 * 64 + x1) * 64 + x2) * 64 + x3;
    DivDiv(v);
    DivMod64((x0 * 64 + x1) * 64 + x2, x3);
    DivMod64(x0 * 64 + x1, x2);
    DivMod64(x0, x1);
    assert b[..4] == [b[0], b[1], b[2], b[3]];
  }

  /** The other direction: whatever `from_utf8` accepts is exactly the byte
      encoding of the text it returns, so the decoded text loses nothing. */
  lemma {:induction false} EncodeDecode(b: seq<Byte>)
    requires Decode(b).Some?
    ensures Encode(Decode(b).value) == b
    decreases |b|
  {
    if b != [] {
      var n := DecodeFirst(b).value.1;
      EncodeCharOfDecodeFirst(b);
      EncodeDecode(b[n..]);
      var s := Decode(b).value;
      assert s[1..] == Decode(b[n..]).value;
      assert b == b[..n] + b[n..];
    }
  }
}
