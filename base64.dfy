/** Base 64 with the standard alphabet and `=` padding (section 4 of
    RFC 4648), as `base64::encode` writes it, and a canonical decoder. */
module Base64 {
  import opened Wrappers
  import opened Primitives

  type Sextet = x: int | 0 <= x < 64

  /** Table 1 of RFC 4648: the character for each 6-bit value. */
  function Symbol(i: Sextet): (c: char)
    ensures c != '='
  {
    if i < 26 then (('A' as int) + i) as char
    else if i < 52 then (('a' as int) + i - 26) as char
    else if i < 62 then (('0' as int) + i - 52) as char
    else if i == 62 then '+'
    else '/'
  }

  /** The 6-bit value a character of the alphabet stands for. */
  function Index(c: char): Option<Sextet> {
    if 'A' <= c <= 'Z' then Some((c as int) - ('A' as int))
    else if 'a' <= c <= 'z' then Some((c as int) - ('a' as int) + 26)
    else if '0' <= c <= '9' then Some((c as int) - ('0' as int) + 52)
    else if c == '+' then Some(62)
    else if c == '/' then Some(63)
    else None
  }

  predicate IsAlphabet(c: char) {
    Index(c).Some?
  }

  lemma IndexOfSymbol(i: Sextet)
    ensures Index(Symbol(i)) == Some(i)
  {
  }

  lemma SymbolOfIndex(c: char)
    requires IsAlphabet(c)
    ensures Symbol(Index(c).value) == c
  {
  }

  /** The encoding of `b`: every three bytes become four characters; a final
      one or two bytes become two or three characters padded with `=`. */
  function Encode(b: seq<Byte>): (s: string)
    decreases |b|
  {
    if |b| == 0 then []
    else if |b| == 1 then [Symbol(b[0] / 4), Symbol(b[0] % 4 * 16), '=', '=']
    else if |b| == 2 then [Symbol(b[0] / 4), Symbol(b[0] % 4 * 16 + b[1] / 16), Symbol(b[1] % 16 * 4), '=']
    else [Symbol(b[0] / 4), Symbol(b[0] % 4 * 16 + b[1] / 16), Symbol(b[1] % 16 * 4 + b[2] / 64), Symbol(b[2] % 64)]
         + Encode(b[3..])
  }

  /** Decodes one group of four characters. Padding may only end the text,
      and the bits the padding drops must be zero (section 3.5 of RFC 4648),
      so every accepted text is the encoding of exactly one byte string. */
  function DecodeGroup(s: string): Option<seq<Byte>>
    requires |s| == 4
  {
    if !IsAlphabet(s[0]) || !IsAlphabet(s[1]) then None
    else
      var a: int, b: int := Index(s[0]).value, Index(s[1]).value;
      if s[2] == '=' && s[3] == '=' then
        if b % 16 == 0 then Some([a * 4 + b / 16]) else None
      else if !IsAlphabet(s[2]) then None
      else
        var c: int := Index(s[2]).value;
        if s[3] == '=' then
          if c % 4 == 0 then Some([a * 4 + b / 16, b % 16 * 16 + c / 4]) else None
        else if !IsAlphabet(s[3]) then None
        else
          var d: int := Index(s[3]).value;
          Some([a * 4 + b / 16, b % 16 * 16 + c / 4, c % 4 * 64 + d])
  }

  /** Regrouping 8-bit values into 6-bit values and back loses nothing. */
  lemma Regroup(x0: Byte, x1: Byte, x2: Byte)
    ensures var b := x0 % 4 * 16 + x1 / 16; x0 / 4 * 4 + b / 16 == x0 && b % 16 == x1 / 16
    ensures var c := x1 % 16 * 4 + x2 / 64; x1 / 16 * 16 + c / 4 == x1 && c % 4 == x2 / 64
    ensures x2 / 64 * 64 + x2 % 64 == x2
  {
    var b := x0 % 4 * 16 + x1 / 16;
    assert b / 16 == x0 % 4 && b % 16 == x1 / 16;
    var c := x1 % 16 * 4 + x2 / 64;
    assert c / 4 == x1 % 16 && c % 4 == x2 / 64;
  }

  /** Splitting 6-bit values into 8-bit values and back loses nothing. */
  lemma Split(a: Sextet, b: Sextet, c: Sextet, d: Sextet)
    ensures var x0 := a * 4 + b / 16; x0 / 4 == a && x0 % 4 == b / 16
    ensures var x1 := b % 16 * 16 + c / 4; x1 / 16 == b % 16 && x1 % 16 == c / 4
    ensures var x2 := c % 4 * 64 + d; x2 / 64 == c % 4 && x2 % 64 == d
    ensures b / 16 * 16 + b % 16 == b && c / 4 * 4 + c % 4 == c
  {
  }

  /** The inverse of `Encode`. */
  function Decode(s: string): Option<seq<Byte>>
    decreases |s|
  {
    if s == [] then Some([])
    else if |s| < 4 then None
    else match DecodeGroup(s[..4])
      case None => None
      case Some(group) =>
        if |group| < 3 then (if |s| == 4 then Some(group) else None)
        else match Decode(s[4..])
          case None => None
          case Some(rest) => Some(group + rest)
  }

  /** Length and alphabet of the encoding: four characters per started group
      of three bytes, all from the alphabet except the trailing padding. */
  lemma {:induction false} EncodeShape(b: seq<Byte>)
    ensures |Encode(b)| == 4 * ((|b| + 2) / 3)
    ensures forall i :: 0 <= i < |Encode(b)| ==> IsAlphabet(Encode(b)[i]) || Encode(b)[i] == '='
    decreases |b|
  {
    if |b| > 0 {
      FirstGroupShape(b);
    }
    if |b| >= 3 {
      var e, rest := Encode(b), Encode(b[3..]);
      EncodeShape(b[3..]);
      assert e == e[..4] + rest;
      assert (|b| + 2) / 3 == (|b[3..]| + 2) / 3 + 1;
      forall i | 4 <= i < |e| ensures IsAlphabet(e[i]) || e[i] == '=' {
        assert e[i] == rest[i - 4];
      }
    }
  }

  /** The first four characters of an encoding are symbols or padding. */
  lemma FirstGroupShape(b: seq<Byte>)
    requires |b| > 0
    ensures |Encode(b)| >= 4
    ensures forall i :: 0 <= i < 4 ==> IsAlphabet(Encode(b)[i]) || Encode(b)[i] == '='
  {
    var e := Encode(b);
    IndexOfSymbol(b[0] / 4);
    if |b| == 1 {
      IndexOfSymbol(b[0] % 4 * 16);
      assert e == [Symbol(b[0] / 4), Symbol(b[0] % 4 * 16), '=', '='];
    } else if |b| == 2 {
      IndexOfSymbol(b[0] % 4 * 16 + b[1] / 16);
      IndexOfSymbol(b[1] % 16 * 4);
      assert e == [Symbol(b[0] / 4), Symbol(b[0] % 4 * 16 + b[1] / 16), Symbol(b[1] % 16 * 4), '='];
    } else {
      IndexOfSymbol(b[0] % 4 * 16 + b[1] / 16);
      IndexOfSymbol(b[1] % 16 * 4 + b[2] / 64);
      IndexOfSymbol(b[2] % 64);
      assert e[..4] == [Symbol(b[0] / 4), Symbol(b[0] % 4 * 16 + b[1] / 16), Symbol(b[1] % 16 * 4 + b[2] / 64), Symbol(b[2] % 64)];
      assert forall i :: 0 <= i < 4 ==> e[i] == e[..4][i];
    }
  }

  lemma DecodeGroupOfEncode(b: seq<Byte>)
    requires |b| > 0
    ensures |Encode(b)| >= 4
    ensures DecodeGroup(Encode(b)[..4]) == Some(b[..if |b| < 3 then |b| else 3])
  {
    var g := b[..if |b| < 3 then |b| else 3];
    if |b| == 1 {
      assert g == b == [b[0]];
      DecodeGroupOfOne(b[0]);
      assert Encode(b)[..4] == Encode(g);
    } else if |b| == 2 {
      assert g == b == [b[0], b[1]];
      DecodeGroupOfTwo(b[0], b[1]);
      assert Encode(b)[..4] == Encode(g);
    } else {
      assert g == [b[0], b[1], b[2]];
      DecodeGroupOfThree(b[0], b[1], b[2]);
      EncodeFirstGroup(b);
    }
  }

  /** The first four characters of the encoding of three or more bytes are
      the encoding of the first three. */
  lemma EncodeFirstGroup(b: seq<Byte>)
    requires |b| >= 3
    ensures |Encode(b)| >= 4 && Encode(b)[..4] == Encode([b[0], b[1], b[2]])
  {
    assert [b[0], b[1], b[2]][3..] == [];
  }

  lemma DecodeGroupOfOne(x0: Byte)
    ensures |Encode([x0])| == 4 && DecodeGroup(Encode([x0])) == Some([x0])
  {
    var s := Encode([x0]);
    Regroup(x0, 0, 0);
    IndexOfSymbol(x0 / 4);
    IndexOfSymbol(x0 % 4 * 16);
    assert s == [Symbol(x0 / 4), Symbol(x0 % 4 * 16), '=', '='];
  }

  lemma DecodeGroupOfTwo(x0: Byte, x1: Byte)
    ensures |Encode([x0, x1])| == 4 && DecodeGroup(Encode([x0, x1])) == Some([x0, x1])
  {
    var s := Encode([x0, x1]);
    Regroup(x0, x1, 0);
    IndexOfSymbol(x0 / 4);
    IndexOfSymbol(x0 % 4 * 16 + x1 / 16);
    IndexOfSymbol(x1 % 16 * 4);
    assert s == [Symbol(x0 / 4), Symbol(x0 % 4 * 16 + x1 / 16), Symbol(x1 % 16 * 4), '='];
    assert s[2] != '=';
  }

  lemma DecodeGroupOfThree(x0: Byte, x1: Byte, x2: Byte)
    ensures |Encode([x0, x1, x2])| == 4 && DecodeGroup(Encode([x0, x1, x2])) == Some([x0, x1, x2])
  {
    var s := Encode([x0, x1, x2]);
    Regroup(x0, x1, x2);
    IndexOfSymbol(x0 / 4);
    IndexOfSymbol(x0 % 4 * 16 + x1 / 16);
    IndexOfSymbol(x1 % 16 * 4 + x2 / 64);
    IndexOfSymbol(x2 % 64);
    assert [x0, x1, x2][3..] == [] && Encode([x0, x1, x2][3..]) == [];
    assert s == [Symbol(x0 / 4), Symbol(x0 % 4 * 16 + x1 / 16), Symbol(x1 % 16 * 4 + x2 / 64), Symbol(x2 % 64)];
    assert s[2] != '=' && s[3] != '=';
  }

  /** Round trip: decoding the encoding of any byte string gives it back. */
  lemma {:induction false} DecodeEncode(b: seq<Byte>)
    ensures Decode(Encode(b)) == Some(b)
    decreases |b|
  {
    if |b| > 0 {
      DecodeGroupOfEncode(b);
      if |b| < 3 {
        assert Encode(b)[..4] == Encode(b) && b[..|b|] == b;
      } else {
        assert Encode(b)[4..] == Encode(b[3..]);
        DecodeEncode(b[3..]);
        assert b == b[..3] + b[3..];
      }
    }
  }

  lemma EncodeOfDecodeGroup(s: string)
    requires |s| == 4 && DecodeGroup(s).Some?
    ensures |DecodeGroup(s).value| < 3 ==> Encode(DecodeGroup(s).value) == s
    ensures |DecodeGroup(s).value| == 3 ==> Encode(DecodeGroup(s).value)[..4] == s
  {
    if s[2] == '=' && s[3] == '=' {
      EncodeOfPaddedTwice(s);
    } else if s[3] == '=' {
      EncodeOfPaddedOnce(s);
    } else {
      EncodeOfFullGroup(s);
    }
  }

  lemma EncodeOfPaddedTwice(s: string)
    requires |s| == 4 && DecodeGroup(s).Some? && s[2] == '=' && s[3] == '='
    ensures |DecodeGroup(s).value| == 1 && Encode(DecodeGroup(s).value) == s
  {
    var a, b := Index(s[0]).value, Index(s[1]).value;
    Split(a, b, 0, 0);
    SymbolOfIndex(s[0]);
    SymbolOfIndex(s[1]);
  }

  lemma EncodeOfPaddedOnce(s: string)
    requires |s| == 4 && DecodeGroup(s).Some? && s[2] != '=' && s[3] == '='
    ensures |DecodeGroup(s).value| == 2 && Encode(DecodeGroup(s).value) == s
  {
    var a, b, c := Index(s[0]).value, Index(s[1]).value, Index(s[2]).value;
    Split(a, b, c, 0);
    SymbolOfIndex(s[0]);
    SymbolOfIndex(s[1]);
    SymbolOfIndex(s[2]);
  }

  lemma EncodeOfFullGroup(s: string)
    requires |s| == 4 && DecodeGroup(s).Some? && s[2] != '=' && s[3] != '='
    ensures |DecodeGroup(s).value| == 3 && Encode(DecodeGroup(s).value)[..4] == s
  {
    var a: int, b: int, c: int, d: int := Index(s[0]).value, Index(s[1]).value, Index(s[2]).value, Index(s[3]).value;
    Split(a, b, c, d);
    assert a * 4 <= 252 && b % 16 * 16 <= 240 && c % 4 * 64 <= 192;
    var x0: Byte, x1: Byte, x2: Byte := a * 4 + b / 16, b % 16 * 16 + c / 4, c % 4 * 64 + d;
    assert DecodeGroup(s).value == [x0, x1, x2];
    assert x0 % 4 * 16 + x1 / 16 == b && x1 % 16 * 4 + x2 / 64 == c;
    var e := Encode([x0, x1, x2]);
    assert e[..4] == [Symbol(a), Symbol(b), Symbol(c), Symbol(d)];
    SymbolOfIndex(s[0]);
    SymbolOfIndex(s[1]);
    SymbolOfIndex(s[2]);
    SymbolOfIndex(s[3]);
  }

  /** The other direction: every text the decoder accepts is the encoding of
      what it decodes to, so the decoder accepts canonical encodings only. */
  lemma {:induction false} EncodeDecode(s: string)
    requires Decode(s).Some?
    ensures Encode(Decode(s).value) == s
    decreases |s|
  {
    if s != [] {
      var group := DecodeGroup(s[..4]).value;
      EncodeOfDecodeGroup(s[..4]);
      if |group| == 3 {
        EncodeDecode(s[4..]);
        var bytes := Decode(s).value;
        assert bytes[..3] == group && bytes[3..] == Decode(s[4..]).value;
        assert s == s[..4] + s[4..];
      }
    }
  }
}
