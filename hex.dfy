/** Lower-case hexadecimal, as `ToHex::encode_hex` of the `hex` crate
    writes a byte buffer, and its inverse. */
module Hex {
  import opened Wrappers
  import opened Primitives

  type Nibble = x: int | 0 <= x < 16

  const LowerDigits: string := "0123456789abcdef"

  predicate IsLowerHexDigit(c: char) {
    '0' <= c <= '9' || 'a' <= c <= 'f'
  }

  function NibbleValue(c: char): (n: Nibble)
    requires IsLowerHexDigit(c)
    ensures LowerDigits[n] == c
  {
    if c <= '9' then (c as int) - ('0' as int) else (c as int) - ('a' as int) + 10
  }

  /** Two digits per byte, high nibble first, no separators. */
  function Lower(b: seq<Byte>): (s: string)
    ensures |s| == 2 * |b|
    ensures forall i :: 0 <= i < |s| ==> IsLowerHexDigit(s[i])
  {
    if b == [] then [] else [LowerDigits[b[0] / 16], LowerDigits[b[0] % 16]] + Lower(b[1..])
  }

  /** The bytes a lower-case hex text stands for; `None` for odd length or any
      other character. */
  function Decode(s: string): Option<seq<Byte>>
    decreases |s|
  {
    if s == [] then Some([])
    else if |s| < 2 || !IsLowerHexDigit(s[0]) || !IsLowerHexDigit(s[1]) then None
    else match Decode(s[2..])
      case None => None
      case Some(rest) => Some([NibbleValue(s[0]) * 16 + NibbleValue(s[1])] + rest)
  }

  lemma DigitValueOfIndex(n: Nibble)
    ensures IsLowerHexDigit(LowerDigits[n]) && NibbleValue(LowerDigits[n]) == n
  {
  }

  /** Round trip: the hex text of any bytes decodes back to them. */
  lemma {:induction false} DecodeLower(b: seq<Byte>)
    ensures Decode(Lower(b)) == Some(b)
  {
    if b != [] {
      var s := Lower(b);
      DigitValueOfIndex(b[0] / 16);
      DigitValueOfIndex(b[0] % 16);
      assert s[2..] == Lower(b[1..]);
      DecodeLower(b[1..]);
      assert [b[0]] + b[1..] == b;
    }
  }

  /** The other direction: every text the decoder accepts is the lower-case
      hex of what it decodes to. */
  lemma {:induction false} LowerDecode(s: string)
    requires Decode(s).Some?
    ensures Lower(Decode(s).value) == s
    decreases |s|
  {
    if s != [] {
      LowerDecode(s[2..]);
      var x := NibbleValue(s[0]) * 16 + NibbleValue(s[1]);
      assert x / 16 == NibbleValue(s[0]) && x % 16 == NibbleValue(s[1]);
      var b := Decode(s).value;
      assert b[0] == x && b[1..] == Decode(s[2..]).value;
      assert s == [s[0], s[1]] + s[2..];
    }
  }
}
