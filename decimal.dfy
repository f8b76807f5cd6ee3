/** Decimal text of unsigned integers: the `Display` of `u64` and the
    `<u64 as FromStr>::from_str` parser of Rust's standard library. */
module Decimal {
  import opened Wrappers
  import opened Primitives

  predicate IsDigit(c: char) {
    '0' <= c <= '9'
  }

  predicate AllDigits(s: string) {
    forall i :: 0 <= i < |s| ==> IsDigit(s[i])
  }

  function DigitValue(c: char): (d: nat)
    requires IsDigit(c)
    ensures d < 10
  {
    (c as int) - ('0' as int)
  }

  function DigitChar(d: nat): (c: char)
    requires d < 10
    ensures IsDigit(c) && DigitValue(c) == d
  {
    (('0' as int) + d) as char
  }

  /** The value of `digits` read left to right, starting from `acc`. */
  function ValueFrom(acc: nat, digits: string): nat
    requires AllDigits(digits)
    decreases |digits|
  {
    if digits == [] then acc else ValueFrom(acc * 10 + DigitValue(digits[0]), digits[1..])
  }

  /** The number a string of decimal digits denotes (most significant first). */
  function Value(digits: string): nat
    requires AllDigits(digits)
  {
    ValueFrom(0, digits)
  }

  /** Decimal text of `n` without leading zeros: what `write!(f, "{}", n)`
      produces for an unsigned integer. */
  function Show(n: nat): (s: string)
    ensures |s| > 0 && AllDigits(s)
    ensures s[0] == '0' ==> s == "0"
    decreases n
  {
    if n < 10 then [DigitChar(n)] else Show(n / 10) + [DigitChar(n % 10)]
  }

  /** Decimal text of a signed integer, with a leading `-` when negative. */
  function ShowInt(n: int): (s: string)
    ensures |s| > 0
    ensures n >= 0 ==> s == Show(n)
    ensures n < 0 ==> s == "-" + Show(-n)
  {
    if n >= 0 then Show(n) else "-" + Show(-n)
  }

  lemma {:induction false} ValueFromGrows(acc: nat, digits: string)
    requires AllDigits(digits)
    ensures ValueFrom(acc, digits) >= acc
    decreases |digits|
  {
    if digits != [] {
      ValueFromGrows(acc * 10 + DigitValue(digits[0]), digits[1..]);
    }
  }

  lemma {:induction false} ValueFromSnoc(acc: nat, digits: string, c: char)
    requires AllDigits(digits) && IsDigit(c)
    ensures AllDigits(digits + [c])
    ensures ValueFrom(acc, digits + [c]) == ValueFrom(acc, digits) * 10 + DigitValue(c)
    decreases |digits|
  {
    if digits == [] {
      assert [c][1..] == [];
    } else {
      assert (digits + [c])[1..] == digits[1..] + [c];
      ValueFromSnoc(acc * 10 + DigitValue(digits[0]), digits[1..], c);
    }
  }

  /** Reading back the text `Show` writes gives the number. */
  lemma {:induction false} ValueOfShow(n: nat)
    ensures Value(Show(n)) == n
    decreases n
  {
    if n >= 10 {
      ValueOfShow(n / 10);
      ValueFromSnoc(0, Show(n / 10), DigitChar(n % 10));
    } else {
      var s := Show(n);
      assert s == [DigitChar(n)] && s[1..] == [];
      assert ValueFrom(0, s) == ValueFrom(DigitValue(s[0]), s[1..]);
    }
  }

  /** `Show` is one-to-one: distinct numbers have distinct texts. */
  lemma ShowInjective(m: nat, n: nat)
    requires Show(m) == Show(n)
    ensures m == n
  {
    ValueOfShow(m);
    ValueOfShow(n);
  }

  /** The kinds of `core::num::ParseIntError`. */
  datatype IntErrorKind = Empty | InvalidDigit | PosOverflow

  /** The `Display` text of a `ParseIntError` of each kind. */
  function IntErrorMessage(k: IntErrorKind): string {
    match k
    case Empty => "cannot parse integer from empty string"
    case InvalidDigit => "invalid digit found in string"
    case PosOverflow => "number too large to fit in target type"
  }

  /** The digits part of an unsigned integer text: one leading `+` is allowed. */
  function Unsigned(s: string): string {
    if |s| > 0 && s[0] == '+' then s[1..] else s
  }

  /** The digit loop of `from_str_radix` for `u64`: left to right, failing at
      the first non-digit or at the first digit that overflows 64 bits. */
  function Accumulate(digits: string, acc: U64): Result<U64, IntErrorKind>
    decreases |digits|
  {
    if digits == [] then Ok(acc)
    else if !IsDigit(digits[0]) then Err(InvalidDigit)
    else if acc * 10 + DigitValue(digits[0]) >= U64_LIMIT then Err(PosOverflow)
    else Accumulate(digits[1..], acc * 10 + DigitValue(digits[0]))
  }

  /** `s.parse::<u64>()`. */
  function ParseU64(s: string): Result<U64, IntErrorKind> {
    if s == [] then Err(Empty)
    else if s == "+" || s == "-" then Err(InvalidDigit)
    else Accumulate(Unsigned(s), 0)
  }

  lemma {:induction false} AccumulateValue(digits: string, acc: U64)
    ensures Accumulate(digits, acc).Ok? <==> AllDigits(digits) && ValueFrom(acc, digits) < U64_LIMIT
    ensures Accumulate(digits, acc).Ok? ==> Accumulate(digits, acc).value == ValueFrom(acc, digits)
    decreases |digits|
  {
    if digits != [] {
      if !IsDigit(digits[0]) {
        assert !AllDigits(digits);
      } else {
        var next := acc * 10 + DigitValue(digits[0]);
        assert AllDigits(digits) <==> AllDigits(digits[1..]) by {
          if AllDigits(digits[1..]) {
            forall i | 0 <= i < |digits| ensures IsDigit(digits[i]) {
              if i > 0 { assert digits[i] == digits[1..][i - 1]; }
            }
          }
        }
        if next >= U64_LIMIT {
          if AllDigits(digits) { ValueFromGrows(next, digits[1..]); }
        } else {
          AccumulateValue(digits[1..], next);
        }
      }
    }
  }

  /** What `u64::from_str` accepts: an optional `+`, then one or more decimal
      digits whose value fits in 64 bits; the result is that value. */
  lemma ParseU64Accepts(s: string)
    ensures ParseU64(s).Ok? <==>
      |Unsigned(s)| > 0 && AllDigits(Unsigned(s)) && Value(Unsigned(s)) < U64_LIMIT
    ensures ParseU64(s).Ok? ==> ParseU64(s).value == Value(Unsigned(s))
  {
    if s != [] && s != "+" && s != "-" {
      AccumulateValue(Unsigned(s), 0);
    } else if s == "-" {
      assert !IsDigit(Unsigned(s)[0]);
    }
  }

  /** Empty text, text with a non-digit and text above 2^64 - 1 are refused. */
  lemma ParseU64Rejects(s: string)
    ensures s == [] ==> ParseU64(s) == Err(Empty)
    ensures (exists i :: 0 <= i < |Unsigned(s)| && !IsDigit(Unsigned(s)[i])) ==> ParseU64(s).Err?
    ensures AllDigits(Unsigned(s)) && Value(Unsigned(s)) >= U64_LIMIT ==> ParseU64(s).Err?
  {
    ParseU64Accepts(s);
  }

  /** Round trip: parsing the `Display` text of a `u64` gives it back. */
  lemma ParseShow(n: U64)
    ensures ParseU64(Show(n)) == Ok(n)
  {
    var s := Show(n);
    assert IsDigit(s[0]);
    assert Unsigned(s) == s;
    ValueOfShow(n);
    ParseU64Accepts(s);
  }
}
