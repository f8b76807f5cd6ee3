/** JSON values (RFC 8259) as serde_json sees them: the compact text that
    `serde_json::to_string` writes, the errors serde reports while decoding,
    and the building blocks of the `#[derive(Deserialize)]` decoders. */
module Json {
  import opened Wrappers
  import opened Primitives
  import Decimal
  import Hex

  /** A JSON value. A number written without fraction or exponent is `JNum`;
      one written with them is `JFloat` (mantissa times ten to the exponent). */
  datatype Json =
    | JNull
    | JBool(b: bool)
    | JNum(n: int)
    | JFloat(mantissa: int, exponent: int)
    | JStr(s: string)
    | JArr(items: seq<Json>)
    | JObj(fields: seq<Member>)

  /** One `"key": value` entry of an object, in the order of the text. */
  datatype Member = Member(key: string, value: Json)

  // ---------------------------------------------------------------------
  // Writing: serde_json's compact format

  /** The escape serde_json writes for one character of a string. */
  function EscapeChar(c: char): string {
    if c == '"' then "\\\""
    else if c == '\\' then "\\\\"
    else if c as int == 0x08 then "\\b"
    else if c as int == 0x0C then "\\f"
    else if c == '\n' then "\\n"
    else if c == '\r' then "\\r"
    else if c == '\t' then "\\t"
    else if (c as int) < 0x20 then "\\u00" + [Hex.LowerDigits[(c as int) / 16], Hex.LowerDigits[(c as int) % 16]]
    else [c]
  }

  function Escape(s: string): string {
    if s == [] then "" else EscapeChar(s[0]) + Escape(s[1..])
  }

  /** A string literal: quotes around the escaped characters. */
  function Quote(s: string): string {
    "\"" + Escape(s) + "\""
  }

  /** `serde_json::to_string`: no whitespace, members in order. */
  function Render(j: Json): string
    decreases j, 1
  {
    match j
    case JNull => "null"
    case JBool(b) => if b then "true" else "false"
    case JNum(n) => Decimal.ShowInt(n)
    case JFloat(m, e) => Decimal.ShowInt(m) + "e" + Decimal.ShowInt(e)
    case JStr(s) => Quote(s)
    case JArr(items) => "[" + RenderItems(items) + "]"
    case JObj(fields) => "{" + RenderMembers(fields) + "}"
  }

  function RenderItems(items: seq<Json>): string
    decreases items, 0
  {
    if items == [] then ""
    else if |items| == 1 then Render(items[0])
    else Render(items[0]) + "," + RenderItems(items[1..])
  }

  function RenderMembers(fields: seq<Member>): string
    decreases fields, 0
  {
    if fields == [] then ""
    else if |fields| == 1 then Quote(fields[0].key) + ":" + Render(fields[0].value)
    else Quote(fields[0].key) + ":" + Render(fields[0].value) + "," + RenderMembers(fields[1..])
  }

  /** A serialisation failure (`serde_json::Error` raised while writing). */
  datatype SerError = SerError(message: string)

  // ---------------------------------------------------------------------
  // Reading: what serde's derived decoders do with a parsed value

  /** serde's `Unexpected`: the kind of value a decoder did not expect. */
  datatype Unexpected =
    | UBool(b: bool)
    | UUnsigned(u: nat)
    | USigned(i: int)
    | UFloat
    | UStr(s: string)
    | UUnit
    | USeq
    | UMap

  /** A decoding failure (`serde_json::Error` raised while reading). */
  datatype DeError =
    | Syntax(message: string)
    | InvalidType(unexpected: Unexpected, expected: string)
    | InvalidValue(unexpected: Unexpected, expected: string)
    | InvalidLength(length: nat, expected: string)
    | UnknownVariant(variant: string, known: seq<string>)
    | MissingField(field: string)
    | DuplicateField(field: string)
    | Custom(message: string)

  /** The parse of a JSON text into a value: the lexer is not part of this
      model, so every reader takes it as a parameter. */
  type Parser = string -> Result<Json, DeError>

  /** How serde_json hands a value to a visitor. An integer literal outside
      the `u64` and `i64` ranges is read as a float. */
  function UnexpectedOf(j: Json): Unexpected {
    match j
    case JNull => UUnit
    case JBool(b) => UBool(b)
    case JNum(n) =>
      if 0 <= n < U64_LIMIT then UUnsigned(n)
      else if -0x8000_0000_0000_0000 <= n < 0 then USigned(n)
      else UFloat
    case JFloat(_, _) => UFloat
    case JStr(s) => UStr(s)
    case JArr(_) => USeq
    case JObj(_) => UMap
  }

  /** `serde_json::from_str::<T>`: lex, then decode. */
  function FromStr<T>(parse: Parser, text: string, decode: Json -> Result<T, DeError>): (r: Result<T, DeError>)
    ensures parse(text).Err? ==> r == Err(parse(text).error)
    ensures parse(text).Ok? ==> r == decode(parse(text).value)
  {
    var j :- parse(text);
    decode(j)
  }

  /** `String`: only a JSON string is accepted. */
  function DecodeString(j: Json): (r: Result<string, DeError>)
    ensures r.Ok? <==> j.JStr?
    ensures r.Ok? ==> r.value == j.s
  {
    if j.JStr? then Ok(j.s) else Err(InvalidType(UnexpectedOf(j), "a string"))
  }

  /** `bool`. */
  function DecodeBool(j: Json): (r: Result<bool, DeError>)
    ensures r.Ok? <==> j.JBool?
    ensures r.Ok? ==> r.value == j.b
  {
    if j.JBool? then Ok(j.b) else Err(InvalidType(UnexpectedOf(j), "a boolean"))
  }

  /** `u64`: an integer literal from 0 to 2^64 - 1. */
  function DecodeU64(j: Json): (r: Result<U64, DeError>)
    ensures r.Ok? <==> j.JNum? && 0 <= j.n < U64_LIMIT
    ensures r.Ok? ==> r.value == j.n
  {
    if j.JNum? && 0 <= j.n < U64_LIMIT then Ok(j.n)
    else if j.JNum? && UnexpectedOf(j).USigned? then Err(InvalidValue(UnexpectedOf(j), "u64"))
    else Err(InvalidType(UnexpectedOf(j), "u64"))
  }

  /** What a struct decoder finds under one key of an object. */
  datatype Lookup = Absent | Present(value: Json) | Repeated

  /** Looks `key` up in the members of an object. A key that occurs twice is
      `Repeated`: serde's derived decoders refuse a duplicate field. */
  function Find(fields: seq<Member>, key: string): Lookup {
    if fields == [] then Absent
    else
      var rest := Find(fields[1..], key);
      if fields[0].key != key then rest
      else if rest.Absent? then Present(fields[0].value)
      else Repeated
  }

  /** `Find` is absent exactly when no member has the key, repeated exactly
      when two members have it, and otherwise gives the one member's value. */
  lemma {:induction false} FindSpec(fields: seq<Member>, key: string)
    ensures Find(fields, key).Absent? <==> forall i :: 0 <= i < |fields| ==> fields[i].key != key
    ensures Find(fields, key).Present? ==> exists i :: 0 <= i < |fields| && fields[i] == Member(key, Find(fields, key).value)
    ensures Find(fields, key).Repeated? <==> exists i, k :: 0 <= i < k < |fields| && fields[i].key == key && fields[k].key == key
  {
    if fields != [] {
      FindSpec(fields[1..], key);
      var rest := Find(fields[1..], key);
      assert forall i :: 1 <= i < |fields| ==> fields[i] == fields[1..][i - 1];
      if fields[0].key == key && !rest.Absent? {
        var k :| 0 <= k < |fields| - 1 && fields[1..][k].key == key;
        assert fields[k + 1].key == key;
      }
      if fields[0].key != key && rest.Repeated? {
        var i, k :| 0 <= i < k < |fields| - 1 && fields[1..][i].key == key && fields[1..][k].key == key;
        assert fields[i + 1].key == key && fields[k + 1].key == key;
      }
    }
  }

  /** No key occurs twice among the members. */
  predicate DistinctKeys(fields: seq<Member>) {
    forall i, k :: 0 <= i < k < |fields| ==> fields[i].key != fields[k].key
  }

  /** The object whose members pair `keys` with `values`, in order. */
  function Object(keys: seq<string>, values: seq<Json>): (j: Json)
    requires |keys| == |values|
    ensures j.JObj? && |j.fields| == |keys|
    ensures forall i :: 0 <= i < |keys| ==> j.fields[i] == Member(keys[i], values[i])
  {
    if keys == [] then JObj([])
    else JObj([Member(keys[0], values[0])] + Object(keys[1..], values[1..]).fields)
  }

  /** In an object without repeated keys, every member is found under its key. */
  lemma FindDistinct(fields: seq<Member>, i: nat)
    requires DistinctKeys(fields) && i < |fields|
    ensures Find(fields, fields[i].key) == Present(fields[i].value)
  {
    FindSpec(fields, fields[i].key);
    var r := Find(fields, fields[i].key);
    if r.Present? {
      var k :| 0 <= k < |fields| && fields[k] == Member(fields[i].key, r.value);
      assert k == i;
    }
  }

  /** A required field: absent is `missing field`, twice is `duplicate field`. */
  function Required<T>(fields: seq<Member>, key: string, decode: Json -> Result<T, DeError>): (r: Result<T, DeError>)
  {
    match Find(fields, key)
    case Absent => Err(MissingField(key))
    case Repeated => Err(DuplicateField(key))
    case Present(v) => decode(v)
  }

  /** A required field of an object without repeated keys reads its member. */
  lemma RequiredAt<T>(fields: seq<Member>, i: nat, decode: Json -> Result<T, DeError>)
    requires DistinctKeys(fields) && i < |fields|
    ensures Required(fields, fields[i].key, decode) == decode(fields[i].value)
  {
    FindDistinct(fields, i);
  }

  /** An `Option<T>` field: absent or `null` is `None`. */
  function Optional<T>(fields: seq<Member>, key: string, decode: Json -> Result<T, DeError>): (r: Result<Option<T>, DeError>)
  {
    match Find(fields, key)
    case Absent => Ok(None)
    case Repeated => Err(DuplicateField(key))
    case Present(v) =>
      if v == JNull then Ok(None)
      else
        var x :- decode(v);
        Ok(Some(x))
  }

  /** An optional field of an object without repeated keys reads its member. */
  lemma OptionalAt<T>(fields: seq<Member>, i: nat, decode: Json -> Result<T, DeError>)
    requires DistinctKeys(fields) && i < |fields|
    ensures Optional(fields, fields[i].key, decode) == DecodeOption(fields[i].value, decode)
  {
    FindDistinct(fields, i);
  }

  /** A field with `#[serde(default = ...)]`: absent gives the default. */
  function Defaulted<T>(fields: seq<Member>, key: string, decode: Json -> Result<T, DeError>, default: T): (r: Result<T, DeError>)
  {
    match Find(fields, key)
    case Absent => Ok(default)
    case Repeated => Err(DuplicateField(key))
    case Present(v) => decode(v)
  }

  /** A defaulted field of an object without repeated keys reads its member. */
  lemma DefaultedAt<T>(fields: seq<Member>, i: nat, decode: Json -> Result<T, DeError>, default: T)
    requires DistinctKeys(fields) && i < |fields|
    ensures Defaulted(fields, fields[i].key, decode, default) == decode(fields[i].value)
  {
    FindDistinct(fields, i);
  }

  /** The value of the first member with `key`, if there is one. */
  function First(fields: seq<Member>, key: string): (r: Option<Json>)
    ensures r.None? <==> Find(fields, key).Absent?
    ensures Find(fields, key).Present? ==> r == Some(Find(fields, key).value)
  {
    if fields == [] then None
    else if fields[0].key == key then Some(fields[0].value)
    else First(fields[1..], key)
  }

  /** The members whose key is not `key`, in their order. */
  function Without(fields: seq<Member>, key: string): (r: seq<Member>)
    ensures |r| <= |fields|
    ensures (forall i :: 0 <= i < |fields| ==> fields[i].key != key) ==> r == fields
  {
    if fields == [] then []
    else
      var rest := Without(fields[1..], key);
      if fields[0].key == key then rest
      else
        assert (forall i :: 0 <= i < |fields| ==> fields[i].key != key) ==>
               (forall i :: 0 <= i < |fields[1..]| ==> fields[1..][i].key != key);
        [fields[0]] + rest
  }

  /** Removing `key` removes every member with it and leaves what is found
      under any other key as it was. */
  lemma {:induction false} FindWithout(fields: seq<Member>, key: string, k: string)
    ensures Find(Without(fields, key), key).Absent?
    ensures k != key ==> Find(Without(fields, key), k) == Find(fields, k)
  {
    if fields != [] {
      FindWithout(fields[1..], key, k);
      if fields[0].key != key {
        assert ([fields[0]] + Without(fields[1..], key))[1..] == Without(fields[1..], key);
      }
    }
  }

  /** What serde expects where it reads a variant name as an identifier. */
  const VariantIdentifier: string := "variant identifier"

  /** The tag member of an internally tagged enum (`#[serde(tag = ...)]`).
      serde reads the members in order: the first tag member is decoded as a
      variant name at once (through `deserialize_identifier`, so a value that
      is not a string is an invalid type against "variant identifier"), a
      second one is a duplicate field, and an object without one misses the
      field. */
  function DecodeTag<T>(fields: seq<Member>, tag: string, names: seq<string>, variants: seq<T>): (r: Result<T, DeError>)
    requires |names| == |variants|
    ensures r.Ok? <==> Find(fields, tag).Present? && Find(fields, tag).value.JStr? && Find(fields, tag).value.s in names
    ensures r.Ok? ==> exists i :: 0 <= i < |names| && names[i] == Find(fields, tag).value.s && r.value == variants[i]
    ensures Find(fields, tag).Absent? ==> r == Err(MissingField(tag))
    ensures First(fields, tag).Some? && !First(fields, tag).value.JStr? ==>
              r == Err(InvalidType(UnexpectedOf(First(fields, tag).value), VariantIdentifier))
  {
    match First(fields, tag)
    case None => Err(MissingField(tag))
    case Some(v) =>
      var x :- if v.JStr? then DecodeName(v, names, variants, VariantIdentifier)
               else Err(InvalidType(UnexpectedOf(v), VariantIdentifier));
      if Find(fields, tag).Repeated? then Err(DuplicateField(tag)) else Ok(x)
  }

  /** Decodes every element, in order; the first failure is the result. */
  function DecodeItems<T>(items: seq<Json>, decode: Json -> Result<T, DeError>): (r: Result<seq<T>, DeError>)
    ensures r.Ok? <==> forall i :: 0 <= i < |items| ==> decode(items[i]).Ok?
    ensures r.Ok? ==> |r.value| == |items| && forall i :: 0 <= i < |items| ==> decode(items[i]) == Ok(r.value[i])
    ensures r.Err? ==> exists i :: 0 <= i < |items| && decode(items[i]) == Err(r.error) &&
                                   forall k :: 0 <= k < i ==> decode(items[k]).Ok?
  {
    if items == [] then Ok([])
    else
      match decode(items[0])
      case Err(e) => Err(e)
      case Ok(x) =>
        var rest := DecodeItems(items[1..], decode);
        assert forall i :: 1 <= i < |items| ==> items[i] == items[1..][i - 1];
        match rest
        case Err(e) =>
          ghost var i :| 0 <= i < |items| - 1 && decode(items[1..][i]) == Err(e) &&
                         forall k :: 0 <= k < i ==> decode(items[1..][k]).Ok?;
          assert decode(items[i + 1]) == Err(e);
          Err(e)
        case Ok(xs) => Ok([x] + xs)
  }

  /** `Vec<T>`: a JSON array whose elements all decode, in order. */
  function DecodeSeq<T>(j: Json, decode: Json -> Result<T, DeError>): (r: Result<seq<T>, DeError>)
    ensures r.Ok? ==> j.JArr? && r == DecodeItems(j.items, decode)
    ensures j.JArr? ==> r == DecodeItems(j.items, decode)
  {
    if j.JArr? then DecodeItems(j.items, decode) else Err(InvalidType(UnexpectedOf(j), "a sequence"))
  }

  /** `Option<T>` as a whole value: `null` is `None`. */
  function DecodeOption<T>(j: Json, decode: Json -> Result<T, DeError>): (r: Result<Option<T>, DeError>)
    ensures j == JNull ==> r == Ok(None)
    ensures j != JNull ==> (r.Ok? <==> decode(j).Ok?) && (r.Ok? ==> r.value == Some(decode(j).value))
  {
    if j == JNull then Ok(None)
    else
      var x :- decode(j);
      Ok(Some(x))
  }

  /** The values of a list, each written with `encode`, in order. */
  function EncodeItems<T>(xs: seq<T>, encode: T -> Json): (items: seq<Json>)
    ensures |items| == |xs|
    ensures forall i :: 0 <= i < |xs| ==> items[i] == encode(xs[i])
  {
    if xs == [] then [] else [encode(xs[0])] + EncodeItems(xs[1..], encode)
  }

  /** A string written as a JSON string, as a function value for
      `EncodeItems` and `EncodeOption`. */
  function StrJson(s: string): Json {
    JStr(s)
  }

  /** An `Option<T>` written by serde: `None` is `null`. */
  function EncodeOption<T>(x: Option<T>, encode: T -> Json): Json {
    match x
    case None => JNull
    case Some(v) => encode(v)
  }

  /** When `decode` inverts `encode` on every value, the sequence decoder
      inverts the element-wise encoding. */
  lemma DecodeEncodedItems<T>(xs: seq<T>, encode: T -> Json, decode: Json -> Result<T, DeError>)
    requires forall x :: decode(encode(x)) == Ok(x)
    ensures DecodeSeq(JArr(EncodeItems(xs, encode)), decode) == Ok(xs)
  {
    var items := EncodeItems(xs, encode);
    var r := DecodeItems(items, decode);
    assert forall i :: 0 <= i < |items| ==> decode(items[i]) == Ok(xs[i]);
    assert r.value == xs;
  }

  /** The same for an `Option<T>` value in a field that may be `null`. */
  lemma DecodeEncodedOption<T>(x: Option<T>, encode: T -> Json, decode: Json -> Result<T, DeError>)
    requires forall v :: decode(encode(v)) == Ok(v)
    requires x.Some? ==> encode(x.value) != JNull
    ensures DecodeOption(EncodeOption(x, encode), decode) == Ok(x)
  {
  }

  /** An object's members, or `invalid type` for any other value. */
  function Members(j: Json, expected: string): (r: Result<seq<Member>, DeError>)
    ensures r.Ok? <==> j.JObj?
    ensures r.Ok? ==> r.value == j.fields
  {
    if j.JObj? then Ok(j.fields) else Err(InvalidType(UnexpectedOf(j), expected))
  }

  /** The error serde_json's enum reader raises when the value is neither a
      string nor an object. */
  const ExpectedValue: string := "expected value"

  /** A unit-only enum read from a string: the variant whose name it is.
      A number, bool, array or null is refused before any visitor runs;
      `expected` is what the model reports for an object. */
  function DecodeName<T>(j: Json, names: seq<string>, variants: seq<T>, expected: string): (r: Result<T, DeError>)
    requires |names| == |variants|
    ensures r.Ok? <==> j.JStr? && j.s in names
    ensures r.Ok? ==> exists i :: 0 <= i < |names| && names[i] == j.s && r.value == variants[i]
    ensures j.JStr? && j.s !in names ==> r == Err(UnknownVariant(j.s, names))
    ensures !j.JStr? && !j.JObj? ==> r == Err(Syntax(ExpectedValue))
  {
    if j.JObj? then Err(InvalidType(UnexpectedOf(j), expected))
    else if !j.JStr? then Err(Syntax(ExpectedValue))
    else if j.s !in names then Err(UnknownVariant(j.s, names))
    else
      var i := IndexOf(names, j.s);
      Ok(variants[i])
  }

  /** Among distinct names, each name decodes to the variant at its position. */
  lemma DecodeNameAt<T>(names: seq<string>, variants: seq<T>, i: nat, expected: string)
    requires |names| == |variants| && i < |names|
    requires forall a, b :: 0 <= a < b < |names| ==> names[a] != names[b]
    ensures DecodeName(JStr(names[i]), names, variants, expected) == Ok(variants[i])
  {
    var k := IndexOf(names, names[i]);
    assert k == i;
  }

  function IndexOf(names: seq<string>, name: string): (i: nat)
    requires name in names
    ensures i < |names| && names[i] == name
  {
    if names[0] == name then 0 else 1 + IndexOf(names[1..], name)
  }
}
