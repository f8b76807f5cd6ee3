/** The decoding of a REST response body in `call_future`, the same in the
    private client (src/private.rs) and the public one (src/public.rs): the
    expected type first, then a bare JSON string as the exchange's own error
    message, then a decoding error that keeps the body text. */
module Responses {
  import opened Wrappers
  import opened Primitives
  import Utf8
  import opened Json
  import opened Types

  /** The syntax error serde_json reports for bytes that are not UTF-8. */
  const InvalidUnicode: string := "invalid unicode code point"

  /** The panic of `String::from_utf8(...).unwrap()` on bytes that are not UTF-8. */
  const FromUtf8Panic: string := "called `Result::unwrap()` on an `Err` value: FromUtf8Error"

  /** What `serde_json::from_slice::<T>` makes of a body that is not UTF-8.
      serde_json checks the bytes of every string it reads into a value, but
      skips the strings inside members `T` ignores without checking them, so
      such a body may still decode; the model takes that outcome as a
      parameter. */
  type RawDecoder<T> = seq<Byte> -> Result<T, DeError>

  /** `serde_json::from_slice::<String>` on bytes that are not UTF-8 always
      fails: the bad bytes sit before the string (a syntax error), inside it
      (its contents are checked) or after it (trailing characters). */
  function RawString(body: seq<Byte>): Result<string, DeError> {
    Err(Syntax(InvalidUnicode))
  }

  /** `serde_json::from_slice::<T>`: a UTF-8 body reads as its text does
      through `from_str`; any other body goes to `raw`. */
  function FromSlice<T>(parse: Parser, body: seq<Byte>, decode: Json -> Result<T, DeError>, raw: RawDecoder<T>): (r: Result<T, DeError>)
    ensures Utf8.Decode(body).Some? ==> r == FromStr(parse, Utf8.Decode(body).value, decode)
    ensures Utf8.Decode(body).None? ==> r == raw(body)
  {
    match Utf8.Decode(body)
    case None => raw(body)
    case Some(text) => FromStr(parse, text, decode)
  }

  /** Reading the UTF-8 bytes of a text is reading the text: `from_slice`
      and `from_str` agree on every text, and `raw` is never consulted. */
  lemma FromSliceOfText<T>(parse: Parser, text: string, decode: Json -> Result<T, DeError>, raw: RawDecoder<T>)
    ensures FromSlice(parse, Utf8.Encode(text), decode, raw) == FromStr(parse, text, decode)
  {
    Utf8.DecodeEncode(text);
  }

  /** The fallback chain of `call_future` once the body has been read. */
  function Classify<U>(parse: Parser, decode: Json -> Result<U, DeError>, raw: RawDecoder<U>, body: seq<Byte>): (r: Outcome<Result<U, GError>>)
    ensures r.Panicked? ==> r == Panicked(FromUtf8Panic) && Utf8.Decode(body).None?
    ensures Utf8.Decode(body).Some? ==> r.Returned?
  {
    match FromSlice(parse, body, decode, raw)
    case Ok(u) => Returned(Ok(u))
    case Err(e) =>
      match FromSlice(parse, body, DecodeString, RawString)
      case Ok(message) => Returned(Err(Gemini(message)))
      case Err(_) =>
        match Utf8.Decode(body)
        case None => Panicked(FromUtf8Panic)
        case Some(data) => Returned(Err(SerdeDe(e, data)))
  }

  /** The four outcomes of the fallback chain, each characterised by the
      body: the expected value when the body's text parses and decodes as
      `U`, or when a body that is not UTF-8 still decodes; the exchange's
      message when the text does not decode but parses as a JSON string;
      otherwise the FIRST attempt's error together with the whole body
      text, whose bytes are exactly the body; and a panic exactly when the
      body is not UTF-8 and does not decode as `U`. */
  lemma ClassifyCases<U>(parse: Parser, decode: Json -> Result<U, DeError>, raw: RawDecoder<U>, body: seq<Byte>)
    ensures Classify(parse, decode, raw, body).Panicked? <==> Utf8.Decode(body).None? && raw(body).Err?
    ensures forall u :: Classify(parse, decode, raw, body) == Returned(Ok(u)) <==>
      (Utf8.Decode(body).Some? && parse(Utf8.Decode(body).value).Ok? &&
       decode(parse(Utf8.Decode(body).value).value) == Ok(u)) ||
      (Utf8.Decode(body).None? && raw(body) == Ok(u))
    ensures forall m :: Classify(parse, decode, raw, body) == Returned(Err(Gemini(m))) <==>
      Utf8.Decode(body).Some? && parse(Utf8.Decode(body).value) == Ok(JStr(m)) &&
      decode(JStr(m)).Err?
    ensures Classify(parse, decode, raw, body).Returned? && Classify(parse, decode, raw, body).value.Err? ==>
      Classify(parse, decode, raw, body).value.error.Gemini? || Classify(parse, decode, raw, body).value.error.SerdeDe?
    ensures Classify(parse, decode, raw, body).Returned? && Classify(parse, decode, raw, body).value.Err? &&
            Classify(parse, decode, raw, body).value.error.SerdeDe? ==>
      var text := Utf8.Decode(body).value;
      Classify(parse, decode, raw, body).value.error.data == text &&
      Utf8.Encode(text) == body &&
      Err(Classify(parse, decode, raw, body).value.error.error) == FromStr(parse, text, decode) &&
      FromStr(parse, text, DecodeString).Err?
  {
    if Utf8.Decode(body).Some? {
      Utf8.EncodeDecode(body);
    }
  }

  /** `call_future`: a transport failure while sending the request or reading
      the body is an `Http` error and nothing is decoded; otherwise the body
      goes through the fallback chain. */
  function CallFuture<U>(parse: Parser, decode: Json -> Result<U, DeError>, raw: RawDecoder<U>,
                         response: Result<seq<Byte>, HttpError>): (r: Outcome<Result<U, GError>>)
    ensures response.Err? ==> r == Returned(Err(Http(response.error)))
    ensures response.Ok? ==> r == Classify(parse, decode, raw, response.value)
    ensures r.Returned? && r.value.Err? && r.value.error.Http? ==> response == Err(r.value.error.http)
  {
    match response
    case Err(e) => Returned(Err(Http(e)))
    case Ok(body) => Classify(parse, decode, raw, body)
  }
}
