/** The public REST client of src/public.rs: an unsigned GET per endpoint
    and the decoders of its two answers. */
module PublicClient {
  import opened Wrappers
  import opened Json
  import opened Http

  /** `Public`: the base URI (the HTTP client is not part of this model). */
  datatype Client = Client(uri: string, crateVersion: string)

  /** `Public::request`: a GET to the base URI followed directly by the path,
      with the user agent as its only header and an empty body; an
      unparsable URI or a bad user agent panics. */
  function Request(c: Client, uriParses: UriCheck, path: string): (r: Outcome<HttpRequest>)
    ensures r.Returned? <==> uriParses(c.uri + path) && ValidHeaderValue(UserAgent(c.crateVersion))
    ensures r.Returned? ==> r.value.verb == Get && r.value.uri == c.uri + path && r.value.body == []
    ensures r.Returned? ==> r.value.headers == [Header("User-Agent", UserAgent(c.crateVersion))]
    ensures r.Returned? ==> forall h :: h in r.value.headers ==> h.name != "X-GEMINI-PAYLOAD" && h.name != "X-GEMINI-SIGNATURE"
  {
    var uri := c.uri + path;
    if !uriParses(uri) then Panicked(BadUriPanic)
    else
      var headers := [Header("User-Agent", UserAgent(c.crateVersion))];
      if !ValidHeaderValue(headers[0].value) then Panicked(BadHeaderPanic)
      else Returned(HttpRequest(Get, uri, headers, []))
  }

  /** `get_symbols`: GET `/v1/symbols`. */
  function GetSymbols(c: Client, uriParses: UriCheck): (r: Outcome<HttpRequest>)
    ensures r.Returned? <==> uriParses(c.uri + "/v1/symbols") && ValidHeaderValue(UserAgent(c.crateVersion))
    ensures r.Returned? ==> r.value.verb == Get && r.value.uri == c.uri + "/v1/symbols"
  {
    Request(c, uriParses, "/v1/symbols")
  }

  /** `get_ticker`: GET `/v1/pubticker/` followed by the product, as given. */
  function GetTicker(c: Client, uriParses: UriCheck, product: string): (r: Outcome<HttpRequest>)
    ensures r.Returned? <==> uriParses(c.uri + "/v1/pubticker/" + product) && ValidHeaderValue(UserAgent(c.crateVersion))
    ensures r.Returned? ==> r.value.verb == Get
    ensures r.Returned? ==> |r.value.uri| == |c.uri| + 14 + |product|
    ensures r.Returned? ==> r.value.uri[..|c.uri|] == c.uri
    ensures r.Returned? ==> r.value.uri[|c.uri|..|c.uri| + 14] == "/v1/pubticker/"
    ensures r.Returned? ==> r.value.uri[|c.uri| + 14..] == product
  {
    var path := "/v1/pubticker/" + product;
    assert c.uri + path == (c.uri + "/v1/pubticker/") + product;
    Request(c, uriParses, path)
  }

  /** The answer of `get_symbols`: `Vec<String>`. */
  function DecodeSymbols(j: Json): (r: Result<seq<string>, DeError>)
    ensures r.Ok? <==> j.JArr? && forall i :: 0 <= i < |j.items| ==> j.items[i].JStr?
    ensures r.Ok? ==> |r.value| == |j.items| && forall i :: 0 <= i < |j.items| ==> j.items[i] == JStr(r.value[i])
  {
    DecodeSeq(j, DecodeString)
  }

  /** `Ticker`: three prices. */
  datatype Ticker<F> = Ticker(ask: F, bid: F, last: F)

  /** A member that is either absent or present once and readable. */
  predicate AbsentOrReads<F>(f: seq<Member>, key: string, read: Json -> Result<F, DeError>) {
    Find(f, key).Absent? || (Find(f, key).Present? && read(Find(f, key).value).Ok?)
  }

  /** The derived decoder of `Ticker`. Each field goes through
      `f64_from_string`, which is not part of this model and is a parameter.
      An object decodes exactly when each of the three members is present
      once and readable; an absent member, the others being readable or
      absent too, is a missing field, the first in declaration order. */
  function DecodeTicker<F>(j: Json, f64FromString: Json -> Result<F, DeError>): (r: Result<Ticker<F>, DeError>)
    ensures r.Ok? <==>
              (j.JObj? &&
               Find(j.fields, "ask").Present? && f64FromString(Find(j.fields, "ask").value).Ok? &&
               Find(j.fields, "bid").Present? && f64FromString(Find(j.fields, "bid").value).Ok? &&
               Find(j.fields, "last").Present? && f64FromString(Find(j.fields, "last").value).Ok?)
    ensures j.JObj? && Find(j.fields, "ask").Absent? &&
            AbsentOrReads(j.fields, "bid", f64FromString) && AbsentOrReads(j.fields, "last", f64FromString) ==>
              r == Err(MissingField("ask"))
    ensures j.JObj? && Find(j.fields, "ask").Present? && f64FromString(Find(j.fields, "ask").value).Ok? &&
            Find(j.fields, "bid").Absent? && AbsentOrReads(j.fields, "last", f64FromString) ==>
              r == Err(MissingField("bid"))
    ensures j.JObj? && Find(j.fields, "ask").Present? && f64FromString(Find(j.fields, "ask").value).Ok? &&
            Find(j.fields, "bid").Present? && f64FromString(Find(j.fields, "bid").value).Ok? &&
            Find(j.fields, "last").Absent? ==>
              r == Err(MissingField("last"))
    ensures r.Ok? ==> forall key :: key in ["ask", "bid", "last"] ==> Find(j.fields, key).Present?
    ensures r.Ok? ==> Find(j.fields, "ask").Present? && f64FromString(Find(j.fields, "ask").value) == Ok(r.value.ask)
    ensures r.Ok? ==> Find(j.fields, "bid").Present? && f64FromString(Find(j.fields, "bid").value) == Ok(r.value.bid)
    ensures r.Ok? ==> Find(j.fields, "last").Present? && f64FromString(Find(j.fields, "last").value) == Ok(r.value.last)
  {
    var f :- Members(j, "struct Ticker");
    var ask :- Required(f, "ask", f64FromString);
    var bid :- Required(f, "bid", f64FromString);
    var last :- Required(f, "last", f64FromString);
    Ok(Ticker(ask, bid, last))
  }
}
