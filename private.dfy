/** The private REST client of src/private.rs: signing, the signed POST
    request, and the request each endpoint sends. */
module PrivateClient {
  import opened Wrappers
  import opened Primitives
  import Utf8
  import Base64
  import Hex
  import opened Json
  import opened Http
  import OrderStructs
  import opened PrivateStructs

  /** `Private`: the base URI and the account's key pair. The HTTP client
      it also holds is not part of this model; `crateVersion` stands for the
      `CARGO_PKG_VERSION` that the user agent embeds. */
  datatype Client = Client(uri: string, apiKey: string, apiSecret: string, crateVersion: string)

  /** A SHA-384 digest: 48 bytes. */
  type Digest = d: seq<Byte> | |d| == 48 witness seq(48, _ => 0)

  /** HMAC over SHA-384, keyed by its first argument, over its second. The
      hash is not part of this model: every function that signs takes it as
      a parameter. */
  type Hmac = (seq<Byte>, seq<Byte>) -> Digest

  /** `Private::sign`: the lower-case hex of the HMAC-SHA384 of the payload
      text's bytes, keyed by the secret's bytes. */
  function Sign(hmac: Hmac, secret: string, payload: string): (signature: string)
    ensures |signature| == 96
    ensures forall i :: 0 <= i < |signature| ==> Hex.IsLowerHexDigit(signature[i])
    ensures Hex.Decode(signature) == Some(hmac(Utf8.Encode(secret), Utf8.Encode(payload)))
  {
    var digest := hmac(Utf8.Encode(secret), Utf8.Encode(payload));
    Hex.DecodeLower(digest);
    Hex.Lower(digest)
  }

  /** The `X-GEMINI-PAYLOAD` value: the base 64 of the JSON text's bytes. */
  function PayloadHeader(json: string): (h: string)
    ensures Base64.Decode(h) == Some(Utf8.Encode(json))
    ensures Utf8.Decode(Base64.Decode(h).value) == Some(json)
  {
    Base64.DecodeEncode(Utf8.Encode(json));
    Utf8.DecodeEncode(json);
    Base64.Encode(Utf8.Encode(json))
  }

  /** `Private::request`: the full URI, the serialised, encoded and signed
      payload, and a POST with six headers and an empty body. The three
      `unwrap`/`expect` calls of the source are panics here: an unparsable
      URI, a payload that cannot be serialised, a header value that hyper
      refuses. */
  function Request(c: Client, hmac: Hmac, uriParses: UriCheck, path: string, p: Payload): (r: Outcome<HttpRequest>)
    ensures r.Returned? ==> r.value.verb == Post && r.value.uri == c.uri + path && r.value.body == []
    ensures !uriParses(c.uri + path) ==> r == Panicked(BadUriPanic)
  {
    var uri := c.uri + path;
    if !uriParses(uri) then Panicked(BadUriPanic)
    else
      match Serialize(p)
      case Err(e) => Panicked("serialization failure: " + e.message)
      case Ok(json) =>
        var payload := PayloadHeader(json);
        var signature := Sign(hmac, c.apiSecret, payload);
        var headers := [
          Header("User-Agent", UserAgent(c.crateVersion)),
          Header("Content-Type", "text/plain"),
          Header("X-GEMINI-APIKEY", c.apiKey),
          Header("X-GEMINI-PAYLOAD", payload),
          Header("X-GEMINI-SIGNATURE", signature),
          Header("Cache-Control", "no-cache")];
        if !ValidHeaderValues(headers) then Panicked(BadHeaderPanic)
        else Returned(HttpRequest(Post, uri, headers, []))
  }

  predicate ValidHeaderValues(headers: seq<Header>) {
    forall i :: 0 <= i < |headers| ==> ValidHeaderValue(headers[i].value)
  }

  /** When the request is built and when it panics: only a bad URI, a
      payload that cannot be serialised, or a user agent or key that is not
      a valid header value stop it. */
  lemma RequestBuilt(c: Client, hmac: Hmac, uriParses: UriCheck, path: string, p: Payload)
    ensures Request(c, hmac, uriParses, path, p).Returned? <==>
      uriParses(c.uri + path) && Serialize(p).Ok? &&
      ValidHeaderValue(UserAgent(c.crateVersion)) && ValidHeaderValue(c.apiKey)
    ensures !uriParses(c.uri + path) ==> Request(c, hmac, uriParses, path, p) == Panicked(BadUriPanic)
    ensures uriParses(c.uri + path) && Serialize(p).Err? ==>
      Request(c, hmac, uriParses, path, p) == Panicked("serialization failure: " + Serialize(p).error.message)
  {
    if uriParses(c.uri + path) && Serialize(p).Ok? {
      var payload := PayloadHeader(Serialize(p).value);
      var signature := Sign(hmac, c.apiSecret, payload);
      EncodedHeadersValid(Serialize(p).value, signature);
      ConstantHeadersValid();
      HeaderValuesValid([
        Header("User-Agent", UserAgent(c.crateVersion)),
        Header("Content-Type", "text/plain"),
        Header("X-GEMINI-APIKEY", c.apiKey),
        Header("X-GEMINI-PAYLOAD", payload),
        Header("X-GEMINI-SIGNATURE", signature),
        Header("Cache-Control", "no-cache")]);
    }
  }

  /** A built request is a POST to the base URI followed directly by the
      path, with an empty body and exactly these six headers in this order. */
  lemma RequestShape(c: Client, hmac: Hmac, uriParses: UriCheck, path: string, p: Payload)
    requires Request(c, hmac, uriParses, path, p).Returned?
    ensures var r := Request(c, hmac, uriParses, path, p).value;
      r.verb == Post && r.uri == c.uri + path && r.body == []
    ensures var r := Request(c, hmac, uriParses, path, p).value;
      var payload := PayloadHeader(Serialize(p).value);
      r.headers == [
        Header("User-Agent", UserAgent(c.crateVersion)),
        Header("Content-Type", "text/plain"),
        Header("X-GEMINI-APIKEY", c.apiKey),
        Header("X-GEMINI-PAYLOAD", payload),
        Header("X-GEMINI-SIGNATURE", Sign(hmac, c.apiSecret, payload)),
        Header("Cache-Control", "no-cache")]
  {
  }

  lemma ConstantHeadersValid()
    ensures ValidHeaderValue("text/plain") && ValidHeaderValue("no-cache")
  {
  }

  /** A list of six headers is valid exactly when each of its values is. */
  lemma HeaderValuesValid(headers: seq<Header>)
    requires |headers| == 6
    ensures ValidHeaderValues(headers) <==>
      ValidHeaderValue(headers[0].value) && ValidHeaderValue(headers[1].value) && ValidHeaderValue(headers[2].value) &&
      ValidHeaderValue(headers[3].value) && ValidHeaderValue(headers[4].value) && ValidHeaderValue(headers[5].value)
  {
  }

  /** Base 64 text and lower-case hex are always acceptable header values, so
      only the user agent and the key can make the builder fail. */
  lemma EncodedHeadersValid(json: string, signature: string)
    requires forall i :: 0 <= i < |signature| ==> Hex.IsLowerHexDigit(signature[i])
    ensures ValidHeaderValue(PayloadHeader(json))
    ensures ValidHeaderValue(signature)
  {
    Base64.EncodeShape(Utf8.Encode(json));
    var h := PayloadHeader(json);
    forall i | 0 <= i < |h| ensures (h[i] as int >= 0x20 && h[i] as int != 0x7F) || h[i] == '\t' {
      if h[i] != '=' {
        Base64.SymbolOfIndex(h[i]);
      }
    }
  }

  /** What the exchange can check of a built request: the payload header
      decodes (base 64, then UTF-8) to the serialised payload, and the
      signature is the HMAC of the payload header's own text, not of the
      JSON, under the client's secret. */
  lemma RequestSigned(c: Client, hmac: Hmac, uriParses: UriCheck, path: string, p: Payload)
    requires Request(c, hmac, uriParses, path, p).Returned?
    ensures var headers := Request(c, hmac, uriParses, path, p).value.headers;
      |headers| == 6 && headers[3].name == "X-GEMINI-PAYLOAD" && headers[4].name == "X-GEMINI-SIGNATURE" &&
      Base64.Decode(headers[3].value).Some? &&
      Utf8.Decode(Base64.Decode(headers[3].value).value) == Some(Serialize(p).value) &&
      Hex.Decode(headers[4].value) == Some(hmac(Utf8.Encode(c.apiSecret), Utf8.Encode(headers[3].value)))
  {
  }

  // ---------------------------------------------------------------------
  // Endpoints: each signs a payload whose `request` is the path it posts to

  /** The JSON text the exchange recovers from a request's
      `X-GEMINI-PAYLOAD` header (base 64, then UTF-8), if it has one. */
  function SignedText(req: HttpRequest): Option<string> {
    if |req.headers| > 3 && req.headers[3].name == "X-GEMINI-PAYLOAD" then
      match Base64.Decode(req.headers[3].value)
      case Some(bytes) => Utf8.Decode(bytes)
      case None => None
    else None
  }

  /** The flat envelope text of a payload with this nonce, path and content
      members. */
  function EnvelopeText(nonce: U64, path: string, fields: seq<Member>): string {
    Render(JObj([Member("nonce", JNum(nonce)), Member("request", JStr(path))] + fields))
  }

  /** An endpoint that passes its payload's own `request` as the path: the
      request is built exactly when the URI parses and the user agent and
      key are valid header values, and then it is posted to that path and
      the signed text names that same path. */
  lemma EndpointSignsPath(c: Client, hmac: Hmac, uriParses: UriCheck, p: Payload)
    requires p.content.JObj?
    ensures Request(c, hmac, uriParses, p.request, p).Returned? <==>
              uriParses(c.uri + p.request) && ValidHeaderValue(UserAgent(c.crateVersion)) && ValidHeaderValue(c.apiKey)
    ensures Request(c, hmac, uriParses, p.request, p).Returned? ==>
              Request(c, hmac, uriParses, p.request, p).value.uri == c.uri + p.request &&
              SignedText(Request(c, hmac, uriParses, p.request, p).value) ==
              Some(EnvelopeText(p.nonce, p.request, p.content.fields))
  {
    RequestBuilt(c, hmac, uriParses, p.request, p);
    if Request(c, hmac, uriParses, p.request, p).Returned? {
      RequestShape(c, hmac, uriParses, p.request, p);
      RequestSigned(c, hmac, uriParses, p.request, p);
      assert PayloadJson(p).value == JObj([Member("nonce", JNum(p.nonce)), Member("request", JStr(p.request))] + p.content.fields);
    }
  }

  /** `balances`: an empty payload for `/v1/balances`. */
  function Balances(c: Client, hmac: Hmac, uriParses: UriCheck, clockMillis: I64): (r: Outcome<HttpRequest>)
    ensures r.Returned? <==>
              uriParses(c.uri + "/v1/balances") && ValidHeaderValue(UserAgent(c.crateVersion)) && ValidHeaderValue(c.apiKey)
    ensures r.Returned? ==> r.value.verb == Post && r.value.uri == c.uri + "/v1/balances"
    ensures r.Returned? ==> SignedText(r.value) == Some(EnvelopeText(I64AsU64(clockMillis), "/v1/balances", []))
  {
    var pt := Empty("/v1/balances", clockMillis);
    EndpointSignsPath(c, hmac, uriParses, pt);
    Request(c, hmac, uriParses, pt.request, pt)
  }

  /** `recent_trades`: the symbol's trade history, at `/v1/mytrades`. */
  function RecentTrades(c: Client, hmac: Hmac, uriParses: UriCheck, clockMillis: I64, symbol: string): (r: Outcome<HttpRequest>)
    ensures r.Returned? <==>
              uriParses(c.uri + "/v1/mytrades") && ValidHeaderValue(UserAgent(c.crateVersion)) && ValidHeaderValue(c.apiKey)
    ensures r.Returned? ==> r.value.verb == Post && r.value.uri == c.uri + "/v1/mytrades"
    ensures r.Returned? ==> SignedText(r.value) == Some(EnvelopeText(I64AsU64(clockMillis), "/v1/mytrades", PastTradesJson(symbol).fields))
  {
    var pt := Wrap("/v1/mytrades", PastTradesJson(symbol), clockMillis);
    EndpointSignsPath(c, hmac, uriParses, pt);
    Request(c, hmac, uriParses, pt.request, pt)
  }

  /** `new_order`: the order's own fields, at `/v1/order/new`. */
  function NewOrder(c: Client, hmac: Hmac, uriParses: UriCheck, clockMillis: I64, order: OrderStructs.Order): (r: Outcome<HttpRequest>)
    ensures r.Returned? <==>
              uriParses(c.uri + "/v1/order/new") && ValidHeaderValue(UserAgent(c.crateVersion)) && ValidHeaderValue(c.apiKey)
    ensures r.Returned? ==> r.value.verb == Post && r.value.uri == c.uri + "/v1/order/new"
    ensures r.Returned? ==> SignedText(r.value) == Some(EnvelopeText(I64AsU64(clockMillis), "/v1/order/new", OrderStructs.OrderJson(order).fields))
  {
    var pt := Wrap("/v1/order/new", OrderStructs.OrderJson(order), clockMillis);
    EndpointSignsPath(c, hmac, uriParses, pt);
    Request(c, hmac, uriParses, pt.request, pt)
  }

  /** `cancel_order`: the order id, at `/v1/order/cancel`. */
  function CancelOrder(c: Client, hmac: Hmac, uriParses: UriCheck, clockMillis: I64, orderId: OrderStructs.OrderId): (r: Outcome<HttpRequest>)
    ensures r.Returned? <==>
              uriParses(c.uri + "/v1/order/cancel") && ValidHeaderValue(UserAgent(c.crateVersion)) && ValidHeaderValue(c.apiKey)
    ensures r.Returned? ==> r.value.verb == Post && r.value.uri == c.uri + "/v1/order/cancel"
    ensures r.Returned? ==> SignedText(r.value) == Some(EnvelopeText(I64AsU64(clockMillis), "/v1/order/cancel", CancelRequestJson(orderId).fields))
  {
    var pt := Wrap("/v1/order/cancel", CancelRequestJson(orderId), clockMillis);
    EndpointSignsPath(c, hmac, uriParses, pt);
    Request(c, hmac, uriParses, pt.request, pt)
  }

  /** `cancel_all_orders`: an empty payload for `/v1/order/cancel/all`. */
  function CancelAllOrders(c: Client, hmac: Hmac, uriParses: UriCheck, clockMillis: I64): (r: Outcome<HttpRequest>)
    ensures r.Returned? <==>
              uriParses(c.uri + "/v1/order/cancel/all") && ValidHeaderValue(UserAgent(c.crateVersion)) && ValidHeaderValue(c.apiKey)
    ensures r.Returned? ==> r.value.verb == Post && r.value.uri == c.uri + "/v1/order/cancel/all"
    ensures r.Returned? ==> SignedText(r.value) == Some(EnvelopeText(I64AsU64(clockMillis), "/v1/order/cancel/all", []))
  {
    var pt := Empty("/v1/order/cancel/all", clockMillis);
    EndpointSignsPath(c, hmac, uriParses, pt);
    Request(c, hmac, uriParses, pt.request, pt)
  }
}
