/** The websocket feeds of src/wsfeed.rs: the subscribe message, the
    classification of incoming frames, the stream that filters and converts
    them, and the two handshakes. */
module Feed {
  import opened Wrappers
  import opened Primitives
  import opened Json
  import opened Types
  import opened Http
  import opened FeedStructs
  import PrivateStructs
  import PrivateClient
  import Base64
  import Utf8

  // ---------------------------------------------------------------------
  // The subscribe message

  /** `SubscriptionType`, written in snake case. */
  datatype SubscriptionType = L2

  function SubscriptionTypeJson(t: SubscriptionType): (j: Json)
    ensures j == JStr("l2")
  {
    match t
    case L2 => JStr("l2")
  }

  /** `Subscription`: a channel and the symbols wanted on it. */
  datatype Subscription = Subscription(name: SubscriptionType, symbols: seq<string>)

  /** The derived serialiser of `Subscription`: `{"name":…,"symbols":[…]}`. */
  function SubscriptionJson(s: Subscription): (j: Json)
    ensures j.JObj? && |j.fields| == 2
    ensures j.fields[0] == Member("name", SubscriptionTypeJson(s.name))
    ensures j.fields[1].key == "symbols" && j.fields[1].value.JArr?
    ensures |j.fields[1].value.items| == |s.symbols|
    ensures forall i :: 0 <= i < |s.symbols| ==> j.fields[1].value.items[i] == JStr(s.symbols[i])
  {
    JObj([Member("name", SubscriptionTypeJson(s.name)), Member("symbols", JArr(EncodeItems(s.symbols, StrJson)))])
  }

  /** The derived serialiser of `Subscribe`: the `type` first, then the
      subscriptions in the order given. */
  function SubscribeJson(subscriptions: seq<Subscription>): (j: Json)
    ensures j.JObj? && |j.fields| == 2
    ensures j.fields[0] == Member("type", JStr("subscribe"))
    ensures j.fields[1].key == "subscriptions" && j.fields[1].value.JArr?
    ensures |j.fields[1].value.items| == |subscriptions|
    ensures forall i :: 0 <= i < |subscriptions| ==> j.fields[1].value.items[i] == SubscriptionJson(subscriptions[i])
  {
    JObj([Member("type", JStr("subscribe")),
          Member("subscriptions", JArr(EncodeItems(subscriptions, SubscriptionJson)))])
  }

  /** The text sent after the public handshake. */
  function SubscribeText(subscriptions: seq<Subscription>): string {
    Render(SubscribeJson(subscriptions))
  }

  // ---------------------------------------------------------------------
  // Frames and their classification

  /** A websocket message as tungstenite delivers it; only text frames are
      data (section 5.6 of RFC 6455). */
  datatype Frame =
    | Text(text: string)
    | Binary(data: seq<Byte>)
    | Ping(data: seq<Byte>)
    | Pong(data: seq<Byte>)
    | Close

  /** The panic of `unreachable!()`. */
  const Unreachable: string := "internal error: entered unreachable code"

  /** `convert_md_msg`: a text frame is decoded as a tagged market-data
      message and converted; when decoding fails the error and the whole text
      are kept in `InternalError`. Any other frame panics. */
  function ConvertMdMsg(parse: Parser, frame: Frame): (r: Outcome<MarketDataMessage>)
    ensures r.Returned? <==> frame.Text?
    ensures frame.Text? && FromStr(parse, frame.text, DecodeInputMD).Ok? ==>
              r.value == FromInputMD(FromStr(parse, frame.text, DecodeInputMD).value)
    ensures frame.Text? && FromStr(parse, frame.text, DecodeInputMD).Err? ==>
              r.value == MarketDataError(SerdeDe(FromStr(parse, frame.text, DecodeInputMD).error, frame.text))
  {
    match frame
    case Text(s) =>
      Returned(match FromStr(parse, s, DecodeInputMD)
               case Ok(m) => FromInputMD(m)
               case Err(e) => MarketDataError(SerdeDe(e, s)))
    case _ => Panicked(Unreachable)
  }

  function DecodeOrderStatuses(j: Json): Result<seq<OrderStatus>, DeError> {
    DecodeSeq(j, DecodeOrderStatus)
  }

  /** `convert_order_msg`: a text frame is first tried as a tagged control
      message; only if that fails is it tried as an array of order events;
      if both fail, the array attempt's error and the whole text are kept in
      `InternalError`. Any other frame panics. */
  function ConvertOrderMsg(parse: Parser, frame: Frame): (r: Outcome<OrderMessage>)
    ensures r.Returned? <==> frame.Text?
  {
    match frame
    case Text(s) =>
      Returned(match FromStr(parse, s, DecodeInputOrder)
               case Ok(m) => FromInputOrder(m)
               case Err(_) =>
                 match FromStr(parse, s, DecodeOrderStatuses)
                 case Ok(orders) => Orders(orders)
                 case Err(e) => OrderError(SerdeDe(e, s)))
    case _ => Panicked(Unreachable)
  }

  /** The order of the attempts in `convert_order_msg`. */
  lemma ConvertOrderMsgCases(parse: Parser, s: string)
    ensures ConvertOrderMsg(parse, Text(s)).Returned?
    ensures FromStr(parse, s, DecodeInputOrder).Ok? ==>
              ConvertOrderMsg(parse, Text(s)).value == FromInputOrder(FromStr(parse, s, DecodeInputOrder).value)
    ensures ConvertOrderMsg(parse, Text(s)).value.Orders? <==>
              FromStr(parse, s, DecodeInputOrder).Err? && FromStr(parse, s, DecodeOrderStatuses).Ok?
    ensures ConvertOrderMsg(parse, Text(s)).value.Orders? ==>
              ConvertOrderMsg(parse, Text(s)).value.orders == FromStr(parse, s, DecodeOrderStatuses).value
    ensures ConvertOrderMsg(parse, Text(s)).value.OrderError? <==>
              FromStr(parse, s, DecodeInputOrder).Err? && FromStr(parse, s, DecodeOrderStatuses).Err?
    ensures ConvertOrderMsg(parse, Text(s)).value.OrderError? ==>
              ConvertOrderMsg(parse, Text(s)).value.error ==
              SerdeDe(FromStr(parse, s, DecodeOrderStatuses).error, s)
  {
  }

  /** A batch of order events is never taken for a control message: an
      array is not an object, so the array attempt decides. */
  lemma OrdersOfArray(parse: Parser, s: string)
    requires parse(s).Ok? && parse(s).value.JArr?
    ensures ConvertOrderMsg(parse, Text(s)).value.Orders? <==> DecodeOrderStatuses(parse(s).value).Ok?
  {
  }

  // ---------------------------------------------------------------------
  // The stream

  /** The items `try_filter(is_text)` lets through: every transport error and
      every text frame, in arrival order. */
  function Delivered(items: seq<Result<Frame, WsError>>): (r: seq<Result<Frame, WsError>>)
    ensures |r| <= |items|
    ensures forall i :: 0 <= i < |r| ==> r[i].Err? || r[i].value.Text?
  {
    if items == [] then []
    else
      var keep := items[0].Err? || items[0].value.Text?;
      (if keep then [items[0]] else []) + Delivered(items[1..])
  }

  /** Filtering distributes over the arrival of more items. */
  lemma {:induction false} DeliveredAppend(a: seq<Result<Frame, WsError>>, b: seq<Result<Frame, WsError>>)
    ensures Delivered(a + b) == Delivered(a) + Delivered(b)
  {
    if a != [] {
      assert (a + b)[0] == a[0];
      assert (a + b)[1..] == a[1..] + b;
      DeliveredAppend(a[1..], b);
      var head := if a[0].Err? || a[0].value.Text? then [a[0]] else [];
      assert Delivered(a + b) == head + (Delivered(a[1..]) + Delivered(b));
      assert Delivered(a) == head + Delivered(a[1..]);
      assert head + (Delivered(a[1..]) + Delivered(b)) == (head + Delivered(a[1..])) + Delivered(b);
    } else {
      assert a + b == b;
    }
  }

  /** Items that are all errors or text frames all get through unchanged. */
  lemma {:induction false} DeliveredKeepsData(items: seq<Result<Frame, WsError>>)
    requires forall i :: 0 <= i < |items| ==> items[i].Err? || items[i].value.Text?
    ensures Delivered(items) == items
  {
    if items != [] {
      DeliveredKeepsData(items[1..]);
    }
  }

  /** The stream of a feed: the delivered items, each text frame converted and
      each transport error turned into `Websocket`. A conversion that panics
      makes the stream panic. */
  function Stream<T>(items: seq<Result<Frame, WsError>>, convert: Frame -> Outcome<T>): (r: Outcome<seq<Result<T, GError>>>)
    ensures r.Returned? ==> |r.value| <= |items|
  {
    if items == [] then Returned([])
    else
      var head :- (match items[0]
                   case Err(e) => Returned([Err(Websocket(e))])
                   case Ok(frame) =>
                     if frame.Text? then
                       var x :- convert(frame);
                       Returned([Ok(x)])
                     else Returned([]));
      var tail :- Stream(items[1..], convert);
      Returned(head + tail)
  }

  /** The meaning of the stream: when the conversion does not panic on text,
      the stream is the filter of the items followed by the conversion, one
      output per delivered item, in order; it never panics. */
  lemma {:induction false} StreamIsFilterThenMap<T>(items: seq<Result<Frame, WsError>>, convert: Frame -> Outcome<T>)
    requires forall s :: convert(Text(s)).Returned?
    ensures Stream(items, convert).Returned?
    ensures |Stream(items, convert).value| == |Delivered(items)|
    ensures forall i :: 0 <= i < |Delivered(items)| ==>
              Stream(items, convert).value[i] ==
              (match Delivered(items)[i]
               case Err(e) => Err(Websocket(e))
               case Ok(frame) => Ok(convert(frame).value))
  {
    if items != [] {
      StreamIsFilterThenMap(items[1..], convert);
      if items[0].Err? || items[0].value.Text? {
        StreamKeepsHead(items, convert);
      } else {
        assert Delivered(items) == Delivered(items[1..]);
        assert Stream(items, convert).value == Stream(items[1..], convert).value;
      }
    }
  }

  /** One step of `StreamIsFilterThenMap`: a delivered first item puts its
      conversion in front of the rest of the stream. */
  lemma StreamKeepsHead<T>(items: seq<Result<Frame, WsError>>, convert: Frame -> Outcome<T>)
    requires forall s :: convert(Text(s)).Returned?
    requires items != [] && (items[0].Err? || items[0].value.Text?)
    requires Stream(items[1..], convert).Returned?
    requires |Stream(items[1..], convert).value| == |Delivered(items[1..])|
    requires forall i :: 0 <= i < |Delivered(items[1..])| ==>
              Stream(items[1..], convert).value[i] ==
              (match Delivered(items[1..])[i]
               case Err(e) => Err(Websocket(e))
               case Ok(frame) => Ok(convert(frame).value))
    ensures Stream(items, convert).Returned?
    ensures |Stream(items, convert).value| == |Delivered(items)|
    ensures forall i :: 0 <= i < |Delivered(items)| ==>
              Stream(items, convert).value[i] ==
              (match Delivered(items)[i]
               case Err(e) => Err(Websocket(e))
               case Ok(frame) => Ok(convert(frame).value))
  {
    var d := Delivered(items);
    var rest := Delivered(items[1..]);
    var out := Stream(items, convert).value;
    var tail := Stream(items[1..], convert).value;
    var h: Result<T, GError> := match items[0]
      case Err(e) => Err(Websocket(e))
      case Ok(frame) => Ok(convert(frame).value);
    assert d == [items[0]] + rest;
    assert out == [h] + tail;
    forall i | 1 <= i < |d|
      ensures out[i] == (match d[i] case Err(e) => Err(Websocket(e)) case Ok(frame) => Ok(convert(frame).value))
    {
      assert d[i] == rest[i - 1] && out[i] == tail[i - 1];
    }
  }

  /** The market-data stream never panics: every frame that reaches the
      conversion is a text frame. */
  lemma MarketDataStreamTotal(parse: Parser, items: seq<Result<Frame, WsError>>)
    ensures Stream(items, f => ConvertMdMsg(parse, f)).Returned?
    ensures |Stream(items, f => ConvertMdMsg(parse, f)).value| == |Delivered(items)|
  {
    StreamIsFilterThenMap(items, f => ConvertMdMsg(parse, f));
  }

  /** The order-event stream never panics either. */
  lemma OrderStreamTotal(parse: Parser, items: seq<Result<Frame, WsError>>)
    ensures Stream(items, f => ConvertOrderMsg(parse, f)).Returned?
    ensures |Stream(items, f => ConvertOrderMsg(parse, f)).value| == |Delivered(items)|
  {
    StreamIsFilterThenMap(items, f => ConvertOrderMsg(parse, f));
  }

  // ---------------------------------------------------------------------
  // Handshakes

  /** What a handshake does on the network, in order. */
  datatype Event =
    | DialUrl(url: string)
    | DialRequest(request: HttpRequest)
    | Send(frame: Frame)

  /** `connect_public_data`: dial `uri` followed by `/v2/marketdata`; on
      success send one subscribe message and only then hand out the stream.
      A failed dial or a failed send is an error and no stream. The outcome
      of the dial (the frames the server will send, or a failure) and of the
      send are parameters. */
  method ConnectPublicData(uri: string, subscriptions: seq<Subscription>, parse: Parser,
                           dial: Result<seq<Result<Frame, WsError>>, WsError>, sendFailure: Option<WsError>)
    returns (r: Result<seq<Result<MarketDataMessage, GError>>, GError>, trace: seq<Event>)
    ensures |trace| >= 1 && trace[0] == DialUrl(uri + "/v2/marketdata")
    ensures dial.Err? ==> r == Err(Websocket(dial.error)) && |trace| == 1
    ensures dial.Ok? ==> trace == [DialUrl(uri + "/v2/marketdata"), Send(Text(SubscribeText(subscriptions)))]
    ensures dial.Ok? && sendFailure.Some? ==> r == Err(Websocket(sendFailure.value))
    ensures dial.Ok? && sendFailure.None? ==>
              Stream(dial.value, f => ConvertMdMsg(parse, f)).Returned? &&
              r == Ok(Stream(dial.value, f => ConvertMdMsg(parse, f)).value)
    ensures r.Ok? ==> |r.value| == |Delivered(dial.value)|
  {
    var url := uri + "/v2/marketdata";
    trace := [DialUrl(url)];
    if dial.Err? {
      return Err(Websocket(dial.error)), trace;
    }
    MarketDataStreamTotal(parse, dial.value);
    var stream := Stream(dial.value, f => ConvertMdMsg(parse, f)).value;
    var message := SubscribeText(subscriptions);
    trace := trace + [Send(Text(message))];
    if sendFailure.Some? {
      return Err(Websocket(sendFailure.value)), trace;
    }
    r := Ok(stream);
  }

  const OrderEventsPath: string := "/v1/order/events"

  /** The panic of `expect("connect-async")` on a failed dial: the message,
      then the error, as `PrivateClient.Request` renders its own `expect`. */
  function ConnectPanic(e: WsError): string {
    "connect-async: " + e.description
  }

  /** The upgrade request of `connect_private_order_events`: a GET to `uri`
      followed by `/v1/order/events` carrying the signed empty payload. */
  function OrderEventsRequest(uri: string, apiKey: string, apiSecret: string, hmac: PrivateClient.Hmac,
                              uriParses: UriCheck, json: string): (r: Outcome<HttpRequest>)
    ensures r.Returned? ==> r.value.verb == Get && r.value.uri == uri + OrderEventsPath && r.value.body == []
  {
    var url := uri + OrderEventsPath;
    var payload := PrivateClient.PayloadHeader(json);
    var signature := PrivateClient.Sign(hmac, apiSecret, payload);
    var headers := [
      Header("Content-Type", "text/plain"),
      Header("X-GEMINI-APIKEY", apiKey),
      Header("X-GEMINI-PAYLOAD", payload),
      Header("X-GEMINI-SIGNATURE", signature)];
    if !uriParses(url) then Panicked(BadUriPanic)
    else if !PrivateClient.ValidHeaderValues(headers) then Panicked(BadHeaderPanic)
    else Returned(HttpRequest(Get, url, headers, []))
  }

  /** The upgrade request is built unless the URI does not parse or the key
      is not a valid header value; the encoded payload and the hex signature
      always are. */
  lemma OrderEventsRequestBuilt(uri: string, apiKey: string, apiSecret: string, hmac: PrivateClient.Hmac,
                                uriParses: UriCheck, json: string)
    ensures OrderEventsRequest(uri, apiKey, apiSecret, hmac, uriParses, json).Returned? <==>
              uriParses(uri + OrderEventsPath) && ValidHeaderValue(apiKey)
    ensures !uriParses(uri + OrderEventsPath) ==>
              OrderEventsRequest(uri, apiKey, apiSecret, hmac, uriParses, json) == Panicked(BadUriPanic)
    ensures uriParses(uri + OrderEventsPath) && !ValidHeaderValue(apiKey) ==>
              OrderEventsRequest(uri, apiKey, apiSecret, hmac, uriParses, json) == Panicked(BadHeaderPanic)
  {
    var payload := PrivateClient.PayloadHeader(json);
    var signature := PrivateClient.Sign(hmac, apiSecret, payload);
    PrivateClient.EncodedHeadersValid(json, signature);
    PrivateClient.ConstantHeadersValid();
    FourHeaderValuesValid([
      Header("Content-Type", "text/plain"),
      Header("X-GEMINI-APIKEY", apiKey),
      Header("X-GEMINI-PAYLOAD", payload),
      Header("X-GEMINI-SIGNATURE", signature)]);
  }

  lemma FourHeaderValuesValid(headers: seq<Header>)
    requires |headers| == 4
    ensures PrivateClient.ValidHeaderValues(headers) <==>
      ValidHeaderValue(headers[0].value) && ValidHeaderValue(headers[1].value) &&
      ValidHeaderValue(headers[2].value) && ValidHeaderValue(headers[3].value)
  {
  }

  /** A built upgrade request is a GET of the base URI followed by
      `/v1/order/events`, with no body, no user agent, and the payload header
      that decodes to the JSON and the signature of that header's text. */
  lemma OrderEventsRequestSigned(uri: string, apiKey: string, apiSecret: string, hmac: PrivateClient.Hmac,
                                 uriParses: UriCheck, json: string)
    requires OrderEventsRequest(uri, apiKey, apiSecret, hmac, uriParses, json).Returned?
    ensures var r := OrderEventsRequest(uri, apiKey, apiSecret, hmac, uriParses, json).value;
      r.verb == Get && r.uri == uri + OrderEventsPath && r.body == [] && |r.headers| == 4
    ensures var r := OrderEventsRequest(uri, apiKey, apiSecret, hmac, uriParses, json).value;
      r.headers[0] == Header("Content-Type", "text/plain") && r.headers[1] == Header("X-GEMINI-APIKEY", apiKey)
    ensures var r := OrderEventsRequest(uri, apiKey, apiSecret, hmac, uriParses, json).value;
      r.headers[2].name == "X-GEMINI-PAYLOAD" && Base64.Decode(r.headers[2].value).Some? &&
      Utf8.Decode(Base64.Decode(r.headers[2].value).value) == Some(json)
    ensures var r := OrderEventsRequest(uri, apiKey, apiSecret, hmac, uriParses, json).value;
      r.headers[3] == Header("X-GEMINI-SIGNATURE", PrivateClient.Sign(hmac, apiSecret, r.headers[2].value))
  {
  }

  /** The JSON text of the empty payload for `/v1/order/events`: the `?` on
      its serialisation never fails, since an empty object always
      flattens, so the `SerdeSer` error is never returned. */
  function OrderEventsPayload(clockMillis: I64): (json: string)
    ensures PrivateStructs.Serialize(PrivateStructs.Empty(OrderEventsPath, clockMillis)) == Ok(json)
    ensures json == Render(JObj([Member("nonce", JNum(I64AsU64(clockMillis))), Member("request", JStr(OrderEventsPath))]))
  {
    var p := PrivateStructs.Empty(OrderEventsPath, clockMillis);
    assert PrivateStructs.PayloadJson(p).value.fields == [Member("nonce", JNum(I64AsU64(clockMillis))), Member("request", JStr(OrderEventsPath))];
    PrivateStructs.Serialize(p).value
  }

  /** `connect_private_order_events`: sign the empty payload for
      `/v1/order/events`, dial with the signed upgrade request and hand out
      the stream; no message is sent. A failed dial panics. */
  method ConnectPrivateOrderEvents(uri: string, apiKey: string, apiSecret: string, hmac: PrivateClient.Hmac,
                                   uriParses: UriCheck, clockMillis: I64, parse: Parser,
                                   dial: Result<seq<Result<Frame, WsError>>, WsError>)
    returns (r: Outcome<Result<seq<Result<OrderMessage, GError>>, GError>>, trace: seq<Event>)
    ensures forall e :: e in trace ==> !e.Send?
    ensures var req := OrderEventsRequest(uri, apiKey, apiSecret, hmac, uriParses, OrderEventsPayload(clockMillis));
            req.Panicked? ==> r == Panicked(req.reason) && trace == []
    ensures var req := OrderEventsRequest(uri, apiKey, apiSecret, hmac, uriParses, OrderEventsPayload(clockMillis));
            req.Returned? ==> trace == [DialRequest(req.value)]
    ensures trace != [] && dial.Err? ==> r == Panicked(ConnectPanic(dial.error))
    ensures trace != [] && dial.Ok? ==>
              Stream(dial.value, f => ConvertOrderMsg(parse, f)).Returned? &&
              r == Returned(Ok(Stream(dial.value, f => ConvertOrderMsg(parse, f)).value))
    ensures r.Returned? ==> r.value.Ok? && |r.value.value| == |Delivered(dial.value)|
  {
    var json := OrderEventsPayload(clockMillis);
    var request := OrderEventsRequest(uri, apiKey, apiSecret, hmac, uriParses, json);
    if request.Panicked? {
      return Panicked(request.reason), [];
    }
    trace := [DialRequest(request.value)];
    if dial.Err? {
      return Panicked(ConnectPanic(dial.error)), trace;
    }
    OrderStreamTotal(parse, dial.value);
    r := Returned(Ok(Stream(dial.value, f => ConvertOrderMsg(parse, f)).value));
  }
}
