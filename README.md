# gemini-exchange-rs in Dafny

A model of the core of `gemini-exchange-rs`, a Rust client for the Gemini
exchange. It covers:

- the **request-signing envelope** of the private REST client. The model
  covers the `Payload` with its nonce, path and flattened request fields,
  and its JSON text, base 64 and HMAC-SHA384 signature. It also covers the
  signed POST with its six headers and the path each endpoint posts to.
- the **public REST client**: an unsigned GET with a user agent.
- the **three-tier response decoder** of `call_future`, shared by both
  clients. It decodes the expected type, else reads the exchange's JSON
  string message, else returns a decoding error that keeps the body text.
- the **websocket feeds**, made of:
  - the subscribe message;
  - the tagged market-data and order-control messages;
  - the `OrderStatus` event with its defaults;
  - the two frame classifiers;
  - the filter-then-map stream;
  - the two handshakes.
- the **field codecs** of `structs/order.rs`:
  - the number-or-string order id and its decimal display;
  - the lower-case side;
  - the order-type and option names;
  - `Order::limit` with its per-symbol precision table.

The files are organised as follows:

- `wrappers.dfy` holds `Option`, `Result`, `Outcome` (a value or a panic)
  and the machine integer types.
- `decimal.dfy`, `hex.dfy`, `base64.dfy` and `utf8.dfy` hold the text codecs
  the client relies on. Hex, base 64 and UTF-8 come with their decoders and
  both round trips. The decimal display of a number parses back to it
  (`Decimal.ParseShow`, `Decimal.ValueOfShow`), but not the other way round:
  `"+007"` parses to 7, which displays as `"7"`. What `u64` parsing accepts
  is stated on its own (`Decimal.ParseU64Accepts`, `Decimal.ParseU64Rejects`).
- `json.dfy` holds JSON values, serde_json's compact writer, and the
  decoding combinators serde's derives use.
- `types.dfy` holds the `GError` variants, and `http.dfy` the request
  handed to hyper.
- `order.dfy`, `payload.dfy`, `private.dfy`, `public.dfy`, `responses.dfy`,
  `feed_structs.dfy` and `feed.dfy` follow the crate's source files.

Serialisers and decoders are functions over a JSON value. The types the
client reads from the feeds and from order answers (trades, level-2
updates, acks, fills, order events, order responses, order options, the
side) are also written here as the exchange writes them, and a round-trip
lemma shows that what is written decodes to itself. `Ticker` reads its
prices through the `f64_from_string` parameter, so its contract says
instead exactly which objects decode. Types the client only writes (the signed payload, `Order`,
`OrderType`, the subscribe message) have no decoder in the source; their
contracts state the members in order and what a reader finds under each
key. Panics (`unwrap`, `expect`, `panic!`, `unreachable!`) are the
`Panicked` outcome. The two
websocket handshakes are methods that return the stream and the trace of
what they did on the network.

## Model

| member | source | states |
|---|---|---|
| PrivateClient.Sign | src/private.rs:41-49 | the signature is exactly 96 lower-case hex digits, and it decodes to the HMAC-SHA384 of the payload text's bytes under the secret's bytes |
| PrivateClient.PayloadHeader | src/private.rs:59-60 | the `X-GEMINI-PAYLOAD` value decodes (base 64, then UTF-8) back to the JSON text |
| PrivateClient.Request | src/private.rs:56-71 | a built request is a POST to the base URI followed by the path, with an empty body; an unparsable URI panics before anything else |
| PrivateClient.RequestBuilt | src/private.rs:56-71 | the request is built exactly when the URI parses, the payload serialises and the user agent and key are valid header values; otherwise the matching panic |
| PrivateClient.RequestShape | src/private.rs:57-70 | a built request is a POST to base URI ++ path with an empty body and the six headers User-Agent, Content-Type, X-GEMINI-APIKEY, X-GEMINI-PAYLOAD, X-GEMINI-SIGNATURE, Cache-Control in that order |
| PrivateClient.RequestSigned | src/private.rs:59-68 | the payload header decodes to the serialised payload, and the signature is the HMAC of the payload header's base 64 text, not of the JSON |
| PrivateClient.EncodedHeadersValid | src/private.rs:60-68 | base 64 and lower-case hex are always valid header values, so only the user agent or the key can make the builder panic |
| PrivateClient.EndpointSignsPath | src/private.rs:99-131 | when an endpoint posts to its payload's own `request`, the request goes to base URI ++ that path and the signed text is the flat envelope naming the same path |
| PrivateClient.Balances | src/private.rs:98-103 | built iff URI and headers are valid; a POST to `/v1/balances` whose signed text is `{"nonce":…,"request":"/v1/balances"}` |
| PrivateClient.RecentTrades | src/private.rs:105-110 | a POST to `/v1/mytrades` whose signed text carries that path and the symbol at top level |
| PrivateClient.NewOrder | src/private.rs:112-117 | a POST to `/v1/order/new` whose signed text carries that path and the order's own fields at top level |
| PrivateClient.CancelOrder | src/private.rs:119-124 | a POST to `/v1/order/cancel` whose signed text carries that path and the order id |
| PrivateClient.CancelAllOrders | src/private.rs:126-131 | a POST to `/v1/order/cancel/all` whose signed text carries only the nonce and that path |
| PrivateStructs.Wrap | src/structs/private.rs:13-21 | `request` is exactly the given path, the content is stored unchanged, and the nonce is the clock's `i64` read as `u64` (wrapping below zero) |
| PrivateStructs.Empty | src/private.rs:100 | a payload whose content is the empty object and whose request is the path |
| PrivateStructs.NonceFollowsClock | src/structs/private.rs:14-18 | readings at or after the epoch that do not go back give nonces that do not go back; equal readings give equal nonces |
| PrivateStructs.NonceBeforeEpoch | src/structs/private.rs:14-18 | a reading before the epoch wraps to a nonce above every nonce taken after it |
| PrivateStructs.Flatten | src/structs/private.rs:8-9 | flattening accepts exactly objects (spliced in, members unchanged) and unit/`None` (nothing added); any other content is a serialisation error |
| PrivateStructs.PayloadJson | src/structs/private.rs:4-10 | one flat object: `nonce` first, `request` second, then the content's own members |
| PrivateStructs.Serialize | src/private.rs:59 | serialisation succeeds iff the envelope does, and is then the compact JSON text of the envelope |
| PrivateStructs.PayloadFields | src/structs/private.rs:4-10 | a reader of the envelope finds the nonce, the path and every member of the content at the top level, with no nesting key |
| Base64.DecodeEncode | src/private.rs:60 | the base 64 text of any bytes decodes back to those bytes |
| Base64.EncodeDecode | src/private.rs:60 | any text the decoder accepts is the encoding of what it decodes to |
| Base64.EncodeShape | src/private.rs:60 | the encoding has length 4·⌈n/3⌉ and uses only the alphabet and `=` |
| Utf8.DecodeEncode | src/private.rs:59-60 | the UTF-8 bytes of any text decode back to it |
| Utf8.EncodeDecode | src/private.rs:89 | bytes that decode as UTF-8 are the encoding of their text |
| Hex.DecodeLower | src/private.rs:48 | lower-case hex of any bytes decodes back to them |
| Hex.LowerDecode | src/private.rs:48 | any text the hex decoder accepts is the lower-case hex of its bytes |
| Responses.FromSlice | src/private.rs:86-87 | a UTF-8 body reads exactly as its text through `from_str`; what a body that is not UTF-8 decodes to is the `raw` parameter |
| Responses.FromSliceOfText | src/private.rs:86-87 | on the UTF-8 bytes of any text, `from_slice` and `from_str` agree |
| Responses.Classify | src/private.rs:86-93 | the chain panics only with the `from_utf8` unwrap and only on a body that is not UTF-8; a UTF-8 body never panics |
| Responses.ClassifyCases | src/private.rs:86-93 | the body gives `Ok(u)` iff its text decodes as U, or it is not UTF-8 and still decodes as U; else `Gemini(m)` iff its text is the JSON string m; else `SerdeDe` with the first attempt's error and the whole body as text; a panic iff the body is not UTF-8 and does not decode as U |
| Responses.CallFuture | src/private.rs:83-93 | a transport failure is `Http` and nothing is decoded; otherwise the body goes through the fallback chain |
| PublicClient.Request | src/public.rs:52-57 | built iff URI and user agent are valid; then a GET to base URI ++ path with only the User-Agent header, no signing headers, and an empty body |
| PublicClient.GetSymbols | src/public.rs:87-90 | a GET of `/v1/symbols` |
| PublicClient.GetTicker | src/public.rs:92-96 | a GET of `/v1/pubticker/` followed by the product exactly |
| PublicClient.DecodeSymbols | src/public.rs:87 | a list of strings is accepted iff every element is a string, with the same elements in order |
| PublicClient.DecodeTicker | src/public.rs:25-33 | an object decodes iff `ask`, `bid` and `last` are each present once and read by `f64_from_string`, and the ticker holds what was read; an absent member, the others being readable or absent, is a missing field, the first in declaration order |
| Http.UserAgent | src/private.rs:23-24 | the user agent is `demo-gemini-client/` followed by the crate version |
| Decimal.ValueOfShow | src/structs/order.rs:8-11 | the decimal display of a number reads back as that number |
| Decimal.ParseU64Accepts | src/structs/order.rs:33 | `str::parse::<u64>` accepts exactly an optional `+` then at least one digit and only digits, with value below 2^64, and returns that value |
| Decimal.ParseU64Rejects | src/structs/order.rs:33 | the empty text, a non-digit, or a value of 2^64 or more is refused |
| Decimal.ParseShow | src/structs/order.rs:8-11 | parsing the display of a `u64` gives it back |
| OrderStructs.ShowOrderId | src/structs/order.rs:8-11 | the display is a non-empty run of digits without leading zeros whose value is the id |
| OrderStructs.DecodeOrderId | src/structs/order.rs:14-44 | a negative number or a float is an invalid type; the empty string fails to parse |
| OrderStructs.DecodeOrderIdAccepts | src/structs/order.rs:22-34 | the id decoder accepts exactly an integer in `u64` range (as is) or a string `u64::from_str` accepts (its value) |
| OrderStructs.DecodeShowOrderId | src/structs/order.rs:8-11 | the display text of an id, and its number, both decode back to the id |
| OrderStructs.Lowercase | src/structs/order.rs:63-70 | the side serialises as `"buy"` or `"sell"` |
| OrderStructs.DecodeLowercase | src/structs/order.rs:72-98 | accepts exactly `"buy"` and `"sell"`; any other string is a custom error carrying it |
| OrderStructs.LowercaseRoundTrip | src/structs/order.rs:64-89 | the lower-case decoder inverts the serialiser, and `"Buy"`/`"Sell"` are refused |
| OrderStructs.OptionName | src/structs/order.rs:53-61 | each option is written as one of the five kebab-case names |
| OrderStructs.DecodeOrderOption | src/structs/order.rs:53-61 | an option is accepted iff it is one of the five kebab-case names |
| OrderStructs.DecodeOptionJson | src/structs/order.rs:53-61 | the option decoder inverts the option names |
| OrderStructs.DecodeOrderOptionsJson | src/structs/order.rs:127 | a list of options round-trips through its array of names |
| OrderStructs.OrderTypeName | src/structs/order.rs:106-116 | `Limit` is `"exchange limit"` and `StopLimit` is `"exchange stop limit"` |
| OrderStructs.OrderJson | src/structs/order.rs:118-131 | an order is an object whose keys are, in order, `price`, `amount`, `side`, `symbol`, `client_order_id`, `options`, `type`; under each a reader finds that field's value: the two amounts, the symbol and the client id as strings, the side in lower case, the options as their names and the order type's name |
| OrderStructs.Precision | src/structs/order.rs:134-141 | only `btcusd`, `ltcusd` and `ethusd` are known, with size decimals 8/5/6 and price decimals 2; any other symbol panics with the source's message |
| OrderStructs.FormatPrices | src/structs/order.rs:134-141 | size and price are formatted with the symbol's decimals, or the unknown-symbol panic |
| OrderStructs.LimitOrder | src/structs/order.rs:143-159 | options are `[maker-or-cancel]` exactly when post-only, else empty; type Limit; side, symbol and client order id copied; amounts formatted per symbol |
| OrderStructs.DecodeOrderResponse | src/structs/order.rs:162-191 | a decoded response comes from an object whose `order_id` member decodes to the response's id |
| OrderStructs.DecodeOrderResponseJson | src/structs/order.rs:162-191 | every order response the exchange can write decodes to itself |
| Feed.SubscriptionTypeJson | src/wsfeed.rs:14-18 | `L2` serialises as `"l2"` |
| Feed.SubscriptionJson | src/wsfeed.rs:20-24 | a subscription is `{"name":…,"symbols":[…]}` with the symbols in order |
| Feed.SubscribeJson | src/wsfeed.rs:26-31 | the subscribe message is `{"type":"subscribe","subscriptions":[…]}` with the given subscriptions in order |
| Feed.ConvertMdMsg | src/wsfeed.rs:33-45 | returns iff the frame is text; a decoded message is mapped by `From`, otherwise `InternalError(SerdeDe)` with the decoder's error and the original text |
| Feed.ConvertOrderMsg | src/wsfeed.rs:47-65 | returns iff the frame is text; any other frame panics |
| Feed.ConvertOrderMsgCases | src/wsfeed.rs:49-60 | control first: a decoded control message is never `Orders`; `Orders` iff the control decode fails and the array decodes, with the same elements; otherwise `InternalError` with the array attempt's error and the text |
| Feed.OrdersOfArray | src/wsfeed.rs:50-55 | a frame holding a JSON array is `Orders` exactly when the array decodes as order events |
| Feed.Delivered | src/wsfeed.rs:86 | the filter keeps only transport errors and text frames, never more than it got |
| Feed.DeliveredAppend | src/wsfeed.rs:86 | filtering distributes over concatenation, so arrival order is kept |
| Feed.DeliveredKeepsData | src/wsfeed.rs:86 | items that are all errors or text frames pass unchanged |
| Feed.Stream | src/wsfeed.rs:85-89 | the stream never holds more items than the socket delivered |
| Feed.StreamIsFilterThenMap | src/wsfeed.rs:85-89 | with a conversion total on text, the stream never panics and is the filter followed by the conversion, one output per delivered item in order, transport errors becoming `Websocket` |
| Feed.MarketDataStreamTotal | src/wsfeed.rs:85-89 | the market-data stream never reaches `unreachable!()` and yields one item per delivered frame or error |
| Feed.OrderStreamTotal | src/wsfeed.rs:126-130 | the order-event stream never reaches `unreachable!()` and yields one item per delivered frame or error |
| Feed.ConnectPublicData | src/wsfeed.rs:73-95 | dials `uri ++ "/v2/marketdata"`; a failed dial is `Websocket` and nothing is sent; otherwise exactly one subscribe text is sent before the stream is handed out, and a failed send is an error with no stream |
| Feed.OrderEventsRequest | src/wsfeed.rs:112-119 | a built upgrade request is a GET to the URI followed by `/v1/order/events`, with an empty body |
| Feed.OrderEventsRequestBuilt | src/wsfeed.rs:112-119 | the upgrade request is built iff the URI parses and the key is a valid header value; otherwise the matching panic |
| Feed.OrderEventsRequestSigned | src/wsfeed.rs:102-119 | a GET of `uri ++ "/v1/order/events"`, no body, headers Content-Type, X-GEMINI-APIKEY, X-GEMINI-PAYLOAD (decodes to the JSON) and X-GEMINI-SIGNATURE (the signature of the payload header's text) |
| Feed.OrderEventsPayload | src/wsfeed.rs:104-108 | the empty payload for `/v1/order/events` always serialises, to `{"nonce":…,"request":"/v1/order/events"}` |
| Feed.ConnectPrivateOrderEvents | src/wsfeed.rs:97-133 | signs the empty payload, dials with the signed request and sends nothing; a failed dial panics with `connect-async` followed by the dial error; otherwise the filter-then-map order stream is returned |
| FeedStructs.DecodeTrade | src/structs/wsfeed.rs:7-13 | a decoded trade reads `price`, `quantity` and the lower-case `side` members |
| FeedStructs.DecodeTradeJson | src/structs/wsfeed.rs:7-13 | every trade the exchange can write decodes to itself |
| FeedStructs.DecodeLevel2Change | src/structs/wsfeed.rs:15-21 | accepted iff an array of exactly three elements `[side, price, quantity]`; a short array is an invalid length of its size; a longer one whose first three elements read is an invalid length of its size against "3 elements in sequence"; an object is an invalid type |
| FeedStructs.DecodeLevel2ChangeJson | src/structs/wsfeed.rs:15-21 | every change written as a three-element array decodes to itself |
| FeedStructs.DecodeAuctionEvent | src/structs/wsfeed.rs:33-34 | any object is an auction event |
| FeedStructs.DecodeHeartbeat | src/structs/wsfeed.rs:44-45 | any object is a heartbeat |
| FeedStructs.DecodeLevel2 | src/structs/wsfeed.rs:36-42 | `symbol` is required; `changes` or `trades` decoded as absent was missing or `null` |
| FeedStructs.DecodeLevel2Json | src/structs/wsfeed.rs:36-42 | every update the exchange can write decodes to itself |
| FeedStructs.DecodeInputMD | src/structs/wsfeed.rs:47-54 | a decoded message has a `type` member naming its variant (`l2_updates`, `trade` or `heartbeat`); an object without one is missing `type` |
| FeedStructs.DecodeInputMDTagged | src/structs/wsfeed.rs:47-54 | an object tagged by its first member decodes as that variant from its other members |
| FeedStructs.DecodeInputMDJson | src/structs/wsfeed.rs:47-54 | every market-data message the exchange can write decodes to itself |
| FeedStructs.FromInputMD | src/structs/wsfeed.rs:64-72 | L2Updates→Level2, Trade→Trade, Heartbeat→Heartbeat with the payload kept; never `InternalError` |
| FeedStructs.DecodeAck | src/structs/wsfeed.rs:74-79 | a decoded ack reads the camel-case `accountId` and `subscriptionId` members |
| FeedStructs.AckKeysAreCamelCase | src/structs/wsfeed.rs:75 | snake-case keys are not read: the object misses `accountId` |
| FeedStructs.DecodeAckJson | src/structs/wsfeed.rs:74-79 | every acknowledgement the exchange can write decodes to itself |
| FeedStructs.DecodeOrderEventType | src/structs/wsfeed.rs:81-92 | accepted iff one of the eight snake-case names; any other string is an unknown variant |
| FeedStructs.DecodeEventTypeName | src/structs/wsfeed.rs:81-92 | the event-type decoder inverts the names |
| FeedStructs.DecodeFillLiquidity | src/structs/wsfeed.rs:94-101 | accepted iff one of the five variant names as written |
| FeedStructs.DecodeLiquidityName | src/structs/wsfeed.rs:94-101 | the liquidity decoder inverts the names, and `"maker"` is refused |
| FeedStructs.DecodeFillJson | src/structs/wsfeed.rs:103-111 | every fill the exchange can write decodes to itself |
| FeedStructs.DecodeOrderStatus | src/structs/wsfeed.rs:117-157 | a decoded event comes from an object whose `order_id` member decodes to the event's id |
| FeedStructs.DecodeOrderStatusOfMembers | src/structs/wsfeed.rs:117-157 | an object whose members carry the 21 fields (amounts present or absent and "0.00") decodes to that event, whatever other members it has |
| FeedStructs.DecodeOrderStatusJson | src/structs/wsfeed.rs:117-157 | every order event the exchange can write decodes to itself |
| FeedStructs.DecodeWithoutAmounts | src/structs/wsfeed.rs:141-148 | an object without the three amounts decodes with each of them "0.00" |
| FeedStructs.DecodeOrderStatusDefaults | src/structs/wsfeed.rs:113-115 | an event written without its three amounts decodes with avg_execution_price, executed_amount and remaining_amount all "0.00" |
| FeedStructs.DecodeMissingOriginalAmount | src/structs/wsfeed.rs:150 | when the earlier fields decode and `original_amount` is absent, the event is refused as missing it |
| FeedStructs.OrderStatusNeedsOriginalAmount | src/structs/wsfeed.rs:150 | a written event less its `original_amount` member is refused as missing it |
| FeedStructs.DecodeMissingPrice | src/structs/wsfeed.rs:152 | when the earlier fields decode and `price` is absent, the event is refused as missing it |
| FeedStructs.OrderStatusNeedsPrice | src/structs/wsfeed.rs:152 | a written event less its `price` member is refused as missing it |
| FeedStructs.DecodeInputOrder | src/structs/wsfeed.rs:159-165 | a decoded control message has a `type` of `heartbeat` or `subscription_ack`; no `type` is a missing field; an array is refused |
| FeedStructs.DecodeInputOrderJson | src/structs/wsfeed.rs:159-165 | every control message the exchange can write decodes to itself |
| FeedStructs.OrderEventIsNotControl | src/structs/wsfeed.rs:159-165 | an object whose `type` names an order event is never a control message |
| FeedStructs.FromInputOrder | src/structs/wsfeed.rs:175-182 | Heartbeat→Heartbeat and SubscriptionAck→SubscriptionAck with the ack kept; never `Orders` or `InternalError` |
| Json.DecodeTag | src/structs/wsfeed.rs:48 | an internally tagged enum accepts iff the tag member is present once and names a variant; no tag member is a missing field; a tag that is not a string is an invalid type against "variant identifier" |
| Json.DecodeName | src/structs/wsfeed.rs:81-101 | a unit variant is accepted iff the value is a string among its names; any other string is an unknown variant; a number, bool, array or null is serde_json's "expected value" |

## Left out

- Transport: the hyper client, TLS, the connection pool and sending the
  request (src/private.rs:26-37, 81-84; src/public.rs:39-46, 69-72). The
  response body, or its transport failure, is a parameter of
  `Responses.CallFuture`.
- `connect_async` and the websocket I/O. The outcome of the dial (the frames
  the server will send, or a failure) and of the send are parameters of the
  two handshake methods. The websocket upgrade headers that tungstenite
  adds are not modelled.
- HMAC-SHA384 is a parameter `hmac` that returns 48 bytes. SHA-384 itself is
  not modelled.
- URI syntax (`str::parse::<Uri>`) is a parameter `uriParses`.
- The JSON lexer (`serde_json::from_str`) is a parameter `parse` from text
  to a JSON value. Decoding from that value on is concrete.
- Responses.FromSlice: on a body that is not UTF-8, serde_json's slice
  reader checks the strings it reads but skips the strings of ignored
  members unchecked, so whether such a body decodes depends on the target
  type and on where the bad bytes sit. The model takes that outcome as a
  parameter `raw` and does not derive it. For `String` it is always an error
  (`Responses.RawString`).
- Float formatting (`format!` with 8, 5, 6 or 2 decimals) is a parameter `format` of
  `OrderStructs.FormatPrices`, and `f64_from_string` is a parameter of
  `PublicClient.DecodeTicker`. Only the table of decimals is modelled.
- Json.Render: floats are written as mantissa `e` exponent, not by serde's
  shortest-float writer. The model never writes a float.
- The wall clock `Utc::now()` is a parameter `clockMillis`.
- `CARGO_PKG_VERSION` is a field `crateVersion`.
- Json.Members: derived struct decoders accept only objects. serde also
  accepts a struct as a positional array, and an internally tagged enum as
  `[tag, …]`.
- FeedStructs.DecodeOrderStatus: serde decodes the members present in the
  order of the object's keys and reports the first that fails; missing
  fields are reported only after the whole object, in declaration order.
  The model reads the fields in declaration order and stops at the first
  that is missing or fails. The two agree when at most one field is wrong.
  So FeedStructs.DecodeMissingOriginalAmount and
  FeedStructs.DecodeMissingPrice give the missing field even when a later
  present member (say a `price` of `5`) is malformed, where serde reports
  that member's invalid type. The same holds for the other derived
  decoders (`OrderStructs.DecodeOrderResponse`, `FeedStructs.DecodeLevel2`,
  `FeedStructs.DecodeTrade`, `FeedStructs.DecodeAck`,
  `PublicClient.DecodeTicker`); the missing-field clauses of
  `PublicClient.DecodeTicker` assume the other members readable or absent,
  where the two orders agree.
- Json.DecodeName: the `{"Variant": null}` map form of a unit variant is not
  accepted; an object is reported as an invalid type.
- `PastTrades` and `CancelRequest` are used by src/private.rs but not
  defined in the modelled files. They are written as `{"symbol": …}` and `{"order_id": n}`.
- The answers of the private endpoints (`AccountBalance`, `AccountTrade`,
  `CancelResponse`) are used by src/private.rs but not defined in the
  modelled files. Their decoders are not modelled.
- `Candle`, `VolumeInfo` and the Stream/Sink trait aliases are left out:
  they hold no logic the core uses.
- src/lib.rs and src/structs/mod.rs are left out: they hold only constants
  and re-exports.
- `GError::Serde { error, data }` in src/types.rs is modelled as the
  `SerdeDe` and `SerdeSer` variants that the call sites construct. The
  `Display` texts are not modelled.
- src/structs/wsfeed.rs:1 imports `OrderOption`, which
  src/structs/order.rs:55 declares as `OrderOptions`. Both are the
  `OrderOption` datatype here.
- `Payload::empty(p)` is used by src/private.rs and src/wsfeed.rs but not
  defined in the modelled files. It is modelled as `wrap(p, {})`.
- Panic texts are modelled. An `expect(m)` on an error panics with `m`, `: `
  and the error; the model writes the error as its message text
  (`SerError.message`, `WsError.description`), not Rust's `Debug` rendering
  of it. The exact error texts of the hyper builder are approximations.
- Feed.ConnectPrivateOrderEvents: the `SerdeSer` error return at
  src/wsfeed.rs:106 cannot happen, because the empty payload always
  serialises (`Feed.OrderEventsPayload`). The method therefore never returns
  an error.
- Feed.ConnectPublicData and Feed.ConnectPrivateOrderEvents return the whole
  finite stream at once. The Rust streams are lazy; the model keeps their
  order and contents, not their timing.
