/** The order structures of src/structs/order.rs: the order id and its two
    wire forms, the lower-case side codec, the option and order-type names,
    the limit-order builder and the order response decoder. */
module OrderStructs {
  import opened Wrappers
  import opened Primitives
  import Decimal
  import opened Json

  // ---------------------------------------------------------------------
  // Order id

  /** `OrderId(u64)`. */
  datatype OrderId = OrderId(id: U64)

  /** `Display for OrderId`: the decimal digits of the number. */
  function ShowOrderId(o: OrderId): (s: string)
    ensures |s| > 0 && Decimal.AllDigits(s)
    ensures s[0] == '0' ==> s == "0"
    ensures Decimal.Value(s) == o.id
  {
    Decimal.ValueOfShow(o.id);
    Decimal.Show(o.id)
  }

  /** What the `OrderIdInQuotes` visitor reports it expects. */
  const OrderIdExpecting: string := "i64 as a number or string"

  /** `order_id_from_string`: `deserialize_any` with a visitor that has only
      `visit_u64` and `visit_str`. A string must parse as a `u64`, and the
      parse error becomes a custom error; every other kind of value (a
      negative or fractional number, a boolean, null, an array, an object)
      falls to serde's default `invalid type`. */
  function DecodeOrderId(j: Json): (r: Result<OrderId, DeError>)
    ensures j.JNum? && j.n < 0 && j.n >= -0x8000_0000_0000_0000 ==> r == Err(InvalidType(USigned(j.n), OrderIdExpecting))
    ensures j.JFloat? ==> r == Err(InvalidType(UFloat, OrderIdExpecting))
    ensures j.JStr? && j.s == [] ==> r == Err(Custom("cannot parse integer from empty string"))
  {
    if j.JNum? && 0 <= j.n < U64_LIMIT then Ok(OrderId(j.n))
    else if j.JStr? then
      match Decimal.ParseU64(j.s)
      case Ok(n) => Ok(OrderId(n))
      case Err(kind) => Err(Custom(Decimal.IntErrorMessage(kind)))
    else Err(InvalidType(UnexpectedOf(j), OrderIdExpecting))
  }

  /** Exactly two kinds of value are accepted: an integer from 0 to 2^64 - 1,
      taken as it is, and a string of decimal digits (one leading `+`
      allowed) whose value fits in 64 bits. */
  lemma DecodeOrderIdAccepts(j: Json)
    ensures DecodeOrderId(j).Ok? <==>
      (j.JNum? && 0 <= j.n < U64_LIMIT) ||
      (j.JStr? && |Decimal.Unsigned(j.s)| > 0 && Decimal.AllDigits(Decimal.Unsigned(j.s)) &&
       Decimal.Value(Decimal.Unsigned(j.s)) < U64_LIMIT)
    ensures DecodeOrderId(j).Ok? && j.JNum? ==> DecodeOrderId(j).value.id == j.n
    ensures DecodeOrderId(j).Ok? && j.JStr? ==> DecodeOrderId(j).value.id == Decimal.Value(Decimal.Unsigned(j.s))
  {
    if j.JStr? {
      Decimal.ParseU64Accepts(j.s);
    }
  }

  /** Round trip: the `Display` text of an order id, sent as a JSON string,
      decodes to the same id, and so does the bare number. */
  lemma DecodeShowOrderId(o: OrderId)
    ensures DecodeOrderId(JStr(ShowOrderId(o))) == Ok(o)
    ensures DecodeOrderId(JNum(o.id)) == Ok(o)
  {
    Decimal.ParseShow(o.id);
  }

  // ---------------------------------------------------------------------
  // Order side

  /** `OrderSide`. */
  datatype OrderSide = Buy | Sell

  /** `OrderSide::lowercase`, the serialiser used for the side of an order. */
  function Lowercase(side: OrderSide): (j: Json)
    ensures j.JStr? && (j.s == "buy" || j.s == "sell")
  {
    JStr(match side
         case Buy => "buy"
         case Sell => "sell")
  }

  /** What the `LowercaseOrderSide` visitor reports it expects. */
  const LowercaseExpecting: string := "'buy' or 'sell' as lowercase"

  /** `order_side_lowercase`: the strings `buy` and `sell` exactly; any other
      string is a custom error carrying that string, any other value an
      `invalid type`. */
  function DecodeLowercase(j: Json): (r: Result<OrderSide, DeError>)
    ensures r.Ok? <==> j == JStr("buy") || j == JStr("sell")
    ensures j.JStr? && r.Err? ==> r.error == Custom(j.s)
  {
    if j == JStr("buy") then Ok(Buy)
    else if j == JStr("sell") then Ok(Sell)
    else if j.JStr? then Err(Custom(j.s))
    else Err(InvalidType(UnexpectedOf(j), LowercaseExpecting))
  }

  /** The lower-case decoder inverts the lower-case serialiser, and the
      decoder is case-sensitive: the capitalised names are refused. */
  lemma LowercaseRoundTrip(side: OrderSide)
    ensures DecodeLowercase(Lowercase(side)) == Ok(side)
    ensures DecodeLowercase(JStr("Buy")) == Err(Custom("Buy"))
    ensures DecodeLowercase(JStr("Sell")) == Err(Custom("Sell"))
  {
  }

  // ---------------------------------------------------------------------
  // Order options and order type

  /** `OrderOptions`, written in kebab case. */
  datatype OrderOption = MakerOrCancel | ImmediateOrCancel | FillOrKill | AuctionOnly | IndicationOfInterest

  const OptionNames: seq<string> :=
    ["maker-or-cancel", "immediate-or-cancel", "fill-or-kill", "auction-only", "indication-of-interest"]

  const OptionVariants: seq<OrderOption> :=
    [MakerOrCancel, ImmediateOrCancel, FillOrKill, AuctionOnly, IndicationOfInterest]

  /** The wire name of an option: its variant name in kebab case. */
  function OptionName(o: OrderOption): (s: string)
    ensures s in OptionNames
  {
    match o
    case MakerOrCancel => "maker-or-cancel"
    case ImmediateOrCancel => "immediate-or-cancel"
    case FillOrKill => "fill-or-kill"
    case AuctionOnly => "auction-only"
    case IndicationOfInterest => "indication-of-interest"
  }

  function OptionJson(o: OrderOption): Json {
    JStr(OptionName(o))
  }

  /** The derived decoder of `OrderOptions`: one of the five kebab-case names. */
  function DecodeOrderOption(j: Json): (r: Result<OrderOption, DeError>)
    ensures r.Ok? <==> j.JStr? && j.s in OptionNames
  {
    DecodeName(j, OptionNames, OptionVariants, "string or map")
  }

  /** The option decoder inverts the option serialiser. */
  lemma DecodeOptionJson(o: OrderOption)
    ensures DecodeOrderOption(OptionJson(o)) == Ok(o)
  {
    var r := DecodeOrderOption(OptionJson(o));
    var i :| 0 <= i < |OptionNames| && OptionNames[i] == OptionName(o) && r.value == OptionVariants[i];
  }

  /** `Vec<OrderOptions>`. */
  function DecodeOrderOptions(j: Json): Result<seq<OrderOption>, DeError> {
    DecodeSeq(j, DecodeOrderOption)
  }

  /** A list of options, written as an array of names, decodes back to itself. */
  lemma DecodeOrderOptionsJson(xs: seq<OrderOption>)
    ensures DecodeOrderOptions(JArr(EncodeItems(xs, OptionJson))) == Ok(xs)
  {
    forall o ensures DecodeOrderOption(OptionJson(o)) == Ok(o) {
      DecodeOptionJson(o);
    }
    DecodeEncodedItems(xs, OptionJson, DecodeOrderOption);
  }

  /** `OrderType`. */
  datatype OrderType = Limit | StopLimit

  /** The hand-written serialiser of `OrderType`. */
  function OrderTypeName(t: OrderType): (s: string)
    ensures s == "exchange limit" || s == "exchange stop limit"
    ensures t.Limit? <==> s == "exchange limit"
  {
    match t
    case Limit => "exchange limit"
    case StopLimit => "exchange stop limit"
  }

  // ---------------------------------------------------------------------
  // Order

  /** `Order`, the body of a new-order request. */
  datatype Order = Order(
    price: string,
    amount: string,
    side: OrderSide,
    symbol: string,
    clientOrderId: string,
    options: seq<OrderOption>,
    orderType: OrderType)

  /** The keys the derived serialiser of `Order` writes, in declaration
      order, with `order_type` renamed to `type`. */
  const OrderKeys: seq<string> :=
    ["price", "amount", "side", "symbol", "client_order_id", "options", "type"]

  lemma OrderKeysDistinct()
    ensures forall i, k :: 0 <= i < k < |OrderKeys| ==> OrderKeys[i] != OrderKeys[k]
  {
  }

  /** The derived serialiser of `Order`: one member per field, in
      declaration order, the side in lower case, the options as an array of
      their names and the order type under `type`; a reader finds every
      field's value under its key. */
  function OrderJson(o: Order): (j: Json)
    ensures j.JObj? && |j.fields| == |OrderKeys| && DistinctKeys(j.fields)
    ensures forall i :: 0 <= i < |OrderKeys| ==> j.fields[i].key == OrderKeys[i]
    ensures Find(j.fields, "price") == Present(JStr(o.price))
    ensures Find(j.fields, "amount") == Present(JStr(o.amount))
    ensures Find(j.fields, "side") == Present(Lowercase(o.side))
    ensures Find(j.fields, "symbol") == Present(JStr(o.symbol))
    ensures Find(j.fields, "client_order_id") == Present(JStr(o.clientOrderId))
    ensures Find(j.fields, "options") == Present(JArr(EncodeItems(o.options, OptionJson)))
    ensures Find(j.fields, "type") == Present(JStr(OrderTypeName(o.orderType)))
  {
    var values := [
      JStr(o.price), JStr(o.amount), Lowercase(o.side), JStr(o.symbol), JStr(o.clientOrderId),
      JArr(EncodeItems(o.options, OptionJson)), JStr(OrderTypeName(o.orderType))];
    OrderKeysDistinct();
    var j := Object(OrderKeys, values);
    FindDistinct(j.fields, 0);
    FindDistinct(j.fields, 1);
    FindDistinct(j.fields, 2);
    FindDistinct(j.fields, 3);
    FindDistinct(j.fields, 4);
    FindDistinct(j.fields, 5);
    FindDistinct(j.fields, 6);
    j
  }

  /** Formatting a float `x` with `N` decimals: floating-point formatting is not
      part of this model, so the builder takes it as a parameter. */
  type Formatter<!F> = (F, nat) -> string

  /** The decimals `format_prices` uses for a symbol, size first: only three
      symbols are known, and any other one panics. */
  function Precision(symbol: string): (r: Outcome<(nat, nat)>)
    ensures r.Returned? <==> symbol == "btcusd" || symbol == "ltcusd" || symbol == "ethusd"
    ensures r.Returned? ==> r.value.1 == 2
    ensures symbol == "btcusd" ==> r == Returned((8, 2))
    ensures symbol == "ltcusd" ==> r == Returned((5, 2))
    ensures symbol == "ethusd" ==> r == Returned((6, 2))
    ensures r.Panicked? ==> r.reason == "unknown symbol for formatting: " + symbol
  {
    if symbol == "btcusd" then Returned((8, 2))
    else if symbol == "ltcusd" then Returned((5, 2))
    else if symbol == "ethusd" then Returned((6, 2))
    else Panicked("unknown symbol for formatting: " + symbol)
  }

  /** `Order::format_prices`: size and price written with the symbol's
      decimals. */
  function FormatPrices<F>(symbol: string, size: F, price: F, format: Formatter<F>): (r: Outcome<(string, string)>)
    ensures r.Returned? <==> Precision(symbol).Returned?
    ensures r.Returned? ==> r.value == (format(size, Precision(symbol).value.0), format(price, 2))
    ensures r.Panicked? ==> r == Panicked(Precision(symbol).reason)
  {
    var (sizeDecimals, priceDecimals) :- Precision(symbol);
    Returned((format(size, sizeDecimals), format(price, priceDecimals)))
  }

  /** `Order::limit`: a limit order for a known symbol, with `maker-or-cancel`
      as its only option when the order is post-only and no option otherwise. */
  function LimitOrder<F>(symbol: string, clientOid: string, side: OrderSide, size: F, price: F,
                         postOnly: bool, format: Formatter<F>): (r: Outcome<Order>)
    ensures r.Returned? <==> symbol == "btcusd" || symbol == "ltcusd" || symbol == "ethusd"
    ensures r.Panicked? ==> r.reason == "unknown symbol for formatting: " + symbol
    ensures r.Returned? ==> r.value.options == (if postOnly then [MakerOrCancel] else [])
    ensures r.Returned? ==> (MakerOrCancel in r.value.options <==> postOnly)
    ensures r.Returned? ==> r.value.orderType == Limit && r.value.side == side
    ensures r.Returned? ==> r.value.symbol == symbol && r.value.clientOrderId == clientOid
    ensures r.Returned? ==> r.value.amount == format(size, Precision(symbol).value.0)
    ensures r.Returned? ==> r.value.price == format(price, 2)
  {
    var (sizeText, priceText) :- FormatPrices(symbol, size, price, format);
    var options := if postOnly then [MakerOrCancel] else [];
    Returned(Order(priceText, sizeText, side, symbol, clientOid, options, Limit))
  }

  // ---------------------------------------------------------------------
  // Order response

  /** `OrderResponse`, the answer to a new-order or cancel request. */
  datatype OrderResponse = OrderResponse(
    orderId: OrderId,
    clientOrderId: Option<string>,
    symbol: string,
    exchange: string,
    price: string,
    avgExecutionPrice: string,
    side: OrderSide,
    orderType: string,
    options: seq<OrderOption>,
    isLive: bool,
    isCancelled: bool,
    reason: Option<string>,
    executedAmount: string,
    remainingAmount: string,
    originalAmount: string,
    isHidden: bool)

  /** The derived decoder of `OrderResponse` (unknown keys are ignored). */
  function DecodeOrderResponse(j: Json): (r: Result<OrderResponse, DeError>)
    ensures r.Ok? ==> j.JObj? && Find(j.fields, "order_id").Present? &&
                      DecodeOrderId(Find(j.fields, "order_id").value) == Ok(r.value.orderId)
  {
    var f :- Members(j, "struct OrderResponse");
    var orderId :- Required(f, "order_id", DecodeOrderId);
    var clientOrderId :- Optional(f, "client_order_id", DecodeString);
    var symbol :- Required(f, "symbol", DecodeString);
    var exchange :- Required(f, "exchange", DecodeString);
    var price :- Required(f, "price", DecodeString);
    var avgExecutionPrice :- Required(f, "avg_execution_price", DecodeString);
    var side :- Required(f, "side", DecodeLowercase);
    var orderType :- Required(f, "type", DecodeString);
    var options :- Required(f, "options", DecodeOrderOptions);
    var isLive :- Required(f, "is_live", DecodeBool);
    var isCancelled :- Required(f, "is_cancelled", DecodeBool);
    var reason :- Optional(f, "reason", DecodeString);
    var executedAmount :- Required(f, "executed_amount", DecodeString);
    var remainingAmount :- Required(f, "remaining_amount", DecodeString);
    var originalAmount :- Required(f, "original_amount", DecodeString);
    var isHidden :- Required(f, "is_hidden", DecodeBool);
    Ok(OrderResponse(orderId, clientOrderId, symbol, exchange, price, avgExecutionPrice, side, orderType,
                     options, isLive, isCancelled, reason, executedAmount, remainingAmount, originalAmount, isHidden))
  }

  /** The response as the exchange writes it: the order id as a number, the
      side in lower case, absent optional fields as `null`. */
  function OrderResponseJson(x: OrderResponse): (j: Json)
    ensures j.JObj? && DistinctKeys(j.fields)
  {
    var values := [
      JNum(x.orderId.id), EncodeOption(x.clientOrderId, StrJson), JStr(x.symbol), JStr(x.exchange),
      JStr(x.price), JStr(x.avgExecutionPrice), Lowercase(x.side), JStr(x.orderType),
      JArr(EncodeItems(x.options, OptionJson)), JBool(x.isLive), JBool(x.isCancelled),
      EncodeOption(x.reason, StrJson), JStr(x.executedAmount), JStr(x.remainingAmount),
      JStr(x.originalAmount), JBool(x.isHidden)];
    OrderResponseKeysDistinct();
    Object(OrderResponseKeys, values)
  }

  const OrderResponseKeys: seq<string> :=
    ["order_id", "client_order_id", "symbol", "exchange", "price", "avg_execution_price", "side", "type",
     "options", "is_live", "is_cancelled", "reason", "executed_amount", "remaining_amount",
     "original_amount", "is_hidden"]

  lemma OrderResponseKeysDistinct()
    ensures forall i, k :: 0 <= i < k < |OrderResponseKeys| ==> OrderResponseKeys[i] != OrderResponseKeys[k]
  {
  }

  /** Fields 1 to 4 of a written response decode to the values they carry. */
  lemma DecodeOrderResponseFields1(f: seq<Member>, x: OrderResponse)
    requires DistinctKeys(f) && |f| == 16
    requires f[0] == Member("order_id", JNum(x.orderId.id))
    requires f[1] == Member("client_order_id", EncodeOption(x.clientOrderId, StrJson))
    requires f[2] == Member("symbol", JStr(x.symbol))
    requires f[3] == Member("exchange", JStr(x.exchange))
    ensures Required(f, "order_id", DecodeOrderId) == Ok(x.orderId)
    ensures Optional(f, "client_order_id", DecodeString) == Ok(x.clientOrderId)
    ensures Required(f, "symbol", DecodeString) == Ok(x.symbol)
    ensures Required(f, "exchange", DecodeString) == Ok(x.exchange)
  {
    DecodeShowOrderId(x.orderId);
    RequiredAt(f, 0, DecodeOrderId);
    DecodeEncodedOption(x.clientOrderId, StrJson, DecodeString);
    OptionalAt(f, 1, DecodeString);
    RequiredAt(f, 2, DecodeString);
    RequiredAt(f, 3, DecodeString);
  }

  /** Fields 5 to 8 of a written response decode to the values they carry. */
  lemma DecodeOrderResponseFields2(f: seq<Member>, x: OrderResponse)
    requires DistinctKeys(f) && |f| == 16
    requires f[4] == Member("price", JStr(x.price))
    requires f[5] == Member("avg_execution_price", JStr(x.avgExecutionPrice))
    requires f[6] == Member("side", Lowercase(x.side))
    requires f[7] == Member("type", JStr(x.orderType))
    ensures Required(f, "price", DecodeString) == Ok(x.price)
    ensures Required(f, "avg_execution_price", DecodeString) == Ok(x.avgExecutionPrice)
    ensures Required(f, "side", DecodeLowercase) == Ok(x.side)
    ensures Required(f, "type", DecodeString) == Ok(x.orderType)
  {
    RequiredAt(f, 4, DecodeString);
    RequiredAt(f, 5, DecodeString);
    LowercaseRoundTrip(x.side);
    RequiredAt(f, 6, DecodeLowercase);
    RequiredAt(f, 7, DecodeString);
  }

  /** Fields 9 to 12 of a written response decode to the values they carry. */
  lemma DecodeOrderResponseFields3(f: seq<Member>, x: OrderResponse)
    requires DistinctKeys(f) && |f| == 16
    requires f[8] == Member("options", JArr(EncodeItems(x.options, OptionJson)))
    requires f[9] == Member("is_live", JBool(x.isLive))
    requires f[10] == Member("is_cancelled", JBool(x.isCancelled))
    requires f[11] == Member("reason", EncodeOption(x.reason, StrJson))
    ensures Required(f, "options", DecodeOrderOptions) == Ok(x.options)
    ensures Required(f, "is_live", DecodeBool) == Ok(x.isLive)
    ensures Required(f, "is_cancelled", DecodeBool) == Ok(x.isCancelled)
    ensures Optional(f, "reason", DecodeString) == Ok(x.reason)
  {
    DecodeOrderOptionsJson(x.options);
    RequiredAt(f, 8, DecodeOrderOptions);
    RequiredAt(f, 9, DecodeBool);
    RequiredAt(f, 10, DecodeBool);
    DecodeEncodedOption(x.reason, StrJson, DecodeString);
    OptionalAt(f, 11, DecodeString);
  }

  /** Fields 13 to 16 of a written response decode to the values they carry. */
  lemma DecodeOrderResponseFields4(f: seq<Member>, x: OrderResponse)
    requires DistinctKeys(f) && |f| == 16
    requires f[12] == Member("executed_amount", JStr(x.executedAmount))
    requires f[13] == Member("remaining_amount", JStr(x.remainingAmount))
    requires f[14] == Member("original_amount", JStr(x.originalAmount))
    requires f[15] == Member("is_hidden", JBool(x.isHidden))
    ensures Required(f, "executed_amount", DecodeString) == Ok(x.executedAmount)
    ensures Required(f, "remaining_amount", DecodeString) == Ok(x.remainingAmount)
    ensures Required(f, "original_amount", DecodeString) == Ok(x.originalAmount)
    ensures Required(f, "is_hidden", DecodeBool) == Ok(x.isHidden)
  {
    RequiredAt(f, 12, DecodeString);
    RequiredAt(f, 13, DecodeString);
    RequiredAt(f, 14, DecodeString);
    RequiredAt(f, 15, DecodeBool);
  }

  /** Members 1 to 4 of a written response. */
  lemma OrderResponseJsonMembers1(x: OrderResponse)
    ensures |OrderResponseJson(x).fields| == 16
    ensures OrderResponseJson(x).fields[0] == Member("order_id", JNum(x.orderId.id))
    ensures OrderResponseJson(x).fields[1] == Member("client_order_id", EncodeOption(x.clientOrderId, StrJson))
    ensures OrderResponseJson(x).fields[2] == Member("symbol", JStr(x.symbol))
    ensures OrderResponseJson(x).fields[3] == Member("exchange", JStr(x.exchange))
  {
  }

  /** Members 5 to 8 of a written response. */
  lemma OrderResponseJsonMembers2(x: OrderResponse)
    ensures |OrderResponseJson(x).fields| == 16
    ensures OrderResponseJson(x).fields[4] == Member("price", JStr(x.price))
    ensures OrderResponseJson(x).fields[5] == Member("avg_execution_price", JStr(x.avgExecutionPrice))
    ensures OrderResponseJson(x).fields[6] == Member("side", Lowercase(x.side))
    ensures OrderResponseJson(x).fields[7] == Member("type", JStr(x.orderType))
  {
  }

  /** Members 9 to 12 of a written response. */
  lemma OrderResponseJsonMembers3(x: OrderResponse)
    ensures |OrderResponseJson(x).fields| == 16
    ensures OrderResponseJson(x).fields[8] == Member("options", JArr(EncodeItems(x.options, OptionJson)))
    ensures OrderResponseJson(x).fields[9] == Member("is_live", JBool(x.isLive))
    ensures OrderResponseJson(x).fields[10] == Member("is_cancelled", JBool(x.isCancelled))
    ensures OrderResponseJson(x).fields[11] == Member("reason", EncodeOption(x.reason, StrJson))
  {
  }

  /** Members 13 to 16 of a written response. */
  lemma OrderResponseJsonMembers4(x: OrderResponse)
    ensures |OrderResponseJson(x).fields| == 16
    ensures OrderResponseJson(x).fields[12] == Member("executed_amount", JStr(x.executedAmount))
    ensures OrderResponseJson(x).fields[13] == Member("remaining_amount", JStr(x.remainingAmount))
    ensures OrderResponseJson(x).fields[14] == Member("original_amount", JStr(x.originalAmount))
    ensures OrderResponseJson(x).fields[15] == Member("is_hidden", JBool(x.isHidden))
  {
  }

  /** An object with these sixteen members decodes to the response they carry. */
  lemma DecodeOrderResponseMembers(f: seq<Member>, x: OrderResponse)
    requires DistinctKeys(f) && |f| == 16
    requires f[0] == Member("order_id", JNum(x.orderId.id))
    requires f[1] == Member("client_order_id", EncodeOption(x.clientOrderId, StrJson))
    requires f[2] == Member("symbol", JStr(x.symbol))
    requires f[3] == Member("exchange", JStr(x.exchange))
    requires f[4] == Member("price", JStr(x.price))
    requires f[5] == Member("avg_execution_price", JStr(x.avgExecutionPrice))
    requires f[6] == Member("side", Lowercase(x.side))
    requires f[7] == Member("type", JStr(x.orderType))
    requires f[8] == Member("options", JArr(EncodeItems(x.options, OptionJson)))
    requires f[9] == Member("is_live", JBool(x.isLive))
    requires f[10] == Member("is_cancelled", JBool(x.isCancelled))
    requires f[11] == Member("reason", EncodeOption(x.reason, StrJson))
    requires f[12] == Member("executed_amount", JStr(x.executedAmount))
    requires f[13] == Member("remaining_amount", JStr(x.remainingAmount))
    requires f[14] == Member("original_amount", JStr(x.originalAmount))
    requires f[15] == Member("is_hidden", JBool(x.isHidden))
    ensures DecodeOrderResponse(JObj(f)) == Ok(x)
  {
    DecodeOrderResponseFields1(f, x);
    DecodeOrderResponseFields2(f, x);
    DecodeOrderResponseFields3(f, x);
    DecodeOrderResponseFields4(f, x);
  }

  /** Every response the exchange can write decodes to the values it carries. */
  lemma DecodeOrderResponseJson(x: OrderResponse)
    ensures DecodeOrderResponse(OrderResponseJson(x)) == Ok(x)
  {
    OrderResponseJsonMembers1(x);
    OrderResponseJsonMembers2(x);
    OrderResponseJsonMembers3(x);
    OrderResponseJsonMembers4(x);
    DecodeOrderResponseMembers(OrderResponseJson(x).fields, x);
  }
}
