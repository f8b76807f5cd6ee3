/** The messages of the two websocket feeds, src/structs/wsfeed.rs: the
    market-data updates, the order events, their derived decoders and the
    conversions into the messages the client hands out. */
module FeedStructs {
  import opened Wrappers
  import opened Primitives
  import opened Json
  import opened OrderStructs
  import opened Types

  // ---------------------------------------------------------------------
  // Market data

  /** `Trade`: one trade on the market-data feed. */
  datatype Trade = Trade(price: string, quantity: string, side: OrderSide)

  /** The derived decoder of `Trade`; the side goes through the lower-case
      decoder. */
  function DecodeTrade(j: Json): (r: Result<Trade, DeError>)
    ensures r.Ok? ==> j.JObj?
    ensures r.Ok? ==> Find(j.fields, "price") == Present(JStr(r.value.price))
    ensures r.Ok? ==> Find(j.fields, "quantity") == Present(JStr(r.value.quantity))
    ensures r.Ok? ==> Find(j.fields, "side") == Present(Lowercase(r.value.side))
  {
    var f :- Members(j, "struct Trade");
    var price :- Required(f, "price", DecodeString);
    var quantity :- Required(f, "quantity", DecodeString);
    var side :- Required(f, "side", DecodeLowercase);
    Ok(Trade(price, quantity, side))
  }

  const TradeKeys: seq<string> := ["price", "quantity", "side"]

  /** A trade as the exchange writes it. */
  function TradeJson(t: Trade): (j: Json)
    ensures j.JObj? && DistinctKeys(j.fields)
    ensures forall m :: m in j.fields ==> m.key != "type"
  {
    Object(TradeKeys, [JStr(t.price), JStr(t.quantity), Lowercase(t.side)])
  }

  /** Every trade the exchange can write decodes to itself. */
  lemma DecodeTradeJson(t: Trade)
    ensures DecodeTrade(TradeJson(t)) == Ok(t)
  {
    var f := TradeJson(t).fields;
    RequiredAt(f, 0, DecodeString);
    RequiredAt(f, 1, DecodeString);
    LowercaseRoundTrip(t.side);
    RequiredAt(f, 2, DecodeLowercase);
  }

  /** `Level2Change`: a change of one price level. */
  datatype Level2Change = Level2Change(order: OrderSide, price: string, quantity: string)

  const Level2ChangeExpecting: string := "tuple struct Level2Change with 3 elements"

  /** What serde's sequence reader expects once the visitor has taken three
      elements and more are left. */
  const SeqOfThreeExpecting: string := "3 elements in sequence"

  /** The positional decoder `Deserialize_tuple` derives, as serde runs it
      over the buffered content of the tagged `InputMDMessage`: an array of
      exactly three elements `[side, price, quantity]`, read in order; a
      short array is an invalid length against the tuple struct, and a longer
      one, once its first three elements are read, an invalid length of its
      whole size against "3 elements in sequence". */
  function DecodeLevel2Change(j: Json): (r: Result<Level2Change, DeError>)
    ensures r.Ok? <==> j.JArr? && |j.items| == 3 && DecodeLowercase(j.items[0]).Ok? &&
                       j.items[1].JStr? && j.items[2].JStr?
    ensures r.Ok? ==> j.items == [Lowercase(r.value.order), JStr(r.value.price), JStr(r.value.quantity)]
    ensures j.JArr? && |j.items| < 3 && r.Err? && r.error.InvalidLength? ==> r.error.length == |j.items|
    ensures j.JArr? && |j.items| > 3 && DecodeLowercase(j.items[0]).Ok? && j.items[1].JStr? && j.items[2].JStr? ==>
              r == Err(InvalidLength(|j.items|, SeqOfThreeExpecting))
    ensures j.JObj? ==> r == Err(InvalidType(UMap, "tuple struct Level2Change"))
  {
    if !j.JArr? then Err(InvalidType(UnexpectedOf(j), "tuple struct Level2Change"))
    else
      var items := j.items;
      if |items| < 1 then Err(InvalidLength(0, Level2ChangeExpecting))
      else
        var order :- DecodeLowercase(items[0]);
        if |items| < 2 then Err(InvalidLength(1, Level2ChangeExpecting))
        else
          var price :- DecodeString(items[1]);
          if |items| < 3 then Err(InvalidLength(2, Level2ChangeExpecting))
          else
            var quantity :- DecodeString(items[2]);
            if |items| > 3 then Err(InvalidLength(|items|, SeqOfThreeExpecting))
            else Ok(Level2Change(order, price, quantity))
  }

  /** A change as the exchange writes it: a three-element array. */
  function Level2ChangeJson(c: Level2Change): Json {
    JArr([Lowercase(c.order), JStr(c.price), JStr(c.quantity)])
  }

  /** Every change the exchange can write decodes to itself. */
  lemma DecodeLevel2ChangeJson(c: Level2Change)
    ensures DecodeLevel2Change(Level2ChangeJson(c)) == Ok(c)
  {
    LowercaseRoundTrip(c.order);
  }

  /** `AuctionEvent {}`: any object, whatever its members. */
  datatype AuctionEvent = AuctionEvent

  function DecodeAuctionEvent(j: Json): (r: Result<AuctionEvent, DeError>)
    ensures r.Ok? <==> j.JObj?
  {
    var _ :- Members(j, "struct AuctionEvent");
    Ok(AuctionEvent)
  }

  function AuctionEventJson(a: AuctionEvent): Json {
    JObj([])
  }

  /** `Heartbeat {}`: any object, whatever its members. */
  datatype Heartbeat = Heartbeat

  function DecodeHeartbeat(j: Json): (r: Result<Heartbeat, DeError>)
    ensures r.Ok? <==> j.JObj?
  {
    var _ :- Members(j, "struct Heartbeat");
    Ok(Heartbeat)
  }

  /** `Level2`: an update of the order book of one symbol, with optional
      lists of changes, trades and auction events. */
  datatype Level2 = Level2(
    symbol: string,
    changes: Option<seq<Level2Change>>,
    trades: Option<seq<Trade>>,
    auctionEvents: Option<seq<AuctionEvent>>)

  function DecodeChanges(j: Json): Result<seq<Level2Change>, DeError> {
    DecodeSeq(j, DecodeLevel2Change)
  }

  function DecodeTrades(j: Json): Result<seq<Trade>, DeError> {
    DecodeSeq(j, DecodeTrade)
  }

  function DecodeAuctionEvents(j: Json): Result<seq<AuctionEvent>, DeError> {
    DecodeSeq(j, DecodeAuctionEvent)
  }

  /** The derived decoder of `Level2`: a required symbol; each list may be
      absent or `null`. */
  function DecodeLevel2(j: Json): (r: Result<Level2, DeError>)
    ensures r.Ok? ==> j.JObj? && Find(j.fields, "symbol") == Present(JStr(r.value.symbol))
    ensures r.Ok? && r.value.changes.None? ==> Find(j.fields, "changes").Absent? || Find(j.fields, "changes") == Present(JNull)
    ensures r.Ok? && r.value.trades.None? ==> Find(j.fields, "trades").Absent? || Find(j.fields, "trades") == Present(JNull)
  {
    var f :- Members(j, "struct Level2");
    var symbol :- Required(f, "symbol", DecodeString);
    var changes :- Optional(f, "changes", DecodeChanges);
    var trades :- Optional(f, "trades", DecodeTrades);
    var auctionEvents :- Optional(f, "auction_events", DecodeAuctionEvents);
    Ok(Level2(symbol, changes, trades, auctionEvents))
  }

  function ChangesJson(cs: seq<Level2Change>): Json {
    JArr(EncodeItems(cs, Level2ChangeJson))
  }

  function TradesJson(ts: seq<Trade>): Json {
    JArr(EncodeItems(ts, TradeJson))
  }

  function AuctionEventsJson(es: seq<AuctionEvent>): Json {
    JArr(EncodeItems(es, AuctionEventJson))
  }

  const Level2Keys: seq<string> := ["symbol", "changes", "trades", "auction_events"]

  /** An update as the exchange writes it: absent lists as `null`. */
  function Level2Json(l: Level2): (j: Json)
    ensures j.JObj? && DistinctKeys(j.fields)
    ensures forall m :: m in j.fields ==> m.key != "type"
  {
    Object(Level2Keys, [JStr(l.symbol), EncodeOption(l.changes, ChangesJson),
                        EncodeOption(l.trades, TradesJson), EncodeOption(l.auctionEvents, AuctionEventsJson)])
  }

  /** The three lists, written as arrays, decode back to themselves. */
  lemma DecodeListsJson(cs: seq<Level2Change>, ts: seq<Trade>, es: seq<AuctionEvent>)
    ensures DecodeChanges(ChangesJson(cs)) == Ok(cs)
    ensures DecodeTrades(TradesJson(ts)) == Ok(ts)
    ensures DecodeAuctionEvents(AuctionEventsJson(es)) == Ok(es)
  {
    forall c ensures DecodeLevel2Change(Level2ChangeJson(c)) == Ok(c) {
      DecodeLevel2ChangeJson(c);
    }
    DecodeEncodedItems(cs, Level2ChangeJson, DecodeLevel2Change);
    forall t ensures DecodeTrade(TradeJson(t)) == Ok(t) {
      DecodeTradeJson(t);
    }
    DecodeEncodedItems(ts, TradeJson, DecodeTrade);
    forall e ensures DecodeAuctionEvent(AuctionEventJson(e)) == Ok(e) {
      assert e == AuctionEvent;
    }
    DecodeEncodedItems(es, AuctionEventJson, DecodeAuctionEvent);
  }

  /** An object whose four members carry the fields of an update decodes to
      that update, whatever other members it has. */
  lemma DecodeLevel2OfMembers(f: seq<Member>, l: Level2)
    requires Find(f, "symbol") == Present(JStr(l.symbol))
    requires Find(f, "changes") == Present(EncodeOption(l.changes, ChangesJson))
    requires Find(f, "trades") == Present(EncodeOption(l.trades, TradesJson))
    requires Find(f, "auction_events") == Present(EncodeOption(l.auctionEvents, AuctionEventsJson))
    ensures DecodeLevel2(JObj(f)) == Ok(l)
  {
    forall cs ensures DecodeChanges(ChangesJson(cs)) == Ok(cs) {
      DecodeListsJson(cs, [], []);
    }
    forall ts ensures DecodeTrades(TradesJson(ts)) == Ok(ts) {
      DecodeListsJson([], ts, []);
    }
    forall es ensures DecodeAuctionEvents(AuctionEventsJson(es)) == Ok(es) {
      DecodeListsJson([], [], es);
    }
    DecodeEncodedOption(l.changes, ChangesJson, DecodeChanges);
    DecodeEncodedOption(l.trades, TradesJson, DecodeTrades);
    DecodeEncodedOption(l.auctionEvents, AuctionEventsJson, DecodeAuctionEvents);
  }

  /** Every update the exchange can write decodes to itself. */
  lemma DecodeLevel2Json(l: Level2)
    ensures DecodeLevel2(Level2Json(l)) == Ok(l)
  {
    var f := Level2Json(l).fields;
    FindDistinct(f, 0);
    FindDistinct(f, 1);
    FindDistinct(f, 2);
    FindDistinct(f, 3);
    DecodeLevel2OfMembers(f, l);
  }

  /** `InputMDMessage`, tagged by its `type` member in snake case. */
  datatype InputMDMessage =
    | L2Updates(level2: Level2)
    | TradeUpdate(trade: Trade)
    | HeartbeatUpdate(heartbeat: Heartbeat)

  /** The variant a `type` member names. */
  datatype MdTag = L2UpdatesTag | TradeTag | HeartbeatTag

  const MdTagNames: seq<string> := ["l2_updates", "trade", "heartbeat"]
  const MdTags: seq<MdTag> := [L2UpdatesTag, TradeTag, HeartbeatTag]

  /** The `type` a message carries on the wire. */
  function MdTypeName(m: InputMDMessage): (s: string)
    ensures s in MdTagNames
  {
    match m
    case L2Updates(_) => "l2_updates"
    case TradeUpdate(_) => "trade"
    case HeartbeatUpdate(_) => "heartbeat"
  }

  /** The derived decoder of `InputMDMessage`: the tag picks the variant and
      the other members of the object are decoded as that variant's struct. */
  function DecodeInputMD(j: Json): (r: Result<InputMDMessage, DeError>)
    ensures r.Ok? ==> j.JObj? && Find(j.fields, "type") == Present(JStr(MdTypeName(r.value)))
    ensures j.JObj? && Find(j.fields, "type").Absent? ==> r == Err(MissingField("type"))
  {
    var f :- Members(j, "internally tagged enum InputMDMessage");
    var tag :- DecodeTag(f, "type", MdTagNames, MdTags);
    var rest := JObj(Without(f, "type"));
    match tag
    case L2UpdatesTag =>
      var l2 :- DecodeLevel2(rest);
      Ok(L2Updates(l2))
    case TradeTag =>
      var t :- DecodeTrade(rest);
      Ok(TradeUpdate(t))
    case HeartbeatTag =>
      // `Heartbeat` reads any object, so the remaining members always decode.
      Ok(HeartbeatUpdate(Heartbeat))
  }

  /** A market-data message as the exchange writes it: the `type` member
      first, then the members of the variant's struct. */
  function InputMDJson(m: InputMDMessage): (j: Json)
    ensures j.JObj? && |j.fields| > 0 && j.fields[0] == Member("type", JStr(MdTypeName(m)))
    ensures forall i :: 1 <= i < |j.fields| ==> j.fields[i].key != "type"
  {
    var payload := match m
      case L2Updates(l2) => Level2Json(l2)
      case TradeUpdate(t) => TradeJson(t)
      case HeartbeatUpdate(_) => JObj([]);
    assert forall i :: 0 <= i < |payload.fields| ==> payload.fields[i] in payload.fields;
    JObj([Member("type", JStr(MdTypeName(m)))] + payload.fields)
  }

  /** In an object whose first member is the only tag, the tag is found and
      the other members are what the variant reads. */
  lemma TaggedObject(f: seq<Member>, tag: string)
    requires |f| > 0 && f[0].key == tag
    requires forall i :: 1 <= i < |f| ==> f[i].key != tag
    ensures Find(f, tag) == Present(f[0].value)
    ensures Without(f, tag) == f[1..]
  {
    FindSpec(f[1..], tag);
    assert forall i :: 0 <= i < |f[1..]| ==> f[1..][i] == f[i + 1];
    assert Without(f, tag) == Without(f[1..], tag);
  }

  /** An object tagged `l2_updates`, `trade` or `heartbeat` by its first
      member alone decodes as that variant, from its other members. */
  lemma DecodeInputMDTagged(f: seq<Member>, name: string)
    requires |f| > 0 && f[0] == Member("type", JStr(name))
    requires forall i :: 1 <= i < |f| ==> f[i].key != "type"
    ensures name == "l2_updates" && DecodeLevel2(JObj(f[1..])).Ok? ==>
              DecodeInputMD(JObj(f)) == Ok(L2Updates(DecodeLevel2(JObj(f[1..])).value))
    ensures name == "trade" && DecodeTrade(JObj(f[1..])).Ok? ==>
              DecodeInputMD(JObj(f)) == Ok(TradeUpdate(DecodeTrade(JObj(f[1..])).value))
    ensures name == "heartbeat" ==> DecodeInputMD(JObj(f)) == Ok(HeartbeatUpdate(Heartbeat))
  {
    TaggedObject(f, "type");
  }

  /** Every market-data message the exchange can write decodes to itself. */
  lemma DecodeInputMDJson(m: InputMDMessage)
    ensures DecodeInputMD(InputMDJson(m)) == Ok(m)
  {
    var f := InputMDJson(m).fields;
    match m
    case L2Updates(l2) =>
      assert f[1..] == Level2Json(l2).fields;
      DecodeLevel2Json(l2);
      DecodeInputMDTagged(f, "l2_updates");
    case TradeUpdate(t) =>
      assert f[1..] == TradeJson(t).fields;
      DecodeTradeJson(t);
      DecodeInputMDTagged(f, "trade");
    case HeartbeatUpdate(h) =>
      assert h == Heartbeat;
      DecodeInputMDTagged(f, "heartbeat");
  }

  /** `MarketDataMessage`, what the market-data stream yields. */
  datatype MarketDataMessage =
    | Level2Data(level2: Level2)
    | TradeData(trade: Trade)
    | HeartbeatData(heartbeat: Heartbeat)
    | MarketDataError(error: GError)

  /** `From<InputMDMessage>`: the same payload under the matching variant. */
  function FromInputMD(m: InputMDMessage): (r: MarketDataMessage)
    ensures !r.MarketDataError?
    ensures m.L2Updates? <==> r.Level2Data?
    ensures m.L2Updates? ==> r.level2 == m.level2
    ensures m.TradeUpdate? <==> r.TradeData?
    ensures m.TradeUpdate? ==> r.trade == m.trade
    ensures m.HeartbeatUpdate? <==> r.HeartbeatData?
  {
    match m
    case L2Updates(l2) => Level2Data(l2)
    case TradeUpdate(t) => TradeData(t)
    case HeartbeatUpdate(h) => HeartbeatData(h)
  }

  // ---------------------------------------------------------------------
  // Order events

  /** `Ack`: the answer to a subscription, in camel case. */
  datatype Ack = Ack(accountId: U64, subscriptionId: string)

  function DecodeAck(j: Json): (r: Result<Ack, DeError>)
    ensures r.Ok? ==> j.JObj?
    ensures r.Ok? ==> Find(j.fields, "accountId") == Present(JNum(r.value.accountId))
    ensures r.Ok? ==> Find(j.fields, "subscriptionId") == Present(JStr(r.value.subscriptionId))
  {
    var f :- Members(j, "struct Ack");
    var accountId :- Required(f, "accountId", DecodeU64);
    var subscriptionId :- Required(f, "subscriptionId", DecodeString);
    Ok(Ack(accountId, subscriptionId))
  }

  const AckKeys: seq<string> := ["accountId", "subscriptionId"]

  function AckJson(a: Ack): (j: Json)
    ensures j.JObj? && DistinctKeys(j.fields)
    ensures forall m :: m in j.fields ==> m.key != "type"
  {
    Object(AckKeys, [JNum(a.accountId), JStr(a.subscriptionId)])
  }

  /** The snake-case keys are not read: such an object misses `accountId`. */
  lemma AckKeysAreCamelCase(a: Ack)
    ensures DecodeAck(JObj([Member("account_id", JNum(a.accountId)), Member("subscription_id", JStr(a.subscriptionId))])) ==
            Err(MissingField("accountId"))
  {
    var g := [Member("account_id", JNum(a.accountId)), Member("subscription_id", JStr(a.subscriptionId))];
    FindSpec(g, "accountId");
  }

  /** Every acknowledgement the exchange can write decodes to itself. */
  lemma DecodeAckJson(a: Ack)
    ensures DecodeAck(AckJson(a)) == Ok(a)
  {
    var f := AckJson(a).fields;
    RequiredAt(f, 0, DecodeU64);
    RequiredAt(f, 1, DecodeString);
  }

  /** `OrderEventType`, in snake case. */
  datatype OrderEventType = Initial | Accepted | Rejected | Booked | Fill | Cancelled | CancelRejected | Closed

  const EventTypeNames: seq<string> :=
    ["initial", "accepted", "rejected", "booked", "fill", "cancelled", "cancel_rejected", "closed"]

  const EventTypes: seq<OrderEventType> :=
    [Initial, Accepted, Rejected, Booked, Fill, Cancelled, CancelRejected, Closed]

  function EventTypeName(t: OrderEventType): (s: string)
    ensures s in EventTypeNames
  {
    match t
    case Initial => "initial"
    case Accepted => "accepted"
    case Rejected => "rejected"
    case Booked => "booked"
    case Fill => "fill"
    case Cancelled => "cancelled"
    case CancelRejected => "cancel_rejected"
    case Closed => "closed"
  }

  /** The derived decoder of `OrderEventType`: one of the eight names. */
  function DecodeOrderEventType(j: Json): (r: Result<OrderEventType, DeError>)
    ensures r.Ok? <==> j.JStr? && j.s in EventTypeNames
    ensures j.JStr? && j.s !in EventTypeNames ==> r == Err(UnknownVariant(j.s, EventTypeNames))
  {
    DecodeName(j, EventTypeNames, EventTypes, "string or map")
  }

  lemma EventTypeNamesDistinct()
    ensures forall a, b :: 0 <= a < b < |EventTypeNames| ==> EventTypeNames[a] != EventTypeNames[b]
  {
  }

  /** The event-type decoder inverts the names. */
  lemma DecodeEventTypeName(t: OrderEventType)
    ensures DecodeOrderEventType(JStr(EventTypeName(t))) == Ok(t)
  {
    EventTypeNamesDistinct();
    var i := match t
      case Initial => 0
      case Accepted => 1
      case Rejected => 2
      case Booked => 3
      case Fill => 4
      case Cancelled => 5
      case CancelRejected => 6
      case Closed => 7;
    DecodeNameAt(EventTypeNames, EventTypes, i, "string or map");
  }

  /** `FillLiquidity`: its variant names as they are written. */
  datatype FillLiquidity = Maker | Taker | Auction | Block | IndicatorOfInterest

  const LiquidityNames: seq<string> := ["Maker", "Taker", "Auction", "Block", "IndicatorOfInterest"]
  const Liquidities: seq<FillLiquidity> := [Maker, Taker, Auction, Block, IndicatorOfInterest]

  function LiquidityName(l: FillLiquidity): (s: string)
    ensures s in LiquidityNames
  {
    match l
    case Maker => "Maker"
    case Taker => "Taker"
    case Auction => "Auction"
    case Block => "Block"
    case IndicatorOfInterest => "IndicatorOfInterest"
  }

  /** The derived decoder of `FillLiquidity`: the variant names, case and all. */
  function DecodeFillLiquidity(j: Json): (r: Result<FillLiquidity, DeError>)
    ensures r.Ok? <==> j.JStr? && j.s in LiquidityNames
  {
    DecodeName(j, LiquidityNames, Liquidities, "string or map")
  }

  /** The liquidity decoder inverts the names, and lower case is refused. */
  lemma DecodeLiquidityName(l: FillLiquidity)
    ensures DecodeFillLiquidity(JStr(LiquidityName(l))) == Ok(l)
    ensures DecodeFillLiquidity(JStr("maker")).Err?
  {
    var r := DecodeFillLiquidity(JStr(LiquidityName(l)));
    var i :| 0 <= i < |LiquidityNames| && LiquidityNames[i] == LiquidityName(l) && r.value == Liquidities[i];
  }

  /** `Fill`: the fill carried by a `fill` event. */
  datatype FillInfo = FillInfo(
    tradeId: string,
    liquidity: FillLiquidity,
    price: string,
    amount: string,
    fee: string,
    feeCurrency: string)

  function DecodeFill(j: Json): Result<FillInfo, DeError> {
    var f :- Members(j, "struct Fill");
    var tradeId :- Required(f, "trade_id", DecodeString);
    var liquidity :- Required(f, "liquidity", DecodeFillLiquidity);
    var price :- Required(f, "price", DecodeString);
    var amount :- Required(f, "amount", DecodeString);
    var fee :- Required(f, "fee", DecodeString);
    var feeCurrency :- Required(f, "fee_currency", DecodeString);
    Ok(FillInfo(tradeId, liquidity, price, amount, fee, feeCurrency))
  }

  const FillKeys: seq<string> := ["trade_id", "liquidity", "price", "amount", "fee", "fee_currency"]

  function FillJson(x: FillInfo): (j: Json)
    ensures j.JObj? && DistinctKeys(j.fields) && |j.fields| == 6
  {
    Object(FillKeys, [JStr(x.tradeId), JStr(LiquidityName(x.liquidity)), JStr(x.price),
                      JStr(x.amount), JStr(x.fee), JStr(x.feeCurrency)])
  }

  /** Every fill the exchange can write decodes to itself. */
  lemma DecodeFillJson(x: FillInfo)
    ensures DecodeFill(FillJson(x)) == Ok(x)
  {
    var f := FillJson(x).fields;
    RequiredAt(f, 0, DecodeString);
    DecodeLiquidityName(x.liquidity);
    RequiredAt(f, 1, DecodeFillLiquidity);
    RequiredAt(f, 2, DecodeString);
    RequiredAt(f, 3, DecodeString);
    RequiredAt(f, 4, DecodeString);
    RequiredAt(f, 5, DecodeString);
  }

  /** The default of the three amounts an event may leave out. */
  const ZeroPrice: string := "0.00"

  /** `OrderStatus`: one order event. */
  datatype OrderStatus = OrderStatus(
    eventType: OrderEventType,
    orderId: OrderId,
    clientOrderId: Option<string>,
    eventId: Option<string>,
    apiSession: Option<string>,
    symbol: string,
    side: OrderSide,
    behavior: Option<OrderOption>,
    orderType: string,
    timestampms: U64,
    isLive: bool,
    isCancelled: bool,
    isHidden: bool,
    avgExecutionPrice: string,
    executedAmount: string,
    remainingAmount: string,
    originalAmount: string,
    price: string,
    totalSpend: Option<string>,
    reason: Option<string>,
    fill: Option<FillInfo>)

  /** The derived decoder of `OrderStatus`: `event_type` is read from `type`,
      the order id with the number-or-string decoder, the side in lower case,
      and three amounts default to "0.00". */
  function DecodeOrderStatus(j: Json): (r: Result<OrderStatus, DeError>)
    ensures r.Ok? ==> j.JObj? && Find(j.fields, "order_id").Present? &&
                      DecodeOrderId(Find(j.fields, "order_id").value) == Ok(r.value.orderId)
  {
    var f :- Members(j, "struct OrderStatus");
    var eventType :- Required(f, "type", DecodeOrderEventType);
    var orderId :- Required(f, "order_id", DecodeOrderId);
    var clientOrderId :- Optional(f, "client_order_id", DecodeString);
    var eventId :- Optional(f, "event_id", DecodeString);
    var apiSession :- Optional(f, "api_session", DecodeString);
    var symbol :- Required(f, "symbol", DecodeString);
    var side :- Required(f, "side", DecodeLowercase);
    var behavior :- Optional(f, "behavior", DecodeOrderOption);
    var orderType :- Required(f, "order_type", DecodeString);
    var timestampms :- Required(f, "timestampms", DecodeU64);
    var isLive :- Required(f, "is_live", DecodeBool);
    var isCancelled :- Required(f, "is_cancelled", DecodeBool);
    var isHidden :- Required(f, "is_hidden", DecodeBool);
    var avgExecutionPrice :- Defaulted(f, "avg_execution_price", DecodeString, ZeroPrice);
    var executedAmount :- Defaulted(f, "executed_amount", DecodeString, ZeroPrice);
    var remainingAmount :- Defaulted(f, "remaining_amount", DecodeString, ZeroPrice);
    var originalAmount :- Required(f, "original_amount", DecodeString);
    var price :- Required(f, "price", DecodeString);
    var totalSpend :- Optional(f, "total_spend", DecodeString);
    var reason :- Optional(f, "reason", DecodeString);
    var fill :- Optional(f, "fill", DecodeFill);
    Ok(OrderStatus(eventType, orderId, clientOrderId, eventId, apiSession, symbol, side, behavior,
                   orderType, timestampms, isLive, isCancelled, isHidden, avgExecutionPrice,
                   executedAmount, remainingAmount, originalAmount, price, totalSpend, reason, fill))
  }

  /** A defaulted amount: the member carries it as a string, or there is no
      member and the amount is "0.00". */
  predicate AmountIn(f: seq<Member>, key: string, amount: string) {
    Find(f, key) == Present(JStr(amount)) || (Find(f, key).Absent? && amount == ZeroPrice)
  }

  /** Fields 1 to 3 of an event read the values their members carry. */
  lemma DecodeOrderStatusFields1(f: seq<Member>, x: OrderStatus)
    requires Find(f, "type") == Present(JStr(EventTypeName(x.eventType)))
    requires Find(f, "order_id") == Present(JNum(x.orderId.id))
    requires Find(f, "client_order_id") == Present(EncodeOption(x.clientOrderId, StrJson))
    ensures Required(f, "type", DecodeOrderEventType) == Ok(x.eventType)
    ensures Required(f, "order_id", DecodeOrderId) == Ok(x.orderId)
    ensures Optional(f, "client_order_id", DecodeString) == Ok(x.clientOrderId)
  {
    DecodeEventTypeName(x.eventType);
    DecodeShowOrderId(x.orderId);
    DecodeEncodedOption(x.clientOrderId, StrJson, DecodeString);
  }

  /** Fields 4 to 6 of an event read the values their members carry. */
  lemma DecodeOrderStatusFields2(f: seq<Member>, x: OrderStatus)
    requires Find(f, "event_id") == Present(EncodeOption(x.eventId, StrJson))
    requires Find(f, "api_session") == Present(EncodeOption(x.apiSession, StrJson))
    requires Find(f, "symbol") == Present(JStr(x.symbol))
    ensures Optional(f, "event_id", DecodeString) == Ok(x.eventId)
    ensures Optional(f, "api_session", DecodeString) == Ok(x.apiSession)
    ensures Required(f, "symbol", DecodeString) == Ok(x.symbol)
  {
    DecodeEncodedOption(x.eventId, StrJson, DecodeString);
    DecodeEncodedOption(x.apiSession, StrJson, DecodeString);
  }

  /** Fields 7 to 9 of an event read the values their members carry. */
  lemma DecodeOrderStatusFields3(f: seq<Member>, x: OrderStatus)
    requires Find(f, "side") == Present(Lowercase(x.side))
    requires Find(f, "behavior") == Present(EncodeOption(x.behavior, OptionJson))
    requires Find(f, "order_type") == Present(JStr(x.orderType))
    ensures Required(f, "side", DecodeLowercase) == Ok(x.side)
    ensures Optional(f, "behavior", DecodeOrderOption) == Ok(x.behavior)
    ensures Required(f, "order_type", DecodeString) == Ok(x.orderType)
  {
    LowercaseRoundTrip(x.side);
    forall o ensures DecodeOrderOption(OptionJson(o)) == Ok(o) {
      DecodeOptionJson(o);
    }
    DecodeEncodedOption(x.behavior, OptionJson, DecodeOrderOption);
  }

  /** Fields 10 to 12 of an event read the values their members carry. */
  lemma DecodeOrderStatusFields4(f: seq<Member>, x: OrderStatus)
    requires Find(f, "timestampms") == Present(JNum(x.timestampms))
    requires Find(f, "is_live") == Present(JBool(x.isLive))
    requires Find(f, "is_cancelled") == Present(JBool(x.isCancelled))
    ensures Required(f, "timestampms", DecodeU64) == Ok(x.timestampms)
    ensures Required(f, "is_live", DecodeBool) == Ok(x.isLive)
    ensures Required(f, "is_cancelled", DecodeBool) == Ok(x.isCancelled)
  {
  }

  /** Fields 13 to 15 of an event read the values their members carry. */
  lemma DecodeOrderStatusFields5(f: seq<Member>, x: OrderStatus)
    requires Find(f, "is_hidden") == Present(JBool(x.isHidden))
    requires AmountIn(f, "avg_execution_price", x.avgExecutionPrice)
    requires AmountIn(f, "executed_amount", x.executedAmount)
    ensures Required(f, "is_hidden", DecodeBool) == Ok(x.isHidden)
    ensures Defaulted(f, "avg_execution_price", DecodeString, ZeroPrice) == Ok(x.avgExecutionPrice)
    ensures Defaulted(f, "executed_amount", DecodeString, ZeroPrice) == Ok(x.executedAmount)
  {
  }

  /** Fields 16 to 18 of an event read the values their members carry. */
  lemma DecodeOrderStatusFields6(f: seq<Member>, x: OrderStatus)
    requires AmountIn(f, "remaining_amount", x.remainingAmount)
    requires Find(f, "original_amount") == Present(JStr(x.originalAmount))
    requires Find(f, "price") == Present(JStr(x.price))
    ensures Defaulted(f, "remaining_amount", DecodeString, ZeroPrice) == Ok(x.remainingAmount)
    ensures Required(f, "original_amount", DecodeString) == Ok(x.originalAmount)
    ensures Required(f, "price", DecodeString) == Ok(x.price)
  {
  }

  /** Fields 19 to 21 of an event read the values their members carry. */
  lemma DecodeOrderStatusFields7(f: seq<Member>, x: OrderStatus)
    requires Find(f, "total_spend") == Present(EncodeOption(x.totalSpend, StrJson))
    requires Find(f, "reason") == Present(EncodeOption(x.reason, StrJson))
    requires Find(f, "fill") == Present(EncodeOption(x.fill, FillJson))
    ensures Optional(f, "total_spend", DecodeString) == Ok(x.totalSpend)
    ensures Optional(f, "reason", DecodeString) == Ok(x.reason)
    ensures Optional(f, "fill", DecodeFill) == Ok(x.fill)
  {
    DecodeEncodedOption(x.totalSpend, StrJson, DecodeString);
    DecodeEncodedOption(x.reason, StrJson, DecodeString);
    forall v ensures DecodeFill(FillJson(v)) == Ok(v) {
      DecodeFillJson(v);
    }
    DecodeEncodedOption(x.fill, FillJson, DecodeFill);
  }

  /** The meaning of the `OrderStatus` decoder: an object whose members carry
      the twenty-one fields (each once, the three amounts possibly left out)
      decodes to that event, whatever other members it has. */
  lemma DecodeOrderStatusOfMembers(f: seq<Member>, x: OrderStatus)
    requires Find(f, "type") == Present(JStr(EventTypeName(x.eventType)))
    requires Find(f, "order_id") == Present(JNum(x.orderId.id))
    requires Find(f, "client_order_id") == Present(EncodeOption(x.clientOrderId, StrJson))
    requires Find(f, "event_id") == Present(EncodeOption(x.eventId, StrJson))
    requires Find(f, "api_session") == Present(EncodeOption(x.apiSession, StrJson))
    requires Find(f, "symbol") == Present(JStr(x.symbol))
    requires Find(f, "side") == Present(Lowercase(x.side))
    requires Find(f, "behavior") == Present(EncodeOption(x.behavior, OptionJson))
    requires Find(f, "order_type") == Present(JStr(x.orderType))
    requires Find(f, "timestampms") == Present(JNum(x.timestampms))
    requires Find(f, "is_live") == Present(JBool(x.isLive))
    requires Find(f, "is_cancelled") == Present(JBool(x.isCancelled))
    requires Find(f, "is_hidden") == Present(JBool(x.isHidden))
    requires AmountIn(f, "avg_execution_price", x.avgExecutionPrice)
    requires AmountIn(f, "executed_amount", x.executedAmount)
    requires AmountIn(f, "remaining_amount", x.remainingAmount)
    requires Find(f, "original_amount") == Present(JStr(x.originalAmount))
    requires Find(f, "price") == Present(JStr(x.price))
    requires Find(f, "total_spend") == Present(EncodeOption(x.totalSpend, StrJson))
    requires Find(f, "reason") == Present(EncodeOption(x.reason, StrJson))
    requires Find(f, "fill") == Present(EncodeOption(x.fill, FillJson))
    ensures DecodeOrderStatus(JObj(f)) == Ok(x)
  {
    DecodeOrderStatusFields1(f, x);
    DecodeOrderStatusFields2(f, x);
    DecodeOrderStatusFields3(f, x);
    DecodeOrderStatusFields4(f, x);
    DecodeOrderStatusFields5(f, x);
    DecodeOrderStatusFields6(f, x);
    DecodeOrderStatusFields7(f, x);
  }

  const OrderStatusKeys: seq<string> :=
    ["type", "order_id", "client_order_id", "event_id", "api_session", "symbol", "side", "behavior", "order_type", "timestampms", "is_live", "is_cancelled", "is_hidden", "avg_execution_price", "executed_amount", "remaining_amount", "original_amount", "price", "total_spend", "reason", "fill"]

  lemma OrderStatusKeysDistinct()
    ensures forall i, k :: 0 <= i < k < |OrderStatusKeys| ==> OrderStatusKeys[i] != OrderStatusKeys[k]
  {
  }

  /** The values of the written members, in the order of the keys. */
  function OrderStatusValues(x: OrderStatus): (v: seq<Json>)
    ensures |v| == 21
  {
    [JStr(EventTypeName(x.eventType)),
     JNum(x.orderId.id),
     EncodeOption(x.clientOrderId, StrJson),
     EncodeOption(x.eventId, StrJson),
     EncodeOption(x.apiSession, StrJson),
     JStr(x.symbol),
     Lowercase(x.side),
     EncodeOption(x.behavior, OptionJson),
     JStr(x.orderType),
     JNum(x.timestampms),
     JBool(x.isLive),
     JBool(x.isCancelled),
     JBool(x.isHidden),
     JStr(x.avgExecutionPrice),
     JStr(x.executedAmount),
     JStr(x.remainingAmount),
     JStr(x.originalAmount),
     JStr(x.price),
     EncodeOption(x.totalSpend, StrJson),
     EncodeOption(x.reason, StrJson),
     EncodeOption(x.fill, FillJson)]
  }

  /** An event as the exchange writes it: every field present, absent
      optional fields as `null`, the order id as a number. */
  function OrderStatusJson(x: OrderStatus): (j: Json)
    ensures j.JObj? && DistinctKeys(j.fields) && |j.fields| == 21
    ensures forall i :: 0 <= i < 21 ==> j.fields[i] == Member(OrderStatusKeys[i], OrderStatusValues(x)[i])
  {
    OrderStatusKeysDistinct();
    Object(OrderStatusKeys, OrderStatusValues(x))
  }

  /** Members 1 to 3 of a written event. */
  lemma OrderStatusJsonMembers1(x: OrderStatus)
    ensures OrderStatusJson(x).fields[0] == Member("type", JStr(EventTypeName(x.eventType)))
    ensures OrderStatusJson(x).fields[1] == Member("order_id", JNum(x.orderId.id))
    ensures OrderStatusJson(x).fields[2] == Member("client_order_id", EncodeOption(x.clientOrderId, StrJson))
  {
  }

  /** Members 1 to 3 of an event without repeated keys are found under their keys. */
  lemma OrderStatusMembersFound1(f: seq<Member>, x: OrderStatus)
    requires DistinctKeys(f) && |f| == 21
    requires f[0] == Member("type", JStr(EventTypeName(x.eventType)))
    requires f[1] == Member("order_id", JNum(x.orderId.id))
    requires f[2] == Member("client_order_id", EncodeOption(x.clientOrderId, StrJson))
    ensures Find(f, "type") == Present(JStr(EventTypeName(x.eventType)))
    ensures Find(f, "order_id") == Present(JNum(x.orderId.id))
    ensures Find(f, "client_order_id") == Present(EncodeOption(x.clientOrderId, StrJson))
  {
    FindDistinct(f, 0);
    FindDistinct(f, 1);
    FindDistinct(f, 2);
  }

  /** Members 4 to 6 of a written event. */
  lemma OrderStatusJsonMembers2(x: OrderStatus)
    ensures OrderStatusJson(x).fields[3] == Member("event_id", EncodeOption(x.eventId, StrJson))
    ensures OrderStatusJson(x).fields[4] == Member("api_session", EncodeOption(x.apiSession, StrJson))
    ensures OrderStatusJson(x).fields[5] == Member("symbol", JStr(x.symbol))
  {
  }

  /** Members 4 to 6 of an event without repeated keys are found under their keys. */
  lemma OrderStatusMembersFound2(f: seq<Member>, x: OrderStatus)
    requires DistinctKeys(f) && |f| == 21
    requires f[3] == Member("event_id", EncodeOption(x.eventId, StrJson))
    requires f[4] == Member("api_session", EncodeOption(x.apiSession, StrJson))
    requires f[5] == Member("symbol", JStr(x.symbol))
    ensures Find(f, "event_id") == Present(EncodeOption(x.eventId, StrJson))
    ensures Find(f, "api_session") == Present(EncodeOption(x.apiSession, StrJson))
    ensures Find(f, "symbol") == Present(JStr(x.symbol))
  {
    FindDistinct(f, 3);
    FindDistinct(f, 4);
    FindDistinct(f, 5);
  }

  /** Members 7 to 9 of a written event. */
  lemma OrderStatusJsonMembers3(x: OrderStatus)
    ensures OrderStatusJson(x).fields[6] == Member("side", Lowercase(x.side))
    ensures OrderStatusJson(x).fields[7] == Member("behavior", EncodeOption(x.behavior, OptionJson))
    ensures OrderStatusJson(x).fields[8] == Member("order_type", JStr(x.orderType))
  {
  }

  /** Members 7 to 9 of an event without repeated keys are found under their keys. */
  lemma OrderStatusMembersFound3(f: seq<Member>, x: OrderStatus)
    requires DistinctKeys(f) && |f| == 21
    requires f[6] == Member("side", Lowercase(x.side))
    requires f[7] == Member("behavior", EncodeOption(x.behavior, OptionJson))
    requires f[8] == Member("order_type", JStr(x.orderType))
    ensures Find(f, "side") == Present(Lowercase(x.side))
    ensures Find(f, "behavior") == Present(EncodeOption(x.behavior, OptionJson))
    ensures Find(f, "order_type") == Present(JStr(x.orderType))
  {
    FindDistinct(f, 6);
    FindDistinct(f, 7);
    FindDistinct(f, 8);
  }

  /** Members 10 to 12 of a written event. */
  lemma OrderStatusJsonMembers4(x: OrderStatus)
    ensures OrderStatusJson(x).fields[9] == Member("timestampms", JNum(x.timestampms))
    ensures OrderStatusJson(x).fields[10] == Member("is_live", JBool(x.isLive))
    ensures OrderStatusJson(x).fields[11] == Member("is_cancelled", JBool(x.isCancelled))
  {
  }

  /** Members 10 to 12 of an event without repeated keys are found under their keys. */
  lemma OrderStatusMembersFound4(f: seq<Member>, x: OrderStatus)
    requires DistinctKeys(f) && |f| == 21
    requires f[9] == Member("timestampms", JNum(x.timestampms))
    requires f[10] == Member("is_live", JBool(x.isLive))
    requires f[11] == Member("is_cancelled", JBool(x.isCancelled))
    ensures Find(f, "timestampms") == Present(JNum(x.timestampms))
    ensures Find(f, "is_live") == Present(JBool(x.isLive))
    ensures Find(f, "is_cancelled") == Present(JBool(x.isCancelled))
  {
    FindDistinct(f, 9);
    FindDistinct(f, 10);
    FindDistinct(f, 11);
  }

  /** Members 13 to 15 of a written event. */
  lemma OrderStatusJsonMembers5(x: OrderStatus)
    ensures OrderStatusJson(x).fields[12] == Member("is_hidden", JBool(x.isHidden))
    ensures OrderStatusJson(x).fields[13] == Member("avg_execution_price", JStr(x.avgExecutionPrice))
    ensures OrderStatusJson(x).fields[14] == Member("executed_amount", JStr(x.executedAmount))
  {
  }

  /** Members 13 to 15 of an event without repeated keys are found under their keys. */
  lemma OrderStatusMembersFound5(f: seq<Member>, x: OrderStatus)
    requires DistinctKeys(f) && |f| == 21
    requires f[12] == Member("is_hidden", JBool(x.isHidden))
    requires f[13] == Member("avg_execution_price", JStr(x.avgExecutionPrice))
    requires f[14] == Member("executed_amount", JStr(x.executedAmount))
    ensures Find(f, "is_hidden") == Present(JBool(x.isHidden))
    ensures Find(f, "avg_execution_price") == Present(JStr(x.avgExecutionPrice))
    ensures Find(f, "executed_amount") == Present(JStr(x.executedAmount))
  {
    FindDistinct(f, 12);
    FindDistinct(f, 13);
    FindDistinct(f, 14);
  }

  /** Members 16 to 18 of a written event. */
  lemma OrderStatusJsonMembers6(x: OrderStatus)
    ensures OrderStatusJson(x).fields[15] == Member("remaining_amount", JStr(x.remainingAmount))
    ensures OrderStatusJson(x).fields[16] == Member("original_amount", JStr(x.originalAmount))
    ensures OrderStatusJson(x).fields[17] == Member("price", JStr(x.price))
  {
  }

  /** Members 16 to 18 of an event without repeated keys are found under their keys. */
  lemma OrderStatusMembersFound6(f: seq<Member>, x: OrderStatus)
    requires DistinctKeys(f) && |f| == 21
    requires f[15] == Member("remaining_amount", JStr(x.remainingAmount))
    requires f[16] == Member("original_amount", JStr(x.originalAmount))
    requires f[17] == Member("price", JStr(x.price))
    ensures Find(f, "remaining_amount") == Present(JStr(x.remainingAmount))
    ensures Find(f, "original_amount") == Present(JStr(x.originalAmount))
    ensures Find(f, "price") == Present(JStr(x.price))
  {
    FindDistinct(f, 15);
    FindDistinct(f, 16);
    FindDistinct(f, 17);
  }

  /** Members 19 to 21 of a written event. */
  lemma OrderStatusJsonMembers7(x: OrderStatus)
    ensures OrderStatusJson(x).fields[18] == Member("total_spend", EncodeOption(x.totalSpend, StrJson))
    ensures OrderStatusJson(x).fields[19] == Member("reason", EncodeOption(x.reason, StrJson))
    ensures OrderStatusJson(x).fields[20] == Member("fill", EncodeOption(x.fill, FillJson))
  {
  }

  /** Members 19 to 21 of an event without repeated keys are found under their keys. */
  lemma OrderStatusMembersFound7(f: seq<Member>, x: OrderStatus)
    requires DistinctKeys(f) && |f| == 21
    requires f[18] == Member("total_spend", EncodeOption(x.totalSpend, StrJson))
    requires f[19] == Member("reason", EncodeOption(x.reason, StrJson))
    requires f[20] == Member("fill", EncodeOption(x.fill, FillJson))
    ensures Find(f, "total_spend") == Present(EncodeOption(x.totalSpend, StrJson))
    ensures Find(f, "reason") == Present(EncodeOption(x.reason, StrJson))
    ensures Find(f, "fill") == Present(EncodeOption(x.fill, FillJson))
  {
    FindDistinct(f, 18);
    FindDistinct(f, 19);
    FindDistinct(f, 20);
  }

  /** The members of a written event are found under their keys. */
  lemma OrderStatusJsonFound(x: OrderStatus)
    ensures Find(OrderStatusJson(x).fields, "type") == Present(JStr(EventTypeName(x.eventType)))
    ensures Find(OrderStatusJson(x).fields, "order_id") == Present(JNum(x.orderId.id))
    ensures Find(OrderStatusJson(x).fields, "client_order_id") == Present(EncodeOption(x.clientOrderId, StrJson))
    ensures Find(OrderStatusJson(x).fields, "event_id") == Present(EncodeOption(x.eventId, StrJson))
    ensures Find(OrderStatusJson(x).fields, "api_session") == Present(EncodeOption(x.apiSession, StrJson))
    ensures Find(OrderStatusJson(x).fields, "symbol") == Present(JStr(x.symbol))
    ensures Find(OrderStatusJson(x).fields, "side") == Present(Lowercase(x.side))
    ensures Find(OrderStatusJson(x).fields, "behavior") == Present(EncodeOption(x.behavior, OptionJson))
    ensures Find(OrderStatusJson(x).fields, "order_type") == Present(JStr(x.orderType))
    ensures Find(OrderStatusJson(x).fields, "timestampms") == Present(JNum(x.timestampms))
    ensures Find(OrderStatusJson(x).fields, "is_live") == Present(JBool(x.isLive))
    ensures Find(OrderStatusJson(x).fields, "is_cancelled") == Present(JBool(x.isCancelled))
    ensures Find(OrderStatusJson(x).fields, "is_hidden") == Present(JBool(x.isHidden))
    ensures Find(OrderStatusJson(x).fields, "avg_execution_price") == Present(JStr(x.avgExecutionPrice))
    ensures Find(OrderStatusJson(x).fields, "executed_amount") == Present(JStr(x.executedAmount))
    ensures Find(OrderStatusJson(x).fields, "remaining_amount") == Present(JStr(x.remainingAmount))
    ensures Find(OrderStatusJson(x).fields, "original_amount") == Present(JStr(x.originalAmount))
    ensures Find(OrderStatusJson(x).fields, "price") == Present(JStr(x.price))
    ensures Find(OrderStatusJson(x).fields, "total_spend") == Present(EncodeOption(x.totalSpend, StrJson))
    ensures Find(OrderStatusJson(x).fields, "reason") == Present(EncodeOption(x.reason, StrJson))
    ensures Find(OrderStatusJson(x).fields, "fill") == Present(EncodeOption(x.fill, FillJson))
  {
    var f := OrderStatusJson(x).fields;
    OrderStatusJsonMembers1(x);
    OrderStatusJsonMembers2(x);
    OrderStatusJsonMembers3(x);
    OrderStatusJsonMembers4(x);
    OrderStatusJsonMembers5(x);
    OrderStatusJsonMembers6(x);
    OrderStatusJsonMembers7(x);
    OrderStatusMembersFound1(f, x);
    OrderStatusMembersFound2(f, x);
    OrderStatusMembersFound3(f, x);
    OrderStatusMembersFound4(f, x);
    OrderStatusMembersFound5(f, x);
    OrderStatusMembersFound6(f, x);
    OrderStatusMembersFound7(f, x);
  }

  /** Every event the exchange can write decodes to itself. */
  lemma DecodeOrderStatusJson(x: OrderStatus)
    ensures DecodeOrderStatus(OrderStatusJson(x)) == Ok(x)
  {
    OrderStatusJsonFound(x);
    DecodeOrderStatusOfMembers(OrderStatusJson(x).fields, x);
  }

  /** The members of an object less the three defaulted amounts. */
  function WithoutAmounts(f: seq<Member>): (g: seq<Member>) {
    Without(Without(Without(f, "avg_execution_price"), "executed_amount"), "remaining_amount")
  }

  /** Without the amounts, they are absent and every other key finds what it
      found before. */
  lemma FindWithoutAmounts(f: seq<Member>, k: string)
    ensures Find(WithoutAmounts(f), "avg_execution_price").Absent?
    ensures Find(WithoutAmounts(f), "executed_amount").Absent?
    ensures Find(WithoutAmounts(f), "remaining_amount").Absent?
    ensures k != "avg_execution_price" && k != "executed_amount" && k != "remaining_amount" ==>
              Find(WithoutAmounts(f), k) == Find(f, k)
  {
    var f1 := Without(f, "avg_execution_price");
    var f2 := Without(f1, "executed_amount");
    FindWithout(f, "avg_execution_price", k);
    FindWithout(f1, "executed_amount", k);
    FindWithout(f2, "remaining_amount", k);
    FindWithout(f1, "executed_amount", "avg_execution_price");
    FindWithout(f2, "remaining_amount", "avg_execution_price");
    FindWithout(f2, "remaining_amount", "executed_amount");
  }

  /** An object less its three amounts decodes with each of them "0.00" and
      every other field as its members carry it. */
  lemma DecodeWithoutAmounts(f: seq<Member>, x: OrderStatus)
    requires Find(f, "type") == Present(JStr(EventTypeName(x.eventType)))
    requires Find(f, "order_id") == Present(JNum(x.orderId.id))
    requires Find(f, "client_order_id") == Present(EncodeOption(x.clientOrderId, StrJson))
    requires Find(f, "event_id") == Present(EncodeOption(x.eventId, StrJson))
    requires Find(f, "api_session") == Present(EncodeOption(x.apiSession, StrJson))
    requires Find(f, "symbol") == Present(JStr(x.symbol))
    requires Find(f, "side") == Present(Lowercase(x.side))
    requires Find(f, "behavior") == Present(EncodeOption(x.behavior, OptionJson))
    requires Find(f, "order_type") == Present(JStr(x.orderType))
    requires Find(f, "timestampms") == Present(JNum(x.timestampms))
    requires Find(f, "is_live") == Present(JBool(x.isLive))
    requires Find(f, "is_cancelled") == Present(JBool(x.isCancelled))
    requires Find(f, "is_hidden") == Present(JBool(x.isHidden))
    requires Find(f, "original_amount") == Present(JStr(x.originalAmount))
    requires Find(f, "price") == Present(JStr(x.price))
    requires Find(f, "total_spend") == Present(EncodeOption(x.totalSpend, StrJson))
    requires Find(f, "reason") == Present(EncodeOption(x.reason, StrJson))
    requires Find(f, "fill") == Present(EncodeOption(x.fill, FillJson))
    ensures DecodeOrderStatus(JObj(WithoutAmounts(f))) ==
            Ok(x.(avgExecutionPrice := ZeroPrice, executedAmount := ZeroPrice, remainingAmount := ZeroPrice))
  {
    var y := x.(avgExecutionPrice := ZeroPrice, executedAmount := ZeroPrice, remainingAmount := ZeroPrice);
    FindWithoutAmounts(f, "type");
    FindWithoutAmounts(f, "order_id");
    FindWithoutAmounts(f, "client_order_id");
    FindWithoutAmounts(f, "event_id");
    FindWithoutAmounts(f, "api_session");
    FindWithoutAmounts(f, "symbol");
    FindWithoutAmounts(f, "side");
    FindWithoutAmounts(f, "behavior");
    FindWithoutAmounts(f, "order_type");
    FindWithoutAmounts(f, "timestampms");
    FindWithoutAmounts(f, "is_live");
    FindWithoutAmounts(f, "is_cancelled");
    FindWithoutAmounts(f, "is_hidden");
    FindWithoutAmounts(f, "original_amount");
    FindWithoutAmounts(f, "price");
    FindWithoutAmounts(f, "total_spend");
    FindWithoutAmounts(f, "reason");
    FindWithoutAmounts(f, "fill");
    DecodeOrderStatusOfMembers(WithoutAmounts(f), y);
  }

  /** An event written without its three amounts decodes with each of them
      "0.00" and every other field as written. */
  lemma DecodeOrderStatusDefaults(x: OrderStatus)
    ensures DecodeOrderStatus(JObj(WithoutAmounts(OrderStatusJson(x).fields))) ==
            Ok(x.(avgExecutionPrice := ZeroPrice, executedAmount := ZeroPrice, remainingAmount := ZeroPrice))
  {
    OrderStatusJsonFound(x);
    DecodeWithoutAmounts(OrderStatusJson(x).fields, x);
  }

  /** `original_amount` has no default: an object whose earlier fields decode but that
      has no `original_amount` member is refused as missing that field. */
  lemma DecodeMissingOriginalAmount(f: seq<Member>, x: OrderStatus)
    requires Find(f, "type") == Present(JStr(EventTypeName(x.eventType)))
    requires Find(f, "order_id") == Present(JNum(x.orderId.id))
    requires Find(f, "client_order_id") == Present(EncodeOption(x.clientOrderId, StrJson))
    requires Find(f, "event_id") == Present(EncodeOption(x.eventId, StrJson))
    requires Find(f, "api_session") == Present(EncodeOption(x.apiSession, StrJson))
    requires Find(f, "symbol") == Present(JStr(x.symbol))
    requires Find(f, "side") == Present(Lowercase(x.side))
    requires Find(f, "behavior") == Present(EncodeOption(x.behavior, OptionJson))
    requires Find(f, "order_type") == Present(JStr(x.orderType))
    requires Find(f, "timestampms") == Present(JNum(x.timestampms))
    requires Find(f, "is_live") == Present(JBool(x.isLive))
    requires Find(f, "is_cancelled") == Present(JBool(x.isCancelled))
    requires Find(f, "is_hidden") == Present(JBool(x.isHidden))
    requires AmountIn(f, "avg_execution_price", x.avgExecutionPrice)
    requires AmountIn(f, "executed_amount", x.executedAmount)
    requires AmountIn(f, "remaining_amount", x.remainingAmount)
    requires Find(f, "original_amount").Absent?
    ensures DecodeOrderStatus(JObj(f)) == Err(MissingField("original_amount"))
  {
    DecodeOrderStatusFields1(f, x);
    DecodeOrderStatusFields2(f, x);
    DecodeOrderStatusFields3(f, x);
    DecodeOrderStatusFields4(f, x);
    DecodeOrderStatusFields5(f, x);
    assert Defaulted(f, "remaining_amount", DecodeString, ZeroPrice) == Ok(x.remainingAmount);
  }

  /** A written event less its `original_amount` member is refused as missing it. */
  lemma OrderStatusNeedsOriginalAmount(x: OrderStatus)
    ensures DecodeOrderStatus(JObj(Without(OrderStatusJson(x).fields, "original_amount"))) == Err(MissingField("original_amount"))
  {
    var f := OrderStatusJson(x).fields;
    OrderStatusJsonFound(x);
    FindWithout(f, "original_amount", "type");
    FindWithout(f, "original_amount", "order_id");
    FindWithout(f, "original_amount", "client_order_id");
    FindWithout(f, "original_amount", "event_id");
    FindWithout(f, "original_amount", "api_session");
    FindWithout(f, "original_amount", "symbol");
    FindWithout(f, "original_amount", "side");
    FindWithout(f, "original_amount", "behavior");
    FindWithout(f, "original_amount", "order_type");
    FindWithout(f, "original_amount", "timestampms");
    FindWithout(f, "original_amount", "is_live");
    FindWithout(f, "original_amount", "is_cancelled");
    FindWithout(f, "original_amount", "is_hidden");
    FindWithout(f, "original_amount", "avg_execution_price");
    FindWithout(f, "original_amount", "executed_amount");
    FindWithout(f, "original_amount", "remaining_amount");
    FindWithout(f, "original_amount", "original_amount");
    DecodeMissingOriginalAmount(Without(f, "original_amount"), x);
  }

  /** `price` has no default: an object whose earlier fields decode but that
      has no `price` member is refused as missing that field. */
  lemma DecodeMissingPrice(f: seq<Member>, x: OrderStatus)
    requires Find(f, "type") == Present(JStr(EventTypeName(x.eventType)))
    requires Find(f, "order_id") == Present(JNum(x.orderId.id))
    requires Find(f, "client_order_id") == Present(EncodeOption(x.clientOrderId, StrJson))
    requires Find(f, "event_id") == Present(EncodeOption(x.eventId, StrJson))
    requires Find(f, "api_session") == Present(EncodeOption(x.apiSession, StrJson))
    requires Find(f, "symbol") == Present(JStr(x.symbol))
    requires Find(f, "side") == Present(Lowercase(x.side))
    requires Find(f, "behavior") == Present(EncodeOption(x.behavior, OptionJson))
    requires Find(f, "order_type") == Present(JStr(x.orderType))
    requires Find(f, "timestampms") == Present(JNum(x.timestampms))
    requires Find(f, "is_live") == Present(JBool(x.isLive))
    requires Find(f, "is_cancelled") == Present(JBool(x.isCancelled))
    requires Find(f, "is_hidden") == Present(JBool(x.isHidden))
    requires AmountIn(f, "avg_execution_price", x.avgExecutionPrice)
    requires AmountIn(f, "executed_amount", x.executedAmount)
    requires AmountIn(f, "remaining_amount", x.remainingAmount)
    requires Find(f, "original_amount") == Present(JStr(x.originalAmount))
    requires Find(f, "price").Absent?
    ensures DecodeOrderStatus(JObj(f)) == Err(MissingField("price"))
  {
    DecodeOrderStatusFields1(f, x);
    DecodeOrderStatusFields2(f, x);
    DecodeOrderStatusFields3(f, x);
    DecodeOrderStatusFields4(f, x);
    DecodeOrderStatusFields5(f, x);
    assert Defaulted(f, "remaining_amount", DecodeString, ZeroPrice) == Ok(x.remainingAmount);
    assert Required(f, "original_amount", DecodeString) == Ok(x.originalAmount);
  }

  /** A written event less its `price` member is refused as missing it. */
  lemma OrderStatusNeedsPrice(x: OrderStatus)
    ensures DecodeOrderStatus(JObj(Without(OrderStatusJson(x).fields, "price"))) == Err(MissingField("price"))
  {
    var f := OrderStatusJson(x).fields;
    OrderStatusJsonFound(x);
    FindWithout(f, "price", "type");
    FindWithout(f, "price", "order_id");
    FindWithout(f, "price", "client_order_id");
    FindWithout(f, "price", "event_id");
    FindWithout(f, "price", "api_session");
    FindWithout(f, "price", "symbol");
    FindWithout(f, "price", "side");
    FindWithout(f, "price", "behavior");
    FindWithout(f, "price", "order_type");
    FindWithout(f, "price", "timestampms");
    FindWithout(f, "price", "is_live");
    FindWithout(f, "price", "is_cancelled");
    FindWithout(f, "price", "is_hidden");
    FindWithout(f, "price", "avg_execution_price");
    FindWithout(f, "price", "executed_amount");
    FindWithout(f, "price", "remaining_amount");
    FindWithout(f, "price", "original_amount");
    FindWithout(f, "price", "price");
    DecodeMissingPrice(Without(f, "price"), x);
  }

  /** `InputOrderMessage`, the control messages of the order-event feed,
      tagged by their `type` member in snake case. */
  datatype InputOrderMessage =
    | HeartbeatControl(heartbeat: Heartbeat)
    | SubscriptionAckControl(ack: Ack)

  datatype OrderTag = HeartbeatOrderTag | SubscriptionAckTag

  const OrderTagNames: seq<string> := ["heartbeat", "subscription_ack"]
  const OrderTags: seq<OrderTag> := [HeartbeatOrderTag, SubscriptionAckTag]

  function OrderControlName(m: InputOrderMessage): (s: string)
    ensures s in OrderTagNames
  {
    match m
    case HeartbeatControl(_) => "heartbeat"
    case SubscriptionAckControl(_) => "subscription_ack"
  }

  /** The derived decoder of `InputOrderMessage`. */
  function DecodeInputOrder(j: Json): (r: Result<InputOrderMessage, DeError>)
    ensures r.Ok? ==> j.JObj? && Find(j.fields, "type") == Present(JStr(OrderControlName(r.value)))
    ensures j.JObj? && Find(j.fields, "type").Absent? ==> r == Err(MissingField("type"))
    ensures j.JArr? ==> r.Err?
  {
    var f :- Members(j, "internally tagged enum InputOrderMessage");
    var tag :- DecodeTag(f, "type", OrderTagNames, OrderTags);
    var rest := JObj(Without(f, "type"));
    match tag
    case HeartbeatOrderTag =>
      // `Heartbeat` reads any object, so the remaining members always decode.
      Ok(HeartbeatControl(Heartbeat))
    case SubscriptionAckTag =>
      var a :- DecodeAck(rest);
      Ok(SubscriptionAckControl(a))
  }

  /** A control message as the exchange writes it. */
  function InputOrderJson(m: InputOrderMessage): (j: Json)
    ensures j.JObj? && |j.fields| > 0 && j.fields[0] == Member("type", JStr(OrderControlName(m)))
    ensures forall i :: 1 <= i < |j.fields| ==> j.fields[i].key != "type"
  {
    var payload := match m
      case HeartbeatControl(_) => JObj([])
      case SubscriptionAckControl(a) => AckJson(a);
    assert forall i :: 0 <= i < |payload.fields| ==> payload.fields[i] in payload.fields;
    JObj([Member("type", JStr(OrderControlName(m)))] + payload.fields)
  }

  /** Every control message the exchange can write decodes to itself. */
  lemma DecodeInputOrderJson(m: InputOrderMessage)
    ensures DecodeInputOrder(InputOrderJson(m)) == Ok(m)
  {
    var f := InputOrderJson(m).fields;
    TaggedObject(f, "type");
    match m
    case HeartbeatControl(h) =>
      assert h == Heartbeat;
    case SubscriptionAckControl(a) =>
      assert f[1..] == AckJson(a).fields;
      DecodeAckJson(a);
  }

  /** An order event is never read as a control message: its `type` names an
      event, not `heartbeat` or `subscription_ack`. */
  lemma OrderEventIsNotControl(j: Json)
    requires j.JObj? && Find(j.fields, "type").Present?
    requires Find(j.fields, "type").value.JStr? && Find(j.fields, "type").value.s in EventTypeNames
    ensures DecodeInputOrder(j).Err?
  {
  }

  /** `OrderMessage`, what the order-event stream yields. */
  datatype OrderMessage =
    | HeartbeatMessage(heartbeat: Heartbeat)
    | SubscriptionAck(ack: Ack)
    | OrderError(error: GError)
    | Orders(orders: seq<OrderStatus>)

  /** `From<InputOrderMessage>`: the same payload under the matching variant;
      neither `Orders` nor an error comes out of it. */
  function FromInputOrder(m: InputOrderMessage): (r: OrderMessage)
    ensures !r.Orders? && !r.OrderError?
    ensures m.HeartbeatControl? <==> r.HeartbeatMessage?
    ensures m.SubscriptionAckControl? <==> r.SubscriptionAck?
    ensures m.SubscriptionAckControl? ==> r.ack == m.ack
  {
    match m
    case SubscriptionAckControl(a) => SubscriptionAck(a)
    case HeartbeatControl(h) => HeartbeatMessage(h)
  }
}
