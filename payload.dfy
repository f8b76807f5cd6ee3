/** The signed envelope of src/structs/private.rs: `Payload<T>` with its
    nonce, its request path and the request's own fields flattened beside
    them. */
module PrivateStructs {
  import opened Wrappers
  import opened Primitives
  import opened Json
  import OrderStructs

  /** `Payload<T>`; `content` is the JSON value `T` serialises to. */
  datatype Payload = Payload(nonce: U64, request: string, content: Json)

  /** `Payload::wrap`, with the reading of `Utc::now().timestamp_millis()`
      passed in: the nonce is that `i64` reinterpreted as a `u64`. */
  function Wrap(uri: string, content: Json, clockMillis: I64): (p: Payload)
    ensures p.request == uri && p.content == content
    ensures clockMillis >= 0 ==> p.nonce == clockMillis
    ensures clockMillis < 0 ==> p.nonce == clockMillis + U64_LIMIT
  {
    Payload(I64AsU64(clockMillis), uri, content)
  }

  /** `Payload::empty`: a payload whose request has no fields of its own. */
  function Empty(uri: string, clockMillis: I64): (p: Payload)
    ensures p.request == uri && p.content == JObj([])
  {
    Wrap(uri, JObj([]), clockMillis)
  }

  /** Nonces follow the clock: readings at or after the epoch that do not go
      back give nonces that do not go back, whatever is being wrapped, and
      two wraps in the same millisecond share their nonce. */
  lemma NonceFollowsClock(uri1: string, content1: Json, c1: I64, uri2: string, content2: Json, c2: I64)
    requires 0 <= c1 <= c2
    ensures Wrap(uri1, content1, c1).nonce <= Wrap(uri2, content2, c2).nonce
    ensures c1 == c2 ==> Wrap(uri1, content1, c1).nonce == Wrap(uri2, content2, c2).nonce
  {
  }

  /** A reading before the epoch wraps around to a nonce of at least 2^63,
      above every nonce taken after the epoch. */
  lemma NonceBeforeEpoch(uri1: string, content1: Json, c1: I64, uri2: string, content2: Json, c2: I64)
    requires c1 < 0 <= c2
    ensures Wrap(uri1, content1, c1).nonce > Wrap(uri2, content2, c2).nonce
  {
  }

  /** What `#[serde(flatten)]` makes of the content: the members of a struct
      or map are spliced in, unit and `None` add nothing, and any other
      value is a serialisation error. */
  function Flatten(content: Json): (r: Result<seq<Member>, SerError>)
    ensures r.Ok? <==> content.JObj? || content.JNull?
    ensures content.JObj? ==> r == Ok(content.fields)
  {
    match content
    case JObj(fields) => Ok(fields)
    case JNull => Ok([])
    case JBool(_) => Err(FlattenError("a boolean"))
    case JNum(_) => Err(FlattenError("an integer"))
    case JFloat(_, _) => Err(FlattenError("a float"))
    case JStr(_) => Err(FlattenError("a string"))
    case JArr(_) => Err(FlattenError("a sequence"))
  }

  function FlattenError(got: string): SerError {
    SerError("can only flatten structs and maps (got " + got + ")")
  }

  /** The derived serialiser of `Payload<T>`: one flat object with `nonce`,
      then `request`, then the content's own members. */
  function PayloadJson(p: Payload): (r: Result<Json, SerError>)
    ensures r.Ok? <==> p.content.JObj? || p.content.JNull?
    ensures r.Ok? ==> r.value.JObj? && |r.value.fields| >= 2
    ensures r.Ok? ==> r.value.fields[0] == Member("nonce", JNum(p.nonce))
    ensures r.Ok? ==> r.value.fields[1] == Member("request", JStr(p.request))
    ensures r.Ok? ==> r.value.fields[2..] == Flatten(p.content).value
  {
    var own :- Flatten(p.content);
    Ok(JObj([Member("nonce", JNum(p.nonce)), Member("request", JStr(p.request))] + own))
  }

  /** `serde_json::to_string(&payload)`. */
  function Serialize(p: Payload): (r: Result<string, SerError>)
    ensures r.Ok? <==> PayloadJson(p).Ok?
    ensures r.Ok? ==> r.value == Render(PayloadJson(p).value)
  {
    var j :- PayloadJson(p);
    Ok(Render(j))
  }

  /** Flattening adds no nesting key: when the content has no member named
      `nonce` or `request`, the envelope's reader finds the nonce, the path
      and every member of the content at the top level. */
  lemma {:induction false} PayloadFields(p: Payload, key: string)
    requires p.content.JObj?
    requires Find(p.content.fields, "nonce").Absent? && Find(p.content.fields, "request").Absent?
    ensures PayloadJson(p).Ok?
    ensures Find(PayloadJson(p).value.fields, "nonce") == Present(JNum(p.nonce))
    ensures Find(PayloadJson(p).value.fields, "request") == Present(JStr(p.request))
    ensures key != "nonce" && key != "request" ==> Find(PayloadJson(p).value.fields, key) == Find(p.content.fields, key)
  {
    var fields := PayloadJson(p).value.fields;
    assert fields[1..][1..] == p.content.fields;
  }

  /** `PastTrades { symbol }`, the request of the trade history. */
  function PastTradesJson(symbol: string): Json {
    JObj([Member("symbol", JStr(symbol))])
  }

  /** `CancelRequest { order_id }`, the request to cancel one order; the id
      serialises as its number. */
  function CancelRequestJson(id: OrderStructs.OrderId): Json {
    JObj([Member("order_id", JNum(id.id))])
  }
}
