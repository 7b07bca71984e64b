/**
 * The JSON-RPC message screen in front of the MCP endpoint: a POST to
 * `/mcp` is decoded and classified; a body that is not JSON gets a
 * JSON-RPC parse error, an invalid payload an invalid-request error, a
 * batch of notifications only a bare 202, and anything holding a request
 * is handed on with its body replayed.
 *
 * `json.loads` is a parameter: `decoded` is its result on the raw body,
 * `None` when it raises `JSONDecodeError`. The raw body is a string of
 * byte values.
 */
module MessageMiddleware {
  import opened Wrappers
  import opened Py
  import opened Text

  /** JSON-RPC's `PARSE_ERROR` and `INVALID_REQUEST` codes. */
  const ParseError: int := -32700
  const InvalidRequest: int := -32600

  /** The `kind` half of `_classify_payload`'s answer. */
  datatype Kind = NotificationOnly | Requests | Invalid

  /** `is_request`: a dict with a `"method"` key. */
  predicate IsRequest(j: Json)
  {
    j.JDict? && "method" in j.fields
  }

  /** `is_notification`: a request without an `"id"` key. */
  predicate IsNotification(j: Json)
  {
    IsRequest(j) && "id" !in j.fields
  }

  /** Every element of the batch is a request. */
  predicate AllRequests(items: seq<Json>)
  {
    forall i :: 0 <= i < |items| ==> IsRequest(items[i])
  }

  /** Every element of the batch is a notification. */
  predicate AllNotifications(items: seq<Json>)
  {
    forall i :: 0 <= i < |items| ==> IsNotification(items[i])
  }

  /**
   * The classification, stated over the whole payload at once: a batch is
   * invalid when empty or when any element is not a request, notifications
   * only when every element is one, and requests otherwise; a single
   * object is classified by itself; anything else is invalid.
   */
  function Classification(data: Json): Kind
  {
    match data
    case JList(items) =>
      if |items| == 0 || !AllRequests(items) then Invalid
      else if AllNotifications(items) then NotificationOnly
      else Requests
    case _ =>
      if !IsRequest(data) then Invalid
      else if IsNotification(data) then NotificationOnly
      else Requests
  }

  /**
   * `_classify_payload(data)`: the scan over a batch with its
   * `all_notifications` flag and its early return on the first element that
   * is not a request. `valid` is false exactly when the kind is invalid.
   */
  method ClassifyPayload(data: Json) returns (kind: Kind, valid: bool)
    ensures kind == Classification(data)
    ensures valid <==> kind != Invalid
  {
    if data.JList? {
      var items := data.items;
      if |items| == 0 {
        return Invalid, false;
      }
      var allNotifications := true;
      var i := 0;
      while i < |items|
        invariant 0 <= i <= |items|
        invariant forall j :: 0 <= j < i ==> IsRequest(items[j])
        invariant allNotifications <==> forall j :: 0 <= j < i ==> IsNotification(items[j])
      {
        if !IsRequest(items[i]) {
          return Invalid, false;
        }
        if !IsNotification(items[i]) {
          allNotifications := false;
        }
        i := i + 1;
      }
      if allNotifications {
        return NotificationOnly, true;
      }
      return Requests, true;
    }
    if IsRequest(data) {
      if IsNotification(data) {
        return NotificationOnly, true;
      }
      return Requests, true;
    }
    return Invalid, false;
  }

  /** How two non-empty halves of a batch decide the whole. */
  function Combine(a: Kind, b: Kind): Kind
  {
    if a == Invalid || b == Invalid then Invalid
    else if a == Requests || b == Requests then Requests
    else NotificationOnly
  }

  /**
   * A batch classifies as its halves combine: one invalid element spoils
   * the batch, one element carrying an `"id"` makes it requests, and only a
   * batch of notifications is notifications only.
   */
  lemma BatchConcat(a: seq<Json>, b: seq<Json>)
    requires |a| > 0 && |b| > 0
    ensures Classification(JList(a + b)) == Combine(Classification(JList(a)), Classification(JList(b)))
  {
    AllAppend(a, b);
  }

  lemma AllAppend(a: seq<Json>, b: seq<Json>)
    ensures AllRequests(a + b) <==> AllRequests(a) && AllRequests(b)
    ensures AllNotifications(a + b) <==> AllNotifications(a) && AllNotifications(b)
  {
    var ab := a + b;
    assert forall i :: 0 <= i < |a| ==> ab[i] == a[i];
    assert forall i :: 0 <= i < |b| ==> ab[|a| + i] == b[i];
  }

  /** A batch of one non-array element is classified exactly as that element alone. */
  lemma SingletonBatch(x: Json)
    requires !x.JList?
    ensures Classification(JList([x])) == Classification(x)
  {
    assert [x][0] == x;
  }

  /** What `_make_receive`'s `receive()` hands downstream. */
  datatype Message = Message(body: string, moreBody: bool)

  /** The closure `_make_receive(body)`, with its `done` cell as a field. */
  class Receiver {
    const body: string
    var done: bool

    constructor (body: string)
      ensures this.body == body && !done
    {
      this.body := body;
      done := false;
    }

    /** The body on the first call, an empty body on every later call; never more to come. */
    method Receive() returns (m: Message)
      modifies this
      ensures m == Message(if old(done) then "" else body, false)
      ensures done
    {
      if done {
        return Message("", false);
      }
      done := true;
      return Message(body, false);
    }
  }

  /** The first two reads of a fresh receiver: the whole body once, then nothing. */
  method ReceiveTwice(body: string) returns (first: Message, second: Message)
    ensures first.body == body && second.body == ""
    ensures !first.moreBody && !second.moreBody
  {
    var receive := new Receiver(body);
    first := receive.Receive();
    second := receive.Receive();
  }

  /** `_json_rpc_error`'s payload: no id, the code and message, and the request id when there is one. */
  function ErrorPayload(code: int, message: string, requestId: string): (p: Json)
    ensures p.JDict? && p.fields.Keys == {"jsonrpc", "id", "error"} + (if requestId != "" then {"request_id"} else {})
    ensures p.fields["jsonrpc"] == JStr("2.0") && p.fields["id"] == JNull
    ensures p.fields["error"] == JDict(map["code" := JInt(code), "message" := JStr(message)])
    ensures requestId != "" ==> p.fields["request_id"] == JStr(requestId)
  {
    var base := map["jsonrpc" := JStr("2.0"), "id" := JNull,
                    "error" := JDict(map["code" := JInt(code), "message" := JStr(message)])];
    JDict(if requestId != "" then base["request_id" := JStr(requestId)] else base)
  }

  /** What `dispatch` does with a request. */
  datatype Outcome =
    | PassThrough                         // not a POST to `/mcp`: handed on untouched
    | RpcError(status: int, payload: Json) // a JSON-RPC error response
    | Accepted                            // 202 with an empty body
    | Replay(body: string)                // handed on, the body replayed by a `Receiver`

  /**
   * `MessageHandlingMiddleware.dispatch`: only a POST to `/mcp` is
   * inspected; an empty body reads as `{}`.
   */
  function Dispatch(verb: string, path: string, rawBody: string, decoded: Option<Json>, requestId: string): Outcome
  {
    if Upper(verb) != "POST" || path != "/mcp" then PassThrough
    else
      var data := if rawBody == "" then Some(JDict(map[])) else decoded;
      if data.None? then RpcError(400, ErrorPayload(ParseError, "Parse error", requestId))
      else
        match Classification(data.value)
        case Invalid => RpcError(400, ErrorPayload(InvalidRequest, "Invalid Request", requestId))
        case NotificationOnly => Accepted
        case Requests => Replay(rawBody)
  }

  /** The JSON-RPC error code a payload carries. */
  function ErrorCode(p: Json): Json
  {
    if p.JDict? && "error" in p.fields && p.fields["error"].JDict? && "code" in p.fields["error"].fields
    then p.fields["error"].fields["code"] else JNull
  }

  /**
   * The outcomes of a POST to `/mcp`, each exactly when its condition
   * holds: a body that does not decode gets -32700 with 400, an invalid
   * payload -32600 with 400, notifications only 202, and requests are
   * replayed with the identical body.
   */
  lemma DispatchOutcomes(verb: string, rawBody: string, decoded: Option<Json>, requestId: string)
    requires Upper(verb) == "POST"
    ensures var r := Dispatch(verb, "/mcp", rawBody, decoded, requestId);
            var data := if rawBody == "" then Some(JDict(map[])) else decoded;
      && (r.RpcError? && ErrorCode(r.payload) == JInt(ParseError) <==> data.None?)
      && (r.RpcError? && ErrorCode(r.payload) == JInt(InvalidRequest) <==> data.Some? && Classification(data.value) == Invalid)
      && (r.RpcError? ==> r.status == 400)
      && (r == Accepted <==> data.Some? && Classification(data.value) == NotificationOnly)
      && (r.Replay? <==> data.Some? && Classification(data.value) == Requests)
      && (r.Replay? ==> r.body == rawBody)
      && !r.PassThrough?
  {
  }

  /** An empty POST body reads as `{}`, which has no `"method"`: an invalid request. */
  lemma EmptyBodyIsInvalidRequest(verb: string, decoded: Option<Json>, requestId: string)
    requires Upper(verb) == "POST"
    ensures Dispatch(verb, "/mcp", "", decoded, requestId) == RpcError(400, ErrorPayload(InvalidRequest, "Invalid Request", requestId))
  {
  }

  /** Any other method or path is handed on untouched, whatever the body. */
  lemma OtherRequestsPass(verb: string, path: string, rawBody: string, decoded: Option<Json>, requestId: string)
    requires Upper(verb) != "POST" || path != "/mcp"
    ensures Dispatch(verb, path, rawBody, decoded, requestId) == PassThrough
  {
  }
}
