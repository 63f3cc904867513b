/** JSON-RPC 2.0 messages (sections 4, 4.1 and 5 of JSON-RPC 2.0) and their JSON form. */
module McpProtocol {
  import opened Common
  import opened Json
  import opened JsonRoundTrip

  /** Fields hold whatever JSON the other side sent; an absent error or id is Null. */
  datatype Message =
    | Request(jsonrpc: Json, id: Json, method_: Json, params: Json)
    | Response(jsonrpc: Json, id: Json, result: Json, error: Json)
    | Notification(jsonrpc: Json, id: Json, method_: Json, params: Json)

  datatype ParseError = NotJson | NotAnObject | NoMessageType

  const VERSION := Str("2.0")

  function GetOr(v: Json, key: string, default: Json): Json
    requires v.Obj?
  {
    var r := Get(v, key);
    if r.Some? then r.value else default
  }

  /** McpMessage.from_json on a parsed value. */
  function FromJson(v: Json): Result<Message, ParseError> {
    if !v.Obj? then Err(NotAnObject)
    else
      var id := GetOr(v, "id", Null);
      var jsonrpc := GetOr(v, "jsonrpc", VERSION);
      if Get(v, "result").Some? || Get(v, "error").Some? then
        Ok(Response(jsonrpc, id, GetOr(v, "result", Null), GetOr(v, "error", Null)))
      else
        var method_ := GetOr(v, "method", Null);
        if method_.Null? then Err(NoMessageType)
        else
          var params := GetOr(v, "params", Obj([]));
          if id.Null? then Ok(Notification(jsonrpc, Null, method_, params))
          else Ok(Request(jsonrpc, id, method_, params))
  }

  function FromText(s: string): Result<Message, ParseError> {
    var v := Loads(s);
    if v.None? then Err(NotJson) else FromJson(v.value)
  }

  /** Whether a float's numeral has a digit other than 0 before its exponent. */
  predicate HasValue(numeral: string) {
    numeral != "" && numeral[0] != 'e' && numeral[0] != 'E' && ('1' <= numeral[0] <= '9' || HasValue(numeral[1..]))
  }

  /** Python truth value. */
  predicate Truthy(v: Json) {
    match v
    case Null => false
    case Bool(b) => b
    case Num(n) => n != 0
    case Float(numeral) => HasValue(numeral)
    case Special(_) => true
    case Str(s) => s != ""
    case Arr(items) => items != []
    case Obj(members) => members != []
  }

  function Payload(m: Message): seq<(string, Json)> {
    match m
    case Request(jsonrpc, id, method_, params) =>
      [("jsonrpc", jsonrpc), ("id", id), ("method", method_)] + if Truthy(params) then [("params", params)] else []
    case Response(jsonrpc, id, result, error) =>
      [("jsonrpc", jsonrpc), ("id", id)] + if !error.Null? then [("error", error)] else [("result", result)]
    case Notification(jsonrpc, _, method_, params) =>
      [("jsonrpc", jsonrpc), ("method", method_)] + if Truthy(params) then [("params", params)] else []
  }

  /** The three to_json methods. */
  function ToText(m: Message): string { Dumps(Obj(Payload(m)), Compact) }

  predicate MessageWellFormed(m: Message) {
    match m
    case Response(jsonrpc, id, result, error) =>
      WellFormed(jsonrpc) && WellFormed(id) && WellFormed(result) && WellFormed(error)
    case _ => WellFormed(m.jsonrpc) && WellFormed(m.id) && WellFormed(m.method_) && WellFormed(m.params)
  }

  /** Nothing about the message is lost in its JSON form. */
  predicate Faithful(m: Message) {
    match m
    case Request(_, id, method_, params) => !id.Null? && !method_.Null? && (Truthy(params) || params == Obj([]))
    case Response(_, _, result, error) => error.Null? || result.Null?
    case Notification(_, id, method_, params) => id.Null? && !method_.Null? && (Truthy(params) || params == Obj([]))
  }

  // ---------- lookups ----------

  lemma {:induction false} GetConcat(a: seq<(string, Json)>, b: seq<(string, Json)>, key: string)
    ensures GetMember(a + b, key) == if GetMember(a, key).Some? then GetMember(a, key) else GetMember(b, key)
  {
    if a == [] {
      assert a + b == b;
    } else {
      assert (a + b)[1..] == a[1..] + b && (a + b)[0] == a[0];
      GetConcat(a[1..], b, key);
    }
  }

  lemma GetOne(k: string, v: Json, key: string)
    ensures GetMember([(k, v)], key) == if k == key then Some(v) else None
  {
    assert GetMember([(k, v)][1..], key) == None;
  }

  lemma GetTwo(a: (string, Json), b: (string, Json), key: string)
    ensures GetMember([a, b], key) == if a.0 == key then Some(a.1) else if b.0 == key then Some(b.1) else None
  {
    assert [a, b] == [a] + [b];
    GetConcat([a], [b], key);
    GetOne(a.0, a.1, key);
    GetOne(b.0, b.1, key);
  }

  lemma GetThree(a: (string, Json), b: (string, Json), c: (string, Json), key: string)
    ensures GetMember([a, b, c], key) ==
              (if a.0 == key then Some(a.1) else if b.0 == key then Some(b.1) else if c.0 == key then Some(c.1) else None)
  {
    assert [a, b, c] == [a] + [b, c];
    GetConcat([a], [b, c], key);
    GetOne(a.0, a.1, key);
    GetTwo(b, c, key);
  }

  /** The six keys of the protocol are different strings. */
  lemma KeysDiffer()
    ensures "id" !in {"jsonrpc", "method", "params", "result", "error"}
    ensures "jsonrpc" !in {"method", "params", "result", "error"}
    ensures "method" !in {"params", "result", "error"}
    ensures "params" !in {"result", "error"} && "result" != "error"
  {
    assert |"id"| == 2 && |"error"| == 5 && |"jsonrpc"| == 7;
    assert "method"[0] == 'm' && "params"[0] == 'p' && "result"[0] == 'r';
  }

  lemma PayloadLookups(m: Message, key: string)
    requires key in {"jsonrpc", "id", "method", "params", "result", "error"}
    ensures GetMember(Payload(m), key) ==
              match m
              case Request(jsonrpc, id, method_, params) =>
                (if key == "jsonrpc" then Some(jsonrpc) else if key == "id" then Some(id)
                 else if key == "method" then Some(method_)
                 else if key == "params" && Truthy(params) then Some(params) else None)
              case Response(jsonrpc, id, result, error) =>
                (if key == "jsonrpc" then Some(jsonrpc) else if key == "id" then Some(id)
                 else if key == "error" && !error.Null? then Some(error)
                 else if key == "result" && error.Null? then Some(result) else None)
              case Notification(jsonrpc, _, method_, params) =>
                (if key == "jsonrpc" then Some(jsonrpc) else if key == "method" then Some(method_)
                 else if key == "params" && Truthy(params) then Some(params) else None)
  {
    KeysDiffer();
    match m
    case Request(jsonrpc, id, method_, params) =>
      var front := [("jsonrpc", jsonrpc), ("id", id), ("method", method_)];
      GetThree(("jsonrpc", jsonrpc), ("id", id), ("method", method_), key);
      GetOne("params", params, key);
      GetConcat(front, if Truthy(params) then [("params", params)] else [], key);
    case Response(jsonrpc, id, result, error) =>
      GetTwo(("jsonrpc", jsonrpc), ("id", id), key);
      GetOne("error", error, key);
      GetOne("result", result, key);
      GetConcat([("jsonrpc", jsonrpc), ("id", id)], if !error.Null? then [("error", error)] else [("result", result)], key);
    case Notification(jsonrpc, _, method_, params) =>
      GetTwo(("jsonrpc", jsonrpc), ("method", method_), key);
      GetOne("params", params, key);
      GetConcat([("jsonrpc", jsonrpc), ("method", method_)], if Truthy(params) then [("params", params)] else [], key);
  }

  lemma PayloadWellFormed(m: Message)
    requires MessageWellFormed(m)
    ensures WellFormed(Obj(Payload(m)))
  {
    KeysDiffer();
  }

  lemma FromPayload(m: Message)
    ensures FromJson(Obj(Payload(m))) ==
              match m
              case Request(jsonrpc, id, method_, params) =>
                (if method_.Null? then Err(NoMessageType)
                 else if id.Null? then Ok(Notification(jsonrpc, Null, method_, if Truthy(params) then params else Obj([])))
                 else Ok(Request(jsonrpc, id, method_, if Truthy(params) then params else Obj([]))))
              case Response(jsonrpc, id, result, error) =>
                Ok(Response(jsonrpc, id, if error.Null? then result else Null, error))
              case Notification(jsonrpc, _, method_, params) =>
                (if method_.Null? then Err(NoMessageType)
                 else Ok(Notification(jsonrpc, Null, method_, if Truthy(params) then params else Obj([]))))
  {
    KeysDiffer();
    PayloadLookups(m, "jsonrpc");
    PayloadLookups(m, "id");
    PayloadLookups(m, "method");
    PayloadLookups(m, "params");
    PayloadLookups(m, "result");
    PayloadLookups(m, "error");
  }

  /** from_json(to_json(m)) == m, as text, exactly for the messages whose JSON form loses nothing:
      requests with an id, notifications without one, responses that do not set both result and
      error, and parameters that are a dictionary or not empty. */
  lemma RoundTripIff(m: Message)
    requires MessageWellFormed(m)
    ensures FromText(ToText(m)) == Ok(m) <==> Faithful(m)
  {
    PayloadWellFormed(m);
    LoadsDumps(Obj(Payload(m)), Compact);
    FromPayload(m);
  }
}
