/**
 * The JSON-RPC 2.0 message types of the client (section 4 "Request object",
 * 4.1 "Notification", 5 "Response object" and 5.1 "Error object" of the JSON-RPC
 * 2.0 specification), the JSON shape serde gives them, and the conversion of a
 * response's outcome into the caller's result.
 */
module JsonRpc {
  import opened Wrappers
  import opened Json
  import Text

  const I64Min: int := -0x8000_0000_0000_0000
  const I64Max: int := 0x7FFF_FFFF_FFFF_FFFF

  predicate InI64(n: int) {
    I64Min <= n <= I64Max
  }

  datatype Request = Request(jsonrpc: string, methodName: string, params: Option<Json>, id: int)

  datatype Notification = Notification(jsonrpc: string, methodName: string, params: Option<Json>)

  /** The outcome a response carries: a `result` value or an `error` object. */
  datatype JsonRpcResult =
    | Result(value: Json)
    | Error(code: int, message: string, data: Option<Json>)

  datatype Response = Response(jsonrpc: string, result: JsonRpcResult, id: Option<int>)

  /** The standalone error object. */
  datatype ErrorObject = ErrorObject(code: int, message: string, data: Option<Json>)

  // ---------------------------------------------------------------------------
  // Serialization (derived `Serialize`, fields in declaration order)
  // ---------------------------------------------------------------------------

  /** A field marked `skip_serializing_if = "Option::is_none"`. */
  function OptionalMember(key: string, value: Option<Json>): seq<Member>
  {
    if value.Some? then [Member(key, value.value)] else []
  }

  function RequestToJson(r: Request): Json
  {
    Obj([Member("jsonrpc", Str(r.jsonrpc)), Member("method", Str(r.methodName))]
        + OptionalMember("params", r.params)
        + [Member("id", Num(r.id))])
  }

  function NotificationToJson(n: Notification): Json
  {
    Obj([Member("jsonrpc", Str(n.jsonrpc)), Member("method", Str(n.methodName))]
        + OptionalMember("params", n.params))
  }

  function ErrorFieldsToJson(code: int, message: string, data: Option<Json>): Json
  {
    Obj([Member("code", Num(code)), Member("message", Str(message))] + OptionalMember("data", data))
  }

  /** The `#[serde(flatten)]`ed, lower-cased variant of a `JsonRpcResult`. */
  function ResultMember(r: JsonRpcResult): Member
  {
    match r
    case Result(v) => Member("result", v)
    case Error(code, message, data) => Member("error", ErrorFieldsToJson(code, message, data))
  }

  function ResponseToJson(r: Response): Json
  {
    Obj([Member("jsonrpc", Str(r.jsonrpc)),
         ResultMember(r.result),
         Member("id", if r.id.Some? then Num(r.id.value) else Null)])
  }

  function ErrorObjectToJson(e: ErrorObject): Json
  {
    ErrorFieldsToJson(e.code, e.message, e.data)
  }

  // ---------------------------------------------------------------------------
  // Deserialization from a JSON value (derived `Deserialize`; unknown keys ignored)
  // ---------------------------------------------------------------------------

  function StringField(j: Json, key: string): Option<string>
  {
    match Get(j, key)
    case Some(Str(s)) => Some(s)
    case _ => None
  }

  function I64Field(j: Json, key: string): Option<int>
  {
    match Get(j, key)
    case Some(Num(n)) => if InI64(n) then Some(n) else None
    case _ => None
  }

  /**
   * An `Option<_>` field: a missing key and `null` both give None, so the
   * outer Option says whether the field could be read at all.
   */
  function OptionalField(j: Json, key: string): Option<Option<Json>>
  {
    match Get(j, key)
    case None => Some(None)
    case Some(Null) => Some(None)
    case Some(v) => Some(Some(v))
  }

  function OptionalI64Field(j: Json, key: string): Option<Option<int>>
  {
    match Get(j, key)
    case None => Some(None)
    case Some(Null) => Some(None)
    case Some(Num(n)) => if InI64(n) then Some(Some(n)) else None
    case Some(_) => None
  }

  function RequestFromJson(j: Json): Option<Request>
  {
    if !j.Obj? then None
    else
      match (StringField(j, "jsonrpc"), StringField(j, "method"), OptionalField(j, "params"), I64Field(j, "id"))
      case (Some(v), Some(m), Some(p), Some(id)) => Some(Request(v, m, p, id))
      case _ => None
  }

  function NotificationFromJson(j: Json): Option<Notification>
  {
    if !j.Obj? then None
    else
      match (StringField(j, "jsonrpc"), StringField(j, "method"), OptionalField(j, "params"))
      case (Some(v), Some(m), Some(p)) => Some(Notification(v, m, p))
      case _ => None
  }

  function ErrorFieldsFromJson(e: Json): Option<JsonRpcResult>
  {
    if !e.Obj? then None
    else
      match (I64Field(e, "code"), StringField(e, "message"), OptionalField(e, "data"))
      case (Some(c), Some(m), Some(d)) => Some(Error(c, m, d))
      case _ => None
  }

  /**
   * The flattened outcome: the variant is chosen by the key present, and
   * `error` is found before `result` in serde_json's sorted object order.
   */
  function ResultFromJson(j: Json): Option<JsonRpcResult>
  {
    match (Get(j, "error"), Get(j, "result"))
    case (Some(e), _) => ErrorFieldsFromJson(e)
    case (None, Some(v)) => Some(Result(v))
    case (None, None) => None
  }

  function ResponseFromJson(j: Json): Option<Response>
  {
    if !j.Obj? then None
    else
      match (StringField(j, "jsonrpc"), ResultFromJson(j), OptionalI64Field(j, "id"))
      case (Some(v), Some(r), Some(id)) => Some(Response(v, r, id))
      case _ => None
  }

  // ---------------------------------------------------------------------------
  // Conversions into the caller's result and display text
  // ---------------------------------------------------------------------------

  /**
   * `From<JsonRpcResult<T>> for anyhow::Result<T>`: a result becomes `Ok`, an
   * error becomes `Err` with the text `Error (<code>) <message>: <data:?>`.
   */
  function IntoResult(r: JsonRpcResult): (res: Wrappers.Result<Json, string>)
    ensures res.Ok? <==> r.Result?
    ensures r.Result? ==> res.value == r.value
    ensures r.Error? ==> res == Err(ErrorText(r.code, r.message, r.data))
  {
    match r
    case Result(v) => Ok(v)
    case Error(code, message, data) => Err(ErrorText(code, message, data))
  }

  function ErrorText(code: int, message: string, data: Option<Json>): string
  {
    "Error (" + Text.IntToDecimal(code) + ") " + message + ": " + DebugOption(data)
  }

  /**
   * The error text lays out its parts in order: `Error (`, the code in
   * decimal, `) `, the message, `: `, and last the `Debug` text of the data.
   */
  lemma ErrorTextLayout(code: int, message: string, data: Option<Json>)
    ensures var t, c := ErrorText(code, message, data), Text.IntToDecimal(code);
      var m := 9 + |c|;
      && |t| == m + |message| + 2 + |DebugOption(data)|
      && t[..7] == "Error ("
      && t[7..7 + |c|] == c
      && t[7 + |c|..m] == ") "
      && t[m..m + |message|] == message
      && t[m + |message|..m + |message| + 2] == ": "
      && t[m + |message| + 2..] == DebugOption(data)
  {
    var c, d := Text.IntToDecimal(code), DebugOption(data);
    var t := ErrorText(code, message, data);
    var codeEnd := "Error (" + c;
    var messageEnd := codeEnd + ") " + message;
    assert t == messageEnd + ": " + d;
    assert t[..|codeEnd|] == codeEnd;
    assert t[..|messageEnd|] == messageEnd;
    assert messageEnd[|codeEnd|..|codeEnd| + 2] == ") ";
    assert messageEnd[|codeEnd| + 2..] == message;
  }

  /** `Display for Error`: `Error <code>: <message>`; the data is not shown. */
  function Display(e: ErrorObject): string
  {
    "Error " + Text.IntToDecimal(e.code) + ": " + e.message
  }

  /** The display text starts with `Error `, ends with the message, and is the same whatever the data. */
  lemma DisplayOmitsData(e: ErrorObject, data: Option<Json>)
    ensures Display(e.(data := data)) == Display(e)
    ensures |Display(e)| > 6 + |e.message| && Display(e)[..6] == "Error "
    ensures Display(e)[|Display(e)| - |e.message|..] == e.message
  {
  }

  // ---------------------------------------------------------------------------
  // Shape and round-trip properties
  // ---------------------------------------------------------------------------

  /** Helper for the shape lemmas below: the member keys of the three messages are different words. */
  lemma MessageKeysDiffer()
    ensures "jsonrpc" != "method" && "jsonrpc" != "params" && "jsonrpc" != "id"
    ensures "method" != "params" && "method" != "id" && "params" != "id"
    ensures "jsonrpc" != "result" && "jsonrpc" != "error" && "result" != "id" && "error" != "id"
    ensures "result" != "error"
  {
    assert "method"[0] != "params"[0];
    assert "result"[0] != "error"[0];
  }

  /** Helper for `ErrorDataShape`: the member keys of an error object are different words. */
  lemma ErrorKeysDiffer()
    ensures "code" != "message" && "code" != "data" && "message" != "data"
  {
    assert "code"[0] != "data"[0];
  }

  /** A request writes `params` exactly when it has some, and `null` for `Some(null)`. */
  lemma RequestShape(r: Request)
    ensures Get(RequestToJson(r), "jsonrpc") == Some(Str(r.jsonrpc))
    ensures Get(RequestToJson(r), "method") == Some(Str(r.methodName))
    ensures Get(RequestToJson(r), "params") == r.params
    ensures Get(RequestToJson(r), "id") == Some(Num(r.id))
  {
    MessageKeysDiffer();
    var j := RequestToJson(r);
    var ms := j.members;
    var first := Member("jsonrpc", Str(r.jsonrpc));
    var second := Member("method", Str(r.methodName));
    var last := Member("id", Num(r.id));
    assert ms[..2] == [first, second] && ms[|ms| - 1] == last;
    assert Get(j, "jsonrpc") == Some(Str(r.jsonrpc)) by { LookupFirst(ms, "jsonrpc", 0); }
    assert Get(j, "method") == Some(Str(r.methodName)) by { LookupFirst(ms, "method", 1); }
    if r.params.Some? {
      assert ms == [first, second, Member("params", r.params.value), last];
      assert Get(j, "params") == r.params by { LookupFirst(ms, "params", 2); }
      assert Get(j, "id") == Some(Num(r.id)) by { LookupFirst(ms, "id", 3); }
    } else {
      assert ms == [first, second, last];
      assert Get(j, "params") == None by { LookupMissing(ms, "params"); }
      assert Get(j, "id") == Some(Num(r.id)) by { LookupFirst(ms, "id", 2); }
    }
  }

  /** A request whose params are not `Some(null)` reads back as itself. */
  lemma RequestRoundTrip(r: Request)
    requires InI64(r.id) && r.params != Some(Null)
    ensures RequestFromJson(RequestToJson(r)) == Some(r)
  {
    RequestShape(r);
  }

  /** `Some(null)` params are written as `"params": null`, which reads back as None. */
  lemma RequestNullParamsReadBackAsNone(r: Request)
    requires InI64(r.id) && r.params == Some(Null)
    ensures RequestFromJson(RequestToJson(r)) == Some(r.(params := None))
  {
    RequestShape(r);
  }

  /** A notification has `jsonrpc`, `method`, optional `params`, and never an `id`. */
  lemma NotificationShape(n: Notification)
    ensures Get(NotificationToJson(n), "jsonrpc") == Some(Str(n.jsonrpc))
    ensures Get(NotificationToJson(n), "method") == Some(Str(n.methodName))
    ensures Get(NotificationToJson(n), "params") == n.params
    ensures !Has(NotificationToJson(n), "id")
  {
    MessageKeysDiffer();
    var ms := NotificationToJson(n).members;
    var first := Member("jsonrpc", Str(n.jsonrpc));
    var second := Member("method", Str(n.methodName));
    if n.params.Some? {
      assert ms == [first, second, Member("params", n.params.value)];
      LookupFirst(ms, "params", 2);
    } else {
      assert ms == [first, second];
      LookupMissing(ms, "params");
    }
    LookupMissing(ms, "id");
    LookupFirst(ms, "jsonrpc", 0);
    LookupFirst(ms, "method", 1);
  }

  lemma NotificationRoundTrip(n: Notification)
    requires n.params != Some(Null)
    ensures NotificationFromJson(NotificationToJson(n)) == Some(n)
  {
    NotificationShape(n);
  }

  /** A notification is never read as a response or a request: it has no `id`. */
  lemma NotificationIsNotRequest(n: Notification)
    ensures RequestFromJson(NotificationToJson(n)) == None
  {
    NotificationShape(n);
  }

  /**
   * A response carries exactly one of `result` and `error`, `id` as a number or
   * `null`, and an error's `data` only when there is some.
   */
  lemma ResponseShape(r: Response)
    ensures Has(ResponseToJson(r), "result") <==> r.result.Result?
    ensures Has(ResponseToJson(r), "error") <==> r.result.Error?
    ensures r.result.Result? ==> Get(ResponseToJson(r), "result") == Some(r.result.value)
    ensures Get(ResponseToJson(r), "id") == Some(if r.id.Some? then Num(r.id.value) else Null)
    ensures r.result.Error? ==>
              Get(ResponseToJson(r), "error") == Some(ErrorFieldsToJson(r.result.code, r.result.message, r.result.data))
    ensures !Has(ResponseToJson(r), "method")
  {
    MessageKeysDiffer();
    var ms := ResponseToJson(r).members;
    assert |ms| == 3 && ms[0].key == "jsonrpc" && ms[2].key == "id";
    assert ms[1].key == "result" || ms[1].key == "error";
    LookupFirst(ms, "jsonrpc", 0);
    LookupFirst(ms, ms[1].key, 1);
    LookupFirst(ms, "id", 2);
    LookupMissing(ms, "method");
    if r.result.Result? {
      LookupMissing(ms, "error");
    } else {
      LookupMissing(ms, "result");
    }
  }

  lemma ErrorDataShape(e: ErrorObject)
    ensures Get(ErrorObjectToJson(e), "data") == e.data
    ensures Get(ErrorObjectToJson(e), "code") == Some(Num(e.code))
    ensures Get(ErrorObjectToJson(e), "message") == Some(Str(e.message))
  {
    ErrorKeysDiffer();
    var ms := ErrorObjectToJson(e).members;
    var first := Member("code", Num(e.code));
    var second := Member("message", Str(e.message));
    if e.data.Some? {
      assert ms == [first, second, Member("data", e.data.value)];
      LookupFirst(ms, "data", 2);
    } else {
      assert ms == [first, second];
      LookupMissing(ms, "data");
    }
    LookupFirst(ms, "code", 0);
    LookupFirst(ms, "message", 1);
  }

  predicate ResponseReadable(r: Response) {
    && (r.id.Some? ==> InI64(r.id.value))
    && (r.result.Error? ==> InI64(r.result.code) && r.result.data != Some(Null))
  }

  lemma ErrorFieldsRoundTrip(code: int, message: string, data: Option<Json>)
    requires InI64(code) && data != Some(Null)
    ensures ErrorFieldsFromJson(ErrorFieldsToJson(code, message, data)) == Some(Error(code, message, data))
  {
    ErrorDataShape(ErrorObject(code, message, data));
  }

  lemma ResultRoundTrip(r: Response)
    requires ResponseReadable(r)
    ensures ResultFromJson(ResponseToJson(r)) == Some(r.result)
  {
    ResponseShape(r);
    if r.result.Error? {
      ErrorFieldsRoundTrip(r.result.code, r.result.message, r.result.data);
    }
  }

  lemma ResponseRoundTrip(r: Response)
    requires ResponseReadable(r)
    ensures ResponseFromJson(ResponseToJson(r)) == Some(r)
  {
    ResponseShape(r);
    ResultRoundTrip(r);
    var j := ResponseToJson(r);
    assert StringField(j, "jsonrpc") == Some(r.jsonrpc);
    assert OptionalI64Field(j, "id") == Some(r.id);
  }

  // ---------------------------------------------------------------------------
  // The unit tests' messages, as JSON values (key order as in the snapshots)
  // ---------------------------------------------------------------------------

  /** The request round trip of the serialization and deserialization tests. */
  lemma RequestTestMessages()
    ensures RequestToJson(Request("2.0", "method", Some(Arr([Num(42), Num(23)])), 1))
            == Obj([Member("jsonrpc", Str("2.0")), Member("method", Str("method")),
                    Member("params", Arr([Num(42), Num(23)])), Member("id", Num(1))])
    ensures RequestFromJson(Obj([Member("jsonrpc", Str("2.0")), Member("method", Str("method")),
                                 Member("params", Arr([Num(42), Num(23)])), Member("id", Num(1))]))
            == Some(Request("2.0", "method", Some(Arr([Num(42), Num(23)])), 1))
  {
    RequestRoundTrip(Request("2.0", "method", Some(Arr([Num(42), Num(23)])), 1));
  }

  /** `Some(())` params are written as `null`; absent params are not written. */
  lemma RequestParamsTestMessages()
    ensures RequestToJson(Request("2.0", "method", Some(Null), 1))
            == Obj([Member("jsonrpc", Str("2.0")), Member("method", Str("method")),
                    Member("params", Null), Member("id", Num(1))])
    ensures RequestToJson(Request("2.0", "method", None, 1))
            == Obj([Member("jsonrpc", Str("2.0")), Member("method", Str("method")), Member("id", Num(1))])
  {
  }

  lemma NotificationTestMessages()
    ensures NotificationToJson(Notification("2.0", "method", Some(Arr([Num(42), Num(23)]))))
            == Obj([Member("jsonrpc", Str("2.0")), Member("method", Str("method")),
                    Member("params", Arr([Num(42), Num(23)]))])
    ensures NotificationFromJson(Obj([Member("jsonrpc", Str("2.0")), Member("method", Str("method")),
                                      Member("params", Arr([Num(42), Num(23)]))]))
            == Some(Notification("2.0", "method", Some(Arr([Num(42), Num(23)]))))
  {
    NotificationRoundTrip(Notification("2.0", "method", Some(Arr([Num(42), Num(23)]))));
  }

  lemma ResponseResultTestMessages()
    ensures ResponseToJson(Response("2.0", Result(Num(19)), Some(1)))
            == Obj([Member("jsonrpc", Str("2.0")), Member("result", Num(19)), Member("id", Num(1))])
    ensures ResponseFromJson(Obj([Member("jsonrpc", Str("2.0")), Member("result", Num(19)), Member("id", Num(1))]))
            == Some(Response("2.0", Result(Num(19)), Some(1)))
  {
    ResponseRoundTrip(Response("2.0", Result(Num(19)), Some(1)));
  }

  /** The error response of the response tests, and its JSON value. */
  const MethodNotFound: Response :=
    Response("2.0", Error(-32601, "Method not found", Some(Arr([Str("Some"), Str("data")]))), None)

  const MethodNotFoundJson: Json :=
    Obj([Member("jsonrpc", Str("2.0")),
         Member("error", Obj([Member("code", Num(-32601)), Member("message", Str("Method not found")),
                              Member("data", Arr([Str("Some"), Str("data")]))])),
         Member("id", Null)])

  lemma ResponseErrorTestMessages()
    ensures ResponseToJson(MethodNotFound) == MethodNotFoundJson
  {
    var data := Arr([Str("Some"), Str("data")]);
    var fields := [Member("code", Num(-32601)), Member("message", Str("Method not found"))];
    var errorMembers := [Member("code", Num(-32601)), Member("message", Str("Method not found")), Member("data", data)];
    assert fields + OptionalMember("data", Some(data)) == errorMembers;
    assert ErrorFieldsToJson(-32601, "Method not found", Some(data)) == Obj(errorMembers);
  }

  lemma ResponseErrorTestMessagesRead()
    ensures ResponseFromJson(MethodNotFoundJson) == Some(MethodNotFound)
  {
    ResponseErrorTestMessages();
    ResponseRoundTrip(MethodNotFound);
  }
}
