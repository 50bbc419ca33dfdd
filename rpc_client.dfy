/**
 * The sequential JSON-RPC client over a string transport (`Client` in
 * src/lsp.rs). A request is written as one Base Protocol frame carrying the
 * current request id; inbound messages are then taken one by one until one
 * is the response to that id, and only then does the id counter move on.
 */
module RpcClient {
  import opened Wrappers
  import opened Json
  import opened JsonRpc
  import opened Text
  import opened Utf8

  /** The frame the client writes: a `Content-Length` header, a blank line, the message. */
  function Frame(msg: string): string
  {
    "Content-Length: " + NatToDecimal(|ToUtf8(msg)|) + "\r\n\r\n" + msg
  }

  /** A needle with a character that the text lacks occurs nowhere in it. */
  lemma MissingCharNoOccurrence(s: string, needle: string, j: nat)
    requires j < |needle|
    requires forall k :: 0 <= k < |s| ==> s[k] != needle[j]
    ensures forall i: nat :: !OccursAt(s, needle, i)
  {
    forall i: nat ensures !OccursAt(s, needle, i) {
      if i + |needle| <= |s| {
        assert s[i..i + |needle|][j] == s[i + j];
      }
    }
  }

  /** Text without the letter `y` cannot hold the `Content-Type:` key. */
  lemma NoTypeKeyWithoutY(s: string)
    requires forall k :: 0 <= k < |s| ==> s[k] != 'y'
    ensures !Contains(s, "Content-Type:")
  {
    var key := "Content-Type:";
    assert key[9] == 'y';
    MissingCharNoOccurrence(s, key, 9);
    ContainsIff(s, key);
  }

  /** The header the client writes has no letter `y`: its length is written in digits. */
  lemma LengthHeaderHasNoY(d: string)
    requires AllDigits(d)
    ensures var header := "Content-Length: " + d + "\r\n\r\n";
      forall k :: 0 <= k < |header| ==> header[k] != 'y'
  {
    var header := "Content-Length: " + d + "\r\n\r\n";
    forall k | 0 <= k < |header| ensures header[k] != 'y' {
      if 16 <= k < 16 + |d| {
        assert header[k] == d[k - 16];
      }
    }
  }

  /**
   * The frame is the header line, the blank line and then the message: it
   * opens with `Content-Length: `, the decimal digits that follow read back as
   * the message's length in UTF-8 bytes, the header ends with `\r\n\r\n` just
   * before the message, and there is no `Content-Type` header.
   */
  lemma FrameLayout(msg: string)
    ensures var h := |Frame(msg)| - |msg|;
      && 21 <= h
      && Frame(msg)[..16] == "Content-Length: "
      && AllDigits(Frame(msg)[16..h - 4])
      && DecimalValue(Frame(msg)[16..h - 4]) == |ToUtf8(msg)|
      && Frame(msg)[h - 4..h] == "\r\n\r\n"
      && Frame(msg)[h..] == msg
    ensures !Contains(Frame(msg)[..|Frame(msg)| - |msg|], "Content-Type:")
  {
    var d := NatToDecimal(|ToUtf8(msg)|);
    var header := "Content-Length: " + d + "\r\n\r\n";
    assert Frame(msg) == header + msg;
    HeaderParts(d);
    SliceOfHead(header, msg, 0, 16);
    SliceOfHead(header, msg, 16, |header| - 4);
    SliceOfHead(header, msg, |header| - 4, |header|);
    SliceOfHead(header, msg, 0, |header|);
    DecimalRoundTrip(|ToUtf8(msg)|);
    LengthHeaderHasNoY(d);
    NoTypeKeyWithoutY(header);
  }

  /** A slice that ends within the first part of a concatenation is a slice of that part. */
  lemma SliceOfHead(head: string, tail: string, i: nat, j: nat)
    requires i <= j <= |head|
    ensures (head + tail)[i..j] == head[i..j]
    ensures (head + tail)[|head|..] == tail
  {
  }

  /** The length header splits into its key, the digits and the two line ends. */
  lemma HeaderParts(d: string)
    ensures var header := "Content-Length: " + d + "\r\n\r\n";
      && header[..16] == "Content-Length: "
      && header[16..|header| - 4] == d
      && header[|header| - 4..] == "\r\n\r\n"
  {
  }

  /** One inbound string as `serde_json::from_str` sees it. */
  datatype Incoming = Value(v: Json) | Malformed

  /** Why `request` or `notify` returned early, or the JSON-RPC error the server answered with. */
  datatype ClientError =
    | SendFailed           // `io.send(..)?`
    | RecvFailed           // `io.recv()?`
    | ParseFailed          // `serde_json::from_str(..)?`
    | DecodeFailed         // `serde_json::from_value(response)?` on the matched message
    | Rpc(text: string)    // the response was a JSON-RPC error

  /**
   * The transport behind `StringIO`: what has been sent so far and the
   * inbound strings not yet received. While it is not writable every send
   * fails; `recv` on an exhausted queue fails. Neither changes `writable`:
   * the environment may set it between calls, so a transport that breaks
   * part-way through a session fails from that call on.
   */
  class StringIO {
    var writable: bool
    var outbox: seq<string>
    var inbox: seq<Incoming>

    constructor (writable: bool, inbox: seq<Incoming>)
      ensures this.writable == writable && this.inbox == inbox && outbox == []
    {
      this.writable := writable;
      this.inbox := inbox;
      outbox := [];
    }

    method Send(msg: string) returns (ok: bool)
      modifies this
      ensures ok == writable && writable == old(writable)
      ensures outbox == old(outbox) + (if ok then [msg] else [])
      ensures inbox == old(inbox)
    {
      ok := writable;
      if ok {
        outbox := outbox + [msg];
      }
    }

    method Recv() returns (r: Option<Incoming>)
      modifies this
      ensures old(inbox) == [] ==> r.None? && inbox == []
      ensures old(inbox) != [] ==> r == Some(old(inbox)[0]) && inbox == old(inbox)[1..]
      ensures outbox == old(outbox) && writable == old(writable)
    {
      if inbox == [] {
        r := None;
      } else {
        r := Some(inbox[0]);
        inbox := inbox[1..];
      }
    }
  }

  /** `Value::as_i64`. */
  function AsI64(j: Json): (r: Option<int>)
    ensures r.Some? <==> j.Num? && InI64(j.n)
    ensures r.Some? ==> r.value == j.n
  {
    if j.Num? && InI64(j.n) then Some(j.n) else None
  }

  /** The message has no `method` and its `id` is the 64-bit integer `id`. */
  predicate IsResponseFor(v: Json, id: int) {
    !Has(v, "method") && Get(v, "id").Some? && AsI64(Get(v, "id").value) == Some(id)
  }

  /** How the inbound scan ends: the response found after taking `used` messages, or an early error. */
  datatype Awaited = Got(used: nat, response: Response) | Failed(used: nat, error: ClientError)

  /**
   * The `loop` of `request`: skip every message that is not the response to
   * `id`; the first that is, is decoded and returned. A recv or parse error
   * ends the scan.
   */
  function Await(inbox: seq<Incoming>, id: int): (r: Awaited)
    ensures r.used <= |inbox|
    ensures forall i :: 0 <= i < r.used - 1 ==> inbox[i].Value? && !IsResponseFor(inbox[i].v, id)
    ensures r.Got? ==> 0 < r.used && inbox[r.used - 1].Value?
                       && IsResponseFor(inbox[r.used - 1].v, id)
                       && ResponseFromJson(inbox[r.used - 1].v) == Some(r.response)
    ensures r.Got? ==> r.response.id == Some(id)
    ensures r.Failed? ==> r.error in {RecvFailed, ParseFailed, DecodeFailed}
    ensures r.Failed? && r.error == RecvFailed ==>
              r.used == |inbox|
              && (r.used > 0 ==> inbox[r.used - 1].Value? && !IsResponseFor(inbox[r.used - 1].v, id))
    decreases |inbox|
  {
    if inbox == [] then Failed(0, RecvFailed)
    else match inbox[0]
      case Malformed => Failed(1, ParseFailed)
      case Value(v) =>
        if IsResponseFor(v, id) then
          match ResponseFromJson(v)
          case Some(resp) => Got(1, resp)
          case None => Failed(1, DecodeFailed)
        else
          match Await(inbox[1..], id)
          case Got(k, resp) => Got(k + 1, resp)
          case Failed(k, e) => Failed(k + 1, e)
  }

  /** The JSON text of the request sent with `id`. */
  function RequestMessage(methodName: string, params: Option<Json>, id: int): string
  {
    Serialize(RequestToJson(Request("2.0", methodName, params, id)))
  }

  /** The JSON text of a notification. */
  function NotificationMessage(methodName: string, params: Option<Json>): string
  {
    Serialize(NotificationToJson(Notification("2.0", methodName, params)))
  }

  /** The JSON-RPC outcome turned into the caller's result. */
  function Answer(r: JsonRpcResult): (res: Wrappers.Result<Json, ClientError>)
    ensures res.Ok? <==> r.Result?
    ensures res.Ok? ==> res.value == r.value
    ensures res.Err? ==> res.error == Rpc(ErrorText(r.code, r.message, r.data))
  {
    match IntoResult(r)
    case Ok(v) => Ok(v)
    case Err(text) => Err(Rpc(text))
  }

  /** Everything one `request` call does, as a value. */
  datatype RequestEffect = RequestEffect(
    sent: seq<string>,                          // frames written
    used: nat,                                  // inbound messages consumed
    result: Wrappers.Result<Json, ClientError>, // what the caller gets
    advanced: bool)                             // whether the counter moved on

  function RequestSpec(counter: int, methodName: string, params: Option<Json>,
                       writable: bool, inbox: seq<Incoming>): (e: RequestEffect)
    ensures e.used <= |inbox|
  {
    if !writable then RequestEffect([], 0, Err(SendFailed), false)
    else
      var frame := Frame(RequestMessage(methodName, params, counter));
      match Await(inbox, counter)
      case Failed(k, err) => RequestEffect([frame], k, Err(err), false)
      case Got(k, resp) => RequestEffect([frame], k, Answer(resp.result), true)
  }

  /**
   * The counter moves on exactly when a response to the request was matched
   * and decoded, which includes a JSON-RPC error response; a send, recv, parse
   * or decode failure leaves it where it was.
   */
  lemma AdvancesIffAnswered(counter: int, methodName: string, params: Option<Json>,
                            writable: bool, inbox: seq<Incoming>)
    ensures var e := RequestSpec(counter, methodName, params, writable, inbox);
      e.advanced <==> e.result.Ok? || e.result.error.Rpc?
  {
    var e := RequestSpec(counter, methodName, params, writable, inbox);
    if writable && Await(inbox, counter).Failed? {
      assert !e.result.error.Rpc?;
    }
  }

  /**
   * A writable transport gets exactly one frame, the request's JSON with the
   * current counter as its `id` and the method as its `method`. Which
   * messages are skipped before the match is stated by `Await` and
   * `AwaitFindsFirstMatch`.
   */
  lemma RequestSendsOneFrame(counter: int, methodName: string, params: Option<Json>,
                             inbox: seq<Incoming>)
    ensures var e := RequestSpec(counter, methodName, params, true, inbox);
      && e.sent == [Frame(RequestMessage(methodName, params, counter))]
      && Get(RequestToJson(Request("2.0", methodName, params, counter)), "id") == Some(Num(counter))
      && Get(RequestToJson(Request("2.0", methodName, params, counter)), "method") == Some(Str(methodName))
  {
    RequestShape(Request("2.0", methodName, params, counter));
  }

  /**
   * A request whose recv, parse or decode fails has already written its
   * frame, but the counter stays where it was, so the next request on the
   * same client writes a frame with the same `id` again.
   */
  lemma FailedRequestReusesId(counter: int, firstMethod: string, firstParams: Option<Json>,
                              firstInbox: seq<Incoming>, nextMethod: string, nextParams: Option<Json>,
                              nextInbox: seq<Incoming>)
    requires Await(firstInbox, counter).Failed?
    ensures var first := RequestSpec(counter, firstMethod, firstParams, true, firstInbox);
      var next := counter + (if first.advanced then 1 else 0);
      && first.result.Err? && first.result.error != SendFailed
      && first.sent == [Frame(RequestMessage(firstMethod, firstParams, counter))]
      && RequestSpec(next, nextMethod, nextParams, true, nextInbox).sent
         == [Frame(RequestMessage(nextMethod, nextParams, counter))]
      && Get(RequestToJson(Request("2.0", firstMethod, firstParams, counter)), "id") == Some(Num(counter))
      && Get(RequestToJson(Request("2.0", nextMethod, nextParams, next)), "id") == Some(Num(counter))
  {
    RequestSendsOneFrame(counter, firstMethod, firstParams, firstInbox);
    RequestSendsOneFrame(counter, nextMethod, nextParams, nextInbox);
  }

  /** A readable response that echoes the request's id is the one the scan returns. */
  lemma EchoedResponseMatches(counter: int, r: Response, later: seq<Incoming>)
    requires InI64(counter) && r.id == Some(counter) && ResponseReadable(r)
    ensures IsResponseFor(ResponseToJson(r), counter)
    ensures Await([Value(ResponseToJson(r))] + later, counter) == Got(1, r)
  {
    ResponseShape(r);
    ResponseRoundTrip(r);
  }

  /** A response that is a JSON-RPC error still moves the counter on, and is handed back as an `Rpc` error. */
  lemma ErrorResponseAdvances(counter: int, methodName: string, params: Option<Json>,
                              inbox: seq<Incoming>, k: nat)
    requires k < |inbox| && inbox[k].Value?
    requires forall i :: 0 <= i < k ==> inbox[i].Value? && !IsResponseFor(inbox[i].v, counter)
    requires IsResponseFor(inbox[k].v, counter)
    requires ResponseFromJson(inbox[k].v).Some? && ResponseFromJson(inbox[k].v).value.result.Error?
    ensures var e := RequestSpec(counter, methodName, params, true, inbox);
      var err := ResponseFromJson(inbox[k].v).value.result;
      e.advanced && e.used == k + 1 && e.result == Err(Rpc(ErrorText(err.code, err.message, err.data)))
  {
    AwaitFindsFirstMatch(inbox, counter, k);
  }

  /** The scan stops at the first message that answers `id`, whatever follows it. */
  lemma {:induction false} AwaitFindsFirstMatch(inbox: seq<Incoming>, id: int, k: nat)
    requires k < |inbox| && inbox[k].Value?
    requires forall i :: 0 <= i < k ==> inbox[i].Value? && !IsResponseFor(inbox[i].v, id)
    requires IsResponseFor(inbox[k].v, id)
    ensures ResponseFromJson(inbox[k].v).Some? ==>
              Await(inbox, id) == Got(k + 1, ResponseFromJson(inbox[k].v).value)
    ensures ResponseFromJson(inbox[k].v).None? ==> Await(inbox, id) == Failed(k + 1, DecodeFailed)
    decreases k
  {
    if k > 0 {
      AwaitFindsFirstMatch(inbox[1..], id, k - 1);
    }
  }

  /**
   * The ids of answered requests are 0, 1, 2, ... and `counter` is the next
   * one; the ids written never decrease and never pass the counter.
   */
  ghost predicate IdsInvariant(counter: int, answered: seq<int>, requestIds: seq<int>) {
    && counter == |answered|
    && (forall i :: 0 <= i < |answered| ==> answered[i] == i)
    && (forall i, j :: 0 <= i < j < |requestIds| ==> requestIds[i] <= requestIds[j])
    && (forall i :: 0 <= i < |requestIds| ==> requestIds[i] <= counter)
  }

  /** Writing a request with the current counter keeps the invariant. */
  lemma IssueKeepsInvariant(counter: int, answered: seq<int>, requestIds: seq<int>)
    requires IdsInvariant(counter, answered, requestIds)
    ensures IdsInvariant(counter, answered, requestIds + [counter])
  {
    var ids := requestIds + [counter];
    forall i, j | 0 <= i < j < |ids| ensures ids[i] <= ids[j] {
      if j < |requestIds| {
        assert ids[i] == requestIds[i] && ids[j] == requestIds[j];
      } else {
        assert ids[i] <= counter;
      }
    }
  }

  /** Matching the response to the current counter, then moving it on, keeps the invariant. */
  lemma AnswerKeepsInvariant(counter: int, answered: seq<int>, requestIds: seq<int>)
    requires IdsInvariant(counter, answered, requestIds)
    ensures IdsInvariant(counter + 1, answered + [counter], requestIds)
  {
    var done := answered + [counter];
    forall i | 0 <= i < |done| ensures done[i] == i {
      if i < |answered| {
        assert done[i] == answered[i];
      }
    }
  }

  /**
   * `Client`: the transport and the id of the next request. Ghost state keeps
   * the ids of every request frame written and of every answered request.
   */
  class Client {
    const io: StringIO
    var requestIdCounter: int
    ghost var requestIds: seq<int>
    ghost var answered: seq<int>

    ghost predicate Valid()
      reads this
    {
      IdsInvariant(requestIdCounter, answered, requestIds)
    }

    constructor (io: StringIO)
      ensures Valid()
      ensures this.io == io && requestIdCounter == 0
      ensures requestIds == [] && answered == []
    {
      this.io := io;
      requestIdCounter := 0;
      requestIds := [];
      answered := [];
    }

    method Request(methodName: string, params: Option<Json>) returns (result: Wrappers.Result<Json, ClientError>)
      requires Valid()
      modifies this, io
      ensures Valid()
      ensures var e := RequestSpec(old(requestIdCounter), methodName, params, old(io.writable), old(io.inbox));
        && io.outbox == old(io.outbox) + e.sent
        && io.inbox == old(io.inbox)[e.used..]
        && result == e.result
        && requestIdCounter == old(requestIdCounter) + (if e.advanced then 1 else 0)
      ensures requestIds == old(requestIds) + (if old(io.writable) then [old(requestIdCounter)] else [])
      ensures io.writable == old(io.writable)
    {
      var msg := RequestMessage(methodName, params, requestIdCounter);
      var ok := io.Send(Frame(msg));
      if !ok {
        return Err(SendFailed);
      }
      IssueKeepsInvariant(requestIdCounter, answered, requestIds);
      requestIds := requestIds + [requestIdCounter];
      var outcome := ReceiveResponse(requestIdCounter);
      if outcome.Failed? {
        return Err(outcome.error);
      }
      AnswerKeepsInvariant(requestIdCounter, answered, requestIds);
      answered := answered + [requestIdCounter];
      requestIdCounter := requestIdCounter + 1;
      result := Answer(outcome.response.result);
    }

    /**
     * The `loop` of `request`: receive until a message without `method` whose
     * `id` is `id` arrives, and decode that one.
     */
    method ReceiveResponse(id: int) returns (outcome: Awaited)
      modifies io
      ensures outcome == Await(old(io.inbox), id)
      ensures io.inbox == old(io.inbox)[outcome.used..]
      ensures io.outbox == old(io.outbox) && io.writable == old(io.writable)
    {
      var used: nat := 0;
      while true
        invariant io.outbox == old(io.outbox) && io.writable == old(io.writable)
        invariant used <= |old(io.inbox)| && io.inbox == old(io.inbox)[used..]
        invariant Await(old(io.inbox), id) == Shift(used, Await(io.inbox, id))
        decreases |io.inbox|
      {
        var received := io.Recv();
        if received.None? {
          return Failed(used, RecvFailed);
        }
        used := used + 1;
        match received.value {
          case Malformed =>
            return Failed(used, ParseFailed);
          case Value(v) =>
            if IsResponseFor(v, id) {
              var decoded := ResponseFromJson(v);
              if decoded.None? {
                return Failed(used, DecodeFailed);
              }
              return Got(used, decoded.value);
            }
        }
      }
    }

    method Notify(methodName: string, params: Option<Json>) returns (result: Wrappers.Result<(), ClientError>)
      modifies io
      ensures io.outbox == old(io.outbox) + (if old(io.writable) then [Frame(NotificationMessage(methodName, params))] else [])
      ensures result.Ok? <==> old(io.writable)
      ensures io.writable == old(io.writable)
      ensures result.Err? ==> result.error == SendFailed
      ensures io.inbox == old(io.inbox)
    {
      var ok := io.Send(Frame(NotificationMessage(methodName, params)));
      result := if ok then Ok(()) else Err(SendFailed);
    }
  }

  /** The outcome of a scan started `k` messages earlier. */
  function Shift(k: nat, a: Awaited): (r: Awaited)
    ensures r.used == a.used + k
  {
    match a
    case Got(n, resp) => Got(n + k, resp)
    case Failed(n, e) => Failed(n + k, e)
  }

  /** The notification body never carries an `id`, so no response can be matched against it. */
  lemma NotificationHasNoId(methodName: string, params: Option<Json>)
    ensures !Has(NotificationToJson(Notification("2.0", methodName, params)), "id")
    ensures Get(NotificationToJson(Notification("2.0", methodName, params)), "method") == Some(Str(methodName))
  {
    NotificationShape(Notification("2.0", methodName, params));
  }
}
