/**
 * The server handler of the chat endpoint: the gates in their fixed order
 * (API key, JSON body, schema), the system prefix of the upstream message
 * list, and the loop that re-frames the provider's chunk stream as
 * `data: <json>\n\n` frames. The provider itself is the `dispatch` parameter.
 */
module Relay {
  import opened Wrappers
  import opened JsonValue
  import opened Types
  import opened Schema

  datatype UpstreamUsage = UpstreamUsage(
    promptTokens: Option<real>,
    completionTokens: Option<real>,
    totalTokens: Option<real>)

  /** One chunk of the provider's stream: the delta content of its first choice, and its usage. */
  datatype Chunk = Chunk(content: Option<string>, usage: Option<UpstreamUsage>)

  /** Iteration over the chunks either finishes or throws after the chunks delivered so far. */
  datatype UpstreamEnd = Finished | Failed(error: Thrown)

  datatype Upstream = Upstream(chunks: seq<Chunk>, end: UpstreamEnd)

  /** The arguments of the provider call. */
  datatype UpstreamRequest = UpstreamRequest(
    model: string,
    stream: bool,
    temperature: real,
    maxTokens: real,
    messages: seq<ChatMessage>)

  /** The provider call either opens a chunk stream or throws before any chunk. */
  datatype Dispatch = Dispatched(upstream: Upstream) | DispatchFailed(error: Thrown)

  datatype Body =
    | EventStream(frames: seq<string>)
    | JsonBody(json: Json)
    | ValidationErrorBody(error: SchemaError)   // JSON of zod's flatten(), not rendered here

  datatype Response = Response(status: nat, headers: seq<(string, string)>, body: Body)

  const Model := "gpt-5-mini"
  const MissingKeyMessage := "OPENAI_API_KEY が未設定です"
  const InvalidJsonMessage := "不正なJSONです"
  const StreamFailureMessage := "ストリーミング中にエラーが発生しました"
  const DispatchFailureMessage := "チャット生成に失敗しました"
  const EventStreamType := ("Content-Type", "text/event-stream")
  const StreamHeaders := [EventStreamType, ("Cache-Control", "no-cache, no-transform"), ("Connection", "keep-alive")]

  /** formatSSE */
  function FormatSse(codec: Codec, data: Json): string {
    "data: " + codec.encode(data) + "\n\n"
  }

  function Frames(codec: Codec, events: seq<StreamEvent>): (r: seq<string>)
    ensures |r| == |events|
    ensures forall i :: 0 <= i < |events| ==> r[i] == FormatSse(codec, EventToJson(events[i]))
  {
    seq(|events|, i requires 0 <= i < |events| => FormatSse(codec, EventToJson(events[i])))
  }

  lemma FramesAppend(codec: Codec, a: seq<StreamEvent>, b: seq<StreamEvent>)
    ensures Frames(codec, a + b) == Frames(codec, a) + Frames(codec, b)
  {
    assert forall i :: 0 <= i < |a + b| ==> Frames(codec, a + b)[i] == (Frames(codec, a) + Frames(codec, b))[i];
  }

  /** requestMessages: the validated messages, behind a system message when `system` is a non-empty string. */
  function RequestMessages(req: ChatRequest): (r: seq<ChatMessage>)
    ensures |r| == |req.messages| + (if Truthy(req.system) then 1 else 0)
    ensures r[|r| - |req.messages|..] == req.messages
    ensures |r| > |req.messages| ==> r[0] == ChatMessage(SystemRole, req.system.value)
  {
    if Truthy(req.system) then [ChatMessage(SystemRole, req.system.value)] + req.messages else req.messages
  }

  function UpstreamCall(req: ChatRequest): UpstreamRequest {
    UpstreamRequest(Model, true, req.temperature, req.maxTokens, RequestMessages(req))
  }

  /** A chunk yields a token event only when its delta content is a non-empty string. */
  function TokenOf(c: Chunk): seq<StreamEvent> {
    if Truthy(c.content) then [TokenEvent(c.content)] else []
  }

  function TokenEvents(cs: seq<Chunk>): seq<StreamEvent> {
    if cs == [] then [] else TokenEvents(cs[..|cs| - 1]) + TokenOf(cs[|cs| - 1])
  }

  /** Missing counts of a usage report default to 0. */
  function UsageOf(u: UpstreamUsage): TokenUsage {
    TokenUsage(u.promptTokens.GetOr(0.0), u.completionTokens.GetOr(0.0), u.totalTokens.GetOr(0.0))
  }

  function LastUsage(cs: seq<Chunk>): Option<TokenUsage> {
    if cs == [] then None
    else if cs[|cs| - 1].usage.Some? then Some(UsageOf(cs[|cs| - 1].usage.value))
    else LastUsage(cs[..|cs| - 1])
  }

  /** The events the stream body carries, in order. */
  function RelayEvents(up: Upstream): seq<StreamEvent> {
    match up.end
    case Finished =>
      var u := LastUsage(up.chunks);
      TokenEvents(up.chunks) + (if u.Some? then [UsageEvent(u.value)] else []) + [DoneEvent]
    case Failed(e) =>
      TokenEvents(up.chunks) + [ErrorEvent(Some(ErrorText(e, StreamFailureMessage)))]
  }

  /** The `start` body of the response stream: enqueue a frame per event while consuming the chunks. */
  method StreamBody(codec: Codec, up: Upstream) returns (frames: seq<string>)
    ensures frames == Frames(codec, RelayEvents(up))
  {
    var usage: Option<TokenUsage> := None;
    frames := [];
    var i := 0;
    while i < |up.chunks|
      invariant 0 <= i <= |up.chunks|
      invariant frames == Frames(codec, TokenEvents(up.chunks[..i]))
      invariant usage == LastUsage(up.chunks[..i])
    {
      var chunk := up.chunks[i];
      assert up.chunks[..i + 1][..i] == up.chunks[..i];
      FramesAppend(codec, TokenEvents(up.chunks[..i]), TokenOf(chunk));
      if chunk.content.Some? && chunk.content.value != "" {
        frames := frames + [FormatSse(codec, EventToJson(TokenEvent(chunk.content)))];
      }
      if chunk.usage.Some? {
        usage := Some(UsageOf(chunk.usage.value));
      }
      i := i + 1;
    }
    assert up.chunks[..i] == up.chunks;
    var tokens := TokenEvents(up.chunks);
    match up.end {
      case Finished =>
        var tail := if usage.Some? then [UsageEvent(usage.value)] else [];
        FramesAppend(codec, tokens, tail);
        FramesAppend(codec, tokens + tail, [DoneEvent]);
        if usage.Some? {
          frames := frames + [FormatSse(codec, EventToJson(UsageEvent(usage.value)))];
        }
        frames := frames + [FormatSse(codec, EventToJson(DoneEvent))];
      case Failed(e) =>
        FramesAppend(codec, tokens, [ErrorEvent(Some(ErrorText(e, StreamFailureMessage)))]);
        frames := frames + [FormatSse(codec, EventToJson(ErrorEvent(Some(ErrorText(e, StreamFailureMessage)))))];
    }
  }

  function ErrorJson(message: string): Json {
    JObj(map["error" := JStr(message)])
  }

  /**
   * POST. `apiKey` is the environment's OPENAI_API_KEY, `body` the result of
   * reading the request body as JSON (None when it is malformed), `dispatch`
   * the provider's answer to a call.
   */
  method Post(codec: Codec, apiKey: Option<string>, body: Option<Json>, dispatch: UpstreamRequest -> Dispatch)
    returns (resp: Response)
    ensures !Truthy(apiKey) ==>
      resp == Response(500, [EventStreamType],
                       EventStream([FormatSse(codec, EventToJson(ErrorEvent(Some(MissingKeyMessage))))]))
    ensures Truthy(apiKey) && body.None? ==>
      resp == Response(400, [], JsonBody(ErrorJson(InvalidJsonMessage)))
    ensures Truthy(apiKey) && body.Some? && ParseChatRequest(body.value).Failure? ==>
      resp == Response(400, [], ValidationErrorBody(ParseChatRequest(body.value).error))
    ensures Truthy(apiKey) && body.Some? && ParseChatRequest(body.value).Success? ==>
      match dispatch(UpstreamCall(ParseChatRequest(body.value).value))
      case DispatchFailed(e) =>
        resp == Response(500, [], JsonBody(ErrorJson(ErrorText(e, DispatchFailureMessage))))
      case Dispatched(up) =>
        resp == Response(200, StreamHeaders, EventStream(Frames(codec, RelayEvents(up))))
  {
    if !Truthy(apiKey) {
      return Response(500, [EventStreamType],
                      EventStream([FormatSse(codec, EventToJson(ErrorEvent(Some(MissingKeyMessage))))]));
    }
    if body.None? {
      return Response(400, [], JsonBody(ErrorJson(InvalidJsonMessage)));
    }
    var parsed := ParseChatRequest(body.value);
    if parsed.Failure? {
      return Response(400, [], ValidationErrorBody(parsed.error));
    }
    var call := UpstreamCall(parsed.value);
    match dispatch(call) {
      case DispatchFailed(e) =>
        resp := Response(500, [], JsonBody(ErrorJson(ErrorText(e, DispatchFailureMessage))));
      case Dispatched(up) =>
        var frames := StreamBody(codec, up);
        resp := Response(200, StreamHeaders, EventStream(frames));
    }
  }

  // ---------------------------------------------------------------------------
  // Properties of the frame sequence.

  /** The non-empty delta contents of the chunks, front to back. */
  function Deltas(cs: seq<Chunk>): seq<string> {
    if cs == [] then [] else (if Truthy(cs[0].content) then [cs[0].content.value] else []) + Deltas(cs[1..])
  }

  lemma {:induction false} TokenEventsAppend(a: seq<Chunk>, b: seq<Chunk>)
    ensures TokenEvents(a + b) == TokenEvents(a) + TokenEvents(b)
    decreases |b|
  {
    if b == [] {
      assert a + b == a;
    } else {
      var b' := b[..|b| - 1];
      assert (a + b)[..|a + b| - 1] == a + b';
      assert (a + b)[|a + b| - 1] == b[|b| - 1];
      TokenEventsAppend(a, b');
    }
  }

  /** One token event per chunk whose delta content is non-empty, in chunk order, and nothing else. */
  lemma {:induction false} TokenEventsAreDeltas(cs: seq<Chunk>)
    ensures |TokenEvents(cs)| == |Deltas(cs)|
    ensures forall i :: 0 <= i < |Deltas(cs)| ==>
      TokenEvents(cs)[i] == TokenEvent(Some(Deltas(cs)[i])) && Deltas(cs)[i] != ""
  {
    if cs != [] {
      var rest := cs[1..];
      TokenEventsAreDeltas(rest);
      assert TokenEvents(cs) == TokenOf(cs[0]) + TokenEvents(rest) by {
        TokenEventsAppend([cs[0]], rest);
        assert [cs[0]] + rest == cs;
        assert TokenEvents([cs[0]]) == TokenOf(cs[0]);
      }
      if Truthy(cs[0].content) {
        var head := TokenEvent(Some(cs[0].content.value));
        assert TokenEvents(cs) == [head] + TokenEvents(rest);
        assert Deltas(cs) == [cs[0].content.value] + Deltas(rest);
      } else {
        assert TokenEvents(cs) == TokenEvents(rest);
        assert Deltas(cs) == Deltas(rest);
      }
    }
  }

  /** The last chunk that carries usage wins; no usage at all gives none. */
  lemma {:induction false} LastUsageWins(cs: seq<Chunk>)
    ensures LastUsage(cs).None? <==> forall k :: 0 <= k < |cs| ==> cs[k].usage.None?
    ensures LastUsage(cs).Some? ==>
      exists k :: 0 <= k < |cs| && cs[k].usage.Some?
        && LastUsage(cs).value == UsageOf(cs[k].usage.value)
        && forall j :: k < j < |cs| ==> cs[j].usage.None?
  {
    if cs != [] {
      var n := |cs| - 1;
      LastUsageWins(cs[..n]);
      assert forall k :: 0 <= k < n ==> cs[..n][k] == cs[k];
      if cs[n].usage.None? && LastUsage(cs).Some? {
        var k :| 0 <= k < n && cs[..n][k].usage.Some?
          && LastUsage(cs[..n]).value == UsageOf(cs[..n][k].usage.value)
          && forall j :: k < j < n ==> cs[..n][j].usage.None?;
        assert LastUsage(cs).value == UsageOf(cs[k].usage.value);
      }
    }
  }

  /**
   * The order of the frames: all token events first; on completion at most
   * one usage event, then exactly one done event, last; on a failure during
   * iteration exactly one error event, last, and neither usage nor done.
   */
  lemma RelayEventsOrder(up: Upstream)
    ensures var ev := RelayEvents(up); var n := |Deltas(up.chunks)|;
      && |ev| >= n + 1
      && (forall i :: 0 <= i < n ==> ev[i] == TokenEvent(Some(Deltas(up.chunks)[i])))
      && (up.end.Finished? ==>
            && ev[|ev| - 1] == DoneEvent
            && (forall i :: 0 <= i < |ev| - 1 ==> !ev[i].DoneEvent?)
            && (forall i, j :: 0 <= i < j < |ev| && ev[i].UsageEvent? && ev[j].UsageEvent? ==> i == j)
            && (|ev| == n + 2 <==> LastUsage(up.chunks).Some?)
            && (LastUsage(up.chunks).Some? ==> ev[n] == UsageEvent(LastUsage(up.chunks).value))
            && |ev| <= n + 2)
      && (up.end.Failed? ==>
            && |ev| == n + 1
            && ev[n] == ErrorEvent(Some(ErrorText(up.end.error, StreamFailureMessage)))
            && (forall i :: 0 <= i < |ev| ==> !ev[i].DoneEvent? && !ev[i].UsageEvent?))
  {
    TokenEventsAreDeltas(up.chunks);
  }

  /** The request `{messages: [{role: "user", content: "hi"}]}` reaches the provider with the defaults. */
  lemma DefaultsScenario()
    ensures var body := JObj(map["messages" := JArr([JObj(map["role" := JStr("user"), "content" := JStr("hi")])])]);
      ParseChatRequest(body).Success?
      && UpstreamCall(ParseChatRequest(body).value)
         == UpstreamRequest(Model, true, 0.7, 1024.0, [ChatMessage(UserRole, "hi")])
  {
    var m := JObj(map["role" := JStr("user"), "content" := JStr("hi")]);
    assert ParseChatMessage(m) == Some(ChatMessage(UserRole, "hi"));
    var r := ParseMessageList([m]);
    assert r.Some? && |r.value| == 1 && r.value[0] == ChatMessage(UserRole, "hi");
    assert r.value == [ChatMessage(UserRole, "hi")];
  }
}
