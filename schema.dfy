/**
 * The request validator of the relay (ChatMessageSchema and ChatRequestSchema):
 * a JSON value is accepted or rejected as a whole; on acceptance the typed
 * request is the input's fields with the defaults filled in, and on rejection
 * the error names the fields that failed (the grouping of zod's flatten()).
 */
module Schema {
  import opened Wrappers
  import opened JsonValue
  import opened Types

  datatype ChatRequest = ChatRequest(
    messages: seq<ChatMessage>,
    temperature: real,
    maxTokens: real,
    system: Option<string>)

  /** formError: the value as a whole is not an object; fieldErrors: the top-level keys with issues. */
  datatype SchemaError = SchemaError(formError: bool, fieldErrors: set<string>)

  const DefaultTemperature: real := 0.7
  const DefaultMaxTokens: real := 1024.0

  /** z.enum(["system", "user", "assistant"]) */
  function ParseRole(j: Json): (r: Option<ChatRole>)
    ensures r.Some? <==> j in {JStr("system"), JStr("user"), JStr("assistant")}
    ensures r.Some? ==> j == JStr(RoleName(r.value))
  {
    if j == JStr("system") then Some(SystemRole)
    else if j == JStr("user") then Some(UserRole)
    else if j == JStr("assistant") then Some(AssistantRole)
    else None
  }

  /** ChatMessageSchema: an object with a known role and a content string of length at least 1. */
  function ParseChatMessage(j: Json): Option<ChatMessage> {
    match (Field(j, "role"), Field(j, "content"))
    case (Some(role), Some(JStr(content))) =>
      if ParseRole(role).Some? && |content| >= 1 then Some(ChatMessage(ParseRole(role).value, content)) else None
    case _ => None
  }

  /** z.array(ChatMessageSchema): every element must pass, and the output keeps their order. */
  function ParseMessageList(items: seq<Json>): (r: Option<seq<ChatMessage>>)
    ensures r.Some? <==> forall i :: 0 <= i < |items| ==> ParseChatMessage(items[i]).Some?
    ensures r.Some? ==> |r.value| == |items|
    ensures r.Some? ==> forall i :: 0 <= i < |items| ==> ParseChatMessage(items[i]) == Some(r.value[i])
  {
    if items == [] then Some([])
    else
      match (ParseChatMessage(items[0]), ParseMessageList(items[1..]))
      case (Some(m), Some(rest)) =>
        assert forall i :: 1 <= i < |items| ==> items[i] == items[1..][i - 1];
        Some([m] + rest)
      case (None, _) => None
      case (_, None) =>
        assert forall i :: 1 <= i < |items| ==> items[i] == items[1..][i - 1];
        None
  }

  /** messages: z.array(...).min(1), a required key. */
  function ParseMessages(v: Option<Json>): Option<seq<ChatMessage>> {
    match v
    case Some(JArr(items)) => if |items| >= 1 then ParseMessageList(items) else None
    case _ => None
  }

  /** z.number().min(lo).max(hi).default(d): an absent key takes the default, bounds are inclusive. */
  function ParseBoundedNumber(v: Option<Json>, lo: real, hi: real, default: real): Option<real> {
    match v
    case None => Some(default)
    case Some(JNum(n)) => if lo <= n <= hi then Some(n) else None
    case Some(_) => None
  }

  /** z.string().optional(): absent is fine, any string is fine (the empty one too). */
  function ParseSystem(v: Option<Json>): Option<Option<string>> {
    match v
    case None => Some(None)
    case Some(JStr(s)) => Some(Some(s))
    case Some(_) => None
  }

  function ParseTemperature(f: map<string, Json>): Option<real> {
    ParseBoundedNumber(Field(JObj(f), "temperature"), 0.0, 2.0, DefaultTemperature)
  }

  function ParseMaxTokens(f: map<string, Json>): Option<real> {
    ParseBoundedNumber(Field(JObj(f), "max_tokens"), 16.0, 4096.0, DefaultMaxTokens)
  }

  /** The top-level keys of an object whose values fail their field schema. */
  function FailingFields(f: map<string, Json>): set<string> {
    (if ParseMessages(Field(JObj(f), "messages")).None? then {"messages"} else {})
    + (if ParseTemperature(f).None? then {"temperature"} else {})
    + (if ParseMaxTokens(f).None? then {"max_tokens"} else {})
    + (if ParseSystem(Field(JObj(f), "system")).None? then {"system"} else {})
  }

  /** ChatRequestSchema.safeParse. Unknown keys are dropped, as z.object does. */
  function ParseChatRequest(j: Json): Result<ChatRequest, SchemaError> {
    match j
    case JObj(f) =>
      var messages := ParseMessages(Field(j, "messages"));
      var temperature := ParseTemperature(f);
      var maxTokens := ParseMaxTokens(f);
      var system := ParseSystem(Field(j, "system"));
      if messages.Some? && temperature.Some? && maxTokens.Some? && system.Some? then
        Success(ChatRequest(messages.value, temperature.value, maxTokens.value, system.value))
      else
        Failure(SchemaError(false, FailingFields(f)))
    case _ => Failure(SchemaError(true, {}))
  }

  // ---------------------------------------------------------------------------
  // The schema stated declaratively, field by field.

  predicate AcceptableMessage(j: Json) {
    && j.JObj?
    && "role" in j.fields && j.fields["role"] in {JStr("system"), JStr("user"), JStr("assistant")}
    && "content" in j.fields && j.fields["content"].JStr? && |j.fields["content"].s| >= 1
  }

  predicate MessagesAcceptable(f: map<string, Json>) {
    && "messages" in f && f["messages"].JArr?
    && |f["messages"].items| >= 1
    && forall i :: 0 <= i < |f["messages"].items| ==> AcceptableMessage(f["messages"].items[i])
  }

  predicate TemperatureAcceptable(f: map<string, Json>) {
    "temperature" !in f || (f["temperature"].JNum? && 0.0 <= f["temperature"].n <= 2.0)
  }

  predicate MaxTokensAcceptable(f: map<string, Json>) {
    "max_tokens" !in f || (f["max_tokens"].JNum? && 16.0 <= f["max_tokens"].n <= 4096.0)
  }

  predicate SystemAcceptable(f: map<string, Json>) {
    "system" !in f || f["system"].JStr?
  }

  predicate Acceptable(j: Json) {
    j.JObj? && MessagesAcceptable(j.fields) && TemperatureAcceptable(j.fields)
    && MaxTokensAcceptable(j.fields) && SystemAcceptable(j.fields)
  }

  lemma ParseChatMessageExact(j: Json)
    ensures ParseChatMessage(j).Some? <==> AcceptableMessage(j)
    ensures ParseChatMessage(j).Some? ==>
      && JStr(RoleName(ParseChatMessage(j).value.role)) == j.fields["role"]
      && ParseChatMessage(j).value.content == j.fields["content"].s
  {
  }

  lemma MessagesExact(f: map<string, Json>)
    ensures ParseMessages(Field(JObj(f), "messages")).Some? <==> MessagesAcceptable(f)
  {
    if "messages" in f && f["messages"].JArr? {
      var items := f["messages"].items;
      forall i | 0 <= i < |items| ensures ParseChatMessage(items[i]).Some? <==> AcceptableMessage(items[i]) {
        ParseChatMessageExact(items[i]);
      }
    }
  }

  /**
   * Validation is all-or-nothing: a value is accepted exactly when every field
   * passes; the accepted request carries the input's messages unchanged,
   * 0.7 and 1024 for an absent temperature and max_tokens, and the system
   * string when one is given; a rejection lists exactly the failing fields.
   */
  lemma ParseChatRequestExact(j: Json)
    ensures ParseChatRequest(j).Success? <==> Acceptable(j)
    ensures ParseChatRequest(j).Success? ==>
      var r := ParseChatRequest(j).value;
      var items := j.fields["messages"].items;
      && |r.messages| == |items|
      && (forall i :: 0 <= i < |items| ==>
            && JStr(RoleName(r.messages[i].role)) == items[i].fields["role"]
            && r.messages[i].content == items[i].fields["content"].s)
      && r.temperature == (if "temperature" in j.fields then j.fields["temperature"].n else 0.7)
      && r.maxTokens == (if "max_tokens" in j.fields then j.fields["max_tokens"].n else 1024.0)
      && r.system == (if "system" in j.fields then Some(j.fields["system"].s) else None)
    ensures ParseChatRequest(j).Failure? ==>
      var e := ParseChatRequest(j).error;
      && (e.formError <==> !j.JObj?)
      && (j.JObj? ==>
            && ("messages" in e.fieldErrors <==> !MessagesAcceptable(j.fields))
            && ("temperature" in e.fieldErrors <==> !TemperatureAcceptable(j.fields))
            && ("max_tokens" in e.fieldErrors <==> !MaxTokensAcceptable(j.fields))
            && ("system" in e.fieldErrors <==> !SystemAcceptable(j.fields))
            && e.fieldErrors <= {"messages", "temperature", "max_tokens", "system"})
  {
    if j.JObj? {
      MessagesExact(j.fields);
      if ParseChatRequest(j).Success? {
        var items := j.fields["messages"].items;
        forall i | 0 <= i < |items|
          ensures JStr(RoleName(ParseChatRequest(j).value.messages[i].role)) == items[i].fields["role"]
          ensures ParseChatRequest(j).value.messages[i].content == items[i].fields["content"].s
        {
          ParseChatMessageExact(items[i]);
        }
      }
    }
  }

  /** A max_tokens outside [16, 4096] (5000, say) is always rejected, with an error on max_tokens. */
  lemma MaxTokensOutOfRangeRejected(f: map<string, Json>, n: real)
    requires "max_tokens" in f && f["max_tokens"] == JNum(n)
    requires n < 16.0 || n > 4096.0
    ensures ParseChatRequest(JObj(f)).Failure?
    ensures "max_tokens" in ParseChatRequest(JObj(f)).error.fieldErrors
  {
  }

  // ---------------------------------------------------------------------------
  // The typed request and its JSON image.

  predicate ValidChatRequest(r: ChatRequest) {
    && |r.messages| >= 1
    && (forall i :: 0 <= i < |r.messages| ==> |r.messages[i].content| >= 1)
    && 0.0 <= r.temperature <= 2.0
    && 16.0 <= r.maxTokens <= 4096.0
  }

  function ChatMessageToJson(m: ChatMessage): Json {
    JObj(map["role" := JStr(RoleName(m.role)), "content" := JStr(m.content)])
  }

  function MessagesToJson(ms: seq<ChatMessage>): (r: seq<Json>)
    ensures |r| == |ms| && forall i :: 0 <= i < |ms| ==> r[i] == ChatMessageToJson(ms[i])
  {
    seq(|ms|, i requires 0 <= i < |ms| => ChatMessageToJson(ms[i]))
  }

  /** The object a client sends: every field written out, `system` only when present. */
  function ChatRequestToJson(r: ChatRequest): Json {
    var base := map["messages" := JArr(MessagesToJson(r.messages)),
                    "temperature" := JNum(r.temperature),
                    "max_tokens" := JNum(r.maxTokens)];
    if r.system.Some? then JObj(base["system" := JStr(r.system.value)]) else JObj(base)
  }

  lemma ParseChatMessageToJson(m: ChatMessage)
    ensures ParseChatMessage(ChatMessageToJson(m)) == if |m.content| >= 1 then Some(m) else None
  {
    match m.role
    case SystemRole =>
    case UserRole =>
    case AssistantRole =>
  }

  lemma ParseMessageListToJson(ms: seq<ChatMessage>)
    requires forall i :: 0 <= i < |ms| ==> |ms[i].content| >= 1
    ensures ParseMessageList(MessagesToJson(ms)) == Some(ms)
  {
    var js := MessagesToJson(ms);
    forall i | 0 <= i < |ms| ensures ParseChatMessage(js[i]) == Some(ms[i]) {
      ParseChatMessageToJson(ms[i]);
    }
    var parsed := ParseMessageList(js);
    assert parsed.Some?;
    assert forall i :: 0 <= i < |ms| ==> parsed.value[i] == ms[i];
    assert parsed.value == ms;
  }

  /** Whatever the validator accepts satisfies the typed constraints. */
  lemma ParsedRequestIsValid(j: Json)
    requires ParseChatRequest(j).Success?
    ensures ValidChatRequest(ParseChatRequest(j).value)
  {
    var r := ParseChatRequest(j).value;
    var items := j.fields["messages"].items;
    forall i | 0 <= i < |r.messages| ensures |r.messages[i].content| >= 1 {
      assert ParseChatMessage(items[i]) == Some(r.messages[i]);
    }
  }

  lemma ParseValidRequestToJson(r: ChatRequest)
    requires ValidChatRequest(r)
    ensures ParseChatRequest(ChatRequestToJson(r)) == Success(r)
  {
    var j := ChatRequestToJson(r);
    var js := MessagesToJson(r.messages);
    assert Field(j, "messages") == Some(JArr(js));
    assert Field(j, "temperature") == Some(JNum(r.temperature));
    assert Field(j, "max_tokens") == Some(JNum(r.maxTokens));
    assert Field(j, "system") == if r.system.Some? then Some(JStr(r.system.value)) else None;
    ParseMessageListToJson(r.messages);
  }

  /** Round trip: the JSON image of a typed request is accepted, giving back the same request,
      exactly when the request satisfies the schema's constraints. */
  lemma ParseChatRequestToJson(r: ChatRequest)
    ensures ParseChatRequest(ChatRequestToJson(r)) == Success(r) <==> ValidChatRequest(r)
  {
    if ValidChatRequest(r) {
      ParseValidRequestToJson(r);
    } else if ParseChatRequest(ChatRequestToJson(r)).Success? {
      ParsedRequestIsValid(ChatRequestToJson(r));
    }
  }
}
