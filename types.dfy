/** The shared shapes of the relay protocol: token usage, the four stream events, chat messages. */
module Types {
  import opened Wrappers
  import opened JsonValue

  datatype TokenUsage = TokenUsage(promptTokens: real, completionTokens: real, totalTokens: real)

  /** The tagged union carried by every frame of the event stream. */
  datatype StreamEvent =
    | TokenEvent(content: Option<string>)
    | UsageEvent(usage: TokenUsage)
    | ErrorEvent(message: Option<string>)
    | DoneEvent

  datatype ChatRole = SystemRole | UserRole | AssistantRole

  datatype ChatMessage = ChatMessage(role: ChatRole, content: string)

  function RoleName(r: ChatRole): string {
    match r
    case SystemRole => "system"
    case UserRole => "user"
    case AssistantRole => "assistant"
  }

  /** A thrown JavaScript value, as far as the catch blocks look at it. */
  datatype Thrown =
    | AbortError(message: string)          // DOMException named "AbortError" (an Error)
    | ErrorWithMessage(message: string)    // any other Error instance
    | NotAnError                           // a thrown value that is not an Error

  /** A JavaScript string or undefined used as a condition. */
  predicate Truthy(s: Option<string>) {
    s.Some? && s.value != ""
  }

  /** `error instanceof Error ? error.message : fallback` */
  function ErrorText(e: Thrown, fallback: string): string {
    match e
    case AbortError(m) => m
    case ErrorWithMessage(m) => m
    case NotAnError => fallback
  }

  function UsageToJson(u: TokenUsage): Json {
    JObj(map["promptTokens" := JNum(u.promptTokens),
             "completionTokens" := JNum(u.completionTokens),
             "totalTokens" := JNum(u.totalTokens)])
  }

  /** The object handed to JSON.stringify for an event; an absent optional field is left out. */
  function EventToJson(e: StreamEvent): Json {
    match e
    case TokenEvent(c) =>
      if c.Some? then JObj(map["type" := JStr("token"), "content" := JStr(c.value)])
      else JObj(map["type" := JStr("token")])
    case UsageEvent(u) => JObj(map["type" := JStr("usage"), "usage" := UsageToJson(u)])
    case ErrorEvent(m) =>
      if m.Some? then JObj(map["type" := JStr("error"), "message" := JStr(m.value)])
      else JObj(map["type" := JStr("error")])
    case DoneEvent => JObj(map["type" := JStr("done")])
  }
}
