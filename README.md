# NovaChat streaming core, modelled in Dafny

NovaChat is a chat front end with a streaming relay. This project models its four sequential parts
and proves properties of each part and of all four together.

- **Request validator** (`lib/schema.ts`, module `Schema`). `ChatMessageSchema` and `ChatRequestSchema`
  are a parse from a JSON value to a typed request, with the defaults 0.7 and 1024. An error names the
  failing top-level fields. The module also states the schema declaratively, field by field, and proves
  the parse equal to it.
- **Stream relay** (`app/api/chat/route.ts`, module `Relay`).
  - `formatSSE`.
  - The `POST` gates, in order: API key, then JSON, then schema, then the provider call.
  - The optional system message in front of the messages.
  - The `start` body of the response stream, as a method that appends one frame per event while it
    consumes the provider's chunks. Its events follow a fixed rule, defined as `RelayEvents`.
- **Event-stream client** (`lib/sse.ts`, module `Sse`).
  - The checks of `fetchEventSourceStream` on the response.
  - Its buffer loop, as two nested `while` loops: append a chunk, cut at each first blank line, trim,
    keep `data:` records, map `[DONE]` to a done event, skip what `JSON.parse` rejects.
  - The loops are proved equal to a function of the concatenated text.
- **Conversation store** (`lib/store.ts`).
  - Module `StoreModel` holds the state as values and each action as a pure transform:
    - the `createConversation` helper, `getConversationMessages` and `parseStreamEvent`;
    - the staging of `sendMessage` and `regenerateMessage`, and the fold of the streamed events into
      the assistant placeholder;
    - the rehydrate rule.
  - Module `Store` holds the zustand store as a class `ChatStore` whose fields the actions update.
    - `StopStreaming` aborts an `AbortController` object.
    - `SendMessage` and `RegenerateMessage` run the staging, the payload check, the stream and the
      `for await` loop on the fields. Each is proved to end in the state the pure model gives.
- **Pipeline** (module `Pipeline`) joins the relay and the client.
  - Parsing the relay's frames gives back exactly the events' JSON, however the transport cuts the text.
  - So a finished stream leaves the assistant message with the concatenated deltas and the
    conversation with the provider's last usage.

Foreign parts become parameters:

- `JSON.stringify`/`JSON.parse` are a `Codec` value. The predicate `CodecLaw(codec, j)` states what the
  round trip relies on for one JSON value `j`: decoding its encoding gives `j` back, and the encoding
  is non-empty, has no white space at either end, holds no blank line and is never the text `[DONE]`.
  The pipeline lemmas ask it only of the JSON of the events they frame (`Pipeline.Encodable`), never
  of every JSON value.
- The provider call is a function from the request to its chunks and how iteration ends.
- `fetch` is a function from the payload to a transport answer: a rejection, or a response with its
  status, its text and its body chunks.
- UUIDs and timestamps are parameters.
- The text of a ZodError is a parameter.

Where the code behaves differently from what a reader of its design might expect, the model follows the code:

- **No `done` after a failure.** When iteration over the provider's chunks throws, the relay writes one
  `error` frame and no `done` frame (`app/api/chat/route.ts:72-78`).
- **Parse failures are handled differently.** The client skips a payload `JSON.parse` rejects. But an
  item that `parseStreamEvent` rejects throws inside `sendMessage`: the loop stops, and the error is
  recorded on the placeholder (`lib/store.ts:392`, `lib/store.ts:407-415`).
- **No guard against a second send.** `startStreaming` overwrites a running stream's state and does
  not abort it.
- **Rehydrate replaces only a missing id.** It replaces a falsy `currentId` only. An id that no
  conversation has is kept.
- **An empty edit id is not edit mode.** An `editingMessageId` of `""` is falsy, so it does not select
  edit mode. But `??` still takes it as the new user message's id (`lib/store.ts:289-292`).

## Model

| member | source | states |
|---|---|---|
| `Text.TrimStartShape` | lib/sse.ts:43 | removing leading white space drops a maximal run of white space from the front and nothing else |
| `Text.TrimEndShape` | lib/sse.ts:40 | removing trailing white space drops a maximal run of white space from the back and nothing else |
| `Text.TrimEmptyIffAllSpace` | lib/store.ts:284 | `s.trim()` is empty exactly when every character of `s` is JavaScript white space |
| `Text.TrimBorders` | lib/sse.ts:40 | a trimmed string neither starts nor ends with white space |
| `Text.TrimOfTrimmed` | lib/sse.ts:40 | trimming a string that has no white space at either end leaves it unchanged |
| `Text.SliceTo` | lib/store.ts:314 | `slice(0, n)` is a prefix of length min(n, length) |
| `Text.IndexOfBoundary` | lib/sse.ts:38 | `indexOf("\n\n")` finds the first blank line, and finds none exactly when there is none |
| `Text.DecimalString` | lib/sse.ts:22 | the status code is rendered as a non-empty string of decimal digits that denotes it, with no leading zero unless it is 0 |
| `Text.DecimalStringUnique` | lib/sse.ts:22 | that rendering is the only digit string without a leading zero denoting its value |
| `Schema.ParseRole` | lib/schema.ts:4 | a role is accepted exactly when it is one of the strings system, user and assistant; the parsed role prints back as that string |
| `Schema.ParseMessageList` | lib/schema.ts:9 | a message array is accepted exactly when every element is accepted; the result has one message per element, in order |
| `Schema.ParseChatMessageExact` | lib/schema.ts:3-6 | a message is accepted exactly when it is an object with one of the three roles and a string content of length at least 1; the result carries that role and content |
| `Schema.MessagesExact` | lib/schema.ts:9 | `messages` is accepted exactly when it is an array with at least one element and every element is an acceptable message |
| `Schema.ParseChatRequestExact` | lib/schema.ts:8-13 | a request is accepted exactly when every field passes. The result holds the input's messages unchanged, the given temperature or 0.7, the given max_tokens or 1024, and the system string if present. A rejection names exactly the failing fields, or the whole value when it is not an object |
| `Schema.MaxTokensOutOfRangeRejected` | lib/schema.ts:11 | a max_tokens below 16 or above 4096 (5000, say) rejects the request and is named among the failing fields |
| `Schema.ParsedRequestIsValid` | lib/schema.ts:8-13 | an accepted request has at least one message, each content at least 1 long, temperature in [0, 2] and max_tokens in [16, 4096] |
| `Schema.ParseChatMessageToJson` | lib/schema.ts:3-6 | a message written as JSON parses back to itself exactly when its content is non-empty |
| `Schema.ParseMessageListToJson` | lib/schema.ts:9 | a list of messages with non-empty contents, written as JSON, parses back to itself |
| `Schema.ParseValidRequestToJson` | lib/schema.ts:8-13 | a valid request written as JSON parses back to itself |
| `Schema.ParseChatRequestToJson` | lib/schema.ts:8-13 | a request round-trips through its JSON exactly when it satisfies the schema |
| `Relay.FramesAppend` | app/api/chat/route.ts:58-75 | the frames of consecutive event runs are the frames of each run, concatenated |
| `Relay.RequestMessages` | app/api/chat/route.ts:37-40 | the validated messages come last and unchanged; one system message with the system text is in front exactly when `system` is a non-empty string |
| `Relay.StreamBody` | app/api/chat/route.ts:51-80 | the frames the stream body enqueues, by a loop over the chunks, are exactly the frames of the relay's events for that upstream |
| `Relay.Post` | app/api/chat/route.ts:14-93 | a missing key gives 500 with one error frame, before the body is looked at. Then malformed JSON gives 400 with an error object. Then a schema failure gives 400 with the field errors. Then a failed provider call gives 500 with its message or the fallback. Otherwise the response is 200 with the event-stream headers and the relay's frames |
| `Relay.TokenEventsAppend` | app/api/chat/route.ts:55-59 | the token events of consecutive chunk runs are those of each run, concatenated |
| `Relay.TokenEventsAreDeltas` | app/api/chat/route.ts:55-59 | exactly one token event per chunk whose delta content is non-empty, in chunk order, carrying that content |
| `Relay.LastUsageWins` | app/api/chat/route.ts:53-66 | there is no usage exactly when no chunk carries one. Otherwise it is the usage of the last chunk that carries one, with missing counts 0 |
| `Relay.RelayEventsOrder` | app/api/chat/route.ts:55-78 | token events come first. On completion, at most one usage event follows, and it is present exactly when some chunk reported usage; then exactly one done event, last. On a failure, exactly one error event with the failure's message follows, last, with no usage and no done |
| `Relay.DefaultsScenario` | app/api/chat/route.ts:37-49 | the request with a single user message "hi" reaches the provider with model gpt-5-mini, streaming, temperature 0.7 and 1024 max tokens |
| `Sse.SplitRecordsExact` | lib/sse.ts:38-41 | splitting loses nothing: the records, each with its terminator, followed by the tail give the buffer back. No record holds a blank line, and the tail holds no terminator |
| `Sse.IndexOfBoundaryAppend` | lib/sse.ts:36-38 | appending text does not move a blank line already in the buffer |
| `Sse.IndexOfBoundaryJoin` | lib/sse.ts:38-41 | the first blank line after a well-formed record is the one that terminates it |
| `Sse.SplitAppend` | lib/sse.ts:36-41 | after a chunk is appended, the records found so far stay, and only the old tail plus the chunk is split again |
| `Sse.SplitOfJoin` | lib/sse.ts:38-41 | splitting well-formed records, each with its terminator, followed by a tail without one gives back those records and that tail |
| `Sse.RecordPayloadShape` | lib/sse.ts:40-43 | a record has a payload exactly when its trimmed text starts with `data:`. The payload is the rest after `data:` and the white space following it |
| `Sse.ItemsAppend` | lib/sse.ts:39-56 | the items of consecutive record runs are those of each run, in record order |
| `Sse.ParseTextPrefix` | lib/sse.ts:33-56 | items parsed from a prefix are never revised; later text only adds items |
| `Sse.RecordStep` | lib/sse.ts:40-53 | a record whose trimmed text does not start with `data:` yields nothing. Otherwise the payload is what follows `data:` and all the white space after it; it yields the done event when it reads `[DONE]`, and else what JSON.parse makes of it, nothing when that fails |
| `Sse.PayloadStartUnique` | lib/sse.ts:43 | the payload of a `data:` record starts at exactly one position, so it is determined |
| `Sse.DrainOne` | lib/sse.ts:38-41 | one cut at the first blank line yields the first record's item, then the items of the rest |
| `Sse.DrainRecords` | lib/sse.ts:38-56 | the inner loop yields the items of every complete record in the buffer and leaves exactly the unterminated tail |
| `Sse.ReadBody` | lib/sse.ts:29-57 | the read loop over the chunks yields exactly the items of the concatenated text and leaves its tail in the buffer |
| `Sse.NonOkMessageShape` | lib/sse.ts:20-23 | the error message of a non-ok response is never empty: the body text when there is one, else `HTTP ` followed by decimal digits that denote the status, without a leading zero |
| `Sse.FetchEventSourceStream` | lib/sse.ts:20-61 | the generator, run to the end, yields and ends exactly as the function of the transport answer describes |
| `Sse.NonOkFailsFirst` | lib/sse.ts:20-23 | a non-ok response yields no item and throws the body text, or `HTTP <status>` if the text is empty |
| `Sse.TailNeverEmitted` | lib/sse.ts:33-41 | text after the last blank line contributes nothing, also when the stream ends |
| `Sse.ChunkingIrrelevant` | lib/sse.ts:36-41 | two chunkings of the same text yield the same items and the same ending |
| `Sse.SkippedRecord` | lib/sse.ts:47-52 | a record that yields nothing is skipped, and the records after it are still processed |
| `Sse.DataRecordItem` | lib/sse.ts:42-49 | a `data:` record whose payload is `[DONE]` yields a done event; any other payload yields what JSON.parse gives |
| `Sse.FrameRecordPayload` | lib/sse.ts:40-43 | a frame's record is well formed, and its payload is exactly the encoding the relay wrote |
| `StoreModel.UpdateWhereFrame` | lib/store.ts:166-260 | an id-preserving map over conversations keeps the length and the ids in order. Only conversations with the matching id change, and ids stay distinct |
| `StoreModel.UpdateMessageWhereFrame` | lib/store.ts:217-244 | a map over messages changes only the messages with the matching id, and keeps every id, role and position |
| `StoreModel.TogglePinTwice` | lib/store.ts:166-172 | togglePin applied twice is the identity |
| `StoreModel.AddMessageAppends` | lib/store.ts:203-216 | addMessage appends the message at the end of the matching conversation: one more message, the old ones first. Other conversations are unchanged |
| `StoreModel.RemoveConversationMembers` | lib/store.ts:155 | the filter keeps exactly the conversations with another id |
| `StoreModel.RemoveConversationDropsId` | lib/store.ts:155 | no conversation with the deleted id remains |
| `StoreModel.RemoveConversationAbsent` | lib/store.ts:155 | deleting an id that no conversation has changes nothing |
| `StoreModel.RemoveConversationDistinct` | lib/store.ts:155 | deleting keeps ids distinct |
| `StoreModel.RemoveConversationAt` | lib/store.ts:155 | with distinct ids, deleting the id at index k removes exactly that entry and keeps the order |
| `StoreModel.CreateConversationShape` | lib/store.ts:86-98 | createConversation puts exactly one conversation in front: the new id, the default title 新しいチャット, unpinned, no messages, zero usage. The old list follows unchanged, and ids stay distinct when the id is unused |
| `StoreModel.DeleteConversationRules` | lib/store.ts:153-165 | the list after deleteConversation is never empty and no longer holds the id. It is the filtered list, or just the fresh default conversation when nothing remains. The current id moves to the first remaining conversation exactly when the deleted one was current |
| `StoreModel.RemoveMessageShape` | lib/store.ts:249 | deleteMessage keeps exactly the messages with another id, and changes nothing when no message has the id. With distinct ids it removes exactly the message at the id's index and keeps the others in order |
| `StoreModel.RemoveMessageAppend` | lib/store.ts:249 | the filter of consecutive message runs is the filter of each run, concatenated, so the kept messages keep their order |
| `StoreModel.RemoveMessageAt` | lib/store.ts:249 | with distinct ids, deleting the message at index k leaves the messages before and after it, in order |
| `StoreModel.ConversationActionsFrame` | lib/store.ts:166-260 | togglePin, updateConversationTitle, addMessage, updateMessageContent, markMessageError, deleteMessage and setUsage keep the ids and their order, and every conversation but the target |
| `StoreModel.MessageActionsFrame` | lib/store.ts:217-253 | inside the target conversation, updateMessageContent and markMessageError change only the matching message, and only its content or its error. deleteMessage keeps exactly the other messages, in their order; with distinct ids it removes exactly the one at the id's index. Every other field of the conversation is kept |
| `StoreModel.RequestHistoryAppend` | lib/store.ts:100-106 | the request history of consecutive message runs is that of each run, concatenated |
| `StoreModel.RequestHistoryShape` | lib/store.ts:100-106 | the request history is no longer than the messages and holds no empty assistant message. Without placeholders it is every message's role and content, in order |
| `StoreModel.ParseStreamEventRoundTrip` | lib/store.ts:108-116 | every event the types allow passes parseStreamEvent as itself |
| `StoreModel.ParseStreamEventShape` | lib/store.ts:108-116 | an accepted item is an object whose `type` names the event; the optional strings are absent exactly when the item lacks them; any other `type` is rejected |
| `StoreModel.ReferenceAppend` | lib/store.ts:389-406 | one more event extends the token text, the presence of a token, the last usage and the last error message as the loop body would |
| `StoreModel.EffectOfSummary` | lib/store.ts:389-406 | the loop's result has content exactly when a non-empty token arrived. The content is the in-order concatenation of the non-empty tokens, the usage is the last usage event, and the error is the last non-empty error message |
| `StoreModel.ParseItemsShape` | lib/store.ts:391-392 | the parsed events are the items up to the first rejected one, each as parseStreamEvent gives it; a rejection is the item right after them |
| `StoreModel.ParseItemsStops` | lib/store.ts:391-392 | once an item is rejected, later items are never looked at |
| `StoreModel.ParseItemsOfEvents` | lib/store.ts:391-392 | items that are the JSON of events all pass, giving back those events in order |
| `StoreModel.ApplyNoEffect` | lib/store.ts:389-390 | before the first event the loop has changed nothing |
| `StoreModel.TokenStep` | lib/store.ts:393-398 | updateMessageContent with the accumulated text is the loop's state one token later |
| `StoreModel.UsageStep` | lib/store.ts:399-401 | setUsage with the event's usage is the loop's state one usage event later |
| `StoreModel.ErrorStep` | lib/store.ts:402-405 | markMessageError with the message is the loop's state one error event later |
| `StoreModel.FindConversation` | lib/store.ts:278 | `find` returns a conversation of the list with the id, and returns nothing exactly when none has it |
| `StoreModel.FindMessageIndex` | lib/store.ts:293 | `findIndex` returns the first index with the id, and -1 exactly when none has it |
| `StoreModel.SendRefusals` | lib/store.ts:276-297 | sendMessage stops without change exactly on a missing conversation, white-space-only content, or an edit target the conversation does not hold |
| `StoreModel.StageSendHistory` | lib/store.ts:289-348 | in edit mode at index k, the messages before k are kept and message k gets the new content with the same id and role. Everything after k is dropped, and the title changes only if the target is a user message. Otherwise one user message is appended. The default title becomes the first 24 characters of the content, when that is non-empty |
| `StoreModel.TitleFromContent` | lib/store.ts:312-315 | the new title of non-empty content is its first 24 characters, a prefix of the content |
| `StoreModel.StagedConversation` | lib/store.ts:289-375 | after staging, the conversation holds the user turn and then exactly one empty assistant placeholder, last. The request history leaves the placeholder out. Ids are kept, the input is cleared, and edit mode is cleared |
| `StoreModel.FindDistinct` | lib/store.ts:278 | with distinct ids, `find` on the id at index k returns that conversation |
| `StoreModel.SendFinalPlaceholder` | lib/store.ts:389-418 | after the stream, the placeholder keeps its id and role, and its content is the concatenation of the non-empty tokens. The conversation's usage is the last reported one. A rejected item records the ZodError text. An abort or a normal end records only error events. Any other failure records its message or the fallback |
| `StoreModel.NearestUser` | lib/store.ts:427-430 | the nearest preceding user message is a user message with no user message after it, and there is none exactly when no message before the target is a user's |
| `StoreModel.RegenerateRefusals` | lib/store.ts:420-435 | regenerateMessage stops without change exactly on a missing conversation, a missing message, or no user message before the target |
| `StoreModel.DropAssistantAbsent` | lib/store.ts:442 | the filter after the slice removes nothing when no message has the target's id |
| `StoreModel.RegenerateStaging` | lib/store.ts:437-454 | regeneration's staging leaves the conversation with exactly the messages before the target. Edit mode targets the nearest preceding user message, and its content is the text to resend |
| `StoreModel.StageSendEdit` | lib/store.ts:292-322 | a send in edit mode on the message at index u leaves the messages before u, that message with the new content, and one placeholder |
| `StoreModel.ResendUnchanged` | lib/store.ts:298-305 | re-sending the edit target's own content keeps that message exactly as it was |
| `StoreModel.RegenerateHistory` | lib/store.ts:420-457 | regenerating the reply at index t, whose nearest preceding user message is at u, always stages the same history. It holds the messages before u, that user message with the same id and content, and one new empty placeholder |
| `StoreModel.RehydrateSelection` | lib/store.ts:464-469 | after rehydration a falsy current id with a non-empty list selects the first conversation; anything else is kept |
| `Store.AbortController.constructor` | lib/store.ts:377 | a new controller is not aborted |
| `Store.AbortController.Abort` | lib/store.ts:269 | abort marks the controller aborted |
| `Store.ChatStore.constructor` | lib/store.ts:118-137 | the initial store holds one default conversation, which is current, with the default settings and an empty, unlocked composer, and no stream |
| `Store.ChatStore.CreateConversation` | lib/store.ts:138-146 | the new conversation is put in front and becomes current, and its id is returned. The input and edit mode are cleared, and the invariant is kept when the id is unused |
| `Store.ChatStore.SelectConversation` | lib/store.ts:147-152 | the id becomes current, and the input and edit mode are cleared |
| `Store.ChatStore.DeleteConversation` | lib/store.ts:153-165 | the list and the current id become what deleteConversation's rules give; the composer is unchanged and the invariant kept |
| `Store.ChatStore.TogglePin` | lib/store.ts:166-172 | only the list changes, as togglePin gives it; the invariant is kept |
| `Store.ChatStore.UpdateConversationTitle` | lib/store.ts:173-180 | only the list changes, as updateConversationTitle gives it; the invariant is kept |
| `Store.ChatStore.AddMessage` | lib/store.ts:203-216 | only the list changes, as addMessage gives it; the invariant is kept |
| `Store.ChatStore.UpdateMessageContent` | lib/store.ts:217-230 | only the list changes, as updateMessageContent gives it; the invariant is kept |
| `Store.ChatStore.MarkMessageError` | lib/store.ts:231-244 | only the list changes, as markMessageError gives it; the invariant is kept |
| `Store.ChatStore.DeleteMessage` | lib/store.ts:245-253 | only the list changes, as deleteMessage gives it; the invariant is kept |
| `Store.ChatStore.SetUsage` | lib/store.ts:254-260 | only the list changes, as setUsage gives it; the invariant is kept |
| `Store.ChatStore.StartStreaming` | lib/store.ts:261-265 | the stream state is set, overwriting any earlier one, and the composer is locked |
| `Store.ChatStore.StopStreaming` | lib/store.ts:266-275 | a running stream's controller is aborted. Afterwards there is no stream and the composer is unlocked. With no stream and an unlocked composer nothing changes, so a second call is idempotent |
| `Store.ChatStore.StageTurn` | lib/store.ts:277-375 | the two staging updates of sendMessage leave the list and composer that staging gives, or change nothing on a refusal; no other field is written |
| `Store.ChatStore.HandleEvent` | lib/store.ts:391-406 | one pass of the loop body on a parsed event leaves the list as the effect of the events so far plus that event gives it, and returns the accumulated text of the non-empty tokens |
| `Store.ChatStore.StreamReply` | lib/store.ts:380-415 | the try and catch blocks leave the list as the stream's effect applied to the placeholder: a ZodError on a payload the schema rejects, else the folded client run. Nothing else changes |
| `Store.ChatStore.ConsumeStream` | lib/store.ts:380-418 | the `for await` loop and the catch block leave the list as the stream's whole effect applied to the placeholder gives it |
| `Store.ChatStore.SendMessage` | lib/store.ts:276-419 | a refusal changes nothing. Otherwise the store ends in the staged, streamed state the model of sendMessage gives, with no stream and an unlocked composer |
| `Store.ChatStore.RegenerateMessage` | lib/store.ts:420-457 | a refusal changes nothing. A send that refuses leaves the regeneration's staging. Otherwise the store ends as the resend gives it, with no stream |
| `Store.ChatStore.OnRehydrate` | lib/store.ts:464-469 | the store is marked hydrated. A falsy current id with a non-empty list selects the first conversation and clears the input and edit mode. Otherwise the current id and the composer are kept |
| `Pipeline.FramesJoin` | app/api/chat/route.ts:10-12 | the concatenation of the `formatSSE` frames of the events is the run of `data: <encoding>` records, in event order, each followed by its blank line |
| `Pipeline.FrameItems` | lib/sse.ts:42-49 | when the codec's law holds for each event's JSON, the record of every frame yields that event's JSON again |
| `Pipeline.FramesRoundTrip` | lib/sse.ts:38-49 | `formatSSE` and the parser are inverse: when the codec's law holds for each event's JSON, parsing the concatenation of the frames of e1…en yields the JSON of e1…en, in order, and leaves an empty tail |
| `Pipeline.TokenRun` | lib/store.ts:393-398 | a run of non-empty token events gives the concatenation of their contents, and no usage and no error |
| `Pipeline.RelayEffect` | app/api/chat/route.ts:55-78 | the relayed events give the concatenation of the provider's non-empty deltas, present exactly when there was one. The usage is the last usage reported on completion and none after a failure. The error is the relay's failure message when it is non-empty |
| `Pipeline.RelayToStore` | lib/store.ts:388-406 | when the codec's law holds for the relayed events' JSON, however the transport chunks the relay's frames, the client yields the events' JSON and ends normally. Every item passes parseStreamEvent, and the store's effect is that of the relayed events |
| `Pipeline.CompletedAnswer` | lib/store.ts:389-406 | when the codec's law holds for the relayed events' JSON, a completed provider stream leaves the assistant message with the concatenated deltas and no error, and the conversation with the provider's last usage |

## Left out

- User interface:
  - Components, pages, hooks, markdown rendering and toasts are not part of this model.
  - `console` output is not modelled.
  - The state that only the UI reads is left out: `searchQuery`, `isSettingsOpen`, and the setters
    `updateSearchQuery`, `setTemperature`, `setMaxTokens`, `setSettingsOpen`, `setComposerInput`,
    `startEditing` and `cancelEditing`.
- The provider SDK (`lib/openai.ts` and the call at `app/api/chat/route.ts:43-49`) is a parameter.
  Only the chunks it yields and how iteration ends are modelled.
- `fetch`, `ReadableStream`, `TextEncoder`/`TextDecoder` and `releaseLock` are not modelled.
  - Bodies are sequences of strings, and UTF-8 decoding is not modelled.
  - Strings are sequences of characters, so `slice(0, 24)` counts characters, not UTF-16 code units.
  - A rejection of `response.text()` is not modelled.
  - The abort signal is not connected to the fetch. An abort appears only as a body read that throws
    an `AbortError`.
- JSON encoding and the exact text of zod errors are not modelled.
  - `JSON.stringify`/`JSON.parse` are an abstract codec.
  - `error.flatten()` is reduced to the set of failing fields and a flag for a non-object value.
  - A ZodError's message is a parameter.
- `crypto.randomUUID` and `new Date()` are parameters, and one timestamp serves a whole action.
- Persistence to `localStorage` is not modelled. Only the selection rule run after rehydration is.
- Concurrency and interleaving are not modelled.
  - `sendMessage` runs as one sequential pass: the whole client run is computed first, then the loop
    folds its items. This gives the same final state as the interleaved original when nothing else
    writes to the store meanwhile.
  - `stopStreaming` called during a stream is not modelled.
- Numbers are mathematical reals. Only range comparisons are made on numbers, and rounding cannot
  change their outcome for the user-facing values.
- `Relay.Post`: the body is given as already read. A body that is not valid JSON is `None`.
- `Store.ChatStore.SendMessage`: requires `Valid()`, which the source never checks. `Valid()` means at
  least one conversation and distinct conversation ids; the source gets this from `crypto.randomUUID`.
- `Store.ChatStore.RegenerateMessage`: requires `Valid()` for the same reason.
- `Store.ChatStore.CreateConversation`: keeps `Valid()` only when the new id is unused, the UUID
  assumption.
- `StoreModel.RegenerateHistory`: stated only when the nearest user message has a non-empty id and
  content that is not all white space, and only when the conversation's message ids are distinct, the
  UUID assumption (message ids come from `crypto.randomUUID`). In the other cases `sendMessage` appends a new user turn or
  refuses, and those cases are covered by `StoreModel.StageSendHistory` and `StoreModel.SendRefusals`.
- `StoreModel.DeleteConversationRules`: stated only when the fresh default conversation's id differs
  from the deleted id, the UUID assumption (the id comes from `crypto.randomUUID`).
- `Pipeline.FrameItems`, `Pipeline.FramesRoundTrip`, `Pipeline.RelayToStore` and
  `Pipeline.CompletedAnswer`: stated only when `CodecLaw` holds for the JSON of each event framed.
  This is what `JSON.stringify`/`JSON.parse` do on the relay's event objects (strings escaped, no
  white space, finite numbers), which is not provable about an abstract codec.
