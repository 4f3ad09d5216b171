/**
 * The chat store: one object whose actions replace its fields with new
 * snapshots (the `set` calls of the zustand store), and the two async
 * orchestrators sendMessage and regenerateMessage, run sequentially over a
 * given answer of the network. Toasts and console output are left out.
 */
module Store {
  import opened Wrappers
  import opened JsonValue
  import opened Types
  import opened Text
  import opened StoreModel
  import Schema
  import Sse

  /** The controller whose signal goes to fetch; `abort()` is modelled by its flag. */
  class AbortController {
    var aborted: bool

    constructor ()
      ensures !aborted
    {
      aborted := false;
    }

    method Abort()
      modifies this
      ensures aborted
    {
      aborted := true;
    }
  }

  datatype StreamingState = StreamingState(conversationId: string, messageId: string, abortController: AbortController)

  /** Any two lists whose ids agree position by position are equally free of duplicates. */
  lemma SameIdsDistinct(a: seq<Conversation>, b: seq<Conversation>)
    requires |a| == |b| && forall i :: 0 <= i < |a| ==> a[i].id == b[i].id
    requires DistinctIds(a)
    ensures DistinctIds(b)
  {
    forall i, j | 0 <= i < j < |b| ensures b[i].id != b[j].id {
      assert a[i].id != a[j].id;
    }
  }

  class ChatStore {
    var conversations: seq<Conversation>
    var currentId: Option<string>
    var settings: Settings
    var hydrated: bool
    var composer: Composer
    var streaming: Option<StreamingState>

    /** The list is never empty and its ids are distinct (they are UUIDs). */
    ghost predicate Valid()
      reads this
    {
      |conversations| > 0 && DistinctIds(conversations)
    }

    /** The initial state: one default conversation, selected; settings and composer at their defaults. */
    constructor (initialId: string, now: string)
      ensures Valid()
      ensures conversations == [NewConversation(initialId, now)] && currentId == Some(initialId)
      ensures settings == InitialSettings && composer == InitialComposer
      ensures streaming.None? && !hydrated
    {
      conversations := [NewConversation(initialId, now)];
      currentId := Some(initialId);
      settings := InitialSettings;
      hydrated := false;
      composer := InitialComposer;
      streaming := None;
    }

    /** createConversation: prepend a new default conversation, select it, clear input and edit mode. */
    method CreateConversation(id: string, now: string) returns (newId: string)
      modifies this
      ensures conversations == StoreModel.CreateConversation(old(conversations), NewConversation(id, now))
      ensures newId == id && currentId == Some(id)
      ensures composer == old(composer).(input := "", editingMessageId := None)
      ensures settings == old(settings) && hydrated == old(hydrated) && streaming == old(streaming)
      ensures old(Valid()) && !HasId(old(conversations), id) ==> Valid()
    {
      var conversation := NewConversation(id, now);
      conversations := [conversation] + conversations;
      currentId := Some(conversation.id);
      composer := composer.(input := "", editingMessageId := None);
      newId := conversation.id;
    }

    /** selectConversation */
    method SelectConversation(id: string)
      modifies this
      ensures currentId == Some(id)
      ensures composer == old(composer).(input := "", editingMessageId := None)
      ensures conversations == old(conversations) && settings == old(settings)
      ensures hydrated == old(hydrated) && streaming == old(streaming)
    {
      currentId := Some(id);
      composer := composer.(input := "", editingMessageId := None);
    }

    /** deleteConversation; `spareId` and `now` make the default conversation used when none remain. */
    method DeleteConversation(id: string, spareId: string, now: string)
      modifies this
      ensures conversations == DeleteConversationList(old(conversations), id, NewConversation(spareId, now))
      ensures currentId == DeleteConversationCurrent(old(conversations), old(currentId), id, NewConversation(spareId, now))
      ensures composer == old(composer) && settings == old(settings)
      ensures hydrated == old(hydrated) && streaming == old(streaming)
      ensures old(Valid()) ==> Valid()
    {
      ghost var before := conversations;
      var remaining := RemoveConversation(conversations, id);
      if remaining == [] {
        remaining := [NewConversation(spareId, now)];
      }
      currentId := if currentId == Some(id) then Some(remaining[0].id) else currentId;
      conversations := remaining;
      if DistinctIds(before) {
        RemoveConversationDistinct(before, id);
      }
    }

    method TogglePin(id: string)
      modifies this`conversations
      ensures conversations == StoreModel.TogglePin(old(conversations), id)
      ensures currentId == old(currentId) && composer == old(composer) && settings == old(settings)
      ensures hydrated == old(hydrated) && streaming == old(streaming)
      ensures old(Valid()) ==> Valid()
    {
      ghost var before := conversations;
      conversations := StoreModel.TogglePin(conversations, id);
      if DistinctIds(before) {
        SameIdsDistinct(before, conversations);
      }
    }

    method UpdateConversationTitle(id: string, title: string, now: string)
      modifies this`conversations
      ensures conversations == StoreModel.UpdateConversationTitle(old(conversations), id, title, now)
      ensures currentId == old(currentId) && composer == old(composer) && settings == old(settings)
      ensures hydrated == old(hydrated) && streaming == old(streaming)
      ensures old(Valid()) ==> Valid()
    {
      ghost var before := conversations;
      conversations := StoreModel.UpdateConversationTitle(conversations, id, title, now);
      if DistinctIds(before) {
        SameIdsDistinct(before, conversations);
      }
    }

    method AddMessage(convId: string, message: Message, now: string)
      modifies this`conversations
      ensures conversations == StoreModel.AddMessage(old(conversations), convId, message, now)
      ensures currentId == old(currentId) && composer == old(composer) && settings == old(settings)
      ensures hydrated == old(hydrated) && streaming == old(streaming)
      ensures old(Valid()) ==> Valid()
    {
      ghost var before := conversations;
      conversations := StoreModel.AddMessage(conversations, convId, message, now);
      if DistinctIds(before) {
        SameIdsDistinct(before, conversations);
      }
    }

    method UpdateMessageContent(convId: string, msgId: string, content: string)
      modifies this`conversations
      ensures conversations == StoreModel.UpdateMessageContent(old(conversations), convId, msgId, content)
      ensures currentId == old(currentId) && composer == old(composer) && settings == old(settings)
      ensures hydrated == old(hydrated) && streaming == old(streaming)
      ensures old(Valid()) ==> Valid()
    {
      ghost var before := conversations;
      conversations := StoreModel.UpdateMessageContent(conversations, convId, msgId, content);
      if DistinctIds(before) {
        SameIdsDistinct(before, conversations);
      }
    }

    method MarkMessageError(convId: string, msgId: string, error: string)
      modifies this`conversations
      ensures conversations == StoreModel.MarkMessageError(old(conversations), convId, msgId, error)
      ensures currentId == old(currentId) && composer == old(composer) && settings == old(settings)
      ensures hydrated == old(hydrated) && streaming == old(streaming)
      ensures old(Valid()) ==> Valid()
    {
      ghost var before := conversations;
      conversations := StoreModel.MarkMessageError(conversations, convId, msgId, error);
      if DistinctIds(before) {
        SameIdsDistinct(before, conversations);
      }
    }

    method DeleteMessage(convId: string, msgId: string)
      modifies this`conversations
      ensures conversations == StoreModel.DeleteMessage(old(conversations), convId, msgId)
      ensures currentId == old(currentId) && composer == old(composer) && settings == old(settings)
      ensures hydrated == old(hydrated) && streaming == old(streaming)
      ensures old(Valid()) ==> Valid()
    {
      ghost var before := conversations;
      conversations := StoreModel.DeleteMessage(conversations, convId, msgId);
      if DistinctIds(before) {
        SameIdsDistinct(before, conversations);
      }
    }

    method SetUsage(convId: string, usage: TokenUsage)
      modifies this`conversations
      ensures conversations == StoreModel.SetUsage(old(conversations), convId, usage)
      ensures currentId == old(currentId) && composer == old(composer) && settings == old(settings)
      ensures hydrated == old(hydrated) && streaming == old(streaming)
      ensures old(Valid()) ==> Valid()
    {
      ghost var before := conversations;
      conversations := StoreModel.SetUsage(conversations, convId, usage);
      if DistinctIds(before) {
        SameIdsDistinct(before, conversations);
      }
    }

    /** startStreaming: record the stream and lock the composer; a previous stream is overwritten, not aborted. */
    method StartStreaming(s: StreamingState)
      modifies this
      ensures streaming == Some(s) && composer == old(composer).(isLocked := true)
      ensures conversations == old(conversations) && currentId == old(currentId)
      ensures settings == old(settings) && hydrated == old(hydrated)
    {
      streaming := Some(s);
      composer := composer.(isLocked := true);
    }

    /** stopStreaming: abort the recorded stream if any, then forget it and unlock the composer. */
    method StopStreaming()
      modifies this, if streaming.Some? then {streaming.value.abortController} else {}
      ensures streaming.None? && composer == old(composer).(isLocked := false)
      ensures old(streaming).Some? ==> old(streaming).value.abortController.aborted
      ensures conversations == old(conversations) && currentId == old(currentId)
      ensures settings == old(settings) && hydrated == old(hydrated)
      ensures old(streaming).None? && !old(composer).isLocked ==> unchanged(this)
    {
      if streaming.Some? {
        streaming.value.abortController.Abort();
      }
      streaming := None;
      composer := composer.(isLocked := false);
    }

    /** The staging half of sendMessage, up to the assistant placeholder; false on an early return. */
    method StageTurn(convId: string, content: string, freshUserId: string, asstId: string, now: string)
      returns (staged: bool)
      requires Valid()
      modifies this`conversations, this`composer
      ensures var st := StageSend(old(conversations), old(composer), convId, content, freshUserId, asstId, now);
        && staged == st.Some?
        && (st.None? ==> conversations == old(conversations) && composer == old(composer))
        && (st.Some? ==> conversations == st.value.conversations && composer == st.value.composer)
      ensures Valid()
    {
      ghost var cs := conversations;
      ghost var c0 := composer;
      var conversation := FindConversation(conversations, convId);
      if conversation.None? {
        return false;                                     // 会話が見つかりません
      }
      if Trim(content) == "" {
        return false;                                     // メッセージが空です
      }
      var conv := conversation.value;
      var editing := composer.editingMessageId;
      var userMessageId := editing.GetOr(freshUserId);
      if Truthy(editing) {
        var targetIndex := FindMessageIndex(conv.messages, editing.value);
        if targetIndex.None? {
          return false;                                   // 編集対象のメッセージが見つかりません
        }
        composer := composer.(input := "", editingMessageId := None);
      } else {
        composer := composer.(input := "");
      }
      // the edit branch replaces the target and drops what follows; the other appends a user message
      var turn := StageUserTurn(conv, editing, content, userMessageId, now).value;
      conversations := UpdateWhere(conversations, convId, (c: Conversation) => turn);
      assert forall i :: 0 <= i < |cs| ==> conversations[i].id == cs[i].id;
      SameIdsDistinct(cs, conversations);
      AddMessage(convId, Placeholder(asstId, now), now);
      StageSendOfTurn(cs, c0, convId, content, freshUserId, asstId, now, turn);
      staged := true;
    }

    /** One pass of the `for await` body on a parsed event: a non-empty token extends the accumulated
        text and writes it into the placeholder, a usage event replaces the conversation's usage, an
        error event with a message marks the placeholder; `done` changes nothing. */
    method HandleEvent(convId: string, asstId: string, ghost staged: seq<Conversation>,
                       ghost events: seq<StreamEvent>, event: StreamEvent, assistantContent: string)
      returns (content: string)
      requires Valid()
      requires conversations == ApplyEffect(staged, convId, asstId, EffectOf(events))
      requires assistantContent == EffectOf(events).content.GetOr("")
      modifies this`conversations
      ensures conversations == ApplyEffect(staged, convId, asstId, EffectOf(events + [event]))
      ensures content == EffectOf(events + [event]).content.GetOr("")
      ensures currentId == old(currentId) && composer == old(composer) && settings == old(settings)
      ensures hydrated == old(hydrated) && streaming == old(streaming)
      ensures Valid()
    {
      ghost var eff := EffectOf(events);
      assert (events + [event])[..|events|] == events;
      content := assistantContent;
      match event {
        case TokenEvent(c) =>
          if Truthy(c) {
            content := content + c.value;
            TokenStep(staged, convId, asstId, eff, content);
            UpdateMessageContent(convId, asstId, content);
          }
        case UsageEvent(u) =>
          UsageStep(staged, convId, asstId, eff, u);
          SetUsage(convId, u);
        case ErrorEvent(m) =>
          if Truthy(m) {
            ErrorStep(staged, convId, asstId, eff, m.value);
            MarkMessageError(convId, asstId, m.value);
          }
        case DoneEvent =>
      }
    }

    /** The `for await` loop over the yielded items, then the catch block (toasts left out). */
    method ConsumeStream(convId: string, asstId: string, run: Sse.Run, zodText: string)
      requires Valid()
      modifies this`conversations
      ensures conversations == ApplyEffect(old(conversations), convId, asstId, FinalEffect(run, zodText))
      ensures currentId == old(currentId) && composer == old(composer) && settings == old(settings)
      ensures hydrated == old(hydrated) && streaming == old(streaming)
      ensures Valid()
    {
      ghost var staged := conversations;
      ApplyNoEffect(staged, convId, asstId);
      var assistantContent := "";
      var failed := false;
      var i := 0;
      while i < |run.items|
        invariant 0 <= i <= |run.items|
        invariant !ParseItems(run.items[..i]).failed
        invariant conversations == ApplyEffect(staged, convId, asstId, EffectOf(ParseItems(run.items[..i]).events))
        invariant assistantContent == EffectOf(ParseItems(run.items[..i]).events).content.GetOr("")
        invariant currentId == old(currentId) && composer == old(composer) && settings == old(settings)
        invariant hydrated == old(hydrated) && streaming == old(streaming)
        invariant Valid()
      {
        ghost var events := ParseItems(run.items[..i]).events;
        assert run.items[..i + 1][..i] == run.items[..i];
        var parsed := ParseStreamEvent(run.items[i]);
        if parsed.None? {
          failed := true;
          break;
        }
        var event := parsed.value;
        assert ParseItems(run.items[..i + 1]) == Parsed(events + [event], false);
        assistantContent := HandleEvent(convId, asstId, staged, events, event, assistantContent);
        i := i + 1;
      }
      ghost var p := ParseItems(run.items[..i]);
      if failed {
        assert run.items[..i + 1][..i] == run.items[..i];
        assert ParseItems(run.items[..i + 1]) == Parsed(p.events, true);
        ParseItemsStops(run.items[..i + 1], run.items[i + 1..]);
        assert run.items[..i + 1] + run.items[i + 1..] == run.items;
        ErrorStep(staged, convId, asstId, EffectOf(p.events), zodText);
        MarkMessageError(convId, asstId, zodText);
      } else {
        assert run.items[..i] == run.items;
        if run.end.Threw? && !run.end.error.AbortError? {
          var message := ErrorText(run.end.error, UnexpectedErrorMessage);
          ErrorStep(staged, convId, asstId, EffectOf(p.events), message);
          MarkMessageError(convId, asstId, message);
        }
      }
    }

    /**
     * sendMessage. `freshUserId` and `asstId` are the UUIDs it draws, `now` its timestamp, `zodText`
     * the message of a ZodError, `network` what fetch answers for a payload.
     */
    method SendMessage(convId: string, content: string, freshUserId: string, asstId: string, now: string,
                       zodText: string, codec: Codec, network: Json -> Sse.Transport)
      requires Valid()
      modifies this
      ensures var o := Send(old(conversations), old(composer), old(settings), convId, content,
                            freshUserId, asstId, now, zodText, codec, network);
        && (o.Refused? ==> conversations == old(conversations) && composer == old(composer) && streaming == old(streaming))
        && (o.Sent? ==> conversations == o.conversations && composer == o.composer && streaming.None?)
      ensures currentId == old(currentId) && settings == old(settings) && hydrated == old(hydrated)
      ensures Valid()
    {
      ghost var outcome := Send(conversations, composer, settings, convId, content,
                                freshUserId, asstId, now, zodText, codec, network);
      ghost var st := StageSend(conversations, composer, convId, content, freshUserId, asstId, now);
      var staged := StageTurn(convId, content, freshUserId, asstId, now);
      if !staged {
        assert outcome == Refused;
        return;
      }
      assert st == Some(Staging(conversations, composer));
      var abortController := new AbortController();
      StartStreaming(StreamingState(convId, asstId, abortController));
      StreamReply(convId, asstId, zodText, codec, network);
      StopStreaming();
    }

    /** The try and catch blocks of sendMessage: build and check the payload, fetch, and fold the stream
        into the placeholder `asstId` (toasts and console output left out). */
    method StreamReply(convId: string, asstId: string, zodText: string, codec: Codec, network: Json -> Sse.Transport)
      requires Valid()
      modifies this`conversations
      ensures conversations == ApplyEffect(old(conversations), convId, asstId,
        StreamEffect(RequestPayload(old(conversations), old(settings), convId), zodText, codec, network))
      ensures currentId == old(currentId) && composer == old(composer) && settings == old(settings)
      ensures hydrated == old(hydrated) && streaming == old(streaming)
      ensures Valid()
    {
      var current := FindConversation(conversations, convId);
      var payload := Payload(if current.Some? then GetConversationMessages(current.value) else [], settings);
      if Schema.ParseChatRequest(payload).Success? {
        var run := Sse.FetchEventSourceStream(codec, network(payload));
        ConsumeStream(convId, asstId, run, zodText);
      } else {
        ErrorStep(conversations, convId, asstId, NoEffect, zodText);
        ApplyNoEffect(conversations, convId, asstId);
        MarkMessageError(convId, asstId, zodText);
      }
    }

    /** regenerateMessage: cut the history before the target, put the nearest preceding user message into
        edit mode, and send its content again. */
    method RegenerateMessage(convId: string, messageId: string, freshUserId: string, asstId: string, now: string,
                             zodText: string, codec: Codec, network: Json -> Sse.Transport)
      requires Valid()
      modifies this
      ensures var o := Regenerate(old(conversations), old(composer), old(settings), convId, messageId,
                                  freshUserId, asstId, now, zodText, codec, network);
        && (o.NotStaged? ==> conversations == old(conversations) && composer == old(composer) && streaming == old(streaming))
        && (o.Regenerated? && o.send.Refused? ==>
              conversations == o.staging.conversations && composer == o.staging.composer && streaming == old(streaming))
        && (o.Regenerated? && o.send.Sent? ==>
              conversations == o.send.conversations && composer == o.send.composer && streaming.None?)
      ensures currentId == old(currentId) && settings == old(settings) && hydrated == old(hydrated)
      ensures Valid()
    {
      var conversation := FindConversation(conversations, convId);
      if conversation.None? {
        return;
      }
      var targetIndex := FindMessageIndex(conversation.value.messages, messageId);
      if targetIndex.None? {
        return;
      }
      var t := targetIndex.value;
      var userIndex := NearestUser(conversation.value.messages[..t]);
      if userIndex.None? {
        return;                                           // 再生成できるユーザーメッセージがありません
      }
      var userMessage := conversation.value.messages[userIndex.value];
      ghost var cs := conversations;
      conversations := UpdateWhere(conversations, convId,
                                   (c: Conversation) => c.(messages := DropAssistant(Take(c.messages, t), messageId)));
      assert forall i :: 0 <= i < |cs| ==> conversations[i].id == cs[i].id;
      SameIdsDistinct(cs, conversations);
      composer := composer.(editingMessageId := Some(userMessage.id), input := userMessage.content);
      SendMessage(convId, userMessage.content, freshUserId, asstId, now, zodText, codec, network);
    }

    /** The rehydration callback: mark the store hydrated; a falsy current id with conversations selects the first. */
    method OnRehydrate()
      modifies this
      ensures hydrated
      ensures currentId == RehydratedCurrent(old(conversations), old(currentId))
      ensures conversations == old(conversations) && settings == old(settings) && streaming == old(streaming)
      ensures !Truthy(old(currentId)) && |old(conversations)| > 0 ==>
        composer == old(composer).(input := "", editingMessageId := None)
      ensures Truthy(old(currentId)) || old(conversations) == [] ==> composer == old(composer)
    {
      hydrated := true;
      if !Truthy(currentId) && |conversations| > 0 {
        SelectConversation(conversations[0].id);
      }
    }
  }
}
