/**
 * The conversation store as values: the records it holds, every action as a
 * transform of a snapshot, the event check of the client (parseStreamEvent),
 * the staging of a send or a regeneration, and the fold of a stream of events
 * into the assistant placeholder. The class in module Store applies these.
 */
module StoreModel {
  import opened Wrappers
  import opened JsonValue
  import opened Types
  import opened Text
  import Schema
  import Sse

  datatype Role = User | Assistant

  datatype Message = Message(id: string, role: Role, content: string, createdAt: string, error: Option<string>)

  datatype Conversation = Conversation(
    id: string,
    title: string,
    pinned: bool,
    createdAt: string,
    updatedAt: string,
    messages: seq<Message>,
    usage: TokenUsage)

  datatype Composer = Composer(input: string, isLocked: bool, editingMessageId: Option<string>)

  datatype Settings = Settings(temperature: real, maxTokens: real, model: string)

  const DefaultTitle := "新しいチャット"
  const DefaultUsage := TokenUsage(0.0, 0.0, 0.0)
  const UnexpectedErrorMessage := "予期せぬエラーが発生しました"
  const InitialSettings := Settings(0.7, 1024.0, "gpt-5-mini")
  const InitialComposer := Composer("", false, None)

  /** The createConversation helper: a new id and one timestamp for both dates. */
  function NewConversation(id: string, now: string): Conversation {
    Conversation(id, DefaultTitle, false, now, now, [], DefaultUsage)
  }

  predicate HasId(cs: seq<Conversation>, id: string) {
    exists i :: 0 <= i < |cs| && cs[i].id == id
  }

  predicate DistinctIds(cs: seq<Conversation>) {
    forall i, j :: 0 <= i < j < |cs| ==> cs[i].id != cs[j].id
  }

  predicate DistinctMessageIds(ms: seq<Message>) {
    forall i, j :: 0 <= i < j < |ms| ==> ms[i].id != ms[j].id
  }

  function Ids(cs: seq<Conversation>): seq<string> {
    seq(|cs|, i requires 0 <= i < |cs| => cs[i].id)
  }

  /** `conversations.map(conv => conv.id === id ? f(conv) : conv)` */
  function UpdateWhere(cs: seq<Conversation>, id: string, f: Conversation -> Conversation): seq<Conversation> {
    seq(|cs|, i requires 0 <= i < |cs| => if cs[i].id == id then f(cs[i]) else cs[i])
  }

  /** `messages.map(msg => msg.id === id ? g(msg) : msg)` */
  function UpdateMessageWhere(ms: seq<Message>, id: string, g: Message -> Message): seq<Message> {
    seq(|ms|, i requires 0 <= i < |ms| => if ms[i].id == id then g(ms[i]) else ms[i])
  }

  /** `conversations.filter(conv => conv.id !== id)` */
  function RemoveConversation(cs: seq<Conversation>, id: string): seq<Conversation> {
    if cs == [] then []
    else (if cs[0].id != id then [cs[0]] else []) + RemoveConversation(cs[1..], id)
  }

  /** `messages.filter(msg => msg.id !== id)` */
  function RemoveMessage(ms: seq<Message>, id: string): seq<Message> {
    if ms == [] then []
    else (if ms[0].id != id then [ms[0]] else []) + RemoveMessage(ms[1..], id)
  }

  // ---------------------------------------------------------------------------
  // The snapshot actions.

  function TogglePin(cs: seq<Conversation>, id: string): seq<Conversation> {
    UpdateWhere(cs, id, (c: Conversation) => c.(pinned := !c.pinned))
  }

  function UpdateConversationTitle(cs: seq<Conversation>, id: string, title: string, now: string): seq<Conversation> {
    UpdateWhere(cs, id, (c: Conversation) => c.(title := title, updatedAt := now))
  }

  function AddMessage(cs: seq<Conversation>, convId: string, m: Message, now: string): seq<Conversation> {
    UpdateWhere(cs, convId, (c: Conversation) => c.(messages := c.messages + [m], updatedAt := now))
  }

  function UpdateMessageContent(cs: seq<Conversation>, convId: string, msgId: string, content: string): seq<Conversation> {
    UpdateWhere(cs, convId, (c: Conversation) => c.(messages := UpdateMessageWhere(c.messages, msgId, (m: Message) => m.(content := content))))
  }

  function MarkMessageError(cs: seq<Conversation>, convId: string, msgId: string, error: string): seq<Conversation> {
    UpdateWhere(cs, convId, (c: Conversation) => c.(messages := UpdateMessageWhere(c.messages, msgId, (m: Message) => m.(error := Some(error)))))
  }

  function DeleteMessage(cs: seq<Conversation>, convId: string, msgId: string): seq<Conversation> {
    UpdateWhere(cs, convId, (c: Conversation) => c.(messages := RemoveMessage(c.messages, msgId)))
  }

  function SetUsage(cs: seq<Conversation>, convId: string, usage: TokenUsage): seq<Conversation> {
    UpdateWhere(cs, convId, (c: Conversation) => c.(usage := usage))
  }

  /** createConversation: the new conversation goes in front. */
  function CreateConversation(cs: seq<Conversation>, spare: Conversation): seq<Conversation> {
    [spare] + cs
  }

  /** createConversation puts exactly one conversation in front of the list: the given id, the default
      title, unpinned, no messages, zero usage and both dates `now`; the rest of the list is kept, and
      ids stay distinct when the new id is unused. */
  lemma CreateConversationShape(cs: seq<Conversation>, id: string, now: string)
    ensures var r := CreateConversation(cs, NewConversation(id, now));
      && |r| == |cs| + 1 && r[1..] == cs
      && r[0].id == id && r[0].title == DefaultTitle && !r[0].pinned
      && r[0].messages == [] && r[0].usage == TokenUsage(0.0, 0.0, 0.0)
      && r[0].createdAt == now && r[0].updatedAt == now
      && (DistinctIds(cs) && !HasId(cs, id) ==> DistinctIds(r))
  {
    var r := CreateConversation(cs, NewConversation(id, now));
    if DistinctIds(cs) && !HasId(cs, id) {
      forall i, j | 0 <= i < j < |r| ensures r[i].id != r[j].id {
        if i > 0 {
          assert r[i] == cs[i - 1] && r[j] == cs[j - 1];
        } else {
          assert r[j] == cs[j - 1];
        }
      }
    }
  }

  /** deleteConversation: drop the id; an emptied list gets a fresh default conversation. */
  function DeleteConversationList(cs: seq<Conversation>, id: string, spare: Conversation): seq<Conversation> {
    var remaining := RemoveConversation(cs, id);
    if remaining == [] then [spare] else remaining
  }

  /** The current id after deleting `id`: the first remaining conversation when the deleted one was current. */
  function DeleteConversationCurrent(cs: seq<Conversation>, current: Option<string>, id: string, spare: Conversation): Option<string> {
    if current == Some(id) then Some(DeleteConversationList(cs, id, spare)[0].id) else current
  }

  // ---------------------------------------------------------------------------
  // Properties of the snapshot actions.

  /** A per-id action changes nothing but the matching conversation, keeps the order and the ids. */
  lemma UpdateWhereFrame(cs: seq<Conversation>, id: string, f: Conversation -> Conversation)
    requires forall c :: f(c).id == c.id
    ensures |UpdateWhere(cs, id, f)| == |cs|
    ensures Ids(UpdateWhere(cs, id, f)) == Ids(cs)
    ensures forall i :: 0 <= i < |cs| && cs[i].id != id ==> UpdateWhere(cs, id, f)[i] == cs[i]
    ensures forall i :: 0 <= i < |cs| && cs[i].id == id ==> UpdateWhere(cs, id, f)[i] == f(cs[i])
    ensures DistinctIds(cs) ==> DistinctIds(UpdateWhere(cs, id, f))
  {
    var r := UpdateWhere(cs, id, f);
    assert forall i :: 0 <= i < |cs| ==> Ids(r)[i] == Ids(cs)[i];
  }

  /** Inside the matching conversation, a per-message action changes only the matching message. */
  lemma UpdateMessageWhereFrame(ms: seq<Message>, id: string, g: Message -> Message)
    requires forall m :: g(m).id == m.id && g(m).role == m.role
    ensures |UpdateMessageWhere(ms, id, g)| == |ms|
    ensures forall i :: 0 <= i < |ms| ==>
      UpdateMessageWhere(ms, id, g)[i] == (if ms[i].id == id then g(ms[i]) else ms[i])
    ensures forall i :: 0 <= i < |ms| ==>
      UpdateMessageWhere(ms, id, g)[i].id == ms[i].id && UpdateMessageWhere(ms, id, g)[i].role == ms[i].role
  {
  }

  /** togglePin applied twice is the identity. */
  lemma TogglePinTwice(cs: seq<Conversation>, id: string)
    ensures TogglePin(TogglePin(cs, id), id) == cs
  {
    var once := TogglePin(cs, id);
    var twice := TogglePin(once, id);
    assert |twice| == |cs|;
    forall i | 0 <= i < |cs| ensures twice[i] == cs[i] {
      assert once[i].id == cs[i].id;
    }
  }

  /** addMessage appends the message at the end of the matching conversation and nowhere else. */
  lemma AddMessageAppends(cs: seq<Conversation>, convId: string, m: Message, now: string)
    ensures |AddMessage(cs, convId, m, now)| == |cs|
    ensures forall i :: 0 <= i < |cs| && cs[i].id == convId ==>
      && AddMessage(cs, convId, m, now)[i].messages == cs[i].messages + [m]
      && |AddMessage(cs, convId, m, now)[i].messages| == |cs[i].messages| + 1
    ensures forall i :: 0 <= i < |cs| && cs[i].id != convId ==> AddMessage(cs, convId, m, now)[i] == cs[i]
  {
  }

  /** The filter keeps exactly the conversations with another id. */
  lemma {:induction false} RemoveConversationMembers(cs: seq<Conversation>, id: string)
    ensures forall c :: c in RemoveConversation(cs, id) <==> c in cs && c.id != id
  {
    if cs != [] {
      RemoveConversationMembers(cs[1..], id);
      assert cs == [cs[0]] + cs[1..];
    }
  }

  lemma RemoveConversationDropsId(cs: seq<Conversation>, id: string)
    ensures !HasId(RemoveConversation(cs, id), id)
  {
    RemoveConversationMembers(cs, id);
    var r := RemoveConversation(cs, id);
    forall i | 0 <= i < |r| ensures r[i].id != id {
      assert r[i] in r;
    }
  }

  /** When no conversation has the id, the filter changes nothing. */
  lemma {:induction false} RemoveConversationAbsent(cs: seq<Conversation>, id: string)
    requires !HasId(cs, id)
    ensures RemoveConversation(cs, id) == cs
  {
    if cs != [] {
      assert cs[0].id != id;
      assert !HasId(cs[1..], id) by {
        forall i | 0 <= i < |cs[1..]| ensures cs[1..][i].id != id {
          assert cs[1..][i] == cs[i + 1];
        }
      }
      RemoveConversationAbsent(cs[1..], id);
      assert [cs[0]] + cs[1..] == cs;
    }
  }

  lemma {:induction false} RemoveConversationDistinct(cs: seq<Conversation>, id: string)
    requires DistinctIds(cs)
    ensures DistinctIds(RemoveConversation(cs, id))
  {
    if cs != [] {
      var t := cs[1..];
      DistinctTail(cs);
      RemoveConversationDistinct(t, id);
      RemoveConversationMembers(t, id);
      var tail := RemoveConversation(t, id);
      if cs[0].id != id {
        forall j | 0 <= j < |tail| ensures tail[j].id != cs[0].id {
          assert tail[j] in tail;
          var k :| 0 <= k < |t| && t[k] == tail[j];
          assert cs[k + 1] == tail[j];
        }
        assert RemoveConversation(cs, id) == [cs[0]] + tail;
      } else {
        assert RemoveConversation(cs, id) == tail;
      }
    }
  }

  lemma HeadAbsentFromTail(cs: seq<Conversation>)
    requires DistinctIds(cs) && cs != []
    ensures !HasId(cs[1..], cs[0].id)
  {
    forall i | 0 <= i < |cs[1..]| ensures cs[1..][i].id != cs[0].id {
      assert cs[1..][i] == cs[i + 1];
    }
  }

  lemma DistinctTail(cs: seq<Conversation>)
    requires DistinctIds(cs) && cs != []
    ensures DistinctIds(cs[1..])
  {
    var t := cs[1..];
    forall i, j | 0 <= i < j < |t| ensures t[i].id != t[j].id {
      assert t[i] == cs[i + 1] && t[j] == cs[j + 1];
    }
  }

  /** With distinct ids, deleting the conversation at index k leaves the others in order. */
  lemma {:induction false} RemoveConversationAt(cs: seq<Conversation>, k: nat)
    requires DistinctIds(cs) && k < |cs|
    ensures RemoveConversation(cs, cs[k].id) == cs[..k] + cs[k + 1..]
  {
    var id := cs[k].id;
    if k == 0 {
      HeadAbsentFromTail(cs);
      RemoveConversationAbsent(cs[1..], id);
      assert cs[..0] + cs[1..] == cs[1..];
    } else {
      var t := cs[1..];
      DistinctTail(cs);
      assert t[k - 1] == cs[k];
      RemoveConversationAt(t, k - 1);
      assert cs[0].id != id;
      assert RemoveConversation(cs, id) == [cs[0]] + RemoveConversation(t, id);
      assert t[..k - 1] == cs[1..k] && t[k..] == cs[k + 1..];
      assert [cs[0]] + cs[1..k] == cs[..k];
    }
  }

  /** deleteConversation: the id is gone, the list is never empty, a fresh default conversation appears
      only when nothing remained, and the current id moves only when the current one was deleted. */
  lemma DeleteConversationRules(cs: seq<Conversation>, current: Option<string>, id: string, spare: Conversation)
    requires spare.id != id
    ensures var r := DeleteConversationList(cs, id, spare);
      && |r| > 0
      && !HasId(r, id)
      && (RemoveConversation(cs, id) == [] ==> r == [spare])
      && (RemoveConversation(cs, id) != [] ==> r == RemoveConversation(cs, id))
    ensures current == Some(id) ==>
      DeleteConversationCurrent(cs, current, id, spare) == Some(DeleteConversationList(cs, id, spare)[0].id)
    ensures current != Some(id) ==> DeleteConversationCurrent(cs, current, id, spare) == current
  {
    RemoveConversationDropsId(cs, id);
  }

  /** The filter keeps every other message in order and drops the ones with the id: with distinct
      ids, exactly the message at the id's index goes and the rest keep their order. */
  lemma {:induction false} RemoveMessageShape(ms: seq<Message>, id: string)
    ensures forall m :: m in RemoveMessage(ms, id) <==> m in ms && m.id != id
    ensures (forall i :: 0 <= i < |ms| ==> ms[i].id != id) ==> RemoveMessage(ms, id) == ms
    ensures |RemoveMessage(ms, id)| <= |ms|
    ensures DistinctMessageIds(ms) ==>
      forall k :: 0 <= k < |ms| && ms[k].id == id ==> RemoveMessage(ms, id) == ms[..k] + ms[k + 1..]
  {
    RemoveMessageMembers(ms, id);
    if forall i :: 0 <= i < |ms| ==> ms[i].id != id {
      RemoveMessageAbsent(ms, id);
    }
    if DistinctMessageIds(ms) {
      forall k | 0 <= k < |ms| && ms[k].id == id
        ensures RemoveMessage(ms, id) == ms[..k] + ms[k + 1..]
      {
        RemoveMessageAt(ms, k);
      }
    }
  }

  lemma {:induction false} RemoveMessageMembers(ms: seq<Message>, id: string)
    ensures forall m :: m in RemoveMessage(ms, id) <==> m in ms && m.id != id
    ensures |RemoveMessage(ms, id)| <= |ms|
  {
    if ms != [] {
      var rest := ms[1..];
      RemoveMessageMembers(rest, id);
      assert ms == [ms[0]] + rest;
      if ms[0].id != id {
        assert RemoveMessage(ms, id) == [ms[0]] + RemoveMessage(rest, id);
      } else {
        assert RemoveMessage(ms, id) == RemoveMessage(rest, id);
      }
    }
  }

  lemma {:induction false} RemoveMessageAbsent(ms: seq<Message>, id: string)
    requires forall i :: 0 <= i < |ms| ==> ms[i].id != id
    ensures RemoveMessage(ms, id) == ms
  {
    if ms != [] {
      var rest := ms[1..];
      assert forall i :: 0 <= i < |rest| ==> rest[i] == ms[i + 1];
      RemoveMessageAbsent(rest, id);
      assert [ms[0]] + rest == ms;
    }
  }

  /** The filter works message by message: filtering a concatenation filters each part in place,
      so the kept messages stay in their order. */
  lemma {:induction false} RemoveMessageAppend(a: seq<Message>, b: seq<Message>, id: string)
    ensures RemoveMessage(a + b, id) == RemoveMessage(a, id) + RemoveMessage(b, id)
  {
    if a == [] {
      assert a + b == b;
    } else {
      assert (a + b)[0] == a[0];
      assert (a + b)[1..] == a[1..] + b;
      RemoveMessageAppend(a[1..], b, id);
    }
  }

  lemma DistinctMessageTail(ms: seq<Message>)
    requires DistinctMessageIds(ms) && ms != []
    ensures DistinctMessageIds(ms[1..])
    ensures forall i :: 0 <= i < |ms[1..]| ==> ms[1..][i].id != ms[0].id
  {
    var t := ms[1..];
    forall i, j | 0 <= i < j < |t| ensures t[i].id != t[j].id {
      assert t[i] == ms[i + 1] && t[j] == ms[j + 1];
    }
    forall i | 0 <= i < |t| ensures t[i].id != ms[0].id {
      assert t[i] == ms[i + 1];
    }
  }

  /** With distinct ids, deleting the message at index k leaves the others, in order. */
  lemma {:induction false} RemoveMessageAt(ms: seq<Message>, k: nat)
    requires DistinctMessageIds(ms) && k < |ms|
    ensures RemoveMessage(ms, ms[k].id) == ms[..k] + ms[k + 1..]
  {
    var id := ms[k].id;
    var t := ms[1..];
    DistinctMessageTail(ms);
    if k == 0 {
      RemoveMessageAbsent(t, id);
      assert ms[..0] + ms[1..] == t;
    } else {
      assert t[k - 1] == ms[k];
      RemoveMessageAt(t, k - 1);
      assert ms[0].id != id;
      assert RemoveMessage(ms, id) == [ms[0]] + RemoveMessage(t, id);
      assert t[..k - 1] == ms[1..k] && t[k..] == ms[k + 1..];
      assert [ms[0]] + ms[1..k] == ms[..k];
    }
  }

  /** An action on conversation `id` keeps the ids, their order and every other conversation. */
  predicate OnlyTarget(cs: seq<Conversation>, r: seq<Conversation>, id: string) {
    && |r| == |cs|
    && Ids(r) == Ids(cs)
    && forall i :: 0 <= i < |cs| && cs[i].id != id ==> r[i] == cs[i]
  }

  /** An action on message `id` keeps the ids, roles and order of the messages, and every other message. */
  predicate OnlyMessage(ms: seq<Message>, r: seq<Message>, id: string) {
    && |r| == |ms|
    && (forall j :: 0 <= j < |ms| ==> r[j].id == ms[j].id && r[j].role == ms[j].role)
    && (forall j :: 0 <= j < |ms| && ms[j].id != id ==> r[j] == ms[j])
  }

  /** The per-id conversation actions change the matching conversation only. */
  lemma ConversationActionsFrame(cs: seq<Conversation>, convId: string, msgId: string, title: string,
                                 now: string, content: string, error: string, usage: TokenUsage, message: Message)
    ensures OnlyTarget(cs, TogglePin(cs, convId), convId)
    ensures OnlyTarget(cs, UpdateConversationTitle(cs, convId, title, now), convId)
    ensures OnlyTarget(cs, AddMessage(cs, convId, message, now), convId)
    ensures OnlyTarget(cs, UpdateMessageContent(cs, convId, msgId, content), convId)
    ensures OnlyTarget(cs, MarkMessageError(cs, convId, msgId, error), convId)
    ensures OnlyTarget(cs, DeleteMessage(cs, convId, msgId), convId)
    ensures OnlyTarget(cs, SetUsage(cs, convId, usage), convId)
  {
    assert OnlyTarget(cs, TogglePin(cs, convId), convId) by {
      UpdateWhereFrame(cs, convId, (c: Conversation) => c.(pinned := !c.pinned));
    }
    assert OnlyTarget(cs, UpdateConversationTitle(cs, convId, title, now), convId) by {
      UpdateWhereFrame(cs, convId, (c: Conversation) => c.(title := title, updatedAt := now));
    }
    assert OnlyTarget(cs, AddMessage(cs, convId, message, now), convId) by {
      UpdateWhereFrame(cs, convId, (c: Conversation) => c.(messages := c.messages + [message], updatedAt := now));
    }
    assert OnlyTarget(cs, UpdateMessageContent(cs, convId, msgId, content), convId) by {
      UpdateWhereFrame(cs, convId, (c: Conversation) => c.(messages := UpdateMessageWhere(c.messages, msgId, (m: Message) => m.(content := content))));
    }
    assert OnlyTarget(cs, MarkMessageError(cs, convId, msgId, error), convId) by {
      UpdateWhereFrame(cs, convId, (c: Conversation) => c.(messages := UpdateMessageWhere(c.messages, msgId, (m: Message) => m.(error := Some(error)))));
    }
    assert OnlyTarget(cs, DeleteMessage(cs, convId, msgId), convId) by {
      UpdateWhereFrame(cs, convId, (c: Conversation) => c.(messages := RemoveMessage(c.messages, msgId)));
    }
    assert OnlyTarget(cs, SetUsage(cs, convId, usage), convId) by {
      UpdateWhereFrame(cs, convId, (c: Conversation) => c.(usage := usage));
    }
  }

  /** Inside the matching conversation, the message actions change the matching message only, and only
      the field they set; deleteMessage keeps exactly the messages with another id; every other field of
      the conversation is kept. */
  lemma MessageActionsFrame(cs: seq<Conversation>, convId: string, msgId: string, content: string,
                            error: string, k: nat)
    requires k < |cs| && cs[k].id == convId
    ensures var ms := cs[k].messages;
      var updated := UpdateMessageContent(cs, convId, msgId, content)[k];
      var marked := MarkMessageError(cs, convId, msgId, error)[k];
      var deleted := DeleteMessage(cs, convId, msgId)[k];
      && updated == cs[k].(messages := updated.messages)
      && marked == cs[k].(messages := marked.messages)
      && deleted == cs[k].(messages := deleted.messages)
      && OnlyMessage(ms, updated.messages, msgId)
      && OnlyMessage(ms, marked.messages, msgId)
      && (forall j :: 0 <= j < |ms| && ms[j].id == msgId ==>
            updated.messages[j] == ms[j].(content := content) && marked.messages[j] == ms[j].(error := Some(error)))
      && (forall x :: x in deleted.messages <==> x in ms && x.id != msgId)
      && ((forall j :: 0 <= j < |ms| ==> ms[j].id != msgId) ==> deleted.messages == ms)
      && (DistinctMessageIds(ms) ==>
            forall j :: 0 <= j < |ms| && ms[j].id == msgId ==> deleted.messages == ms[..j] + ms[j + 1..])
  {
    EditedAt(cs, convId, msgId, content, error, k);
    DeletedAt(cs, convId, msgId, k);
  }

  lemma EditedAt(cs: seq<Conversation>, convId: string, msgId: string, content: string, error: string, k: nat)
    requires k < |cs| && cs[k].id == convId
    ensures var ms := cs[k].messages;
      var updated := UpdateMessageContent(cs, convId, msgId, content)[k];
      var marked := MarkMessageError(cs, convId, msgId, error)[k];
      && updated == cs[k].(messages := updated.messages)
      && marked == cs[k].(messages := marked.messages)
      && OnlyMessage(ms, updated.messages, msgId)
      && OnlyMessage(ms, marked.messages, msgId)
      && (forall j :: 0 <= j < |ms| && ms[j].id == msgId ==>
            updated.messages[j] == ms[j].(content := content) && marked.messages[j] == ms[j].(error := Some(error)))
  {
    var ms := cs[k].messages;
    UpdateMessageWhereFrame(ms, msgId, (m: Message) => m.(content := content));
    UpdateMessageWhereFrame(ms, msgId, (m: Message) => m.(error := Some(error)));
  }

  lemma DeletedAt(cs: seq<Conversation>, convId: string, msgId: string, k: nat)
    requires k < |cs| && cs[k].id == convId
    ensures var ms := cs[k].messages;
      var deleted := DeleteMessage(cs, convId, msgId)[k];
      && deleted == cs[k].(messages := RemoveMessage(ms, msgId))
      && (forall x :: x in deleted.messages <==> x in ms && x.id != msgId)
      && ((forall j :: 0 <= j < |ms| ==> ms[j].id != msgId) ==> deleted.messages == ms)
      && (DistinctMessageIds(ms) ==>
            forall j :: 0 <= j < |ms| && ms[j].id == msgId ==> deleted.messages == ms[..j] + ms[j + 1..])
  {
    RemoveMessageShape(cs[k].messages, msgId);
  }

  // ---------------------------------------------------------------------------
  // getConversationMessages: the request history.

  function ToChat(m: Message): ChatMessage {
    ChatMessage(if m.role == User then UserRole else AssistantRole, m.content)
  }

  /** An assistant message that has no content yet: the placeholder of a reply in progress. */
  predicate IsPlaceholder(m: Message) {
    m.role == Assistant && |m.content| == 0
  }

  /** The history sent upstream: the messages minus the empty assistant ones, as role and content. */
  function RequestHistory(ms: seq<Message>): seq<ChatMessage> {
    if ms == [] then []
    else RequestHistory(ms[..|ms| - 1]) + (if IsPlaceholder(ms[|ms| - 1]) then [] else [ToChat(ms[|ms| - 1])])
  }

  function GetConversationMessages(c: Conversation): seq<ChatMessage> {
    RequestHistory(c.messages)
  }

  /** The history of a concatenation is the concatenation of the histories (filter and map keep order). */
  lemma {:induction false} RequestHistoryAppend(a: seq<Message>, b: seq<Message>)
    ensures RequestHistory(a + b) == RequestHistory(a) + RequestHistory(b)
    decreases |b|
  {
    if b == [] {
      assert a + b == a;
    } else {
      var b' := b[..|b| - 1];
      assert (a + b)[..|a + b| - 1] == a + b';
      assert (a + b)[|a + b| - 1] == b[|b| - 1];
      RequestHistoryAppend(a, b');
    }
  }

  /** Every placeholder is dropped and every other message is kept, as its role and content. */
  lemma {:induction false} RequestHistoryShape(ms: seq<Message>)
    ensures |RequestHistory(ms)| <= |ms|
    ensures forall i :: 0 <= i < |RequestHistory(ms)| ==>
      !(RequestHistory(ms)[i].role == AssistantRole && RequestHistory(ms)[i].content == [])
    ensures (forall i :: 0 <= i < |ms| ==> !IsPlaceholder(ms[i])) ==>
      RequestHistory(ms) == seq(|ms|, i requires 0 <= i < |ms| => ToChat(ms[i]))
  {
    if ms != [] {
      var init := ms[..|ms| - 1];
      RequestHistoryShape(init);
      if forall i :: 0 <= i < |ms| ==> !IsPlaceholder(ms[i]) {
        assert forall i :: 0 <= i < |init| ==> init[i] == ms[i];
      }
    }
  }

  // ---------------------------------------------------------------------------
  // parseStreamEvent: the client's discriminated-union check of one yielded item.

  function NumberField(f: map<string, Json>, key: string): Option<real> {
    if key in f && f[key].JNum? then Some(f[key].n) else None
  }

  /** An object with the three counts as numbers; other keys are stripped. */
  function ParseTokenUsage(j: Json): Option<TokenUsage> {
    if !j.JObj? then None
    else
      var p := NumberField(j.fields, "promptTokens");
      var c := NumberField(j.fields, "completionTokens");
      var t := NumberField(j.fields, "totalTokens");
      if p.Some? && c.Some? && t.Some? then Some(TokenUsage(p.value, c.value, t.value)) else None
  }

  /** `z.string().optional()` on a parsed object: an absent key is fine, a present one must hold a string. */
  function OptionalString(f: map<string, Json>, key: string): Option<Option<string>> {
    if key !in f then Some(None)
    else if f[key].JStr? then Some(Some(f[key].s))
    else None
  }

  /** The tag each event carries in its `type` field. */
  function EventType(e: StreamEvent): string {
    match e
    case TokenEvent(_) => "token"
    case UsageEvent(_) => "usage"
    case ErrorEvent(_) => "error"
    case DoneEvent => "done"
  }

  /** parseStreamEvent; None where `schema.parse` throws. */
  function ParseStreamEvent(j: Json): Option<StreamEvent> {
    if !j.JObj? || "type" !in j.fields || !j.fields["type"].JStr? then None
    else
      var f := j.fields;
      var tag := f["type"].s;
      if tag == "token" then
        var c := OptionalString(f, "content");
        if c.Some? then Some(TokenEvent(c.value)) else None
      else if tag == "usage" then
        var u := if "usage" in f then ParseTokenUsage(f["usage"]) else None;
        if u.Some? then Some(UsageEvent(u.value)) else None
      else if tag == "error" then
        var m := OptionalString(f, "message");
        if m.Some? then Some(ErrorEvent(m.value)) else None
      else if tag == "done" then Some(DoneEvent)
      else None
  }

  /** Every event the relay sends passes the client's check unchanged. */
  lemma ParseStreamEventRoundTrip(e: StreamEvent)
    ensures ParseStreamEvent(EventToJson(e)) == Some(e)
  {
    match e
    case TokenEvent(c) =>
    case UsageEvent(u) =>
      var j := EventToJson(e);
      assert j.fields["usage"] == UsageToJson(u);
    case ErrorEvent(m) =>
    case DoneEvent =>
  }

  /** An accepted item is an object whose `type` names the event, and whose optional string fields
      are absent exactly when the event leaves them out. */
  lemma ParseStreamEventShape(j: Json)
    ensures ParseStreamEvent(j).Some? ==>
      && j.JObj?
      && Field(j, "type") == Some(JStr(EventType(ParseStreamEvent(j).value)))
    ensures ParseStreamEvent(j).Some? && ParseStreamEvent(j).value.TokenEvent? ==>
      Field(j, "content") == (match ParseStreamEvent(j).value.content case None => None case Some(c) => Some(JStr(c)))
    ensures ParseStreamEvent(j).Some? && ParseStreamEvent(j).value.ErrorEvent? ==>
      Field(j, "message") == (match ParseStreamEvent(j).value.message case None => None case Some(m) => Some(JStr(m)))
    ensures j.JObj? && Field(j, "type") == Some(JStr("done")) ==> ParseStreamEvent(j) == Some(DoneEvent)
    ensures (j.JObj? && "type" in j.fields && j.fields["type"].JStr?
             && j.fields["type"].s !in {"token", "usage", "error", "done"}) ==> ParseStreamEvent(j).None?
  {
  }

  // ---------------------------------------------------------------------------
  // The fold of the yielded items into the assistant placeholder.

  /** What the events seen so far have done: the accumulated content once a token arrived,
      the last usage, the last error message. */
  datatype Effect = Effect(content: Option<string>, usage: Option<TokenUsage>, error: Option<string>)

  const NoEffect := Effect(None, None, None)

  /** One event through the body of the `for await` loop. */
  function EventEffect(eff: Effect, e: StreamEvent): Effect {
    match e
    case TokenEvent(c) => if Truthy(c) then eff.(content := Some(eff.content.GetOr("") + c.value)) else eff
    case UsageEvent(u) => eff.(usage := Some(u))
    case ErrorEvent(m) => if Truthy(m) then eff.(error := Some(m.value)) else eff
    case DoneEvent => eff
  }

  function EffectOf(events: seq<StreamEvent>): Effect {
    if events == [] then NoEffect else EventEffect(EffectOf(events[..|events| - 1]), events[|events| - 1])
  }

  /** The events parsed before the first item parseStreamEvent rejects, and whether one was rejected. */
  datatype Parsed = Parsed(events: seq<StreamEvent>, failed: bool)

  function ParseItems(items: seq<Json>): Parsed {
    if items == [] then Parsed([], false)
    else
      var p := ParseItems(items[..|items| - 1]);
      if p.failed then p
      else match ParseStreamEvent(items[|items| - 1])
        case None => Parsed(p.events, true)
        case Some(e) => Parsed(p.events + [e], false)
  }

  /** The effect of a whole stream: what the loop did, then what the catch block adds.
      A rejected item throws a ZodError (an Error whose message is `zodText`); an abort adds nothing;
      any other failure records its message. */
  function FinalEffect(run: Sse.Run, zodText: string): Effect {
    var p := ParseItems(run.items);
    var eff := EffectOf(p.events);
    if p.failed then eff.(error := Some(zodText))
    else match run.end
      case Returned => eff
      case Threw(e) => if e.AbortError? then eff else eff.(error := Some(ErrorText(e, UnexpectedErrorMessage)))
  }

  function EffectOnMessage(m: Message, eff: Effect): Message {
    m.(content := eff.content.GetOr(m.content), error := if eff.error.Some? then eff.error else m.error)
  }

  function EffectOnConversation(c: Conversation, asstId: string, eff: Effect): Conversation {
    c.(usage := eff.usage.GetOr(c.usage),
       messages := UpdateMessageWhere(c.messages, asstId, (m: Message) => EffectOnMessage(m, eff)))
  }

  /** The conversations once an effect has been applied to the placeholder and its conversation. */
  function ApplyEffect(cs: seq<Conversation>, convId: string, asstId: string, eff: Effect): seq<Conversation> {
    UpdateWhere(cs, convId, (c: Conversation) => EffectOnConversation(c, asstId, eff))
  }

  // Reference definitions, read front to back.

  /** The in-order concatenation of the non-empty token contents. */
  function TokenText(events: seq<StreamEvent>): string {
    if events == [] then ""
    else
      (if events[0].TokenEvent? && Truthy(events[0].content) then events[0].content.value else "")
      + TokenText(events[1..])
  }

  predicate HasToken(events: seq<StreamEvent>) {
    exists i :: 0 <= i < |events| && events[i].TokenEvent? && Truthy(events[i].content)
  }

  /** The usage of the last usage event. */
  function LastUsageIn(events: seq<StreamEvent>): Option<TokenUsage> {
    if events == [] then None
    else
      var later := LastUsageIn(events[1..]);
      if later.Some? then later else if events[0].UsageEvent? then Some(events[0].usage) else None
  }

  /** The message of the last error event that carries a non-empty one. */
  function LastErrorIn(events: seq<StreamEvent>): Option<string> {
    if events == [] then None
    else
      var later := LastErrorIn(events[1..]);
      if later.Some? then later
      else if events[0].ErrorEvent? && Truthy(events[0].message) then events[0].message
      else None
  }

  lemma {:induction false} ReferenceAppend(events: seq<StreamEvent>, e: StreamEvent)
    ensures TokenText(events + [e]) == TokenText(events) + TokenText([e])
    ensures HasToken(events + [e]) <==> HasToken(events) || (e.TokenEvent? && Truthy(e.content))
    ensures LastUsageIn(events + [e]) == if e.UsageEvent? then Some(e.usage) else LastUsageIn(events)
    ensures LastErrorIn(events + [e]) == if e.ErrorEvent? && Truthy(e.message) then e.message else LastErrorIn(events)
  {
    TokenTextAppend(events, e);
    HasTokenAppend(events, e);
    LastUsageAppend(events, e);
    LastErrorAppend(events, e);
  }

  lemma {:induction false} TokenTextAppend(events: seq<StreamEvent>, e: StreamEvent)
    ensures TokenText(events + [e]) == TokenText(events) + TokenText([e])
  {
    var all := events + [e];
    if events == [] {
      assert all == [e];
    } else {
      assert all[0] == events[0];
      assert all[1..] == events[1..] + [e];
      TokenTextAppend(events[1..], e);
    }
  }

  lemma HasTokenAppend(events: seq<StreamEvent>, e: StreamEvent)
    ensures HasToken(events + [e]) <==> HasToken(events) || (e.TokenEvent? && Truthy(e.content))
  {
    var all := events + [e];
    if HasToken(events) {
      var i :| 0 <= i < |events| && events[i].TokenEvent? && Truthy(events[i].content);
      assert all[i] == events[i];
    }
    if e.TokenEvent? && Truthy(e.content) {
      assert all[|events|] == e;
    }
    if HasToken(all) {
      var i :| 0 <= i < |all| && all[i].TokenEvent? && Truthy(all[i].content);
      if i < |events| {
        assert events[i] == all[i];
      }
    }
  }

  lemma {:induction false} LastUsageAppend(events: seq<StreamEvent>, e: StreamEvent)
    ensures LastUsageIn(events + [e]) == if e.UsageEvent? then Some(e.usage) else LastUsageIn(events)
  {
    var all := events + [e];
    if events == [] {
      assert all == [e];
      assert all[1..] == [];
    } else {
      assert all[0] == events[0];
      assert all[1..] == events[1..] + [e];
      LastUsageAppend(events[1..], e);
    }
  }

  lemma {:induction false} LastErrorAppend(events: seq<StreamEvent>, e: StreamEvent)
    ensures LastErrorIn(events + [e]) == if e.ErrorEvent? && Truthy(e.message) then e.message else LastErrorIn(events)
  {
    var all := events + [e];
    if events == [] {
      assert all == [e];
      assert all[1..] == [];
    } else {
      assert all[0] == events[0];
      assert all[1..] == events[1..] + [e];
      LastErrorAppend(events[1..], e);
    }
  }

  /** The loop's accumulated effect agrees with the reference definitions: the content is the
      concatenation of the non-empty tokens (set once any arrived), the usage is the last one
      reported, the error the last non-empty error message. */
  lemma {:induction false} EffectOfSummary(events: seq<StreamEvent>)
    ensures EffectOf(events).content.Some? <==> HasToken(events)
    ensures EffectOf(events).content.GetOr("") == TokenText(events)
    ensures EffectOf(events).usage == LastUsageIn(events)
    ensures EffectOf(events).error == LastErrorIn(events)
  {
    if events != [] {
      var init := events[..|events| - 1];
      var e := events[|events| - 1];
      EffectOfSummary(init);
      ReferenceAppend(init, e);
      assert init + [e] == events;
      assert [e][1..] == [];
    }
  }

  /** The events are the parses of the longest prefix of items that parse; on a rejection the
      first rejected item is the one right after them. */
  lemma {:induction false} ParseItemsShape(items: seq<Json>)
    ensures |ParseItems(items).events| <= |items|
    ensures forall i :: 0 <= i < |ParseItems(items).events| ==>
      ParseStreamEvent(items[i]) == Some(ParseItems(items).events[i])
    ensures !ParseItems(items).failed ==> |ParseItems(items).events| == |items|
    ensures ParseItems(items).failed ==>
      |ParseItems(items).events| < |items| && ParseStreamEvent(items[|ParseItems(items).events|]).None?
  {
    if items != [] {
      var init := items[..|items| - 1];
      ParseItemsShape(init);
      assert forall i :: 0 <= i < |init| ==> init[i] == items[i];
    }
  }

  /** Once an item is rejected, later items are never looked at. */
  lemma {:induction false} ParseItemsStops(items: seq<Json>, later: seq<Json>)
    requires ParseItems(items).failed
    ensures ParseItems(items + later) == ParseItems(items)
    decreases |later|
  {
    if later != [] {
      var l' := later[..|later| - 1];
      assert (items + later)[..|items + later| - 1] == items + l';
      ParseItemsStops(items, l');
    } else {
      assert items + later == items;
    }
  }

  /** When every item is an event the relay sent, the parse gives back those events. */
  lemma {:induction false} ParseItemsOfEvents(events: seq<StreamEvent>)
    ensures ParseItems(seq(|events|, i requires 0 <= i < |events| => EventToJson(events[i]))) == Parsed(events, false)
  {
    var items := seq(|events|, i requires 0 <= i < |events| => EventToJson(events[i]));
    if events != [] {
      var init := events[..|events| - 1];
      var initItems := seq(|init|, i requires 0 <= i < |init| => EventToJson(init[i]));
      assert items[..|items| - 1] == initItems;
      ParseItemsOfEvents(init);
      ParseStreamEventRoundTrip(events[|events| - 1]);
      assert init + [events[|events| - 1]] == events;
    }
  }

  // Step lemmas: each action of the loop body, applied after an effect, is the effect one event later.

  lemma ApplyNoEffect(cs: seq<Conversation>, convId: string, asstId: string)
    ensures ApplyEffect(cs, convId, asstId, NoEffect) == cs
  {
    var r := ApplyEffect(cs, convId, asstId, NoEffect);
    forall i | 0 <= i < |cs| ensures r[i] == cs[i] {
      if cs[i].id == convId {
        var ms := cs[i].messages;
        var ms' := r[i].messages;
        assert |ms'| == |ms|;
        forall k | 0 <= k < |ms| ensures ms'[k] == ms[k] {
        }
        assert ms' == ms;
      }
    }
  }

  lemma TokenStep(cs: seq<Conversation>, convId: string, asstId: string, eff: Effect, content: string)
    ensures UpdateMessageContent(ApplyEffect(cs, convId, asstId, eff), convId, asstId, content)
            == ApplyEffect(cs, convId, asstId, eff.(content := Some(content)))
  {
    var a := ApplyEffect(cs, convId, asstId, eff);
    var b := UpdateMessageContent(a, convId, asstId, content);
    var c := ApplyEffect(cs, convId, asstId, eff.(content := Some(content)));
    forall i | 0 <= i < |cs| ensures b[i] == c[i] {
      assert a[i].id == cs[i].id;
      if cs[i].id == convId {
        assert |b[i].messages| == |c[i].messages|;
        forall k | 0 <= k < |b[i].messages| ensures b[i].messages[k] == c[i].messages[k] {
          assert a[i].messages[k].id == cs[i].messages[k].id;
        }
        assert b[i].messages == c[i].messages;
      }
    }
  }

  lemma UsageStep(cs: seq<Conversation>, convId: string, asstId: string, eff: Effect, u: TokenUsage)
    ensures SetUsage(ApplyEffect(cs, convId, asstId, eff), convId, u)
            == ApplyEffect(cs, convId, asstId, eff.(usage := Some(u)))
  {
    var a := ApplyEffect(cs, convId, asstId, eff);
    var b := SetUsage(a, convId, u);
    var c := ApplyEffect(cs, convId, asstId, eff.(usage := Some(u)));
    forall i | 0 <= i < |cs| ensures b[i] == c[i] {
      assert a[i].id == cs[i].id;
      if cs[i].id == convId {
        assert b[i].messages == c[i].messages;
      }
    }
  }

  lemma ErrorStep(cs: seq<Conversation>, convId: string, asstId: string, eff: Effect, error: string)
    ensures MarkMessageError(ApplyEffect(cs, convId, asstId, eff), convId, asstId, error)
            == ApplyEffect(cs, convId, asstId, eff.(error := Some(error)))
  {
    var a := ApplyEffect(cs, convId, asstId, eff);
    var b := MarkMessageError(a, convId, asstId, error);
    var c := ApplyEffect(cs, convId, asstId, eff.(error := Some(error)));
    forall i | 0 <= i < |cs| ensures b[i] == c[i] {
      assert a[i].id == cs[i].id;
      if cs[i].id == convId {
        assert |b[i].messages| == |c[i].messages|;
        forall k | 0 <= k < |b[i].messages| ensures b[i].messages[k] == c[i].messages[k] {
          assert a[i].messages[k].id == cs[i].messages[k].id;
        }
        assert b[i].messages == c[i].messages;
      }
    }
  }

  // ---------------------------------------------------------------------------
  // Staging a send, and the whole send.

  /** `conversations.find(conv => conv.id === id)` */
  function FindConversation(cs: seq<Conversation>, id: string): (r: Option<Conversation>)
    ensures r.Some? ==> r.value in cs && r.value.id == id
    ensures r.None? <==> !HasId(cs, id)
  {
    if cs == [] then None
    else if cs[0].id == id then Some(cs[0])
    else
      var r := FindConversation(cs[1..], id);
      assert forall i :: 1 <= i < |cs| ==> cs[1..][i - 1] == cs[i];
      r
  }

  /** `messages.findIndex(msg => msg.id === id)`, with None for -1: the FIRST match. */
  function FindMessageIndex(ms: seq<Message>, id: string): (r: Option<nat>)
    ensures r.Some? ==> r.value < |ms| && ms[r.value].id == id
    ensures r.Some? ==> forall j :: 0 <= j < r.value ==> ms[j].id != id
    ensures r.None? <==> forall j :: 0 <= j < |ms| ==> ms[j].id != id
  {
    if ms == [] then None
    else if ms[0].id == id then Some(0)
    else
      match FindMessageIndex(ms[1..], id)
      case None =>
        assert forall j :: 1 <= j < |ms| ==> ms[1..][j - 1] == ms[j];
        None
      case Some(k) =>
        assert forall j :: 1 <= j < |ms| ==> ms[1..][j - 1] == ms[j];
        Some(k + 1)
  }

  /** `content.slice(0, 24) || title` */
  function TitleFrom(content: string, title: string): string {
    var head := SliceTo(content, 24);
    if head != "" then head else title
  }

  /** The empty assistant message a reply streams into. */
  function Placeholder(id: string, now: string): Message {
    Message(id, Assistant, "", now, None)
  }

  /** The conversation after the user half of a send; None when the message to edit is missing.
      An `editingMessageId` of "" is falsy: it selects the append branch, and `??` still makes it the new id. */
  function StageUserTurn(conv: Conversation, editing: Option<string>, content: string, userId: string, now: string): Option<Conversation> {
    if Truthy(editing) then
      match FindMessageIndex(conv.messages, editing.value)
      case None => None
      case Some(k) =>
        Some(conv.(title := if conv.messages[k].role == User && conv.title == DefaultTitle
                           then TitleFrom(content, conv.title) else conv.title,
                   messages := conv.messages[..k] + [conv.messages[k].(content := content)],
                   updatedAt := now))
    else
      Some(conv.(messages := conv.messages + [Message(userId, User, content, now, None)],
                 title := if conv.title == DefaultTitle then TitleFrom(content, conv.title) else conv.title,
                 updatedAt := now))
  }

  /** The composer once the user turn is staged: the input is cleared, and edit mode ends in the edit branch. */
  function StagedComposer(composer: Composer): Composer {
    if Truthy(composer.editingMessageId) then composer.(input := "", editingMessageId := None)
    else composer.(input := "")
  }

  /** The request body the client posts. */
  function Payload(history: seq<ChatMessage>, settings: Settings): Json {
    JObj(map["messages" := JArr(Schema.MessagesToJson(history)),
             "temperature" := JNum(settings.temperature),
             "max_tokens" := JNum(settings.maxTokens)])
  }

  datatype Staging = Staging(conversations: seq<Conversation>, composer: Composer)

  /** The staging part of sendMessage: the three refusals, then the user turn and the placeholder
      (two updates of the store), and the composer as staging leaves it. */
  function StageSend(cs: seq<Conversation>, composer: Composer, convId: string, content: string,
                     freshUserId: string, asstId: string, now: string): Option<Staging>
  {
    var conv := FindConversation(cs, convId);
    if conv.None? || Trim(content) == "" then None
    else
      var editing := composer.editingMessageId;
      var turn := StageUserTurn(conv.value, editing, content, editing.GetOr(freshUserId), now);
      if turn.None? then None
      else
        var withTurn := UpdateWhere(cs, convId, (c: Conversation) => turn.value);
        Some(Staging(AddMessage(withTurn, convId, Placeholder(asstId, now), now), StagedComposer(composer)))
  }

  /** Once the user turn is known, the staging puts it in place and appends the placeholder. */
  lemma StageSendOfTurn(cs: seq<Conversation>, composer: Composer, convId: string, content: string,
                        freshUserId: string, asstId: string, now: string, turn: Conversation)
    requires FindConversation(cs, convId).Some? && Trim(content) != ""
    requires StageUserTurn(FindConversation(cs, convId).value, composer.editingMessageId, content,
                           composer.editingMessageId.GetOr(freshUserId), now) == Some(turn)
    ensures StageSend(cs, composer, convId, content, freshUserId, asstId, now)
         == Some(Staging(AddMessage(UpdateWhere(cs, convId, (c: Conversation) => turn), convId, Placeholder(asstId, now), now),
                         StagedComposer(composer)))
  {
  }

  datatype SendOutcome =
    | Refused   // an early return: nothing changes
    | Sent(staged: seq<Conversation>, payload: Json, effect: Effect, conversations: seq<Conversation>, composer: Composer)

  /**
   * The whole of sendMessage: the staging, the payload and its check, the stream, and the catch block.
   * `network` is what fetch answers for a payload; `freshUserId` and `asstId` are the two UUIDs, `now`
   * the timestamp; `zodText` is the message of a ZodError. The lock is released in the end.
   */
  function Send(cs: seq<Conversation>, composer: Composer, settings: Settings, convId: string, content: string,
                freshUserId: string, asstId: string, now: string, zodText: string,
                codec: Codec, network: Json -> Sse.Transport): SendOutcome
  {
    match StageSend(cs, composer, convId, content, freshUserId, asstId, now)
    case None => Refused
    case Some(st) =>
      var payload := RequestPayload(st.conversations, settings, convId);
      var effect := StreamEffect(payload, zodText, codec, network);
      Sent(st.conversations, payload, effect, ApplyEffect(st.conversations, convId, asstId, effect),
           st.composer.(isLocked := false))
  }

  /** The payload built from the staged history (`getMessagesForRequest`) and the settings. */
  function RequestPayload(cs: seq<Conversation>, settings: Settings, convId: string): Json {
    var current := FindConversation(cs, convId);
    Payload(if current.Some? then GetConversationMessages(current.value) else [], settings)
  }

  /** What the try block and the catch block do to the placeholder: a payload the schema rejects throws
      a ZodError before the fetch; otherwise the whole client run is folded in. */
  function StreamEffect(payload: Json, zodText: string, codec: Codec, network: Json -> Sse.Transport): Effect {
    if Schema.ParseChatRequest(payload).Failure? then NoEffect.(error := Some(zodText))
    else FinalEffect(Sse.ClientRun(codec, network(payload)), zodText)
  }

  /** sendMessage refuses, changing nothing, exactly on a missing conversation, white-space-only content,
      or an edit target that is not in the conversation. */
  lemma SendRefusals(cs: seq<Conversation>, composer: Composer, convId: string, content: string,
                     freshUserId: string, asstId: string, now: string)
    ensures StageSend(cs, composer, convId, content, freshUserId, asstId, now).None?
      <==> || !HasId(cs, convId)
           || AllSpace(content)
           || (Truthy(composer.editingMessageId)
               && forall j :: 0 <= j < |FindConversation(cs, convId).value.messages| ==>
                    FindConversation(cs, convId).value.messages[j].id != composer.editingMessageId.value)
  {
    TrimEmptyIffAllSpace(content);
  }

  /** The history a send stages, in both branches: in edit mode at index k the messages before k stay,
      message k keeps everything but its content, and the rest is dropped; otherwise one user message is
      appended. Either way one empty placeholder comes last, and the title rule holds. */
  lemma StageSendHistory(conv: Conversation, editing: Option<string>, content: string, userId: string,
                         asstId: string, now: string)
    requires StageUserTurn(conv, editing, content, userId, now).Some?
    ensures var t := StageUserTurn(conv, editing, content, userId, now).value;
      && t.id == conv.id && t.pinned == conv.pinned && t.usage == conv.usage && t.createdAt == conv.createdAt
      && (Truthy(editing) ==>
            var k := FindMessageIndex(conv.messages, editing.value).value;
            && |t.messages| == k + 1
            && t.messages[..k] == conv.messages[..k]
            && t.messages[k] == conv.messages[k].(content := content)
            && t.title == (if conv.messages[k].role == User && conv.title == DefaultTitle
                           then TitleFrom(content, conv.title) else conv.title))
      && (!Truthy(editing) ==>
            && t.messages == conv.messages + [Message(userId, User, content, now, None)]
            && t.title == (if conv.title == DefaultTitle then TitleFrom(content, conv.title) else conv.title))
  {
    if Truthy(editing) {
      var k := FindMessageIndex(conv.messages, editing.value).value;
      var t := StageUserTurn(conv, editing, content, userId, now).value;
      assert t.messages[..k] == conv.messages[..k];
    }
  }

  /** A non-empty content gives a default-titled conversation its first 24 characters as title. */
  lemma TitleFromContent(content: string, title: string)
    requires content != ""
    ensures TitleFrom(content, title) == SliceTo(content, 24)
    ensures |TitleFrom(content, title)| == if |content| < 24 then |content| else 24
    ensures StartsWith(content, TitleFrom(content, title))
  {
  }

  /** After a send is staged, the conversation holds the user turn followed by exactly one empty
      placeholder, its history without the placeholder is what the payload carries, and the ids are kept. */
  lemma StagedConversation(cs: seq<Conversation>, composer: Composer, convId: string, content: string,
                           freshUserId: string, asstId: string, now: string)
    requires DistinctIds(cs)
    requires StageSend(cs, composer, convId, content, freshUserId, asstId, now).Some?
    ensures var st := StageSend(cs, composer, convId, content, freshUserId, asstId, now).value;
      var editing := composer.editingMessageId;
      var turn := StageUserTurn(FindConversation(cs, convId).value, editing, content, editing.GetOr(freshUserId), now).value;
      && FindConversation(st.conversations, convId).Some?
      && FindConversation(st.conversations, convId).value.messages == turn.messages + [Placeholder(asstId, now)]
      && RequestHistory(FindConversation(st.conversations, convId).value.messages) == RequestHistory(turn.messages)
      && Ids(st.conversations) == Ids(cs)
      && st.composer.input == ""
      && st.composer.editingMessageId == (if Truthy(editing) then None else editing)
  {
    var editing := composer.editingMessageId;
    var conv := FindConversation(cs, convId).value;
    var turn := StageUserTurn(conv, editing, content, editing.GetOr(freshUserId), now).value;
    StagedList(cs, convId, turn, Placeholder(asstId, now), now);
    PlaceholderHistory(turn.messages, asstId, now);
  }

  /** Replacing the conversation `convId` by `turn` (same id) and appending `p` to it keeps the ids,
      and find then returns `turn` with `p` last. */
  lemma StagedList(cs: seq<Conversation>, convId: string, turn: Conversation, p: Message, now: string)
    requires DistinctIds(cs) && HasId(cs, convId) && turn.id == convId
    ensures var staged := AddMessage(UpdateWhere(cs, convId, (c: Conversation) => turn), convId, p, now);
      && Ids(staged) == Ids(cs)
      && FindConversation(staged, convId).Some?
      && FindConversation(staged, convId).value.messages == turn.messages + [p]
  {
    var staged := AddMessage(UpdateWhere(cs, convId, (c: Conversation) => turn), convId, p, now);
    var k :| 0 <= k < |cs| && cs[k].id == convId;
    assert staged[k].messages == turn.messages + [p];
    assert forall i :: 0 <= i < |cs| ==> staged[i].id == cs[i].id;
    assert Ids(staged) == Ids(cs) by {
      assert forall i :: 0 <= i < |cs| ==> Ids(staged)[i] == Ids(cs)[i];
    }
    FindDistinct(staged, k);
  }

  /** The placeholder never reaches the request history. */
  lemma PlaceholderHistory(ms: seq<Message>, asstId: string, now: string)
    ensures RequestHistory(ms + [Placeholder(asstId, now)]) == RequestHistory(ms)
  {
    RequestHistoryAppend(ms, [Placeholder(asstId, now)]);
    assert RequestHistory([Placeholder(asstId, now)]) == [] by {
      assert [Placeholder(asstId, now)][..0] == [];
    }
    assert RequestHistory(ms) + [] == RequestHistory(ms);
  }

  /** With distinct ids, find returns the one conversation with its id. */
  lemma FindDistinct(cs: seq<Conversation>, k: nat)
    requires k < |cs|
    requires forall i, j :: 0 <= i < j < |cs| ==> cs[i].id != cs[j].id
    ensures FindConversation(cs, cs[k].id) == Some(cs[k])
  {
    if k > 0 {
      assert cs[0].id != cs[k].id;
      var t := cs[1..];
      assert t[k - 1] == cs[k];
      FindDistinct(t, k - 1);
    }
  }

  /** The placeholder after the stream: its content is the concatenation of the non-empty tokens
      parsed before any rejection, the usage is the last one reported, and the error is the one the
      catch block recorded or else the last non-empty error event; an abort records no error. */
  lemma SendFinalPlaceholder(staged: seq<Conversation>, convId: string, asstId: string, k: nat, j: nat,
                            run: Sse.Run, zodText: string)
    requires DistinctIds(staged) && k < |staged| && staged[k].id == convId
    requires j < |staged[k].messages| && staged[k].messages[j] == Placeholder(asstId, staged[k].messages[j].createdAt)
    ensures var events := ParseItems(run.items).events;
      var m := ApplyEffect(staged, convId, asstId, FinalEffect(run, zodText))[k].messages[j];
      var c := ApplyEffect(staged, convId, asstId, FinalEffect(run, zodText))[k];
      && m.id == asstId && m.role == Assistant
      && m.content == TokenText(events)
      && c.usage == (if LastUsageIn(events).Some? then LastUsageIn(events).value else staged[k].usage)
      && (ParseItems(run.items).failed ==> m.error == Some(zodText))
      && (!ParseItems(run.items).failed && (run.end.Returned? || run.end.error.AbortError?) ==>
            m.error == LastErrorIn(events))
      && (!ParseItems(run.items).failed && run.end.Threw? && !run.end.error.AbortError? ==>
            m.error == Some(ErrorText(run.end.error, UnexpectedErrorMessage)))
  {
    EffectOfSummary(ParseItems(run.items).events);
  }

  // ---------------------------------------------------------------------------
  // regenerateMessage.

  /** `[...messages].slice(0, t).reverse().find(msg => msg.role === "user")`, as an index. */
  function NearestUser(ms: seq<Message>): (r: Option<nat>)
    ensures r.Some? ==> r.value < |ms| && ms[r.value].role == User
    ensures r.Some? ==> forall j :: r.value < j < |ms| ==> ms[j].role != User
    ensures r.None? <==> forall j :: 0 <= j < |ms| ==> ms[j].role != User
  {
    if ms == [] then None
    else if ms[|ms| - 1].role == User then Some(|ms| - 1)
    else NearestUser(ms[..|ms| - 1])
  }

  /** `messages.slice(0, n)` */
  function Take(ms: seq<Message>, n: nat): seq<Message> {
    if |ms| <= n then ms else ms[..n]
  }

  /** `.filter(msg => msg.role !== "assistant" || msg.id !== id)` */
  function DropAssistant(ms: seq<Message>, id: string): seq<Message> {
    if ms == [] then []
    else (if ms[0].role != Assistant || ms[0].id != id then [ms[0]] else []) + DropAssistant(ms[1..], id)
  }

  datatype Regeneration = Regeneration(conversations: seq<Conversation>, composer: Composer, content: string)

  /** The staging of regenerateMessage, before it calls sendMessage; None on its three early returns. */
  function StageRegenerate(cs: seq<Conversation>, composer: Composer, convId: string, messageId: string): Option<Regeneration> {
    var conv := FindConversation(cs, convId);
    if conv.None? then None
    else
      var t := FindMessageIndex(conv.value.messages, messageId);
      if t.None? then None
      else
        var u := NearestUser(conv.value.messages[..t.value]);
        if u.None? then None
        else
          var user := conv.value.messages[u.value];
          Some(Regeneration(
            UpdateWhere(cs, convId, (c: Conversation) => c.(messages := DropAssistant(Take(c.messages, t.value), messageId))),
            composer.(editingMessageId := Some(user.id), input := user.content),
            user.content))
  }

  datatype RegenerateOutcome = NotStaged | Regenerated(staging: Regeneration, send: SendOutcome)

  function Regenerate(cs: seq<Conversation>, composer: Composer, settings: Settings, convId: string, messageId: string,
                      freshUserId: string, asstId: string, now: string, zodText: string,
                      codec: Codec, network: Json -> Sse.Transport): RegenerateOutcome
  {
    var st := StageRegenerate(cs, composer, convId, messageId);
    if st.None? then NotStaged
    else Regenerated(st.value, Send(st.value.conversations, st.value.composer, settings, convId, st.value.content,
                                    freshUserId, asstId, now, zodText, codec, network))
  }

  /** regenerateMessage returns early, changing nothing, exactly on a missing conversation or message,
      or when no user message precedes the target. */
  lemma RegenerateRefusals(cs: seq<Conversation>, composer: Composer, convId: string, messageId: string)
    ensures StageRegenerate(cs, composer, convId, messageId).None?
      <==> || !HasId(cs, convId)
           || (forall j :: 0 <= j < |FindConversation(cs, convId).value.messages| ==>
                 FindConversation(cs, convId).value.messages[j].id != messageId)
           || (forall j :: 0 <= j < FindMessageIndex(FindConversation(cs, convId).value.messages, messageId).value ==>
                 FindConversation(cs, convId).value.messages[j].role != User)
  {
    var conv := FindConversation(cs, convId);
    if conv.Some? {
      var ms := conv.value.messages;
      var t := FindMessageIndex(ms, messageId);
      if t.Some? {
        var before := ms[..t.value];
        assert forall j :: 0 <= j < t.value ==> before[j] == ms[j];
        var u := NearestUser(before);
      }
    }
  }

  lemma {:induction false} DropAssistantAbsent(ms: seq<Message>, id: string)
    requires forall j :: 0 <= j < |ms| ==> ms[j].id != id
    ensures DropAssistant(ms, id) == ms
  {
    if ms != [] {
      assert forall j :: 0 <= j < |ms[1..]| ==> ms[1..][j] == ms[j + 1];
      DropAssistantAbsent(ms[1..], id);
      assert [ms[0]] + ms[1..] == ms;
    }
  }

  /** After the regeneration staging, the conversation holds exactly the messages before the target t,
      and edit mode points at the nearest preceding user message u. */
  lemma RegenerateStaging(cs: seq<Conversation>, composer: Composer, convId: string, messageId: string, k: nat)
    returns (t: nat, u: nat, st: Regeneration)
    requires DistinctIds(cs) && k < |cs| && cs[k].id == convId
    requires StageRegenerate(cs, composer, convId, messageId).Some?
    ensures FindMessageIndex(cs[k].messages, messageId) == Some(t)
    ensures u < t && NearestUser(cs[k].messages[..t]) == Some(u)
    ensures StageRegenerate(cs, composer, convId, messageId) == Some(st)
    ensures DistinctIds(st.conversations) && |st.conversations| == |cs|
    ensures st.conversations[k].messages == cs[k].messages[..t]
    ensures st.conversations[k].id == convId
    ensures st.composer.editingMessageId == Some(cs[k].messages[u].id)
    ensures st.content == cs[k].messages[u].content
  {
    var ms := cs[k].messages;
    FindDistinct(cs, k);
    t := FindMessageIndex(ms, messageId).value;
    u := NearestUser(ms[..t]).value;
    assert ms[..t][u] == ms[u];
    st := StageRegenerate(cs, composer, convId, messageId).value;
    assert forall j :: 0 <= j < |ms[..t]| ==> ms[..t][j] == ms[j];
    DropAssistantAbsent(ms[..t], messageId);
    assert Take(ms, t) == ms[..t];
    assert forall i :: 0 <= i < |cs| ==> st.conversations[i].id == cs[i].id;
  }

  /** A send in edit mode whose target is at index u of the conversation at index k. */
  lemma StageSendEdit(cs: seq<Conversation>, composer: Composer, convId: string, content: string,
                      freshUserId: string, asstId: string, now: string, k: nat, u: nat)
    requires DistinctIds(cs) && k < |cs| && cs[k].id == convId
    requires Truthy(composer.editingMessageId) && !AllSpace(content)
    requires FindMessageIndex(cs[k].messages, composer.editingMessageId.value) == Some(u)
    ensures var o := StageSend(cs, composer, convId, content, freshUserId, asstId, now);
      && o.Some?
      && FindConversation(o.value.conversations, convId).Some?
      && FindConversation(o.value.conversations, convId).value.messages
         == cs[k].messages[..u] + [cs[k].messages[u].(content := content), Placeholder(asstId, now)]
  {
    FindDistinct(cs, k);
    TrimEmptyIffAllSpace(content);
    var editing := composer.editingMessageId;
    var turn := StageUserTurn(cs[k], editing, content, editing.GetOr(freshUserId), now).value;
    assert turn.messages == cs[k].messages[..u] + [cs[k].messages[u].(content := content)];
    StagedConversation(cs, composer, convId, content, freshUserId, asstId, now);
  }

  /** Re-sending the content of the edit target at index u keeps that message as it is. */
  lemma ResendUnchanged(cs: seq<Conversation>, composer: Composer, convId: string,
                        freshUserId: string, asstId: string, now: string, k: nat, u: nat,
                        prefix: seq<Message>, target: Message)
    requires DistinctIds(cs) && k < |cs| && cs[k].id == convId
    requires Truthy(composer.editingMessageId) && !AllSpace(target.content)
    requires FindMessageIndex(cs[k].messages, composer.editingMessageId.value) == Some(u)
    requires cs[k].messages[..u] == prefix && cs[k].messages[u] == target
    ensures var o := StageSend(cs, composer, convId, target.content, freshUserId, asstId, now);
      && o.Some?
      && FindConversation(o.value.conversations, convId).Some?
      && FindConversation(o.value.conversations, convId).value.messages == prefix + [target, Placeholder(asstId, now)]
  {
    StageSendEdit(cs, composer, convId, target.content, freshUserId, asstId, now, k, u);
    assert target.(content := target.content) == target;
  }

  /** Regenerating the reply at index t whose nearest preceding user message is at u gives the same
      history every time: the messages before u, that user message unchanged, one new placeholder. */
  lemma RegenerateHistory(cs: seq<Conversation>, composer: Composer, convId: string, messageId: string,
                          freshUserId: string, asstId: string, now: string, k: nat)
    returns (t: nat, u: nat)
    requires DistinctIds(cs) && k < |cs| && cs[k].id == convId
    requires DistinctMessageIds(cs[k].messages)
    requires StageRegenerate(cs, composer, convId, messageId).Some?
    ensures FindMessageIndex(cs[k].messages, messageId) == Some(t)
    ensures u < t && NearestUser(cs[k].messages[..t]) == Some(u)
    ensures var ms := cs[k].messages;
      var st := StageRegenerate(cs, composer, convId, messageId).value;
      ms[u].id != "" && !AllSpace(ms[u].content) ==>
        var o := StageSend(st.conversations, st.composer, convId, st.content, freshUserId, asstId, now);
        && o.Some?
        && FindConversation(o.value.conversations, convId).Some?
        && FindConversation(o.value.conversations, convId).value.messages == ms[..u] + [ms[u], Placeholder(asstId, now)]
  {
    var ms := cs[k].messages;
    var st;
    t, u, st := RegenerateStaging(cs, composer, convId, messageId, k);
    if ms[u].id != "" && !AllSpace(ms[u].content) {
      ResendNearestUser(st, convId, freshUserId, asstId, now, k, ms, t, u);
    }
  }

  /** The resend after the regeneration staging, whose conversation holds the messages before t and
      whose edit target is the user message at u < t. */
  lemma ResendNearestUser(st: Regeneration, convId: string, freshUserId: string, asstId: string, now: string,
                          k: nat, ms: seq<Message>, t: nat, u: nat)
    requires DistinctIds(st.conversations) && k < |st.conversations| && st.conversations[k].id == convId
    requires u < t <= |ms| && DistinctMessageIds(ms)
    requires st.conversations[k].messages == ms[..t]
    requires st.composer.editingMessageId == Some(ms[u].id) && st.content == ms[u].content
    requires ms[u].id != "" && !AllSpace(ms[u].content)
    ensures var o := StageSend(st.conversations, st.composer, convId, st.content, freshUserId, asstId, now);
      && o.Some?
      && FindConversation(o.value.conversations, convId).Some?
      && FindConversation(o.value.conversations, convId).value.messages == ms[..u] + [ms[u], Placeholder(asstId, now)]
  {
    var before := st.conversations[k].messages;
    assert before[u] == ms[u];
    forall j | 0 <= j < u ensures before[j].id != ms[u].id {
      assert before[j] == ms[j];
    }
    assert FindMessageIndex(before, ms[u].id) == Some(u);
    assert before[..u] == ms[..u];
    ResendUnchanged(st.conversations, st.composer, convId, freshUserId, asstId, now, k, u, ms[..u], ms[u]);
  }

  // ---------------------------------------------------------------------------
  // Rehydration.

  /** The selection rule run after rehydration: a falsy current id with a non-empty list selects the
      first conversation; anything else is kept, even an id no conversation has. */
  function RehydratedCurrent(cs: seq<Conversation>, current: Option<string>): Option<string> {
    if !Truthy(current) && |cs| > 0 then Some(cs[0].id) else current
  }

  lemma RehydrateSelection(cs: seq<Conversation>, current: Option<string>)
    ensures !Truthy(current) && |cs| > 0 ==> RehydratedCurrent(cs, current) == Some(cs[0].id)
    ensures Truthy(current) || cs == [] ==> RehydratedCurrent(cs, current) == current
    ensures |cs| > 0 ==> Truthy(RehydratedCurrent(cs, current)) || cs[0].id == ""
  {
  }
}
