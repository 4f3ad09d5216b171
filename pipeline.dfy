/**
 * The relay and the client together: the frames the route writes, read back by
 * the event-stream parser, give exactly the JSON of the events in order, and
 * however the transport cuts that text into chunks, sendMessage folds it into
 * the assistant message the provider's deltas spell out.
 */
module Pipeline {
  import opened Wrappers
  import opened JsonValue
  import opened Types
  import Sse
  import Relay
  import StoreModel

  /** The JSON value of each event, in order. */
  function EventJsons(events: seq<StreamEvent>): (r: seq<Json>)
    ensures |r| == |events|
  {
    seq(|events|, i requires 0 <= i < |events| => EventToJson(events[i]))
  }

  /** JSON.stringify / JSON.parse keep their law on the JSON of every event of the run. */
  predicate Encodable(codec: Codec, events: seq<StreamEvent>) {
    forall i | 0 <= i < |events| :: CodecLaw(codec, EventToJson(events[i]))
  }

  /** The records of the frames: each frame without its terminating blank line. */
  function FrameRecords(codec: Codec, events: seq<StreamEvent>): (r: seq<string>)
    ensures |r| == |events|
  {
    seq(|events|, i requires 0 <= i < |events| => "data: " + codec.encode(EventToJson(events[i])))
  }

  lemma {:induction false} JoinSnoc(records: seq<string>, r: string)
    ensures Sse.Join(records + [r]) == Sse.Join(records) + (r + "\n\n")
  {
    if records == [] {
      assert records + [r] == [r];
      assert [r][1..] == [];
    } else {
      assert (records + [r])[1..] == records[1..] + [r];
      JoinSnoc(records[1..], r);
    }
  }

  /** The concatenated frames are the records, each followed by its blank line. */
  lemma {:induction false} FramesJoin(codec: Codec, events: seq<StreamEvent>)
    ensures Sse.Concat(Relay.Frames(codec, events)) == Sse.Join(FrameRecords(codec, events))
  {
    if events != [] {
      var n := |events| - 1;
      var init := events[..n];
      var frames := Relay.Frames(codec, events);
      assert frames[..n] == Relay.Frames(codec, init);
      FramesJoin(codec, init);
      var r := "data: " + codec.encode(EventToJson(events[n]));
      assert FrameRecords(codec, events) == FrameRecords(codec, init) + [r];
      JoinSnoc(FrameRecords(codec, init), r);
      assert frames[n] == r + "\n\n";
    }
  }

  /** The record of one frame yields the JSON it was written from. */
  lemma FrameItem(codec: Codec, j: Json)
    requires CodecLaw(codec, j)
    ensures Sse.RecordItem(codec, "data: " + codec.encode(j)) == Some(j)
  {
    Sse.FrameRecordPayload(codec.encode(j));
  }

  /** Every frame's record yields the event's JSON again. */
  lemma {:induction false} FrameItems(codec: Codec, events: seq<StreamEvent>)
    requires Encodable(codec, events)
    ensures Sse.Items(codec, FrameRecords(codec, events)) == EventJsons(events)
  {
    if events != [] {
      var records := FrameRecords(codec, events);
      FramesCons(codec, events);
      FrameItem(codec, EventToJson(events[0]));
      FrameItems(codec, events[1..]);
      assert Sse.Items(codec, records) == [EventToJson(events[0])] + Sse.Items(codec, records[1..]);
    }
  }

  /** The first event's record and JSON come first, then those of the rest. */
  lemma FramesCons(codec: Codec, events: seq<StreamEvent>)
    requires events != []
    ensures FrameRecords(codec, events)[0] == "data: " + codec.encode(EventToJson(events[0]))
    ensures FrameRecords(codec, events)[1..] == FrameRecords(codec, events[1..])
    ensures EventJsons(events) == [EventToJson(events[0])] + EventJsons(events[1..])
  {
  }

  /** formatSSE and the parser are inverse: the concatenated frames of a run of events parse back to
      the JSON of those events, in order, with nothing dropped, added or hidden in the tail. */
  lemma FramesRoundTrip(codec: Codec, events: seq<StreamEvent>)
    requires Encodable(codec, events)
    ensures Sse.ParseText(codec, Sse.Concat(Relay.Frames(codec, events))) == EventJsons(events)
    ensures Sse.SplitRecords(Sse.Concat(Relay.Frames(codec, events))).rest == ""
  {
    var records := FrameRecords(codec, events);
    FramesJoin(codec, events);
    forall i | 0 <= i < |records| ensures Sse.WellFormedRecord(records[i]) {
      Sse.FrameRecordPayload(codec.encode(EventToJson(events[i])));
    }
    Sse.SplitOfJoin(records, "");
    assert Sse.Join(records) + "" == Sse.Join(records);
    FrameItems(codec, events);
  }

  /** Token events only: their text is the concatenation of the contents, and they carry neither
      usage nor error. */
  lemma {:induction false} TokenRun(events: seq<StreamEvent>, ds: seq<string>)
    requires |events| == |ds|
    requires forall i :: 0 <= i < |ds| ==> events[i] == TokenEvent(Some(ds[i])) && ds[i] != ""
    ensures StoreModel.TokenText(events) == Sse.Concat(ds)
    ensures StoreModel.HasToken(events) <==> ds != []
    ensures StoreModel.LastUsageIn(events) == None
    ensures StoreModel.LastErrorIn(events) == None
  {
    if events != [] {
      var n := |events| - 1;
      TokenRun(events[..n], ds[..n]);
      StoreModel.ReferenceAppend(events[..n], events[n]);
      assert events[..n] + [events[n]] == events;
      assert [events[n]][1..] == [];
      assert StoreModel.HasToken(events) by {
        assert events[n].TokenEvent? && Truthy(events[n].content);
      }
    }
  }

  lemma EffectOfSnoc(events: seq<StreamEvent>, e: StreamEvent)
    ensures StoreModel.EffectOf(events + [e]) == StoreModel.EventEffect(StoreModel.EffectOf(events), e)
  {
    assert (events + [e])[..|events|] == events;
  }

  /** The token events alone: the concatenated deltas, and neither usage nor error. */
  lemma TokensEffect(chunks: seq<Relay.Chunk>)
    ensures var eff := StoreModel.EffectOf(Relay.TokenEvents(chunks));
      && (eff.content.Some? <==> Relay.Deltas(chunks) != [])
      && eff.content.GetOr("") == Sse.Concat(Relay.Deltas(chunks))
      && eff.usage == None
      && eff.error == None
  {
    var tokens := Relay.TokenEvents(chunks);
    Relay.TokenEventsAreDeltas(chunks);
    TokenRun(tokens, Relay.Deltas(chunks));
    StoreModel.EffectOfSummary(tokens);
  }

  /** A finished stream adds its last usage to the tokens' effect. */
  lemma FinishedEffect(chunks: seq<Relay.Chunk>)
    ensures StoreModel.EffectOf(Relay.RelayEvents(Relay.Upstream(chunks, Relay.Finished)))
         == StoreModel.EffectOf(Relay.TokenEvents(chunks)).(usage := Relay.LastUsage(chunks))
  {
    var tokens := Relay.TokenEvents(chunks);
    var u := Relay.LastUsage(chunks);
    var mid := tokens + (if u.Some? then [UsageEvent(u.value)] else []);
    assert Relay.RelayEvents(Relay.Upstream(chunks, Relay.Finished)) == mid + [DoneEvent];
    EffectOfSnoc(mid, DoneEvent);
    TokensEffect(chunks);
    MidEffect(tokens, u);
  }

  /** The usage event, when there is one, sets the usage; otherwise the tokens carried none. */
  lemma MidEffect(tokens: seq<StreamEvent>, u: Option<TokenUsage>)
    requires StoreModel.EffectOf(tokens).usage == None
    ensures StoreModel.EffectOf(tokens + (if u.Some? then [UsageEvent(u.value)] else []))
         == StoreModel.EffectOf(tokens).(usage := u)
  {
    if u.Some? {
      EffectOfSnoc(tokens, UsageEvent(u.value));
    } else {
      assert tokens + [] == tokens;
    }
  }

  /** A failed stream adds its failure message, when non-empty, to the tokens' effect. */
  lemma FailedEffect(chunks: seq<Relay.Chunk>, e: Thrown)
    ensures var m := ErrorText(e, Relay.StreamFailureMessage);
      StoreModel.EffectOf(Relay.RelayEvents(Relay.Upstream(chunks, Relay.Failed(e))))
        == StoreModel.EventEffect(StoreModel.EffectOf(Relay.TokenEvents(chunks)), ErrorEvent(Some(m)))
  {
    var m := ErrorText(e, Relay.StreamFailureMessage);
    assert Relay.RelayEvents(Relay.Upstream(chunks, Relay.Failed(e)))
        == Relay.TokenEvents(chunks) + [ErrorEvent(Some(m))];
    EffectOfSnoc(Relay.TokenEvents(chunks), ErrorEvent(Some(m)));
  }

  /** The effect of a relayed stream: the content is the concatenation of the provider's non-empty
      deltas (present exactly when there was one), the usage is the last usage the provider reported
      on completion and none after a failure, and the error is the relay's failure message when it
      is non-empty. */
  lemma RelayEffect(up: Relay.Upstream)
    ensures var eff := StoreModel.EffectOf(Relay.RelayEvents(up));
      && (eff.content.Some? <==> Relay.Deltas(up.chunks) != [])
      && eff.content.GetOr("") == Sse.Concat(Relay.Deltas(up.chunks))
      && eff.usage == (if up.end.Finished? then Relay.LastUsage(up.chunks) else None)
      && eff.error == (if up.end.Failed? && ErrorText(up.end.error, Relay.StreamFailureMessage) != ""
                       then Some(ErrorText(up.end.error, Relay.StreamFailureMessage)) else None)
  {
    TokensEffect(up.chunks);
    match up.end {
      case Finished =>
        FinishedEffect(up.chunks);
        assert up == Relay.Upstream(up.chunks, Relay.Finished);
      case Failed(e) =>
        FailedEffect(up.chunks, e);
        assert up == Relay.Upstream(up.chunks, Relay.Failed(e));
    }
  }

  /** Relay to store: whatever chunking the transport applies to the relay's frames, the client yields
      the events' JSON, every item passes parseStreamEvent, the read ends normally, and the effect on
      the assistant message is the one the relayed events describe. */
  lemma RelayToStore(codec: Codec, up: Relay.Upstream, chunks: seq<string>, zodText: string)
    requires Encodable(codec, Relay.RelayEvents(up))
    requires Sse.Concat(chunks) == Sse.Concat(Relay.Frames(codec, Relay.RelayEvents(up)))
    ensures var run := Sse.ClientRun(codec, Sse.Responded(true, 200, "", Some(Sse.BodyStream(chunks, Sse.Closed))));
      && run == Sse.Run(EventJsons(Relay.RelayEvents(up)), Sse.Returned)
      && StoreModel.ParseItems(run.items) == StoreModel.Parsed(Relay.RelayEvents(up), false)
      && StoreModel.FinalEffect(run, zodText) == StoreModel.EffectOf(Relay.RelayEvents(up))
  {
    var events := Relay.RelayEvents(up);
    FramesRoundTrip(codec, events);
    StoreModel.ParseItemsOfEvents(events);
  }

  /** The completed answer: when the provider's stream finishes, the assistant message ends up with the
      concatenated deltas and no new error, and the conversation with the provider's last usage. */
  lemma CompletedAnswer(codec: Codec, up: Relay.Upstream, chunks: seq<string>, zodText: string)
    requires Encodable(codec, Relay.RelayEvents(up)) && up.end.Finished?
    requires Sse.Concat(chunks) == Sse.Concat(Relay.Frames(codec, Relay.RelayEvents(up)))
    ensures var eff := StoreModel.FinalEffect(
        Sse.ClientRun(codec, Sse.Responded(true, 200, "", Some(Sse.BodyStream(chunks, Sse.Closed)))), zodText);
      && eff.content.GetOr("") == Sse.Concat(Relay.Deltas(up.chunks))
      && eff.usage == Relay.LastUsage(up.chunks)
      && eff.error == None
  {
    RelayToStore(codec, up, chunks, zodText);
    RelayEffect(up);
  }
}
