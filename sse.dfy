/**
 * The event-stream client (fetchEventSourceStream): a non-ok response fails
 * before any event; otherwise decoded chunks are appended to a buffer that is
 * repeatedly cut at the first blank line ("\n\n"), and every complete record
 * that is a `data:` record yields its parsed payload (`[DONE]` yields a done
 * event, a payload JSON.parse rejects is skipped).
 */
module Sse {
  import opened Wrappers
  import opened JsonValue
  import opened Types
  import opened Text

  /** How reading the body ends after the chunks delivered so far. */
  datatype BodyEnd = Closed | ReadFailed(error: Thrown)

  datatype BodyStream = BodyStream(chunks: seq<string>, end: BodyEnd)

  /** What fetch gives: a rejection, or a response (its status, its text when not ok, its body). */
  datatype Transport =
    | FetchRejected(error: Thrown)
    | Responded(ok: bool, status: nat, text: string, body: Option<BodyStream>)

  /** How the generator ends after yielding its items. */
  datatype Termination = Returned | Threw(error: Thrown)

  datatype Run = Run(items: seq<Json>, end: Termination)

  const NoBodyMessage := "レスポンスストリームが利用できません"
  const DoneJson := JObj(map["type" := JStr("done")])

  datatype Split = Split(records: seq<string>, rest: string)

  /** The records a buffer holds before its unterminated tail, cut at each first "\n\n". */
  function SplitRecords(buf: string): Split
    decreases |buf|
  {
    match IndexOfBoundary(buf)
    case None => Split([], buf)
    case Some(b) =>
      var tail := SplitRecords(buf[b + 2..]);
      Split([buf[..b]] + tail.records, tail.rest)
  }

  /** Each record followed by its terminator. */
  function Join(records: seq<string>): string {
    if records == [] then "" else records[0] + "\n\n" + Join(records[1..])
  }

  /** A record as the splitter can return it: no blank line inside, and no '\n' at its end. */
  predicate WellFormedRecord(r: string) {
    NoBoundary(r) && (r == [] || r[|r| - 1] != '\n')
  }

  /** Splitting loses nothing: the records and their terminators, then the tail, give back the buffer;
      every record is well formed and the tail holds no terminator. */
  lemma {:induction false} SplitRecordsExact(buf: string)
    ensures Join(SplitRecords(buf).records) + SplitRecords(buf).rest == buf
    ensures NoBoundary(SplitRecords(buf).rest)
    ensures forall i :: 0 <= i < |SplitRecords(buf).records| ==> WellFormedRecord(SplitRecords(buf).records[i])
    decreases |buf|
  {
    match IndexOfBoundary(buf)
    case None =>
    case Some(b) =>
      var r := buf[..b];
      var tail := buf[b + 2..];
      SplitRecordsExact(tail);
      FirstRecordWellFormed(buf, b);
      var t := SplitRecords(tail);
      var records := [r] + t.records;
      assert SplitRecords(buf) == Split(records, t.rest);
      CutAtBoundary(buf, b);
      JoinCons(r, t.records, t.rest);
      forall i | 0 <= i < |records| ensures WellFormedRecord(records[i]) {
        if i > 0 {
          assert records[i] == t.records[i - 1];
        }
      }
  }

  /** A buffer with a blank line at b is the text before it, the blank line, and the text after it. */
  lemma CutAtBoundary(buf: string, b: nat)
    requires BoundaryAt(buf, b)
    ensures buf == (buf[..b] + "\n\n") + buf[b + 2..]
  {
    assert buf[..b + 2] == buf[..b] + "\n\n";
    assert buf == buf[..b + 2] + buf[b + 2..];
  }

  lemma JoinCons(r: string, records: seq<string>, rest: string)
    ensures Join([r] + records) + rest == (r + "\n\n") + (Join(records) + rest)
  {
    assert ([r] + records)[1..] == records;
    AppendAssociates(r + "\n\n", Join(records), rest);
  }

  /** The text before the first blank line holds no blank line and does not end in '\n'. */
  lemma FirstRecordWellFormed(buf: string, b: nat)
    requires IndexOfBoundary(buf) == Some(b)
    ensures WellFormedRecord(buf[..b])
  {
    var r := buf[..b];
    forall p | 0 <= p < |r| ensures !BoundaryAt(r, p) {
      assert !BoundaryAt(buf, p);
    }
    if r != [] {
      assert !BoundaryAt(buf, b - 1);
    }
  }

  /** The first boundary of x is still the first one once more text is appended. */
  lemma IndexOfBoundaryAppend(x: string, c: string)
    requires IndexOfBoundary(x).Some?
    ensures IndexOfBoundary(x + c) == IndexOfBoundary(x)
  {
    var b := IndexOfBoundary(x).value;
    assert BoundaryAt(x + c, b);
    forall p | 0 <= p < b ensures !BoundaryAt(x + c, p) {
      assert !BoundaryAt(x, p);
    }
  }

  lemma IndexOfBoundaryJoin(r: string, rest: string)
    requires WellFormedRecord(r)
    ensures IndexOfBoundary(r + "\n\n" + rest) == Some(|r|)
  {
    var s := r + "\n\n" + rest;
    assert BoundaryAt(s, |r|);
    forall p | 0 <= p < |r| ensures !BoundaryAt(s, p) {
      if p + 1 < |r| { assert !BoundaryAt(r, p); }
    }
  }

  /** Splitting after appending a chunk: the records found so far stay, and the old tail
      followed by the chunk is split on its own. This is why the chunking does not matter. */
  lemma {:induction false} SplitAppend(x: string, c: string)
    ensures SplitRecords(x + c).records
            == SplitRecords(x).records + SplitRecords(SplitRecords(x).rest + c).records
    ensures SplitRecords(x + c).rest == SplitRecords(SplitRecords(x).rest + c).rest
    decreases |x|
  {
    var ix := IndexOfBoundary(x);
    if ix.Some? {
      var b := ix.value;
      var later := x[b + 2..];
      IndexOfBoundaryAppend(x, c);
      assert (x + c)[..b] == x[..b];
      assert (x + c)[b + 2..] == later + c;
      var sx := SplitRecords(x);
      var sl := SplitRecords(later);
      assert sx == Split([x[..b]] + sl.records, sl.rest);
      var sxc := SplitRecords(x + c);
      assert sxc == Split([x[..b]] + SplitRecords(later + c).records, SplitRecords(later + c).rest);
      SplitAppend(later, c);
    }
  }

  /** The split of well-formed records followed by a tail without a terminator is those records and that tail. */
  lemma {:induction false} SplitOfJoin(records: seq<string>, tail: string)
    requires forall i :: 0 <= i < |records| ==> WellFormedRecord(records[i])
    requires NoBoundary(tail)
    ensures SplitRecords(Join(records) + tail) == Split(records, tail)
  {
    if records == [] {
      assert Join(records) + tail == tail;
    } else {
      var s := Join(records) + tail;
      var rest := Join(records[1..]) + tail;
      assert s == records[0] + "\n\n" + rest;
      IndexOfBoundaryJoin(records[0], rest);
      assert s[..|records[0]|] == records[0];
      assert s[|records[0]| + 2..] == rest;
      SplitOfJoin(records[1..], tail);
      assert [records[0]] + records[1..] == records;
    }
  }

  /** The payload of a record: trimmed, it must start with `data:`, which is cut off together
      with the white space after it (the pattern ^data:\s*). */
  function RecordPayload(record: string): Option<string> {
    var t := Trim(record);
    if StartsWith(t, "data:") then Some(TrimStart(t[5..])) else None
  }

  /** A record has a payload exactly when its trimmed text starts with `data:`; the payload is what
      follows `data:` and a maximal run of white space, up to the end of the trimmed record. */
  lemma RecordPayloadShape(record: string)
    ensures RecordPayload(record).Some? <==> StartsWith(Trim(record), "data:")
    ensures RecordPayload(record).Some? ==>
      var t := Trim(record);
      var p := RecordPayload(record).value;
      && |p| <= |t| - 5
      && t[|t| - |p|..] == p
      && AllSpace(t[5..|t| - |p|])
      && (p == [] || !IsJsSpace(p[0]))
  {
    var t := Trim(record);
    if StartsWith(t, "data:") {
      var p := TrimStart(t[5..]);
      TrimStartShape(t[5..]);
      assert t[|t| - |p|..] == t[5..][|t[5..]| - |p|..];
      assert t[5..|t| - |p|] == t[5..][..|t[5..]| - |p|];
    }
  }

  /** The item a record yields, if any. */
  function RecordItem(codec: Codec, record: string): Option<Json> {
    match RecordPayload(record)
    case None => None
    case Some(p) => if p == "[DONE]" then Some(DoneJson) else codec.decode(p)
  }

  /** The items of a run of records, in record order; a record that yields nothing is skipped. */
  function Items(codec: Codec, records: seq<string>): seq<Json> {
    if records == [] then []
    else
      (match RecordItem(codec, records[0]) case Some(j) => [j] case None => []) + Items(codec, records[1..])
  }

  lemma {:induction false} ItemsAppend(codec: Codec, a: seq<string>, b: seq<string>)
    ensures Items(codec, a + b) == Items(codec, a) + Items(codec, b)
  {
    if a != [] {
      assert (a + b)[0] == a[0];
      assert (a + b)[1..] == a[1..] + b;
      ItemsAppend(codec, a[1..], b);
      var head := ItemsOf(RecordItem(codec, a[0]));
      assert Items(codec, a + b) == head + Items(codec, a[1..] + b);
      assert Items(codec, a) == head + Items(codec, a[1..]);
    } else {
      assert a + b == b;
    }
  }

  /** The items of a text: those of its complete records; the unterminated tail never yields. */
  function ParseText(codec: Codec, text: string): seq<Json> {
    Items(codec, SplitRecords(text).records)
  }

  function Concat(chunks: seq<string>): string {
    if chunks == [] then "" else Concat(chunks[..|chunks| - 1]) + chunks[|chunks| - 1]
  }

  /** Items parsed from a prefix are never revised by later text. */
  lemma ParseTextPrefix(codec: Codec, x: string, c: string)
    ensures ParseText(codec, x + c)
            == ParseText(codec, x) + ParseText(codec, SplitRecords(x).rest + c)
  {
    SplitAppend(x, c);
    ItemsAppend(codec, SplitRecords(x).records, SplitRecords(SplitRecords(x).rest + c).records);
  }

  /** The payload of the trimmed record t starts at n: after `data:` and all the white space
      that follows it. */
  predicate PayloadStart(t: string, n: int) {
    5 <= n <= |t| && AllSpace(t[5..n]) && (n == |t| || !IsJsSpace(t[n]))
  }

  /** A trimmed record has at most one payload start, so the payload is determined. */
  lemma PayloadStartUnique(t: string, n: int, m: int)
    requires PayloadStart(t, n) && PayloadStart(t, m)
    ensures n == m
  {
    if n < m {
      SpaceInRun(t, n, m);
    } else if m < n {
      SpaceInRun(t, m, n);
    }
  }

  /** Every character of a white-space run after `data:` is white space. */
  lemma SpaceInRun(t: string, k: int, n: int)
    requires 5 <= k < n <= |t| && AllSpace(t[5..n])
    ensures IsJsSpace(t[k])
  {
    assert t[k] == t[5..n][k - 5];
  }

  /** The body of the inner loop for one record: trim, keep `data:` records, map `[DONE]`,
      and drop a payload that JSON.parse rejects. A record whose trimmed text does not start with
      `data:` yields nothing; otherwise the text after `data:` and its white space is the payload,
      which yields the done event when it reads `[DONE]` and else what JSON.parse makes of it. */
  method RecordStep(codec: Codec, cut: string) returns (item: Option<Json>)
    ensures !StartsWith(Trim(cut), "data:") ==> item == None
    ensures StartsWith(Trim(cut), "data:") ==>
      exists n :: PayloadStart(Trim(cut), n)
        && item == (if Trim(cut)[n..] == "[DONE]" then Some(DoneJson) else codec.decode(Trim(cut)[n..]))
    ensures item == RecordItem(codec, cut)
  {
    RecordPayloadShape(cut);
    ghost var t := Trim(cut);
    if StartsWith(t, "data:") {
      ghost var p := RecordPayload(cut).value;
      assert t[|t| - |p|..] == p;
      assert PayloadStart(t, |t| - |p|);
    }
    item := None;
    var record := Trim(cut);
    if StartsWith(record, "data:") {
      var data := TrimStart(record[5..]);
      if data == "[DONE]" {
        item := Some(DoneJson);
      } else {
        match codec.decode(data) {
          case Some(parsed) => item := Some(parsed);
          case None =>
        }
      }
    }
  }

  /** What a record contributes to the item sequence. */
  function ItemsOf(item: Option<Json>): seq<Json> {
    match item case Some(j) => [j] case None => []
  }

  /** Cutting the first record off a buffer: its item comes first, then those of the rest. */
  lemma DrainOne(codec: Codec, buffer: string)
    requires IndexOfBoundary(buffer).Some?
    ensures
      var b := IndexOfBoundary(buffer).value;
      && Items(codec, SplitRecords(buffer).records)
         == ItemsOf(RecordItem(codec, buffer[..b])) + Items(codec, SplitRecords(buffer[b + 2..]).records)
      && SplitRecords(buffer).rest == SplitRecords(buffer[b + 2..]).rest
  {
    var b := IndexOfBoundary(buffer).value;
    var later := SplitRecords(buffer[b + 2..]);
    assert SplitRecords(buffer) == Split([buffer[..b]] + later.records, later.rest);
    assert ([buffer[..b]] + later.records)[1..] == later.records;
  }

  lemma AppendAssociates<T>(a: seq<T>, b: seq<T>, c: seq<T>)
    ensures a + (b + c) == (a + b) + c
  {
  }

  /** The inner loop: cut every complete record off the front of the buffer, yielding its item. */
  method DrainRecords(codec: Codec, buffer0: string) returns (items: seq<Json>, buffer: string)
    ensures items == Items(codec, SplitRecords(buffer0).records)
    ensures buffer == SplitRecords(buffer0).rest
  {
    items := [];
    buffer := buffer0;
    var boundary := IndexOfBoundary(buffer);
    while boundary.Some?
      invariant boundary == IndexOfBoundary(buffer)
      invariant Items(codec, SplitRecords(buffer0).records) == items + Items(codec, SplitRecords(buffer).records)
      invariant SplitRecords(buffer0).rest == SplitRecords(buffer).rest
      decreases |buffer|
    {
      var b := boundary.value;
      DrainOne(codec, buffer);
      ghost var itemsBefore := items;
      ghost var later := Items(codec, SplitRecords(buffer[b + 2..]).records);
      var item := RecordStep(codec, buffer[..b]);
      buffer := buffer[b + 2..];
      if item.Some? {
        items := items + [item.value];
      }
      assert items == itemsBefore + ItemsOf(item);
      AppendAssociates(itemsBefore, ItemsOf(item), later);
      boundary := IndexOfBoundary(buffer);
    }
  }

  /** The read loop: append each decoded chunk to the buffer, then drain its complete records. */
  method ReadBody(codec: Codec, chunks: seq<string>) returns (items: seq<Json>, buffer: string)
    ensures items == ParseText(codec, Concat(chunks))
    ensures buffer == SplitRecords(Concat(chunks)).rest
  {
    items := [];
    buffer := "";
    var i := 0;
    while i < |chunks|
      invariant 0 <= i <= |chunks|
      invariant items == ParseText(codec, Concat(chunks[..i]))
      invariant buffer == SplitRecords(Concat(chunks[..i])).rest
    {
      ghost var before := Concat(chunks[..i]);
      assert chunks[..i + 1][..i] == chunks[..i];
      assert Concat(chunks[..i + 1]) == before + chunks[i];
      ParseTextPrefix(codec, before, chunks[i]);
      SplitAppend(before, chunks[i]);
      buffer := buffer + chunks[i];
      var found;
      found, buffer := DrainRecords(codec, buffer);
      items := items + found;
      i := i + 1;
    }
    assert chunks[..i] == chunks;
  }

  /** `message || \`HTTP ${status}\``: the text of the Error thrown for a non-ok response. */
  function NonOkMessage(status: nat, text: string): string {
    if text != "" then text else "HTTP " + DecimalString(status)
  }

  /** The error of a non-ok response is never empty: it is the body text, and when that is empty
      `HTTP ` followed by the decimal digits of the status, without a leading zero. */
  lemma NonOkMessageShape(status: nat, text: string)
    ensures NonOkMessage(status, text) != ""
    ensures text != "" ==> NonOkMessage(status, text) == text
    ensures text == "" ==>
      var m := NonOkMessage(status, text);
      && StartsWith(m, "HTTP ")
      && |m| > 5
      && (forall i :: 5 <= i < |m| ==> IsDigit(m[i]))
      && DigitsValue(m[5..]) == status
      && (m[5] == '0' ==> |m| == 6)
  {
    if text == "" {
      var m := NonOkMessage(status, text);
      assert m[5..] == DecimalString(status);
    }
  }

  /** What the async generator yields and how it ends, for a given answer of fetch. */
  function ClientRun(codec: Codec, t: Transport): Run {
    match t
    case FetchRejected(e) => Run([], Threw(e))
    case Responded(ok, status, text, body) =>
      if !ok then Run([], Threw(ErrorWithMessage(NonOkMessage(status, text))))
      else if body.None? then Run([], Threw(ErrorWithMessage(NoBodyMessage)))
      else
        Run(ParseText(codec, Concat(body.value.chunks)),
            match body.value.end case Closed => Returned case ReadFailed(e) => Threw(e))
  }

  /** fetchEventSourceStream, run to the end: the response checks, then the read loop. */
  method FetchEventSourceStream(codec: Codec, t: Transport) returns (run: Run)
    ensures run == ClientRun(codec, t)
  {
    match t {
      case FetchRejected(e) =>
        return Run([], Threw(e));
      case Responded(ok, status, text, body) =>
        if !ok {
          var message := if text != "" then text else "HTTP " + DecimalString(status);
          return Run([], Threw(ErrorWithMessage(message)));
        }
        if body.None? {
          return Run([], Threw(ErrorWithMessage(NoBodyMessage)));
        }
        var items, buffer := ReadBody(codec, body.value.chunks);
        match body.value.end {
          case Closed => run := Run(items, Returned);
          case ReadFailed(e) => run := Run(items, Threw(e));
        }
    }
  }

  // ---------------------------------------------------------------------------
  // Properties of the parser.

  /** A non-ok response fails before any item is yielded, with the body text or `HTTP <status>`. */
  lemma NonOkFailsFirst(codec: Codec, status: nat, text: string, body: Option<BodyStream>)
    ensures ClientRun(codec, Responded(false, status, text, body)).items == []
    ensures ClientRun(codec, Responded(false, status, text, body)).end
            == Threw(ErrorWithMessage(if text != "" then text else "HTTP " + DecimalString(status)))
  {
  }

  /** An unterminated tail is never emitted, also not when the stream ends: text after the last
      blank line contributes nothing, whatever it holds. */
  lemma {:induction false} TailNeverEmitted(codec: Codec, records: seq<string>, tail: string)
    requires forall i :: 0 <= i < |records| ==> WellFormedRecord(records[i])
    requires NoBoundary(tail)
    ensures ParseText(codec, Join(records) + tail) == Items(codec, records)
    ensures ParseText(codec, Join(records) + tail) == ParseText(codec, Join(records))
  {
    SplitOfJoin(records, tail);
    SplitOfJoin(records, "");
    assert Join(records) + "" == Join(records);
  }

  /** The output depends on the concatenated text only, not on how it was cut into chunks;
      and the parse of a longer text extends that of its prefix. */
  lemma ChunkingIrrelevant(codec: Codec, a: seq<string>, b: seq<string>)
    requires Concat(a) == Concat(b)
    ensures ClientRun(codec, Responded(true, 200, "", Some(BodyStream(a, Closed))))
            == ClientRun(codec, Responded(true, 200, "", Some(BodyStream(b, Closed))))
  {
  }

  /** A record that yields nothing (not `data:`, or a payload JSON.parse rejects) is skipped and the
      records after it are still processed. */
  lemma SkippedRecord(codec: Codec, record: string, later: seq<string>)
    requires RecordItem(codec, record).None?
    ensures Items(codec, [record] + later) == Items(codec, later)
  {
    assert ([record] + later)[1..] == later;
  }

  /** A record reading `data:` then white space then `[DONE]` yields the done event; any other
      `data:` payload yields what JSON.parse makes of it. */
  lemma DataRecordItem(codec: Codec, record: string, payload: string)
    requires RecordPayload(record) == Some(payload)
    ensures payload == "[DONE]" ==> RecordItem(codec, record) == Some(DoneJson)
    ensures payload != "[DONE]" ==> RecordItem(codec, record) == codec.decode(payload)
  {
  }

  /** The record of one frame `data: <e>` with e safe for framing carries exactly e. */
  lemma FrameRecordPayload(e: string)
    requires FrameSafe(e)
    ensures WellFormedRecord("data: " + e)
    ensures RecordPayload("data: " + e) == Some(e)
  {
    var r := "data: " + e;
    forall p | 0 <= p < |r| ensures !BoundaryAt(r, p) {
      if p >= 6 { assert !BoundaryAt(e, p - 6); }
    }
    assert r[|r| - 1] == e[|e| - 1];
    TrimOfTrimmed(r);
    assert r[5..] == [' '] + e;
    assert r[5..][1..] == e;
    assert Trim(r) == r;
    assert StartsWith(r, "data:");
    assert TrimStart(r[5..]) == TrimStart(e);
    assert TrimStart(e) == e;
  }
}
