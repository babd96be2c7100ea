/** From the server's events to the client's: serialising, cutting anywhere and parsing. */
module ChatRoundTrip {
  import opened Wrappers
  import opened Json
  import opened JsonRoundTrip
  import opened ChatStream
  import ChunkIds
  import JsonPrefixes
  import Seqs = Sequences
  import Server = ChatServer

  // ---------- what the server writes ----------

  function OptionText(v: Option<string>): Json {
    if v.Some? then Str(v.value) else Null
  }

  function OptionNumber(v: Option<string>): Json {
    if v.Some? then Number(v.value) else Null
  }

  function ToJson(e: Event): Json {
    match e
    case Metadata(question, confidence, sources, audit, provider, model) =>
      Obj([Field("type", Str("metadata")), Field("question", Str(question)), Field("confidence", Str(confidence)),
           Field("sources", Arr(sources)), Field("audit", if audit.Some? then audit.value else Null),
           Field("generation_provider", OptionText(provider)), Field("generation_model", OptionText(model))])
    case Token(text) => Obj([Field("type", Str("token")), Field("text", Str(text))])
    case Done(status, partial, id, assistantId) =>
      Obj([Field("type", Str("done")), Field("status", Str(status)), Field("partial", Bool(partial)),
           Field("message_id", OptionNumber(id)), Field("assistant_message_id", OptionNumber(assistantId))])
    case Failure(code, message) =>
      Obj([Field("type", Str("error")), Field("code", OptionText(code)), Field("message", OptionText(message))])
  }

  /** Sources and audit are objects without a number JSON cannot express; ids are numbers. */
  predicate Sendable(e: Event) {
    match e
    case Metadata(_, _, sources, audit, _, _) =>
      && (forall i | 0 <= i < |sources| :: sources[i].Obj? && WellFormed(sources[i]))
      && (audit.Some? ==> audit.value.Obj? && WellFormed(audit.value))
    case Done(_, _, id, assistantId) =>
      (id.Some? ==> IsNumber(id.value)) && (assistantId.Some? ==> IsNumber(assistantId.value))
    case _ => true
  }

  predicate AllSendable(events: seq<Event>) {
    forall i | 0 <= i < |events| :: Sendable(events[i])
  }

  function Line(e: Event): string {
    Write(ToJson(e))
  }

  function Wire(events: seq<Event>): string {
    if events == [] then "" else Line(events[0]) + "\n" + Wire(events[1..])
  }

  // ---------- what the client makes of it ----------

  function Received(e: Event): Event {
    if e.Metadata? then e.(sources := FirstOfEach(e.sources)) else e
  }

  function ReceivedAll(events: seq<Event>): (r: seq<Event>)
    ensures |r| == |events| && forall i | 0 <= i < |events| :: r[i] == Received(events[i])
  {
    seq(|events|, i requires 0 <= i < |events| => Received(events[i]))
  }

  lemma {:induction false} MemberAt(fields: seq<Field>, i: nat)
    requires i < |fields| && forall j | i < j < |fields| :: fields[j].name != fields[i].name
    ensures Member(fields, fields[i].name) == Some(fields[i].value)
  {
    if i < |fields| - 1 {
      MemberAt(fields[..|fields| - 1], i);
    }
  }

  lemma {:induction false} MetadataMembers(e: Event)
    requires e.Metadata?
    ensures var fields := ToJson(e).fields;
            && Member(fields, "type") == Some(Str("metadata")) && Member(fields, "question") == Some(Str(e.question))
            && Member(fields, "confidence") == Some(Str(e.confidence)) && Member(fields, "sources") == Some(Arr(e.sources))
            && Member(fields, "audit") == Some(if e.audit.Some? then e.audit.value else Null)
            && Member(fields, "generation_provider") == Some(OptionText(e.provider))
            && Member(fields, "generation_model") == Some(OptionText(e.model))
  {
    hide Member;
    var fields := ToJson(e).fields;
    MemberAt(fields, 0); MemberAt(fields, 1); MemberAt(fields, 2); MemberAt(fields, 3);
    MemberAt(fields, 4); MemberAt(fields, 5); MemberAt(fields, 6);
  }

  lemma {:induction false} MetadataIsRecognised(e: Event)
    requires Sendable(e) && e.Metadata?
    ensures Normalize(ToJson(e)) == Some(Received(e))
  {
    hide Member;
    hide FirstOfEach;
    hide WellFormed;
    MetadataMembers(e);
  }

  lemma {:induction false} OtherIsRecognised(e: Event)
    requires Sendable(e) && !e.Metadata?
    ensures Normalize(ToJson(e)) == Some(e)
  {
    hide Member;
    hide FirstOfEach;
    var fields := ToJson(e).fields;
    MemberAt(fields, 0); MemberAt(fields, 1);
    if !e.Token? { MemberAt(fields, 2); }
    if e.Done? { MemberAt(fields, 3); MemberAt(fields, 4); }
  }

  lemma {:induction false} WrittenIsWellFormed(e: Event)
    requires Sendable(e)
    ensures WellFormed(ToJson(e)) && ToJson(e).Obj?
  {
    if e.Metadata? {
      assert WellFormed(Arr(e.sources));
    }
  }

  lemma {:induction false} LineStarts(e: Event)
    ensures Line(e) != "" && Line(e)[0] == '{' && !IsBlank(Line(e))
  {
    hide WriteFields;
  }

  /** A line is read back as its event, and is one line. */
  lemma {:induction false} LineIsRead(e: Event)
    requires Sendable(e)
    ensures LineEvent(Line(e)) == Some(Received(e)) && OneLine(Line(e))
  {
    hide Write;
    hide Read;
    hide Normalize;
    hide ToJson;
    hide WellFormed;
    WrittenIsWellFormed(e);
    ReadUndoesWrite(ToJson(e));
    WriteHasNoControl(ToJson(e));
    LineStarts(e);
    if e.Metadata? { MetadataIsRecognised(e); } else { OtherIsRecognised(e); }
  }

  /** However the bytes are split, the client sees the server's events up to deduplication. */
  lemma {:induction false} WireIsRead(events: seq<Event>)
    requires AllSendable(events)
    ensures WholeEvents(Wire(events)) == ReceivedAll(events)
  {
    if events == [] {
      assert LineEvents([""]) == [];
    } else {
      hide Line;
      hide Received;
      WireIsRead(events[1..]);
      WholeLine(events[0], Wire(events[1..]));
      ReceivedOneByOne(events);
    }
  }

  // ---------- a connection that breaks ----------

  lemma {:induction false} CutLineIsLost(e: Event, k: nat)
    requires Sendable(e) && k < |Line(e)|
    ensures WholeEvents(Line(e)[..k]) == []
  {
    hide Write;
    hide Read;
    hide Normalize;
    hide ToJson;
    WrittenIsWellFormed(e);
    LineIsRead(e);
    JsonPrefixes.CutObjectIsNoValue(ToJson(e), k);
    var cut := Line(e)[..k];
    LinesOfOneLine(cut);
    assert LineEvents([cut]) == [] by { Seqs.HeadTail(cut, []); }
  }

  lemma {:induction false} WholeLine(e: Event, rest: string)
    requires Sendable(e)
    ensures WholeEvents(Line(e)) == [Received(e)]
    ensures WholeEvents(Line(e) + "\n" + rest) == [Received(e)] + WholeEvents(rest)
  {
    hide Line;
    hide LineEvent;
    hide Received;
    LineIsRead(e);
    LinesOfOneLine(Line(e));
    Seqs.HeadTail(Line(e), []);
    Seqs.Units([Received(e)]);
    BreakSeparates(Line(e), rest);
  }

  lemma {:induction false} ReceivedOneByOne(events: seq<Event>)
    requires events != []
    ensures ReceivedAll(events) == [Received(events[0])] + ReceivedAll(events[1..])
  {
  }

  lemma {:induction false} CutWire(events: seq<Event>, n: nat)
    requires events != [] && n <= |Wire(events)|
    ensures var line, rest := Line(events[0]), Wire(events[1..]);
            Wire(events)[..n] == if n <= |line| then line[..n] else line + "\n" + rest[..n - |line| - 1]
  {
    hide Line;
  }

  /** How many events have their whole line within the first n characters. */
  function Arrived(events: seq<Event>, n: nat): (k: nat)
    ensures k <= |events|
  {
    if events == [] || n < |Line(events[0])| then 0
    else if n == |Line(events[0])| then 1
    else 1 + Arrived(events[1..], n - |Line(events[0])| - 1)
  }

  lemma {:induction false} AllArrive(events: seq<Event>)
    ensures Arrived(events, |Wire(events)|) == |events|
  {
    if events != [] {
      AllArrive(events[1..]);
    }
  }

  /** A stream cut after any character yields the events whose lines arrived whole. */
  lemma {:induction false} CutStreamKeepsWholeLines(events: seq<Event>, n: nat)
    requires AllSendable(events) && n <= |Wire(events)|
    ensures WholeEvents(Wire(events)[..n]) == ReceivedAll(events[..Arrived(events, n)])
  {
    hide Line;
    hide WholeEvents;
    hide Received;
    if events == [] {
      WireIsRead(events);
      Seqs.Whole(events);
    } else {
      var line := Line(events[0]);
      CutWire(events, n);
      if n < |line| {
        CutLineIsLost(events[0], n);
        assert ReceivedAll(events[..0]) == [];
      } else if n == |line| {
        Seqs.Whole(line);
        WholeLine(events[0], "");
        FirstAndMore(events, 0);
        assert ReceivedAll(events[1..][..0]) == [];
      } else {
        var m, rest := n - |line| - 1, Wire(events[1..]);
        CutStreamKeepsWholeLines(events[1..], m);
        WholeLine(events[0], rest[..m]);
        FirstAndMore(events, Arrived(events[1..], m));
      }
    }
  }

  lemma {:induction false} FirstAndMore(events: seq<Event>, k: nat)
    requires k < |events|
    ensures ReceivedAll(events[..1 + k]) == [Received(events[0])] + ReceivedAll(events[1..][..k])
  {
    hide Received;
  }

  // ---------- whole runs ----------

  lemma {:induction false} DigitsDropped(s: string)
    requires ChunkIds.AllDigits(s)
    ensures DropDigits(s) == ""
  {
    if s != "" {
      DigitsDropped(s[1..]);
    }
  }

  lemma {:induction false} NoLeadingZero(n: nat)
    ensures n > 0 ==> ChunkIds.Decimal(n)[0] != '0'
  {
    if n >= 10 {
      NoLeadingZero(n / 10);
    }
  }

  lemma {:induction false} DecimalIsNumber(n: nat)
    ensures IsNumber(ChunkIds.Decimal(n))
  {
    var s := ChunkIds.Decimal(n);
    NoLeadingZero(n);
    DigitsDropped(s);
  }

  lemma {:induction false} RunIsSendable(metadata: Event, metadataOk: bool, items: seq<Server.Item>,
      ending: Server.Ending, messageId: nat)
    requires metadata.Metadata? && Sendable(metadata)
    ensures AllSendable(Server.Emission(metadata, metadataOk, items, ending, messageId))
  {
    hide IsNumber;
    hide WellFormed;
    hide Server.Outcome;
    hide Server.Sent;
    var run := Server.Emission(metadata, metadataOk, items, ending, messageId);
    DecimalIsNumber(messageId);
    Server.SentAreTokens(items);
    assert forall i | 0 <= i < |Server.Sent(items)| :: Server.Sent(items)[i] in Server.Sent(items);
  }

  /** End to end: if the pieces the client receives make up the first n characters of a run,
      it sees the events whose lines arrived whole, all of them when n is the whole length;
      only the sources of the metadata are changed, by deduplication. */
  lemma {:induction false} ClientSeesTheRun(metadata: Event, metadataOk: bool, items: seq<Server.Item>,
      ending: Server.Ending, messageId: nat, pieces: seq<string>, tail: string, n: nat)
    requires metadata.Metadata? && Sendable(metadata)
    ensures var run := Server.Emission(metadata, metadataOk, items, ending, messageId);
            && (n <= |Wire(run)| && Flatten(pieces) + tail == Wire(run)[..n] ==>
                  WholeEvents(Flatten(pieces) + tail) == ReceivedAll(run[..Arrived(run, n)]))
            && (n == |Wire(run)| ==> Arrived(run, n) == |run|)
            && forall i | 0 < i < |run| :: ReceivedAll(run)[i] == run[i]
  {
    var run := Server.Emission(metadata, metadataOk, items, ending, messageId);
    RunIsSendable(metadata, metadataOk, items, ending, messageId);
    if n <= |Wire(run)| {
      CutStreamKeepsWholeLines(run, n);
    }
    AllArrive(run);
    Server.RunsFollowTheProtocol(metadata, metadataOk, items, ending, messageId);
  }
}
