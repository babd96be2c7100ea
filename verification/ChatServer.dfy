/** The server side of the chat stream: what the event generator yields, what it stores as
    the answer, and which generated answer becomes a candidate for the answer cache. */
module ChatServer {
  import opened Wrappers
  import opened ChatStream
  import ChunkIds
  import Seqs = Sequences
  import Text

  /** A text and whether it can be encoded (a lone surrogate cannot). */
  datatype Piece = Piece(text: string, encodable: bool)

  /** One line of the model's reply; a payload carries its text and whether it is the last. */
  datatype Line = Blank | Undecodable | NotAnObject | Payload(piece: Option<Piece>, last: bool)

  datatype Item = TokenItem(piece: Piece) | DoneItem

  /** How a reply ends once its lines are used up. */
  datatype Ending = Normal | TimedOut | RequestFailed | Broken

  datatype Step = Yielded(item: Item) | Stopped | Raised(ending: Ending)

  datatype Status = Complete | Empty | Interrupted | Timeout | Failed

  // ---------- the model's reply ----------

  predicate HasText(line: Line) {
    line.Payload? && line.piece.Some? && line.piece.value.text != ""
  }

  predicate IsLast(line: Line) {
    line.Payload? && line.last
  }

  /** What a reply yields, up to its last line. */
  function Items(lines: seq<Line>): seq<Item>
    decreases |lines|, 1
  {
    if lines == [] then []
    else (if HasText(lines[0]) then [TokenItem(lines[0].piece.value)] else []) + AfterText(lines)
  }

  function AfterText(lines: seq<Line>): seq<Item>
    requires lines != []
    decreases |lines|, 0
  {
    if IsLast(lines[0]) then [DoneItem] else Items(lines[1..])
  }

  predicate Finishes(lines: seq<Line>) {
    exists i :: 0 <= i < |lines| && IsLast(lines[i])
  }

  function Texts(items: seq<Item>): string {
    if items == [] then ""
    else (if items[0].TokenItem? then items[0].piece.text else "") + Texts(items[1..])
  }

  /** The answer that what was yielded offers to the answer cache: the whole of a finished reply. */
  function Candidate(yielded: seq<Item>, cacheKey: Option<string>): Option<string> {
    var answer := Text.Strip(Texts(yielded));
    if DoneItem in yielded && cacheKey.Some? && cacheKey.value != "" && answer != "" then Some(answer) else None
  }

  /** What the line at p contributes. */
  lemma {:induction false} ItemsAt(lines: seq<Line>, p: nat)
    requires p < |lines|
    ensures AfterText(lines[p..]) == if IsLast(lines[p]) then [DoneItem] else Items(lines[p + 1..])
    ensures Items(lines[p..]) == if HasText(lines[p]) then [TokenItem(lines[p].piece.value)] + AfterText(lines[p..])
                                 else AfterText(lines[p..])
  {
    var l := lines[p..];
    assert l[0] == lines[p] && l[1..] == lines[p + 1..];
    assert [] + AfterText(l) == AfterText(l);
  }

  lemma {:induction false} NoLines(lines: seq<Line>)
    ensures Items(lines[|lines|..]) == []
  {
  }

  /** What is to come from the line at p, or from its end once its text was yielded. */
  function Remaining(lines: seq<Line>, p: nat, midLine: bool): seq<Item>
    requires p <= |lines| && (midLine ==> p < |lines|)
  {
    if midLine then AfterText(lines[p..]) else Items(lines[p..])
  }

  lemma {:induction false} TextsOfMore(items: seq<Item>, item: Item)
    ensures Texts(items + [item]) == Texts(items) + if item.TokenItem? then item.piece.text else ""
  {
    if items != [] {
      TextsOfMore(items[1..], item);
      assert (items + [item])[1..] == items[1..] + [item];
    }
  }

  /** A reply read lazily: each call runs to the next item, the end, or an exception. */
  class OllamaStream {
    const lines: seq<Line>
    const ending: Ending
    const cacheKey: Option<string>
    var position: nat
    var midLine: bool
    var answer: string
    var completed: bool
    var closed: bool
    var pending: Option<string>
    ghost var yielded: seq<Item>

    constructor (lines: seq<Line>, ending: Ending, cacheKey: Option<string>)
      ensures this.lines == lines && this.ending == ending && this.cacheKey == cacheKey
      ensures Valid() && Rest() == Items(lines) && yielded == [] && !closed
    {
      this.lines, this.ending, this.cacheKey := lines, ending, cacheKey;
      position, midLine, answer, completed, closed, pending := 0, false, "", false, false, None;
      yielded := [];
    }

    ghost predicate Valid()
      reads this
    {
      && position <= |lines|
      && (midLine ==> position < |lines| && !completed)
      && (completed ==> position < |lines| && IsLast(lines[position]))
      && (!completed ==> forall i | 0 <= i < position :: !IsLast(lines[i]))
      && (completed <==> DoneItem in yielded)
      && answer == Texts(yielded)
      && pending == if closed then Candidate(yielded, cacheKey) else None
    }

    /** What is still to come. */
    ghost function Rest(): seq<Item>
      requires position <= |lines| && (midLine ==> position < |lines|)
      reads this
    {
      if closed || completed then [] else Remaining(lines, position, midLine)
    }

    /** The clean-up that runs however the generator ends. */
    method Close()
      requires Valid()
      modifies `closed, `pending
      ensures Valid() && closed
    {
      if !closed {
        var full := Text.Strip(answer);
        if completed && cacheKey.Some? && cacheKey.value != "" && full != "" {
          pending := Some(full);
        }
        closed := true;
      }
    }

    /** Lines that are blank, malformed or empty of text yield nothing. */
    method SkipQuietLines()
      requires Valid() && !closed && !completed
      modifies `position, `midLine
      ensures Valid() && Rest() == old(Rest())
      ensures position < |lines| ==> (!midLine && HasText(lines[position])) || IsLast(lines[position])
    {
      hide Items;
      hide AfterText;
      hide Candidate;
      hide Texts;
      while position < |lines| && (midLine || !HasText(lines[position])) && !IsLast(lines[position])
        invariant position <= |lines| && (midLine ==> position < |lines|)
        invariant Remaining(lines, position, midLine) == old(Rest())
        invariant forall i | 0 <= i < position :: !IsLast(lines[i])
      {
        ItemsAt(lines, position);
        position, midLine := position + 1, false;
      }
    }

    method Next() returns (step: Step)
      requires Valid() && !closed
      modifies this
      ensures Valid()
      ensures old(Rest()) != [] ==> step == Yielded(old(Rest())[0]) && Rest() == old(Rest())[1..] && !closed
      ensures old(Rest()) == [] ==> closed && step == if Finishes(lines) || ending == Normal then Stopped else Raised(ending)
      ensures yielded == old(yielded) + if step.Yielded? then [step.item] else []
    {
      hide Candidate;
      hide Texts;
      hide Items;
      hide AfterText;
      NoLines(lines);
      if completed {
        Close();
        Seqs.Units(yielded);
        return Stopped;
      }
      SkipQuietLines();
      if position == |lines| {
        Close();
        return if ending == Normal then Stopped else Raised(ending);
      }
      var line := lines[position];
      ItemsAt(lines, position);
      if !midLine && HasText(line) {
        TextsOfMore(yielded, TokenItem(line.piece.value));
        answer := answer + line.piece.value.text;
        midLine := true;
        yielded := yielded + [TokenItem(line.piece.value)];
        return Yielded(TokenItem(line.piece.value));
      }
      assert Rest() == [DoneItem];
      TextsOfMore(yielded, DoneItem);
      completed, midLine := true, false;
      yielded := yielded + [DoneItem];
      return Yielded(DoneItem);
    }
  }

  // ---------- the event generator ----------

  predicate Unsendable(item: Item) {
    item.TokenItem? && !item.piece.encodable
  }

  /** The tokens before the first one that cannot be encoded. */
  function Sent(items: seq<Item>): seq<Event> {
    if items == [] || Unsendable(items[0]) then []
    else (if items[0].TokenItem? then [Token(items[0].piece.text)] else []) + Sent(items[1..])
  }

  /** The text of the first token that cannot be encoded. */
  function Unsent(items: seq<Item>): string {
    if items == [] then ""
    else if Unsendable(items[0]) then items[0].piece.text
    else Unsent(items[1..])
  }

  predicate AllSendable(items: seq<Item>) {
    forall i | 0 <= i < |items| :: !Unsendable(items[i])
  }

  function Outcome(metadataOk: bool, items: seq<Item>, ending: Ending): Status {
    if !metadataOk || !AllSendable(items) then Failed
    else if DoneItem !in items && ending != Normal then
      (match ending case TimedOut => Timeout case RequestFailed => Interrupted case _ => Failed)
    else if Sent(items) == [] then Empty
    else if DoneItem !in items then Interrupted
    else Complete
  }

  function StatusName(s: Status): string {
    match s
    case Complete => "complete"
    case Empty => "empty"
    case Interrupted => "interrupted"
    case Timeout => "timeout"
    case Failed => "failed"
  }

  function Problem(s: Status): Event
    requires s != Complete
  {
    match s
    case Empty => Failure(Some("empty_stream"), Some("No response was generated."))
    case Interrupted => Failure(Some("stream_interrupted"), Some("The response stream ended early."))
    case Timeout => Failure(Some("timeout"), Some("The response stream timed out."))
    case Failed => Failure(Some("generation_failed"), Some("The response could not be completed."))
  }

  function Last(s: Status, messageId: nat): Event {
    var id := Some(ChunkIds.Decimal(messageId));
    Done(StatusName(s), s != Complete, id, id)
  }

  /** The events that end a run. */
  function Ends(s: Status, messageId: nat): seq<Event> {
    (if s == Complete then [] else [Problem(s)]) + [Last(s, messageId)]
  }

  /** All a run yields when nobody closes it. */
  function Emission(metadata: Event, metadataOk: bool, items: seq<Item>, ending: Ending, messageId: nat): seq<Event> {
    var s := Outcome(metadataOk, items, ending);
    (if metadataOk then [metadata] + Sent(items) else []) + Ends(s, messageId)
  }

  function Taken(events: seq<Event>, closesAfter: Option<nat>): seq<Event> {
    if closesAfter.Some? && closesAfter.value < |events| then events[..closesAfter.value] else events
  }

  function TokenTexts(events: seq<Event>): string {
    if events == [] then ""
    else (if events[0].Token? then events[0].text else "") + TokenTexts(events[1..])
  }

  lemma {:induction false} TokenTextsOfConcat(a: seq<Event>, b: seq<Event>)
    ensures TokenTexts(a + b) == TokenTexts(a) + TokenTexts(b)
  {
    if a == [] {
      assert a + b == b;
    } else {
      TokenTextsOfConcat(a[1..], b);
      assert (a + b)[1..] == a[1..] + b;
    }
  }

  predicate HasProblem(events: seq<Event>) {
    exists i :: 0 <= i < |events| && events[i].Failure?
  }

  lemma {:induction false} ConsumedItems(a: seq<Item>, b: seq<Item>)
    requires AllSendable(a)
    ensures Sent(a + b) == Sent(a) + Sent(b) && Unsent(a + b) == Unsent(b)
    ensures AllSendable(a + b) <==> AllSendable(b)
  {
    assert forall i | 0 <= i < |b| :: b[i] == (a + b)[|a| + i];
    if a == [] {
      assert a + b == b;
    } else {
      ConsumedItems(a[1..], b);
      assert (a + b)[1..] == a[1..] + b;
    }
  }

  lemma {:induction false} SentAreTokens(items: seq<Item>)
    ensures forall e :: e in Sent(items) ==> e.Token?
  {
    if items != [] && !Unsendable(items[0]) {
      SentAreTokens(items[1..]);
    }
  }

  lemma {:induction false} SendableItems(items: seq<Item>)
    requires AllSendable(items)
    ensures Unsent(items) == ""
  {
    if items != [] {
      SendableItems(items[1..]);
    }
  }

  lemma {:induction false} DoneIffFinishes(lines: seq<Line>)
    ensures DoneItem in Items(lines) <==> Finishes(lines)
  {
    if lines != [] && !IsLast(lines[0]) {
      DoneIffFinishes(lines[1..]);
      assert forall i | 0 < i < |lines| :: lines[1..][i - 1] == lines[i];
    }
  }

  // The steps of relaying items, by the kind of item.

  lemma {:induction false} RelayStarts(metadata: Event)
    requires metadata.Metadata?
    ensures AllSendable([]) && Sent([]) == [] && TokenTexts([metadata] + Sent([])) == ""
    ensures [metadata] + Sent([]) == [metadata]
  {
  }

  lemma {:induction false} NotFinished(yielded: seq<Item>, cacheKey: Option<string>)
    requires DoneItem !in yielded
    ensures Candidate(yielded, cacheKey) == None
  {
  }

  lemma {:induction false} Consume(consumed: seq<Item>, rest: seq<Item>)
    requires rest != []
    ensures consumed + rest == (consumed + [rest[0]]) + rest[1..]
  {
  }

  lemma {:induction false} RelaysToken(metadata: Event, consumed: seq<Item>, piece: Piece)
    requires AllSendable(consumed) && piece.encodable
    ensures var more := consumed + [TokenItem(piece)];
            && AllSendable(more) && Sent(more) == Sent(consumed) + [Token(piece.text)]
            && (DoneItem in more <==> DoneItem in consumed)
            && TokenTexts([metadata] + Sent(more)) == TokenTexts([metadata] + Sent(consumed)) + piece.text
  {
    ConsumedItems(consumed, [TokenItem(piece)]);
    TokenTextsOfConcat([metadata] + Sent(consumed), [Token(piece.text)]);
    assert [metadata] + (Sent(consumed) + [Token(piece.text)]) == ([metadata] + Sent(consumed)) + [Token(piece.text)];
  }

  lemma {:induction false} RelaysDone(consumed: seq<Item>)
    requires AllSendable(consumed)
    ensures var more := consumed + [DoneItem];
            AllSendable(more) && Sent(more) == Sent(consumed) && DoneItem in more
  {
    ConsumedItems(consumed, [DoneItem]);
  }

  lemma {:induction false} StopsAtUnsendable(consumed: seq<Item>, rest: seq<Item>, ending: Ending)
    requires AllSendable(consumed) && rest != [] && Unsendable(rest[0])
    ensures var items := consumed + rest;
            && !AllSendable(items) && Sent(items) == Sent(consumed) && Unsent(items) == rest[0].piece.text
            && Outcome(true, items, ending) == Failed
  {
    ConsumedItems(consumed, rest);
  }

  /** The status once the reply has ended. */
  function EndStatus(step: Step, tokens: nat, sawDone: bool): Status
    requires !step.Yielded?
  {
    match step
    case Raised(ending) => (match ending case TimedOut => Timeout case RequestFailed => Interrupted case _ => Failed)
    case _ => if tokens == 0 then Empty else if !sawDone then Interrupted else Complete
  }

  lemma {:induction false} EndsWithReply(lines: seq<Line>, ending: Ending)
    requires AllSendable(Items(lines))
    ensures var items := Items(lines);
            var step := if Finishes(lines) || ending == Normal then Stopped else Raised(ending);
            Unsent(items) == "" && Outcome(true, items, ending) == EndStatus(step, |Sent(items)|, DoneItem in items)
  {
    SendableItems(Items(lines));
    DoneIffFinishes(lines);
  }

  /** The metadata and the tokens: ends with the reply, or when the client goes away. */
  method Relay(stream: OllamaStream, metadata: Event, closesAfter: Option<nat>)
    returns (emitted: seq<Event>, answer: string, status: Status, closed: bool)
    requires stream.Valid() && !stream.closed && stream.Rest() == Items(stream.lines) && stream.yielded == []
    requires metadata.Metadata? && closesAfter != Some(0)
    modifies stream
    ensures var items := Items(stream.lines);
            var all := [metadata] + Sent(items);
            if closed
            then closesAfter.Some? && closesAfter.value <= |all| && emitted == all[..closesAfter.value]
                 && answer == TokenTexts(emitted)
            else emitted == all && (closesAfter.Some? ==> closesAfter.value > |all|)
                 && answer == TokenTexts(all) + Unsent(items)
                 && status == Outcome(true, items, stream.ending)
    ensures stream.pending == if !closed && AllSendable(Items(stream.lines))
                              then Candidate(Items(stream.lines), stream.cacheKey) else None
  {
    hide Sent;
    hide Unsent;
    hide TokenTexts;
    hide Outcome;
    hide AllSendable;
    hide Candidate;
    hide Items;
    hide Finishes;
    hide EndStatus;
    ghost var items := Items(stream.lines);
    ghost var consumed, rest: seq<Item> := [], items;
    RelayStarts(metadata);
    Seqs.Units(items);
    var tokens, sawDone := 0, false;
    emitted, answer, status := [metadata], "", Complete;
    closed := closesAfter == Some(1);
    var running := !closed;
    while running
      invariant stream.Valid() && items == consumed + rest && AllSendable(consumed)
      invariant emitted == [metadata] + Sent(consumed) && (running ==> tokens == |Sent(consumed)|)
      invariant sawDone <==> DoneItem in consumed
      invariant running ==> !stream.closed && !closed && stream.yielded == consumed && rest == stream.Rest()
      invariant running || closed ==> answer == TokenTexts(emitted)
      invariant running && closesAfter.Some? ==> closesAfter.value > |emitted|
      invariant closed ==> !stream.closed && DoneItem !in stream.yielded && closesAfter == Some(|emitted|)
      invariant !running && !closed ==>
          && emitted == [metadata] + Sent(items) && (closesAfter.Some? ==> closesAfter.value > |emitted|)
          && answer == TokenTexts(emitted) + Unsent(items) && status == Outcome(true, items, stream.ending)
          && if AllSendable(items) then stream.yielded == items else DoneItem !in stream.yielded
      decreases |rest|, running
    {
      var step := stream.Next();
      if !step.Yielded? {
        assert rest == [];
        Seqs.Units(consumed);
        EndsWithReply(stream.lines, stream.ending);
        status := EndStatus(step, tokens, sawDone);
        running := false;
      } else if step.item.DoneItem? {
        Consume(consumed, rest);
        RelaysDone(consumed);
        sawDone := true;
        consumed, rest := consumed + [DoneItem], rest[1..];
      } else {
        var piece := step.item.piece;
        tokens := tokens + 1;
        answer := answer + piece.text;
        if piece.encodable {
          Consume(consumed, rest);
          RelaysToken(metadata, consumed, piece);
          Seqs.Assoc([metadata], Sent(consumed), [Token(piece.text)]);
          emitted := emitted + [Token(piece.text)];
          consumed, rest := consumed + [step.item], rest[1..];
          closed := closesAfter == Some(|emitted|);
          running := !closed;
        } else {
          StopsAtUnsendable(consumed, rest, stream.ending);
          status := Failed;
          running := false;
        }
      }
    }
    ConsumedItems(consumed, rest);
    assert closed ==> emitted == ([metadata] + Sent(items))[..|emitted|] by {
      Seqs.Assoc([metadata], Sent(consumed), Sent(rest));
    }
    if DoneItem !in stream.yielded {
      NotFinished(stream.yielded, stream.cacheKey);
    }
    stream.Close();
  }

  lemma {:induction false} NoTokensNoText(events: seq<Event>)
    requires forall i | 0 <= i < |events| :: !events[i].Token?
    ensures TokenTexts(events) == ""
  {
    if events != [] {
      NoTokensNoText(events[1..]);
    }
  }

  lemma {:induction false} EndsSendNoText(start: seq<Event>, s: Status, messageId: nat, room: Option<nat>)
    requires room != Some(0) && forall e :: e in start ==> !e.Failure?
    ensures var events := start + Taken(Ends(s, messageId), room);
            TokenTexts(events) == TokenTexts(start) && (HasProblem(events) <==> s != Complete)
  {
    var ends := Taken(Ends(s, messageId), room);
    TokenTextsOfConcat(start, ends);
    NoTokensNoText(ends);
    if s != Complete {
      assert (start + ends)[|start|] == Problem(s);
    }
  }

  function Room(closesAfter: Option<nat>, used: nat): Option<nat>
    requires closesAfter.Some? ==> used <= closesAfter.value
  {
    if closesAfter.Some? then Some(closesAfter.value - used) else None
  }

  lemma {:induction false} TakenAfter(start: seq<Event>, ends: seq<Event>, closesAfter: Option<nat>)
    requires closesAfter.Some? ==> |start| <= closesAfter.value
    ensures Taken(start + ends, closesAfter) == start + Taken(ends, Room(closesAfter, |start|))
  {
  }

  /** The last events of a run, and the answer that is stored before the very last one. */
  method Conclude(status: Status, messageId: nat, room: Option<nat>) returns (ends: seq<Event>)
    requires room != Some(0)
    ensures ends == Taken(Ends(status, messageId), room)
  {
    ends := [];
    var closed := false;
    if status != Complete {
      ends := [Problem(status)];
      closed := room == Some(1);
    }
    if !closed {
      ends := ends + [Last(status, messageId)];
    }
  }

  /** What an undisturbed run offers to the answer cache. */
  function Offered(metadataOk: bool, items: seq<Item>, cacheKey: Option<string>): Option<string> {
    if metadataOk && AllSendable(items) then Candidate(items, cacheKey) else None
  }

  /** Yields the events of one answer until the reply ends or the client goes away. */
  method StreamEvents(stream: OllamaStream, metadata: Event, metadataOk: bool, messageId: nat, closesAfter: Option<nat>)
    returns (emitted: seq<Event>, stored: Option<string>)
    requires stream.Valid() && !stream.closed && stream.Rest() == Items(stream.lines) && stream.yielded == []
    requires metadata.Metadata?
    modifies stream
    ensures var items := Items(stream.lines);
            emitted == Taken(Emission(metadata, metadataOk, items, stream.ending, messageId), closesAfter)
    ensures stored == if closesAfter == Some(0) then None
                      else Some(TokenTexts(emitted) + if HasProblem(emitted) && metadataOk then Unsent(Items(stream.lines)) else "")
    ensures stream.pending == if |emitted| > 1 + |Sent(Items(stream.lines))|
                              then Offered(metadataOk, Items(stream.lines), stream.cacheKey) else None
  {
    hide Sent;
    hide Unsent;
    hide TokenTexts;
    hide AllSendable;
    hide Candidate;
    hide HasProblem;
    emitted, stored := [], None;
    if closesAfter == Some(0) {
      return;
    }
    ghost var items := Items(stream.lines);
    var status, answer, closed := Failed, "", false;
    if metadataOk {
      emitted, answer, status, closed := Relay(stream, metadata, closesAfter);
      RelayedHasNoProblem(metadata, items, |emitted|);
      Seqs.Units(TokenTexts(emitted));
    } else {
      NoTokensNoText([]);
    }
    stored := Some(answer);
    if !closed {
      ghost var relayed := emitted;
      var room := Room(closesAfter, |emitted|);
      var ends := Conclude(status, messageId, room);
      EndsSendNoText(emitted, status, messageId, room);
      TakenAfter(emitted, Ends(status, messageId), closesAfter);
      emitted := emitted + ends;
      Seqs.Units(TokenTexts(emitted));
      assert status == Complete ==> AllSendable(items) && Unsent(items) == "";
    }
  }

  lemma {:induction false} RelayedHasNoProblem(metadata: Event, items: seq<Item>, k: nat)
    requires metadata.Metadata? && k <= 1 + |Sent(items)|
    ensures forall e :: e in [metadata] + Sent(items) ==> !e.Failure?
    ensures forall e :: e in ([metadata] + Sent(items))[..k] ==> !e.Failure?
    ensures !HasProblem(([metadata] + Sent(items))[..k])
    ensures AllSendable(items) ==> Unsent(items) == ""
  {
    SentAreTokens(items);
    var all := [metadata] + Sent(items);
    assert forall i | 0 < i < |all| :: all[i] == Sent(items)[i - 1] && all[i] in Sent(items);
    if AllSendable(items) {
      SendableItems(items);
    }
  }

  // ---------- whole runs ----------

  /** Every undisturbed run: metadata first (unless it cannot be encoded), tokens, at most one
      error, then exactly one done event, which is partial exactly when there was an error. */
  lemma {:induction false} RunsFollowTheProtocol(metadata: Event, metadataOk: bool, items: seq<Item>,
      ending: Ending, messageId: nat)
    requires metadata.Metadata?
    ensures var run := Emission(metadata, metadataOk, items, ending, messageId);
            var last := |run| - 1;
            && run[last].Done? && (forall i | 0 <= i < last :: !run[i].Done?)
            && (run[last].partial <==> HasProblem(run))
            && (forall i | 0 <= i < last - 1 :: !run[i].Failure?)
            && (metadataOk ==> run[0] == metadata)
            && (forall i | 0 <= i < last && run[i].Metadata? :: i == 0 && metadataOk)
  {
    var s := Outcome(metadataOk, items, ending);
    var start := if metadataOk then [metadata] + Sent(items) else [];
    var run := Emission(metadata, metadataOk, items, ending, messageId);
    SentAreTokens(items);
    assert forall i | 0 <= i < |start| :: run[i] == start[i] && (i > 0 || !metadataOk ==> start[i] in Sent(items));
    if s != Complete {
      assert run[|start|] == Problem(s);
    }
  }

  lemma {:induction false} SentTexts(items: seq<Item>)
    requires AllSendable(items)
    ensures TokenTexts(Sent(items)) == Texts(items)
    ensures Sent(items) == [] ==> Texts(items) == ""
  {
    if items != [] {
      var more := Sent(items[1..]);
      SentTexts(items[1..]);
      assert !Unsendable(items[0]);
      if items[0].TokenItem? {
        Seqs.HeadTail(Token(items[0].piece.text), more);
      } else {
        Seqs.Units(more);
        Seqs.Units(Texts(items[1..]));
      }
    }
  }

  lemma {:induction false} EmissionTexts(metadata: Event, metadataOk: bool, items: seq<Item>, ending: Ending,
      messageId: nat)
    requires metadata.Metadata?
    ensures TokenTexts(Emission(metadata, metadataOk, items, ending, messageId))
         == if metadataOk then TokenTexts(Sent(items)) else ""
  {
    var s := Outcome(metadataOk, items, ending);
    var start := if metadataOk then [metadata] + Sent(items) else [];
    RelayedHasNoProblem(metadata, items, 0);
    EndsSendNoText(start, s, messageId, None);
    TokenTextsOfConcat([metadata], Sent(items));
    assert TokenTexts([metadata]) == "";
  }

  /** The answer an undisturbed run stores. */
  function StoredAnswer(run: seq<Event>, metadataOk: bool, items: seq<Item>): string {
    TokenTexts(run) + if HasProblem(run) && metadataOk then Unsent(items) else ""
  }

  /** The stored answer is the text that was sent exactly when no token failed to be encoded;
      a token that fails is stored although it was never sent. */
  lemma {:induction false} StoredIsSentIff(metadata: Event, metadataOk: bool, items: seq<Item>, ending: Ending,
      messageId: nat)
    requires metadata.Metadata?
    ensures var run := Emission(metadata, metadataOk, items, ending, messageId);
            && (StoredAnswer(run, metadataOk, items) == TokenTexts(run) <==> !metadataOk || Unsent(items) == "")
            && (metadataOk && AllSendable(items) ==> StoredAnswer(run, metadataOk, items) == Texts(items))
  {
    var run := Emission(metadata, metadataOk, items, ending, messageId);
    EmissionTexts(metadata, metadataOk, items, ending, messageId);
    RunsFollowTheProtocol(metadata, metadataOk, items, ending, messageId);
    if AllSendable(items) {
      SentTexts(items);
      SendableItems(items);
    }
  }

  /** A reply becomes a cache candidate exactly when its run is complete, a key is known and the
      stored answer is not blank; the candidate is the stored answer, trimmed. */
  lemma {:induction false} CandidateIffComplete(metadata: Event, metadataOk: bool, items: seq<Item>, ending: Ending,
      messageId: nat, cacheKey: Option<string>)
    requires metadata.Metadata?
    ensures var stored := StoredAnswer(Emission(metadata, metadataOk, items, ending, messageId), metadataOk, items);
            Offered(metadataOk, items, cacheKey) ==
            if Outcome(metadataOk, items, ending) == Complete && cacheKey.Some? && cacheKey.value != "" && Text.Strip(stored) != ""
            then Some(Text.Strip(stored)) else None
  {
    StoredIsSentIff(metadata, metadataOk, items, ending, messageId);
    if AllSendable(items) {
      SentTexts(items);
    }
  }
}
