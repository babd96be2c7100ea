/** The incremental reader of the chat stream: one JSON event per line, fed in pieces. */
module ChatStream {
  import opened Wrappers
  import opened Json
  import Seqs = Sequences

  datatype Event =
    | Metadata(question: string, confidence: string, sources: seq<Json>, audit: Option<Json>,
               provider: Option<string>, model: Option<string>)
    | Token(text: string)
    | Done(status: string, partial: bool, messageId: Option<string>, assistantMessageId: Option<string>)
    | Failure(code: Option<string>, message: Option<string>)

  // ---------- reading one event ----------

  /** The member of an object: the last of several with one name. */
  function Member(fields: seq<Field>, name: string): Option<Json> {
    if fields == [] then None
    else
      var last := fields[|fields| - 1];
      if last.name == name then Some(last.value) else Member(fields[..|fields| - 1], name)
  }

  function Text(v: Option<Json>): Option<string> {
    if v.Some? && v.value.Str? then Some(v.value.text) else None
  }

  function NumberOf(v: Option<Json>): Option<string> {
    if v.Some? && v.value.Number? then Some(v.value.lexeme) else None
  }

  function Record(v: Option<Json>): Option<Json> {
    if v.Some? && v.value.Obj? then v else None
  }

  /** What joining shows for a value; nothing for null or a missing member. */
  function Shown(v: Json): string
    decreases v, 1
  {
    match v
    case Null => ""
    case Bool(b) => if b then "true" else "false"
    case Number(lexeme) => lexeme
    case Str(text) => text
    case Arr(items) => ShownItems(items)
    case Obj(_) => "[object Object]"
  }

  function ShownItems(items: seq<Json>): string
    decreases items, 0
  {
    if items == [] then ""
    else if |items| == 1 then Shown(items[0])
    else Shown(items[0]) + "," + ShownItems(items[1..])
  }

  function ShownMember(source: Json, name: string): string {
    var v := if source.Obj? then Member(source.fields, name) else None;
    if v.Some? then Shown(v.value) else ""
  }

  /** The identity of a source: its id, or five of its members joined. */
  function SourceKey(source: Json): Json {
    var id := if source.Obj? then Member(source.fields, "id") else None;
    if id.Some? && !id.value.Null? then id.value
    else
      Str(ShownMember(source, "rank") + "|" + ShownMember(source, "kb_code") + "|" +
          ShownMember(source, "article_title") + "|" + ShownMember(source, "section_title") + "|" +
          ShownMember(source, "text"))
  }

  /** Keys that are objects or arrays are compared by reference, so never match. */
  predicate Repeats(earlier: Json, source: Json) {
    SourceKey(earlier) == SourceKey(source) && !SourceKey(source).Arr? && !SourceKey(source).Obj?
  }

  /** The sources that repeat no earlier one, in order. */
  function FirstOfEach(sources: seq<Json>): seq<Json> {
    if sources == [] then []
    else
      var before, last := sources[..|sources| - 1], sources[|sources| - 1];
      FirstOfEach(before) + if exists s :: s in before && Repeats(s, last) then [] else [last]
  }

  /** Keys that a set can recognise again. */
  function Keys(sources: seq<Json>): set<Json> {
    set s | s in sources && !SourceKey(s).Arr? && !SourceKey(s).Obj? :: SourceKey(s)
  }

  lemma {:induction false} SeenIffRepeats(before: seq<Json>, source: Json)
    ensures SourceKey(source) in Keys(before) <==> exists s :: s in before && Repeats(s, source)
    ensures Keys(before + [source])
         == Keys(before) + if SourceKey(source).Arr? || SourceKey(source).Obj? then {} else {SourceKey(source)}
  {
    hide SourceKey;
  }

  method DeduplicateSources(sources: seq<Json>) returns (kept: seq<Json>)
    ensures kept == FirstOfEach(sources)
  {
    hide SourceKey;
    var seen: set<Json> := {};
    kept := [];
    for i := 0 to |sources|
      invariant kept == FirstOfEach(sources[..i]) && seen == Keys(sources[..i])
    {
      Seqs.TakeStep(sources, i);
      SeenIffRepeats(sources[..i], sources[i]);
      var key := SourceKey(sources[i]);
      if key !in seen {
        kept := kept + [sources[i]];
        if !key.Arr? && !key.Obj? {
          seen := seen + {key};
        }
      }
    }
    Seqs.Whole(sources);
  }

  /** An event, or nothing when the value is not one (or reading it fails). */
  function Normalize(v: Json): Option<Event> {
    if !v.Obj? then None
    else
      var at := (name: string) => Member(v.fields, name);
      var kind := Text(at("type"));
      if kind == Some("token") && Text(at("text")).Some? then Some(Token(Text(at("text")).value))
      else if kind == Some("done") && Text(at("status")).Some? && at("partial").Some? && at("partial").value.Bool? then
        Some(Done(Text(at("status")).value, at("partial").value.b,
                  NumberOf(at("message_id")), NumberOf(at("assistant_message_id"))))
      else if kind == Some("error") then Some(Failure(Text(at("code")), Text(at("message"))))
      else if kind == Some("metadata") && Text(at("question")).Some? && Text(at("confidence")).Some?
              && at("sources").Some? && at("sources").value.Arr? then
        if Null in at("sources").value.items then None  // reading a member of null throws
        else
          Some(Metadata(Text(at("question")).value, Text(at("confidence")).value,
                        FirstOfEach(at("sources").value.items), Record(at("audit")),
                        Text(at("generation_provider")), Text(at("generation_model"))))
      else None
  }

  // ---------- lines ----------

  /** The lines after one more character. */
  function Extend(lines: seq<string>, c: char): (r: seq<string>)
    requires lines != []
    ensures r != []
  {
    var last := |lines| - 1;
    if c == '\n' then lines + [""] else lines[..last] + [lines[last] + [c]]
  }

  /** `text.split("\n")` */
  function Lines(text: string): (lines: seq<string>)
    ensures lines != []
  {
    if text == "" then [""] else Extend(Lines(text[..|text| - 1]), text[|text| - 1])
  }

  /** The lines that are finished, and the one that is not. */
  function Completed(text: string): seq<string> {
    Lines(text)[..|Lines(text)| - 1]
  }

  function Unfinished(text: string): string {
    Lines(text)[|Lines(text)| - 1]
  }

  predicate IsScriptSpace(c: char) {
    || '\t' <= c <= '\r' || c == ' ' || c == '\U{a0}' || c == '\U{1680}'
    || '\U{2000}' <= c <= '\U{200a}'
    || c == '\U{2028}' || c == '\U{2029}' || c == '\U{202f}' || c == '\U{205f}' || c == '\U{3000}' || c == '\U{feff}'
  }

  predicate IsBlank(line: string) {
    forall i | 0 <= i < |line| :: IsScriptSpace(line[i])
  }

  function LineEvent(line: string): Option<Event> {
    var v := Read(line);
    if IsBlank(line) || v.None? then None else Normalize(v.value)
  }

  function LineEvents(lines: seq<string>): seq<Event> {
    if lines == [] then []
    else
      var e := LineEvent(lines[0]);
      (if e.Some? then [e.value] else []) + LineEvents(lines[1..])
  }

  /** The events of a whole text read at once. */
  function WholeEvents(text: string): seq<Event> {
    LineEvents(Lines(text))
  }

  function Flatten(pieces: seq<string>): string {
    if pieces == [] then "" else pieces[0] + Flatten(pieces[1..])
  }

  // ---------- the parser ----------

  class NdjsonEventParser {
    var buffer: string

    constructor ()
      ensures buffer == ""
    {
      buffer := "";
    }

    method ParseLine(line: string) returns (event: Option<Event>)
      ensures event == LineEvent(line)
    {
      if IsBlank(line) {
        return None;
      }
      var v := Read(line);
      if v.None? {
        return None;
      }
      return Normalize(v.value);
    }

    method ParseLines(lines: seq<string>) returns (events: seq<Event>)
      ensures events == LineEvents(lines)
    {
      hide LineEvent;
      events := [];
      for i := 0 to |lines|
        invariant events + LineEvents(lines[i..]) == LineEvents(lines)
      {
        Seqs.DropStep(lines, i);
        var event := ParseLine(lines[i]);
        if event.Some? {
          Seqs.Assoc(events, [event.value], LineEvents(lines[i + 1..]));
          events := events + [event.value];
        }
      }
    }

    /** The events of the lines completed by this piece; the unfinished line is kept. */
    method Feed(text: string) returns (events: seq<Event>)
      modifies this
      ensures events == LineEvents(Completed(old(buffer) + text))
      ensures buffer == Unfinished(old(buffer) + text)
    {
      buffer := buffer + text;
      var lines := Lines(buffer);
      buffer := lines[|lines| - 1];
      events := ParseLines(lines[..|lines| - 1]);
    }

    method Finish(text: string) returns (events: seq<Event>)
      modifies this
      ensures events == LineEvents([old(buffer) + text]) && buffer == ""
    {
      buffer := buffer + text;
      var finalLine := buffer;
      buffer := "";
      events := ParseLines([finalLine]);
    }
  }

  // ---------- source deduplication ----------

  predicate NoRepeats(sources: seq<Json>) {
    forall i, j | 0 <= i < j < |sources| :: !Repeats(sources[i], sources[j])
  }

  lemma {:induction false} KeptSourcesAreSources(sources: seq<Json>)
    ensures forall k :: k in FirstOfEach(sources) ==> k in sources
  {
    if sources != [] {
      KeptSourcesAreSources(sources[..|sources| - 1]);
    }
  }

  /** No kept source repeats another. */
  lemma {:induction false} KeptSourcesDiffer(sources: seq<Json>)
    ensures NoRepeats(FirstOfEach(sources))
  {
    if sources != [] {
      var before, last := sources[..|sources| - 1], sources[|sources| - 1];
      var kept := FirstOfEach(before);
      KeptSourcesDiffer(before);
      KeptSourcesAreSources(before);
      assert forall i | 0 <= i < |kept| :: kept[i] in before;
    }
  }

  /** Every source is kept or repeats a kept one. */
  lemma {:induction false} EverySourceIsRepresented(sources: seq<Json>, s: Json)
    requires s in sources
    ensures exists k :: k in FirstOfEach(sources) && (k == s || Repeats(k, s))
  {
    var before, last := sources[..|sources| - 1], sources[|sources| - 1];
    if s in before {
      EverySourceIsRepresented(before, s);
      var k :| k in FirstOfEach(before) && (k == s || Repeats(k, s));
      assert k in FirstOfEach(sources);
    } else if exists e :: e in before && Repeats(e, s) {
      var e :| e in before && Repeats(e, s);
      EverySourceIsRepresented(before, e);
      var k :| k in FirstOfEach(before) && (k == e || Repeats(k, e));
      assert k in FirstOfEach(sources) && Repeats(k, s);
    } else {
      assert s in FirstOfEach(sources);
    }
  }

  /** Sources that do not repeat stay as they are, so deduplicating again changes nothing. */
  lemma {:induction false} DistinctSourcesStay(sources: seq<Json>)
    requires NoRepeats(sources)
    ensures FirstOfEach(sources) == sources
  {
    if sources != [] {
      var n := |sources| - 1;
      DistinctSourcesStay(sources[..n]);
      assert sources == sources[..n] + [sources[n]];
    }
  }

  // ---------- however the text is cut ----------

  predicate OneLine(s: string) {
    '\n' !in s
  }

  lemma {:induction false} LinesOfOneLine(line: string)
    requires OneLine(line)
    ensures Lines(line) == [line]
  {
    if line != "" {
      var start, c := line[..|line| - 1], line[|line| - 1];
      LinesOfOneLine(start);
      LastCharacter(line);
      Seqs.FrontLast(start, c);
      Seqs.Units([line]);
    }
  }

  lemma {:induction false} UnfinishedIsOneLine(text: string)
    ensures OneLine(Unfinished(text))
  {
    if text != "" {
      UnfinishedIsOneLine(text[..|text| - 1]);
    }
  }

  lemma {:induction false} ExtendAfter(before: seq<string>, lines: seq<string>, c: char)
    requires lines != []
    ensures Extend(before + lines, c) == before + Extend(lines, c)
  {
    var all := before + lines;
    assert all[..|all| - 1] == before + lines[..|lines| - 1];
    assert all[|all| - 1] == lines[|lines| - 1];
  }

  lemma {:induction false} LinesOfMore(text: string, c: char)
    ensures Lines(text + [c]) == Extend(Lines(text), c)
  {
    Seqs.FrontLast(text, c);
  }

  lemma {:induction false} LastCharacter(b: string)
    requires b != ""
    ensures b == b[..|b| - 1] + [b[|b| - 1]]
  {
  }

  /** Adding text changes only the unfinished line. */
  lemma {:induction false} LinesOfConcat(a: string, b: string)
    ensures Lines(a + b) == Completed(a) + Lines(Unfinished(a) + b)
  {
    hide Extend;
    var open := Unfinished(a);
    if b == "" {
      UnfinishedIsOneLine(a);
      LinesOfOneLine(open);
      Seqs.Units(a);
      Seqs.Units(open);
    } else {
      var start, c := b[..|b| - 1], b[|b| - 1];
      LastCharacter(b);
      LinesOfConcat(a, start);
      Seqs.Assoc(a, start, [c]);
      LinesOfMore(a + start, c);
      Seqs.Assoc(open, start, [c]);
      LinesOfMore(open + start, c);
      ExtendAfter(Completed(a), Lines(open + start), c);
    }
  }

  lemma {:induction false} LineEventsOfConcat(a: seq<string>, b: seq<string>)
    ensures LineEvents(a + b) == LineEvents(a) + LineEvents(b)
  {
    hide LineEvent;
    if a == [] {
      Seqs.Units(b);
      Seqs.Units(LineEvents(b));
    } else {
      var first := if LineEvent(a[0]).Some? then [LineEvent(a[0]).value] else [];
      LineEventsOfConcat(a[1..], b);
      Seqs.Uncons(a, b);
      Seqs.Assoc(first, LineEvents(a[1..]), LineEvents(b));
    }
  }

  /** A line break separates: what stands before it and after it is read independently. */
  lemma {:induction false} BreakSeparates(a: string, b: string)
    ensures Lines(a + "\n" + b) == Lines(a) + Lines(b)
    ensures WholeEvents(a + "\n" + b) == WholeEvents(a) + WholeEvents(b)
  {
    var start := a + "\n";
    assert start[..|start| - 1] == a;
    assert Lines(start) == Lines(a) + [""];
    LinesOfConcat(start, b);
    assert "" + b == b;
    LineEventsOfConcat(Lines(a), Lines(b));
  }

  /** A line that is no event loses only itself. */
  lemma {:induction false} BadLineLosesOnlyItself(a: string, bad: string, b: string)
    requires OneLine(bad) && LineEvent(bad).None?
    ensures WholeEvents(a + "\n" + bad + "\n" + b) == WholeEvents(a) + WholeEvents(b)
  {
    hide LineEvent;
    BreakSeparates(a + "\n" + bad, b);
    BreakSeparates(a, bad);
    LinesOfOneLine(bad);
    assert LineEvents([bad]) == [] by { Seqs.HeadTail(bad, []); }
    Seqs.Units(WholeEvents(a));
  }

  /** Skipping blank lines loses nothing: none of them is a JSON value. */
  lemma {:induction false} BlankLinesCarryNothing(line: string)
    requires IsBlank(line)
    ensures Read(line).None?
  {
    SkippedIsBlank(line);
  }

  lemma {:induction false} SkippedIsBlank(line: string)
    requires IsBlank(line)
    ensures IsBlank(SkipSpace(line))
  {
    if line != "" && IsJsonSpace(line[0]) {
      SkippedIsBlank(line[1..]);
    }
  }

  /** One feed accounts for exactly the lines that it completes. */
  lemma {:induction false} FeedCompletes(seen: string, text: string)
    ensures Unfinished(seen + text) == Unfinished(Unfinished(seen) + text)
    ensures LineEvents(Completed(seen + text)) == LineEvents(Completed(seen)) + LineEvents(Completed(Unfinished(seen) + text))
  {
    LinesOfConcat(seen, text);
    assert Completed(seen + text) == Completed(seen) + Completed(Unfinished(seen) + text);
    LineEventsOfConcat(Completed(seen), Completed(Unfinished(seen) + text));
  }

  /** The last call accounts for the unfinished line. */
  lemma {:induction false} FinishCompletes(seen: string, tail: string)
    requires OneLine(tail)
    ensures WholeEvents(seen + tail) == LineEvents(Completed(seen)) + LineEvents([Unfinished(seen) + tail])
  {
    UnfinishedIsOneLine(seen);
    LinesOfOneLine(Unfinished(seen) + tail);
    LinesOfConcat(seen, tail);
    LineEventsOfConcat(Completed(seen), [Unfinished(seen) + tail]);
  }

  /** The reader's loop: however the text is cut, the events are those of the whole text.
      The tail is what the decoder flushes at the end, which is never a line break. */
  method ReadStream(pieces: seq<string>, tail: string) returns (events: seq<Event>)
    requires OneLine(tail)
    ensures events == WholeEvents(Flatten(pieces) + tail)
  {
    var parser := new NdjsonEventParser();
    events := [];
    ghost var seen := "";
    for i := 0 to |pieces|
      invariant seen + Flatten(pieces[i..]) == Flatten(pieces)
      invariant events == LineEvents(Completed(seen))
      invariant parser.buffer == Unfinished(seen)
    {
      var fed := parser.Feed(pieces[i]);
      events := events + fed;
      FeedCompletes(seen, pieces[i]);
      FlattenStep(seen, pieces, i);
      seen := seen + pieces[i];
    }
    assert Flatten(pieces[|pieces|..]) == "" && seen == Flatten(pieces);
    var rest := parser.Finish(tail);
    events := events + rest;
    FinishCompletes(seen, tail);
  }

  lemma {:induction false} FlattenStep(seen: string, pieces: seq<string>, i: nat)
    requires i < |pieces|
    ensures seen + Flatten(pieces[i..]) == (seen + pieces[i]) + Flatten(pieces[i + 1..])
  {
    assert pieces[i..][1..] == pieces[i + 1..];
  }
}
