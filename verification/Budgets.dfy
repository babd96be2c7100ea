/** What reaches the prompt: deduplicated chunks, truncated texts, and the budgets of the
    context and of the conversation history. */
module Budgets {
  import opened Wrappers
  import opened Text
  import Seqs = Sequences

  function Max(a: int, b: int): int {
    if a < b then b else a
  }

  // ---------- deduplication ----------

  /** A retrieved chunk; the identity is its id, or a digest of its content. */
  datatype Chunk = Chunk(identity: string, header: string, text: string)

  function Identities(chunks: seq<Chunk>): set<string> {
    set c | c in chunks :: c.identity
  }

  /** The chunks whose identity is new, in order. */
  function Distinct(chunks: seq<Chunk>): seq<Chunk> {
    if chunks == [] then []
    else
      var before, last := chunks[..|chunks| - 1], chunks[|chunks| - 1];
      Distinct(before) + if last.identity in Identities(before) then [] else [last]
  }

  function Take(chunks: seq<Chunk>, n: int): seq<Chunk> {
    if n < 0 then [] else if n < |chunks| then chunks[..n] else chunks
  }

  /** At most so many distinct chunks, but always one if there is any. */
  function Deduplicated(chunks: seq<Chunk>, maxChunks: int): seq<Chunk> {
    Take(Distinct(chunks), Max(1, maxChunks))
  }

  method DeduplicateChunks(chunks: seq<Chunk>, maxChunks: int) returns (selected: seq<Chunk>)
    ensures selected == Deduplicated(chunks, maxChunks)
  {
    NothingDistinct();
    hide Distinct;
    hide Identities;
    selected := [];
    var seen: set<string> := {};
    var i, full := 0, false;
    while i < |chunks| && !full
      invariant i <= |chunks| && selected == Distinct(chunks[..i]) && seen == Identities(chunks[..i])
      invariant full <==> selected != [] && |selected| >= maxChunks
      invariant |selected| <= Max(1, maxChunks)
    {
      OneMore(chunks, i);
      if chunks[i].identity !in seen {
        seen := seen + {chunks[i].identity};
        selected := selected + [chunks[i]];
        full := |selected| >= maxChunks;
      }
      i := i + 1;
    }
    DistinctGrows(chunks, i);
    Seqs.Whole(chunks);
  }

  lemma {:induction false} NothingDistinct()
    ensures Distinct([]) == [] && Identities([]) == {}
  {
  }

  lemma {:induction false} OneMore(chunks: seq<Chunk>, i: nat)
    requires i < |chunks|
    ensures Identities(chunks[..i + 1]) == Identities(chunks[..i]) + {chunks[i].identity}
    ensures Distinct(chunks[..i + 1])
         == Distinct(chunks[..i]) + if chunks[i].identity in Identities(chunks[..i]) then [] else [chunks[i]]
  {
    assert chunks[..i + 1][..i] == chunks[..i];
    assert chunks[..i + 1] == chunks[..i] + [chunks[i]];
  }

  lemma {:induction false} DistinctGrows(chunks: seq<Chunk>, k: nat)
    requires k <= |chunks|
    ensures Distinct(chunks[..k]) <= Distinct(chunks)
    decreases |chunks| - k
  {
    if k == |chunks| {
      assert chunks[..k] == chunks;
    } else {
      DistinctGrows(chunks, k + 1);
      OneMore(chunks, k);
    }
  }

  predicate AllDistinct(chunks: seq<Chunk>) {
    forall i, j | 0 <= i < j < |chunks| :: chunks[i].identity != chunks[j].identity
  }

  lemma {:induction false} DistinctAreDistinct(chunks: seq<Chunk>)
    ensures AllDistinct(Distinct(chunks)) && forall c :: c in Distinct(chunks) ==> c in chunks
  {
    if chunks != [] {
      var before := chunks[..|chunks| - 1];
      DistinctAreDistinct(before);
      assert forall i | 0 <= i < |Distinct(before)| :: Distinct(before)[i] in before;
    }
  }

  lemma {:induction false} DistinctStay(chunks: seq<Chunk>)
    requires AllDistinct(chunks)
    ensures Distinct(chunks) == chunks
  {
    if chunks != [] {
      var n := |chunks| - 1;
      DistinctStay(chunks[..n]);
      assert chunks == chunks[..n] + [chunks[n]];
    }
  }

  /** Deduplicating twice is deduplicating once to the smaller limit. */
  lemma {:induction false} DeduplicationComposes(chunks: seq<Chunk>, a: int, b: int)
    ensures Deduplicated(Deduplicated(chunks, a), b)
         == Deduplicated(chunks, if Max(1, a) < Max(1, b) then a else b)
  {
    DistinctAreDistinct(chunks);
    DistinctStay(Deduplicated(chunks, a));
  }

  // ---------- truncation ----------

  /** The last position of a part, or -1. */
  function LastIndex(text: string, part: string): (i: int)
    ensures -1 <= i && i + |part| <= Max(|text|, |part| - 1)
  {
    if |part| > |text| then -1
    else if text[|text| - |part|..] == part then |text| - |part|
    else if text == "" then -1
    else LastIndex(text[..|text| - 1], part)
  }

  const ELLIPSIS := "\U{2026}"

  /** The last line, sentence or word boundary. */
  function Boundary(candidate: string): (i: int)
    ensures -1 <= i < |candidate|
  {
    Max(LastIndex(candidate, "\n"), Max(LastIndex(candidate, ". "), LastIndex(candidate, " ")))
  }

  /** Cuts at the last boundary, if it lies in the second half of what fits. */
  function CutAtBoundary(candidate: string): string {
    var boundary := Boundary(candidate);
    StripRight(if boundary >= |candidate| / 2 then StripRight(candidate[..boundary + 1]) else candidate)
  }

  /** `_truncate_text` */
  function Truncate(text: string, available: int): string {
    if |text| <= available then text
    else if available <= 1 then ""
    else CutAtBoundary(text[..available - 1]) + ELLIPSIS
  }

  lemma {:induction false} StripRightIsPrefix(s: string)
    ensures StripRight(s) <= s
  {
    if s != "" && IsSpace(s[|s| - 1]) {
      StripRightIsPrefix(s[..|s| - 1]);
    }
  }

  lemma {:induction false} CutIsPrefix(candidate: string)
    ensures CutAtBoundary(candidate) <= candidate
  {
    var boundary := Boundary(candidate);
    if boundary >= |candidate| / 2 {
      var cut := StripRight(candidate[..boundary + 1]);
      StripRightIsPrefix(candidate[..boundary + 1]);
      StripRightIsPrefix(cut);
    } else {
      StripRightIsPrefix(candidate);
    }
  }

  /** A truncated text fits; it is the text, nothing, or a proper beginning of it marked as cut. */
  lemma {:induction false} TruncationFits(text: string, available: int)
    ensures var t := Truncate(text, available);
            && |t| <= Max(0, available)
            && (|text| <= available ==> t == text)
            && (|text| > available && available <= 1 ==> t == "")
            && (|text| > available > 1 ==> t != "" && t[|t| - 1] == ELLIPSIS[0] && t[..|t| - 1] < text)
  {
    if |text| > available > 1 {
      var candidate := text[..available - 1];
      CutIsPrefix(candidate);
      assert Truncate(text, available)[..|CutAtBoundary(candidate)|] == CutAtBoundary(candidate);
    }
  }

  // ---------- the context ----------

  const SEPARATOR := "\n\n---\n\n"

  /** The block of a chunk, if it fits after what is used. */
  function NextBlock(c: Chunk, available: int): Option<string> {
    var text := Truncate(c.text, available);
    if available <= 0 || (text == "" && c.text != "") then None else Some(c.header + text)
  }

  lemma {:induction false} NextBlockFits(c: Chunk, available: int)
    ensures NextBlock(c, available).Some? ==> |NextBlock(c, available).value| <= |c.header| + available
  {
    TruncationFits(c.text, available);
  }

  function Cost(first: bool): nat {
    if first then 0 else |SEPARATOR|
  }

  /** The blocks that still fit; the walk stops at the first that does not. */
  function Blocks(chunks: seq<Chunk>, budget: int, used: int, first: bool): seq<string>
    decreases |chunks|
  {
    if chunks == [] then []
    else
      var block := NextBlock(chunks[0], budget - used - Cost(first) - |chunks[0].header|);
      if block.None? then []
      else [block.value] + Blocks(chunks[1..], budget, used + Cost(first) + |block.value|, false)
  }

  function Context(chunks: seq<Chunk>, maxChunks: int, budget: int): string {
    Join(SEPARATOR, Blocks(Deduplicated(chunks, maxChunks), budget, 0, true))
  }

  lemma {:induction false} BlocksAt(done: seq<string>, chunks: seq<Chunk>, i: nat, budget: int, used: int, first: bool)
    requires i < |chunks|
    ensures var block := NextBlock(chunks[i], budget - used - Cost(first) - |chunks[i].header|);
            done + Blocks(chunks[i..], budget, used, first) ==
            if block.None? then done
            else (done + [block.value]) + Blocks(chunks[i + 1..], budget, used + Cost(first) + |block.value|, false)
  {
    hide Truncate;
    assert chunks[i..][0] == chunks[i] && chunks[i..][1..] == chunks[i + 1..];
  }

  /** Truncates the text of one chunk to what is left. */
  method TryBlock(c: Chunk, available: int) returns (block: Option<string>)
    ensures block == NextBlock(c, available)
  {
    if available <= 0 {
      return None;
    }
    var text := Truncate(c.text, available);
    if text == "" && c.text != "" {
      return None;
    }
    return Some(c.header + text);
  }

  method BuildContext(chunks: seq<Chunk>, maxChunks: int, budget: int) returns (context: string)
    ensures context == Context(chunks, maxChunks, budget)
  {
    hide Truncate;
    hide Join;
    hide Deduplicated;
    hide NextBlock;
    var blocks: seq<string> := [];
    var used, i, stopped := 0, 0, false;
    var selected := DeduplicateChunks(chunks, maxChunks);
    ghost var all := Blocks(selected, budget, 0, true);
    assert selected[0..] == selected;
    var first := true;
    while i < |selected| && !stopped
      invariant i <= |selected|
      invariant stopped ==> blocks == all
      invariant !stopped ==> blocks + Blocks(selected[i..], budget, used, first) == all
      decreases |selected| - i, !stopped
    {
      var cost := Cost(first);
      var block := TryBlock(selected[i], budget - used - cost - |selected[i].header|);
      BlocksAt(blocks, selected, i, budget, used, first);
      if block.None? {
        stopped := true;
      } else {
        blocks := blocks + [block.value];
        used := used + cost + |block.value|;
        first := false;
        i := i + 1;
      }
    }
    assert blocks == all;
    context := Join(SEPARATOR, blocks);
  }

  lemma {:induction false} BlocksFit(chunks: seq<Chunk>, budget: int, used: int, first: bool)
    ensures var blocks := Blocks(chunks, budget, used, first);
            blocks != [] ==> used + Cost(first) + |Join(SEPARATOR, blocks)| <= budget
    decreases |chunks|
  {
    hide Truncate;
    if chunks != [] {
      var available := budget - used - Cost(first) - |chunks[0].header|;
      var block := NextBlock(chunks[0], available);
      NextBlockFits(chunks[0], available);
      if block.Some? {
        var rest := Blocks(chunks[1..], budget, used + Cost(first) + |block.value|, false);
        BlocksFit(chunks[1..], budget, used + Cost(first) + |block.value|, false);
        assert ([block.value] + rest)[1..] == rest;
      }
    }
  }

  /** The context never exceeds its budget, separators included, whatever the chunks. */
  lemma {:induction false} ContextFits(chunks: seq<Chunk>, maxChunks: int, budget: int)
    ensures |Context(chunks, maxChunks, budget)| <= Max(0, budget)
  {
    BlocksFit(Deduplicated(chunks, maxChunks), budget, 0, true);
  }

  // ---------- the history in the prompt ----------

  datatype Message = Message(role: string, content: string)

  function LineOf(m: Message): string {
    (if m.role == "user" then "Utilisateur" else "Assistant") + ": " + Strip(m.content)
  }

  /** A line as it still fits; nothing once the budget is used up. */
  function NextLine(line: string, remaining: int): Option<string> {
    if |line| <= remaining then Some(line)
    else if remaining <= 0 then None
    else Some(Truncate(line, remaining))
  }

  lemma {:induction false} NextLineFits(line: string, remaining: int)
    ensures NextLine(line, remaining).Some? ==> |NextLine(line, remaining).value| <= remaining
  {
    TruncationFits(line, remaining);
  }

  /** The lines of the messages that are not blank. */
  function Lines(history: seq<Message>): seq<string> {
    if history == [] then []
    else (if Strip(history[0].content) == "" then [] else [LineOf(history[0])]) + Lines(history[1..])
  }

  /** The lines as they fit, one after the other; line breaks are not counted. */
  function Fitted(lines: seq<string>, room: int): seq<string> {
    if lines == [] then []
    else
      var line := NextLine(lines[0], room);
      if line.None? then [] else [line.value] + Fitted(lines[1..], room - |line.value|)
  }

  function HistoryContext(history: seq<Message>, maxChars: int): string {
    Join("\n", Fitted(Lines(history), maxChars))
  }

  lemma {:induction false} FittedAt(done: seq<string>, history: seq<Message>, i: nat, room: int)
    requires i < |history|
    ensures var line := NextLine(LineOf(history[i]), room);
            done + Fitted(Lines(history[i..]), room) ==
            if Strip(history[i].content) == "" then done + Fitted(Lines(history[i + 1..]), room)
            else if line.None? then done
            else (done + [line.value]) + Fitted(Lines(history[i + 1..]), room - |line.value|)
  {
    hide NextLine;
    hide LineOf;
    hide Strip;
    Seqs.DropStep(history, i);
    Seqs.Units(done);
    Seqs.Units(Lines(history[i + 1..]));
    Seqs.HeadTail(LineOf(history[i]), Lines(history[i + 1..]));
  }

  method FitLine(m: Message, maxChars: int, used: int) returns (line: Option<string>)
    ensures line == NextLine(LineOf(m), maxChars - used)
  {
    var text := LineOf(m);
    if used + |text| > maxChars {
      var remaining := maxChars - used;
      if remaining <= 0 {
        return None;
      }
      text := Truncate(text, remaining);
    }
    return Some(text);
  }

  method BuildHistoryContext(history: seq<Message>, maxChars: int) returns (context: string)
    ensures context == HistoryContext(history, maxChars)
  {
    hide NextLine;
    hide LineOf;
    hide Strip;
    hide Join;
    hide Fitted;
    var lines: seq<string> := [];
    var used, i, stopped := 0, 0, false;
    ghost var all := Fitted(Lines(history), maxChars);
    Seqs.Whole(history);
    Seqs.Units(all);
    while i < |history| && !stopped
      invariant i <= |history|
      invariant stopped ==> lines == all
      invariant !stopped ==> lines + Fitted(Lines(history[i..]), maxChars - used) == all
    {
      FittedAt(lines, history, i, maxChars - used);
      if Strip(history[i].content) != "" {
        var line := FitLine(history[i], maxChars, used);
        if line.None? {
          stopped := true;
        } else {
          lines := lines + [line.value];
          used := used + |line.value|;
        }
      }
      i := i + 1;
    }
    NothingFitted(maxChars - used);
    Seqs.Units(lines);
    context := Join("\n", lines);
  }

  lemma {:induction false} NothingFitted(room: int)
    ensures Lines([]) == [] && Fitted([], room) == []
  {
  }

  function TotalLength(lines: seq<string>): nat {
    if lines == [] then 0 else |lines[0]| + TotalLength(lines[1..])
  }

  lemma {:induction false} JoinedLength(separator: string, lines: seq<string>)
    ensures lines != [] ==> |Join(separator, lines)| == TotalLength(lines) + |separator| * (|lines| - 1)
  {
    if |lines| > 1 {
      JoinedLength(separator, lines[1..]);
      assert |separator| * (|lines| - 1) == |separator| + |separator| * (|lines| - 2);
    }
  }

  lemma {:induction false} TotalOfConcat(a: seq<string>, b: seq<string>)
    ensures TotalLength(a + b) == TotalLength(a) + TotalLength(b)
  {
    if a == [] {
      Seqs.Units(b);
    } else {
      TotalOfConcat(a[1..], b);
      Seqs.Uncons(a, b);
    }
  }

  lemma {:induction false} FittedFits(lines: seq<string>, room: int)
    ensures TotalLength(Fitted(lines, room)) <= Max(0, room) && |Fitted(lines, room)| <= |lines|
    decreases |lines|
  {
    hide Truncate;
    if lines != [] {
      var line := NextLine(lines[0], room);
      NextLineFits(lines[0], room);
      if line.Some? {
        FittedFits(lines[1..], room - |line.value|);
        Seqs.HeadTail(line.value, Fitted(lines[1..], room - |line.value|));
      }
    }
  }

  /** Lines that fit together are kept whole. */
  lemma {:induction false} WholeLines(lines: seq<string>, room: int)
    requires TotalLength(lines) <= room
    ensures Fitted(lines, room) == lines
    decreases |lines|
  {
    hide Truncate;
    if lines != [] {
      WholeLines(lines[1..], room - |lines[0]|);
    }
  }

  /** How many of the lines fit whole before the first that does not. */
  function WholeCount(lines: seq<string>, room: int): (n: nat)
    ensures n <= |lines|
  {
    if lines == [] || |lines[0]| > room then 0 else 1 + WholeCount(lines[1..], room - |lines[0]|)
  }

  lemma {:induction false} OneMoreWhole(lines: seq<string>, n: nat)
    requires n < |lines| - 1
    ensures var rest := lines[1..];
            && lines[..n + 1] == [lines[0]] + rest[..n] && lines[n + 1] == rest[n] && lines[n + 2..] == rest[n + 1..]
            && TotalLength(lines[..n + 1]) == |lines[0]| + TotalLength(rest[..n])
  {
    Seqs.HeadTail(lines[0], lines[1..][..n]);
  }

  /** What becomes of the first line that does not fit whole, and of the lines after it. */
  function FromCut(lines: seq<string>, left: int): seq<string>
    requires lines != []
  {
    if left == 0 then [] else [Truncate(lines[0], left)] + Fitted(lines[1..], left - |Truncate(lines[0], left)|)
  }

  lemma {:induction false} FirstCut(lines: seq<string>, room: int)
    requires room >= 0 && TotalLength(lines) > room
    ensures var n := WholeCount(lines, room);
            var left := room - TotalLength(lines[..n]);
            n < |lines| && 0 <= left < |lines[n]| && Fitted(lines, room) == lines[..n] + FromCut(lines[n..], left)
    decreases |lines|
  {
    hide Truncate;
    hide FromCut;
    if |lines[0]| <= room {
      var rest, left := lines[1..], room - |lines[0]|;
      FirstCut(rest, left);
      var n := WholeCount(rest, left);
      OneMoreWhole(lines, n);
      assert lines[n + 1..] == rest[n..];
      assert Fitted(lines, room) == [lines[0]] + Fitted(rest, left);
      Seqs.Assoc([lines[0]], rest[..n], FromCut(rest[n..], left - TotalLength(rest[..n])));
    } else {
      CutAtOnce(lines, room);
    }
  }

  lemma {:induction false} CutAtOnce(lines: seq<string>, room: int)
    requires lines != [] && 0 <= room < |lines[0]|
    ensures Fitted(lines, room) == lines[..0] + FromCut(lines[0..], room) && TotalLength(lines[..0]) == 0
  {
    hide Truncate;
    Seqs.Whole(lines);
    Seqs.TakeNone(lines);
    Seqs.Units(FromCut(lines, room));
  }

  predicate Longer(lines: seq<string>) {
    forall i | 0 <= i < |lines| :: |lines[i]| > 1
  }

  lemma {:induction false} LinesAreLonger(history: seq<Message>)
    ensures Longer(Lines(history))
  {
    if history != [] {
      LinesAreLonger(history[1..]);
      assert |LineOf(history[0])| > 1;
    }
  }

  function Empties(n: nat): seq<string> {
    seq(n, _ => "")
  }

  lemma {:induction false} EmptiesHaveNoLength(n: nat)
    ensures TotalLength(Empties(n)) == 0
    decreases n
  {
    if n > 0 {
      EmptiesHaveNoLength(n - 1);
      assert Empties(n)[1..] == Empties(n - 1);
    }
  }

  /** With one character left every later line is cut to nothing, and none uses the character up. */
  lemma {:induction false} OneLeft(lines: seq<string>)
    requires Longer(lines)
    ensures Fitted(lines, 1) == Empties(|lines|)
    decreases |lines|
  {
    if lines != [] {
      OneLeft(lines[1..]);
      assert Truncate(lines[0], 1) == "";
      assert Empties(|lines|) == [""] + Empties(|lines| - 1);
    }
  }

  /** Whether the line breaks fit as well, after `breaks` lines and with room for so many more
      characters: decided where all lines fit, where nothing is left and where one character is
      left, and otherwise after the line that is cut. */
  predicate BreaksFit(lines: seq<string>, room: nat, breaks: nat)
    decreases |lines|
  {
    if TotalLength(lines) <= room then TotalLength(lines) + breaks + |lines| - 1 <= room
    else
      FirstCut(lines, room);
      var n := WholeCount(lines, room);
      var left := room - TotalLength(lines[..n]);
      if left == 0 then breaks + n <= 1
      else if left == 1 then breaks + |lines| <= 2
      else
        TruncationFits(lines[n], left);
        BreaksFit(lines[n + 1..], left - |Truncate(lines[n], left)|, breaks + n + 1)
  }

  lemma {:induction false} LaterAreLonger(lines: seq<string>, n: nat)
    requires Longer(lines) && n <= |lines|
    ensures Longer(lines[n..])
  {
  }

  /** How many lines come of the first that does not fit and those after it, and how long they are. */
  lemma {:induction false} CutLines(lines: seq<string>, left: nat)
    requires Longer(lines) && lines != [] && left < |lines[0]|
    ensures left == 0 ==> |FromCut(lines, left)| == 0 == TotalLength(FromCut(lines, left))
    ensures left == 1 ==> |FromCut(lines, left)| == |lines| && TotalLength(FromCut(lines, left)) == 0
    ensures left > 1 ==>
              var cut := Truncate(lines[0], left);
              var rest := Fitted(lines[1..], left - |cut|);
              |FromCut(lines, left)| == 1 + |rest| && TotalLength(FromCut(lines, left)) == |cut| + TotalLength(rest)
  {
    hide Truncate;
    hide Fitted;
    var cut := Truncate(lines[0], left);
    Seqs.HeadTail(cut, Fitted(lines[1..], left - |cut|));
    if left == 1 {
      TruncationFits(lines[0], left);
      LaterAreLonger(lines, 1);
      OneLeft(lines[1..]);
      EmptiesHaveNoLength(|lines| - 1);
    }
  }

  lemma {:induction false} FittedCounts(lines: seq<string>, room: nat)
    requires Longer(lines) && TotalLength(lines) > room
    ensures WholeCount(lines, room) < |lines| && TotalLength(lines[..WholeCount(lines, room)]) <= room
    ensures var fitted, n := Fitted(lines, room), WholeCount(lines, room);
            var left := room - TotalLength(lines[..n]);
            var cut := Truncate(lines[n], left);
            && (left == 0 ==> |fitted| == n && TotalLength(fitted) == room)
            && (left == 1 ==> |fitted| == |lines| && TotalLength(fitted) == room - 1)
            && (left > 1 ==>
                  var rest := Fitted(lines[n + 1..], left - |cut|);
                  |cut| <= left && |fitted| == n + 1 + |rest| && TotalLength(fitted) == room - left + |cut| + TotalLength(rest))
  {
    hide Truncate;
    hide Fitted;
    hide Longer;
    hide FromCut;
    FirstCut(lines, room);
    var n := WholeCount(lines, room);
    var left := room - TotalLength(lines[..n]);
    LaterAreLonger(lines, n);
    TotalOfConcat(lines[..n], FromCut(lines[n..], left));
    CutLines(lines[n..], left);
    assert lines[n..][0] == lines[n] && lines[n..][1..] == lines[n + 1..];
    TruncationFits(lines[n], left);
  }

  lemma {:induction false} BreaksFitIff(lines: seq<string>, room: nat, breaks: nat)
    requires Longer(lines)
    ensures BreaksFit(lines, room, breaks) <==> TotalLength(Fitted(lines, room)) + breaks + |Fitted(lines, room)| - 1 <= room
    decreases |lines|
  {
    hide Truncate;
    hide Fitted;
    hide Longer;
    hide TotalLength;
    hide WholeCount;
    if TotalLength(lines) <= room {
      WholeLines(lines, room);
    } else {
      FittedCounts(lines, room);
      var n := WholeCount(lines, room);
      var left := room - TotalLength(lines[..n]);
      LaterAreLonger(lines, n + 1);
      if left > 1 {
        BreaksFitIff(lines[n + 1..], left - |Truncate(lines[n], left)|, breaks + n + 1);
      }
    }
  }

  /** The context fits its budget exactly when the line breaks, which are not counted, fit as
      well.  In particular: when the lines fit whole, if all breaks fit beside them; when some
      whole lines fill the budget, if there is at most one of them; when one character is left
      after them, if there are at most two lines in all. */
  lemma {:induction false} HistoryContextFitsIff(history: seq<Message>, maxChars: nat)
    ensures var lines, length := Lines(history), |HistoryContext(history, maxChars)|;
            var n := WholeCount(lines, maxChars);
            var left := maxChars - TotalLength(lines[..n]);
            && (lines == [] ==> length == 0)
            && (lines != [] ==> (length <= maxChars <==> BreaksFit(lines, maxChars, 0)))
            && (lines != [] && n == |lines| ==> length == TotalLength(lines) + |lines| - 1)
            && (n < |lines| && left == 0 ==> length == if n == 0 then 0 else maxChars + n - 1)
            && (n < |lines| && left == 1 ==> length == maxChars + |lines| - 2)
            && (lines != [] ==> length <= maxChars + |lines| - 1)
  {
    hide Truncate;
    hide Lines;
    hide Fitted;
    var lines := Lines(history);
    var fitted := Fitted(lines, maxChars);
    LinesAreLonger(history);
    FittedFits(lines, maxChars);
    JoinedLength("\n", fitted);
    if lines == [] {
      WholeLines(lines, maxChars);
    } else {
      BreaksFitIff(lines, maxChars, 0);
      HistoryCases(lines, maxChars);
    }
  }

  lemma {:induction false} CountedWhole(lines: seq<string>, room: int)
    ensures WholeCount(lines, room) == |lines| && room >= 0 <==> TotalLength(lines) <= room
    decreases |lines|
  {
    if lines != [] {
      CountedWhole(lines[1..], room - |lines[0]|);
    }
  }

  lemma {:induction false} HistoryCases(lines: seq<string>, maxChars: nat)
    requires Longer(lines)
    ensures var fitted, n := Fitted(lines, maxChars), WholeCount(lines, maxChars);
            var left := maxChars - TotalLength(lines[..n]);
            && (n == |lines| ==> fitted == lines)
            && (n < |lines| && left == 0 ==> |fitted| == n && TotalLength(fitted) == maxChars)
            && (n < |lines| && left == 1 ==> |fitted| == |lines| && TotalLength(fitted) == maxChars - 1)
            && (lines != [] && fitted == [] ==> maxChars == 0)
  {
    hide Truncate;
    hide Fitted;
    hide Longer;
    CountedWhole(lines, maxChars);
    if TotalLength(lines) <= maxChars {
      WholeLines(lines, maxChars);
    } else {
      FittedCounts(lines, maxChars);
    }
  }

  /** Two messages whose lines fill the budget exactly overrun it by the break between them. */
  lemma {:induction false} FullHistoryOverruns(a: Message, b: Message)
    requires Strip(a.content) != "" && Strip(b.content) != ""
    ensures var maxChars := |LineOf(a)| + |LineOf(b)|;
            |HistoryContext([a, b], maxChars)| == maxChars + 1
  {
    TwoLines(a, b);
    var lines := Lines([a, b]);
    CountedWhole(lines, TotalLength(lines));
    HistoryContextFitsIff([a, b], TotalLength(lines));
  }

  lemma {:induction false} TwoLines(a: Message, b: Message)
    requires Strip(a.content) != "" && Strip(b.content) != ""
    ensures Lines([a, b]) == [LineOf(a), LineOf(b)]
    ensures TotalLength(Lines([a, b])) == |LineOf(a)| + |LineOf(b)|
  {
    hide LineOf;
    hide Strip;
    assert [a, b][1..] == [b] && [b][1..] == [];
    assert Lines([b]) == [LineOf(b)] + [];
    assert Lines([a, b]) == [LineOf(a)] + [LineOf(b)];
    TotalOfConcat([LineOf(a)], [LineOf(b)]);
    assert [LineOf(a)][1..] == [] && [LineOf(b)][1..] == [];
  }

  /** And the overrun has no bound: after a message that leaves one character, every further
      message that is not blank adds a line break. */
  lemma {:induction false} OverrunGrows(first: Message, later: seq<Message>)
    requires Strip(first.content) != "" && later != [] && forall m | m in later :: Strip(m.content) != ""
    ensures var maxChars := |LineOf(first)| + 1;
            |HistoryContext([first] + later, maxChars)| == maxChars + |later| - 1
  {
    hide Strip;
    hide LineOf;
    var maxChars, history := |LineOf(first)| + 1, [first] + later;
    Seqs.HeadTail(first, later);
    NoneBlank(later);
    LinesAreLonger(history);
    var lines := Lines(history);
    assert lines == [LineOf(first)] + Lines(later);
    assert lines[1..] == Lines(later) && lines[1] == Lines(later)[0];
    assert WholeCount(lines, maxChars) == 1 + WholeCount(Lines(later), 1) == 1;
    assert lines[..1] == [LineOf(first)] && [LineOf(first)][1..] == [];
    assert TotalLength(lines[..1]) == |LineOf(first)|;
    HistoryContextFitsIff(history, maxChars);
  }

  lemma {:induction false} NoneBlank(history: seq<Message>)
    requires forall m | m in history :: Strip(m.content) != ""
    ensures |Lines(history)| == |history|
  {
    if history != [] {
      NoneBlank(history[1..]);
    }
  }

  // ---------- the stored history ----------

  /** `content[-n:]`: the last n characters, but all of them for n = 0, and the text without
      its first -n characters for a negative n. */
  function Tail(content: string, n: int): string {
    if n > 0 then content[Max(0, |content| - n)..]
    else if -n <= |content| then content[-n..]
    else ""
  }

  /** What is kept of the newest message. */
  function Newer(m: Message, maxChars: int): Message {
    if |m.content| > maxChars then m.(content := Tail(m.content, maxChars)) else m
  }

  /** The messages kept, read from the newest back. */
  function Kept(rows: seq<Message>, maxChars: int, used: int, none: bool): seq<Message>
    decreases |rows|
  {
    if rows == [] then []
    else
      var row, before := rows[|rows| - 1], rows[..|rows| - 1];
      if !none && used + |row.content| > maxChars then []
      else
        var kept := Newer(row, maxChars);
        Kept(before, maxChars, used + |kept.content|, false) + [kept]
  }

  /** The newest rows that the query returns. */
  function Newest(rows: seq<Message>, maxTurns: int): seq<Message> {
    var limit := 2 * Max(0, maxTurns);
    rows[Max(0, |rows| - limit)..]
  }

  method BoundedHistory(messages: seq<Message>, maxTurns: int, maxChars: int) returns (bounded: seq<Message>)
    ensures bounded == Kept(Newest(messages, maxTurns), maxChars, 0, true)
  {
    hide Newer;
    hide Newest;
    var rows := Newest(messages, maxTurns);
    bounded := [];
    var used, i, stopped, none := 0, |rows|, false, true;
    ghost var all := Kept(rows, maxChars, 0, true);
    Seqs.Whole(rows);
    Seqs.Units(all);
    while i > 0 && !stopped
      invariant 0 <= i <= |rows|
      invariant stopped ==> bounded == all
      invariant !stopped ==> Kept(rows[..i], maxChars, used, none) + bounded == all
      decreases i, !stopped
    {
      var row := rows[i - 1];
      KeptAt(rows, i, maxChars, used, none, bounded);
      if !none && used + |row.content| > maxChars {
        stopped := true;
      } else {
        row := Newer(row, maxChars);
        bounded := [row] + bounded;
        used := used + |row.content|;
        none := false;
        i := i - 1;
      }
    }
    Seqs.Units(bounded);
  }

  lemma {:induction false} KeptAt(rows: seq<Message>, i: nat, maxChars: int, used: int, none: bool, newer: seq<Message>)
    requires 0 < i <= |rows|
    ensures Kept(rows[..i], maxChars, used, none) + newer ==
            if !none && used + |rows[i - 1].content| > maxChars then newer
            else
              var kept := Newer(rows[i - 1], maxChars);
              Kept(rows[..i - 1], maxChars, used + |kept.content|, false) + ([kept] + newer)
  {
    hide Newer;
    Seqs.TakeStep(rows, i - 1);
    var kept := Newer(rows[i - 1], maxChars);
    Seqs.Units(newer);
    Seqs.Assoc(Kept(rows[..i - 1], maxChars, used + |kept.content|, false), [kept], newer);
  }

  function ContentLength(rows: seq<Message>): nat {
    if rows == [] then 0 else ContentLength(rows[..|rows| - 1]) + |rows[|rows| - 1].content|
  }

  lemma {:induction false} ContentLengthAppend(rows: seq<Message>, m: Message)
    ensures ContentLength(rows + [m]) == ContentLength(rows) + |m.content|
  {
    Seqs.FrontLast(rows, m);
  }

  /** The longest run of the newest rows that fits. */
  predicate MaximalRun(k: seq<Message>, rows: seq<Message>, room: int) {
    && |k| <= |rows| && k == rows[|rows| - |k|..]
    && ContentLength(k) <= room
    && (|k| < |rows| ==> ContentLength(k) + |rows[|rows| - |k| - 1].content| > room)
  }

  lemma {:induction false} LongerRun(k: seq<Message>, before: seq<Message>, row: Message, room: int)
    requires MaximalRun(k, before, room - |row.content|)
    ensures MaximalRun(k + [row], before + [row], room)
  {
    hide ContentLength;
    ContentLengthAppend(k, row);
    Seqs.SuffixAppend(before, row, |k|);
  }

  lemma {:induction false} NoRun(rows: seq<Message>, room: int)
    requires room >= 0
    ensures rows == [] || |rows[|rows| - 1].content| > room ==> MaximalRun([], rows, room)
  {
  }

  /** After the newest message, whole messages are kept as long as they fit. */
  lemma {:induction false} KeptWhole(rows: seq<Message>, maxChars: int, used: int)
    requires 0 <= used <= maxChars
    ensures MaximalRun(Kept(rows, maxChars, used, false), rows, maxChars - used)
  {
    hide MaximalRun;
    NoRun(rows, maxChars - used);
    if rows != [] {
      var row, before := rows[|rows| - 1], rows[..|rows| - 1];
      if used + |row.content| <= maxChars {
        KeptWhole(before, maxChars, used + |row.content|);
        LongerRun(Kept(before, maxChars, used + |row.content|, false), before, row, maxChars - used);
        Seqs.TakeStep(rows, |rows| - 1);
        Seqs.Whole(rows);
      }
    }
  }

  /** For a positive budget the kept history is a contiguous run of the newest messages within
      the budget; only the newest may be cut, to its end; and one more would not fit. */
  lemma {:induction false} HistoryIsMaximalSuffix(rows: seq<Message>, maxChars: int)
    requires maxChars >= 1 && rows != []
    ensures var k, n := Kept(rows, maxChars, 0, true), |rows|;
            && 1 <= |k| <= n && ContentLength(k) <= maxChars
            && k == rows[n - |k|..n - 1] + [Newer(rows[n - 1], maxChars)]
            && (|k| < n ==> ContentLength(k) + |rows[n - |k| - 1].content| > maxChars)
  {
    hide ContentLength;
    var n := |rows|;
    var newest := Newer(rows[n - 1], maxChars);
    var before := rows[..n - 1];
    var k := Kept(before, maxChars, |newest.content|, false);
    KeptWhole(before, maxChars, |newest.content|);
    ContentLengthAppend(k, newest);
    assert Kept(rows, maxChars, 0, true) == k + [newest];
    RunBefore(rows, |k|);
  }

  lemma {:induction false} RunBefore(rows: seq<Message>, k: nat)
    requires k < |rows|
    ensures var n := |rows|;
            && rows[..n - 1][n - 1 - k..] == rows[n - 1 - k..n - 1]
            && (k < n - 1 ==> rows[..n - 1][n - 1 - k - 1] == rows[n - 1 - k - 1])
  {
  }

  /** A budget of nothing keeps the newest message whole: the budget holds exactly when that
      message is empty. */
  lemma {:induction false} ZeroBudgetHoldsIff(rows: seq<Message>)
    requires rows != []
    ensures ContentLength(Kept(rows, 0, 0, true)) <= 0 <==> rows[|rows| - 1].content == ""
  {
    var n := |rows| - 1;
    var newest := rows[n];
    assert Tail(newest.content, 0) == newest.content;
    var k := Kept(rows[..n], 0, |newest.content|, false);
    ContentLengthAppend(k, newest);
    if newest.content == "" {
      KeptWhole(rows[..n], 0, 0);
    }
  }
}
