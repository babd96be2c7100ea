/** What is in the prompt: which chunks, how much of each, and which messages. */
module PromptContents {
  import opened Wrappers
  import opened Text
  import opened Budgets
  import Seqs = Sequences

  // ---------- which chunks ----------

  /** No chunk before this one has its identity. */
  ghost predicate IsFirst(chunks: seq<Chunk>, i: nat)
    requires i < |chunks|
  {
    forall j | 0 <= j < i :: chunks[j].identity != chunks[i].identity
  }

  /** These are, in order, the positions of the chunks that are the first of their identity. */
  ghost predicate Firsts(chunks: seq<Chunk>, at: seq<nat>) {
    && (forall k | 0 <= k < |at| :: at[k] < |chunks| && IsFirst(chunks, at[k]))
    && (forall k, l | 0 <= k < l < |at| :: at[k] < at[l])
    && (forall i | 0 <= i < |chunks| && IsFirst(chunks, i) :: i in at)
  }

  lemma {:induction false} LastIsFirst(chunks: seq<Chunk>)
    requires chunks != []
    ensures var n := |chunks| - 1;
            && (IsFirst(chunks, n) <==> chunks[n].identity !in Identities(chunks[..n]))
            && forall i | 0 <= i < n :: IsFirst(chunks[..n], i) <==> IsFirst(chunks, i)
  {
    var n := |chunks| - 1;
    assert forall j | 0 <= j < n :: chunks[..n][j] == chunks[j] && chunks[j] in chunks[..n];
  }

  /** These are the chunks at these positions. */
  ghost predicate Picked(chunks: seq<Chunk>, at: seq<nat>, picked: seq<Chunk>) {
    |picked| == |at| && forall k | 0 <= k < |at| :: at[k] < |chunks| && picked[k] == chunks[at[k]]
  }

  lemma {:induction false} SameFirsts(chunks: seq<Chunk>, at: seq<nat>)
    requires chunks != [] && Firsts(chunks[..|chunks| - 1], at) && !IsFirst(chunks, |chunks| - 1)
    ensures Firsts(chunks, at)
  {
    LastIsFirst(chunks);
    hide IsFirst;
    hide Identities;
  }

  lemma {:induction false} OneFirstMore(chunks: seq<Chunk>, at: seq<nat>)
    requires chunks != [] && Firsts(chunks[..|chunks| - 1], at) && IsFirst(chunks, |chunks| - 1)
    ensures Firsts(chunks, at + [|chunks| - 1])
  {
    var n := |chunks| - 1;
    LastIsFirst(chunks);
    hide IsFirst;
    hide Identities;
    forall i | 0 <= i < |chunks| && IsFirst(chunks, i) ensures i in at + [n] {
      if i < n {
        assert i in at;
      }
    }
    assert forall k | 0 <= k < |at| :: (at + [n])[k] == at[k];
  }

  lemma {:induction false} OnePickedMore(chunks: seq<Chunk>, at: seq<nat>, picked: seq<Chunk>)
    requires chunks != [] && Picked(chunks[..|chunks| - 1], at, picked)
    ensures Picked(chunks, at, picked)
    ensures Picked(chunks, at + [|chunks| - 1], picked + [chunks[|chunks| - 1]])
  {
  }

  lemma {:induction false} DistinctAreFirsts(chunks: seq<Chunk>) returns (at: seq<nat>)
    ensures Firsts(chunks, at) && Picked(chunks, at, Distinct(chunks))
  {
    if chunks == [] {
      at := [];
    } else {
      var n := |chunks| - 1;
      at := DistinctAreFirsts(chunks[..n]);
      LastIsFirst(chunks);
      OnePickedMore(chunks, at, Distinct(chunks[..n]));
      Seqs.Units(Distinct(chunks[..n]));
      hide Firsts;
      hide IsFirst;
      hide Identities;
      hide Picked;
      if IsFirst(chunks, n) {
        OneFirstMore(chunks, at);
        at := at + [n];
      } else {
        SameFirsts(chunks, at);
      }
    }
  }

  /** The chunks selected are the first of their identity, in order, as many as there are up to the
      limit, a limit below one counting as one. */
  lemma {:induction false} SelectsFirsts(chunks: seq<Chunk>, maxChunks: int) returns (at: seq<nat>)
    ensures Firsts(chunks, at)
    ensures var selected := Deduplicated(chunks, maxChunks); var limit := if maxChunks < 1 then 1 else maxChunks;
            && |selected| == (if |at| < limit then |at| else limit)
            && forall k | 0 <= k < |selected| :: at[k] < |chunks| && selected[k] == chunks[at[k]]
  {
    hide Distinct;
    at := DistinctAreFirsts(chunks);
  }

  // ---------- how much of a text ----------

  predicate Breaks(c: char) {
    c == ' ' || c == '\n'
  }

  lemma {:induction false} LastIndexIs(text: string, c: char)
    ensures var i := LastIndex(text, [c]);
            && -1 <= i < |text| && (i >= 0 ==> text[i] == c) && forall j | i < j < |text| :: text[j] != c
  {
    if text != "" {
      LastIndexIs(text[..|text| - 1], c);
      assert forall j | 0 <= j < |text| - 1 :: text[..|text| - 1][j] == text[j];
      assert text[|text| - 1..] == [text[|text| - 1]];
    }
  }

  lemma {:induction false} LastIndexFits(text: string, part: string)
    requires part != ""
    ensures var i := LastIndex(text, part);
            i >= 0 ==> i + |part| <= |text| && text[i..i + |part|] == part
  {
    if |part| <= |text| && text[|text| - |part|..] != part {
      LastIndexFits(text[..|text| - 1], part);
      var i := LastIndex(text[..|text| - 1], part);
      assert i >= 0 ==> text[..|text| - 1][i..i + |part|] == text[i..i + |part|];
    }
  }

  /** The boundary is the last space or line break: a sentence ends in a space too. */
  lemma {:induction false} BoundaryIsLastBreak(candidate: string)
    ensures var b := Boundary(candidate);
            (b >= 0 ==> Breaks(candidate[b])) && forall j | b < j < |candidate| :: !Breaks(candidate[j])
  {
    hide LastIndex;
    LastIndexIs(candidate, '\n');
    LastIndexIs(candidate, ' ');
    LastIndexFits(candidate, ". ");
    assert "\n" == ['\n'] && " " == [' '];
    var s := LastIndex(candidate, ". ");
    if s >= 0 {
      assert candidate[s..s + 2][1] == ' ';
    }
  }

  lemma {:induction false} StripTwice(s: string)
    ensures StripRight(StripRight(s)) == StripRight(s)
    ensures s != "" && IsSpace(s[|s| - 1]) ==> StripRight(s) == StripRight(s[..|s| - 1])
  {
    if s != "" && IsSpace(s[|s| - 1]) {
      StripTwice(s[..|s| - 1]);
    }
  }

  lemma {:induction false} CutsAtLast(candidate: string, b: nat)
    requires b <= |candidate| && (b > 0 ==> Breaks(candidate[b - 1]))
    requires forall j | b <= j < |candidate| :: !Breaks(candidate[j])
    ensures CutAtBoundary(candidate) == StripRight(if b > 0 && b - 1 >= |candidate| / 2 then candidate[..b] else candidate)
  {
    hide Boundary;
    hide StripRight;
    BoundaryIsLastBreak(candidate);
    assert Boundary(candidate) == b - 1;
    hide Breaks;
    if b > 0 {
      StripTwice(candidate[..b]);
    }
  }

  /** A text too long for its room loses its end and gets an ellipsis: what is kept is what fits beside
      that, cut at its last space or line break if there is one in its second half, and without
      trailing white space in either case. */
  lemma {:induction false} TruncationKeeps(text: string, available: int, b: nat)
    requires |text| > available > 1 && b < available
    requires b > 0 ==> Breaks(text[b - 1])
    requires forall j | b <= j < available - 1 :: !Breaks(text[j])
    ensures Truncate(text, available)
         == StripRight(if b > 0 && b - 1 >= (available - 1) / 2 then text[..b] else text[..available - 1]) + ELLIPSIS
  {
    hide CutAtBoundary;
    hide StripRight;
    hide Breaks;
    var candidate := text[..available - 1];
    assert forall j | 0 <= j < |candidate| :: candidate[j] == text[j];
    assert b > 0 ==> candidate[..b] == text[..b];
    CutsAtLast(candidate, b);
  }

  // ---------- the context ----------

  function Whole(c: Chunk): string {
    c.header + c.text
  }

  function WholeBlocks(chunks: seq<Chunk>): seq<string> {
    if chunks == [] then [] else [Whole(chunks[0])] + WholeBlocks(chunks[1..])
  }

  /** What is left for the text of the next chunk, after these blocks. */
  function Room(budget: int, blocks: seq<string>, header: string): int {
    budget - |header| - if blocks == [] then 0 else |Join(SEPARATOR, blocks)| + |SEPARATOR|
  }

  /** The blocks are whole up to the n-th, which is cut to the room left for it, or which is, as all
      after it, left out because there is next to none. */
  ghost predicate WholeUpTo(chunks: seq<Chunk>, blocks: seq<string>, n: nat, room: int) {
    && n <= |chunks| && n <= |blocks| && blocks[..n] == WholeBlocks(chunks[..n])
    && if n == |chunks| then |blocks| == n
       else
         && (room < |chunks[n].text| || room <= 0)
         && (if room >= 2 then |blocks| > n && blocks[n] == chunks[n].header + Truncate(chunks[n].text, room)
             else |blocks| == n)
  }

  function Used(budget: int, used: int, first: bool, header: string): int {
    budget - used - Cost(first) - |header|
  }

  lemma {:induction false} OneWhole(c: Chunk, room: int)
    ensures room > 0 && |c.text| <= room ==> NextBlock(c, room) == Some(Whole(c))
    ensures room >= 2 && |c.text| > room ==> NextBlock(c, room) == Some(c.header + Truncate(c.text, room))
    ensures room <= 0 || (room == 1 && |c.text| > 1) ==> NextBlock(c, room) == None
  {
    TruncationFits(c.text, room);
  }

  /** How many leading blocks are whole, and how much they use. */
  function CountWhole(chunks: seq<Chunk>, budget: int, used: int, first: bool): (n: nat)
    ensures n <= |chunks|
  {
    if chunks == [] then 0
    else
      var room := Used(budget, used, first, chunks[0].header);
      if room <= 0 || room < |chunks[0].text| then 0
      else 1 + CountWhole(chunks[1..], budget, used + Cost(first) + |Whole(chunks[0])|, false)
  }

  function UsedBy(chunks: seq<Chunk>, used: int, first: bool): int {
    if chunks == [] then used else UsedBy(chunks[1..], used + Cost(first) + |Whole(chunks[0])|, false)
  }

  lemma {:induction false} OneMoreWholeBlock(c: Chunk, rest: seq<Chunk>, blocks: seq<string>, n: nat, room: int)
    requires WholeUpTo(rest, blocks, n, room)
    ensures WholeUpTo([c] + rest, [Whole(c)] + blocks, n + 1, room)
  {
    hide Truncate;
    var all, more := [c] + rest, [Whole(c)] + blocks;
    assert all[..n + 1][0] == c && all[..n + 1][1..] == rest[..n];
    assert more[..n + 1] == [Whole(c)] + blocks[..n];
    assert n < |rest| ==> all[n + 1] == rest[n];
  }

  lemma {:induction false} NoneWhole(chunks: seq<Chunk>, blocks: seq<string>, room: int)
    requires chunks != [] && (room < |chunks[0].text| || room <= 0)
    requires if room >= 2 then blocks != [] && blocks[0] == chunks[0].header + Truncate(chunks[0].text, room) else blocks == []
    ensures WholeUpTo(chunks, blocks, 0, room)
  {
    hide Truncate;
    assert chunks[..0] == [] && blocks[..0] == [];
  }

  /** What is used before the first block that is not whole, and whether there is none before it. */
  function RoomAfter(chunks: seq<Chunk>, budget: int, used: int, first: bool): int {
    var n := CountWhole(chunks, budget, used, first);
    if n < |chunks| then Used(budget, UsedBy(chunks[..n], used, first), first && n == 0, chunks[n].header) else 0
  }

  lemma {:induction false} RoomAfterMore(chunks: seq<Chunk>, budget: int, used: int, first: bool)
    requires chunks != []
    requires var room := Used(budget, used, first, chunks[0].header); room > 0 && room >= |chunks[0].text|
    ensures RoomAfter(chunks, budget, used, first)
         == RoomAfter(chunks[1..], budget, used + Cost(first) + |Whole(chunks[0])|, false)
  {
    var n := CountWhole(chunks, budget, used, first);
    assert chunks[..n][0] == chunks[0] && chunks[..n][1..] == chunks[1..][..n - 1];
  }

  predicate FitsWhole(chunks: seq<Chunk>, budget: int, used: int, first: bool)
    requires chunks != []
  {
    var room := Used(budget, used, first, chunks[0].header);
    room > 0 && room >= |chunks[0].text|
  }

  lemma {:induction false} FirstIsWhole(chunks: seq<Chunk>, budget: int, used: int, first: bool)
    requires chunks != [] && FitsWhole(chunks, budget, used, first)
    ensures var rest, more := chunks[1..], used + Cost(first) + |Whole(chunks[0])|;
            && Blocks(chunks, budget, used, first) == [Whole(chunks[0])] + Blocks(rest, budget, more, false)
            && CountWhole(chunks, budget, used, first) == 1 + CountWhole(rest, budget, more, false)
  {
    hide NextBlock;
    hide Whole;
    hide Truncate;
    var room := Used(budget, used, first, chunks[0].header);
    OneWhole(chunks[0], room);
    assert NextBlock(chunks[0], budget - used - Cost(first) - |chunks[0].header|) == Some(Whole(chunks[0]));
  }

  lemma {:induction false} FirstIsNotWhole(chunks: seq<Chunk>, budget: int, used: int, first: bool)
    requires chunks != [] ==> !FitsWhole(chunks, budget, used, first)
    ensures WholeUpTo(chunks, Blocks(chunks, budget, used, first), 0, RoomAfter(chunks, budget, used, first))
    ensures CountWhole(chunks, budget, used, first) == 0
  {
    hide Truncate;
    assert chunks[..0] == [];
    if chunks != [] {
      var room := Used(budget, used, first, chunks[0].header);
      OneWhole(chunks[0], room);
      hide NextBlock;
      NoneWhole(chunks, Blocks(chunks, budget, used, first), room);
    }
  }

  lemma {:induction false} BlocksAreWhole(chunks: seq<Chunk>, budget: int, used: int, first: bool)
    ensures WholeUpTo(chunks, Blocks(chunks, budget, used, first), CountWhole(chunks, budget, used, first),
                      RoomAfter(chunks, budget, used, first))
    decreases |chunks|
  {
    hide WholeUpTo;
    hide RoomAfter;
    hide CountWhole;
    hide Blocks;
    if chunks != [] && FitsWhole(chunks, budget, used, first) {
      var c, rest, more := chunks[0], chunks[1..], used + Cost(first) + |Whole(chunks[0])|;
      FirstIsWhole(chunks, budget, used, first);
      BlocksAreWhole(rest, budget, more, false);
      RoomAfterMore(chunks, budget, used, first);
      OneMoreWholeBlock(c, rest, Blocks(rest, budget, more, false), CountWhole(rest, budget, more, false),
                        RoomAfter(rest, budget, more, false));
      assert chunks == [c] + rest;
    } else {
      FirstIsNotWhole(chunks, budget, used, first);
    }
  }

  lemma {:induction false} UsedIsLength(chunks: seq<Chunk>, used: int, first: bool)
    requires chunks != []
    ensures UsedBy(chunks, used, first) == used + Cost(first) + |Join(SEPARATOR, WholeBlocks(chunks))|
  {
    var rest := chunks[1..];
    if rest != [] {
      UsedIsLength(rest, used + Cost(first) + |Whole(chunks[0])|, false);
      assert WholeBlocks(chunks)[1..] == WholeBlocks(rest);
    }
  }

  /** The context is the blocks of the selected chunks in order, whole as long as they fit with their
      separators; the first that does not fit is cut to the room that is left, or ends the
      context if that is less than two characters. */
  lemma {:induction false} ContextIsLongest(chunks: seq<Chunk>, maxChunks: int, budget: int) returns (n: nat)
    ensures var selected := Deduplicated(chunks, maxChunks);
            var blocks := Blocks(selected, budget, 0, true);
            && Context(chunks, maxChunks, budget) == Join(SEPARATOR, blocks)
            && n <= |selected|
            && WholeUpTo(selected, blocks, n,
                 if n < |selected| then Room(budget, WholeBlocks(selected[..n]), selected[n].header) else 0)
  {
    hide Deduplicated;
    hide Blocks;
    hide WholeUpTo;
    var selected := Deduplicated(chunks, maxChunks);
    BlocksAreWhole(selected, budget, 0, true);
    n := CountWhole(selected, budget, 0, true);
    if 0 < n < |selected| {
      UsedIsLength(selected[..n], 0, true);
      assert WholeBlocks(selected[..n]) != [];
    }
  }

  // ---------- the history ----------

  lemma {:induction false} LinesOfConcat(a: seq<Message>, b: seq<Message>)
    ensures Lines(a + b) == Lines(a) + Lines(b)
  {
    hide LineOf;
    hide Strip;
    if a == [] {
      Seqs.Units(b);
      Seqs.Units(Lines(b));
    } else {
      LinesOfConcat(a[1..], b);
      Seqs.Uncons(a, b);
      Seqs.Assoc(if Strip(a[0].content) == "" then [] else [LineOf(a[0])], Lines(a[1..]), Lines(b));
    }
  }

  /** Each message that is not blank is one line, in order, that names who speaks. */
  lemma {:induction false} HistoryNamesSpeakers(before: seq<Message>, content: string, after: seq<Message>, role: string)
    ensures var text := Strip(content);
            Lines(before + [Message(role, content)] + after) ==
            Lines(before)
            + (if text == "" then [] else if role == "user" then ["Utilisateur: " + text] else ["Assistant: " + text])
            + Lines(after)
  {
    hide Strip;
    var m := Message(role, content);
    LinesOfConcat(before + [m], after);
    LinesOfConcat(before, [m]);
    assert [m][1..] == [] && Lines([m][1..]) == [];
    var line := if Strip(content) == "" then [] else [LineOf(m)];
    Seqs.Units(line);
    assert Lines([m]) == line;
    assert role == "user" ==> LineOf(m) == "Utilisateur: " + Strip(content);
    assert role != "user" ==> LineOf(m) == "Assistant: " + Strip(content);
  }

  /** A history within its budget is in the prompt as it is. */
  lemma {:induction false} WholeHistoryIsKept(history: seq<Message>, maxChars: int)
    requires TotalLength(Lines(history)) <= maxChars
    ensures HistoryContext(history, maxChars) == Join("\n", Lines(history))
  {
    hide LineOf;
    WholeLines(Lines(history), maxChars);
  }

  /** The end of a text, as long as it may be. */
  lemma {:induction false} NewestIsCutToItsEnd(m: Message, maxChars: int)
    requires maxChars >= 1
    ensures var kept := Newer(m, maxChars);
            && kept.role == m.role
            && |kept.content| == (if |m.content| < maxChars then |m.content| else maxChars)
            && kept.content == m.content[|m.content| - |kept.content|..]
  {
  }

  /** The stored history that goes with a question is a run of the newest messages within both budgets, at
      most two for each turn, and one message more would exceed one of them. */
  lemma {:induction false} HistoryFillsItsBudgets(messages: seq<Message>, maxTurns: int, maxChars: int)
    requires maxChars >= 1 && maxTurns >= 1 && messages != []
    ensures var k, n := Kept(Newest(messages, maxTurns), maxChars, 0, true), |messages|;
            && 1 <= |k| <= n && |k| <= 2 * maxTurns && ContentLength(k) <= maxChars
            && k == messages[n - |k|..n - 1] + [Newer(messages[n - 1], maxChars)]
            && (|k| == n || |k| == 2 * maxTurns || ContentLength(k) + |messages[n - |k| - 1].content| > maxChars)
  {
    hide *;
    var rows := Newest(messages, maxTurns);
    NewestAreLast(messages, maxTurns);
    HistoryIsMaximalSuffix(rows, maxChars);
    EndOfEnd(messages, rows, Kept(rows, maxChars, 0, true), Newer(messages[|messages| - 1], maxChars));
  }

  lemma {:induction false} NewestAreLast(messages: seq<Message>, maxTurns: int)
    requires maxTurns >= 1 && messages != []
    ensures var rows, n := Newest(messages, maxTurns), |messages|;
            && |rows| == (if n < 2 * maxTurns then n else 2 * maxTurns)
            && rows == messages[n - |rows|..] && rows[|rows| - 1] == messages[n - 1]
  {
  }

  /** A run that ends the last messages ends all of them. */
  lemma {:induction false} EndOfEnd(messages: seq<Message>, rows: seq<Message>, kept: seq<Message>, last: Message)
    requires 1 <= |kept| <= |rows| <= |messages| && rows == messages[|messages| - |rows|..]
    requires kept == rows[|rows| - |kept|..|rows| - 1] + [last]
    ensures var n, k := |messages|, |kept|;
            && kept == messages[n - k..n - 1] + [last]
            && (k < |rows| ==> rows[|rows| - k - 1] == messages[n - k - 1])
  {
    var n, m, k := |messages|, |rows|, |kept|;
    assert rows[m - k..m - 1] == messages[n - k..n - 1];
  }
}
