/** Cutting the text of one section into pieces. */
module ChunkSplitters {
  import opened Wrappers
  import opened Text
  import opened TextLines
  import Seqs = Sequences

  function Joined(groups: seq<seq<string>>): (r: seq<string>)
    ensures |r| == |groups| && forall i | 0 <= i < |groups| :: r[i] == Join(" ", groups[i])
  {
    seq(|groups|, i requires 0 <= i < |groups| => Join(" ", groups[i]))
  }

  lemma {:induction false} JoinedAppend(groups: seq<seq<string>>, group: seq<string>)
    ensures Joined(groups + [group]) == Joined(groups) + [Join(" ", group)]
  {
    hide Join;
  }

  function WordCount(s: string): nat {
    |Words(s)|
  }

  // ---------- windows of words ----------

  /** The windows of `chunk_by_size` from a start. */
  function Windows(words: seq<string>, start: nat, size: nat, overlap: nat): seq<seq<string>>
    requires overlap < size && start < |words|
    decreases |words| - start
  {
    if |words| - start <= size then [words[start..]]
    else [words[start..start + size]] + Windows(words, start + size - overlap, size, overlap)
  }

  function SizedWindows(text: string, size: nat, overlap: nat): seq<seq<string>>
    requires overlap < size
  {
    if Words(text) == [] then [] else Windows(Words(text), 0, size, overlap)
  }

  method ChunkBySize(text: string, size: nat, overlap: nat) returns (chunks: seq<string>)
    requires overlap < size
    ensures chunks == Joined(SizedWindows(text, size, overlap))
  {
    var words := Words(text);
    chunks := [];
    if words == [] {
      return;
    }
    hide Join;
    var start := 0;
    ghost var done: seq<seq<string>> := [];
    ghost var all := Windows(words, 0, size, overlap);
    while start < |words|
      invariant start < |words| && chunks == Joined(done) && done + Windows(words, start, size, overlap) == all
      decreases |words| - start
    {
      var end := if start + size < |words| then start + size else |words|;
      var window := words[start..end];
      JoinedAppend(done, window);
      chunks := chunks + [Join(" ", window)];
      if end == |words| {
        assert window == words[start..];
        return;
      }
      Seqs.Assoc(done, [window], Windows(words, start + size - overlap, size, overlap));
      done := done + [window];
      start := start + (size - overlap);
    }
  }

  /** The first window, then what each later one adds after the words it repeats. */
  function Unlap(windows: seq<seq<string>>, overlap: nat): seq<string> {
    if windows == [] then []
    else if |windows| == 1 then windows[0]
    else windows[0] + Drop(Unlap(windows[1..], overlap), overlap)
  }

  function Drop(words: seq<string>, n: nat): seq<string> {
    if n <= |words| then words[n..] else []
  }

  /** Every window but the last is full, and each repeats the end of the one before and adds to it. */
  predicate FullAndOverlapping(windows: seq<seq<string>>, size: nat, overlap: nat)
    requires overlap < size
  {
    if windows == [] then true
    else if |windows| == 1 then 0 < |windows[0]| <= size
    else
      && |windows[0]| == size && overlap < |windows[1]|
      && windows[1][..overlap] == windows[0][size - overlap..]
      && FullAndOverlapping(windows[1..], size, overlap)
  }

  lemma {:induction false} WindowsCover(words: seq<string>, start: nat, size: nat, overlap: nat)
    requires overlap < size && start < |words|
    ensures var ws := Windows(words, start, size, overlap);
            && ws != [] && |ws[0]| == (if |words| - start <= size then |words| - start else size)
            && ws[0] == words[start..start + |ws[0]|]
            && FullAndOverlapping(ws, size, overlap)
            && Unlap(ws, overlap) == words[start..]
    decreases |words| - start
  {
    var ws := Windows(words, start, size, overlap);
    if |words| - start > size {
      var next := start + size - overlap;
      var rest := Windows(words, next, size, overlap);
      WindowsCover(words, next, size, overlap);
      Seqs.HeadTail(words[start..start + size], rest);
      OverlapAt(words, start, size, overlap, |rest[0]|);
    }
  }

  lemma {:induction false} OverlapAt(words: seq<string>, start: nat, size: nat, overlap: nat, next: nat)
    requires overlap < next && overlap < size && start + size - overlap + next <= |words|
    ensures var lo := start + size - overlap;
            && words[lo..lo + next][..overlap] == words[start..start + size][size - overlap..]
            && words[lo..][overlap..] == words[start + size..]
            && words[start..] == words[start..start + size] + words[start + size..]
  {
  }

  /** The words of each chunk, read back from its text. */
  function WordsOfEach(chunks: seq<string>): (r: seq<seq<string>>)
    ensures |r| == |chunks| && forall i | 0 <= i < |chunks| :: r[i] == Words(chunks[i])
  {
    seq(|chunks|, i requires 0 <= i < |chunks| => Words(chunks[i]))
  }

  lemma {:induction false} WindowsAreWords(words: seq<string>, start: nat, size: nat, overlap: nat)
    requires overlap < size && start < |words| && AreWords(words)
    ensures forall i | 0 <= i < |Windows(words, start, size, overlap)| :: AreWords(Windows(words, start, size, overlap)[i])
    decreases |words| - start
  {
    if |words| - start > size {
      WindowsAreWords(words, start + size - overlap, size, overlap);
    }
  }

  /** The first chunk followed by each later chunk without its first overlapping words is
      exactly the text, word by word; every chunk but the last is full. */
  lemma {:induction false} SizedChunksCover(text: string, size: nat, overlap: nat)
    requires overlap < size
    ensures var chunks := WordsOfEach(Joined(SizedWindows(text, size, overlap)));
            Unlap(chunks, overlap) == Words(text) && FullAndOverlapping(chunks, size, overlap)
  {
    if Words(text) != [] {
      var ws := SizedWindows(text, size, overlap);
      WindowsCover(Words(text), 0, size, overlap);
      WindowsAreWords(Words(text), 0, size, overlap);
      forall i | 0 <= i < |ws| ensures Words(Join(" ", ws[i])) == ws[i] {
        WordsOfJoin(ws[i]);
      }
      assert WordsOfEach(Joined(ws)) == ws;
    }
  }

  // ---------- key points ----------

  /** Lines are collected until they hold enough words. */
  function Collect(buffer: seq<string>, lines: seq<string>, maxWords: int): seq<seq<string>>
    decreases |lines|
  {
    if lines == [] then (if buffer == [] then [] else [buffer])
    else
      var more := buffer + [lines[0]];
      if WordCount(Join(" ", more)) >= maxWords then [more] + Collect([], lines[1..], maxWords)
      else Collect(more, lines[1..], maxWords)
  }

  method SplitKeyPoints(text: string, maxWords: int) returns (chunks: seq<string>)
    ensures chunks == Joined(Collect([], KeptLines(text), maxWords))
  {
    hide Join;
    hide WordCount;
    chunks := [];
    var buffer: seq<string> := [];
    var lines := TrimmedLines(text);
    ghost var done: seq<seq<string>> := [];
    ghost var all := Collect([], lines, maxWords);
    Seqs.Whole(lines);
    for i := 0 to |lines|
      invariant chunks == Joined(done) && done + Collect(buffer, lines[i..], maxWords) == all
    {
      Seqs.DropStep(lines, i);
      buffer := buffer + [lines[i]];
      if WordCount(Join(" ", buffer)) >= maxWords {
        JoinedAppend(done, buffer);
        chunks := chunks + [Join(" ", buffer)];
        Seqs.Assoc(done, [buffer], Collect([], lines[i + 1..], maxWords));
        done := done + [buffer];
        buffer := [];
      }
    }
    if buffer != [] {
      JoinedAppend(done, buffer);
      chunks := chunks + [Join(" ", buffer)];
    }
  }

  /** Every line is in exactly one group, in order. */
  lemma {:induction false} CollectConserves(buffer: seq<string>, lines: seq<string>, maxWords: int)
    ensures Concat(Collect(buffer, lines, maxWords)) == buffer + lines
    decreases |lines|
  {
    if lines == [] {
      assert Concat([buffer]) == buffer + Concat([]);
    } else {
      var more := buffer + [lines[0]];
      assert more + lines[1..] == buffer + lines;
      if WordCount(Join(" ", more)) >= maxWords {
        var rest := Collect([], lines[1..], maxWords);
        CollectConserves([], lines[1..], maxWords);
        assert ([more] + rest)[1..] == rest;
      } else {
        CollectConserves(more, lines[1..], maxWords);
      }
    }
  }

  /** Too few words to end a group here. */
  predicate Short(lines: seq<string>, maxWords: int) {
    lines == [] || WordCount(Join(" ", lines)) < maxWords
  }

  /** A group ends with the first line that brings it to the limit; only the last may stay below. */
  predicate WellGrouped(groups: seq<seq<string>>, maxWords: int) {
    groups == [] ||
    (&& groups[0] != [] && Short(groups[0][..|groups[0]| - 1], maxWords)
     && (|groups| > 1 ==> !Short(groups[0], maxWords))
     && WellGrouped(groups[1..], maxWords))
  }

  lemma {:induction false} CollectGroupsWell(buffer: seq<string>, lines: seq<string>, maxWords: int)
    requires Short(buffer, maxWords) && (buffer != [] ==> Short(buffer[..|buffer| - 1], maxWords))
    ensures WellGrouped(Collect(buffer, lines, maxWords), maxWords)
    decreases |lines|
  {
    if lines != [] {
      var more := buffer + [lines[0]];
      assert more[..|more| - 1] == buffer;
      if WordCount(Join(" ", more)) >= maxWords {
        var rest := Collect([], lines[1..], maxWords);
        CollectGroupsWell([], lines[1..], maxWords);
        assert ([more] + rest)[1..] == rest;
      } else {
        CollectGroupsWell(more, lines[1..], maxWords);
      }
    }
  }

  lemma {:induction false} WordsOfJoinedGroups(groups: seq<seq<string>>)
    ensures Concat(WordsOfEach(Joined(groups))) == WordsOfLines(Concat(groups))
  {
    if groups != [] {
      WordsOfJoinedGroups(groups[1..]);
      WordsOfJoinedLines(groups[0]);
      WordsOfLinesConcat(groups[0], Concat(groups[1..]));
      assert WordsOfEach(Joined(groups))[1..] == WordsOfEach(Joined(groups[1..]));
    }
  }

  /** The key-point chunks hold the words of the text, each once and in order; a chunk ends with
      the first line that brings it to the limit. */
  lemma {:induction false} KeyPointsKeepEveryWord(text: string, maxWords: int)
    ensures var groups := Collect([], KeptLines(text), maxWords);
            Concat(WordsOfEach(Joined(groups))) == Words(text) && WellGrouped(groups, maxWords)
  {
    var lines := KeptLines(text);
    CollectConserves([], lines, maxWords);
    CollectGroupsWell([], lines, maxWords);
    WordsOfJoinedGroups(Collect([], lines, maxWords));
    WordsOfKeptLines(text);
    assert [] + lines == lines;
  }

  // ---------- questions and answers ----------

  datatype Entry = Entry(question: string, answer: seq<string>)

  predicate IsQuestion(line: string) {
    line != "" && line[|line| - 1] == '?'
  }

  function Render(e: Entry): string {
    var answer := Strip(Join(" ", e.answer));
    "Question: " + e.question + if answer != "" then "\nR\U{e9}ponse: " + answer else ""
  }

  function RenderAll(entries: seq<Entry>): (r: seq<string>)
    ensures |r| == |entries| && forall i | 0 <= i < |entries| :: r[i] == Render(entries[i])
  {
    seq(|entries|, i requires 0 <= i < |entries| => Render(entries[i]))
  }

  /** Reading on with a question (if any yet) and the lines collected for its answer. */
  function Entries(question: Option<string>, answer: seq<string>, lines: seq<string>): seq<Entry>
    decreases |lines|
  {
    if lines == [] then (if question.Some? then [Entry(question.value, answer)] else [])
    else if !IsQuestion(lines[0]) then Entries(question, answer + [lines[0]], lines[1..])
    else if question.Some? then [Entry(question.value, answer)] + Entries(Some(lines[0]), [], lines[1..])
    else Entries(Some(lines[0]), answer, lines[1..])
  }

  method SplitFaq(text: string) returns (chunks: seq<string>)
    ensures chunks == RenderAll(Entries(None, [], KeptLines(text)))
  {
    chunks := [];
    var question: Option<string> := None;
    var answer: seq<string> := [];
    var lines := TrimmedLines(text);
    ghost var done: seq<Entry> := [];
    for i := 0 to |lines|
      invariant chunks == RenderAll(done)
      invariant done + Entries(question, answer, lines[i..]) == Entries(None, [], lines)
    {
      assert lines[i..][1..] == lines[i + 1..] && lines[i..][0] == lines[i];
      if IsQuestion(lines[i]) {
        if question.Some? {
          chunks := chunks + [Render(Entry(question.value, answer))];
          done := done + [Entry(question.value, answer)];
          answer := [];
        }
        question := Some(lines[i]);
      } else {
        answer := answer + [lines[i]];
      }
    }
    if question.Some? {
      chunks := chunks + [Render(Entry(question.value, answer))];
      done := done + [Entry(question.value, answer)];
    }
  }

  lemma {:induction false} LabelledWords(tag: string, text: string)
    requires IsWord(tag)
    ensures Words(tag + " " + text) == [tag] + Words(text)
  {
    var rest := " " + text;
    Seqs.Assoc(tag, " ", text);
    WordsOfLeadingWord(tag, rest);
    WordsOfLeadingSpace(' ', text);
    assert [' '] + text == rest;
  }

  lemma {:induction false} Rendered(e: Entry)
    requires AreKept(e.answer)
    ensures Render(e) == if e.answer == [] then "Question: " + e.question
                         else ("Question: " + e.question) + ("\n" + ("R\U{e9}ponse:" + " " + Join(" ", e.answer)))
  {
    hide Join;
    hide Strip;
    var question, answer := "Question: " + e.question, Join(" ", e.answer);
    if e.answer == [] {
      assert answer == "" && Strip(answer) == "" by { NothingStripped(); }
      Seqs.Units(question);
    } else {
      JoinOfKept(" ", e.answer);
      assert "\nR\U{e9}ponse: " + answer == "\n" + ("R\U{e9}ponse:" + " " + answer);
    }
  }

  lemma {:induction false} NothingStripped()
    ensures Join(" ", []) == "" && Strip("") == ""
  {
  }

  lemma {:induction false} WordsOfTwoLines(first: string, second: string)
    ensures Words(first + ("\n" + second)) == Words(first) + Words(second)
  {
    hide Words;
    WordsOfConcat(first, "\n" + second);
    WordsOfLeadingSpace('\n', second);
    assert ['\n'] + second == "\n" + second;
  }

  /** The words of a chunk are those of its question and its answer, each under its label. */
  lemma {:induction false} RenderKeepsWords(e: Entry)
    requires AreKept(e.answer)
    ensures Words(Render(e)) == ["Question:"] + Words(e.question)
                                + if e.answer == [] then [] else ["R\U{e9}ponse:"] + WordsOfLines(e.answer)
  {
    hide Words;
    hide Render;
    hide Join;
    var question, answer := "Question: " + e.question, Join(" ", e.answer);
    Rendered(e);
    assert "Question:" + " " + e.question == question;
    LabelledWords("Question:", e.question);
    if e.answer == [] {
      Seqs.Units(Words(question));
    } else {
      var labelled := "R\U{e9}ponse:" + " " + answer;
      WordsOfJoinedLines(e.answer);
      LabelledWords("R\U{e9}ponse:", answer);
      WordsOfTwoLines(question, labelled);
    }
  }

  /** All lines of the entries: each question, then its answer. */
  function EntryLines(entries: seq<Entry>): seq<string> {
    if entries == [] then [] else [entries[0].question] + entries[0].answer + EntryLines(entries[1..])
  }

  /** The position of the first question, or the number of lines. */
  function FirstQuestion(lines: seq<string>): (k: nat)
    ensures k <= |lines| && (forall i | 0 <= i < k :: !IsQuestion(lines[i])) && (k < |lines| ==> IsQuestion(lines[k]))
  {
    if lines == [] || IsQuestion(lines[0]) then 0 else 1 + FirstQuestion(lines[1..])
  }

  predicate WellAsked(entries: seq<Entry>) {
    forall i | 0 <= i < |entries| :: IsQuestion(entries[i].question) && forall l :: l in entries[i].answer ==> !IsQuestion(l)
  }

  lemma {:induction false} EntriesAfterQuestion(question: string, answer: seq<string>, lines: seq<string>)
    requires IsQuestion(question) && forall l :: l in answer ==> !IsQuestion(l)
    ensures var entries := Entries(Some(question), answer, lines);
            EntryLines(entries) == [question] + answer + lines && WellAsked(entries)
    decreases |lines|
  {
    if lines == [] {
      assert [question] + answer + [] == [question] + answer;
    } else if IsQuestion(lines[0]) {
      EntriesAfterQuestion(lines[0], [], lines[1..]);
      var rest := Entries(Some(lines[0]), [], lines[1..]);
      assert ([Entry(question, answer)] + rest)[1..] == rest;
      assert lines == [lines[0]] + [] + lines[1..];
    } else {
      EntriesAfterQuestion(question, answer + [lines[0]], lines[1..]);
      assert [question] + (answer + [lines[0]]) + lines[1..] == [question] + answer + lines;
    }
  }

  lemma {:induction false} EntriesWithIntro(intro: seq<string>, lines: seq<string>)
    requires forall l :: l in intro ==> !IsQuestion(l)
    ensures var entries, k := Entries(None, intro, lines), FirstQuestion(lines);
            && WellAsked(entries)
            && (k < |lines| ==> EntryLines(entries) == [lines[k]] + (intro + lines[..k]) + lines[k + 1..])
            && (k == |lines| ==> entries == [])
    decreases |lines|
  {
    if lines == [] {
    } else if IsQuestion(lines[0]) {
      EntriesAfterQuestion(lines[0], intro, lines[1..]);
      assert intro + lines[..0] == intro;
    } else {
      EntriesWithIntro(intro + [lines[0]], lines[1..]);
      var k := FirstQuestion(lines);
      if k < |lines| {
        assert lines[1..][k - 1] == lines[k] && lines[1..][k..] == lines[k + 1..];
        assert (intro + [lines[0]]) + lines[1..][..k - 1] == intro + lines[..k];
      }
    }
  }

  /** The entries hold every line of the text exactly once, each question before its answer and
      the lines before the first question in its answer; but without any question there is no
      entry at all, so the lines are kept exactly when there is a question (or no line). */
  lemma {:induction false} FaqKeepsLinesIff(lines: seq<string>)
    ensures var entries, k := Entries(None, [], lines), FirstQuestion(lines);
            && WellAsked(entries)
            && (k < |lines| ==> EntryLines(entries) == [lines[k]] + lines[..k] + lines[k + 1..])
            && (k < |lines| ==> multiset(EntryLines(entries)) == multiset(lines))
            && (k == |lines| ==> entries == [])
            && (|EntryLines(entries)| == |lines| <==> k < |lines| || lines == [])
  {
    hide FirstQuestion;
    hide Entries;
    hide IsQuestion;
    hide EntryLines;
    var k := FirstQuestion(lines);
    EntriesWithIntro([], lines);
    Seqs.Units(lines[..k]);
    if k < |lines| {
      Seqs.MovedToFront(lines, k);
    } else {
      NoEntryLines();
    }
  }

  lemma {:induction false} NoEntryLines()
    ensures EntryLines([]) == []
  {
  }
}
