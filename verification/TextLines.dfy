/** Lines of a text, trimmed and without the blank ones, and how they survive joining. */
module TextLines {
  import opened Text
  import Seqs = Sequences

  /** The characters at which `splitlines` breaks a text; all of them are whitespace. */
  predicate IsBreak(c: char) {
    || '\n' <= c <= '\r' || '\U{1c}' <= c <= '\U{1e}'
    || c == '\U{85}' || c == '\U{2028}' || c == '\U{2029}'
  }

  /** The number of characters before the first break. */
  function LineLength(s: string): (n: nat)
    ensures n <= |s| && (forall i | 0 <= i < n :: !IsBreak(s[i])) && (n < |s| ==> IsBreak(s[n]))
  {
    if s == "" || IsBreak(s[0]) then 0 else 1 + LineLength(s[1..])
  }

  function RawLines(s: string): seq<string>
    decreases |s|
  {
    var n := LineLength(s);
    if n == |s| then [s] else [s[..n]] + RawLines(s[n + 1..])
  }

  function Kept(lines: seq<string>): seq<string> {
    if lines == [] then []
    else (if Strip(lines[0]) != "" then [Strip(lines[0])] else []) + Kept(lines[1..])
  }

  /** The trimmed lines that are not blank. */
  function KeptLines(s: string): seq<string> {
    Kept(RawLines(s))
  }

  /** A trimmed line that is not blank. */
  predicate IsKept(line: string) {
    && line != "" && !IsSpace(line[0]) && !IsSpace(line[|line| - 1])
    && forall i | 0 <= i < |line| :: !IsBreak(line[i])
  }

  predicate AreKept(lines: seq<string>) {
    forall i | 0 <= i < |lines| :: IsKept(lines[i])
  }

  function Concat<T>(parts: seq<seq<T>>): seq<T> {
    if parts == [] then [] else parts[0] + Concat(parts[1..])
  }

  lemma {:induction false} ConcatOfConcat<T>(a: seq<seq<T>>, b: seq<seq<T>>)
    ensures Concat(a + b) == Concat(a) + Concat(b)
  {
    if a == [] {
      Seqs.Units(b);
      Seqs.Units(Concat(b));
    } else {
      ConcatOfConcat(a[1..], b);
      Seqs.Uncons(a, b);
      Seqs.Assoc(a[0], Concat(a[1..]), Concat(b));
    }
  }

  /** The words of each line, in order. */
  function WordsOfLines(lines: seq<string>): seq<string> {
    if lines == [] then [] else Words(lines[0]) + WordsOfLines(lines[1..])
  }

  lemma {:induction false} WordsOfLinesConcat(a: seq<string>, b: seq<string>)
    ensures WordsOfLines(a + b) == WordsOfLines(a) + WordsOfLines(b)
  {
    hide Words;
    if a == [] {
      Seqs.Units(b);
      Seqs.Units(WordsOfLines(b));
    } else {
      WordsOfLinesConcat(a[1..], b);
      Seqs.Uncons(a, b);
      Seqs.Assoc(Words(a[0]), WordsOfLines(a[1..]), WordsOfLines(b));
    }
  }

  // ---------- trimming ----------

  lemma {:induction false} StrippedLeft(s: string)
    ensures StripLeft(s) == "" || !IsSpace(StripLeft(s)[0])
    ensures Words(StripLeft(s)) == Words(s)
    ensures forall i | 0 <= i < |StripLeft(s)| :: StripLeft(s)[i] in s
  {
    if s != "" && IsSpace(s[0]) {
      StrippedLeft(s[1..]);
    }
  }

  lemma {:induction false} StrippedRight(s: string)
    ensures StripRight(s) == "" || !IsSpace(StripRight(s)[|StripRight(s)| - 1])
    ensures StripRight(s) <= s
    ensures Words(StripRight(s)) == Words(s)
  {
    if s != "" && IsSpace(s[|s| - 1]) {
      var start, last := s[..|s| - 1], [s[|s| - 1]];
      StrippedRight(start);
      assert s == start + last;
      WordsOfConcat(start, last);
      assert Words(last) == Words(last[1..]) == [];
    }
  }

  /** Trimming a line keeps its words and leaves a kept line, or nothing. */
  lemma {:induction false} StrippedIsKept(s: string)
    requires forall i | 0 <= i < |s| :: !IsBreak(s[i])
    ensures Strip(s) == "" || IsKept(Strip(s))
    ensures Words(Strip(s)) == Words(s)
  {
    StrippedLeft(s);
    StrippedRight(StripLeft(s));
  }

  lemma {:induction false} KeptIsStripped(s: string)
    requires s != "" && !IsSpace(s[0]) && !IsSpace(s[|s| - 1])
    ensures Strip(s) == s
  {
  }

  // ---------- lines and words ----------

  lemma {:induction false} RawLinesHaveNoBreak(s: string)
    ensures forall i | 0 <= i < |RawLines(s)| :: (forall k | 0 <= k < |RawLines(s)[i]| :: !IsBreak(RawLines(s)[i][k]))
    decreases |s|
  {
    var n := LineLength(s);
    if n < |s| {
      RawLinesHaveNoBreak(s[n + 1..]);
    }
  }

  lemma {:induction false} KeptOfUnbroken(lines: seq<string>)
    requires forall i | 0 <= i < |lines| :: (forall k | 0 <= k < |lines[i]| :: !IsBreak(lines[i][k]))
    ensures AreKept(Kept(lines)) && WordsOfLines(Kept(lines)) == WordsOfLines(lines)
  {
    if lines != [] {
      StrippedIsKept(lines[0]);
      KeptOfUnbroken(lines[1..]);
      var rest := Kept(lines[1..]);
      if Strip(lines[0]) == "" {
        assert [] + rest == rest;
      } else {
        assert Kept(lines) == [Strip(lines[0])] + rest && Kept(lines)[1..] == rest;
      }
    }
  }

  lemma {:induction false} WordsOfRawLines(s: string)
    ensures WordsOfLines(RawLines(s)) == Words(s)
    decreases |s|
  {
    var n := LineLength(s);
    if n == |s| {
      assert WordsOfLines([s]) == Words(s) + WordsOfLines([]);
    } else {
      var line, rest := s[..n], s[n..];
      WordsOfRawLines(s[n + 1..]);
      assert s == line + rest && rest[1..] == s[n + 1..];
      WordsOfConcat(line, rest);
      assert RawLines(s)[1..] == RawLines(s[n + 1..]);
    }
  }

  /** No word of a text is lost or split by cutting it into kept lines. */
  lemma {:induction false} WordsOfKeptLines(s: string)
    ensures AreKept(KeptLines(s)) && WordsOfLines(KeptLines(s)) == Words(s)
  {
    RawLinesHaveNoBreak(s);
    KeptOfUnbroken(RawLines(s));
    WordsOfRawLines(s);
  }

  lemma {:induction false} RawLinesOfLine(line: string, rest: string)
    requires forall i | 0 <= i < |line| :: !IsBreak(line[i])
    ensures RawLines(line) == [line]
    ensures RawLines(line + "\n" + rest) == [line] + RawLines(rest)
  {
    var s := line + "\n" + rest;
    assert s[|line|] == '\n' && forall i | 0 <= i < |line| :: s[i] == line[i];
    assert LineLength(s) == |line|;
    assert s[..|line|] == line && s[|line| + 1..] == rest;
  }

  /** Cutting a text joined from kept lines gives those lines back. */
  lemma {:induction false} KeptLinesOfJoin(lines: seq<string>)
    requires AreKept(lines)
    ensures lines != [] ==> KeptLines(Join("\n", lines)) == lines
  {
    if |lines| == 1 {
      RawLinesOfLine(lines[0], "");
      KeptIsStripped(lines[0]);
      assert Kept(lines[..1]) == lines;
    } else if |lines| > 1 {
      var rest := Join("\n", lines[1..]);
      RawLinesOfLine(lines[0], rest);
      KeptLinesOfJoin(lines[1..]);
      KeptIsStripped(lines[0]);
      assert ([lines[0]] + RawLines(rest))[1..] == RawLines(rest);
    }
  }

  lemma {:induction false} JoinOfKept(separator: string, lines: seq<string>)
    requires AreKept(lines) && lines != []
    ensures var s := Join(separator, lines);
            s != "" && s[0] == lines[0][0] && s[|s| - 1] == lines[|lines| - 1][|lines[|lines| - 1]| - 1]
    ensures Strip(Join(separator, lines)) == Join(separator, lines)
  {
    if |lines| > 1 {
      JoinOfKept(separator, lines[1..]);
    }
    KeptIsStripped(Join(separator, lines));
  }

  /** The words of a text joined from lines with a space. */
  lemma {:induction false} WordsOfJoinedLines(lines: seq<string>)
    ensures Words(Join(" ", lines)) == WordsOfLines(lines)
  {
    if |lines| == 1 {
      assert WordsOfLines(lines[1..]) == [];
    } else if |lines| > 1 {
      var rest := " " + Join(" ", lines[1..]);
      WordsOfJoinedLines(lines[1..]);
      assert lines[0] + " " + Join(" ", lines[1..]) == lines[0] + rest;
      WordsOfConcat(lines[0], rest);
      assert rest[1..] == Join(" ", lines[1..]);
    }
  }

  lemma {:induction false} KeptAt(lines: seq<string>, i: nat)
    requires i < |lines|
    ensures Kept(lines[i..]) == if Strip(lines[i]) == "" then Kept(lines[i + 1..]) else [Strip(lines[i])] + Kept(lines[i + 1..])
    ensures Kept(lines[..i + 1]) == if Strip(lines[i]) == "" then Kept(lines[..i]) else Kept(lines[..i]) + [Strip(lines[i])]
  {
    assert lines[i..][0] == lines[i] && lines[i..][1..] == lines[i + 1..];
    assert [] + Kept(lines[i + 1..]) == Kept(lines[i + 1..]);
    assert lines[..i + 1] == lines[..i] + [lines[i]];
    KeptAppend(lines[..i], lines[i]);
  }

  lemma {:induction false} KeptAppend(lines: seq<string>, line: string)
    ensures Kept(lines + [line]) == Kept(lines) + if Strip(line) == "" then [] else [Strip(line)]
  {
    if lines == [] {
      assert [line][1..] == [];
    } else {
      KeptAppend(lines[1..], line);
      assert (lines + [line])[1..] == lines[1..] + [line];
    }
  }

  /** `[line.strip() for line in text.splitlines() if line.strip()]` */
  method TrimmedLines(text: string) returns (lines: seq<string>)
    ensures lines == KeptLines(text) && AreKept(lines)
  {
    lines := [];
    var raw := RawLines(text);
    for i := 0 to |raw|
      invariant lines == Kept(raw[..i])
    {
      KeptAt(raw, i);
      var line := Strip(raw[i]);
      if line != "" {
        lines := lines + [line];
      }
    }
    assert raw[..|raw|] == raw;
    WordsOfKeptLines(text);
  }
}
