/** What the chunks of an article hold: which line goes to which piece, and which pieces become
    chunks. */
module ArticleContents {
  import opened Wrappers
  import opened Text
  import opened TextLines
  import opened SmartChunker
  import B = BusinessCases
  import Chunker
  import Ids = ChunkIds
  import Seqs = Sequences
  import Split = ChunkSplitters

  // ---------- the cases of a procedure ----------

  /** The cases read back: a title with its category, or a line of the case before it. */
  datatype Mark = Title(category: string, title: string) | Line(line: string)

  function LineMarks(lines: seq<string>): (m: seq<Mark>)
    ensures |m| == |lines| && forall i | 0 <= i < |lines| :: m[i] == Line(lines[i])
  {
    seq(|lines|, i requires 0 <= i < |lines| => Line(lines[i]))
  }

  function MarksOfCase(c: B.Case): seq<Mark> {
    [Title(c.category, c.title)] + LineMarks(c.body)
  }

  function MarksOf(cases: seq<B.Case>): seq<Mark> {
    if cases == [] then [] else MarksOf(cases[..|cases| - 1]) + MarksOfCase(cases[|cases| - 1])
  }

  /** Every line under the last title before it; a category line ends the case before it and names the
      category of the titles after it. */
  function Marks(r: B.Recogniser, category: string, inCase: bool, lines: seq<string>): seq<Mark>
    decreases |lines|
  {
    if lines == [] then []
    else if r.isCategory(lines[0]) then Marks(r, lines[0], false, lines[1..])
    else if r.isTitle(lines[0], B.After(lines)) then [Title(category, lines[0])] + Marks(r, category, true, lines[1..])
    else if inCase then [Line(lines[0])] + Marks(r, category, true, lines[1..])
    else Marks(r, category, false, lines[1..])
  }

  /** The lines that belong to no case. */
  function Loose(r: B.Recogniser, inCase: bool, lines: seq<string>): seq<string>
    decreases |lines|
  {
    if lines == [] then []
    else if r.isCategory(lines[0]) then Loose(r, false, lines[1..])
    else if r.isTitle(lines[0], B.After(lines)) then Loose(r, true, lines[1..])
    else (if inCase then [] else [lines[0]]) + Loose(r, inCase, lines[1..])
  }

  function ScanMarks(s: B.Scan): seq<Mark> {
    MarksOf(s.cases) + if s.current.Some? then MarksOfCase(s.current.value) else []
  }

  lemma {:induction false} MarksOfMore(cases: seq<B.Case>, c: B.Case)
    ensures MarksOf(cases + [c]) == MarksOf(cases) + MarksOfCase(c)
  {
    Seqs.FrontLast(cases, c);
  }

  lemma {:induction false} EndKeepsMarks(s: B.Scan)
    ensures ScanMarks(B.EndCase(s)) == ScanMarks(s) && B.EndCase(s).current == None && B.EndCase(s).intro == s.intro
    ensures B.EndCase(s).category == s.category && MarksOf(B.EndCase(s).cases) == ScanMarks(s)
  {
    if s.current.Some? {
      MarksOfMore(s.cases, s.current.value);
    }
    Seqs.Units(ScanMarks(B.EndCase(s)));
    Seqs.Units(MarksOf(B.EndCase(s).cases));
  }

  /** Reading one line adds its mark, or adds it to the lines of no case. */
  lemma {:induction false} LineIsPlaced(r: B.Recogniser, s: B.Scan, line: string, next: Option<string>)
    ensures var s' := B.ScanLine(r, s, line, next);
            if r.isCategory(line) then
              ScanMarks(s') == ScanMarks(s) && s'.intro == s.intro && s'.category == line && s'.current.None?
            else if r.isTitle(line, next) then
              && ScanMarks(s') == ScanMarks(s) + [Title(s.category, line)]
              && s'.intro == s.intro && s'.category == s.category && s'.current.Some?
            else
              && ScanMarks(s') == ScanMarks(s) + (if s.current.Some? then [Line(line)] else [])
              && s'.intro == s.intro + (if s.current.Some? then [] else [line])
              && s'.category == s.category && s'.current.Some? == s.current.Some?
  {
    EndKeepsMarks(s);
    Seqs.Units(ScanMarks(s));
    Seqs.Units(s.intro);
    if r.isCategory(line) {
      Seqs.Units(MarksOf(B.EndCase(s).cases));
    } else if r.isTitle(line, next) {
      assert MarksOfCase(B.Case(s.category, line, [])) == [Title(s.category, line)];
    } else if s.current.Some? {
      var c := s.current.value;
      assert MarksOfCase(c.(body := c.body + [line])) == MarksOfCase(c) + [Line(line)];
      Seqs.Assoc(MarksOf(s.cases), MarksOfCase(c), [Line(line)]);
    }
  }

  lemma {:induction false} ScanPlacesFrom(r: B.Recogniser, s: B.Scan, lines: seq<string>)
    ensures var end := B.ScanAll(r, s, lines);
            && MarksOf(end.cases) == ScanMarks(s) + Marks(r, s.category, s.current.Some?, lines)
            && end.intro == s.intro + Loose(r, s.current.Some?, lines)
    decreases |lines|
  {
    hide ScanMarks;
    hide MarksOf;
    hide B.EndCase;
    hide B.ScanLine;
    if lines == [] {
      EndKeepsMarks(s);
      Seqs.Units(ScanMarks(s));
      Seqs.Units(s.intro);
    } else {
      var line, rest := lines[0], lines[1..];
      var s' := B.ScanLine(r, s, line, B.After(lines));
      LineIsPlaced(r, s, line, B.After(lines));
      ScanPlacesFrom(r, s', rest);
      var marks, loose := Marks(r, s'.category, s'.current.Some?, rest), Loose(r, s'.current.Some?, rest);
      Seqs.Assoc(ScanMarks(s), [Title(s.category, line)], marks);
      Seqs.Assoc(ScanMarks(s), [Line(line)], marks);
      Seqs.Assoc(s.intro, [line], loose);
      Seqs.Units(ScanMarks(s));
      Seqs.Units(s.intro);
      Seqs.Units(loose);
    }
  }

  /** A procedure is cut at its titles: the cases, read one after the other, are exactly its titles, each with
      the category that governs it, and behind each the lines up to the next title or category;
      the introduction is the other lines. */
  lemma {:induction false} ScanPlaces(r: B.Recogniser, lines: seq<string>)
    ensures var s := B.ScanAll(r, B.START, lines);
            MarksOf(s.cases) == Marks(r, "", false, lines) && s.intro == Loose(r, false, lines)
  {
    ScanPlacesFrom(r, B.START, lines);
    Seqs.Units(Marks(r, "", false, lines));
    Seqs.Units(Loose(r, false, lines));
  }

  // ---------- which cases stay ----------

  lemma {:induction false} PlainAre(lines: seq<string>)
    ensures forall l :: l in B.Plain(lines) <==> l in lines && !B.IsHeader(l)
  {
    if lines != [] {
      PlainAre(lines[1..]);
    }
  }

  lemma {:induction false} AnyIs(lines: seq<string>, p: string -> bool)
    ensures B.Any(lines, p) <==> exists l :: l in lines && p(l)
  {
    if l :| l in lines && p(l) {
      var i :| 0 <= i < |lines| && lines[i] == l;
    }
  }

  /** A case stays exactly when a line of it, other than the headers, is a detail, or three of them are
      there; the cases that stay keep their order. */
  lemma {:induction false} CaseStaysIff(r: B.Recogniser, before: seq<B.Case>, c: B.Case, after: seq<B.Case>)
    ensures B.Dropped(r, before + [c] + after) ==
            B.Dropped(r, before)
            + (if |B.Plain(c.body)| >= 3 || exists l :: l in c.body && !B.IsHeader(l) && r.isDetail(l) then [c] else [])
            + B.Dropped(r, after)
  {
    PlainAre(c.body);
    AnyIs(B.Plain(c.body), r.isDetail);
    DroppedOfConcat(r, before + [c], after);
    DroppedOfConcat(r, before, [c]);
    assert [c][1..] == [];
    var kept := |B.Plain(c.body)| >= 3 || exists l :: l in c.body && !B.IsHeader(l) && r.isDetail(l);
    assert kept <==> !B.TitleOnly(r, c);
    Seqs.Units(if kept then [c] else []);
  }

  lemma {:induction false} DroppedOfConcat(r: B.Recogniser, a: seq<B.Case>, b: seq<B.Case>)
    ensures B.Dropped(r, a + b) == B.Dropped(r, a) + B.Dropped(r, b)
  {
    hide B.TitleOnly;
    if a == [] {
      Seqs.Units(b);
      Seqs.Units(B.Dropped(r, b));
    } else {
      DroppedOfConcat(r, a[1..], b);
      Seqs.Uncons(a, b);
      Seqs.Assoc(if B.TitleOnly(r, a[0]) then [] else [a[0]], B.Dropped(r, a[1..]), B.Dropped(r, b));
    }
  }

  /** The introduction is emitted exactly when what is left of it, without titles, categories and details,
      has eight words. */
  lemma {:induction false} IntroIsEmittedIff(r: B.Recogniser, intro: seq<string>)
    requires AreKept(intro)
    ensures var lines := B.IntroLines(r, intro);
            && (forall l :: l in lines <==> l in intro && !r.isCategory(l) && !r.isTitle(l, None) && !r.isDetail(l))
            && |B.IntroTexts(r, intro)| == (if |WordsOfLines(lines)| >= 8 then 1 else 0)
            && (|WordsOfLines(lines)| >= 8 ==> Words(B.IntroTexts(r, intro)[0]) == WordsOfLines(lines))
  {
    var lines := B.IntroLines(r, intro);
    IntroLinesAre(r, intro);
    if lines == [] {
      assert WordsOfLines(lines) == [];
    } else {
      assert AreKept(lines) by {
        forall i | 0 <= i < |lines| ensures IsKept(lines[i]) {
          assert lines[i] in lines && lines[i] in intro;
          var j :| 0 <= j < |intro| && intro[j] == lines[i];
        }
      }
      hide Words;
      hide IsKept;
      JoinedWords(lines);
    }
  }

  lemma {:induction false} IntroLinesAre(r: B.Recogniser, intro: seq<string>)
    ensures forall l :: l in B.IntroLines(r, intro) <==> l in intro && !r.isCategory(l) && !r.isTitle(l, None) && !r.isDetail(l)
  {
    if intro != [] {
      IntroLinesAre(r, intro[1..]);
    }
  }

  lemma {:induction false} JoinedWords(lines: seq<string>)
    requires AreKept(lines) && lines != []
    ensures Words(Strip(Join("\n", lines))) == WordsOfLines(lines)
  {
    hide Words;
    JoinOfKept("\n", lines);
    KeptLinesOfJoin(lines);
    WordsOfKeptLines(Join("\n", lines));
  }

  // ---------- cases inside a case ----------

  /** Nothing in the body of a piece could have started a new piece: not a title behind a detail, nor a title
      in a case that starts like a case or is followed by a detail. */
  ghost predicate Uncut(r: B.Recogniser, p: B.Piece) {
    forall j | 0 <= j < |p.body| - 1 :: Belongs(r, p, j)
  }

  ghost predicate Belongs(r: B.Recogniser, p: B.Piece, j: nat)
    requires j < |p.body| - 1
  {
    var before := B.Elements(p.(body := p.body[..j]));
    && !(B.CATEGORY <= p.body[j]) && !(B.CASE <= p.body[j])
    && (r.isTitle(p.body[j], Some(p.body[j + 1])) ==>
          && !(exists l :: l in before && r.isDetail(l))
          && ((exists l :: l in before && B.CASE <= l) ==>
                !r.startsLikeCase(p.body[j]) && (p.body[j + 1] == "" || !r.isDetail(p.body[j + 1]))))
  }

  /** The line that starts a piece is a case header or, where a header was added to it, a title. */
  ghost predicate HeaderFits(r: B.Recogniser, p: B.Piece) {
    match p.header
    case None => true
    case Some(Given(line)) => B.CASE <= line
    case Some(Added(line)) => exists next :: r.isTitle(line, next)
  }

  /** All lines of the body but the last are known to belong to it, and the last if what follows says so. */
  ghost predicate Growing(r: B.Recogniser, p: B.Piece, next: Option<string>) {
    && Uncut(r, p) && HeaderFits(r, p)
    && (p.body != [] && next.Some? && !(B.CATEGORY <= next.value) && !(B.CASE <= next.value) ==>
          Belongs(r, p.(body := p.body + [next.value]), |p.body| - 1))
  }

  lemma {:induction false} BelongsByPrefix(r: B.Recogniser, p: B.Piece, more: seq<string>, j: nat)
    requires j < |p.body| - 1
    ensures Belongs(r, p.(body := p.body + more), j) <==> Belongs(r, p, j)
  {
    assert (p.body + more)[..j] == p.body[..j];
  }

  lemma {:induction false} LineBelongs(r: B.Recogniser, category: string, p: B.Piece, lines: seq<string>)
    requires |lines| > 1 && B.CutAt(r, category, p, lines).current == p.(body := p.body + [lines[0]])
    requires !(B.CATEGORY <= lines[0]) && !(B.CASE <= lines[0]) && !B.StartsNewCase(r, p, lines)
    ensures Belongs(r, p.(body := p.body + [lines[0]] + [lines[1]]), |p.body|)
  {
    var grown := p.(body := p.body + [lines[0]] + [lines[1]]);
    assert grown.body[..|p.body|] == p.body;
    assert B.Elements(grown.(body := p.body)) == B.Elements(p);
    AnyIs(B.Elements(p), r.isDetail);
    AnyIs(B.Elements(p), l => B.CASE <= l);
  }

  /** A line that starts no piece is added to the one before. */
  lemma {:induction false} LineKeepsGrowing(r: B.Recogniser, category: string, p: B.Piece, lines: seq<string>)
    requires lines != [] && Growing(r, p, Some(lines[0]))
    requires !(B.CATEGORY <= lines[0]) && !(B.CASE <= lines[0]) && !B.StartsNewCase(r, p, lines)
    ensures Growing(r, p.(body := p.body + [lines[0]]), B.After(lines))
  {
    var grown := p.(body := p.body + [lines[0]]);
    if |lines| > 1 {
      LineBelongs(r, category, p, lines);
    }
    hide Belongs;
    hide B.StartsNewCase;
    forall j | 0 <= j < |grown.body| - 1 ensures Belongs(r, grown, j) {
      if j < |p.body| - 1 {
        BelongsByPrefix(r, p, [lines[0]], j);
      }
    }
  }

  lemma {:induction false} NewPieceGrows(r: B.Recogniser, p: B.Piece, next: Option<string>)
    requires p.body == [] && HeaderFits(r, p)
    ensures Growing(r, p, next)
  {
  }

  lemma {:induction false} CutKeepsGrowing(r: B.Recogniser, category: string, p: B.Piece, lines: seq<string>)
    requires lines != [] && Growing(r, p, Some(lines[0]))
    ensures var cut := B.CutAt(r, category, p, lines);
            && Growing(r, cut.current, B.After(lines))
            && forall q :: q in cut.ended ==> Uncut(r, q) && HeaderFits(r, q)
  {
    var line := lines[0];
    GrowingFits(r, p, Some(line));
    if !(B.CATEGORY <= line) && !(B.CASE <= line) && !B.StartsNewCase(r, p, lines) {
      LineKeepsGrowing(r, category, p, lines);
    } else {
      var cut := B.CutAt(r, category, p, lines);
      assert HeaderFits(r, cut.current);
      NewPieceGrows(r, cut.current, B.After(lines));
    }
    hide Growing;
    hide Uncut;
    hide HeaderFits;
  }

  /** No piece of a case holds another case, and every piece starts where the text has a case or a title. */
  lemma {:induction false} NoCaseInside(r: B.Recogniser, category: string, p: B.Piece, lines: seq<string>)
    requires Growing(r, p, if lines == [] then None else Some(lines[0]))
    ensures forall q :: q in B.Embedded(r, category, p, lines) ==> Uncut(r, q) && HeaderFits(r, q)
    decreases |lines|
  {
    hide Growing;
    if lines == [] {
      assert Uncut(r, p) && HeaderFits(r, p) by { GrowingFits(r, p, None); }
    } else {
      var cut := B.CutAt(r, category, p, lines);
      CutKeepsGrowing(r, category, p, lines);
      hide B.CutAt;
      NoCaseInside(r, cut.category, cut.current, lines[1..]);
    }
  }

  lemma GrowingFits(r: B.Recogniser, p: B.Piece, next: Option<string>)
    requires Growing(r, p, next)
    ensures Uncut(r, p) && HeaderFits(r, p)
  {
  }

  /** A case of more than four lines is so cut, and its pieces of four words or more are kept, in order; a
      shorter one stays as it is. */
  lemma {:induction false} CasesInsideAreCut(r: B.Recogniser, chunk: string)
    ensures var lines := KeptLines(chunk); var pieces := B.Embedded(r, "", B.EMPTY, lines);
            && (forall q :: q in pieces ==> Uncut(r, q) && HeaderFits(r, q))
            && (|lines| <= 4 ==> B.EmbeddedTexts(r, chunk) == [chunk])
            && (|lines| > 4 ==> forall t :: t in B.EmbeddedTexts(r, chunk) <==>
                  |Words(t)| >= 4 && exists q :: q in pieces && B.PieceText(q) == t)
  {
    hide Words;
    hide KeptLines;
    hide B.PieceText;
    var lines := KeptLines(chunk);
    var pieces := B.Embedded(r, "", B.EMPTY, lines);
    assert Growing(r, B.EMPTY, if lines == [] then None else Some(lines[0]));
    NoCaseInside(r, "", B.EMPTY, lines);
    hide B.Embedded;
    LongTexts(B.PieceTexts(pieces), 4);
    forall t ensures t in B.PieceTexts(pieces) <==> exists q :: q in pieces && B.PieceText(q) == t {
      if t in B.PieceTexts(pieces) {
        var i :| 0 <= i < |pieces| && B.PieceTexts(pieces)[i] == t;
        assert pieces[i] in pieces;
      }
    }
  }

  lemma {:induction false} LongTexts(texts: seq<string>, least: nat)
    ensures forall t :: t in B.TextsWithWords(texts, least) <==> t in texts && |Words(t)| >= least
  {
    hide Words;
    if texts != [] {
      LongTexts(texts[1..], least);
    }
  }

  /** The texts kept, and the pieces of several cases, come in order. */
  lemma {:induction false} CutAllKeepsOrder(r: B.Recogniser, a: seq<string>, b: seq<string>)
    ensures B.CutAll(r, a + b) == B.CutAll(r, a) + B.CutAll(r, b)
    ensures B.TextsWithWords(a + b, 4) == B.TextsWithWords(a, 4) + B.TextsWithWords(b, 4)
  {
    hide B.EmbeddedTexts;
    hide Words;
    if a == [] {
      Seqs.Units(b);
      Seqs.Units(B.CutAll(r, b));
      Seqs.Units(B.TextsWithWords(b, 4));
    } else {
      CutAllKeepsOrder(r, a[1..], b);
      Seqs.Uncons(a, b);
      Seqs.Assoc(B.EmbeddedTexts(r, a[0]), B.CutAll(r, a[1..]), B.CutAll(r, b));
      Seqs.Assoc(if |Words(a[0])| >= 4 then [a[0]] else [], B.TextsWithWords(a[1..], 4), B.TextsWithWords(b, 4));
    }
  }

  // ---------- pieces by kind ----------

  lemma {:induction false} FilterOfConcat(a: seq<string>, b: seq<string>, keep: string -> bool)
    ensures Filter(a + b, keep) == Filter(a, keep) + Filter(b, keep)
  {
    if a == [] {
      Seqs.Units(b);
      Seqs.Units(Filter(b, keep));
    } else {
      FilterOfConcat(a[1..], b, keep);
      Seqs.Uncons(a, b);
      Seqs.Assoc(if keep(a[0]) then [a[0]] else [], Filter(a[1..], keep), Filter(b, keep));
    }
  }

  lemma {:induction false} FilteredAre(lines: seq<string>, keep: string -> bool)
    ensures forall l :: l in Filter(lines, keep) <==> l in lines && keep(l)
  {
    if lines != [] {
      FilteredAre(lines[1..], keep);
    }
  }

  /** The pieces of a section of rules are its lines worded like rules or of twelve words; those of a section of
      questions its lines of three words that end in a question mark. */
  lemma {:induction false} LineIsPieceIff(rules: Rules, s: Chunker.Section, line: string)
    ensures s.kind == "rules" ==>
              && Pieces(rules, s).1 == "rule"
              && (line in Pieces(rules, s).0 <==> line in KeptLines(Strip(s.text)) && (rules.isRule(line) || |Words(line)| >= 12))
    ensures s.kind == "questions" ==>
              && Pieces(rules, s).1 == "question"
              && (line in Pieces(rules, s).0 <==>
                    line in KeptLines(Strip(s.text)) && line != "" && line[|line| - 1] == '?' && |Words(line)| >= 3)
  {
    hide Words;
    hide KeptLines;
    hide Strip;
    var lines := KeptLines(Strip(s.text));
    FilteredAre(lines, l => rules.isRule(l) || |Words(l)| >= 12);
    FilteredAre(lines, l => Split.IsQuestion(l) && |Words(l)| >= 3);
  }

  /** Key points are grouped up to 120 words without losing one; frequent questions are kept with their answers
      if there is any question; and a section of no special kind is covered by windows of 220 words
      that repeat 35. */
  lemma {:induction false} SectionIsCovered(rules: Rules, s: Chunker.Section)
    ensures var (pieces, kind) := Pieces(rules, s); var text := Strip(s.text);
            && (s.kind == "key_points" ==>
                  && kind == "key_points" && Concat(Split.WordsOfEach(pieces)) == Words(text)
                  && forall i | 0 <= i < |pieces| - 1 :: |Words(pieces[i])| >= 120)
            && (s.kind == "faq" ==>
                  && kind == "faq"
                  && exists entries: seq<Split.Entry> ::
                       && pieces == Split.RenderAll(entries) && Split.WellAsked(entries)
                       && (entries != [] ==> multiset(Split.EntryLines(entries)) == multiset(KeptLines(text)))
                       && (entries == [] <==> forall l :: l in KeptLines(text) ==> !Split.IsQuestion(l)))
            && (s.kind == "procedure" ==> kind == "business_case" && pieces == B.CutAll(rules.cases, B.Chunks(rules.cases, text)))
            && (s.kind !in {"rules", "faq", "questions", "key_points", "procedure"} ==>
                  && kind == "generic" && Split.Unlap(Split.WordsOfEach(pieces), 35) == Words(text)
                  && Split.FullAndOverlapping(Split.WordsOfEach(pieces), 220, 35))
  {
    hide Words;
    hide KeptLines;
    hide Strip;
    hide RulePieces;
    hide QuestionPieces;
    hide B.CutAll;
    hide B.Chunks;
    hide Split.Entries;
    hide Split.Collect;
    hide Split.SizedWindows;
    var text := Strip(s.text);
    if s.kind == "key_points" {
      Split.KeyPointsKeepEveryWord(text, 120);
      KeptLinesAreKept(text);
      GroupsAreFull(Split.Collect([], KeptLines(text), 120), 120);
    } else if s.kind == "faq" {
      FaqIsKept(KeptLines(text));
    } else if s.kind !in {"rules", "questions", "procedure"} {
      Split.SizedChunksCover(text, 220, 35);
    }
  }

  lemma {:induction false} KeptLinesAreKept(text: string)
    ensures AreKept(KeptLines(text))
  {
    WordsOfKeptLines(text);
  }

  lemma {:induction false} GroupsAreFull(groups: seq<seq<string>>, maxWords: nat)
    requires Split.WellGrouped(groups, maxWords)
    ensures forall i | 0 <= i < |groups| - 1 :: |Words(Split.Joined(groups)[i])| >= maxWords
  {
    hide Words;
    hide Join;
    if |groups| > 1 {
      GroupsAreFull(groups[1..], maxWords);
      assert forall i | 0 < i < |groups| :: Split.Joined(groups)[i] == Split.Joined(groups[1..])[i - 1];
    }
  }

  lemma {:induction false} FaqIsKept(lines: seq<string>)
    ensures var entries := Split.Entries(None, [], lines);
            && Split.WellAsked(entries)
            && (entries != [] ==> multiset(Split.EntryLines(entries)) == multiset(lines))
            && (entries == [] <==> forall l :: l in lines ==> !Split.IsQuestion(l))
  {
    var entries, k := Split.Entries(None, [], lines), Split.FirstQuestion(lines);
    Split.FaqKeepsLinesIff(lines);
    hide Split.Entries;
    if k < |lines| {
      assert lines[k] in lines;
      assert entries != [] by {
        if entries == [] { Split.NoEntryLines(); }
      }
    }
  }

  // ---------- chunks ----------

  /** What a chunk shows of a piece. */
  datatype Shown = Shown(kind: string, section: Chunker.Section, text: string)

  function ShownBy(chunks: seq<Chunk>): (s: seq<Shown>)
    ensures |s| == |chunks| && forall i | 0 <= i < |chunks| :: s[i] == Shown(chunks[i].kind, chunks[i].section, chunks[i].text)
  {
    seq(|chunks|, i requires 0 <= i < |chunks| => Shown(chunks[i].kind, chunks[i].section, chunks[i].text))
  }

  /** The pieces of four words or more, trimmed. */
  function LongPieces(cut: Cut, pieces: seq<string>): seq<Shown> {
    if pieces == [] then []
    else (if |Words(pieces[0])| < 4 then [] else [Shown(cut.kind, cut.section, Strip(pieces[0]))]) + LongPieces(cut, pieces[1..])
  }

  function AllLongPieces(cuts: seq<Cut>): seq<Shown> {
    if cuts == [] then [] else LongPieces(cuts[0], cuts[0].pieces) + AllLongPieces(cuts[1..])
  }

  lemma {:induction false} NumberedShow(kbCode: string, cut: Cut, pieces: seq<string>, counter: nat)
    ensures ShownBy(Numbered(kbCode, cut.section, cut.kind, pieces, counter)) == LongPieces(cut, pieces)
    decreases |pieces|
  {
    hide Words;
    hide Strip;
    hide Ids.ChunkId;
    if pieces != [] {
      var long := |Words(pieces[0])| >= 4;
      NumberedShow(kbCode, cut, pieces[1..], if long then counter + 1 else counter);
      var rest := Numbered(kbCode, cut.section, cut.kind, pieces[1..], counter + 1);
      assert long ==> ShownBy(Numbered(kbCode, cut.section, cut.kind, pieces, counter))
                      == [Shown(cut.kind, cut.section, Strip(pieces[0]))] + ShownBy(rest);
    }
  }

  lemma {:induction false} ShownOfConcat(a: seq<Chunk>, b: seq<Chunk>)
    ensures ShownBy(a + b) == ShownBy(a) + ShownBy(b)
  {
  }

  /** The chunks of an article show exactly the pieces of its sections that have four words, trimmed, each with its
      kind and section, in order. */
  lemma {:induction false} ChunksShowPieces(kbCode: string, cuts: seq<Cut>, counter: nat)
    ensures ShownBy(ArticleChunks(kbCode, cuts, counter)) == AllLongPieces(cuts)
    decreases |cuts|
  {
    if cuts != [] {
      var first := Numbered(kbCode, cuts[0].section, cuts[0].kind, cuts[0].pieces, counter);
      NumberedShow(kbCode, cuts[0], cuts[0].pieces, counter);
      ChunksShowPieces(kbCode, cuts[1..], counter + |first|);
      var rest := ArticleChunks(kbCode, cuts[1..], counter + |first|);
      ShownOfConcat(first, rest);
      hide Numbered;
      hide LongPieces;
      assert ArticleChunks(kbCode, cuts, counter) == first + rest;
      hide ArticleChunks;
    }
  }

  /** A section is cut exactly when it is neither blank nor one to skip, and sections keep their order. */
  lemma {:induction false} SectionIsCutIff(rules: Rules, before: seq<Chunker.Section>, s: Chunker.Section,
      after: seq<Chunker.Section>)
    ensures CutsOf(rules, before + [s] + after) ==
            CutsOf(rules, before)
            + (if Words(s.text) == [] || rules.skips(s) then [] else [Cut(s, Pieces(rules, s).0, Pieces(rules, s).1)])
            + CutsOf(rules, after)
  {
    hide Pieces;
    CutsOfConcat(rules, before + [s], after);
    CutsOfConcat(rules, before, [s]);
    BlankIff(s.text);
    assert [s][1..] == [];
    Seqs.Units(if CutOf(rules, s).Some? then [CutOf(rules, s).value] else []);
  }

  lemma {:induction false} BlankIff(text: string)
    ensures Strip(text) == "" <==> Words(text) == []
  {
    StripKeepsWords(text);
    StrippedRight(StripLeft(text));
    if Strip(text) != "" && Words(text) == [] {
      OnlySpaces(Strip(text));
    }
  }

  lemma {:induction false} OnlySpaces(s: string)
    requires Words(s) == []
    ensures forall i | 0 <= i < |s| :: IsSpace(s[i])
  {
    hide IsSpace;
    if s != "" {
      assert IsSpace(s[0]);
      OnlySpaces(s[1..]);
      assert forall i | 0 < i < |s| :: s[i] == s[1..][i - 1];
    }
  }

  lemma {:induction false} CutsOfConcat(rules: Rules, a: seq<Chunker.Section>, b: seq<Chunker.Section>)
    ensures CutsOf(rules, a + b) == CutsOf(rules, a) + CutsOf(rules, b)
  {
    hide CutOf;
    if a == [] {
      Seqs.Units(b);
      Seqs.Units(CutsOf(rules, b));
    } else {
      CutsOfConcat(rules, a[1..], b);
      Seqs.Uncons(a, b);
      Seqs.Assoc(if CutOf(rules, a[0]).Some? then [CutOf(rules, a[0]).value] else [], CutsOf(rules, a[1..]), CutsOf(rules, b));
    }
  }

  // ---------- lines ----------

  /** A line of a text holds none of the characters at which Python breaks lines. */
  lemma {:induction false} LinesHaveNoBreak(text: string)
    ensures forall line, c :: line in KeptLines(text) && c in line ==>
              c !in {'\n', '\r', '\U{b}', '\U{c}', '\U{1c}', '\U{1d}', '\U{1e}', '\U{85}', '\U{2028}', '\U{2029}'}
    ensures forall line :: line in KeptLines(text) ==> line != "" && !IsSpace(line[0]) && !IsSpace(line[|line| - 1])
  {
    WordsOfKeptLines(text);
    hide IsSpace;
    var lines := KeptLines(text);
    forall line | line in lines ensures IsKept(line) {
      var i :| 0 <= i < |lines| && lines[i] == line;
    }
  }

  // ---------- the words of a case ----------

  lemma {:induction false} StripKeepsWords(text: string)
    ensures Words(Strip(text)) == Words(text)
  {
    StrippedLeft(text);
    StrippedRight(StripLeft(text));
  }

  lemma {:induction false} PrefixedWords(category: string, header: string)
    ensures Words(B.Prefix(category) + header) ==
            (if category == "" then [] else ["Cat\U{e9}gorie:"] + Words(category)) + Words(header)
  {
    hide Words;
    if category == "" {
      Seqs.Units(header);
      Seqs.Units(Words(header));
    } else {
      var line := "Cat\U{e9}gorie:" + " " + category;
      assert B.Prefix(category) + header == line + ("\n" + header);
      Split.WordsOfTwoLines(line, header);
      Split.LabelledWords("Cat\U{e9}gorie:", category);
    }
  }

  lemma {:induction false} HeadedWords(head: string, body: seq<string>)
    requires AreKept(body)
    ensures Words(Strip(Join("\n", [head] + body))) == Words(head) + WordsOfLines(body)
  {
    hide Words;
    hide Strip;
    StripKeepsWords(Join("\n", [head] + body));
    if body == [] {
      Seqs.Units([head]);
      Seqs.Units(Words(head));
      assert WordsOfLines(body) == [];
    } else {
      assert ([head] + body)[1..] == body;
      assert Join("\n", [head] + body) == head + "\n" + Join("\n", body);
      Seqs.Assoc(head, "\n", Join("\n", body));
      Split.WordsOfTwoLines(head, Join("\n", body));
      StripKeepsWords(Join("\n", body));
      JoinedWords(body);
    }
  }

  /** The chunk of a case names its category, if it has one, and its title, each behind its label, and has all
      its lines. */
  lemma {:induction false} CaseTextShowsCase(c: B.Case)
    requires AreKept(c.body)
    ensures Words(B.CaseText(c)) ==
            (if c.category == "" then [] else ["Cat\U{e9}gorie:"] + Words(c.category))
            + (["Cas:"] + Words(c.title)) + WordsOfLines(c.body)
  {
    hide Words;
    hide Strip;
    var header := "Cas:" + " " + c.title;
    PrefixedWords(c.category, header);
    Split.LabelledWords("Cas:", c.title);
    HeadedWords(B.Prefix(c.category) + header, c.body);
    hide B.Prefix;
    hide Join;
    assert B.CaseText(c) == Strip(Join("\n", [B.Prefix(c.category) + header] + c.body));
  }

  /** And so does a piece of a case; the label is added where the text has none. */
  lemma {:induction false} PieceTextShowsPiece(p: B.Piece)
    requires AreKept(p.body) && (p.header.None? ==> p.body != [])
    ensures Words(B.PieceText(p)) ==
            match p.header
            case None => WordsOfLines(p.body)
            case Some(Given(line)) =>
              (if p.category == "" then [] else ["Cat\U{e9}gorie:"] + Words(p.category)) + Words(line) + WordsOfLines(p.body)
            case Some(Added(line)) =>
              (if p.category == "" then [] else ["Cat\U{e9}gorie:"] + Words(p.category)) + (["Cas:"] + Words(line)) + WordsOfLines(p.body)
  {
    hide Words;
    hide Strip;
    hide B.Prefix;
    hide Join;
    match p.header {
      case None => JoinedWords(p.body);
      case Some(Given(line)) =>
        PrefixedWords(p.category, line);
        HeadedWords(B.Prefix(p.category) + line, p.body);
      case Some(Added(line)) =>
        var header := "Cas:" + " " + line;
        PrefixedWords(p.category, header);
        Split.LabelledWords("Cas:", line);
        HeadedWords(B.Prefix(p.category) + header, p.body);
        assert B.PieceText(p) == Strip(Join("\n", [B.Prefix(p.category) + header] + p.body));
    }
  }
}
