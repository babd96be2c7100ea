/** Cutting a procedure section into business cases, and a case into the cases inside it. */
module BusinessCases {
  import opened Wrappers
  import opened Text
  import opened TextLines
  import Seqs = Sequences

  const CATEGORY := "Cat\U{e9}gorie:"
  const CASE := "Cas:"

  /** How lines are recognised; a title may be recognised by the line after it. */
  datatype Recogniser = Recogniser(
    isCategory: string -> bool,
    isTitle: (string, Option<string>) -> bool,
    isDetail: string -> bool,
    startsLikeCase: string -> bool)

  predicate IsHeader(line: string) {
    CATEGORY <= line || CASE <= line
  }

  function Prefix(category: string): string {
    if category == "" then "" else CATEGORY + " " + category + "\n"
  }

  function After(lines: seq<string>): Option<string> {
    if |lines| > 1 then Some(lines[1]) else None
  }

  function TextsWithWords(texts: seq<string>, least: nat): seq<string> {
    if texts == [] then []
    else (if |Words(texts[0])| >= least then [texts[0]] else []) + TextsWithWords(texts[1..], least)
  }

  // ---------- cases inside a case ----------

  /** A line that starts a piece: it was a case header already, or is made one. */
  datatype Header = Given(line: string) | Added(line: string)

  datatype Piece = Piece(category: string, header: Option<Header>, body: seq<string>)

  const EMPTY := Piece("", None, [])

  /** The lines of a piece as they are joined. */
  function Elements(p: Piece): seq<string> {
    match p.header
    case None => p.body
    case Some(Given(line)) => [Prefix(p.category) + line] + p.body
    case Some(Added(line)) => [Prefix(p.category) + (CASE + " " + line)] + p.body
  }

  /** The lines of the text that a piece holds. */
  function Held(p: Piece): seq<string> {
    (if p.header.Some? then [p.header.value.line] else []) + p.body
  }

  function PieceText(p: Piece): string {
    Strip(Join("\n", Elements(p)))
  }

  function Pieces(current: Piece): seq<Piece> {
    if Held(current) == [] then [] else [current]
  }

  /** Removes every occurrence. */
  function Without(s: string, word: string): string
    requires word != ""
    decreases |s|
  {
    if s == "" then "" else if word <= s then Without(s[|word|..], word) else [s[0]] + Without(s[1..], word)
  }

  predicate Any(lines: seq<string>, p: string -> bool) {
    exists i :: 0 <= i < |lines| && p(lines[i])
  }

  predicate StartsNewCase(r: Recogniser, current: Piece, lines: seq<string>)
    requires lines != []
  {
    var line, next := lines[0], After(lines);
    var inCase := Any(Elements(current), l => CASE <= l);
    r.isTitle(line, next) &&
    (|| Any(Elements(current), r.isDetail)
     || (inCase && r.startsLikeCase(line))
     || (inCase && next.Some? && next.value != "" && r.isDetail(next.value)))
  }

  /** Reading one line: the piece it ends, if any, and what is collected from here on. */
  datatype Cut = Cut(ended: seq<Piece>, category: string, current: Piece)

  function CutAt(r: Recogniser, category: string, current: Piece, lines: seq<string>): Cut
    requires lines != []
  {
    var line := lines[0];
    if CATEGORY <= line then Cut(Pieces(current), Strip(Without(line, CATEGORY)), EMPTY)
    else if CASE <= line then Cut(Pieces(current), category, Piece(category, Some(Given(line)), []))
    else if StartsNewCase(r, current, lines) then Cut([current], category, Piece(category, Some(Added(line)), []))
    else Cut([], category, current.(body := current.body + [line]))
  }

  function Embedded(r: Recogniser, category: string, current: Piece, lines: seq<string>): seq<Piece>
    decreases |lines|
  {
    if lines == [] then Pieces(current)
    else
      var cut := CutAt(r, category, current, lines);
      cut.ended + Embedded(r, cut.category, cut.current, lines[1..])
  }

  function PieceTexts(pieces: seq<Piece>): (t: seq<string>)
    ensures |t| == |pieces| && forall i | 0 <= i < |pieces| :: t[i] == PieceText(pieces[i])
  {
    seq(|pieces|, i requires 0 <= i < |pieces| => PieceText(pieces[i]))
  }

  function LongEnough(r: Recogniser, lines: seq<string>): seq<string> {
    TextsWithWords(PieceTexts(Embedded(r, "", EMPTY, lines)), 4)
  }

  function EmbeddedTexts(r: Recogniser, chunk: string): seq<string> {
    var lines := KeptLines(chunk);
    if |lines| <= 4 then [chunk] else LongEnough(r, lines)
  }

  lemma {:induction false} PieceTextsConcat(a: seq<Piece>, b: seq<Piece>)
    ensures PieceTexts(a + b) == PieceTexts(a) + PieceTexts(b)
  {
  }

  lemma {:induction false} EmbeddedStep(r: Recogniser, category: string, current: Piece, lines: seq<string>,
      i: nat, done: seq<Piece>)
    requires i < |lines|
    ensures var cut := CutAt(r, category, current, lines[i..]);
            done + Embedded(r, category, current, lines[i..])
            == (done + cut.ended) + Embedded(r, cut.category, cut.current, lines[i + 1..])
  {
    assert lines[i..][1..] == lines[i + 1..];
  }

  /** The loop over the lines of a case. */
  method CutCase(r: Recogniser, lines: seq<string>) returns (result: seq<string>)
    ensures result == PieceTexts(Embedded(r, "", EMPTY, lines))
  {
    result := [];
    var current, category := EMPTY, "";
    ghost var done: seq<Piece> := [];
    ghost var all := Embedded(r, category, current, lines);
    assert lines[0..] == lines;
    for i := 0 to |lines|
      invariant result == PieceTexts(done)
      invariant done + Embedded(r, category, current, lines[i..]) == all
    {
      var cut := CutAt(r, category, current, lines[i..]);
      EmbeddedStep(r, category, current, lines, i, done);
      PieceTextsConcat(done, cut.ended);
      result := result + PieceTexts(cut.ended);
      done := done + cut.ended;
      category, current := cut.category, cut.current;
    }
    PieceTextsConcat(done, Pieces(current));
    result := result + PieceTexts(Pieces(current));
  }

  method SplitEmbeddedCases(r: Recogniser, chunk: string) returns (result: seq<string>)
    ensures result == EmbeddedTexts(r, chunk)
  {
    var lines := TrimmedLines(chunk);
    if |lines| <= 4 {
      return [chunk];
    }
    var pieces := CutCase(r, lines);
    result := TextsWithWords(pieces, 4);
  }

  function HeldByEach(pieces: seq<Piece>): (h: seq<seq<string>>)
    ensures |h| == |pieces| && forall i | 0 <= i < |pieces| :: h[i] == Held(pieces[i])
  {
    seq(|pieces|, i requires 0 <= i < |pieces| => Held(pieces[i]))
  }

  function AllHeld(pieces: seq<Piece>): seq<string> {
    Concat(HeldByEach(pieces))
  }

  function NoCategories(lines: seq<string>): seq<string> {
    if lines == [] then [] else (if CATEGORY <= lines[0] then [] else [lines[0]]) + NoCategories(lines[1..])
  }

  lemma {:induction false} AllHeldConcat(a: seq<Piece>, b: seq<Piece>)
    ensures AllHeld(a + b) == AllHeld(a) + AllHeld(b)
  {
    assert HeldByEach(a + b) == HeldByEach(a) + HeldByEach(b);
    ConcatOfConcat(HeldByEach(a), HeldByEach(b));
  }

  lemma {:induction false} PiecesHold(current: Piece)
    ensures AllHeld([]) == [] && AllHeld([current]) == Held(current) && AllHeld(Pieces(current)) == Held(current)
  {
    var held := HeldByEach([current]);
    assert held[1..] == [] && held[0] + [] == held[0];
  }

  lemma {:induction false} CutHolds(r: Recogniser, category: string, current: Piece, lines: seq<string>)
    requires lines != []
    ensures var cut := CutAt(r, category, current, lines);
            AllHeld(cut.ended) + Held(cut.current) == Held(current) + NoCategories([lines[0]])
  {
    PiecesHold(current);
    assert NoCategories([lines[0]]) == if CATEGORY <= lines[0] then [] else [lines[0]];
  }

  lemma {:induction false} NoCategoriesFirst(lines: seq<string>)
    requires lines != []
    ensures NoCategories(lines) == NoCategories([lines[0]]) + NoCategories(lines[1..])
  {
    assert [lines[0]][1..] == [];
  }

  lemma Reassociate<T>(a: seq<T>, b: seq<T>, c: seq<T>)
    ensures a + (b + c) == (a + b) + c
  {
  }

  /** Cutting a case loses no line: the pieces hold all but the category lines, once, in order. */
  lemma {:induction false} EmbeddedConserves(r: Recogniser, category: string, current: Piece, lines: seq<string>)
    ensures AllHeld(Embedded(r, category, current, lines)) == Held(current) + NoCategories(lines)
    decreases |lines|
  {
    if lines == [] {
      PiecesHold(current);
    } else {
      var cut := CutAt(r, category, current, lines);
      CutHolds(r, category, current, lines);
      EmbeddedConserves(r, cut.category, cut.current, lines[1..]);
      AllHeldConcat(cut.ended, Embedded(r, cut.category, cut.current, lines[1..]));
      NoCategoriesFirst(lines);
      Reassociate(AllHeld(cut.ended), Held(cut.current), NoCategories(lines[1..]));
      Reassociate(Held(current), NoCategories([lines[0]]), NoCategories(lines[1..]));
    }
  }

  // ---------- cases of a procedure ----------

  datatype Case = Case(category: string, title: string, body: seq<string>)

  function CaseText(c: Case): string {
    Strip(Join("\n", [Prefix(c.category) + (CASE + " " + c.title)] + c.body))
  }

  /** The lines that are no headers of their own. */
  function Plain(lines: seq<string>): seq<string> {
    if lines == [] then [] else (if IsHeader(lines[0]) then [] else [lines[0]]) + Plain(lines[1..])
  }

  /** A case of a title and little else; it is dropped. */
  predicate TitleOnly(r: Recogniser, c: Case) {
    !Any(Plain(c.body), r.isDetail) && |Plain(c.body)| < 3
  }

  function Dropped(r: Recogniser, cases: seq<Case>): (kept: seq<Case>)
    ensures forall c :: c in kept <==> c in cases && !TitleOnly(r, c)
  {
    if cases == [] then []
    else (if TitleOnly(r, cases[0]) then [] else [cases[0]]) + Dropped(r, cases[1..])
  }

  /** What the scan has: the cases ended so far, the one being read, and the lines before any. */
  datatype Scan = Scan(category: string, intro: seq<string>, current: Option<Case>, cases: seq<Case>)

  const START := Scan("", [], None, [])

  function EndCase(s: Scan): Scan {
    if s.current.Some? then s.(cases := s.cases + [s.current.value], current := None) else s
  }

  /** Reading one line. */
  function ScanLine(r: Recogniser, s: Scan, line: string, next: Option<string>): Scan {
    if r.isCategory(line) then EndCase(s).(category := line)
    else if r.isTitle(line, next) then EndCase(s).(current := Some(Case(s.category, line, [])))
    else if s.current.Some? then s.(current := Some(s.current.value.(body := s.current.value.body + [line])))
    else s.(intro := s.intro + [line])
  }

  function ScanAll(r: Recogniser, s: Scan, lines: seq<string>): Scan
    decreases |lines|
  {
    if lines == [] then EndCase(s) else ScanAll(r, ScanLine(r, s, lines[0], After(lines)), lines[1..])
  }

  function IntroLines(r: Recogniser, intro: seq<string>): seq<string> {
    if intro == [] then []
    else
      (if r.isCategory(intro[0]) || r.isTitle(intro[0], None) || r.isDetail(intro[0]) then [] else [intro[0]])
      + IntroLines(r, intro[1..])
  }

  function IntroTexts(r: Recogniser, intro: seq<string>): seq<string> {
    var text := Strip(Join("\n", IntroLines(r, intro)));
    if IntroLines(r, intro) != [] && |Words(text)| >= 8 then [text] else []
  }

  function CaseTexts(cases: seq<Case>): (t: seq<string>)
    ensures |t| == |cases| && forall i | 0 <= i < |cases| :: t[i] == CaseText(cases[i])
  {
    seq(|cases|, i requires 0 <= i < |cases| => CaseText(cases[i]))
  }

  /** The introduction, then the cases that are not dropped, before the cases inside are cut. */
  function Chunks(r: Recogniser, text: string): seq<string> {
    var s := ScanAll(r, START, KeptLines(text));
    IntroTexts(r, s.intro) + CaseTexts(Dropped(r, s.cases))
  }

  function CutAll(r: Recogniser, chunks: seq<string>): seq<string> {
    if chunks == [] then [] else EmbeddedTexts(r, chunks[0]) + CutAll(r, chunks[1..])
  }

  lemma {:induction false} DroppedAppend(r: Recogniser, cases: seq<Case>, c: Case)
    ensures Dropped(r, cases + [c]) == Dropped(r, cases) + if TitleOnly(r, c) then [] else [c]
  {
    hide TitleOnly;
    if cases == [] {
      Seqs.HeadTail(c, []);
    } else {
      DroppedAppend(r, cases[1..], c);
      Seqs.Uncons(cases, [c]);
      Seqs.Assoc(if TitleOnly(r, cases[0]) then [] else [cases[0]], Dropped(r, cases[1..]), if TitleOnly(r, c) then [] else [c]);
    }
  }

  lemma {:induction false} CaseTextsAppend(cases: seq<Case>, c: Case)
    ensures CaseTexts(cases + [c]) == CaseTexts(cases) + [CaseText(c)]
  {
    hide CaseText;
  }

  /** `flush_case`: the case being read is emitted, unless it is a title only. */
  method FlushCase(r: Recogniser, chunks: seq<string>, current: Option<Case>,
      ghost before: Scan) returns (flushed: seq<string>)
    requires current == before.current && chunks == CaseTexts(Dropped(r, before.cases))
    ensures flushed == CaseTexts(Dropped(r, EndCase(before).cases))
  {
    hide TitleOnly;
    hide Dropped;
    hide CaseText;
    flushed := chunks;
    if current.Some? {
      DroppedAppend(r, before.cases, current.value);
      CaseTextsAppend(Dropped(r, before.cases), current.value);
      Seqs.Units(Dropped(r, before.cases));
      if !TitleOnly(r, current.value) {
        flushed := chunks + [CaseText(current.value)];
      }
    }
  }

  /** The scan of the lines into an introduction and cases. */
  method ScanCases(r: Recogniser, lines: seq<string>) returns (intro: seq<string>, chunks: seq<string>)
    ensures var s := ScanAll(r, START, lines);
            intro == s.intro && chunks == CaseTexts(Dropped(r, s.cases))
  {
    intro, chunks := [], [];
    var category, current := "", None;
    ghost var s := START;
    var i := 0;
    assert lines[0..] == lines;
    while i < |lines|
      invariant i <= |lines| && ScanAll(r, s, lines[i..]) == ScanAll(r, START, lines)
      invariant s.category == category && s.intro == intro && s.current == current
      invariant chunks == CaseTexts(Dropped(r, s.cases))
    {
      var line := lines[i];
      var next := if i + 1 < |lines| then Some(lines[i + 1]) else None;
      assert After(lines[i..]) == next && lines[i..][1..] == lines[i + 1..];
      if r.isCategory(line) {
        chunks := FlushCase(r, chunks, current, s);
        category, current := line, None;
      } else if r.isTitle(line, next) {
        chunks := FlushCase(r, chunks, current, s);
        current := Some(Case(category, line, []));
      } else if current.Some? {
        current := Some(current.value.(body := current.value.body + [line]));
      } else {
        intro := intro + [line];
      }
      s := ScanLine(r, s, line, next);
      i := i + 1;
    }
    chunks := FlushCase(r, chunks, current, s);
  }

  /** Cuts the cases inside each chunk. */
  method CutChunks(r: Recogniser, chunks: seq<string>) returns (pieces: seq<string>)
    ensures pieces == CutAll(r, chunks)
  {
    hide EmbeddedTexts;
    pieces := [];
    Seqs.Whole(chunks);
    for i := 0 to |chunks|
      invariant pieces + CutAll(r, chunks[i..]) == CutAll(r, chunks)
    {
      Seqs.DropStep(chunks, i);
      var cut := SplitEmbeddedCases(r, chunks[i]);
      Seqs.Assoc(pieces, cut, CutAll(r, chunks[i + 1..]));
      pieces := pieces + cut;
    }
  }

  method SplitBusinessCases(r: Recogniser, text: string) returns (pieces: seq<string>)
    ensures pieces == CutAll(r, Chunks(r, text))
  {
    hide CutAll;
    hide IntroTexts;
    hide CaseTexts;
    hide Dropped;
    var lines := TrimmedLines(text);
    var intro, chunks := ScanCases(r, lines);
    pieces := CutChunks(r, IntroTexts(r, intro) + chunks);
  }

  // ---------- what happens to a line ----------

  function CaseLines(c: Case): seq<string> {
    [c.title] + c.body
  }

  function AllCaseLines(cases: seq<Case>): multiset<string> {
    if cases == [] then multiset{} else AllCaseLines(cases[..|cases| - 1]) + multiset(CaseLines(cases[|cases| - 1]))
  }

  /** The lines a scan holds. */
  function ScanLines(s: Scan): multiset<string> {
    multiset(s.intro) + AllCaseLines(s.cases) + if s.current.Some? then multiset(CaseLines(s.current.value)) else multiset{}
  }

  function NoCategoryLines(r: Recogniser, lines: seq<string>): multiset<string> {
    if lines == [] then multiset{}
    else (if r.isCategory(lines[0]) then multiset{} else multiset{lines[0]}) + NoCategoryLines(r, lines[1..])
  }

  lemma {:induction false} EndCaseHolds(s: Scan)
    ensures ScanLines(EndCase(s)) == ScanLines(s) && EndCase(s).current == None
  {
    if s.current.Some? {
      assert EndCase(s).cases[..|s.cases|] == s.cases;
    }
  }

  lemma {:induction false} NewCaseHolds(s: Scan, title: string)
    requires s.current == None
    ensures ScanLines(s.(current := Some(Case(s.category, title, [])))) == ScanLines(s) + multiset{title}
  {
    assert CaseLines(Case(s.category, title, [])) == [title];
  }

  lemma {:induction false} MoreOfCaseHolds(s: Scan, line: string)
    requires s.current.Some?
    ensures ScanLines(s.(current := Some(s.current.value.(body := s.current.value.body + [line])))) == ScanLines(s) + multiset{line}
  {
    hide AllCaseLines;
    var c := s.current.value;
    var more := c.(body := c.body + [line]);
    assert CaseLines(more) == CaseLines(c) + [line] by { Seqs.Assoc([c.title], c.body, [line]); }
    assert multiset(CaseLines(more)) == multiset(CaseLines(c)) + multiset{line};
  }

  lemma {:induction false} ScanLineHolds(r: Recogniser, s: Scan, line: string, next: Option<string>)
    ensures ScanLines(ScanLine(r, s, line, next)) == ScanLines(s) + if r.isCategory(line) then multiset{} else multiset{line}
  {
    EndCaseHolds(s);
    if r.isCategory(line) {
    } else if r.isTitle(line, next) {
      NewCaseHolds(EndCase(s), line);
      assert EndCase(s).category == s.category;
    } else if s.current.Some? {
      MoreOfCaseHolds(s, line);
    } else {
      assert multiset(s.intro + [line]) == multiset(s.intro) + multiset{line};
    }
  }

  /** Every line of the procedure that is no category is a case title, in one case's body or in
      the introduction, exactly once. */
  lemma {:induction false} ScanConserves(r: Recogniser, s: Scan, lines: seq<string>)
    ensures ScanLines(ScanAll(r, s, lines)) == ScanLines(s) + NoCategoryLines(r, lines)
    decreases |lines|
  {
    if lines == [] {
      EndCaseHolds(s);
    } else {
      ScanLineHolds(r, s, lines[0], After(lines));
      ScanConserves(r, ScanLine(r, s, lines[0], After(lines)), lines[1..]);
    }
  }
}
