/** Chunking a whole article: each section is cut by its kind, pieces that are too short are
    skipped, and the others are numbered. */
module SmartChunker {
  import opened Wrappers
  import opened Text
  import opened TextLines
  import opened Chunker
  import BusinessCases
  import Ids = ChunkIds
  import Seqs = Sequences
  import Split = ChunkSplitters

  const MIN_WORDS := 4
  const KEY_POINT_WORDS := 120
  const SIZE := 220
  const OVERLAP := 35

  /** The recognisers of lines and sections. */
  datatype Rules = Rules(
    headings: Headings,
    cases: BusinessCases.Recogniser,
    isRule: string -> bool,
    skips: Section -> bool)

  datatype Chunk = Chunk(id: string, kind: string, section: Section, text: string)

  function Filter(lines: seq<string>, keep: string -> bool): seq<string> {
    if lines == [] then [] else (if keep(lines[0]) then [lines[0]] else []) + Filter(lines[1..], keep)
  }

  /** A rule is recognised by its wording or by its length. */
  function RulePieces(rules: Rules, text: string): seq<string> {
    Filter(KeptLines(text), l => rules.isRule(l) || |Words(l)| >= 12)
  }

  function QuestionPieces(text: string): seq<string> {
    Filter(KeptLines(text), l => Split.IsQuestion(l) && |Words(l)| >= 3)
  }

  /** The pieces of a section and their kind. */
  function Pieces(rules: Rules, s: Section): (seq<string>, string) {
    var text := Strip(s.text);
    if s.kind == "rules" then (RulePieces(rules, text), "rule")
    else if s.kind == "faq" then (Split.RenderAll(Split.Entries(None, [], KeptLines(text))), "faq")
    else if s.kind == "questions" then (QuestionPieces(text), "question")
    else if s.kind == "key_points" then (Split.Joined(Split.Collect([], KeptLines(text), KEY_POINT_WORDS)), "key_points")
    else if s.kind == "procedure" then (BusinessCases.CutAll(rules.cases, BusinessCases.Chunks(rules.cases, text)), "business_case")
    else (Split.Joined(Split.SizedWindows(text, SIZE, OVERLAP)), "generic")
  }

  method FilterLines(lines: seq<string>, keep: string -> bool) returns (kept: seq<string>)
    ensures kept == Filter(lines, keep)
  {
    kept := [];
    Seqs.Whole(lines);
    for i := 0 to |lines|
      invariant kept + Filter(lines[i..], keep) == Filter(lines, keep)
    {
      Seqs.DropStep(lines, i);
      if keep(lines[i]) {
        Seqs.Assoc(kept, [lines[i]], Filter(lines[i + 1..], keep));
        kept := kept + [lines[i]];
      } else {
        Seqs.Units(Filter(lines[i + 1..], keep));
      }
    }
    Seqs.Units(kept);
  }

  method CutSection(rules: Rules, s: Section) returns (pieces: seq<string>, kind: string)
    ensures (pieces, kind) == Pieces(rules, s)
  {
    var text := Strip(s.text);
    if s.kind == "rules" {
      var lines := TrimmedLines(text);
      pieces := FilterLines(lines, l => rules.isRule(l) || |Words(l)| >= 12);
      kind := "rule";
    } else if s.kind == "faq" {
      pieces := Split.SplitFaq(text);
      kind := "faq";
    } else if s.kind == "questions" {
      var lines := TrimmedLines(text);
      pieces := FilterLines(lines, l => Split.IsQuestion(l) && |Words(l)| >= 3);
      kind := "question";
    } else if s.kind == "key_points" {
      pieces := Split.SplitKeyPoints(text, KEY_POINT_WORDS);
      kind := "key_points";
    } else if s.kind == "procedure" {
      pieces := BusinessCases.SplitBusinessCases(rules.cases, text);
      kind := "business_case";
    } else {
      pieces := Split.ChunkBySize(text, SIZE, OVERLAP);
      kind := "generic";
    }
  }

  /** The chunks of some pieces, numbered from a counter. */
  function Numbered(kbCode: string, s: Section, kind: string, pieces: seq<string>, counter: nat): seq<Chunk>
    decreases |pieces|
  {
    if pieces == [] then []
    else if |Words(pieces[0])| < MIN_WORDS then Numbered(kbCode, s, kind, pieces[1..], counter)
    else [Chunk(Ids.ChunkId(kbCode, counter), kind, s, Strip(pieces[0]))] + Numbered(kbCode, s, kind, pieces[1..], counter + 1)
  }

  /** A section with its pieces. */
  datatype Cut = Cut(section: Section, pieces: seq<string>, kind: string)

  /** A section is cut unless it is blank or skipped. */
  function CutOf(rules: Rules, s: Section): Option<Cut> {
    if Strip(s.text) == "" || rules.skips(s) then None else Some(Cut(s, Pieces(rules, s).0, Pieces(rules, s).1))
  }

  function CutsOf(rules: Rules, sections: seq<Section>): seq<Cut> {
    if sections == [] then []
    else (if CutOf(rules, sections[0]).Some? then [CutOf(rules, sections[0]).value] else []) + CutsOf(rules, sections[1..])
  }

  function ArticleChunks(kbCode: string, cuts: seq<Cut>, counter: nat): seq<Chunk>
    decreases |cuts|
  {
    if cuts == [] then []
    else
      var first := Numbered(kbCode, cuts[0].section, cuts[0].kind, cuts[0].pieces, counter);
      first + ArticleChunks(kbCode, cuts[1..], counter + |first|)
  }

  /** `smart_chunk_article` */
  function SmartChunks(rules: Rules, kbCode: string, content: string): seq<Chunk> {
    ArticleChunks(kbCode, CutsOf(rules, SectionsOf(rules.headings, content)), 1)
  }

  method NumberPieces(kbCode: string, s: Section, kind: string, pieces: seq<string>, first: nat)
    returns (chunks: seq<Chunk>, counter: nat)
    ensures chunks == Numbered(kbCode, s, kind, pieces, first) && counter == first + |chunks|
  {
    hide Ids.ChunkId;
    hide Words;
    hide Strip;
    chunks, counter := [], first;
    for i := 0 to |pieces|
      invariant chunks + Numbered(kbCode, s, kind, pieces[i..], counter) == Numbered(kbCode, s, kind, pieces, first)
      invariant counter == first + |chunks|
    {
      assert pieces[i..][1..] == pieces[i + 1..];
      if |Words(pieces[i])| >= MIN_WORDS {
        chunks := chunks + [Chunk(Ids.ChunkId(kbCode, counter), kind, s, Strip(pieces[i]))];
        counter := counter + 1;
      }
    }
  }

  lemma {:induction false} NextCut(kbCode: string, cut: Cut, more: seq<Cut>, counter: nat, chunks: seq<Chunk>)
    ensures var first := Numbered(kbCode, cut.section, cut.kind, cut.pieces, counter);
            chunks + ArticleChunks(kbCode, [cut] + more, counter)
            == (chunks + first) + ArticleChunks(kbCode, more, counter + |first|)
  {
    assert ([cut] + more)[1..] == more;
  }

  lemma {:induction false} CutsAt(rules: Rules, sections: seq<Section>, i: nat)
    requires i < |sections|
    ensures CutsOf(rules, sections[i..]) == if CutOf(rules, sections[i]).Some?
                                            then [CutOf(rules, sections[i]).value] + CutsOf(rules, sections[i + 1..])
                                            else CutsOf(rules, sections[i + 1..])
  {
    assert sections[i..][0] == sections[i] && sections[i..][1..] == sections[i + 1..];
  }

  /** One section, unless it is blank or skipped. */
  method TryCut(rules: Rules, s: Section) returns (cut: Option<Cut>)
    ensures cut == CutOf(rules, s)
  {
    if Strip(s.text) == "" || rules.skips(s) {
      return None;
    }
    var pieces, kind := CutSection(rules, s);
    return Some(Cut(s, pieces, kind));
  }

  method CutSections(rules: Rules, sections: seq<Section>) returns (cuts: seq<Cut>)
    ensures cuts == CutsOf(rules, sections)
  {
    cuts := [];
    assert sections[0..] == sections;
    for i := 0 to |sections|
      invariant cuts + CutsOf(rules, sections[i..]) == CutsOf(rules, sections)
    {
      CutsAt(rules, sections, i);
      var cut := TryCut(rules, sections[i]);
      if cut.Some? {
        cuts := cuts + [cut.value];
      }
    }
  }

  /** The counter runs on from section to section. */
  method NumberCuts(kbCode: string, cuts: seq<Cut>) returns (chunks: seq<Chunk>)
    ensures chunks == ArticleChunks(kbCode, cuts, 1)
  {
    hide Numbered;
    chunks := [];
    var counter := 1;
    ghost var all := ArticleChunks(kbCode, cuts, 1);
    Seqs.Whole(cuts);
    Seqs.Units(all);
    for i := 0 to |cuts|
      invariant chunks + ArticleChunks(kbCode, cuts[i..], counter) == all
    {
      Seqs.DropStep(cuts, i);
      NextCut(kbCode, cuts[i], cuts[i + 1..], counter, chunks);
      var more;
      more, counter := NumberPieces(kbCode, cuts[i].section, cuts[i].kind, cuts[i].pieces, counter);
      chunks := chunks + more;
    }
  }

  method SmartChunkArticle(rules: Rules, kbCode: string, content: string) returns (chunks: seq<Chunk>)
    ensures chunks == SmartChunks(rules, kbCode, content)
  {
    var sections := SplitSections(content, rules.headings);
    var cuts := CutSections(rules, sections);
    chunks := NumberCuts(kbCode, cuts);
  }

  // ---------- identifiers ----------

  /** The chunks carry the identifiers from a counter on. */
  predicate IdsFrom(chunks: seq<Chunk>, kbCode: string, counter: nat) {
    chunks == [] || (chunks[0].id == Ids.ChunkId(kbCode, counter) && IdsFrom(chunks[1..], kbCode, counter + 1))
  }

  lemma {:induction false} IdAt(chunks: seq<Chunk>, kbCode: string, counter: nat, i: nat)
    requires IdsFrom(chunks, kbCode, counter) && i < |chunks|
    ensures chunks[i].id == Ids.ChunkId(kbCode, counter + i)
  {
    if i > 0 {
      IdAt(chunks[1..], kbCode, counter + 1, i - 1);
    }
  }

  lemma {:induction false} IdsConcat(a: seq<Chunk>, b: seq<Chunk>, kbCode: string, counter: nat)
    requires IdsFrom(a, kbCode, counter) && IdsFrom(b, kbCode, counter + |a|)
    ensures IdsFrom(a + b, kbCode, counter)
  {
    hide Ids.ChunkId;
    if a == [] {
      Seqs.Units(b);
    } else {
      IdsConcat(a[1..], b, kbCode, counter + 1);
      Seqs.Uncons(a, b);
    }
  }

  lemma {:induction false} NumberedIds(kbCode: string, s: Section, kind: string, pieces: seq<string>, counter: nat)
    ensures IdsFrom(Numbered(kbCode, s, kind, pieces, counter), kbCode, counter)
    decreases |pieces|
  {
    if pieces != [] {
      var skip := |Words(pieces[0])| < MIN_WORDS;
      NumberedIds(kbCode, s, kind, pieces[1..], if skip then counter else counter + 1);
      var all, rest := Numbered(kbCode, s, kind, pieces, counter), Numbered(kbCode, s, kind, pieces[1..], counter + 1);
      assert !skip ==> all[1..] == rest;
    }
  }

  lemma {:induction false} ArticleIds(kbCode: string, cuts: seq<Cut>, counter: nat)
    ensures IdsFrom(ArticleChunks(kbCode, cuts, counter), kbCode, counter)
    decreases |cuts|
  {
    if cuts != [] {
      var first := Numbered(kbCode, cuts[0].section, cuts[0].kind, cuts[0].pieces, counter);
      NumberedIds(kbCode, cuts[0].section, cuts[0].kind, cuts[0].pieces, counter);
      ArticleIds(kbCode, cuts[1..], counter + |first|);
      IdsConcat(first, ArticleChunks(kbCode, cuts[1..], counter + |first|), kbCode, counter);
    }
  }

  /** The chunks of an article are numbered 1, 2, 3, ...: their identifiers are distinct, and
      the loader recovers an index exactly when the code ends in an even number of colons. */
  lemma {:induction false} ArticleIdsAreDistinctAndRecovered(kbCode: string, cuts: seq<Cut>, i: nat, j: nat)
    requires i < j < |ArticleChunks(kbCode, cuts, 1)|
    ensures var cs := ArticleChunks(kbCode, cuts, 1);
            && cs[i].id != cs[j].id
            && (Ids.ParseChunkIndex(cs[j].id, 0) == j + 1 <==> Ids.TrailingColons(kbCode) % 2 == 0)
  {
    hide ArticleChunks;
    hide IdsFrom;
    hide Ids.ChunkId;
    hide Ids.ParseChunkIndex;
    hide Ids.TrailingColons;
    var cs := ArticleChunks(kbCode, cuts, 1);
    ArticleIds(kbCode, cuts, 1);
    IdAt(cs, kbCode, 1, i);
    IdAt(cs, kbCode, 1, j);
    DistinctIndexes(kbCode, 1 + i, 1 + j);
    RecoveredIff(kbCode, 1 + j, cs[j].id);
  }

  lemma {:induction false} RecoveredIff(kbCode: string, index: nat, id: string)
    requires index > 0 && id == Ids.ChunkId(kbCode, index)
    ensures Ids.ParseChunkIndex(id, 0) == index <==> Ids.TrailingColons(kbCode) % 2 == 0
  {
    hide Ids.ParseChunkIndex;
    hide Ids.TrailingColons;
    hide Ids.ChunkId;
    Ids.IndexIsRecoveredIff(kbCode, index);
  }

  lemma {:induction false} DistinctIndexes(kbCode: string, i: nat, j: nat)
    requires i != j
    ensures Ids.ChunkId(kbCode, i) != Ids.ChunkId(kbCode, j)
  {
    if Ids.ChunkId(kbCode, i) == Ids.ChunkId(kbCode, j) {
      Ids.ChunkIdsDiffer(kbCode, i, kbCode, j);
    }
  }
}
