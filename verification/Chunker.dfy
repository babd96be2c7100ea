/** Splitting an article into sections and a section into pieces. */
module Chunker {
  import opened Wrappers
  import opened Text
  import opened TextLines
  import Seqs = Sequences

  // ---------- sections ----------

  datatype Section = Section(kind: string, title: string, text: string)

  /** How a line is recognised as a heading, and the title that a heading gives. */
  datatype Headings = Headings(detect: string -> Option<string>, title: string -> string)

  /** A line under the heading that governs it. */
  datatype Placed = Placed(kind: string, title: string, line: string)

  /** Every line that is no heading, under the last heading before it. */
  function Place(h: Headings, kind: string, title: string, lines: seq<string>): seq<Placed>
    decreases |lines|
  {
    if lines == [] then []
    else if h.detect(lines[0]).Some? then Place(h, h.detect(lines[0]).value, h.title(lines[0]), lines[1..])
    else [Placed(kind, title, lines[0])] + Place(h, kind, title, lines[1..])
  }

  function PlaceAll(kind: string, title: string, lines: seq<string>): seq<Placed> {
    if lines == [] then [] else [Placed(kind, title, lines[0])] + PlaceAll(kind, title, lines[1..])
  }

  /** What the sections hold, read back from their texts. */
  function Contents(sections: seq<Section>): seq<Placed> {
    if sections == [] then []
    else PlaceAll(sections[0].kind, sections[0].title, KeptLines(sections[0].text)) + Contents(sections[1..])
  }

  /** Ends the section that is being collected, if it has any line. */
  function Ended(kind: string, title: string, buffer: seq<string>): seq<Section> {
    if buffer == [] then [] else [Section(kind, title, Strip(Join("\n", buffer)))]
  }

  /** Reading on under a heading, with the lines collected since. */
  function Sections(h: Headings, kind: string, title: string, buffer: seq<string>, lines: seq<string>): seq<Section>
    decreases |lines|
  {
    if lines == [] then Ended(kind, title, buffer)
    else if h.detect(lines[0]).Some? then
      Ended(kind, title, buffer) + Sections(h, h.detect(lines[0]).value, h.title(lines[0]), [], lines[1..])
    else Sections(h, kind, title, buffer + [lines[0]], lines[1..])
  }

  function SectionsOf(h: Headings, text: string): seq<Section> {
    Sections(h, "generic", "Global", [], KeptLines(text))
  }

  method SplitSections(text: string, h: Headings) returns (sections: seq<Section>)
    ensures sections == SectionsOf(h, text)
  {
    hide Ended;
    sections := [];
    var kind, title, buffer := "generic", "Global", [];
    var lines := TrimmedLines(text);
    ghost var all := Sections(h, kind, title, buffer, lines);
    Seqs.Whole(lines);
    for i := 0 to |lines|
      invariant sections + Sections(h, kind, title, buffer, lines[i..]) == all
    {
      Seqs.DropStep(lines, i);
      var detected := h.detect(lines[i]);
      if detected.Some? {
        ghost var rest := Sections(h, detected.value, h.title(lines[i]), [], lines[i + 1..]);
        Seqs.Assoc(sections, Ended(kind, title, buffer), rest);
        sections := sections + Ended(kind, title, buffer);
        kind, title, buffer := detected.value, h.title(lines[i]), [];
      } else {
        buffer := buffer + [lines[i]];
      }
    }
    sections := sections + Ended(kind, title, buffer);
  }

  // ---------- no line is lost ----------

  lemma {:induction false} PlaceAllAppend(kind: string, title: string, lines: seq<string>, line: string)
    ensures PlaceAll(kind, title, lines + [line]) == PlaceAll(kind, title, lines) + [Placed(kind, title, line)]
  {
    if lines != [] {
      PlaceAllAppend(kind, title, lines[1..], line);
      assert (lines + [line])[1..] == lines[1..] + [line];
    }
  }

  lemma {:induction false} SectionText(lines: seq<string>)
    requires AreKept(lines) && lines != []
    ensures Strip(Join("\n", lines)) != "" && KeptLines(Strip(Join("\n", lines))) == lines
  {
    JoinOfKept("\n", lines);
    KeptLinesOfJoin(lines);
  }

  predicate NoneEmpty(sections: seq<Section>) {
    forall j | 0 <= j < |sections| :: sections[j].text != ""
  }

  lemma {:induction false} ContentsAfter(kind: string, title: string, buffer: seq<string>, sections: seq<Section>)
    requires AreKept(buffer)
    ensures Contents(Ended(kind, title, buffer) + sections) == PlaceAll(kind, title, buffer) + Contents(sections)
    ensures NoneEmpty(sections) ==> NoneEmpty(Ended(kind, title, buffer) + sections)
  {
    var all := Ended(kind, title, buffer) + sections;
    if buffer == [] {
      assert all == sections;
    } else {
      SectionText(buffer);
      assert all[1..] == sections;
    }
  }

  lemma {:induction false} SectionsHold(h: Headings, kind: string, title: string, buffer: seq<string>,
      lines: seq<string>)
    requires AreKept(buffer) && AreKept(lines)
    ensures var sections := Sections(h, kind, title, buffer, lines);
            NoneEmpty(sections) && Contents(sections) == PlaceAll(kind, title, buffer) + Place(h, kind, title, lines)
    decreases |lines|
  {
    hide Ended;
    hide Contents;
    hide IsKept;
    hide NoneEmpty;
    if lines == [] {
      NothingYet();
      ContentsAfter(kind, title, buffer, []);
      Seqs.Units(Ended(kind, title, buffer));
      Seqs.Units(PlaceAll(kind, title, buffer));
    } else if h.detect(lines[0]).Some? {
      var kind', title' := h.detect(lines[0]).value, h.title(lines[0]);
      var rest := Sections(h, kind', title', [], lines[1..]);
      SectionsHold(h, kind', title', [], lines[1..]);
      ContentsAfter(kind, title, buffer, rest);
      Seqs.Units(Place(h, kind', title', lines[1..]));
    } else {
      SectionsHold(h, kind, title, buffer + [lines[0]], lines[1..]);
      PlaceAllAppend(kind, title, buffer, lines[0]);
      Seqs.Assoc(PlaceAll(kind, title, buffer), [Placed(kind, title, lines[0])], Place(h, kind, title, lines[1..]));
    }
  }

  lemma {:induction false} NothingYet()
    ensures Contents([]) == [] && NoneEmpty([])
  {
  }

  /** Every line of the text that is no heading ends up in exactly one section, in order, under
      the last heading before it; no section is empty. */
  lemma {:induction false} SectionsKeepEveryLine(h: Headings, text: string)
    ensures Contents(SectionsOf(h, text)) == Place(h, "generic", "Global", KeptLines(text))
    ensures NoneEmpty(SectionsOf(h, text))
  {
    WordsOfKeptLines(text);
    SectionsHold(h, "generic", "Global", [], KeptLines(text));
  }
}
