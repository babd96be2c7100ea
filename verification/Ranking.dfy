/** From the hits of the two searches to the ranked result: version filter, merge, rerank,
    selection and the check a cached result must pass. */
module Ranking {
  import opened Wrappers
  import opened Text
  import L = LexicalScore
  import T = CodeThreshold
  import Seqs = Sequences

  datatype Origin = Unlabelled | Semantic | Lexical

  /** A search hit; the last two members exist only while hits are being reranked. */
  datatype Hit = Hit(id: string, score: real, rank: int, origin: Origin, chunk: L.Chunk,
                     document: Option<int>, version: Option<int>,
                     semanticScore: Option<real>, hybridScore: Option<real>)

  // ---------- current versions ----------

  /** A document row: whether it is completed, and its current version. */
  datatype Row = Row(completed: bool, currentVersion: Option<int>)

  predicate HasPair(h: Hit) {
    h.document.Some? && h.version.Some?
  }

  predicate IsCurrent(h: Hit, rows: map<int, Row>) {
    && HasPair(h) && h.document.value in rows
    && rows[h.document.value].completed && rows[h.document.value].currentVersion == h.version
  }

  /** Some requested document has a completed current version. */
  predicate AnyCurrent(hits: seq<Hit>, rows: map<int, Row>) {
    exists i :: 0 <= i < |hits| && HasPair(hits[i]) && Known(hits[i].document.value, rows)
  }

  predicate Known(document: int, rows: map<int, Row>) {
    document in rows && rows[document].completed && rows[document].currentVersion.Some?
  }

  function Select(hits: seq<Hit>, rows: map<int, Row>): seq<Hit> {
    if hits == [] then []
    else (if !HasPair(hits[0]) || IsCurrent(hits[0], rows) then [hits[0]] else []) + Select(hits[1..], rows)
  }

  function Filtered(hits: seq<Hit>, rows: map<int, Row>): seq<Hit> {
    if AnyCurrent(hits, rows) then Select(hits, rows) else hits
  }

  function PairOf(h: Hit): (int, int)
    requires HasPair(h)
  {
    (h.document.value, h.version.value)
  }

  function PairsOf(hits: seq<Hit>): set<(int, int)> {
    set h | h in hits && HasPair(h) :: PairOf(h)
  }

  /** The query for the current versions of the requested documents. */
  function CurrentPairs(requested: set<(int, int)>, rows: map<int, Row>): set<(int, int)> {
    set p | p in requested && Known(p.0, rows) :: (p.0, rows[p.0].currentVersion.value)
  }

  lemma {:induction false} CurrentPairsDecide(hits: seq<Hit>, rows: map<int, Row>)
    ensures CurrentPairs(PairsOf(hits), rows) != {} <==> AnyCurrent(hits, rows)
    ensures forall h :: h in hits && HasPair(h) ==> (PairOf(h) in CurrentPairs(PairsOf(hits), rows) <==> IsCurrent(h, rows))
  {
    var pairs := PairsOf(hits);
    forall h | h in hits && HasPair(h)
      ensures PairOf(h) in CurrentPairs(pairs, rows) <==> IsCurrent(h, rows)
      ensures Known(h.document.value, rows) ==>
        (h.document.value, rows[h.document.value].currentVersion.value) in CurrentPairs(pairs, rows)
    {
      assert PairOf(h) in pairs;
    }
    if AnyCurrent(hits, rows) {
      var i :| 0 <= i < |hits| && HasPair(hits[i]) && Known(hits[i].document.value, rows);
      assert hits[i] in hits;
    }
    if CurrentPairs(pairs, rows) != {} {
      var c :| c in CurrentPairs(pairs, rows);
      var p :| p in pairs && Known(p.0, rows);
      var h :| h in hits && HasPair(h) && PairOf(h) == p;
      assert exists i :: 0 <= i < |hits| && hits[i] == h;
    }
  }

  method CollectPairs(hits: seq<Hit>) returns (requested: set<(int, int)>)
    ensures requested == PairsOf(hits)
  {
    requested := {};
    for i := 0 to |hits|
      invariant requested == PairsOf(hits[..i])
    {
      assert hits[..i + 1] == hits[..i] + [hits[i]];
      if HasPair(hits[i]) {
        requested := requested + {PairOf(hits[i])};
      }
    }
    assert hits[..|hits|] == hits;
  }

  method KeepCurrent(hits: seq<Hit>, current: set<(int, int)>, ghost rows: map<int, Row>) returns (kept: seq<Hit>)
    requires forall h :: h in hits && HasPair(h) ==> (PairOf(h) in current <==> IsCurrent(h, rows))
    ensures kept == Select(hits, rows)
  {
    kept := [];
    for i := 0 to |hits|
      invariant kept + Select(hits[i..], rows) == Select(hits, rows)
    {
      Seqs.DropStep(hits, i);
      if !HasPair(hits[i]) || PairOf(hits[i]) in current {
        Seqs.Assoc(kept, [hits[i]], Select(hits[i + 1..], rows));
        kept := kept + [hits[i]];
      } else {
        Seqs.Units(Select(hits[i + 1..], rows));
      }
    }
  }

  method FilterCurrentVersionHits(hits: seq<Hit>, rows: map<int, Row>) returns (filtered: seq<Hit>)
    ensures filtered == Filtered(hits, rows)
  {
    var requested := CollectPairs(hits);
    var current := CurrentPairs(requested, rows);
    CurrentPairsDecide(hits, rows);
    if requested == {} || current == {} {
      return hits;
    }
    filtered := KeepCurrent(hits, current, rows);
  }

  /** A hit that is not current survives exactly when it names no version at all or none of the
      requested documents has a completed current version. */
  lemma {:induction false} SupersededSurvivesIff(hits: seq<Hit>, rows: map<int, Row>, h: Hit)
    requires h in hits && !IsCurrent(h, rows)
    ensures h in Filtered(hits, rows) <==> !HasPair(h) || !AnyCurrent(hits, rows)
  {
    SelectKeeps(hits, rows, h);
  }

  lemma {:induction false} SelectKeeps(hits: seq<Hit>, rows: map<int, Row>, h: Hit)
    ensures h in Select(hits, rows) <==> h in hits && (!HasPair(h) || IsCurrent(h, rows))
  {
    if hits != [] {
      SelectKeeps(hits[1..], rows, h);
    }
  }

  // ---------- merging ----------

  datatype Entry = Entry(key: string, hit: Hit)

  /** Assignment to a dictionary: in place for a known key, at the end for a new one. */
  function Put(entries: seq<Entry>, key: string, hit: Hit): seq<Entry> {
    if entries == [] then [Entry(key, hit)]
    else if entries[0].key == key then [Entry(key, hit)] + entries[1..]
    else [entries[0]] + Put(entries[1..], key, hit)
  }

  function Get(entries: seq<Entry>, key: string): Option<Hit> {
    if entries == [] then None
    else if entries[0].key == key then Some(entries[0].hit)
    else Get(entries[1..], key)
  }

  function Key(h: Hit): string {
    Strip(h.id)
  }

  function PutSemantic(entries: seq<Entry>, h: Hit): seq<Entry> {
    if Key(h) == "" then entries else Put(entries, Key(h), h.(origin := Semantic))
  }

  function PutLexical(entries: seq<Entry>, h: Hit): seq<Entry> {
    var current := Get(entries, Key(h));
    if Key(h) == "" then entries
    else if current.None? || h.score > current.value.score then Put(entries, Key(h), h.(origin := Lexical))
    else entries
  }

  function Merged(hits: seq<Hit>, lexical: seq<Hit>): seq<Entry> {
    if lexical != [] then PutLexical(Merged(hits, lexical[..|lexical| - 1]), lexical[|lexical| - 1])
    else if hits != [] then PutSemantic(Merged(hits[..|hits| - 1], []), hits[|hits| - 1])
    else []
  }

  function HitsOf(entries: seq<Entry>): (r: seq<Hit>)
    ensures |r| == |entries| && forall i | 0 <= i < |entries| :: r[i] == entries[i].hit
  {
    seq(|entries|, i requires 0 <= i < |entries| => entries[i].hit)
  }

  method MergeCandidateHits(hits: seq<Hit>, lexical: seq<Hit>) returns (merged: seq<Hit>)
    ensures merged == HitsOf(Merged(hits, lexical))
  {
    var entries: seq<Entry> := [];
    for i := 0 to |hits|
      invariant entries == Merged(hits[..i], [])
    {
      assert hits[..i + 1][..i] == hits[..i];
      var key := Strip(hits[i].id);
      if key != "" {
        entries := Put(entries, key, hits[i].(origin := Semantic));
      }
    }
    assert hits[..|hits|] == hits;
    for i := 0 to |lexical|
      invariant entries == Merged(hits, lexical[..i])
    {
      assert lexical[..i + 1][..i] == lexical[..i];
      var key := Strip(lexical[i].id);
      if key != "" {
        var current := Get(entries, key);
        if current.None? || lexical[i].score > current.value.score {
          entries := Put(entries, key, lexical[i].(origin := Lexical));
        }
      }
    }
    assert lexical[..|lexical|] == lexical;
    merged := HitsOf(entries);
  }

  predicate DistinctKeys(entries: seq<Entry>) {
    forall i, j | 0 <= i < j < |entries| :: entries[i].key != entries[j].key
  }

  lemma {:induction false} PutKeeps(entries: seq<Entry>, key: string, hit: Hit, other: string)
    ensures Get(Put(entries, key, hit), other) == if other == key then Some(hit) else Get(entries, other)
  {
    if entries != [] {
      PutKeeps(entries[1..], key, hit, other);
    }
  }

  lemma {:induction false} PutKeys(entries: seq<Entry>, key: string, hit: Hit)
    requires DistinctKeys(entries)
    ensures DistinctKeys(Put(entries, key, hit))
    ensures forall e :: e in Put(entries, key, hit) ==> e.key == key || exists o :: o in entries && o.key == e.key
  {
    if entries != [] && entries[0].key != key {
      PutKeys(entries[1..], key, hit);
    }
  }

  lemma {:induction false} GetIsEntry(entries: seq<Entry>, e: Entry)
    requires DistinctKeys(entries) && e in entries
    ensures Get(entries, e.key) == Some(e.hit)
  {
    if entries[0] != e {
      var i :| 0 < i < |entries| && entries[i] == e;
      assert entries[1..][i - 1] == e;
      GetIsEntry(entries[1..], e);
    }
  }

  /** Every key comes once. */
  lemma {:induction false} MergedKeysDiffer(hits: seq<Hit>, lexical: seq<Hit>)
    ensures DistinctKeys(Merged(hits, lexical))
    decreases |hits| + |lexical|
  {
    if lexical != [] {
      var before, h := Merged(hits, lexical[..|lexical| - 1]), lexical[|lexical| - 1];
      MergedKeysDiffer(hits, lexical[..|lexical| - 1]);
      PutKeys(before, Key(h), h.(origin := Lexical));
    } else if hits != [] {
      var before, h := Merged(hits[..|hits| - 1], []), hits[|hits| - 1];
      MergedKeysDiffer(hits[..|hits| - 1], []);
      PutKeys(before, Key(h), h.(origin := Semantic));
    }
  }

  /** The last hit with a key. */
  function LastWith(hits: seq<Hit>, key: string): Option<Hit> {
    if hits == [] then None
    else if Key(hits[|hits| - 1]) == key then Some(hits[|hits| - 1])
    else LastWith(hits[..|hits| - 1], key)
  }

  lemma {:induction false} SemanticPart(hits: seq<Hit>, key: string)
    requires key != ""
    ensures Get(Merged(hits, []), key) ==
            if LastWith(hits, key).Some? then Some(LastWith(hits, key).value.(origin := Semantic)) else None
  {
    if hits != [] {
      var before, h := Merged(hits[..|hits| - 1], []), hits[|hits| - 1];
      SemanticPart(hits[..|hits| - 1], key);
      PutKeeps(before, Key(h), h.(origin := Semantic), key);
    }
  }

  /** What a merged hit must be: the last semantic hit with its key or a lexical one, with the
      largest score of both; a lexical hit replaces the semantic one only by a larger score. */
  predicate IsBest(best: Option<Hit>, hits: seq<Hit>, lexical: seq<Hit>, key: string) {
    var semantic := LastWith(hits, key);
    if best.None? then semantic.None? && forall h :: h in lexical ==> Key(h) != key
    else
      && (forall h :: h in lexical && Key(h) == key ==> h.score <= best.value.score)
      && (semantic.Some? ==> semantic.value.score <= best.value.score)
      && (|| (best.value.origin == Semantic && semantic.Some? && best.value == semantic.value.(origin := Semantic))
          || (best.value.origin == Lexical && (semantic.Some? ==> semantic.value.score < best.value.score)
              && exists h :: h in lexical && Key(h) == key && best.value == h.(origin := Lexical)))
  }

  lemma {:induction false} MergedIsBest(hits: seq<Hit>, lexical: seq<Hit>, key: string)
    requires key != ""
    ensures IsBest(Get(Merged(hits, lexical), key), hits, lexical, key)
  {
    if lexical == [] {
      SemanticPart(hits, key);
    } else {
      var n := |lexical| - 1;
      var before, h := Merged(hits, lexical[..n]), lexical[n];
      MergedIsBest(hits, lexical[..n], key);
      PutKeeps(before, Key(h), h.(origin := Lexical), key);
      assert lexical == lexical[..n] + [h];
    }
  }

  // The order of the merged hits.

  function KeysOf(entries: seq<Entry>): (r: seq<string>)
    ensures |r| == |entries| && forall i | 0 <= i < |entries| :: r[i] == entries[i].key
  {
    seq(|entries|, i requires 0 <= i < |entries| => entries[i].key)
  }

  /** The nonblank keys of some hits by first appearance. */
  function FirstKeys(hits: seq<Hit>): seq<string> {
    if hits == [] then []
    else
      var before, key := FirstKeys(hits[..|hits| - 1]), Key(hits[|hits| - 1]);
      if key == "" || key in before then before else before + [key]
  }

  lemma {:induction false} PutKeepsOrder(entries: seq<Entry>, key: string, hit: Hit)
    ensures KeysOf(Put(entries, key, hit)) == if key in KeysOf(entries) then KeysOf(entries) else KeysOf(entries) + [key]
  {
    if entries == [] {
      assert KeysOf([Entry(key, hit)]) == [key];
    } else if entries[0].key == key {
      assert KeysOf(entries)[0] == key;
      assert KeysOf([Entry(key, hit)] + entries[1..]) == KeysOf(entries);
    } else {
      PutKeepsOrder(entries[1..], key, hit);
      FirstKey(entries[0], entries[1..]);
      FirstKey(entries[0], Put(entries[1..], key, hit));
      Seqs.DropStep(entries, 0);
      Seqs.Whole(entries);
      Seqs.Assoc([entries[0].key], KeysOf(entries[1..]), [key]);
    }
  }

  lemma {:induction false} FirstKey(e: Entry, entries: seq<Entry>)
    ensures KeysOf([e] + entries) == [e.key] + KeysOf(entries)
  {
  }

  lemma {:induction false} GetKnows(entries: seq<Entry>, key: string)
    ensures Get(entries, key).Some? <==> key in KeysOf(entries)
  {
    if entries != [] {
      GetKnows(entries[1..], key);
      FirstKey(entries[0], entries[1..]);
      Seqs.DropStep(entries, 0);
      Seqs.Whole(entries);
    }
  }

  /** The merged hits come in the order in which their identifiers first appear, semantic hits
      first; replacing a hit keeps its place. */
  lemma {:induction false} MergedKeepsFirstAppearance(hits: seq<Hit>, lexical: seq<Hit>)
    ensures KeysOf(Merged(hits, lexical)) == FirstKeys(hits + lexical)
    decreases |hits| + |lexical|
  {
    hide Key;
    if lexical != [] {
      var before, h := lexical[..|lexical| - 1], lexical[|lexical| - 1];
      MergedKeepsFirstAppearance(hits, before);
      Seqs.Unsnoc(hits, lexical);
      GetKnows(Merged(hits, before), Key(h));
      PutKeepsOrder(Merged(hits, before), Key(h), h.(origin := Lexical));
    } else if hits != [] {
      var before, h := hits[..|hits| - 1], hits[|hits| - 1];
      MergedKeepsFirstAppearance(before, []);
      Seqs.Units(before);
      Seqs.Units(hits);
      PutKeepsOrder(Merged(before, []), Key(h), h.(origin := Semantic));
    }
  }

  lemma {:induction false} EntryOfKey(entries: seq<Entry>, key: string)
    requires Get(entries, key).Some?
    ensures exists e :: e in entries && e.key == key
  {
    if entries[0].key != key {
      EntryOfKey(entries[1..], key);
      var e :| e in entries[1..] && e.key == key;
      assert e in entries;
    }
  }

  /** Merging yields every identifier of the two lists exactly once, each with its best hit. */
  lemma {:induction false} MergeKeepsTheBestOfEach(hits: seq<Hit>, lexical: seq<Hit>)
    ensures var merged := Merged(hits, lexical);
            && DistinctKeys(merged)
            && (forall e :: e in merged ==> Key(e.hit) == e.key != "" && IsBest(Some(e.hit), hits, lexical, e.key))
            && (forall h :: h in hits + lexical && Key(h) != "" ==> exists e :: e in merged && e.key == Key(h))
  {
    var merged := Merged(hits, lexical);
    MergedKeysDiffer(hits, lexical);
    MergedHasKeys(hits, lexical);
    forall e | e in merged ensures IsBest(Some(e.hit), hits, lexical, e.key) {
      GetIsEntry(merged, e);
      MergedIsBest(hits, lexical, e.key);
    }
    forall h | h in hits + lexical && Key(h) != "" ensures exists e :: e in merged && e.key == Key(h) {
      MergedIsBest(hits, lexical, Key(h));
      LastWithSome(hits, h);
      EntryOfKey(merged, Key(h));
    }
  }

  lemma {:induction false} LastWithSome(hits: seq<Hit>, h: Hit)
    ensures h in hits ==> LastWith(hits, Key(h)).Some?
  {
    if hits != [] {
      LastWithSome(hits[..|hits| - 1], h);
    }
  }

  // ---------- reranking ----------

  const LEXICAL_WEIGHT := 0.025

  function Hybrid(q: L.Query, generic: set<string>, h: Hit): real {
    h.score + L.Score(q, h.chunk, generic) * LEXICAL_WEIGHT
  }

  function SetScores(q: L.Query, generic: set<string>, h: Hit): Hit {
    h.(semanticScore := Some(h.score), hybridScore := Some(Hybrid(q, generic, h)))
  }

  /** The semantic score is put back and the working members are removed. */
  function Restore(h: Hit): Hit {
    h.(score := if h.semanticScore.Some? then h.semanticScore.value else h.score, semanticScore := None, hybridScore := None)
  }

  function SortKey(h: Hit): real {
    if h.hybridScore.Some? then h.hybridScore.value else 0.0
  }

  function Insert(sorted: seq<Hit>, h: Hit): seq<Hit> {
    if sorted == [] then [h]
    else if SortKey(sorted[0]) < SortKey(h) then [h] + sorted
    else [sorted[0]] + Insert(sorted[1..], h)
  }

  /** A stable sort by descending key. */
  function Sort(hits: seq<Hit>): seq<Hit> {
    if hits == [] then [] else Insert(Sort(hits[..|hits| - 1]), hits[|hits| - 1])
  }

  function ScoreAll(q: L.Query, generic: set<string>, hits: seq<Hit>): (r: seq<Hit>)
    ensures |r| == |hits| && forall i | 0 <= i < |hits| :: r[i] == SetScores(q, generic, hits[i])
  {
    seq(|hits|, i requires 0 <= i < |hits| => SetScores(q, generic, hits[i]))
  }

  function RestoreAll(hits: seq<Hit>): (r: seq<Hit>)
    ensures |r| == |hits| && forall i | 0 <= i < |hits| :: r[i] == Restore(hits[i])
  {
    seq(|hits|, i requires 0 <= i < |hits| => Restore(hits[i]))
  }

  function Ranked(q: L.Query, generic: set<string>, hits: seq<Hit>): seq<Hit> {
    RestoreAll(Sort(ScoreAll(q, generic, hits)))
  }

  method RerankSemanticHits(q: L.Query, generic: set<string>, hits: seq<Hit>) returns (ranked: seq<Hit>)
    ensures ranked == Ranked(q, generic, hits)
  {
    ranked := hits;
    for i := 0 to |ranked|
      invariant |ranked| == |hits|
      invariant forall j | 0 <= j < i :: ranked[j] == SetScores(q, generic, hits[j])
      invariant forall j | i <= j < |hits| :: ranked[j] == hits[j]
    {
      var lexicalScore := L.LexicalRerankScore(q, ranked[i].chunk, generic);
      var hybrid := ranked[i].score + lexicalScore * LEXICAL_WEIGHT;
      ranked := ranked[i := ranked[i].(semanticScore := Some(ranked[i].score), hybridScore := Some(hybrid))];
    }
    assert ranked == ScoreAll(q, generic, hits);
    ranked := Sort(ranked);
    ghost var sorted := ranked;
    for i := 0 to |ranked|
      invariant |ranked| == |sorted|
      invariant forall j | 0 <= j < i :: ranked[j] == Restore(sorted[j])
      invariant forall j | i <= j < |sorted| :: ranked[j] == sorted[j]
    {
      ranked := ranked[i := Restore(ranked[i])];
    }
  }

  /** The hits without working members, as they come in and go out. */
  function Clear(h: Hit): Hit {
    h.(semanticScore := None, hybridScore := None)
  }

  function ClearAll(hits: seq<Hit>): (r: seq<Hit>)
    ensures |r| == |hits| && forall i | 0 <= i < |hits| :: r[i] == Clear(hits[i])
  {
    seq(|hits|, i requires 0 <= i < |hits| => Clear(hits[i]))
  }

  lemma {:induction false} RestoreUndoesScoring(q: L.Query, generic: set<string>, hits: seq<Hit>)
    ensures RestoreAll(ScoreAll(q, generic, hits)) == ClearAll(hits)
  {
  }

  /** Members were set for this query. */
  predicate Scored(q: L.Query, generic: set<string>, h: Hit) {
    h.semanticScore == Some(h.score) && h.hybridScore == Some(Hybrid(q, generic, h))
  }

  predicate Descending(hits: seq<Hit>) {
    forall i, j | 0 <= i < j < |hits| :: SortKey(hits[i]) >= SortKey(hits[j])
  }

  lemma {:induction false} InsertHolds(sorted: seq<Hit>, h: Hit)
    ensures multiset(Insert(sorted, h)) == multiset(sorted) + multiset{h}
    ensures forall x :: x in Insert(sorted, h) <==> x == h || x in sorted
  {
    if sorted == [] || SortKey(sorted[0]) < SortKey(h) {
    } else {
      InsertHolds(sorted[1..], h);
      assert sorted == [sorted[0]] + sorted[1..];
    }
  }

  lemma {:induction false} DescendingFirst(first: Hit, rest: seq<Hit>)
    requires Descending(rest) && forall x :: x in rest ==> SortKey(first) >= SortKey(x)
    ensures Descending([first] + rest)
  {
    hide SortKey;
    var all := [first] + rest;
    assert forall i | 0 < i < |all| :: all[i] == rest[i - 1] && all[i] in rest;
  }

  lemma {:induction false} InsertSorts(sorted: seq<Hit>, h: Hit)
    requires Descending(sorted)
    ensures Descending(Insert(sorted, h))
  {
    hide SortKey;
    if sorted == [] {
    } else if SortKey(sorted[0]) < SortKey(h) {
      assert forall x :: x in sorted ==> SortKey(sorted[0]) >= SortKey(x);
      DescendingFirst(h, sorted);
    } else {
      InsertSorts(sorted[1..], h);
      InsertHolds(sorted[1..], h);
      assert forall x :: x in sorted[1..] ==> SortKey(sorted[0]) >= SortKey(x);
      DescendingFirst(sorted[0], Insert(sorted[1..], h));
    }
  }

  /** The hits with one key, in order. */
  function WithKey(hits: seq<Hit>, key: real): seq<Hit> {
    if hits == [] then [] else (if SortKey(hits[0]) == key then [hits[0]] else []) + WithKey(hits[1..], key)
  }

  lemma {:induction false} NoneWithKey(hits: seq<Hit>, key: real)
    requires forall i | 0 <= i < |hits| :: SortKey(hits[i]) < key
    ensures WithKey(hits, key) == []
  {
    if hits != [] {
      NoneWithKey(hits[1..], key);
    }
  }

  lemma {:induction false} InsertIsStable(sorted: seq<Hit>, h: Hit, key: real)
    requires Descending(sorted)
    ensures WithKey(Insert(sorted, h), key) == WithKey(sorted, key) + if SortKey(h) == key then [h] else []
  {
    hide SortKey;
    if sorted == [] {
      assert [h][1..] == [];
    } else if SortKey(sorted[0]) < SortKey(h) {
      Seqs.HeadTail(h, sorted);
      if SortKey(h) == key {
        NoneWithKey(sorted, key);
      }
      Seqs.Units(WithKey(sorted, key));
    } else {
      InsertIsStable(sorted[1..], h, key);
      Seqs.HeadTail(sorted[0], Insert(sorted[1..], h));
      Seqs.Assoc(if SortKey(sorted[0]) == key then [sorted[0]] else [], WithKey(sorted[1..], key), if SortKey(h) == key then [h] else []);
    }
  }

  lemma {:induction false} WithKeyAppend(hits: seq<Hit>, h: Hit, key: real)
    ensures WithKey(hits + [h], key) == WithKey(hits, key) + if SortKey(h) == key then [h] else []
  {
    hide SortKey;
    if hits == [] {
      Seqs.HeadTail(h, []);
      Seqs.Units([h]);
    } else {
      WithKeyAppend(hits[1..], h, key);
      Seqs.Uncons(hits, [h]);
      Seqs.Assoc(
        if SortKey(hits[0]) == key then [hits[0]] else [], WithKey(hits[1..], key), if SortKey(h) == key then [h] else []);
    }
  }

  lemma {:induction false} SortSorts(hits: seq<Hit>)
    ensures Descending(Sort(hits)) && multiset(Sort(hits)) == multiset(hits)
  {
    if hits != [] {
      var n := |hits| - 1;
      SortSorts(hits[..n]);
      InsertSorts(Sort(hits[..n]), hits[n]);
      InsertHolds(Sort(hits[..n]), hits[n]);
      assert hits == hits[..n] + [hits[n]];
    }
  }

  /** Hits of equal key keep their order. */
  lemma {:induction false} SortIsStable(hits: seq<Hit>, key: real)
    ensures WithKey(Sort(hits), key) == WithKey(hits, key)
  {
    if hits != [] {
      hide Insert;
      hide WithKey;
      hide SortKey;
      var n := |hits| - 1;
      SortIsStable(hits[..n], key);
      SortSorts(hits[..n]);
      InsertIsStable(Sort(hits[..n]), hits[n], key);
      WithKeyAppend(hits[..n], hits[n], key);
      Seqs.TakeStep(hits, n);
      Seqs.Whole(hits);
    }
  }

  // ---------- what reranking promises ----------

  lemma {:induction false} RestorePermutes(hits: seq<Hit>)
    ensures multiset(RestoreAll(Sort(hits))) == multiset(RestoreAll(hits))
  {
    if hits != [] {
      var n := |hits| - 1;
      RestorePermutes(hits[..n]);
      RestoreInserted(Sort(hits[..n]), hits[n]);
      assert RestoreAll(hits) == RestoreAll(hits[..n]) + [Restore(hits[n])];
    }
  }

  lemma {:induction false} RestoreFirst(h: Hit, hits: seq<Hit>)
    ensures RestoreAll([h] + hits) == [Restore(h)] + RestoreAll(hits)
    ensures multiset(RestoreAll([h] + hits)) == multiset{Restore(h)} + multiset(RestoreAll(hits))
  {
  }

  lemma {:induction false} RestoreInserted(sorted: seq<Hit>, h: Hit)
    ensures multiset(RestoreAll(Insert(sorted, h))) == multiset(RestoreAll(sorted)) + multiset{Restore(h)}
  {
    if sorted == [] {
      assert RestoreAll([h]) == [Restore(h)];
    } else if SortKey(sorted[0]) < SortKey(h) {
      RestoreFirst(h, sorted);
    } else {
      RestoreInserted(sorted[1..], h);
      RestoreFirst(sorted[0], sorted[1..]);
      RestoreFirst(sorted[0], Insert(sorted[1..], h));
      assert sorted == [sorted[0]] + sorted[1..];
    }
  }

  lemma {:induction false} SortKeepsScored(q: L.Query, generic: set<string>, hits: seq<Hit>)
    requires forall i | 0 <= i < |hits| :: Scored(q, generic, hits[i])
    ensures |Sort(hits)| == |hits| && forall i | 0 <= i < |hits| :: Scored(q, generic, Sort(hits)[i])
  {
    SortSorts(hits);
    assert |Sort(hits)| == |multiset(Sort(hits))| == |multiset(hits)|;
    forall i | 0 <= i < |hits| ensures Scored(q, generic, Sort(hits)[i]) {
      assert Sort(hits)[i] in multiset(hits);
    }
  }

  /** Reranking permutes the hits, leaves their scores as they were, and puts them in
      descending order of the hybrid score. */
  lemma {:induction false} RankedIsSorted(q: L.Query, generic: set<string>, hits: seq<Hit>)
    ensures var ranked := Ranked(q, generic, hits);
            && multiset(ranked) == multiset(ClearAll(hits))
            && forall i, j | 0 <= i < j < |ranked| :: Hybrid(q, generic, ranked[i]) >= Hybrid(q, generic, ranked[j])
  {
    var scored := ScoreAll(q, generic, hits);
    RestorePermutes(scored);
    RestoreUndoesScoring(q, generic, hits);
    SortSorts(scored);
    SortKeepsScored(q, generic, scored);
    assert forall i | 0 <= i < |hits| :: SortKey(Sort(scored)[i]) == Hybrid(q, generic, RestoreAll(Sort(scored))[i]);
  }

  function WithHybrid(q: L.Query, generic: set<string>, hits: seq<Hit>, key: real): seq<Hit> {
    if hits == [] then []
    else (if Hybrid(q, generic, hits[0]) == key then [hits[0]] else []) + WithHybrid(q, generic, hits[1..], key)
  }

  lemma {:induction false} RestoreKeepsKeys(q: L.Query, generic: set<string>, hits: seq<Hit>, key: real)
    requires forall i | 0 <= i < |hits| :: Scored(q, generic, hits[i])
    ensures WithHybrid(q, generic, RestoreAll(hits), key) == RestoreAll(WithKey(hits, key))
  {
    if hits != [] {
      RestoreKeepsKeys(q, generic, hits[1..], key);
      assert RestoreAll(hits)[1..] == RestoreAll(hits[1..]);
      assert Hybrid(q, generic, RestoreAll(hits)[0]) == SortKey(hits[0]);
      assert RestoreAll([hits[0]] + WithKey(hits[1..], key)) == [Restore(hits[0])] + RestoreAll(WithKey(hits[1..], key));
    }
  }

  /** Reranking is stable: hits of equal hybrid score keep their order. */
  lemma {:induction false} RankedIsStable(q: L.Query, generic: set<string>, hits: seq<Hit>, key: real)
    ensures WithHybrid(q, generic, Ranked(q, generic, hits), key) == WithHybrid(q, generic, ClearAll(hits), key)
  {
    hide Sort;
    hide WithKey;
    hide WithHybrid;
    hide Restore;
    hide Clear;
    hide SortKey;
    var scored := ScoreAll(q, generic, hits);
    SortIsStable(scored, key);
    SortKeepsScored(q, generic, scored);
    RestoreKeepsKeys(q, generic, scored, key);
    RestoreKeepsKeys(q, generic, Sort(scored), key);
    RestoreUndoesScoring(q, generic, hits);
  }

  // ---------- the result ----------

  function Numbered(hits: seq<Hit>): (r: seq<Hit>)
    ensures |r| == |hits| && forall i | 0 <= i < |hits| :: r[i] == hits[i].(rank := i + 1)
  {
    seq(|hits|, i requires 0 <= i < |hits| => hits[i].(rank := i + 1))
  }

  function Result(q: L.Query, generic: set<string>, raw: seq<Hit>, rows: map<int, Row>, lexical: seq<Hit>,
      topK: nat): seq<Hit> {
    var filtered := Filtered(raw, rows);
    var ranked := Ranked(q, generic, HitsOf(Merged(filtered, lexical)));
    Numbered(if |ranked| <= topK then ranked else ranked[..topK])
  }

  method RankHits(q: L.Query, generic: set<string>, raw: seq<Hit>, rows: map<int, Row>, lexical: seq<Hit>, topK: nat)
    returns (hits: seq<Hit>)
    ensures hits == Result(q, generic, raw, rows, lexical, topK)
  {
    hits := FilterCurrentVersionHits(raw, rows);
    hits := MergeCandidateHits(hits, lexical);
    hits := RerankSemanticHits(q, generic, hits);
    if |hits| > topK {
      hits := hits[..topK];
    }
    ghost var chosen := hits;
    for i := 0 to |hits|
      invariant |hits| == |chosen|
      invariant forall j | 0 <= j < i :: hits[j] == chosen[j].(rank := j + 1)
      invariant forall j | i <= j < |hits| :: hits[j] == chosen[j]
    {
      hits := hits[i := hits[i].(rank := i + 1)];
    }
  }

  /** `validate_retrieval_payload` */
  function Validate(results: seq<Hit>, topK: nat): Option<seq<Hit>> {
    if |results| <= topK && forall i | 0 <= i < |results| :: results[i].rank >= 1 && results[i].id != "" then Some(results) else None
  }

  predicate HasKeys(entries: seq<Entry>) {
    forall e :: e in entries ==> Key(e.hit) == e.key != ""
  }

  lemma {:induction false} PutHasKeys(entries: seq<Entry>, h: Hit)
    requires HasKeys(entries) && Key(h) != ""
    ensures HasKeys(Put(entries, Key(h), h))
  {
    if entries != [] && entries[0].key != Key(h) {
      PutHasKeys(entries[1..], h);
    }
  }

  lemma {:induction false} MergedHasKeys(hits: seq<Hit>, lexical: seq<Hit>)
    ensures HasKeys(Merged(hits, lexical))
    decreases |hits| + |lexical|
  {
    if lexical != [] {
      var h := lexical[|lexical| - 1];
      MergedHasKeys(hits, lexical[..|lexical| - 1]);
      if Key(h) != "" { PutHasKeys(Merged(hits, lexical[..|lexical| - 1]), h.(origin := Lexical)); }
    } else if hits != [] {
      var h := hits[|hits| - 1];
      MergedHasKeys(hits[..|hits| - 1], []);
      if Key(h) != "" { PutHasKeys(Merged(hits[..|hits| - 1], []), h.(origin := Semantic)); }
    }
  }

  lemma {:induction false} RankedHaveIds(q: L.Query, generic: set<string>, entries: seq<Entry>)
    requires HasKeys(entries)
    ensures forall h :: h in Ranked(q, generic, HitsOf(entries)) ==> h.id != ""
  {
    var hits := HitsOf(entries);
    RankedIsSorted(q, generic, hits);
    forall h | h in Ranked(q, generic, hits) ensures h.id != "" {
      assert h in multiset(ClearAll(hits));
      var j :| 0 <= j < |entries| && ClearAll(hits)[j] == h;
      assert entries[j] in entries;
    }
  }

  /** A computed result passes the check that a cached result must pass, whatever the input. */
  lemma {:induction false} ResultIsValid(q: L.Query, generic: set<string>, raw: seq<Hit>, rows: map<int, Row>,
      lexical: seq<Hit>, topK: nat)
    ensures var r := Result(q, generic, raw, rows, lexical, topK); Validate(r, topK) == Some(r)
  {
    var filtered := Filtered(raw, rows);
    MergedHasKeys(filtered, lexical);
    RankedHaveIds(q, generic, Merged(filtered, lexical));
    ChosenIsValid(Ranked(q, generic, HitsOf(Merged(filtered, lexical))), topK);
  }

  lemma {:induction false} ChosenIsValid(ranked: seq<Hit>, topK: nat)
    requires forall h :: h in ranked ==> h.id != ""
    ensures var r := Numbered(if |ranked| <= topK then ranked else ranked[..topK]); Validate(r, topK) == Some(r)
  {
    assert forall i | 0 <= i < |ranked| :: ranked[i] in ranked;
  }

  /** Results are the best hits, in order, with ranks 1..n: as many as there are, up to topK,
      and nothing left out has a higher hybrid score. */
  lemma {:induction false} ResultIsBest(q: L.Query, generic: set<string>, raw: seq<Hit>, rows: map<int, Row>,
      lexical: seq<Hit>, topK: nat)
    ensures var ranked := Ranked(q, generic, HitsOf(Merged(Filtered(raw, rows), lexical)));
            var r := Result(q, generic, raw, rows, lexical, topK);
            && |r| == (if |ranked| <= topK then |ranked| else topK)
            && (forall i | 0 <= i < |r| :: r[i].rank == i + 1 && r[i].(rank := 0) == ranked[i].(rank := 0))
            && (forall i, j | 0 <= i < j < |r| :: Hybrid(q, generic, r[i]) >= Hybrid(q, generic, r[j]))
            && (forall i, j | 0 <= i < |r| <= j < |ranked| ::
                  Hybrid(q, generic, r[i]) >= Hybrid(q, generic, ranked[j]))
  {
    hide Filtered;
    hide Merged;
    hide Ranked;
    hide L.Score;
    var filtered := Filtered(raw, rows);
    RankedIsSorted(q, generic, HitsOf(Merged(filtered, lexical)));
    var ranked := Ranked(q, generic, HitsOf(Merged(filtered, lexical)));
    var r := Result(q, generic, raw, rows, lexical, topK);
    assert forall i | 0 <= i < |r| :: r[i] == ranked[i].(rank := i + 1);
    assert forall i | 0 <= i < |r| :: Hybrid(q, generic, r[i]) == Hybrid(q, generic, ranked[i]);
  }

  // ---------- codes in the final order ----------

  /** Hits with all codes stay ahead of hits that lack just these and are at most `gap` better
      in meaning. */
  ghost predicate CodesDecideWithin(q: L.Query, missing: set<string>, generic: set<string>, gap: real) {
    forall has: Hit, lacks: Hit ::
      && T.Consistent(q, has.chunk) && T.Consistent(q, lacks.chunk)
      && q.codes <= has.chunk.tokens && q.codes - lacks.chunk.tokens == missing
      && lacks.score <= has.score + gap
      ==> Hybrid(q, generic, has) > Hybrid(q, generic, lacks)
  }

  /** In the final order a missing code weighs one point of similarity: codes decide exactly
      when the codes missing outnumber the gap in meaning and a fortieth of what other words
      can make up for. */
  lemma {:induction false} CodesDecideWithinIff(q: L.Query, missing: set<string>, generic: set<string>, gap: real)
    requires AreWords(q.terms) && T.AreCodes(q.codes) && missing <= q.codes
    ensures CodesDecideWithin(q, missing, generic, gap) <==>
            |missing| as real > gap + (T.Most(q, missing, generic) - T.Least(q, generic)) / 40.0
  {
    hide L.Score;
    hide T.Most;
    hide T.Least;
    hide T.Consistent;
    hide T.Poorest;
    hide T.Richest;
    T.LeadIsReached(q, missing, generic);
    var has := Hit("has", 0.0, 0, Semantic, T.Poorest(q), None, None, None, None);
    var lacks := Hit("lacks", gap, 0, Semantic, T.Richest(q, missing), None, None, None, None);
    assert Hybrid(q, generic, has) - Hybrid(q, generic, lacks) == T.Lead(q, missing, generic) * LEXICAL_WEIGHT - gap;
    forall h: Hit, l: Hit | && T.Consistent(q, h.chunk) && T.Consistent(q, l.chunk)
                  && q.codes <= h.chunk.tokens && q.codes - l.chunk.tokens == missing && l.score <= h.score + gap
      ensures Hybrid(q, generic, h) - Hybrid(q, generic, l) >= T.Lead(q, missing, generic) * LEXICAL_WEIGHT - gap
    {
      T.LeadIsKept(q, missing, generic, h.chunk, l.chunk);
    }
  }
}
