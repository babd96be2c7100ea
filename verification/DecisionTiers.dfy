/** When a decision table answers, and which table gets to. */
module DecisionTiers {
  import opened Wrappers
  import opened DecisionLookup
  import ChunkIds
  import Seqs = Sequences
  import Text
  import TextLines

  // ---------- one table ----------

  /** The values of a column are what its rows hold there, but for empty texts and zero. */
  lemma {:induction false} ColumnAre(rows: seq<Row>, f: string)
    ensures forall v :: v in Column(rows, f) <==>
              v != Word("") && v != Number(0) && exists r :: r in rows && f in r.keys && r.keys[f] == v
  {
  }

  /** What a value shows: a text without the white space around it, a number as its digits. */
  lemma {:induction false} ValuesShow(text: string, n: int)
    ensures var t := TextOf(Word(text));
            && Text.Words(t) == Text.Words(text)
            && (t != "" ==> !Text.IsSpace(t[0]) && !Text.IsSpace(t[|t| - 1]))
    ensures n >= 0 ==> TextOf(Number(n)) == ChunkIds.Decimal(n)
    ensures n < 0 ==> TextOf(Number(n)) == "-" + ChunkIds.Decimal(-n)
  {
    TextLines.StrippedLeft(text);
    TextLines.StrippedRight(Text.StripLeft(text));
  }

  /** A key field that some row fills. */
  predicate InUse(t: Table, f: string) {
    f in t.schema && Column(t.rows, f) != {}
  }

  /** The question says the text of some of the values, and only one text. */
  ghost predicate SaidOnce(q: Question, values: set<Value>) {
    && (exists v :: v in values && Says(q, v))
    && forall v, w :: v in values && w in values && Says(q, v) && Says(q, w) ==> TextOf(v) == TextOf(w)
  }

  lemma {:induction false} SettledIff(q: Question, order: Order, t: Table, f: string)
    requires Walks(order)
    ensures f in Resolved(q, order, t.schema, t.rows) <==> InUse(t, f) && SaidOnce(q, Column(t.rows, f))
    ensures f in Unresolved(q, order, t.schema, t.rows) <==> InUse(t, f) && !SaidOnce(q, Column(t.rows, f))
    ensures f in Resolved(q, order, t.schema, t.rows) ==>
              var v := Resolved(q, order, t.schema, t.rows)[f]; v in Column(t.rows, f) && Says(q, v)
  {
    hide MatchOf;
    hide Says;
    hide Column;
    var column := Column(t.rows, f);
    var walk := order(column);
    assert ToSet(walk) == column;
    assert forall v :: v in walk <==> v in ToSet(walk);
    MatchedIff(q, walk);
  }

  /** Every field in use is filled. */
  ghost predicate FillsAll(t: Table, r: Row) {
    forall f :: InUse(t, f) ==> f in r.keys && Filled(r.keys[f])
  }

  /** One row that agrees with what was said and fills every field in use. */
  ghost predicate Fits(t: Table, said: map<string, Value>, r: Row) {
    r in t.rows && Agrees(r, said) && FillsAll(t, r)
  }

  lemma {:induction false} InColumn(rows: seq<Row>, r: Row, f: string)
    requires r in rows && f in r.keys && Filled(r.keys[f])
    ensures r.keys[f] in Column(rows, f)
  {
  }

  lemma {:induction false} ColumnIsFilled(rows: seq<Row>, f: string)
    ensures forall v :: v in Column(rows, f) ==> Filled(v)
  {
  }

  /** A row that fits has the whole key, said and inferred. */
  lemma {:induction false} FittingRowHasKey(q: Question, order: Order, t: Table, allowInference: bool, r: Row)
    requires KeyOf(q, order, t, allowInference).Some?
    requires Fits(t, Resolved(q, order, t.schema, t.rows), r)
    ensures Agrees(r, KeyOf(q, order, t, allowInference).value)
  {
    hide KeyOf;
    hide Column;
    hide FieldMatch;
    var key, said := KeyOf(q, order, t, allowInference).value, Resolved(q, order, t.schema, t.rows);
    KeyIsExact(q, order, t, allowInference);
    AgreeingAre(t.rows, said);
    forall f | f in key ensures f in r.keys && r.keys[f] == key[f] {
      if f in said {
        assert key[f] == said[f];
      } else {
        assert InUse(t, f);
        InColumn(Agreeing(t.rows, said), r, f);
      }
    }
  }

  lemma {:induction false} RowOfKeyFits(q: Question, order: Order, t: Table, allowInference: bool, r: Row)
    requires Walks(order) && KeyOf(q, order, t, allowInference).Some?
    requires r in t.rows && Agrees(r, KeyOf(q, order, t, allowInference).value)
    ensures Fits(t, Resolved(q, order, t.schema, t.rows), r)
  {
    hide KeyOf;
    hide Column;
    hide FieldMatch;
    hide Resolved;
    hide Filled;
    var key, said := KeyOf(q, order, t, allowInference).value, Resolved(q, order, t.schema, t.rows);
    KeyIsExact(q, order, t, allowInference);
    forall f | InUse(t, f) ensures f in r.keys && Filled(r.keys[f]) {
      assert f in key && r.keys[f] == key[f];
      SettledIff(q, order, t, f);
      ColumnIsFilled(t.rows, f);
      ColumnIsFilled(Agreeing(t.rows, said), f);
      assert f !in said ==> key[f] in Column(Agreeing(t.rows, said), f);
    }
  }

  /** The fields that are not said are each left one value by those that are. */
  ghost predicate AllForcedBy(q: Question, t: Table, said: map<string, Value>) {
    forall f :: InUse(t, f) && !SaidOnce(q, Column(t.rows, f)) ==> |Column(Agreeing(t.rows, said), f)| == 1
  }

  lemma {:induction false} KeyIff(q: Question, order: Order, t: Table, allowInference: bool)
    requires Walks(order)
    ensures KeyOf(q, order, t, allowInference).Some? <==>
              && (exists f :: InUse(t, f) && SaidOnce(q, Column(t.rows, f)))
              && (allowInference || forall f :: InUse(t, f) ==> SaidOnce(q, Column(t.rows, f)))
              && AllForcedBy(q, t, Resolved(q, order, t.schema, t.rows))
  {
    hide Column;
    hide SaidOnce;
    hide Agreeing;
    hide InUse;
    var said, unsaid := Resolved(q, order, t.schema, t.rows), Unresolved(q, order, t.schema, t.rows);
    hide Resolved;
    hide Unresolved;
    forall f
      ensures f in said <==> InUse(t, f) && SaidOnce(q, Column(t.rows, f))
      ensures f in unsaid <==> InUse(t, f) && !SaidOnce(q, Column(t.rows, f))
    {
      SettledIff(q, order, t, f);
    }
    assert said == map[] <==> forall f :: f !in said;
    assert unsaid == {} <==> forall f :: f !in unsaid;
  }

  /** A table answers if and only if the question says at least one of its fields in use, each of the
      others is, where inference is allowed, left one value, and some row agrees with what is
      said and fills every field in use. */
  lemma {:induction false} AnswersIff(q: Question, order: Order, t: Table, allowInference: bool)
    requires Walks(order)
    ensures var said := Resolved(q, order, t.schema, t.rows);
            Lookup(q, order, t, allowInference).Some? <==>
              && (exists f :: InUse(t, f) && SaidOnce(q, Column(t.rows, f)))
              && (allowInference || forall f :: InUse(t, f) ==> SaidOnce(q, Column(t.rows, f)))
              && AllForcedBy(q, t, said)
              && exists r :: Fits(t, said, r)
  {
    hide KeyOf;
    hide Column;
    hide SaidOnce;
    hide Resolved;
    hide Fits;
    hide Agrees;
    KeyIff(q, order, t, allowInference);
    var said, key := Resolved(q, order, t.schema, t.rows), KeyOf(q, order, t, allowInference);
    if key.Some? {
      AgreeingAre(t.rows, key.value);
      if r :| Fits(t, said, r) {
        FittingRowHasKey(q, order, t, allowInference, r);
        assert r in t.rows by { FitsIsRow(t, said, r); }
        assert r in Agreeing(t.rows, key.value);
      }
      if Agreeing(t.rows, key.value) != [] {
        var r := Agreeing(t.rows, key.value)[0];
        assert r in Agreeing(t.rows, key.value);
        RowOfKeyFits(q, order, t, allowInference, r);
      }
    }
  }

  lemma FitsIsRow(t: Table, said: map<string, Value>, r: Row)
    requires Fits(t, said, r)
    ensures r in t.rows
  {
  }

  /** So every row that fills the fields in use is found by a question that says its values and, in
      those columns, no others. */
  lemma {:induction false} RowIsFound(q: Question, order: Order, t: Table, allowInference: bool, r: Row)
    requires Walks(order) && r in t.rows && FillsAll(t, r) && exists f :: InUse(t, f)
    requires forall f :: InUse(t, f) ==> Says(q, r.keys[f])
    requires forall f, v :: InUse(t, f) && v in Column(t.rows, f) && Says(q, v) ==> v == r.keys[f]
    ensures var answer := Lookup(q, order, t, allowInference);
            && answer.Some? && r in answer.value.rows
            && (forall f :: InUse(t, f) ==> f in answer.value.key && answer.value.key[f] == r.keys[f])
  {
    hide Column;
    hide Says;
    hide Lookup;
    hide Filled;
    var said := Resolved(q, order, t.schema, t.rows);
    hide Resolved;
    forall f
      ensures InUse(t, f) ==> SaidOnce(q, Column(t.rows, f)) && f in said && said[f] == r.keys[f]
      ensures f in said ==> InUse(t, f)
    {
      SettledIff(q, order, t, f);
      if InUse(t, f) {
        InColumn(t.rows, r, f);
      }
    }
    assert Fits(t, said, r);
    AnswersIff(q, order, t, allowInference);
    AnswerIsExact(q, order, t, allowInference);
    var key := Lookup(q, order, t, allowInference).value.key;
    assert Agrees(r, key);
  }

  /** The rows of an answer come in the order of the table. */
  lemma {:induction false} RowsKeepOrder(a: seq<Row>, b: seq<Row>, key: map<string, Value>)
    ensures Agreeing(a + b, key) == Agreeing(a, key) + Agreeing(b, key)
  {
    hide Agrees;
    if a == [] {
      Seqs.Units(b);
      Seqs.Units(Agreeing(b, key));
    } else {
      RowsKeepOrder(a[1..], b, key);
      Seqs.Uncons(a, b);
      Seqs.Assoc(if Agrees(a[0], key) then [a[0]] else [], Agreeing(a[1..], key), Agreeing(b, key));
    }
  }

  // ---------- the tables of a tier ----------

  /** Of these tables the i-th answers, and no other. */
  ghost predicate OnlyAnswers(q: Question, order: Order, tables: seq<Table>, allowInference: bool, i: nat) {
    && i < |tables|
    && Lookup(q, order, tables[i], allowInference).Some?
    && forall j | 0 <= j < |tables| && j != i :: Lookup(q, order, tables[j], allowInference).None?
  }

  lemma {:induction false} NoneAnswers(q: Question, order: Order, tables: seq<Table>, allowInference: bool)
    ensures Resolving(q, order, tables, allowInference) == [] <==>
              forall j | 0 <= j < |tables| :: Lookup(q, order, tables[j], allowInference).None?
  {
    hide Lookup;
    if tables != [] {
      NoneAnswers(q, order, tables[1..], allowInference);
      assert forall j | 0 < j < |tables| :: tables[j] == tables[1..][j - 1];
    }
  }

  lemma {:induction false} SomeAnswers(q: Question, order: Order, tables: seq<Table>, allowInference: bool, i: nat)
    requires i < |tables| && Lookup(q, order, tables[i], allowInference).Some?
    ensures var answers := Resolving(q, order, tables, allowInference);
            && answers != []
            && (|answers| == 1 <==> OnlyAnswers(q, order, tables, allowInference, i))
            && (|answers| == 1 ==> answers[0] == Lookup(q, order, tables[i], allowInference).value)
  {
    hide Lookup;
    assert forall j | 0 < j < |tables| :: tables[j] == tables[1..][j - 1];
    if i == 0 {
      NoneAnswers(q, order, tables[1..], allowInference);
    } else {
      SomeAnswers(q, order, tables[1..], allowInference, i - 1);
      if Lookup(q, order, tables[0], allowInference).None? && OnlyAnswers(q, order, tables[1..], allowInference, i - 1) {
        assert OnlyAnswers(q, order, tables, allowInference, i);
      }
      if OnlyAnswers(q, order, tables, allowInference, i) {
        assert OnlyAnswers(q, order, tables[1..], allowInference, i - 1);
      }
    }
  }

  /** A tier answers if and only if exactly one of its tables does, and with its answer. */
  lemma {:induction false} TierAnswersIff(q: Question, order: Order, tables: seq<Table>, allowInference: bool)
    ensures Tier(q, order, tables, allowInference).Some? <==> exists i: nat :: OnlyAnswers(q, order, tables, allowInference, i)
    ensures forall i: nat | OnlyAnswers(q, order, tables, allowInference, i) ::
              Tier(q, order, tables, allowInference) == Lookup(q, order, tables[i], allowInference)
  {
    hide Lookup;
    NoneAnswers(q, order, tables, allowInference);
    forall i: nat | i < |tables| && Lookup(q, order, tables[i], allowInference).Some?
      ensures var answers := Resolving(q, order, tables, allowInference);
              && (|answers| == 1 <==> OnlyAnswers(q, order, tables, allowInference, i))
              && (|answers| == 1 ==> answers[0] == Lookup(q, order, tables[i], allowInference).value)
    {
      SomeAnswers(q, order, tables, allowInference, i);
    }
  }

  // ---------- the tiers ----------

  ghost predicate Undecided(q: Question, order: Order, tables: seq<Table>, allowInference: bool) {
    forall i: nat :: !OnlyAnswers(q, order, tables, allowInference, i)
  }

  /** The eligibility answer comes first, then the one operational table that answers, inference allowed,
      then the merged billing answer, then the one billing table and last the one glossary that
      answer from what is said alone.  A tier in which several answer, or none, is passed over. */
  lemma {:induction false} FirstTierAnswers(q: Question, order: Order, gem: Option<Answer>, operational: seq<Table>,
      merged: Option<Answer>, billing: seq<Table>, glossaries: seq<Table>, i: nat)
    ensures var found := Found(q, order, gem, operational, merged, billing, glossaries);
            if gem.Some? then found == gem
            else if OnlyAnswers(q, order, operational, true, i) then found == Lookup(q, order, operational[i], true)
            else if !Undecided(q, order, operational, true) then found.Some?
            else if merged.Some? then found == merged
            else if OnlyAnswers(q, order, billing, false, i) then found == Lookup(q, order, billing[i], false)
            else if !Undecided(q, order, billing, false) then found.Some?
            else if OnlyAnswers(q, order, glossaries, false, i) then found == Lookup(q, order, glossaries[i], false)
            else found.Some? <==> !Undecided(q, order, glossaries, false)
  {
    hide Lookup;
    hide Tier;
    hide OnlyAnswers;
    TierAnswersIff(q, order, operational, true);
    TierAnswersIff(q, order, billing, false);
    TierAnswersIff(q, order, glossaries, false);
    assert OnlyAnswers(q, order, operational, true, i) ==> Tier(q, order, operational, true).Some?;
    assert OnlyAnswers(q, order, billing, false, i) ==> Tier(q, order, billing, false).Some?;
  }
}
