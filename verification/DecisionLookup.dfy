/** Answers read from decision tables: a question must settle every key field of a table. */
module DecisionLookup {
  import opened Wrappers
  import Text
  import ChunkIds
  import Seqs = Sequences

  /** A key value; codes may be stored as numbers. */
  datatype Value = Word(text: string) | Number(n: int)

  datatype Row = Row(keys: map<string, Value>, payload: nat)

  datatype Table = Table(name: string, schema: seq<string>, rows: seq<Row>)

  /** The key values an answer rests on and the rows it reports. */
  datatype Answer = Answer(table: string, key: map<string, Value>, rows: seq<Row>)

  /** What a question says: whether a trimmed text occurs in it, as a token or, for a text of
      several words, verbatim (accents and case aside). */
  type Question = string -> bool

  /** The order in which a set is walked; any order is possible. */
  type Order = set<Value> -> seq<Value>

  ghost predicate Walks(order: Order) {
    forall s :: ToSet(order(s)) == s
  }

  function ToSet(walk: seq<Value>): set<Value> {
    set v | v in walk
  }

  function TextOf(v: Value): string {
    match v
    case Word(text) => Text.Strip(text)
    case Number(n) => if n >= 0 then ChunkIds.Decimal(n) else "-" + ChunkIds.Decimal(-n)
  }

  predicate Filled(v: Value) {
    match v
    case Word(text) => text != ""
    case Number(n) => n != 0
  }

  // ---------- one field ----------

  /** The candidates by their trimmed text; of two with one text the later stays. */
  function ByText(walk: seq<Value>): map<string, Value> {
    if walk == [] then map[]
    else
      var before, last := ByText(walk[..|walk| - 1]), walk[|walk| - 1];
      if TextOf(last) == "" then before else before[TextOf(last) := last]
  }

  function Said(q: Question, byText: map<string, Value>): set<Value> {
    set t | t in byText && q(t) :: byText[t]
  }

  lemma {:induction false} OnlyOne<T>(s: set<T>, x: T, y: T)
    requires |s| == 1 && x in s && y in s
    ensures x == y
  {
    var others := s - {x};
    assert |others| == 0;
    assert others == {};
    assert y !in others;
  }

  function Sole(s: set<Value>): (v: Value)
    requires |s| == 1
    ensures s == {v}
  {
    assert s != {};
    assert forall x, y | x in s && y in s :: x == y by {
      forall x, y | x in s && y in s ensures x == y { OnlyOne(s, x, y); }
    }
    var v :| v in s;
    assert s == {v};
    v
  }

  function MatchOf(q: Question, walk: seq<Value>): Option<Value> {
    var said := Said(q, ByText(walk));
    if |said| == 1 then Some(Sole(said)) else None
  }

  method MatchField(q: Question, walk: seq<Value>) returns (match': Option<Value>)
    ensures match' == MatchOf(q, walk)
  {
    var byText: map<string, Value> := map[];
    for i := 0 to |walk|
      invariant byText == ByText(walk[..i])
    {
      assert walk[..i + 1][..i] == walk[..i];
      if TextOf(walk[i]) != "" {
        byText := byText[TextOf(walk[i]) := walk[i]];
      }
    }
    assert walk[..|walk|] == walk;
    var matches: set<Value> := {};
    var texts := byText.Keys;
    while texts != {}
      invariant texts <= byText.Keys
      invariant matches == set t | t in byText.Keys - texts && q(t) :: byText[t]
      decreases |texts|
    {
      var t :| t in texts;
      ghost var before := texts;
      texts := texts - {t};
      assert byText.Keys - texts == (byText.Keys - before) + {t};
      if q(t) {
        matches := matches + {byText[t]};
      }
    }
    assert byText.Keys - texts == byText.Keys;
    assert matches == Said(q, byText);
    match' := if |matches| == 1 then Some(Sole(matches)) else None;
  }

  lemma {:induction false} ByTextHolds(walk: seq<Value>)
    ensures forall t :: t in ByText(walk) ==> t != "" && ByText(walk)[t] in walk && TextOf(ByText(walk)[t]) == t
    ensures forall v :: v in walk && TextOf(v) != "" ==> TextOf(v) in ByText(walk)
  {
    if walk != [] {
      var n := |walk| - 1;
      ByTextHolds(walk[..n]);
      assert walk == walk[..n] + [walk[n]];
    }
  }

  /** The values of which the question says the text. */
  ghost predicate Says(q: Question, v: Value) {
    TextOf(v) != "" && q(TextOf(v))
  }

  /** Whether one text or another was said does not depend on the walk: a field is matched
      exactly when the question says exactly one of the candidate texts, and the match is a
      candidate with that text. */
  lemma {:induction false} MatchedIff(q: Question, walk: seq<Value>)
    ensures MatchOf(q, walk).Some? <==>
            (exists v :: v in walk && Says(q, v)) && forall v, w :: v in walk && w in walk && Says(q, v) && Says(q, w) ==> TextOf(v) == TextOf(w)
    ensures MatchOf(q, walk).Some? ==> MatchOf(q, walk).value in walk && Says(q, MatchOf(q, walk).value)
  {
    var byText := ByText(walk);
    var said := Said(q, byText);
    ByTextHolds(walk);
    forall v | v in walk && Says(q, v) ensures byText[TextOf(v)] in said {
    }
    if |said| == 1 {
      var sole := Sole(said);
      forall v, w | v in walk && w in walk && Says(q, v) && Says(q, w) ensures TextOf(v) == TextOf(w) {
        OnlyOne(said, byText[TextOf(v)], byText[TextOf(w)]);
      }
    }
    if v :| v in walk && Says(q, v) {
      if forall x, w :: x in walk && w in walk && Says(q, x) && Says(q, w) ==> TextOf(x) == TextOf(w) {
        assert said == {byText[TextOf(v)]};
      }
    }
  }

  /** The question says several of the values, and all it says show one text. */
  ghost predicate Torn(q: Question, values: set<Value>) {
    && (exists v, w :: v in values && w in values && v != w && Says(q, v) && Says(q, w))
    && forall v, w :: v in values && w in values && Says(q, v) && Says(q, w) ==> TextOf(v) == TextOf(w)
  }

  /** Otherwise the match is the only candidate that is said, in whatever order they come. */
  lemma {:induction false} UntornMatch(q: Question, a: seq<Value>, b: seq<Value>)
    requires ToSet(a) == ToSet(b) && !Torn(q, ToSet(a))
    ensures MatchOf(q, a) == MatchOf(q, b)
  {
    hide MatchOf;
    hide Says;
    assert forall v :: v in a <==> v in ToSet(a);
    assert forall v :: v in b <==> v in ToSet(b);
    MatchedIff(q, a);
    MatchedIff(q, b);
  }

  lemma {:induction false} LastSaidIsTaken(q: Question, before: seq<Value>, v: Value)
    requires Says(q, v) && MatchOf(q, before + [v]).Some?
    ensures MatchOf(q, before + [v]) == Some(v)
  {
    var walk := before + [v];
    assert walk[..|walk| - 1] == before;
    assert ByText(walk)[TextOf(v)] == v;
    assert v in Said(q, ByText(walk));
  }

  lemma {:induction false} SomeWalk(values: set<Value>) returns (walk: seq<Value>)
    ensures ToSet(walk) == values
  {
    if values == {} {
      walk := [];
    } else {
      var v :| v in values;
      var rest := SomeWalk(values - {v});
      walk := [v] + rest;
      assert ToSet(walk) == {v} + ToSet(rest);
    }
  }

  /** Some walk makes any of several said values of one text the match. */
  lemma {:induction false} TornWalk(q: Question, values: set<Value>, v: Value) returns (walk: seq<Value>)
    requires Torn(q, values) && v in values && Says(q, v)
    ensures ToSet(walk) == values && MatchOf(q, walk) == Some(v)
  {
    hide MatchOf;
    hide Says;
    var before := SomeWalk(values - {v});
    walk := before + [v];
    assert ToSet(walk) == ToSet(before) + {v};
    assert forall x :: x in walk <==> x in ToSet(walk);
    assert v in walk;
    MatchedIff(q, walk);
    LastSaidIsTaken(q, before, v);
  }

  /** The order of a walk can decide the match exactly when the question says several of the
      candidates and all that it says show one text. */
  lemma {:induction false} OrderDecidesIff(q: Question, values: set<Value>)
    ensures (exists a, b :: ToSet(a) == values && ToSet(b) == values && MatchOf(q, a) != MatchOf(q, b)) <==> Torn(q, values)
  {
    hide MatchOf;
    if Torn(q, values) {
      var v, w :| v in values && w in values && v != w && Says(q, v) && Says(q, w);
      var a := TornWalk(q, values, v);
      var b := TornWalk(q, values, w);
    } else {
      forall a, b | ToSet(a) == values && ToSet(b) == values ensures MatchOf(q, a) == MatchOf(q, b) {
        UntornMatch(q, a, b);
      }
    }
  }

  /** A number and a word can show one text: the digits of a code stored in both ways. */
  lemma {:induction false} NumberAndWordAreTorn(q: Question, n: nat)
    requires q(ChunkIds.Decimal(n))
    ensures Torn(q, {Number(n), Word(ChunkIds.Decimal(n))})
  {
    var text := ChunkIds.Decimal(n);
    Trimmed(text);
    assert Says(q, Number(n)) && Says(q, Word(text));
  }

  lemma {:induction false} Trimmed(text: string)
    requires ChunkIds.AllDigits(text) && text != ""
    ensures Text.Strip(text) == text
  {
    assert ChunkIds.IsDigit(text[0]) && ChunkIds.IsDigit(text[|text| - 1]);
  }

  // ---------- one table ----------

  /** The values of a column that are filled. */
  function Column(rows: seq<Row>, field: string): set<Value> {
    set r | r in rows && field in r.keys && Filled(r.keys[field]) :: r.keys[field]
  }

  predicate Agrees(r: Row, key: map<string, Value>) {
    forall f | f in key :: f in r.keys && r.keys[f] == key[f]
  }

  function Agreeing(rows: seq<Row>, key: map<string, Value>): seq<Row> {
    if rows == [] then [] else (if Agrees(rows[0], key) then [rows[0]] else []) + Agreeing(rows[1..], key)
  }

  function FieldMatch(q: Question, order: Order, rows: seq<Row>, field: string): Option<Value> {
    MatchOf(q, order(Column(rows, field)))
  }

  /** The fields that the question settles, with their values. */
  function Resolved(q: Question, order: Order, schema: seq<string>, rows: seq<Row>): map<string, Value> {
    map f | f in schema && Column(rows, f) != {} && FieldMatch(q, order, rows, f).Some? :: FieldMatch(q, order, rows, f).value
  }

  /** The fields in use that the question does not settle. */
  function Unresolved(q: Question, order: Order, schema: seq<string>, rows: seq<Row>): set<string> {
    set f | f in schema && Column(rows, f) != {} && FieldMatch(q, order, rows, f).None?
  }

  /** The values that the settled fields force on the others, if each has just one. */
  function Inferred(unresolved: set<string>, narrowed: seq<Row>): Option<map<string, Value>> {
    if forall f | f in unresolved :: |Column(narrowed, f)| == 1
    then Some(map f | f in unresolved :: Sole(Column(narrowed, f)))
    else None
  }

  /** The whole key, or nothing. */
  function KeyOf(q: Question, order: Order, t: Table, allowInference: bool): Option<map<string, Value>> {
    var resolved := Resolved(q, order, t.schema, t.rows);
    var unresolved := Unresolved(q, order, t.schema, t.rows);
    if resolved == map[] || (unresolved != {} && !allowInference) then None
    else
      var inferred := Inferred(unresolved, Agreeing(t.rows, resolved));
      if inferred.None? then None else Some(resolved + inferred.value)
  }

  /** `_generic_table_lookup` */
  function Lookup(q: Question, order: Order, t: Table, allowInference: bool): Option<Answer> {
    var key := KeyOf(q, order, t, allowInference);
    if key.None? || Agreeing(t.rows, key.value) == [] then None
    else Some(Answer(t.name, key.value, Agreeing(t.rows, key.value)))
  }

  // The same, step by step.

  function FieldSet(fields: seq<string>): set<string> {
    set f | f in fields
  }

  lemma {:induction false} OneFieldMore(q: Question, order: Order, schema: seq<string>, i: nat, rows: seq<Row>)
    requires i < |schema|
    ensures var f, before, more := schema[i], schema[..i], schema[..i + 1];
            var found := FieldMatch(q, order, rows, f);
            && Resolved(q, order, more, rows)
               == (if Column(rows, f) != {} && found.Some? then Resolved(q, order, before, rows)[f := found.value]
                   else Resolved(q, order, before, rows))
            && Unresolved(q, order, more, rows)
               == Unresolved(q, order, before, rows) + (if Column(rows, f) != {} && found.None? then {f} else {})
  {
    hide FieldMatch;
    assert schema[..i + 1] == schema[..i] + [schema[i]];
  }

  lemma {:induction false} FieldSetAppend(fields: seq<string>, f: string)
    ensures FieldSet(fields + [f]) == FieldSet(fields) + {f}
  {
  }

  method ResolveFields(q: Question, order: Order, schema: seq<string>, rows: seq<Row>)
    returns (resolved: map<string, Value>, unresolved: seq<string>)
    ensures resolved == Resolved(q, order, schema, rows)
    ensures FieldSet(unresolved) == Unresolved(q, order, schema, rows)
  {
    hide MatchOf;
    resolved, unresolved := map[], [];
    for i := 0 to |schema|
      invariant resolved == Resolved(q, order, schema[..i], rows)
      invariant FieldSet(unresolved) == Unresolved(q, order, schema[..i], rows)
    {
      var field := schema[i];
      OneFieldMore(q, order, schema, i, rows);
      var candidates := Column(rows, field);
      if candidates != {} {
        var found := MatchField(q, order(candidates));
        if found.None? {
          FieldSetAppend(unresolved, field);
          unresolved := unresolved + [field];
        } else {
          resolved := resolved[field := found.value];
        }
      }
    }
    assert schema[..|schema|] == schema;
  }

  method FilterRows(rows: seq<Row>, key: map<string, Value>) returns (matching: seq<Row>)
    ensures matching == Agreeing(rows, key)
  {
    hide Agrees;
    matching := [];
    Seqs.Whole(rows);
    for i := 0 to |rows|
      invariant matching + Agreeing(rows[i..], key) == Agreeing(rows, key)
    {
      Seqs.DropStep(rows, i);
      if Agrees(rows[i], key) {
        Seqs.Assoc(matching, [rows[i]], Agreeing(rows[i + 1..], key));
        matching := matching + [rows[i]];
      }
    }
  }

  /** The values inferred for some fields, as far as they are unique. */
  function Forced(fields: set<string>, narrowed: seq<Row>): map<string, Value> {
    map f | f in fields && |Column(narrowed, f)| == 1 :: Sole(Column(narrowed, f))
  }

  lemma {:induction false} OneForcedMore(fields: set<string>, f: string, narrowed: seq<Row>,
      resolved: map<string, Value>)
    requires |Column(narrowed, f)| == 1
    ensures resolved + Forced(fields + {f}, narrowed) == (resolved + Forced(fields, narrowed))[f := Sole(Column(narrowed, f))]
  {
    hide Column;
  }

  lemma {:induction false} AllForced(fields: set<string>, narrowed: seq<Row>)
    requires forall f | f in fields :: |Column(narrowed, f)| == 1
    ensures Inferred(fields, narrowed) == Some(Forced(fields, narrowed))
  {
    hide Column;
    assert Inferred(fields, narrowed).value == Forced(fields, narrowed);
  }

  method InferFields(unresolved: seq<string>, narrowed: seq<Row>, resolved: map<string, Value>)
    returns (key: Option<map<string, Value>>)
    ensures var inferred := Inferred(FieldSet(unresolved), narrowed);
            key == if inferred.None? then None else Some(resolved + inferred.value)
  {
    hide Column;
    var filled := resolved;
    for i := 0 to |unresolved|
      invariant forall f | f in FieldSet(unresolved[..i]) :: |Column(narrowed, f)| == 1
      invariant filled == resolved + Forced(FieldSet(unresolved[..i]), narrowed)
    {
      var field := unresolved[i];
      assert unresolved[..i + 1] == unresolved[..i] + [field];
      FieldSetAppend(unresolved[..i], field);
      if |Column(narrowed, field)| != 1 {
        assert field in FieldSet(unresolved);
        return None;
      }
      OneForcedMore(FieldSet(unresolved[..i]), field, narrowed, resolved);
      filled := filled[field := Sole(Column(narrowed, field))];
    }
    assert unresolved[..|unresolved|] == unresolved;
    AllForced(FieldSet(unresolved), narrowed);
    return Some(filled);
  }

  method GenericTableLookup(q: Question, order: Order, t: Table, allowInference: bool) returns (answer: Option<Answer>)
    ensures answer == Lookup(q, order, t, allowInference)
  {
    var resolved, unresolved := ResolveFields(q, order, t.schema, t.rows);
    assert unresolved != [] <==> FieldSet(unresolved) != {} by {
      if unresolved != [] { assert unresolved[0] in FieldSet(unresolved); }
    }
    if resolved == map[] || (unresolved != [] && !allowInference) {
      return None;
    }
    var narrowed := FilterRows(t.rows, resolved);
    var key := InferFields(unresolved, narrowed, resolved);
    if key.None? {
      return None;
    }
    var matching := FilterRows(t.rows, key.value);
    if matching == [] {
      return None;
    }
    return Some(Answer(t.name, key.value, matching));
  }

  lemma {:induction false} OneCounted(first: Row, rest: seq<Row>, r: Row)
    ensures multiset([first] + rest)[r] == multiset(rest)[r] + if r == first then 1 else 0
  {
  }

  lemma {:induction false} AgreeingHolds(rows: seq<Row>, key: map<string, Value>, r: Row)
    ensures multiset(Agreeing(rows, key))[r] == if Agrees(r, key) then multiset(rows)[r] else 0
  {
    hide Agrees;
    if rows != [] {
      AgreeingHolds(rows[1..], key, r);
      Seqs.DropStep(rows, 0);
      Seqs.Whole(rows);
      OneCounted(rows[0], rows[1..], r);
      OneCounted(rows[0], Agreeing(rows[1..], key), r);
    }
  }

  lemma {:induction false} AgreeingAre(rows: seq<Row>, key: map<string, Value>)
    ensures forall r :: r in Agreeing(rows, key) <==> r in rows && Agrees(r, key)
  {
    if rows != [] {
      AgreeingAre(rows[1..], key);
    }
  }

  /** An answer reports exactly the rows that agree with its whole key, and its key covers every
      field in use: each value is the one the question says, or was the only filled value left
      among the rows that agree with what the question says. */
  lemma {:induction false} AnswerIsExact(q: Question, order: Order, t: Table, allowInference: bool)
    requires Walks(order)
    ensures Lookup(q, order, t, allowInference).Some? ==>
            var a := Lookup(q, order, t, allowInference).value;
            var said := Resolved(q, order, t.schema, t.rows);
            && a.rows != []
            && (forall r :: r in a.rows <==> r in t.rows && Agrees(r, a.key))
            && (forall r :: multiset(a.rows)[r] == if Agrees(r, a.key) then multiset(t.rows)[r] else 0)
            && (forall f :: f in a.key <==> f in t.schema && Column(t.rows, f) != {})
            && said != map[]
            && (forall f :: f in said ==>
                  f in a.key && a.key[f] == said[f] && a.key[f] in Column(t.rows, f) && Says(q, a.key[f]))
            && (forall f :: f in a.key && f !in said ==> allowInference && Column(Agreeing(t.rows, said), f) == {a.key[f]})
  {
    hide KeyOf;
    hide FieldMatch;
    hide Column;
    hide Says;
    if Lookup(q, order, t, allowInference).Some? {
      var said, key := Resolved(q, order, t.schema, t.rows), KeyOf(q, order, t, allowInference).value;
      AgreeingAre(t.rows, key);
      forall r ensures multiset(Agreeing(t.rows, key))[r] == if Agrees(r, key) then multiset(t.rows)[r] else 0 {
        AgreeingHolds(t.rows, key, r);
      }
      forall f | f in said ensures said[f] in Column(t.rows, f) && Says(q, said[f]) {
        SaidInColumn(q, order, t.rows, f);
      }
      KeyIsExact(q, order, t, allowInference);
    }
  }

  lemma {:induction false} SaidInColumn(q: Question, order: Order, rows: seq<Row>, f: string)
    requires Walks(order) && FieldMatch(q, order, rows, f).Some?
    ensures FieldMatch(q, order, rows, f).value in Column(rows, f) && Says(q, FieldMatch(q, order, rows, f).value)
  {
    hide MatchOf;
    hide Says;
    var walk := order(Column(rows, f));
    MatchedIff(q, walk);
    assert ToSet(walk) == Column(rows, f);
    assert MatchOf(q, walk).value in ToSet(walk);
  }

  /** The key: the fields in use, those said with what is said, the others with what is forced. */
  lemma {:induction false} KeyIsExact(q: Question, order: Order, t: Table, allowInference: bool)
    ensures KeyOf(q, order, t, allowInference).Some? ==>
            var key, said := KeyOf(q, order, t, allowInference).value, Resolved(q, order, t.schema, t.rows);
            && said != map[]
            && (forall f :: f in key <==> f in t.schema && Column(t.rows, f) != {})
            && (forall f :: f in said ==> f in key && key[f] == said[f])
            && (forall f :: f in key && f !in said ==> allowInference && Column(Agreeing(t.rows, said), f) == {key[f]})
  {
    hide FieldMatch;
    hide Column;
    hide Agreeing;
  }

  // ---------- order does not matter ----------

  /** In no column does the question say several key values that show one text. */
  ghost predicate Untorn(q: Question, t: Table) {
    forall f :: f in t.schema ==> !Torn(q, Column(t.rows, f))
  }

  /** The same table with its rows and its key fields in another order. */
  ghost predicate Reordered(t: Table, u: Table) {
    && t.name == u.name && multiset(t.rows) == multiset(u.rows)
    && forall f :: f in t.schema <==> f in u.schema
  }

  lemma {:induction false} SameColumn(a: seq<Row>, b: seq<Row>, field: string)
    requires multiset(a) == multiset(b)
    ensures Column(a, field) == Column(b, field)
  {
    assert forall r :: r in a <==> r in multiset(a);
    assert forall r :: r in b <==> r in multiset(b);
  }

  lemma {:induction false} SameAgreeing(a: seq<Row>, b: seq<Row>, key: map<string, Value>)
    requires multiset(a) == multiset(b)
    ensures multiset(Agreeing(a, key)) == multiset(Agreeing(b, key))
    ensures Agreeing(a, key) == [] <==> Agreeing(b, key) == []
  {
    forall r ensures multiset(Agreeing(a, key))[r] == multiset(Agreeing(b, key))[r] {
      AgreeingHolds(a, key, r);
      AgreeingHolds(b, key, r);
    }
    assert |Agreeing(a, key)| == |multiset(Agreeing(a, key))|;
    assert |Agreeing(b, key)| == |multiset(Agreeing(b, key))|;
  }

  lemma {:induction false} SameFieldMatch(q: Question, o: Order, p: Order, t: Table, u: Table, f: string)
    requires Walks(o) && Walks(p) && Reordered(t, u) && Untorn(q, t) && f in t.schema
    ensures Column(t.rows, f) == Column(u.rows, f) && FieldMatch(q, o, t.rows, f) == FieldMatch(q, p, u.rows, f)
  {
    SameColumn(t.rows, u.rows, f);
    var column := Column(t.rows, f);
    assert ToSet(o(column)) == column == ToSet(p(column));
    UntornMatch(q, o(column), p(column));
  }

  lemma {:induction false} SameInferred(unresolved: set<string>, a: seq<Row>, b: seq<Row>)
    requires multiset(a) == multiset(b)
    ensures Inferred(unresolved, a) == Inferred(unresolved, b)
  {
    forall f | f in unresolved ensures Column(a, f) == Column(b, f) {
      SameColumn(a, b, f);
    }
    if Inferred(unresolved, a).Some? {
      assert Inferred(unresolved, a).value == Inferred(unresolved, b).value;
    }
  }

  lemma {:induction false} SameKey(q: Question, o: Order, p: Order, t: Table, u: Table, allowInference: bool)
    requires Walks(o) && Walks(p) && Reordered(t, u) && Untorn(q, t)
    ensures KeyOf(q, o, t, allowInference) == KeyOf(q, p, u, allowInference)
  {
    forall f | f in t.schema
      ensures Column(t.rows, f) == Column(u.rows, f) && FieldMatch(q, o, t.rows, f) == FieldMatch(q, p, u.rows, f)
    {
      SameFieldMatch(q, o, p, t, u, f);
    }
    var said := Resolved(q, o, t.schema, t.rows);
    assert said == Resolved(q, p, u.schema, u.rows);
    assert Unresolved(q, o, t.schema, t.rows) == Unresolved(q, p, u.schema, u.rows);
    SameAgreeing(t.rows, u.rows, said);
    SameInferred(Unresolved(q, o, t.schema, t.rows), Agreeing(t.rows, said), Agreeing(u.rows, said));
  }

  /** Unless the question says several key values of a column that show one text, neither the
      order of rows, nor that of key fields, nor the order in which sets are walked changes
      whether there is an answer, its key or its rows. */
  lemma {:induction false} LookupIsOrderFree(q: Question, o: Order, p: Order, t: Table, u: Table, allowInference: bool)
    requires Walks(o) && Walks(p) && Reordered(t, u) && Untorn(q, t)
    ensures var a, b := Lookup(q, o, t, allowInference), Lookup(q, p, u, allowInference);
            && (a.Some? <==> b.Some?)
            && (a.Some? ==>
                  && a.value.table == b.value.table && a.value.key == b.value.key
                  && multiset(a.value.rows) == multiset(b.value.rows))
  {
    hide KeyOf;
    SameKey(q, o, p, t, u, allowInference);
    var key := KeyOf(q, o, t, allowInference);
    if key.Some? {
      SameAgreeing(t.rows, u.rows, key.value);
    }
  }

  lemma {:induction false} TornFieldMatch(q: Question, order: Order, t: Table, f: string)
    requires Walks(order) && f in t.schema && Torn(q, Column(t.rows, f))
    ensures Column(t.rows, f) != {} && FieldMatch(q, order, t.rows, f).Some?
    ensures f in Resolved(q, order, t.schema, t.rows)
  {
    hide MatchOf;
    hide Says;
    var column := Column(t.rows, f);
    var walk := order(column);
    assert ToSet(walk) == column;
    assert forall v :: v in walk <==> v in ToSet(walk);
    MatchedIff(q, walk);
  }

  /** The same order but for one set. */
  function Rewalked(order: Order, values: set<Value>, walk: seq<Value>): Order {
    (s: set<Value>) => if s == values then walk else order(s)
  }

  lemma {:induction false} OtherAnswer(q: Question, o: Order, t: Table, allowInference: bool, f: string)
    returns (p: Order)
    requires Walks(o) && f in t.schema && Torn(q, Column(t.rows, f))
    ensures Walks(p)
    ensures Lookup(q, o, t, allowInference).Some? ==> Lookup(q, p, t, allowInference) != Lookup(q, o, t, allowInference)
  {
    hide KeyOf;
    hide MatchOf;
    hide Column;
    hide Says;
    var column := Column(t.rows, f);
    TornFieldMatch(q, o, t, f);
    var v := FieldMatch(q, o, t.rows, f).value;
    var w :| w in column && w != v && Says(q, w);
    var walk := TornWalk(q, column, w);
    p := Rewalked(o, column, walk);
    assert Walks(p);
    TornFieldMatch(q, p, t, f);
    assert FieldMatch(q, p, t.rows, f) == Some(w);
    KeyIsExact(q, o, t, allowInference);
    if Lookup(q, p, t, allowInference).Some? {
      KeyIsExact(q, p, t, allowInference);
    }
  }

  /** The order in which sets are walked changes the answer to a question exactly when some
      order gives an answer and in some column the question says several key values that show
      one text. */
  lemma {:induction false} OrderChangesAnswerIff(q: Question, t: Table, allowInference: bool)
    ensures (exists o, p :: Walks(o) && Walks(p) && Lookup(q, o, t, allowInference) != Lookup(q, p, t, allowInference))
            <==> !Untorn(q, t) && exists o :: Walks(o) && Lookup(q, o, t, allowInference).Some?
  {
    hide KeyOf;
    hide Torn;
    hide Column;
    if Untorn(q, t) {
      forall o, p | Walks(o) && Walks(p) ensures Lookup(q, o, t, allowInference) == Lookup(q, p, t, allowInference) {
        SameKey(q, o, p, t, t, allowInference);
      }
    } else if o :| Walks(o) && Lookup(q, o, t, allowInference).Some? {
      var f :| f in t.schema && Torn(q, Column(t.rows, f));
      var p := OtherAnswer(q, o, t, allowInference, f);
    }
  }

  // ---------- tiers ----------

  /** The answers of the tables of a tier that resolve. */
  function Resolving(q: Question, order: Order, tables: seq<Table>, allowInference: bool): seq<Answer> {
    if tables == [] then []
    else
      var first := Lookup(q, order, tables[0], allowInference);
      (if first.Some? then [first.value] else []) + Resolving(q, order, tables[1..], allowInference)
  }

  function Tier(q: Question, order: Order, tables: seq<Table>, allowInference: bool): Option<Answer> {
    var answers := Resolving(q, order, tables, allowInference);
    if |answers| == 1 then Some(answers[0]) else None
  }

  method FirstUnambiguousMatch(q: Question, order: Order, tables: seq<Table>,
      allowInference: bool) returns (answer: Option<Answer>)
    ensures answer == Tier(q, order, tables, allowInference)
  {
    hide Lookup;
    var matches: seq<Answer> := [];
    ghost var all := Resolving(q, order, tables, allowInference);
    Seqs.Whole(tables);
    for i := 0 to |tables|
      invariant matches + Resolving(q, order, tables[i..], allowInference) == all
    {
      Seqs.DropStep(tables, i);
      var found := GenericTableLookup(q, order, tables[i], allowInference);
      if found.Some? {
        Seqs.Assoc(matches, [found.value], Resolving(q, order, tables[i + 1..], allowInference));
        matches := matches + [found.value];
      } else {
        Seqs.Units(Resolving(q, order, tables[i + 1..], allowInference));
      }
    }
    Seqs.Units(matches);
    answer := if |matches| == 1 then Some(matches[0]) else None;
  }

  /** The generic tiers, around the answers of the two bespoke lookups. */
  method FindDecisionTableAnswer(q: Question, order: Order, gem: Option<Answer>, operational: seq<Table>,
                                 merged: Option<Answer>, billing: seq<Table>, glossaries: seq<Table>)
    returns (answer: Option<Answer>)
    ensures answer == Found(q, order, gem, operational, merged, billing, glossaries)
  {
    if gem.Some? {
      return gem;
    }
    var first := FirstUnambiguousMatch(q, order, operational, true);
    if first.Some? {
      return first;
    }
    if merged.Some? {
      return merged;
    }
    var second := FirstUnambiguousMatch(q, order, billing, false);
    if second.Some? {
      return second;
    }
    answer := FirstUnambiguousMatch(q, order, glossaries, false);
  }

  function Or(a: Option<Answer>, b: Option<Answer>): Option<Answer> {
    if a.Some? then a else b
  }

  function Found(q: Question, order: Order, gem: Option<Answer>, operational: seq<Table>,
                 merged: Option<Answer>, billing: seq<Table>, glossaries: seq<Table>): Option<Answer> {
    Or(gem, Or(Tier(q, order, operational, true), Or(merged, Or(Tier(q, order, billing, false), Tier(q, order, glossaries, false)))))
  }

  lemma {:induction false} ResolvingConcat(q: Question, order: Order, a: seq<Table>, b: seq<Table>,
      allowInference: bool)
    ensures Resolving(q, order, a + b, allowInference)
         == Resolving(q, order, a, allowInference) + Resolving(q, order, b, allowInference)
  {
    hide Lookup;
    if a == [] {
      Seqs.Units(b);
      Seqs.Units(Resolving(q, order, b, allowInference));
    } else {
      var first := Lookup(q, order, a[0], allowInference);
      ResolvingConcat(q, order, a[1..], b, allowInference);
      Seqs.Uncons(a, b);
      Seqs.Assoc(if first.Some? then [first.value] else [], Resolving(q, order, a[1..], allowInference), Resolving(q, order, b, allowInference));
    }
  }

  /** Adding a table to a tier, anywhere, never replaces one answer by another: it can only take
      an answer away, or give one where no table of the tier resolved. */
  lemma {:induction false} AddedTableNeverReplaces(q: Question, order: Order, a: seq<Table>, t: Table,
      b: seq<Table>, allowInference: bool)
    ensures var before, after := Tier(q, order, a + b, allowInference), Tier(q, order, a + [t] + b, allowInference);
            && (before.Some? && after.Some? ==> before == after)
            && (before.None? && after.Some? ==>
                  Resolving(q, order, a + b, allowInference) == [] && after == Lookup(q, order, t, allowInference))
  {
    hide Lookup;
    ResolvingConcat(q, order, a, b, allowInference);
    ResolvingConcat(q, order, a + [t], b, allowInference);
    ResolvingConcat(q, order, a, [t], allowInference);
    assert [t][1..] == [];
  }

  lemma {:induction false} TakenOut(q: Question, order: Order, tables: seq<Table>, allowInference: bool, i: nat)
    requires i < |tables|
    ensures multiset(Resolving(q, order, tables, allowInference))
         == multiset(Resolving(q, order, [tables[i]], allowInference))
            + multiset(Resolving(q, order, tables[..i] + tables[i + 1..], allowInference))
  {
    hide Lookup;
    var a, b := tables[..i], tables[i + 1..];
    assert tables == a + [tables[i]] + b;
    ResolvingConcat(q, order, a + [tables[i]], b, allowInference);
    ResolvingConcat(q, order, a, [tables[i]], allowInference);
    ResolvingConcat(q, order, a, b, allowInference);
  }

  lemma {:induction false} PositionOf(t: Table, others: seq<Table>) returns (i: nat)
    requires t in multiset(others)
    ensures i < |others| && others[i] == t
  {
    i :| i < |others| && others[i] == t;
  }

  lemma {:induction false} SameRest(tables: seq<Table>, others: seq<Table>, i: nat)
    requires tables != [] && i < |others| && others[i] == tables[0] && multiset(tables) == multiset(others)
    ensures multiset(tables[1..]) == multiset(others[..i] + others[i + 1..])
  {
    Seqs.Without(others, i);
    Seqs.Without(tables, 0);
    Seqs.TakeNone(tables);
    Seqs.Units(tables[1..]);
  }

  lemma {:induction false} ResolvingPermutes(q: Question, order: Order, tables: seq<Table>, others: seq<Table>,
      allowInference: bool)
    requires multiset(tables) == multiset(others)
    ensures multiset(Resolving(q, order, tables, allowInference)) == multiset(Resolving(q, order, others, allowInference))
    decreases |tables|
  {
    hide Resolving;
    if tables == [] {
      assert |others| == |multiset(others)| == 0;
    } else {
      var i := PositionOf(tables[0], others);
      SameRest(tables, others, i);
      Seqs.Units(tables[1..]);
      Seqs.TakeNone(tables);
      ResolvingPermutes(q, order, tables[1..], others[..i] + others[i + 1..], allowInference);
      TakenOut(q, order, tables, allowInference, 0);
      TakenOut(q, order, others, allowInference, i);
    }
  }

  /** The order of the tables of a tier changes nothing. */
  lemma {:induction false} TierIsOrderFree(q: Question, order: Order, tables: seq<Table>, others: seq<Table>,
      allowInference: bool)
    requires multiset(tables) == multiset(others)
    ensures Tier(q, order, tables, allowInference) == Tier(q, order, others, allowInference)
  {
    hide Lookup;
    var a, b := Resolving(q, order, tables, allowInference), Resolving(q, order, others, allowInference);
    ResolvingPermutes(q, order, tables, others, allowInference);
    assert |a| == |multiset(a)| == |multiset(b)| == |b|;
    if |a| == 1 {
      assert a[0] in multiset(b);
    }
  }
}
