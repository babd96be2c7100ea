/** Reading undoes writing, for every JSON value. */
module JsonRoundTrip {
  import opened Wrappers
  import opened Json
  import Seqs = Sequences

  /** Every number is a number. */
  predicate WellFormed(v: Json)
    decreases v, 1
  {
    match v
    case Number(lexeme) => IsNumber(lexeme)
    case Arr(items) => forall i | 0 <= i < |items| :: WellFormed(items[i])
    case Obj(fields) => forall i | 0 <= i < |fields| :: WellFormed(fields[i].value)
    case _ => true
  }

  predicate Stops(rest: string) {
    rest == "" || !IsNumberChar(rest[0])
  }

  // ---------- strings ----------

  lemma {:induction false} HexRoundTrip(n: nat)
    requires n < 32
    ensures HexCode(['0', '0', HexChar(n / 16), HexChar(n % 16)]) == Some(n)
  {
    assert HexValue(HexChar(n / 16)) == Some(n / 16);
    assert HexValue(HexChar(n % 16)) == Some(n % 16);
  }

  lemma {:induction false} ReadEscapedChar(c: char, rest: string)
    ensures ReadChar(EscapeChar(c) + rest) == Good(c, rest)
  {
    var s := EscapeChar(c) + rest;
    if |EscapeChar(c)| == 6 {
      HexRoundTrip(c as nat);
      assert s[2..][..4] == ['0', '0', HexChar(c as nat / 16), HexChar(c as nat % 16)];
      assert s[2..][4..] == rest;
    } else if |EscapeChar(c)| == 2 {
      assert s[2..] == rest;
    } else {
      assert s[1..] == rest;
    }
  }

  lemma {:induction false} ReadEscaped(text: string, rest: string)
    ensures ReadString(Escape(text) + "\"" + rest) == Good(text, rest)
  {
    var s := Escape(text) + "\"" + rest;
    if text == "" {
      assert s == "\"" + rest && s[1..] == rest;
    } else {
      var tail := Escape(text[1..]) + "\"" + rest;
      assert s == EscapeChar(text[0]) + tail;
      ReadEscapedChar(text[0], tail);
      ReadEscaped(text[1..], rest);
      assert s[0] == EscapeChar(text[0])[0] != '\"';
      assert [text[0]] + text[1..] == text;
    }
  }

  lemma {:induction false} NumberIsRead(lexeme: string, rest: string)
    requires (forall i | 0 <= i < |lexeme| :: IsNumberChar(lexeme[i])) && Stops(rest)
    ensures NumberLength(lexeme + rest) == |lexeme|
  {
    var s := lexeme + rest;
    if lexeme != "" {
      assert s[1..] == lexeme[1..] + rest;
      NumberIsRead(lexeme[1..], rest);
    } else {
      assert s == rest;
    }
  }

  // ---------- values ----------

  /** What one value must satisfy; the rest of the text must not continue a number. */
  ghost predicate Reads(v: Json) {
    forall rest | Stops(rest) :: ReadValue(Write(v) + rest) == Good(v, rest)
  }

  /** Written values start with neither space nor closing bracket. */
  lemma {:induction false} FirstChar(v: Json)
    requires WellFormed(v)
    ensures Write(v) != "" && !IsJsonSpace(Write(v)[0]) && Write(v)[0] != ']' && Write(v)[0] != '}'
  {
  }

  lemma {:induction false} LiteralReads(v: Json, rest: string)
    requires v.Null? || v.Bool?
    ensures ReadValue(Write(v) + rest) == Good(v, rest)
  {
    var s := Write(v) + rest;
    assert SkipSpace(s) == s;
    assert Write(v) <= s && s[|Write(v)|..] == rest;
  }

  lemma {:induction false} NumberReads(lexeme: string, rest: string)
    requires IsNumber(lexeme) && Stops(rest)
    ensures ReadValue(lexeme + rest) == Good(Number(lexeme), rest)
  {
    var s := lexeme + rest;
    NumberIsRead(lexeme, rest);
    assert s[0] == lexeme[0] && IsNumberChar(s[0]);
    assert SkipSpace(s) == s;
    assert s[..|lexeme|] == lexeme && s[|lexeme|..] == rest;
  }

  lemma {:induction false} StringReads(text: string, rest: string)
    ensures ReadValue(Quote(text) + rest) == Good(Str(text), rest)
  {
    var s := Quote(text) + rest;
    assert SkipSpace(s) == s;
    assert s[1..] == Escape(text) + "\"" + rest;
    ReadEscaped(text, rest);
  }

  // One step of each reading loop.

  lemma {:induction false} LastItem(s: string, v: Json, rest: string)
    requires ReadValue(s) == Good(v, "]" + rest)
    ensures ReadItems(s) == Good([v], rest)
  {
    var after := "]" + rest;
    assert SkipSpace(after) == after && after[1..] == rest;
  }

  lemma {:induction false} NextItem(s: string, v: Json, tail: string, vs: seq<Json>, rest: string)
    requires ReadValue(s) == Good(v, "," + tail) && ReadItems(tail) == Good(vs, rest)
    ensures ReadItems(s) == Good([v] + vs, rest)
  {
    var after := "," + tail;
    assert SkipSpace(after) == after && after[1..] == tail;
  }

  lemma {:induction false} LastField(s: string, f: Field, rest: string)
    requires ReadField(s) == Good(f, "}" + rest)
    ensures ReadFields(s) == Good([f], rest)
  {
    var after := "}" + rest;
    assert SkipSpace(after) == after && after[1..] == rest;
  }

  lemma {:induction false} NextField(s: string, f: Field, tail: string, fs: seq<Field>, rest: string)
    requires ReadField(s) == Good(f, "," + tail) && ReadFields(tail) == Good(fs, rest)
    ensures ReadFields(s) == Good([f] + fs, rest)
  {
    var after := "," + tail;
    assert SkipSpace(after) == after && after[1..] == tail;
  }

  lemma {:induction false} WrittenItems(items: seq<Json>, end: string)
    requires |items| > 1
    ensures WriteItems(items) + end == Write(items[0]) + ("," + (WriteItems(items[1..]) + end))
  {
  }

  lemma {:induction false} WrittenFields(fields: seq<Field>, end: string)
    requires |fields| > 1
    ensures WriteFields(fields) + end == WriteField(fields[0]) + ("," + (WriteFields(fields[1..]) + end))
  {
  }

  lemma {:induction false} ItemsRead(items: seq<Json>, rest: string)
    requires items != [] && forall i | 0 <= i < |items| :: Reads(items[i])
    ensures ReadItems(WriteItems(items) + ("]" + rest)) == Good(items, rest)
  {
    hide ReadItems;
    hide ReadValue;
    hide Write;
    var first, end := items[0], "]" + rest;
    if |items| == 1 {
      assert ReadValue(Write(first) + end) == Good(first, end);
      LastItem(Write(first) + end, first, rest);
      assert items == [first];
    } else {
      var tail := WriteItems(items[1..]) + end;
      ItemsRead(items[1..], rest);
      assert ReadValue(Write(first) + ("," + tail)) == Good(first, "," + tail);
      NextItem(Write(first) + ("," + tail), first, tail, items[1..], rest);
      WrittenItems(items, end);
      assert items == [first] + items[1..];
    }
  }

  lemma {:induction false} ReadFieldParts(s: string, name: string, after: string, v: Json, rest: string)
    requires s != "" && s[0] == '\"' && ReadString(s[1..]) == Good(name, ":" + after) && ReadValue(after) == Good(v, rest)
    ensures ReadField(s) == Good(Field(name, v), rest)
  {
    hide ReadString;
    hide ReadValue;
    var colon := ":" + after;
    assert SkipSpace(s) == s && SkipSpace(colon) == colon && colon[1..] == after;
  }

  lemma {:induction false} WrittenField(f: Field, rest: string)
    ensures var s := WriteField(f) + rest;
            s != "" && s[0] == '\"' && s[1..] == Escape(f.name) + "\"" + (":" + (Write(f.value) + rest))
  {
    hide Write;
    hide Escape;
  }

  lemma {:induction false} FieldReads(f: Field, rest: string)
    requires Reads(f.value) && Stops(rest)
    ensures ReadField(WriteField(f) + rest) == Good(f, rest)
  {
    hide ReadField;
    hide ReadString;
    hide WriteField;
    hide Write;
    var value := Write(f.value) + rest;
    WrittenField(f, rest);
    ReadEscaped(f.name, ":" + value);
    ReadFieldParts(WriteField(f) + rest, f.name, value, f.value, rest);
  }

  lemma {:induction false} FieldsRead(fields: seq<Field>, rest: string)
    requires fields != [] && forall i | 0 <= i < |fields| :: Reads(fields[i].value)
    ensures ReadFields(WriteFields(fields) + ("}" + rest)) == Good(fields, rest)
  {
    hide ReadFields;
    hide ReadField;
    hide WriteField;
    var first, end := fields[0], "}" + rest;
    if |fields| == 1 {
      FieldReads(first, end);
      LastField(WriteField(first) + end, first, rest);
      assert fields == [first];
    } else {
      var tail := WriteFields(fields[1..]) + end;
      FieldReads(first, "," + tail);
      FieldsRead(fields[1..], rest);
      NextField(WriteField(first) + ("," + tail), first, tail, fields[1..], rest);
      WrittenFields(fields, end);
      assert fields == [first] + fields[1..];
    }
  }

  lemma {:induction false} ArrayReads(items: seq<Json>, rest: string)
    requires forall i | 0 <= i < |items| :: WellFormed(items[i]) && Reads(items[i])
    ensures ReadValue(Write(Arr(items)) + rest) == Good(Arr(items), rest)
  {
    var s := Write(Arr(items)) + rest;
    var inner := WriteItems(items) + ("]" + rest);
    assert s == "[" + inner && s[1..] == inner && SkipSpace(s) == s;
    if items == [] {
      assert inner == "]" + rest && inner[1..] == rest;
    } else {
      FirstChar(items[0]);
      assert inner[0] == Write(items[0])[0];
      ItemsRead(items, rest);
    }
    assert ReadArray(inner) == Good(Arr(items), rest);
  }

  lemma {:induction false} ObjectReads(fields: seq<Field>, rest: string)
    requires forall i | 0 <= i < |fields| :: Reads(fields[i].value)
    ensures ReadValue(Write(Obj(fields)) + rest) == Good(Obj(fields), rest)
  {
    var s := Write(Obj(fields)) + rest;
    var inner := WriteFields(fields) + ("}" + rest);
    assert s == "{" + inner && s[1..] == inner && SkipSpace(s) == s;
    if fields == [] {
      assert inner == "}" + rest && inner[1..] == rest;
    } else {
      assert inner[0] == WriteFields(fields)[0] == WriteField(fields[0])[0] == '\"';
      FieldsRead(fields, rest);
    }
    assert ReadObject(inner) == Good(Obj(fields), rest);
  }

  lemma {:induction false} EveryValueReads(v: Json)
    requires WellFormed(v)
    ensures Reads(v)
    decreases v
  {
    forall rest | Stops(rest) ensures ReadValue(Write(v) + rest) == Good(v, rest) {
      match v {
        case Arr(items) =>
          forall i | 0 <= i < |items| ensures Reads(items[i]) { EveryValueReads(items[i]); }
          ArrayReads(items, rest);
        case Obj(fields) =>
          forall i | 0 <= i < |fields| ensures Reads(fields[i].value) { EveryValueReads(fields[i].value); }
          ObjectReads(fields, rest);
        case Number(lexeme) => NumberReads(lexeme, rest);
        case Str(text) => StringReads(text, rest);
        case _ => LiteralReads(v, rest);
      }
    }
  }

  /** Reading a written value gives the value back. */
  lemma {:induction false} ReadUndoesWrite(v: Json)
    requires WellFormed(v)
    ensures Read(Write(v)) == Some(v)
  {
    EveryValueReads(v);
    assert Write(v) + "" == Write(v);
    assert ReadValue(Write(v) + "") == Good(v, "");
  }

  // ---------- no line breaks ----------

  predicate NoControl(s: string) {
    forall i | 0 <= i < |s| :: !IsControl(s[i])
  }

  lemma {:induction false} EscapeHasNoControl(s: string)
    ensures NoControl(Escape(s))
  {
    if s != "" {
      EscapeHasNoControl(s[1..]);
    }
  }

  /** Written text has no control character at all, so it fits on one line. */
  lemma {:induction false} WriteHasNoControl(v: Json)
    requires WellFormed(v)
    ensures NoControl(Write(v))
    decreases v, 1
  {
    match v {
      case Str(text) => EscapeHasNoControl(text);
      case Arr(items) => ItemsHaveNoControl(items);
      case Obj(fields) => FieldsHaveNoControl(fields);
      case _ =>
    }
  }

  lemma {:induction false} ItemsHaveNoControl(items: seq<Json>)
    requires forall i | 0 <= i < |items| :: WellFormed(items[i])
    ensures NoControl(WriteItems(items))
    decreases items, 0
  {
    if items != [] {
      WriteHasNoControl(items[0]);
      ItemsHaveNoControl(items[1..]);
    }
  }

  lemma {:induction false} FieldsHaveNoControl(fields: seq<Field>)
    requires forall i | 0 <= i < |fields| :: WellFormed(fields[i].value)
    ensures NoControl(WriteFields(fields))
    decreases fields, 0
  {
    if fields != [] {
      EscapeHasNoControl(fields[0].name);
      WriteHasNoControl(fields[0].value);
      FieldsHaveNoControl(fields[1..]);
    }
  }
}
