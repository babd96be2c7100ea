/** Which values the reader of the chat stream takes for events. */
module ChatShapes {
  import opened Wrappers
  import opened Json
  import opened ChatStream
  import Seqs = Sequences

  /** A member of an object; of several with one name the last counts. */
  predicate IsMember(v: Json, name: string, value: Json) {
    v.Obj? && exists i | 0 <= i < |v.fields| ::
      && v.fields[i] == Field(name, value)
      && forall j | i < j < |v.fields| :: v.fields[j].name != name
  }

  lemma {:induction false} MemberIsLast(fields: seq<Field>, name: string, value: Json)
    ensures Member(fields, name) == Some(value) <==> IsMember(Obj(fields), name, value)
  {
    if fields != [] {
      var n := |fields| - 1;
      MemberIsLast(fields[..n], name, value);
      assert forall j | 0 <= j < n :: fields[..n][j] == fields[j];
    }
  }

  lemma {:induction false} OnlyMember(v: Json, name: string, a: Json, b: Json)
    requires IsMember(v, name, a) && IsMember(v, name, b)
    ensures a == b
  {
  }

  ghost predicate HasText(v: Json, name: string) {
    exists text :: IsMember(v, name, Str(text))
  }

  ghost predicate HasFlag(v: Json, name: string) {
    exists b :: IsMember(v, name, Bool(b))
  }

  ghost predicate HasSources(v: Json) {
    exists items :: IsMember(v, "sources", Arr(items)) && Null !in items
  }

  ghost predicate IsOf(v: Json, kind: string) {
    IsMember(v, "type", Str(kind))
  }

  lemma {:induction false} TextIff(v: Json, name: string)
    requires v.Obj?
    ensures Text(Member(v.fields, name)).Some? <==> HasText(v, name)
    ensures forall text :: Text(Member(v.fields, name)) == Some(text) <==> IsMember(v, name, Str(text))
  {
    hide IsMember;
    forall text ensures Text(Member(v.fields, name)) == Some(text) <==> IsMember(v, name, Str(text)) {
      MemberIsLast(v.fields, name, Str(text));
    }
    if Text(Member(v.fields, name)).Some? {
      assert IsMember(v, name, Str(Text(Member(v.fields, name)).value));
    }
  }

  lemma {:induction false} FlagIff(v: Json, name: string)
    requires v.Obj?
    ensures var m := Member(v.fields, name); m.Some? && m.value.Bool? <==> HasFlag(v, name)
  {
    hide IsMember;
    forall b ensures Member(v.fields, name) == Some(Bool(b)) <==> IsMember(v, name, Bool(b)) {
      MemberIsLast(v.fields, name, Bool(b));
    }
    var m := Member(v.fields, name);
    if m.Some? && m.value.Bool? {
      assert IsMember(v, name, Bool(m.value.b));
    }
  }

  lemma {:induction false} SourcesIff(v: Json)
    requires v.Obj?
    ensures var m := Member(v.fields, "sources"); m.Some? && m.value.Arr? && Null !in m.value.items <==> HasSources(v)
  {
    hide IsMember;
    forall items ensures Member(v.fields, "sources") == Some(Arr(items)) <==> IsMember(v, "sources", Arr(items)) {
      MemberIsLast(v.fields, "sources", Arr(items));
    }
    var m := Member(v.fields, "sources");
    if m.Some? && m.value.Arr? && Null !in m.value.items {
      assert IsMember(v, "sources", Arr(m.value.items));
    }
  }

  /** A value is taken for an event of a kind exactly when it is an object with that type and with the members
      the kind needs: a text, a status and a flag, nothing, or a question, a confidence and a list of
      sources without null. */
  lemma {:induction false} EventIffShaped(v: Json)
    ensures var e := Normalize(v);
            && (e.Some? && e.value.Token? <==> IsOf(v, "token") && HasText(v, "text"))
            && (e.Some? && e.value.Done? <==> IsOf(v, "done") && HasText(v, "status") && HasFlag(v, "partial"))
            && (e.Some? && e.value.Failure? <==> IsOf(v, "error"))
            && (e.Some? && e.value.Metadata? <==>
                  IsOf(v, "metadata") && HasText(v, "question") && HasText(v, "confidence") && HasSources(v))
  {
    hide IsOf;
    hide HasText;
    hide HasFlag;
    hide HasSources;
    hide FirstOfEach;
    if v.Obj? {
      TypeIs(v, "token");
      TypeIs(v, "done");
      TypeIs(v, "error");
      TypeIs(v, "metadata");
      IsText(v, "text");
      IsText(v, "status");
      IsText(v, "question");
      IsText(v, "confidence");
      FlagIff(v, "partial");
      SourcesIff(v);
      hide Member;
    } else {
      NoMembers(v);
    }
  }

  lemma {:induction false} TypeIs(v: Json, kind: string)
    requires v.Obj?
    ensures Text(Member(v.fields, "type")) == Some(kind) <==> IsOf(v, kind)
  {
    TextIff(v, "type");
  }

  lemma {:induction false} IsText(v: Json, name: string)
    requires v.Obj?
    ensures Text(Member(v.fields, name)).Some? <==> HasText(v, name)
  {
    TextIff(v, name);
  }

  lemma NoMembers(v: Json)
    requires !v.Obj?
    ensures !IsOf(v, "token") && !IsOf(v, "done") && !IsOf(v, "error") && !IsOf(v, "metadata")
  {
  }

  /** And it carries their values. */
  lemma {:induction false} EventCarriesMembers(v: Json)
    requires Normalize(v).Some?
    ensures match Normalize(v).value
            case Token(text) => IsMember(v, "text", Str(text))
            case Done(status, partial, _, _) => IsMember(v, "status", Str(status)) && IsMember(v, "partial", Bool(partial))
            case Failure(code, message) =>
              && (code.Some? ==> IsMember(v, "code", Str(code.value)))
              && (message.Some? ==> IsMember(v, "message", Str(message.value)))
            case Metadata(question, confidence, sources, _, _, _) =>
              && IsMember(v, "question", Str(question)) && IsMember(v, "confidence", Str(confidence))
              && exists items :: IsMember(v, "sources", Arr(items)) && sources == FirstOfEach(items)
  {
    hide IsMember;
    hide FirstOfEach;
    hide Member;
    match Normalize(v).value {
      case Token(text) => TextIff(v, "text");
      case Done(status, partial, _, _) =>
        TextIff(v, "status");
        MemberIsLast(v.fields, "partial", Bool(partial));
      case Failure(code, message) =>
        TextIff(v, "code");
        TextIff(v, "message");
      case Metadata(question, confidence, _, _, _, _) =>
        TextIff(v, "question");
        TextIff(v, "confidence");
        var items := Member(v.fields, "sources").value.items;
        MemberIsLast(v.fields, "sources", Arr(items));
    }
  }

  // ---------- sources ----------

  ghost predicate NoId(source: Json) {
    forall v :: IsMember(source, "id", v) ==> v == Null
  }

  lemma {:induction false} KeyOfId(source: Json, id: Json)
    requires IsMember(source, "id", id) && id != Null
    ensures SourceKey(source) == id
  {
    hide IsMember;
    IsObject(source, "id", id);
    MemberIsLast(source.fields, "id", id);
  }

  lemma IsObject(v: Json, name: string, value: Json)
    requires IsMember(v, name, value)
    ensures v.Obj?
  {
  }

  /** Two sources with an identifier repeat each other if and only if it is the same one, and no list or object. */
  lemma {:induction false} RepeatsById(a: Json, b: Json, x: Json, y: Json)
    requires IsMember(a, "id", x) && IsMember(b, "id", y) && x != Null && y != Null
    ensures Repeats(a, b) <==> x == y && !y.Arr? && !y.Obj?
  {
    hide IsMember;
    KeyOfId(a, x);
    KeyOfId(b, y);
    hide SourceKey;
  }

  lemma {:induction false} KeyWithoutId(source: Json)
    requires source.Obj? && NoId(source)
    ensures SourceKey(source) ==
            Str(ShownMember(source, "rank") + "|" + ShownMember(source, "kb_code") + "|" +
                ShownMember(source, "article_title") + "|" + ShownMember(source, "section_title") + "|" +
                ShownMember(source, "text"))
  {
    hide ShownMember;
    hide IsMember;
    var id := Member(source.fields, "id");
    if id.Some? {
      MemberIsLast(source.fields, "id", id.value);
    }
  }

  /** Two sources without identifiers and with the same rank, codes and titles repeat each other if and only if
      their texts are the same. */
  lemma {:induction false} RepeatsByText(a: Json, b: Json)
    requires a.Obj? && b.Obj? && NoId(a) && NoId(b)
    requires forall name | name in {"rank", "kb_code", "article_title", "section_title"} ::
               ShownMember(a, name) == ShownMember(b, name)
    ensures Repeats(a, b) <==> ShownMember(a, "text") == ShownMember(b, "text")
  {
    hide ShownMember;
    KeyWithoutId(a);
    KeyWithoutId(b);
    hide SourceKey;
    var same := ShownMember(a, "rank") + "|" + ShownMember(a, "kb_code") + "|" +
                ShownMember(a, "article_title") + "|" + ShownMember(a, "section_title") + "|";
    assert SourceKey(a) == Str(same + ShownMember(a, "text")) && SourceKey(b) == Str(same + ShownMember(b, "text"));
    assert (same + ShownMember(a, "text"))[|same|..] == ShownMember(a, "text");
    assert (same + ShownMember(b, "text"))[|same|..] == ShownMember(b, "text");
  }

  /** Whether a source is kept depends on those before it only, so that of several it is the first. */
  lemma {:induction false} SourceIsKeptIff(before: seq<Json>, source: Json, after: seq<Json>)
    ensures FirstOfEach(before + [source]) ==
            FirstOfEach(before) + if exists s :: s in before && Repeats(s, source) then [] else [source]
    ensures FirstOfEach(before) <= FirstOfEach(before + after)
  {
    hide Repeats;
    Seqs.FrontLast(before, source);
    if after == [] {
      Seqs.Units(before);
    } else {
      var n := |after| - 1;
      SourceIsKeptIff(before, source, after[..n]);
      Seqs.Unsnoc(before, after);
    }
  }
}
