/** Reading looks no further than it must: more text never changes a value that was read,
    and no proper prefix of a written object is a value. */
module JsonPrefixes {
  import opened Wrappers
  import opened Json
  import opened JsonRoundTrip
  import Seqs = Sequences

  lemma {:induction false} SkipSpaceMore(s: string, x: string)
    requires SkipSpace(s) != ""
    ensures SkipSpace(s + x) == SkipSpace(s) + x
  {
    if IsJsonSpace(s[0]) {
      assert (s + x)[1..] == s[1..] + x;
      SkipSpaceMore(s[1..], x);
    }
  }

  lemma {:induction false} UnicodeEscapeMore(s: string, x: string)
    requires UnicodeEscape(s).Good?
    ensures UnicodeEscape(s + x) == Good(UnicodeEscape(s).value, UnicodeEscape(s).rest + x)
  {
    assert (s + x)[..4] == s[..4] && (s + x)[4..] == s[4..] + x;
    if |s| >= 10 {
      assert (s + x)[6..10] == s[6..10] && (s + x)[10..] == s[10..] + x;
    }
  }

  lemma {:induction false} ReadCharMore(s: string, x: string)
    requires ReadChar(s).Good?
    ensures ReadChar(s + x) == Good(ReadChar(s).value, ReadChar(s).rest + x)
  {
    assert (s + x)[1..] == s[1..] + x;
    if s[0] == '\\' {
      assert (s + x)[2..] == s[2..] + x;
      if s[1] == 'u' {
        UnicodeEscapeMore(s[2..], x);
      }
    }
  }

  lemma {:induction false} ReadStringMore(s: string, x: string)
    requires ReadString(s).Good?
    ensures ReadString(s + x) == Good(ReadString(s).value, ReadString(s).rest + x)
    decreases |s|
  {
    assert s != "" ==> (s + x)[1..] == s[1..] + x;
    if s == "" || s[0] != '\"' {
      ReadCharMore(s, x);
      ReadStringMore(ReadChar(s).rest, x);
    }
  }

  lemma {:induction false} NumberLengthMore(s: string, x: string)
    requires NumberLength(s) < |s|
    ensures NumberLength(s + x) == NumberLength(s)
  {
    if IsNumberChar(s[0]) {
      assert (s + x)[1..] == s[1..] + x;
      NumberLengthMore(s[1..], x);
    }
  }

  /** More text may continue a number that ends the text, but nothing else. */
  lemma {:induction false} ReadValueMore(s: string, x: string)
    requires ReadValue(s).Good? && (ReadValue(s).rest != "" || !ReadValue(s).value.Number?)
    ensures ReadValue(s + x) == Good(ReadValue(s).value, ReadValue(s).rest + x)
    decreases |s|, 1
  {
    var t := SkipSpace(s);
    SkipSpaceMore(s, x);
    Seqs.Uncons(t, x);
    if t[0] == '\"' {
      ReadStringMore(t[1..], x);
    } else if t[0] == '[' {
      ReadArrayMore(t[1..], x);
    } else if t[0] == '{' {
      ReadObjectMore(t[1..], x);
    } else if t[0] == 'n' || t[0] == 't' || t[0] == 'f' {
      LiteralMore(t, x);
    } else {
      NumberMore(t, x);
    }
  }

  lemma {:induction false} LiteralMore(t: string, x: string)
    ensures Literal(t, "null", Null).Good? ==> Literal(t + x, "null", Null) == Good(Null, t[4..] + x)
    ensures Literal(t, "true", Bool(true)).Good? ==> Literal(t + x, "true", Bool(true)) == Good(Bool(true), t[4..] + x)
    ensures Literal(t, "false", Bool(false)).Good? ==> Literal(t + x, "false", Bool(false)) == Good(Bool(false), t[5..] + x)
  {
    assert |t| >= 4 ==> (t + x)[4..] == t[4..] + x;
    assert |t| >= 5 ==> (t + x)[5..] == t[5..] + x;
  }

  lemma {:induction false} NumberMore(t: string, x: string)
    requires NumberLength(t) < |t|
    ensures var n := NumberLength(t);
            NumberLength(t + x) == n && (t + x)[..n] == t[..n] && (t + x)[n..] == t[n..] + x
  {
    NumberLengthMore(t, x);
  }

  lemma {:induction false} ReadArrayMore(s: string, x: string)
    requires ReadArray(s).Good?
    ensures ReadArray(s + x) == Good(ReadArray(s).value, ReadArray(s).rest + x)
    decreases |s|, 3
  {
    var t := SkipSpace(s);
    if t != "" {
      SkipSpaceMore(s, x);
      Seqs.Uncons(t, x);
    }
    if t == "" || t[0] != ']' {
      ReadItemsMore(s, x);
    }
  }

  lemma {:induction false} ReadItemsMore(s: string, x: string)
    requires ReadItems(s).Good?
    ensures ReadItems(s + x) == Good(ReadItems(s).value, ReadItems(s).rest + x)
    decreases |s|, 2
  {
    hide ReadValue;
    hide SkipSpace;
    var first := ReadValue(s);
    var t := SkipSpace(first.rest);
    ReadValueMore(s, x);
    SkipSpaceMore(first.rest, x);
    Seqs.Uncons(t, x);
    if t[0] == ',' {
      ReadItemsMore(t[1..], x);
    }
  }

  lemma {:induction false} ReadObjectMore(s: string, x: string)
    requires ReadObject(s).Good?
    ensures ReadObject(s + x) == Good(ReadObject(s).value, ReadObject(s).rest + x)
    decreases |s|, 3
  {
    var t := SkipSpace(s);
    if t != "" {
      SkipSpaceMore(s, x);
      Seqs.Uncons(t, x);
    }
    if t == "" || t[0] != '}' {
      ReadFieldsMore(s, x);
    }
  }

  lemma {:induction false} ReadFieldMore(s: string, x: string)
    requires ReadField(s).Good? && ReadField(s).rest != ""
    ensures ReadField(s + x) == Good(ReadField(s).value, ReadField(s).rest + x)
    decreases |s|, 0
  {
    hide ReadValue;
    hide SkipSpace;
    hide ReadString;
    var t := SkipSpace(s);
    SkipSpaceMore(s, x);
    Seqs.Uncons(t, x);
    ReadStringMore(t[1..], x);
    var rest := ReadString(t[1..]).rest;
    var u := SkipSpace(rest);
    SkipSpaceMore(rest, x);
    Seqs.Uncons(u, x);
    ReadValueMore(u[1..], x);
  }

  lemma {:induction false} ReadFieldsMore(s: string, x: string)
    requires ReadFields(s).Good?
    ensures ReadFields(s + x) == Good(ReadFields(s).value, ReadFields(s).rest + x)
    decreases |s|, 2
  {
    hide ReadField;
    hide SkipSpace;
    var first := ReadField(s);
    var t := SkipSpace(first.rest);
    ReadFieldMore(s, x);
    SkipSpaceMore(first.rest, x);
    Seqs.Uncons(t, x);
    if t[0] == ',' {
      ReadFieldsMore(t[1..], x);
    }
  }

  lemma {:induction false} StartsObject(s: string)
    requires s != "" && s[0] == '{' && ReadValue(s).Good?
    ensures ReadValue(s).value.Obj?
  {
    assert SkipSpace(s) == s;
  }

  /** An object cut short cannot be read. */
  lemma {:induction false} CutObjectIsNoValue(v: Json, k: nat)
    requires WellFormed(v) && v.Obj? && k < |Write(v)|
    ensures Read(Write(v)[..k]).None?
  {
    var start, rest := Write(v)[..k], Write(v)[k..];
    EveryValueReads(v);
    assert Write(v) + "" == Write(v) && start + rest == Write(v);
    assert ReadValue(Write(v) + "") == Good(v, "");
    if k > 0 && ReadValue(start).Good? {
      assert start[0] == '{';
      StartsObject(start);
      ReadValueMore(start, rest);
      assert false;
    }
  }

  lemma {:induction false} SpaceOnly(x: string)
    ensures SkipSpace(x) == "" <==> forall i | 0 <= i < |x| :: x[i] == ' ' || x[i] == '\t' || x[i] == '\n' || x[i] == '\r'
  {
    if x != "" && IsJsonSpace(x[0]) {
      SpaceOnly(x[1..]);
      assert forall i | 0 < i < |x| :: x[i] == x[1..][i - 1];
    }
  }

  lemma {:induction false} SpaceThenMore(s: string, x: string)
    requires SkipSpace(s) == ""
    ensures SkipSpace(s + x) == SkipSpace(x)
  {
    if s == "" {
      assert s + x == x;
    } else {
      SpaceThenMore(s[1..], x);
      assert (s + x)[1..] == s[1..] + x;
    }
  }

  /** Behind a value that is no number only white space may follow; any other text makes it no value. */
  lemma {:induction false} TrailingTextIff(s: string, x: string)
    requires Read(s).Some? && !Read(s).value.Number?
    ensures Read(s + x).Some? <==> forall i | 0 <= i < |x| :: x[i] == ' ' || x[i] == '\t' || x[i] == '\n' || x[i] == '\r'
    ensures Read(s + x).Some? ==> Read(s + x) == Read(s)
  {
    hide ReadValue;
    ReadValueMore(s, x);
    SpaceThenMore(ReadValue(s).rest, x);
    SpaceOnly(x);
  }
}
