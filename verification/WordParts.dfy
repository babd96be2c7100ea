/** Words inside texts: the hyphen-separated parts of a word, and what a phrase contained in a
    text of words says about those words. */
module WordParts {
  import opened Text
  import opened LexicalScore
  import Seqs = Sequences

  // ---------- parts ----------

  /** One more character before some parts. */
  function Prepend(c: char, parts: seq<string>): (r: seq<string>)
    requires parts != []
    ensures r != []
  {
    if c == '-' then [""] + parts else [[c] + parts[0]] + parts[1..]
  }

  /** The parts of a word between its hyphens. */
  function Parts(word: string): (r: seq<string>)
    ensures r != []
  {
    if word == "" then [""] else Prepend(word[0], Parts(word[1..]))
  }

  function Front(parts: seq<string>): seq<string>
    requires parts != []
  {
    parts[..|parts| - 1]
  }

  function Last(parts: seq<string>): string
    requires parts != []
  {
    parts[|parts| - 1]
  }

  /** Parts written one after the other: the last of the one joins the first of the other. */
  function Glue(p: seq<string>, q: seq<string>): (r: seq<string>)
    requires p != [] && q != []
    ensures r != []
  {
    if |p| == 1 then [p[0] + q[0]] + q[1..] else [p[0]] + Glue(p[1..], q)
  }

  lemma {:induction false} GluePrepended(c: char, p: seq<string>, q: seq<string>)
    requires p != [] && q != []
    ensures Glue(Prepend(c, p), q) == Prepend(c, Glue(p, q))
  {
    if c == '-' {
      Seqs.HeadTail("", p);
    } else if |p| == 1 {
      assert [c] + (p[0] + q[0]) == ([c] + p[0]) + q[0];
      Seqs.HeadTail(p[0] + q[0], q[1..]);
    } else {
      Seqs.HeadTail([c] + p[0], p[1..]);
      Seqs.HeadTail(p[0], Glue(p[1..], q));
    }
  }

  lemma {:induction false} GlueKeeps(p: seq<string>, q: seq<string>)
    requires p != [] && q != []
    ensures Glue(p, q) == Front(p) + [Last(p) + q[0]] + q[1..]
  {
    if |p| == 1 {
      assert Front(p) == [];
      Seqs.Units([Last(p) + q[0]]);
    } else {
      GlueKeeps(p[1..], q);
      assert Front(p) == [p[0]] + Front(p[1..]);
      Seqs.Assoc([p[0]], Front(p[1..]), [Last(p) + q[0]]);
      Seqs.Assoc([p[0]], Front(p[1..]) + [Last(p) + q[0]], q[1..]);
    }
  }

  /** Writing one word after another glues their parts. */
  lemma {:induction false} PartsAreGlued(a: string, b: string)
    ensures Parts(a + b) == Glue(Parts(a), Parts(b))
  {
    if a == "" {
      assert a + b == b && [""][0] + Parts(b)[0] == Parts(b)[0];
    } else {
      hide Prepend;
      hide Glue;
      PartsAreGlued(a[1..], b);
      assert (a + b)[1..] == a[1..] + b;
      GluePrepended(a[0], Parts(a[1..]), Parts(b));
    }
  }

  lemma {:induction false} PartsOfConcat(a: string, b: string)
    ensures Parts(a + b) == Front(Parts(a)) + [Last(Parts(a)) + Parts(b)[0]] + Parts(b)[1..]
  {
    PartsAreGlued(a, b);
    GlueKeeps(Parts(a), Parts(b));
  }

  lemma {:induction false} NoHyphen(word: string)
    requires '-' !in word
    ensures Parts(word) == [word]
  {
    if word != "" {
      assert word[0] in word && forall c | c in word[1..] :: c in word;
      NoHyphen(word[1..]);
      assert [word[0]] + word[1..] == word;
    }
  }

  predicate Holds(parts: seq<string>, banned: set<string>) {
    exists k :: 0 <= k < |parts| && parts[k] in banned
  }

  /** Some part of the word is banned; some part other than the first, other than the last, or
      other than both. */
  predicate Taboo(word: string, banned: set<string>) {
    Holds(Parts(word), banned)
  }

  predicate TabooTail(word: string, banned: set<string>) {
    Holds(Parts(word)[1..], banned)
  }

  predicate TabooHead(word: string, banned: set<string>) {
    Holds(Front(Parts(word)), banned)
  }

  predicate TabooCore(word: string, banned: set<string>) {
    |Parts(word)| > 1 && Holds(Front(Parts(word))[1..], banned)
  }

  lemma {:induction false} HoldsInConcat(a: seq<string>, b: seq<string>, banned: set<string>)
    ensures Holds(a + b, banned) <==> Holds(a, banned) || Holds(b, banned)
  {
    if Holds(a, banned) {
      var k :| 0 <= k < |a| && a[k] in banned;
      assert (a + b)[k] == a[k];
    }
    if Holds(b, banned) {
      var k :| 0 <= k < |b| && b[k] in banned;
      assert (a + b)[|a| + k] == b[k];
    }
  }

  /** Whatever is written before a word leaves all but its first part as they are. */
  lemma {:induction false} TailKept(before: string, word: string, banned: set<string>)
    requires TabooTail(word, banned)
    ensures Taboo(before + word, banned)
  {
    PartsOfConcat(before, word);
    HoldsInConcat(Front(Parts(before)) + [Last(Parts(before)) + Parts(word)[0]], Parts(word)[1..], banned);
  }

  lemma {:induction false} HeadKept(word: string, after: string, banned: set<string>)
    requires TabooHead(word, banned)
    ensures Taboo(word + after, banned)
  {
    PartsOfConcat(word, after);
    var joined := [Last(Parts(word)) + Parts(after)[0]];
    Seqs.Assoc(Front(Parts(word)), joined, Parts(after)[1..]);
    HoldsInConcat(Front(Parts(word)), joined + Parts(after)[1..], banned);
  }

  lemma {:induction false} CoreKept(before: string, word: string, after: string, banned: set<string>)
    requires TabooCore(word, banned)
    ensures Taboo(before + word + after, banned)
  {
    PartsOfConcat(before, word);
    var start := Front(Parts(before)) + [Last(Parts(before)) + Parts(word)[0]];
    assert Front(Parts(before + word)) == start + Front(Parts(word))[1..];
    HoldsInConcat(start, Front(Parts(word))[1..], banned);
    HeadKept(before + word, after, banned);
  }

  // ---------- longer words ----------

  const PAD: string := "zzzzzzzzzzz"

  ghost predicate Short(banned: set<string>) {
    forall b | b in banned :: |b| < |PAD|
  }

  lemma {:induction false} PadIsOnePart()
    ensures Parts(PAD) == [PAD]
  {
    NoHyphen(PAD);
  }

  lemma {:induction false} OneHolds(part: string, banned: set<string>)
    requires Short(banned) && |part| >= |PAD|
    ensures !Holds([part], banned)
  {
  }

  lemma {:induction false} PaddedBefore(word: string, banned: set<string>)
    requires Short(banned)
    ensures Taboo(PAD + word, banned) ==> TabooTail(word, banned)
    ensures TabooHead(PAD + word, banned) ==> TabooCore(word, banned)
  {
    PadIsOnePart();
    PartsOfConcat(PAD, word);
    hide Parts;
    var first, rest := [PAD + Parts(word)[0]], Parts(word)[1..];
    assert Front(Parts(PAD)) == [];
    Seqs.Units(first);
    assert Parts(PAD + word) == first + rest;
    OneHolds(first[0], banned);
    HoldsInConcat(first, rest, banned);
    if rest == [] {
      assert Front(first + rest) == [];
    } else {
      assert Front(first + rest) == first + Front(Parts(word))[1..];
      HoldsInConcat(first, Front(Parts(word))[1..], banned);
    }
  }

  lemma {:induction false} PaddedAfter(word: string, banned: set<string>)
    requires Short(banned)
    ensures Taboo(word + PAD, banned) ==> TabooHead(word, banned)
  {
    PadIsOnePart();
    PartsOfConcat(word, PAD);
    var joined := [Last(Parts(word)) + PAD];
    assert Parts(PAD)[1..] == [];
    Seqs.Units(Front(Parts(word)) + joined);
    OneHolds(joined[0], banned);
    HoldsInConcat(Front(Parts(word)), joined, banned);
  }

  lemma {:induction false} TabooParts(word: string, banned: set<string>)
    ensures TabooTail(word, banned) || TabooHead(word, banned) ==> Taboo(word, banned)
    ensures TabooCore(word, banned) ==> TabooTail(word, banned) && TabooHead(word, banned)
  {
    var parts := Parts(word);
    assert parts == [parts[0]] + parts[1..] && parts == Front(parts) + [Last(parts)];
    HoldsInConcat([parts[0]], parts[1..], banned);
    HoldsInConcat(Front(parts), [Last(parts)], banned);
    if |parts| > 1 {
      assert Front(parts) == [parts[0]] + Front(parts)[1..] && parts[1..] == Front(parts)[1..] + [Last(parts)];
      HoldsInConcat([parts[0]], Front(parts)[1..], banned);
      HoldsInConcat(Front(parts)[1..], [Last(parts)], banned);
    }
  }

  // ---------- containment ----------

  lemma {:induction false} SplitAtPart(text: string, part: string) returns (before: string, after: string)
    requires Contains(text, part)
    ensures text == before + part + after
  {
    if part <= text {
      before, after := "", text[|part|..];
    } else {
      before, after := SplitAtPart(text[1..], part);
      before := [text[0]] + before;
    }
  }

  lemma {:induction false} PartIsContained(before: string, part: string, after: string)
    ensures Contains(before + part + after, part)
  {
    var text := before + part + after;
    if before == "" {
      assert part <= text;
    } else {
      PartIsContained(before[1..], part, after);
      assert text[1..] == before[1..] + part + after;
    }
  }

  lemma {:induction false} ContainedInContained(text: string, middle: string, part: string)
    requires Contains(text, middle) && Contains(middle, part)
    ensures Contains(text, part)
  {
    var a, d := SplitAtPart(text, middle);
    var b, c := SplitAtPart(middle, part);
    assert text == (a + b) + part + (c + d);
    PartIsContained(a + b, part, c + d);
  }

  lemma {:induction false} JoinConcat(a: seq<string>, b: seq<string>)
    requires a != [] && b != []
    ensures Join(" ", a + b) == Join(" ", a) + " " + Join(" ", b)
  {
    if |a| == 1 {
      assert (a + b)[1..] == b;
    } else {
      JoinConcat(a[1..], b);
      assert (a + b)[1..] == a[1..] + b;
    }
  }

  lemma {:induction false} ContainedInTail(a: seq<string>, b: seq<string>, part: string)
    requires b != [] && Contains(Join(" ", b), part)
    ensures Contains(Join(" ", a + b), part)
  {
    if a == [] {
      Seqs.Units(b);
    } else {
      JoinConcat(a, b);
      Seqs.Units(Join(" ", b));
      assert Join(" ", a + b) == (Join(" ", a) + " ") + Join(" ", b) + "";
      PartIsContained(Join(" ", a) + " ", Join(" ", b), "");
      ContainedInContained(Join(" ", a + b), Join(" ", b), part);
    }
  }

  lemma {:induction false} ContainedInFront(a: seq<string>, b: seq<string>, part: string)
    requires a != [] && Contains(Join(" ", a), part)
    ensures Contains(Join(" ", a + b), part)
  {
    if b == [] {
      Seqs.Units(a);
    } else {
      JoinConcat(a, b);
      assert Join(" ", a + b) == "" + Join(" ", a) + (" " + Join(" ", b));
      PartIsContained("", Join(" ", a), " " + Join(" ", b));
      ContainedInContained(Join(" ", a + b), Join(" ", a), part);
    }
  }

  /** Adjacent words of a text are contained in it as a phrase. */
  lemma {:induction false} PhraseContained(words: seq<string>, j: nat)
    requires 0 < j < |words|
    ensures Contains(Join(" ", words), words[j - 1] + " " + words[j])
  {
    var pair, tail := [words[j - 1], words[j]], words[j + 1..];
    assert pair[1..] == [words[j]];
    Seqs.Units(Join(" ", pair));
    PartIsContained("", Join(" ", pair), "");
    ContainedInFront(pair, tail, words[j - 1] + " " + words[j]);
    ContainedInTail(words[..j - 1], pair + tail, words[j - 1] + " " + words[j]);
    assert words == words[..j - 1] + (pair + tail);
  }

  // ---------- which words a contained text touches ----------

  /** A text that ends with a word: its last word ends with it. */
  lemma {:induction false} EndsInWord(a: string, l: string) returns (x: string)
    requires IsWord(l)
    ensures Words(a + l) != [] && Words(a + l)[|Words(a + l)| - 1] == x + l
    decreases |a|
  {
    var n := WordLength(a);
    if a != "" && IsSpace(a[0]) {
      x := EndsInWord(a[1..], l);
      assert a + l == [a[0]] + (a[1..] + l);
      WordsOfLeadingSpace(a[0], a[1..] + l);
    } else if n == |a| {
      x := a;
      assert IsWord(a + l);
      Seqs.Units(a + l);
      WordsOfLeadingWord(a + l, "");
    } else {
      x := EndsInWord(a[n..], l);
      assert a + l == a[..n] + (a[n..] + l);
      WordsOfLeadingWord(a[..n], a[n..] + l);
    }
  }

  /** A text that begins with a word: its first word begins with it. */
  lemma {:induction false} StartsInWord(r: string, b: string) returns (y: string)
    requires IsWord(r)
    ensures Words(r + b) != [] && Words(r + b)[0] == r + y
  {
    var n := WordLength(b);
    y := b[..n];
    assert r + b == (r + y) + b[n..];
    WordsOfLeadingWord(r + y, b[n..]);
  }

  lemma {:induction false} WordsOfTwo(a: string, b: string)
    ensures Words(a + " " + b) == Words(a) + Words(b)
  {
    assert a + " " + b == a + ([' '] + b);
    WordsOfConcat(a, [' '] + b);
    WordsOfLeadingSpace(' ', b);
  }

  /** A phrase of two words: the first ends a word of the text, and the second begins the next. */
  lemma {:induction false} PhraseInWords(words: seq<string>, l: string, r: string)
    returns (j: nat, x: string, y: string)
    requires AreWords(words) && IsWord(l) && IsWord(r) && Contains(Join(" ", words), l + " " + r)
    ensures 0 < j < |words| && words[j - 1] == x + l && words[j] == r + y
  {
    var a, b := SplitAtPart(Join(" ", words), l + " " + r);
    assert Join(" ", words) == (a + l) + " " + (r + b);
    WordsOfJoin(words);
    WordsOfTwo(a + l, r + b);
    x := EndsInWord(a, l);
    y := StartsInWord(r, b);
    j := |Words(a + l)|;
  }

  /** One word: it stands in a word of the text. */
  lemma {:induction false} WordInWords(words: seq<string>, t: string) returns (i: nat, x: string, y: string)
    requires AreWords(words) && IsWord(t) && Contains(Join(" ", words), t)
    ensures i < |words| && words[i] == x + t + y
  {
    var a, b := SplitAtPart(Join(" ", words), t);
    var n := WordLength(b);
    y := b[..n];
    assert Join(" ", words) == (a + (t + y)) + b[n..];
    WordsOfJoin(words);
    WordsOfConcat(a + (t + y), b[n..]);
    x := EndsInWord(a, t + y);
    i := |Words(a + (t + y))| - 1;
    Seqs.Assoc(x, t, y);
  }

  /** A word that a text of words contains between two spaces is one of its words. */
  lemma {:induction false} SpacedWordIsWord(words: seq<string>, w: string)
    requires AreWords(words) && IsWord(w) && Contains(Join(" ", words), " " + w + " ")
    ensures w in words
  {
    var a, b := SplitAtPart(Join(" ", words), " " + w + " ");
    assert Join(" ", words) == a + " " + (w + " " + b);
    WordsOfJoin(words);
    hide Words;
    WordsOfTwo(a, w + " " + b);
    WordsOfTwo(w, b);
    WordsOfOne(w);
    assert Words(Join(" ", words)) == Words(a) + ([w] + Words(b));
  }

  lemma WordsOfOne(w: string)
    requires IsWord(w)
    ensures Words(w) == [w]
  {
    Seqs.Units(w);
    WordsOfLeadingWord(w, "");
  }

  lemma {:induction false} InnerWordIsSpaced(terms: seq<string>, i: nat)
    requires 0 < i < |terms| - 1
    ensures Contains(Join(" ", terms), " " + terms[i] + " ")
  {
    var a, b := terms[..i], terms[i + 1..];
    assert terms == a + ([terms[i]] + b);
    JoinConcat(a, [terms[i]] + b);
    JoinConcat([terms[i]], b);
    assert Join(" ", terms) == Join(" ", a) + (" " + terms[i] + " ") + Join(" ", b);
    PartIsContained(Join(" ", a), " " + terms[i] + " ", Join(" ", b));
  }
}
