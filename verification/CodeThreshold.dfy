/** When exact codes decide the lexical order.  The most that a chunk without some of the
    codes can score and the least that a chunk with all of them can score are both reached, and
    so their difference is the exact threshold. */
module CodeThreshold {
  import opened Text
  import opened LexicalScore
  import opened WordParts
  import Seqs = Sequences

  const MAX_CODE_LENGTH: nat := 10

  /** The parts of words that only a chunk with one of these codes can have. */
  function Banned(missing: set<string>): set<string> {
    set code | code in missing :: Lower(code)
  }

  /** Words and tokens of one text: a chunk that has a code as a word, or between the hyphens of a
      word, has the code. */
  ghost predicate Consistent(q: Query, c: Chunk) {
    && AreWords(c.terms)
    && forall code, w | code in q.codes && w in c.terms && Lower(code) in Parts(w) :: code in c.tokens
  }

  predicate AreCodes(codes: set<string>) {
    forall code | code in codes :: 2 <= |code| <= MAX_CODE_LENGTH && '-' !in code
  }

  // ---------- the most and the least ----------

  /** No chunk without the codes matches this word. */
  ghost predicate Lost(term: string, banned: set<string>) {
    forall form | form in MatchForms(term) :: Taboo(form, banned)
  }

  ghost function TopTerms(terms: seq<string>, generic: set<string>, banned: set<string>): real {
    if terms == [] then 0.0
    else
      var n := |terms| - 1;
      TopTerms(terms[..n], generic, banned)
      + if Lost(terms[n], banned) then 0.0 else if Matches(terms[n], generic) then 0.35 else 2.0
  }

  /** Two words can stand beside each other, the first ending a word of the chunk and the second
      beginning the next. */
  predicate CanMeet(left: string, right: string, banned: set<string>) {
    !TabooTail(left, banned) && !TabooHead(right, banned)
  }

  function TopPhrase(left: string, right: string, generic: set<string>, banned: set<string>): real {
    if !CanMeet(left, right, banned) then 0.0
    else if Matches(left, generic) && Matches(right, generic) then 0.40
    else 8.0
  }

  function TopPhrases(terms: seq<string>, generic: set<string>, banned: set<string>): real {
    if |terms| < 2 then 0.0
    else
      var n := |terms|;
      TopPhrases(terms[..n - 1], generic, banned) + TopPhrase(terms[n - 2], terms[n - 1], generic, banned)
  }

  /** A chunk without the codes can contain the whole query: its inner words as they are, the
      first at the end of a word and the last at the beginning of one. */
  predicate CanContain(terms: seq<string>, banned: set<string>) {
    && terms != []
    && (forall i | 0 < i < |terms| - 1 :: !Taboo(terms[i], banned))
    && if |terms| == 1 then !TabooCore(terms[0], banned) else CanMeet(terms[0], terms[|terms| - 1], banned)
  }

  function TopQuery(terms: seq<string>, generic: set<string>, banned: set<string>): real {
    if !CanContain(terms, banned) then 0.0 else if Specific(terms, generic) then 8.0 else 1.0
  }

  ghost predicate CanOverlap(terms: seq<string>, generic: set<string>, banned: set<string>) {
    exists i :: 0 <= i < |terms| && !Matches(terms[i], generic) && !Lost(terms[i], banned)
  }

  /** The most a chunk without the codes scores, codes aside. */
  ghost function Most(q: Query, missing: set<string>, generic: set<string>): real {
    var banned := Banned(missing);
    TopTerms(q.terms, generic, banned) + TopPhrases(q.terms, generic, banned) + TopQuery(q.terms, generic, banned)
    + (if CanOverlap(q.terms, generic, banned) then 4.0 else 1.0) + 0.4
  }

  /** The least any chunk scores, codes aside. */
  function Least(q: Query, generic: set<string>): real {
    if Specific(q.terms, generic) then -0.5 else 0.0
  }

  // ---------- nothing scores more ----------

  ghost predicate Avoids(words: seq<string>, banned: set<string>) {
    forall w | w in words :: !Taboo(w, banned)
  }

  lemma {:induction false} LostIsUnmatched(term: string, words: seq<string>, banned: set<string>)
    requires Avoids(words, banned) && Lost(term, banned)
    ensures !Matches(term, set w | w in words)
  {
    hide Taboo;
    var present := set w | w in words;
    forall form | form in MatchForms(term) ensures form !in present {
      assert Taboo(form, banned);
    }
    assert MatchForms(term) * present == {};
  }

  lemma {:induction false} TermsAtMost(terms: seq<string>, words: seq<string>, generic: set<string>,
      banned: set<string>)
    requires Avoids(words, banned)
    ensures TermRewards(terms, (set w | w in words), generic) <= TopTerms(terms, generic, banned)
  {
    hide Lost;
    hide Avoids;
    hide Matches;
    if terms != [] {
      var n := |terms| - 1;
      TermsAtMost(terms[..n], words, generic, banned);
      if Lost(terms[n], banned) {
        LostIsUnmatched(terms[n], words, banned);
      }
    }
  }

  /** Words that meet in a text of allowed words can meet. */
  lemma {:induction false} MetCanMeet(left: string, right: string, words: seq<string>, banned: set<string>)
    requires IsWord(left) && IsWord(right) && AreWords(words) && Avoids(words, banned)
    requires Contains(Join(" ", words), left + " " + right)
    ensures CanMeet(left, right, banned)
  {
    hide Taboo;
    hide TabooTail;
    hide TabooHead;
    var j, x, y := PhraseInWords(words, left, right);
    assert words[j - 1] in words && words[j] in words;
    if TabooTail(left, banned) {
      TailKept(x, left, banned);
    }
    if TabooHead(right, banned) {
      HeadKept(right, y, banned);
    }
  }

  lemma {:induction false} PhrasesAtMost(terms: seq<string>, words: seq<string>, generic: set<string>,
      banned: set<string>)
    requires AreWords(terms) && AreWords(words) && Avoids(words, banned)
    ensures PhraseRewards(terms, Join(" ", words), generic) <= TopPhrases(terms, generic, banned)
  {
    hide Matches;
    hide Contains;
    hide CanMeet;
    hide Avoids;
    if |terms| >= 2 {
      var n := |terms|;
      PhrasesAtMost(terms[..n - 1], words, generic, banned);
      if Contains(Join(" ", words), terms[n - 2] + " " + terms[n - 1]) {
        MetCanMeet(terms[n - 2], terms[n - 1], words, banned);
      }
    }
  }

  lemma {:induction false} ContainedCanContain(terms: seq<string>, words: seq<string>, banned: set<string>)
    requires AreWords(terms) && AreWords(words) && Avoids(words, banned) && terms != []
    requires Contains(Join(" ", words), Join(" ", terms))
    ensures CanContain(terms, banned)
  {
    hide Taboo;
    hide TabooCore;
    hide CanMeet;
    var text, n := Join(" ", words), |terms|;
    forall i | 0 < i < n - 1 ensures !Taboo(terms[i], banned) {
      InnerWordIsSpaced(terms, i);
      ContainedInContained(text, Join(" ", terms), " " + terms[i] + " ");
      SpacedWordIsWord(words, terms[i]);
    }
    if n == 1 {
      var i, x, y := WordInWords(words, terms[0]);
      assert words[i] in words;
      if TabooCore(terms[0], banned) {
        CoreKept(x, terms[0], y, banned);
      }
    } else {
      PhraseContained(terms, 1);
      ContainedInContained(text, Join(" ", terms), terms[0] + " " + terms[1]);
      MetCanMeet(terms[0], terms[1], words, banned);
      PhraseContained(terms, n - 1);
      ContainedInContained(text, Join(" ", terms), terms[n - 2] + " " + terms[n - 1]);
      MetCanMeet(terms[n - 2], terms[n - 1], words, banned);
      EndsCanMeet(terms[0], terms[1], terms[n - 2], terms[n - 1], banned);
    }
  }

  lemma EndsCanMeet(first: string, second: string, third: string, last: string, banned: set<string>)
    requires CanMeet(first, second, banned) && CanMeet(third, last, banned)
    ensures CanMeet(first, last, banned)
  {
  }

  lemma {:induction false} QueryAtMost(terms: seq<string>, words: seq<string>, generic: set<string>,
      banned: set<string>)
    requires AreWords(terms) && AreWords(words) && Avoids(words, banned)
    ensures QueryReward(terms, Join(" ", words), generic) <= TopQuery(terms, generic, banned)
  {
    hide Contains;
    hide CanContain;
    hide Specific;
    if terms != [] && Contains(Join(" ", words), Join(" ", terms)) {
      ContainedCanContain(terms, words, banned);
    }
  }

  lemma {:induction false} OverlapIsPossible(terms: seq<string>, words: seq<string>, generic: set<string>,
      banned: set<string>)
    requires Avoids(words, banned) && Overlaps(terms, (set w | w in words), generic)
    ensures CanOverlap(terms, generic, banned)
  {
    hide Lost;
    hide Avoids;
    hide Matches;
    var i :| 0 <= i < |terms| && !Matches(terms[i], generic) && Matches(terms[i], set w | w in words);
    if Lost(terms[i], banned) {
      LostIsUnmatched(terms[i], words, banned);
    }
  }

  lemma {:induction false} LackingAvoids(q: Query, missing: set<string>, c: Chunk)
    requires Consistent(q, c) && missing <= q.codes - c.tokens
    ensures Avoids(c.terms, Banned(missing))
  {
    forall w | w in c.terms ensures !Taboo(w, Banned(missing)) {
      forall k | 0 <= k < |Parts(w)| ensures Parts(w)[k] !in Banned(missing) {
        assert Parts(w)[k] in Parts(w);
      }
    }
  }

  /** No consistent chunk without the codes scores more than `Most`. */
  lemma {:induction false} AtMost(q: Query, missing: set<string>, c: Chunk, generic: set<string>)
    requires AreWords(q.terms) && Consistent(q, c) && missing <= q.codes - c.tokens
    ensures Rest(q, c, generic) <= Most(q, missing, generic)
  {
    hide Matches;
    hide Contains;
    hide Avoids;
    hide Specific;
    hide Overlaps;
    hide CanOverlap;
    hide TermRewards;
    hide TopTerms;
    hide PhraseRewards;
    hide TopPhrases;
    hide QueryReward;
    hide TopQuery;
    var banned := Banned(missing);
    LackingAvoids(q, missing, c);
    TermsAtMost(q.terms, c.terms, generic, banned);
    PhrasesAtMost(q.terms, c.terms, generic, banned);
    QueryAtMost(q.terms, c.terms, generic, banned);
    if Overlaps(q.terms, WordSet(c), generic) {
      OverlapIsPossible(q.terms, c.terms, generic, banned);
    }
  }

  /** And no chunk scores less than `Least`. */
  lemma {:induction false} AtLeast(q: Query, c: Chunk, generic: set<string>)
    ensures Rest(q, c, generic) >= Least(q, generic)
  {
    TermBounds(q.terms, WordSet(c), generic);
    PhraseBounds(q.terms, TextOf(c), generic);
  }

  // ---------- some chunk scores that much ----------

  /** The other form of a word that counts as a match. */
  function OtherForm(term: string): string {
    if |term| > 3 && term[|term| - 1] == 's' then term[..|term| - 1] else term + "s"
  }

  /** A form of the word that is allowed, if there is one. */
  function AllowedForm(term: string, banned: set<string>): string {
    if Taboo(term, banned) then OtherForm(term) else term
  }

  /** Each word that can be matched, in a form that is allowed. */
  ghost function Singles(terms: seq<string>, banned: set<string>): seq<string> {
    if terms == [] then []
    else
      var n := |terms| - 1;
      Singles(terms[..n], banned) + if Lost(terms[n], banned) then [] else [AllowedForm(terms[n], banned)]
  }

  /** Each adjacent pair that can meet, inside two longer words. */
  function Pairs(terms: seq<string>, banned: set<string>): seq<string> {
    if |terms| < 2 then []
    else
      var n := |terms|;
      Pairs(terms[..n - 1], banned)
      + if CanMeet(terms[n - 2], terms[n - 1], banned) then [PAD + terms[n - 2], terms[n - 1] + PAD] else []
  }

  /** The whole query, inside words that are longer at both ends. */
  function Framed(terms: seq<string>): seq<string> {
    if terms == [] then []
    else if |terms| == 1 then [PAD + terms[0] + PAD]
    else [PAD + terms[0]] + terms[1..|terms| - 1] + [terms[|terms| - 1] + PAD]
  }

  ghost function RichWords(terms: seq<string>, banned: set<string>): seq<string> {
    Singles(terms, banned) + (Pairs(terms, banned) + if CanContain(terms, banned) then Framed(terms) else [])
  }

  /** A chunk without the codes that scores `Most`. */
  ghost function Richest(q: Query, missing: set<string>): Chunk {
    Chunk(RichWords(q.terms, Banned(missing)), q.codes - missing, "business_case", "critical")
  }

  /** A chunk with all codes that scores `Least`. */
  function Poorest(q: Query): Chunk {
    Chunk([], q.codes, "question", "")
  }

  ghost predicate Fits(words: seq<string>, banned: set<string>) {
    AreWords(words) && Avoids(words, banned)
  }

  lemma {:induction false} FitsConcat(a: seq<string>, b: seq<string>, banned: set<string>)
    requires Fits(a, banned) && Fits(b, banned)
    ensures Fits(a + b, banned)
  {
    hide Taboo;
  }

  lemma {:induction false} FormsFit(term: string, banned: set<string>)
    requires IsWord(term) && !Lost(term, banned)
    ensures Fits([AllowedForm(term, banned)], banned) && AllowedForm(term, banned) in MatchForms(term)
  {
    hide Taboo;
  }

  lemma {:induction false} SinglesFit(terms: seq<string>, banned: set<string>)
    requires AreWords(terms)
    ensures Fits(Singles(terms, banned), banned)
  {
    hide Taboo;
    hide Lost;
    hide AllowedForm;
    if terms != [] {
      var n := |terms| - 1;
      SinglesFit(terms[..n], banned);
      if Lost(terms[n], banned) {
        Seqs.Units(Singles(terms[..n], banned));
      } else {
        FormsFit(terms[n], banned);
        FitsConcat(Singles(terms[..n], banned), [AllowedForm(terms[n], banned)], banned);
      }
    }
  }

  lemma {:induction false} SinglesMatch(terms: seq<string>, banned: set<string>, i: nat)
    requires AreWords(terms) && i < |terms| && !Lost(terms[i], banned)
    ensures exists w :: w in Singles(terms, banned) && w in MatchForms(terms[i])
  {
    hide Lost;
    hide AllowedForm;
    hide MatchForms;
    var n := |terms| - 1;
    if i == n {
      FormsFit(terms[n], banned);
      assert AllowedForm(terms[n], banned) in Singles(terms, banned);
    } else {
      SinglesMatch(terms[..n], banned, i);
      var w :| w in Singles(terms[..n], banned) && w in MatchForms(terms[i]);
      assert w in Singles(terms, banned);
    }
  }

  lemma {:induction false} PairFits(left: string, right: string, banned: set<string>)
    requires IsWord(left) && IsWord(right) && Short(banned) && CanMeet(left, right, banned)
    ensures Fits([PAD + left], banned) && Fits([right + PAD], banned) && Fits([PAD + left, right + PAD], banned)
  {
    hide Taboo;
    hide TabooTail;
    hide TabooHead;
    PaddedBefore(left, banned);
    PaddedAfter(right, banned);
  }

  lemma {:induction false} PairsFit(terms: seq<string>, banned: set<string>)
    requires AreWords(terms) && Short(banned)
    ensures Fits(Pairs(terms, banned), banned)
  {
    hide CanMeet;
    hide Avoids;
    if |terms| < 2 {
      NothingFits(banned);
    } else {
      var n := |terms|;
      PairsFit(terms[..n - 1], banned);
      if CanMeet(terms[n - 2], terms[n - 1], banned) {
        PairFits(terms[n - 2], terms[n - 1], banned);
        FitsConcat(Pairs(terms[..n - 1], banned), [PAD + terms[n - 2], terms[n - 1] + PAD], banned);
      } else {
        Seqs.Units(Pairs(terms[..n - 1], banned));
      }
    }
  }

  lemma NothingFits(banned: set<string>)
    ensures Fits([], banned)
  {
  }

  lemma {:induction false} FramedFits(terms: seq<string>, banned: set<string>)
    requires AreWords(terms) && CanContain(terms, banned) && Short(banned)
    ensures Fits(Framed(terms), banned)
  {
    hide Taboo;
    hide TabooTail;
    hide TabooHead;
    hide TabooCore;
    var n := |terms|;
    if n == 1 {
      PaddedBefore(terms[0], banned);
      PaddedAfter(PAD + terms[0], banned);
    } else {
      PairFits(terms[0], terms[n - 1], banned);
      var inner := terms[1..n - 1];
      assert forall i | 0 <= i < |inner| :: inner[i] == terms[i + 1];
      FitsConcat([PAD + terms[0]], inner, banned);
      FitsConcat([PAD + terms[0]] + inner, [terms[n - 1] + PAD], banned);
    }
  }

  // What those words contain.

  lemma {:induction false} PairContained(left: string, right: string)
    ensures Contains(Join(" ", [PAD + left, right + PAD]), left + " " + right)
  {
    var pair := [PAD + left, right + PAD];
    assert pair[1..] == [right + PAD];
    assert Join(" ", pair) == PAD + (left + " " + right) + PAD;
    PartIsContained(PAD, left + " " + right, PAD);
  }

  lemma {:induction false} PairsContain(terms: seq<string>, banned: set<string>, j: nat)
    requires 0 < j < |terms| && CanMeet(terms[j - 1], terms[j], banned)
    ensures Pairs(terms, banned) != [] && Contains(Join(" ", Pairs(terms, banned)), terms[j - 1] + " " + terms[j])
  {
    hide CanMeet;
    hide Contains;
    var n := |terms|;
    var last := [PAD + terms[n - 2], terms[n - 1] + PAD];
    if j == n - 1 {
      PairContained(terms[n - 2], terms[n - 1]);
      ContainedInTail(Pairs(terms[..n - 1], banned), last, terms[j - 1] + " " + terms[j]);
    } else {
      PairsContain(terms[..n - 1], banned, j);
      ContainedInFront(Pairs(terms[..n - 1], banned),
                       if CanMeet(terms[n - 2], terms[n - 1], banned) then last else [], terms[j - 1] + " " + terms[j]);
    }
  }

  lemma {:induction false} JoinPadded(terms: seq<string>)
    requires terms != []
    ensures var n := |terms| - 1; Join(" ", terms[..n] + [terms[n] + PAD]) == Join(" ", terms) + PAD
  {
    var n := |terms| - 1;
    assert terms == terms[..n] + [terms[n]];
    if n > 0 {
      JoinConcat(terms[..n], [terms[n]]);
      JoinConcat(terms[..n], [terms[n] + PAD]);
    }
  }

  lemma {:induction false} PaddedJoin(terms: seq<string>)
    requires terms != []
    ensures Join(" ", [PAD + terms[0]] + terms[1..]) == PAD + Join(" ", terms)
  {
    assert terms == [terms[0]] + terms[1..];
    if |terms| > 1 {
      JoinConcat([terms[0]], terms[1..]);
      JoinConcat([PAD + terms[0]], terms[1..]);
    }
  }

  lemma {:induction false} FramedContainsQuery(terms: seq<string>)
    requires terms != []
    ensures Framed(terms) != [] && Contains(Join(" ", Framed(terms)), Join(" ", terms))
  {
    var n := |terms| - 1;
    if n == 0 {
      assert Join(" ", Framed(terms)) == PAD + Join(" ", terms) + PAD;
    } else {
      var padded := terms[..n] + [terms[n] + PAD];
      JoinPadded(terms);
      PaddedJoin(padded);
      assert Framed(terms) == [PAD + padded[0]] + padded[1..];
      assert Join(" ", Framed(terms)) == PAD + Join(" ", terms) + PAD;
    }
    PartIsContained(PAD, Join(" ", terms), PAD);
  }

  lemma {:induction false} RichContainsPhrases(terms: seq<string>, banned: set<string>, j: nat)
    requires 0 < j < |terms| && CanMeet(terms[j - 1], terms[j], banned)
    ensures Contains(Join(" ", RichWords(terms, banned)), terms[j - 1] + " " + terms[j])
  {
    hide CanMeet;
    hide CanContain;
    hide Contains;
    var whole := if CanContain(terms, banned) then Framed(terms) else [];
    PairsContain(terms, banned, j);
    ContainedInFront(Pairs(terms, banned), whole, terms[j - 1] + " " + terms[j]);
    ContainedInTail(Singles(terms, banned), Pairs(terms, banned) + whole, terms[j - 1] + " " + terms[j]);
  }

  // What they score.

  lemma {:induction false} TermsReached(terms: seq<string>, words: set<string>, generic: set<string>,
      banned: set<string>)
    requires forall i | 0 <= i < |terms| && !Lost(terms[i], banned) :: Matches(terms[i], words)
    ensures TermRewards(terms, words, generic) >= TopTerms(terms, generic, banned)
  {
    hide Lost;
    hide Matches;
    if terms != [] {
      TermsReached(terms[..|terms| - 1], words, generic, banned);
    }
  }

  lemma {:induction false} PhrasesReached(terms: seq<string>, k: nat, text: string, generic: set<string>,
      banned: set<string>)
    requires k <= |terms|
    requires forall j | 0 < j < |terms| && CanMeet(terms[j - 1], terms[j], banned) ::
               Contains(text, terms[j - 1] + " " + terms[j])
    ensures PhraseRewards(terms[..k], text, generic) >= TopPhrases(terms[..k], generic, banned)
  {
    hide CanMeet;
    hide Contains;
    hide Matches;
    if k >= 2 {
      PhrasesReached(terms, k - 1, text, generic, banned);
      assert terms[..k][..k - 1] == terms[..k - 1];
      assert CanMeet(terms[k - 1 - 1], terms[k - 1], banned) ==> Contains(text, terms[k - 1 - 1] + " " + terms[k - 1]);
    }
  }

  lemma {:induction false} JoinedWords(terms: seq<string>)
    requires AreWords(terms)
    ensures Join(" ", terms) == "" <==> terms == []
  {
  }

  lemma {:induction false} CodesAreShort(codes: set<string>)
    requires AreCodes(codes)
    ensures Short(Banned(codes))
  {
  }

  lemma {:induction false} RichFits(terms: seq<string>, banned: set<string>)
    requires AreWords(terms) && Short(banned)
    ensures Fits(RichWords(terms, banned), banned)
  {
    hide CanContain;
    hide Fits;
    SinglesFit(terms, banned);
    PairsFit(terms, banned);
    if CanContain(terms, banned) {
      FramedFits(terms, banned);
      FitsConcat(Pairs(terms, banned), Framed(terms), banned);
    } else {
      Seqs.Units(Pairs(terms, banned));
    }
    FitsConcat(Singles(terms, banned), Pairs(terms, banned) + if CanContain(terms, banned) then Framed(terms) else [], banned);
  }

  lemma {:induction false} RichIsConsistent(q: Query, missing: set<string>)
    requires AreWords(q.terms) && AreCodes(q.codes) && missing <= q.codes
    ensures Consistent(q, Richest(q, missing))
  {
    var banned, words := Banned(missing), RichWords(q.terms, Banned(missing));
    CodesAreShort(missing);
    RichFits(q.terms, banned);
    hide RichWords;
    forall code, w | code in q.codes && w in words && Lower(code) in Parts(w) ensures code in q.codes - missing {
      var k :| 0 <= k < |Parts(w)| && Parts(w)[k] == Lower(code);
      assert !Taboo(w, banned);
      assert code in missing ==> Lower(code) in banned;
    }
  }

  lemma {:induction false} RichMatches(terms: seq<string>, banned: set<string>, i: nat)
    requires AreWords(terms) && i < |terms| && !Lost(terms[i], banned)
    ensures Matches(terms[i], set w | w in RichWords(terms, banned))
  {
    hide Lost;
    hide MatchForms;
    hide Singles;
    hide Pairs;
    hide Framed;
    hide CanContain;
    SinglesMatch(terms, banned, i);
    var w :| w in Singles(terms, banned) && w in MatchForms(terms[i]);
    assert w in RichWords(terms, banned);
    assert w in MatchForms(terms[i]) * (set w | w in RichWords(terms, banned));
  }

  lemma {:induction false} QueryReached(terms: seq<string>, generic: set<string>, banned: set<string>)
    requires AreWords(terms)
    ensures QueryReward(terms, Join(" ", RichWords(terms, banned)), generic) >= TopQuery(terms, generic, banned)
  {
    hide Contains;
    hide Specific;
    hide Singles;
    hide Pairs;
    JoinedWords(terms);
    if CanContain(terms, banned) {
      FramedContainsQuery(terms);
      ContainedInTail(Pairs(terms, banned), Framed(terms), Join(" ", terms));
      ContainedInTail(Singles(terms, banned), Pairs(terms, banned) + Framed(terms), Join(" ", terms));
    }
  }

  lemma {:induction false} MostIsReached(q: Query, missing: set<string>, generic: set<string>)
    requires AreWords(q.terms) && AreCodes(q.codes) && missing <= q.codes
    ensures Rest(q, Richest(q, missing), generic) == Most(q, missing, generic)
  {
    hide Matches;
    hide Contains;
    hide Lost;
    hide CanMeet;
    hide RichWords;
    hide TermRewards;
    hide TopTerms;
    hide PhraseRewards;
    hide TopPhrases;
    hide QueryReward;
    hide TopQuery;
    hide Specific;
    var banned, c := Banned(missing), Richest(q, missing);
    RichIsConsistent(q, missing);
    AtMost(q, missing, c, generic);
    forall i | 0 <= i < |q.terms| && !Lost(q.terms[i], banned) ensures Matches(q.terms[i], WordSet(c)) {
      RichMatches(q.terms, banned, i);
    }
    forall j | 0 < j < |q.terms| && CanMeet(q.terms[j - 1], q.terms[j], banned)
      ensures Contains(TextOf(c), q.terms[j - 1] + " " + q.terms[j])
    {
      RichContainsPhrases(q.terms, banned, j);
    }
    TermsReached(q.terms, WordSet(c), generic, banned);
    PhrasesReached(q.terms, |q.terms|, TextOf(c), generic, banned);
    Seqs.Whole(q.terms);
    QueryReached(q.terms, generic, banned);
    assert CanOverlap(q.terms, generic, banned) ==> Overlaps(q.terms, WordSet(c), generic);
  }

  lemma {:induction false} NothingMatches(terms: seq<string>, generic: set<string>)
    ensures TermRewards(terms, {}, generic) == 0.0 && PhraseRewards(terms, "", generic) == 0.0
  {
    if terms != [] {
      NothingMatches(terms[..|terms| - 1], generic);
    }
  }

  lemma {:induction false} LeastIsReached(q: Query, generic: set<string>)
    ensures Consistent(q, Poorest(q)) && Rest(q, Poorest(q), generic) == Least(q, generic)
  {
    assert WordSet(Poorest(q)) == {};
    NothingMatches(q.terms, generic);
  }

  // ---------- the threshold ----------

  /** Every chunk with all the codes outranks every chunk that lacks just these. */
  ghost predicate CodesAlwaysDecide(q: Query, missing: set<string>, generic: set<string>) {
    forall has, lacks ::
      Consistent(q, has) && Consistent(q, lacks) && q.codes <= has.tokens && q.codes - lacks.tokens == missing
      ==> Score(q, has, generic) > Score(q, lacks, generic)
  }

  lemma {:induction false} CodeRewards(codes: set<string>, tokens: set<string>)
    ensures CodeReward(codes, tokens) == 20.0 * |codes| as real - 40.0 * |codes - tokens| as real
  {
    CodesSplit(codes, tokens);
  }

  /** How far a chunk with all codes is ahead of one that lacks some, at the least. */
  ghost function Lead(q: Query, missing: set<string>, generic: set<string>): real {
    40.0 * |missing| as real - (Most(q, missing, generic) - Least(q, generic))
  }

  lemma {:induction false} LeadIsKept(q: Query, missing: set<string>, generic: set<string>, has: Chunk, lacks: Chunk)
    requires AreWords(q.terms) && Consistent(q, lacks)
    requires q.codes <= has.tokens && q.codes - lacks.tokens == missing
    ensures Score(q, has, generic) - Score(q, lacks, generic) >= Lead(q, missing, generic)
  {
    hide Rest;
    hide Most;
    hide Least;
    hide CodeReward;
    hide Consistent;
    AtLeast(q, has, generic);
    AtMost(q, missing, lacks, generic);
    assert q.codes - has.tokens == {};
    CodeRewards(q.codes, has.tokens);
    CodeRewards(q.codes, lacks.tokens);
  }

  lemma {:induction false} LeadIsReached(q: Query, missing: set<string>, generic: set<string>)
    requires AreWords(q.terms) && AreCodes(q.codes) && missing <= q.codes
    ensures var has, lacks := Poorest(q), Richest(q, missing);
            && Consistent(q, has) && Consistent(q, lacks) && q.codes <= has.tokens && q.codes - lacks.tokens == missing
            && Score(q, has, generic) - Score(q, lacks, generic) == Lead(q, missing, generic)
  {
    hide Rest;
    hide Most;
    hide Least;
    hide CodeReward;
    hide Consistent;
    hide RichWords;
    var has, lacks := Poorest(q), Richest(q, missing);
    RichIsConsistent(q, missing);
    MostIsReached(q, missing, generic);
    LeastIsReached(q, generic);
    assert q.codes - has.tokens == {} && q.codes - lacks.tokens == missing;
    CodeRewards(q.codes, has.tokens);
    CodeRewards(q.codes, lacks.tokens);
  }

  /** Codes decide exactly beyond the difference between the most that a chunk without them
      and the least that a chunk with them can score otherwise. */
  lemma {:induction false} CodesDecideIff(q: Query, missing: set<string>, generic: set<string>)
    requires AreWords(q.terms) && AreCodes(q.codes) && missing <= q.codes
    ensures CodesAlwaysDecide(q, missing, generic) <==>
            40.0 * |missing| as real > Most(q, missing, generic) - Least(q, generic)
  {
    hide Score;
    hide Most;
    hide Least;
    hide Consistent;
    hide Poorest;
    hide Richest;
    LeadIsReached(q, missing, generic);
    forall has, lacks | Consistent(q, has) && Consistent(q, lacks) && q.codes <= has.tokens && q.codes - lacks.tokens == missing
      ensures Score(q, has, generic) - Score(q, lacks, generic) >= Lead(q, missing, generic)
    {
      LeadIsKept(q, missing, generic, has, lacks);
    }
  }

  // ---------- the threshold in words of the query ----------

  predicate AllSpecific(words: seq<string>, generic: set<string>) {
    forall i | 0 <= i < |words| :: !Matches(words[i], generic)
  }

  /** Words without banned parts lose nothing. */
  lemma {:induction false} TopOfSpecific(terms: seq<string>, generic: set<string>, banned: set<string>)
    requires AllSpecific(terms, generic) && Avoids(terms, banned)
    ensures TopTerms(terms, generic, banned) == 2.0 * |terms| as real
    ensures terms != [] ==> TopPhrases(terms, generic, banned) == 8.0 * (|terms| - 1) as real
  {
    hide Taboo;
    hide TabooTail;
    hide TabooHead;
    hide Matches;
    if terms != [] {
      var n := |terms|;
      TopOfSpecific(terms[..n - 1], generic, banned);
      assert terms[n - 1] in MatchForms(terms[n - 1]) && terms[n - 1] in terms;
      if n > 1 {
        assert terms[n - 2] in terms;
        TabooParts(terms[n - 2], banned);
        TabooParts(terms[n - 1], banned);
      }
    }
  }

  lemma {:induction false} AvoidingCanContain(terms: seq<string>, generic: set<string>, banned: set<string>)
    requires terms != [] && AllSpecific(terms, generic) && Avoids(terms, banned)
    ensures CanContain(terms, banned) && CanOverlap(terms, generic, banned) && Specific(terms, generic)
  {
    hide Taboo;
    hide TabooTail;
    hide TabooHead;
    hide TabooCore;
    var n := |terms|;
    assert terms[0] in terms && terms[n - 1] in terms && terms[0] in MatchForms(terms[0]);
    TabooParts(terms[0], banned);
    TabooParts(terms[n - 1], banned);
    assert !Matches(terms[0], generic) && !Lost(terms[0], banned);
  }

  /** When no missing code is a word of the query or part of one: for n specific words, j missing
      codes decide exactly if 40 j > 10 n + 4.9, a single one up to three words. */
  lemma {:induction false} OtherCodesDecideIff(q: Query, missing: set<string>, generic: set<string>)
    requires AreWords(q.terms) && AreCodes(q.codes) && missing <= q.codes
    requires q.terms != [] && AllSpecific(q.terms, generic) && Avoids(q.terms, Banned(missing))
    ensures CodesAlwaysDecide(q, missing, generic) <==> 40.0 * |missing| as real > 10.0 * |q.terms| as real + 4.9
    ensures |missing| == 1 ==> (CodesAlwaysDecide(q, missing, generic) <==> |q.terms| <= 3)
  {
    CodesDecideIff(q, missing, generic);
    TopOfSpecific(q.terms, generic, Banned(missing));
    AvoidingCanContain(q.terms, generic, Banned(missing));
    hide CodesAlwaysDecide;
    hide TopTerms;
    hide TopPhrases;
    hide CanContain;
    hide CanOverlap;
    hide Avoids;
  }

  /** What is left of the rewards when one inner word has a banned part: its own reward unless the
      word is lost, and those of its phrases as far as it can meet its neighbours. */
  lemma {:induction false} TopWithOneTaboo(terms: seq<string>, generic: set<string>, banned: set<string>, i: nat)
    requires 0 < i < |terms| && AllSpecific(terms, generic)
    requires forall j | 0 <= j < |terms| && j != i :: !Taboo(terms[j], banned)
    ensures TopTerms(terms, generic, banned) == 2.0 * |terms| as real - if Lost(terms[i], banned) then 2.0 else 0.0
    ensures TopPhrases(terms, generic, banned)
         == 8.0 * (|terms| - 1) as real - (if TabooHead(terms[i], banned) then 8.0 else 0.0)
            - (if TabooTail(terms[i], banned) && i < |terms| - 1 then 8.0 else 0.0)
    decreases |terms|
  {
    hide Taboo;
    hide TabooTail;
    hide TabooHead;
    hide Matches;
    var n := |terms| - 1;
    var before := terms[..n];
    TabooParts(terms[n - 1], banned);
    TabooParts(terms[n], banned);
    if i == n {
      assert Avoids(before, banned);
      TopOfSpecific(before, generic, banned);
    } else {
      TopWithOneTaboo(before, generic, banned, i);
      assert terms[n] in MatchForms(terms[n]);
    }
  }

  /** The exact threshold of one code in an inner word of the query. */
  lemma {:induction false} InnerCode(terms: seq<string>, code: string, i: nat, generic: set<string>)
    requires 0 < i < |terms| - 1 && AreCodes({code}) && Taboo(terms[i], {Lower(code)})
    requires forall j | 0 <= j < |terms| && j != i :: !Taboo(terms[j], {Lower(code)})
    requires AreWords(terms) && AllSpecific(terms, generic)
    ensures var banned := {Lower(code)};
            CodesAlwaysDecide(Query(terms, {code}), {code}, generic) <==>
            40.0 > 10.0 * |terms| as real - 3.1 - (if Lost(terms[i], banned) then 2.0 else 0.0)
                   - (if TabooHead(terms[i], banned) then 8.0 else 0.0) - if TabooTail(terms[i], banned) then 8.0 else 0.0
  {
    var banned := {Lower(code)};
    assert Banned({code}) == banned;
    CodesDecideIff(Query(terms, {code}), {code}, generic);
    TopWithOneTaboo(terms, generic, banned, i);
    InnerTaboo(terms, banned, i, generic);
    hide Taboo;
    hide TabooTail;
    hide TabooHead;
    hide Lost;
    hide TopTerms;
    hide TopPhrases;
    hide CanContain;
    hide CanOverlap;
    hide Specific;
    hide AllSpecific;
    hide AreWords;
    hide CodesAlwaysDecide;
  }

  lemma {:induction false} InnerTaboo(terms: seq<string>, banned: set<string>, i: nat, generic: set<string>)
    requires 0 < i < |terms| - 1 && Taboo(terms[i], banned) && !Taboo(terms[0], banned) && AllSpecific(terms, generic)
    ensures !CanContain(terms, banned) && CanOverlap(terms, generic, banned) && Specific(terms, generic)
  {
    hide Taboo;
    hide Matches;
    assert terms[0] in MatchForms(terms[0]) && !Lost(terms[0], banned);
  }

  lemma {:induction false} OnePart(word: string, banned: set<string>)
    requires '-' !in word
    ensures Parts(word) == [word] && !TabooHead(word, banned) && !TabooTail(word, banned)
    ensures Taboo(word, banned) <==> word in banned
  {
    NoHyphen(word);
    if word in banned {
      assert Parts(word)[0] in banned;
    }
  }

  lemma {:induction false} LowerHasNoHyphen(code: string)
    requires '-' !in code
    ensures '-' !in Lower(code)
  {
    forall k | 0 <= k < |code| ensures Lower(code)[k] != '-' {
      assert code[k] in code;
    }
  }

  /** A code that is itself a word of the query costs a chunk without it that word and the whole
      query, so that it decides one word longer: a code of two or three characters among specific
      words decides exactly up to four words. */
  lemma {:induction false} CodeAmongWordsDecidesIff(terms: seq<string>, code: string, i: nat, generic: set<string>)
    requires 0 < i < |terms| - 1 && terms[i] == Lower(code) && AreCodes({code}) && |code| <= 3
    requires forall j | 0 <= j < |terms| && j != i :: !Taboo(terms[j], {Lower(code)})
    requires AreWords(terms) && AllSpecific(terms, generic)
    ensures CodesAlwaysDecide(Query(terms, {code}), {code}, generic) <==> |terms| <= 4
  {
    var banned := {Lower(code)};
    assert code in {code};
    LowerHasNoHyphen(code);
    OnePart(terms[i], banned);
    hide Taboo;
    hide TabooHead;
    hide TabooTail;
    hide CodesAlwaysDecide;
    assert Lost(terms[i], banned);
    InnerCode(terms, code, i, generic);
  }

  /** A code that ends a hyphenated word of the query costs a chunk without it the phrase after
      that word and the whole query: it decides exactly up to five words. */
  lemma {:induction false} HyphenatedCodeDecidesIff(terms: seq<string>, prefix: string, code: string, i: nat,
      generic: set<string>)
    requires 0 < i < |terms| - 1 && terms[i] == prefix + "-" + Lower(code) && AreCodes({code})
    requires prefix != "" && Lower(code) !in Parts(prefix)
    requires forall j | 0 <= j < |terms| && j != i :: !Taboo(terms[j], {Lower(code)})
    requires AreWords(terms) && AllSpecific(terms, generic)
    ensures CodesAlwaysDecide(Query(terms, {code}), {code}, generic) <==> |terms| <= 5
  {
    var banned := {Lower(code)};
    HyphenatedParts(prefix, code);
    hide Taboo;
    hide TabooHead;
    hide TabooTail;
    hide CodesAlwaysDecide;
    InnerCode(terms, code, i, generic);
  }

  lemma {:induction false} PartsWithSuffix(prefix: string, suffix: string)
    requires '-' !in suffix
    ensures Parts(prefix + "-" + suffix) == Parts(prefix) + [suffix]
  {
    assert prefix + "-" + suffix == prefix + (['-'] + suffix);
    PartsOfConcat(prefix, ['-'] + suffix);
    NoHyphen(suffix);
    assert (['-'] + suffix)[1..] == suffix;
    assert Parts(['-'] + suffix) == ["", suffix];
    assert Last(Parts(prefix)) + "" == Last(Parts(prefix));
    assert Front(Parts(prefix)) + [Last(Parts(prefix))] == Parts(prefix);
    assert ["", suffix][1..] == [suffix];
  }

  lemma {:induction false} LastPartTaboo(prefix: string, suffix: string, banned: set<string>)
    requires '-' !in suffix && !Taboo(prefix, banned)
    ensures var word := prefix + "-" + suffix;
            !TabooHead(word, banned) && (Taboo(word, banned) <==> suffix in banned) && (TabooTail(word, banned) <==> suffix in banned)
  {
    var parts := Parts(prefix);
    PartsWithSuffix(prefix, suffix);
    assert Front(parts + [suffix]) == parts && (parts + [suffix])[1..] == parts[1..] + [suffix];
    HoldsInConcat(parts, [suffix], banned);
    HoldsInConcat(parts[1..], [suffix], banned);
    assert parts == [parts[0]] + parts[1..];
    HoldsInConcat([parts[0]], parts[1..], banned);
    assert Holds([suffix], banned) <==> [suffix][0] in banned;
  }

  /** The other form of a word is another form of its last part. */
  lemma {:induction false} OtherLastPart(prefix: string, low: string) returns (end: string)
    requires prefix != "" && |low| >= 2 && '-' !in low
    ensures OtherForm(prefix + "-" + low) == prefix + "-" + end && '-' !in end && end != low
    ensures OtherForm(prefix + "-" + low) in MatchForms(prefix + "-" + low)
  {
    var word := prefix + "-" + low;
    assert |word| > 3 && word[|word| - 1] == low[|low| - 1];
    end := if word[|word| - 1] == 's' then low[..|low| - 1] else low + "s";
    assert OtherForm(word) == prefix + "-" + end;
    assert |end| != |low|;
    assert forall c | c in end :: c in low || c == 's';
  }

  lemma {:induction false} HyphenatedParts(prefix: string, code: string)
    requires AreCodes({code}) && prefix != "" && Lower(code) !in Parts(prefix)
    ensures var word, banned := prefix + "-" + Lower(code), {Lower(code)};
            Taboo(word, banned) && !TabooHead(word, banned) && TabooTail(word, banned) && !Lost(word, banned)
  {
    var low, banned := Lower(code), {Lower(code)};
    assert code in {code};
    LowerHasNoHyphen(code);
    assert !Taboo(prefix, banned);
    LastPartTaboo(prefix, low, banned);
    var end := OtherLastPart(prefix, low);
    LastPartTaboo(prefix, end, banned);
    hide Taboo;
    hide TabooHead;
    hide TabooTail;
    hide MatchForms;
    hide OtherForm;
    assert !Taboo(OtherForm(prefix + "-" + low), banned);
  }
}
