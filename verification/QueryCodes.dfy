/** The codes of a query, as typed, against its cache key, which ignores case: queries that
    share their cached result can ask for different codes. */
module QueryCodes {
  import opened Text
  import L = LexicalScore
  import T = CodeThreshold
  import C = RetrievalCache
  import F = RetrievalFreshness
  import Seqs = Sequences

  predicate IsUpper(c: char) {
    'A' <= c <= 'Z'
  }

  predicate IsLower(c: char) {
    'a' <= c <= 'z'
  }

  predicate IsDigit(c: char) {
    '0' <= c <= '9'
  }

  predicate IsAlnum(c: char) {
    IsUpper(c) || IsLower(c) || IsDigit(c)
  }

  function UpperChar(c: char): char {
    if IsLower(c) then c - 'a' + 'A' else c
  }

  function Upper(s: string): (r: string)
    ensures |r| == |s| && forall i | 0 <= i < |s| :: r[i] == UpperChar(s[i])
  {
    seq(|s|, i requires 0 <= i < |s| => UpperChar(s[i]))
  }

  /** Which characters beyond ASCII belong to words. */
  type Letters = char -> bool

  predicate InWord(c: char, letters: Letters) {
    IsAlnum(c) || c == '_' || (c >= '\U{80}' && letters(c))
  }

  function RunLength(s: string, letters: Letters): (n: nat)
    ensures n <= |s|
    ensures forall i | 0 <= i < n :: InWord(s[i], letters)
    ensures n < |s| ==> !InWord(s[n], letters)
  {
    if s == "" || !InWord(s[0], letters) then 0 else 1 + RunLength(s[1..], letters)
  }

  /** The maximal runs of word characters. */
  function Runs(s: string, letters: Letters): seq<string>
    decreases |s|
  {
    if s == "" then []
    else if !InWord(s[0], letters) then Runs(s[1..], letters)
    else var n := RunLength(s, letters); [s[..n]] + Runs(s[n..], letters)
  }

  predicate AllAlnum(w: string) {
    forall i | 0 <= i < |w| :: IsAlnum(w[i])
  }

  predicate HasDigit(w: string) {
    exists i | 0 <= i < |w| :: IsDigit(w[i])
  }

  /** `str.isupper` of an alphanumeric word */
  predicate AllUpper(w: string) {
    (forall i | 0 <= i < |w| :: !IsLower(w[i])) && exists i | 0 <= i < |w| :: IsUpper(w[i])
  }

  /** A whole word of two to ten letters and digits, in capitals or with a digit. */
  predicate IsCode(w: string) {
    2 <= |w| <= T.MAX_CODE_LENGTH && AllAlnum(w) && (AllUpper(w) || HasDigit(w))
  }

  function CodesOf(words: seq<string>): set<string> {
    set w | w in words && IsCode(w) :: Upper(w)
  }

  /** `_query_acronyms` */
  function Codes(query: string, letters: Letters): (r: set<string>)
    ensures T.AreCodes(r)
  {
    CodesOf(Runs(query, letters))
  }

  // ---------- lower-casing ----------

  lemma LowerKeepsWordness(c: char, letters: Letters)
    ensures InWord(LowerChar(c), letters) == InWord(c, letters)
  {
  }

  lemma {:induction false} RunLengthOfLower(s: string, letters: Letters)
    ensures RunLength(Lower(s), letters) == RunLength(s, letters)
  {
    if s != "" {
      LowerKeepsWordness(s[0], letters);
      assert Lower(s)[1..] == Lower(s[1..]);
      RunLengthOfLower(s[1..], letters);
    }
  }

  lemma LowerOfParts(s: string, n: nat)
    requires n <= |s|
    ensures Lower(s)[..n] == Lower(s[..n]) && Lower(s)[n..] == Lower(s[n..])
  {
  }

  lemma LowerAllOfMore(w: string, words: seq<string>)
    ensures LowerAll([w] + words) == [Lower(w)] + LowerAll(words)
  {
  }

  lemma {:induction false} RunsOfLower(s: string, letters: Letters)
    ensures Runs(Lower(s), letters) == LowerAll(Runs(s, letters))
    decreases |s|
  {
    hide InWord;
    hide Lower;
    hide LowerAll;
    if s == "" {
      assert Lower(s) == "" && LowerAll([]) == [];
    } else {
      LowerKeepsWordness(s[0], letters);
      if !InWord(s[0], letters) {
        LowerOfParts(s, 1);
        RunsOfLower(s[1..], letters);
      } else {
        var n := RunLength(s, letters);
        RunLengthOfLower(s, letters);
        LowerOfParts(s, n);
        RunsOfLower(s[n..], letters);
        LowerAllOfMore(s[..n], Runs(s[n..], letters));
      }
    }
  }

  lemma {:induction false} LowerCodes(w: string)
    requires AllAlnum(w)
    ensures Upper(Lower(w)) == Upper(w)
    ensures HasDigit(Lower(w)) == HasDigit(w) == HasDigit(Upper(w))
    ensures !AllUpper(Lower(w)) && AllAlnum(Lower(w))
  {
    assert forall i | 0 <= i < |w| :: IsDigit(Lower(w)[i]) == IsDigit(w[i]) == IsDigit(Upper(w)[i]);
    assert forall i | 0 <= i < |w| :: !IsUpper(Lower(w)[i]);
  }

  lemma {:induction false} AlnumOfLower(w: string)
    ensures AllAlnum(Lower(w)) == AllAlnum(w)
  {
    assert forall i | 0 <= i < |w| :: IsAlnum(Lower(w)[i]) == IsAlnum(w[i]);
  }

  lemma {:induction false} LowerIsCodeIff(w: string)
    ensures IsCode(Lower(w)) <==> IsCode(w) && HasDigit(w)
    ensures IsCode(w) ==> (HasDigit(Upper(w)) <==> HasDigit(w))
    ensures IsCode(Lower(w)) ==> Upper(Lower(w)) == Upper(w)
  {
    AlnumOfLower(w);
    if AllAlnum(w) {
      LowerCodes(w);
    }
  }

  function WithDigit(codes: set<string>): set<string> {
    set code | code in codes && HasDigit(code)
  }

  lemma {:induction false} CodesOfLowered(words: seq<string>)
    ensures CodesOf(LowerAll(words)) == WithDigit(CodesOf(words))
  {
    hide IsCode;
    hide HasDigit;
    forall code ensures code in CodesOf(LowerAll(words)) <==> code in WithDigit(CodesOf(words)) {
      if code in CodesOf(LowerAll(words)) {
        var i :| 0 <= i < |words| && IsCode(Lower(words[i])) && code == Upper(Lower(words[i]));
        LowerIsCodeIff(words[i]);
        assert words[i] in words;
      }
      if code in WithDigit(CodesOf(words)) {
        var i :| 0 <= i < |words| && IsCode(words[i]) && code == Upper(words[i]);
        LowerIsCodeIff(words[i]);
        assert LowerAll(words)[i] in LowerAll(words);
      }
    }
  }

  /** A query and its lower-case form share their cached result; the second asks for exactly
      those codes of the first that have a digit. */
  lemma {:induction false} LoweringKeepsKeyLosesCodes(query: string, letters: Letters)
    ensures C.NormalizeQuery(Lower(query)) == C.NormalizeQuery(query)
    ensures Codes(Lower(query), letters) == WithDigit(Codes(query, letters))
  {
    F.WordsOfLower(query);
    LoweredTwice(Words(query));
    F.QueriesShareKeysIff(query, Lower(query));
    RunsOfLower(query, letters);
    CodesOfLowered(Runs(query, letters));
  }

  lemma LoweredTwice(words: seq<string>)
    ensures LowerAll(LowerAll(words)) == LowerAll(words)
  {
    forall i | 0 <= i < |words| ensures Lower(Lower(words[i])) == Lower(words[i]) {
      LowerIsIdempotent(words[i]);
    }
  }

  lemma {:induction false} RewardsAdd(kept: set<string>, plain: set<string>, tokens: set<string>)
    requires kept !! plain
    ensures L.CodeReward(kept + plain, tokens) == L.CodeReward(kept, tokens) + L.CodeReward(plain, tokens)
  {
    assert (kept + plain) * tokens == kept * tokens + plain * tokens;
    assert (kept + plain) - tokens == (kept - tokens) + (plain - tokens);
  }

  /** The codes without a digit. */
  function Plain(codes: set<string>): set<string> {
    codes - WithDigit(codes)
  }

  /** So a chunk scores differently for the two by what it has, less what it lacks, of the
      codes without a digit: 20 points each, under one key. */
  lemma {:induction false} OneKeyTwoScores(query: string, letters: Letters, terms: seq<string>, c: L.Chunk,
      generic: set<string>)
    ensures var plain := Plain(Codes(query, letters));
            L.Score(L.Query(terms, Codes(query, letters)), c, generic)
            - L.Score(L.Query(terms, Codes(Lower(query), letters)), c, generic)
            == 20.0 * |plain * c.tokens| as real - 20.0 * |plain - c.tokens| as real
  {
    LoweringKeepsKeyLosesCodes(query, letters);
    var all := Codes(query, letters);
    assert all == WithDigit(all) + Plain(all);
    RewardsAdd(WithDigit(all), Plain(all), c.tokens);
    RestIgnoresCodes(terms, all, WithDigit(all), c, generic);
    hide L.Rest;
    hide Codes;
    hide WithDigit;
  }

  lemma {:induction false} RestIgnoresCodes(terms: seq<string>, a: set<string>, b: set<string>, c: L.Chunk,
      generic: set<string>)
    ensures L.Rest(L.Query(terms, a), c, generic) == L.Rest(L.Query(terms, b), c, generic)
  {
    hide L.TermRewards;
    hide L.PhraseRewards;
  }

  lemma {:induction false} RunOfCapitals(letters: Letters)
    ensures Runs("PM", letters) == ["PM"]
  {
    var s := "PM";
    assert InWord(s[0], letters) && InWord(s[1], letters);
    assert s[1..] == "M" && s[1..][1..] == "";
    assert RunLength(s, letters) == 2;
    assert s[..2] == s && s[2..] == "";
  }

  lemma {:induction false} CapitalsAreCode()
    ensures IsCode("PM") && Upper("PM") == "PM" && !HasDigit("PM") && Lower("PM") == "pm"
  {
    var s := "PM";
    assert IsUpper(s[0]) && IsUpper(s[1]);
  }

  /** For one: the code PM is asked for in capitals only. */
  lemma {:induction false} CapitalsAskForCode(letters: Letters)
    ensures C.NormalizeQuery("PM") == C.NormalizeQuery("pm")
    ensures Codes("PM", letters) == {"PM"} && Codes("pm", letters) == {}
  {
    hide Runs;
    hide IsCode;
    hide HasDigit;
    hide C.NormalizeQuery;
    LoweringKeepsKeyLosesCodes("PM", letters);
    RunOfCapitals(letters);
    CapitalsAreCode();
  }

  // ---------- which codes are read ----------

  lemma {:induction false} RunBeforeBreak(a: string, b: string, letters: Letters)
    ensures RunLength(a + " " + b, letters) == RunLength(a, letters)
  {
    if a != "" {
      assert (a + " " + b)[1..] == a[1..] + " " + b;
      RunBeforeBreak(a[1..], b, letters);
    }
  }

  lemma {:induction false} RunsAroundBreak(a: string, b: string, letters: Letters)
    ensures Runs(a + " " + b, letters) == Runs(a, letters) + Runs(b, letters)
    decreases |a|
  {
    var all := a + " " + b;
    if a == "" {
      assert all[1..] == b;
      Seqs.Units(Runs(b, letters));
    } else if !InWord(a[0], letters) {
      assert all[1..] == a[1..] + " " + b;
      RunsAroundBreak(a[1..], b, letters);
    } else {
      var n := RunLength(a, letters);
      RunBeforeBreak(a, b, letters);
      assert all[..n] == a[..n] && all[n..] == a[n..] + " " + b;
      RunsAroundBreak(a[n..], b, letters);
      Seqs.Assoc([a[..n]], Runs(a[n..], letters), Runs(b, letters));
    }
  }

  lemma {:induction false} RunOfWord(w: string, letters: Letters)
    requires forall i | 0 <= i < |w| :: InWord(w[i], letters)
    ensures RunLength(w, letters) == |w|
  {
    if w != "" {
      RunOfWord(w[1..], letters);
    }
  }

  /** The codes of a query are those before and after a word between spaces, and the word itself in capitals
      if it has two to ten letters and digits and is in capitals or has a digit. */
  lemma {:induction false} CodesAroundWord(a: string, w: string, b: string, letters: Letters)
    requires w != "" && AllAlnum(w)
    ensures Codes(a + " " + w + " " + b, letters) ==
            Codes(a, letters)
            + (if 2 <= |w| <= 10 && ((Upper(w) == w && Lower(w) != w) || HasDigit(w)) then {Upper(w)} else {})
            + Codes(b, letters)
  {
    RunsAroundBreak(a + " " + w, b, letters);
    RunsAroundBreak(a, w, letters);
    RunOfWord(w, letters);
    assert w[..|w|] == w && w[|w|..] == "";
    assert Runs(w, letters) == [w];
    CapitalsIff(w);
    hide Runs;
    hide IsCode;
    hide AllUpper;
    hide HasDigit;
    var before, after := Runs(a, letters), Runs(b, letters);
    assert IsCode(w) <==> 2 <= |w| <= 10 && ((Upper(w) == w && Lower(w) != w) || HasDigit(w)) by { CodeIff(w); }
    CodesOfConcat(before + [w], after);
    CodesOfConcat(before, [w]);
  }

  lemma {:induction false} CodesOfConcat(a: seq<string>, b: seq<string>)
    ensures CodesOf(a + b) == CodesOf(a) + CodesOf(b)
    ensures forall w :: b == [w] ==> CodesOf(b) == if IsCode(w) then {Upper(w)} else {}
  {
    hide IsCode;
  }

  lemma CodeIff(w: string)
    requires AllAlnum(w)
    ensures IsCode(w) <==> 2 <= |w| <= 10 && (AllUpper(w) || HasDigit(w))
  {
  }

  lemma {:induction false} CapitalsIff(w: string)
    ensures AllUpper(w) <==> Upper(w) == w && Lower(w) != w
  {
    assert forall i | 0 <= i < |w| :: Upper(w)[i] == w[i] <==> !IsLower(w[i]);
    assert forall i | 0 <= i < |w| :: Lower(w)[i] != w[i] <==> IsUpper(w[i]);
    if AllUpper(w) {
      var i :| 0 <= i < |w| && IsUpper(w[i]);
      assert Lower(w)[i] != w[i];
    }
  }
}
