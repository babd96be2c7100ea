/** What the parts of a ranking are worth, and what a ranked list must look like. */
module RankingRules {
  import opened Wrappers
  import opened Text
  import opened Ranking
  import L = LexicalScore
  import Seqs = Sequences

  // ---------- words ----------

  /** The word with its final s removed, or with one added if it has none. */
  predicate OtherForm(token: string, w: string)
    requires token != ""
  {
    if token[|token| - 1] == 's' then w + "s" == token else w == token + "s"
  }

  /** A word is found as it is, or, if it is longer than three letters, with its final s removed or
      with one added. */
  lemma {:induction false} MatchesIff(token: string, words: set<string>)
    ensures L.Matches(token, words) <==>
              || token in words
              || (|token| > 3 && exists w :: w in words && OtherForm(token, w))
  {
    var forms := L.MatchForms(token);
    if L.Matches(token, words) {
      var f :| f in forms * words;
      assert f in words;
      if f != token && token[|token| - 1] == 's' {
        assert f + "s" == token;
      }
    }
    if token in words {
      assert token in forms * words;
    }
    if |token| > 3 && exists w :: w in words && OtherForm(token, w) {
      var w :| w in words && OtherForm(token, w);
      assert w == if token[|token| - 1] == 's' then token[..|token| - 1] else token + "s";
      assert w in forms * words;
    }
  }

  predicate At(text: string, part: string, i: nat) {
    i + |part| <= |text| && text[i..i + |part|] == part
  }

  lemma {:induction false} AtTail(text: string, part: string, i: nat)
    requires text != "" && i > 0
    ensures At(text, part, i) <==> At(text[1..], part, i - 1)
  {
    if i + |part| <= |text| {
      assert text[1..][i - 1..i - 1 + |part|] == text[i..i + |part|];
    }
  }

  /** One text contains another if it is there at some place. */
  lemma {:induction false} ContainsIff(text: string, part: string)
    ensures L.Contains(text, part) <==> exists i: nat :: At(text, part, i)
  {
    if part <= text {
      assert At(text, part, 0);
    } else {
      assert !At(text, part, 0) by { assert |part| <= |text| ==> text[0..0 + |part|] == text[..|part|]; }
      if text != "" {
        ContainsIff(text[1..], part);
        if i: nat :| At(text[1..], part, i) {
          AtTail(text, part, i + 1);
        }
        if i: nat :| At(text, part, i) {
          AtTail(text, part, i);
        }
      }
    }
  }

  /** One word more of a query brings two points if the chunk has it, about a third of a point if it is
      generic, and nothing otherwise. */
  lemma {:induction false} WordIsWorth(terms: seq<string>, term: string, words: set<string>, generic: set<string>)
    ensures L.TermRewards(terms + [term], words, generic) - L.TermRewards(terms, words, generic)
         == if !L.Matches(term, words) then 0.0 else if L.Matches(term, generic) then 0.35 else 2.0
  {
    hide L.Matches;
    Seqs.FrontLast(terms, term);
  }

  /** A pair of neighbouring words found side by side brings eight points more, or 0.4 if both are generic. */
  lemma {:induction false} PairIsWorth(terms: seq<string>, left: string, right: string, text: string, generic: set<string>)
    ensures L.PhraseRewards(terms + [left] + [right], text, generic) - L.PhraseRewards(terms + [left], text, generic)
         == if !L.Contains(text, left + " " + right) then 0.0
            else if L.Matches(left, generic) && L.Matches(right, generic) then 0.40 else 8.0
  {
    hide L.Matches;
    hide L.Contains;
    Seqs.FrontLast(terms + [left], right);
    Seqs.FrontLast(terms, left);
  }

  /** Some word of the query is not generic, and, for the second, it is found. */
  ghost predicate AsksSpecific(q: L.Query, generic: set<string>) {
    exists t :: t in q.terms && !L.Matches(t, generic)
  }

  ghost predicate HasSpecific(q: L.Query, c: L.Chunk, generic: set<string>) {
    exists t :: t in q.terms && !L.Matches(t, generic) && L.Matches(t, L.WordSet(c))
  }

  lemma {:induction false} SpecificIff(q: L.Query, c: L.Chunk, generic: set<string>)
    ensures L.Specific(q.terms, generic) <==> AsksSpecific(q, generic)
    ensures L.Overlaps(q.terms, L.WordSet(c), generic) <==> HasSpecific(q, c, generic)
  {
    hide L.Matches;
    hide L.WordSet;
    if t :| t in q.terms && !L.Matches(t, generic) {
      var i :| 0 <= i < |q.terms| && q.terms[i] == t;
    }
    if t :| t in q.terms && !L.Matches(t, generic) && L.Matches(t, L.WordSet(c)) {
      var i :| 0 <= i < |q.terms| && q.terms[i] == t;
    }
  }

  /** What the whole query found word by word is worth beside its words, pairs and codes. */
  lemma {:induction false} QueryIsWorth(q: L.Query, c: L.Chunk, generic: set<string>)
    requires c.kind == "paragraph" && c.priority == "normal"
    ensures var query := Join(" ", q.terms);
            L.Score(q, c, generic) ==
            L.TermRewards(q.terms, L.WordSet(c), generic) + L.PhraseRewards(q.terms, L.TextOf(c), generic)
            + L.CodeReward(q.codes, c.tokens)
            + (if query == "" || !L.Contains(L.TextOf(c), query) then 0.0 else if AsksSpecific(q, generic) then 8.0 else 1.0)
  {
    hide L.Overlaps;
    hide L.Specific;
    hide AsksSpecific;
    hide HasSpecific;
    hide L.TermRewards;
    hide L.PhraseRewards;
    hide L.Contains;
    hide L.CodeReward;
    hide Join;
    SpecificIff(q, c, generic);
  }

  /** What the kind and the priority of a chunk are worth, the words and codes being the same. */
  lemma {:induction false} KindIsWorth(q: L.Query, c: L.Chunk, generic: set<string>)
    ensures var plain := c.(kind := "paragraph", priority := "normal");
            var score, found := L.Score(q, plain, generic), HasSpecific(q, c, generic);
            && L.Score(q, plain.(kind := "business_case"), generic) == score + (if found then 4.0 else 1.0)
            && L.Score(q, plain.(kind := "rule"), generic) == score + (if found then 3.75 else 0.75)
            && L.Score(q, plain.(kind := "faq"), generic) == score + 0.35
            && L.Score(q, plain.(kind := "question"), generic)
               == score - (if AsksSpecific(q, generic) && !found then 0.5 else 0.0)
            && L.Score(q, plain.(priority := "critical"), generic) == score + 0.4
            && L.Score(q, plain.(priority := "high"), generic) == score + 0.2
  {
    hide L.Overlaps;
    hide L.Specific;
    hide AsksSpecific;
    hide HasSpecific;
    hide L.TermRewards;
    hide L.PhraseRewards;
    hide L.QueryReward;
    hide L.Contains;
    hide L.CodeReward;
    hide Join;
    SpecificIff(q, c, generic);
  }

  // ---------- lists ----------

  /** The filter keeps the order of the hits it keeps. */
  lemma {:induction false} SelectKeepsOrder(a: seq<Hit>, b: seq<Hit>, rows: map<int, Row>)
    ensures Select(a + b, rows) == Select(a, rows) + Select(b, rows)
  {
    hide IsCurrent;
    if a == [] {
      Seqs.Units(b);
      Seqs.Units(Select(b, rows));
    } else {
      SelectKeepsOrder(a[1..], b, rows);
      Seqs.Uncons(a, b);
      Seqs.Assoc(if !HasPair(a[0]) || IsCurrent(a[0], rows) then [a[0]] else [], Select(a[1..], rows), Select(b, rows));
    }
  }

  /** A cached list is taken as it is if it is no longer than asked and every hit has an identifier and a
      positive rank, and refused otherwise. */
  lemma {:induction false} CachedIsTakenIff(results: seq<Hit>, topK: nat)
    ensures Validate(results, topK) == Some(results) <==>
              |results| <= topK && forall i | 0 <= i < |results| :: results[i].id != "" && results[i].rank >= 1
    ensures Validate(results, topK) != Some(results) ==> Validate(results, topK) == None
  {
  }
}
