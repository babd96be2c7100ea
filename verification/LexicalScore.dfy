/** The business-aware lexical score of a chunk for a query, and how far exact codes decide it. */
module LexicalScore {
  import opened Text
  import Seqs = Sequences

  /** What scoring needs of a query: its meaningful words and its upper-case or numeric codes. */
  datatype Query = Query(terms: seq<string>, codes: set<string>)

  /** What scoring needs of a chunk: its meaningful words, all its tokens in upper case, and
      its kind and priority in lower case. */
  datatype Chunk = Chunk(terms: seq<string>, tokens: set<string>, kind: string, priority: string)

  /** A word also matches with or without a final s. */
  function MatchForms(token: string): set<string> {
    if |token| > 3 && token[|token| - 1] == 's' then {token, token[..|token| - 1]}
    else if |token| > 3 then {token, token + "s"}
    else {token}
  }

  predicate Matches(token: string, words: set<string>) {
    MatchForms(token) * words != {}
  }

  predicate Contains(text: string, part: string) {
    part <= text || (text != "" && Contains(text[1..], part))
  }

  function TermReward(term: string, words: set<string>, generic: set<string>): real {
    if !Matches(term, words) then 0.0 else if Matches(term, generic) then 0.35 else 2.0
  }

  function TermRewards(terms: seq<string>, words: set<string>, generic: set<string>): real {
    if terms == [] then 0.0
    else TermRewards(terms[..|terms| - 1], words, generic) + TermReward(terms[|terms| - 1], words, generic)
  }

  function PhraseReward(left: string, right: string, text: string, generic: set<string>): real {
    if !Contains(text, left + " " + right) then 0.0
    else if Matches(left, generic) && Matches(right, generic) then 0.40
    else 8.0
  }

  /** The rewards of all adjacent pairs of words. */
  function PhraseRewards(terms: seq<string>, text: string, generic: set<string>): real {
    if |terms| < 2 then 0.0
    else
      var n := |terms|;
      PhraseRewards(terms[..n - 1], text, generic) + PhraseReward(terms[n - 2], terms[n - 1], text, generic)
  }

  function CodeReward(codes: set<string>, tokens: set<string>): real {
    20.0 * |codes * tokens| as real - 20.0 * |codes - tokens| as real
  }

  /** Whether some word of the query says more than the generic vocabulary. */
  predicate Specific(terms: seq<string>, generic: set<string>) {
    exists i :: 0 <= i < |terms| && !Matches(terms[i], generic)
  }

  function QueryReward(terms: seq<string>, text: string, generic: set<string>): real {
    if Join(" ", terms) == "" || !Contains(text, Join(" ", terms)) then 0.0
    else if Specific(terms, generic) then 8.0
    else 1.0
  }

  predicate Overlaps(terms: seq<string>, words: set<string>, generic: set<string>) {
    exists i :: 0 <= i < |terms| && !Matches(terms[i], generic) && Matches(terms[i], words)
  }

  function KindReward(kind: string, overlaps: bool, specific: bool): real {
    if kind == "rule" then (if overlaps then 3.75 else 0.75)
    else if kind == "business_case" then (if overlaps then 4.0 else 1.0)
    else if kind == "faq" then 0.35
    else if kind == "question" && specific && !overlaps then -0.50
    else 0.0
  }

  function PriorityReward(priority: string): real {
    if priority == "critical" then 0.40 else if priority == "high" then 0.20 else 0.0
  }

  function WordSet(c: Chunk): set<string> {
    set w | w in c.terms
  }

  function TextOf(c: Chunk): string {
    Join(" ", c.terms)
  }

  /** Everything but the codes. */
  function Rest(q: Query, c: Chunk, generic: set<string>): real {
    TermRewards(q.terms, WordSet(c), generic) + PhraseRewards(q.terms, TextOf(c), generic)
    + QueryReward(q.terms, TextOf(c), generic)
    + KindReward(c.kind, Overlaps(q.terms, WordSet(c), generic), Specific(q.terms, generic))
    + PriorityReward(c.priority)
  }

  function Score(q: Query, c: Chunk, generic: set<string>): real {
    Rest(q, c, generic) + CodeReward(q.codes, c.tokens)
  }

  method ScoreTerms(terms: seq<string>, words: set<string>, generic: set<string>) returns (score: real)
    ensures score == TermRewards(terms, words, generic)
  {
    hide Matches;
    score := 0.0;
    for i := 0 to |terms|
      invariant score == TermRewards(terms[..i], words, generic)
    {
      Seqs.TakeStep(terms, i);
      if Matches(terms[i], words) {
        if Matches(terms[i], generic) {
          score := score + 0.35;
        } else {
          score := score + 2.0;
        }
      }
    }
    Seqs.Whole(terms);
  }

  method ScorePhrases(terms: seq<string>, text: string, generic: set<string>) returns (score: real)
    ensures score == PhraseRewards(terms, text, generic)
  {
    hide Matches;
    hide Contains;
    score := 0.0;
    if |terms| < 2 {
      return;
    }
    for i := 1 to |terms|
      invariant score == PhraseRewards(terms[..i], text, generic)
    {
      Seqs.TakeStep(terms, i);
      var left, right := terms[i - 1], terms[i];
      if Contains(text, left + " " + right) {
        if Matches(left, generic) && Matches(right, generic) {
          score := score + 0.40;
        } else {
          score := score + 8.0;
        }
      }
    }
    Seqs.Whole(terms);
  }

  /** `_lexical_rerank_score` */
  method LexicalRerankScore(q: Query, c: Chunk, generic: set<string>) returns (score: real)
    ensures score == Score(q, c, generic)
  {
    hide Matches;
    hide Contains;
    hide Specific;
    hide Overlaps;
    hide Join;
    var words, text := WordSet(c), TextOf(c);
    score := ScoreTerms(q.terms, words, generic);
    var phrases := ScorePhrases(q.terms, text, generic);
    score := score + phrases;
    var matched, missing := q.codes * c.tokens, q.codes - c.tokens;
    if q.codes != {} {
      score := score + 20.0 * |matched| as real;
      score := score - 20.0 * |missing| as real;
    }
    var query := Join(" ", q.terms);
    var specific := Specific(q.terms, generic);
    if query != "" && Contains(text, query) {
      score := score + if specific then 8.0 else 1.0;
    }
    var overlaps := Overlaps(q.terms, words, generic);
    if c.kind == "rule" {
      score := score + 0.75;
      if overlaps {
        score := score + 3.00;
      }
    } else if c.kind == "business_case" {
      score := score + 1.00;
      if overlaps {
        score := score + 3.00;
      }
    } else if c.kind == "faq" {
      score := score + 0.35;
    } else if c.kind == "question" && specific && !overlaps {
      score := score - 0.50;
    }
    if c.priority == "critical" {
      score := score + 0.40;
    } else if c.priority == "high" {
      score := score + 0.20;
    }
  }

  // ---------- bounds ----------

  lemma {:induction false} TermBounds(terms: seq<string>, words: set<string>, generic: set<string>)
    ensures 0.0 <= TermRewards(terms, words, generic) <= 2.0 * |terms| as real
  {
    if terms != [] {
      TermBounds(terms[..|terms| - 1], words, generic);
    }
  }

  lemma {:induction false} PhraseBounds(terms: seq<string>, text: string, generic: set<string>)
    ensures 0.0 <= PhraseRewards(terms, text, generic)
    ensures terms != [] ==> PhraseRewards(terms, text, generic) <= 8.0 * (|terms| - 1) as real
    ensures terms == [] ==> PhraseRewards(terms, text, generic) == 0.0
  {
    if |terms| >= 2 {
      PhraseBounds(terms[..|terms| - 1], text, generic);
    }
  }

  /** Without its codes a score stays within what the words, the kind and the priority can give. */
  lemma {:induction false} RestBounds(q: Query, c: Chunk, generic: set<string>)
    ensures -0.5 <= Rest(q, c, generic) <= 10.0 * |q.terms| as real + 4.4
  {
    TermBounds(q.terms, WordSet(c), generic);
    PhraseBounds(q.terms, TextOf(c), generic);
  }

  lemma {:induction false} CodesSplit(codes: set<string>, tokens: set<string>)
    ensures |codes| == |codes * tokens| + |codes - tokens|
  {
    assert codes == (codes * tokens) + (codes - tokens);
  }

  /** A chunk with every code of the query outranks one that misses j of them as soon as
      40 j exceeds 10 n + 4.9, for a query of n words. */
  lemma {:induction false} CodesDecide(q: Query, has: Chunk, misses: Chunk, generic: set<string>)
    requires q.codes <= has.tokens
    requires 40.0 * |q.codes - misses.tokens| as real > 10.0 * |q.terms| as real + 4.9
    ensures Score(q, has, generic) > Score(q, misses, generic)
  {
    RestBounds(q, has, generic);
    RestBounds(q, misses, generic);
    CodesSplit(q.codes, misses.tokens);
    assert q.codes * has.tokens == q.codes && q.codes - has.tokens == {};
  }
}
