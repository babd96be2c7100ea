/** What the answer cache serves: which answer a similar question finds, from which state of the
    index, and what a rating makes of that. */
module AnswerHits {
  import opened Wrappers
  import opened AnswerCache
  import Seqs = Sequences

  // ---------- similarity ----------

  /** The sum of the products, added up from the first to the n-th. */
  function SumOfProducts(a: Vector, b: Vector, n: nat): real
    requires n <= |a| && n <= |b|
  {
    if n == 0 then 0.0 else SumOfProducts(a, b, n - 1) + a[n - 1] * b[n - 1]
  }

  lemma {:induction false} SumFromSecond(a: Vector, b: Vector, n: nat)
    requires 0 < n <= |a| && n <= |b|
    ensures SumOfProducts(a, b, n) == a[0] * b[0] + SumOfProducts(a[1..], b[1..], n - 1)
  {
    if n > 1 {
      SumFromSecond(a, b, n - 1);
    }
  }

  /** Vectors of one length are as similar as that sum says, others not at all. */
  lemma {:induction false} SimilarityIsSum(a: Vector, b: Vector)
    ensures Similarity(a, b) == if |a| == |b| then SumOfProducts(a, b, |a|) else 0.0
    decreases |a|
  {
    if |a| == |b| && a != [] {
      SimilarityIsSum(a[1..], b[1..]);
      SumFromSecond(a, b, |a|);
    }
  }

  // ---------- one lookup ----------

  /** The entry may be served for this question. */
  ghost predicate Serves(e: Semantic, question: Vector, threshold: real) {
    && e.answer != ""
    && Similarity(question, e.vector) > 0.0
    && Similarity(question, e.vector) >= threshold
  }

  /** No usable entry is more similar, and none before it as similar. */
  ghost predicate IsBest(entries: seq<Semantic>, question: Vector, i: nat)
    requires i < |entries|
  {
    var most := Similarity(question, entries[i].vector);
    && (forall j | 0 <= j < |entries| && entries[j].answer != "" :: Similarity(question, entries[j].vector) <= most)
    && (forall j | 0 <= j < i && entries[j].answer != "" :: Similarity(question, entries[j].vector) < most)
  }

  /** A question finds an answer if and only if some entry is similar enough to serve; it is then
      the answer of the most similar such entry, the newest if there are several. */
  lemma {:induction false} FindsIff(entries: seq<Semantic>, question: Vector, threshold: real)
    ensures FindSimilar(entries, question, threshold).Some? <==> exists e :: e in entries && Serves(e, question, threshold)
    ensures FindSimilar(entries, question, threshold).Some? ==>
              exists i | 0 <= i < |entries| ::
                && Serves(entries[i], question, threshold) && IsBest(entries, question, i)
                && entries[i].answer == FindSimilar(entries, question, threshold).value
  {
    hide Similarity;
    var best := BestIndex(entries, question);
    if best.Some? && Similarity(question, entries[best.value].vector) >= threshold {
      assert Serves(entries[best.value], question, threshold) && IsBest(entries, question, best.value);
    }
  }

  // ---------- lookups over a run ----------

  /** At some point of the run this key asked a question to which an entry then in the index, with
      this answer, was similar enough. */
  ghost predicate WasSimilar(events: seq<Event>, settings: Settings, key: string, answer: string) {
    exists k | 0 <= k < |events| :: FoundAt(events, settings, k, key, answer)
  }

  ghost predicate FoundAt(events: seq<Event>, settings: Settings, k: nat, key: string, answer: string)
    requires k < |events|
  {
    && events[k].Find? && events[k].key == key
    && exists e | e in Entries(Run(Empty(), events[..k], settings).stores, events[k].model) ::
         e.answer == answer && Serves(e, events[k].question, settings.threshold)
  }

  lemma {:induction false} RunLast(w: World, events: seq<Event>, e: Event, settings: Settings)
    ensures Run(w, events + [e], settings) == Next(Run(w, events, settings), e, settings)
    decreases |events|
  {
    hide Next;
    if events == [] {
      assert [e][1..] == [];
      assert Run(w, [e], settings) == Run(Next(w, e, settings), [], settings);
    } else {
      assert (events + [e])[1..] == events[1..] + [e];
      RunLast(Next(w, events[0], settings), events[1..], e, settings);
    }
  }

  lemma {:induction false} SimilarStays(events: seq<Event>, e: Event, settings: Settings, key: string, answer: string)
    requires WasSimilar(events, settings, key, answer)
    ensures WasSimilar(events + [e], settings, key, answer)
  {
    var k :| 0 <= k < |events| && FoundAt(events, settings, k, key, answer);
    assert (events + [e])[..k] == events[..k] && (events + [e])[k] == events[k];
    assert FoundAt(events + [e], settings, k, key, answer);
  }

  lemma {:induction false} FoundNow(events: seq<Event>, e: Event, settings: Settings, answer: string)
    requires e.Find?
    requires FindSimilar(Entries(Run(Empty(), events, settings).stores, e.model), e.question, settings.threshold) == Some(answer)
    ensures WasSimilar(events + [e], settings, e.key, answer)
  {
    hide FindSimilar;
    hide Run;
    hide Serves;
    FindsIff(Entries(Run(Empty(), events, settings).stores, e.model), e.question, settings.threshold);
    assert (events + [e])[..|events|] == events && (events + [e])[|events|] == e;
    assert FoundAt(events + [e], settings, |events|, e.key, answer);
  }

  /** What was found, and what was copied, is the answer of an entry that was in the index, and that
      similar to the question asked for that key, at some point of the run. */
  ghost predicate AllWereSimilar(events: seq<Event>, settings: Settings, w: World) {
    && (forall hit | hit in w.found :: WasSimilar(events, settings, hit.0, hit.1))
    && (forall key | key in w.stores.exact && w.stores.exact[key].origin.FromCopy? ::
          WasSimilar(events, settings, key, w.stores.exact[key].answer))
  }

  lemma {:induction false} EventKeepsSimilar(events: seq<Event>, e: Event, settings: Settings)
    requires AllWereSimilar(events, settings, Run(Empty(), events, settings))
    ensures AllWereSimilar(events + [e], settings, Next(Run(Empty(), events, settings), e, settings))
  {
    hide Run;
    hide WasSimilar;
    hide FindSimilar;
    hide Push;
    hide Remove;
    var w := Run(Empty(), events, settings);
    forall key, answer | WasSimilar(events, settings, key, answer) ensures WasSimilar(events + [e], settings, key, answer) {
      SimilarStays(events, e, settings, key, answer);
    }
    if e.Find? && FindSimilar(Entries(w.stores, e.model), e.question, settings.threshold).Some? {
      FoundNow(events, e, settings, FindSimilar(Entries(w.stores, e.model), e.question, settings.threshold).value);
    }
  }

  lemma {:induction false} ServedWasSimilar(events: seq<Event>, settings: Settings)
    ensures AllWereSimilar(events, settings, Run(Empty(), events, settings))
    decreases |events|
  {
    if events == [] {
    } else {
      hide AllWereSimilar;
      var before := events[..|events| - 1];
      assert events == before + [events[|events| - 1]];
      ServedWasSimilar(before, settings);
      EventKeepsSimilar(before, events[|events| - 1], settings);
      RunLast(Empty(), before, events[|events| - 1], settings);
    }
  }

  /** Copying a found answer caches it under the key that asked, and changes no other entry. */
  lemma {:induction false} CopyIsServed(w: World, key: string, answer: string, settings: Settings)
    ensures var w' := Next(w, Copy(key, answer), settings);
            && w'.stores.links == w.stores.links && w'.stores.index == w.stores.index
            && (forall k | k != key :: (k in w'.stores.exact <==> k in w.stores.exact)
                                       && (k in w.stores.exact ==> w'.stores.exact[k] == w.stores.exact[k]))
            && ((key, answer) in w.found ==> key in w'.stores.exact && w'.stores.exact[key].answer == answer)
  {
    hide FindSimilar;
    hide RecordFeedback;
  }

  // ---------- promotion ----------

  /** The newest entry comes first and stays, the others follow in their order, and only the oldest
      go, when the list is full. */
  lemma {:induction false} NewestIsKept(entries: seq<Semantic>, e: Semantic, size: nat)
    requires size > 0
    ensures var pushed := Push(entries, e, size);
            && pushed != [] && pushed[0] == e
            && |pushed| == (if |entries| < size then |entries| + 1 else size)
            && pushed[1..] == entries[..|pushed| - 1]
  {
  }

  /** A helpful rating caches the answer under its key, puts its vector at the head of its model's
      index and leaves every other key and model alone. */
  lemma {:induction false} PromotionCaches(s: Stores, m: nat, settings: Settings)
    requires m in s.links && s.links[m].answer != "" && !s.links[m].promoted && settings.indexSize > 0
    ensures var l, s' := s.links[m], RecordFeedback(s, m, true, settings);
            && (forall key | l.cacheKey == Some(key) :: key in s'.exact && s'.exact[key] == Exact(l.answer, FromPromotion))
            && (forall key | l.cacheKey != Some(key) :: (key in s'.exact <==> key in s.exact)
                                                       && (key in s.exact ==> s'.exact[key] == s.exact[key]))
            && (l.model != "" && l.vector.Some? && l.vector.value != [] ==>
                  Entries(s', l.model) != [] && Entries(s', l.model)[0] == Semantic(l.vector.value, l.answer))
            && (forall model | model != l.model :: Entries(s', model) == Entries(s, model))
  {
    hide Push;
    var l := s.links[m];
    if SemanticOf(l).Some? {
      NewestIsKept(Entries(s, l.model), SemanticOf(l).value, settings.indexSize);
    }
  }

  /** So a question similar enough to its vector then finds an answer at least as similar. */
  lemma {:induction false} PromotionIsFound(s: Stores, m: nat, question: Vector, settings: Settings)
    requires m in s.links && s.links[m].answer != "" && !s.links[m].promoted && settings.indexSize > 0
    requires s.links[m].model != "" && s.links[m].vector.Some? && s.links[m].vector.value != []
    requires Serves(Semantic(s.links[m].vector.value, s.links[m].answer), question, settings.threshold)
    ensures var l, s' := s.links[m], RecordFeedback(s, m, true, settings);
            var entries := Entries(s', l.model);
            && FindSimilar(entries, question, settings.threshold).Some?
            && exists i | 0 <= i < |entries| ::
                 && entries[i].answer == FindSimilar(entries, question, settings.threshold).value
                 && Similarity(question, entries[i].vector) >= Similarity(question, l.vector.value)
  {
    var l, s' := s.links[m], RecordFeedback(s, m, true, settings);
    var entries := Entries(s', l.model);
    PromotionCaches(s, m, settings);
    assert entries[0] in entries;
    hide RecordFeedback;
    hide FindSimilar;
    hide Similarity;
    FindsIff(entries, question, settings.threshold);
  }

  // ---------- and back ----------

  lemma {:induction false} RemoveOfConcat(a: seq<Semantic>, b: seq<Semantic>, e: Semantic)
    ensures Remove(a + b, e) == Remove(a, e) + Remove(b, e)
  {
    if a == [] {
      Seqs.Units(b);
      Seqs.Units(Remove(b, e));
    } else {
      RemoveOfConcat(a[1..], b, e);
      assert (a + b)[1..] == a[1..] + b && (a + b)[0] == a[0];
      if a[0] != e {
        Seqs.Assoc([a[0]], Remove(a[1..], e), Remove(b, e));
      }
    }
  }

  lemma {:induction false} RemoveNothing(entries: seq<Semantic>, e: Semantic)
    requires e !in entries
    ensures Remove(entries, e) == entries
  {
    if entries != [] {
      RemoveNothing(entries[1..], e);
    }
  }

  /** Withdrawing a helpful rating undoes it, for an answer that was not cached before: its exact
      entry goes, and the index is as it was but for the oldest entry if it was full. */
  lemma {:induction false} DemotionUndoesPromotion(s: Stores, m: nat, settings: Settings)
    requires m in s.links && s.links[m].answer != "" && !s.links[m].promoted && settings.indexSize > 0
    requires s.links[m].cacheKey.Some? ==> s.links[m].cacheKey.value !in s.exact
    requires SemanticOf(s.links[m]).Some? ==> SemanticOf(s.links[m]).value !in Entries(s, s.links[m].model)
    ensures var l, s' := s.links[m], RecordFeedback(RecordFeedback(s, m, true, settings), m, false, settings);
            && s'.links == s.links && s'.exact == s.exact
            && (forall model | model != l.model :: Entries(s', model) == Entries(s, model))
            && var entries := Entries(s, l.model);
               Entries(s', l.model) == if SemanticOf(l).Some? && |entries| >= settings.indexSize
                                       then entries[..settings.indexSize - 1] else entries
  {
    hide Push;
    hide Remove;
    var l, promoted := s.links[m], RecordFeedback(s, m, true, settings);
    assert promoted == Promote(s, m, settings) && RecordFeedback(promoted, m, false, settings) == Demote(promoted, m);
    if SemanticOf(l).Some? {
      PushedThenRemoved(Entries(s, l.model), SemanticOf(l).value, settings.indexSize);
    }
  }

  lemma {:induction false} PushedThenRemoved(entries: seq<Semantic>, e: Semantic, size: nat)
    requires size > 0 && e !in entries
    ensures Remove(Push(entries, e, size), e) == if |entries| >= size then entries[..size - 1] else entries
  {
    var pushed := Push(entries, e, size);
    NewestIsKept(entries, e, size);
    assert pushed == [e] + pushed[1..];
    RemoveOfConcat([e], pushed[1..], e);
    RemoveNothing(pushed[1..], e);
    assert Remove([e], e) == [];
  }

  /** A link that has expired takes no more feedback, so that what its answer left in the caches stays. */
  lemma {:induction false} ExpiredLinkTakesNoFeedback(w: World, m: nat, helpful: bool, settings: Settings)
    ensures var expired := Next(w, Expire(m), settings);
            && m !in expired.stores.links
            && expired.stores.exact == w.stores.exact && expired.stores.index == w.stores.index
            && Next(expired, Feedback(m, helpful), settings) == expired
  {
    hide RecordFeedback;
  }
}
