/** Freshness of the retrieval cache over every interleaving: a search never returns
    results computed before an ingestion that had advanced the generation by the time
    the search read it. */
module RetrievalFreshness {
  import opened Wrappers
  import opened RetrievalCache
  import RetrievalCalls
  import Text
  import TextLines

  ghost predicate Covers(r: Results, floor: Corpus) {
    floor <= r.vectorCorpus && floor <= r.filterCorpus && floor <= r.lexicalCorpus
  }

  /** The payload answers the key: right query form and size, nothing older than the
      corpus its generation started from. */
  ghost predicate Genuine(baseline: seq<Corpus>, key: Key, payload: Payload) {
    match payload
    case Malformed => true
    case Encoded(query) => key.EmbeddingKey? && key.normal == NormalizeQuery(query)
    case Retrieved(r) =>
      && key.RetrievalKey?
      && key.normal == NormalizeQuery(r.query)
      && r.topK == key.topK
      && r.count <= key.topK
      && key.generation < |baseline|
      && Covers(r, baseline[key.generation])
  }

  ghost predicate Deliverable(baseline: seq<Corpus>, c: Call, payload: Payload) {
    ValidFor(c.kind, payload) && Genuine(baseline, KeyOf(c), payload)
  }

  ghost predicate CallOk(baseline: seq<Corpus>, c: Call) {
    && c.generation < |baseline|
    && match c.phase
       case VectorSearch => c.kind.Search?
       case VersionFilter(v) => c.kind.Search? && baseline[c.generation] <= v
       case LexicalRead(v, f) => c.kind.Search? && baseline[c.generation] <= v && baseline[c.generation] <= f
       case Storing(p) => Deliverable(baseline, c, p)
       case Leaving(p) => Deliverable(baseline, c, p)
       case Releasing(o) => o.Returned? ==> Deliverable(baseline, c, o.payload)
       case Finished(o) => o.Returned? ==> Deliverable(baseline, c, o.payload)
       case _ => true
  }

  ghost predicate EntriesOk(baseline: seq<Corpus>, entries: map<Key, Entry>) {
    forall key | key in entries && entries[key].Readable? :: Genuine(baseline, key, entries[key].payload)
  }

  ghost predicate HistoryOk(w: World) {
    && |w.baseline| == w.store.generation + 1
    && (forall g, h | 0 <= g <= h < |w.baseline| :: w.baseline[g] <= w.baseline[h])
    && w.baseline[w.store.generation] <= w.committed
    && w.advanced <= w.baseline[w.store.generation]
  }

  ghost predicate Inv(w: World) {
    && HistoryOk(w)
    && EntriesOk(w.baseline, w.store.entries)
    && forall id | id in w.calls :: CallOk(w.baseline, w.calls[id])
  }

  lemma {:induction false} CallStepKeepsFreshness(s: Store, c: Call, corpus: Corpus, choice: Choice,
      baseline: seq<Corpus>)
    requires |baseline| == s.generation + 1
    requires forall g | 0 <= g < |baseline| :: baseline[g] <= corpus
    requires EntriesOk(baseline, s.entries) && CallOk(baseline, c)
    ensures var (s', c') := CallStep(s, c, corpus, choice);
            s'.generation == s.generation && EntriesOk(baseline, s'.entries) && CallOk(baseline, c')
  {
  }

  lemma {:induction false} NextKeepsFreshness(w: World, e: Event)
    requires Inv(w)
    ensures Inv(Next(w, e))
    ensures w.baseline <= Next(w, e).baseline
  {
    if e.Step? && e.id in w.calls {
      CallStepKeepsFreshness(w.store, w.calls[e.id], w.committed, e.choice, w.baseline);
    } else if e.Advance? {
      assert forall key, payload | Genuine(w.baseline, key, payload) ::
        Genuine(w.baseline + [w.committed], key, payload);
    }
  }

  lemma {:induction false} RunKeepsFreshness(w: World, events: seq<Event>)
    requires Inv(w)
    ensures Inv(Run(w, events))
    ensures w.baseline <= Run(w, events).baseline
    decreases |events|
  {
    if events != [] {
      NextKeepsFreshness(w, events[0]);
      RunKeepsFreshness(Next(w, events[0]), events[1..]);
    }
  }

  // ---------- what a caller gets ----------

  ghost predicate HasNotReadGeneration(w: World, id: nat) {
    id in w.calls ==> w.calls[id].phase.Starting?
  }

  /** If the call goes on to read a generation, it is at least this one. */
  ghost predicate ReadsAtLeast(w: World, id: nat, generation: nat) {
    && generation <= w.store.generation
    && (id in w.calls && !w.calls[id].phase.Starting? && w.calls[id].phase != Finished(Failed)
        ==> generation <= w.calls[id].generation)
  }

  lemma {:induction false} NextReadsAtLeast(w: World, e: Event, id: nat, generation: nat)
    requires ReadsAtLeast(w, id, generation)
    ensures ReadsAtLeast(Next(w, e), id, generation)
  {
  }

  lemma {:induction false} RunReadsAtLeast(w: World, events: seq<Event>, id: nat, generation: nat)
    requires ReadsAtLeast(w, id, generation)
    ensures ReadsAtLeast(Run(w, events), id, generation)
    decreases |events|
  {
    if events != [] {
      NextReadsAtLeast(w, events[0], id, generation);
      RunReadsAtLeast(Next(w, events[0]), events[1..], id, generation);
    }
  }

  /** Freshness.  Split any run where a search has not yet read its generation.  Whatever
      the search returns in the end, by whichever route, each of the reads behind it saw
      every ingestion that had advanced the generation by the split; and it answers this
      query up to case and spacing, for this top_k. */
  lemma {:induction false} SearchIsFresh(before: seq<Event>, after: seq<Event>, id: nat)
    requires HasNotReadGeneration(Run(Initial(), before), id)
    requires id in Run(Initial(), before + after).calls
    requires Run(Initial(), before + after).calls[id].kind.Search?
    requires Run(Initial(), before + after).calls[id].phase.Finished?
    requires Run(Initial(), before + after).calls[id].phase.outcome.Returned?
    ensures var c := Run(Initial(), before + after).calls[id];
            var answer := c.phase.outcome.payload;
            && answer.Retrieved?
            && Covers(answer.results, Run(Initial(), before).advanced)
            && NormalizeQuery(answer.results.query) == NormalizeQuery(c.query)
            && answer.results.topK == c.kind.topK
            && answer.results.count <= c.kind.topK
  {
    var w1 := Run(Initial(), before);
    RunAppend(Initial(), before, after);
    RunKeepsFreshness(Initial(), before);
    RunKeepsFreshness(w1, after);
    RunReadsAtLeast(w1, after, id, w1.store.generation);
    var w2 := Run(w1, after);
    assert CallOk(w2.baseline, w2.calls[id]);
    assert w1.baseline[w1.store.generation] == w2.baseline[w1.store.generation];
    assert w2.baseline[w1.store.generation] <= w2.baseline[w2.calls[id].generation];
  }

  /** An embedding call returns the vector of some query of the same normal form. */
  lemma {:induction false} EmbeddingAnswersNormalForm(events: seq<Event>, id: nat)
    requires var w := Run(Initial(), events);
             id in w.calls && w.calls[id].kind.Embed? && w.calls[id].phase.Finished? && w.calls[id].phase.outcome.Returned?
    ensures var c := Run(Initial(), events).calls[id];
            c.phase.outcome.payload.Encoded? && NormalizeQuery(c.phase.outcome.payload.query) == NormalizeQuery(c.query)
  {
    RunKeepsFreshness(Initial(), events);
    assert CallOk(Run(Initial(), events).baseline, Run(Initial(), events).calls[id]);
  }

  // ---------- the gap between commit and advance ----------

  /** The stored results a search that begins now would return. */
  function StoredAnswer(w: World, query: string, topK: nat): Option<Results> {
    match RetrievalCalls.Stored(w.store, Search(topK), query)
    case Some(Retrieved(r)) => Some(r)
    case _ => None
  }

  ghost predicate Sees(r: Results, i: nat) {
    i in r.vectorCorpus && i in r.filterCorpus && i in r.lexicalCorpus
  }

  /** A call taking n steps with nothing in between. */
  function Alone(w: World, id: nat, found: nat, n: nat): World {
    if n == 0 then w else Next(Alone(w, id, found, n - 1), Step(id, Proceed(found)))
  }

  lemma {:induction false} AloneAdd(w: World, id: nat, found: nat, m: nat, n: nat)
    ensures Alone(w, id, found, m + n) == Alone(Alone(w, id, found, m), id, found, n)
  {
    hide Next;
    if n > 0 {
      AloneAdd(w, id, found, m, n - 1);
    }
  }

  ghost predicate Idle(w: World, id: nat, topK: nat, query: string, phase: Phase) {
    id in w.calls && w.calls[id].kind == Search(topK) && w.calls[id].query == query && w.calls[id].phase == phase
  }

  lemma {:induction false} VectorSearchOn(w: World, id: nat, topK: nat, query: string, found: nat)
    requires Idle(w, id, topK, query, Computing)
    ensures Idle(Alone(w, id, found, 2), id, topK, query, VersionFilter(w.committed))
    ensures Alone(w, id, found, 2).committed == w.committed
  {
    hide NormalizeQuery;
    hide ReadJson;
    hide ReleaseLock;
    hide AcquireLock;
    hide ValidFor;
    hide Text.Words;
    assert Alone(w, id, found, 0) == w;
    var w1 := Alone(w, id, found, 1);
    assert Idle(w1, id, topK, query, VectorSearch) && w1.committed == w.committed;
  }

  /** From the start of its computation, an undisturbed search sees the whole corpus. */
  lemma {:induction false} ComputesFromCorpus(w: World, id: nat, topK: nat, query: string, found: nat)
    requires Idle(w, id, topK, query, Computing)
    ensures var r := Results(query, topK, Least(found, topK), w.committed, w.committed, w.committed);
            Idle(Alone(w, id, found, 6), id, topK, query, Finished(Returned(Retrieved(r))))
  {
    hide Next;
    hide Idle;
    VectorSearchOn(w, id, topK, query, found);
    LexicalReadOn(Alone(w, id, found, 2), id, topK, query, found);
    AloneAdd(w, id, found, 2, 4);
  }

  lemma {:induction false} LexicalReadOn(w: World, id: nat, topK: nat, query: string, found: nat)
    requires Idle(w, id, topK, query, VersionFilter(w.committed))
    ensures var r := Results(query, topK, Least(found, topK), w.committed, w.committed, w.committed);
            Idle(Alone(w, id, found, 4), id, topK, query, Finished(Returned(Retrieved(r))))
  {
    hide NormalizeQuery;
    hide ReadJson;
    hide AcquireLock;
    hide ValidFor;
    hide Text.Words;
    assert Alone(w, id, found, 0) == w;
    var w1 := Alone(w, id, found, 1);
    assert Idle(w1, id, topK, query, LexicalRead(w.committed, w.committed)) && w1.committed == w.committed;
    assert Alone(w, id, found, 2).calls[id].phase.Storing?;
    assert Alone(w, id, found, 3).calls[id].phase.Releasing?;
  }

  /** Nothing but steps of this call, whatever they meet, and the passing of time. */
  predicate Undisturbed(events: seq<Event>, id: nat) {
    forall i | 0 <= i < |events| :: events[i].Wait? || (events[i].Step? && events[i].id == id)
  }

  function ChoicesOf(events: seq<Event>): set<Choice> {
    set e | e in events && e.Step? :: e.choice
  }

  /** Freshness is exact.  Let an ingestion be committed, advanced or not, and a search run with
      nothing in between but time, whether or not its key is held by somebody.  If it returns
      an answer, that misses the ingestion if and only if a usable entry that misses it was
      stored under the current generation when the search began. */
  lemma {:induction false} LoneSearchMissesIff(w: World, id: nat, topK: nat, query: string, events: seq<Event>, i: nat)
    requires id !in w.calls && i in w.committed && Undisturbed(events, id)
    requires var c := Run(Next(w, Begin(id, Search(topK), query)), events).calls;
             id in c && c[id].phase.Finished? && c[id].phase.outcome.Returned?
    ensures var answer := Run(Next(w, Begin(id, Search(topK), query)), events).calls[id].phase.outcome.payload;
            && answer.Retrieved?
            && (!Sees(answer.results, i) <==>
                StoredAnswer(w, query, topK).Some? && !Sees(StoredAnswer(w, query, topK).value, i))
  {
    var begun := Next(w, Begin(id, Search(topK), query));
    if RetrievalCalls.Asks(Search(topK), query) {
      assert RetrievalCalls.Undisturbed(events, id, ChoicesOf(events)) by {
        assert forall k | 0 <= k < |events| && events[k].Step? :: events[k].choice in ChoicesOf(events);
      }
      hide Next;
      hide Run;
      RetrievalCalls.LoneCallLeaves(w, id, Search(topK), query, events, ChoicesOf(events));
    } else {
      RetrievalCalls.BlankSearchFails(begun, events, id);
    }
  }

  /** A search up to its lock, on to the entry it stores, and the same search once an ingestion
      has committed. */
  function LockingPart(): seq<Event> {
    [Begin(0, Search(1), "a"), Step(0, Proceed(0)), Step(0, Proceed(0)), Step(0, Proceed(0)), Step(0, Proceed(0))]
  }

  function StoringPart(): seq<Event> {
    [Step(0, Proceed(0)), Step(0, Proceed(0)), Step(0, Proceed(0)), Step(0, Proceed(0)), Step(0, Proceed(0))]
  }

  function SecondSearch(ingestion: nat): seq<Event> {
    [Commit(ingestion), Begin(1, Search(1), "a"), Step(1, Proceed(0)), Step(1, Proceed(0))]
  }

  function OneCall(store: Store, id: nat, phase: Phase, token: Option<nat>, others: map<nat, Call>,
      committed: Corpus): World {
    World(store, committed, {}, [{}], others[id := Call(Search(1), "a", phase, 0, token, 0, 0)])
  }

  lemma {:induction false} FirstMoves()
    ensures Text.Words("a") != []
    ensures var empty := Initial().store;
            && Next(OneCall(empty, 0, Starting, None, map[], {}), Step(0, Proceed(0))) == OneCall(empty, 0, Reading, None, map[], {})
            && Next(OneCall(empty, 0, Reading, None, map[], {}), Step(0, Proceed(0)))
               == OneCall(empty, 0, Locking(true), None, map[], {})
  {
    Text.WordsOfLeadingWord("a", "");
    assert "a" + "" == "a";
    hide NormalizeQuery;
    hide Text.Words;
    hide AcquireLock;
    hide ReleaseLock;
  }

  lemma {:induction false} LockMoves()
    ensures var empty := Initial().store; var taken := AcquireLock(empty, RetrievalKey(NormalizeQuery("a"), 1, 0)).0;
            && taken.entries == map[] && taken.generation == 0 && taken.now == 0
            && Next(OneCall(empty, 0, Locking(true), None, map[], {}), Step(0, Proceed(0)))
               == OneCall(taken, 0, DoubleChecking, Some(0), map[], {})
            && Next(OneCall(taken, 0, DoubleChecking, Some(0), map[], {}), Step(0, Proceed(0)))
               == OneCall(taken, 0, Computing, Some(0), map[], {})
  {
    hide NormalizeQuery;
    hide Text.Words;
    hide ReleaseLock;
  }

  lemma {:induction false} ReadMoves(store: Store)
    ensures && Next(OneCall(store, 0, Computing, Some(0), map[], {}), Step(0, Proceed(0)))
               == OneCall(store, 0, VectorSearch, Some(0), map[], {})
            && Next(OneCall(store, 0, VectorSearch, Some(0), map[], {}), Step(0, Proceed(0)))
               == OneCall(store, 0, VersionFilter({}), Some(0), map[], {})
            && Next(OneCall(store, 0, VersionFilter({}), Some(0), map[], {}), Step(0, Proceed(0)))
               == OneCall(store, 0, LexicalRead({}, {}), Some(0), map[], {})
  {
    hide NormalizeQuery;
    hide Text.Words;
    hide ReadJson;
    hide AcquireLock;
    hide ReleaseLock;
  }

  lemma {:induction false} StoreMoves(store: Store)
    ensures var r := Results("a", 1, 0, {}, {}, {});
            var stored := WriteJson(store, RetrievalKey(NormalizeQuery("a"), 1, 0), Retrieved(r));
            && Next(OneCall(store, 0, LexicalRead({}, {}), Some(0), map[], {}), Step(0, Proceed(0)))
               == OneCall(store, 0, Storing(Retrieved(r)), Some(0), map[], {})
            && Next(OneCall(store, 0, Storing(Retrieved(r)), Some(0), map[], {}), Step(0, Proceed(0)))
               == OneCall(stored, 0, Releasing(Returned(Retrieved(r))), Some(0), map[], {})
  {
    hide NormalizeQuery;
    hide Text.Words;
    hide WriteJson;
    hide ReadJson;
    hide AcquireLock;
    hide ReleaseLock;
  }

  lemma {:induction false} SecondSearchHits(store: Store, first: Call, r: Results, committed: Corpus)
    requires store.generation == 0 && r.count <= 1
    requires var key := RetrievalKey(NormalizeQuery("a"), 1, 0);
             key in store.entries && store.entries[key] == Readable(Retrieved(r))
    ensures var others := map[0 := first];
            && Next(OneCall(store, 1, Starting, None, others, committed), Step(1, Proceed(0)))
               == OneCall(store, 1, Reading, None, others, committed)
            && Next(OneCall(store, 1, Reading, None, others, committed), Step(1, Proceed(0)))
               == OneCall(store, 1, Finished(Returned(Retrieved(r))), None, others, committed)
  {
    FirstMoves();
    hide NormalizeQuery;
    hide Text.Words;
  }

  lemma {:induction false} FirstSearchLocks(rest: seq<Event>) returns (taken: Store)
    ensures taken.generation == 0
    ensures Run(Initial(), LockingPart() + rest) == Run(OneCall(taken, 0, Computing, Some(0), map[], {}), rest)
  {
    var empty := Initial().store;
    taken := AcquireLock(empty, RetrievalKey(NormalizeQuery("a"), 1, 0)).0;
    FirstMoves();
    LockMoves();
    hide NormalizeQuery;
    hide AcquireLock;
    hide Text.Words;
    hide CallStep;
    var worlds :=
      [OneCall(empty, 0, Starting, None, map[], {}), OneCall(empty, 0, Reading, None, map[], {}),
       OneCall(empty, 0, Locking(true), None, map[], {}), OneCall(taken, 0, DoubleChecking, Some(0), map[], {}),
       OneCall(taken, 0, Computing, Some(0), map[], {})];
    var events := LockingPart() + rest;
    assert worlds[0] == Next(Initial(), events[0]);
    hide Next;
    hide OneCall;
    RunSteps(Initial(), events, worlds);
    assert events[5..] == rest;
  }

  lemma {:induction false} FirstSearchStores(taken: Store, rest: seq<Event>) returns (stored: Store, first: Call)
    requires taken.generation == 0
    ensures stored.generation == 0
    ensures var key := RetrievalKey(NormalizeQuery("a"), 1, 0);
            key in stored.entries && stored.entries[key] == Readable(Retrieved(Results("a", 1, 0, {}, {}, {})))
    ensures Run(OneCall(taken, 0, Computing, Some(0), map[], {}), StoringPart() + rest)
         == Run(World(stored, {}, {}, [{}], map[0 := first]), rest)
  {
    hide NormalizeQuery;
    var key, r := RetrievalKey(NormalizeQuery("a"), 1, 0), Results("a", 1, 0, {}, {}, {});
    stored := WriteJson(taken, key, Retrieved(r));
    first := Call(Search(1), "a", Releasing(Returned(Retrieved(r))), 0, Some(0), 0, 0);
    ReadMoves(taken);
    StoreMoves(taken);
    var worlds :=
      [OneCall(taken, 0, VectorSearch, Some(0), map[], {}), OneCall(taken, 0, VersionFilter({}), Some(0), map[], {}),
       OneCall(taken, 0, LexicalRead({}, {}), Some(0), map[], {}),
       OneCall(taken, 0, Storing(Retrieved(r)), Some(0), map[], {}),
       OneCall(stored, 0, Releasing(Returned(Retrieved(r))), Some(0), map[], {})];
    var events := StoringPart() + rest;
    assert worlds[4] == World(stored, {}, {}, [{}], map[0 := first]);
    hide Next;
    hide OneCall;
    RunSteps(OneCall(taken, 0, Computing, Some(0), map[], {}), events, worlds);
    assert events[5..] == rest;
  }

  /** A run in which an ingestion that is committed, but has not advanced the generation, is
      missed by a search that begins after. */
  lemma {:induction false} CommittedCanBeMissed(ingestion: nat)
    ensures var w := Run(Initial(), LockingPart() + (StoringPart() + SecondSearch(ingestion)));
            && ingestion in w.committed && ingestion !in w.advanced && 1 in w.calls
            && w.calls[1].phase == Finished(Returned(Retrieved(Results("a", 1, 0, {}, {}, {}))))
  {
    var r, events := Results("a", 1, 0, {}, {}, {}), SecondSearch(ingestion);
    var taken := FirstSearchLocks(StoringPart() + events);
    var stored, first := FirstSearchStores(taken, events);
    hide NormalizeQuery;
    SecondSearchHits(stored, first, r, {ingestion});
    hide CallStep;
    var w := World(stored, {}, {}, [{}], map[0 := first]);
    var worlds :=
      [w.(committed := {ingestion}), OneCall(stored, 1, Starting, None, map[0 := first], {ingestion}),
       OneCall(stored, 1, Reading, None, map[0 := first], {ingestion}),
       OneCall(stored, 1, Finished(Returned(Retrieved(r))), None, map[0 := first], {ingestion})];
    assert worlds[0] == Next(w, events[0]) && worlds[1] == Next(worlds[0], events[1]);
    RunSteps(w, events, worlds);
    assert events[4..] == [];
  }

  // ---------- queries with one key ----------

  lemma {:induction false} LowerIsWord(w: string)
    requires Text.IsWord(w)
    ensures Text.IsWord(Text.Lower(w))
  {
    assert forall i | 0 <= i < |w| :: Text.IsSpace(Text.Lower(w)[i]) == Text.IsSpace(w[i]);
  }

  lemma {:induction false} LeadingWord(s: string)
    requires s != "" && !Text.IsSpace(s[0])
    ensures var n := Text.WordLength(s);
            && n > 0 && Text.IsWord(s[..n]) && (n < |s| ==> Text.IsSpace(s[n]))
            && Text.Words(s) == [s[..n]] + Text.Words(s[n..])
  {
    hide Text.Words;
    hide Text.IsSpace;
    var n := Text.WordLength(s);
    assert s == s[..n] + s[n..];
    Text.WordsOfLeadingWord(s[..n], s[n..]);
  }

  lemma LowerOfConcat(a: string, b: string)
    ensures Text.Lower(a + b) == Text.Lower(a) + Text.Lower(b)
  {
  }

  lemma {:induction false} LeadingWordOfLower(s: string)
    requires s != "" && !Text.IsSpace(s[0])
    ensures var n := Text.WordLength(s);
            && Text.Words(s) == [s[..n]] + Text.Words(s[n..])
            && Text.Words(Text.Lower(s)) == [Text.Lower(s[..n])] + Text.Words(Text.Lower(s[n..]))
  {
    var n := Text.WordLength(s);
    LeadingWord(s);
    LowerIsWord(s[..n]);
    if n < |s| { LowerKeepsSpace(s[n]); }
    hide Text.Words;
    hide Text.IsSpace;
    hide Text.IsWord;
    hide Text.WordLength;
    assert s == s[..n] + s[n..];
    LowerOfConcat(s[..n], s[n..]);
    Text.WordsOfLeadingWord(Text.Lower(s[..n]), Text.Lower(s[n..]));
  }

  lemma LowerKeepsSpace(c: char)
    ensures Text.IsSpace(Text.LowerChar(c)) == Text.IsSpace(c)
  {
  }

  lemma LowerAllOfMore(w: string, words: seq<string>)
    ensures Text.LowerAll([w] + words) == [Text.Lower(w)] + Text.LowerAll(words)
  {
  }

  lemma {:induction false} WordsOfLower(s: string)
    ensures Text.Words(Text.Lower(s)) == Text.LowerAll(Text.Words(s))
    decreases |s|
  {
    hide Text.IsSpace;
    hide Text.LowerAll;
    hide Text.Lower;
    if s == "" {
    } else if Text.IsSpace(s[0]) {
      LowerKeepsSpace(s[0]);
      WordsOfLower(s[1..]);
      assert Text.Lower(s)[1..] == Text.Lower(s[1..]);
    } else {
      var n := Text.WordLength(s);
      WordsOfLower(s[n..]);
      LeadingWordOfLower(s);
      LowerAllOfMore(s[..n], Text.Words(s[n..]));
    }
  }

  /** Two queries share their keys exactly when they have the same words up to case. */
  lemma {:induction false} QueriesShareKeysIff(a: string, b: string)
    ensures NormalizeQuery(a) == NormalizeQuery(b) <==> Text.LowerAll(Text.Words(a)) == Text.LowerAll(Text.Words(b))
  {
    NormalWords(a);
    NormalWords(b);
  }

  lemma {:induction false} NormalWords(query: string)
    ensures Text.Words(NormalizeQuery(query)) == Text.LowerAll(Text.Words(query))
    ensures NormalizeQuery(query) == Text.Join(" ", Text.LowerAll(Text.Words(query)))
  {
    TextLines.StrippedLeft(query);
    TextLines.StrippedRight(Text.StripLeft(query));
    WordsOfLower(Text.Strip(query));
    Text.WordsOfJoin(Text.Words(Text.Lower(Text.Strip(query))));
  }

  /** Of two calls in a row whose queries have the same words up to case, the later one returns
      what the first one returned, without computing. */
  lemma {:induction false} SameWordsSameAnswer(w: World, first: nat, next: nat, kind: Kind, query: string,
      again: string, found: nat, choice: Choice)
    requires first !in w.calls && next !in w.calls && first != next && RetrievalCalls.Asks(kind, query)
    requires Text.LowerAll(Text.Words(again)) == Text.LowerAll(Text.Words(query))
    ensures var w1 := Run(w, RetrievalCalls.LoneRun(first, kind, query, Proceed(found)));
            var w2 := Run(w1, RetrievalCalls.LoneRun(next, kind, again, choice));
            && first in w1.calls && w1.calls[first].phase.Finished? && w1.calls[first].phase.outcome.Returned?
            && next in w2.calls && w2.calls[next].phase == w1.calls[first].phase
  {
    QueriesShareKeysIff(again, query);
    assert |Text.LowerAll(Text.Words(again))| == |Text.LowerAll(Text.Words(query))|;
    RetrievalCalls.NextCallRepeats(w, first, next, kind, query, again, found, choice);
  }
}
