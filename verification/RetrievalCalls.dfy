/** What one call of the retrieval cache does from its beginning to its end: what it returns
    and what it leaves in the store, against what was stored and committed when it began. */
module RetrievalCalls {
  import opened Wrappers
  import opened RetrievalCache
  import RetrievalLocks
  import Text

  function CacheKey(kind: Kind, query: string, generation: nat): Key {
    match kind
    case Search(topK) => RetrievalKey(NormalizeQuery(query), topK, generation)
    case Embed => EmbeddingKey(NormalizeQuery(query))
  }

  /** The stored payload a call of this kind could return now. */
  function Stored(s: Store, kind: Kind, query: string): Option<Payload> {
    var key := CacheKey(kind, query, s.generation);
    if key !in s.entries then None
    else match (kind, s.entries[key])
      case (Search(topK), Readable(Retrieved(r))) => if r.count <= topK then Some(Retrieved(r)) else None
      case (Embed, Readable(Encoded(q))) => Some(Encoded(q))
      case _ => None
  }

  /** A search for nothing fails before it reads anything. */
  predicate Asks(kind: Kind, query: string) {
    kind.Search? ==> Text.Words(query) != []
  }

  /** What computing ends with, by what the outside decides. */
  function Computed(kind: Kind, query: string, committed: Corpus, choice: Choice): Outcome {
    match (kind, choice)
    case (Embed, Raise) => Failed
    case (Embed, _) => Returned(Encoded(query))
    case (Search(topK), Proceed(found)) =>
      Returned(Retrieved(Results(query, topK, Least(found, topK), committed, committed, committed)))
    case (Search(_), _) => Failed
  }

  predicate Holds(s: Store, key: Key, payload: Payload) {
    key in s.entries && s.entries[key] == Readable(payload)
  }

  /** A computation that went well is stored; a vector of the wrong length is returned only. */
  ghost predicate LeftBy(s: Store, kind: Kind, query: string, committed: Corpus, outcome: Outcome, choice: Choice) {
    var key := CacheKey(kind, query, s.generation);
    && outcome == Computed(kind, query, committed, choice)
    && if choice.Proceed? then Holds(s, key, outcome.payload) else key !in s.entries
  }

  /** The outcome is the stored payload, still stored, or if there was none, what one of the
      choices made leads to. */
  ghost predicate Left(s: Store, kind: Kind, query: string, committed: Corpus, stored: Option<Payload>,
      choices: set<Choice>, outcome: Outcome)
  {
    match stored
    case Some(p) => outcome == Returned(p) && Holds(s, CacheKey(kind, query, s.generation), p)
    case None => exists choice | choice in choices :: LeftBy(s, kind, query, committed, outcome, choice)
  }

  /** How far an undisturbed call has come, given what was stored and committed when it began. */
  ghost predicate OnItsWay(s: Store, c: Call, committed: Corpus, stored: Option<Payload>, choices: set<Choice>) {
    && Asks(c.kind, c.query)
    && (c.phase.Starting? || c.generation == s.generation)
    && var absent := stored.None? && CacheKey(c.kind, c.query, s.generation) !in s.entries;
       match c.phase
       case Starting => Stored(s, c.kind, c.query) == stored
       case Reading => Stored(s, c.kind, c.query) == stored
       case Discarding => stored.None?
       case Leaving(_) => false
       case VectorSearch => absent && c.kind.Search?
       case VersionFilter(v) => absent && c.kind.Search? && v == committed
       case LexicalRead(v, f) => absent && c.kind.Search? && v == f == committed
       case Storing(p) => absent && Reached(c, committed, choices, p)
       case Releasing(o) => Left(s, c.kind, c.query, committed, stored, choices, o)
       case Finished(o) => Left(s, c.kind, c.query, committed, stored, choices, o)
       case _ => absent
  }

  ghost predicate Reached(c: Call, committed: Corpus, choices: set<Choice>, p: Payload) {
    exists choice | choice in choices && choice.Proceed? :: Computed(c.kind, c.query, committed, choice) == Returned(p)
  }

  lemma {:induction false} LooksOnItsWay(s: Store, c: Call, committed: Corpus, stored: Option<Payload>,
      choices: set<Choice>, choice: Choice)
    requires OnItsWay(s, c, committed, stored, choices)
    requires c.phase.Starting? || c.phase.Reading? || c.phase.Discarding?
    ensures var (s', c') := CallStep(s, c, committed, choice); OnItsWay(s', c', committed, stored, choices)
  {
    hide NormalizeQuery;
    hide Text.Words;
    hide LeftBy;
  }

  lemma {:induction false} WaitsOnItsWay(s: Store, c: Call, committed: Corpus, stored: Option<Payload>,
      choices: set<Choice>, choice: Choice)
    requires OnItsWay(s, c, committed, stored, choices)
    requires c.phase.Locking? || c.phase.DoubleChecking? || c.phase.Polling? || c.phase.Sleeping?
    ensures var (s', c') := CallStep(s, c, committed, choice); OnItsWay(s', c', committed, stored, choices)
  {
    hide NormalizeQuery;
    hide Text.Words;
    hide Left;
    hide Stored;
  }

  lemma {:induction false} ComputesOnItsWay(s: Store, c: Call, committed: Corpus, stored: Option<Payload>,
      choices: set<Choice>, choice: Choice)
    requires OnItsWay(s, c, committed, stored, choices) && choice in choices
    requires c.phase.Computing? || c.phase.VectorSearch? || c.phase.VersionFilter? || c.phase.LexicalRead?
    ensures var (s', c') := CallStep(s, c, committed, choice); OnItsWay(s', c', committed, stored, choices)
  {
    hide NormalizeQuery;
    hide Text.Words;
    hide Stored;
    hide ReadJson;
    hide Least;
    var outcome := Computed(c.kind, c.query, committed, choice);
    if !choice.Proceed? {
      assert LeftBy(s, c.kind, c.query, committed, outcome, choice);
    }
  }

  lemma {:induction false} StoresOnItsWay(s: Store, c: Call, committed: Corpus, stored: Option<Payload>,
      choices: set<Choice>, choice: Choice)
    requires OnItsWay(s, c, committed, stored, choices) && c.phase.Storing?
    ensures var (s', c') := CallStep(s, c, committed, choice); OnItsWay(s', c', committed, stored, choices)
  {
    hide NormalizeQuery;
    hide Text.Words;
    hide Stored;
    hide ReadJson;
    hide Computed;
    var p, made :| c.phase == Storing(p) && made in choices && made.Proceed?
                   && Computed(c.kind, c.query, committed, made) == Returned(p);
    var s' := CallStep(s, c, committed, choice).0;
    assert LeftBy(s', c.kind, c.query, committed, Returned(p), made);
  }

  lemma {:induction false} LeftStays(s: Store, s': Store, kind: Kind, query: string, committed: Corpus,
      stored: Option<Payload>, choices: set<Choice>, outcome: Outcome)
    requires Left(s, kind, query, committed, stored, choices, outcome)
    requires s'.entries == s.entries && s'.generation == s.generation
    ensures Left(s', kind, query, committed, stored, choices, outcome)
  {
    hide NormalizeQuery;
    hide Computed;
    if stored.None? {
      var choice :| choice in choices && LeftBy(s, kind, query, committed, outcome, choice);
      assert LeftBy(s', kind, query, committed, outcome, choice);
    }
  }

  lemma {:induction false} ReleaseKeepsEntries(s: Store, key: Key, token: Option<nat>)
    ensures ReleaseLock(s, key, token).entries == s.entries && ReleaseLock(s, key, token).generation == s.generation
  {
  }

  lemma {:induction false} EndsOnItsWay(s: Store, c: Call, committed: Corpus, stored: Option<Payload>,
      choices: set<Choice>, choice: Choice)
    requires OnItsWay(s, c, committed, stored, choices) && (c.phase.Releasing? || c.phase.Finished?)
    ensures var (s', c') := CallStep(s, c, committed, choice); OnItsWay(s', c', committed, stored, choices)
  {
    hide NormalizeQuery;
    hide Text.Words;
    hide Left;
    hide ReleaseLock;
    ReleaseKeepsEntries(s, KeyOf(c), c.token);
    LeftStays(s, CallStep(s, c, committed, choice).0, c.kind, c.query, committed, stored, choices, c.phase.outcome);
  }

  lemma {:induction false} StepOnItsWay(s: Store, c: Call, committed: Corpus, stored: Option<Payload>,
      choices: set<Choice>, choice: Choice)
    requires OnItsWay(s, c, committed, stored, choices) && choice in choices
    ensures var (s', c') := CallStep(s, c, committed, choice); OnItsWay(s', c', committed, stored, choices)
  {
    hide CallStep;
    match c.phase {
      case Starting | Reading | Discarding => LooksOnItsWay(s, c, committed, stored, choices, choice);
      case Locking(_) | DoubleChecking | Polling(_) | Sleeping(_, _) =>
        WaitsOnItsWay(s, c, committed, stored, choices, choice);
      case Computing | VectorSearch | VersionFilter(_) | LexicalRead(_, _) =>
        ComputesOnItsWay(s, c, committed, stored, choices, choice);
      case Storing(_) => StoresOnItsWay(s, c, committed, stored, choices, choice);
      case Releasing(_) | Finished(_) => EndsOnItsWay(s, c, committed, stored, choices, choice);
      case Leaving(_) =>
    }
  }

  lemma {:induction false} TimeOnItsWay(s: Store, c: Call, committed: Corpus, stored: Option<Payload>,
      choices: set<Choice>, millis: nat)
    requires OnItsWay(s, c, committed, stored, choices)
    ensures OnItsWay(s.(now := s.now + millis), c, committed, stored, choices)
  {
    hide NormalizeQuery;
    hide Text.Words;
    hide Left;
    if c.phase.Releasing? || c.phase.Finished? {
      LeftStays(s, s.(now := s.now + millis), c.kind, c.query, committed, stored, choices, c.phase.outcome);
    }
  }

  /** Nothing but steps of this call, with some of these choices, and the passing of time. */
  predicate Own(e: Event, id: nat, choices: set<Choice>) {
    e.Wait? || (e.Step? && e.id == id && e.choice in choices)
  }

  predicate Undisturbed(events: seq<Event>, id: nat, choices: set<Choice>) {
    forall i | 0 <= i < |events| :: Own(events[i], id, choices)
  }

  lemma {:induction false} RunOnItsWay(w: World, events: seq<Event>, id: nat, stored: Option<Payload>,
      choices: set<Choice>)
    requires id in w.calls && OnItsWay(w.store, w.calls[id], w.committed, stored, choices)
    requires Undisturbed(events, id, choices)
    ensures var w' := Run(w, events);
            && id in w'.calls && OnItsWay(w'.store, w'.calls[id], w.committed, stored, choices)
            && w'.committed == w.committed && w'.store.generation == w.store.generation
            && w'.calls[id].kind == w.calls[id].kind && w'.calls[id].query == w.calls[id].query
            && w'.calls.Keys == w.calls.Keys
    decreases |events|
  {
    hide OnItsWay;
    hide CallStep;
    if events != [] {
      var e := events[0];
      assert Own(e, id, choices);
      match e {
        case Step(_, choice) =>
          StepOnItsWay(w.store, w.calls[id], w.committed, stored, choices, choice);
          StepKeepsCall(w.store, w.calls[id], w.committed, choice);
        case Wait(millis) => TimeOnItsWay(w.store, w.calls[id], w.committed, stored, choices, millis);
      }
      RunOnItsWay(Next(w, e), events[1..], id, stored, choices);
    }
  }

  lemma {:induction false} StepKeepsCall(s: Store, c: Call, corpus: Corpus, choice: Choice)
    ensures var (s', c') := CallStep(s, c, corpus, choice);
            s'.generation == s.generation && c'.kind == c.kind && c'.query == c.query
  {
    hide NormalizeQuery;
    hide KeyOf;
    hide ValidFor;
    hide Least;
    hide Text.Words;
  }

  /** The outcome of an undisturbed call, whether its key is free or held by somebody: the stored
      payload if a usable one was there when it began, and otherwise what was computed from
      everything committed.  What was computed well is then stored under the call's key;
      otherwise nothing is. */
  lemma {:induction false} LoneCallLeaves(w: World, id: nat, kind: Kind, query: string, events: seq<Event>,
      choices: set<Choice>)
    requires id !in w.calls && Asks(kind, query) && Undisturbed(events, id, choices)
    ensures var w' := Run(Next(w, Begin(id, kind, query)), events);
            && id in w'.calls
            && (w'.calls[id].phase.Finished? ==>
                  Left(w'.store, kind, query, w.committed, Stored(w.store, kind, query), choices,
                       w'.calls[id].phase.outcome))
  {
    var begun := Next(w, Begin(id, kind, query));
    RunOnItsWay(begun, events, id, Stored(w.store, kind, query), choices);
  }

  predicate IsComputing(c: Call) {
    c.phase.Computing? || (c.kind.Search? && (c.phase.VectorSearch? || c.phase.VersionFilter? || c.phase.LexicalRead?))
  }

  lemma {:induction false} FailedStays(w: World, events: seq<Event>, id: nat, choices: set<Choice>)
    requires id in w.calls && (w.calls[id].phase == Releasing(Failed) || w.calls[id].phase == Finished(Failed))
    requires Undisturbed(events, id, choices)
    ensures var w' := Run(w, events);
            && id in w'.calls && w'.store.entries == w.store.entries
            && (w'.calls[id].phase == Releasing(Failed) || w'.calls[id].phase == Finished(Failed))
    decreases |events|
  {
    if events != [] {
      hide NormalizeQuery;
      hide Text.Words;
      assert Own(events[0], id, choices);
      ReleaseKeepsEntries(w.store, KeyOf(w.calls[id]), w.calls[id].token);
      FailedStays(Next(w, events[0]), events[1..], id, choices);
    }
  }

  /** Whichever read of a computation raises: the call fails, and nothing is stored. */
  lemma {:induction false} RaisingFails(w: World, events: seq<Event>, id: nat, choices: set<Choice>)
    requires id in w.calls && IsComputing(w.calls[id]) && Undisturbed(events, id, choices)
    ensures var w' := Run(Next(w, Step(id, Raise)), events);
            && id in w'.calls && w'.store.entries == w.store.entries
            && (w'.calls[id].phase.Finished? ==> w'.calls[id].phase.outcome == Failed)
  {
    hide NormalizeQuery;
    hide ReadJson;
    hide ReleaseLock;
    hide AcquireLock;
    hide Text.Words;
    FailedStays(Next(w, Step(id, Raise)), events, id, choices);
    hide Run;
  }

  /** A search for nothing fails, whatever the others do, and it touches nothing. */
  lemma {:induction false} BlankSearchFails(w: World, events: seq<Event>, id: nat)
    requires id in w.calls && !Asks(w.calls[id].kind, w.calls[id].query)
    requires w.calls[id].phase.Starting? || w.calls[id].phase == Finished(Failed)
    ensures var w' := Run(w, events);
            id in w'.calls && (w'.calls[id].phase.Starting? || w'.calls[id].phase == Finished(Failed))
    ensures events != [] && events[0].Step? && events[0].id == id ==> Next(w, events[0]).store == w.store
    decreases |events|
  {
    hide Text.Words;
    hide NormalizeQuery;
    if events != [] {
      BlankStep(w, events[0], id);
      hide Next;
      BlankSearchFails(Next(w, events[0]), events[1..], id);
    }
  }

  lemma {:induction false} BlankStep(w: World, e: Event, id: nat)
    requires id in w.calls && !Asks(w.calls[id].kind, w.calls[id].query)
    requires w.calls[id].phase.Starting? || w.calls[id].phase == Finished(Failed)
    ensures var w' := Next(w, e);
            && id in w'.calls && !Asks(w'.calls[id].kind, w'.calls[id].query)
            && (w'.calls[id].phase.Starting? || w'.calls[id].phase == Finished(Failed))
            && (e.Step? && e.id == id ==> w'.store == w.store)
  {
    hide Text.Words;
    hide NormalizeQuery;
    hide ReadJson;
    hide AcquireLock;
    hide ReleaseLock;
  }

  // ---------- it does come to its end ----------

  /** A call taking n steps, each after the time between two polls. */
  function Rounds(id: nat, choice: Choice, n: nat): seq<Event> {
    if n == 0 then [] else [Wait(POLL_MILLIS), Step(id, choice)] + Rounds(id, choice, n - 1)
  }

  function LoneRun(id: nat, kind: Kind, query: string, choice: Choice): seq<Event> {
    [Begin(id, kind, query)] + Rounds(id, choice, RetrievalLocks.LONGEST)
  }

  ghost predicate SleepsShortly(s: Store, c: Call) {
    RetrievalLocks.PhaseOk(s.now, c) && (c.phase.Sleeping? ==> c.phase.wake <= s.now + POLL_MILLIS)
  }

  lemma {:induction false} RoundIsShort(s: Store, c: Call, committed: Corpus, choice: Choice)
    requires SleepsShortly(s, c)
    ensures var later := s.(now := s.now + POLL_MILLIS); var (s', c') := CallStep(later, c, committed, choice);
            && SleepsShortly(s', c')
            && (c.phase.Finished? || RetrievalLocks.Rank(c') < RetrievalLocks.Rank(c))
            && (c.phase.Finished? ==> c' == c)
  {
    var later := s.(now := s.now + POLL_MILLIS);
    RetrievalLocks.StepKeepsPhase(later, c, committed, choice);
    RetrievalLocks.StepKeepsNow(later, c, committed, choice);
    RetrievalLocks.StepMoves(later, c, committed, choice);
    RetrievalLocks.StepRanks(later, c, committed, choice);
    StepSleepsShortly(later, c, committed, choice);
  }

  lemma {:induction false} StepSleepsShortly(s: Store, c: Call, committed: Corpus, choice: Choice)
    requires c.phase.Sleeping? ==> c.phase.wake <= s.now + POLL_MILLIS
    ensures var c' := CallStep(s, c, committed, choice).1;
            c'.phase.Sleeping? ==> c'.phase.wake <= s.now + POLL_MILLIS
  {
    hide NormalizeQuery;
    hide KeyOf;
    hide ValidFor;
    hide Least;
    hide Text.Words;
    hide ReadJson;
  }

  lemma {:induction false} RoundsFinish(w: World, id: nat, choice: Choice, n: nat)
    requires id in w.calls && SleepsShortly(w.store, w.calls[id]) && RetrievalLocks.Rank(w.calls[id]) <= n
    ensures var w' := Run(w, Rounds(id, choice, n)); id in w'.calls && w'.calls[id].phase.Finished?
    decreases n
  {
    hide CallStep;
    hide SleepsShortly;
    if n == 0 {
      assert w.calls[id].phase.Finished? by { assert SleepsShortly(w.store, w.calls[id]); RankZero(w.store, w.calls[id]); }
    } else {
      var rounds := Rounds(id, choice, n);
      var w1 := Next(w, rounds[0]);
      RoundIsShort(w.store, w.calls[id], w.committed, choice);
      assert rounds[1..][1..] == Rounds(id, choice, n - 1);
      RoundsFinish(Next(w1, rounds[1..][0]), id, choice, n - 1);
    }
  }

  lemma {:induction false} RankZero(s: Store, c: Call)
    requires SleepsShortly(s, c) && RetrievalLocks.Rank(c) <= 0
    ensures c.phase.Finished?
  {
  }

  lemma {:induction false} RoundsAreOwn(id: nat, choice: Choice, n: nat)
    ensures Undisturbed(Rounds(id, choice, n), id, {choice})
  {
    if n > 0 {
      RoundsAreOwn(id, choice, n - 1);
    }
  }

  /** An undisturbed call does end, and by what LoneCallLeaves says. */
  lemma {:induction false} LoneCallEnds(w: World, id: nat, kind: Kind, query: string, choice: Choice)
    requires id !in w.calls && Asks(kind, query)
    ensures var w' := Run(w, LoneRun(id, kind, query, choice));
            && w'.calls.Keys == w.calls.Keys + {id} && w'.committed == w.committed
            && w'.store.generation == w.store.generation
            && w'.calls[id].phase.Finished?
            && Left(w'.store, kind, query, w.committed, Stored(w.store, kind, query), {choice}, w'.calls[id].phase.outcome)
  {
    var begun, events := Next(w, Begin(id, kind, query)), Rounds(id, choice, RetrievalLocks.LONGEST);
    RoundsAreOwn(id, choice, RetrievalLocks.LONGEST);
    RoundsFinish(begun, id, choice, RetrievalLocks.LONGEST);
    assert LoneRun(id, kind, query, choice)[1..] == events;
    hide OnItsWay;
    hide Left;
    hide Stored;
    LoneCallLeaves(w, id, kind, query, events, {choice});
    assert OnItsWay(begun.store, begun.calls[id], w.committed, Stored(w.store, kind, query), {choice}) by {
      BeginsOnItsWay(w, id, kind, query, {choice});
    }
    RunOnItsWay(begun, events, id, Stored(w.store, kind, query), {choice});
  }

  lemma {:induction false} BeginsOnItsWay(w: World, id: nat, kind: Kind, query: string, choices: set<Choice>)
    requires id !in w.calls && Asks(kind, query)
    ensures var begun := Next(w, Begin(id, kind, query));
            && begun == w.(calls := w.calls[id := NewCall(kind, query)])
            && OnItsWay(w.store, begun.calls[id], w.committed, Stored(w.store, kind, query), choices)
  {
    hide Stored;
    hide Text.Words;
  }

  /** An embedding that was not stored is computed and then stored. */
  lemma {:induction false} EmbeddingIsStored(w: World, id: nat, query: string, found: nat)
    requires id !in w.calls && Stored(w.store, Embed, query).None?
    ensures var w' := Run(w, LoneRun(id, Embed, query, Proceed(found)));
            && id in w'.calls && w'.calls[id].phase == Finished(Returned(Encoded(query)))
            && EmbeddingKey(NormalizeQuery(query)) in w'.store.entries
            && w'.store.entries[EmbeddingKey(NormalizeQuery(query))] == Readable(Encoded(query))
  {
    LoneCallEnds(w, id, Embed, query, Proceed(found));
    hide LoneRun;
    hide Run;
    hide Stored;
  }

  /** A vector of the wrong length is returned, and nothing is stored. */
  lemma {:induction false} MisfitIsNotStored(w: World, id: nat, query: string)
    requires id !in w.calls && Stored(w.store, Embed, query).None?
    ensures var w' := Run(w, LoneRun(id, Embed, query, Misfit));
            && id in w'.calls && w'.calls[id].phase == Finished(Returned(Encoded(query)))
            && EmbeddingKey(NormalizeQuery(query)) !in w'.store.entries
  {
    LoneCallEnds(w, id, Embed, query, Misfit);
    hide LoneRun;
    hide Run;
    hide Stored;
  }

  /** Search results that were not stored are computed and then stored under the generation. */
  lemma {:induction false} SearchIsStored(w: World, id: nat, topK: nat, query: string, found: nat)
    requires id !in w.calls && Text.Words(query) != [] && Stored(w.store, Search(topK), query).None?
    ensures var w' := Run(w, LoneRun(id, Search(topK), query, Proceed(found)));
            var key := RetrievalKey(NormalizeQuery(query), topK, w.store.generation);
            var r := Results(query, topK, if found <= topK then found else topK, w.committed, w.committed, w.committed);
            && id in w'.calls && w'.calls[id].phase == Finished(Returned(Retrieved(r)))
            && key in w'.store.entries && w'.store.entries[key] == Readable(Retrieved(r))
  {
    LoneCallEnds(w, id, Search(topK), query, Proceed(found));
    hide LoneRun;
    hide Run;
    hide Stored;
  }

  // ---------- and the next call takes what it left ----------

  lemma {:induction false} LeftIsUsable(s: Store, kind: Kind, query: string, committed: Corpus,
      before: Store, found: nat, outcome: Outcome)
    requires Left(s, kind, query, committed, Stored(before, kind, query), {Proceed(found)}, outcome)
    ensures outcome.Returned? && Stored(s, kind, query) == Some(outcome.payload)
  {
    hide NormalizeQuery;
    match Stored(before, kind, query) {
      case Some(p) => StoredFits(before, s, kind, query, p);
      case None =>
    }
  }

  lemma {:induction false} StoredFits(before: Store, s: Store, kind: Kind, query: string, p: Payload)
    requires Stored(before, kind, query) == Some(p) && Holds(s, CacheKey(kind, query, s.generation), p)
    ensures Stored(s, kind, query) == Some(p)
  {
    hide NormalizeQuery;
  }

  /** Two calls of the same kind and normal form in a row: the later one returns what the first
      one returned, and it never computes, so that it would not matter if computing failed. */
  lemma {:induction false} NextCallRepeats(w: World, first: nat, next: nat, kind: Kind, query: string, again: string,
      found: nat, choice: Choice)
    requires first !in w.calls && next !in w.calls && first != next
    requires Asks(kind, query) && Asks(kind, again) && NormalizeQuery(again) == NormalizeQuery(query)
    ensures var w1 := Run(w, LoneRun(first, kind, query, Proceed(found)));
            var w2 := Run(w1, LoneRun(next, kind, again, choice));
            && first in w1.calls && w1.calls[first].phase.Finished? && w1.calls[first].phase.outcome.Returned?
            && next in w2.calls && w2.calls[next].phase == w1.calls[first].phase
  {
    LoneCallEnds(w, first, kind, query, Proceed(found));
    var w1 := Run(w, LoneRun(first, kind, query, Proceed(found)));
    LeftIsUsable(w1.store, kind, query, w.committed, w.store, found, w1.calls[first].phase.outcome);
    assert Stored(w1.store, kind, again) == Stored(w1.store, kind, query) by { hide NormalizeQuery; }
    LoneCallEnds(w1, next, kind, again, choice);
    hide LoneRun;
    hide Run;
  }

  // ---------- waiting for another caller ----------

  /** A call whose next steps read its key, with a usable entry there, and onwards. */
  ghost predicate Taking(s: Store, c: Call, p: Payload) {
    || c.phase == Leaving(p)
    || c.phase == Finished(Returned(p))
    || (Holds(s, KeyOf(c), p) && ValidFor(c.kind, p)
        && (c.phase.Reading? || c.phase.DoubleChecking? || c.phase.Sleeping?
            || (c.phase.Locking? && !Locked(s, KeyOf(c)))))
  }

  lemma {:induction false} StepTakes(s: Store, c: Call, corpus: Corpus, choice: Choice, p: Payload)
    requires Taking(s, c, p)
    ensures var (s', c') := CallStep(s, c, corpus, choice); Taking(s', c', p) && s'.entries == s.entries
  {
    hide NormalizeQuery;
    hide Text.Words;
    hide ValidFor;
    RetrievalLocks.StepKeepsKey(s, c, corpus, choice);
    ReleaseKeepsEntries(s, KeyOf(c), c.token);
  }

  /** A call that reads, polls or checks again under its lock when somebody has left a usable
      entry returns that entry and computes nothing. */
  lemma {:induction false} EntryIsTaken(w: World, id: nat, p: Payload, events: seq<Event>, choices: set<Choice>)
    requires id in w.calls && Taking(w.store, w.calls[id], p) && Undisturbed(events, id, choices)
    ensures var w' := Run(w, events);
            && id in w'.calls && Taking(w'.store, w'.calls[id], p) && w'.store.entries == w.store.entries
            && (w'.calls[id].phase.Finished? ==> w'.calls[id].phase.outcome == Returned(p))
    decreases |events|
  {
    if events != [] {
      var e := events[0];
      assert Own(e, id, choices);
      hide CallStep;
      if e.Step? {
        StepTakes(w.store, w.calls[id], w.committed, e.choice, p);
      }
      hide Next;
      hide Taking;
      EntryIsTaken(Next(w, e), id, p, events[1..], choices);
    }
  }

  ghost predicate Waiting(c: Call, until: nat) {
    || (c.phase.Polling? && c.phase.deadline == until)
    || (c.phase.Sleeping? && c.phase.deadline == until)
  }

  /** Nothing under the key, something that does not parse, or something usable. */
  ghost predicate NothingMisleads(s: Store, c: Call) {
    KeyOf(c) in s.entries && s.entries[KeyOf(c)].Readable? ==> ValidFor(c.kind, s.entries[KeyOf(c)].payload)
  }

  /** The same at every moment of a run. */
  ghost predicate NothingEverMisleads(w: World, events: seq<Event>, c: Call)
    decreases |events|
  {
    && NothingMisleads(w.store, c)
    && (events != [] ==> NothingEverMisleads(Next(w, events[0]), events[1..], c))
  }

  ghost predicate WaitsOrTook(c: Call, c': Call, until: nat) {
    && c'.kind == c.kind && KeyOf(c') == KeyOf(c)
    && (Waiting(c', until) || (c'.phase.Finished? && c'.phase.outcome.Returned?))
  }

  lemma {:induction false} StepWaits(s: Store, c: Call, corpus: Corpus, choice: Choice, until: nat)
    requires Waiting(c, until) && NothingMisleads(s, c) && s.now < until
    ensures WaitsOrTook(c, CallStep(s, c, corpus, choice).1, until)
  {
    hide NormalizeQuery;
    hide ValidFor;
  }

  lemma {:induction false} FinishedStays(s: Store, c: Call, corpus: Corpus, choice: Choice)
    requires c.phase.Finished?
    ensures CallStep(s, c, corpus, choice) == (s, c)
  {
  }

  lemma {:induction false} EventWaits(w: World, e: Event, id: nat, c: Call, until: nat)
    requires id in w.calls && NothingMisleads(w.store, c)
    requires w.store.now < until ==> WaitsOrTook(c, w.calls[id], until)
    ensures id in Next(w, e).calls
    ensures Next(w, e).store.now < until ==> WaitsOrTook(c, Next(w, e).calls[id], until)
  {
    hide CallStep;
    hide KeyOf;
    hide ValidFor;
    if e.Step? && e.id in w.calls {
      RetrievalLocks.StepKeepsNow(w.store, w.calls[e.id], w.committed, e.choice);
      if e.id == id && w.store.now < until {
        if w.calls[id].phase.Finished? {
          FinishedStays(w.store, w.calls[id], w.committed, e.choice);
        } else {
          StepWaits(w.store, w.calls[id], w.committed, e.choice, until);
        }
      }
    }
  }

  lemma {:induction false} RunWaits(w: World, events: seq<Event>, id: nat, c: Call, until: nat)
    requires id in w.calls && NothingEverMisleads(w, events, c)
    requires w.store.now < until ==> WaitsOrTook(c, w.calls[id], until)
    ensures var w' := Run(w, events);
            id in w'.calls && (w'.store.now < until ==> WaitsOrTook(c, w'.calls[id], until))
    decreases |events|
  {
    hide Next;
    hide WaitsOrTook;
    hide NothingMisleads;
    if events != [] {
      EventWaits(w, events[0], id, c, until);
      RunWaits(Next(w, events[0]), events[1..], id, c, until);
    }
  }

  /** Whatever the other calls, the ingestions and the expiries do in between: a waiting call
      gives up and computes before its time only if something readable but unusable appears
      under its key. */
  lemma {:induction false} WaitsItsTime(w: World, events: seq<Event>, id: nat, until: nat)
    requires id in w.calls && Waiting(w.calls[id], until) && NothingEverMisleads(w, events, w.calls[id])
    ensures var w' := Run(w, events);
            && id in w'.calls
            && (w'.store.now < until ==>
                  Waiting(w'.calls[id], until) || (w'.calls[id].phase.Finished? && w'.calls[id].phase.outcome.Returned?))
  {
    hide Next;
    hide NothingMisleads;
    RunWaits(w, events, id, w.calls[id], until);
  }

  /** Up to its lock, an undisturbed call that found nothing usable. */
  function ToItsLock(id: nat, kind: Kind, query: string, discards: bool, choice: Choice): seq<Event> {
    var step := Step(id, choice);
    [Begin(id, kind, query), step, step, step] + if discards then [step] else []
  }

  /** A call that found nothing usable takes the lock if it is free.  If somebody holds it, the
      call waits for the holder if nothing at all was stored under its key, and otherwise,
      after discarding what was there, computes at once. */
  lemma {:induction false} WaitsIff(w: World, id: nat, kind: Kind, query: string, choice: Choice)
    requires id !in w.calls && Asks(kind, query) && Stored(w.store, kind, query).None?
    ensures var key := CacheKey(kind, query, w.store.generation);
            var w' := Run(w, ToItsLock(id, kind, query, key in w.store.entries && w.store.entries[key].Readable?, choice));
            && id in w'.calls && KeyOf(w'.calls[id]) == key && key !in w'.store.entries
            && w'.calls[id].phase == (if !Locked(w.store, key) then DoubleChecking
                                      else if key !in w.store.entries then Polling(w.store.now + WAIT_MILLIS)
                                      else Computing)
            && (!Locked(w.store, key) ==> RetrievalLocks.HasItsLock(w'.store, w'.calls[id]))
  {
    hide Next;
    hide KeyOf;
    hide CacheKey;
    hide Locked;
    hide RetrievalLocks.HasItsLock;
    hide Run;
    var key := CacheKey(kind, query, w.store.generation);
    var discards := key in w.store.entries && w.store.entries[key].Readable?;
    var begin, step := Begin(id, kind, query), Step(id, choice);
    var w1 := Next(Next(w, begin), step);
    var w2 := Next(w1, step);
    StartsReading(w, id, kind, query, choice);
    NothingUsable(w.store, kind, query);
    FindsNothing(w1, id, choice);
    RunToItsLock(w, begin, step, discards);
    if discards {
      Discards(w2, id, choice);
      TakesOrWaits(Next(w2, step), id, choice);
    } else {
      TakesOrWaits(w2, id, choice);
    }
  }

  lemma {:induction false} RunToItsLock(w: World, begin: Event, step: Event, discards: bool)
    ensures var w2 := Next(Next(Next(w, begin), step), step);
            Run(w, [begin, step, step, step] + if discards then [step] else [])
            == if discards then Next(Next(w2, step), step) else Next(w2, step)
  {
    hide Next;
    var events := [begin, step, step, step] + if discards then [step] else [];
    var w2 := Next(Next(Next(w, begin), step), step);
    RunSteps(w, events, [Next(w, begin), Next(Next(w, begin), step), w2, Next(w2, step)]);
    assert events[4..] == if discards then [step] else [];
    assert Run(Next(w2, step), [step]) == Run(Next(Next(w2, step), step), []);
  }

  lemma {:induction false} NothingUsable(s: Store, kind: Kind, query: string)
    requires Stored(s, kind, query).None?
    ensures var key := CacheKey(kind, query, s.generation);
            key in s.entries && s.entries[key].Readable? ==> !ValidFor(kind, s.entries[key].payload)
  {
    hide NormalizeQuery;
  }

  lemma {:induction false} StartsReading(w: World, id: nat, kind: Kind, query: string, choice: Choice)
    requires id !in w.calls && Asks(kind, query)
    ensures var w1 := Next(Next(w, Begin(id, kind, query)), Step(id, choice));
            && id in w1.calls && w1.store == w.store && w1.calls[id].kind == kind && w1.calls[id].phase == Reading
            && KeyOf(w1.calls[id]) == CacheKey(kind, query, w.store.generation)
  {
    hide NormalizeQuery;
    hide Text.Words;
  }

  lemma {:induction false} FindsNothing(w: World, id: nat, choice: Choice)
    requires id in w.calls && w.calls[id].phase == Reading
    requires var key := KeyOf(w.calls[id]);
             key in w.store.entries && w.store.entries[key].Readable? ==>
               !ValidFor(w.calls[id].kind, w.store.entries[key].payload)
    ensures var w' := Next(w, Step(id, choice)); var key := KeyOf(w.calls[id]);
            && id in w'.calls && KeyOf(w'.calls[id]) == key && w'.store.locks == w.store.locks && w'.store.now == w.store.now
            && w'.calls[id].phase == (if key !in w.store.entries then Locking(true)
                                      else if w.store.entries[key].Readable? then Discarding else Locking(false))
            && (key in w'.store.entries ==> w'.calls[id].phase == Discarding)
            && (Locked(w'.store, key) <==> Locked(w.store, key))
  {
    hide NormalizeQuery;
    hide ValidFor;
  }

  lemma {:induction false} Discards(w: World, id: nat, choice: Choice)
    requires id in w.calls && w.calls[id].phase == Discarding
    ensures var w' := Next(w, Step(id, choice)); var key := KeyOf(w.calls[id]);
            && id in w'.calls && KeyOf(w'.calls[id]) == key && w'.store.locks == w.store.locks && w'.store.now == w.store.now
            && w'.calls[id].phase == Locking(false) && key !in w'.store.entries
            && (Locked(w'.store, key) <==> Locked(w.store, key))
  {
    hide NormalizeQuery;
  }

  lemma {:induction false} TakesOrWaits(w: World, id: nat, choice: Choice)
    requires id in w.calls && w.calls[id].phase.Locking? && KeyOf(w.calls[id]) !in w.store.entries
    ensures var w' := Next(w, Step(id, choice)); var key := KeyOf(w.calls[id]);
            && id in w'.calls && KeyOf(w'.calls[id]) == key && key !in w'.store.entries
            && w'.calls[id].phase == (if !Locked(w.store, key) then DoubleChecking
                                      else if w.calls[id].phase.missed then Polling(w.store.now + WAIT_MILLIS)
                                      else Computing)
            && (!Locked(w.store, key) ==> RetrievalLocks.HasItsLock(w'.store, w'.calls[id]))
  {
    hide NormalizeQuery;
  }
}
