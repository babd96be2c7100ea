/** The read-through cache in front of retrieval and query embedding: a shared store
    with a generation counter and token locks, and any number of concurrent calls that
    read, lock, double-check, wait, compute, write and release, while ingestions commit
    and then advance the generation.  Every shared operation is one atomic step. */
module RetrievalCache {
  import opened Wrappers
  import Text

  const LOCK_MILLIS: nat := 5000
  const WAIT_MILLIS: nat := 150
  const POLL_MILLIS: nat := 10
  const MAX_POLLS: nat := 15

  /** Ingestions are named by numbers; corpora are the sets of ingestions they contain. */
  type Corpus = set<nat>

  // ---------- the shared store ----------

  /** Hashes are treated as injective, so a key is the tuple of what is hashed. */
  datatype Key =
    | RetrievalKey(normal: string, topK: nat, generation: nat)
    | EmbeddingKey(normal: string)

  /** What a retrieval computed: for which query, how many hits, and the corpus visible
      to each of its three reads. */
  datatype Results = Results(
    query: string, topK: nat, count: nat,
    vectorCorpus: Corpus, filterCorpus: Corpus, lexicalCorpus: Corpus)

  datatype Payload = Retrieved(results: Results) | Encoded(query: string) | Malformed

  datatype Entry = Readable(payload: Payload) | Unreadable

  datatype Lock = Lock(token: nat, expiresAt: nat)

  datatype Store = Store(
    generation: nat, entries: map<Key, Entry>, locks: map<Key, Lock>, now: nat, issued: nat)

  datatype Status = Hit | Miss | Corrupt

  datatype CacheRead = CacheRead(store: Store, value: Option<Payload>, status: Status)

  function NormalizeQuery(query: string): string {
    Text.Join(" ", Text.Words(Text.Lower(Text.Strip(query))))
  }

  /** Reading an entry that does not parse deletes it and reports no value. */
  function ReadJson(s: Store, key: Key): CacheRead {
    if key !in s.entries then CacheRead(s, None, Miss)
    else match s.entries[key] {
      case Readable(payload) => CacheRead(s, Some(payload), Hit)
      case Unreadable => CacheRead(s.(entries := s.entries - {key}), None, Corrupt)
    }
  }

  function WriteJson(s: Store, key: Key, payload: Payload): Store {
    s.(entries := s.entries[key := Readable(payload)])
  }

  function DeleteKey(s: Store, key: Key): Store {
    s.(entries := s.entries - {key})
  }

  predicate Locked(s: Store, key: Key) {
    key in s.locks && s.now < s.locks[key].expiresAt
  }

  /** A token is drawn whether or not the lock is free. */
  function AcquireLock(s: Store, key: Key): (Store, Option<nat>) {
    var drawn := s.(issued := s.issued + 1);
    if Locked(s, key) then (drawn, None)
    else (drawn.(locks := s.locks[key := Lock(s.issued, s.now + LOCK_MILLIS)]), Some(s.issued))
  }

  /** The compare-and-delete script: only the lock carrying the caller's token goes. */
  function ReleaseLock(s: Store, key: Key, token: Option<nat>): Store {
    if token.Some? && Locked(s, key) && s.locks[key].token == token.value
    then s.(locks := s.locks - {key})
    else s
  }

  // ---------- one search or embedding call ----------

  datatype Kind = Search(topK: nat) | Embed

  datatype Outcome = Returned(payload: Payload) | Failed

  datatype Phase =
    | Starting
    | Reading
    | Discarding
    | Locking(missed: bool)
    | DoubleChecking
    | Leaving(payload: Payload)
    | Polling(deadline: nat)
    | Sleeping(deadline: nat, wake: nat)
    | Computing
    | VectorSearch
    | VersionFilter(vectorCorpus: Corpus)
    | LexicalRead(vectorCorpus: Corpus, filterCorpus: Corpus)
    | Storing(payload: Payload)
    | Releasing(outcome: Outcome)
    | Finished(outcome: Outcome)

  datatype Call = Call(
    kind: Kind, query: string, phase: Phase, generation: nat,
    token: Option<nat>, acquiredAt: nat, polls: nat)

  /** What the outside world decides for one step: computations may raise, a model may
      return a vector of the wrong length, and a search finds some number of hits. */
  datatype Choice = Proceed(found: nat) | Raise | Misfit

  function KeyOf(c: Call): Key {
    match c.kind
    case Search(topK) => RetrievalKey(NormalizeQuery(c.query), topK, c.generation)
    case Embed => EmbeddingKey(NormalizeQuery(c.query))
  }

  predicate ValidFor(kind: Kind, payload: Payload) {
    match kind
    case Search(topK) => payload.Retrieved? && payload.results.count <= topK
    case Embed => payload.Encoded?
  }

  function AfterFirstRead(c: Call, read: CacheRead): Call {
    if read.value.Some? && ValidFor(c.kind, read.value.value)
    then c.(phase := Finished(Returned(read.value.value)))
    else if read.value.Some? then c.(phase := Discarding)
    else c.(phase := Locking(read.status == Miss))
  }

  function AfterLocking(c: Call, now: nat, token: Option<nat>): Call
    requires c.phase.Locking?
  {
    match token
    case Some(_) => c.(phase := DoubleChecking, token := token, acquiredAt := now)
    case None => c.(phase := if c.phase.missed then Polling(now + WAIT_MILLIS) else Computing)
  }

  function AfterPoll(c: Call, read: CacheRead): Call
    requires c.phase.Sleeping?
  {
    var polled := c.(polls := c.polls + 1);
    if read.value.None? then polled.(phase := Polling(c.phase.deadline))
    else if ValidFor(c.kind, read.value.value) then polled.(phase := Finished(Returned(read.value.value)))
    else polled.(phase := Computing)
  }

  function Least(a: nat, b: nat): nat {
    if a <= b then a else b
  }

  /** The next atomic operation of one call, with `corpus` the ingestions committed now.
      A sleeping call whose time has not come does nothing. */
  function CallStep(s: Store, c: Call, corpus: Corpus, choice: Choice): (Store, Call) {
    match c.phase
    case Starting =>
      if c.kind.Search? && Text.Words(c.query) == [] then (s, c.(phase := Finished(Failed)))
      else (s, c.(phase := Reading, generation := s.generation))
    case Reading =>
      var read := ReadJson(s, KeyOf(c));
      (read.store, AfterFirstRead(c, read))
    case Discarding =>
      (DeleteKey(s, KeyOf(c)), c.(phase := Locking(false)))
    case Locking(_) =>
      var (locked, token) := AcquireLock(s, KeyOf(c));
      (locked, AfterLocking(c, s.now, token))
    case DoubleChecking =>
      var read := ReadJson(s, KeyOf(c));
      (read.store,
       if read.value.Some? && ValidFor(c.kind, read.value.value)
       then c.(phase := Leaving(read.value.value)) else c.(phase := Computing))
    case Leaving(payload) =>
      (ReleaseLock(s, KeyOf(c), c.token), c.(phase := Finished(Returned(payload))))
    case Polling(deadline) =>
      (s, c.(phase := if s.now < deadline then Sleeping(deadline, s.now + POLL_MILLIS) else Computing))
    case Sleeping(deadline, wake) =>
      if s.now < wake then (s, c)
      else
        var read := ReadJson(s, KeyOf(c));
        (read.store, AfterPoll(c, read))
    case Computing =>
      if choice.Raise? then (s, c.(phase := Releasing(Failed)))
      else if c.kind.Search? then (s, c.(phase := VectorSearch))
      else if choice.Misfit? then (s, c.(phase := Releasing(Returned(Encoded(c.query)))))
      else (s, c.(phase := Storing(Encoded(c.query))))
    case VectorSearch =>
      (s, c.(phase := if choice.Raise? then Releasing(Failed) else VersionFilter(corpus)))
    case VersionFilter(vectorCorpus) =>
      (s, c.(phase := if choice.Raise? then Releasing(Failed) else LexicalRead(vectorCorpus, corpus)))
    case LexicalRead(vectorCorpus, filterCorpus) =>
      if choice.Proceed? && c.kind.Search? then
        var results := Results(c.query, c.kind.topK, Least(choice.found, c.kind.topK),
                               vectorCorpus, filterCorpus, corpus);
        (s, c.(phase := Storing(Retrieved(results))))
      else (s, c.(phase := Releasing(Failed)))
    case Storing(payload) =>
      (WriteJson(s, KeyOf(c), payload), c.(phase := Releasing(Returned(payload))))
    case Releasing(outcome) =>
      (ReleaseLock(s, KeyOf(c), c.token), c.(phase := Finished(outcome)))
    case Finished(_) => (s, c)
  }

  // ---------- the whole system ----------

  datatype World = World(
    store: Store, committed: Corpus, advanced: Corpus,
    baseline: seq<Corpus>,  // baseline[g]: the ingestions committed when generation g was reached
    calls: map<nat, Call>)

  datatype Event =
    | Begin(id: nat, kind: Kind, query: string)
    | Step(id: nat, choice: Choice)
    | Commit(ingestion: nat)
    | Advance(ingestion: nat)
    | Wait(millis: nat)
    | Lose(key: Key)                     // expiry, eviction, or a caller discarding its entry
    | Damage(key: Key, unreadable: bool) // stored bytes that no longer parse or validate

  function Initial(): World {
    World(Store(0, map[], map[], 0, 0), {}, {}, [{}], map[])
  }

  function NewCall(kind: Kind, query: string): Call {
    Call(kind, query, Starting, 0, None, 0, 0)
  }

  function Next(w: World, e: Event): World {
    match e
    case Begin(id, kind, query) =>
      if id in w.calls then w else w.(calls := w.calls[id := NewCall(kind, query)])
    case Step(id, choice) =>
      if id !in w.calls then w
      else
        var (store, call) := CallStep(w.store, w.calls[id], w.committed, choice);
        w.(store := store, calls := w.calls[id := call])
    case Commit(i) => w.(committed := w.committed + {i})
    case Advance(i) =>
      if i !in w.committed || i in w.advanced then w
      else w.(store := w.store.(generation := w.store.generation + 1),
              advanced := w.advanced + {i},
              baseline := w.baseline + [w.committed])
    case Wait(millis) => w.(store := w.store.(now := w.store.now + millis))
    case Lose(key) => w.(store := DeleteKey(w.store, key))
    case Damage(key, unreadable) =>
      var entry := if unreadable then Unreadable else Readable(Malformed);
      w.(store := w.store.(entries := w.store.entries[key := entry]))
  }

  function Run(w: World, events: seq<Event>): World
    decreases |events|
  {
    if events == [] then w else Run(Next(w, events[0]), events[1..])
  }

  lemma {:induction false} RunAppend(w: World, a: seq<Event>, b: seq<Event>)
    ensures Run(w, a + b) == Run(Run(w, a), b)
    decreases |a|
  {
    if a == [] {
      assert a + b == b;
    } else {
      RunAppend(Next(w, a[0]), a[1..], b);
      assert (a + b)[1..] == a[1..] + b;
    }
  }

  /** A run, given its first states. */
  lemma {:induction false} RunSteps(w: World, events: seq<Event>, worlds: seq<World>)
    requires 0 < |worlds| <= |events|
    requires worlds[0] == Next(w, events[0])
    requires forall k | 0 < k < |worlds| :: worlds[k] == Next(worlds[k - 1], events[k])
    ensures Run(w, events) == Run(worlds[|worlds| - 1], events[|worlds|..])
    decreases |worlds|
  {
    hide Next;
    if |worlds| > 1 {
      var more, later := worlds[1..], events[1..];
      assert forall k | 0 <= k < |more| :: more[k] == worlds[k + 1];
      assert forall k | 0 <= k < |later| :: later[k] == events[k + 1];
      assert later[|more|..] == events[|worlds|..];
      forall k | 0 < k < |more| ensures more[k] == Next(more[k - 1], later[k]) {
        assert worlds[k + 1] == Next(worlds[k], events[k + 1]);
      }
      RunSteps(worlds[0], later, more);
    }
  }
}
