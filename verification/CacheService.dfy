/** The cache service and the calls that use it, as objects whose methods update fields.
    Each method is proved against the step functions of RetrievalCache. */
module CacheService {
  import opened Wrappers
  import opened RetrievalCache
  import RetrievalLocks
  import Text

  class CacheStore {
    var generation: nat
    var entries: map<Key, Entry>
    var locks: map<Key, Lock>
    var now: nat
    var issued: nat

    function Value(): Store
      reads this
    {
      Store(generation, entries, locks, now, issued)
    }

    constructor ()
      ensures Value() == Initial().store
    {
      generation, entries, locks, now, issued := 0, map[], map[], 0, 0;
    }

    method Read(key: Key) returns (value: Option<Payload>, status: Status)
      modifies this`entries
      ensures CacheRead(Value(), value, status) == ReadJson(old(Value()), key)
    {
      if key !in entries {
        return None, Miss;
      }
      match entries[key] {
        case Readable(payload) =>
          return Some(payload), Hit;
        case Unreadable =>
          entries := entries - {key};
          return None, Corrupt;
      }
    }

    method Write(key: Key, payload: Payload)
      modifies this`entries
      ensures Value() == WriteJson(old(Value()), key, payload)
    {
      entries := entries[key := Readable(payload)];
    }

    method Delete(key: Key)
      modifies this`entries
      ensures Value() == DeleteKey(old(Value()), key)
    {
      entries := entries - {key};
    }

    method AdvanceGeneration() returns (reached: nat)
      modifies this`generation
      ensures reached == old(generation) + 1 && Value() == old(Value()).(generation := reached)
    {
      generation := generation + 1;
      reached := generation;
    }

    method Acquire(key: Key) returns (token: Option<nat>)
      modifies this`locks, this`issued
      ensures (Value(), token) == AcquireLock(old(Value()), key)
    {
      var drawn := issued;
      issued := issued + 1;
      if key in locks && now < locks[key].expiresAt {
        token := None;
      } else {
        locks := locks[key := Lock(drawn, now + LOCK_MILLIS)];
        token := Some(drawn);
      }
    }

    method Release(key: Key, token: Option<nat>)
      modifies this`locks
      ensures Value() == ReleaseLock(old(Value()), key, token)
    {
      if token == None {
        return;
      }
      if key in locks && now < locks[key].expiresAt && locks[key].token == token.value {
        locks := locks - {key};
      }
    }

    /** Sleeping: at least this much time passes, and the other callers do anything. */
    method Sleep(millis: nat)
      modifies this
      ensures now >= old(now) + millis
    {
      var late: nat :| late >= 0;
      now := now + millis + late;
      generation, entries, locks, issued := *, *, *, *;
    }

    /** Waiting for another caller's entry ends, with an entry that is there or after the
        whole (capped) wait, and after a bounded number of polls. */
    method BoundedWait(key: Key, waitMillis: int)
      returns (value: Option<Payload>, status: Status, polls: nat)
      modifies this
      ensures value.Some? ==> key in entries && entries[key] == Readable(value.value) && status == Hit
      ensures value.None? ==> now >= old(now) + waitMillis || now >= old(now) + 500
      ensures polls == 0 <==> waitMillis <= 0
      ensures polls > 0 ==> POLL_MILLIS * (polls - 1) < waitMillis && polls <= 50
    {
      var started := now;
      var capped := if waitMillis <= 0 then 0 else if waitMillis < 500 then waitMillis else 500;
      var deadline := started + capped;
      value, status, polls := None, Miss, 0;
      while now < deadline
        invariant value == None
        invariant now >= started + POLL_MILLIS * polls
        invariant polls == 0 ==> now == started
        invariant polls > 0 ==> POLL_MILLIS * (polls - 1) < capped
        decreases deadline - now
      {
        Sleep(POLL_MILLIS);
        value, status := Read(key);
        polls := polls + 1;
        if value.Some? {
          break;
        }
      }
    }
  }

  /** One `search_chunks` or `embed_query` call in progress. */
  class CacheCall {
    const store: CacheStore
    const kind: Kind
    const query: string
    var phase: Phase
    var generation: nat
    var token: Option<nat>
    var acquiredAt: nat
    var polls: nat

    function Value(): Call
      reads this
    {
      Call(kind, query, phase, generation, token, acquiredAt, polls)
    }

    constructor (store: CacheStore, kind: Kind, query: string)
      ensures this.store == store && Value() == NewCall(kind, query)
    {
      this.store, this.kind, this.query := store, kind, query;
      phase, generation, token, acquiredAt, polls := Starting, 0, None, 0, 0;
    }

    /** One atomic operation. */
    method Step(corpus: Corpus, choice: Choice)
      modifies this, store
      ensures (store.Value(), Value()) == CallStep(old(store.Value()), old(Value()), corpus, choice)
    {
      hide NormalizeQuery;
      hide Least;
      hide ReleaseLock;
      hide AcquireLock;
      hide WriteJson;
      hide DeleteKey;
      hide ReadJson;
      var key := KeyOf(Value());
      match phase {
        case Starting =>
          if kind.Search? && Text.Words(query) == [] {
            phase := Finished(Failed);
          } else {
            generation := store.generation;
            phase := Reading;
          }
        case Reading =>
          var value, status := store.Read(key);
          if value.Some? && ValidFor(kind, value.value) {
            phase := Finished(Returned(value.value));
          } else if value.Some? {
            phase := Discarding;
          } else {
            phase := Locking(status == Miss);
          }
        case Discarding =>
          store.Delete(key);
          phase := Locking(false);
        case Locking(missed) =>
          var drawn := store.Acquire(key);
          if drawn.Some? {
            token, acquiredAt, phase := drawn, store.now, DoubleChecking;
          } else if missed {
            phase := Polling(store.now + WAIT_MILLIS);
          } else {
            phase := Computing;
          }
        case DoubleChecking =>
          var value, _ := store.Read(key);
          if value.Some? && ValidFor(kind, value.value) {
            phase := Leaving(value.value);
          } else {
            phase := Computing;
          }
        case Leaving(payload) =>
          store.Release(key, token);
          phase := Finished(Returned(payload));
        case Polling(deadline) =>
          if store.now < deadline {
            phase := Sleeping(deadline, store.now + POLL_MILLIS);
          } else {
            phase := Computing;
          }
        case Sleeping(deadline, wake) =>
          if store.now >= wake {
            var value, _ := store.Read(key);
            polls := polls + 1;
            if value.None? {
              phase := Polling(deadline);
            } else if ValidFor(kind, value.value) {
              phase := Finished(Returned(value.value));
            } else {
              phase := Computing;
            }
          }
        case Computing =>
          if choice.Raise? {
            phase := Releasing(Failed);
          } else if kind.Search? {
            phase := VectorSearch;
          } else if choice.Misfit? {
            phase := Releasing(Returned(Encoded(query)));
          } else {
            phase := Storing(Encoded(query));
          }
        case VectorSearch =>
          phase := if choice.Raise? then Releasing(Failed) else VersionFilter(corpus);
        case VersionFilter(seen) =>
          phase := if choice.Raise? then Releasing(Failed) else LexicalRead(seen, corpus);
        case LexicalRead(seen, filtered) =>
          if choice.Proceed? && kind.Search? {
            var count := Least(choice.found, kind.topK);
            phase := Storing(Retrieved(Results(query, kind.topK, count, seen, filtered, corpus)));
          } else {
            phase := Releasing(Failed);
          }
        case Storing(payload) =>
          store.Write(key, payload);
          phase := Releasing(Returned(payload));
        case Releasing(outcome) =>
          store.Release(key, token);
          phase := Finished(outcome);
        case Finished(_) =>
      }
    }

    /** A call runs to its end whatever the others do to the store between its steps. */
    method RunToEnd()
      requires RetrievalLocks.PhaseOk(store.now, Value())
      modifies this, store
      ensures phase.Finished?
      ensures polls <= MAX_POLLS
    {
      hide CallStep;
      while !phase.Finished?
        invariant RetrievalLocks.PhaseOk(store.now, Value())
        decreases RetrievalLocks.Rank(Value())
      {
        store.Sleep(if phase.Sleeping? && store.now < phase.wake then phase.wake - store.now else 0);
        var corpus: Corpus := *;
        var choice: Choice := *;
        RetrievalLocks.StepMoves(store.Value(), Value(), corpus, choice);
        RetrievalLocks.StepRanks(store.Value(), Value(), corpus, choice);
        RetrievalLocks.StepKeepsPhase(store.Value(), Value(), corpus, choice);
        RetrievalLocks.StepKeepsNow(store.Value(), Value(), corpus, choice);
        Step(corpus, choice);
      }
    }
  }
}
