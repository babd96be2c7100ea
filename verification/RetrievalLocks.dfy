/** Lock ownership and termination of the cache protocol over every interleaving. */
module RetrievalLocks {
  import opened Wrappers
  import opened RetrievalCache

  /** The call acquired its lock, has not finished, and the lock's time is not over. */
  ghost predicate Holding(w: World, id: nat) {
    && id in w.calls
    && w.calls[id].token.Some?
    && !w.calls[id].phase.Finished?
    && w.store.now < w.calls[id].acquiredAt + LOCK_MILLIS
  }

  ghost predicate HasLock(s: Store, key: Key, token: nat, acquiredAt: nat) {
    key in s.locks && s.locks[key] == Lock(token, acquiredAt + LOCK_MILLIS)
  }

  ghost predicate HasItsLock(s: Store, c: Call) {
    c.token.Some? && HasLock(s, KeyOf(c), c.token.value, c.acquiredAt)
  }

  ghost predicate PhaseOk(now: nat, c: Call) {
    && c.polls <= MAX_POLLS
    && (c.token.None? || !(c.phase.Starting? || c.phase.Reading? || c.phase.Discarding? || c.phase.Locking?
                           || c.phase.Polling? || c.phase.Sleeping?))
    && match c.phase
       case Starting => c.polls == 0
       case Reading => c.polls == 0
       case Discarding => c.polls == 0
       case Locking(_) => c.polls == 0
       case Polling(deadline) => deadline + POLL_MILLIS * c.polls <= now + WAIT_MILLIS
       case Sleeping(deadline, wake) =>
         deadline + POLL_MILLIS * (c.polls + 1) <= wake + WAIT_MILLIS && wake < deadline + POLL_MILLIS
       case _ => true
  }

  /** Locks carrying the token are for its key and end when its owner expects; once the
      owner is done they are over; until its time is over, an owner has its lock. */
  ghost predicate Owns(s: Store, key: Key, token: nat, acquiredAt: nat, done: bool) {
    && token < s.issued
    && (forall k | k in s.locks && s.locks[k].token == token :: k == key && HasLock(s, key, token, acquiredAt))
    && (done ==> forall k | k in s.locks && s.locks[k].token == token :: !Locked(s, k))
    && (!done && s.now < acquiredAt + LOCK_MILLIS ==> HasLock(s, key, token, acquiredAt))
  }

  ghost predicate OwnershipOk(s: Store, c: Call) {
    c.token.Some? ==> Owns(s, KeyOf(c), c.token.value, c.acquiredAt, c.phase.Finished?)
  }

  ghost predicate TokensBelow(s: Store) {
    forall key | key in s.locks :: s.locks[key].token < s.issued
  }

  ghost predicate TokensDiffer(w: World) {
    forall a, b | a in w.calls && b in w.calls && a != b && w.calls[a].token.Some? ::
      w.calls[a].token != w.calls[b].token
  }

  ghost predicate Inv(w: World) {
    && TokensBelow(w.store)
    && TokensDiffer(w)
    && forall id | id in w.calls :: PhaseOk(w.store.now, w.calls[id]) && OwnershipOk(w.store, w.calls[id])
  }

  lemma {:induction false} AcquireKeepsOwners(s: Store, key: Key, k: Key, token: nat, at: nat, done: bool)
    requires Owns(s, k, token, at, done)
    ensures Owns(AcquireLock(s, key).0, k, token, at, done)
  {
  }

  lemma {:induction false} AcquireMakesOwner(s: Store, key: Key)
    requires TokensBelow(s) && AcquireLock(s, key).1.Some?
    ensures Owns(AcquireLock(s, key).0, key, AcquireLock(s, key).1.value, s.now, false)
  {
  }

  lemma {:induction false} ReleaseKeepsOthers(s: Store, key: Key, mine: Option<nat>, k: Key, token: nat,
      at: nat, done: bool)
    requires Owns(s, k, token, at, done) && mine != Some(token)
    ensures Owns(ReleaseLock(s, key, mine), k, token, at, done)
  {
  }

  lemma {:induction false} ReleaseEndsOwner(s: Store, key: Key, token: nat, at: nat)
    requires Owns(s, key, token, at, false)
    ensures Owns(ReleaseLock(s, key, Some(token)), key, token, at, true)
  {
  }

  /** The step of a call never changes its key once the generation is read. */
  lemma {:induction false} StepKeepsKey(s: Store, c: Call, corpus: Corpus, choice: Choice)
    requires !c.phase.Starting?
    ensures KeyOf(CallStep(s, c, corpus, choice).1) == KeyOf(c)
  {
    hide NormalizeQuery;
    hide ReadJson;
    hide WriteJson;
    hide DeleteKey;
    hide ReleaseLock;
    hide AcquireLock;
    hide ValidFor;
    hide Least;
    hide Text.Words;
    var c' := CallStep(s, c, corpus, choice).1;
    assert c'.kind == c.kind && c'.query == c.query && c'.generation == c.generation;
  }

  /** What one step of a call does to the locks. */
  lemma {:induction false} StepLocks(s: Store, c: Call, corpus: Corpus, choice: Choice)
    ensures var (s', c') := CallStep(s, c, corpus, choice);
            if c.phase.Locking? then
              var (locked, token) := AcquireLock(s, KeyOf(c));
              s' == locked && !c'.phase.Finished?
              && if token.Some? then c'.token == token && c'.acquiredAt == s.now
                 else c'.token == c.token && c'.acquiredAt == c.acquiredAt
            else
              && c'.token == c.token && c'.acquiredAt == c.acquiredAt
              && if c.phase.Leaving? || c.phase.Releasing?
                 then s' == ReleaseLock(s, KeyOf(c), c.token) && c'.phase.Finished?
                 else s'.locks == s.locks && s'.issued == s.issued && s'.now == s.now
  {
  }

  lemma {:induction false} StepKeepsDone(s: Store, c: Call, corpus: Corpus, choice: Choice)
    requires PhaseOk(s.now, c) && c.token.Some? && !c.phase.Leaving? && !c.phase.Releasing?
    ensures CallStep(s, c, corpus, choice).1.phase.Finished? == c.phase.Finished?
  {
  }

  lemma {:induction false} StepKeepsPhase(s: Store, c: Call, corpus: Corpus, choice: Choice)
    requires PhaseOk(s.now, c)
    ensures PhaseOk(s.now, CallStep(s, c, corpus, choice).1)
  {
    hide NormalizeQuery;
    hide KeyOf;
    hide ReadJson;
    hide WriteJson;
    hide DeleteKey;
    hide ReleaseLock;
    hide AcquireLock;
    hide ValidFor;
    hide Least;
    hide Text.Words;
  }

  lemma {:induction false} SameLocksSameOwners(s: Store, s': Store, k: Key, token: nat, at: nat, done: bool)
    requires Owns(s, k, token, at, done)
    requires s'.locks == s.locks && s'.issued == s.issued && s.now <= s'.now
    ensures Owns(s', k, token, at, done)
  {
  }

  lemma {:induction false} StepKeepsOwn(s: Store, c: Call, corpus: Corpus, choice: Choice)
    requires TokensBelow(s) && PhaseOk(s.now, c) && OwnershipOk(s, c)
    ensures var (s', c') := CallStep(s, c, corpus, choice);
            && TokensBelow(s') && OwnershipOk(s', c')
            && (c'.token == c.token || c'.token == Some(s.issued))
  {
    StepLocks(s, c, corpus, choice);
    var (s', c') := CallStep(s, c, corpus, choice);
    if c.phase.Starting? {
    } else if c.phase.Locking? {
      StepKeepsKey(s, c, corpus, choice);
      if AcquireLock(s, KeyOf(c)).1.Some? { AcquireMakesOwner(s, KeyOf(c)); }
    } else if c.token.Some? {
      StepKeepsKey(s, c, corpus, choice);
      if c.phase.Leaving? || c.phase.Releasing? {
        ReleaseEndsOwner(s, KeyOf(c), c.token.value, c.acquiredAt);
      } else {
        StepKeepsDone(s, c, corpus, choice);
        SameLocksSameOwners(s, s', KeyOf(c), c.token.value, c.acquiredAt, c.phase.Finished?);
      }
    }
  }

  /** A step of one call leaves what another call owns as it was. */
  lemma {:induction false} StepKeepsOther(s: Store, c: Call, corpus: Corpus, choice: Choice, other: Call)
    requires OwnershipOk(s, other)
    requires c.token.Some? ==> other.token != c.token
    ensures OwnershipOk(CallStep(s, c, corpus, choice).0, other)
  {
    StepLocks(s, c, corpus, choice);
    if other.token.Some? {
      var k, t, at, done := KeyOf(other), other.token.value, other.acquiredAt, other.phase.Finished?;
      if c.phase.Locking? {
        AcquireKeepsOwners(s, KeyOf(c), k, t, at, done);
      } else if c.phase.Leaving? || c.phase.Releasing? {
        ReleaseKeepsOthers(s, KeyOf(c), c.token, k, t, at, done);
      } else {
        SameLocksSameOwners(s, CallStep(s, c, corpus, choice).0, k, t, at, done);
      }
    }
  }

  lemma {:induction false} OwnTokenIsOld(s: Store, c: Call)
    requires OwnershipOk(s, c) && c.token.Some?
    ensures c.token.value < s.issued
  {
  }

  lemma {:induction false} StepKeepsTokensApart(w: World, id: nat, choice: Choice)
    requires Inv(w) && id in w.calls
    ensures TokensDiffer(Next(w, Step(id, choice)))
  {
    hide CallStep;
    hide PhaseOk;
    hide OwnershipOk;
    StepKeepsOwn(w.store, w.calls[id], w.committed, choice);
    forall other | other in w.calls && w.calls[other].token.Some?
      ensures w.calls[other].token.value < w.store.issued
    {
      OwnTokenIsOld(w.store, w.calls[other]);
    }
  }

  lemma {:induction false} StepEventKeepsLocks(w: World, id: nat, choice: Choice)
    requires Inv(w) && id in w.calls
    ensures Inv(Next(w, Step(id, choice)))
  {
    hide CallStep;
    hide PhaseOk;
    hide OwnershipOk;
    hide TokensDiffer;
    hide TokensBelow;
    var c := w.calls[id];
    var w' := Next(w, Step(id, choice));
    StepKeepsOwn(w.store, c, w.committed, choice);
    StepKeepsPhase(w.store, c, w.committed, choice);
    StepKeepsTokensApart(w, id, choice);
    StepKeepsNow(w.store, c, w.committed, choice);
    forall other | other in w.calls && other != id
      ensures OwnershipOk(w'.store, w.calls[other]) && PhaseOk(w'.store.now, w.calls[other])
    {
      OthersToken(w, id, other);
      StepKeepsOther(w.store, c, w.committed, choice, w.calls[other]);
    }
  }

  lemma {:induction false} OthersToken(w: World, id: nat, other: nat)
    requires Inv(w) && id in w.calls && other in w.calls && other != id
    ensures w.calls[id].token.Some? ==> w.calls[other].token != w.calls[id].token
  {
  }

  lemma {:induction false} StepKeepsNow(s: Store, c: Call, corpus: Corpus, choice: Choice)
    ensures CallStep(s, c, corpus, choice).0.now == s.now
  {
    StepLocks(s, c, corpus, choice);
  }

  lemma {:induction false} NextKeepsLocks(w: World, e: Event)
    requires Inv(w)
    ensures Inv(Next(w, e))
  {
    hide CallStep;
    if e.Step? && e.id in w.calls {
      hide *;
      StepEventKeepsLocks(w, e.id, e.choice);
    }
  }

  lemma {:induction false} RunKeepsLocks(w: World, events: seq<Event>)
    requires Inv(w)
    ensures Inv(Run(w, events))
    decreases |events|
  {
    if events != [] {
      NextKeepsLocks(w, events[0]);
      RunKeepsLocks(Next(w, events[0]), events[1..]);
    }
  }

  /** At most one unexpired holder per key, in every reachable state. */
  lemma {:induction false} OneHolderPerKey(events: seq<Event>, a: nat, b: nat)
    requires var w := Run(Initial(), events);
             Holding(w, a) && Holding(w, b) && KeyOf(w.calls[a]) == KeyOf(w.calls[b])
    ensures a == b
  {
    RunKeepsLocks(Initial(), events);
  }

  /** Nothing another call does, in particular a late release after its own lock expired,
      takes away the lock of a call that still holds. */
  lemma {:induction false} OthersNeverTakeTheLock(events: seq<Event>, e: Event, id: nat)
    requires Holding(Run(Initial(), events), id)
    requires !(e.Step? && e.id == id)
    ensures var w := Run(Initial(), events + [e]);
            && id in w.calls
            && (w.store.now < w.calls[id].acquiredAt + LOCK_MILLIS ==>
                  Holding(w, id) && HasItsLock(w.store, w.calls[id]) && Locked(w.store, KeyOf(w.calls[id])))
  {
    RunKeepsLocks(Initial(), events);
    RunAppend(Initial(), events, [e]);
    var w := Run(Initial(), events);
    assert Run(w, [e]) == Next(w, e) by { assert Run(Next(w, e), []) == Next(w, e); }
    NextKeepsLocks(w, e);
  }

  /** However a search or an embedding call finished, no live lock carries its token. */
  lemma {:induction false} FinishedCallsLeaveNoLock(events: seq<Event>, id: nat, key: Key)
    requires var w := Run(Initial(), events);
             id in w.calls && w.calls[id].phase.Finished? && w.calls[id].token.Some? && Locked(w.store, key)
    ensures var w := Run(Initial(), events); w.store.locks[key].token != w.calls[id].token.value
  {
    RunKeepsLocks(Initial(), events);
  }

  // ---------- every call is short ----------

  const LONGEST: nat := 60

  function Rank(c: Call): int {
    match c.phase
    case Starting => LONGEST
    case Reading => 59
    case Discarding => 58
    case Locking(_) => 57
    case DoubleChecking => 12
    case Leaving(_) => 1
    case Polling(_) => 2 * (MAX_POLLS - c.polls) + 13
    case Sleeping(_, _) => 2 * (MAX_POLLS - c.polls) + 12
    case Computing => 11
    case VectorSearch => 10
    case VersionFilter(_) => 9
    case LexicalRead(_, _) => 8
    case Storing(_) => 7
    case Releasing(_) => 6
    case Finished(_) => 0
  }

  function RankIn(w: World, id: nat): int {
    if id in w.calls then Rank(w.calls[id]) else LONGEST
  }

  /** The steps of one call that did something, over a run. */
  function Moves(w: World, events: seq<Event>, id: nat): nat
    decreases |events|
  {
    if events == [] then 0
    else
      var moved := events[0].Step? && events[0].id == id && id in w.calls
                   && Next(w, events[0]).calls[id] != w.calls[id];
      (if moved then 1 else 0) + Moves(Next(w, events[0]), events[1..], id)
  }

  /** A call only ever stands still when it has finished or is sleeping. */
  lemma {:induction false} StepMoves(s: Store, c: Call, corpus: Corpus, choice: Choice)
    ensures var c' := CallStep(s, c, corpus, choice).1;
            c' == c <==> c.phase.Finished? || (c.phase.Sleeping? && s.now < c.phase.wake)
  {
    hide NormalizeQuery;
    hide KeyOf;
    hide ReadJson;
    hide WriteJson;
    hide DeleteKey;
    hide ReleaseLock;
    hide AcquireLock;
    hide ValidFor;
    hide Least;
    hide Text.Words;
  }

  lemma {:induction false} StepRanks(s: Store, c: Call, corpus: Corpus, choice: Choice)
    requires PhaseOk(s.now, c)
    ensures var c' := CallStep(s, c, corpus, choice).1;
            c' != c ==> Rank(c') < Rank(c)
  {
    hide NormalizeQuery;
    hide KeyOf;
    hide ReadJson;
    hide WriteJson;
    hide DeleteKey;
    hide ReleaseLock;
    hide AcquireLock;
    hide ValidFor;
    hide Least;
    hide Text.Words;
  }

  lemma {:induction false} MovesUseRank(w: World, events: seq<Event>, id: nat)
    requires Inv(w)
    ensures Moves(w, events, id) + RankIn(Run(w, events), id) <= RankIn(w, id)
    decreases |events|
  {
    if events != [] {
      var e := events[0];
      NextKeepsLocks(w, e);
      MoveUsesRank(w, e, id);
      hide Inv;
      hide Next;
      hide RankIn;
      MovesUseRank(Next(w, e), events[1..], id);
    }
  }

  lemma {:induction false} MoveUsesRank(w: World, e: Event, id: nat)
    requires Inv(w)
    ensures RankIn(Next(w, e), id) <= RankIn(w, id)
    ensures e.Step? && e.id == id && id in w.calls && Next(w, e).calls[id] != w.calls[id] ==>
              RankIn(Next(w, e), id) < RankIn(w, id)
    ensures id in w.calls ==> id in Next(w, e).calls
  {
    hide CallStep;
    hide OwnershipOk;
    if e.Step? && e.id in w.calls {
      StepRanks(w.store, w.calls[e.id], w.committed, e.choice);
    }
  }

  /** No call makes more than sixty moves in any run, and none polls more than fifteen
      times, whatever the others do. */
  lemma {:induction false} CallsAreShort(events: seq<Event>, id: nat)
    ensures Moves(Initial(), events, id) <= LONGEST
    ensures var w := Run(Initial(), events); id in w.calls ==> w.calls[id].polls <= MAX_POLLS
  {
    RunKeepsLocks(Initial(), events);
    MovesUseRank(Initial(), events, id);
    var w := Run(Initial(), events);
    assert id in w.calls ==> PhaseOk(w.store.now, w.calls[id]);
  }

  // ---------- every lock runs out ----------

  ghost predicate LocksEnd(s: Store) {
    forall key | key in s.locks :: s.locks[key].expiresAt <= s.now + LOCK_MILLIS
  }

  lemma {:induction false} StepLocksEnd(s: Store, c: Call, corpus: Corpus, choice: Choice)
    requires LocksEnd(s)
    ensures LocksEnd(CallStep(s, c, corpus, choice).0)
  {
    hide NormalizeQuery;
    hide CallStep;
    StepLocks(s, c, corpus, choice);
  }

  lemma {:induction false} RunLocksEnd(w: World, events: seq<Event>)
    requires LocksEnd(w.store)
    ensures LocksEnd(Run(w, events).store)
    decreases |events|
  {
    if events != [] {
      var e := events[0];
      hide CallStep;
      if e.Step? && e.id in w.calls {
        StepLocksEnd(w.store, w.calls[e.id], w.committed, e.choice);
      }
      hide LocksEnd;
      RunLocksEnd(Next(w, e), events[1..]);
    }
  }

  /** Whoever crashed or forgot to release: in every reachable state, once five seconds have passed in which
      nothing else happened, any caller gets the lock of any key. */
  lemma {:induction false} LocksRunOut(events: seq<Event>, key: Key)
    ensures var w := Next(Run(Initial(), events), Wait(5000));
            var (s, token) := AcquireLock(w.store, key);
            token.Some? && key in s.locks && s.locks[key].token == token.value && s.now < s.locks[key].expiresAt
  {
    RunLocksEnd(Initial(), events);
    hide Run;
  }
}
