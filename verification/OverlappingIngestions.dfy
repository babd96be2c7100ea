/** Two ingestions of one code and version under way at once: nothing keeps them apart, and the
    stores agree afterwards exactly if both come to the same end. */
module OverlappingIngestions {
  import opened Wrappers
  import opened ChunkIds
  import opened VectorStore
  import Seqs = Sequences

  // ---------- one schedule ----------

  /** Both ends an ingestion of which all vectors are inserted can come to. */
  function Ending(id: nat, commits: bool): seq<Event> {
    if commits then [Commit(id), Return(id)] else [CommitFails(id, true)]
  }

  lemma {:induction false} AfterEnding(s: Shared, id: nat, commits: bool, rest: seq<Event>)
    requires Complete(s, id)
    ensures var ids := Ids(s.active[id]);
            var s' := Run(s, Ending(id, commits));
            && Run(s, Ending(id, commits) + rest) == Run(s', rest)
            && s'.active == s.active - {id}
            && s'.vectors == (if commits then s.vectors else Without(s.vectors, ids))
            && s'.rows == (if commits then s.rows + multiset(ids) else s.rows)
  {
    hide UploadIds;
    if commits {
      var s1 := Next(s, Commit(id));
      var s2 := Next(s1, Return(id));
      assert (Ending(id, true) + rest)[1..] == [Return(id)] + rest;
      assert ([Return(id)] + rest)[1..] == rest;
      assert Run(s2, []) == s2 && Run(s1, [Return(id)]) == s2;
      assert s2.active == s.active - {id};
    } else {
      assert (Ending(id, false) + rest)[1..] == rest;
      assert Run(Next(s, CommitFails(id, true)), []) == Next(s, CommitFails(id, true));
    }
  }

  /** Two ingestions that have both inserted an identifier: afterwards the stores agree on it
      exactly if both commit or both fail. */
  lemma {:induction false} SharedIdentifierAgreesIff(s: Shared, u: nat, v: nat, uCommits: bool, vCommits: bool, x: string)
    requires u != v && Complete(s, u) && Complete(s, v)
    requires x in Ids(s.active[u]) && x in Ids(s.active[v]) && s.vectors[x] == 2 && s.rows[x] == 0
    ensures var s' := Run(s, Ending(u, uCommits) + Ending(v, vCommits));
            && s'.active == s.active - {u, v}
            && (s'.vectors[x] == s'.rows[x] <==> uCommits == vCommits)
  {
    var i, j := s.active[u], s.active[v];
    UploadIdsAreDistinct(i.kbCode, i.version, i.count);
    UploadIdsAreDistinct(j.kbCode, j.version, j.count);
    hide UploadIds;
    DistinctCounts(Ids(i), x);
    DistinctCounts(Ids(j), x);
    var s1 := Run(s, Ending(u, uCommits));
    AfterEnding(s, u, uCommits, Ending(v, vCommits));
    AfterEnding(s1, v, vCommits, []);
    Seqs.Units(Ending(v, vCommits));
    WithoutAt(s.vectors, Ids(i), x);
    WithoutAt(s1.vectors, Ids(j), x);
    assert s.active - {u} - {v} == s.active - {u, v};
  }

  /** Both ingestions begin, check and insert, one after the other. */
  function Overlap(kbCode: string, version: nat, count: nat): seq<Event> {
    [Start(0, kbCode, version, count), Start(1, kbCode, version, count), Check(0), Check(1), InsertBatch(0), InsertBatch(1)]
  }

  /** Both ingestions at one stage, with the vectors in the collection. */
  function Both(first: Ingestion, second: Ingestion, vectors: multiset<string>): Shared {
    Shared(vectors, multiset{}, map[0 := first, 1 := second], {})
  }

  lemma {:induction false} BothInsert(i: Ingestion)
    requires i.stage == Inserting(0) && 0 < i.count <= BATCH_SIZE
    ensures var ids, done := Ids(i), i.(stage := Inserting(i.count));
            && Ids(done) == ids
            && Next(Both(i, i, multiset{}), InsertBatch(0)) == Both(done, i, multiset(ids))
            && Next(Both(done, i, multiset(ids)), InsertBatch(1)) == Both(done, done, multiset(ids) + multiset(ids))
  {
    var ids := Ids(i);
    var s1 := Both(i, i, multiset{});
    var s2 := Both(i.(stage := Inserting(i.count)), i, multiset(ids));
    BatchIsWhole(s1, i, 0);
    BatchIsWhole(s2, i, 1);
    hide Next;
    hide Ids;
    assert multiset{} + multiset(ids) == multiset(ids);
  }

  lemma {:induction false} BatchIsWhole(s: Shared, i: Ingestion, id: nat)
    requires i.stage == Inserting(0) && 0 < i.count <= BATCH_SIZE && id in s.active && s.active[id] == i
    ensures Ids(i.(stage := Inserting(i.count))) == Ids(i)
    ensures Next(s, InsertBatch(id))
         == s.(vectors := s.vectors + multiset(Ids(i)), active := s.active[id := i.(stage := Inserting(i.count))])
  {
    assert Ids(i)[0..i.count] == Ids(i);
    assert BatchEnd(i) == i.count;
  }

  /** The identifier check does not keep them apart: both pass it, and both insert. */
  lemma {:induction false} BothCanPassTheCheck(kbCode: string, version: nat, count: nat, rest: seq<Event>)
    returns (s: Shared)
    requires 0 < count <= BATCH_SIZE
    ensures Run(Nothing(), Overlap(kbCode, version, count) + rest) == Run(s, rest)
    ensures Complete(s, 0) && Complete(s, 1) && s.active.Keys == {0, 1} && s.rows == multiset{}
    ensures Ids(s.active[0]) == Ids(s.active[1]) == UploadIds(kbCode, version, count)
    ensures s.vectors == multiset(UploadIds(kbCode, version, count)) + multiset(UploadIds(kbCode, version, count))
  {
    hide UploadIds;
    var i := Ingestion(kbCode, version, count, Checking);
    var i0, done, ids := i.(stage := Inserting(0)), i.(stage := Inserting(count)), Ids(i);
    s := Both(done, done, multiset(ids) + multiset(ids));
    BothInsert(i0);
    var states := [Shared(multiset{}, multiset{}, map[0 := i], {}), Both(i, i, multiset{}), Both(i0, i, multiset{}),
                   Both(i0, i0, multiset{}), Both(done, i0, multiset(ids)), s];
    var events := Overlap(kbCode, version, count) + rest;
    assert states[0] == Next(Nothing(), events[0]);
    assert states[1] == Next(states[0], events[1]);
    assert states[2] == Next(states[1], events[2]);
    assert states[3] == Next(states[2], events[3]);
    RunSteps(Nothing(), events, states);
    assert events[6..] == rest;
  }

  /** A run, given its first states. */
  lemma {:induction false} RunSteps(s: Shared, events: seq<Event>, states: seq<Shared>)
    requires 0 < |states| <= |events|
    requires states[0] == Next(s, events[0])
    requires forall k | 0 < k < |states| :: states[k] == Next(states[k - 1], events[k])
    ensures Run(s, events) == Run(states[|states| - 1], events[|states|..])
    decreases |states|
  {
    hide Next;
    if |states| > 1 {
      var more, later := states[1..], events[1..];
      assert forall k | 0 <= k < |more| :: more[k] == states[k + 1];
      assert forall k | 0 <= k < |later| :: later[k] == events[k + 1];
      assert later[|more|..] == events[|states|..];
      forall k | 0 < k < |more| ensures more[k] == Next(more[k - 1], later[k]) {
        assert states[k + 1] == Next(states[k], events[k + 1]);
      }
      RunSteps(states[0], later, more);
    }
  }

  /** So a run in which two ingestions of one code and version overlap can end with stores that
      differ: exactly if one of the two commits and the other fails. */
  lemma {:induction false} OverlapAgreesIff(kbCode: string, version: nat, count: nat, firstCommits: bool,
      secondCommits: bool)
    requires 0 < count <= BATCH_SIZE
    ensures var s := Run(Nothing(), Overlap(kbCode, version, count) + (Ending(0, firstCommits) + Ending(1, secondCommits)));
            && s.active == map[]
            && (s.vectors == s.rows <==> firstCommits == secondCommits)
  {
    hide Ending;
    var rest := Ending(0, firstCommits) + Ending(1, secondCommits);
    var s := BothCanPassTheCheck(kbCode, version, count, rest);
    OverlapEnds(s, kbCode, version, count, firstCommits, secondCommits);
  }

  lemma {:induction false} OverlapEnds(s: Shared, kbCode: string, version: nat, count: nat, firstCommits: bool,
      secondCommits: bool)
    requires count > 0 && Complete(s, 0) && Complete(s, 1) && s.active.Keys == {0, 1} && s.rows == multiset{}
    requires Ids(s.active[0]) == Ids(s.active[1]) == UploadIds(kbCode, version, count)
    requires s.vectors == multiset(UploadIds(kbCode, version, count)) + multiset(UploadIds(kbCode, version, count))
    ensures var s' := Run(s, Ending(0, firstCommits) + Ending(1, secondCommits));
            s'.active == map[] && (s'.vectors == s'.rows <==> firstCommits == secondCommits)
  {
    var ids := UploadIds(kbCode, version, count);
    assert |ids| == count;
    UploadIdsAreDistinct(kbCode, version, count);
    hide UploadIds;
    hide Run;
    var s' := Run(s, Ending(0, firstCommits) + Ending(1, secondCommits));
    forall x ensures x in ids ==> s.vectors[x] == 2 { DistinctCounts(ids, x); }
    forall x ensures s'.vectors[x] == s'.rows[x] <==> x !in ids || firstCommits == secondCommits {
      if x in ids {
        SharedIdentifierAgreesIff(s, 0, 1, firstCommits, secondCommits, x);
      } else {
        OthersUnharmed(s, firstCommits, secondCommits, x);
      }
    }
    SharedIdentifierAgreesIff(s, 0, 1, firstCommits, secondCommits, ids[0]);
    if firstCommits == secondCommits {
      assert forall x :: s'.vectors[x] == s'.rows[x];
    }
  }

  lemma {:induction false} OthersUnharmed(s: Shared, firstCommits: bool, secondCommits: bool, x: string)
    requires Complete(s, 0) && Complete(s, 1) && s.vectors[x] == s.rows[x]
    requires x !in Ids(s.active[0]) && x !in Ids(s.active[1])
    ensures var s' := Run(s, Ending(0, firstCommits) + Ending(1, secondCommits)); s'.vectors[x] == s'.rows[x]
  {
    hide UploadIds;
    hide Ending;
    var s1 := Run(s, Ending(0, firstCommits));
    AfterEnding(s, 0, firstCommits, Ending(1, secondCommits));
    AfterEnding(s1, 1, secondCommits, []);
    Seqs.Units(Ending(1, secondCommits));
    WithoutAt(s.vectors, Ids(s.active[0]), x);
    WithoutAt(s1.vectors, Ids(s.active[1]), x);
  }

  // ---------- every schedule ----------

  predicate OfPair(i: Ingestion, kbCode: string, version: nat) {
    i.kbCode == kbCode && i.version == version
  }

  predicate Starts(events: seq<Event>, kbCode: string, version: nat) {
    exists k :: 0 <= k < |events| && events[k].Start? && events[k].kbCode == kbCode && events[k].version == version
  }

  /** How an ingestion with all its vectors inserted ends: committed or failed. */
  function Fate(s: Shared, events: seq<Event>, id: nat): Option<bool>
    decreases |events|
  {
    if events == [] then None
    else if EndOf(s, events[0], id).Some? then EndOf(s, events[0], id)
    else Fate(Next(s, events[0]), events[1..], id)
  }

  function EndOf(s: Shared, e: Event, id: nat): Option<bool> {
    if !Complete(s, id) || e.id != id then None
    else if e.Commit? then Some(true)
    else if e.CommitFails? || e.FlushFails? then Some(false)
    else None
  }

  /** Where an ingestion stands that has come to this end, or to none yet. */
  ghost predicate Stands(s: Shared, id: nat, kbCode: string, version: nat, x: string, end: Option<bool>) {
    && (end.None? ==> Complete(s, id) && OfPair(s.active[id], kbCode, version) && x in Ids(s.active[id]))
    && (end == Some(true) && id in s.active && OfPair(s.active[id], kbCode, version) ==>
          s.active[id].stage.Committed? && x in Ids(s.active[id]))
    && (end == Some(false) && id in s.active ==> !OfPair(s.active[id], kbCode, version))
  }

  function Commits(end: Option<bool>): nat {
    if end == Some(true) then 1 else 0
  }

  /** One shared identifier, by the ends that the two ingestions have come to. */
  ghost predicate Shares(s: Shared, u: nat, v: nat, kbCode: string, version: nat, x: string, uEnd: Option<bool>,
      vEnd: Option<bool>) {
    && u != v
    && Stands(s, u, kbCode, version, x, uEnd) && Stands(s, v, kbCode, version, x, vEnd)
    && (forall w | w in s.active && w != u && w != v :: !OfPair(s.active[w], kbCode, version))
    && s.vectors[x] == (if uEnd == Some(false) || vEnd == Some(false) then 0 else 2)
    && s.rows[x] == Commits(uEnd) + Commits(vEnd)
    && exists n: nat :: x in UploadIds(kbCode, version, n)
  }

  lemma EitherEnd(end: Option<bool>)
    ensures end == None || end == Some(true) || end == Some(false)
  {
    if end.Some? {
      assert end.value || !end.value;
    }
  }

  function Later(end: Option<bool>, next: Option<bool>): Option<bool> {
    if end.Some? then end else next
  }

  lemma {:induction false} NotOfOthers(i: Ingestion, kbCode: string, version: nat, n: nat, x: string)
    requires x in UploadIds(kbCode, version, n) && !OfPair(i, kbCode, version)
    ensures x !in Ids(i)
  {
    UploadsDoNotShareIds(i.kbCode, i.version, i.count, kbCode, version, n, x);
  }

  /** An event of another ingestion, or of one that has only to return. */
  lemma {:induction false} OtherEventKeeps(s: Shared, e: Event, kbCode: string, version: nat, w: nat)
    requires !Starts([e], kbCode, version)
    requires !e.Start? ==> e.id !in s.active || !OfPair(s.active[e.id], kbCode, version)
    ensures var s' := Next(s, e);
            && (w in s.active && OfPair(s.active[w], kbCode, version) ==> w in s'.active && s'.active[w] == s.active[w])
            && (w in s'.active && OfPair(s'.active[w], kbCode, version) ==> w in s.active && s'.active[w] == s.active[w])
  {
    hide UploadIds;
    assert [e][0] == e;
  }

  lemma {:induction false} OtherEventShares(s: Shared, e: Event, u: nat, v: nat, kbCode: string, version: nat, x: string,
      uEnd: Option<bool>, vEnd: Option<bool>)
    requires Shares(s, u, v, kbCode, version, x, uEnd, vEnd)
    requires !Starts([e], kbCode, version)
    requires !e.Start? ==> e.id !in s.active || !OfPair(s.active[e.id], kbCode, version)
    ensures Shares(Next(s, e), u, v, kbCode, version, x, uEnd, vEnd)
  {
    var n: nat :| x in UploadIds(kbCode, version, n);
    OtherEventCounts(s, e, kbCode, version, n, x);
    var s' := Next(s, e);
    forall w ensures w in s.active && OfPair(s.active[w], kbCode, version) ==> w in s'.active && s'.active[w] == s.active[w]
             ensures w in s'.active && OfPair(s'.active[w], kbCode, version) ==> w in s.active && s'.active[w] == s.active[w] {
      OtherEventKeeps(s, e, kbCode, version, w);
    }
    hide UploadIds;
    hide Next;
    hide Starts;
  }

  lemma {:induction false} OtherEventCounts(s: Shared, e: Event, kbCode: string, version: nat, n: nat, x: string)
    requires x in UploadIds(kbCode, version, n)
    requires !e.Start? ==> e.id !in s.active || !OfPair(s.active[e.id], kbCode, version)
    ensures Next(s, e).vectors[x] == s.vectors[x] && Next(s, e).rows[x] == s.rows[x]
  {
    hide UploadIds;
    if !e.Start? && e.id in s.active {
      NotOfOthers(s.active[e.id], kbCode, version, n, x);
      OthersUntouched(s, e, x);
    }
  }

  /** What an event of a complete ingestion does to its identifier. */
  lemma {:induction false} EndCounts(s: Shared, e: Event, u: nat, x: string)
    requires !e.Start? && e.id == u && Complete(s, u) && x in Ids(s.active[u]) && !Harmful(s, e)
    ensures var s', end := Next(s, e), EndOf(s, e, u);
            && s'.active - {u} == s.active - {u}
            && s'.rows[x] == s.rows[x] + Commits(end)
            && s'.vectors[x] == (if end == Some(false) then 0 else s.vectors[x])
            && (end.None? ==> s' == s)
            && (end == Some(true) ==> u in s'.active && s'.active[u] == s.active[u].(stage := Committed))
            && (end == Some(false) ==> u !in s'.active)
  {
    var i := s.active[u];
    UploadIdsAreDistinct(i.kbCode, i.version, i.count);
    hide UploadIds;
    DistinctCounts(Ids(i), x);
    WithoutAt(s.vectors, Ids(i), x);
    assert !IsInserting(s, u) && !IsChecking(s, u) && !IsCommitted(s, u);
  }

  /** An event of a committed ingestion lets it return, at most. */
  lemma {:induction false} ReturnCounts(s: Shared, e: Event, u: nat)
    requires !e.Start? && e.id == u && IsCommitted(s, u) && !Harmful(s, e)
    ensures Next(s, e) == s || Next(s, e) == Ended(s, u)
    ensures EndOf(s, e, u) == None
  {
    hide UploadIds;
    assert !IsInserting(s, u) && !IsChecking(s, u) && !Complete(s, u);
  }

  lemma OthersAsBefore(s: Shared, s': Shared, u: nat, w: nat)
    requires s'.active - {u} == s.active - {u} && w != u
    ensures (w in s'.active <==> w in s.active) && (w in s.active ==> s'.active[w] == s.active[w])
  {
    assert w in s'.active <==> w in s'.active - {u};
    assert w in s.active <==> w in s.active - {u};
    assert w in s.active ==> (s.active - {u})[w] == s.active[w];
    assert w in s'.active ==> (s'.active - {u})[w] == s'.active[w];
  }

  /** An event of the first of the two. */
  lemma {:induction false} OwnEventShares(s: Shared, e: Event, u: nat, v: nat, kbCode: string, version: nat, x: string,
      uEnd: Option<bool>, vEnd: Option<bool>)
    requires Shares(s, u, v, kbCode, version, x, uEnd, vEnd) && !Harmful(s, e)
    requires !e.Start? && e.id == u && u in s.active && OfPair(s.active[u], kbCode, version)
    ensures Shares(Next(s, e), u, v, kbCode, version, x, Later(uEnd, EndOf(s, e, u)), vEnd)
  {
    hide UploadIds;
    hide Next;
    hide EndOf;
    hide Harmful;
    EitherEnd(uEnd);
    EitherEnd(EndOf(s, e, u));
    var s' := Next(s, e);
    if uEnd.None? {
      EndCounts(s, e, u, x);
      if u in s'.active {
        assert Ids(s'.active[u]) == Ids(s.active[u]);
      }
    } else if uEnd == Some(true) {
      ReturnCounts(s, e, u);
    }
    forall w | w != u ensures (w in s'.active <==> w in s.active) && (w in s.active ==> s'.active[w] == s.active[w]) {
      OthersAsBefore(s, s', u, w);
    }
  }

  lemma {:induction false} SharesSwapped(s: Shared, u: nat, v: nat, kbCode: string, version: nat, x: string,
      uEnd: Option<bool>, vEnd: Option<bool>)
    requires Shares(s, u, v, kbCode, version, x, uEnd, vEnd)
    ensures Shares(s, v, u, kbCode, version, x, vEnd, uEnd)
  {
  }

  lemma {:induction false} NextShares(s: Shared, e: Event, u: nat, v: nat, kbCode: string, version: nat, x: string,
      uEnd: Option<bool>, vEnd: Option<bool>)
    requires Shares(s, u, v, kbCode, version, x, uEnd, vEnd) && !Harmful(s, e)
    requires !Starts([e], kbCode, version)
    ensures Shares(Next(s, e), u, v, kbCode, version, x, Later(uEnd, EndOf(s, e, u)), Later(vEnd, EndOf(s, e, v)))
  {
    hide UploadIds;
    if e.Start? || e.id !in s.active || !OfPair(s.active[e.id], kbCode, version) {
      OtherEventShares(s, e, u, v, kbCode, version, x, uEnd, vEnd);
      NoEnd(s, e, u, v, kbCode, version, x, uEnd, vEnd);
    } else if e.id == u {
      OwnEventShares(s, e, u, v, kbCode, version, x, uEnd, vEnd);
    } else {
      SharesSwapped(s, u, v, kbCode, version, x, uEnd, vEnd);
      OwnEventShares(s, e, v, u, kbCode, version, x, vEnd, uEnd);
      SharesSwapped(Next(s, e), v, u, kbCode, version, x, Later(vEnd, EndOf(s, e, v)), uEnd);
    }
  }

  lemma {:induction false} NoEnd(s: Shared, e: Event, u: nat, v: nat, kbCode: string, version: nat, x: string,
      uEnd: Option<bool>, vEnd: Option<bool>)
    requires Shares(s, u, v, kbCode, version, x, uEnd, vEnd)
    requires e.Start? || e.id !in s.active || !OfPair(s.active[e.id], kbCode, version)
    ensures Later(uEnd, EndOf(s, e, u)) == uEnd && Later(vEnd, EndOf(s, e, v)) == vEnd
  {
  }

  lemma {:induction false} StartsSplit(events: seq<Event>, kbCode: string, version: nat)
    requires events != [] && !Starts(events, kbCode, version)
    ensures !Starts([events[0]], kbCode, version) && !Starts(events[1..], kbCode, version)
  {
    assert forall k | 0 <= k < |events[1..]| :: events[1..][k] == events[k + 1];
  }

  lemma {:induction false} RunShares(s: Shared, events: seq<Event>, u: nat, v: nat, kbCode: string, version: nat, x: string,
      uEnd: Option<bool>, vEnd: Option<bool>)
    requires Shares(s, u, v, kbCode, version, x, uEnd, vEnd)
    requires !Starts(events, kbCode, version) && !AnyHarm(s, events)
    ensures Shares(Run(s, events), u, v, kbCode, version, x, Later(uEnd, Fate(s, events, u)), Later(vEnd, Fate(s, events, v)))
    decreases |events|
  {
    hide Shares;
    hide Starts;
    hide EndOf;
    hide Next;
    if events != [] {
      StartsSplit(events, kbCode, version);
      NextShares(s, events[0], u, v, kbCode, version, x, uEnd, vEnd);
      RunShares(Next(s, events[0]), events[1..], u, v, kbCode, version, x, Later(uEnd, EndOf(s, events[0], u)),
                Later(vEnd, EndOf(s, events[0], v)));
    }
  }

  /** Two ingestions of one code and version that have both inserted an identifier: whatever
      happens next, without harm, in whatever order and however many other ingestions there are,
      once both are over the stores agree on the identifier exactly if both committed or both
      failed. */
  lemma {:induction false} SharedIdentifierEndsIff(s: Shared, events: seq<Event>, u: nat, v: nat, kbCode: string,
      version: nat, x: string)
    requires Shares(s, u, v, kbCode, version, x, None, None)
    requires !Starts(events, kbCode, version) && !AnyHarm(s, events)
    requires forall w | w in Run(s, events).active :: !OfPair(Run(s, events).active[w], kbCode, version)
    ensures Fate(s, events, u).Some? && Fate(s, events, v).Some?
    ensures Run(s, events).vectors[x] == Run(s, events).rows[x] <==> Fate(s, events, u) == Fate(s, events, v)
  {
    RunShares(s, events, u, v, kbCode, version, x, None, None);
    EitherEnd(Fate(s, events, u));
    EitherEnd(Fate(s, events, v));
  }

  // ---------- how they come to share ----------

  predicate Has(s: Shared, id: nat, x: string)
    requires id in s.active
  {
    var i := s.active[id];
    i.stage.Inserting? && i.stage.done <= i.count && x in Ids(i)[..i.stage.done]
  }

  ghost predicate Writes(s: Shared, id: nat, kbCode: string, version: nat, x: string) {
    && id in s.active && OfPair(s.active[id], kbCode, version) && x in Ids(s.active[id])
    && !s.active[id].stage.Committed? && (s.active[id].stage.Inserting? ==> s.active[id].stage.done <= s.active[id].count)
  }

  /** Both are under way and none of them is over. */
  ghost predicate BothWrite(s: Shared, u: nat, v: nat, kbCode: string, version: nat, x: string) {
    && u != v && Writes(s, u, kbCode, version, x) && Writes(s, v, kbCode, version, x)
    && (forall w | w in s.active && w != u && w != v :: !OfPair(s.active[w], kbCode, version))
    && s.rows[x] == 0
    && s.vectors[x] == (if Has(s, u, x) then 1 else 0) + (if Has(s, v, x) then 1 else 0)
  }

  /** One of them is over. */
  ghost predicate OneOver(s: Shared, u: nat, v: nat, kbCode: string, version: nat) {
    exists id | id in {u, v} :: id !in s.active || !OfPair(s.active[id], kbCode, version) || s.active[id].stage.Committed?
  }

  lemma {:induction false} InsertHas(s: Shared, id: nat, kbCode: string, version: nat, x: string)
    requires Writes(s, id, kbCode, version, x) && IsInserting(s, id)
    ensures var s' := Next(s, InsertBatch(id));
            && Writes(s', id, kbCode, version, x)
            && s'.vectors[x] == s.vectors[x] + (if Has(s', id, x) then 1 else 0) - (if Has(s, id, x) then 1 else 0)
            && s'.rows == s.rows && s'.active == s.active[id := s'.active[id]]
  {
    var i, s' := s.active[id], Next(s, InsertBatch(id));
    UploadIdsAreDistinct(i.kbCode, i.version, i.count);
    assert Ids(s'.active[id]) == Ids(i) && |Ids(i)| == i.count;
    hide UploadIds;
    SliceCounts(Ids(i), i.stage.done, BatchEnd(i), x);
  }

  lemma {:induction false} OwnWrite(s: Shared, e: Event, u: nat, v: nat, kbCode: string, version: nat, x: string)
    requires BothWrite(s, u, v, kbCode, version, x) && !e.Start? && e.id == u
    ensures BothWrite(Next(s, e), u, v, kbCode, version, x) || OneOver(Next(s, e), u, v, kbCode, version)
  {
    hide UploadIds;
    var s' := Next(s, e);
    if e.InsertBatch? && IsInserting(s, u) {
      InsertHas(s, u, kbCode, version, x);
      assert s'.active[v] == s.active[v];
    } else if e.Check? && IsChecking(s, u) && u in s'.active {
      assert Ids(s.active[u])[..0] == [];
      assert Ids(s'.active[u]) == Ids(s.active[u]) && s'.active[v] == s.active[v];
    } else if s' != s {
      assert u !in s'.active || s'.active[u].stage.Committed?;
    }
  }

  lemma {:induction false} BothSwapped(s: Shared, u: nat, v: nat, kbCode: string, version: nat, x: string)
    ensures BothWrite(s, u, v, kbCode, version, x) ==> BothWrite(s, v, u, kbCode, version, x)
    ensures OneOver(s, u, v, kbCode, version) ==> OneOver(s, v, u, kbCode, version)
  {
    assert {u, v} == {v, u};
  }

  lemma {:induction false} OtherWrite(s: Shared, e: Event, u: nat, v: nat, kbCode: string, version: nat, x: string)
    requires BothWrite(s, u, v, kbCode, version, x) && !Starts([e], kbCode, version) && e.id != u && e.id != v
    ensures BothWrite(Next(s, e), u, v, kbCode, version, x)
  {
    OtherEventCounts(s, e, kbCode, version, s.active[u].count, x);
    var s' := Next(s, e);
    forall w ensures w in s.active && OfPair(s.active[w], kbCode, version) ==> w in s'.active && s'.active[w] == s.active[w]
             ensures w in s'.active && OfPair(s'.active[w], kbCode, version) ==> w in s.active && s'.active[w] == s.active[w] {
      OtherEventKeeps(s, e, kbCode, version, w);
    }
    hide UploadIds;
    hide Next;
    hide Starts;
  }

  lemma {:induction false} OverStays(s: Shared, e: Event, u: nat, v: nat, kbCode: string, version: nat)
    requires OneOver(s, u, v, kbCode, version) && !Starts([e], kbCode, version)
    ensures OneOver(Next(s, e), u, v, kbCode, version)
  {
    hide UploadIds;
    assert [e][0] == e;
    var id :| id in {u, v} && (id !in s.active || !OfPair(s.active[id], kbCode, version) || s.active[id].stage.Committed?);
    var s' := Next(s, e);
    assert id !in s'.active || !OfPair(s'.active[id], kbCode, version) || s'.active[id].stage.Committed?;
  }

  lemma {:induction false} RunWrites(s: Shared, events: seq<Event>, u: nat, v: nat, kbCode: string, version: nat, x: string)
    requires BothWrite(s, u, v, kbCode, version, x) || OneOver(s, u, v, kbCode, version)
    requires !Starts(events, kbCode, version)
    ensures BothWrite(Run(s, events), u, v, kbCode, version, x) || OneOver(Run(s, events), u, v, kbCode, version)
    decreases |events|
  {
    hide BothWrite;
    hide OneOver;
    hide Starts;
    hide Next;
    if events != [] {
      var e := events[0];
      StartsSplit(events, kbCode, version);
      if OneOver(s, u, v, kbCode, version) {
        OverStays(s, e, u, v, kbCode, version);
      } else {
        WriteOn(s, e, u, v, kbCode, version, x);
      }
      RunWrites(Next(s, e), events[1..], u, v, kbCode, version, x);
    }
  }

  lemma {:induction false} WriteOn(s: Shared, e: Event, u: nat, v: nat, kbCode: string, version: nat, x: string)
    requires BothWrite(s, u, v, kbCode, version, x) && !Starts([e], kbCode, version)
    ensures BothWrite(Next(s, e), u, v, kbCode, version, x) || OneOver(Next(s, e), u, v, kbCode, version)
  {
    if e.id != u && e.id != v {
      OtherWrite(s, e, u, v, kbCode, version, x);
    } else if e.Start? {
      assert Next(s, e) == s;
    } else if e.id == u {
      OwnWrite(s, e, u, v, kbCode, version, x);
    } else {
      BothSwapped(s, u, v, kbCode, version, x);
      OwnWrite(s, e, v, u, kbCode, version, x);
      BothSwapped(Next(s, e), v, u, kbCode, version, x);
    }
  }

  /** The whole: two ingestions of one code and version are under way before any of their
      identifiers is stored.  In every run in which both insert all their vectors before either
      is over, the stores agree on each shared identifier once both are over, if nothing
      harmful happens, exactly if both committed or both failed. */
  lemma {:induction false} OverlapsAgreeIff(s: Shared, before: seq<Event>, after: seq<Event>, u: nat, v: nat,
      kbCode: string, version: nat, x: string)
    requires BothWrite(s, u, v, kbCode, version, x) && IsChecking(s, u) && IsChecking(s, v)
    requires !Starts(before, kbCode, version) && !Starts(after, kbCode, version)
    requires var both := Run(s, before);
             && Complete(both, u) && OfPair(both.active[u], kbCode, version)
             && Complete(both, v) && OfPair(both.active[v], kbCode, version)
             && !AnyHarm(both, after)
    requires var end := Run(Run(s, before), after); forall w | w in end.active :: !OfPair(end.active[w], kbCode, version)
    ensures var both := Run(s, before);
            var end := Run(both, after);
            end.vectors[x] == end.rows[x] <==> Fate(both, after, u) == Fate(both, after, v)
  {
    var both := Run(s, before);
    RunWrites(s, before, u, v, kbCode, version, x);
    assert !OneOver(both, u, v, kbCode, version);
    BothShare(both, u, v, kbCode, version, x);
    SharedIdentifierEndsIff(both, after, u, v, kbCode, version, x);
  }

  lemma {:induction false} BothShare(s: Shared, u: nat, v: nat, kbCode: string, version: nat, x: string)
    requires BothWrite(s, u, v, kbCode, version, x) && Complete(s, u) && Complete(s, v)
    ensures Shares(s, u, v, kbCode, version, x, None, None)
  {
    var i, j := s.active[u], s.active[v];
    assert Ids(i)[..i.count] == Ids(i) && Ids(j)[..j.count] == Ids(j);
    assert x in UploadIds(kbCode, version, i.count);
  }
}
