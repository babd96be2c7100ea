/** Writing an ingestion's vectors to the vector collection and its embedding rows to the
    database so that the two agree: batches with compensation, one ingestion at a time and
    many interleaved.  The collection is a multiset of identifiers, since inserting does not
    look for duplicates. */
module VectorStore {
  import opened Wrappers
  import Seqs = Sequences
  import opened ChunkIds

  const BATCH_SIZE: nat := 200
  const MAX_ID_LENGTH: nat := 256

  /** An embedding record: its identifier and, if it has a vector, the vector's length. */
  datatype Record = Record(id: string, length: Option<nat>)

  function IdsOf(records: seq<Record>): seq<string> {
    seq(|records|, i requires 0 <= i < |records| => records[i].id)
  }

  predicate WellFormed(r: Record, dimension: nat) {
    r.id != "" && |r.id| <= MAX_ID_LENGTH && r.length == Some(dimension)
  }

  predicate AllWellFormed(records: seq<Record>, dimension: nat) {
    forall i | 0 <= i < |records| :: WellFormed(records[i], dimension)
  }

  predicate NoneIn(ids: seq<string>, contents: multiset<string>) {
    forall i | 0 <= i < |ids| :: contents[ids[i]] == 0
  }

  /** Deleting by identifier removes every copy. */
  function Without(contents: multiset<string>, ids: seq<string>): multiset<string> {
    if ids == [] then contents else Without(contents[ids[0] := 0], ids[1..])
  }

  lemma {:induction false} WithoutAt(contents: multiset<string>, ids: seq<string>, x: string)
    ensures Without(contents, ids)[x] == if x in ids then 0 else contents[x]
  {
    if ids != [] {
      WithoutAt(contents[ids[0] := 0], ids[1..], x);
    }
  }

  lemma {:induction false} WithoutUndoes(contents: multiset<string>, ids: seq<string>)
    requires NoneIn(ids, contents)
    ensures Without(contents + multiset(ids), ids) == contents
  {
    forall x ensures Without(contents + multiset(ids), ids)[x] == contents[x] {
      WithoutAt(contents + multiset(ids), ids, x);
    }
  }

  // ---------- one ingestion ----------

  /** What the store may refuse: a batch, the delete that undoes earlier batches, the final
      flush or load. */
  datatype Faults = Faults(batch: Option<nat>, undo: bool, flush: bool)

  datatype InsertError = InvalidRecord | AlreadyExists | BatchFailed | FlushFailed

  datatype Outcome = Ingested | Refused(error: InsertError) | CommitFailed | FailedAfterCommit

  lemma {:induction false} SomethingAdded(contents: multiset<string>, ids: seq<string>)
    ensures contents + multiset(ids) == contents <==> ids == []
  {
    assert |contents + multiset(ids)| == |contents| + |ids|;
  }

  lemma {:induction false} OneBatchMore(contents: multiset<string>, ids: seq<string>, lo: nat, hi: nat)
    requires lo <= hi <= |ids|
    ensures contents + multiset(ids[..hi]) == contents + multiset(ids[..lo]) + multiset(ids[lo..hi])
  {
    assert ids[..hi] == ids[..lo] + ids[lo..hi];
  }

  lemma {:induction false} OneIdEach(records: seq<Record>)
    ensures |IdsOf(records)| == |records|
  {
  }

  lemma {:induction false} ValidIff(records: seq<Record>, dimension: nat)
    ensures AllWellFormed(records, dimension) <==>
            !exists i | 0 <= i < |records| ::
               records[i].id == "" || |records[i].id| > MAX_ID_LENGTH || records[i].length != Some(dimension)
  {
  }

  lemma {:induction false} NewIff(records: seq<Record>, contents: multiset<string>)
    ensures NoneIn(IdsOf(records), contents) <==> !exists i | 0 <= i < |records| :: contents[records[i].id] > 0
  {
    assert forall i | 0 <= i < |records| :: IdsOf(records)[i] == records[i].id;
  }

  class VectorCollection {
    var contents: multiset<string>

    constructor ()
      ensures contents == multiset{}
    {
      contents := multiset{};
    }

    method Delete(ids: seq<string>)
      modifies this
      ensures contents == Without(old(contents), ids)
    {
      for i := 0 to |ids|
        invariant Without(contents, ids[i..]) == Without(old(contents), ids)
      {
        assert ids[i..][0] == ids[i] && ids[i..][1..] == ids[i + 1..];
        contents := contents[ids[i] := 0];
      }
    }

    /** Validate every record, refuse identifiers already stored, then insert by batches;
        a failing batch undoes the earlier ones.  The count returned is always the number
        of records, so a caller's count check never fires. */
    method InsertRecords(records: seq<Record>, dimension: nat, faults: Faults)
      returns (result: Result<nat, InsertError>)
      modifies this
      ensures result.Ok? ==> result.value == |records| && contents == old(contents) + multiset(IdsOf(records))
      ensures result.Ok? <==>
              records == [] || (AllWellFormed(records, dimension) && NoneIn(IdsOf(records), old(contents)) && !faults.flush
                                && (faults.batch.None? || BATCH_SIZE * faults.batch.value >= |records|))
      ensures result == Err(InvalidRecord) <==>
              exists i | 0 <= i < |records| ::
                records[i].id == "" || |records[i].id| > MAX_ID_LENGTH || records[i].length != Some(dimension)
      ensures result == Err(AlreadyExists) <==>
              AllWellFormed(records, dimension) && exists i | 0 <= i < |records| :: old(contents)[records[i].id] > 0
      ensures result.Err? && (result.error.InvalidRecord? || result.error.AlreadyExists?) ==> contents == old(contents)
      ensures result == Err(BatchFailed) ==>
                faults.batch.Some?
                && (contents == old(contents) <==> !faults.undo || faults.batch.value == 0)
      ensures result == Err(FlushFailed) ==>
                faults.flush && records != [] && contents == old(contents) + multiset(IdsOf(records))
    {
      hide AllWellFormed;
      hide IdsOf;
      OneIdEach(records);
      if records == [] {
        return Ok(0);
      }
      ValidIff(records, dimension);
      NewIff(records, contents);
      if !AllWellFormed(records, dimension) {
        return Err(InvalidRecord);
      }
      var ids := IdsOf(records);
      if !NoneIn(ids, contents) {
        return Err(AlreadyExists);
      }
      var start, number := 0, 0;
      while start < |ids|
        invariant start == BATCH_SIZE * number || (start == |ids| && start <= BATCH_SIZE * number < start + BATCH_SIZE)
        invariant start <= |ids|
        invariant contents == old(contents) + multiset(ids[..start])
        invariant faults.batch.Some? ==> number <= faults.batch.value || start == 0
        invariant faults.batch.Some? ==> number <= faults.batch.value
      {
        if faults.batch == Some(number) {
          SomethingAdded(old(contents), ids[..start]);
          if start > 0 && !faults.undo {
            Delete(ids[..start]);
            WithoutUndoes(old(contents), ids[..start]);
          }
          return Err(BatchFailed);
        }
        var end := if start + BATCH_SIZE < |ids| then start + BATCH_SIZE else |ids|;
        OneBatchMore(old(contents), ids, start, end);
        contents := contents + multiset(ids[start..end]);
        start, number := end, number + 1;
      }
      Seqs.Whole(ids);
      if faults.flush {
        return Err(FlushFailed);
      }
      result := Ok(|records|);
    }
  }

  /** The two stores of one knowledge base. */
  class KnowledgeStore {
    const vectors: VectorCollection
    var rows: multiset<string>   // identifiers of the committed embedding rows

    constructor ()
      ensures fresh(vectors) && vectors.contents == multiset{} && rows == multiset{}
    {
      vectors := new VectorCollection();
      rows := multiset{};
    }

    /** The vector and row part of an ingestion.  The commit may fail, and so may what comes
        after it; `faults.undo` says whether deletes are refused.  From agreement, success
        adds exactly this ingestion's identifiers to both stores; an ordinary failure leaves
        both as they were; and the stores disagree afterwards exactly when the final flush
        was refused, a needed delete was refused, or an error after the commit was undone. */
    method Ingest(records: seq<Record>, dimension: nat, faults: Faults, commitFails: bool, lateFails: bool)
      returns (outcome: Outcome)
      requires vectors.contents == rows && records != []
      modifies this`rows, vectors
      ensures outcome.Ingested? || outcome.FailedAfterCommit? <==> rows == old(rows) + multiset(IdsOf(records))
      ensures outcome.Refused? || outcome.CommitFailed? <==> rows == old(rows)
      ensures outcome.Ingested? ==> vectors.contents == rows
      ensures vectors.contents != rows <==>
                || outcome == Refused(FlushFailed)
                || (outcome == Refused(BatchFailed) && faults.undo && faults.batch != Some(0))
                || (outcome == CommitFailed && faults.undo)
                || (outcome == FailedAfterCommit && !faults.undo)
    {
      var ids := IdsOf(records);
      assert |multiset(ids)| > 0;
      assert |old(rows) + multiset(ids)| > |old(rows)|;
      var result := vectors.InsertRecords(records, dimension, faults);
      if result.Err? {
        return Refused(result.error);
      }
      if commitFails {
        if !faults.undo {
          vectors.Delete(ids);
          WithoutUndoes(old(rows), ids);
        }
        return CommitFailed;
      }
      rows := rows + multiset(ids);
      if lateFails {
        if !faults.undo {
          vectors.Delete(ids);
          WithoutUndoes(old(rows), ids);
        }
        return FailedAfterCommit;
      }
      outcome := Ingested;
    }
  }

  // ---------- many ingestions at once ----------

  /** An ingestion under way: before its identifier check, with so many of its vectors
      inserted, or with its rows committed. */
  datatype Stage = Checking | Inserting(done: nat) | Committed

  datatype Ingestion = Ingestion(kbCode: string, version: nat, count: nat, stage: Stage)

  /** Both stores, what is under way, and the codes and versions whose rows are committed. */
  datatype Shared = Shared(vectors: multiset<string>, rows: multiset<string>, active: map<nat, Ingestion>,
                           filed: set<(string, nat)>)

  /** `undone`: the compensating delete was carried out and not refused. */
  datatype Event =
    | Start(id: nat, kbCode: string, version: nat, count: nat)
    | Check(id: nat)
    | InsertBatch(id: nat)
    | BatchFails(id: nat, undone: bool)
    | FlushFails(id: nat)
    | Commit(id: nat)
    | CommitFails(id: nat, undone: bool)
    | Return(id: nat)
    | FailsLate(id: nat, undone: bool)   // an error behind the commit

  function Ids(i: Ingestion): seq<string> {
    UploadIds(i.kbCode, i.version, i.count)
  }

  function Ended(s: Shared, id: nat): Shared {
    s.(active := s.active - {id})
  }

  function Undone(s: Shared, ids: seq<string>, undone: bool): Shared {
    if undone then s.(vectors := Without(s.vectors, ids)) else s
  }

  predicate IsChecking(s: Shared, id: nat) {
    id in s.active && s.active[id].stage.Checking?
  }

  predicate IsInserting(s: Shared, id: nat) {
    id in s.active && s.active[id].stage.Inserting? && s.active[id].stage.done < s.active[id].count
  }

  predicate Complete(s: Shared, id: nat) {
    id in s.active && s.active[id].stage == Inserting(s.active[id].count)
  }

  predicate IsCommitted(s: Shared, id: nat) {
    id in s.active && s.active[id].stage.Committed?
  }

  function BatchEnd(i: Ingestion): (end: nat)
    requires i.stage.Inserting? && i.stage.done <= i.count
    ensures i.stage.done <= end <= i.count
  {
    if i.stage.done + BATCH_SIZE < i.count then i.stage.done + BATCH_SIZE else i.count
  }

  function Next(s: Shared, e: Event): Shared {
    match e
    case Start(id, kbCode, version, count) =>
      if id in s.active || count == 0 then s
      else s.(active := s.active[id := Ingestion(kbCode, version, count, Checking)])
    case Check(id) =>
      if !IsChecking(s, id) then s
      else if NoneIn(Ids(s.active[id]), s.vectors)
      then s.(active := s.active[id := s.active[id].(stage := Inserting(0))])
      else Ended(s, id)
    case InsertBatch(id) =>
      if !IsInserting(s, id) then s
      else
        var i := s.active[id];
        var end := BatchEnd(i);
        s.(vectors := s.vectors + multiset(Ids(i)[i.stage.done..end]), active := s.active[id := i.(stage := Inserting(end))])
    case BatchFails(id, undone) =>
      if !IsInserting(s, id) then s
      else Ended(Undone(s, Ids(s.active[id])[..s.active[id].stage.done], undone), id)
    case FlushFails(id) =>
      if !Complete(s, id) then s else Ended(s, id)
    case Commit(id) =>
      if !Complete(s, id) then s
      else
        var i := s.active[id];
        s.(rows := s.rows + multiset(Ids(i)), active := s.active[id := i.(stage := Committed)],
           filed := s.filed + {(i.kbCode, i.version)})
    case CommitFails(id, undone) =>
      if !Complete(s, id) then s else Ended(Undone(s, Ids(s.active[id]), undone), id)
    case Return(id) =>
      if !IsCommitted(s, id) then s else Ended(s, id)
    case FailsLate(id, undone) =>
      if !IsCommitted(s, id) then s else Ended(Undone(s, Ids(s.active[id]), undone), id)
  }

  /** Vectors go in by two hundred at a time, in order, the rest in the last batch. */
  lemma {:induction false} InsertsByBatches(s: Shared, id: nat)
    requires IsInserting(s, id)
    ensures var i, s' := s.active[id], Next(s, InsertBatch(id));
            var end := if i.count - i.stage.done > 200 then i.stage.done + 200 else i.count;
            && id in s'.active && s'.active[id] == i.(stage := Inserting(end)) && s'.rows == s.rows
            && s'.vectors == s.vectors + multiset(Ids(i)[i.stage.done..end])
  {
    hide Ids;
  }

  function Run(s: Shared, events: seq<Event>): Shared
    decreases |events|
  {
    if events == [] then s else Run(Next(s, events[0]), events[1..])
  }

  /** What parts the stores: a needed undo that is refused, a refused flush, or an undo behind
      the commit. */
  predicate Harmful(s: Shared, e: Event) {
    match e
    case BatchFails(id, undone) => IsInserting(s, id) && !undone && s.active[id].stage.done > 0
    case FlushFails(id) => Complete(s, id)
    case CommitFails(id, undone) => Complete(s, id) && !undone
    case FailsLate(id, undone) => IsCommitted(s, id) && undone
    case _ => false
  }

  predicate AnyHarm(s: Shared, events: seq<Event>)
    decreases |events|
  {
    events != [] && (Harmful(s, events[0]) || AnyHarm(Next(s, events[0]), events[1..]))
  }

  /** Nothing of this code and version is under way or has committed rows. */
  predicate Unused(s: Shared, kbCode: string, version: nat) {
    && (forall u | u in s.active :: s.active[u].kbCode != kbCode || s.active[u].version != version)
    && (kbCode, version) !in s.filed
  }

  /** No ingestion starts while another of the same code and version is under way, or after it
      has committed its rows. */
  predicate Separate(s: Shared, events: seq<Event>)
    decreases |events|
  {
    events != [] ==>
      && (events[0].Start? ==> Unused(s, events[0].kbCode, events[0].version))
      && Separate(Next(s, events[0]), events[1..])
  }

  /** Identifiers of a checked ingestion: the inserted ones are vectors, none is a row; of a
      committed one: all are both. */
  ghost predicate Progress(s: Shared, i: Ingestion) {
    && i.count > 0
    && match i.stage
       case Checking => true
       case Inserting(done) =>
         done <= i.count
         && forall x | x in Ids(i) :: s.rows[x] == 0 && s.vectors[x] == if x in Ids(i)[..done] then 1 else 0
       case Committed =>
         (i.kbCode, i.version) in s.filed && forall x | x in Ids(i) :: s.rows[x] == s.vectors[x] == 1
  }

  ghost predicate Claimed(s: Shared, x: string) {
    exists u | u in s.active && s.active[u].stage.Inserting? :: x in Ids(s.active[u])
  }

  ghost predicate Apart(i: Ingestion, j: Ingestion) {
    i.kbCode != j.kbCode || i.version != j.version
  }

  ghost predicate Inv(s: Shared) {
    && (forall u, v | u in s.active && v in s.active && u != v :: Apart(s.active[u], s.active[v]))
    && (forall u | u in s.active :: Progress(s, s.active[u]))
    && (forall x | !Claimed(s, x) :: s.vectors[x] == s.rows[x])
  }

  lemma {:induction false} OneOwner(i: Ingestion, j: Ingestion, x: string)
    requires Apart(i, j) && x in Ids(i)
    ensures x !in Ids(j)
  {
    UploadsDoNotShareIds(i.kbCode, i.version, i.count, j.kbCode, j.version, j.count, x);
  }

  ghost predicate SettledOrInOrder(s: Shared, i: Ingestion) {
    Progress(s, i) && (!i.stage.Inserting? ==> forall x | x in Ids(i) :: s.vectors[x] == s.rows[x])
  }

  /** An event that changes only one ingestion and its own identifiers keeps the invariant
      if that ingestion is in order, or over with its identifiers settled. */
  lemma {:induction false} OwnChange(s: Shared, s': Shared, id: nat)
    requires Inv(s) && id in s.active && s.filed <= s'.filed
    requires s'.active - {id} == s.active - {id}
    requires forall x | x !in Ids(s.active[id]) :: s'.vectors[x] == s.vectors[x] && s'.rows[x] == s.rows[x]
    requires id in s'.active ==> s'.active[id].(stage := Checking) == s.active[id].(stage := Checking)
                                 && SettledOrInOrder(s', s'.active[id])
    requires id !in s'.active ==> forall x | x in Ids(s.active[id]) :: s'.vectors[x] == s'.rows[x]
    ensures Inv(s')
  {
    assert forall u | u != id :: (u in s.active <==> u in s'.active) && (u in s.active ==> s'.active[u] == s.active[u]) by {
      assert forall u | u != id :: (u in s.active <==> u in s.active - {id}) && (u in s'.active <==> u in s'.active - {id});
      assert forall u | u != id && u in s.active :: (s.active - {id})[u] == s.active[u];
      assert forall u | u != id && u in s'.active :: (s'.active - {id})[u] == s'.active[u];
    }
    forall u | u in s'.active ensures Progress(s', s'.active[u]) {
      if u != id {
        forall x | x in Ids(s.active[u]) ensures x !in Ids(s.active[id]) {
          OneOwner(s.active[u], s.active[id], x);
        }
      }
    }
    forall x | !Claimed(s', x) ensures s'.vectors[x] == s'.rows[x] {
      if x !in Ids(s.active[id]) {
        assert !Claimed(s, x);
      }
    }
  }

  lemma {:induction false} Unclaimed(s: Shared, id: nat, x: string)
    requires Inv(s) && id in s.active && !s.active[id].stage.Inserting? && x in Ids(s.active[id])
    ensures s.vectors[x] == s.rows[x]
  {
    forall u | u in s.active && s.active[u].stage.Inserting? ensures x !in Ids(s.active[u]) {
      OneOwner(s.active[id], s.active[u], x);
    }
  }

  lemma {:induction false} SliceCounts(ids: seq<string>, lo: nat, hi: nat, x: string)
    requires lo <= hi <= |ids| && forall i, j | 0 <= i < j < |ids| :: ids[i] != ids[j]
    ensures multiset(ids[lo..hi])[x] == if x in ids[lo..hi] then 1 else 0
    ensures x in ids[..hi] <==> x in ids[..lo] || x in ids[lo..hi]
    ensures !(x in ids[..lo] && x in ids[lo..hi])
  {
    assert ids[..hi] == ids[..lo] + ids[lo..hi];
    DistinctCounts(ids[lo..hi], x);
  }

  lemma {:induction false} DistinctCounts(ids: seq<string>, x: string)
    requires forall i, j | 0 <= i < j < |ids| :: ids[i] != ids[j]
    ensures multiset(ids)[x] == if x in ids then 1 else 0
  {
    if ids != [] {
      var n := |ids| - 1;
      DistinctCounts(ids[..n], x);
      Seqs.TakeStep(ids, n);
      Seqs.Whole(ids);
    }
  }

  lemma {:induction false} CheckKeepsInv(s: Shared, id: nat)
    requires Inv(s)
    ensures Inv(Next(s, Check(id)))
  {
    var s' := Next(s, Check(id));
    if s' != s {
      var i := s.active[id];
      forall x | x in Ids(i) ensures s.vectors[x] == s.rows[x] { Unclaimed(s, id, x); }
      assert id in s'.active ==> s'.active[id] == i.(stage := Inserting(0)) && Ids(s'.active[id]) == Ids(i);
      OwnChange(s, s', id);
    }
  }

  lemma {:induction false} InsertKeepsInv(s: Shared, id: nat)
    requires Inv(s)
    ensures Inv(Next(s, InsertBatch(id)))
  {
    var s' := Next(s, InsertBatch(id));
    if s' != s {
      var i, i' := s.active[id], s'.active[id];
      assert Ids(i') == Ids(i);
      UploadIdsAreDistinct(i.kbCode, i.version, i.count);
      forall x ensures s'.vectors[x] == s.vectors[x] + if x in Ids(i)[i.stage.done..i'.stage.done] then 1 else 0
               ensures x in Ids(i)[..i'.stage.done] <==> x in Ids(i)[..i.stage.done] || x in Ids(i)[i.stage.done..i'.stage.done]
               ensures !(x in Ids(i)[..i.stage.done] && x in Ids(i)[i.stage.done..i'.stage.done]) {
        SliceCounts(Ids(i), i.stage.done, i'.stage.done, x);
      }
      assert s'.active - {id} == s.active - {id};
      OwnChange(s, s', id);
    }
  }

  /** Undoing what was inserted settles an ingestion's identifiers; so does not undoing when
      there is nothing to undo. */
  lemma {:induction false} UndoKeepsInv(s: Shared, id: nat, done: nat, undone: bool)
    requires Inv(s) && id in s.active && s.active[id].stage == Inserting(done)
    requires undone || done == 0
    ensures done <= s.active[id].count
    ensures Inv(Ended(Undone(s, Ids(s.active[id])[..done], undone), id))
  {
    var ids := Ids(s.active[id]);
    var s' := Ended(Undone(s, ids[..done], undone), id);
    forall x ensures s'.vectors[x] == if x in ids[..done] then 0 else s.vectors[x] {
      WithoutAt(s.vectors, ids[..done], x);
    }
    OwnChange(s, s', id);
  }

  lemma {:induction false} CommitKeepsInv(s: Shared, id: nat)
    requires Inv(s) && Complete(s, id)
    ensures Inv(Next(s, Commit(id)))
  {
    var i := s.active[id];
    UploadIdsAreDistinct(i.kbCode, i.version, i.count);
    assert |Ids(i)| == i.count;
    hide UploadIds;
    var s' := Next(s, Commit(id));
    assert Ids(s'.active[id]) == Ids(i);
    Seqs.Whole(Ids(i));
    forall x ensures s'.rows[x] == s.rows[x] + if x in Ids(i) then 1 else 0 {
      DistinctCounts(Ids(i), x);
    }
    OwnChange(s, s', id);
  }

  lemma {:induction false} EndKeepsInv(s: Shared, id: nat)
    requires Inv(s) && IsCommitted(s, id)
    ensures Inv(Ended(s, id))
  {
    forall x | x in Ids(s.active[id]) ensures s.vectors[x] == s.rows[x] { Unclaimed(s, id, x); }
    OwnChange(s, Ended(s, id), id);
  }

  lemma {:induction false} StartKeepsInv(s: Shared, e: Event)
    requires Inv(s) && e.Start? && Separate(s, [e])
    ensures Inv(Next(s, e))
  {
    var s' := Next(s, e);
    if s' != s {
      forall x | !Claimed(s', x) ensures !Claimed(s, x) {
        forall u | u in s.active ensures s'.active[u] == s.active[u] {}
      }
    }
  }

  lemma {:induction false} NextKeepsInv(s: Shared, e: Event)
    requires Inv(s) && Separate(s, [e]) && !Harmful(s, e)
    ensures Inv(Next(s, e))
  {
    match e {
      case Start(_, _, _, _) => StartKeepsInv(s, e);
      case Check(id) => CheckKeepsInv(s, id);
      case InsertBatch(id) => InsertKeepsInv(s, id);
      case BatchFails(id, undone) =>
        if IsInserting(s, id) { UndoKeepsInv(s, id, s.active[id].stage.done, undone); }
      case FlushFails(_) =>
      case Commit(id) =>
        if Complete(s, id) { CommitKeepsInv(s, id); }
      case CommitFails(id, undone) =>
        if Complete(s, id) {
          var i := s.active[id];
          assert Ids(i)[..i.count] == Ids(i);
          UndoKeepsInv(s, id, i.count, undone);
        }
      case Return(id) =>
        if IsCommitted(s, id) { EndKeepsInv(s, id); }
      case FailsLate(id, _) =>
        if IsCommitted(s, id) { EndKeepsInv(s, id); }
    }
  }

  // ---------- harm stays ----------

  function FirstId(kbCode: string, version: nat): string {
    VersionedId(kbCode, version, 1)
  }

  /** Vectors without rows: whatever comes later with this code and version is refused. */
  ghost predicate Orphaned(s: Shared, kbCode: string, version: nat) {
    && s.vectors[FirstId(kbCode, version)] > 0 && s.rows[FirstId(kbCode, version)] == 0
    && forall u | u in s.active && s.active[u].kbCode == kbCode && s.active[u].version == version :: s.active[u].stage.Checking?
  }

  /** Rows without vectors: nothing comes later with this code and version. */
  ghost predicate Bereft(s: Shared, kbCode: string, version: nat) {
    && s.vectors[FirstId(kbCode, version)] == 0 && s.rows[FirstId(kbCode, version)] > 0
    && (kbCode, version) in s.filed
    && forall u | u in s.active :: s.active[u].kbCode != kbCode || s.active[u].version != version
  }

  ghost predicate Parted(s: Shared) {
    exists kbCode, version :: Orphaned(s, kbCode, version) || Bereft(s, kbCode, version)
  }

  ghost predicate Sized(s: Shared) {
    forall u | u in s.active :: s.active[u].count > 0
  }

  lemma {:induction false} FirstIdOf(i: Ingestion, kbCode: string, version: nat)
    requires i.count > 0
    ensures FirstId(kbCode, version) in Ids(i) <==> i.kbCode == kbCode && i.version == version
    ensures Ids(i)[0] == FirstId(i.kbCode, i.version)
  {
    assert Ids(i)[0] == FirstId(i.kbCode, i.version);
    assert UploadIds(kbCode, version, 1)[0] == FirstId(kbCode, version);
    if i.kbCode != kbCode || i.version != version {
      UploadsDoNotShareIds(i.kbCode, i.version, i.count, kbCode, version, 1, FirstId(kbCode, version));
    }
  }

  /** What an event of one ingestion does to an identifier that is not its own: nothing. */
  lemma {:induction false} OthersUntouched(s: Shared, e: Event, x: string)
    requires !e.Start? && e.id in s.active && x !in Ids(s.active[e.id])
    ensures Next(s, e).vectors[x] == s.vectors[x] && Next(s, e).rows[x] == s.rows[x]
  {
    var ids := Ids(s.active[e.id]);
    WithoutAt(s.vectors, ids, x);
    if IsInserting(s, e.id) {
      WithoutAt(s.vectors, ids[..s.active[e.id].stage.done], x);
      assert x !in ids[s.active[e.id].stage.done..BatchEnd(s.active[e.id])];
    }
  }

  lemma {:induction false} OrphansStay(s: Shared, e: Event, kbCode: string, version: nat)
    requires Sized(s) && Orphaned(s, kbCode, version)
    ensures Orphaned(Next(s, e), kbCode, version)
  {
    hide FirstId;
    hide UploadIds;
    if !e.Start? && e.id in s.active {
      var i := s.active[e.id];
      FirstIdOf(i, kbCode, version);
      if i.kbCode == kbCode && i.version == version {
        assert !NoneIn(Ids(i), s.vectors);
      } else {
        OthersUntouched(s, e, FirstId(kbCode, version));
      }
    }
  }

  lemma {:induction false} BereftStays(s: Shared, e: Event, kbCode: string, version: nat)
    requires Sized(s) && Separate(s, [e]) && Bereft(s, kbCode, version)
    ensures Bereft(Next(s, e), kbCode, version)
  {
    hide FirstId;
    hide UploadIds;
    if !e.Start? && e.id in s.active {
      FirstIdOf(s.active[e.id], kbCode, version);
      OthersUntouched(s, e, FirstId(kbCode, version));
    }
  }

  lemma {:induction false} PartedStays(s: Shared, e: Event)
    requires Sized(s) && Separate(s, [e]) && Parted(s)
    ensures Sized(Next(s, e)) && Parted(Next(s, e))
  {
    hide Orphaned;
    hide Bereft;
    hide UploadIds;
    var kbCode, version :| Orphaned(s, kbCode, version) || Bereft(s, kbCode, version);
    if Orphaned(s, kbCode, version) {
      OrphansStay(s, e, kbCode, version);
    } else {
      BereftStays(s, e, kbCode, version);
    }
  }

  lemma {:induction false} HarmParts(s: Shared, e: Event)
    requires Inv(s) && Harmful(s, e)
    ensures Parted(Next(s, e))
  {
    var i, s' := s.active[e.id], Next(s, e);
    var x := FirstId(i.kbCode, i.version);
    FirstIdOf(i, i.kbCode, i.version);
    if e.FailsLate? {
      WithoutAt(s.vectors, Ids(i), x);
      assert Bereft(s', i.kbCode, i.version);
    } else {
      assert x in Ids(i)[..i.stage.done];
      assert Orphaned(s', i.kbCode, i.version);
    }
  }

  lemma {:induction false} RunKeepsParted(s: Shared, events: seq<Event>)
    requires Sized(s) && Separate(s, events) && Parted(s)
    ensures Parted(Run(s, events))
    decreases |events|
  {
    hide Parted;
    hide Sized;
    if events != [] {
      assert Separate(s, [events[0]]);
      PartedStays(s, events[0]);
      RunKeepsParted(Next(s, events[0]), events[1..]);
    }
  }

  lemma {:induction false} RunKeepsInv(s: Shared, events: seq<Event>)
    requires Inv(s) && Separate(s, events)
    ensures if AnyHarm(s, events) then Parted(Run(s, events)) else Inv(Run(s, events))
    decreases |events|
  {
    hide Parted;
    hide Harmful;
    if events != [] {
      assert Separate(s, [events[0]]);
      if Harmful(s, events[0]) {
        HarmParts(s, events[0]);
        assert Sized(Next(s, events[0])) by { NextIsSized(s, events[0]); }
        RunKeepsParted(Next(s, events[0]), events[1..]);
      } else {
        NextKeepsInv(s, events[0]);
        RunKeepsInv(Next(s, events[0]), events[1..]);
      }
    }
  }

  lemma {:induction false} NextIsSized(s: Shared, e: Event)
    requires Sized(s)
    ensures Sized(Next(s, e))
  {
    hide UploadIds;
  }

  function Nothing(): Shared {
    Shared(multiset{}, multiset{}, map[], {})
  }

  lemma {:induction false} PartedDisagree(s: Shared)
    requires Parted(s)
    ensures s.vectors != s.rows
  {
    var kbCode, version :| Orphaned(s, kbCode, version) || Bereft(s, kbCode, version);
    assert s.vectors[FirstId(kbCode, version)] != s.rows[FirstId(kbCode, version)];
  }

  /** When none is under way, the two stores hold the same identifiers if and only if nothing
      harmful has happened, whichever ingestions interleaved and wherever they failed; and
      harm is never repaired. */
  lemma {:induction false} StoresAgreeWhenQuietIff(events: seq<Event>)
    requires Separate(Nothing(), events)
    requires Run(Nothing(), events).active == map[]
    ensures Run(Nothing(), events).vectors == Run(Nothing(), events).rows <==> !AnyHarm(Nothing(), events)
  {
    hide Parted;
    RunKeepsInv(Nothing(), events);
    var s := Run(Nothing(), events);
    if AnyHarm(Nothing(), events) {
      PartedDisagree(s);
    } else {
      assert forall x :: s.vectors[x] == s.rows[x];
    }
  }

  /** Each ingestion is all or nothing: committing puts each of its identifiers once in both
      stores, and any failure that is not harmful leaves them in neither. */
  lemma {:induction false} IngestionIsAllOrNothing(events: seq<Event>, e: Event, x: string)
    requires Separate(Nothing(), events) && !AnyHarm(Nothing(), events)
    requires var s := Run(Nothing(), events);
             e.id in s.active && s.active[e.id].stage.Inserting? && x in Ids(s.active[e.id]) && !Harmful(s, e)
    requires e.BatchFails? || e.CommitFails? || e.Commit?
    requires Next(Run(Nothing(), events), e) != Run(Nothing(), events)
    ensures var s' := Next(Run(Nothing(), events), e);
            s'.vectors[x] == s'.rows[x] == if e.Commit? then 1 else 0
  {
    hide Parted;
    RunKeepsInv(Nothing(), events);
    var s := Run(Nothing(), events);
    var i := s.active[e.id];
    UploadIdsAreDistinct(i.kbCode, i.version, i.count);
    hide UploadIds;
    Seqs.Whole(Ids(i));
    DistinctCounts(Ids(i), x);
    WithoutAt(s.vectors, Ids(i)[..i.stage.done], x);
    WithoutAt(s.vectors, Ids(i), x);
  }
}
