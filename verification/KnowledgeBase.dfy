/** Documents and stores together: the version numbers that documents hand out are what keeps
    ingestions of one code and version apart, and so the two stores in agreement. */
module KnowledgeBase {
  import opened Wrappers
  import D = DocumentVersions
  import S = VectorStore

  /** One document for each article code, the shared stores, and the uploads that have begun
      to write. */
  datatype Library = Library(documents: map<string, D.Document>, stores: S.Shared, written: set<(string, nat)>)

  /** `First`: the first ingestion of an article, which becomes version 1.  `Write`: an upload
      whose version is reserved begins to write, as the ingestion `id`. */
  datatype Step =
    | Versions(kbCode: string, event: D.Event)
    | First(id: nat, kbCode: string, count: nat)
    | Write(id: nat, kbCode: string, upload: nat, count: nat)
    | Stores(change: S.Event)

  function DocumentOf(l: Library, kbCode: string): D.Document {
    if kbCode in l.documents then l.documents[kbCode] else D.Absent()
  }

  /** The number of the version with this id. */
  function NumberOf(versions: seq<D.Version>, id: nat): nat {
    if versions == [] then 0
    else if versions[0].id == id then versions[0].number
    else NumberOf(versions[1..], id)
  }

  function Reserved(d: D.Document, upload: nat): nat
    requires D.In(d, upload, false)
  {
    NumberOf(d.versions, d.uploads[upload].versionId)
  }

  /** A first ingestion looks for rows of the code, and none of the code may be under way. */
  predicate MayBeFirst(l: Library, kbCode: string) {
    DocumentOf(l, kbCode).versions == [] && S.Unused(l.stores, kbCode, 1)
  }

  predicate MayWrite(l: Library, kbCode: string, upload: nat) {
    D.In(DocumentOf(l, kbCode), upload, false) && (kbCode, upload) !in l.written
  }

  /** What a step does to the stores, if anything. */
  function Effect(l: Library, step: Step): Option<S.Event> {
    match step
    case Versions(_, _) => None
    case First(id, kbCode, count) =>
      if MayBeFirst(l, kbCode) then Some(S.Start(id, kbCode, 1, count)) else None
    case Write(id, kbCode, upload, count) =>
      if MayWrite(l, kbCode, upload)
      then Some(S.Start(id, kbCode, Reserved(DocumentOf(l, kbCode), upload), count)) else None
    case Stores(e) => if e.Start? then None else Some(e)
  }

  function Next(l: Library, step: Step): Library {
    var effect := Effect(l, step);
    var stores := if effect.Some? then S.Next(l.stores, effect.value) else l.stores;
    match step
    case Versions(kbCode, e) => l.(documents := l.documents[kbCode := D.Next(DocumentOf(l, kbCode), e)])
    case Write(_, kbCode, upload, _) =>
      Library(l.documents, stores, if effect.Some? then l.written + {(kbCode, upload)} else l.written)
    case _ => l.(stores := stores)
  }

  function Run(l: Library, steps: seq<Step>): Library
    decreases |steps|
  {
    if steps == [] then l else Run(Next(l, steps[0]), steps[1..])
  }

  /** The events of the stores along a run. */
  function Trace(l: Library, steps: seq<Step>): seq<S.Event>
    decreases |steps|
  {
    if steps == [] then []
    else
      var effect := Effect(l, steps[0]);
      (if effect.Some? then [effect.value] else []) + Trace(Next(l, steps[0]), steps[1..])
  }

  function Empty(): Library {
    Library(map[], S.Nothing(), {})
  }

  // ---------- numbers ----------

  lemma {:induction false} NumberAt(versions: seq<D.Version>, from: nat, k: nat)
    requires forall i | 0 <= i < |versions| :: versions[i].number == from + i + 1
    requires forall i, j | 0 <= i < j < |versions| :: versions[i].id != versions[j].id
    requires k < |versions|
    ensures NumberOf(versions, versions[k].id) == from + k + 1
  {
    if k > 0 {
      NumberAt(versions[1..], from + 1, k - 1);
      assert versions[1..][k - 1] == versions[k];
    }
  }

  /** The numbers of the versions that uploads have reserved: all above 1, none twice. */
  ghost predicate Counted(d: D.Document) {
    && D.Numbered(d) && D.UploadsOk(d)
    && (forall u | D.In(d, u, false) :: 2 <= Reserved(d, u) <= |d.versions|)
    && (forall u, v | D.In(d, u, false) && D.In(d, v, false) && u != v :: Reserved(d, u) != Reserved(d, v))
  }

  lemma {:induction false} ReservedAt(d: D.Document, u: nat) returns (k: nat)
    requires D.Numbered(d) && D.UploadsOk(d) && D.In(d, u, false)
    ensures k < |d.versions| && d.versions[k].id == d.uploads[u].versionId && Reserved(d, u) == k + 1
  {
    var id := d.uploads[u].versionId;
    assert D.Holds(d.versions, id, {D.Processing});
    k :| 0 <= k < |d.versions| && d.versions[k].id == id && d.versions[k].status in {D.Processing};
    NumberAt(d.versions, 0, k);
  }

  /** Rows that keep their ids keep the numbers of the uploads still in work. */
  lemma {:induction false} SameNumbers(d: D.Document, d': D.Document, u: nat)
    requires D.Numbered(d) && D.UploadsOk(d) && D.In(d, u, false)
    requires D.Numbered(d') && D.UploadsOk(d') && D.In(d', u, false)
    requires d'.uploads[u] == d.uploads[u] && |d.versions| <= |d'.versions|
    requires forall i | 0 <= i < |d.versions| :: d'.versions[i].id == d.versions[i].id
    ensures Reserved(d', u) == Reserved(d, u)
  {
    var k := ReservedAt(d, u);
    var k' := ReservedAt(d', u);
    assert d'.versions[k].id == d'.versions[k'].id;
  }

  /** The invariant of a document, whether or not its current version was hurt. */
  ghost predicate Sound(d: D.Document) {
    D.Inv(d, true) || D.Inv(d, false)
  }

  lemma {:induction false} NextIsSound(d: D.Document, e: D.Event)
    requires Sound(d)
    ensures Sound(D.Next(d, e))
  {
    hide D.Inv;
    if D.Inv(d, true) {
      D.NextKeepsInv(d, e, true);
    } else {
      D.NextKeepsInv(d, e, false);
    }
  }

  lemma {:induction false} AbsentIsSound()
    ensures Sound(D.Absent()) && Counted(D.Absent())
  {
    assert D.Inv(D.Absent(), false);
  }

  /** An event of a document leaves the uploads it had reserved with their numbers, or over; a
      new one gets a number above all before. */
  lemma {:induction false} UploadsAfter(d: D.Document, e: D.Event, u: nat)
    requires Sound(d) && D.In(D.Next(d, e), u, false)
    ensures var d' := D.Next(d, e);
            if D.In(d, u, false)
            then Reserved(d', u) == Reserved(d, u)
            else e == D.Reserve(u) && Reserved(d', u) == |d.versions| + 1 == |d'.versions|
    ensures |d.versions| <= |D.Next(d, e).versions|
  {
    hide D.OneCurrent;
    hide D.NoneCurrent;
    hide D.NextNumber;
    NextIsSound(d, e);
    var d' := D.Next(d, e);
    if D.In(d, u, false) {
      assert forall i | 0 <= i < |d.versions| :: d'.versions[i].id == d.versions[i].id;
      SameNumbers(d, d', u);
    } else {
      NumberAt(d'.versions, 0, |d.versions|);
    }
  }

  lemma {:induction false} NextIsCounted(d: D.Document, e: D.Event)
    requires Sound(d) && Counted(d)
    ensures Counted(D.Next(d, e))
  {
    hide D.Next;
    hide Reserved;
    hide D.In;
    NextIsSound(d, e);
    var d' := D.Next(d, e);
    forall u | D.In(d', u, false) ensures 2 <= Reserved(d', u) <= |d'.versions| {
      UploadsAfter(d, e, u);
      if !D.In(d, u, false) {
        ReserveNeedsVersion(d, u);
      }
    }
    forall u, v | D.In(d', u, false) && D.In(d', v, false) && u != v ensures Reserved(d', u) != Reserved(d', v) {
      UploadsAfter(d, e, u);
      UploadsAfter(d, e, v);
    }
  }

  lemma {:induction false} ReserveNeedsVersion(d: D.Document, u: nat)
    requires !D.In(d, u, false) && D.In(D.Next(d, D.Reserve(u)), u, false)
    ensures d.versions != []
  {
  }

  // ---------- the library ----------

  /** A number in use, beyond the first, was handed out and is not waiting to be written. */
  ghost predicate HandedOut(l: Library, kbCode: string, version: nat) {
    version == 1
    || (&& version <= |DocumentOf(l, kbCode).versions|
        && forall u | MayWrite(l, kbCode, u) :: Reserved(DocumentOf(l, kbCode), u) != version)
  }

  ghost predicate Inv(l: Library) {
    && (forall k :: Sound(DocumentOf(l, k)) && Counted(DocumentOf(l, k)))
    && (forall k: string, v: nat :: S.Unused(l.stores, k, v) || HandedOut(l, k, v))
  }

  lemma {:induction false} VersionsKeepInv(l: Library, kbCode: string, e: D.Event)
    requires Inv(l)
    ensures Inv(Next(l, Versions(kbCode, e)))
  {
    hide D.Next;
    hide Sound;
    hide Counted;
    hide Reserved;
    hide D.In;
    var l', d := Next(l, Versions(kbCode, e)), DocumentOf(l, kbCode);
    NextIsSound(d, e);
    NextIsCounted(d, e);
    assert forall k | k != kbCode :: DocumentOf(l', k) == DocumentOf(l, k);
    forall k: string, v: nat | !S.Unused(l'.stores, k, v) ensures HandedOut(l', k, v) {
      assert HandedOut(l, k, v);
      if k == kbCode && v != 1 {
        GrowsOnly(d, e);
        forall u | MayWrite(l', k, u) ensures Reserved(DocumentOf(l', k), u) != v {
          UploadsAfter(d, e, u);
          assert D.In(d, u, false) ==> MayWrite(l, k, u);
        }
      }
    }
  }

  lemma {:induction false} GrowsOnly(d: D.Document, e: D.Event)
    ensures |d.versions| <= |D.Next(d, e).versions|
  {
  }

  /** Whatever the stores do but start an ingestion, they use no more codes and versions. */
  lemma {:induction false} NothingNewUsed(s: S.Shared, e: S.Event, kbCode: string, version: nat)
    requires S.Unused(s, kbCode, version)
    requires !e.Start? || e.kbCode != kbCode || e.version != version
    ensures S.Unused(S.Next(s, e), kbCode, version)
  {
    hide S.Without;
    hide S.Ids;
    hide S.NoneIn;
  }

  lemma {:induction false} StoresKeepInv(l: Library, step: Step)
    requires Inv(l) && (step.Stores? || step.First?)
    ensures Inv(Next(l, step))
  {
    hide Sound;
    hide Counted;
    hide S.Next;
    hide S.Unused;
    hide Reserved;
    var l' := Next(l, step);
    assert forall k :: DocumentOf(l', k) == DocumentOf(l, k);
    assert forall k: string, u: nat :: MayWrite(l', k, u) == MayWrite(l, k, u);
    forall k: string, v: nat | !S.Unused(l'.stores, k, v) ensures HandedOut(l', k, v) {
      if v != 1 && Effect(l, step).Some? && S.Unused(l.stores, k, v) {
        NothingNewUsed(l.stores, Effect(l, step).value, k, v);
        assert false;
      }
      assert HandedOut(l, k, v);
    }
  }

  lemma {:induction false} WriteKeepsInv(l: Library, id: nat, kbCode: string, upload: nat, count: nat)
    requires Inv(l) && MayWrite(l, kbCode, upload)
    ensures Inv(Next(l, Write(id, kbCode, upload, count)))
  {
    hide Sound;
    hide S.Next;
    hide S.Unused;
    hide D.In;
    hide D.UploadsOk;
    hide D.Numbered;
    hide Reserved;
    var l', d := Next(l, Write(id, kbCode, upload, count)), DocumentOf(l, kbCode);
    var number := Reserved(d, upload);
    assert Counted(d);
    assert forall k :: DocumentOf(l', k) == DocumentOf(l, k);
    assert forall k: string, u: nat :: MayWrite(l', k, u) <==> MayWrite(l, k, u) && (k, u) != (kbCode, upload);
    forall k: string, v: nat | !S.Unused(l'.stores, k, v) ensures HandedOut(l', k, v) {
      if k != kbCode || v != number {
        if S.Unused(l.stores, k, v) {
          NothingNewUsed(l.stores, S.Start(id, kbCode, number, count), k, v);
          assert false;
        }
        assert HandedOut(l, k, v);
      }
    }
  }

  lemma {:induction false} NextKeepsInv(l: Library, step: Step)
    requires Inv(l)
    ensures Inv(Next(l, step))
  {
    hide Inv;
    match step {
      case Versions(kbCode, e) => VersionsKeepInv(l, kbCode, e);
      case Write(id, kbCode, upload, count) =>
        if MayWrite(l, kbCode, upload) { WriteKeepsInv(l, id, kbCode, upload, count); }
      case _ => StoresKeepInv(l, step);
    }
  }

  /** No step starts an ingestion of a code and version in use. */
  lemma {:induction false} StartIsUnused(l: Library, step: Step)
    requires Inv(l) && Effect(l, step).Some? && Effect(l, step).value.Start?
    ensures S.Unused(l.stores, Effect(l, step).value.kbCode, Effect(l, step).value.version)
  {
    hide S.Unused;
    hide Sound;
    hide Reserved;
    if step.Write? {
      var d := DocumentOf(l, step.kbCode);
      assert Counted(d);
      assert Reserved(d, step.upload) >= 2;
    }
  }

  /** The stores of a run see just the events of its trace, and these start no ingestion of a
      code and version in use. */
  lemma {:induction false} TraceIsSeparate(l: Library, steps: seq<Step>)
    requires Inv(l)
    ensures S.Separate(l.stores, Trace(l, steps))
    ensures Run(l, steps).stores == S.Run(l.stores, Trace(l, steps))
    decreases |steps|
  {
    hide Inv;
    hide S.Next;
    hide S.Unused;
    if steps != [] {
      var effect, rest := Effect(l, steps[0]), Trace(Next(l, steps[0]), steps[1..]);
      NextKeepsInv(l, steps[0]);
      TraceIsSeparate(Next(l, steps[0]), steps[1..]);
      if effect.Some? {
        if effect.value.Start? {
          StartIsUnused(l, steps[0]);
        }
        assert ([effect.value] + rest)[1..] == rest;
      } else {
        assert [] + rest == rest;
      }
    }
  }

  lemma {:induction false} EmptyIsSound()
    ensures Inv(Empty())
  {
    AbsentIsSound();
  }

  /** In every run of documents and stores together, whichever uploads interleave and fail, the
      two stores agree whenever nothing is under way, if and only if nothing harmful has
      happened. */
  lemma {:induction false} LibraryAgreesIff(steps: seq<Step>)
    requires Run(Empty(), steps).stores.active == map[]
    ensures var stores := Run(Empty(), steps).stores;
            stores.vectors == stores.rows <==> !S.AnyHarm(S.Nothing(), Trace(Empty(), steps))
  {
    EmptyIsSound();
    TraceIsSeparate(Empty(), steps);
    S.StoresAgreeWhenQuietIff(Trace(Empty(), steps));
  }
}
