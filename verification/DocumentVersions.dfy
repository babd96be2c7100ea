/** The versions of one document under any interleaving of uploads.  An upload reserves a
    version in one transaction, builds its chunks outside any, and activates the version in
    a second transaction or records a failure. */
module DocumentVersions {
  import opened Wrappers

  datatype Status = Processing | Completed | Superseded | Broken

  datatype Version = Version(id: nat, number: nat, status: Status, isCurrent: bool)

  /** Where an upload stands: after its first commit, after its second, or over. */
  datatype Upload = Reserved(versionId: nat) | Activated(versionId: nat) | Ended

  datatype Document = Document(
    versions: seq<Version>, current: Option<nat>, uploads: map<nat, Upload>, nextId: nat,
    lastActivated: Option<nat>)

  datatype Event =
    | FirstIngest(succeeds: bool)
    | Reserve(upload: nat)
    | Activate(upload: nat)
    | Fail(upload: nat, recorded: bool)   // recorded: the failure itself could be committed
    | Return(upload: nat)
    | FailLate(upload: nat, recorded: bool) // an error after the activating commit

  function Absent(): Document {
    Document([], None, map[], 0, None)
  }

  function MaxNumber(versions: seq<Version>): nat {
    if versions == [] then 0
    else
      var rest := MaxNumber(versions[1..]);
      if versions[0].number > rest then versions[0].number else rest
  }

  function NextNumber(versions: seq<Version>): nat {
    MaxNumber(versions) + 1
  }

  function Activation(v: Version, id: nat): Version {
    if v.id == id then v.(status := Completed, isCurrent := true)
    else v.(isCurrent := false, status := if v.status == Completed then Superseded else v.status)
  }

  function ActivateIn(versions: seq<Version>, id: nat): seq<Version> {
    seq(|versions|, i requires 0 <= i < |versions| => Activation(versions[i], id))
  }

  /** The failure record: only the upload's own version row is touched. */
  function FailIn(versions: seq<Version>, id: nat): seq<Version> {
    seq(|versions|, i requires 0 <= i < |versions| =>
      if versions[i].id == id then versions[i].(status := Broken, isCurrent := false) else versions[i])
  }

  predicate In(d: Document, upload: nat, activated: bool) {
    upload in d.uploads && if activated then d.uploads[upload].Activated? else d.uploads[upload].Reserved?
  }

  function Next(d: Document, e: Event): Document {
    match e
    case FirstIngest(succeeds) =>
      if d.versions != [] || !succeeds then d
      else d.(versions := [Version(d.nextId, 1, Completed, true)], current := Some(d.nextId),
              nextId := d.nextId + 1, lastActivated := Some(d.nextId))
    case Reserve(u) =>
      if d.versions == [] || u in d.uploads then d
      else d.(versions := d.versions + [Version(d.nextId, NextNumber(d.versions), Processing, false)],
              uploads := d.uploads[u := Reserved(d.nextId)], nextId := d.nextId + 1)
    case Activate(u) =>
      if !In(d, u, false) then d
      else
        var id := d.uploads[u].versionId;
        d.(versions := ActivateIn(d.versions, id), current := Some(id),
           uploads := d.uploads[u := Activated(id)], lastActivated := Some(id))
    case Fail(u, recorded) =>
      if !In(d, u, false) then d
      else d.(versions := if recorded then FailIn(d.versions, d.uploads[u].versionId) else d.versions,
              uploads := d.uploads[u := Ended])
    case Return(u) =>
      if !In(d, u, true) then d else d.(uploads := d.uploads[u := Ended])
    case FailLate(u, recorded) =>
      if !In(d, u, true) then d
      else d.(versions := if recorded then FailIn(d.versions, d.uploads[u].versionId) else d.versions,
              uploads := d.uploads[u := Ended])
  }

  function Run(d: Document, events: seq<Event>): Document
    decreases |events|
  {
    if events == [] then d else Run(Next(d, events[0]), events[1..])
  }

  // ---------- the invariant ----------

  /** Numbers run 1, 2, 3, ... in order of reservation, and ids are distinct. */
  ghost predicate Numbered(d: Document) {
    && (forall i | 0 <= i < |d.versions| :: d.versions[i].number == i + 1 && d.versions[i].id < d.nextId)
    && (forall i, j | 0 <= i < j < |d.versions| :: d.versions[i].id != d.versions[j].id)
  }

  ghost predicate Holds(versions: seq<Version>, id: nat, allowed: set<Status>) {
    exists i | 0 <= i < |versions| :: versions[i].id == id && versions[i].status in allowed
  }

  /** The version flagged current, the completed version and the document's reference pick
      out one and the same version. */
  ghost predicate OneCurrent(d: Document) {
    && d.versions != []
    && d.current.Some?
    && Holds(d.versions, d.current.value, {Completed})
    && forall i | 0 <= i < |d.versions| ::
         && (d.versions[i].isCurrent <==> d.versions[i].id == d.current.value)
         && (d.versions[i].status == Completed <==> d.versions[i].id == d.current.value)
  }

  /** After a recorded error behind an activating commit: the document still refers to the
      failed version, and no version is flagged current or completed. */
  ghost predicate NoneCurrent(d: Document) {
    && d.versions != []
    && d.current.Some?
    && Holds(d.versions, d.current.value, {Broken})
    && forall i | 0 <= i < |d.versions| :: !d.versions[i].isCurrent && d.versions[i].status != Completed
  }

  function Allowed(u: Upload): set<Status> {
    match u
    case Reserved(_) => {Processing}
    case Activated(_) => {Completed, Superseded}
    case Ended => {}
  }

  ghost predicate UploadsOk(d: Document) {
    && (forall u | u in d.uploads && !d.uploads[u].Ended? ::
          Holds(d.versions, d.uploads[u].versionId, Allowed(d.uploads[u])))
    && (forall u, v | u in d.uploads && v in d.uploads && u != v && !d.uploads[u].Ended? && !d.uploads[v].Ended? ::
          d.uploads[u].versionId != d.uploads[v].versionId)
  }

  /** A recorded error behind the activating commit of the current version. */
  predicate Hurts(d: Document, e: Event) {
    e.FailLate? && e.recorded && In(d, e.upload, true) && d.current == Some(d.uploads[e.upload].versionId)
  }

  predicate Activates(d: Document, e: Event) {
    e.Activate? && In(d, e.upload, false)
  }

  predicate HurtAfter(d: Document, e: Event, hurt: bool) {
    Hurts(d, e) || (hurt && !Activates(d, e))
  }

  /** The current version was hurt, and no other has been activated since. */
  predicate Hurt(d: Document, events: seq<Event>, hurt: bool)
    decreases |events|
  {
    if events == [] then hurt else Hurt(Next(d, events[0]), events[1..], HurtAfter(d, events[0], hurt))
  }

  ghost predicate Inv(d: Document, hurt: bool) {
    && Numbered(d)
    && UploadsOk(d)
    && d.current == d.lastActivated
    && if d.versions == [] then d.current.None? && d.uploads == map[] && !hurt
       else if hurt then NoneCurrent(d)
       else OneCurrent(d)
  }

  lemma {:induction false} NextNumberIsCount(versions: seq<Version>, from: nat)
    requires forall i | 0 <= i < |versions| :: versions[i].number == from + i + 1
    ensures MaxNumber(versions) == if versions == [] then 0 else from + |versions|
  {
    if versions != [] {
      NextNumberIsCount(versions[1..], from + 1);
    }
  }

  lemma {:induction false} HoldsAppended(versions: seq<Version>, v: Version, id: nat, allowed: set<Status>)
    requires Holds(versions, id, allowed) || (v.id == id && v.status in allowed)
    ensures Holds(versions + [v], id, allowed)
  {
    var after := versions + [v];
    if Holds(versions, id, allowed) {
      var i :| 0 <= i < |versions| && versions[i].id == id && versions[i].status in allowed;
      assert after[i] == versions[i];
    } else {
      assert after[|versions|] == v;
    }
  }

  lemma {:induction false} HoldsChanged(before: seq<Version>, after: seq<Version>, id: nat, from: set<Status>,
      to: set<Status>)
    requires Holds(before, id, from) && |before| == |after|
    requires forall i | 0 <= i < |before| && before[i].id == id ::
               after[i].id == id && (before[i].status in from ==> after[i].status in to)
    ensures Holds(after, id, to)
  {
    var i :| 0 <= i < |before| && before[i].id == id && before[i].status in from;
    assert after[i].id == id;
  }

  /** The status of the version the document refers to. */
  function Referred(hurt: bool): set<Status> {
    if hurt then {Broken} else {Completed}
  }

  lemma {:induction false} ReserveKeepsUploads(d: Document, u: nat)
    requires Numbered(d) && UploadsOk(d)
    ensures Numbered(Next(d, Reserve(u))) && UploadsOk(Next(d, Reserve(u)))
  {
    NextNumberIsCount(d.versions, 0);
    var d' := Next(d, Reserve(u));
    if d' != d {
      var reserved := Version(d.nextId, NextNumber(d.versions), Processing, false);
      assert d'.versions == d.versions + [reserved];
      forall v | v in d'.uploads && !d'.uploads[v].Ended?
        ensures Holds(d'.versions, d'.uploads[v].versionId, Allowed(d'.uploads[v]))
        ensures v != u ==> d'.uploads[v].versionId < d.nextId
      {
        HoldsAppended(d.versions, reserved, d'.uploads[v].versionId, Allowed(d'.uploads[v]));
      }
    }
  }

  lemma {:induction false} ReserveKeepsInv(d: Document, u: nat, hurt: bool)
    requires Inv(d, hurt)
    ensures Inv(Next(d, Reserve(u)), hurt)
  {
    hide UploadsOk;
    hide NextNumber;
    hide Holds;
    ReserveKeepsUploads(d, u);
    var d' := Next(d, Reserve(u));
    if d' != d {
      var reserved := Version(d.nextId, NextNumber(d.versions), Processing, false);
      assert d'.versions == d.versions + [reserved];
      HoldsAppended(d.versions, reserved, d.current.value, Referred(hurt));
      if !hurt {
        CurrentIsOlder(d);
      }
    }
  }

  lemma {:induction false} CurrentIsOlder(d: Document)
    requires Numbered(d) && OneCurrent(d)
    ensures d.current.value < d.nextId
  {
    var i :| 0 <= i < |d.versions| && d.versions[i].id == d.current.value && d.versions[i].status in {Completed};
  }

  lemma {:induction false} ActivateKeepsInv(d: Document, u: nat, hurt: bool)
    requires Inv(d, hurt) && In(d, u, false)
    ensures Inv(Next(d, Activate(u)), false)
  {
    var d' := Next(d, Activate(u));
    var id := d.uploads[u].versionId;
    HoldsChanged(d.versions, d'.versions, id, {Processing}, {Completed});
    forall v | v in d'.uploads && !d'.uploads[v].Ended?
      ensures Holds(d'.versions, d'.uploads[v].versionId, Allowed(d'.uploads[v]))
    {
      HoldsChanged(d.versions, d'.versions, d.uploads[v].versionId, Allowed(d.uploads[v]), Allowed(d'.uploads[v]));
    }
  }

  /** Recording a failure leaves the versions of the other uploads as they are. */
  lemma {:induction false} FailKeepsUploads(d: Document, d': Document, u: nat)
    requires UploadsOk(d) && u in d.uploads && !d.uploads[u].Ended?
    requires d' == d.(versions := FailIn(d.versions, d.uploads[u].versionId), uploads := d.uploads[u := Ended])
    ensures UploadsOk(d')
  {
    forall v | v in d'.uploads && !d'.uploads[v].Ended?
      ensures Holds(d'.versions, d'.uploads[v].versionId, Allowed(d'.uploads[v]))
    {
      HoldsChanged(d.versions, d'.versions, d.uploads[v].versionId, Allowed(d.uploads[v]), Allowed(d'.uploads[v]));
    }
  }

  /** A failure of a version that is not the current one leaves the current one as it is. */
  lemma {:induction false} OtherIsHurt(d: Document, d': Document, id: nat, hurt: bool)
    requires Numbered(d) && d.current.Some? && d.current.value != id
    requires d'.versions == FailIn(d.versions, id) && d'.current == d.current
    requires if hurt then NoneCurrent(d) else OneCurrent(d)
    ensures if hurt then NoneCurrent(d') else OneCurrent(d')
  {
    HoldsChanged(d.versions, d'.versions, d.current.value, Referred(hurt), Referred(hurt));
  }

  lemma {:induction false} ReservedIsNotCurrent(d: Document, u: nat, hurt: bool)
    requires Inv(d, hurt) && In(d, u, false)
    ensures d.current.Some? && d.current.value != d.uploads[u].versionId
  {
    var id := d.uploads[u].versionId;
    var i :| 0 <= i < |d.versions| && d.versions[i].id == id && d.versions[i].status in {Processing};
    assert forall j | 0 <= j < |d.versions| && d.versions[j].id == id :: j == i;
  }

  lemma {:induction false} FailKeepsInv(d: Document, u: nat, recorded: bool, hurt: bool)
    requires Inv(d, hurt)
    ensures Inv(Next(d, Fail(u, recorded)), hurt)
  {
    hide UploadsOk;
    hide OneCurrent;
    hide NoneCurrent;
    var d' := Next(d, Fail(u, recorded));
    if In(d, u, false) {
      ReservedIsNotCurrent(d, u, hurt);
      if recorded {
        FailKeepsUploads(d, d', u);
        OtherIsHurt(d, d', d.uploads[u].versionId, hurt);
      } else {
        SameVersions(d, d', u);
      }
    }
  }

  /** An upload whose version is activated refers to a version that is not hurt. */
  lemma {:induction false} ActivatedIsNotHurt(d: Document, u: nat)
    requires Numbered(d) && UploadsOk(d) && In(d, u, true)
    ensures !Holds(d.versions, d.uploads[u].versionId, {Broken})
  {
    var id := d.uploads[u].versionId;
    var i :| 0 <= i < |d.versions| && d.versions[i].id == id && d.versions[i].status in {Completed, Superseded};
    assert forall j | 0 <= j < |d.versions| && d.versions[j].id == id :: j == i;
  }

  lemma {:induction false} CurrentIsHurt(d: Document, u: nat)
    requires Numbered(d) && OneCurrent(d) && In(d, u, true) && d.current == Some(d.uploads[u].versionId)
    ensures NoneCurrent(Next(d, FailLate(u, true)))
  {
    var d' := Next(d, FailLate(u, true));
    var id := d.current.value;
    HoldsChanged(d.versions, d'.versions, id, {Completed}, {Broken});
  }

  lemma {:induction false} LateFailureKeepsInv(d: Document, u: nat, recorded: bool, hurt: bool)
    requires Inv(d, hurt)
    ensures Inv(Next(d, FailLate(u, recorded)), HurtAfter(d, FailLate(u, recorded), hurt))
  {
    hide OneCurrent;
    hide NoneCurrent;
    hide UploadsOk;
    var d' := Next(d, FailLate(u, recorded));
    if In(d, u, true) {
      assert d.versions != [] && d'.current == d.current;
      if recorded {
        LateFailureOfUpload(d, u, hurt);
      } else {
        SameVersions(d, d', u);
      }
    }
  }

  lemma {:induction false} SameVersions(d: Document, d': Document, u: nat)
    requires UploadsOk(d) && u in d.uploads && d' == d.(uploads := d.uploads[u := Ended])
    ensures UploadsOk(d') && (OneCurrent(d') <==> OneCurrent(d)) && (NoneCurrent(d') <==> NoneCurrent(d))
  {
  }

  lemma {:induction false} LateFailureOfUpload(d: Document, u: nat, hurt: bool)
    requires Inv(d, hurt) && In(d, u, true)
    ensures UploadsOk(Next(d, FailLate(u, true)))
    ensures if HurtAfter(d, FailLate(u, true), hurt) then NoneCurrent(Next(d, FailLate(u, true)))
            else OneCurrent(Next(d, FailLate(u, true)))
  {
    hide UploadsOk;
    hide OneCurrent;
    hide NoneCurrent;
    hide Holds;
    FailKeepsUploads(d, Next(d, FailLate(u, true)), u);
    if d.current == Some(d.uploads[u].versionId) {
      ActivatedIsNotHurt(d, u);
      if hurt {
        HurtRefersToBroken(d, hurt);
      }
      CurrentIsHurt(d, u);
    } else {
      CurrentIsKnown(d, hurt);
      OtherIsHurt(d, Next(d, FailLate(u, true)), d.uploads[u].versionId, hurt);
    }
  }

  lemma {:induction false} HurtRefersToBroken(d: Document, hurt: bool)
    requires Inv(d, hurt) && hurt
    ensures d.current.Some? && Holds(d.versions, d.current.value, {Broken})
  {
  }

  lemma {:induction false} CurrentIsKnown(d: Document, hurt: bool)
    requires Inv(d, hurt) && d.versions != []
    ensures d.current.Some?
  {
  }

  lemma {:induction false} NextKeepsInv(d: Document, e: Event, hurt: bool)
    requires Inv(d, hurt)
    ensures Inv(Next(d, e), HurtAfter(d, e, hurt))
  {
    match e {
      case FirstIngest(succeeds) =>
        assert Next(d, e) != d ==> Next(d, e).versions[0].status == Completed;
      case Reserve(u) => ReserveKeepsInv(d, u, hurt);
      case Activate(u) =>
        if In(d, u, false) { ActivateKeepsInv(d, u, hurt); }
      case Fail(u, recorded) => FailKeepsInv(d, u, recorded, hurt);
      case Return(_) =>
      case FailLate(u, recorded) => LateFailureKeepsInv(d, u, recorded, hurt);
    }
  }

  lemma {:induction false} RunKeepsInv(d: Document, events: seq<Event>, hurt: bool)
    requires Inv(d, hurt)
    ensures Inv(Run(d, events), Hurt(d, events, hurt))
    decreases |events|
  {
    hide Inv;
    hide HurtAfter;
    if events != [] {
      NextKeepsInv(d, events[0], hurt);
      RunKeepsInv(Next(d, events[0]), events[1..], HurtAfter(d, events[0], hurt));
    }
  }

  // ---------- what holds over every run ----------

  /** Whatever uploads interleave and fail, numbers stay 1..n and the document refers to the
      version activated last.  That version is the one current by flag and by status, unless a
      recorded error behind its activating commit hurt it and no other was activated since:
      exactly then no version is current. */
  lemma {:induction false} OneVersionIsCurrentIff(events: seq<Event>)
    ensures var d := Run(Absent(), events);
            && Numbered(d)
            && d.current == d.lastActivated
            && (d.versions != [] ==> (OneCurrent(d) <==> !Hurt(Absent(), events, false)))
            && (d.versions != [] ==> (NoneCurrent(d) <==> Hurt(Absent(), events, false)))
  {
    RunKeepsInv(Absent(), events, false);
    var d := Run(Absent(), events);
    if d.versions != [] && OneCurrent(d) {
      var i :| 0 <= i < |d.versions| && d.versions[i].id == d.current.value && d.versions[i].status in {Completed};
    }
  }

  lemma {:induction false} NotHurt(d: Document, events: seq<Event>)
    requires forall e | e in events :: !e.FailLate?
    ensures !Hurt(d, events, false)
    decreases |events|
  {
    if events != [] {
      assert events[0] in events;
      NotHurt(Next(d, events[0]), events[1..]);
    }
  }

  /** So without errors behind the activating commit there is always exactly one. */
  lemma {:induction false} OneVersionIsCurrent(events: seq<Event>)
    requires forall e | e in events :: !e.FailLate?
    ensures Run(Absent(), events).versions != [] ==> OneCurrent(Run(Absent(), events))
  {
    OneVersionIsCurrentIff(events);
    NotHurt(Absent(), events);
  }

  /** A failing upload never changes which version is current, nor any other version. */
  lemma {:induction false} FailureKeepsCurrent(events: seq<Event>, upload: nat, recorded: bool)
    ensures var d := Run(Absent(), events);
            var d' := Next(d, Fail(upload, recorded));
            && d'.current == d.current
            && |d'.versions| == |d.versions|
            && forall i | 0 <= i < |d.versions| ::
                 && d'.versions[i].isCurrent == d.versions[i].isCurrent
                 && (d'.versions[i] == d.versions[i]
                     || (In(d, upload, false) && d.versions[i].id == d.uploads[upload].versionId))
  {
    RunKeepsInv(Absent(), events, false);
    var d := Run(Absent(), events);
    if In(d, upload, false) {
      var i :| 0 <= i < |d.versions| && d.versions[i].id == d.uploads[upload].versionId && d.versions[i].status in {Processing};
    }
  }

  /** After an error behind the activating commit a version is current if and only if one was
      before and the failure was not recorded or another upload was activated meanwhile. */
  lemma {:induction false} LateFailureIsHarmlessIff(events: seq<Event>, upload: nat, recorded: bool)
    requires In(Run(Absent(), events), upload, true)
    ensures var d := Run(Absent(), events);
            OneCurrent(Next(d, FailLate(upload, recorded)))
            <==> OneCurrent(d) && (!recorded || d.current != Some(d.uploads[upload].versionId))
  {
    RunKeepsInv(Absent(), events, false);
    var d, hurt := Run(Absent(), events), Hurt(Absent(), events, false);
    var d' := Next(d, FailLate(upload, recorded));
    LateFailureKeepsInv(d, upload, recorded, hurt);
    if OneCurrent(d) {
      var i :| 0 <= i < |d.versions| && d.versions[i].id == d.current.value && d.versions[i].status in {Completed};
    }
    if OneCurrent(d') {
      var i :| 0 <= i < |d'.versions| && d'.versions[i].id == d'.current.value && d'.versions[i].status in {Completed};
    }
  }

  /** One update whose activating commit is followed by an error: the document refers to the
      failed version, and the one before it is superseded. */
  lemma {:induction false} LateFailureLeavesNoneCurrent()
    ensures var d := Run(Absent(), [FirstIngest(true), Reserve(0), Activate(0), FailLate(0, true)]);
            && d.versions == [Version(0, 1, Superseded, false), Version(1, 2, Broken, false)]
            && d.current == Some(1)
  {
    var d0 := Next(Absent(), FirstIngest(true));
    var d1 := Next(d0, Reserve(0));
    var d2 := Next(d1, Activate(0));
    var d3 := Next(d2, FailLate(0, true));
    NextNumberIsCount(d0.versions, 0);
    assert d1.versions == [Version(0, 1, Completed, true), Version(1, 2, Processing, false)];
    assert d2.versions == [Version(0, 1, Superseded, false), Version(1, 2, Completed, true)];
    assert Run(d3, []) == d3;
    assert Run(d2, [FailLate(0, true)]) == d3;
    assert Run(d1, [Activate(0), FailLate(0, true)]) == d3;
    assert Run(d0, [Reserve(0), Activate(0), FailLate(0, true)]) == d3;
  }

  /** Reserving is not activating: the current version can have a lower number than one
      that was current before it. */
  lemma {:induction false} LowerNumberCanBeCurrent()
    ensures var d := Run(Absent(), [FirstIngest(true), Reserve(0), Reserve(1), Activate(1), Activate(0)]);
            && |d.versions| == 3
            && d.versions[1].isCurrent && d.versions[1].number == 2
            && d.versions[2].status == Superseded && d.versions[2].number == 3
  {
    var d0 := Next(Absent(), FirstIngest(true));
    var d1 := Next(d0, Reserve(0));
    var d2 := Next(d1, Reserve(1));
    var d3 := Next(d2, Activate(1));
    var d4 := Next(d3, Activate(0));
    NextNumberIsCount(d0.versions, 0);
    NextNumberIsCount(d1.versions, 0);
    assert d1.versions == [Version(0, 1, Completed, true), Version(1, 2, Processing, false)];
    assert d2.versions == d1.versions + [Version(2, 3, Processing, false)];
    assert d3.versions[2].status == Completed;
    assert Run(d4, []) == d4;
    assert Run(d3, [Activate(0)]) == d4;
    assert Run(d2, [Activate(1), Activate(0)]) == d4;
    assert Run(d1, [Reserve(1), Activate(1), Activate(0)]) == d4;
    assert Run(d0, [Reserve(0), Reserve(1), Activate(1), Activate(0)]) == d4;
  }

  // ---------- the rows themselves ----------

  /** The rows of one document, updated in place by the transactions. */
  class DocumentRows {
    var versions: seq<Version>
    var current: Option<nat>
    var uploads: map<nat, Upload>
    var nextId: nat
    var lastActivated: Option<nat>

    function Value(): Document
      reads this
    {
      Document(versions, current, uploads, nextId, lastActivated)
    }

    constructor ()
      ensures Value() == Absent()
    {
      versions, current, uploads, nextId, lastActivated := [], None, map[], 0, None;
    }

    /** First transaction of an upload. */
    method ReserveVersion(upload: nat)
      modifies this
      ensures Value() == Next(old(Value()), Reserve(upload))
    {
      if versions == [] || upload in uploads {
        return;
      }
      var version := Version(nextId, NextNumber(versions), Processing, false);
      nextId := nextId + 1;
      versions := versions + [version];
      uploads := uploads[upload := Reserved(version.id)];
    }

    /** Second transaction: demote every historical version, then promote this one. */
    method ActivateVersion(upload: nat)
      modifies this
      ensures Value() == Next(old(Value()), Activate(upload))
    {
      if !In(Value(), upload, false) {
        return;
      }
      var id := uploads[upload].versionId;
      for i := 0 to |versions|
        invariant |versions| == |old(versions)|
        invariant forall j | 0 <= j < i :: versions[j] == Activation(old(versions)[j], id)
        invariant forall j | i <= j < |versions| :: versions[j] == old(versions)[j]
        invariant current == old(current) && uploads == old(uploads) && nextId == old(nextId)
      {
        var row := versions[i];
        if row.id != id {
          row := row.(isCurrent := false);
          if row.status == Completed {
            row := row.(status := Superseded);
          }
        } else {
          row := row.(isCurrent := true);
          row := row.(status := Completed);
        }
        versions := versions[i := row];
      }
      current := Some(id);
      lastActivated := Some(id);
      uploads := uploads[upload := Activated(id)];
    }

    /** The except branch, before or behind the activating commit. */
    method RecordFailure(upload: nat, recorded: bool)
      modifies this
      ensures Value() == Next(old(Value()), if In(old(Value()), upload, true) then FailLate(upload, recorded)
                                            else Fail(upload, recorded))
    {
      if !In(Value(), upload, false) && !In(Value(), upload, true) {
        return;
      }
      var id := uploads[upload].versionId;
      if recorded {
        for i := 0 to |versions|
          invariant |versions| == |old(versions)|
          invariant forall j | 0 <= j < i :: versions[j] == FailIn(old(versions), id)[j]
          invariant forall j | i <= j < |versions| :: versions[j] == old(versions)[j]
          invariant unchanged(`current, `uploads, `nextId, `lastActivated)
        {
          if versions[i].id == id {
            versions := versions[i := versions[i].(status := Broken, isCurrent := false)];
          }
        }
      }
      uploads := uploads[upload := Ended];
    }
  }
}
