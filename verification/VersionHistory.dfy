/** The status of every version, told from what happened to its upload. */
module VersionHistory {
  import opened Wrappers
  import opened DocumentVersions

  /** An event records a failure of the upload of this version. */
  predicate Breaks(d: Document, e: Event, id: nat) {
    || (e.Fail? && e.recorded && In(d, e.upload, false) && d.uploads[e.upload].versionId == id)
    || (e.FailLate? && e.recorded && In(d, e.upload, true) && d.uploads[e.upload].versionId == id)
  }

  /** An event makes this version the current one: the upload that commits, or the first ingestion. */
  predicate Promotes(d: Document, e: Event, id: nat) {
    || (e.Activate? && In(d, e.upload, false) && d.uploads[e.upload].versionId == id)
    || (e.FirstIngest? && e.succeeds && d.versions == [] && id == d.nextId)
  }

  predicate EverBroken(d: Document, events: seq<Event>, id: nat)
    decreases |events|
  {
    events != [] && (Breaks(d, events[0], id) || EverBroken(Next(d, events[0]), events[1..], id))
  }

  predicate EverPromoted(d: Document, events: seq<Event>, id: nat)
    decreases |events|
  {
    events != [] && (Promotes(d, events[0], id) || EverPromoted(Next(d, events[0]), events[1..], id))
  }

  // ---------- one event ----------

  /** Versions keep their place and identity, and new ones have new identities. */
  ghost predicate Continues(d: Document, d': Document) {
    && |d.versions| <= |d'.versions| && d.nextId <= d'.nextId
    && (forall i | 0 <= i < |d.versions| ::
          d'.versions[i].id == d.versions[i].id && d'.versions[i].number == d.versions[i].number)
    && (forall i | |d.versions| <= i < |d'.versions| :: d'.versions[i].id >= d.nextId)
  }

  lemma {:induction false} NextContinues(d: Document, e: Event)
    ensures Continues(d, Next(d, e))
  {
    hide NextNumber;
  }

  lemma {:induction false} UploadsVersion(d: Document, u: nat, hurt: bool, i: nat)
    requires Inv(d, hurt) && u in d.uploads && !d.uploads[u].Ended?
    requires i < |d.versions| && d.versions[i].id == d.uploads[u].versionId
    ensures d.versions[i].status in Allowed(d.uploads[u])
  {
    hide OneCurrent;
    hide NoneCurrent;
    var j :| 0 <= j < |d.versions| && d.versions[j].id == d.uploads[u].versionId && d.versions[j].status in Allowed(d.uploads[u]);
    assert i == j;
  }

  lemma {:induction false} UploadsAreOlder(d: Document, u: nat, hurt: bool)
    requires Inv(d, hurt) && u in d.uploads && !d.uploads[u].Ended?
    ensures d.uploads[u].versionId < d.nextId
  {
    hide OneCurrent;
    hide NoneCurrent;
    assert Holds(d.versions, d.uploads[u].versionId, Allowed(d.uploads[u]));
  }

  /** How an event changes the status of a version that exists. */
  lemma {:induction false} StepStatus(d: Document, e: Event, hurt: bool, i: nat)
    requires Inv(d, hurt) && i < |d.versions|
    ensures var id, before, after := d.versions[i].id, d.versions[i].status, Next(d, e).versions[i].status;
            && (after == Broken <==> before == Broken || Breaks(d, e, id))
            && (after == Processing <==> before == Processing && !Breaks(d, e, id) && !Promotes(d, e, id))
            && (Breaks(d, e, id) ==> !Next(d, e).versions[i].isCurrent && !Promotes(d, e, id))
  {
    hide Inv;
    hide NextNumber;
    if e.Activate? && In(d, e.upload, false) && d.uploads[e.upload].versionId == d.versions[i].id {
      UploadsVersion(d, e.upload, hurt, i);
    }
    if e.Fail? && In(d, e.upload, false) && d.uploads[e.upload].versionId == d.versions[i].id {
      UploadsVersion(d, e.upload, hurt, i);
    }
  }

  lemma {:induction false} NewStatus(d: Document, e: Event, i: nat)
    requires |d.versions| <= i < |Next(d, e).versions|
    ensures var v := Next(d, e).versions[i];
            && v.status == (if Promotes(d, e, v.id) then Completed else Processing)
            && !Breaks(d, e, v.id)
            && v.id == d.nextId && i == |d.versions|
  {
    hide NextNumber;
  }

  lemma {:induction false} NothingBefore(d: Document, e: Event, hurt: bool, id: nat)
    requires Inv(d, hurt) && id >= Next(d, e).nextId
    ensures !Breaks(d, e, id) && !Promotes(d, e, id)
  {
    hide Inv;
    hide NextNumber;
    if (e.Activate? || e.Fail? || e.FailLate?) && e.upload in d.uploads && !d.uploads[e.upload].Ended? {
      UploadsAreOlder(d, e.upload, hurt);
    }
  }

  // ---------- whole runs ----------

  lemma {:induction false} RunContinues(d: Document, events: seq<Event>)
    ensures Continues(d, Run(d, events))
    decreases |events|
  {
    hide Next;
    if events != [] {
      NextContinues(d, events[0]);
      RunContinues(Next(d, events[0]), events[1..]);
    }
  }

  /** The status of a version after a run, from what it was before and what happened to it. */
  ghost predicate Tells(d: Document, events: seq<Event>, i: nat, status: Status)
    requires i < |Run(d, events).versions|
  {
    var id := Run(d, events).versions[i].id;
    var broken := EverBroken(d, events, id) || (i < |d.versions| && d.versions[i].status == Broken);
    var promoted := EverPromoted(d, events, id) || (i < |d.versions| && d.versions[i].status != Processing);
    && (status == Broken <==> broken)
    && (status == Processing <==> !broken && !promoted)
  }

  lemma {:induction false} FirstStepTells(d: Document, e: Event, hurt: bool, rest: seq<Event>, i: nat)
    requires Inv(d, hurt) && i < |Run(Next(d, e), rest).versions|
    requires Tells(Next(d, e), rest, i, Run(Next(d, e), rest).versions[i].status)
    requires Continues(Next(d, e), Run(Next(d, e), rest))
    ensures var v := Run(Next(d, e), rest).versions[i];
            var broken := Breaks(d, e, v.id) || EverBroken(Next(d, e), rest, v.id)
                          || (i < |d.versions| && d.versions[i].status == Broken);
            var promoted := Promotes(d, e, v.id) || EverPromoted(Next(d, e), rest, v.id)
                            || (i < |d.versions| && d.versions[i].status != Processing);
            && (v.status == Broken <==> broken)
            && (v.status == Processing <==> !broken && !promoted)
  {
    hide Inv;
    hide Next;
    hide Run;
    hide Breaks;
    hide Promotes;
    var d' := Next(d, e);
    NextContinues(d, e);
    if i < |d.versions| {
      StepStatus(d, e, hurt, i);
    } else if i < |d'.versions| {
      NewStatus(d, e, i);
    } else {
      NothingBefore(d, e, hurt, Run(d', rest).versions[i].id);
    }
  }

  lemma {:induction false} RunTells(d: Document, events: seq<Event>, hurt: bool, i: nat)
    requires Inv(d, hurt) && i < |Run(d, events).versions|
    ensures Tells(d, events, i, Run(d, events).versions[i].status)
    decreases |events|
  {
    if events != [] {
      var d', rest := Next(d, events[0]), events[1..];
      NextKeepsInv(d, events[0], hurt);
      hide Inv;
      RunTells(d', rest, HurtAfter(d, events[0], hurt), i);
      RunContinues(d', rest);
      FirstStepTells(d, events[0], hurt, rest, i);
      hide Next;
      hide HurtAfter;
    }
  }

  /** Whatever uploads interleave: a version is marked failed if and only if a failure of its upload was
      recorded, before or behind its commit; it is still processing if and only if its upload has
      neither committed nor recorded a failure; and the others have been made current once. */
  lemma {:induction false} StatusTellsHistory(events: seq<Event>, i: nat)
    requires i < |Run(Absent(), events).versions|
    ensures var v := Run(Absent(), events).versions[i];
            var broken, promoted := EverBroken(Absent(), events, v.id), EverPromoted(Absent(), events, v.id);
            && (v.status == Broken <==> broken)
            && (v.status == Processing <==> !broken && !promoted)
            && (v.status in {Completed, Superseded} <==> promoted && !broken)
            && v.number == i + 1
  {
    RunTells(Absent(), events, false, i);
    RunKeepsInv(Absent(), events, false);
    assert Absent().versions == [];
    hide Run;
    hide EverBroken;
    hide EverPromoted;
    hide OneCurrent;
    hide NoneCurrent;
    hide UploadsOk;
  }

  /** And a failure that is recorded leaves its version failed and not current in that very step,
      one that is not recorded leaves every version as it was; the upload is over in both cases. */
  lemma {:induction false} FailureIsRecorded(events: seq<Event>, upload: nat, recorded: bool)
    requires upload in Run(Absent(), events).uploads && !Run(Absent(), events).uploads[upload].Ended?
    ensures var d := Run(Absent(), events);
            var d' := Next(d, if d.uploads[upload].Reserved? then Fail(upload, recorded) else FailLate(upload, recorded));
            && d'.uploads == d.uploads[upload := Ended]
            && |d'.versions| == |d.versions|
            && forall i | 0 <= i < |d.versions| ::
                 if recorded && d.versions[i].id == d.uploads[upload].versionId
                 then d'.versions[i].status == Broken && !d'.versions[i].isCurrent && d'.versions[i].number == i + 1
                 else d'.versions[i] == d.versions[i]
  {
    RunKeepsInv(Absent(), events, false);
    hide Run;
  }
}
