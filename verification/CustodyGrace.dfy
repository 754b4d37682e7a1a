/** The grace period of a destruction: what is scheduled happens when it is due, and not before. */
module CustodyGrace {
  import opened Common
  import opened Documents
  import opened Paths
  import opened Store
  import opened Custody
  import opened Records
  import opened CustodyInvariant
  import opened CustodyRoles
  import opened CustodyAdmin
  import opened CustodyMachine
  import opened CustodySteps
  import opened CustodyRuns
  import opened CustodyService

  // ---------- tombstones stay ----------

  lemma SealSpares(c: Config, w: World, r: SealRequest, from: string, id: string)
    requires (r.staged.Some? ==> r.staged == Some(StagingPath(from))) && TombstonePath(id) in w.files
    ensures TombstonePath(id) in SealDocument(c, w, r).0.files
  {
    StagingIsNoTomb(from, id);
    hide Append, StagingPath, TombstonePath, Exists, ParentBlocked, RelPathFor;
  }

  lemma AdmitSpares(c: Config, w: World, subId: string, actor: string, newId: string, stamp: Option<string>, id: string)
    requires TombstonePath(id) in w.files
    ensures TombstonePath(id) in Admit(c, w, subId, actor, newId, stamp).0.files
  {
    hide SealDocument, Append, StagingPath, TombstonePath;
    var i := SubIndex(w.db.submissions, subId);
    if i < |w.db.submissions| && StagingPath(w.db.submissions[i].stagingPath) in w.files {
      var sub := w.db.submissions[i];
      var r := AdmitRequest(c, w, sub, actor, newId, stamp);
      StagingIsNoTomb(sub.stagingPath, id);
      SealSpares(c, Reviewed(c, w, sub, r), r, sub.stagingPath, id);
    }
  }

  lemma RejectSpares(c: Config, w: World, subId: string, reason: string, actor: string, id: string)
    requires TombstonePath(id) in w.files
    ensures TombstonePath(id) in Reject(c, w, subId, reason, actor).0.files
  {
    hide Append, StagingPath, TombstonePath;
    var i := SubIndex(w.db.submissions, subId);
    if i < |w.db.submissions| { StagingIsNoTomb(w.db.submissions[i].stagingPath, id); }
  }

  lemma UploadSpares(
      c: Config, w: World, deviceId: string, envelope: Option<Envelope>, content: bytes, subId: string, at: string,
      id: string)
    requires TombstonePath(id) in w.files
    ensures TombstonePath(id) in Upload(c, w, deviceId, envelope, content, subId, at).0.files
  {
    StagingIsNoTomb(IncomingName(c.sha256(content)), id);
    hide Append, StagingPath, TombstonePath, IncomingName, FromDirName, ParentBlocked;
  }

  /** No step removes a tombstone. */
  lemma TombstonesStay(c: Config, m: Moment, step: Step, id: string)
    requires Inv(c, m.o.w) && TombstonePath(id) in m.o.w.files
    ensures TombstonePath(id) in Act(c, m, step).o.w.files
  {
    hide Inv, Admit, Reject, Upload;
    assert |TombstonePath(id)| == 2;
    hide TombstonePath;
    match step {
      case Admitting(subId, actor, newId, stamp) => AdmitSpares(c, m.o.w, subId, actor, newId, stamp, id);
      case Rejecting(subId, reason, actor) => RejectSpares(c, m.o.w, subId, reason, actor, id);
      case Uploading(deviceId, envelope, content, subId, at) =>
        UploadSpares(c, m.o.w, deviceId, envelope, content, subId, at, id);
      case _ =>
        hide Act;
        if step.Renaming? || step.Moving? || step.Trashing? || step.Restoring? || step.Editing? || step.Viewing? {
          RoleStepSpares(c, m, step, TombstonePath(id));
        } else {
          RemovalStepSpares(c, m, step, TombstonePath(id));
        }
    }
  }

  // ---------- schedules stay ----------

  /** The destruction of this document is scheduled for then, or it was destroyed. */
  predicate Scheduled(m: Moment, id: string, due: nat) {
    (id in m.o.pending && m.o.pending[id] == due) || TombstonePath(id) in m.o.w.files
  }

  /** Is the destruction of this document scheduled anew? */
  predicate Reschedules(m: Moment, step: Step, id: string) {
    step.Destroying? && step.id == id && step.pins && step.grace > 0 && HasId(m.o.w.db.documents, id)
  }

  /** What is destroyed has a tombstone. */
  lemma {:induction false} DestroyedAreBuried(c: Config, o: Office, due: seq<Document>, text: bytes, actor: string, k: nat)
    requires k < |due| && DestroyAll(c, o, due, text, actor).1.Ok?
    requires forall j :: 0 <= j < |due| ==> |due[j].relPath| == 3
    ensures TombstonePath(due[k].vaultId) in DestroyAll(c, o, due, text, actor).0.w.files
    decreases |due|
  {
    hide ExecuteDestruction, TombstonePath;
    var (w, r) := ExecuteDestruction(c, o.w, due[0], text, "grace period expired", actor);
    var o1 := Office(w, o.pending - {due[0].vaultId});
    ExecutionBuries(c, o.w, due[0], text, "grace period expired", actor);
    if k == 0 {
      DestructionsSpare(c, o1, due[1..], text, actor, TombstonePath(due[0].vaultId));
    } else {
      DestroyedAreBuried(c, o1, due[1..], text, actor, k - 1);
    }
  }

  lemma ExecutionBuries(c: Config, w: World, doc: Document, text: bytes, reason: string, actor: string)
    ensures |TombstonePath(doc.vaultId)| == 2
    ensures ExecuteDestruction(c, w, doc, text, reason, actor).1.Ok? ==>
              TombstonePath(doc.vaultId) in ExecuteDestruction(c, w, doc, text, reason, actor).0.files
  {
    hide Append, Exists, ParentBlocked;
  }

  lemma DueAreBuried(c: Config, o: Office, order: seq<string>, now: nat, text: bytes, actor: string, id: string)
    requires Inv(c, o.w) && Enumerates(order, DueIds(o, now)) && id in DueIds(o, now)
    requires forall k :: 0 <= k < |order| ==> HasId(o.w.db.documents, order[k])
    ensures TombstonePath(id) in ProcessDue(c, o, order, text, actor).0.w.files
  {
    hide Inv, DueIds, DestroyAll, TombstonePath, Steady, SameShelves, SameBooks, Left;
    var (o', answer) := ProcessDue(c, o, order, text, actor);
    ProcessDueKeepsInv(c, o, order, now, text, actor, o', answer);
    ActiveHasThreeParts(c, o.w);
    var k :| 0 <= k < |order| && order[k] == id;
    DestroyedAreBuried(c, o, DocsOf(o.w.db.documents, order), text, actor, k);
  }

  lemma StaysScheduled(c: Config, m: Moment, step: Step, id: string, due: nat)
    requires MomentInv(c, m) && Enabled(c, m, step) && Scheduled(m, id, due)
    requires !step.Restarting? && !Reschedules(m, step, id)
    ensures Scheduled(Perform(c, m, step), id, due)
  {
    hide Inv, SealsAre, SubsGood, Behind, Flushes, TombstonePath, DueIds, Enumerates, Rename, MoveToCategory, SoftDelete,
      Restore, EditMeta, View, Admit, Import, Reject, Upload, ProcessDue, Purge, Fresh;
    if TombstonePath(id) in m.o.w.files {
      TombstonesStay(c, m, step, id);
      hide Act;
    } else {
      match step {
        case Destroying(id', pins, grace, now, text, reason, actor) => hide ExecuteDestruction, Append;
        case ProcessingDue(order, now, text, actor) => DueStaysScheduled(c, m.o, order, now, text, actor, id);
        case _ =>
      }
    }
  }

  lemma DueStaysScheduled(c: Config, o: Office, order: seq<string>, now: nat, text: bytes, actor: string, id: string)
    requires Inv(c, o.w) && Enumerates(order, DueIds(o, now)) && id in o.pending
    ensures forall k :: 0 <= k < |order| ==> HasId(o.w.db.documents, order[k])
    ensures var o' := ProcessDue(c, o, order, text, actor).0;
            TombstonePath(id) in o'.w.files || (id in o'.pending && o'.pending[id] == o.pending[id])
  {
    DueAreActive(o, order, now);
    hide Inv, DestroyAll, TombstonePath, Steady, SameShelves, SameBooks, Left, Enumerates, DueIds;
    var (o', answer) := ProcessDue(c, o, order, text, actor);
    ProcessDueKeepsInv(c, o, order, now, text, actor, o', answer);
    if id in DueIds(o, now) { DueAreBuried(c, o, order, now, text, actor, id); }
  }

  lemma {:induction false} RunStaysScheduled(c: Config, ms: seq<Moment>, steps: seq<Step>, i: nat, j: nat, id: string, due: nat)
    requires Run(c, ms, steps) && i <= j <= |steps| && Scheduled(ms[i], id, due)
    requires forall k :: i <= k < j ==> !steps[k].Restarting? && !Reschedules(ms[k], steps[k], id)
    ensures Scheduled(ms[j], id, due)
    decreases j
  {
    hide Enabled, MomentInv, Scheduled, Reschedules, Perform;
    if i < j {
      RunStaysScheduled(c, ms, steps, i, j - 1, id, due);
      RunKeepsInv(c, ms, steps, j - 1);
      assert ms[j - 1 + 1] == Perform(c, ms[j - 1], steps[j - 1]);
      StaysScheduled(c, ms[j - 1], steps[j - 1], id, due);
    }
  }

  // ---------- the promise ----------

  lemma DestroyingSchedules(c: Config, m: Moment, step: Step)
    requires step.Destroying? && step.pins && step.grace > 0 && HasId(m.o.w.db.documents, step.id)
    ensures Scheduled(Perform(c, m, step), step.id, step.now + step.grace)
  {
    hide Flushes, ExecuteDestruction, Append, TombstonePath;
  }

  lemma ActiveIsNotBuried(c: Config, w: World, id: string)
    requires Inv(c, w) && HasId(w.db.documents, id)
    ensures TombstonePath(id) !in w.files
  {
    hide TombstonePath, Agree, NoOrphans, InPlace, Structure, Conserved;
    var i :| 0 <= i < |w.db.documents| && w.db.documents[i].vaultId == id;
    assert id in Live(w.db.audit);
  }

  /** A destruction with a grace period was accepted, and since then neither scheduled anew nor forgotten by a restart. Then a
      walk over what is due leaves the document, if it is still active, exactly as long as the clock has not reached the time
      of the acceptance and the grace period; from then on it destroys it, and leaves its tombstone. */
  lemma GraceIsKept(c: Config, ms: seq<Moment>, steps: seq<Step>, i: nat, j: nat)
    requires Run(c, ms, steps) && i < j < |steps|
    requires steps[i].Destroying? && steps[i].pins && steps[i].grace > 0 && HasId(ms[i].o.w.db.documents, steps[i].id)
    requires forall k :: i < k < j ==> !steps[k].Restarting? && !Reschedules(ms[k], steps[k], steps[i].id)
    requires steps[j].ProcessingDue? && HasId(ms[j].o.w.db.documents, steps[i].id)
    ensures HasId(ms[j + 1].o.w.db.documents, steps[i].id) <==> steps[j].now < steps[i].now + steps[i].grace
    ensures steps[j].now >= steps[i].now + steps[i].grace ==>
              [".tombstones", "tombstone-" + steps[i].id + ".txt"] in ms[j + 1].o.w.files
  {
    var id, due := steps[i].id, steps[i].now + steps[i].grace;
    hide MomentInv, Scheduled, Reschedules;
    assert ms[i + 1] == Perform(c, ms[i], steps[i]) && ms[j + 1] == Perform(c, ms[j], steps[j]);
    assert Enabled(c, ms[j], steps[j]);
    hide Enabled, Perform;
    DestroyingSchedules(c, ms[i], steps[i]);
    RunStaysScheduled(c, ms, steps, i + 1, j, id, due);
    RunKeepsInv(c, ms, steps, j);
    StepDestroys(c, ms[j], steps[j], id, due);
    assert [".tombstones", "tombstone-" + id + ".txt"] == TombstonePath(id);
  }

  lemma DueWhenReached(o: Office, id: string, now: nat)
    requires id in o.pending && HasId(o.w.db.documents, id)
    ensures id in DueIds(o, now) <==> o.pending[id] <= now
  {}

  lemma WalkActs(c: Config, m: Moment, step: Step)
    requires Enabled(c, m, step) && step.ProcessingDue?
    ensures forall k :: 0 <= k < |step.order| ==> HasId(m.o.w.db.documents, step.order[k])
    ensures Perform(c, m, step).o == ProcessDue(c, m.o, step.order, step.text, step.actor).0
  {
    hide Flushes, ProcessDue, HasId;
    DueAreActive(m.o, step.order, step.now);
  }

  lemma WalkDestroys(c: Config, o: Office, order: seq<string>, now: nat, text: bytes, actor: string, id: string)
    requires Inv(c, o.w) && Enumerates(order, DueIds(o, now)) && id in o.pending && HasId(o.w.db.documents, id)
    requires forall k :: 0 <= k < |order| ==> HasId(o.w.db.documents, order[k])
    ensures var o' := ProcessDue(c, o, order, text, actor).0;
            && (HasId(o'.w.db.documents, id) <==> now < o.pending[id])
            && (now >= o.pending[id] ==> TombstonePath(id) in o'.w.files)
  {
    hide Inv, TombstonePath, DueIds, Enumerates, ProcessDue, Steady, SameShelves, SameBooks, HasId;
    DueWhenReached(o, id, now);
    var (o', answer) := ProcessDue(c, o, order, text, actor);
    ProcessDueKeepsInv(c, o, order, now, text, actor, o', answer);
    if id in DueIds(o, now) { DueAreBuried(c, o, order, now, text, actor, id); }
  }

  lemma StepDestroys(c: Config, m: Moment, step: Step, id: string, due: nat)
    requires MomentInv(c, m) && Enabled(c, m, step) && step.ProcessingDue?
    requires Scheduled(m, id, due) && HasId(m.o.w.db.documents, id)
    ensures HasId(Perform(c, m, step).o.w.db.documents, id) <==> step.now < due
    ensures step.now >= due ==> TombstonePath(id) in Perform(c, m, step).o.w.files
  {
    hide Inv, SealsAre, SubsGood, Behind, TombstonePath, DueIds, Enumerates, ProcessDue, HasId, Perform;
    WalkActs(c, m, step);
    ActiveIsNotBuried(c, m.o.w, id);
    WalkDestroys(c, m.o, step.order, step.now, step.text, step.actor, id);
  }
}
