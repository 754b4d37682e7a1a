/** No change without a trace: every step but a purge and a restart changes the database only together with entries under
    the name of whoever acts; and what is traced is flushed, but for admissions. */
module CustodyTrace {
  import opened Common
  import opened Text
  import opened Documents
  import opened Paths
  import opened Store
  import opened Custody
  import opened CustodyInvariant
  import opened CustodyRoles
  import opened CustodyAdmin
  import opened Sweep
  import opened CustodyMachine

  /** The log is extended by entries of this actor, and where it is not extended nothing changed. */
  ghost predicate Traced(a: DbState, b: DbState, actor: string) {
    && a.audit <= b.audit
    && (forall k :: |a.audit| <= k < |b.audit| ==> b.audit[k].actor == actor)
    && (|b.audit| == |a.audit| ==> b == a)
  }

  lemma NothingIsTraced(a: DbState, actor: string)
    ensures Traced(a, a, actor)
  {}

  /** Any change is traced by an entry at its end. */
  lemma EntryTraces(ink: Ink, a: DbState, b: DbState, actor: string, action: string, subject: string, detail: Detail)
    requires a.audit == b.audit
    ensures Traced(a, Noted(ink, b, actor, action, subject, detail), actor)
    ensures |Noted(ink, b, actor, action, subject, detail).audit| > |a.audit|
  {}

  lemma TracedIsTransitive(a: DbState, b: DbState, d: DbState, actor: string)
    requires Traced(a, b, actor) && Traced(b, d, actor)
    ensures Traced(a, d, actor)
  {
    forall k | |a.audit| <= k < |d.audit|
      ensures d.audit[k].actor == actor
    {
      if k < |b.audit| { assert d.audit[k] == b.audit[k]; }
    }
  }

  /** What follows an entry is traced by it. */
  lemma TracedBefore(a: DbState, b: DbState, d: DbState, actor: string)
    requires Traced(a, b, actor) && |b.audit| > |a.audit| && d.audit == b.audit
    ensures Traced(a, d, actor)
  {}

  // ---------- the steps ----------

  function ActorOf(step: Step): string
    requires !step.Purging? && !step.Restarting?
  {
    match step
    case Renaming(s, _, _, _) => s.username
    case Moving(s, _, _, _) => s.username
    case Trashing(s, _, _, _) => s.username
    case Restoring(s, _) => s.username
    case Editing(s, _, _, _) => s.username
    case Viewing(s, _) => s.username
    case Admitting(_, actor, _, _) => actor
    case Importing(s, _, _, _, _) => s.username
    case Rejecting(_, _, actor) => actor
    case Uploading(deviceId, _, _, _, _) => deviceId
    case Destroying(_, _, _, _, _, _, actor) => actor
    case ProcessingDue(_, _, _, actor) => actor
    case SweepingAll => "vault-audit"
    case Recording(actor, _, _, _) => actor
  }

  lemma MoveDocumentIsTraced(
      c: Config, w: World, doc: Document, moved: Document, actor: string, action: string, accepts: bool)
    ensures Traced(w.db, MoveDocument(c, w, doc, moved, actor, action, accepts).0.db, actor)
  {
    hide Append, Traced, Exists, ParentBlocked;
    NothingIsTraced(w.db, actor);
    EntryTraces(c.ink, w.db, w.db.(documents := Updated(w.db.documents, moved)), actor, action, doc.sha256,
                Relocated(doc.vaultId, doc.relPath, moved.relPath));
  }

  lemma RenameIsTraced(c: Config, s: Session, w: World, id: string, newName: string, accepts: bool)
    ensures Traced(w.db, Rename(c, false, s, w, id, newName, accepts).0.db, s.username)
  {
    hide MoveDocument, Traced;
    NothingIsTraced(w.db, s.username);
    var i := DocIndex(w.db.documents, id);
    if i < |w.db.documents| {
      var doc := w.db.documents[i];
      var path := ReplaceLast(doc.relPath, Trim(newName));
      MoveDocumentIsTraced(c, w, doc, doc.(relPath := path, meta := doc.meta.(fileName := Trim(newName))), s.username,
                           "rename", accepts);
    }
  }

  /** This one rests on the invariant: the branch that changes the category without an entry is not taken. */
  lemma MoveIsTraced(c: Config, s: Session, w: World, id: string, category: Category, accepts: bool)
    requires Inv(c, w)
    ensures Traced(w.db, MoveToCategory(c, false, s, w, id, category, accepts).0.db, s.username)
  {
    hide MoveDocument, Traced, Inv, RelPathFor;
    NothingIsTraced(w.db, s.username);
    var i := DocIndex(w.db.documents, id);
    if i < |w.db.documents| && w.db.documents[i].meta.category != category {
      var doc := w.db.documents[i];
      var path := RelPathFor(c.alnum, doc.meta.author, category, doc.meta.fileName);
      MoveChangesThePath(c, w, i, category);
      MoveDocumentIsTraced(c, w, doc, doc.(relPath := path, meta := doc.meta.(category := category)), s.username, "move",
                           accepts);
    }
  }

  lemma RoleStepIsTraced(c: Config, m: Moment, step: Step)
    requires Inv(c, m.o.w)
    requires step.Renaming? || step.Moving? || step.Trashing? || step.Restoring? || step.Editing? || step.Viewing?
    ensures Traced(m.o.w.db, Act(c, m, step).o.w.db, ActorOf(step))
  {
    hide Inv, Rename, MoveToCategory, CopySealed, Append, VersionOf;
    var w := m.o.w;
    match step {
      case Renaming(s, id, newName, accepts) => RenameIsTraced(c, s, w, id, newName, accepts);
      case Moving(s, id, category, accepts) => MoveIsTraced(c, s, w, id, category, accepts);
      case Trashing(s, id, reason, at) => SoftDeleteIsTraced(c, s, w, id, reason, at);
      case Restoring(s, id) => RestoreIsTraced(c, s, w, id);
      case Editing(s, id, edit, at) => EditIsTraced(c, s, w, id, edit, at);
      case Viewing(s, id) => ViewIsTraced(c, s, w, id);
    }
  }

  lemma SoftDeleteIsTraced(c: Config, s: Session, w: World, id: string, reason: string, at: string)
    ensures Traced(w.db, SoftDelete(c, false, s, w, id, reason, at).0.db, s.username)
  {}

  lemma RestoreIsTraced(c: Config, s: Session, w: World, id: string)
    ensures Traced(w.db, Restore(c, false, s, w, id).0.db, s.username)
  {}

  lemma EditIsTraced(c: Config, s: Session, w: World, id: string, e: Edit, at: string)
    ensures Traced(w.db, EditMeta(c, false, s, w, id, e, at).0.db, s.username)
  {
    hide CopySealed;
  }

  lemma ViewIsTraced(c: Config, s: Session, w: World, id: string)
    ensures Traced(w.db, View(c, false, s, w, id).0.db, s.username)
  {}

  lemma SealIsTraced(c: Config, w: World, r: SealRequest)
    ensures Traced(w.db, SealDocument(c, w, r).0.db, r.actor)
    ensures var answer := SealDocument(c, w, r).1;
            answer.Ok? && answer.value.Sealed? ==> |SealDocument(c, w, r).0.db.audit| > |w.db.audit|
  {
    hide Exists, ParentBlocked;
  }

  lemma AdmissionIsTraced(c: Config, w: World, i: nat, r: SealRequest)
    requires i < |w.db.submissions|
    ensures Traced(w.db, Admission(c, w, i, r).0.db, r.actor)
  {
    hide SealDocument, Append, Traced;
    var sub := w.db.submissions[i];
    var w1 := Reviewed(c, w, sub, r);
    NothingIsTraced(w.db, r.actor);
    EntryTraces(c.ink, w.db, w.db, r.actor, "admit_reclassify", sub.sha256, Note(DirName(r.meta.category)));
    var (w2, sealed) := SealDocument(c, w1, r);
    SealIsTraced(c, w1, r);
    SealLeavesSubmissions(c, w1, r);
    TracedIsTransitive(w.db, w1.db, w2.db, r.actor);
    if sealed.Ok? && sealed.value.Duplicate? {
      var db := WithSubState(w2.db, i, Rejected);
      EntryTraces(c.ink, w2.db, db, r.actor, "admit_dup", sub.sha256, Note("duplicate"));
      TracedIsTransitive(w.db, w2.db, Noted(c.ink, db, r.actor, "admit_dup", sub.sha256, Note("duplicate")), r.actor);
    } else if sealed.Ok? {
      LogNeverShrinks(w.db, w1.db, r.actor);
      TracedBefore(w.db, w2.db, WithSubState(w2.db, i, Admitted), r.actor);
    }
  }

  lemma LogNeverShrinks(a: DbState, b: DbState, actor: string)
    requires Traced(a, b, actor)
    ensures |a.audit| <= |b.audit|
  {}

  lemma AdmitIsTraced(c: Config, w: World, subId: string, actor: string, newId: string, stamp: Option<string>)
    ensures Traced(w.db, Admit(c, w, subId, actor, newId, stamp).0.db, actor)
  {
    hide Admission, Append, Traced, StagingPath;
    NothingIsTraced(w.db, actor);
    var i := SubIndex(w.db.submissions, subId);
    if i < |w.db.submissions| {
      var sub := w.db.submissions[i];
      EntryTraces(c.ink, w.db, w.db, actor, "admit_failed", sub.sha256, Note("staging hash"));
      if StagingPath(sub.stagingPath) in w.files {
        AdmissionIsTraced(c, w, i, AdmitRequest(c, w, sub, actor, newId, stamp));
      }
    }
  }

  lemma UploadIsTraced(
      c: Config, w: World, deviceId: string, envelope: Option<Envelope>, content: bytes, subId: string, at: string)
    ensures Traced(w.db, Upload(c, w, deviceId, envelope, content, subId, at).0.db, deviceId)
  {
    hide ParentBlocked, StagingPath, IncomingName, FromDirName;
  }

  lemma RejectIsTraced(c: Config, w: World, subId: string, reason: string, actor: string)
    ensures Traced(w.db, Reject(c, w, subId, reason, actor).0.db, actor)
  {}

  lemma ExecutionIsTraced(c: Config, w: World, doc: Document, text: bytes, reason: string, actor: string)
    ensures Traced(w.db, ExecuteDestruction(c, w, doc, text, reason, actor).0.db, actor)
  {
    hide Exists, ParentBlocked, TombstonePath;
  }

  lemma {:induction false} DestructionsAreTraced(c: Config, o: Office, due: seq<Document>, text: bytes, actor: string)
    ensures Traced(o.w.db, DestroyAll(c, o, due, text, actor).0.w.db, actor)
    decreases |due|
  {
    hide ExecuteDestruction, Traced;
    if due == [] {
      NothingIsTraced(o.w.db, actor);
    } else {
      var (w, r) := ExecuteDestruction(c, o.w, due[0], text, "grace period expired", actor);
      ExecutionIsTraced(c, o.w, due[0], text, "grace period expired", actor);
      if r.Ok? {
        var o1 := Office(w, o.pending - {due[0].vaultId});
        DestructionsAreTraced(c, o1, due[1..], text, actor);
        TracedIsTransitive(o.w.db, w.db, DestroyAll(c, o1, due[1..], text, actor).0.w.db, actor);
      }
    }
  }

  lemma DestroyIsTraced(
      c: Config, o: Office, id: string, pins: bool, grace: nat, now: nat, text: bytes, reason: string, actor: string)
    ensures Traced(o.w.db, Destroy(c, o, id, pins, grace, now, text, reason, actor).0.w.db, actor)
  {
    hide ExecuteDestruction, Append, Traced;
    NothingIsTraced(o.w.db, actor);
    var i := DocIndex(o.w.db.documents, id);
    if i < |o.w.db.documents| {
      var doc := o.w.db.documents[i];
      EntryTraces(c.ink, o.w.db, o.w.db, actor, "destroy_scheduled", doc.sha256, About(id, reason));
      ExecutionIsTraced(c, o.w, doc, text, reason, actor);
    }
  }

  lemma OtherStepIsTraced(c: Config, m: Moment, step: Step)
    requires Inv(c, m.o.w) && !step.Purging? && !step.Restarting?
    requires !(step.Renaming? || step.Moving? || step.Trashing? || step.Restoring? || step.Editing? || step.Viewing?)
    ensures Traced(m.o.w.db, Act(c, m, step).o.w.db, ActorOf(step))
  {
    hide Inv, Admit, SealDocument, Reject, Upload, Destroy, DestroyAll, SweepSpec, Append, Traced;
    var w := m.o.w;
    NothingIsTraced(w.db, ActorOf(step));
    match step {
      case Admitting(subId, actor, newId, stamp) => AdmitIsTraced(c, w, subId, actor, newId, stamp);
      case Importing(s, content, meta, newId, stamp) =>
        var category := c.classify(meta.fileName);
        var k := meta.(author := s.displayName, category := if category.Some? then category.value else MaterialGrafico);
        SealIsTraced(c, w, SealRequest(content, None, k, None, s.username, "import", newId, stamp));
      case Rejecting(subId, reason, actor) => RejectIsTraced(c, w, subId, reason, actor);
      case Uploading(deviceId, envelope, content, subId, at) =>
        UploadIsTraced(c, w, deviceId, envelope, content, subId, at);
      case Destroying(id, pins, grace, now, text, reason, actor) =>
        DestroyIsTraced(c, m.o, id, pins, grace, now, text, reason, actor);
      case ProcessingDue(order, now, text, actor) =>
        if forall i :: 0 <= i < |order| ==> HasId(w.db.documents, order[i]) {
          DestructionsAreTraced(c, m.o, DocsOf(w.db.documents, order), text, actor);
        }
      case SweepingAll =>
        var n := |w.db.documents|;
        UntouchedVaultSweepsClean(c, w);
        EntryTraces(c.ink, w.db, w.db, "vault-audit", "sweep", "vault", Counts(n, n, 0, 0));
      case Recording(actor, action, subject, remark) =>
        EntryTraces(c.ink, w.db, w.db, actor, action, subject, Note(remark));
    }
  }

  lemma PurgeIsSilent(c: Config, m: Moment, step: Step)
    requires Inv(c, m.o.w) && step.Purging?
    ensures Act(c, m, step).o.w.db.audit == m.o.w.db.audit
  {
    hide Inv, Purge;
    PurgeKeepsInv(c, m.o.w, step.id, Purge(m.o.w, step.id).0, Purge(m.o.w, step.id).1);
  }

  /** A step that changes the database flushes it, unless it is an admission: where the log grows there is a flush, and where
      it does not grow there is no change but that of a purge, which flushes too. */
  lemma OnlyAdmissionsSkipTheFlush(c: Config, m: Moment, step: Step)
    requires Inv(c, m.o.w) && !step.Admitting? && !step.Restarting?
    ensures Flushes(c, m, step) || Act(c, m, step).o.w.db == m.o.w.db
  {
    if step.Purging? {
      hide Inv, Purge;
      PurgeKeepsInv(c, m.o.w, step.id, Purge(m.o.w, step.id).0, Purge(m.o.w, step.id).1);
    } else if step.SweepingAll? {
      hide Inv, SweepSpec;
      UntouchedVaultSweepsClean(c, m.o.w);
    } else {
      hide Inv, Act;
      if step.Renaming? || step.Moving? || step.Trashing? || step.Restoring? || step.Editing? || step.Viewing? {
        RoleStepIsTraced(c, m, step);
      } else {
        OtherStepIsTraced(c, m, step);
      }
    }
  }
}
