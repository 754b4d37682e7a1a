/** One content, one active document: sealing sees to it, and a restore is the only step that can break it. */
module CustodyDigests {
  import opened Common
  import opened Text
  import opened Documents
  import opened Store
  import opened Custody
  import opened Paths
  import opened CustodyInvariant
  import opened Sweep
  import opened CustodyMachine
  import opened CustodySteps
  import opened CustodyRuns

  ghost predicate DistinctDigests(docs: seq<Document>) {
    forall i, j :: 0 <= i < j < |docs| ==> docs[i].sha256 != docs[j].sha256
  }

  /** Sealing never makes two active documents with one content. */
  lemma SealKeepsDigestsDistinct(c: Config, w: World, r: SealRequest)
    requires DistinctDigests(w.db.documents)
    ensures DistinctDigests(SealDocument(c, w, r).0.db.documents)
  {
    hide Exists, ParentBlocked, Append;
  }

  /** A restore brings back a document whose content is active; the code does not look for it. */
  predicate RestoresTwin(s: Session, w: World, id: string) {
    var i := TrashIndex(w.db.trashed, id);
    && s.role.CanRestore() && i < |w.db.trashed|
    && exists j :: 0 <= j < |w.db.documents| && w.db.documents[j].sha256 == w.db.trashed[i].document.sha256
  }

  lemma RestoreDigests(c: Config, s: Session, w: World, id: string)
    requires DistinctDigests(w.db.documents)
    ensures DistinctDigests(Restore(c, false, s, w, id).0.db.documents) <==> !RestoresTwin(s, w, id)
  {
    hide Append;
    var docs := w.db.documents;
    var i := TrashIndex(w.db.trashed, id);
    if i == |w.db.trashed| { return; }
    var doc := w.db.trashed[i].document;
    var after := docs + [doc];
    if DistinctDigests(after) {
      forall j | 0 <= j < |docs|
        ensures docs[j].sha256 != doc.sha256
      {
        assert after[j].sha256 != after[|docs|].sha256;
      }
    }
  }

  /** The same digests in the same places. */
  ghost predicate SameDigests(a: seq<Document>, b: seq<Document>) {
    |a| == |b| && forall k :: 0 <= k < |a| ==> a[k].sha256 == b[k].sha256
  }

  lemma MoveDocumentDigests(
      c: Config, w: World, i: nat, moved: Document, actor: string, action: string, accepts: bool)
    requires i < |w.db.documents| && i == DocIndex(w.db.documents, moved.vaultId) && moved.sha256 == w.db.documents[i].sha256
    ensures SameDigests(w.db.documents, MoveDocument(c, w, w.db.documents[i], moved, actor, action, accepts).0.db.documents)
  {
    hide Append, Exists, Relocate;
  }

  lemma RenameDigests(c: Config, s: Session, w: World, id: string, newName: string, accepts: bool)
    ensures SameDigests(w.db.documents, Rename(c, false, s, w, id, newName, accepts).0.db.documents)
  {
    hide MoveDocument;
    var i := DocIndex(w.db.documents, id);
    if i < |w.db.documents| {
      var doc := w.db.documents[i];
      var path := ReplaceLast(doc.relPath, Trim(newName));
      MoveDocumentDigests(c, w, i, doc.(relPath := path, meta := doc.meta.(fileName := Trim(newName))), s.username, "rename",
                          accepts);
    }
  }

  lemma MoveDigests(c: Config, s: Session, w: World, id: string, category: Category, accepts: bool)
    ensures SameDigests(w.db.documents, MoveToCategory(c, false, s, w, id, category, accepts).0.db.documents)
  {
    hide MoveDocument, RelPathFor;
    var i := DocIndex(w.db.documents, id);
    if i < |w.db.documents| {
      var doc := w.db.documents[i];
      var path := RelPathFor(c.alnum, doc.meta.author, category, doc.meta.fileName);
      MoveDocumentDigests(c, w, i, doc.(relPath := path, meta := doc.meta.(category := category)), s.username, "move",
                          accepts);
    }
  }

  lemma EditDigests(c: Config, s: Session, w: World, id: string, e: Edit, at: string)
    ensures SameDigests(w.db.documents, EditMeta(c, false, s, w, id, e, at).0.db.documents)
  {
    hide Append, CopySealed, VersionOf;
  }

  lemma RemovalDigests(docs: seq<Document>, id: string)
    requires DistinctDigests(docs)
    ensures DistinctDigests(Removed(docs, id))
  {
    var i := DocIndex(docs, id);
    if i < |docs| {
      assert forall k :: 0 <= k < |docs| - 1 ==> Without(docs, i)[k] == docs[if k < i then k else k + 1];
    }
  }

  lemma AdmitDigests(c: Config, w: World, subId: string, actor: string, newId: string, stamp: Option<string>)
    requires DistinctDigests(w.db.documents)
    ensures DistinctDigests(Admit(c, w, subId, actor, newId, stamp).0.db.documents)
  {
    hide SealDocument, Append, StagingPath, DistinctDigests;
    var i := SubIndex(w.db.submissions, subId);
    if i < |w.db.submissions| && StagingPath(w.db.submissions[i].stagingPath) in w.files {
      var sub := w.db.submissions[i];
      var r := AdmitRequest(c, w, sub, actor, newId, stamp);
      SealKeepsDigestsDistinct(c, Reviewed(c, w, sub, r), r);
      SealLeavesSubmissions(c, Reviewed(c, w, sub, r), r);
    }
  }

  lemma ImportDigests(
      c: Config, s: Session, w: World, content: bytes, meta: DocumentMeta, newId: string, stamp: Option<string>)
    requires DistinctDigests(w.db.documents)
    ensures DistinctDigests(Import(c, false, s, w, content, meta, newId, stamp).0.db.documents)
  {
    hide SealDocument, DistinctDigests;
    var category := c.classify(meta.fileName);
    var m := meta.(author := s.displayName, category := if category.Some? then category.value else MaterialGrafico);
    SealKeepsDigestsDistinct(c, w, SealRequest(content, None, m, None, s.username, "import", newId, stamp));
  }

  lemma ExecutionDigests(c: Config, w: World, doc: Document, text: bytes, reason: string, actor: string)
    requires DistinctDigests(w.db.documents)
    ensures DistinctDigests(ExecuteDestruction(c, w, doc, text, reason, actor).0.db.documents)
  {
    hide Append, TombstonePath, Exists, ParentBlocked, DistinctDigests;
    RemovalDigests(w.db.documents, doc.vaultId);
  }

  lemma {:induction false} DestructionsDigests(c: Config, o: Office, due: seq<Document>, text: bytes, actor: string)
    requires DistinctDigests(o.w.db.documents)
    ensures DistinctDigests(DestroyAll(c, o, due, text, actor).0.w.db.documents)
    decreases |due|
  {
    hide ExecuteDestruction, DistinctDigests;
    if due != [] {
      var (w, r) := ExecuteDestruction(c, o.w, due[0], text, "grace period expired", actor);
      ExecutionDigests(c, o.w, due[0], text, "grace period expired", actor);
      if r.Ok? { DestructionsDigests(c, Office(w, o.pending - {due[0].vaultId}), due[1..], text, actor); }
    }
  }

  lemma DestroyDigests(
      c: Config, o: Office, id: string, pins: bool, grace: nat, now: nat, text: bytes, reason: string, actor: string)
    requires DistinctDigests(o.w.db.documents)
    ensures DistinctDigests(Destroy(c, o, id, pins, grace, now, text, reason, actor).0.w.db.documents)
  {
    hide Append, ExecuteDestruction, DistinctDigests;
    var i := DocIndex(o.w.db.documents, id);
    if i < |o.w.db.documents| { ExecutionDigests(c, o.w, o.w.db.documents[i], text, reason, actor); }
  }

  /** These operations leave the index alone, or take one document out of it. */
  lemma OtherDigests(c: Config, s: Session, w: World, id: string, reason: string, at: string)
    requires DistinctDigests(w.db.documents)
    ensures DistinctDigests(SoftDelete(c, false, s, w, id, reason, at).0.db.documents)
    ensures View(c, false, s, w, id).0.db.documents == w.db.documents
    ensures Reject(c, w, id, reason, at).0.db.documents == w.db.documents
    ensures Purge(w, id).0.db.documents == w.db.documents
  {
    hide Append, StagingPath, Exists, DistinctDigests;
    RemovalDigests(w.db.documents, id);
  }

  lemma UploadDigests(
      c: Config, w: World, deviceId: string, envelope: Option<Envelope>, content: bytes, subId: string, at: string)
    ensures Upload(c, w, deviceId, envelope, content, subId, at).0.db.documents == w.db.documents
  {
    hide Append, StagingPath, IncomingName, FromDirName, ParentBlocked;
  }

  lemma RoleStepDigests(c: Config, m: Moment, step: Step)
    requires DistinctDigests(m.o.w.db.documents)
    requires step.Renaming? || step.Moving? || step.Trashing? || step.Editing? || step.Viewing?
    ensures DistinctDigests(Act(c, m, step).o.w.db.documents)
  {
    hide Rename, MoveToCategory, EditMeta, SoftDelete, View;
    var w := m.o.w;
    match step {
      case Renaming(s, id, newName, accepts) => RenameDigests(c, s, w, id, newName, accepts);
      case Moving(s, id, category, accepts) => MoveDigests(c, s, w, id, category, accepts);
      case Trashing(s, id, reason, at) => OtherDigests(c, s, w, id, reason, at);
      case Editing(s, id, edit, at) => EditDigests(c, s, w, id, edit, at);
      case Viewing(s, id) => OtherDigests(c, s, w, id, "", "");
    }
  }

  lemma OtherStepDigests(c: Config, m: Moment, step: Step)
    requires DistinctDigests(m.o.w.db.documents) && MomentInv(c, m) && !step.Restoring?
    requires !(step.Renaming? || step.Moving? || step.Trashing? || step.Editing? || step.Viewing?)
    ensures DistinctDigests(Act(c, m, step).o.w.db.documents)
  {
    hide Inv, Admit, Import, Reject, Upload, Destroy, DestroyAll, Purge, SweepSpec, Append, DistinctDigests, SealsAre,
      SubsGood;
    var w := m.o.w;
    match step {
      case Admitting(subId, actor, newId, stamp) => AdmitDigests(c, w, subId, actor, newId, stamp);
      case Importing(s, content, meta, newId, stamp) => ImportDigests(c, s, w, content, meta, newId, stamp);
      case Rejecting(subId, reason, actor) => OtherDigests(c, Session("", "", Administrativo), w, subId, reason, actor);
      case Uploading(deviceId, envelope, content, subId, at) =>
        UploadDigests(c, w, deviceId, envelope, content, subId, at);
      case Destroying(id, pins, grace, now, text, reason, actor) =>
        DestroyDigests(c, m.o, id, pins, grace, now, text, reason, actor);
      case ProcessingDue(order, now, text, actor) =>
        if forall i :: 0 <= i < |order| ==> HasId(w.db.documents, order[i]) {
          DestructionsDigests(c, m.o, DocsOf(w.db.documents, order), text, actor);
        }
      case Purging(id) => OtherDigests(c, Session("", "", Administrativo), w, id, "", "");
      case SweepingAll => UntouchedVaultSweepsClean(c, w);
      case Recording(_, _, _, _) =>
      case Restarting =>
    }
  }

  /** In every run, where the active documents have distinct digests, they still have after the next step, unless it restores
      a document whose content is active: then two of them have one digest. */
  lemma DigestsStayDistinctIff(c: Config, ms: seq<Moment>, steps: seq<Step>, i: nat)
    requires Run(c, ms, steps) && i < |steps| && DistinctDigests(ms[i].o.w.db.documents)
    ensures DistinctDigests(ms[i + 1].o.w.db.documents)
            <==> !(steps[i].Restoring? && RestoresTwin(steps[i].s, ms[i].o.w, steps[i].id))
  {
    hide Enabled, MomentInv, DistinctDigests, Flushes, Restore, RestoresTwin;
    RunKeepsInv(c, ms, steps, i);
    var m, step := ms[i], steps[i];
    assert ms[i + 1] == Perform(c, m, step);
    if step.Restoring? {
      RestoreDigests(c, step.s, m.o.w, step.id);
    } else {
      hide Act;
      if step.Renaming? || step.Moving? || step.Trashing? || step.Editing? || step.Viewing? {
        RoleStepDigests(c, m, step);
      } else {
        OtherStepDigests(c, m, step);
      }
    }
  }
}
