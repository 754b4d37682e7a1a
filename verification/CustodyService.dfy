/** The files of the staging folder and of the tombstone folder: what only documents or versions are moved for leaves them
    where they are. */
module CustodyService {
  import opened Common
  import opened Text
  import opened Documents
  import opened Paths
  import opened Store
  import opened Custody
  import opened CustodyInvariant
  import opened Sweep
  import opened CustodyMachine

  lemma MoveDocumentSpares(
      c: Config, w: World, doc: Document, moved: Document, actor: string, action: string, accepts: bool, p: Path)
    requires |p| == 2 && p in w.files && |doc.relPath| == 3
    ensures p in MoveDocument(c, w, doc, moved, actor, action, accepts).0.files
  {
    hide Append, Exists, ParentBlocked;
  }

  lemma RenameSpares(c: Config, s: Session, w: World, id: string, newName: string, accepts: bool, p: Path)
    requires Inv(c, w) && |p| == 2 && p in w.files
    ensures p in Rename(c, false, s, w, id, newName, accepts).0.files
  {
    hide Inv, MoveDocument, Updated;
    ActiveHasThreeParts(c, w);
    var i := DocIndex(w.db.documents, id);
    if i < |w.db.documents| {
      var doc := w.db.documents[i];
      var path := ReplaceLast(doc.relPath, Trim(newName));
      MoveDocumentSpares(c, w, doc, doc.(relPath := path, meta := doc.meta.(fileName := Trim(newName))), s.username,
                         "rename", accepts, p);
    }
  }

  lemma MoveSpares(c: Config, s: Session, w: World, id: string, category: Category, accepts: bool, p: Path)
    requires Inv(c, w) && |p| == 2 && p in w.files
    ensures p in MoveToCategory(c, false, s, w, id, category, accepts).0.files
  {
    hide Inv, MoveDocument, RelPathFor;
    ActiveHasThreeParts(c, w);
    var i := DocIndex(w.db.documents, id);
    if i < |w.db.documents| {
      var doc := w.db.documents[i];
      var path := RelPathFor(c.alnum, doc.meta.author, category, doc.meta.fileName);
      MoveDocumentSpares(c, w, doc, doc.(relPath := path, meta := doc.meta.(category := category)), s.username, "move",
                         accepts, p);
    }
  }

  lemma OthersSpare(c: Config, s: Session, w: World, id: string, e: Edit, reason: string, at: string, p: Path)
    requires |p| == 2 && p in w.files
    ensures p in EditMeta(c, false, s, w, id, e, at).0.files
    ensures p in SoftDelete(c, false, s, w, id, reason, at).0.files
    ensures p in Restore(c, false, s, w, id).0.files
    ensures p in View(c, false, s, w, id).0.files
  {
    hide Append, ParentBlocked, IsFolder, VersionOf;
  }

  lemma RoleStepSpares(c: Config, m: Moment, step: Step, p: Path)
    requires Inv(c, m.o.w) && |p| == 2 && p in m.o.w.files
    requires step.Renaming? || step.Moving? || step.Trashing? || step.Restoring? || step.Editing? || step.Viewing?
    ensures p in Act(c, m, step).o.w.files
  {
    hide Inv, Rename, MoveToCategory, EditMeta, SoftDelete, Restore, View;
    var nothing := Edit(None, None, None, "");
    match step {
      case Renaming(s, id, newName, accepts) => RenameSpares(c, s, m.o.w, id, newName, accepts, p);
      case Moving(s, id, category, accepts) => MoveSpares(c, s, m.o.w, id, category, accepts, p);
      case Trashing(s, id, reason, at) => OthersSpare(c, s, m.o.w, id, nothing, reason, at, p);
      case Restoring(s, id) => OthersSpare(c, s, m.o.w, id, nothing, "", "", p);
      case Editing(s, id, edit, at) => OthersSpare(c, s, m.o.w, id, edit, "", at, p);
      case Viewing(s, id) => OthersSpare(c, s, m.o.w, id, nothing, "", "", p);
    }
  }

  lemma ActiveHasThreeParts(c: Config, w: World)
    requires Inv(c, w)
    ensures forall i :: 0 <= i < |w.db.documents| ==> |w.db.documents[i].relPath| == 3
  {}

  lemma ExecutionSpares(c: Config, w: World, doc: Document, text: bytes, reason: string, actor: string, p: Path)
    requires |p| == 2 && p in w.files && |doc.relPath| == 3
    ensures p in ExecuteDestruction(c, w, doc, text, reason, actor).0.files
  {
    hide Append, TombstonePath, Exists, ParentBlocked;
  }

  lemma {:induction false} DestructionsSpare(c: Config, o: Office, due: seq<Document>, text: bytes, actor: string, p: Path)
    requires |p| == 2 && p in o.w.files && forall k :: 0 <= k < |due| ==> |due[k].relPath| == 3
    ensures p in DestroyAll(c, o, due, text, actor).0.w.files
    decreases |due|
  {
    hide ExecuteDestruction;
    if due != [] {
      var (w, r) := ExecuteDestruction(c, o.w, due[0], text, "grace period expired", actor);
      ExecutionSpares(c, o.w, due[0], text, "grace period expired", actor, p);
      if r.Ok? { DestructionsSpare(c, Office(w, o.pending - {due[0].vaultId}), due[1..], text, actor, p); }
    }
  }

  lemma PurgeSpares(c: Config, w: World, id: string, p: Path)
    requires Inv(c, w) && |p| == 2 && p in w.files
    ensures p in Purge(w, id).0.files
  {
    var i := TrashIndex(w.db.trashed, id);
    if i < |w.db.trashed| { TrashedIsClaimed(c, w, i); }
    hide Inv, Exists;
  }

  lemma DestroySpares(
      c: Config, o: Office, id: string, pins: bool, grace: nat, now: nat, text: bytes, reason: string, actor: string,
      p: Path)
    requires Inv(c, o.w) && |p| == 2 && p in o.w.files
    ensures p in Destroy(c, o, id, pins, grace, now, text, reason, actor).0.w.files
  {
    hide Inv, Append, ExecuteDestruction;
    ActiveHasThreeParts(c, o.w);
    var i := DocIndex(o.w.db.documents, id);
    if i < |o.w.db.documents| { ExecutionSpares(c, o.w, o.w.db.documents[i], text, reason, actor, p); }
  }

  lemma DueSpares(c: Config, o: Office, order: seq<string>, text: bytes, actor: string, p: Path)
    requires Inv(c, o.w) && |p| == 2 && p in o.w.files
    requires forall i :: 0 <= i < |order| ==> HasId(o.w.db.documents, order[i])
    ensures p in ProcessDue(c, o, order, text, actor).0.w.files
  {
    hide Inv, DestroyAll;
    ActiveHasThreeParts(c, o.w);
    DestructionsSpare(c, o, DocsOf(o.w.db.documents, order), text, actor, p);
  }

  lemma ImportSpares(
      c: Config, s: Session, w: World, content: bytes, meta: DocumentMeta, newId: string, stamp: Option<string>, p: Path)
    requires |p| == 2 && p in w.files
    ensures p in Import(c, false, s, w, content, meta, newId, stamp).0.files
  {
    hide Append, Exists, ParentBlocked, RelPathFor;
  }

  lemma RemovalStepSpares(c: Config, m: Moment, step: Step, p: Path)
    requires Inv(c, m.o.w) && |p| == 2 && p in m.o.w.files
    requires step.Destroying? || step.ProcessingDue? || step.Purging? || step.SweepingAll? || step.Recording?
             || step.Restarting? || step.Importing?
    ensures p in Act(c, m, step).o.w.files
  {
    hide Inv, Destroy, ProcessDue, Purge, Import, SweepSpec, Append;
    match step {
      case Destroying(id, pins, grace, now, text, reason, actor) =>
        DestroySpares(c, m.o, id, pins, grace, now, text, reason, actor, p);
      case ProcessingDue(order, now, text, actor) =>
        if forall i :: 0 <= i < |order| ==> HasId(m.o.w.db.documents, order[i]) {
          DueSpares(c, m.o, order, text, actor, p);
        }
      case Purging(id) => PurgeSpares(c, m.o.w, id, p);
      case Importing(s, content, meta, newId, stamp) => ImportSpares(c, s, m.o.w, content, meta, newId, stamp, p);
      case SweepingAll =>
      case Recording(_, _, _, _) =>
      case Restarting =>
    }
  }
}
