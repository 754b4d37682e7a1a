/** What each custody operation computes, over the database and the files: the specification that the services are proved
    against and that the invariants are about. Operations return the new world and their answer. */
module Custody {
  import opened Common
  import opened Text
  import opened Documents
  import opened Paths
  import opened Store

  /** What the library and the installation supply: digests of file contents in hex, character classes, the classification
      rules, and the extension of a file name. */
  datatype Config = Config(
    ink: Ink,
    sha256: bytes -> string,
    blake3: bytes -> string,
    alnum: Alnum,
    classify: string -> Option<Category>,
    extension: string -> string)

  datatype World = World(db: DbState, files: Files)

  datatype OpError = Denied | ReadOnly | NotFound | Collision | IoError | HashMismatch | BadPin | BadEnvelope

  datatype Session = Session(username: string, displayName: string, role: Role)

  // ---------- RoleService ----------

  predicate ValidNewName(name: string) {
    name != "" && '/' !in name && '\\' !in name
  }

  /** The shared end of `rename` and `move_to_category`: the file is moved, then index and log follow. */
  function MoveDocument(
      c: Config, w: World, doc: Document, moved: Document, actor: string, action: string, accepts: bool)
    : (World, Result<Document, OpError>)
  {
    if Exists(w.files, moved.relPath) then (w, Err(Collision))
    else
      var (files, ok) := Relocate(w.files, doc.relPath, moved.relPath, accepts);
      if !ok then (w.(files := files), Err(IoError))
      else
        var db := w.db.(documents := Updated(w.db.documents, moved));
        (World(Noted(c.ink, db, actor, action, doc.sha256, Relocated(doc.vaultId, doc.relPath, moved.relPath)), files),
         Ok(moved))
  }

  function Rename(c: Config, readOnly: bool, s: Session, w: World, id: string, newName: string, accepts: bool)
    : (World, Result<Document, OpError>)
  {
    if !s.role.CanRenameOrMove() then (w, Err(Denied))
    else if readOnly then (w, Err(ReadOnly))
    else if !ValidNewName(Trim(newName)) then (w, Err(Collision))
    else
      var i := DocIndex(w.db.documents, id);
      if i == |w.db.documents| then (w, Err(NotFound))
      else
        var doc := w.db.documents[i];
        var path := ReplaceLast(doc.relPath, Trim(newName));
        if path == doc.relPath then (w, Ok(doc))
        else
          MoveDocument(c, w, doc, doc.(relPath := path, meta := doc.meta.(fileName := Trim(newName))),
                       s.username, "rename", accepts)
  }

  function MoveToCategory(c: Config, readOnly: bool, s: Session, w: World, id: string, category: Category, accepts: bool)
    : (World, Result<Document, OpError>)
  {
    if !s.role.CanRenameOrMove() then (w, Err(Denied))
    else if readOnly then (w, Err(ReadOnly))
    else
      var i := DocIndex(w.db.documents, id);
      if i == |w.db.documents| then (w, Err(NotFound))
      else
        var doc := w.db.documents[i];
        if doc.meta.category == category then (w, Ok(doc))
        else
          var path := RelPathFor(c.alnum, doc.meta.author, category, doc.meta.fileName);
          var moved := doc.(relPath := path, meta := doc.meta.(category := category));
          if path == doc.relPath then (w.(db := w.db.(documents := Updated(w.db.documents, moved))), Ok(moved))
          else MoveDocument(c, w, doc, moved, s.username, "move", accepts)
  }

  function SoftDelete(c: Config, readOnly: bool, s: Session, w: World, id: string, reason: string, at: string)
    : (World, Result<(), OpError>)
  {
    if !s.role.CanSoftDelete() then (w, Err(Denied))
    else if readOnly then (w, Err(ReadOnly))
    else
      var i := DocIndex(w.db.documents, id);
      if i == |w.db.documents| then (w, Err(NotFound))
      else
        var db := w.db.(documents := Removed(w.db.documents, id),
                        trashed := w.db.trashed + [TrashedDocument(w.db.documents[i], s.username, at, Trim(reason))]);
        (w.(db := Noted(c.ink, db, s.username, "soft_delete", id, Note(Trim(reason)))), Ok(()))
  }

  function Restore(c: Config, readOnly: bool, s: Session, w: World, id: string): (World, Result<Document, OpError>) {
    if !s.role.CanRestore() then (w, Err(Denied))
    else if readOnly then (w, Err(ReadOnly))
    else
      var i := TrashIndex(w.db.trashed, id);
      if i == |w.db.trashed| then (w, Err(NotFound))
      else
        var doc := w.db.trashed[i].document;
        var db := w.db.(documents := w.db.documents + [doc], trashed := Without(w.db.trashed, i));
        (w.(db := Noted(c.ink, db, s.username, "restore", doc.sha256, About(id, "restored"))), Ok(doc))
  }

  /** `std::fs::copy` followed by `seal_file`. */
  function CopySealed(files: Files, from: Path, to: Path): Option<Files> {
    if from !in files || ParentBlocked(files, to) || IsFolder(files, to) || (to in files && files[to].isSealed) then None
    else Some(files[to := File(files[from].content, true)])
  }

  datatype Edit = Edit(title: Option<string>, department: Option<string>, year: Option<nat>, note: string)

  function Edited(doc: Document, e: Edit): Document {
    doc.(meta := doc.meta.(
      title := if e.title.Some? then e.title.value else doc.meta.title,
      department := if e.department.Some? then e.department.value else doc.meta.department,
      academicYear := if e.year.Some? then e.year else doc.meta.academicYear))
  }

  /** The frozen copy that an edit by Coordinación leaves behind. */
  function VersionOf(w: World, doc: Document, actor: string, at: string, note: string): DocumentVersion {
    var n := NextVersion(w.db.versions, doc.vaultId);
    DocumentVersion(doc.vaultId, n, doc.sha256, VersionPath(doc.relPath, doc.vaultId, n), doc.meta, actor, at, note)
  }

  function ApplyEdit(c: Config, s: Session, w: World, doc: Document, e: Edit): (World, Result<Document, OpError>) {
    var db := w.db.(documents := Updated(w.db.documents, Edited(doc, e)));
    (w.(db := Noted(c.ink, db, s.username, "edit_meta", doc.sha256, About(doc.vaultId, e.note))), Ok(Edited(doc, e)))
  }

  function EditMeta(c: Config, readOnly: bool, s: Session, w: World, id: string, e: Edit, at: string)
    : (World, Result<Document, OpError>)
  {
    if !s.role.CanEditMeta() then (w, Err(Denied))
    else if readOnly then (w, Err(ReadOnly))
    else
      var i := DocIndex(w.db.documents, id);
      if i == |w.db.documents| then (w, Err(NotFound))
      else
        var doc := w.db.documents[i];
        if !s.role.VersionsOnEdit() then ApplyEdit(c, s, w, doc, e)
        else
          var v := VersionOf(w, doc, s.username, at, e.note);
          var files := CopySealed(w.files, doc.relPath, v.relPath);
          if files.None? then (w, Err(IoError))
          else ApplyEdit(c, s, World(w.db.(versions := w.db.versions + [v]), files.value), doc, e)
  }

  function View(c: Config, readOnly: bool, s: Session, w: World, id: string): (World, Result<Document, OpError>) {
    if readOnly then (w, Err(ReadOnly))
    else
      var i := DocIndex(w.db.documents, id);
      if i == |w.db.documents| then (w, Err(NotFound))
      else
        var doc := w.db.documents[i];
        (w.(db := Noted(c.ink, w.db, s.username, "view", doc.sha256, About(id, "viewed"))), Ok(doc))
  }

  // ---------- sealing ----------

  datatype SealOutcome = Sealed(doc: Document) | Duplicate(existingId: string)

  /** What to seal: the content, the staged file it is in (or none), and what is known about it.
      `newId` and `stamp` are the fresh identifier and the time of the token, if a token could be had. */
  datatype SealRequest = SealRequest(
    content: bytes,
    staged: Option<Path>,
    meta: DocumentMeta,
    originDevice: Option<string>,
    actor: string,
    action: string,
    newId: string,
    stamp: Option<string>)

  function SealedDoc(c: Config, r: SealRequest): Document {
    Document(r.newId, c.sha256(r.content), c.blake3(r.content), |r.content|, r.meta,
             RelPathFor(c.alnum, r.meta.author, r.meta.category, r.meta.fileName), r.stamp, Intact, r.originDevice)
  }

  /** The staged file, if any, moves to its place; either way the place holds the sealed content. */
  function Installed(files: Files, r: SealRequest, path: Path): Files {
    (if r.staged.Some? then files - {r.staged.value} else files)[path := File(r.content, true)]
  }

  /** `seal_document`: the one way into the vault. */
  function SealDocument(c: Config, w: World, r: SealRequest): (World, Result<SealOutcome, OpError>) {
    var k := ShaIndex(w.db.documents, c.sha256(r.content));
    if k < |w.db.documents| then (w, Ok(Duplicate(w.db.documents[k].vaultId)))
    else
      var doc := SealedDoc(c, r);
      if Exists(w.files, doc.relPath) then (w, Err(Collision))
      else if ParentBlocked(w.files, doc.relPath) then (w, Err(IoError))
      else
        var db := w.db.(documents := w.db.documents + [doc]);
        (World(Noted(c.ink, db, r.actor, r.action, doc.sha256, Placed(doc.vaultId, doc.relPath)),
               Installed(w.files, r, doc.relPath)),
         Ok(Sealed(doc)))
  }

  lemma SealLeavesSubmissions(c: Config, w: World, r: SealRequest)
    ensures SealDocument(c, w, r).0.db.submissions == w.db.submissions
  {}

  function WithSubState(db: DbState, i: nat, s: AdmissionState): DbState
    requires i < |db.submissions|
  {
    db.(submissions := db.submissions[i := db.submissions[i].(state := s)])
  }

  /** The institution's rules overrule the category that the sender declared. */
  function Reclassified(c: Config, meta: DocumentMeta): DocumentMeta {
    var category := c.classify(meta.fileName);
    if category.Some? then meta.(category := category.value) else meta
  }

  function AdmitRequest(c: Config, w: World, sub: Submission, actor: string, newId: string, stamp: Option<string>): SealRequest
    requires StagingPath(sub.stagingPath) in w.files
  {
    var path := StagingPath(sub.stagingPath);
    SealRequest(w.files[path].content, Some(path), Reclassified(c, sub.meta), Some(sub.deviceId), actor, "admit", newId, stamp)
  }

  /** The database when sealing begins: with an entry if the institution's rules overruled the sender. */
  function Reviewed(c: Config, w: World, sub: Submission, r: SealRequest): World {
    if r.meta == sub.meta then w
    else w.(db := Noted(c.ink, w.db, r.actor, "admit_reclassify", sub.sha256, Note(DirName(r.meta.category))))
  }

  /** What `admit` does once the staging file is known to be what was received. */
  function Admission(c: Config, w: World, i: nat, r: SealRequest): (World, Result<SealOutcome, OpError>)
    requires i < |w.db.submissions|
  {
    var sub := w.db.submissions[i];
    var (w2, sealed) := SealDocument(c, Reviewed(c, w, sub, r), r);
    if sealed.Err? then (w2, sealed)
    else if sealed.value.Duplicate? then
      (World(Noted(c.ink, WithSubState(w2.db, i, Rejected), r.actor, "admit_dup", sub.sha256, Note("duplicate")),
             w2.files - {StagingPath(sub.stagingPath)}),
       sealed)
    else (w2.(db := WithSubState(w2.db, i, Admitted)), sealed)
  }

  function Admit(c: Config, w: World, subId: string, actor: string, newId: string, stamp: Option<string>)
    : (World, Result<SealOutcome, OpError>)
  {
    var i := SubIndex(w.db.submissions, subId);
    if i == |w.db.submissions| || !w.db.submissions[i].state.Pending? then (w, Err(NotFound))
    else
      var sub := w.db.submissions[i];
      var path := StagingPath(sub.stagingPath);
      if path !in w.files then (w, Err(IoError))
      else if c.sha256(w.files[path].content) != sub.sha256 || c.blake3(w.files[path].content) != sub.blake3 then
        (w.(db := Noted(c.ink, w.db, actor, "admit_failed", sub.sha256, Note("staging hash"))), Err(HashMismatch))
      else
        Admission(c, w, i, AdmitRequest(c, w, sub, actor, newId, stamp))
  }

  /** The import of the desktop application. */
  function Import(
      c: Config, readOnly: bool, s: Session, w: World, content: bytes, meta: DocumentMeta, newId: string,
      stamp: Option<string>)
    : (World, Result<SealOutcome, OpError>)
  {
    if readOnly then (w, Err(ReadOnly))
    else if !s.role.CanImport() then (w, Err(Denied))
    else if content == [] then (w, Err(IoError))
    else
      var category := c.classify(meta.fileName);
      var m := meta.(author := s.displayName, category := if category.Some? then category.value else MaterialGrafico);
      SealDocument(c, w, SealRequest(content, None, m, None, s.username, "import", newId, stamp))
  }

  function Reject(c: Config, w: World, subId: string, reason: string, actor: string): (World, Result<(), OpError>) {
    var i := SubIndex(w.db.submissions, subId);
    if i == |w.db.submissions| || !w.db.submissions[i].state.Pending? then (w, Err(NotFound))
    else
      var sub := w.db.submissions[i];
      (World(Noted(c.ink, WithSubState(w.db, i, Rejected), actor, "reject", sub.sha256, Note(reason)),
             w.files - {StagingPath(sub.stagingPath)}),
       Ok(()))
  }

  // ---------- uploads ----------

  /** The declared half of an upload, once its JSON was read. */
  datatype Envelope = Envelope(
    protocol: string,
    sha256: string,
    sizeBytes: nat,
    category: string,
    fileName: string,
    title: string,
    author: string,
    department: string,
    academicYear: Option<nat>)

  function IncomingName(sha256: string): string {
    sha256 + ".incoming"
  }

  function NewSubmission(
      c: Config, deviceId: string, e: Envelope, category: Category, content: bytes, subId: string, at: string)
    : Submission
  {
    Submission(subId, deviceId,
               DocumentMeta(if e.title == "" then e.fileName else e.title, category, e.author, e.department, e.academicYear,
                            e.fileName, c.extension(e.fileName)),
               c.sha256(content), c.blake3(content), |content|, IncomingName(c.sha256(content)), at, Pending)
  }

  /** An upload: the channel writes the staging file under its digest, then `ingest_to_staging` judges it.
      `None` is an envelope that could not be read. */
  function Upload(c: Config, w: World, deviceId: string, envelope: Option<Envelope>, content: bytes, subId: string, at: string)
    : (World, Result<(), OpError>)
  {
    var path := StagingPath(IncomingName(c.sha256(content)));
    if ParentBlocked(w.files, path) || (path in w.files && w.files[path].isSealed) then (w, Err(IoError))
    else
      var staged := w.(files := w.files[path := File(content, false)]);
      if envelope.None? || envelope.value.protocol != "1.0" then (staged, Err(BadEnvelope))
      else if envelope.value.sha256 != c.sha256(content) || envelope.value.sizeBytes != |content| then
        (w.(files := w.files - {path}), Err(HashMismatch))
      else
        var category := FromDirName(envelope.value.category);
        if category.None? then (staged, Err(BadEnvelope))
        else
          var sub := NewSubmission(c, deviceId, envelope.value, category.value, content, subId, at);
          var db := w.db.(submissions := w.db.submissions + [sub]);
          (staged.(db := Noted(c.ink, db, deviceId, "upload_received", sub.sha256, Note(sub.meta.fileName))), Ok(()))
  }

  // ---------- destruction and purge ----------

  /** `execute_destruction`: wipe and remove the file, leave a sealed tombstone, drop the document from the index. */
  function ExecuteDestruction(c: Config, w: World, doc: Document, text: bytes, reason: string, actor: string)
    : (World, Result<(), OpError>)
  {
    var tomb := TombstonePath(doc.vaultId);
    if doc.relPath !in w.files && Exists(w.files, doc.relPath) then (w, Err(IoError))
    else
      var files := w.files - {doc.relPath};
      if ParentBlocked(files, tomb) || (tomb in files && files[tomb].isSealed) then (w.(files := files), Err(IoError))
      else
        var db := w.db.(documents := Removed(w.db.documents, doc.vaultId));
        (World(Noted(c.ink, db, actor, "destroy_executed", doc.sha256, About(doc.vaultId, reason)),
               files[tomb := File(text, true)]),
         Ok(()))
  }

  /** The administrator's service: the world, and the destructions waiting for the end of their grace period. */
  datatype Office = Office(w: World, pending: map<string, nat>)

  function Destroy(
      c: Config, o: Office, id: string, pins: bool, grace: nat, now: nat, text: bytes, reason: string, actor: string)
    : (Office, Result<(), OpError>)
  {
    if !pins then (o, Err(BadPin))
    else
      var i := DocIndex(o.w.db.documents, id);
      if i == |o.w.db.documents| then (o, Err(NotFound))
      else
        var doc := o.w.db.documents[i];
        if grace > 0 then
          (Office(o.w.(db := Noted(c.ink, o.w.db, actor, "destroy_scheduled", doc.sha256, About(id, reason))),
                  o.pending[id := now + grace]),
           Ok(()))
        else
          var (w, r) := ExecuteDestruction(c, o.w, doc, text, reason, actor);
          (o.(w := w), r)
  }

  /** The active documents whose grace period is over, by id. */
  function DueIds(o: Office, now: nat): set<string> {
    set id | id in o.pending && o.pending[id] <= now && HasId(o.w.db.documents, id)
  }

  /** Destroys the documents one after the other, stopping at the first error. */
  function DestroyAll(c: Config, o: Office, due: seq<Document>, text: bytes, actor: string): (Office, Result<(), OpError>)
    decreases |due|
  {
    if due == [] then (o, Ok(()))
    else
      var (w, r) := ExecuteDestruction(c, o.w, due[0], text, "grace period expired", actor);
      var o' := Office(w, o.pending - {due[0].vaultId});
      if r.Err? then (o', r) else DestroyAll(c, o', due[1..], text, actor)
  }

  function DocsOf(docs: seq<Document>, ids: seq<string>): seq<Document>
    requires forall i :: 0 <= i < |ids| ==> HasId(docs, ids[i])
  {
    seq(|ids|, i requires 0 <= i < |ids| => docs[DocIndex(docs, ids[i])])
  }

  /** An order in which the map of pending destructions may be walked. */
  ghost predicate Enumerates(order: seq<string>, ids: set<string>) {
    (forall i :: 0 <= i < |order| ==> order[i] in ids)
    && (forall i, j :: 0 <= i < j < |order| ==> order[i] != order[j])
    && (forall id :: id in ids ==> id in order)
  }

  /** `process_due_destructions`, given the order of the walk. */
  function ProcessDue(c: Config, o: Office, order: seq<string>, text: bytes, actor: string): (Office, Result<(), OpError>)
    requires forall i :: 0 <= i < |order| ==> HasId(o.w.db.documents, order[i])
  {
    DestroyAll(c, o, DocsOf(o.w.db.documents, order), text, actor)
  }

  /** `apply_purge`: the trash entry and its file go, and nothing is written to the log. */
  function Purge(w: World, id: string): (World, Result<TrashedDocument, OpError>) {
    var i := TrashIndex(w.db.trashed, id);
    if i == |w.db.trashed| then (w, Err(NotFound))
    else
      var t := w.db.trashed[i];
      var db := w.db.(trashed := Without(w.db.trashed, i));
      if t.document.relPath !in w.files && Exists(w.files, t.document.relPath) then (w.(db := db), Err(IoError))
      else (World(db, w.files - {t.document.relPath}), Ok(t))
  }
}
