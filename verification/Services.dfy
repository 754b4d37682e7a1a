/** The services as they run: `RoleService`, `AdminService`, the import of the desktop application, the intake of the
    daemon and the purge of the console, changing the database and the files step by step. Each is proved to compute what
    the specification of the same name says. */
module Services {
  import opened Common
  import opened Text
  import opened Documents
  import opened AuditChain
  import opened Paths
  import opened Store
  import opened Custody

  /** An operation that reaches its flush without the right to write ends in an error. */
  function OrReadOnly<T>(readOnly: bool, answer: Result<T, OpError>): Result<T, OpError> {
    if readOnly && answer.Ok? then Err(ReadOnly) else answer
  }

  class RoleService {
    const c: Config
    const db: VaultDb
    const disk: Disk

    constructor (c: Config, db: VaultDb, disk: Disk)
      requires db.ink == c.ink
      ensures this.c == c && this.db == db && this.disk == disk && Ready()
    {
      this.c, this.db, this.disk := c, db, disk;
    }

    ghost predicate Ready() {
      db.ink == c.ink
    }

    ghost function Now(): World
      reads db, disk
    {
      World(db.state, disk.files)
    }

    method Rename(s: Session, id: string, newName: string, accepts: bool) returns (answer: Result<Document, OpError>)
      requires Ready()
      modifies db, disk
      ensures (Now(), answer) == Custody.Rename(c, db.readOnly, s, old(Now()), id, newName, accepts)
      ensures db.flushed == Saved(db.readOnly, old(db.state), db.state, old(db.flushed))
    {
      hide Append, Head, ContentHash, Verified, IsFolder, ParentBlocked;
      if !s.role.CanRenameOrMove() { return Err(Denied); }
      if db.readOnly { return Err(ReadOnly); }
      var name := Trim(newName);
      if !ValidNewName(name) { return Err(Collision); }
      var i := DocIndex(db.state.documents, id);
      if i == |db.state.documents| { return Err(NotFound); }
      var doc := db.state.documents[i];
      var from := doc.relPath;
      var to := ReplaceLast(from, name);
      if to == from { return Ok(doc); }
      if Exists(disk.files, to) { return Err(Collision); }
      var moved := disk.MoveSealed(from, to, accepts);
      if !moved { return Err(IoError); }
      doc := doc.(meta := doc.meta.(fileName := name));
      doc := doc.(relPath := to);
      db.UpdateDocument(doc);
      var _ := db.AppendAudit(s.username, "rename", doc.sha256, Relocated(doc.vaultId, from, to));
      var _ := db.Flush();
      return Ok(doc);
    }

    method MoveToCategory(s: Session, id: string, category: Category, accepts: bool) returns (answer: Result<Document, OpError>)
      requires Ready()
      modifies db, disk
      ensures (Now(), answer) == Custody.MoveToCategory(c, db.readOnly, s, old(Now()), id, category, accepts)
      ensures db.flushed == Saved(db.readOnly, old(db.state), db.state, old(db.flushed))
    {
      hide Append, Head, ContentHash, Verified, IsFolder, ParentBlocked, SanitizeComponent, DirName;
      if !s.role.CanRenameOrMove() { return Err(Denied); }
      if db.readOnly { return Err(ReadOnly); }
      var i := DocIndex(db.state.documents, id);
      if i == |db.state.documents| { return Err(NotFound); }
      var doc := db.state.documents[i];
      if doc.meta.category == category { return Ok(doc); }
      var from := doc.relPath;
      var to := RelPathFor(c.alnum, doc.meta.author, category, doc.meta.fileName);
      doc := doc.(meta := doc.meta.(category := category));
      if to == from {
        db.UpdateDocument(doc);
        return Ok(doc);
      }
      if Exists(disk.files, to) { return Err(Collision); }
      var moved := disk.MoveSealed(from, to, accepts);
      if !moved { return Err(IoError); }
      doc := doc.(relPath := to);
      db.UpdateDocument(doc);
      var _ := db.AppendAudit(s.username, "move", doc.sha256, Relocated(doc.vaultId, from, to));
      var _ := db.Flush();
      return Ok(doc);
    }

    method SoftDelete(s: Session, id: string, reason: string, at: string) returns (answer: Result<(), OpError>)
      requires Ready()
      modifies db
      ensures (Now(), answer) == Custody.SoftDelete(c, db.readOnly, s, old(Now()), id, reason, at)
      ensures db.flushed == Saved(db.readOnly, old(db.state), db.state, old(db.flushed))
    {
      hide Append, Head, ContentHash, Verified;
      if !s.role.CanSoftDelete() { return Err(Denied); }
      if db.readOnly { return Err(ReadOnly); }
      var i := DocIndex(db.state.documents, id);
      if i == |db.state.documents| { return Err(NotFound); }
      db.TrashDocument(db.state.documents[i], s.username, at, Trim(reason));
      var _ := db.AppendAudit(s.username, "soft_delete", id, Note(Trim(reason)));
      var _ := db.Flush();
      return Ok(());
    }

    method Restore(s: Session, id: string) returns (answer: Result<Document, OpError>)
      requires Ready()
      modifies db
      ensures (Now(), answer) == Custody.Restore(c, db.readOnly, s, old(Now()), id)
      ensures db.flushed == Saved(db.readOnly, old(db.state), db.state, old(db.flushed))
    {
      hide Append, Head, ContentHash, Verified;
      if !s.role.CanRestore() { return Err(Denied); }
      if db.readOnly { return Err(ReadOnly); }
      var restored := db.RestoreTrashed(id);
      if restored.None? { return Err(NotFound); }
      var _ := db.AppendAudit(s.username, "restore", restored.value.sha256, About(id, "restored"));
      var _ := db.Flush();
      return Ok(restored.value);
    }

    method EditMeta(s: Session, id: string, e: Edit, at: string) returns (answer: Result<Document, OpError>)
      requires Ready()
      modifies db, disk
      ensures (Now(), answer) == Custody.EditMeta(c, db.readOnly, s, old(Now()), id, e, at)
      ensures db.flushed == Saved(db.readOnly, old(db.state), db.state, old(db.flushed))
    {
      hide Append, Head, ContentHash, Verified, IsFolder, ParentBlocked, CopySealed, VersionsOf, VersionPath, Updated;
      if !s.role.CanEditMeta() { return Err(Denied); }
      if db.readOnly { return Err(ReadOnly); }
      var i := DocIndex(db.state.documents, id);
      if i == |db.state.documents| { return Err(NotFound); }
      var doc := db.state.documents[i];
      if s.role.VersionsOnEdit() {
        var own := VersionsOf(db.state.versions, id);
        var next := if own == [] then 1 else own[|own| - 1].version + 1;
        var to := VersionPath(doc.relPath, doc.vaultId, next);
        var copied := CopyAndSeal(doc.relPath, to);
        if !copied { return Err(IoError); }
        db.AddVersion(DocumentVersion(id, next, doc.sha256, to, doc.meta, s.username, at, e.note));
      }
      if e.title.Some? { doc := doc.(meta := doc.meta.(title := e.title.value)); }
      if e.department.Some? { doc := doc.(meta := doc.meta.(department := e.department.value)); }
      if e.year.Some? { doc := doc.(meta := doc.meta.(academicYear := e.year)); }
      db.UpdateDocument(doc);
      var _ := db.AppendAudit(s.username, "edit_meta", doc.sha256, About(doc.vaultId, e.note));
      var _ := db.Flush();
      return Ok(doc);
    }

    method CopyAndSeal(from: Path, to: Path) returns (ok: bool)
      modifies disk
      ensures CopySealed(old(disk.files), from, to) == if ok then Some(disk.files) else None
      ensures !ok ==> disk.files == old(disk.files)
    {
      if from !in disk.files || ParentBlocked(disk.files, to) || IsFolder(disk.files, to) { return false; }
      var content := disk.files[from].content;
      ok := disk.WriteFile(to, content);
      if ok {
        ok := disk.SetSealed(to, true);
        assert disk.files == old(disk.files)[to := File(content, true)];
      }
    }

    method View(s: Session, id: string) returns (answer: Result<Document, OpError>)
      requires Ready()
      modifies db
      ensures (Now(), answer) == Custody.View(c, db.readOnly, s, old(Now()), id)
      ensures db.flushed == Saved(db.readOnly, old(db.state), db.state, old(db.flushed))
    {
      hide Append, Head, ContentHash, Verified;
      if db.readOnly { return Err(ReadOnly); }
      var i := DocIndex(db.state.documents, id);
      if i == |db.state.documents| { return Err(NotFound); }
      var doc := db.state.documents[i];
      var _ := db.AppendAudit(s.username, "view", doc.sha256, About(id, "viewed"));
      var _ := db.Flush();
      return Ok(doc);
    }
  }

  // ---------- sealing ----------

  /** `seal_document`; a staged file holds the content to be sealed. */
  method Seal(c: Config, db: VaultDb, disk: Disk, r: SealRequest) returns (answer: Result<SealOutcome, OpError>)
    requires db.ink == c.ink
    requires r.staged.Some? ==> r.staged.value in disk.files && disk.files[r.staged.value].content == r.content
    modifies db, disk
    ensures (World(db.state, disk.files), answer) == Custody.SealDocument(c, old(World(db.state, disk.files)), r)
    ensures db.flushed == old(db.flushed) && answer != Err(HashMismatch)
    ensures if answer.Ok? && answer.value.Sealed? then |db.state.audit| > |old(db.state).audit| else db.state == old(db.state)
  {
    hide Append, Head, ContentHash, Verified, IsFolder, ParentBlocked, RelPathFor;
    var sha256 := c.sha256(r.content);
    var k := ShaIndex(db.state.documents, sha256);
    if k < |db.state.documents| { return Ok(Duplicate(db.state.documents[k].vaultId)); }
    var path := RelPathFor(c.alnum, r.meta.author, r.meta.category, r.meta.fileName);
    var doc := Document(r.newId, sha256, c.blake3(r.content), |r.content|, r.meta, path, None, Unverified, r.originDevice);
    if Exists(disk.files, path) { return Err(Collision); }
    if ParentBlocked(disk.files, path) { return Err(IoError); }
    if r.staged.Some? {
      disk.RenameFile(r.staged.value, path);
    } else {
      var _ := disk.WriteFile(path, r.content);
    }
    var _ := disk.SetSealed(path, true);
    assert disk.files == Installed(old(disk.files), r, path);
    doc := doc.(rfc3161Time := r.stamp);
    doc := doc.(integrity := Intact);
    db.AddDocument(doc);
    var _ := db.AppendAudit(r.actor, r.action, doc.sha256, Placed(doc.vaultId, doc.relPath));
    return Ok(Sealed(doc));
  }

  /** The import of the desktop application. */
  method Import(
      c: Config, db: VaultDb, disk: Disk, s: Session, content: bytes, meta: DocumentMeta, newId: string, stamp: Option<string>)
    returns (answer: Result<SealOutcome, OpError>)
    requires db.ink == c.ink
    modifies db, disk
    ensures (World(db.state, disk.files), answer)
            == Custody.Import(c, db.readOnly, s, old(World(db.state, disk.files)), content, meta, newId, stamp)
    ensures db.flushed == Saved(db.readOnly, old(db.state), db.state, old(db.flushed))
  {
    hide Custody.SealDocument;
    if db.readOnly { return Err(ReadOnly); }
    if !s.role.CanImport() { return Err(Denied); }
    if content == [] { return Err(IoError); }
    var classified := c.classify(meta.fileName);
    var category := if classified.Some? then classified.value else MaterialGrafico;
    var m := meta.(author := s.displayName, category := category);
    answer := Seal(c, db, disk, SealRequest(content, None, m, None, s.username, "import", newId, stamp));
    if answer.Ok? && answer.value.Sealed? {
      var _ := db.Flush();
    }
  }

  // ---------- the intake of the daemon ----------

  /** The channel writes what it received under its digest; `ingest_to_staging` then checks it and queues it. */
  method Upload(
      c: Config, db: VaultDb, disk: Disk, deviceId: string, envelope: Option<Envelope>, content: bytes, subId: string,
      at: string)
    returns (answer: Result<(), OpError>)
    requires db.ink == c.ink
    modifies db, disk
    ensures World(db.state, disk.files)
            == Custody.Upload(c, old(World(db.state, disk.files)), deviceId, envelope, content, subId, at).0
    ensures answer
            == OrReadOnly(db.readOnly,
                          Custody.Upload(c, old(World(db.state, disk.files)), deviceId, envelope, content, subId, at).1)
    ensures db.flushed == Saved(db.readOnly, old(db.state), db.state, old(db.flushed))
  {
    hide Append, Head, ContentHash, Verified, ParentBlocked, FromDirName, StagingPath, IncomingName;
    var sha256 := c.sha256(content);
    var path := StagingPath(IncomingName(sha256));
    if ParentBlocked(disk.files, path) { return Err(IoError); }
    var written := disk.WriteFile(path, content);
    if !written { return Err(IoError); }
    if envelope.None? || envelope.value.protocol != "1.0" { return Err(BadEnvelope); }
    if envelope.value.sha256 != sha256 || envelope.value.sizeBytes != |content| {
      disk.RemoveFile(path);
      assert disk.files == old(disk.files) - {path};
      return Err(HashMismatch);
    }
    var category := FromDirName(envelope.value.category);
    if category.None? { return Err(BadEnvelope); }
    var sub := NewSubmission(c, deviceId, envelope.value, category.value, content, subId, at);
    db.AddSubmission(sub);
    var _ := db.AppendAudit(deviceId, "upload_received", sub.sha256, Note(sub.meta.fileName));
    var saved := db.Flush();
    return if saved then Ok(()) else Err(ReadOnly);
  }

  // ---------- the purge of the console ----------

  /** `apply_purge` */
  method Purge(db: VaultDb, disk: Disk, id: string) returns (answer: Result<TrashedDocument, OpError>)
    modifies db, disk
    ensures World(db.state, disk.files) == Custody.Purge(old(World(db.state, disk.files)), id).0
    ensures answer == OrReadOnly(db.readOnly, Custody.Purge(old(World(db.state, disk.files)), id).1)
    ensures db.flushed == if answer.Ok? then db.state else old(db.flushed)
  {
    hide IsFolder;
    var purged := db.PurgeTrashed(id);
    if purged.None? { return Err(NotFound); }
    var path := purged.value.document.relPath;
    if Exists(disk.files, path) {
      if path !in disk.files { return Err(IoError); }
      var _ := disk.SetSealed(path, false);
      disk.RemoveFile(path);
      assert disk.files == old(disk.files) - {path};
    } else {
      assert disk.files - {path} == disk.files;
    }
    var saved := db.Flush();
    return if saved then Ok(purged.value) else Err(ReadOnly);
  }

  // ---------- what is only recorded ----------

  /** Logins and logouts, PINs, pairing codes and devices: an entry and a flush. */
  method Record(c: Config, db: VaultDb, actor: string, action: string, subject: string, remark: string)
    requires db.ink == c.ink
    modifies db
    ensures db.state == Noted(c.ink, old(db.state), actor, action, subject, Note(remark))
    ensures db.flushed == Saved(db.readOnly, old(db.state), db.state, old(db.flushed))
  {
    hide Noted, Head, ContentHash, Verified;
    var _ := db.AppendAudit(actor, action, subject, Note(remark));
    var _ := db.Flush();
  }

  // ---------- the administrator's service ----------

  lemma DestructionsFrom(c: Config, o: Office, due: seq<Document>, k: nat, text: bytes, actor: string)
    requires k < |due|
    ensures var (w, r) := Custody.ExecuteDestruction(c, o.w, due[k], text, "grace period expired", actor);
            var o' := Office(w, o.pending - {due[k].vaultId});
            Custody.DestroyAll(c, o, due[k..], text, actor)
            == if r.Err? then (o', r) else Custody.DestroyAll(c, o', due[k + 1..], text, actor)
  {
    hide Custody.ExecuteDestruction;
    assert due[k..][0] == due[k] && due[k..][1..] == due[k + 1..];
  }

  lemma OneDestruction(c: Config, o: Office, doc: Document, text: bytes, actor: string)
    ensures var (w, r) := Custody.ExecuteDestruction(c, o.w, doc, text, "grace period expired", actor);
            var (o', answer) := Custody.DestroyAll(c, o, [doc], text, actor);
            o' == Office(w, o.pending - {doc.vaultId}) && (if r.Err? then answer == r else answer.Ok?)
  {
    hide Custody.ExecuteDestruction;
    var o1 := Office(Custody.ExecuteDestruction(c, o.w, doc, text, "grace period expired", actor).0,
                     o.pending - {doc.vaultId});
    assert Custody.DestroyAll(c, o1, [], text, actor) == (o1, Ok(()));
    assert [doc][1..] == [];
  }

  class AdminService {
    const c: Config
    const db: VaultDb
    const disk: Disk
    var pending: map<string, nat>

    constructor (c: Config, db: VaultDb, disk: Disk)
      requires db.ink == c.ink
      ensures this.c == c && this.db == db && this.disk == disk && pending == map[] && Ready()
    {
      this.c, this.db, this.disk, pending := c, db, disk, map[];
    }

    ghost predicate Ready() {
      db.ink == c.ink
    }

    ghost function Now(): Office
      reads this, db, disk
    {
      Office(World(db.state, disk.files), pending)
    }

    method Admit(subId: string, actor: string, newId: string, stamp: Option<string>)
      returns (answer: Result<SealOutcome, OpError>)
      requires Ready()
      modifies db, disk
      ensures Now().w == Custody.Admit(c, old(Now().w), subId, actor, newId, stamp).0
      ensures var judged := Custody.Admit(c, old(Now().w), subId, actor, newId, stamp).1;
              var ends := judged.Ok? || judged == Err(HashMismatch);
              && answer == (if db.readOnly && ends then Err(ReadOnly) else judged)
              && db.flushed == if !db.readOnly && ends then db.state else old(db.flushed)
    {
      hide Append, Head, ContentHash, Verified, Custody.SealDocument, StagingPath, DirName, SubIndex;
      var i := SubIndex(db.state.submissions, subId);
      if i == |db.state.submissions| { return Err(NotFound); }
      var sub := db.state.submissions[i];
      if !sub.state.Pending? { return Err(NotFound); }
      var path := StagingPath(sub.stagingPath);
      if path !in disk.files { return Err(IoError); }
      var content := disk.files[path].content;
      if c.sha256(content) != sub.sha256 || c.blake3(content) != sub.blake3 {
        var _ := db.AppendAudit(actor, "admit_failed", sub.sha256, Note("staging hash"));
        var saved := db.Flush();
        return Err(if saved then HashMismatch else ReadOnly);
      }
      var meta := sub.meta;
      var category := c.classify(meta.fileName);
      if category.Some? && category.value != meta.category {
        var _ := db.AppendAudit(actor, "admit_reclassify", sub.sha256, Note(DirName(category.value)));
        meta := meta.(category := category.value);
      }
      var r := SealRequest(content, Some(path), meta, Some(sub.deviceId), actor, "admit", newId, stamp);
      assert r == AdmitRequest(c, old(Now().w), sub, actor, newId, stamp);
      ghost var reviewed := Now().w;
      assert reviewed == Reviewed(c, old(Now().w), sub, r);
      answer := Seal(c, db, disk, r);
      SealLeavesSubmissions(c, reviewed, r);
      if answer.Ok? {
        var saved := Close(sub, actor, answer.value.Duplicate?);
        if !saved { return Err(ReadOnly); }
      }
    }

    /** The end of an admission: the submission is admitted, or rejected as a duplicate and its file removed. */
    method Close(sub: Submission, actor: string, isDuplicate: bool) returns (saved: bool)
      requires Ready() && SubIndex(db.state.submissions, sub.submissionId) < |db.state.submissions|
      modifies db, disk
      ensures var w := old(Now().w);
              var i := SubIndex(w.db.submissions, sub.submissionId);
              Now().w == if isDuplicate
                         then World(Noted(c.ink, WithSubState(w.db, i, Rejected), actor, "admit_dup", sub.sha256,
                                          Note("duplicate")),
                                    w.files - {StagingPath(sub.stagingPath)})
                         else w.(db := WithSubState(w.db, i, Admitted))
      ensures saved == !db.readOnly && db.flushed == if saved then db.state else old(db.flushed)
    {
      hide Append, Head, ContentHash, Verified, StagingPath;
      if isDuplicate {
        var _ := db.UpdateSubmissionState(sub.submissionId, Rejected);
        disk.RemoveFile(StagingPath(sub.stagingPath));
        var _ := db.AppendAudit(actor, "admit_dup", sub.sha256, Note("duplicate"));
      } else {
        var _ := db.UpdateSubmissionState(sub.submissionId, Admitted);
      }
      saved := db.Flush();
    }

    method Reject(subId: string, reason: string, actor: string) returns (answer: Result<(), OpError>)
      requires Ready()
      modifies db, disk
      ensures Now().w == Custody.Reject(c, old(Now().w), subId, reason, actor).0
      ensures answer == OrReadOnly(db.readOnly, Custody.Reject(c, old(Now().w), subId, reason, actor).1)
      ensures db.flushed == Saved(db.readOnly, old(db.state), db.state, old(db.flushed))
    {
      hide Append, Head, ContentHash, Verified, StagingPath;
      var i := SubIndex(db.state.submissions, subId);
      if i == |db.state.submissions| { return Err(NotFound); }
      var sub := db.state.submissions[i];
      if !sub.state.Pending? { return Err(NotFound); }
      disk.RemoveFile(StagingPath(sub.stagingPath));
      var _ := db.UpdateSubmissionState(subId, Rejected);
      var _ := db.AppendAudit(actor, "reject", sub.sha256, Note(reason));
      var saved := db.Flush();
      return if saved then Ok(()) else Err(ReadOnly);
    }

    /** `text` is the text of the tombstone. */
    method ExecuteDestruction(doc: Document, text: bytes, reason: string, actor: string) returns (answer: Result<(), OpError>)
      requires Ready()
      modifies db, disk
      ensures Now().w == Custody.ExecuteDestruction(c, old(Now().w), doc, text, reason, actor).0
      ensures answer == OrReadOnly(db.readOnly, Custody.ExecuteDestruction(c, old(Now().w), doc, text, reason, actor).1)
      ensures db.flushed == Saved(db.readOnly, old(db.state), db.state, old(db.flushed))
      ensures |db.state.audit| > |old(db.state).audit| || db.state == old(db.state)
    {
      hide Append, Head, ContentHash, Verified, IsFolder, ParentBlocked, TombstonePath;
      if Exists(disk.files, doc.relPath) {
        if doc.relPath !in disk.files { return Err(IoError); }
        var _ := disk.SetSealed(doc.relPath, false);
        disk.RemoveFile(doc.relPath);
      }
      assert disk.files == old(disk.files) - {doc.relPath};
      var tomb := TombstonePath(doc.vaultId);
      if ParentBlocked(disk.files, tomb) { return Err(IoError); }
      var written := disk.WriteFile(tomb, text);
      if !written { return Err(IoError); }
      var _ := disk.SetSealed(tomb, true);
      assert disk.files == (old(disk.files) - {doc.relPath})[tomb := File(text, true)];
      db.RemoveDocument(doc.vaultId);
      var _ := db.AppendAudit(actor, "destroy_executed", doc.sha256, About(doc.vaultId, reason));
      var saved := db.Flush();
      return if saved then Ok(()) else Err(ReadOnly);
    }

    /** `pins` tells whether both PINs were verified. */
    method Destroy(id: string, pins: bool, grace: nat, now: nat, text: bytes, reason: string, actor: string)
      returns (answer: Result<(), OpError>)
      requires Ready()
      modifies this, db, disk
      ensures Now() == Custody.Destroy(c, old(Now()), id, pins, grace, now, text, reason, actor).0
      ensures answer == OrReadOnly(db.readOnly, Custody.Destroy(c, old(Now()), id, pins, grace, now, text, reason, actor).1)
      ensures db.flushed == Saved(db.readOnly, old(db.state), db.state, old(db.flushed))
    {
      hide Append, Head, ContentHash, Verified, Custody.ExecuteDestruction;
      if !pins { return Err(BadPin); }
      var i := DocIndex(db.state.documents, id);
      if i == |db.state.documents| { return Err(NotFound); }
      var doc := db.state.documents[i];
      if grace > 0 {
        pending := pending[id := now + grace];
        var _ := db.AppendAudit(actor, "destroy_scheduled", doc.sha256, About(id, reason));
        var saved := db.Flush();
        return if saved then Ok(()) else Err(ReadOnly);
      }
      answer := ExecuteDestruction(doc, text, reason, actor);
    }

    /** The second loop of `process_due_destructions`; without the right to write it ends after the first document. */
    method DestroyEach(due: seq<Document>, text: bytes, actor: string) returns (answer: Result<nat, OpError>)
      requires Ready()
      modifies this, db, disk
      ensures var walked := if db.readOnly && due != [] then [due[0]] else due;
              var (o, r) := Custody.DestroyAll(c, old(Now()), walked, text, actor);
              Now() == o && answer == if r.Err? then Err(r.error)
                                      else if db.readOnly && due != [] then Err(ReadOnly)
                                      else Ok(|due|)
      ensures db.flushed == Saved(db.readOnly, old(db.state), db.state, old(db.flushed))
    {
      hide Custody.ExecuteDestruction;
      if due != [] { OneDestruction(c, Now(), due[0], text, actor); }
      for k := 0 to |due|
        invariant Custody.DestroyAll(c, old(Now()), due, text, actor) == Custody.DestroyAll(c, Now(), due[k..], text, actor)
        invariant if k == 0 then Now() == old(Now()) else !db.readOnly
        invariant |db.state.audit| > |old(db.state).audit| || db.state == old(db.state)
        invariant db.flushed == Saved(db.readOnly, old(db.state), db.state, old(db.flushed))
      {
        ghost var before := Now();
        pending := pending - {due[k].vaultId};
        var r := ExecuteDestruction(due[k], text, "grace period expired", actor);
        DestructionsFrom(c, before, due, k, text, actor);
        if r.Err? { return Err(r.error); }
      }
      assert due[|due|..] == [];
      return Ok(|due|);
    }

    /** `process_due_destructions`; `order` is the order in which the map of pending destructions is walked. */
    method ProcessDue(order: seq<string>, text: bytes, actor: string) returns (answer: Result<nat, OpError>)
      requires Ready() && forall i :: 0 <= i < |order| ==> HasId(db.state.documents, order[i])
      modifies this, db, disk
      ensures var walked := if db.readOnly && order != [] then order[..1] else order;
              var (o, r) := Custody.ProcessDue(c, old(Now()), walked, text, actor);
              Now() == o && answer == if r.Err? then Err(r.error)
                                      else if db.readOnly && order != [] then Err(ReadOnly)
                                      else Ok(|order|)
      ensures db.flushed == Saved(db.readOnly, old(db.state), db.state, old(db.flushed))
    {
      hide Custody.DestroyAll;
      var due: seq<Document> := [];
      for k := 0 to |order|
        invariant |due| == k && forall j :: 0 <= j < k ==> due[j] == db.state.documents[DocIndex(db.state.documents, order[j])]
      {
        due := due + [db.state.documents[DocIndex(db.state.documents, order[k])]];
      }
      assert due == DocsOf(db.state.documents, order);
      assert order != [] ==> [due[0]] == DocsOf(db.state.documents, order[..1]);
      answer := DestroyEach(due, text, actor);
    }
  }
}
