/** From the sender to the vault: what an accepted upload stands for, and what admitting it keeps. */
module CustodyIntake {
  import opened Common
  import opened Documents
  import opened Paths
  import opened Store
  import opened Custody
  import opened Records
  import opened CustodyInvariant
  import opened CustodyAdmin

  /** The staging file can be written. */
  predicate Writable(files: Files, p: Path) {
    !ParentBlocked(files, p) && !(p in files && files[p].isSealed)
  }

  predicate GoodEnvelope(c: Config, e: Envelope, content: bytes) {
    e.protocol == "1.0" && e.sha256 == c.sha256(content) && e.sizeBytes == |content| && FromDirName(e.category).Some?
  }

  /** The submission says what the envelope said and what the content is. */
  predicate Stands(c: Config, sub: Submission, deviceId: string, e: Envelope, content: bytes) {
    && sub.deviceId == deviceId && sub.state.Pending?
    && sub.sha256 == e.sha256 == c.sha256(content) && sub.blake3 == c.blake3(content) && sub.sizeBytes == |content|
    && FromDirName(e.category) == Some(sub.meta.category)
    && sub.meta.author == e.author && sub.meta.department == e.department && sub.meta.academicYear == e.academicYear
    && sub.meta.fileName == e.fileName && (e.title != "" ==> sub.meta.title == e.title)
    && (e.title == "" ==> sub.meta.title == e.fileName)
  }

  /** An upload is accepted exactly when its envelope is of the protocol and true of the content, names a category, and the
      staging file can be written; the content then waits in the staging file that its submission names. */
  lemma UploadAcceptedIff(
      c: Config, w: World, deviceId: string, envelope: Option<Envelope>, content: bytes, subId: string, at: string,
      w': World, answer: Result<(), OpError>)
    requires (w', answer) == Upload(c, w, deviceId, envelope, content, subId, at)
    ensures answer.Ok? <==> Writable(w.files, StagingPath(IncomingName(c.sha256(content))))
                            && envelope.Some? && GoodEnvelope(c, envelope.value, content)
    ensures answer.Ok? ==>
              && |w'.db.submissions| == |w.db.submissions| + 1
              && Stands(c, w'.db.submissions[|w.db.submissions|], deviceId, envelope.value, content)
              && StagingPath(w'.db.submissions[|w.db.submissions|].stagingPath) in w'.files
              && w'.files[StagingPath(w'.db.submissions[|w.db.submissions|].stagingPath)] == File(content, false)
  {
    hide Append, ParentBlocked, StagingPath, IncomingName, FromDirName;
  }

  /** Does an active document have this digest? */
  predicate IsActive(docs: seq<Document>, sha256: string) {
    exists k :: 0 <= k < |docs| && docs[k].sha256 == sha256
  }

  /** Admitting what was just received never fails for want of the file or for its digests: it seals the document, finds its
      content already active, or finds a file or folder at its place, each exactly when that is so. The sealed document holds
      exactly the bytes received, under the digest that the sender declared, and the staging file is gone. */
  lemma AdmitAfterUpload(
      c: Config, w: World, i: nat, deviceId: string, e: Envelope, content: bytes, actor: string, newId: string,
      stamp: Option<string>, w': World, answer: Result<SealOutcome, OpError>)
    requires Inv(c, w) && Fresh(w, newId) && i < |w.db.submissions|
    requires SubIndex(w.db.submissions, w.db.submissions[i].submissionId) == i
    requires Stands(c, w.db.submissions[i], deviceId, e, content)
    requires StagingPath(w.db.submissions[i].stagingPath) in w.files
    requires w.files[StagingPath(w.db.submissions[i].stagingPath)].content == content
    requires (w', answer) == Admit(c, w, w.db.submissions[i].submissionId, actor, newId, stamp)
    ensures answer == Err(Collision) || answer.Ok?
    ensures (answer.Ok? && answer.value.Duplicate?) <==> IsActive(w.db.documents, e.sha256)
    ensures answer == Err(Collision)
            <==> !IsActive(w.db.documents, e.sha256)
                 && Exists(w.files,
                           RelPathFor(c.alnum, e.author, Reclassified(c, w.db.submissions[i].meta).category, e.fileName))
    ensures answer.Ok? && answer.value.Sealed? ==>
              var doc := answer.value.doc;
              && doc.sha256 == e.sha256 && doc.sizeBytes == |content| && doc.originDevice == Some(deviceId)
              && doc.meta.author == e.author && doc.meta.fileName == e.fileName
              && doc.relPath in w'.files && w'.files[doc.relPath] == File(content, true)
              && StagingPath(w.db.submissions[i].stagingPath) !in w'.files
  {
    hide Inv, Fresh, SealDocument, Append, StagingPath, Recs;
    var sub := w.db.submissions[i];
    var r := AdmitRequest(c, w, sub, actor, newId, stamp);
    var w1 := Reviewed(c, w, sub, r);
    ReviewedKeepsInv(c, w, sub, r, newId);
    var (w2, sealed) := SealDocument(c, w1, r);
    SealAnswers(c, w1, r, w2, sealed);
    if sealed.Ok? && sealed.value.Sealed? { SealedContentIsKept(c, w1, r, w2, sealed); }
  }

  /** Sealing answers that the content is active already, that the place is taken, or with the document. */
  lemma SealAnswers(c: Config, w: World, r: SealRequest, w': World, answer: Result<SealOutcome, OpError>)
    requires Inv(c, w) && (w', answer) == SealDocument(c, w, r)
    ensures answer == Err(Collision) || answer.Ok?
    ensures (answer.Ok? && answer.value.Duplicate?) <==> IsActive(w.db.documents, c.sha256(r.content))
    ensures answer == Err(Collision)
            <==> !IsActive(w.db.documents, c.sha256(r.content)) && Exists(w.files, SealedDoc(c, r).relPath)
    ensures answer.Ok? && answer.value.Sealed? ==> answer.value.doc == SealedDoc(c, r)
  {
    hide Inv, Append, ParentBlocked, Exists;
    InvPlaces(c, w);
    DocFolderIsFree(w.files, SealedDoc(c, r).relPath, r.meta.category);
  }
}
