/** What comes in and what goes: the exact answers of import, admission, rejection, upload, destruction and purge, and what they
    leave behind. */
module CustodyDecisions {
  import opened Common
  import opened Documents
  import opened Paths
  import opened Store
  import opened Custody
  import opened CustodyInvariant
  import opened Records
  import opened CustodyRoles
  import opened CustodyAdmin
  import opened CustodyIntake
  import opened CustodyOutcomes

  /** The log ends with this entry. */
  predicate LastLogged(c: Config, db: DbState, actor: string, action: string, subject: string, detail: Detail) {
    && db.audit != []
    && var e := db.audit[|db.audit| - 1];
    && e.actor == actor && e.action == action && e.subject == subject && e.detail == detail
    && e.timestamp == c.ink.clock(|db.audit| - 1)
  }

  lemma NotedIsLast(c: Config, db: DbState, actor: string, action: string, subject: string, detail: Detail)
    ensures LastLogged(c, Noted(c.ink, db, actor, action, subject, detail), actor, action, subject, detail)
  {}

  /** The `k`-th active document is the first with this content. */
  predicate FirstOf(docs: seq<Document>, sha256: string, k: nat) {
    k < |docs| && docs[k].sha256 == sha256 && forall j :: 0 <= j < k ==> docs[j].sha256 != sha256
  }

  lemma {:induction false} FirstBySha(docs: seq<Document>, sha256: string)
    ensures var k := ShaIndex(docs, sha256); k < |docs| ==> FirstOf(docs, sha256, k)
    ensures ShaIndex(docs, sha256) < |docs| <==> IsActive(docs, sha256)
  {
    if docs != [] {
      FirstBySha(docs[1..], sha256);
      assert forall j :: 0 < j < |docs| ==> docs[j] == docs[1..][j - 1];
    }
  }

  /** What is sealed: the digests and the size of the content, what is known about it, and its place. */
  predicate SealedAs(
      c: Config, doc: Document, newId: string, content: bytes, meta: DocumentMeta, stamp: Option<string>,
      origin: Option<string>)
  {
    && doc.vaultId == newId && doc.sha256 == c.sha256(content) && doc.blake3 == c.blake3(content)
    && doc.sizeBytes == |content| && doc.meta == meta && doc.rfc3161Time == stamp && doc.integrity.Intact?
    && doc.originDevice == origin
    && doc.relPath
       == [SanitizeComponent(c.alnum, meta.author), DirName(meta.category), SanitizeComponent(c.alnum, meta.fileName)]
  }

  /** The content is active already: nothing changes, and the answer names the first document that has it. */
  ghost predicate FindsDuplicate(w: World, sha256: string, w': World, answer: Result<SealOutcome, OpError>) {
    && w' == w && answer.Ok? && answer.value.Duplicate?
    && exists k: nat :: FirstOf(w.db.documents, sha256, k) && answer.value.existingId == w.db.documents[k].vaultId
  }

  /** The content is sealed: one document, one file and one entry more. */
  predicate Seals(c: Config, w: World, r: SealRequest, w': World, answer: Result<SealOutcome, OpError>) {
    var place := [SanitizeComponent(c.alnum, r.meta.author), DirName(r.meta.category),
                  SanitizeComponent(c.alnum, r.meta.fileName)];
    && answer.Ok? && answer.value.Sealed?
    && SealedAs(c, answer.value.doc, r.newId, r.content, r.meta, r.stamp, r.originDevice)
    && w'.db == w.db.(documents := w.db.documents + [answer.value.doc], audit := w'.db.audit)
    && w'.files == (if r.staged.Some? then w.files - {r.staged.value} else w.files)[place := File(r.content, true)]
    && Logged(c, w.db, w'.db, r.actor, r.action, c.sha256(r.content), Placed(r.newId, place))
  }

  lemma SealFindsDuplicate(c: Config, w: World, r: SealRequest)
    requires IsActive(w.db.documents, c.sha256(r.content))
    ensures FindsDuplicate(w, c.sha256(r.content), SealDocument(c, w, r).0, SealDocument(c, w, r).1)
  {
    hide FirstOf, IsActive, Append, Exists, ParentBlocked;
    FirstBySha(w.db.documents, c.sha256(r.content));
  }

  lemma SealSeals(c: Config, w: World, r: SealRequest)
    requires SealDocument(c, w, r).1.Ok? && !IsActive(w.db.documents, c.sha256(r.content))
    ensures Seals(c, w, r, SealDocument(c, w, r).0, SealDocument(c, w, r).1)
  {
    FirstBySha(w.db.documents, c.sha256(r.content));
    hide Append, Exists, ParentBlocked, SanitizeComponent, DirName, Logged, IsActive, FirstOf;
    var doc := SealedDoc(c, r);
    NotedIsLogged(c, w.db, w.db.(documents := w.db.documents + [doc]), r.actor, r.action, doc.sha256,
                  Placed(doc.vaultId, doc.relPath));
  }

  /** `seal_document` by its outcomes; `w0` is a state of the invariant with the same documents and files. */
  lemma SealOutcomes(c: Config, w0: World, w: World, r: SealRequest)
    requires Inv(c, w0) && w.files == w0.files && w.db.documents == w0.db.documents
    ensures var (w', answer) := SealDocument(c, w, r);
            if IsActive(w.db.documents, c.sha256(r.content)) then FindsDuplicate(w, c.sha256(r.content), w', answer)
            else if Exists(w.files, RelPathFor(c.alnum, r.meta.author, r.meta.category, r.meta.fileName))
            then w' == w && answer == Err(Collision)
            else Seals(c, w, r, w', answer)
  {
    hide Inv, Exists, RelPathFor, FindsDuplicate, Seals, IsActive, SealDocument;
    FirstBySha(w.db.documents, c.sha256(r.content));
    SealAnswersIff(c, w0, w, r);
    if IsActive(w.db.documents, c.sha256(r.content)) {
      SealFindsDuplicate(c, w, r);
    } else if SealDocument(c, w, r).1.Ok? {
      SealSeals(c, w, r);
    }
  }

  /** An import is for Administración and Coordinación, and needs some content. */
  lemma ImportOutcomes(
      c: Config, s: Session, w: World, content: bytes, meta: DocumentMeta, newId: string, stamp: Option<string>)
    requires Inv(c, w)
    ensures var (w', answer) := Import(c, false, s, w, content, meta, newId, stamp);
            var rule := c.classify(meta.fileName);
            var known := meta.(author := s.displayName, category := if rule.Some? then rule.value else MaterialGrafico);
            if s.role != Administrativo && s.role != Coordinacion then w' == w && answer == Err(Denied)
            else if content == [] then w' == w && answer == Err(IoError)
            else if IsActive(w.db.documents, c.sha256(content)) then FindsDuplicate(w, c.sha256(content), w', answer)
            else if Exists(w.files, RelPathFor(c.alnum, known.author, known.category, known.fileName))
            then w' == w && answer == Err(Collision)
            else Seals(c, w, SealRequest(content, None, known, None, s.username, "import", newId, stamp), w', answer)
  {
    hide Inv, Exists, RelPathFor, FindsDuplicate, Seals, IsActive, SealDocument;
    var rule := c.classify(meta.fileName);
    var known := meta.(author := s.displayName, category := if rule.Some? then rule.value else MaterialGrafico);
    SealOutcomes(c, w, w, SealRequest(content, None, known, None, s.username, "import", newId, stamp));
  }

  // ---------- decisions on submissions ----------

  /** The submission of this id is the `i`-th. */
  predicate SubmittedAt(w: World, subId: string, i: nat) {
    && i < |w.db.submissions| && w.db.submissions[i].submissionId == subId
    && forall j :: 0 <= j < i ==> w.db.submissions[j].submissionId != subId
  }

  lemma {:induction false} FirstSubmission(subs: seq<Submission>, subId: string, i: nat)
    requires i < |subs| && subs[i].submissionId == subId && forall j :: 0 <= j < i ==> subs[j].submissionId != subId
    ensures SubIndex(subs, subId) == i
  {
    if i > 0 { FirstSubmission(subs[1..], subId, i - 1); }
  }

  /** What cannot be decided: an unknown or decided submission, one without its file, and one whose file is not what was
      received. The last leaves an entry. */
  lemma UndecidableOutcomes(c: Config, w: World, subId: string, actor: string, newId: string, stamp: Option<string>)
    ensures var (w', answer) := Admit(c, w, subId, actor, newId, stamp);
            && ((forall i :: 0 <= i < |w.db.submissions| && SubmittedAt(w, subId, i) ==> !w.db.submissions[i].state.Pending?)
                ==> w' == w && answer == Err(NotFound))
            && forall i :: 0 <= i < |w.db.submissions| && SubmittedAt(w, subId, i) && w.db.submissions[i].state.Pending? ==>
                 var sub := w.db.submissions[i];
                 if [".staging", sub.stagingPath] !in w.files then w' == w && answer == Err(IoError)
                 else
                   var content := w.files[[".staging", sub.stagingPath]].content;
                   c.sha256(content) != sub.sha256 || c.blake3(content) != sub.blake3 ==>
                     && answer == Err(HashMismatch) && w' == w.(db := w.db.(audit := w'.db.audit))
                     && Logged(c, w.db, w'.db, actor, "admit_failed", sub.sha256, Note("staging hash"))
  {
    hide Admission, Append, Logged, AdmitRequest;
    var i := SubIndex(w.db.submissions, subId);
    if i < |w.db.submissions| {
      assert SubmittedAt(w, subId, i);
      NotedIsLogged(c, w.db, w.db, actor, "admit_failed", w.db.submissions[i].sha256, Note("staging hash"));
      forall k | 0 <= k < |w.db.submissions| && SubmittedAt(w, subId, k)
        ensures k == i
      {
        FirstSubmission(w.db.submissions, subId, k);
      }
    }
  }

  /** What the institution's rules make of a submission. */
  function Ruled(c: Config, meta: DocumentMeta): DocumentMeta {
    match c.classify(meta.fileName)
    case Some(category) => meta.(category := category)
    case None => meta
  }

  /** The log after the review: with an entry exactly when the rules overruled the sender. */
  predicate ReviewLogged(c: Config, w: World, sub: Submission, actor: string, log: Log) {
    var meta := Ruled(c, sub.meta);
    if meta.category == sub.meta.category then log == w.db.audit
    else Logged(c, w.db, w.db.(audit := log), actor, "admit_reclassify", sub.sha256, Note(DirName(meta.category)))
  }

  /** The submission is rejected as a duplicate, and its file removed. */
  ghost predicate ClosedAsDuplicate(c: Config, w: World, i: nat, actor: string, w': World, answer: Result<SealOutcome, OpError>)
    requires i < |w.db.submissions|
  {
    var sub := w.db.submissions[i];
    && answer.Ok? && answer.value.Duplicate?
    && (exists k: nat :: FirstOf(w.db.documents, sub.sha256, k) && answer.value.existingId == w.db.documents[k].vaultId)
    && w'.files == w.files - {StagingPath(sub.stagingPath)}
    && w'.db == w.db.(submissions := w.db.submissions[i := sub.(state := Rejected)], audit := w'.db.audit)
    && LastLogged(c, w'.db, actor, "admit_dup", sub.sha256, Note("duplicate"))
    && ReviewLogged(c, w, sub, actor, w'.db.audit[..|w'.db.audit| - 1])
  }

  /** The submission is admitted, and its content sealed as it was received. */
  predicate SealedAsReceived(
      c: Config, w: World, i: nat, actor: string, newId: string, stamp: Option<string>, w': World,
      answer: Result<SealOutcome, OpError>)
    requires i < |w.db.submissions| && StagingPath(w.db.submissions[i].stagingPath) in w.files
  {
    var sub := w.db.submissions[i];
    var staged := StagingPath(sub.stagingPath);
    && answer.Ok? && answer.value.Sealed?
    && SealedAs(c, answer.value.doc, newId, w.files[staged].content, Ruled(c, sub.meta), stamp, Some(sub.deviceId))
    && w'.files == (w.files - {staged})[answer.value.doc.relPath := File(w.files[staged].content, true)]
    && w'.db == w.db.(documents := w.db.documents + [answer.value.doc],
                      submissions := w.db.submissions[i := sub.(state := Admitted)], audit := w'.db.audit)
    && LastLogged(c, w'.db, actor, "admit", sub.sha256, Placed(newId, answer.value.doc.relPath))
    && ReviewLogged(c, w, sub, actor, w'.db.audit[..|w'.db.audit| - 1])
  }

  /** The admission of a pending submission whose file is what was received: closed as a duplicate, refused for its place and
      still pending, or sealed as received, under the rules of the institution. */
  lemma AdmissionOutcomes(c: Config, w: World, subId: string, actor: string, newId: string, stamp: Option<string>, i: nat)
    requires Inv(c, w) && SubmittedAt(w, subId, i) && Decidable(c, w, subId)
    ensures StagingPath(w.db.submissions[i].stagingPath) in w.files
    ensures var (w', answer) := Admit(c, w, subId, actor, newId, stamp);
            var sub := w.db.submissions[i];
            var meta := Ruled(c, sub.meta);
            if IsActive(w.db.documents, sub.sha256) then ClosedAsDuplicate(c, w, i, actor, w', answer)
            else if Exists(w.files, RelPathFor(c.alnum, meta.author, meta.category, meta.fileName)) then
              && answer == Err(Collision) && w' == w.(db := w.db.(audit := w'.db.audit))
              && ReviewLogged(c, w, sub, actor, w'.db.audit)
            else SealedAsReceived(c, w, i, actor, newId, stamp, w', answer)
  {
    hide Inv, Exists, RelPathFor, IsActive, SealDocument, StagingPath, ClosedAsDuplicate, SealedAsReceived, FindsDuplicate,
      Seals, Admission, Admit, Reviewed, Decidable, Ruled, ReviewLogged;
    var r := AdmitIsAdmission(c, w, subId, actor, newId, stamp, i);
    var sub := w.db.submissions[i];
    ReviewedIsLike(c, w, sub, r);
    SealOutcomes(c, w, Reviewed(c, w, sub, r), r);
    if IsActive(w.db.documents, sub.sha256) {
      AdmissionClosed(c, w, i, r);
    } else if Exists(w.files, RelPathFor(c.alnum, r.meta.author, r.meta.category, r.meta.fileName)) {
      AdmissionRefused(c, w, i, r);
    } else {
      AdmissionSealed(c, w, i, r, newId, stamp);
    }
  }

  lemma AdmitIsAdmission(c: Config, w: World, subId: string, actor: string, newId: string, stamp: Option<string>, i: nat)
    returns (r: SealRequest)
    requires SubmittedAt(w, subId, i) && Decidable(c, w, subId)
    ensures var sub := w.db.submissions[i];
            var staged := StagingPath(sub.stagingPath);
            && staged in w.files && sub.sha256 == c.sha256(w.files[staged].content)
            && r == SealRequest(w.files[staged].content, Some(staged), Ruled(c, sub.meta), Some(sub.deviceId), actor, "admit",
                                newId, stamp)
            && Admit(c, w, subId, actor, newId, stamp) == Admission(c, w, i, r)
  {
    hide Admission, StagingPath;
    FirstSubmission(w.db.submissions, subId, i);
    r := AdmitRequest(c, w, w.db.submissions[i], actor, newId, stamp);
  }

  lemma ReviewedIsLike(c: Config, w: World, sub: Submission, r: SealRequest)
    requires r.meta == Ruled(c, sub.meta)
    ensures var w1 := Reviewed(c, w, sub, r);
            w1 == w.(db := w.db.(audit := w1.db.audit)) && ReviewLogged(c, w, sub, r.actor, w1.db.audit)
  {
    hide Append, Logged, DirName;
    NotedIsLogged(c, w.db, w.db, r.actor, "admit_reclassify", sub.sha256, Note(DirName(r.meta.category)));
    assert r.meta == sub.meta <==> r.meta.category == sub.meta.category;
  }

  lemma AdmissionRefused(c: Config, w: World, i: nat, r: SealRequest)
    requires i < |w.db.submissions|
    requires var w1 := Reviewed(c, w, w.db.submissions[i], r);
             SealDocument(c, w1, r).0 == w1 && SealDocument(c, w1, r).1 == Err(Collision)
    ensures Admission(c, w, i, r) == (Reviewed(c, w, w.db.submissions[i], r), Err(Collision))
  {
    hide SealDocument, Reviewed;
  }

  lemma AdmissionClosed(c: Config, w: World, i: nat, r: SealRequest)
    requires i < |w.db.submissions| && w.db.submissions[i].sha256 == c.sha256(r.content)
    requires r.meta == Ruled(c, w.db.submissions[i].meta)
    requires var w1 := Reviewed(c, w, w.db.submissions[i], r);
             FindsDuplicate(w1, c.sha256(r.content), SealDocument(c, w1, r).0, SealDocument(c, w1, r).1)
    ensures ClosedAsDuplicate(c, w, i, r.actor, Admission(c, w, i, r).0, Admission(c, w, i, r).1)
  {
    hide SealDocument, StagingPath, Append, FirstOf, LastLogged, ReviewLogged, Reviewed, Ruled;
    var sub := w.db.submissions[i];
    var w1 := Reviewed(c, w, sub, r);
    ReviewedIsLike(c, w, sub, r);
    AppendGrows(c.ink, w1.db.audit, r.actor, "admit_dup", sub.sha256, Note("duplicate"));
    var log := Append(c.ink, w1.db.audit, r.actor, "admit_dup", sub.sha256, Note("duplicate"));
    assert log[..|log| - 1] == w1.db.audit;
    NotedIsLast(c, WithSubState(w1.db, i, Rejected), r.actor, "admit_dup", sub.sha256, Note("duplicate"));
  }

  lemma AdmissionSealed(c: Config, w: World, i: nat, r: SealRequest, newId: string, stamp: Option<string>)
    requires i < |w.db.submissions| && w.db.submissions[i].sha256 == c.sha256(r.content)
    requires StagingPath(w.db.submissions[i].stagingPath) in w.files
    requires r == SealRequest(w.files[StagingPath(w.db.submissions[i].stagingPath)].content,
                              Some(StagingPath(w.db.submissions[i].stagingPath)), Ruled(c, w.db.submissions[i].meta),
                              Some(w.db.submissions[i].deviceId), r.actor, "admit", newId, stamp)
    requires var w1 := Reviewed(c, w, w.db.submissions[i], r);
             Seals(c, w1, r, SealDocument(c, w1, r).0, SealDocument(c, w1, r).1)
    ensures SealedAsReceived(c, w, i, r.actor, newId, stamp, Admission(c, w, i, r).0, Admission(c, w, i, r).1)
  {
    hide SealDocument, StagingPath, Append, LastLogged, SanitizeComponent, DirName, ReviewLogged, Reviewed, Ruled;
    var sub := w.db.submissions[i];
    var w1 := Reviewed(c, w, sub, r);
    ReviewedIsLike(c, w, sub, r);
    LoggedIsLast(c, w1.db, SealDocument(c, w1, r).0.db, r.actor, "admit", sub.sha256);
  }

  lemma LoggedIsLast(c: Config, a: DbState, b: DbState, actor: string, action: string, subject: string)
    ensures forall detail :: Logged(c, a, b, actor, action, subject, detail) ==>
              LastLogged(c, b, actor, action, subject, detail)
    ensures forall detail, subs: seq<Submission> :: Logged(c, a, b, actor, action, subject, detail) ==>
              LastLogged(c, b.(submissions := subs), actor, action, subject, detail)
  {}

  /** A rejection needs a pending submission; it takes the file and closes the submission with the reason in the log. */
  lemma RejectionOutcomes(c: Config, w: World, subId: string, reason: string, actor: string)
    ensures var (w', answer) := Reject(c, w, subId, reason, actor);
            && (answer.Err? ==> w' == w && answer == Err(NotFound))
            && (answer.Ok? <==> exists i :: 0 <= i < |w.db.submissions| && SubmittedAt(w, subId, i)
                                            && w.db.submissions[i].state.Pending?)
            && forall i :: 0 <= i < |w.db.submissions| && SubmittedAt(w, subId, i) && w.db.submissions[i].state.Pending? ==>
                 var sub := w.db.submissions[i];
                 && w'.files == w.files - {[".staging", sub.stagingPath]}
                 && w'.db == w.db.(submissions := w.db.submissions[i := sub.(state := Rejected)], audit := w'.db.audit)
                 && Logged(c, w.db, w'.db, actor, "reject", sub.sha256, Note(reason))
  {
    hide Append, Logged;
    var i := SubIndex(w.db.submissions, subId);
    if i < |w.db.submissions| {
      assert SubmittedAt(w, subId, i);
      NotedIsLogged(c, w.db, WithSubState(w.db, i, Rejected), actor, "reject", w.db.submissions[i].sha256, Note(reason));
      forall k | 0 <= k < |w.db.submissions| && SubmittedAt(w, subId, k)
        ensures k == i
      {
        FirstSubmission(w.db.submissions, subId, k);
      }
    }
  }

  // ---------- uploads ----------

  /** Why an upload is refused, and what each refusal leaves: a file that cannot be written, an envelope that cannot be read or
      is of another protocol, one that is untrue of the content, and one of an unknown category. */
  lemma UploadRefusals(
      c: Config, w: World, deviceId: string, envelope: Option<Envelope>, content: bytes, subId: string, at: string)
    ensures var (w', answer) := Upload(c, w, deviceId, envelope, content, subId, at);
            var staged := [".staging", c.sha256(content) + ".incoming"];
            if !Writable(w.files, staged) then w' == w && answer == Err(IoError)
            else if envelope.None? || envelope.value.protocol != "1.0" then
              w' == w.(files := w.files[staged := File(content, false)]) && answer == Err(BadEnvelope)
            else if envelope.value.sha256 != c.sha256(content) || envelope.value.sizeBytes != |content| then
              w' == w.(files := w.files - {staged}) && answer == Err(HashMismatch)
            else if FromDirName(envelope.value.category).None? then
              w' == w.(files := w.files[staged := File(content, false)]) && answer == Err(BadEnvelope)
            else answer.Ok?
  {
    hide Append, ParentBlocked, FromDirName;
  }

  /** What an accepted upload queues, and its entry. */
  lemma UploadLeaves(
      c: Config, w: World, deviceId: string, e: Envelope, content: bytes, subId: string, at: string)
    requires Writable(w.files, StagingPath(IncomingName(c.sha256(content)))) && GoodEnvelope(c, e, content)
    ensures var w' := Upload(c, w, deviceId, Some(e), content, subId, at).0;
            var name := c.sha256(content) + ".incoming";
            && w'.files == w.files[[".staging", name] := File(content, false)]
            && w'.db == w.db.(submissions := w'.db.submissions, audit := w'.db.audit)
            && |w'.db.submissions| == |w.db.submissions| + 1 && w'.db.submissions[..|w.db.submissions|] == w.db.submissions
            && var sub := w'.db.submissions[|w.db.submissions|];
            && Stands(c, sub, deviceId, e, content) && sub.submissionId == subId && sub.stagingPath == name
            && sub.receivedAt == at && sub.meta.extension == c.extension(e.fileName)
            && Logged(c, w.db, w'.db, deviceId, "upload_received", c.sha256(content), Note(e.fileName))
  {
    hide Append, ParentBlocked, FromDirName, Logged;
    var sub := NewSubmission(c, deviceId, e, FromDirName(e.category).value, content, subId, at);
    NotedIsLogged(c, w.db, w.db.(submissions := w.db.submissions + [sub]), deviceId, "upload_received", sub.sha256,
                  Note(sub.meta.fileName));
  }

  // ---------- destruction and purge ----------

  /** A destruction needs both PINs and an active document. */
  lemma DestructionAnswers(
      c: Config, o: Office, id: string, pins: bool, grace: nat, now: nat, text: bytes, reason: string, actor: string)
    requires Inv(c, o.w)
    ensures var (o', answer) := Destroy(c, o, id, pins, grace, now, text, reason, actor);
            && (!pins ==> o' == o && answer == Err(BadPin))
            && (pins && !HasId(o.w.db.documents, id) ==> o' == o && answer == Err(NotFound))
            && (pins && HasId(o.w.db.documents, id) ==> answer.Ok?)
  {
    hide Inv, ExecuteDestruction, Append, Steady, SameShelves, SameBooks;
    var (o', answer) := Destroy(c, o, id, pins, grace, now, text, reason, actor);
    DestroyKeepsInv(c, o, id, pins, grace, now, text, reason, actor, o', answer);
  }

  /** With a grace period the destruction is only scheduled, for then. */
  lemma ScheduleLeaves(
      c: Config, o: Office, id: string, grace: nat, now: nat, text: bytes, reason: string, actor: string, i: nat)
    requires ActiveAt(o.w, id, i) && grace > 0
    ensures var o' := Destroy(c, o, id, true, grace, now, text, reason, actor).0;
            && o'.pending == o.pending[id := now + grace] && o'.w == o.w.(db := o.w.db.(audit := o'.w.db.audit))
            && Logged(c, o.w.db, o'.w.db, actor, "destroy_scheduled", o.w.db.documents[i].sha256, About(id, reason))
  {
    ActiveIsFirst(o.w, id, i);
    hide ExecuteDestruction, Append, Logged, ActiveAt;
    NotedIsLogged(c, o.w.db, o.w.db, actor, "destroy_scheduled", o.w.db.documents[i].sha256, About(id, reason));
  }

  /** Without one the document and its file go, and a sealed tombstone stays. */
  lemma DestructionLeaves(c: Config, o: Office, id: string, now: nat, text: bytes, reason: string, actor: string, i: nat)
    requires Inv(c, o.w) && ActiveAt(o.w, id, i)
    ensures var o' := Destroy(c, o, id, true, 0, now, text, reason, actor).0;
            var doc := o.w.db.documents[i];
            && o'.pending == o.pending
            && o'.w.db == o.w.db.(documents := o.w.db.documents[..i] + o.w.db.documents[i + 1..], audit := o'.w.db.audit)
            && o'.w.files == (o.w.files - {doc.relPath})[
                               [".tombstones", "tombstone-" + id + ".txt"] := File(text, true)]
            && Logged(c, o.w.db, o'.w.db, actor, "destroy_executed", doc.sha256, About(id, reason))
  {
    ActiveIsFirst(o.w, id, i);
    hide Inv, ExecuteDestruction, Logged, ActiveAt;
    ExecutionLeaves(c, o.w, i, text, reason, actor);
  }

  lemma ExecutionLeaves(c: Config, w: World, i: nat, text: bytes, reason: string, actor: string)
    requires Inv(c, w) && i < |w.db.documents|
    ensures var doc := w.db.documents[i];
            var (w', answer) := ExecuteDestruction(c, w, doc, text, reason, actor);
            && answer.Ok?
            && w'.db == w.db.(documents := w.db.documents[..i] + w.db.documents[i + 1..], audit := w'.db.audit)
            && w'.files == (w.files - {doc.relPath})[
                             [".tombstones", "tombstone-" + doc.vaultId + ".txt"] := File(text, true)]
            && Logged(c, w.db, w'.db, actor, "destroy_executed", doc.sha256, About(doc.vaultId, reason))
  {
    hide Inv, Append, Logged, Steady, SameShelves, SameBooks, ParentBlocked, Exists;
    var doc := w.db.documents[i];
    var (w', answer) := ExecuteDestruction(c, w, doc, text, reason, actor);
    ExecuteDestructionKeepsInv(c, w, i, text, reason, actor, w', answer);
    NotedIsLogged(c, w.db, w.db.(documents := Removed(w.db.documents, doc.vaultId)), actor, "destroy_executed", doc.sha256,
                  About(doc.vaultId, reason));
  }

  /** The log with an entry for each of these documents, destroyed because its grace period was over. */
  function Expired(c: Config, log: Log, due: seq<Document>, actor: string): Log
    decreases |due|
  {
    if due == [] then log
    else
      var entry := About(due[0].vaultId, "grace period expired");
      Expired(c, Append(c.ink, log, actor, "destroy_executed", due[0].sha256, entry), due[1..], actor)
  }

  /** A walk over due destructions that ends well logs each of them, in the order of the walk. */
  lemma {:induction false} DueAreLogged(c: Config, o: Office, due: seq<Document>, text: bytes, actor: string)
    ensures var (o', answer) := DestroyAll(c, o, due, text, actor);
            answer.Ok? ==> o'.w.db.audit == Expired(c, o.w.db.audit, due, actor)
    decreases |due|
  {
    hide Append, ParentBlocked, Exists, TombstonePath, Removed;
    if due != [] {
      var (w, r) := ExecuteDestruction(c, o.w, due[0], text, "grace period expired", actor);
      DueAreLogged(c, Office(w, o.pending - {due[0].vaultId}), due[1..], text, actor);
    }
  }

  /** A purge needs a trash entry; the entry and its file go, and nothing else changes. */
  lemma PurgeOutcomes(c: Config, w: World, id: string)
    requires Inv(c, w)
    ensures var (w', answer) := Purge(w, id);
            && (answer.Err? ==> w' == w && answer == Err(NotFound))
            && (answer.Ok? <==> exists k :: 0 <= k < |w.db.trashed| && w.db.trashed[k].document.vaultId == id)
  {
    hide Inv, Exists, Recs;
    var i := TrashIndex(w.db.trashed, id);
    if i < |w.db.trashed| {
      TrashedIsClaimed(c, w, i);
      assert w.db.trashed[i].document.vaultId == id;
    }
  }

  lemma PurgeLeaves(c: Config, w: World, id: string, i: nat)
    requires Inv(c, w) && i < |w.db.trashed| && w.db.trashed[i].document.vaultId == id
    requires forall j :: 0 <= j < i ==> w.db.trashed[j].document.vaultId != id
    ensures var (w', answer) := Purge(w, id);
            && answer == Ok(w.db.trashed[i]) && w'.files == w.files - {w.db.trashed[i].document.relPath}
            && w'.db == w.db.(trashed := w.db.trashed[..i] + w.db.trashed[i + 1..])
  {
    hide Inv, Exists, Recs;
    FirstTrashed(w.db.trashed, id, i);
    TrashedIsClaimed(c, w, i);
  }
}
