/** Runs that end where one might not expect: a pending submission without its file, two active documents of one content, a
    document without its seal, an entry that a restart loses. */
module CustodyExamples {
  import opened Common
  import opened Text
  import opened Documents
  import opened AuditChain
  import opened Paths
  import opened Store
  import opened Custody
  import opened Replay
  import opened Records
  import opened CustodyInvariant
  import opened CustodyRoles
  import opened CustodyAdmin
  import opened CustodyIntake
  import opened CustodyMachine
  import opened CustodySteps
  import opened CustodyRuns
  import opened CustodyOutcomes

  lemma RunSnoc(c: Config, ms: seq<Moment>, steps: seq<Step>, step: Step) returns (ms': seq<Moment>)
    requires Run(c, ms, steps) && Enabled(c, ms[|steps|], step)
    ensures Run(c, ms', steps + [step]) && |ms'| == |ms| + 1 && ms <= ms'
    ensures ms'[|steps| + 1] == Perform(c, ms[|steps|], step)
  {
    hide Perform, Enabled;
    ms' := ms + [Perform(c, ms[|steps|], step)];
    var ss := steps + [step];
    forall i | 0 <= i < |ss|
      ensures Enabled(c, ms'[i], ss[i]) && ms'[i + 1] == Perform(c, ms'[i], ss[i])
    {
      if i < |steps| { assert ms'[i] == ms[i] && ms'[i + 1] == ms[i + 1] && ss[i] == steps[i]; }
    }
  }

  lemma NoSteps(c: Config)
    ensures Run(c, [START], [])
  {}

  // ---------- a pending submission without its file ----------

  lemma UploadActs(c: Config, m: Moment, step: Step)
    requires step.Uploading?
    ensures Perform(c, m, step).o.w
            == Upload(c, m.o.w, step.deviceId, step.envelope, step.content, step.subId, step.at).0
  {
    hide Upload, Flushes;
  }

  lemma RejectActs(c: Config, m: Moment, step: Step)
    requires step.Rejecting?
    ensures Perform(c, m, step).o.w == Reject(c, m.o.w, step.subId, step.reason, step.actor).0
  {
    hide Reject, Flushes;
  }

  /** Nothing but perhaps this one file, waiting in staging. */
  predicate OnlyStaged(files: Files, path: Path) {
    forall p :: p in files ==> p == path && !files[p].isSealed
  }

  lemma UploadIsQueued(c: Config, w: World, deviceId: string, e: Envelope, content: bytes, subId: string, at: string)
    requires GoodEnvelope(c, e, content) && OnlyStaged(w.files, StagingPath(IncomingName(c.sha256(content))))
    ensures var path := StagingPath(IncomingName(c.sha256(content)));
            var w' := Upload(c, w, deviceId, Some(e), content, subId, at).0;
            && w'.files == w.files[path := File(content, false)] && OnlyStaged(w'.files, path)
            && w'.db.submissions
               == w.db.submissions + [NewSubmission(c, deviceId, e, FromDirName(e.category).value, content, subId, at)]
  {
    StagingIsShort(IncomingName(c.sha256(content)));
    hide Append, StagingPath, IncomingName, FromDirName;
  }

  lemma BadUploadTakesFile(
      c: Config, w: World, deviceId: string, e: Envelope, content: bytes, subId: string, at: string)
    requires e.protocol == "1.0" && (e.sha256 != c.sha256(content) || e.sizeBytes != |content|)
    requires OnlyStaged(w.files, StagingPath(IncomingName(c.sha256(content))))
    ensures var (w', answer) := Upload(c, w, deviceId, Some(e), content, subId, at);
            answer == Err(HashMismatch) && w'.db == w.db && StagingPath(IncomingName(c.sha256(content))) !in w'.files
  {
    StagingIsShort(IncomingName(c.sha256(content)));
    hide Append, StagingPath, IncomingName, FromDirName;
  }

  /** A submission that waits for a file that is gone cannot be admitted. */
  lemma AdmissionNeedsFile(
      c: Config, w: World, i: nat, actor: string, newId: string, stamp: Option<string>)
    requires i < |w.db.submissions| && SubIndex(w.db.submissions, w.db.submissions[i].submissionId) == i
    requires w.db.submissions[i].state.Pending? && StagingPath(w.db.submissions[i].stagingPath) !in w.files
    ensures Admit(c, w, w.db.submissions[i].submissionId, actor, newId, stamp) == (w, Err(IoError))
  {}

  /** Two devices send the same content under good envelopes; one submission is rejected; the other stays pending, and its
      admission fails for want of the file. */
  lemma EqualUploadsShareOneFile(
      c: Config, e: Envelope, content: bytes, a: string, b: string, idA: string, idB: string, at: string,
      reason: string, actor: string, newId: string, stamp: Option<string>)
    returns (ms: seq<Moment>)
    requires GoodEnvelope(c, e, content) && idA != idB
    ensures Run(c, ms, [Uploading(a, Some(e), content, idA, at), Uploading(b, Some(e), content, idB, at),
                        Rejecting(idA, reason, actor)])
    ensures var w := ms[3].o.w;
            && |w.db.submissions| == 2 && w.db.submissions[1].submissionId == idB && w.db.submissions[1].state.Pending?
            && Admit(c, w, idB, actor, newId, stamp) == (w, Err(IoError))
  {
    hide Perform, Upload, Reject, Admit, StagingPath, IncomingName, GoodEnvelope;
    var path := StagingPath(IncomingName(c.sha256(content)));
    var s1 := Uploading(a, Some(e), content, idA, at);
    var s2 := Uploading(b, Some(e), content, idB, at);
    var s3 := Rejecting(idA, reason, actor);
    NoSteps(c);
    ms := RunSnoc(c, [START], [], s1);
    UploadActs(c, START, s1);
    UploadIsQueued(c, START.o.w, a, e, content, idA, at);
    ms := RunSnoc(c, ms, [s1], s2);
    var m1 := ms[1];
    UploadActs(c, m1, s2);
    UploadIsQueued(c, m1.o.w, b, e, content, idB, at);
    var m2 := ms[2];
    ms := RunSnoc(c, ms, [s1] + [s2], s3);
    RejectActs(c, m2, s3);
    RejectEndsFirst(c, m2.o.w, idA, reason, actor);
    AdmissionNeedsFile(c, ms[3].o.w, 1, actor, newId, stamp);
    assert [s1] + [s2] + [s3] == [s1, s2, s3];
  }

  lemma RejectEndsFirst(c: Config, w: World, id: string, reason: string, actor: string)
    requires |w.db.submissions| > 0 && w.db.submissions[0].submissionId == id && w.db.submissions[0].state.Pending?
    ensures var w' := Reject(c, w, id, reason, actor).0;
            && w'.files == w.files - {StagingPath(w.db.submissions[0].stagingPath)}
            && w'.db.submissions == w.db.submissions[0 := w.db.submissions[0].(state := Rejected)]
  {
    hide Append, StagingPath;
  }

  /** A content is queued; the same content comes again under an envelope that is untrue of it; the first submission stays
      pending although nothing decided it, and its admission fails for want of the file. */
  lemma UntrueUploadTakesTheFile(
      c: Config, e: Envelope, untrue: Envelope, content: bytes, a: string, b: string, idA: string, idB: string, at: string,
      actor: string, newId: string, stamp: Option<string>)
    returns (ms: seq<Moment>)
    requires GoodEnvelope(c, e, content) && idA != idB
    requires untrue.protocol == "1.0" && (untrue.sha256 != c.sha256(content) || untrue.sizeBytes != |content|)
    ensures Run(c, ms, [Uploading(a, Some(e), content, idA, at), Uploading(b, Some(untrue), content, idB, at)])
    ensures var w := ms[2].o.w;
            && |w.db.submissions| == 1 && w.db.submissions[0].submissionId == idA && w.db.submissions[0].state.Pending?
            && Admit(c, w, idA, actor, newId, stamp) == (w, Err(IoError))
  {
    hide Perform, Upload, Admit, StagingPath, IncomingName, GoodEnvelope;
    var s1 := Uploading(a, Some(e), content, idA, at);
    var s2 := Uploading(b, Some(untrue), content, idB, at);
    NoSteps(c);
    ms := RunSnoc(c, [START], [], s1);
    UploadActs(c, START, s1);
    UploadIsQueued(c, START.o.w, a, e, content, idA, at);
    var m1 := ms[1];
    ms := RunSnoc(c, ms, [s1], s2);
    UploadActs(c, m1, s2);
    BadUploadTakesFile(c, m1.o.w, b, untrue, content, idB, at);
    AdmissionNeedsFile(c, ms[2].o.w, 0, actor, newId, stamp);
    assert [s1] + [s2] == [s1, s2];
  }

  // ---------- two active documents of one content ----------

  lemma ImportActs(c: Config, m: Moment, step: Step)
    requires step.Importing?
    ensures Perform(c, m, step).o.w
            == Import(c, false, step.s, m.o.w, step.content, step.meta, step.newId, step.stamp).0
    ensures Perform(c, m, step).purged == m.purged
  {
    hide Import, Flushes;
  }

  lemma TrashActs(c: Config, m: Moment, step: Step)
    requires step.Trashing?
    ensures Perform(c, m, step).o.w == SoftDelete(c, false, step.s, m.o.w, step.id, step.reason, step.at).0
    ensures Perform(c, m, step).purged == m.purged
  {
    hide SoftDelete, Flushes;
  }

  lemma RestoreActs(c: Config, m: Moment, step: Step)
    requires step.Restoring?
    ensures Perform(c, m, step).o.w == Restore(c, false, step.s, m.o.w, step.id).0
  {
    hide Restore, Flushes;
  }

  /** What an import seals. */
  function Imported(c: Config, step: Step): Document
    requires step.Importing?
  {
    var category := c.classify(step.meta.fileName);
    var m := step.meta.(author := step.s.displayName,
                        category := if category.Some? then category.value else MaterialGrafico);
    SealedDoc(c, SealRequest(step.content, None, m, None, step.s.username, "import", step.newId, step.stamp))
  }

  /** Every file is a document under another name. */
  predicate OtherNames(files: Files, name: string) {
    forall p :: p in files ==> |p| == 3 && p[2] != name
  }

  lemma ImportSucceeds(c: Config, w: World, step: Step)
    requires step.Importing? && step.s.role.CanImport() && step.content != [] && w.db.documents == []
    requires OtherNames(w.files, SanitizeComponent(c.alnum, step.meta.fileName))
    ensures var w' := Import(c, false, step.s, w, step.content, step.meta, step.newId, step.stamp).0;
            && w'.db.documents == [Imported(c, step)] && w'.db.trashed == w.db.trashed
            && w'.db.submissions == w.db.submissions
            && w'.files == w.files[Imported(c, step).relPath := File(step.content, true)]
  {
    SanitizedIsGood(c.alnum, step.meta.fileName);
    hide Append, SanitizeComponent, DirName;
    var p := Imported(c, step).relPath;
    assert |p| == 3 && p[2] == SanitizeComponent(c.alnum, step.meta.fileName);
    assert p !in w.files && !IsFolder(w.files, p) && !ParentBlocked(w.files, p);
  }

  lemma TrashSucceeds(c: Config, s: Session, w: World, id: string, reason: string, at: string)
    requires s.role.Administrativo? && |w.db.documents| == 1 && w.db.documents[0].vaultId == id && w.db.trashed == []
    ensures var w' := SoftDelete(c, false, s, w, id, reason, at).0;
            && w'.db.documents == [] && |w'.db.trashed| == 1 && w'.db.trashed[0].document == w.db.documents[0]
            && w'.files == w.files
  {
    hide Append;
  }

  lemma RestoreSucceeds(c: Config, s: Session, w: World, id: string)
    requires s.role.Administrativo? && |w.db.trashed| == 1 && w.db.trashed[0].document.vaultId == id
    ensures Restore(c, false, s, w, id).0.db.documents == w.db.documents + [w.db.trashed[0].document]
  {
    hide Append;
  }

  /** With one document in the trash and none elsewhere, every other identifier is new. */
  lemma OtherIdsAreFresh(c: Config, m: Moment, id: string)
    requires MomentInv(c, m) && m.o.w.db.documents == [] && |m.o.w.db.trashed| == 1 && m.purged == 0
    requires GoodId(id) && id != m.o.w.db.trashed[0].document.vaultId
    requires forall p :: p in m.o.w.files ==> |p| == 3
    ensures Fresh(m.o.w, id)
  {
    hide ReplayLog, Chained, CountAction, Structure, Physical, SubsGood, SealsAre, Behind;
    var db := m.o.w.db;
    var r := ReplayLog(db.audit);
    var one := TrashedDocs(db.trashed)[0].vaultId;
    assert one in r.trash && |r.trash| == 1;
    OneKey(r.trash, one);
    assert forall x :: x in r.active ==> HasId(db.documents, x);
    assert |TombstonePath(id)| == 2;
  }

  lemma OneKey<K, V>(m: map<K, V>, k: K)
    requires k in m && |m| == 1
    ensures forall x :: x in m ==> x == k
  {
    assert |m - {k}| == 0 by {
      assert (m - {k}).Keys == m.Keys - {k};
      assert |(m - {k}).Keys| == |m - {k}|;
    }
    assert forall x :: x in m && x != k ==> x in m - {k};
  }

  /** One document is imported and trashed. */
  lemma ImportAndTrash(c: Config, first: Step, reason: string, at: string) returns (ms: seq<Moment>)
    requires first.Importing? && first.s.role.Administrativo? && first.content != [] && GoodId(first.newId)
    ensures Run(c, ms, [first, Trashing(first.s, first.newId, reason, at)])
    ensures var m := ms[2];
            && m.o.w.db.documents == [] && |m.o.w.db.trashed| == 1 && m.o.w.db.trashed[0].document == Imported(c, first)
            && m.o.w.files == map[Imported(c, first).relPath := File(first.content, true)] && m.purged == 0
  {
    hide Perform, Import, SoftDelete, Restore, SanitizeComponent, Fresh;
    var s2 := Trashing(first.s, first.newId, reason, at);
    NoSteps(c);
    FirstIdIsFresh(first.newId);
    ms := RunSnoc(c, [START], [], first);
    ImportActs(c, START, first);
    ImportSucceeds(c, START.o.w, first);
    var m1 := ms[1];
    ms := RunSnoc(c, ms, [first], s2);
    TrashActs(c, m1, s2);
    TrashSucceeds(c, first.s, m1.o.w, first.newId, reason, at);
    assert [first] + [s2] == [first, s2];
  }

  /** A content is imported and trashed, imported again under another name, and the first document is restored: two active
      documents have one digest. */
  lemma TwinsAreReachable(c: Config, first: Step, second: Step, reason: string, at: string) returns (ms: seq<Moment>)
    requires first.Importing? && second.Importing? && first.s == second.s && first.content == second.content
    requires first.s.role.Administrativo? && first.content != []
    requires GoodId(first.newId) && GoodId(second.newId) && first.newId != second.newId
    requires SanitizeComponent(c.alnum, first.meta.fileName) != SanitizeComponent(c.alnum, second.meta.fileName)
    ensures Run(c, ms, [first, Trashing(first.s, first.newId, reason, at), second, Restoring(first.s, first.newId)])
    ensures var docs := ms[4].o.w.db.documents;
            |docs| == 2 && docs[0].vaultId != docs[1].vaultId && docs[0].sha256 == docs[1].sha256 == c.sha256(first.content)
  {
    hide Run, Perform, Import, Restore, SanitizeComponent, Fresh, MomentInv;
    var two := [first, Trashing(first.s, first.newId, reason, at)];
    var back := Restoring(first.s, first.newId);
    ms := ImportAndTrash(c, first, reason, at);
    RunLength(c, ms, two);
    var m2 := ms[2];
    RunKeepsInv(c, ms, two, 2);
    OtherIdsAreFresh(c, m2, second.newId);
    ms := RunSnoc(c, ms, two, second);
    ImportActs(c, m2, second);
    ImportSucceeds(c, m2.o.w, second);
    var m3 := ms[3];
    ms := RunSnoc(c, ms, two + [second], back);
    RestoreActs(c, m3, back);
    RestoreSucceeds(c, first.s, m3.o.w, first.newId);
    assert two + [second] + [back] == [first, Trashing(first.s, first.newId, reason, at), second, back];
  }

  lemma RunLength(c: Config, ms: seq<Moment>, steps: seq<Step>)
    requires Run(c, ms, steps)
    ensures |ms| == |steps| + 1
  {}

  // ---------- a document without its seal ----------

  lemma RenameActs(c: Config, m: Moment, step: Step)
    requires step.Renaming?
    ensures Perform(c, m, step).o.w == Rename(c, false, step.s, m.o.w, step.id, step.newName, step.accepts).0
  {
    hide Rename, Flushes;
  }

  /** One document and its file, and a rename to a free name that the system refuses. */
  lemma RefusalUnseals(c: Config, s: Session, w: World, newName: string)
    requires s.role.Administrativo? && |w.db.documents| == 1 && |w.db.documents[0].relPath| == 3
    requires var p := w.db.documents[0].relPath;
             p in w.files && w.files.Keys == {p} && ValidNewName(Trim(newName)) && Trim(newName) !in {p[2], ".", ".."}
    ensures AsksRename(s, w, w.db.documents[0].vaultId, newName)
    ensures var p := w.db.documents[0].relPath;
            Rename(c, false, s, w, w.db.documents[0].vaultId, newName, false)
            == (w.(files := w.files[p := w.files[p].(isSealed := false)]), Err(IoError))
  {
    hide Append, Trim, ValidNewName;
    var p := w.db.documents[0].relPath;
    var to := ReplaceLast(p, Trim(newName));
    assert |to| == 3 && to[2] == Trim(newName);
    assert !Exists(w.files, to);
  }

  /** A document is imported, and the system refuses to rename it (to a name longer than the file system allows, for
      instance): it stays active at its place, and its file is no longer sealed. */
  lemma RefusedRenameUnseals(c: Config, first: Step, newName: string) returns (ms: seq<Moment>)
    requires first.Importing? && first.s.role.Administrativo? && first.content != [] && GoodId(first.newId)
    requires ValidNewName(Trim(newName))
    requires Trim(newName) !in {SanitizeComponent(c.alnum, first.meta.fileName), ".", ".."}
    ensures Run(c, ms, [first, Renaming(first.s, first.newId, newName, false)])
    ensures var w := ms[2].o.w;
            && w.db.documents == [Imported(c, first)]
            && w.files == map[Imported(c, first).relPath := File(first.content, false)]
  {
    hide Perform, Import, Rename, SanitizeComponent, Fresh, Trim, ValidNewName;
    var s2 := Renaming(first.s, first.newId, newName, false);
    NoSteps(c);
    FirstIdIsFresh(first.newId);
    ms := RunSnoc(c, [START], [], first);
    ImportActs(c, START, first);
    ImportSucceeds(c, START.o.w, first);
    var m1 := ms[1];
    ms := RunSnoc(c, ms, [first], s2);
    RenameActs(c, m1, s2);
    RefusalUnseals(c, first.s, m1.o.w, newName);
    assert [first] + [s2] == [first, s2];
  }

  // ---------- a document that cannot be edited ----------

  /** A document named ".versiones" stands where the folder of its versions would have to be: every edit by Coordinación fails,
      and changes nothing. */
  lemma DocumentBlocksItsVersions(c: Config, first: Step, s: Session, edit: Edit, at: string) returns (ms: seq<Moment>)
    requires first.Importing? && first.s.role.CanImport() && first.content != [] && GoodId(first.newId)
    requires SanitizeComponent(c.alnum, first.meta.fileName) == ".versiones" && s.role == Coordinacion
    ensures Run(c, ms, [first])
    ensures EditMeta(c, false, s, ms[1].o.w, first.newId, edit, at) == (ms[1].o.w, Err(IoError))
  {
    hide Perform, Import, SanitizeComponent, Fresh, EditMeta, Inv, SealsAre, SubsGood, Behind;
    NoSteps(c);
    FirstIdIsFresh(first.newId);
    ms := RunSnoc(c, [START], [], first);
    ImportActs(c, START, first);
    ImportSucceeds(c, START.o.w, first);
    var w := ms[1].o.w;
    RunKeepsInv(c, ms, [first], 1);
    EditAnswers(c, s, w, first.newId, edit, at);
    var p := w.db.documents[0].relPath;
    assert [p[0], p[1], ".versiones"] == p;
    assert ActiveAt(w, first.newId, 0) && VersionsBlocked(w, 0);
  }

  // ---------- an entry that a restart loses ----------

  lemma AdmitActs(c: Config, m: Moment, step: Step)
    requires step.Admitting?
    ensures Perform(c, m, step).o.w == Admit(c, m.o.w, step.subId, step.actor, step.newId, step.stamp).0
  {
    hide Admit, Flushes;
  }

  /** Beside documents only, an upload is queued. */
  lemma UploadBesideDocuments(c: Config, w: World, deviceId: string, e: Envelope, content: bytes, subId: string, at: string)
    requires GoodEnvelope(c, e, content) && forall p :: p in w.files ==> |p| == 3
    ensures var w' := Upload(c, w, deviceId, Some(e), content, subId, at).0;
            && w'.files == w.files[StagingPath(IncomingName(c.sha256(content))) := File(content, false)]
            && w'.db.submissions
               == w.db.submissions + [NewSubmission(c, deviceId, e, FromDirName(e.category).value, content, subId, at)]
            && w'.db.documents == w.db.documents && w'.db.trashed == w.db.trashed
  {
    StagingIsShort(IncomingName(c.sha256(content)));
    hide Append, StagingPath, IncomingName, FromDirName;
  }

  /** With nothing in the trash, every identifier but those of the active documents is new. */
  lemma UnusedIdsAreFresh(c: Config, m: Moment, id: string)
    requires MomentInv(c, m) && m.o.w.db.trashed == [] && m.purged == 0
    requires GoodId(id) && !HasId(m.o.w.db.documents, id) && TombstonePath(id) !in m.o.w.files
    ensures Fresh(m.o.w, id)
  {
    hide Chained, CountAction, Structure, Physical, SubsGood, SealsAre, Behind, ReplayLog;
    var db := m.o.w.db;
    var r := ReplayLog(db.audit);
    assert |r.trash| == 0;
    assert forall x :: x in r.active ==> HasId(db.documents, x);
  }

  /** An admission that reclassifies in vain adds its entry, and nothing else. */
  lemma VainAdmission(c: Config, w: World, step: Step)
    requires Inv(c, w) && ReclassifiesInVain(c, w, step)
    ensures var (w', answer) := Admit(c, w, step.subId, step.actor, step.newId, step.stamp);
            && answer == Err(Collision) && w' == w.(db := w.db.(audit := w'.db.audit))
            && |w'.db.audit| == |w.db.audit| + 1 && w'.db.audit[|w.db.audit|].action == "admit_reclassify"
            && w'.db.audit[..|w.db.audit|] == w.db.audit
  {
    hide Inv, StagingPath, Exists, ParentBlocked, RelPathFor, Append;
    var sub := w.db.submissions[SubIndex(w.db.submissions, step.subId)];
    var r := AdmitRequest(c, w, sub, step.actor, step.newId, step.stamp);
    SealAnswersIff(c, w, Reviewed(c, w, sub, r), r);
    AppendGrows(c.ink, w.db.audit, step.actor, "admit_reclassify", sub.sha256, Note(DirName(r.meta.category)));
  }

  lemma VainStepStays(c: Config, m: Moment, step: Step)
    requires MomentInv(c, m) && step.Admitting? && ReclassifiesInVain(c, m.o.w, step)
    ensures Perform(c, m, step).flushed == m.flushed
  {
    hide Act, Admit, ReclassifiesInVain, Inv, SubsGood, SealsAre, Behind;
    ActKeepsFlushed(c, m, step);
    VainAdmission(c, m.o.w, step);
  }

  /** A document and a submission of another content that the rules send to its place. */
  predicate Contends(c: Config, w: World, first: Step, e: Envelope, content: bytes, deviceId: string, subId: string, at: string)
    requires first.Importing? && GoodEnvelope(c, e, content)
  {
    && w.db.documents == [Imported(c, first)]
    && w.db.submissions == [NewSubmission(c, deviceId, e, FromDirName(e.category).value, content, subId, at)]
    && Imported(c, first).relPath in w.files && StagingPath(IncomingName(c.sha256(content))) in w.files
    && w.files[StagingPath(IncomingName(c.sha256(content)))].content == content
  }

  /** Same name, author and class, another content, and a sender who declared another class. */
  predicate Contend(c: Config, first: Step, e: Envelope, content: bytes)
    requires first.Importing? && GoodEnvelope(c, e, content)
  {
    && e.fileName == first.meta.fileName && e.author == first.s.displayName
    && c.classify(e.fileName).Some? && c.classify(e.fileName) != FromDirName(e.category)
    && c.sha256(content) != c.sha256(first.content)
  }

  lemma ContentionIsVain(
      c: Config, w: World, first: Step, e: Envelope, content: bytes, deviceId: string, subId: string, at: string, step: Step)
    requires first.Importing? && GoodEnvelope(c, e, content) && Contend(c, first, e, content)
    requires Contends(c, w, first, e, content, deviceId, subId, at) && step.Admitting? && step.subId == subId
    ensures ReclassifiesInVain(c, w, step)
  {
    hide StagingPath, IncomingName, FromDirName, IsFolder, SanitizeComponent;
  }

  lemma ContentionIsReached(
      c: Config, first: Step, e: Envelope, content: bytes, deviceId: string, subId: string, at: string, newId: string)
    returns (ms: seq<Moment>)
    requires first.Importing? && first.s.role.CanImport() && first.content != [] && GoodId(first.newId)
    requires GoodEnvelope(c, e, content) && GoodId(newId) && newId != first.newId
    ensures Run(c, ms, [first, Uploading(deviceId, Some(e), content, subId, at)])
    ensures Contends(c, ms[2].o.w, first, e, content, deviceId, subId, at) && Fresh(ms[2].o.w, newId)
  {
    hide Perform, Import, Upload, SanitizeComponent, Fresh, MomentInv, StagingPath, IncomingName, TombstonePath,
      GoodEnvelope, Unsaved;
    var s2 := Uploading(deviceId, Some(e), content, subId, at);
    NoSteps(c);
    FirstIdIsFresh(first.newId);
    ms := RunSnoc(c, [START], [], first);
    ImportActs(c, START, first);
    ImportSucceeds(c, START.o.w, first);
    var m1 := ms[1];
    ms := RunSnoc(c, ms, [first], s2);
    UploadActs(c, m1, s2);
    UploadBesideDocuments(c, m1.o.w, deviceId, e, content, subId, at);
    assert [first] + [s2] == [first, s2];
    RunKeepsInv(c, ms, [first, s2], 2);
    StagingIsNoTomb(IncomingName(c.sha256(content)), newId);
    TombstoneIsShort(newId);
    PurgesStay(c, START, first);
    PurgesStay(c, m1, s2);
    UnusedIdsAreFresh(c, ms[2], newId);
  }

  lemma TombstoneIsShort(id: string)
    ensures |TombstonePath(id)| == 2
  {}

  lemma PurgesStay(c: Config, m: Moment, step: Step)
    requires step.Importing? || step.Uploading?
    ensures Perform(c, m, step).purged == m.purged
  {
    hide Import, Upload, Flushes;
  }

  /** Imports and uploads leave nothing unsaved. */
  lemma SavedAfterUpload(c: Config, ms: seq<Moment>, first: Step, second: Step)
    requires first.Importing? && second.Uploading? && Run(c, ms, [first, second])
    ensures !Unsaved(ms[2])
  {
    hide Perform, Enabled, MomentInv, ReclassifiesInVain;
    var steps := [first, second];
    assert ms[1] == Perform(c, ms[0], steps[0]) && ms[2] == Perform(c, ms[1], steps[1]);
    assert Enabled(c, ms[0], steps[0]) && Enabled(c, ms[1], steps[1]);
    RunKeepsInv(c, ms, steps, 0);
    RunKeepsInv(c, ms, steps, 1);
    UnsavedIff(c, ms[0], first);
    UnsavedIff(c, ms[1], second);
    OnlyAdmissionsReclassify(c, ms[0].o.w, first);
    OnlyAdmissionsReclassify(c, ms[1].o.w, second);
  }

  lemma OnlyAdmissionsReclassify(c: Config, w: World, step: Step)
    requires !step.Admitting?
    ensures !ReclassifiesInVain(c, w, step)
  {}

  /** From a contention on, the admission and a restart. */
  lemma VainAdmissionIsLost(c: Config, ms: seq<Moment>, steps: seq<Step>, step: Step) returns (ms': seq<Moment>)
    requires Run(c, ms, steps) && step.Admitting? && Enabled(c, ms[|steps|], step) && !Unsaved(ms[|steps|])
    requires ReclassifiesInVain(c, ms[|steps|].o.w, step)
    ensures Run(c, ms', steps + [step] + [Restarting]) && |ms'| == |steps| + 3
    ensures var before, after := ms'[|steps| + 1].o.w.db, ms'[|steps| + 2].o.w.db;
            && |before.audit| == |after.audit| + 1 && before.audit[|after.audit|].action == "admit_reclassify"
            && before.audit[..|after.audit|] == after.audit
  {
    hide Enabled, Perform, ReclassifiesInVain, Admit, Append, Inv, SubsGood, SealsAre, Act, Behind;
    RunLength(c, ms, steps);
    var m := ms[|steps|];
    RunKeepsInv(c, ms, steps, |steps|);
    ms' := RunSnoc(c, ms, steps, step);
    var m1 := ms'[|steps| + 1];
    VainAdmission(c, m.o.w, step);
    AdmitActs(c, m, step);
    VainStepStays(c, m, step);
    RestartIsEnabled(c, m1);
    ms' := RunSnoc(c, ms', steps + [step], Restarting);
    RestartActs(c, m1);
  }

  lemma RestartIsEnabled(c: Config, m: Moment)
    ensures Enabled(c, m, Restarting)
  {}

  /** A document is imported; another content of that name and author is uploaded under another class; its admission finds the
      right class, notes it, and finds the place taken; the process is restarted. The note is gone. */
  lemma ReclassificationIsLost(
      c: Config, first: Step, e: Envelope, content: bytes, deviceId: string, subId: string, at: string, actor: string,
      newId: string, stamp: Option<string>)
    returns (ms: seq<Moment>)
    requires first.Importing? && first.s.role.CanImport() && first.content != [] && GoodId(first.newId)
    requires GoodId(newId) && newId != first.newId && GoodEnvelope(c, e, content) && Contend(c, first, e, content)
    ensures Run(c, ms, [first, Uploading(deviceId, Some(e), content, subId, at), Admitting(subId, actor, newId, stamp),
                        Restarting])
    ensures var before, after := ms[3].o.w.db, ms[4].o.w.db;
            && |before.audit| == |after.audit| + 1 && before.audit[|after.audit|].action == "admit_reclassify"
            && before.audit[..|after.audit|] == after.audit
  {
    hide Perform, Fresh, GoodEnvelope, Contend, Contends, ReclassifiesInVain, Unsaved, Run;
    var s2 := Uploading(deviceId, Some(e), content, subId, at);
    var s3 := Admitting(subId, actor, newId, stamp);
    ms := ContentionIsReached(c, first, e, content, deviceId, subId, at, newId);
    RunLength(c, ms, [first, s2]);
    SavedAfterUpload(c, ms, first, s2);
    ContentionIsVain(c, ms[2].o.w, first, e, content, deviceId, subId, at, s3);
    ms := VainAdmissionIsLost(c, ms, [first, s2], s3);
    assert [first, s2] + [s3] + [Restarting] == [first, s2, s3, Restarting];
  }

  // ---------- two entries of one text ----------

  /** The entry that an accepted upload writes shares its text with another entry of the same number, detail and link exactly
      when the clock's text, the device or the digest contains the separator; nothing restricts the name of a device. */
  lemma UploadEntryIsAmbiguousIff(
      c: Config, w: World, deviceId: string, envelope: Option<Envelope>, content: bytes, subId: string, at: string)
    requires Upload(c, w, deviceId, envelope, content, subId, at).1.Ok?
    ensures var log := Upload(c, w, deviceId, envelope, content, subId, at).0.db.audit;
            && |log| == |w.db.audit| + 1
            && ((exists d :: d != log[|w.db.audit|] && d.seqNo == log[|w.db.audit|].seqNo
                             && d.detail == log[|w.db.audit|].detail && d.prevHash == log[|w.db.audit|].prevHash
                             && Canonical(c.ink.hashing, d) == Canonical(c.ink.hashing, log[|w.db.audit|]))
                <==> '|' in c.ink.clock(|w.db.audit|) || '|' in deviceId || '|' in c.sha256(content))
  {
    var log := Upload(c, w, deviceId, envelope, content, subId, at).0.db.audit;
    UploadEntry(c, w, deviceId, envelope, content, subId, at);
    hide Upload;
    AmbiguousFieldsIff(c.ink.hashing, log[|w.db.audit|]);
  }

  lemma UploadEntry(c: Config, w: World, deviceId: string, envelope: Option<Envelope>, content: bytes,
                    subId: string, at: string)
    requires Upload(c, w, deviceId, envelope, content, subId, at).1.Ok?
    ensures var log := Upload(c, w, deviceId, envelope, content, subId, at).0.db.audit;
            && |log| == |w.db.audit| + 1
            && log[|w.db.audit|].timestamp == c.ink.clock(|w.db.audit|) && log[|w.db.audit|].actor == deviceId
            && log[|w.db.audit|].action == "upload_received" && log[|w.db.audit|].subject == c.sha256(content)
            && '|' !in log[|w.db.audit|].action
  {
    hide StagingPath, IncomingName, FromDirName, ParentBlocked, Head;
  }

  /** The upload of a device that calls itself "dev|7" is one. */
  lemma BarredDeviceIsAmbiguous(
      c: Config, w: World, envelope: Option<Envelope>, content: bytes, subId: string, at: string)
    returns (d: Entry)
    requires Upload(c, w, "dev|7", envelope, content, subId, at).1.Ok?
    ensures var e := Upload(c, w, "dev|7", envelope, content, subId, at).0.db.audit[|w.db.audit|];
            && d == e.(timestamp := e.timestamp + "|dev", actor := "7") && d != e
            && Canonical(c.ink.hashing, d) == Canonical(c.ink.hashing, e)
  {
    UploadEntry(c, w, "dev|7", envelope, content, subId, at);
    hide Upload;
    var e := Upload(c, w, "dev|7", envelope, content, subId, at).0.db.audit[|w.db.audit|];
    var x, y := "dev", "7";
    d := e.(timestamp := e.timestamp + "|" + x, actor := y);
    assert e.actor == x + "|" + y;
    MovedBar(e.timestamp, x, y, e.action + "|" + e.subject);
    assert Label(d) == Label(e);
    CanonicalByLabel(c.ink.hashing, d);
    CanonicalByLabel(c.ink.hashing, e);
    assert e.timestamp + "|" + x == e.timestamp + "|dev";
  }
}
