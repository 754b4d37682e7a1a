/** What becomes of the file that a pending submission waits for: equal uploads share one staging file, so more than the
    submission's own decision can take it. */
module CustodyStaging {
  import opened Common
  import opened Documents
  import opened Paths
  import opened Store
  import opened Custody
  import opened Records
  import opened CustodyInvariant
  import opened CustodyAdmin
  import opened CustodyIntake
  import opened CustodyMachine
  import opened CustodyService
  import opened CustodySteps
  import opened CustodyRuns

  // ---------- which steps take a staging file ----------

  /** The submission can be decided, and its staging file has this name. */
  predicate Concerns(w: World, subId: string, name: string) {
    var i := SubIndex(w.db.submissions, subId);
    i < |w.db.submissions| && w.db.submissions[i].state.Pending? && w.db.submissions[i].stagingPath == name
  }

  /** An admission of this submission would come to an end: the digests are right, and the content is active already or its
      place is free. */
  predicate Settles(c: Config, w: World, subId: string, content: bytes)
    requires SubIndex(w.db.submissions, subId) < |w.db.submissions|
  {
    var sub := w.db.submissions[SubIndex(w.db.submissions, subId)];
    && c.sha256(content) == sub.sha256 && c.blake3(content) == sub.blake3
    && (ShaIndex(w.db.documents, sub.sha256) < |w.db.documents|
        || !Exists(w.files, RelPathFor(c.alnum, sub.meta.author, Reclassified(c, sub.meta).category, sub.meta.fileName)))
  }

  /** An upload of a content staged under this name, whose envelope is of the protocol and untrue of the content. */
  predicate Belies(c: Config, w: World, envelope: Option<Envelope>, content: bytes, name: string) {
    && IncomingName(c.sha256(content)) == name && Writable(w.files, StagingPath(name))
    && envelope.Some? && envelope.value.protocol == "1.0"
    && (envelope.value.sha256 != c.sha256(content) || envelope.value.sizeBytes != |content|)
  }

  /** The steps that take the staging file of this name, by what they are given. */
  predicate Takes(c: Config, w: World, step: Step, name: string)
    requires StagingPath(name) in w.files
  {
    match step
    case Rejecting(subId, _, _) => Concerns(w, subId, name)
    case Admitting(subId, _, _, _) =>
      Concerns(w, subId, name) && Settles(c, w, subId, w.files[StagingPath(name)].content)
    case Uploading(_, envelope, content, _, _) => Belies(c, w, envelope, content, name)
    case _ => false
  }

  lemma StagingIsInjective(a: string, b: string)
    ensures StagingPath(a) == StagingPath(b) ==> a == b
  {
    assert StagingPath(a)[1] == a && StagingPath(b)[1] == b;
  }

  // ---------- the deciding steps ----------

  lemma RejectTakes(c: Config, w: World, subId: string, reason: string, actor: string, name: string)
    requires StagingPath(name) in w.files
    ensures StagingPath(name) !in Reject(c, w, subId, reason, actor).0.files <==> Concerns(w, subId, name)
  {
    hide Append, StagingPath;
    var i := SubIndex(w.db.submissions, subId);
    if i < |w.db.submissions| { StagingIsInjective(name, w.db.submissions[i].stagingPath); }
  }

  lemma UploadTakes(
      c: Config, w: World, deviceId: string, envelope: Option<Envelope>, content: bytes, subId: string, at: string,
      name: string)
    requires StagingPath(name) in w.files
    ensures StagingPath(name) !in Upload(c, w, deviceId, envelope, content, subId, at).0.files
            <==> Belies(c, w, envelope, content, name)
  {
    hide Append, StagingPath, IncomingName, FromDirName, ParentBlocked;
    StagingIsInjective(name, IncomingName(c.sha256(content)));
  }

  lemma SealTakes(c: Config, w: World, r: SealRequest, from: string, name: string)
    requires Inv(c, w) && r.staged == Some(StagingPath(from)) && StagingPath(name) in w.files
    ensures StagingPath(name) !in SealDocument(c, w, r).0.files
            <==> from == name && SealDocument(c, w, r).1.Ok? && SealDocument(c, w, r).1.value.Sealed?
    ensures SealDocument(c, w, r).1.Ok?
            <==> ShaIndex(w.db.documents, c.sha256(r.content)) < |w.db.documents| || !Exists(w.files, SealedDoc(c, r).relPath)
  {
    InvPlaces(c, w);
    var path := SealedDoc(c, r).relPath;
    DocFolderIsFree(w.files, path, r.meta.category);
    hide Inv, InPlace, Append, StagingPath, Exists, ParentBlocked, RelPathFor, Installed;
    InstalledTakes(w.files, r, path, from, name);
  }

  lemma InstalledTakes(files: Files, r: SealRequest, path: Path, from: string, name: string)
    requires r.staged == Some(StagingPath(from)) && StagingPath(name) in files && |path| == 3
    ensures StagingPath(name) !in Installed(files, r, path) <==> from == name
  {
    StagingIsShort(name);
    StagingIsInjective(from, name);
    hide StagingPath;
  }

  lemma AdmitTakes(c: Config, w: World, subId: string, actor: string, newId: string, stamp: Option<string>, name: string)
    requires Inv(c, w) && Fresh(w, newId) && StagingPath(name) in w.files
    ensures StagingPath(name) !in Admit(c, w, subId, actor, newId, stamp).0.files
            <==> Concerns(w, subId, name) && Settles(c, w, subId, w.files[StagingPath(name)].content)
  {
    hide Inv, Fresh, Append, StagingPath, Exists, SealDocument, RelPathFor, Recs;
    var i := SubIndex(w.db.submissions, subId);
    if i < |w.db.submissions| {
      var sub := w.db.submissions[i];
      StagingIsInjective(name, sub.stagingPath);
      if StagingPath(sub.stagingPath) in w.files {
        var r := AdmitRequest(c, w, sub, actor, newId, stamp);
        ReviewedKeepsInv(c, w, sub, r, newId);
        SealTakes(c, Reviewed(c, w, sub, r), r, sub.stagingPath, name);
      }
    }
  }

  // ---------- every step ----------

  /** The staging file of this name, if it is there, is gone after a step exactly when the step is one of those. */
  lemma StagedFileIsTakenIff(c: Config, m: Moment, step: Step, name: string)
    requires MomentInv(c, m) && Enabled(c, m, step) && StagingPath(name) in m.o.w.files
    ensures StagingPath(name) !in Perform(c, m, step).o.w.files <==> Takes(c, m.o.w, step, name)
  {
    hide Inv, SealsAre, SubsGood, Behind, Flushes, StagingPath, Concerns, Settles, Belies, Admit, Reject, Upload, Fresh;
    match step {
      case Rejecting(subId, reason, actor) => RejectTakes(c, m.o.w, subId, reason, actor, name);
      case Admitting(subId, actor, newId, stamp) => AdmitTakes(c, m.o.w, subId, actor, newId, stamp, name);
      case Uploading(deviceId, envelope, content, subId, at) =>
        UploadTakes(c, m.o.w, deviceId, envelope, content, subId, at, name);
      case _ =>
        hide Act;
        if step.Renaming? || step.Moving? || step.Trashing? || step.Restoring? || step.Editing? || step.Viewing? {
          StagingIsShort(name);
          RoleStepSpares(c, m, step, StagingPath(name));
        } else {
          StagingIsShort(name);
          RemovalStepSpares(c, m, step, StagingPath(name));
        }
    }
  }

  /** In any state of any run, a pending submission whose staging file is there loses it by the next step exactly when that
      step decides a submission staged under the same name (a rejection, or an admission that comes to an end), or is an
      upload of the content of that name with an envelope that is of the protocol and untrue of it. */
  lemma PendingLosesFileIff(c: Config, ms: seq<Moment>, steps: seq<Step>, i: nat, j: nat)
    requires Run(c, ms, steps) && i < |steps| && j < |ms[i].o.w.db.submissions|
    requires ms[i].o.w.db.submissions[j].state.Pending?
    requires StagingPath(ms[i].o.w.db.submissions[j].stagingPath) in ms[i].o.w.files
    ensures StagingPath(ms[i].o.w.db.submissions[j].stagingPath) !in ms[i + 1].o.w.files
            <==> Takes(c, ms[i].o.w, steps[i], ms[i].o.w.db.submissions[j].stagingPath)
  {
    hide Perform, Enabled, MomentInv, Takes, StagingPath;
    RunKeepsInv(c, ms, steps, i);
    assert ms[i + 1] == Perform(c, ms[i], steps[i]);
    StagedFileIsTakenIff(c, ms[i], steps[i], ms[i].o.w.db.submissions[j].stagingPath);
  }
}
