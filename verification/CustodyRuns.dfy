/** Whole runs of the vault: any sequence of operations and restarts from the empty vault, and what holds in every state. */
module CustodyRuns {
  import opened Common
  import opened Documents
  import opened Paths
  import opened Store
  import opened Custody
  import opened Replay
  import opened Records
  import opened CustodyInvariant
  import opened CustodyRoles
  import opened CustodyAdmin
  import opened Sweep
  import opened CustodyMachine
  import opened CustodyTrace
  import opened CustodySteps

  // ---------- runs ----------

  /** A run: the states it goes through and the steps between them. */
  ghost predicate Run(c: Config, ms: seq<Moment>, steps: seq<Step>) {
    && |ms| == |steps| + 1 && ms[0] == START
    && forall i :: 0 <= i < |steps| ==> Enabled(c, ms[i], steps[i]) && ms[i + 1] == Perform(c, ms[i], steps[i])
  }

  lemma StartIsGood(c: Config)
    ensures MomentInv(c, START)
  {}

  lemma {:induction false} RunKeepsInv(c: Config, ms: seq<Moment>, steps: seq<Step>, i: nat)
    requires Run(c, ms, steps) && i < |ms|
    ensures MomentInv(c, ms[i])
  {
    hide MomentInv, Perform, Enabled, Onward;
    if i == 0 {
      StartIsGood(c);
    } else {
      RunKeepsInv(c, ms, steps, i - 1);
      assert ms[i - 1 + 1] == Perform(c, ms[i - 1], steps[i - 1]);
      StepKeepsInv(c, ms[i - 1], steps[i - 1]);
    }
  }

  lemma OnwardIsTransitive(x: DbState, y: DbState, z: DbState)
    requires Onward(x, y) && Onward(y, z)
    ensures Onward(x, z)
  {}

  /** Over any stretch of a run versions are only added, and submissions only advance. */
  lemma {:induction false} RunGoesOnward(c: Config, ms: seq<Moment>, steps: seq<Step>, i: nat, j: nat)
    requires Run(c, ms, steps) && i <= j < |ms|
    ensures Onward(ms[i].o.w.db, ms[j].o.w.db)
    decreases j
  {
    hide MomentInv, Perform, Enabled, Onward;
    if i == j {
      RunKeepsInv(c, ms, steps, i);
      SameIsOnward(ms[i].o.w.db);
    } else {
      RunGoesOnward(c, ms, steps, i, j - 1);
      RunKeepsInv(c, ms, steps, j - 1);
      assert ms[j - 1 + 1] == Perform(c, ms[j - 1], steps[j - 1]);
      StepKeepsInv(c, ms[j - 1], steps[j - 1]);
      OnwardIsTransitive(ms[i].o.w.db, ms[j - 1].o.w.db, ms[j].o.w.db);
    }
  }

  lemma SameIsOnward(db: DbState)
    ensures Onward(db, db)
  {}

  lemma FirstSealSucceeds(c: Config, r: SealRequest)
    requires r.staged.None?
    ensures SealDocument(c, START.o.w, r).1 == Ok(Sealed(SealedDoc(c, r)))
    ensures SealDocument(c, START.o.w, r).0.db.documents == [SealedDoc(c, r)]
  {
    SanitizedIsGood(c.alnum, r.meta.fileName);
    hide Append, SanitizeComponent, DirName;
  }

  lemma FirstIdIsFresh(id: string)
    requires GoodId(id)
    ensures Fresh(START.o.w, id)
  {}

  /** Runs get going: in the empty vault the import of any content by a role that may import is possible and seals it. */
  lemma FirstImportIsSealed(c: Config, step: Step)
    requires step.Importing? && step.s.role.CanImport() && step.content != [] && GoodId(step.newId)
    ensures Run(c, [START, Perform(c, START, step)], [step])
    ensures var docs := Perform(c, START, step).o.w.db.documents; |docs| == 1 && docs[0].sha256 == c.sha256(step.content)
  {
    hide SealDocument, Fresh, Admit;
    FirstIdIsFresh(step.newId);
    var category := c.classify(step.meta.fileName);
    var m := step.meta.(author := step.s.displayName,
                        category := if category.Some? then category.value else MaterialGrafico);
    FirstSealSucceeds(c, SealRequest(step.content, None, m, None, step.s.username, "import", step.newId, step.stamp));
  }

  // ---------- what holds in every state of every run ----------

  /** Folding the log from nothing rebuilds exactly the active index, and covers the trash; the chain verifies and is
      numbered. */
  lemma LogRebuildsTheIndex(c: Config, ms: seq<Moment>, steps: seq<Step>, i: nat)
    requires Run(c, ms, steps) && i < |ms|
    ensures var db := ms[i].o.w.db;
            && Chained(c.ink.hashing, db.audit)
            && DistinctIds(db.documents) && ActiveIs(db.documents, ReplayLog(db.audit).active)
            && Covers(ReplayLog(db.audit).trash, TrashedDocs(db.trashed))
            && ReplayLog(db.audit).active.Keys !! ReplayLog(db.audit).trash.Keys
  {
    hide Perform, Enabled, Onward;
    RunKeepsInv(c, ms, steps, i);
  }

  /** Active plus trashed plus destroyed plus purged is admitted plus imported. */
  lemma DocumentsAreConserved(c: Config, ms: seq<Moment>, steps: seq<Step>, i: nat)
    requires Run(c, ms, steps) && i < |ms|
    ensures var db := ms[i].o.w.db;
            |db.documents| + |db.trashed| + CountAction(db.audit, "destroy_executed") + ms[i].purged
            == CountAction(db.audit, "admit") + CountAction(db.audit, "import")
    ensures var db := ms[i].o.w.db; |ReplayLog(db.audit).trash| == |db.trashed| + ms[i].purged
    ensures CountAdmitted(ms[i].o.w.db.submissions) == CountAction(ms[i].o.w.db.audit, "admit")
  {
    hide Perform, Enabled, Onward, ReplayLog, CountAction, CountAdmitted;
    RunKeepsInv(c, ms, steps, i);
  }

  lemma RecIsSlashFree(c: Config, db: DbState, r: Rec)
    requires Structure(c, db) && r in Recs(db)
    ensures r.path != [] && SlashFree(r.path)
  {
    var trash := TrashedDocs(db.trashed);
    if r in DocRecs(db.documents) {
      var k :| 0 <= k < |db.documents| && r == DocRec(db.documents[k]);
      GoodDocIsSlashFree(c, db.documents[k]);
    } else if r in DocRecs(trash) {
      var k :| 0 <= k < |trash| && r == DocRec(trash[k]);
      GoodDocIsSlashFree(c, trash[k]);
    }
  }

  lemma GoodDocIsSlashFree(c: Config, d: Document)
    requires GoodDoc(c, d)
    ensures SlashFree(d.relPath)
  {
    SanitizedIsGood(c.alnum, d.meta.author);
    DirNameIsNoService(d.meta.category);
  }

  /** The records of active documents, trashed documents and versions name different files, also as texts; each file has the
      recorded digests. */
  lemma PathsNeverClash(c: Config, ms: seq<Moment>, steps: seq<Step>, i: nat, r: Rec, q: Rec)
    requires Run(c, ms, steps) && i < |ms| && r in Recs(ms[i].o.w.db) && q in Recs(ms[i].o.w.db)
    ensures Render(r.path) == Render(q.path) ==> r == q
    ensures r.path in ms[i].o.w.files && Holds(c, r, ms[i].o.w.files[r.path])
  {
    hide Perform, Enabled, Onward, Structure, History, Conserved, SubsGood, Recs, Render, SlashFree, KnownPlace;
    RunKeepsInv(c, ms, steps, i);
    RecIsSlashFree(c, ms[i].o.w.db, r);
    RecIsSlashFree(c, ms[i].o.w.db, q);
    RenderRoundTrip(r.path);
    RenderRoundTrip(q.path);
  }

  // ---------- traces ----------

  /** In every run each step but a purge and a restart changes the database only together with new entries, all under the
      name of its actor, and a step that writes no entry changes nothing. A purge writes none. */
  lemma ChangesAreTraced(c: Config, ms: seq<Moment>, steps: seq<Step>, i: nat)
    requires Run(c, ms, steps) && i < |steps| && !steps[i].Restarting?
    ensures if steps[i].Purging? then ms[i + 1].o.w.db.audit == ms[i].o.w.db.audit
            else Traced(ms[i].o.w.db, ms[i + 1].o.w.db, ActorOf(steps[i]))
  {
    hide Inv, Enabled, SubsGood, SealsAre, Behind, Traced, Act, Flushes;
    RunKeepsInv(c, ms, steps, i);
    var m, step := ms[i], steps[i];
    assert ms[i + 1] == Perform(c, m, step);
    if step.Purging? {
      PurgeIsSilent(c, m, step);
    } else if step.Renaming? || step.Moving? || step.Trashing? || step.Restoring? || step.Editing? || step.Viewing? {
      RoleStepIsTraced(c, m, step);
    } else {
      OtherStepIsTraced(c, m, step);
    }
  }

  // ---------- seals ----------

  /** The system is asked to rename or to move the file of this document, and refuses. */
  predicate RefusedBy(c: Config, m: Moment, step: Step, id: string) {
    match step
    case Renaming(s, id', newName, accepts) => id' == id && AsksRename(s, m.o.w, id, newName) && !accepts
    case Moving(s, id', category, accepts) => id' == id && AsksMove(c, s, m.o.w, id, category) && !accepts
    case _ => false
  }

  /** The file of this document is renamed or moved, or comes in. */
  predicate PlacedBy(c: Config, m: Moment, step: Step, id: string) {
    match step
    case Renaming(s, id', newName, accepts) => id' == id && AsksRename(s, m.o.w, id, newName) && accepts
    case Moving(s, id', category, accepts) => id' == id && AsksMove(c, s, m.o.w, id, category) && accepts
    case Admitting(subId, actor, newId, stamp) => newId == id && AdmitsNew(c, m.o.w, subId)
    case Importing(s, content, meta, newId, stamp) => newId == id && ImportsNew(c, s, m.o.w, content, meta)
    case _ => false
  }

  lemma UnsealedStep(c: Config, m: Moment, step: Step, id: string)
    requires Inv(c, m.o.w)
    ensures id in Perform(c, m, step).unsealed
            <==> RefusedBy(c, m, step, id) || (id in m.unsealed && !PlacedBy(c, m, step, id))
  {
    hide Inv, Rename, MoveToCategory, SoftDelete, Restore, EditMeta, View, Admit, Import, Reject, Upload, Destroy,
      ProcessDue, Purge, SweepSpec, Append, Flushes, AsksRename, AsksMove, AdmitsNew, ImportsNew;
    var w := m.o.w;
    match step {
      case Renaming(s, id', newName, accepts) => RenameAnswers(c, s, w, id', newName, accepts);
      case Moving(s, id', category, accepts) => MoveAnswers(c, s, w, id', category, accepts);
      case Admitting(subId, actor, newId, stamp) => AdmitsNewIff(c, w, subId, actor, newId, stamp);
      case Importing(s, content, meta, newId, stamp) => ImportsNewIff(c, s, w, content, meta, newId, stamp);
      case _ =>
    }
  }

  lemma RenameAnswers(c: Config, s: Session, w: World, id: string, newName: string, accepts: bool)
    requires Inv(c, w)
    ensures var (w', answer) := Rename(c, false, s, w, id, newName, accepts);
            && (answer == Err(IoError) <==> AsksRename(s, w, id, newName) && !accepts)
            && (w'.db != w.db <==> AsksRename(s, w, id, newName) && accepts)
  {
    hide Inv, Rename, AsksRename, MoveSeals;
    var (w', answer) := Rename(c, false, s, w, id, newName, accepts);
    RenameKeepsInv(c, s, w, id, newName, accepts, w', answer);
  }

  lemma MoveAnswers(c: Config, s: Session, w: World, id: string, category: Category, accepts: bool)
    requires Inv(c, w)
    ensures var (w', answer) := MoveToCategory(c, false, s, w, id, category, accepts);
            && (answer == Err(IoError) <==> AsksMove(c, s, w, id, category) && !accepts)
            && (w'.db != w.db <==> AsksMove(c, s, w, id, category) && accepts)
  {
    hide Inv, MoveToCategory, AsksMove, MoveSeals;
    var (w', answer) := MoveToCategory(c, false, s, w, id, category, accepts);
    MoveToCategoryKeepsInv(c, s, w, id, category, accepts, w', answer);
  }

  /** Before state `i` the system refused to rename or move the document, and since then it was not placed anew. */
  ghost predicate LastRefused(c: Config, ms: seq<Moment>, steps: seq<Step>, i: nat, id: string)
    requires i <= |steps| < |ms|
  {
    exists k :: 0 <= k < i && RefusedBy(c, ms[k], steps[k], id)
                && forall l :: k < l < i ==> !PlacedBy(c, ms[l], steps[l], id)
  }

  lemma {:induction false} UnsealedMeansRefused(c: Config, ms: seq<Moment>, steps: seq<Step>, i: nat, id: string)
    requires Run(c, ms, steps) && i < |ms|
    ensures id in ms[i].unsealed <==> LastRefused(c, ms, steps, i, id)
  {
    hide Perform, Enabled, RefusedBy, PlacedBy, Inv, SubsGood, SealsAre, Behind;
    if i > 0 {
      UnsealedMeansRefused(c, ms, steps, i - 1, id);
      RunKeepsInv(c, ms, steps, i - 1);
      assert ms[i - 1 + 1] == Perform(c, ms[i - 1], steps[i - 1]);
      UnsealedStep(c, ms[i - 1], steps[i - 1], id);
      if RefusedBy(c, ms[i - 1], steps[i - 1], id) {
        assert LastRefused(c, ms, steps, i, id);
      } else if LastRefused(c, ms, steps, i - 1, id) && !PlacedBy(c, ms[i - 1], steps[i - 1], id) {
        var k :| 0 <= k < i - 1 && RefusedBy(c, ms[k], steps[k], id)
                 && forall l :: k < l < i - 1 ==> !PlacedBy(c, ms[l], steps[l], id);
        assert LastRefused(c, ms, steps, i, id);
      }
    }
  }

  /** The file of an active or trashed document is unsealed exactly when its last rename or move that got as far as asking
      the system was refused; the file of a version is always sealed. */
  lemma UnsealedExactlyAfterRefusal(c: Config, ms: seq<Moment>, steps: seq<Step>, i: nat, r: Rec)
    requires Run(c, ms, steps) && i < |ms| && r in Recs(ms[i].o.w.db)
    ensures r.path in ms[i].o.w.files
    ensures !ms[i].o.w.files[r.path].isSealed <==> r.version == 0 && LastRefused(c, ms, steps, i, r.id)
  {
    hide Perform, Enabled, Inv, SubsGood, Behind, Recs, RefusedBy, PlacedBy, LastRefused;
    RunKeepsInv(c, ms, steps, i);
    UnsealedMeansRefused(c, ms, steps, i, r.id);
  }

  // ---------- restarts ----------

  /** The guards under which an admission adds an entry that it does not flush: the rules overrule the sender, the content is
      new, and its place is taken. */
  predicate ReclassifiesInVain(c: Config, w: World, step: Step) {
    && step.Admitting? && Decidable(c, w, step.subId)
    && var sub := w.db.submissions[SubIndex(w.db.submissions, step.subId)];
    && Reclassified(c, sub.meta) != sub.meta
    && ShaIndex(w.db.documents, sub.sha256) == |w.db.documents|
    && Exists(w.files, RelPathFor(c.alnum, sub.meta.author, Reclassified(c, sub.meta).category, sub.meta.fileName))
  }

  predicate Unsaved(m: Moment) {
    m.flushed != m.o.w.db
  }

  /** After a step there is something in memory that a restart would lose exactly when the step is such an admission, or when
      there was before and the step neither flushes nor restarts. */
  lemma UnsavedIff(c: Config, m: Moment, step: Step)
    requires MomentInv(c, m) && Enabled(c, m, step)
    ensures Unsaved(Perform(c, m, step))
            <==> ReclassifiesInVain(c, m.o.w, step) || (Unsaved(m) && !Flushes(c, m, step) && !step.Restarting?)
  {
    hide Inv, SealsAre, SubsGood, Fresh;
    ActKeepsFlushed(c, m, step);
    if step.Admitting? {
      AdmissionUnsavedIff(c, m.o.w, step);
      AdmissionActs(c, m, step);
      hide Admit, Act, ReclassifiesInVain, Chained, ReplayLog, SameIntake;
    } else if step.Restarting? {
      RestartActs(c, m);
    } else {
      OnlyAdmissionsSkipTheFlush(c, m, step);
      hide Act, Flushes, Behind;
    }
  }

  lemma AdmissionUnsavedIff(c: Config, w: World, step: Step)
    requires Inv(c, w) && step.Admitting?
    ensures var (w', answer) := Admit(c, w, step.subId, step.actor, step.newId, step.stamp);
            && (answer.Ok? || answer == Err(HashMismatch) ==> !ReclassifiesInVain(c, w, step))
            && (answer.Err? && answer != Err(HashMismatch) ==>
                  if ReclassifiesInVain(c, w, step) then |w'.db.audit| > |w.db.audit| else w'.db == w.db)
  {
    hide Inv, StagingPath, Exists, ParentBlocked, RelPathFor, Append;
    var i := SubIndex(w.db.submissions, step.subId);
    if i < |w.db.submissions| && StagingPath(w.db.submissions[i].stagingPath) in w.files {
      var sub := w.db.submissions[i];
      var r := AdmitRequest(c, w, sub, step.actor, step.newId, step.stamp);
      var w1 := Reviewed(c, w, sub, r);
      AppendGrows(c.ink, w.db.audit, step.actor, "admit_reclassify", sub.sha256, Note(DirName(r.meta.category)));
      SealAnswersIff(c, w, w1, r);
    }
  }

  /** A restart goes back to the last flush: it loses at most reclassification entries at the end of the log, and all
      scheduled destructions, so that what comes due afterwards is nothing until it is scheduled again. */
  lemma RestartLoses(c: Config, ms: seq<Moment>, steps: seq<Step>, i: nat, now: nat)
    requires Run(c, ms, steps) && i < |steps| && steps[i].Restarting?
    ensures var a, b := ms[i], ms[i + 1];
            && b.o.w.db == a.flushed == a.o.w.db.(audit := b.o.w.db.audit) && b.o.w.files == a.o.w.files
            && b.o.w.db.audit <= a.o.w.db.audit
            && (forall k :: |b.o.w.db.audit| <= k < |a.o.w.db.audit| ==> a.o.w.db.audit[k].action == "admit_reclassify")
            && b.o.pending == map[] && DueIds(b.o, now) == {}
  {
    hide Enabled, Perform, CoreInv;
    RunKeepsInv(c, ms, steps, i);
    assert ms[i + 1] == Perform(c, ms[i], steps[i]);
    RestartActs(c, ms[i]);
  }

  // ---------- files, places, sweeps ----------

  /** But for the files of the staging folder and of the tombstone folder there is no file without a record. */
  lemma NoFileIsOrphaned(c: Config, ms: seq<Moment>, steps: seq<Step>, i: nat, p: Path)
    requires Run(c, ms, steps) && i < |ms| && p in ms[i].o.w.files && !InServiceFolder(p)
    ensures Claimed(Recs(ms[i].o.w.db), p)
  {
    hide Perform, Enabled, Structure, History, Conserved, SubsGood, Recs, Agree, SealsAre, Behind;
    RunKeepsInv(c, ms, steps, i);
  }

  /** Every active or trashed document is in the folder of its author and category, under its file name. */
  lemma DocumentsStayInPlace(c: Config, ms: seq<Moment>, steps: seq<Step>, i: nat, d: Document)
    requires Run(c, ms, steps) && i < |ms|
    requires d in ms[i].o.w.db.documents || d in TrashedDocs(ms[i].o.w.db.trashed)
    ensures d.relPath == RelPathFor(c.alnum, d.meta.author, d.meta.category, d.meta.fileName)
            || (GoodName(d.meta.fileName)
                && d.relPath == [SanitizeComponent(c.alnum, d.meta.author), DirName(d.meta.category), d.meta.fileName])
  {
    hide Perform, Enabled, Onward, History, Conserved, Physical, SubsGood, SanitizeComponent, DirName;
    RunKeepsInv(c, ms, steps, i);
    assert GoodDoc(c, d);
    assert d.relPath == [d.relPath[0], d.relPath[1], d.relPath[2]];
  }

  /** A sweep at any time finds every active document sound. */
  lemma SweepsAreClean(c: Config, ms: seq<Moment>, steps: seq<Step>, i: nat)
    requires Run(c, ms, steps) && i < |ms|
    ensures SweepSpec(c, ms[i].o.w).1
            == Ok(SweepReport(|ms[i].o.w.db.documents|, 0, 0, |ms[i].o.w.db.documents|, 0, []))
  {
    hide Perform, Enabled, Onward, Inv, SweepSpec;
    RunKeepsInv(c, ms, steps, i);
    UntouchedVaultSweepsClean(c, ms[i].o.w);
  }

  /** At any time the versions of a document are 1 to n; what was a version stays that version for ever, and its file keeps
      the recorded digest. */
  lemma VersionsAreKept(c: Config, ms: seq<Moment>, steps: seq<Step>, i: nat, j: nat, id: string, k: nat)
    requires Run(c, ms, steps) && i <= j < |ms|
    requires k < |VersionsOf(ms[i].o.w.db.versions, id)|
    ensures |VersionsOf(ms[i].o.w.db.versions, id)| <= |VersionsOf(ms[j].o.w.db.versions, id)|
    ensures VersionsOf(ms[j].o.w.db.versions, id)[k] == VersionsOf(ms[i].o.w.db.versions, id)[k]
    ensures VersionsOf(ms[i].o.w.db.versions, id)[k].version == k + 1
    ensures var v := VersionsOf(ms[i].o.w.db.versions, id)[k];
            v.relPath in ms[j].o.w.files && c.sha256(ms[j].o.w.files[v.relPath].content) == v.sha256
  {
    hide Perform, Enabled, History, Conserved, SubsGood, GoodDocs, VersionsOf, Numbered, CountVersions;
    RunKeepsInv(c, ms, steps, i);
    RunKeepsInv(c, ms, steps, j);
    RunGoesOnward(c, ms, steps, i, j);
    var before, after := ms[i].o.w.db.versions, ms[j].o.w.db.versions;
    VersionsAreGapFree(before, id);
    VersionsAreGapFree(after, id);
    VersionsOfPrefix(before, after, id);
    VersionIsOnFile(c, ms, steps, j, VersionsOf(before, id)[k]);
  }

  lemma {:induction false} VersionsOfPrefix(a: seq<DocumentVersion>, b: seq<DocumentVersion>, id: string)
    requires a <= b && Numbered(b)
    ensures VersionsOf(a, id) <= VersionsOf(b, id)
  {
    if |a| < |b| {
      var n := |b| - 1;
      NumberedPrefix(b, n);
      VersionsOfPrefix(a, b[..n], id);
      VersionsAreGapFree(b[..n], id);
      var before := VersionsOf(b[..n], id);
      if b[n].vaultId == id { assert InsertVersion(before, b[n]) == before + [b[n]]; }
    } else {
      assert a == b;
    }
  }

  /** An edit by Coordinación is remembered for ever: at any later time a version holds the digest and the metadata that the
      document had just before the edit, under the number that came next, and its file still has that digest. */
  lemma EditIsRemembered(c: Config, ms: seq<Moment>, steps: seq<Step>, i: nat, j: nat)
    requires Run(c, ms, steps) && i < |steps| && i < j < |ms|
    requires steps[i].Editing? && steps[i].s.role.Coordinacion?
    requires EditMeta(c, false, steps[i].s, ms[i].o.w, steps[i].id, steps[i].edit, steps[i].at).1.Ok?
    ensures var k := DocIndex(ms[i].o.w.db.documents, steps[i].id);
            k < |ms[i].o.w.db.documents|
            && exists v :: v in ms[j].o.w.db.versions && Recalls(c, v, ms[i].o.w.db, k, ms[j].o.w.files)
  {
    hide MomentInv, Enabled, EditMeta, Inv, SealsAre, Behind, CountVersions, CountAction, Balance;
    var w := ms[i].o.w;
    var w' := ms[i + 1].o.w;
    EditStep(c, ms, steps, i);
    var v := w'.db.versions[|w.db.versions|];
    RunGoesOnward(c, ms, steps, i + 1, j);
    assert v in ms[j].o.w.db.versions;
    VersionIsOnFile(c, ms, steps, j, v);
    assert Recalls(c, v, w.db, DocIndex(w.db.documents, steps[i].id), ms[j].o.w.files);
  }

  ghost predicate Recalls(c: Config, v: DocumentVersion, db: DbState, k: nat, files: Files)
    requires k < |db.documents|
  {
    && v.vaultId == db.documents[k].vaultId && v.sha256 == db.documents[k].sha256 && v.meta == db.documents[k].meta
    && v.version == CountVersions(db.versions, v.vaultId) + 1
    && v.relPath in files && c.sha256(files[v.relPath].content) == v.sha256
  }

  lemma EditStep(c: Config, ms: seq<Moment>, steps: seq<Step>, i: nat)
    requires Run(c, ms, steps) && i < |steps| && steps[i].Editing? && steps[i].s.role.Coordinacion?
    requires EditMeta(c, false, steps[i].s, ms[i].o.w, steps[i].id, steps[i].edit, steps[i].at).1.Ok?
    ensures |ms[i + 1].o.w.db.versions| == |ms[i].o.w.db.versions| + 1
    ensures Freezes(c, ms[i].o.w, ms[i + 1].o.w, steps[i].id, ms[i + 1].o.w.db.versions[|ms[i].o.w.db.versions|])
  {
    hide Enabled, EditMeta, Inv, SealsAre, Behind, SubsGood, Freezes;
    RunKeepsInv(c, ms, steps, i);
    var step := steps[i];
    var (w', answer) := EditMeta(c, false, step.s, ms[i].o.w, step.id, step.edit, step.at);
    assert ms[i + 1] == Perform(c, ms[i], step);
    EditMetaKeepsInv(c, step.s, ms[i].o.w, step.id, step.edit, step.at, w', answer);
  }

  lemma VersionIsOnFile(c: Config, ms: seq<Moment>, steps: seq<Step>, j: nat, v: DocumentVersion)
    requires Run(c, ms, steps) && j < |ms| && v in ms[j].o.w.db.versions
    ensures v.relPath in ms[j].o.w.files && c.sha256(ms[j].o.w.files[v.relPath].content) == v.sha256
  {
    hide Perform, Enabled, Structure, History, Conserved, SubsGood;
    RunKeepsInv(c, ms, steps, j);
    var vs := ms[j].o.w.db.versions;
    var p :| 0 <= p < |vs| && vs[p] == v;
    assert VersionRec(v) in VersionRecs(vs);
  }

  /** A submission leaves the queue at most once: once decided it is never anything else. */
  lemma DecisionsAreFinal(c: Config, ms: seq<Moment>, steps: seq<Step>, i: nat, j: nat, k: nat)
    requires Run(c, ms, steps) && i <= j < |ms| && k < |ms[i].o.w.db.submissions|
    ensures k < |ms[j].o.w.db.submissions|
    ensures ms[j].o.w.db.submissions[k].submissionId == ms[i].o.w.db.submissions[k].submissionId
    ensures !ms[i].o.w.db.submissions[k].state.Pending? ==> ms[j].o.w.db.submissions[k] == ms[i].o.w.db.submissions[k]
  {
    hide MomentInv, Perform, Enabled;
    RunGoesOnward(c, ms, steps, i, j);
  }
}
