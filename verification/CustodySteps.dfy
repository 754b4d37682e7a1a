/** What every step of the vault keeps. */
module CustodySteps {
  import opened Common
  import opened Documents
  import opened Paths
  import opened Store
  import opened Custody
  import opened Replay
  import opened Records
  import opened CustodyInvariant
  import opened CustodyRoles
  import opened CustodyAdmin
  import opened Sweep
  import opened CustodyMachine
  import opened CustodyTrace

  // ---------- submissions ----------

  ghost predicate DistinctSubs(subs: seq<Submission>) {
    forall i, j :: 0 <= i < j < |subs| ==> subs[i].submissionId != subs[j].submissionId
  }

  function CountAdmitted(subs: seq<Submission>): nat {
    if subs == [] then 0
    else CountAdmitted(subs[..|subs| - 1]) + (if subs[|subs| - 1].state.Admitted? then 1 else 0)
  }

  /** Every admitted submission has its entry, and every such entry its submission. */
  ghost predicate SubsGood(db: DbState) {
    DistinctSubs(db.submissions) && CountAdmitted(db.submissions) == CountAction(db.audit, "admit")
  }

  /** Submissions stay; a decided one never changes; an undecided one may be decided, with nothing else of it changed. */
  ghost predicate SubsAdvance(a: seq<Submission>, b: seq<Submission>) {
    |a| <= |b| && forall i :: 0 <= i < |a| ==> b[i] == a[i] || (a[i].state.Pending? && b[i] == a[i].(state := b[i].state))
  }

  lemma {:induction false} CountAdmittedUpdate(subs: seq<Submission>, i: nat, s: AdmissionState)
    requires i < |subs| && subs[i].state.Pending?
    ensures CountAdmitted(subs[i := subs[i].(state := s)]) == CountAdmitted(subs) + (if s.Admitted? then 1 else 0)
  {
    var n := |subs| - 1;
    var after := subs[i := subs[i].(state := s)];
    if i < n {
      CountAdmittedUpdate(subs[..n], i, s);
      assert after[..n] == subs[..n][i := subs[i].(state := s)];
    } else {
      assert after[..n] == subs[..n];
    }
  }

  lemma DecidedAdvances(subs: seq<Submission>, id: string, s: AdmissionState)
    requires DistinctSubs(subs) && SubIndex(subs, id) < |subs| && subs[SubIndex(subs, id)].state.Pending?
    ensures SubsAdvance(subs, Decided(subs, id, s)) && DistinctSubs(Decided(subs, id, s))
    ensures CountAdmitted(Decided(subs, id, s)) == CountAdmitted(subs) + (if s.Admitted? then 1 else 0)
  {
    CountAdmittedUpdate(subs, SubIndex(subs, id), s);
  }

  lemma ReceivedAdvances(subs: seq<Submission>, after: seq<Submission>)
    requires DistinctSubs(subs) && |after| == |subs| + 1 && after[..|subs|] == subs && after[|subs|].state.Pending?
    requires forall i :: 0 <= i < |subs| ==> subs[i].submissionId != after[|subs|].submissionId
    ensures SubsAdvance(subs, after) && DistinctSubs(after) && CountAdmitted(after) == CountAdmitted(subs)
  {
    assert forall i :: 0 <= i < |subs| ==> after[i] == after[..|subs|][i];
  }

  // ---------- what every step keeps ----------

  /** A document's file is unsealed exactly when its last rename or move was refused by the system; the file of a version is
      sealed. */
  ghost predicate SealsAre(w: World, unsealed: set<string>) {
    forall r :: r in Recs(w.db) ==>
      r.path in w.files && (w.files[r.path].isSealed <==> !(r.version == 0 && r.id in unsealed))
  }

  ghost predicate CoreInv(c: Config, w: World, purged: nat, unsealed: set<string>) {
    Inv(c, w) && SubsGood(w.db) && Purged(w.db) == purged && SealsAre(w, unsealed)
  }

  /** What a restart would lose: entries at the end of the log that place nothing. */
  ghost predicate Behind(c: Config, saved: DbState, db: DbState) {
    && saved == db.(audit := saved.audit)
    && saved.audit <= db.audit
    && (forall k :: |saved.audit| <= k < |db.audit| ==> db.audit[k].action == "admit_reclassify")
    && Chained(c.ink.hashing, saved.audit)
    && ReplayLog(saved.audit) == ReplayLog(db.audit)
    && SameIntake(saved.audit, db.audit)
  }

  ghost predicate MomentInv(c: Config, m: Moment) {
    CoreInv(c, m.o.w, m.purged, m.unsealed) && Behind(c, m.flushed, m.o.w.db)
  }

  // ---------- seals ----------

  lemma SteadySeals(w: World, w': World, unsealed: set<string>)
    requires SealsAre(w, unsealed) && Steady(w, w')
    ensures SealsAre(w', unsealed)
  {
    hide Recs;
  }

  lemma ArrivalSealsAre(w: World, w': World, arrived: bool, id: string, unsealed: set<string>)
    requires SealsAre(w, unsealed) && ArrivalSeals(w, w', arrived, id)
    ensures SealsAre(w', if arrived then unsealed - {id} else unsealed)
  {
    hide Recs;
  }

  lemma MoveSealsAre(
      c: Config, w: World, w': World, id: string, answer: Result<Document, OpError>, unsealed: set<string>)
    requires Inv(c, w) && SealsAre(w, unsealed) && MoveSeals(w, w', id, answer)
    ensures SealsAre(w', if answer == Err(IoError) then unsealed + {id}
                         else if w'.db != w.db then unsealed - {id}
                         else unsealed)
  {
    hide Recs, Inv, SealsKept, NewDocs, LosesSeal, SealsAre;
    if answer == Err(IoError) {
      var i := DocIndex(w.db.documents, id);
      OnlyDocOfId(c, w, i);
      LostSealsAre(w, w', DocRec(w.db.documents[i]), unsealed);
    } else {
      MovedOrSame(w, w', id, unsealed);
    }
  }

  lemma LostSealsAre(w: World, w': World, r: Rec, unsealed: set<string>)
    requires SealsAre(w, unsealed) && LosesSeal(w, w', r) && r.version == 0
    requires forall q :: q in Recs(w.db) && q.version == 0 && q.id == r.id ==> q == r
    ensures SealsAre(w', unsealed + {r.id})
  {
    hide Recs;
  }

  lemma MovedOrSame(w: World, w': World, id: string, unsealed: set<string>)
    requires SealsAre(w, unsealed) && SealsKept(w, w') && NewDocs(w, w', if w'.db != w.db then {id} else {})
    ensures SealsAre(w', if w'.db != w.db then unsealed - {id} else unsealed)
  {
    hide Recs;
  }

  lemma OnlyDocOfId(c: Config, w: World, i: nat)
    requires Inv(c, w) && i < |w.db.documents|
    ensures forall q :: q in Recs(w.db) && q.version == 0 && q.id == w.db.documents[i].vaultId
                        ==> q == DocRec(w.db.documents[i])
  {
    ActiveIsClaimed(c, w, i);
    hide Recs, Structure, History, Conserved, Physical, GoodDoc, Holds, ParentBlocked;
    forall q | q in Recs(w.db) && q.version == 0 && q.id == w.db.documents[i].vaultId
      ensures q == DocRec(w.db.documents[i])
    {
      OneDocPerId(c, w.db, q, DocRec(w.db.documents[i]));
    }
  }

  /** From one state to the next, versions are only added and submissions only advance. */
  ghost predicate Onward(a: DbState, b: DbState) {
    a.versions <= b.versions && SubsAdvance(a.submissions, b.submissions)
  }

  lemma SameShelvesIsOnward(a: DbState, b: DbState)
    requires SubsGood(a) && b.submissions == a.submissions && a.versions <= b.versions
    requires CountAction(a.audit, "admit") == CountAction(b.audit, "admit")
    ensures Onward(a, b) && SubsGood(b)
  {}

  /** Is the core of the invariant kept, and does the step only add versions and advance submissions? */
  ghost predicate Keeps(c: Config, m: Moment, m': Moment) {
    CoreInv(c, m'.o.w, m'.purged, m'.unsealed) && Onward(m.o.w.db, m'.o.w.db)
  }

  lemma RoleStepKeeps(c: Config, m: Moment, step: Step)
    requires CoreInv(c, m.o.w, m.purged, m.unsealed)
    requires step.Renaming? || step.Moving? || step.Trashing? || step.Restoring? || step.Editing? || step.Viewing?
    ensures Keeps(c, m, Act(c, m, step))
  {
    hide Inv, Steady, MoveSeals, SealsAre, Recs, CountAction, Balance, SubsGood, Onward, Rename, MoveToCategory, SoftDelete,
      Restore, EditMeta, View;
    var w := m.o.w;
    var w' := Act(c, m, step).o.w;
    match step {
      case Renaming(s, id, newName, accepts) =>
        var answer := Rename(c, false, s, w, id, newName, accepts).1;
        RenameKeepsInv(c, s, w, id, newName, accepts, w', answer);
        MoveSealsAre(c, w, w', id, answer, m.unsealed);
      case Moving(s, id, category, accepts) =>
        var answer := MoveToCategory(c, false, s, w, id, category, accepts).1;
        MoveToCategoryKeepsInv(c, s, w, id, category, accepts, w', answer);
        MoveSealsAre(c, w, w', id, answer, m.unsealed);
      case Trashing(s, id, reason, at) =>
        SoftDeleteKeepsInv(c, s, w, id, reason, at, w', SoftDelete(c, false, s, w, id, reason, at).1);
        SameIsSteady(c, w, w');
        SteadySeals(w, w', m.unsealed);
      case Restoring(s, id) =>
        RestoreKeepsInv(c, s, w, id, w', Restore(c, false, s, w, id).1);
        SameIsSteady(c, w, w');
        SteadySeals(w, w', m.unsealed);
      case Editing(s, id, edit, at) =>
        EditMetaKeepsInv(c, s, w, id, edit, at, w', EditMeta(c, false, s, w, id, edit, at).1);
        SteadySeals(w, w', m.unsealed);
      case Viewing(s, id) =>
        ViewKeepsInv(c, s, w, id, w', View(c, false, s, w, id).1);
        SameIsSteady(c, w, w');
        SteadySeals(w, w', m.unsealed);
    }
    SameShelvesIsOnward(w.db, w'.db);
  }

  lemma SubmissionStepKeeps(c: Config, m: Moment, step: Step)
    requires CoreInv(c, m.o.w, m.purged, m.unsealed) && Enabled(c, m, step)
    requires step.Admitting? || step.Importing? || step.Rejecting? || step.Uploading?
    ensures Keeps(c, m, Act(c, m, step))
  {
    hide Inv, Steady, ArrivalSeals, SealsAre, Recs, CountAction, Balance, Admit, Import, Reject, Upload, Decided,
      DistinctSubs, SubsAdvance, CountAdmitted, Fresh;
    var w := m.o.w;
    var w' := Act(c, m, step).o.w;
    NothingAdvances(w.db.submissions);
    match step {
      case Admitting(subId, actor, newId, stamp) =>
        var answer := Admit(c, w, subId, actor, newId, stamp).1;
        AdmitKeepsInv(c, w, subId, actor, newId, stamp, w', answer);
        ArrivalSealsAre(w, w', answer.Ok? && answer.value.Sealed?, newId, m.unsealed);
        if answer.Ok? { DecidedAdvances(w.db.submissions, subId, if answer.value.Sealed? then Admitted else Rejected); }
      case Importing(s, content, meta, newId, stamp) =>
        var answer := Import(c, false, s, w, content, meta, newId, stamp).1;
        ImportKeepsInv(c, s, w, content, meta, newId, stamp, w', answer);
        ArrivalSealsAre(w, w', answer.Ok? && answer.value.Sealed?, newId, m.unsealed);
      case Rejecting(subId, reason, actor) =>
        var answer := Reject(c, w, subId, reason, actor).1;
        RejectKeepsInv(c, w, subId, reason, actor, w', answer);
        SteadySeals(w, w', m.unsealed);
        if answer.Ok? { DecidedAdvances(w.db.submissions, subId, Rejected); }
      case Uploading(deviceId, envelope, content, subId, at) =>
        var answer := Upload(c, w, deviceId, envelope, content, subId, at).1;
        UploadKeepsInv(c, w, deviceId, envelope, content, subId, at, w', answer);
        SteadySeals(w, w', m.unsealed);
        if answer.Ok? { ReceivedAdvances(w.db.submissions, w'.db.submissions); }
    }
  }

  lemma NothingAdvances(subs: seq<Submission>)
    ensures SubsAdvance(subs, subs)
  {}

  lemma RemovalStepKeeps(c: Config, m: Moment, step: Step)
    requires CoreInv(c, m.o.w, m.purged, m.unsealed) && Enabled(c, m, step)
    requires step.Destroying? || step.ProcessingDue? || step.Purging? || step.SweepingAll? || step.Recording?
    ensures Keeps(c, m, Act(c, m, step))
  {
    hide Inv, Steady, SealsAre, Recs, CountAction, Balance, SubsGood, Onward, Destroy, ProcessDue, Purge, SweepSpec,
      Enumerates, Placing, Live, DueIds, HasId, Append, Left;
    var w := m.o.w;
    var m' := Act(c, m, step);
    match step {
      case Destroying(id, pins, grace, now, text, reason, actor) =>
        DestroyKeepsInv(c, m.o, id, pins, grace, now, text, reason, actor, m'.o,
                        Destroy(c, m.o, id, pins, grace, now, text, reason, actor).1);
      case ProcessingDue(order, now, text, actor) =>
        DueAreActive(m.o, order, now);
        ProcessDueKeepsInv(c, m.o, order, now, text, actor, m'.o, ProcessDue(c, m.o, order, text, actor).1);
      case Purging(id) =>
        PurgeKeepsInv(c, w, id, m'.o.w, Purge(w, id).1);
      case SweepingAll =>
        UntouchedVaultSweepsClean(c, w);
      case Recording(actor, action, subject, remark) =>
        NotedKeepsInv(c, w, actor, action, subject, Note(remark));
    }
    SteadySeals(w, m'.o.w, m.unsealed);
    SameShelvesIsOnward(w.db, m'.o.w.db);
  }

  lemma DueAreActive(o: Office, order: seq<string>, now: nat)
    requires Enumerates(order, DueIds(o, now))
    ensures forall i :: 0 <= i < |order| ==> HasId(o.w.db.documents, order[i])
  {}

  // ---------- flushes and restarts ----------

  lemma SavedIsBehind(c: Config, w: World)
    requires Inv(c, w)
    ensures Behind(c, w.db, w.db)
  {}

  /** A database that is behind by entries that place nothing meets the invariant with the same files. */
  lemma BehindKeepsInv(c: Config, m: Moment)
    requires MomentInv(c, m)
    ensures CoreInv(c, m.o.w.(db := m.flushed), m.purged, m.unsealed) && Onward(m.o.w.db, m.flushed)
  {
    hide Chained, ReplayLog, CountAction, Agree, DistinctIds, ActiveIs, Covers, DocRecs, VersionRecs, DistinctSubs,
      CountAdmitted, InPlace, NoOrphans, TrashedDocs, GoodDocs, GoodVersions;
    NotedRecs(c, m.o.w.db, m.flushed.audit);
    NothingAdvances(m.o.w.db.submissions);
  }

  /** An admission that fails after the digests leaves at most the entry of the reclassification behind. */
  lemma FailedAdmission(c: Config, w: World, subId: string, actor: string, newId: string, stamp: Option<string>)
    returns (subject: string, detail: Detail)
    requires Admit(c, w, subId, actor, newId, stamp).1.Err?
    requires Admit(c, w, subId, actor, newId, stamp).1 != Err(HashMismatch)
    ensures var db := Admit(c, w, subId, actor, newId, stamp).0.db;
            db == w.db || db == Noted(c.ink, w.db, actor, "admit_reclassify", subject, detail)
  {
    hide Append, StagingPath, Exists, ParentBlocked;
    subject, detail := "", Note("");
    var i := SubIndex(w.db.submissions, subId);
    if i < |w.db.submissions| && w.db.submissions[i].state.Pending?
       && StagingPath(w.db.submissions[i].stagingPath) in w.files
    {
      var sub := w.db.submissions[i];
      var r := AdmitRequest(c, w, sub, actor, newId, stamp);
      subject, detail := sub.sha256, Note(DirName(r.meta.category));
      SealedOrSame(c, Reviewed(c, w, sub, r), r);
    }
  }

  lemma SealedOrSame(c: Config, w: World, r: SealRequest)
    ensures SealDocument(c, w, r).1.Err? ==> SealDocument(c, w, r).0 == w
  {}

  /** Entries that place nothing do not bring a restart nearer to losing anything else. */
  lemma BehindGrows(
      c: Config, saved: DbState, db: DbState, actor: string, subject: string, detail: Detail, db': DbState)
    requires Behind(c, saved, db) && db' == Noted(c.ink, db, actor, "admit_reclassify", subject, detail)
    ensures Behind(c, saved, db')
  {
    hide Chained, ReplayLog, CountAction, Replaying, Placing;
    ReplayAppend(c.ink, db.audit, actor, "admit_reclassify", subject, detail, db'.audit);
    ReviewPlacesNothing();
    ReplayOther(ReplayLog(db.audit), "admit_reclassify", subject, detail);
  }

  /** After any step but a restart the flushed database is the one in memory, or behind it by reclassifications. */
  lemma StepStaysBehind(c: Config, m: Moment, step: Step)
    requires MomentInv(c, m) && !step.Restarting? && Inv(c, m.o.w) && Inv(c, Act(c, m, step).o.w)
    ensures Behind(c, Perform(c, m, step).flushed, Act(c, m, step).o.w.db)
  {
    hide Inv, Act, Behind, CoreInv, Admit;
    var m' := Act(c, m, step);
    ActKeepsFlushed(c, m, step);
    if Flushes(c, m, step) {
      SavedIsBehind(c, m'.o.w);
    } else if m'.o.w.db != m.o.w.db {
      if !step.Admitting? { OnlyAdmissionsSkipTheFlush(c, m, step); }
      AdmissionActs(c, m, step);
      var subject, detail := FailedAdmission(c, m.o.w, step.subId, step.actor, step.newId, step.stamp);
      BehindGrows(c, m.flushed, m.o.w.db, step.actor, subject, detail, m'.o.w.db);
    }
  }

  lemma ActKeepsFlushed(c: Config, m: Moment, step: Step)
    ensures Act(c, m, step).flushed == m.flushed
  {
    hide Rename, MoveToCategory, SoftDelete, Restore, EditMeta, View, Admit, Import, Reject, Upload, Destroy, ProcessDue,
      Purge, SweepSpec, Append;
  }

  lemma AdmissionActs(c: Config, m: Moment, step: Step)
    requires step.Admitting?
    ensures Act(c, m, step).o.w == Admit(c, m.o.w, step.subId, step.actor, step.newId, step.stamp).0
  {}

  lemma RestartActs(c: Config, m: Moment)
    ensures Perform(c, m, Restarting) == m.(o := Office(m.o.w.(db := m.flushed), map[]))
  {
    hide Rename, MoveToCategory, SoftDelete, Restore, EditMeta, View, Admit, Import, Reject, Upload, Destroy, ProcessDue,
      Purge, SweepSpec, Append;
  }

  lemma RestartKeepsInv(c: Config, m: Moment)
    requires MomentInv(c, m)
    ensures MomentInv(c, Perform(c, m, Restarting)) && Onward(m.o.w.db, Perform(c, m, Restarting).o.w.db)
  {
    BehindKeepsInv(c, m);
    RestartActs(c, m);
    SavedIsBehind(c, m.o.w.(db := m.flushed));
    hide Perform, Inv, Behind, Onward, SealsAre, SubsGood;
  }

  lemma OtherStepKeepsInv(c: Config, m: Moment, step: Step)
    requires MomentInv(c, m) && Enabled(c, m, step) && !step.Restarting?
    ensures MomentInv(c, Perform(c, m, step)) && Onward(m.o.w.db, Perform(c, m, step).o.w.db)
  {
    hide Inv, Behind, Onward, Act, Enabled, SealsAre, SubsGood, Flushes;
    if step.Renaming? || step.Moving? || step.Trashing? || step.Restoring? || step.Editing? || step.Viewing? {
      RoleStepKeeps(c, m, step);
    } else if step.Admitting? || step.Importing? || step.Rejecting? || step.Uploading? {
      SubmissionStepKeeps(c, m, step);
    } else {
      RemovalStepKeeps(c, m, step);
    }
    StepStaysBehind(c, m, step);
  }

  /** Every step keeps the whole invariant, only adds versions and only advances submissions. */
  lemma StepKeepsInv(c: Config, m: Moment, step: Step)
    requires MomentInv(c, m) && Enabled(c, m, step)
    ensures MomentInv(c, Perform(c, m, step)) && Onward(m.o.w.db, Perform(c, m, step).o.w.db)
  {
    hide MomentInv, Onward, Perform, Enabled;
    if step.Restarting? {
      RestartKeepsInv(c, m);
    } else {
      OtherStepKeepsInv(c, m, step);
    }
  }
}
