/** The operations of the administration keep the invariant: seal, admit, import, reject, upload, destroy, purge. */
module CustodyAdmin {
  import opened Common
  import opened Documents
  import opened Paths
  import opened Store
  import opened Custody
  import opened Replay
  import opened Records
  import opened CustodyInvariant
  import opened CustodyRoles

  // ---------- files of the service folders ----------

  lemma RecsAreElsewhere(c: Config, db: DbState)
    requires Structure(c, db)
    ensures forall r :: r in Recs(db) ==> |r.path| != 2
  {
    forall r | r in Recs(db)
      ensures |r.path| != 2
    {
      RecShape(c, db, r);
    }
  }

  /** Staging files come and go without the index noticing. */
  lemma StagedWorld(c: Config, w: World, name: string, f: File, files: Files)
    requires Inv(c, w)
    requires files == w.files - {StagingPath(name)}
             || (KnownPlace(StagingPath(name)) && files == w.files[StagingPath(name) := f])
    ensures Inv(c, w.(files := files)) && Steady(w, w.(files := files))
  {
    hide Balance, Structure, History, Conserved, Recs, Agree, KeptSeals, Live, StagingPath, TombstonePath;
    RecsAreElsewhere(c, w.db);
    forall id | id in Live(w.db.audit)
      ensures TombstonePath(id) !in files
    {
      StagingIsNoTomb(name, id);
    }
    assert |StagingPath(name)| == 2 by { StagingIsShort(name); }
    ServiceFiles(c, Recs(w.db), Live(w.db.audit), w.files, files);
  }

  lemma StagingIsShort(name: string)
    ensures |StagingPath(name)| == 2
  {}

  lemma SubsDoNotMatter(c: Config, w: World, db: DbState)
    requires Inv(c, w) && db == w.db.(submissions := db.submissions)
    ensures Inv(c, w.(db := db)) && Recs(db) == Recs(w.db) && SameBooks(w.db, db)
    ensures Steady(w, w.(db := db))
  {
    hide Balance, Structure, History, Conserved, Physical, Live;
    assert Structure(c, db) by { StructureFrame(c, w.db, db); }
    SameIsSteady(c, w, w.(db := db));
  }

  lemma StructureFrame(c: Config, a: DbState, b: DbState)
    requires Structure(c, a) && b.documents == a.documents && b.trashed == a.trashed && b.versions == a.versions
    ensures Structure(c, b)
  {}

  // ---------- sealing ----------

  lemma SealedDocIsGood(c: Config, r: SealRequest)
    requires GoodId(r.newId)
    ensures GoodDoc(c, SealedDoc(c, r))
  {
    SanitizedIsGood(c.alnum, r.meta.fileName);
  }

  /** The new file joins the claims; the staged one was never claimed. */
  lemma InstalledFile(c: Config, recs: set<Rec>, live: set<string>, files: Files, r: SealRequest, q: Rec, files': Files)
    requires Physical(c, recs, live, files) && (forall x :: x in recs ==> |x.path| != 2)
    requires q.path !in files && |q.path| == 3 && q.sha256 == c.sha256(r.content) && q.blake3 == Some(c.blake3(r.content))
    requires r.staged.Some? ==> |r.staged.value| == 2
    requires TombstonePath(r.newId) !in files && files' == Installed(files, r, q.path)
    ensures Physical(c, recs + {q}, live + {r.newId}, files')
    ensures KeptSeals(recs, files, recs + {q}, files')
  {
    AgreeAdd(c, recs, files, q, File(r.content, true), files');
  }

  lemma SealedWorld(c: Config, w: World, r: SealRequest, doc: Document, w': World)
    requires Inv(c, w) && Fresh(w, r.newId) && Arrival(r.action) && (r.staged.Some? ==> |r.staged.value| == 2)
    requires doc == SealedDoc(c, r) && doc.relPath !in w.files
    requires w'.db == Noted(c.ink, w.db.(documents := w.db.documents + [doc]), r.actor, r.action, doc.sha256,
                            Placed(doc.vaultId, doc.relPath))
    requires w'.files == Installed(w.files, r, doc.relPath)
    ensures Inv(c, w') && ArrivalSeals(w, w', true, r.newId) && Purged(w'.db) == Purged(w.db)
  {
    hide Balance, Append, ReplayLog, Live, History, Conserved, Physical, GoodDocs, GoodDoc, GoodVersions, DistinctIds,
      DocRecs, VersionRecs, TrashedDocs, KeptSeals, Installed;
    SealedDocIsGood(c, r);
    GoodDocsAreDistinct(c, w.db);
    ArrivedHistory(c, w.db.audit, w.db.documents, TrashedDocs(w.db.trashed), doc, r.actor, r.action, doc.sha256, w'.db.audit);
    GoodWith(c, w.db.documents, doc);
    DocRecsAdd(w.db.documents, doc);
    MoreRecs(DocRecs(w.db.documents), DocRecs(TrashedDocs(w.db.trashed)), VersionRecs(w.db.versions), DocRec(doc));
    RecsAreElsewhere(c, w.db);
    GoodDocPath(c, doc);
    InstalledFile(c, Recs(w.db), Live(w.db.audit), w.files, r, DocRec(doc), w'.files);
    IdIsNew(c, w.db, r.newId);
  }

  lemma IdIsNew(c: Config, db: DbState, id: string)
    requires History(c, db.audit, db.documents, TrashedDocs(db.trashed)) && id !in Live(db.audit) && Structure(c, db)
    ensures forall r :: r in Recs(db) && r.version == 0 ==> r.id != id
  {
    hide Chained, ReplayLog;
    var m := ReplayLog(db.audit);
    forall r | r in Recs(db) && r.version == 0
      ensures r.id in m.active || r.id in m.trash
    {
      assert r in DocRecs(db.documents) || r in DocRecs(TrashedDocs(db.trashed));
    }
  }

  lemma GoodDocPath(c: Config, doc: Document)
    requires GoodDoc(c, doc)
    ensures |doc.relPath| == 3
  {}

  /** Sealing either adds one document or leaves everything as it was. */
  lemma SealDocumentKeepsInv(c: Config, w: World, r: SealRequest, w': World, answer: Result<SealOutcome, OpError>)
    requires Inv(c, w) && Fresh(w, r.newId) && Arrival(r.action) && (r.staged.Some? ==> |r.staged.value| == 2)
    requires (w', answer) == SealDocument(c, w, r)
    ensures Inv(c, w') && SameShelves(w.db, w'.db)
    ensures ArrivalSeals(w, w', answer.Ok? && answer.value.Sealed?, r.newId)
    ensures Purged(w'.db) == Purged(w.db)
    ensures if answer.Ok? && answer.value.Sealed?
            then w'.db.documents == w.db.documents + [answer.value.doc]
                 && CountAction(w'.db.audit, r.action) == CountAction(w.db.audit, r.action) + 1
                 && (forall a :: a != r.action ==> CountAction(w'.db.audit, a) == CountAction(w.db.audit, a))
            else w' == w
  {
    hide Balance, Inv, SealsKept, NewDocs, Fresh;
    SameIsSteady(c, w, w);
    var doc := SealedDoc(c, r);
    if answer.Ok? && answer.value.Sealed? {
      SealedWorld(c, w, r, doc, w');
      ReplayAppend(c.ink, w.db.audit, r.actor, r.action, doc.sha256, Placed(doc.vaultId, doc.relPath), w'.db.audit);
    }
  }

  /** What is sealed is what was given: afterwards the document's file holds that content under seal, a staged file is gone
      from the staging folder, and every other file is as it was. */
  lemma SealedContentIsKept(c: Config, w: World, r: SealRequest, w': World, answer: Result<SealOutcome, OpError>)
    requires (w', answer) == SealDocument(c, w, r) && answer.Ok? && answer.value.Sealed?
    requires r.staged.Some? ==> r.staged.value in w.files
    ensures var p := answer.value.doc.relPath;
            && p !in w.files && p in w'.files && w'.files[p] == File(r.content, true)
            && (r.staged.Some? ==> r.staged.value !in w'.files)
            && (forall q :: q in w.files && r.staged != Some(q) ==> q in w'.files && w'.files[q] == w.files[q])
            && (forall q :: q in w'.files && q != p ==> q in w.files)
  {
    hide IsFolder, ParentBlocked, Append;
  }

  // ---------- what comes in ----------

  lemma SealAnswersIff(c: Config, w: World, w1: World, r: SealRequest)
    requires Inv(c, w) && w1.files == w.files && w1.db.documents == w.db.documents
    ensures SealDocument(c, w1, r).1.Err?
            <==> ShaIndex(w.db.documents, c.sha256(r.content)) == |w.db.documents| && Exists(w.files, SealedDoc(c, r).relPath)
    ensures SealDocument(c, w1, r).1.Err? ==> SealDocument(c, w1, r) == (w1, Err(Collision))
    ensures SealDocument(c, w1, r).1.Ok? && SealDocument(c, w1, r).1.value.Duplicate?
            <==> ShaIndex(w.db.documents, c.sha256(r.content)) < |w.db.documents|
  {
    InvPlaces(c, w);
    DocFolderIsFree(w.files, SealedDoc(c, r).relPath, r.meta.category);
    hide Inv, Exists, ParentBlocked, Append;
  }

  // ---------- admission ----------

  lemma FreshStays(c: Config, w: World, w1: World, id: string)
    requires Fresh(w, id) && Live(w1.db.audit) == Live(w.db.audit) && w1.files == w.files
    ensures Fresh(w1, id)
  {}

  lemma ReviewedKeepsInv(c: Config, w: World, sub: Submission, r: SealRequest, id: string)
    requires Inv(c, w) && Fresh(w, id)
    ensures Inv(c, Reviewed(c, w, sub, r)) && Fresh(Reviewed(c, w, sub, r), id)
    ensures Recs(Reviewed(c, w, sub, r).db) == Recs(w.db) && Reviewed(c, w, sub, r).files == w.files
    ensures SameBooks(w.db, Reviewed(c, w, sub, r).db) && Steady(w, Reviewed(c, w, sub, r))
  {
    SameIsSteady(c, w, w);
    if r.meta != sub.meta {
      hide Balance, Inv, Recs, Fresh, CountAction, Live, Placing, Append;
      ReviewPlacesNothing();
      NotedKeepsInv(c, w, r.actor, "admit_reclassify", sub.sha256, Note(DirName(r.meta.category)));
      FreshStays(c, w, Reviewed(c, w, sub, r), id);
    }
  }

  lemma ReviewPlacesNothing()
    ensures !Placing("admit_reclassify")
  {}

  /** The end of an admission: the state of the submission, and for a duplicate the staging file and an entry. */
  lemma ClosedWorld(
      c: Config, w: World, i: nat, actor: string, action: string, detail: Detail, name: string, s: AdmissionState, w': World)
    requires Inv(c, w) && i < |w.db.submissions| && !Placing(action)
    requires w' == World(Noted(c.ink, WithSubState(w.db, i, s), actor, action, w.db.submissions[i].sha256, detail),
                         w.files - {StagingPath(name)})
    ensures Inv(c, w') && Steady(w, w') && SameIndex(w, w') && Recs(w'.db) == Recs(w.db)
    ensures SameBooks(w.db, w'.db)
    ensures w'.db.submissions == w.db.submissions[i := w.db.submissions[i].(state := s)]
  {
    hide Balance, Inv, Recs, Append, Steady, CountAction, Live;
    var w1 := w.(db := WithSubState(w.db, i, s));
    SubsDoNotMatter(c, w, w1.db);
    var w2 := w1.(db := Noted(c.ink, w1.db, actor, action, w.db.submissions[i].sha256, detail));
    NotedKeepsInv(c, w1, actor, action, w.db.submissions[i].sha256, detail);
    StagedWorld(c, w2, name, File([], false), w'.files);
    SteadyCompose(w, w1, w2);
    SteadyCompose(w, w2, w');
  }

  predicate SameIndex(a: World, b: World) {
    a.db.documents == b.db.documents && a.db.trashed == b.db.trashed && a.db.versions == b.db.versions
  }

  function Decided(subs: seq<Submission>, id: string, s: AdmissionState): seq<Submission> {
    var i := SubIndex(subs, id);
    if i < |subs| then subs[i := subs[i].(state := s)] else subs
  }

  lemma SteadyIsNoArrival(w: World, w': World, id: string)
    requires Steady(w, w')
    ensures ArrivalSeals(w, w', false, id)
  {}

  lemma NoArrival(c: Config, w: World, id: string)
    requires Inv(c, w)
    ensures ArrivalSeals(w, w, false, id)
  {
    SameIsSteady(c, w, w);
  }

  lemma AdmittedWorld(c: Config, w: World, i: nat, r: SealRequest, w': World, answer: Result<SealOutcome, OpError>)
    requires Inv(c, w) && Fresh(w, r.newId) && r.action == "admit" && i < |w.db.submissions|
    requires r.staged == Some(StagingPath(w.db.submissions[i].stagingPath)) && (w', answer) == Admission(c, w, i, r)
    ensures Inv(c, w') && Purged(w'.db) == Purged(w.db)
    ensures ArrivalSeals(w, w', answer.Ok? && answer.value.Sealed?, r.newId)
    ensures w'.db.trashed == w.db.trashed && w'.db.versions == w.db.versions
    ensures w'.db.submissions
            == if answer.Err? then w.db.submissions
               else w.db.submissions[i := w.db.submissions[i].(state := if answer.value.Sealed? then Admitted else Rejected)]
    ensures |w'.db.documents| == |w.db.documents| + (if answer.Ok? && answer.value.Sealed? then 1 else 0)
    ensures CountAction(w'.db.audit, "admit")
            == CountAction(w.db.audit, "admit") + (if answer.Ok? && answer.value.Sealed? then 1 else 0)
  {
    hide Balance, Inv, Steady, ArrivalSeals, Fresh, SealDocument, CountAction, Append, StagingPath, Recs;
    var sub := w.db.submissions[i];
    StagingIsShort(sub.stagingPath);
    var w1 := Reviewed(c, w, sub, r);
    ReviewedKeepsInv(c, w, sub, r, r.newId);
    var (w2, sealed) := SealDocument(c, w1, r);
    SealDocumentKeepsInv(c, w1, r, w2, sealed);
    ArrivalCompose(w, w1, w2, sealed.Ok? && sealed.value.Sealed?, r.newId);
    if sealed.Err? {
      assert w' == w2;
    } else if sealed.value.Duplicate? {
      ClosedWorld(c, w2, i, r.actor, "admit_dup", Note("duplicate"), sub.stagingPath, Rejected, w');
      ArrivalCompose(w, w2, w', false, r.newId);
    } else {
      SubsDoNotMatter(c, w2, WithSubState(w2.db, i, Admitted));
      ArrivalCompose(w, w2, w', true, r.newId);
    }
  }

  /** Admission seals one document, closes the submission as a duplicate, or leaves it pending. */
  lemma AdmitKeepsInv(
      c: Config, w: World, subId: string, actor: string, newId: string, stamp: Option<string>,
      w': World, answer: Result<SealOutcome, OpError>)
    requires Inv(c, w) && Fresh(w, newId) && (w', answer) == Admit(c, w, subId, actor, newId, stamp)
    ensures Inv(c, w') && Purged(w'.db) == Purged(w.db)
    ensures ArrivalSeals(w, w', answer.Ok? && answer.value.Sealed?, newId)
    ensures w'.db.trashed == w.db.trashed && w'.db.versions == w.db.versions
    ensures answer.Ok? ==> SubIndex(w.db.submissions, subId) < |w.db.submissions|
                           && w.db.submissions[SubIndex(w.db.submissions, subId)].state.Pending?
    ensures w'.db.submissions == if answer.Err? then w.db.submissions
                                 else Decided(w.db.submissions, subId, if answer.value.Sealed? then Admitted else Rejected)
    ensures |w'.db.documents| == |w.db.documents| + (if answer.Ok? && answer.value.Sealed? then 1 else 0)
    ensures CountAction(w'.db.audit, "admit")
            == CountAction(w.db.audit, "admit") + (if answer.Ok? && answer.value.Sealed? then 1 else 0)
  {
    hide Balance, Inv, Steady, ArrivalSeals, Fresh, SealDocument, CountAction, Append, StagingPath, Recs, Reclassified;
    NoArrival(c, w, newId);
    var i := SubIndex(w.db.submissions, subId);
    if i < |w.db.submissions| && w.db.submissions[i].state.Pending? && StagingPath(w.db.submissions[i].stagingPath) in w.files {
      var sub := w.db.submissions[i];
      var path := StagingPath(sub.stagingPath);
      StagingIsShort(sub.stagingPath);
      if c.sha256(w.files[path].content) != sub.sha256 || c.blake3(w.files[path].content) != sub.blake3 {
        NotedKeepsInv(c, w, actor, "admit_failed", sub.sha256, Note("staging hash"));
        SteadyIsNoArrival(w, w', newId);
      } else {
        var r := AdmitRequest(c, w, sub, actor, newId, stamp);
        AdmittedWorld(c, w, i, r, w', answer);
      }
    }
  }

  lemma ImportKeepsInv(
      c: Config, s: Session, w: World, content: bytes, meta: DocumentMeta, newId: string, stamp: Option<string>,
      w': World, answer: Result<SealOutcome, OpError>)
    requires Inv(c, w) && Fresh(w, newId) && (w', answer) == Import(c, false, s, w, content, meta, newId, stamp)
    ensures Inv(c, w') && SameShelves(w.db, w'.db)
    ensures ArrivalSeals(w, w', answer.Ok? && answer.value.Sealed?, newId)
    ensures SameBooks(w.db, w'.db)
    ensures |w'.db.documents| == |w.db.documents| + (if answer.Ok? && answer.value.Sealed? then 1 else 0)
  {
    hide Balance, Inv, ArrivalSeals, Fresh, SealDocument, CountAction;
    NoArrival(c, w, newId);
    if s.role.CanImport() && content != [] {
      var category := c.classify(meta.fileName);
      var m := meta.(author := s.displayName, category := if category.Some? then category.value else MaterialGrafico);
      var r := SealRequest(content, None, m, None, s.username, "import", newId, stamp);
      SealDocumentKeepsInv(c, w, r, w', answer);
    }
  }

  /** The guards under which an import adds a document: the role, some content, new, and a free place for it. */
  predicate ImportsNew(c: Config, s: Session, w: World, content: bytes, meta: DocumentMeta) {
    var category := c.classify(meta.fileName);
    && s.role.CanImport() && content != [] && ShaIndex(w.db.documents, c.sha256(content)) == |w.db.documents|
    && !Exists(w.files, RelPathFor(c.alnum, s.displayName, if category.Some? then category.value else MaterialGrafico,
                                   meta.fileName))
  }

  lemma ImportsNewIff(
      c: Config, s: Session, w: World, content: bytes, meta: DocumentMeta, newId: string, stamp: Option<string>)
    requires Inv(c, w)
    ensures var answer := Import(c, false, s, w, content, meta, newId, stamp).1;
            (answer.Ok? && answer.value.Sealed?) <==> ImportsNew(c, s, w, content, meta)
  {
    hide Inv, SealDocument, Exists, RelPathFor;
    var category := c.classify(meta.fileName);
    var m := meta.(author := s.displayName, category := if category.Some? then category.value else MaterialGrafico);
    SealAnswersIff(c, w, w, SealRequest(content, None, m, None, s.username, "import", newId, stamp));
  }

  /** The submission can be decided and its staging file is what was received. */
  predicate Decidable(c: Config, w: World, subId: string) {
    var i := SubIndex(w.db.submissions, subId);
    && i < |w.db.submissions| && w.db.submissions[i].state.Pending?
    && StagingPath(w.db.submissions[i].stagingPath) in w.files
    && var content := w.files[StagingPath(w.db.submissions[i].stagingPath)].content;
    && c.sha256(content) == w.db.submissions[i].sha256 && c.blake3(content) == w.db.submissions[i].blake3
  }

  /** The guards under which an admission adds a document: a new content, and a free place for it. */
  predicate AdmitsNew(c: Config, w: World, subId: string) {
    && Decidable(c, w, subId)
    && var sub := w.db.submissions[SubIndex(w.db.submissions, subId)];
    && ShaIndex(w.db.documents, sub.sha256) == |w.db.documents|
    && !Exists(w.files, RelPathFor(c.alnum, sub.meta.author, Reclassified(c, sub.meta).category, sub.meta.fileName))
  }

  lemma AdmitsNewIff(c: Config, w: World, subId: string, actor: string, newId: string, stamp: Option<string>)
    requires Inv(c, w)
    ensures var answer := Admit(c, w, subId, actor, newId, stamp).1;
            (answer.Ok? && answer.value.Sealed?) <==> AdmitsNew(c, w, subId)
  {
    hide Inv, SealDocument, StagingPath, Exists, RelPathFor, Append;
    if Decidable(c, w, subId) {
      var sub := w.db.submissions[SubIndex(w.db.submissions, subId)];
      var r := AdmitRequest(c, w, sub, actor, newId, stamp);
      SealAnswersIff(c, w, Reviewed(c, w, sub, r), r);
    }
  }

  lemma RejectKeepsInv(
      c: Config, w: World, subId: string, reason: string, actor: string, w': World, answer: Result<(), OpError>)
    requires Inv(c, w) && (w', answer) == Reject(c, w, subId, reason, actor)
    ensures Inv(c, w') && Steady(w, w') && SameIndex(w, w')
    ensures SameBooks(w.db, w'.db)
    ensures answer.Ok? ==> SubIndex(w.db.submissions, subId) < |w.db.submissions|
                           && w.db.submissions[SubIndex(w.db.submissions, subId)].state.Pending?
    ensures w'.db.submissions == if answer.Err? then w.db.submissions else Decided(w.db.submissions, subId, Rejected)
  {
    hide Balance, Inv, Steady, Recs, Append, CountAction, StagingPath, IsFolder;
    var i := SubIndex(w.db.submissions, subId);
    if answer.Ok? {
      ClosedWorld(c, w, i, actor, "reject", Note(reason), w.db.submissions[i].stagingPath, Rejected, w');
    } else {
      SameIsSteady(c, w, w);
    }
  }

  /** An upload changes the staging folder, and at most adds one pending submission. */
  lemma UploadKeepsInv(
      c: Config, w: World, deviceId: string, envelope: Option<Envelope>, content: bytes, subId: string, at: string,
      w': World, answer: Result<(), OpError>)
    requires Inv(c, w) && (w', answer) == Upload(c, w, deviceId, envelope, content, subId, at)
    ensures Inv(c, w') && Steady(w, w') && SameIndex(w, w')
    ensures SameBooks(w.db, w'.db)
    ensures if answer.Err? then w'.db.submissions == w.db.submissions
            else |w'.db.submissions| == |w.db.submissions| + 1 && w'.db.submissions[..|w.db.submissions|] == w.db.submissions
                 && w'.db.submissions[|w.db.submissions|].submissionId == subId
                 && w'.db.submissions[|w.db.submissions|].state.Pending?
  {
    hide Balance, Inv, Steady, Recs, CountAction, Append, StagingPath, IncomingName, FromDirName, ParentBlocked;
    var name := IncomingName(c.sha256(content));
    ServicePlaces("", c.sha256(content));
    var staged := w.files[StagingPath(name) := File(content, false)];
    SameIsSteady(c, w, w);
    if w'.files == staged {
      StagedWorld(c, w, name, File(content, false), staged);
    } else if w'.files != w.files {
      StagedWorld(c, w, name, File(content, false), w'.files);
    }
    if answer.Ok? {
      var w1 := w.(files := staged);
      var subs := w'.db.submissions;
      var w2 := w1.(db := w1.db.(submissions := subs));
      SubsDoNotMatter(c, w1, w2.db);
      NotedKeepsInv(c, w2, deviceId, "upload_received", subs[|subs| - 1].sha256, Note(subs[|subs| - 1].meta.fileName));
      SteadyCompose(w, w1, w2);
      SteadyCompose(w, w2, w');
    }
  }

  // ---------- destruction and purge ----------

  lemma FewerActive<T>(a: set<T>, b: set<T>, rest: set<T>, r: T)
    requires r !in b && r !in rest
    ensures (a - {r}) + b + rest == a + b + rest - {r} && b + (a - {r}) + rest == b + a + rest - {r}
  {}

  lemma RecsWithout(a: seq<Document>, b: seq<Document>, rest: set<Rec>, i: nat)
    requires DistinctIds(a) && i < |a| && DocRec(a[i]) !in DocRecs(b) && DocRec(a[i]) !in rest
    ensures DocRecs(Without(a, i)) + DocRecs(b) + rest == DocRecs(a) + DocRecs(b) + rest - {DocRec(a[i])}
    ensures DocRecs(b) + DocRecs(Without(a, i)) + rest == DocRecs(b) + DocRecs(a) + rest - {DocRec(a[i])}
  {
    DocRecsRemove(a, i);
    hide DocRecs, DistinctIds, Without;
    FewerActive(DocRecs(a), DocRecs(b), rest, DocRec(a[i]));
  }

  /** A tombstone takes the place of a file. */
  lemma BuriedFile(c: Config, recs: set<Rec>, live: set<string>, files: Files, r: Rec, text: bytes, files': Files)
    requires Physical(c, recs, live, files) && r in recs && (forall x :: x in recs ==> |x.path| != 2)
    requires files' == (files - {r.path})[TombstonePath(r.id) := File(text, true)]
    ensures Physical(c, recs - {r}, live - {r.id}, files')
    ensures KeptSeals(recs, files, recs - {r}, files')
  {
    var rest := files - {r.path};
    AgreeRemove(c, recs, files, r);
    ServicePlaces(r.id, "");
    assert forall x :: x in recs - {r} ==> x.path != TombstonePath(r.id);
    forall id | id in live - {r.id}
      ensures TombstonePath(id) !in files'
    {
      if TombstonePath(id) == TombstonePath(r.id) { TombstoneIsInjective(id, r.id); }
    }
    AgreeElsewhere(c, recs - {r}, rest, files');
  }

  lemma TombIsFree(c: Config, w: World, i: nat)
    requires Inv(c, w) && i < |w.db.documents|
    ensures TombstonePath(w.db.documents[i].vaultId) !in w.files
    ensures !ParentBlocked(w.files - {w.db.documents[i].relPath}, TombstonePath(w.db.documents[i].vaultId))
  {
    assert w.db.documents[i].vaultId in ReplayLog(w.db.audit).active;
  }

  lemma FewerIsNotNew(w: World, w': World)
    requires Recs(w'.db) <= Recs(w.db)
    ensures NewDocs(w, w', {})
  {
    hide Recs;
  }

  lemma DestroyedWorld(c: Config, w: World, i: nat, text: bytes, actor: string, reason: string, w': World)
    requires Inv(c, w) && i < |w.db.documents|
    requires w'.db == Noted(c.ink, w.db.(documents := Without(w.db.documents, i)), actor, "destroy_executed",
                            w.db.documents[i].sha256, About(w.db.documents[i].vaultId, reason))
    requires w'.files == (w.files - {w.db.documents[i].relPath})[
                           TombstonePath(w.db.documents[i].vaultId) := File(text, true)]
    ensures Inv(c, w') && Steady(w, w') && Recs(w'.db) <= Recs(w.db) && Purged(w'.db) == Purged(w.db)
  {
    hide Balance, Append, ReplayLog, Live, History, Conserved, Physical, GoodDocs, GoodDoc, GoodVersions, DistinctIds,
      TrashedDocs, DocRecs, VersionRecs, TombstonePath;
    var docs, trash := w.db.documents, TrashedDocs(w.db.trashed);
    var r := DocRec(docs[i]);
    ActiveIsClaimed(c, w, i);
    GoodDocsAreDistinct(c, w.db);
    DestroyedHistory(c, w.db.audit, docs, trash, i, actor, docs[i].sha256, reason, w'.db.audit);
    ActiveIsNotTrashed(c, w.db.audit, docs, trash, i);
    DocIsNoVersion(c, w.db, docs[i]);
    RecsWithout(docs, trash, VersionRecs(w.db.versions), i);
    GoodWithout(c, docs, i);
    RecsAreElsewhere(c, w.db);
    BuriedFile(c, Recs(w.db), Live(w.db.audit), w.files, r, text, w'.files);
    FewerIsNotNew(w, w');
  }

  /** The destruction of an active document succeeds: nothing stands where its tombstone goes. */
  lemma ExecuteDestructionKeepsInv(
      c: Config, w: World, i: nat, text: bytes, reason: string, actor: string, w': World, answer: Result<(), OpError>)
    requires Inv(c, w) && i < |w.db.documents|
    requires (w', answer) == ExecuteDestruction(c, w, w.db.documents[i], text, reason, actor)
    ensures Inv(c, w') && Steady(w, w') && SameShelves(w.db, w'.db) && answer.Ok?
    ensures Recs(w'.db) <= Recs(w.db)
    ensures SameBooks(w.db, w'.db)
    ensures w'.db.documents == Without(w.db.documents, i)
    ensures w'.files == (w.files - {w.db.documents[i].relPath})[
                          TombstonePath(w.db.documents[i].vaultId) := File(text, true)]
    ensures CountAction(w'.db.audit, "destroy_executed") == CountAction(w.db.audit, "destroy_executed") + 1
  {
    hide Balance, Inv, Steady, Recs, Append, CountAction, TombstonePath, ParentBlocked, Exists, ReplayLog, Chained,
      IsFolder;
    ActiveIsClaimed(c, w, i);
    TombIsFree(c, w, i);
    var doc := w.db.documents[i];
    DestroyedWorld(c, w, i, text, actor, reason, w');
    ReplayAppend(c.ink, w.db.audit, actor, "destroy_executed", doc.sha256, About(doc.vaultId, reason), w'.db.audit);
  }

  /** Are these active documents, each once? */
  ghost predicate ActiveOnce(docs: seq<Document>, due: seq<Document>) {
    DistinctIds(due) && forall k :: 0 <= k < |due| ==> due[k] in docs
  }

  lemma ActiveOnceWithout(docs: seq<Document>, i: nat, due: seq<Document>)
    requires ActiveOnce(docs, due) && due != [] && i < |docs| && docs[i] == due[0]
    ensures ActiveOnce(Without(docs, i), due[1..])
  {
    forall k | 0 <= k < |due| - 1
      ensures due[1..][k] in Without(docs, i)
    {
      var j :| 0 <= j < |docs| && docs[j] == due[k + 1];
      assert due[0].vaultId != due[k + 1].vaultId;
      assert Without(docs, i)[if j < i then j else j - 1] == docs[j];
    }
  }

  function IdsOf(docs: seq<Document>): set<string> {
    if docs == [] then {} else {docs[0].vaultId} + IdsOf(docs[1..])
  }

  /** Exactly the documents with these ids left the index. */
  ghost predicate Left(before: seq<Document>, after: seq<Document>, ids: set<string>) {
    forall id :: HasId(after, id) <==> HasId(before, id) && id !in ids
  }

  /** All due documents are destroyed, and no other. */
  lemma {:induction false} DestroyAllKeepsInv(
      c: Config, o: Office, due: seq<Document>, text: bytes, actor: string, o': Office, answer: Result<(), OpError>)
    requires Inv(c, o.w) && ActiveOnce(o.w.db.documents, due) && (o', answer) == DestroyAll(c, o, due, text, actor)
    ensures Inv(c, o'.w) && Steady(o.w, o'.w) && Recs(o'.w.db) <= Recs(o.w.db)
    ensures SameShelves(o.w.db, o'.w.db) && SameBooks(o.w.db, o'.w.db) && answer.Ok?
    ensures |o'.w.db.documents| == |o.w.db.documents| - |due| && Left(o.w.db.documents, o'.w.db.documents, IdsOf(due))
    decreases |due|
  {
    hide Balance, Inv, Steady, Recs, ExecuteDestruction, CountAction, HasId, ActiveOnce, Purged, TombstonePath;
    if due != [] {
      var i := DueIsActive(o.w.db.documents, due);
      var (w, r) := ExecuteDestruction(c, o.w, due[0], text, "grace period expired", actor);
      ExecuteDestructionKeepsInv(c, o.w, i, text, "grace period expired", actor, w, r);
      ActiveOnceWithout(o.w.db.documents, i, due);
      var o1 := Office(w, o.pending - {due[0].vaultId});
      DestroyAllKeepsInv(c, o1, due[1..], text, actor, o', answer);
      OneLeft(c, o.w, i, due, o'.w.db.documents);
      SteadyCompose(o.w, w, o'.w);
    } else {
      SameIsSteady(c, o.w, o.w);
    }
  }

  lemma {:induction false} DestroyAllForgets(
      c: Config, o: Office, due: seq<Document>, text: bytes, actor: string, o': Office, answer: Result<(), OpError>)
    requires (o', answer) == DestroyAll(c, o, due, text, actor) && answer.Ok?
    ensures o'.pending == o.pending - IdsOf(due)
    decreases |due|
  {
    hide ExecuteDestruction;
    if due != [] {
      var (w, r) := ExecuteDestruction(c, o.w, due[0], text, "grace period expired", actor);
      DestroyAllForgets(c, Office(w, o.pending - {due[0].vaultId}), due[1..], text, actor, o', answer);
    } else {
      assert o.pending - {} == o.pending;
    }
  }

  lemma DueIsActive(docs: seq<Document>, due: seq<Document>) returns (i: nat)
    requires ActiveOnce(docs, due) && due != []
    ensures i < |docs| && docs[i] == due[0]
  {
    assert due[0] in docs;
    i :| 0 <= i < |docs| && docs[i] == due[0];
  }

  lemma OneLeft(c: Config, w: World, i: nat, due: seq<Document>, after: seq<Document>)
    requires Inv(c, w) && i < |w.db.documents| && due != [] && w.db.documents[i] == due[0]
    requires Left(Without(w.db.documents, i), after, IdsOf(due[1..]))
    ensures Left(w.db.documents, after, IdsOf(due))
  {
    hide Balance, Structure, Conserved, Physical, ReplayLog, Chained, Covers, HasId, ActiveIs;
    assert DistinctIds(w.db.documents) by { GoodDocsAreDistinct(c, w.db); }
    ActiveRemove(w.db.documents, i, ReplayLog(w.db.audit).active);
  }

  // ---------- the walk over the pending destructions ----------

  lemma {:induction false} IdsOfDocsOf(docs: seq<Document>, order: seq<string>)
    requires forall k :: 0 <= k < |order| ==> HasId(docs, order[k])
    ensures IdsOf(DocsOf(docs, order)) == set k | 0 <= k < |order| :: order[k]
  {
    if order != [] {
      assert DocsOf(docs, order)[1..] == DocsOf(docs, order[1..]);
      IdsOfDocsOf(docs, order[1..]);
      assert order == [order[0]] + order[1..];
    }
  }

  lemma DueAreActiveOnce(docs: seq<Document>, order: seq<string>, ids: set<string>)
    requires Enumerates(order, ids) && (forall k :: 0 <= k < |order| ==> HasId(docs, order[k]))
    ensures ActiveOnce(docs, DocsOf(docs, order)) && IdsOf(DocsOf(docs, order)) == ids
  {
    IdsOfDocsOf(docs, order);
    forall id
      ensures id in ids <==> id in IdsOf(DocsOf(docs, order))
    {
      if id in ids { assert id in order; }
    }
  }

  /** `process_due_destructions` destroys exactly the active documents whose grace period is over, whatever the order of the
      walk, and forgets exactly those. */
  lemma ProcessDueKeepsInv(
      c: Config, o: Office, order: seq<string>, now: nat, text: bytes, actor: string, o': Office, answer: Result<(), OpError>)
    requires Inv(c, o.w) && Enumerates(order, DueIds(o, now))
    requires forall k :: 0 <= k < |order| ==> HasId(o.w.db.documents, order[k])
    requires (o', answer) == ProcessDue(c, o, order, text, actor)
    ensures Inv(c, o'.w) && Steady(o.w, o'.w)
    ensures SameShelves(o.w.db, o'.w.db) && SameBooks(o.w.db, o'.w.db) && answer.Ok?
    ensures |o'.w.db.documents| == |o.w.db.documents| - |order| && Left(o.w.db.documents, o'.w.db.documents, DueIds(o, now))
    ensures o'.pending == o.pending - DueIds(o, now)
  {
    hide Balance, Inv, Steady, Recs, CountAction, HasId, Enumerates, Left, DueIds;
    DueAreActiveOnce(o.w.db.documents, order, DueIds(o, now));
    DestroyAllKeepsInv(c, o, DocsOf(o.w.db.documents, order), text, actor, o', answer);
    DestroyAllForgets(c, o, DocsOf(o.w.db.documents, order), text, actor, o', answer);
  }

  /** `destroy` needs both PINs; with a grace period it only schedules. */
  lemma DestroyKeepsInv(
      c: Config, o: Office, id: string, pins: bool, grace: nat, now: nat, text: bytes, reason: string, actor: string,
      o': Office, answer: Result<(), OpError>)
    requires Inv(c, o.w) && (o', answer) == Destroy(c, o, id, pins, grace, now, text, reason, actor)
    ensures Inv(c, o'.w) && Steady(o.w, o'.w)
    ensures SameShelves(o.w.db, o'.w.db) && SameBooks(o.w.db, o'.w.db)
    ensures answer.Ok? <==> pins && HasId(o.w.db.documents, id)
    ensures answer.Ok? && grace == 0 ==> Left(o.w.db.documents, o'.w.db.documents, {id})
    ensures o'.pending == if answer.Ok? && grace > 0 then o.pending[id := now + grace] else o.pending
    ensures !(answer.Ok? && grace == 0) ==> o'.w.db.documents == o.w.db.documents
  {
    hide Balance, Inv, Steady, Recs, CountAction, HasId, ExecuteDestruction, Append, Placing, Left, Live;
    SameIsSteady(c, o.w, o.w);
    var i := DocIndex(o.w.db.documents, id);
    if pins && i < |o.w.db.documents| {
      var doc := o.w.db.documents[i];
      if grace > 0 {
        SchedulingPlacesNothing();
        NotedKeepsInv(c, o.w, actor, "destroy_scheduled", doc.sha256, About(id, reason));
      } else {
        ExecuteDestructionKeepsInv(c, o.w, i, text, reason, actor, o'.w, answer);
        OneDestroyed(c, o.w, i);
      }
    }
  }

  lemma SchedulingPlacesNothing()
    ensures !Placing("destroy_scheduled") && "destroy_scheduled" != "admit"
  {}

  lemma OneDestroyed(c: Config, w: World, i: nat)
    requires Inv(c, w) && i < |w.db.documents|
    ensures Left(w.db.documents, Without(w.db.documents, i), {w.db.documents[i].vaultId})
  {
    hide Balance, Structure, Conserved, Physical, ReplayLog, Chained, Covers, HasId, ActiveIs;
    assert DistinctIds(w.db.documents) by { GoodDocsAreDistinct(c, w.db); }
    ActiveRemove(w.db.documents, i, ReplayLog(w.db.audit).active);
  }

  // ---------- purge ----------

  lemma ForgottenHistory(c: Config, log: Log, docs: seq<Document>, trash: seq<Document>, i: nat)
    requires History(c, log, docs, trash) && DistinctIds(trash) && i < |trash|
    ensures History(c, log, docs, Without(trash, i)) && DistinctIds(Without(trash, i))
    ensures DocRec(trash[i]) !in DocRecs(docs)
  {
    hide Chained, ReplayLog;
    CoversRemove(ReplayLog(log).trash, trash, i);
    forall j | 0 <= j < |docs|
      ensures docs[j].vaultId != trash[i].vaultId
    {
      assert docs[j].vaultId in ReplayLog(log).active;
    }
  }

  lemma RemovedFile(c: Config, recs: set<Rec>, live: set<string>, files: Files, r: Rec)
    requires Physical(c, recs, live, files) && r in recs
    ensures Physical(c, recs - {r}, live, files - {r.path})
    ensures KeptSeals(recs, files, recs - {r}, files - {r.path})
  {
    AgreeRemove(c, recs, files, r);
  }

  lemma PurgedWorld(c: Config, w: World, i: nat, w': World)
    requires Inv(c, w) && i < |w.db.trashed|
    requires w' == World(w.db.(trashed := Without(w.db.trashed, i)), w.files - {w.db.trashed[i].document.relPath})
    ensures Inv(c, w') && Steady(w, w')
  {
    hide Balance, CountAction, ReplayLog, Live, History, Conserved, Physical, GoodDocs, GoodDoc, GoodVersions, DistinctIds,
      TrashedDocs, DocRecs, VersionRecs, KeptSeals, Without;
    var docs, trash := w.db.documents, TrashedDocs(w.db.trashed);
    TrashedDocsAt(w.db.trashed, i);
    TrashedIsClaimed(c, w, i);
    GoodDocsAreDistinct(c, w.db);
    TrashedDocsRemove(w.db.trashed, i);
    ForgottenHistory(c, w.db.audit, docs, trash, i);
    DocIsNoVersion(c, w.db, trash[i]);
    RecsWithout(trash, docs, VersionRecs(w.db.versions), i);
    GoodWithout(c, trash, i);
    RemovedFile(c, Recs(w.db), Live(w.db.audit), w.files, DocRec(trash[i]));
    FewerIsNotNew(w, w');
  }

  /** A purge takes one trash entry and its file, and leaves the log, the index and every other file alone. */
  lemma PurgeKeepsInv(c: Config, w: World, id: string, w': World, answer: Result<TrashedDocument, OpError>)
    requires Inv(c, w) && (w', answer) == Purge(w, id)
    ensures Inv(c, w') && Steady(w, w')
    ensures Purged(w'.db) == Purged(w.db) + (if answer.Ok? then 1 else 0)
    ensures w'.db == w.db.(trashed := w'.db.trashed) && (answer.Err? ==> w' == w)
    ensures answer.Ok? ==> TrashIndex(w.db.trashed, id) < |w.db.trashed|
                           && w'.db.trashed == Without(w.db.trashed, TrashIndex(w.db.trashed, id))
  {
    hide Inv, Steady, Recs, Exists, Balance;
    SameIsSteady(c, w, w);
    var i := TrashIndex(w.db.trashed, id);
    if i < |w.db.trashed| {
      TrashedIsClaimed(c, w, i);
      PurgedWorld(c, w, i, w');
    }
  }

  lemma TrashedDocsAt(trashed: seq<TrashedDocument>, i: nat)
    requires i < |trashed|
    ensures |TrashedDocs(trashed)| == |trashed| && TrashedDocs(trashed)[i] == trashed[i].document
  {}
}
