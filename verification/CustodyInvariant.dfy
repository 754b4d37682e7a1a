/** What every custody operation keeps: the invariant, and how its parts follow a change of the database or of the files. */
module CustodyInvariant {
  import opened Documents
  import opened Paths
  import opened Store
  import opened Custody
  import opened Replay
  import opened Records

  // ---------- the shape of the records ----------

  predicate GoodId(id: string) {
    '_' !in id && '/' !in id
  }

  /** The path of a document is its author's folder, its category's folder and its file name, as given or sanitised. */
  predicate GoodDoc(c: Config, d: Document) {
    && |d.relPath| == 3
    && d.relPath[0] == SanitizeComponent(c.alnum, d.meta.author)
    && d.relPath[1] == DirName(d.meta.category)
    && GoodName(d.relPath[2])
    && (d.relPath[2] == d.meta.fileName || d.relPath[2] == SanitizeComponent(c.alnum, d.meta.fileName))
    && GoodId(d.vaultId)
    && d.integrity.Intact?
  }

  predicate GoodVersion(v: DocumentVersion) {
    && |v.relPath| == 5
    && SlashFree(v.relPath)
    && v.relPath[4] == VersionName(v.vaultId, v.version)
    && GoodId(v.vaultId)
    && v.version >= 1
  }

  ghost predicate GoodDocs(c: Config, docs: seq<Document>) {
    DistinctIds(docs) && forall i :: 0 <= i < |docs| ==> GoodDoc(c, docs[i])
  }

  ghost predicate GoodVersions(vs: seq<DocumentVersion>) {
    Numbered(vs) && forall i :: 0 <= i < |vs| ==> GoodVersion(vs[i])
  }

  ghost predicate Structure(c: Config, db: DbState) {
    GoodDocs(c, db.documents) && GoodDocs(c, TrashedDocs(db.trashed)) && GoodVersions(db.versions)
  }

  // ---------- the log tells where everything is ----------

  /** The log verifies and is numbered; its replay is exactly the active index, and covers the trash. */
  ghost predicate History(c: Config, log: Log, docs: seq<Document>, trash: seq<Document>) {
    && Chained(c.ink.hashing, log)
    && ActiveIs(docs, ReplayLog(log).active)
    && Covers(ReplayLog(log).trash, trash)
    && ReplayLog(log).active.Keys !! ReplayLog(log).trash.Keys
  }

  /** Everything that ever came in is active, in the replayed trash (which keeps what was purged), or destroyed. */
  ghost predicate Conserved(log: Log, active: nat) {
    active + |ReplayLog(log).trash| == Balance(log)
  }

  /** How many documents the log still counts that are neither active nor in the trash. */
  function Purged(db: DbState): int {
    Balance(db.audit) - |db.documents| - |db.trashed|
  }

  /** The documents that were not destroyed. */
  function Live(log: Log): set<string> {
    ReplayLog(log).active.Keys + ReplayLog(log).trash.Keys
  }

  // ---------- the files ----------

  /** Staging files and tombstones end in letters that no category folder ends in. */
  predicate ServiceName(name: string) {
    name != "" && (name[|name| - 1] == 'g' || name[|name| - 1] == 't')
  }

  /** A file of the staging folder or of the tombstone folder. */
  predicate InServiceFolder(p: Path) {
    |p| == 2 && (p[0] == ".staging" || p[0] == ".tombstones")
  }

  predicate KnownPlace(p: Path) {
    |p| == 3 || |p| == 5 || (InServiceFolder(p) && ServiceName(p[1]))
  }

  ghost predicate InPlace(files: Files) {
    forall p :: p in files ==> KnownPlace(p)
  }

  ghost predicate NoTombs(live: set<string>, files: Files) {
    forall id :: id in live ==> TombstonePath(id) !in files
  }

  ghost predicate Claimed(recs: set<Rec>, p: Path) {
    exists r :: r in recs && r.path == p
  }

  /** Outside the service folders there is no file without a record. */
  ghost predicate NoOrphans(recs: set<Rec>, files: Files) {
    forall p :: p in files && |p| != 2 ==> Claimed(recs, p)
  }

  ghost predicate Physical(c: Config, recs: set<Rec>, live: set<string>, files: Files) {
    Agree(c, recs, files) && InPlace(files) && NoOrphans(recs, files) && NoTombs(live, files)
  }

  ghost predicate Inv(c: Config, w: World) {
    && Structure(c, w.db)
    && History(c, w.db.audit, w.db.documents, TrashedDocs(w.db.trashed))
    && Conserved(w.db.audit, |w.db.documents|)
    && Physical(c, Recs(w.db), Live(w.db.audit), w.files)
  }

  ghost predicate SealsKept(w: World, w': World) {
    KeptSeals(Recs(w.db), w.files, Recs(w'.db), w'.files)
  }

  /** Exactly the documents with these ids have a claim that is new. */
  ghost predicate NewDocs(w: World, w': World, ids: set<string>) {
    forall r :: r in Recs(w'.db) && r.version == 0 ==> (r in Recs(w.db) <==> r.id !in ids)
  }

  /** The claims are the same, and one of them loses its seal. */
  ghost predicate LosesSeal(w: World, w': World, r: Rec) {
    Recs(w'.db) == Recs(w.db) && r in Recs(w.db) && LostSeal(Recs(w.db), w.files, w'.files, r)
  }

  /** No document is new and no seal changes. */
  ghost predicate Steady(w: World, w': World) {
    SealsKept(w, w') && NewDocs(w, w', {})
  }

  lemma SteadyCompose(w: World, w1: World, w2: World)
    requires Steady(w, w1) && Steady(w1, w2)
    requires Recs(w1.db) == Recs(w.db) || Recs(w2.db) <= Recs(w1.db)
    ensures Steady(w, w2)
  {
    hide Recs;
    KeptSealsCompose(Recs(w.db), w.files, Recs(w1.db), w1.files, Recs(w2.db), w2.files);
  }

  /** At most the one document that arrived is new, it is under seal, and no other seal changes. */
  ghost predicate ArrivalSeals(w: World, w': World, arrived: bool, id: string) {
    SealsKept(w, w') && NewDocs(w, w', if arrived then {id} else {})
  }

  lemma ArrivalCompose(w: World, w1: World, w2: World, arrived: bool, id: string)
    requires (Steady(w, w1) && Recs(w1.db) == Recs(w.db) && ArrivalSeals(w1, w2, arrived, id))
             || (ArrivalSeals(w, w1, arrived, id) && Steady(w1, w2) && Recs(w1.db) == Recs(w2.db))
    ensures ArrivalSeals(w, w2, arrived, id)
  {
    hide Recs;
    KeptSealsCompose(Recs(w.db), w.files, Recs(w1.db), w1.files, Recs(w2.db), w2.files);
  }

  lemma SameIsSteady(c: Config, w: World, w': World)
    requires Inv(c, w) && Recs(w'.db) == Recs(w.db) && w'.files == w.files
    ensures Steady(w, w')
  {
    hide Recs;
  }

  /** An identifier that nothing in the vault has used. */
  ghost predicate Fresh(w: World, id: string) {
    GoodId(id) && id !in Live(w.db.audit) && TombstonePath(id) !in w.files
  }

  // ---------- small facts ----------

  lemma DirNameIsNoService(category: Category)
    ensures !ServiceName(DirName(category)) && GoodName(DirName(category))
  {}

  /** No document's folder is hidden behind a file. */
  lemma DocFolderIsFree(files: Files, p: Path, category: Category)
    requires InPlace(files) && |p| == 3 && p[1] == DirName(category)
    ensures !ParentBlocked(files, p)
  {
    DirNameIsNoService(category);
    forall k | 0 < k < |p|
      ensures p[..k] !in files
    {
      if k == 2 { assert p[..2][1] == p[1]; }
    }
  }

  lemma TombstoneIsInjective(a: string, b: string)
    requires TombstonePath(a) == TombstonePath(b)
    ensures a == b
  {
    var s, t := "tombstone-" + a + ".txt", "tombstone-" + b + ".txt";
    assert s == TombstonePath(a)[1] && t == TombstonePath(b)[1];
    assert a == s[10..|s| - 4] && b == t[10..|t| - 4];
  }

  lemma ServicePlaces(id: string, sha256: string)
    ensures KnownPlace(TombstonePath(id)) && |TombstonePath(id)| == 2
    ensures KnownPlace(StagingPath(IncomingName(sha256)))
  {}

  lemma StagingIsNoTomb(name: string, id: string)
    ensures StagingPath(name) != TombstonePath(id)
  {
    assert StagingPath(name)[0] == ".staging" && TombstonePath(id)[0] == ".tombstones";
    assert |".staging"| != |".tombstones"|;
  }

  /** Every claim is on a document path or on a version path. */
  lemma RecShape(c: Config, db: DbState, r: Rec)
    requires Structure(c, db) && r in Recs(db)
    ensures |r.path| == (if r.version == 0 then 3 else 5)
    ensures r.version > 0 ==> r in VersionRecs(db.versions)
  {}

  // ---------- a document's record is replaced ----------

  lemma ReplacedStructure(c: Config, db: DbState, i: nat, d: Document)
    requires Structure(c, db) && i < |db.documents| && d.vaultId == db.documents[i].vaultId && GoodDoc(c, d)
    ensures Structure(c, db.(documents := db.documents[i := d]))
  {
    var docs := db.documents[i := d];
    assert forall k :: 0 <= k < |docs| ==> docs[k].vaultId == db.documents[k].vaultId;
  }

  /** The entry of a rename or a move keeps the log in step with the index. */
  lemma RelocatedHistory(
      c: Config, log: Log, docs: seq<Document>, trash: seq<Document>, i: nat, d: Document, actor: string, action: string,
      subject: string, from: Path, log': Log)
    requires History(c, log, docs, trash) && Conserved(log, |docs|) && DistinctIds(docs)
    requires i < |docs| && d.vaultId == docs[i].vaultId && Relocation(action)
    requires log' == Append(c.ink, log, actor, action, subject, Relocated(d.vaultId, from, d.relPath))
    ensures History(c, log', docs[i := d], trash) && Conserved(log', |docs|) && Live(log') == Live(log)
    ensures SameIntake(log, log')
  {
    hide Append, Replaying, Weight, Balance, ReplayLog, CountAction, Chained, ActiveIs, Covers, DistinctIds, HasId, Without;
    ReplayAppend(c.ink, log, actor, action, subject, Relocated(d.vaultId, from, d.relPath), log');
    ReplayRelocation(ReplayLog(log), action, subject, d.vaultId, from, d.relPath);
    var m := ReplayLog(log).active;
    ActiveUpdate(docs, i, d, m);
    KeysWith(m, ReplayLog(log).trash, d.vaultId, d.relPath);
  }

  /** The entry of a soft delete. */
  lemma TrashedHistory(
      c: Config, log: Log, docs: seq<Document>, trash: seq<Document>, i: nat, actor: string, detail: Detail, log': Log)
    requires History(c, log, docs, trash) && Conserved(log, |docs|) && DistinctIds(docs) && DistinctIds(trash) && i < |docs|
    requires log' == Append(c.ink, log, actor, "soft_delete", docs[i].vaultId, detail)
    ensures History(c, log', Without(docs, i), trash + [docs[i]]) && Conserved(log', |docs| - 1) && Live(log') == Live(log)
    ensures SameIntake(log, log')
    ensures DistinctIds(Without(docs, i)) && DistinctIds(trash + [docs[i]])
  {
    hide Append, Replaying, Weight, Balance, ReplayLog, CountAction, Chained, ActiveIs, Covers, DistinctIds, HasId, Without;
    ReplayAppend(c.ink, log, actor, "soft_delete", docs[i].vaultId, detail, log');
    var r := ReplayLog(log);
    ActiveRemove(docs, i, r.active);
    ReplayTrashing(r, docs[i].vaultId, detail);
    CoversAdd(r.trash, trash, docs[i]);
    KeysAcross(r.active, r.trash, docs[i].vaultId, docs[i].relPath);
    SizesAcross(r.active, r.trash, docs[i].vaultId, docs[i].relPath);
  }

  /** The entry of a restore. */
  lemma RestoredHistory(
      c: Config, log: Log, docs: seq<Document>, trash: seq<Document>, i: nat, actor: string, subject: string, note: string,
      log': Log)
    requires History(c, log, docs, trash) && Conserved(log, |docs|) && DistinctIds(docs) && DistinctIds(trash) && i < |trash|
    requires log' == Append(c.ink, log, actor, "restore", subject, About(trash[i].vaultId, note))
    ensures History(c, log', docs + [trash[i]], Without(trash, i)) && Conserved(log', |docs| + 1) && Live(log') == Live(log)
    ensures SameIntake(log, log')
    ensures DistinctIds(docs + [trash[i]]) && DistinctIds(Without(trash, i))
  {
    hide Append, Replaying, Weight, Balance, ReplayLog, CountAction, Chained, ActiveIs, Covers, DistinctIds, HasId, Without;
    ReplayAppend(c.ink, log, actor, "restore", subject, About(trash[i].vaultId, note), log');
    var r := ReplayLog(log);
    var id := trash[i].vaultId;
    CoversRemove(r.trash, trash, i);
    ReplayRestoring(r, subject, id, note);
    ActiveAdd(docs, trash[i], r.active);
    RestoredSides(r, id);
  }

  lemma RestoredSides(r: Replayed, id: string)
    requires r.active.Keys !! r.trash.Keys && id in r.trash
    ensures var active, trash := r.active[id := r.trash[id]], r.trash - {id};
            && active.Keys !! trash.Keys && active.Keys + trash.Keys == r.active.Keys + r.trash.Keys
            && |trash| == |r.trash| - 1
  {
    KeysAcross(r.trash, r.active, id, r.trash[id]);
    SizesAcross(r.trash, r.active, id, r.trash[id]);
  }

  /** The entry of an arrival. */
  lemma ArrivedHistory(
      c: Config, log: Log, docs: seq<Document>, trash: seq<Document>, d: Document, actor: string, action: string,
      subject: string, log': Log)
    requires History(c, log, docs, trash) && Conserved(log, |docs|) && DistinctIds(docs)
    requires d.vaultId !in Live(log) && Arrival(action)
    requires log' == Append(c.ink, log, actor, action, subject, Placed(d.vaultId, d.relPath))
    ensures History(c, log', docs + [d], trash) && Conserved(log', |docs| + 1) && Live(log') == Live(log) + {d.vaultId}
    ensures Balance(log') == Balance(log) + 1
    ensures DistinctIds(docs + [d])
  {
    hide Append, Replaying, Weight, Balance, ReplayLog, CountAction, Chained, ActiveIs, Covers, DistinctIds, HasId, Without;
    ReplayAppend(c.ink, log, actor, action, subject, Placed(d.vaultId, d.relPath), log');
    ReplayArrival(ReplayLog(log), action, subject, d.vaultId, d.relPath);
    var m := ReplayLog(log).active;
    ActiveAdd(docs, d, m);
    KeysWith(m, ReplayLog(log).trash, d.vaultId, d.relPath);
  }

  /** The entry of a destruction. */
  lemma DestroyedHistory(
      c: Config, log: Log, docs: seq<Document>, trash: seq<Document>, i: nat, actor: string, subject: string, note: string,
      log': Log)
    requires History(c, log, docs, trash) && Conserved(log, |docs|) && DistinctIds(docs) && i < |docs|
    requires log' == Append(c.ink, log, actor, "destroy_executed", subject, About(docs[i].vaultId, note))
    ensures History(c, log', Without(docs, i), trash) && Conserved(log', |docs| - 1)
    ensures Balance(log') == Balance(log) - 1
    ensures Live(log') == Live(log) - {docs[i].vaultId} && DistinctIds(Without(docs, i))
  {
    hide Append, Replaying, Weight, Balance, ReplayLog, CountAction, Chained, ActiveIs, Covers, DistinctIds, HasId, Without;
    ReplayAppend(c.ink, log, actor, "destroy_executed", subject, About(docs[i].vaultId, note), log');
    var m := ReplayLog(log).active;
    ReplayDestroying(ReplayLog(log), subject, docs[i].vaultId, note);
    ActiveRemove(docs, i, m);
    assert (m - {docs[i].vaultId}).Keys == m.Keys - {docs[i].vaultId};
  }

  /** An entry that places nothing. */
  lemma NotedHistory(
      c: Config, log: Log, docs: seq<Document>, trash: seq<Document>, actor: string, action: string, subject: string,
      detail: Detail, log': Log)
    requires History(c, log, docs, trash) && Conserved(log, |docs|) && !Placing(action)
    requires log' == Append(c.ink, log, actor, action, subject, detail)
    ensures History(c, log', docs, trash) && Conserved(log', |docs|) && Live(log') == Live(log)
    ensures SameIntake(log, log')
  {
    hide Append, Replaying, Weight, Balance, ReplayLog, CountAction, Chained, ActiveIs, Covers, DistinctIds, HasId, Without;
    ReplayAppend(c.ink, log, actor, action, subject, detail, log');
    ReplayOther(ReplayLog(log), action, subject, detail);
  }

  lemma NotedRecs(c: Config, db: DbState, log: Log)
    ensures Recs(db.(audit := log)) == Recs(db) && (Structure(c, db) ==> Structure(c, db.(audit := log)))
  {}

  lemma NotedKeepsInv(c: Config, w: World, actor: string, action: string, subject: string, detail: Detail)
    requires Inv(c, w) && !Placing(action)
    ensures Inv(c, w.(db := Noted(c.ink, w.db, actor, action, subject, detail)))
    ensures Recs(Noted(c.ink, w.db, actor, action, subject, detail)) == Recs(w.db)
    ensures Steady(w, w.(db := Noted(c.ink, w.db, actor, action, subject, detail)))
    ensures SameIntake(w.db.audit, Noted(c.ink, w.db, actor, action, subject, detail).audit)
    ensures Live(Noted(c.ink, w.db, actor, action, subject, detail).audit) == Live(w.db.audit)
    ensures Purged(Noted(c.ink, w.db, actor, action, subject, detail)) == Purged(w.db)
  {
    hide Append, Structure, History, Conserved, Physical, Recs;
    var log' := Append(c.ink, w.db.audit, actor, action, subject, detail);
    NotedHistory(c, w.db.audit, w.db.documents, TrashedDocs(w.db.trashed), actor, action, subject, detail, log');
    NotedRecs(c, w.db, log');
    SameIsSteady(c, w, w.(db := Noted(c.ink, w.db, actor, action, subject, detail)));
  }

  /** No trashed document is active. */
  lemma ActiveIsNotTrashed(c: Config, log: Log, docs: seq<Document>, trash: seq<Document>, i: nat)
    requires History(c, log, docs, trash) && i < |docs|
    ensures DocRec(docs[i]) !in DocRecs(trash)
  {
    forall j | 0 <= j < |trash|
      ensures trash[j].vaultId != docs[i].vaultId
    {
      assert trash[j].vaultId in ReplayLog(log).trash;
    }
  }

  lemma DocIsNoVersion(c: Config, db: DbState, d: Document)
    requires Structure(c, db)
    ensures DocRec(d) !in VersionRecs(db.versions)
  {}

  lemma Swapped<T>(active: set<T>, trash: set<T>, versions: set<T>, r: T, q: T)
    requires r !in trash && r !in versions
    ensures (active - {r} + {q}) + trash + versions == (active + trash + versions) - {r} + {q}
  {}

  /** A vault id has at most one document. */
  lemma OneDocPerId(c: Config, db: DbState, r: Rec, q: Rec)
    requires Structure(c, db) && History(c, db.audit, db.documents, TrashedDocs(db.trashed))
    requires r in Recs(db) && q in Recs(db) && r.version == 0 && q.version == 0 && r.id == q.id
    ensures r == q
  {
    hide Chained, ReplayLog;
    var docs, trash := db.documents, TrashedDocs(db.trashed);
    assert r in DocRecs(docs) || r in DocRecs(trash);
    assert q in DocRecs(docs) || q in DocRecs(trash);
    var m := ReplayLog(db.audit);
    assert r in DocRecs(docs) ==> r.id in m.active;
    assert r in DocRecs(trash) ==> r.id in m.trash;
    assert q in DocRecs(docs) ==> q.id in m.active;
    assert q in DocRecs(trash) ==> q.id in m.trash;
  }

  /** Updating a document changes its claim and no other. */
  lemma RecsOfUpdate(c: Config, w: World, i: nat, d: Document)
    requires Inv(c, w) && i < |w.db.documents|
    ensures Recs(w.db.(documents := w.db.documents[i := d])) == Recs(w.db) - {DocRec(w.db.documents[i])} + {DocRec(d)}
  {
    DocRecsUpdate(w.db.documents, i, d);
    ActiveIsNotTrashed(c, w.db.audit, w.db.documents, TrashedDocs(w.db.trashed), i);
    DocIsNoVersion(c, w.db, w.db.documents[i]);
    Swapped(DocRecs(w.db.documents), DocRecs(TrashedDocs(w.db.trashed)), VersionRecs(w.db.versions),
            DocRec(w.db.documents[i]), DocRec(d));
  }

  lemma ActiveIsClaimed(c: Config, w: World, i: nat)
    requires Inv(c, w) && i < |w.db.documents|
    ensures DocRec(w.db.documents[i]) in Recs(w.db)
    ensures w.db.documents[i].relPath in w.files && !ParentBlocked(w.files, w.db.documents[i].relPath)
    ensures Holds(c, DocRec(w.db.documents[i]), w.files[w.db.documents[i].relPath])
    ensures GoodDoc(c, w.db.documents[i]) && DocIndex(w.db.documents, w.db.documents[i].vaultId) == i
  {
    assert DocRec(w.db.documents[i]) in DocRecs(w.db.documents);
    DocFolderIsFree(w.files, w.db.documents[i].relPath, w.db.documents[i].meta.category);
  }

  lemma InvPlaces(c: Config, w: World)
    requires Inv(c, w)
    ensures InPlace(w.files)
  {}

  lemma TrashedIsClaimed(c: Config, w: World, i: nat)
    requires Inv(c, w) && i < |w.db.trashed|
    ensures DocRec(w.db.trashed[i].document) in Recs(w.db)
    ensures w.db.trashed[i].document.relPath in w.files && GoodDoc(c, w.db.trashed[i].document)
  {
    assert TrashedDocs(w.db.trashed)[i] == w.db.trashed[i].document;
    assert DocRec(w.db.trashed[i].document) in DocRecs(TrashedDocs(w.db.trashed));
  }

  /** A file moves to a free place: the claims follow it, and no tombstone is touched. */
  lemma MovedFiles(c: Config, recs: set<Rec>, live: set<string>, files: Files, r: Rec, q: Rec, files': Files)
    requires Physical(c, recs, live, files) && r in recs && q.path !in files && |q.path| == 3
    requires q.sha256 == r.sha256 && q.blake3 == r.blake3
    requires files' == (files - {r.path})[q.path := File(files[r.path].content, true)]
    ensures Physical(c, recs - {r} + {q}, live, files')
    ensures KeptSeals(recs, files, recs - {r} + {q}, files')
  {
    AgreeMove(c, recs, files, r, q);
  }

  /** A file loses its seal, and nothing else. */
  lemma UnsealedFile(c: Config, recs: set<Rec>, live: set<string>, files: Files, r: Rec, files': Files)
    requires Physical(c, recs, live, files) && r in recs && r.path in files
    requires files' == files[r.path := files[r.path].(isSealed := false)]
    ensures Physical(c, recs, live, files') && LostSeal(recs, files, files', r)
  {
    AgreeElsewhere(c, recs, files, files');
  }

  /** Files that no claim names come and go in the service folders. */
  lemma ServiceFiles(c: Config, recs: set<Rec>, live: set<string>, files: Files, files': Files)
    requires Physical(c, recs, live, files) && InPlace(files')
    requires forall p :: p in files && |p| != 2 ==> p in files' && files'[p] == files[p]
    requires forall p :: p in files' && |p| != 2 ==> p in files
    requires forall r :: r in recs ==> |r.path| != 2
    requires forall id :: id in live ==> TombstonePath(id) !in files'
    ensures Physical(c, recs, live, files') && KeptSeals(recs, files, recs, files')
  {
    AgreeElsewhere(c, recs, files, files');
  }
}
