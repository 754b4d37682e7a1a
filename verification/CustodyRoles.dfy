/** The operations of the roles keep the invariant: rename, move, trash, restore, edit, view. */
module CustodyRoles {
  import opened Common
  import opened Text
  import opened Documents
  import opened Paths
  import opened Store
  import opened Custody
  import opened Replay
  import opened Records
  import opened CustodyInvariant

  /** What a step does not touch besides the active index and the log. */
  predicate SameShelves(a: DbState, b: DbState) {
    a.trashed == b.trashed && a.versions == b.versions && a.submissions == b.submissions
  }

  /** Nothing came in, was destroyed or was purged. */
  predicate SameBooks(a: DbState, b: DbState) {
    Purged(a) == Purged(b) && CountAction(a.audit, "admit") == CountAction(b.audit, "admit")
  }

  // ---------- rename and move ----------

  /** A refused rename changes one seal and nothing else. */
  lemma RefusedMove(c: Config, w: World, i: nat, files: Files)
    requires Inv(c, w) && i < |w.db.documents|
    requires w.db.documents[i].relPath in w.files
    requires var p := w.db.documents[i].relPath; files == w.files[p := w.files[p].(isSealed := false)]
    ensures Inv(c, w.(files := files)) && LosesSeal(w, w.(files := files), DocRec(w.db.documents[i]))
  {
    ActiveIsClaimed(c, w, i);
    var r := DocRec(w.db.documents[i]);
    hide Balance, CountAction, ReplayLog, Structure, History, Conserved, Physical, Recs, Live, Holds, GoodDoc, ParentBlocked,
      LostSeal;
    UnsealedFile(c, Recs(w.db), Live(w.db.audit), w.files, r, files);
  }

  /** A moved file takes its claim and its entry with it. */
  lemma AcceptedMove(
      c: Config, w: World, i: nat, moved: Document, actor: string, action: string, subject: string, w': World)
    requires Inv(c, w) && i < |w.db.documents| && Relocation(action) && GoodDoc(c, moved) && moved.relPath !in w.files
    requires moved.vaultId == w.db.documents[i].vaultId
    requires DocRec(moved) == DocRec(w.db.documents[i]).(path := moved.relPath)
    requires w.db.documents[i].relPath in w.files
    requires w'.db == Noted(c.ink, w.db.(documents := w.db.documents[i := moved]), actor, action, subject,
                            Relocated(moved.vaultId, w.db.documents[i].relPath, moved.relPath))
    requires w'.files == (w.files - {w.db.documents[i].relPath})[
                           moved.relPath := File(w.files[w.db.documents[i].relPath].content, true)]
    ensures Inv(c, w') && SealsKept(w, w') && SameBooks(w.db, w'.db) && NewDocs(w, w', {moved.vaultId})
  {
    hide Balance, CountAction, Append, ReplayLog, Live, History, Conserved, Physical, GoodDocs, GoodVersions, DistinctIds,
      DocRecs, VersionRecs, TrashedDocs;
    var doc := w.db.documents[i];
    ActiveIsClaimed(c, w, i);
    ReplacedStructure(c, w.db, i, moved);
    GoodDocsAreDistinct(c, w.db);
    RelocatedHistory(c, w.db.audit, w.db.documents, TrashedDocs(w.db.trashed), i, moved, actor, action, subject,
                     doc.relPath, w'.db.audit);
    RecsOfUpdate(c, w, i, moved);
    MovedFiles(c, Recs(w.db), Live(w.db.audit), w.files, DocRec(doc), DocRec(moved), w'.files);
    assert Recs(w'.db) == Recs(w.db.(documents := w.db.documents[i := moved]));
    hide Recs, Structure, KeptSeals;
    forall r | r in Recs(w'.db) && r.version == 0
      ensures r in Recs(w.db) <==> r.id != moved.vaultId
    {
      if r in Recs(w.db) && r.id == doc.vaultId { OneDocPerId(c, w.db, r, DocRec(doc)); }
    }
  }

  /** The end of a rename or a move: a refusal by the system takes the seal of that document's file and nothing else; a
      document that moved is under seal at its new place; in any other case no seal and no claim changes. */
  ghost predicate MoveSeals(w: World, w': World, id: string, answer: Result<Document, OpError>) {
    var i := DocIndex(w.db.documents, id);
    if answer == Err(IoError) then i < |w.db.documents| && LosesSeal(w, w', DocRec(w.db.documents[i]))
    else SealsKept(w, w') && NewDocs(w, w', if w'.db != w.db then {id} else {})
  }

  lemma NothingMoved(c: Config, w: World, id: string, answer: Result<Document, OpError>)
    requires Inv(c, w) && answer != Err(IoError)
    ensures MoveSeals(w, w, id, answer)
  {}

  /** The shared end of rename and move. The file loses its seal exactly when the system refuses the rename. */
  lemma MoveDocumentKeepsInv(
      c: Config, w: World, i: nat, moved: Document, actor: string, action: string, accepts: bool,
      w': World, answer: Result<Document, OpError>)
    requires Inv(c, w) && i < |w.db.documents| && Relocation(action)
    requires moved.vaultId == w.db.documents[i].vaultId
    requires DocRec(moved) == DocRec(w.db.documents[i]).(path := moved.relPath)
    requires Exists(w.files, moved.relPath) || GoodDoc(c, moved)
    requires (w', answer) == MoveDocument(c, w, w.db.documents[i], moved, actor, action, accepts)
    ensures Inv(c, w') && SameShelves(w.db, w'.db) && SameBooks(w.db, w'.db)
    ensures answer == Err(IoError) <==> !Exists(w.files, moved.relPath) && !accepts
    ensures w'.db != w.db <==> !Exists(w.files, moved.relPath) && accepts
    ensures MoveSeals(w, w', moved.vaultId, answer)
  {
    hide Balance, CountAction, Inv, SealsKept, NewDocs, LosesSeal, Append;
    SameIsSteady(c, w, w);
    ActiveIsClaimed(c, w, i);
    InvPlaces(c, w);
    if !Exists(w.files, moved.relPath) {
      DocFolderIsFree(w.files, moved.relPath, moved.meta.category);
      if accepts {
        AppendGrows(c.ink, w.db.audit, actor, action, w.db.documents[i].sha256,
                    Relocated(moved.vaultId, w.db.documents[i].relPath, moved.relPath));
        AcceptedMove(c, w, i, moved, actor, action, w.db.documents[i].sha256, w');
      } else {
        RefusedMove(c, w, i, w'.files);
      }
    }
  }

  /** The guards under which a rename gets as far as moving the file. */
  predicate AsksRename(s: Session, w: World, id: string, newName: string) {
    var i := DocIndex(w.db.documents, id);
    && s.role.CanRenameOrMove() && ValidNewName(Trim(newName)) && i < |w.db.documents|
    && var from := w.db.documents[i].relPath;
    && ReplaceLast(from, Trim(newName)) != from && !Exists(w.files, ReplaceLast(from, Trim(newName)))
  }

  /** The guards under which a move gets as far as moving the file. */
  predicate AsksMove(c: Config, s: Session, w: World, id: string, category: Category) {
    var i := DocIndex(w.db.documents, id);
    && s.role.CanRenameOrMove() && i < |w.db.documents| && w.db.documents[i].meta.category != category
    && var meta := w.db.documents[i].meta;
    && !Exists(w.files, RelPathFor(c.alnum, meta.author, category, meta.fileName))
  }

  /** The document loses its seal exactly when the guards hold and the system refuses to move the file, and changes its place
      exactly when they hold and the system does not. */
  lemma RenameKeepsInv(
      c: Config, s: Session, w: World, id: string, newName: string, accepts: bool, w': World, answer: Result<Document, OpError>)
    requires Inv(c, w) && (w', answer) == Rename(c, false, s, w, id, newName, accepts)
    ensures Inv(c, w') && SameShelves(w.db, w'.db) && SameBooks(w.db, w'.db)
    ensures answer == Err(IoError) <==> AsksRename(s, w, id, newName) && !accepts
    ensures w'.db != w.db <==> AsksRename(s, w, id, newName) && accepts
    ensures MoveSeals(w, w', id, answer)
  {
    hide Balance, CountAction, Inv, MoveSeals, MoveDocument;
    if w' == w && answer != Err(IoError) { NothingMoved(c, w, id, answer); }
    var i := DocIndex(w.db.documents, id);
    var name := Trim(newName);
    if s.role.CanRenameOrMove() && ValidNewName(name) && i < |w.db.documents| {
      var doc := w.db.documents[i];
      ActiveIsClaimed(c, w, i);
      var path := ReplaceLast(doc.relPath, name);
      var moved := doc.(relPath := path, meta := doc.meta.(fileName := name));
      if path != doc.relPath {
        assert path[0] == doc.relPath[0] && path[1] == doc.relPath[1] && path[2] == name;
        MoveDocumentKeepsInv(c, w, i, moved, s.username, "rename", accepts, w', answer);
      }
    }
  }

  /** Documents are always where their author and category say, so a move to another category always changes the path:
      the branch that would change the category without an entry is never taken. */
  lemma MoveChangesThePath(c: Config, w: World, i: nat, category: Category)
    requires Inv(c, w) && i < |w.db.documents| && w.db.documents[i].meta.category != category
    ensures RelPathFor(c.alnum, w.db.documents[i].meta.author, category, w.db.documents[i].meta.fileName)
            != w.db.documents[i].relPath
  {
    DirNameRoundTrip(category);
    DirNameRoundTrip(w.db.documents[i].meta.category);
  }

  lemma MovedIsGood(c: Config, doc: Document, category: Category)
    requires GoodDoc(c, doc)
    ensures var path := RelPathFor(c.alnum, doc.meta.author, category, doc.meta.fileName);
            GoodDoc(c, doc.(relPath := path, meta := doc.meta.(category := category)))
  {
    SanitizedIsGood(c.alnum, doc.meta.fileName);
  }

  lemma MoveToCategoryKeepsInv(
      c: Config, s: Session, w: World, id: string, category: Category, accepts: bool,
      w': World, answer: Result<Document, OpError>)
    requires Inv(c, w) && (w', answer) == MoveToCategory(c, false, s, w, id, category, accepts)
    ensures Inv(c, w') && SameShelves(w.db, w'.db) && SameBooks(w.db, w'.db)
    ensures answer == Err(IoError) <==> AsksMove(c, s, w, id, category) && !accepts
    ensures w'.db != w.db <==> AsksMove(c, s, w, id, category) && accepts
    ensures MoveSeals(w, w', id, answer)
  {
    hide Balance, CountAction, Inv, MoveSeals, MoveDocument, GoodDoc, RelPathFor, Exists;
    if w' == w && answer != Err(IoError) { NothingMoved(c, w, id, answer); }
    var i := DocIndex(w.db.documents, id);
    if s.role.CanRenameOrMove() && i < |w.db.documents| && w.db.documents[i].meta.category != category {
      var doc := w.db.documents[i];
      var path := RelPathFor(c.alnum, doc.meta.author, category, doc.meta.fileName);
      var moved := doc.(relPath := path, meta := doc.meta.(category := category));
      MoveChangesThePath(c, w, i, category);
      ActiveIsClaimed(c, w, i);
      MovedIsGood(c, doc, category);
      MoveDocumentKeepsInv(c, w, i, moved, s.username, "move", accepts, w', answer);
    }
  }

  // ---------- trash ----------

  lemma SoftDeleteKeepsInv(
      c: Config, s: Session, w: World, id: string, reason: string, at: string, w': World, answer: Result<(), OpError>)
    requires Inv(c, w) && (w', answer) == SoftDelete(c, false, s, w, id, reason, at)
    ensures Inv(c, w') && Recs(w'.db) == Recs(w.db) && w'.files == w.files
    ensures w'.db.versions == w.db.versions && w'.db.submissions == w.db.submissions
    ensures SameBooks(w.db, w'.db)
    ensures answer.Ok? <==> s.role == Administrativo && HasId(w.db.documents, id)
  {
    hide Balance, CountAction, Inv, Recs;
    var i := DocIndex(w.db.documents, id);
    if s.role.CanSoftDelete() && i < |w.db.documents| {
      TrashedWorld(c, w, i, s.username, at, Trim(reason), w');
    }
  }

  lemma TrashedWorld(c: Config, w: World, i: nat, actor: string, at: string, reason: string, w': World)
    requires Inv(c, w) && i < |w.db.documents| && w'.files == w.files
    requires w'.db == Noted(c.ink,
                            w.db.(documents := Without(w.db.documents, i),
                                  trashed := w.db.trashed + [TrashedDocument(w.db.documents[i], actor, at, reason)]),
                            actor, "soft_delete", w.db.documents[i].vaultId, Note(reason))
    ensures Inv(c, w') && Recs(w'.db) == Recs(w.db) && SameBooks(w.db, w'.db)
  {
    hide Balance, CountAction, Append, ReplayLog, Live, History, Conserved, Physical, GoodDocs, GoodDoc, GoodVersions,
      DistinctIds, DocRecs, VersionRecs;
    var docs, trash := w.db.documents, TrashedDocs(w.db.trashed);
    ActiveIsClaimed(c, w, i);
    GoodDocsAreDistinct(c, w.db);
    TrashedDocsAdd(w.db.trashed, TrashedDocument(docs[i], actor, at, reason));
    TrashedHistory(c, w.db.audit, docs, trash, i, actor, Note(reason), w'.db.audit);
    RecsAcross(docs, trash, i, VersionRecs(w.db.versions));
    GoodWithout(c, docs, i);
    GoodWith(c, trash, docs[i]);
  }

  /** A document's claim follows it from one list to another. */
  lemma RecsAcross(a: seq<Document>, b: seq<Document>, i: nat, rest: set<Rec>)
    requires DistinctIds(a) && i < |a|
    ensures DocRecs(Without(a, i)) + DocRecs(b + [a[i]]) + rest == DocRecs(a) + DocRecs(b) + rest
    ensures DocRecs(b + [a[i]]) + DocRecs(Without(a, i)) + rest == DocRecs(b) + DocRecs(a) + rest
  {
    DocRecsRemove(a, i);
    DocRecsAdd(b, a[i]);
    assert DocRec(a[i]) in DocRecs(a);
    hide DocRecs, DistinctIds;
    AcrossRecs(DocRecs(a), DocRecs(b), rest, DocRec(a[i]));
  }

  lemma GoodDocsAreDistinct(c: Config, db: DbState)
    requires Structure(c, db)
    ensures DistinctIds(db.documents) && DistinctIds(TrashedDocs(db.trashed))
  {}

  lemma GoodWith(c: Config, docs: seq<Document>, d: Document)
    requires GoodDocs(c, docs) && GoodDoc(c, d) && DistinctIds(docs + [d])
    ensures GoodDocs(c, docs + [d])
  {}

  lemma GoodWithout(c: Config, docs: seq<Document>, i: nat)
    requires GoodDocs(c, docs) && i < |docs| && DistinctIds(Without(docs, i))
    ensures GoodDocs(c, Without(docs, i))
  {
    var ds := Without(docs, i);
    assert forall k :: 0 <= k < |ds| ==> ds[k] == docs[if k < i then k else k + 1];
  }

  lemma AcrossRecs<T>(a: set<T>, b: set<T>, rest: set<T>, r: T)
    requires r in a
    ensures (a - {r}) + (b + {r}) + rest == a + b + rest
    ensures (b + {r}) + (a - {r}) + rest == b + a + rest
  {}

  lemma RestoreKeepsInv(c: Config, s: Session, w: World, id: string, w': World, answer: Result<Document, OpError>)
    requires Inv(c, w) && (w', answer) == Restore(c, false, s, w, id)
    ensures Inv(c, w') && Recs(w'.db) == Recs(w.db) && w'.files == w.files
    ensures w'.db.versions == w.db.versions && w'.db.submissions == w.db.submissions
    ensures SameBooks(w.db, w'.db)
  {
    hide Balance, CountAction, Inv, Recs;
    var i := TrashIndex(w.db.trashed, id);
    if s.role.CanRestore() && i < |w.db.trashed| {
      RestoredWorld(c, w, i, s.username, w');
    }
  }

  lemma RestoredWorld(c: Config, w: World, i: nat, actor: string, w': World)
    requires Inv(c, w) && i < |w.db.trashed| && w'.files == w.files
    requires w'.db == Noted(c.ink,
                            w.db.(documents := w.db.documents + [w.db.trashed[i].document],
                                  trashed := Without(w.db.trashed, i)),
                            actor, "restore", w.db.trashed[i].document.sha256,
                            About(w.db.trashed[i].document.vaultId, "restored"))
    ensures Inv(c, w') && Recs(w'.db) == Recs(w.db) && SameBooks(w.db, w'.db)
  {
    hide Balance, CountAction, Append, ReplayLog, Live, History, Conserved, Physical, GoodDocs, GoodDoc, GoodVersions,
      DistinctIds, VersionRecs;
    var docs, trash := w.db.documents, TrashedDocs(w.db.trashed);
    TrashedIsClaimed(c, w, i);
    GoodDocsAreDistinct(c, w.db);
    TrashedDocsRemove(w.db.trashed, i);
    RestoredHistory(c, w.db.audit, docs, trash, i, actor, trash[i].sha256, "restored", w'.db.audit);
    RecsAcross(trash, docs, i, VersionRecs(w.db.versions));
    GoodWithout(c, trash, i);
    GoodWith(c, docs, trash[i]);
  }

  /** A restore undoes a soft delete: the trash, the versions and the files are as before, and the document is back as it
      was, at the end of the index. */
  lemma RestoreUndoesSoftDelete(c: Config, s: Session, w: World, id: string, reason: string, at: string)
    requires Inv(c, w) && s.role.Administrativo? && HasId(w.db.documents, id)
    ensures var w1 := SoftDelete(c, false, s, w, id, reason, at).0;
            var w2 := Restore(c, false, s, w1, id).0;
            var i := DocIndex(w.db.documents, id);
            && w2.db.trashed == w.db.trashed && w2.db.versions == w.db.versions && w2.files == w.files
            && w2.db.documents == Without(w.db.documents, i) + [w.db.documents[i]]
  {
    hide Inv, Append;
    var i := DocIndex(w.db.documents, id);
    var t := TrashedDocument(w.db.documents[i], s.username, at, Trim(reason));
    NotInTrash(c, w, i);
    var trashed := w.db.trashed + [t];
    assert TrashIndex(trashed, id) == |w.db.trashed| by {
      assert forall j :: 0 <= j < |w.db.trashed| ==> trashed[j] == w.db.trashed[j];
      assert trashed[|w.db.trashed|].document.vaultId == id;
    }
    assert Without(trashed, |w.db.trashed|) == w.db.trashed;
  }

  lemma NotInTrash(c: Config, w: World, i: nat)
    requires Inv(c, w) && i < |w.db.documents|
    ensures forall j :: 0 <= j < |w.db.trashed| ==> w.db.trashed[j].document.vaultId != w.db.documents[i].vaultId
  {
    hide Structure, Conserved, Physical, Chained, ReplayLog;
    var trash := TrashedDocs(w.db.trashed);
    assert w.db.documents[i].vaultId in ReplayLog(w.db.audit).active;
    forall j | 0 <= j < |w.db.trashed|
      ensures w.db.trashed[j].document.vaultId != w.db.documents[i].vaultId
    {
      assert trash[j].vaultId in ReplayLog(w.db.audit).trash;
    }
  }

  // ---------- edit and view ----------

  /** The edited document is the same claim, and the entry places nothing. */
  lemma EditedWorld(c: Config, s: Session, w: World, i: nat, e: Edit, w': World)
    requires Inv(c, w) && i < |w.db.documents|
    requires w' == ApplyEdit(c, s, w, w.db.documents[i], e).0
    ensures Inv(c, w') && SameShelves(w.db, w'.db) && Recs(w'.db) == Recs(w.db) && w'.files == w.files
    ensures w'.db.documents == w.db.documents[i := Edited(w.db.documents[i], e)] && SameBooks(w.db, w'.db)
    ensures ApplyEdit(c, s, w, w.db.documents[i], e).1 == Ok(Edited(w.db.documents[i], e))
    ensures Steady(w, w')
  {
    hide Balance, CountAction, Append, ReplayLog, Live, Conserved, Physical, GoodDocs, GoodVersions, DistinctIds, DocRecs,
      VersionRecs, Steady;
    var doc := w.db.documents[i];
    var edited := w.(db := w.db.(documents := w.db.documents[i := Edited(doc, e)]));
    ActiveIsClaimed(c, w, i);
    RecsOfUpdate(c, w, i, Edited(doc, e));
    Reclaimed(Recs(w.db), DocRec(doc));
    ReplacedStructure(c, w.db, i, Edited(doc, e));
    GoodDocsAreDistinct(c, w.db);
    ReplacedHistory(c, w.db.audit, w.db.documents, TrashedDocs(w.db.trashed), i, Edited(doc, e));
    assert Inv(c, edited);
    NotedKeepsInv(c, edited, s.username, "edit_meta", doc.sha256, About(doc.vaultId, e.note));
    SameIsSteady(c, w, w');
  }

  lemma Reclaimed<T>(s: set<T>, r: T)
    requires r in s
    ensures s - {r} + {r} == s
  {}

  /** A document's record may change where its path does not. */
  lemma ReplacedHistory(c: Config, log: Log, docs: seq<Document>, trash: seq<Document>, i: nat, d: Document)
    requires History(c, log, docs, trash) && i < |docs| && d.vaultId == docs[i].vaultId && d.relPath == docs[i].relPath
    requires DistinctIds(docs)
    ensures History(c, log, docs[i := d], trash)
  {
    hide Chained, Covers, ReplayLog, Live;
    var m := ReplayLog(log).active;
    ActiveUpdate(docs, i, d, m);
    SameMap(m, d.vaultId);
  }

  lemma SameMap<K, V>(m: map<K, V>, k: K)
    requires k in m
    ensures m[k := m[k]] == m
  {}

  /** The version path of a document is below the document's folder and named after its id and its number. */
  lemma VersionPlace(c: Config, w: World, i: nat, actor: string, at: string, note: string, v: DocumentVersion)
    requires Inv(c, w) && i < |w.db.documents| && v == VersionOf(w, w.db.documents[i], actor, at, note)
    ensures GoodVersion(v) && v.version == CountVersions(w.db.versions, v.vaultId) + 1
    ensures KnownPlace(v.relPath) && !IsFolder(w.files, v.relPath)
  {
    hide Balance, CountAction, History, Conserved, Physical, CountVersions, Numbered;
    var doc := w.db.documents[i];
    ActiveIsClaimed(c, w, i);
    assert Numbered(w.db.versions);
    VersionsAreGapFree(w.db.versions, doc.vaultId);
    VersionPathShape(c, doc, v);
    InvPlaces(c, w);
  }

  lemma VersionPathShape(c: Config, doc: Document, v: DocumentVersion)
    requires GoodDoc(c, doc) && v.vaultId == doc.vaultId && v.version >= 1
    requires v.relPath == VersionPath(doc.relPath, doc.vaultId, v.version)
    ensures GoodVersion(v)
  {
    SanitizedIsGood(c.alnum, doc.meta.author);
    DirNameIsNoService(doc.meta.category);
    NumberIsSlashFree(v.version);
    assert v.relPath == [doc.relPath[0], doc.relPath[1], ".versiones", ".versions", VersionName(v.vaultId, v.version)];
    NoSlashInVersionName(v.vaultId, v.version);
  }

  lemma NoSlashInVersionName(id: string, n: nat)
    requires GoodId(id)
    ensures '/' !in VersionName(id, n)
  {
    NumberIsSlashFree(n);
  }

  lemma {:induction false} NumberIsSlashFree(n: nat)
    ensures '/' !in ToDec(n) && '_' !in ToDec(n)
  {
    if n >= 10 { NumberIsSlashFree(n / 10); }
  }

  /** The part before the first underscore is unique. */
  lemma FirstUnderscore(s: string, a: string, b: string)
    requires '_' !in a && '_' !in b && a + "_v" <= s && b + "_v" <= s
    ensures a == b
  {
    assert forall k :: 0 <= k < |a| ==> s[k] == a[k];
    assert forall k :: 0 <= k < |b| ==> s[k] == b[k];
    assert s[|a|] == (a + "_v")[|a|] && s[|b|] == (b + "_v")[|b|];
    assert |a| == |b|;
  }

  /** Ids have no underscore, so a version's file name gives its document and its number. */
  lemma VersionNameIsInjective(a: string, m: nat, b: string, n: nat)
    requires GoodId(a) && GoodId(b)
    ensures VersionName(a, m) == VersionName(b, n) ==> a == b && m == n
  {
    var s, t := a + "_v" + ToDec(m), b + "_v" + ToDec(n);
    if s == t {
      FirstUnderscore(s, a, b);
      assert ToDec(m) == s[|a| + 2..] && ToDec(n) == t[|b| + 2..];
      ToDecValue(m);
      ToDecValue(n);
    }
  }

  lemma VersionPathsDiffer(vs: seq<DocumentVersion>, k: nat, v: DocumentVersion)
    requires GoodVersions(vs) && GoodVersion(v) && k < |vs| && v.version == CountVersions(vs, v.vaultId) + 1
    ensures vs[k].relPath != v.relPath
  {
    hide VersionName, SlashFree, GoodId;
    var u := vs[k];
    VersionNameIsInjective(u.vaultId, u.version, v.vaultId, v.version);
    CountIsMonotone(vs, k + 1, u.vaultId);
    assert vs[..k + 1][..k] == vs[..k];
    assert u.relPath[4] != v.relPath[4];
  }

  /** The place of a new version is claimed by no record. */
  lemma VersionIsUnclaimed(c: Config, db: DbState, v: DocumentVersion)
    requires Structure(c, db) && GoodVersion(v) && v.version == CountVersions(db.versions, v.vaultId) + 1
    ensures forall r :: r in Recs(db) ==> r.path != v.relPath
  {
    hide Numbered, CountVersions, VersionName, SlashFree, GoodId;
    forall r | r in Recs(db)
      ensures r.path != v.relPath
    {
      RecShape(c, db, r);
      if r.version > 0 {
        var k :| 0 <= k < |db.versions| && r == VersionRec(db.versions[k]);
        VersionPathsDiffer(db.versions, k, v);
      }
    }
  }

  lemma {:induction false} CountIsMonotone(vs: seq<DocumentVersion>, n: nat, id: string)
    requires n <= |vs|
    ensures CountVersions(vs[..n], id) <= CountVersions(vs, id)
  {
    if n < |vs| {
      CountIsMonotone(vs[..|vs| - 1], n, id);
      assert vs[..|vs| - 1][..n] == vs[..n];
    } else {
      assert vs[..n] == vs;
    }
  }

  /** A frozen copy joins the claims with its file. */
  lemma VersionedWorld(
      c: Config, w: World, i: nat, v: DocumentVersion, actor: string, at: string, note: string, files: Files)
    requires Inv(c, w) && i < |w.db.documents| && v == VersionOf(w, w.db.documents[i], actor, at, note)
    requires CopySealed(w.files, w.db.documents[i].relPath, v.relPath) == Some(files)
    ensures Inv(c, World(w.db.(versions := w.db.versions + [v]), files))
    ensures Steady(w, World(w.db.(versions := w.db.versions + [v]), files))
    ensures v.relPath in files && files[v.relPath].isSealed && c.sha256(files[v.relPath].content) == v.sha256
    ensures v.version == CountVersions(w.db.versions, v.vaultId) + 1
  {
    hide Balance, CountAction, Append, ReplayLog, Live, History, Conserved, Physical, KeptSeals, GoodDocs, DocRecs,
      VersionRecs, CountVersions, Numbered, GoodVersions, GoodVersion;
    var doc := w.db.documents[i];
    ActiveIsClaimed(c, w, i);
    VersionPlace(c, w, i, actor, at, note, v);
    OneMoreVersion(c, w.db, v);
    VersionRecsAdd(w.db.versions, v);
    VersionIsUnclaimed(c, w.db, v);
    MoreRecs(DocRecs(w.db.documents), DocRecs(TrashedDocs(w.db.trashed)), VersionRecs(w.db.versions), VersionRec(v));
    CopiedFile(c, Recs(w.db), Live(w.db.audit), w.files, DocRec(doc), VersionRec(v), files);
  }

  lemma OneMoreVersion(c: Config, db: DbState, v: DocumentVersion)
    requires Structure(c, db) && GoodVersion(v) && v.version == CountVersions(db.versions, v.vaultId) + 1
    ensures GoodVersions(db.versions + [v])
  {
    VersionsAreGapFree(db.versions, v.vaultId);
    NumberedExtend(db.versions, v);
  }

  lemma MoreRecs<T>(a: set<T>, b: set<T>, rest: set<T>, r: T)
    ensures a + b + (rest + {r}) == a + b + rest + {r} && (a + {r}) + b + rest == a + b + rest + {r}
  {}

  /** A sealed copy of a claimed file, under a claim of its own. */
  lemma CopiedFile(c: Config, recs: set<Rec>, live: set<string>, files: Files, r: Rec, q: Rec, files': Files)
    requires Physical(c, recs, live, files) && r in recs && (forall x :: x in recs ==> x.path != q.path)
    requires q.sha256 == r.sha256 && q.blake3.None? && |q.path| == 5
    requires r.path in files && files' == files[q.path := File(files[r.path].content, true)]
    ensures Physical(c, recs + {q}, live, files')
    ensures KeptSeals(recs, files, recs + {q}, files')
  {
    AgreeAdd(c, recs, files, q, File(files[r.path].content, true), files');
  }

  /** An edit by Coordinación first freezes what the document was; any other edit leaves the versions alone. */
  lemma EditMetaKeepsInv(
      c: Config, s: Session, w: World, id: string, e: Edit, at: string, w': World, answer: Result<Document, OpError>)
    requires Inv(c, w) && (w', answer) == EditMeta(c, false, s, w, id, e, at)
    ensures Inv(c, w') && Steady(w, w')
    ensures w'.db.trashed == w.db.trashed && w'.db.submissions == w.db.submissions
    ensures |w'.db.documents| == |w.db.documents| && SameBooks(w.db, w'.db)
    ensures if s.role.Coordinacion? && answer.Ok?
            then |w'.db.versions| == |w.db.versions| + 1 && w'.db.versions[..|w.db.versions|] == w.db.versions
                 && Freezes(c, w, w', id, w'.db.versions[|w.db.versions|])
            else w'.db.versions == w.db.versions
    ensures if answer.Err? then w' == w
            else
              var i := DocIndex(w.db.documents, id);
              i < |w.db.documents| && EditedAs(w.db.documents[i], e, answer.value)
              && w'.db.documents == w.db.documents[i := answer.value]
  {
    hide Balance, CountAction, Inv, Recs, Steady, CopySealed, ApplyEdit, NextVersion;
    SameIsSteady(c, w, w);
    var i := DocIndex(w.db.documents, id);
    if s.role.CanEditMeta() && i < |w.db.documents| {
      var doc := w.db.documents[i];
      if !s.role.VersionsOnEdit() {
        EditedWorld(c, s, w, i, e, w');
      } else {
        var v := VersionOf(w, doc, s.username, at, e.note);
        var files := CopySealed(w.files, doc.relPath, v.relPath);
        if files.Some? {
          VersionedWorld(c, w, i, v, s.username, at, e.note, files.value);
          var w1 := World(w.db.(versions := w.db.versions + [v]), files.value);
          EditedWorld(c, s, w1, i, e, w');
          SteadyCompose(w, w1, w');
        }
      }
    }
  }

  /** The edit shows in the fields that it names, and nowhere else. */
  predicate EditedAs(before: Document, e: Edit, after: Document) {
    && (e.title.Some? ==> after.meta.title == e.title.value)
    && (e.department.Some? ==> after.meta.department == e.department.value)
    && (e.year.Some? ==> after.meta.academicYear == e.year)
    && before == after.(meta := after.meta.(
                   title := if e.title.Some? then before.meta.title else after.meta.title,
                   department := if e.department.Some? then before.meta.department else after.meta.department,
                   academicYear := if e.year.Some? then before.meta.academicYear else after.meta.academicYear))
  }

  /** The version holds the digest and the metadata that the document had, under the next number, in a sealed file with
      that digest. */
  ghost predicate Freezes(c: Config, w: World, w': World, id: string, v: DocumentVersion) {
    var i := DocIndex(w.db.documents, id);
    && i < |w.db.documents|
    && v.vaultId == id && v.sha256 == w.db.documents[i].sha256 && v.meta == w.db.documents[i].meta
    && v.version == CountVersions(w.db.versions, id) + 1
    && v.relPath in w'.files && w'.files[v.relPath].isSealed && c.sha256(w'.files[v.relPath].content) == v.sha256
  }

  lemma ViewKeepsInv(c: Config, s: Session, w: World, id: string, w': World, answer: Result<Document, OpError>)
    requires Inv(c, w) && (w', answer) == View(c, false, s, w, id)
    ensures Inv(c, w') && Recs(w'.db) == Recs(w.db) && w'.files == w.files && SameShelves(w.db, w'.db)
    ensures w'.db.documents == w.db.documents && SameBooks(w.db, w'.db)
  {
    hide Balance, CountAction, Inv, Recs;
    var i := DocIndex(w.db.documents, id);
    if i < |w.db.documents| {
      NotedKeepsInv(c, w, s.username, "view", w.db.documents[i].sha256, About(id, "viewed"));
    }
  }
}
