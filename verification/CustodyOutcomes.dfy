/** What each operation answers, exactly when, and what it leaves behind: by roles, documents, texts and files, and with the
    entry that the log gets. */
module CustodyOutcomes {
  import opened Common
  import opened Text
  import opened Documents
  import opened Paths
  import opened Store
  import opened Custody
  import opened CustodyInvariant
  import opened Records
  import opened CustodyRoles
  import opened CustodyMachine
  import opened CustodySteps
  import opened CustodyRuns

  /** The log has exactly one entry more, and this is what it says. */
  predicate Logged(c: Config, a: DbState, b: DbState, actor: string, action: string, subject: string, detail: Detail) {
    && |b.audit| == |a.audit| + 1 && b.audit[..|a.audit|] == a.audit
    && var e := b.audit[|a.audit|];
    && e.seqNo == |a.audit| && e.timestamp == c.ink.clock(|a.audit|) && e.actor == actor && e.action == action
    && e.subject == subject && e.detail == detail
  }

  lemma NotedIsLogged(c: Config, a: DbState, b: DbState, actor: string, action: string, subject: string, detail: Detail)
    requires b.audit == a.audit
    ensures Logged(c, a, Noted(c.ink, b, actor, action, subject, detail), actor, action, subject, detail)
  {}

  /** The active document of this id is the `i`-th. */
  predicate ActiveAt(w: World, id: string, i: nat) {
    i < |w.db.documents| && w.db.documents[i].vaultId == id && forall j :: 0 <= j < i ==> w.db.documents[j].vaultId != id
  }

  lemma ActiveIsFirst(w: World, id: string, i: nat)
    requires ActiveAt(w, id, i)
    ensures DocIndex(w.db.documents, id) == i && HasId(w.db.documents, id)
  {}

  // ---------- the roles ----------

  /** A soft delete is for Administración alone, and needs an active document; a refusal changes nothing. */
  lemma SoftDeleteAnswers(c: Config, s: Session, w: World, id: string, reason: string, at: string)
    ensures var (w', answer) := SoftDelete(c, false, s, w, id, reason, at);
            && (answer.Ok? <==> s.role == Administrativo && HasId(w.db.documents, id))
            && (answer == Err(Denied) <==> s.role != Administrativo)
            && (answer.Err? ==> w' == w)
  {
    hide Append;
  }

  /** The document leaves the index and ends the trash, with who, when and why. */
  lemma SoftDeleteLeaves(c: Config, s: Session, w: World, id: string, reason: string, at: string, i: nat)
    requires s.role == Administrativo && ActiveAt(w, id, i)
    ensures var w' := SoftDelete(c, false, s, w, id, reason, at).0;
            && w'.files == w.files && w'.db.documents == w.db.documents[..i] + w.db.documents[i + 1..]
            && w'.db.trashed
               == w.db.trashed + [TrashedDocument(w.db.documents[i], s.username, at, Trim(reason))]
            && w'.db.submissions == w.db.submissions && w'.db.versions == w.db.versions
            && Logged(c, w.db, w'.db, s.username, "soft_delete", id, Note(Trim(reason)))
  {
    ActiveIsFirst(w, id, i);
    hide Append, Logged, Trim;
    var db := w.db.(documents := Removed(w.db.documents, id),
                    trashed := w.db.trashed + [TrashedDocument(w.db.documents[i], s.username, at, Trim(reason))]);
    NotedIsLogged(c, w.db, db, s.username, "soft_delete", id, Note(Trim(reason)));
  }

  /** A restore is for Administración alone, and needs a trash entry. */
  lemma RestoreAnswers(c: Config, s: Session, w: World, id: string)
    ensures var (w', answer) := Restore(c, false, s, w, id);
            && (answer.Ok? <==>
                  s.role == Administrativo && exists k :: 0 <= k < |w.db.trashed| && w.db.trashed[k].document.vaultId == id)
            && (answer == Err(Denied) <==> s.role != Administrativo)
            && (answer.Err? ==> w' == w)
  {
    hide Append;
    var i := TrashIndex(w.db.trashed, id);
    if i < |w.db.trashed| { assert w.db.trashed[i].document.vaultId == id; }
  }

  /** The document is the answer, leaves the trash and ends the index. */
  lemma RestoreLeaves(c: Config, s: Session, w: World, id: string, i: nat)
    requires s.role == Administrativo && i < |w.db.trashed| && w.db.trashed[i].document.vaultId == id
    requires forall j :: 0 <= j < i ==> w.db.trashed[j].document.vaultId != id
    ensures var (w', answer) := Restore(c, false, s, w, id);
            var doc := w.db.trashed[i].document;
            && answer == Ok(doc) && w'.files == w.files && w'.db.documents == w.db.documents + [doc]
            && w'.db.trashed == w.db.trashed[..i] + w.db.trashed[i + 1..]
            && w'.db.submissions == w.db.submissions && w'.db.versions == w.db.versions
            && Logged(c, w.db, w'.db, s.username, "restore", doc.sha256, About(id, "restored"))
  {
    FirstTrashed(w.db.trashed, id, i);
    hide Append, Logged;
    var doc := w.db.trashed[i].document;
    var db := w.db.(documents := w.db.documents + [doc], trashed := Without(w.db.trashed, i));
    NotedIsLogged(c, w.db, db, s.username, "restore", doc.sha256, About(id, "restored"));
  }

  lemma {:induction false} FirstTrashed(trashed: seq<TrashedDocument>, id: string, i: nat)
    requires i < |trashed| && trashed[i].document.vaultId == id
    requires forall j :: 0 <= j < i ==> trashed[j].document.vaultId != id
    ensures TrashIndex(trashed, id) == i
  {
    if i > 0 { FirstTrashed(trashed[1..], id, i - 1); }
  }

  /** Is this the name of a file in its folder: not empty, and without separators? */
  predicate PlainName(name: string) {
    name != "" && forall i :: 0 <= i < |name| ==> name[i] != '/' && name[i] != '\\'
  }

  /** A rename is for Administración alone. Under the invariant: what is refused otherwise is exactly a name that is no plain
      name or is taken, an unknown document, or what the system refuses. */
  lemma RenameAnswers(c: Config, s: Session, w: World, id: string, newName: string, accepts: bool)
    requires Inv(c, w)
    ensures var (w', answer) := Rename(c, false, s, w, id, newName, accepts);
            && (answer == Err(Denied) <==> s.role != Administrativo)
            && (answer == Err(NotFound) <==>
                  s.role == Administrativo && PlainName(Trim(newName)) && !HasId(w.db.documents, id))
            && (answer.Err? && answer != Err(IoError) ==> w' == w && answer.error in {Denied, NotFound, Collision})
            && (answer == Err(IoError) ==> w'.db == w.db && !accepts)
  {
    hide Inv, Append, Exists, MoveSeals, AsksRename;
    assert PlainName(Trim(newName)) <==> ValidNewName(Trim(newName));
    var (w', answer) := Rename(c, false, s, w, id, newName, accepts);
    RenameKeepsInv(c, s, w, id, newName, accepts, w', answer);
  }

  /** The shared end of rename and move, when the place is free and the system does not refuse. */
  lemma MovedOut(c: Config, w: World, i: nat, moved: Document, actor: string, action: string)
    requires Inv(c, w) && i < |w.db.documents| && moved.vaultId == w.db.documents[i].vaultId
    requires |moved.relPath| == 3 && moved.relPath[1] == DirName(moved.meta.category) && !Exists(w.files, moved.relPath)
    ensures var (w', answer) := MoveDocument(c, w, w.db.documents[i], moved, actor, action, true);
            var from := w.db.documents[i].relPath;
            && answer == Ok(moved) && w'.db == w.db.(documents := w.db.documents[i := moved], audit := w'.db.audit)
            && from in w.files && w'.files == (w.files - {from})[moved.relPath := File(w.files[from].content, true)]
            && Logged(c, w.db, w'.db, actor, action, w.db.documents[i].sha256,
                      Relocated(moved.vaultId, from, moved.relPath))
  {
    ActiveIsClaimed(c, w, i);
    InvPlaces(c, w);
    DocFolderIsFree(w.files, moved.relPath, moved.meta.category);
    hide Inv, Append, Exists, Logged, InPlace, ParentBlocked, DirName;
    NotedIsLogged(c, w.db, w.db.(documents := w.db.documents[i := moved]), actor, action, w.db.documents[i].sha256,
                  Relocated(moved.vaultId, w.db.documents[i].relPath, moved.relPath));
  }

  lemma InItsFolder(c: Config, w: World, i: nat, name: string)
    requires Inv(c, w) && i < |w.db.documents|
    ensures var p := w.db.documents[i].relPath;
            && |p| == 3 && p[1] == DirName(w.db.documents[i].meta.category)
            && ReplaceLast(p, name) == [p[0], p[1], name] && (ReplaceLast(p, name) == p <==> p[2] == name)
  {
    hide Inv, ReplaceLast, Holds, Recs, ParentBlocked;
    ActiveIsClaimed(c, w, i);
    ThirdReplaced(w.db.documents[i].relPath, name);
  }

  lemma ThirdReplaced(p: Path, name: string)
    requires |p| == 3
    ensures ReplaceLast(p, name) == [p[0], p[1], name] && (ReplaceLast(p, name) == p <==> p[2] == name)
  {
    assert p == [p[0], p[1], p[2]];
  }

  lemma VersionAtFive(p: Path, id: string, n: nat)
    requires |p| == 3
    ensures VersionPath(p, id, n) == [p[0], p[1], ".versiones", ".versions", id + "_v" + ToDec(n)]
  {
    assert p[..2] == [p[0], p[1]];
  }

  /** After a rename the document lies in its folder under the new name, under seal and with its content, and nothing else is
      different but the name in its record. */
  lemma RenameLeaves(c: Config, s: Session, w: World, id: string, newName: string, i: nat)
    requires Inv(c, w) && s.role == Administrativo && ActiveAt(w, id, i) && PlainName(Trim(newName))
    requires |w.db.documents[i].relPath| == 3 && Trim(newName) != w.db.documents[i].relPath[2]
    requires !Exists(w.files, [w.db.documents[i].relPath[0], w.db.documents[i].relPath[1], Trim(newName)])
    ensures var (w', answer) := Rename(c, false, s, w, id, newName, true);
            var doc := w.db.documents[i];
            var to := [doc.relPath[0], doc.relPath[1], Trim(newName)];
            var renamed := doc.(relPath := to, meta := doc.meta.(fileName := Trim(newName)));
            && answer == Ok(renamed) && w'.db == w.db.(documents := w.db.documents[i := renamed], audit := w'.db.audit)
            && doc.relPath in w.files
            && w'.files == (w.files - {doc.relPath})[to := File(w.files[doc.relPath].content, true)]
            && Logged(c, w.db, w'.db, s.username, "rename", doc.sha256, Relocated(id, doc.relPath, to))
  {
    hide Inv, Exists, Logged, Trim, ReplaceLast, MoveDocument, DirName;
    ActiveIsFirst(w, id, i);
    InItsFolder(c, w, i, Trim(newName));
    assert ValidNewName(Trim(newName));
    var doc := w.db.documents[i];
    var renamed := doc.(relPath := [doc.relPath[0], doc.relPath[1], Trim(newName)],
                        meta := doc.meta.(fileName := Trim(newName)));
    MovedOut(c, w, i, renamed, s.username, "rename");
  }

  /** A move is for Administración alone, and answers Ok without a change for the category that the document has. */
  lemma MoveAnswers(c: Config, s: Session, w: World, id: string, category: Category, accepts: bool)
    requires Inv(c, w)
    ensures var (w', answer) := MoveToCategory(c, false, s, w, id, category, accepts);
            && (answer == Err(Denied) <==> s.role != Administrativo)
            && (answer == Err(NotFound) <==> s.role == Administrativo && !HasId(w.db.documents, id))
            && (answer.Err? && answer != Err(IoError) ==> w' == w && answer.error in {Denied, NotFound, Collision})
            && (answer == Err(IoError) ==> w'.db == w.db && !accepts)
  {
    hide Inv, Append, Exists, MoveSeals, AsksMove, RelPathFor;
    var (w', answer) := MoveToCategory(c, false, s, w, id, category, accepts);
    MoveToCategoryKeepsInv(c, s, w, id, category, accepts, w', answer);
  }

  /** After a move the document lies in the folder of the new category, under seal and with its content, and nothing else is
      different but the category in its record. */
  lemma MoveLeaves(c: Config, s: Session, w: World, id: string, category: Category, i: nat)
    requires Inv(c, w) && s.role == Administrativo && ActiveAt(w, id, i) && w.db.documents[i].meta.category != category
    requires !Exists(w.files, RelPathFor(c.alnum, w.db.documents[i].meta.author, category, w.db.documents[i].meta.fileName))
    ensures var (w', answer) := MoveToCategory(c, false, s, w, id, category, true);
            var doc := w.db.documents[i];
            var to := [SanitizeComponent(c.alnum, doc.meta.author), DirName(category),
                       SanitizeComponent(c.alnum, doc.meta.fileName)];
            var moved := doc.(relPath := to, meta := doc.meta.(category := category));
            && answer == Ok(moved) && w'.db == w.db.(documents := w.db.documents[i := moved], audit := w'.db.audit)
            && doc.relPath in w.files && to != doc.relPath
            && w'.files == (w.files - {doc.relPath})[to := File(w.files[doc.relPath].content, true)]
            && Logged(c, w.db, w'.db, s.username, "move", doc.sha256, Relocated(id, doc.relPath, to))
  {
    hide Inv, Exists, Logged, SanitizeComponent, MoveDocument, DirName;
    ActiveIsFirst(w, id, i);
    MoveChangesThePath(c, w, i, category);
    var doc := w.db.documents[i];
    var to := RelPathFor(c.alnum, doc.meta.author, category, doc.meta.fileName);
    MovedOut(c, w, i, doc.(relPath := to, meta := doc.meta.(category := category)), s.username, "move");
  }

  /** An edit is for Administración and Coordinación, and needs an active document. The version that Coordinación leaves
      needs a folder ".versiones" beside the document: it fails exactly when a document of that name is there instead. */
  lemma EditAnswers(c: Config, s: Session, w: World, id: string, e: Edit, at: string)
    requires Inv(c, w)
    ensures var (w', answer) := EditMeta(c, false, s, w, id, e, at);
            && (answer == Err(Denied) <==> s.role != Administrativo && s.role != Coordinacion)
            && (answer == Err(NotFound) <==>
                  (s.role == Administrativo || s.role == Coordinacion) && !HasId(w.db.documents, id))
            && (answer == Err(IoError) <==>
                  s.role == Coordinacion
                  && exists i :: 0 <= i < |w.db.documents| && ActiveAt(w, id, i) && VersionsBlocked(w, i))
            && (answer.Err? ==> w' == w && answer.error in {Denied, NotFound, IoError})
  {
    hide Inv, Append, CopySealed, VersionOf, VersionsBlocked;
    var i := DocIndex(w.db.documents, id);
    if i < |w.db.documents| {
      assert ActiveAt(w, id, i);
      VersionCopied(c, w, i, s.username, at, e.note);
      forall k | 0 <= k < |w.db.documents| && ActiveAt(w, id, k)
        ensures k == i
      {
        ActiveIsFirst(w, id, k);
      }
    }
  }

  /** Is there a file in the place of the folder for the versions of this document? */
  predicate VersionsBlocked(w: World, i: nat)
    requires i < |w.db.documents|
  {
    |w.db.documents[i].relPath| == 3 && [w.db.documents[i].relPath[0], w.db.documents[i].relPath[1], ".versiones"] in w.files
  }

  lemma VersionCopied(c: Config, w: World, i: nat, actor: string, at: string, note: string)
    requires Inv(c, w) && i < |w.db.documents|
    ensures var v := VersionOf(w, w.db.documents[i], actor, at, note);
            CopySealed(w.files, w.db.documents[i].relPath, v.relPath).None? <==> VersionsBlocked(w, i)
  {
    hide Inv, NextVersion, VersionPath, GoodVersion, InPlace, Holds, Recs, ParentBlocked, IsFolder, DirName;
    var doc := w.db.documents[i];
    var v := VersionOf(w, doc, actor, at, note);
    ActiveIsClaimed(c, w, i);
    VersionPlace(c, w, i, actor, at, note, v);
    VersionIsFree(c, w, v);
    InvPlaces(c, w);
    VersionAtFive(doc.relPath, doc.vaultId, v.version);
    assert v.relPath[..3] == [doc.relPath[0], doc.relPath[1], ".versiones"];
    BlockedBy(w.files, doc, v.relPath);
  }

  lemma VersionIsFree(c: Config, w: World, v: DocumentVersion)
    requires Inv(c, w) && GoodVersion(v) && v.version == CountVersions(w.db.versions, v.vaultId) + 1
    ensures v.relPath !in w.files
  {
    hide GoodDocs, GoodVersions, Recs, CountVersions, History, Conserved, Agree;
    VersionIsUnclaimed(c, w.db, v);
  }

  /** Of the folders above a version only that one can be a file. */
  lemma BlockedBy(files: Files, doc: Document, p: Path)
    requires InPlace(files) && |doc.relPath| == 3 && doc.relPath[1] == DirName(doc.meta.category)
    requires |p| == 5 && p[..3] == [doc.relPath[0], doc.relPath[1], ".versiones"]
    ensures ParentBlocked(files, p) <==> p[..3] in files
  {
    DirNameIsNoService(doc.meta.category);
    hide DirName;
    assert p[..2] == p[..3][..2] && p[..2][1] == doc.relPath[1];
    forall k | 0 < k < |p| && k != 3
      ensures p[..k] !in files
    {
    }
  }

  /** After an edit by Administración the fields that were given are changed, and nothing else. */
  lemma EditLeaves(c: Config, s: Session, w: World, id: string, e: Edit, at: string, i: nat)
    requires s.role == Administrativo && ActiveAt(w, id, i)
    ensures var (w', answer) := EditMeta(c, false, s, w, id, e, at);
            && answer.Ok? && EditedAs(w.db.documents[i], e, answer.value) && w'.files == w.files
            && w'.db == w.db.(documents := w.db.documents[i := answer.value], audit := w'.db.audit)
            && Logged(c, w.db, w'.db, s.username, "edit_meta", w.db.documents[i].sha256, About(id, e.note))
  {
    ActiveIsFirst(w, id, i);
    hide Append, Logged;
    var doc := w.db.documents[i];
    NotedIsLogged(c, w.db, w.db.(documents := w.db.documents[i := Edited(doc, e)]), s.username, "edit_meta", doc.sha256,
                  About(id, e.note));
  }

  /** After an edit by Coordinación the same, and before it a version: a sealed copy of the file below the folder of the
      document, under the next number, with who, when and why. */
  lemma VersionedEditLeaves(c: Config, s: Session, w: World, id: string, e: Edit, at: string, i: nat)
    requires Inv(c, w) && s.role == Coordinacion && ActiveAt(w, id, i) && !VersionsBlocked(w, i)
    ensures var (w', answer) := EditMeta(c, false, s, w, id, e, at);
            var doc := w.db.documents[i];
            var n := CountVersions(w.db.versions, id) + 1;
            var place := [doc.relPath[0], doc.relPath[1], ".versiones", ".versions", id + "_v" + ToDec(n)];
            && |doc.relPath| == 3 && doc.relPath in w.files
            && answer.Ok? && EditedAs(doc, e, answer.value)
            && w'.files == w.files[place := File(w.files[doc.relPath].content, true)]
            && w'.db == w.db.(
                 documents := w.db.documents[i := answer.value],
                 versions := w.db.versions + [DocumentVersion(id, n, doc.sha256, place, doc.meta, s.username, at, e.note)],
                 audit := w'.db.audit)
            && Logged(c, w.db, w'.db, s.username, "edit_meta", doc.sha256, About(id, e.note))
  {
    hide Inv, Append, Logged, VersionsBlocked, NextVersion, CountVersions, ToDec, ParentBlocked, IsFolder, VersionPath;
    ActiveIsFirst(w, id, i);
    VersionCopied(c, w, i, s.username, at, e.note);
    NextIsCounted(c, w, i);
    var doc := w.db.documents[i];
    VersionAtFive(doc.relPath, id, CountVersions(w.db.versions, id) + 1);
    NotedIsLogged(c, w.db, w.db.(documents := w.db.documents[i := Edited(doc, e)],
                                 versions := w.db.versions + [VersionOf(w, doc, s.username, at, e.note)]),
                  s.username, "edit_meta", doc.sha256, About(id, e.note));
  }

  lemma NextIsCounted(c: Config, w: World, i: nat)
    requires Inv(c, w) && i < |w.db.documents|
    ensures |w.db.documents[i].relPath| == 3 && w.db.documents[i].relPath in w.files
    ensures NextVersion(w.db.versions, w.db.documents[i].vaultId)
            == CountVersions(w.db.versions, w.db.documents[i].vaultId) + 1
  {
    ActiveIsClaimed(c, w, i);
    hide Physical, History, Conserved, GoodDocs, CountVersions;
    VersionsAreGapFree(w.db.versions, w.db.documents[i].vaultId);
  }

  /** A service whose database is open for reading changes nothing, whatever is asked: who may do a thing is told that the
      database is read-only, anyone else that it is not for them; an import is not looked at further. */
  lemma ReadOnlyRefuses(
      c: Config, s: Session, w: World, id: string, name: string, accepts: bool, category: Category, reason: string, at: string,
      e: Edit, content: bytes, meta: DocumentMeta, stamp: Option<string>)
    ensures var forOffice: OpError := if s.role == Administrativo then ReadOnly else Denied;
            && Rename(c, true, s, w, id, name, accepts) == (w, Err(forOffice))
            && MoveToCategory(c, true, s, w, id, category, accepts) == (w, Err(forOffice))
            && SoftDelete(c, true, s, w, id, reason, at) == (w, Err(forOffice))
            && Restore(c, true, s, w, id) == (w, Err(forOffice))
    ensures EditMeta(c, true, s, w, id, e, at)
            == (w, Err(if s.role == Administrativo || s.role == Coordinacion then ReadOnly else Denied))
    ensures View(c, true, s, w, id) == (w, Err(ReadOnly))
    ensures Import(c, true, s, w, content, meta, id, stamp) == (w, Err(ReadOnly))
  {}

  /** Everyone may view an active document; the answer is that document, and the view is logged. */
  lemma ViewAnswers(c: Config, s: Session, w: World, id: string)
    ensures var (w', answer) := View(c, false, s, w, id);
            if !HasId(w.db.documents, id) then w' == w && answer == Err(NotFound)
            else
              && answer.Ok?
              && (exists i :: 0 <= i < |w.db.documents| && ActiveAt(w, id, i) && answer.value == w.db.documents[i])
              && w' == w.(db := w.db.(audit := w'.db.audit))
              && Logged(c, w.db, w'.db, s.username, "view", answer.value.sha256, About(id, "viewed"))
  {
    hide Append, Logged;
    var i := DocIndex(w.db.documents, id);
    if i < |w.db.documents| {
      assert ActiveAt(w, id, i);
      NotedIsLogged(c, w.db, w.db, s.username, "view", w.db.documents[i].sha256, About(id, "viewed"));
    }
  }

  // ---------- what readers do ----------

  /** Docentes and Directores. */
  predicate Reader(s: Session) {
    s.role == Docente || s.role == Director
  }

  /** The session of a step that a role takes. */
  function SessionOf(step: Step): Option<Session> {
    match step
    case Renaming(s, _, _, _) => Some(s)
    case Moving(s, _, _, _) => Some(s)
    case Trashing(s, _, _, _) => Some(s)
    case Restoring(s, _) => Some(s)
    case Editing(s, _, _, _) => Some(s)
    case Viewing(s, _) => Some(s)
    case Importing(s, _, _, _, _) => Some(s)
    case _ => None
  }

  lemma ImportIsRefused(
      c: Config, s: Session, w: World, content: bytes, meta: DocumentMeta, newId: string, stamp: Option<string>)
    requires Reader(s)
    ensures Import(c, false, s, w, content, meta, newId, stamp) == (w, Err(Denied))
  {
    hide SealDocument;
  }

  /** In every run a step of a Docente or a Director leaves index, trash, versions, submissions, files and pending destructions
      as they are, and adds nothing to the log but, for a view, the one entry about it. */
  lemma ReadersChangeNothing(c: Config, ms: seq<Moment>, steps: seq<Step>, i: nat)
    requires Run(c, ms, steps) && i < |steps| && SessionOf(steps[i]).Some? && Reader(SessionOf(steps[i]).value)
    ensures var a, b := ms[i].o, ms[i + 1].o;
            && b.w.files == a.w.files && b.pending == a.pending && b.w.db == a.w.db.(audit := b.w.db.audit)
            && if steps[i].Viewing? && HasId(a.w.db.documents, steps[i].id) then
                 exists sha :: Logged(c, a.w.db, b.w.db, steps[i].s.username, "view", sha, About(steps[i].id, "viewed"))
               else b.w.db.audit == a.w.db.audit
  {
    hide Enabled, Flushes, Rename, MoveToCategory, SoftDelete, Restore, EditMeta, View, Import, Logged, Inv, SealsAre,
      SubsGood, Behind;
    RunKeepsInv(c, ms, steps, i);
    var m, step := ms[i], steps[i];
    assert ms[i + 1] == Perform(c, m, step);
    var w := m.o.w;
    match step {
      case Renaming(s, id, newName, accepts) => RenameAnswers(c, s, w, id, newName, accepts);
      case Moving(s, id, category, accepts) => MoveAnswers(c, s, w, id, category, accepts);
      case Trashing(s, id, reason, at) => SoftDeleteAnswers(c, s, w, id, reason, at);
      case Restoring(s, id) => RestoreAnswers(c, s, w, id);
      case Editing(s, id, edit, at) => EditAnswers(c, s, w, id, edit, at);
      case Viewing(s, id) => ViewAnswers(c, s, w, id);
      case Importing(s, content, meta, newId, stamp) => ImportIsRefused(c, s, w, content, meta, newId, stamp);
    }
  }
}
