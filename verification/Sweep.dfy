/** The integrity sweep (vault-audit): every document is compared with its file; what does not match is marked and logged. */
module Sweep {
  import opened Common
  import opened Documents
  import opened AuditChain
  import opened Paths
  import opened Store
  import opened Custody
  import opened Replay
  import opened Records
  import opened CustodyInvariant

  datatype Verdict = Sound | Missing | Altered(found: string) | Unreadable

  function Judge(c: Config, files: Files, doc: Document): Verdict {
    if !Exists(files, doc.relPath) then Missing
    else if doc.relPath !in files then Unreadable
    else
      var content := files[doc.relPath].content;
      if c.sha256(content) == doc.sha256 && c.blake3(content) == doc.blake3 then Sound else Altered(c.sha256(content))
  }

  datatype SweepReport = SweepReport(
    checked: nat, missing: nat, tampered: nat, ok: nat, repairedStatus: nat, problems: seq<string>)

  const EMPTY_REPORT := SweepReport(0, 0, 0, 0, 0, [])

  datatype Sweeping = Sweeping(db: DbState, report: SweepReport)

  /** One document: its status, its entry and its place in the report. */
  function SweepOne(c: Config, files: Files, s: Sweeping, doc: Document): Sweeping {
    var r := s.report.(checked := s.report.checked + 1);
    match Judge(c, files, doc)
    case Missing =>
      var db := s.db.(documents := Marked(s.db.documents, doc.vaultId, Tampered));
      Sweeping(Noted(c.ink, db, "vault-audit", "integrity_missing", doc.sha256, Placed(doc.vaultId, doc.relPath)),
               r.(missing := r.missing + 1, problems := r.problems + [doc.vaultId]))
    case Altered(found) =>
      var db := s.db.(documents := Marked(s.db.documents, doc.vaultId, Tampered));
      Sweeping(Noted(c.ink, db, "vault-audit", "integrity_tampered", doc.sha256, About(doc.vaultId, found)),
               r.(tampered := r.tampered + 1, problems := r.problems + [doc.vaultId]))
    case Sound =>
      if doc.integrity.Intact? then s.(report := r.(ok := r.ok + 1))
      else
        Sweeping(s.db.(documents := Marked(s.db.documents, doc.vaultId, Intact)),
                 r.(ok := r.ok + 1, repairedStatus := r.repairedStatus + 1))
    case Unreadable => s.(report := r)
  }

  /** The documents in index order. */
  function SweepDocs(c: Config, files: Files, s: Sweeping, docs: seq<Document>): Sweeping {
    if docs == [] then s else SweepOne(c, files, SweepDocs(c, files, s, docs[..|docs| - 1]), docs[|docs| - 1])
  }

  function Closed(c: Config, s: Sweeping): DbState {
    Noted(c.ink, s.db, "vault-audit", "sweep", "vault",
          Counts(s.report.checked, s.report.ok, s.report.missing, s.report.tampered))
  }

  /** The first document whose path names a folder, or the length: reading it ends the sweep. */
  function FirstUnreadable(c: Config, files: Files, docs: seq<Document>): (i: nat)
    ensures i <= |docs| && (i < |docs| ==> Judge(c, files, docs[i]).Unreadable?)
    ensures forall j :: 0 <= j < i ==> !Judge(c, files, docs[j]).Unreadable?
  {
    if docs == [] || Judge(c, files, docs[0]).Unreadable? then 0
    else
      var i := 1 + FirstUnreadable(c, files, docs[1..]);
      assert forall j :: 0 < j < i ==> docs[j] == docs[1..][j - 1];
      i
  }

  /** `sweep` */
  function SweepSpec(c: Config, w: World): (DbState, Result<SweepReport, OpError>) {
    var docs := w.db.documents;
    var n := FirstUnreadable(c, w.files, docs);
    var s := SweepDocs(c, w.files, Sweeping(w.db, EMPTY_REPORT), docs[..n]);
    if n < |docs| then (s.db, Err(IoError)) else (Closed(c, s), Ok(s.report))
  }

  // ---------- the sweep as it runs ----------

  /** The body of the loop of `sweep`, for a document whose path does not name a folder. */
  method SweepNext(c: Config, db: VaultDb, disk: Disk, doc: Document, before: SweepReport) returns (report: SweepReport)
    requires db.ink == c.ink && !Judge(c, disk.files, doc).Unreadable?
    modifies db`state
    ensures Sweeping(db.state, report) == SweepOne(c, disk.files, Sweeping(old(db.state), before), doc)
  {
    hide Judge, Marked, Append, Head, ContentHash, Verified;
    var verdict := Judge(c, disk.files, doc);
    report := before.(checked := before.checked + 1);
    if verdict.Missing? {
      db.UpdateIntegrity(doc.vaultId, Tampered);
      var _ := db.AppendAudit("vault-audit", "integrity_missing", doc.sha256, Placed(doc.vaultId, doc.relPath));
      report := report.(missing := report.missing + 1);
      report := report.(problems := report.problems + [doc.vaultId]);
    } else if verdict.Sound? {
      if !doc.integrity.Intact? {
        db.UpdateIntegrity(doc.vaultId, Intact);
        report := report.(repairedStatus := report.repairedStatus + 1);
      }
      report := report.(ok := report.ok + 1);
    } else {
      db.UpdateIntegrity(doc.vaultId, Tampered);
      var _ := db.AppendAudit("vault-audit", "integrity_tampered", doc.sha256, About(doc.vaultId, verdict.found));
      report := report.(tampered := report.tampered + 1);
      report := report.(problems := report.problems + [doc.vaultId]);
    }
  }

  method SweepVault(c: Config, db: VaultDb, disk: Disk) returns (answer: Result<SweepReport, OpError>)
    requires db.ink == c.ink
    modifies db
    ensures db.state == SweepSpec(c, World(old(db.state), disk.files)).0
    ensures var judged := SweepSpec(c, World(old(db.state), disk.files)).1;
            && answer == (if db.readOnly && judged.Ok? then Err(ReadOnly) else judged)
            && db.flushed == if answer.Ok? then db.state else old(db.flushed)
  {
    hide Judge, Marked, Append, Head, ContentHash, Verified, FirstUnreadable, Chained, SweepOne;
    var docs := db.state.documents;
    var report := EMPTY_REPORT;
    ghost var start := Sweeping(db.state, EMPTY_REPORT);
    for k := 0 to |docs|
      invariant k <= FirstUnreadable(c, disk.files, docs)
      invariant Sweeping(db.state, report) == SweepDocs(c, disk.files, start, docs[..k])
      invariant db.flushed == old(db.flushed)
    {
      assert docs[..k + 1][..k] == docs[..k];
      if Judge(c, disk.files, docs[k]).Unreadable? { return Err(IoError); }
      report := SweepNext(c, db, disk, docs[k], report);
    }
    assert docs[..|docs|] == docs;
    var _ := db.AppendAudit("vault-audit", "sweep", "vault",
                            Counts(report.checked, report.ok, report.missing, report.tampered));
    var saved := db.Flush();
    return if saved then Ok(report) else Err(ReadOnly);
  }

  // ---------- what a sweep finds ----------

  /** The ids of the documents that are not sound, in index order. */
  function Problems(c: Config, files: Files, docs: seq<Document>): seq<string> {
    if docs == [] then []
    else
      var doc := docs[|docs| - 1];
      Problems(c, files, docs[..|docs| - 1]) + (if Judge(c, files, doc).Sound? then [] else [doc.vaultId])
  }

  function Absences(c: Config, files: Files, docs: seq<Document>): nat {
    if docs == [] then 0
    else Absences(c, files, docs[..|docs| - 1]) + (if Judge(c, files, docs[|docs| - 1]).Missing? then 1 else 0)
  }

  /** The status that a sweep leaves a document with. */
  function Assessed(c: Config, files: Files, doc: Document): Document {
    doc.(integrity := if Judge(c, files, doc).Sound? then Intact else Tampered)
  }

  function Repairs(c: Config, files: Files, docs: seq<Document>): nat {
    if docs == [] then 0
    else
      var doc := docs[|docs| - 1];
      Repairs(c, files, docs[..|docs| - 1]) + (if Judge(c, files, doc).Sound? && !doc.integrity.Intact? then 1 else 0)
  }

  ghost predicate Readable(c: Config, files: Files, docs: seq<Document>) {
    forall i :: 0 <= i < |docs| ==> !Judge(c, files, docs[i]).Unreadable?
  }

  ghost predicate Reports(c: Config, files: Files, docs: seq<Document>, r: SweepReport) {
    && r.checked == |docs| == r.ok + r.missing + r.tampered
    && r.missing == Absences(c, files, docs)
    && r.problems == Problems(c, files, docs)
    && |r.problems| == r.missing + r.tampered
    && r.repairedStatus == Repairs(c, files, docs)
  }

  /** What a document is reported for: nothing lies at its path, or its file has other digests than the record. */
  function Finding(c: Config, files: Files, doc: Document): Option<(string, Detail)> {
    if !Exists(files, doc.relPath) then Some(("integrity_missing", Placed(doc.vaultId, doc.relPath)))
    else if doc.relPath !in files || Holds(c, DocRec(doc), files[doc.relPath]) then None
    else Some(("integrity_tampered", About(doc.vaultId, c.sha256(files[doc.relPath].content))))
  }

  /** The log with an entry for each document that is reported, in index order. */
  function Reported(c: Config, files: Files, log: Log, docs: seq<Document>): Log {
    if docs == [] then log
    else
      var doc := docs[|docs| - 1];
      var before := Reported(c, files, log, docs[..|docs| - 1]);
      match Finding(c, files, doc)
      case None => before
      case Some((action, detail)) => Append(c.ink, before, "vault-audit", action, doc.sha256, detail)
  }

  /** The four verdicts, by what lies at the path of the document. */
  lemma VerdictsAre(c: Config, files: Files, doc: Document)
    ensures Judge(c, files, doc).Missing? <==> !Exists(files, doc.relPath)
    ensures Judge(c, files, doc).Unreadable? <==> Exists(files, doc.relPath) && doc.relPath !in files
    ensures Judge(c, files, doc).Sound? <==> doc.relPath in files && Holds(c, DocRec(doc), files[doc.relPath])
    ensures Finding(c, files, doc).Some? <==> Judge(c, files, doc).Missing? || Judge(c, files, doc).Altered?
  {}

  lemma {:induction false} SweepIsReported(c: Config, files: Files, s: Sweeping, docs: seq<Document>)
    ensures SweepDocs(c, files, s, docs).db.audit == Reported(c, files, s.db.audit, docs)
  {
    hide Append, Exists, Marked;
    if docs != [] { SweepIsReported(c, files, s, docs[..|docs| - 1]); }
  }

  /** One document more: its own record is assessed and no other changes. */
  lemma SweepOneStep(c: Config, files: Files, s: Sweeping, docs: seq<Document>, k: nat)
    requires DistinctIds(docs) && k < |docs| && |s.db.documents| == |docs| && !Judge(c, files, docs[k]).Unreadable?
    requires forall j :: 0 <= j < |docs| ==> s.db.documents[j].vaultId == docs[j].vaultId
    requires s.db.documents[k] == docs[k]
    ensures var t := SweepOne(c, files, s, docs[k]);
            && t.db == s.db.(documents := t.db.documents, audit := t.db.audit)
            && t.db.documents == s.db.documents[k := Assessed(c, files, docs[k])]
            && s.db.audit <= t.db.audit && |t.db.audit| - |s.db.audit| == |t.report.problems| - |s.report.problems|
  {
    hide Append, Judge;
    forall actor, action, subject, detail
      ensures s.db.audit <= Append(c.ink, s.db.audit, actor, action, subject, detail)
      ensures |Append(c.ink, s.db.audit, actor, action, subject, detail)| == |s.db.audit| + 1
    {
      AppendGrows(c.ink, s.db.audit, actor, action, subject, detail);
    }
  }

  lemma ReportOneMore(c: Config, files: Files, docs: seq<Document>, s: Sweeping)
    requires docs != [] && !Judge(c, files, docs[|docs| - 1]).Unreadable?
    requires Reports(c, files, docs[..|docs| - 1], s.report)
    ensures Reports(c, files, docs, SweepOne(c, files, s, docs[|docs| - 1]).report)
  {
    hide Judge, Marked, Noted;
    var doc := docs[|docs| - 1];
    var before := docs[..|docs| - 1];
    assert Problems(c, files, docs)
        == Problems(c, files, before) + (if Judge(c, files, doc).Sound? then [] else [doc.vaultId]);
    assert Absences(c, files, docs) == Absences(c, files, before) + (if Judge(c, files, doc).Missing? then 1 else 0);
    assert Repairs(c, files, docs)
        == Repairs(c, files, before) + (if Judge(c, files, doc).Sound? && !doc.integrity.Intact? then 1 else 0);
    hide Problems, Absences, Repairs;
  }

  lemma {:induction false} SweepReports(c: Config, files: Files, s: Sweeping, docs: seq<Document>)
    requires Readable(c, files, docs) && s.report == EMPTY_REPORT
    ensures Reports(c, files, docs, SweepDocs(c, files, s, docs).report)
  {
    hide Judge, SweepOne;
    if docs != [] {
      SweepReports(c, files, s, docs[..|docs| - 1]);
      ReportOneMore(c, files, docs, SweepDocs(c, files, s, docs[..|docs| - 1]));
    }
  }

  /** After the first documents, exactly those are assessed, and each problem has its entry. */
  lemma {:induction false} SweepProgress(c: Config, files: Files, db: DbState, k: nat)
    requires DistinctIds(db.documents) && k <= |db.documents| && Readable(c, files, db.documents[..k])
    ensures var s := SweepDocs(c, files, Sweeping(db, EMPTY_REPORT), db.documents[..k]);
            && s.db == db.(documents := s.db.documents, audit := s.db.audit)
            && db.audit <= s.db.audit && |s.db.audit| == |db.audit| + |s.report.problems|
            && |s.db.documents| == |db.documents|
            && (forall j :: 0 <= j < k ==> s.db.documents[j] == Assessed(c, files, db.documents[j]))
            && (forall j :: k <= j < |db.documents| ==> s.db.documents[j] == db.documents[j])
  {
    hide SweepOne, Judge, DistinctIds;
    if k > 0 {
      assert db.documents[..k][..k - 1] == db.documents[..k - 1];
      assert forall j :: 0 <= j < k ==> db.documents[..k][j] == db.documents[j];
      SweepProgress(c, files, db, k - 1);
      var before := SweepDocs(c, files, Sweeping(db, EMPTY_REPORT), db.documents[..k - 1]);
      SweepOneStep(c, files, before, db.documents, k - 1);
    }
  }

  /** What a sweep over readable files finds, marks and logs, whatever state the files are in. */
  lemma SweepFinds(c: Config, w: World, db: DbState, answer: Result<SweepReport, OpError>)
    requires DistinctIds(w.db.documents) && (db, answer) == SweepSpec(c, w)
    ensures answer.Ok? <==> Readable(c, w.files, w.db.documents)
    ensures answer.Ok? ==>
              && Reports(c, w.files, w.db.documents, answer.value)
              && db == w.db.(documents := AssessedAll(c, w.files, w.db.documents), audit := db.audit)
              && w.db.audit <= db.audit
              && |db.audit| == |w.db.audit| + answer.value.missing + answer.value.tampered + 1
              && db.audit == Append(c.ink, Reported(c, w.files, w.db.audit, w.db.documents), "vault-audit", "sweep", "vault",
                                    Counts(answer.value.checked, answer.value.ok, answer.value.missing, answer.value.tampered))
  {
    hide Judge, DistinctIds, SweepOne, Append, Reported;
    var docs := w.db.documents;
    var start := Sweeping(w.db, EMPTY_REPORT);
    if answer.Ok? {
      assert docs[..|docs|] == docs;
      SweepReports(c, w.files, start, docs);
      SweepIsReported(c, w.files, start, docs);
      SweepProgress(c, w.files, w.db, |docs|);
      var s := SweepDocs(c, w.files, start, docs);
      AppendGrows(c.ink, s.db.audit, "vault-audit", "sweep", "vault",
                  Counts(s.report.checked, s.report.ok, s.report.missing, s.report.tampered));
      assert s.db.documents == AssessedAll(c, w.files, docs);
    }
  }

  /** A sweep that meets a path that names a folder ends there with an error: the documents before the first such one are
      assessed and reported, the others are left as they were, and no closing entry is written. */
  lemma SweepStops(c: Config, w: World, db: DbState, answer: Result<SweepReport, OpError>) returns (n: nat)
    requires DistinctIds(w.db.documents) && (db, answer) == SweepSpec(c, w) && answer.Err?
    ensures var docs := w.db.documents;
            && answer == Err(IoError) && n < |docs|
            && Exists(w.files, docs[n].relPath) && docs[n].relPath !in w.files
            && Readable(c, w.files, docs[..n])
            && db == w.db.(documents := AssessedAll(c, w.files, docs[..n]) + docs[n..],
                           audit := Reported(c, w.files, w.db.audit, docs[..n]))
  {
    hide Judge, DistinctIds, SweepOne, Append, Reported, Exists;
    var docs := w.db.documents;
    n := FirstUnreadable(c, w.files, docs);
    VerdictsAre(c, w.files, docs[n]);
    SweepProgress(c, w.files, w.db, n);
    SweepIsReported(c, w.files, Sweeping(w.db, EMPTY_REPORT), docs[..n]);
    assert db.documents == AssessedAll(c, w.files, docs[..n]) + docs[n..];
  }

  function AssessedAll(c: Config, files: Files, docs: seq<Document>): seq<Document> {
    seq(|docs|, i requires 0 <= i < |docs| => Assessed(c, files, docs[i]))
  }

  /** Verdicts do not depend on the status. */
  lemma AssessedTwice(c: Config, files: Files, doc: Document)
    ensures var again := Assessed(c, files, doc);
            && Judge(c, files, again) == Judge(c, files, doc) && again.vaultId == doc.vaultId
            && Assessed(c, files, again) == again && (Judge(c, files, doc).Sound? ==> again.integrity.Intact?)
  {
    hide Exists;
  }

  /** A second look at the same files gives the same verdicts and repairs nothing. */
  lemma {:induction false} SecondLook(c: Config, files: Files, docs: seq<Document>)
    ensures var again := AssessedAll(c, files, docs);
            && Problems(c, files, again) == Problems(c, files, docs)
            && Absences(c, files, again) == Absences(c, files, docs)
            && Repairs(c, files, again) == 0
            && AssessedAll(c, files, again) == again
  {
    hide Judge, Assessed;
    var again := AssessedAll(c, files, docs);
    forall i | 0 <= i < |docs|
      ensures Assessed(c, files, again[i]) == again[i]
    {
      AssessedTwice(c, files, docs[i]);
    }
    if docs != [] {
      AssessedTwice(c, files, docs[|docs| - 1]);
      SecondLook(c, files, docs[..|docs| - 1]);
      assert again[..|docs| - 1] == AssessedAll(c, files, docs[..|docs| - 1]);
    }
  }

  lemma StillReadable(c: Config, files: Files, docs: seq<Document>)
    requires DistinctIds(docs) && Readable(c, files, docs)
    ensures DistinctIds(AssessedAll(c, files, docs)) && Readable(c, files, AssessedAll(c, files, docs))
    ensures |AssessedAll(c, files, docs)| == |docs|
  {}

  /** Sweeping twice with the files unchanged: the second report is the first with nothing left to repair. */
  lemma SecondSweep(c: Config, w: World, db: DbState, answer: Result<SweepReport, OpError>)
    requires DistinctIds(w.db.documents) && (db, answer) == SweepSpec(c, w) && answer.Ok?
    ensures SweepSpec(c, World(db, w.files)).1 == Ok(answer.value.(repairedStatus := 0))
    ensures SweepSpec(c, World(db, w.files)).0.documents == db.documents
  {
    hide SweepSpec, Judge, Readable, DistinctIds, Problems, Absences, Repairs, Assessed, AssessedAll, Reported, Append;
    SweepFinds(c, w, db, answer);
    StillReadable(c, w.files, w.db.documents);
    SecondLook(c, w.files, w.db.documents);
    var (db2, answer2) := SweepSpec(c, World(db, w.files));
    SweepFinds(c, World(db, w.files), db2, answer2);
  }

  // ---------- an untouched vault ----------

  ghost predicate AllSound(c: Config, files: Files, docs: seq<Document>) {
    forall i :: 0 <= i < |docs| ==> Judge(c, files, docs[i]).Sound? && docs[i].integrity.Intact?
  }

  lemma {:induction false} CleanSweepDocs(c: Config, files: Files, db: DbState, docs: seq<Document>)
    requires AllSound(c, files, docs)
    ensures SweepDocs(c, files, Sweeping(db, EMPTY_REPORT), docs) == Sweeping(db, SweepReport(|docs|, 0, 0, |docs|, 0, []))
  {
    hide Judge, Marked;
    if docs != [] { CleanSweepDocs(c, files, db, docs[..|docs| - 1]); }
  }

  lemma ActiveIsSound(c: Config, w: World)
    requires Inv(c, w)
    ensures AllSound(c, w.files, w.db.documents)
  {
    forall i | 0 <= i < |w.db.documents|
      ensures Judge(c, w.files, w.db.documents[i]).Sound? && w.db.documents[i].integrity.Intact?
    {
      ActiveIsClaimed(c, w, i);
      VerdictsAre(c, w.files, w.db.documents[i]);
    }
  }

  /** A vault that only its own operations touched sweeps clean: nothing is missing, altered or repaired, the records stay
      as they are, and the log gains the one entry that says so. */
  lemma UntouchedVaultSweepsClean(c: Config, w: World)
    requires Inv(c, w)
    ensures var n := |w.db.documents|;
            SweepSpec(c, w) == (Noted(c.ink, w.db, "vault-audit", "sweep", "vault", Counts(n, n, 0, 0)),
                                Ok(SweepReport(n, 0, 0, n, 0, [])))
    ensures Inv(c, w.(db := SweepSpec(c, w).0)) && Steady(w, w.(db := SweepSpec(c, w).0))
    ensures Purged(SweepSpec(c, w).0) == Purged(w.db) && SameIntake(w.db.audit, SweepSpec(c, w).0.audit)
  {
    hide Inv, Judge, SweepDocs, Append, Steady, Recs, Placing, Balance, CountAction, Live;
    var docs := w.db.documents;
    ActiveIsSound(c, w);
    CleanSweepDocs(c, w.files, w.db, docs);
    assert docs[..|docs|] == docs;
    SweepPlacesNothing();
    NotedKeepsInv(c, w, "vault-audit", "sweep", "vault", Counts(|docs|, |docs|, 0, 0));
  }

  lemma SweepPlacesNothing()
    ensures !Placing("sweep")
  {}
}
