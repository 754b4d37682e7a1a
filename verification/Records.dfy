/** Which files the database claims: every active, trashed and version record with its path and digest, and the agreement
    of those claims with the files. */
module Records {
  import opened Common
  import opened Documents
  import opened Paths
  import opened Store
  import opened Custody
  import opened Replay

  /** A claim on a file. Documents are version 0; versions carry no BLAKE3 digest. */
  datatype Rec = Rec(id: string, version: nat, path: Path, sha256: string, blake3: Option<string>)

  function DocRec(d: Document): Rec {
    Rec(d.vaultId, 0, d.relPath, d.sha256, Some(d.blake3))
  }

  function VersionRec(v: DocumentVersion): Rec {
    Rec(v.vaultId, v.version, v.relPath, v.sha256, None)
  }

  function TrashedDocs(trashed: seq<TrashedDocument>): seq<Document> {
    seq(|trashed|, i requires 0 <= i < |trashed| => trashed[i].document)
  }

  ghost function DocRecs(docs: seq<Document>): set<Rec> {
    set i | 0 <= i < |docs| :: DocRec(docs[i])
  }

  ghost function VersionRecs(vs: seq<DocumentVersion>): set<Rec> {
    set i | 0 <= i < |vs| :: VersionRec(vs[i])
  }

  ghost function Recs(db: DbState): set<Rec> {
    DocRecs(db.documents) + DocRecs(TrashedDocs(db.trashed)) + VersionRecs(db.versions)
  }

  predicate Holds(c: Config, r: Rec, f: File) {
    c.sha256(f.content) == r.sha256 && (r.blake3.Some? ==> c.blake3(f.content) == r.blake3.value)
  }

  /** Every claim names a file with the claimed content, and no file is claimed twice. */
  ghost predicate Agree(c: Config, recs: set<Rec>, files: Files) {
    && (forall r :: r in recs ==> r.path in files && Holds(c, r, files[r.path]))
    && (forall r, q :: r in recs && q in recs && r.path == q.path ==> r == q)
  }

  /** Claims that stay keep their file's seal as it is, and new claims are on sealed files. */
  ghost predicate KeptSeals(recs: set<Rec>, files: Files, recs': set<Rec>, files': Files) {
    forall r :: r in recs' ==>
      && r.path in files'
      && (if r in recs then r.path in files && files'[r.path].isSealed == files[r.path].isSealed else files'[r.path].isSealed)
  }

  /** The file of one claim loses its seal, if it had it, and no other seal changes. */
  ghost predicate LostSeal(recs: set<Rec>, files: Files, files': Files, r: Rec) {
    forall q :: q in recs ==>
      q.path in files && q.path in files' && (files'[q.path].isSealed <==> files[q.path].isSealed && q != r)
  }

  lemma KeptSealsCompose(a: set<Rec>, fa: Files, b: set<Rec>, fb: Files, d: set<Rec>, fd: Files)
    requires KeptSeals(a, fa, b, fb) && KeptSeals(b, fb, d, fd) && a * d <= b
    ensures KeptSeals(a, fa, d, fd)
  {}

  // ---------- claims of sequences ----------

  lemma DocRecsAdd(docs: seq<Document>, d: Document)
    ensures DocRecs(docs + [d]) == DocRecs(docs) + {DocRec(d)}
  {
    var ds := docs + [d];
    forall r
      ensures r in DocRecs(ds) <==> r in DocRecs(docs) + {DocRec(d)}
    {
      if r in DocRecs(docs) {
        var i :| 0 <= i < |docs| && r == DocRec(docs[i]);
        assert r == DocRec(ds[i]);
      }
      if r == DocRec(d) { assert r == DocRec(ds[|docs|]); }
    }
  }

  lemma DocRecsUpdate(docs: seq<Document>, i: nat, d: Document)
    requires DistinctIds(docs) && i < |docs|
    ensures DocRecs(docs[i := d]) == DocRecs(docs) - {DocRec(docs[i])} + {DocRec(d)}
  {
    var ds := docs[i := d];
    forall r
      ensures r in DocRecs(ds) <==> r in DocRecs(docs) - {DocRec(docs[i])} + {DocRec(d)}
    {
      if r in DocRecs(docs) && r != DocRec(docs[i]) {
        var k :| 0 <= k < |docs| && r == DocRec(docs[k]);
        assert r == DocRec(ds[k]);
      }
      if r == DocRec(d) { assert r == DocRec(ds[i]); }
    }
  }

  lemma DocRecsRemove(docs: seq<Document>, i: nat)
    requires DistinctIds(docs) && i < |docs|
    ensures DocRecs(Without(docs, i)) == DocRecs(docs) - {DocRec(docs[i])}
  {
    var ds := Without(docs, i);
    assert forall k :: 0 <= k < |ds| ==> ds[k] == docs[if k < i then k else k + 1];
    forall r
      ensures r in DocRecs(ds) <==> r in DocRecs(docs) - {DocRec(docs[i])}
    {
      if r in DocRecs(docs) && r != DocRec(docs[i]) {
        var k :| 0 <= k < |docs| && r == DocRec(docs[k]);
        assert r == DocRec(ds[if k < i then k else k - 1]);
      }
    }
  }

  lemma VersionRecsAdd(vs: seq<DocumentVersion>, v: DocumentVersion)
    ensures VersionRecs(vs + [v]) == VersionRecs(vs) + {VersionRec(v)}
  {
    var ws := vs + [v];
    forall r
      ensures r in VersionRecs(ws) <==> r in VersionRecs(vs) + {VersionRec(v)}
    {
      if r in VersionRecs(vs) {
        var i :| 0 <= i < |vs| && r == VersionRec(vs[i]);
        assert r == VersionRec(ws[i]);
      }
      if r == VersionRec(v) { assert r == VersionRec(ws[|vs|]); }
    }
  }

  lemma TrashedDocsAdd(trashed: seq<TrashedDocument>, t: TrashedDocument)
    ensures TrashedDocs(trashed + [t]) == TrashedDocs(trashed) + [t.document]
  {}

  lemma TrashedDocsRemove(trashed: seq<TrashedDocument>, i: nat)
    requires i < |trashed|
    ensures TrashedDocs(Without(trashed, i)) == Without(TrashedDocs(trashed), i)
  {}

  // ---------- claims and files change together ----------

  /** A new claim on a file that nothing claimed. */
  lemma AgreeAdd(c: Config, recs: set<Rec>, files: Files, r: Rec, f: File, files': Files)
    requires Agree(c, recs, files) && (forall q :: q in recs ==> q.path != r.path) && Holds(c, r, f)
    requires r.path in files' && files'[r.path] == f
    requires forall q :: q in recs ==> q.path in files' && files'[q.path] == files[q.path]
    ensures Agree(c, recs + {r}, files')
    ensures f.isSealed ==> KeptSeals(recs, files, recs + {r}, files')
  {}

  /** A claim goes with its file. */
  lemma AgreeRemove(c: Config, recs: set<Rec>, files: Files, r: Rec)
    requires Agree(c, recs, files) && r in recs
    ensures Agree(c, recs - {r}, files - {r.path})
    ensures KeptSeals(recs, files, recs - {r}, files - {r.path})
  {}

  /** Files that no claim names may come and go, and seals may change. */
  lemma AgreeElsewhere(c: Config, recs: set<Rec>, files: Files, files': Files)
    requires Agree(c, recs, files)
    requires forall r :: r in recs ==> r.path in files' && files'[r.path].content == files[r.path].content
    ensures Agree(c, recs, files')
  {}

  /** A file moves and its claim follows. */
  lemma AgreeMove(c: Config, recs: set<Rec>, files: Files, r: Rec, q: Rec)
    requires Agree(c, recs, files) && r in recs && q.path !in files
    requires q.sha256 == r.sha256 && q.blake3 == r.blake3
    ensures Agree(c, recs - {r} + {q}, (files - {r.path})[q.path := File(files[r.path].content, true)])
    ensures KeptSeals(recs, files, recs - {r} + {q}, (files - {r.path})[q.path := File(files[r.path].content, true)])
  {
    var f := File(files[r.path].content, true);
    var rest := files - {r.path};
    AgreeRemove(c, recs, files, r);
    AgreeAdd(c, recs - {r}, rest, q, f, rest[q.path := f]);
  }
}
