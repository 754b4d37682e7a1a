/** The vault database in memory (vault-store): its state as a value, and `VaultDb`, which changes it in place. */
module Store {
  import opened Common
  import opened Documents
  import opened AuditChain

  /** The detail of an audit entry, as a record of its fields. */
  datatype Detail =
    | Placed(vaultId: string, path: Path)
    | Relocated(vaultId: string, from: Path, to: Path)
    | About(vaultId: string, note: string)
    | Note(text: string)
    | Counts(checked: nat, ok: nat, missing: nat, tampered: nat)

  type Entry = AuditEntry<Detail>

  type Log = seq<Entry>

  /** What appending an entry reads besides the log: the digest, and the clock, given for each entry number. */
  datatype Ink = Ink(hashing: Hashing<Detail>, clock: nat -> string)

  datatype DbState = DbState(
    documents: seq<Document>,
    submissions: seq<Submission>,
    audit: Log,
    trashed: seq<TrashedDocument>,
    versions: seq<DocumentVersion>)

  // ---------- positions ----------

  predicate HasId(docs: seq<Document>, id: string) {
    exists i :: 0 <= i < |docs| && docs[i].vaultId == id
  }

  /** The first document with the id, or the length. */
  function DocIndex(docs: seq<Document>, id: string): (i: nat)
    ensures i <= |docs| && (i < |docs| ==> docs[i].vaultId == id)
    ensures forall j :: 0 <= j < i ==> docs[j].vaultId != id
    ensures i == |docs| <==> !HasId(docs, id)
  {
    if docs == [] || docs[0].vaultId == id then 0
    else
      var i := 1 + DocIndex(docs[1..], id);
      assert forall j :: 0 < j < i ==> docs[j] == docs[1..][j - 1];
      assert forall j :: 0 < j < |docs| ==> docs[j] == docs[1..][j - 1];
      i
  }

  function ShaIndex(docs: seq<Document>, sha256: string): (i: nat)
    ensures i <= |docs| && (i < |docs| ==> docs[i].sha256 == sha256)
    ensures i == |docs| ==> forall j :: 0 <= j < |docs| ==> docs[j].sha256 != sha256
  {
    if docs == [] || docs[0].sha256 == sha256 then 0
    else
      assert forall j :: 0 < j < |docs| ==> docs[j] == docs[1..][j - 1];
      1 + ShaIndex(docs[1..], sha256)
  }

  function TrashIndex(trashed: seq<TrashedDocument>, id: string): (i: nat)
    ensures i <= |trashed| && (i < |trashed| ==> trashed[i].document.vaultId == id)
    ensures i == |trashed| ==> forall j :: 0 <= j < |trashed| ==> trashed[j].document.vaultId != id
  {
    if trashed == [] || trashed[0].document.vaultId == id then 0
    else
      assert forall j :: 0 < j < |trashed| ==> trashed[j] == trashed[1..][j - 1];
      1 + TrashIndex(trashed[1..], id)
  }

  function SubIndex(subs: seq<Submission>, id: string): (i: nat)
    ensures i <= |subs| && (i < |subs| ==> subs[i].submissionId == id)
    ensures forall j :: 0 <= j < i ==> subs[j].submissionId != id
  {
    if subs == [] || subs[0].submissionId == id then 0
    else
      var i := 1 + SubIndex(subs[1..], id);
      assert forall j :: 0 < j < i ==> subs[j] == subs[1..][j - 1];
      i
  }

  function Without<T>(s: seq<T>, i: nat): seq<T>
    requires i < |s|
  {
    s[..i] + s[i + 1..]
  }

  // ---------- what the operations compute ----------

  function Append(ink: Ink, log: Log, actor: string, action: string, subject: string, detail: Detail): Log {
    log + [AuditEntry(|log|, ink.clock(|log|), actor, action, subject, detail, Head(ink.hashing, log))]
  }

  lemma AppendGrows(ink: Ink, log: Log, actor: string, action: string, subject: string, detail: Detail)
    ensures log <= Append(ink, log, actor, action, subject, detail)
    ensures |Append(ink, log, actor, action, subject, detail)| == |log| + 1
    ensures Append(ink, log, actor, action, subject, detail)[|log|].action == action
    ensures Append(ink, log, actor, action, subject, detail)[|log|].detail == detail
  {}

  function Noted(ink: Ink, db: DbState, actor: string, action: string, subject: string, detail: Detail): DbState {
    db.(audit := Append(ink, db.audit, actor, action, subject, detail))
  }

  /** The first document with the same id is replaced. */
  function Updated(docs: seq<Document>, doc: Document): seq<Document> {
    var i := DocIndex(docs, doc.vaultId);
    if i < |docs| then docs[i := doc] else docs
  }

  /** Every document with the id gets the status. */
  function Marked(docs: seq<Document>, id: string, status: IntegrityStatus): seq<Document> {
    seq(|docs|, i requires 0 <= i < |docs| => MarkedDoc(docs[i], id, status))
  }

  function MarkedDoc(doc: Document, id: string, status: IntegrityStatus): Document {
    if doc.vaultId == id then doc.(integrity := status) else doc
  }

  function Removed(docs: seq<Document>, id: string): seq<Document> {
    var i := DocIndex(docs, id);
    if i < |docs| then Without(docs, i) else docs
  }

  /** Stable insertion by version number. */
  function InsertVersion(vs: seq<DocumentVersion>, v: DocumentVersion): seq<DocumentVersion> {
    if vs != [] && vs[|vs| - 1].version > v.version then InsertVersion(vs[..|vs| - 1], v) + [vs[|vs| - 1]] else vs + [v]
  }

  /** `versions_of`: the versions of one document, sorted by number. */
  function VersionsOf(vs: seq<DocumentVersion>, id: string): seq<DocumentVersion> {
    if vs == [] then []
    else
      var v := vs[|vs| - 1];
      var before := VersionsOf(vs[..|vs| - 1], id);
      if v.vaultId == id then InsertVersion(before, v) else before
  }

  /** The number that the next version of a document gets. */
  function NextVersion(vs: seq<DocumentVersion>, id: string): nat {
    var own := VersionsOf(vs, id);
    if own == [] then 1 else own[|own| - 1].version + 1
  }

  function CountVersions(vs: seq<DocumentVersion>, id: string): nat {
    if vs == [] then 0 else CountVersions(vs[..|vs| - 1], id) + (if vs[|vs| - 1].vaultId == id then 1 else 0)
  }

  /** Each version is numbered one more than the earlier versions of its document. */
  predicate Numbered(vs: seq<DocumentVersion>) {
    forall i :: 0 <= i < |vs| ==> vs[i].version == CountVersions(vs[..i], vs[i].vaultId) + 1
  }

  lemma NumberedPrefix(vs: seq<DocumentVersion>, n: nat)
    requires Numbered(vs) && n <= |vs|
    ensures Numbered(vs[..n])
  {
    forall i | 0 <= i < n
      ensures vs[..n][i].version == CountVersions(vs[..n][..i], vs[..n][i].vaultId) + 1
    {
      assert vs[..n][..i] == vs[..i];
    }
  }

  /** The versions of a document are 1 to n, with no gap and no repeat, and the next one is n + 1. */
  lemma {:induction false} VersionsAreGapFree(vs: seq<DocumentVersion>, id: string)
    requires Numbered(vs)
    ensures |VersionsOf(vs, id)| == CountVersions(vs, id)
    ensures forall k :: 0 <= k < |VersionsOf(vs, id)| ==>
              VersionsOf(vs, id)[k].version == k + 1 && VersionsOf(vs, id)[k].vaultId == id && VersionsOf(vs, id)[k] in vs
    ensures NextVersion(vs, id) == CountVersions(vs, id) + 1
  {
    if vs != [] {
      var n := |vs| - 1;
      NumberedPrefix(vs, n);
      VersionsAreGapFree(vs[..n], id);
      var before := VersionsOf(vs[..n], id);
      if vs[n].vaultId == id { assert InsertVersion(before, vs[n]) == before + [vs[n]]; }
    }
  }

  lemma NumberedExtend(vs: seq<DocumentVersion>, v: DocumentVersion)
    requires Numbered(vs) && v.version == NextVersion(vs, v.vaultId)
    ensures Numbered(vs + [v])
  {
    VersionsAreGapFree(vs, v.vaultId);
    var ws := vs + [v];
    forall i | 0 <= i < |ws|
      ensures ws[i].version == CountVersions(ws[..i], ws[i].vaultId) + 1
    {
      if i < |vs| { assert ws[..i] == vs[..i]; } else { assert ws[..i] == vs; }
    }
  }

  // ---------- the database object ----------

  /** What the file holds after an operation that flushes after each entry it writes. */
  function Saved(readOnly: bool, before: DbState, after: DbState, flushed: DbState): DbState {
    if !readOnly && |after.audit| > |before.audit| then after else flushed
  }

  class VaultDb {
    const ink: Ink
    const readOnly: bool
    var state: DbState
    var flushed: DbState

    /** The database as it was read when it was opened; `flushed` is what the file holds. */
    constructor (ink: Ink, readOnly: bool, state: DbState)
      ensures this.ink == ink && this.readOnly == readOnly && this.state == state && flushed == state
    {
      this.ink := ink;
      this.readOnly := readOnly;
      this.state := state;
      this.flushed := state;
    }

    /** `flush`; the file is written whole, or not at all by a process that only consults. */
    method Flush() returns (ok: bool)
      modifies this`flushed
      ensures ok == !readOnly
      ensures flushed == if ok then state else old(flushed)
    {
      if readOnly { return false; }
      flushed := state;
      return true;
    }

    /** `add_document` */
    method AddDocument(doc: Document)
      modifies this`state
      ensures state == old(state).(documents := old(state).documents + [doc])
    {
      state := state.(documents := state.documents + [doc]);
    }

    /** `update_integrity` */
    method UpdateIntegrity(id: string, status: IntegrityStatus)
      modifies this`state
      ensures state == old(state).(documents := Marked(old(state).documents, id, status))
    {
      var docs := state.documents;
      for k := 0 to |docs|
        invariant |docs| == |state.documents|
        invariant forall t :: 0 <= t < k ==> docs[t] == MarkedDoc(state.documents[t], id, status)
        invariant forall t :: k <= t < |docs| ==> docs[t] == state.documents[t]
      {
        if docs[k].vaultId == id { docs := docs[k := docs[k].(integrity := status)]; }
      }
      assert docs == Marked(state.documents, id, status);
      state := state.(documents := docs);
    }

    /** `update_document` */
    method UpdateDocument(doc: Document)
      modifies this`state
      ensures state == old(state).(documents := Updated(old(state).documents, doc))
    {
      var docs := state.documents;
      for k := 0 to |docs|
        invariant k <= DocIndex(docs, doc.vaultId)
      {
        if docs[k].vaultId == doc.vaultId {
          state := state.(documents := docs[k := doc]);
          return;
        }
      }
    }

    /** `remove_document` */
    method RemoveDocument(id: string)
      modifies this`state
      ensures state == old(state).(documents := Removed(old(state).documents, id))
    {
      var i := DocIndex(state.documents, id);
      if i < |state.documents| { state := state.(documents := Without(state.documents, i)); }
    }

    /** `trash_document` */
    method TrashDocument(doc: Document, actor: string, at: string, reason: string)
      modifies this`state
      ensures state == old(state).(documents := Removed(old(state).documents, doc.vaultId),
                                   trashed := old(state).trashed + [TrashedDocument(doc, actor, at, reason)])
    {
      RemoveDocument(doc.vaultId);
      state := state.(trashed := state.trashed + [TrashedDocument(doc, actor, at, reason)]);
    }

    /** `restore_trashed` */
    method RestoreTrashed(id: string) returns (r: Option<Document>)
      modifies this`state
      ensures var i := TrashIndex(old(state).trashed, id);
              if i == |old(state).trashed| then r.None? && state == old(state)
              else r == Some(old(state).trashed[i].document)
                   && state == old(state).(trashed := Without(old(state).trashed, i),
                                           documents := old(state).documents + [old(state).trashed[i].document])
    {
      var i := TrashIndex(state.trashed, id);
      if i == |state.trashed| { return None; }
      var t := state.trashed[i];
      state := state.(trashed := Without(state.trashed, i));
      state := state.(documents := state.documents + [t.document]);
      return Some(t.document);
    }

    /** `purge_trashed` */
    method PurgeTrashed(id: string) returns (r: Option<TrashedDocument>)
      modifies this`state
      ensures var i := TrashIndex(old(state).trashed, id);
              if i == |old(state).trashed| then r.None? && state == old(state)
              else r == Some(old(state).trashed[i]) && state == old(state).(trashed := Without(old(state).trashed, i))
    {
      var i := TrashIndex(state.trashed, id);
      if i == |state.trashed| { return None; }
      r := Some(state.trashed[i]);
      state := state.(trashed := Without(state.trashed, i));
    }

    /** `add_version` */
    method AddVersion(v: DocumentVersion)
      modifies this`state
      ensures state == old(state).(versions := old(state).versions + [v])
    {
      state := state.(versions := state.versions + [v]);
    }

    /** `add_submission` */
    method AddSubmission(sub: Submission)
      modifies this`state
      ensures state == old(state).(submissions := old(state).submissions + [sub])
    {
      state := state.(submissions := state.submissions + [sub]);
    }

    /** `update_submission_state` */
    method UpdateSubmissionState(id: string, s: AdmissionState) returns (ok: bool)
      modifies this`state
      ensures var i := SubIndex(old(state).submissions, id);
              ok == (i < |old(state).submissions|)
              && state == if ok
                          then old(state).(submissions := old(state).submissions[i := old(state).submissions[i].(state := s)])
                          else old(state)
    {
      var i := SubIndex(state.submissions, id);
      ok := i < |state.submissions|;
      if ok { state := state.(submissions := state.submissions[i := state.submissions[i].(state := s)]); }
    }

    /** `append_audit` */
    method AppendAudit(actor: string, action: string, subject: string, detail: Detail) returns (hash: string)
      modifies this`state
      ensures state == Noted(ink, old(state), actor, action, subject, detail)
      ensures |state.audit| == |old(state).audit| + 1
      ensures hash == Head(ink.hashing, state.audit)
      ensures Verified(ink.hashing, old(state).audit) ==> Verified(ink.hashing, state.audit)
    {
      var prevHash := Head(ink.hashing, state.audit);
      var e := AuditEntry(|state.audit|, ink.clock(|state.audit|), actor, action, subject, detail, prevHash);
      hash := ContentHash(ink.hashing, e);
      if Verified(ink.hashing, state.audit) { VerifiedAppend(ink.hashing, state.audit, e); }
      state := state.(audit := state.audit + [e]);
    }
  }
}
