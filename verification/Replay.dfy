/** Reading the audit log as the history of the vault: what folding it from nothing rebuilds, and what it counts. */
module Replay {
  import opened Documents
  import opened AuditChain
  import opened Store

  /** The active paths and the trashed paths by vault id. */
  datatype Replayed = Replayed(active: map<string, Path>, trash: map<string, Path>)

  /** The actions that say where documents are. */
  predicate Arrival(action: string) {
    action == "admit" || action == "import"
  }

  predicate Relocation(action: string) {
    action == "rename" || action == "move"
  }

  predicate Placing(action: string) {
    Arrival(action) || Relocation(action) || action == "soft_delete" || action == "restore" || action == "destroy_executed"
  }

  function Replaying(r: Replayed, action: string, subject: string, detail: Detail): Replayed {
    if Arrival(action) && detail.Placed? then r.(active := r.active[detail.vaultId := detail.path])
    else if Relocation(action) && detail.Relocated? then r.(active := r.active[detail.vaultId := detail.to])
    else if action == "soft_delete" && subject in r.active then
      Replayed(r.active - {subject}, r.trash[subject := r.active[subject]])
    else if action == "restore" && detail.About? && detail.vaultId in r.trash then
      Replayed(r.active[detail.vaultId := r.trash[detail.vaultId]], r.trash - {detail.vaultId})
    else if action == "destroy_executed" && detail.About? then r.(active := r.active - {detail.vaultId})
    else r
  }

  function ReplayLog(log: Log): Replayed {
    if log == [] then Replayed(map[], map[])
    else
      var e := log[|log| - 1];
      Replaying(ReplayLog(log[..|log| - 1]), e.action, e.subject, e.detail)
  }

  function CountAction(log: Log, action: string): nat {
    if log == [] then 0 else CountAction(log[..|log| - 1], action) + (if log[|log| - 1].action == action then 1 else 0)
  }

  /** Arrivals less destructions. */
  function Balance(log: Log): int {
    CountAction(log, "admit") + CountAction(log, "import") - CountAction(log, "destroy_executed")
  }

  /** Nothing was admitted, imported or destroyed between these logs. */
  predicate SameIntake(a: Log, b: Log) {
    Balance(a) == Balance(b) && CountAction(a, "admit") == CountAction(b, "admit")
  }

  /** The chain verifies, and its entries are numbered from 0. */
  ghost predicate Chained(hashing: Hashing<Detail>, log: Log) {
    Verified(hashing, log) && forall i :: 0 <= i < |log| ==> log[i].seqNo == i
  }

  function Weight(action: string): int {
    if Arrival(action) then 1 else if action == "destroy_executed" then -1 else 0
  }

  /** What an appended entry does to the replay and to the balance, and that the log still verifies. */
  lemma ReplayAppend(ink: Ink, log: Log, actor: string, action: string, subject: string, detail: Detail, log': Log)
    requires log' == Append(ink, log, actor, action, subject, detail)
    ensures ReplayLog(log') == Replaying(ReplayLog(log), action, subject, detail)
    ensures Balance(log') == Balance(log) + Weight(action)
    ensures forall a :: CountAction(log', a) == CountAction(log, a) + (if a == action then 1 else 0)
    ensures Chained(ink.hashing, log) ==> Chained(ink.hashing, log')
  {
    assert log'[..|log|] == log;
    if Verified(ink.hashing, log) { VerifiedAppend(ink.hashing, log, log'[|log|]); }
  }

  /** Each kind of entry replays in its own way. */
  lemma ReplayOther(r: Replayed, action: string, subject: string, detail: Detail)
    requires !Placing(action)
    ensures Replaying(r, action, subject, detail) == r && Weight(action) == 0 && action != "admit"
  {}

  lemma ReplayArrival(r: Replayed, action: string, subject: string, id: string, path: Path)
    requires Arrival(action)
    ensures Replaying(r, action, subject, Placed(id, path)) == r.(active := r.active[id := path]) && Weight(action) == 1
  {}

  lemma ReplayRelocation(r: Replayed, action: string, subject: string, id: string, from: Path, to: Path)
    requires Relocation(action)
    ensures Replaying(r, action, subject, Relocated(id, from, to)) == r.(active := r.active[id := to])
    ensures Weight(action) == 0 && action != "admit"
  {}

  lemma ReplayTrashing(r: Replayed, id: string, detail: Detail)
    requires id in r.active
    ensures Replaying(r, "soft_delete", id, detail) == Replayed(r.active - {id}, r.trash[id := r.active[id]])
    ensures Weight("soft_delete") == 0 && "soft_delete" != "admit"
  {}

  lemma ReplayRestoring(r: Replayed, subject: string, id: string, note: string)
    requires id in r.trash
    ensures Replaying(r, "restore", subject, About(id, note)) == Replayed(r.active[id := r.trash[id]], r.trash - {id})
    ensures Weight("restore") == 0 && "restore" != "admit"
  {}

  lemma ReplayDestroying(r: Replayed, subject: string, id: string, note: string)
    ensures Replaying(r, "destroy_executed", subject, About(id, note)) == r.(active := r.active - {id})
    ensures Weight("destroy_executed") == -1
  {}

  // ---------- keys ----------

  lemma KeysWith<K, V>(a: map<K, V>, b: map<K, V>, k: K, v: V)
    requires a.Keys !! b.Keys && k !in b
    ensures a[k := v].Keys == a.Keys + {k} && a[k := v].Keys !! b.Keys
  {}

  /** A key changes sides. */
  lemma KeysAcross<K, V>(a: map<K, V>, b: map<K, V>, k: K, v: V)
    requires a.Keys !! b.Keys && k in a
    ensures (a - {k}).Keys !! b[k := v].Keys && (a - {k}).Keys + b[k := v].Keys == a.Keys + b.Keys
  {}

  lemma SizesAcross<K, V>(a: map<K, V>, b: map<K, V>, k: K, v: V)
    requires k in a && k !in b
    ensures |a - {k}| == |a| - 1 && |b[k := v]| == |b| + 1
  {
    assert (a - {k}).Keys == a.Keys - {k};
    assert |a - {k}| == |(a - {k}).Keys|;
  }

  /** Is the map exactly the paths of these documents? */
  ghost predicate ActiveIs(docs: seq<Document>, m: map<string, Path>) {
    && (forall i :: 0 <= i < |docs| ==> docs[i].vaultId in m && m[docs[i].vaultId] == docs[i].relPath)
    && (forall id :: id in m ==> HasId(docs, id))
  }

  /** Does the map hold the paths of these documents, and perhaps more? */
  ghost predicate Covers(m: map<string, Path>, docs: seq<Document>) {
    forall i :: 0 <= i < |docs| ==> docs[i].vaultId in m && m[docs[i].vaultId] == docs[i].relPath
  }

  ghost predicate DistinctIds(docs: seq<Document>) {
    forall i, j :: 0 <= i < j < |docs| ==> docs[i].vaultId != docs[j].vaultId
  }

  // ---------- how the documents and the map change together ----------

  lemma ActiveAdd(docs: seq<Document>, d: Document, m: map<string, Path>)
    requires ActiveIs(docs, m) && d.vaultId !in m
    ensures ActiveIs(docs + [d], m[d.vaultId := d.relPath]) && (DistinctIds(docs) ==> DistinctIds(docs + [d]))
    ensures forall id :: HasId(docs + [d], id) <==> HasId(docs, id) || id == d.vaultId
  {
    var ds := docs + [d];
    forall id
      ensures HasId(ds, id) <==> HasId(docs, id) || id == d.vaultId
    {
      if HasId(docs, id) {
        var i :| 0 <= i < |docs| && docs[i].vaultId == id;
        assert ds[i].vaultId == id;
      }
      if id == d.vaultId { assert ds[|docs|].vaultId == id; }
    }
    forall i | 0 <= i < |ds|
      ensures ds[i].vaultId in m[d.vaultId := d.relPath] && m[d.vaultId := d.relPath][ds[i].vaultId] == ds[i].relPath
    {
      if i < |docs| { assert docs[i].vaultId in m; }
    }
    if DistinctIds(docs) {
      forall i, j | 0 <= i < j < |ds|
        ensures ds[i].vaultId != ds[j].vaultId
      {
        assert docs[i].vaultId in m;
      }
    }
  }

  lemma ActiveUpdate(docs: seq<Document>, i: nat, d: Document, m: map<string, Path>)
    requires ActiveIs(docs, m) && DistinctIds(docs) && i < |docs| && docs[i].vaultId == d.vaultId
    ensures d.vaultId in m
    ensures ActiveIs(docs[i := d], m[d.vaultId := d.relPath]) && DistinctIds(docs[i := d])
    ensures forall id :: HasId(docs[i := d], id) <==> HasId(docs, id)
  {
    var ds := docs[i := d];
    assert forall k :: 0 <= k < |ds| ==> ds[k].vaultId == docs[k].vaultId;
    forall id
      ensures HasId(ds, id) <==> HasId(docs, id)
    {
      if HasId(docs, id) {
        var k :| 0 <= k < |docs| && docs[k].vaultId == id;
        assert ds[k].vaultId == id;
      }
    }
  }

  lemma ActiveRemove(docs: seq<Document>, i: nat, m: map<string, Path>)
    requires ActiveIs(docs, m) && DistinctIds(docs) && i < |docs|
    ensures docs[i].vaultId in m && m[docs[i].vaultId] == docs[i].relPath
    ensures ActiveIs(Without(docs, i), m - {docs[i].vaultId}) && DistinctIds(Without(docs, i))
    ensures forall id :: HasId(Without(docs, i), id) <==> HasId(docs, id) && id != docs[i].vaultId
  {
    IdsWithout(docs, i);
    DistinctWithout(docs, i);
    hide HasId, DistinctIds;
    var ds := Without(docs, i);
    forall k | 0 <= k < |ds|
      ensures ds[k].vaultId in m - {docs[i].vaultId} && m[ds[k].vaultId] == ds[k].relPath
    {
      var j := if k < i then k else k + 1;
      assert ds[k] == docs[j] && docs[j].vaultId != docs[i].vaultId;
    }
  }

  lemma DistinctWithout(docs: seq<Document>, i: nat)
    requires DistinctIds(docs) && i < |docs|
    ensures DistinctIds(Without(docs, i))
    ensures forall j :: 0 <= j < |docs| && j != i ==> docs[j].vaultId != docs[i].vaultId
  {
    var ds := Without(docs, i);
    assert forall k :: 0 <= k < |ds| ==> ds[k] == docs[if k < i then k else k + 1];
  }

  lemma IdsWithout(docs: seq<Document>, i: nat)
    requires DistinctIds(docs) && i < |docs|
    ensures forall id :: HasId(Without(docs, i), id) <==> HasId(docs, id) && id != docs[i].vaultId
  {
    var ds := Without(docs, i);
    assert forall k :: 0 <= k < |ds| ==> ds[k] == docs[if k < i then k else k + 1];
    forall id
      ensures HasId(ds, id) <==> HasId(docs, id) && id != docs[i].vaultId
    {
      if HasId(docs, id) && id != docs[i].vaultId {
        var k :| 0 <= k < |docs| && docs[k].vaultId == id;
        assert ds[if k < i then k else k - 1].vaultId == id;
      }
    }
  }

  lemma CoversAdd(m: map<string, Path>, docs: seq<Document>, d: Document)
    requires Covers(m, docs) && d.vaultId !in m
    ensures Covers(m[d.vaultId := d.relPath], docs + [d]) && (DistinctIds(docs) ==> DistinctIds(docs + [d]))
  {
    var ds := docs + [d];
    forall i | 0 <= i < |ds|
      ensures ds[i].vaultId in m[d.vaultId := d.relPath] && m[d.vaultId := d.relPath][ds[i].vaultId] == ds[i].relPath
    {
      if i < |docs| { assert docs[i].vaultId in m; }
    }
  }

  lemma CoversRemove(m: map<string, Path>, docs: seq<Document>, i: nat)
    requires Covers(m, docs) && DistinctIds(docs) && i < |docs|
    ensures docs[i].vaultId in m && m[docs[i].vaultId] == docs[i].relPath
    ensures Covers(m - {docs[i].vaultId}, Without(docs, i)) && Covers(m, Without(docs, i))
    ensures DistinctIds(Without(docs, i))
  {
    var ds := Without(docs, i);
    assert forall k :: 0 <= k < |ds| ==> ds[k] == docs[if k < i then k else k + 1];
  }
}
