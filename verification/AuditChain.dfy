/** The hash-linked audit log: what a verified chain and its head hash determine.
    The digest is a parameter of 64-character results. It cannot be injective, so every claim reads:
    the chains agree, or two texts taken from them collide, or one of those texts hashes to the genesis value. */
module AuditChain {
  import opened Common
  import opened Text

  const AUDIT_GENESIS: string := "0000000000000000000000000000000000000000000000000000000000000000"

  const HASH_LEN := 64

  /** `AuditEntry`, with the detail kept as a record of its fields. */
  datatype AuditEntry<+D> = AuditEntry(
    seqNo: nat,
    timestamp: string,
    actor: string,
    action: string,
    subject: string,
    detail: D,
    prevHash: string)

  /** SHA-256 of a text in hex, and the text of a detail record. */
  datatype Hashing<!D> = Hashing(sha: string -> string, render: D -> string)

  ghost predicate Digests<D>(h: Hashing<D>) {
    forall t :: |h.sha(t)| == HASH_LEN
  }

  function Canonical<D>(h: Hashing<D>, e: AuditEntry<D>): string {
    ToDec(e.seqNo) + "|" + (e.timestamp + "|" + (e.actor + "|" + (e.action + "|" + (e.subject + "|"
    + (h.render(e.detail) + "|" + e.prevHash)))))
  }

  function ContentHash<D>(h: Hashing<D>, e: AuditEntry<D>): string {
    h.sha(Canonical(h, e))
  }

  /** `audit_head` */
  function Head<D>(h: Hashing<D>, log: seq<AuditEntry<D>>): string {
    if log == [] then AUDIT_GENESIS else ContentHash(h, log[|log| - 1])
  }

  /** The link of entry `i` is the head of everything before it. */
  predicate Linked<D>(h: Hashing<D>, log: seq<AuditEntry<D>>, i: nat)
    requires i < |log|
  {
    log[i].prevHash == Head(h, log[..i])
  }

  predicate Verified<D>(h: Hashing<D>, log: seq<AuditEntry<D>>) {
    forall i :: 0 <= i < |log| ==> Linked(h, log, i)
  }

  /** `verify_audit_chain`: the error carries the number of the first entry with a wrong link. */
  method VerifyAuditChain<D>(h: Hashing<D>, log: seq<AuditEntry<D>>) returns (r: Result<(), nat>)
    ensures r.Ok? <==> Verified(h, log)
    ensures r.Err? ==> exists i :: 0 <= i < |log| && !Linked(h, log, i) && Verified(h, log[..i]) && r.error == log[i].seqNo
  {
    var prev := AUDIT_GENESIS;
    for i := 0 to |log|
      invariant prev == Head(h, log[..i])
      invariant Verified(h, log[..i])
    {
      var e := log[i];
      if e.prevHash != prev {
        assert !Linked(h, log, i);
        return Err(e.seqNo);
      }
      prev := ContentHash(h, e);
      VerifiedExtend(h, log, i);
    }
    assert log[..|log|] == log;
    return Ok(());
  }

  lemma VerifiedExtend<D>(h: Hashing<D>, log: seq<AuditEntry<D>>, n: nat)
    requires n < |log| && Verified(h, log[..n]) && Linked(h, log, n)
    ensures Verified(h, log[..n + 1])
  {
    var longer := log[..n + 1];
    forall i | 0 <= i < |longer|
      ensures Linked(h, longer, i)
    {
      assert longer[..i] == log[..i];
      if i < n {
        assert log[..n][..i] == log[..i];
        assert Linked(h, log[..n], i);
      }
    }
  }

  lemma VerifiedPrefix<D>(h: Hashing<D>, log: seq<AuditEntry<D>>, n: nat)
    requires n <= |log| && Verified(h, log)
    ensures Verified(h, log[..n])
  {
    forall i | 0 <= i < n
      ensures Linked(h, log[..n], i)
    {
      assert Linked(h, log, i);
      assert log[..n][..i] == log[..i];
    }
  }

  /** Appending the way `append_audit` does keeps the chain verified. */
  lemma VerifiedAppend<D>(h: Hashing<D>, log: seq<AuditEntry<D>>, e: AuditEntry<D>)
    requires Verified(h, log) && e.prevHash == Head(h, log)
    ensures Verified(h, log + [e])
  {
    var l := log + [e];
    assert l[..|log|] == log;
    VerifiedExtend(h, l, |log|);
    assert l[..|log| + 1] == l;
  }

  // ---------- what the digest may fail at ----------

  ghost function Texts<D>(h: Hashing<D>, log: seq<AuditEntry<D>>): set<string> {
    set i | 0 <= i < |log| :: Canonical(h, log[i])
  }

  /** Two of the given texts collide, or one of them is a preimage of the genesis value. */
  ghost predicate Broken(sha: string -> string, texts: set<string>) {
    (exists x, y :: x in texts && y in texts && x != y && sha(x) == sha(y))
    || (exists x :: x in texts && sha(x) == AUDIT_GENESIS)
  }

  lemma BrokenGrows(sha: string -> string, s: set<string>, t: set<string>)
    requires s <= t && Broken(sha, s)
    ensures Broken(sha, t)
  {}

  lemma BrokenByGenesis(sha: string -> string, texts: set<string>, x: string)
    requires x in texts && sha(x) == AUDIT_GENESIS
    ensures Broken(sha, texts)
  {}

  lemma BrokenByCollision(sha: string -> string, texts: set<string>, x: string, y: string)
    requires x in texts && y in texts && x != y && sha(x) == sha(y)
    ensures Broken(sha, texts)
  {}

  predicate SameTexts<D>(h: Hashing<D>, a: seq<AuditEntry<D>>, b: seq<AuditEntry<D>>) {
    |a| == |b| && forall i :: 0 <= i < |a| ==> Canonical(h, a[i]) == Canonical(h, b[i])
  }

  lemma SameTextsSnoc<D>(h: Hashing<D>, a: seq<AuditEntry<D>>, b: seq<AuditEntry<D>>)
    requires a != [] && b != []
    requires SameTexts(h, a[..|a| - 1], b[..|b| - 1])
    requires Canonical(h, a[|a| - 1]) == Canonical(h, b[|b| - 1])
    ensures SameTexts(h, a, b)
  {
    forall i | 0 <= i < |a|
      ensures Canonical(h, a[i]) == Canonical(h, b[i])
    {
      if i < |a| - 1 { assert a[..|a| - 1][i] == a[i] && b[..|b| - 1][i] == b[i]; }
    }
  }

  /** The link of an entry can be read off its canonical text. */
  lemma CanonicalEndsInLink<D>(h: Hashing<D>, e: AuditEntry<D>)
    ensures |Canonical(h, e)| >= |e.prevHash|
    ensures Canonical(h, e)[|Canonical(h, e)| - |e.prevHash|..] == e.prevHash
  {
    var t5 := h.render(e.detail) + "|" + e.prevHash;
    var t4 := e.subject + "|" + t5;
    var t3 := e.action + "|" + t4;
    var t2 := e.actor + "|" + t3;
    var t1 := e.timestamp + "|" + t2;
    var t0 := ToDec(e.seqNo) + "|" + t1;
    var n := |e.prevHash|;
    assert t5[|t5| - n..] == e.prevHash;
    assert t4[|t4| - n..] == e.prevHash;
    assert t3[|t3| - n..] == e.prevHash;
    assert t2[|t2| - n..] == e.prevHash;
    assert t1[|t1| - n..] == e.prevHash;
    assert t0[|t0| - n..] == e.prevHash;
  }

  lemma HeadLength<D>(h: Hashing<D>, log: seq<AuditEntry<D>>)
    requires Digests(h)
    ensures |Head(h, log)| == HASH_LEN
  {}

  /** Two entries with one text in verified chains follow prefixes with one head. */
  lemma SharedEntrySharesLink<D>(h: Hashing<D>, a: seq<AuditEntry<D>>, b: seq<AuditEntry<D>>, i: nat, j: nat)
    requires Digests(h) && Verified(h, a) && Verified(h, b)
    requires i < |a| && j < |b| && Canonical(h, a[i]) == Canonical(h, b[j])
    ensures Head(h, a[..i]) == Head(h, b[..j]) && Verified(h, a[..i]) && Verified(h, b[..j])
  {
    assert Linked(h, a, i) && Linked(h, b, j);
    HeadLength(h, a[..i]);
    HeadLength(h, b[..j]);
    CanonicalEndsInLink(h, a[i]);
    CanonicalEndsInLink(h, b[j]);
    VerifiedPrefix(h, a, i);
    VerifiedPrefix(h, b, j);
  }

  lemma TextsOfPrefix<D>(h: Hashing<D>, log: seq<AuditEntry<D>>, n: nat)
    requires n <= |log|
    ensures Texts(h, log[..n]) <= Texts(h, log)
  {
    forall t | t in Texts(h, log[..n])
      ensures t in Texts(h, log)
    {
      var i :| 0 <= i < n && t == Canonical(h, log[..n][i]);
      assert log[i] == log[..n][i];
    }
  }

  lemma LastTextIsThere<D>(h: Hashing<D>, log: seq<AuditEntry<D>>)
    requires log != []
    ensures Canonical(h, log[|log| - 1]) in Texts(h, log)
  {}

  /** Two verified chains with one head agree in length and text, or the digest is broken on them. */
  lemma {:induction false} SameHeadSameChain<D>(h: Hashing<D>, a: seq<AuditEntry<D>>, b: seq<AuditEntry<D>>)
    requires Digests(h) && Verified(h, a) && Verified(h, b)
    requires Head(h, a) == Head(h, b)
    ensures SameTexts(h, a, b) || Broken(h.sha, Texts(h, a) + Texts(h, b))
    decreases |a|, 0
  {
    var texts := Texts(h, a) + Texts(h, b);
    if a != [] { LastTextIsThere(h, a); }
    if b != [] { LastTextIsThere(h, b); }
    if a == [] && b == [] {
    } else if a == [] {
      BrokenByGenesis(h.sha, texts, Canonical(h, b[|b| - 1]));
    } else if b == [] {
      BrokenByGenesis(h.sha, texts, Canonical(h, a[|a| - 1]));
    } else if Canonical(h, a[|a| - 1]) == Canonical(h, b[|b| - 1]) {
      SharedEntrySharesPast(h, a, b, |a| - 1, |b| - 1);
      if SameTexts(h, a[..|a| - 1], b[..|b| - 1]) { SameTextsSnoc(h, a, b); }
    } else {
      BrokenByCollision(h.sha, texts, Canonical(h, a[|a| - 1]), Canonical(h, b[|b| - 1]));
    }
  }

  /** Two verified chains that share the text of one entry agree before it, or the digest is broken on them. */
  lemma {:induction false} SharedEntrySharesPast<D>(
      h: Hashing<D>, a: seq<AuditEntry<D>>, b: seq<AuditEntry<D>>, i: nat, j: nat)
    requires Digests(h) && Verified(h, a) && Verified(h, b)
    requires i < |a| && j < |b| && Canonical(h, a[i]) == Canonical(h, b[j])
    ensures SameTexts(h, a[..i], b[..j]) || Broken(h.sha, Texts(h, a) + Texts(h, b))
    decreases i, 1
  {
    SharedEntrySharesLink(h, a, b, i, j);
    SameHeadSameChain(h, a[..i], b[..j]);
    TextsOfPrefix(h, a, i);
    TextsOfPrefix(h, b, j);
    if Broken(h.sha, Texts(h, a[..i]) + Texts(h, b[..j])) {
      BrokenGrows(h.sha, Texts(h, a[..i]) + Texts(h, b[..j]), Texts(h, a) + Texts(h, b));
    }
  }

  /** Rewriting the text of any entry but the last is caught by the verification, or breaks the digest. */
  lemma TamperingIsDetected<D>(h: Hashing<D>, log: seq<AuditEntry<D>>, i: nat, e: AuditEntry<D>)
    requires Digests(h) && Verified(h, log)
    requires i + 1 < |log| && Canonical(h, e) != Canonical(h, log[i])
    ensures Verified(h, log[i := e]) ==> Broken(h.sha, Texts(h, log) + Texts(h, log[i := e]))
  {
    var forged := log[i := e];
    if Verified(h, forged) {
      SharedEntrySharesPast(h, log, forged, i + 1, i + 1);
      assert log[..i + 1][i] == log[i] && forged[..i + 1][i] == e;
    }
  }

  /** The last entry is checked only through its link; the head hash is what covers its content. */
  lemma LastEntryNeedsTheHead<D>(h: Hashing<D>, log: seq<AuditEntry<D>>, e: AuditEntry<D>)
    requires Digests(h) && Verified(h, log) && log != []
    ensures var forged := log[|log| - 1 := e];
            && (Verified(h, forged) <==> e.prevHash == log[|log| - 1].prevHash)
            && (Head(h, forged) == Head(h, log) && Canonical(h, e) != Canonical(h, log[|log| - 1])
                ==> Broken(h.sha, Texts(h, log) + Texts(h, forged)))
  {
    var n := |log| - 1;
    var forged := log[n := e];
    assert forged[..n] == log[..n];
    assert Linked(h, log, n);
    VerifiedPrefix(h, log, n);
    if e.prevHash == log[n].prevHash {
      VerifiedExtend(h, forged, n);
      assert forged[..n + 1] == forged;
    } else {
      assert !Linked(h, forged, n);
    }
    assert Canonical(h, e) in Texts(h, forged) by { assert forged[n] == e; }
    assert Canonical(h, log[n]) in Texts(h, log);
  }

  // ---------- what the canonical text determines ----------

  predicate NoBar(s: string) {
    '|' !in s
  }

  lemma NoBarBefore(a: string, x: string)
    requires NoBar(a)
    ensures forall k :: 0 <= k < |a| ==> (a + "|" + x)[k] != '|'
  {
    forall k | 0 <= k < |a|
      ensures (a + "|" + x)[k] != '|'
    {
      assert (a + "|" + x)[k] == a[k];
    }
  }

  lemma FirstBar(a: string, x: string, b: string, y: string)
    requires NoBar(a) && NoBar(b)
    requires a + "|" + x == b + "|" + y
    ensures a == b && x == y
  {
    var t := a + "|" + x;
    assert t[|a|] == '|' && t[|b|] == '|';
    NoBarBefore(a, x);
    NoBarBefore(b, y);
    assert |a| == |b|;
    assert a == t[..|a|] && b == t[..|b|];
    assert x == t[|a| + 1..] && y == t[|b| + 1..];
  }

  /** How often the separator occurs. */
  function Bars(s: string): nat {
    if s == "" then 0 else (if s[0] == '|' then 1 else 0) + Bars(s[1..])
  }

  lemma {:induction false} BarsConcat(a: string, b: string)
    ensures Bars(a + b) == Bars(a) + Bars(b)
  {
    if a == "" {
      assert a + b == b;
    } else {
      assert (a + b)[1..] == a[1..] + b;
      BarsConcat(a[1..], b);
    }
  }

  lemma {:induction false} NoBarsMeansNone(s: string)
    ensures Bars(s) == 0 <==> NoBar(s)
  {
    if s != "" {
      NoBarsMeansNone(s[1..]);
      assert s == [s[0]] + s[1..];
    }
  }

  /** The fields between the number and the detail, as they are printed. */
  function Label<D>(e: AuditEntry<D>): string {
    e.timestamp + "|" + (e.actor + "|" + (e.action + "|" + e.subject))
  }

  lemma BarsOfLabel<D>(e: AuditEntry<D>)
    ensures Bars(Label(e)) == Bars(e.timestamp) + Bars(e.actor) + Bars(e.action) + Bars(e.subject) + 3
  {
    var s3 := e.action + "|" + e.subject;
    var s2 := e.actor + "|" + s3;
    BarBetween(e.action, e.subject);
    BarBetween(e.actor, s3);
    BarBetween(e.timestamp, s2);
  }

  lemma BarBetween(a: string, b: string)
    ensures Bars(a + "|" + b) == Bars(a) + 1 + Bars(b)
  {
    BarsConcat(a, "|");
    BarsConcat(a + "|", b);
    assert "|"[1..] == "";
  }

  lemma CanonicalByLabel<D>(h: Hashing<D>, e: AuditEntry<D>)
    ensures Canonical(h, e) == ToDec(e.seqNo) + "|" + (Label(e) + "|" + (h.render(e.detail) + "|" + e.prevHash))
  {
    var tail := h.render(e.detail) + "|" + e.prevHash;
    assert e.action + "|" + e.subject + "|" + tail == e.action + "|" + (e.subject + "|" + tail);
    var s3 := e.action + "|" + e.subject;
    assert e.actor + "|" + s3 + "|" + tail == e.actor + "|" + (s3 + "|" + tail);
    var s2 := e.actor + "|" + s3;
    assert e.timestamp + "|" + s2 + "|" + tail == e.timestamp + "|" + (s2 + "|" + tail);
  }

  /** Equal labels of which one has no separator in its fields have equal fields. */
  lemma EqualLabels<D>(d: AuditEntry<D>, e: AuditEntry<D>)
    requires Label(d) == Label(e) && ClearFields(e)
    ensures d.timestamp == e.timestamp && d.actor == e.actor && d.action == e.action && d.subject == e.subject
  {
    BarsOfLabel(d);
    BarsOfLabel(e);
    NoBarsMeansNone(d.timestamp);
    NoBarsMeansNone(d.actor);
    NoBarsMeansNone(d.action);
    NoBarsMeansNone(e.timestamp);
    NoBarsMeansNone(e.actor);
    NoBarsMeansNone(e.action);
    NoBarsMeansNone(e.subject);
    FirstBar(d.timestamp, d.actor + "|" + (d.action + "|" + d.subject),
             e.timestamp, e.actor + "|" + (e.action + "|" + e.subject));
    FirstBar(d.actor, d.action + "|" + d.subject, e.actor, e.action + "|" + e.subject);
    FirstBar(d.action, d.subject, e.action, e.subject);
  }

  /** No field before the detail contains the separator. */
  predicate ClearFields<D>(e: AuditEntry<D>) {
    NoBar(e.timestamp) && NoBar(e.actor) && NoBar(e.action) && NoBar(e.subject)
  }

  /** Another entry of the same number with a link of the same length prints to the same text. */
  predicate Twin<D>(h: Hashing<D>, d: AuditEntry<D>, e: AuditEntry<D>) {
    |d.prevHash| == |e.prevHash| && Canonical(h, d) == Canonical(h, e)
  }

  /** The text of a detail ends in a separator and the text of another: a subject can take what stands before. */
  predicate Continues<D>(h: Hashing<D>, detail: D, other: D) {
    && |h.render(other)| < |h.render(detail)|
    && "|" + h.render(other) == h.render(detail)[|h.render(detail)| - |h.render(other)| - 1..]
  }

  /** Texts agree in the number, the link and everything between. */
  lemma TwinsAgree<D>(h: Hashing<D>, d: AuditEntry<D>, e: AuditEntry<D>)
    requires Twin(h, d, e)
    ensures d.seqNo == e.seqNo && d.prevHash == e.prevHash
    ensures Label(d) + "|" + h.render(d.detail) == Label(e) + "|" + h.render(e.detail)
  {
    CanonicalByLabel(h, d);
    CanonicalByLabel(h, e);
    var x := Label(d) + "|" + (h.render(d.detail) + "|" + d.prevHash);
    var y := Label(e) + "|" + (h.render(e.detail) + "|" + e.prevHash);
    DecimalHasNoBar(d.seqNo);
    DecimalHasNoBar(e.seqNo);
    FirstBar(ToDec(d.seqNo), x, ToDec(e.seqNo), y);
    ToDecValue(d.seqNo);
    ToDecValue(e.seqNo);
    LastBar(Label(d) + "|" + h.render(d.detail), d.prevHash, Label(e) + "|" + h.render(e.detail), e.prevHash, x, y);
  }

  lemma LastBar(a: string, p: string, b: string, q: string, x: string, y: string)
    requires |p| == |q| && x == y && x == a + ("|" + p) && y == b + ("|" + q)
    ensures a == b && p == q
  {
    assert a == x[..|a|] && b == y[..|b|];
    assert p == x[|x| - |p|..] && q == y[|y| - |q|..];
  }

  lemma DecimalHasNoBar(n: nat)
    ensures NoBar(ToDec(n))
  {
    ToDecValue(n);
    var s := ToDec(n);
    assert forall i :: 0 <= i < |s| ==> IsDigit(s[i]);
  }

  /** A twin of an entry with clear fields has the same fields and a detail of the same text, or its detail is the end of the
      entry's. */
  lemma TwinOfClear<D>(h: Hashing<D>, d: AuditEntry<D>, e: AuditEntry<D>)
    requires Twin(h, d, e) && ClearFields(e)
    ensures (d == e.(detail := d.detail) && h.render(d.detail) == h.render(e.detail)) || Continues(h, e.detail, d.detail)
  {
    TwinsAgree(h, d, e);
    var p, q, x, y := Label(d), Label(e), h.render(d.detail), h.render(e.detail);
    var s := q + "|" + y;
    assert s == p + "|" + x;
    if |p| < |q| {
      LabelIsNoShorter(d, e, x, y);
    } else if |p| == |q| {
      assert p == s[..|p|] && q == s[..|q|];
      assert x == s[|p| + 1..] && y == s[|q| + 1..];
      EqualLabels(d, e);
    } else {
      assert y == s[|q| + 1..];
      assert "|" + x == s[|p|..];
      assert s[|p|..] == y[|y| - |x| - 1..];
    }
  }

  lemma LabelIsNoShorter<D>(d: AuditEntry<D>, e: AuditEntry<D>, x: string, y: string)
    requires ClearFields(e) && Label(d) + "|" + x == Label(e) + "|" + y
    ensures |Label(e)| <= |Label(d)|
  {
    var p, q := Label(d), Label(e);
    BarsOfLabel(d);
    BarsOfLabel(e);
    NoBarsMeansNone(e.timestamp);
    NoBarsMeansNone(e.actor);
    NoBarsMeansNone(e.action);
    NoBarsMeansNone(e.subject);
    hide Label;
    if |p| < |q| {
      var s := p + "|" + x;
      assert q == s[..|q|];
      assert q == p + "|" + q[|p| + 1..];
      BarBetween(p, q[|p| + 1..]);
    }
  }

  /** A separator in a field before the detail can be shifted into the field beside it. */
  lemma ShiftedBar<D>(h: Hashing<D>, e: AuditEntry<D>) returns (d: AuditEntry<D>)
    requires !ClearFields(e)
    ensures Twin(h, d, e) && d != e
    ensures d == e.(timestamp := d.timestamp, actor := d.actor, action := d.action, subject := d.subject)
  {
    var tail := h.render(e.detail) + "|" + e.prevHash;
    if !NoBar(e.timestamp) {
      var x, y := AtBar(e.timestamp);
      d := e.(timestamp := x, actor := y + "|" + e.actor);
      MovedBar(x, y, e.actor, e.action + "|" + e.subject);
    } else if !NoBar(e.actor) {
      var x, y := AtBar(e.actor);
      d := e.(timestamp := e.timestamp + "|" + x, actor := y);
      MovedBar(e.timestamp, x, y, e.action + "|" + e.subject);
    } else if !NoBar(e.action) {
      var x, y := AtBar(e.action);
      d := e.(actor := e.actor + "|" + x, action := y);
      MovedBar(e.actor, x, y, e.subject);
    } else {
      var x, y := AtBar(e.subject);
      d := e.(action := e.action + "|" + x, subject := y);
      assert e.action + "|" + x + "|" + y == e.action + "|" + (x + "|" + y);
    }
    assert Label(d) == Label(e);
    CanonicalByLabel(h, d);
    CanonicalByLabel(h, e);
  }

  lemma AtBar(s: string) returns (x: string, y: string)
    requires !NoBar(s)
    ensures s == x + "|" + y
  {
    var i :| 0 <= i < |s| && s[i] == '|';
    x, y := s[..i], s[i + 1..];
  }

  lemma MovedBar(a: string, b: string, c: string, rest: string)
    ensures a + "|" + b + "|" + (c + "|" + rest) == a + "|" + (b + "|" + c + "|" + rest)
    ensures a + "|" + (b + "|" + c + "|" + rest) == a + "|" + (b + "|" + (c + "|" + rest))
  {}

  /** An entry shares its text with another of the same detail exactly when some field before the detail contains the
      separator. */
  lemma AmbiguousFieldsIff<D(!new)>(h: Hashing<D>, e: AuditEntry<D>)
    ensures (exists d :: d != e && d.seqNo == e.seqNo && d.detail == e.detail && d.prevHash == e.prevHash
                         && Canonical(h, d) == Canonical(h, e))
            <==> '|' in e.timestamp || '|' in e.actor || '|' in e.action || '|' in e.subject
  {
    if !ClearFields(e) {
      var d := ShiftedBar(h, e);
    } else {
      forall d | Twin(h, d, e) && d.detail == e.detail
        ensures d == e
      {
        TwinOfClear(h, d, e);
      }
    }
  }

  /** An entry shares its text with any other whose link has the same length exactly when a field before the detail contains
      the separator, or another detail prints the same or prints what follows a separator in this one. */
  lemma AmbiguousIff<D(!new)>(h: Hashing<D>, e: AuditEntry<D>)
    ensures (exists d :: d != e && Twin(h, d, e))
            <==> !ClearFields(e)
                 || exists t :: t != e.detail && (h.render(t) == h.render(e.detail) || Continues(h, e.detail, t))
  {
    if !ClearFields(e) {
      var d := ShiftedBar(h, e);
    } else {
      forall d | d != e && Twin(h, d, e)
        ensures exists t :: t != e.detail && (h.render(t) == h.render(e.detail) || Continues(h, e.detail, t))
      {
        TwinOfClear(h, d, e);
        assert d.detail != e.detail;
      }
      forall t | t != e.detail && (h.render(t) == h.render(e.detail) || Continues(h, e.detail, t))
        ensures exists d :: d != e && Twin(h, d, e)
      {
        var d := DetailTwin(h, e, t);
      }
    }
  }

  lemma DetailTwin<D>(h: Hashing<D>, e: AuditEntry<D>, t: D) returns (d: AuditEntry<D>)
    requires t != e.detail && (h.render(t) == h.render(e.detail) || Continues(h, e.detail, t))
    ensures d != e && Twin(h, d, e)
  {
    if h.render(t) == h.render(e.detail) {
      d := e.(detail := t);
    } else {
      var y, z := h.render(e.detail), h.render(t);
      var x := y[..|y| - |z| - 1];
      assert y == x + ("|" + z);
      d := e.(subject := e.subject + "|" + x, detail := t);
      CanonicalByLabel(h, d);
      CanonicalByLabel(h, e);
      var s := e.timestamp + "|" + (e.actor + "|" + (e.action + "|" + e.subject));
      assert Label(d) == Label(e) + "|" + x;
      assert Label(d) + "|" + (z + "|" + e.prevHash) == Label(e) + "|" + (y + "|" + e.prevHash);
    }
  }

  /** Against an entry with clear fields, an entry of the same text has clear fields exactly when it is the same in every field
      and in the text of its detail. */
  lemma CanonicalDeterminesFields<D>(h: Hashing<D>, d: AuditEntry<D>, e: AuditEntry<D>)
    requires Twin(h, d, e) && ClearFields(e)
    ensures ClearFields(d) <==> d == e.(detail := d.detail) && h.render(d.detail) == h.render(e.detail)
  {
    TwinOfClear(h, d, e);
    if ClearFields(d) { TwinOfClear(h, e, d); }
  }

  /** Details that are texts, as the log stores them. */
  function PlainTexts(sha: string -> string): Hashing<string> {
    Hashing(sha, t => t)
  }

  /** With texts for details an entry is the only one of its text exactly when none of its five texts contains the
      separator. */
  lemma AmbiguousTextIff(sha: string -> string, e: AuditEntry<string>)
    ensures (exists d :: d != e && Twin(PlainTexts(sha), d, e)) <==> !ClearFields(e) || '|' in e.detail
  {
    var h := PlainTexts(sha);
    AmbiguousIff(h, e);
    if '|' in e.detail {
      var x, y := AtBar(e.detail);
      assert e.detail[|e.detail| - |y| - 1..] == "|" + y;
      assert Continues(h, e.detail, y);
    }
    forall t | Continues(h, e.detail, t)
      ensures '|' in e.detail
    {
      assert ("|" + t)[0] == e.detail[|e.detail| - |t| - 1];
    }
  }
}
