/** One-use pairing codes and device authorisation. Connections run concurrently: consuming a code and registering the
    device it pairs are separate critical sections, so other connections' steps may come between them. */
module Pairing {
  import opened Common

  const CODE_TTL := 600

  datatype PairingCode = PairingCode(code: string, expiresAt: int)

  /** `retain(keep)` */
  function Unexpired(codes: seq<PairingCode>, now: int): seq<PairingCode> {
    if codes == [] then []
    else (if codes[0].expiresAt > now then [codes[0]] else []) + Unexpired(codes[1..], now)
  }

  function Without(codes: seq<PairingCode>, code: string): seq<PairingCode> {
    if codes == [] then []
    else (if codes[0].code != code then [codes[0]] else []) + Without(codes[1..], code)
  }

  predicate Consumable(codes: seq<PairingCode>, code: string, now: int) {
    exists i :: 0 <= i < |codes| && codes[i].code == code && codes[i].expiresAt > now
  }

  lemma {:induction false} UnexpiredKeeps(codes: seq<PairingCode>, now: int)
    ensures forall p :: p in Unexpired(codes, now) <==> p in codes && p.expiresAt > now
    ensures |Unexpired(codes, now)| <= |codes|
  {
    if codes != [] {
      UnexpiredKeeps(codes[1..], now);
      assert codes == [codes[0]] + codes[1..];
    }
  }

  lemma {:induction false} WithoutKeeps(codes: seq<PairingCode>, code: string)
    ensures forall p :: p in Without(codes, code) <==> p in codes && p.code != code
    ensures |Without(codes, code)| <= |codes|
    ensures |Without(codes, code)| < |codes| <==> exists p :: p in codes && p.code == code
  {
    if codes != [] {
      WithoutKeeps(codes[1..], code);
      assert codes == [codes[0]] + codes[1..];
      if codes[0].code == code { assert codes[0] in codes; }
    }
  }

  // ---------- the pair requests of concurrent connections ----------

  /** A step: a code is issued; a connection's pair request reaches the code check; the certificate for a connection whose
      code was consumed is issued and registered, or fails to be issued; the server is restarted. Codes and authorised
      devices live in memory only. */
  datatype Event =
    | Issue(code: string, now: int)
    | Request(conn: nat, code: string, deviceId: string, now: int)
    | Certify(conn: nat, fingerprint: Option<string>)
    | Restart

  datatype Reply = BadRequest | Forbidden | Consumed | Paired(deviceId: string, fingerprint: string) | ServerError | NoReply

  /** `waiting` holds, for each connection between the two sections, the device it is pairing. */
  datatype State = State(pairings: seq<PairingCode>, devices: map<string, string>, waiting: map<nat, string>) {
    /** `is_authorized` */
    predicate IsAuthorized(deviceId: string, fingerprint: string) {
      deviceId in devices && devices[deviceId] == fingerprint
    }
  }

  const EMPTY := State([], map[], map[])

  function Step(s: State, e: Event): (State, Reply) {
    match e
    case Issue(code, now) => (s.(pairings := s.pairings + [PairingCode(code, now + CODE_TTL)]), NoReply)
    case Request(conn, code, deviceId, now) =>
      if conn in s.waiting then (s, NoReply)
      else if deviceId == "" then (s, BadRequest)
      else
        var s' := s.(pairings := Without(Unexpired(s.pairings, now), code));
        if Consumable(s.pairings, code, now) then (s'.(waiting := s.waiting[conn := deviceId]), Consumed)
        else (s', Forbidden)
    case Certify(conn, fingerprint) =>
      if conn !in s.waiting then (s, NoReply)
      else
        var s' := s.(waiting := s.waiting - {conn});
        if fingerprint.None? then (s', ServerError)
        else (s'.(devices := s.devices[s.waiting[conn] := fingerprint.value]), Paired(s.waiting[conn], fingerprint.value))
    case Restart => (EMPTY, NoReply)
  }

  function Run(es: seq<Event>): State {
    if es == [] then EMPTY else Step(Run(es[..|es| - 1]), es[|es| - 1]).0
  }

  /** What event `i` of a run was answered. */
  function ReplyAt(es: seq<Event>, i: nat): Reply
    requires i < |es|
  {
    Step(Run(es[..i]), es[i]).1
  }

  predicate ConsumesAt(es: seq<Event>, i: nat)
    requires i < |es|
  {
    ReplyAt(es, i) == Consumed
  }

  predicate PairsAt(es: seq<Event>, i: nat)
    requires i < |es|
  {
    ReplyAt(es, i).Paired?
  }

  function CountIssued(es: seq<Event>): nat {
    if es == [] then 0 else CountIssued(es[..|es| - 1]) + (if es[|es| - 1].Issue? then 1 else 0)
  }

  function CountConsumed(es: seq<Event>): nat {
    if es == [] then 0 else CountConsumed(es[..|es| - 1]) + (if ConsumesAt(es, |es| - 1) then 1 else 0)
  }

  function CountPaired(es: seq<Event>): nat {
    if es == [] then 0 else CountPaired(es[..|es| - 1]) + (if PairsAt(es, |es| - 1) then 1 else 0)
  }

  lemma ConsumableShrinks(codes: seq<PairingCode>, code: string, now: int)
    ensures |Without(Unexpired(codes, now), code)| <= |codes| - (if Consumable(codes, code, now) then 1 else 0)
  {
    UnexpiredKeeps(codes, now);
    WithoutKeeps(Unexpired(codes, now), code);
    if Consumable(codes, code, now) {
      var i :| 0 <= i < |codes| && codes[i].code == code && codes[i].expiresAt > now;
      assert codes[i] in Unexpired(codes, now);
    }
  }

  /** Every pairing used up a consumed code and every consumed code was issued. */
  lemma {:induction false} CodesAreConserved(es: seq<Event>)
    ensures CountPaired(es) + |Run(es).waiting| <= CountConsumed(es)
    ensures CountConsumed(es) + |Run(es).pairings| <= CountIssued(es)
    decreases |es|
  {
    if es != [] {
      var before := es[..|es| - 1];
      var e := es[|es| - 1];
      CodesAreConserved(before);
      var s := Run(before);
      if e.Request? {
        ConsumableShrinks(s.pairings, e.code, e.now);
      } else if e.Certify? && e.conn in s.waiting {
        assert (s.waiting - {e.conn}).Keys == s.waiting.Keys - {e.conn};
        assert |s.waiting - {e.conn}| == |s.waiting| - 1;
      }
    }
  }

  /** Successful pairings never exceed the codes issued, over any interleaving and any clock readings. */
  lemma PairingsNeverExceedCodes(es: seq<Event>)
    ensures CountPaired(es) <= CountConsumed(es) <= CountIssued(es)
  {
    CodesAreConserved(es);
  }

  /** Since event `j` issued it, the code was not consumed again, and the server was not restarted. */
  predicate FreshSince(es: seq<Event>, j: nat, code: string) {
    && (forall k :: j < k < |es| && es[k].Request? && es[k].code == code ==> !ConsumesAt(es, k))
    && (forall k :: j < k < |es| ==> !es[k].Restart?)
  }

  predicate IssuedAt(es: seq<Event>, j: nat, p: PairingCode)
    requires j < |es|
  {
    es[j].Issue? && es[j].code == p.code && es[j].now + CODE_TTL == p.expiresAt
  }

  /** A step lists a code only by issuing it, and consuming a code takes it off the list. */
  lemma StepListing(s: State, e: Event, p: PairingCode)
    requires p in Step(s, e).0.pairings
    ensures p in s.pairings || (e.Issue? && p == PairingCode(e.code, e.now + CODE_TTL))
    ensures Step(s, e).1 == Consumed ==> e.Request? && e.code != p.code
    ensures !e.Restart?
  {
    if e.Request? {
      UnexpiredKeeps(s.pairings, e.now);
      WithoutKeeps(Unexpired(s.pairings, e.now), e.code);
    }
  }

  lemma ReplyOfPrefix(es: seq<Event>, n: nat, i: nat)
    requires i < n <= |es|
    ensures ReplyAt(es[..n], i) == ReplyAt(es, i) && es[..n][i] == es[i]
  {
    assert es[..n][..i] == es[..i];
  }

  /** A code on the list was issued with that expiry, and not consumed since. */
  lemma {:induction false} ListedWasIssued(es: seq<Event>, p: PairingCode) returns (j: nat)
    requires p in Run(es).pairings
    ensures j < |es| && IssuedAt(es, j, p) && FreshSince(es, j, p.code)
    decreases |es|
  {
    var n := |es| - 1;
    var before := es[..n];
    StepListing(Run(before), es[n], p);
    if p in Run(before).pairings {
      j := ListedWasIssued(before, p);
      FreshExtends(es, j, p.code);
    } else {
      j := n;
    }
  }

  lemma FreshExtends(es: seq<Event>, j: nat, code: string)
    requires es != [] && FreshSince(es[..|es| - 1], j, code)
    requires ConsumesAt(es, |es| - 1) ==> es[|es| - 1].Request? && es[|es| - 1].code != code
    requires !es[|es| - 1].Restart?
    ensures FreshSince(es, j, code)
  {
    var n := |es| - 1;
    forall k | j < k < |es| && es[k].Request? && es[k].code == code
      ensures !ConsumesAt(es, k)
    {
      if k < n {
        ReplyOfPrefix(es, n, k);
        assert !ConsumesAt(es[..n], k);
      }
    }
    forall k | j < k < |es|
      ensures !es[k].Restart?
    {
      if k < n { assert es[..n][k] == es[k]; }
    }
  }

  /** A successful code check used a code that was issued less than ten minutes before by the clock it read,
      that no other request consumed in between, and that no restart forgot: a code is good for one pairing per issue. */
  lemma ConsumedCodeWasFresh(es: seq<Event>, i: nat) returns (j: nat)
    requires i < |es| && ConsumesAt(es, i)
    ensures es[i].Request? && j < i
    ensures es[j].Issue? && es[j].code == es[i].code && es[i].now < es[j].now + 600
    ensures forall k :: j < k < i && es[k].Request? && es[k].code == es[i].code ==> !ConsumesAt(es, k)
    ensures forall k :: j < k < i ==> !es[k].Restart?
  {
    var before := es[..i];
    var e := es[i];
    var s := Run(before);
    var t :| 0 <= t < |s.pairings| && s.pairings[t].code == e.code && s.pairings[t].expiresAt > e.now;
    j := ListedWasIssued(before, s.pairings[t]);
    forall k | j < k < i && es[k].Request? && es[k].code == e.code
      ensures !ConsumesAt(es, k)
    {
      ReplyOfPrefix(es, i, k);
      assert !ConsumesAt(before, k);
    }
    forall k | j < k < i
      ensures !es[k].Restart?
    {
      assert before[k] == es[k];
    }
  }

  lemma FreshBefore(es: seq<Event>, n: nat, j: nat, code: string)
    requires n <= |es| && FreshSince(es, j, code)
    ensures FreshSince(es[..n], j, code)
  {
    forall k | j < k < n && es[..n][k].Request? && es[..n][k].code == code
      ensures !ConsumesAt(es[..n], k)
    {
      ReplyOfPrefix(es, n, k);
      assert !ConsumesAt(es, k);
    }
  }

  /** A code leaves the list only when it is consumed, when it has expired, or when the server restarts. */
  lemma StaysListed(s: State, e: Event, p: PairingCode)
    requires p in s.pairings && !e.Restart?
    requires e.Request? ==> e.now < p.expiresAt && (e.code == p.code ==> Step(s, e).1 != Consumed)
    ensures p in Step(s, e).0.pairings
  {
    if e.Request? {
      assert e.code == p.code ==> Consumable(s.pairings, e.code, e.now);
      hide Consumable, Unexpired, Without;
      UnexpiredKeeps(s.pairings, e.now);
      WithoutKeeps(Unexpired(s.pairings, e.now), e.code);
    } else if e.Issue? {
      var i :| 0 <= i < |s.pairings| && s.pairings[i] == p;
      assert Step(s, e).0.pairings[i] == p;
    }
  }

  lemma {:induction false} IssuedStaysListed(es: seq<Event>, j: nat)
    requires j < |es| && es[j].Issue? && FreshSince(es, j, es[j].code)
    requires forall k :: j < k < |es| && es[k].Request? ==> es[k].now < es[j].now + 600
    ensures PairingCode(es[j].code, es[j].now + 600) in Run(es).pairings
    decreases |es|
  {
    var n := |es| - 1;
    var before := es[..n];
    var p := PairingCode(es[j].code, es[j].now + 600);
    if j == n {
      assert Run(es).pairings[|Run(before).pairings|] == p;
    } else {
      FreshBefore(es, n, j, p.code);
      IssuedStaysListed(before, j);
      assert es[n].Request? && es[n].code == p.code ==> !ConsumesAt(es, n);
      StaysListed(Run(before), es[n], p);
    }
  }

  /** Requests read a clock that does not go back. */
  predicate RequestsInOrder(es: seq<Event>) {
    forall j, k :: 0 <= j < k < |es| && es[j].Request? && es[k].Request? ==> es[j].now <= es[k].now
  }

  /** Event `j` issued the code that request `i` brings, less than ten minutes before; it was not used or forgotten since. */
  predicate GoodFor(es: seq<Event>, j: nat, i: nat)
    requires i < |es| && es[i].Request?
  {
    j < i && es[j].Issue? && es[j].code == es[i].code && es[i].now < es[j].now + 600 && FreshSince(es[..i], j, es[i].code)
  }

  /** What a pair request is answered, from the history alone: without a device nothing is checked and no code is used; with
      one, the code is accepted exactly when it is good, however many others were issued before or since. */
  lemma RequestsAreJudged(es: seq<Event>, i: nat)
    requires RequestsInOrder(es) && i < |es| && es[i].Request? && es[i].conn !in Run(es[..i]).waiting
    ensures ReplyAt(es, i) == if es[i].deviceId == "" then BadRequest
                              else if exists j: nat :: GoodFor(es, j, i) then Consumed
                              else Forbidden
    ensures es[i].deviceId == "" ==> Run(es[..i + 1]) == Run(es[..i])
  {
    var before := es[..i];
    assert es[..i + 1][..i] == before && es[..i + 1][i] == es[i];
    if ConsumesAt(es, i) {
      var j := ConsumedCodeWasFresh(es, i);
      forall k | j < k < i && before[k].Request? && before[k].code == es[i].code
        ensures !ConsumesAt(before, k)
      {
        ReplyOfPrefix(es, i, k);
      }
      assert GoodFor(es, j, i);
    } else if j: nat :| GoodFor(es, j, i) {
      IssuedStaysListed(before, j);
      var s, p := Run(before), PairingCode(es[j].code, es[j].now + 600);
      var t :| 0 <= t < |s.pairings| && s.pairings[t] == p;
      assert Consumable(s.pairings, es[i].code, es[i].now);
    }
  }

  /** Event `i` paired the device with the fingerprint, and no later event paired it again or restarted the server. */
  predicate LastPairedAt(es: seq<Event>, i: nat, deviceId: string, fingerprint: string) {
    i < |es| && ReplyAt(es, i) == Paired(deviceId, fingerprint)
    && forall k :: i < k < |es| ==> !PairsDevice(es, k, deviceId) && !es[k].Restart?
  }

  predicate PairsDevice(es: seq<Event>, k: nat, deviceId: string)
    requires k < |es|
  {
    PairsAt(es, k) && ReplyAt(es, k).deviceId == deviceId
  }

  /** Was the last pairing of the device, if any since the last restart, with this fingerprint? */
  ghost predicate LatestPairing(es: seq<Event>, deviceId: string, fingerprint: string) {
    exists i: nat :: LastPairedAt(es, i, deviceId, fingerprint)
  }

  /** A device passes with a fingerprint exactly when its latest successful pairing registered it and no restart came since. */
  lemma {:induction false} AuthorizedIsLatest(es: seq<Event>, deviceId: string, fingerprint: string)
    ensures Run(es).IsAuthorized(deviceId, fingerprint) <==> LatestPairing(es, deviceId, fingerprint)
    decreases |es|
  {
    hide Step, ReplyAt, Run;
    AuthorizationStep(es, deviceId, fingerprint);
    if es != [] {
      var n := |es| - 1;
      AuthorizedIsLatest(es[..n], deviceId, fingerprint);
      if PairsDevice(es, n, deviceId) {
        if ReplyAt(es, n) == Paired(deviceId, fingerprint) { assert LastPairedAt(es, n, deviceId, fingerprint); }
      } else if es[n].Restart? {
        assert !LastPairedAt(es, n, deviceId, fingerprint);
      } else {
        LatestExtends(es, deviceId, fingerprint);
      }
    }
  }

  /** What an event does to the authorisation of a device. */
  lemma StepAuthorizes(s: State, e: Event, deviceId: string, fingerprint: string)
    ensures var (s', reply) := Step(s, e);
            s'.IsAuthorized(deviceId, fingerprint)
            <==> if reply.Paired? && reply.deviceId == deviceId then reply.fingerprint == fingerprint
                 else !e.Restart? && s.IsAuthorized(deviceId, fingerprint)
  {
    hide Without, Unexpired, Consumable;
  }

  lemma AuthorizationStep(es: seq<Event>, deviceId: string, fingerprint: string)
    ensures es == [] ==> !Run(es).IsAuthorized(deviceId, fingerprint)
    ensures es != [] ==>
              var n := |es| - 1;
              Run(es).IsAuthorized(deviceId, fingerprint)
              <==> if PairsDevice(es, n, deviceId) then ReplyAt(es, n) == Paired(deviceId, fingerprint)
                   else !es[n].Restart? && Run(es[..n]).IsAuthorized(deviceId, fingerprint)
  {
    hide Step;
    if es != [] { StepAuthorizes(Run(es[..|es| - 1]), es[|es| - 1], deviceId, fingerprint); }
  }

  lemma LatestExtends(es: seq<Event>, deviceId: string, fingerprint: string)
    requires es != [] && !PairsDevice(es, |es| - 1, deviceId) && !es[|es| - 1].Restart?
    ensures LatestPairing(es, deviceId, fingerprint) <==> LatestPairing(es[..|es| - 1], deviceId, fingerprint)
  {
    var n := |es| - 1;
    forall i: nat | i < n
      ensures LastPairedAt(es, i, deviceId, fingerprint) <==> LastPairedAt(es[..n], i, deviceId, fingerprint)
    {
      LastPairedPrefix(es, i, deviceId, fingerprint);
    }
    assert !LastPairedAt(es, n, deviceId, fingerprint);
  }

  lemma LastPairedPrefix(es: seq<Event>, i: nat, deviceId: string, fingerprint: string)
    requires i < |es| - 1 && !PairsDevice(es, |es| - 1, deviceId) && !es[|es| - 1].Restart?
    ensures LastPairedAt(es, i, deviceId, fingerprint) <==> LastPairedAt(es[..|es| - 1], i, deviceId, fingerprint)
  {
    hide ReplyAt;
    var n := |es| - 1;
    var before := es[..n];
    forall k: nat | k < n
      ensures ReplyAt(before, k) == ReplyAt(es, k) && before[k] == es[k]
      ensures PairsDevice(before, k, deviceId) <==> PairsDevice(es, k, deviceId)
    {
      ReplyOfPrefix(es, n, k);
    }
  }

  /** Pairings do not outlive the server: whatever went before, after a restart every device is refused, until it is paired
      again. Issuing a code, pairing a device and restarting is such a run. */
  lemma PairedThenRefused(code: string, conn: nat, deviceId: string, fingerprint: string, now: int, later: int)
    requires deviceId != "" && later < now + 600
    ensures var es := [Issue(code, now), Request(conn, code, deviceId, later), Certify(conn, Some(fingerprint)), Restart];
            && ReplyAt(es, 2) == Paired(deviceId, fingerprint)
            && Run(es[..3]).IsAuthorized(deviceId, fingerprint) && !Run(es).IsAuthorized(deviceId, fingerprint)
  {
    var e0, e1, e2 := Issue(code, now), Request(conn, code, deviceId, later), Certify(conn, Some(fingerprint));
    var es := [e0, e1, e2, Restart];
    RunSnoc([], e0);
    RunSnoc([e0], e1);
    RunSnoc([e0, e1], e2);
    RunSnoc([e0, e1, e2], Restart);
    assert [] + [e0] == [e0] && [e0] + [e1] == [e0, e1] && [e0, e1] + [e2] == [e0, e1, e2];
    assert [e0, e1, e2] + [Restart] == es && es[..3] == [e0, e1, e2];
    assert Run([e0]).pairings[0] == PairingCode(code, now + CODE_TTL);
    ReplyOfPrefix(es, 3, 2);
  }

  // ---------- the shared state of the server ----------

  lemma RunSnoc(es: seq<Event>, e: Event)
    ensures Run(es + [e]) == Step(Run(es), e).0 && ReplyAt(es + [e], |es|) == Step(Run(es), e).1
  {
    assert (es + [e])[..|es|] == es;
  }

  /** `SyncState`: the pairing list and the authorised devices, both empty at the start, and the device that each connection
      between the two critical sections of its pair request is pairing. `events` is what happened so far. */
  class SyncState {
    var pairings: seq<PairingCode>
    var devices: map<string, string>
    var waiting: map<nat, string>
    ghost var events: seq<Event>

    ghost predicate Valid()
      reads this
    {
      State(pairings, devices, waiting) == Run(events)
    }

    constructor ()
      ensures Valid() && events == []
    {
      pairings, devices, waiting, events := [], map[], map[], [];
    }

    /** The server starts again: nothing of what it knew is read back. */
    constructor Restarted(ghost before: seq<Event>)
      ensures Valid() && events == before + [Restart]
      ensures pairings == [] && devices == map[] && waiting == map[]
    {
      RunSnoc(before, Restart);
      pairings, devices, waiting, events := [], map[], map[], before + [Restart];
    }

    /** `new_pairing_code`, with the random code as a parameter. */
    method NewPairingCode(code: string, now: int)
      requires Valid()
      modifies this
      ensures Valid() && events == old(events) + [Issue(code, now)]
      ensures forall t :: t < now + 600 ==> Consumable(pairings, code, t)
    {
      RunSnoc(events, Issue(code, now));
      events := events + [Issue(code, now)];
      pairings := pairings + [PairingCode(code, now + CODE_TTL)];
      assert pairings[|pairings| - 1] == PairingCode(code, now + CODE_TTL);
    }

    /** `consume_pairing_code` */
    method ConsumePairingCode(code: string, now: int) returns (ok: bool)
      modifies this`pairings
      ensures ok <==> Consumable(old(pairings), code, now)
      ensures forall p :: p in pairings <==> p in old(pairings) && p.expiresAt > now && p.code != code
      ensures pairings == Without(Unexpired(old(pairings), now), code)
    {
      UnexpiredKeeps(pairings, now);
      WithoutKeeps(Unexpired(pairings, now), code);
      pairings := Unexpired(pairings, now);
      var before := |pairings|;
      pairings := Without(pairings, code);
      ok := |pairings| < before;
    }

    /** The pair request of a connection up to the code check. */
    method RequestPairing(conn: nat, code: string, deviceId: string, now: int) returns (reply: Reply)
      requires Valid() && conn !in waiting
      modifies this
      ensures Valid() && events == old(events) + [Request(conn, code, deviceId, now)]
      ensures reply == ReplyAt(events, |old(events)|)
      ensures reply.Consumed? <==> deviceId != "" && Consumable(old(pairings), code, now)
    {
      RunSnoc(events, Request(conn, code, deviceId, now));
      events := events + [Request(conn, code, deviceId, now)];
      if deviceId == "" { return BadRequest; }
      var ok := ConsumePairingCode(code, now);
      if !ok { return Forbidden; }
      waiting := waiting[conn := deviceId];
      return Consumed;
    }

    /** `register_device`: from then on this fingerprint passes for the device, no other does, and nothing changes for the
        other devices. */
    method RegisterDevice(deviceId: string, fingerprint: string)
      modifies this`devices
      ensures devices == old(devices)[deviceId := fingerprint]
      ensures forall d, f :: State(pairings, devices, waiting).IsAuthorized(d, f) <==>
                if d == deviceId then f == fingerprint else old(State(pairings, devices, waiting)).IsAuthorized(d, f)
    {
      devices := devices[deviceId := fingerprint];
    }

    /** The rest of the pair request: the certificate, if it could be issued, and the registration. */
    method FinishPairing(conn: nat, fingerprint: Option<string>) returns (reply: Reply)
      requires Valid() && conn in waiting
      modifies this
      ensures Valid() && events == old(events) + [Certify(conn, fingerprint)]
      ensures reply == ReplyAt(events, |old(events)|)
      ensures fingerprint.Some? ==> LatestPairing(events, old(waiting)[conn], fingerprint.value)
    {
      RunSnoc(events, Certify(conn, fingerprint));
      events := events + [Certify(conn, fingerprint)];
      var deviceId := waiting[conn];
      waiting := waiting - {conn};
      if fingerprint.None? { return ServerError; }
      RegisterDevice(deviceId, fingerprint.value);
      AuthorizedIsLatest(events, deviceId, fingerprint.value);
      return Paired(deviceId, fingerprint.value);
    }

    /** `is_authorized`: a device passes with a fingerprint exactly when its latest successful pairing registered it and the
        server was not restarted since. */
    method IsAuthorized(deviceId: string, fingerprint: string) returns (ok: bool)
      requires Valid()
      ensures ok <==> LatestPairing(events, deviceId, fingerprint)
    {
      AuthorizedIsLatest(events, deviceId, fingerprint);
      ok := deviceId in devices && devices[deviceId] == fingerprint;
      assert ok == State(pairings, devices, waiting).IsAuthorized(deviceId, fingerprint);
    }
  }
}
