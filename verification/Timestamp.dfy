/** RFC 3161 tokens: the token that the local authority builds and the reader of tokens.
    Object identifiers are translated by a library: its two directions are a parameter. */
module Timestamp {
  import opened Common
  import opened Der
  import opened Calendar
  import opened TimeText
  import Utf8

  const OID_SHA256 := "2.16.840.1.101.3.4.2.1"
  const OID_CONTENT_TYPE := "1.2.840.113549.1.9.3"
  const OID_SIGNING_TIME := "1.2.840.113549.1.9.5"
  const OID_TSTINFO := "1.2.840.113549.1.9.16.1.4"
  const OID_SIGNED_DATA := "1.2.840.113549.1.7.2"
  const OID_SIGNING_CERTIFICATE_V2 := "1.2.840.113549.1.9.16.2.47"
  const OID_ECDSA_WITH_SHA256 := "1.2.840.10045.4.3.2"
  const OID_POLICY := "1.3.6.1.4.1.99999.1.1"

  const TAG_OID: byte := 0x06
  const TAG_SEQUENCE: byte := 0x30
  const TAG_EXPLICIT0: byte := 0xA0

  /** `ObjectIdentifier`: content octets of a dotted text, and back. */
  datatype Oids = Oids(encode: string -> bytes, decode: bytes -> Option<string>)

  datatype MessageImprint = MessageImprint(hashOid: string, hashedMessage: bytes)

  // ---------- building a token ----------

  function Oid(oids: Oids, oid: string): bytes {
    Tlv(TAG_OID, oids.encode(oid))
  }

  /** `MessageImprint::to_der` */
  function ImprintItems(oids: Oids, m: MessageImprint): seq<bytes> {
    [Sequence([Oid(oids, m.hashOid), Null()]), OctetString(m.hashedMessage)]
  }

  function GenTime(now: int): bytes {
    Tlv(TAG_GENERALIZED_TIME, Utf8.Encode(GeneralizedTime(now)))
  }

  /** The fields of TSTInfo (section 2.4.2 of RFC 3161). */
  function TstInfoItems(oids: Oids, m: MessageImprint, serial: int, now: int): seq<bytes> {
    [Integer(1), Oid(oids, OID_POLICY), Sequence(ImprintItems(oids, m)), Integer(serial), GenTime(now)]
  }

  function TstInfo(oids: Oids, m: MessageImprint, serial: int, now: int): bytes {
    Sequence(TstInfoItems(oids, m, serial, now))
  }

  function OidThenExplicit0(oids: Oids, oid: string, content: bytes): seq<bytes> {
    [Oid(oids, oid), Tlv(TAG_EXPLICIT0, content)]
  }

  function Attribute(oids: Oids, oid: string, value: bytes): bytes {
    Sequence([Oid(oids, oid), SetOf([value])])
  }

  function AttributeItems(oids: Oids, now: int, certHash: bytes): seq<bytes> {
    [ Attribute(oids, OID_CONTENT_TYPE, Oid(oids, OID_TSTINFO)),
      Attribute(oids, OID_SIGNING_TIME, GenTime(now)),
      Attribute(oids, OID_SIGNING_CERTIFICATE_V2, OctetString(Sequence([Sequence([OctetString(certHash)])]))) ]
  }

  function SignedAttributes(oids: Oids, now: int, certHash: bytes): bytes {
    SetOf(AttributeItems(oids, now, certHash))
  }

  /** What the authority's identity supplies: its certificate, that certificate's digest, and its signatures. */
  datatype Identity = Identity(cert: bytes, certHash: bytes, sign: bytes -> bytes)

  function SignerItems(oids: Oids, id: Identity, serial: int, now: int): seq<bytes> {
    var attributes := SignedAttributes(oids, now, id.certHash);
    [ Integer(1),
      OctetString(BigEndian(serial % USIZE_LIMIT, 8)),
      Sequence([Oid(oids, OID_SHA256), Null()]),
      Tlv(TAG_EXPLICIT0, attributes),
      Sequence([Oid(oids, OID_ECDSA_WITH_SHA256), Null()]),
      OctetString(id.sign(attributes)) ]
  }

  function SignerInfo(oids: Oids, id: Identity, serial: int, now: int): bytes {
    Sequence(SignerItems(oids, id, serial, now))
  }

  function SignedDataItems(oids: Oids, m: MessageImprint, id: Identity, serial: int, now: int): seq<bytes> {
    [ Integer(1),
      SetOf([Sequence([Oid(oids, OID_SHA256), Null()])]),
      Sequence(OidThenExplicit0(oids, OID_TSTINFO, OctetString(TstInfo(oids, m, serial, now)))),
      Tlv(TAG_EXPLICIT0, Tlv(0x30, id.cert)),
      Tlv(TAG_EXPLICIT0, Tlv(0x31, SignerInfo(oids, id, serial, now))) ]
  }

  /** `stamp_imprint`, with the random serial (a 64-bit pattern read as signed) and the clock as parameters. */
  function StampImprint(oids: Oids, m: MessageImprint, id: Identity, serial: int, now: int): bytes {
    Sequence(OidThenExplicit0(oids, OID_SIGNED_DATA, Sequence(SignedDataItems(oids, m, id, serial, now))))
  }

  // ---------- reading a token ----------

  datatype TokenError = BadResponse(what: string) | OctetStringPanic

  type Parse<T> = Result<T, TokenError>

  /** An OID followed by an explicit [0]: the content of the latter. */
  function ReadOidThenExplicit0(data: bytes, part: string): Parse<bytes> {
    var o := ExpectAt(data, 0, TAG_OID);
    if o.None? then Err(BadResponse(part + ": no OID"))
    else
      var x := ExpectAt(data, o.value.1, TAG_EXPLICIT0);
      if x.None? then Err(BadResponse(part + ": no [0]")) else Ok(x.value.0)
  }

  /** The content of EncapsulatedContentInfo inside SignedData: version and digest algorithms are skipped. */
  function ReadSignedData(data: bytes): Parse<bytes> {
    var body := ExpectAt(data, 0, TAG_SEQUENCE);
    if body.None? then Err(BadResponse("sd: no SEQ"))
    else
      var version := TakeAt(body.value.0, 0);
      if version.None? then Err(BadResponse("sd: no version"))
      else
        var algs := TakeAt(body.value.0, version.value.1);
        if algs.None? then Err(BadResponse("sd: no digestAlgs"))
        else
          var eci := ExpectAt(body.value.0, algs.value.1, TAG_SEQUENCE);
          if eci.None? then Err(BadResponse("sd: no encapContentInfo")) else Ok(eci.value.0)
  }

  /** The message imprint and the position after the serial number. */
  function ReadTstPrefix(body: bytes): Parse<(bytes, nat)> {
    var version := TakeAt(body, 0);
    if version.None? then Err(BadResponse("tstinfo: no version"))
    else
      var policy := TakeAt(body, version.value.1);
      if policy.None? then Err(BadResponse("tstinfo: no policy"))
      else
        var mi := ExpectAt(body, policy.value.1, TAG_SEQUENCE);
        if mi.None? then Err(BadResponse("tstinfo: no messageImprint"))
        else
          var serial := TakeAt(body, mi.value.1);
          if serial.None? then Err(BadResponse("tstinfo: no serial")) else Ok((mi.value.0, serial.value.1))
  }

  /** genTime at a position: either kind of time, told apart by its tag. */
  function ReadGenTime(body: bytes, pos: nat): Parse<int> {
    if pos >= |body| then Err(BadResponse("tstinfo: no genTime"))
    else
      var content := TakeAt(body, pos);
      if content.None? then Err(BadResponse("tstinfo: genTime TLV"))
      else
        var text := Utf8.Decode(content.value.0);
        if text.None? then Err(BadResponse("tstinfo: genTime utf8"))
        else
          var epoch := ParseDerTime(body[pos], text.value);
          if epoch.None? then Err(BadResponse("time")) else Ok(epoch.value)
  }

  function OctetsOf(data: bytes, error: string): Parse<bytes> {
    match ParseOctetString(data)
    case Parsed(content) => Ok(content)
    case Rejected => Err(BadResponse(error))
    case Panicked => Err(OctetStringPanic)
  }

  function ReadImprint(oids: Oids, data: bytes): Parse<MessageImprint> {
    var alg := ExpectAt(data, 0, TAG_SEQUENCE);
    if alg.None? then Err(BadResponse("mi: no alg SEQ"))
    else
      var oid := ExpectAt(alg.value.0, 0, TAG_OID);
      if oid.None? then Err(BadResponse("mi: no OID"))
      else
        var text := oids.decode(oid.value.0);
        if text.None? then Err(BadResponse("mi: oid der"))
        else
          TakeAtAdvances(data, 0);
          var hashed := OctetsOf(data[alg.value.1..], "mi: hashed");
          if hashed.Err? then Err(hashed.error) else Ok(MessageImprint(text.value, hashed.value))
  }

  /** `parse_tst_info`: the time is judged before the imprint. */
  function ReadTstInfo(oids: Oids, der: bytes): Parse<(int, MessageImprint)> {
    var body := ExpectAt(der, 0, TAG_SEQUENCE);
    if body.None? then Err(BadResponse("tstinfo: no SEQ"))
    else
      var prefix := ReadTstPrefix(body.value.0);
      if prefix.Err? then Err(prefix.error)
      else
        var time := ReadGenTime(body.value.0, prefix.value.1);
        if time.Err? then Err(time.error)
        else
          var imprint := ReadImprint(oids, prefix.value.0);
          if imprint.Err? then Err(imprint.error) else Ok((time.value, imprint.value))
  }

  /** What `TimestampToken::parse` computes, element by element. */
  function ReadToken(oids: Oids, der: bytes): Parse<(int, MessageImprint)> {
    var outer := ExpectAt(der, 0, TAG_SEQUENCE);
    if outer.None? then Err(BadResponse("token: no SEQ"))
    else
      var inner := ReadOidThenExplicit0(outer.value.0, "token");
      if inner.Err? then Err(inner.error)
      else
        var eci := ReadSignedData(inner.value);
        if eci.Err? then Err(eci.error) else ReadContentInfo(oids, eci.value)
  }

  function ReadContentInfo(oids: Oids, eci: bytes): Parse<(int, MessageImprint)> {
    var octets := ReadOidThenExplicit0(eci, "eci");
    if octets.Err? then Err(octets.error)
    else
      var tst := OctetsOf(octets.value, "eci: octet string");
      if tst.Err? then Err(tst.error) else ReadTstInfo(oids, tst.value)
  }

  // ---------- the cursors of the reader ----------

  method ParseOidThenExplicit0(data: bytes, part: string) returns (r: Parse<bytes>)
    ensures r == ReadOidThenExplicit0(data, part)
  {
    var cur := new Cursor(data);
    var oid := cur.Expect(TAG_OID);
    if oid.None? { return Err(BadResponse(part + ": no OID")); }
    var content := cur.Expect(TAG_EXPLICIT0);
    if content.None? { return Err(BadResponse(part + ": no [0]")); }
    return Ok(content.value);
  }

  method ParseSignedData(data: bytes) returns (r: Parse<bytes>)
    ensures r == ReadSignedData(data)
  {
    var sd := new Cursor(data);
    var body := sd.Expect(TAG_SEQUENCE);
    if body.None? { return Err(BadResponse("sd: no SEQ")); }
    var p := new Cursor(body.value);
    var skipped := p.TakeTlv();
    if skipped.None? { return Err(BadResponse("sd: no version")); }
    skipped := p.TakeTlv();
    if skipped.None? { return Err(BadResponse("sd: no digestAlgs")); }
    var eci := p.Expect(TAG_SEQUENCE);
    if eci.None? { return Err(BadResponse("sd: no encapContentInfo")); }
    return Ok(eci.value);
  }

  method ParseImprint(oids: Oids, data: bytes) returns (r: Parse<MessageImprint>)
    ensures r == ReadImprint(oids, data)
  {
    var mi := new Cursor(data);
    var alg := mi.Expect(TAG_SEQUENCE);
    if alg.None? { return Err(BadResponse("mi: no alg SEQ")); }
    var a := new Cursor(alg.value);
    var oid := a.Expect(TAG_OID);
    if oid.None? { return Err(BadResponse("mi: no OID")); }
    var text := oids.decode(oid.value);
    if text.None? { return Err(BadResponse("mi: oid der")); }
    TakeAtAdvances(data, 0);
    var hashed := OctetsOf(data[mi.pos..], "mi: hashed");
    if hashed.Err? { return Err(hashed.error); }
    return Ok(MessageImprint(text.value, hashed.value));
  }

  method ParseTstInfo(oids: Oids, der: bytes) returns (r: Parse<(int, MessageImprint)>)
    ensures r == ReadTstInfo(oids, der)
  {
    var cur := new Cursor(der);
    var body := cur.Expect(TAG_SEQUENCE);
    if body.None? { return Err(BadResponse("tstinfo: no SEQ")); }
    var p := new Cursor(body.value);
    var skipped := p.TakeTlv();
    if skipped.None? { return Err(BadResponse("tstinfo: no version")); }
    skipped := p.TakeTlv();
    if skipped.None? { return Err(BadResponse("tstinfo: no policy")); }
    var mi := p.Expect(TAG_SEQUENCE);
    if mi.None? { return Err(BadResponse("tstinfo: no messageImprint")); }
    skipped := p.TakeTlv();
    if skipped.None? { return Err(BadResponse("tstinfo: no serial")); }
    var time := ReadGenTime(body.value, p.pos);
    if time.Err? { return Err(time.error); }
    var imprint := ParseImprint(oids, mi.value);
    if imprint.Err? { return Err(imprint.error); }
    return Ok((time.value, imprint.value));
  }

  /** `TimestampToken::parse` */
  method ParseToken(oids: Oids, der: bytes) returns (r: Parse<(int, MessageImprint)>)
    ensures r == ReadToken(oids, der)
  {
    var cur := new Cursor(der);
    var outer := cur.Expect(TAG_SEQUENCE);
    if outer.None? { return Err(BadResponse("token: no SEQ")); }
    var inner := ParseOidThenExplicit0(outer.value, "token");
    if inner.Err? { return Err(inner.error); }
    var eci := ParseSignedData(inner.value);
    if eci.Err? { return Err(eci.error); }
    var octets := ParseOidThenExplicit0(eci.value, "eci");
    if octets.Err? { return Err(octets.error); }
    var tst := OctetsOf(octets.value, "eci: octet string");
    if tst.Err? { return Err(tst.error); }
    r := ParseTstInfo(oids, tst.value);
  }

  // ---------- the round trip ----------

  lemma WholeTlv(tag: byte, content: bytes)
    requires |content| < LENGTH_LIMIT
    ensures ExpectAt(Tlv(tag, content), 0, tag) == Some((content, |Tlv(tag, content)|))
  {
    TakeAtTlv([], tag, content, []);
    assert [] + Tlv(tag, content) + [] == Tlv(tag, content);
  }

  lemma OidThenExplicit0RoundTrip(oids: Oids, oid: string, content: bytes, part: string)
    requires |Flatten(OidThenExplicit0(oids, oid, content))| < LENGTH_LIMIT
    ensures ReadOidThenExplicit0(Flatten(OidThenExplicit0(oids, oid, content)), part) == Ok(content)
    ensures |content| < |Flatten(OidThenExplicit0(oids, oid, content))|
  {
    var items := OidThenExplicit0(oids, oid, content);
    ItemFits(items, 0);
    ItemFits(items, 1);
    TakeItem(items, 0, TAG_OID, oids.encode(oid));
    TakeItem(items, 1, TAG_EXPLICIT0, content);
    assert items[..0] == [];
  }

  lemma SignedDataRoundTrip(items: seq<bytes>, version: bytes, algs: bytes, eci: bytes)
    requires |items| >= 3 && items[0] == Tlv(0x02, version) && items[1] == Tlv(0x31, algs) && items[2] == Tlv(0x30, eci)
    requires |Sequence(items)| < LENGTH_LIMIT
    ensures ReadSignedData(Sequence(items)) == Ok(eci)
    ensures |eci| < |Sequence(items)|
  {
    WholeTlv(TAG_SEQUENCE, Flatten(items));
    ItemFits(items, 0);
    ItemFits(items, 1);
    ItemFits(items, 2);
    TakeItem(items, 0, 0x02, version);
    TakeItem(items, 1, 0x31, algs);
    TakeItem(items, 2, TAG_SEQUENCE, eci);
    assert items[..0] == [];
  }

  lemma ImprintRoundTrip(oids: Oids, m: MessageImprint)
    requires |Flatten(ImprintItems(oids, m))| < LENGTH_LIMIT
    requires oids.decode(oids.encode(m.hashOid)) == Some(m.hashOid)
    ensures ReadImprint(oids, Flatten(ImprintItems(oids, m))) == Ok(m)
  {
    var items := ImprintItems(oids, m);
    var alg := [Oid(oids, m.hashOid), Null()];
    ItemFits(items, 0);
    ItemFits(items, 1);
    ItemFits(alg, 0);
    TakeItem(items, 0, TAG_SEQUENCE, Flatten(alg));
    TakeItem(alg, 0, TAG_OID, oids.encode(m.hashOid));
    assert items[..0] == [] && alg[..0] == [];
    var data := Flatten(items);
    assert data[Offset(items, 1)..] == OctetString(m.hashedMessage) by {
      assert items[..1] == [items[0]] && items[..|items| - 1] == [items[0]];
      assert data == Flatten(items[..1]) + items[1];
    }
    OctetStringRoundTrip(m.hashedMessage, []);
    assert OctetString(m.hashedMessage) + [] == OctetString(m.hashedMessage);
  }

  lemma GenTimeRoundTrip(body: bytes, pos: nat, now: int)
    requires CivilFromEpoch(now).y >= 0
    requires pos < |body| && body[pos] == TAG_GENERALIZED_TIME
    requires TakeAt(body, pos).Some? && TakeAt(body, pos).value.0 == Utf8.Encode(GeneralizedTime(now))
    ensures ReadGenTime(body, pos) == Ok(now) <==> FourDigitYear(now)
  {
    Utf8.DecodeEncoded(GeneralizedTime(now));
    GeneralizedTimeReadable(now);
  }

  lemma TstPrefixRoundTrip(items: seq<bytes>, version: bytes, policy: bytes, mi: bytes, serial: bytes)
    requires |items| >= 5 && items[0] == Tlv(0x02, version) && items[1] == Tlv(TAG_OID, policy)
    requires items[2] == Tlv(0x30, mi) && items[3] == Tlv(0x02, serial)
    requires |Flatten(items)| < LENGTH_LIMIT
    ensures ReadTstPrefix(Flatten(items)) == Ok((mi, Offset(items, 4)))
  {
    var body := Flatten(items);
    assert items[..0] == [];
    assert TakeAt(body, 0) == Some((version, Offset(items, 1))) by {
      ItemFits(items, 0);
      TakeItem(items, 0, 0x02, version);
    }
    assert TakeAt(body, Offset(items, 1)) == Some((policy, Offset(items, 2))) by {
      ItemFits(items, 1);
      TakeItem(items, 1, TAG_OID, policy);
    }
    assert ExpectAt(body, Offset(items, 2), TAG_SEQUENCE) == Some((mi, Offset(items, 3))) by {
      ItemFits(items, 2);
      TakeItem(items, 2, TAG_SEQUENCE, mi);
    }
    assert TakeAt(body, Offset(items, 3)) == Some((serial, Offset(items, 4))) by {
      ItemFits(items, 3);
      TakeItem(items, 3, 0x02, serial);
    }
  }

  lemma TstInfoRoundTrip(oids: Oids, m: MessageImprint, serial: int, now: int)
    requires |TstInfo(oids, m, serial, now)| < LENGTH_LIMIT && CivilFromEpoch(now).y >= 0
    requires oids.decode(oids.encode(m.hashOid)) == Some(m.hashOid)
    ensures ReadTstInfo(oids, TstInfo(oids, m, serial, now)) == Ok((now, m)) <==> FourDigitYear(now)
  {
    var items := TstInfoItems(oids, m, serial, now);
    var mi := Flatten(ImprintItems(oids, m));
    var time := Utf8.Encode(GeneralizedTime(now));
    WholeTlv(TAG_SEQUENCE, Flatten(items));
    TstPrefixRoundTrip(items, IntegerContent(1), oids.encode(OID_POLICY), mi, IntegerContent(serial));
    ItemFits(items, 2);
    ItemFits(items, 4);
    TakeItem(items, 4, TAG_GENERALIZED_TIME, time);
    GenTimeRoundTrip(Flatten(items), Offset(items, 4), now);
    ImprintRoundTrip(oids, m);
  }

  lemma ContentInfoRoundTrip(oids: Oids, m: MessageImprint, serial: int, now: int)
    requires CivilFromEpoch(now).y >= 0 && oids.decode(oids.encode(m.hashOid)) == Some(m.hashOid)
    requires |Flatten(OidThenExplicit0(oids, OID_TSTINFO, OctetString(TstInfo(oids, m, serial, now))))| < LENGTH_LIMIT
    ensures FourDigitYear(now) <==>
              ReadContentInfo(oids, Flatten(OidThenExplicit0(oids, OID_TSTINFO, OctetString(TstInfo(oids, m, serial, now)))))
              == Ok((now, m))
  {
    var tst := TstInfo(oids, m, serial, now);
    OidThenExplicit0RoundTrip(oids, OID_TSTINFO, OctetString(tst), "eci");
    OctetStringRoundTrip(tst, []);
    assert OctetString(tst) + [] == OctetString(tst);
    TstInfoRoundTrip(oids, m, serial, now);
  }

  lemma TooLongTlv(tag: byte, content: bytes)
    requires LENGTH_LIMIT <= |content| < USIZE_LIMIT
    ensures ExpectAt(Tlv(tag, content), 0, tag).None?
  {
    assert Tlv(tag, content)[1..] == LengthOctets(|content|) + content;
    LengthRoundTrip(|content|, content);
  }

  /** The content of the outermost SEQUENCE of a stamped token. */
  function TokenContent(oids: Oids, m: MessageImprint, id: Identity, serial: int, now: int): bytes {
    Flatten(OidThenExplicit0(oids, OID_SIGNED_DATA, Sequence(SignedDataItems(oids, m, id, serial, now))))
  }

  /** Parsing the token that was just stamped yields the stamped second and the same imprint, for every imprint,
      serial number, certificate and signature, exactly while the length fits four octets and the year four digits. */
  lemma StampRoundTrip(oids: Oids, m: MessageImprint, id: Identity, serial: int, now: int)
    requires CivilFromEpoch(now).y >= 0 && oids.decode(oids.encode(m.hashOid)) == Some(m.hashOid)
    requires |TokenContent(oids, m, id, serial, now)| < USIZE_LIMIT
    ensures ReadToken(oids, StampImprint(oids, m, id, serial, now)) == Ok((now, m)) <==>
              |TokenContent(oids, m, id, serial, now)| < LENGTH_LIMIT && FourDigitYear(now)
  {
    var items := SignedDataItems(oids, m, id, serial, now);
    var content := TokenContent(oids, m, id, serial, now);
    assert StampImprint(oids, m, id, serial, now) == Tlv(TAG_SEQUENCE, content);
    if |content| < LENGTH_LIMIT {
      var eci := Flatten(OidThenExplicit0(oids, OID_TSTINFO, OctetString(TstInfo(oids, m, serial, now))));
      WholeTlv(TAG_SEQUENCE, content);
      OidThenExplicit0RoundTrip(oids, OID_SIGNED_DATA, Sequence(items), "token");
      SignedDataRoundTrip(items, IntegerContent(1), Flatten([Sequence([Oid(oids, OID_SHA256), Null()])]), eci);
      ContentInfoRoundTrip(oids, m, serial, now);
    } else {
      TooLongTlv(TAG_SEQUENCE, content);
    }
  }
}
