/** What a token carries beside the imprint and the time that its reader takes out: the signed attributes, the signature over
    them, the serial number and the certificate, found by walking the elements of the token. */
module TokenParts {
  import opened Common
  import opened Der
  import opened Timestamp
  import opened TimeText
  import Utf8

  datatype Element = Element(tag: byte, content: bytes)

  /** The element that is `k` elements after a position. */
  function ChildFrom(data: bytes, pos: nat, k: nat): Option<Element>
    decreases k
  {
    var t := TakeAt(data, pos);
    if t.None? then None
    else if k == 0 then Some(Element(data[pos], t.value.0))
    else ChildFrom(data, t.value.1, k - 1)
  }

  /** The element at the end of a path of child numbers. */
  function Inside(data: bytes, path: seq<nat>): Option<Element>
    requires path != []
    decreases |path|
  {
    var child := ChildFrom(data, 0, path[0]);
    if child.None? || |path| == 1 then child else Inside(child.value.content, path[1..])
  }

  /** The items are these elements, short enough to be read. */
  predicate Written(items: seq<bytes>, es: seq<Element>) {
    |items| == |es| && forall i :: 0 <= i < |es| ==> items[i] == Tlv(es[i].tag, es[i].content) && |es[i].content| < LENGTH_LIMIT
  }

  lemma {:induction false} ChildOfItems(items: seq<bytes>, es: seq<Element>, j: nat, k: nat)
    requires Written(items, es) && j <= k < |es|
    ensures ChildFrom(Flatten(items), Offset(items, j), k - j) == Some(es[k])
    decreases k - j
  {
    hide Flatten, Offset, LengthOctets, TakeAt;
    TakeItem(items, j, es[j].tag, es[j].content);
    if j < k { ChildOfItems(items, es, j + 1, k); }
  }

  /** A step of the walk. */
  lemma Descend(items: seq<bytes>, es: seq<Element>, k: nat, rest: seq<nat>)
    requires Written(items, es) && k < |es|
    ensures Inside(Flatten(items), [k]) == Some(es[k])
    ensures rest != [] ==> Inside(Flatten(items), [k] + rest) == Inside(es[k].content, rest)
  {
    ChildOfItems(items, es, 0, k);
    assert items[..0] == [] && Offset(items, 0) == 0;
    assert ([k] + rest)[1..] == rest;
  }

  /** What stands in something short is short. */
  lemma Fits(items: seq<bytes>, es: seq<Element>)
    requires |Flatten(items)| < LENGTH_LIMIT
    requires |items| == |es| && forall i :: 0 <= i < |es| ==> items[i] == Tlv(es[i].tag, es[i].content)
    ensures Written(items, es)
  {
    forall i | 0 <= i < |es|
      ensures |es[i].content| < LENGTH_LIMIT
    {
      ItemFits(items, i);
    }
  }

  lemma Only(tag: byte, content: bytes, rest: seq<nat>)
    requires |content| < LENGTH_LIMIT
    ensures Inside(Tlv(tag, content), [0]) == Some(Element(tag, content))
    ensures rest != [] ==> Inside(Tlv(tag, content), [0] + rest) == Inside(content, rest)
  {
    var items := [Tlv(tag, content)];
    assert items[..0] == [] && Flatten(items) == Tlv(tag, content);
    Descend(items, [Element(tag, content)], 0, rest);
  }

  // ---------- the way to the signer ----------

  function SignedDataElements(oids: Oids, m: MessageImprint, id: Identity, serial: int, now: int): seq<Element> {
    [ Element(0x02, IntegerContent(1)),
      Element(0x31, Flatten([Sequence([Oid(oids, OID_SHA256), Null()])])),
      Element(0x30, Flatten(OidThenExplicit0(oids, OID_TSTINFO, OctetString(TstInfo(oids, m, serial, now))))),
      Element(0xA0, Tlv(0x30, id.cert)),
      Element(0xA0, Tlv(0x31, SignerInfo(oids, id, serial, now))) ]
  }

  lemma ToSignedData(oids: Oids, m: MessageImprint, id: Identity, serial: int, now: int, k: nat, rest: seq<nat>)
    requires |TokenContent(oids, m, id, serial, now)| < LENGTH_LIMIT && k < 5
    ensures var es := SignedDataElements(oids, m, id, serial, now);
            && |es[k].content| < LENGTH_LIMIT
            && Inside(StampImprint(oids, m, id, serial, now), [0, 1, 0, k]) == Some(es[k])
            && (rest != [] ==>
                  Inside(StampImprint(oids, m, id, serial, now), [0, 1, 0, k] + rest) == Inside(es[k].content, rest))
  {
    hide Inside, Flatten, Tlv, LengthOctets, IntegerContent, SignerInfo, TstInfo, OctetString;
    var items, es := SignedDataItems(oids, m, id, serial, now), SignedDataElements(oids, m, id, serial, now);
    var data := Flatten(items);
    var outer := OidThenExplicit0(oids, OID_SIGNED_DATA, Sequence(items));
    var outerEs := [Element(TAG_OID, oids.encode(OID_SIGNED_DATA)), Element(TAG_EXPLICIT0, Sequence(items))];
    Fits(outer, outerEs);
    TlvIsLonger(0x30, data);
    assert |outerEs[1].content| < LENGTH_LIMIT;
    Fits(items, es);
    Only(TAG_SEQUENCE, Flatten(outer), [1, 0, k]);
    Only(TAG_SEQUENCE, Flatten(outer), [1, 0, k] + rest);
    Descend(outer, outerEs, 1, [0, k]);
    Descend(outer, outerEs, 1, [0, k] + rest);
    Only(0x30, data, [k]);
    Only(0x30, data, [k] + rest);
    Descend(items, es, k, rest);
    assert [0] + [1, 0, k] == [0, 1, 0, k] && [1] + [0, k] == [1, 0, k] && [0] + [k] == [0, k];
    assert [0] + ([1, 0, k] + rest) == [0, 1, 0, k] + rest && [1] + ([0, k] + rest) == [1, 0, k] + rest;
    assert [0] + ([k] + rest) == [0, k] + rest;
  }

  lemma TlvIsLonger(tag: byte, content: bytes)
    ensures |Tlv(tag, content)| > |content|
  {}

  function SignerElements(oids: Oids, id: Identity, serial: int, now: int): seq<Element> {
    var attributes := SignedAttributes(oids, now, id.certHash);
    [ Element(0x02, IntegerContent(1)),
      Element(0x04, BigEndian(serial % USIZE_LIMIT, 8)),
      Element(0x30, Flatten([Oid(oids, OID_SHA256), Null()])),
      Element(0xA0, attributes),
      Element(0x30, Flatten([Oid(oids, OID_ECDSA_WITH_SHA256), Null()])),
      Element(0x04, id.sign(attributes)) ]
  }

  lemma ToSigner(oids: Oids, m: MessageImprint, id: Identity, serial: int, now: int, k: nat)
    requires |TokenContent(oids, m, id, serial, now)| < LENGTH_LIMIT && k < 6
    ensures var es := SignerElements(oids, id, serial, now);
            && |es[k].content| < LENGTH_LIMIT
            && Inside(StampImprint(oids, m, id, serial, now), [0, 1, 0, 4, 0, 0, k]) == Some(es[k])
  {
    hide Inside, Flatten, Tlv, LengthOctets, IntegerContent, StampImprint, SignedAttributes, BigEndian, TokenContent;
    var items, es := SignerItems(oids, id, serial, now), SignerElements(oids, id, serial, now);
    var info, content := SignerInfo(oids, id, serial, now), Flatten(items);
    ToSignedData(oids, m, id, serial, now, 4, [0, 0, k]);
    assert [0, 1, 0, 4] + [0, 0, k] == [0, 1, 0, 4, 0, 0, k];
    TlvIsLonger(0x31, info);
    TlvIsLonger(0x30, content);
    Fits(items, es);
    Only(0x31, info, [0, k]);
    Only(0x30, content, [k]);
    Descend(items, es, k, []);
    assert [0] + [0, k] == [0, 0, k] && [0] + [k] == [0, k];
  }

  // ---------- the attributes ----------

  /** An attribute reads back as its OID and its value. */
  lemma AttributeParts(oids: Oids, oid: string, tag: byte, content: bytes)
    requires |Attribute(oids, oid, Tlv(tag, content))| < LENGTH_LIMIT
    ensures var a := Attribute(oids, oid, Tlv(tag, content));
            && |content| < LENGTH_LIMIT
            && Inside(a, [0, 0]) == Some(Element(0x06, oids.encode(oid)))
            && Inside(a, [0, 1, 0]) == Some(Element(tag, content))
  {
    hide Inside, Flatten, Tlv, LengthOctets;
    var value := Flatten([Tlv(tag, content)]);
    var items := [Oid(oids, oid), SetOf([Tlv(tag, content)])];
    var es := [Element(0x06, oids.encode(oid)), Element(0x31, value)];
    TlvIsLonger(0x30, Flatten(items));
    Fits(items, es);
    assert |es[1].content| < LENGTH_LIMIT;
    Fits([Tlv(tag, content)], [Element(tag, content)]);
    Only(0x30, Flatten(items), [0]);
    Only(0x30, Flatten(items), [1, 0]);
    Descend(items, es, 0, []);
    Descend(items, es, 1, [0]);
    Descend([Tlv(tag, content)], [Element(tag, content)], 0, []);
    assert [0] + [0] == [0, 0] && [0] + [1, 0] == [0, 1, 0] && [1] + [0] == [1, 0];
  }

  function AttributeElements(oids: Oids, now: int, certHash: bytes): seq<Element> {
    seq(3, i requires 0 <= i < 3 => Element(0x30, AttributeContent(oids, now, certHash, i)))
  }

  function AttributeContent(oids: Oids, now: int, certHash: bytes, k: nat): bytes
    requires k < 3
  {
    var (oid, value) := match k
                        case 0 => (OID_CONTENT_TYPE, Oid(oids, OID_TSTINFO))
                        case 1 => (OID_SIGNING_TIME, GenTime(now))
                        case 2 => (OID_SIGNING_CERTIFICATE_V2, OctetString(Sequence([Sequence([OctetString(certHash)])])));
    Flatten([Oid(oids, oid), SetOf([value])])
  }

  lemma ToAttribute(oids: Oids, now: int, certHash: bytes, k: nat, oid: string, tag: byte, content: bytes)
    requires k < 3 && |SignedAttributes(oids, now, certHash)| < LENGTH_LIMIT
    requires AttributeItems(oids, now, certHash)[k] == Attribute(oids, oid, Tlv(tag, content))
    ensures |content| < LENGTH_LIMIT
    ensures Inside(SignedAttributes(oids, now, certHash), [0, k, 0]) == Some(Element(0x06, oids.encode(oid)))
    ensures Inside(SignedAttributes(oids, now, certHash), [0, k, 1, 0]) == Some(Element(tag, content))
  {
    hide Inside, Flatten, Tlv, LengthOctets, GenTime, OctetString;
    var items, es := AttributeItems(oids, now, certHash), AttributeElements(oids, now, certHash);
    TlvIsLonger(0x31, Flatten(items));
    Fits(items, es);
    Only(0x31, Flatten(items), [k, 0]);
    Only(0x31, Flatten(items), [k, 1, 0]);
    Descend(items, es, k, [0]);
    Descend(items, es, k, [1, 0]);
    assert |es[k].content| < LENGTH_LIMIT;
    ItemFits(items, k);
    AttributeParts(oids, oid, tag, content);
    Only(0x30, es[k].content, [0]);
    Only(0x30, es[k].content, [1, 0]);
    assert [0] + [k, 0] == [0, k, 0] && [0] + [k, 1, 0] == [0, k, 1, 0];
    assert [k] + [0] == [k, 0] && [k] + [1, 0] == [k, 1, 0];
    assert [0] + [0] == [0, 0] && [0] + [1, 0] == [0, 1, 0];
  }

  // ---------- what a token says of its signer ----------

  /** The signature of a token is over the signed attributes exactly as the token carries them: that the content is a TSTInfo,
      the time, and the digest of the signer's certificate. */
  lemma SignatureCoversAttributes(oids: Oids, m: MessageImprint, id: Identity, serial: int, now: int)
    requires |TokenContent(oids, m, id, serial, now)| < LENGTH_LIMIT
    ensures var t := StampImprint(oids, m, id, serial, now);
            var signed, signature := Inside(t, [0, 1, 0, 4, 0, 0, 3]), Inside(t, [0, 1, 0, 4, 0, 0, 5]);
            && signed.Some? && signed.value.tag == 0xA0
            && signature == Some(Element(0x04, id.sign(signed.value.content)))
            && var a := signed.value.content;
            && Inside(a, [0, 0, 0]) == Some(Element(0x06, oids.encode("1.2.840.113549.1.9.3")))
            && Inside(a, [0, 0, 1, 0]) == Some(Element(0x06, oids.encode("1.2.840.113549.1.9.16.1.4")))
            && Inside(a, [0, 1, 0]) == Some(Element(0x06, oids.encode("1.2.840.113549.1.9.5")))
            && Inside(a, [0, 1, 1, 0]) == Some(Element(0x18, Utf8.Encode(GeneralizedTime(now))))
            && Inside(a, [0, 2, 0]) == Some(Element(0x06, oids.encode("1.2.840.113549.1.9.16.2.47")))
            && var digest := Inside(a, [0, 2, 1, 0]);
            && digest.Some? && Inside(digest.value.content, [0, 0, 0]) == Some(Element(0x04, id.certHash))
  {
    hide Inside, Flatten, Tlv, LengthOctets, GeneralizedTime, Utf8.Encode, StampImprint, SignedAttributes, TokenContent;
    ToSigner(oids, m, id, serial, now, 3);
    ToSigner(oids, m, id, serial, now, 5);
    var digest := Sequence([Sequence([OctetString(id.certHash)])]);
    ToAttribute(oids, now, id.certHash, 0, OID_CONTENT_TYPE, 0x06, oids.encode(OID_TSTINFO));
    ToAttribute(oids, now, id.certHash, 1, OID_SIGNING_TIME, 0x18, Utf8.Encode(GeneralizedTime(now)));
    ToAttribute(oids, now, id.certHash, 2, OID_SIGNING_CERTIFICATE_V2, 0x04, digest);
    NestedOctets(id.certHash);
  }

  lemma NestedOctets(content: bytes)
    requires |Sequence([Sequence([OctetString(content)])])| < LENGTH_LIMIT
    ensures Inside(Sequence([Sequence([OctetString(content)])]), [0, 0, 0]) == Some(Element(0x04, content))
  {
    hide Inside, Flatten, Tlv, LengthOctets;
    var leaf, inner := [OctetString(content)], [Sequence([OctetString(content)])];
    var innerEs, leafEs := [Element(0x30, Flatten(leaf))], [Element(0x04, content)];
    TlvIsLonger(0x30, Flatten(inner));
    Fits(inner, innerEs);
    assert |innerEs[0].content| < LENGTH_LIMIT;
    Fits(leaf, leafEs);
    Only(0x30, Flatten(inner), [0, 0]);
    Descend(inner, innerEs, 0, [0]);
    Descend(leaf, leafEs, 0, []);
    assert [0] + [0, 0] == [0, 0, 0] && [0] + [0] == [0, 0];
  }

  /** The token carries the signer's certificate; the serial number stands twice in it, as an INTEGER in the TSTInfo and as
      eight octets with the signer, and both have the value of its 64-bit pattern. */
  lemma SerialAndCertificate(oids: Oids, m: MessageImprint, id: Identity, serial: int, now: int)
    requires |TokenContent(oids, m, id, serial, now)| < LENGTH_LIMIT
    requires -0x8000_0000_0000_0000 <= serial < 0x8000_0000_0000_0000
    ensures var t := StampImprint(oids, m, id, serial, now);
            var tst, signer := Inside(t, [0, 1, 0, 2, 1, 0]), Inside(t, [0, 1, 0, 4, 0, 0, 1]);
            && Inside(t, [0, 1, 0, 3, 0]) == Some(Element(0x30, id.cert))
            && tst.Some? && signer.Some? && tst.value.tag == signer.value.tag == 0x04
            && var number := Inside(tst.value.content, [0, 3]);
            && number.Some? && number.value.tag == 0x02 && number.value.content != []
            && TwosComplement(number.value.content) == BeValue(signer.value.content) == serial % USIZE_LIMIT
  {
    hide Inside, Flatten, Tlv, LengthOctets, StampImprint, TokenContent, IntegerContent, BigEndian, BeValue, GenTime,
      ImprintItems, SignerInfo, TwosComplement;
    var tst := TstInfo(oids, m, serial, now);
    ToSigner(oids, m, id, serial, now, 1);
    ToSignedData(oids, m, id, serial, now, 3, [0]);
    ToSignedData(oids, m, id, serial, now, 2, [1, 0]);
    assert [0, 1, 0, 3] + [0] == [0, 1, 0, 3, 0] && [0, 1, 0, 2] + [1, 0] == [0, 1, 0, 2, 1, 0];
    TlvIsLonger(0x30, id.cert);
    Only(0x30, id.cert, []);
    ToTst(oids, m, serial, now);
    Pow256Values();
    BigEndianValue(serial % USIZE_LIMIT, 8);
    IntegerIsUnsigned(serial);
  }

  lemma ToTst(oids: Oids, m: MessageImprint, serial: int, now: int)
    requires |Flatten(OidThenExplicit0(oids, OID_TSTINFO, OctetString(TstInfo(oids, m, serial, now))))| < LENGTH_LIMIT
    ensures var tst := TstInfo(oids, m, serial, now);
            && |tst| < LENGTH_LIMIT
            && Inside(Flatten(OidThenExplicit0(oids, OID_TSTINFO, OctetString(tst))), [1, 0]) == Some(Element(0x04, tst))
            && Inside(tst, [0, 3]) == Some(Element(0x02, IntegerContent(serial)))
  {
    hide Inside, Flatten, Tlv, LengthOctets, IntegerContent, ImprintItems;
    var tst, items := TstInfo(oids, m, serial, now), TstInfoItems(oids, m, serial, now);
    var outer := OidThenExplicit0(oids, OID_TSTINFO, OctetString(tst));
    var outerEs := [Element(0x06, oids.encode(OID_TSTINFO)), Element(0xA0, OctetString(tst))];
    var es := [Element(0x02, IntegerContent(1)), Element(0x06, oids.encode(OID_POLICY)),
               Element(0x30, Flatten(ImprintItems(oids, m))), Element(0x02, IntegerContent(serial)),
               Element(0x18, Utf8.Encode(GeneralizedTime(now)))];
    Fits(outer, outerEs);
    assert |outerEs[1].content| < LENGTH_LIMIT;
    TlvIsLonger(0x04, tst);
    TlvIsLonger(0x30, Flatten(items));
    Fits(items, es);
    Descend(outer, outerEs, 1, [0]);
    Only(0x04, tst, []);
    Only(0x30, Flatten(items), [3]);
    Descend(items, es, 3, []);
    assert [1] + [0] == [1, 0] && [0] + [3] == [0, 3];
  }

  /** The token says that it is signed data, that its content is a TSTInfo, and the policy of the authority. */
  lemma TokenNamesItsKind(oids: Oids, m: MessageImprint, id: Identity, serial: int, now: int)
    requires |TokenContent(oids, m, id, serial, now)| < LENGTH_LIMIT
    ensures var t := StampImprint(oids, m, id, serial, now);
            && Inside(t, [0, 0]) == Some(Element(0x06, oids.encode("1.2.840.113549.1.7.2")))
            && Inside(t, [0, 1, 0, 2, 0]) == Some(Element(0x06, oids.encode("1.2.840.113549.1.9.16.1.4")))
            && var tst := Inside(t, [0, 1, 0, 2, 1, 0]);
            && tst.Some? && Inside(tst.value.content, [0, 1]) == Some(Element(0x06, oids.encode("1.3.6.1.4.1.99999.1.1")))
  {
    var tst, items := TstInfo(oids, m, serial, now), SignedDataItems(oids, m, id, serial, now);
    assert StampImprint(oids, m, id, serial, now) == Sequence(OidThenExplicit0(oids, OID_SIGNED_DATA, Sequence(items)));
    hide Inside, Flatten, Tlv, LengthOctets, StampImprint, TstInfo, SignedDataItems, OidThenExplicit0, Sequence, OctetString,
      SignerInfo, IntegerContent;
    ToSignedData(oids, m, id, serial, now, 2, [0]);
    ToSignedData(oids, m, id, serial, now, 2, [1, 0]);
    assert [0, 1, 0, 2] + [0] == [0, 1, 0, 2, 0] && [0, 1, 0, 2] + [1, 0] == [0, 1, 0, 2, 1, 0];
    TwoParts(oids, OID_TSTINFO, OctetString(tst));
    ToTst(oids, m, serial, now);
    ToPolicy(oids, m, serial, now);
    OuterOid(oids, Sequence(items), StampImprint(oids, m, id, serial, now));
  }

  lemma TwoParts(oids: Oids, oid: string, content: bytes)
    requires |Flatten(OidThenExplicit0(oids, oid, content))| < LENGTH_LIMIT
    ensures Inside(Flatten(OidThenExplicit0(oids, oid, content)), [0]) == Some(Element(0x06, oids.encode(oid)))
  {
    hide Inside, Flatten, Tlv;
    var items, es := OidThenExplicit0(oids, oid, content), [Element(0x06, oids.encode(oid)), Element(0xA0, content)];
    Fits(items, es);
    Descend(items, es, 0, []);
  }

  lemma OuterOid(oids: Oids, content: bytes, t: bytes)
    requires |Flatten(OidThenExplicit0(oids, OID_SIGNED_DATA, content))| < LENGTH_LIMIT
    requires t == Sequence(OidThenExplicit0(oids, OID_SIGNED_DATA, content))
    ensures Inside(t, [0, 0]) == Some(Element(0x06, oids.encode(OID_SIGNED_DATA)))
  {
    hide Inside, Flatten, Tlv;
    var items := OidThenExplicit0(oids, OID_SIGNED_DATA, content);
    TwoParts(oids, OID_SIGNED_DATA, content);
    Only(0x30, Flatten(items), [0]);
    assert [0] + [0] == [0, 0];
  }

  lemma ToPolicy(oids: Oids, m: MessageImprint, serial: int, now: int)
    requires |TstInfo(oids, m, serial, now)| < LENGTH_LIMIT
    ensures Inside(TstInfo(oids, m, serial, now), [0, 1]) == Some(Element(0x06, oids.encode(OID_POLICY)))
  {
    hide Inside, Flatten, Tlv, LengthOctets, IntegerContent, ImprintItems;
    var items := TstInfoItems(oids, m, serial, now);
    var es := [Element(0x02, IntegerContent(1)), Element(0x06, oids.encode(OID_POLICY)),
               Element(0x30, Flatten(ImprintItems(oids, m))), Element(0x02, IntegerContent(serial)),
               Element(0x18, Utf8.Encode(GeneralizedTime(now)))];
    TlvIsLonger(0x30, Flatten(items));
    Fits(items, es);
    Only(0x30, Flatten(items), [1]);
    Descend(items, es, 1, []);
    assert [0] + [1] == [0, 1];
  }

  // ---------- what is read is there ----------

  predicate Has(data: bytes, path: seq<nat>, tag: byte, content: bytes)
    requires path != []
  {
    Inside(data, path) == Some(Element(tag, content))
  }

  /** Walking a path is walking its first part and then the rest from there. */
  lemma {:induction false} Walk(data: bytes, path: seq<nat>, content: bytes, rest: seq<nat>)
    requires path != [] && rest != [] && Inside(data, path).Some? && Inside(data, path).value.content == content
    ensures Inside(data, path + rest) == Inside(content, rest)
    decreases |path|
  {
    hide ChildFrom;
    assert (path + rest)[1..] == path[1..] + rest;
    if |path| > 1 { Walk(ChildFrom(data, 0, path[0]).value.content, path[1..], content, rest); }
  }

  lemma OctetsAreChild(data: bytes, content: bytes)
    requires ParseOctetString(data) == Parsed(content)
    ensures Has(data, [0], 0x04, content)
  {
    hide ReadLen;
  }

  lemma OctetsAfter(data: bytes, pos: nat, content: bytes)
    requires pos <= |data| && ParseOctetString(data[pos..]) == Parsed(content)
    ensures pos < |data| && data[pos] == 0x04 && TakeAt(data, pos).Some? && TakeAt(data, pos).value.0 == content
  {
    hide ReadLen;
    assert data[pos..][1..] == data[pos + 1..];
  }

  lemma OidThenContent(data: bytes, part: string)
    requires ReadOidThenExplicit0(data, part).Ok?
    ensures Has(data, [1], 0xA0, ReadOidThenExplicit0(data, part).value)
    ensures Inside(data, [0]).Some? && Inside(data, [0]).value.tag == 0x06
  {
    hide TakeAt;
    assert ChildFrom(data, 0, 1) == ChildFrom(data, TakeAt(data, 0).value.1, 0);
  }

  lemma SignedDataIs(data: bytes)
    requires ReadSignedData(data).Ok?
    ensures Inside(data, [0]).Some? && Inside(data, [0]).value.tag == 0x30
    ensures Has(data, [0, 2], 0x30, ReadSignedData(data).value)
  {
    hide TakeAt;
    var body := ExpectAt(data, 0, 0x30).value.0;
    var p1 := TakeAt(body, 0).value.1;
    var p2 := TakeAt(body, p1).value.1;
    assert ChildFrom(body, 0, 2) == ChildFrom(body, p1, 1) == ChildFrom(body, p2, 0);
    Walk(data, [0], body, [2]);
    assert [0] + [2] == [0, 2];
  }

  /** The imprint that is read: the OID of the algorithm and the hashed octets that stand there. */
  lemma ImprintIs(oids: Oids, data: bytes)
    requires ReadImprint(oids, data).Ok?
    ensures var m := ReadImprint(oids, data).value;
            && Has(data, [1], 0x04, m.hashedMessage)
            && Inside(data, [0, 0]).Some? && Inside(data, [0, 0]).value.tag == 0x06
            && oids.decode(Inside(data, [0, 0]).value.content) == Some(m.hashOid)
  {
    hide TakeAt, ParseOctetString;
    var m := ReadImprint(oids, data).value;
    var (alg, p1) := ExpectAt(data, 0, 0x30).value;
    Walk(data, [0], alg, [0]);
    assert [0] + [0] == [0, 0];
    TakeAtAdvances(data, 0);
    OctetsAfter(data, p1, m.hashedMessage);
    assert ChildFrom(data, 0, 1) == ChildFrom(data, p1, 0);
  }

  /** The time that is read: the text of the element of that place, in the format of its tag. */
  lemma GenTimeIs(body: bytes, pos: nat)
    requires ReadGenTime(body, pos).Ok?
    ensures var e := ChildFrom(body, pos, 0);
            && e.Some? && Utf8.Decode(e.value.content).Some?
            && ParseDerTime(e.value.tag, Utf8.Decode(e.value.content).value) == Some(ReadGenTime(body, pos).value)
  {
    hide TakeAt, ParseDerTime, Utf8.Decode;
  }

  lemma TstPrefixIs(body: bytes)
    requires ReadTstPrefix(body).Ok?
    ensures var (mi, pos) := ReadTstPrefix(body).value;
            && Has(body, [2], 0x30, mi) && ChildFrom(body, 0, 4) == ChildFrom(body, pos, 0)
  {
    hide TakeAt;
    var p1 := TakeAt(body, 0).value.1;
    var p2 := TakeAt(body, p1).value.1;
    var p3 := TakeAt(body, p2).value.1;
    var p4 := TakeAt(body, p3).value.1;
    assert ChildFrom(body, 0, 2) == ChildFrom(body, p1, 1) == ChildFrom(body, p2, 0);
    assert ChildFrom(body, 0, 4) == ChildFrom(body, p1, 3) == ChildFrom(body, p2, 2) == ChildFrom(body, p3, 1)
        == ChildFrom(body, p4, 0);
  }

  /** What a TSTInfo is read as stands in it. */
  lemma TstInfoIs(oids: Oids, der: bytes)
    requires ReadTstInfo(oids, der).Ok?
    ensures var (time, m) := ReadTstInfo(oids, der).value;
            StatesImprint(oids, der, m) && StatesTime(der, time)
  {
    hide TakeAt, ReadTstPrefix, ReadGenTime, ReadImprint, ParseDerTime, Utf8.Decode, ChildFrom;
    var body := ExpectAt(der, 0, 0x30).value.0;
    assert Has(der, [0], 0x30, body) by { OnlyChild(der, 0x30); }
    var (mi, pos) := ReadTstPrefix(body).value;
    TstPrefixIs(body);
    GenTimeIs(body, pos);
    ImprintIs(oids, mi);
    Walk(der, [0], body, [4]);
    Walk(der, [0], body, [2, 1]);
    Walk(der, [0], body, [2, 0, 0]);
    Walk(body, [2], mi, [1]);
    Walk(body, [2], mi, [0, 0]);
    assert [0] + [4] == [0, 4] && [0] + [2, 1] == [0, 2, 1] && [0] + [2, 0, 0] == [0, 2, 0, 0];
    assert [2] + [1] == [2, 1] && [2] + [0, 0] == [2, 0, 0];
  }

  lemma OnlyChild(data: bytes, tag: byte)
    requires ExpectAt(data, 0, tag).Some?
    ensures Has(data, [0], tag, ExpectAt(data, 0, tag).value.0)
  {
    hide TakeAt;
  }

  /** The message imprint of a TSTInfo. */
  predicate StatesImprint(oids: Oids, tst: bytes, m: MessageImprint) {
    && Has(tst, [0, 2, 1], 0x04, m.hashedMessage)
    && Inside(tst, [0, 2, 0, 0]).Some? && Inside(tst, [0, 2, 0, 0]).value.tag == 0x06
    && oids.decode(Inside(tst, [0, 2, 0, 0]).value.content) == Some(m.hashOid)
  }

  /** The time of a TSTInfo. */
  predicate StatesTime(tst: bytes, time: int) {
    var e := Inside(tst, [0, 4]);
    && e.Some? && Utf8.Decode(e.value.content).Some?
    && ParseDerTime(e.value.tag, Utf8.Decode(e.value.content).value) == Some(time)
  }

  predicate Tagged(data: bytes, path: seq<nat>, tag: byte)
    requires path != []
  {
    Inside(data, path).Some? && Inside(data, path).value.tag == tag
  }

  /** Whatever bytes the reader accepts, from whoever they come: they have the elements of a token in their places, and the
      time and the imprint that are read are those of the TSTInfo inside. */
  lemma WhatIsReadIsThere(oids: Oids, der: bytes)
    requires ReadToken(oids, der).Ok?
    ensures var (time, m) := ReadToken(oids, der).value;
            && Tagged(der, [0], 0x30) && Tagged(der, [0, 0], 0x06) && Tagged(der, [0, 1], 0xA0)
            && Tagged(der, [0, 1, 0], 0x30) && Tagged(der, [0, 1, 0, 2], 0x30)
            && Tagged(der, [0, 1, 0, 2, 0], 0x06) && Tagged(der, [0, 1, 0, 2, 1], 0xA0)
            && var tst := Inside(der, [0, 1, 0, 2, 1, 0]);
            && tst.Some? && tst.value.tag == 0x04
            && StatesImprint(oids, tst.value.content, m) && StatesTime(tst.value.content, time)
  {
    hide TakeAt, ReadOidThenExplicit0, ReadSignedData, ReadTstInfo, ParseOctetString, Inside, StatesImprint, StatesTime,
      ExpectAt;
    var outer := ExpectAt(der, 0, 0x30).value.0;
    var inner := ReadOidThenExplicit0(outer, "token").value;
    var eci := ReadSignedData(inner).value;
    var octets := ReadOidThenExplicit0(eci, "eci").value;
    var tst := OctetsOf(octets, "eci: octet string").value;
    OnlyChild(der, 0x30);
    OidThenContent(outer, "token");
    SignedDataIs(inner);
    OidThenContent(eci, "eci");
    OctetsAreChild(octets, tst);
    TstInfoIs(oids, tst);
    Walk(der, [0], outer, [0]);
    Walk(der, [0], outer, [1]);
    assert [0] + [0] == [0, 0] && [0] + [1] == [0, 1];
    Walk(der, [0, 1], inner, [0]);
    Walk(der, [0, 1], inner, [0, 2]);
    assert [0, 1] + [0] == [0, 1, 0] && [0, 1] + [0, 2] == [0, 1, 0, 2];
    Walk(der, [0, 1, 0, 2], eci, [0]);
    Walk(der, [0, 1, 0, 2], eci, [1]);
    assert [0, 1, 0, 2] + [0] == [0, 1, 0, 2, 0] && [0, 1, 0, 2] + [1] == [0, 1, 0, 2, 1];
    Walk(der, [0, 1, 0, 2, 1], octets, [0]);
    assert [0, 1, 0, 2, 1] + [0] == [0, 1, 0, 2, 1, 0];
  }
}
