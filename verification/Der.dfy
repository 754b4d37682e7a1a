/** The low-level DER printer and readers of vault-crypto (X.690), down to their accepted lengths. */
module Der {
  import opened Common

  // ---------- big-endian numbers ----------

  /** The low `k` octets of `n`, most significant first (`to_be_bytes`). */
  function BigEndian(n: nat, k: nat): (b: bytes)
    ensures |b| == k
  {
    if k == 0 then [] else BigEndian(n / 256, k - 1) + [n % 256]
  }

  /** The octets from the first non-zero one on; the last octet always stays. */
  function StripZeros(b: bytes): (r: bytes)
    ensures |r| <= |b|
    ensures b != [] ==> r != []
    ensures |r| > 1 ==> r[0] != 0
  {
    if |b| > 1 && b[0] == 0 then StripZeros(b[1..]) else b
  }

  function BeValue(b: bytes): nat {
    if b == [] then 0 else 256 * BeValue(b[..|b| - 1]) + b[|b| - 1]
  }

  lemma {:induction false} BigEndianValue(n: nat, k: nat)
    requires n < Pow256(k)
    ensures BeValue(BigEndian(n, k)) == n
  {
    if k > 0 {
      BigEndianValue(n / 256, k - 1);
      assert BigEndian(n, k)[..k - 1] == BigEndian(n / 256, k - 1);
    }
  }

  lemma {:induction false} LeadingZero(b: bytes)
    requires b != [] && b[0] == 0
    ensures BeValue(b[1..]) == BeValue(b)
  {
    if |b| > 1 {
      LeadingZero(b[..|b| - 1]);
      assert b[1..][..|b| - 2] == b[..|b| - 1][1..];
    }
  }

  lemma {:induction false} StripZerosValue(b: bytes)
    ensures BeValue(StripZeros(b)) == BeValue(b)
  {
    if |b| > 1 && b[0] == 0 {
      LeadingZero(b);
      StripZerosValue(b[1..]);
    }
  }

  lemma {:induction false} BeValueUpper(b: bytes)
    ensures BeValue(b) < Pow256(|b|)
  {
    if b != [] { BeValueUpper(b[..|b| - 1]); }
  }

  lemma {:induction false} BeValueLower(b: bytes)
    requires b != [] && b[0] != 0
    ensures BeValue(b) >= Pow256(|b| - 1)
  {
    if |b| > 1 { BeValueLower(b[..|b| - 1]); }
  }

  lemma {:induction false} Pow256Monotone(j: nat, k: nat)
    requires j <= k
    ensures Pow256(j) <= Pow256(k)
  {
    if j < k { Pow256Monotone(j, k - 1); }
  }

  // ---------- length octets ----------

  const USIZE_LIMIT: nat := 0x1_0000_0000_0000_0000
  const LENGTH_LIMIT: nat := 0x1_0000_0000

  /** The length octets that `tlv` writes: the short form below 128, else the fewest octets. */
  function LengthOctets(n: nat): bytes {
    if n < 0x80 then [n]
    else
      var b := StripZeros(BigEndian(n, 8));
      [0x80 + |b|] + b
  }

  /** `read_len` and `decode_length`: the length and the number of octets it took; at most four length octets. */
  function ReadLen(data: bytes): Option<(nat, nat)> {
    if data == [] then None
    else if data[0] < 0x80 then Some((data[0], 1))
    else
      var n := data[0] - 0x80;
      if n == 0 || n > 4 || |data| < 1 + n then None
      else Some((BeValue(data[1..1 + n]), 1 + n))
  }

  method DecodeLength(data: bytes) returns (r: Option<(nat, nat)>)
    ensures r == ReadLen(data)
  {
    if data == [] { return None; }
    var first := data[0];
    if first < 0x80 { return Some((first, 1)); }
    var n := first - 0x80;
    if n == 0 || n > 4 || |data| < 1 + n { return None; }
    var len: nat := 0;
    var octets := data[1..1 + n];
    for i := 0 to n
      invariant len == BeValue(octets[..i])
    {
      assert octets[..i + 1][..i] == octets[..i];
      len := 256 * len + (octets[i] as nat);
    }
    assert octets[..n] == octets;
    return Some((len, 1 + n));
  }

  lemma StrippedBounds(b: bytes)
    requires |b| > 1 ==> b[0] != 0
    ensures |b| <= 4 ==> BeValue(b) < LENGTH_LIMIT
    ensures |b| > 4 ==> BeValue(b) >= LENGTH_LIMIT
  {
    Pow256Values();
    if |b| <= 4 {
      BeValueUpper(b);
      Pow256Monotone(|b|, 4);
    } else {
      BeValueLower(b);
      Pow256Monotone(4, |b| - 1);
    }
  }

  /** Four octets suffice for a number exactly below 2^32. */
  lemma StrippedLength(n: nat)
    requires n < USIZE_LIMIT
    ensures var b := StripZeros(BigEndian(n, 8));
            BeValue(b) == n && 1 <= |b| <= 8 && (|b| <= 4 <==> n < LENGTH_LIMIT)
  {
    var full := BigEndian(n, 8);
    assert BeValue(full) == n by {
      Pow256Values();
      BigEndianValue(n, 8);
    }
    StripZerosValue(full);
    StrippedBounds(StripZeros(full));
  }

  /** A written length reads back whole exactly below 2^32; from there on the readers refuse it. */
  lemma LengthRoundTrip(n: nat, rest: bytes)
    requires n < USIZE_LIMIT
    ensures ReadLen(LengthOctets(n) + rest)
            == if n < LENGTH_LIMIT then Some((n, |LengthOctets(n)|)) else None
  {
    var data := LengthOctets(n) + rest;
    if n >= 0x80 {
      StrippedLength(n);
      var b := StripZeros(BigEndian(n, 8));
      assert data[0] == 0x80 + |b|;
      assert data[1..1 + |b|] == b;
    }
  }

  /** What the readers make of length octets that others wrote: one to four after the first are taken, with or without leading
      zeros; the indefinite form and longer forms are refused, and so is a length whose octets are cut short. */
  lemma LongLengths(b: bytes, rest: bytes, missing: nat)
    requires |b| + missing < 0x80
    ensures ReadLen([0x80 + |b|] + b + rest) == if 1 <= |b| <= 4 then Some((BeValue(b), 1 + |b|)) else None
    ensures missing > 0 ==> ReadLen([0x80 + |b| + missing] + b) == None
  {
    var data := [0x80 + |b|] + b + rest;
    assert data[1..1 + |b|] == b;
  }

  /** The length octets are minimal (section 10.1 of X.690): short form when it fits, no leading zero octet. */
  lemma LengthIsMinimal(n: nat)
    requires n < USIZE_LIMIT
    ensures n < 0x80 <==> |LengthOctets(n)| == 1
    ensures n >= 0x80 ==> LengthOctets(n)[1] != 0
  {
    StrippedLength(n);
    var b := StripZeros(BigEndian(n, 8));
    if n >= 0x80 && |b| == 1 { assert b[..0] == []; }
  }

  // ---------- values ----------

  /** `tlv` */
  function Tlv(tag: byte, content: bytes): bytes {
    [tag] + LengthOctets(|content|) + content
  }

  function Sequence(items: seq<bytes>): bytes {
    Tlv(0x30, Flatten(items))
  }

  function SetOf(items: seq<bytes>): bytes {
    Tlv(0x31, Flatten(items))
  }

  /** `der_sequence` and `der_set`: the items appended to one buffer under the tag. */
  method DerConstructed(tag: byte, items: seq<bytes>) returns (out: bytes)
    ensures out == Tlv(tag, Flatten(items))
  {
    var content: bytes := [];
    for i := 0 to |items|
      invariant content == Flatten(items[..i])
    {
      assert items[..i + 1][..i] == items[..i];
      content := content + items[i];
    }
    assert items[..|items|] == items;
    out := Tlv(tag, content);
  }

  function OctetString(data: bytes): bytes {
    Tlv(0x04, data)
  }

  function Null(): bytes {
    Tlv(0x05, [])
  }

  /** The content octets of `der_integer`: the 64-bit pattern, stripped, with a zero octet before a set top bit. */
  function IntegerContent(v: int): (r: bytes)
    ensures r != []
  {
    var b := StripZeros(BigEndian(v % USIZE_LIMIT, 8));
    if b[0] >= 0x80 then [0] + b else b
  }

  function Integer(v: int): bytes {
    Tlv(0x02, IntegerContent(v))
  }

  /** The value of INTEGER content octets (section 8.3 of X.690). */
  function TwosComplement(b: bytes): int
    requires b != []
  {
    if b[0] >= 0x80 then BeValue(b) - Pow256(|b|) else BeValue(b)
  }

  /** `der_integer` writes a 64-bit number as unsigned: the value written is the argument exactly when that is not negative. */
  lemma IntegerIsUnsigned(v: int)
    requires -0x8000_0000_0000_0000 <= v < 0x8000_0000_0000_0000
    ensures TwosComplement(IntegerContent(v)) == v % USIZE_LIMIT
    ensures TwosComplement(IntegerContent(v)) == v <==> v >= 0
  {
    var n := v % USIZE_LIMIT;
    StrippedLength(n);
    var b := StripZeros(BigEndian(n, 8));
    if b[0] >= 0x80 {
      LeadingZero([0] + b);
      assert ([0] + b)[1..] == b;
    }
  }

  // ---------- reading an OCTET STRING ----------

  datatype OctetOutcome = Parsed(content: bytes) | Rejected | Panicked

  /** `parse_octet_string`: its bound leaves out the tag octet, so the slice after it can run past the end. */
  function ParseOctetString(data: bytes): OctetOutcome {
    if |data| < 2 || data[0] != 0x04 then Rejected
    else
      var l := ReadLen(data[1..]);
      if l.None? || |data| < l.value.1 + l.value.0 then Rejected
      else if |data| < l.value.1 + 1 + l.value.0 then Panicked
      else Parsed(data[l.value.1 + 1..l.value.1 + 1 + l.value.0])
  }

  /** The reader panics exactly on octet strings that are cut short by one octet. */
  lemma PanicsOneOctetShort(data: bytes)
    ensures ParseOctetString(data).Panicked? <==>
              |data| >= 2 && data[0] == 0x04 && ReadLen(data[1..]).Some?
              && |data| == ReadLen(data[1..]).value.0 + ReadLen(data[1..]).value.1
    ensures ParseOctetString([4, 1]).Panicked?
  {
    assert [4, 1][1..] == [1];
  }

  lemma OctetStringRoundTrip(content: bytes, rest: bytes)
    requires |content| < LENGTH_LIMIT
    ensures ParseOctetString(OctetString(content) + rest) == Parsed(content)
  {
    var data := OctetString(content) + rest;
    assert data[1..] == LengthOctets(|content|) + (content + rest);
    LengthRoundTrip(|content|, content + rest);
    var h := |LengthOctets(|content|)|;
    assert data[h + 1..h + 1 + |content|] == content;
  }

  // ---------- the cursor ----------

  /** `take_tlv` from a position: the content of the element there and the position after it. */
  function TakeAt(data: bytes, pos: nat): Option<(bytes, nat)> {
    if pos >= |data| then None
    else
      var l := ReadLen(data[pos + 1..]);
      if l.None? then None
      else
        var end := pos + 1 + l.value.1 + l.value.0;
        if end > |data| then None else Some((data[pos + 1 + l.value.1..end], end))
  }

  /** `expect_seq`, `expect_oid` and `expect_explicit0`: the same under a given tag. */
  function ExpectAt(data: bytes, pos: nat, tag: byte): Option<(bytes, nat)> {
    if pos < |data| && data[pos] == tag then TakeAt(data, pos) else None
  }

  class Cursor {
    const data: bytes
    var pos: nat

    constructor (data: bytes)
      ensures this.data == data && pos == 0
    {
      this.data := data;
      pos := 0;
    }

    method TakeTlv() returns (r: Option<bytes>)
      modifies this`pos
      ensures var t := TakeAt(data, old(pos));
              if t.None? then r.None? && pos == old(pos) else r == Some(t.value.0) && pos == t.value.1
    {
      if pos >= |data| { return None; }
      var l := DecodeLength(data[pos + 1..]);
      if l.None? { return None; }
      var end := pos + 1 + l.value.1 + l.value.0;
      if end > |data| { return None; }
      r := Some(data[pos + 1 + l.value.1..end]);
      pos := end;
    }

    method Expect(tag: byte) returns (r: Option<bytes>)
      modifies this`pos
      ensures var t := ExpectAt(data, old(pos), tag);
              if t.None? then r.None? && pos == old(pos) else r == Some(t.value.0) && pos == t.value.1
    {
      if pos >= |data| || data[pos] != tag { return None; }
      r := TakeTlv();
    }
  }

  /** A successful read moves forward and stays inside the data; its content is the octets just before the new position. */
  lemma TakeAtAdvances(data: bytes, pos: nat)
    requires TakeAt(data, pos).Some?
    ensures var (content, next) := TakeAt(data, pos).value;
            pos + 2 <= next <= |data| && |content| <= next && data[next - |content|..next] == content
  {}

  lemma TakeAtTlv(pre: bytes, tag: byte, content: bytes, post: bytes)
    requires |content| < LENGTH_LIMIT
    ensures var data := pre + Tlv(tag, content) + post;
            ExpectAt(data, |pre|, tag) == TakeAt(data, |pre|) == Some((content, |pre| + |Tlv(tag, content)|))
  {
    var data := pre + Tlv(tag, content) + post;
    assert data[|pre|] == tag;
    assert data[|pre| + 1..] == LengthOctets(|content|) + (content + post);
    LengthRoundTrip(|content|, content + post);
    var h := |pre| + 1 + |LengthOctets(|content|)|;
    assert data[h..h + |content|] == content;
  }

  // ---------- elements of a concatenation ----------

  /** Where item `k` begins. */
  function Offset(items: seq<bytes>, k: nat): nat
    requires k <= |items|
  {
    |Flatten(items[..k])|
  }

  lemma {:induction false} ConcatSplit(items: seq<bytes>, k: nat)
    requires k < |items|
    ensures exists post :: Flatten(items) == Flatten(items[..k]) + items[k] + post
    decreases |items| - k
  {
    var n := |items| - 1;
    var init := items[..n];
    if k == n {
      assert Flatten(items) == Flatten(items[..k]) + items[k] + [];
    } else {
      ConcatSplit(init, k);
      assert init[..k] == items[..k];
      var post :| Flatten(init) == Flatten(init[..k]) + init[k] + post;
      assert Flatten(items) == Flatten(items[..k]) + items[k] + (post + items[n]);
    }
  }

  lemma OffsetNext(items: seq<bytes>, k: nat)
    requires k < |items|
    ensures Offset(items, k + 1) == Offset(items, k) + |items[k]|
  {
    assert items[..k + 1][..k] == items[..k];
  }

  /** Reading a concatenation at the offset of an element yields that element and the next offset. */
  lemma TakeItem(items: seq<bytes>, k: nat, tag: byte, content: bytes)
    requires k < |items| && items[k] == Tlv(tag, content) && |content| < LENGTH_LIMIT
    ensures ExpectAt(Flatten(items), Offset(items, k), tag) == Some((content, Offset(items, k + 1)))
    ensures TakeAt(Flatten(items), Offset(items, k)) == Some((content, Offset(items, k + 1)))
    ensures Offset(items, k) < |Flatten(items)| && Flatten(items)[Offset(items, k)] == tag
  {
    ConcatSplit(items, k);
    var post :| Flatten(items) == Flatten(items[..k]) + items[k] + post;
    OffsetNext(items, k);
    hide Flatten, Tlv, TakeAt, ExpectAt;
    TakeAtTlv(Flatten(items[..k]), tag, content, post);
  }

  lemma ItemFits(items: seq<bytes>, k: nat)
    requires k < |items|
    ensures |items[k]| <= |Flatten(items)|
  {
    ConcatSplit(items, k);
  }
}
