/** The encrypted database file: blocks of 4096 octets, each sealed with its index as associated data.
    The cipher is a parameter with two laws: it opens what it sealed, and refuses it under another block's index. */
module BlockFile {
  import opened Common

  const MAGIC: bytes := [0x56, 0x4C, 0x54, 0x44, 0x42, 0x30, 0x31, 0]
  const HEADER: bytes := MAGIC + [1, 0, 0, 0, 0, 0, 0, 0]
  const BLOCK_SIZE := 4096
  const NONCE_LEN := 24
  const INDEX_LIMIT: nat := 0x1_0000_0000_0000_0000
  const CT_LIMIT: nat := 0x1_0000_0000

  type Nonce = n: bytes | |n| == NONCE_LEN witness seq(NONCE_LEN, _ => 0)

  datatype Aead = Aead(seal: (Nonce, bytes, bytes) -> bytes, open: (Nonce, bytes, bytes) -> Option<bytes>)

  ghost predicate Lawful(aead: Aead) {
    && (forall n, i: nat, p {:trigger aead.seal(n, BlockAad(i), p)} :: i < INDEX_LIMIT ==>
         aead.open(n, BlockAad(i), aead.seal(n, BlockAad(i), p)) == Some(p))
    && (forall n, i: nat, j: nat, p {:trigger aead.open(n, BlockAad(j), aead.seal(n, BlockAad(i), p))} ::
         i < INDEX_LIMIT && j < INDEX_LIMIT && i != j ==> aead.open(n, BlockAad(j), aead.seal(n, BlockAad(i), p)) == None)
    && (forall n, i: nat, p {:trigger aead.seal(n, BlockAad(i), p)} :: i < INDEX_LIMIT && |p| <= BLOCK_SIZE ==>
         |aead.seal(n, BlockAad(i), p)| < CT_LIMIT)
  }

  // ---------- little-endian numbers ----------

  function LittleEndian(n: nat, k: nat): (b: bytes)
    ensures |b| == k
  {
    if k == 0 then [] else [n % 256] + LittleEndian(n / 256, k - 1)
  }

  function LeValue(b: bytes): nat {
    if b == [] then 0 else b[0] + 256 * LeValue(b[1..])
  }

  lemma {:induction false} LittleEndianValue(n: nat, k: nat)
    requires n < Pow256(k)
    ensures LeValue(LittleEndian(n, k)) == n
  {
    if k > 0 { LittleEndianValue(n / 256, k - 1); }
  }

  /** `block_aad` */
  function BlockAad(index: nat): bytes {
    [0x76, 0x61, 0x75, 0x6C, 0x74, 0x64, 0x62, 0x2D, 0x62, 0x6C, 0x6F, 0x63, 0x6B] + LittleEndian(index, 8)
  }

  /** Different block indexes are different associated data. */
  lemma BlockAadIsInjective(i: nat, j: nat)
    requires i < INDEX_LIMIT && j < INDEX_LIMIT && BlockAad(i) == BlockAad(j)
    ensures i == j
  {
    Pow256Values();
    assert LittleEndian(i, 8) == BlockAad(i)[13..] && LittleEndian(j, 8) == BlockAad(j)[13..];
    LittleEndianValue(i, 8);
    LittleEndianValue(j, 8);
  }

  /** A cipher that meets the laws: it writes the associated data in front. */
  function Toy(): Aead {
    Aead((n, aad, p) => aad + p, (n, aad: bytes, ct: bytes) => if aad <= ct then Some(ct[|aad|..]) else None)
  }

  /** The laws asked of the cipher can be met. */
  lemma ToyIsLawful()
    ensures Lawful(Toy())
  {
    forall n: Nonce, i: nat, j: nat, p | i < INDEX_LIMIT && j < INDEX_LIMIT
      ensures Toy().open(n, BlockAad(j), Toy().seal(n, BlockAad(i), p)) == if i == j then Some(p) else None
    {
      var ct := BlockAad(i) + p;
      assert ct[..21] == BlockAad(i) && ct[21..] == p;
      if i != j && BlockAad(j) <= ct { BlockAadIsInjective(i, j); }
    }
  }

  type Cipher = aead: Aead | Lawful(aead) ghost witness (ToyIsLawful(); Toy())

  // ---------- the file ----------

  /** `chunks(BLOCK_SIZE)`, with one empty block for an empty plaintext. */
  function Blocks(plain: bytes): (r: seq<bytes>)
    ensures r != []
    ensures forall i :: 0 <= i < |r| ==> |r[i]| <= BLOCK_SIZE
  {
    if |plain| <= BLOCK_SIZE then [plain] else [plain[..BLOCK_SIZE]] + Blocks(plain[BLOCK_SIZE..])
  }

  lemma {:induction false} FlattenBlocks(plain: bytes)
    ensures Flatten(Blocks(plain)) == plain
  {
    if |plain| <= BLOCK_SIZE {
      assert [plain][..0] == [];
    } else {
      FlattenBlocks(plain[BLOCK_SIZE..]);
      FlattenCons(plain[..BLOCK_SIZE], Blocks(plain[BLOCK_SIZE..]));
      assert plain[..BLOCK_SIZE] + plain[BLOCK_SIZE..] == plain;
    }
  }

  /** One record: nonce, length of the sealed block, sealed block. */
  function Record(aead: Aead, nonce: Nonce, index: nat, block: bytes): bytes {
    var ct := aead.seal(nonce, BlockAad(index), block);
    nonce + LittleEndian(|ct|, 4) + ct
  }

  function Records(aead: Aead, nonces: nat -> Nonce, blocks: seq<bytes>): seq<bytes> {
    seq(|blocks|, i requires 0 <= i < |blocks| => Record(aead, nonces(i), i, blocks[i]))
  }

  lemma FlattenNext(parts: seq<bytes>, k: nat, pre: bytes)
    requires k < |parts|
    ensures pre + Flatten(parts[..k + 1]) == pre + Flatten(parts[..k]) + parts[k]
  {
    assert parts[..k + 1][..k] == parts[..k];
  }

  /** Each record begins with the nonce drawn for it, so that none is used for two records when the draws differ. */
  lemma NoncesAreUsedOnce(aead: Aead, nonces: nat -> Nonce, blocks: seq<bytes>, i: nat, j: nat)
    requires i < j < |blocks| && nonces(i) != nonces(j)
    ensures var records := Records(aead, nonces, blocks);
            && nonces(i) <= records[i] && nonces(j) <= records[j] && |nonces(i)| == |nonces(j)| == 24
            && records[i] != records[j]
  {
    hide LittleEndian, BlockAad;
    var records := Records(aead, nonces, blocks);
    assert records[i][..NONCE_LEN] == nonces(i) && records[j][..NONCE_LEN] == nonces(j);
  }

  /** What `encrypt_blob` writes. */
  function Encrypted(aead: Aead, nonces: nat -> Nonce, plain: bytes): bytes {
    HEADER + Flatten(Records(aead, nonces, Blocks(plain)))
  }

  /** `encrypt_blob`, with the random nonces as a parameter. */
  method EncryptBlob(aead: Aead, nonces: nat -> Nonce, plain: bytes) returns (out: bytes)
    ensures out == Encrypted(aead, nonces, plain)
  {
    hide LittleEndian, HEADER, BlockAad;
    out := HEADER;
    var blocks := Blocks(plain);
    ghost var records := Records(aead, nonces, blocks);
    for idx := 0 to |blocks|
      invariant out == HEADER + Flatten(records[..idx])
    {
      var nonce := nonces(idx);
      var ct := aead.seal(nonce, BlockAad(idx), blocks[idx]);
      var rec := nonce + LittleEndian(|ct|, 4) + ct;
      assert rec == records[idx];
      FlattenNext(records, idx, HEADER);
      out := out + rec;
    }
    assert records[..|records|] == records;
  }

  datatype CryptoError = BadFormat | CorruptOrWrongKey

  /** The record at a position: the plaintext and the position after it. */
  function ReadRecord(aead: Aead, blob: bytes, pos: nat, index: nat): (r: Result<(bytes, nat), CryptoError>)
    requires pos <= |blob|
    ensures r.Ok? ==> pos + NONCE_LEN + 4 <= r.value.1 <= |blob|
  {
    if pos + NONCE_LEN + 4 > |blob| then Err(BadFormat)
    else
      var at := pos + NONCE_LEN + 4;
      var len := LeValue(blob[pos + NONCE_LEN..at]);
      if at + len > |blob| then Err(BadFormat)
      else
        match aead.open(blob[pos..pos + NONCE_LEN], BlockAad(index), blob[at..at + len])
        case Some(p) => Ok((p, at + len))
        case None => Err(CorruptOrWrongKey)
  }

  function Prepend(p: bytes, r: Result<bytes, CryptoError>): Result<bytes, CryptoError> {
    match r
    case Err(e) => Err(e)
    case Ok(rest) => Ok(p + rest)
  }

  /** The plaintext of all records from a position on. */
  function ReadRecords(aead: Aead, blob: bytes, pos: nat, index: nat): Result<bytes, CryptoError>
    requires pos <= |blob|
    decreases |blob| - pos
  {
    if pos == |blob| then Ok([])
    else
      match ReadRecord(aead, blob, pos, index)
      case Err(e) => Err(e)
      case Ok((p, next)) => Prepend(p, ReadRecords(aead, blob, next, index + 1))
  }

  lemma PrependTwice(p: bytes, q: bytes, r: Result<bytes, CryptoError>)
    ensures Prepend(p, Prepend(q, r)) == Prepend(p + q, r)
    ensures Prepend([], r) == r
  {
    if r.Ok? { assert p + (q + r.value) == p + q + r.value && [] + r.value == r.value; }
  }

  /** What `decrypt_blob` computes: only the first eight header octets are checked. */
  function Decrypted(aead: Aead, blob: bytes): Result<bytes, CryptoError> {
    if HasHeader(blob) then ReadRecords(aead, blob, 16, 0) else Err(BadFormat)
  }

  predicate HasHeader(blob: bytes) {
    |blob| >= 16 && blob[..8] == MAGIC
  }

  /** `decrypt_blob`: every step moves forward and stays within the file. */
  method DecryptBlob(aead: Aead, blob: bytes) returns (r: Result<bytes, CryptoError>)
    ensures r == Decrypted(aead, blob)
  {
    if !HasHeader(blob) { return Err(BadFormat); }
    var pos: nat := 16;
    var plain: bytes := [];
    var idx: nat := 0;
    PrependTwice([], [], ReadRecords(aead, blob, 16, 0));
    while pos < |blob|
      invariant 16 <= pos <= |blob|
      invariant Decrypted(aead, blob) == Prepend(plain, ReadRecords(aead, blob, pos, idx))
      decreases |blob| - pos
    {
      ghost var start := pos;
      ReadOneRecord(aead, blob, start, idx, plain);
      if pos + NONCE_LEN + 4 > |blob| { return Err(BadFormat); }
      var nonce := blob[pos..pos + NONCE_LEN];
      pos := pos + NONCE_LEN;
      var len := LeValue(blob[pos..pos + 4]);
      pos := pos + 4;
      if pos + len > |blob| { return Err(BadFormat); }
      var ct := blob[pos..pos + len];
      pos := pos + len;
      var block := aead.open(nonce, BlockAad(idx), ct);
      if block.None? { return Err(CorruptOrWrongKey); }
      assert ReadRecord(aead, blob, start, idx) == Ok((block.value, pos));
      plain := plain + block.value;
      idx := idx + 1;
    }
    assert Decrypted(aead, blob) == Ok(plain + []);
    assert plain + [] == plain;
    return Ok(plain);
  }

  lemma ReadOneRecord(aead: Aead, blob: bytes, pos: nat, index: nat, plain: bytes)
    requires pos < |blob|
    ensures var here := ReadRecord(aead, blob, pos, index);
            Prepend(plain, ReadRecords(aead, blob, pos, index))
            == if here.Err? then Err(here.error)
               else Prepend(plain + here.value.0, ReadRecords(aead, blob, here.value.1, index + 1))
  {
    var here := ReadRecord(aead, blob, pos, index);
    if here.Ok? { PrependTwice(plain, here.value.0, ReadRecords(aead, blob, here.value.1, index + 1)); }
  }

  // ---------- what a file decrypts to ----------

  lemma RecordLayout(aead: Cipher, nonce: Nonce, index: nat, block: bytes, pre: bytes, post: bytes)
    requires index < INDEX_LIMIT && |block| <= BLOCK_SIZE
    ensures var blob := pre + Record(aead, nonce, index, block) + post;
            var at := |pre| + NONCE_LEN + 4;
            var ct := aead.seal(nonce, BlockAad(index), block);
            && at + |ct| == |pre| + |Record(aead, nonce, index, block)| <= |blob|
            && blob[|pre|..|pre| + NONCE_LEN] == nonce
            && LeValue(blob[|pre| + NONCE_LEN..at]) == |ct|
            && blob[at..at + |ct|] == ct
  {
    var ct := aead.seal(nonce, BlockAad(index), block);
    var len := LittleEndian(|ct|, 4);
    var blob := pre + Record(aead, nonce, index, block) + post;
    var at := |pre| + NONCE_LEN + 4;
    assert blob[|pre|..|pre| + NONCE_LEN] == nonce;
    assert blob[|pre| + NONCE_LEN..at] == len;
    assert blob[at..at + |ct|] == ct;
    Pow256Values();
    LittleEndianValue(|ct|, 4);
  }

  /** A record opens at its own index and at no other. */
  lemma ReadRecordBack(aead: Cipher, nonce: Nonce, index: nat, block: bytes, pre: bytes, post: bytes, at: nat)
    requires index < INDEX_LIMIT && at < INDEX_LIMIT && |block| <= BLOCK_SIZE
    ensures ReadRecord(aead, pre + Record(aead, nonce, index, block) + post, |pre|, at)
            == if at == index then Ok((block, |pre| + |Record(aead, nonce, index, block)|)) else Err(CorruptOrWrongKey)
  {
    RecordLayout(aead, nonce, index, block, pre, post);
    var ct := aead.seal(nonce, BlockAad(index), block);
    assert aead.open(nonce, BlockAad(at), ct) == if at == index then Some(block) else None;
  }

  /** A record of some file under the key: its nonce, its index there and its block. */
  datatype Piece = Piece(nonce: Nonce, index: nat, block: bytes)

  /** Pieces of files of at most `n` blocks. */
  predicate GoodPieces(ps: seq<Piece>, n: nat) {
    n < INDEX_LIMIT && forall t :: 0 <= t < |ps| ==> ps[t].index < n && |ps[t].block| <= BLOCK_SIZE
  }

  function PieceRecords(aead: Aead, ps: seq<Piece>): seq<bytes> {
    seq(|ps|, t requires 0 <= t < |ps| => Record(aead, ps[t].nonce, ps[t].index, ps[t].block))
  }

  function PieceBlocks(ps: seq<Piece>): seq<bytes> {
    seq(|ps|, t requires 0 <= t < |ps| => ps[t].block)
  }

  /** Each piece, from one on, is where its index says. */
  predicate InPlace(ps: seq<Piece>, from: nat) {
    forall t :: from <= t < |ps| ==> ps[t].index == t
  }

  lemma FlattenFrom(parts: seq<bytes>, k: nat, pre: bytes)
    requires k < |parts|
    ensures pre + Flatten(parts[k..]) == pre + parts[k] + Flatten(parts[k + 1..])
  {
    assert parts[k..] == [parts[k]] + parts[k + 1..];
    FlattenCons(parts[k], parts[k + 1..]);
  }

  /** The first record decides: it is the record of the index expected, or the reading fails. */
  lemma ReadOne(aead: Cipher, nonce: Nonce, index: nat, block: bytes, pre: bytes, post: bytes, at: nat)
    requires index < INDEX_LIMIT && at < INDEX_LIMIT && |block| <= BLOCK_SIZE
    ensures var record := Record(aead, nonce, index, block);
            ReadRecords(aead, pre + record + post, |pre|, at)
            == if at == index then Prepend(block, ReadRecords(aead, pre + record + post, |pre + record|, at + 1))
               else Err(CorruptOrWrongKey)
  {
    ReadRecordBack(aead, nonce, index, block, pre, post, at);
  }

  /** Reading pieces from the `k`-th on, after pieces that were all in place. */
  lemma {:induction false} ReadPieces(aead: Cipher, ps: seq<Piece>, n: nat, k: nat, records: seq<bytes>, pre: bytes)
    requires GoodPieces(ps, n) && k <= |ps| && k <= n && records == PieceRecords(aead, ps)
    ensures ReadRecords(aead, pre + Flatten(records[k..]), |pre|, k)
            == if InPlace(ps, k) then Ok(Flatten(PieceBlocks(ps)[k..])) else Err(CorruptOrWrongKey)
    decreases |ps| - k
  {
    hide Record, ReadRecord, ReadRecords, PieceRecords, Flatten;
    PieceAt(aead, ps, records);
    if k == |ps| {
      assert records[k..] == [] && PieceBlocks(ps)[k..] == [];
      ReadNothing(aead, pre, k);
    } else {
      FlattenFrom(records, k, pre);
      ReadOne(aead, ps[k].nonce, ps[k].index, ps[k].block, pre, Flatten(records[k + 1..]), k);
      if ps[k].index == k {
        ReadPieces(aead, ps, n, k + 1, records, pre + records[k]);
        FlattenFrom(PieceBlocks(ps), k, []);
        NoPrefix(PieceBlocks(ps), k);
      }
    }
  }

  lemma PieceAt(aead: Aead, ps: seq<Piece>, records: seq<bytes>)
    requires records == PieceRecords(aead, ps)
    ensures |records| == |ps|
    ensures forall t :: 0 <= t < |ps| ==> records[t] == Record(aead, ps[t].nonce, ps[t].index, ps[t].block)
  {}

  lemma ReadNothing(aead: Aead, pre: bytes, at: nat)
    ensures ReadRecords(aead, pre + Flatten([]), |pre|, at) == Ok(Flatten([]))
  {
    assert pre + [] == pre;
  }

  lemma NoPrefix(parts: seq<bytes>, k: nat)
    requires k < |parts|
    ensures [] + Flatten(parts[k..]) == Flatten(parts[k..])
    ensures [] + parts[k] + Flatten(parts[k + 1..]) == parts[k] + Flatten(parts[k + 1..])
  {}

  /** A file put together from records of any files under one key decrypts exactly when each record stands at its own index,
      and then to the blocks in that order: the associated data binds the index, and not the file. */
  lemma PiecesDecryptInPlace(aead: Cipher, ps: seq<Piece>, n: nat)
    requires GoodPieces(ps, n)
    ensures Decrypted(aead, HEADER + Flatten(PieceRecords(aead, ps)))
            == if InPlace(ps, 0) then Ok(Flatten(PieceBlocks(ps))) else Err(CorruptOrWrongKey)
  {
    var records := PieceRecords(aead, ps);
    ReadPieces(aead, ps, n, 0, records, HEADER);
    assert records[0..] == records && PieceBlocks(ps)[0..] == PieceBlocks(ps);
    assert (HEADER + Flatten(records))[..8] == MAGIC;
  }

  /** What was encrypted, with the nonces that were drawn. */
  datatype Blob = Blob(nonces: nat -> Nonce, plain: bytes)

  /** Records chosen from blobs, each by the blob and the index there. */
  predicate Chosen(blobs: seq<Blob>, js: seq<(nat, nat)>) {
    forall t :: 0 <= t < |js| ==> js[t].0 < |blobs| && js[t].1 < |Blocks(blobs[js[t].0].plain)|
  }

  function ChosenPieces(blobs: seq<Blob>, js: seq<(nat, nat)>): seq<Piece>
    requires Chosen(blobs, js)
  {
    seq(|js|, t requires 0 <= t < |js| =>
      Piece(blobs[js[t].0].nonces(js[t].1), js[t].1, Blocks(blobs[js[t].0].plain)[js[t].1]))
  }

  /** Records of several blobs, in any order, with repetition and omission, decrypt together exactly when the `t`-th is the
      `t`-th of its blob: blobs under one key can be spliced block by block, and the result can be none of them. */
  lemma SplicedBlobsDecrypt(aead: Cipher, blobs: seq<Blob>, js: seq<(nat, nat)>)
    requires Chosen(blobs, js)
    requires forall b :: 0 <= b < |blobs| ==> |Blocks(blobs[b].plain)| < INDEX_LIMIT
    ensures var r := Decrypted(aead, HEADER + Flatten(PieceRecords(aead, ChosenPieces(blobs, js))));
            if forall t :: 0 <= t < |js| ==> js[t].1 == t then r == Ok(Flatten(PieceBlocks(ChosenPieces(blobs, js))))
            else r == Err(CorruptOrWrongKey)
  {
    var ps := ChosenPieces(blobs, js);
    PiecesDecryptInPlace(aead, ps, INDEX_LIMIT - 1);
    assert forall t :: 0 <= t < |js| ==> ps[t].index == js[t].1;
  }

  /** Records picked from one file, in any order, with repetition and omission. */
  function Pick(records: seq<bytes>, js: seq<nat>): seq<bytes>
    requires Within(js, |records|)
  {
    seq(|js|, t requires 0 <= t < |js| => records[js[t]])
  }

  predicate Within(js: seq<nat>, n: nat) {
    forall t :: 0 <= t < |js| ==> js[t] < n
  }

  predicate InOrder(js: seq<nat>) {
    forall t :: 0 <= t < |js| ==> js[t] == t
  }

  /** Within one blob: a file put together from its records decrypts exactly when it is a prefix of them in order, and then to
      the corresponding prefix of the plaintext: reordering, repeating and dropping from the middle are refused, dropping from
      the end is not noticed. */
  lemma OnlyPrefixesDecrypt(aead: Cipher, nonces: nat -> Nonce, plain: bytes, js: seq<nat>)
    requires |Blocks(plain)| < INDEX_LIMIT && Within(js, |Blocks(plain)|)
    ensures var r := Decrypted(aead, HEADER + Flatten(Pick(Records(aead, nonces, Blocks(plain)), js)));
            if InOrder(js) then |js| <= |Blocks(plain)| && r == Ok(Flatten(Blocks(plain)[..|js|]))
            else r == Err(CorruptOrWrongKey)
  {
    var blocks := Blocks(plain);
    var ps := seq(|js|, t requires 0 <= t < |js| => Piece(nonces(js[t]), js[t], blocks[js[t]]));
    PiecesDecryptInPlace(aead, ps, |blocks|);
    assert PieceRecords(aead, ps) == Pick(Records(aead, nonces, blocks), js);
    assert forall t :: 0 <= t < |js| ==> ps[t].index == js[t];
    if InOrder(js) {
      if |js| > 0 { assert js[|js| - 1] < |blocks|; }
      assert PieceBlocks(ps) == blocks[..|js|];
    }
  }

  /** Decrypting what was encrypted gives the plaintext back, the empty one included. */
  lemma BlobRoundTrip(aead: Cipher, nonces: nat -> Nonce, plain: bytes)
    requires |Blocks(plain)| < INDEX_LIMIT
    ensures Decrypted(aead, Encrypted(aead, nonces, plain)) == Ok(plain)
  {
    var blocks := Blocks(plain);
    var records := Records(aead, nonces, blocks);
    var js := seq(|blocks|, t => t);
    OnlyPrefixesDecrypt(aead, nonces, plain, js);
    assert Pick(records, js) == records;
    assert blocks[..|blocks|] == blocks;
    FlattenBlocks(plain);
  }

  // ---------- what is cut or foreign ----------

  /** A plaintext is written in blocks of 4096 octets, the last of which may be shorter; an empty one in one empty block. */
  lemma {:induction false} BlocksAreFull(plain: bytes)
    ensures |Blocks(plain)| == if plain == [] then 1 else (|plain| + 4095) / 4096
    ensures forall i :: 0 <= i < |Blocks(plain)| - 1 ==> |Blocks(plain)[i]| == 4096
  {
    if |plain| > BLOCK_SIZE {
      BlocksAreFull(plain[BLOCK_SIZE..]);
      assert forall i :: 0 < i < |Blocks(plain)| ==> Blocks(plain)[i] == Blocks(plain[BLOCK_SIZE..])[i - 1];
    }
  }

  /** A part of a record is no record. */
  lemma CutRecord(aead: Cipher, nonce: Nonce, index: nat, block: bytes, pre: bytes, k: nat, at: nat)
    requires index < INDEX_LIMIT && |block| <= BLOCK_SIZE && 0 < k < |Record(aead, nonce, index, block)|
    ensures ReadRecord(aead, pre + Record(aead, nonce, index, block)[..k], |pre|, at) == Err(BadFormat)
  {
    var rec := Record(aead, nonce, index, block);
    var blob := pre + rec[..k];
    RecordLayout(aead, nonce, index, block, pre, []);
    assert pre + rec + [] == pre + rec;
    if |pre| + NONCE_LEN + 4 <= |blob| {
      assert blob[|pre| + NONCE_LEN..|pre| + NONCE_LEN + 4] == (pre + rec)[|pre| + NONCE_LEN..|pre| + NONCE_LEN + 4];
    }
  }

  /** After `k` whole records of a file, the rest decides. */
  lemma {:induction false} ReadWhole(
      aead: Cipher, nonces: nat -> Nonce, blocks: seq<bytes>, k: nat, t: nat, pre: bytes, tail: bytes)
    requires k <= t <= |blocks| < INDEX_LIMIT && forall i :: 0 <= i < |blocks| ==> |blocks[i]| <= BLOCK_SIZE
    ensures var records := Records(aead, nonces, blocks);
            var whole := pre + Flatten(records[k..t]);
            ReadRecords(aead, whole + tail, |pre|, k)
            == Prepend(Flatten(blocks[k..t]), ReadRecords(aead, whole + tail, |whole|, t))
    decreases t - k
  {
    hide Record, ReadRecord, ReadRecords, Flatten;
    var records := Records(aead, nonces, blocks);
    if k == t {
      assert records[k..t] == [] && blocks[k..t] == [];
      NothingPrepended(aead, pre, tail, k);
    } else {
      var rest := Flatten(records[k + 1..t]);
      assert records[k..t] == [records[k]] + records[k + 1..t] && blocks[k..t] == [blocks[k]] + blocks[k + 1..t];
      FlattenCons(records[k], records[k + 1..t]);
      FlattenCons(blocks[k], blocks[k + 1..t]);
      var whole := pre + Flatten(records[k..t]);
      assert whole == (pre + records[k]) + rest;
      assert whole + tail == pre + records[k] + (rest + tail);
      ReadOne(aead, nonces(k), k, blocks[k], pre, rest + tail, k);
      ReadWhole(aead, nonces, blocks, k + 1, t, pre + records[k], tail);
      PrependTwice(blocks[k], Flatten(blocks[k + 1..t]), ReadRecords(aead, whole + tail, |whole|, t));
    }
  }

  lemma NothingPrepended(aead: Aead, pre: bytes, tail: bytes, k: nat)
    ensures var whole := pre + Flatten([]);
            whole == pre && ReadRecords(aead, whole + tail, |pre|, k)
                            == Prepend(Flatten([]), ReadRecords(aead, whole + tail, |whole|, k))
  {
    assert pre + [] == pre;
    var r := ReadRecords(aead, pre + tail, |pre|, k);
    if r.Ok? { assert [] + r.value == r.value; }
  }

  /** An encrypted file that ends inside a record is refused; so only a cut between two records goes unnoticed. */
  lemma CutFileIsRefused(aead: Cipher, nonces: nat -> Nonce, plain: bytes, t: nat, k: nat)
    requires t < |Blocks(plain)| < INDEX_LIMIT && 0 < k < |Records(aead, nonces, Blocks(plain))[t]|
    ensures var records := Records(aead, nonces, Blocks(plain));
            Decrypted(aead, HEADER + Flatten(records[..t]) + records[t][..k]) == Err(BadFormat)
  {
    hide Blocks, Record, ReadRecords, Flatten;
    var blocks := Blocks(plain);
    var records := Records(aead, nonces, blocks);
    var whole := HEADER + Flatten(records[..t]);
    assert records[0..t] == records[..t];
    ReadWhole(aead, nonces, blocks, 0, t, HEADER, records[t][..k]);
    CutTail(aead, nonces(t), t, blocks[t], whole, k);
    assert (whole + records[t][..k])[..8] == MAGIC;
  }

  lemma CutTail(aead: Cipher, nonce: Nonce, index: nat, block: bytes, pre: bytes, k: nat)
    requires index < INDEX_LIMIT && |block| <= BLOCK_SIZE && 0 < k < |Record(aead, nonce, index, block)|
    ensures ReadRecords(aead, pre + Record(aead, nonce, index, block)[..k], |pre|, index) == Err(BadFormat)
  {
    CutRecord(aead, nonce, index, block, pre, k, index);
    hide Record, ReadRecord;
  }

  /** What does not begin with the eight octets of the format, or is shorter than its header, is refused. */
  lemma ForeignFileIsRefused(aead: Aead, blob: bytes)
    requires |blob| < 16 || blob[..8] != [0x56, 0x4C, 0x54, 0x44, 0x42, 0x30, 0x31, 0]
    ensures Decrypted(aead, blob) == Err(BadFormat)
  {}
}
