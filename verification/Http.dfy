/** The hand-written HTTP framing of the synchronisation channel: requests and responses over a stream that delivers its
    bytes in reads of any size up to the buffer's. */
module Http {
  import opened Common
  import opened Text
  import opened HttpText

  const MAX_HEAD := 65536
  const READ_SIZE := 4096
  const U16_VALUES := 0x1_0000
  const U64_VALUES := 0x1_0000_0000_0000_0000

  /** A connection, as the reads that it will deliver; after the last one every read returns nothing. */
  class ByteStream {
    var chunks: seq<bytes>

    ghost predicate Valid()
      reads this
    {
      forall i :: 0 <= i < |chunks| ==> 1 <= |chunks[i]| <= READ_SIZE
    }

    ghost function Rest(): bytes
      reads this
    {
      Flatten(chunks)
    }

    method Read() returns (r: bytes)
      requires Valid()
      modifies this
      ensures Valid() && old(Rest()) == r + Rest()
      ensures |r| <= READ_SIZE && (r == [] <==> old(chunks) == []) && (r == [] ==> chunks == [])
      ensures r != [] ==> |chunks| < |old(chunks)|
    {
      if chunks == [] { return []; }
      r := chunks[0];
      assert chunks == [chunks[0]] + chunks[1..];
      FlattenCons(chunks[0], chunks[1..]);
      chunks := chunks[1..];
    }
  }

  // ---------- the server side ----------

  datatype ServerError = CutInHead | HeadTooLarge | EmptyRequest | ChunkedBody | BodyTooLarge | CutInBody

  datatype Request = Request(verb: string, path: string, headers: map<string, string>, body: Option<bytes>)

  predicate IsChunked(lib: Lib, headers: map<string, string>) {
    "transfer-encoding" in headers && Contains(lib.lower(headers["transfer-encoding"]), "chunked")
  }

  function ContentLength(headers: map<string, string>): nat {
    if "content-length" in headers then
      var n := ParseUnsigned(headers["content-length"], U64_VALUES);
      if n.Some? then n.value else 0
    else 0
  }

  /** The request line and the headers of a head without its final empty line. */
  function ParseRequestHead(lib: Lib, head: string): Option<Request> {
    var lines := Lines(head);
    if lines == [] then None
    else
      var tokens := Tokens(lines[0]);
      var verb := if |tokens| > 0 then tokens[0] else "";
      var path := if |tokens| > 1 then tokens[1] else "/";
      Some(Request(verb, path, HeaderMap(lib, lines[1..]), None))
  }

  /** What the bytes of a connection say, given where the head ends: nothing depends on how they were split into reads. */
  function RequestAt(lib: Lib, maxBody: nat, s: bytes, p: nat): Result<Option<Request>, ServerError>
    requires EndsHeadAt(s, p)
  {
    var head := ParseRequestHead(lib, lib.lossy(s[..p]));
    if head.None? then Err(EmptyRequest)
    else if IsChunked(lib, head.value.headers) then Err(ChunkedBody)
    else
      var n := ContentLength(head.value.headers);
      if n > maxBody then Err(BodyTooLarge)
      else if |s| < p + 4 + n then Err(CutInBody)
      else Ok(Some(head.value.(body := if n > 0 then Some(s[p + 4..p + 4 + n]) else None)))
  }

  /** A read result is right for the bytes of the connection. Only a head longer than the limit leaves room for the
      splitting to matter: it may be refused, or still be found within the read that crossed the limit. */
  ghost predicate Answers(lib: Lib, maxBody: nat, s: bytes, r: Result<Option<Request>, ServerError>) {
    var end := FindHeaderEnd(s);
    if end.None? then
      r == if s == [] then Ok(None) else if |s| <= MAX_HEAD then Err(CutInHead) else Err(HeadTooLarge)
    else
      || r == RequestAt(lib, maxBody, s, end.value)
      || (end.value + 3 > MAX_HEAD && r == Err(HeadTooLarge))
  }

  /** The first loop of `read_http_request`. */
  method ReadHead(stream: ByteStream) returns (buf: bytes, r: Result<Option<nat>, ServerError>)
    requires stream.Valid()
    modifies stream
    ensures stream.Valid() && old(stream.Rest()) == buf + stream.Rest()
    ensures r.Ok? && r.value.Some? ==> FindHeaderEnd(old(stream.Rest())) == FindHeaderEnd(buf) == r.value
    ensures r == Ok(None) <==> old(stream.Rest()) == []
    ensures r.Err? ==> (r.error.CutInHead? || r.error.HeadTooLarge?) && FindHeaderEnd(buf).None?
    ensures r == Err(CutInHead) ==> buf == old(stream.Rest()) && |buf| <= MAX_HEAD
    ensures r == Err(HeadTooLarge) ==> |buf| > MAX_HEAD
  {
    buf := [];
    while true
      invariant stream.Valid() && old(stream.Rest()) == buf + stream.Rest()
      invariant FindHeaderEnd(buf).None? && |buf| <= MAX_HEAD
      decreases |stream.chunks|
    {
      ghost var before := buf;
      var chunk := stream.Read();
      if chunk == [] {
        assert buf + [] == buf;
        if buf == [] { return buf, Ok(None); }
        return buf, Err(CutInHead);
      }
      buf := buf + chunk;
      assert before + (chunk + stream.Rest()) == buf + stream.Rest();
      FindInPrefix(buf, stream.Rest());
      var end := FindHeaderEnd(buf);
      if end.Some? { return buf, Ok(end); }
      if |buf| > MAX_HEAD { return buf, Err(HeadTooLarge); }
    }
  }

  /** The second loop of both readers: at least `n` bytes of body, cut to `n`; nothing when the connection ends first. */
  method ReadBody(stream: ByteStream, start: bytes, n: nat) returns (r: Option<bytes>)
    requires stream.Valid()
    modifies stream
    ensures var all := start + old(stream.Rest()); r == if |all| < n then None else Some(all[..n])
  {
    var body := start;
    ghost var all := start + stream.Rest();
    while |body| < n
      invariant stream.Valid() && all == body + stream.Rest()
      decreases |stream.chunks|
    {
      var chunk := stream.Read();
      if chunk == [] {
        assert body + [] == body;
        return None;
      }
      ghost var before := body;
      body := body + chunk;
      assert before + (chunk + stream.Rest()) == body + stream.Rest();
    }
    assert all[..n] == body[..n];
    return Some(body[..n]);
  }

  /** The rest of a connection after its head. */
  lemma AfterHead(buf: bytes, rest: bytes, p: nat, n: nat)
    requires EndsHeadAt(buf, p)
    ensures var s, all := buf + rest, buf[p + 4..] + rest;
            && EndsHeadAt(s, p) && s[..p] == buf[..p] && |all| == |s| - p - 4
            && (n <= |all| ==> s[p + 4..p + 4 + n] == all[..n])
  {
    var s := buf + rest;
    assert s[p..p + 4] == buf[p..p + 4];
    assert s[p + 4..] == buf[p + 4..] + rest;
    if n <= |s| - p - 4 { assert s[p + 4..p + 4 + n] == s[p + 4..][..n]; }
  }

  /** `read_http_request` */
  method ReadHttpRequest(lib: Lib, stream: ByteStream, maxBody: nat) returns (r: Result<Option<Request>, ServerError>)
    requires stream.Valid()
    modifies stream
    ensures Answers(lib, maxBody, old(stream.Rest()), r)
  {
    hide ParseRequestHead, IsChunked, ContentLength, FindHeaderEnd;
    var buf, end := ReadHead(stream);
    FindInPrefix(buf, stream.Rest());
    if end.Err? { return Err(end.error); }
    if end.value.None? {
      assert FindHeaderEnd(buf + stream.Rest()).None?;
      return Ok(None);
    }
    var p := end.value.value;
    var head := ParseRequestHead(lib, lib.lossy(buf[..p]));
    AfterHead(buf, stream.Rest(), p, if head.Some? then ContentLength(head.value.headers) else 0);
    if head.None? { return Err(EmptyRequest); }
    if IsChunked(lib, head.value.headers) { return Err(ChunkedBody); }
    var n := ContentLength(head.value.headers);
    if n > maxBody { return Err(BodyTooLarge); }
    var body := ReadBody(stream, buf[p + 4..], n);
    if body.None? { return Err(CutInBody); }
    return Ok(Some(head.value.(body := if n > 0 then body else None)));
  }

  // ---------- the client's request ----------

  function RequestLines(verb: string, path: string, bodyLength: nat): seq<string> {
    [ verb + " " + (path + " " + "HTTP/1.1"),
      HeaderLine("Host", "vault"),
      HeaderLine("Content-Type", "application/json"),
      HeaderLine("Content-Length", ToDec(bodyLength)),
      HeaderLine("Connection", "close") ]
  }

  /** The bytes that the client writes for a request. */
  function RequestBytes(verb: string, path: string, body: bytes): bytes {
    Utf8.Encode(JoinLines(RequestLines(verb, path, |body|))) + HEAD_END + body
  }

  /** `upload`: one line of envelope, then the file. */
  function UploadBody(envelope: string, file: bytes): bytes {
    Utf8.Encode(envelope) + [10] + file
  }

  function RequestHeaders(bodyLength: nat): map<string, string> {
    map[ "host" := "vault",
         "content-type" := "application/json",
         "content-length" := ToDec(bodyLength),
         "connection" := "close" ]
  }

  lemma DecimalIsPlain(n: nat)
    ensures GoodLine(ToDec(n)) && Token(ToDec(n)) && Trimmed(ToDec(n))
  {
    var s := ToDec(n);
    assert forall i :: 0 <= i < |s| ==> IsDigit(s[i]);
  }

  lemma GoodConcat(a: string, b: string)
    requires GoodLine(a) && GoodLine(b)
    ensures GoodLine(a + b)
  {}

  lemma TokenIsGoodLine(t: string)
    requires Token(t) && Utf8.IsAscii(t)
    ensures GoodLine(t)
  {}

  lemma GoodHeaderLine(name: string, value: string)
    requires GoodLine(name) && GoodLine(value)
    ensures GoodLine(HeaderLine(name, value))
  {
    GoodConcat(":", " ");
    GoodConcat(name, ": ");
    GoodConcat(name + ": ", value);
    assert HeaderLine(name, value) == name + ": " + value;
  }

  lemma RequestLinesAreGood(verb: string, path: string, n: nat)
    requires Token(verb) && Utf8.IsAscii(verb) && Token(path) && Utf8.IsAscii(path)
    ensures GoodLines(RequestLines(verb, path, n))
  {
    assert GoodLine(verb + " " + (path + " " + "HTTP/1.1")) by {
      TokenIsGoodLine(verb);
      TokenIsGoodLine(path);
      GoodConcat(path + " ", "HTTP/1.1");
      GoodConcat(verb + " ", path + " " + "HTTP/1.1");
    }
    GoodHeaderLine("Host", "vault");
    CommonLinesAreGood(n);
    GoodHeaderLine("Connection", "close");
  }

  /** The two header lines that requests and responses share. */
  lemma CommonLinesAreGood(n: nat)
    ensures GoodLine(HeaderLine("Content-Type", "application/json"))
    ensures GoodLine(HeaderLine("Content-Length", ToDec(n)))
  {
    GoodHeaderLine("Content-Type", "application/json");
    DecimalIsPlain(n);
    GoodHeaderLine("Content-Length", ToDec(n));
  }

  lemma RequestTokens(verb: string, path: string)
    requires Token(verb) && Token(path)
    ensures Tokens(verb + " " + (path + " " + "HTTP/1.1")) == [verb, path, "HTTP/1.1"]
  {
    hide Tokens;
    TokensCons(verb, path + " " + "HTTP/1.1");
    TokensCons(path, "HTTP/1.1");
    TokensCons("HTTP/1.1", "");
  }

  lemma LowerContentType()
    ensures AsciiLower("Content-Type") == "content-type"
  {}

  lemma LowerContentLength()
    ensures AsciiLower("Content-Length") == "content-length"
  {}

  lemma LowerNames(lib: Lib)
    requires LibLaws(lib)
    ensures lib.lower("Host") == "host"
    ensures lib.lower("Content-Type") == "content-type"
    ensures lib.lower("Content-Length") == "content-length"
    ensures lib.lower("Connection") == "connection"
  {
    assert AsciiLower("Host") == "host";
    LowerContentType();
    LowerContentLength();
    assert AsciiLower("Connection") == "connection";
    hide AsciiLower;
  }

  lemma HeaderMapSnoc(lib: Lib, lines: seq<string>, name: string, value: string)
    requires Plain(name, value)
    ensures HeaderMap(lib, lines + [HeaderLine(name, value)]) == HeaderMap(lib, lines)[lib.lower(name) := value]
  {
    var ls := lines + [HeaderLine(name, value)];
    assert ls[..|lines|] == lines;
    SplitHeaderLine(name, value);
  }

  predicate Plain(name: string, value: string) {
    ':' !in name && Trimmed(name) && Trimmed(value)
  }

  lemma FourHeaders(lib: Lib, a: string, x: string, b: string, y: string, c: string, z: string, d: string, w: string)
    requires Plain(a, x) && Plain(b, y) && Plain(c, z) && Plain(d, w)
    ensures HeaderMap(lib, [HeaderLine(a, x), HeaderLine(b, y), HeaderLine(c, z), HeaderLine(d, w)])
            == map[][lib.lower(a) := x][lib.lower(b) := y][lib.lower(c) := z][lib.lower(d) := w]
  {
    var l1, l2, l3, l4 := HeaderLine(a, x), HeaderLine(b, y), HeaderLine(c, z), HeaderLine(d, w);
    HeaderMapSnoc(lib, [], a, x);
    HeaderMapSnoc(lib, [l1], b, y);
    HeaderMapSnoc(lib, [l1, l2], c, z);
    HeaderMapSnoc(lib, [l1, l2, l3], d, w);
    assert [] + [l1] == [l1] && [l1] + [l2] == [l1, l2];
    assert [l1, l2] + [l3] == [l1, l2, l3] && [l1, l2, l3] + [l4] == [l1, l2, l3, l4];
  }

  lemma RequestHeaderMap(lib: Lib, verb: string, path: string, n: nat)
    requires LibLaws(lib)
    ensures HeaderMap(lib, RequestLines(verb, path, n)[1..]) == RequestHeaders(n)
  {
    DecimalIsPlain(n);
    LowerNames(lib);
    FourHeaders(lib, "Host", "vault", "Content-Type", "application/json", "Content-Length", ToDec(n), "Connection", "close");
    assert RequestLines(verb, path, n)[1..]
        == [HeaderLine("Host", "vault"), HeaderLine("Content-Type", "application/json"),
            HeaderLine("Content-Length", ToDec(n)), HeaderLine("Connection", "close")];
  }

  lemma RequestHeadReadsBack(lib: Lib, verb: string, path: string, n: nat)
    requires LibLaws(lib)
    requires Token(verb) && Utf8.IsAscii(verb) && Token(path) && Utf8.IsAscii(path)
    ensures ParseRequestHead(lib, lib.lossy(Utf8.Encode(JoinLines(RequestLines(verb, path, n)))))
            == Some(Request(verb, path, RequestHeaders(n), None))
  {
    var ls := RequestLines(verb, path, n);
    RequestLinesAreGood(verb, path, n);
    Utf8.DecodeEncoded(JoinLines(ls));
    LinesOfJoined(ls);
    RequestTokens(verb, path);
    RequestHeaderMap(lib, verb, path, n);
  }

  /** A request as the client writes it is read by the server with the same method, path, headers and body,
      or refused for exceeding the server's limit. */
  lemma RequestRoundTrip(lib: Lib, maxBody: nat, verb: string, path: string, body: bytes)
    requires LibLaws(lib) && |body| < U64_VALUES
    requires Token(verb) && Utf8.IsAscii(verb) && Token(path) && Utf8.IsAscii(path)
    ensures var s := RequestBytes(verb, path, body);
            var end := FindHeaderEnd(s);
            && end.Some?
            && RequestAt(lib, maxBody, s, end.value)
               == if |body| > maxBody then Err(BodyTooLarge)
                  else Ok(Some(Request(verb, path, RequestHeaders(|body|), if body == [] then None else Some(body))))
  {
    hide JoinLines, RequestLines, ParseRequestHead, FindHeaderEnd, GoodLines, ParseUnsigned, ToDec, Token, Utf8.IsAscii;
    var ls := RequestLines(verb, path, |body|);
    var head := Utf8.Encode(JoinLines(ls));
    var s := RequestBytes(verb, path, body);
    RequestLinesAreGood(verb, path, |body|);
    PrintedHeadEnd(ls, body);
    assert s[..|head|] == head;
    assert s[|head| + 4..|head| + 4 + |body|] == body;
    RequestHeadReadsBack(lib, verb, path, |body|);
    ParsePrinted(|body|, U64_VALUES);
  }

  // ---------- uploads ----------

  function IndexOfByte(b: bytes, x: byte): (i: nat)
    ensures i <= |b|
  {
    if b == [] || b[0] == x then 0 else 1 + IndexOfByte(b[1..], x)
  }

  lemma {:induction false} IndexOfFirstByte(a: bytes, x: byte, b: bytes)
    requires x !in a
    ensures IndexOfByte(a + [x] + b, x) == |a|
  {
    if a != [] {
      assert (a + [x] + b)[1..] == a[1..] + [x] + b;
      IndexOfFirstByte(a[1..], x, b);
    }
  }

  /** The upload arm of `handle_conn`: the envelope text and the file, or status 400. */
  function UploadParts(lib: Lib, body: Option<bytes>): Option<(string, bytes)> {
    if body.None? then None
    else
      var i := IndexOfByte(body.value, 10);
      if i == |body.value| then None else Some((lib.lossy(body.value[..i]), body.value[i + 1..]))
  }

  lemma UploadPartsRoundTrip(lib: Lib, envelope: string, file: bytes)
    requires LibLaws(lib) && '\n' !in envelope
    ensures UploadParts(lib, Some(UploadBody(envelope, file))) == Some((envelope, file))
  {
    var e := Utf8.Encode(envelope);
    var body := UploadBody(envelope, file);
    Utf8.AsciiOctetIsAsciiChar(envelope, '\n');
    IndexOfFirstByte(e, 10, file);
    assert body[..|e|] == e && body[|e| + 1..] == file;
    Utf8.DecodeEncoded(envelope);
  }

  lemma UploadHeadIsShort(n: nat)
    requires n < U64_VALUES
    ensures |Utf8.Encode(JoinLines(RequestLines("POST", "/v1/upload", n)))| <= 300
  {
    hide JoinLines, ToDec, Pow10, Utf8.Encode;
    var ls := RequestLines("POST", "/v1/upload", n);
    RequestLinesAreGood("POST", "/v1/upload", n);
    JoinedShape(ls);
    Utf8.EncodeAscii(JoinLines(ls));
    Pow10Of20();
    ToDecLength(n, 20);
    JoinedLength(ls, 45);
  }

  lemma Pow10Of20()
    ensures Pow10(20) == 100_000_000_000_000_000_000
  {
    assert Pow10(5) == 100_000;
    assert Pow10(10) == 10_000_000_000;
    assert Pow10(15) == 1_000_000_000_000_000;
  }

  lemma {:induction false} JoinedLength(ls: seq<string>, k: nat)
    requires forall i :: 0 <= i < |ls| ==> |ls[i]| <= k
    ensures |JoinLines(ls)| <= |ls| * (k + 2)
  {
    if |ls| > 1 {
      JoinedLength(ls[1..], k);
      assert |ls| * (k + 2) == (|ls| - 1) * (k + 2) + k + 2;
    }
  }

  /** The server's side of an upload, from the stream to the envelope and the file. */
  method ServeUpload(lib: Lib, stream: ByteStream, maxBody: nat, ghost envelope: string, ghost file: bytes)
    returns (r: Option<(string, bytes)>)
    requires LibLaws(lib) && stream.Valid()
    requires '\n' !in envelope && |UploadBody(envelope, file)| <= maxBody < U64_VALUES
    requires stream.Rest() == RequestBytes("POST", "/v1/upload", UploadBody(envelope, file))
    modifies stream
    ensures r == Some((envelope, file))
  {
    UploadArrives(lib, maxBody, envelope, file);
    var request := ReadHttpRequest(lib, stream, maxBody);
    if request.Err? || request.value.None? { return None; }
    var q := request.value.value;
    if q.verb != "POST" || q.path != "/v1/upload" { return None; }
    UploadPartsRoundTrip(lib, envelope, file);
    return UploadParts(lib, q.body);
  }

  /** However the bytes of an upload are split into reads, the server reads POST /v1/upload with exactly that body. */
  lemma UploadArrives(lib: Lib, maxBody: nat, envelope: string, file: bytes)
    requires LibLaws(lib) && |UploadBody(envelope, file)| <= maxBody < U64_VALUES
    ensures var body := UploadBody(envelope, file);
            forall r :: Answers(lib, maxBody, RequestBytes("POST", "/v1/upload", body), r) ==>
              r == Ok(Some(Request("POST", "/v1/upload", RequestHeaders(|body|), Some(body))))
  {
    var body := UploadBody(envelope, file);
    RequestRoundTrip(lib, maxBody, "POST", "/v1/upload", body);
    UploadHeadIsShort(|body|);
    RequestLinesAreGood("POST", "/v1/upload", |body|);
    PrintedHeadEnd(RequestLines("POST", "/v1/upload", |body|), body);
  }
}
