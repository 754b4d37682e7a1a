/** The response half of the framing: what the server prints and how the client reads it. */
module HttpResponse {
  import opened Common
  import opened Text
  import opened HttpText
  import opened Http

  datatype Response = Response(status: nat, body: bytes)

  datatype ClientError = ClosedEarly | HeadersTooLarge | BadStatusLine | NoContentLength | Truncated

  // ---------- printing ----------

  function Reason(status: nat): string {
    if status == 200 then "OK"
    else if status == 400 then "Bad Request"
    else if status == 403 then "Forbidden"
    else if status == 404 then "Not Found"
    else if status == 422 then "Unprocessable Entity"
    else "Error"
  }

  function ResponseLines(status: nat, bodyLength: nat, close: bool): seq<string> {
    [ "HTTP/1.1" + " " + (ToDec(status) + " " + Reason(status)),
      HeaderLine("Content-Type", "application/json"),
      HeaderLine("Content-Length", ToDec(bodyLength)),
      HeaderLine("Connection", if close then "close" else "keep-alive") ]
  }

  /** `json_response` */
  function JsonResponse(status: nat, json: string, close: bool): bytes {
    var body := Utf8.Encode(json);
    Utf8.Encode(JoinLines(ResponseLines(status, |body|, close))) + HEAD_END + body
  }

  // ---------- reading ----------

  /** The value of the first Content-Length line, whatever its case. */
  function FirstLength(lines: seq<string>): Option<string> {
    if lines == [] then None
    else
      var kv := SplitColon(lines[0]);
      if kv.Some? && AsciiLower(Trim(kv.value.0)) == "content-length" then Some(Trim(kv.value.1))
      else FirstLength(lines[1..])
  }

  /** `parse_head`: the status code and the declared length. */
  function ParseResponseHead(head: string): Result<(nat, nat), ClientError> {
    var lines := Lines(head);
    var tokens := if lines == [] then [] else Tokens(lines[0]);
    var status := if |tokens| > 1 then ParseUnsigned(tokens[1], U16_VALUES) else None;
    if status.None? then Err(BadStatusLine)
    else
      var text := FirstLength(lines[1..]);
      var n := if text.Some? then ParseUnsigned(text.value, U64_VALUES) else None;
      if n.None? then Err(NoContentLength) else Ok((status.value, n.value))
  }

  /** What the bytes of a connection say, given where the head ends. */
  function ResponseAt(lib: Lib, s: bytes, p: nat): Result<Response, ClientError>
    requires EndsHeadAt(s, p)
  {
    var head := ParseResponseHead(lib.lossy(s[..p]));
    if head.Err? then Err(head.error)
    else if |s| < p + 4 + head.value.1 then Err(Truncated)
    else Ok(Response(head.value.0, s[p + 4..p + 4 + head.value.1]))
  }

  /** A read result is right for the bytes of the connection, however they were split; the splitting can matter only for a
      head that may reach the limit within one read. */
  ghost predicate Replies(lib: Lib, s: bytes, r: Result<Response, ClientError>) {
    var end := FindHeaderEnd(s);
    if end.None? then r == Err(if |s| <= MAX_HEAD then ClosedEarly else HeadersTooLarge)
    else
      || r == ResponseAt(lib, s, end.value)
      || (end.value + 3 + READ_SIZE > MAX_HEAD && r == Err(HeadersTooLarge))
  }

  /** `read_response` */
  method ReadResponse(lib: Lib, stream: ByteStream) returns (r: Result<Response, ClientError>)
    requires stream.Valid()
    modifies stream
    ensures Replies(lib, old(stream.Rest()), r)
  {
    hide ParseResponseHead;
    var buf: bytes := [];
    var end := FindHeaderEnd(buf);
    ghost var s := stream.Rest();
    while end.None?
      invariant stream.Valid() && s == buf + stream.Rest()
      invariant end == FindHeaderEnd(buf) && |buf| <= MAX_HEAD
      decreases |stream.chunks|, end.None?
    {
      ghost var before := buf;
      FindInPrefix(buf, stream.Rest());
      var chunk := stream.Read();
      if chunk == [] {
        assert buf + [] == buf;
        return Err(ClosedEarly);
      }
      buf := buf + chunk;
      assert before + (chunk + stream.Rest()) == buf + stream.Rest();
      if |buf| > MAX_HEAD { return Err(HeadersTooLarge); }
      end := FindHeaderEnd(buf);
    }
    FindInPrefix(buf, stream.Rest());
    var p := end.value;
    var head := ParseResponseHead(lib.lossy(buf[..p]));
    AfterHead(buf, stream.Rest(), p, if head.Ok? then head.value.1 else 0);
    if head.Err? { return Err(head.error); }
    var body := ReadBody(stream, buf[p + 4..], head.value.1);
    if body.None? { return Err(Truncated); }
    return Ok(Response(head.value.0, body.value));
  }

  // ---------- the round trip ----------

  lemma ShortReasonsAreGood()
    ensures GoodLine("OK") && GoodLine("Error") && GoodLine("Forbidden") && GoodLine("Not Found")
  {}

  lemma LongReasonsAreGood()
    ensures GoodLine("Bad Request") && GoodLine("Unprocessable Entity")
  {}

  lemma ReasonIsGood(status: nat)
    ensures GoodLine(Reason(status))
  {
    hide GoodLine;
    ShortReasonsAreGood();
    LongReasonsAreGood();
  }

  lemma StatusLineIsGood(status: nat)
    ensures GoodLine("HTTP/1.1" + " " + (ToDec(status) + " " + Reason(status)))
  {
    DecimalIsPlain(status);
    ReasonIsGood(status);
    hide Reason, ToDec;
    GoodConcat(ToDec(status), " ");
    GoodConcat(ToDec(status) + " ", Reason(status));
    GoodConcat("HTTP/1.1" + " ", ToDec(status) + " " + Reason(status));
  }

  lemma ResponseLinesAreGood(status: nat, n: nat, close: bool)
    ensures GoodLines(ResponseLines(status, n, close))
  {
    StatusLineIsGood(status);
    hide HeaderLine, Reason, ToDec;
    CommonLinesAreGood(n);
    GoodHeaderLine("Connection", if close then "close" else "keep-alive");
  }

  lemma StatusToken(status: nat)
    ensures var tokens := Tokens("HTTP/1.1" + " " + (ToDec(status) + " " + Reason(status)));
            |tokens| > 1 && tokens[1] == ToDec(status)
  {
    DecimalIsPlain(status);
    TokensCons("HTTP/1.1", ToDec(status) + " " + Reason(status));
    TokensCons(ToDec(status), Reason(status));
  }

  lemma SkipHeader(name: string, value: string, rest: seq<string>)
    requires Plain(name, value) && AsciiLower(name) != "content-length"
    ensures FirstLength([HeaderLine(name, value)] + rest) == FirstLength(rest)
  {
    SplitHeaderLine(name, value);
    assert ([HeaderLine(name, value)] + rest)[1..] == rest;
  }

  lemma FindLength(value: string, rest: seq<string>)
    requires Trimmed(value)
    ensures FirstLength([HeaderLine("Content-Length", value)] + rest) == Some(value)
  {
    SplitHeaderLine("Content-Length", value);
    assert AsciiLower("Content-Length") == "content-length";
  }

  lemma ResponseLength(status: nat, n: nat, close: bool)
    ensures FirstLength(ResponseLines(status, n, close)[1..]) == Some(ToDec(n))
  {
    hide FirstLength, ToDec, Reason;
    DecimalIsPlain(n);
    var rest := [HeaderLine("Connection", if close then "close" else "keep-alive")];
    FindLength(ToDec(n), rest);
    assert |AsciiLower("Content-Type")| == 12;
    SkipHeader("Content-Type", "application/json", [HeaderLine("Content-Length", ToDec(n))] + rest);
    assert ResponseLines(status, n, close)[1..]
        == [HeaderLine("Content-Type", "application/json")] + ([HeaderLine("Content-Length", ToDec(n))] + rest);
  }

  lemma ResponseHeadReadsBack(lib: Lib, status: nat, n: nat, close: bool)
    requires LibLaws(lib) && status < U16_VALUES && n < U64_VALUES
    ensures ParseResponseHead(lib.lossy(Utf8.Encode(JoinLines(ResponseLines(status, n, close))))) == Ok((status, n))
  {
    var ls := ResponseLines(status, n, close);
    ResponseLinesAreGood(status, n, close);
    Utf8.DecodeEncoded(JoinLines(ls));
    LinesOfJoined(ls);
    StatusToken(status);
    ResponseLength(status, n, close);
    ParsePrinted(status, U16_VALUES);
    ParsePrinted(n, U64_VALUES);
  }

  lemma ResponseHeadIsShort(status: nat, n: nat, close: bool)
    requires status < U16_VALUES && n < U64_VALUES
    ensures |Utf8.Encode(JoinLines(ResponseLines(status, n, close)))| <= 300
  {
    hide JoinLines, ToDec, Pow10, Utf8.Encode;
    var ls := ResponseLines(status, n, close);
    ResponseLinesAreGood(status, n, close);
    JoinedShape(ls);
    Utf8.EncodeAscii(JoinLines(ls));
    Pow10Of20();
    ToDecLength(n, 20);
    ToDecLength(status, 20);
    JoinedLength(ls, 50);
  }

  /** However the server's response is split into reads, the client reads back its status and its body, for every status
      and every text, kept alive or closed; bytes of a later response on the connection are left out of it. */
  lemma ResponseRoundTrip(lib: Lib, status: nat, json: string, close: bool, later: bytes)
    requires LibLaws(lib) && status < U16_VALUES && |Utf8.Encode(json)| < U64_VALUES
    ensures forall r :: Replies(lib, JsonResponse(status, json, close) + later, r) ==>
              r == Ok(Response(status, Utf8.Encode(json)))
  {
    hide ParseResponseHead, FindHeaderEnd, GoodLines, JoinLines, ResponseLines, Utf8.Encode;
    var body := Utf8.Encode(json);
    var ls := ResponseLines(status, |body|, close);
    var head := Utf8.Encode(JoinLines(ls));
    var s := JsonResponse(status, json, close) + later;
    assert s == head + HEAD_END + (body + later);
    ResponseLinesAreGood(status, |body|, close);
    PrintedHeadEnd(ls, body + later);
    ResponseHeadIsShort(status, |body|, close);
    ResponseHeadReadsBack(lib, status, |body|, close);
    assert s[..|head|] == head;
    assert s[|head| + 4..|head| + 4 + |body|] == body;
  }
}
