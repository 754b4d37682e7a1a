/** Connections that end too early, and bodies without a declared length: what the framing refuses. */
module HttpCuts {
  import opened Common
  import opened Text
  import opened HttpText
  import opened Http
  import opened HttpResponse
  import Utf8

  /** A request of which the last bytes are missing, however few, is never taken for a request: nothing at all reads as the end
      of the connection, anything else as an error. */
  lemma CutRequestIsRefused(lib: Lib, maxBody: nat, verb: string, path: string, body: bytes, n: nat)
    requires LibLaws(lib) && |body| < U64_VALUES
    requires Token(verb) && Utf8.IsAscii(verb) && Token(path) && Utf8.IsAscii(path)
    requires n < |RequestBytes(verb, path, body)|
    ensures forall r :: Answers(lib, maxBody, RequestBytes(verb, path, body)[..n], r) ==>
              if n == 0 then r == Ok(None) else r.Err?
  {
    hide JoinLines, RequestLines, ParseRequestHead, FindHeaderEnd, GoodLines, ParseUnsigned, ToDec, Token, Utf8.IsAscii,
      Utf8.Encode;
    var ls := RequestLines(verb, path, |body|);
    var head := Utf8.Encode(JoinLines(ls));
    var s := RequestBytes(verb, path, body);
    var cut := s[..n];
    assert s == cut + s[n..] && s == head + HEAD_END + body;
    RequestLinesAreGood(verb, path, |body|);
    PrintedHeadEnd(ls, body);
    FindInPrefix(cut, s[n..]);
    RequestHeadReadsBack(lib, verb, path, |body|);
    ParsePrinted(|body|, U64_VALUES);
    if FindHeaderEnd(cut).Some? {
      assert cut[..|head|] == head;
      CutBodyIsRefused(lib, maxBody, cut, |head|, verb, path, |body|);
    }
  }

  lemma CutBodyIsRefused(lib: Lib, maxBody: nat, s: bytes, p: nat, verb: string, path: string, n: nat)
    requires EndsHeadAt(s, p) && |s| < p + 4 + n && ParseUnsigned(ToDec(n), U64_VALUES) == Some(n)
    requires ParseRequestHead(lib, lib.lossy(s[..p])) == Some(Request(verb, path, RequestHeaders(n), None))
    ensures RequestAt(lib, maxBody, s, p) == Err(if n > maxBody then BodyTooLarge else CutInBody)
  {
    hide ParseRequestHead, ParseUnsigned, ToDec;
  }

  /** A response of which the last bytes are missing is never taken for a response. */
  lemma CutResponseIsRefused(lib: Lib, status: nat, json: string, close: bool, n: nat)
    requires LibLaws(lib) && status < U16_VALUES && |Utf8.Encode(json)| < U64_VALUES
    requires n < |JsonResponse(status, json, close)|
    ensures forall r :: Replies(lib, JsonResponse(status, json, close)[..n], r) ==> r.Err?
  {
    hide ParseResponseHead, FindHeaderEnd, GoodLines, JoinLines, ResponseLines, Utf8.Encode;
    var body := Utf8.Encode(json);
    var ls := ResponseLines(status, |body|, close);
    var head := Utf8.Encode(JoinLines(ls));
    var s := JsonResponse(status, json, close);
    var cut := s[..n];
    assert s == cut + s[n..] && s == head + HEAD_END + body;
    ResponseLinesAreGood(status, |body|, close);
    PrintedHeadEnd(ls, body);
    FindInPrefix(cut, s[n..]);
    ResponseHeadReadsBack(lib, status, |body|, close);
    if FindHeaderEnd(cut).Some? { assert cut[..|head|] == head; }
  }

  /** A head whose last line asks for a chunked body, in whatever case, is refused, whatever follows. */
  lemma ChunkedIsRefused(lib: Lib, maxBody: nat, ls: seq<string>, name: string, value: string, rest: bytes)
    requires LibLaws(lib) && |ls| > 1 && GoodLines(ls) && ls[|ls| - 1] == HeaderLine(name, value) && Plain(name, value)
    requires Utf8.IsAscii(name) && AsciiLower(name) == "transfer-encoding"
    requires Utf8.IsAscii(value) && Contains(AsciiLower(value), "chunked")
    ensures var s := Utf8.Encode(JoinLines(ls)) + HEAD_END + rest;
            FindHeaderEnd(s).Some? && RequestAt(lib, maxBody, s, FindHeaderEnd(s).value) == Err(ChunkedBody)
  {
    hide JoinLines, FindHeaderEnd, GoodLines, HeaderLine, Contains, Utf8.Encode, AsciiLower, Plain, Utf8.IsAscii, RequestAt,
      ParseRequestHead, IsChunked, Lines;
    var head := Utf8.Encode(JoinLines(ls));
    var s := head + HEAD_END + rest;
    PrintedHeadEnd(ls, rest);
    assert s[..|head|] == head;
    JoinedShape(ls);
    Utf8.DecodeEncoded(JoinLines(ls));
    HeadersOfLines(lib, ls);
    LastHeaderIsChunked(lib, ls[1..|ls| - 1], name, value);
    assert ls[1..] == ls[1..|ls| - 1] + [HeaderLine(name, value)];
    ChunkedAnswer(lib, maxBody, s, |head|);
  }

  lemma HeadersOfLines(lib: Lib, ls: seq<string>)
    requires GoodLines(ls)
    ensures var head := ParseRequestHead(lib, JoinLines(ls)); head.Some? && head.value.headers == HeaderMap(lib, ls[1..])
  {
    hide JoinLines, Lines, HeaderMap, Tokens;
    LinesOfJoined(ls);
  }

  lemma LastHeaderIsChunked(lib: Lib, before: seq<string>, name: string, value: string)
    requires LibLaws(lib) && Plain(name, value) && Utf8.IsAscii(name) && Utf8.IsAscii(value)
    requires AsciiLower(name) == "transfer-encoding" && Contains(AsciiLower(value), "chunked")
    ensures IsChunked(lib, HeaderMap(lib, before + [HeaderLine(name, value)]))
  {
    hide HeaderMap, Contains, AsciiLower, Utf8.IsAscii, Plain, HeaderLine;
    HeaderMapSnoc(lib, before, name, value);
  }

  lemma ChunkedAnswer(lib: Lib, maxBody: nat, s: bytes, p: nat)
    requires EndsHeadAt(s, p) && ParseRequestHead(lib, lib.lossy(s[..p])).Some?
    requires IsChunked(lib, ParseRequestHead(lib, lib.lossy(s[..p])).value.headers)
    ensures RequestAt(lib, maxBody, s, p) == Err(ChunkedBody)
  {
    hide ParseRequestHead, IsChunked, ContentLength;
  }

  /** When a length is declared twice, whatever stands between, the server goes by the last one and the client by the first;
      and a length that is no number counts as none for the server. */
  lemma TwoLengths(lib: Lib, name: string, value: string, between: seq<string>, name': string, value': string)
    requires LibLaws(lib) && Plain(name, value) && Plain(name', value') && Utf8.IsAscii(name) && Utf8.IsAscii(name')
    requires AsciiLower(name) == AsciiLower(name') == "content-length"
    ensures var ls := [HeaderLine(name, value)] + between + [HeaderLine(name', value')];
            && ContentLength(HeaderMap(lib, ls))
               == (if ParseUnsigned(value', U64_VALUES).Some? then ParseUnsigned(value', U64_VALUES).value else 0)
            && FirstLength(ls) == Some(value)
  {
    hide HeaderMap, AsciiLower, HeaderLine, ParseUnsigned, Utf8.IsAscii;
    var before := [HeaderLine(name, value)] + between;
    HeaderMapSnoc(lib, before, name', value');
    SplitHeaderLine(name, value);
    assert (before + [HeaderLine(name', value')])[0] == HeaderLine(name, value);
  }

  /** A request line of one word asks for the root. */
  lemma PathDefaultsToRoot(lib: Lib, verb: string, ls: seq<string>)
    requires Token(verb) && GoodLines([verb] + ls)
    ensures ParseRequestHead(lib, JoinLines([verb] + ls)) == Some(Request(verb, "/", HeaderMap(lib, ls), None))
  {
    hide JoinLines, Lines, Tokens, HeaderMap, GoodLines, Token;
    LinesOfJoined([verb] + ls);
    TokensCons(verb, "");
    assert ([verb] + ls)[1..] == ls;
  }

  /** An upload has parts exactly when its body has a line feed. */
  lemma {:induction false} UploadHasParts(lib: Lib, body: Option<bytes>)
    ensures UploadParts(lib, body).Some? <==> body.Some? && 10 in body.value
  {
    if body.Some? { ByteIsFound(body.value, 10); }
  }

  lemma {:induction false} ByteIsFound(b: bytes, x: byte)
    ensures IndexOfByte(b, x) < |b| <==> x in b
  {
    if b != [] {
      ByteIsFound(b[1..], x);
      assert b == [b[0]] + b[1..];
    }
  }
}
