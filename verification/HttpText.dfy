/** The text side of the hand-written HTTP framing: lines, tokens, headers, and the heads that both sides print. */
module HttpText {
  import opened Common
  import opened Text
  import opened Utf8

  /** What the library supplies: `from_utf8_lossy` and Unicode lower-casing. */
  datatype Lib = Lib(lossy: bytes -> string, lower: string -> string)

  /** Lossy decoding is exact on valid UTF-8, and lower-casing is the ASCII one on ASCII. */
  ghost predicate LibLaws(lib: Lib) {
    && (forall b :: Decode(b).Some? ==> lib.lossy(b) == Decode(b).value)
    && (forall s :: IsAscii(s) ==> lib.lower(s) == AsciiLower(s))
  }

  // ---------- lines and tokens ----------

  /** The index of the first `c`, or the length. */
  function IndexOf(s: string, c: char): (i: nat)
    ensures i <= |s| && (i < |s| ==> s[i] == c) && c !in s[..i]
  {
    if s == "" || s[0] == c then 0
    else
      var i := 1 + IndexOf(s[1..], c);
      assert s[..i] == [s[0]] + s[1..][..i - 1];
      i
  }

  lemma {:induction false} IndexOfFirst(a: string, c: char, b: string)
    requires c !in a
    ensures IndexOf(a + [c] + b, c) == |a|
  {
    if a != "" {
      assert (a + [c] + b)[1..] == a[1..] + [c] + b;
      IndexOfFirst(a[1..], c, b);
    }
  }

  lemma IndexOfNone(a: string, c: char)
    requires c !in a
    ensures IndexOf(a, c) == |a|
  {}

  function StripCr(s: string): string {
    if s != "" && s[|s| - 1] == '\r' then s[..|s| - 1] else s
  }

  /** `str::lines` */
  function Lines(s: string): seq<string> {
    if s == "" then []
    else
      var i := IndexOf(s, '\n');
      if i == |s| then [s] else [StripCr(s[..i])] + Lines(s[i + 1..])
  }

  function TokenLength(s: string): (n: nat)
    ensures n <= |s|
  {
    if s == "" || IsWhitespace(s[0]) then 0 else 1 + TokenLength(s[1..])
  }

  /** `split_whitespace` */
  function Tokens(s: string): seq<string> {
    if s == "" then []
    else if IsWhitespace(s[0]) then Tokens(s[1..])
    else [s[..TokenLength(s)]] + Tokens(s[TokenLength(s)..])
  }

  predicate Token(t: string) {
    t != "" && forall i :: 0 <= i < |t| ==> !IsWhitespace(t[i])
  }

  lemma {:induction false} TokenLengthOf(t: string, rest: string)
    requires forall i :: 0 <= i < |t| ==> !IsWhitespace(t[i])
    requires rest == "" || IsWhitespace(rest[0])
    ensures TokenLength(t + rest) == |t|
  {
    if t == "" {
      assert t + rest == rest;
    } else {
      assert (t + rest)[1..] == t[1..] + rest;
      TokenLengthOf(t[1..], rest);
    }
  }

  lemma TokensCons(t: string, rest: string)
    requires Token(t)
    ensures Tokens(t + " " + rest) == [t] + Tokens(rest)
    ensures Tokens(t) == [t]
  {
    TokenLengthOf(t, " " + rest);
    var s := t + " " + rest;
    assert s == t + (" " + rest);
    assert s[|t|..] == " " + rest && s[..|t|] == t;
    assert (" " + rest)[1..] == rest;
    TokenLengthOf(t, "");
    assert t + "" == t && t[|t|..] == "";
  }

  // ---------- heads printed as lines ----------

  const CRLF := "\r\n"

  function JoinLines(ls: seq<string>): string {
    if ls == [] then ""
    else if |ls| == 1 then ls[0]
    else ls[0] + CRLF + JoinLines(ls[1..])
  }

  predicate GoodLine(l: string) {
    l != "" && IsAscii(l) && '\r' !in l && '\n' !in l
  }

  predicate GoodLines(ls: seq<string>) {
    ls != [] && forall i :: 0 <= i < |ls| ==> GoodLine(ls[i])
  }

  lemma LinesCons(l: string, rest: string)
    requires GoodLine(l)
    ensures Lines(l + CRLF + rest) == [l] + Lines(rest)
  {
    var s := l + CRLF + rest;
    assert s == (l + "\r") + ['\n'] + rest;
    IndexOfFirst(l + "\r", '\n', rest);
    assert s[..|l| + 1] == l + "\r" && s[|l| + 2..] == rest;
    assert StripCr(l + "\r") == l;
  }

  lemma LinesOfOne(l: string)
    requires GoodLine(l)
    ensures Lines(l) == [l]
  {
    IndexOfNone(l, '\n');
  }

  lemma {:induction false} LinesOfJoined(ls: seq<string>)
    requires GoodLines(ls)
    ensures Lines(JoinLines(ls)) == ls
  {
    assert ls == [ls[0]] + ls[1..] && GoodLine(ls[0]);
    assert |ls| > 1 ==> GoodLines(ls[1..]);
    hide GoodLine, GoodLines, Lines;
    if |ls| == 1 {
      LinesOfOne(ls[0]);
    } else {
      LinesOfJoined(ls[1..]);
      LinesCons(ls[0], JoinLines(ls[1..]));
    }
  }

  /** In joined lines every line feed is followed by the first character of a line. */
  lemma {:induction false} JoinedShape(ls: seq<string>)
    requires GoodLines(ls)
    ensures var s := JoinLines(ls);
            && s != "" && IsAscii(s) && s[0] != '\r'
            && (forall i :: 0 <= i < |s| && s[i] == '\n' ==> i + 1 < |s| && s[i + 1] != '\r')
  {
    var l := ls[0];
    if |ls| > 1 {
      assert GoodLines(ls[1..]);
      JoinedShape(ls[1..]);
      var rest := JoinLines(ls[1..]);
      var s := JoinLines(ls);
      assert s == l + "\r\n" + rest;
      forall i | 0 <= i < |s|
        ensures s[i] < '\U{80}' && (s[i] == '\n' ==> i + 1 < |s| && s[i + 1] != '\r')
      {
        if i < |l| {
          assert s[i] == l[i];
        } else if i == |l| {
        } else if i == |l| + 1 {
          assert s[i + 1] == rest[0];
        } else {
          assert s[i] == rest[i - |l| - 2];
          if s[i] == '\n' { assert s[i + 1] == rest[i - |l| - 1]; }
        }
      }
    }
  }

  // ---------- the end of the head ----------

  const HEAD_END: bytes := [13, 10, 13, 10]

  predicate EndsHeadAt(buf: bytes, i: nat) {
    i + 4 <= |buf| && buf[i..i + 4] == HEAD_END
  }

  function FindFrom(buf: bytes, i: nat): (r: Option<nat>)
    requires forall j: nat :: j < i ==> !EndsHeadAt(buf, j)
    ensures r.Some? ==> EndsHeadAt(buf, r.value) && forall j: nat :: j < r.value ==> !EndsHeadAt(buf, j)
    ensures r.None? ==> forall j: nat :: !EndsHeadAt(buf, j)
    decreases |buf| - i
  {
    if EndsHeadAt(buf, i) then Some(i)
    else if i + 4 <= |buf| then FindFrom(buf, i + 1)
    else
      assert forall j: nat :: j >= i ==> !EndsHeadAt(buf, j);
      None
  }

  /** `find_header_end`: the first empty line. */
  function FindHeaderEnd(buf: bytes): (r: Option<nat>)
    ensures r.Some? ==> EndsHeadAt(buf, r.value) && forall j: nat :: j < r.value ==> !EndsHeadAt(buf, j)
    ensures r.None? ==> forall j: nat :: !EndsHeadAt(buf, j)
  {
    FindFrom(buf, 0)
  }

  /** More bytes do not move the end of the head once it is there, and do not hide it. */
  lemma FindInPrefix(buf: bytes, more: bytes)
    ensures FindHeaderEnd(buf).Some? ==> FindHeaderEnd(buf + more) == FindHeaderEnd(buf)
    ensures FindHeaderEnd(buf).None? && FindHeaderEnd(buf + more).Some? ==> |buf| <= FindHeaderEnd(buf + more).value + 3
  {
    forall j: nat | j + 4 <= |buf|
      ensures EndsHeadAt(buf, j) <==> EndsHeadAt(buf + more, j)
    {
      assert (buf + more)[j..j + 4] == buf[j..j + 4];
    }
    var p := FindHeaderEnd(buf);
    if p.Some? { assert EndsHeadAt(buf + more, p.value); }
  }

  /** The head of a printed message ends right after its lines, whatever the body contains. */
  lemma PrintedHeadEnd(ls: seq<string>, body: bytes)
    requires GoodLines(ls)
    ensures var head := Encode(JoinLines(ls)); FindHeaderEnd(head + HEAD_END + body) == Some(|head|)
  {
    var s := JoinLines(ls);
    var head := Encode(s);
    var buf := head + HEAD_END + body;
    JoinedShape(ls);
    EncodeAscii(s);
    assert EndsHeadAt(buf, |head|) by { assert buf[|head|..|head| + 4] == HEAD_END; }
    assert forall i :: 0 <= i < |s| ==> buf[i] == s[i] as int;
    assert buf[|head|] == 13;
    forall j: nat | j < |head|
      ensures !EndsHeadAt(buf, j)
    {
      EndsHeadOctets(buf, j);
    }
  }

  lemma EndsHeadOctets(buf: bytes, i: nat)
    ensures EndsHeadAt(buf, i) ==> i + 4 <= |buf| && buf[i + 1] == 10 && buf[i + 2] == 13
  {
    if i + 4 <= |buf| {
      assert buf[i..i + 4][1] == buf[i + 1] && buf[i..i + 4][2] == buf[i + 2];
    }
  }

  // ---------- headers ----------

  /** `split_once(':')` */
  function SplitColon(line: string): Option<(string, string)> {
    var i := IndexOf(line, ':');
    if i < |line| then Some((line[..i], line[i + 1..])) else None
  }

  /** A header line as both sides print it. */
  function HeaderLine(name: string, value: string): string {
    name + ":" + (" " + value)
  }

  lemma SplitHeaderLine(name: string, value: string)
    requires ':' !in name && Trimmed(name) && Trimmed(value)
    ensures SplitColon(HeaderLine(name, value)) == Some((name, " " + value))
    ensures Trim(name) == name && Trim(" " + value) == value
  {
    var line := HeaderLine(name, value);
    IndexOfFirst(name, ':', " " + value);
    assert line[..|name|] == name && line[|name| + 1..] == " " + value;
    TrimTrimmed(name);
    TrimTrimmed(value);
    assert (" " + value)[1..] == value;
  }

  /** The header map of the server: later lines win, lines without a colon are skipped. */
  function HeaderMap(lib: Lib, lines: seq<string>): map<string, string> {
    if lines == [] then map[]
    else
      var m := HeaderMap(lib, lines[..|lines| - 1]);
      var kv := SplitColon(lines[|lines| - 1]);
      if kv.Some? then m[lib.lower(Trim(kv.value.0)) := Trim(kv.value.1)] else m
  }
}
