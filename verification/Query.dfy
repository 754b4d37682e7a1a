/** The query splitter and the compound search built on it. Unicode lower-casing is a parameter. */
module Query {
  import opened Common
  import opened Text
  import opened Documents

  // ---------- the splitter ----------

  function FlushWord(words: seq<string>, cur: string): seq<string> {
    if cur == "" then words else words + [cur]
  }

  /** The state of the word scanner after a text: finished words, the current word, and whether a quote is open. */
  datatype Scan = Scan(words: seq<string>, cur: string, quoted: bool)

  function ScanChar(s: Scan, c: char): Scan {
    if c == '"' then s.(quoted := !s.quoted, cur := s.cur + [c])
    else if IsWhitespace(c) && !s.quoted then s.(words := FlushWord(s.words, s.cur), cur := "")
    else s.(cur := s.cur + [c])
  }

  function ScanText(s: Scan, q: string): Scan
    decreases q
  {
    if q == "" then s else ScanText(ScanChar(s, q[0]), q[1..])
  }

  const START := Scan([], "", false)

  function Words(q: string): seq<string> {
    var s := ScanText(START, q);
    FlushWord(s.words, s.cur)
  }

  /** Lower-casing of whole texts; only its value on the connectives matters here. */
  type Lower = string -> string

  predicate IsConnective(lower: Lower, word: string) {
    lower(word) == "and" || lower(word) == "y"
  }

  /** The part being accumulated and the finished parts. */
  datatype Parts = Parts(done: seq<string>, acc: string)

  function FlushPart(p: Parts): seq<string> {
    if Trim(p.acc) == "" then p.done else p.done + [Trim(p.acc)]
  }

  function AddWord(lower: Lower, p: Parts, word: string): Parts {
    if IsConnective(lower, word) then Parts(FlushPart(p), "")
    else p.(acc := if p.acc == "" then word else p.acc + " " + word)
  }

  function AddWords(lower: Lower, p: Parts, words: seq<string>): Parts
    decreases words
  {
    if words == [] then p else AddWords(lower, AddWord(lower, p, words[0]), words[1..])
  }

  /** What `split_and` computes. */
  function SplitAnd(lower: Lower, q: string): seq<string> {
    FlushPart(AddWords(lower, Parts([], ""), Words(q)))
  }

  /** The first phase of `split_and`: words at white space outside quotes. */
  method SegmentLoop(q: string) returns (segments: seq<string>)
    ensures segments == Words(q)
  {
    segments := [];
    var cur := "";
    var inQuotes := false;
    for i := 0 to |q|
      invariant ScanText(Scan(segments, cur, inQuotes), q[i..]) == ScanText(START, q)
    {
      var c := q[i];
      assert q[i..][0] == c && q[i..][1..] == q[i + 1..];
      if c == '"' {
        inQuotes := !inQuotes;
        cur := cur + [c];
      } else if IsWhitespace(c) && !inQuotes {
        if cur != "" {
          segments := segments + [cur];
          cur := "";
        }
      } else {
        cur := cur + [c];
      }
    }
    if cur != "" { segments := segments + [cur]; }
  }

  /** `split_and`: the words, then the parts between isolated connectives. */
  method SplitAndLoop(lower: Lower, q: string) returns (parts: seq<string>)
    ensures parts == SplitAnd(lower, q)
  {
    var segments := SegmentLoop(q);
    parts := [];
    var acc := "";
    for i := 0 to |segments|
      invariant AddWords(lower, Parts(parts, acc), segments[i..]) == AddWords(lower, Parts([], ""), segments)
    {
      var seg := segments[i];
      ghost var before := Parts(parts, acc);
      assert segments[i..][0] == seg && segments[i..][1..] == segments[i + 1..];
      if IsConnective(lower, seg) {
        if Trim(acc) != "" { parts := parts + [Trim(acc)]; }
        acc := "";
      } else {
        if acc != "" { acc := acc + " "; }
        acc := acc + seg;
      }
      assert Parts(parts, acc) == AddWord(lower, before, seg);
    }
    if Trim(acc) != "" { parts := parts + [Trim(acc)]; }
  }

  // ---------- splitting a conjunction ----------

  /** Are the quotes of the text paired? */
  predicate Balanced(q: string) {
    !ScanText(START, q).quoted
  }

  lemma {:induction false} ScanConcat(s: Scan, a: string, b: string)
    ensures ScanText(s, a + b) == ScanText(ScanText(s, a), b)
    decreases a
  {
    if a == "" {
      assert a + b == b;
    } else {
      assert (a + b)[1..] == a[1..] + b;
      ScanConcat(ScanChar(s, a[0]), a[1..], b);
    }
  }

  /** Scanning on top of finished words only puts those words in front. */
  lemma {:induction false} ScanPrefix(words: seq<string>, s: Scan, q: string)
    ensures ScanText(s.(words := words + s.words), q) == ScanText(s, q).(words := words + ScanText(s, q).words)
    decreases q
  {
    if q != "" {
      var t := ScanChar(s, q[0]);
      assert ScanChar(s.(words := words + s.words), q[0]) == t.(words := words + t.words);
      ScanPrefix(words, t, q[1..]);
    }
  }

  /** One word: no white space, no quote. */
  predicate OneWord(w: string) {
    w != "" && forall i :: 0 <= i < |w| ==> !IsWhitespace(w[i]) && w[i] != '"'
  }

  lemma {:induction false} ScanPlain(s: Scan, w: string)
    requires forall i :: 0 <= i < |w| ==> w[i] != '"' && (s.quoted || !IsWhitespace(w[i]))
    ensures ScanText(s, w) == s.(cur := s.cur + w)
    decreases w
  {
    if w == "" {
      assert s.cur + w == s.cur;
    } else {
      ScanPlain(ScanChar(s, w[0]), w[1..]);
      assert s.cur + [w[0]] + w[1..] == s.cur + w;
    }
  }

  lemma ScanSpace(s: Scan)
    requires !s.quoted
    ensures ScanText(s, " ") == Scan(FlushWord(s.words, s.cur), "", false)
  {
    ScanStep(s, " ");
    assert " "[1..] == "";
  }

  lemma WordsOfConjunction(a: string, w: string, b: string)
    requires Balanced(a) && OneWord(w)
    ensures Words(a + " " + w + " " + b) == Words(a) + [w] + Words(b)
  {
    var s := ScanText(START, a);
    ScanConcat(START, a + " " + w + " ", b);
    ScanConcat(START, a + " " + w, " ");
    ScanConcat(START, a + " ", w);
    ScanConcat(START, a, " ");
    ScanSpace(s);
    ScanPlain(Scan(Words(a), "", false), w);
    assert "" + w == w;
    ScanSpace(Scan(Words(a), w, false));
    var t := Scan(Words(a) + [w], "", false);
    assert t == START.(words := t.words + START.words);
    ScanPrefix(t.words, START, b);
  }

  lemma ScanStep(s: Scan, q: string)
    requires q != ""
    ensures ScanText(s, q) == ScanText(ScanChar(s, q[0]), q[1..])
  {}

  lemma {:induction false} AddWordsConcat(lower: Lower, p: Parts, a: seq<string>, b: seq<string>)
    ensures AddWords(lower, p, a + b) == AddWords(lower, AddWords(lower, p, a), b)
    decreases a
  {
    if a == [] {
      assert a + b == b;
    } else {
      assert (a + b)[1..] == a[1..] + b;
      AddWordsConcat(lower, AddWord(lower, p, a[0]), a[1..], b);
    }
  }

  lemma {:induction false} AddWordsPrefix(lower: Lower, done: seq<string>, p: Parts, words: seq<string>)
    ensures AddWords(lower, p.(done := done + p.done), words)
            == AddWords(lower, p, words).(done := done + AddWords(lower, p, words).done)
    decreases words
  {
    if words != [] {
      var t := AddWord(lower, p, words[0]);
      assert AddWord(lower, p.(done := done + p.done), words[0]) == t.(done := done + t.done);
      AddWordsPrefix(lower, done, t, words[1..]);
    }
  }

  /** Splitting a conjunction whose first half has paired quotes gives the parts of both halves in order, whichever
      connective stands between. */
  lemma SplitConjunction(lower: Lower, a: string, w: string, b: string)
    requires (lower(w) == "and" || lower(w) == "y") && OneWord(w) && Balanced(a)
    ensures SplitAnd(lower, a + " " + w + " " + b) == SplitAnd(lower, a) + SplitAnd(lower, b)
  {
    var empty := Parts([], "");
    WordsOfConjunction(a, w, b);
    AddWordsConcat(lower, empty, Words(a) + [w], Words(b));
    AddWordsConcat(lower, empty, Words(a), [w]);
    var p := AddWords(lower, empty, Words(a));
    assert AddWords(lower, p, [w]) == Parts(FlushPart(p), "") by {
      assert [w][1..] == [];
    }
    var done := FlushPart(p);
    assert Parts(done, "") == empty.(done := done + empty.done);
    AddWordsPrefix(lower, done, empty, Words(b));
  }

  // ---------- splitting what was split ----------

  /** Lower-casing turns "AND" into the connective and never loses a quote. */
  ghost predicate LowerLaws(lower: Lower) {
    lower("AND") == "and" && forall w :: '"' in w ==> '"' in lower(w)
  }

  /** A text that the scanner takes as one word. */
  predicate Word(w: string) {
    w != "" && ScanText(START, w).words == [] && ScanText(START, w).cur == w
  }

  lemma ScanSnoc(q: string, c: char)
    ensures ScanText(START, q + [c]) == ScanChar(ScanText(START, q), c)
  {
    ScanConcat(START, q, [c]);
    assert [c][1..] == "";
  }

  predicate AllWords(ws: seq<string>) {
    forall i :: 0 <= i < |ws| ==> Word(ws[i])
  }

  predicate AllBalanced(ws: seq<string>) {
    forall i :: 0 <= i < |ws| ==> Balanced(ws[i])
  }

  predicate NoConnective(lower: Lower, ws: seq<string>) {
    forall i :: 0 <= i < |ws| ==> !IsConnective(lower, ws[i])
  }

  /** Finished words are balanced words; the current one, scanned alone, reaches the same quote state. */
  predicate ScanInv(s: Scan) {
    AllWords(s.words) && AllBalanced(s.words) && ScanText(START, s.cur) == Scan([], s.cur, s.quoted)
  }

  lemma {:induction false} ScanKeepsInv(s: Scan, q: string)
    requires ScanInv(s)
    ensures ScanInv(ScanText(s, q))
    decreases q
  {
    if q != "" {
      ScanSnoc(s.cur, q[0]);
      ScanKeepsInv(ScanChar(s, q[0]), q[1..]);
    }
  }

  lemma {:induction false} CurIsShort(s: Scan, q: string)
    ensures |ScanText(s, q).cur| <= |s.cur| + |q|
    decreases q
  {
    if q != "" { CurIsShort(ScanChar(s, q[0]), q[1..]); }
  }

  lemma WordHead(w: string)
    requires Word(w)
    ensures !IsWhitespace(w[0])
  {
    CurIsShort(ScanChar(START, w[0]), w[1..]);
  }

  lemma WordInit(w: string)
    requires Word(w) && |w| > 1
    ensures Word(w[..|w| - 1])
  {
    ScanSnoc(w[..|w| - 1], w[|w| - 1]);
    assert w[..|w| - 1] + [w[|w| - 1]] == w;
  }

  lemma WordTail(w: string)
    requires Word(w) && Balanced(w)
    ensures !IsWhitespace(w[|w| - 1])
  {
    ScanSnoc(w[..|w| - 1], w[|w| - 1]);
    assert w[..|w| - 1] + [w[|w| - 1]] == w;
  }

  lemma {:induction false} UnquotedIsBalanced(w: string)
    requires '"' !in w
    ensures Balanced(w)
  {
    if w != "" {
      var init := w[..|w| - 1];
      assert w == init + [w[|w| - 1]];
      UnquotedIsBalanced(init);
      ScanSnoc(init, w[|w| - 1]);
    }
  }

  /** Trimming the end of a word leaves a word, and keeps every quote. */
  lemma {:induction false} TrimmedWord(w: string)
    requires Word(w)
    ensures Word(TrimEnd(w)) && !IsWhitespace(TrimEnd(w)[|TrimEnd(w)| - 1])
    ensures '"' in w ==> '"' in TrimEnd(w)
  {
    if IsWhitespace(w[|w| - 1]) {
      if |w| == 1 { WordHead(w); }
      WordInit(w);
      TrimmedWord(w[..|w| - 1]);
      assert w == w[..|w| - 1] + [w[|w| - 1]];
    }
  }

  function JoinWords(ws: seq<string>): string {
    if ws == [] then ""
    else if |ws| == 1 then ws[0]
    else JoinWords(ws[..|ws| - 1]) + " " + ws[|ws| - 1]
  }

  /** Words without connectives of which only the last may leave a quote open. */
  predicate Group(lower: Lower, ws: seq<string>) {
    ws != [] && AllWords(ws) && NoConnective(lower, ws) && AllBalanced(ws[..|ws| - 1])
  }

  lemma GroupInit(lower: Lower, ws: seq<string>)
    requires Group(lower, ws) && |ws| > 1
    ensures Group(lower, ws[..|ws| - 1]) && Balanced(ws[|ws| - 2])
  {
    var init := ws[..|ws| - 1];
    assert init[|ws| - 2] == ws[|ws| - 2];
    assert init[..|init| - 1] == ws[..|ws| - 2];
    var closed := init[..|init| - 1];
    forall i | 0 <= i < |closed|
      ensures Balanced(closed[i])
    {
      assert closed[i] == ws[..|ws| - 1][i];
    }
  }

  /** A group joined by single spaces scans back to itself. */
  lemma {:induction false} ScanJoined(lower: Lower, ws: seq<string>)
    requires Group(lower, ws)
    ensures ScanText(START, JoinWords(ws)) == Scan(ws[..|ws| - 1], ws[|ws| - 1], !Balanced(ws[|ws| - 1]))
  {
    var n := |ws| - 1;
    if n > 0 {
      var init, last := ws[..n], ws[n];
      GroupInit(lower, ws);
      ScanJoined(lower, init);
      var s := ScanText(START, JoinWords(init));
      ScanSnoc(JoinWords(init), ' ');
      ScanConcat(START, JoinWords(init) + " ", last);
      assert FlushWord(s.words, s.cur) == init;
      assert Scan(init, "", false) == START.(words := init + START.words);
      ScanPrefix(init, START, last);
    }
  }

  lemma AddOneWord(lower: Lower, p: Parts, w: string)
    ensures AddWords(lower, p, [w]) == AddWord(lower, p, w)
  {
    assert [w][1..] == [];
  }

  lemma {:induction false} AddGroup(lower: Lower, done: seq<string>, ws: seq<string>)
    requires NoConnective(lower, ws) && AllWords(ws)
    ensures AddWords(lower, Parts(done, ""), ws) == Parts(done, JoinWords(ws))
    ensures ws != [] ==> JoinWords(ws) != ""
  {
    if ws != [] {
      var n := |ws| - 1;
      AddGroup(lower, done, ws[..n]);
      AddWordsConcat(lower, Parts(done, ""), ws[..n], [ws[n]]);
      assert ws[..n] + [ws[n]] == ws;
      assert ws[n] != "" && !IsConnective(lower, ws[n]);
      hide NoConnective, AllWords, IsConnective, Word;
      AddOneWord(lower, AddWords(lower, Parts(done, ""), ws[..n]), ws[n]);
    }
  }

  lemma {:induction false} JoinedHead(lower: Lower, ws: seq<string>)
    requires Group(lower, ws)
    ensures JoinWords(ws) != "" && JoinWords(ws)[0] == ws[0][0]
  {
    if |ws| > 1 {
      GroupInit(lower, ws);
      JoinedHead(lower, ws[..|ws| - 1]);
    }
  }

  lemma JoinedTail(ws: seq<string>)
    requires ws != [] && ws[|ws| - 1] != ""
    ensures JoinWords(ws) != "" && JoinWords(ws)[|JoinWords(ws)| - 1] == ws[|ws| - 1][|ws[|ws| - 1]| - 1]
  {}

  /** A group whose text ends in no white space is split back into just that text. */
  lemma SplitGroup(lower: Lower, ws: seq<string>)
    requires Group(lower, ws) && !IsWhitespace(ws[|ws| - 1][|ws[|ws| - 1]| - 1])
    ensures var p := JoinWords(ws); Trim(p) == p && SplitAnd(lower, p) == [p]
    ensures Balanced(JoinWords(ws)) <==> Balanced(ws[|ws| - 1])
  {
    var p := JoinWords(ws);
    JoinedHead(lower, ws);
    JoinedTail(ws);
    WordHead(ws[0]);
    TrimTrimmed(p);
    ScanJoined(lower, ws);
    assert Words(p) == ws;
    AddGroup(lower, [], ws);
  }

  lemma {:induction false} TrimEndConcat(a: string, b: string)
    requires TrimEnd(b) != ""
    ensures TrimEnd(a + b) == a + TrimEnd(b)
  {
    if IsWhitespace(b[|b| - 1]) {
      assert (a + b)[..|a + b| - 1] == a + b[..|b| - 1];
      TrimEndConcat(a, b[..|b| - 1]);
    }
  }

  /** Trimming a joined group trims its last word, if anything. */
  lemma TrimJoined(lower: Lower, ws: seq<string>)
    requires Group(lower, ws)
    ensures Trim(JoinWords(ws)) == JoinWords(ws[|ws| - 1 := TrimEnd(ws[|ws| - 1])])
  {
    var n := |ws| - 1;
    var zs := ws[n := TrimEnd(ws[n])];
    JoinedHead(lower, ws);
    WordHead(ws[0]);
    TrimmedWord(ws[n]);
    assert zs[..n] == ws[..n];
    if n > 0 { TrimEndConcat(JoinWords(ws[..n]) + " ", ws[n]); }
  }

  lemma TrimmedGroup(lower: Lower, ws: seq<string>)
    requires LowerLaws(lower) && Group(lower, ws)
    ensures var n := |ws| - 1;
            var zs := ws[n := TrimEnd(ws[n])];
            && Group(lower, zs) && !IsWhitespace(zs[n][|zs[n]| - 1]) && (Balanced(ws[n]) ==> Balanced(zs[n]))
  {
    var n := |ws| - 1;
    var z := ws[n];
    TrimmedWord(z);
    assert ws[n := TrimEnd(z)][..n] == ws[..n];
    if Balanced(z) {
      WordTail(z);
    } else if '"' !in z {
      UnquotedIsBalanced(z);
    }
  }

  /** The text of any group, trimmed, is split back into just itself. */
  lemma SplitTrimmedGroup(lower: Lower, ws: seq<string>)
    requires LowerLaws(lower) && Group(lower, ws)
    ensures var p := Trim(JoinWords(ws)); p != "" && SplitAnd(lower, p) == [p]
    ensures Balanced(ws[|ws| - 1]) ==> Balanced(Trim(JoinWords(ws)))
  {
    var zs := ws[|ws| - 1 := TrimEnd(ws[|ws| - 1])];
    TrimJoined(lower, ws);
    TrimmedGroup(lower, ws);
    SplitGroup(lower, zs);
    JoinedHead(lower, zs);
  }

  /** The words of a query, grouped between connectives. */
  function Groups(lower: Lower, words: seq<string>): seq<seq<string>>
    ensures Groups(lower, words) != []
  {
    if words == [] then [[]]
    else
      NextGroups(lower, Groups(lower, words[..|words| - 1]), words[|words| - 1])
  }

  function NextGroups(lower: Lower, gs: seq<seq<string>>, w: string): (r: seq<seq<string>>)
    requires gs != []
    ensures r != []
  {
    if IsConnective(lower, w) then gs + [[]] else gs[|gs| - 1 := gs[|gs| - 1] + [w]]
  }

  function PartsOf(gs: seq<seq<string>>): seq<string> {
    if gs == [] then []
    else PartsOf(gs[..|gs| - 1]) + (if gs[|gs| - 1] == [] then [] else [Trim(JoinWords(gs[|gs| - 1]))])
  }

  /** All groups are closed but the last, which may end in an open quote. */
  predicate GoodGroups(lower: Lower, gs: seq<seq<string>>) {
    && (forall i :: 0 <= i < |gs| && gs[i] != [] ==> Group(lower, gs[i]))
    && (forall i :: 0 <= i < |gs| - 1 && gs[i] != [] ==> Balanced(gs[i][|gs[i]| - 1]))
  }

  lemma AppendWord(lower: Lower, g: seq<string>, w: string)
    requires g != [] ==> Group(lower, g) && Balanced(g[|g| - 1])
    requires Word(w) && !IsConnective(lower, w)
    ensures Group(lower, g + [w])
  {
    var h := g + [w];
    assert h[..|h| - 1] == g;
  }

  /** Words as the scanner delivers them: only the last may leave a quote open. */
  predicate GoodWords(words: seq<string>) {
    AllWords(words) && (words != [] ==> AllBalanced(words[..|words| - 1]))
  }

  lemma WordsAreGood(q: string)
    ensures GoodWords(Words(q))
  {
    ScanKeepsInv(START, q);
    var s := ScanText(START, q);
    if s.cur != "" { assert Words(q)[..|s.words|] == s.words; }
  }

  lemma GoodWordsInit(words: seq<string>)
    requires GoodWords(words) && words != []
    ensures var init := words[..|words| - 1]; GoodWords(init) && AllBalanced(init)
  {
    var init := words[..|words| - 1];
    if init != [] {
      var closed := init[..|init| - 1];
      assert forall i :: 0 <= i < |closed| ==> closed[i] == init[i];
    }
  }

  /** Does the last group end in a word that closes its quotes? */
  predicate LastIsClosed(gs: seq<seq<string>>)
    requires gs != []
  {
    var last := gs[|gs| - 1];
    last != [] ==> Balanced(last[|last| - 1])
  }

  lemma NextGroupsAreGood(lower: Lower, gs: seq<seq<string>>, w: string)
    requires gs != [] && GoodGroups(lower, gs) && LastIsClosed(gs) && Word(w)
    ensures GoodGroups(lower, NextGroups(lower, gs, w)) && (Balanced(w) ==> LastIsClosed(NextGroups(lower, gs, w)))
  {
    hide Balanced, Word, Group, IsConnective;
    if !IsConnective(lower, w) { AppendWord(lower, gs[|gs| - 1], w); }
  }

  lemma {:induction false} GroupsAreGood(lower: Lower, words: seq<string>)
    requires GoodWords(words)
    ensures GoodGroups(lower, Groups(lower, words))
    ensures AllBalanced(words) ==> LastIsClosed(Groups(lower, words))
  {
    hide Balanced, Word, NextGroups, GoodGroups, LastIsClosed;
    if words != [] {
      var init := words[..|words| - 1];
      GoodWordsInit(words);
      GroupsAreGood(lower, init);
      NextGroupsAreGood(lower, Groups(lower, init), words[|words| - 1]);
    } else {
      NoGroupIsGood(lower);
    }
  }

  lemma NoGroupIsGood(lower: Lower)
    ensures GoodGroups(lower, [[]]) && LastIsClosed([[]])
  {}

  /** What the accumulator holds when the words so far fall into these groups. */
  function Accumulated(gs: seq<seq<string>>): Parts
    requires gs != []
  {
    Parts(PartsOf(gs[..|gs| - 1]), JoinWords(gs[|gs| - 1]))
  }

  lemma FlushAccumulated(lower: Lower, gs: seq<seq<string>>)
    requires gs != [] && LowerLaws(lower) && GoodGroups(lower, gs)
    ensures FlushPart(Accumulated(gs)) == PartsOf(gs)
  {
    var g := gs[|gs| - 1];
    if g != [] { SplitTrimmedGroup(lower, g); }
  }

  lemma AccumulateWord(lower: Lower, gs: seq<seq<string>>, w: string)
    requires gs != [] && LowerLaws(lower) && GoodGroups(lower, gs)
    ensures AddWord(lower, Accumulated(gs), w) == Accumulated(NextGroups(lower, gs, w))
  {
    var n := |gs| - 1;
    var hs := NextGroups(lower, gs, w);
    if IsConnective(lower, w) {
      FlushAccumulated(lower, gs);
      assert hs[..|gs|] == gs;
    } else {
      assert hs[..n] == gs[..n];
      assert hs[n][..|gs[n]|] == gs[n];
      if gs[n] != [] { JoinedHead(lower, gs[n]); }
    }
  }

  /** Accumulating words keeps the parts of the finished groups and the text of the open one. */
  lemma {:induction false} GroupsGiveParts(lower: Lower, words: seq<string>)
    requires LowerLaws(lower) && GoodWords(words)
    ensures AddWords(lower, Parts([], ""), words) == Accumulated(Groups(lower, words))
  {
    hide GoodWords, GoodGroups, LowerLaws, AddWord, NextGroups, IsConnective;
    if words != [] {
      var init, w := words[..|words| - 1], words[|words| - 1];
      GoodWordsInit(words);
      GroupsGiveParts(lower, init);
      AddWordsConcat(lower, Parts([], ""), init, [w]);
      assert init + [w] == words;
      GroupsAreGood(lower, init);
      AccumulateWord(lower, Groups(lower, init), w);
      assert [w][1..] == [];
    }
  }

  function JoinAnd(parts: seq<string>): string {
    if parts == [] then ""
    else if |parts| == 1 then parts[0]
    else parts[0] + " AND " + JoinAnd(parts[1..])
  }

  /** Parts that are split into themselves, of which only the last may leave a quote open. */
  predicate StableParts(lower: Lower, parts: seq<string>) {
    && (forall i :: 0 <= i < |parts| ==> SplitAnd(lower, parts[i]) == [parts[i]])
    && (forall i :: 0 <= i < |parts| - 1 ==> Balanced(parts[i]))
  }

  lemma AndIsAWord(a: string, b: string)
    ensures OneWord("AND") && a + " AND " + b == a + " " + "AND" + " " + b
  {}

  lemma {:induction false} SplitJoinedParts(lower: Lower, parts: seq<string>)
    requires LowerLaws(lower) && StableParts(lower, parts)
    ensures SplitAnd(lower, JoinAnd(parts)) == parts
  {
    if |parts| > 1 {
      AndIsAWord(parts[0], JoinAnd(parts[1..]));
      hide SplitAnd, Balanced, OneWord;
      SplitConjunction(lower, parts[0], "AND", JoinAnd(parts[1..]));
      SplitJoinedParts(lower, parts[1..]);
    }
  }

  lemma {:induction false} PartsAreStable(lower: Lower, gs: seq<seq<string>>)
    requires LowerLaws(lower) && GoodGroups(lower, gs)
    ensures StableParts(lower, PartsOf(gs))
    ensures (forall i :: 0 <= i < |gs| && gs[i] != [] ==> Balanced(gs[i][|gs[i]| - 1])) ==>
              forall i :: 0 <= i < |PartsOf(gs)| ==> Balanced(PartsOf(gs)[i])
  {
    if gs != [] {
      var init, g := gs[..|gs| - 1], gs[|gs| - 1];
      PartsAreStable(lower, init);
      if g != [] { SplitTrimmedGroup(lower, g); }
    }
  }

  /** Joining the parts of any query with " AND " and splitting again gives the same parts. */
  lemma SplitIsStable(lower: Lower, q: string)
    requires LowerLaws(lower)
    ensures SplitAnd(lower, JoinAnd(SplitAnd(lower, q))) == SplitAnd(lower, q)
  {
    WordsAreGood(q);
    GroupsAreGood(lower, Words(q));
    GroupsGiveParts(lower, Words(q));
    FlushAccumulated(lower, Groups(lower, Words(q)));
    PartsAreStable(lower, Groups(lower, Words(q)));
    SplitJoinedParts(lower, SplitAnd(lower, q));
  }

  // ---------- the compound query ----------

  datatype SearchTerm =
    | ByCategory(category: Category)
    | ByAuthor(value: string)
    | ByDepartment(value: string)
    | ByYear(year: nat)
    | ByExtension(value: string)
    | ByIntegrity(status: IntegrityStatus)
    | ByText(value: string)
    | ByFileName(value: string)

  /** `trim_matches('"')` */
  function Unquote(s: string): string {
    if s != "" && s[0] == '"' then Unquote(s[1..])
    else if s != "" && s[|s| - 1] == '"' then Unquote(s[..|s| - 1])
    else s
  }

  /** The index of the first colon, or the length. */
  function ColonAt(s: string): (i: nat)
    ensures i <= |s|
    ensures i < |s| ==> s[i] == ':'
  {
    if s == "" || s[0] == ':' then 0 else 1 + ColonAt(s[1..])
  }

  /** Key and value of one part: everything is the value when there is no colon. */
  function KeyValue(lower: Lower, raw: string): (string, string) {
    var i := ColonAt(raw);
    if i < |raw| then (lower(Trim(raw[..i])), Unquote(Trim(raw[i + 1..]))) else ("", Unquote(raw))
  }

  function IntegrityTerm(value: string): Option<SearchTerm> {
    if value == "ok" || value == "verificada" || value == "verified" then Some(ByIntegrity(Intact))
    else if value == "tampered" || value == "manipulado" then Some(ByIntegrity(Tampered))
    else if value == "pending" || value == "pendiente" then Some(ByIntegrity(Unverified))
    else None
  }

  /** The term of a key and a value; an unknown key or value gives none. */
  function TermFor(lower: Lower, key: string, value: string): Option<SearchTerm> {
    if key == "categoria" || key == "category" || key == "categor\U{ED}a" then
      var c := FromDirName(value);
      if c.Some? then Some(ByCategory(c.value)) else None
    else if key == "autor" || key == "author" then Some(ByAuthor(lower(value)))
    else if key == "departamento" || key == "department" then Some(ByDepartment(lower(value)))
    else if key == "anio" || key == "a\U{F1}o" || key == "year" then
      var y := ParseUnsigned(value, 0x1_0000);
      if y.Some? then Some(ByYear(y.value)) else None
    else if key == "extension" || key == "ext" then Some(ByExtension(lower(value)))
    else if key == "integridad" || key == "integrity" then IntegrityTerm(lower(value))
    else if key == "titulo" || key == "t\U{ED}tulo" || key == "title" then Some(ByText(lower(value)))
    else if key == "nombre" || key == "filename" || key == "archivo" then Some(ByFileName(lower(value)))
    else if key == "" || key == "texto" || key == "text" || key == "q" then Some(ByText(lower(value)))
    else None
  }

  /** The term of one part. */
  function TermOf(lower: Lower, raw: string): Option<SearchTerm> {
    TermFor(lower, KeyValue(lower, raw).0, KeyValue(lower, raw).1)
  }

  function TermsOf(lower: Lower, parts: seq<string>): seq<SearchTerm> {
    if parts == [] then []
    else
      var raw := Trim(parts[|parts| - 1]);
      var term := if raw == "" then None else TermOf(lower, raw);
      TermsOf(lower, parts[..|parts| - 1]) + (if term.Some? then [term.value] else [])
  }

  /** `SearchQuery::parse` */
  method Parse(lower: Lower, q: string) returns (terms: seq<SearchTerm>)
    ensures terms == TermsOf(lower, SplitAnd(lower, q))
  {
    var parts := SplitAndLoop(lower, q);
    terms := [];
    for i := 0 to |parts|
      invariant terms == TermsOf(lower, parts[..i])
    {
      assert parts[..i + 1][..i] == parts[..i];
      var raw := Trim(parts[i]);
      if raw == "" { continue; }
      var term := TermOf(lower, raw);
      if term.Some? { terms := terms + [term.value]; }
    }
    assert parts[..|parts|] == parts;
  }

  predicate TermMatches(lower: Lower, t: SearchTerm, doc: Document, text: Option<string>) {
    match t
    case ByCategory(c) => doc.meta.category == c
    case ByAuthor(v) => Contains(lower(doc.meta.author), v)
    case ByDepartment(v) => Contains(lower(doc.meta.department), v)
    case ByYear(y) => doc.meta.academicYear == Some(y)
    case ByExtension(v) => AsciiLower(doc.meta.extension) == AsciiLower(v)
    case ByIntegrity(s) => doc.integrity == s
    case ByFileName(v) => Contains(lower(doc.meta.fileName), v)
    case ByText(v) =>
      Contains(lower(doc.meta.title), v) || Contains(lower(doc.meta.author), v)
      || Contains(lower(doc.meta.department), v) || Contains(lower(doc.meta.fileName), v)
      || (text.Some? && Contains(lower(text.value), v))
  }

  /** `SearchQuery::matches` */
  predicate Matches(lower: Lower, terms: seq<SearchTerm>, doc: Document, text: Option<string>) {
    forall i :: 0 <= i < |terms| ==> TermMatches(lower, terms[i], doc, text)
  }

  /** Does the query text select the document? */
  predicate Selects(lower: Lower, q: string, doc: Document, text: Option<string>) {
    Matches(lower, TermsOf(lower, SplitAnd(lower, q)), doc, text)
  }

  /** `search`: the matching documents in index order. */
  function Found(lower: Lower, terms: seq<SearchTerm>, docs: seq<Document>, texts: map<string, string>): seq<Document> {
    if docs == [] then []
    else
      var d := docs[0];
      var text := if d.vaultId in texts then Some(texts[d.vaultId]) else None;
      (if Matches(lower, terms, d, text) then [d] else []) + Found(lower, terms, docs[1..], texts)
  }

  lemma {:induction false} TermsOfConcat(lower: Lower, a: seq<string>, b: seq<string>)
    ensures TermsOf(lower, a + b) == TermsOf(lower, a) + TermsOf(lower, b)
  {
    if b == [] {
      assert a + b == a;
    } else {
      assert (a + b)[..|a + b| - 1] == a + b[..|b| - 1];
      TermsOfConcat(lower, a, b[..|b| - 1]);
    }
  }

  /** A compound query selects a document exactly when both halves select it. */
  lemma ConjunctionSelects(lower: Lower, a: string, w: string, b: string, doc: Document, text: Option<string>)
    requires (lower(w) == "and" || lower(w) == "y") && OneWord(w) && Balanced(a)
    ensures Selects(lower, a + " " + w + " " + b, doc, text)
            <==> Selects(lower, a, doc, text) && Selects(lower, b, doc, text)
  {
    SplitConjunction(lower, a, w, b);
    TermsOfConcat(lower, SplitAnd(lower, a), SplitAnd(lower, b));
    MatchesConcat(lower, TermsOf(lower, SplitAnd(lower, a)), TermsOf(lower, SplitAnd(lower, b)), doc, text);
  }

  lemma MatchesConcat(lower: Lower, s: seq<SearchTerm>, t: seq<SearchTerm>, doc: Document, text: Option<string>)
    ensures Matches(lower, s + t, doc, text) <==> Matches(lower, s, doc, text) && Matches(lower, t, doc, text)
  {
    if Matches(lower, s + t, doc, text) {
      assert forall i :: 0 <= i < |s| ==> (s + t)[i] == s[i];
      assert forall i :: 0 <= i < |t| ==> (s + t)[|s| + i] == t[i];
    }
  }

  /** The search for a compound query is the search of one half within the result of the other. */
  lemma {:induction false} SearchNarrows(
      lower: Lower, s: seq<SearchTerm>, t: seq<SearchTerm>, docs: seq<Document>, texts: map<string, string>)
    ensures Found(lower, s + t, docs, texts) == Found(lower, t, Found(lower, s, docs, texts), texts)
  {
    if docs != [] {
      var d := docs[0];
      MatchesConcat(lower, s, t, d, if d.vaultId in texts then Some(texts[d.vaultId]) else None);
      SearchNarrows(lower, s, t, docs[1..], texts);
      var rest := Found(lower, s, docs[1..], texts);
      assert ([d] + rest)[1..] == rest;
      assert [] + rest == rest;
    }
  }

  // ---------- what a single term selects ----------

  /** Lower-casing keeps a colon. */
  ghost predicate KeyLaws(lower: Lower) {
    forall w :: ':' in w ==> ':' in lower(w)
  }

  /** How a value is written: a single word as it is, and anything without quotes between quotes. */
  predicate Writes(t: string, v: string) {
    (OneWord(v) && t == v) || ('"' !in v && t == "\"" + v + "\"")
  }

  lemma ScanQuoted(cur: string, v: string)
    requires '"' !in v
    ensures ScanText(Scan([], cur, false), "\"" + v + "\"") == Scan([], cur + ("\"" + v + "\""), false)
  {
    var t := "\"" + v + "\"";
    ScanConcat(Scan([], cur, false), "\"" + v, "\"");
    ScanConcat(Scan([], cur, false), "\"", v);
    ScanPlain(Scan([], cur + "\"", true), v);
    ScanStep(Scan([], cur, false), "\"");
    ScanStep(Scan([], cur + "\"" + v, true), "\"");
    assert cur + "\"" + v + "\"" == cur + t;
  }

  /** Such a text is one word for the scanner, whatever word stands before it. */
  lemma WrittenIsWord(p: string, t: string, v: string)
    requires Writes(t, v) && (p == "" || OneWord(p))
    ensures Word(p + t) && Balanced(p + t) && !IsWhitespace((p + t)[|p + t| - 1])
  {
    ScanConcat(START, p, t);
    ScanPlain(START, p);
    assert "" + p == p;
    if OneWord(v) && t == v {
      ScanPlain(Scan([], p, false), t);
    } else {
      ScanQuoted(p, v);
    }
  }

  /** A word that is no connective is the only part of itself. */
  lemma WordIsOnePart(lower: Lower, w: string)
    requires Word(w) && Balanced(w) && !IsWhitespace(w[|w| - 1]) && lower(w) != "and" && lower(w) != "y"
    ensures SplitAnd(lower, w) == [w] && Trim(w) == w
  {
    assert Group(lower, [w]) by { assert [w][..0] == []; }
    SplitGroup(lower, [w]);
    assert JoinWords([w]) == w;
  }

  /** Then the query has the one term of that part, or none. */
  lemma OnePartSelects(lower: Lower, w: string, doc: Document, text: Option<string>)
    requires w != "" && SplitAnd(lower, w) == [w] && Trim(w) == w
    ensures Selects(lower, w, doc, text)
            <==> TermOf(lower, w).None? || TermMatches(lower, TermOf(lower, w).value, doc, text)
  {
    hide TermOf, TermMatches, SplitAnd;
    assert [w][..0] == [];
    assert TermsOf(lower, []) == [];
    var terms := TermsOf(lower, [w]);
    assert terms == if TermOf(lower, w).Some? then [TermOf(lower, w).value] else [];
    if terms != [] { assert terms[0] == TermOf(lower, w).value; }
  }

  lemma UnquoteWritten(t: string, v: string)
    requires Writes(t, v)
    ensures Unquote(t) == v && Trim(t) == t && t != ""
  {
    TrimTrimmed(t);
    if t == v {
      assert t[0] != '"' && t[|t| - 1] != '"';
    } else {
      assert t[1..] == v + "\"";
      UnquoteEnd(v);
    }
  }

  lemma UnquoteEnd(v: string)
    requires '"' !in v
    ensures Unquote(v + "\"") == v
  {
    assert (v + "\"")[..|v|] == v;
    assert (v + "\"")[1..] == v[|v|..] || v != "";
    if v == "" {
      assert Unquote("") == "";
    } else {
      assert v[0] != '"' && v[|v| - 1] != '"';
    }
  }

  lemma {:induction false} ColonAfter(k: string, rest: string)
    requires ':' !in k
    ensures ColonAt(k + ":" + rest) == |k|
  {
    if k != "" {
      assert (k + ":" + rest)[1..] == k[1..] + ":" + rest;
      ColonAfter(k[1..], rest);
    }
  }

  lemma KeyedParts(lower: Lower, k: string, t: string, v: string)
    requires OneWord(k) && ':' !in k && Writes(t, v)
    ensures KeyValue(lower, k + ":" + t) == (lower(k), v)
  {
    ColonAfter(k, t);
    var raw := k + ":" + t;
    assert raw[..|k|] == k && raw[|k| + 1..] == t;
    TrimTrimmed(k);
    UnquoteWritten(t, v);
  }

  /** A key, a colon and a value, as a whole query. */
  predicate Keyed(k: string, t: string, v: string) {
    OneWord(k) && ':' !in k && Writes(t, v)
  }

  lemma KeyedTerm(lower: Lower, k: string, t: string, v: string, doc: Document, text: Option<string>)
    requires KeyLaws(lower) && Keyed(k, t, v)
    ensures var term := TermFor(lower, lower(k), v);
            Selects(lower, k + ":" + t, doc, text) <==> term.None? || TermMatches(lower, term.value, doc, text)
  {
    var q := k + ":" + t;
    WrittenIsWord(k + ":", t, v);
    assert k + ":" + t == (k + ":") + t && ':' in q;
    assert ':' in lower(q) && ':' !in "and" && ':' !in "y";
    WordIsOnePart(lower, q);
    hide TermFor, TermMatches, KeyValue, SplitAnd, Selects, Word, Balanced;
    OnePartSelects(lower, q, doc, text);
    KeyedParts(lower, k, t, v);
  }

  // The keys of a query in every spelling, and what a key and a value select; a value that a key does not know, like a key
  // that is not known, selects everything.

  lemma AuthorKey(lower: Lower, key: string, v: string)
    requires key in {"autor", "author"}
    ensures TermFor(lower, key, v) == Some(ByAuthor(lower(v)))
  {}

  lemma AuthorQuery(lower: Lower, k: string, t: string, v: string, doc: Document, text: Option<string>)
    requires KeyLaws(lower) && Keyed(k, t, v) && lower(k) in {"autor", "author"}
    ensures Selects(lower, k + ":" + t, doc, text) <==> Contains(lower(doc.meta.author), lower(v))
  {
    hide TermFor, Contains, AsciiLower, Selects, KeyLaws, Keyed;
    AuthorKey(lower, lower(k), v);
    KeyedTerm(lower, k, t, v, doc, text);
  }

  lemma DepartmentKey(lower: Lower, key: string, v: string)
    requires key in {"departamento", "department"}
    ensures TermFor(lower, key, v) == Some(ByDepartment(lower(v)))
  {}

  lemma DepartmentQuery(lower: Lower, k: string, t: string, v: string, doc: Document, text: Option<string>)
    requires KeyLaws(lower) && Keyed(k, t, v) && lower(k) in {"departamento", "department"}
    ensures Selects(lower, k + ":" + t, doc, text) <==> Contains(lower(doc.meta.department), lower(v))
  {
    hide TermFor, Contains, AsciiLower, Selects, KeyLaws, Keyed;
    DepartmentKey(lower, lower(k), v);
    KeyedTerm(lower, k, t, v, doc, text);
  }

  lemma FileNameKey(lower: Lower, key: string, v: string)
    requires key in {"nombre", "filename", "archivo"}
    ensures TermFor(lower, key, v) == Some(ByFileName(lower(v)))
  {}

  lemma FileNameQuery(lower: Lower, k: string, t: string, v: string, doc: Document, text: Option<string>)
    requires KeyLaws(lower) && Keyed(k, t, v) && lower(k) in {"nombre", "filename", "archivo"}
    ensures Selects(lower, k + ":" + t, doc, text) <==> Contains(lower(doc.meta.fileName), lower(v))
  {
    hide TermFor, Contains, AsciiLower, Selects, KeyLaws, Keyed;
    FileNameKey(lower, lower(k), v);
    KeyedTerm(lower, k, t, v, doc, text);
  }

  lemma ExtensionKey(lower: Lower, key: string, v: string)
    requires key in {"extension", "ext"}
    ensures TermFor(lower, key, v) == Some(ByExtension(lower(v)))
  {}

  lemma ExtensionQuery(lower: Lower, k: string, t: string, v: string, doc: Document, text: Option<string>)
    requires KeyLaws(lower) && Keyed(k, t, v) && lower(k) in {"extension", "ext"}
    ensures Selects(lower, k + ":" + t, doc, text) <==> AsciiLower(doc.meta.extension) == AsciiLower(lower(v))
  {
    hide TermFor, Contains, AsciiLower, Selects, KeyLaws, Keyed;
    ExtensionKey(lower, lower(k), v);
    KeyedTerm(lower, k, t, v, doc, text);
  }

  /** Does the text denote the number: decimal digits, perhaps behind a plus sign? */
  predicate Denotes(v: string, n: nat) {
    (v != "" && AllDigits(v) && DecValue(v) == n)
    || (|v| > 1 && v[0] == '+' && AllDigits(v[1..]) && DecValue(v[1..]) == n)
  }

  /** A year finds its documents; what denotes no number of 16 bits finds everything. */
  lemma YearQuery(lower: Lower, k: string, t: string, v: string, doc: Document, text: Option<string>)
    requires KeyLaws(lower) && Keyed(k, t, v) && lower(k) in {"anio", "a\U{F1}o", "year"}
    ensures Selects(lower, k + ":" + t, doc, text)
            <==> forall n: nat :: n < 0x1_0000 && Denotes(v, n) ==> doc.meta.academicYear == Some(n)
  {
    hide TermFor, Contains, AsciiLower, Selects, ParseUnsigned, Denotes, KeyLaws, Keyed;
    YearKey(lower, lower(k), v);
    KeyedTerm(lower, k, t, v, doc, text);
    ParseDenotes(v);
  }

  lemma YearKey(lower: Lower, key: string, v: string)
    requires key in {"anio", "a\U{F1}o", "year"}
    ensures var y := ParseUnsigned(v, 0x1_0000); TermFor(lower, key, v) == if y.Some? then Some(ByYear(y.value)) else None
  {
    hide ParseUnsigned;
  }

  lemma ParseDenotes(v: string)
    ensures forall n: nat :: n < 0x1_0000 && Denotes(v, n) <==> ParseUnsigned(v, 0x1_0000) == Some(n)
  {
    if v != "" && AllDigits(v) { assert IsDigit(v[0]); }
  }

  /** A category is found by the name of its folder and by its name in the protocol; an unknown name finds everything. */
  lemma CategoryQuery(lower: Lower, k: string, t: string, v: string, doc: Document, text: Option<string>)
    requires KeyLaws(lower) && Keyed(k, t, v)
    requires lower(k) in {"categoria", "category", "categor\U{ED}a"}
    ensures forall c :: v == DirName(c) || v == ProtocolName(c) ==>
              (Selects(lower, k + ":" + t, doc, text) <==> doc.meta.category == c)
    ensures FromDirName(v).None? ==> Selects(lower, k + ":" + t, doc, text)
  {
    CategoryKey(lower, lower(k), v);
    KeyedTerm(lower, k, t, v, doc, text);
    hide TermFor, Contains, Selects, FromDirName, DirName, ProtocolName;
    forall c | v == DirName(c) || v == ProtocolName(c)
      ensures FromDirName(v) == Some(c)
    {
      DirNameRoundTrip(c);
      ProtocolNameRoundTrip(c);
    }
  }

  lemma CategoryKey(lower: Lower, key: string, v: string)
    requires key in {"categoria", "category", "categor\U{ED}a"}
    ensures var c := FromDirName(v); TermFor(lower, key, v) == if c.Some? then Some(ByCategory(c.value)) else None
  {
    hide FromDirName;
  }

  /** The integrity is found by its names; another value finds everything. */
  lemma IntegrityQuery(lower: Lower, k: string, t: string, v: string, doc: Document, text: Option<string>)
    requires KeyLaws(lower) && Keyed(k, t, v) && lower(k) in {"integridad", "integrity"}
    ensures Selects(lower, k + ":" + t, doc, text)
            <==> if lower(v) in {"ok", "verificada", "verified"} then doc.integrity.Intact?
                 else if lower(v) in {"tampered", "manipulado"} then doc.integrity.Tampered?
                 else if lower(v) in {"pending", "pendiente"} then doc.integrity.Unverified?
                 else true
  {
    hide TermFor, IntegrityTerm, Contains, AsciiLower, Selects, Keyed;
    IntegrityKey(lower, lower(k), v);
    IntegrityWords(lower(v));
    KeyedTerm(lower, k, t, v, doc, text);
  }

  lemma IntegrityKey(lower: Lower, key: string, v: string)
    requires key in {"integridad", "integrity"}
    ensures TermFor(lower, key, v) == IntegrityTerm(lower(v))
  {
    hide IntegrityTerm;
  }

  lemma IntegrityWords(w: string)
    ensures IntegrityTerm(w) == if w in {"ok", "verificada", "verified"} then Some(ByIntegrity(Intact))
                                else if w in {"tampered", "manipulado"} then Some(ByIntegrity(Tampered))
                                else if w in {"pending", "pendiente"} then Some(ByIntegrity(Unverified))
                                else None
  {}

  /** Where free text is looked for. */
  function SearchedTexts(doc: Document, text: Option<string>): set<string> {
    {doc.meta.title, doc.meta.author, doc.meta.department, doc.meta.fileName} + (if text.Some? then {text.value} else {})
  }

  /** Does one of these texts contain it, both in lower case? */
  predicate Mentions(lower: Lower, doc: Document, text: Option<string>, v: string) {
    exists s :: s in SearchedTexts(doc, text) && Contains(lower(s), lower(v))
  }

  lemma TextTermMentions(lower: Lower, v: string, doc: Document, text: Option<string>)
    ensures TermMatches(lower, ByText(lower(v)), doc, text) <==> Mentions(lower, doc, text, v)
  {
    hide Contains;
    var ss := SearchedTexts(doc, text);
    assert doc.meta.title in ss && doc.meta.author in ss && doc.meta.department in ss && doc.meta.fileName in ss;
    assert text.Some? ==> text.value in ss;
  }

  lemma TextQuery(lower: Lower, k: string, t: string, v: string, doc: Document, text: Option<string>)
    requires KeyLaws(lower) && Keyed(k, t, v)
    requires lower(k) in {"titulo", "t\U{ED}tulo", "title", "texto", "text", "q"}
    ensures Selects(lower, k + ":" + t, doc, text) <==> Mentions(lower, doc, text, v)
  {
    TextKey(lower, lower(k), v);
    KeyedTerm(lower, k, t, v, doc, text);
    TextTermMentions(lower, v, doc, text);
    hide TermFor, Selects, TermMatches, Mentions;
  }

  lemma TextKey(lower: Lower, key: string, v: string)
    requires key in {"", "titulo", "t\U{ED}tulo", "title", "texto", "text", "q"}
    ensures TermFor(lower, key, v) == Some(ByText(lower(v)))
  {}

  /** Free text: a value without a key. */
  lemma FreeQuery(lower: Lower, t: string, v: string, doc: Document, text: Option<string>)
    requires Writes(t, v) && ':' !in t && lower(t) != "and" && lower(t) != "y"
    ensures Selects(lower, t, doc, text) <==> Mentions(lower, doc, text, v)
  {
    WrittenIsWord("", t, v);
    assert "" + t == t;
    WordIsOnePart(lower, t);
    UnquoteWritten(t, v);
    NoColon(t);
    TextKey(lower, "", v);
    TextTermMentions(lower, v, doc, text);
    hide TermFor, Contains, Selects, SplitAnd, Word, Balanced, TermMatches, Mentions, Unquote, Writes;
    OnePartSelects(lower, t, doc, text);
  }

  lemma {:induction false} NoColon(s: string)
    requires ':' !in s
    ensures ColonAt(s) == |s|
  {
    if s != "" { NoColon(s[1..]); }
  }

  /** A key that is not known selects everything. */
  lemma UnknownKey(lower: Lower, k: string, t: string, v: string, doc: Document, text: Option<string>)
    requires KeyLaws(lower) && Keyed(k, t, v)
    requires lower(k) !in {"", "autor", "author", "departamento", "department", "nombre", "filename", "archivo", "extension",
                           "ext", "anio", "a\U{F1}o", "year", "categoria", "category", "categor\U{ED}a", "integridad",
                           "integrity", "titulo", "t\U{ED}tulo", "title", "texto", "text", "q"}
    ensures Selects(lower, k + ":" + t, doc, text)
  {
    assert TermFor(lower, lower(k), v).None?;
    hide TermFor, Selects;
    KeyedTerm(lower, k, t, v, doc, text);
  }

  // ---------- what a search finds ----------

  /** A search finds exactly the documents that match with their extracted text, as often as they are in the index, and in
      its order. */
  lemma {:induction false} FoundInOrder(
      lower: Lower, terms: seq<SearchTerm>, a: seq<Document>, d: Document, b: seq<Document>, texts: map<string, string>)
    ensures Found(lower, terms, a + [d] + b, texts)
            == Found(lower, terms, a, texts)
               + (if Matches(lower, terms, d, if d.vaultId in texts then Some(texts[d.vaultId]) else None) then [d] else [])
               + Found(lower, terms, b, texts)
  {
    hide Matches;
    if a == [] {
      assert a + [d] + b == [d] + b && ([d] + b)[1..] == b;
    } else {
      assert (a + [d] + b)[1..] == a[1..] + [d] + b;
      FoundInOrder(lower, terms, a[1..], d, b, texts);
    }
  }
}
