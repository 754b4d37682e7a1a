/** Text primitives of the Rust standard library that the modelled code relies on. */
module Text {
  import opened Common

  // ---------- decimal numbers ----------

  function Digit(d: int): char
    requires 0 <= d < 10
  {
    (48 + d) as char
  }

  predicate IsDigit(c: char) {
    '0' <= c <= '9'
  }

  predicate AllDigits(s: string) {
    forall i :: 0 <= i < |s| ==> IsDigit(s[i])
  }

  /** `format!("{n}")` */
  function ToDec(n: nat): (s: string)
    ensures s != "" && AllDigits(s)
  {
    if n < 10 then [Digit(n)] else ToDec(n / 10) + [Digit(n % 10)]
  }

  function DecValue(s: string): nat
    requires AllDigits(s)
  {
    if s == "" then 0 else 10 * DecValue(s[..|s| - 1]) + (s[|s| - 1] as int - 48)
  }

  /** `n` in exactly `w` digits, the leading ones dropped when it has more. */
  function Pad(n: nat, w: nat): (s: string)
    ensures |s| == w && AllDigits(s)
  {
    if w == 0 then "" else Pad(n / 10, w - 1) + [Digit(n % 10)]
  }

  /** `format!("{n:0w$}")`: a sign counts towards the width, and a longer number is printed whole. */
  function ZeroPadded(n: int, w: nat): string {
    if n < 0 then
      (var t := ToDec(-n); "-" + (if |t| + 1 < w then Pad(-n, w - 1) else t))
    else
      (var t := ToDec(n); if |t| < w then Pad(n, w) else t)
  }

  function Pow10(w: nat): (p: nat)
    ensures p >= 1
  {
    if w == 0 then 1 else 10 * Pow10(w - 1)
  }

  lemma {:induction false} ToDecValue(n: nat)
    ensures DecValue(ToDec(n)) == n
  {
    if n < 10 {
      assert ToDec(n)[..0] == "";
    } else {
      ToDecValue(n / 10);
      assert ToDec(n)[..|ToDec(n)| - 1] == ToDec(n / 10);
    }
  }

  lemma {:induction false} PadValue(n: nat, w: nat)
    requires n < Pow10(w)
    ensures DecValue(Pad(n, w)) == n
  {
    if w > 0 {
      PadValue(n / 10, w - 1);
      assert Pad(n, w)[..w - 1] == Pad(n / 10, w - 1);
    }
  }

  lemma {:induction false} DecValueBound(s: string)
    requires AllDigits(s)
    ensures DecValue(s) < Pow10(|s|)
  {
    if s != "" { DecValueBound(s[..|s| - 1]); }
  }

  lemma {:induction false} ToDecIsPad(n: nat, w: nat)
    requires |ToDec(n)| == w
    ensures ToDec(n) == Pad(n, w)
  {
    if n < 10 {
      assert Pad(n / 10, 0) == "";
      assert Pad(n, 1) == Pad(n / 10, 0) + [Digit(n % 10)];
    } else {
      ToDecIsPad(n / 10, w - 1);
    }
  }

  lemma {:induction false} ToDecLength(n: nat, w: nat)
    requires w > 0 && n < Pow10(w)
    ensures |ToDec(n)| <= w
  {
    if n >= 10 { ToDecLength(n / 10, w - 1); }
  }

  lemma {:induction false} ToDecLonger(n: nat, w: nat)
    requires n >= Pow10(w)
    ensures |ToDec(n)| > w
  {
    if w > 0 {
      assert Pow10(w) == 10 * Pow10(w - 1) && Pow10(w - 1) >= 1;
      ToDecLonger(n / 10, w - 1);
    }
  }

  /** Within its width a non-negative number prints as plain padded digits. */
  lemma ZeroPaddedIsPad(n: nat, w: nat)
    requires w > 0 && n < Pow10(w)
    ensures ZeroPadded(n, w) == Pad(n, w)
  {
    ToDecLength(n, w);
    if |ToDec(n)| == w { ToDecIsPad(n, w); }
  }

  /** `str::parse` for an unsigned type with `bound` values: an optional plus sign, digits, no overflow. */
  function ParseUnsigned(s: string, bound: nat): Option<nat> {
    var t := if |s| > 1 && s[0] == '+' then s[1..] else s;
    if t != "" && AllDigits(t) && DecValue(t) < bound then Some(DecValue(t)) else None
  }

  lemma ParsePrinted(n: nat, bound: nat)
    requires n < bound
    ensures ParseUnsigned(ToDec(n), bound) == Some(n)
  {
    ToDecValue(n);
    assert IsDigit(ToDec(n)[0]);
  }

  // ---------- lexicographic order ----------

  predicate LexLess(a: string, b: string) {
    b != "" && (a == "" || a[0] < b[0] || (a[0] == b[0] && LexLess(a[1..], b[1..])))
  }

  lemma {:induction false} LexLessConcat(a: string, b: string, c: string, d: string)
    requires |a| == |b|
    ensures LexLess(a + c, b + d) <==> LexLess(a, b) || (a == b && LexLess(c, d))
  {
    if a == "" {
      assert a + c == c && b + d == d;
    } else {
      assert (a + c)[1..] == a[1..] + c && (b + d)[1..] == b[1..] + d;
      LexLessConcat(a[1..], b[1..], c, d);
      assert a == [a[0]] + a[1..] && b == [b[0]] + b[1..];
    }
  }

  lemma LexIrreflexive(a: string)
    ensures !LexLess(a, a)
  {}

  /** Padded numbers of one width compare as numbers. */
  lemma {:induction false} LexPad(m: nat, n: nat, w: nat)
    requires m < Pow10(w) && n < Pow10(w)
    ensures LexLess(Pad(m, w), Pad(n, w)) <==> m < n
    ensures Pad(m, w) == Pad(n, w) <==> m == n
  {
    PadValue(m, w);
    PadValue(n, w);
    if w > 0 {
      LexPad(m / 10, n / 10, w - 1);
      LexLessConcat(Pad(m / 10, w - 1), Pad(n / 10, w - 1), [Digit(m % 10)], [Digit(n % 10)]);
    }
  }

  // ---------- white space ----------

  /** `char::is_whitespace`: the Unicode property White_Space. */
  predicate IsWhitespace(c: char) {
    '\t' <= c <= '\r' || c == ' ' || c == '\U{85}' || c == '\U{A0}' || c == '\U{1680}'
    || '\U{2000}' <= c <= '\U{200A}' || c == '\U{2028}' || c == '\U{2029}' || c == '\U{202F}'
    || c == '\U{205F}' || c == '\U{3000}'
  }

  /** The 25 characters with that property. */
  lemma WhitespaceCharacters(c: char)
    ensures IsWhitespace(c) <==>
              c in "\t\n\U{0B}\U{0C}\r \U{85}\U{A0}\U{1680}" + "\U{2000}\U{2001}\U{2002}\U{2003}\U{2004}\U{2005}\U{2006}"
                   + "\U{2007}\U{2008}\U{2009}\U{200A}\U{2028}\U{2029}\U{202F}\U{205F}\U{3000}"
  {
    var i := c as int;
    assert 0x2000 <= i <= 0x200A ==>
        i in [0x2000, 0x2001, 0x2002, 0x2003, 0x2004, 0x2005, 0x2006, 0x2007, 0x2008, 0x2009, 0x200A];
  }

  function TrimStart(s: string): string {
    if s != "" && IsWhitespace(s[0]) then TrimStart(s[1..]) else s
  }

  function TrimEnd(s: string): string {
    if s != "" && IsWhitespace(s[|s| - 1]) then TrimEnd(s[..|s| - 1]) else s
  }

  /** `str::trim` */
  function Trim(s: string): string {
    TrimEnd(TrimStart(s))
  }

  predicate Trimmed(s: string) {
    s == "" || (!IsWhitespace(s[0]) && !IsWhitespace(s[|s| - 1]))
  }

  lemma TrimTrimmed(s: string)
    requires Trimmed(s)
    ensures Trim(s) == s
  {}

  // ---------- parts and case ----------

  /** `str::contains` */
  predicate Contains(s: string, t: string) {
    exists i :: 0 <= i <= |s| && t <= s[i..]
  }

  /** `to_ascii_lowercase`, and the comparison of `eq_ignore_ascii_case`. */
  function AsciiLower(s: string): string {
    seq(|s|, i requires 0 <= i < |s| => if 'A' <= s[i] <= 'Z' then (s[i] as int + 32) as char else s[i])
  }
}
