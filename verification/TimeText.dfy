/** The two texts printed from a civil time, and the reader of DER times. */
module TimeText {
  import opened Common
  import opened Text
  import opened Calendar

  const TAG_UTC_TIME: byte := 0x17
  const TAG_GENERALIZED_TIME: byte := 0x18

  /** `format_rfc3339` */
  function FormatRfc3339(secs: int): string {
    var c := CivilFromEpoch(secs);
    ZeroPadded(c.y, 4) + "-" + ZeroPadded(c.m, 2) + "-" + ZeroPadded(c.d, 2) + "T"
    + ZeroPadded(c.h, 2) + ":" + ZeroPadded(c.mi, 2) + ":" + ZeroPadded(c.s, 2) + "Z"
  }

  /** The GeneralizedTime text that stamping prints. */
  function GeneralizedTime(secs: int): string {
    var c := CivilFromEpoch(secs);
    ZeroPadded(c.y, 4) + ZeroPadded(c.m, 2) + ZeroPadded(c.d, 2)
    + ZeroPadded(c.h, 2) + ZeroPadded(c.mi, 2) + ZeroPadded(c.s, 2) + "Z"
  }

  function DigitsOf(s: string): (d: string)
    ensures AllDigits(d)
  {
    if s == "" then ""
    else (if IsDigit(s[0]) then [s[0]] else "") + DigitsOf(s[1..])
  }

  /** `rest.get(at..at + 2)?.parse()?` */
  function Field(rest: string, at: nat): Option<nat>
    requires AllDigits(rest)
  {
    if at + 2 <= |rest| then Some(DecValue(rest[at..at + 2])) else None
  }

  /** `parse_der_time`: two year digits with the pivot 50 under the UTCTime tag, four otherwise. */
  function ParseDerTime(tag: byte, s: string): Option<int> {
    TimeOfDigits(tag, DigitsOf(s))
  }

  function TimeOfDigits(tag: byte, digits: string): Option<int>
    requires AllDigits(digits)
  {
    var w := if tag == TAG_UTC_TIME then 2 else 4;
    if |digits| < w then None
    else
      var rest := digits[w..];
      var yy := DecValue(digits[..w]);
      var y := if tag != TAG_UTC_TIME then yy else if yy >= 50 then 1900 + yy else 2000 + yy;
      var mo, d, h, mi, sec := Field(rest, 0), Field(rest, 2), Field(rest, 4), Field(rest, 6), Field(rest, 8);
      if mo.Some? && d.Some? && h.Some? && mi.Some? && sec.Some?
      then Some(SecondsOf(Civil(y, mo.value, d.value, h.value, mi.value, sec.value)))
      else None
  }

  predicate FourDigitYear(secs: int) {
    0 <= CivilFromEpoch(secs).y <= 9999
  }

  // ---------- reading back what was printed ----------

  lemma {:induction false} DigitsOfConcat(a: string, b: string)
    ensures DigitsOf(a + b) == DigitsOf(a) + DigitsOf(b)
  {
    hide AllDigits, IsDigit;
    if a == "" {
      assert a + b == b;
    } else {
      var ab, first := a + b, if IsDigit(a[0]) then [a[0]] else "";
      assert ab[0] == a[0] && ab[1..] == a[1..] + b;
      DigitsOfConcat(a[1..], b);
      assert DigitsOf(ab) == first + (DigitsOf(a[1..]) + DigitsOf(b));
      assert DigitsOf(a) == first + DigitsOf(a[1..]);
    }
  }

  lemma {:induction false} DigitsOfDigits(s: string)
    requires AllDigits(s)
    ensures DigitsOf(s) == s
  {
    if s != "" { DigitsOfDigits(s[1..]); }
  }

  /** The fields of a civil time fit their columns. */
  lemma ColumnsFit(secs: int)
    requires FourDigitYear(secs)
    ensures var c := CivilFromEpoch(secs);
            && ZeroPadded(c.y, 4) == Pad(c.y, 4) && c.y < Pow10(4)
            && ZeroPadded(c.m, 2) == Pad(c.m, 2) && 0 <= c.m < Pow10(2)
            && ZeroPadded(c.d, 2) == Pad(c.d, 2) && 0 <= c.d < Pow10(2)
            && ZeroPadded(c.h, 2) == Pad(c.h, 2) && 0 <= c.h < Pow10(2)
            && ZeroPadded(c.mi, 2) == Pad(c.mi, 2) && 0 <= c.mi < Pow10(2)
            && ZeroPadded(c.s, 2) == Pad(c.s, 2) && 0 <= c.s < Pow10(2)
  {
    CivilFromEpochIsRight(secs);
    var c := CivilFromEpoch(secs);
    assert Pow10(1) == 10 && Pow10(2) == 100 && Pow10(3) == 1000 && Pow10(4) == 10000;
    ZeroPaddedIsPad(c.y, 4);
    ZeroPaddedIsPad(c.m, 2);
    ZeroPaddedIsPad(c.d, 2);
    ZeroPaddedIsPad(c.h, 2);
    ZeroPaddedIsPad(c.mi, 2);
    ZeroPaddedIsPad(c.s, 2);
  }

  /** Appending a column leaves the fields before it alone. */
  lemma FieldAppend(p: string, x: string)
    requires AllDigits(p) && AllDigits(x) && |x| == 2
    ensures Field(p + x, |p|) == Some(DecValue(x))
    ensures forall k: nat :: k + 2 <= |p| ==> Field(p + x, k) == Field(p, k)
  {
    assert (p + x)[|p|..|p| + 2] == x;
    forall k: nat | k + 2 <= |p|
      ensures Field(p + x, k) == Field(p, k)
    {
      assert (p + x)[k..k + 2] == p[k..k + 2];
    }
  }

  lemma FieldShift(p: string, w: nat, k: nat)
    requires AllDigits(p) && w <= |p|
    ensures Field(p[w..], k) == Field(p, w + k)
  {
    if w + k + 2 <= |p| { assert p[w..][k..k + 2] == p[w + k..w + k + 2]; }
  }

  predicate Column(s: string, w: nat) {
    |s| == w && AllDigits(s)
  }

  lemma FieldsReadBack(y: string, mo: string, d: string, h: string, mi: string, s: string, t: string, c: Civil)
    requires Column(y, 4)
    requires Column(mo, 2)
    requires Column(d, 2)
    requires Column(h, 2)
    requires Column(mi, 2)
    requires Column(s, 2)
    requires AllDigits(t) && t == y + mo + d + h + mi + s
    requires c == Civil(DecValue(y), DecValue(mo), DecValue(d), DecValue(h), DecValue(mi), DecValue(s))
    ensures TimeOfDigits(TAG_GENERALIZED_TIME, t) == Some(SecondsOf(c))
  {
    var p := y;
    FieldAppend(p, mo);
    p := p + mo;
    FieldAppend(p, d);
    p := p + d;
    FieldAppend(p, h);
    p := p + h;
    FieldAppend(p, mi);
    p := p + mi;
    FieldAppend(p, s);
    assert t[..4] == y;
    FieldShift(t, 4, 0);
    FieldShift(t, 4, 2);
    FieldShift(t, 4, 4);
    FieldShift(t, 4, 6);
    FieldShift(t, 4, 8);
  }

  lemma DigitsThenZ(t: string)
    requires AllDigits(t)
    ensures DigitsOf(t + "Z") == t
  {
    DigitsOfConcat(t, "Z");
    DigitsOfDigits(t);
  }

  /** The time printed when stamping is read back as the same second. */
  lemma GeneralizedTimeRoundTrip(secs: int)
    requires FourDigitYear(secs)
    ensures ParseDerTime(TAG_GENERALIZED_TIME, GeneralizedTime(secs)) == Some(secs)
  {
    var c := CivilFromEpoch(secs);
    ColumnsFit(secs);
    var y, mo, d, h, mi, s := Pad(c.y, 4), Pad(c.m, 2), Pad(c.d, 2), Pad(c.h, 2), Pad(c.mi, 2), Pad(c.s, 2);
    var t := y + mo + d + h + mi + s;
    DigitsThenZ(t);
    PadValue(c.y, 4);
    PadValue(c.m, 2);
    PadValue(c.d, 2);
    PadValue(c.h, 2);
    PadValue(c.mi, 2);
    PadValue(c.s, 2);
    FieldsReadBack(y, mo, d, h, mi, s, t, c);
    CivilFromEpochIsRight(secs);
  }

  lemma {:induction false} LeadingDigits(n: nat)
    requires n >= 10000
    ensures |ToDec(n)| >= 5 && DecValue(ToDec(n)[..4]) <= n / 10
  {
    assert Pow10(1) == 10 && Pow10(2) == 100 && Pow10(3) == 1000 && Pow10(4) == 10000;
    ToDecLonger(n, 4);
    assert ToDec(n)[..4] == ToDec(n / 10)[..4];
    if n >= 100000 {
      LeadingDigits(n / 10);
    } else {
      ToDecLength(n / 10, 4);
      assert ToDec(n / 10)[..4] == ToDec(n / 10);
      ToDecValue(n / 10);
    }
  }

  /** Two-digit fields, whatever they say, stay well inside two years. */
  lemma FieldsStayNear(c: Civil)
    requires 0 <= c.m < 100 && 0 <= c.d < 100 && 0 <= c.h < 100 && 0 <= c.mi < 100 && 0 <= c.s < 100
    ensures SecondsOf(c) < YearStart(c.y + 2) * SECS_PER_DAY
  {
    DaysByYear(c.y, c.m, c.d);
    YearLength(c.y - 1);
    YearLength(c.y);
    YearLength(c.y + 1);
    assert DayOfYear(c.m, c.d) <= 435;
  }

  lemma MuchLaterYear(b: Civil, c: Civil)
    requires 0 <= b.m < 100 && 0 <= b.d < 100 && 0 <= b.h < 100 && 0 <= b.mi < 100 && 0 <= b.s < 100
    requires ValidCivil(c) && b.y + 3 < c.y
    ensures SecondsOf(b) < SecondsOf(c)
  {
    FieldsStayNear(b);
    YearStartIsMonotone(b.y + 2, c.y - 1);
    DaysByYear(c.y, c.m, c.d);
    YearLength(b.y + 2);
    YearLength(c.y - 1);
    hide YearStart, DaysFromCivil, IsLeap;
  }

  lemma FieldIsSmall(rest: string, at: nat)
    requires AllDigits(rest) && Field(rest, at).Some?
    ensures Field(rest, at).value < 100
  {
    DecValueBound(rest[at..at + 2]);
    assert Pow10(2) == 100;
  }

  /** A year of more than four digits is misread: the reader takes its first four digits for the year. */
  lemma LongYearIsMisread(secs: int)
    requires CivilFromEpoch(secs).y > 9999
    ensures ParseDerTime(TAG_GENERALIZED_TIME, GeneralizedTime(secs)) != Some(secs)
  {
    hide SecondsOf, CivilFromEpoch, ToDec, ValidCivil, TimeOfDigits, ZeroPadded;
    var c := CivilFromEpoch(secs);
    CivilFromEpochIsRight(secs);
    LeadingDigits(c.y);
    var year := ToDec(c.y);
    var rest := ZeroPadded(c.m, 2) + ZeroPadded(c.d, 2) + ZeroPadded(c.h, 2) + ZeroPadded(c.mi, 2) + ZeroPadded(c.s, 2) + "Z";
    LongYearText(secs, c, rest);
    DigitsOfConcat(year, rest);
    DigitsOfDigits(year);
    assert (year + DigitsOf(rest))[..4] == year[..4];
    FirstFourDecide(year + DigitsOf(rest), c);
  }

  lemma LongYearText(secs: int, c: Civil, rest: string)
    requires c == CivilFromEpoch(secs) && c.y > 9999
    requires rest == ZeroPadded(c.m, 2) + ZeroPadded(c.d, 2) + ZeroPadded(c.h, 2) + ZeroPadded(c.mi, 2) + ZeroPadded(c.s, 2)
                     + "Z"
    ensures GeneralizedTime(secs) == ToDec(c.y) + rest
  {
    assert Pow10(1) == 10 && Pow10(2) == 100 && Pow10(3) == 1000 && Pow10(4) == 10000;
    ToDecLonger(c.y, 4);
    assert ZeroPadded(c.y, 4) == ToDec(c.y);
    hide CivilFromEpoch, ZeroPadded, ToDec, Pow10;
    Regrouped(ToDec(c.y), ZeroPadded(c.m, 2), ZeroPadded(c.d, 2), ZeroPadded(c.h, 2), ZeroPadded(c.mi, 2),
              ZeroPadded(c.s, 2));
  }

  /** Whatever follows, the first four digits put the second far from that of a much later year. */
  lemma FirstFourDecide(digits: string, c: Civil)
    requires AllDigits(digits) && |digits| >= 4 && ValidCivil(c) && DecValue(digits[..4]) + 3 < c.y
    ensures TimeOfDigits(TAG_GENERALIZED_TIME, digits) != Some(SecondsOf(c))
  {
    hide SecondsOf, ValidCivil, DecValue;
    var r := TimeOfDigits(TAG_GENERALIZED_TIME, digits);
    if r.Some? {
      var tail := digits[4..];
      FieldIsSmall(tail, 0);
      FieldIsSmall(tail, 2);
      FieldIsSmall(tail, 4);
      FieldIsSmall(tail, 6);
      FieldIsSmall(tail, 8);
      var b := Civil(DecValue(digits[..4]), Field(tail, 0).value, Field(tail, 2).value,
                     Field(tail, 4).value, Field(tail, 6).value, Field(tail, 8).value);
      assert r == Some(SecondsOf(b));
      MuchLaterYear(b, c);
    }
  }

  /** From year 0 on, the printed time is read back as the same second exactly when the year has at most four digits. */
  lemma GeneralizedTimeReadable(secs: int)
    requires CivilFromEpoch(secs).y >= 0
    ensures ParseDerTime(TAG_GENERALIZED_TIME, GeneralizedTime(secs)) == Some(secs) <==> FourDigitYear(secs)
  {
    if FourDigitYear(secs) { GeneralizedTimeRoundTrip(secs); } else { LongYearIsMisread(secs); }
  }

  /** A DER time is readable exactly when it has enough digits, whatever stands between them. */
  lemma ParseDerTimeAccepts(tag: byte, s: string)
    ensures ParseDerTime(tag, s).Some? <==> |DigitsOf(s)| >= (if tag == TAG_UTC_TIME then 12 else 14)
  {}

  /** A text with a two-digit year, as section 4.1.2.5.1 of RFC 5280 has it. */
  function UtcTime(secs: int): string {
    var c := CivilFromEpoch(secs);
    ZeroPadded(c.y % 100, 2) + ZeroPadded(c.m, 2) + ZeroPadded(c.d, 2)
    + ZeroPadded(c.h, 2) + ZeroPadded(c.mi, 2) + ZeroPadded(c.s, 2) + "Z"
  }

  /** Two year digits are read within the hundred years from 1950 on: such a text of a second gives that second exactly when
      its year is one of these. */
  lemma UtcTimeReadable(secs: int)
    requires FourDigitYear(secs)
    ensures ParseDerTime(0x17, UtcTime(secs)) == Some(secs) <==> 1950 <= CivilFromEpoch(secs).y <= 2049
  {
    hide ParseDerTime, UtcTime, SecondsOf, CivilFromEpoch, ValidCivil;
    var c := CivilFromEpoch(secs);
    var year := PivotYear(c.y % 100);
    CivilFromEpochIsRight(secs);
    UtcTimeReads(secs, c);
    PivotIsNear(c.y);
    OtherYearOtherSecond(c, year);
  }

  /** The year from 1950 to 2049 with these last two digits. */
  function PivotYear(yy: int): int {
    if yy >= 50 then 1900 + yy else 2000 + yy
  }

  lemma PivotIsNear(y: int)
    requires 0 <= y <= 9999
    ensures var year := PivotYear(y % 100);
            && 1950 <= year <= 2049 && (year == y <==> 1950 <= y <= 2049) && (year == y || year + 3 < y || y + 3 < year)
  {}

  /** Everything but the year, in its columns. */
  function AfterYear(c: Civil): (s: string)
    requires c.m >= 0 && c.d >= 0 && c.h >= 0 && c.mi >= 0 && c.s >= 0
    ensures AllDigits(s)
  {
    Pad(c.m, 2) + Pad(c.d, 2) + Pad(c.h, 2) + Pad(c.mi, 2) + Pad(c.s, 2)
  }

  predicate InColumns(c: Civil) {
    0 <= c.m < 100 && 0 <= c.d < 100 && 0 <= c.h < 100 && 0 <= c.mi < 100 && 0 <= c.s < 100
  }

  lemma UtcText(secs: int, c: Civil)
    requires FourDigitYear(secs) && c == CivilFromEpoch(secs)
    ensures InColumns(c) && UtcTime(secs) == Pad(c.y % 100, 2) + AfterYear(c) + "Z"
  {
    ColumnsFit(secs);
    assert Pow10(1) == 10 && Pow10(2) == 100;
    ZeroPaddedIsPad(c.y % 100, 2);
    hide CivilFromEpoch, ZeroPadded, Pad, Pow10;
    Regrouped(Pad(c.y % 100, 2), Pad(c.m, 2), Pad(c.d, 2), Pad(c.h, 2), Pad(c.mi, 2), Pad(c.s, 2));
  }

  lemma Regrouped(a: string, b: string, c: string, d: string, e: string, f: string)
    ensures a + b + c + d + e + f + "Z" == a + (b + c + d + e + f) + "Z"
    ensures a + b + c + d + e + f + "Z" == a + (b + c + d + e + f + "Z")
    ensures a + b + c + d + e + f == a + (b + c + d + e + f)
  {
    assert a + b + c + d + e + f == a + (b + c + d + e + f);
  }

  lemma ColumnValues(c: Civil)
    requires InColumns(c) && 0 <= c.y <= 9999
    ensures DecValue(Pad(c.y, 4)) == c.y && DecValue(Pad(c.m, 2)) == c.m && DecValue(Pad(c.d, 2)) == c.d
    ensures DecValue(Pad(c.h, 2)) == c.h && DecValue(Pad(c.mi, 2)) == c.mi && DecValue(Pad(c.s, 2)) == c.s
  {
    assert Pow10(1) == 10 && Pow10(2) == 100 && Pow10(3) == 1000 && Pow10(4) == 10000;
    hide Pad, DecValue, Pow10;
    PadValue(c.y, 4);
    PadValue(c.m, 2);
    PadValue(c.d, 2);
    PadValue(c.h, 2);
    PadValue(c.mi, 2);
    PadValue(c.s, 2);
  }

  lemma FourDigitsRead(c: Civil)
    requires InColumns(c) && 0 <= c.y <= 9999
    ensures TimeOfDigits(TAG_GENERALIZED_TIME, Pad(c.y, 4) + AfterYear(c)) == Some(SecondsOf(c))
  {
    hide SecondsOf, Pad, DecValue, TimeOfDigits;
    ColumnValues(c);
    var y, mo, d, h, mi, s := Pad(c.y, 4), Pad(c.m, 2), Pad(c.d, 2), Pad(c.h, 2), Pad(c.mi, 2), Pad(c.s, 2);
    Regrouped(y, mo, d, h, mi, s);
    FieldsReadBack(y, mo, d, h, mi, s, y + AfterYear(c), c);
  }

  lemma UtcTimeReads(secs: int, c: Civil)
    requires FourDigitYear(secs) && c == CivilFromEpoch(secs)
    ensures ParseDerTime(0x17, UtcTime(secs)) == Some(SecondsOf(c.(y := PivotYear(c.y % 100))))
  {
    UtcText(secs, c);
    PivotIsNear(c.y);
    var year := PivotYear(c.y % 100);
    assert Pow10(1) == 10 && Pow10(2) == 100 && Pow10(3) == 1000 && Pow10(4) == 10000;
    PadValue(c.y % 100, 2);
    PadValue(year, 4);
    FourDigitsRead(c.(y := year));
    hide SecondsOf, CivilFromEpoch, Pad, DecValue, Pow10, TimeOfDigits, UtcTime, PivotYear, AfterYear;
    assert AfterYear(c.(y := year)) == AfterYear(c) by { SameColumns(c, year); }
    DigitsThenZ(Pad(c.y % 100, 2) + AfterYear(c));
    UtcAsFourDigits(Pad(c.y % 100, 2), Pad(year, 4), AfterYear(c));
  }

  lemma SameColumns(c: Civil, year: int)
    requires InColumns(c)
    ensures AfterYear(c.(y := year)) == AfterYear(c)
  {}

  /** Two digits of the year are read as the four of the pivot's year. */
  lemma UtcAsFourDigits(two: string, four: string, rest: string)
    requires Column(two, 2) && Column(four, 4) && AllDigits(rest) && DecValue(four) == PivotYear(DecValue(two))
    ensures AllDigits(two + rest) && AllDigits(four + rest)
    ensures TimeOfDigits(TAG_UTC_TIME, two + rest) == TimeOfDigits(TAG_GENERALIZED_TIME, four + rest)
  {
    hide DecValue, SecondsOf, Field;
    assert (two + rest)[2..] == rest && (two + rest)[..2] == two;
    assert (four + rest)[4..] == rest && (four + rest)[..4] == four;
  }

  /** With another year, a hundred years away or more, the fields are another second. */
  lemma OtherYearOtherSecond(c: Civil, year: int)
    requires ValidCivil(c) && (year == c.y || year + 3 < c.y || c.y + 3 < year)
    requires 1950 <= year <= 2049
    ensures SecondsOf(c.(y := year)) == SecondsOf(c) <==> year == c.y
  {
    if year + 3 < c.y {
      MuchLaterYear(c.(y := year), c);
    } else if c.y + 3 < year {
      YearsLater(c, year);
    }
  }

  lemma YearsLater(c: Civil, year: int)
    requires ValidCivil(c) && c.y + 3 < year
    ensures SecondsOf(c) < SecondsOf(c.(y := year))
  {
    FieldsStayNear(c);
    YearStartIsMonotone(c.y + 2, year - 1);
    DaysByYear(year, c.m, c.d);
    YearLength(c.y + 2);
    YearLength(year - 1);
    assert DayOfYear(c.m, c.d) >= 0;
    hide YearStart, DaysFromCivil, IsLeap;
  }

  // ---------- the order of the printed texts ----------

  /** Three columns, each followed by a separator. */
  function Columns(x: nat, w: nat, y: nat, z: nat, s1: string, s2: string, s3: string): string {
    Pad(x, w) + s1 + Pad(y, 2) + s2 + Pad(z, 2) + s3
  }

  lemma ColumnOrder(p: string, p': string, x: nat, x': nat, w: nat, sep: string)
    requires |p| == |p'| && x < Pow10(w) && x' < Pow10(w)
    ensures LexLess(p + Pad(x, w) + sep, p' + Pad(x', w) + sep) <==> LexLess(p, p') || (p == p' && x < x')
    ensures p + Pad(x, w) + sep == p' + Pad(x', w) + sep <==> p == p' && x == x'
  {
    var a, b := p + Pad(x, w), p' + Pad(x', w);
    LexLessConcat(a, b, sep, sep);
    LexIrreflexive(sep);
    LexLessConcat(p, p', Pad(x, w), Pad(x', w));
    LexPad(x, x', w);
    if a + sep == b + sep {
      assert a == (a + sep)[..|a|] && b == (b + sep)[..|b|];
      assert p == a[..|p|] && p' == b[..|p'|];
      assert Pad(x, w) == a[|p|..] && Pad(x', w) == b[|p'|..];
    }
  }

  lemma ColumnsOrder(x: nat, x': nat, w: nat, y: nat, y': nat, z: nat, z': nat, s1: string, s2: string, s3: string)
    requires x < Pow10(w) && x' < Pow10(w)
    requires y < Pow10(2) && y' < Pow10(2) && z < Pow10(2) && z' < Pow10(2)
    ensures LexLess(Columns(x, w, y, z, s1, s2, s3), Columns(x', w, y', z', s1, s2, s3))
            <==> x < x' || (x == x' && (y < y' || (y == y' && z < z')))
    ensures Columns(x, w, y, z, s1, s2, s3) == Columns(x', w, y', z', s1, s2, s3) <==> x == x' && y == y' && z == z'
  {
    var a, a' := "" + Pad(x, w) + s1, "" + Pad(x', w) + s1;
    ColumnOrder("", "", x, x', w, s1);
    assert a == Pad(x, w) + s1 && a' == Pad(x', w) + s1;
    var b, b' := a + Pad(y, 2) + s2, a' + Pad(y', 2) + s2;
    ColumnOrder(a, a', y, y', 2, s2);
    ColumnOrder(b, b', z, z', 2, s3);
  }

  /** Seconds compare as the fields of their civil times, from the year down. */
  lemma SecondsOrder(a: Civil, b: Civil)
    requires ValidCivil(a) && ValidCivil(b)
    ensures SecondsOf(a) < SecondsOf(b) <==>
              DateBefore(a.y, a.m, a.d, b.y, b.m, b.d)
              || (a.y == b.y && a.m == b.m && a.d == b.d
                  && (a.h < b.h || (a.h == b.h && (a.mi < b.mi || (a.mi == b.mi && a.s < b.s)))))
  {
    if DateBefore(a.y, a.m, a.d, b.y, b.m, b.d) {
      DaysAreMonotone(a.y, a.m, a.d, b.y, b.m, b.d);
    } else if DateBefore(b.y, b.m, b.d, a.y, a.m, a.d) {
      DaysAreMonotone(b.y, b.m, b.d, a.y, a.m, a.d);
    }
  }

  lemma FormatByColumns(secs: int)
    requires FourDigitYear(secs)
    ensures var c := CivilFromEpoch(secs);
            0 <= c.y && 0 <= c.m && 0 <= c.d && 0 <= c.h && 0 <= c.mi && 0 <= c.s
            && FormatRfc3339(secs)
               == Columns(c.y, 4, c.m, c.d, "-", "-", "T") + Columns(c.h, 2, c.mi, c.s, ":", ":", "Z")
  {
    ColumnsFit(secs);
  }

  /** Timestamps of four-digit years sort as text exactly as they sort in time. */
  lemma Rfc3339Order(s: int, t: int)
    requires FourDigitYear(s) && FourDigitYear(t)
    ensures LexLess(FormatRfc3339(s), FormatRfc3339(t)) <==> s < t
  {
    var a, b := CivilFromEpoch(s), CivilFromEpoch(t);
    ColumnsFit(s);
    ColumnsFit(t);
    FormatByColumns(s);
    FormatByColumns(t);
    ColumnsOrder(a.y, b.y, 4, a.m, b.m, a.d, b.d, "-", "-", "T");
    ColumnsOrder(a.h, b.h, 2, a.mi, b.mi, a.s, b.s, ":", ":", "Z");
    LexLessConcat(Columns(a.y, 4, a.m, a.d, "-", "-", "T"), Columns(b.y, 4, b.m, b.d, "-", "-", "T"),
                  Columns(a.h, 2, a.mi, a.s, ":", ":", "Z"), Columns(b.h, 2, b.mi, b.s, ":", ":", "Z"));
    CivilFromEpochIsRight(s);
    CivilFromEpochIsRight(t);
    SecondsOrder(a, b);
  }

  lemma ColumnsShape(x: nat, w: nat, y: nat, z: nat, s1: string, s2: string, s3: string)
    requires x < Pow10(w) && y < Pow10(2) && z < Pow10(2) && |s1| == |s2| == |s3| == 1
    ensures var t := Columns(x, w, y, z, s1, s2, s3);
            && |t| == w + 7 && t[w] == s1[0] && t[w + 3] == s2[0] && t[w + 6] == s3[0]
            && AllDigits(t[..w]) && DecValue(t[..w]) == x
            && AllDigits(t[w + 1..w + 3]) && DecValue(t[w + 1..w + 3]) == y
            && AllDigits(t[w + 4..w + 6]) && DecValue(t[w + 4..w + 6]) == z
  {
    PadValue(x, w);
    PadValue(y, 2);
    PadValue(z, 2);
    hide Pad, DecValue, Pow10;
    ThreeColumns(Pad(x, w), s1, Pad(y, 2), s2, Pad(z, 2), s3);
  }

  lemma ThreeColumns(x: string, s1: string, y: string, s2: string, z: string, s3: string)
    requires |s1| == |s2| == |s3| == 1 && |y| == |z| == 2
    ensures var w, t := |x|, x + s1 + y + s2 + z + s3;
            && |t| == w + 7 && t[w] == s1[0] && t[w + 3] == s2[0] && t[w + 6] == s3[0]
            && t[..w] == x && t[w + 1..w + 3] == y && t[w + 4..w + 6] == z
  {}

  /** The printed time has the shape of section 5.6 of RFC 3339: date and time of day in fixed columns, with these between the
      digits. */
  lemma Rfc3339Shape(secs: int)
    requires FourDigitYear(secs)
    ensures var t, c := FormatRfc3339(secs), CivilFromEpoch(secs);
            && |t| == 20 && t[4] == '-' && t[7] == '-' && t[10] == 'T' && t[13] == ':' && t[16] == ':' && t[19] == 'Z'
            && AllDigits(t[..4]) && DecValue(t[..4]) == c.y && AllDigits(t[5..7]) && DecValue(t[5..7]) == c.m
            && AllDigits(t[8..10]) && DecValue(t[8..10]) == c.d && AllDigits(t[11..13]) && DecValue(t[11..13]) == c.h
            && AllDigits(t[14..16]) && DecValue(t[14..16]) == c.mi && AllDigits(t[17..19]) && DecValue(t[17..19]) == c.s
  {
    ColumnsFit(secs);
    FormatByColumns(secs);
    var c := CivilFromEpoch(secs);
    hide FormatRfc3339, CivilFromEpoch, Pad, DecValue, Pow10, Columns, ZeroPadded;
    var a, b := Columns(c.y, 4, c.m, c.d, "-", "-", "T"), Columns(c.h, 2, c.mi, c.s, ":", ":", "Z");
    ColumnsShape(c.y, 4, c.m, c.d, "-", "-", "T");
    ColumnsShape(c.h, 2, c.mi, c.s, ":", ":", "Z");
    HalvesShape(a, b);
  }

  lemma HalvesShape(a: string, b: string)
    requires |a| == 11 && |b| == 9
    ensures var t := a + b;
            && |t| == 20 && t[..4] == a[..4] && t[5..7] == a[5..7] && t[8..10] == a[8..10]
            && t[11..13] == b[..2] && t[14..16] == b[3..5] && t[17..19] == b[6..8]
            && t[4] == a[4] && t[7] == a[7] && t[10] == a[10] && t[13] == b[2] && t[16] == b[5] && t[19] == b[8]
  {}
}
