/** Civil time: the two halves of Howard Hinnant's calendar algorithm, and the two texts printed from it.
    `Civil` is the printing direction (vault-core), `DaysFromCivil` the parsing one (vault-crypto). */
module Calendar {

  datatype Civil = Civil(y: int, m: int, d: int, h: int, mi: int, s: int)

  const SECS_PER_DAY := 86400

  // ---------- the calendar itself (Appendix C of RFC 3339) ----------

  predicate IsLeap(y: int) {
    y % 4 == 0 && (y % 100 != 0 || y % 400 == 0)
  }

  function DaysInMonth(y: int, m: int): int {
    if m == 2 then (if IsLeap(y) then 29 else 28)
    else if m == 4 || m == 6 || m == 9 || m == 11 then 30
    else 31
  }

  predicate ValidDate(y: int, m: int, d: int) {
    1 <= m <= 12 && 1 <= d <= DaysInMonth(y, m)
  }

  predicate ValidCivil(c: Civil) {
    ValidDate(c.y, c.m, c.d) && 0 <= c.h < 24 && 0 <= c.mi < 60 && 0 <= c.s < 60
  }

  /** The day after a valid date, by the calendar alone. */
  function NextDate(y: int, m: int, d: int): (int, int, int) {
    if d < DaysInMonth(y, m) then (y, m, d + 1)
    else if m < 12 then (y, m + 1, 1)
    else (y + 1, 1, 1)
  }

  predicate DateBefore(y: int, m: int, d: int, y': int, m': int, d': int) {
    y < y' || (y == y' && (m < m' || (m == m' && d < d')))
  }

  // ---------- the two algorithms ----------

  function DaysFromCivil(y0: int, m: int, d: int): int {
    var y := if m <= 2 then y0 - 1 else y0;
    var era := y / 400;
    var yoe := y - era * 400;
    var mp := (m + 9) % 12;
    var doy := (153 * mp + 2) / 5 + d - 1;
    var doe := yoe * 365 + yoe / 4 - yoe / 100 + doy;
    era * 146097 + doe - 719468
  }

  function CivilFromEpoch(secs: int): Civil {
    var (y, m, d) := CivilFromDays(secs / SECS_PER_DAY);
    var rem := secs % SECS_PER_DAY;
    Civil(y, m, d, rem / 3600, (rem % 3600) / 60, rem % 60)
  }

  /** The month and day that `CivilFromDays` reads from a day of a March year. */
  function MarchDate(doy: int): (int, int) {
    var mp := (5 * doy + 2) / 153;
    (if mp < 10 then mp + 3 else mp - 9, doy - (153 * mp + 2) / 5 + 1)
  }

  /** The date half of `CivilFromEpoch`. */
  function CivilFromDays(days: int): (int, int, int) {
    var z := days + 719468;
    var era := z / 146097;
    var doe := z % 146097;
    var yoe := YearOfEra(doe);
    var y := yoe + era * 400;
    var (m, d) := MarchDate(doe - EraYearStart(yoe));
    (if m <= 2 then y + 1 else y, m, d)
  }

  function YearOfEra(doe: int): int {
    (doe - doe / 1460 + doe / 36524 - doe / 146096) / 365
  }

  /** Seconds since the epoch of a civil time. */
  function SecondsOf(c: Civil): int {
    DaysFromCivil(c.y, c.m, c.d) * SECS_PER_DAY + c.h * 3600 + c.mi * 60 + c.s
  }

  // ---------- day numbers of the calendar ----------

  /** First day of the year `yoe` of a 400-year era whose years begin on March 1. */
  function EraYearStart(yoe: int): int {
    365 * yoe + yoe / 4 - yoe / 100
  }

  /** The three quotients of the year formula, on a day given by century `c`, four-year cycle `q`, year `k` and day of
      year `t`. */
  lemma EraQuotients(c: int, q: int, k: int, t: int)
    requires 0 <= c < 4 && 0 <= q < 25 && 0 <= k < 4 && 0 <= t < 366
    requires t == 365 ==> k == 3 && (q < 24 || c == 3)
    ensures var doe, r := 36524 * c + 1461 * q + 365 * k + t, 24 * c + q + 365 * k + t;
            && doe / 1460 == 25 * c + q + (if r >= 1460 then 1 else 0)
            && doe / 36524 == c + (if doe == 146096 then 1 else 0)
            && doe / 146096 == if doe == 146096 then 1 else 0
  {
    assert 36524 * c + 1461 * q + 365 * k + t == 1460 * (25 * c + q) + (24 * c + q + 365 * k + t);
  }

  lemma YearOfEraAt(c: int, q: int, k: int, t: int)
    requires 0 <= c < 4 && 0 <= q < 25 && 0 <= k < 4 && 0 <= t < 366
    requires t == 365 ==> k == 3 && (q < 24 || c == 3)
    ensures YearOfEra(36524 * c + 1461 * q + 365 * k + t) == 100 * c + 4 * q + k
    ensures EraYearStart(100 * c + 4 * q + k) == 36524 * c + 1461 * q + 365 * k
  {
    EraQuotients(c, q, k, t);
    assert EraYearStart(100 * c + 4 * q + k) == 36524 * c + 1461 * q + 365 * k;
    hide EraYearStart;
    var doe, r := 36524 * c + 1461 * q + 365 * k + t, 24 * c + q + 365 * k + t;
    var a := 25 * c + q + (if r >= 1460 then 1 else 0);
    assert doe - a + c == 365 * (100 * c + 4 * q + k) + t - (if r >= 1460 then 1 else 0);
  }

  /** Every day of an era has such coordinates. */
  lemma EraCoordinates(doe: int) returns (c: int, q: int, k: int, t: int)
    requires 0 <= doe < 146097
    ensures 0 <= c < 4 && 0 <= q < 25 && 0 <= k < 4 && 0 <= t < 366
    ensures t == 365 ==> k == 3 && (q < 24 || c == 3)
    ensures doe == 36524 * c + 1461 * q + 365 * k + t
  {
    c := if doe >= 109572 then 3 else if doe >= 73048 then 2 else if doe >= 36524 then 1 else 0;
    var r := doe - 36524 * c;
    q := r / 1461;
    t := r - 1461 * q;
    k := if t >= 1095 then 3 else if t >= 730 then 2 else if t >= 365 then 1 else 0;
    t := t - 365 * k;
  }

  /** Only the year that ends in a leap February has a day 365. */
  lemma CycleEndIsLeap(c: int, q: int)
    requires 0 <= c < 4 && 0 <= q < 25
    requires q < 24 || c == 3
    ensures IsLeap(100 * c + 4 * q + 4)
  {
    var y := 100 * c + 4 * q + 4;
    assert y == 4 * (25 * c + q + 1);
    if q < 24 {
      assert y == 100 * c + (4 * q + 4);
    } else {
      assert y == 400;
    }
  }

  /** The year found contains the day, and has a day 365 only if its February is leap. */
  lemma YearOfEraBounds(doe: int)
    requires 0 <= doe < 146097
    ensures var yoe := YearOfEra(doe);
            0 <= yoe < 400 && EraYearStart(yoe) <= doe <= EraYearStart(yoe) + 365
    ensures var yoe := YearOfEra(doe);
            doe == EraYearStart(yoe) + 365 ==> IsLeap(yoe + 1)
  {
    var c, q, k, t := EraCoordinates(doe);
    YearOfEraAt(c, q, k, t);
    if t == 365 { CycleEndIsLeap(c, q); }
  }

  /** Month and day found from the day of a year that begins on March 1. */
  lemma MonthOfYear(doy: int)
    requires 0 <= doy < 366
    ensures var mp := (5 * doy + 2) / 153;
            var d := doy - (153 * mp + 2) / 5 + 1;
            var m := if mp < 10 then mp + 3 else mp - 9;
            0 <= mp < 12 && 1 <= m <= 12 && mp == (m + 9) % 12 && 1 <= d <= 31
            && (m == 4 || m == 6 || m == 9 || m == 11 ==> d <= 30)
            && (m == 2 ==> d == doy - 336)
  {
    var mp := (5 * doy + 2) / 153;
    var w := (153 * mp + 2) / 5;
    assert 153 * mp <= 5 * doy + 2 < 153 * mp + 153;
    assert 5 * w <= 153 * mp + 2 < 5 * w + 5;
  }

  // ---------- the algorithms are inverse to each other ----------

  /** The parsing formula on a date given by its era, year and day of year counted from March 1. */
  lemma DaysOfMarchDate(era: int, yoe: int, doy: int)
    requires 0 <= yoe < 400 && 0 <= doy < 366
    ensures var (m, d) := MarchDate(doy);
            var y := yoe + era * 400;
            DaysFromCivil(if m <= 2 then y + 1 else y, m, d) == era * 146097 + EraYearStart(yoe) + doy - 719468
  {
    MonthOfYear(doy);
    EraSplit(era, yoe);
  }

  /** A day of year within a March year is a valid date of the calendar. */
  lemma MarchDateIsValid(era: int, yoe: int, doy: int)
    requires 0 <= yoe < 400 && 0 <= doy < 366
    requires doy == 365 ==> IsLeap(yoe + 1)
    ensures var (m, d) := MarchDate(doy);
            var y := yoe + era * 400;
            ValidDate(if m <= 2 then y + 1 else y, m, d)
  {
    MonthOfYear(doy);
    if doy == 365 { LeapShift(yoe + 1, era); }
  }

  lemma EraDay(z: int)
    ensures 0 <= z % 146097 < 146097 && z == z / 146097 * 146097 + z % 146097
  {}

  /** The printing direction yields a valid date, and the parsing direction maps it back to the day. */
  lemma CivilFromDaysIsRight(days: int)
    ensures var (y, m, d) := CivilFromDays(days); ValidDate(y, m, d) && DaysFromCivil(y, m, d) == days
  {
    var z := days + 719468;
    var era, doe := z / 146097, z % 146097;
    EraDay(z);
    YearOfEraBounds(doe);
    var yoe := YearOfEra(doe);
    var doy := doe - EraYearStart(yoe);
    var (m, d) := MarchDate(doy);
    var y := yoe + era * 400;
    assert CivilFromDays(days) == (if m <= 2 then y + 1 else y, m, d);
    DaysOfMarchDate(era, yoe, doy);
    MarchDateIsValid(era, yoe, doy);
  }

  /** Every second has a valid civil time, whose day number and time of day recompose it. */
  lemma CivilFromEpochIsRight(secs: int)
    ensures ValidCivil(CivilFromEpoch(secs))
    ensures var c := CivilFromEpoch(secs); DaysFromCivil(c.y, c.m, c.d) == secs / SECS_PER_DAY
    ensures SecondsOf(CivilFromEpoch(secs)) == secs
  {
    CivilFromDaysIsRight(secs / SECS_PER_DAY);
    TimeOfDay(secs % SECS_PER_DAY);
  }

  lemma EraSplit(era: int, yoe: int)
    requires 0 <= yoe < 400
    ensures (yoe + era * 400) / 400 == era
  {}

  lemma LeapByRemainder(y: int)
    ensures IsLeap(y) <==> IsLeap(y % 400)
  {
    var q, r := y / 400, y % 400;
    assert y % 4 == r % 4 by { assert y == 4 * (100 * q) + r; }
    assert y % 100 == r % 100 by { assert y == 100 * (4 * q) + r; }
  }

  lemma LeapShift(y: int, era: int)
    ensures IsLeap(y) <==> IsLeap(y + era * 400)
  {
    hide IsLeap;
    LeapByRemainder(y);
    LeapByRemainder(y + era * 400);
    assert (y + era * 400) % 400 == y % 400;
  }

  lemma TimeOfDay(rem: int)
    requires 0 <= rem < SECS_PER_DAY
    ensures 0 <= rem / 3600 < 24 && 0 <= (rem % 3600) / 60 < 60 && 0 <= rem % 60 < 60
    ensures rem / 3600 * 3600 + (rem % 3600) / 60 * 60 + rem % 60 == rem
  {
    var h := rem / 3600;
    var r := rem % 3600;
    assert rem == 60 * (60 * h) + r;
    assert rem % 60 == r % 60;
  }

  /** Day number of March 1 of a year. */
  function YearStart(y: int): int {
    365 * y + y / 4 - y / 100 + y / 400 - 719468
  }

  /** The year, counted from March 1, of a date. */
  function MarchYear(y: int, m: int): int {
    if m <= 2 then y - 1 else y
  }

  /** Day of the year that begins on March 1. */
  function DayOfYear(m: int, d: int): int {
    (153 * ((m + 9) % 12) + 2) / 5 + d - 1
  }

  lemma YearStartOfEra(y: int)
    ensures y / 400 * 146097 + EraYearStart(y - y / 400 * 400) - 719468 == YearStart(y)
  {
    var era := y / 400;
    var yoe := y - era * 400;
    assert y == 4 * (100 * era) + yoe == 100 * (4 * era) + yoe;
    assert y / 4 == 100 * era + yoe / 4;
    assert y / 100 == 4 * era + yoe / 100;
  }

  /** The parsing formula, without eras. */
  lemma DaysByYear(y: int, m: int, d: int)
    ensures DaysFromCivil(y, m, d) == YearStart(MarchYear(y, m)) + DayOfYear(m, d)
  {
    YearStartOfEra(MarchYear(y, m));
  }

  lemma YearLength(y: int)
    ensures YearStart(y + 1) == YearStart(y) + 365 + (if IsLeap(y + 1) then 1 else 0)
  {
    assert (y + 1) / 4 == y / 4 + (if (y + 1) % 4 == 0 then 1 else 0);
    assert (y + 1) / 100 == y / 100 + (if (y + 1) % 100 == 0 then 1 else 0);
    assert (y + 1) / 400 == y / 400 + (if (y + 1) % 400 == 0 then 1 else 0);
  }

  /** The parsing direction counts days as the calendar does: the epoch is day 0 and the next date is the next day. */
  lemma NextDateIsNextDay(y: int, m: int, d: int)
    requires ValidDate(y, m, d)
    ensures DaysFromCivil(1970, 1, 1) == 0
    ensures var (y', m', d') := NextDate(y, m, d);
            ValidDate(y', m', d') && DaysFromCivil(y', m', d') == DaysFromCivil(y, m, d) + 1
  {
    hide DaysFromCivil, DaysInMonth, NextDate, ValidDate, DayOfYear, MarchYear, YearStart;
    var (y', m', d') := NextDate(y, m, d);
    NextDateIsValid(y, m, d);
    EpochIsDayZero();
    DaysByYear(y, m, d);
    DaysByYear(y', m', d');
    if m == 2 && d == DaysInMonth(y, m) {
      NextIsMarchFirst(y);
    } else {
      LastDay(y, m, d);
      NextDayOfYear(y, m, d);
    }
  }

  lemma EpochIsDayZero()
    ensures DaysFromCivil(1970, 1, 1) == 0
  {}

  lemma LastDay(y: int, m: int, d: int)
    requires ValidDate(y, m, d)
    ensures d <= DaysInMonth(y, m)
  {}

  lemma NextIsMarchFirst(y: int)
    ensures NextDate(y, 2, DaysInMonth(y, 2)) == (y, 3, 1) && MarchYear(y, 3) == y && MarchYear(y, 2) == y - 1
    ensures YearStart(y) + DayOfYear(3, 1) == YearStart(y - 1) + DayOfYear(2, DaysInMonth(y, 2)) + 1
  {
    YearLength(y - 1);
    hide YearStart, IsLeap;
  }

  lemma NextDateIsValid(y: int, m: int, d: int)
    requires ValidDate(y, m, d)
    ensures var (y', m', d') := NextDate(y, m, d); ValidDate(y', m', d')
  {
    hide IsLeap;
  }

  lemma NextDayOfYear(y: int, m: int, d: int)
    requires ValidDate(y, m, d)
    requires m == 2 ==> d < DaysInMonth(y, m)
    ensures var (y', m', d') := NextDate(y, m, d);
            MarchYear(y', m') == MarchYear(y, m) && DayOfYear(m', d') == DayOfYear(m, d) + 1
  {}

  /** Later March years start later, by at least the days of the years between. */
  lemma YearStartIsMonotone(y: int, y': int)
    requires y < y'
    ensures YearStart(y + 1) <= YearStart(y')
    decreases y' - y
  {
    if y + 1 < y' {
      YearStartIsMonotone(y, y' - 1);
      YearLength(y' - 1);
    }
  }

  /** A valid date lies within its March year. */
  lemma DayOfYearBounds(y: int, m: int, d: int)
    requires ValidDate(y, m, d)
    ensures var p := MarchYear(y, m);
            0 <= DayOfYear(m, d) && YearStart(p) + DayOfYear(m, d) < YearStart(p + 1)
  {
    YearLength(MarchYear(y, m));
  }

  /** Day numbers follow the order of dates. */
  lemma DaysAreMonotone(y: int, m: int, d: int, y': int, m': int, d': int)
    requires ValidDate(y, m, d) && ValidDate(y', m', d')
    requires DateBefore(y, m, d, y', m', d')
    ensures DaysFromCivil(y, m, d) < DaysFromCivil(y', m', d')
  {
    DaysByYear(y, m, d);
    DaysByYear(y', m', d');
    if MarchYear(y, m) < MarchYear(y', m') {
      MarchYearsAreMonotone(y, m, d, y', m', d');
    } else {
      MarchOrder(y, m, d, y', m', d');
      MonthsAreMonotone(m, d, m', d');
    }
  }

  lemma MarchYearsAreMonotone(y: int, m: int, d: int, y': int, m': int, d': int)
    requires ValidDate(y, m, d) && ValidDate(y', m', d')
    requires MarchYear(y, m) < MarchYear(y', m')
    ensures YearStart(MarchYear(y, m)) + DayOfYear(m, d) < YearStart(MarchYear(y', m')) + DayOfYear(m', d')
  {
    DayOfYearBounds(y, m, d);
    DayOfYearBounds(y', m', d');
    YearStartIsMonotone(MarchYear(y, m), MarchYear(y', m'));
  }

  lemma MarchOrder(y: int, m: int, d: int, y': int, m': int, d': int)
    requires ValidDate(y, m, d) && ValidDate(y', m', d')
    requires DateBefore(y, m, d, y', m', d')
    requires MarchYear(y, m) >= MarchYear(y', m')
    ensures MarchYear(y, m) == MarchYear(y', m')
    ensures m == m' ==> d < d'
    ensures m != m' ==> (m + 9) % 12 < (m' + 9) % 12 && d <= DaysInMonth(4, m)
  {}

  lemma MonthsAreMonotone(m: int, d: int, m': int, d': int)
    requires 1 <= m <= 12 && 1 <= m' <= 12 && 1 <= d && 1 <= d'
    requires m == m' ==> d < d'
    requires m != m' ==> (m + 9) % 12 < (m' + 9) % 12 && d <= DaysInMonth(4, m)
    ensures DayOfYear(m, d) < DayOfYear(m', d')
  {}

  /** Every valid civil time comes back unchanged from its second. */
  lemma CivilRoundTrip(c: Civil)
    requires ValidCivil(c)
    ensures CivilFromEpoch(SecondsOf(c)) == c
  {
    var secs := SecondsOf(c);
    var days := DaysFromCivil(c.y, c.m, c.d);
    var rem := c.h * 3600 + c.mi * 60 + c.s;
    assert secs / SECS_PER_DAY == days && secs % SECS_PER_DAY == rem;
    CivilFromEpochIsRight(secs);
    var b := CivilFromEpoch(secs);
    if DateBefore(b.y, b.m, b.d, c.y, c.m, c.d) {
      DaysAreMonotone(b.y, b.m, b.d, c.y, c.m, c.d);
    } else if DateBefore(c.y, c.m, c.d, b.y, b.m, b.d) {
      DaysAreMonotone(c.y, c.m, c.d, b.y, b.m, b.d);
    }
  }
}
