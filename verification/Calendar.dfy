/** Civil dates and day numbers, checked against the Gregorian calendar's own
    rules: which dates exist and which date follows which. */
module Calendar {
  import opened Wrappers

  datatype Date = Date(year: int, month: int, day: int)

  // ---- the Gregorian calendar ----------------------------------------------------

  predicate IsLeap(year: int) {
    year % 4 == 0 && (year % 100 != 0 || year % 400 == 0)
  }

  function DaysInMonth(year: int, month: int): int {
    if month == 2 then (if IsLeap(year) then 29 else 28)
    else if month in {4, 6, 9, 11} then 30
    else 31
  }

  predicate ValidDate(d: Date) {
    1 <= d.month <= 12 && 1 <= d.day <= DaysInMonth(d.year, d.month)
  }

  /** The following day. */
  function NextDay(d: Date): Date
    requires ValidDate(d)
  {
    if d.day < DaysInMonth(d.year, d.month) then d.(day := d.day + 1)
    else if d.month < 12 then Date(d.year, d.month + 1, 1)
    else Date(d.year + 1, 1, 1)
  }

  // ---- the program's arithmetic --------------------------------------------------

  const DAYS_PER_ERA := 146_097
  const EPOCH_SHIFT := 719_468

  /** Days from 1 March of the counting year to the first of its `m`th month. */
  function MonthStart(m: int): int {
    (153 * m + 2) / 5
  }

  /** Days from the start of the era to 1 March of its year `yoe`. */
  function YearStart(yoe: int): int {
    yoe * 365 + yoe / 4 - yoe / 100
  }

  /** The signed day number; it looks at the month but never at its length. */
  function CivilDays(d: Date): int {
    var y := if d.month <= 2 then d.year - 1 else d.year;
    var m := if d.month <= 2 then d.month + 9 else d.month - 3;
    var era := y / 400;
    var doe := YearStart(y - era * 400) + MonthStart(m) + d.day - 1;
    era * DAYS_PER_ERA + doe - EPOCH_SHIFT
  }

  /** The day number as the unsigned 64-bit word it is returned in. */
  function YmdToEpochDays(d: Date): Option<u64> {
    if !(1 <= d.month <= 12) || d.day <= 0 then None
    else Some(CivilDays(d) % (U64_MAX + 1))
  }

  function YearOfEra(doe: int): int {
    (doe - doe / 1_460 + doe / 36_524 - doe / 146_096) / 365
  }

  function DaysToYmd(days: int): Date {
    var z := days + EPOCH_SHIFT;
    var era := z / DAYS_PER_ERA;
    var doe := z - era * DAYS_PER_ERA;
    var yoe := YearOfEra(doe);
    var doy := doe - YearStart(yoe);
    var mp := (5 * doy + 2) / 153;
    var m := if mp < 10 then mp + 3 else mp - 9;
    var y := yoe + era * 400;
    Date(if m <= 2 then y + 1 else y, m, doy - MonthStart(mp) + 1)
  }

  // ---- years within an era -------------------------------------------------------

  /** The counting year `yoe`, which starts in March, ends with a 29 February. */
  predicate LongYear(yoe: int) {
    yoe % 4 == 3 && (yoe % 100 != 99 || yoe == 399)
  }

  predicate InYear(yoe: int, doy: int) {
    0 <= yoe < 400 && 0 <= doy < (if LongYear(yoe) then 366 else 365)
  }

  /** The year is recovered from the day of the era. */
  lemma YearOfEraInverts(yoe: int, doy: int)
    requires InYear(yoe, doy)
    ensures 0 <= YearStart(yoe) + doy < DAYS_PER_ERA
    ensures YearOfEra(YearStart(yoe) + doy) == yoe
  {
    var c, q, s := yoe / 100, yoe % 100 / 4, yoe % 4;
    var doe := YearStart(yoe) + doy;
    assert yoe == 100 * c + 4 * q + s && 0 <= c < 4 && 0 <= q < 25 && 0 <= s < 4;
    assert doe == 36_524 * c + 1_461 * q + 365 * s + doy;
    var t := if 24 * c + q + 365 * s + doy >= 1_460 then 1 else 0;
    assert doe / 1_460 == 25 * c + q + t;
    var e := if doe == 146_096 then 1 else 0;
    assert doe / 36_524 == c + e;
    assert doe / 146_096 == e;
    assert doe - doe / 1_460 + doe / 36_524 - doe / 146_096 == 365 * yoe + (doy - t);
  }

  /** Every day of the era lies in one of its years. */
  lemma DayOfEraSplits(doe: int) returns (yoe: int, doy: int)
    requires 0 <= doe < DAYS_PER_ERA
    ensures InYear(yoe, doy) && doe == YearStart(yoe) + doy
  {
    var c := if doe / 36_524 < 3 then doe / 36_524 else 3;
    var inCentury := doe - 36_524 * c;
    var q := if inCentury / 1_461 < 24 then inCentury / 1_461 else 24;
    var inQuad := inCentury - 1_461 * q;
    var s := if inQuad / 365 < 3 then inQuad / 365 else 3;
    yoe, doy := 100 * c + 4 * q + s, inQuad - 365 * s;
    assert yoe / 100 == c && yoe / 4 == 25 * c + q && yoe % 4 == s && yoe % 100 == 4 * q + s;
  }

  /** Month and day within a counting year, in both directions. */
  lemma MonthInverts(m: int, day: int, length: int)
    requires 0 <= m < 12 && 1 <= day <= length
    requires m < 11 ==> length == MonthStart(m + 1) - MonthStart(m)
    requires m == 11 ==> length <= 29
    ensures (5 * (MonthStart(m) + day - 1) + 2) / 153 == m
  {
  }

  lemma MonthLengths(year: int, m: int)
    requires 0 <= m < 11
    ensures MonthStart(m + 1) - MonthStart(m) == DaysInMonth(year, if m < 10 then m + 3 else m - 9)
  {
    assert m in {0, 1, 2, 3, 4, 5, 6, 7, 8, 9, 10};
  }

  lemma LeapYears(year: int)
    ensures LongYear((year - 1) % 400) <==> IsLeap(year)
  {
    var r := (year - 1) % 400;
    EraModulus(year, 4);
    EraModulus(year, 100);
    EraModulus(year, 400);
    LongIsLeap(r);
  }

  lemma LongIsLeap(r: int)
    requires 0 <= r < 400
    ensures LongYear(r) <==> (r + 1) % 4 == 0 && ((r + 1) % 100 != 0 || (r + 1) % 400 == 0)
  {
  }

  lemma EraModulus(year: int, k: int)
    requires k in {4, 100, 400}
    ensures year % k == ((year - 1) % 400 + 1) % k
  {
    var e, r := (year - 1) / 400, (year - 1) % 400;
    assert year == 400 * e + (r + 1);
    if k == 4 {
      ModFour(100 * e, r + 1);
    } else if k == 100 {
      ModHundred(4 * e, r + 1);
    } else if r < 399 {
      assert (400 * e + (r + 1)) / 400 == e;
    } else {
      assert (400 * e + (r + 1)) / 400 == e + 1;
    }
  }

  lemma ModFour(q: int, x: int)
    ensures (4 * q + x) % 4 == x % 4
  {
    assert 4 * q + x == 4 * (q + x / 4) + x % 4;
  }

  lemma ModHundred(q: int, x: int)
    ensures (100 * q + x) % 100 == x % 100
  {
    assert 100 * q + x == 100 * (q + x / 100) + x % 100;
  }

  /** Where a valid date sits in its counting year. */
  lemma InsideYear(d: Date) returns (era: int, yoe: int, m: int)
    requires ValidDate(d)
    ensures m == (if d.month <= 2 then d.month + 9 else d.month - 3)
    ensures era * 400 + yoe == (if d.month <= 2 then d.year - 1 else d.year)
    ensures InYear(yoe, MonthStart(m) + d.day - 1)
    ensures CivilDays(d) + EPOCH_SHIFT == era * DAYS_PER_ERA + (YearStart(yoe) + MonthStart(m) + d.day - 1)
    ensures (5 * (MonthStart(m) + d.day - 1) + 2) / 153 == m
  {
    m := if d.month <= 2 then d.month + 9 else d.month - 3;
    var y := if d.month <= 2 then d.year - 1 else d.year;
    era, yoe := y / 400, y % 400;
    if m < 11 {
      MonthLengths(d.year, m);
      assert MonthStart(m + 1) <= 337;
    } else {
      LeapYears(d.year);
    }
    MonthInverts(m, d.day, DaysInMonth(d.year, d.month));
  }

  lemma EraUnique(era: int, doe: int)
    requires 0 <= doe < DAYS_PER_ERA
    ensures (era * DAYS_PER_ERA + doe) / DAYS_PER_ERA == era
  {
  }

  // ---- the two functions are inverse ---------------------------------------------

  /** Reading back the number of a valid date gives the date: every year, also before 1970. */
  lemma DateRoundTrip(d: Date)
    requires ValidDate(d)
    ensures DaysToYmd(CivilDays(d)) == d
  {
    hide IsLeap, DaysInMonth;
    var era, yoe, m := InsideYear(d);
    var doy := MonthStart(m) + d.day - 1;
    YearOfEraInverts(yoe, doy);
    EraUnique(era, YearStart(yoe) + doy);
  }

  /** Every day number is read as a valid date, the one with that number. */
  lemma DayRoundTrip(days: int)
    ensures ValidDate(DaysToYmd(days)) && CivilDays(DaysToYmd(days)) == days
  {
    var z := days + EPOCH_SHIFT;
    var era := z / DAYS_PER_ERA;
    var doe := z - era * DAYS_PER_ERA;
    var yoe, doy := DayOfEraSplits(doe);
    YearOfEraInverts(yoe, doy);
    var d := DateInYear(era, yoe, doy);
    DateRoundTrip(d);
  }

  lemma DateInYear(era: int, yoe: int, doy: int) returns (d: Date)
    requires InYear(yoe, doy)
    ensures ValidDate(d)
    ensures CivilDays(d) == era * DAYS_PER_ERA + YearStart(yoe) + doy - EPOCH_SHIFT
  {
    var mp := (5 * doy + 2) / 153;
    var m := if mp < 10 then mp + 3 else mp - 9;
    var y := if m <= 2 then era * 400 + yoe + 1 else era * 400 + yoe;
    d := Date(y, m, doy - MonthStart(mp) + 1);
    assert 0 <= mp < 12;
    if mp < 11 {
      MonthLengths(y, mp);
    } else {
      LeapYears(y);
    }
    assert (era * 400 + yoe) / 400 == era;
  }

  /** A day number is read back as the date it was computed from exactly when
      that date exists: the day is never checked against the month. */
  lemma RoundTripExact(d: Date)
    requires YmdToEpochDays(d).Some?
    ensures DaysToYmd(CivilDays(d)) == d <==> ValidDate(d)
  {
    if ValidDate(d) {
      DateRoundTrip(d);
    } else {
      DayRoundTrip(CivilDays(d));
    }
  }

  /** A day past the end of its month is silently the matching day of a later month. */
  lemma OverlongDayRollsOver(d: Date, extra: nat)
    ensures CivilDays(d.(day := d.day + extra)) == CivilDays(d) + extra
  {
    hide YearStart, MonthStart;
  }

  lemma ThirtiethOfFebruary()
    ensures YmdToEpochDays(Date(2026, 2, 30)) == YmdToEpochDays(Date(2026, 3, 2))
  {
    hide CivilDays;
    NextDayIsNextNumber(Date(2026, 2, 28));
    NextDayIsNextNumber(Date(2026, 3, 1));
    OverlongDayRollsOver(Date(2026, 2, 28), 2);
  }

  // ---- succession ----------------------------------------------------------------

  /** The closed form of the counting years, over all eras. */
  lemma YearStarts(y: int)
    ensures y / 400 * DAYS_PER_ERA + YearStart(y - y / 400 * 400) == 365 * y + y / 4 - y / 100 + y / 400
  {
    var e, r := y / 400, y % 400;
    assert y == 400 * e + r;
    assert y / 4 == 100 * e + r / 4;
    assert y / 100 == 4 * e + r / 100;
  }

  lemma YearLengths(y: int)
    ensures (365 * y + y / 4 - y / 100 + y / 400) - (365 * (y - 1) + (y - 1) / 4 - (y - 1) / 100 + (y - 1) / 400)
      == if IsLeap(y) then 366 else 365
  {
    StepQuotient(y, 4);
    StepQuotient(y, 100);
    StepQuotient(y, 400);
    LeapFactors(y);
  }

  lemma LeapFactors(y: int)
    ensures y % 400 == 0 ==> y % 100 == 0
    ensures y % 100 == 0 ==> y % 4 == 0
  {
  }

  lemma StepQuotient(y: int, k: int)
    requires k in {4, 100, 400}
    ensures y / k - (y - 1) / k == if y % k == 0 then 1 else 0
  {
  }

  /** The day number by the closed form. */
  lemma CivilClosedForm(d: Date) returns (y: int, start: int)
    requires 1 <= d.month <= 12
    ensures y == (if d.month <= 2 then d.year - 1 else d.year)
    ensures start == MonthStart(if d.month <= 2 then d.month + 9 else d.month - 3)
    ensures (d.month <= 2 ==> 306 <= start <= 337) && (d.month > 2 ==> 0 <= start <= 275)
    ensures CivilDays(d) == 365 * y + y / 4 - y / 100 + y / 400 + start + d.day - 1 - EPOCH_SHIFT
  {
    y := if d.month <= 2 then d.year - 1 else d.year;
    var m := if d.month <= 2 then d.month + 9 else d.month - 3;
    start := MonthStart(m);
    YearStarts(y);
    hide YearStart;
  }

  lemma NextMonth(d: Date)
    requires 1 <= d.month < 12 && d.month != 2
    ensures CivilDays(Date(d.year, d.month + 1, 1)) == CivilDays(Date(d.year, d.month, DaysInMonth(d.year, d.month))) + 1
  {
    MonthLengths(d.year, if d.month <= 2 then d.month + 9 else d.month - 3);
    hide YearStart, MonthStart, DaysInMonth;
  }

  lemma NextMarch(year: int)
    ensures CivilDays(Date(year, 3, 1)) == CivilDays(Date(year, 2, DaysInMonth(year, 2))) + 1
  {
    var y, start := CivilClosedForm(Date(year, 3, 1));
    var y', start' := CivilClosedForm(Date(year, 2, DaysInMonth(year, 2)));
    assert MonthStart(0) == 0 && MonthStart(11) == 337;
    hide CivilDays, MonthStart;
    YearLengths(year);
    hide IsLeap;
  }

  lemma NextYear(year: int)
    ensures CivilDays(Date(year + 1, 1, 1)) == CivilDays(Date(year, 12, 31)) + 1
  {
    assert MonthStart(9) == 275 && MonthStart(10) == 306;
    hide YearStart, MonthStart;
  }

  /** Successive dates have successive numbers. */
  lemma NextDayIsNextNumber(d: Date)
    requires ValidDate(d)
    ensures ValidDate(NextDay(d)) && CivilDays(NextDay(d)) == CivilDays(d) + 1
  {
    hide CivilDays, IsLeap;
    if d.day < DaysInMonth(d.year, d.month) {
      OverlongDayRollsOver(d, 1);
    } else if d.month == 2 {
      NextMarch(d.year);
    } else if d.month < 12 {
      NextMonth(d);
    } else {
      NextYear(d.year);
    }
  }

  /** The day after day `n` is its calendar successor. With day 0 this fixes every date. */
  lemma SuccessorDay(days: int)
    ensures ValidDate(DaysToYmd(days)) && DaysToYmd(days + 1) == NextDay(DaysToYmd(days))
    ensures DaysToYmd(0) == Date(1970, 1, 1)
  {
    EpochDay();
    hide DaysToYmd, CivilDays, NextDay, ValidDate;
    DayRoundTrip(days);
    NextDayIsNextNumber(DaysToYmd(days));
    DateRoundTrip(NextDay(DaysToYmd(days)));
  }

  lemma EpochDay()
    ensures DaysToYmd(0) == Date(1970, 1, 1)
  {
    assert CivilDays(Date(1970, 1, 1)) == 0;
    DateRoundTrip(Date(1970, 1, 1));
  }

  /** Day numbers are not negative exactly from 1970 on. */
  lemma DaysSign(d: Date)
    requires 1 <= d.month <= 12 && d.day >= 1
    ensures d.year >= 1970 ==> CivilDays(d) >= 0
    ensures d.year < 1970 && ValidDate(d) ==> CivilDays(d) < 0
  {
    var y, start := CivilClosedForm(d);
    assert ValidDate(d) ==> d.day <= 31;
    hide CivilDays, ValidDate;
  }

  lemma DaysBounds(d: Date)
    requires 1 <= d.month <= 12 && d.day >= 1
    ensures 366 * (d.year - 2370) <= CivilDays(d) || d.year >= 0
    ensures 0 <= d.year ==> -719_529 <= CivilDays(d)
    ensures d.year <= 9_999 ==> CivilDays(d) < 2_932_900 + d.day
  {
    var y, start := CivilClosedForm(d);
    hide CivilDays;
  }

  /** The stored word is the day number itself exactly from 1970 on; before, it is
      above every day number a clock can reach. */
  lemma EpochDaysExact(d: Date)
    requires ValidDate(d) && -400_000 <= d.year <= 400_000
    ensures YmdToEpochDays(d) == Some(CivilDays(d)) <==> d.year >= 1970
    ensures d.year < 1970 ==> YmdToEpochDays(d).value > U64_MAX - 200_000_000
  {
    DaysSign(d);
    DaysBounds(d);
    hide CivilDays;
  }

  // ---- local dates and clocks ----------------------------------------------------

  const MS_PER_DAY := 86_400_000

  /** Local milliseconds; the signed 64-bit range is part of the callers' side. */
  function LocalMs(unixMs: u64, bias: int): int {
    unixMs - bias * 60_000
  }

  predicate InI64(n: int) {
    -0x8000_0000_0000_0000 <= n <= 0x7FFF_FFFF_FFFF_FFFF
  }

  function LocalYmd(unixMs: u64, bias: int): Date
    requires InI64(unixMs) && InI64(LocalMs(unixMs, bias))
  {
    DaysToYmd(LocalMs(unixMs, bias) / MS_PER_DAY)
  }

  /** Hour and minute. */
  function LocalHms(unixMs: u64, bias: int): (int, int)
    requires InI64(unixMs) && InI64(LocalMs(unixMs, bias))
  {
    var seconds := LocalMs(unixMs, bias) / 1_000 % 86_400;
    (seconds / 3_600, seconds % 3_600 / 60)
  }

  /** The date as one number, in 32 bits. */
  function YmdKey(d: Date): u32 {
    (d.year * 10_000 + d.month * 100 + d.day) % (U32_MAX + 1)
  }

  /** The key does not wrap: years 0 to 429 496. */
  predicate KeyFits(d: Date) {
    0 <= d.year && d.year * 10_000 + d.month * 100 + d.day <= U32_MAX
  }

  /** Exactly which dates those are; the next one already has a smaller key. */
  lemma KeyFitsExact(d: Date)
    requires ValidDate(d)
    ensures KeyFits(d) <==> 0 <= d.year <= 429_496
    ensures YmdKey(Date(429_497, 1, 1)) < YmdKey(Date(429_496, 12, 31))
  {
  }

  /** The year of every local day fits the 32-bit field it is returned in. */
  lemma LocalYearFits(unixMs: u64, bias: int)
    requires InI64(unixMs) && InI64(LocalMs(unixMs, bias))
    ensures -0x8000_0000 <= LocalYmd(unixMs, bias).year <= 0x7FFF_FFFF
  {
    hide DaysToYmd;
    var days := LocalMs(unixMs, bias) / MS_PER_DAY;
    assert -106_751_991_168 <= days <= 106_751_991_167;
    DayRoundTrip(days);
    var d := DaysToYmd(days);
    YearStarts(if d.month <= 2 then d.year - 1 else d.year);
    hide YearStart;
    assert 0 <= MonthStart(if d.month <= 2 then d.month + 9 else d.month - 3) <= 337;
    assert 1 <= d.day <= 31;
  }

  predicate Before(a: Date, b: Date) {
    a.year < b.year || (a.year == b.year && (a.month < b.month || (a.month == b.month && a.day < b.day)))
  }

  lemma {:induction false} LaterDaysAreLater(days: int, more: nat)
    ensures more > 0 ==> Before(DaysToYmd(days), DaysToYmd(days + more))
    decreases more
  {
    hide DaysToYmd;
    if more > 0 {
      LaterDaysAreLater(days, more - 1);
      SuccessorDay(days + more - 1);
    }
  }

  /** Dates that fit the key are ordered by it. */
  lemma KeyOrdersDates(a: Date, b: Date)
    requires ValidDate(a) && ValidDate(b) && KeyFits(a) && KeyFits(b)
    ensures YmdKey(a) < YmdKey(b) <==> Before(a, b)
  {
  }

  /** As the clock advances, the day key never goes back while both keys fit;
      it stands still exactly within one local day. */
  lemma LocalDayKeyMonotone(earlier: u64, later: u64, bias: int)
    requires earlier <= later
    requires InI64(later) && InI64(LocalMs(earlier, bias)) && InI64(LocalMs(later, bias))
    requires KeyFits(LocalYmd(earlier, bias)) && KeyFits(LocalYmd(later, bias))
    ensures YmdKey(LocalYmd(earlier, bias)) <= YmdKey(LocalYmd(later, bias))
    ensures YmdKey(LocalYmd(earlier, bias)) == YmdKey(LocalYmd(later, bias))
      <==> LocalMs(earlier, bias) / MS_PER_DAY == LocalMs(later, bias) / MS_PER_DAY
  {
    hide DaysToYmd;
    var a, b := LocalMs(earlier, bias) / MS_PER_DAY, LocalMs(later, bias) / MS_PER_DAY;
    assert a <= b;
    DayRoundTrip(a);
    DayRoundTrip(b);
    LaterDaysAreLater(a, b - a);
    if a != b {
      KeyOrdersDates(DaysToYmd(a), DaysToYmd(b));
    }
  }
}
