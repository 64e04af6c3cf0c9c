/** What the date-time parser reads: the instants of RFC 3339 texts, and exactly
    when the local clock reads the written fields back. */
module TimestampLaws {
  import opened Wrappers
  import opened Text
  import opened Calendar
  import opened Timestamp

  datatype Zone = Zulu(lower: bool) | Numeric(negative: bool, hours: nat, minutes: nat, colon: bool)

  /** A written date-time. The day is any two digits, as the parser takes it. */
  datatype Stamp = Stamp(date: Date, clock: Clock, fraction: string, zone: Zone)

  predicate Written(t: Stamp) {
    && 0 <= t.date.year <= 9_999 && 1 <= t.date.month <= 12 && 1 <= t.date.day <= 99
    && 0 <= t.clock.hour <= 23 && 0 <= t.clock.minute <= 59 && 0 <= t.clock.second <= 60
    && (forall i :: 0 <= i < |t.fraction| ==> '0' <= t.fraction[i] <= '9')
    && (t.zone.Numeric? ==> t.zone.hours <= 23 && t.zone.minutes <= 59)
  }

  function FormatHead(d: Date, c: Clock): string
    requires d.year >= 0 && d.month >= 0 && d.day >= 0 && c.hour >= 0 && c.minute >= 0 && c.second >= 0
  {
    Fixed(d.year, 4, 10) + "-" + Fixed(d.month, 2, 10) + "-" + Fixed(d.day, 2, 10) + "T" +
    Fixed(c.hour, 2, 10) + ":" + Fixed(c.minute, 2, 10) + ":" + Fixed(c.second, 2, 10)
  }

  function FormatFraction(digits: string): string {
    if digits == [] then [] else "." + digits
  }

  function FormatZone(z: Zone): string {
    match z
    case Zulu(lower) => if lower then "z" else "Z"
    case Numeric(negative, h, m, colon) =>
      (if negative then "-" else "+") + Fixed(h, 2, 10) + (if colon then ":" else "") + Fixed(m, 2, 10)
  }

  function Format(t: Stamp): string
    requires Written(t)
  {
    FormatHead(t.date, t.clock) + (FormatFraction(t.fraction) + FormatZone(t.zone))
  }

  function ZoneMinutes(z: Zone): int {
    match z
    case Zulu(_) => 0
    case Numeric(negative, h, m, _) => if negative then -(h * 60 + m) else h * 60 + m
  }

  /** Milliseconds of the written clock, as if it were UTC. */
  function CivilInstant(t: Stamp): int
    requires Written(t)
  {
    DigitsOnly(t.fraction);
    CivilDays(t.date) * MS_PER_DAY +
    (t.clock.hour * 3_600 + t.clock.minute * 60 + t.clock.second) * 1_000 + Millis(t.fraction)
  }

  function Instant(t: Stamp): int
    requires Written(t)
  {
    CivilInstant(t) - ZoneMinutes(t.zone) * 60_000
  }

  lemma DigitsOnly(s: string)
    requires forall i :: 0 <= i < |s| ==> '0' <= s[i] <= '9'
    ensures AllDigits(s, 10)
  {
  }

  // ---- fields --------------------------------------------------------------------

  lemma ParseFixed(n: nat, width: nat)
    requires (width == 2 && n < 100) || (width == 4 && n < 10_000)
    ensures width == 2 ==> ParseUint(Fixed(n, width, 10), 255) == Some(n)
    ensures ParseInt(Fixed(n, width, 10)) == Some(n)
  {
    assert Power(10, 4) == 10_000 && Power(10, 2) == 100;
    FixedValue(n, width, 10);
    var s := Fixed(n, width, 10);
    assert DigitOf(s[0]).Some?;
  }

  lemma HeadSlices(d: Date, c: Clock, rest: string)
    requires d.year >= 0 && d.month >= 0 && d.day >= 0 && c.hour >= 0 && c.minute >= 0 && c.second >= 0
    requires rest != []
    ensures var v := FormatHead(d, c) + rest;
      && Separated(v) && v[19..] == rest
      && v[0..4] == Fixed(d.year, 4, 10) && v[5..7] == Fixed(d.month, 2, 10) && v[8..10] == Fixed(d.day, 2, 10)
      && v[11..13] == Fixed(c.hour, 2, 10) && v[14..16] == Fixed(c.minute, 2, 10) && v[17..19] == Fixed(c.second, 2, 10)
  {
    hide Fixed;
  }

  lemma ZoneFirst(z: Zone)
    ensures var zone := FormatZone(z); zone != [] && !('0' <= zone[0] <= '9') && zone[0] != '.'
    ensures z.Zulu? || (z.hours <= 23 && z.minutes <= 59) ==> -1_440 < ZoneMinutes(z) < 1_440
  {
    hide Fixed;
  }

  lemma ZoneRead(z: Zone)
    requires z.Numeric? ==> z.hours <= 23 && z.minutes <= 59
    ensures ParseOffset(FormatZone(z)) == Some(ZoneMinutes(z))
  {
    hide Fixed, ParseInt, ParseUint, ParseOffset;
    if z.Zulu? {
      ZuluText(z.lower);
    } else {
      ParseFixed(z.hours, 2);
      ParseFixed(z.minutes, 2);
      ZoneText(z.negative, Fixed(z.hours, 2, 10), Fixed(z.minutes, 2, 10), z.colon);
    }
  }

  lemma ZuluText(lower: bool)
    ensures ParseOffset(if lower then "z" else "Z") == Some(0)
  {
  }

  lemma ZoneText(negative: bool, h: string, m: string, colon: bool)
    requires |h| == |m| == 2
    ensures ParseOffset((if negative then "-" else "+") + h + (if colon then ":" else "") + m) ==
            OffsetMinutes(if negative then -1 else 1, h, m)
  {
    hide OffsetMinutes;
    var sign := if negative then "-" else "+";
    assert |sign| == 1 && sign[0] == (if negative then '-' else '+');
    var rest := if colon then h + ":" + m else h + m;
    assert sign + h + (if colon then ":" else "") + m == sign + rest;
    SignedText(sign, rest);
    if colon {
      ColonText(h, m);
    } else {
      assert (h + m)[0..2] == h && (h + m)[2..4] == m;
    }
  }

  lemma SignedText(sign: string, rest: string)
    requires |sign| == 1 && |rest| >= 4
    ensures (sign + rest)[0] == sign[0] && (sign + rest)[1..] == rest && |sign + rest| > 1
  {
  }

  lemma ColonText(h: string, m: string)
    requires |h| == |m| == 2
    ensures var s := h + ":" + m; |s| == 5 && s[0..2] == h && s[2] == ':' && s[3..5] == m
  {
  }

  lemma {:induction false} DigitRunOf(digits: string, rest: string)
    requires forall i :: 0 <= i < |digits| ==> '0' <= digits[i] <= '9'
    requires rest != [] ==> !('0' <= rest[0] <= '9')
    ensures DigitRun(digits + rest) == |digits|
    decreases |digits|
  {
    if digits == [] {
      assert digits + rest == rest;
    } else {
      assert (digits + rest)[1..] == digits[1..] + rest;
      DigitRunOf(digits[1..], rest);
    }
  }

  lemma FractionRead(digits: string, zone: string)
    requires forall i :: 0 <= i < |digits| ==> '0' <= digits[i] <= '9'
    requires zone != [] && !('0' <= zone[0] <= '9') && zone[0] != '.'
    ensures AllDigits(digits, 10)
    ensures ParseFraction(FormatFraction(digits) + zone) == Some((Millis(digits), zone))
  {
    hide Millis, AllDigits, DigitRun;
    DigitsOnly(digits);
    var s := FormatFraction(digits) + zone;
    if digits == [] {
      NoMillis();
      assert s == zone;
    } else {
      hide FormatFraction;
      PointFirst(digits, zone);
      assert s[0] == '.' && s[1..] == digits + zone;
      DigitRunOf(digits, zone);
      SplitAt(digits, zone);
    }
  }

  lemma PointFirst(digits: string, zone: string)
    requires digits != []
    ensures var s := FormatFraction(digits) + zone; s != [] && s[0] == '.' && s[1..] == digits + zone
  {
  }

  lemma NoMillis()
    ensures Millis([]) == 0
  {
    assert Kept([]) == [] && DigitsValue([], 10) == 0;
  }

  lemma SplitAt(a: string, b: string)
    ensures (a + b)[..|a|] == a && (a + b)[|a|..] == b
  {
  }

  // ---- the whole text ------------------------------------------------------------

  /** Below the year 10 000 nothing saturates; before 1970 everything does. */
  lemma CivilMsIs(days: int, c: Clock, millis: nat)
    requires 0 <= c.hour <= 23 && 0 <= c.minute <= 59 && 0 <= c.second <= 60 && millis < 1_000
    requires -1_000_000 <= days <= 4_000_000
    ensures days >= 0 ==> CivilMs(days % (U64_MAX + 1), c, millis) ==
                          days * MS_PER_DAY + (c.hour * 3_600 + c.minute * 60 + c.second) * 1_000 + millis
    ensures days < 0 ==> CivilMs(days % (U64_MAX + 1), c, millis) == U64_MAX
  {
    if days < 0 {
      assert days % (U64_MAX + 1) == days + U64_MAX + 1;
      assert SatMul(days + U64_MAX + 1, 86_400) == U64_MAX;
    } else {
      assert days % (U64_MAX + 1) == days;
    }
  }

  lemma DaysInRange(d: Date)
    requires 0 <= d.year <= 9_999 && 1 <= d.month <= 12 && 1 <= d.day <= 99
    ensures -1_000_000 <= CivilDays(d) <= 4_000_000
  {
    DaysBounds(d);
  }

  /** Every written date-time is read as its instant, or refused exactly when its
      civil day or its instant is before 1970. */
  lemma ParsesInstant(t: Stamp)
    requires Written(t)
    ensures ParseRfc3339(Format(t)) ==
            if CivilDays(t.date) >= 0 && Instant(t) >= 0 then Some(Instant(t)) else None
  {
    hide FormatFraction, FormatHead, ParseFraction, ParseOffset, ParseDate, ParseClock, ParseRfc3339, CivilDays, Millis,
      Separated, AllDigits, FormatZone, ZoneMinutes;
    var zone := FormatZone(t.zone);
    var rest := FormatFraction(t.fraction) + zone;
    ZoneFirst(t.zone);
    HeadSlices(t.date, t.clock, rest);
    FieldsRead(t.date, t.clock, rest);
    FractionRead(t.fraction, zone);
    ZoneRead(t.zone);
    Assembled(Format(t), t.date, t.clock, Millis(t.fraction), rest, zone, ZoneMinutes(t.zone));
  }

  /** The instant of the parsed parts. */
  lemma Assembled(text: string, d: Date, c: Clock, millis: nat, rest: string, zone: string, offset: int)
    requires Separated(text) && text[19..] == rest
    requires ParseDate(text) == Some(d) && ParseClock(text) == Some(c)
    requires ParseFraction(rest) == Some((millis, zone)) && ParseOffset(zone) == Some(offset)
    requires 0 <= d.year <= 9_999 && 1 <= d.month <= 12 && 1 <= d.day <= 99 && -1_440 < offset < 1_440
    ensures var civil := CivilDays(d) * MS_PER_DAY + (c.hour * 3_600 + c.minute * 60 + c.second) * 1_000 + millis;
      ParseRfc3339(text) ==
      if CivilDays(d) >= 0 && civil - offset * 60_000 >= 0 then Some(civil - offset * 60_000) else None
  {
    hide CivilDays, CivilMs, ParseFraction, ParseOffset, ParseDate;
    DaysInRange(d);
    FractionBelow(rest);
    CivilMsIs(CivilDays(d), c, millis);
  }

  lemma FieldsRead(d: Date, c: Clock, rest: string)
    requires 0 <= d.year <= 9_999 && 0 <= d.month <= 99 && 0 <= d.day <= 99
    requires 0 <= c.hour <= 23 && 0 <= c.minute <= 59 && 0 <= c.second <= 60 && rest != []
    ensures ParseDate(FormatHead(d, c) + rest) == Some(d)
    ensures ParseClock(FormatHead(d, c) + rest) == Some(c)
  {
    hide Fixed, FormatHead, ParseUint, ParseInt;
    HeadSlices(d, c, rest);
    ParseFixed(d.year, 4);
    ParseFixed(d.month, 2);
    ParseFixed(d.day, 2);
    ParseFixed(c.hour, 2);
    ParseFixed(c.minute, 2);
    ParseFixed(c.second, 2);
  }

  /** The local clock at the written offset shows the written date, hour and
      minute exactly when the date exists and the second is not 60. */
  lemma ReadsBack(t: Stamp)
    requires Written(t) && ParseRfc3339(Format(t)).Some?
    ensures var ms := ParseRfc3339(Format(t)).value;
      && InI64(ms) && InI64(LocalMs(ms, -ZoneMinutes(t.zone)))
      && ((LocalYmd(ms, -ZoneMinutes(t.zone)) == t.date
           && LocalHms(ms, -ZoneMinutes(t.zone)) == (t.clock.hour, t.clock.minute))
          <==> ValidDate(t.date) && t.clock.second <= 59)
  {
    hide Format, ParseRfc3339, CivilDays, DaysToYmd, Millis, ValidDate, AllDigits;
    ParsesInstant(t);
    DigitsOnly(t.fraction);
    MillisBelow(t.fraction);
    DaysInRange(t.date);
    var days := CivilDays(t.date);
    var ofDay := (t.clock.hour * 3_600 + t.clock.minute * 60 + t.clock.second) * 1_000 + Millis(t.fraction);
    var ms, bias := ParseRfc3339(Format(t)).value, -ZoneMinutes(t.zone);
    assert LocalMs(ms, bias) == days * MS_PER_DAY + ofDay;
    hide Instant, CivilInstant, ZoneMinutes, LocalMs;
    Dates(t.date);
    ClockOf(days, t.clock, ofDay);
  }

  lemma Dates(d: Date)
    requires 1 <= d.month <= 12 && d.day >= 1
    ensures DaysToYmd(CivilDays(d)) == d <==> ValidDate(d)
    ensures ValidDate(DaysToYmd(CivilDays(d) + 1))
  {
    RoundTripExact(d);
    DayRoundTrip(CivilDays(d) + 1);
  }

  lemma ClockOf(days: int, c: Clock, ofDay: int)
    requires 0 <= c.hour <= 23 && 0 <= c.minute <= 59 && 0 <= c.second <= 60
    requires 0 <= ofDay - (c.hour * 3_600 + c.minute * 60 + c.second) * 1_000 < 1_000
    ensures var s := (days * MS_PER_DAY + ofDay) / 1_000 % 86_400;
      (s / 3_600, s % 3_600 / 60) == (c.hour, c.minute) <==> c.second <= 59
    ensures c.second <= 59 ==> (days * MS_PER_DAY + ofDay) / MS_PER_DAY == days
    ensures (days * MS_PER_DAY + ofDay) / MS_PER_DAY in {days, days + 1}
  {
    var secs := c.hour * 3_600 + c.minute * 60 + c.second;
    SecondsOf(days, secs, ofDay);
    FieldsOf(c);
  }

  lemma SecondsOf(days: int, secs: nat, ofDay: int)
    requires secs <= 86_400 && 0 <= ofDay - secs * 1_000 < 1_000
    ensures (days * MS_PER_DAY + ofDay) / 1_000 % 86_400 == if secs < 86_400 then secs else 0
    ensures (days * MS_PER_DAY + ofDay) / MS_PER_DAY == if secs < 86_400 then days else days + 1
  {
    assert (days * MS_PER_DAY + ofDay) / 1_000 == days * 86_400 + secs;
    if secs < 86_400 {
      assert (days * 86_400 + secs) % 86_400 == secs;
    } else {
      assert (days * 86_400 + secs) % 86_400 == 0;
    }
  }

  lemma FieldsOf(c: Clock)
    requires 0 <= c.hour <= 23 && 0 <= c.minute <= 59 && 0 <= c.second <= 60
    ensures var secs := c.hour * 3_600 + c.minute * 60 + c.second;
      var s := if secs < 86_400 then secs else 0;
      && secs <= 86_400 && (secs == 86_400 ==> c.second == 60)
      && ((s / 3_600, s % 3_600 / 60) == (c.hour, c.minute) <==> c.second <= 59)
  {
    var inHour := c.minute * 60 + c.second;
    if inHour < 3_600 {
      assert (c.hour * 3_600 + inHour) / 3_600 == c.hour && (c.hour * 3_600 + inHour) % 3_600 == inHour;
    } else {
      assert c.minute == 59 && c.second == 60;
      assert (c.hour + 1) * 3_600 / 3_600 == c.hour + 1;
    }
  }

  // ---- what else is accepted -----------------------------------------------------

  predicate Signless(s: string) {
    Lacks(s, '+') && Lacks(s, '-')
  }

  /** No number field carries a sign of its own. */
  predicate SignlessFields(text: string)
    requires Separated(text) && ParseFraction(text[19..]).Some?
  {
    var zone := ParseFraction(text[19..]).value.1;
    && Signless(text[0..4]) && Signless(text[5..7]) && Signless(text[8..10])
    && Signless(text[11..13]) && Signless(text[14..16]) && Signless(text[17..19])
    && (zone != [] ==> Signless(zone[1..]))
  }

  lemma {:induction false} FixedOfValue(s: string)
    requires AllDigits(s, 10)
    ensures Fixed(DigitsValue(s, 10), |s|, 10) == s
    decreases |s|
  {
    hide DigitOf, DigitChar;
    if s != [] {
      var high, low := s[..|s| - 1], s[|s| - 1];
      FixedOfValue(high);
      var v, d := DigitsValue(high, 10), DigitOf(low).value;
      assert DigitsValue(s, 10) == 10 * v + d;
      assert (10 * v + d) / 10 == v && (10 * v + d) % 10 == d;
      CharOfDigit(low);
      assert Fixed(10 * v + d, |s|, 10) == Fixed(v, |s| - 1, 10) + [DigitChar(d)];
      assert s == high + [low];
    }
  }

  lemma CharOfDigit(c: char)
    requires DigitOf(c).Some? && DigitOf(c).value < 10
    ensures DigitChar(DigitOf(c).value) == c
  {
  }

  lemma SignlessNumber(s: string)
    requires Signless(s) && s != []
    ensures ParseUint(s, 255).Some? ==> AllDigits(s, 10) && ParseUint(s, 255).value == DigitsValue(s, 10)
    ensures ParseInt(s).Some? ==> AllDigits(s, 10) && ParseInt(s).value == DigitsValue(s, 10)
  {
    hide AllDigits, DigitsValue;
  }

  /** A signless field of two or four characters is the digits of its value. */
  lemma FieldDigits(s: string)
    requires Signless(s) && s != []
    ensures ParseUint(s, 255).Some? ==> Fixed(ParseUint(s, 255).value, |s|, 10) == s
    ensures ParseInt(s).Some? ==> ParseInt(s).value >= 0 && Fixed(ParseInt(s).value, |s|, 10) == s
    ensures |s| == 2 && ParseUint(s, 255).Some? ==> ParseUint(s, 255).value <= 99
    ensures |s| == 4 && ParseInt(s).Some? ==> ParseInt(s).value <= 9_999
  {
    SignlessNumber(s);
    assert Power(10, 4) == 10_000 && Power(10, 2) == 100;
    hide Fixed, Power, DigitsValue, AllDigits, ParseUint, ParseInt, Signless;
    if AllDigits(s, 10) {
      FixedOfValue(s);
      DigitsBound(s, 10);
    }
  }

  lemma HeadWritten(text: string)
    requires Separated(text) && ParseDate(text).Some? && ParseClock(text).Some?
    requires Signless(text[0..4]) && Signless(text[5..7]) && Signless(text[8..10])
    requires Signless(text[11..13]) && Signless(text[14..16]) && Signless(text[17..19])
    ensures var d, c := ParseDate(text).value, ParseClock(text).value;
      && 0 <= d.year <= 9_999 && 0 <= d.month <= 99 && 0 <= d.day <= 99
      && 0 <= c.hour && 0 <= c.minute && 0 <= c.second
      && FormatHead(d, c) == text[..19]
  {
    hide Fixed, ParseInt, ParseUint, Signless;
    FieldDigits(text[0..4]);
    FieldDigits(text[5..7]);
    FieldDigits(text[8..10]);
    FieldDigits(text[11..13]);
    FieldDigits(text[14..16]);
    FieldDigits(text[17..19]);
    HeadIsFields(text);
  }

  lemma HeadIsFields(text: string)
    requires Separated(text)
    ensures text[..19] == text[0..4] + "-" + text[5..7] + "-" + text[8..10] + "T"
      + text[11..13] + ":" + text[14..16] + ":" + text[17..19]
  {
  }

  lemma SignlessParts(s: string)
    requires Signless(s) && |s| >= 4
    ensures Signless(s[0..2]) && Signless(s[2..4]) && (|s| == 5 ==> Signless(s[3..5]))
  {
  }

  lemma ZoneWritten(zone: string) returns (z: Zone)
    requires ParseOffset(zone).Some? && Signless(zone[1..])
    ensures FormatZone(z) == zone && (z.Numeric? ==> z.hours <= 23 && z.minutes <= 59)
  {
    if zone == "Z" || zone == "z" {
      z := Zulu(zone == "z");
    } else {
      var h, m, colon := NumericParts(zone);
      hide ParseOffset, Signless, Fixed, ParseInt, AllDigits;
      FieldDigits(h);
      FieldDigits(m);
      z := Numeric(zone[0] == '-', ParseInt(h).value, ParseInt(m).value, colon);
    }
  }

  lemma NumericParts(zone: string) returns (h: string, m: string, colon: bool)
    requires ParseOffset(zone).Some? && zone != "Z" && zone != "z" && Signless(zone[1..])
    ensures |h| == |m| == 2 && Signless(h) && Signless(m)
    ensures zone == (if zone[0] == '-' then "-" else "+") + h + (if colon then ":" else "") + m
    ensures ParseInt(h).Some? && ParseInt(h).value <= 23 && ParseInt(m).Some? && ParseInt(m).value <= 59
  {
    hide Signless, ParseInt;
    var rest := zone[1..];
    colon := |rest| == 5;
    SignlessParts(rest);
    h, m := rest[0..2], if colon then rest[3..5] else rest[2..4];
    assert zone == [zone[0]] + rest && rest == h + (if colon then ":" else "") + m;
  }

  lemma FractionWritten(s: string) returns (digits: string)
    requires ParseFraction(s).Some?
    ensures s == FormatFraction(digits) + ParseFraction(s).value.1
    ensures forall i :: 0 <= i < |digits| ==> '0' <= digits[i] <= '9'
  {
    hide Millis, AllDigits, DigitRun;
    if s == [] || s[0] != '.' {
      digits := [];
    } else {
      digits := s[1..][..DigitRun(s[1..])];
      assert s[1..] == digits + s[1..][|digits|..];
      assert s == "." + s[1..];
      DigitRunDigits(s[1..]);
    }
  }

  lemma {:induction false} DigitRunDigits(s: string)
    ensures forall i :: 0 <= i < DigitRun(s) ==> '0' <= s[i] <= '9'
    decreases |s|
  {
    if DigitRun(s) > 0 {
      DigitRunDigits(s[1..]);
      forall i | 0 <= i < DigitRun(s) ensures '0' <= s[i] <= '9' {
        if i > 0 {
          assert s[i] == s[1..][i - 1];
        }
      }
    }
  }

  /** An accepted text whose fields are all digits is a written date-time. */
  lemma AcceptedIsWritten(text: string) returns (t: Stamp)
    requires ParseRfc3339(text).Some? && SignlessFields(text)
    ensures Written(t) && Format(t) == text
  {
    hide ParseRfc3339, Format, FormatHead, FormatFraction, FormatZone, ParseDate, ParseClock, ParseFraction,
      ParseOffset, Signless;
    PartsAccepted(text);
    var date, clock := ParseDate(text).value, ParseClock(text).value;
    HeadWritten(text);
    var digits := FractionWritten(text[19..]);
    var zone := ZoneWritten(ParseFraction(text[19..]).value.1);
    t := Stamp(date, clock, digits, zone);
    hide Separated, SignlessFields;
    Rejoined(t, text);
  }

  lemma Rejoined(t: Stamp, text: string)
    requires Written(t) && |text| >= 19
    requires FormatHead(t.date, t.clock) == text[..19]
    requires FormatFraction(t.fraction) + FormatZone(t.zone) == text[19..]
    ensures Format(t) == text
  {
    hide FormatHead, FormatFraction, FormatZone;
    assert text == text[..19] + text[19..];
  }

  /** And a written date-time has no sign in its fields. */
  lemma WrittenIsSignless(t: Stamp)
    requires Written(t)
    ensures Separated(Format(t)) && ParseFraction(Format(t)[19..]).Some? && SignlessFields(Format(t))
  {
    hide Fixed, FormatHead, ParseFraction, Separated, AllDigits, Power, Millis;
    var zone := FormatZone(t.zone);
    var rest := FormatFraction(t.fraction) + zone;
    assert zone != [] && !('0' <= zone[0] <= '9') && zone[0] != '.';
    HeadSlices(t.date, t.clock, rest);
    FractionRead(t.fraction, zone);
    FixedSignless(t.date.year, 4);
    FixedSignless(t.date.month, 2);
    FixedSignless(t.date.day, 2);
    FixedSignless(t.clock.hour, 2);
    FixedSignless(t.clock.minute, 2);
    FixedSignless(t.clock.second, 2);
    if t.zone.Numeric? {
      FixedSignless(t.zone.hours, 2);
      FixedSignless(t.zone.minutes, 2);
      assert zone[1..] == Fixed(t.zone.hours, 2, 10) + (if t.zone.colon then ":" else "") + Fixed(t.zone.minutes, 2, 10);
    }
  }

  lemma FixedSignless(n: nat, width: nat)
    ensures Signless(Fixed(n, width, 10))
  {
    FixedDigits(n, width, 10);
    DigitsLack(Fixed(n, width, 10), 10, '+');
    DigitsLack(Fixed(n, width, 10), 10, '-');
  }

  lemma PartsAccepted(text: string)
    requires ParseRfc3339(text).Some?
    ensures Separated(text) && ParseDate(text).Some? && ParseClock(text).Some? && ParseFraction(text[19..]).Some?
    ensures var d, c, zone := ParseDate(text).value, ParseClock(text).value, ParseFraction(text[19..]).value.1;
      && 1 <= d.month <= 12 && d.day >= 1
      && c.hour <= 23 && c.minute <= 59 && c.second <= 60
      && zone != [] && ParseOffset(zone).Some?
  {
    hide CivilMs, ToUtc, CivilDays, ParseDate, ParseFraction;
  }

  /** Integer parsing takes a sign, so texts outside section 5.6 of RFC 3339 pass:
      a leading zero of the month or day may be written as a plus. */
  lemma SignedFieldsPass(text: string)
    requires Separated(text)
    ensures text[5] == '0' ==> ParseRfc3339(text[5 := '+']) == ParseRfc3339(text)
    ensures text[8] == '0' ==> ParseRfc3339(text[8 := '+']) == ParseRfc3339(text)
  {
    hide ParseInt, ParseUint, ParseFraction, ParseOffset, CivilMs, YmdToEpochDays;
    if text[5] == '0' {
      SameFields(text, 5);
      assert text[5 := '+'][5..7] == ['+', text[6]] && text[5..7] == ['0', text[6]];
      SignedField(text[6]);
    }
    if text[8] == '0' {
      SameFields(text, 8);
      assert text[8 := '+'][8..10] == ['+', text[9]] && text[8..10] == ['0', text[9]];
      SignedField(text[9]);
    }
  }

  lemma SignedField(c: char)
    ensures ParseUint(['+', c], 255) == ParseUint(['0', c], 255)
  {
    assert ['+', c][1..] == [c] && [c][0] == c;
    if AllDigits([c], 10) {
      assert DigitOf([c][0]).Some?;
      assert [c][..0] == [] && ['0', c][..1] == ['0'] && ['0'][..0] == [];
      assert DigitsValue(['0'], 10) == 0;
      assert DigitsValue([c], 10) == DigitOf(c).value;
      assert DigitsValue(['0', c], 10) == DigitOf(c).value;
    } else {
      assert !AllDigits(['0', c], 10) by { assert ['0', c][1] == [c][0]; }
    }
  }

  lemma SameFields(text: string, at: nat)
    requires Separated(text) && at in {5, 8}
    ensures var other := text[at := '+'];
      && Separated(other) && other[0..4] == text[0..4] && other[11..13] == text[11..13] && other[14..16] == text[14..16]
      && other[17..19] == text[17..19] && other[19..] == text[19..]
      && (at == 5 ==> other[8..10] == text[8..10]) && (at == 8 ==> other[5..7] == text[5..7])
  {
  }
}
