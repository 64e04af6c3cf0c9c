/** RFC 3339 date-times (section 5.6 of RFC 3339) as UTC milliseconds. Text is its UTF-8 bytes. */
module Timestamp {
  import opened Wrappers
  import opened Text
  import opened Calendar

  // ---- the parser as one function ------------------------------------------------

  /** `str::parse` of a signed 32-bit integer, for fields of at most four characters. */
  function ParseInt(s: string): Option<int> {
    if |s| > 1 && s[0] == '-' then
      if !AllDigits(s[1..], 10) then None
      else
        var v: int := DigitsValue(s[1..], 10);
        Some(-v)
    else
      match ParseUint(s, 0x7FFF_FFFF)
      case Some(n) => Some(n)
      case None => None
  }

  datatype Clock = Clock(hour: int, minute: int, second: int)

  predicate Separated(value: string) {
    |value| >= 20 && value[4] == '-' && value[7] == '-' && value[10] == 'T' && value[13] == ':' && value[16] == ':'
  }

  function ParseDate(value: string): Option<Date>
    requires |value| >= 20
  {
    match (ParseInt(value[0..4]), ParseUint(value[5..7], 255), ParseUint(value[8..10], 255))
    case (Some(y), Some(m), Some(d)) => Some(Date(y, m, d))
    case _ => None
  }

  function ParseClock(value: string): Option<Clock>
    requires |value| >= 20
  {
    match (ParseUint(value[11..13], 255), ParseUint(value[14..16], 255), ParseUint(value[17..19], 255))
    case (Some(h), Some(m), Some(s)) => if h > 23 || m > 59 || s > 60 then None else Some(Clock(h, m, s))
    case _ => None
  }

  /** The length of the digits at the front. */
  function DigitRun(s: string): (n: nat)
    ensures n <= |s| && AllDigits(s[..n], 10)
    decreases |s|
  {
    if s == [] || !('0' <= s[0] <= '9') then 0 else DigitRun(s[1..]) + 1
  }

  /** Digits after the point as milliseconds: cut, or padded with zeros, to three. */
  function Millis(digits: string): nat
    requires AllDigits(digits, 10)
  {
    var kept := Kept(digits);
    DigitsValue(kept, 10) * Power(10, 3 - |kept|)
  }

  /** Milliseconds and the text after them. */
  function ParseFraction(s: string): Option<(nat, string)> {
    if s == [] || s[0] != '.' then Some((0, s))
    else
      var n := DigitRun(s[1..]);
      if n == 0 then None else Some((Millis(s[1..][..n]), s[1..][n..]))
  }

  function ParseOffset(s: string): Option<int> {
    if s == "Z" || s == "z" then Some(0)
    else if s == [] || s[0] !in {'+', '-'} then None
    else
      var sign := if s[0] == '+' then 1 else -1;
      var rest := s[1..];
      if |rest| == 5 && rest[2] == ':' then OffsetMinutes(sign, rest[0..2], rest[3..5])
      else if |rest| == 4 then OffsetMinutes(sign, rest[0..2], rest[2..4])
      else None
  }

  function OffsetMinutes(sign: int, hours: string, minutes: string): Option<int> {
    match (ParseInt(hours), ParseInt(minutes))
    case (Some(h), Some(m)) => if 0 <= h <= 23 && 0 <= m <= 59 then Some(sign * (h * 60 + m)) else None
    case _ => None
  }

  /** Civil milliseconds in saturating 64-bit arithmetic. */
  function CivilMs(days: u64, c: Clock, millis: nat): u64
    requires 0 <= c.hour <= 23 && 0 <= c.minute <= 59 && 0 <= c.second <= 60 && millis < 1_000
  {
    SatAdd(SatMul(SatAdd(SatAdd(SatAdd(SatMul(days, 86_400), c.hour * 3_600), c.minute * 60), c.second), 1_000), millis)
  }

  lemma MillisBelow(digits: string)
    requires AllDigits(digits, 10)
    ensures Millis(digits) < 1_000
  {
    var kept := Kept(digits);
    DigitsBound(kept, 10);
    assert Power(10, 0) == 1 && Power(10, 1) == 10 && Power(10, 2) == 100 && Power(10, 3) == 1_000;
    assert |kept| in {0, 1, 2, 3};
  }

  function ParseRfc3339(value: string): Option<u64> {
    if !Separated(value) then None
    else
      match (ParseDate(value), ParseClock(value), ParseFraction(value[19..]))
      case (Some(date), Some(clock), Some((millis, rest))) =>
        FractionBelow(value[19..]);
        (match (ParseOffset(rest), YmdToEpochDays(date))
         case (Some(offset), Some(days)) => ToUtc(CivilMs(days, clock, millis), offset)
         case _ => None)
      case _ => None
  }

  lemma FractionBelow(s: string)
    ensures ParseFraction(s).Some? ==> ParseFraction(s).value.0 < 1_000
  {
    if ParseFraction(s).Some? && s != [] && s[0] == '.' {
      MillisBelow(s[1..][..DigitRun(s[1..])]);
    }
  }

  function ToUtc(civil: u64, offset: int): Option<u64> {
    if civil > 0x7FFF_FFFF_FFFF_FFFF then None
    else
      var utc := civil - offset * 60_000;
      if 0 <= utc <= U64_MAX then Some(utc) else None
  }

  // ---- the scanner ---------------------------------------------------------------

  lemma DigitRunStep(s: string, k: nat)
    requires k < |s| && forall i :: 0 <= i < k ==> '0' <= s[i] <= '9'
    ensures !('0' <= s[k] <= '9') ==> DigitRun(s) == k
    decreases k
  {
    if k > 0 {
      DigitRunStep(s[1..], k - 1);
    }
  }

  lemma DigitRunAll(s: string)
    requires forall i :: 0 <= i < |s| ==> '0' <= s[i] <= '9'
    ensures DigitRun(s) == |s|
    decreases |s|
  {
    if s != [] {
      DigitRunAll(s[1..]);
    }
  }

  /** The digits kept for the milliseconds. */
  function Kept(digits: string): string {
    if |digits| < 3 then digits else digits[..3]
  }

  /** The scanning loop: the value of the first three digits, and how many there are. */
  method ScanDigits(tail: string) returns (millisecond: nat, count: nat)
    ensures count == DigitRun(tail) && millisecond == DigitsValue(Kept(tail[..count]), 10)
  {
    millisecond, count := 0, 0;
    while count < |tail| && '0' <= tail[count] <= '9'
      invariant count <= |tail| && AllDigits(tail[..count], 10)
      invariant forall i :: 0 <= i < count ==> '0' <= tail[i] <= '9'
      invariant millisecond == DigitsValue(Kept(tail[..count]), 10)
    {
      if count < 3 {
        millisecond := millisecond * 10 + (tail[count] - '0') as nat;
        assert tail[..count + 1][..count] == tail[..count];
        assert Kept(tail[..count + 1]) == tail[..count + 1];
      } else {
        assert Kept(tail[..count + 1]) == Kept(tail[..count]);
      }
      count := count + 1;
    }
    if count == |tail| {
      DigitRunAll(tail);
    } else {
      DigitRunStep(tail, count);
    }
  }

  /** The zero padding after it. */
  method PadMillis(read: nat, digits: nat) returns (millisecond: nat)
    ensures millisecond == read * Power(10, 3 - (if digits < 3 then digits else 3))
  {
    var i := if digits < 3 then digits else 3;
    ghost var first := i;
    millisecond := read;
    while i < 3
      invariant first <= i <= 3 && millisecond * Power(10, 3 - i) == read * Power(10, 3 - first)
    {
      assert Power(10, 3 - i) == 10 * Power(10, 2 - i);
      millisecond := millisecond * 10;
      i := i + 1;
    }
  }

  /** The fraction, from `start` to wherever it ends. */
  method ScanFraction(bytes: string, start: nat) returns (r: Option<(nat, nat)>)
    requires start <= |bytes|
    ensures r.None? <==> ParseFraction(bytes[start..]).None?
    ensures r.Some? ==> start <= r.value.1 <= |bytes|
    ensures r.Some? ==> ParseFraction(bytes[start..]) == Some((r.value.0, bytes[r.value.1..]))
  {
    if start == |bytes| || bytes[start] != '.' {
      return Some((0, start));
    }
    var tail := bytes[start + 1..];
    assert bytes[start..][1..] == tail;
    var read, count := ScanDigits(tail);
    if count == 0 {
      return None;
    }
    var millisecond := PadMillis(read, count);
    assert tail[count..] == bytes[start + 1 + count..];
    return Some((millisecond, start + 1 + count));
  }

  lemma ClockInRange(value: string)
    requires |value| >= 20
    ensures ParseClock(value).Some? ==>
              var c := ParseClock(value).value; 0 <= c.hour <= 23 && 0 <= c.minute <= 59 && 0 <= c.second <= 60
  {
  }

  /** The parser, field by field in its own order. */
  method ParseRfc3339Ms(value: string) returns (r: Option<u64>)
    ensures r == ParseRfc3339(value)
  {
    hide ParseDate, ParseClock, ParseFraction, ParseOffset, YmdToEpochDays, CivilMs;
    if !Separated(value) {
      return None;
    }
    var date, clock := ParseDate(value), ParseClock(value);
    if date.None? || clock.None? {
      return None;
    }
    var scan := ScanFraction(value, 19);
    if scan.None? {
      return None;
    }
    var millisecond, idx := scan.value.0, scan.value.1;
    FractionBelow(value[19..]);
    ClockInRange(value);
    var offset := ParseOffset(value[idx..]);
    var days := YmdToEpochDays(date.value);
    if offset.None? || days.None? {
      return None;
    }
    var civil := CivilMs(days.value, clock.value, millisecond);
    if civil > 0x7FFF_FFFF_FFFF_FFFF {
      return None;
    }
    var utc := civil - offset.value * 60_000;
    return if 0 <= utc <= U64_MAX then Some(utc) else None;
  }
}
