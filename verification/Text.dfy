/** The text primitives the durable formats are made of: lines, columns, decimal
    and hexadecimal numbers, with the round trip of each. */
module Text {
  import opened Wrappers

  predicate Lacks(s: string, c: char) {
    forall i :: 0 <= i < |s| ==> s[i] != c
  }

  // ---- splitting -------------------------------------------------------------

  /** The position of the first `c`, or the length. */
  function IndexOf(s: string, c: char): (n: nat)
    ensures n <= |s| && Lacks(s[..n], c) && (n < |s| ==> s[n] == c)
    decreases |s|
  {
    if s == [] || s[0] == c then 0
    else
      var n := IndexOf(s[1..], c);
      assert s[..n + 1] == [s[0]] + s[1..][..n];
      n + 1
  }

  lemma {:induction false} IndexOfJoined(a: string, c: char, b: string)
    requires Lacks(a, c)
    ensures IndexOf(a + [c] + b, c) == |a|
    decreases |a|
  {
    if a != [] {
      assert (a + [c] + b)[1..] == a[1..] + [c] + b;
      IndexOfJoined(a[1..], c, b);
    }
  }

  lemma {:induction false} IndexOfAbsent(a: string, c: char)
    requires Lacks(a, c)
    ensures IndexOf(a, c) == |a|
    decreases |a|
  {
    if a != [] {
      IndexOfAbsent(a[1..], c);
    }
  }

  /** `str::split_once`. */
  function SplitOnce(s: string, c: char): Option<(string, string)> {
    var n := IndexOf(s, c);
    if n == |s| then None else Some((s[..n], s[n + 1..]))
  }

  /** `str::split`: at least one part. */
  function Split(s: string, c: char): (parts: seq<string>)
    ensures parts != []
    decreases |s|
  {
    var n := IndexOf(s, c);
    if n == |s| then [s] else [s[..n]] + Split(s[n + 1..], c)
  }

  function Join(parts: seq<string>, c: char): string
    decreases |parts|
  {
    if parts == [] then [] else if |parts| == 1 then parts[0] else parts[0] + [c] + Join(parts[1..], c)
  }

  lemma {:induction false} SplitJoin(parts: seq<string>, c: char)
    requires parts != [] && forall i :: 0 <= i < |parts| ==> Lacks(parts[i], c)
    ensures Split(Join(parts, c), c) == parts
    decreases |parts|
  {
    if |parts| == 1 {
      IndexOfAbsent(parts[0], c);
    } else {
      var rest := Join(parts[1..], c);
      IndexOfJoined(parts[0], c, rest);
      SplitJoin(parts[1..], c);
      assert (parts[0] + [c] + rest)[|parts[0]| + 1..] == rest;
      assert (parts[0] + [c] + rest)[..|parts[0]|] == parts[0];
    }
  }

  lemma SplitOnceJoined(a: string, c: char, b: string)
    requires Lacks(a, c)
    ensures SplitOnce(a + [c] + b, c) == Some((a, b))
  {
    IndexOfJoined(a, c, b);
    assert (a + [c] + b)[..|a|] == a && (a + [c] + b)[|a| + 1..] == b;
  }

  /** Testing a line for the prefix `key` plus separator is splitting it once. */
  lemma StripPrefixIsSplitOnce(line: string, key: string, c: char)
    requires Lacks(key, c)
    ensures (key + [c] <= line) <==> (SplitOnce(line, c).Some? && SplitOnce(line, c).value.0 == key)
    ensures key + [c] <= line ==> SplitOnce(line, c).value.1 == line[|key| + 1..]
  {
    if key + [c] <= line {
      assert line == key + [c] + line[|key| + 1..];
      SplitOnceJoined(key, c, line[|key| + 1..]);
    }
  }

  /** `str::lines`: terminators are LF or CR LF; an empty last line is dropped. */
  function Lines(s: string): seq<string>
    decreases |s|
  {
    if s == [] then []
    else
      var n := IndexOf(s, '\n');
      if n == |s| then [s] else [StripCr(s[..n])] + Lines(s[n + 1..])
  }

  function StripCr(s: string): string {
    if s != [] && s[|s| - 1] == '\r' then s[..|s| - 1] else s
  }

  /** A line that survives being written and read back. */
  predicate Plain(line: string) {
    Lacks(line, '\n') && StripCr(line) == line
  }

  function Unlines(lines: seq<string>): string
    decreases |lines|
  {
    if lines == [] then [] else lines[0] + ['\n'] + Unlines(lines[1..])
  }

  lemma {:induction false} LinesUnlines(lines: seq<string>)
    requires forall i :: 0 <= i < |lines| ==> Plain(lines[i])
    ensures Lines(Unlines(lines)) == lines
    decreases |lines|
  {
    if lines != [] {
      var l, rest := lines[0], Unlines(lines[1..]);
      IndexOfJoined(l, '\n', rest);
      assert (l + ['\n'] + rest)[..|l|] == l && (l + ['\n'] + rest)[|l| + 1..] == rest;
      LinesUnlines(lines[1..]);
    }
  }

  lemma {:induction false} UnlinesAppend(a: seq<string>, b: seq<string>)
    ensures Unlines(a + b) == Unlines(a) + Unlines(b)
    decreases |a|
  {
    if a == [] {
      assert a + b == b;
    } else {
      assert (a + b)[1..] == a[1..] + b;
      UnlinesAppend(a[1..], b);
    }
  }

  // ---- trimming and case -------------------------------------------------------

  /** `char::is_whitespace`. */
  predicate IsWhite(c: char) {
    c in " \t\n\r" || c in "\U{0B}\U{0C}\U{85}\U{A0}\U{1680}" || '\U{2000}' <= c <= '\U{200A}'
    || c in "\U{2028}\U{2029}\U{202F}\U{205F}\U{3000}"
  }

  function TrimStart(s: string): string
    decreases |s|
  {
    if s != [] && IsWhite(s[0]) then TrimStart(s[1..]) else s
  }

  function TrimEnd(s: string): string
    decreases |s|
  {
    if s != [] && IsWhite(s[|s| - 1]) then TrimEnd(s[..|s| - 1]) else s
  }

  function Trim(s: string): string {
    TrimEnd(TrimStart(s))
  }

  function LowerChar(c: char): char {
    if 'A' <= c <= 'Z' then c - 'A' + 'a' else c
  }

  function Lower(s: string): string
    decreases |s|
  {
    if s == [] then [] else [LowerChar(s[0])] + Lower(s[1..])
  }

  // ---- numbers ---------------------------------------------------------------

  /** The value of a digit in the bases used here, either case. */
  function DigitOf(c: char): Option<nat> {
    if '0' <= c <= '9' then Some((c - '0') as nat)
    else if 'a' <= c <= 'f' then Some((c - 'a') as nat + 10)
    else if 'A' <= c <= 'F' then Some((c - 'A') as nat + 10)
    else None
  }

  function DigitChar(d: nat): char
    requires d < 16
  {
    "0123456789abcdef"[d]
  }

  lemma DigitOfChar(d: nat)
    requires d < 16
    ensures DigitOf(DigitChar(d)) == Some(d)
  {
  }

  predicate AllDigits(s: string, base: nat) {
    forall i :: 0 <= i < |s| ==> DigitOf(s[i]).Some? && DigitOf(s[i]).value < base
  }

  /** Positional value, most significant digit first. */
  function DigitsValue(s: string, base: nat): nat
    requires AllDigits(s, base)
    decreases |s|
  {
    if s == [] then 0
    else base * DigitsValue(s[..|s| - 1], base) + DigitOf(s[|s| - 1]).value
  }

  /** `{}` of an unsigned integer. */
  function Dec(n: nat): string
    decreases n
  {
    (if n < 10 then [] else Dec(n / 10)) + [DigitChar(n % 10)]
  }

  lemma SnocDigit(high: string, d: nat, base: nat)
    requires AllDigits(high, base) && d < base <= 16
    ensures var s := high + [DigitChar(d)];
      AllDigits(s, base) && DigitsValue(s, base) == base * DigitsValue(high, base) + d
  {
    DigitOfChar(d);
    assert (high + [DigitChar(d)])[..|high|] == high;
  }

  lemma {:induction false} DecDigits(n: nat)
    ensures var s := Dec(n); s != [] && AllDigits(s, 10) && DigitsValue(s, 10) == n
    decreases n
  {
    hide DigitOf, DigitChar;
    if n < 10 {
      SnocDigit([], n, 10);
    } else {
      DecDigits(n / 10);
      assert n == 10 * (n / 10) + n % 10;
      hide AllDigits, DigitsValue;
      SnocDigit(Dec(n / 10), n % 10, 10);
    }
  }

  /** Exactly `width` digits, zero padded. */
  function Fixed(n: nat, width: nat, base: nat): (s: string)
    requires 2 <= base <= 16
    ensures |s| == width
    decreases width
  {
    if width == 0 then [] else Fixed(n / base, width - 1, base) + [DigitChar(n % base)]
  }

  lemma {:induction false} FixedDigits(n: nat, width: nat, base: nat)
    requires 2 <= base <= 16
    ensures AllDigits(Fixed(n, width, base), base)
    decreases width
  {
    if width > 0 {
      FixedDigits(n / base, width - 1, base);
      DigitOfChar(n % base);
    }
  }

  /** Digits are none of the separators. */
  lemma DigitsLack(s: string, base: nat, c: char)
    requires AllDigits(s, base) && DigitOf(c).None?
    ensures Lacks(s, c)
  {
  }

  function Power(base: nat, e: nat): nat {
    if e == 0 then 1 else base * Power(base, e - 1)
  }

  lemma {:induction false} FixedValue(n: nat, width: nat, base: nat)
    requires 2 <= base <= 16 && n < Power(base, width)
    ensures AllDigits(Fixed(n, width, base), base) && DigitsValue(Fixed(n, width, base), base) == n
    decreases width
  {
    FixedDigits(n, width, base);
    if width > 0 {
      FixedDigits(n / base, width - 1, base);
      var s := Fixed(n, width, base);
      assert s[..|s| - 1] == Fixed(n / base, width - 1, base);
      DigitOfChar(n % base);
      DivBelow(n, base, Power(base, width - 1));
      FixedValue(n / base, width - 1, base);
    }
  }

  lemma DivBelow(n: nat, b: nat, p: nat)
    requires b > 0 && n < b * p
    ensures n / b < p && n == b * (n / b) + n % b
  {
  }

  /** `str::parse` of an unsigned integer: an optional plus sign, then digits, in range. */
  function ParseUint(s: string, max: nat): Option<nat> {
    var digits := if |s| > 1 && s[0] == '+' then s[1..] else s;
    if digits == [] || !AllDigits(digits, 10) then None
    else
      var v := DigitsValue(digits, 10);
      if v <= max then Some(v) else None
  }

  lemma ParseDec(n: nat, max: nat)
    ensures ParseUint(Dec(n), max) == if n <= max then Some(n) else None
  {
    DecDigits(n);
  }

  function EncodeHex(n: u64): string {
    Fixed(n, 16, 16)
  }

  /** Sixteen hexadecimal digits, either case. */
  function HexDecode(s: string): (n: Option<u64>)
  {
    if |s| != 16 || !AllDigits(s, 16) then None
    else
      DigitsBound(s, 16);
      assert Power(16, 16) == U64_MAX + 1 by { HexRange(); }
      Some(DigitsValue(s, 16))
  }

  lemma {:induction false} DigitsBound(s: string, base: nat)
    requires base > 0 && AllDigits(s, base)
    ensures DigitsValue(s, base) < Power(base, |s|)
    decreases |s|
  {
    if s != [] {
      DigitsBound(s[..|s| - 1], base);
      DigitBelow(base, DigitsValue(s[..|s| - 1], base), DigitOf(s[|s| - 1]).value, Power(base, |s| - 1));
    }
  }

  lemma DigitBelow(b: nat, v: nat, d: nat, p: nat)
    requires v < p && d < b
    ensures b * v + d < b * p
  {
    assert b * (v + 1) <= b * p;
  }

  lemma HexRange()
    ensures Power(16, 16) == U64_MAX + 1
  {
    assert Power(16, 4) == 0x1_0000;
    assert Power(16, 8) == 0x1_0000_0000;
    assert Power(16, 12) == 0x1_0000_0000_0000;
  }

  lemma HexRoundTrip(n: u64)
    ensures HexDecode(EncodeHex(n)) == Some(n)
  {
    HexRange();
    FixedValue(n, 16, 16);
  }
}
