/**
 * `formatTime` of monitor.js: a whole number of seconds as Korean text, "<s>초" below a
 * minute, otherwise "<m>분" or "<m>분 <s>초". Numbers are written as JavaScript's template
 * literals write a non-negative integer: decimal digits without leading zeros.
 *
 * `ParseTime` reads such a text back and accepts no other text. The round trip
 * `ParseTime(FormatTime(s)) == Some(s)` says that the text names the duration exactly; its
 * converse `ParseTime(t) == Some(s) ==> t == FormatTime(s)` says that `FormatTime` writes the one
 * canonical text of each duration (no leading zeros, seconds below 60).
 */
module TimeFormat {
  import opened Wrappers

  predicate IsDigit(c: char) {
    '0' <= c <= '9'
  }

  predicate AllDigits(s: string) {
    forall i :: 0 <= i < |s| ==> IsDigit(s[i])
  }

  function DigitChar(d: nat): (c: char)
    requires d < 10
    ensures IsDigit(c) && c as int - '0' as int == d
  {
    ('0' as int + d) as char
  }

  /** Decimal digits as `${n}` writes a non-negative integer: at least one, and no leading zero
      unless the number is 0 itself. */
  predicate Canonical(d: string) {
    |d| >= 1 && AllDigits(d) && (d[0] == '0' ==> |d| == 1)
  }

  /** `${n}` for a non-negative integer `n`. */
  function NatToString(n: nat): (r: string)
    ensures Canonical(r)
    ensures r[0] == '0' ==> n == 0
    decreases n
  {
    if n < 10 then [DigitChar(n)] else NatToString(n / 10) + [DigitChar(n % 10)]
  }

  /** The value of a string of decimal digits. */
  function StringToNat(s: string): nat
    requires AllDigits(s)
    decreases |s|
  {
    if s == [] then 0
    else StringToNat(s[..|s| - 1]) * 10 + (s[|s| - 1] as int - '0' as int)
  }

  lemma {:induction false} StringToNatOfNatToString(n: nat)
    ensures StringToNat(NatToString(n)) == n
    decreases n
  {
    if n >= 10 {
      var r := NatToString(n);
      assert r[..|r| - 1] == NatToString(n / 10);
      StringToNatOfNatToString(n / 10);
    }
  }

  function FormatTime(seconds: nat): (r: string)
    ensures |r| >= 2
    ensures '분' !in r <==> seconds < 60
    ensures r[|r| - 1] == '초' <==> seconds % 60 != 0 || seconds < 60
  {
    if seconds < 60 then
      NatToString(seconds) + "초"
    else
      var minutes := seconds / 60;
      var secs := seconds % 60;
      if secs > 0 then NatToString(minutes) + "분 " + NatToString(secs) + "초"
      else NatToString(minutes) + "분"
  }

  /** The number of leading decimal digits of `t`. */
  function LeadingDigits(t: string): (k: nat)
    ensures k <= |t| && AllDigits(t[..k])
    ensures k < |t| ==> !IsDigit(t[k])
  {
    if t == [] || !IsDigit(t[0]) then 0 else 1 + LeadingDigits(t[1..])
  }

  /** Reads a number written as `${n}` writes it off the front of `t`: its value and the text
      after it. */
  function ReadNumber(t: string): Option<(nat, string)> {
    var k := LeadingDigits(t);
    if k == 0 || !Canonical(t[..k]) then None else Some((StringToNat(t[..k]), t[k..]))
  }

  /** Reads back exactly the texts `FormatTime` writes: "<s>초" with s < 60, "<m>분" with m >= 1,
      and "<m>분 <s>초" with m >= 1 and 1 <= s < 60. */
  function ParseTime(t: string): Option<nat> {
    match ReadNumber(t)
    case None => None
    case Some((value, rest)) =>
      if rest == "초" then
        if value < 60 then Some(value) else None
      else if rest == "분" then
        if value >= 1 then Some(value * 60) else None
      else if |rest| >= 2 && rest[..2] == "분 " then
        ParseSecondsPart(value, rest[2..])
      else None
  }

  /** The "<s>초" after "<m>분 ". */
  function ParseSecondsPart(minutes: nat, tail: string): Option<nat> {
    match ReadNumber(tail)
    case None => None
    case Some((secs, after)) =>
      if after == "초" && minutes >= 1 && 1 <= secs < 60 then Some(minutes * 60 + secs) else None
  }

  lemma {:induction false} LeadingDigitsOfDigitsThen(d: string, rest: string)
    requires AllDigits(d)
    requires rest == [] || !IsDigit(rest[0])
    ensures LeadingDigits(d + rest) == |d|
    decreases |d|
  {
    if d != [] {
      assert (d + rest)[1..] == d[1..] + rest;
      LeadingDigitsOfDigitsThen(d[1..], rest);
    }
  }

  /** `ReadNumber` reads back the decimal form of `n` followed by a non-digit. */
  lemma ReadNumberThen(n: nat, rest: string)
    requires rest == [] || !IsDigit(rest[0])
    ensures ReadNumber(NatToString(n) + rest) == Some((n, rest))
  {
    var d := NatToString(n);
    var t := d + rest;
    LeadingDigitsOfDigitsThen(d, rest);
    assert t[..|d|] == d;
    assert t[|d|..] == rest;
    StringToNatOfNatToString(n);
  }

  /** What `ReadNumber` accepts is a number in canonical decimal form and the text after it. */
  lemma ReadNumberOnlyCanonical(t: string, n: nat, rest: string)
    requires ReadNumber(t) == Some((n, rest))
    ensures t == NatToString(n) + rest
  {
    var k := LeadingDigits(t);
    NatToStringOfStringToNat(t[..k]);
    assert t == t[..k] + t[k..];
  }

  /** "<s>초" reads back as s. */
  lemma ParseSecondsForm(n: nat)
    requires n < 60
    ensures ParseTime(NatToString(n) + "초") == Some(n)
  {
    ReadNumberThen(n, "초");
  }

  /** "<m>분" reads back as m minutes. */
  lemma ParseMinutesForm(m: nat)
    requires m >= 1
    ensures ParseTime(NatToString(m) + "분") == Some(m * 60)
  {
    ReadNumberThen(m, "분");
  }

  /** "<m>분 <s>초" reads back as m minutes and s seconds. */
  lemma ParseMinutesSecondsForm(m: nat, n: nat)
    requires m >= 1 && 1 <= n < 60
    ensures ParseTime(NatToString(m) + "분 " + NatToString(n) + "초") == Some(m * 60 + n)
  {
    var tail := NatToString(n) + "초";
    var rest := "분 " + tail;
    assert NatToString(m) + "분 " + NatToString(n) + "초" == NatToString(m) + rest;
    ReadNumberThen(m, rest);
    assert rest[2..] == tail;
    assert rest[..2] == "분 ";
    ReadNumberThen(n, "초");
  }

  /** `formatTime` loses nothing: its text reads back as the same number of seconds. */
  lemma FormatTimeRoundTrip(seconds: nat)
    ensures ParseTime(FormatTime(seconds)) == Some(seconds)
  {
    if seconds < 60 {
      ParseSecondsForm(seconds);
    } else if seconds % 60 > 0 {
      ParseMinutesSecondsForm(seconds / 60, seconds % 60);
    } else {
      ParseMinutesForm(seconds / 60);
    }
  }

  /** A canonical digit string with a non-zero first digit denotes a positive number. */
  lemma {:induction false} LeadingNonZeroIsPositive(d: string)
    requires |d| >= 1 && AllDigits(d) && d[0] != '0'
    ensures StringToNat(d) >= 1
    decreases |d|
  {
    if |d| > 1 {
      LeadingNonZeroIsPositive(d[..|d| - 1]);
    }
  }

  /** The canonical decimal text of a number is the only one: writing the value of a canonical
      digit string gives that string back. */
  lemma {:induction false} NatToStringOfStringToNat(d: string)
    requires Canonical(d)
    ensures NatToString(StringToNat(d)) == d
    decreases |d|
  {
    if |d| > 1 {
      var front := d[..|d| - 1];
      LeadingNonZeroIsPositive(front);
      NatToStringOfStringToNat(front);
      assert d == front + [d[|d| - 1]];
    }
  }

  /** A whole number of minutes is written "<m>분". */
  lemma FormatMinutesForm(m: nat)
    requires m >= 1
    ensures FormatTime(m * 60) == NatToString(m) + "분"
  {
    assert (m * 60) / 60 == m && (m * 60) % 60 == 0;
  }

  /** Minutes with 1 to 59 leftover seconds are written "<m>분 <s>초". */
  lemma FormatMinutesSecondsForm(m: nat, n: nat)
    requires m >= 1 && 1 <= n < 60
    ensures FormatTime(m * 60 + n) == NatToString(m) + "분 " + NatToString(n) + "초"
  {
    assert (m * 60 + n) / 60 == m && (m * 60 + n) % 60 == n;
  }

  /** A "<m>분 <s>초" text that `ParseTime` accepts is the text `FormatTime` writes. */
  lemma ParsedMinutesSecondsForm(m: nat, tail: string, seconds: nat)
    requires ParseSecondsPart(m, tail) == Some(seconds)
    ensures NatToString(m) + ("분 " + tail) == FormatTime(seconds)
  {
    var (secs, after) := ReadNumber(tail).value;
    ReadNumberOnlyCanonical(tail, secs, after);
    FormatMinutesSecondsForm(m, secs);
    assert NatToString(m) + ("분 " + (NatToString(secs) + "초"))
      == NatToString(m) + "분 " + NatToString(secs) + "초";
  }

  /** The converse of the round trip: `ParseTime` accepts nothing but the texts `FormatTime`
      writes, so a text read as `seconds` is exactly `formatTime(seconds)`. */
  lemma ParseTimeOnlyCanonical(t: string, seconds: nat)
    requires ParseTime(t) == Some(seconds)
    ensures t == FormatTime(seconds)
  {
    var (value, rest) := ReadNumber(t).value;
    ReadNumberOnlyCanonical(t, value, rest);
    if rest == "초" {
      assert seconds == value < 60;
    } else if rest == "분" {
      assert seconds == value * 60 && value >= 1;
      FormatMinutesForm(value);
    } else {
      assert rest == "분 " + rest[2..];
      ParsedMinutesSecondsForm(value, rest[2..], seconds);
    }
  }
}
