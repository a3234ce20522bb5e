/**
 * The iCalendar DATE-TIME form (section 3.3.5 of RFC 5545) as the scrapers
 * read it, with `datetime.strptime(value, "%Y%m%dT%H%M%S")`, and the
 * `strftime` renderings they produce from it.
 */
module Stamps {
  import opened Text

  function DigitValue(c: char): nat
    requires IsDigit(c)
  {
    c as int - '0' as int
  }

  /** The value of a decimal digit string. */
  function Num(s: string): nat
    requires AllDigits(s)
  {
    if s == [] then 0 else Num(s[..|s| - 1]) * 10 + DigitValue(s[|s| - 1])
  }

  predicate IsLeapYear(y: nat) {
    y % 4 == 0 && (y % 100 != 0 || y % 400 == 0)
  }

  function DaysInMonth(y: nat, m: nat): nat
    requires 1 <= m <= 12
  {
    if m == 2 then (if IsLeapYear(y) then 29 else 28)
    else if m == 4 || m == 6 || m == 9 || m == 11 then 30
    else 31
  }

  /**
   * The 15-character stamps `YYYYmmddTHHMMSS` that `strptime` accepts: a
   * year from 1, a real day of a real month, and a time of day with seconds
   * below 60 (the `datetime` constructor rejects a leap second).
   */
  predicate IsStamp(v: string) {
    && |v| == 15
    && (forall i :: 0 <= i < 15 && i != 8 ==> IsDigit(v[i])) && v[8] == 'T'
    && var year, month, day := Num(v[..4]), Num(v[4..6]), Num(v[6..8]);
    && var hour, minute, second := Num(v[9..11]), Num(v[11..13]), Num(v[13..]);
    && 1 <= year && 1 <= month <= 12 && 1 <= day <= DaysInMonth(year, month)
    && hour < 24 && minute < 60 && second < 60
  }

  /** `strftime("%Y-%m-%d")`. */
  function DateOf(v: string): (r: string)
    requires IsStamp(v)
    ensures |r| == 10 && r[4] == '-' && r[7] == '-'
    ensures AllDigits(r[..4]) && AllDigits(r[5..7]) && AllDigits(r[8..])
  {
    var r := v[..4] + "-" + v[4..6] + "-" + v[6..8];
    assert r[..4] == v[..4] && r[5..7] == v[4..6] && r[8..] == v[6..8];
    r
  }

  /** `strftime("%H:%M")`. */
  function HourMinute(v: string): (r: string)
    requires IsStamp(v)
    ensures |r| == 5 && r[2] == ':' && AllDigits(r[..2]) && AllDigits(r[3..])
  {
    assert IsDigit(v[9]) && IsDigit(v[10]) && IsDigit(v[11]) && IsDigit(v[12]);
    var r := v[9..11] + ":" + v[11..13];
    assert r[..2] == v[9..11] && r[3..] == v[11..13];
    r
  }

  /** `strftime("%H:%M:%S")`. */
  function HourMinuteSecond(v: string): (r: string)
    requires IsStamp(v)
    ensures |r| == 8 && r[..5] == HourMinute(v) && r[5] == ':'
  {
    HourMinute(v) + ":" + v[13..]
  }

  /** The renderings lose nothing: the stamp is their digits run together. */
  lemma StampFromRenderings(v: string)
    requires IsStamp(v)
    ensures var d, t := DateOf(v), HourMinuteSecond(v);
      v == d[..4] + d[5..7] + d[8..] + "T" + t[..2] + t[3..5] + t[6..]
  {
    var d, t := DateOf(v), HourMinuteSecond(v);
    assert d[..4] == v[..4] && d[5..7] == v[4..6] && d[8..] == v[6..8];
    assert t[..2] == v[9..11] && t[3..5] == v[11..13] && t[6..] == v[13..];
    assert v == v[..4] + v[4..6] + v[6..8] + "T" + v[9..11] + v[11..13] + v[13..];
  }
}
