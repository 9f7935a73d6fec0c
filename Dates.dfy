/**
 * Calendar dates as the parser sees them: `chrono::NaiveDate` read with the
 * format `%Y-%m-%d` and written back by its `Display` (`YYYY-MM-DD`).
 */
module Dates {
  import opened Wrappers

  datatype CalendarDate = CalendarDate(year: int, month: int, day: int)

  predicate IsLeapYear(y: int) {
    (y % 4 == 0 && y % 100 != 0) || y % 400 == 0
  }

  function DaysInMonth(y: int, m: int): int {
    if m == 2 then (if IsLeapYear(y) then 29 else 28)
    else if m == 4 || m == 6 || m == 9 || m == 11 then 30
    else 31
  }

  /** A proleptic Gregorian date whose year is written with at most four digits. */
  predicate IsValid(d: CalendarDate) {
    0 <= d.year <= 9999 && 1 <= d.month <= 12 && 1 <= d.day <= DaysInMonth(d.year, d.month)
  }

  type Date = d: CalendarDate | IsValid(d) witness CalendarDate(1970, 1, 1)

  /** chrono's `Ord` on dates: chronological, i.e. by year, then month, then day. */
  predicate DateLess(a: Date, b: Date) {
    a.year < b.year
    || (a.year == b.year && (a.month < b.month || (a.month == b.month && a.day < b.day)))
  }

  predicate IsDigit(c: char) {
    '0' <= c <= '9'
  }

  function DigitChar(n: int): char
    requires 0 <= n < 10
  {
    ('0' as int + n) as char
  }

  /** Length of the leading run of ASCII digits. */
  function LeadingDigits(s: string): (n: nat)
    ensures n <= |s|
    ensures forall i :: 0 <= i < n ==> IsDigit(s[i])
    ensures n < |s| ==> !IsDigit(s[n])
  {
    if s == [] || !IsDigit(s[0]) then 0 else 1 + LeadingDigits(s[1..])
  }

  /** The number a string of decimal digits denotes. */
  function DigitsValue(s: string): int
    requires forall i :: 0 <= i < |s| ==> IsDigit(s[i])
  {
    if s == [] then 0
    else DigitsValue(s[..|s| - 1]) * 10 + (s[|s| - 1] as int - '0' as int)
  }

  /**
   * `NaiveDate::parse_from_str(s, "%Y-%m-%d")` on one token: a year of one to
   * four digits, a month and a day of one or two digits each, separated by `-`,
   * with nothing after the day, naming a day of the calendar.
   */
  function ParseDate(s: string): (r: Option<Date>)
    ensures r.Some? ==> |s| <= 10 && '-' in s
  {
    var yl := LeadingDigits(s);
    if !(1 <= yl <= 4 && yl < |s| && s[yl] == '-') then None
    else
      var r1 := s[yl + 1..];
      var ml := LeadingDigits(r1);
      if !(1 <= ml <= 2 && ml < |r1| && r1[ml] == '-') then None
      else
        var r2 := r1[ml + 1..];
        var dl := LeadingDigits(r2);
        if !(1 <= dl <= 2 && dl == |r2|) then None
        else
          var d := CalendarDate(DigitsValue(s[..yl]), DigitsValue(r1[..ml]), DigitsValue(r2));
          if IsValid(d) then Some(d) else None
  }

  function Pad2(n: int): (s: string)
    requires 0 <= n < 100
  {
    [DigitChar(n / 10), DigitChar(n % 10)]
  }

  function Pad4(n: int): (s: string)
    requires 0 <= n < 10000
  {
    Pad2(n / 100) + Pad2(n % 100)
  }

  /** chrono's `Display` for a date: the year zero-padded to four digits, month and day to two. */
  function FormatDate(d: Date): string {
    Pad4(d.year) + "-" + Pad2(d.month) + "-" + Pad2(d.day)
  }

  lemma {:induction false} LeadingDigitsOf(digits: string, rest: string)
    requires forall i :: 0 <= i < |digits| ==> IsDigit(digits[i])
    requires rest == [] || !IsDigit(rest[0])
    ensures LeadingDigits(digits + rest) == |digits|
  {
    if digits == [] {
      assert digits + rest == rest;
    } else {
      assert (digits + rest)[1..] == digits[1..] + rest;
      LeadingDigitsOf(digits[1..], rest);
    }
  }

  lemma Pad2Value(n: int)
    requires 0 <= n < 100
    ensures DigitsValue(Pad2(n)) == n
  {
    var s := Pad2(n);
    assert s[..1][..0] == [];
    assert s[..1] == [s[0]];
    assert s[0] as int - '0' as int == n / 10;
    assert s[1] as int - '0' as int == n % 10;
    assert DigitsValue(s[..1]) == n / 10;
    assert s[..|s| - 1] == s[..1];
  }

  lemma DigitsValueSnoc(x: string, c: char)
    requires forall i :: 0 <= i < |x| ==> IsDigit(x[i])
    requires IsDigit(c)
    ensures DigitsValue(x + [c]) == DigitsValue(x) * 10 + (c as int - '0' as int)
  {
    assert (x + [c])[..|x|] == x;
  }

  lemma DigitsValueAppend2(x: string, y: string)
    requires forall i :: 0 <= i < |x| ==> IsDigit(x[i])
    requires forall i :: 0 <= i < |y| ==> IsDigit(y[i])
    requires |y| == 2
    ensures DigitsValue(x + y) == DigitsValue(x) * 100 + DigitsValue(y)
  {
    var v := DigitsValue(x);
    var c0, c1 := y[0] as int - '0' as int, y[1] as int - '0' as int;
    var x0 := x + [y[0]];
    DigitsValueSnoc(x, y[0]);
    assert x + y == x0 + [y[1]];
    DigitsValueSnoc(x0, y[1]);
    DigitsValueSnoc([], y[0]);
    assert [] + [y[0]] == [y[0]];
    assert [y[0]] + [y[1]] == y;
    DigitsValueSnoc([y[0]], y[1]);
    assert (v * 10 + c0) * 10 + c1 == v * 100 + (c0 * 10 + c1);
  }

  lemma Pad4Value(n: int)
    requires 0 <= n < 10000
    ensures DigitsValue(Pad4(n)) == n
  {
    Pad2Value(n / 100);
    Pad2Value(n % 100);
    DigitsValueAppend2(Pad2(n / 100), Pad2(n % 100));
  }

  /** Reading back a written date gives the same date. */
  lemma ParseFormat(d: Date)
    ensures ParseDate(FormatDate(d)) == Some(d)
  {
    var y, m, dd := Pad4(d.year), Pad2(d.month), Pad2(d.day);
    var s := FormatDate(d);
    assert s == y + ("-" + m + "-" + dd);
    LeadingDigitsOf(y, "-" + m + "-" + dd);
    var r1 := s[5..];
    assert r1 == m + ("-" + dd);
    LeadingDigitsOf(m, "-" + dd);
    var r2 := r1[3..];
    assert r2 == dd;
    LeadingDigitsOf(dd, "");
    assert dd + "" == dd;
    assert s[..4] == y;
    assert r1[..2] == m;
    Pad4Value(d.year);
    Pad2Value(d.month);
    Pad2Value(d.day);
  }

  /** A written date is ten characters with no whitespace. */
  lemma FormatShape(d: Date)
    ensures |FormatDate(d)| == 10
    ensures forall i :: 0 <= i < 10 ==> FormatDate(d)[i] == '-' || IsDigit(FormatDate(d)[i])
  {
  }
}
