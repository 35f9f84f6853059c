/**
 * `datetime.strptime` with the formats "%Y-%m-%d" and "%H:%M", on the canonical
 * zero-padded shapes `YYYY-MM-DD` and `HH:MM`.
 */
module Calendar {
  import opened Results
  import opened Text

  datatype Date = Date(year: nat, month: nat, day: nat)

  /** Gregorian leap years, as `datetime` counts them. */
  predicate IsLeapYear(y: nat) {
    y % 4 == 0 && (y % 100 != 0 || y % 400 == 0)
  }

  function DaysInMonth(y: nat, m: nat): nat
    requires 1 <= m <= 12
  {
    if m == 2 then (if IsLeapYear(y) then 29 else 28)
    else if m == 4 || m == 6 || m == 9 || m == 11 then 30
    else 31
  }

  /** The dates `datetime` can represent: years 1 to 9999, real calendar days. */
  predicate ValidDate(d: Date) {
    1 <= d.year <= 9999 && 1 <= d.month <= 12 && 1 <= d.day <= DaysInMonth(d.year, d.month)
  }

  /** Four digits, a dash, two digits, a dash, two digits. */
  predicate DateShape(s: string) {
    && |s| == 10 && s[4] == '-' && s[7] == '-'
    && IsDigit(s[0]) && IsDigit(s[1]) && IsDigit(s[2]) && IsDigit(s[3])
    && IsDigit(s[5]) && IsDigit(s[6]) && IsDigit(s[8]) && IsDigit(s[9])
  }

  /** `strptime(s, "%Y-%m-%d")`, with `None` where it raises `ValueError`. */
  function ParseDate(s: string): (r: Option<Date>)
    ensures r.Some? ==> ValidDate(r.value) && DateShape(s)
  {
    if DateShape(s) then
      var d := Date(100 * TwoDigitValue(s[0], s[1]) + TwoDigitValue(s[2], s[3]),
                    TwoDigitValue(s[5], s[6]),
                    TwoDigitValue(s[8], s[9]));
      if ValidDate(d) then Some(d) else None
    else
      None
  }

  function FormatDate(d: Date): string
    requires d.year < 10000 && d.month < 100 && d.day < 100
  {
    TwoDigitText(d.year / 100) + TwoDigitText(d.year % 100) + "-" + TwoDigitText(d.month) + "-" + TwoDigitText(d.day)
  }

  /** A date written as `YYYY-MM-DD` is accepted exactly when it is a real calendar date, and read back unchanged. */
  lemma DateRoundTrip(d: Date)
    requires d.year < 10000 && d.month < 100 && d.day < 100
    ensures ParseDate(FormatDate(d)) == if ValidDate(d) then Some(d) else None
  {
    TwoDigitRoundTrip(d.year / 100);
    TwoDigitRoundTrip(d.year % 100);
    TwoDigitRoundTrip(d.month);
    TwoDigitRoundTrip(d.day);
  }

  /** February 29th parses exactly in leap years. */
  lemma LeapDay(y: nat)
    requires 1 <= y <= 9999
    ensures ParseDate(FormatDate(Date(y, 2, 29))).Some? <==> IsLeapYear(y)
  {
    DateRoundTrip(Date(y, 2, 29));
  }

  /** Two digits, a colon, two digits. */
  predicate TimeShape(s: string) {
    |s| == 5 && s[2] == ':' && IsDigit(s[0]) && IsDigit(s[1]) && IsDigit(s[3]) && IsDigit(s[4])
  }

  /** `strptime(s, "%H:%M")` as minutes since midnight, with `None` where it raises `ValueError`. */
  function ParseTime(s: string): (r: Option<nat>)
    ensures r.Some? ==> r.value < 24 * 60 && TimeShape(s)
  {
    if TimeShape(s) then
      var h := TwoDigitValue(s[0], s[1]);
      var m := TwoDigitValue(s[3], s[4]);
      if h < 24 && m < 60 then Some(h * 60 + m) else None
    else
      None
  }

  function FormatTime(h: nat, m: nat): string
    requires h < 100 && m < 100
  {
    TwoDigitText(h) + ":" + TwoDigitText(m)
  }

  /** `HH:MM` is accepted exactly for a real time of day, and denotes `60 * HH + MM` minutes. */
  lemma TimeRoundTrip(h: nat, m: nat)
    requires h < 100 && m < 100
    ensures ParseTime(FormatTime(h, m)) == if h < 24 && m < 60 then Some(h * 60 + m) else None
  {
    TwoDigitRoundTrip(h);
    TwoDigitRoundTrip(m);
  }
}
