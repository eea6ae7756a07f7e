/** The part of JavaScript's `Date` that the asset code relies on, in UTC: reading an ISO
    `YYYY-MM-DD` string, `setFullYear`, `toISOString().split('T')[0]`, and comparing instants. */
module IsoDate {
  import opened Results

  /** A proleptic Gregorian calendar date. */
  datatype Date = Date(year: int, month: int, day: int)

  predicate IsLeapYear(y: int) {
    y % 4 == 0 && (y % 100 != 0 || y % 400 == 0)
  }

  function DaysInMonth(y: int, m: int): int {
    if m == 2 then (if IsLeapYear(y) then 29 else 28)
    else if m == 4 || m == 6 || m == 9 || m == 11 then 30
    else 31
  }

  /** A day that exists in the calendar; every `Date` object denotes one. */
  predicate ValidDate(d: Date) {
    1 <= d.month <= 12 && 1 <= d.day <= DaysInMonth(d.year, d.month)
  }

  /** Chronological order of calendar dates. */
  predicate Before(a: Date, b: Date) {
    a.year < b.year ||
    (a.year == b.year && (a.month < b.month || (a.month == b.month && a.day < b.day)))
  }

  /** A point in time: a UTC calendar date and the milliseconds elapsed since its midnight. */
  datatype Instant = Instant(date: Date, millis: int)

  const MillisPerDay := 86_400_000

  predicate ValidInstant(t: Instant) {
    ValidDate(t.date) && 0 <= t.millis < MillisPerDay
  }

  /** `a < b` on two `Date` objects: `a` is the earlier instant. */
  predicate InstantBefore(a: Instant, b: Instant) {
    Before(a.date, b.date) || (a.date == b.date && a.millis < b.millis)
  }

  /** `d.setFullYear(y)`: keep month and day; a 29 February that does not exist in year `y`
      overflows into the next day, 1 March. */
  function SetFullYear(d: Date, y: int): (r: Date)
    requires ValidDate(d)
    ensures ValidDate(r) && r.year == y
    // The day of the month is kept when it exists in year `y`; otherwise the days past the
    // end of the month carry over into the next month.
    ensures d.day <= DaysInMonth(y, d.month) ==> r.month == d.month && r.day == d.day
    ensures d.day > DaysInMonth(y, d.month) ==>
      r.month == d.month + 1 && r.day == d.day - DaysInMonth(y, d.month)
  {
    if d.month == 2 && d.day == 29 && !IsLeapYear(y) then Date(y, 3, 1)
    else Date(y, d.month, d.day)
  }

  predicate IsDigit(c: char) {
    '0' <= c <= '9'
  }

  function DigitValue(c: char): int
    requires IsDigit(c)
  {
    c as int - '0' as int
  }

  function DigitChar(n: int): char
    requires 0 <= n <= 9
  {
    ('0' as int + n) as char
  }

  /** The value of two decimal digits. */
  function Value2(hi: char, lo: char): int
    requires IsDigit(hi) && IsDigit(lo)
  {
    10 * DigitValue(hi) + DigitValue(lo)
  }

  /** Two decimal digits with a leading zero. */
  function Digits2(n: int): string
    requires 0 <= n <= 99
  {
    [DigitChar(n / 10), DigitChar(n % 10)]
  }

  /** Four decimal digits with leading zeros. */
  function Digits4(n: int): string
    requires 0 <= n <= 9999
  {
    Digits2(n / 100) + Digits2(n % 100)
  }

  /** A valid date whose year `toISOString` writes with four digits. */
  predicate Formattable(d: Date) {
    ValidDate(d) && 0 <= d.year <= 9999
  }

  /** `toISOString().split('T')[0]` of a date at midnight UTC. */
  function Format(d: Date): (s: string)
    requires Formattable(d)
    ensures |s| == 10 && s[4] == '-' && s[7] == '-'
  {
    Digits4(d.year) + "-" + Digits2(d.month) + "-" + Digits2(d.day)
  }

  /** `s` has the shape `DDDD-DD-DD`. */
  predicate IsoShaped(s: string) {
    |s| == 10 && s[4] == '-' && s[7] == '-' &&
    IsDigit(s[0]) && IsDigit(s[1]) && IsDigit(s[2]) && IsDigit(s[3]) &&
    IsDigit(s[5]) && IsDigit(s[6]) && IsDigit(s[8]) && IsDigit(s[9])
  }

  /** `new Date(s)` for a date-only ISO string: the date it denotes, or `None` for an
      Invalid Date. */
  function Parse(s: string): (r: Option<Date>)
    ensures r.Some? ==> Formattable(r.value)
    ensures r.Some? ==> IsoShaped(s)
  {
    if !IsoShaped(s) then None
    else
      var d := Date(100 * Value2(s[0], s[1]) + Value2(s[2], s[3]), Value2(s[5], s[6]), Value2(s[8], s[9]));
      if ValidDate(d) then Some(d) else None
  }

  lemma Digits2Value(n: int)
    requires 0 <= n <= 99
    ensures IsDigit(Digits2(n)[0]) && IsDigit(Digits2(n)[1])
    ensures Value2(Digits2(n)[0], Digits2(n)[1]) == n
  {
  }

  lemma Digits2OfValue(hi: char, lo: char)
    requires IsDigit(hi) && IsDigit(lo)
    ensures Digits2(Value2(hi, lo)) == [hi, lo]
  {
  }

  /** Reading back a formatted date gives the same date. */
  lemma {:induction false} ParseFormat(d: Date)
    requires Formattable(d)
    ensures Parse(Format(d)) == Some(d)
  {
    var s := Format(d);
    Digits2Value(d.year / 100);
    Digits2Value(d.year % 100);
    Digits2Value(d.month);
    Digits2Value(d.day);
    assert s[0..2] == Digits2(d.year / 100) && s[2..4] == Digits2(d.year % 100);
    assert s[5..7] == Digits2(d.month) && s[8..10] == Digits2(d.day);
    assert IsoShaped(s);
  }

  /** Every string `Parse` accepts is already in the form `Format` writes. */
  lemma {:induction false} FormatParse(s: string)
    requires Parse(s).Some?
    ensures Format(Parse(s).value) == s
  {
    var d := Parse(s).value;
    var c, y := Value2(s[0], s[1]), Value2(s[2], s[3]);
    assert d.year / 100 == c && d.year % 100 == y;
    Digits2OfValue(s[0], s[1]);
    Digits2OfValue(s[2], s[3]);
    Digits2OfValue(s[5], s[6]);
    Digits2OfValue(s[8], s[9]);
    assert Format(d) == [s[0], s[1]] + [s[2], s[3]] + "-" + [s[5], s[6]] + "-" + [s[8], s[9]];
  }
}
