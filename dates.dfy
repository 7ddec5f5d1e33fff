/** Calendar dates as Python's `datetime.date` handles them: the proleptic
    Gregorian calendar for years 1 to 9999, `strptime(s, "%Y-%m-%d")`,
    `strftime("%Y-%m-%d")`, `replace(month=...)` and one-day steps. */
module Dates {
  import opened Wrappers
  import opened Text

  datatype Date = Date(year: int, month: int, day: int)

  predicate IsLeap(y: int) {
    y % 4 == 0 && (y % 100 != 0 || y % 400 == 0)
  }

  function DaysInMonth(y: int, m: int): (n: int)
    requires 1 <= m <= 12
    ensures 28 <= n <= 31
  {
    if m == 2 then (if IsLeap(y) then 29 else 28)
    else if m == 4 || m == 6 || m == 9 || m == 11 then 30
    else 31
  }

  /** The dates `datetime.date` can represent. */
  predicate Valid(d: Date) {
    1 <= d.year <= 9999 && 1 <= d.month <= 12 && 1 <= d.day <= DaysInMonth(d.year, d.month)
  }

  /** Chronological order: `a < b` on `datetime.date`. */
  predicate Before(a: Date, b: Date) {
    a.year < b.year
    || (a.year == b.year && a.month < b.month)
    || (a.year == b.year && a.month == b.month && a.day < b.day)
  }

  // ---------------------------------------------------------------------------
  // strptime(s, "%Y-%m-%d")

  /** The `%m` directive: `1[0-2]|0[1-9]|[1-9]`. */
  function MonthField(p: string): (r: Option<int>)
    ensures r.Some? ==> 1 <= r.value <= 12
  {
    if |p| == 1 && '1' <= p[0] <= '9' then Some(DigitValue(p[0]))
    else if |p| == 2 && p[0] == '0' && '1' <= p[1] <= '9' then Some(DigitValue(p[1]))
    else if |p| == 2 && p[0] == '1' && '0' <= p[1] <= '2' then Some(10 + DigitValue(p[1]))
    else None
  }

  /** The `%d` directive: `3[01]|[12]\d|0[1-9]|[1-9]| [1-9]`. */
  function DayField(p: string): (r: Option<int>)
    ensures r.Some? ==> 1 <= r.value <= 31
  {
    if |p| == 1 && '1' <= p[0] <= '9' then Some(DigitValue(p[0]))
    else if |p| == 2 && (p[0] == '0' || p[0] == ' ') && '1' <= p[1] <= '9' then Some(DigitValue(p[1]))
    else if |p| == 2 && (p[0] == '1' || p[0] == '2') && IsDigit(p[1]) then Some(10 * DigitValue(p[0]) + DigitValue(p[1]))
    else if |p| == 2 && p[0] == '3' && (p[1] == '0' || p[1] == '1') then Some(30 + DigitValue(p[1]))
    else None
  }

  /** Index of the first `-` in `s`, or `|s|`. */
  function DashAt(s: string): (n: nat)
    ensures n <= |s| && (n < |s| ==> s[n] == '-')
    ensures forall i :: 0 <= i < n ==> s[i] != '-'
  {
    if s == [] || s[0] == '-' then 0 else 1 + DashAt(s[1..])
  }

  /** `datetime.strptime(s, "%Y-%m-%d").date()`, or None where Python raises
      `ValueError` (text not of that shape, or a day the month lacks). */
  function ParseIso(s: string): (r: Option<Date>)
    ensures r.Some? ==> Valid(r.value)
  {
    if |s| < 5 || !AllDigits(s[..4]) || s[4] != '-' then None
    else
      var rest := s[5..];
      var k := DashAt(rest);
      if k == |rest| then None
      else
        var y := NatValue(s[..4]);
        match (MonthField(rest[..k]), DayField(rest[k + 1..]))
        case (Some(m), Some(d)) =>
          if 1 <= y && d <= DaysInMonth(y, m) then Some(Date(y, m, d)) else None
        case _ => None
  }

  // ---------------------------------------------------------------------------
  // strftime("%Y-%m-%d")

  function Pad2(n: nat): (s: string)
    requires n < 100
    ensures |s| == 2 && AllDigits(s) && NatValue(s) == n
  {
    var s := [DigitChar(n / 10), DigitChar(n % 10)];
    assert s[..1] == [s[0]];
    assert NatValue(s[..1]) == n / 10 by { assert s[..1][..0] == []; }
    s
  }

  function Pad4(n: nat): (s: string)
    requires n < 10000
    ensures |s| == 4 && AllDigits(s) && NatValue(s) == n
  {
    var s := [DigitChar(n / 1000), DigitChar(n / 100 % 10), DigitChar(n / 10 % 10), DigitChar(n % 10)];
    assert s[..3][..2][..1] == [s[0]];
    assert s[..3][..2] == [s[0], s[1]];
    assert s[..3] == [s[0], s[1], s[2]];
    assert NatValue([s[0]]) == n / 1000 by { assert [s[0]][..0] == []; }
    assert NatValue([s[0], s[1]]) == n / 100 by { assert [s[0], s[1]][..1] == [s[0]]; }
    assert NatValue([s[0], s[1], s[2]]) == n / 10 by { assert [s[0], s[1], s[2]][..2] == [s[0], s[1]]; }
    s
  }

  /** `d.strftime("%Y-%m-%d")`: zero-padded to four, two and two digits. */
  function FormatIso(d: Date): (s: string)
    requires Valid(d)
    ensures |s| == 10
  {
    Pad4(d.year) + "-" + Pad2(d.month) + "-" + Pad2(d.day)
  }

  /** Reading back what `strftime` wrote gives the same date. */
  lemma ParseFormatIso(d: Date)
    requires Valid(d)
    ensures ParseIso(FormatIso(d)) == Some(d)
  {
    var s := FormatIso(d);
    var y, m, dd := Pad4(d.year), Pad2(d.month), Pad2(d.day);
    assert s == y + "-" + m + "-" + dd;
    assert s[..4] == y;
    assert s[4] == '-';
    var rest := s[5..];
    assert rest == m + "-" + dd;
    assert DashAt(rest) == 2 by {
      assert rest[0] != '-' && rest[1] != '-' && rest[2] == '-';
      assert rest[1..][1..] == rest[2..];
    }
    assert rest[..2] == m;
    assert rest[3..] == dd;
    Pad2Digits(d.month);
    Pad2Digits(d.day);
    MonthFieldOfPad2(d.month);
    DayFieldOfPad2(d.day);
  }

  /** The two digits Pad2 writes. */
  lemma Pad2Digits(n: nat)
    requires n < 100
    ensures NatValue(Pad2(n)) == 10 * DigitValue(Pad2(n)[0]) + DigitValue(Pad2(n)[1])
  {
    var s := Pad2(n);
    assert s[..1] == [s[0]];
  }

  /** `%m` reads back a month Pad2 wrote. */
  lemma MonthFieldOfPad2(m: int)
    requires 1 <= m <= 12
    ensures MonthField(Pad2(m)) == Some(m)
  {
    Pad2Digits(m);
  }

  /** `%d` reads back a day Pad2 wrote. */
  lemma DayFieldOfPad2(d: int)
    requires 1 <= d <= 31
    ensures DayField(Pad2(d)) == Some(d)
  {
    Pad2Digits(d);
  }

  // ---------------------------------------------------------------------------
  // One calendar month later: the rollover's `replace(month=...)`

  /** Months counted from year 0, so that consecutive months differ by one. */
  function MonthIndex(d: Date): int {
    12 * d.year + d.month - 1
  }

  /** The date with the given month index and day. */
  function FromMonthIndex(k: int, day: int): Date {
    Date(k / 12, k % 12 + 1, day)
  }

  /** `d.replace(month=d.month+1)` for months before December and
      `d.replace(year=d.year+1, month=1)` for December; None where Python
      raises `ValueError` (the target month lacks the day, or year 10000). */
  function NextMonth(d: Date): (r: Option<Date>)
    requires Valid(d)
    ensures r.Some? ==> Valid(r.value)
  {
    if d.month < 12 then
      (if d.day <= DaysInMonth(d.year, d.month + 1) then Some(Date(d.year, d.month + 1, d.day)) else None)
    else
      (if d.year + 1 <= 9999 then Some(Date(d.year + 1, 1, d.day)) else None)
  }

  /** The month advance is the next month index with the same day, and it
      fails exactly when that date does not exist. */
  lemma NextMonthByIndex(d: Date)
    requires Valid(d)
    ensures var e := FromMonthIndex(MonthIndex(d) + 1, d.day);
            NextMonth(d) == if Valid(e) then Some(e) else None
  {
    var k := MonthIndex(d) + 1;
    if d.month < 12 {
      assert k == 12 * d.year + d.month;
      assert k / 12 == d.year && k % 12 == d.month;
    } else {
      assert k == 12 * (d.year + 1);
      assert k / 12 == d.year + 1 && k % 12 == 0;
    }
  }

  /** A rollover always moves forward in time. */
  lemma NextMonthIsLater(d: Date)
    requires Valid(d) && NextMonth(d).Some?
    ensures Before(d, NextMonth(d).value)
  {
  }

  // ---------------------------------------------------------------------------
  // One day back and one day forward

  /** `d - timedelta(days=1)`. */
  function PrevDay(d: Date): (r: Date)
    requires Valid(d) && d.year > 1
    ensures Valid(r) && Before(r, d) && r.year >= d.year - 1
  {
    if d.day > 1 then Date(d.year, d.month, d.day - 1)
    else if d.month > 1 then Date(d.year, d.month - 1, DaysInMonth(d.year, d.month - 1))
    else Date(d.year - 1, 12, 31)
  }

  /** `d + timedelta(days=1)`, the partner of PrevDay. */
  function NextDay(d: Date): Date
    requires Valid(d)
  {
    if d.day < DaysInMonth(d.year, d.month) then Date(d.year, d.month, d.day + 1)
    else if d.month < 12 then Date(d.year, d.month + 1, 1)
    else Date(d.year + 1, 1, 1)
  }

  /** PrevDay undoes NextDay: it steps back exactly one day. */
  lemma NextDayOfPrevDay(d: Date)
    requires Valid(d) && d.year > 1
    ensures NextDay(PrevDay(d)) == d
  {
  }

  /** `d` moved `k` days back. */
  function DaysBack(d: Date, k: nat): (r: Date)
    requires Valid(d) && d.year > k
    ensures Valid(r) && r.year >= d.year - k
    ensures k > 0 ==> Before(r, d)
  {
    if k == 0 then d
    else
      var p := DaysBack(d, k - 1);
      PrevDay(p)
  }

  lemma BeforeTransitive(a: Date, b: Date, c: Date)
    requires Before(a, b) && Before(b, c)
    ensures Before(a, c)
  {
  }

  /** Going further back gives a strictly earlier date. */
  lemma {:induction false} DaysBackMonotone(d: Date, j: nat, k: nat)
    requires Valid(d) && d.year > k && j < k
    ensures Before(DaysBack(d, k), DaysBack(d, j))
    decreases k
  {
    if j < k - 1 {
      DaysBackMonotone(d, j, k - 1);
      BeforeTransitive(DaysBack(d, k), DaysBack(d, k - 1), DaysBack(d, j));
    }
  }
}
