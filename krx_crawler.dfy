/** The KRX foreign-holding figure: search back from the latest closed
    trading day for a date with usable market data, then sum the foreign
    shares' value and the market capitalisation over the tickers both
    tables list. The market data for a date is an input (`market`). */
module KrxCrawler {
  import opened Wrappers
  import opened Dates
  import opened Fields

  /** A row of the market-cap table: the `종가` (close) column, the table's
      first column and the `시가총액` (market cap) column. */
  datatype CapRow = CapRow(close: real, first: real, marketCap: real)

  /** What the market-data library gives for one date: the market-cap table
      by ticker, in index order (empty when the call failed), whether it has
      a `종가` column, the `보유수량` (foreign-held shares) column of the
      foreign table by ticker (empty when that call failed), and whether the
      calculation raises (a column missing, say). */
  datatype DayData = DayData(cap: seq<(string, CapRow)>, hasClose: bool, foreign: map<string, real>, raises: bool)

  /** The figure the crawler returns. */
  datatype Holding = Holding(value: real, percent: Field, date: string, totalCap: real)

  /** `df_cap.index.intersection(df_foreign.index)` with `df_cap.loc[...]`:
      the market-cap rows whose ticker the foreign table also lists. */
  function Common(cap: seq<(string, CapRow)>, foreign: map<string, real>): (rows: seq<(string, CapRow)>)
    ensures forall i :: 0 <= i < |rows| ==> rows[i] in cap && rows[i].0 in foreign
    ensures forall i :: 0 <= i < |cap| && cap[i].0 in foreign ==> cap[i] in rows
    ensures |rows| <= |cap|
  {
    if cap == [] then []
    else (if cap[0].0 in foreign then [cap[0]] else []) + Common(cap[1..], foreign)
  }

  /** The price column: `종가` when the table has it, the first column
      otherwise. */
  function Price(row: CapRow, hasClose: bool): real {
    if hasClose then row.close else row.first
  }

  /** `(foreign_shares * price).sum()` over the common rows. */
  function ForeignCap(rows: seq<(string, CapRow)>, hasClose: bool, foreign: map<string, real>): real
    requires forall i :: 0 <= i < |rows| ==> rows[i].0 in foreign
  {
    if rows == [] then 0.0
    else foreign[rows[0].0] * Price(rows[0].1, hasClose) + ForeignCap(rows[1..], hasClose, foreign)
  }

  /** `df_c['시가총액'].sum()` over the common rows. */
  function TotalCap(rows: seq<(string, CapRow)>): real {
    if rows == [] then 0.0 else rows[0].1.marketCap + TotalCap(rows[1..])
  }

  /** A date the crawler accepts: both tables non-empty, a common ticker,
      no exception, and a non-zero total. */
  predicate Usable(day: DayData) {
    |day.cap| > 0 && |day.foreign| > 0
    && Common(day.cap, day.foreign) != [] && !day.raises
    && TotalCap(Common(day.cap, day.foreign)) != 0.0
  }

  /** `(part / total) * 100`. */
  function Percent(part: real, total: real): (r: real)
    requires total != 0.0
    ensures r * total == part * 100.0
  {
    var q := part / total;
    assert q * total == part;
    assert (q * 100.0) * total == (q * total) * 100.0;
    q * 100.0
  }

  /** The figure for a usable date, written `date`. */
  function HoldingOn(date: string, day: DayData): (h: Holding)
    requires Usable(day)
    ensures h.date == date
    ensures var rows := Common(day.cap, day.foreign);
            h.value == ForeignCap(rows, day.hasClose, day.foreign) && h.totalCap == TotalCap(rows)
            && h.percent.Fmt? && h.percent.spec == Fixed2Pct && h.percent.x * h.totalCap == h.value * 100.0
  {
    var rows := Common(day.cap, day.foreign);
    var foreignCap, total := ForeignCap(rows, day.hasClose, day.foreign), TotalCap(rows);
    var ratio := Percent(foreignCap, total);
    var h := Holding(foreignCap, Fmt("", Fixed2Pct, ratio), date, total);
    assert h.percent.x * h.totalCap == ratio * total;
    h
  }

  /** Where the search starts: the day before before 16:00, when today's
      closing data is not out yet; today from 16:00. */
  function StartDate(today: Date, hour: int): (d: Date)
    requires Valid(today) && today.year > 1
    ensures Valid(d)
    ensures hour < 16 ==> NextDay(d) == today
    ensures hour >= 16 ==> d == today
  {
    if hour < 16 then PrevDay(today) else today
  }

  /** The number of dates the search tries. */
  const Attempts: nat := 7

  /** The dates the search tries, in order: the start and the six days
      before it, each one day earlier than the last. */
  function SearchDates(start: Date): (ds: seq<Date>)
    requires Valid(start) && start.year > Attempts
    ensures |ds| == Attempts
    ensures forall j :: 0 <= j < |ds| ==> ds[j] == DaysBack(start, j) && Valid(ds[j])
  {
    seq(Attempts, j requires 0 <= j < Attempts => DaysBack(start, j))
  }

  predicate AllValid(ds: seq<Date>) {
    forall j :: 0 <= j < |ds| ==> Valid(ds[j])
  }

  /** The search over `ds` from index `i` on: the figure of the first date
      with usable data. */
  function SearchFrom(ds: seq<Date>, market: Date -> DayData, i: nat): Option<Holding>
    requires AllValid(ds) && i <= |ds|
    decreases |ds| - i
  {
    if i == |ds| then None
    else if Usable(market(ds[i])) then Some(HoldingOn(FormatIso(ds[i]), market(ds[i])))
    else SearchFrom(ds, market, i + 1)
  }

  /** `get_foreign_holding_data`, with today's date and hour passed in. */
  method GetForeignHoldingData(today: Date, hour: int, market: Date -> DayData) returns (r: Option<Holding>)
    requires Valid(today) && today.year > Attempts + 1
    ensures r == SearchFrom(SearchDates(StartDate(today, hour)), market, 0)
  {
    var start := StartDate(today, hour);
    ghost var ds := SearchDates(start);
    var searchDate := start;
    var i := 0;
    while i < Attempts
      invariant 0 <= i <= Attempts
      invariant searchDate == DaysBack(start, i)
      invariant SearchFrom(ds, market, i) == SearchFrom(ds, market, 0)
    {
      assert ds[i] == searchDate;
      var day := market(searchDate);
      if Usable(day) {
        return Some(HoldingOn(FormatIso(searchDate), day));
      }
      searchDate := PrevDay(searchDate);
      i := i + 1;
    }
    return None;
  }

  /** The search returns the figure of the first date with usable data. */
  lemma {:induction false} SearchFindsFirstUsable(ds: seq<Date>, market: Date -> DayData, i: nat, k: nat)
    requires AllValid(ds) && i <= k < |ds|
    requires Usable(market(ds[k])) && forall j :: i <= j < k ==> !Usable(market(ds[j]))
    ensures SearchFrom(ds, market, i) == Some(HoldingOn(FormatIso(ds[k]), market(ds[k])))
    decreases k - i
  {
    if i < k {
      assert !Usable(market(ds[i]));
      SearchFindsFirstUsable(ds, market, i + 1, k);
    }
  }

  /** The search returns None exactly when no date has usable data. */
  lemma {:induction false} SearchNoneIffNoneUsable(ds: seq<Date>, market: Date -> DayData, i: nat)
    requires AllValid(ds) && i <= |ds|
    ensures SearchFrom(ds, market, i).None? <==> forall j :: i <= j < |ds| ==> !Usable(market(ds[j]))
    decreases |ds| - i
  {
    if i < |ds| {
      SearchNoneIffNoneUsable(ds, market, i + 1);
    }
  }

  /** The date reported lies within the week searched: at most six days
      before the start and never after it. */
  lemma ReportedDateInWeek(start: Date, k: nat)
    requires Valid(start) && start.year > Attempts && k < Attempts
    ensures DaysBack(start, k) == start || Before(DaysBack(start, k), start)
    ensures DaysBack(start, Attempts - 1) == DaysBack(start, k) || Before(DaysBack(start, Attempts - 1), DaysBack(start, k))
  {
    if k < Attempts - 1 {
      DaysBackMonotone(start, k, Attempts - 1);
    }
  }

  /** Only the tickers both tables list count: a market-cap row without a
      foreign entry changes neither sum. */
  lemma UnmatchedRowIgnored(cap: seq<(string, CapRow)>, row: (string, CapRow), foreign: map<string, real>)
    requires row.0 !in foreign
    ensures Common([row] + cap, foreign) == Common(cap, foreign)
  {
    assert ([row] + cap)[1..] == cap;
  }

  /** No ticker's foreign-held value is negative or exceeds its market cap. */
  predicate WithinCap(rows: seq<(string, CapRow)>, hasClose: bool, foreign: map<string, real>)
    requires forall i :: 0 <= i < |rows| ==> rows[i].0 in foreign
  {
    forall i :: 0 <= i < |rows| ==> 0.0 <= foreign[rows[i].0] * Price(rows[i].1, hasClose) <= rows[i].1.marketCap
  }

  /** Under WithinCap the foreign value is between 0 and the total. */
  lemma {:induction false} SumsBounded(rows: seq<(string, CapRow)>, hasClose: bool, foreign: map<string, real>)
    requires forall i :: 0 <= i < |rows| ==> rows[i].0 in foreign
    requires WithinCap(rows, hasClose, foreign)
    ensures 0.0 <= ForeignCap(rows, hasClose, foreign) <= TotalCap(rows)
  {
    if rows != [] {
      SumsBounded(rows[1..], hasClose, foreign);
    }
  }

  /** With non-negative holdings and caps, and no ticker whose foreign-held
      value exceeds its market cap, the ratio is a percentage between 0 and
      100. */
  lemma RatioIsPercentage(date: string, day: DayData)
    requires Usable(day)
    requires WithinCap(Common(day.cap, day.foreign), day.hasClose, day.foreign)
    ensures 0.0 <= HoldingOn(date, day).percent.x <= 100.0
  {
    var h := HoldingOn(date, day);
    HoldingWithinTotal(date, day);
    RatioBounds(h.percent.x, h.totalCap, h.value);
  }

  /** Under WithinCap the foreign value lies between 0 and a positive total. */
  lemma HoldingWithinTotal(date: string, day: DayData)
    requires Usable(day)
    requires WithinCap(Common(day.cap, day.foreign), day.hasClose, day.foreign)
    ensures var h := HoldingOn(date, day); 0.0 <= h.value <= h.totalCap && h.totalCap > 0.0
  {
    SumsBounded(Common(day.cap, day.foreign), day.hasClose, day.foreign);
  }

  /** `x * total == part * 100` with `0 <= part <= total` puts `x` between 0
      and 100. */
  lemma RatioBounds(x: real, total: real, part: real)
    requires total > 0.0 && 0.0 <= part <= total && x * total == part * 100.0
    ensures 0.0 <= x <= 100.0
  {
  }
}
