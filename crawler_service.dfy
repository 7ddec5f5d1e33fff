/** The string-level rules the crawlers apply once a page or an API answer
    has been fetched and its cells read out: Investing.com price cleanup, the
    economic-calendar row scan, the IndexerGo change cell, the Google Finance
    change badges and the NY Fed SOFR selection. Every input is the text the
    HTML parser or the JSON decoder produced. */
module CrawlerService {
  import opened Wrappers
  import opened Text
  import opened Dates
  import opened Fields

  // ===========================================================================
  // fetch_investing_price

  /** `percent.replace('(', '').replace(')', '')`. */
  function CleanPercent(p: string): (r: string)
    ensures '(' !in r && ')' !in r
    ensures |r| <= |p|
  {
    RemoveAll(RemoveAll(p, "("), ")")
  }

  /** A percent the page wraps in parentheses loses them and nothing else. */
  lemma {:induction false} CleanPercentUnwraps(x: string)
    requires '(' !in x && ')' !in x
    ensures CleanPercent("(" + x + ")") == x
  {
    var s := "(" + x + ")";
    assert s[..1] == "(" && s[1..] == x + ")";
    assert RemoveAll(s, "(") == RemoveAll(x + ")", "(");
    assert RemoveAll(x + ")", "(") == x + ")" by {
      assert '(' !in x + ")";
    }
    RemoveTrailing(x, ')');
  }

  /** The price block of an Investing.com page: the texts of the price,
      change and percent elements, each absent when the page has no such
      element. With no price element there is no reading; a missing change
      or percent takes its default. */
  function InvestingPrice(price: Option<string>, change: Option<string>, percent: Option<string>): (r: Option<Reading>)
    ensures r.Some? <==> price.Some?
    ensures r.Some? ==> r.value.value == Str(Strip(price.value)) && r.value.date.None? && r.value.nextDate.None?
    ensures r.Some? ==> r.value.change == Str(if change.Some? then Strip(change.value) else "0.00")
    ensures r.Some? ==> r.value.percent.Str? && '(' !in r.value.percent.s && ')' !in r.value.percent.s
    ensures r.Some? && percent.Some? ==> r.value.percent == Str(CleanPercent(Strip(percent.value)))
    ensures r.Some? && percent.None? ==> r.value.percent == Str("0.00%")
  {
    match price
    case None => None
    case Some(p) =>
      var c := if change.Some? then Strip(change.value) else "0.00";
      var pct := if percent.Some? then Strip(percent.value) else "0.00%";
      assert '(' !in "0.00%" && ')' !in "0.00%";
      Some(Reading(Str(Strip(p)), Str(c), Str(CleanPercent(pct)), None, None))
  }

  /** A percent element reading `(x)` is reported as `x`: the page's
      `(+0.5%)` becomes `+0.5%`. */
  lemma InvestingPercentUnwrapped(price: string, change: Option<string>, x: string)
    requires '(' !in x && ')' !in x
    ensures InvestingPrice(Some(price), change, Some("(" + x + ")")).value.percent == Str(x)
  {
    var s := "(" + x + ")";
    assert s[0] == '(' && s[|s| - 1] == ')';
    StripOfTrimmed(s);
    CleanPercentUnwraps(x);
  }

  // ===========================================================================
  // fetch_investing_calendar_actual: the date regex

  /** One `\s*(\d{1,2})` group of the date regex followed by its `marker`,
      from index `j0`: the number and the index after the marker. `\s*`
      skips whitespace greedily (a digit is never whitespace, so there is
      nothing to backtrack into); `\d{1,2}` must be followed directly by the
      marker, so the digit run before it has one or two digits. */
  function GroupAt(s: string, j0: nat, marker: char): (r: Option<(nat, nat)>)
    requires j0 <= |s|
    ensures r.Some? ==> r.value.0 < 100 && j0 < r.value.1 <= |s| && s[r.value.1 - 1] == marker
  {
    var j := j0 + Lead(s[j0..]);
    var a := DigitRun(s[j..]);
    if a < 1 || a > 2 || j + a >= |s| || s[j + a] != marker then None
    else
      assert Pow10(a) <= 100 by { assert Pow10(1) == 10 && Pow10(2) == 100; }
      Some((NatValue(s[j..][..a]), j + a + 1))
  }

  /** One match of `(\d{4})년\s*(\d{1,2})월\s*(\d{1,2})일` starting at
      index `i`, rewritten as `f"{y}-{int(m):02d}-{int(d):02d}"`. */
  function KoreanDateAt(s: string, i: nat): (r: Option<string>)
    ensures r.Some? ==> i + 5 <= |s| && s[i + 4] == '년'
  {
    if i + 5 > |s| || !AllDigits(s[i..i + 4]) || s[i + 4] != '년' then None
    else
      match GroupAt(s, i + 5, '월')
      case None => None
      case Some((m, e)) =>
        match GroupAt(s, e, '일')
        case None => None
        case Some((d, _)) => Some(s[i..i + 4] + "-" + Pad2(m) + "-" + Pad2(d))
  }

  /** `re.search`: the match at the leftmost index from `i` on. */
  function KoreanDateFrom(s: string, i: nat): Option<string>
    decreases |s| - i
  {
    if i >= |s| then None
    else match KoreanDateAt(s, i)
      case Some(r) => Some(r)
      case None => KoreanDateFrom(s, i + 1)
  }

  /** The calendar's date cell, normalised to `YYYY-MM-DD` when it holds a
      Korean date and kept verbatim otherwise. */
  function NormaliseDate(raw: string): string {
    KoreanDateFrom(raw, 0).GetOr(raw)
  }

  /** `str(n)` for a number of one or two digits. */
  function Decimal(n: nat): (s: string)
    requires n < 100
    ensures 1 <= |s| <= 2 && AllDigits(s) && NatValue(s) == n
  {
    if n < 10 then
      assert [DigitChar(n)][..0] == [];
      [DigitChar(n)]
    else
      Pad2(n)
  }

  /** A cell reading `YYYY년 M월 D일`, with anything after it (such as the
      reference month in parentheses), becomes `YYYY-MM-DD` with month and
      day padded to two digits. */
  lemma KoreanDateNormalised(y: string, m: nat, d: nat, rest: string)
    requires |y| == 4 && AllDigits(y)
    requires 1 <= m < 100 && 1 <= d < 100
    ensures NormaliseDate(y + "년 " + Decimal(m) + "월 " + Decimal(d) + "일" + rest) == y + "-" + Pad2(m) + "-" + Pad2(d)
  {
    var mm, dd := Decimal(m), Decimal(d);
    var s := y + ("년" + (" " + (mm + ("월" + (" " + (dd + ("일" + rest)))))));
    assert s == y + "년 " + mm + "월 " + dd + "일" + rest;
    KoreanDateAtStart(s, y, mm, dd, rest);
  }

  /** The match at the start of such a cell. */
  lemma KoreanDateAtStart(s: string, y: string, mm: string, dd: string, rest: string)
    requires |y| == 4 && AllDigits(y)
    requires 1 <= |mm| <= 2 && AllDigits(mm) && 1 <= |dd| <= 2 && AllDigits(dd)
    requires s == y + ("년" + (" " + (mm + ("월" + (" " + (dd + ("일" + rest)))))))
    ensures KoreanDateAt(s, 0) == Some(y + "-" + Pad2(NatValue(mm)) + "-" + Pad2(NatValue(dd)))
  {
    assert s[..4] == y && s[4] == '년' && s[0..4] == y;
    MonthGroup(s, y, mm, " " + (dd + ("일" + rest)));
    GroupOf(s, 5 + |mm| + 2, dd, '일', rest);
  }

  /** The month group of such a cell, and what follows it. */
  lemma MonthGroup(s: string, y: string, mm: string, b: string)
    requires |y| == 4
    requires 1 <= |mm| <= 2 && AllDigits(mm)
    requires s == y + ("년" + (" " + (mm + ("월" + b))))
    ensures GroupAt(s, 5, '월') == Some((NatValue(mm), 5 + |mm| + 2))
    ensures s[5 + |mm| + 2..] == b
  {
    assert s[0..] == s;
    SliceAfter(s, 0, y, "년" + (" " + (mm + ("월" + b))));
    SliceAfter(s, 4, "년", " " + (mm + ("월" + b)));
    GroupOf(s, 5, mm, '월', b);
    SliceAfter(s, 5, " ", mm + ("월" + b));
    SliceAfter(s, 6, mm, "월" + b);
    SliceAfter(s, 6 + |mm|, "월", b);
  }

  /** What follows `p` in a suffix that starts with `p`. */
  lemma SliceAfter(s: string, j0: nat, p: string, q: string)
    requires j0 <= |s| && s[j0..] == p + q
    ensures s[j0 + |p|..] == q
  {
    assert s[j0..][|p|..] == s[j0 + |p|..];
    assert (p + q)[|p|..] == q;
  }

  /** A space, one or two digits and the marker make one group of the regex. */
  lemma GroupOf(s: string, j0: nat, ds: string, marker: char, t: string)
    requires j0 <= |s| && s[j0..] == " " + (ds + ([marker] + t))
    requires 1 <= |ds| <= 2 && AllDigits(ds) && !IsDigit(marker)
    ensures GroupAt(s, j0, marker) == Some((NatValue(ds), j0 + 1 + |ds| + 1))
  {
    OneLeadingSpace(s[j0..], ds[0]);
    SliceAfter(s, j0, " ", ds + ([marker] + t));
    var j := j0 + 1;
    DigitRunOf(ds, [marker] + t);
    assert s[j..][..|ds|] == ds;
    GroupAtMatch(s, j0, marker, j, |ds|);
  }

  /** One space before a character that is not whitespace. */
  lemma OneLeadingSpace(u: string, c: char)
    requires |u| >= 2 && u[0] == ' ' && u[1] == c && IsDigit(c)
    ensures Lead(u) == 1
  {
    assert u[1..][0] == c;
  }

  /** GroupAt once its whitespace and its digit run are known. */
  lemma GroupAtMatch(s: string, j0: nat, marker: char, j: nat, a: nat)
    requires j0 <= |s| && j == j0 + Lead(s[j0..])
    requires j <= |s| && a == DigitRun(s[j..])
    requires 1 <= a <= 2 && j + a < |s| && s[j + a] == marker
    ensures GroupAt(s, j0, marker) == Some((NatValue(s[j..][..a]), j + a + 1))
  {
  }

  /** The digit run of a digit string followed by a non-digit is that string. */
  lemma {:induction false} DigitRunOf(ds: string, t: string)
    requires AllDigits(ds)
    requires t != [] && !IsDigit(t[0])
    ensures DigitRun(ds + t) == |ds|
  {
    if ds == [] {
      assert ds + t == t;
    } else {
      assert (ds + t)[1..] == ds[1..] + t;
      DigitRunOf(ds[1..], t);
    }
  }

  /** Text without the year marker `년` is kept verbatim. */
  lemma NoKoreanDateKeptVerbatim(raw: string)
    requires '년' !in raw
    ensures NormaliseDate(raw) == raw
  {
    KoreanDateFromNone(raw, 0);
  }

  lemma {:induction false} KoreanDateFromNone(s: string, i: nat)
    requires '년' !in s
    ensures KoreanDateFrom(s, i).None?
    decreases |s| - i
  {
    if i < |s| {
      KoreanDateFromNone(s, i + 1);
    }
  }

  // ===========================================================================
  // fetch_investing_calendar_actual: the row scan

  /** A release row the scan has kept: its normalised date and the actual. */
  type Release = (string, string)

  /** What the scan carries from row to row: the releases kept so far and
      the first upcoming date (empty while none is known). */
  datatype ScanState = ScanState(history: seq<Release>, next: string)

  /** `not actual_str or actual_str == '\xa0'`. */
  predicate EmptyActual(a: string) {
    a == "" || a == "\U{A0}"
  }

  /** One row of `<td>` texts; a row with fewer than three cells is skipped. */
  function Step(st: ScanState, row: seq<string>): ScanState {
    if |row| < 3 then st
    else
      var parsed := NormaliseDate(Strip(row[0]));
      var actual := Strip(row[2]);
      if EmptyActual(actual) then
        (if st.next == "" && parsed != "" then ScanState(st.history, parsed) else st)
      else ScanState(st.history + [(parsed, actual)], st.next)
  }

  /** The loop over the rows from state `st`, stopping once two releases are
      kept. */
  function ScanFrom(rows: seq<seq<string>>, st: ScanState): ScanState
    decreases |rows|
  {
    if rows == [] then st
    else
      var st' := Step(st, rows[0]);
      if |st'.history| >= 2 then st' else ScanFrom(rows[1..], st')
  }

  /** The scan as the crawler runs it, over the rows of the history table. */
  method ScanRows(rows: seq<seq<string>>) returns (history: seq<Release>, next: string)
    ensures ScanState(history, next) == ScanFrom(rows, ScanState([], ""))
  {
    history, next := [], "";
    var i := 0;
    while i < |rows|
      invariant 0 <= i <= |rows| && |history| < 2
      invariant ScanFrom(rows[i..], ScanState(history, next)) == ScanFrom(rows, ScanState([], ""))
    {
      var row := rows[i];
      assert rows[i..][1..] == rows[i + 1..];
      i := i + 1;
      if |row| < 3 {
        continue;
      }
      var parsed := NormaliseDate(Strip(row[0]));
      var actual := Strip(row[2]);
      if EmptyActual(actual) {
        if next == "" && parsed != "" {
          next := parsed;
        }
        continue;
      }
      history := history + [(parsed, actual)];
      if |history| >= 2 {
        break;
      }
    }
  }

  // The scan against an independent description: the rows carrying an
  // actual value, the rows announcing an upcoming date, and how far the loop
  // reads before it stops.

  /** The release a row contributes, if it has three cells and an actual. */
  function ReleaseOf(row: seq<string>): Option<Release> {
    if |row| >= 3 && !EmptyActual(Strip(row[2])) then Some((NormaliseDate(Strip(row[0])), Strip(row[2])))
    else None
  }

  /** The upcoming date a row announces, if it has three cells, no actual and
      a non-empty date. */
  function PendingOf(row: seq<string>): Option<string> {
    if |row| >= 3 && EmptyActual(Strip(row[2])) && NormaliseDate(Strip(row[0])) != "" then Some(NormaliseDate(Strip(row[0])))
    else None
  }

  /** Every release in the rows, in table order. */
  function Releases(rows: seq<seq<string>>): seq<Release> {
    if rows == [] then []
    else (if ReleaseOf(rows[0]).Some? then [ReleaseOf(rows[0]).value] else []) + Releases(rows[1..])
  }

  /** The first announced date in the rows, or the empty string. */
  function FirstPending(rows: seq<seq<string>>): string {
    if rows == [] then ""
    else if PendingOf(rows[0]).Some? then PendingOf(rows[0]).value
    else FirstPending(rows[1..])
  }

  /** How many rows the loop reads when it still wants `k` releases: up to
      and including the `k`-th release row, or all of them. */
  function Reach(rows: seq<seq<string>>, k: nat): (n: nat)
    requires k >= 1
    ensures n <= |rows|
  {
    if rows == [] then 0
    else if ReleaseOf(rows[0]).Some? then (if k == 1 then 1 else 1 + Reach(rows[1..], k - 1))
    else 1 + Reach(rows[1..], k)
  }

  /** One step of the scan, in terms of what the row contributes. */
  lemma StepByRow(st: ScanState, row: seq<string>)
    ensures Step(st, row) == ScanState(st.history + (if ReleaseOf(row).Some? then [ReleaseOf(row).value] else []),
                                       if st.next == "" && PendingOf(row).Some? then PendingOf(row).value else st.next)
  {
  }

  /** The scan keeps the releases of the rows it reads and takes the first
      date those rows announce, unless it already had one. */
  lemma {:induction false} ScanFromReads(rows: seq<seq<string>>, st: ScanState)
    requires |st.history| < 2
    ensures var n := Reach(rows, 2 - |st.history|);
            ScanFrom(rows, st) == ScanState(st.history + Releases(rows[..n]),
                                            if st.next != "" then st.next else FirstPending(rows[..n]))
    decreases |rows|
  {
    if rows != [] {
      var n := Reach(rows, 2 - |st.history|);
      var r := rows[..n];
      assert r[0] == rows[0];
      StepByRow(st, rows[0]);
      if ReleaseOf(rows[0]).Some? && |st.history| == 1 {
        assert r == [rows[0]];
        assert PendingOf(rows[0]).None?;
      } else {
        var st' := Step(st, rows[0]);
        assert r[1..] == rows[1..][..Reach(rows[1..], 2 - |st'.history|)];
        ScanFromReads(rows[1..], st');
      }
    }
  }

  /** The releases the loop reads are the first two of the table, or all
      of them when there are fewer. */
  lemma {:induction false} ReleasesReached(rows: seq<seq<string>>, k: nat)
    requires k >= 1
    ensures var all := Releases(rows);
            Releases(rows[..Reach(rows, k)]) == all[..if |all| < k then |all| else k]
    decreases |rows|
  {
    if rows != [] {
      var n := Reach(rows, k);
      var r := rows[..n];
      var all, tail := Releases(rows), Releases(rows[1..]);
      assert r[0] == rows[0] && r[1..] == rows[1..][..n - 1];
      ReleasesCons(rows);
      ReleasesCons(r);
      if ReleaseOf(rows[0]).Some? {
        var x := ReleaseOf(rows[0]).value;
        assert all == [x] + tail;
        if k == 1 {
          assert r[1..] == [];
          assert Releases(r) == [x];
          assert all[..1] == [x];
        } else {
          var sub := rows[1..];
          var n1 := Reach(sub, k - 1);
          assert n - 1 == n1;
          ReleasesReached(sub, k - 1);
          var m := if |tail| < k - 1 then |tail| else k - 1;
          var got := Releases(sub[..n1]);
          assert got == tail[..m];
          assert r[1..] == sub[..n1];
          assert Releases(r[1..]) == got;
          TakeCons(x, tail, m);
          assert Releases(r) == [x] + tail[..m];
        }
      } else {
        assert all == tail;
        assert n - 1 == Reach(rows[1..], k);
        ReleasesReached(rows[1..], k);
        assert Releases(r) == Releases(r[1..]);
      }
    }
  }

  /** Releases of a non-empty table: the first row's release, then the rest. */
  lemma ReleasesCons(rows: seq<seq<string>>)
    requires rows != []
    ensures Releases(rows) == (if ReleaseOf(rows[0]).Some? then [ReleaseOf(rows[0]).value] else []) + Releases(rows[1..])
  {
  }

  lemma TakeCons(x: Release, xs: seq<Release>, m: nat)
    requires m <= |xs|
    ensures ([x] + xs)[..m + 1] == [x] + xs[..m]
  {
  }

  /** The history the crawler builds is exactly the first two releases of
      the table (fewer if the table has fewer). */
  lemma ScanHistory(rows: seq<seq<string>>)
    ensures var all := Releases(rows);
            ScanFrom(rows, ScanState([], "")).history == all[..if |all| < 2 then |all| else 2]
  {
    ScanFromReads(rows, ScanState([], ""));
    var read := Releases(rows[..Reach(rows, 2)]);
    assert [] + read == read;
    ReleasesReached(rows, 2);
  }

  /** The next date is the first announced date among the rows read before
      the second release. */
  lemma ScanNext(rows: seq<seq<string>>)
    ensures ScanFrom(rows, ScanState([], "")).next == FirstPending(rows[..Reach(rows, 2)])
  {
    ScanFromReads(rows, ScanState([], ""));
  }

  // ---------------------------------------------------------------------------
  // The reading built from the scan

  /** `parse_val`: `float()` of the text without `,`, `B`, `M`, `k` and `%`. */
  function ParseVal(s: string): Option<real> {
    ParseFloat(RemoveEach(s, CalendarUnits))
  }

  const CalendarUnits: seq<string> := [",", "B", "M", "k", "%"]

  /** A count with one unit letter or a percent sign reads as its number. */
  lemma ParseValOfUnit(d: string, c: char)
    requires d != [] && AllDigits(d)
    requires c == 'B' || c == 'M' || c == 'k' || c == '%'
    ensures ParseVal(d + [c]) == Some(NatValue(d) as real)
  {
    assert [c] == CalendarUnits[if c == 'B' then 1 else if c == 'M' then 2 else if c == 'k' then 3 else 4];
    RemoveEachTrailing(d, c, CalendarUnits);
    ParseDigits(d);
  }

  /** A text with none of the units parses as `float()` does. */
  lemma ParseValPlain(s: string)
    requires forall i :: 0 <= i < |s| ==> s[i] !in ",BMk%"
    ensures ParseVal(s) == ParseFloat(s)
  {
    RemoveEachWithoutHeads(s, CalendarUnits);
  }

  /** `(change / prev_float) * 100 if prev_float != 0 else 0`. */
  function PercentChange(change: real, previous: real): (pct: real)
    ensures previous != 0.0 ==> pct * previous == change * 100.0
    ensures previous == 0.0 ==> pct == 0.0
  {
    if previous != 0.0 then
      assert change / previous * previous == change;
      change / previous * 100.0
    else 0.0
  }

  /** Change and percent change from the previous release's parsed value
      to the latest's; the defaults when either did not parse. */
  function ChangeOf(current: Option<real>, previous: Option<real>): (r: (Field, Field))
    ensures current.None? || previous.None? ==> r == (Str("0.00"), Str("0.00%"))
    ensures current.Some? && previous.Some? ==>
              var c, p := current.value, previous.value;
              r.0 == Fmt(SignPrefix(c - p), Comma2, c - p)
              && r.1.Fmt? && r.1.prefix == r.0.prefix && r.1.spec == Comma2Pct
              && (p != 0.0 ==> r.1.x * p == (c - p) * 100.0)
              && (p == 0.0 ==> r.1.x == 0.0)
  {
    if current.Some? && previous.Some? then
      var ch := current.value - previous.value;
      var pct := PercentChange(ch, previous.value);
      (Fmt(SignPrefix(ch), Comma2, ch), Fmt(SignPrefix(ch), Comma2Pct, pct))
    else (Str("0.00"), Str("0.00%"))
  }

  /** The crawler's answer once the rows are scanned: nothing without a
      release; otherwise the latest release, its change against the one
      before, and the next date (possibly empty). */
  function CalendarReading(st: ScanState): (r: Option<Reading>)
    ensures r.None? <==> st.history == []
    ensures r.Some? ==> r.value.value == Str(st.history[0].1) && r.value.date == Some(st.history[0].0)
                        && r.value.nextDate == Some(st.next)
    ensures r.Some? && |st.history| < 2 ==> r.value.change == Str("0.00") && r.value.percent == Str("0.00%")
  {
    if st.history == [] then None
    else
      var latest := st.history[0];
      var (change, pct) := if |st.history| >= 2 then ChangeOf(ParseVal(latest.1), ParseVal(st.history[1].1)) else (Str("0.00"), Str("0.00%"));
      Some(Reading(Str(latest.1), change, pct, Some(latest.0), Some(st.next)))
  }

  /** `fetch_investing_calendar_actual` once the history table's rows are
      read out. */
  method FetchCalendarActual(rows: seq<seq<string>>) returns (r: Option<Reading>)
    ensures r == CalendarReading(ScanFrom(rows, ScanState([], "")))
  {
    var history, next := ScanRows(rows);
    r := CalendarReading(ScanState(history, next));
  }

  /** The crawler answers exactly when the table has a row with an actual
      value, and then reports the first one. */
  lemma CalendarAnswersIffReleased(rows: seq<seq<string>>)
    ensures var r := CalendarReading(ScanFrom(rows, ScanState([], "")));
            (r.Some? <==> Releases(rows) != [])
            && (r.Some? ==> r.value.value == Str(Releases(rows)[0].1) && r.value.date == Some(Releases(rows)[0].0))
  {
    ScanHistory(rows);
  }

  /** The `'\xa0'` test never fires: `strip()` already removes that
      character, so an empty actual is exactly an empty stripped cell. */
  lemma EmptyActualIsEmpty(cell: string)
    ensures EmptyActual(Strip(cell)) <==> Strip(cell) == ""
  {
    StripIsNeverNoBreakSpace(cell);
  }

  // ===========================================================================
  // fetch_indexergo_data

  /** The change cell `"+    0.16 \n 5.48%"`: stripped, its ASCII spaces
      removed, split on whitespace; the first token is the change and the
      second, without `%`, the percent; `"-"` for a missing token. */
  function ChangeCell(cell: string): (r: (string, string))
    ensures r.0 == "-" || IsWord(r.0)
    ensures '%' !in r.1
  {
    var tokens := Split(RemoveAll(Strip(cell), " "));
    SplitTokens(RemoveAll(Strip(cell), " "));
    var change := if |tokens| >= 1 then tokens[0] else "-";
    var pct := if |tokens| >= 2 then tokens[1] else "-";
    (change, RemoveAll(pct, "%"))
  }

  /** The sign and the number, which the page separates by spaces, come out
      as one change token; the percent after the line break loses its `%`. */
  lemma ChangeCellJoinsSign(sign: string, num: string, pct: string)
    requires IsWord(sign) && IsWord(num) && IsWord(pct) && '%' !in pct
    ensures ChangeCell(sign + " " + num + "\n" + pct + "%") == (sign + num, pct)
  {
    var c := pct + "%";
    WordsJoin(pct, "%");
    CellShape(sign + " " + num + "\n", pct, "%");
    ChangeCellTokens(sign, num, c);
    RemoveTrailing(pct, '%');
  }

  lemma CellShape(a: string, b: string, c: string)
    ensures a + b + c == a + (b + c)
  {
  }

  /** The tokens of such a cell: the joined sign and number, and the
      percent. */
  lemma ChangeCellTokens(sign: string, num: string, c: string)
    requires IsWord(sign) && IsWord(num) && IsWord(c)
    ensures Split(RemoveAll(Strip(sign + " " + num + "\n" + c), " ")) == [sign + num, c]
  {
    var cell := sign + " " + num + "\n" + c;
    StripOfTrimmed(cell);
    SpacesRemoved(sign, num, c);
    assert IsWord(sign + num);
    SplitTwoWords(sign + num, '\n', c);
  }

  lemma SpacesRemoved(a: string, b: string, c: string)
    requires IsWord(a) && IsWord(b) && IsWord(c)
    ensures RemoveAll(a + " " + b + "\n" + c, " ") == a + b + ['\n'] + c
  {
    var t := "\n" + c;
    var bt := b + t;
    assert ' ' !in a && ' ' !in b && ' ' !in t;
    assert RemoveAll(t, " ") == t && RemoveAll(a, " ") == a && RemoveAll(b, " ") == b;
    RemoveCharAppend(b, t, ' ');
    assert RemoveAll(bt, " ") == bt;
    RemoveCharAppend(" ", bt, ' ');
    assert RemoveAll(" ", " ") == [];
    assert RemoveAll(" " + bt, " ") == bt;
    RemoveCharAppend(a, " " + bt, ' ');
    assert RemoveAll(a + (" " + bt), " ") == a + bt;
    Regroup(a, " ", b, "\n", c);
    Regroup3(a, b, '\n', c);
  }

  /** `a + p + b + q + c` grouped from the right. */
  lemma Regroup(a: string, p: string, b: string, q: string, c: string)
    ensures a + p + b + q + c == a + (p + (b + (q + c)))
  {
  }

  lemma Regroup3(a: string, b: string, x: char, c: string)
    ensures a + b + [x] + c == a + (b + ([x] + c))
  {
  }

  /** The first table's second row, as `<td>`/`<th>` texts: a reading with
      date, value and change cell when it has three cells, a reading with
      `"-"` change and percent when it has two, and only when the value is
      non-empty. */
  function IndexerGoTable(tables: seq<seq<seq<string>>>): (r: Option<Reading>)
    ensures r.Some? <==> |tables| >= 1 && |tables[0]| > 1 && |tables[0][1]| >= 2 && Strip(tables[0][1][1]) != ""
    ensures r.Some? ==> var cols := tables[0][1];
              r.value.value == Str(Strip(cols[1])) && r.value.date == Some(Strip(cols[0])) && r.value.nextDate.None?
              && (|cols| == 2 ==> r.value.change == Str("-") && r.value.percent == Str("-"))
              && (|cols| >= 3 ==> (r.value.change, r.value.percent) == (Str(ChangeCell(cols[2]).0), Str(ChangeCell(cols[2]).1)))
  {
    if tables == [] || |tables[0]| <= 1 then None
    else
      var cols := tables[0][1];
      if |cols| >= 3 then
        var date, value := Strip(cols[0]), Strip(cols[1]);
        var (change, pct) := ChangeCell(cols[2]);
        if value != "" then Some(Reading(Str(value), Str(change), Str(pct), Some(date), None)) else None
      else if |cols| >= 2 then
        var date, value := Strip(cols[0]), Strip(cols[1]);
        if value != "" then Some(Reading(Str(value), Str("-"), Str("-"), Some(date), None)) else None
      else None
  }

  /** How the `try` block of the crawler ends: with a return value, or with
      the `NameError` raised by reading a name that was never bound. */
  datatype Attempt = Returned(r: Option<Reading>) | NameError

  /** The `try` block as written: when the table gives no reading, the title
      test reads `title`, which the function never assigns. */
  function IndexerGoAttempt(tables: seq<seq<seq<string>>>): Attempt {
    match IndexerGoTable(tables)
    case Some(r) => Returned(Some(r))
    case None => NameError
  }

  /** `fetch_indexergo_data` as written: the `except` turns the error into
      None. */
  function FetchIndexerGoAsWritten(tables: seq<seq<seq<string>>>): Option<Reading> {
    match IndexerGoAttempt(tables)
    case Returned(r) => r
    case NameError => None
  }

  /** As written, the title fallback is never reached: whenever the table
      gives nothing the block raises and the crawler answers None. */
  lemma TitleFallbackUnreachable(tables: seq<seq<seq<string>>>)
    requires IndexerGoTable(tables).None?
    ensures IndexerGoAttempt(tables) == NameError
    ensures FetchIndexerGoAsWritten(tables).None?
  {
  }

  // The title fallback as intended, with the page's `<title>` text passed in.

  /** A character of the class `[\d\.]`. */
  predicate NumberChar(c: char) {
    IsDigit(c) || c == '.'
  }

  /** Length of the longest prefix of `s` made of digits and dots. */
  function NumberRun(s: string): (n: nat)
    ensures n <= |s| && forall i :: 0 <= i < n ==> NumberChar(s[i])
    ensures n < |s| ==> !NumberChar(s[n])
  {
    if s == [] || !NumberChar(s[0]) then 0 else 1 + NumberRun(s[1..])
  }

  /** `re.search(r'\(([\d\.]+)', s)` from index `i`: the group of the
      leftmost `(` that a digit or dot follows. */
  function ParenNumberFrom(s: string, i: nat): (r: Option<string>)
    ensures r.Some? ==> r.value != [] && forall k :: 0 <= k < |r.value| ==> NumberChar(r.value[k])
    decreases |s| - i
  {
    if i >= |s| then None
    else if s[i] == '(' && NumberRun(s[i + 1..]) >= 1 then Some(s[i + 1..][..NumberRun(s[i + 1..])])
    else ParenNumberFrom(s, i + 1)
  }

  /** The number a title such as `"High Yield (3.08%)"` shows in
      parentheses, when the title holds both `(` and `%)`. */
  function TitleValue(title: string): (r: Option<string>)
    ensures r.Some? ==> Contains(title, "(") && Contains(title, "%)")
  {
    if Contains(title, "(") && Contains(title, "%)") then ParenNumberFrom(title, 0) else None
  }

  /** `fetch_indexergo_data` with the title fallback working: the table's
      reading, else the title's number with `"-"` change and percent. */
  function FetchIndexerGo(tables: seq<seq<seq<string>>>, title: string): (r: Option<Reading>)
    ensures IndexerGoTable(tables).Some? ==> r == IndexerGoTable(tables)
    ensures IndexerGoTable(tables).None? ==>
              (r.Some? <==> TitleValue(title).Some?)
              && (r.Some? ==> r.value == Reading(Str(TitleValue(title).value), Str("-"), Str("-"), None, None))
  {
    match IndexerGoTable(tables)
    case Some(r) => Some(r)
    case None =>
      match TitleValue(title)
      case Some(v) => Some(Reading(Str(v), Str("-"), Str("-"), None, None))
      case None => None
  }

  /** A title with the number in parentheses followed by `%)` yields that
      number, whatever comes before it as long as it has no `(`. */
  lemma TitleValueOf(pre: string, num: string, post: string)
    requires '(' !in pre && num != [] && forall k :: 0 <= k < |num| ==> NumberChar(num[k])
    requires |post| >= 2 && post[..2] == "%)"
    ensures TitleValue(pre + "(" + num + post) == Some(num)
  {
    var t := pre + "(" + num + post;
    var i := |pre|;
    assert OccursAt(t, "(", i);
    assert OccursAt(t, "%)", i + 1 + |num|);
    assert t[i + 1..] == num + post;
    NumberRunOf(num, post);
    assert t[i + 1..][..|num|] == num;
    ParenNumberSkips(t, 0, i);
  }

  /** The digits and dots of `num` end where `post` starts. */
  lemma {:induction false} NumberRunOf(num: string, post: string)
    requires forall k :: 0 <= k < |num| ==> NumberChar(num[k])
    requires post != [] && !NumberChar(post[0])
    ensures NumberRun(num + post) == |num|
  {
    if num == [] {
      assert num + post == post;
    } else {
      assert (num + post)[1..] == num[1..] + post;
      NumberRunOf(num[1..], post);
    }
  }

  /** The search passes over every index before the first `(`. */
  lemma {:induction false} ParenNumberSkips(s: string, i: nat, j: nat)
    requires i <= j < |s| && forall k :: i <= k < j ==> s[k] != '('
    ensures ParenNumberFrom(s, i) == ParenNumberFrom(s, j)
    decreases j - i
  {
    if i < j {
      ParenNumberSkips(s, i + 1, j);
    }
  }

  /** The finding in one input: a page without tables whose title reads
      `"(3.08%)"`. As written the crawler answers None; with the title read
      it answers 3.08. */
  lemma IndexerGoTitleCounterexample()
    ensures FetchIndexerGoAsWritten([]).None?
    ensures FetchIndexerGo([], "(3.08%)") == Some(Reading(Str("3.08"), Str("-"), Str("-"), None, None))
  {
    assert "(3.08%)" == "" + "(" + "3.08" + "%)";
    TitleValueOf("", "3.08", "%)");
  }

  // ===========================================================================
  // fetch_google_finance

  /** The stripped texts of the change badges that contain a digit, in
      document order. */
  function NumericCandidates(cands: seq<string>): (ts: seq<string>)
    ensures |ts| <= |cands|
    ensures forall k :: 0 <= k < |ts| ==> HasDigit(ts[k])
    ensures forall k :: 0 <= k < |cands| && HasDigit(Strip(cands[k])) ==> Strip(cands[k]) in ts
    decreases |cands|
  {
    if cands == [] then []
    else
      var t := Strip(cands[0]);
      (if HasDigit(t) then [t] else []) + NumericCandidates(cands[1..])
  }

  /** The first text of `ts` that contains `%` (when `percent`) or that does
      not (otherwise). */
  function FirstWhere(ts: seq<string>, percent: bool): (r: Option<string>)
    ensures r.Some? ==> r.value in ts && ('%' in r.value) == percent
    ensures r.None? <==> forall j :: 0 <= j < |ts| ==> ('%' in ts[j]) != percent
    decreases |ts|
  {
    if ts == [] then None
    else if ('%' in ts[0]) == percent then Some(ts[0])
    else FirstWhere(ts[1..], percent)
  }

  /** FirstWhere finds the earliest text of the wanted kind. */
  lemma {:induction false} FirstWhereAt(ts: seq<string>, percent: bool, i: nat)
    requires i < |ts| && ('%' in ts[i]) == percent
    requires forall j :: 0 <= j < i ==> ('%' in ts[j]) != percent
    ensures FirstWhere(ts, percent) == Some(ts[i])
    decreases i
  {
    if i > 0 {
      FirstWhereAt(ts[1..], percent, i - 1);
    }
  }

  /** The first loop: the numeric badge texts. */
  method NumericTexts(cands: seq<string>) returns (numeric: seq<string>)
    ensures numeric == NumericCandidates(cands)
  {
    numeric := [];
    assert cands[0..] == cands;
    for i := 0 to |cands|
      invariant NumericCandidates(cands) == numeric + NumericCandidates(cands[i..])
    {
      var t := Strip(cands[i]);
      NumericCandidatesStep(cands, i);
      if HasDigit(t) {
        AppendAssoc(numeric, [t], NumericCandidates(cands[i + 1..]));
        numeric := numeric + [t];
      } else {
        assert [] + NumericCandidates(cands[i + 1..]) == NumericCandidates(cands[i + 1..]);
      }
    }
  }

  /** One step of NumericCandidates from index `i`. */
  lemma NumericCandidatesStep(cands: seq<string>, i: nat)
    requires i < |cands|
    ensures NumericCandidates(cands[i..])
            == (if HasDigit(Strip(cands[i])) then [Strip(cands[i])] else []) + NumericCandidates(cands[i + 1..])
  {
    assert cands[i..][0] == cands[i] && cands[i..][1..] == cands[i + 1..];
  }

  lemma AppendAssoc(a: seq<string>, b: seq<string>, c: seq<string>)
    ensures a + (b + c) == (a + b) + c
  {
  }

  /** The second loop: the first change-like and the first percent-like
      text. */
  method PickBadges(numeric: seq<string>) returns (change: Option<string>, pct: Option<string>)
    ensures change == FirstWhere(numeric, false) && pct == FirstWhere(numeric, true)
  {
    change, pct := None, None;
    for i := 0 to |numeric|
      invariant change == FirstWhere(numeric[..i], false)
      invariant pct == FirstWhere(numeric[..i], true)
    {
      var t := numeric[i];
      assert numeric[..i + 1] == numeric[..i] + [t];
      FirstWhereSnoc(numeric[..i], t, false);
      FirstWhereSnoc(numeric[..i], t, true);
      if '%' in t {
        if pct.None? {
          pct := Some(t);
        }
      } else {
        if change.None? {
          change := Some(t);
        }
      }
    }
    assert numeric[..|numeric|] == numeric;
  }

  /** Extending a list by one text: the first match stays, or is the new
      text when there was none before. */
  lemma {:induction false} FirstWhereSnoc(ts: seq<string>, t: string, percent: bool)
    ensures FirstWhere(ts + [t], percent)
            == if FirstWhere(ts, percent).Some? then FirstWhere(ts, percent)
               else if ('%' in t) == percent then Some(t) else None
    decreases |ts|
  {
    if ts == [] {
      assert ts + [t] == [t];
    } else {
      assert (ts + [t])[0] == ts[0] && (ts + [t])[1..] == ts[1..] + [t];
      FirstWhereSnoc(ts[1..], t, percent);
    }
  }

  /** `fetch_google_finance` once the page is parsed: the text of the price
      element (None when the page has none) and the texts of the change
      badges found six levels above it. */
  method FetchGoogleFinance(price: Option<string>, cands: seq<string>) returns (r: Option<Reading>)
    ensures r == GoogleReading(price, cands)
  {
    if price.None? {
      return None;
    }
    var numeric := NumericTexts(cands);
    var change, pct := PickBadges(numeric);
    r := Some(Reading(Str(Strip(price.value)), Str(change.GetOr("-")), Str(pct.GetOr("-")), None, None));
  }

  /** The reading the crawler builds: the price, the first numeric badge
      without `%` as the change and the first one with `%` as the percent,
      `"-"` for either when no badge qualifies. */
  function GoogleReading(price: Option<string>, cands: seq<string>): (r: Option<Reading>)
    ensures r.Some? <==> price.Some?
    ensures r.Some? ==> r.value.value == Str(Strip(price.value)) && r.value.change.Str? && r.value.percent.Str?
    ensures r.Some? ==> var c := r.value.change.s; c == "-" || (HasDigit(c) && '%' !in c)
    ensures r.Some? ==> var p := r.value.percent.s; p == "-" || (HasDigit(p) && '%' in p)
  {
    if price.None? then None
    else
      var ts := NumericCandidates(cands);
      Some(Reading(Str(Strip(price.value)), Str(FirstWhere(ts, false).GetOr("-")), Str(FirstWhere(ts, true).GetOr("-")), None, None))
  }

  /** The candidates of two runs of badges are those of the first run
      followed by those of the second: document order is kept. */
  lemma {:induction false} NumericCandidatesAppend(a: seq<string>, b: seq<string>)
    ensures NumericCandidates(a + b) == NumericCandidates(a) + NumericCandidates(b)
    decreases |a|
  {
    if a == [] {
      assert a + b == b;
    } else {
      assert (a + b)[0] == a[0] && (a + b)[1..] == a[1..] + b;
      NumericCandidatesAppend(a[1..], b);
      var t := Strip(a[0]);
      AppendAssoc(if HasDigit(t) then [t] else [], NumericCandidates(a[1..]), NumericCandidates(b));
    }
  }

  /** The first match in two lists is the first list's, or the second's
      when the first has none. */
  lemma {:induction false} FirstWhereAppend(a: seq<string>, b: seq<string>, percent: bool)
    ensures FirstWhere(a + b, percent)
            == if FirstWhere(a, percent).Some? then FirstWhere(a, percent) else FirstWhere(b, percent)
    decreases |a|
  {
    if a == [] {
      assert a + b == b;
    } else {
      assert (a + b)[0] == a[0] && (a + b)[1..] == a[1..] + b;
      FirstWhereAppend(a[1..], b, percent);
    }
  }

  /** A stripped badge text the crawler classifies as a change
      (`percent == false`) or as a percent (`percent == true`): it has a digit
      and holds `%` exactly for a percent. */
  predicate Badge(t: string, percent: bool) {
    HasDigit(t) && ('%' in t) == percent
  }

  /** The change (`percent == false`) or the percent of a reading. */
  function GoogleField(r: Reading, percent: bool): Field {
    if percent then r.percent else r.change
  }

  /** Badges none of which is of the wanted kind give no match. */
  lemma {:induction false} NoBadgeOfKind(cands: seq<string>, percent: bool)
    requires forall j :: 0 <= j < |cands| ==> !Badge(Strip(cands[j]), percent)
    ensures FirstWhere(NumericCandidates(cands), percent) == None
    decreases |cands|
  {
    if cands != [] {
      assert forall j :: 0 <= j < |cands| - 1 ==> cands[1..][j] == cands[j + 1];
      NoBadgeOfKind(cands[1..], percent);
      var t := Strip(cands[0]);
      if HasDigit(t) {
        var rest := NumericCandidates(cands[1..]);
        assert !Badge(t, percent);
        assert ([t] + rest)[0] == t && ([t] + rest)[1..] == rest;
      }
    }
  }

  /** The change (or percent) reported is the stripped text of the first
      badge of its kind. */
  lemma GoogleReadingFirst(price: string, cands: seq<string>, i: nat, percent: bool)
    requires i < |cands| && Badge(Strip(cands[i]), percent)
    requires forall j :: 0 <= j < i ==> !Badge(Strip(cands[j]), percent)
    ensures GoogleField(GoogleReading(Some(price), cands).value, percent) == Str(Strip(cands[i]))
  {
    var pre, post := cands[..i], cands[i..];
    assert cands == pre + post;
    NumericCandidatesAppend(pre, post);
    assert forall j :: 0 <= j < |pre| ==> pre[j] == cands[j];
    NoBadgeOfKind(pre, percent);
    FirstWhereAppend(NumericCandidates(pre), NumericCandidates(post), percent);
    NumericCandidatesStep(cands, i);
    var t := Strip(cands[i]);
    var tail := NumericCandidates(cands[i + 1..]);
    assert ([t] + tail)[0] == t;
  }

  /** The change (or percent) is `-` exactly when no badge is of its kind. */
  lemma GoogleReadingDash(price: string, cands: seq<string>, percent: bool)
    ensures GoogleField(GoogleReading(Some(price), cands).value, percent) == Str("-")
            <==> forall i :: 0 <= i < |cands| ==> !Badge(Strip(cands[i]), percent)
  {
    var ts := NumericCandidates(cands);
    if forall i :: 0 <= i < |cands| ==> !Badge(Strip(cands[i]), percent) {
      NoBadgeOfKind(cands, percent);
    } else {
      var i :| 0 <= i < |cands| && Badge(Strip(cands[i]), percent);
      var t := Strip(cands[i]);
      assert t in ts;
      var k :| 0 <= k < |ts| && ts[k] == t;
      var v := FirstWhere(ts, percent).value;
      var m :| 0 <= m < |ts| && ts[m] == v;
      assert HasDigit(v);
      assert !HasDigit("-");
    }
  }

  /** The badges may come in either order, change first as the page usually
      lists them or percent first: each is classified by its `%`, whatever
      else is found after them. */
  lemma GoogleBadgePair(price: string, change: string, pct: string, rest: seq<string>)
    requires HasDigit(change) && '%' !in change && HasDigit(pct) && '%' in pct
    requires Strip(change) == change && Strip(pct) == pct
    ensures GoogleReading(Some(price), [change, pct] + rest).value.change == Str(change)
    ensures GoogleReading(Some(price), [change, pct] + rest).value.percent == Str(pct)
    ensures GoogleReading(Some(price), [pct, change] + rest).value.change == Str(change)
    ensures GoogleReading(Some(price), [pct, change] + rest).value.percent == Str(pct)
  {
    TwoBadges(price, change, false, pct, rest);
    TwoBadges(price, pct, true, change, rest);
  }

  /** Two stripped badges of opposite kinds lead the list: each is reported
      as its kind. */
  lemma TwoBadges(price: string, a: string, percent: bool, b: string, rest: seq<string>)
    requires Badge(a, percent) && Badge(b, !percent) && Strip(a) == a && Strip(b) == b
    ensures var r := GoogleReading(Some(price), [a, b] + rest).value;
            GoogleField(r, percent) == Str(a) && GoogleField(r, !percent) == Str(b)
  {
    var cands := [a, b] + rest;
    assert cands[0] == a && cands[1] == b;
    GoogleReadingFirst(price, cands, 0, percent);
    GoogleReadingFirst(price, cands, 1, !percent);
  }

  // ===========================================================================
  // fetch_ny_fed_sofr

  /** One entry of the API's `refRates`: each key may be missing. */
  datatype RefRate = RefRate(effectiveDate: Option<string>, kind: Option<string>, percentRate: Option<real>)

  predicate Dated(rs: seq<RefRate>) {
    forall i :: 0 <= i < |rs| ==> rs[i].effectiveDate.Some?
  }

  function DateOf(r: RefRate): string
    requires r.effectiveDate.Some?
  {
    r.effectiveDate.value
  }

  /** Newest first: each date is at most the one before it. */
  predicate NewestFirst(rs: seq<RefRate>)
    requires Dated(rs)
  {
    forall i :: 0 <= i < |rs| - 1 ==> AtMost(DateOf(rs[i + 1]), DateOf(rs[i]))
  }

  /** Inserts `x` in front of the first entry not newer than it. */
  function Insert(x: RefRate, rs: seq<RefRate>): (r: seq<RefRate>)
    requires x.effectiveDate.Some? && Dated(rs)
    ensures Dated(r) && multiset(r) == multiset(rs) + multiset{x}
    ensures |r| == |rs| + 1
    decreases |rs|
  {
    if rs == [] || AtMost(DateOf(rs[0]), DateOf(x)) then [x] + rs
    else
      assert rs == [rs[0]] + rs[1..];
      [rs[0]] + Insert(x, rs[1..])
  }

  /** `ref_rates.sort(key=lambda x: x['effectiveDate'], reverse=True)`:
      Python's stable sort, newest first, entries with the same date kept
      in their original order. */
  function SortNewestFirst(rs: seq<RefRate>): (r: seq<RefRate>)
    requires Dated(rs)
    ensures Dated(r) && |r| == |rs|
    decreases |rs|
  {
    if rs == [] then [] else Insert(rs[0], SortNewestFirst(rs[1..]))
  }

  lemma {:induction false} InsertKeepsOrder(x: RefRate, rs: seq<RefRate>)
    requires x.effectiveDate.Some? && Dated(rs) && NewestFirst(rs)
    ensures NewestFirst(Insert(x, rs))
    ensures Insert(x, rs)[0] == x || (rs != [] && Insert(x, rs)[0] == rs[0])
    decreases |rs|
  {
    if rs != [] && !AtMost(DateOf(rs[0]), DateOf(x)) {
      InsertKeepsOrder(x, rs[1..]);
      var r := Insert(x, rs);
      assert r[1..] == Insert(x, rs[1..]);
      AtMostTotal(DateOf(rs[0]), DateOf(x));
      if |rs| > 1 {
        assert AtMost(DateOf(rs[1]), DateOf(rs[0]));
      }
    }
  }

  /** The sort puts the entries newest first and loses or adds none. */
  lemma {:induction false} SortOrders(rs: seq<RefRate>)
    requires Dated(rs)
    ensures NewestFirst(SortNewestFirst(rs))
    ensures multiset(SortNewestFirst(rs)) == multiset(rs)
    decreases |rs|
  {
    if rs != [] {
      SortOrders(rs[1..]);
      InsertKeepsOrder(rs[0], SortNewestFirst(rs[1..]));
      assert rs == [rs[0]] + rs[1..];
    }
  }

  /** The entries carrying date `d`, in order. */
  function OnDate(rs: seq<RefRate>, d: string): seq<RefRate>
    requires Dated(rs)
    decreases |rs|
  {
    if rs == [] then [] else (if DateOf(rs[0]) == d then [rs[0]] else []) + OnDate(rs[1..], d)
  }

  lemma {:induction false} InsertOnDate(x: RefRate, rs: seq<RefRate>, d: string)
    requires x.effectiveDate.Some? && Dated(rs)
    ensures OnDate(Insert(x, rs), d) == (if DateOf(x) == d then [x] else []) + OnDate(rs, d)
    decreases |rs|
  {
    if rs != [] && !AtMost(DateOf(rs[0]), DateOf(x)) {
      InsertOnDate(x, rs[1..], d);
      var r := Insert(x, rs);
      assert r[0] == rs[0] && r[1..] == Insert(x, rs[1..]);
      if DateOf(x) == d {
        assert DateOf(rs[0]) != d;
      }
    } else {
      var r := Insert(x, rs);
      assert r[0] == x && r[1..] == rs;
    }
  }

  /** The sort is stable: the entries of any one date keep their order. */
  lemma {:induction false} SortIsStable(rs: seq<RefRate>, d: string)
    requires Dated(rs)
    ensures OnDate(SortNewestFirst(rs), d) == OnDate(rs, d)
    decreases |rs|
  {
    if rs != [] {
      SortIsStable(rs[1..], d);
      InsertOnDate(rs[0], SortNewestFirst(rs[1..]), d);
    }
  }

  /** `[r for r in ref_rates if r.get('type') == 'SOFR']`. */
  function SofrOnly(rs: seq<RefRate>): (r: seq<RefRate>)
    ensures forall i :: 0 <= i < |r| ==> r[i].kind == Some("SOFR")
    ensures multiset(r) <= multiset(rs)
    ensures forall x :: x in rs && x.kind == Some("SOFR") ==> x in r
    ensures forall x :: x in r ==> x in rs
    decreases |rs|
  {
    if rs == [] then []
    else
      assert rs == [rs[0]] + rs[1..];
      (if rs[0].kind == Some("SOFR") then [rs[0]] else []) + SofrOnly(rs[1..])
  }

  /** Filtering keeps the order of what it keeps. */
  lemma {:induction false} SofrKeepsOrder(rs: seq<RefRate>)
    requires Dated(rs) && NewestFirst(rs)
    ensures Dated(SofrOnly(rs)) && NewestFirst(SofrOnly(rs))
    decreases |rs|
  {
    if rs != [] {
      SofrKeepsOrder(rs[1..]);
      var tail := SofrOnly(rs[1..]);
      if rs[0].kind == Some("SOFR") {
        if tail != [] {
          NewestAtFront(rs[1..], tail[0]);
          AtMostTransitive(DateOf(tail[0]), DateOf(rs[1]), DateOf(rs[0]));
        }
        ConsNewestFirst(rs[0], tail);
      }
    }
  }

  /** An entry at least as new as the front of a newest-first list can go
      in front of it. */
  lemma ConsNewestFirst(x: RefRate, rs: seq<RefRate>)
    requires x.effectiveDate.Some? && Dated(rs) && NewestFirst(rs)
    requires rs != [] ==> AtMost(DateOf(rs[0]), DateOf(x))
    ensures Dated([x] + rs) && NewestFirst([x] + rs)
  {
    var r := [x] + rs;
    assert forall i :: 0 < i < |r| ==> r[i] == rs[i - 1];
  }

  /** In a newest-first list the front entry is at least as new as any. */
  lemma {:induction false} NewestAtFront(rs: seq<RefRate>, x: RefRate)
    requires Dated(rs) && NewestFirst(rs) && x in rs
    ensures AtMost(DateOf(x), DateOf(rs[0]))
    decreases |rs|
  {
    if x != rs[0] {
      assert x in rs[1..];
      NewestAtFront(rs[1..], x);
      AtMostTransitive(DateOf(x), DateOf(rs[1]), DateOf(rs[0]));
    }
  }

  /** `fetch_ny_fed_sofr` once the API's `refRates` list is decoded: None
      when an entry lacks its date (the sort raises `KeyError`), when no
      entry is of type SOFR, or when the newest has no rate; otherwise the
      newest rate as `f"{val:.2f}%"` with its date, and the change against
      the entry after it when both rates are there. */
  function FetchSofr(rs: seq<RefRate>): Option<Reading> {
    if !Dated(rs) then None
    else
      var sofr := SofrOnly(SortNewestFirst(rs));
      if sofr == [] then None
      else
        var latest := sofr[0];
        var (change, pct) := if |sofr| > 1 then ChangeOf(latest.percentRate, sofr[1].percentRate) else (Str("0.00"), Str("0.00%"));
        match latest.percentRate
        case Some(v) => Some(Reading(Fmt("", Fixed2Pct, v), change, pct, latest.effectiveDate, None))
        case None => None
  }

  /** The SOFR reading is the newest SOFR entry: its date is at least as
      recent as every SOFR entry's, and its value is that entry's rate. */
  lemma SofrIsNewest(rs: seq<RefRate>)
    requires FetchSofr(rs).Some?
    ensures var r := FetchSofr(rs).value;
            exists x :: x in rs && x.kind == Some("SOFR") && x.percentRate.Some?
                        && r.value == Fmt("", Fixed2Pct, x.percentRate.value) && r.date == x.effectiveDate
                        && forall y :: y in rs && y.kind == Some("SOFR") ==> AtMost(DateOf(y), DateOf(x))
  {
    var sofr := SofrOnly(SortNewestFirst(rs));
    SortedSofr(rs);
    var x := sofr[0];
    forall y | y in rs && y.kind == Some("SOFR") ensures AtMost(DateOf(y), DateOf(x)) {
      NewestAtFront(sofr, y);
    }
  }

  /** The SOFR entries after the sort: newest first, and exactly the SOFR
      entries of the list. */
  lemma SortedSofr(rs: seq<RefRate>)
    requires Dated(rs)
    ensures Dated(SofrOnly(SortNewestFirst(rs))) && NewestFirst(SofrOnly(SortNewestFirst(rs)))
    ensures forall x :: x in SofrOnly(SortNewestFirst(rs)) <==> x in rs && x.kind == Some("SOFR")
  {
    var sorted := SortNewestFirst(rs);
    SortOrders(rs);
    SofrKeepsOrder(sorted);
    forall x ensures x in sorted <==> x in rs {
      assert x in sorted <==> x in multiset(sorted);
      assert x in rs <==> x in multiset(rs);
    }
  }

  /** When the crawler answers None. */
  lemma SofrNoneCases(rs: seq<RefRate>)
    ensures FetchSofr(rs).None? <==>
              !Dated(rs)
              || (forall x :: x in rs ==> x.kind != Some("SOFR"))
              || (SofrOnly(SortNewestFirst(rs)) != [] && SofrOnly(SortNewestFirst(rs))[0].percentRate.None?)
  {
    if Dated(rs) {
      var sofr := SofrOnly(SortNewestFirst(rs));
      SortedSofr(rs);
      if sofr != [] {
        assert sofr[0] in sofr;
      }
    }
  }

  /** With two SOFR entries of distinct dates, the change is taken from the
      newer to the older, whatever order the API listed them in. */
  lemma SofrChangeFromPrevious(a: RefRate, b: RefRate)
    requires a.kind == Some("SOFR") && b.kind == Some("SOFR")
    requires a.effectiveDate.Some? && b.effectiveDate.Some? && Less(DateOf(b), DateOf(a))
    requires a.percentRate.Some? && b.percentRate.Some?
    ensures FetchSofr([b, a]) == FetchSofr([a, b])
    ensures var r := FetchSofr([a, b]);
            r.Some? && r.value.date == a.effectiveDate
            && (r.value.change, r.value.percent) == ChangeOf(a.percentRate, b.percentRate)
  {
    assert !AtMost(DateOf(a), DateOf(b)) by {
      LessIrreflexive(DateOf(a));
      if Less(DateOf(a), DateOf(b)) {
        LessTransitive(DateOf(a), DateOf(b), DateOf(a));
      }
    }
    SortPair(a, b);
    SortPair(b, a);
    SofrOnlyPair(a, b);
  }

  /** Two dated entries: the sort keeps them when the first is at least as
      new, and swaps them otherwise. */
  lemma SortPair(x: RefRate, y: RefRate)
    requires x.effectiveDate.Some? && y.effectiveDate.Some?
    ensures AtMost(DateOf(y), DateOf(x)) ==> SortNewestFirst([x, y]) == [x, y]
    ensures !AtMost(DateOf(y), DateOf(x)) ==> SortNewestFirst([x, y]) == [y, x]
  {
    assert [x, y][1..] == [y] && [y][1..] == [];
    assert SortNewestFirst([y]) == [y];
    assert Insert(x, []) == [x];
  }

  lemma SofrOnlyPair(a: RefRate, b: RefRate)
    requires a.kind == Some("SOFR") && b.kind == Some("SOFR")
    ensures SofrOnly([a, b]) == [a, b]
  {
    assert [a, b][1..] == [b] && [b][1..] == [];
  }
}
