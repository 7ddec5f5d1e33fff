/** The finance service: per-ticker quotes, the fixed snapshots each
    category starts from, the overlay of live quotes onto them, and the
    announcement-date rollover that keeps scheduled indicators moving. */
module FinanceService {
  import opened Wrappers
  import opened Text
  import opened Dates
  import opened Fields

  /** One indicator's dictionary (`{"value": ..., "change": ..., ...}`). */
  type Record = map<string, Field>

  // ===========================================================================
  // Announcement-date rollover (check_date_rollover)

  /** `item.get('next_date', item.get('next', '2099-12-31'))`. */
  function NextText(f: Record): Field {
    if "next_date" in f then f["next_date"] else if "next" in f then f["next"] else Str("2099-12-31")
  }

  /** The key the advanced date is written back to. */
  function NextKey(f: Record): string {
    if "next_date" in f then "next_date" else "next"
  }

  /** `strptime` of the next-date field; only a `str` can be parsed (a
      rendered number never has the shape of a date). */
  function ParsedNext(t: Field): Option<Date> {
    match t
    case Str(s) => ParseIso(s)
    case _ => None
  }

  /** The units the rollover strips before `float()`, in the order of the
      chained `replace` calls. */
  const ValueUnits: seq<string> := ["%", "K", "B", "억$", ","]

  /** The numeric core of a value: `float()` of the value with its units
      removed; a bare number has no `replace` and so has no core. */
  function ValueCore(v: Field): Option<real> {
    match v
    case Str(s) => ParseFloat(RemoveEach(s, ValueUnits))
    case Fmt(_, _, x) => Some(x)
    case Num(_) => None
  }

  /** The perturbed value `y` written in the style of the old value `v`. */
  function Restyle(v: Field, y: real): Field {
    if TextContains(v, "%") then Fmt("", Fixed1Pct, y)
    else if TextContains(v, "K") then Fmt("", IntK, y)
    else if TextContains(v, "억$") then Fmt("", IntEok, y)
    else Fmt("", Fixed2, y)
  }

  /** The whole effect of one `check_date_rollover(item)` call on the item's
      dictionary, with `u` the value `random.uniform(-0.005, 0.005)` drew.
      Python raising midway (no such day in the next month, no `value`, a
      value that is not text) keeps what was already written. */
  function Rollover(f: Record, today: Date, u: real): Record {
    match DueDate(f, today)
    case None => f
    case Some(next) => Advance(f, NextText(f), next, u)
  }

  /** The parsed next date when the rollover is due: it is not `TBD`,
      `strptime` accepts it, and today is not before it. */
  function DueDate(f: Record, today: Date): (r: Option<Date>)
    ensures r.Some? ==> Valid(r.value)
  {
    var t := NextText(f);
    if t == Str("TBD") then None
    else
      match ParsedNext(t)
      case None => None
      case Some(next) => if Before(today, next) then None else Some(next)
  }

  /** The rollover once it is due: `date` takes the old next-date text, then
      the next date moves one month on, then the value is perturbed. */
  function Advance(f: Record, t: Field, next: Date, u: real): Record
    requires Valid(next)
  {
    var dated := f["date" := t];
    match NextMonth(next)
    case None => dated
    case Some(later) => Perturb(dated[NextKey(f) := Str(FormatIso(later))], u)
  }

  /** The simulated new value: the numeric core moved by the fraction `u`,
      written in the old value's style, and the signed change. */
  function Perturb(m: Record, u: real): Record {
    if "value" !in m then m else PerturbCore(m, ValueCore(m["value"]), u)
  }

  /** The value step once the value's numeric core `core` is known. */
  function PerturbCore(m: Record, core: Option<real>, u: real): Record
    requires "value" in m
  {
    match core
    case None => m
    case Some(v) =>
      var delta := v * u;
      m["value" := Restyle(m["value"], v + delta)]["change" := Fmt(SignPrefix(delta), Fixed2, delta)]
  }

  /** A `TBD` next date, or one `strptime` rejects, leaves the item as it was. */
  lemma RolloverSkipsUnreadableNext(f: Record, today: Date, u: real)
    requires NextText(f) == Str("TBD") || ParsedNext(NextText(f)).None?
    ensures Rollover(f, today, u) == f
  {
  }

  /** Before the announcement date nothing changes. */
  lemma RolloverWaitsForNextDate(f: Record, today: Date, u: real)
    requires ParsedNext(NextText(f)).Some? && Before(today, ParsedNext(NextText(f)).value)
    ensures Rollover(f, today, u) == f
  {
  }

  /** The rollover is due exactly when the next date is readable and today is
      on or after it. */
  lemma DueDateExactly(f: Record, today: Date)
    ensures DueDate(f, today).Some? <==>
      NextText(f) != Str("TBD") && ParsedNext(NextText(f)).Some? && !Before(today, ParsedNext(NextText(f)).value)
    ensures DueDate(f, today).Some? ==> DueDate(f, today) == ParsedNext(NextText(f))
  {
  }

  /** The value step writes neither `date` nor a next-date key. */
  lemma PerturbKeepsDates(m: Record, u: real)
    ensures forall k :: k in m && k != "value" && k != "change" ==> k in Perturb(m, u) && Perturb(m, u)[k] == m[k]
  {
  }

  /** Once the rollover is due it is the advance step. */
  lemma RolloverWhenDue(f: Record, today: Date, u: real)
    requires DueDate(f, today).Some?
    ensures Rollover(f, today, u) == Advance(f, NextText(f), DueDate(f, today).value, u)
  {
  }

  /** The advance step: `date` takes `t`; if the following month has the
      day, the next date moves there under its own key and the other
      next-date key stays; otherwise only `date` changed. */
  lemma AdvanceMovesDates(f: Record, t: Field, next: Date, u: real)
    requires Valid(next)
    ensures var r := Advance(f, t, next, u);
            && "date" in r && r["date"] == t
            && (NextMonth(next).None? ==> r == f["date" := t])
            && (NextMonth(next).Some? ==>
                  && NextKey(f) in r
                  && r[NextKey(f)] == Str(FormatIso(NextMonth(next).value))
                  && ("next_date" in f && "next" in f ==> r["next"] == f["next"]))
  {
    if NextMonth(next).Some? {
      var moved := f["date" := t][NextKey(f) := Str(FormatIso(NextMonth(next).value))];
      assert Advance(f, t, next, u) == Perturb(moved, u);
      PerturbKeepsDates(moved, u);
    }
  }

  /** The date written by a due rollover is one month after the old one: it
      reads back as that date, with the same day and the month index plus one. */
  lemma NextMonthWritten(next: Date)
    requires Valid(next) && NextMonth(next).Some?
    ensures var later := NextMonth(next).value;
            && ParseIso(FormatIso(later)) == Some(later)
            && MonthIndex(later) == MonthIndex(next) + 1 && later.day == next.day
            && Before(next, later)
  {
    var later := NextMonth(next).value;
    ParseFormatIso(later);
    NextMonthByIndex(next);
    NextMonthIsLater(next);
  }

  /** On or after the announcement date, `date` becomes the old next-date
      text. If the following month has that day, the next date moves to it
      (same day, month index plus one) under the key it was read from, and the
      other next-date key is untouched; otherwise only `date` changed. */
  lemma RolloverAdvancesDates(f: Record, today: Date, u: real)
    requires DueDate(f, today).Some?
    ensures var r := Rollover(f, today, u);
            var next := DueDate(f, today).value;
            && "date" in r && r["date"] == NextText(f)
            && (NextMonth(next).None? ==> r == f["date" := NextText(f)])
            && (NextMonth(next).Some? ==>
                  var later := NextMonth(next).value;
                  && NextKey(f) in r
                  && r[NextKey(f)] == Str(FormatIso(later))
                  && ParseIso(FormatIso(later)) == Some(later)
                  && MonthIndex(later) == MonthIndex(next) + 1 && later.day == next.day
                  && Before(next, later)
                  && ("next_date" in f && "next" in f ==> r["next"] == f["next"]))
  {
    var next := DueDate(f, today).value;
    RolloverWhenDue(f, today, u);
    AdvanceMovesDates(f, NextText(f), next, u);
    if NextMonth(next).Some? {
      NextMonthWritten(next);
    }
  }

  /** The value step: the numeric core `v` moves by `v * u`, the new value is
      written in the old value's style, and the change is that difference;
      a value with no numeric core leaves the record as it was. */
  lemma PerturbValue(m: Record, u: real)
    requires "value" in m
    ensures var r := Perturb(m, u);
            && (ValueCore(m["value"]).None? ==> r == m)
            && (ValueCore(m["value"]).Some? ==>
                  var v := ValueCore(m["value"]).value;
                  && r["value"] == Restyle(m["value"], v + v * u)
                  && r["change"] == Fmt(SignPrefix(v * u), Fixed2, v * u))
  {
  }

  /** The two writes of the value step, for a value whose core is `v`. */
  lemma PerturbWrites(m: Record, u: real, v: real)
    requires "value" in m && ValueCore(m["value"]) == Some(v)
    ensures Perturb(m, u) == m["value" := Restyle(m["value"], v + v * u)]["change" := Fmt(SignPrefix(v * u), Fixed2, v * u)]
  {
    assert Perturb(m, u) == PerturbCore(m, Some(v), u);
  }

  /** With `u` drawn from [-0.005, 0.005] the moved value stays within half a
      percent of the old one, and the change carries a `+` exactly when the
      value did not fall. */
  lemma DrawBounds(v: real, u: real)
    requires -0.005 <= u <= 0.005
    ensures SignPrefix(v * u) == "+" <==> v + v * u >= v
    ensures v >= 0.0 ==> v - 0.005 * v <= v + v * u <= v + 0.005 * v
    ensures v < 0.0 ==> v + 0.005 * v <= v + v * u <= v - 0.005 * v
  {
    if v >= 0.0 {
      assert v * u <= v * 0.005;
      assert v * (-0.005) <= v * u;
    } else {
      assert v * u <= v * (-0.005);
      assert v * 0.005 <= v * u;
    }
  }

  /** A due rollover whose next month exists perturbs the value as
      PerturbValue and DrawBounds say: within half a percent, restyled,
      and with a signed change; an unparseable value keeps value and change. */
  lemma RolloverPerturbsValue(f: Record, today: Date, u: real)
    requires -0.005 <= u <= 0.005
    requires DueDate(f, today).Some? && NextMonth(DueDate(f, today).value).Some?
    requires "value" in f
    ensures var r := Rollover(f, today, u);
            var later := NextMonth(DueDate(f, today).value).value;
            var moved := f["date" := NextText(f)][NextKey(f) := Str(FormatIso(later))];
            && r == Perturb(moved, u)
            && moved["value"] == f["value"]
            && (ValueCore(f["value"]).None? ==>
                  r["value"] == f["value"] && ("change" in f ==> r["change"] == f["change"]))
  {
    var next := DueDate(f, today).value;
    var t := NextText(f);
    var later := NextMonth(next).value;
    var moved := f["date" := t][NextKey(f) := Str(FormatIso(later))];
    assert Rollover(f, today, u) == Advance(f, t, next, u) == Perturb(moved, u);
    assert moved["value"] == f["value"];
    PerturbValue(moved, u);
  }

  /** The new value keeps the style of the old one, tested in the order
      `%`, `K`, `억$`; anything else, a `B` suffix included, gets two
      decimals. */
  lemma RestyleFollowsSuffix(s: string, y: real)
    ensures Restyle(Str(s), y) ==
      if Contains(s, "%") then Fmt("", Fixed1Pct, y)
      else if Contains(s, "K") then Fmt("", IntK, y)
      else if Contains(s, "억$") then Fmt("", IntEok, y)
      else Fmt("", Fixed2, y)
    ensures Suffix(Restyle(Str(s), y).spec) ==
      if Contains(s, "%") then "%" else if Contains(s, "K") then "K" else if Contains(s, "억$") then "억$" else ""
  {
  }

  /** The rollover writes only `date`, the next-date key, `value` and `change`;
      every other entry, and every existing key, survives. */
  lemma RolloverTouchesOnlyItsFields(f: Record, today: Date, u: real)
    ensures var r := Rollover(f, today, u);
            && f.Keys <= r.Keys
            && r.Keys <= f.Keys + {"date", NextKey(f), "change"}
            && forall k :: k in f && k !in {"date", NextKey(f), "value", "change"} ==> r[k] == f[k]
  {
    if DueDate(f, today).Some? {
      RolloverWhenDue(f, today, u);
      AdvanceTouchesOnlyItsFields(f, NextText(f), DueDate(f, today).value, u);
    }
  }

  lemma AdvanceTouchesOnlyItsFields(f: Record, t: Field, next: Date, u: real)
    requires Valid(next)
    ensures var r := Advance(f, t, next, u);
            && f.Keys <= r.Keys
            && r.Keys <= f.Keys + {"date", NextKey(f), "change"}
            && forall k :: k in f && k !in {"date", NextKey(f), "value", "change"} ==> r[k] == f[k]
  {
    if NextMonth(next).Some? {
      var moved := f["date" := t][NextKey(f) := Str(FormatIso(NextMonth(next).value))];
      assert Advance(f, t, next, u) == Perturb(moved, u);
      PerturbTouchesValueAndChange(moved, u);
    }
  }

  lemma PerturbTouchesValueAndChange(m: Record, u: real)
    ensures m.Keys <= Perturb(m, u).Keys <= m.Keys + {"change"}
    ensures forall k :: k in m && k != "value" && k != "change" ==> Perturb(m, u)[k] == m[k]
  {
  }

  /** A whole number followed by one of the one-letter units (`%`, `K`,
      `B`) has that number as its numeric core: the unit is stripped and
      `float()` reads the digits. */
  lemma ValueCoreOfUnitSuffix(d: string, c: char)
    requires d != [] && AllDigits(d)
    requires c == '%' || c == 'K' || c == 'B'
    ensures ValueCore(Str(d + [c])) == Some(NatValue(d) as real)
  {
    UnitSuffixStripped(d, c);
    assert ValueCore(Str(d + [c])) == ParseFloat(d);
    ParseDigits(d);
  }

  /** The unit is the only thing the chained `replace` calls remove. */
  lemma UnitSuffixStripped(d: string, c: char)
    requires AllDigits(d)
    requires c == '%' || c == 'K' || c == 'B'
    ensures RemoveEach(d + [c], ValueUnits) == d
  {
    assert [c] == ValueUnits[if c == '%' then 0 else if c == 'K' then 1 else 2];
    RemoveEachTrailing(d, c, ValueUnits);
  }

  /** An indicator dictionary held by reference, as in Python: the rollover
      edits it in place, so every map that shares it sees the edit. */
  class Item {
    var fields: Record

    constructor (f: Record)
      ensures fields == f
    {
      fields := f;
    }

    /** `check_date_rollover(self)`. The random draw it makes is returned. */
    method CheckDateRollover(today: Date) returns (u: real)
      modifies this
      ensures -0.005 <= u <= 0.005
      ensures fields == Rollover(old(fields), today, u)
    {
      u :| -0.005 <= u <= 0.005;
      var t := NextText(fields);
      if t == Str("TBD") {
        return;
      }
      var parsed := ParsedNext(t);
      if parsed.None? {
        return;
      }
      var next := parsed.value;
      if Before(today, next) {
        return;
      }
      RolloverWhenDue(fields, today, u);
      AdvanceDates(t, next, u);
    }

    /** The part of the rollover after the date comparison: `date` takes the
        old next-date text and the next date moves one month on, then the
        value is perturbed. */
    method AdvanceDates(t: Field, next: Date, u: real)
      requires Valid(next)
      modifies this
      ensures fields == Advance(old(fields), t, next, u)
    {
      var key := NextKey(fields);
      fields := fields["date" := t];
      var later := NextMonth(next);
      if later.None? {
        return;
      }
      fields := fields[key := Str(FormatIso(later.value))];
      SimulateValue(u);
    }

    /** The simulated value: the numeric core moved by the fraction `u` in the
        old value's style, and the signed change. */
    method SimulateValue(u: real)
      modifies this
      ensures fields == Perturb(old(fields), u)
    {
      if "value" !in fields {
        return;
      }
      var core := ValueCore(fields["value"]);
      if core.None? {
        return;
      }
      var v := core.value;
      var delta := v * u;
      var newValue := v + delta;
      PerturbWrites(fields, u, v);
      fields := fields["value" := Restyle(fields["value"], newValue)]["change" := Fmt(SignPrefix(delta), Fixed2, delta)];
    }
  }

  // ===========================================================================
  // Quotes for one ticker (get_ticker_data)

  /** What the market-data library gives for one symbol: `fast_info`'s last
      price and previous close, and the closes of the two-day history; or
      nothing, when the library raised. */
  datatype Quote =
    | Unavailable
    | Quote(lastPrice: Option<real>, previousClose: Option<real>, closes: seq<real>)

  /** The price: `fast_info.last_price`, else the last close in the history. */
  function QuotePrice(q: Quote): Option<real> {
    match q
    case Unavailable => None
    case Quote(last, _, closes) =>
      if last.Some? then last else if closes == [] then None else Some(closes[|closes| - 1])
  }

  /** The previous close: `fast_info.previous_close` alongside a fast price,
      else the next-to-last close, else the price itself. */
  function QuotePreviousClose(q: Quote): Option<real> {
    match q
    case Unavailable => None
    case Quote(last, prev, closes) =>
      if last.Some? then prev
      else if closes == [] then None
      else if |closes| > 1 then Some(closes[|closes| - 2])
      else Some(closes[|closes| - 1])
  }

  /** `get_ticker_data(symbol)`: None when no price is found, or when Python
      raises (a missing previous close, a previous close of zero). */
  function TickerData(q: Quote): Option<Record> {
    match (QuotePrice(q), QuotePreviousClose(q))
    case (Some(price), Some(prev)) =>
      if prev == 0.0 then None
      else
        var change := price - prev;
        var percent := change / prev * 100.0;
        var sign := SignPrefix(change);
        Some(map[
          "value" := Fmt("", Comma2, price),
          "change" := Fmt(sign, Comma2, change),
          "percent" := Fmt(sign, Comma2, percent),
          "raw_change" := Num(change),
          "raw_percent" := Num(percent)])
    case _ => None
  }

  /** A quote exists exactly when a price and a non-zero previous close are
      known; then the change is their difference, and change and percent both
      carry `+` exactly when that difference is not negative. */
  lemma TickerDataShape(q: Quote)
    ensures TickerData(q).Some? <==>
      QuotePrice(q).Some? && QuotePreviousClose(q).Some? && QuotePreviousClose(q).value != 0.0
    ensures TickerData(q).Some? ==>
      var r := TickerData(q).value;
      var change := QuotePrice(q).value - QuotePreviousClose(q).value;
      && r.Keys == {"value", "change", "percent", "raw_change", "raw_percent"}
      && r["value"] == Fmt("", Comma2, QuotePrice(q).value)
      && r["raw_change"] == Num(change)
      && r["change"].x == change
      && (r["change"].prefix == "+" <==> change >= 0.0)
      && r["percent"].prefix == r["change"].prefix
      && r["percent"].x * QuotePreviousClose(q).value == change * 100.0
  {
  }

  /** No price, no quote. */
  lemma TickerDataNeedsPrice(q: Quote)
    requires q.Unavailable? || (q.lastPrice.None? && q.closes == [])
    ensures TickerData(q).None?
  {
  }

  /** A history of one row makes the previous close equal the price, so the
      change is zero and is shown as `+0.00`. */
  lemma TickerDataSingleRow(p: real)
    requires p != 0.0
    ensures var r := TickerData(Quote(None, None, [p]));
            r.Some? && r.value["raw_change"] == Num(0.0) && r.value["change"] == Fmt("+", Comma2, 0.0)
  {
  }

  // ===========================================================================
  // Snapshots and the live overlay (get_stocks_data, get_rates_data,
  // get_exchange_data, get_economy_data)

  /** The snapshot dictionaries' values, keyed by indicator. */
  type Snapshot = map<string, Record>

  /** The snapshot `m` with each ticker key replaced by its live quote where
      the fetch returned one, in the order of `live` (pairs of key and
      symbol). */
  function Overlay(m: Snapshot, live: seq<(string, string)>, feed: string -> Quote): (r: Snapshot)
    ensures (forall i :: 0 <= i < |live| ==> live[i].0 in m) ==> r.Keys == m.Keys
  {
    if live == [] then m
    else
      var before := Overlay(m, live[..|live| - 1], feed);
      var (key, symbol) := live[|live| - 1];
      match TickerData(feed(symbol))
      case Some(d) => before[key := d]
      case None => before
  }

  /** The quote that wins for `key`: the last entry for it whose fetch
      returned data. */
  function LiveQuote(live: seq<(string, string)>, key: string, feed: string -> Quote): Option<Record> {
    if live == [] then None
    else if live[|live| - 1].0 == key && TickerData(feed(live[|live| - 1].1)).Some? then
      TickerData(feed(live[|live| - 1].1))
    else LiveQuote(live[..|live| - 1], key, feed)
  }

  /** The overlay has exactly the snapshot's keys; a key takes its live
      quote when one was fetched and keeps its snapshot value otherwise. */
  lemma {:induction false} OverlayAt(m: Snapshot, live: seq<(string, string)>, feed: string -> Quote)
    requires forall i :: 0 <= i < |live| ==> live[i].0 in m
    ensures Overlay(m, live, feed).Keys == m.Keys
    ensures forall k :: k in m ==> Overlay(m, live, feed)[k] == LiveQuote(live, k, feed).GetOr(m[k])
  {
    if live != [] {
      OverlayAt(m, live[..|live| - 1], feed);
    }
  }

  /** A key no ticker is fetched for keeps its snapshot value. */
  lemma {:induction false} LiveQuoteOfOtherKey(live: seq<(string, string)>, key: string, feed: string -> Quote)
    requires forall i :: 0 <= i < |live| ==> live[i].0 != key
    ensures LiveQuote(live, key, feed).None?
  {
    if live != [] {
      LiveQuoteOfOtherKey(live[..|live| - 1], key, feed);
    }
  }

  /** One more entry of `live` overlays one more fetch. */
  lemma OverlayStep(m: Snapshot, live: seq<(string, string)>, i: nat, feed: string -> Quote)
    requires i < |live|
    ensures Overlay(m, live[..i + 1], feed) ==
      match TickerData(feed(live[i].1))
      case Some(d) => Overlay(m, live[..i], feed)[live[i].0 := d]
      case None => Overlay(m, live[..i], feed)
  {
    assert live[..i + 1][..i] == live[..i];
  }

  /** With distinct keys, a key's winning quote is its own fetch. */
  lemma {:induction false} LiveQuoteOfUniqueKey(live: seq<(string, string)>, i: nat, feed: string -> Quote)
    requires i < |live|
    requires forall a, b :: 0 <= a < b < |live| ==> live[a].0 != live[b].0
    ensures LiveQuote(live, live[i].0, feed) == TickerData(feed(live[i].1))
  {
    var n := |live| - 1;
    if i < n {
      LiveQuoteOfUniqueKey(live[..n], i, feed);
    } else {
      LiveQuoteOfOtherKey(live[..n], live[i].0, feed);
    }
  }

  /** With distinct keys: the overlay keeps the key set, each listed key
      holds its own fetch's quote or its snapshot value, and every key not
      listed keeps its snapshot value. */
  lemma OverlayAtDistinct(m: Snapshot, live: seq<(string, string)>, feed: string -> Quote)
    requires forall i :: 0 <= i < |live| ==> live[i].0 in m
    requires forall a, b :: 0 <= a < b < |live| ==> live[a].0 != live[b].0
    ensures Overlay(m, live, feed).Keys == m.Keys
    ensures forall i :: 0 <= i < |live| ==>
      Overlay(m, live, feed)[live[i].0] == TickerData(feed(live[i].1)).GetOr(m[live[i].0])
    ensures forall k :: k in m && (forall i :: 0 <= i < |live| ==> live[i].0 != k) ==> Overlay(m, live, feed)[k] == m[k]
  {
    OverlayAt(m, live, feed);
    forall i | 0 <= i < |live|
      ensures LiveQuote(live, live[i].0, feed) == TickerData(feed(live[i].1))
    {
      LiveQuoteOfUniqueKey(live, i, feed);
    }
    forall k | k in m && (forall i :: 0 <= i < |live| ==> live[i].0 != k)
      ensures LiveQuote(live, k, feed).None?
    {
      LiveQuoteOfOtherKey(live, k, feed);
    }
  }

  /** When no fetch returns data the overlay is the snapshot itself. */
  lemma {:induction false} OverlayOfDeadFeed(m: Snapshot, live: seq<(string, string)>, feed: string -> Quote)
    requires forall i :: 0 <= i < |live| ==> TickerData(feed(live[i].1)).None?
    ensures Overlay(m, live, feed) == m
  {
    if live != [] {
      OverlayOfDeadFeed(m, live[..|live| - 1], feed);
    }
  }

  /** The rollover of one item, as a step taking the item and its draw. */
  function RolloverOn(today: Date): (Record, real) -> Record {
    (f: Record, u: real) => Rollover(f, today, u)
  }

  /** The items of `keys` updated in turn by `step`, `keys[i]` with the draw
      `draws[i]`. */
  function RollAll(m: Snapshot, keys: seq<string>, step: (Record, real) -> Record, draws: seq<real>): (r: Snapshot)
    requires |draws| == |keys|
    requires forall i :: 0 <= i < |keys| ==> keys[i] in m
    ensures r.Keys == m.Keys
  {
    if keys == [] then m
    else
      var n := |keys| - 1;
      var before := RollAll(m, keys[..n], step, draws[..n]);
      before[keys[n] := step(before[keys[n]], draws[n])]
  }

  /** Updating distinct keys keeps the key set, updates each listed item
      once from its snapshot value with its own draw, and leaves the rest
      alone. */
  lemma {:induction false} RollAllAt(m: Snapshot, keys: seq<string>, step: (Record, real) -> Record, draws: seq<real>)
    requires |draws| == |keys|
    requires forall i :: 0 <= i < |keys| ==> keys[i] in m
    requires forall i, j :: 0 <= i < j < |keys| ==> keys[i] != keys[j]
    ensures forall i :: 0 <= i < |keys| ==>
      RollAll(m, keys, step, draws)[keys[i]] == step(m[keys[i]], draws[i])
    ensures forall k :: k in m && k !in keys ==> RollAll(m, keys, step, draws)[k] == m[k]
  {
    if keys != [] {
      var n := |keys| - 1;
      RollAllAt(m, keys[..n], step, draws[..n]);
      assert forall i :: 0 <= i < n ==> keys[..n][i] == keys[i] && draws[..n][i] == draws[i];
      assert forall k :: k in keys && k != keys[n] ==> k in keys[..n];
    }
  }

  const StocksTickers: seq<(string, string)> := [
    ("sp_futures", "ES=F"), ("dow_futures", "YM=F"), ("nasdaq_futures", "NQ=F"),
    ("wti", "CL=F"), ("russell", "RTY=F"), ("vix", "^VIX")]

  const RatesTickers: seq<(string, string)> := [("us_10y", "^TNX")]

  const RatesRollovers: seq<string> := ["fed_rate", "jp_policy", "kr_base"]

  const ExchangeTickers: seq<(string, string)> := [("dxy", "DX-Y.NYB"), ("usd_krw", "KRW=X")]

  const ExchangeRollovers: seq<string> := ["foreign_reserves", "foreign_bond"]

  const EconomyRollovers: seq<string> := ["cci", "pmi", "unemployment", "non_farm"]

  /** The dictionaries the items of a map currently hold. */
  function View(m: map<string, Item>): Snapshot
    reads m.Values
  {
    map k | k in m :: m[k].fields
  }

  /** No two keys share one item. */
  predicate Distinct(m: map<string, Item>) {
    forall a, b :: a in m && b in m && a != b ==> m[a] != m[b]
  }

  /** Builds a snapshot dictionary: one new item per entry. */
  method NewItems(lit: Snapshot) returns (m: map<string, Item>)
    ensures m.Keys == lit.Keys && View(m) == lit && Distinct(m)
    ensures forall k :: k in m ==> fresh(m[k])
  {
    m := map[];
    var todo := lit.Keys;
    while todo != {}
      invariant todo <= lit.Keys && m.Keys == lit.Keys - todo
      invariant forall k :: k in m ==> fresh(m[k]) && m[k].fields == lit[k]
      invariant Distinct(m)
      decreases todo
    {
      var k :| k in todo;
      var item := new Item(lit[k]);
      m := m[k := item];
      todo := todo - {k};
    }
  }

  /** Rolls over the items of `keys` in turn, in place; the draws are
      returned in the same order. */
  method RolloverEach(items: map<string, Item>, keys: seq<string>, today: Date) returns (draws: seq<real>)
    requires forall i :: 0 <= i < |keys| ==> keys[i] in items
    requires Distinct(items)
    modifies items.Values
    ensures |draws| == |keys|
    ensures forall i :: 0 <= i < |draws| ==> -0.005 <= draws[i] <= 0.005
    ensures View(items) == RollAll(old(View(items)), keys, RolloverOn(today), draws)
  {
    ghost var start := View(items);
    draws := [];
    for i := 0 to |keys|
      invariant |draws| == i
      invariant forall j :: 0 <= j < i ==> -0.005 <= draws[j] <= 0.005
      invariant View(items) == RollAll(start, keys[..i], RolloverOn(today), draws)
    {
      var key := keys[i];
      var u := RolloverShared(items, key, items[key], today);
      RollAllSnoc(start, keys, i, RolloverOn(today), draws, u);
      draws := draws + [u];
    }
    assert keys[..|keys|] == keys;
  }

  /** One more key rolled is one more update of the rolled map. */
  lemma RollAllSnoc(m: Snapshot, keys: seq<string>, i: nat, step: (Record, real) -> Record, draws: seq<real>, u: real)
    requires i < |keys| && |draws| == i
    requires forall j :: 0 <= j < |keys| ==> keys[j] in m
    ensures var before := RollAll(m, keys[..i], step, draws);
            RollAll(m, keys[..i + 1], step, draws + [u]) == before[keys[i] := step(before[keys[i]], u)]
  {
    assert keys[..i + 1][..i] == keys[..i] && (draws + [u])[..i] == draws;
  }

  // ===========================================================================
  // The four category readers

  /** The ticker keys of `get_stocks_data` are in the snapshot, and the
      high-yield entry is not one of them. */
  predicate StocksShape(lit: Snapshot) {
    && "high_yield" in lit
    && forall i :: 0 <= i < |StocksTickers| ==> StocksTickers[i].0 in lit && StocksTickers[i].0 != "high_yield"
  }

  /** What `get_stocks_data` returns for the snapshot `lit`: each ticker's
      live quote where one was fetched, and the shared high-yield item rolled
      over with the draw `u`. */
  function StocksData(lit: Snapshot, feed: string -> Quote, today: Date, u: real): Snapshot
    requires StocksShape(lit)
  {
    Overlay(lit, StocksTickers, feed)["high_yield" := Rollover(lit["high_yield"], today, u)]
  }

  /** `get_stocks_data` returns the snapshot's keys; each ticker key holds
      its live quote or, when the fetch gave nothing, its snapshot value; the
      high-yield entry is rolled over; every other entry is the snapshot's. */
  lemma StocksDataAt(lit: Snapshot, feed: string -> Quote, today: Date, u: real)
    requires StocksShape(lit)
    ensures var r := StocksData(lit, feed, today, u);
            && r.Keys == lit.Keys
            && (forall i :: 0 <= i < |StocksTickers| ==>
                  r[StocksTickers[i].0] == TickerData(feed(StocksTickers[i].1)).GetOr(lit[StocksTickers[i].0]))
            && r["high_yield"] == Rollover(lit["high_yield"], today, u)
            && (forall k :: k in lit && k != "high_yield" && (forall i :: 0 <= i < |StocksTickers| ==> StocksTickers[i].0 != k) ==>
                  r[k] == lit[k])
  {
    OverlayAtDistinct(lit, StocksTickers, feed);
  }


  /** The ticker and policy-rate keys of `get_rates_data` are in the snapshot. */
  predicate RatesShape(lit: Snapshot) {
    && "us_10y" in lit
    && forall i :: 0 <= i < |RatesRollovers| ==> RatesRollovers[i] in lit
  }

  /** What `get_rates_data` returns for the snapshot `lit`: the live
      ten-year yield over it, then the three policy rates rolled over in
      turn. */
  function RatesData(lit: Snapshot, feed: string -> Quote, today: Date, draws: seq<real>): Snapshot
    requires RatesShape(lit) && |draws| == |RatesRollovers|
  {
    RollAll(Overlay(lit, RatesTickers, feed), RatesRollovers, RolloverOn(today), draws)
  }

  /** `get_rates_data` returns the snapshot's keys; `us_10y` is the live
      quote or the snapshot's; each policy rate is its snapshot entry rolled
      over with its own draw; the other entries are the snapshot's. */
  lemma RatesDataAt(lit: Snapshot, feed: string -> Quote, today: Date, draws: seq<real>)
    requires RatesShape(lit) && |draws| == |RatesRollovers|
    ensures var r := RatesData(lit, feed, today, draws);
            && r.Keys == lit.Keys
            && r["us_10y"] == TickerData(feed("^TNX")).GetOr(lit["us_10y"])
            && (forall i :: 0 <= i < |RatesRollovers| ==>
                  r[RatesRollovers[i]] == Rollover(lit[RatesRollovers[i]], today, draws[i]))
            && (forall k :: k in lit && k != "us_10y" && k !in RatesRollovers ==> r[k] == lit[k])
  {
    var o := Overlay(lit, RatesTickers, feed);
    OverlayAtDistinct(lit, RatesTickers, feed);
    RollAllAt(o, RatesRollovers, RolloverOn(today), draws);
  }


  /** The quote and reserve keys of `get_exchange_data` are in the snapshot. */
  predicate ExchangeShape(lit: Snapshot) {
    && "dxy" in lit && "usd_krw" in lit
    && forall i :: 0 <= i < |ExchangeRollovers| ==> ExchangeRollovers[i] in lit
  }

  /** What `get_exchange_data` returns for the snapshot `lit`: the two
      reserve figures rolled over in turn, then the live dollar index and won
      rate over them. */
  function ExchangeData(lit: Snapshot, feed: string -> Quote, today: Date, draws: seq<real>): Snapshot
    requires ExchangeShape(lit) && |draws| == |ExchangeRollovers|
  {
    Overlay(RollAll(lit, ExchangeRollovers, RolloverOn(today), draws), ExchangeTickers, feed)
  }

  /** `get_exchange_data` returns the snapshot's keys; each reserve figure is
      rolled over with its own draw; each quote is live or the snapshot's. */
  lemma ExchangeDataAt(lit: Snapshot, feed: string -> Quote, today: Date, draws: seq<real>)
    requires ExchangeShape(lit) && |draws| == |ExchangeRollovers|
    ensures var r := ExchangeData(lit, feed, today, draws);
            && r.Keys == lit.Keys
            && (forall i :: 0 <= i < |ExchangeRollovers| ==>
                  r[ExchangeRollovers[i]] == Rollover(lit[ExchangeRollovers[i]], today, draws[i]))
            && (forall i :: 0 <= i < |ExchangeTickers| ==>
                  r[ExchangeTickers[i].0] == TickerData(feed(ExchangeTickers[i].1)).GetOr(lit[ExchangeTickers[i].0]))
  {
    RolledThenOverlaidAt(lit, ExchangeRollovers, ExchangeTickers, RolloverOn(today), feed, draws);
  }

  /** The overlay of a rolled-over map, when no ticker key is rolled over:
      each rolled key has its step, each ticker key its live quote or the
      map's entry. */
  lemma RolledThenOverlaidAt(m: Snapshot, keys: seq<string>, live: seq<(string, string)>,
                             step: (Record, real) -> Record, feed: string -> Quote, draws: seq<real>)
    requires |draws| == |keys|
    requires forall i :: 0 <= i < |keys| ==> keys[i] in m
    requires forall i, j :: 0 <= i < j < |keys| ==> keys[i] != keys[j]
    requires forall i :: 0 <= i < |live| ==> live[i].0 in m && live[i].0 !in keys
    requires forall a, b :: 0 <= a < b < |live| ==> live[a].0 != live[b].0
    ensures var r := Overlay(RollAll(m, keys, step, draws), live, feed);
            && r.Keys == m.Keys
            && (forall i :: 0 <= i < |keys| ==> r[keys[i]] == step(m[keys[i]], draws[i]))
            && (forall i :: 0 <= i < |live| ==> r[live[i].0] == TickerData(feed(live[i].1)).GetOr(m[live[i].0]))
  {
    var rolled := RollAll(m, keys, step, draws);
    RollAllAt(m, keys, step, draws);
    OverlayAtDistinct(rolled, live, feed);
    forall i | 0 <= i < |keys|
      ensures forall j :: 0 <= j < |live| ==> live[j].0 != keys[i]
    {
    }
  }


  /** The indicators `get_economy_data` rolls over are in the snapshot. */
  predicate EconomyShape(lit: Snapshot) {
    forall i :: 0 <= i < |EconomyRollovers| ==> EconomyRollovers[i] in lit
  }

  /** What `get_economy_data` returns for the snapshot `lit`: the four
      indicators rolled over in dictionary order. */
  function EconomyData(lit: Snapshot, today: Date, draws: seq<real>): Snapshot
    requires EconomyShape(lit) && |draws| == |EconomyRollovers|
  {
    RollAll(lit, EconomyRollovers, RolloverOn(today), draws)
  }

  /** `get_economy_data` returns the snapshot's keys, each indicator its
      snapshot entry rolled over with its own draw. */
  lemma EconomyDataAt(lit: Snapshot, today: Date, draws: seq<real>)
    requires EconomyShape(lit) && |draws| == |EconomyRollovers|
    ensures var r := EconomyData(lit, today, draws);
            && r.Keys == lit.Keys
            && forall i :: 0 <= i < |EconomyRollovers| ==>
                 r[EconomyRollovers[i]] == Rollover(lit[EconomyRollovers[i]], today, draws[i])
  {
    RollAllAt(lit, EconomyRollovers, RolloverOn(today), draws);
  }


  /** `result[key] = data` for a fetch that returned data: the key gets a new
      item holding the quote; a failed fetch leaves the map alone. */
  method OverlayQuote(items: map<string, Item>, key: string, symbol: string, feed: string -> Quote)
    returns (r: map<string, Item>)
    requires key in items
    ensures r.Keys == items.Keys
    ensures forall k :: k in r && k != key ==> r[k] == items[k]
    ensures r[key] == items[key] || fresh(r[key])
    ensures Distinct(items) ==> Distinct(r)
    ensures View(r) == match TickerData(feed(symbol))
                       case Some(d) => old(View(items))[key := d]
                       case None => old(View(items))
  {
    r := items;
    var data := TickerData(feed(symbol));
    if data.Some? {
      var item := new Item(data.value);
      r := r[key := item];
    }
  }

  /** The rollover applied through `item`, which `key` of `view` shares and no
      other key does: the map sees the edit at `key` only. */
  method RolloverShared(view: map<string, Item>, key: string, item: Item, today: Date) returns (u: real)
    requires key in view && view[key] == item
    requires forall k :: k in view && k != key ==> view[k] != item
    modifies item
    ensures -0.005 <= u <= 0.005
    ensures View(view) == old(View(view))[key := Rollover(old(View(view))[key], today, u)]
  {
    ghost var before := View(view);
    ghost var f := item.fields;
    assert before[key] == f;
    u := item.CheckDateRollover(today);
    ghost var after := item.fields;
    assert forall k :: k in view && k != key ==> view[k].fields == before[k];
    assert View(view) == before[key := after];
  }

  /** The body of `get_stocks_data` for the snapshot `lit` and its ticker
      list. The result is a shallow copy of the snapshot, so the rollover
      applied through the snapshot's high-yield item shows in the result. */
  method StocksFrom(lit: Snapshot, tickers: seq<(string, string)>, feed: string -> Quote, today: Date) returns (result: map<string, Item>, u: real)
    requires "high_yield" in lit
    requires forall i :: 0 <= i < |tickers| ==> tickers[i].0 in lit && tickers[i].0 != "high_yield"
    ensures forall k :: k in result ==> fresh(result[k])
    ensures -0.005 <= u <= 0.005
    ensures View(result) == Overlay(lit, tickers, feed)["high_yield" := Rollover(lit["high_yield"], today, u)]
  {
    var snapshot := NewItems(lit);
    var shared := snapshot["high_yield"];
    result := OverlayEach(snapshot, tickers, feed);
    assert forall k :: k in result && k != "high_yield" ==> result[k] != shared;
    OverlayAt(lit, tickers, feed);
    LiveQuoteOfOtherKey(tickers, "high_yield", feed);
    u := RolloverShared(result, "high_yield", shared, today);
  }

  /** `result[key] = data` for each ticker in turn: the view becomes the
      overlay, a key no ticker names keeps its item, and every other item is
      the old one or a new one. */
  method OverlayEach(items: map<string, Item>, tickers: seq<(string, string)>, feed: string -> Quote) returns (result: map<string, Item>)
    requires forall i :: 0 <= i < |tickers| ==> tickers[i].0 in items
    ensures result.Keys == items.Keys
    ensures forall k :: k in result ==> result[k] == items[k] || fresh(result[k])
    ensures forall k :: k in result && (forall i :: 0 <= i < |tickers| ==> tickers[i].0 != k) ==> result[k] == items[k]
    ensures View(result) == Overlay(old(View(items)), tickers, feed)
  {
    ghost var start := View(items);
    result := items;
    for i := 0 to |tickers|
      invariant result.Keys == items.Keys
      invariant forall k :: k in result ==> result[k] == items[k] || fresh(result[k])
      invariant forall k :: k in result && (forall j :: 0 <= j < i ==> tickers[j].0 != k) ==> result[k] == items[k]
      invariant View(result) == Overlay(start, tickers[..i], feed)
    {
      var (key, symbol) := tickers[i];
      OverlayStep(start, tickers, i, feed);
      result := OverlayQuote(result, key, symbol, feed);
    }
    assert tickers[..|tickers|] == tickers;
  }


  /** The body of `get_rates_data` for the snapshot `lit` and the keys it
      rolls over. */
  method RatesFrom(lit: Snapshot, rollovers: seq<string>, feed: string -> Quote, today: Date) returns (snapshot: map<string, Item>, draws: seq<real>)
    requires "us_10y" in lit
    requires forall i :: 0 <= i < |rollovers| ==> rollovers[i] in lit
    ensures forall k :: k in snapshot ==> fresh(snapshot[k])
    ensures |draws| == |rollovers|
    ensures forall i :: 0 <= i < |draws| ==> -0.005 <= draws[i] <= 0.005
    ensures View(snapshot) == RollAll(Overlay(lit, RatesTickers, feed), rollovers, RolloverOn(today), draws)
  {
    snapshot := NewItems(lit);
    snapshot := OverlayQuote(snapshot, "us_10y", "^TNX", feed);
    OverlayStep(lit, RatesTickers, 0, feed);
    assert RatesTickers[..0] == [] && RatesTickers[..1] == RatesTickers;
    ghost var live := View(snapshot);
    assert live == Overlay(lit, RatesTickers, feed);
    draws := RolloverEach(snapshot, rollovers, today);
  }


  /** The body of `get_exchange_data` for the snapshot `lit` and the keys it
      rolls over. */
  method ExchangeFrom(lit: Snapshot, rollovers: seq<string>, feed: string -> Quote, today: Date) returns (snapshot: map<string, Item>, draws: seq<real>)
    requires "dxy" in lit && "usd_krw" in lit
    requires forall i :: 0 <= i < |rollovers| ==> rollovers[i] in lit
    ensures forall k :: k in snapshot ==> fresh(snapshot[k])
    ensures |draws| == |rollovers|
    ensures forall i :: 0 <= i < |draws| ==> -0.005 <= draws[i] <= 0.005
    ensures View(snapshot) == Overlay(RollAll(lit, rollovers, RolloverOn(today), draws), ExchangeTickers, feed)
  {
    snapshot := NewItems(lit);
    draws := RolloverEach(snapshot, rollovers, today);
    snapshot := ExchangeQuotes(snapshot, feed);
  }

  /** The two live fetches of `get_exchange_data`, after the rollovers. */
  method ExchangeQuotes(items: map<string, Item>, feed: string -> Quote) returns (snapshot: map<string, Item>)
    requires "dxy" in items && "usd_krw" in items
    ensures snapshot.Keys == items.Keys
    ensures forall k :: k in snapshot ==> snapshot[k] == items[k] || fresh(snapshot[k])
    ensures View(snapshot) == Overlay(old(View(items)), ExchangeTickers, feed)
  {
    ghost var rolled := View(items);
    snapshot := OverlayQuote(items, "dxy", "DX-Y.NYB", feed);
    OverlayStep(rolled, ExchangeTickers, 0, feed);
    assert ExchangeTickers[..0] == [];
    snapshot := OverlayQuote(snapshot, "usd_krw", "KRW=X", feed);
    OverlayStep(rolled, ExchangeTickers, 1, feed);
    assert ExchangeTickers[..2] == ExchangeTickers;
  }


  /** The body of `get_economy_data` for the snapshot `lit` and the keys it
      rolls over. */
  method EconomyFrom(lit: Snapshot, rollovers: seq<string>, today: Date) returns (data: map<string, Item>, draws: seq<real>)
    requires forall i :: 0 <= i < |rollovers| ==> rollovers[i] in lit
    ensures forall k :: k in data ==> fresh(data[k])
    ensures |draws| == |rollovers|
    ensures forall i :: 0 <= i < |draws| ==> -0.005 <= draws[i] <= 0.005
    ensures View(data) == RollAll(lit, rollovers, RolloverOn(today), draws)
  {
    data := NewItems(lit);
    draws := RolloverEach(data, rollovers, today);
  }
}

/** The four readers on the snapshots the backend ships with. */
module FinanceSnapshots {
  import opened Wrappers
  import opened Dates
  import opened Fields
  import opened FinanceService

  /** The hard-coded snapshot of each reader, as the source writes it. */
  const StocksSnapshot: Snapshot := map[
    "sp_futures" := map["value" := Str("6,878.25"), "change" := Str("-7.25"), "percent" := Str("-0.11")],
    "dow_futures" := map["value" := Str("48,001.00"), "change" := Str("-49.00"), "percent" := Str("-0.10")],
    "nasdaq_futures" := map["value" := Str("25,718.25"), "change" := Str("+95.50"), "percent" := Str("+0.37")],
    "wti" := map["value" := Str("60.08"), "change" := Str("+0.41"), "percent" := Str("+0.69")],
    "russell" := map["value" := Str("2,520.95"), "change" := Str("-10.21"), "percent" := Str("-0.40")],
    "vix" := map["value" := Str("15.42"), "change" := Str("-1.01"), "percent" := Str("-6.15")],
    "high_yield" := map["value" := Str("2.89"), "date" := Str("2025-12-04"), "next" := Str("2025-12-05")],
    "fear_greed" := map["value" := Str("40"), "change" := Str("0"), "raw_change" := Num(0.0)]]

  const RatesSnapshot: Snapshot := map[
    "us_10y" := map["value" := Str("4.14"), "change" := Str("-0.04"), "percent" := Str("-0.96")],
    "us_2y" := map["value" := Str("3.56"), "change" := Str("-0.03"), "percent" := Str("-0.84")],
    "us_10_2_spread" := map["value" := Str("0.58"), "change" := Str("-0.01"), "percent" := Str("-1.72")],
    "fed_rate" := map["value" := Str("4.50"), "change" := Str("0.00"), "percent" := Str("0.00"), "date" := Str("2025-11-07"), "next_date" := Str("2025-12-18")],
    "jp_2y" := map["value" := Str("1.01"), "change" := Str("+0.01"), "percent" := Str("+0.99")],
    "jp_policy" := map["value" := Str("0.50"), "change" := Str("0.00"), "date" := Str("2025-10-31"), "next_date" := Str("2025-12-19")],
    "kr_10y" := map["value" := Str("3.375"), "change" := Str("+0.02"), "percent" := Str("+0.60")],
    "kr_2y" := map["value" := Str("2.87"), "change" := Str("-0.01"), "percent" := Str("-0.35")],
    "kr_base" := map["value" := Str("2.50"), "change" := Str("0.00"), "date" := Str("2025-11-28"), "next_date" := Str("2026-01-11")],
    "sofr" := map["value" := Str("3.92"), "change" := Str("-0.03")]]

  const ExchangeSnapshot: Snapshot := map[
    "dxy" := map["value" := Str("98.99"), "change" := Str("-0.01")],
    "usd_krw" := map["value" := Str("1,473.81"), "change" := Str("+0.60")],
    "foreign_reserves" := map["value" := Str("4,307억$"), "change" := Str("+19억"), "date" := Str("2025-12-04"), "next_date" := Str("2026-01-05")],
    "foreign_bond" := map["value" := Str("1,807억$"), "change" := Str("+46억"), "date" := Str("2025-12-01"), "next_date" := Str("2026-01-01")]]

  const EconomySnapshot: Snapshot := map[
    "cci" := map["value" := Str("88.7"), "change" := Str("-6.8"), "date" := Str("2025-11-25"), "next_date" := Str("2025-12-23")],
    "pmi" := map["value" := Str("48.2"), "change" := Str("-0.3"), "date" := Str("2025-12-01"), "next_date" := Str("2026-01-02")],
    "unemployment" := map["value" := Str("4.4%"), "change" := Str("+0.0%"), "date" := Str("2025-11-20"), "next_date" := Str("2025-12-16")],
    "non_farm" := map["value" := Str("119K"), "change" := Str("+12K"), "date" := Str("2025-11-20"), "next_date" := Str("2025-12-16")]]

  /** The stocks snapshot has that shape; its eight keys are these. */
  lemma StocksSnapshotShape()
    ensures StocksShape(StocksSnapshot)
    ensures StocksSnapshot.Keys == {"sp_futures", "dow_futures", "nasdaq_futures", "wti", "russell", "vix", "high_yield", "fear_greed"}
  {
  }

  /** The rates snapshot has that shape; its ten keys are these. */
  lemma RatesSnapshotShape()
    ensures RatesShape(RatesSnapshot)
    ensures RatesSnapshot.Keys == {"us_10y", "us_2y", "us_10_2_spread", "fed_rate", "jp_2y", "jp_policy", "kr_10y", "kr_2y", "kr_base", "sofr"}
  {
  }

  /** The exchange snapshot has that shape; its four keys are these. */
  lemma ExchangeSnapshotShape()
    ensures ExchangeShape(ExchangeSnapshot)
    ensures ExchangeSnapshot.Keys == {"dxy", "usd_krw", "foreign_reserves", "foreign_bond"}
  {
  }

  /** The economy snapshot has that shape; its four keys are the ones rolled. */
  lemma EconomySnapshotShape()
    ensures EconomyShape(EconomySnapshot)
    ensures EconomySnapshot.Keys == {"cci", "pmi", "unemployment", "non_farm"}
  {
  }

  /** `get_stocks_data()`. Returns the rollover's draw. */
  method GetStocksData(feed: string -> Quote, today: Date) returns (result: map<string, Item>, u: real)
    ensures forall k :: k in result ==> fresh(result[k])
    ensures -0.005 <= u <= 0.005
    ensures View(result) == StocksData(StocksSnapshot, feed, today, u)
  {
    StocksSnapshotShape();
    result, u := StocksFrom(StocksSnapshot, StocksTickers, feed, today);
  }

  /** `get_rates_data()`. Returns the rollovers' draws in order. */
  method GetRatesData(feed: string -> Quote, today: Date) returns (snapshot: map<string, Item>, draws: seq<real>)
    ensures forall k :: k in snapshot ==> fresh(snapshot[k])
    ensures |draws| == |RatesRollovers|
    ensures forall i :: 0 <= i < |draws| ==> -0.005 <= draws[i] <= 0.005
    ensures View(snapshot) == RatesData(RatesSnapshot, feed, today, draws)
  {
    RatesSnapshotShape();
    snapshot, draws := RatesFrom(RatesSnapshot, RatesRollovers, feed, today);
  }

  /** `get_exchange_data()`. Returns the rollovers' draws in order. */
  method GetExchangeData(feed: string -> Quote, today: Date) returns (snapshot: map<string, Item>, draws: seq<real>)
    ensures forall k :: k in snapshot ==> fresh(snapshot[k])
    ensures |draws| == |ExchangeRollovers|
    ensures forall i :: 0 <= i < |draws| ==> -0.005 <= draws[i] <= 0.005
    ensures View(snapshot) == ExchangeData(ExchangeSnapshot, feed, today, draws)
  {
    ExchangeSnapshotShape();
    snapshot, draws := ExchangeFrom(ExchangeSnapshot, ExchangeRollovers, feed, today);
  }

  /** `get_economy_data()`. Returns the rollovers' draws in order. */
  method GetEconomyData(today: Date) returns (data: map<string, Item>, draws: seq<real>)
    ensures forall k :: k in data ==> fresh(data[k])
    ensures |draws| == |EconomyRollovers|
    ensures forall i :: 0 <= i < |draws| ==> -0.005 <= draws[i] <= 0.005
    ensures View(data) == EconomyData(EconomySnapshot, today, draws)
  {
    EconomySnapshotShape();
    data, draws := EconomyFrom(EconomySnapshot, EconomyRollovers, today);
  }
}
