# Market dashboard backend — a Dafny model

The backend serves a dashboard of market indicators: US stock futures,
interest rates, exchange rates and economic releases. It has four parts.

- **The finance service** keeps a hard-coded snapshot for each category.
  It overlays live quotes from the market-data library on that snapshot.
  It also "rolls over" scheduled indicators. Once an indicator's
  announcement date has passed, its `date` takes the old `next_date`,
  `next_date` moves one month on, and the value is nudged by a random
  fraction of at most half a percent, written in the old value's style.
- **The crawlers** scrape single figures:
  - an Investing.com quote, with its percent cleaned of parentheses;
  - an Investing.com economic-calendar history table: the latest two
    releases, the next announcement and `parse_val`;
  - an IndexerGo table cell that holds sign, number and percent;
  - a Google Finance page's change and percent badges;
  - the New York Fed's SOFR feed: sort newest first, keep SOFR, take the
    latest;
  - the KRX foreign-holding ratio: search back up to seven days, then
    intersect the two tables and sum.
- **The web application** holds the cache that four jobs refill. It records
  the stocks refresh timestamps that `/api/timer` reports, and it has a
  startup sequence that runs the jobs once and then registers them with
  the scheduler.

Each Python dictionary that the rollover edits in place is a Dafny
`class Item`. The `get_*_data` readers are methods over maps of items, so
the aliasing that `get_stocks_data` relies on (a shallow copy whose
high-yield item is the snapshot's) is part of the model. The web
application is a `class App` with the cache and timestamps as fields. The
crawlers' pure logic is functions, each with a reference definition and
lemmas. The loops in the crawlers are methods proved against those
functions.

Formatted numbers stay symbolic: `Fmt(prefix, spec, x)` stands for
`f"{prefix}{x:spec}"`. The prefix is computed as the source computes it.
What may be fetched is passed in as a parameter:
- a quote feed;
- the rows of a scraped table;
- the SOFR entries;
- the market data for each date;
- the outcome of each service call;
- the clock as a date, an hour or milliseconds.

Modules:
- `Wrappers`: `Option`.
- `Text`: Python's `isspace`, `strip`, `replace`, `split`, `in`, `float()` and string order.
- `Dates`: `strptime`/`strftime` of `%Y-%m-%d`, the month step and the day step.
- `Fields`: values and readings.
- `FinanceService`, `CrawlerService`, `MainApp`, `KrxCrawler`: the four source files.

## Model

| member | source | states |
|---|---|---|
| FinanceService.DueDateExactly | backend/finance_service.py:138-146 | the rollover is due exactly when the next date (`next_date`, else `next`, else 2099-12-31) is not `TBD`, parses as `%Y-%m-%d` and is not after today |
| FinanceService.RolloverSkipsUnreadableNext | backend/finance_service.py:138-142 | a `TBD` next date, or one that does not parse, leaves the item unchanged |
| FinanceService.RolloverWaitsForNextDate | backend/finance_service.py:144-146 | before the next date the item is unchanged |
| FinanceService.RolloverWhenDue | backend/finance_service.py:144-155 | once due, the rollover is the advance step on the parsed date |
| FinanceService.AdvanceMovesDates | backend/finance_service.py:149-155 | `date` takes the old next-date text; if the next month has that day, the next date is written there under the key it was read from and the other key stays; otherwise only `date` changed |
| FinanceService.NextMonthWritten | backend/finance_service.py:149-153 | the written next date reads back as itself, has the same day, the month index plus one, and is later |
| FinanceService.RolloverAdvancesDates | backend/finance_service.py:138-155 | on or after the next date: `date` becomes the old next text; the new next date is one month later with the same day, under the key it was read from; with no such day only `date` changed |
| FinanceService.PerturbKeepsDates | backend/finance_service.py:157-177 | the value step writes no key other than `value` and `change` |
| FinanceService.PerturbValue | backend/finance_service.py:157-177 | the numeric core `v` becomes `v + v*u` in the old value's style and `change` is `v*u` signed; a value without a numeric core changes nothing |
| FinanceService.PerturbWrites | backend/finance_service.py:159-177 | for a value whose core is `v`, the value step is exactly the two writes of value and change |
| FinanceService.DrawBounds | backend/finance_service.py:160-163 | with the draw in [-0.005, 0.005] the new value is within half a percent of the old, and the change is signed `+` exactly when the value did not fall |
| FinanceService.RolloverPerturbsValue | backend/finance_service.py:149-185 | a due rollover whose next month exists perturbs the date-advanced item; an unparseable value keeps value and change |
| FinanceService.RestyleFollowsSuffix | backend/finance_service.py:166-173 | the new value keeps the old style, tested in the order `%`, `K`, `억$`, with two decimals otherwise (a `B` suffix included) |
| FinanceService.RolloverTouchesOnlyItsFields | backend/finance_service.py:129-185 | the rollover keeps every key, adds at most `date`, the next key and `change`, and changes no other entry |
| FinanceService.AdvanceTouchesOnlyItsFields | backend/finance_service.py:149-177 | the advance step keeps every key and changes only `date`, the next key, `value` and `change` |
| FinanceService.PerturbTouchesValueAndChange | backend/finance_service.py:159-177 | the value step keeps every key, adds at most `change`, and changes only `value` and `change` |
| FinanceService.ValueCoreOfUnitSuffix | backend/finance_service.py:159 | a whole number with a `%`, `K` or `B` unit has that number as its numeric core |
| FinanceService.UnitSuffixStripped | backend/finance_service.py:159 | the chained `replace` calls remove just the unit from such a value |
| FinanceService.Item.CheckDateRollover | backend/finance_service.py:129-185 | the draw lies in [-0.005, 0.005] and the item becomes `Rollover` of its old fields with that draw |
| FinanceService.Item.AdvanceDates | backend/finance_service.py:149-177 | the item becomes the advance step of its old fields |
| FinanceService.Item.SimulateValue | backend/finance_service.py:157-177 | the item becomes the value step of its old fields |
| FinanceService.TickerDataShape | backend/finance_service.py:6-47 | a quote exists iff a price and a non-zero previous close are known; it has the five keys, change = price − previous, `+` on change and percent iff change ≥ 0, and percent × previous = change × 100 |
| FinanceService.TickerDataNeedsPrice | backend/finance_service.py:20-31 | without a fast price or any history the ticker gives None |
| FinanceService.TickerDataSingleRow | backend/finance_service.py:25-40 | a one-row history makes the previous close the price, so the change reads `+0.00` |
| FinanceService.Overlay | backend/finance_service.py:66-82 | overlaying quotes on keys of the snapshot keeps its key set |
| FinanceService.OverlayAt | backend/finance_service.py:66-82 | each key holds the last fetched quote for it, or its snapshot value |
| FinanceService.LiveQuoteOfOtherKey | backend/finance_service.py:79-82 | a key no ticker is fetched for has no live quote |
| FinanceService.OverlayStep | backend/finance_service.py:79-82 | one more ticker in the loop is one more `result[key] = data` when the fetch returned data |
| FinanceService.LiveQuoteOfUniqueKey | backend/finance_service.py:66-82 | with distinct keys a key's live quote is its own fetch |
| FinanceService.OverlayAtDistinct | backend/finance_service.py:66-82 | with distinct keys each listed key holds its own fetch's quote or the snapshot value and each unlisted key its snapshot value |
| FinanceService.OverlayOfDeadFeed | backend/finance_service.py:79-82 | when no fetch returns data the reader returns the snapshot |
| FinanceService.RollAll | backend/finance_service.py:121-122 | rolling over listed snapshot keys keeps the key set |
| FinanceService.RollAllAt | backend/finance_service.py:121-122 | with distinct keys each listed item is rolled over once from its snapshot value with its own draw and the rest are untouched |
| FinanceService.NewItems | backend/finance_service.py:54-63 | the snapshot dictionary is built with one new distinct item per entry holding that entry |
| FinanceService.RolloverEach | backend/finance_service.py:121-122 | the listed items are rolled over in place in turn; the draws, one per key and each within [-0.005, 0.005], are returned |
| FinanceService.RollAllSnoc | backend/finance_service.py:121-122 | rolling one more key is one more update of the rolled map |
| FinanceService.OverlayQuote | backend/finance_service.py:79-82 | a fetch that returned data puts a new item at the key; a failed one changes nothing; other keys keep their items |
| FinanceService.RolloverShared | backend/finance_service.py:75-85 | rolling over the item a map shares at one key changes that key's view only |
| FinanceService.StocksDataAt | backend/finance_service.py:49-87 | `get_stocks_data` keeps the snapshot's keys, each ticker key holds its live quote or snapshot value, the high-yield entry is rolled over, the rest are the snapshot's |
| FinanceSnapshots.StocksSnapshotShape | backend/finance_service.py:54-63 | the stocks snapshot has its eight keys and the tickers and the high-yield entry are in it |
| FinanceService.StocksFrom | backend/finance_service.py:49-87 | for any snapshot whose ticker keys exclude `high_yield`, the built result is the overlay of the snapshot with the high-yield entry rolled over: the rollover applied through the snapshot's item shows in the shallow copy |
| FinanceService.OverlayEach | backend/finance_service.py:79-82 | the ticker loop leaves the key set alone, a key no ticker names keeps its item, and the map's view becomes the overlay of the old view |
| FinanceSnapshots.GetStocksData | backend/finance_service.py:49-87 | `get_stocks_data()` returns `StocksData` of the stocks snapshot with the draw returned |
| FinanceService.RatesDataAt | backend/finance_service.py:103-127 | `get_rates_data` keeps the keys, `us_10y` is live or the snapshot's, each policy rate is rolled over with its own draw, the rest are the snapshot's |
| FinanceSnapshots.RatesSnapshotShape | backend/finance_service.py:103-115 | the rates snapshot has its ten keys |
| FinanceService.RatesFrom | backend/finance_service.py:103-127 | for any snapshot and keys to roll, the result is the `us_10y` overlay followed by the rollovers in list order, each draw within [-0.005, 0.005] |
| FinanceSnapshots.GetRatesData | backend/finance_service.py:103-127 | `get_rates_data()` returns `RatesData` of the rates snapshot |
| FinanceService.ExchangeDataAt | backend/finance_service.py:187-211 | `get_exchange_data` keeps the keys, rolls over the two reserve figures and overlays the two live quotes |
| FinanceSnapshots.ExchangeSnapshotShape | backend/finance_service.py:187-197 | the exchange snapshot has its four keys |
| FinanceService.ExchangeFrom | backend/finance_service.py:187-211 | for any snapshot and keys to roll, the result is the rollovers in list order followed by the two live quotes, each draw within [-0.005, 0.005] |
| FinanceService.RolledThenOverlaidAt | backend/finance_service.py:187-211 | when no ticker key is rolled over, each rolled key holds its own rollover and each ticker key its live quote or the entry |
| FinanceService.ExchangeQuotes | backend/finance_service.py:200-209 | the two fetches after the rollovers are the overlay of the rolled items |
| FinanceSnapshots.GetExchangeData | backend/finance_service.py:187-211 | `get_exchange_data()` returns `ExchangeData` of the exchange snapshot |
| FinanceService.EconomyDataAt | backend/finance_service.py:214-226 | `get_economy_data` keeps the keys and rolls over each indicator with its own draw |
| FinanceSnapshots.EconomySnapshotShape | backend/finance_service.py:214-222 | the economy snapshot has the four rolled indicators as keys |
| FinanceService.EconomyFrom | backend/finance_service.py:214-226 | for any snapshot and keys to roll, the result is the rollovers in list order, each draw within [-0.005, 0.005] |
| FinanceSnapshots.GetEconomyData | backend/finance_service.py:214-226 | `get_economy_data()` returns `EconomyData` of the economy snapshot |
| Dates.ParseFormatIso | backend/finance_service.py:142-153 | `strptime` of the `strftime('%Y-%m-%d')` text of a valid date gives that date back |
| Dates.NextMonthByIndex | backend/finance_service.py:149-150 | the month step is the month index plus one with the same day, when that day exists |
| Dates.NextMonthIsLater | backend/finance_service.py:149-150 | the month step moves the date later |
| Dates.DaysBack | backend/crawler/krx_crawler.py:28 | stepping back `k > 0` days gives an earlier valid date |
| Dates.DaysBackMonotone | backend/crawler/krx_crawler.py:28 | the dates the search tries get strictly earlier |
| Dates.NextDayOfPrevDay | backend/crawler/krx_crawler.py:22-26 | the day before, stepped forward, is the day itself |
| Text.Strip | backend/crawler_service.py:141-142 | `strip()` drops only whitespace from the ends, keeping a string with no whitespace as it is |
| Text.StripIsNeverNoBreakSpace | backend/crawler_service.py:157-162 | a stripped text is never the single no-break space |
| Text.SplitTokens | backend/crawler_service.py:261-275 | `split()` gives whitespace-free words whose concatenation is the text without whitespace |
| Text.SplitWords | backend/crawler_service.py:261-275 | every word `split()` gives is non-empty and free of whitespace |
| Text.SplitConcat | backend/crawler_service.py:261-275 | the words `split()` gives, joined, are the text with its whitespace removed |
| Text.SplitTwoWords | backend/crawler_service.py:261-275 | two words around one space split into those two words |
| Text.ParseDigits | backend/crawler_service.py:188-194 | `float()` of a string of digits is its value |
| Text.LessTotal | backend/crawler_service.py:345 | the string order the date sort uses is total |
| Text.LessTransitive | backend/crawler_service.py:345 | the string order the date sort uses is transitive |
| CrawlerService.CleanPercent | backend/crawler_service.py:66-72 | the cleaned percent has no parentheses and is no longer than the original |
| CrawlerService.CleanPercentUnwraps | backend/crawler_service.py:66-72 | a percent in parentheses is unwrapped exactly |
| CrawlerService.InvestingPrice | backend/crawler_service.py:30-83 | a reading exists iff a price was found; the value is the stripped price; the change is the stripped change text or `0.00`; the percent is the stripped percent text with its parentheses removed, or `0.00%` |
| CrawlerService.InvestingPercentUnwrapped | backend/crawler_service.py:68-72 | a percent element reading `(x)` is reported as `x`, as in `(+0.5%)` to `+0.5%` |
| CrawlerService.KoreanDateNormalised | backend/crawler_service.py:147-153 | `YYYY년 M월 D일` followed by anything becomes `YYYY-MM-DD` with two-digit month and day |
| CrawlerService.KoreanDateAtStart | backend/crawler_service.py:147-153 | the date regex matches such a cell at its start, giving year, padded month and padded day |
| CrawlerService.NoKoreanDateKeptVerbatim | backend/crawler_service.py:147-153 | a date text without `년` is kept as it is |
| CrawlerService.ScanRows | backend/crawler_service.py:135-175 | the row loop computes the scan's history and next date, stopping once two releases are read |
| CrawlerService.ScanFromReads | backend/crawler_service.py:135-175 | the scan keeps the releases of the rows it reads and the first announced date among them unless it had one |
| CrawlerService.ReleasesReached | backend/crawler_service.py:165-175 | the releases read are the first `k` of the table, or all when fewer |
| CrawlerService.ScanHistory | backend/crawler_service.py:135-175 | the history is exactly the first two releases of the table (fewer when it has fewer) |
| CrawlerService.ScanNext | backend/crawler_service.py:157-162 | the next date is the first announced date among the rows read before the second release |
| CrawlerService.ParseValOfUnit | backend/crawler_service.py:184-194 | a whole number with a `B`, `M`, `k` or `%` unit parses to that number |
| CrawlerService.ParseValPlain | backend/crawler_service.py:184-194 | text without the unit characters parses as `float()` does |
| CrawlerService.PercentChange | backend/crawler_service.py:196-203 | the percent change times the previous value is the change times 100, and zero for a zero previous value |
| CrawlerService.ChangeOf | backend/crawler_service.py:196-203 | defaults `0.00` / `0.00%` when either value fails to parse; otherwise the signed difference and a percent with the same sign |
| CrawlerService.CalendarReading | backend/crawler_service.py:177-211 | no reading iff no release; the reading is the latest release with its date and the next date, and default change and percent with one release |
| CrawlerService.FetchCalendarActual | backend/crawler_service.py:87-214 | the crawler's answer is the reading built from the scan of the rows |
| CrawlerService.CalendarAnswersIffReleased | backend/crawler_service.py:87-214 | the crawler answers iff the table has a release, and then reports the first one |
| CrawlerService.EmptyActualIsEmpty | backend/crawler_service.py:157-162 | the empty-actual test on a stripped cell is just emptiness |
| CrawlerService.ChangeCell | backend/crawler_service.py:261-287 | the change is a single word or `-` and the percent has no `%` |
| CrawlerService.ChangeCellJoinsSign | backend/crawler_service.py:261-287 | a cell `sign num` newline `pct%` gives change `signnum` and percent `pct` |
| CrawlerService.IndexerGoTable | backend/crawler_service.py:240-302 | a reading iff the first table has a second row with two cells and a non-empty value; two cells give `-` change and percent, three give the split cell |
| CrawlerService.TitleFallbackUnreachable | backend/crawler_service.py:304-319 | as written, whenever the table gives nothing the block raises and the crawler answers None |
| CrawlerService.TitleValue | backend/crawler_service.py:304-310 | a title value is found only when the title holds both `(` and `%)` |
| CrawlerService.FetchIndexerGo | backend/crawler_service.py:240-319 | the table's reading when there is one, else the title's number with `-` change and percent, else None |
| CrawlerService.TitleValueOf | backend/crawler_service.py:304-310 | a title `...(N%)...` with no earlier `(` yields `N` |
| CrawlerService.IndexerGoTitleCounterexample | backend/crawler_service.py:304-319 | a page without tables titled `(3.08%)`: None as written, the value 3.08 as intended |
| CrawlerService.NumericCandidates | backend/crawler_service.py:444-449 | every kept text has a digit, and every candidate whose stripped text has a digit is kept as that stripped text |
| CrawlerService.NumericCandidatesAppend | backend/crawler_service.py:444-449 | the texts kept from two runs of candidates are those of the first run followed by those of the second, so document order is kept |
| CrawlerService.FirstWhere | backend/crawler_service.py:455-464 | a text of the wanted kind drawn from the list, None iff there is none |
| CrawlerService.FirstWhereAt | backend/crawler_service.py:455-464 | the text found is the earliest of its kind |
| CrawlerService.NumericTexts | backend/crawler_service.py:444-449 | the candidate loop collects `NumericCandidates` |
| CrawlerService.PickBadges | backend/crawler_service.py:455-464 | the classifying loop keeps the first change and first percent |
| CrawlerService.FetchGoogleFinance | backend/crawler_service.py:388-475 | the crawler's answer is `GoogleReading` of the price and candidates |
| CrawlerService.GoogleReading | backend/crawler_service.py:388-475 | a reading iff a price was found; the change is `-` or digits without `%`, the percent `-` or digits with `%` |
| CrawlerService.GoogleReadingFirst | backend/crawler_service.py:441-464 | the change (the percent) is the stripped text of the first badge that has a digit and no `%` (a `%`) |
| CrawlerService.GoogleReadingDash | backend/crawler_service.py:422-464 | the change (the percent) is `-` exactly when no badge has a digit and no `%` (a `%`) |
| CrawlerService.GoogleBadgePair | backend/crawler_service.py:455-464 | a change and a percent badge, in either order and followed by anything, give that change and that percent |
| CrawlerService.Insert | backend/crawler_service.py:345 | insertion adds exactly the element |
| CrawlerService.SortNewestFirst | backend/crawler_service.py:345 | sorting keeps the length and the dates |
| CrawlerService.InsertKeepsOrder | backend/crawler_service.py:345 | inserting into a newest-first list keeps it newest first |
| CrawlerService.SortOrders | backend/crawler_service.py:345 | the sort gives a newest-first permutation |
| CrawlerService.SortIsStable | backend/crawler_service.py:345 | entries with the same date keep their listed order |
| CrawlerService.SofrOnly | backend/crawler_service.py:348 | the filter keeps exactly the SOFR entries, drawn from the input |
| CrawlerService.SofrKeepsOrder | backend/crawler_service.py:348 | filtering keeps newest-first order |
| CrawlerService.SortedSofr | backend/crawler_service.py:345-348 | sorting then filtering gives a newest-first list holding exactly the SOFR entries |
| CrawlerService.NewestAtFront | backend/crawler_service.py:354-356 | the front of a newest-first list is at least as recent as every element |
| CrawlerService.SofrIsNewest | backend/crawler_service.py:321-386 | the reading is the newest SOFR entry's rate, as `.2f%`, with its date |
| CrawlerService.SofrNoneCases | backend/crawler_service.py:345-386 | None iff some entry lacks a date, no entry is SOFR, or the newest SOFR entry has no rate |
| CrawlerService.SofrChangeFromPrevious | backend/crawler_service.py:354-370 | two SOFR entries in either listed order give the change from the older to the newer |
| MainApp.TimerReading | backend/main.py:119-127 | both timestamps, or neither while either is unset |
| MainApp.Replaced | backend/main.py:44-67 | a job's result replaces its slot wholesale; a raised call leaves the cache unchanged |
| MainApp.ReplacedKeepsCategories | backend/main.py:12-17 | the cache keeps its four slots |
| MainApp.ReplacedDropsStaleKeys | backend/main.py:44-67 | a key missing from the new data is gone from the slot |
| MainApp.App.constructor | backend/main.py:12-20 | four empty slots and no timestamps |
| MainApp.App.UpdateStocksJob | backend/main.py:44-55 | a successful stocks call replaces the slot and sets last = now and next = now + 30 s; a raised one keeps both |
| MainApp.App.UpdateSlotJob | backend/main.py:57-67 | the other jobs replace their own slot and leave the timestamps alone |
| MainApp.App.ApiTimer | backend/main.py:119-127 | the timer gives both timestamps thirty seconds apart, or none |
| MainApp.App.ReadSlot | backend/main.py:83-97 | a reader returns its slot of the cache |
| MainApp.App.StartScheduler | backend/main.py:99-117 | the jobs run in order until one raises; the five registrations are added only when none raised |
| MainApp.App.RegisterJobs | backend/main.py:107-115 | the five `add_job` calls append exactly the schedule to the registrations |
| MainApp.App.RunStartupJobs | backend/main.py:101-104 | the startup jobs run in order; an exception stops the sequence |
| MainApp.App.RunLaterJobs | backend/main.py:103-104 | the exchange and then the economy job run, stopping at an exception |
| MainApp.JobsStarted | backend/main.py:101-104 | at least two and at most four jobs start |
| MainApp.StartupFillsEverySlot | backend/main.py:101-104 | when every call returns, every slot is filled with its data |
| MainApp.SlotOf | backend/main.py:57-67 | each job writes a cache category |
| MainApp.SlotsAreDistinct | backend/main.py:44-67 | distinct jobs write distinct slots and every slot has a job |
| MainApp.ScheduleCoversEveryJob | backend/main.py:107-115 | every job is registered, stocks every 30 s, economy at 00:00 and 12:00 |
| KrxCrawler.Common | backend/crawler/krx_crawler.py:55-59 | the common rows are exactly the market-cap rows whose ticker the foreign table lists |
| KrxCrawler.Percent | backend/crawler/krx_crawler.py:86 | the ratio times the total is the part times 100 |
| KrxCrawler.HoldingOn | backend/crawler/krx_crawler.py:68-96 | the figure sums foreign value and market cap over the common rows, with ratio × total = value × 100 and the given date |
| KrxCrawler.StartDate | backend/crawler/krx_crawler.py:22-26 | before 16:00 the search starts the day before, from 16:00 today |
| KrxCrawler.SearchDates | backend/crawler/krx_crawler.py:28 | the seven dates tried are the start and the six days before it |
| KrxCrawler.GetForeignHoldingData | backend/crawler/krx_crawler.py:6-103 | the crawler's answer is the search over the seven dates from the start date |
| KrxCrawler.SearchFindsFirstUsable | backend/crawler/krx_crawler.py:28-103 | when date `k` is usable and none before it is, the search returns the figure of date `k`, written `%Y-%m-%d` |
| KrxCrawler.SearchNoneIffNoneUsable | backend/crawler/krx_crawler.py:28-103 | the search gives None exactly when no date tried has usable data |
| KrxCrawler.HoldingWithinTotal | backend/crawler/krx_crawler.py:74-80 | with each holding within its cap, the figure's value lies between 0 and a positive total |
| KrxCrawler.ReportedDateInWeek | backend/crawler/krx_crawler.py:28 | the reported date lies between six days before the start and the start |
| KrxCrawler.UnmatchedRowIgnored | backend/crawler/krx_crawler.py:55-59 | a market-cap row whose ticker the foreign table lacks changes neither sum |
| KrxCrawler.SumsBounded | backend/crawler/krx_crawler.py:74-80 | with each holding within its cap, the foreign value lies between 0 and the total |
| KrxCrawler.RatioIsPercentage | backend/crawler/krx_crawler.py:74-86 | under that condition the ratio is between 0 and 100 |

## Left out

- Network and library calls are not modelled: HTTP requests, HTML parsing, the market-data library, the KRX data library and the fear-and-greed library. Their results are parameters (a quote feed, table rows, candidate texts, SOFR entries, per-date market data, job outcomes).
- The lookup of tables, rows and `<title>` in the HTML is folded into those parameters.
- Scheduler timing, the web framework's routing, CORS, the static files and the server process are not modelled. Startup order and the registration table are modelled; when a registered job fires is not.
- Number formatting (`:,.2f`, `.1f`, rounding, `int()` in the `K` and `억$` styles) is kept symbolic as `Fmt(prefix, spec, x)`.
- Text.IsDigit: `\d` and `isdigit` are modelled as ASCII digits only, not every Unicode decimal digit.
- FinanceService.TickerData: a previous close of zero is taken to raise, as it does for Python floats; a NumPy scalar from the history would give an infinite percent instead.
- FinanceService.ValueCore: an already formatted value is read back as its exact number, not as its rounded or truncated text.
- Text.ParseFloat: accepts sign, digits, one dot and surrounding whitespace; exponents, `inf`, `nan` and underscores are not modelled.
- FinanceService.Item.CheckDateRollover: the `random.uniform` draw is chosen non-deterministically and returned, so callers can state what was drawn.
- The clock: each reader takes one `today` for all its rollovers, where the source reads the clock once per item.
- CrawlerService.SortNewestFirst: the in-place `list.sort` is modelled as a function on sequences (a stable insertion sort), since the sorted list is only read afterwards.
- The cache: the source replaces a category's slot wholesale, and the model follows the code, not a description of a partial merge.
- CrawlerService.EmptyActualIsEmpty: the `'\xa0'` comparison is modelled and shown never to fire.
- KrxCrawler.GetForeignHoldingData: requires a year above 8, so that stepping back seven days never leaves year 1; the source would raise `OverflowError` there.
- KrxCrawler: exceptions inside the per-date computation are folded into `raises` and into empty tables; the source prints and continues.
- KrxCrawler: duplicate index entries and `NaN` values in the data frames are not modelled.
- Time in the web application is a parameter in milliseconds.
- The first `get_economy_data` definition (line 89), which the second one overrides, is not modelled.
- `get_fear_greed_index`, the user-agent rotation, logging and `print` output are not modelled.
- The exploratory KRX scripts and the top-level test scripts are not part of this model.

## Findings

| source | as written | input that shows it | evidently intended | confidence | as-written member | corrected member |
|---|---|---|---|---|---|---|
| backend/crawler_service.py:304-319 | when the table gives no reading, the title fallback reads `title`, a name never assigned; the `NameError` is caught and the crawler answers None | a page with no table whose `<title>` is `(3.08%)` | the number in the title's parentheses, here `3.08`, with `-` change and percent | not executed | CrawlerService.IndexerGoTitleCounterexample | CrawlerService.FetchIndexerGo |
