/** The web application's state: the cache the API serves from, the stocks
    refresh timestamps, the jobs that refill the cache and the startup
    sequence that runs them once and registers them with the scheduler.
    Time is in integer milliseconds since the epoch. */
module MainApp {
  import opened Wrappers
  import opened FinanceService

  /** The four category slots of the cache. */
  const Categories: set<string> := {"stocks", "economy", "rates", "exchange"}

  /** The stocks refresh period, in seconds. */
  const StocksPeriod: int := 30

  /** What a call into the finance service did: returned a category's data,
      or raised. */
  datatype Outcome = Returned(data: Snapshot) | Raised

  datatype Job = StocksJob | RatesJob | ExchangeJob | EconomyJob

  /** A scheduler registration: every `seconds`, or daily at `hour:minute`. */
  datatype Trigger = Interval(seconds: int) | Cron(hour: int, minute: int)
  datatype Registration = Registration(job: Job, trigger: Trigger)

  /** The registrations startup makes, in order. */
  const Schedule: seq<Registration> := [
    Registration(StocksJob, Interval(StocksPeriod)),
    Registration(RatesJob, Interval(5 * 60)),
    Registration(ExchangeJob, Interval(5 * 60)),
    Registration(EconomyJob, Cron(0, 0)),
    Registration(EconomyJob, Cron(12, 0))
  ]

  /** The jobs startup runs before registering, in order. */
  const StartupJobs: seq<Job> := [StocksJob, RatesJob, ExchangeJob, EconomyJob]

  /** `api_timer`: both timestamps, or neither while either is unset. */
  function TimerReading(last: Option<int>, next: Option<int>): (r: (Option<int>, Option<int>))
    ensures r.0.Some? <==> last.Some? && next.Some?
    ensures r.1.Some? <==> last.Some? && next.Some?
    ensures r.0.Some? ==> r.0 == last && r.1 == next
  {
    if last.None? || next.None? then (None, None) else (last, next)
  }

  /** The slot `key` replaced wholesale by what the service returned; the
      cache as it was when the service raised. */
  function Replaced(cache: map<string, Snapshot>, key: string, out: Outcome): (r: map<string, Snapshot>)
    ensures r.Keys == if out.Returned? then cache.Keys + {key} else cache.Keys
    ensures forall k :: k in cache && k != key ==> r[k] == cache[k]
    ensures out.Returned? ==> r[key] == out.data
    ensures out.Raised? ==> r == cache
  {
    if out.Returned? then cache[key := out.data] else cache
  }

  /** A refresh never adds or drops a category. */
  lemma ReplacedKeepsCategories(cache: map<string, Snapshot>, key: string, out: Outcome)
    requires cache.Keys == Categories && key in Categories
    ensures Replaced(cache, key, out).Keys == Categories
  {
  }

  /** After a refresh the slot holds exactly the new data, not a union with
      the old one: keys the service no longer returns are gone. */
  lemma ReplacedDropsStaleKeys(cache: map<string, Snapshot>, key: string, data: Snapshot, stale: string)
    requires key in cache && stale in cache[key] && stale !in data
    ensures stale !in Replaced(cache, key, Returned(data))[key]
  {
  }

  /** The global state of the application. */
  class App {
    var cache: map<string, Snapshot>
    var lastUpdate: Option<int>
    var nextUpdate: Option<int>
    /** The jobs run so far, in order. */
    var ran: seq<Job>
    /** The registrations made with the scheduler, in order. */
    var registrations: seq<Registration>

    /** The four slots are always there, and the timestamps are set together,
        one stocks period apart. */
    predicate Valid()
      reads this`cache, this`lastUpdate, this`nextUpdate
    {
      cache.Keys == Categories
      && (lastUpdate.Some? <==> nextUpdate.Some?)
      && (lastUpdate.Some? ==> nextUpdate.value == lastUpdate.value + StocksPeriod * 1000)
    }

    /** The module-level state at import: empty slots, no timestamps, no
        jobs run or registered. */
    constructor ()
      ensures Valid()
      ensures cache == map["stocks" := map[], "economy" := map[], "rates" := map[], "exchange" := map[]]
      ensures lastUpdate.None? && nextUpdate.None?
      ensures ran == [] && registrations == []
    {
      cache := map["stocks" := map[], "economy" := map[], "rates" := map[], "exchange" := map[]];
      lastUpdate := None;
      nextUpdate := None;
      ran := [];
      registrations := [];
    }

    /** `update_stocks_job`: on success the slot is replaced and the
        timestamps set to now and now plus one period; the `except` swallows
        a failure and leaves everything as it was. */
    method UpdateStocksJob(out: Outcome, now: int)
      requires Valid()
      modifies this
      ensures Valid()
      ensures cache == Replaced(old(cache), "stocks", out)
      ensures out.Returned? ==> lastUpdate == Some(now) && nextUpdate == Some(now + StocksPeriod * 1000)
      ensures out.Raised? ==> lastUpdate == old(lastUpdate) && nextUpdate == old(nextUpdate)
      ensures ran == old(ran) + [StocksJob] && registrations == old(registrations)
    {
      ran := ran + [StocksJob];
      if out.Returned? {
        cache := cache["stocks" := out.data];
        lastUpdate := Some(now);
        nextUpdate := Some(now + StocksPeriod * 1000);
      }
    }

    /** `update_rates_job`, `update_exchange_job` and `update_economy_job`:
        the slot is replaced; with no handler, an exception from the service
        escapes the job (`raised`) and the slot keeps its old data. */
    method UpdateSlotJob(job: Job, out: Outcome) returns (raised: bool)
      requires Valid() && job != StocksJob
      modifies this
      ensures Valid()
      ensures raised <==> out.Raised?
      ensures cache == Replaced(old(cache), SlotOf(job), out)
      ensures lastUpdate == old(lastUpdate) && nextUpdate == old(nextUpdate)
      ensures ran == old(ran) + [job] && registrations == old(registrations)
    {
      ran := ran + [job];
      raised := out.Raised?;
      if out.Returned? {
        cache := cache[SlotOf(job) := out.data];
      }
    }

    /** `api_timer`. */
    method ApiTimer() returns (last: Option<int>, next: Option<int>)
      requires Valid()
      ensures (last, next) == TimerReading(lastUpdate, nextUpdate)
      ensures last.Some? ==> next.value - last.value == StocksPeriod * 1000
      ensures last.None? <==> lastUpdate.None?
    {
      if lastUpdate.None? || nextUpdate.None? {
        return None, None;
      }
      return lastUpdate, nextUpdate;
    }

    /** `api_stocks`, `api_economy`, `api_rates` and `api_exchange`: the
        slot as it is now. */
    method ReadSlot(key: string) returns (r: Snapshot)
      requires Valid() && key in Categories
      ensures r == cache[key]
    {
      r := cache[key];
    }

    /** `start_scheduler`: the four jobs in order, then the registrations.
        An exception escaping the rates, exchange or economy job ends
        startup there: the later jobs do not run and nothing is
        registered. */
    method StartScheduler(stocks: Outcome, rates: Outcome, exchange: Outcome, economy: Outcome, now: int)
      returns (raised: bool)
      requires Valid()
      modifies this
      ensures Valid()
      ensures raised <==> rates.Raised? || exchange.Raised? || economy.Raised?
      ensures ran == old(ran) + StartupJobs[..JobsStarted(rates, exchange)]
      ensures cache == StartupCache(old(cache), stocks, rates, exchange, economy)
      ensures registrations == if raised then old(registrations) else old(registrations) + Schedule
    {
      raised := RunStartupJobs(stocks, rates, exchange, economy, now);
      if !raised {
        RegisterJobs();
      }
    }

    /** The `add_job` calls of `start_scheduler`, in order. */
    method RegisterJobs()
      requires Valid()
      modifies this`registrations
      ensures Valid()
      ensures registrations == old(registrations) + Schedule
    {
      registrations := registrations + Schedule;
    }

    /** The four calls at the start of `start_scheduler`. */
    method RunStartupJobs(stocks: Outcome, rates: Outcome, exchange: Outcome, economy: Outcome, now: int)
      returns (raised: bool)
      requires Valid()
      modifies this
      ensures Valid()
      ensures raised <==> rates.Raised? || exchange.Raised? || economy.Raised?
      ensures ran == old(ran) + StartupJobs[..JobsStarted(rates, exchange)]
      ensures cache == StartupCache(old(cache), stocks, rates, exchange, economy)
      ensures registrations == old(registrations)
    {
      StartupRan(ran, rates, exchange);
      ghost var ran0 := ran;
      UpdateStocksJob(stocks, now);
      raised := UpdateSlotJob(RatesJob, rates);
      assert ran == ran0 + [StocksJob, RatesJob];
      if !raised {
        raised := RunLaterJobs(exchange, economy);
      }
    }

    /** The exchange and economy calls of startup, the second skipped when
        the first raises. */
    method RunLaterJobs(exchange: Outcome, economy: Outcome) returns (raised: bool)
      requires Valid()
      modifies this
      ensures Valid()
      ensures raised <==> exchange.Raised? || economy.Raised?
      ensures ran == old(ran) + (if exchange.Raised? then [ExchangeJob] else [ExchangeJob, EconomyJob])
      ensures cache == (var c := Replaced(old(cache), "exchange", exchange);
                        if exchange.Raised? then c else Replaced(c, "economy", economy))
      ensures lastUpdate == old(lastUpdate) && nextUpdate == old(nextUpdate)
      ensures registrations == old(registrations)
    {
      raised := UpdateSlotJob(ExchangeJob, exchange);
      if !raised {
        raised := UpdateSlotJob(EconomyJob, economy);
      }
    }
  }

  /** The jobs startup runs, appended to `r0`: the first two, then the
      exchange job, then the economy job unless the exchange job raised. */
  lemma StartupRan(r0: seq<Job>, rates: Outcome, exchange: Outcome)
    ensures rates.Raised? ==> r0 + [StocksJob, RatesJob] == r0 + StartupJobs[..JobsStarted(rates, exchange)]
    ensures !rates.Raised? ==>
              r0 + [StocksJob, RatesJob] + (if exchange.Raised? then [ExchangeJob] else [ExchangeJob, EconomyJob])
              == r0 + StartupJobs[..JobsStarted(rates, exchange)]
  {
    assert StartupJobs[..2] == [StocksJob, RatesJob];
    assert StartupJobs[..3] == [StocksJob, RatesJob, ExchangeJob];
    assert StartupJobs[..4] == [StocksJob, RatesJob, ExchangeJob, EconomyJob];
  }

  /** How many of the startup jobs run: all four unless the rates or the
      exchange job raises first (the stocks job never raises). */
  function JobsStarted(rates: Outcome, exchange: Outcome): (n: nat)
    ensures 2 <= n <= |StartupJobs|
  {
    if rates.Raised? then 2 else if exchange.Raised? then 3 else 4
  }

  /** The cache after startup: each job that runs refills its slot. */
  function StartupCache(cache: map<string, Snapshot>, stocks: Outcome, rates: Outcome, exchange: Outcome, economy: Outcome): map<string, Snapshot> {
    var c := Replaced(Replaced(cache, "stocks", stocks), "rates", rates);
    if rates.Raised? then c
    else
      var c' := Replaced(c, "exchange", exchange);
      if exchange.Raised? then c' else Replaced(c', "economy", economy)
  }

  /** A startup in which every service answers fills every slot with its
      answer. */
  lemma StartupFillsEverySlot(cache: map<string, Snapshot>, stocks: Snapshot, rates: Snapshot, exchange: Snapshot, economy: Snapshot)
    requires cache.Keys == Categories
    ensures var c := StartupCache(cache, Returned(stocks), Returned(rates), Returned(exchange), Returned(economy));
            c.Keys == Categories && c["stocks"] == stocks && c["rates"] == rates
            && c["exchange"] == exchange && c["economy"] == economy
  {
  }

  /** The cache slot each job refills. */
  function SlotOf(job: Job): (k: string)
    ensures k in Categories
  {
    match job
    case StocksJob => "stocks"
    case RatesJob => "rates"
    case ExchangeJob => "exchange"
    case EconomyJob => "economy"
  }

  /** Different jobs refill different slots, and every slot has its job. */
  lemma SlotsAreDistinct(a: Job, b: Job)
    ensures SlotOf(a) == SlotOf(b) <==> a == b
    ensures forall k :: k in Categories ==> exists j :: SlotOf(j) == k
  {
    assert SlotOf(StocksJob) == "stocks" && SlotOf(EconomyJob) == "economy";
    assert SlotOf(RatesJob) == "rates" && SlotOf(ExchangeJob) == "exchange";
  }

  /** `j` has at least one registration. */
  predicate Registered(j: Job) {
    exists i :: 0 <= i < |Schedule| && Schedule[i].job == j
  }

  /** Every job is registered; the economy job twice a day, at midnight and
      noon; the stocks job at the period the timer reports. */
  lemma ScheduleCoversEveryJob()
    ensures forall j: Job :: Registered(j)
    ensures forall i :: 0 <= i < |Schedule| && Schedule[i].job == EconomyJob ==>
              Schedule[i].trigger == Cron(0, 0) || Schedule[i].trigger == Cron(12, 0)
    ensures forall i :: 0 <= i < |Schedule| && Schedule[i].job == StocksJob ==>
              Schedule[i].trigger == Interval(StocksPeriod)
  {
    forall j: Job ensures Registered(j) {
      match j
      case StocksJob => assert Schedule[0].job == j;
      case RatesJob => assert Schedule[1].job == j;
      case ExchangeJob => assert Schedule[2].job == j;
      case EconomyJob => assert Schedule[3].job == j;
    }
  }
}
