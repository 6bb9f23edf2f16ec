/** Import jobs and the approved rates they insert. */
module RateStore {
  import opened Money
  import EcbFeed

  const LEASE := 120
  const MAX_AGE_DAYS := 3
  const MAX_ATTEMPTS := 8

  datatype JobStatus = Pending | Processing | Completed | Retry | Dead

  datatype Job = Job(
    requested: int, status: JobStatus, attempts: nat, maxAttempts: nat, nextAttemptAt: nat, lockedAt: Option<nat>)

  /** The dict a worker holds while it fetches, however long that takes. */
  datatype Claim = Claim(job: nat, requested: int, attempt: nat, maxAttempts: nat)

  /** uq_exchange_rate_approved; the other currency is always the base. */
  datatype Key = Key(tenant: nat, currency: string, date: int)
  datatype Approved = Approved(rate: int, rawQuote: int, derived: bool, job: nat)
  datatype Row = Row(key: Key, value: Approved)
  type Rates = map<Key, Approved>

  datatype Store = Store(now: nat, jobs: seq<Job>, claims: seq<Claim>, rates: Rates)

  // ---- Jobs ----

  predicate Due(j: Job, now: nat) {
    && j.attempts < j.maxAttempts
    && (|| ((j.status.Pending? || j.status.Retry?) && j.nextAttemptAt <= now)
        || (j.status.Processing? && j.lockedAt.Some? && j.lockedAt.value + LEASE < now))
  }

  function Power(n: nat): nat { if n == 0 then 1 else 2 * Power(n - 1) }

  function Claimed(j: Job, now: nat): Job {
    j.(status := Processing, attempts := j.attempts + 1, lockedAt := Some(now))
  }

  /** Unlike the store, this update does not look at the status it finds. */
  function Failed(j: Job, c: Claim, now: nat): Job {
    j.(status := if c.attempt >= c.maxAttempts then Dead else Retry,
       nextAttemptAt := now + Min(Power(c.attempt), 3600), lockedAt := None)
  }

  function Finished(j: Job): Job {
    if j.status.Processing? then j.(status := Completed, lockedAt := None) else j
  }

  // ---- Rates ----

  /** The currencies rates are derived for, in the worker's order. */
  const CURRENCIES := ["USD", "EUR", "CNY", "GBP", "JPY", "CHF", "CAD"]

  predicate Quoted(quotes: map<string, real>) {
    EcbFeed.EXPECTED <= quotes.Keys && forall c :: c in quotes ==> quotes[c] > 0.0
  }

  lemma EveryCurrencyIsQuoted(quotes: map<string, real>, n: nat)
    requires Quoted(quotes) && n < |CURRENCIES|
    ensures "INR" in quotes && (CURRENCIES[n] == EcbFeed.ANCHOR || CURRENCIES[n] in quotes)
  {
    assert CURRENCIES[n] in EcbFeed.SUPPORTED;
    assert "INR" in EcbFeed.EXPECTED;
  }

  function RowFor(tenant: nat, n: nat, batch: EcbFeed.Batch, job: nat): Row
    requires Quoted(batch.quotes) && n < |CURRENCIES|
  {
    EveryCurrencyIsQuoted(batch.quotes, n);
    var r := EcbFeed.RateFor(batch.quotes, CURRENCIES[n]);
    Row(Key(tenant, CURRENCIES[n], batch.date), Approved(r.rate, r.rawQuote, r.derived, job))
  }

  function TenantRows(tenant: nat, n: nat, batch: EcbFeed.Batch, job: nat): seq<Row>
    requires Quoted(batch.quotes) && n <= |CURRENCIES|
  {
    if n == 0 then [] else TenantRows(tenant, n - 1, batch, job) + [RowFor(tenant, n - 1, batch, job)]
  }

  function AllRows(tenants: seq<nat>, batch: EcbFeed.Batch, job: nat): seq<Row>
    requires Quoted(batch.quotes)
  {
    if tenants == [] then []
    else
      var n := |tenants| - 1;
      AllRows(tenants[..n], batch, job) + TenantRows(tenants[n], |CURRENCIES|, batch, job)
  }

  /** uq_exchange_rate_import_pair: one rate per job, tenant and currency. */
  predicate PairTaken(rates: Rates, row: Row) {
    exists k | k in rates :: k.tenant == row.key.tenant && k.currency == row.key.currency && rates[k].job == row.value.job
  }

  /** ON CONFLICT DO NOTHING, on either index. */
  function Insert(rates: Rates, row: Row): Rates {
    if row.key in rates || PairTaken(rates, row) then rates else rates[row.key := row.value]
  }

  function InsertAll(rates: Rates, rows: seq<Row>): Rates {
    if rows == [] then rates else Insert(InsertAll(rates, rows[..|rows| - 1]), rows[|rows| - 1])
  }

  /** exchange_rate_positive and exchange_rate_raw_quote_positive */
  predicate AllPositive(rows: seq<Row>) {
    forall n | 0 <= n < |rows| :: rows[n].value.rate > 0 && rows[n].value.rawQuote > 0
  }

  predicate InAge(c: Claim, batch: EcbFeed.Batch) { 0 <= c.requested - batch.date <= MAX_AGE_DAYS }

  // ---- Steps ----

  datatype Step =
    | Tick(seconds: nat)
    | Enqueue(date: int)
    | ClaimJob(j: nat)
    | StoreRates(n: nat, batch: EcbFeed.Batch, tenants: seq<nat>)  // by the holder of the n-th claim
    | MarkFailed(n: nat)

  /** Whether store_rates commits. */
  predicate Stores(c: Claim, batch: EcbFeed.Batch, tenants: seq<nat>) {
    InAge(c, batch) && Quoted(batch.quotes) && AllPositive(AllRows(tenants, batch, c.job))
  }

  function Next(s: Store, a: Step): Store {
    match a
    case Tick(seconds) => s.(now := s.now + seconds)
    case Enqueue(date) =>
      if exists j | 0 <= j < |s.jobs| :: s.jobs[j].requested == date then s
      else s.(jobs := s.jobs + [Job(date, Pending, 0, MAX_ATTEMPTS, s.now, None)])
    case ClaimJob(j) =>
      if j < |s.jobs| && Due(s.jobs[j], s.now) then
        var job := Claimed(s.jobs[j], s.now);
        s.(jobs := s.jobs[j := job], claims := s.claims + [Claim(j, job.requested, job.attempts, job.maxAttempts)])
      else s
    case StoreRates(n, batch, tenants) =>
      if n < |s.claims| && s.claims[n].job < |s.jobs| && Stores(s.claims[n], batch, tenants) then
        var c := s.claims[n];
        s.(rates := InsertAll(s.rates, AllRows(tenants, batch, c.job)), jobs := s.jobs[c.job := Finished(s.jobs[c.job])])
      else s
    case MarkFailed(n) =>
      if n < |s.claims| && s.claims[n].job < |s.jobs| then
        var c := s.claims[n];
        s.(jobs := s.jobs[c.job := Failed(s.jobs[c.job], c, s.now)])
      else s
  }

  function After(s: Store, steps: seq<Step>): Store {
    if steps == [] then s else Next(After(s, steps[..|steps| - 1]), steps[|steps| - 1])
  }

  // ---- Approved rates are write-once ----

  ghost predicate Extends(rates: Rates, rates': Rates) {
    forall k :: k in rates ==> k in rates' && rates'[k] == rates[k]
  }

  lemma {:induction false} InsertsExtend(rates: Rates, rows: seq<Row>)
    ensures Extends(rates, InsertAll(rates, rows))
  {
    if rows != [] { InsertsExtend(rates, rows[..|rows| - 1]); }
  }

  /** Whatever order imports, retries, stale workers and failures come in, an approved rate never
      changes and never disappears. */
  lemma {:induction false} RatesAreWriteOnce(s: Store, steps: seq<Step>)
    ensures Extends(s.rates, After(s, steps).rates)
  {
    hide AllRows, InsertAll, Stores, Power;
    if steps != [] {
      var before, a := After(s, steps[..|steps| - 1]), steps[|steps| - 1];
      RatesAreWriteOnce(s, steps[..|steps| - 1]);
      if a.StoreRates? && a.n < |before.claims| && before.claims[a.n].job < |before.jobs|
         && Stores(before.claims[a.n], a.batch, a.tenants) {
        StoredBatchIsQuoted(before.claims[a.n], a.batch, a.tenants);
        InsertsExtend(before.rates, AllRows(a.tenants, a.batch, before.claims[a.n].job));
      }
    }
  }

  lemma StoredBatchIsQuoted(c: Claim, batch: EcbFeed.Batch, tenants: seq<nat>)
    requires Stores(c, batch, tenants)
    ensures Quoted(batch.quotes) && InAge(c, batch) && AllPositive(AllRows(tenants, batch, c.job))
  {}

  /** Where every approved rate comes from: positive, at most three days older than the day its job
      was for, and the only rate that job gave its tenant for its currency. */
  ghost predicate Sourced(s: Store) {
    && (forall n :: 0 <= n < |s.claims| ==>
          s.claims[n].job < |s.jobs| && s.jobs[s.claims[n].job].requested == s.claims[n].requested)
    && (forall k :: k in s.rates ==>
          && s.rates[k].rate > 0 && s.rates[k].job < |s.jobs|
          && 0 <= s.jobs[s.rates[k].job].requested - k.date <= 3)
    && OnePerJob(s.rates)
  }

  ghost predicate OnePerJob(rates: Rates) {
    forall k, l :: k in rates && l in rates && k.tenant == l.tenant && k.currency == l.currency && rates[k].job == rates[l].job
                   ==> k == l
  }

  ghost predicate RowsFrom(rows: seq<Row>, date: int, job: nat) {
    forall n :: 0 <= n < |rows| ==> rows[n].key.date == date && rows[n].value.job == job
  }

  lemma {:induction false} RowsAreFrom(tenants: seq<nat>, batch: EcbFeed.Batch, job: nat)
    requires Quoted(batch.quotes)
    ensures RowsFrom(AllRows(tenants, batch, job), batch.date, job)
  {
    hide EcbFeed.RateFor;
    if tenants != [] {
      RowsAreFrom(tenants[..|tenants| - 1], batch, job);
      TenantRowsAreFrom(tenants[|tenants| - 1], |CURRENCIES|, batch, job);
    }
  }

  lemma {:induction false} TenantRowsAreFrom(tenant: nat, n: nat, batch: EcbFeed.Batch, job: nat)
    requires Quoted(batch.quotes) && n <= |CURRENCIES|
    ensures RowsFrom(TenantRows(tenant, n, batch, job), batch.date, job)
  {
    hide EcbFeed.RateFor;
    if n > 0 { TenantRowsAreFrom(tenant, n - 1, batch, job); }
  }

  lemma {:induction false} InsertsAreRows(rates: Rates, rows: seq<Row>, date: int, job: nat)
    requires OnePerJob(rates) && RowsFrom(rows, date, job) && AllPositive(rows)
    ensures OnePerJob(InsertAll(rates, rows))
    ensures forall k :: k in InsertAll(rates, rows) ==>
              || (k in rates && InsertAll(rates, rows)[k] == rates[k])
              || (k.date == date && InsertAll(rates, rows)[k].job == job && InsertAll(rates, rows)[k].rate > 0)
  {
    if rows != [] { InsertsAreRows(rates, rows[..|rows| - 1], date, job); }
  }

  lemma NextIsSourced(s: Store, a: Step)
    requires Sourced(s)
    ensures Sourced(Next(s, a))
  {
    hide AllRows, InsertAll, Stores, Power, OnePerJob;
    if a.StoreRates? && a.n < |s.claims| && s.claims[a.n].job < |s.jobs| && Stores(s.claims[a.n], a.batch, a.tenants) {
      var c := s.claims[a.n];
      StoredBatchIsQuoted(c, a.batch, a.tenants);
      RowsAreFrom(a.tenants, a.batch, c.job);
      InsertsAreRows(s.rates, AllRows(a.tenants, a.batch, c.job), a.batch.date, c.job);
    }
  }

  lemma {:induction false} RatesAreSourced(s: Store, steps: seq<Step>)
    requires Sourced(s)
    ensures Sourced(After(s, steps))
  {
    hide Sourced, Next;
    if steps != [] {
      RatesAreSourced(s, steps[..|steps| - 1]);
      NextIsSourced(After(s, steps[..|steps| - 1]), steps[|steps| - 1]);
    }
  }

  /** A store leaves every row it asked for approved under its key, unless the same job had already
      given that tenant a rate for that currency. */
  lemma {:induction false} InsertsCover(rates: Rates, rows: seq<Row>, n: nat)
    requires n < |rows|
    ensures var after := InsertAll(rates, rows);
            && (rows[n].key in after || PairTaken(after, rows[n]))
            && (forall k :: k in after && k !in rates ==> exists m :: 0 <= m < |rows| && rows[m] == Row(k, after[k]))
  {
    var last := |rows| - 1;
    if n < last { InsertsCover(rates, rows[..last], n); } else if last > 0 { InsertsCover(rates, rows[..last], 0); }
    var before, after := InsertAll(rates, rows[..last]), InsertAll(rates, rows);
    forall k | k in after && k !in rates ensures exists m :: 0 <= m < |rows| && rows[m] == Row(k, after[k]) {
      if k in before {
        assert last > 0;
        var m :| 0 <= m < last && rows[..last][m] == Row(k, before[k]);
        assert rows[m] == Row(k, after[k]);
      } else {
        assert rows[last] == Row(k, after[k]);
      }
    }
    if n < last && PairTaken(before, rows[n]) {
      var k :| && k in before && k.tenant == rows[n].key.tenant && k.currency == rows[n].key.currency
               && before[k].job == rows[n].value.job;
      assert k in after && after[k] == before[k];
    }
  }

  // ---- One job a day ----

  ghost predicate OneJobADay(jobs: seq<Job>) {
    forall i, j :: 0 <= i < j < |jobs| ==> jobs[i].requested != jobs[j].requested
  }

  lemma NextIsOneADay(s: Store, a: Step)
    requires OneJobADay(s.jobs)
    ensures OneJobADay(Next(s, a).jobs)
  {
    hide AllRows, InsertAll, Stores, Power;
  }

  /** However often a day is asked for, it gets one job: at once, claimable, with all its attempts. */
  lemma {:induction false} OneJobPerDate(s: Store, steps: seq<Step>, date: int)
    requires OneJobADay(s.jobs)
    ensures var later := After(s, steps);
            && OneJobADay(later.jobs)
            && var jobs := Next(later, Enqueue(date)).jobs;
               && (exists j :: 0 <= j < |jobs| && jobs[j].requested == date)
               && later.jobs <= jobs
               && (jobs != later.jobs ==> jobs == later.jobs + [Job(date, Pending, 0, 8, later.now, None)])
  {
    hide AllRows, InsertAll, Stores, Power;
    if steps != [] {
      var n := |steps| - 1;
      OneJobPerDate(s, steps[..n], date);
      NextIsOneADay(After(s, steps[..n]), steps[n]);
    }
    hide OneJobADay;
    var later := After(s, steps);
    var jobs := Next(later, Enqueue(date)).jobs;
    if jobs != later.jobs { assert jobs[|later.jobs|].requested == date; }
  }

  // ---- What a store writes ----

  const DERIVED := {"USD", "EUR", "CNY", "GBP", "JPY", "CHF", "CAD"}

  /** INR per unit of the currency, from quotes per EUR, each rounded to the nearest quantum. */
  ghost predicate RateOf(quotes: map<string, real>, currency: string, v: Approved)
    requires Quoted(quotes) && currency in DERIVED
  {
    assert "INR" in EcbFeed.EXPECTED;
    assert currency == "EUR" || currency in EcbFeed.EXPECTED by { assert currency == "EUR" || currency in EcbFeed.SUPPORTED; }
    var inr := quotes["INR"];
    if currency == "EUR"
    then EcbFeed.IsNearest(inr * 100_000_000.0, v.rate) && v.rawQuote == v.rate && !v.derived
    else && EcbFeed.IsNearest(inr / quotes[currency] * 100_000_000.0, v.rate)
         && EcbFeed.IsNearest(quotes[currency] * 100_000_000.0, v.rawQuote) && v.derived
  }

  lemma RowForIs(tenant: nat, n: nat, batch: EcbFeed.Batch, job: nat)
    requires Quoted(batch.quotes) && n < |CURRENCIES|
    ensures var row := RowFor(tenant, n, batch, job);
            && row.key == Key(tenant, CURRENCIES[n], batch.date) && row.value.job == job && CURRENCIES[n] in DERIVED
            && RateOf(batch.quotes, CURRENCIES[n], row.value)
  {
    EveryCurrencyIsQuoted(batch.quotes, n);
    var inr, c := batch.quotes["INR"], CURRENCIES[n];
    EcbFeed.RoundIsNearest(inr * EcbFeed.QUANTUM, EcbFeed.Quantize(inr));
    if c != "EUR" {
      EcbFeed.RoundIsNearest(inr / batch.quotes[c] * EcbFeed.QUANTUM, EcbFeed.Quantize(inr / batch.quotes[c]));
      EcbFeed.RoundIsNearest(batch.quotes[c] * EcbFeed.QUANTUM, EcbFeed.Quantize(batch.quotes[c]));
    }
    hide EcbFeed.Round, EcbFeed.IsNearest;
  }

  lemma {:induction false} TenantRowsAre(tenant: nat, n: nat, batch: EcbFeed.Batch, job: nat)
    requires Quoted(batch.quotes) && n <= |CURRENCIES|
    ensures var rows := TenantRows(tenant, n, batch, job);
            |rows| == n && forall k :: 0 <= k < n ==> rows[k] == RowFor(tenant, k, batch, job)
  {
    hide RowFor;
    if n > 0 { TenantRowsAre(tenant, n - 1, batch, job); }
  }

  ghost predicate Asks(tenants: seq<nat>, batch: EcbFeed.Batch, job: nat, row: Row)
    requires Quoted(batch.quotes)
  {
    exists t, n: nat :: t in tenants && n < |CURRENCIES| && row == RowFor(t, n, batch, job)
  }

  lemma {:induction false} AllRowsAre(tenants: seq<nat>, batch: EcbFeed.Batch, job: nat, row: Row)
    requires Quoted(batch.quotes)
    ensures row in AllRows(tenants, batch, job) <==> Asks(tenants, batch, job, row)
  {
    hide RowFor, TenantRows;
    if tenants != [] {
      var last := |tenants| - 1;
      var earlier, t := tenants[..last], tenants[last];
      AllRowsAre(earlier, batch, job, row);
      TenantRowsAre(t, |CURRENCIES|, batch, job);
      var rows := TenantRows(t, |CURRENCIES|, batch, job);
      assert tenants == earlier + [t];
      if row in rows {
        var k :| 0 <= k < |rows| && rows[k] == row;
        assert t in tenants && row == RowFor(t, k, batch, job);
      }
      if u, n: nat :| u in tenants && n < |CURRENCIES| && row == RowFor(u, n, batch, job) {
        if u == t { assert rows[n] == row; } else { assert u in earlier; }
      }
    }
  }

  /** Exactly when a store commits: the batch is at most three days old and not from the future, quotes every
      expected currency, all positive, and no rate or raw quote of it rounds to zero. */
  lemma StoresIff(c: Claim, batch: EcbFeed.Batch, tenants: seq<nat>)
    ensures Stores(c, batch, tenants) <==>
              && 0 <= c.requested - batch.date <= 3 && Quoted(batch.quotes)
              && (tenants == [] ||
                  forall n :: 0 <= n < |CURRENCIES| ==>
                    RowFor(0, n, batch, c.job).value.rate > 0 && RowFor(0, n, batch, c.job).value.rawQuote > 0)
  {
    if Quoted(batch.quotes) {
      hide RowFor, AllRows;
      var rows := AllRows(tenants, batch, c.job);
      forall row { AllRowsAre(tenants, batch, c.job, row); }
      forall t, n: nat | n < |CURRENCIES| { SameValue(t, n, batch, c.job); }
      if AllPositive(rows) && tenants != [] {
        forall n: nat | n < |CURRENCIES|
          ensures RowFor(0, n, batch, c.job).value.rate > 0 && RowFor(0, n, batch, c.job).value.rawQuote > 0
        {
          assert tenants[0] in tenants;
          assert RowFor(tenants[0], n, batch, c.job) in rows;
        }
      }
      if tenants == [] {
        NoTenants(batch, c.job);
      } else if forall n :: 0 <= n < |CURRENCIES| ==>
                  RowFor(0, n, batch, c.job).value.rate > 0 && RowFor(0, n, batch, c.job).value.rawQuote > 0 {
        forall m | 0 <= m < |rows| ensures rows[m].value.rate > 0 && rows[m].value.rawQuote > 0 {
          assert rows[m] in rows;
          var t, n: nat :| t in tenants && n < |CURRENCIES| && rows[m] == RowFor(t, n, batch, c.job);
        }
      }
    }
  }

  lemma NoTenants(batch: EcbFeed.Batch, job: nat)
    requires Quoted(batch.quotes)
    ensures AllRows([], batch, job) == []
  {}

  lemma SameValue(tenant: nat, n: nat, batch: EcbFeed.Batch, job: nat)
    requires Quoted(batch.quotes) && n < |CURRENCIES|
    ensures RowFor(tenant, n, batch, job).value == RowFor(0, n, batch, job).value
  {
    hide EcbFeed.RateFor;
  }

  /** A store that commits approves, for each of its tenants and each derived currency, the rate of its
      batch under the batch's date - unless that key, or the job's pair, was taken - and nothing else. */
  lemma StoreWrites(s: Store, n: nat, batch: EcbFeed.Batch, tenants: seq<nat>, key: Key)
    requires n < |s.claims| && s.claims[n].job < |s.jobs| && Stores(s.claims[n], batch, tenants)
    ensures var rates, job := Next(s, StoreRates(n, batch, tenants)).rates, s.claims[n].job;
            && (key in rates && key !in s.rates ==>
                  && key.tenant in tenants && key.date == batch.date && key.currency in DERIVED
                  && rates[key].job == job && RateOf(batch.quotes, key.currency, rates[key]))
            && (key.tenant in tenants && key.date == batch.date && key.currency in DERIVED ==>
                  || key in rates
                  || exists k :: k in rates && k.tenant == key.tenant && k.currency == key.currency && rates[k].job == job)
  {
    var job := s.claims[n].job;
    var rows := AllRows(tenants, batch, job);
    var rates := Next(s, StoreRates(n, batch, tenants)).rates;
    hide RowFor, AllRows, InsertAll, Stores, RateOf, Finished;
    assert rates == InsertAll(s.rates, rows);
    if key in rates && key !in s.rates {
      InsertedRowIs(s.rates, rows, key);
      AllRowsAre(tenants, batch, job, Row(key, rates[key]));
      var t, k: nat :| t in tenants && k < |CURRENCIES| && Row(key, rates[key]) == RowFor(t, k, batch, job);
      RowForIs(t, k, batch, job);
    }
    if key.tenant in tenants && key.date == batch.date && key.currency in DERIVED {
      var k := IndexOf(key.currency);
      RowForIs(key.tenant, k, batch, job);
      var row := RowFor(key.tenant, k, batch, job);
      AllRowsAre(tenants, batch, job, row);
      var m :| 0 <= m < |rows| && rows[m] == row;
      InsertsCover(s.rates, rows, m);
    }
  }

  lemma InsertedRowIs(rates: Rates, rows: seq<Row>, key: Key)
    requires key in InsertAll(rates, rows) && key !in rates
    ensures Row(key, InsertAll(rates, rows)[key]) in rows
  {
    if rows != [] { InsertsCover(rates, rows, 0); }
  }

  lemma IndexOf(currency: string) returns (n: nat)
    requires currency in DERIVED
    ensures n < |CURRENCIES| && CURRENCIES[n] == currency
  {
    n := if currency == "USD" then 0 else if currency == "EUR" then 1 else if currency == "CNY" then 2
         else if currency == "GBP" then 3 else if currency == "JPY" then 4 else if currency == "CHF" then 5 else 6;
  }

  // ---- When a job may be claimed ----

  predicate Takes(s: Store, j: nat) {
    j < |s.jobs| && j < |Next(s, ClaimJob(j)).jobs| && Next(s, ClaimJob(j)).jobs[j] != s.jobs[j]
  }

  /** Something other than a claim of job `j` changed it on the way. */
  ghost predicate Disturbed(s: Store, steps: seq<Step>, j: nat) {
    exists m :: 0 <= m < |steps| && steps[m] != ClaimJob(j) && !SameJob(After(s, steps[..m]), steps[m], j)
  }

  predicate SameJob(s: Store, a: Step, j: nat) {
    j < |s.jobs| && j < |Next(s, a).jobs| && Next(s, a).jobs[j] == s.jobs[j]
  }

  /** What a poll finds: a PENDING or RETRY job whose time has come, or one PROCESSING for more than two
      minutes, in either case with an attempt left. */
  lemma ClaimTakesIff(s: Store, j: nat)
    ensures Takes(s, j) <==>
              && j < |s.jobs| && s.jobs[j].attempts < s.jobs[j].maxAttempts
              && var job := s.jobs[j];
                 || ((job.status.Pending? || job.status.Retry?) && s.now >= job.nextAttemptAt)
                 || (job.status.Processing? && job.lockedAt.Some? && s.now > job.lockedAt.value + 120)
  {}

  /** No claim takes this job before `t`. */
  ghost predicate Waits(job: Job, t: nat) { forall now: nat :: now < t ==> !Due(job, now) }

  lemma OneStep(s: Store, a: Step, j: nat)
    requires j < |s.jobs|
    ensures j < |Next(s, a).jobs| && s.now <= Next(s, a).now
    ensures SameJob(s, a, j) <==> Next(s, a).jobs[j] == s.jobs[j]
    ensures a == ClaimJob(j) && !Due(s.jobs[j], s.now) ==> SameJob(s, a, j)
  {
    hide AllRows, InsertAll, Stores, Failed;
  }

  lemma {:induction false} WaitsOut(s: Store, steps: seq<Step>, j: nat, t: nat)
    requires j < |s.jobs| && Waits(s.jobs[j], t)
    ensures j < |After(s, steps).jobs| && s.now <= After(s, steps).now
    ensures Disturbed(s, steps, j) || After(s, steps).jobs[j] == s.jobs[j] || After(s, steps).now >= t
  {
    hide Next, SameJob, Due;
    if steps != [] {
      var n := |steps| - 1;
      WaitsOut(s, steps[..n], j, t);
      OneStep(After(s, steps[..n]), steps[n], j);
      if Disturbed(s, steps[..n], j) {
        var m :| 0 <= m < n && steps[..n][m] != ClaimJob(j) && !SameJob(After(s, steps[..n][..m]), steps[..n][m], j);
        assert steps[..n][..m] == steps[..m] && steps[..n][m] == steps[m];
      }
    }
  }

  /** Seconds a failed import is held back. */
  function Backoff(attempt: nat): nat {
    if attempt < 12 then [1, 2, 4, 8, 16, 32, 64, 128, 256, 512, 1024, 2048][attempt] else 3600
  }

  lemma {:induction false} BackoffIs(attempt: nat)
    ensures Min(Power(attempt), 3600) == Backoff(attempt)
    ensures attempt < 12 ==> Power(attempt) == Backoff(attempt)
    ensures attempt >= 12 ==> Power(attempt) >= 4096
  {
    if attempt > 0 { BackoffIs(attempt - 1); }
  }

  /** A failure before the last attempt, reported at `s.now`, makes the job RETRY and holds it back for the
      backoff of its attempt: no worker claims it earlier, unless something else has changed the job; and
      left alone it can be claimed from then on. */
  lemma BackoffHolds(s: Store, n: nat, steps: seq<Step>)
    requires n < |s.claims| && s.claims[n].job < |s.jobs| && s.claims[n].attempt < s.claims[n].maxAttempts
    ensures var failed, j, t := Next(s, MarkFailed(n)), s.claims[n].job, s.now + Backoff(s.claims[n].attempt);
            var later := After(failed, steps);
            && failed.jobs[j].status.Retry? && j < |later.jobs|
            && (Takes(later, j) ==> later.now >= t || Disturbed(failed, steps, j))
            && (later.jobs[j] == failed.jobs[j] ==>
                  (Takes(later, j) <==> later.now >= t && later.jobs[j].attempts < later.jobs[j].maxAttempts))
  {
    var failed, j, t := Next(s, MarkFailed(n)), s.claims[n].job, s.now + Backoff(s.claims[n].attempt);
    BackoffIs(s.claims[n].attempt);
    assert Waits(failed.jobs[j], t);
    WaitsOut(failed, steps, j, t);
    ClaimTakesIff(After(failed, steps), j);
    hide Power, After, Disturbed;
  }

  /** A worker's claim holds for two minutes against other workers, and no longer. */
  lemma LeaseHolds(s: Store, j: nat, steps: seq<Step>)
    requires Takes(s, j)
    ensures var claimed := Next(s, ClaimJob(j));
            var later := After(claimed, steps);
            && j < |later.jobs|
            && claimed.jobs[j] == s.jobs[j].(status := Processing, attempts := s.jobs[j].attempts + 1, lockedAt := Some(s.now))
            && (Takes(later, j) ==> later.now > s.now + 120 || Disturbed(claimed, steps, j))
            && (later.jobs[j] == claimed.jobs[j] ==>
                  (Takes(later, j) <==> later.now > s.now + 120 && later.jobs[j].attempts < later.jobs[j].maxAttempts))
  {
    var claimed := Next(s, ClaimJob(j));
    assert Waits(claimed.jobs[j], s.now + 121);
    WaitsOut(claimed, steps, j, s.now + 121);
    ClaimTakesIff(After(claimed, steps), j);
    hide After, Disturbed;
  }

  /** Exactly what completes a job: a store that commits while the job is PROCESSING, whoever made it. A
      store that commits later keeps its rates, but leaves the job as it is. */
  lemma CompletesIff(s: Store, a: Step, j: nat)
    requires j < |s.jobs| && !s.jobs[j].status.Completed?
    ensures j < |Next(s, a).jobs|
    ensures Next(s, a).jobs[j].status.Completed? <==>
              && a.StoreRates? && a.n < |s.claims| && s.claims[a.n].job == j
              && Stores(s.claims[a.n], a.batch, a.tenants) && s.jobs[j].status.Processing?
    ensures a.StoreRates? && !s.jobs[j].status.Processing? ==> Next(s, a).jobs[j] == s.jobs[j]
  {
    hide AllRows, InsertAll, Stores, Power;
  }

  // ---- The unguarded failure mark ----

  /** A failure mark finds the job in any state, COMPLETED included, and leaves the rates alone... */
  lemma FailureMarkIgnoresTheStatus(s: Store, n: nat)
    requires n < |s.claims| && s.claims[n].job < |s.jobs|
    ensures var s' := Next(s, MarkFailed(n));
            && s'.jobs[s.claims[n].job].status == (if s.claims[n].attempt >= s.claims[n].maxAttempts then Dead else Retry)
            && s'.rates == s.rates
  {
    hide Power;
  }

  /** Two workers have claimed one job, the second because the first overran its lease. */
  const TWICE_CLAIMED := Store(121, [Job(0, Processing, 2, MAX_ATTEMPTS, 0, Some(121))],
                               [Claim(0, 0, 1, MAX_ATTEMPTS), Claim(0, 0, 2, MAX_ATTEMPTS)], map[])

  lemma ClaimedTwice() returns (steps: seq<Step>)
    ensures After(Store(0, [], [], map[]), steps) == TWICE_CLAIMED
  {
    var start := Store(0, [], [], map[]);
    steps := [];
    OneMore(start, steps, Enqueue(0));  steps := steps + [Enqueue(0)];
    OneMore(start, steps, ClaimJob(0)); steps := steps + [ClaimJob(0)];
    OneMore(start, steps, Tick(121));   steps := steps + [Tick(121)];
    OneMore(start, steps, ClaimJob(0)); steps := steps + [ClaimJob(0)];
  }

  lemma CompletesThenFails(batch: EcbFeed.Batch)
    requires Stores(Claim(0, 0, 2, MAX_ATTEMPTS), batch, [])
    ensures var done := Next(TWICE_CLAIMED, StoreRates(1, batch, []));
            && |done.jobs| == 1 && done.jobs[0].status.Completed? && |Next(done, MarkFailed(0)).jobs| == 1
            && Next(done, MarkFailed(0)).jobs[0].status.Retry?
  {
    hide Stores, InsertAll, AllRows, Power, Failed;
    FailureMarkIgnoresTheStatus(Next(TWICE_CLAIMED, StoreRates(1, batch, [])), 0);
  }

  /** It happens: the second worker completes the job, then the first one reports its failure. */
  lemma RegressHappens() returns (steps: seq<Step>)
    ensures var s := After(Store(0, [], [], map[]), steps);
            && |steps| > 0 && |s.jobs| == 1 && s.jobs[0].status.Retry?
            && var before := After(Store(0, [], [], map[]), steps[..|steps| - 1]);
               |before.jobs| == 1 && before.jobs[0].status.Completed?
  {
    var start := Store(0, [], [], map[]);
    var batch := EcbFeed.Batch(0, map c | c in EcbFeed.EXPECTED :: 1.0);
    assert Stores(Claim(0, 0, 2, MAX_ATTEMPTS), batch, []);
    CompletesThenFails(batch);
    var first := ClaimedTwice();
    hide Stores, Next, After;
    OneMore(start, first, StoreRates(1, batch, []));
    var second := first + [StoreRates(1, batch, [])];
    OneMore(start, second, MarkFailed(0));
    steps := second + [MarkFailed(0)];
    assert steps[..|steps| - 1] == second;
  }

  lemma OneMore(s: Store, steps: seq<Step>, a: Step)
    ensures After(s, steps + [a]) == Next(After(s, steps), a)
  {
    hide Next;
    assert (steps + [a])[..|steps|] == steps;
  }

  lemma {:induction false} NothingToInsert(rates: Rates, rows: seq<Row>)
    requires forall n :: 0 <= n < |rows| ==> rows[n].key in rates || PairTaken(rates, rows[n])
    ensures InsertAll(rates, rows) == rates
  {
    if rows != [] { NothingToInsert(rates, rows[..|rows| - 1]); }
  }

  lemma {:induction false} SameKeys(tenants: seq<nat>, a: EcbFeed.Batch, b: EcbFeed.Batch, job: nat)
    requires Quoted(a.quotes) && Quoted(b.quotes) && a.date == b.date
    ensures var r, r' := AllRows(tenants, a, job), AllRows(tenants, b, job);
            |r| == |r'| && forall k :: 0 <= k < |r| ==> r'[k].key == r[k].key && r'[k].value.job == r[k].value.job
  {
    hide EcbFeed.RateFor;
    if tenants != [] {
      SameKeys(tenants[..|tenants| - 1], a, b, job);
      SameTenantKeys(tenants[|tenants| - 1], |CURRENCIES|, a, b, job);
    }
  }

  lemma {:induction false} SameTenantKeys(tenant: nat, n: nat, a: EcbFeed.Batch, b: EcbFeed.Batch, job: nat)
    requires Quoted(a.quotes) && Quoted(b.quotes) && a.date == b.date && n <= |CURRENCIES|
    ensures var r, r' := TenantRows(tenant, n, a, job), TenantRows(tenant, n, b, job);
            |r| == |r'| && forall k :: 0 <= k < |r| ==> r'[k].key == r[k].key && r'[k].value.job == r[k].value.job
  {
    hide EcbFeed.RateFor;
    if n > 0 { SameTenantKeys(tenant, n - 1, a, b, job); }
  }

  lemma TakenStays(rates: Rates, rates': Rates, row: Row, row': Row)
    requires Extends(rates, rates') && row'.key == row.key && row'.value.job == row.value.job
    requires row.key in rates || PairTaken(rates, row)
    ensures row'.key in rates' || PairTaken(rates', row')
  {
    if PairTaken(rates, row) {
      var k :| k in rates && k.tenant == row.key.tenant && k.currency == row.key.currency && rates[k].job == row.value.job;
      assert k in rates' && rates'[k].job == row'.value.job;
    }
  }

  /** ... but importing that provider date again, even with other quotes, changes no rate: every row
      finds its key or its job's pair taken. */
  lemma ReimportIsHarmless(s: Store, n: nat, m: nat, batch: EcbFeed.Batch, again: EcbFeed.Batch, tenants: seq<nat>,
                           between: seq<Step>)
    requires n < |s.claims| && s.claims[n].job < |s.jobs| && Stores(s.claims[n], batch, tenants)
    requires again.date == batch.date
    requires var later := After(Next(s, StoreRates(n, batch, tenants)), between);
             m < |later.claims| && later.claims[m].job == s.claims[n].job
    ensures var later := After(Next(s, StoreRates(n, batch, tenants)), between);
            Next(later, StoreRates(m, again, tenants)).rates == later.rates
  {
    hide After, Power, AllRows, InsertAll, Stores;
    var first := Next(s, StoreRates(n, batch, tenants));
    var later := After(first, between);
    var c := later.claims[m];
    StoredBatchIsQuoted(s.claims[n], batch, tenants);
    var rows := AllRows(tenants, batch, c.job);
    assert first.rates == InsertAll(s.rates, rows);
    RatesAreWriteOnce(first, between);
    if c.job < |later.jobs| && Stores(c, again, tenants) {
      StoredBatchIsQuoted(c, again, tenants);
      SameKeys(tenants, batch, again, c.job);
      AllTaken(s.rates, later.rates, rows, AllRows(tenants, again, c.job));
      NothingToInsert(later.rates, AllRows(tenants, again, c.job));
    }
  }

  lemma AllTaken(rates: Rates, rates': Rates, rows: seq<Row>, rows': seq<Row>)
    requires Extends(InsertAll(rates, rows), rates') && |rows'| == |rows|
    requires forall k :: 0 <= k < |rows| ==> rows'[k].key == rows[k].key && rows'[k].value.job == rows[k].value.job
    ensures forall k :: 0 <= k < |rows'| ==> rows'[k].key in rates' || PairTaken(rates', rows'[k])
  {
    hide InsertAll, PairTaken, Extends;
    forall k | 0 <= k < |rows'| ensures rows'[k].key in rates' || PairTaken(rates', rows'[k]) {
      InsertsCover(rates, rows, k);
      TakenStays(InsertAll(rates, rows), rates', rows[k], rows'[k]);
    }
  }

  // ---- As it runs ----

  class Worker {
    var jobs: seq<Job>
    var rates: Rates

    constructor ()
      ensures jobs == [] && rates == map[]
    {
      jobs, rates := [], map[];
    }

    method EnqueueImport(date: int, now: nat)
      modifies this`jobs
      ensures jobs == Next(Store(now, old(jobs), [], rates), Enqueue(date)).jobs
    {
      if !exists j | 0 <= j < |jobs| :: jobs[j].requested == date {
        jobs := jobs + [Job(date, Pending, 0, MAX_ATTEMPTS, now, None)];
      }
    }

    /** The due job with the earliest requested date, among those no other transaction holds. */
    ghost predicate Earliest(j: nat, now: nat, locked: set<nat>)
      requires j < |jobs|
      reads this
    {
      && j !in locked && Due(jobs[j], now)
      && forall other :: 0 <= other < |jobs| && other !in locked && Due(jobs[other], now) ==>
           jobs[j].requested <= jobs[other].requested
    }

    method ClaimJob(now: nat, locked: set<nat>) returns (claim: Option<Claim>)
      modifies this`jobs
      ensures claim.None? ==>
                jobs == old(jobs) && forall j :: 0 <= j < |jobs| && j !in locked ==> !Due(jobs[j], now)
      ensures claim.Some? ==>
                var j := claim.value.job;
                && j < |old(jobs)| && old(Earliest(j, now, locked))
                && jobs == old(jobs)[j := Claimed(old(jobs)[j], now)]
                && claim.value == Claim(j, jobs[j].requested, jobs[j].attempts, jobs[j].maxAttempts)
      ensures claim.Some? ==>
                var was := old(jobs)[claim.value.job];
                && was.attempts < was.maxAttempts
                && (|| ((was.status.Pending? || was.status.Retry?) && was.nextAttemptAt <= now)
                    || (was.status.Processing? && was.lockedAt.Some? && was.lockedAt.value + 120 < now))
    {
      var found: Option<nat> := None;
      for j := 0 to |jobs|
        invariant found.None? ==> forall k :: 0 <= k < j && k !in locked ==> !Due(jobs[k], now)
        invariant found.Some? ==>
                    && found.value < j && found.value !in locked && Due(jobs[found.value], now)
                    && forall k :: 0 <= k < j && k !in locked && Due(jobs[k], now) ==>
                         jobs[found.value].requested <= jobs[k].requested
      {
        if j !in locked && Due(jobs[j], now) && (found.None? || jobs[j].requested < jobs[found.value].requested) {
          found := Some(j);
        }
      }
      if found.None? { return None; }
      var j := found.value;
      jobs := jobs[j := jobs[j].(status := Processing, attempts := jobs[j].attempts + 1, lockedAt := Some(now))];
      return Some(Claim(j, jobs[j].requested, jobs[j].attempts, jobs[j].maxAttempts));
    }

    /** One row per tenant and derived currency. */
    method BuildRows(tenants: seq<nat>, batch: EcbFeed.Batch, derived: map<string, EcbFeed.Rate>, job: nat)
      returns (rows: seq<Row>)
      requires Quoted(batch.quotes)
      requires forall n :: 0 <= n < |CURRENCIES| ==>
                 CURRENCIES[n] in derived && RowFor(0, n, batch, job).value == ValueOf(derived[CURRENCIES[n]], job)
      ensures rows == AllRows(tenants, batch, job)
    {
      hide EcbFeed.RateFor;
      rows := [];
      for i := 0 to |tenants|
        invariant rows == AllRows(tenants[..i], batch, job)
      {
        assert tenants[..i + 1][..i] == tenants[..i];
        ghost var before := rows;
        for n := 0 to |CURRENCIES|
          invariant rows == before + TenantRows(tenants[i], n, batch, job)
        {
          rows := rows + [Row(Key(tenants[i], CURRENCIES[n], batch.date), ValueOf(derived[CURRENCIES[n]], job))];
          assert RowFor(tenants[i], n, batch, job).value == RowFor(0, n, batch, job).value;
        }
      }
      assert tenants[..|tenants|] == tenants;
    }

    /** Nothing is stored unless everything is: the ages, the quotes and the CHECKs are all met. */
    method StoreRates(c: Claim, batch: EcbFeed.Batch, tenants: seq<nat>) returns (stored: bool)
      requires c.job < |jobs| && forall q :: q in batch.quotes ==> batch.quotes[q] > 0.0
      modifies this
      ensures stored <==> Stores(c, batch, tenants)
      ensures stored ==> rates == InsertAll(old(rates), AllRows(tenants, batch, c.job))
      ensures jobs == if stored then old(jobs)[c.job := Finished(old(jobs)[c.job])] else old(jobs)
      ensures !stored ==> rates == old(rates)
    {
      hide AllRows, EcbFeed.RateFor;
      var age := c.requested - batch.date;
      if age < 0 || age > MAX_AGE_DAYS { return false; }
      var derived := EcbFeed.DeriveBaseRates(batch.quotes);
      if derived.None? { return false; }
      DerivedRows(batch, derived.value, c.job);
      var rows := BuildRows(tenants, batch, derived.value, c.job);
      if !AllPositive(rows) { return false; }
      InsertRows(rows);
      if jobs[c.job].status.Processing? {
        jobs := jobs[c.job := jobs[c.job].(status := Completed, lockedAt := None)];
      }
      return true;
    }

    method InsertRows(rows: seq<Row>)
      modifies this`rates
      ensures rates == InsertAll(old(rates), rows)
    {
      for n := 0 to |rows|
        invariant rates == InsertAll(old(rates), rows[..n])
      {
        assert rows[..n + 1][..n] == rows[..n];
        if rows[n].key !in rates && !PairTaken(rates, rows[n]) {
          rates := rates[rows[n].key := rows[n].value];
        }
      }
      assert rows[..|rows|] == rows;
    }

    method MarkFailed(c: Claim, now: nat)
      requires c.job < |jobs|
      modifies this`jobs
      ensures jobs == old(jobs)[c.job := Failed(old(jobs)[c.job], c, now)]
    {
      var terminal := c.attempt >= c.maxAttempts;
      var backoff := Min(Power(c.attempt), 3600);
      jobs := jobs[c.job := jobs[c.job].(status := if terminal then Dead else Retry,
                                         nextAttemptAt := now + backoff, lockedAt := None)];
    }
  }

  function ValueOf(r: EcbFeed.Rate, job: nat): Approved { Approved(r.rate, r.rawQuote, r.derived, job) }

  lemma DerivedRows(batch: EcbFeed.Batch, derived: map<string, EcbFeed.Rate>, job: nat)
    requires Quoted(batch.quotes)
    requires derived.Keys == (set c | c in EcbFeed.SUPPORTED) - {EcbFeed.BASE}
    requires forall c :: c in derived ==>
               && (c == EcbFeed.ANCHOR || c in batch.quotes) && "INR" in batch.quotes
               && derived[c] == EcbFeed.RateFor(batch.quotes, c)
    ensures forall n :: 0 <= n < |CURRENCIES| ==>
              CURRENCIES[n] in derived && RowFor(0, n, batch, job).value == ValueOf(derived[CURRENCIES[n]], job)
  {
    hide EcbFeed.RateFor;
  }
}
