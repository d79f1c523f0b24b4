/**
 * The dashboard's summary cards: account and model counts from the pool
 * statistics, the number of quota consumptions in the last 24 hours, and the two
 * availability rates with their guard against an empty denominator.
 */
module SectionCards {
  import opened Wrappers
  import opened Seqs
  import opened SharedPoolModels

  /** `poolStats.accounts`, as far as the cards read it. */
  datatype Accounts = Accounts(totalShared: int, activeShared: int)

  /** The pool statistics: the account figures and the `quotas_by_model` entries. */
  datatype PoolStats = PoolStats(accounts: Accounts, quotasByModel: seq<ModelData>)

  /**
   * One consumption record; `consumedAt` is its time in milliseconds, or `None` when
   * the date string does not parse (an invalid `Date`, which no comparison accepts).
   */
  datatype Consumption = Consumption(consumedAt: Option<int>, quotaConsumed: string)

  /** The counts the cards show (the consumed-quota sum is not modelled). */
  datatype ComputedStats = ComputedStats(
    totalAccounts: int, activeAccounts: int, totalModels: nat, availableModels: nat, callsLast24h: nat)

  const DayMs := 24 * 60 * 60 * 1000

  /** The models whose quota is left and whose status is 1. */
  function AvailableModels(models: seq<ModelData>): seq<ModelData> {
    Filter(models, (m: ModelData) => IsAvailable(m.stats))
  }

  /** `new Date(c.consumed_at) >= last24h`, with `last24h` one day before `now`. */
  predicate InLastDay(c: Consumption, now: int) {
    c.consumedAt.Some? && c.consumedAt.value >= now - DayMs
  }

  /** The consumption records of the last 24 hours. */
  function RecentConsumption(data: seq<Consumption>, now: int): seq<Consumption> {
    Filter(data, (c: Consumption) => InLastDay(c, now))
  }

  /** The figures `loadStats` stores, with `now` the clock reading it takes. */
  function ComputeStats(pool: PoolStats, data: seq<Consumption>, now: int): (r: ComputedStats)
    ensures r.totalAccounts == pool.accounts.totalShared && r.activeAccounts == pool.accounts.activeShared
    ensures r.totalModels == |pool.quotasByModel|
    ensures r.availableModels == |AvailableModels(pool.quotasByModel)| && r.callsLast24h == |RecentConsumption(data, now)|
    ensures r.availableModels <= r.totalModels
    ensures r.callsLast24h <= |data|
  {
    ComputedStats(
      pool.accounts.totalShared, pool.accounts.activeShared,
      |pool.quotasByModel|, |AvailableModels(pool.quotasByModel)|,
      |RecentConsumption(data, now)|)
  }

  /** The available count counts exactly the available entries: all of them, or none of them. */
  lemma AvailableCountExtremes(models: seq<ModelData>)
    ensures |AvailableModels(models)| == |models| <==> forall i :: 0 <= i < |models| ==> IsAvailable(models[i].stats)
    ensures |AvailableModels(models)| == 0 <==> forall i :: 0 <= i < |models| ==> !IsAvailable(models[i].stats)
  {
    FilterCountAll(models, (m: ModelData) => IsAvailable(m.stats));
    FilterCountNone(models, (m: ModelData) => IsAvailable(m.stats));
  }

  /** The available count adds up over any split of the entries. */
  lemma AvailableCountAppend(a: seq<ModelData>, b: seq<ModelData>)
    ensures |AvailableModels(a + b)| == |AvailableModels(a)| + |AvailableModels(b)|
  {
    FilterAppend(a, b, (m: ModelData) => IsAvailable(m.stats));
  }

  /** A record is counted exactly when it lies in the last day; unparsable dates never are. */
  lemma RecentConsumptionMembers(data: seq<Consumption>, now: int, c: Consumption)
    ensures c in RecentConsumption(data, now) <==> c in data && c.consumedAt.Some? && c.consumedAt.value >= now - DayMs
  {
  }

  /** The window includes its boundary: a record exactly one day old is counted. */
  lemma RecentConsumptionBoundary(data: seq<Consumption>, now: int, c: Consumption)
    requires c in data && c.consumedAt == Some(now - 86400000)
    ensures c in RecentConsumption(data, now)
  {
  }

  /** The recent records keep their order: the filter works piecewise over any split. */
  lemma RecentConsumptionAppend(a: seq<Consumption>, b: seq<Consumption>, now: int)
    ensures RecentConsumption(a + b, now) == RecentConsumption(a, now) + RecentConsumption(b, now)
  {
    FilterAppend(a, b, (c: Consumption) => InLastDay(c, now));
  }

  /** All records are counted exactly when all lie in the last day. */
  lemma CallsCountAll(data: seq<Consumption>, now: int)
    ensures |RecentConsumption(data, now)| == |data| <==> forall i :: 0 <= i < |data| ==> InLastDay(data[i], now)
  {
    FilterCountAll(data, (c: Consumption) => InLastDay(c, now));
  }

  /** Moving the clock forward never adds records to the window. */
  lemma {:induction false} RecentConsumptionShrinks(data: seq<Consumption>, now: int, later: int)
    requires now <= later
    ensures |RecentConsumption(data, later)| <= |RecentConsumption(data, now)|
    decreases |data|
  {
    if data != [] {
      assert data == [data[0]] + data[1..];
      RecentConsumptionAppend([data[0]], data[1..], now);
      RecentConsumptionAppend([data[0]], data[1..], later);
      assert [data[0]][1..] == [];
      RecentConsumptionShrinks(data[1..], now, later);
    }
  }

  // The availability rates.

  /** A rate card's value: `'0'`, or the ratio that `toFixed(1)` renders as a percentage. */
  datatype Rate = Zero | Percent(part: int, whole: int)

  /** `stats && stats.totalAccounts > 0 ? … : '0'`. */
  function AccountAvailabilityRate(stats: Option<ComputedStats>): (r: Rate)
    ensures r == Zero <==> stats.None? || stats.value.totalAccounts <= 0
    ensures r.Percent? ==> r.part == stats.value.activeAccounts && r.whole == stats.value.totalAccounts > 0
  {
    if stats.Some? && stats.value.totalAccounts > 0
    then Percent(stats.value.activeAccounts, stats.value.totalAccounts)
    else Zero
  }

  /** `stats && stats.totalModels > 0 ? … : '0'`. */
  function ModelAvailabilityRate(stats: Option<ComputedStats>): (r: Rate)
    ensures r == Zero <==> stats.None? || stats.value.totalModels == 0
    ensures r.Percent? ==> r.part == stats.value.availableModels && r.whole == stats.value.totalModels > 0
  {
    if stats.Some? && stats.value.totalModels > 0
    then Percent(stats.value.availableModels, stats.value.totalModels)
    else Zero
  }

  /** The model rate of computed statistics is a share between 0 and 100 percent. */
  lemma ModelRateAtMostWhole(pool: PoolStats, data: seq<Consumption>, now: int)
    ensures var r := ModelAvailabilityRate(Some(ComputeStats(pool, data, now)));
      r.Percent? ==> 0 <= r.part <= r.whole
  {
  }

  /** The model rate is zero exactly when the pool lists no model. */
  lemma ModelRateZeroIff(pool: PoolStats, data: seq<Consumption>, now: int)
    ensures ModelAvailabilityRate(Some(ComputeStats(pool, data, now))) == Zero <==> pool.quotasByModel == []
  {
  }
}
