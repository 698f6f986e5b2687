/** The live account table (`get_account_table_live`): one row per
    (practice, territory) group of the period, each charged its own
    collection estimate or its territory's fallback rate, with COGS and
    sales expense allocated by sample count, and a totals row. */
module AccountTable {
  import opened Base
  import opened Calendar
  import opened Dict
  import opened Estimator
  import opened Territory
  import opened Period

  /** The first `collectors` row whose practice matches: its `collector`
      flag and its `june_amount`; no row reads as `NoCollector`. */
  datatype Collector = Collector(isCollector: bool, cost: real)

  const NoCollector := Collector(false, 0.0)

  /** The queries the endpoint runs, as inputs: the billing ledger, the
      grouped rows and the per-territory sample counts of a date window,
      the `Expense` and `COGS` rows of the month the period starts in, the
      collector cost per territory, and the collector lookup per practice. */
  datatype Sources = Sources(
    ledger: Ledger,
    groupsIn: Window -> seq<PracticeGroup>,
    samplesIn: Window -> seq<(string, nat)>,
    expenseRows: Month -> seq<(string, real)>,
    cogsRows: Month -> seq<(string, real)>,
    collectorCostRows: seq<(string, real)>,
    collectorOf: string -> Collector)

  /** The per-territory dictionaries built from those rows. */
  datatype Context = Context(
    expenses: Dict<real>,
    cogs: Dict<real>,
    samples: Dict<nat>,
    collectorCosts: Dict<real>,
    collectorOf: string -> Collector)

  /** What a row needs to know about its territory. */
  datatype TerritoryFigures = TerritoryFigures(
    fallbackRate: real, cogs: real, samples: nat, expenses: real, baselineEps: real)

  /** One entry of `accounts`, before rounding; `rate` is the collection
      rate behind the `collection_pct` text. */
  datatype AccountRow = AccountRow(
    practice: string, territory: string, placed: real, revenue: real, cogs: real,
    profit: real, salesExpense: real, netIncome: real, ros: real, rate: real,
    revenuePeriods: nat, rps: real, bps: real, gpps: real, eps: real, nips: real,
    collector: bool, collectorCost: real, sampleCount: nat)

  /** The `totals` entry, before rounding. */
  datatype TotalsRow = TotalsRow(
    placed: real, revenue: real, cogs: real, profit: real, salesExpense: real,
    netIncome: real, ros: real, collectionPct: real, rps: real, bps: real,
    gpps: real, eps: real, nips: real, collectorCost: real, sampleCount: nat)

  datatype Table = Table(accounts: seq<AccountRow>, totals: TotalsRow, window: Window)

  /** `x` is `total` spread over `n` samples: `x * n == total`, and 0 when
      there are no samples. */
  predicate PerSample(x: real, total: real, n: int)
  {
    if n > 0 then x * n as real == total else x == 0.0
  }

  /** `total / n if n > 0 else 0`. */
  function Per(total: real, n: int): (r: real)
    ensures PerSample(r, total, n)
  {
    if n > 0 then total / n as real else 0.0
  }

  /** `x` is `part` as a percentage of `whole`, and 0 unless `whole > 0`. */
  predicate IsPercent(x: real, part: real, whole: real)
  {
    if whole > 0.0 then x * whole == part * 100.0 else x == 0.0
  }

  /** `part / whole * 100 if whole > 0 else 0`. */
  function Percent(part: real, whole: real): (r: real)
    ensures IsPercent(r, part, whole)
  {
    if whole > 0.0 then part / whole * 100.0 else 0.0
  }

  /** `x` is the share of a territory amount `total` that `n` of its
      `territorySamples` samples carry: `x * territorySamples == total * n`,
      and 0 when the territory has no samples. */
  predicate IsAllocation(x: real, total: real, territorySamples: nat, n: nat)
  {
    if territorySamples > 0 then x * territorySamples as real == total * n as real else x == 0.0
  }

  /** `total / territory_samples * sample_count`, 0 without territory samples. */
  function Allocate(total: real, territorySamples: nat, n: nat): (r: real)
    ensures IsAllocation(r, total, territorySamples, n)
  {
    var share := Per(total, territorySamples);
    if territorySamples > 0 then
      assert share * territorySamples as real == total;
      assert (share * n as real) * territorySamples as real == (share * territorySamples as real) * n as real;
      share * n as real
    else share * n as real
  }

  /** `not period_type` (missing or empty) means `month`; any other value
      is passed on as given. */
  function PeriodToken(arg: Option<string>): (r: string)
    ensures |r| > 0
    ensures arg.Some? && |arg.value| > 0 ==> r == arg.value
    ensures arg.None? || |arg.value| == 0 ==> r == "month"
  {
    if arg.None? || arg.value == "" then "month" else arg.value
  }

  /** Every practice's estimate, in row order; the first failing call
      aborts the request. The estimator is a parameter so that this pass
      is stated independently of how one estimate is computed. */
  function EstimateAll(estimate: string -> Result<Estimate>, groups: seq<PracticeGroup>): (r: Result<seq<Estimate>>)
    ensures r.Ok? <==> forall i :: 0 <= i < |groups| ==> estimate(groups[i].practice).Ok?
    ensures r.Ok? ==> |r.value| == |groups|
    ensures r.Ok? ==> forall i :: 0 <= i < |groups| ==> r.value[i] == estimate(groups[i].practice).value
  {
    if |groups| == 0 then Ok([])
    else
      match estimate(groups[0].practice)
      case Err(e) => Err(e)
      case Ok(est) =>
        match EstimateAll(estimate, groups[1..])
        case Err(e) =>
          assert forall i :: 1 <= i < |groups| ==> groups[1..][i - 1] == groups[i];
          Err(e)
        case Ok(rest) =>
          assert forall i :: 1 <= i < |groups| ==> groups[1..][i - 1] == groups[i];
          Ok([est] + rest)
  }

  /** The estimator of one request: `calculate_average_collection_pct`
      against the period's start. */
  function EstimatorAt(ledger: Ledger, start: Date): string -> Result<Estimate>
    requires ValidDate(start)
  {
    p => CollectionEstimate(ledger, p, start)
  }

  /** The dictionaries of one request: each has distinct keys, exactly the
      territories its query rows name. */
  function ContextOf(w: Window, src: Sources): (ctx: Context)
    ensures var mo := Month(w.start.year, w.start.month);
      && DistinctKeys(ctx.expenses) && Keys(ctx.expenses) == RowKeys(src.expenseRows(mo))
      && DistinctKeys(ctx.cogs) && Keys(ctx.cogs) == RowKeys(src.cogsRows(mo))
      && DistinctKeys(ctx.samples) && Keys(ctx.samples) == RowKeys(src.samplesIn(w))
      && DistinctKeys(ctx.collectorCosts) && Keys(ctx.collectorCosts) == RowKeys(src.collectorCostRows)
      && ctx.collectorOf == src.collectorOf
  {
    var mo := Month(w.start.year, w.start.month);
    Context(FromRows(src.expenseRows(mo)), FromRows(src.cogsRows(mo)), FromRows(src.samplesIn(w)),
            FromRows(src.collectorCostRows), src.collectorOf)
  }

  /** The figures of territory `t`, each looked up with the code's default
      (0.9 for the rate, 0 for the rest) when the territory has no entry;
      `rates` is `avg_territory_collection_pct`. The baseline EPS times the
      territory's samples is its expenses less its collector costs. */
  function FiguresOf(rates: Dict<real>, ctx: Context, t: string): (r: TerritoryFigures)
    ensures t !in Keys(rates) ==> r.fallbackRate == NoEstimateRate
    ensures t !in Keys(ctx.cogs) ==> r.cogs == 0.0
    ensures t !in Keys(ctx.samples) ==> r.samples == 0
    ensures t !in Keys(ctx.expenses) ==> r.expenses == 0.0 && r.baselineEps == 0.0
    ensures t in Keys(ctx.expenses) && r.samples > 0 ==>
      r.baselineEps * r.samples as real == r.expenses - Get(ctx.collectorCosts, t, 0.0)
    ensures r.samples == 0 ==> r.baselineEps == 0.0
  {
    BaselineEpsInverse(ctx.expenses, ctx.collectorCosts, ctx.samples, t);
    GetOrDefault(rates, t, NoEstimateRate);
    GetOrDefault(ctx.cogs, t, 0.0);
    GetOrDefault(ctx.samples, t, 0);
    GetOrDefault(ctx.expenses, t, 0.0);
    TerritoryFigures(
      Get(rates, t, NoEstimateRate),
      Get(ctx.cogs, t, 0.0),
      Get(ctx.samples, t, 0),
      Get(ctx.expenses, t, 0.0),
      Get(BaselineEps(ctx.expenses, ctx.collectorCosts, ctx.samples), t, 0.0))
  }

  /** One row of the second pass. */
  function ComposeRow(g: PracticeGroup, est: Estimate, fig: TerritoryFigures, c: Collector): (r: AccountRow)
    ensures r.practice == g.practice && r.territory == g.territory && r.placed == g.placed
    ensures r.sampleCount == g.sampleCount && r.collector == c.isCollector && r.collectorCost == c.cost
    ensures est.rate.Some? ==> r.rate == est.rate.value && r.revenuePeriods == est.periodsUsed
    ensures est.rate.None? ==> r.rate == fig.fallbackRate && r.revenuePeriods == 0
    ensures r.revenue == g.placed * r.rate
    ensures IsAllocation(r.cogs, fig.cogs, fig.samples, g.sampleCount)
    ensures IsAllocation(r.salesExpense, fig.expenses, fig.samples, g.sampleCount)
    ensures r.profit == r.revenue - r.cogs
    ensures r.netIncome == r.revenue - r.cogs - r.salesExpense
    ensures PerSample(r.rps, r.revenue, g.sampleCount)
    ensures PerSample(r.bps, g.placed, g.sampleCount)
    ensures PerSample(r.gpps, r.profit, g.sampleCount)
    ensures PerSample(r.nips, r.netIncome, g.sampleCount)
    ensures c.isCollector ==> PerSample(r.eps - fig.baselineEps, c.cost, g.sampleCount)
    ensures !c.isCollector ==> r.eps == fig.baselineEps
    ensures IsPercent(r.ros, r.netIncome, r.salesExpense)
  {
    var n := g.sampleCount;
    var rate := if est.rate.Some? then est.rate.value else fig.fallbackRate;
    var periods := if est.rate.Some? then est.periodsUsed else 0;
    var revenue := g.placed * rate;
    var cogs := Allocate(fig.cogs, fig.samples, n);
    var salesExpense := Allocate(fig.expenses, fig.samples, n);
    var profit := revenue - cogs;
    var netIncome := revenue - cogs - salesExpense;
    var collectorPerSample := if c.isCollector then Per(c.cost, n) else 0.0;
    AccountRow(
      g.practice, g.territory, g.placed, revenue, cogs, profit, salesExpense, netIncome,
      Percent(netIncome, salesExpense), rate, periods,
      Per(revenue, n), Per(g.placed, n), Per(profit, n), fig.baselineEps + collectorPerSample,
      Per(netIncome, n), c.isCollector, c.cost, n)
  }

  /** `r` is the row of group `g` with estimate `est`: the group's own
      practice, territory, placed amount and samples; its own rate and
      periods when it has an estimate, else its territory's entry of
      `rates` (0.9 when absent) and no periods; revenue is placed times
      rate; COGS and sales expense are its sample share of its territory's
      entries; net income is what remains of the revenue. */
  predicate RowFor(r: AccountRow, g: PracticeGroup, est: Estimate, rates: Dict<real>, ctx: Context)
  {
    var t, ts := g.territory, Get(ctx.samples, g.territory, 0);
    && r.practice == g.practice && r.territory == t
    && r.placed == g.placed && r.sampleCount == g.sampleCount
    && (est.rate.Some? ==> r.rate == est.rate.value && r.revenuePeriods == est.periodsUsed)
    && (est.rate.None? ==> r.rate == Get(rates, t, NoEstimateRate) && r.revenuePeriods == 0)
    && r.revenue == g.placed * r.rate
    && IsAllocation(r.cogs, Get(ctx.cogs, t, 0.0), ts, g.sampleCount)
    && IsAllocation(r.salesExpense, Get(ctx.expenses, t, 0.0), ts, g.sampleCount)
    && r.netIncome == r.revenue - r.cogs - r.salesExpense
  }

  /** The second pass over the grouped rows: one row per group, in order. */
  function Rows(groups: seq<PracticeGroup>, ests: seq<Estimate>, rates: Dict<real>, ctx: Context): (rows: seq<AccountRow>)
    requires |ests| == |groups|
    ensures |rows| == |groups|
    ensures forall i :: 0 <= i < |groups| ==> RowFor(rows[i], groups[i], ests[i], rates, ctx)
    ensures forall i :: 0 <= i < |groups| ==>
      rows[i] == ComposeRow(groups[i], ests[i], FiguresOf(rates, ctx, groups[i].territory),
                            ctx.collectorOf(groups[i].practice))
  {
    seq(|groups|, i requires 0 <= i < |groups| =>
      ComposeRow(groups[i], ests[i], FiguresOf(rates, ctx, groups[i].territory),
                 ctx.collectorOf(groups[i].practice)))
  }

  function Revenue(r: AccountRow): real { r.revenue }
  function Cogs(r: AccountRow): real { r.cogs }
  function Profit(r: AccountRow): real { r.profit }
  function SalesExpense(r: AccountRow): real { r.salesExpense }
  function NetIncome(r: AccountRow): real { r.netIncome }
  function Placed(r: AccountRow): real { r.placed }
  function CollectorCost(r: AccountRow): real { r.collectorCost }

  /** One column of the table. */
  function Column(rows: seq<AccountRow>, f: AccountRow -> real): (c: seq<real>)
    ensures |c| == |rows|
    ensures forall i :: 0 <= i < |rows| ==> c[i] == f(rows[i])
  {
    seq(|rows|, i requires 0 <= i < |rows| => f(rows[i]))
  }

  /** `total_samples`, the sum of the rows' sample counts. */
  function SampleTotal(rows: seq<AccountRow>): nat
  {
    if |rows| == 0 then 0 else rows[0].sampleCount + SampleTotal(rows[1..])
  }

  /** The totals row: sums of the row columns, the net income recomputed
      from the summed revenue, COGS and sales expense, the averages per
      sample (0 without samples), the baseline EPS over all expenses less
      all collector costs, the average collector cost per row, and the
      collection percentage of the accumulated territory actuals. */
  function Totals(rows: seq<AccountRow>, actuals: Dict<Actuals>, ctx: Context): (t: TotalsRow)
    ensures t.placed == Sum(Column(rows, Placed)) && t.revenue == Sum(Column(rows, Revenue))
    ensures t.cogs == Sum(Column(rows, Cogs)) && t.profit == Sum(Column(rows, Profit))
    ensures t.salesExpense == Sum(Column(rows, SalesExpense)) && t.sampleCount == SampleTotal(rows)
    ensures t.netIncome == t.revenue - t.cogs - t.salesExpense
    ensures IsPercent(t.ros, t.netIncome, t.salesExpense)
    ensures IsPercent(t.collectionPct, SumOf(actuals, ActualRevenue), SumOf(actuals, ActualPlaced))
    ensures PerSample(t.rps, t.revenue, t.sampleCount)
    ensures PerSample(t.bps, t.placed, t.sampleCount)
    ensures PerSample(t.gpps, t.profit, t.sampleCount)
    ensures PerSample(t.nips, t.netIncome, t.sampleCount)
    ensures PerSample(t.eps, Total(ctx.expenses) - Total(ctx.collectorCosts), t.sampleCount)
    ensures PerSample(t.collectorCost, Sum(Column(rows, CollectorCost)), |rows|)
  {
    var samples := SampleTotal(rows);
    var revenue := Sum(Column(rows, Revenue));
    var cogs := Sum(Column(rows, Cogs));
    var profit := Sum(Column(rows, Profit));
    var salesExpense := Sum(Column(rows, SalesExpense));
    var placed := Sum(Column(rows, Placed));
    var netIncome := revenue - cogs - salesExpense;
    TotalsRow(
      placed, revenue, cogs, profit, salesExpense, netIncome,
      Percent(netIncome, salesExpense),
      Percent(SumOf(actuals, ActualRevenue), SumOf(actuals, ActualPlaced)),
      Per(revenue, samples), Per(placed, samples), Per(profit, samples),
      Per(Total(ctx.expenses) - Total(ctx.collectorCosts), samples),
      Per(netIncome, samples),
      Per(Sum(Column(rows, CollectorCost)), |rows|),
      samples)
  }

  /** The table for a window once every estimate is known: one row per
      group, in order, each a row of its own group; the window it covers. */
  function BuildTable(w: Window, groups: seq<PracticeGroup>, ests: seq<Estimate>, src: Sources): (t: Table)
    requires |ests| == |groups|
    ensures t.window == w && |t.accounts| == |groups|
    ensures forall i :: 0 <= i < |groups| ==>
      RowFor(t.accounts[i], groups[i], ests[i], TerritoryRates(AccumulateActuals(groups, ests)), ContextOf(w, src))
  {
    var ctx := ContextOf(w, src);
    var actuals := AccumulateActuals(groups, ests);
    var rows := Rows(groups, ests, TerritoryRates(actuals), ctx);
    Table(rows, Totals(rows, actuals, ctx), w)
  }

  /** `get_account_table_live`: resolve the period, estimate every
      practice, build the rows and the totals. It fails exactly when some
      practice's estimate raises. */
  function AccountTableLive(periodArg: Option<string>, today: Date, src: Sources): (r: Result<Table>)
    requires ValidDate(today)
    ensures var w := Resolve(PeriodToken(periodArg), today);
      && (r.Ok? <==> forall i :: 0 <= i < |src.groupsIn(w)| ==>
                       CollectionEstimate(src.ledger, src.groupsIn(w)[i].practice, w.start).Ok?)
      && (r.Ok? ==> r.value.window == w && |r.value.accounts| == |src.groupsIn(w)|)
  {
    var w := Resolve(PeriodToken(periodArg), today);
    var groups := src.groupsIn(w);
    match EstimateAll(EstimatorAt(src.ledger, w.start), groups)
    case Err(e) => Err(e)
    case Ok(ests) => Ok(BuildTable(w, groups, ests, src))
  }

  /** The rows' own identities carry over to the totals: the totals' profit
      is its revenue less its COGS, and the net income recomputed from the
      summed columns equals the sum of the rows' net incomes, the
      `total_net_income` the loop also accumulates. */
  lemma {:induction false} TotalsAgreeWithRows(rows: seq<AccountRow>, actuals: Dict<Actuals>, ctx: Context)
    requires forall i :: 0 <= i < |rows| ==> rows[i].profit == rows[i].revenue - rows[i].cogs
    requires forall i :: 0 <= i < |rows| ==> rows[i].netIncome == rows[i].profit - rows[i].salesExpense
    ensures Totals(rows, actuals, ctx).profit == Totals(rows, actuals, ctx).revenue - Totals(rows, actuals, ctx).cogs
    ensures Totals(rows, actuals, ctx).netIncome == Sum(Column(rows, NetIncome))
  {
    SumDifference(Column(rows, Revenue), Column(rows, Cogs), Column(rows, Profit));
    SumDifference(Column(rows, Profit), Column(rows, SalesExpense), Column(rows, NetIncome));
  }

  /** The built table: totals consistent with its rows, and a total
      collection percentage that is the placed-weighted rate of exactly the
      practices with their own estimate. */
  lemma BuildTableTotals(w: Window, groups: seq<PracticeGroup>, ests: seq<Estimate>, src: Sources)
    requires |ests| == |groups|
    ensures var t := BuildTable(w, groups, ests, src);
      && t.totals.profit == t.totals.revenue - t.totals.cogs
      && t.totals.netIncome == Sum(Column(t.accounts, NetIncome))
      && IsPercent(t.totals.collectionPct, OwnRevenue(groups, ests), OwnPlaced(groups, ests))
  {
    var ctx := ContextOf(w, src);
    var actuals := AccumulateActuals(groups, ests);
    var rows := Rows(groups, ests, TerritoryRates(actuals), ctx);
    TotalsAgreeWithRows(rows, actuals, ctx);
    AccumulateActualsTotals(groups, ests);
  }

  /** Σ `f` over the rows of territory `t`. */
  function TerritorySum(rows: seq<AccountRow>, t: string, f: AccountRow -> real): real
  {
    if |rows| == 0 then 0.0
    else (if rows[0].territory == t then f(rows[0]) else 0.0) + TerritorySum(rows[1..], t, f)
  }

  /** Σ sample counts over the rows of territory `t`. */
  function TerritorySamples(rows: seq<AccountRow>, t: string): nat
  {
    if |rows| == 0 then 0
    else (if rows[0].territory == t then rows[0].sampleCount else 0) + TerritorySamples(rows[1..], t)
  }

  /** Shares allocated by sample count add up: the allocated amounts of a
      territory's rows, times its sample count, are its total times the
      samples those rows carry. */
  lemma {:induction false} AllocationsAddUp(rows: seq<AccountRow>, t: string, f: AccountRow -> real, total: real, ts: nat)
    requires ts > 0
    requires forall i :: 0 <= i < |rows| && rows[i].territory == t ==>
      IsAllocation(f(rows[i]), total, ts, rows[i].sampleCount)
    ensures TerritorySum(rows, t, f) * ts as real == total * TerritorySamples(rows, t) as real
  {
    if |rows| > 0 {
      var rest := rows[1..];
      forall i | 0 <= i < |rest| && rest[i].territory == t
        ensures IsAllocation(f(rest[i]), total, ts, rest[i].sampleCount)
      {
        assert rest[i] == rows[i + 1];
      }
      AllocationsAddUp(rest, t, f, total, ts);
      AllocationStep(rows, t, f, total, ts);
    }
  }

  /** The inductive step of `AllocationsAddUp`, for the first row. */
  lemma AllocationStep(rows: seq<AccountRow>, t: string, f: AccountRow -> real, total: real, ts: nat)
    requires ts > 0 && |rows| > 0
    requires rows[0].territory == t ==> IsAllocation(f(rows[0]), total, ts, rows[0].sampleCount)
    requires TerritorySum(rows[1..], t, f) * ts as real == total * TerritorySamples(rows[1..], t) as real
    ensures TerritorySum(rows, t, f) * ts as real == total * TerritorySamples(rows, t) as real
  {
    var rest := rows[1..];
    var s, m := TerritorySum(rest, t, f), TerritorySamples(rest, t);
    if rows[0].territory == t {
      assert TerritorySum(rows, t, f) == f(rows[0]) + s;
      assert TerritorySamples(rows, t) == rows[0].sampleCount + m;
      AddAllocations(f(rows[0]), s, total, ts, rows[0].sampleCount, m, TerritorySum(rows, t, f), TerritorySamples(rows, t));
    } else {
      assert TerritorySum(rows, t, f) == s && TerritorySamples(rows, t) == m;
    }
  }

  lemma AddAllocations(x: real, s: real, total: real, ts: nat, n: nat, m: nat, sum: real, samples: nat)
    requires ts > 0 && IsAllocation(x, total, ts, n)
    requires s * ts as real == total * m as real
    requires sum == x + s && samples == n + m
    ensures sum * ts as real == total * samples as real
  {
    assert x * ts as real == total * n as real;
    assert sum * ts as real == x * ts as real + s * ts as real;
    assert total * samples as real == total * n as real + total * m as real;
  }

  /** When the territory's sample count equals the samples of its rows, the
      rows' COGS and sales expense add up to exactly the territory's COGS
      and expense entries. The code counts territory samples without
      DISTINCT and row samples with it, so the two differ when an account
      has several samples in the window. */
  lemma AllocationConserved(w: Window, groups: seq<PracticeGroup>, ests: seq<Estimate>, src: Sources, t: string)
    requires |ests| == |groups|
    requires var ctx := ContextOf(w, src);
      && Get(ctx.samples, t, 0) > 0
      && TerritorySamples(BuildTable(w, groups, ests, src).accounts, t) == Get(ctx.samples, t, 0)
    ensures var ctx := ContextOf(w, src);
      && TerritorySum(BuildTable(w, groups, ests, src).accounts, t, Cogs) == Get(ctx.cogs, t, 0.0)
      && TerritorySum(BuildTable(w, groups, ests, src).accounts, t, SalesExpense) == Get(ctx.expenses, t, 0.0)
  {
    var ctx := ContextOf(w, src);
    var rates := TerritoryRates(AccumulateActuals(groups, ests));
    var rows := Rows(groups, ests, rates, ctx);
    assert BuildTable(w, groups, ests, src).accounts == rows;
    var ts := Get(ctx.samples, t, 0);
    forall i | 0 <= i < |rows| && rows[i].territory == t
      ensures IsAllocation(Cogs(rows[i]), Get(ctx.cogs, t, 0.0), ts, rows[i].sampleCount)
      ensures IsAllocation(SalesExpense(rows[i]), Get(ctx.expenses, t, 0.0), ts, rows[i].sampleCount)
    {
      assert RowFor(rows[i], groups[i], ests[i], rates, ctx);
    }
    ConservedShares(rows, t, Cogs, Get(ctx.cogs, t, 0.0), ts);
    ConservedShares(rows, t, SalesExpense, Get(ctx.expenses, t, 0.0), ts);
  }

  /** In the built table a practice without its own estimate is charged its
      territory's placed-weighted rate: 0.9 when the territory has no
      estimated practice, 0.6 when those placed nothing. */
  lemma TableFallbackRate(w: Window, groups: seq<PracticeGroup>, ests: seq<Estimate>, src: Sources, i: int)
    requires |ests| == |groups| && 0 <= i < |groups| && ests[i].rate.None?
    ensures var r := BuildTable(w, groups, ests, src).accounts[i];
      && r.revenuePeriods == 0
      && r.rate == FallbackRate(groups, ests, groups[i].territory)
  {
    var ctx := ContextOf(w, src);
    var rates := TerritoryRates(AccumulateActuals(groups, ests));
    assert RowFor(BuildTable(w, groups, ests, src).accounts[i], groups[i], ests[i], rates, ctx);
  }

  /** Shares of `total` whose sample counts add up to `ts` add up to `total`. */
  lemma ConservedShares(rows: seq<AccountRow>, t: string, f: AccountRow -> real, total: real, ts: nat)
    requires ts > 0 && TerritorySamples(rows, t) == ts
    requires forall i :: 0 <= i < |rows| && rows[i].territory == t ==>
      IsAllocation(f(rows[i]), total, ts, rows[i].sampleCount)
    ensures TerritorySum(rows, t, f) == total
  {
    AllocationsAddUp(rows, t, f, total, ts);
    CancelSamples(TerritorySum(rows, t, f), total, ts);
  }

  lemma CancelSamples(x: real, total: real, ts: nat)
    requires ts > 0 && x * ts as real == total * ts as real
    ensures x == total
  {
  }

  /** Without a `period_type` (or with an empty one) the table covers the
      current month to date. */
  lemma DefaultPeriodIsMonthToDate(periodArg: Option<string>, today: Date, src: Sources)
    requires ValidDate(today)
    requires periodArg.None? || periodArg.value == ""
    ensures AccountTableLive(periodArg, today, src).Ok? ==>
      AccountTableLive(periodArg, today, src).value.window == MonthToDate(today)
  {
    ResolveLegacyTokensFallBack(today);
  }
}
