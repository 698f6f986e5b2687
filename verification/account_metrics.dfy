/** The account-metrics counters (`get_account_metrics`): for the practices
    of a period, optionally of one territory, how many have no estimate of
    their own ("new"), how many end the period with a positive net income
    and how many do not, and the summed net income and sales expense. */
module AccountMetrics {
  import opened Base
  import opened Calendar
  import opened Dict
  import opened Estimator
  import opened Territory
  import opened Period
  import opened AccountTable

  /** The rate this endpoint charges a practice without its own estimate,
      whatever its territory. */
  const FlatFallbackRate: real := 0.6

  /** The endpoint's answer, before conversion to floats. */
  datatype Metrics = Metrics(
    newAccounts: nat, totalAccounts: nat, positiveAccounts: nat, negativeAccounts: nat,
    totalNetIncome: real, totalSalesExpense: real)

  /** What one iteration of the loop computes for a practice. */
  datatype PracticeResult = PracticeResult(
    revenue: real, cogs: real, salesExpense: real, netIncome: real, isNew: bool)

  /** `request.args.get('territory', 'all')`: a missing argument selects
      every territory; a given one, even empty, is used as it is. */
  function TerritoryArg(arg: Option<string>): (r: string)
    ensures arg.None? ==> r == "all"
    ensures arg.Some? ==> r == arg.value
  {
    if arg.None? then "all" else arg.value
  }

  /** The groups of territory `t`, in query order: every such group as
      often as the query returns it, and no other. */
  function OfTerritory(groups: seq<PracticeGroup>, t: string): (r: seq<PracticeGroup>)
    ensures |r| <= |groups|
    ensures forall g :: g in r <==> g in groups && g.territory == t
    ensures forall g :: multiset(r)[g] == if g.territory == t then multiset(groups)[g] else 0
  {
    if |groups| == 0 then []
    else
      assert groups == [groups[0]] + groups[1..];
      (if groups[0].territory == t then [groups[0]] else []) + OfTerritory(groups[1..], t)
  }

  /** The practice query: every group for `all`, else the extra
      `ad.territory = %s` condition. */
  function Selected(groups: seq<PracticeGroup>, territory: string): (r: seq<PracticeGroup>)
    ensures territory == "all" ==> r == groups
    ensures territory != "all" ==> forall g :: g in r <==> g in groups && g.territory == territory
    ensures territory != "all" ==>
      forall g :: multiset(r)[g] == if g.territory == territory then multiset(groups)[g] else 0
  {
    if territory == "all" then groups else OfTerritory(groups, territory)
  }

  /** One iteration: the own rate or the flat 0.6, COGS and sales expense
      allocated as in the account table, net income as profit less sales
      expense. */
  function PracticeFigures(g: PracticeGroup, est: Estimate, ctx: Context): (r: PracticeResult)
    ensures r.isNew <==> est.rate.None?
    ensures est.rate.Some? ==> r.revenue == Earned(g, est)
    ensures est.rate.None? ==> r.revenue == g.placed * FlatFallbackRate
    ensures IsAllocation(r.cogs, Get(ctx.cogs, g.territory, 0.0), Get(ctx.samples, g.territory, 0), g.sampleCount)
    ensures IsAllocation(r.salesExpense, Get(ctx.expenses, g.territory, 0.0), Get(ctx.samples, g.territory, 0), g.sampleCount)
    ensures r.netIncome + r.cogs + r.salesExpense == r.revenue
  {
    var rate := if est.rate.Some? then est.rate.value else FlatFallbackRate;
    var revenue := g.placed * rate;
    var ts := Get(ctx.samples, g.territory, 0);
    var cogs := Allocate(Get(ctx.cogs, g.territory, 0.0), ts, g.sampleCount);
    var salesExpense := Allocate(Get(ctx.expenses, g.territory, 0.0), ts, g.sampleCount);
    PracticeResult(revenue, cogs, salesExpense, (revenue - cogs) - salesExpense, est.rate.None?)
  }

  /** `r` is what the loop computes for group `g` with estimate `est`: new
      exactly without an own rate; revenue earned at the own rate, or at
      the flat 0.6; COGS and sales expense its sample share of its
      territory's entries; net income what remains of the revenue. */
  predicate ResultFor(r: PracticeResult, g: PracticeGroup, est: Estimate, ctx: Context)
  {
    var ts := Get(ctx.samples, g.territory, 0);
    && (r.isNew <==> est.rate.None?)
    && (est.rate.Some? ==> r.revenue == Earned(g, est))
    && (est.rate.None? ==> r.revenue == g.placed * FlatFallbackRate)
    && IsAllocation(r.cogs, Get(ctx.cogs, g.territory, 0.0), ts, g.sampleCount)
    && IsAllocation(r.salesExpense, Get(ctx.expenses, g.territory, 0.0), ts, g.sampleCount)
    && r.netIncome + r.cogs + r.salesExpense == r.revenue
  }

  /** Every practice's figures, in query order. */
  function Results(groups: seq<PracticeGroup>, ests: seq<Estimate>, ctx: Context): (rs: seq<PracticeResult>)
    requires |ests| == |groups|
    ensures |rs| == |groups|
    ensures forall i :: 0 <= i < |groups| ==> ResultFor(rs[i], groups[i], ests[i], ctx)
    ensures forall i :: 0 <= i < |groups| ==> rs[i] == PracticeFigures(groups[i], ests[i], ctx)
  {
    seq(|groups|, i requires 0 <= i < |groups| => PracticeFigures(groups[i], ests[i], ctx))
  }

  predicate IsNew(r: PracticeResult) { r.isNew }
  /** `net_income > 0`. */
  predicate IsPositive(r: PracticeResult) { r.netIncome > 0.0 }
  /** The `else` branch: a break-even practice counts as negative. */
  predicate IsNotPositive(r: PracticeResult) { r.netIncome <= 0.0 }

  /** How many results satisfy `p`. */
  function CountWhere(rs: seq<PracticeResult>, p: PracticeResult -> bool): nat
  {
    if |rs| == 0 then 0
    else CountWhere(rs[..|rs| - 1], p) + (if p(rs[|rs| - 1]) then 1 else 0)
  }

  function NetIncomes(rs: seq<PracticeResult>): (c: seq<real>)
    ensures |c| == |rs| && forall i :: 0 <= i < |rs| ==> c[i] == rs[i].netIncome
  {
    seq(|rs|, i requires 0 <= i < |rs| => rs[i].netIncome)
  }

  function SalesExpenses(rs: seq<PracticeResult>): (c: seq<real>)
    ensures |c| == |rs| && forall i :: 0 <= i < |rs| ==> c[i] == rs[i].salesExpense
  {
    seq(|rs|, i requires 0 <= i < |rs| => rs[i].salesExpense)
  }

  /** The counters as a whole-sequence definition: every practice is
      counted once, as positive or as negative, and the new ones are all of
      them exactly when none has its own estimate. */
  function MetricsOf(rs: seq<PracticeResult>): (m: Metrics)
    ensures m.totalAccounts == |rs|
    ensures m.positiveAccounts + m.negativeAccounts == m.totalAccounts
    ensures m.newAccounts <= m.totalAccounts
    ensures m.newAccounts == m.totalAccounts <==> forall i :: 0 <= i < |rs| ==> rs[i].isNew
  {
    PositiveNegativePartition(rs);
    CountWhereBound(rs, IsNew);
    Metrics(CountWhere(rs, IsNew), |rs|, CountWhere(rs, IsPositive), CountWhere(rs, IsNotPositive),
            Sum(NetIncomes(rs)), Sum(SalesExpenses(rs)))
  }

  /** Every practice is counted as positive or as negative, never both. */
  lemma {:induction false} PositiveNegativePartition(rs: seq<PracticeResult>)
    ensures CountWhere(rs, IsPositive) + CountWhere(rs, IsNotPositive) == |rs|
  {
    if |rs| > 0 {
      PositiveNegativePartition(rs[..|rs| - 1]);
    }
  }

  /** At most every practice is new. */
  lemma {:induction false} CountWhereBound(rs: seq<PracticeResult>, p: PracticeResult -> bool)
    ensures CountWhere(rs, p) <= |rs|
    ensures CountWhere(rs, p) == |rs| <==> forall i :: 0 <= i < |rs| ==> p(rs[i])
  {
    if |rs| > 0 {
      var n := |rs| - 1;
      CountWhereBound(rs[..n], p);
      if forall i :: 0 <= i < n ==> p(rs[..n][i]) {
        assert forall i :: 0 <= i < n ==> p(rs[i]) by {
          forall i | 0 <= i < n ensures p(rs[i]) {
            assert rs[..n][i] == rs[i];
          }
        }
      } else {
        var i :| 0 <= i < n && !p(rs[..n][i]);
        assert rs[..n][i] == rs[i];
      }
    }
  }

  /** The loop of `get_account_metrics`: one pass over the practices,
      computing each one's figures and updating the five counters. */
  method Tally(groups: seq<PracticeGroup>, ests: seq<Estimate>, ctx: Context) returns (m: Metrics)
    requires |ests| == |groups|
    ensures m == MetricsOf(Results(groups, ests, ctx))
    ensures m.totalAccounts == |groups|
    ensures m.positiveAccounts + m.negativeAccounts == m.totalAccounts
    ensures m.newAccounts <= m.totalAccounts
  {
    ghost var rs := Results(groups, ests, ctx);
    var newAccounts, positive, negative := 0, 0, 0;
    var totalNetIncome, totalSalesExpense := 0.0, 0.0;
    var i := 0;
    while i < |groups|
      invariant 0 <= i <= |groups|
      invariant newAccounts == CountWhere(rs[..i], IsNew)
      invariant positive == CountWhere(rs[..i], IsPositive)
      invariant negative == CountWhere(rs[..i], IsNotPositive)
      invariant totalNetIncome == Sum(NetIncomes(rs[..i]))
      invariant totalSalesExpense == Sum(SalesExpenses(rs[..i]))
    {
      var r := PracticeFigures(groups[i], ests[i], ctx);
      PrefixStep(rs, i);
      if r.isNew {
        newAccounts := newAccounts + 1;
      }
      totalNetIncome := totalNetIncome + r.netIncome;
      totalSalesExpense := totalSalesExpense + r.salesExpense;
      if r.netIncome > 0.0 {
        positive := positive + 1;
      } else {
        negative := negative + 1;
      }
      i := i + 1;
    }
    assert rs[..i] == rs;
    PositiveNegativePartition(rs);
    CountWhereBound(rs, IsNew);
    m := Metrics(newAccounts, |groups|, positive, negative, totalNetIncome, totalSalesExpense);
  }

  /** Extending the prefix by one result updates every counter and sum by
      that result alone. */
  lemma PrefixStep(rs: seq<PracticeResult>, i: int)
    requires 0 <= i < |rs|
    ensures CountWhere(rs[..i + 1], IsNew) == CountWhere(rs[..i], IsNew) + (if rs[i].isNew then 1 else 0)
    ensures CountWhere(rs[..i + 1], IsPositive) == CountWhere(rs[..i], IsPositive) + (if rs[i].netIncome > 0.0 then 1 else 0)
    ensures CountWhere(rs[..i + 1], IsNotPositive) == CountWhere(rs[..i], IsNotPositive) + (if rs[i].netIncome > 0.0 then 0 else 1)
    ensures Sum(NetIncomes(rs[..i + 1])) == Sum(NetIncomes(rs[..i])) + rs[i].netIncome
    ensures Sum(SalesExpenses(rs[..i + 1])) == Sum(SalesExpenses(rs[..i])) + rs[i].salesExpense
  {
    assert rs[..i + 1][..i] == rs[..i];
    SumStep(NetIncomes(rs[..i]), NetIncomes(rs[..i + 1]), rs[i].netIncome);
    SumStep(SalesExpenses(rs[..i]), SalesExpenses(rs[..i + 1]), rs[i].salesExpense);
  }

  /** Appending one amount to a running sum adds it. */
  lemma SumStep(prefix: seq<real>, extended: seq<real>, x: real)
    requires extended == prefix + [x]
    ensures Sum(extended) == Sum(prefix) + x
  {
    SumAppend(prefix, [x]);
  }

  /** `get_account_metrics`: resolve the period, select the practices,
      estimate each one and count. It fails exactly when some selected
      practice's estimate raises. */
  function AccountMetricsLive(periodArg: Option<string>, territoryArg: Option<string>, today: Date, src: Sources): (r: Result<Metrics>)
    requires ValidDate(today)
    ensures var w := Resolve(PeriodToken(periodArg), today);
      var groups := Selected(src.groupsIn(w), TerritoryArg(territoryArg));
      && (r.Ok? <==> forall i :: 0 <= i < |groups| ==>
                       CollectionEstimate(src.ledger, groups[i].practice, w.start).Ok?)
      && (r.Ok? ==> r.value.totalAccounts == |groups|)
      && (r.Ok? ==> r.value.positiveAccounts + r.value.negativeAccounts == |groups|)
  {
    var w := Resolve(PeriodToken(periodArg), today);
    var groups := Selected(src.groupsIn(w), TerritoryArg(territoryArg));
    match EstimateAll(EstimatorAt(src.ledger, w.start), groups)
    case Err(e) => Err(e)
    case Ok(ests) =>
      var rs := Results(groups, ests, ContextOf(w, src));
      PositiveNegativePartition(rs);
      Ok(MetricsOf(rs))
  }

  /** The same practice on both endpoints: equal COGS and sales expense,
      new exactly when the table shows no revenue periods, and a net income
      that differs only for a practice without its own estimate, by its
      placed amount times the gap between 0.6 and the table's fallback rate. */
  lemma PracticeVersusRow(groups: seq<PracticeGroup>, ests: seq<Estimate>, rates: Dict<real>, ctx: Context, i: int)
    requires |ests| == |groups| && 0 <= i < |groups|
    requires ests[i].rate.Some? ==> ests[i].periodsUsed >= 1
    ensures var r := Results(groups, ests, ctx)[i];
      var row := Rows(groups, ests, rates, ctx)[i];
      && r.cogs == row.cogs && r.salesExpense == row.salesExpense
      && (r.isNew <==> row.revenuePeriods == 0)
      && r.netIncome == row.netIncome + RateGap(row)
  {
    var g := groups[i];
    var r := Results(groups, ests, ctx)[i];
    var row := Rows(groups, ests, rates, ctx)[i];
    assert RowFor(row, g, ests[i], rates, ctx);
    assert ResultFor(r, g, ests[i], ctx);
    ResultVersusRow(g, ests[i], r, row, rates, ctx);
  }

  /** The comparison for one practice, from what each side states. */
  lemma ResultVersusRow(g: PracticeGroup, est: Estimate, r: PracticeResult, row: AccountRow, rates: Dict<real>, ctx: Context)
    requires ResultFor(r, g, est, ctx) && RowFor(row, g, est, rates, ctx)
    requires est.rate.Some? ==> est.periodsUsed >= 1
    ensures r.cogs == row.cogs && r.salesExpense == row.salesExpense
    ensures r.isNew <==> row.revenuePeriods == 0
    ensures r.netIncome == row.netIncome + RateGap(row)
  {
    var ts := Get(ctx.samples, g.territory, 0);
    AllocationUnique(r.cogs, row.cogs, Get(ctx.cogs, g.territory, 0.0), ts, g.sampleCount);
    AllocationUnique(r.salesExpense, row.salesExpense, Get(ctx.expenses, g.territory, 0.0), ts, g.sampleCount);
    if est.rate.None? {
      FlatRateGap(g.placed, row.rate, r.revenue, row.revenue, r.cogs, r.salesExpense, r.netIncome, row.netIncome);
    }
  }

  /** The metrics' net income at the flat rate against the table's at
      `rate`, with equal COGS and sales expense. */
  lemma FlatRateGap(placed: real, rate: real, flat: real, charged: real, cogs: real, se: real, ni: real, rowNi: real)
    requires flat == placed * FlatFallbackRate && charged == placed * rate
    requires ni + cogs + se == flat && rowNi == charged - cogs - se
    ensures ni == rowNi + placed * (FlatFallbackRate - rate)
  {
    assert placed * (FlatFallbackRate - rate) == placed * FlatFallbackRate - placed * rate;
  }

  /** The extra net income the metrics path books for a table row: placed
      times (0.6 − the row's rate) on a row without revenue periods. */
  function RateGap(row: AccountRow): real
  {
    if row.revenuePeriods == 0 then row.placed * (FlatFallbackRate - row.rate) else 0.0
  }

  lemma AllocationUnique(x: real, y: real, total: real, ts: nat, n: nat)
    requires IsAllocation(x, total, ts, n) && IsAllocation(y, total, ts, n)
    ensures x == y
  {
    if ts > 0 {
      assert (x - y) * ts as real == 0.0;
    }
  }

  /** How many table rows show no revenue periods. */
  function FallbackRows(rows: seq<AccountRow>): nat
  {
    if |rows| == 0 then 0
    else FallbackRows(rows[..|rows| - 1]) + (if rows[|rows| - 1].revenuePeriods == 0 then 1 else 0)
  }

  lemma {:induction false} NewCountsFallbackRows(rs: seq<PracticeResult>, rows: seq<AccountRow>)
    requires |rs| == |rows|
    requires forall i :: 0 <= i < |rs| ==> (rs[i].isNew <==> rows[i].revenuePeriods == 0)
    ensures CountWhere(rs, IsNew) == FallbackRows(rows)
  {
    if |rs| > 0 {
      var n := |rs| - 1;
      assert forall i :: 0 <= i < n ==> rs[..n][i] == rs[i] && rows[..n][i] == rows[i];
      NewCountsFallbackRows(rs[..n], rows[..n]);
    }
  }

  function RateGaps(rows: seq<AccountRow>): (c: seq<real>)
    ensures |c| == |rows| && forall i :: 0 <= i < |rows| ==> c[i] == RateGap(rows[i])
  {
    seq(|rows|, i requires 0 <= i < |rows| => RateGap(rows[i]))
  }

  /** Counting the practices of a window against the table built from the
      same estimates: one account per row, the new accounts are the rows
      without revenue periods, the same sales expense, and the table's net
      income plus the rate gap of its fallback rows. */
  lemma TallyVersusTable(w: Window, groups: seq<PracticeGroup>, ests: seq<Estimate>, src: Sources)
    requires |ests| == |groups|
    requires forall j :: 0 <= j < |ests| && ests[j].rate.Some? ==> ests[j].periodsUsed >= 1
    ensures var m := MetricsOf(Results(groups, ests, ContextOf(w, src)));
      var t := BuildTable(w, groups, ests, src);
      && m.totalAccounts == |t.accounts|
      && m.newAccounts == FallbackRows(t.accounts)
      && m.totalSalesExpense == t.totals.salesExpense
      && m.totalNetIncome == t.totals.netIncome + Sum(RateGaps(t.accounts))
  {
    var ctx := ContextOf(w, src);
    var rs := Results(groups, ests, ctx);
    var actuals := AccumulateActuals(groups, ests);
    var rates := TerritoryRates(actuals);
    var rows := Rows(groups, ests, rates, ctx);
    assert BuildTable(w, groups, ests, src).accounts == rows;
    forall i | 0 <= i < |groups|
      ensures rs[i].cogs == rows[i].cogs && rs[i].salesExpense == rows[i].salesExpense
      ensures rs[i].isNew <==> rows[i].revenuePeriods == 0
      ensures rs[i].netIncome == rows[i].netIncome + RateGap(rows[i])
    {
      PracticeVersusRow(groups, ests, rates, ctx, i);
    }
    NewCountsFallbackRows(rs, rows);
    assert SalesExpenses(rs) == Column(rows, SalesExpense);
    SumDifference(NetIncomes(rs), Column(rows, NetIncome), RateGaps(rows));
    BuildTableTotals(w, groups, ests, src);
  }

  /** Over all territories the two endpoints see the same practices and
      fail together; when they succeed they compare as `TallyVersusTable`
      states. */
  lemma MetricsAgreeWithTable(periodArg: Option<string>, today: Date, src: Sources)
    requires ValidDate(today)
    ensures var m := AccountMetricsLive(periodArg, None, today, src);
      var t := AccountTableLive(periodArg, today, src);
      && (m.Ok? <==> t.Ok?)
      && (m.Ok? && t.Ok? ==>
            && m.value.totalAccounts == |t.value.accounts|
            && m.value.newAccounts == FallbackRows(t.value.accounts)
            && m.value.totalSalesExpense == t.value.totals.salesExpense
            && m.value.totalNetIncome == t.value.totals.netIncome + Sum(RateGaps(t.value.accounts)))
  {
    var w := Resolve(PeriodToken(periodArg), today);
    var groups := src.groupsIn(w);
    assert Selected(groups, TerritoryArg(None)) == groups;
    var all := EstimateAll(EstimatorAt(src.ledger, w.start), groups);
    if all.Ok? {
      var ests := all.value;
      forall j | 0 <= j < |ests| && ests[j].rate.Some?
        ensures ests[j].periodsUsed >= 1
      {
        assert ests[j] == CollectionEstimate(src.ledger, groups[j].practice, w.start).value;
      }
      TallyVersusTable(w, groups, ests, src);
    }
  }

  /** A practice that exactly breaks even is reported as negative: added
      to any practices it adds one negative account and no positive one. */
  lemma BreakEvenCountsAsNegative(rs: seq<PracticeResult>, r: PracticeResult)
    requires r.netIncome == 0.0
    ensures MetricsOf(rs + [r]).negativeAccounts == MetricsOf(rs).negativeAccounts + 1
    ensures MetricsOf(rs + [r]).positiveAccounts == MetricsOf(rs).positiveAccounts
  {
    assert (rs + [r])[..|rs|] == rs;
  }
}
