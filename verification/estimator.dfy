/** The historical collection-rate estimator
    (`calculate_average_collection_pct`): skip the three most recent months,
    take the first month (scanning back) with both charges and payments as
    the anchor, then average collected/placed over the anchor and the usable
    months in a fixed window just behind it. */
module Estimator {
  import opened Base
  import opened Calendar

  /** `SUM(total_charges)` and `SUM(total_payments)` of one practice over one
      date range (both `COALESCE`d to 0). */
  datatype Amounts = Amounts(placed: real, collected: real)

  /** The billing query, as an input. Every range the estimator queries is
      one whole calendar month (`MonthWindow` proves it), so the query is
      given as the totals of a practice for the month with a given
      `MonthIndex`. */
  type Ledger = (string, int) -> Amounts

  /** `(avg_collection, periods_used)`; `rate` is `None` for "no estimate". */
  datatype Estimate = Estimate(rate: Option<real>, periodsUsed: nat)

  /** Months skipped before the anchor search starts. */
  const AnchorOffset: nat := 3
  /** The call sites' defaults for `max_lookback` and `max_periods`. */
  const MaxLookback: int := 12
  const MaxPeriods: int := 6

  /** A month counts when it has both charges and payments. */
  predicate Usable(a: Amounts)
  {
    a.placed > 0.0 && a.collected > 0.0
  }

  function Ratio(a: Amounts): (r: real)
    requires Usable(a)
    ensures r > 0.0
  {
    a.collected / a.placed
  }

  /** The ratio exceeds 1 exactly when more was collected than placed: the
      estimate is not capped at 100%. */
  lemma RatioAboveOne(a: Amounts)
    requires Usable(a)
    ensures Ratio(a) > 1.0 <==> a.collected > a.placed
  {
    var r := Ratio(a);
    assert r * a.placed == a.collected;
    var d := r - 1.0;
    assert a.collected - a.placed == d * a.placed;
    if d > 0.0 {
      assert d * a.placed > 0.0;
    } else {
      assert (0.0 - d) * a.placed >= 0.0;
    }
  }

  /** The calendar month `i` months before the month of `start`. */
  function MonthBack(start: Date, i: int): Month
  {
    ShiftMonth(start.year, start.month, -i)
  }

  /** The month `i` months back lies in year 1 or later, so `datetime` can
      represent it (going back never passes year 9999). */
  predicate Reachable(start: Date, i: int)
  {
    MonthIndex(start.year, start.month) - i >= 12
  }

  /** The date window of one candidate month: `start - relativedelta(months=i)`
      moved to day 1, and its end either day 31 (December) or the first of
      the next month minus one day. It is always the whole calendar month;
      it fails when the month falls before year 1. */
  function MonthWindow(start: Date, i: nat): (r: Result<(Date, Date)>)
    requires ValidDate(start)
    ensures r.Ok? <==> Reachable(start, i)
    ensures r.Ok? ==> r.value == (FirstDay(MonthBack(start, i)), LastDay(MonthBack(start, i)))
  {
    ShiftBackInRange(start.year, start.month, i);
    match AddMonths(start, 0 - i)
    case Err(e) => Err(e)
    case Ok(target) =>
      var first := Date(target.year, target.month, 1);
      if first.month == 12 then Ok((first, Date(first.year, first.month, 31)))
      else
        LastDayByRollover(Month(target.year, target.month));
        match AddMonths(first, 1)
        case Err(e) => Err(e)
        case Ok(next) =>
          match PrevDay(next)
          case Err(e) => Err(e)
          case Ok(last) => Ok((first, last))
  }

  /** The ledger totals of the calendar month `i` months back. */
  function MonthAmounts(ledger: Ledger, practice: string, start: Date, i: int): Amounts
  {
    ledger(practice, MonthIndex(start.year, start.month) - i)
  }

  predicate UsableAt(ledger: Ledger, practice: string, start: Date, i: int)
  {
    Reachable(start, i) && Usable(MonthAmounts(ledger, practice, start, i))
  }

  /** One query of the scan: the totals of the month `MonthWindow` computes,
      or the error it raises. The scan uses this closed form;
      `ProbeQueriesMonthWindow` shows it is exactly the date arithmetic. */
  function Probe(ledger: Ledger, practice: string, start: Date, i: nat): Result<Amounts>
  {
    if Reachable(start, i) then Ok(MonthAmounts(ledger, practice, start, i)) else Err(DateOutOfRange)
  }

  /** The query fails exactly when the date arithmetic raises, and otherwise
      sums the calendar month whose first and last day the arithmetic
      produces. */
  lemma ProbeQueriesMonthWindow(ledger: Ledger, practice: string, start: Date, i: nat)
    requires ValidDate(start)
    ensures Probe(ledger, practice, start, i).Ok? <==> MonthWindow(start, i).Ok?
    ensures MonthWindow(start, i).Ok? ==>
      var w := MonthWindow(start, i).value;
      && w.0.day == 1 && w.1.year == w.0.year && w.1.month == w.0.month
      && w.1.day == DaysInMonth(w.0.year, w.0.month)
      && Probe(ledger, practice, start, i).value == ledger(practice, MonthIndex(w.0.year, w.0.month))
  {
  }

  /** `a` is the smallest usable offset in `lo..hi`. */
  predicate IsAnchor(ledger: Ledger, practice: string, start: Date, lo: int, hi: int, a: int)
  {
    && lo <= a <= hi
    && UsableAt(ledger, practice, start, a)
    && forall k :: lo <= k < a ==> !UsableAt(ledger, practice, start, k)
  }

  /** No offset in `AnchorOffset..maxLookback` is usable, and every one of
      them could be queried. */
  predicate NoAnchor(ledger: Ledger, practice: string, start: Date, maxLookback: int)
  {
    forall k :: AnchorOffset <= k <= maxLookback ==>
      Reachable(start, k) && !UsableAt(ledger, practice, start, k)
  }

  /** Step 1, the anchor search over offsets `i..maxLookback`; it stops at the
      first usable month and records its ratio. */
  function FindAnchor(ledger: Ledger, practice: string, start: Date, i: nat, maxLookback: int)
    : (r: Result<Option<(nat, real)>>)
    requires ValidDate(start)
    ensures r.Ok? && r.value.Some? ==>
      && i <= r.value.value.0 <= maxLookback
      && UsableAt(ledger, practice, start, r.value.value.0)
      && r.value.value.1 == Ratio(MonthAmounts(ledger, practice, start, r.value.value.0))
    decreases if i <= maxLookback then maxLookback - i + 1 else 0
  {
    if i > maxLookback then Ok(None)
    else
      match Probe(ledger, practice, start, i)
      case Err(e) => Err(e)
      case Ok(amounts) =>
        if Usable(amounts) then Ok(Some((i, Ratio(amounts))))
        else FindAnchor(ledger, practice, start, i + 1, maxLookback)
  }

  /** The search reports no anchor exactly when every offset in range was
      queried and none was usable. */
  lemma {:induction false} FindAnchorNone(ledger: Ledger, practice: string, start: Date, i: nat, maxLookback: int)
    requires ValidDate(start)
    ensures FindAnchor(ledger, practice, start, i, maxLookback) == Ok(None) <==>
      forall k :: i <= k <= maxLookback ==>
        Reachable(start, k) && !UsableAt(ledger, practice, start, k)
    decreases if i <= maxLookback then maxLookback - i + 1 else 0
  {
    if i <= maxLookback {
      if Reachable(start, i) && !UsableAt(ledger, practice, start, i) {
        FindAnchorNone(ledger, practice, start, i + 1, maxLookback);
      }
    }
  }

  /** The anchor found is the smallest usable offset, and the smallest
      usable offset is found provided nothing before it fails. */
  lemma {:induction false} FindAnchorIsFirstUsable(ledger: Ledger, practice: string, start: Date,
                                                   i: nat, maxLookback: int, a: int)
    requires ValidDate(start)
    ensures (&& FindAnchor(ledger, practice, start, i, maxLookback).Ok?
             && FindAnchor(ledger, practice, start, i, maxLookback).value.Some?
             && FindAnchor(ledger, practice, start, i, maxLookback).value.value.0 == a)
        <==> IsAnchor(ledger, practice, start, i, maxLookback, a)
    decreases if i <= maxLookback then maxLookback - i + 1 else 0
  {
    if i <= maxLookback {
      if Reachable(start, i) && !UsableAt(ledger, practice, start, i) {
        FindAnchorIsFirstUsable(ledger, practice, start, i + 1, maxLookback, a);
        assert IsAnchor(ledger, practice, start, i, maxLookback, a)
           <==> IsAnchor(ledger, practice, start, i + 1, maxLookback, a);
      }
    }
  }

  lemma FindAnchorAllOffsets(ledger: Ledger, practice: string, start: Date, i: nat, maxLookback: int)
    requires ValidDate(start)
    ensures forall a :: IsAnchor(ledger, practice, start, i, maxLookback, a) <==>
      (&& FindAnchor(ledger, practice, start, i, maxLookback).Ok?
       && FindAnchor(ledger, practice, start, i, maxLookback).value.Some?
       && FindAnchor(ledger, practice, start, i, maxLookback).value.value.0 == a)
  {
    forall a {
      FindAnchorIsFirstUsable(ledger, practice, start, i, maxLookback, a);
    }
  }

  /** The ratios of the usable months among offsets `lo..hi-1`, oldest last:
      a plain filter with no early exit. */
  function UsableRatios(ledger: Ledger, practice: string, start: Date, lo: int, hi: int): seq<real>
    decreases hi - lo
  {
    if lo >= hi then []
    else
      (if UsableAt(ledger, practice, start, lo) then [Ratio(MonthAmounts(ledger, practice, start, lo))] else [])
      + UsableRatios(ledger, practice, start, lo + 1, hi)
  }

  lemma {:induction false} UsableRatiosBounds(ledger: Ledger, practice: string, start: Date, lo: int, hi: int)
    ensures |UsableRatios(ledger, practice, start, lo, hi)| <= Max(0, hi - lo)
    ensures forall x :: x in UsableRatios(ledger, practice, start, lo, hi) ==> x > 0.0
    decreases hi - lo
  {
    if lo < hi {
      UsableRatiosBounds(ledger, practice, start, lo + 1, hi);
    }
  }

  /** Step 2, `for j in range(j, stop)`: query each month, keep the ratio of
      a usable one and count it in `used`, and leave the loop once `used`
      reaches `maxPeriods`. When the remaining iterations cannot push `used`
      past `maxPeriods` early (as from the call site) the early exit never
      skips a month and the scan is exactly the filter `UsableRatios`. */
  function TrailingScan(ledger: Ledger, practice: string, start: Date, j: nat, stop: int,
                        pcts: seq<real>, used: nat, maxPeriods: int): (r: Result<(seq<real>, nat)>)
    requires ValidDate(start)
    ensures r.Ok? ==> |r.value.0| - |pcts| == r.value.1 - used
    ensures (j >= stop || used + (stop - j) <= maxPeriods) ==>
      && (r.Ok? <==> forall k :: j <= k < stop ==> Reachable(start, k))
      && (r.Ok? ==> r.value.0 == pcts + UsableRatios(ledger, practice, start, j, stop))
    decreases if j < stop then stop - j else 0
  {
    if j >= stop then Ok((pcts, used))
    else
      match Probe(ledger, practice, start, j)
      case Err(e) => Err(e)
      case Ok(amounts) =>
        var pcts' := if Usable(amounts) then pcts + [Ratio(amounts)] else pcts;
        var used' := if Usable(amounts) then used + 1 else used;
        if used' >= maxPeriods then Ok((pcts', used'))
        else
          assert pcts' + UsableRatios(ledger, practice, start, j + 1, stop)
              == pcts + UsableRatios(ledger, practice, start, j, stop);
          TrailingScan(ledger, practice, start, j + 1, stop, pcts', used', maxPeriods)
  }

  /** The months after the anchor that the trailing window queries can all
      be represented as dates. */
  predicate TrailInRange(start: Date, a: int, maxPeriods: int)
  {
    forall k :: a < k < a + maxPeriods ==> Reachable(start, k)
  }

  /** The anchor's ratio followed by the usable ratios of the next
      `maxPeriods - 1` older months. */
  function UsedRatios(ledger: Ledger, practice: string, start: Date, a: int, maxPeriods: int): seq<real>
    requires UsableAt(ledger, practice, start, a)
  {
    [Ratio(MonthAmounts(ledger, practice, start, a))] + UsableRatios(ledger, practice, start, a + 1, a + maxPeriods)
  }

  /** `calculate_average_collection_pct(cursor, practice, start, max_lookback,
      max_periods)`; `Err` when a queried month falls before year 1. An
      estimate, when there is one, is a positive mean over at least one and
      at most `max_periods` months. */
  function AverageCollectionPct(ledger: Ledger, practice: string, start: Date,
                                maxLookback: int, maxPeriods: int): (r: Result<Estimate>)
    requires ValidDate(start)
    ensures r.Ok? && r.value.rate.Some? ==>
      r.value.rate.value > 0.0 && 1 <= r.value.periodsUsed <= Max(1, maxPeriods)
    ensures r.Ok? && r.value.rate.None? ==> r.value.periodsUsed == 0
  {
    var anchor := FindAnchor(ledger, practice, start, AnchorOffset, maxLookback);
    if anchor.Err? then Err(anchor.error)
    else if anchor.value.None? then Ok(Estimate(None, 0))
    else EstimateAfterAnchor(ledger, practice, start, anchor.value.value.0, anchor.value.value.1, maxPeriods)
  }

  /** Step 2 and the mean, once the anchor `a` with ratio `first` is known. */
  function EstimateAfterAnchor(ledger: Ledger, practice: string, start: Date, a: nat, first: real,
                               maxPeriods: int): (r: Result<Estimate>)
    requires ValidDate(start)
    requires UsableAt(ledger, practice, start, a)
    requires first == Ratio(MonthAmounts(ledger, practice, start, a))
    ensures r.Ok? ==> r.value.rate.Some? && r.value.rate.value > 0.0
    ensures r.Ok? ==> 1 <= r.value.periodsUsed <= Max(1, maxPeriods)
  {
    var scan := TrailingScan(ledger, practice, start, a + 1, a + maxPeriods, [first], 1, maxPeriods);
    if scan.Err? then Err(scan.error)
    else
      TrailingScanResult(ledger, practice, start, maxPeriods, a, first);
      var pcts := scan.value.0;
      Ok(Estimate(if |pcts| > 0 then Some(Mean(pcts)) else None, scan.value.1))
  }

  /** What the call site's trailing scan returns: the used ratios, counted
      by `used`, between one and `max(1, max_periods)` of them, with a
      positive mean. */
  lemma TrailingScanResult(ledger: Ledger, practice: string, start: Date, maxPeriods: int, a: nat, first: real)
    requires ValidDate(start)
    requires UsableAt(ledger, practice, start, a)
    requires first == Ratio(MonthAmounts(ledger, practice, start, a))
    requires TrailingScan(ledger, practice, start, a + 1, a + maxPeriods, [first], 1, maxPeriods).Ok?
    ensures TrailingScan(ledger, practice, start, a + 1, a + maxPeriods, [first], 1, maxPeriods).value.0
      == UsedRatios(ledger, practice, start, a, maxPeriods)
    ensures TrailingScan(ledger, practice, start, a + 1, a + maxPeriods, [first], 1, maxPeriods).value.1
      == |UsedRatios(ledger, practice, start, a, maxPeriods)|
    ensures 1 <= |UsedRatios(ledger, practice, start, a, maxPeriods)| <= Max(1, maxPeriods)
    ensures Mean(UsedRatios(ledger, practice, start, a, maxPeriods)) > 0.0
  {
    var rest := UsableRatios(ledger, practice, start, a + 1, a + maxPeriods);
    var pcts := UsedRatios(ledger, practice, start, a, maxPeriods);
    UsableRatiosBounds(ledger, practice, start, a + 1, a + maxPeriods);
    assert pcts == [first] + rest;
    forall i | 0 <= i < |pcts|
      ensures pcts[i] > 0.0
    {
      if i > 0 {
        assert pcts[i] == rest[i - 1];
        assert rest[i - 1] in rest;
      }
    }
    MeanPositive(pcts);
  }

  /** `(None, 0)` comes back exactly when no month of the anchor search is
      usable and all of them could be queried. */
  lemma EstimateWithoutAnchor(ledger: Ledger, practice: string, start: Date, maxLookback: int, maxPeriods: int)
    requires ValidDate(start)
    ensures AverageCollectionPct(ledger, practice, start, maxLookback, maxPeriods) == Ok(Estimate(None, 0))
        <==> NoAnchor(ledger, practice, start, maxLookback)
  {
    FindAnchorNone(ledger, practice, start, AnchorOffset, maxLookback);
  }

  /** With anchor `a` (the smallest usable offset from 3 on), the estimate
      succeeds exactly when the trailing window can be queried, and it is
      the unweighted mean of the anchor's ratio and the usable ratios of the
      next `max_periods - 1` months, however many of those are usable. */
  lemma EstimateFromAnchor(ledger: Ledger, practice: string, start: Date, maxLookback: int, maxPeriods: int, a: int)
    requires ValidDate(start)
    requires IsAnchor(ledger, practice, start, AnchorOffset, maxLookback, a)
    ensures AverageCollectionPct(ledger, practice, start, maxLookback, maxPeriods).Ok?
        <==> TrailInRange(start, a, maxPeriods)
    ensures AverageCollectionPct(ledger, practice, start, maxLookback, maxPeriods).Ok? ==>
      AverageCollectionPct(ledger, practice, start, maxLookback, maxPeriods)
        == Ok(Estimate(Some(Mean(UsedRatios(ledger, practice, start, a, maxPeriods))),
                       |UsedRatios(ledger, practice, start, a, maxPeriods)|))
  {
    FindAnchorIsFirstUsable(ledger, practice, start, AnchorOffset, maxLookback, a);
    var first := Ratio(MonthAmounts(ledger, practice, start, a));
    assert FindAnchor(ledger, practice, start, AnchorOffset, maxLookback) == Ok(Some((a, first)));
    EstimateAfterAnchorValue(ledger, practice, start, a, first, maxPeriods);
  }

  lemma EstimateAfterAnchorValue(ledger: Ledger, practice: string, start: Date, a: nat, first: real,
                                 maxPeriods: int)
    requires ValidDate(start)
    requires UsableAt(ledger, practice, start, a)
    requires first == Ratio(MonthAmounts(ledger, practice, start, a))
    ensures EstimateAfterAnchor(ledger, practice, start, a, first, maxPeriods).Ok?
        <==> TrailInRange(start, a, maxPeriods)
    ensures EstimateAfterAnchor(ledger, practice, start, a, first, maxPeriods).Ok? ==>
      EstimateAfterAnchor(ledger, practice, start, a, first, maxPeriods)
        == Ok(Estimate(Some(Mean(UsedRatios(ledger, practice, start, a, maxPeriods))),
                       |UsedRatios(ledger, practice, start, a, maxPeriods)|))
  {
    var scan := TrailingScan(ledger, practice, start, a + 1, a + maxPeriods, [first], 1, maxPeriods);
    if scan.Ok? {
      TrailingScanResult(ledger, practice, start, maxPeriods, a, first);
    }
  }

  /** The estimate with the call sites' defaults (12 months back, 6 periods). */
  function CollectionEstimate(ledger: Ledger, practice: string, start: Date): (r: Result<Estimate>)
    requires ValidDate(start)
    ensures r.Ok? && r.value.rate.Some? ==> r.value.rate.value > 0.0 && 1 <= r.value.periodsUsed <= 6
    ensures r.Ok? && r.value.rate.None? ==> r.value.periodsUsed == 0
  {
    AverageCollectionPct(ledger, practice, start, MaxLookback, MaxPeriods)
  }

  /** A window of usable months contributes one ratio per month. */
  lemma {:induction false} UsableRatiosAllUsable(ledger: Ledger, practice: string, start: Date, lo: int, hi: int)
    requires lo <= hi
    requires forall k :: lo <= k < hi ==> UsableAt(ledger, practice, start, k)
    ensures |UsableRatios(ledger, practice, start, lo, hi)| == hi - lo
    decreases hi - lo
  {
    if lo < hi {
      UsableRatiosAllUsable(ledger, practice, start, lo + 1, hi);
    }
  }

  /** A window without usable months contributes nothing. */
  lemma {:induction false} UsableRatiosNoneUsable(ledger: Ledger, practice: string, start: Date, lo: int, hi: int)
    requires forall k :: lo <= k < hi ==> !UsableAt(ledger, practice, start, k)
    ensures UsableRatios(ledger, practice, start, lo, hi) == []
    decreases hi - lo
  {
    if lo < hi {
      UsableRatiosNoneUsable(ledger, practice, start, lo + 1, hi);
    }
  }

  /** With a complete history behind the anchor the estimate uses exactly
      `max_periods` months. */
  lemma FullHistoryUsesAllPeriods(ledger: Ledger, practice: string, start: Date,
                                  maxLookback: int, maxPeriods: int, a: int)
    requires ValidDate(start) && maxPeriods >= 1
    requires IsAnchor(ledger, practice, start, AnchorOffset, maxLookback, a)
    requires forall k :: a < k < a + maxPeriods ==> UsableAt(ledger, practice, start, k)
    ensures AverageCollectionPct(ledger, practice, start, maxLookback, maxPeriods).Ok?
    ensures AverageCollectionPct(ledger, practice, start, maxLookback, maxPeriods).value.periodsUsed == maxPeriods
  {
    EstimateFromAnchor(ledger, practice, start, maxLookback, maxPeriods, a);
    forall k | a < k < a + maxPeriods
      ensures Reachable(start, k)
    {
      assert UsableAt(ledger, practice, start, k);
    }
    UsableRatiosAllUsable(ledger, practice, start, a + 1, a + maxPeriods);
    var used := UsedRatios(ledger, practice, start, a, maxPeriods);
    assert |used| == maxPeriods;
  }

  /** An anchor with no usable month behind it is the estimate on its own,
      over one period; the rate exceeds 1 exactly when that month collected
      more than was placed. */
  lemma LoneAnchorEstimate(ledger: Ledger, practice: string, start: Date,
                           maxLookback: int, maxPeriods: int, a: int)
    requires ValidDate(start)
    requires IsAnchor(ledger, practice, start, AnchorOffset, maxLookback, a)
    requires TrailInRange(start, a, maxPeriods)
    requires forall k :: a < k < a + maxPeriods ==> !UsableAt(ledger, practice, start, k)
    ensures AverageCollectionPct(ledger, practice, start, maxLookback, maxPeriods)
      == Ok(Estimate(Some(Ratio(MonthAmounts(ledger, practice, start, a))), 1))
    ensures AverageCollectionPct(ledger, practice, start, maxLookback, maxPeriods).value.rate.value > 1.0
      <==> MonthAmounts(ledger, practice, start, a).collected > MonthAmounts(ledger, practice, start, a).placed
  {
    EstimateFromAnchor(ledger, practice, start, maxLookback, maxPeriods, a);
    UsableRatiosNoneUsable(ledger, practice, start, a + 1, a + maxPeriods);
    var r := Ratio(MonthAmounts(ledger, practice, start, a));
    assert UsedRatios(ledger, practice, start, a, maxPeriods) == [r];
    assert Sum([r]) == r + Sum([]);
    assert Mean([r]) == r;
    RatioAboveOne(MonthAmounts(ledger, practice, start, a));
  }

  /** For a period starting in January to March of year 1 the first month
      the search queries lies before year 1, so the call raises. */
  lemma EarlyYearOneRaises(ledger: Ledger, practice: string, start: Date, maxLookback: int, maxPeriods: int)
    requires ValidDate(start) && start.year == MinYear && start.month <= 3
    requires maxLookback >= AnchorOffset
    ensures AverageCollectionPct(ledger, practice, start, maxLookback, maxPeriods).Err?
  {
    assert !Reachable(start, AnchorOffset);
  }

  /** The search only ever looks at the months at offsets
      `AnchorOffset .. maxLookback + max(1, maxPeriods) - 1`: two billing histories
      that agree there, and in particular ones that differ only in the
      three most recent months, give the same estimate. */
  lemma EstimateIgnoresOtherMonths(l1: Ledger, l2: Ledger, practice: string, start: Date,
                                   maxLookback: int, maxPeriods: int)
    requires ValidDate(start)
    requires forall k :: AnchorOffset <= k < maxLookback + Max(1, maxPeriods) ==>
      MonthAmounts(l1, practice, start, k) == MonthAmounts(l2, practice, start, k)
    ensures AverageCollectionPct(l1, practice, start, maxLookback, maxPeriods)
         == AverageCollectionPct(l2, practice, start, maxLookback, maxPeriods)
  {
    FindAnchorLocal(l1, l2, practice, start, AnchorOffset, maxLookback);
    var anchor := FindAnchor(l1, practice, start, AnchorOffset, maxLookback);
    if anchor.Ok? && anchor.value.Some? {
      EstimateAfterAnchorLocal(l1, l2, practice, start, anchor.value.value.0, anchor.value.value.1, maxPeriods);
    }
  }

  lemma EstimateAfterAnchorLocal(l1: Ledger, l2: Ledger, practice: string, start: Date, a: nat, first: real,
                                 maxPeriods: int)
    requires ValidDate(start)
    requires UsableAt(l1, practice, start, a)
    requires first == Ratio(MonthAmounts(l1, practice, start, a))
    requires forall k :: a <= k < a + Max(1, maxPeriods) ==>
      MonthAmounts(l1, practice, start, k) == MonthAmounts(l2, practice, start, k)
    ensures UsableAt(l2, practice, start, a)
    ensures first == Ratio(MonthAmounts(l2, practice, start, a))
    ensures EstimateAfterAnchor(l1, practice, start, a, first, maxPeriods)
         == EstimateAfterAnchor(l2, practice, start, a, first, maxPeriods)
  {
    assert MonthAmounts(l1, practice, start, a) == MonthAmounts(l2, practice, start, a);
    EstimateAfterAnchorValue(l1, practice, start, a, first, maxPeriods);
    EstimateAfterAnchorValue(l2, practice, start, a, first, maxPeriods);
    UsableRatiosLocal(l1, l2, practice, start, a + 1, a + maxPeriods);
    assert UsedRatios(l1, practice, start, a, maxPeriods) == UsedRatios(l2, practice, start, a, maxPeriods);
  }

  lemma {:induction false} FindAnchorLocal(l1: Ledger, l2: Ledger, practice: string, start: Date,
                                           i: nat, maxLookback: int)
    requires ValidDate(start)
    requires forall k :: i <= k <= maxLookback ==>
      MonthAmounts(l1, practice, start, k) == MonthAmounts(l2, practice, start, k)
    ensures FindAnchor(l1, practice, start, i, maxLookback) == FindAnchor(l2, practice, start, i, maxLookback)
    decreases if i <= maxLookback then maxLookback - i + 1 else 0
  {
    if i <= maxLookback {
      FindAnchorLocal(l1, l2, practice, start, i + 1, maxLookback);
    }
  }

  lemma {:induction false} UsableRatiosLocal(l1: Ledger, l2: Ledger, practice: string, start: Date, lo: int, hi: int)
    requires forall k :: lo <= k < hi ==>
      MonthAmounts(l1, practice, start, k) == MonthAmounts(l2, practice, start, k)
    ensures UsableRatios(l1, practice, start, lo, hi) == UsableRatios(l2, practice, start, lo, hi)
    decreases hi - lo
  {
    if lo < hi {
      assert MonthAmounts(l1, practice, start, lo) == MonthAmounts(l2, practice, start, lo);
      UsableRatiosLocal(l1, l2, practice, start, lo + 1, hi);
    }
  }
}
