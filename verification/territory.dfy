/** Territory-level figures of the account table: the placed-weighted
    collection rate of the practices that have their own estimate, used as
    the fallback for the others, and the baseline expense per sample. */
module Territory {
  import opened Base
  import opened Dict
  import opened Estimator

  /** One `(practice_name, territory, placed_revenue, sample_count)` row of
      the period query, grouped by practice and territory. */
  datatype PracticeGroup = PracticeGroup(practice: string, territory: string, placed: real, sampleCount: nat)

  /** `territory_actual_revenue[t]` and `territory_actual_placed[t]`. */
  datatype Actuals = Actuals(revenue: real, placed: real)

  const NoActuals := Actuals(0.0, 0.0)
  /** Rate of a territory whose estimated practices placed nothing. */
  const ZeroPlacedRate: real := 0.6
  /** Rate used at the call site for a territory without estimated practices. */
  const NoEstimateRate: real := 0.9

  /** Some practice of territory `t` has its own estimate. */
  predicate HasEstimateIn(groups: seq<PracticeGroup>, ests: seq<Estimate>, t: string)
    requires |ests| == |groups|
  {
    exists i :: 0 <= i < |groups| && groups[i].territory == t && ests[i].rate.Some?
  }

  /** `placed_revenue * collection_pct` of a practice with its own estimate. */
  function Earned(g: PracticeGroup, est: Estimate): real
    requires est.rate.Some?
  {
    g.placed * est.rate.value
  }

  /** Σ placed × own rate over the practices of `t` with an estimate. */
  function EstimatedRevenue(groups: seq<PracticeGroup>, ests: seq<Estimate>, t: string): real
    requires |ests| == |groups|
  {
    if |groups| == 0 then 0.0
    else
      var n := |groups| - 1;
      EstimatedRevenue(groups[..n], ests[..n], t)
        + (if groups[n].territory == t && ests[n].rate.Some? then Earned(groups[n], ests[n]) else 0.0)
  }

  /** Σ placed over the practices of `t` with an estimate. */
  function EstimatedPlaced(groups: seq<PracticeGroup>, ests: seq<Estimate>, t: string): real
    requires |ests| == |groups|
  {
    if |groups| == 0 then 0.0
    else
      var n := |groups| - 1;
      EstimatedPlaced(groups[..n], ests[..n], t)
        + (if groups[n].territory == t && ests[n].rate.Some? then groups[n].placed else 0.0)
  }

  /** The first pass over the rows: every practice with its own estimate adds
      `placed * rate` and `placed` to its territory's entry, creating the
      entry on first use. */
  function AccumulateActuals(groups: seq<PracticeGroup>, ests: seq<Estimate>): (d: Dict<Actuals>)
    requires |ests| == |groups|
    ensures DistinctKeys(d)
  {
    if |groups| == 0 then []
    else
      var n := |groups| - 1;
      AddActual(AccumulateActuals(groups[..n], ests[..n]), groups[n], ests[n])
  }

  /** One iteration of the first pass. */
  function AddActual(acc: Dict<Actuals>, g: PracticeGroup, est: Estimate): (d: Dict<Actuals>)
    requires DistinctKeys(acc)
    ensures DistinctKeys(d)
  {
    if est.rate.None? then acc
    else Credit(acc, g.territory, Earned(g, est), g.placed)
  }

  /** `territory_actual_revenue[t] += revenue` and
      `territory_actual_placed[t] += placed`, starting from 0. */
  function Credit(acc: Dict<Actuals>, t: string, revenue: real, placed: real): (d: Dict<Actuals>)
    requires DistinctKeys(acc)
    ensures DistinctKeys(d)
  {
    var cur := Get(acc, t, NoActuals);
    var v := Actuals(cur.revenue + revenue, cur.placed + placed);
    PutKeys(acc, t, v);
    Put(acc, t, v)
  }

  /** The accumulated dictionary holds exactly the territories with an
      estimated practice, each with the sums over those practices. */
  lemma {:induction false} AccumulateActualsSums(groups: seq<PracticeGroup>, ests: seq<Estimate>, t: string)
    requires |ests| == |groups|
    ensures t in Keys(AccumulateActuals(groups, ests)) <==> HasEstimateIn(groups, ests, t)
    ensures Get(AccumulateActuals(groups, ests), t, NoActuals)
         == Actuals(EstimatedRevenue(groups, ests, t), EstimatedPlaced(groups, ests, t))
  {
    if |groups| > 0 {
      var n := |groups| - 1;
      AccumulateActualsSums(groups[..n], ests[..n], t);
      var d := AccumulateActuals(groups[..n], ests[..n]);
      if t !in Keys(d) {
        GetAbsent(d, t, NoActuals);
      }
      assert AccumulateActuals(groups, ests) == AddActual(d, groups[n], ests[n]);
      AddActualGet(d, groups[n], ests[n], t);
      HasEstimateStep(groups, ests, t);
    }
  }

  /** A territory has an estimated practice among the rows exactly when it
      has one among all rows but the last, or the last is one. */
  lemma HasEstimateStep(groups: seq<PracticeGroup>, ests: seq<Estimate>, t: string)
    requires |ests| == |groups| > 0
    ensures HasEstimateIn(groups, ests, t)
        == (HasEstimateIn(groups[..|groups| - 1], ests[..|groups| - 1], t)
            || (groups[|groups| - 1].territory == t && ests[|groups| - 1].rate.Some?))
  {
    var n := |groups| - 1;
    if HasEstimateIn(groups, ests, t) {
      var i :| 0 <= i < |groups| && groups[i].territory == t && ests[i].rate.Some?;
      if i < n {
        assert groups[..n][i] == groups[i] && ests[..n][i] == ests[i];
      }
    }
    if HasEstimateIn(groups[..n], ests[..n], t) {
      var i :| 0 <= i < n && groups[..n][i].territory == t && ests[..n][i].rate.Some?;
      assert groups[i] == groups[..n][i] && ests[i] == ests[..n][i];
    }
  }

  function ActualRevenue(a: Actuals): real { a.revenue }
  function ActualPlaced(a: Actuals): real { a.placed }

  /** Σ placed × own rate over every practice with an estimate. */
  function OwnRevenue(groups: seq<PracticeGroup>, ests: seq<Estimate>): real
    requires |ests| == |groups|
  {
    if |groups| == 0 then 0.0
    else
      var n := |groups| - 1;
      OwnRevenue(groups[..n], ests[..n])
        + (if ests[n].rate.Some? then Earned(groups[n], ests[n]) else 0.0)
  }

  /** Σ placed over every practice with an estimate. */
  function OwnPlaced(groups: seq<PracticeGroup>, ests: seq<Estimate>): real
    requires |ests| == |groups|
  {
    if |groups| == 0 then 0.0
    else
      var n := |groups| - 1;
      OwnPlaced(groups[..n], ests[..n]) + (if ests[n].rate.Some? then groups[n].placed else 0.0)
  }

  /** Summed over all territories, the accumulated entries hold the revenue
      and the placed amount of every estimated practice exactly once. */
  lemma {:induction false} AccumulateActualsTotals(groups: seq<PracticeGroup>, ests: seq<Estimate>)
    requires |ests| == |groups|
    ensures SumOf(AccumulateActuals(groups, ests), ActualRevenue) == OwnRevenue(groups, ests)
    ensures SumOf(AccumulateActuals(groups, ests), ActualPlaced) == OwnPlaced(groups, ests)
  {
    if |groups| > 0 {
      var n := |groups| - 1;
      AccumulateActualsTotals(groups[..n], ests[..n]);
      var d := AccumulateActuals(groups[..n], ests[..n]);
      assert AccumulateActuals(groups, ests) == AddActual(d, groups[n], ests[n]);
      if ests[n].rate.Some? {
        AddActualAccumulates(d, groups[n], ests[n]);
      }
    }
  }

  /** Adding to one territory's entry adds the same amounts to the totals. */
  lemma AddActualAccumulates(d: Dict<Actuals>, g: PracticeGroup, est: Estimate)
    requires DistinctKeys(d) && est.rate.Some?
    ensures SumOf(AddActual(d, g, est), ActualRevenue) == SumOf(d, ActualRevenue) + Earned(g, est)
    ensures SumOf(AddActual(d, g, est), ActualPlaced) == SumOf(d, ActualPlaced) + g.placed
  {
    AddActualIsCredit(d, g, est);
    CreditTotals(d, g.territory, Earned(g, est), g.placed);
  }

  /** One iteration adds the practice's territory, when it has an estimate,
      and changes that territory's entry only. */
  lemma AddActualGet(d: Dict<Actuals>, g: PracticeGroup, est: Estimate, t: string)
    requires DistinctKeys(d)
    ensures t in Keys(AddActual(d, g, est)) <==> t in Keys(d) || (est.rate.Some? && g.territory == t)
    ensures Get(AddActual(d, g, est), t, NoActuals)
         == if est.rate.Some? && g.territory == t
            then Actuals(Get(d, t, NoActuals).revenue + Earned(g, est), Get(d, t, NoActuals).placed + g.placed)
            else Get(d, t, NoActuals)
  {
    if est.rate.Some? {
      AddActualIsCredit(d, g, est);
      var cur := Get(d, g.territory, NoActuals);
      var v := Actuals(cur.revenue + Earned(g, est), cur.placed + g.placed);
      PutKeys(d, g.territory, v);
      PutGet(d, g.territory, v, t, NoActuals);
    }
  }

  lemma AddActualIsCredit(d: Dict<Actuals>, g: PracticeGroup, est: Estimate)
    requires DistinctKeys(d) && est.rate.Some?
    ensures AddActual(d, g, est) == Credit(d, g.territory, Earned(g, est), g.placed)
  {
    assert !est.rate.None?;
  }

  lemma CreditTotals(d: Dict<Actuals>, t: string, revenue: real, placed: real)
    requires DistinctKeys(d)
    ensures SumOf(Credit(d, t, revenue, placed), ActualRevenue) == SumOf(d, ActualRevenue) + revenue
    ensures SumOf(Credit(d, t, revenue, placed), ActualPlaced) == SumOf(d, ActualPlaced) + placed
  {
    var cur := Get(d, t, NoActuals);
    var v := Actuals(cur.revenue + revenue, cur.placed + placed);
    if t in Keys(d) {
      GetPresent(d, t, v, NoActuals);
    } else {
      GetAbsent(d, t, NoActuals);
    }
    SumOfPut(d, t, v, ActualRevenue);
    SumOfPut(d, t, v, ActualPlaced);
  }

  /** `avg_territory_collection_pct[t]` for one accumulated entry: the rate
      that earns the territory's revenue on its placed amount, or 0.6 when
      nothing was placed. */
  function TerritoryRate(t: string, a: Actuals): (r: real)
    ensures a.placed > 0.0 ==> r * a.placed == a.revenue
    ensures a.placed <= 0.0 ==> r == ZeroPlacedRate
  {
    if a.placed > 0.0 then a.revenue / a.placed else ZeroPlacedRate
  }

  /** `avg_territory_collection_pct`, one entry per accumulated territory:
      the same territories, each looked up as its own rate, and 0.9 for
      any other. */
  function TerritoryRates(actuals: Dict<Actuals>): (r: Dict<real>)
    ensures Keys(r) == Keys(actuals)
    ensures forall t ::
      Get(r, t, NoEstimateRate) == if t in Keys(actuals) then TerritoryRate(t, Get(actuals, t, NoActuals)) else NoEstimateRate
  {
    var r := Map(actuals, TerritoryRate);
    assert forall t ::
      Get(r, t, NoEstimateRate) == if t in Keys(actuals) then TerritoryRate(t, Get(actuals, t, NoActuals)) else NoEstimateRate
    by {
      forall t
        ensures Get(r, t, NoEstimateRate)
          == if t in Keys(actuals) then TerritoryRate(t, Get(actuals, t, NoActuals)) else NoEstimateRate
      {
        GetMap(actuals, TerritoryRate, t, NoEstimateRate, NoActuals);
      }
    }
    GetMap(actuals, TerritoryRate, "", NoEstimateRate, NoActuals);
    r
  }

  /** `avg_territory_collection_pct.get(t, 0.9)`, the rate a practice without
      its own estimate is charged: the placed-weighted rate of its
      territory's estimated practices, 0.6 when those placed nothing, and 0.9
      when the territory has none. */
  function FallbackRate(groups: seq<PracticeGroup>, ests: seq<Estimate>, t: string): (r: real)
    requires |ests| == |groups|
    ensures !HasEstimateIn(groups, ests, t) ==> r == NoEstimateRate
    ensures HasEstimateIn(groups, ests, t) && EstimatedPlaced(groups, ests, t) > 0.0 ==>
      r == EstimatedRevenue(groups, ests, t) / EstimatedPlaced(groups, ests, t)
    ensures HasEstimateIn(groups, ests, t) && EstimatedPlaced(groups, ests, t) <= 0.0 ==> r == ZeroPlacedRate
  {
    var actuals := AccumulateActuals(groups, ests);
    AccumulateActualsSums(groups, ests, t);
    Get(TerritoryRates(actuals), t, NoEstimateRate)
  }

  /** `lo * placed <= revenue`: revenue at an average rate of at least `lo`. */
  predicate RateAtLeast(lo: real, placed: real, revenue: real)
  {
    lo * placed <= revenue
  }

  /** `revenue <= hi * placed`: revenue at an average rate of at most `hi`. */
  predicate RateAtMost(hi: real, placed: real, revenue: real)
  {
    revenue <= hi * placed
  }

  /** Weighted by non-negative placed amounts, the estimated revenue of a
      territory is at least `lo` times its estimated placed amount when every
      contributing rate is at least `lo`. */
  lemma {:induction false} WeightedLowerBound(groups: seq<PracticeGroup>, ests: seq<Estimate>, t: string, lo: real)
    requires |ests| == |groups|
    requires forall i :: 0 <= i < |groups| && groups[i].territory == t && ests[i].rate.Some? ==>
      groups[i].placed >= 0.0 && lo <= ests[i].rate.value
    ensures RateAtLeast(lo, EstimatedPlaced(groups, ests, t), EstimatedRevenue(groups, ests, t))
  {
    if |groups| > 0 {
      var n := |groups| - 1;
      assert forall i :: 0 <= i < n ==> groups[..n][i] == groups[i] && ests[..n][i] == ests[i];
      WeightedLowerBound(groups[..n], ests[..n], t, lo);
      var p0, r0 := EstimatedPlaced(groups[..n], ests[..n], t), EstimatedRevenue(groups[..n], ests[..n], t);
      var pAll, rAll := EstimatedPlaced(groups, ests, t), EstimatedRevenue(groups, ests, t);
      if groups[n].territory == t && ests[n].rate.Some? {
        AddAtLeast(lo, p0, r0, groups[n].placed, ests[n].rate.value, pAll, rAll);
      } else {
        AddAtLeast(lo, p0, r0, 0.0, lo, pAll, rAll);
      }
    }
  }

  /** The same with every contributing rate at most `hi`. */
  lemma {:induction false} WeightedUpperBound(groups: seq<PracticeGroup>, ests: seq<Estimate>, t: string, hi: real)
    requires |ests| == |groups|
    requires forall i :: 0 <= i < |groups| && groups[i].territory == t && ests[i].rate.Some? ==>
      groups[i].placed >= 0.0 && ests[i].rate.value <= hi
    ensures RateAtMost(hi, EstimatedPlaced(groups, ests, t), EstimatedRevenue(groups, ests, t))
  {
    if |groups| > 0 {
      var n := |groups| - 1;
      assert forall i :: 0 <= i < n ==> groups[..n][i] == groups[i] && ests[..n][i] == ests[i];
      WeightedUpperBound(groups[..n], ests[..n], t, hi);
      var p0, r0 := EstimatedPlaced(groups[..n], ests[..n], t), EstimatedRevenue(groups[..n], ests[..n], t);
      var pAll, rAll := EstimatedPlaced(groups, ests, t), EstimatedRevenue(groups, ests, t);
      if groups[n].territory == t && ests[n].rate.Some? {
        AddAtMost(hi, p0, r0, groups[n].placed, ests[n].rate.value, pAll, rAll);
      } else {
        AddAtMost(hi, p0, r0, 0.0, hi, pAll, rAll);
      }
    }
  }

  /** Adding `p` placed at `rate >= lo` keeps the average at least `lo`. */
  lemma AddAtLeast(lo: real, p0: real, r0: real, p: real, rate: real, pAll: real, rAll: real)
    requires RateAtLeast(lo, p0, r0) && p >= 0.0 && lo <= rate
    requires pAll == p0 + p && rAll == r0 + p * rate
    ensures RateAtLeast(lo, pAll, rAll)
  {
    assert p * rate - p * lo == p * (rate - lo);
    assert lo * (p0 + p) == lo * p0 + p * lo;
  }

  /** Adding `p` placed at `rate <= hi` keeps the average at most `hi`. */
  lemma AddAtMost(hi: real, p0: real, r0: real, p: real, rate: real, pAll: real, rAll: real)
    requires RateAtMost(hi, p0, r0) && p >= 0.0 && rate <= hi
    requires pAll == p0 + p && rAll == r0 + p * rate
    ensures RateAtMost(hi, pAll, rAll)
  {
    assert p * hi - p * rate == p * (hi - rate);
    assert hi * (p0 + p) == hi * p0 + p * hi;
  }

  /** When its estimated practices placed non-negative amounts adding up to
      a positive sum, a territory's weighted rate lies between the smallest
      and the largest of their rates. */
  lemma FallbackWithinBounds(groups: seq<PracticeGroup>, ests: seq<Estimate>, t: string, lo: real, hi: real)
    requires |ests| == |groups|
    requires forall i :: 0 <= i < |groups| && groups[i].territory == t && ests[i].rate.Some? ==>
      groups[i].placed >= 0.0 && lo <= ests[i].rate.value <= hi
    requires EstimatedPlaced(groups, ests, t) > 0.0
    ensures lo <= FallbackRate(groups, ests, t) <= hi
  {
    WeightedLowerBound(groups, ests, t, lo);
    WeightedUpperBound(groups, ests, t, hi);
    if !HasEstimateIn(groups, ests, t) {
      ZeroWithoutEstimate(groups, ests, t);
    }
    QuotientBetween(EstimatedPlaced(groups, ests, t), EstimatedRevenue(groups, ests, t), lo, hi,
                    FallbackRate(groups, ests, t));
  }

  /** Dividing bounded revenue by a positive placed amount bounds the rate. */
  lemma QuotientBetween(p: real, r: real, lo: real, hi: real, q: real)
    requires p > 0.0 && RateAtLeast(lo, p, r) && RateAtMost(hi, p, r)
    requires q == r / p
    ensures lo <= q <= hi
  {
    assert q * p == r;
  }

  /** Without an estimated practice there is nothing placed to weigh. */
  lemma {:induction false} ZeroWithoutEstimate(groups: seq<PracticeGroup>, ests: seq<Estimate>, t: string)
    requires |ests| == |groups|
    requires !HasEstimateIn(groups, ests, t)
    ensures EstimatedPlaced(groups, ests, t) == 0.0
    ensures EstimatedRevenue(groups, ests, t) == 0.0
  {
    if |groups| > 0 {
      var n := |groups| - 1;
      assert forall i :: 0 <= i < n ==> groups[..n][i] == groups[i] && ests[..n][i] == ests[i];
      ZeroWithoutEstimate(groups[..n], ests[..n], t);
    }
  }

  /** Worked example: placed 1000 at 80% and 3000 at 90% give a fallback of
      87.5% for a third, unestimated practice of the same territory, and a
      territory without estimates gets 90%. */
  lemma FallbackExample(groups: seq<PracticeGroup>, ests: seq<Estimate>)
    requires groups == [PracticeGroup("A", "T", 1000.0, 4), PracticeGroup("B", "T", 3000.0, 6),
                        PracticeGroup("C", "T", 500.0, 2), PracticeGroup("D", "U", 700.0, 3)]
    requires ests == [Estimate(Some(0.8), 3), Estimate(Some(0.9), 6), Estimate(None, 0), Estimate(None, 0)]
    ensures FallbackRate(groups, ests, "T") == 0.875
    ensures FallbackRate(groups, ests, "U") == NoEstimateRate
  {
    assert groups[0].territory == "T" && ests[0].rate.Some?;
    assert HasEstimateIn(groups, ests, "T");
    assert groups[..3][..2][..1] == groups[..1] && ests[..3][..2][..1] == ests[..1];
    assert groups[..3][..2] == groups[..2] && ests[..3][..2] == ests[..2];
    assert EstimatedPlaced(groups[..1], ests[..1], "T") == 1000.0;
    assert EstimatedRevenue(groups[..1], ests[..1], "T") == 800.0;
    assert EstimatedPlaced(groups[..2], ests[..2], "T") == 4000.0;
    assert EstimatedRevenue(groups[..2], ests[..2], "T") == 3500.0;
    assert EstimatedPlaced(groups[..3], ests[..3], "T") == 4000.0;
    assert EstimatedRevenue(groups[..3], ests[..3], "T") == 3500.0;
    assert EstimatedPlaced(groups, ests, "T") == 4000.0;
    assert EstimatedRevenue(groups, ests, "T") == 3500.0;
    forall i | 0 <= i < |groups| && groups[i].territory == "U"
      ensures ests[i].rate.None?
    {
      assert i == 3;
    }
  }

  /** `baseline_eps_by_territory[t]` for a territory with an expense entry:
      its expenses less its collector costs, per sample, 0 without samples. */
  function BaselineEpsOf(collectorCosts: Dict<real>, samples: Dict<nat>, t: string, expenses: real): (r: real)
    ensures Get(samples, t, 0) > 0 ==> r * Get(samples, t, 0) as real == expenses - Get(collectorCosts, t, 0.0)
    ensures Get(samples, t, 0) == 0 ==> r == 0.0
  {
    var s := Get(samples, t, 0);
    if s > 0 then (expenses - Get(collectorCosts, t, 0.0)) / s as real else 0.0
  }

  /** `baseline_eps_by_territory`, keyed by the territories with expenses. */
  function BaselineEps(expenses: Dict<real>, collectorCosts: Dict<real>, samples: Dict<nat>): (r: Dict<real>)
    ensures Keys(r) == Keys(expenses)
    ensures forall t ::
      Get(r, t, 0.0) == if t in Keys(expenses) then BaselineEpsOf(collectorCosts, samples, t, Get(expenses, t, 0.0)) else 0.0
  {
    var f := (t, e) => BaselineEpsOf(collectorCosts, samples, t, e);
    var r := Map(expenses, f);
    assert forall t ::
      Get(r, t, 0.0) == if t in Keys(expenses) then BaselineEpsOf(collectorCosts, samples, t, Get(expenses, t, 0.0)) else 0.0
    by {
      forall t
        ensures Get(r, t, 0.0)
          == if t in Keys(expenses) then BaselineEpsOf(collectorCosts, samples, t, Get(expenses, t, 0.0)) else 0.0
      {
        GetMap(expenses, f, t, 0.0, 0.0);
      }
    }
    GetMap(expenses, f, "", 0.0, 0.0);
    r
  }

  /** Multiplying the baseline back by the territory's sample count gives its
      expenses net of collector costs; a territory without expenses, or
      without samples, has baseline 0. */
  lemma BaselineEpsInverse(expenses: Dict<real>, collectorCosts: Dict<real>, samples: Dict<nat>, t: string)
    ensures var b := Get(BaselineEps(expenses, collectorCosts, samples), t, 0.0);
      && (t in Keys(expenses) && Get(samples, t, 0) > 0 ==>
            b * Get(samples, t, 0) as real == Get(expenses, t, 0.0) - Get(collectorCosts, t, 0.0))
      && (t !in Keys(expenses) || Get(samples, t, 0) == 0 ==> b == 0.0)
  {
    if t in Keys(expenses) {
      BaselineTimesSamples(collectorCosts, samples, t, Get(expenses, t, 0.0));
    }
  }

  /** One territory's baseline, multiplied back by its sample count. */
  lemma BaselineTimesSamples(collectorCosts: Dict<real>, samples: Dict<nat>, t: string, expenses: real)
    ensures var s := Get(samples, t, 0);
      && (s > 0 ==> BaselineEpsOf(collectorCosts, samples, t, expenses) * s as real
                      == expenses - Get(collectorCosts, t, 0.0))
      && (s == 0 ==> BaselineEpsOf(collectorCosts, samples, t, expenses) == 0.0)
  {
  }
}
