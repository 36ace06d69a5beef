/** The arithmetic of one shop day: customer demand, how much the shop can
    afford to produce, the record kept of each day, and the totals and the
    average production cost derived from those records. All money amounts
    are whole dollars (the host collects them as integers); only the
    scenario multiplier, and with it the effective price coefficient, is
    fractional. */
module Economics {

  function Max0(x: real): real
  {
    if x < 0.0 then 0.0 else x
  }

  /** Python's min on two integers. */
  function Min(a: int, b: int): int
  {
    if b < a then b else a
  }

  /** Customers at `price` before truncation: the base demand plus the
      scenario-scaled coefficient times the price. */
  function LinearDemand(baseDemand: int, demandCoeff: int, multiplier: real, price: int): real
  {
    var effectiveCoeff := demandCoeff as real * multiplier;
    baseDemand as real + effectiveCoeff * price as real
  }

  /** Customer demand at `price`: the linear demand, clamped at zero and
      truncated to whole customers. The same expression serves the preview
      shown before the day ends and the sale itself. */
  function Demand(baseDemand: int, demandCoeff: int, multiplier: real, price: int): (d: nat)
    ensures LinearDemand(baseDemand, demandCoeff, multiplier, price) <= 0.0 ==> d == 0
    ensures LinearDemand(baseDemand, demandCoeff, multiplier, price) >= 0.0 ==>
              d as real <= LinearDemand(baseDemand, demandCoeff, multiplier, price) < d as real + 1.0
  {
    Max0(LinearDemand(baseDemand, demandCoeff, multiplier, price)).Floor
  }

  /** With a non-positive coefficient (the usual setting) a higher price
      never brings more customers. */
  lemma DemandNonIncreasingInPrice(baseDemand: int, demandCoeff: int, multiplier: real, low: int, high: int)
    requires demandCoeff <= 0 && multiplier >= 0.0
    requires low <= high
    ensures Demand(baseDemand, demandCoeff, multiplier, high) <= Demand(baseDemand, demandCoeff, multiplier, low)
  {
    var e := demandCoeff as real * multiplier;
    assert e <= 0.0;
    assert e * high as real <= e * low as real by {
      assert e * (high as real - low as real) <= 0.0;
    }
    assert LinearDemand(baseDemand, demandCoeff, multiplier, high) <= LinearDemand(baseDemand, demandCoeff, multiplier, low);
  }

  /** With a non-positive coefficient and a non-negative price, demand
      never exceeds the base demand. */
  lemma DemandAtMostBase(baseDemand: int, demandCoeff: int, multiplier: real, price: int)
    requires baseDemand >= 0 && demandCoeff <= 0 && multiplier >= 0.0 && price >= 0
    ensures Demand(baseDemand, demandCoeff, multiplier, price) <= baseDemand
  {
    var e := demandCoeff as real * multiplier;
    assert e <= 0.0;
    assert e * price as real <= 0.0;
  }

  /** The most units the shop can pay for today: cash floor-divided by the
      unit cost, or nothing when the cost is not positive. */
  function MaxProduce(cash: int, productionCost: int): (m: int)
    ensures productionCost > 0 ==> m * productionCost <= cash < (m + 1) * productionCost
    ensures productionCost <= 0 ==> m == 0
    ensures cash >= 0 ==> m >= 0
  {
    if productionCost > 0 then
      FloorDivBounds(cash, productionCost);
      cash / productionCost
    else 0
  }

  /** Python's `//` by a positive divisor rounds down, as Dafny's `/` does. */
  lemma FloorDivBounds(a: int, b: int)
    requires b > 0
    ensures (a / b) * b <= a < (a / b) * b + b
    ensures a >= 0 ==> a / b >= 0
  {
    assert a == (a / b) * b + a % b;
  }

  /** Producing no more than the cap never spends more than the cash on
      hand, so production alone cannot drive cash below zero. */
  lemma ProductionAffordable(cash: int, productionCost: int, produceQty: int)
    requires cash >= 0
    requires 0 <= produceQty <= MaxProduce(cash, productionCost)
    ensures 0 <= produceQty * productionCost <= cash
  {
    if productionCost > 0 {
      var m := MaxProduce(cash, productionCost);
      assert produceQty * productionCost <= m * productionCost by {
        assert (m - produceQty) * productionCost >= 0;
      }
    } else {
      assert produceQty == 0;
    }
  }

  /** What the shop keeps about one finished day. `scenario` is the
      scenario's name. */
  datatype RoundRecord = RoundRecord(
    round: int,
    scenario: string,
    productionCost: int,
    produced: int,
    price: int,
    demand: int,
    sales: int,
    revenue: int,
    spent: int,
    roundProfit: int,
    cashAfter: int,
    inventoryAfter: int,
    inventoryValue: int,
    inventoryCost: int,
    cumulativeProfit: int)

  // Column totals over a history, each the sum of one field of every record.

  function TotalProduced(h: seq<RoundRecord>): int
  {
    if h == [] then 0 else TotalProduced(h[..|h| - 1]) + h[|h| - 1].produced
  }

  function TotalSpent(h: seq<RoundRecord>): int
  {
    if h == [] then 0 else TotalSpent(h[..|h| - 1]) + h[|h| - 1].spent
  }

  function TotalSold(h: seq<RoundRecord>): int
  {
    if h == [] then 0 else TotalSold(h[..|h| - 1]) + h[|h| - 1].sales
  }

  function TotalRevenue(h: seq<RoundRecord>): int
  {
    if h == [] then 0 else TotalRevenue(h[..|h| - 1]) + h[|h| - 1].revenue
  }

  function TotalProfit(h: seq<RoundRecord>): int
  {
    if h == [] then 0 else TotalProfit(h[..|h| - 1]) + h[|h| - 1].roundProfit
  }

  /** Appending a record adds exactly that record's amounts to every total. */
  lemma TotalsAppend(h: seq<RoundRecord>, r: RoundRecord)
    ensures TotalProduced(h + [r]) == TotalProduced(h) + r.produced
    ensures TotalSpent(h + [r]) == TotalSpent(h) + r.spent
    ensures TotalSold(h + [r]) == TotalSold(h) + r.sales
    ensures TotalRevenue(h + [r]) == TotalRevenue(h) + r.revenue
    ensures TotalProfit(h + [r]) == TotalProfit(h) + r.roundProfit
  {
    assert (h + [r])[..|h|] == h;
  }

  /** When every day's profit is its revenue less its spend, the profit
      column sums to total revenue less total spend. */
  lemma {:induction false} TotalProfitIsRevenueLessSpent(h: seq<RoundRecord>)
    requires forall i :: 0 <= i < |h| ==> h[i].roundProfit == h[i].revenue - h[i].spent
    ensures TotalProfit(h) == TotalRevenue(h) - TotalSpent(h)
  {
    if h != [] {
      TotalProfitIsRevenueLessSpent(h[..|h| - 1]);
    }
  }

  /** Every day spent its units times that day's cost, produced a
      non-negative amount, and paid a cost within [lo, hi]. */
  ghost predicate CostsWithin(h: seq<RoundRecord>, lo: int, hi: int)
  {
    forall i :: 0 <= i < |h| ==>
      h[i].produced >= 0 && lo <= h[i].productionCost <= hi &&
      h[i].spent == h[i].produced * h[i].productionCost
  }

  lemma {:induction false} SpentBetweenCostBounds(h: seq<RoundRecord>, lo: int, hi: int)
    requires CostsWithin(h, lo, hi)
    ensures TotalProduced(h) >= 0
    ensures lo * TotalProduced(h) <= TotalSpent(h) <= hi * TotalProduced(h)
  {
    if h != [] {
      var init, last := h[..|h| - 1], h[|h| - 1];
      assert CostsWithin(init, lo, hi) by {
        forall i | 0 <= i < |init| ensures init[i] == h[i] { }
      }
      SpentBetweenCostBounds(init, lo, hi);
      assert lo * last.produced <= last.spent <= hi * last.produced by {
        assert (last.productionCost - lo) * last.produced >= 0;
        assert (hi - last.productionCost) * last.produced >= 0;
      }
      assert lo * TotalProduced(h) == lo * TotalProduced(init) + lo * last.produced;
      assert hi * TotalProduced(h) == hi * TotalProduced(init) + hi * last.produced;
    }
  }

  /** The average production cost of the units ever produced: total spend
      over total units, or today's unit cost when nothing has been produced
      yet. It is shown to the player and plays no part in profit. */
  function AvgInventoryCost(history: seq<RoundRecord>, productionCost: int): (avg: real)
    ensures TotalProduced(history) > 0 ==>
              avg * TotalProduced(history) as real == TotalSpent(history) as real
    ensures TotalProduced(history) <= 0 ==> avg == productionCost as real
  {
    if history != [] then
      var totalProduced := TotalProduced(history);
      var totalSpent := TotalSpent(history);
      if totalProduced > 0 then totalSpent as real / totalProduced as real
      else productionCost as real
    else
      productionCost as real
  }

  /** A quantity that, multiplied by a positive count, gives a total
      between lo and hi times that count lies itself between lo and hi. */
  lemma RatioBetween(avg: real, count: int, total: int, lo: int, hi: int)
    requires count > 0 && avg * count as real == total as real
    requires lo * count <= total <= hi * count
    ensures lo as real <= avg <= hi as real
  {
    assert (lo * count) as real == lo as real * count as real;
    assert (hi * count) as real == hi as real * count as real;
    assert (avg - lo as real) * count as real == total as real - (lo * count) as real;
    assert (hi as real - avg) * count as real == (hi * count) as real - total as real;
  }

  /** When every unit was bought at a cost in [lo, hi] and today's cost is
      in that range too, the average cost lies in [lo, hi]. */
  lemma AvgInventoryCostWithinBounds(history: seq<RoundRecord>, productionCost: int, lo: int, hi: int)
    requires CostsWithin(history, lo, hi)
    requires lo <= productionCost <= hi
    ensures lo as real <= AvgInventoryCost(history, productionCost) <= hi as real
  {
    SpentBetweenCostBounds(history, lo, hi);
    if TotalProduced(history) > 0 {
      RatioBetween(AvgInventoryCost(history, productionCost), TotalProduced(history), TotalSpent(history), lo, hi);
    }
  }

  /** A day that produced nothing leaves the average cost where it was
      (once something has been produced). */
  lemma AvgInventoryCostIgnoresIdleDay(history: seq<RoundRecord>, r: RoundRecord, before: int, after: int)
    requires TotalProduced(history) > 0
    requires r.produced == 0 && r.spent == 0
    ensures AvgInventoryCost(history + [r], after) == AvgInventoryCost(history, before)
  {
    TotalsAppend(history, r);
  }
}
