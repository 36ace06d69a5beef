/** The game as a value: its configuration, the session it runs in, and the
    three things that change a session — starting a game, ending a day and
    summarising a finished game. The ledger invariant `Valid` ties the cash,
    the inventory and every day's record to the history, and is preserved by
    starting and by every day. */
module Lifecycle {
  import opened Scenarios
  import opened Economics

  /** The settings chosen before the game starts; fixed for the whole game. */
  datatype Config = Config(
    numRounds: int,
    startingCash: int,
    startingInventory: int,
    minCost: int,
    maxCost: int,
    baseDemand: int,
    demandCoeff: int,
    minPrice: int)

  /** The ranges the host's input widgets enforce on the settings. The one
      relation between settings, min cost not above max cost, is checked by
      the game itself (see `Start`). */
  predicate HostBounds(c: Config)
  {
    1 <= c.numRounds <= 50 && c.startingCash >= 0 && c.startingInventory >= 0 &&
    c.minCost >= 1 && c.maxCost >= 1 && c.baseDemand >= 0 && c.minPrice >= 0
  }

  /** The session: nothing configured yet, or a game with its current day's
      production cost and scenario and the records of the days played. */
  datatype Session =
    | Unconfigured
    | Running(
        config: Config,
        cash: int,
        inventory: int,
        currentRound: int,
        productionCost: int,
        scenario: Scenario,
        history: seq<RoundRecord>)

  datatype Phase = Configuring | Playing(day: int) | Over

  /** The game is over once the day counter has passed the number of days. */
  predicate IsFinished(s: Session)
  {
    s.Running? && s.currentRound > s.config.numRounds
  }

  function PhaseOf(s: Session): (p: Phase)
    ensures p == Over <==> IsFinished(s)
    ensures p == Configuring <==> s.Unconfigured?
    ensures p.Playing? ==> s.Running? && p.day == s.currentRound
  {
    match s
    case Unconfigured => Configuring
    case Running(c, _, _, round, _, _, _) => if round > c.numRounds then Over else Playing(round)
  }

  /** A value the random draws may produce: a unit cost between the configured
      bounds, inclusive, and a catalog scenario. */
  ghost predicate ValidDraw(c: Config, cost: int, sc: Scenario)
  {
    c.minCost <= cost <= c.maxCost && InCatalog(sc)
  }

  datatype ConfigError = MinCostAboveMaxCost

  datatype StartOutcome = Started(session: Session) | Rejected(error: ConfigError)

  /** Starting a game: refused when the minimum cost exceeds the maximum;
      otherwise day 1 with the starting cash and inventory, no history, and
      the drawn cost and scenario. */
  function Start(c: Config, drawnCost: int, drawnScenario: Scenario): StartOutcome
  {
    if c.minCost > c.maxCost then Rejected(MinCostAboveMaxCost)
    else Started(Running(c, c.startingCash, c.startingInventory, 1, drawnCost, drawnScenario, []))
  }

  /** The demand the host shows for a candidate price before the day ends. */
  function Preview(s: Session, price: int): nat
    requires s.Running?
  {
    Demand(s.config.baseDemand, s.config.demandCoeff, s.scenario.multiplier, price)
  }

  /** The inputs the host lets the player submit on an open day: a quantity
      between zero and what the cash affords, and a price not below the
      minimum. */
  predicate CanResolve(s: Session, produceQty: int, price: int)
  {
    s.Running? && s.currentRound <= s.config.numRounds &&
    0 <= produceQty <= MaxProduce(s.cash, s.productionCost) &&
    price >= s.config.minPrice
  }

  /** The record of the day being ended: pay for production, sell the
      smaller of demand and stock, take the revenue, and carry the running
      figures forward. */
  function DayRecord(s: Session, produceQty: int, price: int): RoundRecord
    requires s.Running?
  {
    var c := s.config;
    var spent := produceQty * s.productionCost;
    var inventoryAfterProduction := s.inventory + produceQty;
    var demand := Demand(c.baseDemand, c.demandCoeff, s.scenario.multiplier, price);
    var sales := Min(demand, inventoryAfterProduction);
    var revenue := sales * price;
    var cash := s.cash - spent + revenue;
    var inventory := inventoryAfterProduction - sales;
    var roundProfit := revenue - spent;
    var cumulativeProfit := TotalProfit(s.history) + roundProfit;
    RoundRecord(s.currentRound, s.scenario.name, s.productionCost, produceQty, price,
                demand, sales, revenue, spent, roundProfit, cash, inventory,
                inventory * price, inventory * s.productionCost, cumulativeProfit)
  }

  /** Ending a day: append the day's record, take its cash and stock, move
      to the next day, and draw the next day's cost and scenario only if the
      game goes on. */
  function Resolve(s: Session, produceQty: int, price: int, nextCost: int, nextScenario: Scenario): Session
    requires s.Running?
  {
    var entry := DayRecord(s, produceQty, price);
    var round := s.currentRound + 1;
    var goesOn := round <= s.config.numRounds;
    Running(s.config, entry.cashAfter, entry.inventoryAfter, round,
            if goesOn then nextCost else s.productionCost,
            if goesOn then nextScenario else s.scenario,
            s.history + [entry])
  }

  datatype Summary = Summary(profit: int, inventoryValue: int, inventoryCost: int, totalValueCreated: int)

  /** The end-of-game figures: cash profit, the stock on hand valued at the
      last day's price and at the last day's unit cost (both zero when no
      day was played), and the value created, which adds the stock at the
      last price to the cash profit. */
  function Summarize(s: Session): Summary
    requires s.Running?
  {
    var profit := s.cash - s.config.startingCash;
    var inventoryValue := if s.history != [] then s.inventory * s.history[|s.history| - 1].price else 0;
    var inventoryCost := if s.history != [] then s.inventory * s.history[|s.history| - 1].productionCost else 0;
    Summary(profit, inventoryValue, inventoryCost, profit + inventoryValue)
  }

  // ---------------------------------------------------------------------
  // The ledger invariant

  /** Record `i` of `h` is what ending day `i + 1` writes: its arithmetic is
      internally consistent, its sales are the smaller of demand and stock,
      and its running figures agree with the totals of the records up to it. */
  ghost predicate EntryOk(c: Config, h: seq<RoundRecord>, i: int)
    requires 0 <= i < |h|
  {
    var e := h[i];
    e.round == i + 1 &&
    IsScenarioName(e.scenario) &&
    c.minCost <= e.productionCost <= c.maxCost &&
    e.price >= c.minPrice &&
    e.produced >= 0 &&
    e.demand >= 0 &&
    e.inventoryAfter >= 0 &&
    e.sales == Min(e.demand, e.inventoryAfter + e.sales) &&
    e.spent == e.produced * e.productionCost &&
    e.revenue == e.sales * e.price &&
    e.roundProfit == e.revenue - e.spent &&
    e.cumulativeProfit == TotalProfit(h[..i + 1]) &&
    e.cashAfter == c.startingCash + e.cumulativeProfit &&
    e.cashAfter >= 0 &&
    e.inventoryAfter == c.startingInventory + TotalProduced(h[..i + 1]) - TotalSold(h[..i + 1]) &&
    e.inventoryValue == e.inventoryAfter * e.price &&
    e.inventoryCost == e.inventoryAfter * e.productionCost
  }

  ghost predicate Ledger(c: Config, h: seq<RoundRecord>)
  {
    forall i :: 0 <= i < |h| ==> EntryOk(c, h, i)
  }

  /** Every session the game can reach satisfies this. */
  ghost predicate Valid(s: Session)
  {
    s.Running? ==>
      HostBounds(s.config) &&
      s.config.minCost <= s.config.maxCost &&
      s.currentRound == |s.history| + 1 &&
      s.currentRound <= s.config.numRounds + 1 &&
      s.cash >= 0 &&
      s.inventory >= 0 &&
      ValidDraw(s.config, s.productionCost, s.scenario) &&
      s.cash == s.config.startingCash + TotalProfit(s.history) &&
      s.inventory == s.config.startingInventory + TotalProduced(s.history) - TotalSold(s.history) &&
      Ledger(s.config, s.history)
  }

  // ---------------------------------------------------------------------
  // Starting

  /** Start is refused exactly when the minimum cost exceeds the maximum;
      an accepted start is day 1 of a fresh ledger, and it is valid. */
  lemma StartOutcomes(c: Config, drawnCost: int, drawnScenario: Scenario)
    requires HostBounds(c)
    requires c.minCost <= c.maxCost ==> ValidDraw(c, drawnCost, drawnScenario)
    ensures Start(c, drawnCost, drawnScenario).Rejected? <==> c.minCost > c.maxCost
    ensures Start(c, drawnCost, drawnScenario).Started? ==>
              var s := Start(c, drawnCost, drawnScenario).session;
              s.Running? && s.config == c && s.cash == c.startingCash &&
              s.inventory == c.startingInventory && s.currentRound == 1 && s.history == [] &&
              s.productionCost == drawnCost && s.scenario == drawnScenario &&
              PhaseOf(s) == Playing(1) && Valid(s)
  {
  }

  // ---------------------------------------------------------------------
  // One day

  /** Ending a day appends exactly one record, keeps the earlier ones and
      the configuration, stamps the record with the day that just ended and
      moves the day counter on by one. */
  lemma ResolveAppendsOneRecord(s: Session, produceQty: int, price: int, nextCost: int, nextScenario: Scenario)
    requires s.Running?
    ensures var t := Resolve(s, produceQty, price, nextCost, nextScenario);
            t.Running? && t.config == s.config &&
            |t.history| == |s.history| + 1 &&
            t.history[..|s.history|] == s.history &&
            t.history[|s.history|].round == s.currentRound &&
            t.history[|s.history|].scenario == s.scenario.name &&
            t.currentRound == s.currentRound + 1
  {
  }

  /** The day's demand is the preview for the same price; sales are the
      smaller of demand and the stock after production, so never more than
      that stock; stock and cash are conserved. */
  lemma ResolveConserves(s: Session, produceQty: int, price: int, nextCost: int, nextScenario: Scenario)
    requires s.Running?
    ensures var t := Resolve(s, produceQty, price, nextCost, nextScenario);
            var e := t.history[|t.history| - 1];
            e.demand == Preview(s, price) &&
            e.produced == produceQty && e.price == price &&
            e.productionCost == s.productionCost &&
            e.sales == Min(e.demand, s.inventory + produceQty) &&
            e.sales <= s.inventory + produceQty &&
            e.spent == produceQty * s.productionCost &&
            e.revenue == e.sales * price &&
            t.inventory == s.inventory + produceQty - e.sales &&
            t.cash == s.cash - e.spent + e.revenue &&
            e.roundProfit == e.revenue - e.spent &&
            e.cumulativeProfit == TotalProfit(s.history) + e.roundProfit &&
            e.cashAfter == t.cash && e.inventoryAfter == t.inventory &&
            e.inventoryValue == t.inventory * price &&
            e.inventoryCost == t.inventory * s.productionCost
  {
  }

  /** On an allowed day neither production nor the whole day can leave cash
      or stock negative. */
  lemma ResolveStaysSolvent(s: Session, produceQty: int, price: int, nextCost: int, nextScenario: Scenario)
    requires Valid(s) && CanResolve(s, produceQty, price)
    ensures s.cash - produceQty * s.productionCost >= 0
    ensures var t := Resolve(s, produceQty, price, nextCost, nextScenario);
            t.cash >= 0 && t.inventory >= 0
  {
    ProductionAffordable(s.cash, s.productionCost, produceQty);
    var t := Resolve(s, produceQty, price, nextCost, nextScenario);
    var e := t.history[|t.history| - 1];
    assert e.sales >= 0 && price >= 0;
    assert e.revenue >= 0;
  }

  /** The next day's cost and scenario are taken from the draw exactly when
      the game goes on; after the last day the game is over. */
  lemma ResolveAdvances(s: Session, produceQty: int, price: int, nextCost: int, nextScenario: Scenario)
    requires s.Running? && PhaseOf(s) == Playing(s.currentRound)
    ensures var t := Resolve(s, produceQty, price, nextCost, nextScenario);
            (t.currentRound <= s.config.numRounds ==>
               t.productionCost == nextCost && t.scenario == nextScenario &&
               PhaseOf(t) == Playing(s.currentRound + 1)) &&
            (t.currentRound > s.config.numRounds ==>
               t.productionCost == s.productionCost && t.scenario == s.scenario &&
               PhaseOf(t) == Over) &&
            (IsFinished(t) <==> s.currentRound == s.config.numRounds)
  {
  }

  /** Extending a valid ledger by a record that is valid at its own
      position keeps the ledger valid. */
  lemma LedgerExtend(c: Config, h: seq<RoundRecord>, r: RoundRecord)
    requires Ledger(c, h)
    requires EntryOk(c, h + [r], |h|)
    ensures Ledger(c, h + [r])
  {
    var h' := h + [r];
    forall i | 0 <= i < |h'|
      ensures EntryOk(c, h', i)
    {
      if i < |h| {
        assert h'[..i + 1] == h[..i + 1];
        assert EntryOk(c, h, i);
      }
    }
  }

  /** The record a day appends is valid at its position, given the figures
      that ending the day produces. */
  lemma NewEntryOk(c: Config, h: seq<RoundRecord>, e: RoundRecord, cashBefore: int, inventoryBefore: int)
    requires cashBefore == c.startingCash + TotalProfit(h)
    requires inventoryBefore == c.startingInventory + TotalProduced(h) - TotalSold(h)
    requires e.round == |h| + 1 && IsScenarioName(e.scenario)
    requires c.minCost <= e.productionCost <= c.maxCost && e.price >= c.minPrice
    requires e.produced >= 0 && e.demand >= 0 && e.inventoryAfter >= 0 && e.cashAfter >= 0
    requires e.sales == Min(e.demand, inventoryBefore + e.produced)
    requires e.inventoryAfter == inventoryBefore + e.produced - e.sales
    requires e.spent == e.produced * e.productionCost && e.revenue == e.sales * e.price
    requires e.roundProfit == e.revenue - e.spent
    requires e.cumulativeProfit == TotalProfit(h) + e.roundProfit
    requires e.cashAfter == cashBefore - e.spent + e.revenue
    requires e.inventoryValue == e.inventoryAfter * e.price
    requires e.inventoryCost == e.inventoryAfter * e.productionCost
    ensures EntryOk(c, h + [e], |h|)
  {
    TotalsAppend(h, e);
    assert (h + [e])[..|h| + 1] == h + [e];
  }

  /** An allowed day with an allowed draw keeps the ledger invariant. */
  lemma ResolvePreservesValid(s: Session, produceQty: int, price: int, nextCost: int, nextScenario: Scenario)
    requires Valid(s) && CanResolve(s, produceQty, price)
    requires ValidDraw(s.config, nextCost, nextScenario)
    ensures Valid(Resolve(s, produceQty, price, nextCost, nextScenario))
  {
    var t := Resolve(s, produceQty, price, nextCost, nextScenario);
    var c, h := s.config, s.history;
    ResolveAppendsOneRecord(s, produceQty, price, nextCost, nextScenario);
    ResolveConserves(s, produceQty, price, nextCost, nextScenario);
    ResolveStaysSolvent(s, produceQty, price, nextCost, nextScenario);
    var e := t.history[|h|];
    assert t.history == h + [e];
    CatalogScenario(s.scenario);
    NewEntryOk(c, h, e, s.cash, s.inventory);
    LedgerExtend(c, h, e);
    TotalsAppend(h, e);
  }

  // ---------------------------------------------------------------------
  // What the ledger invariant gives

  /** Each record's cumulative profit is the sum of the day profits up to
      and including it, the cash after that day is the starting cash plus
      that sum, and the current cash is the starting cash plus all day
      profits. */
  lemma ProfitBookkeeping(s: Session)
    requires Valid(s) && s.Running?
    ensures forall i :: 0 <= i < |s.history| ==>
              s.history[i].cumulativeProfit == TotalProfit(s.history[..i + 1]) &&
              s.history[i].cashAfter - s.config.startingCash == s.history[i].cumulativeProfit
    ensures s.cash - s.config.startingCash == TotalProfit(s.history)
    ensures s.cash - s.config.startingCash == TotalRevenue(s.history) - TotalSpent(s.history)
  {
    var h := s.history;
    forall i | 0 <= i < |h|
      ensures h[i].roundProfit == h[i].revenue - h[i].spent
      ensures h[i].cumulativeProfit == TotalProfit(h[..i + 1])
      ensures h[i].cashAfter - s.config.startingCash == h[i].cumulativeProfit
    {
      assert EntryOk(s.config, h, i);
    }
    TotalProfitIsRevenueLessSpent(h);
  }

  /** The average inventory cost of a valid game stays within the
      configured cost range. */
  lemma AvgInventoryCostInRange(s: Session)
    requires Valid(s) && s.Running?
    ensures s.config.minCost as real <= AvgInventoryCost(s.history, s.productionCost) <= s.config.maxCost as real
  {
    var h, c := s.history, s.config;
    assert CostsWithin(h, c.minCost, c.maxCost) by {
      forall i | 0 <= i < |h|
        ensures h[i].produced >= 0 && c.minCost <= h[i].productionCost <= c.maxCost &&
                h[i].spent == h[i].produced * h[i].productionCost
      {
        assert EntryOk(c, h, i);
      }
    }
    AvgInventoryCostWithinBounds(h, s.productionCost, c.minCost, c.maxCost);
  }

  /** The summary agrees with the ledger: the cash profit is the sum of the
      day profits; with no day played the stock is valued at zero; otherwise
      the two stock figures are the last record's, and the value created is
      the last cumulative profit plus the last stock value. */
  lemma SummaryMatchesLedger(s: Session)
    requires Valid(s) && s.Running?
    ensures Summarize(s).totalValueCreated == Summarize(s).profit + Summarize(s).inventoryValue
    ensures Summarize(s).profit == TotalProfit(s.history)
    ensures s.history == [] ==>
              Summarize(s).profit == 0 && Summarize(s).inventoryValue == 0 && Summarize(s).inventoryCost == 0
    ensures s.history != [] ==>
              var last := s.history[|s.history| - 1];
              Summarize(s).inventoryValue == last.inventoryValue &&
              Summarize(s).inventoryCost == last.inventoryCost &&
              Summarize(s).totalValueCreated == last.cumulativeProfit + last.inventoryValue
  {
    var h := s.history;
    if h != [] {
      assert EntryOk(s.config, h, |h| - 1);
      assert h[..|h|] == h;
    }
  }

  /** With the usual non-positive coefficient, a higher candidate price
      never previews more customers. */
  lemma PreviewNonIncreasingInPrice(s: Session, low: int, high: int)
    requires Valid(s) && s.Running?
    requires s.config.demandCoeff <= 0 && low <= high
    ensures Preview(s, high) <= Preview(s, low)
  {
    CatalogScenario(s.scenario);
    DemandNonIncreasingInPrice(s.config.baseDemand, s.config.demandCoeff, s.scenario.multiplier, low, high);
  }

  // ---------------------------------------------------------------------
  // A worked example

  /** A one-day game with the default settings but a single day: the
      holiday scenario (multiplier 1.8) at a unit cost of 10, twenty toys
      made and priced at 15. Demand is 60 - 2 * 1.8 * 15 = 6 customers, so
      six toys sell; the game is then over, the drawn cost is not taken,
      and the value created is the cash loss plus the fourteen unsold toys
      at 15 each. */
  lemma ExampleOneDayGame()
    ensures var c := Config(1, 200, 0, 8, 18, 60, -2, 10);
            var s := Running(c, 200, 0, 1, 10, ScenarioAt(0), []);
            var t := Resolve(s, 20, 15, 12, ScenarioAt(1));
            Preview(s, 15) == 6 &&
            t.history[0].sales == 6 && t.history[0].revenue == 90 &&
            t.history[0].spent == 200 && t.history[0].roundProfit == -110 &&
            t.cash == 90 && t.inventory == 14 &&
            IsFinished(t) && t.productionCost == 10 &&
            Summarize(t) == Summary(-110, 210, 140, 100)
  {
    assert LinearDemand(60, -2, 1.8, 15) == 6.0;
  }
}
