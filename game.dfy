/** The running game as the page script keeps it: session fields that the
    start button, the end-of-day button and the reset buttons update in
    place. Each method is tied to the value model of module Lifecycle
    through `State()`, and keeps the ledger invariant `Valid()`. */
module ToyShop {
  import opened Scenarios
  import opened Economics
  import Lifecycle

  class Game {
    var started: bool
    var config: Lifecycle.Config
    var cash: int
    var inventory: int
    var currentRound: int
    var currentProductionCost: int
    var currentScenario: Scenario
    var history: seq<RoundRecord>

    /** The session these fields hold; unconfigured until a game starts. */
    ghost function State(): Lifecycle.Session
      reads this
    {
      if started then
        Lifecycle.Running(config, cash, inventory, currentRound, currentProductionCost, currentScenario, history)
      else
        Lifecycle.Unconfigured
    }

    ghost predicate Valid()
      reads this
    {
      Lifecycle.Valid(State())
    }

    /** A fresh session: nothing configured. */
    constructor ()
      ensures Valid() && State() == Lifecycle.Unconfigured
    {
      started := false;
      config := Lifecycle.Config(1, 0, 0, 1, 1, 0, 0, 0);
      cash, inventory, currentRound, currentProductionCost := 0, 0, 1, 1;
      currentScenario := ScenarioAt(0);
      history := [];
    }

    /** The start button. Nothing happens when the minimum cost exceeds the
        maximum; otherwise the session becomes day 1 with the drawn cost and
        scenario. */
    method StartGame(c: Lifecycle.Config, drawnCost: int, drawnScenario: Scenario) returns (ok: bool)
      requires State() == Lifecycle.Unconfigured
      requires Lifecycle.HostBounds(c)
      requires c.minCost <= c.maxCost ==> Lifecycle.ValidDraw(c, drawnCost, drawnScenario)
      modifies this
      ensures Valid()
      ensures ok <==> c.minCost <= c.maxCost
      ensures Lifecycle.Start(c, drawnCost, drawnScenario) ==
              if ok then Lifecycle.Started(State()) else Lifecycle.Rejected(Lifecycle.MinCostAboveMaxCost)
      ensures !ok ==> State() == old(State())
    {
      if c.minCost > c.maxCost {
        ok := false;
        return;
      }
      started := true;
      config := c;
      cash := c.startingCash;
      inventory := c.startingInventory;
      currentRound := 1;
      currentProductionCost := drawnCost;
      history := [];
      currentScenario := drawnScenario;
      ok := true;
    }

    /** The end-of-day button, step by step: production, sale, the day's
        record, then the day counter, then the next draw if the game goes
        on. The result is the value model's `Resolve`. */
    method ResolveRound(produceQty: int, price: int, nextCost: int, nextScenario: Scenario)
      requires Valid()
      requires Lifecycle.CanResolve(State(), produceQty, price)
      requires Lifecycle.ValidDraw(config, nextCost, nextScenario)
      modifies this
      ensures Valid()
      ensures State() == Lifecycle.Resolve(old(State()), produceQty, price, nextCost, nextScenario)
    {
      ghost var before := State();
      var productionCost := currentProductionCost;
      var spent := Produce(produceQty);
      var demand, sales, revenue := Sell(price);
      var roundProfit := revenue - spent;
      var cumulativeProfit := TotalProfit(history) + roundProfit;
      var inventoryValue := inventory * price;
      var inventoryCost := inventory * productionCost;
      var entry := RoundRecord(currentRound, currentScenario.name, productionCost, produceQty, price,
                               demand, sales, revenue, spent, roundProfit, cash, inventory,
                               inventoryValue, inventoryCost, cumulativeProfit);
      assert entry == Lifecycle.DayRecord(before, produceQty, price);
      history := history + [entry];
      Advance(nextCost, nextScenario);
      ghost var after := Lifecycle.Resolve(before, produceQty, price, nextCost, nextScenario);
      assert after.history == history && after.cash == cash && after.inventory == inventory;
      assert after.currentRound == currentRound;
      assert after.productionCost == currentProductionCost && after.scenario == currentScenario;
      assert State() == after;
      Lifecycle.ResolvePreservesValid(before, produceQty, price, nextCost, nextScenario);
    }

    /** Production: pay for today's units and add them to the stock. This
        is a step of `ResolveRound` only; `Valid()` holds around the whole
        day, not after this step alone. */
    method Produce(produceQty: int) returns (spent: int)
      modifies this`cash, this`inventory
      ensures spent == produceQty * currentProductionCost
      ensures cash == old(cash) - spent && inventory == old(inventory) + produceQty
    {
      spent := produceQty * currentProductionCost;
      cash := cash - spent;
      inventory := inventory + produceQty;
    }

    /** Sales: the demand for today's scenario at `price`, capped by the
        stock, paid for at `price` and taken out of the stock. A step of
        `ResolveRound` only, between production and the day's record. */
    method Sell(price: int) returns (demand: nat, sales: int, revenue: int)
      modifies this`cash, this`inventory
      ensures demand == Demand(config.baseDemand, config.demandCoeff, currentScenario.multiplier, price)
      ensures sales == Min(demand, old(inventory)) && revenue == sales * price
      ensures cash == old(cash) + revenue && inventory == old(inventory) - sales
    {
      demand := Demand(config.baseDemand, config.demandCoeff, currentScenario.multiplier, price);
      sales := Min(demand, inventory);
      revenue := sales * price;
      cash := cash + revenue;
      inventory := inventory - sales;
    }

    /** The day counter moves on; the next cost and scenario are taken from
        the draw only while days remain. The last step of `ResolveRound`,
        after the day's record has been appended. */
    method Advance(nextCost: int, nextScenario: Scenario)
      modifies this`currentRound, this`currentProductionCost, this`currentScenario
      ensures currentRound == old(currentRound) + 1
      ensures currentRound <= config.numRounds ==>
                currentProductionCost == nextCost && currentScenario == nextScenario
      ensures currentRound > config.numRounds ==>
                currentProductionCost == old(currentProductionCost) && currentScenario == old(currentScenario)
    {
      currentRound := currentRound + 1;
      if currentRound <= config.numRounds {
        currentProductionCost := nextCost;
        currentScenario := nextScenario;
      }
    }

    /** Either reset button (play again after the end, or abandon a game in
        progress): back to an unconfigured session. */
    method Reset()
      requires State().Running?
      modifies this
      ensures Valid() && State() == Lifecycle.Unconfigured
    {
      started := false;
      history := [];
    }
  }
}
