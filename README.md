# Toy-shop game: round engine and game lifecycle

The toy-shop game is a single-player, turn-based shop simulation. The player
first picks the settings:

- the number of days;
- starting cash and inventory;
- the range a day's unit production cost is drawn from;
- the base demand and the price coefficient of a linear demand curve;
- a minimum selling price.

Each day has a randomly drawn unit cost and a randomly drawn demand scenario
(for example "Holiday Season", multiplier 1.8). The player chooses how many
toys to make and what price to set. Ending the day works in this order:

1. The player pays for production.
2. Demand is computed as `int(max(0, base + coeff * multiplier * price))`.
3. The shop sells the smaller of demand and stock.
4. The shop takes the revenue.
5. A record of the day is appended to the history.
6. The day counter advances.
7. A new cost and scenario are drawn, but only while days remain.

When the last day is over, the game shows a summary:

- the cash profit;
- the stock left over, valued at the last price (a valuation at the last
  unit cost is computed as well, but not shown);
- the total value created.

The project models that engine and its lifecycle, and proves the ledger
invariants the game relies on.

- `scenarios.dfy` (module `Scenarios`): the fixed catalog of ten scenarios,
  each with a name, an opaque narrative and a positive multiplier. Entries
  are addressed by position.
- `economics.dfy` (module `Economics`) covers the arithmetic of one day and
  of the history:
  - the demand formula;
  - the production cap `cash // cost`;
  - the day record;
  - column totals over the history;
  - the average production cost shown to the player.
- `lifecycle.dfy` (module `Lifecycle`) is the game as a value:
  - the settings (`Config`);
  - the session (`Unconfigured` or `Running`);
  - starting a game (`Start`), ending a day (`Resolve`) and the end-of-game
    figures (`Summarize`);
  - the ledger invariant `Valid`, proved to hold at the start and to be
    kept by every day;
  - what the invariant gives: profit bookkeeping, the bounds on the
    average cost and agreement between the summary and the ledger.
- `game.dfy` (module `ToyShop`): class `Game`, the mutable session the
  page's buttons update in place. Its start, end-of-day and reset
  methods change the fields step by step. Each is proved to produce
  exactly the value model's result and to keep `Valid`.

Money is whole dollars (`int`), as the game's integer inputs give. The
scenario multiplier, the effective coefficient and the average cost are
`real`. Python's `int()` of a non-negative number is its floor, and Python's
`//` by a positive cost is Dafny's `/`.

The accounting is that of the page script itself:

- A day's profit is its revenue less its production spend. The record has
  no cost-of-goods-sold field and no weighted-average costing.
- A record's `inventory_cost` values the stock at that day's unit cost.
- The total value created is the cash profit plus the stock valued at the
  last price, not at cost.
- The average cost shown on an open day is taken over the finished days
  only. Today's production is not included.

## Model

| member | source | states |
|---|---|---|
| Scenarios.ScenarioAt | streamlit_app.py:48-99 | each of the ten catalog entries has a positive multiplier and carries the narrative of its own position |
| Scenarios.CatalogNamesDistinct | streamlit_app.py:48-99 | no two catalog entries share a name |
| Scenarios.CatalogScenario | streamlit_app.py:48-99 | any scenario a draw can give has a positive multiplier, its name is a catalog name, and its name determines it |
| Economics.Demand | streamlit_app.py:348-349 | demand is a natural number: zero when the linear demand is not positive, otherwise the whole number of customers just below the linear demand |
| Economics.DemandNonIncreasingInPrice | streamlit_app.py:326 | with a non-positive coefficient and a non-negative multiplier, raising the price never raises demand |
| Economics.DemandAtMostBase | streamlit_app.py:349 | with a non-positive coefficient, demand at a non-negative price never exceeds the base demand |
| Economics.MaxProduce | streamlit_app.py:308 | with a positive cost, the cap is the largest count whose cost fits in the cash; with a non-positive cost it is 0; with non-negative cash it is non-negative |
| Economics.FloorDivBounds | streamlit_app.py:308 | floor division by a positive divisor lands between the quotient times the divisor and one divisor more |
| Economics.ProductionAffordable | streamlit_app.py:343-344 | producing at most the cap costs between 0 and the cash on hand |
| Economics.TotalProduced | streamlit_app.py:330 | units produced over the history; `TotalsAppend` (one record adds its units) and `SpentBetweenCostBounds` (non-negative, and bounds spend) state it |
| Economics.TotalSpent | streamlit_app.py:331 | production spend over the history; `TotalsAppend` and `SpentBetweenCostBounds` state it |
| Economics.TotalProfit | streamlit_app.py:359 | summed day profits over the history; `TotalsAppend`, `TotalProfitIsRevenueLessSpent` and `ProfitBookkeeping` (each record's cumulative profit is this sum up to it) state it |
| Economics.TotalsAppend | streamlit_app.py:330-331 | appending one record adds exactly its amounts to every column total |
| Economics.TotalProfitIsRevenueLessSpent | streamlit_app.py:356-359 | when each day's profit is revenue less spend, the summed profit is summed revenue less summed spend |
| Economics.SpentBetweenCostBounds | streamlit_app.py:330-331 | if every day bought at a cost in [lo, hi], total spend lies between lo and hi times the units produced |
| Economics.AvgInventoryCost | streamlit_app.py:329-337 | with units produced, the average times the units equals the total spend; otherwise, including an empty history, it is today's cost |
| Economics.AvgInventoryCostWithinBounds | streamlit_app.py:329-337 | if every cost paid, and today's cost, lie in [lo, hi], the average lies in [lo, hi] |
| Economics.AvgInventoryCostIgnoresIdleDay | streamlit_app.py:329-337 | once something has been produced, a day that produced nothing leaves the average unchanged |
| Lifecycle.IsFinished | streamlit_app.py:232 | the game-over test, day counter above the number of days; its meaning is stated by `PhaseOf` and `ResolveAdvances` (finished exactly once the last day has ended) |
| Lifecycle.PhaseOf | streamlit_app.py:232 | the game is over exactly when the day counter exceeds the number of days, it is configuring exactly when no game is running, and an open day's phase carries the current day number |
| Lifecycle.Start | streamlit_app.py:210-228 | the start button as a value; its contract is `StartOutcomes` (refused exactly when min cost exceeds max cost, else day 1 of a fresh valid session) |
| Lifecycle.StartOutcomes | streamlit_app.py:210-227 | start is refused exactly when min cost exceeds max cost; otherwise day 1 with the starting cash and stock, an empty history and the drawn cost and scenario, in a valid session |
| Lifecycle.Preview | streamlit_app.py:326 | the demand estimate shown before the day ends; `ResolveConserves` proves the sale uses the same demand, `PreviewNonIncreasingInPrice` that it never rises with price |
| Lifecycle.DayRecord | streamlit_app.py:343-383 | the record the end-of-day button writes; `ResolveConserves` states its sales, conservation and running figures, `NewEntryOk` that it is valid at its position |
| Lifecycle.Resolve | streamlit_app.py:341-404 | the end-of-day button as a value; its contract is `ResolveAppendsOneRecord`, `ResolveConserves`, `ResolveStaysSolvent`, `ResolveAdvances` and `ResolvePreservesValid` |
| Lifecycle.ResolveAppendsOneRecord | streamlit_app.py:366-399 | ending a day appends exactly one record, keeps the earlier records and the settings, stamps the record with the day that ended and its scenario name, and adds one to the counter |
| Lifecycle.ResolveConserves | streamlit_app.py:343-363 | the sale uses the same demand as the preview; sales are the smaller of demand and stock after production; stock and cash are conserved; the running figures agree with the new session |
| Lifecycle.ResolveStaysSolvent | streamlit_app.py:343-353 | on an allowed day, cash after production and cash and stock after the day are non-negative |
| Lifecycle.ResolveAdvances | streamlit_app.py:399-404 | the next cost and scenario are the draws exactly when days remain, otherwise unchanged; the game becomes finished exactly when the last day ends |
| Lifecycle.LedgerExtend | streamlit_app.py:383 | appending a record that is valid at its position keeps the whole ledger valid |
| Lifecycle.NewEntryOk | streamlit_app.py:343-383 | the record written by ending a day is valid at its position in the history |
| Lifecycle.ResolvePreservesValid | streamlit_app.py:341-404 | an allowed day with allowed draws keeps the ledger invariant |
| Lifecycle.Summarize | streamlit_app.py:234-245 | the game-over figures; its contract is `SummaryMatchesLedger` (profit is the summed day profits, stock valued at the last record's price and cost or 0, value created is profit plus the stock at the last price) |
| Lifecycle.ProfitBookkeeping | streamlit_app.py:356-377 | each record's cumulative profit is the sum of the day profits up to it and its cash is the starting cash plus that sum; current cash less starting cash is total profit, and is also total revenue less total spend |
| Lifecycle.AvgInventoryCostInRange | streamlit_app.py:329-337 | in a valid game the average cost stays within the configured cost range |
| Lifecycle.SummaryMatchesLedger | streamlit_app.py:234-245 | the profit is the summed day profits; with no days both stock figures are 0; otherwise they are the last record's and the value created is the last cumulative profit plus the last stock value |
| Lifecycle.PreviewNonIncreasingInPrice | streamlit_app.py:326 | with a non-positive coefficient, a higher candidate price never previews more customers |
| Lifecycle.ExampleOneDayGame | streamlit_app.py:341-404 | a one-day holiday game, 20 toys at cost 10 sold at 15: demand 6, cash 90, stock 14, game over with the drawn cost not taken, summary (-110, 210, 140, 100) |
| ToyShop.Game.constructor | streamlit_app.py:164 | a new session has no game configured and is valid |
| ToyShop.Game.StartGame | streamlit_app.py:210-228 | on a valid draw, start succeeds exactly when min cost is not above max cost; on success the fields hold the session `Start` gives; on refusal nothing changes |
| ToyShop.Game.ResolveRound | streamlit_app.py:341-404 | the in-place day leaves exactly the session `Resolve` gives and keeps the ledger invariant |
| ToyShop.Game.Produce | streamlit_app.py:343-345 | spend is count times today's cost; cash drops by it and stock rises by the count |
| ToyShop.Game.Sell | streamlit_app.py:348-353 | demand is the scenario's demand at the price; sales are the smaller of demand and stock; revenue is sales times price, added to cash, with sales taken from stock |
| ToyShop.Game.Advance | streamlit_app.py:399-404 | the counter rises by one; the cost and scenario take the draws exactly when the new day is still in the game |
| ToyShop.Game.Reset | streamlit_app.py:282-284 | either reset button returns the session to unconfigured and valid (the abandon button is at lines 413-415) |

## Left out

- Page rendering: headers, metrics, captions, the day summary, balloons, and the profit or loss message at game over. None of it changes state.
- The history table (`display_history_table`) is formatting only.
- `reset_session` and `safe_rerun` are framework plumbing: clearing the session store and forcing a page rerun. Reset is modelled as a return to an unconfigured session.
- The random draws of a day's cost and scenario are parameters of `Start`, `Resolve` and the class methods. `ValidDraw` constrains them: a cost within the configured bounds and a catalog entry.
- The input widgets' bounds belong to the host. They appear as preconditions: `HostBounds` for the settings and `CanResolve` for a day's quantity and price.
- Python float rounding is not modelled. The products `demand_coeff * multiplier * price` and the average cost are exact reals, so a float product that rounds just below a whole number would truncate differently.
- Narrative texts are not modelled. A narrative is known only by its catalog position.
- Lifecycle.Start: when min cost exceeds max cost, the page shows an error and no start button. The model returns `Rejected(MinCostAboveMaxCost)` instead.
- ToyShop.Game.Reset requires a running game, because both reset buttons are shown only while a game is running.
