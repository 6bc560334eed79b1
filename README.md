# btcbot trading decision engine, in Dafny

A model of the decision core of `btcbot`, an unattended bot that polls the
USD-BTC last-traded price every five seconds, reports which previously
acquired lot it would sell (the cheapest one whose rate is at least the lot
margin below the price, with its profit net of a 0.15% fee), and lowers its
in-memory buy threshold to the price whenever the price has fallen at least
the margin below it. All money is in integers scaled by 1000.

Modules, leaf first:

- `Wrappers` (`wrappers.dfy`): `Option` and `Result`.
- `FixedPoint` (`fixed_point.dfy`): truncating division, the feed's decimal
  type as `coefficient * 10^exponent`, and its conversion to thousandths
  (multiply by 1000, keep the integer part).
- `Startup` (`startup.dfy`): resolution of database, key and secret from the
  prefixed environment and the flags, as a function (`Resolve`) and as the
  step-by-step overwrites the program performs (`ResolveSettings`).
- `Decision` (`decision.dfy`): the pure per-tick rules: the sell query as a
  relation (`IsSellChoice`: any cheapest qualifying lot, or none exactly when
  none qualifies) with one admissible implementation, the fee and profit,
  and the buy ratchet.
- `Engine` (`engine.dfy`): the class `TradingEngine` holding the four
  configuration values read at startup and the ledger, its `Tick` method
  and a bounded `Run` over a sequence of observations (`None` is a feed
  error), with the threshold over a run given by `BuyRateAfter`.
- `Scenarios` (`scenarios.dfy`): worked cases with the default configuration
  and a client of `Tick`.

What the program does, which a reader might not expect:

- The fee is truncated toward zero (`int(0.0015*float64(last))`), not rounded.
- The sell check only reports; no lot is deleted and no balance is credited.
- The buy check only reassigns the local `buyrate`; it inserts no lot and the
  new threshold is not written back to the `config` table, so it is lost on
  restart.
- `stagnantwait` is loaded and never used.

## Model

| member | source | states |
|---|---|---|
| `FixedPoint.ScaleToMilli` | btcbot.go:112 | the price is multiplied by 1000 exactly and its integer part taken: exact for non-negative exponents, otherwise truncated toward zero (the magnitude bound and the sign of the input) |
| `Startup.Resolve` | btcbot.go:39-55 | resolution succeeds exactly when each setting has a non-empty flag or a non-empty prefixed environment variable; on success all three are non-empty, a non-empty flag wins and an empty flag leaves the environment value |
| `Startup.ResolveSettings` | btcbot.go:39-55 | reading the environment and then overwriting with each non-empty flag, followed by the emptiness check, yields exactly `Resolve` |
| `Startup.FlagsShadowEnvironment` | btcbot.go:43-51 | with all three flags given, the environment has no effect and the flags are the settings |
| `Startup.EnvironmentDecidesWithoutFlags` | btcbot.go:39-41 | with no flags, only the three prefixed variables decide the outcome |
| `Decision.CheapestQualifying` | btcbot.go:115-125 | the lot returned qualifies (rate at most price minus margin), is in the ledger and no qualifying lot is cheaper; nothing is returned exactly when no lot qualifies |
| `Decision.SellChoiceRateDetermined` | btcbot.go:115 | all answers the query may give agree on whether there is a lot and on its rate, whatever the tie-break |
| `Decision.SellChoiceIgnoresOrder` | btcbot.go:115 | the admissible answers depend on the table's rows and not on their order |
| `Decision.Fee` | btcbot.go:135 | the fee is 15/10000 of the price truncated toward zero; for a non-negative price it is between 0 and the price |
| `Decision.Profit` | btcbot.go:135 | for a non-negative price the profit is at most price minus rate and at least minus the rate |
| `Decision.EvaluateSale` | btcbot.go:115-137 | the sell check reports a cheapest qualifying lot, at the tick's price, with profit price minus rate minus fee, and reports nothing exactly when no lot qualifies |
| `Decision.SaleProfitDetermined` | btcbot.go:125-135 | the reported profit is the same whichever equally cheap lot the query returns |
| `Decision.NextBuyRate` | btcbot.go:140-144 | a buy sets the threshold to the price, otherwise it is unchanged; it either stays or falls to at least the margin below; with a non-negative margin it never rises, and with a positive margin it falls exactly when the buy fires |
| `Decision.RatchetSettles` | btcbot.go:140-144 | with a positive margin, a second tick at the same price does not buy again and leaves the threshold where the first left it |
| `Engine.TradingEngine.constructor` | btcbot.go:92-100 | the engine starts from the balance, threshold, margin and window of the configuration row and the given ledger |
| `Engine.TradingEngine.Tick` | btcbot.go:105-145 | a feed error reports only the error and changes nothing; otherwise the report holds the scaled price, an admissible sale report and the buy (if the check fired); only the threshold may change, to `NextBuyRate` of the old one, and the ledger, balance, margin and window are unchanged |
| `Engine.TradingEngine.Run` | btcbot.go:102-148 | one report per observation, each the report of a tick at the threshold left by the observations before it; the final threshold is `BuyRateAfter` of the observations; nothing else changes |
| `Engine.BuyRateNeverRises` | btcbot.go:140-144 | with a non-negative margin, no run ends with a higher threshold than it started with |
| `Engine.BuyRateNonIncreasing` | btcbot.go:102-148 | with a non-negative margin, the threshold after a later tick is at most the threshold after an earlier one |
| `Engine.Prices` | btcbot.go:108-111 | the delivered prices of a run hold no feed error and are no more than the observations |
| `Engine.PricesKeepDelivered` | btcbot.go:108-111 | each delivered price occurs among the delivered prices exactly as often as among the observations, so none is lost |
| `Engine.FeedErrorsIgnored` | btcbot.go:108-110 | a run ends with the same threshold as a run over its delivered prices alone |
| `Scenarios.PriceScaling` | btcbot.go:112 | 9200.0123 scales to 9200012, its negative to -9200012, and 92e2 to 9200000 |
| `Scenarios.CheapestLotIsSold` | btcbot.go:115 | with lots at 9000.000, 9050.000 and 9100.000, price 9200.000 and margin 50.000, only the 9000.000 lot may be reported |
| `Scenarios.SaleProfit` | btcbot.go:135 | selling the 9000.000 lot at 9300.000 costs a fee of 13.950 and reports 286.050 |
| `Scenarios.FeeTruncates` | btcbot.go:135 | the fee on 0.999 is 0.001 and on 0.666 is 0: truncated, not rounded |
| `Scenarios.BuyBoundary` | btcbot.go:140-144 | with threshold 9200.000 and margin 100.000 a buy fires at 9100.000 and not at 9100.001 |
| `Scenarios.NegativeMarginRaisesThreshold` | btcbot.go:140-144 | a negative margin lets a buy raise the threshold, so monotonicity needs a non-negative margin |

## Left out

- Command-line parsing (`go-flags`) and its fatal error: the parsed flags are an input `Options`.
- `os.Getenv`: the environment is an input map.
- `fileExists`/`os.Stat`, opening the SQLite database, schema creation, the default seed row, the confirmation prompt (`Scanln`), and reading the configuration row: the engine is constructed from the four configuration values and the ledger.
- The `btcprice` table is read anew on every tick; the model fixes the ledger when the engine is constructed, assuming the table does not change during a run (nothing in the program writes to it).
- Store failures (`Prepare`, `Query`, `Scan` errors are fatal in the program): the ledger is an in-memory sequence that cannot fail to be read.
- The exchange client `GetTicker`: each tick's result is an input `Option<Decimal>`, `None` standing for any error.
- `time.Sleep`, printing and the unbounded loop: `Run` takes a finite sequence of observations and returns the reports that would have been printed.
- Statement and row handles that the loop opens and never closes (`defer` inside the loop): resource use is not modelled.
- Go's 64-bit `int`: prices, rates and margins are unbounded integers, so overflow of `last - amount`, `buyrate - amount` or of the 64-bit integer part is not modelled.
- Decision.Fee: the program multiplies in float64 and the model uses the exact product. The double nearest 0.0015 is slightly larger than 0.0015, and the exact fee's fractional part is a multiple of 1/2000, so truncating the float64 product gives the exact truncated fee for every price well below 10^15 thousandths; the two can differ only where float64 no longer holds the product to within 1/2000.
- The shopspring `decimal` multiplication is modelled by its exact value; its internal rescaling is not.
