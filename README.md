# Stock trading simulator, modelled in Dafny

A model of the console stock trading simulator in `StockTradingSimulator.java`.
The simulator lists four stocks. Their prices take a random step of up to 5%
every turn. One portfolio holds cash and a map from ticker to share count.
Each turn the user types BUY, SELL or EXIT. A BUY or SELL asks for a ticker
and a quantity, validates both, and then trades at the current price.

Money is exact: prices and cash are whole numbers of cents (`int`). The source
rounds every price to the cent, so cents lose nothing. The random step works on
exact reals.

Modules, one per component of the program:

- `Market` (`market.dfy`): the `Stock` class, the price step `Moved`
  (`updatePrice` with the draw of `Math.random` as a parameter), and the
  loop that steps every stock.
- `Ledger` (`ledger.dfy`): the portfolio as a value (`Account`). It holds
  the pure `Buy` and `Sell` with their invariants and frame. It also holds
  the round trips and the market value `Worth` that the portfolio report adds
  to the cash.
- `Portfolios` (`portfolio.dfy`): the `Portfolio` class. Its `cash` and
  `holdings` fields are updated in place by `Buy` and `Sell`. These two are
  specified by the `Ledger` functions of the same names. `TotalValue` is the
  summing loop of `printPortfolio`, specified by `Ledger.Total`.
- `Session` (`session.dfy`): the guard chain of `tradeStock` (`Decide`), the
  command switch, one loop iteration (`Step`, `PlayTurn`), and the whole loop
  (`Replay`, `Run`). It proves that the whole session keeps the ledger
  invariant and that only EXIT ends it.
- `Counts` (`counts.dfy`): the share count as a Java `int`, for the finding
  below.

Two notes on the price step, both proved in `Market`:

- The new price lies within 5% of the old one only up to half a cent.
  Rounding can leave the band: 11 cents falling 5% gives 10.45, which rounds
  to 10 (`RoundingLeavesBand`).
- With exact arithmetic a price of at least one cent can never reach zero
  (`MovedStaysPositive`). 1 cent dropping 5% is 0.95 cents, and 0.95 rounds
  half-up to 1 cent.

## Model

| member | source | states |
|---|---|---|
| `Market.RoundHalfUp` | StockTradingSimulator.java:25 | the rounded value is within half a unit of its argument, ties going up |
| `Market.Stock.constructor` | StockTradingSimulator.java:8-11 | a new stock has the given ticker and initial price |
| `Market.Stock.UpdatePrice` | StockTradingSimulator.java:21-26 | the price becomes the old price moved by the drawn percentage and rounded to the cent |
| `Market.MovedWithinBand` | StockTradingSimulator.java:21-26 | for a draw in [0, 1), the new price is strictly within half a cent of the band from 95% to 105% of the old price |
| `Market.SteppedWithinBand` | StockTradingSimulator.java:23-24 | before rounding, a positive price moves by at least -5% and by less than +5% |
| `Market.RoundingLeavesBand` | StockTradingSimulator.java:23-25 | rounding can take a price below 95% of the old one: 11 cents at the lowest draw becomes 10 cents |
| `Market.MovedStaysPositive` | StockTradingSimulator.java:21-26 | a price of at least one cent stays at least one cent after a step |
| `Market.MovedAllStaysPositive` | StockTradingSimulator.java:99-101 | after a market step every price is still at least one cent |
| `Market.UpdateMarket` | StockTradingSimulator.java:99-101 | every listed stock takes exactly one step, driven by its own draw, and no other price changes |
| `Ledger.Buy` | StockTradingSimulator.java:43-52 | succeeds exactly when cash covers price times quantity; on success cash drops by exactly that cost and the count grows by the quantity; otherwise the account is unchanged; other tickers are untouched; cash >= 0 and positive counts are preserved for a positive quantity and non-negative price |
| `Ledger.Sell` | StockTradingSimulator.java:54-66 | succeeds exactly when the held count covers the quantity; on success cash grows by price times quantity, the count drops by the quantity and a count reaching zero leaves the map; otherwise the account is unchanged; other tickers are untouched; the ledger invariant is preserved |
| `Ledger.BuyThenSellRestores` | StockTradingSimulator.java:43-66 | a successful buy followed by selling the same quantity at the same price restores the original cash and holdings |
| `Ledger.SellThenBuyRestores` | StockTradingSimulator.java:43-66 | a successful sell followed by buying the same quantity at the same price restores the original cash and holdings |
| `Ledger.OpeningScenario` | StockTradingSimulator.java:88-93 | from $10,000.00, buying 10 AAPL at $150.00 leaves $8,500.00 and 10 AAPL; selling the 10 at any later price p leaves $8,500.00 + 10p and no holdings |
| `Ledger.Worth` | StockTradingSimulator.java:70-75 | the market value of the holdings is non-negative when counts and prices are |
| `Ledger.WorthRemove` | StockTradingSimulator.java:71-75 | the value sum does not depend on the order of the keys: any held ticker can be taken out first |
| `Ledger.BuyAtMarketKeepsTotal` | StockTradingSimulator.java:43-75 | a buy at the current price leaves the reported total value unchanged and only adds a listed ticker |
| `Ledger.SellAtMarketKeepsTotal` | StockTradingSimulator.java:54-75 | a sell at the current price leaves the reported total value unchanged |
| `Portfolios.Portfolio.constructor` | StockTradingSimulator.java:38-41 | a new portfolio has the initial cash and no holdings, and is valid when that cash is non-negative |
| `Portfolios.Portfolio.Buy` | StockTradingSimulator.java:43-52 | the receipt and the new cash and holdings are those of `Ledger.Buy` on the old state at the stock's price |
| `Portfolios.Portfolio.Sell` | StockTradingSimulator.java:54-66 | the receipt and the new cash and holdings are those of `Ledger.Sell` on the old state at the stock's price |
| `Portfolios.Portfolio.TotalValue` | StockTradingSimulator.java:68-80 | the accumulated total equals cash plus the sum of count times current price over the holdings |
| `Session.Decide` | StockTradingSimulator.java:137-154 | an unknown ticker aborts first, then an unparsable quantity, then a non-positive one; a trade runs exactly when the ticker is listed and the quantity parsed and is positive |
| `Session.ApplyTrade` | StockTradingSimulator.java:133-162 | an aborted command leaves the account unchanged; a trade changes only the traded ticker, keeps the ledger invariant and adds only listed tickers |
| `Session.TradeDispatch` | StockTradingSimulator.java:156-161 | a command that passes the guards runs exactly one of buy or sell, chosen by the action |
| `Session.TradeKeepsTotal` | StockTradingSimulator.java:133-162 | a command of `tradeStock` never changes the reported total value |
| `Session.TradeStock` | StockTradingSimulator.java:133-162 | returns the decision of the guard chain and leaves the portfolio as `ApplyTrade` says |
| `Session.ParseCommand` | StockTradingSimulator.java:115-127 | "BUY", "SELL" and "EXIT" each select exactly their own command; any other line is invalid |
| `Session.Step` | StockTradingSimulator.java:97-127 | one iteration steps every price; BUY runs `tradeStock`'s buy and SELL its sell at the new prices; the loop keeps running exactly when the command is not EXIT; any other command leaves the account unchanged |
| `Session.PlayTurn` | StockTradingSimulator.java:97-127 | the portfolio, the prices and the running flag after one iteration are those of `Step` |
| `Session.Replay` | StockTradingSimulator.java:96-128 | the loop never changes the set of listed tickers and does nothing once stopped |
| `Session.StepKeepsSound` | StockTradingSimulator.java:97-127 | one iteration keeps cash non-negative, counts positive, every held ticker listed and every price at least one cent |
| `Session.ReplayKeepsSound` | StockTradingSimulator.java:96-128 | the whole session keeps cash non-negative, counts positive, every held ticker listed and every price at least one cent |
| `Session.ReplayStopsAtExit` | StockTradingSimulator.java:96-128 | the session stops exactly when some command is EXIT |
| `Session.ReplayIgnoresAfterExit` | StockTradingSimulator.java:122-128 | input after the EXIT that ended the session changes nothing |
| `Session.Run` | StockTradingSimulator.java:96-128 | the final portfolio, prices and flag are those of `Replay`; the loop reads turns up to and including the first EXIT, or all of them |
| `Counts.Wrap32` | StockTradingSimulator.java:47 | a Java `int` addition wraps modulo 2^32 into the 32-bit range and is exact inside it |
| `Counts.BuyAsWritten` | StockTradingSimulator.java:43-52 | the 32-bit buy agrees with `Ledger.Buy` while the new count fits in an `int` |
| `Counts.BuyAsWrittenOverflows` | StockTradingSimulator.java:47 | one more share on top of 2^31 - 1 held gives a negative count, breaking the ledger invariant |

## Left out

- Console output: the market listing, the portfolio lines, the messages and the `%.2f` formatting. The receipts (`Receipt`) and decisions (`Decision`) stand for the messages.
- Console input: each turn is a `Turn` value. Its command and ticker are taken as already upper-cased; `toUpperCase` is not modelled.
- `Integer.parseInt`: the quantity is `Parsed(n)` with `n` a 32-bit value, or `Malformed` for the exception path.
- `Math.random`: the draw in [0, 1) for each stock and turn is part of the input.
- The end of the input: Java's `nextLine` throws when no line is left. `Run` then simply stops and reports that the loop was still running.
- Floating point: cash and prices are exact cents, and the price step uses exact reals. IEEE rounding in `price * quantity`, `cash -= ...` and `totalValue += ...` is not modelled.
- The order in which `HashMap` visits the stocks and the holdings: each stock's draw is keyed by its ticker, and the total is proved independent of the order.
- `Stock.toString` and the getters: the getters are plain field reads. The startup data of `main` appears only as `Ledger.OpeningScenario`.
- `Ledger.Buy`: the share count is unbounded, and so are the counts of `Portfolios.Portfolio` and `Session`; the 32-bit wrap of the source's count appears only in `Counts` (see Findings). `Session.ReplayKeepsSound` is therefore about the program with this overflow corrected.
- `Ledger.Sell`, `Portfolios.Portfolio.Sell`: these require a positive quantity or a held ticker. With neither, the source unboxes a missing count and throws.

## Findings

| source | as written | input that shows it | evidently intended | confidence | as-written member | corrected member |
|---|---|---|---|---|---|---|
| StockTradingSimulator.java:47 | the new count `getOrDefault(...) + quantity` is a 32-bit `int` sum that wraps | hold 2147483647 AAPL with 1 cent of cash, AAPL at 1 cent, buy 1: the count becomes -2147483648 | the count grows by the quantity, so it stays positive | low: reaching the state needs more than $21 million of purchases; not executed | `Counts.BuyAsWritten`, `Counts.BuyAsWrittenOverflows` | `Ledger.Buy` |
