/**
 * The market session: the command loop that steps every price, reads a
 * command and dispatches it, and the validation `tradeStock` performs before
 * it hands a trade to the portfolio.
 *
 * Console input is a parameter: each turn of the loop is a `Turn` holding the
 * random draws for the price step and the lines the user types (the command
 * already upper-cased, the quantity already through `Integer.parseInt`).
 */
module Session {
  import opened Ledger
  import opened Market
  import opened Portfolios

  /** A Java `int`. */
  type Int32 = x: int | -0x8000_0000 <= x < 0x8000_0000

  /** The quantity line as `Integer.parseInt` leaves it: a 32-bit value, or a parse failure. */
  datatype Quantity = Parsed(n: Int32) | Malformed

  datatype Action = BuyOrder | SellOrder

  /** How `tradeStock` resolves its inputs: one of its three aborts, or a trade. */
  datatype Decision = InvalidTicker | InvalidQuantity | NonPositiveQuantity | Execute(quantity: int)

  /**
   * The guard chain of `tradeStock`: the ticker is checked first, then that
   * the quantity parsed, then that it is positive.
   */
  function Decide(listed: set<string>, ticker: string, quantity: Quantity): (d: Decision)
    ensures d == InvalidTicker <==> ticker !in listed
    ensures d == InvalidQuantity <==> ticker in listed && quantity.Malformed?
    ensures d == NonPositiveQuantity <==> ticker in listed && quantity.Parsed? && quantity.n <= 0
    ensures d.Execute? <==> ticker in listed && quantity.Parsed? && quantity.n > 0
    ensures d.Execute? ==> d.quantity == quantity.n
  {
    if ticker !in listed then InvalidTicker
    else match quantity
      case Malformed => InvalidQuantity
      case Parsed(n) => if n <= 0 then NonPositiveQuantity else Execute(n)
  }

  /** All listed prices are non-negative. */
  predicate NonNegative(prices: map<string, int>)
  {
    forall t :: t in prices ==> prices[t] >= 0
  }

  /**
   * The account after `tradeStock` with the given inputs at the given prices.
   * An aborted command changes nothing; a trade changes only the traded ticker,
   * keeps the ledger invariant, and only ever adds a listed ticker.
   */
  function ApplyTrade(a: Account, prices: map<string, int>, action: Action, ticker: string, quantity: Quantity): (r: Account)
    ensures !Decide(prices.Keys, ticker, quantity).Execute? ==> r == a
    ensures r.holdings - {ticker} == a.holdings - {ticker}
    ensures Valid(a) && NonNegative(prices) ==> Valid(r)
    ensures a.holdings.Keys <= prices.Keys ==> r.holdings.Keys <= prices.Keys
  {
    match Decide(prices.Keys, ticker, quantity)
    case Execute(n) =>
      if action == BuyOrder then Buy(a, ticker, prices[ticker], n).1
      else Sell(a, ticker, prices[ticker], n).1
    case _ => a
  }

  /** A command that passes the guards runs exactly one of buy or sell, chosen by the action. */
  lemma TradeDispatch(a: Account, prices: map<string, int>, action: Action, ticker: string, quantity: Quantity)
    requires Decide(prices.Keys, ticker, quantity).Execute?
    ensures var n := quantity.n;
      ApplyTrade(a, prices, action, ticker, quantity)
        == if action == BuyOrder then Buy(a, ticker, prices[ticker], n).1 else Sell(a, ticker, prices[ticker], n).1
  {
  }

  /** Trading at the current prices never changes the total the portfolio report shows. */
  lemma TradeKeepsTotal(a: Account, prices: map<string, int>, action: Action, ticker: string, quantity: Quantity)
    requires a.holdings.Keys <= prices.Keys
    ensures ApplyTrade(a, prices, action, ticker, quantity).holdings.Keys <= prices.Keys
    ensures Total(ApplyTrade(a, prices, action, ticker, quantity), prices) == Total(a, prices)
  {
    var d := Decide(prices.Keys, ticker, quantity);
    if d.Execute? {
      if action == BuyOrder {
        BuyAtMarketKeepsTotal(a, ticker, prices, d.quantity);
      } else {
        SellAtMarketKeepsTotal(a, ticker, prices, d.quantity);
      }
    }
  }

  /** `tradeStock`: validate the ticker and the quantity, then buy or sell. */
  method TradeStock(action: Action, stocks: map<string, Stock>, portfolio: Portfolio, ticker: string, quantity: Quantity)
    returns (decision: Decision)
    requires Listed(stocks)
    modifies portfolio
    ensures decision == Decide(stocks.Keys, ticker, quantity)
    ensures portfolio.State() == ApplyTrade(old(portfolio.State()), Prices(stocks), action, ticker, quantity)
  {
    if ticker !in stocks {
      return InvalidTicker;
    }
    if quantity.Malformed? {
      return InvalidQuantity;
    }
    var n := quantity.n;
    if n <= 0 {
      return NonPositiveQuantity;
    }
    var stock := stocks[ticker];
    if action == BuyOrder {
      var _ := portfolio.Buy(stock, n);
    } else {
      var _ := portfolio.Sell(stock, n);
    }
    decision := Execute(n);
  }

  /** The top-level commands; any other line is an invalid command. */
  datatype Command = BuyCommand | SellCommand | ExitCommand | InvalidCommand

  function ParseCommand(line: string): (c: Command)
    ensures c == BuyCommand <==> line == "BUY"
    ensures c == SellCommand <==> line == "SELL"
    ensures c == ExitCommand <==> line == "EXIT"
    ensures c == InvalidCommand <==> line !in {"BUY", "SELL", "EXIT"}
  {
    if line == "BUY" then BuyCommand
    else if line == "SELL" then SellCommand
    else if line == "EXIT" then ExitCommand
    else InvalidCommand
  }

  /** One turn of input: the draws for the price step, then what the user types. */
  datatype Turn = Turn(draws: map<string, real>, command: string, ticker: string, quantity: Quantity)

  /** The session state: the account, the current prices, and whether the loop goes on. */
  datatype World = World(account: Account, prices: map<string, int>, running: bool)

  /**
   * One iteration of the loop: every price steps, then the command runs. BUY
   * and SELL run `tradeStock` at the new prices, only EXIT stops the loop, and
   * every other command leaves the account alone.
   */
  function Step(w: World, turn: Turn): (r: World)
    requires w.prices.Keys <= turn.draws.Keys
    ensures r.running <==> turn.command != "EXIT"
    ensures r.prices == MovedAll(w.prices, turn.draws)
    ensures turn.command == "BUY" ==> r.account == ApplyTrade(w.account, r.prices, BuyOrder, turn.ticker, turn.quantity)
    ensures turn.command == "SELL" ==> r.account == ApplyTrade(w.account, r.prices, SellOrder, turn.ticker, turn.quantity)
    ensures turn.command != "BUY" && turn.command != "SELL" ==> r.account == w.account
  {
    var prices := MovedAll(w.prices, turn.draws);
    match ParseCommand(turn.command)
    case BuyCommand => World(ApplyTrade(w.account, prices, BuyOrder, turn.ticker, turn.quantity), prices, true)
    case SellCommand => World(ApplyTrade(w.account, prices, SellOrder, turn.ticker, turn.quantity), prices, true)
    case ExitCommand => World(w.account, prices, false)
    case InvalidCommand => World(w.account, prices, true)
  }

  /** Every turn has a draw for every listed ticker. */
  ghost predicate Covers(listed: set<string>, turns: seq<Turn>)
  {
    forall i :: 0 <= i < |turns| ==> listed <= turns[i].draws.Keys
  }

  /** Every draw is one `Math.random` can return. */
  ghost predicate FairDraws(turns: seq<Turn>)
  {
    forall i, t :: 0 <= i < |turns| && t in turns[i].draws ==> 0.0 <= turns[i].draws[t] < 1.0
  }

  /** The loop over a sequence of turns: it reads turns until EXIT or the end of the input. */
  function Replay(w: World, turns: seq<Turn>): (r: World)
    requires Covers(w.prices.Keys, turns)
    ensures r.prices.Keys == w.prices.Keys
    ensures !w.running ==> r == w
    decreases |turns|
  {
    if !w.running || turns == [] then w
    else Replay(Step(w, turns[0]), turns[1..])
  }

  /**
   * What holds of the session throughout: the ledger invariant, every held
   * ticker is listed (so the portfolio report can price it), and every price
   * is at least one cent.
   */
  ghost predicate Sound(w: World)
  {
    && Valid(w.account)
    && w.account.holdings.Keys <= w.prices.Keys
    && forall t :: t in w.prices ==> w.prices[t] >= 1
  }

  /** One turn keeps the session sound. */
  lemma StepKeepsSound(w: World, turn: Turn)
    requires w.prices.Keys <= turn.draws.Keys
    requires forall t :: t in turn.draws ==> 0.0 <= turn.draws[t] < 1.0
    requires Sound(w)
    ensures Sound(Step(w, turn))
  {
    MovedAllStaysPositive(w.prices, turn.draws);
  }

  /** The whole session keeps the ledger invariant, whatever the user types. */
  lemma {:induction false} ReplayKeepsSound(w: World, turns: seq<Turn>)
    requires Covers(w.prices.Keys, turns) && FairDraws(turns)
    requires Sound(w)
    ensures Sound(Replay(w, turns))
    decreases |turns|
  {
    if w.running && turns != [] {
      StepKeepsSound(w, turns[0]);
      ReplayKeepsSound(Step(w, turns[0]), turns[1..]);
    }
  }

  /** The session ends exactly when some turn's command is EXIT. */
  lemma {:induction false} ReplayStopsAtExit(w: World, turns: seq<Turn>)
    requires Covers(w.prices.Keys, turns)
    requires w.running
    ensures !Replay(w, turns).running <==> exists i :: 0 <= i < |turns| && turns[i].command == "EXIT"
    decreases |turns|
  {
    if turns != [] {
      var next := Step(w, turns[0]);
      if next.running {
        ReplayStopsAtExit(next, turns[1..]);
        if exists i :: 0 <= i < |turns| && turns[i].command == "EXIT" {
          var i :| 0 <= i < |turns| && turns[i].command == "EXIT";
          assert turns[1..][i - 1].command == "EXIT";
        }
      }
    }
  }

  /** Nothing typed after EXIT is read. */
  lemma {:induction false} ReplayIgnoresAfterExit(w: World, turns: seq<Turn>, more: seq<Turn>)
    requires Covers(w.prices.Keys, turns) && Covers(w.prices.Keys, more)
    requires !Replay(w, turns).running
    ensures Replay(w, turns + more) == Replay(w, turns)
    decreases |turns|
  {
    if w.running {
      assert turns != [];
      assert (turns + more)[0] == turns[0];
      assert (turns + more)[1..] == turns[1..] + more;
      ReplayIgnoresAfterExit(Step(w, turns[0]), turns[1..], more);
    }
  }

  /**
   * The body of the `while (running)` loop of `main`: step every price, then
   * dispatch the command through the `switch`.
   */
  method PlayTurn(stocks: map<string, Stock>, portfolio: Portfolio, turn: Turn) returns (running: bool)
    requires Listed(stocks)
    requires stocks.Keys <= turn.draws.Keys
    modifies portfolio, stocks.Values
    ensures World(portfolio.State(), Prices(stocks), running)
         == Step(World(old(portfolio.State()), old(Prices(stocks)), true), turn)
  {
    UpdateMarket(stocks, turn.draws);
    running := true;
    match ParseCommand(turn.command) {
      case BuyCommand =>
        var _ := TradeStock(BuyOrder, stocks, portfolio, turn.ticker, turn.quantity);
      case SellCommand =>
        var _ := TradeStock(SellOrder, stocks, portfolio, turn.ticker, turn.quantity);
      case ExitCommand =>
        running := false;
      case InvalidCommand =>
    }
  }

  /**
   * The `while (running)` loop of `main`. It returns whether the loop was
   * still running when the input ran out, and how many turns it read.
   */
  method Run(stocks: map<string, Stock>, portfolio: Portfolio, turns: seq<Turn>) returns (running: bool, consumed: nat)
    requires Listed(stocks)
    requires Covers(stocks.Keys, turns)
    modifies portfolio, stocks.Values
    ensures World(portfolio.State(), Prices(stocks), running)
         == Replay(World(old(portfolio.State()), old(Prices(stocks)), true), turns)
    ensures consumed <= |turns|
    ensures running ==> consumed == |turns|
    ensures !running ==> 0 < consumed && turns[consumed - 1].command == "EXIT"
    ensures forall i :: 0 <= i < consumed - 1 ==> turns[i].command != "EXIT"
  {
    ghost var start := World(portfolio.State(), Prices(stocks), true);
    running := true;
    consumed := 0;
    while running && consumed < |turns|
      invariant consumed <= |turns|
      invariant Covers(stocks.Keys, turns[consumed..])
      invariant Replay(start, turns) == Replay(World(portfolio.State(), Prices(stocks), running), turns[consumed..])
      invariant !running ==> 0 < consumed && turns[consumed - 1].command == "EXIT"
      invariant forall i :: 0 <= i < consumed && (running || i < consumed - 1) ==> turns[i].command != "EXIT"
      decreases |turns| - consumed
    {
      var turn := turns[consumed];
      assert turns[consumed..][0] == turn;
      assert turns[consumed..][1..] == turns[consumed + 1..];
      running := PlayTurn(stocks, portfolio, turn);
      consumed := consumed + 1;
    }
  }
}
