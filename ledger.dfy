/**
 * The holdings ledger as values: a cash balance in cents and a map from
 * ticker to a share count. `Buy` and `Sell` give the receipt the portfolio
 * reports and the account after the trade; `Worth` is the market value of
 * the holdings that the portfolio report adds to the cash.
 */
module Ledger {

  datatype Account = Account(cash: int, holdings: map<string, int>)

  /** What a trade reports: it went through, or why it was turned down. */
  datatype Receipt = Bought | InsufficientFunds | Sold | NotEnoughShares

  /** The number of shares held, zero for a ticker that is not in the map. */
  function Held(a: Account, ticker: string): int
  {
    if ticker in a.holdings then a.holdings[ticker] else 0
  }

  /** The ledger invariant: no debt, and only strictly positive counts are kept. */
  predicate Valid(a: Account)
  {
    a.cash >= 0 && forall t :: t in a.holdings ==> a.holdings[t] > 0
  }

  /**
   * Buying `quantity` shares at `price` cents each: all or nothing on funds.
   */
  function Buy(a: Account, ticker: string, price: int, quantity: int): (r: (Receipt, Account))
    ensures r.0 == Bought <==> price * quantity <= a.cash
    ensures r.0 == Bought ==> r.1.cash == a.cash - price * quantity
    ensures r.0 == Bought ==> Held(r.1, ticker) == Held(a, ticker) + quantity && ticker in r.1.holdings
    ensures r.0 != Bought ==> r == (InsufficientFunds, a)
    ensures r.1.holdings - {ticker} == a.holdings - {ticker}
    ensures Valid(a) && price >= 0 && quantity > 0 ==> Valid(r.1)
  {
    var totalCost := price * quantity;
    if a.cash >= totalCost then
      (Bought, Account(a.cash - totalCost, a.holdings[ticker := Held(a, ticker) + quantity]))
    else
      (InsufficientFunds, a)
  }

  /**
   * Selling `quantity` shares at `price` cents each: all or nothing on the
   * shares held, and a count that reaches zero leaves the map. A ticker that is
   * not held and a quantity that is not positive together would make the
   * source unbox a missing count, hence the precondition.
   */
  function Sell(a: Account, ticker: string, price: int, quantity: int): (r: (Receipt, Account))
    requires quantity > 0 || ticker in a.holdings
    ensures r.0 == Sold <==> Held(a, ticker) >= quantity
    ensures r.0 == Sold ==> r.1.cash == a.cash + price * quantity
    ensures r.0 == Sold ==> Held(r.1, ticker) == Held(a, ticker) - quantity
    ensures r.0 == Sold && Held(a, ticker) == quantity ==> ticker !in r.1.holdings
    ensures r.0 != Sold ==> r == (NotEnoughShares, a)
    ensures r.1.holdings - {ticker} == a.holdings - {ticker}
    ensures Valid(a) && price >= 0 && quantity > 0 ==> Valid(r.1)
  {
    if Held(a, ticker) >= quantity then
      var decremented := a.holdings[ticker := a.holdings[ticker] - quantity];
      var holdings := if decremented[ticker] == 0 then decremented - {ticker} else decremented;
      (Sold, Account(a.cash + price * quantity, holdings))
    else
      (NotEnoughShares, a)
  }

  /** A buy that goes through, followed by a sell of the same shares at the same price, undoes it. */
  lemma BuyThenSellRestores(a: Account, ticker: string, price: int, quantity: int)
    requires Valid(a)
    requires Buy(a, ticker, price, quantity).0 == Bought
    ensures Sell(Buy(a, ticker, price, quantity).1, ticker, price, quantity) == (Sold, a)
  {
    var b := Buy(a, ticker, price, quantity).1;
    var s := Sell(b, ticker, price, quantity).1;
    assert s.cash == a.cash;
    if ticker in a.holdings {
      assert s.holdings == a.holdings[ticker := a.holdings[ticker]];
    } else {
      assert s.holdings == a.holdings[ticker := quantity] - {ticker};
    }
    assert s.holdings == a.holdings;
  }

  /** A sell that goes through, followed by a buy of the same shares at the same price, undoes it. */
  lemma SellThenBuyRestores(a: Account, ticker: string, price: int, quantity: int)
    requires Valid(a)
    requires quantity > 0 || ticker in a.holdings
    requires Sell(a, ticker, price, quantity).0 == Sold
    ensures Buy(Sell(a, ticker, price, quantity).1, ticker, price, quantity) == (Bought, a)
  {
    var s := Sell(a, ticker, price, quantity).1;
    var b := Buy(s, ticker, price, quantity).1;
    assert s.cash >= price * quantity;
    if a.holdings[ticker] == quantity {
      assert b.holdings == (a.holdings - {ticker})[ticker := quantity];
    } else {
      assert b.holdings == a.holdings[ticker := a.holdings[ticker] - quantity][ticker := a.holdings[ticker]];
    }
    assert b.holdings == a.holdings;
  }

  /** The opening of a session: $10,000.00, buy 10 AAPL at $150.00, then sell them at any price. */
  lemma OpeningScenario(laterPrice: int)
    ensures Buy(Account(1000000, map[]), "AAPL", 15000, 10) == (Bought, Account(850000, map["AAPL" := 10]))
    ensures Sell(Account(850000, map["AAPL" := 10]), "AAPL", laterPrice, 10)
         == (Sold, Account(850000 + 10 * laterPrice, map[]))
  {
    assert map["AAPL" := 10] - {"AAPL"} == map[];
  }

  /**
   * The market value of the holdings: the sum of count times price over every
   * held ticker. The order of the sum does not matter (see `WorthRemove`).
   */
  ghost function Worth(holdings: map<string, int>, prices: map<string, int>): (w: int)
    requires holdings.Keys <= prices.Keys
    ensures (forall t :: t in holdings ==> holdings[t] >= 0) && (forall t :: t in prices ==> prices[t] >= 0) ==> w >= 0
    decreases |holdings|
  {
    if holdings == map[] then 0
    else
      var t :| t in holdings;
      assert |holdings - {t}| == |holdings| - 1;
      holdings[t] * prices[t] + Worth(holdings - {t}, prices)
  }

  /** Any held ticker can be taken out of the sum first. */
  lemma {:induction false} WorthRemove(holdings: map<string, int>, prices: map<string, int>, ticker: string)
    requires holdings.Keys <= prices.Keys
    requires ticker in holdings
    ensures Worth(holdings, prices) == holdings[ticker] * prices[ticker] + Worth(holdings - {ticker}, prices)
    decreases |holdings|
  {
    var t :| t in holdings && Worth(holdings, prices) == holdings[t] * prices[t] + Worth(holdings - {t}, prices);
    if t != ticker {
      var rest := holdings - {t} - {ticker};
      assert |holdings - {t}| == |holdings| - 1;
      assert |holdings - {ticker}| == |holdings| - 1;
      WorthRemove(holdings - {t}, prices, ticker);
      WorthRemove(holdings - {ticker}, prices, t);
      assert holdings - {t} - {ticker} == holdings - {ticker} - {t};
    }
  }

  /** The total the portfolio report shows: cash plus the market value of the holdings. */
  ghost function Total(a: Account, prices: map<string, int>): int
    requires a.holdings.Keys <= prices.Keys
  {
    a.cash + Worth(a.holdings, prices)
  }

  /** The part of the sum that the traded ticker contributes, by its count alone. */
  lemma WorthSplit(holdings: map<string, int>, prices: map<string, int>, ticker: string)
    requires holdings.Keys <= prices.Keys && ticker in prices
    ensures Worth(holdings, prices)
         == (if ticker in holdings then holdings[ticker] else 0) * prices[ticker] + Worth(holdings - {ticker}, prices)
  {
    if ticker in holdings {
      WorthRemove(holdings, prices, ticker);
    } else {
      assert holdings - {ticker} == holdings;
    }
  }

  /** A buy at the market price moves value from cash into shares: the total is unchanged. */
  lemma BuyAtMarketKeepsTotal(a: Account, ticker: string, prices: map<string, int>, quantity: int)
    requires a.holdings.Keys <= prices.Keys && ticker in prices
    ensures Buy(a, ticker, prices[ticker], quantity).1.holdings.Keys <= prices.Keys
    ensures Total(Buy(a, ticker, prices[ticker], quantity).1, prices) == Total(a, prices)
  {
    var price := prices[ticker];
    var r := Buy(a, ticker, price, quantity);
    if r.0 == Bought {
      var n := Held(a, ticker);
      WorthSplit(a.holdings, prices, ticker);
      WorthSplit(r.1.holdings, prices, ticker);
      assert Worth(r.1.holdings, prices) == (n + quantity) * price + Worth(a.holdings - {ticker}, prices);
      assert (n + quantity) * price == n * price + price * quantity;
    }
  }

  /** A sell at the market price moves value from shares into cash: the total is unchanged. */
  lemma SellAtMarketKeepsTotal(a: Account, ticker: string, prices: map<string, int>, quantity: int)
    requires a.holdings.Keys <= prices.Keys && ticker in prices
    requires quantity > 0 || ticker in a.holdings
    ensures Sell(a, ticker, prices[ticker], quantity).1.holdings.Keys <= prices.Keys
    ensures Total(Sell(a, ticker, prices[ticker], quantity).1, prices) == Total(a, prices)
  {
    var price := prices[ticker];
    var r := Sell(a, ticker, price, quantity);
    if r.0 == Sold {
      var n := Held(a, ticker) - quantity;
      WorthSplit(a.holdings, prices, ticker);
      WorthSplit(r.1.holdings, prices, ticker);
      assert Worth(r.1.holdings, prices) == n * price + Worth(a.holdings - {ticker}, prices);
      assert Worth(a.holdings, prices) == (n + quantity) * price + Worth(a.holdings - {ticker}, prices);
      assert (n + quantity) * price == n * price + price * quantity;
    }
  }
}
