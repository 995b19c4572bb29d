/**
 * The user's portfolio as the simulator keeps it: a cash field and a holdings
 * map, both updated in place by `Buy` and `Sell`. `Buy` and `Sell` are
 * specified by the functions of the same names in `Ledger`, applied to the
 * state before them; `TotalValue` is specified by `Ledger.Total`.
 */
module Portfolios {
  import opened Ledger
  import opened Market

  class Portfolio {
    var cash: int
    var holdings: map<string, int>

    /** The portfolio's state as a ledger value. */
    function State(): Account
      reads this
    {
      Account(cash, holdings)
    }

    ghost predicate Valid()
      reads this
    {
      Ledger.Valid(State())
    }

    constructor (initialCash: int)
      ensures State() == Account(initialCash, map[])
      ensures initialCash >= 0 ==> Valid()
    {
      cash := initialCash;
      holdings := map[];
    }

    method Buy(stock: Stock, quantity: int) returns (receipt: Receipt)
      modifies this
      ensures (receipt, State()) == Ledger.Buy(old(State()), stock.ticker, stock.price, quantity)
      ensures old(Valid()) && stock.price >= 0 && quantity > 0 ==> Valid()
    {
      var totalCost := stock.price * quantity;
      if cash >= totalCost {
        cash := cash - totalCost;
        holdings := holdings[stock.ticker := Held(State(), stock.ticker) + quantity];
        receipt := Bought;
      } else {
        receipt := InsufficientFunds;
      }
    }

    method Sell(stock: Stock, quantity: int) returns (receipt: Receipt)
      requires quantity > 0 || stock.ticker in holdings
      modifies this
      ensures (receipt, State()) == Ledger.Sell(old(State()), stock.ticker, stock.price, quantity)
      ensures old(Valid()) && stock.price >= 0 && quantity > 0 ==> Valid()
    {
      var ticker := stock.ticker;
      if Held(State(), ticker) >= quantity {
        cash := cash + stock.price * quantity;
        holdings := holdings[ticker := holdings[ticker] - quantity];
        if holdings[ticker] == 0 {
          holdings := holdings - {ticker};
        }
        receipt := Sold;
      } else {
        receipt := NotEnoughShares;
      }
    }

    /**
     * The total value line of the portfolio report: the cash plus, for every
     * held ticker, its count times the current price of its stock.
     */
    method TotalValue(stocks: map<string, Stock>) returns (totalValue: int)
      requires holdings.Keys <= stocks.Keys
      ensures totalValue == Total(State(), Prices(stocks))
    {
      var prices := Prices(stocks);
      totalValue := cash;
      var pending := holdings;
      while pending != map[]
        invariant pending.Keys <= prices.Keys
        invariant totalValue + Worth(pending, prices) == cash + Worth(holdings, prices)
        decreases |pending|
      {
        var ticker :| ticker in pending;
        var quantity := pending[ticker];
        var price := stocks[ticker].price;
        var value := price * quantity;
        assert price == prices[ticker] && quantity == pending[ticker];
        assert value == pending[ticker] * prices[ticker];
        WorthRemove(pending, prices, ticker);
        totalValue := totalValue + value;
        assert |pending - {ticker}| == |pending| - 1;
        pending := pending - {ticker};
      }
    }
  }
}
