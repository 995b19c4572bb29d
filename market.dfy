/**
 * The tradable instruments of the simulator: a `Stock` is a ticker and a
 * current price, and once per turn every price takes a bounded random step.
 *
 * Money is held exactly, as a whole number of cents. The random draw that
 * drives a price step (a value in [0, 1)) is a parameter.
 */
module Market {

  /** Rounding to the nearest integer with halves rounded up, as `Math.round` does. */
  function RoundHalfUp(x: real): (r: int)
    ensures x - 0.5 < r as real <= x + 0.5
  {
    (x + 0.5).Floor
  }

  /** The relative price change produced by a draw: -5% at draw 0 rising towards +5%. */
  function Change(draw: real): (c: real)
    ensures 0.0 <= draw < 1.0 ==> -0.05 <= c < 0.05
  {
    (draw * 10.0 - 5.0) / 100.0
  }

  /** The price, in cents, plus the price times the change, before rounding. */
  function Stepped(price: int, draw: real): real
  {
    price as real + price as real * Change(draw)
  }

  /** The new price, in cents, after one step: the stepped price rounded to the nearest cent. */
  function Moved(price: int, draw: real): int
  {
    RoundHalfUp(Stepped(price, draw))
  }

  /** One step keeps a price within 5% of where it was, up to half a cent of rounding. */
  lemma MovedWithinBand(price: int, draw: real)
    requires price >= 0 && 0.0 <= draw < 1.0
    ensures price as real * 0.95 - 0.5 < Moved(price, draw) as real
    ensures Moved(price, draw) as real < price as real * 1.05 + 0.5
  {
    if price == 0 {
      assert Stepped(price, draw) == 0.0;
    } else {
      SteppedWithinBand(price, draw);
    }
  }

  /** Before rounding, a positive price moves by at least -5% and by less than +5%. */
  lemma SteppedWithinBand(price: int, draw: real)
    requires price > 0 && 0.0 <= draw < 1.0
    ensures price as real * 0.95 <= Stepped(price, draw) < price as real * 1.05
  {
    var p, c := price as real, Change(draw);
    assert p > 0.0;
    assert p * (c + 0.05) >= 0.0;
    assert p * (0.05 - c) > 0.0;
  }

  /** The rounding can take a price outside the 5% band: 11 cents dropping 5% becomes 10 cents. */
  lemma RoundingLeavesBand()
    ensures Moved(11, 0.0) == 10
    ensures (Moved(11, 0.0) as real) < 11.0 * 0.95
  {
    assert Stepped(11, 0.0) + 0.5 == 10.95;
  }

  /** A price of at least one cent never falls to zero: the 5% step and the rounding cannot reach it. */
  lemma MovedStaysPositive(price: int, draw: real)
    requires price >= 1 && 0.0 <= draw < 1.0
    ensures Moved(price, draw) >= 1
  {
    MovedWithinBand(price, draw);
  }

  /** An instrument: a fixed ticker and a price in cents that is updated in place. */
  class Stock {
    const ticker: string
    var price: int

    constructor (ticker: string, initialPrice: int)
      ensures this.ticker == ticker && price == initialPrice
    {
      this.ticker := ticker;
      price := initialPrice;
    }

    /** One random step of the price, driven by `draw`. */
    method UpdatePrice(draw: real)
      modifies this
      ensures price == Moved(old(price), draw)
    {
      var changePercent := Change(draw);
      var stepped := price as real + price as real * changePercent;
      price := RoundHalfUp(stepped);
    }
  }

  /** The market as the session builds it: every stock is filed under its own ticker. */
  ghost predicate Listed(stocks: map<string, Stock>)
  {
    forall t :: t in stocks ==> stocks[t].ticker == t
  }

  /** The current price of every listed ticker. */
  function Prices(stocks: map<string, Stock>): (m: map<string, int>)
    reads stocks.Values
    ensures m.Keys == stocks.Keys
    ensures forall t :: t in m ==> m[t] == stocks[t].price
  {
    map t | t in stocks :: stocks[t].price
  }

  /** The prices after every listed ticker has taken its step, driven by its own draw. */
  function MovedAll(prices: map<string, int>, draws: map<string, real>): (m: map<string, int>)
    requires prices.Keys <= draws.Keys
    ensures m.Keys == prices.Keys
  {
    map t | t in prices :: Moved(prices[t], draws[t])
  }

  /** Every price of at least one cent is still at least one cent after a market step. */
  lemma MovedAllStaysPositive(prices: map<string, int>, draws: map<string, real>)
    requires prices.Keys <= draws.Keys
    requires forall t :: t in draws ==> 0.0 <= draws[t] < 1.0
    requires forall t :: t in prices ==> prices[t] >= 1
    ensures forall t :: t in MovedAll(prices, draws) ==> MovedAll(prices, draws)[t] >= 1
  {
    forall t | t in prices
      ensures MovedAll(prices, draws)[t] >= 1
    {
      MovedStaysPositive(prices[t], draws[t]);
    }
  }

  /** Steps every stock of the market once, each by its own draw. */
  method UpdateMarket(stocks: map<string, Stock>, draws: map<string, real>)
    requires Listed(stocks)
    requires stocks.Keys <= draws.Keys
    modifies stocks.Values
    ensures Prices(stocks) == MovedAll(old(Prices(stocks)), draws)
  {
    var pending := stocks.Keys;
    while pending != {}
      invariant pending <= stocks.Keys
      invariant forall t :: t in stocks && t !in pending ==> stocks[t].price == Moved(old(stocks[t].price), draws[t])
      invariant forall t :: t in pending ==> stocks[t].price == old(stocks[t].price)
      decreases pending
    {
      var t :| t in pending;
      stocks[t].UpdatePrice(draws[t]);
      pending := pending - {t};
    }
  }
}
