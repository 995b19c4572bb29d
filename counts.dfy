/**
 * The share count of a buy as the source computes it: a boxed `Integer` plus
 * an `int`, in 32-bit two's complement arithmetic. Past 2^31 - 1 shares the
 * count wraps to a negative number. `Ledger.Buy`, which the rest of the model
 * uses, keeps the count unbounded.
 */
module Counts {
  import opened Ledger

  const IntMax := 0x7fff_ffff

  /** Two's complement wrap-around of a Java `int` addition. */
  function Wrap32(x: int): (r: int)
    ensures -IntMax - 1 <= r <= IntMax
    ensures (r - x) % 0x1_0000_0000 == 0
    ensures -IntMax - 1 <= x <= IntMax ==> r == x
  {
    (x + 0x8000_0000) % 0x1_0000_0000 - 0x8000_0000
  }

  /** `buy` with the count stored as a Java `int`. */
  function BuyAsWritten(a: Account, ticker: string, price: int, quantity: int): (r: (Receipt, Account))
    ensures -IntMax - 1 <= Held(a, ticker) + quantity <= IntMax ==> r == Buy(a, ticker, price, quantity)
  {
    var totalCost := price * quantity;
    if a.cash >= totalCost then
      (Bought, Account(a.cash - totalCost, a.holdings[ticker := Wrap32(Held(a, ticker) + quantity)]))
    else
      (InsufficientFunds, a)
  }

  /** Buying one more share on top of 2^31 - 1 held ones leaves a negative count: the ledger invariant breaks. */
  lemma BuyAsWrittenOverflows()
    ensures Valid(Account(1, map["AAPL" := IntMax]))
    ensures BuyAsWritten(Account(1, map["AAPL" := IntMax]), "AAPL", 1, 1).1 == Account(0, map["AAPL" := -IntMax - 1])
    ensures !Valid(BuyAsWritten(Account(1, map["AAPL" := IntMax]), "AAPL", 1, 1).1)
  {
    var after := BuyAsWritten(Account(1, map["AAPL" := IntMax]), "AAPL", 1, 1).1;
    assert Wrap32(IntMax + 1) == -IntMax - 1;
    assert "AAPL" in after.holdings && after.holdings["AAPL"] <= 0;
  }
}
