/**
 * Worked cases of the decision rules with the default configuration of a
 * freshly created database (balance 1000.000, buy threshold 9200.000,
 * margin 100.000, stagnation window 24 hours).
 */
module Scenarios {
  import opened Wrappers
  import opened FixedPoint
  import opened Decision
  import opened Engine

  /** The price 9200.0123 scales to 9200012 thousandths: the fourth decimal is cut off. */
  lemma PriceScaling()
    ensures ScaleToMilli(Decimal(92000123, -4)) == 9200012
    ensures ScaleToMilli(Decimal(-92000123, -4)) == -9200012
    ensures ScaleToMilli(Decimal(92, 2)) == 9200000
  {
  }

  /** Of three qualifying lots, only the cheapest may be reported, never a dearer one that also qualifies. */
  lemma CheapestLotIsSold(choice: Option<Lot>)
    requires IsSellChoice([Lot(1, 50000, 9000000), Lot(2, 50000, 9050000), Lot(3, 50000, 9100000)],
                          SellThreshold(9200000, 50000), choice)
    ensures choice == Some(Lot(1, 50000, 9000000))
  {
  }

  /** Selling a lot bought at 9000.000 at 9300.000 costs a fee of 13.950 and yields 286.050. */
  lemma SaleProfit()
    ensures Fee(9300000) == 13950
    ensures Profit(9300000, 9000000) == 286050
  {
  }

  /** The fee is truncated, not rounded: 0.15% of 0.999 is 0.0014985, reported as 0.001. */
  lemma FeeTruncates()
    ensures Fee(999) == 1
    ensures Fee(666) == 0
  {
  }

  /** With threshold 9200.000 and margin 100.000 a buy fires at 9100.000 and not at 9100.001. */
  lemma BuyBoundary()
    ensures BuyTriggered(9200000, 100000, 9100000) && NextBuyRate(9200000, 100000, 9100000) == 9100000
    ensures !BuyTriggered(9200000, 100000, 9100001) && NextBuyRate(9200000, 100000, 9100001) == 9200000
  {
  }

  /** A negative margin, which nothing in the program forbids, lets a buy raise the threshold. */
  lemma NegativeMarginRaisesThreshold()
    ensures NextBuyRate(9200000, -100000, 9250000) == 9250000
  {
  }

  /** A client of the engine: what the specifications of Tick alone let a caller conclude. */
  method SeededTicks()
  {
    var ledger := [Lot(1, 100000, 9000000)];
    var engine := new TradingEngine(1000000, 9200000, 100000, 24, ledger);

    var r := engine.Tick(None);
    assert r == FeedError && engine.buyrate == 9200000;

    r := engine.Tick(Some(Decimal(9100, 0)));
    assert r.last == 9100000 && r.boughtAt == Some(9100000) && engine.buyrate == 9100000;
    assert r.sale.Some? && r.sale.value.lot == Lot(1, 100000, 9000000) by {
      assert ledger[0] in ledger;
    }
    assert r.sale.value.profit == 100000 - 13650;

    r := engine.Tick(Some(Decimal(9100, 0)));
    assert r.boughtAt == None && engine.buyrate == 9100000;
    assert engine.ledger == ledger && engine.usdbalance == 1000000;
  }
}
