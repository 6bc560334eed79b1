/**
 * The per-tick trading decision, as pure functions of the ledger of lots, the
 * configuration and the scaled price `last`: which lot (if any) would be
 * sold and at what profit, and whether the buy threshold ratchets down.
 */
module Decision {
  import opened Wrappers
  import opened FixedPoint

  /** One row of the `btcprice` table: its id, its margin amount and its acquisition rate (both x1000). */
  datatype Lot = Lot(id: int, amount: int, rate: int)

  /** The highest acquisition rate that can be sold at price `last` with margin `amount`. */
  function SellThreshold(last: int, amount: int): int
  {
    last - amount
  }

  /** Some lot of the ledger can be sold at this threshold. */
  predicate HasQualifying(ledger: seq<Lot>, threshold: int)
  {
    exists lot :: lot in ledger && lot.rate <= threshold
  }

  /**
   * `lot` is a row that the query "rate <= threshold, ascending rate, first
   * row only" may return: it qualifies and no qualifying row is cheaper.
   */
  predicate IsCheapestQualifying(ledger: seq<Lot>, threshold: int, lot: Lot)
  {
    && lot in ledger
    && lot.rate <= threshold
    && forall other :: other in ledger && other.rate <= threshold ==> lot.rate <= other.rate
  }

  /**
   * Every answer the query may give. The query fixes no order among rows of
   * equal rate, so any cheapest qualifying row is admissible; there is no
   * row exactly when nothing qualifies.
   */
  predicate IsSellChoice(ledger: seq<Lot>, threshold: int, choice: Option<Lot>)
  {
    match choice
    case None => !HasQualifying(ledger, threshold)
    case Some(lot) => IsCheapestQualifying(ledger, threshold, lot)
  }

  /**
   * One admissible answer of the query: among the cheapest qualifying lots,
   * the first in ledger order.
   */
  function CheapestQualifying(ledger: seq<Lot>, threshold: int): (r: Option<Lot>)
    ensures IsSellChoice(ledger, threshold, r)
  {
    if ledger == [] then None
    else
      var rest := CheapestQualifying(ledger[1..], threshold);
      var head := ledger[0];
      assert forall lot :: lot in ledger <==> lot == head || lot in ledger[1..];
      if head.rate > threshold then rest
      else if rest.Some? && rest.value.rate < head.rate then rest
      else Some(head)
  }

  /** Whichever admissible row the query returns, whether there is one and its rate are determined. */
  lemma SellChoiceRateDetermined(ledger: seq<Lot>, threshold: int, a: Option<Lot>, b: Option<Lot>)
    requires IsSellChoice(ledger, threshold, a) && IsSellChoice(ledger, threshold, b)
    ensures a.Some? <==> b.Some?
    ensures a.Some? ==> a.value.rate == b.value.rate
  {
  }

  /** The table is a set of rows: reordering the ledger does not change which answers are admissible. */
  lemma SellChoiceIgnoresOrder(ledger1: seq<Lot>, ledger2: seq<Lot>, threshold: int, choice: Option<Lot>)
    requires multiset(ledger1) == multiset(ledger2)
    requires IsSellChoice(ledger1, threshold, choice)
    ensures IsSellChoice(ledger2, threshold, choice)
  {
    assert forall lot :: lot in ledger1 <==> lot in ledger2 by {
      forall lot
        ensures lot in ledger1 <==> lot in ledger2
      {
        assert lot in ledger1 <==> lot in multiset(ledger1);
        assert lot in ledger2 <==> lot in multiset(ledger2);
      }
    }
  }

  /**
   * The 0.15% trading fee on a sale at `last`: 15/10000 of `last`, truncated
   * toward zero. The program computes it in float64, whose product may
   * differ from the exact one at truncation boundaries.
   */
  function Fee(last: int): (fee: int)
    ensures Abs(fee) * 10000 <= Abs(15 * last) < (Abs(fee) + 1) * 10000
    ensures last >= 0 ==> 0 <= fee <= last
    ensures last <= 0 ==> last <= fee <= 0
  {
    TruncDiv(15 * last, 10000)
  }

  /** The profit reported for selling a lot bought at `rate` at price `last`, net of the fee. */
  function Profit(last: int, rate: int): (profit: int)
    ensures last >= 0 ==> profit <= last - rate
    ensures last >= 0 ==> profit >= -rate
  {
    last - rate - Fee(last)
  }

  /** A sale the engine reports (it only reports it: nothing is sold). */
  datatype SaleReport = SaleReport(lot: Lot, price: int, profit: int)

  /** `sale` is a report the sell check may produce at price `last`. */
  predicate IsSaleReport(ledger: seq<Lot>, last: int, amount: int, sale: Option<SaleReport>)
  {
    match sale
    case None => !HasQualifying(ledger, SellThreshold(last, amount))
    case Some(s) =>
      && IsCheapestQualifying(ledger, SellThreshold(last, amount), s.lot)
      && s.price == last
      && s.profit == Profit(last, s.lot.rate)
  }

  /** The sell check: look up the cheapest lot that can be sold at `last` and report it with its profit. */
  function EvaluateSale(ledger: seq<Lot>, last: int, amount: int): (sale: Option<SaleReport>)
    ensures IsSaleReport(ledger, last, amount, sale)
  {
    match CheapestQualifying(ledger, SellThreshold(last, amount))
    case None => None
    case Some(lot) => Some(SaleReport(lot, last, Profit(last, lot.rate)))
  }

  /** The reported profit does not depend on which of several equally cheap lots the query returns. */
  lemma SaleProfitDetermined(ledger: seq<Lot>, last: int, amount: int, a: Option<SaleReport>, b: Option<SaleReport>)
    requires IsSaleReport(ledger, last, amount, a) && IsSaleReport(ledger, last, amount, b)
    ensures a.Some? <==> b.Some?
    ensures a.Some? ==> a.value.profit == b.value.profit && a.value.lot.rate == b.value.lot.rate
  {
  }

  /** The buy check: the price has fallen at least `amount` below the buy threshold. */
  predicate BuyTriggered(buyrate: int, amount: int, last: int)
  {
    last <= buyrate - amount
  }

  /**
   * The buy threshold after a tick at price `last`: on a buy it ratchets down
   * to `last`, otherwise it stays.
   */
  function NextBuyRate(buyrate: int, amount: int, last: int): (next: int)
    ensures BuyTriggered(buyrate, amount, last) ==> next == last
    ensures !BuyTriggered(buyrate, amount, last) ==> next == buyrate
    ensures next == buyrate || next <= buyrate - amount
    ensures amount >= 0 ==> next <= buyrate
    ensures amount > 0 ==> (next < buyrate <==> BuyTriggered(buyrate, amount, last))
  {
    if last <= buyrate - amount then last else buyrate
  }

  /** With a positive margin, a second tick at the same price neither buys again nor moves the threshold. */
  lemma RatchetSettles(buyrate: int, amount: int, last: int)
    requires amount > 0
    ensures !BuyTriggered(NextBuyRate(buyrate, amount, last), amount, last)
    ensures NextBuyRate(NextBuyRate(buyrate, amount, last), amount, last) == NextBuyRate(buyrate, amount, last)
  {
  }
}
