/**
 * The polling loop of the bot. The configuration row is read once at startup
 * into four variables; of these only the buy threshold is reassigned, by the
 * buy check, and only in memory. Each tick fetches a price (or fails), runs
 * the sell check, which only reports, and then the buy check.
 */
module Engine {
  import opened Wrappers
  import opened FixedPoint
  import opened Decision

  /** What one tick reports: a feed error, or the scaled price with the sale and buy it found. */
  datatype TickReport =
    | FeedError
    | Evaluated(last: int, sale: Option<SaleReport>, boughtAt: Option<int>)

  /** The buy threshold after one observation: unchanged on a feed error. */
  function Step(buyrate: int, amount: int, observation: Option<Decimal>): int
  {
    match observation
    case None => buyrate
    case Some(price) => NextBuyRate(buyrate, amount, ScaleToMilli(price))
  }

  /** The buy threshold after a sequence of observations, one tick each. */
  function BuyRateAfter(buyrate: int, amount: int, observations: seq<Option<Decimal>>): int
  {
    if observations == [] then buyrate
    else Step(BuyRateAfter(buyrate, amount, observations[..|observations| - 1]), amount, observations[|observations| - 1])
  }

  /** `report` is what a tick may report on `observation` when the threshold is `buyrate`. */
  predicate IsTickReport(ledger: seq<Lot>, amount: int, buyrate: int, observation: Option<Decimal>, report: TickReport)
  {
    match observation
    case None => report == FeedError
    case Some(price) =>
      var last := ScaleToMilli(price);
      && report.Evaluated?
      && report.last == last
      && IsSaleReport(ledger, last, amount, report.sale)
      && report.boughtAt == (if BuyTriggered(buyrate, amount, last) then Some(last) else None)
  }

  /** The engine's state: the configuration row as read at startup and the ledger of lots. */
  class TradingEngine {
    /** Available capital (x1000); read at startup, never changed. */
    var usdbalance: int
    /** The buy threshold (x1000); lowered by the buy check, never written back to the store. */
    var buyrate: int
    /** The lot margin (x1000), the offset of both the buy trigger and the sell floor. */
    var amount: int
    /** The stagnation window in hours; read at startup, never used. */
    var swait: int
    /** The rows of the `btcprice` table; the engine only reads them. */
    var ledger: seq<Lot>

    constructor (usdbalance: int, buyrate: int, amount: int, swait: int, ledger: seq<Lot>)
      ensures this.usdbalance == usdbalance && this.buyrate == buyrate && this.amount == amount
      ensures this.swait == swait && this.ledger == ledger
    {
      this.usdbalance := usdbalance;
      this.buyrate := buyrate;
      this.amount := amount;
      this.swait := swait;
      this.ledger := ledger;
    }

    /**
     * One tick. A feed error changes nothing; otherwise the price is scaled,
     * the cheapest sellable lot is reported, and the buy threshold ratchets
     * down to the price when the buy check fires.
     */
    method Tick(observation: Option<Decimal>) returns (report: TickReport)
      modifies this`buyrate
      ensures IsTickReport(ledger, amount, old(buyrate), observation, report)
      ensures buyrate == Step(old(buyrate), amount, observation)
      ensures observation.None? ==> buyrate == old(buyrate)
      ensures ledger == old(ledger) && usdbalance == old(usdbalance)
      ensures amount == old(amount) && swait == old(swait)
    {
      if observation.None? {
        return FeedError;
      }
      var last := ScaleToMilli(observation.value);

      var sale := EvaluateSale(ledger, last, amount);

      var boughtAt := None;
      if last <= buyrate - amount {
        boughtAt := Some(last);
        buyrate := last;
      }
      report := Evaluated(last, sale, boughtAt);
    }

    /** The loop, run for one tick per observation in order. */
    method Run(observations: seq<Option<Decimal>>) returns (reports: seq<TickReport>)
      modifies this`buyrate
      ensures |reports| == |observations|
      ensures forall i :: 0 <= i < |observations| ==>
        IsTickReport(ledger, amount, BuyRateAfter(old(buyrate), amount, observations[..i]), observations[i], reports[i])
      ensures buyrate == BuyRateAfter(old(buyrate), amount, observations)
      ensures ledger == old(ledger) && usdbalance == old(usdbalance)
      ensures amount == old(amount) && swait == old(swait)
    {
      reports := [];
      var i := 0;
      while i < |observations|
        invariant 0 <= i <= |observations|
        invariant |reports| == i
        invariant buyrate == BuyRateAfter(old(buyrate), amount, observations[..i])
        invariant forall k :: 0 <= k < i ==>
          IsTickReport(ledger, amount, BuyRateAfter(old(buyrate), amount, observations[..k]), observations[k], reports[k])
      {
        var report := Tick(observations[i]);
        assert observations[..i + 1][..i] == observations[..i];
        reports := reports + [report];
        i := i + 1;
      }
      assert observations[..i] == observations;
    }
  }

  /** With a non-negative margin the buy threshold never rises, over any run. */
  lemma {:induction false} BuyRateNeverRises(buyrate: int, amount: int, observations: seq<Option<Decimal>>)
    requires amount >= 0
    ensures BuyRateAfter(buyrate, amount, observations) <= buyrate
  {
    if observations != [] {
      BuyRateNeverRises(buyrate, amount, observations[..|observations| - 1]);
    }
  }

  /** With a non-negative margin the buy threshold is non-increasing from tick to tick. */
  lemma {:induction false} BuyRateNonIncreasing(buyrate: int, amount: int, observations: seq<Option<Decimal>>, i: nat, j: nat)
    requires amount >= 0
    requires i <= j <= |observations|
    ensures BuyRateAfter(buyrate, amount, observations[..j]) <= BuyRateAfter(buyrate, amount, observations[..i])
  {
    if i < j {
      BuyRateNonIncreasing(buyrate, amount, observations, i, j - 1);
      assert observations[..j][..j - 1] == observations[..j - 1];
    }
  }

  /** The observations on which the feed delivered a price, in order. */
  function Prices(observations: seq<Option<Decimal>>): (r: seq<Option<Decimal>>)
    ensures |r| <= |observations|
    ensures forall k :: 0 <= k < |r| ==> r[k].Some?
  {
    if observations == [] then []
    else
      var rest := Prices(observations[..|observations| - 1]);
      var last := observations[|observations| - 1];
      if last.None? then rest else rest + [last]
  }

  /** No delivered price is lost or duplicated: each occurs as often as among the observations. */
  lemma {:induction false} PricesKeepDelivered(observations: seq<Option<Decimal>>, x: Option<Decimal>)
    requires x.Some?
    ensures multiset(Prices(observations))[x] == multiset(observations)[x]
  {
    if observations != [] {
      var init := observations[..|observations| - 1];
      PricesKeepDelivered(init, x);
      assert observations == init + [observations[|observations| - 1]];
    }
  }

  /** Feed errors are skipped: the threshold ends where the run over the delivered prices alone would leave it. */
  lemma {:induction false} FeedErrorsIgnored(buyrate: int, amount: int, observations: seq<Option<Decimal>>)
    ensures BuyRateAfter(buyrate, amount, Prices(observations)) == BuyRateAfter(buyrate, amount, observations)
  {
    if observations != [] {
      var init := observations[..|observations| - 1];
      FeedErrorsIgnored(buyrate, amount, init);
      var last := observations[|observations| - 1];
      if last.Some? {
        assert (Prices(init) + [last])[..|Prices(init) + [last]| - 1] == Prices(init);
      }
    }
  }
}
