/**
 The first three trades of the bundled GOOGL sample (2023-01-03 is day 19360,
 2023-01-17 day 19374, 2023-01-25 day 19382) and what the valuation makes of them.
 */
module SampleData {
  import opened Trades
  import opened Valuation
  import ValuationProperties

  function January(): (r: seq<Trade>)
  {
    [ Trade(Buy, 19360, None, 85.31, 3),
      Trade(Buy, 19374, None, 92.4, 3),
      Trade(Sell, 19382, Some(88.85), 110.25, 2) ]
  }

  /** The sample has one trade per day, on distinct days. */
  lemma JanuaryOneTradePerDay()
    ensures OneTradePerDay(January())
  {
  }

  /** Twenty-three daily points, from 2023-01-03 to 2023-01-25. */
  lemma JanuarySpan()
    ensures DailySeries(January()).Ok?
    ensures var points := DailySeries(January()).points;
      |points| == 23 && points[0].date == 19360 && points[22].date == 19382
  {
    ValuationProperties.DailyCoverage(January());
    ValuationProperties.PointDate(January(), 0);
  }

  /** Sorting the sample changes nothing: it is already in date order. */
  lemma JanuarySorted()
    ensures SortByDate(January()) == January()
  {
  }

  /**
   After the last day the 4 remaining shares carry two thirds of the 533.13 paid for six:
   255.93 on the first day, 277.2 on the fifteenth, and nothing moves in between.
   */
  lemma JanuaryHolding()
    ensures HoldingAfter(January(), 23) == Holding(4, 355.42)
  {
    var ts := January();
    assert HoldingAfter(ts, 1) == Holding(3, 255.93);
    forall k: nat | 1 <= k < 14 ensures ValuationProperties.NoTradeOn(ts, k) {
      FindOnFound(ts, ts[0].date + k);
    }
    ValuationProperties.HoldingQuiet(ts, 1, 14);
    assert HoldingAfter(ts, 15) == Holding(6, 533.13);
    forall k: nat | 15 <= k < 22 ensures ValuationProperties.NoTradeOn(ts, k) {
      FindOnFound(ts, ts[0].date + k);
    }
    ValuationProperties.HoldingQuiet(ts, 15, 22);
  }

  /** On the last day 4 shares are held at the sale price, worth 441, against a cost basis of 355.42. */
  lemma JanuaryLastDay()
    ensures DailySeries(January()).Ok? && |DailySeries(January()).points| == 23
    ensures var last := DailySeries(January()).points[22];
      && last.sharesOwned == 4
      && last.price == 110.25
      && last.portfolioValue == 441.0
      && last.totalInvestment == 355.42
      && last.unrealizedGainLoss == 85.58
  {
    var ts := January();
    JanuarySpan();
    JanuaryOneTradePerDay();
    ValuationProperties.FinalShares(ts);
    ValuationProperties.PriceRule(ts, 22);
    ValuationProperties.ValueIdentities(ts, 22);
    ValuationProperties.PointIs(ts, 22);
    JanuarySorted();
    JanuaryHolding();
  }
}
