/**
 What the daily valuation series promises, stated over the trades as the caller
 passes them (in any order): the day range it covers, the effect of each day's
 trade on the running totals, the price it records, the trade marker, and the
 totals it ends with.
 */
module ValuationProperties {
  import opened Trades
  import opened Valuation

  /** A successful valuation has `DaySpan` points, and point `i` is `PointAt` of the sorted trades. */
  lemma PointIs(transactions: seq<Trade>, i: nat)
    requires transactions != []
    ensures DailySeries(transactions).Ok?
    ensures |SortByDate(transactions)| > 0
    ensures |DailySeries(transactions).points| == DaySpan(SortByDate(transactions))
    ensures i < |DailySeries(transactions).points| ==>
              DailySeries(transactions).points[i] == PointAt(SortByDate(transactions), i)
  {
    var sorted := SortByDate(transactions);
    if i < DaySpan(sorted) {
      SeriesAt(sorted, DaySpan(sorted), i);
    }
  }

  /** Sorting does not change which trade the search finds on a day. */
  lemma FindOnSorted(transactions: seq<Trade>, d: int)
    ensures FindOn(SortByDate(transactions), d) == FindOn(transactions, d)
  {
    FindOnIsFirstOfDay(transactions, d);
    FindOnIsFirstOfDay(SortByDate(transactions), d);
    SortStable(transactions, d);
  }

  /** Sorting keeps at most one trade per day. */
  lemma SortOneTradePerDay(transactions: seq<Trade>)
    requires OneTradePerDay(transactions)
    ensures OneTradePerDay(SortByDate(transactions))
  {
    forall d ensures |OnDate(SortByDate(transactions), d)| <= 1 {
      SortStable(transactions, d);
    }
  }

  /** The first sorted trade is the first-listed trade of the earliest day. */
  lemma FirstSortedTrade(transactions: seq<Trade>)
    requires transactions != []
    ensures FindOn(transactions, SortByDate(transactions)[0].date) == Some(SortByDate(transactions)[0])
  {
  }

  /** Point `i` is dated `i` days after the earliest trade. */
  lemma PointDate(transactions: seq<Trade>, i: nat)
    requires transactions != []
    requires i < |DailySeries(transactions).points|
    ensures DailySeries(transactions).points[i].date == SortByDate(transactions)[0].date + i
  {
    PointIs(transactions, i);
  }

  /** A trade lies between the first and the last sorted trade. */
  lemma TradeWithinSpan(transactions: seq<Trade>, t: Trade)
    requires t in transactions
    ensures var sorted := SortByDate(transactions);
      sorted[0].date <= t.date <= sorted[|sorted| - 1].date
  {
    var sorted := SortByDate(transactions);
    SortSameTrades(transactions, t);
    var j :| 0 <= j < |sorted| && sorted[j] == t;
    assert sorted[0].date <= sorted[j].date <= sorted[|sorted| - 1].date;
  }

  /** Every trade lies between the first and the last sorted trade, both of which are trades of the input. */
  lemma SortedSpan(transactions: seq<Trade>)
    requires transactions != []
    ensures var sorted := SortByDate(transactions);
      && (forall t :: t in transactions ==> sorted[0].date <= t.date <= sorted[|sorted| - 1].date)
      && sorted[0] in transactions && sorted[|sorted| - 1] in transactions
  {
    var sorted := SortByDate(transactions);
    forall t | t in transactions ensures sorted[0].date <= t.date <= sorted[|sorted| - 1].date {
      TradeWithinSpan(transactions, t);
    }
    SortSameTrades(transactions, sorted[0]);
    SortSameTrades(transactions, sorted[|sorted| - 1]);
  }

  /**
   Exactly one point per calendar day, in ascending order, from the earliest trade
   date to the latest; an empty trade list is the failing case.
   */
  lemma DailyCoverage(transactions: seq<Trade>)
    ensures DailySeries(transactions).Failed? <==> transactions == []
    ensures transactions != [] ==>
      var points := DailySeries(transactions).points;
      && |points| > 0
      && (forall i :: 0 <= i < |points| ==> points[i].date == points[0].date + i)
      && (forall t :: t in transactions ==> points[0].date <= t.date <= points[|points| - 1].date)
      && FindOn(transactions, points[0].date).Some?
      && FindOn(transactions, points[|points| - 1].date).Some?
  {
    if transactions != [] {
      var sorted := SortByDate(transactions);
      var points := DailySeries(transactions).points;
      var n := |sorted|;
      PointIs(transactions, 0);
      PointDate(transactions, 0);
      PointDate(transactions, |points| - 1);
      forall i | 0 <= i < |points| ensures points[i].date == points[0].date + i {
        PointDate(transactions, i);
      }
      SortedSpan(transactions);
      FindOnFound(transactions, sorted[0].date);
      FindOnFound(transactions, sorted[n - 1].date);
    }
  }

  /** Market value is shares times price, and the gain is market value less the cost basis. */
  lemma ValueIdentities(transactions: seq<Trade>, i: nat)
    requires transactions != []
    requires i < |DailySeries(transactions).points|
    ensures var p := DailySeries(transactions).points[i];
      && p.portfolioValue == ValueOf(p.sharesOwned, p.price)
      && p.unrealizedGainLoss == p.portfolioValue - p.totalInvestment
  {
    PointIs(transactions, i);
  }

  /** The running totals before day `i`: zero on the first day, else those of the day before. */
  function Before(points: seq<DailyPoint>, i: nat): (r: Holding)
    requires i < |points|
  {
    if i == 0 then Holding(0, 0.0) else Holding(points[i - 1].sharesOwned, points[i - 1].totalInvestment)
  }

  /** The totals of point `i` are the totals before it with the day's found trade applied. */
  lemma DayStep(transactions: seq<Trade>, i: nat)
    requires transactions != []
    requires i < |DailySeries(transactions).points|
    ensures var points := DailySeries(transactions).points;
      Holding(points[i].sharesOwned, points[i].totalInvestment)
        == Apply(Before(points, i), FindOn(transactions, points[i].date))
  {
    var sorted := SortByDate(transactions);
    PointIs(transactions, i);
    if i > 0 { PointIs(transactions, i - 1); }
    HoldingStep(sorted, i);
    FindOnSorted(transactions, sorted[0].date + i);
  }

  /** A buy adds its quantity to the shares and quantity times price to the cost basis. */
  lemma BuyDay(transactions: seq<Trade>, i: nat)
    requires transactions != []
    requires i < |DailySeries(transactions).points|
    requires FindOn(transactions, DailySeries(transactions).points[i].date).Some?
    requires FindOn(transactions, DailySeries(transactions).points[i].date).value.action == Buy
    ensures var points := DailySeries(transactions).points;
      var t := FindOn(transactions, points[i].date).value;
      && points[i].sharesOwned == Before(points, i).shares + t.quantity
      && points[i].totalInvestment == Before(points, i).investment + Cost(t)
  {
    DayStep(transactions, i);
  }

  /**
   A sale removes its quantity from the shares; the cost basis is scaled by
   remaining / (remaining + quantity) while shares remain, and is zero otherwise.
   */
  lemma SellDay(transactions: seq<Trade>, i: nat)
    requires transactions != []
    requires i < |DailySeries(transactions).points|
    requires FindOn(transactions, DailySeries(transactions).points[i].date).Some?
    requires FindOn(transactions, DailySeries(transactions).points[i].date).value.action == Sell
    ensures var points := DailySeries(transactions).points;
      var t := FindOn(transactions, points[i].date).value;
      var shares := points[i].sharesOwned;
      && shares == Before(points, i).shares - t.quantity
      && (shares > 0 ==> points[i].totalInvestment == Rescaled(Before(points, i).investment, shares, t.quantity))
      && (shares <= 0 ==> points[i].totalInvestment == 0.0)
  {
    DayStep(transactions, i);
  }

  /** A day without a trade keeps the totals and the price of the day before. */
  lemma QuietDay(transactions: seq<Trade>, i: nat)
    requires transactions != []
    requires i < |DailySeries(transactions).points|
    requires FindOn(transactions, DailySeries(transactions).points[i].date).None?
    ensures var points := DailySeries(transactions).points;
      && i > 0
      && points[i].sharesOwned == points[i - 1].sharesOwned
      && points[i].totalInvestment == points[i - 1].totalInvestment
      && points[i].price == points[i - 1].price
  {
    DayStep(transactions, i);
    PriceRule(transactions, i);
    DailyCoverage(transactions);
  }

  /** No trade is dated on day `k` of the span that starts with the first sorted trade. */
  predicate NoTradeOn(sorted: seq<Trade>, k: nat)
    requires |sorted| > 0
  {
    FindOn(sorted, sorted[0].date + k).None?
  }

  /** Across a run of days without trades the shares and the cost basis stay as they were. */
  lemma {:induction false} HoldingQuiet(sorted: seq<Trade>, a: nat, b: nat)
    requires |sorted| > 0 && a <= b
    requires forall k: nat :: a <= k < b ==> NoTradeOn(sorted, k)
    ensures HoldingAfter(sorted, b) == HoldingAfter(sorted, a)
    decreases b - a
  {
    if a < b {
      HoldingQuiet(sorted, a, b - 1);
      assert NoTradeOn(sorted, b - 1);
    }
  }

  /**
   The price of a day is the price of its found trade, else the previous day's price,
   else the price of the first sorted trade, which is itself traded on the first day.
   */
  lemma PriceRule(transactions: seq<Trade>, i: nat)
    requires transactions != []
    requires i < |DailySeries(transactions).points|
    ensures var points := DailySeries(transactions).points;
      points[i].price == match FindOn(transactions, points[i].date)
                         case Some(t) => t.price
                         case None => if i > 0 then points[i - 1].price else SortByDate(transactions)[0].price
    ensures FindOn(transactions, DailySeries(transactions).points[0].date) == Some(SortByDate(transactions)[0])
  {
    var sorted := SortByDate(transactions);
    PointIs(transactions, i);
    PointIs(transactions, 0);
    if i > 0 { PointIs(transactions, i - 1); }
    FindOnSorted(transactions, sorted[0].date + i);
    FirstSortedTrade(transactions);
  }

  /**
   A point carries a trade marker exactly when some trade falls on its day, and the
   marker copies the first-listed such trade; later trades of that day are not shown.
   */
  lemma MarkerRule(transactions: seq<Trade>, i: nat)
    requires transactions != []
    requires i < |DailySeries(transactions).points|
    ensures var points := DailySeries(transactions).points;
      && (points[i].transaction.Some? <==> exists t :: t in transactions && t.date == points[i].date)
      && (points[i].transaction.Some? ==>
            exists j :: 0 <= j < |transactions| && transactions[j].date == points[i].date &&
              points[i].transaction.value ==
                Marker(transactions[j].action, transactions[j].price, transactions[j].quantity) &&
              forall k :: 0 <= k < j ==> transactions[k].date != points[i].date)
  {
    var sorted := SortByDate(transactions);
    var d := sorted[0].date + i;
    PointIs(transactions, i);
    FindOnSorted(transactions, d);
    FindOnFound(transactions, d);
    if FindOn(transactions, d).Some? {
      FindOnFirst(transactions, d);
    }
  }

  /** With one trade per day, the shares after `k` days are the signed quantities traded before that day. */
  lemma {:induction false} SharesAfterDays(sorted: seq<Trade>, k: nat)
    requires |sorted| > 0 && SortedByDate(sorted) && OneTradePerDay(sorted)
    ensures HoldingAfter(sorted, k).shares as real == TotalBefore(sorted, sorted[0].date + k, SignedQuantity)
  {
    if k == 0 {
      TotalBeforeNone(sorted, sorted[0].date, SignedQuantity);
    } else {
      SharesAfterDays(sorted, k - 1);
      TotalBeforeStep(sorted, sorted[0].date + k - 1, SignedQuantity);
      TotalOnDay(sorted, sorted[0].date + k - 1, SignedQuantity);
    }
  }

  /** Summing over the trades dated before the day after the last one sums over all of them. */
  lemma {:induction false} TotalThroughSpan(sorted: seq<Trade>, w: Trade -> real)
    requires |sorted| > 0 && SortedByDate(sorted)
    ensures TotalBefore(sorted, sorted[0].date + DaySpan(sorted), w) == Total(sorted, w)
  {
    var last := sorted[|sorted| - 1].date;
    assert forall i :: 0 <= i < |sorted| ==> sorted[i].date < last + 1;
    TotalBeforeAll(sorted, last + 1, w);
  }

  /** With one trade per day, the shares after the whole span of `n` days are the sum of the signed quantities. */
  lemma SharesAtEnd(sorted: seq<Trade>, n: nat)
    requires |sorted| > 0 && SortedByDate(sorted) && OneTradePerDay(sorted)
    requires n == DaySpan(sorted)
    ensures HoldingAfter(sorted, n).shares as real == Total(sorted, SignedQuantity)
  {
    SharesAfterDays(sorted, n);
    TotalThroughSpan(sorted, SignedQuantity);
  }

  /** With one trade per day, the last point holds every share bought less every share sold. */
  lemma FinalShares(transactions: seq<Trade>)
    requires transactions != [] && OneTradePerDay(transactions)
    ensures var points := DailySeries(transactions).points;
      points[|points| - 1].sharesOwned == SharesBought(transactions) - SharesSold(transactions)
  {
    var sorted := SortByDate(transactions);
    var n := DaySpan(sorted);
    PointIs(transactions, n - 1);
    SortOneTradePerDay(transactions);
    SharesAtEnd(sorted, n);
    TotalSort(transactions, SignedQuantity);
    NetShares(transactions);
  }

  lemma {:induction false} SharesGrow(sorted: seq<Trade>, i: nat, j: nat)
    requires |sorted| > 0 && BuyOnly(sorted) && i <= j
    ensures HoldingAfter(sorted, i).shares <= HoldingAfter(sorted, j).shares
  {
    if i < j {
      SharesGrow(sorted, i, j - 1);
      FindOnFound(sorted, sorted[0].date + j - 1);
    }
  }

  /** With buys only, the share count never decreases from one day to a later one. */
  lemma BuyOnlySharesNonDecreasing(transactions: seq<Trade>, i: nat, j: nat)
    requires transactions != [] && BuyOnly(transactions)
    requires i <= j < |DailySeries(transactions).points|
    ensures DailySeries(transactions).points[i].sharesOwned <= DailySeries(transactions).points[j].sharesOwned
  {
    var sorted := SortByDate(transactions);
    PointIs(transactions, i);
    PointIs(transactions, j);
    forall t | t in sorted ensures t.action == Buy {
      SortSameTrades(transactions, t);
    }
    SharesGrow(sorted, i + 1, j + 1);
  }

  /** With buys only and one trade per day, the cost basis after `k` days is the cost of the trades before that day. */
  lemma {:induction false} CostAfterDays(sorted: seq<Trade>, k: nat)
    requires |sorted| > 0 && SortedByDate(sorted) && OneTradePerDay(sorted) && BuyOnly(sorted)
    ensures HoldingAfter(sorted, k).investment == TotalBefore(sorted, sorted[0].date + k, Cost)
  {
    if k == 0 {
      TotalBeforeNone(sorted, sorted[0].date, Cost);
    } else {
      CostAfterDays(sorted, k - 1);
      TotalBeforeStep(sorted, sorted[0].date + k - 1, Cost);
      TotalOnDay(sorted, sorted[0].date + k - 1, Cost);
      FindOnFound(sorted, sorted[0].date + k - 1);
    }
  }

  /** With buys only and one trade per day, the cost basis after the whole span of `n` days is the sum of the costs. */
  lemma CostAtEnd(sorted: seq<Trade>, n: nat)
    requires |sorted| > 0 && SortedByDate(sorted) && OneTradePerDay(sorted) && BuyOnly(sorted)
    requires n == DaySpan(sorted)
    ensures HoldingAfter(sorted, n).investment == Total(sorted, Cost)
  {
    CostAfterDays(sorted, n);
    TotalThroughSpan(sorted, Cost);
  }

  /** With buys only and one trade per day, the final cost basis is the sum of quantity times price. */
  lemma BuyOnlyInvestment(transactions: seq<Trade>)
    requires transactions != [] && BuyOnly(transactions) && OneTradePerDay(transactions)
    ensures var points := DailySeries(transactions).points;
      points[|points| - 1].totalInvestment == Total(transactions, Cost)
  {
    var sorted := SortByDate(transactions);
    var n := DaySpan(sorted);
    PointIs(transactions, n - 1);
    forall t | t in sorted ensures t.action == Buy {
      SortSameTrades(transactions, t);
    }
    SortOneTradePerDay(transactions);
    CostAtEnd(sorted, n);
    TotalSort(transactions, Cost);
  }

  lemma {:induction false} CostBasisBounded(sorted: seq<Trade>, k: nat)
    requires |sorted| > 0 && forall t :: t in sorted ==> t.price >= 0.0
    ensures HoldingAfter(sorted, k).investment >= 0.0
  {
    if k > 0 {
      CostBasisBounded(sorted, k - 1);
      var d := sorted[0].date + k - 1;
      FindOnFound(sorted, d);
      var h := HoldingAfter(sorted, k - 1);
      match FindOn(sorted, d)
      case None =>
      case Some(t) =>
        if t.action == Buy {
          CostNonNegative(t);
        } else if h.shares - t.quantity > 0 {
          RescaledBounds(h.investment, h.shares - t.quantity, t.quantity);
        }
    }
  }

  /** With non-negative prices the cost basis is never negative. */
  lemma CostBasisNonNegative(transactions: seq<Trade>, i: nat)
    requires transactions != [] && forall t :: t in transactions ==> t.price >= 0.0
    requires i < |DailySeries(transactions).points|
    ensures DailySeries(transactions).points[i].totalInvestment >= 0.0
  {
    var sorted := SortByDate(transactions);
    PointIs(transactions, i);
    forall t | t in sorted ensures t.price >= 0.0 {
      SortSameTrades(transactions, t);
    }
    CostBasisBounded(sorted, i + 1);
  }

  lemma {:induction false} PriceAtNonNegative(sorted: seq<Trade>, k: nat)
    requires |sorted| > 0 && forall t :: t in sorted ==> t.price >= 0.0
    ensures PriceAt(sorted, k) >= 0.0
  {
    FindOnFound(sorted, sorted[0].date + k);
    if FindOn(sorted, sorted[0].date + k).None? && k > 0 {
      PriceAtNonNegative(sorted, k - 1);
    }
  }

  /** With non-negative trade prices every recorded price is non-negative. */
  lemma PriceNonNegative(transactions: seq<Trade>, i: nat)
    requires transactions != [] && forall t :: t in transactions ==> t.price >= 0.0
    requires i < |DailySeries(transactions).points|
    ensures DailySeries(transactions).points[i].price >= 0.0
  {
    var sorted := SortByDate(transactions);
    PointIs(transactions, i);
    forall t | t in sorted ensures t.price >= 0.0 {
      SortSameTrades(transactions, t);
    }
    PriceAtNonNegative(sorted, i);
  }

  /** With non-negative trade prices, a point that holds no short position has a non-negative market value. */
  lemma ValueNonNegative(transactions: seq<Trade>, i: nat)
    requires transactions != [] && forall t :: t in transactions ==> t.price >= 0.0
    requires i < |DailySeries(transactions).points|
    requires DailySeries(transactions).points[i].sharesOwned >= 0
    ensures DailySeries(transactions).points[i].portfolioValue >= 0.0
  {
    var p := DailySeries(transactions).points[i];
    ValueIdentities(transactions, i);
    PriceNonNegative(transactions, i);
    ValueOfNonNegative(p.sharesOwned, p.price);
  }
}
