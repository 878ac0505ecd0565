/**
 The daily valuation transform: from a list of trades, one point per calendar day
 from the first trade date to the last, carrying the running share count, the cost
 basis still invested, the day's price, the market value and the unrealized gain.
 */
module Valuation {
  import opened Trades

  /** The part of a trade a daily point records. */
  datatype Marker = Marker(action: Action, price: real, quantity: nat)

  datatype DailyPoint = DailyPoint(
    date: int,
    price: real,
    portfolioValue: real,
    sharesOwned: int,
    unrealizedGainLoss: real,
    totalInvestment: real,
    transaction: Option<Marker>)

  /** The two running accumulators: net shares owned and the cost basis. */
  datatype Holding = Holding(shares: int, investment: real)

  datatype Fault = NoTransactions

  datatype Outcome = Ok(points: seq<DailyPoint>) | Failed(fault: Fault)

  /** Market value of a position: shares times price. */
  function ValueOf(shares: int, price: real): (r: real)
  {
    shares as real * price
  }

  lemma ValueOfNonNegative(shares: int, price: real)
    requires shares >= 0 && price >= 0.0
    ensures ValueOf(shares, price) >= 0.0
  {
  }

  /** A cost basis scaled by the fraction of the position kept after selling `sold` shares. */
  function Rescaled(investment: real, remaining: int, sold: nat): (r: real)
    requires remaining > 0
  {
    investment * (remaining as real / (remaining + sold) as real)
  }

  lemma CostNonNegative(t: Trade)
    requires t.price >= 0.0
    ensures Cost(t) >= 0.0
  {
  }

  /** Rescaling keeps a non-negative cost basis between zero and its old value. */
  lemma RescaledBounds(investment: real, remaining: int, sold: nat)
    requires investment >= 0.0 && remaining > 0
    ensures 0.0 <= Rescaled(investment, remaining, sold) <= investment
  {
  }

  /**
   The effect of the day's trade on the accumulators. A sale scales the cost basis by
   the fraction of the position kept, or clears it when no shares remain.
   */
  function Apply(h: Holding, trade: Option<Trade>): (r: Holding)
  {
    match trade
    case None => h
    case Some(t) =>
      if t.action == Buy then
        Holding(h.shares + t.quantity, h.investment + Cost(t))
      else
        var shares := h.shares - t.quantity;
        Holding(shares, if shares > 0 then Rescaled(h.investment, shares, t.quantity) else 0.0)
  }

  function MarkerOf(trade: Option<Trade>): (r: Option<Marker>)
  {
    match trade
    case None => None
    case Some(t) => Some(Marker(t.action, t.price, t.quantity))
  }

  /** Accumulators after the first `k` days, counted from the first sorted trade's date. */
  function HoldingAfter(sorted: seq<Trade>, k: nat): (r: Holding)
    requires |sorted| > 0
  {
    if k == 0 then Holding(0, 0.0)
    else Apply(HoldingAfter(sorted, k - 1), FindOn(sorted, sorted[0].date + k - 1))
  }

  /** The price of day `k`: that day's trade, else the day before, else the first trade. */
  function PriceAt(sorted: seq<Trade>, k: nat): (r: real)
    requires |sorted| > 0
  {
    match FindOn(sorted, sorted[0].date + k)
    case Some(t) => t.price
    case None => if k > 0 then PriceAt(sorted, k - 1) else sorted[0].price
  }

  /** The point recorded for day `k`, after that day's trade is applied. */
  function PointAt(sorted: seq<Trade>, k: nat): (r: DailyPoint)
    requires |sorted| > 0
  {
    var h := HoldingAfter(sorted, k + 1);
    var price := PriceAt(sorted, k);
    var value := ValueOf(h.shares, price);
    DailyPoint(sorted[0].date + k, price, value, h.shares, value - h.investment, h.investment,
               MarkerOf(FindOn(sorted, sorted[0].date + k)))
  }

  /** The points of the first `n` days. */
  function Series(sorted: seq<Trade>, n: nat): (r: seq<DailyPoint>)
    requires |sorted| > 0
    ensures |r| == n
  {
    if n == 0 then [] else Series(sorted, n - 1) + [PointAt(sorted, n - 1)]
  }

  lemma {:induction false} SeriesAt(sorted: seq<Trade>, n: nat, k: nat)
    requires |sorted| > 0 && k < n
    ensures Series(sorted, n)[k] == PointAt(sorted, k)
  {
    if k < n - 1 {
      SeriesAt(sorted, n - 1, k);
    }
  }

  /** Number of calendar days from the first to the last sorted trade, inclusive. */
  function DaySpan(sorted: seq<Trade>): (r: nat)
    requires |sorted| > 0 && SortedByDate(sorted)
  {
    sorted[|sorted| - 1].date - sorted[0].date + 1
  }

  /** What transformStockData produces: fails on an empty list, else one point per day. */
  ghost function DailySeries(transactions: seq<Trade>): (r: Outcome)
  {
    if transactions == [] then Failed(NoTransactions)
    else
      var sorted := SortByDate(transactions);
      Ok(Series(sorted, DaySpan(sorted)))
  }

  lemma HoldingStep(sorted: seq<Trade>, k: nat)
    requires |sorted| > 0
    ensures HoldingAfter(sorted, k + 1) == Apply(HoldingAfter(sorted, k), FindOn(sorted, sorted[0].date + k))
  {
  }

  /** Extending the series by one day appends that day's point, assembled from its parts. */
  lemma SeriesStep(sorted: seq<Trade>, k: nat, h: Holding, price: real)
    requires |sorted| > 0
    requires h == HoldingAfter(sorted, k + 1) && price == PriceAt(sorted, k)
    ensures Series(sorted, k + 1) == Series(sorted, k) +
      [DailyPoint(sorted[0].date + k, price, ValueOf(h.shares, price), h.shares,
                  ValueOf(h.shares, price) - h.investment, h.investment,
                  MarkerOf(FindOn(sorted, sorted[0].date + k)))]
  {
  }

  /**
   The loop body's update of the two accumulators for the day's trade, if any: a buy adds
   its shares and its cost; a sale removes its shares and rescales or clears the cost basis.
   */
  method ApplyTransaction(netSharesOwned: int, totalInvestment: real, transaction: Option<Trade>)
    returns (shares: int, investment: real)
    ensures Holding(shares, investment) == Apply(Holding(netSharesOwned, totalInvestment), transaction)
  {
    shares, investment := netSharesOwned, totalInvestment;
    if transaction.Some? {
      var t := transaction.value;
      if t.action == Buy {
        shares := shares + t.quantity;
        investment := investment + Cost(t);
      } else {
        shares := shares - t.quantity;
        investment := if shares > 0 then Rescaled(investment, shares, t.quantity) else 0.0;
      }
    }
  }

  method TransformStockData(transactions: seq<Trade>) returns (r: Outcome)
    ensures r == DailySeries(transactions)
  {
    if |transactions| == 0 {
      return Failed(NoTransactions);
    }
    var sortedTransactions := SortByDate(transactions);
    var netSharesOwned: int := 0;
    var totalInvestment: real := 0.0;
    var startDate := sortedTransactions[0].date;
    var endDate := sortedTransactions[|sortedTransactions| - 1].date;
    // The fallback price of a day with no trade and no earlier point; the first day always has a trade.
    var firstPrice := sortedTransactions[0].price;
    var dailyData: seq<DailyPoint> := [];
    var currentDate := startDate;
    while currentDate <= endDate
      invariant startDate <= currentDate <= endDate + 1
      invariant dailyData == Series(sortedTransactions, currentDate - startDate)
      invariant Holding(netSharesOwned, totalInvestment) == HoldingAfter(sortedTransactions, currentDate - startDate)
      decreases endDate - currentDate
    {
      ghost var k := currentDate - startDate;
      var transaction := FindOn(sortedTransactions, currentDate);
      netSharesOwned, totalInvestment := ApplyTransaction(netSharesOwned, totalInvestment, transaction);
      HoldingStep(sortedTransactions, k);
      assert Holding(netSharesOwned, totalInvestment) == HoldingAfter(sortedTransactions, k + 1);
      var currentPrice := if transaction.Some? then transaction.value.price
        else if |dailyData| > 0 then dailyData[|dailyData| - 1].price
        else firstPrice;
      if k > 0 { SeriesAt(sortedTransactions, k, k - 1); }
      assert currentPrice == PriceAt(sortedTransactions, k);
      SeriesStep(sortedTransactions, k, Holding(netSharesOwned, totalInvestment), currentPrice);
      var portfolioValue := ValueOf(netSharesOwned, currentPrice);
      var unrealizedGainLoss := portfolioValue - totalInvestment;
      dailyData := dailyData + [DailyPoint(currentDate, currentPrice, portfolioValue, netSharesOwned,
                                           unrealizedGainLoss, totalInvestment, MarkerOf(transaction))];
      currentDate := currentDate + 1;
    }
    r := Ok(dailyData);
  }
}
