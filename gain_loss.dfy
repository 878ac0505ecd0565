/**
 The headline gain/loss figure: the size of the unrealized gain and that gain as
 a percentage of the money still invested, with a zero investment shown as 0 / 0%.
 */
module GainLoss {
  import opened Trades
  import opened Valuation
  import ValuationProperties

  datatype GainLossSummary = GainLossSummary(value: real, percentage: real)

  function Abs(x: real): (r: real)
  {
    if x < 0.0 then -x else x
  }

  /** Gain as a percentage of the investment; the investment must be non-zero. */
  function Percentage(gainLoss: real, totalInvestment: real): (r: real)
    requires totalInvestment != 0.0
    ensures r * totalInvestment == gainLoss * 100.0
  {
    (gainLoss / totalInvestment) * 100.0
  }

  /**
   Zero investment gives 0 and 0%; otherwise the magnitude of the gain and the
   percentage that, applied to the investment, gives back the gain.
   */
  function FormatUnrealizedGainLoss(gainLoss: real, totalInvestment: real): (r: GainLossSummary)
    ensures r.value >= 0.0
    ensures totalInvestment == 0.0 ==> r.value == 0.0 && r.percentage == 0.0
    ensures totalInvestment != 0.0 ==>
      && (r.value == gainLoss || r.value == -gainLoss)
      && r.percentage * totalInvestment == gainLoss * 100.0
  {
    if totalInvestment == 0.0 then GainLossSummary(0.0, 0.0)
    else GainLossSummary(Abs(gainLoss), Percentage(gainLoss, totalInvestment))
  }

  /** With money invested, the percentage has the sign of the gain. */
  lemma PercentageSign(gainLoss: real, totalInvestment: real)
    requires totalInvestment > 0.0
    ensures var r := FormatUnrealizedGainLoss(gainLoss, totalInvestment);
      && (r.percentage > 0.0 <==> gainLoss > 0.0)
      && (r.percentage < 0.0 <==> gainLoss < 0.0)
  {
  }

  /**
   A position whose market value is not negative loses at most all of the money
   invested in it: the percentage never falls below -100.
   */
  lemma LossAtMostAll(portfolioValue: real, totalInvestment: real)
    requires totalInvestment > 0.0 && portfolioValue >= 0.0
    ensures FormatUnrealizedGainLoss(portfolioValue - totalInvestment, totalInvestment).percentage >= -100.0
  {
  }

  /**
   For any point of a valuation with non-negative prices that holds no short position
   and has money invested, the headline percentage is at least -100.
   */
  lemma PointLossAtMostAll(transactions: seq<Trade>, i: nat)
    requires transactions != [] && forall t :: t in transactions ==> t.price >= 0.0
    requires i < |DailySeries(transactions).points|
    requires DailySeries(transactions).points[i].sharesOwned >= 0
    requires DailySeries(transactions).points[i].totalInvestment > 0.0
    ensures var p := DailySeries(transactions).points[i];
      FormatUnrealizedGainLoss(p.unrealizedGainLoss, p.totalInvestment).percentage >= -100.0
  {
    var p := DailySeries(transactions).points[i];
    ValuationProperties.ValueIdentities(transactions, i);
    ValuationProperties.ValueNonNegative(transactions, i);
    LossAtMostAll(p.portfolioValue, p.totalInvestment);
  }
}
