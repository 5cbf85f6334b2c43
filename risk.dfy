/** `generate_risk_analysis`: the overall delay rate picks a risk tier; a
    high tier names the partners with the highest and lowest delay rates;
    the last insight is the cost of the delayed shipments. Any exception
    ends the function with a single error insight. The insight texts are
    modelled by the values they format. */
module Risk {
  import opened Wrappers
  import opened Records
  import opened Keys
  import opened Aggregation
  import opened DeliveryMetrics

  /** The exceptions the function can raise on a table. */
  datatype Failure =
    | MissingColumn(col: Column)   // KeyError on `df[col]`
    | EmptyArgMax                  // ValueError from `idxmax` of an empty series
    | UnboundWorstPartner          // `worst_partner` read without being assigned

  datatype Tier = High | Medium | Low

  /** One insight line, with the values its f-string formats. */
  datatype Insight =
    | HighRisk(delayedRate: real, delayedOrders: nat, totalOrders: nat)
    | RootCause(worst: string, worstRate: real, best: string, bestRate: real)
    | Recommendation(from: string, to: string)
    | MediumRisk(delayedRate: real)
    | LowRisk(delayedRate: real)
    | FinancialImpact(delayedCost: real, costImpact: real)
    | Error(failure: Failure)

  /** Lines 32-39: strictly above 25 is high, strictly above 15 medium. */
  function RiskTier(rate: real): (t: Tier)
    ensures t == High <==> rate > 25.0
    ensures t == Medium <==> 15.0 < rate <= 25.0
    ensures t == Low <==> rate <= 15.0
  {
    if rate > 25.0 then High else if rate > 15.0 then Medium else Low
  }

  function Severity(t: Tier): nat {
    match t
    case Low => 0
    case Medium => 1
    case High => 2
  }

  /** A higher delay rate never gives a lower tier. */
  lemma RiskTierMonotone(a: real, b: real)
    requires a <= b
    ensures Severity(RiskTier(a)) <= Severity(RiskTier(b))
  {
  }

  // ----- partner delay rates -----

  /** `(x == 'Delayed').mean() * 100` over the orders of partner `k`. */
  function PartnerDelayRate(rows: seq<Record>, k: string): (p: real)
    requires HasKey(rows, PartnerCol, k)
    ensures 0.0 <= p <= 100.0
    ensures p == 0.0 <==> CountStatus(Group(rows, PartnerCol, k), Status.Delayed) == 0
    ensures p == 100.0 <==> CountStatus(Group(rows, PartnerCol, k), Status.Delayed) == |Group(rows, PartnerCol, k)|
  {
    var g := Group(rows, PartnerCol, k);
    Percent(CountStatus(g, Status.Delayed), |g|)
  }

  /** `partner_performance` (lines 20-22): one rate per partner, in the
      sorted key order `groupby` produces. */
  function PartnerDelayRates(rows: seq<Record>): (rates: seq<real>)
    ensures |rates| == |GroupKeys(rows, PartnerCol)|
    ensures forall i :: 0 <= i < |rates| ==>
      HasKey(rows, PartnerCol, GroupKeys(rows, PartnerCol)[i])
      && rates[i] == PartnerDelayRate(rows, GroupKeys(rows, PartnerCol)[i])
  {
    var ks := GroupKeys(rows, PartnerCol);
    seq(|ks|, i requires 0 <= i < |ks| => PartnerDelayRate(rows, ks[i]))
  }

  /** The worst and the best partner with their rates (lines 23-26). */
  datatype Extremes = Extremes(worst: string, worstRate: real, best: string, bestRate: real)

  /** `idxmax`/`max` and `idxmin`/`min` of the partner rates; None when
      there is no partner, where `idxmax` raises. */
  function PartnerExtremes(rows: seq<Record>): (e: Option<Extremes>)
    ensures e.None? <==> forall i :: 0 <= i < |rows| ==> rows[i].partner.None?
  {
    var ks := GroupKeys(rows, PartnerCol);
    assert ks == [] ==> forall i :: 0 <= i < |rows| ==> rows[i].partner.None? by {
      if ks == [] {
        forall i | 0 <= i < |rows| ensures rows[i].partner.None? {
          if rows[i].partner.Some? { assert HasKey(rows, PartnerCol, rows[i].partner.value); }
        }
      }
    }
    if ks == [] then None
    else
      var rates := PartnerDelayRates(rows);
      var w := ArgMax(rates);
      var b := ArgMin(rates);
      Some(Extremes(ks[w], rates[w], ks[b], rates[b]))
  }

  /** The worst partner has the highest delay rate and comes first in key
      order among the partners that share it; the best partner likewise
      has the lowest. */
  lemma PartnerExtremesSpec(rows: seq<Record>)
    requires PartnerExtremes(rows).Some?
    ensures var e := PartnerExtremes(rows).value;
      HasKey(rows, PartnerCol, e.worst) && e.worstRate == PartnerDelayRate(rows, e.worst)
      && HasKey(rows, PartnerCol, e.best) && e.bestRate == PartnerDelayRate(rows, e.best)
      && (forall k :: HasKey(rows, PartnerCol, k) ==> e.bestRate <= PartnerDelayRate(rows, k) <= e.worstRate)
      && (forall k :: HasKey(rows, PartnerCol, k) && Less(k, e.worst) ==> PartnerDelayRate(rows, k) < e.worstRate)
      && (forall k :: HasKey(rows, PartnerCol, k) && Less(k, e.best) ==> e.bestRate < PartnerDelayRate(rows, k))
  {
    WorstPartnerSpec(rows);
    BestPartnerSpec(rows);
  }

  lemma WorstPartnerSpec(rows: seq<Record>)
    requires PartnerExtremes(rows).Some?
    ensures var e := PartnerExtremes(rows).value;
      HasKey(rows, PartnerCol, e.worst) && e.worstRate == PartnerDelayRate(rows, e.worst)
      && (forall k :: HasKey(rows, PartnerCol, k) ==> PartnerDelayRate(rows, k) <= e.worstRate)
      && (forall k :: HasKey(rows, PartnerCol, k) && Less(k, e.worst) ==> PartnerDelayRate(rows, k) < e.worstRate)
  {
    var ks := GroupKeys(rows, PartnerCol);
    var rates := PartnerDelayRates(rows);
    var w := ArgMax(rates);
    assert PartnerExtremes(rows).value == Extremes(ks[ArgMax(rates)], rates[ArgMax(rates)], ks[ArgMin(rates)], rates[ArgMin(rates)]);
    forall k | HasKey(rows, PartnerCol, k)
      ensures PartnerDelayRate(rows, k) <= rates[w]
      ensures Less(k, ks[w]) ==> PartnerDelayRate(rows, k) < rates[w]
    {
      var j :| 0 <= j < |ks| && ks[j] == k;
      assert rates[j] == PartnerDelayRate(rows, k);
      OrderOfKeys(ks, j, w);
    }
  }

  lemma BestPartnerSpec(rows: seq<Record>)
    requires PartnerExtremes(rows).Some?
    ensures var e := PartnerExtremes(rows).value;
      HasKey(rows, PartnerCol, e.best) && e.bestRate == PartnerDelayRate(rows, e.best)
      && (forall k :: HasKey(rows, PartnerCol, k) ==> e.bestRate <= PartnerDelayRate(rows, k))
      && (forall k :: HasKey(rows, PartnerCol, k) && Less(k, e.best) ==> e.bestRate < PartnerDelayRate(rows, k))
  {
    var ks := GroupKeys(rows, PartnerCol);
    var rates := PartnerDelayRates(rows);
    var b := ArgMin(rates);
    assert PartnerExtremes(rows).value == Extremes(ks[ArgMax(rates)], rates[ArgMax(rates)], ks[ArgMin(rates)], rates[ArgMin(rates)]);
    forall k | HasKey(rows, PartnerCol, k)
      ensures rates[b] <= PartnerDelayRate(rows, k)
      ensures Less(k, ks[b]) ==> rates[b] < PartnerDelayRate(rows, k)
    {
      var j :| 0 <= j < |ks| && ks[j] == k;
      assert rates[j] == PartnerDelayRate(rows, k);
      OrderOfKeys(ks, j, b);
    }
  }

  /** In a strictly sorted key list a key that is less than another stands
      before it. */
  lemma OrderOfKeys(ks: seq<string>, j: int, i: int)
    requires StrictlySorted(ks) && 0 <= j < |ks| && 0 <= i < |ks|
    ensures Less(ks[j], ks[i]) ==> j < i
  {
    if i < j {
      LessTotal(ks[i], ks[j]);
    } else if i == j {
      LessIrreflexive(ks[i]);
    }
  }

  // ----- cost impact -----

  /** `df[df['Delivery Status'] == 'Delayed']['Total Cost'].sum()`. */
  function DelayedCost(rows: seq<Record>): real {
    SumOf(Group(rows, DeliveryStatusCol, StatusName(Status.Delayed)), Cost)
  }

  /** Line 44: the delayed cost as a percentage of the total, 0 when the
      total is not positive. */
  function CostImpact(delayedCost: real, totalCost: real): (p: real)
    ensures totalCost <= 0.0 ==> p == 0.0
    ensures totalCost > 0.0 ==> p * totalCost == delayedCost * 100.0
  {
    if totalCost > 0.0 then delayedCost / totalCost * 100.0 else 0.0
  }

  /** With non-negative costs the delayed cost is part of the total, so the
      impact is a percentage. */
  lemma CostImpactBounds(rows: seq<Record>)
    requires NonNegative(rows, Cost)
    ensures 0.0 <= DelayedCost(rows) <= SumOf(rows, Cost)
    ensures 0.0 <= CostImpact(DelayedCost(rows), SumOf(rows, Cost)) <= 100.0
  {
    GroupSumAtMost(rows, DeliveryStatusCol, StatusName(Status.Delayed), Cost);
    ImpactOfPart(DelayedCost(rows), SumOf(rows, Cost));
  }

  /** The impact of a part of a total is a percentage. */
  lemma ImpactOfPart(part: real, total: real)
    requires 0.0 <= part <= total
    ensures 0.0 <= CostImpact(part, total) <= 100.0
  {
    if total > 0.0 {
      QuotientBetween(part, total, 0.0, 1.0);
    }
  }

  // ----- the analysis -----

  /** The overall delay rate (lines 14-16). */
  function DelayedRate(rows: seq<Record>): (r: real)
    ensures 0.0 <= r <= 100.0
    ensures rows == [] ==> r == 0.0
    ensures rows != [] ==> r * (|rows| as real) == (CountStatus(rows, Status.Delayed) as real) * 100.0
  {
    Rate(CountStatus(rows, Status.Delayed), |rows|)
  }

  /** `generate_risk_analysis(df)`, the exceptions of lines 15, 23, 34 and
      42 tried in the order the code reaches them. */
  function RiskAnalysis(t: Table): (out: seq<Insight>)
    ensures |out| == 1 || |out| == 2 || |out| == 4
    ensures out[0].Error? <==> |out| == 1
    ensures DeliveryStatusCol !in t.columns ==> out == [Error(MissingColumn(DeliveryStatusCol))]
    ensures DeliveryStatusCol in t.columns && PartnerCol in t.columns && PartnerExtremes(t.rows).None?
      ==> out == [Error(EmptyArgMax)]
    ensures DeliveryStatusCol in t.columns && PartnerCol !in t.columns && DelayedRate(t.rows) > 25.0
      ==> out == [Error(UnboundWorstPartner)]
    ensures |out| > 1 ==> out[|out| - 1] == FinancialImpact(DelayedCost(t.rows), CostImpact(DelayedCost(t.rows), SumOf(t.rows, Cost)))
  {
    var rows := t.rows;
    if DeliveryStatusCol !in t.columns then [Error(MissingColumn(DeliveryStatusCol))]
    else
      var delayed := CountStatus(rows, Status.Delayed);
      var rate := DelayedRate(rows);
      var extremes := if PartnerCol in t.columns then PartnerExtremes(rows) else None;
      if PartnerCol in t.columns && extremes.None? then [Error(EmptyArgMax)]
      else if RiskTier(rate) == High && PartnerCol !in t.columns then [Error(UnboundWorstPartner)]
      else if TotalCostCol !in t.columns then [Error(MissingColumn(TotalCostCol))]
      else
        var impact := FinancialImpact(DelayedCost(rows), CostImpact(DelayedCost(rows), SumOf(rows, Cost)));
        match RiskTier(rate)
        case High =>
          var e := extremes.value;
          [HighRisk(rate, delayed, |rows|), RootCause(e.worst, e.worstRate, e.best, e.bestRate),
           Recommendation(e.worst, e.best), impact]
        case Medium => [MediumRisk(rate), impact]
        case Low => [LowRisk(rate), impact]
  }

  /** The analysis fails exactly when the status column is missing, when
      the partner column exists but holds no partner, when the rate is high
      and there is no partner column, or when the cost column is missing. */
  lemma RiskAnalysisFails(t: Table)
    ensures RiskAnalysis(t)[0].Error? <==>
      DeliveryStatusCol !in t.columns
      || (PartnerCol in t.columns && forall i :: 0 <= i < |t.rows| ==> t.rows[i].partner.None?)
      || (PartnerCol !in t.columns && DelayedRate(t.rows) > 25.0)
      || TotalCostCol !in t.columns
  {
  }

  /** On success the first insight reports the tier of the overall delay
      rate with that rate, and the report has four lines for a high tier
      and two otherwise. */
  lemma RiskAnalysisTier(t: Table)
    requires !RiskAnalysis(t)[0].Error?
    ensures var out := RiskAnalysis(t); var rate := DelayedRate(t.rows);
      (RiskTier(rate) == High <==> |out| == 4)
      && (RiskTier(rate) == High ==> out[0] == HighRisk(rate, CountStatus(t.rows, Status.Delayed), |t.rows|))
      && (RiskTier(rate) == Medium <==> out[0] == MediumRisk(rate))
      && (RiskTier(rate) == Low <==> out[0] == LowRisk(rate))
  {
  }

  /** A high-risk report blames the partner with the highest delay rate
      and recommends moving volume to the one with the lowest. */
  lemma HighRiskNamesExtremes(t: Table)
    requires !RiskAnalysis(t)[0].Error? && |RiskAnalysis(t)| == 4
    ensures var out := RiskAnalysis(t);
      out[1].RootCause? && out[2] == Recommendation(out[1].worst, out[1].best)
      && HasKey(t.rows, PartnerCol, out[1].worst) && HasKey(t.rows, PartnerCol, out[1].best)
      && out[1].worstRate == PartnerDelayRate(t.rows, out[1].worst)
      && out[1].bestRate == PartnerDelayRate(t.rows, out[1].best)
      && (forall k :: HasKey(t.rows, PartnerCol, k) ==>
            out[1].bestRate <= PartnerDelayRate(t.rows, k) <= out[1].worstRate)
  {
    HighRiskParts(t);
    PartnerExtremesSpec(t.rows);
  }

  /** A four-line report is the high-tier report over the partner
      extremes. */
  lemma HighRiskParts(t: Table)
    requires !RiskAnalysis(t)[0].Error? && |RiskAnalysis(t)| == 4
    ensures PartnerExtremes(t.rows).Some?
    ensures var out := RiskAnalysis(t); var e := PartnerExtremes(t.rows).value;
      out[1] == RootCause(e.worst, e.worstRate, e.best, e.bestRate) && out[2] == Recommendation(e.worst, e.best)
  {
  }
}
