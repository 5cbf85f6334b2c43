/** `get_supplier_performance` and `get_logistics_performance`: one row per
    supplier or logistics partner, aggregated over that group's records and
    sorted by a score, highest first. Any failure (a missing column raising
    KeyError, an empty `value_counts`) makes the function return an empty
    table, modelled as the empty sequence. */
module Rollups {
  import opened Wrappers
  import opened Records
  import opened Keys
  import opened Aggregation

  // ----- supplier rollup -----

  /** One row of the supplier table (lines 129-139). */
  datatype SupplierRow = SupplierRow(
    supplier: string,
    totalCostSum: real,
    totalCostMean: Option<real>,
    totalQuantity: real,
    avgUnitPrice: Option<real>,
    onTimeDeliveryRate: real,
    logisticsPartnersUsed: nat,
    primaryShippingMethod: string,
    performanceScore: Option<real>)

  /** Line 116 checks Supplier; the `agg` of lines 119-126 reads the
      others and raises KeyError when one is missing. */
  predicate HasSupplierColumns(columns: set<Column>) {
    SupplierCol in columns && TotalCostCol in columns && QuantityCol in columns
    && UnitPriceCol in columns && DeliveryStatusCol in columns && PartnerCol in columns
    && ShippingMethodCol in columns
  }

  /** The aggregates of one supplier's group (lines 119-126), before the
      score is added. */
  function SupplierAgg(rows: seq<Record>, k: string): (row: SupplierRow)
    requires HasKey(rows, SupplierCol, k)
    ensures row.supplier == k
    ensures 0.0 <= row.onTimeDeliveryRate <= 100.0
  {
    var g := Group(rows, SupplierCol, k);
    SupplierRow(
      k, SumOf(g, Cost), MeanOf(g, Cost), SumOf(g, Quantity), MeanOf(g, UnitPrice),
      StatusShare(g, Status.Delivered), NUnique(g, PartnerCol),
      Mode(g, ShippingMethodCol).GetOr("Unknown"), None)
  }

  /** `Series.max()`: the largest present value, NaN (None) when there is
      none. */
  function MaxPresent(xs: seq<Option<real>>): (m: Option<real>)
    ensures m.None? <==> forall i :: 0 <= i < |xs| ==> xs[i].None?
    ensures m.Some? ==> exists i :: 0 <= i < |xs| && xs[i] == m
    ensures m.Some? ==> forall i :: 0 <= i < |xs| && xs[i].Some? ==> xs[i].value <= m.value
  {
    if xs == [] then None
    else
      var rest := MaxPresent(xs[1..]);
      assert forall i :: 1 <= i < |xs| ==> xs[i] == xs[1..][i - 1];
      assert rest.Some? ==> exists i :: 0 <= i < |xs| && xs[i] == rest by {
        if rest.Some? {
          var i :| 0 <= i < |xs[1..]| && xs[1..][i] == rest;
          assert xs[i + 1] == rest;
        }
      }
      if xs[0].None? then rest
      else if rest.None? || rest.value <= xs[0].value then xs[0]
      else rest
  }

  /** Lines 136-139: 60% on-time rate plus 40% cost efficiency, where the
      cost efficiency is 100 minus the mean cost as a percentage of the
      largest supplier mean. NaN (None) when the mean or the maximum is
      NaN, or when the maximum is 0 (a 0/0 or a division by zero). */
  function Score(onTime: real, mean: Option<real>, max: Option<real>): (s: Option<real>)
    ensures s.None? <==> mean.None? || max.None? || max.value == 0.0
    ensures s.Some? && mean.value == max.value ==> s.value == 0.6 * onTime
    ensures s.Some? && 0.0 <= onTime <= 100.0 && 0.0 <= mean.value <= max.value ==> 0.0 <= s.value <= 100.0
  {
    if mean.None? || max.None? || max.value == 0.0 then None
    else
      var share := mean.value / max.value;
      ShareOfMax(mean.value, max.value);
      Some(onTime * 0.6 + (100.0 - share * 100.0) * 0.4)
  }

  /** A mean as a fraction of the largest mean. */
  lemma ShareOfMax(m: real, max: real)
    requires max != 0.0
    ensures m == max ==> m / max == 1.0
    ensures 0.0 <= m <= max ==> 0.0 <= m / max <= 1.0
  {
    if 0.0 <= m <= max {
      QuotientBetween(m, max, 0.0, 1.0);
    }
  }

  /** A cheaper supplier with the same on-time rate never scores lower. */
  lemma ScoreFavoursLowerCost(onTime: real, m1: real, m2: real, max: real)
    requires 0.0 < max && m1 <= m2
    ensures Score(onTime, Some(m1), Some(max)).value >= Score(onTime, Some(m2), Some(max)).value
  {
    assert m1 / max <= m2 / max;
  }

  /** The mean costs of the supplier groups, in key order. */
  function SupplierCostMeans(rows: seq<Record>): (ms: seq<Option<real>>)
    ensures |ms| == |GroupKeys(rows, SupplierCol)|
  {
    var ks := GroupKeys(rows, SupplierCol);
    seq(|ks|, i requires 0 <= i < |ks| => MeanOf(Group(rows, SupplierCol, ks[i]), Cost))
  }

  /** `supplier_metrics['Total_Cost_Mean'].max()`. */
  function MaxSupplierMean(rows: seq<Record>): Option<real> {
    MaxPresent(SupplierCostMeans(rows))
  }

  /** The finished row of supplier `k`. */
  function SupplierRowFor(rows: seq<Record>, k: string): SupplierRow
    requires HasKey(rows, SupplierCol, k)
  {
    var row := SupplierAgg(rows, k);
    row.(performanceScore := Score(row.onTimeDeliveryRate, row.totalCostMean, MaxSupplierMean(rows)))
  }

  function SupplierScore(row: SupplierRow): Option<real> {
    row.performanceScore
  }

  function SupplierName(row: SupplierRow): string {
    row.supplier
  }

  /** The supplier rows in key order, before sorting. */
  function SupplierRows(rows: seq<Record>): (r: seq<SupplierRow>)
    ensures |r| == |GroupKeys(rows, SupplierCol)|
    ensures forall i :: 0 <= i < |r| ==> SupplierName(r[i]) == GroupKeys(rows, SupplierCol)[i]
  {
    var ks := GroupKeys(rows, SupplierCol);
    seq(|ks|, i requires 0 <= i < |ks| => SupplierRowFor(rows, ks[i]))
  }

  /** `get_supplier_performance(df)`: the rows sorted by score, highest
      first, NaN scores last. */
  function SupplierPerformance(t: Table): seq<SupplierRow> {
    if !HasSupplierColumns(t.columns) then []
    else SortDesc(SupplierRows(t.rows), SupplierScore)
  }

  /** The supplier table is empty when a column it reads is missing, and
      otherwise has one row per supplier, sorted by score. */
  lemma SupplierPerformanceShape(t: Table)
    ensures var r := SupplierPerformance(t);
      (!HasSupplierColumns(t.columns) ==> r == [])
      && (HasSupplierColumns(t.columns) ==> |r| == |GroupKeys(t.rows, SupplierCol)|)
      && SortedDesc(r, SupplierScore)
  {
  }

  /** No supplier appears twice in the supplier table and every supplier
      appears. */
  lemma SupplierPerformanceRows(t: Table)
    requires HasSupplierColumns(t.columns)
    ensures var r := SupplierPerformance(t);
      (forall i, j :: 0 <= i < j < |r| ==> r[i].supplier != r[j].supplier)
      && (forall k :: HasKey(t.rows, SupplierCol, k) ==> exists i :: 0 <= i < |r| && r[i].supplier == k)
  {
    var ks := GroupKeys(t.rows, SupplierCol);
    SortDescKeyed(SupplierRows(t.rows), ks, SupplierName, SupplierScore);
    forall k | HasKey(t.rows, SupplierCol, k)
      ensures exists i :: 0 <= i < |ks| && ks[i] == k
    {
      assert k in ks;
    }
  }

  /** Every row of the supplier table holds the aggregates of its own
      supplier's group. */
  lemma SupplierPerformanceRowIsAggregate(t: Table, row: SupplierRow)
    requires row in SupplierPerformance(t)
    ensures HasKey(t.rows, SupplierCol, row.supplier) && row == SupplierRowFor(t.rows, row.supplier)
  {
    var rows := SupplierRows(t.rows);
    var ks := GroupKeys(t.rows, SupplierCol);
    assert row in rows;
    var j :| 0 <= j < |rows| && rows[j] == row;
    assert ks[j] in ks;
  }

  /** The supplier with the largest mean cost gets no cost-efficiency
      points: its score is 60% of its on-time rate. */
  lemma MostExpensiveSupplierScore(rows: seq<Record>, k: string)
    requires HasKey(rows, SupplierCol, k)
    requires MeanOf(Group(rows, SupplierCol, k), Cost) == MaxSupplierMean(rows)
    requires SupplierRowFor(rows, k).performanceScore.Some?
    ensures SupplierRowFor(rows, k).performanceScore.value == 0.6 * SupplierRowFor(rows, k).onTimeDeliveryRate
  {
  }

  /** With non-negative costs every score that is a number lies between 0
      and 100. */
  lemma SupplierScoreBounds(rows: seq<Record>, k: string)
    requires HasKey(rows, SupplierCol, k)
    requires NonNegative(rows, Cost)
    ensures var s := SupplierRowFor(rows, k).performanceScore; s.Some? ==> 0.0 <= s.value <= 100.0
  {
    var g := Group(rows, SupplierCol, k);
    GroupNonNegative(rows, SupplierCol, k, Cost);
    MeanNonNegative(g, Cost);
    MeanAtMostMax(rows, k);
  }

  /** Each supplier's mean cost is at most the largest supplier mean. */
  lemma MeanAtMostMax(rows: seq<Record>, k: string)
    requires HasKey(rows, SupplierCol, k)
    ensures var m := MeanOf(Group(rows, SupplierCol, k), Cost); var max := MaxSupplierMean(rows);
      m.Some? ==> max.Some? && m.value <= max.value
  {
    var ks := GroupKeys(rows, SupplierCol);
    var j :| 0 <= j < |ks| && ks[j] == k;
    assert SupplierCostMeans(rows)[j] == MeanOf(Group(rows, SupplierCol, k), Cost);
  }

  // ----- logistics rollup -----

  /** One row of the logistics table (lines 165-174). */
  datatype PartnerRow = PartnerRow(
    partner: string,
    deliveryRate: real,
    delayRate: real,
    pendingRate: real,
    totalCostSum: real,
    avgCost: Option<real>,
    primaryMethod: string,
    suppliersServed: nat,
    reliabilityScore: real)

  /** Line 150 checks Logistics Partner; the `agg` of lines 153-162 reads
      the others. */
  predicate HasLogisticsColumns(columns: set<Column>) {
    PartnerCol in columns && DeliveryStatusCol in columns && TotalCostCol in columns
    && ShippingMethodCol in columns && SupplierCol in columns
  }

  /** `x.value_counts().index[0]` raises IndexError for a group without any
      shipping method, which ends the whole function. */
  predicate EveryPartnerHasMethod(rows: seq<Record>) {
    var ks := GroupKeys(rows, PartnerCol);
    forall i :: 0 <= i < |ks| ==> Mode(Group(rows, PartnerCol, ks[i]), ShippingMethodCol).Some?
  }

  /** The row of partner `k` (lines 153-174). */
  function PartnerRowFor(rows: seq<Record>, k: string): (row: PartnerRow)
    requires HasKey(rows, PartnerCol, k)
    requires Mode(Group(rows, PartnerCol, k), ShippingMethodCol).Some?
    ensures row.partner == k
  {
    var g := Group(rows, PartnerCol, k);
    var delivery := StatusShare(g, Status.Delivered);
    var delay := StatusShare(g, Status.Delayed);
    PartnerRow(
      k, delivery, delay, StatusShare(g, Pending),
      SumOf(g, Cost), MeanOf(g, Cost),
      Mode(g, ShippingMethodCol).value, NUnique(g, SupplierCol),
      delivery - delay)
  }

  /** The primary method of a partner is one of its most frequent methods. */
  lemma PrimaryMethodIsMostFrequent(rows: seq<Record>, k: string)
    requires HasKey(rows, PartnerCol, k)
    requires Mode(Group(rows, PartnerCol, k), ShippingMethodCol).Some?
    ensures var g := Group(rows, PartnerCol, k); var m := PartnerRowFor(rows, k).primaryMethod;
      HasKey(g, ShippingMethodCol, m)
      && forall m' :: HasKey(g, ShippingMethodCol, m') ==>
           |Group(g, ShippingMethodCol, m')| <= |Group(g, ShippingMethodCol, m)|
  {
    ModeSpec(Group(rows, PartnerCol, k), ShippingMethodCol);
  }

  function Reliability(row: PartnerRow): Option<real> {
    Some(row.reliabilityScore)
  }

  function PartnerName(row: PartnerRow): string {
    row.partner
  }

  /** The partner rows in key order, before sorting. */
  function PartnerRows(rows: seq<Record>): (r: seq<PartnerRow>)
    requires EveryPartnerHasMethod(rows)
    ensures |r| == |GroupKeys(rows, PartnerCol)|
    ensures forall i :: 0 <= i < |r| ==> PartnerName(r[i]) == GroupKeys(rows, PartnerCol)[i]
  {
    var ks := GroupKeys(rows, PartnerCol);
    seq(|ks|, i requires 0 <= i < |ks| => PartnerRowFor(rows, ks[i]))
  }

  /** `get_logistics_performance(df)`: the rows sorted by reliability,
      highest first. */
  function LogisticsPerformance(t: Table): seq<PartnerRow> {
    if !HasLogisticsColumns(t.columns) || !EveryPartnerHasMethod(t.rows) then []
    else SortDesc(PartnerRows(t.rows), Reliability)
  }

  /** The logistics table is empty when a column it reads is missing or a
      partner has no shipping method, and otherwise has one row per
      partner, sorted by reliability. */
  lemma LogisticsPerformanceShape(t: Table)
    ensures var r := LogisticsPerformance(t);
      (!HasLogisticsColumns(t.columns) || !EveryPartnerHasMethod(t.rows) ==> r == [])
      && (HasLogisticsColumns(t.columns) && EveryPartnerHasMethod(t.rows) ==>
            |r| == |GroupKeys(t.rows, PartnerCol)|)
      && (forall i, j :: 0 <= i < j < |r| ==> r[i].reliabilityScore >= r[j].reliabilityScore)
  {
    var r := LogisticsPerformance(t);
    forall i, j | 0 <= i < j < |r| ensures r[i].reliabilityScore >= r[j].reliabilityScore {
      assert Precedes(Reliability(r[i]), Reliability(r[j]));
    }
  }

  /** No partner appears twice in the logistics table and every partner
      appears. */
  lemma LogisticsPerformanceRows(t: Table)
    requires HasLogisticsColumns(t.columns) && EveryPartnerHasMethod(t.rows)
    ensures var r := LogisticsPerformance(t);
      (forall i, j :: 0 <= i < j < |r| ==> r[i].partner != r[j].partner)
      && (forall k :: HasKey(t.rows, PartnerCol, k) ==> exists i :: 0 <= i < |r| && r[i].partner == k)
  {
    var ks := GroupKeys(t.rows, PartnerCol);
    SortDescKeyed(PartnerRows(t.rows), ks, PartnerName, Reliability);
    forall k | HasKey(t.rows, PartnerCol, k)
      ensures exists i :: 0 <= i < |ks| && ks[i] == k
    {
      assert k in ks;
    }
  }

  /** Every row of the logistics table holds the aggregates of its own
      partner's group, whose shipping-method mode exists. */
  lemma LogisticsPerformanceRowIsAggregate(t: Table, row: PartnerRow)
    requires row in LogisticsPerformance(t)
    ensures HasKey(t.rows, PartnerCol, row.partner)
      && Mode(Group(t.rows, PartnerCol, row.partner), ShippingMethodCol).Some?
      && row == PartnerRowFor(t.rows, row.partner)
  {
    var rows := PartnerRows(t.rows);
    var ks := GroupKeys(t.rows, PartnerCol);
    assert row in rows;
    var j :| 0 <= j < |rows| && rows[j] == row;
    assert ks[j] in ks;
  }

  /** The three rates of a partner are percentages of disjoint sets of its
      orders: each lies in [0, 100] and together they stay within 100, so
      the reliability score lies in [-100, 100]. */
  lemma PartnerRatesBounded(rows: seq<Record>, k: string)
    requires HasKey(rows, PartnerCol, k)
    requires Mode(Group(rows, PartnerCol, k), ShippingMethodCol).Some?
    ensures var row := PartnerRowFor(rows, k);
      0.0 <= row.deliveryRate <= 100.0 && 0.0 <= row.delayRate <= 100.0 && 0.0 <= row.pendingRate <= 100.0
      && row.deliveryRate + row.delayRate + row.pendingRate <= 100.0
      && -100.0 <= row.reliabilityScore <= 100.0
  {
    var g := Group(rows, PartnerCol, k);
    StatusCountsPartition(g);
    SharesOfDisjointCounts(
      CountStatus(g, Status.Delivered), CountStatus(g, Status.Delayed), CountStatus(g, Pending), |g|);
  }

  /** Shares of counts whose sum fits in the total add up to at most 100. */
  lemma SharesOfDisjointCounts(a: nat, b: nat, c: nat, total: nat)
    requires total > 0 && a + b + c <= total
    ensures Percent(a, total) + Percent(b, total) + Percent(c, total) <= 100.0
  {
    PercentAdd(a, b, total);
    PercentAdd(a + b, c, total);
  }
}
