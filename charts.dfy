/** The aggregation halves of the chart builders: the per-key tables each
    builder computes before it draws. A builder returns None when one of
    the columns it checks is missing, and also when its aggregation reads a
    further column that is missing (the KeyError lands in its `except`).
    Figures, colours other than the partner tier, and `st.error` are not
    modelled. */
module Charts {
  import opened Wrappers
  import opened Records
  import opened Keys
  import opened Aggregation
  import opened DeliveryMetrics
  import opened Risk

  // ----- create_logistics_performance_chart (lines 8-33) -----

  /** One bar group: the four status counts of a partner, its non-missing
      status count, and the four shares of that count (NaN, None, when the
      partner has no status at all). */
  datatype PartnerStatusRow = PartnerStatusRow(
    partner: string,
    delivered: nat, delayed: nat, inTransit: nat, pending: nat, total: nat,
    deliveredPct: Option<real>, delayedPct: Option<real>,
    inTransitPct: Option<real>, pendingPct: Option<real>)

  function PartnerStatusRowFor(rows: seq<Record>, k: string): PartnerStatusRow {
    var g := Group(rows, PartnerCol, k);
    var d := CountStatus(g, Status.Delivered);
    var l := CountStatus(g, Status.Delayed);
    var t := CountStatus(g, InTransit);
    var p := CountStatus(g, Pending);
    var n := CountPresentStatus(g);
    PartnerStatusRow(k, d, l, t, p, n, Ratio(d, n), Ratio(l, n), Ratio(t, n), Ratio(p, n))
  }

  function LogisticsChart(t: Table): (r: Option<seq<PartnerStatusRow>>)
    ensures r.None? <==> PartnerCol !in t.columns || DeliveryStatusCol !in t.columns
    ensures r.Some? ==> |r.value| == |GroupKeys(t.rows, PartnerCol)|
    ensures r.Some? ==> forall i :: 0 <= i < |r.value| ==> r.value[i].partner == GroupKeys(t.rows, PartnerCol)[i]
  {
    if PartnerCol !in t.columns || DeliveryStatusCol !in t.columns then None
    else
      var ks := GroupKeys(t.rows, PartnerCol);
      Some(seq(|ks|, i requires 0 <= i < |ks| => PartnerStatusRowFor(t.rows, ks[i])))
  }

  /** The four known statuses never add up to more than the partner's
      status count, and reach it exactly when no other status text occurs;
      their shares then add up to 100. */
  lemma PartnerStatusCounts(rows: seq<Record>, k: string)
    ensures var r := PartnerStatusRowFor(rows, k); var g := Group(rows, PartnerCol, k);
      var known := r.delivered + r.delayed + r.inTransit + r.pending;
      r.total <= |g|
      && known <= r.total
      && (known == r.total <==> CountOtherStatus(g) == 0)
      && (r.deliveredPct.None? <==> r.total == 0)
      && (r.total > 0 ==>
            var s := r.deliveredPct.value + r.delayedPct.value + r.inTransitPct.value + r.pendingPct.value;
            s <= 100.0 && (s == 100.0 <==> CountOtherStatus(g) == 0))
  {
    var g := Group(rows, PartnerCol, k);
    StatusCountsPartition(g);
    RatesOfPartition(
      CountStatus(g, Status.Delivered), CountStatus(g, Status.Delayed), CountStatus(g, InTransit),
      CountStatus(g, Pending), CountOtherStatus(g), CountPresentStatus(g));
  }

  // ----- create_risk_heatmap (lines 88-110) -----

  /** The rows `groupby(['Supplier', 'Logistics Partner'])` keeps. */
  function PairRows(rows: seq<Record>): (g: seq<Record>)
    ensures forall r :: r in g <==> r in rows && r.supplier.Some? && r.partner.Some?
  {
    Keyed(Keyed(rows, SupplierCol), PartnerCol)
  }

  /** The orders of one (supplier, partner) pair. */
  function PairGroup(rows: seq<Record>, s: string, p: string): (g: seq<Record>)
    ensures forall r :: r in g <==> r in rows && r.supplier == Some(s) && r.partner == Some(p)
  {
    Group(Group(rows, SupplierCol, s), PartnerCol, p)
  }

  /** One cell of the pivot: the pair's delay rate, or the `fillna(0)`
      value for a pair without orders. */
  function PairDelayRate(rows: seq<Record>, s: string, p: string): (x: real)
    ensures 0.0 <= x <= 100.0
    ensures x == 0.0 <==> CountStatus(PairGroup(rows, s, p), Status.Delayed) == 0
    ensures x == 100.0 <==> PairGroup(rows, s, p) != [] && CountStatus(PairGroup(rows, s, p), Status.Delayed) == |PairGroup(rows, s, p)|
  {
    var g := PairGroup(rows, s, p);
    if g == [] then 0.0 else Percent(CountStatus(g, Status.Delayed), |g|)
  }

  /** The pivot: suppliers down, partners across, both in sorted order. */
  datatype Heatmap = Heatmap(suppliers: seq<string>, partners: seq<string>, cells: seq<seq<real>>)

  function RiskHeatmap(t: Table): (h: Option<Heatmap>)
    ensures h.None? <==>
      SupplierCol !in t.columns || PartnerCol !in t.columns || DeliveryStatusCol !in t.columns
      || TotalCostCol !in t.columns
    ensures h.Some? ==> |h.value.cells| == |h.value.suppliers|
    ensures h.Some? ==> forall i :: 0 <= i < |h.value.cells| ==> |h.value.cells[i]| == |h.value.partners|
  {
    if SupplierCol !in t.columns || PartnerCol !in t.columns || DeliveryStatusCol !in t.columns then None
    else if TotalCostCol !in t.columns then None
    else
      var ss := GroupKeys(PairRows(t.rows), SupplierCol);
      var ps := GroupKeys(PairRows(t.rows), PartnerCol);
      Some(Heatmap(ss, ps,
        seq(|ss|, i requires 0 <= i < |ss| =>
          seq(|ps|, j requires 0 <= j < |ps| => PairDelayRate(t.rows, ss[i], ps[j])))))
  }

  /** The heatmap's rows are exactly the suppliers that occur in some
      order together with a partner. */
  lemma HeatmapSuppliers(t: Table, s: string)
    requires RiskHeatmap(t).Some?
    ensures s in RiskHeatmap(t).value.suppliers <==>
      exists r :: r in t.rows && r.supplier == Some(s) && r.partner.Some?
  {
    PairKeys(t.rows, SupplierCol, s);
  }

  /** The heatmap's columns are exactly the partners that occur in some
      order together with a supplier. */
  lemma HeatmapPartners(t: Table, p: string)
    requires RiskHeatmap(t).Some?
    ensures p in RiskHeatmap(t).value.partners <==>
      exists r :: r in t.rows && r.partner == Some(p) && r.supplier.Some?
  {
    PairKeys(t.rows, PartnerCol, p);
  }

  lemma PairKeys(rows: seq<Record>, c: TextColumn, k: string)
    requires c == SupplierCol || c == PartnerCol
    ensures k in GroupKeys(PairRows(rows), c) <==>
      exists r :: r in rows && Text(r, c) == Some(k) && r.supplier.Some? && r.partner.Some?
  {
    var pr := PairRows(rows);
    if k in GroupKeys(pr, c) {
      var i :| 0 <= i < |pr| && Text(pr[i], c) == Some(k);
      assert pr[i] in rows;
    }
    if exists r :: r in rows && Text(r, c) == Some(k) && r.supplier.Some? && r.partner.Some? {
      var r :| r in rows && Text(r, c) == Some(k) && r.supplier.Some? && r.partner.Some?;
      assert r in pr;
      var i :| 0 <= i < |pr| && pr[i] == r;
      assert HasKey(pr, c, k);
    }
  }

  /** Every cell is the pair's delay rate: a percentage, 0 for a pair
      without orders. */
  lemma HeatmapCells(t: Table, i: int, j: int)
    requires RiskHeatmap(t).Some?
    requires 0 <= i < |RiskHeatmap(t).value.suppliers| && 0 <= j < |RiskHeatmap(t).value.partners|
    ensures var h := RiskHeatmap(t).value;
      h.cells[i][j] == PairDelayRate(t.rows, h.suppliers[i], h.partners[j])
      && 0.0 <= h.cells[i][j] <= 100.0
      && (PairGroup(t.rows, h.suppliers[i], h.partners[j]) == [] ==> h.cells[i][j] == 0.0)
  {
  }

  // ----- create_shipping_method_analysis (lines 136-154) -----

  /** One shipping method: delay rate, non-missing status count, mean and
      sum of the costs. */
  datatype MethodRow = MethodRow(shippingMethod: string, delayRate: real, orderCount: nat, avgCost: Option<real>, totalCost: real)

  function MethodRowFor(rows: seq<Record>, k: string): MethodRow
    requires HasKey(rows, ShippingMethodCol, k)
  {
    var g := Group(rows, ShippingMethodCol, k);
    MethodRow(k, StatusShare(g, Status.Delayed), CountPresentStatus(g), MeanOf(g, Cost), SumOf(g, Cost))
  }

  function ShippingMethodStats(t: Table): (r: Option<seq<MethodRow>>)
    ensures r.None? <==>
      ShippingMethodCol !in t.columns || DeliveryStatusCol !in t.columns || TotalCostCol !in t.columns
    ensures r.Some? ==> |r.value| == |GroupKeys(t.rows, ShippingMethodCol)|
    ensures r.Some? ==> forall i :: 0 <= i < |r.value| ==> r.value[i].shippingMethod == GroupKeys(t.rows, ShippingMethodCol)[i]
  {
    if ShippingMethodCol !in t.columns || DeliveryStatusCol !in t.columns || TotalCostCol !in t.columns then None
    else
      var ks := GroupKeys(t.rows, ShippingMethodCol);
      Some(seq(|ks|, i requires 0 <= i < |ks| => MethodRowFor(t.rows, ks[i])))
  }

  /** Per method the delay rate is a percentage and the order count is at
      most the group size. */
  lemma MethodRowCounts(rows: seq<Record>, k: string)
    requires HasKey(rows, ShippingMethodCol, k)
    ensures var r := MethodRowFor(rows, k); var g := Group(rows, ShippingMethodCol, k);
      0.0 <= r.delayRate <= 100.0 && r.orderCount <= |g|
  {
  }

  /** Per method the mean cost is the total cost over the number of
      costs; with no cost the mean is NaN and the total 0. */
  lemma MethodRowCosts(rows: seq<Record>, k: string)
    requires HasKey(rows, ShippingMethodCol, k)
    ensures var r := MethodRowFor(rows, k); var n := CountOf(Group(rows, ShippingMethodCol, k), Cost);
      (r.avgCost.None? <==> n == 0)
      && (r.avgCost.Some? ==> n > 0 && r.avgCost.value == r.totalCost / (n as real))
      && (r.avgCost.None? ==> r.totalCost == 0.0)
  {
  }

  // ----- create_cost_impact_donut (lines 205-214) -----

  /** One slice: a status text and the sum of its costs. */
  datatype StatusCost = StatusCost(status: string, totalCost: real)

  function CostSlices(rows: seq<Record>, ks: seq<string>): (r: seq<StatusCost>)
    ensures |r| == |ks|
  {
    if ks == [] then []
    else [StatusCost(ks[0], SumOf(Group(rows, DeliveryStatusCol, ks[0]), Cost))] + CostSlices(rows, ks[1..])
  }

  function CostTotal(slices: seq<StatusCost>): real {
    if slices == [] then 0.0 else slices[0].totalCost + CostTotal(slices[1..])
  }

  function CostImpactDonut(t: Table): (r: Option<seq<StatusCost>>)
    ensures r.None? <==> DeliveryStatusCol !in t.columns || TotalCostCol !in t.columns
    ensures r.Some? ==> |r.value| == |GroupKeys(t.rows, DeliveryStatusCol)|
  {
    if DeliveryStatusCol !in t.columns || TotalCostCol !in t.columns then None
    else Some(CostSlices(t.rows, GroupKeys(t.rows, DeliveryStatusCol)))
  }

  lemma {:induction false} CostSlicesAreGroupSums(rows: seq<Record>, ks: seq<string>)
    ensures CostTotal(CostSlices(rows, ks)) == SumGroups(rows, DeliveryStatusCol, ks, Cost)
  {
    if ks != [] {
      CostSlicesAreGroupSums(rows, ks[1..]);
      var s := StatusCost(ks[0], SumOf(Group(rows, DeliveryStatusCol, ks[0]), Cost));
      assert ([s] + CostSlices(rows, ks[1..]))[1..] == CostSlices(rows, ks[1..]);
    }
  }

  /** The slices add up to the total cost of the orders whose status is
      not missing. */
  lemma DonutCoversStatusCosts(t: Table)
    requires CostImpactDonut(t).Some?
    ensures CostTotal(CostImpactDonut(t).value) == SumOf(Keyed(t.rows, DeliveryStatusCol), Cost)
  {
    CostSlicesAreGroupSums(t.rows, GroupKeys(t.rows, DeliveryStatusCol));
    GroupSumsPartition(t.rows, DeliveryStatusCol, Cost);
  }

  // ----- create_delivery_performance_gauge (lines 241-255) -----

  /** `(delivered + in_transit + pending) / total_orders * 100`, 0 for an
      empty table. */
  function GaugeScore(t: Table): (g: Option<real>)
    ensures g.None? <==> DeliveryStatusCol !in t.columns
    ensures g.Some? ==> 0.0 <= g.value <= 100.0
    ensures g.Some? && t.rows == [] ==> g.value == 0.0
  {
    if DeliveryStatusCol !in t.columns then None
    else
      var rows := t.rows;
      StatusCountsPartition(rows);
      Some(Rate(CountStatus(rows, Status.Delivered) + CountStatus(rows, InTransit) + CountStatus(rows, Pending), |rows|))
  }

  /** The gauge and the overall delay rate never add up to more than 100,
      and reach exactly 100 when every order of a non-empty table has one
      of the four known statuses. */
  lemma GaugeComplementsDelay(t: Table)
    requires DeliveryStatusCol in t.columns
    ensures var s := GaugeScore(t).value + DelayedRate(t.rows);
      s <= 100.0
      && (t.rows != [] ==> (s == 100.0 <==>
            forall i :: 0 <= i < |t.rows| ==> t.rows[i].status.Some? && !t.rows[i].status.value.Other?))
  {
    var rows := t.rows;
    StatusCountsPartition(rows);
    var a, b, c, d := CountStatus(rows, Status.Delivered), CountStatus(rows, InTransit),
      CountStatus(rows, Pending), CountStatus(rows, Status.Delayed);
    var u := |rows| - CountPresentStatus(rows) + CountOtherStatus(rows);
    assert GaugeScore(t).value == Rate(a + b + c, |rows|);
    assert DelayedRate(rows) == Rate(d, |rows|);
    GaugePlusDelay(a, b, c, d, u, |rows|);
    KnownStatusesOnly(rows);
  }

  /** Rate arithmetic of the gauge: three counts together, plus a fourth,
      out of a total they share with `u` others. */
  lemma GaugePlusDelay(a: nat, b: nat, c: nat, d: nat, u: nat, total: nat)
    requires a + b + c + d + u == total
    ensures var s := Rate(a + b + c, total) + Rate(d, total);
      s <= 100.0 && (total > 0 ==> (s == 100.0 <==> u == 0))
  {
    RateAdd(a + b + c, d, total);
    if total > 0 {
      RateFull(a + b + c + d, total);
    }
  }

  /** No order lacks a status or has another status text exactly when the
      four known counts make up the table. */
  lemma KnownStatusesOnly(rows: seq<Record>)
    ensures (|rows| - CountPresentStatus(rows) + CountOtherStatus(rows) == 0) <==>
      forall i :: 0 <= i < |rows| ==> rows[i].status.Some? && !rows[i].status.value.Other?
  {
    if forall i :: 0 <= i < |rows| ==> rows[i].status.Some? && !rows[i].status.value.Other? {
      NoOtherStatus(rows);
    } else {
      var i :| 0 <= i < |rows| && !(rows[i].status.Some? && !rows[i].status.value.Other?);
      if rows[i].status.Some? {
        OtherCountPositive(rows, i);
      }
    }
  }

  lemma {:induction false} OtherCountPositive(rows: seq<Record>, i: int)
    requires 0 <= i < |rows| && rows[i].status.Some? && rows[i].status.value.Other?
    ensures CountOtherStatus(rows) > 0
  {
    if i > 0 {
      assert rows[1..][i - 1] == rows[i];
      OtherCountPositive(rows[1..], i - 1);
    }
  }

  lemma {:induction false} NoOtherStatus(rows: seq<Record>)
    requires forall i :: 0 <= i < |rows| ==> rows[i].status.Some? && !rows[i].status.value.Other?
    ensures CountOtherStatus(rows) == 0
  {
    if rows != [] {
      assert forall i :: 0 <= i < |rows[1..]| ==> rows[1..][i] == rows[i + 1];
      NoOtherStatus(rows[1..]);
    }
  }

  // ----- create_delivery_status_summary (lines 291-321) -----

  /** One line of the summary: the status text, its icon label (NaN, None,
      for a status without an icon), the number of non-missing costs, the
      share of all those counts, and the sum and mean of the costs. */
  datatype SummaryRow = SummaryRow(
    status: string, statusLabel: Option<string>, orders: nat, percentage: Option<real>,
    totalCost: real, avgCost: Option<real>)

  /** `status_icons` (lines 313-318). */
  function Icon(status: string): Option<string> {
    if status == "Delivered" then Some("✅")
    else if status == "Delayed" then Some("\U{1F534}")
    else if status == "In Transit" then Some("\U{1F69B}")
    else if status == "Pending" then Some("\U{1F4E6}")
    else None
  }

  /** `map(status_icons) + ' ' + status`; NaN stays NaN. */
  function Label(status: string): (l: Option<string>)
    ensures l.Some? <==> !ParseStatus(status).Other?
    ensures l.Some? ==> |l.value| > |status| && l.value[|l.value| - |status|..] == status
  {
    match Icon(status)
    case Some(icon) => Some(icon + " " + status)
    case None => None
  }

  function SummaryRowFor(rows: seq<Record>, k: string): SummaryRow {
    var g := Group(rows, DeliveryStatusCol, k);
    SummaryRow(k, Label(k), CountOf(g, Cost), None, SumOf(g, Cost), MeanOf(g, Cost))
  }

  function SummaryRows(rows: seq<Record>, ks: seq<string>): (r: seq<SummaryRow>)
    ensures |r| == |ks|
  {
    if ks == [] then [] else [SummaryRowFor(rows, ks[0])] + SummaryRows(rows, ks[1..])
  }

  /** `summary['Orders'].sum()`. */
  function OrdersTotal(rs: seq<SummaryRow>): nat {
    if rs == [] then 0 else rs[0].orders + OrdersTotal(rs[1..])
  }

  /** `summary['Orders'] / total_orders * 100`, NaN (None) when the total
      is 0. */
  function WithPercentages(rs: seq<SummaryRow>, total: nat): (out: seq<SummaryRow>)
    ensures |out| == |rs|
  {
    if rs == [] then []
    else [rs[0].(percentage := Ratio(rs[0].orders, total))] + WithPercentages(rs[1..], total)
  }

  /** The sum of the Percentage column (NaN entries skipped). */
  function PercentageTotal(rs: seq<SummaryRow>): real {
    if rs == [] then 0.0 else rs[0].percentage.GetOr(0.0) + PercentageTotal(rs[1..])
  }

  function StatusSummary(t: Table): (r: Option<seq<SummaryRow>>)
    ensures r.None? <==>
      DeliveryStatusCol !in t.columns || TotalCostCol !in t.columns || DeliveryDateCol !in t.columns
    ensures r.Some? ==> |r.value| == |GroupKeys(t.rows, DeliveryStatusCol)|
  {
    if DeliveryStatusCol !in t.columns || TotalCostCol !in t.columns then None
    else if DeliveryDateCol !in t.columns then None
    else
      var base := SummaryRows(t.rows, GroupKeys(t.rows, DeliveryStatusCol));
      Some(WithPercentages(base, OrdersTotal(base)))
  }

  lemma {:induction false} PercentagesAdd(rs: seq<SummaryRow>, total: nat)
    requires total > 0
    ensures PercentageTotal(WithPercentages(rs, total)) == Rate(OrdersTotal(rs), total)
  {
    if rs != [] {
      PercentagesAdd(rs[1..], total);
      RateAdd(rs[0].orders, OrdersTotal(rs[1..]), total);
      var head := rs[0].(percentage := Ratio(rs[0].orders, total));
      assert ([head] + WithPercentages(rs[1..], total))[1..] == WithPercentages(rs[1..], total);
    }
  }

  lemma {:induction false} PercentagesUndefined(rs: seq<SummaryRow>)
    ensures forall i :: 0 <= i < |rs| ==> WithPercentages(rs, 0)[i].percentage.None?
  {
    if rs != [] {
      PercentagesUndefined(rs[1..]);
      var head := rs[0].(percentage := Ratio(rs[0].orders, 0));
      assert forall i :: 1 <= i < |rs| ==> ([head] + WithPercentages(rs[1..], 0))[i] == WithPercentages(rs[1..], 0)[i - 1];
    }
  }

  /** `x.count()` on a cost column as a sum of ones. */
  function CostPresent(r: Record): Option<real> {
    if r.totalCost.Some? then Some(1.0) else None
  }

  lemma {:induction false} CountIsSumOfOnes(rows: seq<Record>)
    ensures SumOf(rows, CostPresent) == CountOf(rows, Cost) as real
  {
    if rows != [] {
      CountIsSumOfOnes(rows[1..]);
    }
  }

  lemma {:induction false} OrdersAreGroupCounts(rows: seq<Record>, ks: seq<string>)
    ensures OrdersTotal(SummaryRows(rows, ks)) as real == SumGroups(rows, DeliveryStatusCol, ks, CostPresent)
  {
    if ks != [] {
      OrdersAreGroupCounts(rows, ks[1..]);
      CountIsSumOfOnes(Group(rows, DeliveryStatusCol, ks[0]));
      assert ([SummaryRowFor(rows, ks[0])] + SummaryRows(rows, ks[1..]))[1..] == SummaryRows(rows, ks[1..]);
    }
  }

  /** The summary's order total is the number of non-missing costs among
      the orders with a status; when it is positive the percentages add up
      to 100, and when it is 0 every percentage is NaN. */
  lemma SummaryPercentages(t: Table)
    requires StatusSummary(t).Some?
    ensures var base := SummaryRows(t.rows, GroupKeys(t.rows, DeliveryStatusCol)); var r := StatusSummary(t).value;
      OrdersTotal(base) == CountOf(Keyed(t.rows, DeliveryStatusCol), Cost)
      && (OrdersTotal(base) > 0 ==> PercentageTotal(r) == 100.0)
      && (OrdersTotal(base) == 0 ==> forall i :: 0 <= i < |r| ==> r[i].percentage.None?)
  {
    var ks := GroupKeys(t.rows, DeliveryStatusCol);
    var base := SummaryRows(t.rows, ks);
    OrdersAreGroupCounts(t.rows, ks);
    GroupSumsPartition(t.rows, DeliveryStatusCol, CostPresent);
    CountIsSumOfOnes(Keyed(t.rows, DeliveryStatusCol));
    if OrdersTotal(base) > 0 {
      PercentagesAdd(base, OrdersTotal(base));
      RateFull(OrdersTotal(base), OrdersTotal(base));
    } else {
      PercentagesUndefined(base);
    }
  }

  // ----- create_logistics_partner_comparison (lines 330-358) -----

  /** The bar colour (line 357): crimson above 25, gold above 15, sea
      green otherwise. */
  datatype BarColour = Crimson | Gold | SeaGreen

  function Colour(rate: real): BarColour {
    if rate > 25.0 then Crimson else if rate > 15.0 then Gold else SeaGreen
  }

  /** The bar colours use the thresholds of the risk tiers. */
  lemma ColourIsRiskTier(rate: real)
    ensures Colour(rate) == Crimson <==> RiskTier(rate) == High
    ensures Colour(rate) == Gold <==> RiskTier(rate) == Medium
    ensures Colour(rate) == SeaGreen <==> RiskTier(rate) == Low
  {
  }

  datatype ComparisonRow = ComparisonRow(partner: string, totalOrders: nat, delayedOrders: nat, delayRate: real, colour: BarColour)

  function ComparisonRowFor(rows: seq<Record>, k: string): ComparisonRow
    requires HasKey(rows, PartnerCol, k)
  {
    var g := Group(rows, PartnerCol, k);
    var rate := StatusShare(g, Status.Delayed);
    ComparisonRow(k, |g|, CountStatus(g, Status.Delayed), rate, Colour(rate))
  }

  function PartnerComparison(t: Table): (r: Option<seq<ComparisonRow>>)
    ensures r.None? <==> PartnerCol !in t.columns || DeliveryStatusCol !in t.columns
    ensures r.Some? ==> |r.value| == |GroupKeys(t.rows, PartnerCol)|
    ensures r.Some? ==> forall i :: 0 <= i < |r.value| ==> r.value[i].partner == GroupKeys(t.rows, PartnerCol)[i]
  {
    if PartnerCol !in t.columns || DeliveryStatusCol !in t.columns then None
    else
      var ks := GroupKeys(t.rows, PartnerCol);
      Some(seq(|ks|, i requires 0 <= i < |ks| => ComparisonRowFor(t.rows, ks[i])))
  }

  /** A bar shows the partner's delay rate as the risk analysis computes
      it, over all of the partner's orders. */
  lemma ComparisonRowSpec(rows: seq<Record>, k: string)
    requires HasKey(rows, PartnerCol, k)
    ensures var r := ComparisonRowFor(rows, k);
      r.totalOrders > 0 && r.delayedOrders <= r.totalOrders
      && r.delayRate == PartnerDelayRate(rows, k)
      && (r.delayRate == 0.0 <==> r.delayedOrders == 0)
      && (r.delayRate == 100.0 <==> r.delayedOrders == r.totalOrders)
      && (r.colour == Crimson <==> RiskTier(r.delayRate) == High)
  {
  }

  /** Some bar is crimson exactly when the risk analysis's worst partner
      has a delay rate above 25. */
  lemma CrimsonBarIffWorstAbove25(t: Table)
    requires PartnerComparison(t).Some? && PartnerExtremes(t.rows).Some?
    ensures (exists i :: 0 <= i < |PartnerComparison(t).value| && PartnerComparison(t).value[i].colour == Crimson)
      <==> PartnerExtremes(t.rows).value.worstRate > 25.0
  {
    var rs := PartnerComparison(t).value;
    var ks := GroupKeys(t.rows, PartnerCol);
    var e := PartnerExtremes(t.rows).value;
    PartnerExtremesSpec(t.rows);
    if e.worstRate > 25.0 {
      var j :| 0 <= j < |ks| && ks[j] == e.worst;
      ComparisonBar(t, j);
    }
    if exists i :: 0 <= i < |rs| && rs[i].colour == Crimson {
      var i :| 0 <= i < |rs| && rs[i].colour == Crimson;
      ComparisonBar(t, i);
    }
  }

  /** Bar `i` shows the delay rate of the `i`-th partner in key order. */
  lemma ComparisonBar(t: Table, i: int)
    requires PartnerComparison(t).Some? && 0 <= i < |PartnerComparison(t).value|
    ensures var ks := GroupKeys(t.rows, PartnerCol);
      HasKey(t.rows, PartnerCol, ks[i])
      && PartnerComparison(t).value[i].delayRate == PartnerDelayRate(t.rows, ks[i])
      && (PartnerComparison(t).value[i].colour == Crimson <==> PartnerDelayRate(t.rows, ks[i]) > 25.0)
  {
    var ks := GroupKeys(t.rows, PartnerCol);
    assert HasKey(t.rows, PartnerCol, ks[i]);
    assert PartnerComparison(t).value[i] == ComparisonRowFor(t.rows, ks[i]);
  }

  // ----- create_cost_by_warehouse (lines 380-400) -----

  /** One bubble: the warehouse's cost sum, its non-missing status count
      and its delay rate. */
  datatype WarehouseRow = WarehouseRow(warehouse: string, totalCost: real, totalOrders: nat, delayRate: real)

  function WarehouseRowFor(rows: seq<Record>, k: string): WarehouseRow
    requires HasKey(rows, WarehouseCol, k)
  {
    var g := Group(rows, WarehouseCol, k);
    WarehouseRow(k, SumOf(g, Cost), CountPresentStatus(g), StatusShare(g, Status.Delayed))
  }

  function WarehouseRows(rows: seq<Record>, ks: seq<string>): (r: seq<WarehouseRow>)
    requires forall k :: k in ks ==> HasKey(rows, WarehouseCol, k)
    ensures |r| == |ks|
  {
    if ks == [] then [] else [WarehouseRowFor(rows, ks[0])] + WarehouseRows(rows, ks[1..])
  }

  function WarehouseCostTotal(rs: seq<WarehouseRow>): real {
    if rs == [] then 0.0 else rs[0].totalCost + WarehouseCostTotal(rs[1..])
  }

  function CostByWarehouse(t: Table): (r: Option<seq<WarehouseRow>>)
    ensures r.None? <==> WarehouseCol !in t.columns || TotalCostCol !in t.columns || DeliveryStatusCol !in t.columns
    ensures r.Some? ==> |r.value| == |GroupKeys(t.rows, WarehouseCol)|
  {
    if WarehouseCol !in t.columns || TotalCostCol !in t.columns || DeliveryStatusCol !in t.columns then None
    else Some(WarehouseRows(t.rows, GroupKeys(t.rows, WarehouseCol)))
  }

  lemma {:induction false} WarehouseCostsAreGroupSums(rows: seq<Record>, ks: seq<string>)
    requires forall k :: k in ks ==> HasKey(rows, WarehouseCol, k)
    ensures WarehouseCostTotal(WarehouseRows(rows, ks)) == SumGroups(rows, WarehouseCol, ks, Cost)
  {
    if ks != [] {
      WarehouseCostsAreGroupSums(rows, ks[1..]);
      assert ([WarehouseRowFor(rows, ks[0])] + WarehouseRows(rows, ks[1..]))[1..] == WarehouseRows(rows, ks[1..]);
    }
  }

  /** The warehouse costs add up to the cost of the orders with a
      warehouse, and every delay rate is a percentage. */
  lemma WarehouseTotals(t: Table)
    requires CostByWarehouse(t).Some?
    ensures var r := CostByWarehouse(t).value;
      WarehouseCostTotal(r) == SumOf(Keyed(t.rows, WarehouseCol), Cost)
      && forall i :: 0 <= i < |r| ==> 0.0 <= r[i].delayRate <= 100.0
  {
    var ks := GroupKeys(t.rows, WarehouseCol);
    WarehouseCostsAreGroupSums(t.rows, ks);
    GroupSumsPartition(t.rows, WarehouseCol, Cost);
    WarehouseRatesBounded(t.rows, ks);
  }

  lemma {:induction false} WarehouseRatesBounded(rows: seq<Record>, ks: seq<string>)
    requires forall k :: k in ks ==> HasKey(rows, WarehouseCol, k)
    ensures var r := WarehouseRows(rows, ks); forall i :: 0 <= i < |r| ==> 0.0 <= r[i].delayRate <= 100.0
  {
    if ks != [] {
      WarehouseRatesBounded(rows, ks[1..]);
      var r := WarehouseRows(rows, ks);
      assert forall i :: 1 <= i < |r| ==> r[i] == WarehouseRows(rows, ks[1..])[i - 1];
    }
  }
}
