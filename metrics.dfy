/** `calculate_supply_chain_metrics`: the delivery-performance classifier,
    the category counts and rates, the average delivery day and the basic
    counts, and the two changes the function makes to the caller's table.
    `today` (midnight of the current day) is a parameter. */
module DeliveryMetrics {
  import opened Wrappers
  import opened Records
  import opened Keys
  import opened Aggregation

  // ----- classification -----

  /** `isin(['In Transit', 'Pending'])`. */
  predicate InProgress(s: Option<Status>) {
    s == Some(InTransit) || s == Some(Pending)
  }

  /** `df['Delivery Date'] >= today`; NaT compares false. */
  predicate OnOrAfter(d: Option<Date>, today: Date) {
    d.Some? && !Before(d.value, today)
  }

  /** `df['Delivery Date'] < today`; NaT compares false. */
  predicate Earlier(d: Option<Date>, today: Date) {
    d.Some? && Before(d.value, today)
  }

  /** The Performance_Category of one record (lines 51-73): `np.select`
      tries the four conditions in order, the first that holds picks the
      category, and Unknown is the default. The conditions exclude each
      other, so each category has a direct description; an in-progress
      record without a date satisfies neither date comparison and is
      Unknown. */
  function Classify(r: Record, today: Date): (cat: Category)
    ensures cat == Category.Delivered <==> r.status == Some(Status.Delivered)
    ensures cat == OnTrack <==> InProgress(r.status) && OnOrAfter(r.deliveryDate, today)
    ensures cat == Overdue <==> InProgress(r.status) && Earlier(r.deliveryDate, today)
    ensures cat == Category.Delayed <==> r.status == Some(Status.Delayed)
    ensures cat == Unknown <==>
      r.status.None? || r.status.value.Other? || (InProgress(r.status) && r.deliveryDate.None?)
  {
    if r.status == Some(Status.Delivered) then Category.Delivered
    else if InProgress(r.status) && OnOrAfter(r.deliveryDate, today) then OnTrack
    else if InProgress(r.status) && Earlier(r.deliveryDate, today) then Overdue
    else if r.status == Some(Status.Delayed) then Category.Delayed
    else Unknown
  }

  /** The rows after `df['Performance_Category'] = ...` (line 68). */
  function Categorized(rows: seq<Record>, today: Date): seq<Record> {
    seq(|rows|, i requires 0 <= i < |rows| => rows[i].(category := Some(Classify(rows[i], today))))
  }

  // ----- counts -----

  /** The rows `Classify` puts in category `cat`. */
  function CountClass(rows: seq<Record>, today: Date, cat: Category): (n: nat)
    ensures n <= |rows|
  {
    if rows == [] then 0
    else
      (if Classify(rows[0], today) == cat then 1 else 0) + CountClass(rows[1..], today, cat)
  }

  /** `len(df[df['Performance_Category'] == cat])`: rows whose stored
      category is `cat`. */
  function CountStored(rows: seq<Record>, cat: Category): (n: nat)
    ensures n <= |rows|
  {
    if rows == [] then 0
    else (if rows[0].category == Some(cat) then 1 else 0) + CountStored(rows[1..], cat)
  }

  /** Counting the stored column after it was written gives the
      classification counts. */
  lemma {:induction false} StoredCountsAreClassCounts(rows: seq<Record>, today: Date, cat: Category)
    ensures CountStored(Categorized(rows, today), cat) == CountClass(rows, today, cat)
  {
    if rows != [] {
      StoredCountsAreClassCounts(rows[1..], today, cat);
      assert Categorized(rows, today)[1..] == Categorized(rows[1..], today);
    }
  }

  /** Every record falls in exactly one category, so the five counts add up
      to the number of rows. */
  lemma {:induction false} CategoryCountsSum(rows: seq<Record>, today: Date)
    ensures CountClass(rows, today, Category.Delivered) + CountClass(rows, today, OnTrack)
            + CountClass(rows, today, Overdue) + CountClass(rows, today, Category.Delayed)
            + CountClass(rows, today, Unknown) == |rows|
  {
    if rows != [] {
      CategoryCountsSum(rows[1..], today);
    }
  }

  /** The Delivered category is the Delivered status. */
  lemma {:induction false} DeliveredCountIsStatusCount(rows: seq<Record>, today: Date)
    ensures CountClass(rows, today, Category.Delivered) == CountStatus(rows, Status.Delivered)
  {
    if rows != [] {
      DeliveredCountIsStatusCount(rows[1..], today);
    }
  }

  /** The Delayed category is the Delayed status. */
  lemma {:induction false} DelayedCountIsStatusCount(rows: seq<Record>, today: Date)
    ensures CountClass(rows, today, Category.Delayed) == CountStatus(rows, Status.Delayed)
  {
    if rows != [] {
      DelayedCountIsStatusCount(rows[1..], today);
    }
  }

  // ----- rates -----

  /** `(count / total_orders * 100) if total_orders > 0 else 0`. */
  function Rate(n: nat, total: nat): (p: real)
    ensures total == 0 ==> p == 0.0
    ensures total > 0 ==> p * (total as real) == (n as real) * 100.0
    ensures 0.0 <= p
    ensures n <= total ==> p <= 100.0
  {
    if total > 0 then Percent(n, total) else 0.0
  }

  /** Rates over the same total add like their counts. */
  lemma RateAdd(a: nat, b: nat, total: nat)
    ensures Rate(a + b, total) == Rate(a, total) + Rate(b, total)
  {
    if total > 0 {
      PercentAdd(a, b, total);
    }
  }

  /** A rate over a non-empty total is 100 exactly when the count is the
      total. */
  lemma RateFull(n: nat, total: nat)
    requires total > 0
    ensures Rate(n, total) == 100.0 <==> n == total
  {
  }

  // ----- average delivery day -----

  /** `df[df['Performance_Category'] == cat]`: the rows of one category, in
      order. */
  function ClassRows(rows: seq<Record>, today: Date, cat: Category): (g: seq<Record>)
    ensures |g| == CountClass(rows, today, cat)
    ensures forall r :: r in g <==> r in rows && Classify(r, today) == cat
  {
    if rows == [] then []
    else if Classify(rows[0], today) == cat then [rows[0]] + ClassRows(rows[1..], today, cat)
    else ClassRows(rows[1..], today, cat)
  }

  /** `.dt.day` of the Delivery Date: the day of the month, NaN for NaT. */
  function Day(r: Record): Option<real> {
    if r.deliveryDate.Some? then Some(r.deliveryDate.value.day as real) else None
  }

  /** Line 93: the mean day of the month of the Delivered records' dates, 0
      when nothing was delivered, NaN (None) when every Delivered record
      lacks a date. */
  function AvgDeliveryTime(rows: seq<Record>, today: Date): (a: Option<real>)
    ensures CountClass(rows, today, Category.Delivered) == 0 ==> a == Some(0.0)
    ensures CountClass(rows, today, Category.Delivered) > 0 ==> a == MeanOf(ClassRows(rows, today, Category.Delivered), Day)
  {
    if CountClass(rows, today, Category.Delivered) == 0 then Some(0.0)
    else MeanOf(ClassRows(rows, today, Category.Delivered), Day)
  }

  /** `avg_delivery_time` is a day of the month, not a duration: with valid
      dates it lies between 1 and 31 whenever it is a number. */
  lemma AvgDeliveryTimeIsDayOfMonth(rows: seq<Record>, today: Date)
    requires ValidDates(rows)
    ensures var a := AvgDeliveryTime(rows, today); a.Some? ==> 0.0 <= a.value <= 31.0
    ensures var a := AvgDeliveryTime(rows, today);
      CountClass(rows, today, Category.Delivered) > 0 && a.Some? ==> 1.0 <= a.value
  {
    var g := ClassRows(rows, today, Category.Delivered);
    if CountClass(rows, today, Category.Delivered) > 0 && CountOf(g, Day) > 0 {
      forall i | 0 <= i < |g| && Day(g[i]).Some? ensures 1.0 <= Day(g[i]).value <= 31.0 {
        assert g[i] in rows;
      }
      MeanBetween(g, Day, 1.0, 31.0);
    }
  }

  // ----- the metrics dictionary -----

  /** `basic_metrics` (lines 38-44). */
  datatype BasicMetrics = BasicMetrics(
    totalSuppliers: nat,
    totalProducts: nat,
    totalWarehouses: nat,
    totalLogisticsPartners: nat,
    totalCost: real)

  /** `delivery_metrics` (lines 83-103); `avgDeliveryTime` is None for NaN. */
  datatype DeliveryKpis = DeliveryKpis(
    completedDeliveryRate: real,
    onTrackRate: real,
    overdueRate: real,
    delayedRate: real,
    overallPerformanceRate: real,
    avgDeliveryTime: Option<real>)

  /** The merged dictionary `{**basic_metrics, **delivery_metrics}`. */
  datatype Metrics = Metrics(basic: BasicMetrics, delivery: DeliveryKpis)

  /** The columns read unconditionally by lines 38-44; a missing one raises
      KeyError and the function returns `{}`. */
  predicate HasBasicColumns(columns: set<Column>) {
    SupplierCol in columns && ProductCol in columns && WarehouseCol in columns
    && PartnerCol in columns && TotalCostCol in columns
  }

  /** The delivery branch runs when both columns exist (line 47). */
  predicate HasDeliveryColumns(columns: set<Column>) {
    DeliveryDateCol in columns && DeliveryStatusCol in columns
  }

  function Basic(rows: seq<Record>): BasicMetrics {
    BasicMetrics(
      NUnique(rows, SupplierCol), NUnique(rows, ProductCol), NUnique(rows, WarehouseCol),
      NUnique(rows, PartnerCol), SumOf(rows, Cost))
  }

  /** The six delivery metrics from the four category counts over `total`
      orders and the average (lines 83-94). */
  function Kpis(total: nat, delivered: nat, onTrack: nat, overdue: nat, delayed: nat, avg: Option<real>): DeliveryKpis {
    DeliveryKpis(
      Rate(delivered, total), Rate(onTrack, total), Rate(overdue, total), Rate(delayed, total),
      Rate(delivered + onTrack, total), avg)
  }

  /** The six delivery metrics of the delivery branch (lines 76-94). */
  function Delivery(rows: seq<Record>, today: Date): DeliveryKpis {
    Kpis(|rows|,
      CountClass(rows, today, Category.Delivered), CountClass(rows, today, OnTrack),
      CountClass(rows, today, Overdue), CountClass(rows, today, Category.Delayed),
      AvgDeliveryTime(rows, today))
  }

  /** The fallback of lines 96-103. */
  const NoDelivery := DeliveryKpis(0.0, 0.0, 0.0, 0.0, 0.0, Some(0.0))

  /** What the function returns for table `t` on day `today`; None is `{}`.
      The basic counts are produced whether or not the delivery columns
      exist; with them the six delivery metrics are `Delivery` of the rows,
      and without them they are all 0. */
  function SupplyChainMetrics(t: Table, today: Date): (m: Option<Metrics>)
    ensures m.None? <==> !HasBasicColumns(t.columns)
    ensures m.Some? ==> m.value.basic == Basic(t.rows)
    ensures m.Some? && !HasDeliveryColumns(t.columns) ==> m.value.delivery == NoDelivery
    ensures m.Some? && HasDeliveryColumns(t.columns) ==> m.value.delivery == Delivery(t.rows, today)
  {
    if !HasBasicColumns(t.columns) then None
    else if HasDeliveryColumns(t.columns) then Some(Metrics(Basic(t.rows), Delivery(t.rows, today)))
    else Some(Metrics(Basic(t.rows), NoDelivery))
  }

  /** With no rows every delivery metric is 0. */
  lemma EmptyTableDelivery(today: Date)
    ensures Delivery([], today) == NoDelivery
  {
  }

  /** Each category rate is the `Rate` of its count out of all rows; the
      completed and delayed rates are the shares of the Delivered and
      Delayed statuses. */
  lemma RatesAreShares(rows: seq<Record>, today: Date)
    ensures var d := Delivery(rows, today);
      d.completedDeliveryRate == Rate(CountStatus(rows, Status.Delivered), |rows|)
      && d.onTrackRate == Rate(CountClass(rows, today, OnTrack), |rows|)
      && d.overdueRate == Rate(CountClass(rows, today, Overdue), |rows|)
      && d.delayedRate == Rate(CountStatus(rows, Status.Delayed), |rows|)
  {
    DeliveredCountIsStatusCount(rows, today);
    DelayedCountIsStatusCount(rows, today);
  }

  /** The overall performance rate is the completed rate plus the on-track
      rate. */
  lemma OverallIsCompletedPlusOnTrack(rows: seq<Record>, today: Date)
    ensures var d := Delivery(rows, today);
      d.overallPerformanceRate == d.completedDeliveryRate + d.onTrackRate
  {
    RateAdd(CountClass(rows, today, Category.Delivered), CountClass(rows, today, OnTrack), |rows|);
  }

  /** Rates of counts that partition the total add up to at most 100, and to
      exactly 100 over a non-empty total when the left-over count is 0. */
  lemma RatesOfPartition(a: nat, b: nat, c: nat, d: nat, u: nat, total: nat)
    requires a + b + c + d + u == total
    ensures var s := Rate(a, total) + Rate(b, total) + Rate(c, total) + Rate(d, total);
      s <= 100.0 && (total > 0 ==> (s == 100.0 <==> u == 0))
  {
    RateAdd(a, b, total);
    RateAdd(a + b, c, total);
    RateAdd(a + b + c, d, total);
    if total > 0 {
      RateFull(a + b + c + d, total);
    }
  }

  /** The four category rates add up to at most 100, and to exactly 100
      when the table has rows and none of them is Unknown. */
  lemma CategoryRatesSum(rows: seq<Record>, today: Date)
    ensures var d := Delivery(rows, today);
      var s := d.completedDeliveryRate + d.onTrackRate + d.overdueRate + d.delayedRate;
      s <= 100.0
      && (|rows| > 0 ==> (s == 100.0 <==> CountClass(rows, today, Unknown) == 0))
  {
    CategoryCountsSum(rows, today);
    RatesOfPartition(
      CountClass(rows, today, Category.Delivered), CountClass(rows, today, OnTrack),
      CountClass(rows, today, Overdue), CountClass(rows, today, Category.Delayed),
      CountClass(rows, today, Unknown), |rows|);
  }

  /** The caller's table, tracked in place: `calculate_supply_chain_metrics`
      receives it by reference and writes into it. */
  class DataFrame {
    var columns: set<Column>
    var rows: seq<Record>

    constructor (t: Table)
      ensures columns == t.columns && rows == t.rows
    {
      columns := t.columns;
      rows := t.rows;
    }

    /** The table this object holds. */
    function Value(): Table
      reads this
    {
      Table(columns, rows)
    }

    /** `calculate_supply_chain_metrics(df)`. The basic counts are read
        first, so a missing basic column returns `{}` before anything is
        written. In the delivery branch the Delivery Date column is
        re-parsed (already datetimes, so it is unchanged) and
        Performance_Category is written; the counts are then read back from
        that column. */
    method CalculateSupplyChainMetrics(today: Date) returns (m: Option<Metrics>)
      modifies this
      ensures m == SupplyChainMetrics(old(Value()), today)
      ensures Value() == MetricsEffect(old(Value()), today)
    {
      if !HasBasicColumns(columns) {
        return None;
      }
      var basic := Basic(rows);
      if !HasDeliveryColumns(columns) {
        return Some(Metrics(basic, NoDelivery));
      }
      var before := rows;
      var total := |rows|;
      rows := Categorized(rows, today);
      columns := columns + {PerformanceCategoryCol};
      var delivered := CountStored(rows, Category.Delivered);
      var onTrack := CountStored(rows, OnTrack);
      var overdue := CountStored(rows, Overdue);
      var delayed := CountStored(rows, Category.Delayed);
      StoredCountsAreClassCounts(before, today, Category.Delivered);
      StoredCountsAreClassCounts(before, today, OnTrack);
      StoredCountsAreClassCounts(before, today, Overdue);
      StoredCountsAreClassCounts(before, today, Category.Delayed);
      var kpis := Kpis(total, delivered, onTrack, overdue, delayed, AvgDeliveryTime(before, today));
      m := Some(Metrics(basic, kpis));
    }
  }

  /** The table after the call: unchanged unless the delivery branch ran,
      in which case every row carries its category and the column exists. */
  function MetricsEffect(t: Table, today: Date): Table {
    if HasBasicColumns(t.columns) && HasDeliveryColumns(t.columns)
    then Table(t.columns + {PerformanceCategoryCol}, Categorized(t.rows, today))
    else t
  }

  /** The call changes the caller's table only by adding Performance_Category:
      same row count, same other columns, every other cell unchanged, and
      the new column holds each row's classification. */
  lemma MetricsOnlyAddsCategory(t: Table, today: Date)
    ensures var u := MetricsEffect(t, today);
      |u.rows| == |t.rows|
      && u.columns - {PerformanceCategoryCol} == t.columns - {PerformanceCategoryCol}
      && (forall i :: 0 <= i < |t.rows| ==> u.rows[i].(category := t.rows[i].category) == t.rows[i])
      && (HasBasicColumns(t.columns) && HasDeliveryColumns(t.columns) ==>
            PerformanceCategoryCol in u.columns
            && forall i :: 0 <= i < |t.rows| ==> u.rows[i].category == Some(Classify(t.rows[i], today)))
  {
  }
}
