/** The order-record table the dashboard works on: one record per
    shipment, the columns the loaded file provides, and the values each
    cell can hold after the loader's coercions (a missing or unparseable
    value is `None`). */
module Records {
  import opened Wrappers

  /** A status text other than the four names the code compares against. */
  type OtherStatusName = s: string | s != "Delivered" && s != "In Transit" && s != "Pending" && s != "Delayed"
    witness ""

  /** The values of the Delivery Status column. The four names the code
      compares against have their own constructors; any other text is
      `Other`. */
  datatype Status = Delivered | InTransit | Pending | Delayed | Other(name: OtherStatusName)

  /** The text pandas holds for a status. */
  function StatusName(s: Status): string {
    match s
    case Delivered => "Delivered"
    case InTransit => "In Transit"
    case Pending => "Pending"
    case Delayed => "Delayed"
    case Other(n) => n
  }

  /** Reads a status cell's text. */
  function ParseStatus(name: string): (s: Status)
    ensures StatusName(s) == name
    ensures s.Other? <==> name !in {"Delivered", "In Transit", "Pending", "Delayed"}
  {
    if name == "Delivered" then Status.Delivered
    else if name == "In Transit" then InTransit
    else if name == "Pending" then Pending
    else if name == "Delayed" then Status.Delayed
    else Other(name)
  }

  /** Different statuses have different texts, so comparing the column's
      text with a name (`x == 'Delayed'`) is comparing statuses, and reading
      back a status's text gives the status again. */
  lemma StatusNameInjective(a: Status, b: Status)
    ensures StatusName(a) == StatusName(b) ==> a == b
    ensures ParseStatus(StatusName(a)) == a
  {
  }

  /** The Performance_Category values written by the metrics engine. */
  datatype Category = Delivered | OnTrack | Overdue | Delayed | Unknown

  /** A calendar date at day granularity (pandas Timestamp normalised to
      midnight; the comparisons the engine makes against today's midnight
      only depend on the day). */
  datatype Date = Date(year: int, month: int, day: int)

  predicate IsLeapYear(y: int) {
    y % 4 == 0 && (y % 100 != 0 || y % 400 == 0)
  }

  function DaysInMonth(y: int, m: int): (n: int)
    requires 1 <= m <= 12
    ensures 28 <= n <= 31
  {
    if m == 2 then (if IsLeapYear(y) then 29 else 28)
    else if m == 4 || m == 6 || m == 9 || m == 11 then 30
    else 31
  }

  /** A date `pd.to_datetime` can produce (it turns anything else into NaT). */
  predicate ValidDate(d: Date) {
    1 <= d.month <= 12 && 1 <= d.day <= DaysInMonth(d.year, d.month)
  }

  /** Chronological order: `a` is an earlier day than `b`. */
  predicate Before(a: Date, b: Date) {
    a.year < b.year
    || (a.year == b.year && a.month < b.month)
    || (a.year == b.year && a.month == b.month && a.day < b.day)
  }

  /** Day order is a strict total order. */
  lemma BeforeTotal(a: Date, b: Date)
    ensures !(Before(a, b) && Before(b, a))
    ensures Before(a, b) || Before(b, a) || a == b
  {
  }

  /** One row of the table. */
  datatype Record = Record(
    supplier: Option<string>,
    product: Option<string>,
    warehouse: Option<string>,
    partner: Option<string>,
    shippingMethod: Option<string>,
    unitPrice: Option<real>,
    quantity: Option<real>,
    totalCost: Option<real>,
    deliveryDate: Option<Date>,
    status: Option<Status>,
    category: Option<Category>)

  /** The columns the code refers to by name. */
  datatype Column =
    | SupplierCol | ProductCol | WarehouseCol | PartnerCol | ShippingMethodCol
    | UnitPriceCol | QuantityCol | TotalCostCol | DeliveryDateCol | DeliveryStatusCol
    | PerformanceCategoryCol

  /** The column header each column has in the data file. */
  function ColumnName(c: Column): string {
    match c
    case SupplierCol => "Supplier"
    case ProductCol => "Product"
    case WarehouseCol => "Warehouse Location"
    case PartnerCol => "Logistics Partner"
    case ShippingMethodCol => "Shipping Method"
    case UnitPriceCol => "Unit Price"
    case QuantityCol => "Quantity"
    case TotalCostCol => "Total Cost"
    case DeliveryDateCol => "Delivery Date"
    case DeliveryStatusCol => "Delivery Status"
    case PerformanceCategoryCol => "Performance_Category"
  }

  /** The columns holding text, which the code groups by or counts the
      distinct values of. */
  predicate IsTextColumn(c: Column) {
    c.SupplierCol? || c.ProductCol? || c.WarehouseCol? || c.PartnerCol?
    || c.ShippingMethodCol? || c.DeliveryStatusCol?
  }

  type TextColumn = c: Column | IsTextColumn(c) witness SupplierCol

  /** The text of a record's cell in a text column. */
  function Text(r: Record, c: TextColumn): Option<string> {
    match c
    case SupplierCol => r.supplier
    case ProductCol => r.product
    case WarehouseCol => r.warehouse
    case PartnerCol => r.partner
    case ShippingMethodCol => r.shippingMethod
    case DeliveryStatusCol => if r.status.Some? then Some(StatusName(r.status.value)) else None
  }

  /** The in-memory table: which columns exist, and the rows. A cell of a
      column that does not exist is never read. */
  datatype Table = Table(columns: set<Column>, rows: seq<Record>)

  /** The loader's guarantee on dates: `pd.to_datetime` only produces real
      calendar days. */
  predicate ValidDates(rows: seq<Record>) {
    forall i :: 0 <= i < |rows| ==> rows[i].deliveryDate.Some? ==> ValidDate(rows[i].deliveryDate.value)
  }
}
