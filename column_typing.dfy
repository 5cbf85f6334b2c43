/** The column rules of `load_supply_chain_data`: header names are
    whitespace-trimmed, then every column whose lower-cased name contains
    "date" is coerced to datetimes, and after that every column whose
    lower-cased name contains "price", "cost" or "quantity" is coerced to
    numbers. Reading the file and the coercions themselves are not modelled;
    a column records which coercions were applied to it, in order. */
module ColumnRules {
  import opened Records
  import opened PyStrings

  /** `'date' in col.lower()`. */
  predicate IsDateColumn(name: string) {
    Contains(Lower(name), "date")
  }

  /** `'price' in col.lower() or 'cost' in col.lower() or 'quantity' in col.lower()`. */
  predicate IsNumericColumn(name: string) {
    Contains(Lower(name), "price") || Contains(Lower(name), "cost") || Contains(Lower(name), "quantity")
  }

  /** Both rules ignore letter case. */
  lemma TypingIgnoresCase(name: string)
    ensures IsDateColumn(Lower(name)) == IsDateColumn(name)
    ensures IsNumericColumn(Lower(name)) == IsNumericColumn(name)
  {
    LowerIdempotent(name);
  }

  /** The coercions the loader applies to a column. */
  datatype Coercion = ToDatetime | ToNumeric

  predicate Selects(name: string, k: Coercion) {
    match k
    case ToDatetime => IsDateColumn(name)
    case ToNumeric => IsNumericColumn(name)
  }

  /** The input columns the records hold as dates and numbers are exactly
      the ones whose headers the loader coerces that way: the lemmas below
      show that the date and numeric headers are selected, and
      `TextColumnsAreNotCoerced` and `DeliveryDateIsNotNumericColumn` that
      no other input header is. */
  lemma DeliveryDateIsDateColumn()
    ensures IsDateColumn(ColumnName(DeliveryDateCol))
  {
    var l := Lower("Delivery Date");
    assert l[9..13] == "date";
    OccursContains(l, "date", 9);
  }

  lemma UnitPriceIsNumericColumn()
    ensures IsNumericColumn(ColumnName(UnitPriceCol))
  {
    var l := Lower("Unit Price");
    assert l[5..10] == "price";
    OccursContains(l, "price", 5);
  }

  lemma QuantityIsNumericColumn()
    ensures IsNumericColumn(ColumnName(QuantityCol))
  {
    var l := Lower("Quantity");
    assert l[0..8] == "quantity";
    OccursContains(l, "quantity", 0);
  }

  lemma TotalCostIsNumericColumn()
    ensures IsNumericColumn(ColumnName(TotalCostCol))
  {
    var l := Lower("Total Cost");
    assert l[6..10] == "cost";
    OccursContains(l, "cost", 6);
  }

  /** None of "ri", "co" and "qu", one adjacent pair from each numeric
      keyword, occurs in `l`. */
  predicate NoNumericPair(l: string) {
    NoPair(l, 'r', 'i') && NoPair(l, 'c', 'o') && NoPair(l, 'q', 'u')
  }

  /** Nor does "da", from the date keyword. */
  predicate NoKeywordPair(l: string) {
    NoPair(l, 'd', 'a') && NoNumericPair(l)
  }

  /** A header whose lower-cased form has no numeric keyword pair is not
      coerced to numbers. */
  lemma NoNumericPairNotNumeric(name: string)
    requires NoNumericPair(Lower(name))
    ensures !IsNumericColumn(name)
  {
    var l := Lower(name);
    NoPairNotContained(l, "price", 1);
    NoPairNotContained(l, "cost", 0);
    NoPairNotContained(l, "quantity", 0);
  }

  /** A header whose lower-cased form has no keyword pair is coerced
      neither way. */
  lemma NoKeywordPairNotCoerced(name: string)
    requires NoKeywordPair(Lower(name))
    ensures !IsDateColumn(name) && !IsNumericColumn(name)
  {
    NoPairNotContained(Lower(name), "date", 0);
    NoNumericPairNotNumeric(name);
  }

  // The lower-cased text headers, one fact per lemma to keep each proof small.
  lemma SupplierLowered() ensures Lower("Supplier") == "supplier" {}
  lemma ProductLowered() ensures Lower("Product") == "product" {}
  lemma WarehouseLowered() ensures Lower("Warehouse Location") == "warehouse location" {}
  lemma PartnerLowered() ensures Lower("Logistics Partner") == "logistics partner" {}
  lemma ShippingMethodLowered() ensures Lower("Shipping Method") == "shipping method" {}
  lemma StatusLowered() ensures Lower("Delivery Status") == "delivery status" {}
  lemma DeliveryDateLowered() ensures Lower("Delivery Date") == "delivery date" {}

  lemma SupplierHasNoKeywordPair() ensures NoKeywordPair("supplier") {}
  lemma ProductHasNoKeywordPair() ensures NoKeywordPair("product") {}
  lemma WarehouseHasNoKeywordPair() ensures NoKeywordPair("warehouse location") {}
  lemma PartnerHasNoKeywordPair() ensures NoKeywordPair("logistics partner") {}
  lemma ShippingMethodHasNoKeywordPair() ensures NoKeywordPair("shipping method") {}
  lemma StatusHasNoKeywordPair() ensures NoKeywordPair("delivery status") {}

  /** The text columns are coerced neither to datetimes nor to numbers. */
  lemma TextColumnsAreNotCoerced(c: Column)
    requires IsTextColumn(c)
    ensures !IsDateColumn(ColumnName(c)) && !IsNumericColumn(ColumnName(c))
  {
    match c
    case SupplierCol => SupplierLowered(); SupplierHasNoKeywordPair(); NoKeywordPairNotCoerced("Supplier");
    case ProductCol => ProductLowered(); ProductHasNoKeywordPair(); NoKeywordPairNotCoerced("Product");
    case WarehouseCol => WarehouseLowered(); WarehouseHasNoKeywordPair(); NoKeywordPairNotCoerced("Warehouse Location");
    case PartnerCol => PartnerLowered(); PartnerHasNoKeywordPair(); NoKeywordPairNotCoerced("Logistics Partner");
    case ShippingMethodCol => ShippingMethodLowered(); ShippingMethodHasNoKeywordPair(); NoKeywordPairNotCoerced("Shipping Method");
    case DeliveryStatusCol => StatusLowered(); StatusHasNoKeywordPair(); NoKeywordPairNotCoerced("Delivery Status");
  }

  lemma DeliveryDateHasNoNumericPair() ensures NoNumericPair("delivery date") {}

  /** The delivery date is coerced to datetimes only, not to numbers. */
  lemma DeliveryDateIsNotNumericColumn()
    ensures !IsNumericColumn(ColumnName(DeliveryDateCol))
  {
    DeliveryDateLowered();
    DeliveryDateHasNoNumericPair();
    NoNumericPairNotNumeric("Delivery Date");
  }
}

/** Loading the header: trim every name, then apply the date coercion to
    the columns it selects, then the numeric coercion. */
module ColumnTyping {
  import opened PyStrings
  import opened ColumnRules

  /** A loaded column: its trimmed name and the coercions applied to it. */
  datatype LoadedColumn = LoadedColumn(name: string, coercions: seq<Coercion>)

  /** The coercions applied to a column, in order, given which of the two
      rules select it. */
  function Coercions(isDate: bool, isNumeric: bool): (ks: seq<Coercion>)
    ensures ToDatetime in ks <==> isDate
    ensures ToNumeric in ks <==> isNumeric
    ensures |ks| <= 2
    ensures |ks| == 2 ==> ks == [ToDatetime, ToNumeric]
  {
    (if isDate then [ToDatetime] else []) + (if isNumeric then [ToNumeric] else [])
  }

  /** What loading makes of one header cell: the trimmed name, coerced to
      datetimes if the name mentions a date, and then to numbers if it
      mentions a price, cost or quantity. */
  function TypedColumn(header: string): (c: LoadedColumn)
    ensures c.name == Strip(header)
    ensures ToDatetime in c.coercions <==> IsDateColumn(c.name)
    ensures ToNumeric in c.coercions <==> IsNumericColumn(c.name)
    ensures |c.coercions| <= 2
    ensures |c.coercions| == 2 ==> c.coercions == [ToDatetime, ToNumeric]
  {
    var n := Strip(header);
    LoadedColumn(n, Coercions(IsDateColumn(n), IsNumericColumn(n)))
  }

  /** Surrounding whitespace in a header does not change how it loads. */
  lemma TypingIgnoresSurroundingSpace(header: string)
    ensures TypedColumn(Strip(header)) == TypedColumn(header)
  {
    StripIdempotent(header);
  }

  /** The positions of the columns a coercion selects, ascending
      (the list comprehensions at lines 17 and 22). */
  function Selected(names: seq<string>, k: Coercion): (ps: seq<nat>)
    ensures forall j, l :: 0 <= j < l < |ps| ==> ps[j] < ps[l]
    ensures forall j :: 0 <= j < |ps| ==> ps[j] < |names|
    ensures forall p: nat :: p in ps <==> p < |names| && Selects(names[p], k)
  {
    if names == [] then []
    else
      var last := |names| - 1;
      var front := Selected(names[..last], k);
      assert forall p: nat :: p < last ==> names[..last][p] == names[p];
      if Selects(names[last], k) then front + [last] else front
  }

  /** The loop `for col in selected: df[col] = coerce(df[col])`. */
  method CoerceColumns(cols: seq<LoadedColumn>, ps: seq<nat>, k: Coercion) returns (out: seq<LoadedColumn>)
    requires forall j :: 0 <= j < |ps| ==> ps[j] < |cols|
    requires forall j, l :: 0 <= j < l < |ps| ==> ps[j] < ps[l]
    ensures |out| == |cols|
    ensures forall p :: 0 <= p < |cols| ==>
      out[p] == LoadedColumn(cols[p].name, cols[p].coercions + (if p in ps then [k] else []))
  {
    out := cols;
    var i := 0;
    while i < |ps|
      invariant 0 <= i <= |ps|
      invariant |out| == |cols|
      invariant forall p :: 0 <= p < |cols| ==>
        out[p] == LoadedColumn(cols[p].name, cols[p].coercions + (if p in ps[..i] then [k] else []))
    {
      var p := ps[i];
      assert p !in ps[..i];
      out := out[p := LoadedColumn(out[p].name, out[p].coercions + [k])];
      assert forall q :: q in ps[..i + 1] <==> q in ps[..i] || q == p by {
        assert ps[..i + 1] == ps[..i] + [p];
      }
      i := i + 1;
    }
    assert ps[..i] == ps;
  }

  /** The column part of `load_supply_chain_data` (lines 14-24). */
  method NormalizeColumns(header: seq<string>) returns (cols: seq<LoadedColumn>)
    ensures |cols| == |header|
    ensures forall i :: 0 <= i < |header| ==> cols[i] == TypedColumn(header[i])
  {
    var names := seq(|header|, i requires 0 <= i < |header| => Strip(header[i]));
    cols := seq(|names|, i requires 0 <= i < |names| => LoadedColumn(names[i], []));
    var dateColumns := Selected(names, ToDatetime);
    cols := CoerceColumns(cols, dateColumns, ToDatetime);
    var afterDates := cols;
    var numericColumns := Selected(names, ToNumeric);
    cols := CoerceColumns(cols, numericColumns, ToNumeric);
    forall i | 0 <= i < |header|
      ensures cols[i] == TypedColumn(header[i])
    {
      var isDate, isNumeric := i in dateColumns, i in numericColumns;
      assert isDate == IsDateColumn(names[i]) && isNumeric == IsNumericColumn(names[i]);
      CoercionsInOrder(isDate, isNumeric);
    }
  }

  /** Appending the date coercion and then the numeric one to a fresh
      column gives `Coercions`. */
  lemma CoercionsInOrder(isDate: bool, isNumeric: bool)
    ensures ([] + (if isDate then [ToDatetime] else [])) + (if isNumeric then [ToNumeric] else [])
      == Coercions(isDate, isNumeric)
  {
    assert [] + (if isDate then [ToDatetime] else []) == (if isDate then [ToDatetime] else []);
  }
}
