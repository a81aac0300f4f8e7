/** The records the inventory side passes around: a worksheet or CSV row read
    as a dictionary from header to cell text, the activity-log entry, and the
    low-stock rule that both the inventory manager and the report generator
    apply to such records. */
module Records {
  import opened Text

  /** A Python dict read from a sheet or CSV row: header -> cell text. */
  type Record = map<string, string>

  const ItemIdKey := "Item_ID"
  const ItemNameKey := "Item_Name"
  const CategoryKey := "Category"
  const SupplierNameKey := "Supplier_Name"
  const QuantityKey := "Quantity_In_Stock"
  const MinStockKey := "Min_Stock_Level"
  const LastRestockedKey := "Last_Restocked"
  const SellingPriceKey := "Selling_Price"
  const CostPriceKey := "Cost_Price"

  /** `record.get(key, default)` */
  function Get(r: Record, key: string, default: string): string
  {
    if key in r then r[key] else default
  }

  /** `int(record.get(key, default))` with an integer default: a missing key
      yields the default, a present one must parse. */
  function IntField(r: Record, key: string, default: int): Option<int>
  {
    if key in r then ParseInt(r[key]) else Some(default)
  }

  /** One row of the activity log: who (the id the caller supplied), what, and a
      human-readable detail. */
  datatype LogEntry = LogEntry(actor: string, action: string, details: string)

  /** Stock at or below its minimum level, reading a missing quantity as 0 and a
      missing minimum as 5; a record whose quantity or minimum does not parse
      is never low (the source skips it). */
  predicate IsLowStock(r: Record)
  {
    var qty := IntField(r, QuantityKey, 0);
    var min := IntField(r, MinStockKey, 5);
    qty.Some? && min.Some? && qty.value <= min.value
  }

  // ---------------------------------------------------------------------
  // Python's float() on text, without surrounding blanks or digit-group
  // underscores

  predicate OptDigits(s: string)
  {
    |s| == 0 || AllDigits(s)
  }

  /** Digits with at most one decimal point, and at least one digit. */
  predicate IsMantissa(m: string)
  {
    AllDigits(m) || (exists p :: 0 <= p < |m| && m[p] == '.' && |m| >= 2 && OptDigits(m[..p]) && OptDigits(m[p + 1..]))
  }

  predicate IsExponent(x: string)
  {
    |x| == 0 ||
    (|x| >= 2 && (x[0] == 'e' || x[0] == 'E') &&
     (AllDigits(x[1..]) || (|x| >= 3 && (x[1] == '+' || x[1] == '-') && AllDigits(x[2..]))))
  }

  /** Text `float()` accepts: an optional sign, then a decimal number with an
      optional exponent, or inf, infinity or nan in any case. */
  predicate IsFloatText(s: string)
  {
    var body := if |s| > 0 && (s[0] == '+' || s[0] == '-') then s[1..] else s;
    Lower(body) == "inf" || Lower(body) == "infinity" || Lower(body) == "nan" ||
    exists e :: 0 <= e <= |body| && IsMantissa(body[..e]) && IsExponent(body[e..])
  }

  /** `float(item.get(key, 0))` succeeds. */
  predicate FloatFieldOk(item: Record, key: string)
  {
    key !in item || IsFloatText(item[key])
  }
}
