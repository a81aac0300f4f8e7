/** The sale endpoint: look the item up, refuse a sale the stock cannot
    cover, otherwise deduct the quantity, writing the item's own
    last-restocked date back unchanged. Uncaught exceptions become a 500
    response. */
module Sales {
  import opened Text
  import opened Records
  import opened Sheets
  import opened Inventory

  datatype SaleResponse = HttpError(status: nat, detail: string) | Sold(item: string, qty: int, remaining: int)

  const InternalError := HttpError(500, "Internal Server Error")

  /** What a successful sale writes: the stock cell of the row holding the id
      reads back as current - qty, which is never negative because the sale
      passed the stock check and rises when qty is negative; the
      last-restocked cell gets the item's own date, or today when it has none. */
  lemma SaleWritesRemaining(rows: seq<Row>, headers: seq<string>, item: Record, id: string, current: int, qty: int, today: string)
    requires qty <= current
    requires UpdatedStock(rows, headers, id, current - qty, Get(item, LastRestockedKey, today)).Ok?
    ensures var out := UpdatedStock(rows, headers, id, current - qty, Get(item, LastRestockedKey, today)).value;
            var r := FindCell(rows, id).value.0;
            var qc := IndexOf(headers, QuantityKey).value;
            var lc := IndexOf(headers, LastRestockedKey).value;
            && ParseInt(CellAt(out, r, qc)) == Some(current - qty)
            && current - qty >= 0
            && (qty < 0 ==> current - qty > current)
            && CellAt(out, r, lc) == (if LastRestockedKey in item then item[LastRestockedKey] else today)
            && forall i, j :: (i != r || (j != qc && j != lc)) ==> CellAt(out, i, j) == CellAt(rows, i, j)
  {
    StockUpdateTouchesTwoCells(rows, headers, id, current - qty, Get(item, LastRestockedKey, today));
    IntToStringRoundTrip(current - qty);
  }

  /** The response `record_sale` gives for the items the store lists and the
      worksheet rows, with the rows afterwards. An empty first match counts as
      not found. */
  function Sale(items: seq<Record>, rows: seq<Row>, headers: seq<string>, id: string, qty: int, today: string): (SaleResponse, seq<Row>)
  {
    var target := TargetItem(items, id);
    if target.None? then (HttpError(404, "Item not found"), rows)
    else SaleOf(target.value, rows, headers, id, qty, today)
  }

  /** The sale of the item found under `id`. The response needs the item's
      name and its selling price as a number (for the sale total, itself not
      modelled); when either fails the sale answers 500 after the stock has
      been written. */
  function SaleOf(target: Record, rows: seq<Row>, headers: seq<string>, id: string, qty: int, today: string): (SaleResponse, seq<Row>)
  {
    var current := IntField(target, QuantityKey, 0);
    if current.None? then (InternalError, rows)
    else if current.value < qty then (HttpError(400, "Insufficient stock. Only " + IntToString(current.value) + " available."), rows)
    else
      var update := UpdatedStock(rows, headers, id, current.value - qty, Get(target, LastRestockedKey, today));
      if update.Err? then (InternalError, rows)
      else (if ItemNameKey in target && FloatFieldOk(target, SellingPriceKey) then Sold(target[ItemNameKey], qty, current.value - qty)
            else InternalError,
            update.value)
  }

  /** The sale of a found item never answers 404; it refuses with 400, the
      sheet untouched, exactly when the stock parses and is below the
      quantity; a completed sale reports the quantity asked for and the stock
      left, which is the old stock minus that quantity, never negative, above
      the old stock when the quantity is negative, and what the sheet now
      shows in the item's stock cell. */
  lemma SaleOfOutcomes(target: Record, rows: seq<Row>, headers: seq<string>, id: string, qty: int, today: string)
    ensures var current := IntField(target, QuantityKey, 0);
            var sale := SaleOf(target, rows, headers, id, qty, today);
            && (sale.0.HttpError? ==> sale.0.status != 404)
            && (sale.0.HttpError? && sale.0.status == 400 <==> current.Some? && current.value < qty)
            && (sale.0.HttpError? && sale.0.status == 400 ==> sale.1 == rows)
            && (sale.0.Sold? ==>
                  && current.Some?
                  && ItemNameKey in target && sale.0.item == target[ItemNameKey]
                  && sale.0.qty == qty
                  && sale.0.remaining == current.value - qty
                  && sale.0.remaining >= 0
                  && (qty < 0 ==> sale.0.remaining > current.value)
                  && ParseInt(CellAt(sale.1, FindCell(rows, id).value.0, IndexOf(headers, QuantityKey).value)) == Some(sale.0.remaining))
  {
    var current := IntField(target, QuantityKey, 0);
    var sale := SaleOf(target, rows, headers, id, qty, today);
    if current.None? {
      assert sale == (InternalError, rows);
    } else if current.value < qty {
      assert sale.0.HttpError? && sale.0.status == 400 && sale.1 == rows;
    } else {
      var date := Get(target, LastRestockedKey, today);
      var update := UpdatedStock(rows, headers, id, current.value - qty, date);
      if update.Err? {
        assert sale == (InternalError, rows);
      } else {
        StockUpdateTouchesTwoCells(rows, headers, id, current.value - qty, date);
        IntToStringRoundTrip(current.value - qty);
      }
    }
  }

  /** The sale answers 404, leaving the sheet as it was, exactly when no item
      is listed under the id or the first one listed is an empty record;
      otherwise the sale is that of the first item listed under the id. */
  lemma SaleOutcomes(items: seq<Record>, rows: seq<Row>, headers: seq<string>, id: string, qty: int, today: string)
    ensures var sale := Sale(items, rows, headers, id, qty, today);
            var k := FindItem(items, id);
            && (k.None? || items[k.value] == map[] <==> sale.0 == HttpError(404, "Item not found"))
            && (k.None? || items[k.value] == map[] ==> sale.1 == rows)
            && (k.Some? && items[k.value] != map[] ==>
                  && ItemIdText(items[k.value]) == id
                  && sale == SaleOf(items[k.value], rows, headers, id, qty, today))
  {
    var k := FindItem(items, id);
    if k.Some? && items[k.value] != map[] {
      SaleOfOutcomes(items[k.value], rows, headers, id, qty, today);
    }
  }

  /** `record_sale`. `manager` is null when the store could not be opened. */
  method RecordSale(manager: InventoryManager?, id: string, qty: int, today: string) returns (r: SaleResponse)
    modifies if manager == null then {} else {manager.db}
    ensures manager == null ==> r == HttpError(500, "Database connection unavailable")
    ensures manager != null ==>
              && (r, manager.db.inventory) == Sale(old(manager.db.GetAllInventory()), old(manager.db.inventory),
                                                   manager.db.inventoryHeaders, id, qty, today)
              && manager.db.restockOrders == old(manager.db.restockOrders)
              && manager.db.log == old(manager.db.log)
  {
    if manager == null {
      return HttpError(500, "Database connection unavailable");
    }
    var db := manager.db;
    var items := db.GetAllInventory();
    var k := FindItem(items, id);
    if k.None? || items[k.value] == map[] {
      return HttpError(404, "Item not found");
    }
    r := SellFound(db, items[k.value], id, qty, today);
  }

  /** The rest of `record_sale` once the item is found: parse its stock,
      refuse an oversized sale, write the new stock, answer. */
  method SellFound(db: DataStore, target: Record, id: string, qty: int, today: string) returns (r: SaleResponse)
    modifies db
    ensures r == SaleOf(target, old(db.inventory), db.inventoryHeaders, id, qty, today).0
    ensures db.inventory == SaleOf(target, old(db.inventory), db.inventoryHeaders, id, qty, today).1
    ensures db.restockOrders == old(db.restockOrders) && db.log == old(db.log)
  {
    ghost var rows := db.inventory;
    ghost var sale := SaleOf(target, rows, db.inventoryHeaders, id, qty, today);
    var parsed := IntField(target, QuantityKey, 0);
    if parsed.None? {
      assert sale.0 == InternalError && sale.1 == rows;
      return InternalError;
    }
    var current := parsed.value;
    if current < qty {
      r := HttpError(400, "Insufficient stock. Only " + IntToString(current) + " available.");
      assert sale.0 == r && sale.1 == rows;
      return;
    }
    var newQty := current - qty;
    ghost var update := UpdatedStock(rows, db.inventoryHeaders, id, newQty, Get(target, LastRestockedKey, today));
    assert update.Err? ==> sale.0 == InternalError && sale.1 == rows;
    assert update.Ok? ==> sale.0 == (if ItemNameKey in target && FloatFieldOk(target, SellingPriceKey) then Sold(target[ItemNameKey], qty, newQty)
                                     else InternalError) && sale.1 == update.value;
    var written := db.UpdateInventoryStock(id, newQty, Get(target, LastRestockedKey, today));
    if written.Err? {
      return InternalError;
    }
    if ItemNameKey !in target || !FloatFieldOk(target, SellingPriceKey) {
      return InternalError;
    }
    r := Sold(target[ItemNameKey], qty, newQty);
  }
}
