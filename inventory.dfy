/** The inventory manager: item codes, search, the low-stock list, and the
    permission-gated operations that add an item and restock one, working on
    the worksheet store. */
module Inventory {
  import opened Text
  import opened Records
  import opened Users
  import opened Sheets
  import Seqs
  import Codes
  import Permissions

  // ---------------------------------------------------------------------
  // Item codes

  /** `str(item.get("Item_ID", ""))` for every item, in order. */
  function ItemCodes(items: seq<Record>): (ids: seq<string>)
    ensures |ids| == |items| && forall i :: 0 <= i < |items| ==> ids[i] == Get(items[i], ItemIdKey, "")
  {
    seq(|items|, i requires 0 <= i < |items| => Get(items[i], ItemIdKey, ""))
  }

  /** The code `_generate_item_id` hands out. */
  function NextItemCode(items: seq<Record>): string
  {
    "ITM" + ZeroPad3(Codes.MaxSuffix("ITM", ItemCodes(items)) + 1)
  }

  // ---------------------------------------------------------------------
  // Search

  /** One of the four searched fields, lowercased, contains the (already
      lowercased) query. */
  predicate MatchesQuery(item: Record, q: string)
  {
    || Contains(Lower(Get(item, ItemNameKey, "")), q)
    || Contains(Lower(Get(item, ItemIdKey, "")), q)
    || Contains(Lower(Get(item, CategoryKey, "")), q)
    || Contains(Lower(Get(item, SupplierNameKey, "")), q)
  }

  function QueryMatcher(q: string): Record -> bool
  {
    (item: Record) => MatchesQuery(item, q)
  }

  /** Search results are exactly the matching items, in their original order. */
  lemma SearchFindsExactly(items: seq<Record>, query: string)
    ensures forall x :: x in Seqs.Filter(items, QueryMatcher(Lower(query))) <==> x in items && MatchesQuery(x, Lower(query))
    ensures Seqs.SubsequenceOf(Seqs.Filter(items, QueryMatcher(Lower(query))), items)
  {
    forall x
      ensures x in Seqs.Filter(items, QueryMatcher(Lower(query))) <==> x in items && MatchesQuery(x, Lower(query))
    {
      Seqs.FilterExact(items, QueryMatcher(Lower(query)), x);
    }
    Seqs.FilterIsSubsequence(items, QueryMatcher(Lower(query)));
  }

  /** An empty query matches every item. */
  lemma EmptyQueryFindsAll(items: seq<Record>)
    ensures Seqs.Filter(items, QueryMatcher(Lower(""))) == items
  {
    assert Lower("") == "";
    forall i | 0 <= i < |items|
      ensures MatchesQuery(items[i], "")
    {
      EmptyIsEverywhere(Lower(Get(items[i], ItemNameKey, "")));
    }
    Seqs.FilterAll(items, QueryMatcher(""));
  }

  /** Low-stock results are exactly the low items, in their original order. */
  lemma LowStockFindsExactly(items: seq<Record>)
    ensures forall x :: x in Seqs.Filter(items, IsLowStock) <==> x in items && IsLowStock(x)
    ensures Seqs.SubsequenceOf(Seqs.Filter(items, IsLowStock), items)
  {
    forall x
      ensures x in Seqs.Filter(items, IsLowStock) <==> x in items && IsLowStock(x)
    {
      Seqs.FilterExact(items, IsLowStock, x);
    }
    Seqs.FilterIsSubsequence(items, IsLowStock);
  }

  // ---------------------------------------------------------------------
  // Adding and restocking

  /** The fields `add_new_item` reads with `[]`, in the order it reads them. */
  const RequiredItemFields: seq<string> := ["Category", "Item_Name", "Quantity", "Cost_Price", "Selling_Price", "Supplier_Name"]

  /** The first of `keys` missing from `r`: the KeyError raised. */
  function FirstMissing(r: Record, keys: seq<string>): (m: Option<string>)
    ensures m.None? <==> forall i :: 0 <= i < |keys| ==> keys[i] in r
    ensures m.Some? ==> m.value in keys && m.value !in r
  {
    if |keys| == 0 then None
    else if keys[0] !in r then Some(keys[0])
    else
      var t := FirstMissing(r, keys[1..]);
      assert forall i :: 1 <= i < |keys| ==> keys[1..][i - 1] == keys[i];
      t
  }

  /** The record `add_new_item` builds. `margin` is the text of the profit
      margin it computes from the prices. */
  function NewItem(details: Record, id: string, margin: string, today: string): Record
    requires FirstMissing(details, RequiredItemFields).None?
  {
    assert forall i :: 0 <= i < |RequiredItemFields| ==> RequiredItemFields[i] in details;
    assert RequiredItemFields[0] == "Category" && RequiredItemFields[1] == "Item_Name" && RequiredItemFields[2] == "Quantity";
    assert RequiredItemFields[3] == "Cost_Price" && RequiredItemFields[4] == "Selling_Price" && RequiredItemFields[5] == "Supplier_Name";
    map[
      "Item_ID" := id,
      "Category" := details["Category"],
      "Item_Name" := details["Item_Name"],
      "Description" := Get(details, "Description", ""),
      "Quantity_In_Stock" := details["Quantity"],
      "Cost_Price" := details["Cost_Price"],
      "Selling_Price" := details["Selling_Price"],
      "Supplier_Name" := details["Supplier_Name"],
      "Date_Added" := today,
      "Last_Restocked" := today,
      "Min_Stock_Level" := Get(details, "Min_Stock_Level", "5"),
      "SKU" := Get(details, "SKU", "N/A"),
      "Profit_Margin" := margin
    ]
  }

  /** The fields of a new item: the stock is the requested quantity, the
      minimum defaults to 5, the SKU to "N/A", and the item is both added and
      restocked today. */
  lemma NewItemFields(details: Record, id: string, margin: string, today: string)
    requires FirstMissing(details, RequiredItemFields).None?
    ensures var item := NewItem(details, id, margin, today);
            && item[ItemIdKey] == id
            && item[QuantityKey] == Get(details, "Quantity", "")
            && item[MinStockKey] == Get(details, MinStockKey, "5")
            && item["SKU"] == Get(details, "SKU", "N/A")
            && item["Date_Added"] == today
            && item[LastRestockedKey] == today
  {
    assert RequiredItemFields[2] == "Quantity";
  }

  /** Appending a laid-out record adds one record to what the sheet reads back,
      showing the record's value under every header. */
  lemma AppendedRecordShows(rows: seq<Row>, item: Record)
    requires |rows| > 0
    ensures var shown := SheetRecords(rows + [RowFor(rows[0], item)]);
            && |shown| == |rows|
            && shown[..|rows| - 1] == SheetRecords(rows)
            && forall h :: h in rows[0] ==> h in shown[|rows| - 1] && shown[|rows| - 1][h] == Get(item, h, "")
  {
    AppendedRowReadsBack(rows, item);
    RowRoundTrip(rows[0], item);
    var rec := RecordOf(rows[0], RowFor(rows[0], item));
    forall h | h in rows[0]
      ensures h in rec && rec[h] == Get(item, h, "")
    {
      var i :| 0 <= i < |rows[0]| && rows[0][i] == h;
    }
  }

  /** What the sheet shows for a newly added item, under each header it has. */
  lemma AddedItemReadsBack(rows: seq<Row>, details: Record, id: string, margin: string, today: string)
    requires |rows| > 0
    requires FirstMissing(details, RequiredItemFields).None?
    ensures var item := NewItem(details, id, margin, today);
            var shown := SheetRecords(rows + [RowFor(rows[0], item)]);
            var rec := shown[|shown| - 1];
            && |shown| == |rows|
            && shown[..|rows| - 1] == SheetRecords(rows)
            && (ItemIdKey in rows[0] ==> ItemIdKey in rec && rec[ItemIdKey] == id)
            && (QuantityKey in rows[0] ==> QuantityKey in rec && rec[QuantityKey] == Get(details, "Quantity", ""))
            && (MinStockKey in rows[0] ==> MinStockKey in rec && rec[MinStockKey] == Get(details, MinStockKey, "5"))
            && ("SKU" in rows[0] ==> "SKU" in rec && rec["SKU"] == Get(details, "SKU", "N/A"))
            && ("Date_Added" in rows[0] ==> "Date_Added" in rec && rec["Date_Added"] == today)
            && (LastRestockedKey in rows[0] ==> LastRestockedKey in rec && rec[LastRestockedKey] == today)
  {
    var item := NewItem(details, id, margin, today);
    NewItemFields(details, id, margin, today);
    AppendedRecordShows(rows, item);
  }

  /** `str(item.get("Item_ID"))`: a record without the key shows "None". */
  function ItemIdText(item: Record): string
  {
    if ItemIdKey in item then item[ItemIdKey] else "None"
  }

  /** The first item whose id text is `id`. */
  function FindItem(items: seq<Record>, id: string): (r: Option<nat>)
    ensures r.None? <==> forall i :: 0 <= i < |items| ==> ItemIdText(items[i]) != id
    ensures r.Some? ==> r.value < |items| && ItemIdText(items[r.value]) == id
    ensures r.Some? ==> forall i :: 0 <= i < r.value ==> ItemIdText(items[i]) != id
  {
    if |items| == 0 then None
    else if ItemIdText(items[0]) == id then Some(0)
    else
      var t := FindItem(items[1..], id);
      assert forall i :: 1 <= i < |items| ==> items[1..][i - 1] == items[i];
      if t.Some? then Some(t.value + 1) else None
  }

  /** The item `restock_item` and `record_sale` work on: the first with the
      id, unless that record is empty (an empty dict is false in Python, so
      both treat it as not found). */
  function TargetItem(items: seq<Record>, id: string): Option<Record>
  {
    var k := FindItem(items, id);
    if k.None? || items[k.value] == map[] then None else Some(items[k.value])
  }

  /** The search loop of `restock_item`: the first item whose id text is
      `id`, if any. */
  method FindTarget(items: seq<Record>, id: string) returns (target: Option<Record>)
    ensures target == (if FindItem(items, id).None? then None else Some(items[FindItem(items, id).value]))
  {
    target := None;
    var i := 0;
    while i < |items|
      invariant 0 <= i <= |items|
      invariant forall j :: 0 <= j < i ==> ItemIdText(items[j]) != id
    {
      if ItemIdText(items[i]) == id {
        assert FindItem(items, id) == Some(i);
        return Some(items[i]);
      }
      i := i + 1;
    }
  }

  /** The stock the restock starts from: unparseable reads as 0. */
  function CurrentStock(item: Record): int
  {
    var q := IntField(item, QuantityKey, 0);
    if q.Some? then q.value else 0
  }

  /** The restock-order record `restock_item` appends. */
  function RestockOrder(today: string, supplierName: string, id: string, itemName: string, quantity: int, costPerUnit: string): Record
  {
    map[
      "Date_Ordered" := today,
      "Supplier_Name" := supplierName,
      "Item_ID" := id,
      "Item_Name" := itemName,
      "Quantity_Ordered" := IntToString(quantity),
      "Cost_Per_Unit" := costPerUnit,
      "Expected_Delivery" := today,
      "Status" := "Received",
      "Date_Received" := today
    ]
  }

  /** The summary `restock_item` returns. */
  datatype Restock = Restock(item: Record, previousStock: int, newStock: int, added: int, lastRestocked: string)

  /** What `restock_item` answers and what the inventory rows, the restock
      order rows and the activity log are afterwards, for the user, the items
      the store lists and the stored state. */
  function Restocked(user: Option<User>, items: seq<Record>, rows: seq<Row>, orders: seq<Row>, log: seq<LogEntry>,
                     headers: seq<string>, orderHeaders: seq<string>,
                     id: string, quantity: int, supplierName: string, costPerUnit: string, today: string)
    : (Result<Option<Restock>>, seq<Row>, seq<Row>, seq<LogEntry>)
  {
    if !Permissions.CheckPermission(user, Permissions.PermRestock) then
      (Err(PermissionError("Access Denied: You do not have permission to restock items.")), rows, orders, log)
    else if TargetItem(items, id).None? then (Ok(None), rows, orders, log)
    else RestockApplied(user.value.userId, TargetItem(items, id).value, rows, orders, log, headers, orderHeaders,
                        id, quantity, supplierName, costPerUnit, today)
  }

  /** The restock of a found item by the user with id `actor`. */
  function RestockApplied(actor: string, item: Record, rows: seq<Row>, orders: seq<Row>, log: seq<LogEntry>,
                          headers: seq<string>, orderHeaders: seq<string>,
                          id: string, quantity: int, supplierName: string, costPerUnit: string, today: string)
    : (Result<Option<Restock>>, seq<Row>, seq<Row>, seq<LogEntry>)
  {
    var previous := CurrentStock(item);
    var update := UpdatedStock(rows, headers, id, previous + quantity, today);
    if update.Err? then (Err(update.error), rows, orders, log)
    else
      (Ok(Some(Restock(item, previous, previous + quantity, quantity, today))),
       update.value,
       orders + [RowFor(orderHeaders, RestockOrder(today, supplierName, id, Get(item, ItemNameKey, ""), quantity, costPerUnit))],
       log + [LogEntry(actor, "RESTOCK", "Restocked " + IntToString(quantity) + " units of " + id)])
  }

  /** A refused restock, an unknown id and a failed stock update change
      nothing; a completed one works on the first item listed under the id,
      starts from that item's parsed stock (0 when the cell does not parse)
      and adds the quantity received, leaves the sheet showing the new stock
      and today's date in the row holding the id with every other cell as it
      was, and appends exactly the restock order for that item and one
      RESTOCK entry by the user. */
  lemma RestockOutcomes(user: Option<User>, items: seq<Record>, rows: seq<Row>, orders: seq<Row>, log: seq<LogEntry>,
                        headers: seq<string>, orderHeaders: seq<string>,
                        id: string, quantity: int, supplierName: string, costPerUnit: string, today: string)
    ensures var (r, rows', orders', log') := Restocked(user, items, rows, orders, log, headers, orderHeaders, id, quantity, supplierName, costPerUnit, today);
            && (!Permissions.CheckPermission(user, Permissions.PermRestock) ==> r.Err? && r.error.PermissionError?)
            && (r.Err? || r == Ok(None) ==> rows' == rows && orders' == orders && log' == log)
            && (r == Ok(None) <==> Permissions.CheckPermission(user, Permissions.PermRestock) && TargetItem(items, id).None?)
            && (r.Ok? && r.value.Some? ==>
                  var s := r.value.value;
                  var k := FindItem(items, id);
                  var row := FindCell(rows, id).value.0;
                  var qc := IndexOf(headers, QuantityKey).value;
                  var lc := IndexOf(headers, LastRestockedKey).value;
                  && Permissions.CheckPermission(user, Permissions.PermRestock)
                  && k.Some? && s.item == items[k.value] && s.item != map[]
                  && ItemIdText(s.item) == id
                  && (IntField(s.item, QuantityKey, 0).Some? ==> s.previousStock == IntField(s.item, QuantityKey, 0).value)
                  && (IntField(s.item, QuantityKey, 0).None? ==> s.previousStock == 0)
                  && s.newStock == s.previousStock + quantity && s.added == quantity && s.lastRestocked == today
                  && ParseInt(CellAt(rows', row, qc)) == Some(s.newStock)
                  && CellAt(rows', row, lc) == today
                  && (forall i, j :: (i != row || (j != qc && j != lc)) ==> CellAt(rows', i, j) == CellAt(rows, i, j))
                  && orders' == orders + [RowFor(orderHeaders, RestockOrder(today, supplierName, id, Get(s.item, ItemNameKey, ""), quantity, costPerUnit))]
                  && log' == log + [LogEntry(user.value.userId, "RESTOCK", "Restocked " + IntToString(quantity) + " units of " + id)])
  {
    var target := TargetItem(items, id);
    if Permissions.CheckPermission(user, Permissions.PermRestock) && target.Some? {
      var k := FindItem(items, id).value;
      assert target.value == items[k];
      var previous := CurrentStock(target.value);
      if UpdatedStock(rows, headers, id, previous + quantity, today).Ok? {
        StockUpdateTouchesTwoCells(rows, headers, id, previous + quantity, today);
        IntToStringRoundTrip(previous + quantity);
      }
    }
  }

  class InventoryManager {
    const db: DataStore
    var currentUser: Option<User>

    constructor (db: DataStore, currentUser: Option<User>)
      ensures this.db == db && this.currentUser == currentUser
    {
      this.db := db;
      this.currentUser := currentUser;
    }

    /** `set_user` */
    method SetUser(user: User)
      modifies this
      ensures currentUser == Some(user)
    {
      currentUser := Some(user);
    }

    /** `get_all_items` */
    function GetAllItems(): seq<Record>
      reads db
    {
      db.GetAllInventory()
    }

    /** `_generate_item_id`: the category is not used. */
    method GenerateItemId(category: string) returns (code: string)
      ensures code == NextItemCode(GetAllItems())
      ensures code !in ItemCodes(GetAllItems())
      ensures |GetAllItems()| == 0 ==> code == "ITM001"
    {
      code := Codes.NextCode("ITM", ItemCodes(db.GetAllInventory()));
    }

    /** `search_items` */
    method SearchItems(query: string) returns (results: seq<Record>)
      ensures results == Seqs.Filter(GetAllItems(), QueryMatcher(Lower(query)))
    {
      var items := db.GetAllInventory();
      var q := Lower(query);
      results := [];
      var i := 0;
      while i < |items|
        invariant 0 <= i <= |items|
        invariant results == Seqs.Filter(items[..i], QueryMatcher(q))
      {
        assert items[..i + 1] == items[..i] + [items[i]];
        Seqs.FilterSnoc(items[..i], items[i], QueryMatcher(q));
        var item := items[i];
        if Contains(Lower(Get(item, ItemNameKey, "")), q) || Contains(Lower(Get(item, ItemIdKey, "")), q)
           || Contains(Lower(Get(item, CategoryKey, "")), q) || Contains(Lower(Get(item, SupplierNameKey, "")), q)
        {
          results := results + [item];
        }
        i := i + 1;
      }
      assert items[..|items|] == items;
    }

    /** `get_low_stock_items`: the permission check in the source has no
        effect and is not modelled. */
    method GetLowStockItems() returns (lowStock: seq<Record>)
      ensures lowStock == Seqs.Filter(GetAllItems(), IsLowStock)
    {
      var items := db.GetAllInventory();
      lowStock := [];
      var i := 0;
      while i < |items|
        invariant 0 <= i <= |items|
        invariant lowStock == Seqs.Filter(items[..i], IsLowStock)
      {
        assert items[..i + 1] == items[..i] + [items[i]];
        Seqs.FilterSnoc(items[..i], items[i], IsLowStock);
        var stock := IntField(items[i], QuantityKey, 0);
        var minLevel := IntField(items[i], MinStockKey, 5);
        if stock.Some? && minLevel.Some? && stock.value <= minLevel.value {
          lowStock := lowStock + [items[i]];
        }
        i := i + 1;
      }
      assert items[..|items|] == items;
    }

    /** `add_new_item` */
    method AddNewItem(details: Record, margin: string, today: string) returns (r: Result<Record>)
      modifies db
      ensures !Permissions.CheckPermission(old(currentUser), Permissions.PermAddItem) ==>
                r == Err(PermissionError("Access Denied: You do not have permission to add items."))
                && db.inventory == old(db.inventory) && db.log == old(db.log)
      ensures Permissions.CheckPermission(old(currentUser), Permissions.PermAddItem) && FirstMissing(details, RequiredItemFields).Some? ==>
                r == Err(KeyError(FirstMissing(details, RequiredItemFields).value))
                && db.inventory == old(db.inventory) && db.log == old(db.log)
      ensures Permissions.CheckPermission(old(currentUser), Permissions.PermAddItem) && FirstMissing(details, RequiredItemFields).None? ==>
                var id := NextItemCode(old(db.GetAllInventory()));
                && r == Ok(NewItem(details, id, margin, today))
                && id !in ItemCodes(old(db.GetAllInventory()))
                && db.inventory == old(db.inventory) + [RowFor(db.inventoryHeaders, r.value)]
                && db.log == old(db.log) + [LogEntry(currentUser.value.userId, "ADD_ITEM",
                                                      "Added " + details["Item_Name"] + " (" + id + ")")]
      ensures db.restockOrders == old(db.restockOrders) && currentUser == old(currentUser)
    {
      if !Permissions.CheckPermission(currentUser, Permissions.PermAddItem) {
        return Err(PermissionError("Access Denied: You do not have permission to add items."));
      }
      var id := GenerateItemId(Get(details, CategoryKey, "Other"));
      var missing := FirstMissing(details, RequiredItemFields);
      if missing.Some? {
        return Err(KeyError(missing.value));
      }
      var item := NewItem(details, id, margin, today);
      assert item["Item_Name"] == details["Item_Name"];
      db.AddInventoryItem(item);
      db.LogActivity(currentUser.value.userId, "ADD_ITEM", "Added " + item["Item_Name"] + " (" + id + ")");
      r := Ok(item);
    }

    /** `restock_item`: Ok(None) when no item has the id (or the record found
        is empty, which Python reads as false); an error from the stock
        update is passed on with nothing written. */
    method RestockItem(id: string, quantity: int, supplierName: string, costPerUnit: string, today: string)
      returns (r: Result<Option<Restock>>)
      modifies db
      ensures (r, db.inventory, db.restockOrders, db.log) ==
                Restocked(old(currentUser), old(db.GetAllInventory()), old(db.inventory), old(db.restockOrders), old(db.log),
                          db.inventoryHeaders, db.restockHeaders, id, quantity, supplierName, costPerUnit, today)
      ensures currentUser == old(currentUser)
    {
      if !Permissions.CheckPermission(currentUser, Permissions.PermRestock) {
        return Err(PermissionError("Access Denied: You do not have permission to restock items."));
      }
      var items := db.GetAllInventory();
      var target := FindTarget(items, id);
      if target.None? || target.value == map[] {
        return Ok(None);
      }
      assert TargetItem(items, id) == target;
      r := ApplyRestock(currentUser.value.userId, target.value, id, quantity, supplierName, costPerUnit, today);
    }

    /** The writes of `restock_item` once the item is found: the stock update,
        then the restock order, then the log entry. */
    method ApplyRestock(actor: string, item: Record, id: string, quantity: int, supplierName: string, costPerUnit: string, today: string)
      returns (r: Result<Option<Restock>>)
      modifies db
      ensures var outcome := RestockApplied(actor, item, old(db.inventory), old(db.restockOrders), old(db.log),
                                            db.inventoryHeaders, db.restockHeaders, id, quantity, supplierName, costPerUnit, today);
              r == outcome.0 && db.inventory == outcome.1 && db.restockOrders == outcome.2 && db.log == outcome.3
    {
      ghost var rows, orders, log := db.inventory, db.restockOrders, db.log;
      ghost var outcome := RestockApplied(actor, item, rows, orders, log, db.inventoryHeaders, db.restockHeaders,
                                          id, quantity, supplierName, costPerUnit, today);
      var previous := CurrentStock(item);
      var newStock := previous + quantity;
      var written := db.UpdateInventoryStock(id, newStock, today);
      if written.Err? {
        return Err(written.error);
      }
      db.AddRestockOrder(RestockOrder(today, supplierName, id, Get(item, ItemNameKey, ""), quantity, costPerUnit));
      db.LogActivity(actor, "RESTOCK", "Restocked " + IntToString(quantity) + " units of " + id);
      r := Ok(Some(Restock(item, previous, newStock, quantity, today)));
    }
  }
}
