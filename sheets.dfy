/** The spreadsheet store: each worksheet is a sequence of rows of cell texts
    whose first row holds the headers. New rows are laid out in header
    order, records are read back by zipping a row with the header row, and
    a stock update rewrites two cells of the row where the item id is found. */
module Sheets {
  import opened Text
  import opened Records

  type Row = seq<string>

  /** The header row of a worksheet (`row_values(1)`; empty for an empty sheet). */
  function HeaderRow(rows: seq<Row>): Row
  {
    if |rows| == 0 then [] else rows[0]
  }

  // ---------------------------------------------------------------------
  // Laying out and reading back rows

  /** The row `add_inventory_item` / `add_restock_order` appends: one cell per
      header, the record's value under that header or "" when it has none. */
  function RowFor(headers: seq<string>, data: Record): Row
  {
    seq(|headers|, i requires 0 <= i < |headers| => Get(data, headers[i], ""))
  }

  /** The loop that lays a record out in header order. */
  method BuildRow(headers: seq<string>, data: Record) returns (row: Row)
    ensures row == RowFor(headers, data)
  {
    row := [];
    var i := 0;
    while i < |headers|
      invariant 0 <= i <= |headers|
      invariant |row| == i
      invariant forall k :: 0 <= k < i ==> row[k] == Get(data, headers[k], "")
    {
      row := row + [Get(data, headers[i], "")];
      i := i + 1;
    }
  }

  /** Cell `c` of a row, blank beyond its end. */
  function CellText(row: Row, c: int): string
  {
    if 0 <= c < |row| then row[c] else ""
  }

  /** `get_all_records`, one row: the headers zipped with the cells, a later
      duplicate header overwriting an earlier one. */
  function RecordOf(headers: seq<string>, row: Row): Record
  {
    if |headers| == 0 then map[]
    else RecordOf(headers[..|headers| - 1], row)[headers[|headers| - 1] := CellText(row, |headers| - 1)]
  }

  /** `get_all_records`: every row below the header row, read as a record. */
  function SheetRecords(rows: seq<Row>): seq<Record>
  {
    if |rows| == 0 then []
    else seq(|rows| - 1, i requires 0 <= i < |rows| - 1 => RecordOf(rows[0], rows[i + 1]))
  }

  /** A record read from a row has exactly the headers as keys. */
  lemma {:induction false} RecordOfKeys(headers: seq<string>, row: Row)
    ensures RecordOf(headers, row).Keys == set i | 0 <= i < |headers| :: headers[i]
  {
    if |headers| > 0 {
      var init := headers[..|headers| - 1];
      RecordOfKeys(init, row);
      var keys := set i | 0 <= i < |headers| :: headers[i];
      var initKeys := set i | 0 <= i < |init| :: init[i];
      assert keys == initKeys + {headers[|headers| - 1]} by {
        forall k | k in keys ensures k in initKeys + {headers[|headers| - 1]} {
          var i :| 0 <= i < |headers| && k == headers[i];
          if i < |init| { assert k == init[i]; }
        }
        forall k | k in initKeys ensures k in keys {
          var i :| 0 <= i < |init| && k == init[i];
          assert k == headers[i];
        }
      }
    }
  }

  /** Each header holds the cell under its last occurrence. */
  lemma {:induction false} RecordOfValue(headers: seq<string>, row: Row, i: int)
    requires 0 <= i < |headers|
    requires forall j :: i < j < |headers| ==> headers[j] != headers[i]
    ensures headers[i] in RecordOf(headers, row) && RecordOf(headers, row)[headers[i]] == CellText(row, i)
  {
    if i < |headers| - 1 {
      var init := headers[..|headers| - 1];
      RecordOfValue(init, row, i);
    }
  }

  /** A record read from a row has exactly the headers as keys, and each header
      holds the cell under its last occurrence. */
  lemma RecordOfContents(headers: seq<string>, row: Row)
    ensures RecordOf(headers, row).Keys == set i | 0 <= i < |headers| :: headers[i]
    ensures forall i :: 0 <= i < |headers| && (forall j :: i < j < |headers| ==> headers[j] != headers[i]) ==>
              RecordOf(headers, row)[headers[i]] == CellText(row, i)
  {
    RecordOfKeys(headers, row);
    forall i | 0 <= i < |headers| && (forall j :: i < j < |headers| ==> headers[j] != headers[i])
      ensures RecordOf(headers, row)[headers[i]] == CellText(row, i)
    {
      RecordOfValue(headers, row, i);
    }
  }

  /** Laying a record out and reading the row back gives the record's value
      under every header, "" for a header it lacks, and no other key. */
  lemma RowRoundTrip(headers: seq<string>, data: Record)
    ensures RecordOf(headers, RowFor(headers, data)).Keys == set i | 0 <= i < |headers| :: headers[i]
    ensures forall i :: 0 <= i < |headers| ==> RecordOf(headers, RowFor(headers, data))[headers[i]] == Get(data, headers[i], "")
  {
    var row := RowFor(headers, data);
    RecordOfContents(headers, row);
    forall i | 0 <= i < |headers|
      ensures RecordOf(headers, row)[headers[i]] == Get(data, headers[i], "")
    {
      var last := LastOccurrence(headers, i);
      assert headers[last] == headers[i];
    }
  }

  /** The last position holding the same header as position i. */
  lemma LastOccurrence(headers: seq<string>, i: int) returns (last: int)
    requires 0 <= i < |headers|
    ensures i <= last < |headers| && headers[last] == headers[i]
    ensures forall j :: last < j < |headers| ==> headers[j] != headers[i]
    decreases |headers| - i
  {
    var j := i + 1;
    while j < |headers| && headers[j] != headers[i]
      invariant i < j <= |headers|
      invariant forall k :: i < k < j ==> headers[k] != headers[i]
    {
      j := j + 1;
    }
    if j == |headers| {
      last := i;
    } else {
      last := LastOccurrence(headers, j);
    }
  }

  /** Appending a laid-out row adds exactly one record to what the sheet reads
      back, and that record is the row read under the sheet's own headers. */
  lemma AppendedRowReadsBack(rows: seq<Row>, data: Record)
    requires |rows| > 0
    ensures SheetRecords(rows + [RowFor(rows[0], data)]) == SheetRecords(rows) + [RecordOf(rows[0], RowFor(rows[0], data))]
  {
  }

  // ---------------------------------------------------------------------
  // Finding a cell and rewriting cells

  /** `list.index`: the first position holding `v`. */
  function IndexOf(row: seq<string>, v: string): (r: Option<nat>)
    ensures r.None? <==> v !in row
    ensures r.Some? ==> r.value < |row| && row[r.value] == v && v !in row[..r.value]
  {
    if |row| == 0 then None
    else if row[0] == v then Some(0)
    else
      var t := IndexOf(row[1..], v);
      assert t.Some? ==> row[..t.value + 1] == [row[0]] + row[1..][..t.value];
      if t.Some? then Some(t.value + 1) else None
  }

  /** `worksheet.find`: the first cell equal to `v`, rows top to bottom and
      cells left to right, the header row included. */
  function FindCell(rows: seq<Row>, v: string): (r: Option<(nat, nat)>)
    ensures r.None? <==> forall i :: 0 <= i < |rows| ==> v !in rows[i]
    ensures r.Some? ==> r.value.0 < |rows| && IndexOf(rows[r.value.0], v) == Some(r.value.1)
    ensures r.Some? ==> forall i :: 0 <= i < r.value.0 ==> v !in rows[i]
  {
    if |rows| == 0 then None
    else
      var c := IndexOf(rows[0], v);
      if c.Some? then Some((0, c.value))
      else
        var t := FindCell(rows[1..], v);
        assert forall i :: 1 <= i < |rows| ==> rows[1..][i - 1] == rows[i];
        if t.Some? then Some((t.value.0 + 1, t.value.1)) else None
  }

  /** The text of a cell of the sheet, blank outside the written area. */
  function CellAt(rows: seq<Row>, i: int, j: int): string
  {
    if 0 <= i < |rows| then CellText(rows[i], j) else ""
  }

  /** `update_cell`: row r is padded with blanks up to column c if needed, and
      cell c is set. */
  function SetCell(rows: seq<Row>, r: nat, c: nat, v: string): (out: seq<Row>)
    requires r < |rows|
    ensures |out| == |rows|
    ensures CellAt(out, r, c) == v
    ensures forall i, j :: (i != r || j != c) ==> CellAt(out, i, j) == CellAt(rows, i, j)
  {
    var row := rows[r];
    var padded := if |row| > c then row else row + seq(c + 1 - |row|, _ => "");
    rows[r := padded[c := v]]
  }

  /** What `update_inventory_stock` does to the sheet: the error it raises, or
      the rows after the quantity and the last-restocked cells of the row
      holding the id have been rewritten. Both column positions are looked up
      before anything is written. */
  function UpdatedStock(rows: seq<Row>, headers: seq<string>, id: string, quantity: int, date: string): Result<seq<Row>>
  {
    var cell := FindCell(rows, id);
    if cell.None? then Err(ValueError("Item ID " + id + " not found."))
    else
      var qc := IndexOf(headers, QuantityKey);
      if qc.None? then Err(ValueError("'" + QuantityKey + "' is not in list"))
      else
        var lc := IndexOf(headers, LastRestockedKey);
        if lc.None? then Err(ValueError("'" + LastRestockedKey + "' is not in list"))
        else Ok(SetCell(SetCell(rows, cell.value.0, qc.value, IntToString(quantity)), cell.value.0, lc.value, date))
  }

  /** A stock update changes two cells and nothing else: in the first row that
      holds the id, the cells under the first Quantity_In_Stock and the first
      Last_Restocked header. */
  lemma StockUpdateTouchesTwoCells(rows: seq<Row>, headers: seq<string>, id: string, quantity: int, date: string)
    requires UpdatedStock(rows, headers, id, quantity, date).Ok?
    ensures var out := UpdatedStock(rows, headers, id, quantity, date).value;
            var r := FindCell(rows, id).value.0;
            var qc := IndexOf(headers, QuantityKey).value;
            var lc := IndexOf(headers, LastRestockedKey).value;
            && id in rows[r]
            && qc != lc
            && |out| == |rows|
            && CellAt(out, r, qc) == IntToString(quantity)
            && CellAt(out, r, lc) == date
            && forall i, j :: (i != r || (j != qc && j != lc)) ==> CellAt(out, i, j) == CellAt(rows, i, j)
  {
    var qc := IndexOf(headers, QuantityKey).value;
    var lc := IndexOf(headers, LastRestockedKey).value;
    assert headers[qc] != headers[lc];
  }

  /** A failed stock update reports the missing id before a missing column. */
  lemma StockUpdateErrors(rows: seq<Row>, headers: seq<string>, id: string, quantity: int, date: string)
    ensures (forall i :: 0 <= i < |rows| ==> id !in rows[i]) ==>
              UpdatedStock(rows, headers, id, quantity, date) == Err(ValueError("Item ID " + id + " not found."))
    ensures (exists i :: 0 <= i < |rows| && id in rows[i]) && QuantityKey !in headers ==>
              UpdatedStock(rows, headers, id, quantity, date) == Err(ValueError("'Quantity_In_Stock' is not in list"))
    ensures (exists i :: 0 <= i < |rows| && id in rows[i]) && QuantityKey in headers && LastRestockedKey in headers ==>
              UpdatedStock(rows, headers, id, quantity, date).Ok?
  {
    assert "'" + QuantityKey + "' is not in list" == "'Quantity_In_Stock' is not in list";
  }

  // ---------------------------------------------------------------------
  // The worksheets

  /** The INVENTORY and RESTOCK_ORDERS worksheets, with the header rows cached
      when the store is opened, and an activity log. */
  class DataStore {
    var inventory: seq<Row>
    var restockOrders: seq<Row>
    var log: seq<LogEntry>
    const inventoryHeaders: seq<string>
    const restockHeaders: seq<string>

    constructor (inventory: seq<Row>, restockOrders: seq<Row>)
      ensures this.inventory == inventory && this.restockOrders == restockOrders && log == []
      ensures inventoryHeaders == HeaderRow(inventory) && restockHeaders == HeaderRow(restockOrders)
    {
      this.inventory := inventory;
      this.restockOrders := restockOrders;
      log := [];
      inventoryHeaders := HeaderRow(inventory);
      restockHeaders := HeaderRow(restockOrders);
    }

    /** `get_all_inventory` */
    function GetAllInventory(): seq<Record>
      reads this
    {
      SheetRecords(inventory)
    }

    /** `add_inventory_item` */
    method AddInventoryItem(data: Record)
      modifies this
      ensures inventory == old(inventory) + [RowFor(inventoryHeaders, data)]
      ensures restockOrders == old(restockOrders) && log == old(log)
    {
      var row := BuildRow(inventoryHeaders, data);
      inventory := inventory + [row];
    }

    /** `add_restock_order` */
    method AddRestockOrder(data: Record)
      modifies this
      ensures restockOrders == old(restockOrders) + [RowFor(restockHeaders, data)]
      ensures inventory == old(inventory) && log == old(log)
    {
      var row := BuildRow(restockHeaders, data);
      restockOrders := restockOrders + [row];
    }

    /** `update_inventory_stock`: on an error nothing is written. */
    method UpdateInventoryStock(id: string, quantity: int, date: string) returns (r: Result<()>)
      modifies this
      ensures UpdatedStock(old(inventory), inventoryHeaders, id, quantity, date).Err? ==>
                r == Err(UpdatedStock(old(inventory), inventoryHeaders, id, quantity, date).error) && inventory == old(inventory)
      ensures UpdatedStock(old(inventory), inventoryHeaders, id, quantity, date).Ok? ==>
                r == Ok(()) && inventory == UpdatedStock(old(inventory), inventoryHeaders, id, quantity, date).value
      ensures restockOrders == old(restockOrders) && log == old(log)
    {
      var cell := FindCell(inventory, id);
      if cell.None? {
        return Err(ValueError("Item ID " + id + " not found."));
      }
      var qc := IndexOf(inventoryHeaders, QuantityKey);
      if qc.None? {
        return Err(ValueError("'" + QuantityKey + "' is not in list"));
      }
      var lc := IndexOf(inventoryHeaders, LastRestockedKey);
      if lc.None? {
        return Err(ValueError("'" + LastRestockedKey + "' is not in list"));
      }
      inventory := SetCell(inventory, cell.value.0, qc.value, IntToString(quantity));
      inventory := SetCell(inventory, cell.value.0, lc.value, date);
      r := Ok(());
    }

    /** `log_activity` (called by the inventory manager on this store; the
        worksheet store keeps the actor id as given). */
    method LogActivity(actor: string, action: string, details: string)
      modifies this
      ensures log == old(log) + [LogEntry(actor, action, details)]
      ensures inventory == old(inventory) && restockOrders == old(restockOrders)
    {
      log := log + [LogEntry(actor, action, details)];
    }
  }
}
