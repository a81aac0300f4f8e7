/** The command-line report generator over the inventory and sales-log CSV
    files, read as lists of records: the low-stock alert (filter, stable sort
    by stock, severity marker), the integer parts of the daily sales summary,
    and the unit total of the inventory value report. */
module Reports {
  import opened Text
  import opened Records
  import Seqs

  // ---------------------------------------------------------------------
  // Low-stock alert

  /** One `(item, qty, min_level)` tuple of the alert. */
  datatype LowEntry = LowEntry(item: Record, qty: int, minLevel: int)

  /** The tuples the collecting loop of `get_low_stock_alert` appends, in
      inventory order. */
  function LowEntries(inventory: seq<Record>): seq<LowEntry>
  {
    if |inventory| == 0 then []
    else
      var item := inventory[|inventory| - 1];
      LowEntries(inventory[..|inventory| - 1]) +
        (if IsLowStock(item) then [LowEntry(item, IntField(item, QuantityKey, 0).value, IntField(item, MinStockKey, 5).value)] else [])
  }

  function ItemsOf(entries: seq<LowEntry>): (items: seq<Record>)
    ensures |items| == |entries| && forall i :: 0 <= i < |entries| ==> items[i] == entries[i].item
  {
    seq(|entries|, i requires 0 <= i < |entries| => entries[i].item)
  }

  /** The alert lists exactly the low items, in inventory order, each with its
      parsed stock and minimum, the stock at or below the minimum. */
  lemma {:induction false} LowEntriesExact(inventory: seq<Record>)
    ensures ItemsOf(LowEntries(inventory)) == Seqs.Filter(inventory, IsLowStock)
    ensures forall e :: e in LowEntries(inventory) ==>
              && IntField(e.item, QuantityKey, 0) == Some(e.qty)
              && IntField(e.item, MinStockKey, 5) == Some(e.minLevel)
              && e.qty <= e.minLevel
  {
    if |inventory| > 0 {
      var init := inventory[..|inventory| - 1];
      var item := inventory[|inventory| - 1];
      LowEntriesExact(init);
      var tail := if IsLowStock(item) then [LowEntry(item, IntField(item, QuantityKey, 0).value, IntField(item, MinStockKey, 5).value)] else [];
      assert ItemsOf(LowEntries(init) + tail) == ItemsOf(LowEntries(init)) + ItemsOf(tail);
    }
  }

  /** Entry `e` placed after every entry whose stock does not exceed its own:
      one step of a stable sort by stock. */
  function InsertByQty(sorted: seq<LowEntry>, e: LowEntry): seq<LowEntry>
  {
    if |sorted| == 0 then [e]
    else if sorted[|sorted| - 1].qty <= e.qty then sorted + [e]
    else InsertByQty(sorted[..|sorted| - 1], e) + [sorted[|sorted| - 1]]
  }

  /** `low_stock_items.sort(key=lambda x: x[1])`: Python's sort is stable. */
  function SortByQty(entries: seq<LowEntry>): seq<LowEntry>
  {
    if |entries| == 0 then []
    else InsertByQty(SortByQty(entries[..|entries| - 1]), entries[|entries| - 1])
  }

  predicate SortedByQty(s: seq<LowEntry>)
  {
    forall i, j :: 0 <= i < j < |s| ==> s[i].qty <= s[j].qty
  }

  function QtyIs(q: int): LowEntry -> bool
  {
    (e: LowEntry) => e.qty == q
  }

  lemma {:induction false} InsertByQtyPermutes(sorted: seq<LowEntry>, e: LowEntry)
    ensures multiset(InsertByQty(sorted, e)) == multiset(sorted) + multiset{e}
  {
    if |sorted| > 0 && sorted[|sorted| - 1].qty > e.qty {
      var init := sorted[..|sorted| - 1];
      InsertByQtyPermutes(init, e);
      assert sorted == init + [sorted[|sorted| - 1]];
    }
  }

  lemma {:induction false} InsertByQtySorts(sorted: seq<LowEntry>, e: LowEntry)
    requires SortedByQty(sorted)
    ensures SortedByQty(InsertByQty(sorted, e))
  {
    if |sorted| > 0 && sorted[|sorted| - 1].qty > e.qty {
      var init := sorted[..|sorted| - 1];
      var last := sorted[|sorted| - 1];
      InsertByQtySorts(init, e);
      InsertByQtyPermutes(init, e);
      var ins := InsertByQty(init, e);
      forall k | 0 <= k < |ins| ensures ins[k].qty <= last.qty {
        var x := ins[k];
        assert x in multiset(ins);
        if x != e {
          assert x in multiset(init);
          var j :| 0 <= j < |init| && init[j] == x;
          assert sorted[j] == x;
        }
      }
      SortedSnoc(ins, last);
    }
  }

  lemma SortedSnoc(s: seq<LowEntry>, x: LowEntry)
    requires SortedByQty(s)
    requires forall k :: 0 <= k < |s| ==> s[k].qty <= x.qty
    ensures SortedByQty(s + [x])
  {
  }

  lemma SwapEmpty<T>(a: seq<T>, x: seq<T>, y: seq<T>)
    requires x == [] || y == []
    ensures a + x + y == a + y + x
  {
  }

  lemma {:induction false} InsertByQtyStable(sorted: seq<LowEntry>, e: LowEntry, q: int)
    ensures Seqs.Filter(InsertByQty(sorted, e), QtyIs(q)) == Seqs.Filter(sorted, QtyIs(q)) + (if e.qty == q then [e] else [])
  {
    if |sorted| == 0 {
      Seqs.FilterSnoc([], e, QtyIs(q));
    } else if sorted[|sorted| - 1].qty > e.qty {
      var init := sorted[..|sorted| - 1];
      var last := sorted[|sorted| - 1];
      var p := QtyIs(q);
      var ins := InsertByQty(init, e);
      var E := if e.qty == q then [e] else [];
      var L := if last.qty == q then [last] else [];
      assert InsertByQty(sorted, e) == ins + [last];
      InsertByQtyStable(init, e, q);
      Seqs.FilterSnoc(ins, last, p);
      Seqs.FilterSnoc(init, last, p);
      assert sorted == init + [last];
      SwapEmpty(Seqs.Filter(init, p), E, L);
    } else {
      Seqs.FilterSnoc(sorted, e, QtyIs(q));
    }
  }

  /** The sort orders by stock, loses and adds nothing, and keeps the original
      order among entries with the same stock: together these determine the
      result completely. */
  lemma {:induction false} SortByQtyIsStableSort(entries: seq<LowEntry>)
    ensures SortedByQty(SortByQty(entries))
    ensures multiset(SortByQty(entries)) == multiset(entries)
    ensures forall q :: Seqs.Filter(SortByQty(entries), QtyIs(q)) == Seqs.Filter(entries, QtyIs(q))
  {
    if |entries| > 0 {
      var init := entries[..|entries| - 1];
      var last := entries[|entries| - 1];
      SortByQtyIsStableSort(init);
      assert entries == init + [last];
      InsertByQtySorts(SortByQty(init), last);
      InsertByQtyPermutes(SortByQty(init), last);
      forall q
        ensures Seqs.Filter(SortByQty(entries), QtyIs(q)) == Seqs.Filter(entries, QtyIs(q))
      {
        InsertByQtyStable(SortByQty(init), last, q);
        Seqs.FilterSnoc(init, last, QtyIs(q));
      }
    }
  }

  const Red := "\U{1F534}"
  const Yellow := "\U{1F7E1}"
  const AlertTitle := "\U{26A0}\U{FE0F} LOW STOCK ALERT"
  const Rule := "\U{2501}\U{2501}\U{2501}\U{2501}\U{2501}\U{2501}\U{2501}\U{2501}\U{2501}\U{2501}\U{2501}\U{2501}\U{2501}\U{2501}\U{2501}\U{2501}\U{2501}\U{2501}\U{2501}\U{2501}\U{2501}\U{2501}\U{2501}\U{2501}\U{2501}\U{2501}\U{2501}\U{2501}\U{2501}\U{2501}\U{2501}\U{2501}"
  const Healthy := "\U{2705} All stock levels are healthy."

  function Marker(qty: int): string
  {
    if qty <= 2 then Red else Yellow
  }

  /** `str(item.get('Item_Name'))`: "None" when the column is missing. */
  function NameText(item: Record): string
  {
    Get(item, ItemNameKey, "None")
  }

  function AlertLine(e: LowEntry): string
  {
    "   \U{2022} " + NameText(e.item) + " - " + IntToString(e.qty) + " units (min: " + IntToString(e.minLevel) + ") " + Marker(e.qty)
  }

  /** One line per entry, in order. */
  function EntryLines(sorted: seq<LowEntry>): (lines: seq<string>)
    ensures |lines| == |sorted|
  {
    if |sorted| == 0 then [] else EntryLines(sorted[..|sorted| - 1]) + [AlertLine(sorted[|sorted| - 1])]
  }

  lemma {:induction false} EntryLinesAt(sorted: seq<LowEntry>, i: int)
    requires 0 <= i < |sorted|
    ensures EntryLines(sorted)[i] == AlertLine(sorted[i])
  {
    if i < |sorted| - 1 {
      EntryLinesAt(sorted[..|sorted| - 1], i);
    }
  }

  /** The lines of the alert for the sorted entries. */
  function AlertLines(sorted: seq<LowEntry>): seq<string>
  {
    [AlertTitle, Rule] + (if |sorted| == 0 then [Healthy] else EntryLines(sorted))
  }

  predicate EndsWith(s: string, suffix: string)
  {
    |suffix| <= |s| && s[|s| - |suffix|..] == suffix
  }

  /** Two header lines, then either the single healthy line or one line per
      entry in sorted order, ending in the red marker exactly when the stock
      is 2 or less and in the yellow one otherwise. */
  lemma AlertLayout(sorted: seq<LowEntry>)
    ensures var lines := AlertLines(sorted);
            && lines[..2] == [AlertTitle, Rule]
            && (|sorted| == 0 ==> lines == [AlertTitle, Rule, Healthy])
            && (|sorted| > 0 ==> |lines| == 2 + |sorted|)
            && forall i :: 0 <= i < |sorted| ==>
                 && (EndsWith(lines[2 + i], Red) <==> sorted[i].qty <= 2)
                 && (EndsWith(lines[2 + i], Yellow) <==> sorted[i].qty > 2)
  {
    var lines := AlertLines(sorted);
    forall i | 0 <= i < |sorted|
      ensures (EndsWith(lines[2 + i], Red) <==> sorted[i].qty <= 2) && (EndsWith(lines[2 + i], Yellow) <==> sorted[i].qty > 2)
    {
      var line := lines[2 + i];
      EntryLinesAt(sorted, i);
      assert line == AlertLine(sorted[i]);
      var m := Marker(sorted[i].qty);
      assert line[|line| - 1..] == m;
    }
  }

  /** `"\n".join(lines)` */
  function JoinLines(lines: seq<string>): string
  {
    if |lines| == 0 then ""
    else if |lines| == 1 then lines[0]
    else JoinLines(lines[..|lines| - 1]) + "\n" + lines[|lines| - 1]
  }

  // ---------------------------------------------------------------------
  // Daily sales summary

  const DateKey := "Date"
  const QuantitySoldKey := "Quantity_Sold"
  const PaymentMethodKey := "Payment_Method"

  function OnDate(date: string): Record -> bool
  {
    (s: Record) => DateKey in s && s[DateKey] == date
  }

  /** The sales of the day, in log order. */
  function DaySales(sales: seq<Record>, date: string): seq<Record>
  {
    Seqs.Filter(sales, OnDate(date))
  }

  /** The ValueError `int()` raises on text that is not an integer. */
  function IntLiteralError(v: string): Error
  {
    ValueError("invalid literal for int() with base 10: '" + v + "'")
  }

  /** The items-sold sum: a sale whose quantity cell is missing or empty is
      skipped, any other quantity must parse; the first one that does not
      raises. */
  function ItemsSold(daily: seq<Record>): Result<int>
  {
    if |daily| == 0 then Ok(0)
    else
      var rest := ItemsSold(daily[..|daily| - 1]);
      var v := Get(daily[|daily| - 1], QuantitySoldKey, "");
      if rest.Err? || v == "" then rest
      else if ParseInt(v).None? then Err(IntLiteralError(v))
      else Ok(rest.value + ParseInt(v).value)
  }

  /** Sold quantity per item name, in order of first appearance: a Python
      Counter keyed by `s.get('Item_Name')`, which is None when the column
      is missing. */
  type Tally = seq<(Option<string>, int)>

  function NameOf(s: Record): Option<string>
  {
    if ItemNameKey in s then Some(s[ItemNameKey]) else None
  }

  /** `counter[name] += qty` */
  function Bump(t: Tally, name: Option<string>, qty: int): Tally
  {
    if |t| == 0 then [(name, qty)]
    else if t[0].0 == name then [(name, t[0].1 + qty)] + t[1..]
    else [t[0]] + Bump(t[1..], name, qty)
  }

  /** The best-seller loop's `int(s.get('Quantity_Sold', 0))` as written: a
      missing cell counts 0, but an empty one fails to parse. */
  function SoldQtyAsWritten(s: Record): Option<int>
  {
    IntField(s, QuantitySoldKey, 0)
  }

  /** The quantity as the items-sold sum treats it: a missing or empty cell
      counts 0. */
  function SoldQty(s: Record): Option<int>
  {
    var v := Get(s, QuantitySoldKey, "");
    if v == "" then Some(0) else ParseInt(v)
  }

  /** The best-seller loop over the day's sales, reading each quantity with
      `qtyOf`; the first quantity that does not parse raises. */
  function TallyBy(daily: seq<Record>, qtyOf: Record -> Option<int>): Result<Tally>
  {
    if |daily| == 0 then Ok([])
    else
      var rest := TallyBy(daily[..|daily| - 1], qtyOf);
      var s := daily[|daily| - 1];
      if rest.Err? then rest
      else if qtyOf(s).None? then Err(IntLiteralError(Get(s, QuantitySoldKey, "")))
      else Ok(Bump(rest.value, NameOf(s), qtyOf(s).value))
  }

  /** `most_common(1)[0]`: the largest count, the earliest entry among equal
      counts (Counter's order is insertion order and its sort is stable). */
  function BestOf(t: Tally): (r: Option<(Option<string>, int)>)
    ensures r.None? <==> |t| == 0
    ensures r.Some? ==> exists k :: 0 <= k < |t| && t[k] == r.value && forall i :: 0 <= i < k ==> t[i].1 < r.value.1
    ensures r.Some? ==> forall i :: 0 <= i < |t| ==> t[i].1 <= r.value.1
  {
    if |t| == 0 then None
    else
      var rest := BestOf(t[..|t| - 1]);
      if rest.Some? && rest.value.1 >= t[|t| - 1].1 then rest else Some(t[|t| - 1])
  }

  /** `name in counter` */
  predicate Lists(t: Tally, name: Option<string>)
  {
    exists i :: 0 <= i < |t| && t[i].0 == name
  }

  predicate DistinctNames(t: Tally)
  {
    forall i, j :: 0 <= i < j < |t| ==> t[i].0 != t[j].0
  }

  function SoldOr0(s: Record): int
  {
    if SoldQty(s).Some? then SoldQty(s).value else 0
  }

  /** The quantity sold under one item name over the given sales. */
  function NameTotal(daily: seq<Record>, name: Option<string>): int
  {
    if |daily| == 0 then 0
    else NameTotal(daily[..|daily| - 1], name) + (if NameOf(daily[|daily| - 1]) == name then SoldOr0(daily[|daily| - 1]) else 0)
  }

  function SumCounts(t: Tally): int
  {
    if |t| == 0 then 0 else t[0].1 + SumCounts(t[1..])
  }

  /** Adding to a name adds to that name's count only and appends the name
      when it was new. */
  lemma {:induction false} BumpEntries(t: Tally, name: Option<string>, qty: int)
    requires DistinctNames(t)
    ensures var b := Bump(t, name, qty);
            && |b| == |t| + (if Lists(t, name) then 0 else 1)
            && (forall i :: 0 <= i < |t| ==> b[i] == (t[i].0, t[i].1 + (if t[i].0 == name then qty else 0)))
            && (!Lists(t, name) ==> b[|t|] == (name, qty))
  {
    if |t| > 0 {
      if t[0].0 != name {
        BumpEntries(t[1..], name, qty);
        assert Lists(t, name) <==> Lists(t[1..], name) by {
          if Lists(t, name) {
            var i :| 0 <= i < |t| && t[i].0 == name;
            assert t[1..][i - 1].0 == name;
          }
          if Lists(t[1..], name) {
            var i :| 0 <= i < |t[1..]| && t[1..][i].0 == name;
            assert t[i + 1].0 == name;
          }
        }
      } else {
        assert t[0].0 == name;
      }
    }
  }

  /** The names after adding are those before, plus the added one. */
  lemma BumpNames(t: Tally, name: Option<string>, qty: int, n: Option<string>)
    requires DistinctNames(t)
    ensures Lists(Bump(t, name, qty), n) <==> Lists(t, n) || n == name
  {
    BumpEntries(t, name, qty);
    var b := Bump(t, name, qty);
    if Lists(b, n) {
      var i :| 0 <= i < |b| && b[i].0 == n;
      if i < |t| { assert t[i].0 == n; }
    }
    if Lists(t, n) {
      var i :| 0 <= i < |t| && t[i].0 == n;
      assert b[i].0 == n;
    }
    if n == name && !Lists(t, n) {
      assert b[|t|].0 == n;
    }
  }

  /** Adding keeps the names distinct. */
  lemma BumpKeepsDistinct(t: Tally, name: Option<string>, qty: int)
    requires DistinctNames(t)
    ensures DistinctNames(Bump(t, name, qty))
  {
    BumpEntries(t, name, qty);
  }

  lemma {:induction false} BumpAddsToSum(t: Tally, name: Option<string>, qty: int)
    ensures SumCounts(Bump(t, name, qty)) == SumCounts(t) + qty
  {
    if |t| > 0 && t[0].0 != name {
      BumpAddsToSum(t[1..], name, qty);
      assert Bump(t, name, qty)[1..] == Bump(t[1..], name, qty);
    } else if |t| > 0 {
      assert Bump(t, name, qty)[1..] == t[1..];
    }
  }

  lemma {:induction false} NameTotalAbsent(daily: seq<Record>, name: Option<string>)
    requires forall k :: 0 <= k < |daily| ==> NameOf(daily[k]) != name
    ensures NameTotal(daily, name) == 0
  {
    if |daily| > 0 {
      NameTotalAbsent(daily[..|daily| - 1], name);
    }
  }

  /** The tally never lists a name twice. */
  lemma {:induction false} TallyDistinct(daily: seq<Record>, qtyOf: Record -> Option<int>)
    requires TallyBy(daily, qtyOf).Ok?
    ensures DistinctNames(TallyBy(daily, qtyOf).value)
  {
    if |daily| > 0 {
      var init := daily[..|daily| - 1];
      var s := daily[|daily| - 1];
      TallyDistinct(init, qtyOf);
      BumpKeepsDistinct(TallyBy(init, qtyOf).value, NameOf(s), qtyOf(s).value);
    }
  }

  /** The tally holds exactly the item names of the day. */
  lemma {:induction false} TallyNames(daily: seq<Record>, qtyOf: Record -> Option<int>, name: Option<string>)
    requires TallyBy(daily, qtyOf).Ok?
    ensures Lists(TallyBy(daily, qtyOf).value, name) <==> exists k :: 0 <= k < |daily| && NameOf(daily[k]) == name
  {
    if |daily| > 0 {
      var init := daily[..|daily| - 1];
      var s := daily[|daily| - 1];
      TallyNames(init, qtyOf, name);
      TallyDistinct(init, qtyOf);
      var t := TallyBy(init, qtyOf).value;
      BumpNames(t, NameOf(s), qtyOf(s).value, name);
      if exists k :: 0 <= k < |daily| && NameOf(daily[k]) == name {
        var k :| 0 <= k < |daily| && NameOf(daily[k]) == name;
        if k < |init| { assert NameOf(init[k]) == name; }
      }
      if Lists(t, name) {
        var k :| 0 <= k < |init| && NameOf(init[k]) == name;
        assert NameOf(daily[k]) == name;
      }
    }
  }

  /** With the empty-cell reading, each count is the quantity sold under that
      name that day. */
  lemma {:induction false} TallyTotals(daily: seq<Record>)
    requires TallyBy(daily, SoldQty).Ok?
    ensures var t := TallyBy(daily, SoldQty).value;
            forall i :: 0 <= i < |t| ==> t[i].1 == NameTotal(daily, t[i].0)
  {
    if |daily| > 0 {
      var init := daily[..|daily| - 1];
      var s := daily[|daily| - 1];
      TallyTotals(init);
      TallyDistinct(init, SoldQty);
      var t := TallyBy(init, SoldQty).value;
      var n := NameOf(s);
      TallyNames(init, SoldQty, n);
      BumpEntries(t, n, SoldQty(s).value);
      var b := TallyBy(daily, SoldQty).value;
      assert b == Bump(t, n, SoldQty(s).value);
      if !Lists(t, n) {
        NameTotalAbsent(init, n);
      }
      forall i | 0 <= i < |b| ensures b[i].1 == NameTotal(daily, b[i].0) {
        if i < |t| {
          assert b[i].0 == t[i].0;
        }
      }
    }
  }

  /** An error part-way through the loop is the loop's error. */
  lemma {:induction false} TallyErrorPersists(daily: seq<Record>, i: nat, qtyOf: Record -> Option<int>)
    requires i <= |daily|
    requires TallyBy(daily[..i], qtyOf).Err?
    ensures TallyBy(daily, qtyOf) == TallyBy(daily[..i], qtyOf)
  {
    if i < |daily| {
      assert daily[..|daily| - 1][..i] == daily[..i];
      TallyErrorPersists(daily[..|daily| - 1], i, qtyOf);
    } else {
      assert daily[..i] == daily;
    }
  }

  /** The corrected tally fails exactly when the items-sold sum does, with
      the same error, and otherwise its counts add up to the items sold. */
  lemma {:induction false} ItemsSoldIsTallySum(daily: seq<Record>)
    ensures ItemsSold(daily).Ok? <==> TallyBy(daily, SoldQty).Ok?
    ensures ItemsSold(daily).Err? ==> ItemsSold(daily).error == TallyBy(daily, SoldQty).error
    ensures ItemsSold(daily).Ok? ==> SumCounts(TallyBy(daily, SoldQty).value) == ItemsSold(daily).value
  {
    if |daily| > 0 {
      var init := daily[..|daily| - 1];
      var s := daily[|daily| - 1];
      ItemsSoldIsTallySum(init);
      if TallyBy(init, SoldQty).Ok? && SoldQty(s).Some? {
        BumpAddsToSum(TallyBy(init, SoldQty).value, NameOf(s), SoldQty(s).value);
      }
    }
  }

  /** Once the items-sold sum has succeeded, the best-seller loop as written
      fails exactly when some sale of the day has an empty quantity cell;
      without one, it agrees with the corrected tally. */
  lemma {:induction false} AsWrittenFailsOnEmptyCell(daily: seq<Record>)
    requires ItemsSold(daily).Ok?
    ensures TallyBy(daily, SoldQtyAsWritten).Err? <==>
              exists k :: 0 <= k < |daily| && QuantitySoldKey in daily[k] && daily[k][QuantitySoldKey] == ""
    ensures TallyBy(daily, SoldQtyAsWritten).Ok? ==> TallyBy(daily, SoldQtyAsWritten) == TallyBy(daily, SoldQty)
  {
    if |daily| > 0 {
      var init := daily[..|daily| - 1];
      var s := daily[|daily| - 1];
      AsWrittenFailsOnEmptyCell(init);
      ItemsSoldIsTallySum(init);
      if exists k :: 0 <= k < |init| && QuantitySoldKey in init[k] && init[k][QuantitySoldKey] == "" {
        var k :| 0 <= k < |init| && QuantitySoldKey in init[k] && init[k][QuantitySoldKey] == "";
        assert daily[k] == init[k];
      }
      if exists k :: 0 <= k < |daily| && QuantitySoldKey in daily[k] && daily[k][QuantitySoldKey] == "" {
        var k :| 0 <= k < |daily| && QuantitySoldKey in daily[k] && daily[k][QuantitySoldKey] == "";
        if k < |init| { assert init[k] == daily[k]; }
      }
    }
  }

  /** A one-sale log whose quantity cell is empty: the items-sold sum reads it
      as nothing sold, the best-seller loop as written raises, the corrected
      one counts the item with 0 sold. */
  lemma EmptyQuantityCrashesReport()
    ensures var sale := map[DateKey := "2024-01-15", ItemNameKey := "Pen", QuantitySoldKey := ""];
            && DaySales([sale], "2024-01-15") == [sale]
            && ItemsSold([sale]) == Ok(0)
            && TallyBy([sale], SoldQtyAsWritten) == Err(IntLiteralError(""))
            && TallyBy([sale], SoldQty) == Ok([(Some("Pen"), 0)])
  {
    var sale := map[DateKey := "2024-01-15", ItemNameKey := "Pen", QuantitySoldKey := ""];
    assert [sale][..0] == [];
    assert !AllDigits("");
  }

  function MethodOf(s: Record): string
  {
    Get(s, PaymentMethodKey, "")
  }

  function PaidWith(m: string): Record -> bool
  {
    (s: Record) => MethodOf(s) == m
  }

  /** The keys of the payment-method Counter: the distinct non-empty methods,
      in order of first appearance. */
  function PaymentMethods(daily: seq<Record>): seq<string>
  {
    if |daily| == 0 then []
    else
      var ms := PaymentMethods(daily[..|daily| - 1]);
      var m := MethodOf(daily[|daily| - 1]);
      if m == "" || m in ms then ms else ms + [m]
  }

  /** Each payment method with its number of sales that day. */
  function PaymentCounts(daily: seq<Record>): seq<(string, nat)>
  {
    var ms := PaymentMethods(daily);
    seq(|ms|, i requires 0 <= i < |ms| => (ms[i], Seqs.Count(daily, PaidWith(ms[i]))))
  }

  /** The methods are listed once each. */
  predicate AllDistinct(ms: seq<string>)
  {
    forall i, j :: 0 <= i < j < |ms| ==> ms[i] != ms[j]
  }

  lemma {:induction false} PaymentMethodsDistinct(daily: seq<Record>)
    ensures AllDistinct(PaymentMethods(daily))
  {
    if |daily| > 0 {
      var before := PaymentMethods(daily[..|daily| - 1]);
      var m := MethodOf(daily[|daily| - 1]);
      PaymentMethodsDistinct(daily[..|daily| - 1]);
      var ms := PaymentMethods(daily);
      if m != "" && m !in before {
        assert ms == before + [m];
        forall i, j | 0 <= i < j < |ms| ensures ms[i] != ms[j] {
          if j == |before| {
            assert before[i] in before;
          } else {
            assert before[i] != before[j];
          }
        }
      }
    }
  }

  /** A method is listed exactly when it is non-empty and some sale of the day
      was paid with it. */
  lemma {:induction false} PaymentMethodListed(daily: seq<Record>, m: string)
    ensures m in PaymentMethods(daily) <==> m != "" && exists k :: 0 <= k < |daily| && MethodOf(daily[k]) == m
  {
    if |daily| > 0 {
      var init := daily[..|daily| - 1];
      PaymentMethodListed(init, m);
      if m in PaymentMethods(init) {
        var k :| 0 <= k < |init| && MethodOf(init[k]) == m;
        assert MethodOf(daily[k]) == m;
      }
      if m != "" && exists k :: 0 <= k < |daily| && MethodOf(daily[k]) == m {
        var k :| 0 <= k < |daily| && MethodOf(daily[k]) == m;
        if k < |init| {
          assert MethodOf(init[k]) == m;
        }
      }
    }
  }

  /** Every listed method was used at least once that day. */
  lemma PaymentCountsPositive(daily: seq<Record>)
    ensures forall e :: e in PaymentCounts(daily) ==> e.0 != "" && e.1 >= 1
  {
    var ms := PaymentMethods(daily);
    forall e | e in PaymentCounts(daily) ensures e.0 != "" && e.1 >= 1 {
      var i :| 0 <= i < |ms| && PaymentCounts(daily)[i] == e;
      PaymentMethodListed(daily, ms[i]);
      var k :| 0 <= k < |daily| && MethodOf(daily[k]) == ms[i];
      Seqs.FilterExact(daily, PaidWith(ms[i]), daily[k]);
      Seqs.FilterCount(daily, PaidWith(ms[i]));
    }
  }

  /** The integer and text parts of the daily summary. */
  datatype DailySummary = DailySummary(
    date: string,
    transactions: nat,
    itemsSold: int,
    bestSeller: Option<(Option<string>, int)>,
    paymentMethods: seq<(string, nat)>)

  /** The day reported: the given date, or today when none or "" is given. */
  function ReportDate(date: Option<string>, today: string): string
  {
    if date.None? || date.value == "" then today else date.value
  }

  /** `get_daily_sales` with the corrected best-seller quantity. */
  function DailySummaryOf(sales: seq<Record>, date: string): Result<DailySummary>
  {
    var daily := DaySales(sales, date);
    var sold := ItemsSold(daily);
    if sold.Err? then Err(sold.error)
    else
      var tally := TallyBy(daily, SoldQty);
      if tally.Err? then Err(tally.error)
      else Ok(DailySummary(date, |daily|, sold.value, BestOf(tally.value), PaymentCounts(daily)))
  }

  /** With the empty-cell reading, the best seller is absent only when there
      were no sales; otherwise it is a name sold that day whose total is the
      largest. */
  lemma BestSellerIsTop(daily: seq<Record>)
    requires TallyBy(daily, SoldQty).Ok?
    ensures var best := BestOf(TallyBy(daily, SoldQty).value);
            && (best.None? <==> |daily| == 0)
            && (best.Some? ==>
                  && (exists k :: 0 <= k < |daily| && NameOf(daily[k]) == best.value.0)
                  && best.value.1 == NameTotal(daily, best.value.0)
                  && forall k :: 0 <= k < |daily| ==> NameTotal(daily, NameOf(daily[k])) <= best.value.1)
  {
    TallyTotals(daily);
    var t := TallyBy(daily, SoldQty).value;
    if |daily| > 0 {
      TallyNames(daily, SoldQty, NameOf(daily[0]));
    }
    var best := BestOf(t);
    if best.Some? {
      var j :| 0 <= j < |t| && t[j] == best.value;
      TallyNames(daily, SoldQty, best.value.0);
      forall k | 0 <= k < |daily| ensures NameTotal(daily, NameOf(daily[k])) <= best.value.1 {
        TallyNames(daily, SoldQty, NameOf(daily[k]));
        var i :| 0 <= i < |t| && t[i].0 == NameOf(daily[k]);
      }
    }
  }

  /** The summary counts the day's sales, fails exactly when the items-sold
      sum does, and carries the best seller described above and the payment
      methods of the day. */
  lemma DailySummaryMeaning(sales: seq<Record>, date: string)
    ensures var daily := DaySales(sales, date);
            var r := DailySummaryOf(sales, date);
            && (r.Ok? <==> ItemsSold(daily).Ok?)
            && (r.Err? ==> r.error == ItemsSold(daily).error)
            && (r.Ok? ==>
                  && r.value.date == date
                  && r.value.transactions == |daily|
                  && r.value.itemsSold == ItemsSold(daily).value
                  && r.value.bestSeller == BestOf(TallyBy(daily, SoldQty).value)
                  && r.value.paymentMethods == PaymentCounts(daily))
  {
    ItemsSoldIsTallySum(DaySales(sales, date));
  }

  // ---------------------------------------------------------------------
  // Inventory value: the unit total

  /** The row's stock, selling price and cost price all parse; otherwise the
      row is skipped as a whole. */
  predicate Countable(item: Record)
  {
    IntField(item, QuantityKey, 0).Some? && FloatFieldOk(item, SellingPriceKey) && FloatFieldOk(item, CostPriceKey)
  }

  function Units(item: Record): int
  {
    if Countable(item) then IntField(item, QuantityKey, 0).value else 0
  }

  /** The "Total Items" of the value report. */
  function TotalUnits(inventory: seq<Record>): int
  {
    if |inventory| == 0 then 0 else TotalUnits(inventory[..|inventory| - 1]) + Units(inventory[|inventory| - 1])
  }

  lemma {:induction false} TotalUnitsAdditive(a: seq<Record>, b: seq<Record>)
    ensures TotalUnits(a + b) == TotalUnits(a) + TotalUnits(b)
  {
    if |b| > 0 {
      TotalUnitsAdditive(a, b[..|b| - 1]);
      assert (a + b)[..|a + b| - 1] == a + b[..|b| - 1];
    } else {
      assert a + b == a;
    }
  }

  /** Rows with an unparseable stock or price contribute nothing: the total is
      that of the countable rows alone. */
  lemma {:induction false} TotalUnitsOfCountable(inventory: seq<Record>)
    ensures TotalUnits(inventory) == TotalUnits(Seqs.Filter(inventory, Countable))
  {
    if |inventory| > 0 {
      var init := inventory[..|inventory| - 1];
      var item := inventory[|inventory| - 1];
      TotalUnitsOfCountable(init);
      TotalUnitsAdditive(Seqs.Filter(init, Countable), if Countable(item) then [item] else []);
      assert [item][..0] == [];
    }
  }

  datatype StockOverview = StockOverview(totalUnits: int, uniqueProducts: nat)

  // ---------------------------------------------------------------------

  /** `ReportGenerator`, after `load_data` has read both CSV files into lists
      of records (a missing file leaves its list empty). */
  class ReportGenerator {
    var inventory: seq<Record>
    var sales: seq<Record>

    constructor(inventory: seq<Record>, sales: seq<Record>)
      ensures this.inventory == inventory && this.sales == sales
    {
      this.inventory := inventory;
      this.sales := sales;
    }

    /** `get_low_stock_alert` */
    method GetLowStockAlert() returns (report: string)
      ensures report == JoinLines(AlertLines(SortByQty(LowEntries(inventory))))
    {
      var low := CollectLow();
      var sorted := SortByQty(low);
      var lines := LayOutAlert(sorted);
      report := JoinLines(lines);
    }

    /** The low-stock pass of `get_low_stock_alert`, in inventory order. */
    method CollectLow() returns (low: seq<LowEntry>)
      ensures low == LowEntries(inventory)
    {
      low := [];
      for i := 0 to |inventory|
        invariant low == LowEntries(inventory[..i])
      {
        var item := inventory[i];
        assert inventory[..i + 1][..i] == inventory[..i];
        var qty := IntField(item, QuantityKey, 0);
        var minLevel := IntField(item, MinStockKey, 5);
        if qty.Some? && minLevel.Some? && qty.value <= minLevel.value {
          low := low + [LowEntry(item, qty.value, minLevel.value)];
        }
      }
      assert inventory[..|inventory|] == inventory;
    }

    /** The lines of the alert for the sorted low-stock entries. */
    static method LayOutAlert(sorted: seq<LowEntry>) returns (lines: seq<string>)
      ensures lines == AlertLines(sorted)
    {
      lines := [AlertTitle, Rule];
      if |sorted| == 0 {
        lines := lines + [Healthy];
      } else {
        for i := 0 to |sorted|
          invariant lines == [AlertTitle, Rule] + EntryLines(sorted[..i])
        {
          assert sorted[..i + 1][..i] == sorted[..i];
          lines := lines + [AlertLine(sorted[i])];
        }
        assert sorted[..|sorted|] == sorted;
      }
    }

    /** `get_daily_sales`, with the corrected best-seller quantity. */
    method GetDailySales(date: Option<string>, today: string) returns (r: Result<DailySummary>)
      ensures r == DailySummaryOf(sales, ReportDate(date, today))
    {
      var day := ReportDate(date, today);
      var daily := DaySales(sales, day);
      var sold := ItemsSold(daily);
      if sold.Err? {
        return Err(sold.error);
      }
      var tally: Tally := [];
      for i := 0 to |daily|
        invariant TallyBy(daily[..i], SoldQty) == Ok(tally)
      {
        assert daily[..i + 1][..i] == daily[..i];
        var s := daily[i];
        var qty := SoldQty(s);
        if qty.None? {
          TallyErrorPersists(daily, i + 1, SoldQty);
          return Err(IntLiteralError(Get(s, QuantitySoldKey, "")));
        }
        tally := Bump(tally, NameOf(s), qty.value);
      }
      assert daily[..|daily|] == daily;
      r := Ok(DailySummary(day, |daily|, sold.value, BestOf(tally), PaymentCounts(daily)));
    }

    /** The unit count of `get_inventory_value` and its number of products. */
    method GetInventoryValue() returns (o: StockOverview)
      ensures o.totalUnits == TotalUnits(inventory)
      ensures o.uniqueProducts == |inventory|
    {
      var total := 0;
      for i := 0 to |inventory|
        invariant total == TotalUnits(inventory[..i])
      {
        var item := inventory[i];
        assert inventory[..i + 1][..i] == inventory[..i];
        var qty := IntField(item, QuantityKey, 0);
        if qty.Some? && FloatFieldOk(item, SellingPriceKey) && FloatFieldOk(item, CostPriceKey) {
          total := total + qty.value;
        }
      }
      assert inventory[..|inventory|] == inventory;
      o := StockOverview(total, |inventory|);
    }
  }
}
