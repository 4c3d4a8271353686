/** `consolidate_data` (app.py lines 113-139): project the sources to a common
    shape, tag each row with its `_source`, drop rows without a key or without a
    parseable `last_updated`, and keep the most recent row of every key. Returns
    are passed through with a `ReverseLogistics` tag. */
module Consolidation {
  import opened Optional
  import opened Dates
  import opened Frames
  import opened Recency

  /** Line 118: the supplier's columns that take the inventory names. */
  const SupplierRenames: map<string, string> :=
    map["shipment_qty" := "inventory_qty", "shipment_date" := "last_updated"]

  /** The columns lines 116-119 select for inventory. */
  const InventoryColumns: set<string> := {"item_id", "item_name", "inventory_qty", "last_updated"}

  /** The columns lines 128-129 select for orders. */
  const OrderColumns: set<string> := {"order_id", "order_qty", "last_updated"}

  /** The selected columns an entry carries besides its key and its timestamp. */
  const InventoryValues: set<string> := {"item_name", "inventory_qty"}
  const OrderValues: set<string> := {"order_qty"}

  function Rename(c: string, renames: map<string, string>): string {
    if c in renames then renames[c] else c
  }

  function RenamedColumns(cols: set<string>, renames: map<string, string>): set<string> {
    set c | c in cols :: Rename(c, renames)
  }

  /** No two columns end up with the same label; otherwise the selection at line 119
      and the concatenation at line 121 would see duplicate labels. */
  predicate RenameInjective(cols: set<string>, renames: map<string, string>) {
    forall a, b :: a in cols && b in cols && a != b ==> Rename(a, renames) != Rename(b, renames)
  }

  function RenameRow(row: Row, renames: map<string, string>): (r: Row)
    requires RenameInjective(row.Keys, renames)
    ensures r.Keys == RenamedColumns(row.Keys, renames)
    ensures forall c :: c in row ==> r[Rename(c, renames)] == row[c]
  {
    map c | c in row :: Rename(c, renames) := row[c]
  }

  /** `DataFrame.rename(columns=renames)`: every cell moves to its column's new label. */
  function RenameColumns(t: Table, renames: map<string, string>): (r: Table)
    requires WellFormed(t) && RenameInjective(t.columns, renames)
    ensures WellFormed(r) && |r.rows| == |t.rows|
    ensures r.columns == RenamedColumns(t.columns, renames)
    ensures forall i, c :: 0 <= i < |t.rows| && c in t.columns ==> r.rows[i][Rename(c, renames)] == t.rows[i][c]
  {
    Table(RenamedColumns(t.columns, renames),
          seq(|t.rows|, i requires 0 <= i < |t.rows| => RenameRow(t.rows[i], renames)))
  }

  /** `DataFrame.assign(col=v)`: every row gets `v` in `col`; nothing else changes. */
  function Assign(t: Table, col: string, v: Value): (r: Table)
    requires WellFormed(t)
    ensures WellFormed(r) && r.columns == t.columns + {col} && |r.rows| == |t.rows|
    ensures forall i :: 0 <= i < |r.rows| ==> r.rows[i][col] == v
    ensures forall i, c :: 0 <= i < |t.rows| && c in t.columns && c != col ==> r.rows[i][c] == t.rows[i][c]
  {
    Table(t.columns + {col}, seq(|t.rows|, i requires 0 <= i < |t.rows| => t.rows[i][col := v]))
  }

  /** Rows that have the key column, `last_updated` and the value columns. */
  predicate Selectable(rows: seq<Row>, key: string, valueCols: set<string>) {
    forall i :: 0 <= i < |rows| ==> key in rows[i] && "last_updated" in rows[i] && valueCols <= rows[i].Keys
  }

  /** One source row after selection, `assign(_source=...)`, `pd.to_datetime` of
      `last_updated` (line 122) and `dropna(subset=[key, 'last_updated'])` (line 123). */
  function ToEntry(row: Row, key: string, valueCols: set<string>, src: Source, datetime: Value -> Option<Date>): (r: Option<Entry>)
    requires key in row && "last_updated" in row && valueCols <= row.Keys
    ensures r.Some? <==> !row[key].Null? && ToDatetime(row["last_updated"], datetime).Some?
    ensures r.Some? ==> r.value.key == row[key] && r.value.source == src
                        && Some(r.value.updated) == ToDatetime(row["last_updated"], datetime)
    ensures r.Some? ==> r.value.values.Keys == valueCols && forall c :: c in valueCols ==> r.value.values[c] == row[c]
  {
    match ToDatetime(row["last_updated"], datetime)
    case None => None
    case Some(d) =>
      if row[key].Null? then None
      else Some(Entry(row[key], map c | c in valueCols :: row[c], d, src))
  }

  /** The rows of one source that survive line 123, in order. */
  function Candidates(rows: seq<Row>, key: string, valueCols: set<string>, src: Source, datetime: Value -> Option<Date>): (r: seq<Entry>)
    requires Selectable(rows, key, valueCols)
    ensures |r| <= |rows|
    ensures forall k :: 0 <= k < |r| ==>
              r[k].source == src && !r[k].key.Null? && r[k].values.Keys == valueCols
  {
    if rows == [] then []
    else
      (match ToEntry(rows[0], key, valueCols, src, datetime)
       case None => []
       case Some(e) => [e])
      + Candidates(rows[1..], key, valueCols, src, datetime)
  }

  /** Row `i` of `rows` survives line 123 as the entry `e`. */
  ghost predicate ProjectsTo(rows: seq<Row>, key: string, valueCols: set<string>, src: Source,
                             datetime: Value -> Option<Date>, i: int, e: Entry) {
    && 0 <= i < |rows|
    && key in rows[i] && "last_updated" in rows[i] && valueCols <= rows[i].Keys
    && ToEntry(rows[i], key, valueCols, src, datetime) == Some(e)
  }

  /** The candidates of a source are exactly the entries its rows project to. */
  lemma {:induction false} CandidatesAreProjections(rows: seq<Row>, key: string, valueCols: set<string>, src: Source,
                                                    datetime: Value -> Option<Date>, e: Entry)
    requires Selectable(rows, key, valueCols)
    ensures e in Candidates(rows, key, valueCols, src, datetime)
            <==> exists i :: ProjectsTo(rows, key, valueCols, src, datetime, i, e)
  {
    if rows != [] {
      var tail := rows[1..];
      CandidatesAreProjections(tail, key, valueCols, src, datetime, e);
      var head := ToEntry(rows[0], key, valueCols, src, datetime);
      if e in Candidates(rows, key, valueCols, src, datetime) {
        if head == Some(e) {
          assert ProjectsTo(rows, key, valueCols, src, datetime, 0, e);
        } else {
          var i :| ProjectsTo(tail, key, valueCols, src, datetime, i, e);
          assert ProjectsTo(rows, key, valueCols, src, datetime, i + 1, e);
        }
      }
      if i :| ProjectsTo(rows, key, valueCols, src, datetime, i, e) {
        if i > 0 {
          assert ProjectsTo(tail, key, valueCols, src, datetime, i - 1, e);
        }
      }
    }
  }

  /** A legacy or spreadsheet frame: both selections of lines 116-117 and 128-129 succeed. */
  predicate PrimaryShaped(t: Table) {
    HasColumns(t, InventoryColumns + OrderColumns)
  }

  /** A supplier frame: line 118 renames without clashes and line 119's selection succeeds. */
  predicate SupplierShaped(t: Table) {
    && WellFormed(t)
    && RenameInjective(t.columns, SupplierRenames)
    && InventoryColumns <= RenamedColumns(t.columns, SupplierRenames)
  }

  function RenamedSupplier(supplier: Table): (r: Table)
    requires SupplierShaped(supplier)
    ensures HasColumns(r, InventoryColumns)
  {
    RenameColumns(supplier, SupplierRenames)
  }

  /** Lines 116-123: the surviving inventory rows of the three sources. */
  function InventoryCandidates(legacy: Table, spreadsheet: Table, supplier: Table, datetime: Value -> Option<Date>): (r: seq<Entry>)
    requires PrimaryShaped(legacy) && PrimaryShaped(spreadsheet) && SupplierShaped(supplier)
    ensures |r| <= |legacy.rows| + |spreadsheet.rows| + |supplier.rows|
    ensures forall k :: 0 <= k < |r| ==>
              && (r[k].source == Legacy || r[k].source == Spreadsheet || r[k].source == Supplier)
              && !r[k].key.Null? && r[k].values.Keys == InventoryValues
  {
    Candidates(legacy.rows, "item_id", InventoryValues, Legacy, datetime)
    + Candidates(spreadsheet.rows, "item_id", InventoryValues, Spreadsheet, datetime)
    + Candidates(RenamedSupplier(supplier).rows, "item_id", InventoryValues, Supplier, datetime)
  }

  /** Lines 128-132: the surviving order rows; the supplier contributes none. */
  function OrderCandidates(legacy: Table, spreadsheet: Table, datetime: Value -> Option<Date>): (r: seq<Entry>)
    requires PrimaryShaped(legacy) && PrimaryShaped(spreadsheet)
    ensures |r| <= |legacy.rows| + |spreadsheet.rows|
    ensures forall k :: 0 <= k < |r| ==>
              && (r[k].source == Legacy || r[k].source == Spreadsheet)
              && !r[k].key.Null? && r[k].values.Keys == OrderValues
  {
    Candidates(legacy.rows, "order_id", OrderValues, Legacy, datetime)
    + Candidates(spreadsheet.rows, "order_id", OrderValues, Spreadsheet, datetime)
  }

  /** Lines 115-125: one row per item, the most recent of its candidates. */
  function ConsolidateInventory(legacy: Table, spreadsheet: Table, supplier: Table, datetime: Value -> Option<Date>): (r: seq<Entry>)
    requires PrimaryShaped(legacy) && PrimaryShaped(spreadsheet) && SupplierShaped(supplier)
    ensures UniqueKeys(r) && NewestFirst(r)
    ensures KeysOf(r) == KeysOf(InventoryCandidates(legacy, spreadsheet, supplier, datetime))
    ensures forall k :: 0 <= k < |r| ==> r[k] in InventoryCandidates(legacy, spreadsheet, supplier, datetime)
    ensures forall k :: 0 <= k < |r| ==> r[k].values.Keys == InventoryValues
  {
    var cands := InventoryCandidates(legacy, spreadsheet, supplier, datetime);
    var r := KeepLatest(cands);
    forall k | 0 <= k < |r| ensures r[k].values.Keys == InventoryValues {
      var m :| 0 <= m < |cands| && cands[m] == r[k];
    }
    r
  }

  /** Lines 127-134: one row per order, the most recent of its candidates. */
  function ConsolidateOrders(legacy: Table, spreadsheet: Table, datetime: Value -> Option<Date>): (r: seq<Entry>)
    requires PrimaryShaped(legacy) && PrimaryShaped(spreadsheet)
    ensures UniqueKeys(r) && NewestFirst(r)
    ensures KeysOf(r) == KeysOf(OrderCandidates(legacy, spreadsheet, datetime))
    ensures forall k :: 0 <= k < |r| ==> r[k] in OrderCandidates(legacy, spreadsheet, datetime)
    ensures forall k :: 0 <= k < |r| ==> r[k].source == Legacy || r[k].source == Spreadsheet
    ensures forall k :: 0 <= k < |r| ==> r[k].values.Keys == OrderValues
  {
    var cands := OrderCandidates(legacy, spreadsheet, datetime);
    var r := KeepLatest(cands);
    forall k | 0 <= k < |r|
      ensures r[k].source == Legacy || r[k].source == Spreadsheet
      ensures r[k].values.Keys == OrderValues
    {
      var m :| 0 <= m < |cands| && cands[m] == r[k];
    }
    r
  }

  /** Line 137: the returns frame tagged `ReverseLogistics`, or an empty frame. */
  function ConsolidateReturns(reverseLogistics: Table): (r: Table)
    requires WellFormed(reverseLogistics)
    ensures IsEmpty(reverseLogistics) ==> r == EmptyTable
    ensures !IsEmpty(reverseLogistics) ==> WellFormed(r) && r.columns == reverseLogistics.columns + {"_source"} && |r.rows| == |reverseLogistics.rows|
    ensures !IsEmpty(reverseLogistics) ==>
              forall i :: 0 <= i < |r.rows| ==> "_source" in r.rows[i] && r.rows[i]["_source"] == Str(ReverseLogistics.Label())
    ensures !IsEmpty(reverseLogistics) ==>
              forall i, c :: 0 <= i < |reverseLogistics.rows| && c in reverseLogistics.columns && c != "_source" ==> r.rows[i][c] == reverseLogistics.rows[i][c]
  {
    if IsEmpty(reverseLogistics) then EmptyTable else Assign(reverseLogistics, "_source", Str(ReverseLogistics.Label()))
  }

  /** The three frames `consolidate_data` returns. */
  datatype Consolidated = Consolidated(inventory: seq<Entry>, orders: seq<Entry>, returnRecords: Table)

  /** Lines 113-139: one most recent row per item and per order, newest first, with
      the key sets of all surviving source rows; orders never come from the supplier;
      returns pass through tagged, or as an empty frame. */
  function Consolidate(legacy: Table, spreadsheet: Table, supplier: Table, reverseLogistics: Table, datetime: Value -> Option<Date>): (r: Consolidated)
    requires PrimaryShaped(legacy) && PrimaryShaped(spreadsheet) && SupplierShaped(supplier) && WellFormed(reverseLogistics)
    ensures UniqueKeys(r.inventory) && UniqueKeys(r.orders)
    ensures NewestFirst(r.inventory) && NewestFirst(r.orders)
    ensures KeysOf(r.inventory) == KeysOf(InventoryCandidates(legacy, spreadsheet, supplier, datetime))
    ensures KeysOf(r.orders) == KeysOf(OrderCandidates(legacy, spreadsheet, datetime))
    ensures forall k :: 0 <= k < |r.inventory| ==> r.inventory[k].values.Keys == InventoryValues
    ensures forall k :: 0 <= k < |r.orders| ==>
              r.orders[k].values.Keys == OrderValues && r.orders[k].source != Supplier
    ensures IsEmpty(reverseLogistics) ==> r.returnRecords == EmptyTable
    ensures !IsEmpty(reverseLogistics) ==>
              && r.returnRecords.columns == reverseLogistics.columns + {"_source"}
              && |r.returnRecords.rows| == |reverseLogistics.rows|
              && forall i :: 0 <= i < |r.returnRecords.rows| ==>
                   && "_source" in r.returnRecords.rows[i]
                   && r.returnRecords.rows[i]["_source"] == Str(ReverseLogistics.Label())
  {
    var inventory := ConsolidateInventory(legacy, spreadsheet, supplier, datetime);
    var orders := ConsolidateOrders(legacy, spreadsheet, datetime);
    Consolidated(inventory, orders, ConsolidateReturns(reverseLogistics))
  }

  /** Every order candidate is a legacy or spreadsheet row carrying its own tag. */
  lemma OrderOrigin(legacy: Table, spreadsheet: Table, datetime: Value -> Option<Date>, e: Entry)
    requires PrimaryShaped(legacy) && PrimaryShaped(spreadsheet)
    requires e in OrderCandidates(legacy, spreadsheet, datetime)
    ensures || (e.source == Legacy && exists i :: ProjectsTo(legacy.rows, "order_id", OrderValues, Legacy, datetime, i, e))
            || (e.source == Spreadsheet && exists i :: ProjectsTo(spreadsheet.rows, "order_id", OrderValues, Spreadsheet, datetime, i, e))
  {
    CandidatesAreProjections(legacy.rows, "order_id", OrderValues, Legacy, datetime, e);
    CandidatesAreProjections(spreadsheet.rows, "order_id", OrderValues, Spreadsheet, datetime, e);
  }

  /** Every inventory candidate is a row of one of the three sources carrying its tag. */
  lemma InventoryOrigin(legacy: Table, spreadsheet: Table, supplier: Table, datetime: Value -> Option<Date>, e: Entry)
    requires PrimaryShaped(legacy) && PrimaryShaped(spreadsheet) && SupplierShaped(supplier)
    requires e in InventoryCandidates(legacy, spreadsheet, supplier, datetime)
    ensures || (e.source == Legacy && exists i :: ProjectsTo(legacy.rows, "item_id", InventoryValues, Legacy, datetime, i, e))
            || (e.source == Spreadsheet && exists i :: ProjectsTo(spreadsheet.rows, "item_id", InventoryValues, Spreadsheet, datetime, i, e))
            || (e.source == Supplier && exists i :: ProjectsTo(RenamedSupplier(supplier).rows, "item_id", InventoryValues, Supplier, datetime, i, e))
  {
    CandidatesAreProjections(legacy.rows, "item_id", InventoryValues, Legacy, datetime, e);
    CandidatesAreProjections(spreadsheet.rows, "item_id", InventoryValues, Spreadsheet, datetime, e);
    CandidatesAreProjections(RenamedSupplier(supplier).rows, "item_id", InventoryValues, Supplier, datetime, e);
  }

  /** Consolidated inventory: every row is a source row with a key and a parseable
      timestamp, tagged with its source; every such source row's key is present
      (exactly once, the keys being unique); and the kept row of a key is at least
      as recent as every source row with that key. */
  lemma InventoryFromSources(legacy: Table, spreadsheet: Table, supplier: Table, datetime: Value -> Option<Date>)
    requires PrimaryShaped(legacy) && PrimaryShaped(spreadsheet) && SupplierShaped(supplier)
    ensures var r := ConsolidateInventory(legacy, spreadsheet, supplier, datetime);
      && (forall k :: 0 <= k < |r| ==>
            || (r[k].source == Legacy && exists i :: ProjectsTo(legacy.rows, "item_id", InventoryValues, Legacy, datetime, i, r[k]))
            || (r[k].source == Spreadsheet && exists i :: ProjectsTo(spreadsheet.rows, "item_id", InventoryValues, Spreadsheet, datetime, i, r[k]))
            || (r[k].source == Supplier && exists i :: ProjectsTo(RenamedSupplier(supplier).rows, "item_id", InventoryValues, Supplier, datetime, i, r[k])))
      && (forall e :: e in InventoryCandidates(legacy, spreadsheet, supplier, datetime) ==> e.key in KeysOf(r))
      && (forall e, k :: e in InventoryCandidates(legacy, spreadsheet, supplier, datetime) && 0 <= k < |r| && e.key == r[k].key
            ==> NotAfter(e.updated, r[k].updated))
  {
    var cands := InventoryCandidates(legacy, spreadsheet, supplier, datetime);
    var r := ConsolidateInventory(legacy, spreadsheet, supplier, datetime);
    forall k | 0 <= k < |r|
      ensures || (r[k].source == Legacy && exists i :: ProjectsTo(legacy.rows, "item_id", InventoryValues, Legacy, datetime, i, r[k]))
              || (r[k].source == Spreadsheet && exists i :: ProjectsTo(spreadsheet.rows, "item_id", InventoryValues, Spreadsheet, datetime, i, r[k]))
              || (r[k].source == Supplier && exists i :: ProjectsTo(RenamedSupplier(supplier).rows, "item_id", InventoryValues, Supplier, datetime, i, r[k]))
    {
      InventoryOrigin(legacy, spreadsheet, supplier, datetime, r[k]);
    }
    forall e | e in cands
      ensures e.key in KeysOf(r)
    {
      var m :| 0 <= m < |cands| && cands[m] == e;
      assert e.key in KeysOf(cands);
    }
  }

  /** Consolidated orders: the same guarantees over the legacy and spreadsheet rows. */
  lemma OrdersFromSources(legacy: Table, spreadsheet: Table, datetime: Value -> Option<Date>)
    requires PrimaryShaped(legacy) && PrimaryShaped(spreadsheet)
    ensures var r := ConsolidateOrders(legacy, spreadsheet, datetime);
      && (forall k :: 0 <= k < |r| ==>
            || (r[k].source == Legacy && exists i :: ProjectsTo(legacy.rows, "order_id", OrderValues, Legacy, datetime, i, r[k]))
            || (r[k].source == Spreadsheet && exists i :: ProjectsTo(spreadsheet.rows, "order_id", OrderValues, Spreadsheet, datetime, i, r[k])))
      && (forall e :: e in OrderCandidates(legacy, spreadsheet, datetime) ==> e.key in KeysOf(r))
      && (forall e, k :: e in OrderCandidates(legacy, spreadsheet, datetime) && 0 <= k < |r| && e.key == r[k].key
            ==> NotAfter(e.updated, r[k].updated))
  {
    var cands := OrderCandidates(legacy, spreadsheet, datetime);
    var r := ConsolidateOrders(legacy, spreadsheet, datetime);
    forall k | 0 <= k < |r|
      ensures || (r[k].source == Legacy && exists i :: ProjectsTo(legacy.rows, "order_id", OrderValues, Legacy, datetime, i, r[k]))
              || (r[k].source == Spreadsheet && exists i :: ProjectsTo(spreadsheet.rows, "order_id", OrderValues, Spreadsheet, datetime, i, r[k]))
    {
      OrderOrigin(legacy, spreadsheet, datetime, r[k]);
    }
    forall e | e in cands
      ensures e.key in KeysOf(r)
    {
      var m :| 0 <= m < |cands| && cands[m] == e;
      assert e.key in KeysOf(cands);
    }
  }

  /** A source row with a key and a parseable `last_updated` is never lost: its key
      is in the consolidated inventory. */
  lemma SurvivingRowIsRepresented(legacy: Table, spreadsheet: Table, supplier: Table, datetime: Value -> Option<Date>,
                                  src: Source, i: int)
    requires PrimaryShaped(legacy) && PrimaryShaped(spreadsheet) && SupplierShaped(supplier)
    requires src == Legacy || src == Spreadsheet || src == Supplier
    requires var t := if src == Legacy then legacy else if src == Spreadsheet then spreadsheet else RenamedSupplier(supplier);
      0 <= i < |t.rows| && !t.rows[i]["item_id"].Null? && ToDatetime(t.rows[i]["last_updated"], datetime).Some?
    ensures var t := if src == Legacy then legacy else if src == Spreadsheet then spreadsheet else RenamedSupplier(supplier);
      t.rows[i]["item_id"] in KeysOf(ConsolidateInventory(legacy, spreadsheet, supplier, datetime))
  {
    var t := if src == Legacy then legacy else if src == Spreadsheet then spreadsheet else RenamedSupplier(supplier);
    var e := ToEntry(t.rows[i], "item_id", InventoryValues, src, datetime).value;
    CandidatesAreProjections(t.rows, "item_id", InventoryValues, src, datetime, e);
    assert ProjectsTo(t.rows, "item_id", InventoryValues, src, datetime, i, e);
    assert e in InventoryCandidates(legacy, spreadsheet, supplier, datetime);
    InventoryFromSources(legacy, spreadsheet, supplier, datetime);
  }
}
