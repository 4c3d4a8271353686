/** `process_all_files` (app.py lines 141-168) without the file parsing: clean all
    five sources, compare legacy with spreadsheet, and consolidate. */
module Pipeline {
  import opened Optional
  import opened Text
  import opened Dates
  import opened Frames
  import opened Cleaning
  import opened Inconsistencies
  import opened Recency
  import opened Consolidation

  /** The five parsed uploads; a source that was not uploaded is `pd.DataFrame()`. */
  datatype Sources = Sources(legacy: Table, spreadsheet: Table, supplier: Table,
                             reverseLogistics: Table, historicalBackup: Table)

  /** The dictionary of lines 162-168. */
  datatype Processed = Processed(inconsistencies: seq<Inconsistency>,
                                 consolidatedInventory: seq<Entry>,
                                 consolidatedOrders: seq<Entry>,
                                 consolidatedReturns: Table,
                                 sourceData: Sources)

  predicate Cleanable(t: Table, p: Parsers) {
    WellFormed(t) && QuantitiesCastable(t, p.number)
  }

  /** What lines 146-160 need to run without raising: every source cleanable, and the
      columns `identify_inconsistencies` and `consolidate_data` select present. */
  predicate Processable(files: Sources, p: Parsers) {
    && Cleanable(files.legacy, p) && Cleanable(files.spreadsheet, p) && Cleanable(files.supplier, p)
    && Cleanable(files.reverseLogistics, p) && Cleanable(files.historicalBackup, p)
    && PrimaryShaped(files.legacy) && PrimaryShaped(files.spreadsheet) && SupplierShaped(files.supplier)
  }

  /** Lines 145-151. */
  function CleanSources(files: Sources, p: Parsers): (r: Sources)
    requires Processable(files, p)
    ensures PrimaryShaped(r.legacy) && PrimaryShaped(r.spreadsheet) && SupplierShaped(r.supplier)
    ensures WellFormed(r.reverseLogistics)
    ensures Comparable(r.legacy) && Comparable(r.spreadsheet)
  {
    Sources(Clean(files.legacy, p), Clean(files.spreadsheet, p), Clean(files.supplier, p),
            Clean(files.reverseLogistics, p), Clean(files.historicalBackup, p))
  }

  /** `process_all_files` after parsing. */
  function ProcessAll(files: Sources, p: Parsers): (r: Processed)
    requires Processable(files, p)
    ensures |r.inconsistencies| <= 2
    ensures UniqueKeys(r.consolidatedInventory) && UniqueKeys(r.consolidatedOrders)
  {
    var data := CleanSources(files, p);
    var c := Consolidate(data.legacy, data.spreadsheet, data.supplier, data.reverseLogistics, p.datetime);
    Processed(Identify(data.legacy, data.spreadsheet), c.inventory, c.orders, c.returnRecords, data)
  }

  /** A key cell after cleaning: trimmed, upper-case text. */
  predicate IsCanonicalKey(v: Value) {
    v.Str? && IsStripped(v.text) && IsUpperCase(v.text)
  }

  /** A quantity cell after cleaning: an `Int64` integer or missing. */
  predicate IsIntegerOrMissing(v: Value) {
    v.Int? || v.Null?
  }

  /** Every cell of column `col` (where present) is a canonical key. */
  predicate CanonicalColumn(t: Table, col: string) {
    forall i :: 0 <= i < |t.rows| && col in t.rows[i] ==> IsCanonicalKey(t.rows[i][col])
  }

  /** Every cell of column `col` (where present) is an integer or missing. */
  predicate IntegerColumn(t: Table, col: string) {
    forall i :: 0 <= i < |t.rows| && col in t.rows[i] ==> IsIntegerOrMissing(t.rows[i][col])
  }

  /** What lines 57-62 leave in the columns the later steps read: the two identifier
      columns hold canonical text (a missing one reads "NAN"), the three quantity
      columns integers or missing cells. */
  lemma CleanedKeysAndQuantities(t: Table, p: Parsers)
    requires Cleanable(t, p)
    ensures CanonicalColumn(Clean(t, p), "item_id") && CanonicalColumn(Clean(t, p), "order_id")
    ensures IntegerColumn(Clean(t, p), "inventory_qty") && IntegerColumn(Clean(t, p), "order_qty")
    ensures IntegerColumn(Clean(t, p), "shipment_qty")
  {
    var r := Clean(t, p);
    KnownColumns();
    QuantitiesAreIntegers(t, p);
    forall i, c | 0 <= i < |r.rows| && c in r.rows[i] && (c == "item_id" || c == "order_id")
      ensures IsCanonicalKey(r.rows[i][c])
    {
      assert c in t.columns;
    }
    forall i, c | 0 <= i < |r.rows| && c in r.rows[i] && (c == "inventory_qty" || c == "order_qty" || c == "shipment_qty")
      ensures IsIntegerOrMissing(r.rows[i][c])
    {
      assert c in t.columns;
    }
  }

  /** Line 118 keeps `item_id` and fills `inventory_qty` from `shipment_qty` or from
      an `inventory_qty` already present, so both properties carry over. */
  lemma RenamingKeepsKeysAndQuantities(t: Table)
    requires SupplierShaped(t)
    requires CanonicalColumn(t, "item_id")
    requires IntegerColumn(t, "inventory_qty") && IntegerColumn(t, "shipment_qty")
    ensures CanonicalColumn(RenamedSupplier(t), "item_id")
    ensures IntegerColumn(RenamedSupplier(t), "inventory_qty")
  {
    var r := RenamedSupplier(t);
    forall i, target | 0 <= i < |r.rows| && target in r.rows[i] && (target == "item_id" || target == "inventory_qty")
      ensures target == "item_id" ==> IsCanonicalKey(r.rows[i][target])
      ensures target == "inventory_qty" ==> IsIntegerOrMissing(r.rows[i][target])
    {
      assert target in RenamedColumns(t.columns, SupplierRenames);
      var c :| c in t.columns && Rename(c, SupplierRenames) == target;
      assert r.rows[i][target] == t.rows[i][c];
      assert target == "item_id" ==> c == "item_id";
      assert target == "inventory_qty" ==> c == "inventory_qty" || c == "shipment_qty";
    }
  }

  /** A consolidated inventory row carries the key and the quantity of the source row
      it was projected from. */
  lemma ConsolidatedInventoryCanonical(legacy: Table, spreadsheet: Table, supplier: Table, datetime: Value -> Option<Date>)
    requires PrimaryShaped(legacy) && PrimaryShaped(spreadsheet) && SupplierShaped(supplier)
    requires CanonicalColumn(legacy, "item_id") && CanonicalColumn(spreadsheet, "item_id")
    requires CanonicalColumn(RenamedSupplier(supplier), "item_id")
    requires IntegerColumn(legacy, "inventory_qty") && IntegerColumn(spreadsheet, "inventory_qty")
    requires IntegerColumn(RenamedSupplier(supplier), "inventory_qty")
    ensures forall e :: e in ConsolidateInventory(legacy, spreadsheet, supplier, datetime) ==>
              IsCanonicalKey(e.key) && "inventory_qty" in e.values && IsIntegerOrMissing(e.values["inventory_qty"])
  {
    var r := ConsolidateInventory(legacy, spreadsheet, supplier, datetime);
    var renamed := RenamedSupplier(supplier);
    InventoryFromSources(legacy, spreadsheet, supplier, datetime);
    forall e | e in r
      ensures IsCanonicalKey(e.key) && "inventory_qty" in e.values && IsIntegerOrMissing(e.values["inventory_qty"])
    {
      var k :| 0 <= k < |r| && r[k] == e;
      if e.source == Legacy {
        var i :| ProjectsTo(legacy.rows, "item_id", InventoryValues, Legacy, datetime, i, e);
      } else if e.source == Spreadsheet {
        var i :| ProjectsTo(spreadsheet.rows, "item_id", InventoryValues, Spreadsheet, datetime, i, e);
      } else {
        var i :| ProjectsTo(renamed.rows, "item_id", InventoryValues, Supplier, datetime, i, e);
      }
    }
  }

  /** The same for consolidated orders. */
  lemma ConsolidatedOrdersCanonical(legacy: Table, spreadsheet: Table, datetime: Value -> Option<Date>)
    requires PrimaryShaped(legacy) && PrimaryShaped(spreadsheet)
    requires CanonicalColumn(legacy, "order_id") && CanonicalColumn(spreadsheet, "order_id")
    requires IntegerColumn(legacy, "order_qty") && IntegerColumn(spreadsheet, "order_qty")
    ensures forall e :: e in ConsolidateOrders(legacy, spreadsheet, datetime) ==>
              IsCanonicalKey(e.key) && "order_qty" in e.values && IsIntegerOrMissing(e.values["order_qty"])
  {
    var r := ConsolidateOrders(legacy, spreadsheet, datetime);
    OrdersFromSources(legacy, spreadsheet, datetime);
    forall e | e in r
      ensures IsCanonicalKey(e.key) && "order_qty" in e.values && IsIntegerOrMissing(e.values["order_qty"])
    {
      var k :| 0 <= k < |r| && r[k] == e;
      if e.source == Legacy {
        var i :| ProjectsTo(legacy.rows, "order_id", OrderValues, Legacy, datetime, i, e);
      } else {
        var i :| ProjectsTo(spreadsheet.rows, "order_id", OrderValues, Spreadsheet, datetime, i, e);
      }
    }
  }

  /** End to end: every consolidated key is trimmed upper-case text and every
      consolidated quantity an integer or missing. Since line 62 has already turned
      a missing identifier into "NAN", the missing-key filter of lines 123 and 132
      never removes a row here. */
  lemma ProcessedEntriesCanonical(files: Sources, p: Parsers)
    requires Processable(files, p)
    ensures forall e :: e in ProcessAll(files, p).consolidatedInventory ==>
              IsCanonicalKey(e.key) && "inventory_qty" in e.values && IsIntegerOrMissing(e.values["inventory_qty"])
    ensures forall e :: e in ProcessAll(files, p).consolidatedOrders ==>
              IsCanonicalKey(e.key) && "order_qty" in e.values && IsIntegerOrMissing(e.values["order_qty"])
  {
    var data := CleanSources(files, p);
    CleanedKeysAndQuantities(files.legacy, p);
    CleanedKeysAndQuantities(files.spreadsheet, p);
    CleanedKeysAndQuantities(files.supplier, p);
    RenamingKeepsKeysAndQuantities(data.supplier);
    ConsolidatedInventoryCanonical(data.legacy, data.spreadsheet, data.supplier, p.datetime);
    ConsolidatedOrdersCanonical(data.legacy, data.spreadsheet, p.datetime);
  }

  /** A flagged pair of integer-or-missing quantity columns compares two integers. */
  lemma FlaggedQuantitiesOfIntegerColumns(legacy: Table, spreadsheet: Table, kind: Kind, j: Joined)
    requires Comparable(legacy) && Comparable(spreadsheet)
    requires IntegerColumn(legacy, kind.QuantityColumn()) && IntegerColumn(spreadsheet, kind.QuantityColumn())
    requires j in Discrepancies(legacy, spreadsheet, kind)
    ensures j.legacy.Int? && j.spreadsheet.Int?
  {
    DiscrepanciesAreFlaggedPairs(legacy, spreadsheet, kind, j);
    var a, b :| MergedPair(legacy.rows, spreadsheet.rows, kind.KeyColumn(), kind.QuantityColumn(), a, b, j)
                && Disagree(j);
    assert IsIntegerOrMissing(legacy.rows[a][kind.QuantityColumn()]);
    assert IsIntegerOrMissing(spreadsheet.rows[b][kind.QuantityColumn()]);
  }

  /** Over integer quantity columns, every reported row compares two different integers. */
  lemma IdentifiedQuantitiesAreIntegers(legacy: Table, spreadsheet: Table)
    requires Comparable(legacy) && Comparable(spreadsheet)
    requires IntegerColumn(legacy, "inventory_qty") && IntegerColumn(spreadsheet, "inventory_qty")
    requires IntegerColumn(legacy, "order_qty") && IntegerColumn(spreadsheet, "order_qty")
    ensures var report := Identify(legacy, spreadsheet);
      forall k, j :: 0 <= k < |report| && j in report[k].details ==>
        j.legacy.Int? && j.spreadsheet.Int? && j.legacy != j.spreadsheet
  {
    var report := Identify(legacy, spreadsheet);
    forall k, j | 0 <= k < |report| && j in report[k].details
      ensures j.legacy.Int? && j.spreadsheet.Int? && j.legacy != j.spreadsheet
    {
      var kind := report[k].kind;
      FlaggedQuantitiesOfIntegerColumns(legacy, spreadsheet, kind, j);
      FlaggedKeysOccurOnBothSides(legacy, spreadsheet, kind, j);
    }
  }

  /** End to end: every reported discrepancy compares two different integers. */
  lemma ReportedQuantitiesAreIntegers(files: Sources, p: Parsers)
    requires Processable(files, p)
    ensures var report := ProcessAll(files, p).inconsistencies;
      forall k, j :: 0 <= k < |report| && j in report[k].details ==>
        j.legacy.Int? && j.spreadsheet.Int? && j.legacy != j.spreadsheet
  {
    var data := CleanSources(files, p);
    CleanedKeysAndQuantities(files.legacy, p);
    CleanedKeysAndQuantities(files.spreadsheet, p);
    IdentifiedQuantitiesAreIntegers(data.legacy, data.spreadsheet);
  }

  /** A legacy row without an `item_id` but with a readable `last_updated` is kept:
      cleaning renders its key as "NAN" and it is consolidated under that key. */
  lemma MissingItemIdConsolidatedAsNan(files: Sources, p: Parsers, i: int)
    requires Processable(files, p)
    requires RereadsIso(p.datetime)
    requires 0 <= i < |files.legacy.rows| && files.legacy.rows[i]["item_id"] == Null
    ensures p.datetime(Str(CanonicalText(files.legacy.rows[i]["last_updated"]))).Some? ==>
              Str("NAN") in KeysOf(ProcessAll(files, p).consolidatedInventory)
  {
    if p.datetime(Str(CanonicalText(files.legacy.rows[i]["last_updated"]))).Some? {
      var data := CleanSources(files, p);
      KnownColumns();
      MissingTextCellBecomesNan(files.legacy, p, i, "item_id");
      CleanedDateRereads(files.legacy, p, i, "last_updated");
      SurvivingRowIsRepresented(data.legacy, data.spreadsheet, data.supplier, p.datetime, Legacy, i);
    }
  }
}
