/** `identify_inconsistencies` (app.py lines 69-111): full outer merges of the legacy
    and spreadsheet frames on `item_id` and on `order_id`, keeping the merged rows
    whose two quantities are both present and different. */
module Inconsistencies {
  import opened Frames

  /** One row of an outer merge: the key, the legacy side's quantity (suffix
      `_legacy`) and the spreadsheet side's (suffix `_spreadsheet`). A side that has
      no row for the key is missing. */
  datatype Joined = Joined(key: Value, legacy: Value, spreadsheet: Value)

  /** The two discrepancy types, with the columns each one merges and compares. */
  datatype Kind = InventoryQuantity | OrderQuantity {
    function Title(): string {
      match this
      case InventoryQuantity => "Inventory Quantity Discrepancy"
      case OrderQuantity => "Order Quantity Discrepancy"
    }

    function KeyColumn(): string {
      match this
      case InventoryQuantity => "item_id"
      case OrderQuantity => "order_id"
    }

    function QuantityColumn(): string {
      match this
      case InventoryQuantity => "inventory_qty"
      case OrderQuantity => "order_qty"
    }
  }

  /** One entry of the returned list: `{'type': kind.Title(), 'details': details}`. */
  datatype Inconsistency = Inconsistency(kind: Kind, details: seq<Joined>)

  predicate HasFields(rows: seq<Row>, key: string, qty: string) {
    forall i :: 0 <= i < |rows| ==> key in rows[i] && qty in rows[i]
  }

  function RowKeys(rows: seq<Row>, key: string): set<Value>
    requires forall i :: 0 <= i < |rows| ==> key in rows[i]
  {
    set i | 0 <= i < |rows| :: rows[i][key]
  }

  /** Row `a` of `xs` and row `b` of `ys` share their key and merge into `j`. */
  ghost predicate MergedPair(xs: seq<Row>, ys: seq<Row>, key: string, qty: string, a: int, b: int, j: Joined) {
    && 0 <= a < |xs| && 0 <= b < |ys|
    && key in xs[a] && qty in xs[a] && key in ys[b] && qty in ys[b]
    && xs[a][key] == ys[b][key]
    && j == Joined(xs[a][key], xs[a][qty], ys[b][qty])
  }

  /** Lines 82-84 and 101-103: both quantities present and different. */
  predicate Disagree(j: Joined) {
    !j.legacy.Null? && !j.spreadsheet.Null? && j.legacy != j.spreadsheet
  }

  /** The merged rows of `x` with every same-key row of `ys`. */
  function MatchesOf(x: Row, ys: seq<Row>, key: string, qty: string): seq<Joined>
    requires key in x && qty in x && HasFields(ys, key, qty)
  {
    if ys == [] then []
    else
      (if ys[0][key] == x[key] then [Joined(x[key], x[qty], ys[0][qty])] else [])
      + MatchesOf(x, ys[1..], key, qty)
  }

  /** The inner part of the merge: all same-key pairs, pandas' many-to-many join. */
  function Matched(xs: seq<Row>, ys: seq<Row>, key: string, qty: string): seq<Joined>
    requires HasFields(xs, key, qty) && HasFields(ys, key, qty)
  {
    if xs == [] then [] else MatchesOf(xs[0], ys, key, qty) + Matched(xs[1..], ys, key, qty)
  }

  /** Rows of `xs` whose key no row of `others` has, with the other side missing. */
  function Unmatched(xs: seq<Row>, others: seq<Row>, key: string, qty: string, legacySide: bool): (r: seq<Joined>)
    requires HasFields(xs, key, qty) && HasFields(others, key, qty)
    ensures forall k :: 0 <= k < |r| ==> r[k].legacy.Null? || r[k].spreadsheet.Null?
  {
    if xs == [] then []
    else
      (if xs[0][key] in RowKeys(others, key) then []
       else if legacySide then [Joined(xs[0][key], xs[0][qty], Null)]
       else [Joined(xs[0][key], Null, xs[0][qty])])
      + Unmatched(xs[1..], others, key, qty, legacySide)
  }

  /** Row `a` of `xs` has a key no row of `others` has, and joins into `j` with the
      other side's quantity missing. */
  ghost predicate Lonely(xs: seq<Row>, others: seq<Row>, key: string, qty: string, legacySide: bool, a: int, j: Joined)
    requires HasFields(others, key, qty)
  {
    && 0 <= a < |xs| && key in xs[a] && qty in xs[a]
    && xs[a][key] !in RowKeys(others, key)
    && j == (if legacySide then Joined(xs[a][key], xs[a][qty], Null) else Joined(xs[a][key], Null, xs[a][qty]))
  }

  /** The partnerless part of the outer merge is exactly one joined row per row whose
      key the other side lacks. */
  lemma {:induction false} UnmatchedMembers(xs: seq<Row>, others: seq<Row>, key: string, qty: string, legacySide: bool, j: Joined)
    requires HasFields(xs, key, qty) && HasFields(others, key, qty)
    ensures j in Unmatched(xs, others, key, qty, legacySide) <==> exists a :: Lonely(xs, others, key, qty, legacySide, a, j)
  {
    if xs != [] {
      UnmatchedMembers(xs[1..], others, key, qty, legacySide, j);
      var x := xs[0];
      var head := if x[key] in RowKeys(others, key) then []
                  else if legacySide then [Joined(x[key], x[qty], Null)]
                  else [Joined(x[key], Null, x[qty])];
      assert Unmatched(xs, others, key, qty, legacySide) == head + Unmatched(xs[1..], others, key, qty, legacySide);
      if j in Unmatched(xs, others, key, qty, legacySide) {
        if j in head {
          assert Lonely(xs, others, key, qty, legacySide, 0, j);
        } else {
          var a :| Lonely(xs[1..], others, key, qty, legacySide, a, j);
          assert Lonely(xs, others, key, qty, legacySide, a + 1, j);
        }
      }
      if a :| Lonely(xs, others, key, qty, legacySide, a, j) {
        if a > 0 {
          assert Lonely(xs[1..], others, key, qty, legacySide, a - 1, j);
        } else {
          assert j in head;
        }
      }
    }
  }

  /** `pd.merge(..., on=key, how='outer')` of the legacy and spreadsheet columns. */
  function OuterMerge(xs: seq<Row>, ys: seq<Row>, key: string, qty: string): seq<Joined>
    requires HasFields(xs, key, qty) && HasFields(ys, key, qty)
  {
    Matched(xs, ys, key, qty) + Unmatched(xs, ys, key, qty, true) + Unmatched(ys, xs, key, qty, false)
  }

  /** The outer merge holds every same-key pair, and every row whose key the other side
      lacks (with the missing side empty), and nothing else. */
  lemma OuterMergeMembers(xs: seq<Row>, ys: seq<Row>, key: string, qty: string, j: Joined)
    requires HasFields(xs, key, qty) && HasFields(ys, key, qty)
    ensures j in OuterMerge(xs, ys, key, qty) <==>
              || (exists a, b :: MergedPair(xs, ys, key, qty, a, b, j))
              || (exists a :: Lonely(xs, ys, key, qty, true, a, j))
              || (exists b :: Lonely(ys, xs, key, qty, false, b, j))
  {
    MatchedMembers(xs, ys, key, qty, j);
    UnmatchedMembers(xs, ys, key, qty, true, j);
    UnmatchedMembers(ys, xs, key, qty, false, j);
  }

  /** The boolean-mask selection of lines 81-85 / 100-104, order kept. */
  function Disagreeing(js: seq<Joined>): (r: seq<Joined>)
    ensures |r| <= |js|
    ensures forall j :: j in r <==> j in js && Disagree(j)
  {
    if js == [] then []
    else if Disagree(js[0]) then [js[0]] + Disagreeing(js[1..])
    else Disagreeing(js[1..])
  }

  /** The mask keeps a disagreeing row as many times as it occurs, and no other row. */
  lemma {:induction false} DisagreeingCounts(js: seq<Joined>, j: Joined)
    ensures multiset(Disagreeing(js))[j] == if Disagree(j) then multiset(js)[j] else 0
  {
    if js != [] {
      DisagreeingCounts(js[1..], j);
      assert js == [js[0]] + js[1..];
    }
  }

  /** The columns `identify_inconsistencies` selects at lines 75-76 and 94-95. */
  predicate Comparable(t: Table) {
    HasColumns(t, {"item_id", "inventory_qty", "order_id", "order_qty"})
  }

  lemma ComparableHasFields(t: Table, kind: Kind)
    requires Comparable(t)
    ensures HasFields(t.rows, kind.KeyColumn(), kind.QuantityColumn())
  {
  }

  /** The `details` frame of one discrepancy type. */
  function Discrepancies(legacy: Table, spreadsheet: Table, kind: Kind): (r: seq<Joined>)
    requires Comparable(legacy) && Comparable(spreadsheet)
    ensures forall j :: j in r ==> Disagree(j)
    ensures forall j :: j in r <==>
              j in OuterMerge(legacy.rows, spreadsheet.rows, kind.KeyColumn(), kind.QuantityColumn()) && Disagree(j)
  {
    ComparableHasFields(legacy, kind);
    ComparableHasFields(spreadsheet, kind);
    Disagreeing(OuterMerge(legacy.rows, spreadsheet.rows, kind.KeyColumn(), kind.QuantityColumn()))
  }

  /** `identify_inconsistencies`: an inventory entry, then an order entry, each
      present exactly when it has flagged rows. */
  function Identify(legacy: Table, spreadsheet: Table): (r: seq<Inconsistency>)
    requires Comparable(legacy) && Comparable(spreadsheet)
    ensures |r| <= 2
    ensures forall k, l :: 0 <= k < l < |r| ==> r[k].kind == InventoryQuantity && r[l].kind == OrderQuantity
    ensures forall k :: 0 <= k < |r| ==> r[k].details != [] && r[k].details == Discrepancies(legacy, spreadsheet, r[k].kind)
    ensures forall kind: Kind :: Discrepancies(legacy, spreadsheet, kind) != [] ==> exists k :: 0 <= k < |r| && r[k].kind == kind
  {
    var inv := Discrepancies(legacy, spreadsheet, InventoryQuantity);
    var ord := Discrepancies(legacy, spreadsheet, OrderQuantity);
    var r := (if inv != [] then [Inconsistency(InventoryQuantity, inv)] else [])
      + (if ord != [] then [Inconsistency(OrderQuantity, ord)] else []);
    assert inv != [] ==> r[0].kind == InventoryQuantity;
    assert ord != [] ==> r[|r| - 1].kind == OrderQuantity;
    r
  }

  lemma {:induction false} MatchesOfMembers(x: Row, ys: seq<Row>, key: string, qty: string, j: Joined)
    requires key in x && qty in x && HasFields(ys, key, qty)
    ensures j in MatchesOf(x, ys, key, qty) <==> exists b :: MergedPair([x], ys, key, qty, 0, b, j)
  {
    if ys != [] {
      MatchesOfMembers(x, ys[1..], key, qty, j);
      var head := if ys[0][key] == x[key] then [Joined(x[key], x[qty], ys[0][qty])] else [];
      assert MatchesOf(x, ys, key, qty) == head + MatchesOf(x, ys[1..], key, qty);
      if j in MatchesOf(x, ys, key, qty) {
        if j in head {
          assert MergedPair([x], ys, key, qty, 0, 0, j);
        } else {
          var b :| MergedPair([x], ys[1..], key, qty, 0, b, j);
          assert MergedPair([x], ys, key, qty, 0, b + 1, j);
        }
      }
      if b :| MergedPair([x], ys, key, qty, 0, b, j) {
        if b > 0 {
          assert MergedPair([x], ys[1..], key, qty, 0, b - 1, j);
        }
      }
    }
  }

  lemma {:induction false} MatchedMembers(xs: seq<Row>, ys: seq<Row>, key: string, qty: string, j: Joined)
    requires HasFields(xs, key, qty) && HasFields(ys, key, qty)
    ensures j in Matched(xs, ys, key, qty) <==> exists a, b :: MergedPair(xs, ys, key, qty, a, b, j)
  {
    if xs != [] {
      MatchesOfMembers(xs[0], ys, key, qty, j);
      MatchedMembers(xs[1..], ys, key, qty, j);
      if j in Matched(xs, ys, key, qty) {
        if j in MatchesOf(xs[0], ys, key, qty) {
          var b :| MergedPair([xs[0]], ys, key, qty, 0, b, j);
          assert MergedPair(xs, ys, key, qty, 0, b, j);
        } else {
          var a, b :| MergedPair(xs[1..], ys, key, qty, a, b, j);
          assert MergedPair(xs, ys, key, qty, a + 1, b, j);
        }
      }
      if a, b :| MergedPair(xs, ys, key, qty, a, b, j) {
        if a == 0 {
          assert MergedPair([xs[0]], ys, key, qty, 0, b, j);
        } else {
          assert MergedPair(xs[1..], ys, key, qty, a - 1, b, j);
        }
      }
    }
  }

  /** A flagged row: one legacy row and one spreadsheet row with the same key, whose
      quantities are both present and different. */
  ghost predicate Flagged(legacy: Table, spreadsheet: Table, kind: Kind, j: Joined) {
    exists a, b :: MergedPair(legacy.rows, spreadsheet.rows, kind.KeyColumn(), kind.QuantityColumn(), a, b, j) && Disagree(j)
  }

  /** The details of a discrepancy type are exactly the flagged same-key pairs: the
      unmatched rows of the outer merge never qualify. */
  lemma DiscrepanciesAreFlaggedPairs(legacy: Table, spreadsheet: Table, kind: Kind, j: Joined)
    requires Comparable(legacy) && Comparable(spreadsheet)
    ensures j in Discrepancies(legacy, spreadsheet, kind) <==> Flagged(legacy, spreadsheet, kind, j)
  {
    var key, qty := kind.KeyColumn(), kind.QuantityColumn();
    MatchedMembers(legacy.rows, spreadsheet.rows, key, qty, j);
    var lonely := Unmatched(legacy.rows, spreadsheet.rows, key, qty, true)
      + Unmatched(spreadsheet.rows, legacy.rows, key, qty, false);
    assert j in lonely ==> !Disagree(j);
  }

  /** A flagged key is a key of both frames; a key on one side only is never flagged. */
  lemma FlaggedKeysOccurOnBothSides(legacy: Table, spreadsheet: Table, kind: Kind, j: Joined)
    requires Comparable(legacy) && Comparable(spreadsheet)
    requires j in Discrepancies(legacy, spreadsheet, kind)
    ensures Disagree(j)
    ensures j.key in RowKeys(legacy.rows, kind.KeyColumn()) && j.key in RowKeys(spreadsheet.rows, kind.KeyColumn())
  {
    DiscrepanciesAreFlaggedPairs(legacy, spreadsheet, kind, j);
    var a, b :| MergedPair(legacy.rows, spreadsheet.rows, kind.KeyColumn(), kind.QuantityColumn(), a, b, j);
    assert legacy.rows[a][kind.KeyColumn()] == j.key;
  }

  /** Swapping the two sources swaps the two quantity columns and flags the same rows. */
  lemma DetectionIsSymmetric(legacy: Table, spreadsheet: Table, kind: Kind, k: Value, x: Value, y: Value)
    requires Comparable(legacy) && Comparable(spreadsheet)
    ensures Joined(k, x, y) in Discrepancies(legacy, spreadsheet, kind)
        <==> Joined(k, y, x) in Discrepancies(spreadsheet, legacy, kind)
  {
    var key, qty := kind.KeyColumn(), kind.QuantityColumn();
    DiscrepanciesAreFlaggedPairs(legacy, spreadsheet, kind, Joined(k, x, y));
    DiscrepanciesAreFlaggedPairs(spreadsheet, legacy, kind, Joined(k, y, x));
    if a, b :| MergedPair(legacy.rows, spreadsheet.rows, key, qty, a, b, Joined(k, x, y)) && Disagree(Joined(k, x, y)) {
      assert MergedPair(spreadsheet.rows, legacy.rows, key, qty, b, a, Joined(k, y, x));
    }
    if b, a :| MergedPair(spreadsheet.rows, legacy.rows, key, qty, b, a, Joined(k, y, x)) && Disagree(Joined(k, y, x)) {
      assert MergedPair(legacy.rows, spreadsheet.rows, key, qty, a, b, Joined(k, x, y));
    }
  }

  function FlaggedKeys(legacy: Table, spreadsheet: Table, kind: Kind): set<Value>
    requires Comparable(legacy) && Comparable(spreadsheet)
  {
    set j | j in Discrepancies(legacy, spreadsheet, kind) :: j.key
  }

  /** Swapping the legacy and spreadsheet arguments flags the same set of keys. */
  lemma FlaggedKeysSymmetric(legacy: Table, spreadsheet: Table, kind: Kind)
    requires Comparable(legacy) && Comparable(spreadsheet)
    ensures FlaggedKeys(legacy, spreadsheet, kind) == FlaggedKeys(spreadsheet, legacy, kind)
  {
    forall k | k in FlaggedKeys(legacy, spreadsheet, kind)
      ensures k in FlaggedKeys(spreadsheet, legacy, kind)
    {
      var j :| j in Discrepancies(legacy, spreadsheet, kind) && j.key == k;
      DetectionIsSymmetric(legacy, spreadsheet, kind, k, j.legacy, j.spreadsheet);
      assert Joined(k, j.spreadsheet, j.legacy) in Discrepancies(spreadsheet, legacy, kind);
    }
    forall k | k in FlaggedKeys(spreadsheet, legacy, kind)
      ensures k in FlaggedKeys(legacy, spreadsheet, kind)
    {
      var j :| j in Discrepancies(spreadsheet, legacy, kind) && j.key == k;
      DetectionIsSymmetric(legacy, spreadsheet, kind, k, j.spreadsheet, j.legacy);
      assert Joined(k, j.spreadsheet, j.legacy) in Discrepancies(legacy, spreadsheet, kind);
    }
  }
}
