/** `clean_data` (app.py lines 47-67): quantity columns become integers or missing,
    the fixed identifier, name and date columns are trimmed and upper-cased, date
    columns are rewritten as `YYYY-MM-DD`, and every other column is left alone. */
module Cleaning {
  import opened Optional
  import opened Text
  import opened Dates
  import opened Frames

  /** The columns of line 54. */
  const TextColumns: set<string> :=
    {"item_id", "item_name", "order_id", "return_id", "shipment_date", "last_updated", "return_date"}

  /** Line 53: `'qty' in col.lower()`. */
  predicate IsQuantityColumn(col: string) {
    Contains(Lower(col), "qty")
  }

  /** Line 64: `'date' in col` (this includes `last_updated`). */
  predicate IsDateColumn(col: string) {
    Contains(col, "date")
  }

  /** A cell whose `to_numeric` result `astype('Int64')` accepts. */
  predicate Castable(v: Value, number: string -> Option<real>) {
    match ToNumeric(v, number)
    case None => true
    case Some(x) => IsInt64(x)
  }

  /** Line 57 raises unless every quantity cell is castable. */
  predicate QuantitiesCastable(t: Table, number: string -> Option<real>) {
    forall i, c :: 0 <= i < |t.rows| && c in t.rows[i] && IsQuantityColumn(c) ==> Castable(t.rows[i][c], number)
  }

  /** `r` is the `Int64` reading of the cell `v`. */
  ghost predicate CoercedFrom(r: Value, v: Value, number: string -> Option<real>) {
    || (r.Null? && ToNumeric(v, number).None?)
    || (r.Int? && ToNumeric(v, number) == Some(r.n as real))
  }

  /** `s` is the text of `v` with surrounding whitespace removed and letters upper-cased. */
  ghost predicate CanonicalFor(s: string, v: Value) {
    && IsStripped(s)
    && IsUpperCase(s)
    && exists core :: IsTrimmingOf(core, AsText(v)) && SameUpToCase(s, core)
  }

  /** Line 57 on one cell: `to_numeric(errors='coerce').astype('Int64')`. */
  function CoerceQuantity(v: Value, number: string -> Option<real>): (r: Value)
    requires Castable(v, number)
    ensures CoercedFrom(r, v, number)
    ensures r.Int? ==> Int64Min <= r.n <= Int64Max
  {
    match ToNumeric(v, number)
    case None => Null
    case Some(x) => Int(x.Floor)
  }

  /** `astype(str)` on one cell: text is kept, an integer is written in decimal, and a
      missing cell renders as "nan". */
  function AsText(v: Value): (r: string)
    ensures v.Null? ==> r == "nan"
    ensures v.Str? ==> r == v.text
    ensures v.Int? && v.n >= 0 ==> IsDecimal(r) && DigitsValue(r) == v.n
    ensures v.Int? && v.n < 0 ==> |r| >= 2 && r[0] == '-' && IsDecimal(r[1..]) && DigitsValue(r[1..]) == -v.n
    ensures v.Int? && v.n >= 0 ==> (|r| > 1 ==> r[0] != '0')
    ensures v.Int? && v.n < 0 ==> r[1] != '0'
  {
    match v
    case Null => "nan"
    case Int(n) => IntToString(n)
    case Str(s) => s
  }

  /** Line 62 on one cell: `astype(str).str.strip().str.upper()`. */
  function CanonicalText(v: Value): (s: string)
    ensures CanonicalFor(s, v)
  {
    var core := Strip(AsText(v));
    UpperKeepsStripped(core);
    Upper(core)
  }

  /** Line 65 on one cell: the canonical text, parsed and re-rendered as `YYYY-MM-DD`;
      missing when it does not parse. */
  ghost predicate DateNormalizedFrom(r: Value, v: Value, datetime: Value -> Option<Date>) {
    var parsed := datetime(Str(CanonicalText(v)));
    || (r.Null? && parsed.None?)
    || (parsed.Some? && r == Str(Format(parsed.value)) && IsIsoText(r.text) && ReadIso(r.text) == parsed)
  }

  /** Lines 59-65 on one cell of a text column. */
  function NormalizeText(col: string, v: Value, datetime: Value -> Option<Date>): (r: Value)
    ensures !IsDateColumn(col) ==> r.Str? && CanonicalFor(r.text, v)
    ensures IsDateColumn(col) ==> DateNormalizedFrom(r, v, datetime)
  {
    var s := CanonicalText(v);
    if IsDateColumn(col) then
      match datetime(Str(s))
      case None => Null
      case Some(d) => FormatRoundTrip(d); Str(Format(d))
    else
      Str(s)
  }

  /** No column of line 54 has "qty" in its name, so the two loops of lines 56-62
      touch disjoint columns and their order does not matter. */
  lemma TextColumnsAreNotQuantities()
    ensures forall c :: c in TextColumns ==> !IsQuantityColumn(c)
  {
    forall c | c in TextColumns
      ensures !IsQuantityColumn(c)
    {
      NoQMeansNoQty(c);
    }
  }

  lemma NoQMeansNoQty(c: string)
    requires forall k :: 0 <= k < |c| ==> c[k] != 'q' && c[k] != 'Q'
    ensures !IsQuantityColumn(c)
  {
    var l := Lower(c);
    forall i | 0 <= i <= |l| - 3
      ensures !OccursAt(l, "qty", i)
    {
      assert l[i] != 'q';
      assert l[i..i + 3][0] == l[i];
    }
  }

  lemma QtyMarksQuantityColumn(col: string, i: int)
    requires 0 <= i <= |col| - 3 && col[i..i + 3] == "qty"
    ensures IsQuantityColumn(col)
  {
    var l := Lower(col);
    assert col[i] == 'q' && col[i + 1] == 't' && col[i + 2] == 'y' by {
      assert col[i..i + 3][0] == col[i] && col[i..i + 3][1] == col[i + 1] && col[i..i + 3][2] == col[i + 2];
    }
    assert l[i..i + 3] == "qty";
    assert OccursAt(l, "qty", i);
  }

  /** How line 53 and line 64 classify the columns the rest of the engine reads. */
  lemma KnownColumns()
    ensures IsQuantityColumn("inventory_qty") && IsQuantityColumn("order_qty") && IsQuantityColumn("shipment_qty")
    ensures !IsDateColumn("item_id") && !IsDateColumn("order_id")
    ensures "item_id" in TextColumns && "order_id" in TextColumns
    ensures IsDateColumn("last_updated") && "last_updated" in TextColumns
  {
    var lu := "last_updated";
    assert lu[7] == 'd' && lu[8] == 'a' && lu[9] == 't' && lu[10] == 'e';
    assert lu[7..11] == "date";
    assert OccursAt(lu, "date", 7);
    QtyMarksQuantityColumn("inventory_qty", 10);
    QtyMarksQuantityColumn("order_qty", 6);
    QtyMarksQuantityColumn("shipment_qty", 9);
    forall i | 0 <= i <= 3 ensures !OccursAt("item_id", "date", i) {
      assert "item_id"[i..i + 4][1] == "item_id"[i + 1];
    }
    forall i | 0 <= i <= 4 ensures !OccursAt("order_id", "date", i) {
      assert "order_id"[i..i + 4][0] == "order_id"[i];
      assert "order_id"[i..i + 4][1] == "order_id"[i + 1];
    }
  }

  /** One cell of `clean_data`: a quantity column's cell is its `Int64` reading, a text
      column's cell is normalised, and any other cell is kept. */
  function CleanCell(col: string, v: Value, p: Parsers): (r: Value)
    requires IsQuantityColumn(col) ==> Castable(v, p.number)
    ensures IsQuantityColumn(col) ==> CoercedFrom(r, v, p.number)
    ensures !IsQuantityColumn(col) && col in TextColumns && !IsDateColumn(col) ==> r.Str? && CanonicalFor(r.text, v)
    ensures !IsQuantityColumn(col) && col in TextColumns && IsDateColumn(col) ==> DateNormalizedFrom(r, v, p.datetime)
    ensures !IsQuantityColumn(col) && col !in TextColumns ==> r == v
  {
    if IsQuantityColumn(col) then CoerceQuantity(v, p.number)
    else if col in TextColumns then NormalizeText(col, v, p.datetime)
    else v
  }

  /** One row of `clean_data`: the same fields, each cleaned by its column's class. */
  function CleanRow(row: Row, p: Parsers): (r: Row)
    requires forall c :: c in row && IsQuantityColumn(c) ==> Castable(row[c], p.number)
    ensures r.Keys == row.Keys
    ensures forall c :: c in row && IsQuantityColumn(c) ==> CoercedFrom(r[c], row[c], p.number)
    ensures forall c :: c in row && !IsQuantityColumn(c) && c in TextColumns && !IsDateColumn(c)
              ==> r[c].Str? && CanonicalFor(r[c].text, row[c])
    ensures forall c :: c in row && !IsQuantityColumn(c) && c in TextColumns && IsDateColumn(c)
              ==> DateNormalizedFrom(r[c], row[c], p.datetime)
    ensures forall c :: c in row && !IsQuantityColumn(c) && c !in TextColumns ==> r[c] == row[c]
  {
    map c | c in row :: CleanCell(c, row[c], p)
  }

  /** `clean_data`: an empty frame is returned unchanged; otherwise each cell is
      cleaned according to its column, and rows and columns stay as they are. */
  function Clean(t: Table, p: Parsers): (r: Table)
    requires WellFormed(t)
    requires QuantitiesCastable(t, p.number)
    ensures IsEmpty(t) ==> r == t
    ensures WellFormed(r) && r.columns == t.columns && |r.rows| == |t.rows|
    ensures forall i, c :: 0 <= i < |t.rows| && c in t.columns && !IsQuantityColumn(c) && c !in TextColumns
              ==> r.rows[i][c] == t.rows[i][c]
    ensures forall i, c :: 0 <= i < |t.rows| && c in t.columns && IsQuantityColumn(c)
              ==> CoercedFrom(r.rows[i][c], t.rows[i][c], p.number)
    ensures forall i, c :: 0 <= i < |t.rows| && c in t.columns && c in TextColumns && !IsDateColumn(c)
              ==> r.rows[i][c].Str? && CanonicalFor(r.rows[i][c].text, t.rows[i][c])
    ensures forall i, c :: 0 <= i < |t.rows| && c in t.columns && c in TextColumns && IsDateColumn(c)
              ==> DateNormalizedFrom(r.rows[i][c], t.rows[i][c], p.datetime)
  {
    TextColumnsAreNotQuantities();
    if IsEmpty(t) then t
    else Table(t.columns, seq(|t.rows|, i requires 0 <= i < |t.rows| => CleanRow(t.rows[i], p)))
  }

  /** A cell of a non-empty cleaned frame is its cleaned source cell. */
  lemma CleanedCell(t: Table, p: Parsers, i: int, c: string)
    requires WellFormed(t) && QuantitiesCastable(t, p.number)
    requires 0 <= i < |t.rows| && c in t.columns
    ensures Clean(t, p).rows[i][c] == CleanCell(c, t.rows[i][c], p)
  {
  }

  /** A missing cell of a non-date text column reads "NAN" after cleaning. */
  lemma MissingTextCellBecomesNan(t: Table, p: Parsers, i: int, c: string)
    requires WellFormed(t) && QuantitiesCastable(t, p.number)
    requires 0 <= i < |t.rows| && c in t.columns && c in TextColumns && !IsDateColumn(c)
    requires t.rows[i][c] == Null
    ensures Clean(t, p).rows[i][c] == Str("NAN")
  {
    TextColumnsAreNotQuantities();
    CleanedCell(t, p, i, c);
    MissingTextIsNan();
  }

  /** A date cell that parsed once parses to the same date after cleaning, for a
      parser that reads back its own rendering. */
  lemma CleanedDateRereads(t: Table, p: Parsers, i: int, c: string)
    requires WellFormed(t) && QuantitiesCastable(t, p.number) && RereadsIso(p.datetime)
    requires 0 <= i < |t.rows| && c in t.columns && c in TextColumns && IsDateColumn(c)
    ensures p.datetime(Str(CanonicalText(t.rows[i][c]))).Some? ==>
              ToDatetime(Clean(t, p).rows[i][c], p.datetime) == p.datetime(Str(CanonicalText(t.rows[i][c])))
  {
    TextColumnsAreNotQuantities();
    CleanedCell(t, p, i, c);
  }

  /** After cleaning, a quantity column holds only integers or missing cells. */
  lemma QuantitiesAreIntegers(t: Table, p: Parsers)
    requires WellFormed(t) && QuantitiesCastable(t, p.number)
    ensures forall i, c :: 0 <= i < |t.rows| && c in t.columns && IsQuantityColumn(c)
              ==> Clean(t, p).rows[i][c].Int? || Clean(t, p).rows[i][c].Null?
  {
  }

  /** What the date parser must do for cleaning to be idempotent, as pandas does:
      read "NAN" as missing, and read back any date it produced once rendered. */
  ghost predicate RereadsIso(datetime: Value -> Option<Date>) {
    && datetime(Str("NAN")) == None
    && forall v :: datetime(v).Some? ==> datetime(Str(Format(datetime(v).value))) == datetime(v)
  }

  /** A canonical text is its own canonical text. */
  lemma CanonicalTextIdempotent(v: Value)
    ensures CanonicalText(Str(CanonicalText(v))) == CanonicalText(v)
  {
    CanonicalIdempotent(AsText(v));
  }

  /** The text "nan" is already stripped and upper-cases to "NAN". */
  lemma NanCanonical(t: string)
    requires |t| == 3 && t[0] == 'n' && t[1] == 'a' && t[2] == 'n'
    ensures Upper(Strip(t)) == "NAN"
  {
    assert !IsSpace(t[0]) && !IsSpace(t[2]);
    StripKeepsStripped(t);
    var u := Upper(t);
    assert UpperChar('n') == 'N' && UpperChar('a') == 'A';
    assert u[0] == UpperChar(t[0]) && u[1] == UpperChar(t[1]) && u[2] == UpperChar(t[2]);
    SpellsNan(u);
  }

  lemma SpellsNan(u: string)
    requires |u| == 3 && u[0] == 'N' && u[1] == 'A' && u[2] == 'N'
    ensures u == "NAN"
  {
    var nan := "NAN";
    assert |nan| == 3 && nan[0] == 'N' && nan[1] == 'A' && nan[2] == 'N';
  }

  /** A missing cell's text is "nan", which line 62 turns into "NAN". */
  lemma MissingTextIsNan()
    ensures CanonicalText(Null) == "NAN"
  {
    var t := AsText(Null);
    assert t == "nan";
    NanCanonical(t);
  }

  /** An ISO date text is its own canonical text. */
  lemma IsoTextIsOwnCanonical(s: string)
    requires IsIsoText(s)
    ensures CanonicalText(Str(s)) == s
  {
    IsoTextIsCanonical(s);
    StripKeepsStripped(s);
    UpperKeepsUpperCase(s);
  }

  /** A normalised date cell normalises to itself. */
  lemma DateCellIdempotent(col: string, v: Value, datetime: Value -> Option<Date>)
    requires IsDateColumn(col)
    requires RereadsIso(datetime)
    ensures NormalizeText(col, NormalizeText(col, v, datetime), datetime) == NormalizeText(col, v, datetime)
  {
    var parsed := datetime(Str(CanonicalText(v)));
    if parsed.None? {
      MissingTextIsNan();
    } else {
      var f := Format(parsed.value);
      IsoTextIsOwnCanonical(f);
      assert datetime(Str(f)) == parsed;
    }
  }

  lemma CleanCellIdempotent(col: string, v: Value, p: Parsers)
    requires IsQuantityColumn(col) ==> Castable(v, p.number)
    requires RereadsIso(p.datetime)
    ensures IsQuantityColumn(col) ==> Castable(CleanCell(col, v, p), p.number)
    ensures CleanCell(col, CleanCell(col, v, p), p) == CleanCell(col, v, p)
  {
    if IsQuantityColumn(col) {
    } else if col in TextColumns {
      if IsDateColumn(col) {
        DateCellIdempotent(col, v, p.datetime);
      } else {
        CanonicalTextIdempotent(v);
      }
    }
  }

  /** Cleaning twice gives the same frame as cleaning once. */
  lemma CleanIdempotent(t: Table, p: Parsers)
    requires WellFormed(t) && QuantitiesCastable(t, p.number)
    requires RereadsIso(p.datetime)
    ensures QuantitiesCastable(Clean(t, p), p.number)
    ensures Clean(Clean(t, p), p) == Clean(t, p)
  {
    var once := Clean(t, p);
    if !IsEmpty(t) {
      forall i, c | 0 <= i < |t.rows| && c in t.rows[i]
        ensures IsQuantityColumn(c) ==> Castable(once.rows[i][c], p.number)
        ensures CleanCell(c, once.rows[i][c], p) == once.rows[i][c]
      {
        CleanCellIdempotent(c, t.rows[i][c], p);
      }
      var twice := Clean(once, p);
      forall i | 0 <= i < |t.rows|
        ensures twice.rows[i] == once.rows[i]
      {
      }
    }
  }
}
