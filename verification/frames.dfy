/** The data frames the engine passes around: rows of named cells whose values are
    text, integers or missing, together with the two pandas conversions the engine
    applies to cells (`pd.to_numeric` and `pd.to_datetime`, both with
    `errors='coerce'`). The parsers themselves are parameters: their input formats
    belong to pandas, not to this engine. */
module Frames {
  import opened Optional
  import opened Dates

  /** A cell: a string, an integer (`Int64`), or missing (`NaN`/`<NA>`/`NaT`). */
  datatype Value = Null | Int(n: int) | Str(text: string)

  /** One record: field name to cell. */
  type Row = map<string, Value>

  /** A data frame: its column labels and its rows in order. */
  datatype Table = Table(columns: set<string>, rows: seq<Row>)

  /** Every row has exactly the frame's columns, as in a pandas frame. */
  predicate WellFormed(t: Table) {
    forall i :: 0 <= i < |t.rows| ==> t.rows[i].Keys == t.columns
  }

  /** A well-formed frame that has every column of `cols`; selecting them cannot raise. */
  predicate HasColumns(t: Table, cols: set<string>) {
    WellFormed(t) && cols <= t.columns
  }

  /** `DataFrame.empty`: no rows or no columns. */
  predicate IsEmpty(t: Table) {
    |t.rows| == 0 || t.columns == {}
  }

  /** `pd.DataFrame()`. */
  const EmptyTable: Table := Table({}, [])

  /** The `_source` provenance tags `consolidate_data` assigns. */
  datatype Source = Legacy | Spreadsheet | Supplier | ReverseLogistics {
    function Label(): string {
      match this
      case Legacy => "Legacy"
      case Spreadsheet => "Spreadsheet"
      case Supplier => "Supplier"
      case ReverseLogistics => "ReverseLogistics"
    }
  }

  /** The pandas text parsers: a decimal number (`to_numeric`) and a calendar date
      (`to_datetime`); `None` is pandas' coercion to a missing value. */
  datatype Parsers = Parsers(number: string -> Option<real>, datetime: Value -> Option<Date>)

  /** `pd.to_numeric(v, errors='coerce')`: numbers pass through, missing stays missing. */
  function ToNumeric(v: Value, number: string -> Option<real>): Option<real> {
    match v
    case Null => None
    case Int(n) => Some(n as real)
    case Str(s) => number(s)
  }

  /** `pd.to_datetime(v, errors='coerce')`: missing stays missing. */
  function ToDatetime(v: Value, datetime: Value -> Option<Date>): Option<Date> {
    if v.Null? then None else datetime(v)
  }

  const Int64Min: int := -0x8000_0000_0000_0000
  const Int64Max: int := 0x7FFF_FFFF_FFFF_FFFF

  /** A number `astype('Int64')` accepts: integral and within 64 bits. */
  predicate IsInt64(x: real) {
    x == x.Floor as real && Int64Min <= x.Floor <= Int64Max
  }
}
