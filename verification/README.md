# Supply-chain reconciliation engine — Dafny model

This project models the reconciliation core of `app.py`. It has four parts:

- **clean_data.** Quantity columns are coerced to `Int64`. The seven text columns of line 54 are trimmed and upper-cased. Date columns are re-rendered as `YYYY-MM-DD`.
- **identify_inconsistencies.** Legacy and spreadsheet rows are outer-joined on `item_id` and on `order_id`. A joined row is flagged when both quantities are present and differ.
- **consolidate_data.** Every source is projected to one shape and tagged with `_source`. Rows without a key or without a readable `last_updated` are dropped. The most recent row per key is kept, and returns are passed through.
- **process_all_files**, minus the file parsing: it cleans the five sources and composes the two steps above.

The model is made of plain Dafny values. A cell is `Null`, `Int` or `Str`. A row is a `map` from column name to cell. A frame is a column set plus a sequence of rows. pandas' number and date parsers (`pd.to_numeric` and `pd.to_datetime` with `errors='coerce'`) are function parameters that return an `Option`.

Modules:

| module | file | models |
|---|---|---|
| `Optional` | `optional.dfy` | the `Option` type |
| `Text` | `text.dfy` | `str.strip`, `str.upper` and `str.lower` on ASCII text, `in` on strings, integer rendering |
| `Dates` | `dates.dfy` | calendar dates, their order, `strftime('%Y-%m-%d')` and reading that format back |
| `Frames` | `frames.dfy` | cells, rows, frames, `_source` tags and the two parsers |
| `Cleaning` | `cleaning.dfy` | `clean_data` |
| `Inconsistencies` | `inconsistencies.dfy` | `identify_inconsistencies` |
| `Recency` | `recency.dfy` | `sort_values(ascending=False)` followed by `drop_duplicates(keep='first')` |
| `Consolidation` | `consolidation.dfy` | `consolidate_data` |
| `Pipeline` | `pipeline.dfy` | `process_all_files` after parsing, and end-to-end properties |

Preconditions. They are what the code needs in order not to raise:

- The selected columns exist. Otherwise lines 75, 94, 116-119 and 128-129 raise `KeyError`.
- Every quantity cell reads as an integral number within 64 bits, or fails to read. Otherwise `astype('Int64')` at line 57 raises.
- The supplier rename at line 118 produces no duplicate column label.

Behaviour of `app.py` that the model keeps, including some that a reader may not expect:

- **Missing text does not stay missing.** Line 62 stringifies every cell before stripping and upper-casing it, so a missing identifier becomes the text `"NAN"`.
  - After cleaning, `item_id` and `order_id` are therefore never missing.
  - The missing-key filter at lines 123 and 132 never removes a row in the pipeline.
  - A row without an `item_id` is consolidated under the key `"NAN"` (`Pipeline.MissingItemIdConsolidatedAsNan`).
- **Seven text columns.** Line 54 cleans seven columns: `item_id`, `item_name`, `order_id`, `return_id`, `shipment_date`, `last_updated` and `return_date`.
- **`last_updated` is a date column.** `'date' in 'last_updated'` holds ("up-date-d"), so line 65 re-renders `last_updated` as `YYYY-MM-DD` as well.
- **Ties are unspecified.** The sorts at lines 124 and 133 are pandas' default sort, which is not stable. Which of several equally recent rows of one key is kept is therefore unspecified. The model fixes one admissible order but states only that the kept row is at least as recent as every other row with its key. `Recency.StrictlyNewestWins` shows the result is determined whenever there is no tie.

## Model

| member | source | states |
|---|---|---|
| Text.Upper | app.py:62 | `str.upper()`: the result contains no lower-case ASCII letter and has the same letters as the input, up to case, position by position |
| Text.Strip | app.py:62 | `str.strip()`: the result has no leading or trailing whitespace and is a contiguous slice of the input with only whitespace cut from either end |
| Text.Lower | app.py:53 | `str.lower()`: the result contains no upper-case ASCII letter and has the same letters as the input, up to case, position by position |
| Text.ContainsIffSplit | app.py:53 | Python's `part in s` on strings holds exactly when `s` is some text, then `part`, then some text |
| Text.CanonicalIdempotent | app.py:62 | stripping and upper-casing an already stripped, upper-cased text changes nothing |
| Dates.NotAfterIsTotalOrder | app.py:124 | the timestamp order `sort_values` uses is a total order: reflexive, total, antisymmetric and transitive |
| Dates.Format | app.py:65 | `strftime('%Y-%m-%d')` yields ten characters: four digits, a dash, two digits, a dash, two digits |
| Dates.FormatRoundTrip | app.py:65 | reading back a rendered date gives the same date, so no date information is lost by the rendering |
| Cleaning.CoerceQuantity | app.py:57 | a quantity cell becomes the `Int64` value that `to_numeric` reads from it, or missing when it does not read; every result fits in 64 bits |
| Cleaning.AsText | app.py:62 | `astype(str)` on one cell: a missing cell is `"nan"`, text is kept, and an integer is written as `str()` writes it: decimal digits without leading zeros (with a leading `-` when negative) that read back to its value |
| Cleaning.CanonicalText | app.py:62 | the result is stripped and upper-case, and equals the cell's `astype(str)` text trimmed of whitespace, up to case |
| Cleaning.NormalizeText | app.py:59-65 | a non-date text column gets its canonical text; a date column gets the parsed date rendered as ISO text (which reads back to that date), or missing when it does not parse |
| Cleaning.TextColumnsAreNotQuantities | app.py:53-54 | no column of the text list has "qty" in its lower-cased name, so the two loops touch disjoint columns |
| Cleaning.KnownColumns | app.py:53-64 | `inventory_qty`, `order_qty` and `shipment_qty` are quantity columns; `item_id` and `order_id` are non-date text columns; `last_updated` is a date text column |
| Cleaning.CleanCell | app.py:56-65 | one cell: in a quantity column it is the `Int64` reading of the cell; in a non-date text column it is the cell's canonical text; in a date text column it is the normalised ISO date or missing; in any other column it is unchanged |
| Cleaning.CleanRow | app.py:56-65 | one row keeps its fields, and each field is cleaned as `CleanCell` states for its column's class |
| Cleaning.Clean | app.py:47-67 | an empty frame is returned as is; otherwise columns and row count are kept, and columns outside the quantity and text lists are untouched; quantity cells are their `Int64` readings; non-date text cells are canonical text; date text cells are normalised ISO dates or missing |
| Cleaning.QuantitiesAreIntegers | app.py:53-57 | after cleaning, every cell of a quantity column is an integer or missing, never text |
| Cleaning.MissingTextIsNan | app.py:62 | a missing cell's text `"nan"` becomes `"NAN"` |
| Cleaning.MissingTextCellBecomesNan | app.py:59-62 | a missing cell of a non-date text column is the text `"NAN"` after cleaning |
| Cleaning.CleanedDateRereads | app.py:62-65 | a date cell that parsed before its rendering parses to the same date after it, when the parser reads back its own ISO output |
| Cleaning.DateCellIdempotent | app.py:62-65 | normalising a date cell twice gives the same cell as once, when the parser reads back its own ISO output and reads `"NAN"` as missing |
| Cleaning.CleanCellIdempotent | app.py:56-65 | cleaning a cleaned cell changes nothing, and a cleaned quantity cell can be cleaned again without raising |
| Cleaning.CleanIdempotent | app.py:47-67 | `clean_data` applied to its own output raises nothing and returns that output unchanged |
| Inconsistencies.UnmatchedMembers | app.py:74-80 | a row of the outer join lacks a partner if and only if it comes from a row of one side whose key the other side lacks; it carries that row's key and quantity, with the other side's quantity missing |
| Inconsistencies.OuterMergeMembers | app.py:74-80 | the outer merge holds exactly every same-key legacy/spreadsheet pair and every row whose key the other side lacks, and nothing else |
| Inconsistencies.Discrepancies | app.py:74-85 | the details of one discrepancy type are exactly the outer-join rows whose two quantities are both present and differ |
| Inconsistencies.Disagreeing | app.py:81-85 | the mask keeps exactly the joined rows whose two quantities are both present and differ |
| Inconsistencies.DisagreeingCounts | app.py:81-85 | the mask keeps each disagreeing joined row as many times as it occurs, and no other row |
| Inconsistencies.MatchedMembers | app.py:74-80 | a joined row with both sides comes from one legacy row and one spreadsheet row that share the key, and every such pair is joined |
| Inconsistencies.Identify | app.py:69-111 | at most two entries, inventory before order; each entry's details are non-empty and are that type's flagged rows; a type with flagged rows always has an entry |
| Inconsistencies.DiscrepanciesAreFlaggedPairs | app.py:74-85 | a joined row is reported if and only if it comes from a same-key legacy/spreadsheet pair whose quantities are both present and differ; a key present on only one side is never reported |
| Inconsistencies.FlaggedKeysOccurOnBothSides | app.py:81-84 | a reported key occurs in both the legacy and the spreadsheet rows, and its quantities disagree |
| Inconsistencies.DetectionIsSymmetric | app.py:81-84 | swapping legacy and spreadsheet reports the same rows with the two quantities swapped |
| Inconsistencies.FlaggedKeysSymmetric | app.py:81-104 | swapping legacy and spreadsheet gives the same set of flagged keys |
| Recency.SortNewestFirst | app.py:124 | the result is sorted newest first and is a permutation of the input |
| Recency.KeepFirst | app.py:125 | `drop_duplicates(keep='first')`: the result holds each key at most once, only input rows, and exactly the input's keys (less those already kept) |
| Recency.KeepFirstKeepsFirsts | app.py:125 | every kept row is the first row of the input with its key, and the kept rows are in the order of those first rows in the input |
| Recency.KeepFirstIsLatest | app.py:124-125 | on newest-first input, the first row of a key is at least as recent as every row with that key |
| Recency.KeepLatest | app.py:124-125 | the result has unique keys and exactly the candidates' keys, holds only candidates, is newest first, and each kept row is at least as recent as every candidate with its key |
| Recency.StrictlyNewestWins | app.py:124-125 | a candidate strictly more recent than every other candidate with its key is the one kept |
| Consolidation.RenameColumns | app.py:118 | renaming keeps the rows and moves each cell from its old label to its new one |
| Consolidation.Assign | app.py:116 | `assign` adds the column with the given value in every row and keeps every other cell |
| Consolidation.ToEntry | app.py:116-123 | a row yields an entry if and only if its key is present and its `last_updated` parses; the entry carries that key, that date, the source tag and exactly the selected cells |
| Consolidation.Candidates | app.py:116-123 | a source's surviving rows: at most one per source row, each tagged with that source, with a present key and exactly the selected value columns |
| Consolidation.CandidatesAreProjections | app.py:116-123 | the candidates of a source are exactly the entries its rows yield |
| Consolidation.InventoryCandidates | app.py:116-123 | the inventory rows that survive line 123: at most one per source row, each tagged legacy, spreadsheet or supplier, with a present `item_id` and exactly `item_name` and `inventory_qty` as values |
| Consolidation.OrderCandidates | app.py:128-132 | the order rows that survive line 132: at most one per legacy or spreadsheet row, each tagged legacy or spreadsheet, with a present `order_id` and exactly `order_qty` as value |
| Consolidation.ConsolidateInventory | app.py:115-125 | consolidated inventory holds only candidates, has unique item keys, has exactly the candidates' item keys and is newest first |
| Consolidation.ConsolidateOrders | app.py:127-134 | consolidated orders hold only candidates, have unique order keys, have exactly the candidates' order keys, are newest first and come only from legacy or spreadsheet |
| Consolidation.ConsolidateReturns | app.py:137 | empty returns give an empty frame; otherwise every row gains `_source = ReverseLogistics` and keeps every other cell |
| Consolidation.Consolidate | app.py:113-139 | the three returned frames: inventory and orders have unique keys, are newest first and have exactly the keys of the surviving source rows; orders never come from the supplier; empty returns give an empty frame, and otherwise every returns row gains `_source = ReverseLogistics` |
| Consolidation.InventoryFromSources | app.py:116-125 | each kept inventory row is a row of the source named by its tag; every surviving source row's key is kept; the kept row of a key is at least as recent as every surviving row with it |
| Consolidation.OrdersFromSources | app.py:128-134 | the same for orders, over legacy and spreadsheet |
| Consolidation.SurvivingRowIsRepresented | app.py:121-125 | a source row with a key and a readable `last_updated` has its key in consolidated inventory |
| Pipeline.CleanSources | app.py:145-151 | cleaning keeps the columns that the join and the consolidation select |
| Pipeline.ProcessAll | app.py:141-168 | at most two inconsistency entries; no key appears twice in consolidated inventory or orders |
| Pipeline.CleanedKeysAndQuantities | app.py:53-62 | after cleaning, `item_id` and `order_id` hold stripped upper-case text, and the three quantity columns hold integers or missing cells |
| Pipeline.RenamingKeepsKeysAndQuantities | app.py:118-119 | the supplier rename keeps `item_id` text canonical and fills `inventory_qty` only from integer-or-missing cells |
| Pipeline.ConsolidatedInventoryCanonical | app.py:116-125 | if the sources' keys are canonical and their quantities integers, so are those of every consolidated inventory row |
| Pipeline.ConsolidatedOrdersCanonical | app.py:128-134 | the same for consolidated orders |
| Pipeline.ProcessedEntriesCanonical | app.py:145-160 | end to end, every consolidated key is stripped upper-case text and every consolidated quantity an integer or missing |
| Pipeline.FlaggedQuantitiesOfIntegerColumns | app.py:81-85 | when both quantity columns hold integers or missing cells, every flagged row compares two integers |
| Pipeline.IdentifiedQuantitiesAreIntegers | app.py:69-111 | when both sources' quantity columns hold integers or missing cells, every row of every reported entry compares two different integers |
| Pipeline.ReportedQuantitiesAreIntegers | app.py:145-153 | end to end, every reported discrepancy compares two different integers |
| Pipeline.MissingItemIdConsolidatedAsNan | app.py:145-160 | a legacy row with a missing `item_id` and a readable `last_updated` is not dropped: line 62 makes its key `"NAN"` and line 123 keeps it, so `"NAN"` is a consolidated key; stated for date parsers that read back their own `YYYY-MM-DD` output and read `"NAN"` as missing |

## Left out

- `parse_csv` (lines 36-45): reading an upload with `pandas.read_csv` is I/O. The model starts from parsed frames, and a missing upload is the empty frame.
- `generate_fix_prompt` and `get_ai_fix_suggestions`: they build a prompt, make a network call to an external model and parse its JSON.
- The Streamlit interface, session state and environment and API-key setup: these are presentation and configuration.
- Concrete number and date parsing: `pd.to_numeric` and `pd.to_datetime` are parameters. Their format inference is not modelled, and that includes inference shared across a whole column. Idempotence of cleaning is stated for any date parser that reads back its own `YYYY-MM-DD` output and reads `"NAN"` as missing.
- Time of day: timestamps are calendar dates. Two rows of the same date but different times count as a tie here, whereas pandas orders them.
- Floating-point columns: `read_csv` gives a column with missing values a float type, so `astype(str)` would render `1001` as `"1001.0"`. The model renders an integer cell as its decimal digits.
- Unicode: `strip` and `upper` are modelled on ASCII whitespace and letters only.
- Row order of the outer join: pandas sorts the joined keys. The model keeps joined rows in left-then-right order and states its results as sets of rows.
- Inconsistencies.OuterMergeMembers: states which joined rows occur, not how often. Two identical same-key pairs, for example, give one row per pair in pandas; the model builds one per pair too, but the contract does not count them.
- Inconsistencies.Discrepancies: states which joined rows are reported, not how often. The multiplicity step is proved for the mask alone (Inconsistencies.DisagreeingCounts).
- Ties between rows of one key with equal dates: the sort is not stable, so which one is kept is left unspecified (see above).
- The historical backup: it is cleaned (line 150) and returned with the source data but used by no computation of the core.
- Missing-field statistics, in-transit detection, manual overrides and writing corrections back into source rows: none of them exists in `app.py`.
- Inconsistencies.Identify: the details frame's row order and its column suffixes (`_legacy`, `_spreadsheet`) are not modelled. A joined row is `Joined(key, legacy, spreadsheet)`.
- Cleaning.CleanIdempotent: stated only for date parsers that read back their own `YYYY-MM-DD` output and read `"NAN"` as missing. The concrete parser is not part of this model. The same holds for Cleaning.CleanCellIdempotent, Cleaning.DateCellIdempotent, Cleaning.CleanedDateRereads and Pipeline.MissingItemIdConsolidatedAsNan.
- Recency.KeepLatest: does not say which of several equally recent rows of one key is kept, because the sort that decides it is not stable.
