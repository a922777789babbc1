# Low-footprint reading of legacy Excel workbooks

This project models the low-footprint reader of HadoopOffice, `MSExcelLowFootprintParser`, on
its legacy (.xls, BIFF8) path. The reader does not build a workbook object graph. It hands every
decoded BIFF record of the `Workbook` stream, one at a time and in order, to an event listener
(`HSSFEventParser`). The listener rebuilds the cells of the sheets that pass an optional
allow-list into a shared cache: sheet index to a list of fixed-width row arrays. The outer parser
then hands those row arrays out one by one through `getNext`, sheet after sheet, and evicts each
sheet's entry once its last row has gone out.

The project has three layers:

- **Specification functions.** `EngineSpec` (engine_spec.dfy) holds the listener's state as a
  value, one step function per record kind (`Step`), and `Run`, which folds `Step` over a record
  stream and stops at the first exception. `IteratorSpec` (iterator_spec.dfy) holds one `getNext`
  call (`Next`) and a run of calls (`Pull`).
- **Imperative classes proved against those functions.**
  - `SharedCache.SheetStore` (sheet_store.dfy) holds the sheet-name list and the cache of row
    `array`s. Both the outer parser and the listener update them in place.
  - `EventParser.HSSFEventParser` (event_parser.dfy) is the listener. Its fields are the
    listener's fields.
  - `LowFootprint.LowFootprintParser` (low_footprint_parser.dfy) is the outer parser.

  Each method's `ensures` ties the new state, and the exception it raises, to the specification
  function.
- **Properties.** `EngineProperties` (engine_properties.dfy) proves what each record kind does
  and what whole streams preserve. `IteratorSpec` and `ParserProperties` (parser_properties.dfy)
  prove what a full drain returns.

Java's unchecked exceptions are explicit outcomes (`Exception` in records.dfy). They are
`NullPointerException`, `IndexOutOfBoundsException`, `ArrayIndexOutOfBoundsException` and
`NegativeArraySizeException`, plus the parser's own `FormatNotUnderstoodException`. A record
that throws keeps whatever it changed before the throw. For example, a Row record with row number
0 advances the sheet cursor before `sheetMap.get` fails.

Java's evaluation order is kept:

- In a method call, the arguments are evaluated before the null receiver is dereferenced. So a
  negative row width raises `NegativeArraySizeException` even when the sheet has no cache entry.
- An array store evaluates, in this order: the array, then the index, then the new cell (its
  string, its address, then its sheet name), then the bounds check.
- The log message of a LabelSST record whose column overflows its row reads the last appended
  row. That read can throw.

## Where the code and its specification differ

The model follows the code in each of these cases.

- **End of data.** The specification promises an end marker once every sheet is drained. In the
  code, `getNext` looks up `cache.get(currentSheet)` without a null check. So the call after the
  last row of the last sheet raises `NullPointerException`. So does the call that reaches a sheet
  the allow-list excluded, and that call also ends the iteration early. See
  `IteratorSpec.DrainEndsInFailure` and `ParserProperties.ParseThenDrain`.
- **Empty sheets.** An included sheet with no rows makes `getNext` return one null rather than
  nothing (`IteratorSpec.SheetOutput`). So a drain returns one entry per row plus one per empty
  sheet.
- **Unknown style.** The specification says a cell with an unknown style is skipped. In the code, a
  Number record, or a Formula record with a numeric result, whose XF index is outside the XF list
  raises `IndexOutOfBoundsException` (`EngineProperties.NumberCellWrite`).
- **Row numbers as positions.** A cell's row number is used as a position in the sheet's row list.
  That list has one entry per Row record received, so a sheet whose rows are not contiguous from
  0 raises on a cell of a later row (`EngineProperties.SparseRowNumberFails`).
- **Pending formula flag.** The flag set by a formula with a string result is never read. A String
  record always writes at the last stored position (`EngineProperties.StringWithoutPendingFormula`).
- **Name after an excluded sheet.** With sheet A included and sheet B excluded, draining A leaves
  the sheet cursor on B, so `getCurrentSheetName` reports "B" rather than the sheet whose rows
  were last handed out (`ParserProperties.DrainReportsExcludedSheetName`).
- **Parsing twice.** A second `parse` on the same parser object gives a new listener the old name
  list and cache. Its sheet flags start empty, and the sheets it discovers get indices after the
  old ones. So its first Row record looks up the flag of sheet 0 and raises a NullPointerException
  (`EngineProperties.SecondParseFailsAtFirstRow`).
- **Sheet boundaries.** The next sheet starts at a Row record numbered 0. A BOF record does not
  start one (`EngineProperties.RowZeroStartsNextSheet`).

## Model

| member | source | states |
|---|---|---|
| `EventParser.MatchesAllowList` | fileformat/src/main/java/org/zuinnote/hadoop/office/format/common/parser/MSExcelLowFootprintParser.java:371-378 | the loop over the allow-list reports a match exactly when the sheet name is one of its entries |
| `EventParser.HSSFEventParser.constructor` | fileformat/src/main/java/org/zuinnote/hadoop/office/format/common/parser/MSExcelLowFootprintParser.java:327-344 | a new listener starts with empty sheet flags, sizes, XF list and format map, zero counters and no SST record, over the shared name list and cache it is given |
| `EventParser.HSSFEventParser.ProcessRecord` | fileformat/src/main/java/org/zuinnote/hadoop/office/format/common/parser/MSExcelLowFootprintParser.java:346-512 | processing one record changes the fields and the shared store exactly as `Step` says, and raises exactly the exception `Step` raises; every row array it adds is new |
| `EventParser.HSSFEventParser.OnBoundSheet` | fileformat/src/main/java/org/zuinnote/hadoop/office/format/common/parser/MSExcelLowFootprintParser.java:361-385 | a BoundSheet record flags sheet `\|names\|` with the allow-list's verdict, records size 0 only when there is no allow-list, appends the name, and opens an empty row list for an included sheet (`BoundSheetStep`) |
| `EventParser.HSSFEventParser.OnRow` | fileformat/src/main/java/org/zuinnote/hadoop/office/format/common/parser/MSExcelLowFootprintParser.java:386-408 | a Row record advances the sheet cursor on row 0, then appends a blank row of lastCol slots to an included sheet and counts the row and its cells, with the exceptions of `RowStep` |
| `EventParser.HSSFEventParser.AdvanceCursor` | fileformat/src/main/java/org/zuinnote/hadoop/office/format/common/parser/MSExcelLowFootprintParser.java:389-401 | row number 0 moves to the next sheet, records the finished sheet's cell count when there was one, and resets both counters (`RowCursor`) |
| `EventParser.HSSFEventParser.WriteCell` | fileformat/src/main/java/org/zuinnote/hadoop/office/format/common/parser/MSExcelLowFootprintParser.java:443 | the cell store raises NPE, IOOBE or AIOOBE in Java's evaluation order, and otherwise changes exactly slot [row][col] of the current sheet (`StoreCell`) |
| `EventParser.HSSFEventParser.WriteNumeric` | fileformat/src/main/java/org/zuinnote/hadoop/office/format/common/parser/MSExcelLowFootprintParser.java:459-466 | a numeric cell is dropped when its column is at or past the width of the last appended row; otherwise its style is resolved through the XF list and the format map, and it is rendered and stored (`NumericCell`) |
| `EventParser.HSSFEventParser.OnFormula` | fileformat/src/main/java/org/zuinnote/hadoop/office/format/common/parser/MSExcelLowFootprintParser.java:409-434 | on an excluded sheet nothing changes; a string result only records the pending position; a numeric result goes through the numeric cell path (`FormulaStep`) |
| `EventParser.HSSFEventParser.OnString` | fileformat/src/main/java/org/zuinnote/hadoop/office/format/common/parser/MSExcelLowFootprintParser.java:435-446 | on an included sheet the literal is stored at the pending position and the flag is cleared after the store succeeds (`StringStep`) |
| `EventParser.HSSFEventParser.OnNumber` | fileformat/src/main/java/org/zuinnote/hadoop/office/format/common/parser/MSExcelLowFootprintParser.java:447-467 | on an included sheet the number goes through the numeric cell path (`NumberStep`) |
| `EventParser.HSSFEventParser.OnLabelSST` | fileformat/src/main/java/org/zuinnote/hadoop/office/format/common/parser/MSExcelLowFootprintParser.java:474-494 | a shared-string cell is dropped when its column overflows its row (the log argument can still raise) or its index is outside the table's declared count; otherwise the table's string is stored (`LabelStep`) |
| `SharedCache.SheetStore.AddName` | fileformat/src/main/java/org/zuinnote/hadoop/office/format/common/parser/MSExcelLowFootprintParser.java:369 | appending a sheet name leaves the cache and every row as they were |
| `SharedCache.SheetStore.PutEmpty` | fileformat/src/main/java/org/zuinnote/hadoop/office/format/common/parser/MSExcelLowFootprintParser.java:383 | a sheet gets an empty row list and no other sheet's rows change |
| `SharedCache.SheetStore.AppendRow` | fileformat/src/main/java/org/zuinnote/hadoop/office/format/common/parser/MSExcelLowFootprintParser.java:404 | exactly one new all-blank row array of the given width is appended to that sheet's list |
| `SharedCache.SheetStore.SetCell` | fileformat/src/main/java/org/zuinnote/hadoop/office/format/common/parser/MSExcelLowFootprintParser.java:465 | writing a slot changes that slot of that row and no other row, although the rows are separate arrays |
| `SharedCache.SheetStore.Evict` | fileformat/src/main/java/org/zuinnote/hadoop/office/format/common/parser/MSExcelLowFootprintParser.java:229 | removing a sheet's entry leaves every other sheet's rows as they were |
| `EngineSpec.StoreCell` | fileformat/src/main/java/org/zuinnote/hadoop/office/format/common/parser/MSExcelLowFootprintParser.java:431 | the store raises exactly when the sheet has no entry, the row, the sheet name or the column is out of range, or the string cannot be produced; then nothing changes; otherwise exactly the one slot is written |
| `EngineSpec.NumericCell` | fileformat/src/main/java/org/zuinnote/hadoop/office/format/common/parser/MSExcelLowFootprintParser.java:424-432 | without a throw, the cell is either dropped with the state unchanged, or exactly its slot receives the renderer's text for the style found through the XF list and format map |
| `EngineSpec.Step` | fileformat/src/main/java/org/zuinnote/hadoop/office/format/common/parser/MSExcelLowFootprintParser.java:346-512 | one record, thrown or not: only a BoundSheet record appends a sheet name, only an ExtendedFormat record extends the XF list, only a Format record sets a format string, and only BoundSheet and Row records touch the sheet flags or the sheet cursor |
| `EngineSpec.Run` | fileformat/src/main/java/org/zuinnote/hadoop/office/format/common/parser/MSExcelLowFootprintParser.java:159-162 | feeding a record stream to the listener never loses a sheet name or XF entry, and adds at most one name per record |
| `EngineProperties.CellRecordKeepsShape` | fileformat/src/main/java/org/zuinnote/hadoop/office/format/common/parser/MSExcelLowFootprintParser.java:409-505 | cell and table records never add, drop or resize a row, and never touch the sheet list, the flags or the sheet cursor |
| `EngineProperties.StepGrows` | fileformat/src/main/java/org/zuinnote/hadoop/office/format/common/parser/MSExcelLowFootprintParser.java:346-512 | one record, thrown or not, keeps sheet indices within the discovered sheets and only lets the state grow: names, flags, row lists, row widths and style tables are never lost |
| `EngineProperties.RunGrows` | fileformat/src/main/java/org/zuinnote/hadoop/office/format/common/parser/MSExcelLowFootprintParser.java:346-512 | the same holds over a whole record stream, also one cut short by an exception |
| `EngineProperties.RunStopsAtThrow` | fileformat/src/main/java/org/zuinnote/hadoop/office/format/common/parser/MSExcelLowFootprintParser.java:160-162 | the records after the first exception are never processed |
| `EngineProperties.DiscoverOne` | fileformat/src/main/java/org/zuinnote/hadoop/office/format/common/parser/MSExcelLowFootprintParser.java:361-385 | a BoundSheet record never raises; it gives the new sheet the next index, flags it with the allow-list's verdict, opens a row list only if it is included, and changes nothing else |
| `EngineProperties.DiscoverSheets` | fileformat/src/main/java/org/zuinnote/hadoop/office/format/common/parser/MSExcelLowFootprintParser.java:361-385 | a run of BoundSheet records appends the names in order, flags sheet n + j with the verdict on name j, and opens empty row lists for exactly the included ones |
| `EngineProperties.SecondParseFailsAtFirstRow` | fileformat/src/main/java/org/zuinnote/hadoop/office/format/common/parser/MSExcelLowFootprintParser.java:160 | a listener started over a non-empty name list discovers its sheets at indices after the old ones, so its first Row record raises a NullPointerException |
| `EngineProperties.StyleIndicesInArrivalOrder` | fileformat/src/main/java/org/zuinnote/hadoop/office/format/common/parser/MSExcelLowFootprintParser.java:495-500 | ExtendedFormat records append their format indices to the XF list in arrival order and change nothing else |
| `EngineProperties.LaterFormatWins` | fileformat/src/main/java/org/zuinnote/hadoop/office/format/common/parser/MSExcelLowFootprintParser.java:501-505 | of two Format records with the same code, the later format string is the one looked up |
| `EngineProperties.FormatSurvives` | fileformat/src/main/java/org/zuinnote/hadoop/office/format/common/parser/MSExcelLowFootprintParser.java:346-512 | records other than a Format record for a code leave that code's format string, or its absence, as it was, even when the stream ends in an exception |
| `EngineProperties.NamesOnlyFromBoundSheets` | fileformat/src/main/java/org/zuinnote/hadoop/office/format/common/parser/MSExcelLowFootprintParser.java:361-385 | a stream without BoundSheet records leaves the sheet-name list unchanged, also when it ends in an exception |
| `EngineProperties.LastFormatWins` | fileformat/src/main/java/org/zuinnote/hadoop/office/format/common/parser/MSExcelLowFootprintParser.java:501-505 | over a whole stream, the last Format record for a code decides its format string, once the records before it went through |
| `EngineProperties.RowZeroStartsNextSheet` | fileformat/src/main/java/org/zuinnote/hadoop/office/format/common/parser/MSExcelLowFootprintParser.java:389-401 | a Row record numbered 0 always moves to the next sheet and saves the previous sheet's cell count (there is none before the first sheet) |
| `EngineProperties.RowAppendsOneBlankRow` | fileformat/src/main/java/org/zuinnote/hadoop/office/format/common/parser/MSExcelLowFootprintParser.java:386-408 | any Row record, the row-0 record that opens a sheet included: after the cursor step it succeeds exactly when the current sheet is flagged and, if included, has a row list and a non-negative width; then it appends exactly one blank row of lastCol slots to an included sheet only, changes no other list, and counts the row and its cells; on a throw the cache and the stepped counters stay |
| `EngineProperties.ExcludedSheetUntouched` | fileformat/src/main/java/org/zuinnote/hadoop/office/format/common/parser/MSExcelLowFootprintParser.java:409-494 | while the current sheet is excluded, any cell and table records raise nothing and leave the cache and the pending formula position unchanged |
| `EngineProperties.NumberCellWrite` | fileformat/src/main/java/org/zuinnote/hadoop/office/format/common/parser/MSExcelLowFootprintParser.java:447-466 | numeric cells: past the last row's width the cell is dropped; an unknown XF index raises; otherwise exactly slot [row][col] gets the rendered text, an empty comment and formula, its address and its sheet's name |
| `EngineProperties.SparseRowNumberFails` | fileformat/src/main/java/org/zuinnote/hadoop/office/format/common/parser/MSExcelLowFootprintParser.java:459-465 | a numeric cell whose row number is at or past the number of rows received raises, even when its column fits |
| `EngineProperties.FormulaStringResult` | fileformat/src/main/java/org/zuinnote/hadoop/office/format/common/parser/MSExcelLowFootprintParser.java:418-421 | a string-result formula only records its position; the String record after it succeeds exactly when that slot exists, writes the literal there and clears the flag |
| `EngineProperties.StringWithoutPendingFormula` | fileformat/src/main/java/org/zuinnote/hadoop/office/format/common/parser/MSExcelLowFootprintParser.java:435-446 | a String record with no pending formula still writes at the last stored position |
| `EngineProperties.LabelSSTOutOfRangeDropped` | fileformat/src/main/java/org/zuinnote/hadoop/office/format/common/parser/MSExcelLowFootprintParser.java:486-487 | a shared-string index below 0 or at or past the table's declared count leaves the state unchanged |
| `EngineProperties.LabelSSTColumnOverflowDropped` | fileformat/src/main/java/org/zuinnote/hadoop/office/format/common/parser/MSExcelLowFootprintParser.java:482-484 | a column at or past its own row's width drops the cell when a row has been appended, and otherwise raises while building the log message |
| `EngineProperties.SSTThenLabelSST` | fileformat/src/main/java/org/zuinnote/hadoop/office/format/common/parser/MSExcelLowFootprintParser.java:469-489 | an SST record becomes the current table; a following LabelSST with an index below the declared count writes that table's string into exactly slot [row][col], or raises when the table holds fewer strings than declared |
| `EngineProperties.LabelSSTWritesSharedString` | fileformat/src/main/java/org/zuinnote/hadoop/office/format/common/parser/MSExcelLowFootprintParser.java:488-489 | an index within the table writes exactly that string into slot [row][col] |
| `EngineProperties.LabelSSTBeforeTableFails` | fileformat/src/main/java/org/zuinnote/hadoop/office/format/common/parser/MSExcelLowFootprintParser.java:486 | a non-negative index before any SST record raises a NullPointerException |
| `IteratorSpec.Next` | fileformat/src/main/java/org/zuinnote/hadoop/office/format/common/parser/MSExcelLowFootprintParser.java:223-236 | getNext raises exactly when the current sheet has no entry; otherwise it returns the row at the cursor, or null past the end; handing out the last row evicts the sheet and moves to row 0 of the next; the cursor stays within the sheet's rows |
| `IteratorSpec.DrainRest` | fileformat/src/main/java/org/zuinnote/hadoop/office/format/common/parser/MSExcelLowFootprintParser.java:223-236 | from any row of a sheet, the remaining calls return exactly the remaining rows in order, then evict the sheet |
| `IteratorSpec.DrainSheets` | fileformat/src/main/java/org/zuinnote/hadoop/office/format/common/parser/MSExcelLowFootprintParser.java:223-236 | draining consecutive cached sheets returns all their rows, sheet by sheet (one null per empty sheet), and evicts them all |
| `IteratorSpec.DrainEndsInFailure` | fileformat/src/main/java/org/zuinnote/hadoop/office/format/common/parser/MSExcelLowFootprintParser.java:223-236 | the call after the last drained sheet raises when the next sheet index has no entry |
| `ParserProperties.RunTracked` | fileformat/src/main/java/org/zuinnote/hadoop/office/format/common/parser/MSExcelLowFootprintParser.java:361-408 | after any record stream, every discovered sheet is flagged with the allow-list's verdict on its name, and exactly the included sheets have a cache entry |
| `ParserProperties.ParseThenDrain` | fileformat/src/main/java/org/zuinnote/hadoop/office/format/common/parser/MSExcelLowFootprintParser.java:139-236 | after parsing, getNext returns the rows of the sheets before the first excluded sheet, in order, and then raises |
| `ParserProperties.UnfilteredParseThenDrain` | fileformat/src/main/java/org/zuinnote/hadoop/office/format/common/parser/MSExcelLowFootprintParser.java:139-236 | without an allow-list, getNext returns every sheet's rows and then raises instead of signalling the end |
| `ParserProperties.DrainReportsExcludedSheetName` | fileformat/src/main/java/org/zuinnote/hadoop/office/format/common/parser/MSExcelLowFootprintParser.java:204-208 | after the sheets before the first excluded one are drained, the sheet cursor is on the excluded sheet and the current sheet name is that sheet's |
| `LowFootprint.LowFootprintParser.constructor` | fileformat/src/main/java/org/zuinnote/hadoop/office/format/common/parser/MSExcelLowFootprintParser.java:106-126 | a new parser has format FORMAT_UNSUPPORTED, both cursors at 0 and an empty name list and cache |
| `LowFootprint.LowFootprintParser.Parse` | fileformat/src/main/java/org/zuinnote/hadoop/office/format/common/parser/MSExcelLowFootprintParser.java:139-196 | parse resets the row cursor. For a legacy workbook it sets FORMAT_OLDEXCEL and leaves the store as `Run` over the records from the current store. For OOXML it only sets FORMAT_OOXML. An unrecognized header sets FORMAT_UNSUPPORTED and raises; an unreadable input or compound document raises the detection message |
| `LowFootprint.LowFootprintParser.ProcessEvents` | fileformat/src/main/java/org/zuinnote/hadoop/office/format/common/parser/MSExcelLowFootprintParser.java:159-162 | a new listener over the shared store processes the records in order; the store then holds the names and rows of `Run`, and the exception raised is the first one |
| `LowFootprint.LowFootprintParser.GetCurrentRow` | fileformat/src/main/java/org/zuinnote/hadoop/office/format/common/parser/MSExcelLowFootprintParser.java:199-201 | the row cursor is never negative and never exceeds the current sheet's row count |
| `LowFootprint.LowFootprintParser.GetCurrentSheetName` | fileformat/src/main/java/org/zuinnote/hadoop/office/format/common/parser/MSExcelLowFootprintParser.java:204-209 | the name of the current sheet, or past the last sheet the last name; it raises only when no sheet was discovered, and any name returned is a discovered one |
| `LowFootprint.LowFootprintParser.GetNext` | fileformat/src/main/java/org/zuinnote/hadoop/office/format/common/parser/MSExcelLowFootprintParser.java:223-236 | one call does what `Next` says to the cursor and the cache, and the array it returns is the cache's own array, holding the row `Next` returns |
| `LowFootprint.LowFootprintParser.AddLinkedWorkbook` | fileformat/src/main/java/org/zuinnote/hadoop/office/format/common/parser/MSExcelLowFootprintParser.java:212-215 | linked workbooks are always refused with FormatNotUnderstoodException |
| `LowFootprint.LowFootprintParser.GetLinkedWorkbooks` | fileformat/src/main/java/org/zuinnote/hadoop/office/format/common/parser/MSExcelLowFootprintParser.java:218-220 | there are never any linked workbooks |

## Left out

- Container detection (the POIFS and OOXML header checks), opening the compound document, the
  `Workbook` stream, `HSSFEventFactory`'s record decoding, and the Biff8 encryption key set from
  the password. `Parse` takes the outcome of detection and the decoded records as its input
  (`Container`). Exceptions raised while decoding records are not modelled.
- Closing the decoded stream and the compound document in `parse`'s inner `finally`, and the
  error raised if that fails. The outer `finally` closes the field `in`. That field is never
  assigned, so this is a no-op. `close` is not part of this model.
- `DataFormatter.formatRawCellContents` (locale-dependent rendering) and
  `MSExcelUtil.getCellAddressA1Format` are not part of this model. They are function parameters
  (`Renderer`), and the renderer's locale comes with it. Cell values are `real`s that are passed
  through to the renderer unchanged.
- The OOXML path's `XSSFEventParser` is not part of this model. In the code, `parse` on an OOXML
  container only sets the format.
- Logging, including the warnings about linked workbooks and metadata filters in the constructor.
  The one log argument that can throw is modelled (LabelSST).
- `getFiltered` (it always returns true).
- A null sheet name in a BoundSheet record when an allow-list is given, and null allow-list
  entries. Names are plain strings.
- `EventParser.HSSFEventParser.OnFormula`: the pending column is a Java `short` and the cell
  counter a `long`. Integers here are unbounded, so truncation and overflow are not modelled.
  Format indices are taken as already widened from the record's 16-bit field.
- `LowFootprint.LowFootprintParser.GetCurrentSheetName`: on an empty name list,
  `ArrayList.get(-1)` raises `IndexOutOfBoundsException` or, on older runtimes, its subclass
  `ArrayIndexOutOfBoundsException`. The model does not tell the two apart.
- `LowFootprint.LowFootprintParser.GetNext`: it returns the row array itself. Callers that write
  into it alias the cache; that aliasing is stated (the array is the cache's own) but not followed
  further.
