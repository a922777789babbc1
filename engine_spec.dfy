/** The record-dispatch state machine of the low-footprint .xls reader, as pure functions over
    an explicit state: one Step per decoded record, and Run, which folds Step over a record
    stream and stops at the first exception. The HSSFEventParser class is proved against these
    functions; the lemmas below state what each record kind does to the state. */
module EngineSpec {
  import opened BiffRecords

  /** The parser's configuration: the optional sheet allow-list and the renderers. */
  datatype Env = Env(sheets: Option<seq<string>>, renderer: Renderer)

  /** Everything processRecord reads or writes. sheetList and cache are the collections the
      event parser shares with the outer parser; the rest is the event parser's own. */
  datatype EngineState = EngineState(
    sheetList: seq<string>,
    sheetMap: map<int, bool>,
    sheetSizeMap: map<int, int>,
    cache: map<int, seq<RowCells>>,
    xfList: seq<int>,
    formatMap: map<int, string>,
    currentSheet: int,
    currentCellNum: int,
    currentRowNum: int,
    readCachedFormulaResult: bool,
    cachedRowNum: int,
    cachedColumnNum: int,
    sst: Option<SharedStrings>)

  /** The state after a record, and the exception it raised, if any. */
  datatype StepResult = StepResult(st: EngineState, thrown: Option<Exception>)

  function Normal(st: EngineState): StepResult { StepResult(st, None) }

  function Throw(st: EngineState, e: Exception): StepResult { StepResult(st, Some(e)) }

  /** The state a new event parser starts from, over the shared name list and cache. */
  function Initial(sheetList: seq<string>, cache: map<int, seq<RowCells>>): EngineState
  {
    EngineState(sheetList, map[], map[], cache, [], map[], 0, 0, 0, false, 0, 0, None)
  }

  /** Whether a discovered sheet is parsed: always without an allow-list, otherwise exactly
      when its name equals an entry of the list. */
  predicate Included(env: Env, name: string)
  {
    env.sheets.None? || name in env.sheets.value
  }

  /** sheetMap.get(currentSheet - 1): None stands for the null that unboxing turns into a
      NullPointerException. */
  function SheetIncluded(st: EngineState): Option<bool>
  {
    Lookup(st.sheetMap, st.currentSheet - 1)
  }

  /** Cache c' is c with exactly slot [row][col] of sheet s set to cell. */
  ghost predicate SlotWritten(c: map<int, seq<RowCells>>, c': map<int, seq<RowCells>>, s: int, row: int, col: int, cell: Cell)
  {
    && s in c && 0 <= row < |c[s]| && 0 <= col < |c[s][row]|
    && c'.Keys == c.Keys
    && (forall t :: t in c && t != s ==> c'[t] == c[t])
    && |c'[s]| == |c[s]|
    && (forall i :: 0 <= i < |c[s]| && i != row ==> c'[s][i] == c[s][i])
    && |c'[s][row]| == |c[s][row]|
    && c'[s][row][col] == Some(cell)
    && (forall j :: 0 <= j < |c[s][row]| && j != col ==> c'[s][row][j] == c[s][row][j])
  }

  /** The cell a write at (row, col) of the current sheet materialises. */
  function NewCell(env: Env, st: EngineState, row: int, col: int, text: string): Cell
    requires 0 <= st.currentSheet - 1 < |st.sheetList|
  {
    Cell(text, "", "", env.renderer.cellAddressA1(row, col), st.sheetList[st.currentSheet - 1])
  }

  /** cache.get(s).get(row)[col] = new SpreadSheetCellDAO(text, "", "", address, sheetList.get(s))
      with s = currentSheet - 1, in Java's order: the array reference first (null entry, bad row),
      then the right-hand side (payload None: its evaluation throws; the sheet name lookup), then
      the array bounds. */
  function StoreCell(env: Env, st: EngineState, row: int, col: int, payload: Option<string>): (res: StepResult)
    ensures res.thrown.Some? ==> res.st == st
    ensures res.thrown.None? <==>
      (&& st.currentSheet - 1 in st.cache && 0 <= row < |st.cache[st.currentSheet - 1]|
       && payload.Some? && 0 <= st.currentSheet - 1 < |st.sheetList|
       && 0 <= col < |st.cache[st.currentSheet - 1][row]|)
    ensures res.thrown.None? ==>
      && res.st == st.(cache := res.st.cache)
      && SlotWritten(st.cache, res.st.cache, st.currentSheet - 1, row, col, NewCell(env, st, row, col, payload.value))
  {
    var s := st.currentSheet - 1;
    if s !in st.cache then Throw(st, NullPointer)
    else if !(0 <= row < |st.cache[s]|) then Throw(st, IndexOutOfBounds)
    else if payload.None? then Throw(st, IndexOutOfBounds)
    else if !(0 <= s < |st.sheetList|) then Throw(st, IndexOutOfBounds)
    else if !(0 <= col < |st.cache[s][row]|) then Throw(st, ArrayIndexOutOfBounds)
    else
      var rows := st.cache[s];
      var cell := NewCell(env, st, row, col, payload.value);
      Normal(st.(cache := st.cache[s := rows[row := rows[row][col := Some(cell)]]]))
  }

  /** BoundSheetRecord: append the name, decide inclusion, open an empty row list if included. */
  function BoundSheetStep(env: Env, st: EngineState, name: string): EngineState
  {
    var idx := |st.sheetList|;
    var found := Included(env, name);
    var st1 := st.(sheetMap := st.sheetMap[idx := found],
                   sheetSizeMap := if env.sheets.None? then st.sheetSizeMap[idx := 0] else st.sheetSizeMap,
                   sheetList := st.sheetList + [name]);
    if found then st1.(cache := st1.cache[idx := []]) else st1
  }

  /** The cursor part of a RowRecord: row number 0 starts the next sheet. */
  function RowCursor(st: EngineState, rowNumber: int): EngineState
  {
    if st.currentSheet == 0 && rowNumber == 0 then
      st.(currentSheet := 1, currentCellNum := 0, currentRowNum := 0)
    else if st.currentSheet > 0 && rowNumber == 0 then
      st.(sheetSizeMap := st.sheetSizeMap[st.currentSheet - 1 := st.currentCellNum],
          currentSheet := st.currentSheet + 1, currentCellNum := 0, currentRowNum := 0)
    else st
  }

  /** RowRecord: advance the cursor on row 0, then append a blank row of lastCol slots to the
      current sheet if it is included, and count the row and its cells. */
  function RowStep(st: EngineState, rowNumber: int, lastCol: int): StepResult
  {
    var st1 := RowCursor(st, rowNumber);
    var s := st1.currentSheet - 1;
    var counted := st1.(currentRowNum := st1.currentRowNum + 1, currentCellNum := st1.currentCellNum + lastCol);
    if s !in st1.sheetMap then Throw(st1, NullPointer)
    else if !st1.sheetMap[s] then Normal(counted)
    else if lastCol < 0 then Throw(st1, NegativeArraySize)
    else if s !in st1.cache then Throw(st1, NullPointer)
    else Normal(counted.(cache := st1.cache[s := st1.cache[s] + [EmptyRow(lastCol)]]))
  }

  /** The numeric path shared by NumberRecord and a FormulaRecord with a numeric result: width
      check against the last appended row, then style lookup (XF list, then format map), then
      the write at the record's own row. */
  function NumericCell(env: Env, st: EngineState, row: int, col: int, xf: int, value: real): (res: StepResult)
    ensures res.thrown.Some? ==> res.st == st
    ensures res.thrown.None? ==>
      && var s := st.currentSheet - 1;
      && s in st.cache && 1 <= st.currentRowNum <= |st.cache[s]|
      && if col >= |st.cache[s][st.currentRowNum - 1]| then res.st == st
         else
           && 0 <= xf < |st.xfList| && 0 <= s < |st.sheetList|
           && res.st == st.(cache := res.st.cache)
           && var fi := st.xfList[xf];
           && SlotWritten(st.cache, res.st.cache, s, row, col,
                NewCell(env, st, row, col, env.renderer.formatRawCellContents(value, fi, Lookup(st.formatMap, fi))))
  {
    var s := st.currentSheet - 1;
    if s !in st.cache then Throw(st, NullPointer)
    else if !(0 <= st.currentRowNum - 1 < |st.cache[s]|) then Throw(st, IndexOutOfBounds)
    else if col >= |st.cache[s][st.currentRowNum - 1]| then Normal(st)
    else if !(0 <= xf < |st.xfList|) then Throw(st, IndexOutOfBounds)
    else
      var formatIndex := st.xfList[xf];
      var text := env.renderer.formatRawCellContents(value, formatIndex, Lookup(st.formatMap, formatIndex));
      StoreCell(env, st, row, col, Some(text))
  }

  /** FormulaRecord. */
  function FormulaStep(env: Env, st: EngineState, row: int, col: int, xf: int, value: real, hasString: bool): StepResult
  {
    match SheetIncluded(st)
    case None => Throw(st, NullPointer)
    case Some(included) =>
      if !included then Normal(st)
      else if hasString then Normal(st.(readCachedFormulaResult := true, cachedColumnNum := col, cachedRowNum := row))
      else NumericCell(env, st, row, col, xf, value)
  }

  /** StringRecord: write the literal at the pending position (the flag is not consulted). */
  function StringStep(env: Env, st: EngineState, text: string): StepResult
  {
    match SheetIncluded(st)
    case None => Throw(st, NullPointer)
    case Some(included) =>
      if !included then Normal(st)
      else
        var res := StoreCell(env, st, st.cachedRowNum, st.cachedColumnNum, Some(text));
        if res.thrown.Some? then res else Normal(res.st.(readCachedFormulaResult := false))
  }

  /** NumberRecord. */
  function NumberStep(env: Env, st: EngineState, row: int, col: int, xf: int, value: real): StepResult
  {
    match SheetIncluded(st)
    case None => Throw(st, NullPointer)
    case Some(included) =>
      if !included then Normal(st) else NumericCell(env, st, row, col, xf, value)
  }

  /** LabelSSTRecord: width check against the record's own row, then the index check against
      the table's declared count, then the lookup and the write. */
  function LabelStep(env: Env, st: EngineState, row: int, col: int, idx: int): StepResult
  {
    var s := st.currentSheet - 1;
    match SheetIncluded(st)
    case None => Throw(st, NullPointer)
    case Some(included) =>
      if !included then Normal(st)
      else if s !in st.cache then Throw(st, NullPointer)
      else if !(0 <= row < |st.cache[s]|) then Throw(st, IndexOutOfBounds)
      else if col >= |st.cache[s][row]| then
        // the error message reads the width of the last appended row
        if 0 <= st.currentRowNum - 1 < |st.cache[s]| then Normal(st) else Throw(st, IndexOutOfBounds)
      else if idx < 0 then Normal(st)
      else if st.sst.None? then Throw(st, NullPointer)
      else if idx >= st.sst.value.numUniqueStrings then Normal(st)
      else
        var strings := st.sst.value.strings;
        StoreCell(env, st, row, col, if idx < |strings| then Some(strings[idx]) else None)
  }

  /** processRecord: one record's effect on the state. Only a BoundSheet record adds a sheet
      name, only an ExtendedFormat record extends the XF list, and only a Format record changes
      the format map, whether or not the record throws. */
  function Step(env: Env, st: EngineState, r: Record): (res: StepResult)
    ensures res.st.sheetList == if r.BoundSheet? then st.sheetList + [r.sheetName] else st.sheetList
    ensures res.st.xfList == if r.ExtendedFormat? then st.xfList + [r.formatIndex] else st.xfList
    ensures res.st.formatMap == if r.Format? then st.formatMap[r.indexCode := r.formatString] else st.formatMap
    ensures !r.BoundSheet? && !r.Row? ==> res.st.sheetMap == st.sheetMap && res.st.currentSheet == st.currentSheet
  {
    match r
    case BoundSheet(name) => Normal(BoundSheetStep(env, st, name))
    case Row(rowNumber, lastCol) => RowStep(st, rowNumber, lastCol)
    case Formula(row, col, xf, value, hasString) => FormulaStep(env, st, row, col, xf, value, hasString)
    case StringRec(text) => StringStep(env, st, text)
    case Number(row, col, xf, value) => NumberStep(env, st, row, col, xf, value)
    case SST(table) => Normal(st.(sst := Some(table)))
    case LabelSST(row, col, idx) => LabelStep(env, st, row, col, idx)
    case ExtendedFormat(formatIndex) => Normal(st.(xfList := st.xfList + [formatIndex]))
    case Format(code, fmt) => Normal(st.(formatMap := st.formatMap[code := fmt]))
    case Other => Normal(st)
  }

  /** The record stream fed to processRecord one record at a time; the first exception
      escapes and ends the stream, keeping whatever the records before it did. */
  function Run(env: Env, st: EngineState, rs: seq<Record>): (res: StepResult)
    ensures st.sheetList <= res.st.sheetList && st.xfList <= res.st.xfList
    ensures |res.st.sheetList| <= |st.sheetList| + |rs|
    decreases |rs|
  {
    if rs == [] then Normal(st)
    else
      var prev := Run(env, st, rs[..|rs| - 1]);
      if prev.thrown.Some? then prev else Step(env, prev.st, rs[|rs| - 1])
  }
}
