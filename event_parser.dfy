/** HSSFEventParser: the listener that receives every decoded BIFF record of the workbook
    stream and rebuilds the cells of the included sheets in the shared cache, in place. Each
    handler is proved to do exactly what the corresponding EngineSpec function says. */
module EventParser {
  import opened BiffRecords
  import opened EngineSpec
  import opened SharedCache

  /** The allow-list scan of the BoundSheet handler: a loop that stops at the first entry equal
      to the sheet name. */
  method MatchesAllowList(name: string, sheets: seq<string>) returns (found: bool)
    ensures found <==> name in sheets
  {
    found := false;
    var i := 0;
    while i < |sheets|
      invariant 0 <= i <= |sheets|
      invariant !found && forall j :: 0 <= j < i ==> sheets[j] != name
    {
      if name == sheets[i] {
        found := true;
        break;
      }
      i := i + 1;
    }
  }

  class HSSFEventParser {
    /** The cache and the sheet-name list, shared with the outer parser. */
    const store: SheetStore
    /** The sheet allow-list (None: no filter) and the number renderer / address function. */
    const sheets: Option<seq<string>>
    const renderer: Renderer

    var sheetMap: map<int, bool>
    var sheetSizeMap: map<int, int>
    var extendedRecordFormatIndexList: seq<int>
    var formatRecordIndexMap: map<int, string>
    var currentSheet: int
    var currentCellNum: int
    var currentRowNum: int
    var readCachedFormulaResult: bool
    var cachedRowNum: int
    var cachedColumnNum: int
    var currentSSTrecord: Option<SharedStrings>

    ghost function Config(): Env
      reads this
    {
      Env(sheets, renderer)
    }

    /** The parser's state as the specification sees it. */
    ghost function State(): EngineState
      reads this, store
    {
      EngineState(store.sheetNames, sheetMap, sheetSizeMap, store.Grid, extendedRecordFormatIndexList,
                  formatRecordIndexMap, currentSheet, currentCellNum, currentRowNum,
                  readCachedFormulaResult, cachedRowNum, cachedColumnNum, currentSSTrecord)
    }

    ghost predicate Valid()
      reads this, store, store.Rows()
    {
      store.Valid()
    }

    constructor (store: SheetStore, sheets: Option<seq<string>>, renderer: Renderer)
      requires store.Valid()
      ensures Valid() && this.store == store && this.sheets == sheets && this.renderer == renderer
      ensures State() == Initial(store.sheetNames, store.Grid)
    {
      this.store := store;
      this.sheets := sheets;
      this.renderer := renderer;
      sheetMap, sheetSizeMap := map[], map[];
      extendedRecordFormatIndexList, formatRecordIndexMap := [], map[];
      currentSheet, currentCellNum, currentRowNum := 0, 0, 0;
      readCachedFormulaResult, cachedRowNum, cachedColumnNum := false, 0, 0;
      currentSSTrecord := None;
    }

    /** processRecord: dispatch one record to its handler. */
    method ProcessRecord(r: Record) returns (thrown: Option<Exception>)
      requires Valid()
      modifies this, store, store.Rows()
      ensures Valid()
      ensures StepResult(State(), thrown) == Step(Config(), old(State()), r)
      ensures fresh(store.Rows() - old(store.Rows()))
    {
      match r
      case BoundSheet(name) =>
        OnBoundSheet(name);
        thrown := None;
      case Row(rowNumber, lastCol) =>
        thrown := OnRow(rowNumber, lastCol);
      case Formula(row, col, xf, value, hasString) =>
        thrown := OnFormula(row, col, xf, value, hasString);
      case StringRec(text) =>
        thrown := OnString(text);
      case Number(row, col, xf, value) =>
        thrown := OnNumber(row, col, xf, value);
      case SST(table) =>
        currentSSTrecord := Some(table);
        thrown := None;
      case LabelSST(row, col, idx) =>
        thrown := OnLabelSST(row, col, idx);
      case ExtendedFormat(formatIndex) =>
        extendedRecordFormatIndexList := extendedRecordFormatIndexList + [formatIndex];
        thrown := None;
      case Format(code, fmt) =>
        formatRecordIndexMap := formatRecordIndexMap[code := fmt];
        thrown := None;
      case Other =>
        thrown := None;
    }

    method OnBoundSheet(name: string)
      requires Valid()
      modifies this, store
      ensures Valid()
      ensures State() == BoundSheetStep(Config(), old(State()), name)
      ensures store.Rows() <= old(store.Rows())
    {
      var idx := |store.sheetNames|;
      if sheets.None? {
        sheetMap := sheetMap[idx := true];
        sheetSizeMap := sheetSizeMap[idx := 0];
        store.AddName(name);
      } else {
        var found := MatchesAllowList(name, sheets.value);
        sheetMap := sheetMap[idx := found];
        store.AddName(name);
      }
      if sheetMap[|store.sheetNames| - 1] {
        store.PutEmpty(|store.sheetNames| - 1);
      }
    }

    method OnRow(rowNumber: int, lastCol: int) returns (thrown: Option<Exception>)
      requires Valid()
      modifies this, store
      ensures Valid()
      ensures StepResult(State(), thrown) == RowStep(old(State()), rowNumber, lastCol)
      ensures fresh(store.Rows() - old(store.Rows()))
    {
      AdvanceCursor(rowNumber);
      var s := currentSheet - 1;
      if s !in sheetMap {
        return Some(NullPointer);
      }
      if sheetMap[s] {
        if lastCol < 0 {
          return Some(NegativeArraySize);
        }
        if s !in store.cache {
          return Some(NullPointer);
        }
        store.AppendRow(s, lastCol);
      }
      currentRowNum := currentRowNum + 1;
      currentCellNum := currentCellNum + lastCol;
      thrown := None;
    }

    /** A row numbered 0 starts the next sheet: record the finished sheet's cell count and
        reset the counters. */
    method AdvanceCursor(rowNumber: int)
      modifies this
      ensures State() == RowCursor(old(State()), rowNumber)
    {
      if currentSheet == 0 && rowNumber == 0 {
        currentSheet := currentSheet + 1;
        currentCellNum := 0;
        currentRowNum := 0;
      } else if currentSheet > 0 && rowNumber == 0 {
        sheetSizeMap := sheetSizeMap[currentSheet - 1 := currentCellNum];
        currentSheet := currentSheet + 1;
        currentCellNum := 0;
        currentRowNum := 0;
      }
    }

    /** The assignment cache.get(s).get(row)[col] = new SpreadSheetCellDAO(...) with
        s = currentSheet - 1; payload None is a right-hand side whose evaluation throws. */
    method WriteCell(row: int, col: int, payload: Option<string>) returns (thrown: Option<Exception>)
      requires Valid()
      modifies store, store.Rows()
      ensures Valid()
      ensures StepResult(State(), thrown) == StoreCell(Config(), old(State()), row, col, payload)
      ensures store.Rows() == old(store.Rows())
    {
      var s := currentSheet - 1;
      if s !in store.cache {
        return Some(NullPointer);
      }
      var rows := store.cache[s];
      if !(0 <= row < |rows|) {
        return Some(IndexOutOfBounds);
      }
      if payload.None? {
        return Some(IndexOutOfBounds);
      }
      if !(0 <= s < |store.sheetNames|) {
        return Some(IndexOutOfBounds);
      }
      var a := rows[row];
      if !(0 <= col < a.Length) {
        return Some(ArrayIndexOutOfBounds);
      }
      var cell := Cell(payload.value, "", "", renderer.cellAddressA1(row, col), store.sheetNames[s]);
      store.SetCell(s, row, col, cell);
      thrown := None;
    }

    /** Width check against the last appended row, style lookup, rendering, write. */
    method WriteNumeric(row: int, col: int, xf: int, value: real) returns (thrown: Option<Exception>)
      requires Valid()
      modifies store, store.Rows()
      ensures Valid()
      ensures StepResult(State(), thrown) == NumericCell(Config(), old(State()), row, col, xf, value)
      ensures store.Rows() == old(store.Rows())
    {
      var s := currentSheet - 1;
      if s !in store.cache {
        return Some(NullPointer);
      }
      var rows := store.cache[s];
      if !(0 <= currentRowNum - 1 < |rows|) {
        return Some(IndexOutOfBounds);
      }
      if col >= rows[currentRowNum - 1].Length {
        // more cells in the row than its record declared: logged, cell dropped
        return None;
      }
      if !(0 <= xf < |extendedRecordFormatIndexList|) {
        return Some(IndexOutOfBounds);
      }
      var formatIndex := extendedRecordFormatIndexList[xf];
      var theNumber := renderer.formatRawCellContents(value, formatIndex, Lookup(formatRecordIndexMap, formatIndex));
      thrown := WriteCell(row, col, Some(theNumber));
    }

    method OnFormula(row: int, col: int, xf: int, value: real, hasString: bool) returns (thrown: Option<Exception>)
      requires Valid()
      modifies this, store, store.Rows()
      ensures Valid()
      ensures StepResult(State(), thrown) == FormulaStep(Config(), old(State()), row, col, xf, value, hasString)
      ensures store.Rows() == old(store.Rows())
    {
      if currentSheet - 1 !in sheetMap {
        return Some(NullPointer);
      }
      if !sheetMap[currentSheet - 1] {
        return None;
      }
      if hasString {
        readCachedFormulaResult := true;
        cachedColumnNum := col;
        cachedRowNum := row;
        thrown := None;
      } else {
        thrown := WriteNumeric(row, col, xf, value);
      }
    }

    method OnString(text: string) returns (thrown: Option<Exception>)
      requires Valid()
      modifies this, store, store.Rows()
      ensures Valid()
      ensures StepResult(State(), thrown) == StringStep(Config(), old(State()), text)
      ensures store.Rows() == old(store.Rows())
    {
      if currentSheet - 1 !in sheetMap {
        return Some(NullPointer);
      }
      if !sheetMap[currentSheet - 1] {
        return None;
      }
      thrown := WriteCell(cachedRowNum, cachedColumnNum, Some(text));
      if thrown.None? {
        readCachedFormulaResult := false;
      }
    }

    method OnNumber(row: int, col: int, xf: int, value: real) returns (thrown: Option<Exception>)
      requires Valid()
      modifies this, store, store.Rows()
      ensures Valid()
      ensures StepResult(State(), thrown) == NumberStep(Config(), old(State()), row, col, xf, value)
      ensures store.Rows() == old(store.Rows())
    {
      if currentSheet - 1 !in sheetMap {
        return Some(NullPointer);
      }
      if !sheetMap[currentSheet - 1] {
        return None;
      }
      thrown := WriteNumeric(row, col, xf, value);
    }

    method OnLabelSST(row: int, col: int, idx: int) returns (thrown: Option<Exception>)
      requires Valid()
      modifies this, store, store.Rows()
      ensures Valid()
      ensures StepResult(State(), thrown) == LabelStep(Config(), old(State()), row, col, idx)
      ensures store.Rows() == old(store.Rows())
    {
      var s := currentSheet - 1;
      if s !in sheetMap {
        return Some(NullPointer);
      }
      if !sheetMap[s] {
        return None;
      }
      if s !in store.cache {
        return Some(NullPointer);
      }
      var rows := store.cache[s];
      if !(0 <= row < |rows|) {
        return Some(IndexOutOfBounds);
      }
      if col >= rows[row].Length {
        // the error message reads the width of the last appended row
        if 0 <= currentRowNum - 1 < |rows| {
          return None;
        }
        return Some(IndexOutOfBounds);
      }
      if idx < 0 {
        // invalid index: logged, cell ignored
        return None;
      }
      if currentSSTrecord.None? {
        return Some(NullPointer);
      }
      if idx >= currentSSTrecord.value.numUniqueStrings {
        // invalid index: logged, cell ignored
        return None;
      }
      var strings := currentSSTrecord.value.strings;
      thrown := WriteCell(row, col, if idx < |strings| then Some(strings[idx]) else None);
    }
  }
}
