/** MSExcelLowFootprintParser: detects the container format, runs the event parser over the
    workbook's record stream into the shared cache, and then hands the cached rows out one at
    a time, sheet after sheet, evicting each sheet once its last row is out. */
module LowFootprint {
  import opened BiffRecords
  import opened EngineSpec
  import opened EngineProperties
  import opened IteratorSpec
  import opened SharedCache
  import opened EventParser

  const FORMAT_UNSUPPORTED: int := -1
  const FORMAT_OLDEXCEL: int := 0
  const FORMAT_OOXML: int := 1

  /** What the first bytes of the input reveal. A legacy compound document carries the decoded
      records of its Workbook stream, or None when that stream cannot be opened; Unreadable is
      an input whose header cannot be read (empty or failing stream). */
  datatype Container =
    | LegacyBinary(workbook: Option<seq<Record>>)
    | ZippedXml
    | Unrecognized
    | Unreadable

  class LowFootprintParser {
    const store: SheetStore
    const sheets: Option<seq<string>>
    const renderer: Renderer
    var format: int
    var currentSheet: nat
    var currentRow: nat

    /** The iterator's view: cache contents and the (sheet, row) cursor. */
    ghost function Position(): Cursor
      reads this, store
    {
      Cursor(store.Grid, currentSheet, currentRow)
    }

    ghost predicate Valid()
      reads this, store, store.Rows()
    {
      store.Valid() && Bounded(Position())
    }

    constructor (sheets: Option<seq<string>>, renderer: Renderer)
      ensures Valid() && fresh(store)
      ensures this.sheets == sheets && this.renderer == renderer
      ensures format == FORMAT_UNSUPPORTED && currentSheet == 0 && currentRow == 0
      ensures store.sheetNames == [] && store.Grid == map[]
    {
      this.sheets := sheets;
      this.renderer := renderer;
      format := FORMAT_UNSUPPORTED;
      store := new SheetStore();
      currentRow := 0;
      currentSheet := 0;
    }

    /** parse: reset the row cursor, then act on the detected container. A legacy workbook's
        records go through a fresh event parser until the first exception, which propagates. */
    method Parse(container: Container) returns (thrown: Option<Exception>)
      requires Valid()
      modifies this, store, store.Rows()
      ensures Valid() && currentRow == 0 && currentSheet == old(currentSheet)
      ensures fresh(store.Rows() - old(store.Rows()))
      ensures match container
        case LegacyBinary(Some(rs)) =>
          && format == FORMAT_OLDEXCEL
          && var res := Run(Env(sheets, renderer), Initial(old(store.sheetNames), old(store.Grid)), rs);
          && thrown == res.thrown && store.sheetNames == res.st.sheetList && store.Grid == res.st.cache
        case LegacyBinary(None) =>
          && format == FORMAT_OLDEXCEL && store.sheetNames == old(store.sheetNames) && store.Grid == old(store.Grid)
          && thrown == Some(FormatNotUnderstood("Could not detect format in Low footprint reading mode"))
        case ZippedXml =>
          && format == FORMAT_OOXML && store.sheetNames == old(store.sheetNames) && store.Grid == old(store.Grid)
          && thrown == None
        case Unrecognized =>
          && format == FORMAT_UNSUPPORTED && store.sheetNames == old(store.sheetNames) && store.Grid == old(store.Grid)
          && thrown == Some(FormatNotUnderstood("Could not detect Excel format in low footprint reading mode"))
        case Unreadable =>
          && format == old(format) && store.sheetNames == old(store.sheetNames) && store.Grid == old(store.Grid)
          && thrown == Some(FormatNotUnderstood("Could not detect format in Low footprint reading mode"))
    {
      match container
      case LegacyBinary(workbook) =>
        thrown := ParseLegacy(workbook);
      case _ =>
        thrown := Detected(container);
    }

    /** parse for an input that is not a legacy workbook: only the format flag and the row
        cursor change. */
    method Detected(container: Container) returns (thrown: Option<Exception>)
      requires Valid() && !container.LegacyBinary?
      modifies this
      ensures Valid() && currentRow == 0 && currentSheet == old(currentSheet)
      ensures match container
        case ZippedXml => format == FORMAT_OOXML && thrown == None
        case Unrecognized =>
          && format == FORMAT_UNSUPPORTED
          && thrown == Some(FormatNotUnderstood("Could not detect Excel format in low footprint reading mode"))
        case _ =>
          && format == old(format)
          && thrown == Some(FormatNotUnderstood("Could not detect format in Low footprint reading mode"))
    {
      currentRow := 0;
      match container
      case ZippedXml =>
        format := FORMAT_OOXML;
        thrown := None;
      case Unrecognized =>
        format := FORMAT_UNSUPPORTED;
        thrown := Some(FormatNotUnderstood("Could not detect Excel format in low footprint reading mode"));
      case Unreadable =>
        thrown := Some(FormatNotUnderstood("Could not detect format in Low footprint reading mode"));
    }

    /** The legacy branch of parse, once the row cursor is reset: the records of the Workbook
        stream go through the event parser, or the missing stream is reported. */
    method ParseLegacy(workbook: Option<seq<Record>>) returns (thrown: Option<Exception>)
      requires Valid()
      modifies this, store, store.Rows()
      ensures Valid() && currentRow == 0 && currentSheet == old(currentSheet) && format == FORMAT_OLDEXCEL
      ensures fresh(store.Rows() - old(store.Rows()))
      ensures match workbook
        case Some(rs) =>
          var res := Run(Env(sheets, renderer), Initial(old(store.sheetNames), old(store.Grid)), rs);
          thrown == res.thrown && store.sheetNames == res.st.sheetList && store.Grid == res.st.cache
        case None =>
          && store.sheetNames == old(store.sheetNames) && store.Grid == old(store.Grid)
          && thrown == Some(FormatNotUnderstood("Could not detect format in Low footprint reading mode"))
    {
      currentRow := 0;
      format := FORMAT_OLDEXCEL;
      if workbook.None? {
        return Some(FormatNotUnderstood("Could not detect format in Low footprint reading mode"));
      }
      thrown := ProcessEvents(workbook.value);
    }

    /** The event factory's loop: hand each record to a new event parser over the shared
        store, stopping at the first exception. */
    method ProcessEvents(rs: seq<Record>) returns (thrown: Option<Exception>)
      requires store.Valid()
      modifies store, store.Rows()
      ensures store.Valid()
      ensures fresh(store.Rows() - old(store.Rows()))
      ensures var res := Run(Env(sheets, renderer), Initial(old(store.sheetNames), old(store.Grid)), rs);
        thrown == res.thrown && store.sheetNames == res.st.sheetList && store.Grid == res.st.cache
    {
      var engine := new HSSFEventParser(store, sheets, renderer);
      ghost var cfg := engine.Config();
      ghost var init := engine.State();
      var i := 0;
      while i < |rs|
        invariant 0 <= i <= |rs|
        invariant engine.store == store && engine.Config() == cfg && engine.Valid()
        invariant fresh(store.Rows() - old(store.Rows()))
        invariant Run(cfg, init, rs[..i]) == Normal(engine.State())
      {
        ghost var before := engine.State();
        thrown := engine.ProcessRecord(rs[i]);
        RunExtends(cfg, init, rs, i, before);
        if thrown.Some? {
          return;
        }
        i := i + 1;
      }
      assert rs[..i] == rs;
      thrown := None;
    }

    function GetCurrentRow(): (r: int)
      reads this, store, store.Rows()
      ensures r >= 0
      ensures Valid() && currentSheet in store.Grid ==> r <= |store.Grid[currentSheet]|
    {
      currentRow
    }

    /** The name of the sheet being read; past the last sheet, the last name. */
    function GetCurrentSheetName(): (r: Outcome<string>)
      reads this, store
      ensures r.Raised? <==> store.sheetNames == []
      ensures r.Raised? ==> r.e == IndexOutOfBounds
      ensures r.Ok? ==> r.value in store.sheetNames
      ensures currentSheet < |store.sheetNames| ==> r == Ok(store.sheetNames[currentSheet])
      ensures 0 < |store.sheetNames| <= currentSheet ==> r == Ok(store.sheetNames[|store.sheetNames| - 1])
    {
      SheetName(store.sheetNames, currentSheet)
    }

    /** getNext: the next cached row array of the current sheet (the cache's own array, not a
        copy), or None; the sheet's entry is evicted once its last row is out. */
    method GetNext() returns (thrown: Option<Exception>, result: Option<array<Option<Cell>>>)
      requires Valid()
      modifies this, store
      ensures Valid() && store.sheetNames == old(store.sheetNames)
      ensures result.Some? ==> result.value in old(store.Rows())
      ensures match Next(old(Position()))
        case Failed(e) =>
          thrown == Some(e) && result.None? && Position() == old(Position())
        case Returned(out, after) =>
          && thrown.None? && Position() == after
          && (result.Some? <==> out.Some?)
          && (result.Some? ==> result.value[..] == out.value)
    {
      if currentSheet !in store.cache {
        return Some(NullPointer), None;
      }
      var rows := store.cache[currentSheet];
      result := None;
      if currentRow < |rows| {
        result := Some(rows[currentRow]);
        currentRow := currentRow + 1;
      }
      if currentRow == |store.cache[currentSheet]| {
        store.Evict(currentSheet);
        currentSheet := currentSheet + 1;
        currentRow := 0;
      }
      thrown := None;
    }

    /** Linked workbooks are refused in this mode. */
    function AddLinkedWorkbook(name: string, password: Option<string>): (r: Outcome<bool>)
      ensures r == Raised(FormatNotUnderstood("Workbooks are not supported in low footprint mode"))
    {
      Raised(FormatNotUnderstood("Workbooks are not supported in low footprint mode"))
    }

    function GetLinkedWorkbooks(): (r: seq<string>)
      ensures r == []
    {
      []
    }
  }
}
