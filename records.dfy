/** The values that flow from the BIFF record decoder into the event parser and out of the
    row iterator: decoded structural records, the cells the parser builds, and the unchecked
    exceptions that can escape from record processing. */
module BiffRecords {

  datatype Option<+T> = None | Some(value: T)

  /** One resolved cell (SpreadSheetCellDAO): rendered value, comment, formula text,
      A1 address and the name of the sheet it belongs to. */
  datatype Cell = Cell(formattedValue: string, comment: string, formula: string, address: string, sheetName: string)

  /** A fixed-width row slot as the cache holds it; None is a blank cell (a null array slot). */
  type RowCells = seq<Option<Cell>>

  /** The shared-string table of an SST record: the count its header declares
      (getNumUniqueStrings) and the strings it actually holds (getString). */
  datatype SharedStrings = SharedStrings(numUniqueStrings: int, strings: seq<string>)

  /** The decoded BIFF records the parser reacts to; every other record (BOF included) is Other. */
  datatype Record =
    | BoundSheet(sheetName: string)
    | Row(rowNumber: int, lastCol: int)
    | Formula(row: int, column: int, xfIndex: int, value: real, hasCachedResultString: bool)
    | StringRec(text: string)
    | Number(row: int, column: int, xfIndex: int, value: real)
    | SST(table: SharedStrings)
    | LabelSST(row: int, column: int, sstIndex: int)
    | ExtendedFormat(formatIndex: int)
    | Format(indexCode: int, formatString: string)
    | Other

  /** The exceptions the parser can raise: the unchecked Java exceptions of record processing
      and of the row iterator, and the parser's own FormatNotUnderstoodException. */
  datatype Exception =
    | NullPointer
    | IndexOutOfBounds
    | ArrayIndexOutOfBounds
    | NegativeArraySize
    | FormatNotUnderstood(message: string)

  /** A value returned normally, or the exception raised instead. */
  datatype Outcome<+T> = Ok(value: T) | Raised(e: Exception)

  /** The two collaborators whose code is not part of this model: the locale-dependent number
      renderer (value, format index, format string or null) and the A1 address of (row, column). */
  datatype Renderer = Renderer(formatRawCellContents: (real, int, Option<string>) -> string,
                               cellAddressA1: (int, int) -> string)

  /** A freshly allocated row array: every slot blank. */
  function EmptyRow(width: nat): (r: RowCells)
    ensures |r| == width && forall i :: 0 <= i < width ==> r[i] == None
  {
    seq(width, _ => None)
  }

  /** Map.get: the value for a key, or None (null) when the key is absent. */
  function Lookup<K, V>(m: map<K, V>, k: K): (r: Option<V>)
    ensures r.Some? <==> k in m
    ensures k in m ==> r.value == m[k]
  {
    if k in m then Some(m[k]) else None
  }
}
