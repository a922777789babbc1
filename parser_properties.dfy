/** What a fresh low-footprint parser hands out after parsing a legacy workbook: the rows of
    the sheets in discovery order, up to the first sheet the allow-list excludes (or the end),
    followed by a NullPointerException rather than an end-of-data signal. */
module ParserProperties {
  import opened BiffRecords
  import opened EngineSpec
  import opened EngineProperties
  import opened IteratorSpec

  /** Every discovered sheet has an inclusion flag, the flag is the allow-list's verdict on the
      sheet's name, and exactly the included sheets have a cache entry. */
  ghost predicate Tracked(env: Env, st: EngineState)
  {
    && (forall k :: k in st.sheetMap <==> 0 <= k < |st.sheetList|)
    && (forall k :: k in st.sheetMap ==> st.sheetMap[k] == Included(env, st.sheetList[k]))
    && (forall k :: k in st.cache <==> k in st.sheetMap && st.sheetMap[k])
  }

  lemma TrackedWellFormed(env: Env, st: EngineState)
    requires Tracked(env, st)
    ensures WellFormed(st)
  {
  }

  lemma DiscoverTracked(env: Env, st: EngineState, name: string)
    requires Tracked(env, st)
    ensures Tracked(env, Step(env, st, BoundSheet(name)).st)
  {
    TrackedWellFormed(env, st);
    DiscoverOne(env, st, name);
    var st' := Step(env, st, BoundSheet(name)).st;
    forall k | k in st.sheetMap
      ensures st'.sheetList[k] == st.sheetList[k]
    {
    }
  }

  lemma RowTracked(env: Env, st: EngineState, rowNumber: int, lastCol: int)
    requires Tracked(env, st)
    ensures Tracked(env, Step(env, st, Row(rowNumber, lastCol)).st)
  {
    TrackedWellFormed(env, st);
    RowCursorGrows(st, rowNumber);
    var st' := Step(env, st, Row(rowNumber, lastCol)).st;
    assert st'.cache.Keys == st.cache.Keys;
  }

  lemma StepTracked(env: Env, st: EngineState, r: Record)
    requires Tracked(env, st)
    ensures Tracked(env, Step(env, st, r).st)
  {
    match r
    case BoundSheet(name) =>
      DiscoverTracked(env, st, name);
    case Row(rowNumber, lastCol) =>
      RowTracked(env, st, rowNumber, lastCol);
    case _ =>
      CellRecordKeepsShape(env, st, r);
  }

  /** The bookkeeping holds after any record stream, also one cut short by an exception. */
  lemma {:induction false} RunTracked(env: Env, st: EngineState, rs: seq<Record>)
    requires Tracked(env, st)
    ensures Tracked(env, Run(env, st, rs).st)
    decreases |rs|
  {
    if rs != [] {
      var prev := Run(env, st, rs[..|rs| - 1]);
      RunTracked(env, st, rs[..|rs| - 1]);
      if prev.thrown.None? {
        StepTracked(env, prev.st, rs[|rs| - 1]);
      }
    }
  }

  /** Parse, then drain: if the first k discovered sheets pass the allow-list and sheet k does
      not (or there is no sheet k), then |SheetsOutput| + 1 getNext calls from the start return
      the rows of sheets 0 .. k - 1 in order and the last call raises. This holds whether or
      not the record stream ended in an exception. */
  lemma ParseThenDrain(env: Env, rs: seq<Record>, k: nat)
    requires var st := Run(env, Initial([], map[]), rs).st;
      && k <= |st.sheetList|
      && (forall j :: 0 <= j < k ==> Included(env, st.sheetList[j]))
      && (k < |st.sheetList| ==> !Included(env, st.sheetList[k]))
    ensures var c := Run(env, Initial([], map[]), rs).st.cache;
      && (forall j :: 0 <= j < k ==> j in c)
      && var d := Pull(Cursor(c, 0, 0), |SheetsOutput(c, 0, k)| + 1);
      d.failed && d.outs == SheetsOutput(c, 0, k)
  {
    RunTracked(env, Initial([], map[]), rs);
    DrainTracked(env, Run(env, Initial([], map[]), rs).st, k);
  }

  /** The drain half of ParseThenDrain, for any state whose bookkeeping holds. */
  lemma DrainTracked(env: Env, st: EngineState, k: nat)
    requires Tracked(env, st) && k <= |st.sheetList|
    requires forall j :: 0 <= j < k ==> Included(env, st.sheetList[j])
    requires k < |st.sheetList| ==> !Included(env, st.sheetList[k])
    ensures forall j :: 0 <= j < k ==> j in st.cache
    ensures var d := Pull(Cursor(st.cache, 0, 0), |SheetsOutput(st.cache, 0, k)| + 1);
      d.failed && d.outs == SheetsOutput(st.cache, 0, k)
  {
    DrainEndsInFailure(st.cache, 0, k);
  }

  /** Without an allow-list every discovered sheet is read out, and the call after the last
      row of the last sheet raises instead of signalling the end. */
  lemma UnfilteredParseThenDrain(renderer: Renderer, rs: seq<Record>)
    ensures var st := Run(Env(None, renderer), Initial([], map[]), rs).st;
      var c := st.cache;
      && (forall j :: 0 <= j < |st.sheetList| ==> j in c)
      && var d := Pull(Cursor(c, 0, 0), |SheetsOutput(c, 0, |st.sheetList|)| + 1);
      d.failed && d.outs == SheetsOutput(c, 0, |st.sheetList|)
  {
    var st := Run(Env(None, renderer), Initial([], map[]), rs).st;
    ParseThenDrain(Env(None, renderer), rs, |st.sheetList|);
  }

  /** When the allow-list excludes sheet k while it admits every sheet before it, draining the
      first k sheets leaves the sheet cursor on k, so the current sheet name reported is the
      excluded sheet's, not that of the last sheet whose rows were handed out. */
  lemma DrainReportsExcludedSheetName(env: Env, rs: seq<Record>, k: nat)
    requires var st := Run(env, Initial([], map[]), rs).st;
      && k < |st.sheetList|
      && (forall j :: 0 <= j < k ==> Included(env, st.sheetList[j]))
      && !Included(env, st.sheetList[k])
    ensures var st := Run(env, Initial([], map[]), rs).st;
      var c := st.cache;
      && (forall j :: 0 <= j < k ==> j in c)
      && var d := Pull(Cursor(c, 0, 0), |SheetsOutput(c, 0, k)|);
      && !d.failed && d.end.sheet == k
      && SheetName(st.sheetList, d.end.sheet) == Ok(st.sheetList[k])
  {
    RunTracked(env, Initial([], map[]), rs);
    var c := Run(env, Initial([], map[]), rs).st.cache;
    DrainSheets(c, 0, k);
  }
}
