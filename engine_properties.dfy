/** What the record-dispatch state machine guarantees, record kind by record kind and over
    whole record streams. */
module EngineProperties {
  import opened BiffRecords
  import opened EngineSpec

  /** Sheet indices recorded in sheetMap and in the cache are discovery indices of sheetList. */
  ghost predicate WellFormed(st: EngineState)
  {
    && (forall k :: k in st.sheetMap ==> 0 <= k < |st.sheetList|)
    && (forall k :: k in st.cache ==> 0 <= k < |st.sheetList|)
  }

  /** st' is st after more records: the name list, the XF list and the row lists only grow, an
      inclusion decision once taken stays, a row keeps the width it was created with, format
      codes are never forgotten and the sheet cursor never goes back. */
  ghost predicate Grows(st: EngineState, st': EngineState)
  {
    && st.sheetList <= st'.sheetList
    && st.xfList <= st'.xfList
    && st.formatMap.Keys <= st'.formatMap.Keys
    && (forall k :: k in st.sheetMap ==> k in st'.sheetMap && st'.sheetMap[k] == st.sheetMap[k])
    && (forall s :: s in st.cache ==> s in st'.cache && |st.cache[s]| <= |st'.cache[s]|)
    && (forall s, i :: s in st.cache && 0 <= i < |st.cache[s]| ==> |st'.cache[s][i]| == |st.cache[s][i]|)
    && st.currentSheet <= st'.currentSheet
  }

  lemma GrowsTransitive(a: EngineState, b: EngineState, c: EngineState)
    requires Grows(a, b) && Grows(b, c)
    ensures Grows(a, c)
  {
    forall s, i | s in a.cache && 0 <= i < |a.cache[s]|
      ensures |c.cache[s][i]| == |a.cache[s][i]|
    {
      assert |b.cache[s][i]| == |a.cache[s][i]|;
    }
  }

  /** The cache has the same sheets, each with the same number of rows of the same widths. */
  ghost predicate SameShape(c: map<int, seq<RowCells>>, c': map<int, seq<RowCells>>)
  {
    && c'.Keys == c.Keys
    && (forall s :: s in c ==> |c'[s]| == |c[s]|)
    && (forall s, i :: s in c && 0 <= i < |c[s]| ==> |c'[s][i]| == |c[s][i]|)
  }

  lemma SlotWrittenSameShape(c: map<int, seq<RowCells>>, c': map<int, seq<RowCells>>, s: int, row: int, col: int, cell: Cell)
    requires SlotWritten(c, c', s, row, col, cell)
    ensures SameShape(c, c')
  {
    forall t, i | t in c && 0 <= i < |c[t]|
      ensures |c'[t][i]| == |c[t][i]|
    {
      if t == s && i == row {
      } else if t == s {
        assert c'[s][i] == c[s][i];
      } else {
        assert c'[t] == c[t];
      }
    }
  }

  /** Cell records (and the table records) never add, drop or resize a row, and touch nothing
      but the cache and the pending formula slot. */
  lemma CellRecordKeepsShape(env: Env, st: EngineState, r: Record)
    requires !r.BoundSheet? && !r.Row?
    ensures
      var st' := Step(env, st, r).st;
      && SameShape(st.cache, st'.cache)
      && st'.sheetList == st.sheetList && st'.sheetMap == st.sheetMap
      && st.xfList <= st'.xfList && st.formatMap.Keys <= st'.formatMap.Keys
      && st'.currentSheet == st.currentSheet && st'.currentRowNum == st.currentRowNum
  {
    var res := Step(env, st, r);
    var s := st.currentSheet - 1;
    match r
    case Formula(row, col, xf, value, hasString) =>
      if SheetIncluded(st) == Some(true) && !hasString && res.thrown.None? && res.st != st {
        var fi := st.xfList[xf];
        SlotWrittenSameShape(st.cache, res.st.cache, s, row, col,
          NewCell(env, st, row, col, env.renderer.formatRawCellContents(value, fi, Lookup(st.formatMap, fi))));
      }
    case Number(row, col, xf, value) =>
      if SheetIncluded(st) == Some(true) && res.thrown.None? && res.st != st {
        var fi := st.xfList[xf];
        SlotWrittenSameShape(st.cache, res.st.cache, s, row, col,
          NewCell(env, st, row, col, env.renderer.formatRawCellContents(value, fi, Lookup(st.formatMap, fi))));
      }
    case StringRec(text) =>
      if SheetIncluded(st) == Some(true) && res.thrown.None? {
        SlotWrittenSameShape(st.cache, res.st.cache, s, st.cachedRowNum, st.cachedColumnNum,
          NewCell(env, st, st.cachedRowNum, st.cachedColumnNum, text));
      }
    case LabelSST(row, col, idx) =>
      if SheetIncluded(st) == Some(true) && res.thrown.None? && res.st != st {
        var strings := st.sst.value.strings;
        SlotWrittenSameShape(st.cache, res.st.cache, s, row, col, NewCell(env, st, row, col, strings[idx]));
      }
    case _ =>
  }

  lemma SameShapeGrows(st: EngineState, st': EngineState)
    requires SameShape(st.cache, st'.cache)
    requires st'.sheetList == st.sheetList && st'.sheetMap == st.sheetMap
    requires st.xfList <= st'.xfList && st.formatMap.Keys <= st'.formatMap.Keys
    requires st'.currentSheet == st.currentSheet
    ensures Grows(st, st') && (WellFormed(st) ==> WellFormed(st'))
  {
  }

  lemma RowCursorGrows(st: EngineState, rowNumber: int)
    requires WellFormed(st)
    ensures var st1 := RowCursor(st, rowNumber);
      && WellFormed(st1) && Grows(st, st1)
      && st1.cache == st.cache && st1.sheetList == st.sheetList && st1.sheetMap == st.sheetMap
  {
  }

  lemma AppendRowGrows(st: EngineState, st': EngineState, s: int, row: RowCells)
    requires WellFormed(st) && s in st.cache
    requires st' == st.(cache := st.cache[s := st.cache[s] + [row]], currentRowNum := st'.currentRowNum, currentCellNum := st'.currentCellNum)
    ensures WellFormed(st') && Grows(st, st')
  {
    forall t, i | t in st.cache && 0 <= i < |st.cache[t]|
      ensures |st'.cache[t][i]| == |st.cache[t][i]|
    {
      if t == s {
        assert st'.cache[t][i] == st.cache[t][i];
      }
    }
  }

  lemma RowGrows(st: EngineState, rowNumber: int, lastCol: int)
    requires WellFormed(st)
    ensures WellFormed(RowStep(st, rowNumber, lastCol).st) && Grows(st, RowStep(st, rowNumber, lastCol).st)
  {
    var st1 := RowCursor(st, rowNumber);
    var st' := RowStep(st, rowNumber, lastCol).st;
    RowCursorGrows(st, rowNumber);
    var s := st1.currentSheet - 1;
    if s in st1.sheetMap && st1.sheetMap[s] && lastCol >= 0 && s in st1.cache {
      AppendRowGrows(st1, st', s, EmptyRow(lastCol));
    } else {
      assert st'.cache == st1.cache && st'.sheetList == st1.sheetList && st'.sheetMap == st1.sheetMap;
      assert Grows(st1, st');
    }
    GrowsTransitive(st, st1, st');
  }

  /** A single record keeps the state well formed and only makes it grow, whether or not it
      throws. */
  lemma StepGrows(env: Env, st: EngineState, r: Record)
    requires WellFormed(st)
    ensures WellFormed(Step(env, st, r).st) && Grows(st, Step(env, st, r).st)
  {
    match r
    case BoundSheet(name) =>
      DiscoverOne(env, st, name);
    case Row(rowNumber, lastCol) =>
      RowGrows(st, rowNumber, lastCol);
    case _ =>
      CellRecordKeepsShape(env, st, r);
      SameShapeGrows(st, Step(env, st, r).st);
  }

  /** Over a whole record stream, also when it ends in an exception: discovered sheets, their
      inclusion decision, their rows and the rows' widths, and the style tables are never lost. */
  lemma {:induction false} RunGrows(env: Env, st: EngineState, rs: seq<Record>)
    requires WellFormed(st)
    ensures WellFormed(Run(env, st, rs).st) && Grows(st, Run(env, st, rs).st)
    decreases |rs|
  {
    if rs != [] {
      var prev := Run(env, st, rs[..|rs| - 1]);
      RunGrows(env, st, rs[..|rs| - 1]);
      if prev.thrown.None? {
        StepGrows(env, prev.st, rs[|rs| - 1]);
        GrowsTransitive(st, prev.st, Run(env, st, rs).st);
      }
    }
  }

  /** Run of a stream with one more record at the end. */
  lemma RunSnoc(env: Env, st: EngineState, rs: seq<Record>, r: Record)
    ensures Run(env, st, rs + [r]) ==
      var prev := Run(env, st, rs);
      if prev.thrown.Some? then prev else Step(env, prev.st, r)
  {
    assert (rs + [r])[..|rs|] == rs;
  }

  /** The first exception ends the stream: records after it are never processed. */
  lemma {:induction false} RunStopsAtThrow(env: Env, st: EngineState, rs: seq<Record>, i: nat)
    requires i <= |rs| && Run(env, st, rs[..i]).thrown.Some?
    ensures Run(env, st, rs) == Run(env, st, rs[..i])
    decreases |rs|
  {
    if i < |rs| {
      var init := rs[..|rs| - 1];
      assert init[..i] == rs[..i];
      RunStopsAtThrow(env, st, init, i);
    } else {
      assert rs[..i] == rs;
    }
  }

  /** One more record after a stream that ran through: either it runs through as well and the
      longer prefix ends where the step does, or it throws and the whole stream ends there. */
  lemma RunExtends(env: Env, st: EngineState, rs: seq<Record>, i: nat, s: EngineState)
    requires i < |rs| && Run(env, st, rs[..i]) == Normal(s)
    ensures var res := Step(env, s, rs[i]);
      && (res.thrown.None? ==> Run(env, st, rs[..i + 1]) == Normal(res.st))
      && (res.thrown.Some? ==> Run(env, st, rs) == res)
  {
    RunSnoc(env, st, rs[..i], rs[i]);
    assert rs[..i + 1] == rs[..i] + [rs[i]];
    if Step(env, s, rs[i]).thrown.Some? {
      RunStopsAtThrow(env, st, rs, i + 1);
    }
  }

  /** The BoundSheet records for a list of sheet names, in order. */
  function BoundSheets(names: seq<string>): (rs: seq<Record>)
    ensures |rs| == |names| && forall j :: 0 <= j < |names| ==> rs[j] == BoundSheet(names[j])
  {
    seq(|names|, j requires 0 <= j < |names| => BoundSheet(names[j]))
  }

  /** One BoundSheet record: the name is appended, it gets the next discovery index, the
      sheet is included exactly when Included says so, an empty row list is opened for it only
      when included, and nothing else changes. */
  lemma DiscoverOne(env: Env, st: EngineState, name: string)
    requires WellFormed(st)
    ensures
      var res := Step(env, st, BoundSheet(name));
      var n := |st.sheetList|;
      && res.thrown.None? && WellFormed(res.st) && Grows(st, res.st)
      && n !in st.sheetMap && n !in st.cache
      && res.st.sheetList == st.sheetList + [name]
      && res.st.sheetMap == st.sheetMap[n := Included(env, name)]
      && res.st.cache == (if Included(env, name) then st.cache[n := []] else st.cache)
      && res.st.(sheetList := st.sheetList, sheetMap := st.sheetMap, sheetSizeMap := st.sheetSizeMap, cache := st.cache) == st
  {
    var n := |st.sheetList|;
    assert n !in st.sheetMap && n !in st.cache;
  }

  /** st' is st after discovering the sheets names: they are appended in order; sheet
      |sheetList| + j is included exactly when Included says so; an empty row list is opened
      for the included ones only; nothing else changes. */
  ghost predicate Discovered(env: Env, st: EngineState, names: seq<string>, st': EngineState)
  {
    && st'.sheetList == st.sheetList + names
    && DiscoveredFlags(env, st, names, st'.sheetMap)
    && DiscoveredCache(env, st, names, st'.cache)
    && st'.(sheetList := st.sheetList, sheetMap := st.sheetMap, sheetSizeMap := st.sheetSizeMap, cache := st.cache) == st
  }

  ghost predicate DiscoveredFlags(env: Env, st: EngineState, names: seq<string>, sheetMap: map<int, bool>)
  {
    var n := |st.sheetList|;
    && (forall k :: k in sheetMap <==> k in st.sheetMap || n <= k < n + |names|)
    && (forall k :: k in st.sheetMap ==> sheetMap[k] == st.sheetMap[k])
    && (forall j :: 0 <= j < |names| ==> sheetMap[n + j] == Included(env, names[j]))
  }

  ghost predicate DiscoveredCache(env: Env, st: EngineState, names: seq<string>, cache: map<int, seq<RowCells>>)
  {
    var n := |st.sheetList|;
    && (forall k :: k in cache <==> k in st.cache || (n <= k < n + |names| && Included(env, names[k - n])))
    && (forall k :: k in st.cache ==> cache[k] == st.cache[k])
    && (forall k :: k in cache && k !in st.cache ==> cache[k] == [])
  }

  lemma DiscoveredFlagsSnoc(env: Env, st: EngineState, init: seq<string>, last: string, prev: map<int, bool>)
    requires WellFormed(st) && DiscoveredFlags(env, st, init, prev)
    requires |st.sheetList| + |init| !in prev
    ensures DiscoveredFlags(env, st, init + [last], prev[|st.sheetList| + |init| := Included(env, last)])
  {
    var names := init + [last];
    var n := |st.sheetList|;
    var next := prev[n + |init| := Included(env, last)];
    forall j | 0 <= j < |names|
      ensures next[n + j] == Included(env, names[j])
    {
      if j < |init| {
        assert names[j] == init[j];
      }
    }
  }

  lemma DiscoveredCacheSnoc(env: Env, st: EngineState, init: seq<string>, last: string, prev: map<int, seq<RowCells>>)
    requires WellFormed(st) && DiscoveredCache(env, st, init, prev)
    requires |st.sheetList| + |init| !in prev
    ensures DiscoveredCache(env, st, init + [last],
      if Included(env, last) then prev[|st.sheetList| + |init| := []] else prev)
  {
    var names := init + [last];
    var n := |st.sheetList|;
    var next := if Included(env, last) then prev[n + |init| := []] else prev;
    forall k | k in next
      ensures k in st.cache || (n <= k < n + |names| && Included(env, names[k - n]))
    {
      if k !in prev {
        assert k == n + |init|;
      } else if k !in st.cache {
        assert names[k - n] == init[k - n];
      }
    }
    forall k | n <= k < n + |names| && Included(env, names[k - n])
      ensures k in next
    {
      if k < n + |init| {
        assert names[k - n] == init[k - n];
      }
    }
    forall k | k in st.cache
      ensures next[k] == st.cache[k]
    {
      assert k < n;
    }
  }

  /** Sheet discovery over a whole list of BoundSheet records (see Discovered). */
  lemma {:induction false} DiscoverSheets(env: Env, st: EngineState, names: seq<string>)
    requires WellFormed(st)
    ensures
      var res := Run(env, st, BoundSheets(names));
      res.thrown.None? && WellFormed(res.st) && Discovered(env, st, names, res.st)
    decreases |names|
  {
    if names != [] {
      var init := names[..|names| - 1];
      var last := names[|names| - 1];
      assert BoundSheets(names)[..|names| - 1] == BoundSheets(init);
      assert names == init + [last];
      DiscoverSheets(env, st, init);
      var prev := Run(env, st, BoundSheets(init)).st;
      DiscoverOne(env, prev, last);
      assert |prev.sheetList| == |st.sheetList| + |init|;
      DiscoveredFlagsSnoc(env, st, init, last, prev.sheetMap);
      DiscoveredCacheSnoc(env, st, init, last, prev.cache);
    } else {
      assert Discovered(env, st, names, st);
    }
  }

  /** A second parse on the same parser object: the new listener starts with no sheet flags
      while the name list and cache keep the earlier sheets, so the sheets it discovers get
      indices from |names| on and the first Row record, which looks up the flag of sheet 0,
      raises a NullPointerException. */
  lemma {:induction false} SecondParseFailsAtFirstRow(env: Env, names: seq<string>, cache: map<int, seq<RowCells>>,
                                                      again: seq<string>, lastCol: int)
    requires |names| > 0 && WellFormed(Initial(names, cache))
    ensures Run(env, Initial(names, cache), BoundSheets(again) + [Row(0, lastCol)]).thrown == Some(NullPointer)
  {
    var st := Initial(names, cache);
    DiscoverSheets(env, st, again);
    RunSnoc(env, st, BoundSheets(again), Row(0, lastCol));
    var mid := Run(env, st, BoundSheets(again)).st;
    assert mid.currentSheet == 0;
    assert 0 !in mid.sheetMap;
  }

  /** XF records are appended to the style list in arrival order. */
  lemma {:induction false} StyleIndicesInArrivalOrder(env: Env, st: EngineState, formatIndexes: seq<int>)
    ensures
      var res := Run(env, st, seq(|formatIndexes|, j requires 0 <= j < |formatIndexes| => ExtendedFormat(formatIndexes[j])));
      res.thrown.None? && res.st == st.(xfList := st.xfList + formatIndexes)
    decreases |formatIndexes|
  {
    var rs := seq(|formatIndexes|, j requires 0 <= j < |formatIndexes| => ExtendedFormat(formatIndexes[j]));
    if formatIndexes != [] {
      var n := |formatIndexes|;
      var init := formatIndexes[..n - 1];
      var initRs := seq(|init|, j requires 0 <= j < |init| => ExtendedFormat(init[j]));
      assert rs == initRs + [ExtendedFormat(formatIndexes[n - 1])];
      StyleIndicesInArrivalOrder(env, st, init);
      RunSnoc(env, st, initRs, ExtendedFormat(formatIndexes[n - 1]));
      var mid := st.(xfList := st.xfList + init);
      assert Run(env, st, initRs) == Normal(mid);
      assert Step(env, mid, ExtendedFormat(formatIndexes[n - 1])) == Normal(mid.(xfList := mid.xfList + [formatIndexes[n - 1]]));
      assert (st.xfList + init) + [formatIndexes[n - 1]] == st.xfList + formatIndexes;
    }
  }

  /** A Format record for a code already defined replaces its format string; the later
      definition is the one numbers are rendered with. */
  lemma LaterFormatWins(env: Env, st: EngineState, code: int, first: string, second: string)
    ensures
      var res := Run(env, st, [Format(code, first), Format(code, second)]);
      res.thrown.None? && Lookup(res.st.formatMap, code) == Some(second)
  {
    var one := [Format(code, first)];
    var st1 := st.(formatMap := st.formatMap[code := first]);
    assert Run(env, st, one) == Normal(st1) by {
      assert [] + one == one;
      RunSnoc(env, st, [], Format(code, first));
    }
    assert one + [Format(code, second)] == [Format(code, first), Format(code, second)];
    RunSnoc(env, st, one, Format(code, second));
    assert st1.formatMap[code := second][code] == second;
  }

  /** Running a + b is running a, then (unless a threw) running b from where a left off. */
  lemma {:induction false} RunAppend(env: Env, st: EngineState, a: seq<Record>, b: seq<Record>)
    ensures Run(env, st, a + b) ==
      var prev := Run(env, st, a);
      if prev.thrown.Some? then prev else Run(env, prev.st, b)
    decreases |b|
  {
    if b == [] {
      assert a + b == a;
    } else {
      var init := b[..|b| - 1];
      var last := b[|b| - 1];
      assert a + b == (a + init) + [last];
      assert b == init + [last];
      RunAppend(env, st, a, init);
      RunSnoc(env, st, a + init, last);
      var prev := Run(env, st, a);
      if prev.thrown.None? {
        RunSnoc(env, prev.st, init, last);
      }
    }
  }

  /** Records other than a Format record for code keep code's format string (or its absence),
      also when the stream ends in an exception. */
  lemma {:induction false} FormatSurvives(env: Env, st: EngineState, rs: seq<Record>, code: int)
    requires forall i :: 0 <= i < |rs| && rs[i].Format? ==> rs[i].indexCode != code
    ensures Lookup(Run(env, st, rs).st.formatMap, code) == Lookup(st.formatMap, code)
    decreases |rs|
  {
    if rs != [] {
      var init := rs[..|rs| - 1];
      FormatSurvives(env, st, init, code);
    }
  }

  /** Only BoundSheet records add sheet names: a stream without one leaves the name list as it
      was, whether or not it ends in an exception. */
  lemma {:induction false} NamesOnlyFromBoundSheets(env: Env, st: EngineState, rs: seq<Record>)
    requires forall i :: 0 <= i < |rs| ==> !rs[i].BoundSheet?
    ensures Run(env, st, rs).st.sheetList == st.sheetList
    decreases |rs|
  {
    if rs != [] {
      NamesOnlyFromBoundSheets(env, st, rs[..|rs| - 1]);
    }
  }

  /** Over a whole stream, the last Format record for a code wins: once the records before it
      have gone through without an exception, every later record leaves its format string in
      place. */
  lemma LastFormatWins(env: Env, st: EngineState, before: seq<Record>, code: int, fmt: string, after: seq<Record>)
    requires forall i :: 0 <= i < |after| && after[i].Format? ==> after[i].indexCode != code
    ensures
      var res := Run(env, st, before + [Format(code, fmt)] + after);
      Run(env, st, before).thrown.None? ==> Lookup(res.st.formatMap, code) == Some(fmt)
  {
    var prev := Run(env, st, before);
    if prev.thrown.None? {
      RunSnoc(env, st, before, Format(code, fmt));
      var mid := Run(env, st, before + [Format(code, fmt)]);
      RunAppend(env, st, before + [Format(code, fmt)], after);
      FormatSurvives(env, mid.st, after, code);
    }
  }

  /** A record with row number 0 moves the sheet cursor forward by exactly one and resets the
      counters; only a sheet after the first gets its cell count recorded. */
  lemma RowZeroStartsNextSheet(env: Env, st: EngineState, lastCol: int)
    requires st.currentSheet >= 0
    ensures
      var res := Step(env, st, Row(0, lastCol));
      && res.st.currentSheet == st.currentSheet + 1
      && res.st.sheetSizeMap == (if st.currentSheet > 0 then st.sheetSizeMap[st.currentSheet - 1 := st.currentCellNum] else st.sheetSizeMap)
      && (res.thrown.None? ==> res.st.currentRowNum == 1 && res.st.currentCellNum == lastCol)
      && (res.thrown.Some? ==> res.st.currentRowNum == 0 && res.st.currentCellNum == 0)
  {
  }

  /** Any row record, including the row-0 record that opens a sheet: after the cursor step
      (a row numbered 0 moves to the next sheet), the current sheet s must be flagged, and if
      included have a row list and a non-negative width. Then exactly one blank row of lastCol
      slots is appended to an included sheet, no other list changes, an excluded sheet's cache
      is untouched, and the row is counted with its cells. On a throw the cursor step stays. */
  lemma RowAppendsOneBlankRow(env: Env, st: EngineState, rowNumber: int, lastCol: int)
    ensures
      var res := Step(env, st, Row(rowNumber, lastCol));
      var starts := rowNumber == 0 && st.currentSheet >= 0;
      var sheet := if starts then st.currentSheet + 1 else st.currentSheet;
      var rowsBefore := if starts then 0 else st.currentRowNum;
      var cellsBefore := if starts then 0 else st.currentCellNum;
      var s := sheet - 1;
      && res.st.currentSheet == sheet
      && (res.thrown.None? <==> s in st.sheetMap && (st.sheetMap[s] ==> lastCol >= 0 && s in st.cache))
      && (res.thrown.Some? ==> res.st.cache == st.cache && res.st.currentRowNum == rowsBefore && res.st.currentCellNum == cellsBefore)
      && (res.thrown.None? ==>
            && res.st.currentRowNum == rowsBefore + 1
            && res.st.currentCellNum == cellsBefore + lastCol
            && res.st.cache.Keys == st.cache.Keys
            && (forall t :: t in st.cache && t != s ==> res.st.cache[t] == st.cache[t])
            && (st.sheetMap[s] ==> res.st.cache[s] == st.cache[s] + [EmptyRow(lastCol)])
            && (!st.sheetMap[s] ==> res.st.cache == st.cache))
  {
    var st1 := RowCursor(st, rowNumber);
    var starts := rowNumber == 0 && st.currentSheet >= 0;
    assert st1.cache == st.cache && st1.sheetMap == st.sheetMap;
    assert st1.currentSheet == if starts then st.currentSheet + 1 else st.currentSheet;
    assert st1.currentRowNum == if starts then 0 else st.currentRowNum;
    assert st1.currentCellNum == if starts then 0 else st.currentCellNum;
    AppendAfterCursor(st, rowNumber, lastCol);
  }

  /** The part of a row record after the cursor step, over the state that step leaves. */
  lemma AppendAfterCursor(st: EngineState, rowNumber: int, lastCol: int)
    ensures
      var st1 := RowCursor(st, rowNumber);
      var s := st1.currentSheet - 1;
      var res := RowStep(st, rowNumber, lastCol);
      && res.st.currentSheet == st1.currentSheet
      && (res.thrown.None? <==> s in st1.sheetMap && (st1.sheetMap[s] ==> lastCol >= 0 && s in st1.cache))
      && (res.thrown.Some? ==> res.st == st1)
      && (res.thrown.None? ==>
            && res.st.currentRowNum == st1.currentRowNum + 1
            && res.st.currentCellNum == st1.currentCellNum + lastCol
            && res.st.cache.Keys == st1.cache.Keys
            && (forall t :: t in st1.cache && t != s ==> res.st.cache[t] == st1.cache[t])
            && (st1.sheetMap[s] ==> res.st.cache[s] == st1.cache[s] + [EmptyRow(lastCol)])
            && (!st1.sheetMap[s] ==> res.st.cache == st1.cache))
  {
  }

  /** The records that carry cell values. */
  predicate IsCellRecord(r: Record)
  {
    r.Formula? || r.StringRec? || r.Number? || r.LabelSST?
  }

  /** While the current sheet is excluded, any number of cell records (mixed with table
      records) raise nothing and leave the cache, every row array and the pending formula
      slot as they were. */
  lemma {:induction false} ExcludedSheetUntouched(env: Env, st: EngineState, rs: seq<Record>)
    requires SheetIncluded(st) == Some(false)
    requires forall i :: 0 <= i < |rs| ==> !rs[i].BoundSheet? && !rs[i].Row?
    ensures
      var res := Run(env, st, rs);
      && res.thrown.None?
      && res.st.cache == st.cache
      && res.st.readCachedFormulaResult == st.readCachedFormulaResult
      && res.st.cachedRowNum == st.cachedRowNum && res.st.cachedColumnNum == st.cachedColumnNum
      && res.st.sheetList == st.sheetList && res.st.sheetMap == st.sheetMap
      && res.st.currentSheet == st.currentSheet && res.st.currentRowNum == st.currentRowNum
    decreases |rs|
  {
    if rs != [] {
      ExcludedSheetUntouched(env, st, rs[..|rs| - 1]);
      var prev := Run(env, st, rs[..|rs| - 1]);
      ExcludedStep(env, prev.st, rs[|rs| - 1]);
    }
  }

  /** One step of ExcludedSheetUntouched. */
  lemma ExcludedStep(env: Env, st: EngineState, r: Record)
    requires SheetIncluded(st) == Some(false) && !r.BoundSheet? && !r.Row?
    ensures
      var res := Step(env, st, r);
      && res.thrown.None?
      && res.st.cache == st.cache
      && res.st.readCachedFormulaResult == st.readCachedFormulaResult
      && res.st.cachedRowNum == st.cachedRowNum && res.st.cachedColumnNum == st.cachedColumnNum
      && res.st.sheetList == st.sheetList && res.st.sheetMap == st.sheetMap
      && res.st.currentSheet == st.currentSheet && res.st.currentRowNum == st.currentRowNum
  {
  }

  /** Number records, and Formula records with a numeric result, on an included sheet: a
      column at or past the width of the last appended row is dropped silently; otherwise the
      style is resolved through the XF list and the format map and exactly slot [row][col] of
      the current sheet receives the rendered value with an empty comment and formula. */
  lemma NumberCellWrite(env: Env, st: EngineState, row: int, col: int, xf: int, value: real, viaFormula: bool)
    requires SheetIncluded(st) == Some(true)
    requires st.currentSheet - 1 in st.cache && 1 <= st.currentRowNum <= |st.cache[st.currentSheet - 1]|
    ensures
      var r := if viaFormula then Formula(row, col, xf, value, false) else Number(row, col, xf, value);
      var res := Step(env, st, r);
      var s := st.currentSheet - 1;
      && (col >= |st.cache[s][st.currentRowNum - 1]| ==> res == Normal(st))
      && (col < |st.cache[s][st.currentRowNum - 1]| && !(0 <= xf < |st.xfList|) ==> res == Throw(st, IndexOutOfBounds))
      && (col < |st.cache[s][st.currentRowNum - 1]| && 0 <= xf < |st.xfList| && 0 <= s < |st.sheetList|
          && 0 <= row < |st.cache[s]| && 0 <= col < |st.cache[s][row]| ==>
            && res.thrown.None?
            && res.st == st.(cache := res.st.cache)
            && var text := env.renderer.formatRawCellContents(value, st.xfList[xf], Lookup(st.formatMap, st.xfList[xf]));
            && SlotWritten(st.cache, res.st.cache, s, row, col, Cell(text, "", "", env.renderer.cellAddressA1(row, col), st.sheetList[s])))
  {
  }

  /** A cell's row number is used as a position in the sheet's row list, which holds one entry
      per Row record received, not one per row number: on a sheet whose rows are not contiguous
      from 0, a cell of a later row lands past the list and raises. */
  lemma SparseRowNumberFails(env: Env, st: EngineState, row: int, col: int, xf: int, value: real)
    requires SheetIncluded(st) == Some(true)
    requires var s := st.currentSheet - 1;
      && s in st.cache && 1 <= st.currentRowNum <= |st.cache[s]|
      && 0 <= col < |st.cache[s][st.currentRowNum - 1]| && 0 <= xf < |st.xfList|
      && row >= |st.cache[s]|
    ensures Step(env, st, Number(row, col, xf, value)) == Throw(st, IndexOutOfBounds)
  {
  }

  /** A Formula record whose result is a string writes nothing, but makes (row, col) the pending
      position, replacing any earlier one; the String record that follows writes its literal
      there (empty comment, empty formula) and clears the flag. */
  lemma FormulaStringResult(env: Env, st: EngineState, row: int, col: int, xf: int, value: real, text: string)
    requires SheetIncluded(st) == Some(true)
    ensures
      var mid := Step(env, st, Formula(row, col, xf, value, true));
      var fin := Step(env, mid.st, StringRec(text));
      var s := st.currentSheet - 1;
      && mid == Normal(st.(readCachedFormulaResult := true, cachedRowNum := row, cachedColumnNum := col))
      && (fin.thrown.None? <==> s in st.cache && 0 <= row < |st.cache[s]| && 0 <= s < |st.sheetList| && 0 <= col < |st.cache[s][row]|)
      && (fin.thrown.None? ==>
            && !fin.st.readCachedFormulaResult
            && SlotWritten(st.cache, fin.st.cache, s, row, col, Cell(text, "", "", env.renderer.cellAddressA1(row, col), st.sheetList[s])))
  {
    var mid := Step(env, st, Formula(row, col, xf, value, true));
    assert SheetIncluded(mid.st) == Some(true);
  }

  /** The pending flag is never consulted: a String record with nothing pending still writes at
      the last stored position (initially (0, 0)). */
  lemma StringWithoutPendingFormula(env: Env, st: EngineState, text: string)
    requires SheetIncluded(st) == Some(true) && !st.readCachedFormulaResult
    requires var s := st.currentSheet - 1;
      s in st.cache && 0 <= st.cachedRowNum < |st.cache[s]| && 0 <= s < |st.sheetList|
      && 0 <= st.cachedColumnNum < |st.cache[s][st.cachedRowNum]|
    ensures
      var res := Step(env, st, StringRec(text));
      var s := st.currentSheet - 1;
      && res.thrown.None?
      && SlotWritten(st.cache, res.st.cache, s, st.cachedRowNum, st.cachedColumnNum,
           Cell(text, "", "", env.renderer.cellAddressA1(st.cachedRowNum, st.cachedColumnNum), st.sheetList[s]))
  {
  }

  /** A LabelSST record whose index is negative or not below the table's declared count is
      dropped: nothing changes and nothing is raised, so the other cells of the row stay. */
  lemma LabelSSTOutOfRangeDropped(env: Env, st: EngineState, row: int, col: int, idx: int)
    requires SheetIncluded(st) == Some(true)
    requires var s := st.currentSheet - 1; s in st.cache && 0 <= row < |st.cache[s]| && col < |st.cache[s][row]|
    requires idx < 0 || (st.sst.Some? && idx >= st.sst.value.numUniqueStrings)
    ensures Step(env, st, LabelSST(row, col, idx)) == Normal(st)
  {
  }

  /** A LabelSST record whose column is within its own row's width and whose index is in range
      writes the table's string at that index into exactly slot [row][col]. */
  lemma LabelSSTWritesSharedString(env: Env, st: EngineState, row: int, col: int, idx: int)
    requires SheetIncluded(st) == Some(true)
    requires var s := st.currentSheet - 1;
      s in st.cache && 0 <= row < |st.cache[s]| && 0 <= col < |st.cache[s][row]| && 0 <= s < |st.sheetList|
    requires st.sst.Some? && 0 <= idx < st.sst.value.numUniqueStrings && idx < |st.sst.value.strings|
    ensures
      var res := Step(env, st, LabelSST(row, col, idx));
      var s := st.currentSheet - 1;
      && res.thrown.None?
      && res.st == st.(cache := res.st.cache)
      && SlotWritten(st.cache, res.st.cache, s, row, col,
           Cell(st.sst.value.strings[idx], "", "", env.renderer.cellAddressA1(row, col), st.sheetList[s]))
  {
  }

  /** A LabelSST record with a non-negative index before any SST record dereferences the
      missing table. */
  lemma LabelSSTBeforeTableFails(env: Env, st: EngineState, row: int, col: int, idx: int)
    requires SheetIncluded(st) == Some(true) && st.sst.None? && idx >= 0
    requires var s := st.currentSheet - 1; s in st.cache && 0 <= row < |st.cache[s]| && 0 <= col < |st.cache[s][row]|
    ensures Step(env, st, LabelSST(row, col, idx)) == Throw(st, NullPointer)
  {
  }

  /** A LabelSST record whose column is at or past the width of its own row is dropped; the
      error message then reads the last appended row, which raises when there is none. */
  lemma LabelSSTColumnOverflowDropped(env: Env, st: EngineState, row: int, col: int, idx: int)
    requires SheetIncluded(st) == Some(true)
    requires var s := st.currentSheet - 1; s in st.cache && 0 <= row < |st.cache[s]| && col >= |st.cache[s][row]|
    ensures
      var s := st.currentSheet - 1;
      Step(env, st, LabelSST(row, col, idx)) ==
        if 1 <= st.currentRowNum <= |st.cache[s]| then Normal(st) else Throw(st, IndexOutOfBounds)
  {
  }

  /** An SST record replaces the current table, and a LabelSST record after it reads from that
      table: an index below the declared count writes the table's string into exactly slot
      [row][col], or raises when the table holds fewer strings than its header declares. */
  lemma SSTThenLabelSST(env: Env, st: EngineState, table: SharedStrings, row: int, col: int, idx: int)
    requires SheetIncluded(st) == Some(true)
    requires var s := st.currentSheet - 1;
      s in st.cache && 0 <= row < |st.cache[s]| && 0 <= col < |st.cache[s][row]| && 0 <= s < |st.sheetList|
    requires 0 <= idx < table.numUniqueStrings
    ensures
      var res := Run(env, st, [SST(table), LabelSST(row, col, idx)]);
      var s := st.currentSheet - 1;
      && res.st.sst == Some(table)
      && (idx < |table.strings| ==>
            && res.thrown.None?
            && res.st == st.(sst := Some(table), cache := res.st.cache)
            && SlotWritten(st.cache, res.st.cache, s, row, col,
                 Cell(table.strings[idx], "", "", env.renderer.cellAddressA1(row, col), st.sheetList[s])))
      && (idx >= |table.strings| ==> res == Throw(st.(sst := Some(table)), IndexOutOfBounds))
  {
    var rs := [SST(table), LabelSST(row, col, idx)];
    assert rs[..1] == [SST(table)] && rs[..1][..0] == [];
    RunSnoc(env, st, [], SST(table));
    RunSnoc(env, st, [SST(table)], LabelSST(row, col, idx));
    var mid := st.(sst := Some(table));
    assert Run(env, st, [SST(table)]) == Normal(mid);
    assert SheetIncluded(mid) == Some(true);
  }
}
