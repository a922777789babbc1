/** The pull iterator of the outer parser (getNext) as a function over the cache and the two
    cursors, and what a sequence of calls hands out: each sheet's rows in list order, the
    sheet's entry evicted after its last row, and a failure once the cursor reaches a sheet
    index the cache has no entry for. */
module IteratorSpec {
  import opened BiffRecords

  /** The cache of row lists and the (sheet, row) cursor of the outer parser. */
  datatype Cursor = Cursor(cache: map<int, seq<RowCells>>, sheet: nat, row: nat)

  /** One getNext call: the exception it raises, or the row it returns (None for null) and
      the cursor after it. */
  datatype NextResult = Failed(e: Exception) | Returned(out: Option<RowCells>, after: Cursor)

  /** The row cursor never exceeds the current sheet's row count. */
  ghost predicate Bounded(c: Cursor)
  {
    c.sheet in c.cache ==> c.row <= |c.cache[c.sheet]|
  }

  /** getNext: hand out the row at the cursor if there is one; once the cursor reaches the
      sheet's row count, evict the sheet and move to the next one. */
  function Next(c: Cursor): (res: NextResult)
    ensures res.Failed? <==> c.sheet !in c.cache
    ensures res.Failed? ==> res.e == NullPointer
    ensures res.Returned? && c.row < |c.cache[c.sheet]| ==> res.out == Some(c.cache[c.sheet][c.row])
    ensures res.Returned? && c.row >= |c.cache[c.sheet]| ==> res.out == None
    ensures res.Returned? ==>
      var rows := c.cache[c.sheet];
      if c.row + 1 >= |rows| && c.row <= |rows| then
        res.after == Cursor(c.cache - {c.sheet}, c.sheet + 1, 0)
      else
        res.after.cache == c.cache && res.after.sheet == c.sheet
    ensures res.Returned? && Bounded(c) ==> Bounded(res.after)
  {
    if c.sheet !in c.cache then Failed(NullPointer)
    else
      var rows := c.cache[c.sheet];
      var out := if c.row < |rows| then Some(rows[c.row]) else None;
      var row' := if c.row < |rows| then c.row + 1 else c.row;
      if row' == |rows| then Returned(out, Cursor(c.cache - {c.sheet}, c.sheet + 1, 0))
      else Returned(out, Cursor(c.cache, c.sheet, row'))
  }

  /** getCurrentSheetName over the name list and the sheet cursor: the name at the cursor, or
      past the last sheet the last name; an empty list has no last element. */
  function SheetName(names: seq<string>, sheet: nat): Outcome<string>
  {
    if sheet >= |names| then
      if |names| == 0 then Raised(IndexOutOfBounds) else Ok(names[|names| - 1])
    else Ok(names[sheet])
  }

  /** The outcome of n successive getNext calls: what they returned, the cursor after them,
      and whether the last of them raised. */
  datatype Drain = Drain(outs: seq<Option<RowCells>>, end: Cursor, failed: bool)

  function Pull(c: Cursor, n: nat): Drain
    decreases n
  {
    if n == 0 then Drain([], c, false)
    else
      match Next(c)
      case Failed(_) => Drain([], c, true)
      case Returned(o, c') =>
        var d := Pull(c', n - 1);
        Drain([o] + d.outs, d.end, d.failed)
  }

  /** What draining one sheet returns: its rows in order, or a single null for an empty sheet. */
  function SheetOutput(rows: seq<RowCells>): (outs: seq<Option<RowCells>>)
  {
    if |rows| == 0 then [None] else seq(|rows|, i requires 0 <= i < |rows| => Some(rows[i]))
  }

  /** What draining the sheets first .. last - 1 returns, in sheet order. */
  function SheetsOutput(cache: map<int, seq<RowCells>>, first: nat, last: nat): seq<Option<RowCells>>
    requires forall j :: first <= j < last ==> j in cache
    decreases last
  {
    if last <= first then [] else SheetsOutput(cache, first, last - 1) + SheetOutput(cache[last - 1])
  }

  /** The cache with the entries of sheets first .. last - 1 removed. */
  function Evicted(cache: map<int, seq<RowCells>>, first: nat, last: nat): map<int, seq<RowCells>>
  {
    map j | j in cache && !(first <= j < last) :: cache[j]
  }

  /** Two runs of calls, one after the other, are one run of calls. */
  lemma {:induction false} PullAppend(c: Cursor, a: nat, b: nat)
    ensures
      var d1 := Pull(c, a);
      Pull(c, a + b) ==
        if d1.failed then d1
        else var d2 := Pull(d1.end, b); Drain(d1.outs + d2.outs, d2.end, d2.failed)
    decreases a
  {
    if a > 0 {
      match Next(c)
      case Failed(_) =>
      case Returned(o, c') =>
        PullAppend(c', a - 1, b);
        var d1 := Pull(c', a - 1);
        if !d1.failed {
          var d2 := Pull(d1.end, b);
          assert [o] + (d1.outs + d2.outs) == ([o] + d1.outs) + d2.outs;
        }
    }
  }

  /** From row r of a sheet with rows left, the remaining |rows| - r calls return exactly the
      remaining rows in order, and the last of them evicts the sheet and moves to the next. */
  lemma {:induction false} DrainRest(c: Cursor)
    requires c.sheet in c.cache && c.row < |c.cache[c.sheet]|
    ensures
      var rows := c.cache[c.sheet];
      Pull(c, |rows| - c.row) ==
        Drain(seq(|rows| - c.row, i requires 0 <= i < |rows| - c.row => Some(rows[c.row + i])),
              Cursor(c.cache - {c.sheet}, c.sheet + 1, 0), false)
    decreases |c.cache[c.sheet]| - c.row
  {
    var rows := c.cache[c.sheet];
    var n := |rows| - c.row;
    var expected := seq(n, i requires 0 <= i < n => Some(rows[c.row + i]));
    if c.row + 1 == |rows| {
      assert Pull(c, 1) == Drain([Some(rows[c.row])], Cursor(c.cache - {c.sheet}, c.sheet + 1, 0), false);
      assert expected == [Some(rows[c.row])];
    } else {
      var c' := Cursor(c.cache, c.sheet, c.row + 1);
      assert Next(c) == Returned(Some(rows[c.row]), c');
      DrainRest(c');
      var rest := seq(n - 1, i requires 0 <= i < n - 1 => Some(rows[c.row + 1 + i]));
      assert expected == [Some(rows[c.row])] + rest;
    }
  }

  /** Draining one sheet from its first row: as many calls as it has rows (one for an empty
      sheet) return SheetOutput and leave the cursor at the start of the next sheet, with this
      sheet's entry evicted. */
  lemma DrainSheet(c: Cursor)
    requires c.sheet in c.cache && c.row == 0
    ensures
      var rows := c.cache[c.sheet];
      Pull(c, |SheetOutput(rows)|) == Drain(SheetOutput(rows), Cursor(c.cache - {c.sheet}, c.sheet + 1, 0), false)
  {
    var rows := c.cache[c.sheet];
    if |rows| > 0 {
      DrainRest(c);
    }
  }

  /** Two failure-free runs of calls, the second starting where the first ends. */
  lemma ChainPulls(c: Cursor, a: nat, b: nat, outs1: seq<Option<RowCells>>, mid: Cursor, outs2: seq<Option<RowCells>>, end: Cursor)
    requires Pull(c, a) == Drain(outs1, mid, false) && Pull(mid, b) == Drain(outs2, end, false)
    ensures Pull(c, a + b) == Drain(outs1 + outs2, end, false)
  {
    PullAppend(c, a, b);
  }

  lemma EvictOneMore(cache: map<int, seq<RowCells>>, first: nat, last: nat)
    requires first < last && last - 1 in cache
    ensures last - 1 in Evicted(cache, first, last - 1)
    ensures Evicted(cache, first, last - 1)[last - 1] == cache[last - 1]
    ensures Evicted(cache, first, last - 1) - {last - 1} == Evicted(cache, first, last)
  {
  }

  /** Draining consecutive sheets that all have a cache entry: |SheetsOutput| calls return
      every row of those sheets, sheet by sheet and row by row (a null for each empty sheet),
      evict all of them, and leave the cursor at the start of sheet last. */
  lemma {:induction false} DrainSheets(cache: map<int, seq<RowCells>>, first: nat, last: nat)
    requires first <= last
    requires forall j :: first <= j < last ==> j in cache
    ensures
      Pull(Cursor(cache, first, 0), |SheetsOutput(cache, first, last)|) ==
        Drain(SheetsOutput(cache, first, last), Cursor(Evicted(cache, first, last), last, 0), false)
    decreases last - first
  {
    if first == last {
      assert Evicted(cache, first, last) == cache;
    } else {
      DrainSheets(cache, first, last - 1);
      var before := SheetsOutput(cache, first, last - 1);
      var mid := Cursor(Evicted(cache, first, last - 1), last - 1, 0);
      EvictOneMore(cache, first, last);
      DrainSheet(mid);
      var so := SheetOutput(cache[last - 1]);
      ChainPulls(Cursor(cache, first, 0), |before|, |so|, before, mid, so, Cursor(Evicted(cache, first, last), last, 0));
    }
  }

  /** The call after the last row of sheet last - 1, when sheet last has no cache entry (it was
      excluded, or there is no such sheet), raises a NullPointerException instead of signalling
      the end. */
  lemma DrainEndsInFailure(cache: map<int, seq<RowCells>>, first: nat, last: nat)
    requires first <= last
    requires forall j :: first <= j < last ==> j in cache
    requires last !in cache
    ensures
      var d := Pull(Cursor(cache, first, 0), |SheetsOutput(cache, first, last)| + 1);
      d.failed && d.outs == SheetsOutput(cache, first, last)
  {
    DrainSheets(cache, first, last);
    PullAppend(Cursor(cache, first, 0), |SheetsOutput(cache, first, last)|, 1);
    var end := Cursor(Evicted(cache, first, last), last, 0);
    assert Next(end) == Failed(NullPointer);
    assert SheetsOutput(cache, first, last) + [] == SheetsOutput(cache, first, last);
  }
}
