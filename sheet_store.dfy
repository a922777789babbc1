/** The two collections the outer parser and its event parser share: the ordered list of
    discovered sheet names (sheetNameList) and the cache from sheet index to that sheet's
    list of fixed-length row arrays (spreadSheetCellDAOCache). */
module SharedCache {
  import opened BiffRecords

  class SheetStore {
    var sheetNames: seq<string>
    var cache: map<int, seq<array<Option<Cell>>>>

    /** The contents of every cached row array. */
    ghost var Grid: map<int, seq<RowCells>>
    /** The (sheet, position) each row array is stored at; it makes distinct positions hold
        distinct arrays, so a write to one slot changes no other row. */
    ghost var owner: map<array<Option<Cell>>, (int, int)>

    /** The row arrays currently held by the cache. */
    ghost function Rows(): set<array<Option<Cell>>>
      reads this
    {
      set s, i | s in cache && 0 <= i < |cache[s]| :: cache[s][i]
    }

    ghost predicate Valid()
      reads this, Rows()
    {
      && Grid.Keys == cache.Keys
      && (forall s :: s in cache ==> |Grid[s]| == |cache[s]|)
      && (forall s, i :: s in cache && 0 <= i < |cache[s]| ==>
            && cache[s][i] in owner && owner[cache[s][i]] == (s, i)
            && Grid[s][i] == cache[s][i][..])
    }

    constructor ()
      ensures Valid() && sheetNames == [] && cache == map[] && Grid == map[]
    {
      sheetNames, cache := [], map[];
      Grid, owner := map[], map[];
    }

    /** sheetNameList.add(name) */
    method AddName(name: string)
      requires Valid()
      modifies this
      ensures Valid() && sheetNames == old(sheetNames) + [name]
      ensures cache == old(cache) && Grid == old(Grid)
    {
      sheetNames := sheetNames + [name];
    }

    /** cache.put(s, new ArrayList<>()) */
    method PutEmpty(s: int)
      requires Valid()
      modifies this
      ensures Valid() && sheetNames == old(sheetNames)
      ensures cache == old(cache)[s := []] && Grid == old(Grid)[s := []]
      ensures Rows() <= old(Rows())
    {
      cache := cache[s := []];
      Grid := Grid[s := []];
    }

    /** cache.get(s).add(new SpreadSheetCellDAO[width]) */
    method AppendRow(s: int, width: nat)
      requires Valid() && s in cache
      modifies this
      ensures Valid() && sheetNames == old(sheetNames)
      ensures Grid == old(Grid)[s := old(Grid)[s] + [EmptyRow(width)]]
      ensures fresh(Rows() - old(Rows()))
    {
      var a := new Option<Cell>[width](_ => None);
      assert a[..] == EmptyRow(width);
      var n := |cache[s]|;
      cache := cache[s := cache[s] + [a]];
      Grid := Grid[s := Grid[s] + [EmptyRow(width)]];
      owner := owner[a := (s, n)];
      forall t, i | t in cache && 0 <= i < |cache[t]|
        ensures cache[t][i] in owner && owner[cache[t][i]] == (t, i) && Grid[t][i] == cache[t][i][..]
      {
        if t != s || i != n {
          assert cache[t][i] == old(cache)[t][i];
        }
      }
    }

    /** cache.get(s).get(row)[col] = cell */
    method SetCell(s: int, row: int, col: int, cell: Cell)
      requires Valid() && s in cache && 0 <= row < |cache[s]| && 0 <= col < cache[s][row].Length
      modifies this, cache[s][row]
      ensures Valid() && sheetNames == old(sheetNames) && cache == old(cache)
      ensures Grid == old(Grid)[s := old(Grid)[s][row := old(Grid)[s][row][col := Some(cell)]]]
    {
      var a := cache[s][row];
      a[col] := Some(cell);
      Grid := Grid[s := Grid[s][row := Grid[s][row][col := Some(cell)]]];
      forall t, i | t in cache && 0 <= i < |cache[t]|
        ensures Grid[t][i] == cache[t][i][..]
      {
        if t != s || i != row {
          assert owner[cache[t][i]] != owner[a];
        }
      }
    }

    /** cache.remove(s) */
    method Evict(s: int)
      requires Valid()
      modifies this
      ensures Valid() && sheetNames == old(sheetNames)
      ensures cache == old(cache) - {s} && Grid == old(Grid) - {s}
      ensures Rows() <= old(Rows())
    {
      cache := cache - {s};
      Grid := Grid - {s};
    }
  }
}
