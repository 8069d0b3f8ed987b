/** The index arithmetic of the Link et al. (2020) conversion: one source's
    contributions scatter-added into a nodata-filled grid, and the
    translations of basin ids, grid-cell indexes and an AOI mask into the
    table's internal indexes. */
module LinkEtAl {
  import opened Wrappers
  import opened Strings
  import opened Ranges

  /** `float(numpy.finfo(numpy.float32).min)`, that is -(2^128 - 2^104). */
  const TargetNodata: int := -340282346638528859811704183484516925440

  /** The column count of the dataset's global grid, fixed at line 122. */
  const GridColumns: int := 240

  // ---------------------------------------------------------------------
  // Scatter-add (`run`)

  /** The Python exceptions `run` can raise. */
  datatype RunError = IndexError | ZeroDivisionError

  /** A table row of `width` entries accepts the index `id`, counting
      negative indexes from the end as numpy does. */
  predicate IndexOk(id: int, width: nat)
  {
    -(width as int) <= id < width
  }

  function Wrap(id: int, width: nat): (k: nat)
    requires IndexOk(id, width)
    ensures k < width
  {
    if id < 0 then id + width else id
  }

  /** The loaded table: one row of `width` source volumes per target pixel. */
  predicate Table(data: seq<seq<int>>, width: nat)
  {
    forall p :: 0 <= p < |data| ==> |data[p]| == width
  }

  /** `source_evaporation_data[p][id]`; a pixel beyond the table receives
      nothing. */
  function Volume(data: seq<seq<int>>, width: nat, p: int, id: int): int
    requires Table(data, width)
  {
    if 0 <= p < |data| && IndexOk(id, width) then data[p][Wrap(id, width)] else 0
  }

  /** Lines 71-78 for one contribution: a volume that is not positive
      changes nothing; a positive one replaces nodata by 0 and is added. */
  function Add(existing: int, vol: int): int
  {
    if vol <= 0 then existing
    else (if existing == TargetNodata then 0 else existing) + vol
  }

  /** The value of target pixel `p` once the sources `ids` are applied in
      order to the nodata-filled grid of lines 64-65. */
  function Cell(ids: seq<int>, data: seq<seq<int>>, width: nat, p: int): int
    requires Table(data, width)
  {
    if ids == [] then TargetNodata
    else Add(Cell(ids[..|ids| - 1], data, width, p), Volume(data, width, p, ids[|ids| - 1]))
  }

  /** What the source `id` adds to pixel `p`: its volume when positive. */
  function Gain(data: seq<seq<int>>, width: nat, p: int, id: int): (g: int)
    requires Table(data, width)
    ensures g >= 0
  {
    var v := Volume(data, width, p, id);
    if v > 0 then v else 0
  }

  /** The sum of the positive volumes the sources `ids` send to pixel `p`. */
  function Total(ids: seq<int>, data: seq<seq<int>>, width: nat, p: int): int
    requires Table(data, width)
  {
    if ids == [] then 0 else Total(ids[..|ids| - 1], data, width, p) + Gain(data, width, p, ids[|ids| - 1])
  }

  /** Some source sends pixel `p` a positive volume. */
  predicate Reached(ids: seq<int>, data: seq<seq<int>>, width: nat, p: int)
    requires Table(data, width)
  {
    exists k :: 0 <= k < |ids| && Volume(data, width, p, ids[k]) > 0
  }

  /** A pixel keeps the nodata value exactly when no source sends it a
      positive volume; otherwise it holds the sum of the positive volumes,
      the first of which replaced nodata by 0. */
  lemma {:induction false} CellMeaning(ids: seq<int>, data: seq<seq<int>>, width: nat, p: int)
    requires Table(data, width)
    ensures Cell(ids, data, width, p) == TargetNodata <==> !Reached(ids, data, width, p)
    ensures Reached(ids, data, width, p) ==> Cell(ids, data, width, p) == Total(ids, data, width, p) > 0
    ensures !Reached(ids, data, width, p) ==> Total(ids, data, width, p) == 0
    decreases |ids|
  {
    if ids != [] {
      var q := ids[..|ids| - 1];
      var last := ids[|ids| - 1];
      CellMeaning(q, data, width, p);
      ReachedSnoc(ids, data, width, p);
    }
  }

  lemma ReachedSnoc(ids: seq<int>, data: seq<seq<int>>, width: nat, p: int)
    requires Table(data, width) && ids != []
    ensures Reached(ids, data, width, p) <==>
      Reached(ids[..|ids| - 1], data, width, p) || Volume(data, width, p, ids[|ids| - 1]) > 0
  {
    var q := ids[..|ids| - 1];
    if Reached(ids, data, width, p) {
      var k :| 0 <= k < |ids| && Volume(data, width, p, ids[k]) > 0;
      if k < |q| {
        assert q[k] == ids[k];
      }
    }
    if Reached(q, data, width, p) {
      var k :| 0 <= k < |q| && Volume(data, width, p, q[k]) > 0;
      assert ids[k] == q[k];
    }
  }

  /** Removing one source takes its gain off the total. */
  lemma {:induction false} TotalRemove(ids: seq<int>, i: nat, data: seq<seq<int>>, width: nat, p: int)
    requires Table(data, width) && i < |ids|
    ensures Total(ids, data, width, p) ==
      Gain(data, width, p, ids[i]) + Total(ids[..i] + ids[i + 1..], data, width, p)
    decreases |ids|
  {
    var q := ids[..|ids| - 1];
    if i < |ids| - 1 {
      TotalRemove(q, i, data, width, p);
      assert ids[..i] + ids[i + 1..] == (q[..i] + q[i + 1..]) + [ids[|ids| - 1]];
      assert (ids[..i] + ids[i + 1..])[..|ids| - 2] == q[..i] + q[i + 1..];
    } else {
      assert ids[..i] + ids[i + 1..] == q;
    }
  }

  /** `ids` is a set in the script, iterated in no particular order; the
      order does not change any pixel. */
  lemma {:induction false} CellOrder(a: seq<int>, b: seq<int>, data: seq<seq<int>>, width: nat, p: int)
    requires Table(data, width) && multiset(a) == multiset(b)
    ensures Cell(a, data, width, p) == Cell(b, data, width, p)
  {
    TotalOrder(a, b, data, width, p);
    CellMeaning(a, data, width, p);
    CellMeaning(b, data, width, p);
    if Reached(a, data, width, p) {
      var k :| 0 <= k < |a| && Volume(data, width, p, a[k]) > 0;
      assert a[k] in multiset(b);
      var j :| 0 <= j < |b| && b[j] == a[k];
    }
    if Reached(b, data, width, p) {
      var k :| 0 <= k < |b| && Volume(data, width, p, b[k]) > 0;
      assert b[k] in multiset(a);
      var j :| 0 <= j < |a| && a[j] == b[k];
    }
  }

  lemma {:induction false} TotalOrder(a: seq<int>, b: seq<int>, data: seq<seq<int>>, width: nat, p: int)
    requires Table(data, width) && multiset(a) == multiset(b)
    ensures Total(a, data, width, p) == Total(b, data, width, p)
    decreases |a|
  {
    if a != [] {
      var last := a[|a| - 1];
      var q := a[..|a| - 1];
      assert last in multiset(b) by {
        assert a == q + [last];
      }
      var j :| 0 <= j < |b| && b[j] == last;
      var rest := b[..j] + b[j + 1..];
      MultisetSnoc(q, last);
      MultisetRemove(b, j);
      assert a == q + [last];
      assert multiset(q) + multiset{last} == multiset(rest) + multiset{last};
      assert multiset(q) == multiset(rest) by {
        forall y
          ensures multiset(q)[y] == multiset(rest)[y]
        {
          assert (multiset(q) + multiset{last})[y] == (multiset(rest) + multiset{last})[y];
        }
      }
      TotalOrder(q, rest, data, width, p);
      TotalRemove(b, j, data, width, p);
    } else {
      assert |multiset(b)| == 0;
    }
  }

  lemma MultisetSnoc(q: seq<int>, x: int)
    ensures multiset(q + [x]) == multiset(q) + multiset{x}
  {
  }

  lemma MultisetRemove(b: seq<int>, j: nat)
    requires j < |b|
    ensures multiset(b) == multiset(b[..j] + b[j + 1..]) + multiset{b[j]}
  {
    assert b == b[..j] + [b[j]] + b[j + 1..];
  }

  /** A source whose index the table rows reject fails on the first pixel. */
  predicate BadSource(id: int, data: seq<seq<int>>, width: nat)
  {
    |data| > 0 && !IndexOk(id, width)
  }

  /** A positive volume for a pixel beyond the grid: its row index is out
      of range, or there are no columns to divide by. */
  predicate OffGrid(data: seq<seq<int>>, width: nat, rows: nat, cols: nat, id: int, p: int)
    requires Table(data, width)
  {
    0 <= p < |data| && Volume(data, width, p, id) > 0 && p >= rows * cols
  }

  /** The exception the loop over the pixels raises for the source `id`. */
  function SourceError(id: int, data: seq<seq<int>>, width: nat, rows: nat, cols: nat): Option<RunError>
    requires Table(data, width)
  {
    if BadSource(id, data, width) then Some(IndexError)
    else if exists p | 0 <= p < |data| :: OffGrid(data, width, rows, cols, id, p) then
      Some(if cols == 0 then ZeroDivisionError else IndexError)
    else None
  }

  /** The exception of the first source that raises one. */
  function RunFailure(ids: seq<int>, data: seq<seq<int>>, width: nat, rows: nat, cols: nat): Option<RunError>
    requires Table(data, width)
  {
    if ids == [] then None
    else
      var before := RunFailure(ids[..|ids| - 1], data, width, rows, cols);
      if before.Some? then before else SourceError(ids[|ids| - 1], data, width, rows, cols)
  }

  lemma {:induction false} FailureStays(ids: seq<int>, k: nat, data: seq<seq<int>>, width: nat, rows: nat, cols: nat)
    requires Table(data, width) && k <= |ids|
    requires RunFailure(ids[..k], data, width, rows, cols).Some?
    ensures RunFailure(ids, data, width, rows, cols) == RunFailure(ids[..k], data, width, rows, cols)
    decreases |ids| - k
  {
    if k < |ids| {
      assert ids[..k + 1][..k] == ids[..k];
      FailureStays(ids, k + 1, data, width, rows, cols);
    } else {
      assert ids[..k] == ids;
    }
  }

  /** The run completes exactly when no source raises: every source
      index fits the table rows and every positive volume lands on the grid. */
  lemma {:induction false} RunSucceeds(ids: seq<int>, data: seq<seq<int>>, width: nat, rows: nat, cols: nat)
    requires Table(data, width)
    ensures RunFailure(ids, data, width, rows, cols).None? <==>
      forall k :: 0 <= k < |ids| ==> SourceError(ids[k], data, width, rows, cols).None?
    decreases |ids|
  {
    if ids != [] {
      var q := ids[..|ids| - 1];
      RunSucceeds(q, data, width, rows, cols);
      if RunFailure(ids, data, width, rows, cols).None? {
        forall k | 0 <= k < |ids|
          ensures SourceError(ids[k], data, width, rows, cols).None?
        {
          if k < |q| {
            assert ids[k] == q[k];
          }
        }
      } else if RunFailure(q, data, width, rows, cols).Some? {
        var k :| 0 <= k < |q| && SourceError(q[k], data, width, rows, cols).Some?;
        assert ids[k] == q[k];
      }
    }
  }

  /** With no positive volume off the grid and every source index in
      range, the run completes. */
  lemma SourceClean(id: int, data: seq<seq<int>>, width: nat, rows: nat, cols: nat)
    requires Table(data, width)
    ensures SourceError(id, data, width, rows, cols).None? <==>
      (|data| == 0 || IndexOk(id, width)) &&
      forall p :: 0 <= p < |data| && Volume(data, width, p, id) > 0 ==> p < rows * cols
  {
    if SourceError(id, data, width, rows, cols).None? {
      forall p | 0 <= p < |data| && Volume(data, width, p, id) > 0
        ensures p < rows * cols
      {
        assert !OffGrid(data, width, rows, cols, id, p);
      }
    }
  }

  /** The source `id` raises at the pixel `p`, the first that fails. */
  lemma FailsAt(ids: seq<int>, k: nat, data: seq<seq<int>>, width: nat, rows: nat, cols: nat, e: RunError)
    requires Table(data, width) && k < |ids|
    requires RunFailure(ids[..k], data, width, rows, cols).None?
    requires SourceError(ids[k], data, width, rows, cols) == Some(e)
    ensures RunFailure(ids, data, width, rows, cols) == Some(e)
  {
    assert ids[..k + 1][..k] == ids[..k];
    FailureStays(ids, k + 1, data, width, rows, cols);
  }

  /** The flat pixel id `p` is row `p / cols`, column `p % cols`. */
  lemma FlatIndex(i: int, j: int, cols: int, p: int)
    requires cols > 0 && 0 <= j < cols
    ensures i * cols + j == p <==> i == p / cols && j == p % cols
  {
    if i * cols + j == p {
      DivModUnique(p, cols, i, j);
    }
  }

  /** Row `p / cols` lies in the grid exactly when `p` is below `rows * cols`. */
  lemma RowInGrid(p: int, rows: nat, cols: nat)
    requires cols > 0 && p >= 0
    ensures p / cols < rows <==> p < rows * cols
  {
    DivModUnique(p, cols, p / cols, p % cols);
    if p / cols < rows {
      assert (p / cols) * cols <= (rows - 1) * cols;
    } else {
      assert (p / cols) * cols >= rows * cols;
    }
  }

  /** The grid before the first source or after source `k`: pixel `(i, j)`
      of a grid with `cols` columns is the flat pixel `i * cols + j`. */
  ghost predicate Holds(target: array2<int>, ids: seq<int>, data: seq<seq<int>>, width: nat, cols: nat)
    requires Table(data, width)
    reads target
  {
    forall i, j :: 0 <= i < target.Length0 && 0 <= j < target.Length1 ==>
      target[i, j] == Cell(ids, data, width, i * cols + j)
  }

  /** Lines 68-78 for the source `id`: every pixel of the table is visited
      in order and its volume added to the grid cell of its flat id,
      unless an access raises. */
  method AddSource(target: array2<int>, id: int, data: seq<seq<int>>, width: nat)
    returns (e: Option<RunError>)
    requires Table(data, width) && !BadSource(id, data, width)
    modifies target
    ensures e == SourceError(id, data, width, target.Length0, target.Length1)
    ensures e.None? ==> forall i, j :: 0 <= i < target.Length0 && 0 <= j < target.Length1 ==>
      target[i, j] == Add(old(target[i, j]), Volume(data, width, i * target.Length1 + j, id))
  {
    var rows, cols := target.Length0, target.Length1;
    var p := 0;
    while p < |data|
      invariant 0 <= p <= |data|
      invariant forall q :: 0 <= q < p ==> !OffGrid(data, width, rows, cols, id, q)
      invariant forall i, j :: 0 <= i < rows && 0 <= j < cols ==>
        target[i, j] == if i * cols + j < p then Add(old(target[i, j]), Volume(data, width, i * cols + j, id))
                        else old(target[i, j])
    {
      var vol := data[p][Wrap(id, width)];
      assert vol == Volume(data, width, p, id);
      if vol > 0 {
        if cols == 0 {
          assert OffGrid(data, width, rows, cols, id, p);
          return Some(ZeroDivisionError);
        }
        var row, col := p / cols, p % cols;
        RowInGrid(p, rows, cols);
        if row >= rows {
          assert OffGrid(data, width, rows, cols, id, p);
          return Some(IndexError);
        }
        var existing := target[row, col];
        if existing == TargetNodata {
          existing := 0;
        }
        target[row, col] := existing + vol;
        forall i, j | 0 <= i < rows && 0 <= j < cols
          ensures target[i, j] == if i * cols + j < p + 1 then Add(old(target[i, j]), Volume(data, width, i * cols + j, id))
                                  else old(target[i, j])
        {
          FlatIndex(i, j, cols, p);
        }
      }
      p := p + 1;
    }
    return None;
  }

  /** Lines 62-79: a nodata-filled grid of `rows` by `cols`, every source's
      volumes scatter-added into it, or the exception of the first access
      that fails.  `data` stands for the loaded table and the grid is what
      `WriteArray` writes. */
  method Run(ids: seq<int>, data: seq<seq<int>>, width: nat, rows: nat, cols: nat)
    returns (r: Result<array2<int>, RunError>)
    requires Table(data, width)
    ensures r.Err? <==> RunFailure(ids, data, width, rows, cols).Some?
    ensures r.Err? ==> r.error == RunFailure(ids, data, width, rows, cols).value
    ensures r.Ok? ==> fresh(r.value) && r.value.Length0 == rows && r.value.Length1 == cols
    ensures r.Ok? ==> Holds(r.value, ids, data, width, cols)
  {
    var target := new int[rows, cols]((i, j) => TargetNodata);
    var k := 0;
    while k < |ids|
      invariant 0 <= k <= |ids|
      invariant fresh(target) && target.Length0 == rows && target.Length1 == cols
      invariant RunFailure(ids[..k], data, width, rows, cols).None?
      invariant Holds(target, ids[..k], data, width, cols)
    {
      assert ids[..k + 1][..k] == ids[..k];
      if BadSource(ids[k], data, width) {
        FailsAt(ids, k, data, width, rows, cols, IndexError);
        return Err(IndexError);
      }
      var e := AddSource(target, ids[k], data, width);
      if e.Some? {
        FailsAt(ids, k, data, width, rows, cols, e.value);
        return Err(e.value);
      }
      forall i, j | 0 <= i < rows && 0 <= j < cols
        ensures target[i, j] == Cell(ids[..k + 1], data, width, i * cols + j)
      {
      }
      k := k + 1;
    }
    assert ids[..k] == ids;
    return Ok(target);
  }

  // ---------------------------------------------------------------------
  // Table ids of basins, grid cells and an AOI

  /** `convert_vector_basin_ids_to_internal`: the positions of the basin id
      array whose value is one of the requested basin ids.  `None` stands
      for the `ValueError` of an id string that is not an integer; `arr`
      is the loaded id array. */
  method BasinIdsToInternal(arr: seq<int>, basinIds: seq<string>) returns (r: Option<set<int>>)
    ensures r.None? <==> ParseInts(basinIds).None?
    ensures r.Some? ==> forall n :: n in r.value <==> 0 <= n < |arr| && arr[n] in ParseInts(basinIds).value
  {
    var wanted := ParseIdSet(basinIds);
    if wanted.None? {
      return None;
    }
    var out: set<int> := {};
    var n := 0;
    while n < |arr|
      invariant 0 <= n <= |arr|
      invariant forall m :: m in out <==> 0 <= m < n && arr[m] in wanted.value
    {
      if arr[n] in wanted.value {
        out := out + {n};
      }
      n := n + 1;
    }
    forall m | 0 <= m < |arr|
      ensures arr[m] in wanted.value <==> arr[m] in ParseInts(basinIds).value
    {
      var x := arr[m];
      assert x in wanted.value <==> x in ParseInts(basinIds).value;
    }
    return Some(out);
  }

  /** `set(int(basin_id) for basin_id in basin_ids)`. */
  method ParseIdSet(basinIds: seq<string>) returns (r: Option<set<int>>)
    ensures r.None? <==> ParseInts(basinIds).None?
    ensures r.Some? ==> forall x :: x in r.value <==> x in ParseInts(basinIds).value
  {
    var wanted: set<int> := {};
    var i := 0;
    while i < |basinIds|
      invariant 0 <= i <= |basinIds|
      invariant forall j :: 0 <= j < i ==> ParseInt(basinIds[j]).Some? && ParseInt(basinIds[j]).value in wanted
      invariant forall x :: x in wanted ==> exists j :: 0 <= j < i && ParseInt(basinIds[j]) == Some(x)
    {
      var v := ParseInt(basinIds[i]);
      if v.None? {
        ParseIntsNone(basinIds);
        return None;
      }
      wanted := wanted + {v.value};
      i := i + 1;
    }
    ParseIntsNone(basinIds);
    var ps := ParseInts(basinIds).value;
    forall x
      ensures x in wanted <==> x in ps
    {
      if x in ps {
        var j :| 0 <= j < |ps| && ps[j] == x;
        assert ParseInt(basinIds[j]) == Some(x);
      }
      if x in wanted {
        var j :| 0 <= j < |basinIds| && ParseInt(basinIds[j]) == Some(x);
        assert ps[j] == x;
      }
    }
    return Some(wanted);
  }

  /** `convert_cell_index_to_internal`: the positions of the considered
      cells, given as their row and column arrays and paired up by `zip`
      as far as both reach, whose global cell index `row * 240 + col` is
      requested. */
  method CellIndexToInternal(cellRows: seq<int>, cellCols: seq<int>, cellIndexes: seq<int>) returns (r: set<int>)
    ensures forall i :: i in r <==>
      0 <= i < |cellRows| && i < |cellCols| && cellRows[i] * GridColumns + cellCols[i] in cellIndexes
  {
    var wanted := set x | x in cellIndexes;
    r := {};
    var i := 0;
    while i < |cellRows| && i < |cellCols|
      invariant 0 <= i <= |cellRows| && i <= |cellCols|
      invariant forall m :: m in r <==> 0 <= m < i && cellRows[m] * GridColumns + cellCols[m] in cellIndexes
    {
      if cellRows[i] * GridColumns + cellCols[i] in wanted {
        r := r + {i};
      }
      i := i + 1;
    }
  }

  /** A rasterised AOI of `rows` by `cols` pixels, as `ReadAsArray` returns it. */
  predicate Grid(grid: seq<seq<int>>, rows: nat, cols: nat)
  {
    |grid| == rows && forall r :: 0 <= r < rows ==> |grid[r]| == cols
  }

  /** The pixel `x` of the flat numbering by rows, 0 off the grid. */
  function Pixel(grid: seq<seq<int>>, cols: nat, x: int): int
  {
    if cols > 0 && 0 <= x && x / cols < |grid| && x % cols < |grid[x / cols]| then grid[x / cols][x % cols] else 0
  }

  /** The pixels the column-by-column loop has visited before reaching
      column `col`, row `row`. */
  predicate Visited(x: int, cols: nat, col: nat, row: nat)
    requires cols > 0
  {
    x % cols < col || (x % cols == col && x / cols < row)
  }

  /** One more row of the current column adds exactly the pixel `(row, col)`. */
  lemma VisitRow(x: int, cols: nat, col: nat, row: nat)
    requires 0 <= col < cols && x >= 0
    ensures Visited(x, cols, col, row + 1) <==> Visited(x, cols, col, row) || x == row * cols + col
  {
    FlatIndex(row, col, cols, x);
  }

  /** A finished column is the start of the next. */
  lemma NextColumn(x: int, rows: nat, cols: nat, col: nat)
    requires 0 <= col < cols && 0 <= x < rows * cols
    ensures Visited(x, cols, col, rows) <==> Visited(x, cols, col + 1, 0)
  {
    RowInGrid(x, rows, cols);
  }

  /** The pixel loop of `_convert_aoi_to_cell_index`, column by column: the
      flat indexes `row * cols + col` of the pixels burnt to 1. */
  method AoiToCellIndex(grid: seq<seq<int>>, rows: nat, cols: nat) returns (ids: set<int>)
    requires Grid(grid, rows, cols)
    ensures forall x :: x in ids <==> cols > 0 && 0 <= x < rows * cols && grid[x / cols][x % cols] == 1
  {
    if cols == 0 {
      return {};
    }
    ids := AddColumns(grid, rows, cols);
    forall x
      ensures x in ids <==> 0 <= x < rows * cols && grid[x / cols][x % cols] == 1
    {
      if 0 <= x < rows * cols {
        AllVisited(grid, rows, cols, x);
      }
    }
  }

  /** The outer loop over the columns. */
  method AddColumns(grid: seq<seq<int>>, rows: nat, cols: nat) returns (ids: set<int>)
    requires Grid(grid, rows, cols) && cols > 0
    ensures forall x :: x in ids <==> 0 <= x < rows * cols && Visited(x, cols, cols, 0) && Pixel(grid, cols, x) == 1
  {
    ids := {};
    var col := 0;
    while col < cols
      invariant 0 <= col <= cols
      invariant forall x :: x in ids <==> 0 <= x < rows * cols && Visited(x, cols, col, 0) && Pixel(grid, cols, x) == 1
    {
      ids := AddColumn(grid, rows, cols, col, ids);
      forall x | 0 <= x < rows * cols
        ensures Visited(x, cols, col, rows) <==> Visited(x, cols, col + 1, 0)
      {
        NextColumn(x, rows, cols, col);
      }
      col := col + 1;
    }
  }

  lemma AllVisited(grid: seq<seq<int>>, rows: nat, cols: nat, x: int)
    requires Grid(grid, rows, cols) && cols > 0 && 0 <= x < rows * cols
    ensures x / cols < rows && Visited(x, cols, cols, 0) && Pixel(grid, cols, x) == grid[x / cols][x % cols]
  {
    RowInGrid(x, rows, cols);
  }

  /** The inner loop over the rows of one column. */
  method AddColumn(grid: seq<seq<int>>, rows: nat, cols: nat, col: nat, before: set<int>) returns (ids: set<int>)
    requires Grid(grid, rows, cols) && col < cols
    requires forall x :: x in before <==> 0 <= x < rows * cols && Visited(x, cols, col, 0) && Pixel(grid, cols, x) == 1
    ensures forall x :: x in ids <==> 0 <= x < rows * cols && Visited(x, cols, col, rows) && Pixel(grid, cols, x) == 1
  {
    ids := before;
    var row := 0;
    while row < rows
      invariant 0 <= row <= rows
      invariant forall x :: x in ids <==> 0 <= x < rows * cols && Visited(x, cols, col, row) && Pixel(grid, cols, x) == 1
    {
      var flat := row * cols + col;
      RowInGrid(flat, rows, cols);
      FlatIndex(row, col, cols, flat);
      assert Pixel(grid, cols, flat) == grid[row][col];
      if grid[row][col] == 1 {
        ids := ids + {flat};
      }
      forall x | 0 <= x
        ensures Visited(x, cols, col, row + 1) <==> Visited(x, cols, col, row) || x == flat
      {
        VisitRow(x, cols, col, row);
      }
      row := row + 1;
    }
  }
}
