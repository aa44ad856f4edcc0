/** The per-frame procedure of the sheet widget: synchronise both axes with
    the sheet's dimensions, resolve the viewport into index ranges, emit the
    separator lines and enumerate the visible cells with their rectangles. */
module Grid {
  import opened Sums
  import opened Axis

  /** egui's `Vec2` and `Pos2`: an `(x, y)` pair. */
  datatype Vec2 = Vec2(x: real, y: real)

  /** egui's `Rect`: the min corner and the max corner. */
  datatype Rect = Rect(min: Vec2, max: Vec2)

  /** `Rect::from_min_size`. */
  function FromMinSize(min: Vec2, size: Vec2): (r: Rect)
  {
    Rect(min, Vec2(min.x + size.x, min.y + size.y))
  }

  /** A separator line: the index whose start it marks and the offset it is
      painted at. */
  datatype Line = Line(index: nat, offset: real)

  /** One call of the per-cell callback: the `(column, row)` coordinate and
      the rectangle the cell's UI is given. */
  datatype Cell = Cell(coord: (nat, nat), rect: Rect)

  /** What one call of `show` produces: the size it allocates, the
      horizontal and vertical separator lines and the cells, in call order. */
  datatype Frame = Frame(size: Vec2, hlines: seq<Line>, vlines: seq<Line>, cells: seq<Cell>)

  /** `SpreadsheetMetadata`: the layout of the columns and of the rows. */
  class Metadata {
    const columnWidths: Widths
    const rowHeights: Widths

    /** `Default`: columns 200 wide and rows 20 high, none of either yet. */
    constructor ()
      ensures Valid() && fresh(columnWidths) && fresh(rowHeights)
      ensures columnWidths.defaultWidth == 200.0 && rowHeights.defaultWidth == 20.0
      ensures columnWidths.widths == [] && columnWidths.accum == []
      ensures rowHeights.widths == [] && rowHeights.accum == []
    {
      columnWidths := new Widths(200.0);
      rowHeights := new Widths(20.0);
    }

    /** The two axes are separate objects, as two owned fields are. */
    predicate Valid()
    {
      columnWidths != rowHeights
    }

    /** `total_internal_size`: the extent of the columns and of the rows. */
    function TotalInternalSize(): (r: Vec2)
      reads columnWidths, rowHeights
      ensures columnWidths.AccumValid() ==> r.x == Sum(columnWidths.widths)
      ensures rowHeights.AccumValid() ==> r.y == Sum(rowHeights.widths)
    {
      Vec2(columnWidths.TotalWidth(), rowHeights.TotalWidth())
    }
  }

  /** The coordinates `(lo, j), ..., (hi - 1, j)` of one row, in the order
      the inner loop visits them. */
  function Row(lo: nat, hi: nat, j: nat): (r: seq<(nat, nat)>)
    ensures |r| == if lo <= hi then hi - lo else 0
    ensures forall k :: 0 <= k < |r| ==> r[k] == (lo + k, j)
    decreases hi
  {
    if hi <= lo then [] else Row(lo, hi - 1, j) + [(hi - 1, j)]
  }

  /** The coordinates of the block `[minI, maxI) x [minJ, maxJ)` in the
      order the nested loops visit them: row after row. */
  function GridOrder(minI: nat, maxI: nat, minJ: nat, maxJ: nat): (r: seq<(nat, nat)>)
    ensures forall k :: 0 <= k < |r| ==> minI <= r[k].0 < maxI && minJ <= r[k].1 < maxJ
    decreases maxJ
  {
    if maxJ <= minJ then [] else GridOrder(minI, maxI, minJ, maxJ - 1) + Row(minI, maxI, maxJ - 1)
  }

  /** Row-major order: an earlier row, or the same row and an earlier
      column. */
  predicate Before(a: (nat, nat), b: (nat, nat))
  {
    a.1 < b.1 || (a.1 == b.1 && a.0 < b.0)
  }

  /** The enumeration visits exactly the coordinates of the block. */
  lemma {:induction false} GridOrderMembers(minI: nat, maxI: nat, minJ: nat, maxJ: nat, c: (nat, nat))
    ensures c in GridOrder(minI, maxI, minJ, maxJ) <==> minI <= c.0 < maxI && minJ <= c.1 < maxJ
    decreases maxJ
  {
    if maxJ > minJ {
      GridOrderMembers(minI, maxI, minJ, maxJ - 1, c);
      var row := Row(minI, maxI, maxJ - 1);
      if minI <= c.0 < maxI && c.1 == maxJ - 1 {
        assert row[c.0 - minI] == c;
      }
    }
  }

  /** Every entry comes strictly before the ones after it in row-major
      order, so none is repeated. */
  predicate StrictlyRowMajor(g: seq<(nat, nat)>)
  {
    forall p, q :: 0 <= p < q < |g| ==> Before(g[p], g[q])
  }

  /** The enumeration is strictly increasing in row-major order, so it
      visits each coordinate once. */
  lemma {:induction false} GridOrderRowMajor(minI: nat, maxI: nat, minJ: nat, maxJ: nat)
    ensures StrictlyRowMajor(GridOrder(minI, maxI, minJ, maxJ))
    ensures var g := GridOrder(minI, maxI, minJ, maxJ);
      forall p, q :: 0 <= p < q < |g| ==> g[p] != g[q]
    decreases maxJ
  {
    if maxJ > minJ {
      GridOrderRowMajor(minI, maxI, minJ, maxJ - 1);
      var g0 := GridOrder(minI, maxI, minJ, maxJ - 1);
      var row := Row(minI, maxI, maxJ - 1);
      var g := g0 + row;
      forall p, q | 0 <= p < q < |g|
        ensures Before(g[p], g[q])
      {
        if q < |g0| {
          assert g[p] == g0[p] && g[q] == g0[q];
        } else if p < |g0| {
          assert g[p] == g0[p] && g[p].1 < maxJ - 1;
          assert g[q] == row[q - |g0|] && g[q].1 == maxJ - 1;
        } else {
          assert g[p] == row[p - |g0|] == (minI + (p - |g0|), maxJ - 1);
          assert g[q] == row[q - |g0|] == (minI + (q - |g0|), maxJ - 1);
        }
      }
    }
  }

  /** The enumeration has one entry per cell of the block. */
  lemma {:induction false} GridOrderLength(minI: nat, maxI: nat, minJ: nat, maxJ: nat)
    requires minI <= maxI && minJ <= maxJ
    ensures |GridOrder(minI, maxI, minJ, maxJ)| == (maxI - minI) * (maxJ - minJ)
    decreases maxJ
  {
    if maxJ > minJ {
      GridOrderLength(minI, maxI, minJ, maxJ - 1);
      assert (maxI - minI) * (maxJ - minJ) == (maxI - minI) * (maxJ - 1 - minJ) + (maxI - minI);
    }
  }

  /** `lines` are the separators of the indices `lo ..= hi` of `axis`, each
      at the start offset of its index, shifted by `shift`. */
  predicate SeparatorsOf(lines: seq<Line>, axis: Widths, lo: nat, hi: nat, shift: real)
    reads axis
  {
    && (lo <= hi ==> hi <= |axis.accum|)
    && |lines| == (if lo <= hi then hi - lo + 1 else 0)
    && forall k :: 0 <= k < |lines| ==> lines[k] == Line(lo + k, axis.GetAccum(lo + k).value - shift)
  }

  /** Coordinate `c` has a width, a height and both start offsets. */
  predicate Drawable(cols: Widths, rows: Widths, c: (nat, nat))
    reads cols, rows
  {
    c.0 < |cols.widths| && c.0 <= |cols.accum| && c.1 < |rows.widths| && c.1 <= |rows.accum|
  }

  /** The rectangle of cell `c`: its origin is `origin` moved by the start
      offsets of its column and row, its size their width and height. */
  function CellRect(cols: Widths, rows: Widths, c: (nat, nat), origin: Vec2): (r: Rect)
    reads cols, rows
    requires Drawable(cols, rows, c)
  {
    FromMinSize(
      Vec2(origin.x + cols.GetAccum(c.0).value, origin.y + rows.GetAccum(c.1).value),
      Vec2(cols.GetWidth(c.0).value, rows.GetWidth(c.1).value))
  }

  /** `cells` are the cells of the coordinates `g`, in that order, each with
      its rectangle. */
  predicate CellsAt(cells: seq<Cell>, cols: Widths, rows: Widths, g: seq<(nat, nat)>, origin: Vec2)
    reads cols, rows
  {
    && |cells| == |g|
    && forall k :: 0 <= k < |cells| ==>
         cells[k].coord == g[k] && Drawable(cols, rows, g[k]) && cells[k].rect == CellRect(cols, rows, g[k], origin)
  }

  /** The cells of the block `[minI, maxI) x [minJ, maxJ)` in row-major
      order. */
  predicate CellsOf(cells: seq<Cell>, cols: Widths, rows: Widths, minI: nat, maxI: nat, minJ: nat, maxJ: nat, origin: Vec2)
    reads cols, rows
  {
    CellsAt(cells, cols, rows, GridOrder(minI, maxI, minJ, maxJ), origin)
  }

  /** Every coordinate of the block is among the cells. */
  lemma CellsOfCover(cells: seq<Cell>, cols: Widths, rows: Widths, minI: nat, maxI: nat, minJ: nat, maxJ: nat,
                     origin: Vec2, i: nat, j: nat)
    requires CellsOf(cells, cols, rows, minI, maxI, minJ, maxJ, origin)
    requires minI <= i < maxI && minJ <= j < maxJ
    ensures exists k :: 0 <= k < |cells| && cells[k].coord == (i, j)
  {
    var g := GridOrder(minI, maxI, minJ, maxJ);
    GridOrderMembers(minI, maxI, minJ, maxJ, (i, j));
    var k :| 0 <= k < |g| && g[k] == (i, j);
    assert cells[k].coord == (i, j);
  }

  /** A separator loop of `show`: one line per index of `lo ..= hi`, at
      the index's start offset shifted by `shift`. The `unwrap` of every
      start offset succeeds when `hi` is at most the length of the cache. */
  method EmitSeparators(axis: Widths, lo: nat, hi: nat, shift: real) returns (lines: seq<Line>)
    requires lo <= hi ==> hi <= |axis.accum|
    ensures SeparatorsOf(lines, axis, lo, hi, shift)
  {
    lines := [];
    var k := lo;
    while k <= hi
      invariant lo <= k && (k == lo || k <= hi + 1)
      invariant |lines| == k - lo
      invariant forall m :: 0 <= m < |lines| ==> lines[m] == Line(lo + m, axis.GetAccum(lo + m).value - shift)
    {
      var offset := axis.GetAccum(k).value;
      lines := lines + [Line(k, offset - shift)];
      k := k + 1;
    }
  }

  /** The nested cell loops of `show`: rows `minJ .. maxJ`, and within each
      row the columns `minI .. maxI`, each cell with its rectangle. The
      `unwrap` of every offset and size succeeds when the ranges lie within
      the axes: the row height is read even for an empty column range. */
  method EmitCells(cols: Widths, rows: Widths, minI: nat, maxI: nat, minJ: nat, maxJ: nat, origin: Vec2)
    returns (cells: seq<Cell>)
    requires minJ < maxJ ==> maxJ <= |rows.widths| && maxJ <= |rows.accum|
    requires minJ < maxJ && minI < maxI ==> maxI <= |cols.widths| && maxI <= |cols.accum|
    ensures CellsOf(cells, cols, rows, minI, maxI, minJ, maxJ, origin)
  {
    cells := [];
    var j := minJ;
    while j < maxJ
      invariant minJ <= j && (j == minJ || j <= maxJ)
      invariant CellsAt(cells, cols, rows, GridOrder(minI, maxI, minJ, j), origin)
    {
      var yOffset := rows.GetAccum(j).value;
      var yHeight := rows.GetWidth(j).value;
      var i := minI;
      while i < maxI
        invariant minI <= i && (i == minI || i <= maxI)
        invariant CellsAt(cells, cols, rows, GridOrder(minI, maxI, minJ, j) + Row(minI, i, j), origin)
      {
        var xOffset := cols.GetAccum(i).value;
        var xWidth := cols.GetWidth(i).value;
        ghost var g := GridOrder(minI, maxI, minJ, j) + Row(minI, i, j);
        assert g + [(i, j)] == GridOrder(minI, maxI, minJ, j) + Row(minI, i + 1, j);
        cells := cells + [Cell((i, j), FromMinSize(Vec2(origin.x + xOffset, origin.y + yOffset), Vec2(xWidth, yHeight)))];
        i := i + 1;
      }
      assert Row(minI, i, j) == Row(minI, maxI, j);
      j := j + 1;
    }
  }

  /** Cell `(i, j)` of the sheet overlaps the viewport. */
  predicate Visible(cols: Widths, rows: Widths, i: nat, j: nat, view: Rect)
    reads cols, rows
  {
    && i < |cols.accum| && j < |rows.accum|
    && Overlaps(cols, i, view.min.x, view.max.x)
    && Overlaps(rows, j, view.min.y, view.max.y)
  }

  /** Some call of the callback is for coordinate `(i, j)`. */
  predicate Visits(cells: seq<Cell>, i: nat, j: nat)
  {
    exists k :: 0 <= k < |cells| && cells[k].coord == (i, j)
  }

  /** The cells of the ranges `range` resolves on both axes include every
      visible cell except those in the last column or the last row. */
  lemma RangeCellsCoverAllButLast(cells: seq<Cell>, cols: Widths, rows: Widths, origin: Vec2, view: Rect)
    requires cols.AccumValid() && NonNegative(cols.widths)
    requires rows.AccumValid() && NonNegative(rows.widths)
    requires CellsOf(cells, cols, rows,
                     cols.Range(view.min.x, view.max.x).0, cols.Range(view.min.x, view.max.x).1,
                     rows.Range(view.min.y, view.max.y).0, rows.Range(view.min.y, view.max.y).1, origin)
    ensures forall i: nat, j: nat :: i + 1 < |cols.widths| && j + 1 < |rows.widths| && Visible(cols, rows, i, j, view) ==>
      Visits(cells, i, j)
  {
    var (minI, maxI) := cols.Range(view.min.x, view.max.x);
    var (minJ, maxJ) := rows.Range(view.min.y, view.max.y);
    forall i: nat, j: nat | i + 1 < |cols.widths| && j + 1 < |rows.widths| && Visible(cols, rows, i, j, view)
      ensures Visits(cells, i, j)
    {
      RangeCoversAllButLast(cols, i, view.min.x, view.max.x);
      RangeCoversAllButLast(rows, j, view.min.y, view.max.y);
      CellsOfCover(cells, cols, rows, minI, maxI, minJ, maxJ, origin, i, j);
    }
  }

  /** The cells of the ranges `CoveringRange` resolves on both axes include
      every visible cell. */
  lemma CoveringCellsCoverAll(cells: seq<Cell>, cols: Widths, rows: Widths, origin: Vec2, view: Rect)
    requires cols.AccumValid() && NonNegative(cols.widths)
    requires rows.AccumValid() && NonNegative(rows.widths)
    requires CellsOf(cells, cols, rows,
                     cols.CoveringRange(view.min.x, view.max.x).0, cols.CoveringRange(view.min.x, view.max.x).1,
                     rows.CoveringRange(view.min.y, view.max.y).0, rows.CoveringRange(view.min.y, view.max.y).1, origin)
    ensures forall i: nat, j: nat :: Visible(cols, rows, i, j, view) ==> Visits(cells, i, j)
  {
    var (minI, maxI) := cols.CoveringRange(view.min.x, view.max.x);
    var (minJ, maxJ) := rows.CoveringRange(view.min.y, view.max.y);
    forall i: nat, j: nat | Visible(cols, rows, i, j, view)
      ensures Visits(cells, i, j)
    {
      CoveringRangeCovers(cols, i, view.min.x, view.max.x);
      CoveringRangeCovers(rows, j, view.min.y, view.max.y);
      CellsOfCover(cells, cols, rows, minI, maxI, minJ, maxJ, origin, i, j);
    }
  }

  /** Cell `c` lies near the viewport: its column and row start no later
      than the viewport's max corner (or are the first), and the column and
      row after them end no earlier than its min corner (or are the last). */
  predicate NearViewport(cols: Widths, rows: Widths, c: (nat, nat), view: Rect)
    reads cols, rows
    requires Drawable(cols, rows, c)
    requires |cols.accum| == |cols.widths| && |rows.accum| == |rows.widths|
  {
    && (c.0 >= 1 ==> cols.GetAccum(c.0).value <= view.max.x)
    && (c.0 + 1 < |cols.widths| ==> view.min.x <= cols.GetAccum(c.0 + 2).value)
    && (c.1 >= 1 ==> rows.GetAccum(c.1).value <= view.max.y)
    && (c.1 + 1 < |rows.widths| ==> view.min.y <= rows.GetAccum(c.1 + 2).value)
  }

  /** Every cell of the ranges `range` resolves lies near the viewport: the
      widening adds no more than one column and one row on each side. */
  lemma RangeCellsNearViewport(cells: seq<Cell>, cols: Widths, rows: Widths, origin: Vec2, view: Rect)
    requires cols.AccumValid() && NonNegative(cols.widths)
    requires rows.AccumValid() && NonNegative(rows.widths)
    requires CellsOf(cells, cols, rows,
                     cols.Range(view.min.x, view.max.x).0, cols.Range(view.min.x, view.max.x).1,
                     rows.Range(view.min.y, view.max.y).0, rows.Range(view.min.y, view.max.y).1, origin)
    ensures forall k :: 0 <= k < |cells| ==> NearViewport(cols, rows, cells[k].coord, view)
  {
    forall k | 0 <= k < |cells|
      ensures NearViewport(cols, rows, cells[k].coord, view)
    {
      RangeTight(cols, cells[k].coord.0, view.min.x, view.max.x);
      RangeTight(rows, cells[k].coord.1, view.min.y, view.max.y);
    }
  }

  /** Every cell of the ranges `CoveringRange` resolves lies near the
      viewport as well. */
  lemma CoveringCellsNearViewport(cells: seq<Cell>, cols: Widths, rows: Widths, origin: Vec2, view: Rect)
    requires cols.AccumValid() && NonNegative(cols.widths)
    requires rows.AccumValid() && NonNegative(rows.widths)
    requires CellsOf(cells, cols, rows,
                     cols.CoveringRange(view.min.x, view.max.x).0, cols.CoveringRange(view.min.x, view.max.x).1,
                     rows.CoveringRange(view.min.y, view.max.y).0, rows.CoveringRange(view.min.y, view.max.y).1, origin)
    ensures forall k :: 0 <= k < |cells| ==> NearViewport(cols, rows, cells[k].coord, view)
  {
    forall k | 0 <= k < |cells|
      ensures NearViewport(cols, rows, cells[k].coord, view)
    {
      CoveringRangeTight(cols, cells[k].coord.0, view.min.x, view.max.x);
      CoveringRangeTight(rows, cells[k].coord.1, view.min.y, view.max.y);
    }
  }

  /** The first step of `show`: resize both axes to the sheet's dimensions
      and rebuild their caches, rows first. */
  method SyncAxes(dimension: (nat, nat), meta: Metadata)
    requires meta.Valid()
    modifies meta.columnWidths, meta.rowHeights
    ensures meta.columnWidths.widths == Resized(old(meta.columnWidths.widths), dimension.0, meta.columnWidths.defaultWidth)
    ensures meta.rowHeights.widths == Resized(old(meta.rowHeights.widths), dimension.1, meta.rowHeights.defaultWidth)
    ensures meta.columnWidths.AccumValid() && meta.rowHeights.AccumValid()
  {
    var (cols, rows) := dimension;
    meta.rowHeights.SetLen(rows);
    meta.rowHeights.RebuildAccum();
    meta.columnWidths.SetLen(cols);
    meta.columnWidths.RebuildAccum();
  }

  /** `show` as written, with the toolkit calls stripped: the viewport
      `view` and the widget's top-left corner `origin` are given. The
      frame holds the allocated size, the separators of the inclusive
      ranges and the cells of the half-open ranges that `range` resolves;
      no cell lies in the last column or the last row, and every other
      cell that overlaps the viewport is drawn. */
  method Show(dimension: (nat, nat), meta: Metadata, origin: Vec2, view: Rect) returns (frame: Frame)
    requires meta.Valid()
    modifies meta.columnWidths, meta.rowHeights
    ensures meta.columnWidths.widths == Resized(old(meta.columnWidths.widths), dimension.0, meta.columnWidths.defaultWidth)
    ensures meta.rowHeights.widths == Resized(old(meta.rowHeights.widths), dimension.1, meta.rowHeights.defaultWidth)
    ensures meta.columnWidths.AccumValid() && meta.rowHeights.AccumValid()
    ensures frame.size == Vec2(Sum(meta.columnWidths.widths), Sum(meta.rowHeights.widths))
    ensures dimension.0 * dimension.1 == 0 ==> frame.hlines == [] && frame.vlines == [] && frame.cells == []
    ensures dimension.0 * dimension.1 != 0 ==>
      var (minJ, maxJ) := meta.rowHeights.Range(view.min.y, view.max.y);
      var (minI, maxI) := meta.columnWidths.Range(view.min.x, view.max.x);
      && SeparatorsOf(frame.hlines, meta.rowHeights, minJ, maxJ, view.min.y)
      && SeparatorsOf(frame.vlines, meta.columnWidths, minI, maxI, view.min.x)
      && CellsOf(frame.cells, meta.columnWidths, meta.rowHeights, minI, maxI, minJ, maxJ, origin)
    ensures forall k :: 0 <= k < |frame.cells| ==>
      frame.cells[k].coord.0 + 1 < dimension.0 && frame.cells[k].coord.1 + 1 < dimension.1
    ensures NonNegative(meta.columnWidths.widths) && NonNegative(meta.rowHeights.widths) ==>
      forall i: nat, j: nat ::
        (i + 1 < dimension.0 && j + 1 < dimension.1 && Visible(meta.columnWidths, meta.rowHeights, i, j, view)) ==>
        Visits(frame.cells, i, j)
    ensures NonNegative(meta.columnWidths.widths) && NonNegative(meta.rowHeights.widths) ==>
      forall k :: 0 <= k < |frame.cells| ==>
        NearViewport(meta.columnWidths, meta.rowHeights, frame.cells[k].coord, view)
  {
    SyncAxes(dimension, meta);
    var (cols, rows) := dimension;

    var size := meta.TotalInternalSize();
    if cols * rows == 0 {
      return Frame(size, [], [], []);
    }

    var (minJ, maxJ) := meta.rowHeights.Range(view.min.y, view.max.y);
    var (minI, maxI) := meta.columnWidths.Range(view.min.x, view.max.x);
    var hlines := EmitSeparators(meta.rowHeights, minJ, maxJ, view.min.y);
    var vlines := EmitSeparators(meta.columnWidths, minI, maxI, view.min.x);
    var cells := EmitCells(meta.columnWidths, meta.rowHeights, minI, maxI, minJ, maxJ, origin);
    frame := Frame(size, hlines, vlines, cells);
    if NonNegative(meta.columnWidths.widths) && NonNegative(meta.rowHeights.widths) {
      RangeCellsCoverAllButLast(cells, meta.columnWidths, meta.rowHeights, origin, view);
      RangeCellsNearViewport(cells, meta.columnWidths, meta.rowHeights, origin, view);
    }
  }

  /** `show` with the upper end of both cell ranges clamped to the axis
      length (`CoveringRange`): every cell that overlaps the viewport is
      drawn, and every `unwrap` still succeeds. */
  method ShowCovering(dimension: (nat, nat), meta: Metadata, origin: Vec2, view: Rect) returns (frame: Frame)
    requires meta.Valid()
    modifies meta.columnWidths, meta.rowHeights
    ensures meta.columnWidths.widths == Resized(old(meta.columnWidths.widths), dimension.0, meta.columnWidths.defaultWidth)
    ensures meta.rowHeights.widths == Resized(old(meta.rowHeights.widths), dimension.1, meta.rowHeights.defaultWidth)
    ensures meta.columnWidths.AccumValid() && meta.rowHeights.AccumValid()
    ensures frame.size == Vec2(Sum(meta.columnWidths.widths), Sum(meta.rowHeights.widths))
    ensures dimension.0 * dimension.1 == 0 ==> frame.hlines == [] && frame.vlines == [] && frame.cells == []
    ensures dimension.0 * dimension.1 != 0 ==>
      var (minJ, maxJ) := meta.rowHeights.CoveringRange(view.min.y, view.max.y);
      var (minI, maxI) := meta.columnWidths.CoveringRange(view.min.x, view.max.x);
      && SeparatorsOf(frame.hlines, meta.rowHeights, minJ, maxJ, view.min.y)
      && SeparatorsOf(frame.vlines, meta.columnWidths, minI, maxI, view.min.x)
      && CellsOf(frame.cells, meta.columnWidths, meta.rowHeights, minI, maxI, minJ, maxJ, origin)
    ensures forall k :: 0 <= k < |frame.cells| ==>
      frame.cells[k].coord.0 < dimension.0 && frame.cells[k].coord.1 < dimension.1
    ensures NonNegative(meta.columnWidths.widths) && NonNegative(meta.rowHeights.widths) ==>
      forall i: nat, j: nat :: Visible(meta.columnWidths, meta.rowHeights, i, j, view) ==> Visits(frame.cells, i, j)
    ensures NonNegative(meta.columnWidths.widths) && NonNegative(meta.rowHeights.widths) ==>
      forall k :: 0 <= k < |frame.cells| ==>
        NearViewport(meta.columnWidths, meta.rowHeights, frame.cells[k].coord, view)
  {
    SyncAxes(dimension, meta);
    var (cols, rows) := dimension;

    var size := meta.TotalInternalSize();
    if cols * rows == 0 {
      return Frame(size, [], [], []);
    }

    var (minJ, maxJ) := meta.rowHeights.CoveringRange(view.min.y, view.max.y);
    var (minI, maxI) := meta.columnWidths.CoveringRange(view.min.x, view.max.x);
    var hlines := EmitSeparators(meta.rowHeights, minJ, maxJ, view.min.y);
    var vlines := EmitSeparators(meta.columnWidths, minI, maxI, view.min.x);
    var cells := EmitCells(meta.columnWidths, meta.rowHeights, minI, maxI, minJ, maxJ, origin);
    frame := Frame(size, hlines, vlines, cells);
    if NonNegative(meta.columnWidths.widths) && NonNegative(meta.rowHeights.widths) {
      CoveringCellsCoverAll(cells, meta.columnWidths, meta.rowHeights, origin, view);
      CoveringCellsNearViewport(cells, meta.columnWidths, meta.rowHeights, origin, view);
    }
  }
}
