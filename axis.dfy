/** The size model of one axis of the sheet (all columns, or all rows):
    the authoritative per-index sizes, the cached running sums, and the
    queries built on them. */
module Axis {
  import opened Sums
  import opened Search

  datatype Option<T> = None | Some(value: T)

  /** `Vec::resize(len, fill)`: truncate, or pad with `fill`. */
  function Resized(ws: seq<real>, len: nat, fill: real): (r: seq<real>)
    ensures |r| == len
    ensures forall k :: 0 <= k < |ws| && k < len ==> r[k] == ws[k]
    ensures forall k :: |ws| <= k < len ==> r[k] == fill
  {
    if len <= |ws| then ws[..len] else ws + seq(len - |ws|, _ => fill)
  }

  /** Resizing to the length already held leaves the sizes as they are. */
  lemma ResizedToSameLength(ws: seq<real>, fill: real)
    ensures Resized(ws, |ws|, fill) == ws
  {
  }

  /** Resizing down and back up keeps the sizes of the indices that
      survived and gives every other index the default size. */
  lemma ShrinkThenGrow(ws: seq<real>, small: nat, large: nat, fill: real)
    requires small <= large
    ensures var r := Resized(Resized(ws, small, fill), large, fill);
      && |r| == large
      && (forall k :: 0 <= k < small && k < |ws| ==> r[k] == ws[k])
      && (forall k :: 0 <= k < large && (k >= small || k >= |ws|) ==> r[k] == fill)
  {
  }

  /** The layout of one axis. `widths` is authoritative; `accum` is a cache
      of its running sums that only `RebuildAccum` brings up to date. */
  class Widths {
    const defaultWidth: real
    var widths: seq<real>
    var accum: seq<real>

    /** `SpreadsheetWidths::new`: an empty axis. */
    constructor (defaultWidth: real)
      ensures this.defaultWidth == defaultWidth
      ensures widths == [] && accum == []
      ensures AccumValid()
    {
      this.defaultWidth := defaultWidth;
      widths := [];
      accum := [];
    }

    /** The cache holds the running sums of the current sizes. */
    predicate AccumValid()
      reads this
    {
      IsPrefixSums(accum, widths)
    }

    /** `set_len`: resize the size list, padding with the default size. The
        cache is left as it was, so it is stale until the next rebuild. */
    method SetLen(len: nat)
      modifies this`widths
      ensures widths == Resized(old(widths), len, defaultWidth)
      ensures accum == old(accum)
    {
      widths := Resized(widths, len, defaultWidth);
    }

    /** `get_accum`: the start offset of index `idx`. Index 0 starts at 0;
        index `idx` starts where index `idx - 1` ends, which the cache knows
        for `idx <= |accum|`. */
    function GetAccum(idx: nat): (r: Option<real>)
      reads this
      ensures r.Some? <==> idx <= |accum|
      ensures AccumValid() && idx <= |widths| ==> r == Some(Sum(widths[..idx]))
    {
      if idx == 0 then Some(0.0)
      else if idx - 1 < |accum| then Some(accum[idx - 1])
      else None
    }

    /** `get_width`: the size of index `idx`, absent past the end. */
    function GetWidth(idx: nat): (r: Option<real>)
      reads this
      ensures r.Some? <==> idx < |widths|
      ensures r.Some? ==> r.value == widths[idx]
    {
      if idx < |widths| then Some(widths[idx]) else None
    }

    /** `set_width`: overwrite one size in place. Indexing out of range
        panics in the source, so the index must be in range. The cache is
        not touched. */
    method SetWidth(idx: nat, width: real)
      requires idx < |widths|
      modifies this`widths
      ensures |widths| == |old(widths)|
      ensures widths[idx] == width
      ensures forall k :: 0 <= k < |widths| && k != idx ==> widths[k] == old(widths[k])
      ensures accum == old(accum)
    {
      widths := widths[idx := width];
    }

    /** `rebuild_accum`: clear the cache, resize it to the number of sizes
        filled with zeros, then walk sizes and cache together writing the
        running total into each cache entry. */
    method RebuildAccum()
      modifies this`accum
      ensures AccumValid()
      ensures widths == old(widths)
    {
      accum := [];
      accum := seq(|widths|, _ => 0.0);
      var running := 0.0;
      var i := 0;
      while i < |widths|
        invariant 0 <= i <= |widths|
        invariant |accum| == |widths|
        invariant running == Sum(widths[..i])
        invariant forall k :: 0 <= k < i ==> accum[k] == Sum(widths[..k + 1])
      {
        SumStep(widths, i);
        running := running + widths[i];
        accum := accum[i := running];
        i := i + 1;
      }
    }

    /** `total_width`: the extent of the axis, the last cached sum or 0. */
    function TotalWidth(): (r: real)
      reads this
      ensures AccumValid() ==> r == Sum(widths)
    {
      if |accum| == 0 then 0.0
      else
        assert AccumValid() ==> widths[..|widths|] == widths;
        accum[|accum| - 1]
    }

    /** The largest index `range` may return: `len - 1`, or 0 when empty. */
    function LastIndex(): (r: nat)
      reads this
    {
      if |accum| >= 1 then |accum| - 1 else 0
    }

    /** `range`: the index interval for the coordinate interval
        `[min, max]`, one index wider than the searches on each side and
        clamped to `[0, LastIndex()]`. */
    function Range(min: real, max: real): (r: (nat, nat))
      reads this
      ensures r.0 <= LastIndex() && r.1 <= LastIndex()
      ensures |accum| == 0 ==> r == (0, 0)
    {
      var lo := BinarySearchSorted(accum, min);
      var hi := BinarySearchSorted(accum, max);
      (if lo >= 1 then lo - 1 else 0,
       if hi + 1 <= LastIndex() then hi + 1 else LastIndex())
    }

    /** `range` with the upper end clamped to `len` instead of `len - 1`:
        the clamp under which the last index can be drawn. */
    function CoveringRange(min: real, max: real): (r: (nat, nat))
      reads this
      ensures r.0 <= LastIndex() && r.1 <= |accum|
      ensures r.0 == Range(min, max).0 && Range(min, max).1 <= r.1
    {
      var lo := BinarySearchSorted(accum, min);
      var hi := BinarySearchSorted(accum, max);
      (if lo >= 1 then lo - 1 else 0,
       if hi + 1 <= |accum| then hi + 1 else |accum|)
    }
  }

  /** Index `i` of the axis extends past `min` and starts before `max`: it
      overlaps the open interval `(min, max)`. */
  predicate Overlaps(w: Widths, i: nat, min: real, max: real)
    reads w
    requires i < |w.accum|
  {
    w.GetAccum(i).value < max && min < w.GetAccum(i + 1).value
  }

  /** A valid axis with non-negative sizes has a sorted cache. */
  lemma AccumSorted(w: Widths)
    requires w.AccumValid() && NonNegative(w.widths)
    ensures Sorted(w.accum)
  {
    PrefixSumsSorted(w.accum, w.widths);
  }

  /** Consecutive indices tile the axis: each one ends where the next
      begins. */
  lemma CellsTileAxis(w: Widths, i: nat)
    requires w.AccumValid() && i < |w.widths|
    ensures w.GetAccum(i + 1).value == w.GetAccum(i).value + w.GetWidth(i).value
  {
    SumStep(w.widths, i);
  }

  /** Start offsets never decrease along an axis of non-negative sizes. */
  lemma GetAccumMonotone(w: Widths, i: nat, j: nat)
    requires w.AccumValid() && NonNegative(w.widths)
    requires i <= j <= |w.widths|
    ensures w.GetAccum(i).value <= w.GetAccum(j).value
  {
    SumPrefixMonotone(w.widths, i, j);
  }

  /** For a viewport with `min <= max` on a sorted cache the interval is
      never reversed. */
  lemma RangeOrdered(w: Widths, min: real, max: real)
    requires Sorted(w.accum) && min <= max
    ensures w.Range(min, max).0 <= w.Range(min, max).1
    ensures w.CoveringRange(min, max).0 <= w.CoveringRange(min, max).1
  {
    var lo := BinarySearchSorted(w.accum, min);
    var hi := BinarySearchSorted(w.accum, max);
    BinarySearchSortedPartition(w.accum, min);
    BinarySearchSortedPartition(w.accum, max);
    assert hi < |w.accum| ==> max <= w.accum[hi];
  }

  /** The search bounds on the upper end: index `i` starts before `max`, so
      it is at most the search position of `max`. */
  lemma BelowUpperSearch(w: Widths, i: nat, max: real)
    requires w.AccumValid() && NonNegative(w.widths)
    requires i < |w.widths| && w.GetAccum(i).value < max
    ensures i <= BinarySearchSorted(w.accum, max)
  {
    AccumSorted(w);
    BinarySearchSortedPartition(w.accum, max);
  }

  /** The search bounds on the lower end: index `i` ends past `min`, so it
      is at least the search position of `min`. */
  lemma AboveLowerSearch(w: Widths, i: nat, min: real)
    requires w.AccumValid() && NonNegative(w.widths)
    requires i < |w.widths| && min < w.GetAccum(i + 1).value
    ensures BinarySearchSorted(w.accum, min) <= i
  {
    AccumSorted(w);
    BinarySearchSortedPartition(w.accum, min);
  }

  /** As written, `range` returns every index overlapping the interval
      except the last index of the axis, which it never returns as part of
      the half-open interval. */
  lemma RangeCoversAllButLast(w: Widths, i: nat, min: real, max: real)
    requires w.AccumValid() && NonNegative(w.widths)
    requires i < |w.widths|
    ensures i + 1 < |w.widths| && Overlaps(w, i, min, max) ==>
      w.Range(min, max).0 <= i < w.Range(min, max).1
    ensures i + 1 == |w.widths| ==> !(w.Range(min, max).0 <= i < w.Range(min, max).1)
  {
    if i + 1 < |w.widths| && Overlaps(w, i, min, max) {
      BelowUpperSearch(w, i, max);
      AboveLowerSearch(w, i, min);
    }
  }

  /** An axis of one index, whose index fills the viewport, gets the empty
      half-open interval from `range`. */
  lemma SingleIndexHidden(w: Widths)
    requires w.widths == [200.0] && w.accum == [200.0]
    ensures Overlaps(w, 0, 0.0, 500.0)
    ensures w.Range(0.0, 500.0) == (0, 0)
  {
  }

  /** Three columns 200 wide and the interval `[150, 450]`: the searches
      land on 0 and 2, the widening is clamped on both sides. */
  lemma RangeOfUniformColumns(w: Widths)
    requires w.widths == [200.0, 200.0, 200.0] && w.accum == [200.0, 400.0, 600.0]
    ensures w.Range(150.0, 450.0) == (0, 2)
  {
    var a := w.accum;
    assert SearchLoop(a, 150.0, 0, 3) == SearchLoop(a, 150.0, 0, 2) == SearchLoop(a, 150.0, 0, 1) == NotFound(0);
    assert SearchLoop(a, 450.0, 0, 3) == SearchLoop(a, 450.0, 1, 2) == SearchLoop(a, 450.0, 1, 1) == NotFound(2);
  }

  /** Rows of heights 10, 20, 10, 10, 50 and the interval `[35, 55]`: the
      searches land on 2 and 4, so the rows are widened to `(1, 4)`. */
  lemma RangeOfVariableRows(w: Widths)
    requires w.widths == [10.0, 20.0, 10.0, 10.0, 50.0] && w.accum == [10.0, 30.0, 40.0, 50.0, 100.0]
    ensures w.Range(35.0, 55.0) == (1, 4)
  {
    var a := w.accum;
    assert SearchLoop(a, 35.0, 0, 5) == SearchLoop(a, 35.0, 0, 3) == SearchLoop(a, 35.0, 1, 2)
        == SearchLoop(a, 35.0, 1, 1) == NotFound(2);
    assert SearchLoop(a, 55.0, 0, 5) == SearchLoop(a, 55.0, 2, 3) == SearchLoop(a, 55.0, 3, 2)
        == SearchLoop(a, 55.0, 3, 1) == NotFound(4);
  }

  /** With the upper clamp at `len`, every index that overlaps the
      interval lies in the half-open interval. */
  lemma CoveringRangeCovers(w: Widths, i: nat, min: real, max: real)
    requires w.AccumValid() && NonNegative(w.widths)
    requires i < |w.widths| && Overlaps(w, i, min, max)
    ensures w.CoveringRange(min, max).0 <= i < w.CoveringRange(min, max).1
  {
    BelowUpperSearch(w, i, max);
    AboveLowerSearch(w, i, min);
  }

  /** The widening is by one index at most: an index in the interval
      starts no later than `max`, and the index after it ends no earlier
      than `min`. */
  lemma CoveringRangeTight(w: Widths, i: nat, min: real, max: real)
    requires w.AccumValid() && NonNegative(w.widths)
    requires w.CoveringRange(min, max).0 <= i < w.CoveringRange(min, max).1
    ensures i < |w.widths|
    ensures i >= 1 ==> w.GetAccum(i).value <= max
    ensures i + 1 < |w.widths| ==> min <= w.GetAccum(i + 2).value
  {
    AccumSorted(w);
    BinarySearchSortedPartition(w.accum, min);
    BinarySearchSortedPartition(w.accum, max);
  }

  /** `range` as written widens by one index at most too: an index in its
      interval starts no later than `max`, and the index after it ends no
      earlier than `min`. */
  lemma RangeTight(w: Widths, i: nat, min: real, max: real)
    requires w.AccumValid() && NonNegative(w.widths)
    requires w.Range(min, max).0 <= i < w.Range(min, max).1
    ensures i < |w.widths|
    ensures i >= 1 ==> w.GetAccum(i).value <= max
    ensures i + 1 < |w.widths| ==> min <= w.GetAccum(i + 2).value
  {
    CoveringRangeTight(w, i, min, max);
  }
}
