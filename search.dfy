/** Binary search over a sorted slice of sizes, as the layout uses it to turn
    a coordinate into an index. */
module Search {
  import opened Sums

  /** Rust's `Result<usize, usize>` of a slice search: `Found(i)` is `Ok(i)`,
      `NotFound(i)` is `Err(i)`, the insertion point. */
  datatype SearchResult = Found(index: nat) | NotFound(index: nat)

  datatype Ordering = Less | Equal | Greater

  /** `a.partial_cmp(&x)` for sizes that are never NaN. */
  function Compare(a: real, x: real): (r: Ordering)
  {
    if a < x then Less else if a == x then Equal else Greater
  }

  /** The standard library's `binary_search_by` with the comparator
      `|a| a.partial_cmp(&x)`: an empty slice answers `Err(0)`, otherwise the
      halving loop runs on `base` and `size`. */
  function BinarySearchBy(arr: seq<real>, x: real): (r: SearchResult)
    ensures r.index <= |arr|
    ensures r.Found? ==> r.index < |arr| && arr[r.index] == x
  {
    if |arr| == 0 then NotFound(0) else SearchLoop(arr, x, 0, |arr|)
  }

  /** The halving loop of `binary_search_by`: while more than one candidate
      is left, probe the middle one and keep the half that may still hold
      `x`; then compare the one candidate left. */
  function SearchLoop(arr: seq<real>, x: real, base: nat, size: nat): (r: SearchResult)
    requires 1 <= size && base + size <= |arr|
    ensures base <= r.index <= base + size
    ensures r.Found? ==> r.index < base + size && arr[r.index] == x
    decreases size
  {
    if size > 1 then
      var half := size / 2;
      var mid := base + half;
      SearchLoop(arr, x, if Compare(arr[mid], x) == Greater then base else mid, size - half)
    else
      match Compare(arr[base], x)
      case Equal => Found(base)
      case Less => NotFound(base + 1)
      case Greater => NotFound(base)
  }

  /** The halving loop keeps its window: every entry before `base` is at
      most `x` (it is at most `arr[base]`, which was probed as not greater),
      every entry past the window is greater than `x`. */
  lemma {:induction false} SearchLoopPartition(arr: seq<real>, x: real, base: nat, size: nat)
    requires 1 <= size && base + size <= |arr|
    requires Sorted(arr)
    requires base > 0 ==> arr[base] <= x
    requires forall k :: base + size <= k < |arr| ==> arr[k] > x
    decreases size
    ensures var r := SearchLoop(arr, x, base, size);
      r.NotFound? ==>
        (forall k :: 0 <= k < r.index ==> arr[k] < x) &&
        (forall k :: r.index <= k < |arr| ==> arr[k] > x)
  {
    if size > 1 {
      var half := size / 2;
      var mid := base + half;
      if Compare(arr[mid], x) == Greater {
        AboveProbe(arr, x, mid, base + (size - half));
        SearchLoopPartition(arr, x, base, size - half);
        assert SearchLoop(arr, x, base, size) == SearchLoop(arr, x, base, size - half);
      } else {
        SearchLoopPartition(arr, x, mid, size - half);
        assert SearchLoop(arr, x, base, size) == SearchLoop(arr, x, mid, size - half);
      }
    } else {
      SearchLastProbe(arr, x, base);
    }
  }

  /** A probe greater than `x` puts everything from it on above `x`. */
  lemma AboveProbe(arr: seq<real>, x: real, mid: nat, from: nat)
    requires mid <= from && mid < |arr|
    requires Sorted(arr)
    requires arr[mid] > x
    ensures forall k :: from <= k < |arr| ==> arr[k] > x
  {
  }

  /** The final comparison of the halving loop, on the one candidate left. */
  lemma SearchLastProbe(arr: seq<real>, x: real, base: nat)
    requires base < |arr|
    requires Sorted(arr)
    requires base > 0 ==> arr[base] <= x
    requires forall k :: base + 1 <= k < |arr| ==> arr[k] > x
    ensures var r := SearchLoop(arr, x, base, 1);
      r.NotFound? ==>
        (forall k :: 0 <= k < r.index ==> arr[k] < x) &&
        (forall k :: r.index <= k < |arr| ==> arr[k] > x)
  {
  }

  /** On a sorted slice the search either finds `x` or returns the point
      that splits the entries below `x` from those above it; it finds `x`
      exactly when `x` occurs. */
  lemma BinarySearchByCorrect(arr: seq<real>, x: real)
    requires Sorted(arr)
    ensures var r := BinarySearchBy(arr, x);
      && (r.Found? <==> x in arr)
      && (r.Found? ==> arr[r.index] == x)
      && (r.NotFound? ==>
            (forall k :: 0 <= k < r.index ==> arr[k] < x) &&
            (forall k :: r.index <= k < |arr| ==> arr[k] > x))
  {
    if |arr| > 0 {
      SearchLoopPartition(arr, x, 0, |arr|);
    }
  }

  /** `binary_search_sorted`: the match position or the insertion point,
      whichever the search returns. */
  function BinarySearchSorted(arr: seq<real>, x: real): (r: nat)
    ensures r <= |arr|
  {
    match BinarySearchBy(arr, x)
    case Found(idx) => idx
    case NotFound(idx) => idx
  }

  /** Both kinds of result split a sorted slice at `x`: the entries before
      the returned position are at most `x`, the ones from it on at least
      `x`. */
  lemma BinarySearchSortedPartition(arr: seq<real>, x: real)
    requires Sorted(arr)
    ensures var r := BinarySearchSorted(arr, x);
      && (forall k :: 0 <= k < r ==> arr[k] <= x)
      && (forall k :: r <= k < |arr| ==> arr[k] >= x)
  {
    BinarySearchByCorrect(arr, x);
  }
}
