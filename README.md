# Axis layout and grid enumeration of egui-spreadsheet

A Dafny model of the virtualised layout engine of the `egui-spreadsheet`
widget (`src/lib.rs`). One axis of the sheet (all columns, or all rows) is a
`SpreadsheetWidths`: an authoritative list of per-index sizes, a cache of
their running sums, and a `range` query that maps a coordinate interval to
an index interval by binary search over that cache, widened by one index on
each side. `SpreadSheetWidget::show` combines a column axis and a row axis:
it resizes both to the sheet's dimensions, rebuilds their caches, returns
early for an empty sheet, resolves the viewport into index ranges, emits
separator lines over the inclusive ranges and calls the per-cell callback,
row by row, over the half-open ranges with each cell's rectangle.

Files and modules:

- `sums.dfy` (`Sums`): `Sum`, prefix sums, sortedness and the facts that
  the cache relies on.
- `search.dfy` (`Search`): the standard library's `binary_search_by` with a
  `partial_cmp` comparator (`BinarySearchBy`, its halving loop `SearchLoop`)
  and `binary_search_sorted` (`BinarySearchSorted`).
- `axis.dfy` (`Axis`): the class `Widths` (`SpreadsheetWidths`) with its
  methods and queries, `Vec::resize` (`Resized`), and the lemmas about
  offsets and ranges.
- `grid.dfy` (`Grid`): `Vec2`, `Rect`, the class `Metadata`
  (`SpreadsheetMetadata`), the row-major enumeration `GridOrder`, the loops
  of `show` (`EmitSeparators`, `EmitCells`) and `show` itself (`Show`).

Modelling decisions:

- Sizes and coordinates are `real`: exact sums, no NaN. Every numeric
  property below is about exact arithmetic.
- `SpreadsheetWidths` is a class whose `widths` and `accum` are `seq<real>`
  fields that the methods reassign; `default_width` never changes after
  `new` and is a `const`. `AccumValid()` says the cache holds the running
  sums of the sizes. `set_len` and `set_width` leave the cache stale, as the
  code does; `show` rebuilds it right after resizing (src/lib.rs:64-67).
- `show` is modelled as a method that returns a `Frame`: the size given
  to `allocate_response`, the horizontal and vertical separator lines (index
  and painted offset), and the cells in callback order (coordinate and
  `Rect::from_min_size` rectangle). The viewport `view` and the widget's
  top-left corner `origin` (`resp.rect.min`) are parameters.
- Each `unwrap` in `show` becomes a `.value` on an `Option` that the
  verifier proves present: `EmitSeparators` and `EmitCells` state the bounds
  under which they succeed, and `Show` meets them from `Range`'s contract.
- `binary_search_by` is not part of the repository. The model follows the
  standard library's current algorithm (a `base`/`size` halving loop with
  no early exit). Which of several equal entries it reports is that
  algorithm's choice; the partition properties proved hold for any match.
- There is no uniform-size mode and no mode switch in `src/lib.rs`; only
  the variable-size representation exists, and that is what is modelled.

## Model

| member | source | states |
|---|---|---|
| `Sums.PrefixSumsSorted` | src/lib.rs:182-191 | running sums of non-negative sizes are non-decreasing |
| `Search.SearchLoop` | src/lib.rs:219 | the halving loop's answer lies in its window `[base, base + size]`, and a `Found` answer points at an entry equal to `x` |
| `Search.SearchLoopPartition` | src/lib.rs:219 | on a sorted slice, an insertion point from the loop has every entry before it below `x` and every entry from it on above `x` |
| `Search.BinarySearchBy` | src/lib.rs:219 | with the comparator `Compare` (`partial_cmp` on sizes that are never NaN), the result is at most the slice length, and `Ok(i)` points at an entry equal to `x` |
| `Search.BinarySearchByCorrect` | src/lib.rs:219-220 | on a sorted slice the search finds `x` exactly when `x` occurs, and otherwise returns the insertion point that splits entries below `x` from entries above it |
| `Search.BinarySearchSorted` | src/lib.rs:218-222 | the result is at most the slice length |
| `Search.BinarySearchSortedPartition` | src/lib.rs:218-222 | on a sorted slice, entries before the result are at most `x` and entries from it on are at least `x`, for a match and an insertion point alike |
| `Axis.Resized` | src/lib.rs:163-165 | the list gets exactly the new length, surviving entries keep their sizes, new entries get the fill size |
| `Axis.ResizedToSameLength` | src/lib.rs:163-165 | resizing to the current length changes nothing |
| `Axis.ShrinkThenGrow` | src/lib.rs:163-165 | shrinking then growing back keeps the sizes of the indices that survived and resets every other index to the default |
| `Axis.Widths.constructor` | src/lib.rs:155-161 | a new axis has the given default size, no sizes and an empty (valid) cache |
| `Axis.Widths.SetLen` | src/lib.rs:163-165 | the sizes become the old sizes resized to `len` with the default size, and the cache is left unchanged |
| `Axis.Widths.GetAccum` | src/lib.rs:167-172 | an offset is present exactly for `idx <= len(accum)`; with a valid cache it is the sum of the sizes of indices `0 .. idx` (0 for index 0) |
| `Axis.Widths.GetWidth` | src/lib.rs:174-176 | a size is present exactly for `idx < len(widths)`, and it is `widths[idx]` |
| `Axis.Widths.SetWidth` | src/lib.rs:178-180 | for an index in range, that entry becomes `width`, every other entry and the length are unchanged, and the cache is unchanged |
| `Axis.Widths.RebuildAccum` | src/lib.rs:182-191 | afterwards the cache has the length of the sizes and entry `i` is `widths[0] + ... + widths[i]`; the sizes are unchanged |
| `Axis.Widths.TotalWidth` | src/lib.rs:193-195 | with a valid cache the extent is the sum of all sizes (0 for an empty axis) |
| `Axis.Widths.Range` | src/lib.rs:197-205 | both ends are at most `LastIndex()`, the `len().checked_sub(1).unwrap_or(0)` of src/lib.rs:203, and an empty cache gives `(0, 0)` |
| `Axis.Widths.CoveringRange` | src/lib.rs:197-205 | the corrected range: same lower end as `range`, upper end at least `range`'s and at most `len` |
| `Axis.AccumSorted` | src/lib.rs:182-191 | a valid cache over non-negative sizes is sorted, so `range` may binary search it |
| `Axis.CellsTileAxis` | src/lib.rs:167-176 | index `i + 1` starts exactly where index `i` ends (start plus size) |
| `Axis.GetAccumMonotone` | src/lib.rs:167-172 | start offsets never decrease along an axis of non-negative sizes |
| `Axis.RangeOrdered` | src/lib.rs:197-205 | for `min <= max` on a sorted cache the resolved interval is never reversed |
| `Axis.RangeCoversAllButLast` | src/lib.rs:197-205 | for non-negative sizes (valid cache): every index except the last that overlaps `(min, max)` lies in `range`'s half-open interval, and the last index never does |
| `Axis.SingleIndexHidden` | src/lib.rs:197-205 | an axis of one index that overlaps the viewport gets the empty interval `(0, 0)` |
| `Axis.RangeOfUniformColumns` | src/lib.rs:197-205 | three columns of 200 and `[150, 450]` resolve to `(0, 2)` |
| `Axis.RangeOfVariableRows` | src/lib.rs:197-205 | rows 10, 20, 10, 10, 50 and `[35, 55]` resolve to `(1, 4)` |
| `Axis.CoveringRangeCovers` | src/lib.rs:197-205 | for non-negative sizes (valid cache), with the clamp at `len`, every index overlapping `(min, max)` lies in the half-open interval |
| `Axis.CoveringRangeTight` | src/lib.rs:197-205 | for non-negative sizes (valid cache), the widening is at most one index: an index in the interval starts no later than `max`, and the next one ends no earlier than `min` |
| `Axis.RangeTight` | src/lib.rs:197-205 | for non-negative sizes (valid cache), `range` as written also widens by at most one index on each side: an index in its interval starts no later than `max`, and the next one ends no earlier than `min` |
| `Grid.Metadata.constructor` | src/lib.rs:208-216 | the default metadata has columns of default width 200 and rows of default height 20, both empty, as two separate axes |
| `Grid.Metadata.TotalInternalSize` | src/lib.rs:18-23 | with valid caches the size is the sum of the column widths and the sum of the row heights |
| `Grid.Row` | src/lib.rs:107-123 | one row visits columns `lo .. hi` in order: entry `k` is `(lo + k, j)` |
| `Grid.GridOrder` | src/lib.rs:104-124 | every visited coordinate lies in `[minI, maxI) x [minJ, maxJ)` |
| `Grid.GridOrderMembers` | src/lib.rs:104-124 | a coordinate is visited exactly when it lies in the block |
| `Grid.GridOrderRowMajor` | src/lib.rs:104-124 | visits are strictly increasing in row-major order (outer loop over rows), so no coordinate is visited twice |
| `Grid.GridOrderLength` | src/lib.rs:104-124 | the number of visits is the number of cells of the block |
| `Grid.CellsOfCover` | src/lib.rs:104-124 | every coordinate of the block is among the emitted cells |
| `Grid.EmitSeparators` | src/lib.rs:89-101 | one line per index of `lo ..= hi`, in order, at the index's start offset minus the viewport's corner; every `unwrap` succeeds when `hi <= len(accum)` |
| `Grid.EmitCells` | src/lib.rs:104-124 | the cells of the block in row-major order, each with the rectangle `FromMinSize` (`Rect::from_min_size`, src/lib.rs:113) of origin `(get_accum(i), get_accum(j))` shifted by the widget corner and size `(get_width(i), get_width(j))`; every `unwrap` succeeds within the axis bounds |
| `Grid.RangeCellsCoverAllButLast` | src/lib.rs:87-124 | for non-negative sizes (valid caches), the cells of `range`'s intervals include every cell overlapping the viewport outside the last column and last row |
| `Grid.CoveringCellsCoverAll` | src/lib.rs:87-124 | for non-negative sizes (valid caches), the cells of the corrected intervals include every cell overlapping the viewport |
| `Grid.RangeCellsNearViewport` | src/lib.rs:87-124 | for non-negative sizes (valid caches), every cell of `range`'s intervals has its column and row starting no later than the viewport's max corner, and the next column and row ending no earlier than its min corner |
| `Grid.CoveringCellsNearViewport` | src/lib.rs:87-124 | the same bound for the cells of the corrected intervals |
| `Grid.SyncAxes` | src/lib.rs:62-67 | both axes get the sheet's dimensions (resized with their defaults) and valid caches |
| `Grid.Show` | src/lib.rs:56-127 | after `show` both axes are synced and valid; the size is the two totals; an empty sheet emits nothing; otherwise the lines and cells are those of `range`'s intervals; no cell lies in the last column or row; for non-negative sizes, every other visible cell is visited and every cell lies within one column and one row of the viewport |
| `Grid.ShowCovering` | src/lib.rs:56-127 | `show` with the corrected range: the same frame shape, all `unwrap`s safe, every cell within the sheet; for non-negative sizes, every visible cell visited and every cell within one column and one row of the viewport |

## Findings

| source | as written | input that shows it | evidently intended | confidence | as-written member | corrected member |
|---|---|---|---|---|---|---|
| src/lib.rs:202-203 | the upper end of `range` is clamped to `len - 1`, and `show` enumerates cells over the half-open `min..max`, so the last column and the last row are never drawn | a 1 x 1 sheet with the default sizes and a viewport `[0, 500]` on both axes: both ranges are `(0, 0)` and no cell is drawn | clamp the upper end to `len`; `get_accum(len)` and `get_width(len - 1)` are still present, so every `unwrap` stays safe and every visible cell is drawn | not executed | `Axis.SingleIndexHidden` | `Axis.CoveringRangeCovers` |

`Axis.RangeCoversAllButLast` and `Grid.Show` state the general as-written
behaviour; `Axis.Widths.CoveringRange` is the corrected definition and
`Grid.ShowCovering` the frame procedure that uses it.

## Left out

- Floating point: sizes are exact reals, so rounding in the running sums and the NaN case of `partial_cmp(...).unwrap_or(Equal)` (src/lib.rs:219) are not modelled.
- Toolkit calls in `show`: `allocate_response` and `Sense` (only the requested size is kept), the painter's `hline`/`vline` (only the index and offset of each line, not its span or stroke), `UiBuilder`, `allocate_new_ui` and the `Id` salting (only the coordinate and rectangle of each callback call), `next_auto_id`. These are calls into egui.
- The choice of viewport (`show_area` or the allocated rectangle moved to the origin, src/lib.rs:76-78) and `resp.rect.min`: both are parameters of `Show`.
- `show_persisted_meta` (src/lib.rs:130-144): a round trip through egui's persisted memory.
- `SpreadSheetWidget::new` and `show_area` (src/lib.rs:43-54): builder setters; `Show` takes the dimension directly.
- The `cursor` field of `SpreadsheetMetadata`: no code reads or writes it beyond `Default`.
- The commented-out `Spreadsheet` and `SelectionDetails` (src/lib.rs:26-40) and the demo programs `examples/basic.rs` and `examples/huge.rs`.
- Negative sizes: `set_width` stores any value, and a negative size leaves the cache unsorted, so the binary search no longer partitions it; no coverage or near-viewport guarantee is claimed for negative sizes (the `Grid.Show` and `Grid.ShowCovering` coverage clauses are conditional on non-negative sizes).
- Grid.Show: `cols * rows` is computed on unbounded integers, so a `usize` overflow of the product is not modelled.
- Axis.Widths.SetWidth: an out-of-range index panics in the code; the model makes the index bound a precondition instead of modelling the panic.
