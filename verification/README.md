# Side-scan sonar map image builder

A Dafny model of `sss_map_image_builder` and the `sss_map_image` record it
produces (`src/bathy_maps/include/bathy_maps/sss_map_image.h`). The builder
covers one rectangular survey tile at a fixed resolution in cells per unit
length. It folds batches of sonar hits `(x, y, z, intensity)` into two grids
of equal shape: per-cell intensity sums and per-cell hit counts. It logs one
vehicle pose per non-empty batch. `finish()` turns the grids into a
mean-intensity map image.

The builder is an immutable datatype and every member of the C++ class is a
pure function of it:

- `numeric.dfy`, module `Numeric`: `Trunc`, the C++ double-to-int conversion (rounds toward zero, not floor).
- `grid.dfy`, module `Grid`: dense grids as `seq<seq<T>>`, the Eigen matrices; `Total` is Eigen's `.sum()` on the count grid.
- `sss_map_image.dfy`, module `SssMapImage`: the `MapImage` and `Builder` datatypes, the constructor `New`, `IsEmpty` (`empty()`), `AddHit` / `Accumulate` / `AddHits` (`add_hits`), and `Finish` (`finish()`).
- `builder_properties.dfy`, module `BuilderProperties`: per-cell and total accounting over whole batches, and pose-log accounting over sequences of calls (`Run`), each stated against an independent reference definition.
- `scenarios.dfy`, module `Scenarios`: worked examples on a 10 x 10 tile.

Modelling choices:
- Coordinates, intensities and sums are `real`. Counts are `nat`; in the source they are doubles that only ever hold whole numbers.
- The in-place update of the count grid by `finish()` is modelled by returning the builder as `finish()` leaves it (`Finished.after`) beside the image.
- `add_hits` never writes the three waterfall matrices. They stay empty (default-constructed) and `finish()` copies them as they are.
- The constructor does not validate the bounds, so `New` requires `ValidConfig`; with no recorded hit, `finish()` leaves the mean grid 0 x 0 rather than all-zero.
- Truncation toward zero means a scaled coordinate in (-1, 0) lands in cell 0 and is counted (`Scenarios.NegativeFractionLandsInFirstColumn`).

## Model

| member | source | states |
|---|---|---|
| Numeric.Trunc | src/bathy_maps/include/bathy_maps/sss_map_image.h:129-130 | the converted index is the integer nearest zero within distance 1 of the value: below or equal for non-negative values, above or equal for negative ones |
| Numeric.TruncIsFloorWhenNonNegativeOrIntegral | src/bathy_maps/include/bathy_maps/sss_map_image.h:129-130 | truncation equals floor exactly when the value is non-negative or integral, so negative fractions land one cell higher than floor would put them |
| Grid.Fill | src/bathy_maps/include/bathy_maps/sss_map_image.h:68-69 | `Zero(rows, cols)` has the requested shape and every cell equal to the fill value |
| Grid.TotalZeroIff | src/bathy_maps/include/bathy_maps/sss_map_image.h:74 | a grid of non-negative counts sums to zero exactly when every cell is zero |
| Grid.TotalAfterSet | src/bathy_maps/include/bathy_maps/sss_map_image.h:133 | changing one count changes the grid sum by exactly the difference |
| SssMapImage.ValidConfig | src/bathy_maps/include/bathy_maps/sss_map_image.h:60-66 | the bounds and resolution the constructor is called with make both scaled extents positive, so the derived dimensions are non-negative |
| SssMapImage.CellCol | src/bathy_maps/include/bathy_maps/sss_map_image.h:122-129 | the column is x scaled by the resolution, truncated toward zero: within distance 1 of the scaled value, on its side of zero |
| SssMapImage.CellRow | src/bathy_maps/include/bathy_maps/sss_map_image.h:122-130 | the row is y scaled by the resolution, truncated toward zero: within distance 1 of the scaled value, on its side of zero |
| SssMapImage.InGrid | src/bathy_maps/include/bathy_maps/sss_map_image.h:131 | a hit is kept exactly when the grid has cells and its scaled x lies in the open interval (-1, cols) and its scaled y in (-1, rows) |
| Numeric.TruncIndexRange | src/bathy_maps/include/bathy_maps/sss_map_image.h:129-131 | a truncated coordinate passes the range test below n exactly when n > 0 and the coordinate lies strictly between -1 and n |
| Grid.Total | src/bathy_maps/include/bathy_maps/sss_map_image.h:74 | `.sum()` of a count grid is at least every single cell |
| Grid.SetCell | src/bathy_maps/include/bathy_maps/sss_map_image.h:132-133 | the updated grid has the same shape, the new value at the chosen cell, and every other cell unchanged |
| SssMapImage.New | src/bathy_maps/include/bathy_maps/sss_map_image.h:60-70 | columns and rows are the truncated scaled x and y extents, both grids are all-zero of that shape, the origin is (min x, min y, 0), the pose log and waterfall matrices are empty, and the builder invariant holds |
| SssMapImage.IsEmpty | src/bathy_maps/include/bathy_maps/sss_map_image.h:72-75 | true exactly when every count cell is zero |
| SssMapImage.AddHit | src/bathy_maps/include/bathy_maps/sss_map_image.h:128-136 | a hit whose truncated cell is inside adds its intensity to that cell's sum and 1 to its count; an outside hit changes nothing; no other cell and no other field changes |
| SssMapImage.Accumulate | src/bathy_maps/include/bathy_maps/sss_map_image.h:128-136 | folding a batch keeps the dimensions, configuration and pose log and never decreases a count |
| SssMapImage.AccumulateKeepsZeroSums | src/bathy_maps/include/bathy_maps/sss_map_image.h:128-136 | folding a batch keeps the invariant that a cell with count zero has sum zero |
| SssMapImage.AddHits | src/bathy_maps/include/bathy_maps/sss_map_image.h:110-138 | an empty batch is a no-op; a non-empty batch appends exactly the given pose; waterfall matrices, bounds, resolution and dimensions never change |
| SssMapImage.AddHitsPreserves | src/bathy_maps/include/bathy_maps/sss_map_image.h:128-136 | `add_hits` never decreases a count and keeps the invariant that a zero-count cell has zero sum |
| SssMapImage.BumpZeros | src/bathy_maps/include/bathy_maps/sss_map_image.h:99 | zero counts become 1, all others are unchanged, so no cell is zero afterwards |
| SssMapImage.Divide | src/bathy_maps/include/bathy_maps/sss_map_image.h:100 | every mean cell times its (non-zero) count gives back the cell's sum |
| SssMapImage.Finish | src/bathy_maps/include/bathy_maps/sss_map_image.h:94-108 | bounds, poses and waterfall matrices are copied verbatim; with no recorded hit the mean grid is empty and the builder untouched; otherwise the mean grid has the builder's shape, a counted cell's mean is sum / count, a zero-count cell's mean is its sum (0 under the invariant) and its count becomes 1 |
| BuilderProperties.AccumulateCell | src/bathy_maps/include/bathy_maps/sss_map_image.h:128-136 | after a batch, each cell's count grew by exactly the number of hits landing in it and its sum by exactly their intensities |
| BuilderProperties.AccumulateOutside | src/bathy_maps/include/bathy_maps/sss_map_image.h:131 | a batch lying wholly outside the grid leaves the builder unchanged |
| BuilderProperties.AccumulateTotal | src/bathy_maps/include/bathy_maps/sss_map_image.h:128-136 | the total count grows by exactly the number of hits inside the grid |
| BuilderProperties.InsideCountDependsOnConfig | src/bathy_maps/include/bathy_maps/sss_map_image.h:131 | whether a hit is kept depends only on resolution and dimensions, not on what the grids already hold |
| BuilderProperties.AddHitsCell | src/bathy_maps/include/bathy_maps/sss_map_image.h:110-136 | one `add_hits` call changes each cell by exactly the hits of its batch that land there, whatever the pose or side flag |
| BuilderProperties.AddHitsEmpty | src/bathy_maps/include/bathy_maps/sss_map_image.h:72-136 | after `add_hits` the builder is empty exactly when it was empty before and no hit of the batch fell inside the grid |
| BuilderProperties.Run | src/bathy_maps/include/bathy_maps/sss_map_image.h:110-138 | any sequence of calls keeps grid shape, configuration and waterfall matrices |
| BuilderProperties.RunPreserves | src/bathy_maps/include/bathy_maps/sss_map_image.h:110-138 | across any sequence of calls no count decreases and the builder invariant is kept |
| BuilderProperties.NonEmptyPosesLength | src/bathy_maps/include/bathy_maps/sss_map_image.h:112-116 | exactly one pose is collected per call whose batch was non-empty |
| BuilderProperties.RunPoses | src/bathy_maps/include/bathy_maps/sss_map_image.h:112-116 | the pose log grows by exactly the poses of the calls whose batch was non-empty, in call order |
| BuilderProperties.FromNew | src/bathy_maps/include/bathy_maps/sss_map_image.h:60-138 | from construction, after any call sequence the builder is valid, keeps its dimensions and empty waterfall matrices, and its pose log is exactly the non-empty calls' poses |
| BuilderProperties.FinishFromNew | src/bathy_maps/include/bathy_maps/sss_map_image.h:94-108 | finishing a builder reached from construction gives the original bounds, one pose per non-empty call, empty waterfall matrices, an empty mean grid when nothing was recorded, and otherwise mean sum / count per counted cell and exactly 0 per uncounted cell |
| Scenarios.TileDimensions | src/bathy_maps/include/bathy_maps/sss_map_image.h:65-66 | bounds [[0,0],[10,10]] at resolution 1 give a 10 x 10 grid that starts empty |
| Scenarios.TwoHitsInOneCell | src/bathy_maps/include/bathy_maps/sss_map_image.h:98-136 | hits at (3.4, 7.8) with intensity 5 and (3.9, 7.1) with intensity 9 both land in row 7, column 3, giving count 2, sum 14 and mean 7, with both poses logged |
| Scenarios.NegativeFractionLandsInFirstColumn | src/bathy_maps/include/bathy_maps/sss_map_image.h:129-133 | a hit at x = -0.5 is counted in column 0, although floor would give column -1 |
| Scenarios.OutOfRangeHitDropped | src/bathy_maps/include/bathy_maps/sss_map_image.h:116-131 | a hit beyond the tile's extent leaves both grids unchanged and the builder empty, yet its pose is logged |
| Scenarios.FinishWithoutHits | src/bathy_maps/include/bathy_maps/sss_map_image.h:96-101 | finishing a tile with no hits gives a mean grid with no cells |

## Left out

- `convert_maps_to_patches` (line 144) is only declared in this header; its definition and `patch_views.h` are not part of this model, so patch extraction is not modelled.
- `serialize` (lines 26-32) is archive plumbing for persistence, outside the accumulation logic.
- The console output in `add_hits` (lines 124-125, 137) and the `inside_image` counter that feeds it are diagnostics with no effect on state.
- The commented-out `activate`, `is_active` and `split` (lines 77-92) have no behaviour.
- The `is_left` parameter is accepted and ignored, as in the source.
- IEEE-754 rounding is not modelled: sums and means are exact `real` arithmetic, and so are the scaled coordinates behind `SssMapImage.CellCol` / `SssMapImage.CellRow` and the scaled extents behind `SssMapImage.New`'s dimensions. In double arithmetic a product can fall just below an integer (x = 0.29 at resolution 100 gives 28.999999999999996, column 28) where the model computes the exact value (column 29).
- SssMapImage.New: the conversion of the scaled extent to `int` is not bounded to 32 bits; a value outside `int` range is undefined behaviour in C++ and is not modelled.
- SssMapImage.AddHit: the same applies to the per-hit index conversion; only the truncation toward zero is modelled.
- `EIGEN_MAKE_ALIGNED_OPERATOR_NEW` and the aligned allocators are memory-layout details.
- `src/apps/src/compare_ping_data.cpp` (command-line handling, file parsing, caching, drawing) is not part of this model.
