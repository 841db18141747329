/**
 The side-scan sonar map image and its builder. A builder covers one
 rectangular tile of the survey at a fixed resolution (cells per unit length).
 Batches of sonar hits, already expressed relative to the tile's minimum
 corner, are folded into a grid of intensity sums and a grid of hit counts;
 `Finish` divides the one by the other to give the mean-intensity map image.

 The builder is modelled as an immutable value: every mutating member of the
 C++ class becomes a function from the old state to the new one.
 */
module SssMapImage {
  import opened Numeric
  import opened Grid

  /** A vehicle position, or the tile's origin. */
  datatype Vec3 = Vec3(x: real, y: real, z: real)

  /**
   The 2x2 bounds matrix: row 0 holds the minimum (x, y), row 1 the maximum,
   so `minX` is `bounds(0, 0)`, `minY` is `bounds(0, 1)`, `maxX` is
   `bounds(1, 0)` and `maxY` is `bounds(1, 1)`.
   */
  datatype Bounds = Bounds(minX: real, minY: real, maxX: real, maxY: real)

  /** One row `(x, y, z, intensity)` of a hit batch, in tile-local length units. */
  datatype Hit = Hit(x: real, y: real, z: real, intensity: real)

  /** The finished, immutable map image. */
  datatype MapImage = MapImage(
    bounds: Bounds,
    image: Matrix<real>,
    waterfallImage: Matrix<real>,
    waterfallCrossTrack: Matrix<real>,
    waterfallDepth: Matrix<real>,
    pos: seq<Vec3>)

  /** The accumulating builder state. */
  datatype Builder = Builder(
    bounds: Bounds,
    resolution: real,
    origin: Vec3,
    rows: nat,
    cols: nat,
    sums: Matrix<real>,
    counts: Matrix<nat>,
    waterfallImage: Matrix<real>,
    waterfallCrossTrack: Matrix<real>,
    waterfallDepth: Matrix<real>,
    poss: seq<Vec3>)

  /** What `finish()` produces: the map image, and the builder as `finish()` leaves it. */
  datatype Finished = Finished(image: MapImage, after: Builder)

  /** The bounds and resolution a builder can be constructed from. */
  predicate ValidConfig(bounds: Bounds, resolution: real): (r: bool)
    ensures r ==> 0.0 < resolution * (bounds.maxX - bounds.minX) && 0.0 < resolution * (bounds.maxY - bounds.minY)
  {
    bounds.minX < bounds.maxX && bounds.minY < bounds.maxY && 0.0 < resolution
  }

  /** The sums and counts grids both have the builder's fixed dimensions. */
  predicate WellShaped(b: Builder)
  {
    HasShape(b.sums, b.rows, b.cols) && HasShape(b.counts, b.rows, b.cols)
  }

  /** A cell that no hit reached still has intensity sum zero. */
  predicate ZeroCountZeroSum(b: Builder)
    requires WellShaped(b)
  {
    forall i, j :: 0 <= i < b.rows && 0 <= j < b.cols && b.counts[i][j] == 0 ==> b.sums[i][j] == 0.0
  }

  /** The invariant every builder reached by construction and `AddHits` keeps. */
  predicate Valid(b: Builder)
  {
    WellShaped(b) && ZeroCountZeroSum(b)
  }

  /** Column index of a hit: its x scaled to cell units and truncated toward zero. */
  function CellCol(resolution: real, h: Hit): (c: int)
    ensures 0.0 <= resolution * h.x ==> 0 <= c && c as real <= resolution * h.x < c as real + 1.0
    ensures resolution * h.x < 0.0 ==> c <= 0 && c as real - 1.0 < resolution * h.x <= c as real
  {
    Trunc(resolution * h.x)
  }

  /** Row index of a hit: its y scaled to cell units and truncated toward zero. */
  function CellRow(resolution: real, h: Hit): (c: int)
    ensures 0.0 <= resolution * h.y ==> 0 <= c && c as real <= resolution * h.y < c as real + 1.0
    ensures resolution * h.y < 0.0 ==> c <= 0 && c as real - 1.0 < resolution * h.y <= c as real
  {
    Trunc(resolution * h.y)
  }

  /**
   The hit's cell lies in `[0, cols) x [0, rows)`, so the builder records it.
   Because indices truncate toward zero, this holds exactly when the grid has
   cells and the scaled coordinates lie in the open intervals `(-1, cols)`
   and `(-1, rows)`.
   */
  predicate InGrid(b: Builder, h: Hit): (r: bool)
    ensures r <==> 0 < b.cols && 0 < b.rows && -1.0 < b.resolution * h.x < b.cols as real && -1.0 < b.resolution * h.y < b.rows as real
  {
    TruncIndexRange(b.resolution * h.x, b.cols);
    TruncIndexRange(b.resolution * h.y, b.rows);
    0 <= CellCol(b.resolution, h) < b.cols && 0 <= CellRow(b.resolution, h) < b.rows
  }

  /**
   The constructor: the grid has `Trunc(resolution * extent)` columns (x) and
   rows (y), both grids start all zero, the origin is the minimum corner, and
   the pose log and waterfall matrices start empty.
   */
  function New(bounds: Bounds, resolution: real): (b: Builder)
    requires ValidConfig(bounds, resolution)
    ensures Valid(b)
    ensures b.bounds == bounds && b.resolution == resolution
    ensures b.origin == Vec3(bounds.minX, bounds.minY, 0.0)
    ensures b.cols as real <= resolution * (bounds.maxX - bounds.minX) < b.cols as real + 1.0
    ensures b.rows as real <= resolution * (bounds.maxY - bounds.minY) < b.rows as real + 1.0
    ensures forall i, j :: 0 <= i < b.rows && 0 <= j < b.cols ==> b.sums[i][j] == 0.0 && b.counts[i][j] == 0
    ensures b.poss == [] && b.waterfallImage == [] && b.waterfallCrossTrack == [] && b.waterfallDepth == []
  {
    var cols := Trunc(resolution * (bounds.maxX - bounds.minX));
    var rows := Trunc(resolution * (bounds.maxY - bounds.minY));
    Builder(bounds, resolution, Vec3(bounds.minX, bounds.minY, 0.0), rows, cols,
            Fill(rows, cols, 0.0), Fill(rows, cols, 0), [], [], [], [])
  }

  /** `empty()`: no hit has been recorded in any cell. */
  function IsEmpty(b: Builder): (r: bool)
    ensures r <==> forall i, j :: 0 <= i < |b.counts| && 0 <= j < |b.counts[i]| ==> b.counts[i][j] == 0
  {
    TotalZeroIff(b.counts);
    Total(b.counts) == 0
  }

  /**
   One iteration of the loop in `add_hits`: a hit inside the grid adds its
   intensity to its cell's sum and one to its cell's count; any other hit is
   dropped. Nothing else in the builder changes.
   */
  function AddHit(b: Builder, h: Hit): (r: Builder)
    requires WellShaped(b)
    ensures WellShaped(r)
    ensures r.(sums := b.sums, counts := b.counts) == b
    ensures !InGrid(b, h) ==> r == b
    ensures InGrid(b, h) ==>
              var x, y := CellCol(b.resolution, h), CellRow(b.resolution, h);
              r.sums[y][x] == b.sums[y][x] + h.intensity && r.counts[y][x] == b.counts[y][x] + 1
    ensures forall i, j :: 0 <= i < b.rows && 0 <= j < b.cols
                           && !(InGrid(b, h) && i == CellRow(b.resolution, h) && j == CellCol(b.resolution, h))
                           ==> r.sums[i][j] == b.sums[i][j] && r.counts[i][j] == b.counts[i][j]
  {
    var x := CellCol(b.resolution, h);
    var y := CellRow(b.resolution, h);
    if 0 <= x < b.cols && 0 <= y < b.rows then
      b.(sums := SetCell(b.sums, y, x, b.sums[y][x] + h.intensity),
         counts := SetCell(b.counts, y, x, b.counts[y][x] + 1))
    else
      b
  }

  /**
   The loop of `add_hits`: the hits of a batch folded into the grids in
   order. Dimensions, configuration and pose log stay fixed; no count
   decreases.
   */
  function Accumulate(b: Builder, hits: seq<Hit>): (r: Builder)
    requires WellShaped(b)
    ensures WellShaped(r)
    ensures r.(sums := b.sums, counts := b.counts) == b
    ensures forall i, j :: 0 <= i < b.rows && 0 <= j < b.cols ==> b.counts[i][j] <= r.counts[i][j]
    decreases |hits|
  {
    if |hits| == 0 then b else Accumulate(AddHit(b, hits[0]), hits[1..])
  }

  /** Folding a batch keeps "a cell whose count is zero has sum zero". */
  lemma {:induction false} AccumulateKeepsZeroSums(b: Builder, hits: seq<Hit>)
    requires WellShaped(b) && ZeroCountZeroSum(b)
    ensures ZeroCountZeroSum(Accumulate(b, hits))
    decreases |hits|
  {
    if |hits| > 0 {
      var b' := AddHit(b, hits[0]);
      assert ZeroCountZeroSum(b');
      AccumulateKeepsZeroSums(b', hits[1..]);
    }
  }

  /**
   `add_hits(hits, pos, is_left)`: an empty batch changes nothing; a non-empty
   one appends `pos` to the pose log once and folds every hit into the grids.
   The side flag is accepted and ignored, and the waterfall matrices are not
   written.
   */
  function AddHits(b: Builder, hits: seq<Hit>, pos: Vec3, isLeft: bool): (r: Builder)
    requires WellShaped(b)
    ensures WellShaped(r)
    ensures |hits| == 0 ==> r == b
    ensures |hits| > 0 ==> r.poss == b.poss + [pos]
    ensures r.(sums := b.sums, counts := b.counts, poss := b.poss) == b
  {
    if |hits| == 0 then b else Accumulate(b.(poss := b.poss + [pos]), hits)
  }

  /** `add_hits` never decreases a count and keeps the builder invariant. */
  lemma AddHitsPreserves(b: Builder, hits: seq<Hit>, pos: Vec3, isLeft: bool)
    requires WellShaped(b)
    ensures forall i, j :: 0 <= i < b.rows && 0 <= j < b.cols ==> b.counts[i][j] <= AddHits(b, hits, pos, isLeft).counts[i][j]
    ensures Valid(b) ==> Valid(AddHits(b, hits, pos, isLeft))
  {
    if |hits| > 0 && Valid(b) {
      AccumulateKeepsZeroSums(b.(poss := b.poss + [pos]), hits);
    }
  }

  /** The count grid with every zero cell raised to one, as `finish()` does in place. */
  function BumpZeros(counts: Matrix<nat>): (r: Matrix<nat>)
    ensures |r| == |counts| && forall i :: 0 <= i < |counts| ==> |r[i]| == |counts[i]|
    ensures forall i, j :: 0 <= i < |counts| && 0 <= j < |counts[i]| ==>
              0 < r[i][j] && (counts[i][j] == 0 ==> r[i][j] == 1) && (counts[i][j] > 0 ==> r[i][j] == counts[i][j])
  {
    seq(|counts|, i requires 0 <= i < |counts| =>
      seq(|counts[i]|, j requires 0 <= j < |counts[i]| => if counts[i][j] == 0 then 1 else counts[i][j]))
  }

  /** Elementwise `sums / counts` for a count grid with no zero cell. */
  function Divide(sums: Matrix<real>, counts: Matrix<nat>, rows: nat, cols: nat): (r: Matrix<real>)
    requires HasShape(sums, rows, cols) && HasShape(counts, rows, cols)
    requires forall i, j :: 0 <= i < rows && 0 <= j < cols ==> counts[i][j] > 0
    ensures HasShape(r, rows, cols)
    ensures forall i, j :: 0 <= i < rows && 0 <= j < cols ==> r[i][j] * counts[i][j] as real == sums[i][j]
  {
    seq(rows, i requires 0 <= i < rows =>
      seq(cols, j requires 0 <= j < cols => sums[i][j] / counts[i][j] as real))
  }

  /**
   `finish()`. When some hit was recorded, zero counts are first raised to
   one and the mean grid is `sums / counts`; otherwise the mean grid is left
   default-constructed (empty). Bounds, pose log and waterfall matrices are
   copied unchanged.
   */
  function Finish(b: Builder): (r: Finished)
    requires WellShaped(b)
    ensures r.image.bounds == b.bounds && r.image.pos == b.poss
    ensures r.image.waterfallImage == b.waterfallImage
    ensures r.image.waterfallCrossTrack == b.waterfallCrossTrack
    ensures r.image.waterfallDepth == b.waterfallDepth
    ensures IsEmpty(b) ==> r.image.image == [] && r.after == b
    ensures !IsEmpty(b) ==>
              && HasShape(r.image.image, b.rows, b.cols)
              && r.after == b.(counts := r.after.counts)
              && HasShape(r.after.counts, b.rows, b.cols)
    ensures !IsEmpty(b) ==> forall i, j :: 0 <= i < b.rows && 0 <= j < b.cols ==>
              && (b.counts[i][j] > 0 ==> r.image.image[i][j] == b.sums[i][j] / b.counts[i][j] as real
                                         && r.after.counts[i][j] == b.counts[i][j])
              && (b.counts[i][j] == 0 ==> r.image.image[i][j] == b.sums[i][j] && r.after.counts[i][j] == 1)
    ensures Valid(b) && !IsEmpty(b) ==> forall i, j :: 0 <= i < b.rows && 0 <= j < b.cols && b.counts[i][j] == 0 ==>
              r.image.image[i][j] == 0.0
  {
    if Total(b.counts) > 0 then
      var counts := BumpZeros(b.counts);
      var mean := Divide(b.sums, counts, b.rows, b.cols);
      Finished(MapImage(b.bounds, mean, b.waterfallImage, b.waterfallCrossTrack, b.waterfallDepth, b.poss),
               b.(counts := counts))
    else
      Finished(MapImage(b.bounds, [], b.waterfallImage, b.waterfallCrossTrack, b.waterfallDepth, b.poss), b)
  }
}
