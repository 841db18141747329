/**
 Properties of the builder across whole batches and sequences of `add_hits`
 calls, each stated against an independent reference definition: which hits
 land in a given cell, how many hits land inside the grid at all, and which
 calls carried a non-empty batch.
 */
module BuilderProperties {
  import opened Grid
  import opened SssMapImage

  /** The hit's truncated scaled cell is `(row, col)`. */
  predicate LandsIn(resolution: real, h: Hit, row: int, col: int)
  {
    CellRow(resolution, h) == row && CellCol(resolution, h) == col
  }

  /** How many hits of the batch land in cell `(row, col)`. */
  function HitsIn(resolution: real, hits: seq<Hit>, row: int, col: int): nat
  {
    if |hits| == 0 then 0
    else (if LandsIn(resolution, hits[0], row, col) then 1 else 0) + HitsIn(resolution, hits[1..], row, col)
  }

  /** The summed intensity of the hits of the batch that land in cell `(row, col)`. */
  function IntensityIn(resolution: real, hits: seq<Hit>, row: int, col: int): real
  {
    if |hits| == 0 then 0.0
    else (if LandsIn(resolution, hits[0], row, col) then hits[0].intensity else 0.0)
         + IntensityIn(resolution, hits[1..], row, col)
  }

  /** How many hits of the batch land inside the builder's grid. */
  function InsideCount(b: Builder, hits: seq<Hit>): nat
  {
    if |hits| == 0 then 0 else (if InGrid(b, hits[0]) then 1 else 0) + InsideCount(b, hits[1..])
  }

  /**
   After folding a batch, every cell's count has grown by exactly the number
   of hits landing in it and its sum by exactly their intensities.
   */
  lemma {:induction false} AccumulateCell(b: Builder, hits: seq<Hit>, row: nat, col: nat)
    requires WellShaped(b) && row < b.rows && col < b.cols
    ensures Accumulate(b, hits).counts[row][col] == b.counts[row][col] + HitsIn(b.resolution, hits, row, col)
    ensures Accumulate(b, hits).sums[row][col] == b.sums[row][col] + IntensityIn(b.resolution, hits, row, col)
    decreases |hits|
  {
    if |hits| > 0 {
      var h := hits[0];
      var b' := AddHit(b, h);
      AccumulateCell(b', hits[1..], row, col);
      if LandsIn(b.resolution, h, row, col) {
        assert InGrid(b, h);
        assert b'.counts[row][col] == b.counts[row][col] + 1;
        assert b'.sums[row][col] == b.sums[row][col] + h.intensity;
      } else {
        assert b'.counts[row][col] == b.counts[row][col];
        assert b'.sums[row][col] == b.sums[row][col];
      }
    }
  }

  /** A batch that lies entirely outside the grid leaves sums and counts untouched. */
  lemma {:induction false} AccumulateOutside(b: Builder, hits: seq<Hit>)
    requires WellShaped(b)
    requires forall k :: 0 <= k < |hits| ==> !InGrid(b, hits[k])
    ensures Accumulate(b, hits) == b
  {
    if |hits| > 0 {
      assert !InGrid(b, hits[0]);
      AccumulateOutside(b, hits[1..]);
    }
  }

  /** The total count grows by exactly the number of hits inside the grid. */
  lemma {:induction false} AccumulateTotal(b: Builder, hits: seq<Hit>)
    requires WellShaped(b)
    ensures Total(Accumulate(b, hits).counts) == Total(b.counts) + InsideCount(b, hits)
    decreases |hits|
  {
    if |hits| > 0 {
      var h := hits[0];
      var b' := AddHit(b, h);
      if InGrid(b, h) {
        var x, y := CellCol(b.resolution, h), CellRow(b.resolution, h);
        TotalAfterSet(b.counts, y, x, b.counts[y][x] + 1);
      }
      assert Total(b'.counts) == Total(b.counts) + (if InGrid(b, h) then 1 else 0);
      AccumulateTotal(b', hits[1..]);
      assert InsideCount(b', hits[1..]) == InsideCount(b, hits[1..]) by {
        InsideCountDependsOnConfig(b, b', hits[1..]);
      }
    }
  }

  /** Whether a hit is inside depends only on resolution and dimensions, not on the grids' contents. */
  lemma {:induction false} InsideCountDependsOnConfig(b: Builder, b': Builder, hits: seq<Hit>)
    requires b.resolution == b'.resolution && b.rows == b'.rows && b.cols == b'.cols
    ensures InsideCount(b, hits) == InsideCount(b', hits)
  {
    if |hits| > 0 {
      InsideCountDependsOnConfig(b, b', hits[1..]);
    }
  }

  /**
   A call to `add_hits` changes each in-grid cell by exactly the hits of the
   batch that land in it, whatever the pose or side.
   */
  lemma AddHitsCell(b: Builder, hits: seq<Hit>, pos: Vec3, isLeft: bool, row: nat, col: nat)
    requires WellShaped(b) && row < b.rows && col < b.cols
    ensures AddHits(b, hits, pos, isLeft).counts[row][col] == b.counts[row][col] + HitsIn(b.resolution, hits, row, col)
    ensures AddHits(b, hits, pos, isLeft).sums[row][col] == b.sums[row][col] + IntensityIn(b.resolution, hits, row, col)
  {
    if |hits| > 0 {
      AccumulateCell(b.(poss := b.poss + [pos]), hits, row, col);
    }
  }

  /** The builder is empty after `add_hits` exactly when it was empty before and no hit landed inside. */
  lemma AddHitsEmpty(b: Builder, hits: seq<Hit>, pos: Vec3, isLeft: bool)
    requires WellShaped(b)
    ensures IsEmpty(AddHits(b, hits, pos, isLeft)) <==> IsEmpty(b) && InsideCount(b, hits) == 0
  {
    if |hits| > 0 {
      var b0 := b.(poss := b.poss + [pos]);
      AccumulateTotal(b0, hits);
      InsideCountDependsOnConfig(b, b0, hits);
    }
  }

  /** One `add_hits(hits, pos, is_left)` call. */
  datatype Call = Call(hits: seq<Hit>, pos: Vec3, isLeft: bool)

  /** A sequence of `add_hits` calls applied in order. */
  function Run(b: Builder, calls: seq<Call>): (r: Builder)
    requires WellShaped(b)
    ensures WellShaped(r)
    ensures r.(sums := b.sums, counts := b.counts, poss := b.poss) == b
    decreases |calls|
  {
    if |calls| == 0 then b
    else Run(AddHits(b, calls[0].hits, calls[0].pos, calls[0].isLeft), calls[1..])
  }

  /** Across any sequence of calls no count decreases and the builder invariant is kept. */
  lemma {:induction false} RunPreserves(b: Builder, calls: seq<Call>)
    requires WellShaped(b)
    ensures forall i, j :: 0 <= i < b.rows && 0 <= j < b.cols ==> b.counts[i][j] <= Run(b, calls).counts[i][j]
    ensures Valid(b) ==> Valid(Run(b, calls))
    decreases |calls|
  {
    if |calls| > 0 {
      var c := calls[0];
      var b' := AddHits(b, c.hits, c.pos, c.isLeft);
      assert Run(b, calls) == Run(b', calls[1..]);
      AddHitsPreserves(b, c.hits, c.pos, c.isLeft);
      RunPreserves(b', calls[1..]);
    }
  }

  /** The pose a call logs: its own if its batch is non-empty, none otherwise. */
  function PoseOf(c: Call): seq<Vec3>
  {
    if |c.hits| > 0 then [c.pos] else []
  }

  /** The poses of the calls whose batch was non-empty, in call order. */
  function NonEmptyPoses(calls: seq<Call>): seq<Vec3>
  {
    if |calls| == 0 then [] else PoseOf(calls[0]) + NonEmptyPoses(calls[1..])
  }

  /** How many calls carried a non-empty batch. */
  function NonEmptyCalls(calls: seq<Call>): nat
  {
    if |calls| == 0 then 0 else (if |calls[0].hits| > 0 then 1 else 0) + NonEmptyCalls(calls[1..])
  }

  /** One pose is collected per call whose batch was non-empty. */
  lemma {:induction false} NonEmptyPosesLength(calls: seq<Call>)
    ensures |NonEmptyPoses(calls)| == NonEmptyCalls(calls)
  {
    if |calls| > 0 {
      NonEmptyPosesLength(calls[1..]);
    }
  }

  /** The pose log grows by exactly the poses of the non-empty calls, in order. */
  lemma {:induction false} RunPoses(b: Builder, calls: seq<Call>)
    requires WellShaped(b)
    ensures Run(b, calls).poss == b.poss + NonEmptyPoses(calls)
    decreases |calls|
  {
    if |calls| > 0 {
      var c := calls[0];
      var b' := AddHits(b, c.hits, c.pos, c.isLeft);
      var step := PoseOf(c);
      var rest := NonEmptyPoses(calls[1..]);
      RunPoses(b', calls[1..]);
      assert b'.poss == b.poss + step;
      assert (b.poss + step) + rest == b.poss + (step + rest);
    }
  }

  /**
   From construction on, after any sequence of calls the builder keeps its
   invariant, its dimensions and its empty waterfall matrices, and holds one
   pose per call whose batch was non-empty.
   */
  lemma FromNew(bounds: Bounds, resolution: real, calls: seq<Call>)
    requires ValidConfig(bounds, resolution)
    ensures var b := Run(New(bounds, resolution), calls);
            && Valid(b)
            && b.rows == New(bounds, resolution).rows && b.cols == New(bounds, resolution).cols
            && b.waterfallImage == [] && b.waterfallCrossTrack == [] && b.waterfallDepth == []
            && b.poss == NonEmptyPoses(calls)
            && |b.poss| == NonEmptyCalls(calls)
  {
    RunPoses(New(bounds, resolution), calls);
    RunPreserves(New(bounds, resolution), calls);
    NonEmptyPosesLength(calls);
  }

  /**
   Finishing a builder reached from construction: the image has one pose per
   non-empty call and empty waterfall matrices; when hits were recorded,
   every cell's mean is its sum divided by its count, and exactly zero for a
   cell no hit reached.
   */
  lemma FinishFromNew(bounds: Bounds, resolution: real, calls: seq<Call>)
    requires ValidConfig(bounds, resolution)
    ensures var b := Run(New(bounds, resolution), calls);
            var img := Finish(b).image;
            && img.bounds == bounds
            && img.pos == NonEmptyPoses(calls)
            && img.waterfallImage == [] && img.waterfallCrossTrack == [] && img.waterfallDepth == []
            && (IsEmpty(b) ==> img.image == [])
            && (!IsEmpty(b) ==> forall i, j :: 0 <= i < b.rows && 0 <= j < b.cols ==>
                  img.image[i][j] == if b.counts[i][j] == 0 then 0.0 else b.sums[i][j] / b.counts[i][j] as real)
  {
    FromNew(bounds, resolution, calls);
  }
}
