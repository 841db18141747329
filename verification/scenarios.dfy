/**
 Worked examples on a 10 x 10 tile at resolution 1: where hits land, how the
 mean is formed, how truncation differs from floor at the grid's lower edge,
 and what finishing a tile that saw no hit gives.
 */
module Scenarios {
  import opened SssMapImage

  const Tile := Bounds(0.0, 0.0, 10.0, 10.0)

  /** The tile `[[0, 0], [10, 10]]` at resolution 1 has 10 x 10 cells, all empty. */
  lemma TileDimensions()
    ensures New(Tile, 1.0).rows == 10 && New(Tile, 1.0).cols == 10
    ensures IsEmpty(New(Tile, 1.0))
  {
  }

  /**
   A hit at (3.4, 7.8) with intensity 5 lands in row 7, column 3; a second
   hit of intensity 9 in the same cell makes its count 2, its sum 14 and its
   finished mean 7.
   */
  lemma TwoHitsInOneCell()
    ensures var b1 := AddHits(New(Tile, 1.0), [Hit(3.4, 7.8, 0.0, 5.0)], Vec3(0.0, 0.0, 0.0), true);
            && b1.sums[7][3] == 5.0 && b1.counts[7][3] == 1
    ensures var b1 := AddHits(New(Tile, 1.0), [Hit(3.4, 7.8, 0.0, 5.0)], Vec3(0.0, 0.0, 0.0), true);
            var b2 := AddHits(b1, [Hit(3.9, 7.1, 0.0, 9.0)], Vec3(1.0, 0.0, 0.0), true);
            && b2.counts[7][3] == 2 && b2.sums[7][3] == 14.0
            && Finish(b2).image.image[7][3] == 7.0
            && Finish(b2).image.pos == [Vec3(0.0, 0.0, 0.0), Vec3(1.0, 0.0, 0.0)]
  {
  }

  /**
   A hit at x = -0.5 scales to -0.5, which truncates to column 0 and is
   counted; with floor it would have been column -1 and dropped.
   */
  lemma NegativeFractionLandsInFirstColumn()
    ensures (1.0 * -0.5).Floor == -1
    ensures var b := AddHits(New(Tile, 1.0), [Hit(-0.5, 2.2, 0.0, 3.0)], Vec3(0.0, 0.0, 0.0), false);
            b.counts[2][0] == 1 && b.sums[2][0] == 3.0
  {
  }

  /** A hit beyond the tile's extent is dropped: the grids and the emptiness are unchanged, but its pose is logged. */
  lemma OutOfRangeHitDropped()
    ensures var b := AddHits(New(Tile, 1.0), [Hit(12.0, 2.0, 0.0, 3.0)], Vec3(0.0, 0.0, 0.0), false);
            && b.counts == New(Tile, 1.0).counts && b.sums == New(Tile, 1.0).sums
            && IsEmpty(b)
            && b.poss == [Vec3(0.0, 0.0, 0.0)]
  {
  }

  /** Finishing a tile that saw no hit leaves the mean grid default-constructed: it has no cells at all. */
  lemma FinishWithoutHits()
    ensures Finish(New(Tile, 1.0)).image.image == []
    ensures Finish(New(Tile, 1.0)).image.bounds == Tile
  {
  }
}
