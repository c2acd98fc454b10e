/**
 * The uniform grid the E57 sectioners lay over one scan: its bounding box
 * cut into `g[0] x g[1] x g[2]` cells, cell `(x, y, z)` spanning
 * `[min + x * size, min + (x + 1) * size]` on each axis.
 */
module Grids {
  import opened Geometry
  import opened Stats
  import opened Division
  import opened Cells
  import opened Filters

  /** The closed box of cell `c` over the bounding box of `ps`. */
  function ScanBox(ps: seq<Vec3>, g: seq<int>, c: Cell): Box
    requires |ps| > 0 && |g| >= 3
  {
    var bb := BoundingBox(ps);
    UniformCellBox(bb.lo, Sizes(bb, g), c)
  }

  /**
   * With positive counts on all three axes, every point of the scan is
   * selected by the filter of at least one visited cell.
   */
  lemma ScanCovered(ps: seq<Vec3>, g: seq<int>, p: Vec3)
    requires |ps| > 0 && |g| >= 3 && g[0] > 0 && g[1] > 0 && g[2] > 0
    requires p in ps
    ensures exists c :: c in UniformCells(g) && p in FilterBox(ps, ScanBox(ps, g, c))
  {
    var bb := BoundingBox(ps);
    var i :| 0 <= i < |ps| && ps[i] == p;
    assert InBox(p, bb);
    UniformCovers3(bb, g, p);
    var c :| c in UniformCells(g) && InBox(p, UniformCellBox(bb.lo, Sizes(bb, g), c));
    FilterBoxMember(ps, ScanBox(ps, g, c), p);
  }
}
