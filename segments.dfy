/**
 * `segment_based_on_grid` of bug.py, main.py and script.py: three nested
 * `range(len(division_points[a]) - 1)` loops over per-axis boundary lists,
 * each cell's corners taken from consecutive boundaries, and the point mask
 * applied to the scan and, when present, to its colours. The list of
 * boundary lists may be short: the loops then raise on the first missing
 * axis they reach, before any cell is visited.
 */
module Segments {
  import opened Outcomes
  import opened Geometry
  import opened Masks
  import opened Filters
  import opened Division
  import opened Cells
  import opened Sections

  /** A scan read from an E57 file: its points and, when the file has them, their colours. */
  datatype Cloud = Cloud(points: seq<Vec3>, colours: Option<seq<Rgb>>)

  /** Columns stacked from one scan: colours, when present, are parallel to the points. */
  predicate Parallel(cloud: Cloud) {
    cloud.colours.None? || |cloud.colours.value| == |cloud.points|
  }

  /** `len(division_points[a]) - 1` for the axes the loops can reach, at most three. */
  function AxisCounts(dp: seq<seq<real>>): (n: seq<int>)
    ensures |n| == Min(3, |dp|)
    ensures forall a :: 0 <= a < |n| ==> n[a] == |dp[a]| - 1
  {
    seq(Min(3, |dp|), a requires 0 <= a < Min(3, |dp|) => |dp[a]| - 1)
  }

  /** The cells the loops visit when they do not raise. */
  function SegmentCells(dp: seq<seq<real>>): seq<Cell> {
    LoopCells(AxisCounts(dp))
  }

  /**
   * The loops visit exactly the cells whose two corners exist (the cells of
   * the grid when there are three axes), and raise iff they reach a missing
   * axis: there is none, or the axes present all have a cell.
   */
  lemma SegmentCellsMember(dp: seq<seq<real>>, c: Cell)
    ensures c in SegmentCells(dp) <==> CellOf(dp, c)
    ensures |dp| >= 3 ==> SegmentCells(dp) == GridCells(dp)
    ensures LoopsRaise(AxisCounts(dp)) <==>
      |dp| == 0 || (|dp| == 1 && |dp[0]| >= 2) || (|dp| == 2 && |dp[0]| >= 2 && |dp[1]| >= 2)
  {
    if |dp| >= 3 {
      var n := AxisCounts(dp);
      assert n[0] == |dp[0]| - 1 && n[1] == |dp[1]| - 1 && n[2] == |dp[2]| - 1;
      GridCellsInRange(dp, c);
    }
  }

  /** `point_cloud_colors[in_box]`, or `None` when the scan has no colours. */
  function ColoursIn(cloud: Cloud, b: Box): Option<seq<Rgb>>
    requires Parallel(cloud)
  {
    match cloud.colours
    case None => None
    case Some(cs) => Some(ApplyMask(cs, InBoxMask(cloud.points, b)))
  }

  /** The k-th section point and the k-th section colour are those of one scan index inside the box. */
  predicate SameScanIndex(cloud: Cloud, b: Box, section: seq<Vec3>, colours: seq<Rgb>, k: nat)
    requires Parallel(cloud) && cloud.colours.Some? && k < |section| && k < |colours|
  {
    exists i :: 0 <= i < |cloud.points| && InBox(cloud.points[i], b) &&
      section[k] == cloud.points[i] && colours[k] == cloud.colours.value[i]
  }

  /**
   * The section's colours are present iff the scan's are, and then they are
   * as many as the section's points and the k-th colour belongs to the k-th
   * point: both come from one scan index inside the box.
   */
  lemma ColoursFollowPoints(cloud: Cloud, b: Box)
    requires Parallel(cloud)
    ensures ColoursIn(cloud, b).Some? <==> cloud.colours.Some?
    ensures ColoursIn(cloud, b).Some? ==> |ColoursIn(cloud, b).value| == |FilterBox(cloud.points, b)|
    ensures ColoursIn(cloud, b).Some? ==> forall k :: 0 <= k < |FilterBox(cloud.points, b)| ==>
      SameScanIndex(cloud, b, FilterBox(cloud.points, b), ColoursIn(cloud, b).value, k)
  {
    if cloud.colours.Some? {
      var m := InBoxMask(cloud.points, b);
      var ps, cs := cloud.points, cloud.colours.value;
      ApplyMaskAt(ps, m);
      ApplyMaskAt(cs, m);
      SelectedSound(m);
      var section, colours := FilterBox(ps, b), ColoursIn(cloud, b).value;
      assert colours == ApplyMask(cs, m);
      assert section == ApplyMask(ps, m);
      forall k | 0 <= k < |section|
        ensures SameScanIndex(cloud, b, section, colours, k)
      {
        var i := Selected(m)[k];
        assert m[i] && section[k] == ps[i] && colours[k] == cs[i];
        assert InBox(ps[i], b);
      }
    }
  }

  /**
   * The loops around a per-cell body: the exception of a missing axis, or
   * every visited cell's outputs in visiting order.
   */
  function Segment(dp: seq<seq<real>>, body: Cell -> seq<Output>): Result<seq<Output>> {
    if LoopsRaise(AxisCounts(dp)) then Err(IndexOutOfRange)
    else Ok(Gather(SegmentCells(dp), body))
  }

  /**
   * A segmentation that ends normally has written an output iff the body
   * yields it for some cell of the grid; it raises iff a missing axis is
   * reached.
   */
  lemma SegmentMember(dp: seq<seq<real>>, body: Cell -> seq<Output>, o: Output)
    ensures Segment(dp, body).Err? <==> LoopsRaise(AxisCounts(dp))
    ensures Segment(dp, body).Ok? ==>
      (o in Segment(dp, body).value <==> exists c :: CellOf(dp, c) && o in body(c))
  {
    if !LoopsRaise(AxisCounts(dp)) {
      GatherMember(SegmentCells(dp), body, o);
      if exists c :: CellOf(dp, c) && o in body(c) {
        var c :| CellOf(dp, c) && o in body(c);
        SegmentCellsMember(dp, c);
      }
      if o in Segment(dp, body).value {
        var c :| c in SegmentCells(dp) && o in body(c);
        SegmentCellsMember(dp, c);
      }
    }
  }

  /**
   * With at least two boundaries on each axis, every point between the first
   * and last boundaries lies in the closed box of a visited cell.
   */
  lemma SegmentCovers(dp: seq<seq<real>>, p: Vec3)
    requires |dp| >= 3 && |dp[0]| >= 2 && |dp[1]| >= 2 && |dp[2]| >= 2
    requires InBox(p, GridBox(dp))
    ensures !LoopsRaise(AxisCounts(dp))
    ensures exists c :: c in SegmentCells(dp) && CellOf(dp, c) && InBox(p, CellBox(dp, c))
  {
    GridCovers(dp, p);
    var c :| c in GridCells(dp) && CellOf(dp, c) && InBox(p, CellBox(dp, c));
    SegmentCellsMember(dp, c);
  }

  /**
   * The loops: nothing is written before a missing axis is reached, so the
   * check for one comes first; then the cells in x-outer, z-inner order.
   */
  method SegmentLoops(dp: seq<seq<real>>, body: Cell -> seq<Output>) returns (r: Result<seq<Output>>)
    ensures r == Segment(dp, body)
  {
    if LoopsRaise(AxisCounts(dp)) {
      return Err(IndexOutOfRange);
    }
    if |dp| < 3 {
      return Ok([]);
    }
    var out := ForEachCell(RangeLen(|dp[0]| - 1), RangeLen(|dp[1]| - 1), RangeLen(|dp[2]| - 1), body);
    SegmentCellsMember(dp, Cell(0, 0, 0));
    return Ok(out);
  }
}
