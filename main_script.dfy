/**
 * main.py: the same cut as bug.py without heights, but each axis's
 * `linspace` ends at half the grid's span, so every box is half the given
 * size, and the driver places the grid at 0. The colour mask is applied
 * without checking that the scan has colours.
 */
module MainScript {
  import opened Outcomes
  import opened Geometry
  import opened Masks
  import opened Filters
  import opened Stats
  import opened Division
  import opened Cells
  import opened Parsing
  import opened Sections
  import opened Segments
  import BugScript

  /** `np.linspace(center, box_size * grid_size / 2 + center, num=grid_size + 1)`. */
  function AxisPoints(centre: real, size: real, count: int): Result<seq<real>> {
    Linspace(centre, size * (count as real) / 2.0 + centre, count + 1)
  }

  function AxisResults(centre: real, box: seq<real>, grid: seq<int>): (rs: seq<Result<seq<real>>>)
    ensures |rs| == Min(|box|, |grid|)
  {
    seq(Min(|box|, |grid|), a requires 0 <= a < Min(|box|, |grid|) => AxisPoints(centre, box[a], grid[a]))
  }

  /** `calculate_grid_division_points`: the comprehension over `zip(box_size, grid_sizes)`. */
  function DivisionPoints(centre: real, box: seq<real>, grid: seq<int>): Result<seq<seq<real>>> {
    Collect(AxisResults(centre, box, grid))
  }

  /**
   * The division points exist iff no zipped grid count is below -1 (linspace
   * rejects a negative sample count), and then there is one list per zipped
   * axis.
   */
  lemma DivisionPointsMeaning(centre: real, box: seq<real>, grid: seq<int>)
    ensures DivisionPoints(centre, box, grid).Ok? <==> forall a :: 0 <= a < Min(|box|, |grid|) ==> grid[a] >= -1
    ensures var r := DivisionPoints(centre, box, grid);
      r.Ok? ==> (|r.value| == Min(|box|, |grid|) &&
        forall a :: 0 <= a < |r.value| ==> r.value[a] == AxisPoints(centre, box[a], grid[a]).value)
  {
    var rs := AxisResults(centre, box, grid);
    CollectMeaning(rs);
    assert forall a :: 0 <= a < |rs| ==> rs[a] == AxisPoints(centre, box[a], grid[a]);
  }

  /**
   * Each axis has `grid_size + 1` values from the centre to the centre plus
   * half of `size * grid_size`, so every box is `size / 2` long.
   */
  lemma HalfBoxes(centre: real, box: seq<real>, grid: seq<int>, a: nat)
    requires DivisionPoints(centre, box, grid).Ok? && a < Min(|box|, |grid|)
    ensures var bs := DivisionPoints(centre, box, grid).value[a];
      |bs| == grid[a] + 1 &&
      (grid[a] > 0 ==> (bs[0] == centre && bs[grid[a]] == centre + box[a] * (grid[a] as real) / 2.0 &&
        forall i :: 0 <= i < grid[a] ==> bs[i + 1] - bs[i] == box[a] / 2.0))
  {
    DivisionPointsMeaning(centre, box, grid);
    HalfAxis(centre, box[a], grid[a]);
  }

  /** One axis: `linspace` over `count` boxes of half the size. */
  lemma HalfAxis(centre: real, size: real, count: int)
    requires count >= -1
    ensures var r := AxisPoints(centre, size, count);
      r.Ok? && |r.value| == count + 1 &&
      (count > 0 ==> (r.value[0] == centre && r.value[count] == centre + size * (count as real) / 2.0 &&
        forall i :: 0 <= i < count ==> r.value[i + 1] - r.value[i] == size / 2.0))
  {
    if count > 0 {
      var k := count as real;
      var span := size * k / 2.0;
      assert span / k == size / 2.0;
      assert (span + centre - centre) / k == size / 2.0;
    }
  }

  /**
   * One cell: the closed-box mask applied to the points and to the colours,
   * written only when the section has points.
   */
  function CellOutput(dp: seq<seq<real>>, cloud: Cloud, c: Cell): seq<Output>
    requires Parallel(cloud) && cloud.colours.Some?
  {
    if !CellOf(dp, c) then []
    else
      var b := CellBox(dp, c);
      var section := FilterBox(cloud.points, b);
      if |section| > 0 then
        [PointFile(CellName("point_cloud_section_", c, ".e57"), section,
                   Some(ApplyMask(cloud.colours.value, InBoxMask(cloud.points, b))))]
      else []
  }

  function PerCell(dp: seq<seq<real>>, cloud: Cloud): Cell -> seq<Output>
    requires Parallel(cloud) && cloud.colours.Some?
  {
    c => CellOutput(dp, cloud, c)
  }

  /**
   * `segment_based_on_grid`: a missing axis raises before any cell; a scan
   * without colours raises at the first visited cell, when `None` is
   * indexed with the mask.
   */
  function SegmentSpec(dp: seq<seq<real>>, cloud: Cloud): Result<seq<Output>>
    requires Parallel(cloud)
  {
    if LoopsRaise(AxisCounts(dp)) then Err(IndexOutOfRange)
    else if |SegmentCells(dp)| == 0 then Ok([])
    else if cloud.colours.None? then Err(MissingColours)
    else Segment(dp, PerCell(dp, cloud))
  }

  /**
   * With colours, the cut is bug.py's cut, file for file; without them it
   * fails iff the loops reach a cell.
   */
  lemma SameAsBugScript(dp: seq<seq<real>>, cloud: Cloud)
    requires Parallel(cloud)
    ensures cloud.colours.Some? ==> SegmentSpec(dp, cloud) == BugScript.SegmentSpec(dp, cloud)
    ensures cloud.colours.None? ==>
      (SegmentSpec(dp, cloud).Err? <==> LoopsRaise(AxisCounts(dp)) || |SegmentCells(dp)| > 0)
  {
    if cloud.colours.Some? {
      var f, g := PerCell(dp, cloud), BugScript.PerCell(dp, cloud);
      forall c | c in SegmentCells(dp) ensures f(c) == g(c) {
        if CellOf(dp, c) {
          var b := CellBox(dp, c);
          assert ColoursIn(cloud, b) == Some(ApplyMask(cloud.colours.value, InBoxMask(cloud.points, b)));
        }
      }
      GatherAgree(SegmentCells(dp), f, g);
    }
  }

  /** `main`: the two options are parsed, then the cut runs when a mesh and a scan were loaded. */
  function MainSpec(gridOption: string, boxOption: string, haveMesh: bool, cloud: Option<Cloud>): Result<seq<Output>>
    requires cloud.Some? ==> Parallel(cloud.value)
  {
    match ParseGrid(gridOption)
    case Err(e) => Err(e)
    case Ok(grid) =>
      match ParseBoxSizes(boxOption)
      case Err(e) => Err(e)
      case Ok(box) =>
        if !haveMesh || cloud.None? then Ok([])
        else
          match DivisionPoints(0.0, box, grid)
          case Err(e) => Err(e)
          case Ok(dp) => SegmentSpec(dp, cloud.value)
  }

  /**
   * With three positive counts and three sizes, the grid has at least two
   * boundaries per axis and spans the box from the origin to half of each
   * axis's `size * count`.
   */
  lemma HalfGrid(g: seq<int>, bs: seq<real>)
    requires |g| == 3 && |bs| == 3 && g[0] > 0 && g[1] > 0 && g[2] > 0
    ensures DivisionPoints(0.0, bs, g).Ok?
    ensures var dp := DivisionPoints(0.0, bs, g).value;
      |dp| == 3 && |dp[0]| >= 2 && |dp[1]| >= 2 && |dp[2]| >= 2 &&
      GridBox(dp) == Box(Origin, Vec3(bs[0] * (g[0] as real) / 2.0, bs[1] * (g[1] as real) / 2.0, bs[2] * (g[2] as real) / 2.0))
  {
    DivisionPointsMeaning(0.0, bs, g);
    HalfBoxes(0.0, bs, g, 0);
    HalfBoxes(0.0, bs, g, 1);
    HalfBoxes(0.0, bs, g, 2);
  }

  /** Once both options parse and the division succeeds, `main` is the cut of the grid at 0. */
  lemma MainSegments(gridOption: string, boxOption: string, g: seq<int>, bs: seq<real>, cloud: Cloud)
    requires Parallel(cloud)
    requires ParseGrid(gridOption) == Ok(g) && ParseBoxSizes(boxOption) == Ok(bs)
    requires DivisionPoints(0.0, bs, g).Ok?
    ensures MainSpec(gridOption, boxOption, true, Some(cloud)) == SegmentSpec(DivisionPoints(0.0, bs, g).value, cloud)
  {
  }

  /**
   * With three positive counts and three sizes and a coloured scan, every
   * point in the box from the origin to half the grid's span is written.
   */
  lemma MainWritesEveryPoint(gridOption: string, boxOption: string, g: seq<int>, bs: seq<real>, cloud: Cloud, p: Vec3)
    requires Parallel(cloud) && cloud.colours.Some?
    requires ParseGrid(gridOption) == Ok(g) && ParseBoxSizes(boxOption) == Ok(bs)
    requires |g| == 3 && |bs| == 3 && g[0] > 0 && g[1] > 0 && g[2] > 0
    requires p in cloud.points
    requires InBox(p, Box(Origin, Vec3(bs[0] * (g[0] as real) / 2.0, bs[1] * (g[1] as real) / 2.0, bs[2] * (g[2] as real) / 2.0)))
    ensures MainSpec(gridOption, boxOption, true, Some(cloud)).Ok?
    ensures exists o :: (o in MainSpec(gridOption, boxOption, true, Some(cloud)).value && o.PointFile? && p in o.points)
  {
    HalfGrid(g, bs);
    var dp := DivisionPoints(0.0, bs, g).value;
    BugScript.EveryPointWritten(dp, cloud, p);
    SameAsBugScript(dp, cloud);
    MainSegments(gridOption, boxOption, g, bs, cloud);
  }

  /** The cell loops of `segment_based_on_grid`. */
  method SegmentBasedOnGrid(dp: seq<seq<real>>, cloud: Cloud) returns (r: Result<seq<Output>>)
    requires Parallel(cloud)
    ensures r == SegmentSpec(dp, cloud)
  {
    if LoopsRaise(AxisCounts(dp)) {
      return Err(IndexOutOfRange);
    }
    if |SegmentCells(dp)| == 0 {
      return Ok([]);
    }
    if cloud.colours.None? {
      return Err(MissingColours);
    }
    r := SegmentLoops(dp, PerCell(dp, cloud));
  }

  /** `main`. */
  method MainCommand(gridOption: string, boxOption: string, haveMesh: bool, cloud: Option<Cloud>) returns (r: Result<seq<Output>>)
    requires cloud.Some? ==> Parallel(cloud.value)
    ensures r == MainSpec(gridOption, boxOption, haveMesh, cloud)
  {
    var grid := ParseGrid(gridOption);
    if grid.Err? {
      return Err(grid.error);
    }
    var box := ParseBoxSizes(boxOption);
    if box.Err? {
      return Err(box.error);
    }
    if !haveMesh || cloud.None? {
      return Ok([]);
    }
    var dp := DivisionPoints(0.0, box.value, grid.value);
    if dp.Err? {
      return Err(dp.error);
    }
    r := SegmentBasedOnGrid(dp.value, cloud.value);
  }
}
