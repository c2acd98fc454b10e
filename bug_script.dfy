/**
 * bug.py: a grid of boxes placed from a centre corner, with uniform
 * `linspace` boundaries on each axis or, on Z, boundaries from explicit layer
 * heights; the first scan of an E57 file is cut along it, and every
 * non-empty cell is exported with its colours when the scan has them.
 */
module BugScript {
  import opened Outcomes
  import opened Geometry
  import opened Masks
  import opened Filters
  import opened Division
  import opened Cells
  import opened Parsing
  import opened Sections
  import opened Segments

  // ---- calculate_grid_division_points ----

  /**
   * One axis of the loop over `zip(box_size, grid_sizes)`. On Z with heights
   * the assertion on their number comes first, then the centre is read and
   * the boundaries are the prefix sums of the heights; on any other axis the
   * centre is read and `linspace` spans `grid_size` boxes of `size`.
   */
  function AxisPoints(axis: nat, centre: seq<real>, size: real, count: int, heights: Option<seq<real>>): Result<seq<real>> {
    if axis == 2 && heights.Some? then
      if |heights.value| != count then Err(HeightsCountMismatch)
      else if axis >= |centre| then Err(IndexOutOfRange)
      else Ok(HeightBoundaries(centre[axis], heights.value))
    else if axis >= |centre| then Err(IndexOutOfRange)
    else Linspace(centre[axis], centre[axis] + size * (count as real), count + 1)
  }

  /** Every zipped axis, in order. */
  function AxisResults(centre: seq<real>, box: seq<real>, grid: seq<int>, heights: Option<seq<real>>): (rs: seq<Result<seq<real>>>)
    ensures |rs| == Min(|box|, |grid|)
  {
    seq(Min(|box|, |grid|), a requires 0 <= a < Min(|box|, |grid|) => AxisPoints(a, centre, box[a], grid[a], heights))
  }

  /** `calculate_grid_division_points`: one boundary list per zipped axis, or the first exception. */
  function DivisionPoints(centre: seq<real>, box: seq<real>, grid: seq<int>, heights: Option<seq<real>>): Result<seq<seq<real>>> {
    Collect(AxisResults(centre, box, grid, heights))
  }

  /**
   * The division points exist iff every zipped axis succeeds, and then there
   * is one boundary list per zipped axis: three for three-field options.
   */
  lemma DivisionPointsMeaning(centre: seq<real>, box: seq<real>, grid: seq<int>, heights: Option<seq<real>>)
    ensures DivisionPoints(centre, box, grid, heights).Ok? <==>
      forall a :: 0 <= a < Min(|box|, |grid|) ==> AxisPoints(a, centre, box[a], grid[a], heights).Ok?
    ensures DivisionPoints(centre, box, grid, heights).Ok? ==>
      |DivisionPoints(centre, box, grid, heights).value| == Min(|box|, |grid|) &&
      forall a :: 0 <= a < Min(|box|, |grid|) ==>
        DivisionPoints(centre, box, grid, heights).value[a] == AxisPoints(a, centre, box[a], grid[a], heights).value
  {
    var rs := AxisResults(centre, box, grid, heights);
    CollectMeaning(rs);
    assert forall a :: 0 <= a < |rs| ==> rs[a] == AxisPoints(a, centre, box[a], grid[a], heights);
  }

  /** With heights for Z, a count of heights other than the Z grid size fails the assertion. */
  lemma HeightsMismatchFails(centre: seq<real>, box: seq<real>, grid: seq<int>, hs: seq<real>)
    requires |box| >= 3 && |grid| >= 3 && |hs| != grid[2]
    ensures DivisionPoints(centre, box, grid, Some(hs)).Err?
  {
    DivisionPointsMeaning(centre, box, grid, Some(hs));
    assert AxisPoints(2, centre, box[2], grid[2], Some(hs)).Err?;
  }

  /**
   * With heights, the Z boundaries start at the centre's Z, boundary `i` is
   * the centre plus the sum of the first `i` heights, and the Z cells are
   * exactly the heights, one per Z division.
   */
  lemma HeightsAxis(centre: seq<real>, box: seq<real>, grid: seq<int>, hs: seq<real>)
    requires |box| >= 3 && |grid| >= 3
    requires DivisionPoints(centre, box, grid, Some(hs)).Ok?
    ensures var z := DivisionPoints(centre, box, grid, Some(hs)).value[2];
      |z| == |hs| + 1 && |hs| == grid[2] && z[0] == centre[2] && Steps(z) == hs &&
      forall i :: 0 <= i <= |hs| ==> z[i] == centre[2] + Total(hs[..i])
  {
    DivisionPointsMeaning(centre, box, grid, Some(hs));
    assert AxisPoints(2, centre, box[2], grid[2], Some(hs)).Ok?;
    HeightBoundariesSteps(centre[2], hs);
  }

  /**
   * A uniform axis has `grid_size + 1` boundaries from the centre to the
   * centre plus `size * grid_size`, each box exactly `size` long.
   */
  lemma UniformAxis(centre: seq<real>, box: seq<real>, grid: seq<int>, heights: Option<seq<real>>, a: nat)
    requires a < Min(|box|, |grid|) && !(a == 2 && heights.Some?)
    requires DivisionPoints(centre, box, grid, heights).Ok?
    ensures var bs := DivisionPoints(centre, box, grid, heights).value[a];
      |bs| == grid[a] + 1 && a < |centre| &&
      (grid[a] >= 0 ==> bs[0] == centre[a]) &&
      (grid[a] > 0 ==> bs[grid[a]] == centre[a] + box[a] * (grid[a] as real)) &&
      (grid[a] > 0 ==> forall i :: 0 <= i < grid[a] ==> bs[i + 1] - bs[i] == box[a])
  {
    DivisionPointsMeaning(centre, box, grid, heights);
    var r := AxisPoints(a, centre, box[a], grid[a], heights);
    assert r.Ok?;
    UniformAxisPoints(a, centre, box[a], grid[a], heights);
  }

  /** One uniform axis, before it joins the others: the same facts about `linspace`. */
  lemma UniformAxisPoints(a: nat, centre: seq<real>, size: real, count: int, heights: Option<seq<real>>)
    requires !(a == 2 && heights.Some?) && AxisPoints(a, centre, size, count, heights).Ok?
    ensures var bs := AxisPoints(a, centre, size, count, heights).value;
      |bs| == count + 1 && a < |centre| &&
      (count >= 0 ==> bs[0] == centre[a]) &&
      (count > 0 ==> bs[count] == centre[a] + size * (count as real)) &&
      (count > 0 ==> forall i :: 0 <= i < count ==> bs[i + 1] - bs[i] == size)
  {
    if count >= 0 {
      LinspaceBoxes(centre[a], size, count);
    }
  }

  /** The loop of `calculate_grid_division_points`, appending one boundary list per zipped axis. */
  method CalculateGridDivisionPoints(centre: seq<real>, box: seq<real>, grid: seq<int>, heights: Option<seq<real>>)
    returns (r: Result<seq<seq<real>>>)
    ensures r == DivisionPoints(centre, box, grid, heights)
  {
    var n := Min(|box|, |grid|);
    ghost var rs := AxisResults(centre, box, grid, heights);
    var dp: seq<seq<real>> := [];
    for axis := 0 to n
      invariant Collect(rs[..axis]) == Ok(dp)
    {
      CollectStep(rs, axis);
      var points: seq<real>;
      if axis == 2 && heights.Some? {
        if |heights.value| != grid[axis] {
          CollectStopped(rs, axis + 1);
          return Err(HeightsCountMismatch);
        }
        if axis >= |centre| {
          CollectStopped(rs, axis + 1);
          return Err(IndexOutOfRange);
        }
        points := HeightBoundaries(centre[axis], heights.value);
      } else {
        if axis >= |centre| {
          CollectStopped(rs, axis + 1);
          return Err(IndexOutOfRange);
        }
        var l := Linspace(centre[axis], centre[axis] + box[axis] * (grid[axis] as real), grid[axis] + 1);
        if l.Err? {
          CollectStopped(rs, axis + 1);
          return Err(l.error);
        }
        points := l.value;
      }
      dp := dp + [points];
    }
    assert rs[..n] == rs;
    return Ok(dp);
  }

  // ---- segment_based_on_grid ----

  /**
   * One cell: the closed-box mask over the scan, applied to the points and,
   * when present, to the colours; written only when the section has points.
   * (The loops only reach cells whose corners exist.)
   */
  function CellOutput(dp: seq<seq<real>>, cloud: Cloud, c: Cell): seq<Output>
    requires Parallel(cloud)
  {
    if !CellOf(dp, c) then []
    else
      var b := CellBox(dp, c);
      var section := FilterBox(cloud.points, b);
      if |section| > 0 then [PointFile(CellName("point_cloud_section_", c, ".e57"), section, ColoursIn(cloud, b))]
      else []
  }

  function PerCell(dp: seq<seq<real>>, cloud: Cloud): Cell -> seq<Output>
    requires Parallel(cloud)
  {
    c => CellOutput(dp, cloud, c)
  }

  /** `segment_based_on_grid` for the point cloud. */
  function SegmentSpec(dp: seq<seq<real>>, cloud: Cloud): Result<seq<Output>>
    requires Parallel(cloud)
  {
    Segment(dp, PerCell(dp, cloud))
  }

  /**
   * The segmentation writes, for exactly the cells of the grid whose closed
   * box holds a scan point, the points inside that box with their colours.
   */
  lemma SegmentWrites(dp: seq<seq<real>>, cloud: Cloud, o: Output)
    requires Parallel(cloud) && SegmentSpec(dp, cloud).Ok?
    ensures o in SegmentSpec(dp, cloud).value <==>
      exists c :: CellOf(dp, c) && (exists i :: 0 <= i < |cloud.points| && InBox(cloud.points[i], CellBox(dp, c))) &&
        o == PointFile(CellName("point_cloud_section_", c, ".e57"), FilterBox(cloud.points, CellBox(dp, c)),
                       ColoursIn(cloud, CellBox(dp, c)))
  {
    var f := PerCell(dp, cloud);
    SegmentMember(dp, f, o);
    forall c | CellOf(dp, c)
      ensures |FilterBox(cloud.points, CellBox(dp, c))| > 0 <==>
        exists i :: 0 <= i < |cloud.points| && InBox(cloud.points[i], CellBox(dp, c))
    {
      var b := CellBox(dp, c);
      if |FilterBox(cloud.points, b)| > 0 {
        var q := FilterBox(cloud.points, b)[0];
        FilterBoxMember(cloud.points, b, q);
      }
      if exists i :: 0 <= i < |cloud.points| && InBox(cloud.points[i], b) {
        var i :| 0 <= i < |cloud.points| && InBox(cloud.points[i], b);
        FilterBoxMember(cloud.points, b, cloud.points[i]);
      }
    }
  }

  /**
   * With two or more boundaries per axis, every scan point between the first
   * and last boundaries is written to some section file.
   */
  lemma EveryPointWritten(dp: seq<seq<real>>, cloud: Cloud, p: Vec3)
    requires Parallel(cloud)
    requires |dp| >= 3 && |dp[0]| >= 2 && |dp[1]| >= 2 && |dp[2]| >= 2
    requires p in cloud.points && InBox(p, GridBox(dp))
    ensures SegmentSpec(dp, cloud).Ok?
    ensures exists o :: o in SegmentSpec(dp, cloud).value && o.PointFile? && p in o.points
  {
    SegmentCovers(dp, p);
    var c :| c in SegmentCells(dp) && CellOf(dp, c) && InBox(p, CellBox(dp, c));
    var b := CellBox(dp, c);
    FilterBoxMember(cloud.points, b, p);
    var o := CellOutput(dp, cloud, c)[0];
    SegmentMember(dp, PerCell(dp, cloud), o);
    assert o in PerCell(dp, cloud)(c);
  }

  // ---- main ----

  /**
   * `main`: the four options are parsed first; the segmentation runs only
   * when both a mesh and a scan were loaded. The mesh itself only feeds the
   * boolean intersections, which are not part of this model.
   */
  function MainSpec(gridOption: string, boxOption: string, heightsOption: string, centreOption: string,
                    haveMesh: bool, cloud: Option<Cloud>): Result<seq<Output>>
    requires cloud.Some? ==> Parallel(cloud.value)
  {
    match ParseGrid(gridOption)
    case Err(e) => Err(e)
    case Ok(grid) =>
      match ParseBoxSizes(boxOption)
      case Err(e) => Err(e)
      case Ok(box) =>
        match ParseHeights(heightsOption)
        case Err(e) => Err(e)
        case Ok(heights) =>
          match ParseCentre(centreOption)
          case Err(e) => Err(e)
          case Ok(centre) =>
            if !haveMesh || cloud.None? then Ok([])
            else
              match DivisionPoints(centre, box, grid, heights)
              case Err(e) => Err(e)
              case Ok(dp) => SegmentSpec(dp, cloud.value)
  }

  /**
   * Three positive counts, three sizes and a centre with three values give
   * three boundary lists of at least two values, spanning the boxes placed
   * from the centre corner.
   */
  lemma PlacedGrid(centre: seq<real>, box: seq<real>, grid: seq<int>)
    requires |grid| == 3 && |box| == 3 && |centre| >= 3 && grid[0] > 0 && grid[1] > 0 && grid[2] > 0
    ensures DivisionPoints(centre, box, grid, None).Ok?
    ensures var dp := DivisionPoints(centre, box, grid, None).value;
      |dp| == 3 && |dp[0]| >= 2 && |dp[1]| >= 2 && |dp[2]| >= 2 &&
      GridBox(dp) == Box(Vec3(centre[0], centre[1], centre[2]),
        Vec3(centre[0] + box[0] * (grid[0] as real), centre[1] + box[1] * (grid[1] as real),
             centre[2] + box[2] * (grid[2] as real)))
  {
    DivisionPointsMeaning(centre, box, grid, None);
    forall a | 0 <= a < 3 ensures AxisPoints(a, centre, box[a], grid[a], None).Ok? {
      LinspaceBoxes(centre[a], box[a], grid[a]);
    }
    UniformAxis(centre, box, grid, None, 0);
    UniformAxis(centre, box, grid, None, 1);
    UniformAxis(centre, box, grid, None, 2);
  }

  /**
   * Closed boxes count a shared face twice: on a 2x1x1 grid of 5-unit boxes
   * placed at the origin, x = 0 lies only in cell (0, 0, 0), x = 10 only in
   * cell (1, 0, 0), and x = 5 in both.
   */
  lemma SharedFaceExample()
    ensures var r := DivisionPoints([0.0, 0.0, 0.0], [5.0, 1.0, 1.0], [2, 1, 1], None);
      r.Ok? && CellOf(r.value, Cell(0, 0, 0)) && CellOf(r.value, Cell(1, 0, 0)) &&
      var b0, b1 := CellBox(r.value, Cell(0, 0, 0)), CellBox(r.value, Cell(1, 0, 0));
      InBox(Vec3(0.0, 0.0, 0.0), b0) && !InBox(Vec3(0.0, 0.0, 0.0), b1) &&
      InBox(Vec3(5.0, 0.0, 0.0), b0) && InBox(Vec3(5.0, 0.0, 0.0), b1) &&
      !InBox(Vec3(10.0, 0.0, 0.0), b0) && InBox(Vec3(10.0, 0.0, 0.0), b1)
  {
    var centre, box, grid := [0.0, 0.0, 0.0], [5.0, 1.0, 1.0], [2, 1, 1];
    PlacedGrid(centre, box, grid);
    UniformAxis(centre, box, grid, None, 0);
    UniformAxis(centre, box, grid, None, 1);
    UniformAxis(centre, box, grid, None, 2);
    var dp := DivisionPoints(centre, box, grid, None).value;
    assert dp[0][0] == 0.0 && dp[0][1] == 5.0 && dp[0][2] == 10.0;
    assert dp[1][0] == 0.0 && dp[1][1] == 1.0 && dp[2][0] == 0.0 && dp[2][1] == 1.0;
  }

  /** Once every option parses and a mesh and a scan are loaded, `main` is the segmentation. */
  lemma MainSegments(gridOption: string, boxOption: string, heightsOption: string, centreOption: string, cloud: Cloud)
    requires Parallel(cloud)
    requires ParseGrid(gridOption).Ok? && ParseBoxSizes(boxOption).Ok? && ParseHeights(heightsOption).Ok? &&
      ParseCentre(centreOption).Ok?
    requires DivisionPoints(ParseCentre(centreOption).value, ParseBoxSizes(boxOption).value,
      ParseGrid(gridOption).value, ParseHeights(heightsOption).value).Ok?
    ensures MainSpec(gridOption, boxOption, heightsOption, centreOption, true, Some(cloud)) ==
      SegmentSpec(DivisionPoints(ParseCentre(centreOption).value, ParseBoxSizes(boxOption).value,
        ParseGrid(gridOption).value, ParseHeights(heightsOption).value).value, cloud)
  {
  }

  /**
   * With three grid counts, three box sizes and a three-value centre, and
   * no heights, every scan point inside the grid of boxes placed at the
   * centre is written to some section file.
   */
  lemma MainWritesEveryPoint(gridOption: string, boxOption: string, centreOption: string,
                             g: seq<int>, bs: seq<real>, cs: seq<real>, cloud: Cloud, p: Vec3)
    requires Parallel(cloud)
    requires ParseGrid(gridOption) == Ok(g) && ParseBoxSizes(boxOption) == Ok(bs) && ParseCentre(centreOption) == Ok(cs)
    requires |g| == 3 && |bs| == 3 && |cs| >= 3 && g[0] > 0 && g[1] > 0 && g[2] > 0
    requires p in cloud.points
    requires InBox(p, Box(Vec3(cs[0], cs[1], cs[2]),
      Vec3(cs[0] + bs[0] * (g[0] as real), cs[1] + bs[1] * (g[1] as real), cs[2] + bs[2] * (g[2] as real))))
    ensures MainSpec(gridOption, boxOption, "", centreOption, true, Some(cloud)).Ok?
    ensures exists o :: (o in MainSpec(gridOption, boxOption, "", centreOption, true, Some(cloud)).value &&
      o.PointFile? && p in o.points)
  {
    PlacedGrid(cs, bs, g);
    var dp := DivisionPoints(cs, bs, g, None).value;
    assert InBox(p, GridBox(dp));
    EveryPointWritten(dp, cloud, p);
    MainSegments(gridOption, boxOption, "", centreOption, cloud);
  }

  /** `main`, with the division loop and the cell loops. */
  method MainCommand(gridOption: string, boxOption: string, heightsOption: string, centreOption: string,
              haveMesh: bool, cloud: Option<Cloud>) returns (r: Result<seq<Output>>)
    requires cloud.Some? ==> Parallel(cloud.value)
    ensures r == MainSpec(gridOption, boxOption, heightsOption, centreOption, haveMesh, cloud)
  {
    var grid := ParseGrid(gridOption);
    if grid.Err? {
      return Err(grid.error);
    }
    var box := ParseBoxSizes(boxOption);
    if box.Err? {
      return Err(box.error);
    }
    var heights := ParseHeights(heightsOption);
    if heights.Err? {
      return Err(heights.error);
    }
    var centre := ParseCentre(centreOption);
    if centre.Err? {
      return Err(centre.error);
    }
    if !haveMesh || cloud.None? {
      return Ok([]);
    }
    var dp := CalculateGridDivisionPoints(centre.value, box.value, grid.value, heights.value);
    if dp.Err? {
      return Err(dp.error);
    }
    r := SegmentLoops(dp.value, PerCell(dp.value, cloud.value));
  }
}
