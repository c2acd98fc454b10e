/**
 * script.py: the mesh and the scan are both centred, the grid spans their
 * combined bounds, and the same cell loops run twice: once over the mesh,
 * writing every cell as a box, and once over the centred scan, writing every
 * non-empty section. The mesh is modelled by its bounds.
 */
module CombinedScript {
  import opened Outcomes
  import opened Geometry
  import opened Filters
  import opened Stats
  import opened Division
  import opened Cells
  import opened Parsing
  import opened Sections
  import opened Segments

  /**
   * `center_data` for the mesh: translated by minus the mean of its two
   * bound corners, so its bounds are centred on the origin with unchanged
   * extents.
   */
  function CentreMesh(bounds: Box): (r: Box)
    ensures Centre(r) == Origin
    ensures Extents(r) == Extents(bounds)
    ensures Proper(bounds) ==> Proper(r)
  {
    var c := Centre(bounds);
    Box(Sub(bounds.lo, c), Sub(bounds.hi, c))
  }

  /** `np.linspace(start, end, num=div + 1)` for each axis of the zip with the grid counts. */
  function AxisResults(bounds: Box, grid: seq<int>): (rs: seq<Result<seq<real>>>)
    ensures |rs| == Min(3, |grid|)
  {
    seq(Min(3, |grid|), a requires 0 <= a < Min(3, |grid|) =>
      Linspace(Coord(bounds.lo, a), Coord(bounds.hi, a), grid[a] + 1))
  }

  /** The comprehension building `division_points`. */
  function DivisionPoints(bounds: Box, grid: seq<int>): Result<seq<seq<real>>> {
    Collect(AxisResults(bounds, grid))
  }

  /**
   * The boundary lists exist iff no zipped count is below -1, and then there
   * is one per zipped axis, running from the minimum to the maximum.
   */
  lemma DivisionPointsMeaning(bounds: Box, grid: seq<int>)
    ensures DivisionPoints(bounds, grid).Ok? <==> forall a :: 0 <= a < Min(3, |grid|) ==> grid[a] >= -1
    ensures var r := DivisionPoints(bounds, grid);
      r.Ok? ==> (|r.value| == Min(3, |grid|) &&
        forall a :: 0 <= a < |r.value| ==>
          r.value[a] == Linspace(Coord(bounds.lo, a), Coord(bounds.hi, a), grid[a] + 1).value)
  {
    var rs := AxisResults(bounds, grid);
    CollectMeaning(rs);
    assert forall a :: 0 <= a < |rs| ==> rs[a] == Linspace(Coord(bounds.lo, a), Coord(bounds.hi, a), grid[a] + 1);
  }

  /**
   * With three positive counts the grid has `count + 1` boundaries per axis
   * and spans exactly the given bounds.
   */
  lemma SpansBounds(bounds: Box, grid: seq<int>)
    requires |grid| >= 3 && grid[0] > 0 && grid[1] > 0 && grid[2] > 0
    ensures var r := DivisionPoints(bounds, grid);
      r.Ok? && |r.value| == 3 &&
      |r.value[0]| == grid[0] + 1 && |r.value[1]| == grid[1] + 1 && |r.value[2]| == grid[2] + 1 &&
      GridBox(r.value) == bounds
  {
    DivisionPointsMeaning(bounds, grid);
    var dp := DivisionPoints(bounds, grid).value;
    assert dp[0] == Linspace(bounds.lo.x, bounds.hi.x, grid[0] + 1).value;
    assert dp[1] == Linspace(bounds.lo.y, bounds.hi.y, grid[1] + 1).value;
    assert dp[2] == Linspace(bounds.lo.z, bounds.hi.z, grid[2] + 1).value;
  }

  /**
   * The `data_type` of `segment_based_on_grid`: 'mesh', 'point_cloud' with
   * its points and scan index, or any other string.
   */
  datatype Pass = MeshPass | PointPass(points: seq<Vec3>, scan: nat) | OtherPass

  /**
   * One cell of one pass. The mesh pass writes the cell as a box of its
   * extents placed at its centre; the point pass writes the cell's closed-box
   * section when it has points, without colours.
   */
  function CellOutput(dp: seq<seq<real>>, pass: Pass, c: Cell): seq<Output> {
    if !CellOf(dp, c) then []
    else
      var b := CellBox(dp, c);
      match pass
      case MeshPass => [BoxFile(CellName("box_", c, ".obj"), Centre(b), Extents(b))]
      case PointPass(ps, scan) =>
        var section := FilterBox(ps, b);
        if |section| > 0 then [PointFile(SectionName(scan, c, ".e57"), section, None)] else []
      case OtherPass => []
  }

  function PerCell(dp: seq<seq<real>>, pass: Pass): Cell -> seq<Output> {
    c => CellOutput(dp, pass, c)
  }

  /**
   * The mesh pass writes exactly one box per visited cell, in visiting
   * order, and each box placed at its centre with its extents is the cell.
   */
  lemma MeshPassBoxes(dp: seq<seq<real>>)
    requires Segment(dp, PerCell(dp, MeshPass)).Ok?
    ensures var outs := Segment(dp, PerCell(dp, MeshPass)).value;
      var cs := SegmentCells(dp);
      |outs| == |cs| &&
      forall k :: 0 <= k < |cs| ==>
        CellOf(dp, cs[k]) && outs[k].BoxFile? && outs[k].name == CellName("box_", cs[k], ".obj") &&
        Sub(outs[k].centre, Scale(outs[k].extents, 0.5)) == CellBox(dp, cs[k]).lo &&
        Add(outs[k].centre, Scale(outs[k].extents, 0.5)) == CellBox(dp, cs[k]).hi
  {
    var cs := SegmentCells(dp);
    var f := PerCell(dp, MeshPass);
    forall c | c in cs ensures CellOf(dp, c) && |f(c)| == 1 {
      SegmentCellsMember(dp, c);
    }
    GatherOnePerCell(cs, f);
  }

  /** Any other data type visits the cells and writes nothing. */
  lemma OtherPassWritesNothing(dp: seq<seq<real>>)
    ensures Segment(dp, PerCell(dp, OtherPass)).Err? <==> LoopsRaise(AxisCounts(dp))
    ensures Segment(dp, PerCell(dp, OtherPass)).Ok? ==> Segment(dp, PerCell(dp, OtherPass)).value == []
  {
    var f := PerCell(dp, OtherPass);
    if !LoopsRaise(AxisCounts(dp)) {
      var outs := Segment(dp, f).value;
      if outs != [] {
        SegmentMember(dp, f, outs[0]);
      }
    }
  }

  /**
   * The point pass, when it ends normally, has written an output iff it is
   * the section of a cell that holds at least one of the points.
   */
  lemma PointPassWrites(dp: seq<seq<real>>, ps: seq<Vec3>, scan: nat, o: Output)
    requires Segment(dp, PerCell(dp, PointPass(ps, scan))).Ok?
    ensures o in Segment(dp, PerCell(dp, PointPass(ps, scan))).value <==>
      exists c :: CellOf(dp, c) && (exists i :: 0 <= i < |ps| && InBox(ps[i], CellBox(dp, c))) &&
        o == PointFile(SectionName(scan, c, ".e57"), FilterBox(ps, CellBox(dp, c)), None)
  {
    var f := PerCell(dp, PointPass(ps, scan));
    SegmentMember(dp, f, o);
    forall c | CellOf(dp, c)
      ensures |FilterBox(ps, CellBox(dp, c))| > 0 <==> exists i :: 0 <= i < |ps| && InBox(ps[i], CellBox(dp, c))
    {
      var b := CellBox(dp, c);
      if |FilterBox(ps, b)| > 0 {
        FilterBoxMember(ps, b, FilterBox(ps, b)[0]);
      }
      if exists i :: 0 <= i < |ps| && InBox(ps[i], b) {
        var i :| 0 <= i < |ps| && InBox(ps[i], b);
        FilterBoxMember(ps, b, ps[i]);
      }
    }
  }

  /** The two passes over one grid: the mesh boxes, then the scan sections of scan 0. */
  function Passes(dp: seq<seq<real>>, ps: seq<Vec3>): Result<seq<Output>> {
    match Segment(dp, PerCell(dp, MeshPass))
    case Err(e) => Err(e)
    case Ok(boxes) =>
      match Segment(dp, PerCell(dp, PointPass(ps, 0)))
      case Err(e) => Err(e)
      case Ok(sections) => Ok(boxes + sections)
  }

  /**
   * `main`: the grid option is parsed first; when both a mesh and a scan
   * were loaded they are centred, the grid spans their combined bounds and
   * both passes run. `meshBounds` is `None` when no mesh was loaded.
   */
  function MainSpec(gridOption: string, meshBounds: Option<Box>, cloud: Option<seq<Vec3>>): Result<seq<Output>> {
    match ParseGrid(gridOption)
    case Err(e) => Err(e)
    case Ok(grid) =>
      if meshBounds.None? || cloud.None? then Ok([])
      else
        var ps := Centred(cloud.value);
        match CombinedBounds(CentreMesh(meshBounds.value), ps)
        case Err(e) => Err(e)
        case Ok(bounds) =>
          match DivisionPoints(bounds, grid)
          case Err(e) => Err(e)
          case Ok(dp) => Passes(dp, ps)
  }

  /**
   * With three positive counts the grid built from a non-empty scan spans
   * a box that encloses the centred mesh and every centred scan point.
   */
  lemma GridEnclosesData(meshBounds: Box, cloud: seq<Vec3>, grid: seq<int>)
    requires Proper(meshBounds) && |cloud| > 0
    requires |grid| >= 3 && grid[0] > 0 && grid[1] > 0 && grid[2] > 0
    ensures var bounds := CombinedBounds(CentreMesh(meshBounds), Centred(cloud));
      bounds.Ok? && DivisionPoints(bounds.value, grid).Ok? &&
      var dp := DivisionPoints(bounds.value, grid).value;
      |dp| == 3 && |dp[0]| >= 2 && |dp[1]| >= 2 && |dp[2]| >= 2 &&
      Encloses(GridBox(dp), CentreMesh(meshBounds)) &&
      forall i :: 0 <= i < |cloud| ==> InBox(Centred(cloud)[i], GridBox(dp))
  {
    SpansBounds(CombinedBounds(CentreMesh(meshBounds), Centred(cloud)).value, grid);
  }

  /** Both passes run on the grid and a point of the scan ends up in a written section. */
  lemma PassesWritePoint(dp: seq<seq<real>>, ps: seq<Vec3>, p: Vec3)
    requires |dp| >= 3 && |dp[0]| >= 2 && |dp[1]| >= 2 && |dp[2]| >= 2
    requires p in ps && InBox(p, GridBox(dp))
    ensures Passes(dp, ps).Ok?
    ensures exists o :: (o in Passes(dp, ps).value && o.PointFile? && p in o.points)
  {
    SegmentCovers(dp, p);
    var c :| c in SegmentCells(dp) && CellOf(dp, c) && InBox(p, CellBox(dp, c));
    var b := CellBox(dp, c);
    var f := PerCell(dp, PointPass(ps, 0));
    assert p in FilterBox(ps, b) by { FilterBoxMember(ps, b, p); }
    var o := PointFile(SectionName(0, c, ".e57"), FilterBox(ps, b), None);
    assert f(c) == [o];
    var sections := Gather(SegmentCells(dp), f);
    assert o in sections by { GatherMember(SegmentCells(dp), f, o); }
    assert Segment(dp, PerCell(dp, MeshPass)).Ok? by { SegmentMember(dp, PerCell(dp, MeshPass), o); }
    assert Segment(dp, f) == Ok(sections);
  }

  /**
   * With a mesh, a non-empty scan and three positive counts, every centred
   * scan point is written to some section file.
   */
  lemma EveryPointWritten(gridOption: string, grid: seq<int>, meshBounds: Box, cloud: seq<Vec3>, i: nat)
    requires ParseGrid(gridOption) == Ok(grid)
    requires |grid| >= 3 && grid[0] > 0 && grid[1] > 0 && grid[2] > 0
    requires Proper(meshBounds) && i < |cloud|
    ensures MainSpec(gridOption, Some(meshBounds), Some(cloud)).Ok?
    ensures exists o :: (o in MainSpec(gridOption, Some(meshBounds), Some(cloud)).value &&
      o.PointFile? && Centred(cloud)[i] in o.points)
  {
    GridEnclosesData(meshBounds, cloud, grid);
    var bounds := CombinedBounds(CentreMesh(meshBounds), Centred(cloud)).value;
    var dp := DivisionPoints(bounds, grid).value;
    PassesWritePoint(dp, Centred(cloud), Centred(cloud)[i]);
    assert MainSpec(gridOption, Some(meshBounds), Some(cloud)) == Passes(dp, Centred(cloud));
  }

  /** `segment_based_on_grid`: the cell loops around one pass's per-cell work. */
  method SegmentBasedOnGrid(dp: seq<seq<real>>, pass: Pass) returns (r: Result<seq<Output>>)
    ensures r == Segment(dp, PerCell(dp, pass))
  {
    r := SegmentLoops(dp, PerCell(dp, pass));
  }

  /** `main`. */
  method MainCommand(gridOption: string, meshBounds: Option<Box>, cloud: Option<seq<Vec3>>) returns (r: Result<seq<Output>>)
    ensures r == MainSpec(gridOption, meshBounds, cloud)
  {
    var grid := ParseGrid(gridOption);
    if grid.Err? {
      return Err(grid.error);
    }
    if meshBounds.None? || cloud.None? {
      return Ok([]);
    }
    var ps := Centred(cloud.value);
    var bounds := CombinedBounds(CentreMesh(meshBounds.value), ps);
    if bounds.Err? {
      return Err(bounds.error);
    }
    var dp := DivisionPoints(bounds.value, grid.value);
    if dp.Err? {
      return Err(dp.error);
    }
    var boxes := SegmentBasedOnGrid(dp.value, MeshPass);
    if boxes.Err? {
      return Err(boxes.error);
    }
    var sections := SegmentBasedOnGrid(dp.value, PointPass(ps, 0));
    if sections.Err? {
      return Err(sections.error);
    }
    r := Ok(boxes.value + sections.value);
  }
}
