/**
 * cloudpoint.py: like Point.py, every scan is cut into a uniform grid over
 * its own bounding box, but the boundaries are computed once per scan as a
 * nine-value tuple (three minima, three maxima, three section sizes) and
 * that same tuple is handed to the six-value point filter for every cell.
 * The unpacking raises, the catch-all handler reports it, and no section is
 * ever written. The corrected driver derives each cell's six bounds from the
 * nine values and then behaves exactly like Point.py.
 */
module Cloudpoint {
  import opened Outcomes
  import opened Geometry
  import opened Stats
  import opened Division
  import opened Cells
  import opened Masks
  import opened Filters
  import opened Parsing
  import opened Sections
  import opened Grids
  import PointScript

  /**
   * `calculate_section_boundaries`: `min_x, max_x, min_y, max_y, min_z,
   * max_z` of the scan, then the three section sizes. `np.min` of an empty
   * column raises first; a grid option with fewer than three fields raises
   * at `grid_sizes[1]` or `grid_sizes[2]`.
   */
  function SectionBoundaries(ps: seq<Vec3>, g: seq<int>): (r: Result<seq<real>>)
    ensures r.Err? <==> |ps| == 0 || |g| < 3
    ensures |ps| == 0 ==> r == Err(EmptyArray)
    ensures |ps| > 0 && |g| < 3 ==> r == Err(IndexOutOfRange)
    ensures r.Ok? ==> |r.value| == 9
  {
    if |ps| == 0 then Err(EmptyArray)
    else if |g| < 3 then Err(IndexOutOfRange)
    else
      var bb := BoundingBox(ps);
      var size := Sizes(bb, g);
      Ok([bb.lo.x, bb.hi.x, bb.lo.y, bb.hi.y, bb.lo.z, bb.hi.z, size.x, size.y, size.z])
  }

  /** Every point of the scan lies between the minimum and the maximum on each axis. */
  lemma SectionBoundariesMeaning(ps: seq<Vec3>, g: seq<int>)
    requires |ps| > 0 && |g| >= 3
    ensures var b := SectionBoundaries(ps, g).value;
      forall i :: 0 <= i < |ps| ==>
        b[0] <= ps[i].x <= b[1] && b[2] <= ps[i].y <= b[3] && b[4] <= ps[i].z <= b[5]
  {
    var bb := BoundingBox(ps);
    var size := Sizes(bb, g);
    var b := SectionBoundaries(ps, g).value;
    assert b == [bb.lo.x, bb.hi.x, bb.lo.y, bb.hi.y, bb.lo.z, bb.hi.z, size.x, size.y, size.z];
    assert forall i :: 0 <= i < |ps| ==> InBox(ps[i], bb);
  }

  /** With a positive count, the minimum plus count sections lands on the maximum. */
  lemma SectionSizesMeaning(ps: seq<Vec3>, g: seq<int>)
    requires |ps| > 0 && |g| >= 3
    ensures var b := SectionBoundaries(ps, g).value;
      g[0] > 0 ==> b[0] + (g[0] as real) * b[6] == b[1]
    ensures var b := SectionBoundaries(ps, g).value;
      g[1] > 0 ==> b[2] + (g[1] as real) * b[7] == b[3]
    ensures var b := SectionBoundaries(ps, g).value;
      g[2] > 0 ==> b[4] + (g[2] as real) * b[8] == b[5]
  {
    var bb := BoundingBox(ps);
    var size := Sizes(bb, g);
    var b := SectionBoundaries(ps, g).value;
    assert b == [bb.lo.x, bb.hi.x, bb.lo.y, bb.hi.y, bb.lo.z, bb.hi.z, size.x, size.y, size.z];
  }

  /** The closed box of six values `min_x, max_x, min_y, max_y, min_z, max_z`. */
  function BoundsBox(b: seq<real>): Box
    requires |b| == 6
  {
    Box(Vec3(b[0], b[2], b[4]), Vec3(b[1], b[3], b[5]))
  }

  /**
   * `filter_points_within_section`: unpack six bounds (any other count
   * raises), then keep the points inside the closed box.
   */
  function FilterWithin(ps: seq<Vec3>, bounds: seq<real>): Result<seq<Vec3>> {
    if |bounds| != 6 then Err(UnpackError) else Ok(FilterBox(ps, BoundsBox(bounds)))
  }

  /**
   * The filter succeeds iff it is given exactly six values; it then keeps a
   * point iff the point is an input and lies between the bounds on all three
   * axes, and what it keeps is a subsequence of the input: the k-th kept
   * point is the input point at the k-th selected index, and those indices
   * increase.
   */
  lemma FilterWithinMeaning(ps: seq<Vec3>, bounds: seq<real>)
    ensures FilterWithin(ps, bounds).Ok? <==> |bounds| == 6
    ensures FilterWithin(ps, bounds).Err? ==> FilterWithin(ps, bounds).error == UnpackError
    ensures FilterWithin(ps, bounds).Ok? ==> forall p :: p in FilterWithin(ps, bounds).value <==>
      p in ps && bounds[0] <= p.x <= bounds[1] && bounds[2] <= p.y <= bounds[3] && bounds[4] <= p.z <= bounds[5]
    ensures FilterWithin(ps, bounds).Ok? ==>
      var kept, idx := FilterWithin(ps, bounds).value, Selected(InBoxMask(ps, BoundsBox(bounds)));
      |kept| == |idx| &&
      (forall k :: 0 <= k < |idx| ==> idx[k] < |ps| && kept[k] == ps[idx[k]]) &&
      (forall k, l :: 0 <= k < l < |idx| ==> idx[k] < idx[l])
  {
    if |bounds| == 6 {
      var b := BoundsBox(bounds);
      forall p ensures p in FilterBox(ps, b) <==> p in ps && InBox(p, b) {
        FilterBoxMember(ps, b, p);
      }
      FilterBoxOrder(ps, b);
    }
  }

  /** `filter_points_within_section` with its append loop. */
  method FilterPointsWithinSection(ps: seq<Vec3>, bounds: seq<real>) returns (r: Result<seq<Vec3>>)
    ensures r == FilterWithin(ps, bounds)
  {
    if |bounds| != 6 {
      return Err(UnpackError);
    }
    var section := FilterSection(ps, BoundsBox(bounds));
    return Ok(section);
  }

  /**
   * One cell of the driver as written: filter with `bounds`, then export the
   * section when it has points or report the skip.
   */
  function CellStep(scan: nat, ps: seq<Vec3>, bounds: seq<real>, c: Cell): Run {
    match FilterWithin(ps, bounds)
    case Err(e) => Raise(e)
    case Ok(section) =>
      if |section| > 0 then Done([PointFile(SectionName(scan, c, ".e57"), section, None)])
      else Done([Skipped(scan, c)])
  }

  function CellStepAt(scan: nat, ps: seq<Vec3>, bounds: seq<real>): Cell -> Run {
    c => CellStep(scan, ps, bounds, c)
  }

  /** One scan as written: the nine boundaries, then every cell with those same nine values. */
  function ScanStep(scan: nat, ps: seq<Vec3>, g: seq<int>): Run {
    match SectionBoundaries(ps, g)
    case Err(e) => Raise(e)
    case Ok(bounds) => CellsRun(UniformCells(g), CellStepAt(scan, ps, bounds))
  }

  function Steps(scans: seq<seq<Vec3>>, g: seq<int>): nat -> Run {
    (s: nat) => if s < |scans| then ScanStep(s, scans[s], g) else Done([])
  }

  /** `section_e57` as written: parse the grid option, then every scan in order. */
  function SectionE57Spec(gridOption: string, scans: seq<seq<Vec3>>): Run {
    match ParseGrid(gridOption)
    case Err(e) => Run([], Some(e))
    case Ok(g) => RunSteps(Steps(scans, g), |scans|)
  }

  /**
   * The selection never depends on the cell: every cell of a scan is given
   * the same bounds, so it raises, or selects the same points, alike.
   */
  lemma SameSelectionEveryCell(scan: nat, ps: seq<Vec3>, bounds: seq<real>, c1: Cell, c2: Cell)
    ensures CellStep(scan, ps, bounds, c1).failure == CellStep(scan, ps, bounds, c2).failure
    ensures |CellStep(scan, ps, bounds, c1).outputs| == |CellStep(scan, ps, bounds, c2).outputs|
    ensures CellStep(scan, ps, bounds, c1).failure.None? ==>
      (CellStep(scan, ps, bounds, c1).outputs[0].PointFile? <==> CellStep(scan, ps, bounds, c2).outputs[0].PointFile?)
    ensures CellStep(scan, ps, bounds, c1).failure.None? && CellStep(scan, ps, bounds, c1).outputs[0].PointFile? ==>
      CellStep(scan, ps, bounds, c1).outputs[0].points == CellStep(scan, ps, bounds, c2).outputs[0].points
  {
  }

  /**
   * As written, a scan whose grid has at least one cell raises the
   * unpacking error at its first cell, before writing anything; a scan
   * with no cells writes nothing either.
   */
  lemma ScanStepAsWritten(scan: nat, ps: seq<Vec3>, g: seq<int>)
    ensures ScanStep(scan, ps, g).outputs == []
    ensures |ps| > 0 && |g| >= 3 && |UniformCells(g)| > 0 ==> ScanStep(scan, ps, g) == Raise(UnpackError)
    ensures |ps| > 0 && |g| >= 3 && g[0] > 0 && g[1] > 0 && g[2] > 0 ==> ScanStep(scan, ps, g) == Raise(UnpackError)
  {
    if |ps| > 0 && |g| >= 3 {
      var bounds := SectionBoundaries(ps, g).value;
      var cs := UniformCells(g);
      var step := CellSteps(cs, CellStepAt(scan, ps, bounds));
      if |cs| > 0 {
        assert RunSteps(step, 1) == Raise(UnpackError);
        RunStepsStopped(step, 1, |cs|);
      }
      if g[0] > 0 && g[1] > 0 && g[2] > 0 {
        CellsMember(RangeLen(g[0]), RangeLen(g[1]), RangeLen(g[2]), Cell(0, 0, 0));
      }
    }
  }

  /**
   * The driver as written never writes a section: whatever the grid option
   * and the scans, its run has no outputs at all.
   */
  lemma NeverExports(gridOption: string, scans: seq<seq<Vec3>>)
    ensures SectionE57Spec(gridOption, scans).outputs == []
  {
    if ParseGrid(gridOption).Ok? {
      var g := ParseGrid(gridOption).value;
      var run := RunSteps(Steps(scans, g), |scans|);
      if run.outputs != [] {
        RunStepsOutputs(Steps(scans, g), |scans|, run.outputs[0]);
        var s :| 0 <= s < |scans| && run.outputs[0] in Steps(scans, g)(s).outputs;
        ScanStepAsWritten(s, scans[s], g);
      }
    }
  }

  /**
   * As written, a file whose first scan has points on a grid with positive
   * counts ends with the unpacking error, reported by the handler.
   */
  lemma FirstScanRaisesUnpack(gridOption: string, scans: seq<seq<Vec3>>)
    requires ParseGrid(gridOption).Ok?
    requires var g := ParseGrid(gridOption).value; |g| >= 3 && g[0] > 0 && g[1] > 0 && g[2] > 0
    requires |scans| > 0 && |scans[0]| > 0
    ensures SectionE57Spec(gridOption, scans) == Raise(UnpackError)
  {
    var g := ParseGrid(gridOption).value;
    var step := Steps(scans, g);
    ScanStepAsWritten(0, scans[0], g);
    assert RunSteps(step, 1) == Raise(UnpackError);
    RunStepsStopped(step, 1, |scans|);
  }

  // ---- The evidently intended driver ----

  /**
   * The six bounds of cell `c` from the nine values: `min + x * size` and
   * `min + (x + 1) * size` on each axis.
   */
  function CellBounds(b: seq<real>, c: Cell): (r: seq<real>)
    requires |b| == 9
    ensures |r| == 6
    ensures r[1] - r[0] == b[6] && r[3] - r[2] == b[7] && r[5] - r[4] == b[8]
  {
    [Edge(b[0], b[6], c.i), Edge(b[0], b[6], c.i + 1),
     Edge(b[2], b[7], c.j), Edge(b[2], b[7], c.j + 1),
     Edge(b[4], b[8], c.k), Edge(b[4], b[8], c.k + 1)]
  }

  /** One cell of the intended driver: the filter gets that cell's own six bounds. */
  function CorrectedCellStep(scan: nat, ps: seq<Vec3>, b: seq<real>, c: Cell): Run
    requires |b| == 9
  {
    CellStep(scan, ps, CellBounds(b, c), c)
  }

  function CorrectedCellStepAt(scan: nat, ps: seq<Vec3>, b: seq<real>): Cell -> Run
    requires |b| == 9
  {
    c => CorrectedCellStep(scan, ps, b, c)
  }

  function CorrectedScanStep(scan: nat, ps: seq<Vec3>, g: seq<int>): Run {
    match SectionBoundaries(ps, g)
    case Err(e) => Raise(e)
    case Ok(b) => CellsRun(UniformCells(g), CorrectedCellStepAt(scan, ps, b))
  }

  function CorrectedSteps(scans: seq<seq<Vec3>>, g: seq<int>): nat -> Run {
    (s: nat) => if s < |scans| then CorrectedScanStep(s, scans[s], g) else Done([])
  }

  function CorrectedSectionE57Spec(gridOption: string, scans: seq<seq<Vec3>>): Run {
    match ParseGrid(gridOption)
    case Err(e) => Run([], Some(e))
    case Ok(g) => RunSteps(CorrectedSteps(scans, g), |scans|)
  }

  /** A cell's six bounds are the box of that cell in the scan's uniform grid. */
  lemma CellBoundsAreScanBox(ps: seq<Vec3>, g: seq<int>, c: Cell)
    requires |ps| > 0 && |g| >= 3
    ensures BoundsBox(CellBounds(SectionBoundaries(ps, g).value, c)) == ScanBox(ps, g, c)
  {
  }

  /**
   * With per-cell bounds the scan behaves exactly as in Point.py: no cell
   * raises, each exports its points in the closed cell box or is skipped.
   */
  lemma CorrectedScanIsPointScript(scan: nat, ps: seq<Vec3>, g: seq<int>)
    ensures CorrectedScanStep(scan, ps, g) == PointScript.ScanStep(scan, ps, g)
  {
    if |ps| > 0 && |g| >= 3 {
      var b := SectionBoundaries(ps, g).value;
      var cs := UniformCells(g);
      var f := CorrectedCellStepAt(scan, ps, b);
      forall c | c in cs
        ensures f(c).failure.None? && OutputsOf(f)(c) == PointScript.PerCell(scan, ps, g)(c)
      {
        CellBoundsAreScanBox(ps, g, c);
      }
      CellsRunNeverFails(cs, f, |cs|);
      assert cs[..|cs|] == cs;
      GatherAgree(cs, OutputsOf(f), PointScript.PerCell(scan, ps, g));
    }
  }

  /** The corrected driver is Point.py's `section_e57`, run for run. */
  lemma CorrectedIsPointScript(gridOption: string, scans: seq<seq<Vec3>>)
    ensures CorrectedSectionE57Spec(gridOption, scans) == PointScript.SectionE57Spec(gridOption, scans)
  {
    if ParseGrid(gridOption).Ok? {
      var g := ParseGrid(gridOption).value;
      forall s | 0 <= s < |scans|
        ensures CorrectedSteps(scans, g)(s) == PointScript.Steps(scans, g)(s)
      {
        CorrectedScanIsPointScript(s, scans[s], g);
      }
      RunStepsAgree(CorrectedSteps(scans, g), PointScript.Steps(scans, g), |scans|);
    }
  }

  // ---- The driver as written, with its loops ----

  /**
   * The cell loops of one scan as written: the first cell's filter call
   * raises, which ends the scan (and, through the handler, the run).
   */
  method SectionScan(scan: nat, ps: seq<Vec3>, g: seq<int>) returns (r: Run)
    ensures r == ScanStep(scan, ps, g)
  {
    var boundaries := SectionBoundaries(ps, g);
    if boundaries.Err? {
      return Raise(boundaries.error);
    }
    var bounds := boundaries.value;
    var nx, ny, nz := RangeLen(g[0]), RangeLen(g[1]), RangeLen(g[2]);
    ghost var f := CellStepAt(scan, ps, bounds);
    ghost var cs := UniformCells(g);
    for x := 0 to nx
      invariant x == 0 || ny == 0 || nz == 0
    {
      for y := 0 to ny
        invariant y == 0 || nz == 0
      {
        for z := 0 to nz
          invariant z == 0
        {
          var section := FilterPointsWithinSection(ps, bounds);
          if section.Err? {
            CellsMember(nx, ny, nz, Cell(x, y, z));
            assert RunSteps(CellSteps(cs, f), 1) == Raise(UnpackError);
            RunStepsStopped(CellSteps(cs, f), 1, |cs|);
            return Raise(section.error);
          }
          assert false;
        }
      }
    }
    CellsCount(nx, ny, nz);
    r := Done([]);
  }

  /** One pass of the scan loop, appended to what the run has written. */
  method SectionOneScan(scans: seq<seq<Vec3>>, scan: nat, g: seq<int>, run: Run) returns (next: Run)
    requires scan < |scans|
    requires run == RunSteps(Steps(scans, g), scan) && run.failure.None?
    ensures next == RunSteps(Steps(scans, g), scan + 1)
  {
    RunStepsNext(Steps(scans, g), scan);
    var r := SectionScan(scan, scans[scan], g);
    return Run(run.outputs + r.outputs, r.failure);
  }

  /** The loop over the scans of the file, inside the handler. */
  method SectionScans(scans: seq<seq<Vec3>>, g: seq<int>) returns (run: Run)
    ensures run == RunSteps(Steps(scans, g), |scans|)
  {
    run := Run([], None);
    var s := 0;
    while s < |scans|
      invariant 0 <= s <= |scans|
      invariant run == RunSteps(Steps(scans, g), s)
      invariant run.failure.None?
    {
      run := SectionOneScan(scans, s, g, run);
      if run.failure.Some? {
        RunStepsStopped(Steps(scans, g), s + 1, |scans|);
        return;
      }
      s := s + 1;
    }
  }

  /** The driver as written: parse the grid option, then the scans. */
  method SectionE57(gridOption: string, scans: seq<seq<Vec3>>) returns (run: Run)
    ensures run == SectionE57Spec(gridOption, scans)
  {
    var parsed := ParseGrid(gridOption);
    if parsed.Err? {
      return Run([], Some(parsed.error));
    }
    run := SectionScans(scans, parsed.value);
  }
}
