/**
 * Point.py: every scan of an E57 file is cut into a uniform grid over its own
 * bounding box; each cell's points are picked by a closed-interval test and
 * exported as `section_{scan}_{x}_{y}_{z}.e57`, or the cell is reported as
 * skipped when it holds none. A catch-all handler reports the first
 * exception and ends the run.
 */
module PointScript {
  import opened Outcomes
  import opened Geometry
  import opened Stats
  import opened Division
  import opened Cells
  import opened Filters
  import opened Parsing
  import opened Sections
  import opened Grids

  /** What one cell yields: an export when its section has points, a skip message otherwise. */
  function CellOutput(scan: nat, ps: seq<Vec3>, g: seq<int>, c: Cell): seq<Output>
    requires |ps| > 0 && |g| >= 3
  {
    var section := FilterBox(ps, ScanBox(ps, g, c));
    if |section| > 0 then [PointFile(SectionName(scan, c, ".e57"), section, None)]
    else [Skipped(scan, c)]
  }

  function PerCell(scan: nat, ps: seq<Vec3>, g: seq<int>): Cell -> seq<Output>
    requires |ps| > 0 && |g| >= 3
  {
    c => CellOutput(scan, ps, g, c)
  }

  /** The outputs of one non-empty scan, cell by cell in loop order. */
  function ScanOutputs(scan: nat, ps: seq<Vec3>, g: seq<int>): seq<Output>
    requires |ps| > 0 && |g| >= 3
  {
    Gather(UniformCells(g), PerCell(scan, ps, g))
  }

  /**
   * One scan: `np.min` of an empty column raises, and so does
   * `grid_sizes[1]` or `grid_sizes[2]` when the grid option has fewer fields.
   */
  function ScanStep(scan: nat, ps: seq<Vec3>, g: seq<int>): Run {
    if |ps| == 0 then Raise(EmptyArray)
    else if |g| < 3 then Raise(IndexOutOfRange)
    else Done(ScanOutputs(scan, ps, g))
  }

  function Steps(scans: seq<seq<Vec3>>, g: seq<int>): nat -> Run {
    (s: nat) => if s < |scans| then ScanStep(s, scans[s], g) else Done([])
  }

  /** `section_e57`: parse the grid option, then section every scan in order. */
  function SectionE57Spec(gridOption: string, scans: seq<seq<Vec3>>): Run {
    match ParseGrid(gridOption)
    case Err(e) => Run([], Some(e))
    case Ok(g) => RunSteps(Steps(scans, g), |scans|)
  }

  /**
   * An exported section is non-empty and holds exactly the scan points in
   * its closed cell box, in scan order; an empty section is skipped.
   */
  lemma CellOutputMeaning(scan: nat, ps: seq<Vec3>, g: seq<int>, c: Cell)
    requires |ps| > 0 && |g| >= 3
    ensures |CellOutput(scan, ps, g, c)| == 1
    ensures CellOutput(scan, ps, g, c)[0].PointFile? <==>
      exists i :: 0 <= i < |ps| && InBox(ps[i], ScanBox(ps, g, c))
    ensures CellOutput(scan, ps, g, c)[0].Skipped? <==>
      forall i :: 0 <= i < |ps| ==> !InBox(ps[i], ScanBox(ps, g, c))
    ensures CellOutput(scan, ps, g, c)[0].PointFile? ==>
      forall q :: q in CellOutput(scan, ps, g, c)[0].points <==> q in ps && InBox(q, ScanBox(ps, g, c))
  {
    var b := ScanBox(ps, g, c);
    var section := FilterBox(ps, b);
    forall q ensures q in section <==> q in ps && InBox(q, b) {
      FilterBoxMember(ps, b, q);
    }
    if |section| > 0 {
      assert section[0] in section;
    }
    if exists i :: 0 <= i < |ps| && InBox(ps[i], b) {
      var i :| 0 <= i < |ps| && InBox(ps[i], b);
      assert ps[i] in section;
    }
  }

  /**
   * With positive grid counts, every point of a scan appears in at least one
   * exported section of that scan.
   */
  lemma EveryPointExported(scan: nat, ps: seq<Vec3>, g: seq<int>, p: Vec3)
    requires |ps| > 0 && |g| >= 3 && g[0] > 0 && g[1] > 0 && g[2] > 0
    requires p in ps
    ensures exists o :: o in ScanOutputs(scan, ps, g) && o.PointFile? && p in o.points
  {
    ScanCovered(ps, g, p);
    var c :| c in UniformCells(g) && p in FilterBox(ps, ScanBox(ps, g, c));
    var o := CellOutput(scan, ps, g, c)[0];
    assert o in PerCell(scan, ps, g)(c);
    GatherMember(UniformCells(g), PerCell(scan, ps, g), o);
  }

  /**
   * A run that ends normally on a grid with positive counts has exported
   * every point of every scan.
   */
  lemma RunExportsEveryPoint(gridOption: string, scans: seq<seq<Vec3>>, s: nat, p: Vec3)
    requires ParseGrid(gridOption).Ok?
    requires var g := ParseGrid(gridOption).value; |g| >= 3 && g[0] > 0 && g[1] > 0 && g[2] > 0
    requires SectionE57Spec(gridOption, scans).failure.None?
    requires s < |scans| && p in scans[s]
    ensures exists o :: o in SectionE57Spec(gridOption, scans).outputs && o.PointFile? && p in o.points
  {
    var g := ParseGrid(gridOption).value;
    var step := Steps(scans, g);
    RunStepsComplete(step, |scans|);
    assert step(s).failure.None?;
    EveryPointExported(s, scans[s], g, p);
    var o :| o in ScanOutputs(s, scans[s], g) && o.PointFile? && p in o.points;
    assert o in step(s).outputs;
  }

  /** An empty scan ends the run with the error of `np.min` on an empty array. */
  lemma EmptyScanFails(gridOption: string, scans: seq<seq<Vec3>>, s: nat)
    requires ParseGrid(gridOption).Ok?
    requires s < |scans| && |scans[s]| == 0
    ensures SectionE57Spec(gridOption, scans).failure.Some?
  {
    var g := ParseGrid(gridOption).value;
    RunStepsFailure(Steps(scans, g), |scans|);
    assert Steps(scans, g)(s).failure.Some?;
  }

  /** The body of the cell loop: the section boundaries, the filter, then export or skip. */
  method SectionCell(scan: nat, ps: seq<Vec3>, g: seq<int>, lo: Vec3, size: Vec3, c: Cell)
    returns (out: seq<Output>)
    requires |ps| > 0 && |g| >= 3
    requires lo == BoundingBox(ps).lo && size == Sizes(BoundingBox(ps), g)
    ensures out == CellOutput(scan, ps, g, c)
  {
    var section := FilterSection(ps, UniformCellBox(lo, size, c));
    if |section| > 0 {
      out := [PointFile(SectionName(scan, c, ".e57"), section, None)];
    } else {
      out := [Skipped(scan, c)];
    }
  }

  /** The grid loop of one scan. */
  method SectionScan(scan: nat, ps: seq<Vec3>, g: seq<int>) returns (out: seq<Output>)
    requires |ps| > 0 && |g| >= 3
    ensures out == ScanOutputs(scan, ps, g)
  {
    var bb := BoundingBox(ps);
    var size := Sizes(bb, g);
    var nx, ny, nz := RangeLen(g[0]), RangeLen(g[1]), RangeLen(g[2]);
    ghost var f := PerCell(scan, ps, g);
    out := [];
    for x := 0 to nx
      invariant out == Gather(Visited(x, 0, 0, ny, nz), f)
    {
      for y := 0 to ny
        invariant out == Gather(Visited(x, y, 0, ny, nz), f)
      {
        for z := 0 to nz
          invariant out == Gather(Visited(x, y, z, ny, nz), f)
        {
          var cellOut := SectionCell(scan, ps, g, bb.lo, size, Cell(x, y, z));
          VisitNext(x, y, z, ny, nz, f);
          out := out + cellOut;
        }
        RowDone(x, y, ny, nz);
      }
      PlaneDone(x, ny, nz);
    }
    assert Visited(nx, 0, 0, ny, nz) == AllCells(nx, ny, nz);
  }

  /**
   * One pass of the scan loop: the scan's bounds (raising on an empty scan),
   * the grid counts, then the cells, appended to what the run has written.
   */
  method SectionOneScan(scans: seq<seq<Vec3>>, scan: nat, g: seq<int>, run: Run) returns (next: Run)
    requires scan < |scans|
    requires run == RunSteps(Steps(scans, g), scan) && run.failure.None?
    ensures next == RunSteps(Steps(scans, g), scan + 1)
  {
    RunStepsNext(Steps(scans, g), scan);
    var ps := scans[scan];
    if |ps| == 0 {
      return Run(run.outputs, Some(EmptyArray));
    }
    if |g| < 3 {
      return Run(run.outputs, Some(IndexOutOfRange));
    }
    var out := SectionScan(scan, ps, g);
    return Run(run.outputs + out, None);
  }

  /** The loop over the scans of the file. */
  method SectionScans(scans: seq<seq<Vec3>>, g: seq<int>) returns (run: Run)
    ensures run == RunSteps(Steps(scans, g), |scans|)
  {
    run := Run([], None);
    var s := 0;
    while s < |scans|
      invariant 0 <= s <= |scans|
      invariant run == RunSteps(Steps(scans, g), s)
      invariant run.failure.None?
    {
      run := SectionOneScan(scans, s, g, run);
      if run.failure.Some? {
        RunStepsStopped(Steps(scans, g), s + 1, |scans|);
        return;
      }
      s := s + 1;
    }
  }

  /** The driver: parse the grid option, then the scans, inside the catch-all handler. */
  method SectionE57(gridOption: string, scans: seq<seq<Vec3>>) returns (run: Run)
    ensures run == SectionE57Spec(gridOption, scans)
  {
    var parsed := ParseGrid(gridOption);
    if parsed.Err? {
      return Run([], Some(parsed.error));
    }
    run := SectionScans(scans, parsed.value);
  }
}
