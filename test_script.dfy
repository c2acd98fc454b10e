/**
 * test.py: every scan of an E57 file is cut into a uniform grid over its own
 * bounding box, with the cell counts derived from an OBJ model: the model's
 * extent on each axis divided by the grid option's dimension, rounded up.
 * Each cell's points are exported when there are any; an error inside one
 * cell is reported and the loop moves on. The OBJ pass that follows reads
 * section sizes the driver never defines, so it raises as soon as it
 * reaches a cell, and the outer handler reports it.
 */
module TestScript {
  import opened Outcomes
  import opened Geometry
  import opened Stats
  import opened Division
  import opened Cells
  import opened Filters
  import opened Parsing
  import opened Sections
  import opened Grids

  // ---- calculate_grid_sizes ----

  /**
   * One axis: `int(np.ceil((max - min) / int(field)))`. The field that does
   * not parse raises; a zero dimension gives an infinite or undefined
   * quotient, and `int` of that raises.
   */
  function AxisCount(lo: real, hi: real, field: string): Result<int> {
    match ParseInt(field)
    case Err(e) => Err(e)
    case Ok(d) => if d == 0 then Err(NonFiniteCount) else Ok(Ceil((hi - lo) / (d as real)))
  }

  /** The counts of the first `n` axes, computed in axis order; the first failing axis raises. */
  function CountsUpTo(lo: Vec3, hi: Vec3, fields: seq<string>, n: nat): (r: Result<seq<int>>)
    requires n <= 3 && n <= |fields|
    ensures r.Ok? ==> |r.value| == n
    decreases n
  {
    if n == 0 then Ok([])
    else
      match CountsUpTo(lo, hi, fields, n - 1)
      case Err(e) => Err(e)
      case Ok(cs) =>
        match AxisCount(Coord(lo, n - 1), Coord(hi, n - 1), fields[n - 1])
        case Err(e) => Err(e)
        case Ok(c) => Ok(cs + [c])
  }

  /**
   * `calculate_grid_sizes`: `np.min` of an empty vertex array raises; then
   * `zip` pairs the three axes with the fields of the grid option, so only
   * the first three fields are read and a shorter option gives fewer counts.
   */
  function GridSizes(vs: seq<Vec3>, gridOption: string): Result<seq<int>> {
    if |vs| == 0 then Err(EmptyArray)
    else
      var bb := BoundingBox(vs);
      var fields := Split(gridOption, 'x');
      CountsUpTo(bb.lo, bb.hi, fields, Min(3, |fields|))
  }

  /**
   * Each count is the least number of cells of the given dimension that
   * span the model's extent on that axis: `count` cells reach the extent
   * and `count - 1` do not; a flat axis gets no cells.
   */
  lemma AxisCountMeaning(lo: real, hi: real, field: string)
    ensures AxisCount(lo, hi, field).Err? <==> !IntLiteral(field) || ParseInt(field) == Ok(0)
    ensures var r, d := AxisCount(lo, hi, field), ParseInt(field);
      r.Ok? && d.value > 0 ==>
        hi - lo <= (r.value as real) * (d.value as real) &&
        ((r.value - 1) as real) * (d.value as real) < hi - lo
    ensures AxisCount(lo, hi, field).Ok? && lo == hi ==> AxisCount(lo, hi, field).value == 0
  {
    if ParseInt(field).Ok? && ParseInt(field).value > 0 {
      CeilCells(hi - lo, ParseInt(field).value as real);
    }
  }

  /**
   * The grid sizes fail iff the vertex list is empty or one of the first
   * three fields fails; otherwise there is one count per field up to three.
   */
  lemma {:induction false} CountsUpToMeaning(lo: Vec3, hi: Vec3, fields: seq<string>, n: nat)
    requires n <= 3 && n <= |fields|
    ensures CountsUpTo(lo, hi, fields, n).Ok? <==>
      forall a :: 0 <= a < n ==> AxisCount(Coord(lo, a), Coord(hi, a), fields[a]).Ok?
    ensures CountsUpTo(lo, hi, fields, n).Ok? ==>
      forall a :: 0 <= a < n ==> CountsUpTo(lo, hi, fields, n).value[a] == AxisCount(Coord(lo, a), Coord(hi, a), fields[a]).value
    decreases n
  {
    if n > 0 {
      CountsUpToMeaning(lo, hi, fields, n - 1);
    }
  }

  /** The counts depend only on the fields they read. */
  lemma {:induction false} CountsUpToPrefix(lo: Vec3, hi: Vec3, f1: seq<string>, f2: seq<string>, n: nat)
    requires n <= 3 && n <= |f1| && n <= |f2|
    requires forall a :: 0 <= a < n ==> f1[a] == f2[a]
    ensures CountsUpTo(lo, hi, f1, n) == CountsUpTo(lo, hi, f2, n)
    decreases n
  {
    if n > 0 {
      CountsUpToPrefix(lo, hi, f1, f2, n - 1);
    }
  }

  /** The fields of "AxBxCxR" and of "AxBxC" for fields free of the separator. */
  lemma FourFields(a: string, b: string, c: string, rest: string)
    requires 'x' !in a && 'x' !in b && 'x' !in c
    ensures var f := Split(a + "x" + (b + "x" + (c + "x" + rest)), 'x');
      |f| >= 4 && f[0] == a && f[1] == b && f[2] == c
    ensures Split(a + "x" + (b + "x" + c), 'x') == [a, b, c]
  {
    SplitAfterField(c, 'x', rest);
    SplitAfterField(b, 'x', c + "x" + rest);
    SplitAfterField(a, 'x', b + "x" + (c + "x" + rest));
    SplitFree(c, 'x');
    SplitAfterField(b, 'x', c);
    SplitAfterField(a, 'x', b + "x" + c);
  }

  /** "1x2x3x4": the fourth field is never read, even when it does not parse. */
  lemma ExtraFieldsIgnored(vs: seq<Vec3>, a: string, b: string, c: string, rest: string)
    requires 'x' !in a && 'x' !in b && 'x' !in c
    ensures GridSizes(vs, a + "x" + (b + "x" + (c + "x" + rest))) == GridSizes(vs, a + "x" + (b + "x" + c))
  {
    if |vs| > 0 {
      FourFields(a, b, c, rest);
      var bb := BoundingBox(vs);
      CountsUpToPrefix(bb.lo, bb.hi, Split(a + "x" + (b + "x" + (c + "x" + rest)), 'x'), [a, b, c], 3);
    }
  }

  // ---- section_e57 and section_obj ----

  /**
   * One cell of `section_e57`: the closed-box filter over the scan's own
   * bounds; a non-empty section is exported, and when writing it raises
   * (`failing` names those cells) the handler reports it instead. An empty
   * section writes nothing and prints nothing.
   */
  function CellOutput(scan: nat, ps: seq<Vec3>, gs: seq<int>, failing: set<(nat, Cell)>, c: Cell): seq<Output>
    requires |ps| > 0 && |gs| >= 3
  {
    var section := FilterBox(ps, ScanBox(ps, gs, c));
    if |section| == 0 then []
    else if (scan, c) in failing then [CellFailed(scan, c)]
    else [PointFile(SectionName(scan, c, ".e57"), section, None)]
  }

  function PerCell(scan: nat, ps: seq<Vec3>, gs: seq<int>, failing: set<(nat, Cell)>): Cell -> seq<Output>
    requires |ps| > 0 && |gs| >= 3
  {
    c => CellOutput(scan, ps, gs, failing, c)
  }

  /** `section_obj`: the model vertices inside the closed box, in order (a numpy mask). */
  function SectionObjVertices(vs: seq<Vec3>, b: Box): seq<Vec3> {
    FilterBox(vs, b)
  }

  /** `section_obj` keeps a vertex iff it is a model vertex inside the closed box. */
  lemma SectionObjVerticesMember(vs: seq<Vec3>, b: Box, p: Vec3)
    ensures p in SectionObjVertices(vs, b) <==> p in vs && InBox(p, b)
  {
    FilterBoxMember(vs, b, p);
  }

  // ---- The driver ----

  /**
   * One scan: `np.min` of an empty scan raises; the counts come from the
   * model; the loops raise when they index a missing count; otherwise every
   * cell runs inside its own handler.
   */
  function ScanStep(scan: nat, ps: seq<Vec3>, objVs: seq<Vec3>, gridOption: string, failing: set<(nat, Cell)>): Run {
    if |ps| == 0 then Raise(EmptyArray)
    else
      match GridSizes(objVs, gridOption)
      case Err(e) => Raise(e)
      case Ok(gs) =>
        if LoopsRaise(gs) then Raise(IndexOutOfRange)
        else if |gs| < 3 then Done([])
        else Done(Gather(UniformCells(gs), PerCell(scan, ps, gs, failing)))
  }

  function Steps(scans: seq<seq<Vec3>>, objVs: seq<Vec3>, gridOption: string, failing: set<(nat, Cell)>): nat -> Run {
    (s: nat) => if s < |scans| then ScanStep(s, scans[s], objVs, gridOption, failing) else Done([])
  }

  /**
   * The OBJ pass after the scans, with the counts of the last scan: with no
   * scan those were never assigned; the loops index the counts as the E57
   * loops did; and the first cell reads `section_size_x`, which the driver
   * never defines.
   */
  function ObjPass(scanCount: nat, counts: Result<seq<int>>): Option<Error> {
    if scanCount == 0 then Some(UndefinedName)
    else
      match counts
      case Err(e) => Some(e)
      case Ok(gs) =>
        if LoopsRaise(gs) then Some(IndexOutOfRange)
        else if |LoopCells(gs)| > 0 then Some(UndefinedName)
        else None
  }

  /** `section_e57_and_obj` as written: the E57 pass, then the OBJ pass, inside the handler. */
  function SectionE57AndObjSpec(gridOption: string, scans: seq<seq<Vec3>>, objVs: seq<Vec3>, failing: set<(nat, Cell)>): Run {
    var e57 := RunSteps(Steps(scans, objVs, gridOption, failing), |scans|);
    if e57.failure.Some? then e57
    else Run(e57.outputs, ObjPass(|scans|, GridSizes(objVs, gridOption)))
  }

  /**
   * An error inside one cell does not stop the loop: in a scan that runs,
   * every cell whose section has points is reported, either exported with
   * exactly its points or as failed.
   */
  lemma EveryNonEmptyCellReported(scan: nat, ps: seq<Vec3>, objVs: seq<Vec3>, gridOption: string,
                                  failing: set<(nat, Cell)>, c: Cell)
    requires |ps| > 0 && GridSizes(objVs, gridOption).Ok?
    requires var gs := GridSizes(objVs, gridOption).value;
      |gs| >= 3 && c in UniformCells(gs) && |FilterBox(ps, ScanBox(ps, gs, c))| > 0
    ensures var gs := GridSizes(objVs, gridOption).value;
      var outs := ScanStep(scan, ps, objVs, gridOption, failing).outputs;
      (scan, c) in failing ==> CellFailed(scan, c) in outs
    ensures var gs := GridSizes(objVs, gridOption).value;
      var outs := ScanStep(scan, ps, objVs, gridOption, failing).outputs;
      (scan, c) !in failing ==> PointFile(SectionName(scan, c, ".e57"), FilterBox(ps, ScanBox(ps, gs, c)), None) in outs
  {
    var gs := GridSizes(objVs, gridOption).value;
    var f := PerCell(scan, ps, gs, failing);
    var o := f(c)[0];
    GatherMember(UniformCells(gs), f, o);
  }

  /**
   * Write failures never end a scan: whether a scan raises depends only on
   * its points, the model and the grid option.
   */
  lemma FailuresStayInCell(scan: nat, ps: seq<Vec3>, objVs: seq<Vec3>, gridOption: string,
                           f1: set<(nat, Cell)>, f2: set<(nat, Cell)>)
    ensures ScanStep(scan, ps, objVs, gridOption, f1).failure == ScanStep(scan, ps, objVs, gridOption, f2).failure
  {
  }

  /**
   * As written the OBJ pass never writes a file, and the run never ends
   * normally once the grid has a cell: with no scan, or after the E57 pass,
   * the handler reports an undefined name.
   */
  lemma ObjPassNeverWrites(gridOption: string, scans: seq<seq<Vec3>>, objVs: seq<Vec3>, failing: set<(nat, Cell)>)
    ensures forall o | o in SectionE57AndObjSpec(gridOption, scans, objVs, failing).outputs :: !o.ObjFile?
    ensures |scans| == 0 ==> SectionE57AndObjSpec(gridOption, scans, objVs, failing).failure == Some(UndefinedName)
    ensures GridSizes(objVs, gridOption).Ok? && |LoopCells(GridSizes(objVs, gridOption).value)| > 0 ==>
      SectionE57AndObjSpec(gridOption, scans, objVs, failing).failure.Some?
  {
    var step := Steps(scans, objVs, gridOption, failing);
    var run := SectionE57AndObjSpec(gridOption, scans, objVs, failing);
    forall o | o in run.outputs ensures !o.ObjFile? {
      RunStepsOutputs(step, |scans|, o);
      var s :| 0 <= s < |scans| && o in step(s).outputs;
      ScanStepWritesNoObj(s, scans[s], objVs, gridOption, failing, o);
    }
  }

  /** One scan of the E57 pass writes section point files and failure reports, never an OBJ file. */
  lemma ScanStepWritesNoObj(scan: nat, ps: seq<Vec3>, objVs: seq<Vec3>, gridOption: string,
                            failing: set<(nat, Cell)>, o: Output)
    requires o in ScanStep(scan, ps, objVs, gridOption, failing).outputs
    ensures o.PointFile? || o.CellFailed?
  {
    var gs := GridSizes(objVs, gridOption).value;
    GatherMember(UniformCells(gs), PerCell(scan, ps, gs, failing), o);
  }

  // ---- The evidently intended OBJ pass ----

  /**
   * The OBJ pass with the section sizes of the last scan's grid: every cell
   * writes `section_{scan}_{x}_{y}_{z}.obj` with the model vertices inside
   * that cell's closed box.
   */
  function CorrectedObjCell(scan: nat, ps: seq<Vec3>, gs: seq<int>, objVs: seq<Vec3>, c: Cell): seq<Output>
    requires |ps| > 0 && |gs| >= 3
  {
    [ObjFile(SectionName(scan, c, ".obj"), SectionObjVertices(objVs, ScanBox(ps, gs, c)), [], [])]
  }

  function CorrectedObjCellAt(scan: nat, ps: seq<Vec3>, gs: seq<int>, objVs: seq<Vec3>): Cell -> seq<Output>
    requires |ps| > 0 && |gs| >= 3
  {
    c => CorrectedObjCell(scan, ps, gs, objVs, c)
  }

  function CorrectedObjPass(scan: nat, ps: seq<Vec3>, gs: seq<int>, objVs: seq<Vec3>): seq<Output>
    requires |ps| > 0 && |gs| >= 3
  {
    Gather(UniformCells(gs), CorrectedObjCellAt(scan, ps, gs, objVs))
  }

  /**
   * The intended OBJ pass writes one file per cell, and with positive counts
   * every model vertex inside the last scan's bounding box is written to
   * some cell's file.
   */
  lemma CorrectedObjPassCovers(scan: nat, ps: seq<Vec3>, gs: seq<int>, objVs: seq<Vec3>, v: Vec3)
    requires |ps| > 0 && |gs| >= 3 && gs[0] > 0 && gs[1] > 0 && gs[2] > 0
    requires v in objVs && InBox(v, BoundingBox(ps))
    ensures |CorrectedObjPass(scan, ps, gs, objVs)| == |UniformCells(gs)|
    ensures exists o :: o in CorrectedObjPass(scan, ps, gs, objVs) && o.ObjFile? && v in o.vertices
  {
    var f := CorrectedObjCellAt(scan, ps, gs, objVs);
    GatherOnePerCell(UniformCells(gs), f);
    var bb := BoundingBox(ps);
    UniformCovers3(bb, gs, v);
    var c :| c in UniformCells(gs) && InBox(v, UniformCellBox(bb.lo, Sizes(bb, gs), c));
    SectionObjVerticesMember(objVs, ScanBox(ps, gs, c), v);
    var o := f(c)[0];
    GatherMember(UniformCells(gs), f, o);
  }

  // ---- The driver, with its loops ----

  /** `section_e57` for one cell: the bounds, the append-loop filter, then export or report. */
  method SectionCell(scan: nat, ps: seq<Vec3>, gs: seq<int>, failing: set<(nat, Cell)>, lo: Vec3, size: Vec3, c: Cell)
    returns (out: seq<Output>)
    requires |ps| > 0 && |gs| >= 3
    requires lo == BoundingBox(ps).lo && size == Sizes(BoundingBox(ps), gs)
    ensures out == CellOutput(scan, ps, gs, failing, c)
  {
    var section := FilterSection(ps, UniformCellBox(lo, size, c));
    if |section| == 0 {
      out := [];
    } else if (scan, c) in failing {
      out := [CellFailed(scan, c)];
    } else {
      out := [PointFile(SectionName(scan, c, ".e57"), section, None)];
    }
  }

  /** The cell loops of one scan. */
  method SectionScan(scan: nat, ps: seq<Vec3>, gs: seq<int>, failing: set<(nat, Cell)>) returns (out: seq<Output>)
    requires |ps| > 0 && |gs| >= 3
    ensures out == Gather(UniformCells(gs), PerCell(scan, ps, gs, failing))
  {
    var bb := BoundingBox(ps);
    var size := Sizes(bb, gs);
    var nx, ny, nz := RangeLen(gs[0]), RangeLen(gs[1]), RangeLen(gs[2]);
    ghost var f := PerCell(scan, ps, gs, failing);
    out := [];
    for x := 0 to nx
      invariant out == Gather(Visited(x, 0, 0, ny, nz), f)
    {
      for y := 0 to ny
        invariant out == Gather(Visited(x, y, 0, ny, nz), f)
      {
        for z := 0 to nz
          invariant out == Gather(Visited(x, y, z, ny, nz), f)
        {
          var cellOut := SectionCell(scan, ps, gs, failing, bb.lo, size, Cell(x, y, z));
          VisitNext(x, y, z, ny, nz, f);
          out := out + cellOut;
        }
        RowDone(x, y, ny, nz);
      }
      PlaneDone(x, ny, nz);
    }
    assert Visited(nx, 0, 0, ny, nz) == AllCells(nx, ny, nz);
  }

  /** One pass of the scan loop, appended to what the run has written. */
  method SectionOneScan(scans: seq<seq<Vec3>>, scan: nat, objVs: seq<Vec3>, gridOption: string,
                        failing: set<(nat, Cell)>, run: Run) returns (next: Run)
    requires scan < |scans|
    requires run == RunSteps(Steps(scans, objVs, gridOption, failing), scan) && run.failure.None?
    ensures next == RunSteps(Steps(scans, objVs, gridOption, failing), scan + 1)
  {
    RunStepsNext(Steps(scans, objVs, gridOption, failing), scan);
    var ps := scans[scan];
    if |ps| == 0 {
      return Run(run.outputs, Some(EmptyArray));
    }
    var counts := GridSizes(objVs, gridOption);
    if counts.Err? {
      return Run(run.outputs, Some(counts.error));
    }
    var gs := counts.value;
    if LoopsRaise(gs) {
      return Run(run.outputs, Some(IndexOutOfRange));
    }
    if |gs| < 3 {
      return run;
    }
    var out := SectionScan(scan, ps, gs, failing);
    return Run(run.outputs + out, None);
  }

  /** The loop over the scans. */
  method SectionScans(scans: seq<seq<Vec3>>, objVs: seq<Vec3>, gridOption: string, failing: set<(nat, Cell)>)
    returns (run: Run)
    ensures run == RunSteps(Steps(scans, objVs, gridOption, failing), |scans|)
  {
    run := Run([], None);
    var s := 0;
    while s < |scans|
      invariant 0 <= s <= |scans|
      invariant run == RunSteps(Steps(scans, objVs, gridOption, failing), s)
      invariant run.failure.None?
    {
      run := SectionOneScan(scans, s, objVs, gridOption, failing, run);
      if run.failure.Some? {
        RunStepsStopped(Steps(scans, objVs, gridOption, failing), s + 1, |scans|);
        return;
      }
      s := s + 1;
    }
  }

  /** `section_e57_and_obj`: the E57 pass, then the OBJ loops. */
  method SectionE57AndObj(gridOption: string, scans: seq<seq<Vec3>>, objVs: seq<Vec3>, failing: set<(nat, Cell)>)
    returns (run: Run)
    ensures run == SectionE57AndObjSpec(gridOption, scans, objVs, failing)
  {
    run := SectionScans(scans, objVs, gridOption, failing);
    if run.failure.Some? {
      return;
    }
    if |scans| == 0 {
      return Run(run.outputs, Some(UndefinedName));
    }
    var counts := GridSizes(objVs, gridOption);
    if counts.Err? {
      return Run(run.outputs, Some(counts.error));
    }
    var gs := counts.value;
    if LoopsRaise(gs) {
      return Run(run.outputs, Some(IndexOutOfRange));
    }
    if |LoopCells(gs)| > 0 {
      return Run(run.outputs, Some(UndefinedName));
    }
  }
}
