/**
 * backup2.py: for every scan of an E57 file, the scan's bounding box is cut
 * into a uniform grid; the OBJ model is moved so that its vertex mean lands
 * on the scan's point mean; then every cell writes an OBJ file with the moved
 * vertices inside it (even when there are none) and an E57 file with the scan
 * points inside it (only when there are some). Empty scans and empty models
 * are skipped with a message.
 */
module Backup2 {
  import opened Outcomes
  import opened Geometry
  import opened Stats
  import opened Division
  import opened Cells
  import opened Filters
  import opened Parsing
  import opened Sections
  import opened Grids

  /** `vertices + (e57_center - obj_center)`: the model moved onto the scan's mean. */
  function Aligned(ps: seq<Vec3>, vs: seq<Vec3>): seq<Vec3>
    requires |ps| > 0 && |vs| > 0
  {
    Translate(vs, Sub(Mean(ps), Mean(vs)))
  }

  /** After the move, the vertex mean equals the scan's point mean. */
  lemma AlignedMean(ps: seq<Vec3>, vs: seq<Vec3>)
    requires |ps| > 0 && |vs| > 0
    ensures |Aligned(ps, vs)| == |vs|
    ensures Mean(Aligned(ps, vs)) == Mean(ps)
  {
    MeanTranslate(vs, Sub(Mean(ps), Mean(vs)));
  }

  /** The move is rigid: differences between vertices are unchanged. */
  lemma AlignedKeepsShape(ps: seq<Vec3>, vs: seq<Vec3>, i: nat, j: nat)
    requires |ps| > 0 && |vs| > 0 && i < |vs| && j < |vs|
    ensures Sub(Aligned(ps, vs)[i], Aligned(ps, vs)[j]) == Sub(vs[i], vs[j])
  {
  }

  /** `vertices += translation`, in place. */
  method TranslateInPlace(a: array<Vec3>, d: Vec3)
    modifies a
    ensures a[..] == Translate(old(a[..]), d)
  {
    for i := 0 to a.Length
      invariant forall k :: 0 <= k < i ==> a[k] == Add(old(a[k]), d)
      invariant forall k :: i <= k < a.Length ==> a[k] == old(a[k])
    {
      a[i] := Add(a[i], d);
    }
  }

  /** What one cell writes: always the OBJ file, then the E57 file or a skip message. */
  function CellOutput(scan: nat, ps: seq<Vec3>, moved: seq<Vec3>, g: seq<int>, c: Cell): seq<Output>
    requires |ps| > 0 && |g| >= 3
  {
    var box := ScanBox(ps, g, c);
    var points := FilterBox(ps, box);
    [ObjFile(SectionName(scan, c, ".obj"), FilterBox(moved, box), [], [])] +
    (if |points| > 0 then [PointFile(SectionName(scan, c, ".e57"), points, None)] else [Skipped(scan, c)])
  }

  function PerCell(scan: nat, ps: seq<Vec3>, moved: seq<Vec3>, g: seq<int>): Cell -> seq<Output>
    requires |ps| > 0 && |g| >= 3
  {
    c => CellOutput(scan, ps, moved, g, c)
  }

  /**
   * One scan: an empty scan is skipped; the grid counts are read (an
   * `IndexError` with fewer than three); an empty model is skipped; then
   * the grid loop with the moved model.
   */
  function ScanStep(scan: nat, ps: seq<Vec3>, vs: seq<Vec3>, g: seq<int>): Run {
    if |ps| == 0 then Done([ScanSkipped(scan)])
    else if |g| < 3 then Raise(IndexOutOfRange)
    else if |vs| == 0 then Done([ObjSkipped(scan)])
    else Done(Gather(UniformCells(g), PerCell(scan, ps, Aligned(ps, vs), g)))
  }

  function Steps(scans: seq<seq<Vec3>>, vs: seq<Vec3>, g: seq<int>): nat -> Run {
    (s: nat) => if s < |scans| then ScanStep(s, scans[s], vs, g) else Done([])
  }

  /** `section_e57_and_obj`: parse the grid option, then every scan with the same model file. */
  function SectionE57AndObjSpec(gridOption: string, scans: seq<seq<Vec3>>, vs: seq<Vec3>): Run {
    match ParseGrid(gridOption)
    case Err(e) => Run([], Some(e))
    case Ok(g) => RunSteps(Steps(scans, vs, g), |scans|)
  }

  /**
   * Every cell writes its OBJ file, with exactly the moved vertices in the
   * closed cell box; the E57 file follows only when the same box holds scan
   * points, and holds exactly those.
   */
  lemma CellOutputMeaning(scan: nat, ps: seq<Vec3>, moved: seq<Vec3>, g: seq<int>, c: Cell)
    requires |ps| > 0 && |g| >= 3
    ensures |CellOutput(scan, ps, moved, g, c)| == 2
    ensures CellOutput(scan, ps, moved, g, c)[0].ObjFile?
    ensures forall v :: v in CellOutput(scan, ps, moved, g, c)[0].vertices <==> v in moved && InBox(v, ScanBox(ps, g, c))
    ensures CellOutput(scan, ps, moved, g, c)[1].PointFile? <==> exists i :: 0 <= i < |ps| && InBox(ps[i], ScanBox(ps, g, c))
    ensures CellOutput(scan, ps, moved, g, c)[1].PointFile? ==>
      forall q :: q in CellOutput(scan, ps, moved, g, c)[1].points <==> q in ps && InBox(q, ScanBox(ps, g, c))
  {
    var b := ScanBox(ps, g, c);
    var section := FilterBox(ps, b);
    forall v ensures v in FilterBox(moved, b) <==> v in moved && InBox(v, b) {
      FilterBoxMember(moved, b, v);
    }
    forall q ensures q in section <==> q in ps && InBox(q, b) {
      FilterBoxMember(ps, b, q);
    }
    if |section| > 0 {
      assert section[0] in section;
    }
    if exists i :: 0 <= i < |ps| && InBox(ps[i], b) {
      var i :| 0 <= i < |ps| && InBox(ps[i], b);
      assert ps[i] in section;
    }
  }

  /**
   * With three grid counts the run never fails: empty scans and empty models
   * are skipped rather than raised.
   */
  lemma NeverFails(gridOption: string, scans: seq<seq<Vec3>>, vs: seq<Vec3>)
    requires ParseGrid(gridOption).Ok? && |ParseGrid(gridOption).value| >= 3
    ensures SectionE57AndObjSpec(gridOption, scans, vs).failure.None?
  {
    var g := ParseGrid(gridOption).value;
    var step := Steps(scans, vs, g);
    RunStepsFailure(step, |scans|);
    forall s | 0 <= s < |scans| ensures step(s).failure.None? {
      assert step(s) == ScanStep(s, scans[s], vs, g);
    }
  }

  /**
   * With positive grid counts and a non-empty model, every point of a
   * non-empty scan appears in at least one E57 section of that scan.
   */
  lemma EveryPointExported(scan: nat, ps: seq<Vec3>, vs: seq<Vec3>, g: seq<int>, p: Vec3)
    requires |ps| > 0 && |vs| > 0 && |g| >= 3 && g[0] > 0 && g[1] > 0 && g[2] > 0
    requires p in ps
    ensures ScanStep(scan, ps, vs, g).failure.None?
    ensures exists o :: o in ScanStep(scan, ps, vs, g).outputs && o.PointFile? && p in o.points
  {
    var f := PerCell(scan, ps, Aligned(ps, vs), g);
    ScanCovered(ps, g, p);
    var c :| c in UniformCells(g) && p in FilterBox(ps, ScanBox(ps, g, c));
    var o := CellOutput(scan, ps, Aligned(ps, vs), g, c)[1];
    assert o in f(c);
    GatherMember(UniformCells(g), f, o);
  }

  /** The body of the cell loop: boundaries, the two filters, the two files. */
  method SectionCell(scan: nat, ps: seq<Vec3>, moved: seq<Vec3>, g: seq<int>, lo: Vec3, size: Vec3, c: Cell)
    returns (out: seq<Output>)
    requires |ps| > 0 && |g| >= 3
    requires lo == BoundingBox(ps).lo && size == Sizes(BoundingBox(ps), g)
    ensures out == CellOutput(scan, ps, moved, g, c)
  {
    var box := UniformCellBox(lo, size, c);
    var points := FilterSection(ps, box);
    var objPoints := FilterBox(moved, box);
    out := [ObjFile(SectionName(scan, c, ".obj"), objPoints, [], [])];
    if |points| > 0 {
      out := out + [PointFile(SectionName(scan, c, ".e57"), points, None)];
    } else {
      out := out + [Skipped(scan, c)];
    }
  }

  /** The grid loop of one scan with the moved model. */
  method SectionGrid(scan: nat, ps: seq<Vec3>, moved: seq<Vec3>, g: seq<int>) returns (out: seq<Output>)
    requires |ps| > 0 && |g| >= 3
    ensures out == Gather(UniformCells(g), PerCell(scan, ps, moved, g))
  {
    var bb := BoundingBox(ps);
    var size := Sizes(bb, g);
    var nx, ny, nz := RangeLen(g[0]), RangeLen(g[1]), RangeLen(g[2]);
    ghost var f := PerCell(scan, ps, moved, g);
    out := [];
    for x := 0 to nx
      invariant out == Gather(Visited(x, 0, 0, ny, nz), f)
    {
      for y := 0 to ny
        invariant out == Gather(Visited(x, y, 0, ny, nz), f)
      {
        for z := 0 to nz
          invariant out == Gather(Visited(x, y, z, ny, nz), f)
        {
          var cellOut := SectionCell(scan, ps, moved, g, bb.lo, size, Cell(x, y, z));
          VisitNext(x, y, z, ny, nz, f);
          out := out + cellOut;
        }
        RowDone(x, y, ny, nz);
      }
      PlaneDone(x, ny, nz);
    }
    assert Visited(nx, 0, 0, ny, nz) == AllCells(nx, ny, nz);
  }

  /** One scan, with the model loaded afresh and moved in place. */
  method SectionOneScan(scans: seq<seq<Vec3>>, scan: nat, vs: seq<Vec3>, g: seq<int>)
    returns (r: Run)
    requires scan < |scans|
    ensures r == Steps(scans, vs, g)(scan)
  {
    var ps := scans[scan];
    if |ps| == 0 {
      return Done([ScanSkipped(scan)]);
    }
    if |g| < 3 {
      return Raise(IndexOutOfRange);
    }
    if |vs| == 0 {
      return Done([ObjSkipped(scan)]);
    }
    var vertices := new Vec3[|vs|](i requires 0 <= i < |vs| => vs[i]);
    assert vertices[..] == vs;
    TranslateInPlace(vertices, Sub(Mean(ps), Mean(vs)));
    var out := SectionGrid(scan, ps, vertices[..], g);
    return Done(out);
  }

  /** The loop over the scans of the file. */
  method SectionScans(scans: seq<seq<Vec3>>, vs: seq<Vec3>, g: seq<int>) returns (run: Run)
    ensures run == RunSteps(Steps(scans, vs, g), |scans|)
  {
    ghost var step := Steps(scans, vs, g);
    run := Run([], None);
    var s := 0;
    while s < |scans|
      invariant 0 <= s <= |scans|
      invariant run == RunSteps(step, s)
      invariant run.failure.None?
    {
      var r := SectionOneScan(scans, s, vs, g);
      RunStepsNext(step, s);
      run := Run(run.outputs + r.outputs, r.failure);
      if r.failure.Some? {
        RunStepsStopped(step, s + 1, |scans|);
        return;
      }
      s := s + 1;
    }
  }

  /** The driver, inside the catch-all handler. */
  method SectionE57AndObj(gridOption: string, scans: seq<seq<Vec3>>, vs: seq<Vec3>) returns (run: Run)
    ensures run == SectionE57AndObjSpec(gridOption, scans, vs)
  {
    var parsed := ParseGrid(gridOption);
    if parsed.Err? {
      return Run([], Some(parsed.error));
    }
    run := SectionScans(scans, vs, parsed.value);
  }
}
