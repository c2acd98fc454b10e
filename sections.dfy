/**
 * What the sectioning scripts emit, as values: the section files they would
 * write (E57 point sections, OBJ sections, box meshes), the "skipping"
 * messages for empty cells, and the run of a driver whose catch-all handler
 * reports the first exception and ends the run. Also the file-name rule
 * `<prefix><a>_<b>_..._<z><ext>` and the fact that it never gives two cells
 * the same file.
 */
module Sections {
  import opened Outcomes
  import opened Geometry
  import opened Cells
  import opened Parsing

  /** One colour triple, as read from the `colorRed/Green/Blue` fields. */
  datatype Rgb = Rgb(red: real, green: real, blue: real)

  datatype Output =
    /** An E57 section file with its points and, when present, their colours. */
    | PointFile(name: string, points: seq<Vec3>, colours: Option<seq<Rgb>>)
    /** An OBJ section file: `v` lines, `vn` lines and `f` lines in that order. */
    | ObjFile(name: string, vertices: seq<Vec3>, normals: seq<Vec3>, faces: seq<seq<nat>>)
    /** A box mesh exported for a cell, given by its centre and extents. */
    | BoxFile(name: string, centre: Vec3, extents: Vec3)
    /** "No points found in section ...; Skipping." */
    | Skipped(scan: nat, cell: Cell)
    /** An error reported by a per-cell handler, after which the loop goes on. */
    | CellFailed(scan: nat, cell: Cell)
    /** "No points found in E57 data for scan ...; Skipping." */
    | ScanSkipped(scan: nat)
    /** "No vertices found in OBJ data. Skipping." */
    | ObjSkipped(scan: nat)

  /** A driver with a catch-all handler: the outputs produced, then the exception that ended it. */
  datatype Run = Run(outputs: seq<Output>, failure: Option<Error>)

  function NatsToStrings(xs: seq<nat>): (r: seq<string>)
    ensures |r| == |xs|
    ensures forall k :: 0 <= k < |xs| ==> r[k] == NatToString(xs[k])
  {
    seq(|xs|, k requires 0 <= k < |xs| => NatToString(xs[k]))
  }

  /** `f"{prefix}{a}_{b}_..._{z}{ext}"`. */
  function IndexName(prefix: string, ids: seq<nat>, ext: string): string
    requires |ids| >= 1
  {
    prefix + Join(NatsToStrings(ids), '_') + ext
  }

  /** `section_{scan_index}_{x}_{y}_{z}<ext>`. */
  function SectionName(scan: nat, c: Cell, ext: string): string {
    IndexName("section_", [scan, c.i, c.j, c.k], ext)
  }

  /** `<prefix>{i}_{j}_{k}<ext>`, for the scripts that do not number scans. */
  function CellName(prefix: string, c: Cell, ext: string): string {
    IndexName(prefix, [c.i, c.j, c.k], ext)
  }

  lemma DigitsFree(n: nat)
    ensures '_' !in NatToString(n)
  {
  }

  /**
   * Names built by the rule with the same prefix and extension are equal
   * only for equal index lists: no two cells (or scans) share a file.
   */
  lemma IndexNameInjective(prefix: string, a: seq<nat>, b: seq<nat>, ext: string)
    requires |a| >= 1 && |b| >= 1
    requires IndexName(prefix, a, ext) == IndexName(prefix, b, ext)
    ensures a == b
  {
    var sa, sb := NatsToStrings(a), NatsToStrings(b);
    var ja, jb := Join(sa, '_'), Join(sb, '_');
    var whole := prefix + ja + ext;
    assert |ja| == |jb|;
    assert ja == whole[|prefix|..|prefix| + |ja|];
    assert jb == (prefix + jb + ext)[|prefix|..|prefix| + |jb|];
    forall k | 0 <= k < |sa| ensures '_' !in sa[k] {
      DigitsFree(a[k]);
    }
    forall k | 0 <= k < |sb| ensures '_' !in sb[k] {
      DigitsFree(b[k]);
    }
    SplitJoin(sa, '_');
    SplitJoin(sb, '_');
    assert sa == sb;
    forall k | 0 <= k < |a| ensures a[k] == b[k] {
      NatToStringInjective(a[k], b[k]);
    }
  }

  /** Distinct (scan, cell) pairs get distinct section files. */
  lemma SectionNameInjective(s1: nat, c1: Cell, s2: nat, c2: Cell, ext: string)
    requires SectionName(s1, c1, ext) == SectionName(s2, c2, ext)
    ensures s1 == s2 && c1 == c2
  {
    IndexNameInjective("section_", [s1, c1.i, c1.j, c1.k], [s2, c2.i, c2.j, c2.k], ext);
  }

  /** Distinct cells get distinct files. */
  lemma CellNameInjective(prefix: string, c1: Cell, c2: Cell, ext: string)
    requires CellName(prefix, c1, ext) == CellName(prefix, c2, ext)
    ensures c1 == c2
  {
    IndexNameInjective(prefix, [c1.i, c1.j, c1.k], [c2.i, c2.j, c2.k], ext);
  }

  /** Scan 0, cell (1, 2, 13) is written to `section_0_1_2_13.e57`. */
  lemma SectionNameExample()
    ensures SectionName(0, Cell(1, 2, 13), ".e57") == "section_0_1_2_13.e57"
  {
    assert NatToString(13) == "13" by {
      assert NatToString(1) == "1";
      assert NatToString(3) == "3";
    }
    var parts := NatsToStrings([0, 1, 2, 13]);
    assert parts == ["0", "1", "2", "13"];
    assert Join(parts, '_') == "0_1_2_13" by {
      assert parts[1..] == ["1", "2", "13"];
      assert parts[1..][1..] == ["2", "13"];
      assert parts[1..][1..][1..] == ["13"];
    }
  }

  /**
   * A loop of `n` steps (scans, or cells) inside an exception handler: each
   * step yields outputs and possibly raises; the first exception ends the
   * loop, keeping everything written before it.
   */
  function RunSteps(step: nat -> Run, n: nat): Run
    decreases n
  {
    if n == 0 then Run([], None)
    else
      var prev := RunSteps(step, n - 1);
      if prev.failure.Some? then prev
      else Run(prev.outputs + step(n - 1).outputs, step(n - 1).failure)
  }

  /** One more step after a loop that has not failed. */
  lemma RunStepsNext(step: nat -> Run, n: nat)
    requires RunSteps(step, n).failure.None?
    ensures RunSteps(step, n + 1) == Run(RunSteps(step, n).outputs + step(n).outputs, step(n).failure)
  {
  }

  /** Once a step has raised, the later steps change nothing. */
  lemma {:induction false} RunStepsStopped(step: nat -> Run, m: nat, n: nat)
    requires m <= n && RunSteps(step, m).failure.Some?
    ensures RunSteps(step, n) == RunSteps(step, m)
    decreases n
  {
    if n > m {
      RunStepsStopped(step, m, n - 1);
    }
  }

  /** A loop that ends normally has every step's outputs, and no step raised. */
  lemma {:induction false} RunStepsComplete(step: nat -> Run, n: nat)
    ensures RunSteps(step, n).failure.None? ==> forall s :: 0 <= s < n ==> step(s).failure.None?
    ensures RunSteps(step, n).failure.None? ==>
      forall s, o :: 0 <= s < n && o in step(s).outputs ==> o in RunSteps(step, n).outputs
    decreases n
  {
    if n > 0 {
      RunStepsComplete(step, n - 1);
    }
  }

  /**
   * A loop fails iff some step raises, and then it reports the exception of
   * the first step that raises.
   */
  lemma {:induction false} RunStepsFailure(step: nat -> Run, n: nat)
    ensures RunSteps(step, n).failure.Some? <==> exists s :: 0 <= s < n && step(s).failure.Some?
    ensures RunSteps(step, n).failure.Some? ==>
      exists s :: 0 <= s < n && step(s).failure == RunSteps(step, n).failure &&
        forall t :: 0 <= t < s ==> step(t).failure.None?
    decreases n
  {
    if n > 0 {
      RunStepsFailure(step, n - 1);
      var prev := RunSteps(step, n - 1);
      if prev.failure.None? && step(n - 1).failure.Some? {
        assert forall t :: 0 <= t < n - 1 ==> step(t).failure.None?;
      }
    }
  }

  /** Two loops whose steps agree give the same run. */
  lemma {:induction false} RunStepsAgree(f: nat -> Run, g: nat -> Run, n: nat)
    requires forall s :: 0 <= s < n ==> f(s) == g(s)
    ensures RunSteps(f, n) == RunSteps(g, n)
    decreases n
  {
    if n > 0 {
      RunStepsAgree(f, g, n - 1);
    }
  }

  /** Every output of a loop was written by one of its steps. */
  lemma {:induction false} RunStepsOutputs(step: nat -> Run, n: nat, o: Output)
    requires o in RunSteps(step, n).outputs
    ensures exists s :: 0 <= s < n && o in step(s).outputs
    decreases n
  {
    var prev := RunSteps(step, n - 1);
    if prev.failure.Some? || o in prev.outputs {
      RunStepsOutputs(step, n - 1, o);
    } else {
      assert o in step(n - 1).outputs;
    }
  }

  /** The steps of a loop over the cells `cs`, one per cell in order. */
  function CellSteps(cs: seq<Cell>, f: Cell -> Run): nat -> Run {
    (k: nat) => if k < |cs| then f(cs[k]) else Done([])
  }

  /** A cell loop inside the handler: stops at the first cell that raises. */
  function CellsRun(cs: seq<Cell>, f: Cell -> Run): Run {
    RunSteps(CellSteps(cs, f), |cs|)
  }

  /** What a cell step writes. */
  function OutputsOf(f: Cell -> Run): Cell -> seq<Output> {
    c => f(c).outputs
  }

  /**
   * A cell loop whose cells never raise ends normally with the outputs of
   * every cell, in visiting order.
   */
  lemma {:induction false} CellsRunNeverFails(cs: seq<Cell>, f: Cell -> Run, n: nat)
    requires n <= |cs|
    requires forall c | c in cs :: f(c).failure.None?
    ensures RunSteps(CellSteps(cs, f), n) == Done(Gather(cs[..n], OutputsOf(f)))
    decreases n
  {
    if n > 0 {
      CellsRunNeverFails(cs, f, n - 1);
      assert cs[n - 1] in cs;
      assert cs[..n][..n - 1] == cs[..n - 1];
    }
  }

  /** A step that raises before writing anything. */
  function Raise(e: Error): Run {
    Run([], Some(e))
  }

  /** A step that ends normally. */
  function Done(outs: seq<Output>): Run {
    Run(outs, None)
  }
}
