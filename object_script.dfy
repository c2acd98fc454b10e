/**
 * object.py: an OBJ mesh is cut into a uniform grid over the bounding box of
 * its vertices. For every cell an OBJ file is written, even an empty one,
 * holding the vertices inside the closed cell box, their normals in
 * lockstep, and the faces whose three vertices are all inside, with each
 * face index raised by one for the 1-based OBJ format. The indices written
 * are those of the full vertex list, not of the vertices in the file; the
 * corrected faces renumber them to positions in the section.
 */
module ObjectScript {
  import opened Outcomes
  import opened Geometry
  import opened Stats
  import opened Division
  import opened Cells
  import opened Masks
  import opened Filters
  import opened Parsing
  import opened Sections
  import opened Grids

  /** `face + 1` for each kept face: the `f` lines as written. */
  function WrittenFaces(fs: seq<Face>): (r: seq<seq<nat>>)
    ensures |r| == |fs|
    ensures forall k :: 0 <= k < |fs| ==> r[k] == [fs[k].a + 1, fs[k].b + 1, fs[k].c + 1]
  {
    seq(|fs|, k requires 0 <= k < |fs| => [fs[k].a + 1, fs[k].b + 1, fs[k].c + 1])
  }

  /**
   * The file of one cell as written: the vertices in the closed cell box,
   * the normals of the same indices, and the faces with all three vertices
   * inside, each index plus one.
   */
  function CellObj(vs: seq<Vec3>, ns: seq<Vec3>, faces: seq<Face>, g: seq<int>, c: Cell): Output
    requires |vs| > 0 && |g| >= 3 && |ns| == |vs| && FacesValid(faces, |vs|)
  {
    var b := ScanBox(vs, g, c);
    ObjFile(CellName("section_", c, ".obj"), FilterBox(vs, b), ApplyMask(ns, InBoxMask(vs, b)),
            WrittenFaces(FacesInBox(vs, faces, b)))
  }

  function PerCell(vs: seq<Vec3>, ns: seq<Vec3>, faces: seq<Face>, g: seq<int>): Cell -> seq<Output>
    requires |vs| > 0 && |g| >= 3 && |ns| == |vs| && FacesValid(faces, |vs|)
  {
    c => [CellObj(vs, ns, faces, g, c)]
  }

  /**
   * `section_obj` inside its catch-all handler. The grid option is parsed
   * first; `calculate_normals` indexes the vertices with every face, so a
   * face naming a missing vertex raises; `np.min` of no vertices raises;
   * a grid option with fewer than three fields raises at `grid_sizes[1]`
   * or `grid_sizes[2]`. Otherwise every cell writes its file.
   */
  function SectionObjSpec(gridOption: string, vs: seq<Vec3>, ns: seq<Vec3>, faces: seq<Face>): Run
    requires |ns| == |vs|
  {
    match ParseGrid(gridOption)
    case Err(e) => Raise(e)
    case Ok(g) =>
      if !FacesValid(faces, |vs|) then Raise(IndexOutOfRange)
      else if |vs| == 0 then Raise(EmptyArray)
      else if |g| < 3 then Raise(IndexOutOfRange)
      else Done(Gather(UniformCells(g), PerCell(vs, ns, faces, g)))
  }

  /**
   * The contents of one cell's file: a vertex is written iff it lies in the
   * closed cell box; the k-th normal is the normal of the k-th written
   * vertex; a face is written iff all three of its vertices are inside, and
   * each of its written indices is the original index plus one.
   */
  lemma CellObjMeaning(vs: seq<Vec3>, ns: seq<Vec3>, faces: seq<Face>, g: seq<int>, c: Cell)
    requires |vs| > 0 && |g| >= 3 && |ns| == |vs| && FacesValid(faces, |vs|)
    ensures var o, b := CellObj(vs, ns, faces, g, c), ScanBox(vs, g, c);
      forall p :: p in o.vertices <==> p in vs && InBox(p, b)
    ensures var o, b := CellObj(vs, ns, faces, g, c), ScanBox(vs, g, c);
      |o.normals| == |o.vertices| &&
      forall k :: 0 <= k < |o.vertices| ==> exists i :: 0 <= i < |vs| && o.vertices[k] == vs[i] && o.normals[k] == ns[i]
    ensures var o, b := CellObj(vs, ns, faces, g, c), ScanBox(vs, g, c);
      forall f :: f in FacesInBox(vs, faces, b) <==>
        f in faces && InBox(vs[f.a], b) && InBox(vs[f.b], b) && InBox(vs[f.c], b)
  {
    var b := ScanBox(vs, g, c);
    forall p ensures p in FilterBox(vs, b) <==> p in vs && InBox(p, b) {
      FilterBoxMember(vs, b, p);
    }
    NormalsFollowVertices(vs, ns, b);
    forall f ensures f in FacesInBox(vs, faces, b) <==>
        f in faces && InBox(vs[f.a], b) && InBox(vs[f.b], b) && InBox(vs[f.c], b)
    {
      FacesInBoxMember(vs, faces, b, f);
    }
  }

  /**
   * A file is written for every cell of the grid, in loop order, including
   * cells that hold no vertex: the run writes exactly one file per cell,
   * the k-th named after the k-th cell.
   */
  lemma EveryCellWritten(gridOption: string, vs: seq<Vec3>, ns: seq<Vec3>, faces: seq<Face>)
    requires |ns| == |vs|
    requires SectionObjSpec(gridOption, vs, ns, faces).failure.None?
    ensures var g, outs := ParseGrid(gridOption).value, SectionObjSpec(gridOption, vs, ns, faces).outputs;
      |outs| == |UniformCells(g)| &&
      forall k :: 0 <= k < |outs| ==> outs[k].ObjFile? && outs[k].name == CellName("section_", UniformCells(g)[k], ".obj")
  {
    var g := ParseGrid(gridOption).value;
    GatherOnePerCell(UniformCells(g), PerCell(vs, ns, faces, g));
  }

  // ---- The face indices ----

  /** The vertices of the example below. */
  function ExampleVertices(): seq<Vec3> {
    [Vec3(0.0, 0.0, 0.0), Vec3(2.0, 0.0, 0.0), Vec3(2.0, 1.0, 0.0), Vec3(2.0, 1.0, 1.0)]
  }

  /** On a 2x1x1 grid over the example vertices, cell (1, 0, 0) is `[1, 2] x [0, 1] x [0, 1]`. */
  lemma ExampleBox()
    ensures ScanBox(ExampleVertices(), [2, 1, 1], Cell(1, 0, 0)) == Box(Vec3(1.0, 0.0, 0.0), Vec3(2.0, 1.0, 1.0))
  {
    var vs := ExampleVertices();
    AlongAttained(vs, 0);
    AlongAttained(vs, 1);
    AlongAttained(vs, 2);
    assert BoundingBox(vs) == Box(Vec3(0.0, 0.0, 0.0), Vec3(2.0, 1.0, 1.0));
  }

  /** Cell (1, 0, 0) holds the last three example vertices. */
  lemma ExampleSelection()
    ensures Selected(InBoxMask(ExampleVertices(), ScanBox(ExampleVertices(), [2, 1, 1], Cell(1, 0, 0)))) == [1, 2, 3]
  {
    ExampleBox();
    var m := InBoxMask(ExampleVertices(), ScanBox(ExampleVertices(), [2, 1, 1], Cell(1, 0, 0)));
    assert m == [false, true, true, true];
    var m1, m2, m3 := [false], [false, true], [false, true, true];
    assert m1[..0] == [];
    assert Selected(m1) == [];
    assert m2[..1] == m1;
    assert Selected(m2) == [1];
    assert m3[..2] == m2;
    assert Selected(m3) == [1, 2];
    assert m[..3] == m3;
  }

  /** The face (1, 2, 3) lies inside cell (1, 0, 0) and is kept there. */
  lemma ExampleKept()
    ensures var vs := ExampleVertices();
      FacesInBox(vs, [Face(1, 2, 3)], ScanBox(vs, [2, 1, 1], Cell(1, 0, 0))) == [Face(1, 2, 3)]
  {
    var vs := ExampleVertices();
    ExampleBox();
    var b := ScanBox(vs, [2, 1, 1], Cell(1, 0, 0));
    assert FaceMask(vs, [Face(1, 2, 3)], b) == [true];
  }

  /**
   * As written, a face kept in a cell can name a vertex the cell's file does
   * not hold. Vertices (0,0,0), (2,0,0), (2,1,0), (2,1,1) with the face
   * (1, 2, 3) on a 2x1x1 grid: cell (1, 0, 0) holds the last three vertices,
   * so its file has three `v` lines, but the face is written as `f 2 3 4`.
   */
  lemma AsWrittenFaceOutsideFile()
    ensures var o := CellObj(ExampleVertices(), ExampleVertices(), [Face(1, 2, 3)], [2, 1, 1], Cell(1, 0, 0));
      |o.vertices| == 3 && o.faces == [[2, 3, 4]] && o.faces[0][2] > |o.vertices|
  {
    var vs := ExampleVertices();
    ExampleSelection();
    ExampleKept();
    ApplyMaskAt(vs, InBoxMask(vs, ScanBox(vs, [2, 1, 1], Cell(1, 0, 0))));
  }

  /** The position of `v` in `xs`, or `|xs|` when it is absent. */
  function Position(xs: seq<nat>, v: nat): (p: nat)
    ensures p <= |xs|
    ensures v in xs ==> p < |xs| && xs[p] == v
    decreases |xs|
  {
    if xs == [] then 0
    else if xs[0] == v then 0
    else 1 + Position(xs[1..], v)
  }

  /**
   * The intended `f` lines of a cell: each vertex index renumbered to its
   * 1-based position among the vertices written to that cell's file.
   */
  function LocalFaces(vs: seq<Vec3>, fs: seq<Face>, b: Box): (r: seq<seq<nat>>)
    ensures |r| == |fs|
  {
    var sel := Selected(InBoxMask(vs, b));
    seq(|fs|, k requires 0 <= k < |fs| =>
      [Position(sel, fs[k].a) + 1, Position(sel, fs[k].b) + 1, Position(sel, fs[k].c) + 1])
  }

  /** The cell's file with the corrected face lines. */
  function CorrectedCellObj(vs: seq<Vec3>, ns: seq<Vec3>, faces: seq<Face>, g: seq<int>, c: Cell): Output
    requires |vs| > 0 && |g| >= 3 && |ns| == |vs| && FacesValid(faces, |vs|)
  {
    var b := ScanBox(vs, g, c);
    var o := CellObj(vs, ns, faces, g, c);
    o.(faces := LocalFaces(vs, FacesInBox(vs, faces, b), b))
  }

  /** The 1-based `f` index `t` names the point `p` among the `v` lines of `file`. */
  predicate NamesVertex(file: seq<Vec3>, t: nat, p: Vec3) {
    1 <= t <= |file| && file[t - 1] == p
  }

  /** A vertex inside the box is named by its renumbered index in the section file. */
  lemma LocalIndex(vs: seq<Vec3>, b: Box, i: nat)
    requires i < |vs| && InBox(vs[i], b)
    ensures NamesVertex(FilterBox(vs, b), Position(Selected(InBoxMask(vs, b)), i) + 1, vs[i])
  {
    var m := InBoxMask(vs, b);
    SelectedComplete(m, i);
    ApplyMaskAt(vs, m);
  }

  /**
   * With the corrected face lines every index of every face names a vertex
   * of the cell's own file, and the same point as the original face's
   * vertex.
   */
  lemma CorrectedFacesReferToSection(vs: seq<Vec3>, ns: seq<Vec3>, faces: seq<Face>, g: seq<int>, c: Cell)
    requires |vs| > 0 && |g| >= 3 && |ns| == |vs| && FacesValid(faces, |vs|)
    ensures var b := ScanBox(vs, g, c);
      var o, kept := CorrectedCellObj(vs, ns, faces, g, c), FacesInBox(vs, faces, b);
      |o.faces| == |kept| &&
      forall k :: 0 <= k < |kept| ==>
        kept[k].a < |vs| && kept[k].b < |vs| && kept[k].c < |vs| && |o.faces[k]| == 3 &&
        NamesVertex(o.vertices, o.faces[k][0], vs[kept[k].a]) &&
        NamesVertex(o.vertices, o.faces[k][1], vs[kept[k].b]) &&
        NamesVertex(o.vertices, o.faces[k][2], vs[kept[k].c])
  {
    var b := ScanBox(vs, g, c);
    var kept := FacesInBox(vs, faces, b);
    var file := FilterBox(vs, b);
    var lines := LocalFaces(vs, kept, b);
    var sel := Selected(InBoxMask(vs, b));
    assert CorrectedCellObj(vs, ns, faces, g, c).vertices == file;
    assert CorrectedCellObj(vs, ns, faces, g, c).faces == lines;
    forall k | 0 <= k < |kept|
      ensures kept[k].a < |vs| && kept[k].b < |vs| && kept[k].c < |vs| && |lines[k]| == 3 &&
        NamesVertex(file, lines[k][0], vs[kept[k].a]) &&
        NamesVertex(file, lines[k][1], vs[kept[k].b]) &&
        NamesVertex(file, lines[k][2], vs[kept[k].c])
    {
      var f := kept[k];
      assert f in kept;
      FacesInBoxMember(vs, faces, b, f);
      assert lines[k] == [Position(sel, f.a) + 1, Position(sel, f.b) + 1, Position(sel, f.c) + 1];
      LocalIndex(vs, b, f.a);
      LocalIndex(vs, b, f.b);
      LocalIndex(vs, b, f.c);
    }
  }

  /** Indices 1, 2 and 3 sit at positions 0, 1 and 2 of the selection `[1, 2, 3]`. */
  lemma ExamplePositions()
    ensures Position([1, 2, 3], 1) == 0 && Position([1, 2, 3], 2) == 1 && Position([1, 2, 3], 3) == 2
  {
    var sel := [1, 2, 3];
    assert sel[1..] == [2, 3];
    assert sel[1..][1..] == [3];
  }

  /** The corrected face lines are the kept faces renumbered within the section. */
  lemma CorrectedFaceLines(vs: seq<Vec3>, ns: seq<Vec3>, faces: seq<Face>, g: seq<int>, c: Cell)
    requires |vs| > 0 && |g| >= 3 && |ns| == |vs| && FacesValid(faces, |vs|)
    ensures var b := ScanBox(vs, g, c);
      CorrectedCellObj(vs, ns, faces, g, c).faces == LocalFaces(vs, FacesInBox(vs, faces, b), b)
  {
  }

  /** The corrected line of a single kept face. */
  lemma LocalFaceLine(vs: seq<Vec3>, f: Face, b: Box)
    ensures LocalFaces(vs, [f], b) ==
      [[Position(Selected(InBoxMask(vs, b)), f.a) + 1, Position(Selected(InBoxMask(vs, b)), f.b) + 1,
        Position(Selected(InBoxMask(vs, b)), f.c) + 1]]
  {
  }

  /** The corrected file of cell (1, 0, 0) in the example writes the face as `f 1 2 3`. */
  lemma CorrectedExample()
    ensures CorrectedCellObj(ExampleVertices(), ExampleVertices(), [Face(1, 2, 3)], [2, 1, 1], Cell(1, 0, 0)).faces == [[1, 2, 3]]
  {
    var vs := ExampleVertices();
    var b := ScanBox(vs, [2, 1, 1], Cell(1, 0, 0));
    assert Selected(InBoxMask(vs, b)) == [1, 2, 3] by { ExampleSelection(); }
    assert FacesInBox(vs, [Face(1, 2, 3)], b) == [Face(1, 2, 3)] by { ExampleKept(); }
    assert Position([1, 2, 3], 1) == 0 && Position([1, 2, 3], 2) == 1 && Position([1, 2, 3], 3) == 2 by {
      ExamplePositions();
    }
    RenumberedFace(vs, vs, Face(1, 2, 3), [2, 1, 1], Cell(1, 0, 0));
  }

  /**
   * A cell whose selection is `[1, 2, 3]` and which keeps the single face
   * `(1, 2, 3)` writes it as `f 1 2 3`.
   */
  lemma RenumberedFace(vs: seq<Vec3>, ns: seq<Vec3>, f: Face, g: seq<int>, c: Cell)
    requires |vs| > 0 && |g| >= 3 && |ns| == |vs| && FacesValid([f], |vs|)
    requires f == Face(1, 2, 3)
    requires Selected(InBoxMask(vs, ScanBox(vs, g, c))) == [1, 2, 3]
    requires FacesInBox(vs, [f], ScanBox(vs, g, c)) == [f]
    requires Position([1, 2, 3], 1) == 0 && Position([1, 2, 3], 2) == 1 && Position([1, 2, 3], 3) == 2
    ensures CorrectedCellObj(vs, ns, [f], g, c).faces == [[1, 2, 3]]
  {
    var b := ScanBox(vs, g, c);
    CorrectedFaceLines(vs, ns, [f], g, c);
    LocalFaceLine(vs, f, b);
  }

  // ---- The driver, with its loops ----

  /** The `f` lines loop: each kept face with every index raised by one. */
  method WriteFaces(fs: seq<Face>) returns (lines: seq<seq<nat>>)
    ensures lines == WrittenFaces(fs)
  {
    lines := [];
    for k := 0 to |fs|
      invariant lines == WrittenFaces(fs[..k])
    {
      assert fs[..k + 1][..k] == fs[..k];
      lines := lines + [[fs[k].a + 1, fs[k].b + 1, fs[k].c + 1]];
    }
    assert fs[..|fs|] == fs;
  }

  /** The body of the cell loop: the cell box, the two filters, then the file. */
  method SectionCell(vs: seq<Vec3>, ns: seq<Vec3>, faces: seq<Face>, g: seq<int>, lo: Vec3, size: Vec3, c: Cell)
    returns (out: seq<Output>)
    requires |vs| > 0 && |g| >= 3 && |ns| == |vs| && FacesValid(faces, |vs|)
    requires lo == BoundingBox(vs).lo && size == Sizes(BoundingBox(vs), g)
    ensures out == PerCell(vs, ns, faces, g)(c)
  {
    var b := UniformCellBox(lo, size, c);
    var sectionVertices, sectionNormals := FilterVerticesWithNormals(vs, ns, b);
    var sectionFaces := FilterFaces(vs, faces, b);
    var lines := WriteFaces(sectionFaces);
    out := [ObjFile(CellName("section_", c, ".obj"), sectionVertices, sectionNormals, lines)];
  }

  /** The grid loop. */
  method SectionGrid(vs: seq<Vec3>, ns: seq<Vec3>, faces: seq<Face>, g: seq<int>) returns (out: seq<Output>)
    requires |vs| > 0 && |g| >= 3 && |ns| == |vs| && FacesValid(faces, |vs|)
    ensures out == Gather(UniformCells(g), PerCell(vs, ns, faces, g))
  {
    var bb := BoundingBox(vs);
    var size := Sizes(bb, g);
    var nx, ny, nz := RangeLen(g[0]), RangeLen(g[1]), RangeLen(g[2]);
    ghost var f := PerCell(vs, ns, faces, g);
    out := [];
    for x := 0 to nx
      invariant out == Gather(Visited(x, 0, 0, ny, nz), f)
    {
      for y := 0 to ny
        invariant out == Gather(Visited(x, y, 0, ny, nz), f)
      {
        for z := 0 to nz
          invariant out == Gather(Visited(x, y, z, ny, nz), f)
        {
          var cellOut := SectionCell(vs, ns, faces, g, bb.lo, size, Cell(x, y, z));
          VisitNext(x, y, z, ny, nz, f);
          out := out + cellOut;
        }
        RowDone(x, y, ny, nz);
      }
      PlaneDone(x, ny, nz);
    }
    assert Visited(nx, 0, 0, ny, nz) == AllCells(nx, ny, nz);
  }

  /** `section_obj`: parse, check the faces against the vertices, then the grid. */
  method SectionObj(gridOption: string, vs: seq<Vec3>, ns: seq<Vec3>, faces: seq<Face>) returns (run: Run)
    requires |ns| == |vs|
    ensures run == SectionObjSpec(gridOption, vs, ns, faces)
  {
    var parsed := ParseGrid(gridOption);
    if parsed.Err? {
      return Raise(parsed.error);
    }
    var g := parsed.value;
    if !FacesValid(faces, |vs|) {
      return Raise(IndexOutOfRange);
    }
    if |vs| == 0 {
      return Raise(EmptyArray);
    }
    if |g| < 3 {
      return Raise(IndexOutOfRange);
    }
    var out := SectionGrid(vs, ns, faces, g);
    return Done(out);
  }
}
