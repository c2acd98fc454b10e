/**
 * Cell enumeration: the nested `for i / for j / for k` loops every script
 * runs, the corners each cell takes from the boundary lists, and the
 * collection of per-cell outputs in visiting order.
 */
module Cells {
  import opened Geometry
  import opened Division

  /** A grid cell by its index triple. */
  datatype Cell = Cell(i: nat, j: nat, k: nat)

  /** `len(range(n))`: a negative count gives an empty range. */
  function RangeLen(n: int): nat {
    if n < 0 then 0 else n
  }

  /** The cells `(i, j, 0) .. (i, j, nk - 1)`: one run of the innermost loop. */
  function Row(i: nat, j: nat, nk: nat): seq<Cell>
    decreases nk
  {
    if nk == 0 then [] else Row(i, j, nk - 1) + [Cell(i, j, nk - 1)]
  }

  /** The cells with first index `i` and second index below `nj`, in loop order. */
  function Plane(i: nat, nj: nat, nk: nat): seq<Cell>
    decreases nj
  {
    if nj == 0 then [] else Plane(i, nj - 1, nk) + Row(i, nj - 1, nk)
  }

  /** All cells of an `ni` x `nj` x `nk` grid in loop order: x outermost, z innermost. */
  function AllCells(ni: nat, nj: nat, nk: nat): seq<Cell>
    decreases ni
  {
    if ni == 0 then [] else AllCells(ni - 1, nj, nk) + Plane(ni - 1, nj, nk)
  }

  lemma {:induction false} RowMember(i: nat, j: nat, nk: nat, c: Cell)
    ensures c in Row(i, j, nk) <==> c.i == i && c.j == j && c.k < nk
    decreases nk
  {
    if nk > 0 {
      RowMember(i, j, nk - 1, c);
    }
  }

  lemma {:induction false} PlaneMember(i: nat, nj: nat, nk: nat, c: Cell)
    ensures c in Plane(i, nj, nk) <==> c.i == i && c.j < nj && c.k < nk
    decreases nj
  {
    if nj > 0 {
      var p, r := Plane(i, nj - 1, nk), Row(i, nj - 1, nk);
      assert c in p <==> c.i == i && c.j < nj - 1 && c.k < nk by { PlaneMember(i, nj - 1, nk, c); }
      assert c in r <==> c.i == i && c.j == nj - 1 && c.k < nk by { RowMember(i, nj - 1, nk, c); }
      assert c in Plane(i, nj, nk) <==> c in p || c in r;
    }
  }

  /** The enumeration visits exactly the cells with every index in range. */
  lemma {:induction false} CellsMember(ni: nat, nj: nat, nk: nat, c: Cell)
    ensures c in AllCells(ni, nj, nk) <==> c.i < ni && c.j < nj && c.k < nk
    decreases ni
  {
    if ni > 0 {
      var m: nat := ni - 1;
      var a, p := AllCells(m, nj, nk), Plane(m, nj, nk);
      assert AllCells(ni, nj, nk) == a + p;
      var inA, inP := c in a, c in p;
      assert inA <==> c.i < m && c.j < nj && c.k < nk by { CellsMember(m, nj, nk, c); }
      assert inP <==> c.i == m && c.j < nj && c.k < nk by { PlaneMember(m, nj, nk, c); }
      assert c in a + p <==> inA || inP;
    }
  }

  /** The enumeration visits `ni * nj * nk` cells. */
  lemma {:induction false} CellsCount(ni: nat, nj: nat, nk: nat)
    ensures |AllCells(ni, nj, nk)| == ni * (nj * nk)
    decreases ni
  {
    if ni > 0 {
      CellsCount(ni - 1, nj, nk);
      PlaneCount(ni - 1, nj, nk);
      OneMoreLayer(ni, nj * nk);
    }
  }

  /** `n - 1` layers of `size` cells plus one more layer are `n` layers. */
  lemma OneMoreLayer(n: int, size: int)
    ensures (n - 1) * size + size == n * size
  {
  }

  lemma {:induction false} PlaneCount(i: nat, nj: nat, nk: nat)
    ensures |Plane(i, nj, nk)| == nj * nk
    decreases nj
  {
    if nj > 0 {
      PlaneCount(i, nj - 1, nk);
      RowCount(i, nj - 1, nk);
      OneMoreLayer(nj, nk);
    }
  }

  lemma {:induction false} RowCount(i: nat, j: nat, nk: nat)
    ensures |Row(i, j, nk)| == nk
    decreases nk
  {
    if nk > 0 {
      RowCount(i, j, nk - 1);
    }
  }

  /** Lexicographic order on index triples: x first, then y, then z. */
  predicate Before(a: Cell, b: Cell) {
    a.i < b.i || (a.i == b.i && (a.j < b.j || (a.j == b.j && a.k < b.k)))
  }

  /** Every cell comes strictly before every later one. */
  predicate Ordered(cs: seq<Cell>) {
    forall p, q :: 0 <= p < q < |cs| ==> Before(cs[p], cs[q])
  }

  lemma OrderedAppend(a: seq<Cell>, b: seq<Cell>)
    requires Ordered(a) && Ordered(b)
    requires forall x, y :: x in a && y in b ==> Before(x, y)
    ensures Ordered(a + b)
  {
    var ab := a + b;
    forall p, q | 0 <= p < q < |ab| ensures Before(ab[p], ab[q]) {
      if q < |a| {
        assert ab[p] == a[p] && ab[q] == a[q];
      } else if p >= |a| {
        assert ab[p] == b[p - |a|] && ab[q] == b[q - |a|];
      } else {
        assert ab[p] in a && ab[q] in b;
      }
    }
  }

  lemma {:induction false} RowOrdered(i: nat, j: nat, nk: nat)
    ensures Ordered(Row(i, j, nk))
    decreases nk
  {
    if nk > 0 {
      RowOrdered(i, j, nk - 1);
      var r := Row(i, j, nk - 1);
      forall x, y | x in r && y in [Cell(i, j, nk - 1)] ensures Before(x, y) {
        RowMember(i, j, nk - 1, x);
      }
      OrderedAppend(r, [Cell(i, j, nk - 1)]);
    }
  }

  lemma {:induction false} PlaneOrdered(i: nat, nj: nat, nk: nat)
    ensures Ordered(Plane(i, nj, nk))
    decreases nj
  {
    if nj > 0 {
      PlaneOrdered(i, nj - 1, nk);
      RowOrdered(i, nj - 1, nk);
      forall x, y | x in Plane(i, nj - 1, nk) && y in Row(i, nj - 1, nk) ensures Before(x, y) {
        assert x.i == i && x.j < nj - 1 by { PlaneMember(i, nj - 1, nk, x); }
        assert y.i == i && y.j == nj - 1 by { RowMember(i, nj - 1, nk, y); }
      }
      OrderedAppend(Plane(i, nj - 1, nk), Row(i, nj - 1, nk));
    }
  }

  /**
   * The enumeration order is x-outer, z-inner: each cell is visited once,
   * strictly after every cell that precedes it lexicographically.
   */
  lemma {:induction false} CellsOrdered(ni: nat, nj: nat, nk: nat)
    ensures Ordered(AllCells(ni, nj, nk))
    decreases ni
  {
    if ni > 0 {
      CellsOrdered(ni - 1, nj, nk);
      NextPlaneOrdered(ni - 1, nj, nk);
    }
  }

  /** Appending plane `m` keeps the enumeration ordered. */
  lemma NextPlaneOrdered(m: nat, nj: nat, nk: nat)
    requires Ordered(AllCells(m, nj, nk))
    ensures Ordered(AllCells(m + 1, nj, nk))
  {
    var a, p := AllCells(m, nj, nk), Plane(m, nj, nk);
    PlaneOrdered(m, nj, nk);
    assert forall x, y :: x in a && y in p ==> Before(x, y) by {
      forall x, y | x in a && y in p ensures Before(x, y) {
        assert x.i < m by { CellsMember(m, nj, nk, x); }
        assert y.i == m by { PlaneMember(m, nj, nk, y); }
      }
    }
    OrderedAppend(a, p);
  }

  /** The cells the loops have visited before reaching `(i, j, k)`. */
  function Visited(i: nat, j: nat, k: nat, nj: nat, nk: nat): seq<Cell> {
    AllCells(i, nj, nk) + Plane(i, j, nk) + Row(i, j, k)
  }

  /** The per-cell outputs of `cs`, concatenated in visiting order. */
  function Gather<T>(cs: seq<Cell>, f: Cell -> seq<T>): seq<T>
    decreases |cs|
  {
    if cs == [] then [] else Gather(cs[..|cs| - 1], f) + f(cs[|cs| - 1])
  }

  lemma GatherAppend<T>(cs: seq<Cell>, c: Cell, f: Cell -> seq<T>)
    ensures Gather(cs + [c], f) == Gather(cs, f) + f(c)
  {
    assert (cs + [c])[..|cs|] == cs;
  }

  /** Gathering with two per-cell functions that agree on the visited cells gives the same outputs. */
  lemma {:induction false} GatherAgree<T>(cs: seq<Cell>, f: Cell -> seq<T>, g: Cell -> seq<T>)
    requires forall c | c in cs :: f(c) == g(c)
    ensures Gather(cs, f) == Gather(cs, g)
    decreases |cs|
  {
    if cs != [] {
      var n := |cs| - 1;
      assert forall c | c in cs[..n] :: c in cs;
      GatherAgree(cs[..n], f, g);
      assert cs[n] in cs;
    }
  }

  /** When every cell yields exactly one output, the k-th output is that of the k-th cell. */
  lemma {:induction false} GatherOnePerCell<T>(cs: seq<Cell>, f: Cell -> seq<T>)
    requires forall c | c in cs :: |f(c)| == 1
    ensures |Gather(cs, f)| == |cs|
    ensures forall k :: 0 <= k < |cs| ==> Gather(cs, f)[k] == f(cs[k])[0]
    decreases |cs|
  {
    if cs != [] {
      var n := |cs| - 1;
      var prev := cs[..n];
      assert forall c | c in prev :: c in cs;
      GatherOnePerCell(prev, f);
      assert |f(cs[n])| == 1 by { assert cs[n] in cs; }
      var g := Gather(cs, f);
      assert g == Gather(prev, f) + f(cs[n]);
      forall k | 0 <= k < |cs| ensures g[k] == f(cs[k])[0] {
        if k < n {
          assert prev[k] == cs[k];
        }
      }
    }
  }

  /** An output is gathered iff some visited cell produced it. */
  lemma {:induction false} GatherMember<T>(cs: seq<Cell>, f: Cell -> seq<T>, x: T)
    ensures x in Gather(cs, f) <==> exists c :: c in cs && x in f(c)
    decreases |cs|
  {
    if cs != [] {
      var n := |cs| - 1;
      GatherMember(cs[..n], f, x);
      assert cs == cs[..n] + [cs[n]];
      if exists c :: c in cs && x in f(c) {
        var c :| c in cs && x in f(c);
        if c != cs[n] {
          assert c in cs[..n];
        }
      }
    }
  }

  /** Visiting cell `(i, j, k)` appends its output. */
  lemma VisitNext<T>(i: nat, j: nat, k: nat, nj: nat, nk: nat, f: Cell -> seq<T>)
    ensures Gather(Visited(i, j, k + 1, nj, nk), f) == Gather(Visited(i, j, k, nj, nk), f) + f(Cell(i, j, k))
  {
    assert Visited(i, j, k + 1, nj, nk) == Visited(i, j, k, nj, nk) + [Cell(i, j, k)];
    GatherAppend(Visited(i, j, k, nj, nk), Cell(i, j, k), f);
  }

  /** Finishing the innermost loop moves on to the next `j`. */
  lemma RowDone(i: nat, j: nat, nj: nat, nk: nat)
    ensures Visited(i, j, nk, nj, nk) == Visited(i, j + 1, 0, nj, nk)
  {
  }

  /** Finishing the middle loop moves on to the next `i`. */
  lemma PlaneDone(i: nat, nj: nat, nk: nat)
    ensures Visited(i, nj, 0, nj, nk) == Visited(i + 1, 0, 0, nj, nk)
  {
  }

  /**
   * The triple loop `for i in range(ni): for j in range(nj): for k in
   * range(nk)`, collecting each cell's outputs in visiting order.
   */
  method ForEachCell<T>(ni: nat, nj: nat, nk: nat, visit: Cell -> seq<T>) returns (out: seq<T>)
    ensures out == Gather(AllCells(ni, nj, nk), visit)
  {
    out := [];
    for i := 0 to ni
      invariant out == Gather(Visited(i, 0, 0, nj, nk), visit)
    {
      for j := 0 to nj
        invariant out == Gather(Visited(i, j, 0, nj, nk), visit)
      {
        for k := 0 to nk
          invariant out == Gather(Visited(i, j, k, nj, nk), visit)
        {
          VisitNext(i, j, k, nj, nk, visit);
          out := out + visit(Cell(i, j, k));
        }
        RowDone(i, j, nj, nk);
      }
      PlaneDone(i, nj, nk);
    }
    assert Visited(ni, 0, 0, nj, nk) == AllCells(ni, nj, nk);
  }

  // ---- Cells of a grid given by per-axis boundary lists ----

  /** `range(len(points) - 1)` for one axis's boundary list. */
  function AxisCells(bs: seq<real>): nat {
    RangeLen(|bs| - 1)
  }

  /** The cells the loops of `segment_based_on_grid` visit. */
  function GridCells(dp: seq<seq<real>>): seq<Cell>
    requires |dp| >= 3
  {
    AllCells(AxisCells(dp[0]), AxisCells(dp[1]), AxisCells(dp[2]))
  }

  /** Both corners of the cell exist in the boundary lists. */
  predicate CellOf(dp: seq<seq<real>>, c: Cell) {
    |dp| >= 3 && c.i + 1 < |dp[0]| && c.j + 1 < |dp[1]| && c.k + 1 < |dp[2]|
  }

  /** `min_corner` from indices `(i, j, k)`, `max_corner` from `(i+1, j+1, k+1)`. */
  function CellBox(dp: seq<seq<real>>, c: Cell): Box
    requires CellOf(dp, c)
  {
    Box(Vec3(dp[0][c.i], dp[1][c.j], dp[2][c.k]),
        Vec3(dp[0][c.i + 1], dp[1][c.j + 1], dp[2][c.k + 1]))
  }

  /** The loops visit exactly the cells whose two corners exist. */
  lemma GridCellsInRange(dp: seq<seq<real>>, c: Cell)
    requires |dp| >= 3
    ensures c in GridCells(dp) <==> CellOf(dp, c)
  {
    CellsMember(AxisCells(dp[0]), AxisCells(dp[1]), AxisCells(dp[2]), c);
  }

  /** Neighbouring cells share a face: the max of one is the min of the next. */
  lemma AdjacentCellsShareFaces(dp: seq<seq<real>>, c: Cell)
    requires CellOf(dp, c)
    ensures CellOf(dp, Cell(c.i + 1, c.j, c.k)) ==> CellBox(dp, c).hi.x == CellBox(dp, Cell(c.i + 1, c.j, c.k)).lo.x
    ensures CellOf(dp, Cell(c.i, c.j + 1, c.k)) ==> CellBox(dp, c).hi.y == CellBox(dp, Cell(c.i, c.j + 1, c.k)).lo.y
    ensures CellOf(dp, Cell(c.i, c.j, c.k + 1)) ==> CellBox(dp, c).hi.z == CellBox(dp, Cell(c.i, c.j, c.k + 1)).lo.z
  {
  }

  /** The box spanned by the first and last boundary of each axis. */
  function GridBox(dp: seq<seq<real>>): Box
    requires |dp| >= 3 && |dp[0]| > 0 && |dp[1]| > 0 && |dp[2]| > 0
  {
    Box(Vec3(dp[0][0], dp[1][0], dp[2][0]),
        Vec3(dp[0][|dp[0]| - 1], dp[1][|dp[1]| - 1], dp[2][|dp[2]| - 1]))
  }

  /**
   * Every point between the first and last boundaries on all three axes lies
   * in the closed box of at least one visited cell.
   */
  lemma GridCovers(dp: seq<seq<real>>, p: Vec3)
    requires |dp| >= 3 && |dp[0]| >= 2 && |dp[1]| >= 2 && |dp[2]| >= 2
    requires InBox(p, GridBox(dp))
    ensures exists c :: c in GridCells(dp) && CellOf(dp, c) && InBox(p, CellBox(dp, c))
  {
    Covers(dp[0], p.x);
    Covers(dp[1], p.y);
    Covers(dp[2], p.z);
    var i :| 0 <= i < |dp[0]| - 1 && dp[0][i] <= p.x <= dp[0][i + 1];
    var j :| 0 <= j < |dp[1]| - 1 && dp[1][j] <= p.y <= dp[1][j + 1];
    var k :| 0 <= k < |dp[2]| - 1 && dp[2][k] <= p.z <= dp[2][k + 1];
    var c := Cell(i, j, k);
    GridCellsInRange(dp, c);
    assert InBox(p, CellBox(dp, c));
  }

  // ---- Cells of a uniform grid over a bounding box ----

  /** `section_size_* = (max_* - min_*) / grid_sizes[*]` per axis. */
  function Sizes(bb: Box, g: seq<int>): Vec3
    requires |g| >= 3
  {
    Vec3(SectionSize(bb.lo.x, bb.hi.x, g[0]), SectionSize(bb.lo.y, bb.hi.y, g[1]),
         SectionSize(bb.lo.z, bb.hi.z, g[2]))
  }

  /** The cells of `range(g[0]) x range(g[1]) x range(g[2])`. */
  function UniformCells(g: seq<int>): seq<Cell>
    requires |g| >= 3
  {
    AllCells(RangeLen(g[0]), RangeLen(g[1]), RangeLen(g[2]))
  }

  /**
   * `for x in range(n[0]): for y in range(n[1]): for z in range(n[2])` over
   * a count tuple that may be short: indexing a missing count raises, and
   * does so before any cell is visited, iff the loops reach it.
   */
  predicate LoopsRaise(n: seq<int>) {
    |n| == 0 || (|n| == 1 && n[0] > 0) || (|n| == 2 && n[0] > 0 && n[1] > 0)
  }

  /** The cells such loops visit when they do not raise. */
  function LoopCells(n: seq<int>): (cs: seq<Cell>)
    ensures |n| < 3 ==> cs == []
  {
    if |n| >= 3 then UniformCells(n) else []
  }

  /** `[min + x * size, min + (x + 1) * size]` on each axis. */
  function UniformCellBox(lo: Vec3, size: Vec3, c: Cell): Box {
    Box(Vec3(Edge(lo.x, size.x, c.i), Edge(lo.y, size.y, c.j), Edge(lo.z, size.z, c.k)),
        Vec3(Edge(lo.x, size.x, c.i + 1), Edge(lo.y, size.y, c.j + 1), Edge(lo.z, size.z, c.k + 1)))
  }

  /** Neighbouring uniform cells share a face. */
  lemma UniformAdjacentShareFaces(lo: Vec3, size: Vec3, c: Cell)
    ensures UniformCellBox(lo, size, c).hi.x == UniformCellBox(lo, size, Cell(c.i + 1, c.j, c.k)).lo.x
    ensures UniformCellBox(lo, size, c).hi.y == UniformCellBox(lo, size, Cell(c.i, c.j + 1, c.k)).lo.y
    ensures UniformCellBox(lo, size, c).hi.z == UniformCellBox(lo, size, Cell(c.i, c.j, c.k + 1)).lo.z
  {
  }

  /** The first cell starts at the box minimum and the last ends at its maximum. */
  lemma UniformGridSpansBox(bb: Box, g: seq<int>)
    requires |g| >= 3 && g[0] > 0 && g[1] > 0 && g[2] > 0
    ensures UniformCellBox(bb.lo, Sizes(bb, g), Cell(0, 0, 0)).lo == bb.lo
    ensures UniformCellBox(bb.lo, Sizes(bb, g), Cell(g[0] - 1, g[1] - 1, g[2] - 1)).hi == bb.hi
  {
  }

  /**
   * With positive counts, every point of the bounding box lies in the closed
   * box of at least one visited cell.
   */
  lemma UniformCovers3(bb: Box, g: seq<int>, p: Vec3)
    requires |g| >= 3 && g[0] > 0 && g[1] > 0 && g[2] > 0
    requires InBox(p, bb)
    ensures exists c :: c in UniformCells(g) && InBox(p, UniformCellBox(bb.lo, Sizes(bb, g), c))
  {
    var size := Sizes(bb, g);
    assert size == Vec3(SectionSize(bb.lo.x, bb.hi.x, g[0]), SectionSize(bb.lo.y, bb.hi.y, g[1]),
                        SectionSize(bb.lo.z, bb.hi.z, g[2]));
    UniformCovers(bb.lo.x, bb.hi.x, g[0], p.x);
    var i :| 0 <= i < g[0] && Edge(bb.lo.x, size.x, i) <= p.x <= Edge(bb.lo.x, size.x, i + 1);
    UniformCovers(bb.lo.y, bb.hi.y, g[1], p.y);
    var j :| 0 <= j < g[1] && Edge(bb.lo.y, size.y, j) <= p.y <= Edge(bb.lo.y, size.y, j + 1);
    UniformCovers(bb.lo.z, bb.hi.z, g[2], p.z);
    var k :| 0 <= k < g[2] && Edge(bb.lo.z, size.z, k) <= p.z <= Edge(bb.lo.z, size.z, k + 1);
    var c := Cell(i, j, k);
    assert c in UniformCells(g) by { CellsMember(g[0], g[1], g[2], c); }
    assert UniformCellBox(bb.lo, size, c) ==
      Box(Vec3(Edge(bb.lo.x, size.x, i), Edge(bb.lo.y, size.y, j), Edge(bb.lo.z, size.z, k)),
          Vec3(Edge(bb.lo.x, size.x, i + 1), Edge(bb.lo.y, size.y, j + 1), Edge(bb.lo.z, size.z, k + 1)));
  }
}
