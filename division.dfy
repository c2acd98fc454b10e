/**
 * The boundary builders: numpy's linspace, the explicit Z-heights prefix sum,
 * and the uniform edges `min + x * size` with `size = (max - min) / count`;
 * and the fact that makes a grid cover its range: a value between the first
 * and the last boundary lies between two consecutive ones.
 */
module Division {
  import opened Outcomes

  /**
   * `numpy.linspace(start, stop, num)` (endpoint included), exactly over the
   * reals: `num` evenly spaced values from `start` to `stop`; a negative
   * `num` raises.
   */
  function Linspace(start: real, stop: real, num: int): (r: Result<seq<real>>)
    ensures r.Err? <==> num < 0
    ensures r.Err? ==> r.error == NegativeSampleCount
    ensures r.Ok? ==> |r.value| == num
    ensures r.Ok? && num > 0 ==> r.value[0] == start
    ensures r.Ok? && num > 1 ==> r.value[num - 1] == stop
    ensures r.Ok? && num > 1 ==> forall i :: 0 <= i < num - 1 ==>
      r.value[i + 1] - r.value[i] == (stop - start) / ((num - 1) as real)
  {
    if num < 0 then Err(NegativeSampleCount)
    else if num == 1 then Ok([start])
    else
      var step := (stop - start) / ((num - 1) as real);
      var r := seq(num, i requires 0 <= i < num => start + (i as real) * step);
      assert num > 1 ==> r[num - 1] == stop by {
        if num > 1 {
          var k := (num - 1) as real;
          assert k * step == stop - start;
        }
      }
      assert forall i :: 0 <= i < num - 1 ==> r[i + 1] - r[i] == step by {
        forall i | 0 <= i < num - 1 ensures r[i + 1] - r[i] == step {
          assert ((i + 1) as real) * step == (i as real) * step + step;
        }
      }
      Ok(r)
  }

  /** Python's `sum(xs)`: the values added left to right from 0. */
  function Total(xs: seq<real>): real
    decreases |xs|
  {
    if xs == [] then 0.0 else Total(xs[..|xs| - 1]) + xs[|xs| - 1]
  }

  /** One more height adds that height to the running sum. */
  lemma TotalSnoc(xs: seq<real>, i: nat)
    requires i < |xs|
    ensures Total(xs[..i + 1]) == Total(xs[..i]) + xs[i]
  {
    assert xs[..i + 1][..i] == xs[..i];
  }

  /**
   * The Z boundaries from explicit heights: the origin, then the origin plus
   * the sum of the first `i + 1` heights for each `i` (entry 0 is the origin
   * plus the empty sum).
   */
  function HeightBoundaries(start: real, heights: seq<real>): (r: seq<real>)
    ensures |r| == |heights| + 1
  {
    seq(|heights| + 1, i requires 0 <= i <= |heights| => start + Total(heights[..i]))
  }

  /** Consecutive differences of a boundary list: the cell sizes. */
  function Steps(bs: seq<real>): (r: seq<real>)
    requires |bs| > 0
    ensures |r| == |bs| - 1
  {
    seq(|bs| - 1, i requires 0 <= i < |bs| - 1 => bs[i + 1] - bs[i])
  }

  /**
   * The heights prefix sum starts at the origin, ends at the origin plus the
   * total height, and its cell sizes are exactly the given heights.
   */
  lemma HeightBoundariesSteps(start: real, heights: seq<real>)
    ensures HeightBoundaries(start, heights)[0] == start
    ensures HeightBoundaries(start, heights)[|heights|] == start + Total(heights)
    ensures Steps(HeightBoundaries(start, heights)) == heights
  {
    var r := HeightBoundaries(start, heights);
    assert heights[..0] == [];
    assert heights[..|heights|] == heights;
    forall i | 0 <= i < |heights| ensures Steps(r)[i] == heights[i] {
      TotalSnoc(heights, i);
    }
  }

  /** Non-negative heights give non-decreasing boundaries. */
  lemma {:induction false} HeightBoundariesMonotone(start: real, heights: seq<real>)
    requires forall i :: 0 <= i < |heights| ==> heights[i] >= 0.0
    ensures forall i, j :: 0 <= i <= j <= |heights| ==>
      HeightBoundaries(start, heights)[i] <= HeightBoundaries(start, heights)[j]
  {
    var r := HeightBoundaries(start, heights);
    HeightBoundariesSteps(start, heights);
    assert forall i :: 0 <= i < |heights| ==> r[i] <= r[i + 1] by {
      forall i | 0 <= i < |heights| ensures r[i] <= r[i + 1] {
        assert Steps(r)[i] == heights[i];
      }
    }
    forall i, j | 0 <= i <= j <= |heights| ensures r[i] <= r[j] {
      Upward(r, i, j);
    }
  }

  /** A list whose consecutive entries never decrease is non-decreasing. */
  lemma {:induction false} Upward(r: seq<real>, i: nat, j: nat)
    requires forall k :: 0 <= k < |r| - 1 ==> r[k] <= r[k + 1]
    requires i <= j < |r|
    ensures r[i] <= r[j]
    decreases j - i
  {
    if i < j {
      Upward(r, i, j - 1);
    }
  }

  /** Heights `[1.0, 2.0, 1.5]` from origin 0 give the boundaries `[0, 1, 3, 4.5]`. */
  lemma HeightsExample()
    ensures HeightBoundaries(0.0, [1.0, 2.0, 1.5]) == [0.0, 1.0, 3.0, 4.5]
  {
    var h := [1.0, 2.0, 1.5];
    TotalSnoc(h, 0);
    TotalSnoc(h, 1);
    TotalSnoc(h, 2);
    assert h[..0] == [] && h[..3] == h;
  }

  /**
   * The section size `(max - min) / count`. numpy gives inf or NaN for a zero
   * count; no script reads it then (the loop over `range(0)` is empty), so
   * 0.0 stands in. With a positive count the last edge lands on `max`.
   */
  function SectionSize(lo: real, hi: real, count: int): (size: real)
    ensures count > 0 ==> lo + (count as real) * size == hi
    ensures count > 0 && lo <= hi ==> size >= 0.0
  {
    if count == 0 then 0.0 else (hi - lo) / (count as real)
  }

  /**
   * `linspace(start, start + size * count, count + 1)`: `count + 1` boundaries
   * from `start`, each box exactly `size` long, the last at
   * `start + size * count`.
   */
  lemma LinspaceBoxes(start: real, size: real, count: int)
    requires count >= 0
    ensures var l := Linspace(start, start + size * (count as real), count + 1);
      l.Ok? && |l.value| == count + 1 && l.value[0] == start &&
      (count > 0 ==> l.value[count] == start + size * (count as real)) &&
      (count > 0 ==> forall i :: 0 <= i < count ==> l.value[i + 1] - l.value[i] == size)
  {
    if count > 0 {
      var g := count as real;
      assert (start + size * g - start) / g == size;
    }
  }

  /** The length of a `zip` of two sequences. */
  function Min(a: nat, b: nat): (m: nat)
    ensures m <= a && m <= b && (m == a || m == b)
  {
    if a <= b then a else b
  }

  /** `int(np.ceil(r))` for a finite `r`: the least integer not below `r`. */
  function Ceil(r: real): (c: int)
    ensures r <= c as real < r + 1.0
  {
    -((-r).Floor)
  }

  /**
   * `ceil(extent / dim)` cells of width `dim` are the fewest that reach the
   * extent: that many reach it and one fewer do not.
   */
  lemma CeilCells(extent: real, dim: real)
    requires dim > 0.0
    ensures extent <= (Ceil(extent / dim) as real) * dim
    ensures ((Ceil(extent / dim) - 1) as real) * dim < extent
  {
    var q := extent / dim;
    var c := Ceil(q) as real;
    var below := (Ceil(q) - 1) as real;
    assert below == c - 1.0;
    assert extent == q * dim;
    assert c * dim - q * dim == (c - q) * dim >= 0.0;
    assert q * dim - below * dim == (q - below) * dim > 0.0;
    assert below * dim < extent;
  }

  /** The edge `min + x * size` of a uniform grid. */
  function Edge(lo: real, size: real, x: int): real {
    lo + (x as real) * size
  }

  /** The uniform edges `min + x * size` for `x` from 0 to `count`. */
  function UniformEdges(lo: real, size: real, count: nat): (r: seq<real>)
    ensures |r| == count + 1
  {
    seq(count + 1, x requires 0 <= x <= count => Edge(lo, size, x))
  }

  /**
   * The two boundary builders agree: linspace from `min` to `max` with
   * `count + 1` samples is the uniform edges with the section size.
   */
  lemma LinspaceIsUniform(lo: real, hi: real, count: nat)
    requires count > 0
    ensures Linspace(lo, hi, count + 1) == Ok(UniformEdges(lo, SectionSize(lo, hi, count), count))
  {
    var l := Linspace(lo, hi, count + 1).value;
    var u := UniformEdges(lo, SectionSize(lo, hi, count), count);
    assert |l| == |u|;
    forall i | 0 <= i <= count ensures l[i] == u[i] {
    }
    assert l == u;
  }

  /**
   * Any value between the first and the last boundary lies in the closed
   * interval of some pair of consecutive boundaries.
   */
  lemma {:induction false} Covers(bs: seq<real>, v: real)
    requires |bs| >= 2 && bs[0] <= v <= bs[|bs| - 1]
    ensures exists i :: 0 <= i < |bs| - 1 && bs[i] <= v <= bs[i + 1]
    decreases |bs|
  {
    if v > bs[1] {
      Covers(bs[1..], v);
      var i :| 0 <= i < |bs| - 2 && bs[1..][i] <= v <= bs[1..][i + 1];
      assert bs[i + 1] <= v <= bs[i + 2];
    }
  }

  /**
   * Uniform edges cover the whole bounding range: every value in `[lo, hi]`
   * lies in the closed cell `[lo + x * size, lo + (x + 1) * size]` of some
   * `x < count`.
   */
  lemma UniformCovers(lo: real, hi: real, count: nat, v: real)
    requires count > 0 && lo <= v <= hi
    ensures var size := SectionSize(lo, hi, count);
            exists x :: 0 <= x < count && Edge(lo, size, x) <= v <= Edge(lo, size, x + 1)
  {
    var size := SectionSize(lo, hi, count);
    var bs := UniformEdges(lo, size, count);
    assert bs[0] == lo;
    assert bs[count] == hi;
    Covers(bs, v);
    var x :| 0 <= x < count && bs[x] <= v <= bs[x + 1];
    assert Edge(lo, size, x) <= v <= Edge(lo, size, x + 1);
  }
}
