/**
 * Per-axis statistics of a point set: the bounding box (numpy min/max along
 * each axis), the mean, translation and centring, and the combined bounds of
 * a mesh box and a point cloud.
 */
module Stats {
  import opened Outcomes
  import opened Geometry

  /** `np.min` of one coordinate column: a lower bound of the column. */
  function MinAlong(ps: seq<Vec3>, a: Axis): (m: real)
    requires |ps| > 0
    ensures forall i :: 0 <= i < |ps| ==> m <= Coord(ps[i], a)
    decreases |ps|
  {
    if |ps| == 1 then Coord(ps[0], a)
    else
      var rest := MinAlong(ps[1..], a);
      assert forall i :: 1 <= i < |ps| ==> ps[1..][i - 1] == ps[i];
      if Coord(ps[0], a) <= rest then Coord(ps[0], a) else rest
  }

  /** `np.max` of one coordinate column: an upper bound of the column. */
  function MaxAlong(ps: seq<Vec3>, a: Axis): (m: real)
    requires |ps| > 0
    ensures forall i :: 0 <= i < |ps| ==> Coord(ps[i], a) <= m
    decreases |ps|
  {
    if |ps| == 1 then Coord(ps[0], a)
    else
      var rest := MaxAlong(ps[1..], a);
      assert forall i :: 1 <= i < |ps| ==> ps[1..][i - 1] == ps[i];
      if Coord(ps[0], a) >= rest then Coord(ps[0], a) else rest
  }

  /** Both extremes of a column are attained: each is the coordinate of some point. */
  lemma {:induction false} AlongAttained(ps: seq<Vec3>, a: Axis)
    requires |ps| > 0
    ensures exists i :: 0 <= i < |ps| && Coord(ps[i], a) == MinAlong(ps, a)
    ensures exists i :: 0 <= i < |ps| && Coord(ps[i], a) == MaxAlong(ps, a)
    decreases |ps|
  {
    if |ps| > 1 {
      AlongAttained(ps[1..], a);
      var i :| 0 <= i < |ps[1..]| && Coord(ps[1..][i], a) == MinAlong(ps[1..], a);
      var j :| 0 <= j < |ps[1..]| && Coord(ps[1..][j], a) == MaxAlong(ps[1..], a);
      assert Coord(ps[i + 1], a) == MinAlong(ps[1..], a);
      assert Coord(ps[j + 1], a) == MaxAlong(ps[1..], a);
    } else {
      assert Coord(ps[0], a) == MinAlong(ps, a);
    }
  }

  /**
   * The bounding box of a non-empty point set: it contains every point and
   * its corners are ordered.
   */
  function BoundingBox(ps: seq<Vec3>): (b: Box)
    requires |ps| > 0
    ensures Proper(b)
    ensures forall i :: 0 <= i < |ps| ==> InBox(ps[i], b)
  {
    var b := Box(Vec3(MinAlong(ps, 0), MinAlong(ps, 1), MinAlong(ps, 2)),
                 Vec3(MaxAlong(ps, 0), MaxAlong(ps, 1), MaxAlong(ps, 2)));
    assert forall i :: 0 <= i < |ps| ==> Coord(ps[i], 0) == ps[i].x && Coord(ps[i], 1) == ps[i].y && Coord(ps[i], 2) == ps[i].z;
    assert ps[0].x <= b.hi.x && ps[0].y <= b.hi.y && ps[0].z <= b.hi.z;
    b
  }

  /** The bounding box is the tightest box around the points: every face touches one. */
  lemma BoundingBoxTight(ps: seq<Vec3>)
    requires |ps| > 0
    ensures exists i :: 0 <= i < |ps| && ps[i].x == BoundingBox(ps).lo.x
    ensures exists i :: 0 <= i < |ps| && ps[i].y == BoundingBox(ps).lo.y
    ensures exists i :: 0 <= i < |ps| && ps[i].z == BoundingBox(ps).lo.z
    ensures exists i :: 0 <= i < |ps| && ps[i].x == BoundingBox(ps).hi.x
    ensures exists i :: 0 <= i < |ps| && ps[i].y == BoundingBox(ps).hi.y
    ensures exists i :: 0 <= i < |ps| && ps[i].z == BoundingBox(ps).hi.z
  {
    AlongAttained(ps, 0);
    AlongAttained(ps, 1);
    AlongAttained(ps, 2);
    var i0 :| 0 <= i0 < |ps| && Coord(ps[i0], 0) == MinAlong(ps, 0);
    var i1 :| 0 <= i1 < |ps| && Coord(ps[i1], 1) == MinAlong(ps, 1);
    var i2 :| 0 <= i2 < |ps| && Coord(ps[i2], 2) == MinAlong(ps, 2);
    var j0 :| 0 <= j0 < |ps| && Coord(ps[j0], 0) == MaxAlong(ps, 0);
    var j1 :| 0 <= j1 < |ps| && Coord(ps[j1], 1) == MaxAlong(ps, 1);
    var j2 :| 0 <= j2 < |ps| && Coord(ps[j2], 2) == MaxAlong(ps, 2);
  }

  /** The coordinate sums, accumulated left to right. */
  function Sum(ps: seq<Vec3>): Vec3
    decreases |ps|
  {
    if ps == [] then Origin else Add(Sum(ps[..|ps| - 1]), ps[|ps| - 1])
  }

  /** `np.mean(points, axis=0)` over the reals. */
  function Mean(ps: seq<Vec3>): Vec3
    requires |ps| > 0
  {
    Scale(Sum(ps), 1.0 / (|ps| as real))
  }

  /** `points + d`: every point shifted by the same vector. */
  function Translate(ps: seq<Vec3>, d: Vec3): (r: seq<Vec3>)
    ensures |r| == |ps|
  {
    seq(|ps|, i requires 0 <= i < |ps| => Add(ps[i], d))
  }

  /** Shifting every point by `d` adds `|ps|` copies of `d` to the sum. */
  lemma {:induction false} SumTranslate(ps: seq<Vec3>, d: Vec3)
    ensures Sum(Translate(ps, d)) == Add(Sum(ps), Scale(d, |ps| as real))
    decreases |ps|
  {
    if ps != [] {
      var n := |ps| - 1;
      var t := Translate(ps, d);
      assert t[..n] == Translate(ps[..n], d);
      SumTranslate(ps[..n], d);
      assert Sum(t) == Add(Sum(t[..n]), t[n]);
      assert Sum(ps) == Add(Sum(ps[..n]), ps[n]);
      ScaleStep(Sum(ps[..n]), ps[n], d, n as real);
    }
  }

  lemma ScaleStep(s: Vec3, p: Vec3, d: Vec3, k: real)
    ensures Add(Add(s, Scale(d, k)), Add(p, d)) == Add(Add(s, p), Scale(d, k + 1.0))
  {
    assert d.x * (k + 1.0) == d.x * k + d.x;
    assert d.y * (k + 1.0) == d.y * k + d.y;
    assert d.z * (k + 1.0) == d.z * k + d.z;
  }

  /** Shifting every point by `d` shifts the mean by `d`. */
  lemma MeanTranslate(ps: seq<Vec3>, d: Vec3)
    requires |ps| > 0
    ensures Mean(Translate(ps, d)) == Add(Mean(ps), d)
  {
    SumTranslate(ps, d);
    ShiftedMean(Sum(ps), d, |ps| as real);
  }

  /** Adding `n` copies of `d` to a sum adds `d` to its average over `n`. */
  lemma ShiftedMean(s: Vec3, d: Vec3, n: real)
    requires n > 0.0
    ensures Scale(Add(s, Scale(d, n)), 1.0 / n) == Add(Scale(s, 1.0 / n), d)
  {
    ShiftedAverage(s.x, d.x, n);
    ShiftedAverage(s.y, d.y, n);
    ShiftedAverage(s.z, d.z, n);
  }

  /** One coordinate: adding `n` copies of `d` to a sum adds `d` to its average. */
  lemma ShiftedAverage(s: real, d: real, n: real)
    requires n > 0.0
    ensures (s + d * n) * (1.0 / n) == s * (1.0 / n) + d
  {
    assert d * n * (1.0 / n) == d;
  }

  /**
   * `points - np.mean(points, axis=0)`. For an empty array numpy's mean is
   * NaN and the difference is again empty.
   */
  function Centred(ps: seq<Vec3>): (r: seq<Vec3>)
    ensures |r| == |ps|
    ensures |ps| > 0 ==> Mean(r) == Origin
  {
    if ps == [] then []
    else
      var r := Translate(ps, Sub(Origin, Mean(ps)));
      MeanTranslate(ps, Sub(Origin, Mean(ps)));
      r
  }

  /** Centring keeps the shape: differences between points are unchanged. */
  lemma CentredKeepsDifferences(ps: seq<Vec3>, i: nat, j: nat)
    requires i < |ps| && j < |ps|
    ensures Sub(Centred(ps)[i], Centred(ps)[j]) == Sub(ps[i], ps[j])
  {
  }

  function MinVec(p: Vec3, q: Vec3): Vec3 {
    Vec3(if p.x <= q.x then p.x else q.x, if p.y <= q.y then p.y else q.y, if p.z <= q.z then p.z else q.z)
  }

  function MaxVec(p: Vec3, q: Vec3): Vec3 {
    Vec3(if p.x >= q.x then p.x else q.x, if p.y >= q.y then p.y else q.y, if p.z >= q.z then p.z else q.z)
  }

  /**
   * The elementwise min of the mesh minimum and the cloud minimum, and the
   * elementwise max of the maxima. numpy raises on the min of an empty cloud.
   * The result encloses the mesh box and every cloud point;
   * `CombinedBoundsLeast` shows no smaller box does.
   */
  function CombinedBounds(meshBox: Box, ps: seq<Vec3>): (r: Result<Box>)
    ensures r.Err? <==> |ps| == 0
    ensures r.Err? ==> r.error == EmptyArray
    ensures r.Ok? ==> Encloses(r.value, meshBox)
    ensures r.Ok? ==> forall i :: 0 <= i < |ps| ==> InBox(ps[i], r.value)
  {
    if |ps| == 0 then Err(EmptyArray)
    else
      var cloud := BoundingBox(ps);
      Ok(Box(MinVec(meshBox.lo, cloud.lo), MaxVec(meshBox.hi, cloud.hi)))
  }

  /**
   * The combined box is the smallest around the mesh box and the cloud: every
   * box that holds both mesh corners and every point encloses it. With the
   * enclosure above this pins each corner to the elementwise min and max.
   */
  lemma CombinedBoundsLeast(meshBox: Box, ps: seq<Vec3>, b: Box)
    requires |ps| > 0
    requires InBox(meshBox.lo, b) && InBox(meshBox.hi, b)
    requires forall i :: 0 <= i < |ps| ==> InBox(ps[i], b)
    ensures Encloses(b, CombinedBounds(meshBox, ps).value)
  {
    BoundingBoxTight(ps);
  }
}
