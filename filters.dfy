/**
 * The closed-box filters: points (or vertices) inside a cell, the same
 * selection applied to a parallel array (colours, normals), and faces whose
 * three vertices are all inside. Each has a pure definition (numpy mask
 * indexing) and, where a script builds the result with an append loop, a
 * method with that loop proved equal to it.
 */
module Filters {
  import opened Geometry
  import opened Masks

  /** The mask `np.all((pts >= lo) & (pts <= hi), axis=1)`. */
  function InBoxMask(ps: seq<Vec3>, b: Box): (m: seq<bool>)
    ensures |m| == |ps|
  {
    seq(|ps|, i requires 0 <= i < |ps| => InBox(ps[i], b))
  }

  /** The points of `ps` inside the closed box `b`, in input order. */
  function FilterBox(ps: seq<Vec3>, b: Box): seq<Vec3> {
    ApplyMask(ps, InBoxMask(ps, b))
  }

  /** A point is selected iff it is one of the inputs and lies in the closed box. */
  lemma FilterBoxMember(ps: seq<Vec3>, b: Box, p: Vec3)
    ensures p in FilterBox(ps, b) <==> p in ps && InBox(p, b)
  {
    var m := InBoxMask(ps, b);
    ApplyMaskMember(ps, m, p);
    if p in ps && InBox(p, b) {
      var i :| 0 <= i < |ps| && ps[i] == p;
      assert m[i] && ps[i] == p;
    }
  }

  /**
   * The selection is a subsequence of the input: its k-th point is the input
   * point at the k-th selected index, and the selected indices increase.
   */
  lemma FilterBoxOrder(ps: seq<Vec3>, b: Box)
    ensures |FilterBox(ps, b)| == |Selected(InBoxMask(ps, b))|
    ensures forall k :: 0 <= k < |FilterBox(ps, b)| ==>
      Selected(InBoxMask(ps, b))[k] < |ps| && FilterBox(ps, b)[k] == ps[Selected(InBoxMask(ps, b))[k]]
    ensures forall k, l :: 0 <= k < l < |FilterBox(ps, b)| ==>
      Selected(InBoxMask(ps, b))[k] < Selected(InBoxMask(ps, b))[l]
  {
    ApplyMaskAt(ps, InBoxMask(ps, b));
    SelectedIncreasing(InBoxMask(ps, b));
  }

  /**
   * The point filter of the E57 sectioners: walk the indices and append each
   * point inside the closed box.
   */
  method FilterSection(ps: seq<Vec3>, b: Box) returns (section: seq<Vec3>)
    ensures section == FilterBox(ps, b)
  {
    ghost var m := InBoxMask(ps, b);
    section := [];
    for i := 0 to |ps|
      invariant section == ApplyMask(ps[..i], m[..i])
    {
      ApplyMaskSnoc(ps, m, i);
      if InBox(ps[i], b) {
        section := section + [ps[i]];
      }
    }
    assert ps[..|ps|] == ps && m[..|ps|] == m;
  }

  /**
   * The vertex filter of object.py: vertices inside the box are appended, and
   * the normal of the same index is appended with each one.
   */
  method FilterVerticesWithNormals(vs: seq<Vec3>, ns: seq<Vec3>, b: Box)
    returns (sectionVertices: seq<Vec3>, sectionNormals: seq<Vec3>)
    requires |ns| == |vs|
    ensures sectionVertices == FilterBox(vs, b)
    ensures sectionNormals == ApplyMask(ns, InBoxMask(vs, b))
  {
    ghost var m := InBoxMask(vs, b);
    sectionVertices, sectionNormals := [], [];
    for i := 0 to |vs|
      invariant sectionVertices == ApplyMask(vs[..i], m[..i])
      invariant sectionNormals == ApplyMask(ns[..i], m[..i])
    {
      ApplyMaskSnoc(vs, m, i);
      ApplyMaskSnoc(ns, m, i);
      if InBox(vs[i], b) {
        sectionVertices := sectionVertices + [vs[i]];
        sectionNormals := sectionNormals + [ns[i]];
      }
    }
    assert vs[..|vs|] == vs && ns[..|vs|] == ns && m[..|vs|] == m;
  }

  /**
   * The k-th section normal is the normal of the k-th selected vertex: both
   * lists hold, position by position, the entries of one original index.
   */
  lemma NormalsFollowVertices(vs: seq<Vec3>, ns: seq<Vec3>, b: Box)
    requires |ns| == |vs|
    ensures |ApplyMask(ns, InBoxMask(vs, b))| == |FilterBox(vs, b)| == |Selected(InBoxMask(vs, b))|
    ensures forall k :: 0 <= k < |Selected(InBoxMask(vs, b))| ==>
      var i := Selected(InBoxMask(vs, b))[k];
      i < |vs| && InBox(vs[i], b) && FilterBox(vs, b)[k] == vs[i] && ApplyMask(ns, InBoxMask(vs, b))[k] == ns[i]
  {
    var m := InBoxMask(vs, b);
    ApplyMaskAt(vs, m);
    ApplyMaskAt(ns, m);
    SelectedSound(m);
  }

  /** A triangle given by three 0-based indices into the vertex list. */
  datatype Face = Face(a: nat, b: nat, c: nat)

  /** Every face refers to existing vertices. */
  predicate FacesValid(faces: seq<Face>, n: nat) {
    forall f | f in faces :: f.a < n && f.b < n && f.c < n
  }

  /** All three vertices of the face lie in the closed box. */
  predicate FaceInBox(vs: seq<Vec3>, f: Face, b: Box)
    requires f.a < |vs| && f.b < |vs| && f.c < |vs|
  {
    InBox(vs[f.a], b) && InBox(vs[f.b], b) && InBox(vs[f.c], b)
  }

  function FaceMask(vs: seq<Vec3>, faces: seq<Face>, b: Box): (m: seq<bool>)
    requires FacesValid(faces, |vs|)
    ensures |m| == |faces|
  {
    seq(|faces|, i requires 0 <= i < |faces| => FaceInBox(vs, faces[i], b))
  }

  /** The faces whose three vertices all lie in the box, in input order. */
  function FacesInBox(vs: seq<Vec3>, faces: seq<Face>, b: Box): seq<Face>
    requires FacesValid(faces, |vs|)
  {
    ApplyMask(faces, FaceMask(vs, faces, b))
  }

  /**
   * A face is kept iff it is an input face and all three of its vertices are
   * inside; a face straddling the box boundary is dropped.
   */
  lemma FacesInBoxMember(vs: seq<Vec3>, faces: seq<Face>, b: Box, f: Face)
    requires FacesValid(faces, |vs|)
    ensures f in FacesInBox(vs, faces, b) <==>
      f in faces && InBox(vs[f.a], b) && InBox(vs[f.b], b) && InBox(vs[f.c], b)
  {
    var m := FaceMask(vs, faces, b);
    ApplyMaskMember(faces, m, f);
    if f in faces && FaceInBox(vs, f, b) {
      var i :| 0 <= i < |faces| && faces[i] == f;
      assert m[i] && faces[i] == f;
    }
  }

  /** Every vertex of a kept face is one of the section's vertices. */
  lemma KeptFaceVerticesInSection(vs: seq<Vec3>, faces: seq<Face>, b: Box)
    requires FacesValid(faces, |vs|)
    ensures forall f | f in FacesInBox(vs, faces, b) ::
      f.a < |vs| && f.b < |vs| && f.c < |vs| &&
      vs[f.a] in FilterBox(vs, b) && vs[f.b] in FilterBox(vs, b) && vs[f.c] in FilterBox(vs, b)
  {
    forall f | f in FacesInBox(vs, faces, b)
      ensures f.a < |vs| && f.b < |vs| && f.c < |vs| &&
        vs[f.a] in FilterBox(vs, b) && vs[f.b] in FilterBox(vs, b) && vs[f.c] in FilterBox(vs, b)
    {
      FacesInBoxMember(vs, faces, b, f);
      FilterBoxMember(vs, b, vs[f.a]);
      FilterBoxMember(vs, b, vs[f.b]);
      FilterBoxMember(vs, b, vs[f.c]);
    }
  }

  /** The face filter of object.py: walk the faces and append each one inside. */
  method FilterFaces(vs: seq<Vec3>, faces: seq<Face>, b: Box) returns (sectionFaces: seq<Face>)
    requires FacesValid(faces, |vs|)
    ensures sectionFaces == FacesInBox(vs, faces, b)
  {
    ghost var m := FaceMask(vs, faces, b);
    sectionFaces := [];
    for i := 0 to |faces|
      invariant sectionFaces == ApplyMask(faces[..i], m[..i])
    {
      ApplyMaskSnoc(faces, m, i);
      var f := faces[i];
      assert f in faces;
      if InBox(vs[f.a], b) && InBox(vs[f.b], b) && InBox(vs[f.c], b) {
        sectionFaces := sectionFaces + [f];
      }
    }
    assert faces[..|faces|] == faces && m[..|faces|] == m;
  }
}
