/** Faces of the vertex stream: grouping into runs of five and the face
    centre. */
module Faces {
  import opened Vectors
  import opened Projection

  /** A face: the (shared) vertices of one closed outline and its centre. */
  datatype Face = Face(face: seq<Point3D>, center: Vec3)

  /** The sum of vs[lo .. hi], accumulated left to right. */
  function Sum(vs: seq<Vec3>, lo: nat, hi: nat): Vec3
    requires lo <= hi <= |vs|
    decreases hi - lo
  {
    if lo == hi then Origin else Plus(Sum(vs, lo, hi - 1), vs[hi - 1])
  }

  function Quarter(v: Vec3): Vec3
  {
    Vec3(v.x / 4.0, v.y / 4.0, v.z / 4.0)
  }

  /** The centre of the face whose projected points start at start: the
      sum of its first four points, divided by four, which is the mean of
      the four corners (the fifth point closes the outline). */
  function FaceCenter(points: seq<Vec3>, start: nat): (r: Vec3)
    requires start + 4 <= |points|
    ensures r == Mean4(points[start], points[start + 1], points[start + 2], points[start + 3])
  {
    assert Sum(points, start, start + 1) == points[start];
    assert Sum(points, start, start + 2) == Plus(points[start], points[start + 1]);
    assert Sum(points, start, start + 3) == Plus(Plus(points[start], points[start + 1]), points[start + 2]);
    Quarter(Sum(points, start, start + 4))
  }

  function Mean4(a: Vec3, b: Vec3, c: Vec3, d: Vec3): Vec3
  {
    Vec3((a.x + b.x + c.x + d.x) / 4.0, (a.y + b.y + c.y + d.y) / 4.0, (a.z + b.z + c.z + d.z) / 4.0)
  }

  /** Projecting the corners and then taking the centre is the same as
      projecting the centre of the unprojected corners. */
  lemma FaceCenterCommutesWithIso(points: seq<Vec3>, start: nat)
    requires start + 4 <= |points|
    ensures FaceCenter(IsoAll(points), start) == Iso(FaceCenter(points, start))
  {
  }

  /** Face k: vertices 5k .. 5k+4 and the centre of their projections. */
  function FaceAt(verts: seq<Point3D>, isos: seq<Vec3>, k: nat): Face
    requires |verts| == |isos| && 5 * k + 5 <= |verts|
  {
    Face(verts[5 * k .. 5 * k + 5], FaceCenter(isos, 5 * k))
  }

  /** The faces of a vertex stream: one per complete run of five; a
      trailing incomplete run makes no face. */
  function GroupFaces(verts: seq<Point3D>, isos: seq<Vec3>): (faces: seq<Face>)
    requires |verts| == |isos|
    ensures |faces| == |verts| / 5
    ensures forall k :: 0 <= k < |faces| ==>
              && faces[k].face == verts[5 * k .. 5 * k + 5]
              && faces[k].center == Mean4(isos[5 * k], isos[5 * k + 1], isos[5 * k + 2], isos[5 * k + 3])
  {
    seq(|verts| / 5, k requires 0 <= k < |verts| / 5 => FaceAt(verts, isos, k))
  }

  /** The state of the grouping loop after the first i vertices: the
      complete faces so far, the open run of vertices since the last face,
      and the running sum of their projections. */
  ghost predicate Grouping(verts: seq<Point3D>, isos: seq<Vec3>, i: nat,
                           faces: seq<Face>, run: seq<Point3D>, sum: Vec3)
  {
    |verts| == |isos| && i <= |verts| && 5 * |faces| <= i < 5 * |faces| + 5
    && (forall k :: 0 <= k < |faces| ==> faces[k] == FaceAt(verts, isos, k))
    && run == verts[5 * |faces| .. i]
    && sum == Sum(isos, 5 * |faces|, i)
  }

  /** Before the first vertex there are no faces, an empty run and a zero sum. */
  lemma GroupingStart(verts: seq<Point3D>, isos: seq<Vec3>)
    requires |verts| == |isos|
    ensures Grouping(verts, isos, 0, [], [], Origin)
  {
    assert verts[0 .. 0] == [];
  }

  /** One vertex more: the fifth vertex of a run closes a face centred on
      a quarter of the running sum, and a fresh run starts; any other
      vertex joins the run and its projection the sum. */
  lemma GroupingStep(verts: seq<Point3D>, isos: seq<Vec3>, i: nat,
                     faces: seq<Face>, run: seq<Point3D>, sum: Vec3)
    requires Grouping(verts, isos, i, faces, run, sum) && i < |verts|
    ensures |run| + 1 == 5 ==>
              Grouping(verts, isos, i + 1, faces + [Face(run + [verts[i]], Quarter(sum))], [], Origin)
    ensures |run| + 1 != 5 ==>
              Grouping(verts, isos, i + 1, faces, run + [verts[i]], Plus(sum, isos[i]))
  {
    assert verts[5 * |faces| .. i + 1] == run + [verts[i]];
    if |run| + 1 == 5 {
      var grown := faces + [Face(run + [verts[i]], Quarter(sum))];
      assert grown[|faces|] == FaceAt(verts, isos, |faces|);
    }
  }

  /** At the end of the stream the complete faces are the grouping of the
      whole stream. */
  lemma GroupingDone(verts: seq<Point3D>, isos: seq<Vec3>,
                     faces: seq<Face>, run: seq<Point3D>, sum: Vec3)
    requires Grouping(verts, isos, |verts|, faces, run, sum)
    ensures faces == GroupFaces(verts, isos)
  {
  }
}
