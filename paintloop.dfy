/** The loop of paintIsoArt: every vertex projected, grouped into faces and
    moved to screen space, in one pass over the stream. */
module PaintLoop {
  import opened Vectors
  import opened Projection
  import opened Faces

  /** The pass over the stream: afterwards every vertex holds the screen
      position of its projection, and the faces are the groups of five of
      the stream with the centres of their projected points. */
  method ProjectAndGroup(cubeDepth: nat, scale: real, cubeVertices: seq<Point3D>)
    returns (faces: seq<Face>)
    requires Distinct(cubeVertices)
    modifies cubeVertices
    ensures Holds(cubeVertices, ScreenAll(cubeDepth, scale, IsoAll(old(Values(cubeVertices)))))
    ensures faces == GroupFaces(cubeVertices, IsoAll(old(Values(cubeVertices))))
  {
    ghost var olds := Values(cubeVertices);
    ghost var isos := IsoAll(olds);
    ProjectedAll(cubeDepth, scale, olds);
    faces := RunPass(cubeDepth, scale, cubeVertices, olds, isos, ScreenAll(cubeDepth, scale, isos));
  }

  /** The loop of the pass, given the projections and screen positions of
      the stream's values point by point: at the end every vertex holds
      its screen position and the faces are the groups of five. */
  method RunPass(cubeDepth: nat, scale: real, cubeVertices: seq<Point3D>,
                 ghost olds: seq<Vec3>, ghost isos: seq<Vec3>, ghost screens: seq<Vec3>)
    returns (faces: seq<Face>)
    requires Distinct(cubeVertices) && Holds(cubeVertices, olds)
    requires Projected(cubeDepth, scale, olds, isos, screens)
    modifies cubeVertices
    ensures Holds(cubeVertices, screens)
    ensures faces == GroupFaces(cubeVertices, isos)
  {
    faces := [];
    var faceVertices := [];
    var faceSum := new Point3D(0.0, 0.0, 0.0);
    var i := 0;
    GroupingStart(cubeVertices, isos);
    while i < |cubeVertices|
      invariant 0 <= i <= |cubeVertices|
      invariant fresh(faceSum)
      invariant Grouping(cubeVertices, isos, i, faces, faceVertices, faceSum.Value())
      invariant MovedUpTo(cubeVertices, i, screens, olds)
    {
      faces, faceVertices, faceSum := PaintVertex(cubeVertices, olds, isos, screens, i, faces, faceVertices, faceSum, cubeDepth, scale);
      i := i + 1;
    }
    GroupingDone(cubeVertices, isos, faces, faceVertices, faceSum.Value());
    MovedAll(cubeVertices, screens, olds);
  }

  /** isos holds the projections of olds and screens their screen
      positions, one by one. */
  ghost predicate Projected(cubeDepth: nat, scale: real,
                            olds: seq<Vec3>, isos: seq<Vec3>, screens: seq<Vec3>)
  {
    |isos| == |olds| == |screens|
    && (forall k {:trigger Iso(olds[k])} :: 0 <= k < |olds| ==> isos[k] == Iso(olds[k]))
    && (forall k {:trigger ScreenPoint(cubeDepth, scale, isos[k])} :: 0 <= k < |isos| ==>
          screens[k] == ScreenPoint(cubeDepth, scale, isos[k]))
  }

  /** The projections of the whole stream, taken point by point. */
  lemma ProjectedAll(cubeDepth: nat, scale: real, olds: seq<Vec3>)
    ensures Projected(cubeDepth, scale, olds, IsoAll(olds), ScreenAll(cubeDepth, scale, IsoAll(olds)))
  {
  }

  /** Once every vertex is moved, the stream holds the screen values. */
  lemma MovedAll(ps: seq<Point3D>, screens: seq<Vec3>, olds: seq<Vec3>)
    requires MovedUpTo(ps, |ps|, screens, olds)
    ensures Holds(ps, screens)
  {
  }

  /** The first i points of ps hold their screen values, the rest still
      hold their original values. */
  ghost predicate MovedUpTo(ps: seq<Point3D>, i: nat, screens: seq<Vec3>, olds: seq<Vec3>)
    reads ps
  {
    i <= |ps| == |screens| == |olds|
    && forall k :: 0 <= k < |ps| ==> ps[k].Value() == if k < i then screens[k] else olds[k]
  }

  /** One pass of the loop of paintIsoArt over vertex i: project it, add
      it to the open run (closing a face at the fifth vertex, or adding its
      projection to the running sum otherwise), then move it to screen
      space. */
  method PaintVertex(cubeVertices: seq<Point3D>, ghost olds: seq<Vec3>, ghost isos: seq<Vec3>,
                     ghost screens: seq<Vec3>, i: nat,
                     faces: seq<Face>, faceVertices: seq<Point3D>, faceSum: Point3D,
                     cubeDepth: nat, scale: real)
    returns (faces': seq<Face>, faceVertices': seq<Point3D>, faceSum': Point3D)
    requires i < |cubeVertices| && Distinct(cubeVertices)
    requires Projected(cubeDepth, scale, olds, isos, screens)
    requires MovedUpTo(cubeVertices, i, screens, olds)
    requires faceSum !in cubeVertices
    requires Grouping(cubeVertices, isos, i, faces, faceVertices, faceSum.Value())
    modifies cubeVertices[i], faceSum
    ensures faceSum' == faceSum || fresh(faceSum')
    ensures Grouping(cubeVertices, isos, i + 1, faces', faceVertices', faceSum'.Value())
    ensures MovedUpTo(cubeVertices, i + 1, screens, olds)
  {
    assert isos[i] == Iso(olds[i]);
    assert screens[i] == ScreenPoint(cubeDepth, scale, isos[i]);
    faces', faceVertices', faceSum' := GroupVertex(cubeVertices, isos, i, faces, faceVertices, faceSum);
    MoveToScreen(cubeVertices[i], cubeDepth, scale);
    forall k | 0 <= k < |cubeVertices|
      ensures cubeVertices[k].Value() == if k < i + 1 then screens[k] else olds[k]
    {
      if k != i {
        assert cubeVertices[k] != cubeVertices[i];
        assert cubeVertices[k].Value() == old(cubeVertices[k].Value());
      }
    }
  }

  /** The first half of a pass: project vertex i in place and add it to the
      open run, closing a face at the fifth vertex and adding its projection
      to the running sum otherwise. */
  method GroupVertex(cubeVertices: seq<Point3D>, ghost isos: seq<Vec3>, i: nat,
                     faces: seq<Face>, faceVertices: seq<Point3D>, faceSum: Point3D)
    returns (faces': seq<Face>, faceVertices': seq<Point3D>, faceSum': Point3D)
    requires i < |cubeVertices| == |isos| && isos[i] == Iso(cubeVertices[i].Value())
    requires faceSum != cubeVertices[i]
    requires Grouping(cubeVertices, isos, i, faces, faceVertices, faceSum.Value())
    modifies cubeVertices[i], faceSum
    ensures faceSum' == faceSum || fresh(faceSum')
    ensures faceSum' != cubeVertices[i]
    ensures Grouping(cubeVertices, isos, i + 1, faces', faceVertices', faceSum'.Value())
    ensures cubeVertices[i].Value() == isos[i]
  {
    GroupingStep(cubeVertices, isos, i, faces, faceVertices, faceSum.Value());
    ConvertToIso(cubeVertices[i]);
    faceVertices' := faceVertices + [cubeVertices[i]];
    if |faceVertices'| == 5 {
      faces' := faces + [Face(faceVertices', Vec3(faceSum.x / 4.0, faceSum.y / 4.0, faceSum.z / 4.0))];
      faceVertices' := [];
      faceSum' := new Point3D(0.0, 0.0, 0.0);
    } else {
      faces' := faces;
      faceSum' := faceSum;
      faceSum.Add(cubeVertices[i]);
    }
  }

  /** Moves the three coordinates of the point to screen space. */
  method MoveToScreen(v: Point3D, cubeDepth: nat, scale: real)
    modifies v
    ensures v.Value() == ScreenPoint(cubeDepth, scale, old(v.Value()))
  {
    v.x := Screen(cubeDepth, scale, v.x);
    v.y := Screen(cubeDepth, scale, v.y);
    v.z := Screen(cubeDepth, scale, v.z);
  }
}
