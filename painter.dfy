/** paintIsoArt: the paint pass over the vertex stream of a scene. */
module Painter {
  import opened PaintLoop
  import opened Vectors
  import opened Projection
  import opened Faces
  import opened DepthSort
  import opened Palette

  /** What a paint pass produces: the strokes in order, or the failure of
      indexing a palette that does not exist. */
  datatype Painting = Painted(strokes: seq<Stroke>) | PaletteUndefined

  /** The paint pass over vertices whose projections are isos: faces
      grouped, depth-sorted, then filled round-robin from the palette; a
      missing palette fails at the first face, so a pass fails exactly
      when colour is on, a lies outside [0, 11) and there is a face; a pass
      that succeeds paints one stroke per face. */
  function Paint(verts: seq<Point3D>, isos: seq<Vec3>, color: bool, parameterA: real): (r: Painting)
    requires |verts| == |isos|
    ensures r.PaletteUndefined? <==> color && !(0.0 <= parameterA < 11.0) && |verts| >= 5
    ensures r.Painted? ==> |r.strokes| == |verts| / 5
  {
    var faces := SortByDepth(GroupFaces(verts, isos));
    match PaletteFor(color, parameterA)
    case Some(palette) => Painted(Colored(faces, palette))
    case None => if |faces| == 0 then Painted([]) else PaletteUndefined
  }

  /** The faces of a run of strokes, in painting order. */
  function FacesOf(strokes: seq<Stroke>): (faces: seq<Face>)
    ensures |faces| == |strokes| && forall k :: 0 <= k < |strokes| ==> faces[k] == strokes[k].face
  {
    seq(|strokes|, k requires 0 <= k < |strokes| => strokes[k].face)
  }

  /** A successful paint pass paints every face of the stream exactly once,
      back to front by centre depth, ties in stream order. */
  lemma PaintedOrder(verts: seq<Point3D>, isos: seq<Vec3>, color: bool, parameterA: real, z: real)
    requires |verts| == |isos|
    requires Paint(verts, isos, color, parameterA).Painted?
    ensures var faces := FacesOf(Paint(verts, isos, color, parameterA).strokes);
            SortedByDepth(faces)
            && multiset(faces) == multiset(GroupFaces(verts, isos))
            && AtDepth(faces, z) == AtDepth(GroupFaces(verts, isos), z)
  {
    var grouped := GroupFaces(verts, isos);
    var sorted := SortByDepth(grouped);
    SortByDepthIsSorted(grouped);
    SortByDepthKeepsFaces(grouped);
    SortByDepthIsStable(grouped, z);
    var strokes := Paint(verts, isos, color, parameterA).strokes;
    var palette := PaletteFor(color, parameterA);
    if palette.None? {
      assert strokes == [];
      assert grouped == [];
    } else {
      assert strokes == Colored(sorted, palette.value);
      assert FacesOf(strokes) == sorted;
    }
  }

  /** A successful paint pass makes one stroke per complete face, and
      fills stroke k with the palette's entry k mod its length. */
  lemma PaintedFills(verts: seq<Point3D>, isos: seq<Vec3>, color: bool, parameterA: real, palette: seq<string>)
    requires |verts| == |isos|
    requires PaletteFor(color, parameterA) == Some(palette)
    ensures var strokes := Paint(verts, isos, color, parameterA).strokes;
            |strokes| == |verts| / 5
            && forall k :: 0 <= k < |strokes| ==> strokes[k].fill == palette[k % |palette|]
  {
  }

  /** paintIsoArt: projects every vertex in place, groups the stream into
      faces of five with the centre of the first four projected points,
      moves every coordinate to screen space, sorts the faces by centre
      depth and fills them round-robin from the palette. */
  method PaintIsoArt(horizontalCubes: nat, cubeDepth: nat, cubeVertices: seq<Point3D>,
                     color: bool, parameterA: real, drawWidth: real)
    returns (painting: Painting)
    requires horizontalCubes + cubeDepth > 0
    requires Distinct(cubeVertices)
    modifies cubeVertices
    ensures Holds(cubeVertices, ScreenAll(cubeDepth, Scale(horizontalCubes, cubeDepth, drawWidth),
                                          IsoAll(old(Values(cubeVertices)))))
    ensures painting == Paint(cubeVertices, IsoAll(old(Values(cubeVertices))), color, parameterA)
  {
    var scale := drawWidth / ((horizontalCubes + cubeDepth) as real * Sqrt3);
    var faces := ProjectAndGroup(cubeDepth, scale, cubeVertices);
    var sorted := SortByDepth(faces);
    var palette := PaletteFor(color, parameterA);
    if palette.None? {
      painting := if |sorted| == 0 then Painted([]) else PaletteUndefined;
    } else {
      var strokes := AssignColors(sorted, palette.value);
      painting := Painted(strokes);
    }
  }
}
