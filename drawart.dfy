/** drawArtIso: the whole pipeline of one drawing. A height map is grown
    from the pool, the visible cells of the terrain become cube meshes in
    scan order, and the paint pass projects, groups, sorts and fills them. */
module DrawArt {
  import opened Vectors
  import opened HeightMap
  import opened CubeMesh
  import opened Scene
  import opened Projection
  import opened Faces
  import opened Painter

  /** Columns, rows and layers of the scene, and the starting height of
      every column. */
  const CubeSize := 10

  /** The cells that get a cube in the drawing made from pool. */
  function DrawnCells(pool: seq<real>): (cells: seq<Cell>)
  {
    SceneCells(HeightRows(pool, CubeSize, CubeSize, CubeSize), CubeSize, CubeSize)
  }

  /** The drawing: the height map of the first 100 pool values, the cubes of
      its visible cells (jittered in black and white, with one start cursor
      per cube from starts), and the paint pass over them. Every cube point
      ends at the screen position of its projection, and the paint pass is
      the one of that point stream. */
  method DrawArtIso(pool: seq<real>, starts: seq<nat>, color: bool, parameterA: real, drawWidth: real)
    returns (cubes: seq<Point3D>, painting: Painting)
    requires |DrawnCells(pool)| <= |starts|
    requires !color ==> StartsCover(pool, starts, |DrawnCells(pool)|)
    ensures Distinct(cubes) && forall k :: 0 <= k < |cubes| ==> fresh(cubes[k])
    ensures var points := ScenePoints(DrawnCells(pool), !color, pool, starts, parameterA);
            Holds(cubes, ScreenAll(CubeSize, Scale(CubeSize, CubeSize, drawWidth), IsoAll(points)))
            && painting == Paint(cubes, IsoAll(points), color, parameterA)
  {
    var columnHeight := BuildHeightMap(pool, CubeSize, CubeSize, CubeSize);
    cubes := BuildScene(columnHeight, CubeSize, CubeSize, !color, pool, starts, parameterA);
    ValuesOfHolds(cubes, ScenePoints(DrawnCells(pool), !color, pool, starts, parameterA));
    painting := PaintIsoArt(CubeSize, CubeSize, cubes, color, parameterA, drawWidth);
  }

  /** A drawing that paints at all paints six faces per drawn cube. */
  lemma SixStrokesPerCube(verts: seq<Point3D>, isos: seq<Vec3>, cells: seq<Cell>, color: bool, parameterA: real)
    requires |verts| == |isos| == CubePoints * |cells|
    requires Paint(verts, isos, color, parameterA).Painted?
    ensures |Paint(verts, isos, color, parameterA).strokes| == 6 * |cells|
  {
    var faces := FacesOf(Paint(verts, isos, color, parameterA).strokes);
    PaintedOrder(verts, isos, color, parameterA, 0.0);
    assert |faces| == |multiset(faces)| == |multiset(GroupFaces(verts, isos))|;
  }

  /** The projected depth of a point of an unjittered cube is the depth of
      the template point plus sqrt 2 times i + height + depth of its cell:
      cubes further along every axis lie deeper, so their faces are sorted
      after those of the cells behind them. */
  lemma CubeDepthOffset(c: Cell, pool: seq<real>, randomIndex: nat, parameterA: real, k: nat)
    requires k < CubePoints
    ensures Iso(MeshPoint(CellBase(c), false, pool, randomIndex, parameterA, k)).z
            == Iso(Template[k]).z + Sqrt2 * (c.i + c.height + c.depth) as real
  {
    var b := RenderBase(CellBase(c));
    IsoOfPlus(Template[k], b);
    IsoDepth(b, b);
  }

  /** Without jitter, every point of a cube on a grid of width `cols` and
      depth `rows` lands inside the drawing horizontally: its screen x lies
      in [0, drawWidth]. */
  lemma ScreenXWithinDrawing(cols: nat, rows: nat, drawWidth: real, c: Cell,
                             pool: seq<real>, randomIndex: nat, parameterA: real, k: nat)
    requires c.i < cols && c.depth < rows && k < CubePoints && drawWidth >= 0.0
    ensures var p := MeshPoint(CellBase(c), false, pool, randomIndex, parameterA, k);
            var x := Screen(rows, Scale(cols, rows, drawWidth), Iso(p).x);
            0.0 <= x <= drawWidth
  {
    TemplateInUnitCube(k);
    FootprintWithinDrawing(cols, rows, drawWidth, MeshPoint(CellBase(c), false, pool, randomIndex, parameterA, k));
  }

  /** A point whose x lies in [0, cols] and whose z lies in [0, rows] has its
      projected screen x in [0, drawWidth]. */
  lemma FootprintWithinDrawing(cols: nat, rows: nat, drawWidth: real, p: Vec3)
    requires 0.0 <= p.x <= cols as real && 0.0 <= p.z <= rows as real
    requires cols + rows > 0 && drawWidth >= 0.0
    ensures 0.0 <= Screen(rows, Scale(cols, rows, drawWidth), Iso(p).x) <= drawWidth
  {
    var t := p.x - p.z + rows as real;
    var shifted := Iso(p).x + Sqrt3 * rows as real;
    var scale := Scale(cols, rows, drawWidth);
    assert shifted == Sqrt3 * t;
    ScreenOfShifted(rows, scale, Iso(p).x, shifted);
    ScaledShare(t, (cols + rows) as real, drawWidth, shifted, scale);
  }

  /** The screen value is the shifted coordinate times the scale. */
  lemma ScreenOfShifted(cubeDepth: nat, scale: real, x: real, shifted: real)
    requires shifted == x + Sqrt3 * cubeDepth as real
    ensures Screen(cubeDepth, scale, x) == shifted * scale
  {
  }

  /** sqrt 3 · t, scaled to the drawing, is the share t / span of the width. */
  lemma ScaledShare(t: real, span: real, drawWidth: real, shifted: real, scale: real)
    requires 0.0 <= t <= span && span > 0.0 && drawWidth >= 0.0
    requires shifted == Sqrt3 * t && scale == drawWidth / (span * Sqrt3)
    ensures 0.0 <= shifted * scale <= drawWidth
  {
    var share := t / span;
    assert shifted * scale == share * drawWidth;
    assert 0.0 <= share <= 1.0;
    MulNonNegative(share, drawWidth);
    MulNonNegative(1.0 - share, drawWidth);
  }
}
