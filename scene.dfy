/** The voxel scene: which cells of the height map become cubes (the
    visibility rule of drawArtIso), in which order, and the point stream
    the cube meshes of those cells form. */
module Scene {
  import opened Vectors
  import opened HeightMap
  import opened CubeMesh

  /** A unit cell of the scene: column i, layer height, and row depth (0
      is at the back). Column 0 is at the left: the to-the-right test looks
      at column i + 1, and the projection moves larger i to larger screen x,
      although a comment in the source says that column 0 is at the right. */
  datatype Cell = Cell(i: nat, height: nat, depth: nat)

  /** The cell lies inside a grid of |grid| rows and cols columns. */
  predicate OnGrid(grid: seq<seq<int>>, cols: nat, c: Cell)
  {
    c.depth < |grid| && c.i < cols
  }

  /** The column in front of the cell rises above the cell's layer plus one. */
  predicate InFront(grid: seq<seq<int>>, cols: nat, c: Cell)
    requires Rectangular(grid, cols) && OnGrid(grid, cols, c)
    ensures InFront(grid, cols, c) ==> c.depth < |grid| - 1
  {
    c.depth + 1 < |grid| && grid[c.depth + 1][c.i] > c.height + 1
  }

  /** The column to the right of the cell rises above the cell's layer plus one. */
  predicate ToTheRight(grid: seq<seq<int>>, cols: nat, c: Cell)
    requires Rectangular(grid, cols) && OnGrid(grid, cols, c)
    ensures ToTheRight(grid, cols, c) ==> c.i < cols - 1
  {
    c.i + 1 < |grid[c.depth]| && grid[c.depth][c.i + 1] > c.height + 1
  }

  /** The cell is hidden when something is both in front of it and to its right. */
  predicate Occluded(grid: seq<seq<int>>, cols: nat, c: Cell)
    requires Rectangular(grid, cols) && OnGrid(grid, cols, c)
    ensures Occluded(grid, cols, c) ==> c.depth < |grid| - 1 && c.i < cols - 1
  {
    InFront(grid, cols, c) && ToTheRight(grid, cols, c)
  }

  /** The cell gets a cube: it is not occluded and lies within its column. */
  predicate Emitted(grid: seq<seq<int>>, cols: nat, c: Cell)
    requires Rectangular(grid, cols) && OnGrid(grid, cols, c)
    ensures Emitted(grid, cols, c) ==> c.height <= grid[c.depth][c.i]
    ensures c.depth == |grid| - 1 || c.i == cols - 1 ==>
              (Emitted(grid, cols, c) <==> c.height <= grid[c.depth][c.i])
  {
    !Occluded(grid, cols, c) && c.height <= grid[c.depth][c.i]
  }

  /** The cell lies on the grid and gets a cube. */
  predicate Visible(grid: seq<seq<int>>, cols: nat, c: Cell)
    requires Rectangular(grid, cols)
  {
    OnGrid(grid, cols, c) && Emitted(grid, cols, c)
  }

  /** Scan order: by layer, then row, then column. */
  predicate Precedes(a: Cell, b: Cell)
  {
    a.height < b.height
    || (a.height == b.height && (a.depth < b.depth || (a.depth == b.depth && a.i < b.i)))
  }

  predicate InScanOrder(cells: seq<Cell>)
  {
    forall a, b :: 0 <= a < b < |cells| ==> Precedes(cells[a], cells[b])
  }

  /** A scan position: layer height, row depth, column i; the position
      past the last row of a layer only exists at column 0. */
  predicate Position(grid: seq<seq<int>>, cols: nat, depth: nat, i: nat)
  {
    depth <= |grid| && i <= cols && (depth == |grid| ==> i == 0)
  }

  /** The cells that get a cube among those the scan visits before it
      reaches column i of row depth in layer height, in visiting order. */
  function Scanned(grid: seq<seq<int>>, cols: nat, height: nat, depth: nat, i: nat): seq<Cell>
    requires Rectangular(grid, cols) && Position(grid, cols, depth, i)
    decreases height, depth, i
  {
    if i > 0 then
      var c := Cell(i - 1, height, depth);
      Scanned(grid, cols, height, depth, i - 1) + (if Emitted(grid, cols, c) then [c] else [])
    else if depth > 0 then Scanned(grid, cols, height, depth - 1, cols)
    else if height > 0 then Scanned(grid, cols, height - 1, |grid|, 0)
    else []
  }

  /** The cells that get a cube in the layers below h. */
  function SceneCells(grid: seq<seq<int>>, cols: nat, h: nat): seq<Cell>
    requires Rectangular(grid, cols)
  {
    Scanned(grid, cols, h, 0, 0)
  }

  /** The point a cube for the cell is built from: (i, height, depth). */
  function CellBase(c: Cell): Vec3
  {
    Vec3(c.i as real, c.height as real, c.depth as real)
  }

  /** One jitter start cursor is drawn per cube; each leaves room for its
      cube's pool reads. */
  predicate StartsCover(pool: seq<real>, starts: seq<nat>, n: nat)
  {
    n <= |starts| && forall k :: 0 <= k < n ==> PoolCovers(pool, starts[k])
  }

  /** The meshes of the cells, one after another; cube k is jittered from
      cursor starts[k]. */
  function ScenePoints(cells: seq<Cell>, randomize: bool, pool: seq<real>, starts: seq<nat>, parameterA: real): (points: seq<Vec3>)
    requires |cells| <= |starts|
    requires randomize ==> StartsCover(pool, starts, |cells|)
    ensures |points| == CubePoints * |cells|
  {
    if |cells| == 0 then []
    else
      var k := |cells| - 1;
      ScenePoints(cells[..k], randomize, pool, starts, parameterA)
        + Mesh(CellBase(cells[k]), randomize, pool, starts[k], parameterA)
  }

  /** Cubes appear in the stream in scan order, 30 points each: point j of
      cube k is point j of the mesh of cell k. */
  lemma {:induction false} ScenePointsLayout(cells: seq<Cell>, randomize: bool, pool: seq<real>, starts: seq<nat>, parameterA: real, k: nat, j: nat)
    requires |cells| <= |starts|
    requires randomize ==> StartsCover(pool, starts, |cells|)
    requires k < |cells| && j < CubePoints
    ensures ScenePoints(cells, randomize, pool, starts, parameterA)[CubePoints * k + j]
         == MeshPoint(CellBase(cells[k]), randomize, pool, starts[k], parameterA, j)
  {
    var last := |cells| - 1;
    var front := ScenePoints(cells[..last], randomize, pool, starts, parameterA);
    if k < last {
      ScenePointsLayout(cells[..last], randomize, pool, starts, parameterA, k, j);
    } else {
      assert CubePoints * k + j == |front| + j;
    }
  }

  /** The scan up to a position holds exactly the visible cells that
      precede that position in scan order. */
  lemma {:induction false} ScannedMembers(grid: seq<seq<int>>, cols: nat, height: nat, depth: nat, i: nat, c: Cell)
    requires Rectangular(grid, cols) && Position(grid, cols, depth, i)
    ensures c in Scanned(grid, cols, height, depth, i)
        <==> Visible(grid, cols, c) && Precedes(c, Cell(i, height, depth))
    decreases height, depth, i
  {
    if i > 0 {
      ScannedMembers(grid, cols, height, depth, i - 1, c);
    } else if depth > 0 {
      ScannedMembers(grid, cols, height, depth - 1, cols, c);
    } else if height > 0 {
      ScannedMembers(grid, cols, height - 1, |grid|, 0, c);
    }
  }

  /** The emission rule: a cell gets a cube if and only if it lies on the
      grid below layer h, is not occluded, and lies within its column. */
  lemma SceneCellsMembers(grid: seq<seq<int>>, cols: nat, h: nat, c: Cell)
    requires Rectangular(grid, cols)
    ensures c in SceneCells(grid, cols, h)
        <==> c.height < h && OnGrid(grid, cols, c) && Emitted(grid, cols, c)
  {
    ScannedMembers(grid, cols, h, 0, 0, c);
  }

  /** A cell in the front row or the rightmost column is never occluded, so
      it gets a cube whenever it lies within its column. */
  lemma EdgeCellsAreVisible(grid: seq<seq<int>>, cols: nat, h: nat, c: Cell)
    requires Rectangular(grid, cols)
    requires c.height < h && OnGrid(grid, cols, c)
    requires c.depth == |grid| - 1 || c.i == cols - 1
    requires c.height <= grid[c.depth][c.i]
    ensures c in SceneCells(grid, cols, h)
  {
    SceneCellsMembers(grid, cols, h, c);
  }

  /** A run in scan order stays in scan order when a cell that follows all
      of it is appended. */
  lemma AppendInScanOrder(s: seq<Cell>, c: Cell)
    requires InScanOrder(s)
    requires forall x :: x in s ==> Precedes(x, c)
    ensures InScanOrder(s + [c])
  {
    forall a, b | 0 <= a < b < |s| + 1
      ensures Precedes((s + [c])[a], (s + [c])[b])
    {
      if b == |s| {
        assert s[a] in s;
      }
    }
  }

  lemma {:induction false} ScannedInScanOrder(grid: seq<seq<int>>, cols: nat, height: nat, depth: nat, i: nat)
    requires Rectangular(grid, cols) && Position(grid, cols, depth, i)
    ensures InScanOrder(Scanned(grid, cols, height, depth, i))
    decreases height, depth, i
  {
    if i > 0 {
      var front := Scanned(grid, cols, height, depth, i - 1);
      var c := Cell(i - 1, height, depth);
      ScannedInScanOrder(grid, cols, height, depth, i - 1);
      if Emitted(grid, cols, c) {
        forall x | x in front
          ensures Precedes(x, c)
        {
          ScannedMembers(grid, cols, height, depth, i - 1, x);
        }
        AppendInScanOrder(front, c);
      }
    } else if depth > 0 {
      ScannedInScanOrder(grid, cols, height, depth - 1, cols);
    } else if height > 0 {
      ScannedInScanOrder(grid, cols, height - 1, |grid|, 0);
    }
  }

  /** The scene's cells come in scan order (height, then depth, then
      column), each at most once. */
  lemma SceneCellsInScanOrder(grid: seq<seq<int>>, cols: nat, h: nat)
    requires Rectangular(grid, cols)
    ensures InScanOrder(SceneCells(grid, cols, h))
  {
    ScannedInScanOrder(grid, cols, h, 0, 0);
  }

  lemma {:induction false} RowGrows(grid: seq<seq<int>>, cols: nat, height: nat, depth: nat, i: nat, j: nat)
    requires Rectangular(grid, cols) && depth < |grid| && i <= j <= cols
    ensures |Scanned(grid, cols, height, depth, i)| <= |Scanned(grid, cols, height, depth, j)|
    decreases j - i
  {
    if i < j {
      RowGrows(grid, cols, height, depth, i, j - 1);
    }
  }

  lemma {:induction false} LayerGrows(grid: seq<seq<int>>, cols: nat, height: nat, d: nat, e: nat)
    requires Rectangular(grid, cols) && d <= e <= |grid|
    ensures |Scanned(grid, cols, height, d, 0)| <= |Scanned(grid, cols, height, e, 0)|
    decreases e - d
  {
    if d < e {
      LayerGrows(grid, cols, height, d, e - 1);
      RowGrows(grid, cols, height, e - 1, 0, cols);
    }
  }

  lemma {:induction false} SceneGrows(grid: seq<seq<int>>, cols: nat, h: nat, g: nat)
    requires Rectangular(grid, cols) && h <= g
    ensures |SceneCells(grid, cols, h)| <= |SceneCells(grid, cols, g)|
    decreases g - h
  {
    if h < g {
      SceneGrows(grid, cols, h, g - 1);
      LayerGrows(grid, cols, g - 1, 0, |grid|);
    }
  }

  /** Every scan position inside the first g layers has scanned no more
      cells than the whole scene. */
  lemma ScannedFits(grid: seq<seq<int>>, cols: nat, g: nat, height: nat, depth: nat, i: nat)
    requires Rectangular(grid, cols) && height < g && depth < |grid| && i <= cols
    ensures |Scanned(grid, cols, height, depth, i)| <= |SceneCells(grid, cols, g)|
  {
    RowGrows(grid, cols, height, depth, i, cols);
    LayerGrows(grid, cols, height, depth + 1, |grid|);
    SceneGrows(grid, cols, height + 1, g);
  }

  /** Builds the cube of cell c, jittered from cursor starts[emitted], and
      appends its points to the stream built so far. */
  method AppendCube(cubes: seq<Point3D>, ghost cells: seq<Cell>, c: Cell, randomize: bool,
                    pool: seq<real>, starts: seq<nat>, emitted: nat, parameterA: real)
    returns (more: seq<Point3D>)
    requires emitted == |cells| < |starts|
    requires randomize ==> StartsCover(pool, starts, |cells| + 1)
    requires Distinct(cubes)
    requires Holds(cubes, ScenePoints(cells, randomize, pool, starts, parameterA))
    ensures |cubes| <= |more| && (forall k :: 0 <= k < |cubes| ==> more[k] == cubes[k])
    ensures forall k :: |cubes| <= k < |more| ==> fresh(more[k])
    ensures Distinct(more)
    ensures Holds(more, ScenePoints(cells + [c], randomize, pool, starts, parameterA))
  {
    var base := new Point3D(c.i as real, c.height as real, c.depth as real);
    var cube := GenerateCube(base, randomize, pool, starts[emitted], parameterA);
    HoldsAppend(cubes, ScenePoints(cells, randomize, pool, starts, parameterA),
                cube, Mesh(CellBase(c), randomize, pool, starts[emitted], parameterA));
    assert (cells + [c])[..|cells|] == cells;
    more := cubes + cube;
  }

  /** The scan of drawArtIso: every layer from the ground up, every row
      from the back, every column, emitting the cube of each cell that is
      not occluded and lies within its column, in scan order. */
  method BuildScene(grid: seq<seq<int>>, cols: nat, heights: nat, randomize: bool,
                    pool: seq<real>, starts: seq<nat>, parameterA: real)
    returns (cubes: seq<Point3D>)
    requires Rectangular(grid, cols)
    requires |SceneCells(grid, cols, heights)| <= |starts|
    requires randomize ==> StartsCover(pool, starts, |SceneCells(grid, cols, heights)|)
    ensures forall k :: 0 <= k < |cubes| ==> fresh(cubes[k])
    ensures Distinct(cubes)
    ensures Holds(cubes, ScenePoints(SceneCells(grid, cols, heights), randomize, pool, starts, parameterA))
  {
    cubes := [];
    var emitted: nat := 0;
    ghost var cells: seq<Cell> := [];
    var height: nat := 0;
    while height < heights
      invariant height <= heights
      invariant cells == Scanned(grid, cols, height, 0, 0) && emitted == |cells|
      invariant |cells| <= |SceneCells(grid, cols, heights)|
      invariant forall k :: 0 <= k < |cubes| ==> fresh(cubes[k])
      invariant Distinct(cubes)
      invariant Holds(cubes, ScenePoints(cells, randomize, pool, starts, parameterA))
    {
      var depth: nat := 0;
      while depth < |grid|
        invariant depth <= |grid|
        invariant cells == Scanned(grid, cols, height, depth, 0) && emitted == |cells|
        invariant |cells| <= |SceneCells(grid, cols, heights)|
        invariant forall k :: 0 <= k < |cubes| ==> fresh(cubes[k])
        invariant Distinct(cubes)
        invariant Holds(cubes, ScenePoints(cells, randomize, pool, starts, parameterA))
      {
        var i: nat := 0;
        while i < cols
          invariant i <= cols
          invariant cells == Scanned(grid, cols, height, depth, i) && emitted == |cells|
          invariant |cells| <= |SceneCells(grid, cols, heights)|
          invariant forall k :: 0 <= k < |cubes| ==> fresh(cubes[k])
          invariant Distinct(cubes)
          invariant Holds(cubes, ScenePoints(cells, randomize, pool, starts, parameterA))
        {
          cubes, cells, emitted := VisitCell(grid, cols, heights, height, depth, i, randomize,
                                             pool, starts, parameterA, cubes, cells, emitted);
          i := i + 1;
        }
        depth := depth + 1;
      }
      height := height + 1;
    }
  }

  /** The body of the scan at cell (i, height, depth): when the cell is not
      occluded and lies within its column, its cube is built and appended. */
  method VisitCell(grid: seq<seq<int>>, cols: nat, heights: nat, height: nat, depth: nat, i: nat,
                   randomize: bool, pool: seq<real>, starts: seq<nat>, parameterA: real,
                   cubes: seq<Point3D>, ghost cells: seq<Cell>, emitted: nat)
    returns (more: seq<Point3D>, ghost cells': seq<Cell>, emitted': nat)
    requires Rectangular(grid, cols) && height < heights && depth < |grid| && i < cols
    requires cells == Scanned(grid, cols, height, depth, i) && emitted == |cells|
    requires |cells| <= |SceneCells(grid, cols, heights)| <= |starts|
    requires randomize ==> StartsCover(pool, starts, |SceneCells(grid, cols, heights)|)
    requires Distinct(cubes)
    requires Holds(cubes, ScenePoints(cells, randomize, pool, starts, parameterA))
    ensures cells' == Scanned(grid, cols, height, depth, i + 1) && emitted' == |cells'|
    ensures |cells'| <= |SceneCells(grid, cols, heights)|
    ensures |cubes| <= |more| && (forall k :: 0 <= k < |cubes| ==> more[k] == cubes[k])
    ensures forall k :: |cubes| <= k < |more| ==> fresh(more[k])
    ensures Distinct(more)
    ensures Holds(more, ScenePoints(cells', randomize, pool, starts, parameterA))
  {
    var inFront := depth + 1 < |grid| && grid[depth + 1][i] > height + 1;
    var toTheRight := i + 1 < |grid[depth]| && grid[depth][i + 1] > height + 1;
    var occluded := inFront && toTheRight;
    ScannedFits(grid, cols, heights, height, depth, i + 1);
    more, cells', emitted' := cubes, cells, emitted;
    if !occluded && height <= grid[depth][i] {
      var c := Cell(i, height, depth);
      assert Emitted(grid, cols, c);
      more := AppendCube(cubes, cells, c, randomize, pool, starts, emitted, parameterA);
      cells' := cells + [c];
      emitted' := emitted + 1;
    }
  }

  /** A one-cell grid of height 1 scanned over one layer yields its single cell. */
  lemma SingleCellScene()
    ensures SceneCells([[1]], 1, 1) == [Cell(0, 0, 0)]
  {
    assert Emitted([[1]], 1, Cell(0, 0, 0));
  }

  /** A lone column of value v is solid from the ground up to and including
      layer v: the within-column test is height <= v, not height < v. */
  lemma LoneColumnIsSolid(v: int, h: nat, height: nat)
    ensures Cell(0, height, 0) in SceneCells([[v]], 1, h) <==> height < h && height <= v
  {
    SceneCellsMembers([[v]], 1, h, Cell(0, height, 0));
  }

  /** Scanned over two layers, a one-cell grid of height 1 yields a cube at
      layer 0 and another at layer 1. */
  lemma TwoLayerCellScene()
    ensures SceneCells([[1]], 1, 2) == [Cell(0, 0, 0), Cell(0, 1, 0)]
  {
    assert Emitted([[1]], 1, Cell(0, 0, 0));
    assert Emitted([[1]], 1, Cell(0, 1, 0));
  }

  /** In the grid [[3, 3], [3, 0]] the back-left ground cell has taller
      columns in front of it and to its right, so it gets no cube. */
  lemma HiddenCellScene()
    ensures Cell(0, 0, 0) !in SceneCells([[3, 3], [3, 0]], 2, 4)
  {
    var grid := [[3, 3], [3, 0]];
    assert Occluded(grid, 2, Cell(0, 0, 0));
    SceneCellsMembers(grid, 2, 4, Cell(0, 0, 0));
  }
}
