/** The height map of the voxel terrain: a depth-major grid of column
    heights, filled row by row from a pool of random reals. */
module HeightMap {

  /** Whether the cell read with pool cursor k, in column col of cols,
      loses one unit of height. A read past the end of the pool yields
      JavaScript's undefined, and `undefined < x` is false, so such a cell
      keeps its height. */
  predicate Decrements(pool: seq<real>, k: nat, col: nat, cols: nat)
    requires col < cols
    ensures Decrements(pool, k, col, cols) ==> k < |pool| && pool[k] < 1.0
    ensures col == 0 ==> (Decrements(pool, k, col, cols) <==> k < |pool| && pool[k] < 0.0)
  {
    assert col as real / cols as real < 1.0;
    k < |pool| && pool[k] < col as real / cols as real
  }

  function Min(a: int, b: int): (m: int)
    ensures m <= a && m <= b && (m == a || m == b)
  {
    if a <= b then a else b
  }

  /** The heights the next row starts from: the starting height for the
      first row, otherwise the last row built so far. */
  function AboveRow(built: seq<seq<int>>, cols: nat, start: int): seq<int>
  {
    if |built| == 0 then seq(cols, _ => start) else built[|built| - 1]
  }

  /** Every later element is at most every earlier one. */
  predicate NonIncreasing(s: seq<int>)
  {
    forall i, j :: 0 <= i <= j < |s| ==> s[j] <= s[i]
  }

  /** The first c cells of a row whose first cell reads the pool at cursor
      base, computed from the row above. Each cell is its upper neighbour,
      lowered by one when its pool value says so, then clamped to its left
      neighbour. */
  function RowPrefix(pool: seq<real>, base: nat, cols: nat, above: seq<int>, c: nat): (r: seq<int>)
    requires c <= cols == |above|
    ensures |r| == c
  {
    if c == 0 then []
    else
      var left := RowPrefix(pool, base, cols, above, c - 1);
      var lowered := above[c - 1] - (if Decrements(pool, base + c - 1, c - 1, cols) then 1 else 0);
      left + [if c - 1 == 0 then lowered else Min(lowered, left[c - 2])]
  }

  /** The pool cursor of the first cell of row number `row`: one value per
      cell of the rows before it. */
  function RowCursor(row: nat, cols: nat): nat
  {
    if row == 0 then 0 else RowCursor(row - 1, cols) + cols
  }

  /** Cell (row, col) therefore reads the pool at row * cols + col. */
  lemma {:induction false} RowCursorIsProduct(row: nat, cols: nat)
    ensures RowCursor(row, cols) == row * cols
  {
    if row > 0 {
      RowCursorIsProduct(row - 1, cols);
    }
  }

  /** Row number `row` in full. */
  function Row(pool: seq<real>, row: nat, cols: nat, above: seq<int>): seq<int>
    requires cols == |above|
  {
    RowPrefix(pool, RowCursor(row, cols), cols, above, cols)
  }

  predicate Rectangular(h: seq<seq<int>>, cols: nat)
  {
    forall r :: 0 <= r < |h| ==> |h[r]| == cols
  }

  /** The first `rows` rows of the height map. */
  function HeightRows(pool: seq<real>, rows: nat, cols: nat, start: int): (h: seq<seq<int>>)
    ensures |h| == rows && Rectangular(h, cols)
  {
    if rows == 0 then []
    else
      var built := HeightRows(pool, rows - 1, cols, start);
      built + [Row(pool, rows - 1, cols, AboveRow(built, cols, start))]
  }

  /** Fills the grid with nested loops over rows and columns, reading one
      pool value per cell through a cursor that starts at 0. */
  method BuildHeightMap(pool: seq<real>, rows: nat, cols: nat, start: int)
    returns (columnHeight: seq<seq<int>>)
    ensures columnHeight == HeightRows(pool, rows, cols, start)
  {
    var randomIndex := 0;
    columnHeight := [];
    var row := 0;
    while row < rows
      invariant row <= rows
      invariant columnHeight == HeightRows(pool, row, cols, start)
      invariant randomIndex == RowCursor(row, cols)
    {
      var current;
      current, randomIndex := FillRow(pool, columnHeight, row, cols, start, randomIndex);
      columnHeight := columnHeight + [current];
      row := row + 1;
    }
  }

  /** The inner loop of BuildHeightMap: row number `row` from the rows
      built so far, reading the pool from cursor rowBase on. */
  method FillRow(pool: seq<real>, columnHeight: seq<seq<int>>, row: nat, cols: nat, start: int, rowBase: nat)
    returns (current: seq<int>, randomIndex: nat)
    requires |columnHeight| == row && Rectangular(columnHeight, cols)
    ensures current == RowPrefix(pool, rowBase, cols, AboveRow(columnHeight, cols, start), cols)
    ensures randomIndex == rowBase + cols
  {
    current := [];
    randomIndex := rowBase;
    ghost var above := AboveRow(columnHeight, cols, start);
    var col := 0;
    while col < cols
      invariant col <= cols
      invariant current == RowPrefix(pool, rowBase, cols, above, col)
      invariant randomIndex == rowBase + col
    {
      var prevHeight := start;
      if row >= 1 {
        prevHeight := columnHeight[row - 1][col];
      }
      var height := prevHeight;
      ghost var lowered := above[col] - (if Decrements(pool, rowBase + col, col, cols) then 1 else 0);
      if randomIndex < |pool| && pool[randomIndex] < col as real / cols as real {
        height := height - 1;
      }
      assert height == lowered;
      randomIndex := randomIndex + 1;
      if col >= 1 {
        height := Min(height, current[col - 1]);
      }
      RowPrefixStep(pool, rowBase, cols, above, col);
      current := current + [height];
      col := col + 1;
    }
  }

  /** A row descends from left to right, never rises above the row behind
      it, and, when that row descends too, lies at most one unit below it. */
  lemma {:induction false} RowBetween(pool: seq<real>, base: nat, cols: nat, above: seq<int>, c: nat)
    requires c <= cols == |above|
    ensures var r := RowPrefix(pool, base, cols, above, c);
      && NonIncreasing(r)
      && (forall k :: 0 <= k < c ==> r[k] <= above[k])
      && (NonIncreasing(above) ==> forall k :: 0 <= k < c ==> above[k] - 1 <= r[k])
  {
    if c > 0 {
      RowBetween(pool, base, cols, above, c - 1);
    }
  }

  /** One more cell of a row: its upper neighbour, possibly lowered, then
      clamped to the cell on its left. */
  lemma RowPrefixStep(pool: seq<real>, base: nat, cols: nat, above: seq<int>, col: nat)
    requires col < cols == |above|
    ensures var current := RowPrefix(pool, base, cols, above, col);
      var lowered := above[col] - (if Decrements(pool, base + col, col, cols) then 1 else 0);
      RowPrefix(pool, base, cols, above, col + 1)
        == current + [if col == 0 then lowered else Min(lowered, current[col - 1])]
  {
  }

  // ---------------------------------------------------------------------
  // Terrain invariants

  /** Every row descends from left to right. */
  predicate DescendsRightward(h: seq<seq<int>>)
  {
    forall r :: 0 <= r < |h| ==> NonIncreasing(h[r])
  }

  /** Every column descends from the back row 0 toward the front. */
  predicate DescendsFrontward(h: seq<seq<int>>, cols: nat)
    requires Rectangular(h, cols)
  {
    forall r, s, c :: 0 <= r <= s < |h| && 0 <= c < cols ==> h[s][c] <= h[r][c]
  }

  /** Going s - r rows further lowers a column by at most s - r. */
  predicate DropsAtMostOnePerRow(h: seq<seq<int>>, cols: nat)
    requires Rectangular(h, cols)
  {
    forall r, s, c :: 0 <= r <= s < |h| && 0 <= c < cols ==> h[r][c] - (s - r) <= h[s][c]
  }

  /** No cell exceeds the starting height, and row r lies at most r + 1 below it. */
  predicate WithinBounds(h: seq<seq<int>>, cols: nat, start: int)
    requires Rectangular(h, cols)
  {
    forall r, c :: 0 <= r < |h| && 0 <= c < cols ==> start - r - 1 <= h[r][c] <= start
  }

  predicate Terrain(h: seq<seq<int>>, cols: nat, start: int)
  {
    && Rectangular(h, cols)
    && DescendsRightward(h)
    && DescendsFrontward(h, cols)
    && DropsAtMostOnePerRow(h, cols)
    && WithinBounds(h, cols, start)
  }

  /** Appending a row that lies between the row above and one unit below it
      keeps the terrain invariants. */
  lemma TerrainStep(built: seq<seq<int>>, last: seq<int>, cols: nat, start: int)
    requires Terrain(built, cols, start)
    requires |last| == cols && NonIncreasing(last)
    requires var above := AboveRow(built, cols, start);
      forall c :: 0 <= c < cols ==> above[c] - 1 <= last[c] <= above[c]
    ensures Terrain(built + [last], cols, start)
  {
    var h := built + [last];
    var n := |built|;
    var above := AboveRow(built, cols, start);
    forall r, s, c | 0 <= r <= s < |h| && 0 <= c < cols
      ensures h[s][c] <= h[r][c] && h[r][c] - (s - r) <= h[s][c]
    {
      if s == n && r < n {
        assert above[c] == built[n - 1][c];
      }
    }
  }

  /** The generated terrain descends rightward and frontward, drops by at
      most one per row, and stays between start - rows and start. */
  lemma {:induction false} TerrainIsMonotone(pool: seq<real>, rows: nat, cols: nat, start: int)
    ensures Terrain(HeightRows(pool, rows, cols, start), cols, start)
  {
    if rows > 0 {
      TerrainIsMonotone(pool, rows - 1, cols, start);
      var built := HeightRows(pool, rows - 1, cols, start);
      var above := AboveRow(built, cols, start);
      assert NonIncreasing(above);
      RowBetween(pool, RowCursor(rows - 1, cols), cols, above, cols);
      TerrainStep(built, Row(pool, rows - 1, cols, above), cols, start);
    }
  }

  /** With pool values that are never negative, the first column is never
      lowered (its threshold is 0 / cols), so it keeps the starting height. */
  lemma {:induction false} FirstColumnKeepsStart(pool: seq<real>, rows: nat, cols: nat, start: int)
    requires cols > 0
    requires forall k :: 0 <= k < |pool| ==> 0.0 <= pool[k] < 1.0
    ensures forall r :: 0 <= r < rows ==> HeightRows(pool, rows, cols, start)[r][0] == start
  {
    if rows > 0 {
      FirstColumnKeepsStart(pool, rows - 1, cols, start);
      var built := HeightRows(pool, rows - 1, cols, start);
      var above := AboveRow(built, cols, start);
      assert above[0] == start;
      var base := RowCursor(rows - 1, cols);
      assert !Decrements(pool, base, 0, cols);
      assert RowPrefix(pool, base, cols, above, 1) == [start];
      RowPrefixIsPrefix(pool, base, cols, above, 1, cols);
      var h := HeightRows(pool, rows, cols, start);
      assert h == built + [Row(pool, rows - 1, cols, above)];
      assert h[rows - 1][0] == start;
    }
  }

  lemma {:induction false} RowPrefixIsPrefix(pool: seq<real>, base: nat, cols: nat, above: seq<int>, c: nat, d: nat)
    requires c <= d <= cols == |above|
    ensures RowPrefix(pool, base, cols, above, c) == RowPrefix(pool, base, cols, above, d)[..c]
    decreases d
  {
    if c < d {
      RowPrefixIsPrefix(pool, base, cols, above, c, d - 1);
    }
  }

  /** Pools p and q give the same read at cursor k: both undefined, or both the same value. */
  predicate SameDraw(p: seq<real>, q: seq<real>, k: nat)
  {
    (k < |p| <==> k < |q|) && (k < |p| ==> p[k] == q[k])
  }

  /** A row only depends on the pool values its own cells read. */
  lemma {:induction false} RowReadsOwnCells(p: seq<real>, q: seq<real>, base: nat, cols: nat, above: seq<int>, c: nat)
    requires c <= cols == |above|
    requires forall k :: base <= k < base + c ==> SameDraw(p, q, k)
    ensures RowPrefix(p, base, cols, above, c) == RowPrefix(q, base, cols, above, c)
  {
    if c > 0 {
      RowReadsOwnCells(p, q, base, cols, above, c - 1);
      assert SameDraw(p, q, base + c - 1);
    }
  }

  /** The height map reads the pool only at cursors 0 .. rows * cols - 1
      (one per cell), so two pools that agree there give the same map. */
  lemma {:induction false} HeightMapReadsPrefix(p: seq<real>, q: seq<real>, rows: nat, cols: nat, start: int)
    requires |p| >= rows * cols && |q| >= rows * cols
    requires p[..rows * cols] == q[..rows * cols]
    ensures HeightRows(p, rows, cols, start) == HeightRows(q, rows, cols, start)
  {
    if rows > 0 {
      var n := rows * cols;
      var m := RowCursor(rows - 1, cols);
      RowCursorIsProduct(rows - 1, cols);
      assert m + cols == n;
      assert p[..m] == p[..n][..m];
      assert q[..m] == q[..n][..m];
      HeightMapReadsPrefix(p, q, rows - 1, cols, start);
      var built := HeightRows(p, rows - 1, cols, start);
      forall k | m <= k < m + cols
        ensures SameDraw(p, q, k)
      {
        assert p[k] == p[..n][k];
        assert q[k] == q[..n][k];
      }
      RowReadsOwnCells(p, q, m, cols, AboveRow(built, cols, start), cols);
    }
  }

  /** A 1 x 1 map whose single pool value is 1.0 keeps the starting height. */
  lemma SingleCellMap()
    ensures HeightRows([1.0], 1, 1, 1) == [[1]]
  {
    var built := HeightRows([1.0], 0, 1, 1);
    assert built == [];
    assert AboveRow(built, 1, 1) == [1];
    assert !Decrements([1.0], 0, 0, 1);
    assert RowPrefix([1.0], 0, 1, [1], 0) == [];
    assert RowPrefix([1.0], 0, 1, [1], 1) == [1];
  }
}
