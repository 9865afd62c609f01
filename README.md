# Isometric voxel art: a verified model of `IsoUtils`

This project models the isometric art piece of the generative-art
application. One drawing runs in four stages:

- **Height map.** A pool of pseudo-random values in [0, 1) grows a 10 × 10
  height map. Every column starts at height 10. A column may drop by one
  relative to the row behind it, and it never rises above its left
  neighbour.
- **Scene scan.** The scan walks the voxel grid layer by layer, back row to
  front row, column by column. It emits a unit cube for every cell that is
  within its column and not hidden behind both its front and its right
  neighbour.
- **Cube meshes.** Each cube is a 30-point mesh made of six closed faces of
  five points each. The base point's y is negated in place. In black and
  white the mesh is jittered with pool values.
- **Paint pass.** This pass:
  - projects every point to isometric space in place;
  - groups the stream into faces of five, each with the centre of its first
    four projected points;
  - moves every point to screen coordinates;
  - sorts the faces by centre depth;
  - fills them round-robin from a palette that the slider `parameterA`
    chooses.

Modules, in dependency order:

| file | module | models |
|---|---|---|
| `vectors.dfy` | `Vectors` | `Point3D`, a class whose fields `add`/`subtract` update, and its value view `Vec3` |
| `projection.dfy` | `Projection` | `convertToIso`, `convertToScreenCoordinates`, and the paint scale |
| `heightmap.dfy` | `HeightMap` | the height-map nested loops of `drawArtIso` |
| `cubemesh.dfy` | `CubeMesh` | `generateCube`: template, y negation, translation, jitter |
| `scene.dfy` | `Scene` | the occlusion and emission triple loop of `drawArtIso` |
| `faces.dfy` | `Faces` | grouping the stream into faces and computing their centres |
| `depthsort.dfy` | `DepthSort` | the stable sort of faces by centre depth |
| `palette.dfy` | `Palette` | the palette table, the palette choice, and round-robin colours |
| `paintloop.dfy` | `PaintLoop` | the projection and grouping loop of `paintIsoArt` |
| `painter.dfy` | `Painter` | `paintIsoArt` as a whole |
| `drawart.dfy` | `DrawArt` | `drawArtIso` as a whole |

Imperative code stays imperative:

- `Point3D` is a class.
- The height-map loops, the scan loops, the cube builder, the paint loop
  and the colour loop are methods with loop invariants.
- Each method is proved against a specification function, and the
  properties are proved as lemmas about those functions.

## Model

| member | source | states |
|---|---|---|
| Vectors.Plus | src/ArtPieceIso.tsx:21-25 | component-wise sum; subtracting the addend again gives the original back |
| Vectors.Minus | src/ArtPieceIso.tsx:27-31 | component-wise difference; adding the subtrahend again gives the original back |
| Vectors.Point3D.constructor | src/ArtPieceIso.tsx:15-19 | a new point holds the given coordinates |
| Vectors.Point3D.Add | src/ArtPieceIso.tsx:21-25 | the point is moved by the other point's old value, which is also correct when the other point is this point itself |
| Vectors.Point3D.Subtract | src/ArtPieceIso.tsx:27-31 | the point is moved by minus the other point's old value |
| Vectors.AddThenSubtract | src/ArtPieceIso.tsx:21-31 | adding a different point and then subtracting it leaves the point unchanged |
| Projection.Iso | src/ArtPieceIso.tsx:61-70 | the isometric projection loses nothing: `Unproject` recovers the original point from its image |
| Projection.Scale | src/ArtPieceIso.tsx:262-272 | with this scale, the left end of the projected range, x = −sqrt3·cubeDepth, lands on 0 and the right end, x = sqrt3·horizontalCubes, lands on the draw width |
| Projection.Screen | src/ArtPieceIso.tsx:215-222 | the coordinate −sqrt3·cubeDepth maps to the left edge 0; under a positive scale, coordinates above it land above 0 and coordinates below it land below 0 |
| Projection.ConvertToIso | src/ArtPieceIso.tsx:61-70 | the point's new value is the isometric image of its old value: all three coordinates are computed from the old ones, as the source does through temporaries |
| Projection.IsoOfPlus | src/ArtPieceIso.tsx:61-70 | the projection is linear: the image of a sum is the sum of the images |
| Projection.IsoDepth | src/ArtPieceIso.tsx:61-70 | projected depth is sqrt 2 times (x − y + z); screen x does not depend on y |
| Projection.ScreenIsMonotone | src/ArtPieceIso.tsx:215-222 | the screen mapping preserves order for a positive scale |
| HeightMap.Decrements | src/ArtPieceIso.tsx:172 | a cell can drop only when its pool value exists and is below 1; in column 0 it drops iff its pool value exists and is negative |
| HeightMap.Min | src/ArtPieceIso.tsx:176-180 | the result is the smaller of the two heights |
| HeightMap.BuildHeightMap | src/ArtPieceIso.tsx:161-183 | the nested loops produce exactly the specification `HeightRows(pool, rows, cols, start)` |
| HeightMap.FillRow | src/ArtPieceIso.tsx:163-182 | the inner loop builds the next row of the specification from the rows so far and advances the pool cursor by one per column |
| HeightMap.HeightRows | src/ArtPieceIso.tsx:161-183 | the map has `rows` rows of `cols` columns each |
| HeightMap.RowPrefix | src/ArtPieceIso.tsx:165-182 | a partial row built up to column c has c entries |
| HeightMap.RowCursorIsProduct | src/ArtPieceIso.tsx:155-172 | row r starts reading the pool at cursor r · cols |
| HeightMap.RowBetween | src/ArtPieceIso.tsx:165-181 | a row never increases left to right and never exceeds the row behind it; when the row behind does not increase, each cell is at most one below it |
| HeightMap.TerrainStep | src/ArtPieceIso.tsx:163-183 | appending a row that obeys the step rule keeps the terrain invariant |
| HeightMap.TerrainIsMonotone | src/ArtPieceIso.tsx:161-183 | the height map never increases rightward or toward the front, drops at most one per row, and stays within [start − row − 1, start] |
| HeightMap.FirstColumnKeepsStart | src/ArtPieceIso.tsx:171-173 | with pool values in [0, 1), column 0 never drops, so it keeps the starting height in every row |
| HeightMap.RowPrefixIsPrefix | src/ArtPieceIso.tsx:165-182 | building fewer columns gives a prefix of the longer row |
| HeightMap.RowReadsOwnCells | src/ArtPieceIso.tsx:172 | a row depends only on the pool values at its own cursors |
| HeightMap.HeightMapReadsPrefix | src/ArtPieceIso.tsx:155-183 | the map depends only on the first rows · cols pool values |
| HeightMap.SingleCellMap | src/ArtPieceIso.tsx:161-183 | a 1 × 1 map of start 1 stays [[1]] |
| CubeMesh.JitterOffset | src/ArtPieceIso.tsx:137-141 | the jitter offset has no depth component (z is 0) and vanishes at the neutral parameter 5 |
| CubeMesh.Jittered | src/ArtPieceIso.tsx:137-147 | jitter keeps z, is the identity at parameter 5, and moving back against the chosen direction recovers the point |
| CubeMesh.Mesh | src/ArtPieceIso.tsx:125-149 | a cube mesh has 30 points |
| CubeMesh.GenerateCube | src/ArtPieceIso.tsx:72-152 | the base point is negated in y in place; the result is 30 fresh, distinct points holding the template translated by the negated base, jittered when `randomize` is set |
| CubeMesh.PlacePoint | src/ArtPieceIso.tsx:134-148 | one step of the loop: the point moves by the base and, with randomize set, is jittered with the three pool values at the cursor, which advances by three; without randomize the cursor stays |
| CubeMesh.MeshFace | src/ArtPieceIso.tsx:77-119 | a face of the mesh has five points |
| CubeMesh.TemplateFaceIsNamedFace | src/ArtPieceIso.tsx:77-119 | template points 5f..5f+4 are the f-th face: top, front, left, back, right, bottom |
| CubeMesh.NamedFacePlanes | src/ArtPieceIso.tsx:77-119 | each named face lies in the plane its comment names (top y = 1, front z = 0, and so on) |
| CubeMesh.NamedFaceIsSquare | src/ArtPieceIso.tsx:77-119 | each named face is a closed axis-aligned unit square |
| CubeMesh.TemplateFaceIsSquare | src/ArtPieceIso.tsx:77-119 | every template face is a closed unit square whose fifth point repeats its first |
| CubeMesh.TemplateInUnitCube | src/ArtPieceIso.tsx:77-119 | every template point has coordinates in [0, 1] |
| CubeMesh.TranslatedSquare | src/ArtPieceIso.tsx:134 | translating a closed unit square keeps it one |
| CubeMesh.MeshFacesAreSquares | src/ArtPieceIso.tsx:77-134 | without jitter, face f of a mesh is template face f translated by the negated base, hence a closed unit square |
| CubeMesh.NeutralParameterHasNoJitter | src/ArtPieceIso.tsx:122-148 | at parameterA = 5 the jittered mesh equals the plain one |
| CubeMesh.JitterIsBounded | src/ArtPieceIso.tsx:136-148 | with pool values in [0, 1), jitter moves a point by at most abs(parameterA − 5)/20 in x and in y, and never in z |
| CubeMesh.OffsetBound | src/ArtPieceIso.tsx:138-139 | one jitter component is at most abs(parameterA − 5)/20 in size |
| CubeMesh.JitterReadsOwnWindow | src/ArtPieceIso.tsx:136-148 | a jittered cube reads only the 90 pool values from its cursor on, three per point |
| Scene.InFront | src/ArtPieceIso.tsx:196-198 | only a cell behind the front row can have a taller column in front of it |
| Scene.ToTheRight | src/ArtPieceIso.tsx:199-201 | only a cell left of the last column can have a taller column to its right |
| Scene.Occluded | src/ArtPieceIso.tsx:202 | an occluded cell lies neither in the front row nor in the last column |
| Scene.Emitted | src/ArtPieceIso.tsx:203 | an emitted cell is within its column; in the front row and in the last column, a cell is emitted iff it is within its column |
| Scene.ScenePoints | src/ArtPieceIso.tsx:188-210 | the point stream has 30 points per emitted cube |
| Scene.ScenePointsLayout | src/ArtPieceIso.tsx:203-206 | point j of cube k sits at index 30k + j and is point j of the mesh of cell k |
| Scene.ScannedMembers | src/ArtPieceIso.tsx:189-210 | a cell is in the scan up to a position iff it is visible and precedes that position in scan order |
| Scene.SceneCellsMembers | src/ArtPieceIso.tsx:196-203 | emission rule, in both directions: a cell gets a cube iff it lies below the layer count, on the grid, not occluded, and at or below its column height |
| Scene.EdgeCellsAreVisible | src/ArtPieceIso.tsx:196-203 | a cell in the front row or the last column is never occluded, so it is emitted whenever it is within its column |
| Scene.AppendInScanOrder | src/ArtPieceIso.tsx:189-191 | appending a cell that follows every cell of a run keeps the run in scan order |
| Scene.ScannedInScanOrder | src/ArtPieceIso.tsx:189-191 | every partial scan is in strict scan order |
| Scene.SceneCellsInScanOrder | src/ArtPieceIso.tsx:189-191 | emitted cells come in height, then depth, then column order, each at most once |
| Scene.ScannedFits | src/ArtPieceIso.tsx:189-191 | no partial scan holds more cells than the whole scene |
| Scene.AppendCube | src/ArtPieceIso.tsx:204-206 | pushing a cube keeps the earlier points, appends fresh distinct points, and the stream then holds the points of the cells so far plus the new cell |
| Scene.VisitCell | src/ArtPieceIso.tsx:196-207 | one visit extends the emitted cells exactly as the scan specification does and keeps the stream equal to their meshes |
| Scene.BuildScene | src/ArtPieceIso.tsx:188-210 | the triple loop yields fresh, distinct points holding the meshes of the scene's cells, in scan order |
| Scene.SingleCellScene | src/ArtPieceIso.tsx:188-203 | a one-cell grid of height 1, scanned over one layer, yields exactly its ground cell |
| Scene.LoneColumnIsSolid | src/ArtPieceIso.tsx:188-203 | a lone column of value v gets a cube at every scanned layer from 0 up to and including v, and at no other |
| Scene.TwoLayerCellScene | src/ArtPieceIso.tsx:188-203 | scanned over two layers, a one-cell grid of height 1 yields two cubes, at layers 0 and 1 |
| Scene.HiddenCellScene | src/ArtPieceIso.tsx:196-203 | a ground cell with taller columns both in front of it and to its right gets no cube |
| Faces.FaceCenter | src/ArtPieceIso.tsx:281-290 | a face centre, the running sum of the first four points of its run divided by 4, is the mean of those four points |
| Faces.GroupFaces | src/ArtPieceIso.tsx:277-290 | one face per complete run of five vertices, a trailing incomplete run dropped; face k holds vertices 5k..5k+4 and the mean of the projections of the first four |
| Faces.FaceCenterCommutesWithIso | src/ArtPieceIso.tsx:278-290 | the centre of the projected points is the projection of the centre |
| Faces.GroupingStart | src/ArtPieceIso.tsx:274-276 | no faces, an empty run and a zero sum satisfy the grouping invariant at vertex 0 |
| Faces.GroupingStep | src/ArtPieceIso.tsx:279-290 | the fifth vertex of a run closes a face whose centre is the sum divided by 4, and resets the run and the sum; any other vertex extends the run and the sum |
| Faces.GroupingDone | src/ArtPieceIso.tsx:277-307 | after the last vertex, the faces are the `|stream|/5` groups of five consecutive vertices, each with its centre; a trailing incomplete run is dropped |
| DepthSort.Insert | src/ArtPieceIso.tsx:309 | insertion adds exactly one face |
| DepthSort.InsertKeepsFaces | src/ArtPieceIso.tsx:309 | insertion adds the face to the multiset and nothing else |
| DepthSort.InsertKeepsSorted | src/ArtPieceIso.tsx:309 | insertion into a depth-sorted list keeps it sorted |
| DepthSort.AtDepthOfJoin | src/ArtPieceIso.tsx:309 | the faces of one depth in a join are those of each part, in order |
| DepthSort.InsertKeepsTies | src/ArtPieceIso.tsx:309 | insertion places the face after every face of equal depth |
| DepthSort.SortByDepth | src/ArtPieceIso.tsx:309 | sorting keeps the number of faces |
| DepthSort.SortByDepthIsSorted | src/ArtPieceIso.tsx:309 | the sorted faces never decrease in centre depth |
| DepthSort.SortByDepthKeepsFaces | src/ArtPieceIso.tsx:309 | the sorted faces are a permutation of the input |
| DepthSort.SortByDepthIsStable | src/ArtPieceIso.tsx:309 | faces of equal depth keep their input order |
| DepthSort.SortPrefixIsSorted | src/ArtPieceIso.tsx:309 | sorting any prefix gives a depth-sorted list |
| DepthSort.SortPrefixKeepsFaces | src/ArtPieceIso.tsx:309 | sorting a prefix permutes exactly that prefix |
| DepthSort.SortPrefixIsStable | src/ArtPieceIso.tsx:309 | sorting a prefix keeps the order among equal depths |
| Palette.PaletteFor | src/ArtPieceIso.tsx:313-326 | in black and white the palette is white; in colour it is the table entry at floor(a/11 · 6), and there is none exactly when that index is outside the table, that is exactly when a lies outside [0, 11); a palette that exists is non-empty |
| Palette.PaletteIndex | src/ArtPieceIso.tsx:325 | the index floor(a/11 · 6) is within the six palettes iff 0 ≤ parameterA < 11 |
| Palette.SliderPalettes | src/ArtPieceIso.tsx:324-325 | slider values 0..10 choose palettes 0,0,1,1,2,2,3,3,4,4,5 |
| Palette.PalettesAreProper | src/ArtPieceIso.tsx:316-323 | every palette has at least four colours, all distinct |
| Palette.Colored | src/ArtPieceIso.tsx:328-332 | there is one stroke per face |
| Palette.AssignColors | src/ArtPieceIso.tsx:328-332 | the colour loop, whose index wraps modulo the palette length, paints face k with palette entry k mod n |
| Palette.NextModulo | src/ArtPieceIso.tsx:331 | wrapping the index after each step equals taking the step count modulo n |
| Palette.ColoursAlternate | src/ArtPieceIso.tsx:328-332 | with distinct colours, neighbouring faces get different colours, and faces n apart get the same colour |
| PaintLoop.ProjectAndGroup | src/ArtPieceIso.tsx:274-307 | every vertex ends at the screen position of its projection, and the faces are the groups of five of the stream with the centres of their projected points |
| PaintLoop.RunPass | src/ArtPieceIso.tsx:274-307 | given the projection and screen position of every vertex value, the loop leaves each vertex at its screen position and returns the groups of five with their projected centres |
| PaintLoop.PaintVertex | src/ArtPieceIso.tsx:278-306 | one pass keeps the grouping invariant and moves exactly vertex i to its screen position, leaving the others as they were |
| PaintLoop.GroupVertex | src/ArtPieceIso.tsx:278-290 | vertex i is projected in place and grouped as the grouping step says |
| PaintLoop.MoveToScreen | src/ArtPieceIso.tsx:292-306 | all three coordinates are mapped to screen space |
| Painter.PaintIsoArt | src/ArtPieceIso.tsx:253-333 | the vertices end at the screen positions of their projections; the painting is that of the projected stream: sorted faces with round-robin colours, or the undefined-palette failure |
| Painter.Paint | src/ArtPieceIso.tsx:309-332 | the pass fails iff colour is on, parameterA is outside [0, 11), and there is at least one face; a pass that succeeds makes one stroke per complete run of five vertices |
| Painter.PaintedOrder | src/ArtPieceIso.tsx:277-332 | a successful pass paints a depth-sorted permutation of the grouped faces, with faces of equal depth in stream order |
| Painter.PaintedFills | src/ArtPieceIso.tsx:277-332 | a successful pass makes one stroke per complete face and fills stroke k with palette entry k mod n |
| DrawArt.DrawArtIso | src/ArtPieceIso.tsx:154-213 | size 10 throughout; the cubes hold the screen positions of the projected meshes of the visible cells of the height map, jittered in black and white; the painting is that of this stream |
| DrawArt.SixStrokesPerCube | src/ArtPieceIso.tsx:188-212 | a successful drawing paints six faces per emitted cube |
| DrawArt.CubeDepthOffset | src/ArtPieceIso.tsx:61-70 | the projected depth of an unjittered cube point is its template depth plus sqrt 2 · (i + height + depth) |
| DrawArt.ScreenXWithinDrawing | src/ArtPieceIso.tsx:262-272 | without jitter, every point of a cube on a cols × rows grid has its screen x within [0, drawWidth], as the scale comment promises |
| DrawArt.FootprintWithinDrawing | src/ArtPieceIso.tsx:262-272 | a point with x in [0, cols] and z in [0, rows] projects to a screen x in [0, drawWidth] |

## Left out

- Rotation is not part of this model: `rotate`, `rotate_xz/xy/yz`, the `rotate_radians` branch of `generateCube`, `IsoCubeRotate` and the animation. The drawing modelled here never passes an angle.
- `renderIsoPath` and the canvas are not part of this model: clearing, path drawing and `ctx.beginPath`. A stroke records the face and the fill colour it would be drawn with.
- The jitter cursor of `generateCube`, `Math.floor(Math.random() * 99999)`, is randomness. It is the parameter sequence `starts`: cube k reads from `starts[k]`.
- The random pool (`canvas.state.random_pool`) is a parameter. Where it is filled is not part of this model, and none of the modelled files fills it.
- `App.tsx` and `ArtPieceMoire.tsx` are not part of this model.
- Floating point is modelled by exact reals:
  - sqrt 2 and sqrt 3 are the shortest decimals that round to the double values of `Math.sqrt(2)` and `Math.sqrt(3)` (1.4142135623730951 and 1.7320508075688772), not the exact doubles nor the true roots;
  - sums and divisions are exact, with no rounding.
- `Painter.PaintIsoArt`: requires `horizontalCubes + cubeDepth > 0`. The source divides by zero there and produces Infinity/NaN coordinates.
- `CubeMesh.GenerateCube`: when `randomize` is set, requires that the 90 pool values from the cursor exist. The source reads `undefined` past the end and produces NaN coordinates.
- `Scene.AppendCube`: requires the same pool window for its cube when `randomize` is set, for the same reason.
- `Scene.VisitCell`: requires the same pool window (through `StartsCover`) for every cube of the scene when `randomize` is set, for the same reason.
- `Scene.BuildScene`: requires the same pool window (through `StartsCover`) for every cube of the scene when `randomize` is set, for the same reason.
- `DrawArt.DrawArtIso`: requires the same pool window (through `StartsCover`) for every drawn cube in black and white, for the same reason, and one start cursor per drawn cube.
- `HeightMap.BuildHeightMap` does model pool reads past the end: `undefined < x` is false in the source, so the column does not drop.
- `Painter.PaintIsoArt` and `PaintLoop.ProjectAndGroup`: require the vertex objects to be pairwise distinct. The streams built by `generateCube` always are, since every point is a fresh object.
- `Painter.PaintIsoArt` sorts a value sequence of faces (a functional insertion sort). It does not sort the JavaScript array in place; sortedness, permutation and stability are stated, and are what `Array.prototype.sort` guarantees.
- `Painter.Paint`: when the palette index is outside the table, the source reads `palette[0]` on `undefined` and throws at the first face. This is modelled as the `PaletteUndefined` result. With no faces nothing throws.
- The loop bodies of `drawArtIso` and `paintIsoArt` are separate methods: `HeightMap.FillRow` (the inner height-map loop), `CubeMesh.PlacePoint` (the body of the template-point loop of `generateCube`), `Scene.VisitCell`, `Scene.AppendCube`, `PaintLoop.PaintVertex`, `PaintLoop.GroupVertex` and `PaintLoop.MoveToScreen`. `PaintLoop.ProjectAndGroup` is the loop of `paintIsoArt` as its own method, and `PaintLoop.RunPass` holds its `while` loop, given the per-point projections as ghost arguments. Each runs the same statements in the same order as the source.
