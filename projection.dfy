/** The isometric projection of convertToIso and the screen mapping of
    convertToScreenCoordinates. */
module Projection {
  import opened Vectors

  /** The square roots of 2 and 3 as the shortest decimals that round to
      their double-precision values; the model computes with these reals
      exactly. */
  const Sqrt2: real := 1.4142135623730951
  const Sqrt3: real := 1.7320508075688772

  /** The isometric basis of convertToIso. The projection loses nothing:
      Unproject recovers the point. */
  function Iso(v: Vec3): (r: Vec3)
    ensures Unproject(r) == v
  {
    Vec3(Sqrt3 * v.x + 0.0 * v.y + -Sqrt3 * v.z,
         1.0 * v.x + 2.0 * v.y + 1.0 * v.z,
         Sqrt2 * v.x + -Sqrt2 * v.y + Sqrt2 * v.z)
  }

  /** The inverse of Iso: x - z and x - y + z are read off the first and
      third coordinates, and x + z follows from the second. */
  function Unproject(r: Vec3): Vec3
  {
    var xMinusZ := r.x / Sqrt3;
    var depth := r.z / Sqrt2;
    var xPlusZ := (r.y + 2.0 * depth) / 3.0;
    Vec3((xPlusZ + xMinusZ) / 2.0, (r.y - depth) / 3.0, (xPlusZ - xMinusZ) / 2.0)
  }

  /** The projection is linear: it maps a sum to the sum of the images. */
  lemma IsoOfPlus(a: Vec3, b: Vec3)
    ensures Iso(Plus(a, b)) == Plus(Iso(a), Iso(b))
  {
  }

  /** The projected depth, which the painter sorts by, is sqrt 2 times
      x - y + z; the projected screen x does not depend on y. */
  lemma IsoDepth(v: Vec3, w: Vec3)
    ensures Iso(v).z == Sqrt2 * (v.x - v.y + v.z)
    ensures v.x == w.x && v.z == w.z ==> Iso(v).x == Iso(w).x
  {
  }

  /** Projects the point in place. */
  method ConvertToIso(c: Point3D)
    modifies c
    ensures c.Value() == Iso(old(c.Value()))
  {
    var tempX := Sqrt3 * c.x + 0.0 * c.y + -Sqrt3 * c.z;
    var tempY := 1.0 * c.x + 2.0 * c.y + 1.0 * c.z;
    var tempZ := Sqrt2 * c.x + -Sqrt2 * c.y + Sqrt2 * c.z;
    c.x := tempX;
    c.y := tempY;
    c.z := tempZ;
  }

  function IsoAll(vs: seq<Vec3>): (r: seq<Vec3>)
    ensures |r| == |vs| && forall k :: 0 <= k < |vs| ==> r[k] == Iso(vs[k])
  {
    seq(|vs|, k requires 0 <= k < |vs| => Iso(vs[k]))
  }

  // ---------------------------------------------------------------------
  // Screen coordinates

  /** The scale that makes the projected footprint of a scene of the given
      width and depth span the drawing width: the projected x range, from
      -sqrt 3 times the depth to sqrt 3 times the width, lands exactly on
      [0, drawWidth]. */
  function Scale(horizontalCubes: nat, cubeDepth: nat, drawWidth: real): (r: real)
    requires horizontalCubes + cubeDepth > 0
    ensures Screen(cubeDepth, r, -Sqrt3 * cubeDepth as real) == 0.0
    ensures Screen(cubeDepth, r, Sqrt3 * horizontalCubes as real) == drawWidth
  {
    var span := (horizontalCubes + cubeDepth) as real * Sqrt3;
    assert Sqrt3 * horizontalCubes as real + Sqrt3 * cubeDepth as real == span;
    assert span * (drawWidth / span) == drawWidth;
    drawWidth / span
  }

  /** convertToScreenCoordinates: shift by sqrt 3 times the depth, then
      scale. The shift puts -sqrt 3 * cubeDepth at the left edge; under a
      positive scale, coordinates left of it land left of the edge and
      coordinates right of it land right of the edge. */
  function Screen(cubeDepth: nat, scale: real, x: real): (r: real)
    ensures x == -Sqrt3 * cubeDepth as real ==> r == 0.0
    ensures scale > 0.0 ==> (r > 0.0 <==> x > -Sqrt3 * cubeDepth as real)
    ensures scale > 0.0 ==> (r < 0.0 <==> x < -Sqrt3 * cubeDepth as real)
  {
    (x + Sqrt3 * cubeDepth as real) * scale
  }

  function ScreenPoint(cubeDepth: nat, scale: real, v: Vec3): Vec3
  {
    Vec3(Screen(cubeDepth, scale, v.x), Screen(cubeDepth, scale, v.y), Screen(cubeDepth, scale, v.z))
  }

  function ScreenAll(cubeDepth: nat, scale: real, vs: seq<Vec3>): (r: seq<Vec3>)
    ensures |r| == |vs| && forall k :: 0 <= k < |vs| ==> r[k] == ScreenPoint(cubeDepth, scale, vs[k])
  {
    seq(|vs|, k requires 0 <= k < |vs| => ScreenPoint(cubeDepth, scale, vs[k]))
  }

  /** With a positive scale the screen mapping keeps order. */
  lemma ScreenIsMonotone(cubeDepth: nat, scale: real, x: real, y: real)
    requires scale > 0.0 && x <= y
    ensures Screen(cubeDepth, scale, x) <= Screen(cubeDepth, scale, y)
  {
    var d := Sqrt3 * cubeDepth as real;
    assert (y + d) * scale - (x + d) * scale == (y - x) * scale;
    MulNonNegative(y - x, scale);
  }

}
