/** The 30-point mesh of one unit cube: six faces of five points, each face
    closed by repeating its first corner, translated to a grid position and
    optionally jittered with pool values. */
module CubeMesh {
  import opened Vectors

  /** Jitter offsets are divided by this constant. */
  const JitterScale := 20.0

  /** Number of points of one cube mesh, and of points per face. */
  const CubePoints := 30
  const FacePoints := 5

  /** Pool values one jittered cube consumes: three per point. */
  const JitterDraws := 90

  /** The faces of the unit cube, each closed by repeating its first corner. */
  const TopFace: seq<Vec3> :=
    [Vec3(0.0, 1.0, 0.0), Vec3(1.0, 1.0, 0.0), Vec3(1.0, 1.0, 1.0), Vec3(0.0, 1.0, 1.0), Vec3(0.0, 1.0, 0.0)]
  const FrontFace: seq<Vec3> :=
    [Vec3(0.0, 0.0, 0.0), Vec3(1.0, 0.0, 0.0), Vec3(1.0, 1.0, 0.0), Vec3(0.0, 1.0, 0.0), Vec3(0.0, 0.0, 0.0)]
  const LeftFace: seq<Vec3> :=
    [Vec3(0.0, 0.0, 0.0), Vec3(0.0, 0.0, 1.0), Vec3(0.0, 1.0, 1.0), Vec3(0.0, 1.0, 0.0), Vec3(0.0, 0.0, 0.0)]
  const BackFace: seq<Vec3> :=
    [Vec3(0.0, 0.0, 1.0), Vec3(1.0, 0.0, 1.0), Vec3(1.0, 1.0, 1.0), Vec3(0.0, 1.0, 1.0), Vec3(0.0, 0.0, 1.0)]
  const RightFace: seq<Vec3> :=
    [Vec3(1.0, 0.0, 0.0), Vec3(1.0, 0.0, 1.0), Vec3(1.0, 1.0, 1.0), Vec3(1.0, 1.0, 0.0), Vec3(1.0, 0.0, 0.0)]
  const BottomFace: seq<Vec3> :=
    [Vec3(0.0, 0.0, 0.0), Vec3(1.0, 0.0, 0.0), Vec3(1.0, 0.0, 1.0), Vec3(0.0, 0.0, 1.0), Vec3(0.0, 0.0, 0.0)]

  /** The unit cube, face by face: top, front, left, back, right, bottom. */
  const Template: seq<Vec3> := TopFace + FrontFace + LeftFace + BackFace + RightFace + BottomFace

  /** The template faces in order. */
  const TemplateFaces: seq<seq<Vec3>> := [TopFace, FrontFace, LeftFace, BackFace, RightFace, BottomFace]

  /** The base position once its y has been negated: height indices grow
      upward, render space grows downward. */
  function RenderBase(b: Vec3): (r: Vec3)
    ensures r.x == b.x && r.y + b.y == 0.0 && r.z == b.z
  {
    Vec3(b.x, -b.y, b.z)
  }

  /** One jitter component: a pool value times the centred parameter,
      divided by the jitter scale. */
  function Scaled(u: real, parameter: real): real
  {
    u * parameter / JitterScale
  }

  /** The offset built from the pool values at cursors at and at + 1. It
      has no depth component (z is 0), and it vanishes at the neutral
      slider position 5. */
  function JitterOffset(pool: seq<real>, at: nat, parameterA: real): (r: Vec3)
    requires at + 1 < |pool|
    ensures r.z == 0.0
    ensures parameterA == 5.0 ==> r == Origin
  {
    Vec3(Scaled(pool[at], parameterA - 5.0), Scaled(pool[at + 1], parameterA - 5.0), 0.0)
  }

  /** p moved by the offset of cursors at, at + 1, in the direction chosen by
      the pool value at at + 2. */
  function Jittered(p: Vec3, pool: seq<real>, at: nat, parameterA: real): (r: Vec3)
    requires at + 2 < |pool|
    ensures r.z == p.z
    ensures parameterA == 5.0 ==> r == p
    ensures var offset := JitterOffset(pool, at, parameterA);
            (pool[at + 2] > 0.5 ==> Minus(r, offset) == p)
            && (pool[at + 2] <= 0.5 ==> Plus(r, offset) == p)
  {
    if pool[at + 2] > 0.5 then Plus(p, JitterOffset(pool, at, parameterA))
    else Minus(p, JitterOffset(pool, at, parameterA))
  }

  predicate PoolCovers(pool: seq<real>, randomIndex: nat)
  {
    randomIndex + JitterDraws <= |pool|
  }

  /** Point k of the mesh of a cube based at b (before the y negation). */
  function MeshPoint(b: Vec3, randomize: bool, pool: seq<real>, randomIndex: nat, parameterA: real, k: nat): Vec3
    requires k < CubePoints
    requires randomize ==> PoolCovers(pool, randomIndex)
  {
    var placed := Plus(Template[k], RenderBase(b));
    if randomize then Jittered(placed, pool, randomIndex + 3 * k, parameterA) else placed
  }

  function Mesh(b: Vec3, randomize: bool, pool: seq<real>, randomIndex: nat, parameterA: real): (m: seq<Vec3>)
    requires randomize ==> PoolCovers(pool, randomIndex)
    ensures |m| == CubePoints
  {
    seq(CubePoints, k requires 0 <= k < CubePoints => MeshPoint(b, randomize, pool, randomIndex, parameterA, k))
  }

  /** Builds the cube mesh at bottomLeftFront as fresh points. Negates the
      y of bottomLeftFront in place, then translates every template point by
      it and, when randomize is set, jitters each point with three pool
      values read from randomIndex on. */
  method GenerateCube(bottomLeftFront: Point3D, randomize: bool, pool: seq<real>, randomIndex: nat, parameterA: real)
    returns (cube: seq<Point3D>)
    requires randomize ==> PoolCovers(pool, randomIndex)
    modifies bottomLeftFront
    ensures bottomLeftFront.Value() == RenderBase(old(bottomLeftFront.Value()))
    ensures forall k :: 0 <= k < |cube| ==> fresh(cube[k])
    ensures Distinct(cube)
    ensures Holds(cube, Mesh(old(bottomLeftFront.Value()), randomize, pool, randomIndex, parameterA))
  {
    ghost var b := bottomLeftFront.Value();
    cube := [];
    var k := 0;
    while k < CubePoints
      invariant k <= CubePoints && |cube| == k
      invariant forall j :: 0 <= j < k ==> fresh(cube[j])
      invariant Distinct(cube)
      invariant forall j :: 0 <= j < k ==> cube[j].Value() == Template[j]
      invariant bottomLeftFront.Value() == b
    {
      var p := new Point3D(Template[k].x, Template[k].y, Template[k].z);
      cube := cube + [p];
      k := k + 1;
    }

    bottomLeftFront.y := -bottomLeftFront.y;

    var cursor := randomIndex;
    var parameter := parameterA - 5.0;
    k := 0;
    while k < CubePoints
      invariant k <= CubePoints && |cube| == CubePoints
      invariant forall j :: 0 <= j < CubePoints ==> fresh(cube[j])
      invariant Distinct(cube)
      invariant bottomLeftFront.Value() == RenderBase(b)
      invariant randomize ==> cursor == randomIndex + 3 * k
      invariant forall j :: 0 <= j < k ==> cube[j].Value() == MeshPoint(b, randomize, pool, randomIndex, parameterA, j)
      invariant forall j :: k <= j < CubePoints ==> cube[j].Value() == Template[j]
    {
      label Before:
      cursor := PlacePoint(cube[k], bottomLeftFront, randomize, pool, cursor, parameter, parameterA);
      assert cube[k].Value() == MeshPoint(b, randomize, pool, randomIndex, parameterA, k);
      assert forall j :: 0 <= j < CubePoints && j != k ==> cube[j].Value() == old@Before(cube[j].Value());
      k := k + 1;
    }
  }

  /** One step of the loop over the template points: translate p by base
      and, when randomize is set, jitter it with the three pool values from
      cursor on, returning the cursor past them. */
  method PlacePoint(p: Point3D, base: Point3D, randomize: bool, pool: seq<real>, cursor: nat,
                    parameter: real, ghost parameterA: real)
    returns (next: nat)
    requires p != base && parameter == parameterA - 5.0
    requires randomize ==> cursor + 3 <= |pool|
    modifies p
    ensures next == if randomize then cursor + 3 else cursor
    ensures var placed := Plus(old(p.Value()), base.Value());
            p.Value() == if randomize then Jittered(placed, pool, cursor, parameterA) else placed
  {
    next := cursor;
    p.Add(base);
    if randomize {
      var random := new Point3D(Scaled(pool[next], parameter), Scaled(pool[next + 1], parameter), 0.0);
      assert random.Value() == JitterOffset(pool, cursor, parameterA);
      next := next + 2;
      if pool[next] > 0.5 {
        p.Add(random);
      } else {
        p.Subtract(random);
      }
      next := next + 1;
    }
  }

  // ---------------------------------------------------------------------
  // Face shape

  /** Face f of a mesh: its five points. */
  function MeshFace(m: seq<Vec3>, f: nat): (face: seq<Vec3>)
    requires 5 * f + 5 <= |m|
    ensures |face| == FacePoints
  {
    m[5 * f .. 5 * f + 5]
  }

  function Abs(r: real): real
  {
    if r < 0.0 then -r else r
  }

  /** a and b are one unit apart along exactly one axis. */
  predicate UnitStep(a: Vec3, b: Vec3)
  {
    || (Abs(a.x - b.x) == 1.0 && a.y == b.y && a.z == b.z)
    || (a.x == b.x && Abs(a.y - b.y) == 1.0 && a.z == b.z)
    || (a.x == b.x && a.y == b.y && Abs(a.z - b.z) == 1.0)
  }

  /** All five points lie in one plane perpendicular to an axis. */
  predicate AxisPlane(face: seq<Vec3>)
    requires |face| == FacePoints
  {
    || (forall k :: 0 <= k < FacePoints ==> face[k].x == face[0].x)
    || (forall k :: 0 <= k < FacePoints ==> face[k].y == face[0].y)
    || (forall k :: 0 <= k < FacePoints ==> face[k].z == face[0].z)
  }

  /** A closed outline of an axis-aligned unit square: four unit steps
      around distinct diagonals, the fifth point repeating the first. */
  predicate ClosedUnitSquare(face: seq<Vec3>)
  {
    && |face| == FacePoints
    && face[4] == face[0]
    && UnitStep(face[0], face[1]) && UnitStep(face[1], face[2])
    && UnitStep(face[2], face[3]) && UnitStep(face[3], face[0])
    && face[0] != face[2] && face[1] != face[3]
    && AxisPlane(face)
  }

  function Translate(face: seq<Vec3>, t: Vec3): (r: seq<Vec3>)
    ensures |r| == |face|
  {
    seq(|face|, k requires 0 <= k < |face| => Plus(face[k], t))
  }

  /** Face f of the template is the f-th named face. */
  lemma TemplateFaceIsNamedFace(f: nat)
    requires f < 6
    ensures MeshFace(Template, f) == TemplateFaces[f]
  {
    // Template is the left-nested join p5 + BottomFace.
    var p2 := TopFace + FrontFace;
    var p3 := p2 + LeftFace;
    var p4 := p3 + BackFace;
    var p5 := p4 + RightFace;
    var lo, hi := 5 * f, 5 * f + 5;
    if f == 5 {
      SliceOfJoin(p5, BottomFace);
      return;
    }
    SliceOfPrefix(p5, BottomFace, lo, hi);
    if f == 4 {
      SliceOfJoin(p4, RightFace);
      return;
    }
    SliceOfPrefix(p4, RightFace, lo, hi);
    if f == 3 {
      SliceOfJoin(p3, BackFace);
      return;
    }
    SliceOfPrefix(p3, BackFace, lo, hi);
    if f == 2 {
      SliceOfJoin(p2, LeftFace);
      return;
    }
    SliceOfPrefix(p2, LeftFace, lo, hi);
    if f == 1 {
      SliceOfJoin(TopFace, FrontFace);
      return;
    }
    SliceOfPrefix(TopFace, FrontFace, lo, hi);
  }

  /** The second part of a join is the slice after the first. */
  lemma SliceOfJoin<T>(a: seq<T>, b: seq<T>)
    ensures (a + b)[|a| .. |a| + |b|] == b
  {
  }

  /** A slice within the first part of a join is a slice of that part. */
  lemma SliceOfPrefix<T>(a: seq<T>, b: seq<T>, lo: nat, hi: nat)
    requires lo <= hi <= |a|
    ensures (a + b)[lo .. hi] == a[lo .. hi]
  {
  }

  /** Each named face lies in the plane its name says: top y = 1, front
      z = 0, left x = 0, back z = 1, right x = 1, bottom y = 0. */
  lemma NamedFacePlanes()
    ensures forall k :: 0 <= k < FacePoints ==> TopFace[k].y == 1.0
    ensures forall k :: 0 <= k < FacePoints ==> FrontFace[k].z == 0.0
    ensures forall k :: 0 <= k < FacePoints ==> LeftFace[k].x == 0.0
    ensures forall k :: 0 <= k < FacePoints ==> BackFace[k].z == 1.0
    ensures forall k :: 0 <= k < FacePoints ==> RightFace[k].x == 1.0
    ensures forall k :: 0 <= k < FacePoints ==> BottomFace[k].y == 0.0
  {
  }

  /** Template face f is a closed unit square. */
  lemma TemplateFaceIsSquare(f: nat)
    requires f < 6
    ensures ClosedUnitSquare(MeshFace(Template, f))
  {
    TemplateFaceIsNamedFace(f);
    NamedFacePlanes();
    NamedFaceIsSquare(f);
  }

  /** Each named face steps around its square one unit at a time. */
  lemma NamedFaceIsSquare(f: nat)
    requires f < 6
    ensures ClosedUnitSquare(TemplateFaces[f])
  {
    var face := TemplateFaces[f];
    assert UnitStep(face[0], face[1]) && UnitStep(face[1], face[2]);
    assert UnitStep(face[2], face[3]) && UnitStep(face[3], face[0]);
    if f == 0 || f == 5 {
      assert forall k :: 0 <= k < FacePoints ==> face[k].y == face[0].y;
    } else if f == 1 || f == 3 {
      assert forall k :: 0 <= k < FacePoints ==> face[k].z == face[0].z;
    } else {
      assert forall k :: 0 <= k < FacePoints ==> face[k].x == face[0].x;
    }
  }

  /** Every template point lies in the unit cube. */
  lemma TemplateInUnitCube(k: nat)
    requires k < CubePoints
    ensures 0.0 <= Template[k].x <= 1.0 && 0.0 <= Template[k].y <= 1.0 && 0.0 <= Template[k].z <= 1.0
  {
    var f := k / 5;
    TemplateFaceIsNamedFace(f);
    assert Template[k] == TemplateFaces[f][k - 5 * f];
  }

  /** Moving a closed unit square keeps it one. */
  lemma TranslatedSquare(face: seq<Vec3>, t: Vec3)
    requires ClosedUnitSquare(face)
    ensures ClosedUnitSquare(Translate(face, t))
  {
    var r := Translate(face, t);
    assert forall k :: 0 <= k < FacePoints ==> r[k] == Plus(face[k], t);
    if forall k :: 0 <= k < FacePoints ==> face[k].x == face[0].x {
      assert forall k :: 0 <= k < FacePoints ==> r[k].x == r[0].x;
    } else if forall k :: 0 <= k < FacePoints ==> face[k].y == face[0].y {
      assert forall k :: 0 <= k < FacePoints ==> r[k].y == r[0].y;
    } else {
      assert forall k :: 0 <= k < FacePoints ==> r[k].z == r[0].z;
    }
  }

  /** Without jitter, every face of a generated cube is the matching template
      face moved to the render-space base, hence a closed unit square whose
      fifth point repeats its first. */
  lemma MeshFacesAreSquares(b: Vec3, pool: seq<real>, randomIndex: nat, parameterA: real, f: nat)
    requires f < 6
    ensures MeshFace(Mesh(b, false, pool, randomIndex, parameterA), f) == Translate(MeshFace(Template, f), RenderBase(b))
    ensures ClosedUnitSquare(MeshFace(Mesh(b, false, pool, randomIndex, parameterA), f))
  {
    TemplateFaceIsSquare(f);
    TranslatedSquare(MeshFace(Template, f), RenderBase(b));
  }

  // ---------------------------------------------------------------------
  // Jitter

  /** At the neutral parameter 5 the jitter offset is zero, so a jittered
      mesh equals the plain one. */
  lemma NeutralParameterHasNoJitter(b: Vec3, pool: seq<real>, randomIndex: nat)
    requires PoolCovers(pool, randomIndex)
    ensures Mesh(b, true, pool, randomIndex, 5.0) == Mesh(b, false, pool, randomIndex, 5.0)
  {
    forall k | 0 <= k < CubePoints
      ensures MeshPoint(b, true, pool, randomIndex, 5.0, k) == MeshPoint(b, false, pool, randomIndex, 5.0, k)
    {
      assert JitterOffset(pool, randomIndex + 3 * k, 5.0) == Origin;
    }
  }

  /** With pool values in [0, 1), each jittered point lies within
      |parameterA - 5| / 20 of the plain point in x and in y, and keeps its z. */
  lemma JitterIsBounded(b: Vec3, pool: seq<real>, randomIndex: nat, parameterA: real, k: nat)
    requires PoolCovers(pool, randomIndex) && k < CubePoints
    requires forall i :: 0 <= i < |pool| ==> 0.0 <= pool[i] < 1.0
    ensures var jittered := MeshPoint(b, true, pool, randomIndex, parameterA, k);
      var plain := MeshPoint(b, false, pool, randomIndex, parameterA, k);
      && Abs(jittered.x - plain.x) <= Abs(parameterA - 5.0) / JitterScale
      && Abs(jittered.y - plain.y) <= Abs(parameterA - 5.0) / JitterScale
      && jittered.z == plain.z
  {
    var at := randomIndex + 3 * k;
    var d := Abs(parameterA - 5.0);
    OffsetBound(pool[at], parameterA);
    OffsetBound(pool[at + 1], parameterA);
  }

  lemma OffsetBound(u: real, parameterA: real)
    requires 0.0 <= u < 1.0
    ensures Abs(Scaled(u, parameterA - 5.0)) <= Abs(parameterA - 5.0) / JitterScale
  {
    var d := parameterA - 5.0;
    MulNonNegative(u, if d >= 0.0 then d else -d);
    MulNonNegative(1.0 - u, if d >= 0.0 then d else -d);
    assert (1.0 - u) * d == d - u * d;
  }

  /** A jittered cube reads only the 90 pool values from randomIndex on. */
  lemma JitterReadsOwnWindow(b: Vec3, p: seq<real>, q: seq<real>, randomIndex: nat, parameterA: real)
    requires PoolCovers(p, randomIndex) && PoolCovers(q, randomIndex)
    requires p[randomIndex .. randomIndex + JitterDraws] == q[randomIndex .. randomIndex + JitterDraws]
    ensures Mesh(b, true, p, randomIndex, parameterA) == Mesh(b, true, q, randomIndex, parameterA)
  {
    forall j | randomIndex <= j < randomIndex + JitterDraws
      ensures p[j] == q[j]
    {
      assert p[j] == p[randomIndex .. randomIndex + JitterDraws][j - randomIndex];
      assert q[j] == q[randomIndex .. randomIndex + JitterDraws][j - randomIndex];
    }
    forall k | 0 <= k < CubePoints
      ensures MeshPoint(b, true, p, randomIndex, parameterA, k) == MeshPoint(b, true, q, randomIndex, parameterA, k)
    {
      var at := randomIndex + 3 * k;
      assert p[at] == q[at] && p[at + 1] == q[at + 1] && p[at + 2] == q[at + 2];
    }
  }

}
