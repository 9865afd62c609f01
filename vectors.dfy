/** Three-dimensional points: the value view (Vec3) and the mutable Point3D
    class whose add/subtract update its own fields. */
module Vectors {

  datatype Vec3 = Vec3(x: real, y: real, z: real)

  const Origin := Vec3(0.0, 0.0, 0.0)

  /** Component-wise sum; subtracting b again gives a back. */
  function Plus(a: Vec3, b: Vec3): (r: Vec3)
    ensures Minus(r, b) == a
  {
    Vec3(a.x + b.x, a.y + b.y, a.z + b.z)
  }

  /** Component-wise difference; adding b again gives a back. */
  function Minus(a: Vec3, b: Vec3): (r: Vec3)
    ensures Vec3(r.x + b.x, r.y + b.y, r.z + b.z) == a
  {
    Vec3(a.x - b.x, a.y - b.y, a.z - b.z)
  }

  /** A mutable point, updated in place by Add and Subtract. */
  class Point3D {
    var x: real
    var y: real
    var z: real

    function Value(): Vec3
      reads this
    {
      Vec3(x, y, z)
    }

    constructor (x: real, y: real, z: real)
      ensures Value() == Vec3(x, y, z)
    {
      this.x := x;
      this.y := y;
      this.z := z;
    }

    /** Translates this point by other; other may be this point itself. */
    method Add(other: Point3D)
      modifies this
      ensures Value() == Plus(old(Value()), old(other.Value()))
    {
      x := x + other.x;
      y := y + other.y;
      z := z + other.z;
    }

    /** Translates this point by minus other; other may be this point itself. */
    method Subtract(other: Point3D)
      modifies this
      ensures Value() == Minus(old(Value()), old(other.Value()))
    {
      x := x - other.x;
      y := y - other.y;
      z := z - other.z;
    }
  }

  /** Adding a point and then subtracting it restores the original value,
      as long as the two points are different objects. */
  method AddThenSubtract(p: Point3D, q: Point3D)
    requires p != q
    modifies p
    ensures p.Value() == old(p.Value())
  {
    p.Add(q);
    p.Subtract(q);
  }

  /** The points of ps are pairwise different objects. */
  predicate Distinct(ps: seq<Point3D>)
  {
    forall a, b :: 0 <= a < b < |ps| ==> ps[a] != ps[b]
  }

  /** The points of ps currently hold the values vs, one by one. */
  predicate Holds(ps: seq<Point3D>, vs: seq<Vec3>)
    reads ps
  {
    |ps| == |vs| && forall k :: 0 <= k < |ps| ==> ps[k].Value() == vs[k]
  }

  /** The current values of the points of ps, in order. */
  function Values(ps: seq<Point3D>): (vs: seq<Vec3>)
    reads ps
    ensures Holds(ps, vs)
  {
    seq(|ps|, k requires 0 <= k < |ps| reads ps => ps[k].Value())
  }

  /** Points that hold vs have the values vs. */
  lemma ValuesOfHolds(ps: seq<Point3D>, vs: seq<Vec3>)
    requires Holds(ps, vs)
    ensures Values(ps) == vs
  {
  }

  /** A product of two non-negative reals is non-negative. */
  lemma MulNonNegative(a: real, b: real)
    requires a >= 0.0 && b >= 0.0
    ensures a * b >= 0.0
  {
  }

  /** Two runs of points that hold two runs of values, side by side, hold
      the joined values. */
  lemma HoldsAppend(ps: seq<Point3D>, vs: seq<Vec3>, qs: seq<Point3D>, ws: seq<Vec3>)
    requires Holds(ps, vs) && Holds(qs, ws)
    ensures Holds(ps + qs, vs + ws)
  {
    forall k | 0 <= k < |ps| + |qs|
      ensures (ps + qs)[k].Value() == (vs + ws)[k]
    {
      if k >= |ps| {
        assert (ps + qs)[k] == qs[k - |ps|];
      }
    }
  }
}
