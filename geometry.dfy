/** Planar vectors over the reals, the optional value used for "no centre body"
    and "no force for this pair", and two facts about squares that let a
    comparison of distances be replaced by a comparison of squared distances. */
module Geometry {

  datatype Option<T> = None | Some(value: T)

  /** A position, velocity or force in the plane. */
  datatype Vec = Vec(x: real, y: real)

  const Zero: Vec := Vec(0.0, 0.0)

  function Plus(a: Vec, b: Vec): Vec { Vec(a.x + b.x, a.y + b.y) }

  function Minus(a: Vec, b: Vec): Vec { Vec(a.x - b.x, a.y - b.y) }

  function Scale(a: Vec, k: real): Vec { Vec(a.x * k, a.y * k) }

  function Dot(a: Vec, b: Vec): real { a.x * b.x + a.y * b.y }

  /** Squared length of a - b, computed as dx * dx + dy * dy. */
  function DistSq(a: Vec, b: Vec): real {
    var d := Minus(a, b);
    d.x * d.x + d.y * d.y
  }

  /** r is the (non-negative) square root of s. */
  predicate IsRoot(r: real, s: real) {
    0.0 <= r && r * r == s
  }

  /** Sum of a sequence of vectors. */
  function Total(s: seq<Vec>): Vec {
    if s == [] then Zero else Plus(Total(s[..|s| - 1]), s[|s| - 1])
  }

  lemma DistSqNonNegative(a: Vec, b: Vec)
    ensures 0.0 <= DistSq(a, b)
  {
    var d := Minus(a, b);
    assert 0.0 <= d.x * d.x;
    assert 0.0 <= d.y * d.y;
  }

  /** Replacing one entry changes the sum by exactly the difference. */
  lemma {:induction false} TotalUpdate(s: seq<Vec>, i: nat, v: Vec)
    requires i < |s|
    ensures Total(s[i := v]) == Plus(Minus(Total(s), s[i]), v)
  {
    var n := |s|;
    var t := s[i := v];
    if i == n - 1 {
      assert t[..n - 1] == s[..n - 1];
    } else {
      assert t[..n - 1] == s[..n - 1][i := v];
      TotalUpdate(s[..n - 1], i, v);
    }
  }

  lemma SquareStrict(a: real, b: real)
    requires 0.0 <= a < b
    ensures a * a < b * b
  {
    calc {
      a * a;
    <=
      a * b;
    <
      b * b;
    }
  }

  /** For non-negative reals, squaring preserves strict order both ways. */
  lemma SquareLess(a: real, b: real)
    requires 0.0 <= a && 0.0 <= b
    ensures a < b <==> a * a < b * b
  {
    if a < b {
      SquareStrict(a, b);
    } else if b < a {
      SquareStrict(b, a);
    }
  }

  lemma SquarePositive(p: real)
    requires p != 0.0
    ensures 0.0 < p * p
  {
    if p < 0.0 {
      SquareStrict(0.0, -p);
      assert (-p) * (-p) == p * p;
    } else {
      SquareStrict(0.0, p);
    }
  }

  /** A square root is zero exactly when its square is. */
  lemma RootZero(r: real, s: real)
    requires IsRoot(r, s)
    ensures r == 0.0 <==> s == 0.0
  {
    if r != 0.0 {
      SquareStrict(0.0, r);
    }
  }

  /** Scaling twice is scaling by the product. */
  lemma ScaleScale(a: Vec, p: real, q: real)
    ensures Scale(Scale(a, p), q) == Scale(a, p * q)
  {
    assert (a.x * p) * q == a.x * (p * q);
    assert (a.y * p) * q == a.y * (p * q);
  }

  /** Projection of a scaled vector on itself, and its squared length. */
  lemma DotScale(a: Vec, k: real)
    ensures Dot(Scale(a, k), a) == k * (a.x * a.x + a.y * a.y)
    ensures Dot(Scale(a, k), Scale(a, k)) == k * k * (a.x * a.x + a.y * a.y)
  {
  }
}
