/** `cross` and `getNormal`: vector arithmetic on three-element arrays,
    stated over the reals. */
module Vectors {
  import opened Layout

  const Zero: Vec3 := Vec3(0.0, 0.0, 0.0)

  /** Component-wise a - b, as getNormal builds its two edges. */
  function Sub(a: Vec3, b: Vec3): Vec3
  {
    Vec3(a.x - b.x, a.y - b.y, a.z - b.z)
  }

  function Neg(a: Vec3): Vec3
  {
    Vec3(-a.x, -a.y, -a.z)
  }

  function Dot(a: Vec3, b: Vec3): real
  {
    a.x * b.x + a.y * b.y + a.z * b.z
  }

  /** `cross(edge1, edge2)`: Nx = UyVz - UzVy, Ny = UzVx - UxVz,
      Nz = UxVy - UyVx. Its properties are the lemmas below, kept out of
      the function's own contract so that the nonlinear facts only enter
      proofs that ask for them. */
  function Cross(u: Vec3, v: Vec3): Vec3
  {
    Vec3(u.y * v.z - u.z * v.y, u.z * v.x - u.x * v.z, u.x * v.y - u.y * v.x)
  }

  /** The cross product is orthogonal to both arguments. */
  lemma CrossOrthogonal(u: Vec3, v: Vec3)
    ensures Dot(Cross(u, v), u) == 0.0 && Dot(Cross(u, v), v) == 0.0
  {
  }

  /** Swapping the arguments of `cross` negates the result. */
  lemma CrossAntisymmetric(u: Vec3, v: Vec3)
    ensures Cross(v, u) == Neg(Cross(u, v))
  {
  }

  /** The cross product of parallel edges (here: equal ones) is zero. */
  lemma CrossSelf(u: Vec3)
    ensures Cross(u, u) == Zero
  {
  }

  /** `getNormal(v1, v2, v3)`: the cross product of the edges v2 - v1 and
      v3 - v1, unnormalised. */
  function GetNormal(v1: Vec3, v2: Vec3, v3: Vec3): Vec3
  {
    Cross(Sub(v2, v1), Sub(v3, v1))
  }

  /** The normal is orthogonal to every edge of the triangle. */
  lemma GetNormalOrthogonal(v1: Vec3, v2: Vec3, v3: Vec3)
    ensures Dot(GetNormal(v1, v2, v3), Sub(v2, v1)) == 0.0
    ensures Dot(GetNormal(v1, v2, v3), Sub(v3, v1)) == 0.0
    ensures Dot(GetNormal(v1, v2, v3), Sub(v3, v2)) == 0.0
  {
    CrossOrthogonal(Sub(v2, v1), Sub(v3, v1));
  }

  /** A degenerate triangle, two of whose vertices coincide, has the zero
      normal. */
  lemma GetNormalDegenerate(v1: Vec3, v2: Vec3, v3: Vec3)
    requires v1 == v2 || v2 == v3 || v1 == v3
    ensures GetNormal(v1, v2, v3) == Zero
  {
    if v2 == v3 {
      CrossSelf(Sub(v2, v1));
    }
  }

  /** The normal does not depend on which vertex the triangle starts
      from, as long as the winding is kept. */
  lemma GetNormalRotation(v1: Vec3, v2: Vec3, v3: Vec3)
    ensures GetNormal(v2, v3, v1) == GetNormal(v1, v2, v3)
  {
  }

  /** Reversing the winding of a triangle flips its normal. */
  lemma GetNormalReversed(v1: Vec3, v2: Vec3, v3: Vec3)
    ensures GetNormal(v1, v3, v2) == Neg(GetNormal(v1, v2, v3))
  {
    CrossAntisymmetric(Sub(v2, v1), Sub(v3, v1));
  }

  /** A triangle lying in a horizontal plane has a vertical normal. */
  lemma GetNormalHorizontal(v1: Vec3, v2: Vec3, v3: Vec3)
    requires v1.y == v2.y == v3.y
    ensures GetNormal(v1, v2, v3).x == 0.0 && GetNormal(v1, v2, v3).z == 0.0
  {
  }
}
