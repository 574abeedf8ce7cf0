/**
 * Three-component vectors over the reals, standing for the simulator's
 * `THREE.Vector3` values, and the numeric primitives (`length`, `atan2`)
 * that the model takes as inputs instead of computing them.
 */
module Vectors {

  datatype Vec3 = Vec3(x: real, y: real, z: real)

  const Zero: Vec3 := Vec3(0.0, 0.0, 0.0)

  function Add(a: Vec3, b: Vec3): Vec3 {
    Vec3(a.x + b.x, a.y + b.y, a.z + b.z)
  }

  function Sub(a: Vec3, b: Vec3): Vec3 {
    Vec3(a.x - b.x, a.y - b.y, a.z - b.z)
  }

  function Scale(v: Vec3, k: real): Vec3 {
    Vec3(v.x * k, v.y * k, v.z * k)
  }

  function Neg(v: Vec3): Vec3 {
    Vec3(-v.x, -v.y, -v.z)
  }

  function Dot(a: Vec3, b: Vec3): real {
    a.x * b.x + a.y * b.y + a.z * b.z
  }

  function Cross(a: Vec3, b: Vec3): Vec3 {
    Vec3(a.y * b.z - a.z * b.y, a.z * b.x - a.x * b.z, a.x * b.y - a.y * b.x)
  }

  /**
   * The floating-point primitives the simulator calls but the model does not
   * compute: the Euclidean `length` of a vector (a square root) and `atan2`.
   */
  datatype Numerics = Numerics(length: Vec3 -> real, atan2: (real, real) -> real)

  /** `length` is the Euclidean norm: non-negative, and its square is `Dot(v, v)`. */
  ghost predicate IsLength(length: Vec3 -> real) {
    forall v :: length(v) >= 0.0 && length(v) * length(v) == Dot(v, v)
  }

  /** `Vector3.normalize`: divide by the length, or by 1 when the length is 0, which leaves `v` as it is. */
  function Normalize(length: Vec3 -> real, v: Vec3): (u: Vec3)
    ensures length(v) == 0.0 ==> u == v
  {
    var l := length(v);
    Scale(v, 1.0 / (if l == 0.0 then 1.0 else l))
  }

  /** Scaling a normalised vector back by its non-zero length recovers it. */
  lemma NormalizeScalesBack(length: Vec3 -> real, v: Vec3)
    requires length(v) != 0.0
    ensures Scale(Normalize(length, v), length(v)) == v
  {
    var l := length(v);
    var c := 1.0 / l;
    assert c * l == 1.0;
    assert v.x * c * l == v.x * (c * l) && v.y * c * l == v.y * (c * l) && v.z * c * l == v.z * (c * l);
  }

  lemma SquareGrows(a: real, b: real)
    requires 0.0 <= a < b
    ensures a * a < b * b
  {
    var ab := a * b;
    assert a * a <= ab;
    assert ab < b * b;
  }

  lemma SquareRootUnique(a: real, b: real)
    requires a >= 0.0 && b >= 0.0 && a * a == b * b
    ensures a == b
  {
    if a < b {
      SquareGrows(a, b);
    } else if b < a {
      SquareGrows(b, a);
    }
  }

  lemma SquareZero(r: real)
    ensures r * r >= 0.0
    ensures r * r == 0.0 <==> r == 0.0
  {
    if r > 0.0 {
      SquareGrows(0.0, r);
    } else if r < 0.0 {
      SquareGrows(0.0, -r);
      assert (-r) * (-r) == r * r;
    }
  }

  lemma DotSelfZero(v: Vec3)
    ensures Dot(v, v) >= 0.0
    ensures Dot(v, v) == 0.0 <==> v == Zero
  {
    SquareZero(v.x);
    SquareZero(v.y);
    SquareZero(v.z);
  }

  /** A vector has length zero exactly when it is the zero vector. */
  lemma LengthZeroIff(length: Vec3 -> real, v: Vec3)
    requires IsLength(length)
    ensures length(v) == 0.0 <==> v == Zero
  {
    DotSelfZero(v);
    var l := length(v);
    assert l >= 0.0 && l * l == Dot(v, v);
    SquareZero(l);
  }

  /** Reversing a vector does not change its length. */
  lemma LengthOfNeg(length: Vec3 -> real, v: Vec3)
    requires IsLength(length)
    ensures length(Neg(v)) == length(v)
  {
    assert Dot(Neg(v), Neg(v)) == Dot(v, v);
    assert length(Neg(v)) * length(Neg(v)) == length(v) * length(v);
    SquareRootUnique(length(Neg(v)), length(v));
  }
}
