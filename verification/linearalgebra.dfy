/**
 * linearalgebra.h: length and normalisation, the rigid transform, the ray and
 * the plane ("Plain" in the source).
 */
module LinearAlgebra {
  import opened Vectors
  import opened MathLib

  function Length2(lib: Lib, v: Vec2): real { lib.sqrt(Dot2(v, v)) }

  /** Multiplies by the reciprocal of the length, as the source does. */
  function Normalized2(lib: Lib, v: Vec2): Vec2 {
    var f := Div(1.0, Length2(lib, v));
    Vec2(v.x * f, v.y * f)
  }

  function Length3(lib: Lib, v: Vec3): real { lib.sqrt(Dot3(v, v)) }

  function Normalized3(lib: Lib, v: Vec3): Vec3 {
    var f := Div(1.0, Length3(lib, v));
    Vec3(v.x * f, v.y * f, v.z * f)
  }

  /** A square root of a positive number is positive. */
  lemma RootPositive(s: real, d: real)
    requires 0.0 <= s && s * s == d && 0.0 < d
    ensures 0.0 < s
  {
    assert s * s != 0.0;
  }

  lemma PositiveProduct(a: real, b: real)
    requires 0.0 < a && 0.0 < b
    ensures 0.0 < a * b
  {
  }

  /**
   * A length is non-negative, squares to the dot product of the vector with
   * itself, and is positive when that dot product is.
   */
  lemma Length2Facts(lib: Lib, v: Vec2)
    requires SqrtLaw(lib)
    ensures 0.0 <= Length2(lib, v)
    ensures Length2(lib, v) * Length2(lib, v) == Dot2(v, v)
    ensures 0.0 < Dot2(v, v) ==> 0.0 < Length2(lib, v)
  {
    assert 0.0 <= v.x * v.x && 0.0 <= v.y * v.y;
    var s := Length2(lib, v);
    assert 0.0 <= s && s * s == Dot2(v, v);
    if 0.0 < Dot2(v, v) {
      RootPositive(s, Dot2(v, v));
    }
  }

  lemma Length3Facts(lib: Lib, v: Vec3)
    requires SqrtLaw(lib)
    ensures 0.0 <= Length3(lib, v)
    ensures Length3(lib, v) * Length3(lib, v) == Dot3(v, v)
    ensures 0.0 < Dot3(v, v) ==> 0.0 < Length3(lib, v)
  {
    assert 0.0 <= v.x * v.x && 0.0 <= v.y * v.y && 0.0 <= v.z * v.z;
    var s := Length3(lib, v);
    assert 0.0 <= s && s * s == Dot3(v, v);
    if 0.0 < Dot3(v, v) {
      RootPositive(s, Dot3(v, v));
    }
  }

  lemma NormalizedIsUnit2(lib: Lib, v: Vec2)
    requires SqrtLaw(lib)
    requires 0.0 < Dot2(v, v)
    ensures Dot2(Normalized2(lib, v), Normalized2(lib, v)) == 1.0
  {
    Length2Facts(lib, v);
    var s := Length2(lib, v);
    var f := Div(1.0, s);
    assert f * s == 1.0;
    var n := Normalized2(lib, v);
    assert Dot2(n, n) == (f * f) * Dot2(v, v);
    assert (f * f) * (s * s) == (f * s) * (f * s);
  }

  /** The root of a square is the non-negative base. */
  lemma RootOfSquare(lib: Lib, x: real)
    requires SqrtLaw(lib)
    requires 0.0 <= x
    ensures lib.sqrt(x * x) == x
  {
    var s := lib.sqrt(x * x);
    assert 0.0 <= s && s * s == x * x;
    assert (s - x) * (s + x) == 0.0;
    ZeroProduct(s - x, s + x);
  }

  lemma ZeroProduct(a: real, b: real)
    requires a * b == 0.0
    ensures a == 0.0 || b == 0.0
  {
  }

  /** A vector of non-zero length normalises to a unit vector. */
  lemma NormalizedIsUnit3(lib: Lib, v: Vec3)
    requires SqrtLaw(lib)
    requires 0.0 < Dot3(v, v)
    ensures Dot3(Normalized3(lib, v), Normalized3(lib, v)) == 1.0
  {
    Length3Facts(lib, v);
    var s := Length3(lib, v);
    var f := Div(1.0, s);
    assert f * s == 1.0;
    var n := Normalized3(lib, v);
    assert Dot3(n, n) == (f * f) * Dot3(v, v);
    assert (f * f) * (s * s) == (f * s) * (f * s);
  }

  // ---------------------------------------------------------------- transform

  datatype EuclideanTransform = EuclideanTransform(rotation: Vec4, translation: Vec3)

  const IdentityRotation: Vec4 := Vec4(0.0, 0.0, 0.0, 1.0)
  const DefaultTransform: EuclideanTransform := EuclideanTransform(IdentityRotation, Zero3)

  /**
   * HasRotation (linearalgebra.h and its camera.h duplicate): false exactly
   * when the rotation is one of the two identity quaternions.
   */
  function HasRotation(t: EuclideanTransform): (r: bool)
    ensures !r <==> t.rotation == IdentityRotation || t.rotation == Vec4(0.0, 0.0, 0.0, -1.0)
  {
    var q := t.rotation;
    if q.x == 0.0 && q.y == 0.0 && q.z == 0.0 && (q.w == 1.0 || q.w == -1.0) then false else true
  }

  // ---------------------------------------------------------------- ray

  datatype Ray = Ray(origin: Vec3, direction: Vec3)

  /** Ray::Point: the point at parameter `t` along the ray. */
  function Point(ray: Ray, t: real): (p: Vec3)
    ensures t == 0.0 ==> p == ray.origin
    ensures Sub3(p, ray.origin) == Scale3(ray.direction, t)
  {
    Vec3(ray.origin.x + ray.direction.x * t,
         ray.origin.y + ray.direction.y * t,
         ray.origin.z + ray.direction.z * t)
  }

  // ---------------------------------------------------------------- plane

  /** A plane, spelled "Plain" in the source: a normal and a scalar `D`. */
  datatype Plain = Plain(normal: Vec3, d: real)

  /**
   * Plain::Create: normalises the normal and stores D = Dot(n, p), where `p`
   * defaults to the origin.
   */
  function CreatePlain(lib: Lib, normal: Vec3, p: Vec3 := Zero3): (pl: Plain)
    ensures pl.normal == Normalized3(lib, normal)
    ensures pl.d == Dot3(pl.normal, p)
  {
    var n := Normalized3(lib, normal);
    Plain(n, Dot3(n, p))
  }

  /** With the default point the stored D is 0, and a non-zero normal becomes a unit one. */
  lemma CreatePlainDefaults(lib: Lib, normal: Vec3)
    requires SqrtLaw(lib)
    ensures CreatePlain(lib, normal).d == 0.0
    ensures 0.0 < Dot3(normal, normal) ==> Dot3(CreatePlain(lib, normal).normal, CreatePlain(lib, normal).normal) == 1.0
  {
    if 0.0 < Dot3(normal, normal) {
      NormalizedIsUnit3(lib, normal);
    }
  }
}
