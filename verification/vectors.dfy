/**
 * Exact real-valued vectors and row-major 4x4 matrices (linearalgebra.h and the
 * parts of DirectXMath that are plain polynomial arithmetic).
 *
 * Points are row vectors multiplied on the LEFT of a matrix, so a matrix's
 * translation lives in row 3, as in DirectXMath.
 */
module Vectors {

  datatype Vec2 = Vec2(x: real, y: real)
  datatype Vec3 = Vec3(x: real, y: real, z: real)
  datatype Vec4 = Vec4(x: real, y: real, z: real, w: real)
  datatype Mat4 = Mat4(r0: Vec4, r1: Vec4, r2: Vec4, r3: Vec4)

  /**
   * Division as the model computes it. The source divides floats and gets an
   * infinity or NaN for a zero divisor; the model returns 0 there instead.
   */
  function Div(a: real, b: real): (q: real)
    ensures b != 0.0 ==> q * b == a
    ensures b == 0.0 ==> q == 0.0
  {
    if b == 0.0 then 0.0 else a / b
  }

  // ---------------------------------------------------------------- 2D

  function Add2(l: Vec2, r: Vec2): Vec2 { Vec2(l.x + r.x, l.y + r.y) }
  function Sub2(l: Vec2, r: Vec2): Vec2 { Vec2(l.x - r.x, l.y - r.y) }
  function Scale2(l: Vec2, f: real): Vec2 { Vec2(l.x * f, l.y * f) }
  /** `operator/`: multiplies by the reciprocal. */
  function DivScalar2(l: Vec2, f: real): Vec2 { Scale2(l, Div(1.0, f)) }
  function Dot2(l: Vec2, r: Vec2): real { l.x * r.x + l.y * r.y }

  // ---------------------------------------------------------------- 3D

  function Add3(l: Vec3, r: Vec3): Vec3 { Vec3(l.x + r.x, l.y + r.y, l.z + r.z) }
  function Neg3(l: Vec3): Vec3 { Vec3(-l.x, -l.y, -l.z) }
  function Sub3(l: Vec3, r: Vec3): Vec3 { Vec3(l.x - r.x, l.y - r.y, l.z - r.z) }
  function Scale3(l: Vec3, f: real): Vec3 { Vec3(l.x * f, l.y * f, l.z * f) }
  function Dot3(l: Vec3, r: Vec3): real { l.x * r.x + l.y * r.y + l.z * r.z }

  const Zero3: Vec3 := Vec3(0.0, 0.0, 0.0)

  /** The cross product: orthogonal to both of its arguments. */
  function Cross(l: Vec3, r: Vec3): (c: Vec3)
    ensures Dot3(c, l) == 0.0
    ensures Dot3(c, r) == 0.0
  {
    Vec3(l.y * r.z - l.z * r.y, l.z * r.x - l.x * r.z, l.x * r.y - l.y * r.x)
  }

  /** Lagrange's identity: |l x r|^2 = |l|^2 |r|^2 - (l . r)^2. */
  lemma Lagrange(l: Vec3, r: Vec3)
    ensures Dot3(Cross(l, r), Cross(l, r)) == Dot3(l, l) * Dot3(r, r) - Dot3(l, r) * Dot3(l, r)
  {
  }

  lemma CrossSelfIsZero(l: Vec3)
    ensures Cross(l, l) == Zero3
  {
  }

  /** The operators are componentwise, so they obey the laws of a vector space. */
  lemma VectorLaws2(a: Vec2, b: Vec2, f: real)
    ensures Sub2(Add2(a, b), b) == a
    ensures Add2(a, b) == Add2(b, a)
    ensures Dot2(a, b) == Dot2(b, a)
    ensures Dot2(Scale2(a, f), b) == f * Dot2(a, b)
  {
  }

  lemma VectorLaws3(a: Vec3, b: Vec3, f: real)
    ensures Sub3(Add3(a, b), b) == a
    ensures Sub3(a, b) == Add3(a, Neg3(b))
    ensures Neg3(a) == Scale3(a, -1.0)
    ensures Add3(a, b) == Add3(b, a)
    ensures Dot3(a, b) == Dot3(b, a)
    ensures Dot3(Scale3(a, f), b) == f * Dot3(a, b)
  {
  }

  // ---------------------------------------------------------------- 4x4

  function Row(m: Mat4, i: nat): Vec4
    requires i < 4
  {
    if i == 0 then m.r0 else if i == 1 then m.r1 else if i == 2 then m.r2 else m.r3
  }

  function Xyz(v: Vec4): Vec3 { Vec3(v.x, v.y, v.z) }

  /** The first three entries of row `index`, read through an XMFLOAT3 cast. */
  function MatrixRow(m: Mat4, index: int): Vec3
    requires 0 <= index < 4
  {
    Xyz(Row(m, index))
  }

  function MatrixAxisX(m: Mat4): Vec3 { MatrixRow(m, 0) }
  function MatrixAxisY(m: Mat4): Vec3 { MatrixRow(m, 1) }
  function MatrixAxisZ(m: Mat4): Vec3 { MatrixRow(m, 2) }
  function MatrixPosition(m: Mat4): Vec3 { MatrixRow(m, 3) }

  /** XMVector4Transform: the row vector `v` times `m`. */
  function Combine(v: Vec4, m: Mat4): Vec4 {
    Vec4(v.x * m.r0.x + v.y * m.r1.x + v.z * m.r2.x + v.w * m.r3.x,
         v.x * m.r0.y + v.y * m.r1.y + v.z * m.r2.y + v.w * m.r3.y,
         v.x * m.r0.z + v.y * m.r1.z + v.z * m.r2.z + v.w * m.r3.z,
         v.x * m.r0.w + v.y * m.r1.w + v.z * m.r2.w + v.w * m.r3.w)
  }

  /** XMVector3Transform: the point (v, 1) times `m`, keeping all four results. */
  function Transform3(v: Vec3, m: Mat4): Vec4 {
    Combine(Vec4(v.x, v.y, v.z, 1.0), m)
  }

  /** The matrix product `a * b`. */
  function Mul(a: Mat4, b: Mat4): Mat4 {
    Mat4(Combine(a.r0, b), Combine(a.r1, b), Combine(a.r2, b), Combine(a.r3, b))
  }

  /** XMMatrixTranslation. */
  function TranslationMatrix(d: Vec3): Mat4 {
    Mat4(Vec4(1.0, 0.0, 0.0, 0.0),
         Vec4(0.0, 1.0, 0.0, 0.0),
         Vec4(0.0, 0.0, 1.0, 0.0),
         Vec4(d.x, d.y, d.z, 1.0))
  }

  const Identity: Mat4 := TranslationMatrix(Zero3)

  /** The row accessors read back what a translation matrix was built from. */
  lemma TranslationMatrixRows(d: Vec3)
    ensures MatrixAxisX(TranslationMatrix(d)) == Vec3(1.0, 0.0, 0.0)
    ensures MatrixAxisY(TranslationMatrix(d)) == Vec3(0.0, 1.0, 0.0)
    ensures MatrixAxisZ(TranslationMatrix(d)) == Vec3(0.0, 0.0, 1.0)
    ensures MatrixPosition(TranslationMatrix(d)) == d
  {
  }

  /** Multiplying by the identity on the right changes nothing. */
  lemma MulIdentity(m: Mat4)
    ensures Mul(m, Identity) == m
  {
  }

  /** One row times a translation matrix: the row moves by `d` scaled by its w entry. */
  lemma CombineTranslation(v: Vec4, d: Vec3)
    ensures Xyz(Combine(v, TranslationMatrix(d))) == Add3(Xyz(v), Scale3(d, v.w))
  {
  }

  /**
   * Post-multiplying by a translation moves each row by `d` scaled by the row's
   * w entry; for an affine matrix (w column 0,0,0,1) it moves only the position.
   */
  lemma MulTranslation(m: Mat4, d: Vec3)
    ensures MatrixAxisX(Mul(m, TranslationMatrix(d))) == Add3(MatrixAxisX(m), Scale3(d, m.r0.w))
    ensures MatrixAxisY(Mul(m, TranslationMatrix(d))) == Add3(MatrixAxisY(m), Scale3(d, m.r1.w))
    ensures MatrixAxisZ(Mul(m, TranslationMatrix(d))) == Add3(MatrixAxisZ(m), Scale3(d, m.r2.w))
    ensures MatrixPosition(Mul(m, TranslationMatrix(d))) == Add3(MatrixPosition(m), Scale3(d, m.r3.w))
  {
    var t := Mul(m, TranslationMatrix(d));
    CombineTranslation(m.r0, d);
    CombineTranslation(m.r1, d);
    CombineTranslation(m.r2, d);
    CombineTranslation(m.r3, d);
    assert MatrixAxisX(t) == Xyz(t.r0);
    assert MatrixAxisY(t) == Xyz(t.r1);
    assert MatrixAxisZ(t) == Xyz(t.r2);
    assert MatrixPosition(t) == Xyz(t.r3);
  }
}
