/**
 * The functions the core borrows from libm and DirectXMath whose bodies are
 * floating-point numerics: square root, trigonometry, quaternion algebra,
 * matrix inversion, the perspective matrix and the ray/triangle test. They are
 * UNINTERPRETED: a `Lib` value supplies one arbitrary total function for each,
 * and the few laws a proof relies on are stated as predicates over it.
 */
module MathLib {
  import opened Wrappers
  import opened Vectors

  datatype Lib = Lib(
    sqrt: real -> real,
    tan: real -> real,
    atan: real -> real,
    atan2: (real, real) -> real,
    /** XMMatrixRotationQuaternion */
    rotationMatrix: Vec4 -> Mat4,
    /** XMQuaternionInverse */
    quaternionInverse: Vec4 -> Vec4,
    /** XMQuaternionMultiply */
    quaternionMultiply: (Vec4, Vec4) -> Vec4,
    /** XMQuaternionRotationAxis */
    quaternionRotationAxis: (Vec3, real) -> Vec4,
    /** XMVector3Rotate */
    rotate: (Vec3, Vec4) -> Vec3,
    /** XMMatrixInverse */
    inverse: Mat4 -> Mat4,
    /** XMMatrixPerspectiveFovRH(fovY, aspect, near, far) */
    perspectiveFovRH: (real, real, real, real) -> Mat4,
    /** TriangleTests::Intersects(origin, direction, v0, v1, v2): the distance when hit */
    triangle: (Vec3, Vec3, Vec3, Vec3, Vec3) -> Option<real>
  )

  /** std::numbers::pi, to the precision of a double. */
  const Pi: real := 3.141592653589793

  /** XMConvertToRadians. */
  function Radians(degrees: real): real { degrees * Pi / 180.0 }

  /** The only law of `sqrt` the proofs use: it is the non-negative square root. */
  ghost predicate SqrtLaw(lib: Lib) {
    forall x: real {:trigger lib.sqrt(x)} :: 0.0 <= x ==> 0.0 <= lib.sqrt(x) && lib.sqrt(x) * lib.sqrt(x) == x
  }
}
