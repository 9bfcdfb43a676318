/**
 * intersects.h: ray/plane and ray/unit-cube intersection.
 */
module RayIntersection {
  import opened Wrappers
  import opened Vectors
  import opened MathLib
  import opened LinearAlgebra
  import opened Nearest

  // ---------------------------------------------------------------- ray/plane

  /**
   * Intersects(Ray, Plain) AS WRITTEN: solves Dot(n, x) + D = 0 along the ray.
   * There is no guard against a ray parallel to the plane, so it always
   * answers.
   */
  function RayPlaneAsWritten(ray: Ray, plain: Plain): (t: Option<real>)
    ensures t.Some?
    ensures Dot3(plain.normal, ray.direction) != 0.0 ==>
              Dot3(plain.normal, Point(ray, t.value)) + plain.d == 0.0
  {
    var num := Dot3(plain.normal, ray.origin) + plain.d;
    var den := Dot3(plain.normal, ray.direction);
    var t := -Div(num, den);
    assert Dot3(plain.normal, Point(ray, t)) == Dot3(plain.normal, ray.origin) + t * den;
    Some(t)
  }

  /**
   * The intersection the planes built by CreatePlain call for: D = Dot(n, p)
   * means the plane is Dot(n, x) = D, so the ray parameter solves
   * Dot(n, x) - D = 0 (the sign the commented-out IntersectPlaneDistance
   * uses). Like the source it always answers.
   */
  function RayPlane(ray: Ray, plain: Plain): (t: Option<real>)
    ensures t.Some?
    ensures Dot3(plain.normal, ray.direction) != 0.0 ==>
              Dot3(plain.normal, Point(ray, t.value)) == plain.d
  {
    var num := Dot3(plain.normal, ray.origin) - plain.d;
    var den := Dot3(plain.normal, ray.direction);
    var t := -Div(num, den);
    assert Dot3(plain.normal, Point(ray, t)) == Dot3(plain.normal, ray.origin) + t * den;
    Some(t)
  }

  /**
   * The as-written intersection with a plane made by CreatePlain(normal, p)
   * lands on the MIRROR plane Dot(n, x) = -Dot(n, p), which is the intended
   * plane only when that plane passes through the origin.
   */
  lemma RayPlaneAsWrittenMirrors(lib: Lib, ray: Ray, normal: Vec3, p: Vec3)
    requires Dot3(CreatePlain(lib, normal, p).normal, ray.direction) != 0.0
    ensures var pl := CreatePlain(lib, normal, p);
            var x := Point(ray, RayPlaneAsWritten(ray, pl).value);
            && Dot3(pl.normal, x) == -Dot3(pl.normal, p)
            && (Dot3(pl.normal, x) == Dot3(pl.normal, p) <==> Dot3(pl.normal, p) == 0.0)
  {
  }

  /** The corrected intersection lands on the plane through `p`. */
  lemma RayPlaneHitsCreatedPlane(lib: Lib, ray: Ray, normal: Vec3, p: Vec3)
    requires Dot3(CreatePlain(lib, normal, p).normal, ray.direction) != 0.0
    ensures var pl := CreatePlain(lib, normal, p);
            Dot3(pl.normal, Point(ray, RayPlane(ray, pl).value)) == Dot3(pl.normal, p)
  {
  }

  /**
   * A concrete instance: the plane z = 1 (normal +z through (0, 0, 1)). Any
   * ray that is not parallel to it, e.g. from (0, 0, 5) straight down, is
   * reported to hit it at height z = -1; the corrected formula gives z = 1.
   */
  lemma MirroredPlaneExample(lib: Lib, ray: Ray)
    requires lib.sqrt(1.0) == 1.0
    requires ray.direction.z != 0.0
    ensures var pl := CreatePlain(lib, Vec3(0.0, 0.0, 1.0), Vec3(0.0, 0.0, 1.0));
            && Point(ray, RayPlaneAsWritten(ray, pl).value).z == -1.0
            && Point(ray, RayPlane(ray, pl).value).z == 1.0
  {
    UnitZPlane(lib);
    UnitZPlaneHits(ray);
  }

  lemma UnitZPlaneHits(ray: Ray)
    requires ray.direction.z != 0.0
    ensures Point(ray, RayPlaneAsWritten(ray, Plain(Vec3(0.0, 0.0, 1.0), 1.0)).value).z == -1.0
    ensures Point(ray, RayPlane(ray, Plain(Vec3(0.0, 0.0, 1.0), 1.0)).value).z == 1.0
  {
  }

  /** CreatePlain keeps the unit normal +z as it is; the plane z = 1 stores D = 1. */
  lemma UnitZPlane(lib: Lib)
    requires lib.sqrt(1.0) == 1.0
    ensures CreatePlain(lib, Vec3(0.0, 0.0, 1.0), Vec3(0.0, 0.0, 1.0)) == Plain(Vec3(0.0, 0.0, 1.0), 1.0)
  {
    var n := Vec3(0.0, 0.0, 1.0);
    assert Length3(lib, n) == 1.0;
    assert Normalized3(lib, n) == n;
  }

  // ---------------------------------------------------------------- ray/cube

  /** The corners of the unit cube centred on the origin, 0-3 at z = +0.5 and 4-7 at z = -0.5. */
  const UnitCube: seq<Vec3> := [
    Vec3(-0.5, -0.5, 0.5), Vec3(0.5, -0.5, 0.5), Vec3(0.5, 0.5, 0.5), Vec3(-0.5, 0.5, 0.5),
    Vec3(-0.5, -0.5, -0.5), Vec3(0.5, -0.5, -0.5), Vec3(0.5, 0.5, -0.5), Vec3(-0.5, 0.5, -0.5)]

  /** Four corner indices of one cube face. */
  datatype Quad = Quad(i0: nat, i1: nat, i2: nat, i3: nat)

  predicate QuadInCube(q: Quad) { q.i0 < 8 && q.i1 < 8 && q.i2 < 8 && q.i3 < 8 }

  /** intersects.h's face table, in the order x+, y+, z+, x-, y-, z-. */
  const TriangleFaces: seq<Quad> := [
    Quad(1, 5, 6, 2), Quad(3, 2, 6, 7), Quad(0, 1, 2, 3),
    Quad(4, 7, 3, 0), Quad(1, 0, 4, 5), Quad(5, 6, 7, 4)]

  /** The unit-cube corners moved by `m` (XMVector3Transform, w dropped). */
  function CubeCorners(m: Mat4): (p: seq<Vec3>)
    ensures |p| == 8
    ensures forall i :: 0 <= i < 8 ==> p[i] == Xyz(Transform3(UnitCube[i], m))
  {
    seq(8, i requires 0 <= i < 8 => Xyz(Transform3(UnitCube[i], m)))
  }

  /** The test of a face's first triangle (i0, i1, i2). */
  function FirstTriangle(lib: Lib, ray: Ray, p: seq<Vec3>, q: Quad): Option<real>
    requires |p| == 8 && QuadInCube(q)
  {
    lib.triangle(ray.origin, ray.direction, p[q.i0], p[q.i1], p[q.i2])
  }

  /** The test of a face's second triangle (i2, i3, i0). */
  function SecondTriangle(lib: Lib, ray: Ray, p: seq<Vec3>, q: Quad): Option<real>
    requires |p| == 8 && QuadInCube(q)
  {
    lib.triangle(ray.origin, ray.direction, p[q.i2], p[q.i3], p[q.i0])
  }

  /**
   * The one distance a face contributes: the second triangle is consulted
   * only when the first one misses.
   */
  function FaceHit(lib: Lib, ray: Ray, p: seq<Vec3>, q: Quad): (h: Option<real>)
    requires |p| == 8 && QuadInCube(q)
    ensures FirstTriangle(lib, ray, p, q).Some? ==> h == FirstTriangle(lib, ray, p, q)
    ensures FirstTriangle(lib, ray, p, q).None? ==> h == SecondTriangle(lib, ray, p, q)
  {
    var first := FirstTriangle(lib, ray, p, q);
    if first.Some? then first else SecondTriangle(lib, ray, p, q)
  }

  function FaceHits(lib: Lib, ray: Ray, m: Mat4): (hs: seq<Option<real>>)
    ensures |hs| == 6
    ensures forall t :: 0 <= t < 6 ==> hs[t] == FaceHit(lib, ray, CubeCorners(m), TriangleFaces[t])
  {
    var p := CubeCorners(m);
    seq(6, t requires 0 <= t < 6 => FaceHit(lib, ray, p, TriangleFaces[t]))
  }

  /**
   * Intersects(Ray, XMMATRIX): the smallest distance over the twelve triangle
   * tests of the transformed unit cube, or none when every test missed.
   */
  function RayCube(lib: Lib, ray: Ray, m: Mat4): (r: Option<real>)
    ensures var p := CubeCorners(m);
            r.None? <==> forall t :: 0 <= t < 6 ==>
              FirstTriangle(lib, ray, p, TriangleFaces[t]).None? && SecondTriangle(lib, ray, p, TriangleFaces[t]).None?
    ensures var hs := FaceHits(lib, ray, m);
            r.Some? ==> && (exists t :: 0 <= t < 6 && hs[t] == r)
                        && (forall t :: 0 <= t < 6 && hs[t].Some? ==> r.value <= hs[t].value)
  {
    var hs := FaceHits(lib, ray, m);
    match FirstMinimum(hs)
    case None => None
    case Some(i) => hs[i]
  }
}
