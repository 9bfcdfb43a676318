/**
 * context.h: the per-frame context (camera, viewport, pointer ray), the
 * world-to-pixel mapping, the pointer-to-segment hit test and the `Drag`
 * anchor record.
 */
module FrameContext {
  import opened Wrappers
  import opened Vectors
  import opened MathLib
  import opened LinearAlgebra
  import opened Viewport
  import opened CameraControl
  import opened RayIntersection

  datatype Context = Context(camera: Camera, viewport: ViewportState, ray: Option<Ray>)

  /**
   * Context::Begin: takes the frame's camera and viewport; the pointer ray is
   * recast only while the viewport has focus, otherwise the previous frame's
   * ray stays.
   */
  function Begin(lib: Lib, ctx: Context, camera: Camera, viewport: ViewportState): (r: Context)
    ensures r.camera == camera && r.viewport == viewport
    ensures viewport.focus != NoFocus ==> r.ray.Some? && r.ray.value.origin == camera.transform.translation
    ensures viewport.focus != NoFocus ==> r.ray == Some(GetRay(lib, camera, viewport))
    ensures viewport.focus == NoFocus ==> r.ray == ctx.ray
  {
    Context(camera, viewport, if viewport.focus != NoFocus then Some(GetRay(lib, camera, viewport)) else ctx.ray)
  }

  /** The camera and viewport one frame hands to Begin. */
  datatype Frame = Frame(camera: Camera, viewport: ViewportState)

  /** Context::Begin run once per frame, in order. */
  function BeginFrames(lib: Lib, ctx: Context, frames: seq<Frame>): (r: Context)
    ensures |frames| > 0 ==> r.camera == frames[|frames| - 1].camera && r.viewport == frames[|frames| - 1].viewport
    ensures |frames| == 0 ==> r == ctx
  {
    if |frames| == 0 then ctx
    else
      var last := frames[|frames| - 1];
      Begin(lib, BeginFrames(lib, ctx, frames[..|frames| - 1]), last.camera, last.viewport)
  }

  /** Any number of frames without focus keep the ray cast before them. */
  lemma {:induction false} BeginUnfocusedKeepsRay(lib: Lib, ctx: Context, frames: seq<Frame>)
    requires forall k :: 0 <= k < |frames| ==> frames[k].viewport.focus == NoFocus
    ensures BeginFrames(lib, ctx, frames).ray == ctx.ray
  {
    if |frames| > 0 {
      BeginUnfocusedKeepsRay(lib, ctx, frames[..|frames| - 1]);
    }
  }

  /**
   * After a run of frames, the ray is the one cast in the last frame that
   * had focus, however many unfocused frames followed it.
   */
  lemma {:induction false} BeginRayFromLastFocus(lib: Lib, ctx: Context, frames: seq<Frame>, k: nat)
    requires k < |frames| && frames[k].viewport.focus != NoFocus
    requires forall j :: k < j < |frames| ==> frames[j].viewport.focus == NoFocus
    ensures BeginFrames(lib, ctx, frames).ray == Some(GetRay(lib, frames[k].camera, frames[k].viewport))
  {
    if k < |frames| - 1 {
      BeginRayFromLastFocus(lib, ctx, frames[..|frames| - 1], k);
    }
  }

  /** Context::PixelToLength: an unfinished placeholder that ignores both of its arguments. */
  function PixelToLength(ctx: Context, pixel: Pixel, world: Vec3): real {
    0.1
  }

  /** Every pixel count at every world point converts to the same length, 0.1. */
  lemma PixelToLengthIsConstant(ctx: Context, pixel: Pixel, world: Vec3, ctx': Context, pixel': Pixel, world': Vec3)
    ensures PixelToLength(ctx, pixel, world) == PixelToLength(ctx', pixel', world') == 0.1
  {
  }

  /**
   * WorldToViewport (point overload): homogeneous (x, y, z, 1) through the
   * camera's view-projection, then to pixels.
   */
  function WorldToViewport(ctx: Context, v: Vec3): (r: Vec2)
    ensures var c := Combine(Vec4(v.x, v.y, v.z, 1.0), ViewProjection(ctx.camera));
            c.x == 0.0 && c.y == 0.0 ==> r == Vec2(ctx.viewport.viewportWidth / 2.0, ctx.viewport.viewportHeight / 2.0)
  {
    ClipToViewport(ctx.viewport, Combine(Vec4(v.x, v.y, v.z, 1.0), ViewProjection(ctx.camera)))
  }

  /** WorldToViewport (matrix overload): the pixel of the matrix's translation row. */
  function WorldToViewportOfMatrix(ctx: Context, m: Mat4): (r: Vec2)
    ensures r == WorldToViewport(ctx, Xyz(m.r3))
  {
    WorldToViewport(ctx, MatrixPosition(m))
  }

  /**
   * For a matrix whose position row has w = 1, moved by a translation (as
   * the drag moves it), the matrix overload lands on the pixel of the moved
   * position.
   */
  lemma WorldToViewportOfTranslated(ctx: Context, m: Mat4, d: Vec3)
    requires m.r3.w == 1.0
    ensures WorldToViewportOfMatrix(ctx, Mul(m, TranslationMatrix(d))) == WorldToViewport(ctx, Add3(MatrixPosition(m), d))
  {
    MulTranslation(m, d);
    assert Scale3(d, 1.0) == d;
  }

  /** Where along the segment's pixel image the hit `c` sits, as a fraction of its length. */
  function HitFraction(lib: Lib, c0: Vec2, c1: Vec2, c: Vec2): real {
    Div(Length2(lib, Sub2(c, c0)), Length2(lib, Sub2(c1, c0)))
  }

  /** The world point at that fraction of the way from `s` to `e`. */
  function Lerp(s: Vec3, e: Vec3, f: real): Vec3 {
    Add3(s, Scale3(Sub3(e, s), f))
  }

  /**
   * Context::Intersects: projects the segment s-e to pixels, asks the
   * viewport for the pointer's foot on it, maps that foot back to the world
   * segment by length ratio and reports the distance from the camera to it.
   * No ray (the viewport never had focus) means no hit.
   */
  function Intersects(lib: Lib, ctx: Context, s: Vec3, e: Vec3, pixel: Pixel): (r: Option<real>)
    ensures ctx.ray.None? ==> r.None?
    ensures ctx.ray.Some? ==>
              (r.Some? <==> Intersect(lib, ctx.viewport, WorldToViewport(ctx, s), WorldToViewport(ctx, e), pixel).Some?)
  {
    if ctx.ray.None? then None
    else
      var c0 := WorldToViewport(ctx, s);
      var c1 := WorldToViewport(ctx, e);
      match Intersect(lib, ctx.viewport, c0, c1, pixel)
      case None => None
      case Some(c) =>
        var w := Lerp(s, e, HitFraction(lib, c0, c1, c));
        Some(Length3(lib, Sub3(ctx.camera.transform.translation, w)))
  }

  /**
   * A reported hit is the non-negative camera distance to a point of the
   * world segment: the fraction used lies in [0, 1].
   */
  lemma IntersectsOnSegment(lib: Lib, ctx: Context, s: Vec3, e: Vec3, pixel: Pixel)
    requires SqrtLaw(lib)
    requires var c0 := WorldToViewport(ctx, s);
             var c1 := WorldToViewport(ctx, e);
             0.0 < Dot2(Sub2(c1, c0), Sub2(c1, c0))
    requires Intersects(lib, ctx, s, e, pixel).Some?
    ensures var c0 := WorldToViewport(ctx, s);
            var c1 := WorldToViewport(ctx, e);
            var c := Intersect(lib, ctx.viewport, c0, c1, pixel).value;
            var f := HitFraction(lib, c0, c1, c);
            && 0.0 <= f <= 1.0
            && Intersects(lib, ctx, s, e, pixel) == Some(Length3(lib, Sub3(ctx.camera.transform.translation, Lerp(s, e, f))))
            && 0.0 <= Intersects(lib, ctx, s, e, pixel).value
  {
    var c0 := WorldToViewport(ctx, s);
    var c1 := WorldToViewport(ctx, e);
    var c := Intersect(lib, ctx.viewport, c0, c1, pixel).value;
    IntersectOnSegment(lib, ctx.viewport, c0, c1, pixel);
    var p := Vec2(ctx.viewport.mouseX, ctx.viewport.mouseY);
    var ab := Normalized2(lib, Sub2(c1, c0));
    var d := Dot2(Sub2(p, c0), ab);
    var len := Length2(lib, Sub2(c1, c0));
    assert 0.0 <= d <= len;
    NormalizedIsUnit2(lib, Sub2(c1, c0));
    ScaledLength(lib, ab, d);
    assert Sub2(c, c0) == Scale2(ab, d);
    assert Length2(lib, Sub2(c, c0)) == d;
    Length2Facts(lib, Sub2(c1, c0));
    FractionAtMostOne(d, len);
    Length3Facts(lib, Sub3(ctx.camera.transform.translation, Lerp(s, e, HitFraction(lib, c0, c1, c))));
  }

  /** Moving `d >= 0` along a unit direction covers length `d`. */
  lemma ScaledLength(lib: Lib, u: Vec2, d: real)
    requires SqrtLaw(lib)
    requires Dot2(u, u) == 1.0 && 0.0 <= d
    ensures Length2(lib, Scale2(u, d)) == d
  {
    var v := Scale2(u, d);
    assert Dot2(v, v) == (d * d) * Dot2(u, u);
    assert Dot2(v, v) == d * d;
    RootOfSquare(lib, d);
  }

  lemma FractionAtMostOne(d: real, len: real)
    requires 0.0 <= d <= len && 0.0 < len
    ensures 0.0 <= Div(d, len) <= 1.0
  {
    var q := Div(d, len);
    assert q * len == d;
    if q < 0.0 {
      MulLe(len, q, 0.0);
    }
    if 1.0 < q {
      MulLe(len, 1.0, q);
    }
  }

  /**
   * The `Drag` record's constructor: a plane through the matrix's position
   * with the given normal and, when there is a ray, where the as-written
   * plane test of intersects.h puts the ray's hit, in world units and in
   * pixels. That hit lies on the mirror plane Dot(n, x) = -D.
   */
  datatype Drag = Drag(dragPlain: Plain, matrix: Mat4, world: Option<Vec3>, viewport: Option<Vec2>)

  function NewDrag(lib: Lib, ctx: Context, m: Mat4, plainNormal: Vec3): (r: Drag)
    ensures r.matrix == m
    ensures Dot3(r.dragPlain.normal, MatrixPosition(m)) == r.dragPlain.d
    ensures r.world.Some? <==> ctx.ray.Some?
    ensures r.viewport.Some? <==> ctx.ray.Some?
    ensures r.world.Some? ==> r.viewport == Some(WorldToViewport(ctx, r.world.value))
    ensures r.world.Some? && Dot3(r.dragPlain.normal, ctx.ray.value.direction) != 0.0 ==>
              && Dot3(r.dragPlain.normal, r.world.value) + r.dragPlain.d == 0.0
              && Dot3(r.dragPlain.normal, r.world.value) == -Dot3(r.dragPlain.normal, MatrixPosition(m))
  {
    var plain := CreatePlain(lib, plainNormal, MatrixPosition(m));
    match ctx.ray
    case None => Drag(plain, m, None, None)
    case Some(ray) =>
      var world := Point(ray, RayPlaneAsWritten(ray, plain).value);
      Drag(plain, m, Some(world), Some(WorldToViewport(ctx, world)))
  }
}
