/**
 * drag/translation.h: the drag handle that moves a matrix within a plane
 * containing its local X axis.
 */
module TranslationDrag {
  import opened Wrappers
  import opened Vectors
  import opened MathLib
  import opened LinearAlgebra
  import opened RayIntersection
  import opened FrameContext
  import opened Drawing

  /**
   * The handle's state: the ray and matrix at drag start, where the matrix's
   * position was (world and pixels), the drag plane, and where the start ray
   * met it (world and pixels).
   */
  datatype Translation = Translation(
    ray: Ray,
    src: Mat4,
    srcWorld: Vec3,
    srcViewport: Vec2,
    plain: Plain,
    plainStart: Vec3,
    plainViewport: Vec2)

  const TranslationLineColor: Color := 0xFF00_88FF
  const MarkerRadius: real := 6.0

  /**
   * The handle for matrix `m` dragged in `plain`, whose start ray `ray` met
   * the plane at `start`; both positions are also kept in pixels.
   */
  function Anchored(ctx: Context, ray: Ray, m: Mat4, plain: Plain, start: Vec3): Translation {
    var srcWorld := MatrixPosition(m);
    Translation(ray, m, srcWorld, WorldToViewport(ctx, srcWorld), plain, start, WorldToViewport(ctx, start))
  }

  /** The start point is where the stored ray meets the stored plane, by translation.h's plane test. */
  predicate StartRecorded(t: Translation) {
    t.plainStart == Point(t.ray, RayPlaneAsWritten(t.ray, t.plain).value)
  }

  /**
   * Translation::Initialize: records the matrix, builds the drag plane
   * through its position with the given normal, and intersects the current
   * ray with it using the plane test of intersects.h as written, so the
   * start point lies on the mirror plane Dot(n, x) = -D rather than on the
   * drag plane. The source asserts that there is a ray.
   */
  function Initialize(lib: Lib, ctx: Context, m: Mat4, normal: Vec3): (t: Translation)
    requires ctx.ray.Some?
    ensures t.ray == ctx.ray.value && t.src == m && t.srcWorld == MatrixPosition(m)
    ensures t.plain.normal == Normalized3(lib, normal)
    ensures Dot3(t.plain.normal, t.srcWorld) == t.plain.d
    ensures Dot3(t.plain.normal, t.ray.direction) != 0.0 ==> Dot3(t.plain.normal, t.plainStart) == -t.plain.d
    ensures t.srcViewport == WorldToViewport(ctx, t.srcWorld)
    ensures t.plainViewport == WorldToViewport(ctx, t.plainStart)
    ensures StartRecorded(t)
  {
    var ray := ctx.ray.value;
    var plain := CreatePlain(lib, normal, MatrixPosition(m));
    Anchored(ctx, ray, m, plain, Point(ray, RayPlaneAsWritten(ray, plain).value))
  }

  /** Initialize with the corrected plane test: the start point lies on the drag plane. */
  function InitializeCorrected(lib: Lib, ctx: Context, m: Mat4, normal: Vec3): (t: Translation)
    requires ctx.ray.Some?
    ensures t.ray == ctx.ray.value && t.src == m && t.srcWorld == MatrixPosition(m)
    ensures t.plain.normal == Normalized3(lib, normal)
    ensures Dot3(t.plain.normal, t.srcWorld) == t.plain.d
    ensures Dot3(t.plain.normal, t.ray.direction) != 0.0 ==> Dot3(t.plain.normal, t.plainStart) == t.plain.d
    ensures t.srcViewport == WorldToViewport(ctx, t.srcWorld)
    ensures t.plainViewport == WorldToViewport(ctx, t.plainStart)
  {
    var ray := ctx.ray.value;
    var plain := CreatePlain(lib, normal, MatrixPosition(m));
    Anchored(ctx, ray, m, plain, Point(ray, RayPlane(ray, plain).value))
  }

  /**
   * The normal LocalX gives the drag plane: (axis x dir) x axis. It is
   * orthogonal to the axis, so the plane contains the axis, and its dot
   * product with the ray direction is |axis x dir|^2, so the ray crosses the
   * plane whenever it is not parallel to the axis.
   */
  function LocalXNormal(axis: Vec3, dir: Vec3): (n: Vec3)
    ensures Dot3(n, axis) == 0.0
    ensures Dot3(n, dir) == Dot3(Cross(axis, dir), Cross(axis, dir))
  {
    var c := Cross(axis, dir);
    assert Dot3(Cross(c, axis), dir) == Dot3(c, c);
    Cross(c, axis)
  }

  /**
   * Translation::LocalX: no handle without a ray; otherwise a handle whose
   * drag plane contains the matrix's local X axis.
   */
  function LocalX(lib: Lib, ctx: Context, m: Mat4): (r: Option<Translation>)
    ensures r.None? <==> ctx.ray.None?
    ensures r.Some? ==> r.value == Initialize(lib, ctx, m, LocalXNormal(MatrixAxisX(m), ctx.ray.value.direction))
    ensures r.Some? ==> Dot3(r.value.plain.normal, MatrixAxisX(m)) == 0.0
  {
    match ctx.ray
    case None => None
    case Some(ray) =>
      var n := LocalXNormal(MatrixAxisX(m), ray.direction);
      NormalizedKeepsOrthogonal(lib, n, MatrixAxisX(m));
      Some(Initialize(lib, ctx, m, n))
  }

  /** LocalX built on InitializeCorrected. */
  function LocalXCorrected(lib: Lib, ctx: Context, m: Mat4): (r: Option<Translation>)
    ensures r.None? <==> ctx.ray.None?
    ensures r.Some? ==> r.value == InitializeCorrected(lib, ctx, m, LocalXNormal(MatrixAxisX(m), ctx.ray.value.direction))
    ensures r.Some? ==> Dot3(r.value.plain.normal, MatrixAxisX(m)) == 0.0
  {
    match ctx.ray
    case None => None
    case Some(ray) =>
      var n := LocalXNormal(MatrixAxisX(m), ray.direction);
      NormalizedKeepsOrthogonal(lib, n, MatrixAxisX(m));
      Some(InitializeCorrected(lib, ctx, m, n))
  }

  lemma NormalizedKeepsOrthogonal(lib: Lib, n: Vec3, a: Vec3)
    requires Dot3(n, a) == 0.0
    ensures Dot3(Normalized3(lib, n), a) == 0.0
  {
    var f := Div(1.0, Length3(lib, n));
    assert Dot3(Normalized3(lib, n), a) == f * Dot3(n, a);
  }

  /**
   * The unit LocalX normal points along the ray: a ray that is not parallel
   * to a non-degenerate axis always crosses the LocalX plane.
   */
  lemma LocalXNormalFacesRay(lib: Lib, axis: Vec3, dir: Vec3)
    requires SqrtLaw(lib)
    requires 0.0 < Dot3(axis, axis)
    requires 0.0 < Dot3(Cross(axis, dir), Cross(axis, dir))
    ensures 0.0 < Dot3(Normalized3(lib, LocalXNormal(axis, dir)), dir)
  {
    var c := Cross(axis, dir);
    var n := LocalXNormal(axis, dir);
    assert n == Cross(c, axis);
    Lagrange(c, axis);
    PositiveProduct(Dot3(c, c), Dot3(axis, axis));
    NormalizedKeepsSign(lib, n, dir);
  }

  /**
   * A LocalX handle's plane is crossed by its start ray whenever that ray is
   * not parallel to the X axis, and the recorded start point then lies on
   * the mirror plane Dot(n, x) = -D, which is the drag plane only when the
   * matrix's position is on the plane through the origin.
   */
  lemma LocalXStartOnMirrorPlane(lib: Lib, ctx: Context, m: Mat4)
    requires SqrtLaw(lib)
    requires ctx.ray.Some?
    requires 0.0 < Dot3(MatrixAxisX(m), MatrixAxisX(m))
    requires 0.0 < Dot3(Cross(MatrixAxisX(m), ctx.ray.value.direction), Cross(MatrixAxisX(m), ctx.ray.value.direction))
    ensures var t := LocalX(lib, ctx, m).value;
            && Dot3(t.plain.normal, t.ray.direction) > 0.0
            && Dot3(t.plain.normal, t.plainStart) == -t.plain.d
            && (Dot3(t.plain.normal, t.plainStart) == t.plain.d <==> Dot3(t.plain.normal, MatrixPosition(m)) == 0.0)
  {
    LocalXNormalFacesRay(lib, MatrixAxisX(m), ctx.ray.value.direction);
  }

  /** With the corrected plane test the recorded start point lies on the drag plane. */
  lemma LocalXCorrectedStartOnPlane(lib: Lib, ctx: Context, m: Mat4)
    requires SqrtLaw(lib)
    requires ctx.ray.Some?
    requires 0.0 < Dot3(MatrixAxisX(m), MatrixAxisX(m))
    requires 0.0 < Dot3(Cross(MatrixAxisX(m), ctx.ray.value.direction), Cross(MatrixAxisX(m), ctx.ray.value.direction))
    ensures var t := LocalXCorrected(lib, ctx, m).value;
            && Dot3(t.plain.normal, t.ray.direction) > 0.0
            && Dot3(t.plain.normal, t.plainStart) == t.plain.d
  {
    LocalXNormalFacesRay(lib, MatrixAxisX(m), ctx.ray.value.direction);
  }

  /** Normalising a non-zero vector keeps the sign of its component along `dir`. */
  lemma NormalizedKeepsSign(lib: Lib, n: Vec3, dir: Vec3)
    requires SqrtLaw(lib)
    requires 0.0 < Dot3(n, n) && 0.0 < Dot3(n, dir)
    ensures 0.0 < Dot3(Normalized3(lib, n), dir)
  {
    Length3Facts(lib, n);
    var f := Div(1.0, Length3(lib, n));
    assert 0.0 < f;
    assert Dot3(Normalized3(lib, n), dir) == f * Dot3(n, dir);
    PositiveProduct(f, Dot3(n, dir));
  }

  // ---------------------------------------------------------------- drag

  /** Both drag markers are circles of the same radius, colour and thickness. */
  predicate SameMarkerStyle(a: MarkerCommand, b: MarkerCommand) {
    && a.shape.Circle? && b.shape.Circle?
    && a.shape.radius == b.shape.radius && a.shape.segments == b.shape.segments
    && a.color == b.color && a.thickness == b.thickness
  }

  /**
   * Translation::Drag AS WRITTEN: marks the start position, intersects the
   * ray STORED at drag start (not the context's current one) with the plane
   * by the as-written plane test,
   * marks the new position, and sets the matrix to the start matrix
   * translated by how far that intersection moved from the start point.
   */
  function Drag(lib: Lib, self: Translation, ctx: Context, m: Mat4, dl: DrawList): (r: (Mat4, DrawList))
    ensures var (_, out) := r;
            && out.gizmos == dl.gizmos && out.primitives == dl.primitives
            && |out.markers| == |dl.markers| + 2 && out.markers[..|dl.markers|] == dl.markers
            && out.markers[|dl.markers|] == MarkerCommand(Circle(self.srcViewport, MarkerRadius, 0), TranslationLineColor, Some(1.0))
            && SameMarkerStyle(out.markers[|dl.markers|], out.markers[|dl.markers| + 1])
  {
    var dl1 := AddCircle(dl, self.srcViewport, MarkerRadius, TranslationLineColor);
    var newPos := Point(self.ray, RayPlaneAsWritten(self.ray, self.plain).value);
    var pos := WorldToViewport(ctx, newPos);
    var dl2 := AddCircle(dl1, Add2(pos, Sub2(self.srcViewport, self.plainViewport)), MarkerRadius, TranslationLineColor);
    var delta := Sub3(newPos, self.plainStart);
    (Mul(self.src, TranslationMatrix(delta)), dl2)
  }

  /**
   * Because it re-intersects the stored ray, the as-written drag never moves
   * anything: for a handle whose start point is the stored ray's hit (every
   * handle Initialize makes), whatever the pointer does, the matrix is set
   * back to its value at drag start.
   */
  lemma DragNeverMoves(lib: Lib, self: Translation, ctx: Context, m: Mat4, dl: DrawList)
    requires StartRecorded(self)
    ensures Drag(lib, self, ctx, m, dl).0 == self.src
  {
    assert Sub3(self.plainStart, self.plainStart) == Zero3;
    MulIdentity(self.src);
  }

  /**
   * The intended drag: the same, with the CURRENT ray and the corrected
   * plane test, for a handle from InitializeCorrected. Without a ray only
   * the start marker is drawn and the matrix stays as it is.
   */
  function DragCorrected(lib: Lib, self: Translation, ctx: Context, m: Mat4, dl: DrawList): (r: (Mat4, DrawList))
    ensures var (_, out) := r;
            && out.gizmos == dl.gizmos && out.primitives == dl.primitives
            && |out.markers| == |dl.markers| + (if ctx.ray.Some? then 2 else 1)
            && out.markers[..|dl.markers|] == dl.markers
            && out.markers[|dl.markers|] == MarkerCommand(Circle(self.srcViewport, MarkerRadius, 0), TranslationLineColor, Some(1.0))
            && (ctx.ray.Some? ==> SameMarkerStyle(out.markers[|dl.markers|], out.markers[|dl.markers| + 1]))
    ensures ctx.ray.None? ==> r.0 == m
  {
    var dl1 := AddCircle(dl, self.srcViewport, MarkerRadius, TranslationLineColor);
    match ctx.ray
    case None => (m, dl1)
    case Some(ray) =>
      var newPos := Point(ray, RayPlane(ray, self.plain).value);
      var pos := WorldToViewport(ctx, newPos);
      var dl2 := AddCircle(dl1, Add2(pos, Sub2(self.srcViewport, self.plainViewport)), MarkerRadius, TranslationLineColor);
      var delta := Sub3(newPos, self.plainStart);
      (Mul(self.src, TranslationMatrix(delta)), dl2)
  }

  /**
   * With the current ray the drag does what a translation gizmo promises: for
   * an affine matrix the axes are untouched, the position moves by exactly as
   * much as the pointer's point on the plane moved, and so it stays on the
   * drag plane.
   */
  lemma DragCorrectedStaysOnPlane(lib: Lib, ctx0: Context, m0: Mat4, normal: Vec3, ctx: Context, m: Mat4, dl: DrawList)
    requires ctx0.ray.Some? && ctx.ray.Some?
    requires m0.r0.w == 0.0 && m0.r1.w == 0.0 && m0.r2.w == 0.0 && m0.r3.w == 1.0
    requires var n := Normalized3(lib, normal);
             Dot3(n, ctx0.ray.value.direction) != 0.0 && Dot3(n, ctx.ray.value.direction) != 0.0
    ensures var self := InitializeCorrected(lib, ctx0, m0, normal);
            var moved := DragCorrected(lib, self, ctx, m, dl).0;
            var ray := ctx.ray.value;
            var newPos := Point(ray, RayPlane(ray, self.plain).value);
            && MatrixAxisX(moved) == MatrixAxisX(m0)
            && MatrixAxisY(moved) == MatrixAxisY(m0)
            && MatrixAxisZ(moved) == MatrixAxisZ(m0)
            && MatrixPosition(moved) == Add3(MatrixPosition(m0), Sub3(newPos, self.plainStart))
            && Dot3(self.plain.normal, MatrixPosition(moved)) == self.plain.d
  {
    var self := InitializeCorrected(lib, ctx0, m0, normal);
    var ray := ctx.ray.value;
    var newPos := Point(ray, RayPlane(ray, self.plain).value);
    var delta := Sub3(newPos, self.plainStart);
    MulTranslation(m0, delta);
    assert Scale3(delta, 1.0) == delta;
    assert Scale3(delta, 0.0) == Zero3;
    var n := self.plain.normal;
    assert Dot3(n, newPos) == self.plain.d;
    assert Dot3(n, self.plainStart) == self.plain.d;
    assert Dot3(n, MatrixPosition(m0)) == self.plain.d;
    assert Dot3(n, Add3(MatrixPosition(m0), delta)) == Dot3(n, MatrixPosition(m0)) + Dot3(n, newPos) - Dot3(n, self.plainStart);
  }
}
