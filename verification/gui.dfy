/**
 * gui.h: the immediate-mode gizmo front end. Each frame: Begin, then gizmo
 * calls (Arrow, Cube, Frustum, Ray, Translate) that queue commands and record
 * ray hits, then End, which resolves the drag state machine and highlights
 * the nearest hit.
 */
module GuiFrame {
  import opened Wrappers
  import opened Vectors
  import opened MathLib
  import opened LinearAlgebra
  import opened Viewport
  import opened CameraControl
  import opened Nearest
  import opened RayIntersection
  import opened FrameContext
  import opened Drawing
  import opened TranslationDrag

  /** The translate arrow's colour while a drag is running, and otherwise. */
  const ArrowDraggingColor: Color := 0xFF00_FFFF
  const ArrowIdleColor: Color := 0xFF00_00FF
  /** How close (in pixels) the pointer must be to an arrow to hit it. */
  const ArrowPixel: Pixel := 4

  datatype Space = World | Local

  /** What End reports: the handle of the hovered gizmo and whether a drag is running. */
  datatype Result = Result(closest: Option<Handle>, drag: bool)

  datatype Gui = Gui(drawlist: DrawList, drag: Option<Translation>, hits: seq<real>, context: Context)

  // ---------------------------------------------------------------- hits

  /** The recorded distances of the gizmos that were hit, in queue order. */
  function HitValues(gs: seq<GizmoCommand>): seq<real> {
    if |gs| == 0 then []
    else
      var last := gs[|gs| - 1];
      HitValues(gs[..|gs| - 1]) + (if last.rayHit.Some? then [last.rayHit.value] else [])
  }

  /** The invariant the gizmo calls keep: `hits` lists exactly the queued gizmos' hits. */
  ghost predicate HitsRecorded(g: Gui) {
    g.hits == HitValues(g.drawlist.gizmos)
  }

  /** Queues that agree on every gizmo's hit agree on the recorded hits. */
  lemma {:induction false} HitValuesSameHits(a: seq<GizmoCommand>, b: seq<GizmoCommand>)
    requires |a| == |b|
    requires forall k :: 0 <= k < |a| ==> a[k].rayHit == b[k].rayHit
    ensures HitValues(a) == HitValues(b)
  {
    if |a| > 0 {
      HitValuesSameHits(a[..|a| - 1], b[..|b| - 1]);
    }
  }

  lemma HitValuesPush(gs: seq<GizmoCommand>, c: GizmoCommand)
    ensures HitValues(gs + [c]) == HitValues(gs) + (if c.rayHit.Some? then [c.rayHit.value] else [])
  {
    assert (gs + [c])[..|gs|] == gs;
  }

  // ---------------------------------------------------------------- frame

  /** Gui::Begin: forgets last frame's hits and commands and takes the new camera and viewport. */
  function Begin(lib: Lib, g: Gui, camera: Camera, viewport: ViewportState): (r: Gui)
    ensures r.hits == [] && r.drawlist == DrawList([], [], [])
    ensures r.drag == g.drag
    ensures r.context == FrameContext.Begin(lib, g.context, camera, viewport)
    ensures HitsRecorded(r)
  {
    Gui(Clear(g.drawlist), g.drag, [], FrameContext.Begin(lib, g.context, camera, viewport))
  }

  /** What a gizmo's BeginDrag produces: the handle of a drag along the matrix's local X axis. */
  function StartDrag(lib: Lib, ctx: Context, starter: DragStarter): Option<Translation> {
    match starter
    case TranslateLocalX(m) => LocalX(lib, ctx, m)
  }

  /**
   * Gui::End. While a drag runs and the left button is held, report the drag
   * and change nothing. Otherwise the drag (if any) ends, the gizmo with the
   * first smallest hit is recoloured yellow and reported, and pressing the
   * left button on it starts its drag.
   */
  function End(lib: Lib, g: Gui): (r: (Gui, Result))
    ensures var leftDown := g.context.viewport.mouseLeftDown;
            g.drag.Some? && leftDown ==> r == (g, Result(None, true))
    ensures var leftDown := g.context.viewport.mouseLeftDown;
            var gs := g.drawlist.gizmos;
            var hs := RayHits(gs);
            !(g.drag.Some? && leftDown) ==>
              && !r.1.drag
              && r.0.hits == g.hits && r.0.context == g.context
              && r.0.drawlist.primitives == g.drawlist.primitives && r.0.drawlist.markers == g.drawlist.markers
              && (NoneHit(hs) ==> r.0.drawlist == g.drawlist && r.1.closest.None? && r.0.drag.None?)
              && (forall i :: IsFirstMinimum(hs, i) ==>
                    && r.1.closest == gs[i].handle
                    && r.0.drawlist.gizmos == gs[i := gs[i].(color := Yellow)]
                    && (r.0.drag.Some? ==> leftDown && gs[i].beginDrag.Some?)
                    && (leftDown && gs[i].beginDrag.Some? ==> r.0.drag == StartDrag(lib, g.context, gs[i].beginDrag.value)))
  {
    var leftDown := g.context.viewport.mouseLeftDown;
    if g.drag.Some? && leftDown then (g, Result(None, true))
    else
      var gs := g.drawlist.gizmos;
      match FirstMinimum(RayHits(gs))
      case None => (g.(drag := None), Result(None, false))
      case Some(i) =>
        FirstMinimumUnique(RayHits(gs), i, i);
        var gz := gs[i];
        var drag := if leftDown && gz.beginDrag.Some? then StartDrag(lib, g.context, gz.beginDrag.value) else None;
        var dl := g.drawlist.(gizmos := gs[i := gz.(color := Yellow)]);
        (g.(drawlist := dl, drag := drag), Result(gz.handle, false))
  }

  /**
   * End only recolours: the gizmo queue keeps its length, shapes, handles and
   * hits, so the hits invariant survives it.
   */
  lemma EndKeepsGizmos(lib: Lib, g: Gui)
    requires HitsRecorded(g)
    ensures var r := End(lib, g).0;
            && |r.drawlist.gizmos| == |g.drawlist.gizmos|
            && (forall k :: 0 <= k < |g.drawlist.gizmos| ==>
                  r.drawlist.gizmos[k] == g.drawlist.gizmos[k].(color := r.drawlist.gizmos[k].color))
            && HitsRecorded(r)
  {
    var r := End(lib, g).0;
    var gs := g.drawlist.gizmos;
    var hs := RayHits(gs);
    match FirstMinimum(hs)
    case None =>
    case Some(i) =>
      if !(g.drag.Some? && g.context.viewport.mouseLeftDown) {
        assert r.drawlist.gizmos == gs[i := gs[i].(color := Yellow)];
      }
      HitValuesSameHits(r.drawlist.gizmos, gs);
  }

  /** The reported gizmo is nearer than every earlier hit and no farther than any later one. */
  lemma EndReportsNearest(lib: Lib, g: Gui)
    requires !(g.drag.Some? && g.context.viewport.mouseLeftDown)
    requires FirstMinimum(RayHits(g.drawlist.gizmos)).Some?
    ensures var gs := g.drawlist.gizmos;
            var i := FirstMinimum(RayHits(gs)).value;
            && End(lib, g).1.closest == gs[i].handle
            && gs[i].rayHit.Some?
            && (forall k :: 0 <= k < |gs| && gs[k].rayHit.Some? ==> gs[i].rayHit.value <= gs[k].rayHit.value)
  {
  }

  // ---------------------------------------------------------------- gizmos

  /** `r` is `g` with `c` queued (and its hit, if any, recorded). */
  ghost predicate Queued(g: Gui, r: Gui, c: GizmoCommand) {
    && r.drawlist == g.drawlist.(gizmos := g.drawlist.gizmos + [c])
    && r.hits == g.hits + (if c.rayHit.Some? then [c.rayHit.value] else [])
    && r.drag == g.drag && r.context == g.context
  }

  function Push(g: Gui, c: GizmoCommand): (r: Gui)
    ensures Queued(g, r, c)
    ensures HitsRecorded(g) ==> HitsRecorded(r)
  {
    HitValuesPush(g.drawlist.gizmos, c);
    var hits := if c.rayHit.Some? then g.hits + [c.rayHit.value] else g.hits;
    g.(drawlist := g.drawlist.(gizmos := g.drawlist.gizmos + [c]), hits := hits)
  }

  /**
   * Gui::Arrow: queues an arrow without a handle, hit-tested within four
   * pixels of the pointer, carrying the drag it may start.
   */
  function Arrow(lib: Lib, g: Gui, s: Vec3, e: Vec3, color: Color, beginDrag: Option<DragStarter> := None): (r: Gui)
    ensures var hit := FrameContext.Intersects(lib, g.context, s, e, ArrowPixel);
            Queued(g, r, GizmoCommand(ArrowGizmo(s, e), color, None, hit, beginDrag))
    ensures g.context.ray.None? ==> r.hits == g.hits
    ensures HitsRecorded(g) ==> HitsRecorded(r)
  {
    var hit := FrameContext.Intersects(lib, g.context, s, e, ArrowPixel);
    Push(g, GizmoCommand(ArrowGizmo(s, e), color, None, hit, beginDrag))
  }

  /** Gui::Cube: queues a white cube with the caller's handle, hit-tested against the ray if there is one. */
  function Cube(lib: Lib, g: Gui, handle: Option<Handle>, m: Mat4): (r: Gui)
    ensures var hit := if g.context.ray.Some? then RayCube(lib, g.context.ray.value, m) else None;
            Queued(g, r, GizmoCommand(CubeGizmo(m), White, handle, hit, None))
    ensures g.context.ray.None? ==> r.hits == g.hits
    ensures HitsRecorded(g) ==> HitsRecorded(r)
  {
    var hit := if g.context.ray.Some? then RayCube(lib, g.context.ray.value, m) else None;
    Push(g, GizmoCommand(CubeGizmo(m), White, handle, hit, None))
  }

  /** Gui::Frustum: queues a white frustum that can never be hit. */
  function Frustum(g: Gui, viewProjection: Mat4, zNear: real, zFar: real): (r: Gui)
    ensures Queued(g, r, DefaultGizmo(FrustumGizmo(viewProjection, zNear, zFar)))
    ensures r.hits == g.hits
    ensures HitsRecorded(g) ==> HitsRecorded(r)
  {
    Push(g, DefaultGizmo(FrustumGizmo(viewProjection, zNear, zFar)))
  }

  /**
   * Gui::Ray: a yellow line primitive from the ray's origin to where the
   * as-written plane test of intersects.h puts its hit on the far plane, a
   * point of the mirror plane Dot(n, x) = -D.
   */
  function Ray(g: Gui, ray: LinearAlgebra.Ray, farPlain: Plain): (r: Gui)
    ensures r.drawlist.gizmos == g.drawlist.gizmos && r.drawlist.markers == g.drawlist.markers
    ensures r.hits == g.hits && r.drag == g.drag && r.context == g.context
    ensures |r.drawlist.primitives| == |g.drawlist.primitives| + 1
    ensures r.drawlist.primitives[..|g.drawlist.primitives|] == g.drawlist.primitives
    ensures var p := r.drawlist.primitives[|g.drawlist.primitives|];
            && p.color == Yellow && p.rayHit.None? && p.shape.PrimitiveLine?
            && p.shape.p0 == ray.origin
            && (Dot3(farPlain.normal, ray.direction) != 0.0 ==> Dot3(farPlain.normal, p.shape.p1) + farPlain.d == 0.0)
  {
    var t := RayPlaneAsWritten(ray, farPlain).value;
    var line := PrimitiveCommand(PrimitiveLine(ray.origin, Point(ray, t)), Yellow, None);
    g.(drawlist := g.drawlist.(primitives := g.drawlist.primitives + [line]))
  }

  /**
   * Gui::Translate: an arrow from the matrix's position one unit along world
   * +X. While a drag runs with the left button held, the arrow is drawn in
   * the dragging colour and the stored handle's Drag (as written) sets the
   * matrix and draws its two markers; otherwise the arrow offers to start a
   * local-X drag and the matrix is untouched. The result says whether a
   * drag ran.
   */
  function Translate(lib: Lib, g: Gui, space: Space, matrix: Mat4): (r: (Gui, Mat4, bool))
    ensures var (out, m, dragged) := r;
            && (dragged <==> g.drag.Some? && g.context.viewport.mouseLeftDown)
            && out.drag == g.drag && out.context == g.context
            && out.drawlist.primitives == g.drawlist.primitives
            && |out.drawlist.gizmos| == |g.drawlist.gizmos| + 1
            && out.drawlist.gizmos[..|g.drawlist.gizmos|] == g.drawlist.gizmos
            && var s := MatrixPosition(matrix);
               var e := Add3(s, Vec3(1.0, 0.0, 0.0));
               var arrow := out.drawlist.gizmos[|g.drawlist.gizmos|];
               && arrow.shape == ArrowGizmo(s, e)
               && arrow.color == (if dragged then ArrowDraggingColor else ArrowIdleColor)
               && arrow.handle.None? && arrow.rayHit == FrameContext.Intersects(lib, g.context, s, e, ArrowPixel)
               && arrow.beginDrag == (if dragged then None else Some(TranslateLocalX(matrix)))
    ensures var (out, m, dragged) := r;
            !dragged ==> m == matrix && out.drawlist.markers == g.drawlist.markers
    ensures var (out, m, dragged) := r;
            var n := |g.drawlist.markers|;
            dragged ==>
              && (m, out.drawlist) == TranslationDrag.Drag(lib, g.drag.value, g.context, matrix, g.drawlist.(gizmos := out.drawlist.gizmos))
              && |out.drawlist.markers| == n + 2 && out.drawlist.markers[..n] == g.drawlist.markers
              && out.drawlist.markers[n] == MarkerCommand(Circle(g.drag.value.srcViewport, MarkerRadius, 0), TranslationLineColor, Some(1.0))
              && SameMarkerStyle(out.drawlist.markers[n], out.drawlist.markers[n + 1])
              && (StartRecorded(g.drag.value) ==> m == g.drag.value.src)
    ensures HitsRecorded(g) ==> HitsRecorded(r.0)
  {
    var s := MatrixPosition(matrix);
    var e := Add3(s, Vec3(1.0, 0.0, 0.0));
    if g.drag.Some? && g.context.viewport.mouseLeftDown then
      var g1 := Arrow(lib, g, s, e, ArrowDraggingColor);
      var (m, dl) := TranslationDrag.Drag(lib, g.drag.value, g1.context, matrix, g1.drawlist);
      var out := (g1.(drawlist := dl), m, true);
      if StartRecorded(g.drag.value) then
        DragNeverMoves(lib, g.drag.value, g1.context, matrix, g1.drawlist);
        out
      else out
    else
      (Arrow(lib, g, s, e, ArrowIdleColor, Some(TranslateLocalX(matrix))), matrix, false)
  }

  // ---------------------------------------------------------------- drag across frames

  /** Every drag the Gui holds has its start point recorded from its start ray. */
  ghost predicate DragRecorded(g: Gui) {
    g.drag.Some? ==> StartRecorded(g.drag.value)
  }

  /** End keeps that true: it either keeps, drops, or freshly starts the drag. */
  lemma EndKeepsDragRecorded(lib: Lib, g: Gui)
    requires DragRecorded(g)
    ensures DragRecorded(End(lib, g).0)
  {
  }

  /**
   * The as-written drag seen from the frame loop. A press on the translate
   * arrow of `matrix` makes End start a drag; in the next frame, with the
   * button still held, Translate hands back `matrix` itself, whatever matrix
   * the caller now passes and wherever the pointer has moved.
   */
  lemma HeldDragReturnsPressedMatrix(lib: Lib, g: Gui, i: nat, matrix: Mat4,
                                     camera: Camera, viewport: ViewportState, space: Space, other: Mat4)
    requires g.drag.None? && g.context.viewport.mouseLeftDown && g.context.ray.Some?
    requires IsFirstMinimum(RayHits(g.drawlist.gizmos), i)
    requires g.drawlist.gizmos[i].beginDrag == Some(TranslateLocalX(matrix))
    requires viewport.mouseLeftDown
    ensures var next := Begin(lib, End(lib, g).0, camera, viewport);
            && next.drag.Some? && next.drag.value.src == matrix
            && Translate(lib, next, space, other).2
            && Translate(lib, next, space, other).1 == matrix
  {
    var started := End(lib, g).0;
    assert started.drag == LocalX(lib, g.context, matrix);
  }
}
