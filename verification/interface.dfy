/**
 * interface.h: the drag-free variant of the gizmo front end. Its frame
 * context forgets the pointer ray at every Begin, arrows are never hit-tested,
 * and End only highlights the nearest hit.
 */
module InterfaceFrame {
  import opened Wrappers
  import opened Vectors
  import opened MathLib
  import opened LinearAlgebra
  import opened Viewport
  import opened CameraControl
  import opened Nearest
  import opened RayIntersection
  import opened FrameContext
  import opened Drawing
  import GuiFrame

  /** What End reports; `target` and `updated` are declared by the source but never set. */
  datatype Result = Result(closest: Option<Handle>, target: Option<Handle>, updated: Option<Mat4>)

  datatype Interface = Interface(drawlist: DrawList, context: Context)

  /**
   * Interface::Begin: empties the queues and builds a fresh context whose ray
   * exists exactly when the viewport has focus.
   */
  function Begin(lib: Lib, ui: Interface, camera: Camera, mouse: ViewportState): (r: Interface)
    ensures r.drawlist == DrawList([], [], [])
    ensures r.context.camera == camera && r.context.viewport == mouse
    ensures r.context.ray.None? <==> mouse.focus == NoFocus
    ensures r.context.ray.Some? ==> r.context.ray.value.origin == camera.transform.translation
  {
    var ray := if mouse.focus != NoFocus then Some(GetRay(lib, camera, mouse)) else None;
    Interface(Clear(ui.drawlist), Context(camera, mouse, ray))
  }

  /**
   * With focus the fresh context is the one the Gui front end builds, whatever
   * that one held before; without focus the Gui keeps its old ray and this one
   * has none.
   */
  lemma BeginAgreesWithGuiWhenFocused(lib: Lib, ui: Interface, ctx: Context, camera: Camera, mouse: ViewportState)
    ensures mouse.focus != NoFocus ==> Begin(lib, ui, camera, mouse).context == FrameContext.Begin(lib, ctx, camera, mouse)
    ensures mouse.focus == NoFocus ==> FrameContext.Begin(lib, ctx, camera, mouse).ray == ctx.ray
  {
  }

  /**
   * Interface::End: the gizmo with the first smallest hit turns yellow and
   * its handle is reported; with no hit nothing changes.
   */
  function End(ui: Interface): (r: (Interface, Result))
    ensures r.1.target.None? && r.1.updated.None?
    ensures r.0.context == ui.context
    ensures r.0.drawlist.primitives == ui.drawlist.primitives && r.0.drawlist.markers == ui.drawlist.markers
    ensures NoneHit(RayHits(ui.drawlist.gizmos)) ==> r.0 == ui && r.1.closest.None?
    ensures var gs := ui.drawlist.gizmos;
            forall i :: IsFirstMinimum(RayHits(gs), i) ==>
              r.1.closest == gs[i].handle && r.0.drawlist.gizmos == gs[i := gs[i].(color := Yellow)]
  {
    var gs := ui.drawlist.gizmos;
    match FirstMinimum(RayHits(gs))
    case None => (ui, Result(None, None, None))
    case Some(i) =>
      FirstMinimumUnique(RayHits(gs), i, i);
      var dl := ui.drawlist.(gizmos := gs[i := gs[i].(color := Yellow)]);
      (ui.(drawlist := dl), Result(gs[i].handle, None, None))
  }

  /** On the same queue, End highlights and reports what the Gui's End does when no drag is held. */
  lemma EndAgreesWithGui(lib: Lib, ui: Interface, g: GuiFrame.Gui)
    requires g.drawlist == ui.drawlist
    requires !(g.drag.Some? && g.context.viewport.mouseLeftDown)
    ensures End(ui).1.closest == GuiFrame.End(lib, g).1.closest
    ensures End(ui).0.drawlist == GuiFrame.End(lib, g).0.drawlist
  {
    var hs := RayHits(ui.drawlist.gizmos);
    match FirstMinimum(hs)
    case None =>
    case Some(i) =>
      assert IsFirstMinimum(hs, i);
  }

  /** `r` is `ui` with `c` queued on the gizmo queue. */
  ghost predicate Queued(ui: Interface, r: Interface, c: GizmoCommand) {
    r == ui.(drawlist := ui.drawlist.(gizmos := ui.drawlist.gizmos + [c]))
  }

  function Push(ui: Interface, c: GizmoCommand): (r: Interface)
    ensures Queued(ui, r, c)
    ensures |r.drawlist.gizmos| == |ui.drawlist.gizmos| + 1 && r.drawlist.gizmos[|ui.drawlist.gizmos|] == c
  {
    ui.(drawlist := ui.drawlist.(gizmos := ui.drawlist.gizmos + [c]))
  }

  /** A gizmo without a hit never changes what End reports. */
  lemma EndIgnoresUnhit(ui: Interface, c: GizmoCommand)
    requires c.rayHit.None?
    ensures End(Push(ui, c)).1 == End(ui).1
  {
    var gs := ui.drawlist.gizmos;
    var hs := RayHits(gs + [c]);
    assert hs[..|gs|] == RayHits(gs);
  }

  /** Interface::Arrow: queues an arrow in the caller's colour, never hit-tested. */
  function Arrow(ui: Interface, s: Vec3, e: Vec3, color: Color): (r: Interface)
    ensures Queued(ui, r, GizmoCommand(ArrowGizmo(s, e), color, None, None, None))
    ensures End(r).1 == End(ui).1
  {
    var c := GizmoCommand(ArrowGizmo(s, e), color, None, None, None);
    EndIgnoresUnhit(ui, c);
    Push(ui, c)
  }

  /** Interface::Cube: queues a white cube with the caller's handle, hit-tested against the ray if there is one. */
  function Cube(lib: Lib, ui: Interface, handle: Option<Handle>, m: Mat4): (r: Interface)
    ensures var hit := if ui.context.ray.Some? then RayCube(lib, ui.context.ray.value, m) else None;
            Queued(ui, r, GizmoCommand(CubeGizmo(m), White, handle, hit, None))
    ensures ui.context.ray.None? ==> End(r).1 == End(ui).1
  {
    if ui.context.ray.Some? then
      Push(ui, GizmoCommand(CubeGizmo(m), White, handle, RayCube(lib, ui.context.ray.value, m), None))
    else
      var c := GizmoCommand(CubeGizmo(m), White, handle, None, None);
      EndIgnoresUnhit(ui, c);
      Push(ui, c)
  }

  /** Interface::Frustum: queues a white frustum that can never be hit. */
  function Frustum(ui: Interface, viewProjection: Mat4, zNear: real, zFar: real): (r: Interface)
    ensures Queued(ui, r, DefaultGizmo(FrustumGizmo(viewProjection, zNear, zFar)))
    ensures End(r).1 == End(ui).1
  {
    var c := DefaultGizmo(FrustumGizmo(viewProjection, zNear, zFar));
    EndIgnoresUnhit(ui, c);
    Push(ui, c)
  }

  /**
   * Interface::Ray: a yellow line primitive from the ray's origin to the point
   * at parameter `zFar` along it.
   */
  function Ray(ui: Interface, ray: LinearAlgebra.Ray, zFar: real): (r: Interface)
    ensures r.context == ui.context
    ensures r.drawlist.gizmos == ui.drawlist.gizmos && r.drawlist.markers == ui.drawlist.markers
    ensures |r.drawlist.primitives| == |ui.drawlist.primitives| + 1
    ensures r.drawlist.primitives[..|ui.drawlist.primitives|] == ui.drawlist.primitives
    ensures var p := r.drawlist.primitives[|ui.drawlist.primitives|];
            && p.color == Yellow && p.rayHit.None? && p.shape.PrimitiveLine?
            && p.shape.p0 == ray.origin
            && Sub3(p.shape.p1, ray.origin) == Scale3(ray.direction, zFar)
  {
    var line := PrimitiveCommand(PrimitiveLine(ray.origin, Point(ray, zFar)), Yellow, None);
    ui.(drawlist := ui.drawlist.(primitives := ui.drawlist.primitives + [line]))
  }
}
