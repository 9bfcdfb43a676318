/**
 * drawlist.h: the three command queues (3D gizmos, 3D primitives, 2D
 * markers), the marker builders, and ToMarker, which flattens every gizmo and
 * primitive of a frame into 2D markers.
 */
module Drawing {
  import opened Wrappers
  import opened Vectors
  import opened MathLib
  import opened LinearAlgebra
  import opened Viewport
  import opened CameraControl
  import opened RayIntersection

  /** A 32-bit colour (uint32_t), 0xAABBGGRR. */
  type Color = c: int | 0 <= c < 0x1_0000_0000

  const White: Color := 0xFFFF_FFFF
  /** The hover highlight of gui.h and interface.h. */
  const Yellow: Color := 0xFF00_FFFF

  /** The identity of a gizmo's owner (`void *`); the null pointer is `None`. */
  type Handle = nat

  /** The drag a gizmo can start when pressed: translation along the matrix's local X axis. */
  datatype DragStarter = TranslateLocalX(matrix: Mat4)

  // ---------------------------------------------------------------- commands

  datatype Rect = Rect(p0: Vec3, p1: Vec3, p2: Vec3, p3: Vec3)

  datatype GizmoShape =
    | RectGizmo(rect: Rect)
    | CubeGizmo(matrix: Mat4)
    | FrustumGizmo(viewProjection: Mat4, near: real, far: real)
    | ArrowGizmo(p0: Vec3, p1: Vec3)

  datatype GizmoCommand = GizmoCommand(
    shape: GizmoShape,
    color: Color,
    handle: Option<Handle>,
    rayHit: Option<real>,
    beginDrag: Option<DragStarter>)

  datatype PrimitiveShape =
    | PrimitiveLine(p0: Vec3, p1: Vec3)
    | PrimitiveTriangle(p0: Vec3, p1: Vec3, p2: Vec3)

  datatype PrimitiveCommand = PrimitiveCommand(shape: PrimitiveShape, color: Color, rayHit: Option<real>)

  datatype MarkerShape =
    | MarkerLine(p0: Vec2, p1: Vec2)
    | MarkerTriangle(p0: Vec2, p1: Vec2, p2: Vec2)
    | Circle(center: Vec2, radius: real, segments: int)
    | Polyline(points: seq<Vec2>, flags: int)
    | Text(pos: Vec2, content: string)

  datatype MarkerCommand = MarkerCommand(shape: MarkerShape, color: Color, thickness: Option<real>)

  datatype DrawList = DrawList(
    gizmos: seq<GizmoCommand>,
    primitives: seq<PrimitiveCommand>,
    markers: seq<MarkerCommand>)

  /** A gizmo command with the source's defaults: white, no handle, no hit, no drag. */
  function DefaultGizmo(shape: GizmoShape): GizmoCommand {
    GizmoCommand(shape, White, None, None, None)
  }

  /** Each gizmo's ray distance, present or not, in queue order. */
  function RayHits(gs: seq<GizmoCommand>): (hs: seq<Option<real>>)
    ensures |hs| == |gs| && forall i :: 0 <= i < |gs| ==> hs[i] == gs[i].rayHit
  {
    seq(|gs|, i requires 0 <= i < |gs| => gs[i].rayHit)
  }

  // ---------------------------------------------------------------- builders

  /** DrawList::Clear: empties all three queues. */
  function Clear(dl: DrawList): (r: DrawList)
    ensures |r.gizmos| == 0 && |r.primitives| == 0 && |r.markers| == 0
  {
    DrawList([], [], [])
  }

  /** `r` is `dl` with exactly `m` pushed onto the marker queue. */
  predicate MarkerAppended(dl: DrawList, r: DrawList, m: MarkerCommand) {
    r.gizmos == dl.gizmos && r.primitives == dl.primitives && r.markers == dl.markers + [m]
  }

  function AddLine(dl: DrawList, p0: Vec2, p1: Vec2, col: Color, thickness: real := 1.0): (r: DrawList)
    ensures MarkerAppended(dl, r, MarkerCommand(MarkerLine(p0, p1), col, Some(thickness)))
  {
    dl.(markers := dl.markers + [MarkerCommand(MarkerLine(p0, p1), col, Some(thickness))])
  }

  function AddTriangleFilled(dl: DrawList, p0: Vec2, p1: Vec2, p2: Vec2, col: Color): (r: DrawList)
    ensures MarkerAppended(dl, r, MarkerCommand(MarkerTriangle(p0, p1, p2), col, None))
  {
    dl.(markers := dl.markers + [MarkerCommand(MarkerTriangle(p0, p1, p2), col, None)])
  }

  function AddCircle(dl: DrawList, center: Vec2, radius: real, col: Color,
                     segments: int := 0, thickness: real := 1.0): (r: DrawList)
    ensures MarkerAppended(dl, r, MarkerCommand(Circle(center, radius, segments), col, Some(thickness)))
  {
    dl.(markers := dl.markers + [MarkerCommand(Circle(center, radius, segments), col, Some(thickness))])
  }

  function AddCircleFilled(dl: DrawList, center: Vec2, radius: real, col: Color, segments: int := 0): (r: DrawList)
    ensures MarkerAppended(dl, r, MarkerCommand(Circle(center, radius, segments), col, None))
  {
    dl.(markers := dl.markers + [MarkerCommand(Circle(center, radius, segments), col, None)])
  }

  /** The characters of a NUL-terminated buffer before its first NUL. */
  function CString(buffer: string): (s: string)
    ensures |s| <= |buffer| && s == buffer[..|s|]
    ensures forall i :: 0 <= i < |s| ==> s[i] != '\0'
    ensures |s| < |buffer| ==> buffer[|s|] == '\0'
  {
    if |buffer| == 0 || buffer[0] == '\0' then []
    else [buffer[0]] + CString(buffer[1..])
  }

  /**
   * DrawList::AddText: the label is the buffer up to `textEnd` when one is
   * given, otherwise up to the terminating NUL.
   */
  function AddText(dl: DrawList, pos: Vec2, col: Color, text: string, textEnd: Option<nat> := None): (r: DrawList)
    requires textEnd.Some? ==> textEnd.value <= |text|
    ensures r.gizmos == dl.gizmos && r.primitives == dl.primitives
    ensures |r.markers| == |dl.markers| + 1 && r.markers[..|dl.markers|] == dl.markers
    ensures var m := r.markers[|dl.markers|];
            && m.color == col && m.thickness.None? && m.shape.Text? && m.shape.pos == pos
            && (textEnd.Some? ==> m.shape.content == text[..textEnd.value])
            && (textEnd.None? ==> && '\0' !in m.shape.content && m.shape.content <= text
                                  && (|m.shape.content| < |text| ==> text[|m.shape.content|] == '\0'))
  {
    var content := if textEnd.Some? then text[..textEnd.value] else CString(text);
    dl.(markers := dl.markers + [MarkerCommand(Text(pos, content), col, None)])
  }

  /** DrawList::AddPolyline: the first `n` points, as an outline of the given thickness. */
  function AddPolyline(dl: DrawList, points: seq<Vec2>, n: nat, col: Color, flags: int, thickness: real): (r: DrawList)
    requires n <= |points|
    ensures MarkerAppended(dl, r, MarkerCommand(Polyline(points[..n], flags), col, Some(thickness)))
  {
    dl.(markers := dl.markers + [MarkerCommand(Polyline(points[..n], flags), col, Some(thickness))])
  }

  /** DrawList::AddConvexPolyFilled: the first `n` points with default flags and no thickness (filled). */
  function AddConvexPolyFilled(dl: DrawList, points: seq<Vec2>, n: nat, col: Color): (r: DrawList)
    requires n <= |points|
    ensures MarkerAppended(dl, r, MarkerCommand(Polyline(points[..n], 0), col, None))
  {
    dl.(markers := dl.markers + [MarkerCommand(Polyline(points[..n], 0), col, None)])
  }

  // ---------------------------------------------------------------- arrow head

  const ArrowHeadLength: real := 10.0

  /**
   * Arrow::GetSide: the two back corners of the arrow head drawn at `e`,
   * ten pixels behind the tip along s-e and ten pixels to either side.
   */
  function GetSide(lib: Lib, s: Vec2, e: Vec2): (sides: (Vec2, Vec2)) {
    var dir := Scale2(Normalized2(lib, Sub2(e, s)), ArrowHeadLength);
    var p := Sub2(e, dir);
    var x := Vec2(-dir.y, dir.x);
    (Add2(p, x), Sub2(p, x))
  }

  /**
   * The head is an isosceles triangle: the back corners are symmetric about
   * the point ten pixels behind the tip, across the shaft, and (for a shaft
   * of non-zero length) each ten pixels from that point.
   */
  lemma GetSideGeometry(lib: Lib, s: Vec2, e: Vec2)
    requires SqrtLaw(lib)
    requires 0.0 < Dot2(Sub2(e, s), Sub2(e, s))
    ensures var (l, r) := GetSide(lib, s, e);
            var dir := Scale2(Normalized2(lib, Sub2(e, s)), ArrowHeadLength);
            var p := Sub2(e, dir);
            && Add2(l, r) == Scale2(p, 2.0)
            && Dot2(Sub2(l, p), Sub2(e, s)) == 0.0
            && Length2(lib, Sub2(e, p)) == ArrowHeadLength
            && Length2(lib, Sub2(l, p)) == ArrowHeadLength
  {
    var v := Sub2(e, s);
    var n := Normalized2(lib, v);
    NormalizedIsUnit2(lib, v);
    var dir := Scale2(n, ArrowHeadLength);
    var p := Sub2(e, dir);
    var x := Vec2(-dir.y, dir.x);
    assert Sub2(e, p) == dir;
    assert Dot2(dir, dir) == 100.0 * Dot2(n, n);
    assert Dot2(dir, dir) == 10.0 * 10.0;
    RootOfSquare(lib, 10.0);
    assert Dot2(x, x) == Dot2(dir, dir);
    var (l, r) := GetSide(lib, s, e);
    assert Sub2(l, p) == x;
    var f := Div(1.0, Length2(lib, v));
    assert n == Vec2(v.x * f, v.y * f);
    assert Dot2(x, v) == 0.0 by {
      assert Dot2(x, v) == 10.0 * f * (-v.y * v.x + v.x * v.y);
    }
  }

  // ---------------------------------------------------------------- cube faces

  /** The face table of the Cube and Frustum visitors (and of Screen::Cube), in the order +x +y +z -x -y -z. */
  const DrawFaces: seq<Quad> := [
    Quad(1, 5, 6, 2), Quad(2, 6, 7, 3), Quad(0, 1, 2, 3),
    Quad(4, 0, 3, 7), Quad(5, 1, 0, 4), Quad(5, 4, 7, 6)]

  function Corners(q: Quad): set<nat> { {q.i0, q.i1, q.i2, q.i3} }

  /**
   * The drawing table and the hit-test table in intersects.h describe the
   * same six faces in the same order, only with the corners listed from a
   * different start or winding.
   */
  lemma FaceTablesAgree()
    ensures |DrawFaces| == |TriangleFaces| == 6
    ensures forall t :: 0 <= t < 6 ==> Corners(DrawFaces[t]) == Corners(TriangleFaces[t])
  {
  }

  /** The coordinate of `v` on axis 0, 1 or 2. */
  function Axis(v: Vec3, a: nat): real
    requires a < 3
  {
    if a == 0 then v.x else if a == 1 then v.y else v.z
  }

  /**
   * Face `t` lies on the side its comment names: every corner has coordinate
   * +0.5 (t < 3) or -0.5 (t >= 3) on axis t % 3; and walking its corners
   * i0, i1, i2, i3 moves along cube edges (one coordinate changes per step).
   */
  lemma DrawFacesAreCubeFaces()
    ensures forall t :: 0 <= t < 6 ==>
              forall k :: k in Corners(DrawFaces[t]) ==>
                k < 8 && Axis(UnitCube[k], t % 3) == (if t < 3 then 0.5 else -0.5)
    ensures forall t :: 0 <= t < 6 ==>
              var q := DrawFaces[t];
              && QuadInCube(q)
              && EdgeOf(UnitCube[q.i0], UnitCube[q.i1]) && EdgeOf(UnitCube[q.i1], UnitCube[q.i2])
              && EdgeOf(UnitCube[q.i2], UnitCube[q.i3]) && EdgeOf(UnitCube[q.i3], UnitCube[q.i0])
  {
  }

  /** How many quads of `faces` have `k` as a corner. */
  function FacesAt(faces: seq<Quad>, k: nat): nat {
    if |faces| == 0 then 0 else (if k in Corners(faces[0]) then 1 else 0) + FacesAt(faces[1..], k)
  }

  /** Each face names four different corners, and every corner of the cube lies on exactly three faces. */
  lemma FaceTableCombinatorics()
    ensures forall t :: 0 <= t < 6 ==> |Corners(DrawFaces[t])| == 4
    ensures forall k :: 0 <= k < 8 ==> FacesAt(DrawFaces, k) == 3
  {
  }

  /** Two cube corners joined by an edge: they differ in exactly one coordinate. */
  predicate EdgeOf(a: Vec3, b: Vec3) {
    (if a.x != b.x then 1 else 0) + (if a.y != b.y then 1 else 0) + (if a.z != b.z then 1 else 0) == 1
  }

  /** The six faces of the unit cube moved by `m`, as the rectangles the Cube visitor and Screen::Cube build. */
  function CubeFaceRects(m: Mat4): (rects: seq<Rect>)
    ensures |rects| == 6
    ensures forall t :: 0 <= t < 6 ==>
              var p := CubeCorners(m);
              var q := DrawFaces[t];
              rects[t] == Rect(p[q.i0], p[q.i1], p[q.i2], p[q.i3])
  {
    var p := CubeCorners(m);
    seq(6, t requires 0 <= t < 6 =>
      var q := DrawFaces[t];
      Rect(p[q.i0], p[q.i1], p[q.i2], p[q.i3]))
  }

  /** The corners of the NDC box, far plane (z = 1) first, then near (z = 0). */
  const FrustumNdc: seq<Vec3> := [
    Vec3(-1.0, -1.0, 1.0), Vec3(1.0, -1.0, 1.0), Vec3(1.0, 1.0, 1.0), Vec3(-1.0, 1.0, 1.0),
    Vec3(-1.0, -1.0, 0.0), Vec3(1.0, -1.0, 0.0), Vec3(1.0, 1.0, 0.0), Vec3(-1.0, 1.0, 0.0)]

  /** The perspective divide of a homogeneous point. */
  function Dehomogenize(p: Vec4): Vec3 {
    Vec3(Div(p.x, p.w), Div(p.y, p.w), Div(p.z, p.w))
  }

  /** The six faces of the frustum whose view-projection is `viewProjection`, unprojected through its inverse. */
  function FrustumFaceRects(lib: Lib, viewProjection: Mat4): (rects: seq<Rect>)
    ensures |rects| == 6
    ensures forall t :: 0 <= t < 6 ==>
              var inv := lib.inverse(viewProjection);
              var q := DrawFaces[t];
              rects[t] == Rect(Dehomogenize(Transform3(FrustumNdc[q.i0], inv)), Dehomogenize(Transform3(FrustumNdc[q.i1], inv)),
                               Dehomogenize(Transform3(FrustumNdc[q.i2], inv)), Dehomogenize(Transform3(FrustumNdc[q.i3], inv)))
  {
    var inv := lib.inverse(viewProjection);
    var p := seq(8, i requires 0 <= i < 8 => Dehomogenize(Transform3(FrustumNdc[i], inv)));
    seq(6, t requires 0 <= t < 6 =>
      var q := DrawFaces[t];
      Rect(p[q.i0], p[q.i1], p[q.i2], p[q.i3]))
  }

  // ---------------------------------------------------------------- visitors

  /** A world point through `m` (XMVector4Transform of (p, 1)) and onto the viewport. */
  function ToScreen(vp: ViewportState, m: Mat4, p: Vec3): Vec2 {
    ClipToViewport(vp, Combine(Vec4(p.x, p.y, p.z, 1.0), m))
  }

  /**
   * The Rect visitor: one closed outline, one pixel thick, through the four
   * projected corners and back to the first.
   */
  function RectMarker(vp: ViewportState, m: Mat4, r: Rect, col: Color): (mk: MarkerCommand)
    ensures mk.color == col && mk.thickness == Some(1.0)
    ensures mk.shape.Polyline? && mk.shape.flags == 0
    ensures var pts := mk.shape.points;
            && |pts| == 5 && pts[4] == pts[0]
            && pts[..4] == [ToScreen(vp, m, r.p0), ToScreen(vp, m, r.p1), ToScreen(vp, m, r.p2), ToScreen(vp, m, r.p3)]
  {
    var q0 := ToScreen(vp, m, r.p0);
    var points := [q0, ToScreen(vp, m, r.p1), ToScreen(vp, m, r.p2), ToScreen(vp, m, r.p3), q0];
    MarkerCommand(Polyline(points[..5], 0), col, Some(1.0))
  }

  function RectMarkers(vp: ViewportState, m: Mat4, rects: seq<Rect>, col: Color): (ms: seq<MarkerCommand>)
    ensures |ms| == |rects|
    ensures forall i :: 0 <= i < |rects| ==> ms[i] == RectMarker(vp, m, rects[i], col)
  {
    seq(|rects|, i requires 0 <= i < |rects| => RectMarker(vp, m, rects[i], col))
  }

  const ArrowThickness: real := 4.0

  /** The Arrow visitor: a four-pixel shaft, then the filled head at the tip. */
  function ArrowMarkers(lib: Lib, vp: ViewportState, m: Mat4, p0: Vec3, p1: Vec3, col: Color): (ms: seq<MarkerCommand>)
    ensures var c0 := ClipToViewport(vp, Transform3(p0, m));
            var c1 := ClipToViewport(vp, Transform3(p1, m));
            var (hl, hr) := GetSide(lib, c0, c1);
            ms == [MarkerCommand(MarkerLine(c0, c1), col, Some(ArrowThickness)),
                   MarkerCommand(MarkerTriangle(c1, hl, hr), col, None)]
  {
    var c0 := ClipToViewport(vp, Transform3(p0, m));
    var c1 := ClipToViewport(vp, Transform3(p1, m));
    var (hl, hr) := GetSide(lib, c0, c1);
    var dl := AddLine(DrawList([], [], []), c0, c1, col, ArrowThickness);
    AddTriangleFilled(dl, c1, hl, hr, col).markers
  }

  /** The markers the gizmo visitor emits for one gizmo command, in the gizmo's colour. */
  function GizmoMarkers(lib: Lib, vp: ViewportState, m: Mat4, g: GizmoCommand): (ms: seq<MarkerCommand>)
    ensures |ms| == GizmoMarkerCount(g.shape)
    ensures forall k :: 0 <= k < |ms| ==> ms[k].color == g.color
  {
    match g.shape
    case RectGizmo(r) => [RectMarker(vp, m, r, g.color)]
    case CubeGizmo(cm) => RectMarkers(vp, m, CubeFaceRects(cm), g.color)
    case FrustumGizmo(fvp, _, _) => RectMarkers(vp, m, FrustumFaceRects(lib, fvp), g.color)
    case ArrowGizmo(p0, p1) => ArrowMarkers(lib, vp, m, p0, p1, g.color)
  }

  /** How many markers each kind of gizmo becomes: a rect one, a cube or frustum six, an arrow two. */
  function GizmoMarkerCount(s: GizmoShape): nat {
    match s
    case RectGizmo(_) => 1
    case CubeGizmo(_) => 6
    case FrustumGizmo(_, _, _) => 6
    case ArrowGizmo(_, _) => 2
  }

  function TotalGizmoMarkers(gs: seq<GizmoCommand>): nat {
    if |gs| == 0 then 0 else GizmoMarkerCount(gs[0].shape) + TotalGizmoMarkers(gs[1..])
  }

  /** The gizmo loop of ToMarker: every gizmo's markers, in queue order. */
  function GizmosToMarkers(lib: Lib, vp: ViewportState, m: Mat4, gs: seq<GizmoCommand>): (ms: seq<MarkerCommand>)
    ensures |ms| == TotalGizmoMarkers(gs)
    ensures |gs| > 0 ==> ms[..GizmoMarkerCount(gs[0].shape)] == GizmoMarkers(lib, vp, m, gs[0])
  {
    if |gs| == 0 then []
    else GizmoMarkers(lib, vp, m, gs[0]) + GizmosToMarkers(lib, vp, m, gs[1..])
  }

  /** Flattening a queue is flattening its two halves one after the other. */
  lemma {:induction false} GizmosToMarkersAppend(lib: Lib, vp: ViewportState, m: Mat4, a: seq<GizmoCommand>, b: seq<GizmoCommand>)
    ensures GizmosToMarkers(lib, vp, m, a + b) == GizmosToMarkers(lib, vp, m, a) + GizmosToMarkers(lib, vp, m, b)
  {
    if |a| == 0 {
      assert a + b == b;
    } else {
      assert (a + b)[0] == a[0];
      assert (a + b)[1..] == a[1..] + b;
      GizmosToMarkersAppend(lib, vp, m, a[1..], b);
    }
  }

  /** The primitive visitor: a line becomes a one-pixel line; a triangle draws nothing. */
  function PrimitiveMarkers(vp: ViewportState, m: Mat4, p: PrimitiveCommand): (ms: seq<MarkerCommand>)
    ensures p.shape.PrimitiveTriangle? ==> ms == []
    ensures p.shape.PrimitiveLine? ==>
              ms == [MarkerCommand(MarkerLine(ClipToViewport(vp, Transform3(p.shape.p0, m)),
                                              ClipToViewport(vp, Transform3(p.shape.p1, m))), p.color, Some(1.0))]
  {
    match p.shape
    case PrimitiveLine(p0, p1) =>
      AddLine(DrawList([], [], []), ClipToViewport(vp, Transform3(p0, m)), ClipToViewport(vp, Transform3(p1, m)), p.color).markers
    case PrimitiveTriangle(_, _, _) => []
  }

  function LineCount(ps: seq<PrimitiveCommand>): nat {
    if |ps| == 0 then 0 else (if ps[0].shape.PrimitiveLine? then 1 else 0) + LineCount(ps[1..])
  }

  function PrimitivesToMarkers(vp: ViewportState, m: Mat4, ps: seq<PrimitiveCommand>): (ms: seq<MarkerCommand>)
    ensures |ms| == LineCount(ps)
  {
    if |ps| == 0 then []
    else PrimitiveMarkers(vp, m, ps[0]) + PrimitivesToMarkers(vp, m, ps[1..])
  }

  /**
   * DrawList::ToMarker: appends the markers of every gizmo, then of every
   * primitive, after the markers already queued, and empties the gizmo and
   * primitive queues.
   */
  function ToMarker(lib: Lib, dl: DrawList, camera: Camera, vp: ViewportState): (r: DrawList)
    ensures |r.gizmos| == 0 && |r.primitives| == 0
    ensures |r.markers| == |dl.markers| + TotalGizmoMarkers(dl.gizmos) + LineCount(dl.primitives)
    ensures r.markers[..|dl.markers|] == dl.markers
  {
    DrawList([], [], dl.markers + Flattened(lib, dl.gizmos, dl.primitives, camera, vp))
  }

  /** What ToMarker appends: every gizmo's markers, then every primitive's. */
  function Flattened(lib: Lib, gs: seq<GizmoCommand>, ps: seq<PrimitiveCommand>, camera: Camera, vp: ViewportState): seq<MarkerCommand> {
    var m := ViewProjection(camera);
    GizmosToMarkers(lib, vp, m, gs) + PrimitivesToMarkers(vp, m, ps)
  }

  // ---------------------------------------------------------------- builders and ToMarker

  /** Begin's Clear followed by ToMarker draws nothing. */
  lemma ClearThenToMarker(lib: Lib, dl: DrawList, camera: Camera, vp: ViewportState)
    ensures ToMarker(lib, Clear(dl), camera, vp) == DrawList([], [], [])
  {
  }

  /**
   * A marker pushed by a builder before ToMarker keeps its index: flattening
   * `dl` with `mk` appended gives the markers of `dl`, then `mk`, then what
   * ToMarker would have appended to `dl`.
   */
  lemma ToMarkerAfterBuilder(lib: Lib, dl: DrawList, r: DrawList, mk: MarkerCommand, camera: Camera, vp: ViewportState)
    requires MarkerAppended(dl, r, mk)
    ensures var before := ToMarker(lib, dl, camera, vp).markers;
            var after := ToMarker(lib, r, camera, vp).markers;
            && after[|dl.markers|] == mk
            && after == dl.markers + [mk] + before[|dl.markers|..]
  {
    var tail := Flattened(lib, dl.gizmos, dl.primitives, camera, vp);
    assert ToMarker(lib, dl, camera, vp).markers[|dl.markers|..] == tail;
    assert ToMarker(lib, r, camera, vp).markers == (dl.markers + [mk]) + tail;
  }

  /**
   * Every marker builder appends one marker, so a line and a circle pushed
   * before ToMarker come out right after the earlier markers, in the order
   * they were pushed.
   */
  lemma BuildersBeforeToMarker(lib: Lib, dl: DrawList, p0: Vec2, p1: Vec2, center: Vec2, radius: real, col: Color,
                               camera: Camera, vp: ViewportState)
    ensures var out := ToMarker(lib, AddCircle(AddLine(dl, p0, p1, col), center, radius, col), camera, vp).markers;
            var n := |dl.markers|;
            && |out| >= n + 2 && out[..n] == dl.markers
            && out[n] == MarkerCommand(MarkerLine(p0, p1), col, Some(1.0))
            && out[n + 1] == MarkerCommand(Circle(center, radius, 0), col, Some(1.0))
  {
    var dl1 := AddLine(dl, p0, p1, col);
    var dl2 := AddCircle(dl1, center, radius, col);
    ToMarkerAfterBuilder(lib, dl1, dl2, MarkerCommand(Circle(center, radius, 0), col, Some(1.0)), camera, vp);
  }
}
