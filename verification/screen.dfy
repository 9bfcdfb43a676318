/**
 * screen.h: a front end that only queues geometry. A cube becomes its six
 * faces, each a default (white) rectangle gizmo.
 */
module ScreenFrame {
  import opened Wrappers
  import opened Vectors
  import opened MathLib
  import opened LinearAlgebra
  import opened Viewport
  import opened RayIntersection
  import opened Drawing

  datatype Screen = Screen(drawlist: DrawList)

  /** Screen::Begin: empties the queues. */
  function Begin(s: Screen): (r: Screen)
    ensures |r.drawlist.gizmos| == 0 && |r.drawlist.primitives| == 0 && |r.drawlist.markers| == 0
  {
    Screen(Clear(s.drawlist))
  }

  /** Screen::End: hands the frame's draw list to the caller. */
  function End(s: Screen): DrawList {
    s.drawlist
  }

  /** Default rectangle gizmos, one per rectangle, in order. */
  function RectGizmos(rects: seq<Rect>): (gs: seq<GizmoCommand>)
    ensures |gs| == |rects|
    ensures forall i :: 0 <= i < |rects| ==> gs[i] == DefaultGizmo(RectGizmo(rects[i]))
  {
    seq(|rects|, i requires 0 <= i < |rects| => DefaultGizmo(RectGizmo(rects[i])))
  }

  /**
   * Screen::Cube: queues the six faces of the unit cube moved by `matrix`,
   * each face's corners taken from the transformed corners in the face
   * table's order.
   */
  function Cube(s: Screen, matrix: Mat4): (r: Screen)
    ensures r.drawlist.primitives == s.drawlist.primitives && r.drawlist.markers == s.drawlist.markers
    ensures |r.drawlist.gizmos| == |s.drawlist.gizmos| + 6
    ensures r.drawlist.gizmos[..|s.drawlist.gizmos|] == s.drawlist.gizmos
    ensures forall t :: 0 <= t < 6 ==>
              var q := DrawFaces[t];
              var p := CubeCorners(matrix);
              r.drawlist.gizmos[|s.drawlist.gizmos| + t] == DefaultGizmo(RectGizmo(Rect(p[q.i0], p[q.i1], p[q.i2], p[q.i3])))
  {
    var gs := s.drawlist.gizmos + RectGizmos(CubeFaceRects(matrix));
    assert gs[..|s.drawlist.gizmos|] == s.drawlist.gizmos;
    Screen(s.drawlist.(gizmos := gs))
  }

  /**
   * A frame holds only what was queued since Begin: whatever the previous
   * frame left, Begin, one Cube and End hand over exactly that cube's six
   * rectangles, and a frame with nothing queued hands over nothing.
   */
  lemma FrameHoldsOnlyItsCube(s: Screen, matrix: Mat4)
    ensures End(Cube(Begin(s), matrix)) == DrawList(RectGizmos(CubeFaceRects(matrix)), [], [])
    ensures End(Begin(Begin(s))) == End(Begin(s)) == DrawList([], [], [])
  {
    var r := Cube(Begin(s), matrix);
    assert r.drawlist.gizmos == RectGizmos(CubeFaceRects(matrix));
  }

  /** Flattening default rectangle gizmos draws each rectangle once, in white. */
  lemma {:induction false} RectGizmosToMarkers(lib: Lib, vp: ViewportState, m: Mat4, rects: seq<Rect>)
    ensures GizmosToMarkers(lib, vp, m, RectGizmos(rects)) == RectMarkers(vp, m, rects, White)
  {
    if |rects| > 0 {
      RectGizmosToMarkers(lib, vp, m, rects[1..]);
      assert RectGizmos(rects)[1..] == RectGizmos(rects[1..]);
      assert RectMarkers(vp, m, rects, White) == [RectMarker(vp, m, rects[0], White)] + RectMarkers(vp, m, rects[1..], White);
    }
  }

  /**
   * The six rectangles Screen::Cube queues draw exactly the markers a white
   * cube gizmo of the same matrix draws.
   */
  lemma CubeDrawsLikeCubeGizmo(lib: Lib, vp: ViewportState, m: Mat4, s: Screen, matrix: Mat4)
    ensures GizmosToMarkers(lib, vp, m, Cube(s, matrix).drawlist.gizmos)
            == GizmosToMarkers(lib, vp, m, s.drawlist.gizmos) + GizmoMarkers(lib, vp, m, DefaultGizmo(CubeGizmo(matrix)))
  {
    var rects := CubeFaceRects(matrix);
    assert Cube(s, matrix).drawlist.gizmos == s.drawlist.gizmos + RectGizmos(rects);
    GizmosToMarkersAppend(lib, vp, m, s.drawlist.gizmos, RectGizmos(rects));
    RectGizmosToMarkers(lib, vp, m, rects);
  }
}
