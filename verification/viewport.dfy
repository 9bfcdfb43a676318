/**
 * viewport.h: the per-frame pointer/viewport snapshot, the clip-space to
 * pixel mapping and the pointer-to-segment test. camera.h carries an older
 * copy named ScreenState with the same fields and the same three operations;
 * it is modelled by this one.
 */
module Viewport {
  import opened Wrappers
  import opened Vectors
  import opened MathLib
  import opened LinearAlgebra

  /** ViewportFocus: None (named NoFocus here), Hover (pointer in the area), Active (captured). */
  datatype ViewportFocus = NoFocus | Hover | Active

  datatype ViewportState = ViewportState(
    focus: ViewportFocus,
    viewportX: real,
    viewportY: real,
    viewportWidth: real,
    viewportHeight: real,
    mouseX: real,
    mouseY: real,
    mouseDeltaX: real,
    mouseDeltaY: real,
    mouseLeftDown: bool,
    mouseRightDown: bool,
    mouseMiddleDown: bool,
    mouseWheel: real)

  /** The unsigned 32-bit pixel radii the source passes around. */
  type Pixel = x: int | 0 <= x < 0x1_0000_0000

  /**
   * The pointer lies in the closed rectangle [0, width] x [0, height];
   * ViewportX/ViewportY take no part.
   */
  function InViewport(vp: ViewportState): (r: bool)
    ensures r <==> 0.0 <= vp.mouseX <= vp.viewportWidth && 0.0 <= vp.mouseY <= vp.viewportHeight
  {
    if vp.mouseX < 0.0 then false
    else if vp.mouseX > vp.viewportWidth then false
    else if vp.mouseY < 0.0 then false
    else if vp.mouseY > vp.viewportHeight then false
    else true
  }

  lemma InViewportIgnoresOrigin(vp: ViewportState, x: real, y: real)
    ensures InViewport(vp.(viewportX := x, viewportY := y)) == InViewport(vp)
  {
  }

  /**
   * ClipToViewport: perspective divide, then NDC [-1, 1] to pixels with Y
   * flipped (NDC y = +1 is the top row).
   */
  function ClipToViewport(vp: ViewportState, c: Vec4): (r: Vec2)
    ensures Div(c.x, c.w) == -1.0 ==> r.x == 0.0
    ensures Div(c.x, c.w) == 1.0 ==> r.x == vp.viewportWidth
    ensures Div(c.y, c.w) == 1.0 ==> r.y == 0.0
    ensures Div(c.y, c.w) == -1.0 ==> r.y == vp.viewportHeight
    ensures c.x == 0.0 && c.y == 0.0 ==> r == Vec2(vp.viewportWidth / 2.0, vp.viewportHeight / 2.0)
  {
    var x := Div(c.x, c.w) * 0.5 + 0.5;
    var y := Div(-c.y, c.w) * 0.5 + 0.5;
    Vec2(x * vp.viewportWidth, y * vp.viewportHeight)
  }

  function Scale4(c: Vec4, k: real): Vec4 { Vec4(c.x * k, c.y * k, c.z * k, c.w * k) }

  lemma DivScale(a: real, b: real, k: real)
    requires k != 0.0
    ensures Div(a * k, b * k) == Div(a, b)
  {
    if b != 0.0 {
      assert b * k != 0.0;
      assert (a * k) / (b * k) == a / b;
    }
  }

  /** Homogeneous coordinates: scaling a clip position by any non-zero k lands on the same pixel. */
  lemma ClipToViewportScaleInvariant(vp: ViewportState, c: Vec4, k: real)
    requires k != 0.0
    ensures ClipToViewport(vp, Scale4(c, k)) == ClipToViewport(vp, c)
  {
    var s := Scale4(c, k);
    var qx := Div(c.x, c.w);
    var qy := Div(-c.y, c.w);
    DivScale(c.x, c.w, k);
    assert Div(s.x, s.w) == qx;
    DivScale(-c.y, c.w, k);
    assert -s.y == (-c.y) * k;
    assert Div(-s.y, s.w) == qy;
    var pixel := Vec2((qx * 0.5 + 0.5) * vp.viewportWidth, (qy * 0.5 + 0.5) * vp.viewportHeight);
    assert ClipToViewport(vp, s) == pixel;
    assert ClipToViewport(vp, c) == pixel;
  }

  /**
   * Intersect: the foot of the perpendicular from the pointer onto the
   * segment a-b, when the pointer projects inside the segment and lies within
   * `pixel` pixels of it.
   */
  function Intersect(lib: Lib, vp: ViewportState, a: Vec2, b: Vec2, pixel: Pixel): (r: Option<Vec2>)
    ensures var p := Vec2(vp.mouseX, vp.mouseY);
            var ab := Normalized2(lib, Sub2(b, a));
            var d := Dot2(Sub2(p, a), ab);
            && (Dot2(Sub2(p, b), Sub2(a, b)) < 0.0 ==> r.None?)
            && (d < 0.0 ==> r.None?)
            && (r.Some? ==> r.value == Add2(a, Scale2(ab, d)) && Length2(lib, Sub2(p, r.value)) <= pixel as real)
            && (r.None? ==> Dot2(Sub2(p, b), Sub2(a, b)) < 0.0 || d < 0.0
                              || Length2(lib, Sub2(p, Add2(a, Scale2(ab, d)))) > pixel as real)
  {
    var p := Vec2(vp.mouseX, vp.mouseY);
    var d := Dot2(Sub2(p, b), Sub2(a, b));
    if d < 0.0 then None
    else
      var ab := Normalized2(lib, Sub2(b, a));
      var d := Dot2(Sub2(p, a), ab);
      if d < 0.0 then None
      else
        var x := Add2(a, Scale2(ab, d));
        var len := Length2(lib, Sub2(p, x));
        if len > pixel as real then None
        else Some(x)
  }

  lemma DotScaled(u: Vec2, v: Vec2, f: real)
    ensures Dot2(u, Vec2(v.x * f, v.y * f)) == f * Dot2(u, v)
  {
  }

  lemma MulLe(f: real, e: real, m: real)
    requires 0.0 <= f && e <= m
    ensures f * e <= f * m
  {
    assert f * m - f * e == f * (m - e);
  }

  /**
   * A hit lies ON the segment: it is `a` moved towards `b` by a distance
   * between 0 and |b - a|.
   */
  lemma IntersectOnSegment(lib: Lib, vp: ViewportState, a: Vec2, b: Vec2, pixel: Pixel)
    requires SqrtLaw(lib)
    requires 0.0 < Dot2(Sub2(b, a), Sub2(b, a))
    requires Intersect(lib, vp, a, b, pixel).Some?
    ensures var p := Vec2(vp.mouseX, vp.mouseY);
            var ab := Normalized2(lib, Sub2(b, a));
            var d := Dot2(Sub2(p, a), ab);
            && 0.0 <= d <= Length2(lib, Sub2(b, a))
            && Intersect(lib, vp, a, b, pixel) == Some(Add2(a, Scale2(ab, d)))
  {
    var p := Vec2(vp.mouseX, vp.mouseY);
    var v := Sub2(b, a);
    Length2Facts(lib, v);
    var len := Length2(lib, v);
    var f := Div(1.0, len);
    assert f * len == 1.0;
    assert 0.0 <= f;
    var ab := Normalized2(lib, v);
    assert ab == Vec2(v.x * f, v.y * f);
    var e := Dot2(Sub2(p, a), v);
    var d := Dot2(Sub2(p, a), ab);
    DotScaled(Sub2(p, a), v, f);
    assert d == f * e;
    assert e == Dot2(v, v) - Dot2(Sub2(p, b), Sub2(a, b));
    assert 0.0 <= Dot2(Sub2(p, b), Sub2(a, b));
    assert e <= len * len;
    MulLe(f, e, len * len);
    assert f * (len * len) == (f * len) * len;
    assert f * (len * len) == len;
    LeChain(d, f * e, f * (len * len), len);
  }

  lemma LeChain(a: real, b: real, c: real, d: real)
    requires a == b && b <= c && c == d
    ensures a <= d
  {
  }
}
