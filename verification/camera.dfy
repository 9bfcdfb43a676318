/**
 * camera.h: the perspective projection, the camera pose and the turntable
 * navigation (yaw/pitch about the eye, shift, dolly towards a gaze point).
 */
module CameraControl {
  import opened Vectors
  import opened MathLib
  import opened LinearAlgebra
  import opened Viewport

  datatype Projection = Projection(fovY: real, nearZ: real, farZ: real, aspectRatio: real)

  /** The default projection: 30 degrees vertical field of view, near 0.01, far 1000, aspect 1. */
  const DefaultProjection: Projection := Projection(Radians(30.0), 0.01, 1000.0, 1.0)

  /** Projection::SetAspectRatio: aspect = width / height; nothing else changes. */
  function SetAspectRatio(p: Projection, width: real, height: real): (r: Projection)
    ensures r.(aspectRatio := p.aspectRatio) == p
    ensures height != 0.0 ==> r.aspectRatio * height == width
  {
    p.(aspectRatio := Div(width, height))
  }

  datatype Camera = Camera(
    projection: Projection,
    transform: EuclideanTransform,
    viewMatrix: Mat4,
    projectionMatrix: Mat4,
    gazeDistance: real,
    tmpYaw: real,
    tmpPitch: real)

  /** EuclideanTransform::InversedMatrix: Translation(-t) * Rotation(q^-1). */
  function InversedMatrix(lib: Lib, t: EuclideanTransform): Mat4 {
    Mul(TranslationMatrix(Neg3(t.translation)), lib.rotationMatrix(lib.quaternionInverse(t.rotation)))
  }

  /** EuclideanTransform::Invrsed: the inverse rigid transform. */
  function Inversed(lib: Lib, t: EuclideanTransform): EuclideanTransform {
    var r := lib.quaternionInverse(t.rotation);
    EuclideanTransform(r, lib.rotate(Neg3(t.translation), r))
  }

  /**
   * Camera::Update: the projection matrix comes from the projection
   * parameters and the view matrix is the inverse of the pose.
   */
  function Update(lib: Lib, c: Camera): (r: Camera)
    ensures r.(viewMatrix := c.viewMatrix, projectionMatrix := c.projectionMatrix) == c
    ensures r.projectionMatrix == lib.perspectiveFovRH(c.projection.fovY, c.projection.aspectRatio, c.projection.nearZ, c.projection.farZ)
    ensures r.viewMatrix == InversedMatrix(lib, c.transform)
  {
    var p := c.projection;
    c.(projectionMatrix := lib.perspectiveFovRH(p.fovY, p.aspectRatio, p.nearZ, p.farZ),
       viewMatrix := InversedMatrix(lib, c.transform))
  }

  /**
   * The cached matrices depend only on the pose and the projection
   * parameters: updating twice is updating once, and two cameras that agree
   * on those get the same view-projection.
   */
  lemma UpdateOnlyReadsPoseAndProjection(lib: Lib, c: Camera, d: Camera)
    requires c.transform == d.transform && c.projection == d.projection
    ensures Update(lib, Update(lib, c)) == Update(lib, c)
    ensures ViewProjection(Update(lib, c)) == ViewProjection(Update(lib, d))
  {
  }

  /** Camera::ViewProjection: the cached view matrix times the cached projection matrix. */
  function ViewProjection(c: Camera): Mat4 {
    Mul(c.viewMatrix, c.projectionMatrix)
  }

  /** The camera's forward row (m._31, m._32, m._33) of its rotation matrix. */
  function Forward(lib: Lib, c: Camera): Vec3 {
    MatrixAxisZ(lib.rotationMatrix(c.transform.rotation))
  }

  /** The point the turntable orbits: the eye moved back along forward by the gaze distance. */
  function Gaze(lib: Lib, c: Camera): Vec3 {
    Sub3(c.transform.translation, Scale3(Forward(lib, c), c.gazeDistance))
  }

  /** The pitch limit: a hundredth of a radian short of straight up or down. */
  const HalfPi: real := Pi / 2.0 - 0.01

  /** std::clamp(v, lo, hi). */
  function Clamp(v: real, lo: real, hi: real): (r: real)
    requires lo <= hi
    ensures lo <= r <= hi
    ensures lo <= v <= hi ==> r == v
  {
    if v < lo then lo else if hi < v then hi else v
  }

  /**
   * Camera::YawPitch: recomputes yaw and pitch from the forward row, adds the
   * pointer deltas in degrees, clamps the pitch, and rebuilds the pose about
   * the eye.
   */
  function YawPitch(lib: Lib, c: Camera, dx: int, dy: int): (r: Camera)
    ensures -HalfPi <= r.tmpPitch <= HalfPi
    ensures r.(transform := c.transform, tmpYaw := c.tmpYaw, tmpPitch := c.tmpPitch) == c
  {
    var inv := Inversed(lib, c.transform);
    var m := lib.rotationMatrix(c.transform.rotation);
    var x := m.r2.x;
    var y := m.r2.y;
    var z := m.r2.z;
    var yaw := lib.atan2(x, z) - Radians(dx as real);
    var qYaw := lib.quaternionRotationAxis(Vec3(0.0, 1.0, 0.0), yaw);
    var pitch := Clamp(lib.atan2(y, lib.sqrt(x * x + z * z)) + Radians(dy as real), -HalfPi, HalfPi);
    var qPitch := lib.quaternionRotationAxis(Vec3(-1.0, 0.0, 0.0), pitch);
    var q := lib.quaternionInverse(lib.quaternionMultiply(qPitch, qYaw));
    var et := EuclideanTransform(q, inv.translation);
    c.(transform := Inversed(lib, et), tmpYaw := yaw, tmpPitch := pitch)
  }

  /** Shift's pixels-to-world factor: tan(fovY / 2) * 2 * gaze distance / viewport height. */
  function ShiftFactor(lib: Lib, c: Camera, viewportHeight: real): real {
    Div(lib.tan(c.projection.fovY * 0.5) * 2.0 * c.gazeDistance, viewportHeight)
  }

  /**
   * Camera::Shift: pans the eye along the camera's left row (row 0) and up
   * row (row 1); only the translation changes.
   */
  function Shift(lib: Lib, c: Camera, dx: int, dy: int, viewportHeight: real): (r: Camera)
    ensures r.(transform := c.transform) == c
    ensures r.transform.rotation == c.transform.rotation
    ensures var m := lib.rotationMatrix(c.transform.rotation);
            Sub3(r.transform.translation, c.transform.translation)
              == Scale3(Sub3(Scale3(MatrixAxisY(m), dy as real), Scale3(MatrixAxisX(m), dx as real)),
                        ShiftFactor(lib, c, viewportHeight))
  {
    var factor := ShiftFactor(lib, c, viewportHeight);
    var m := lib.rotationMatrix(c.transform.rotation);
    var t := c.transform.translation;
    var t' := Vec3(t.x + (-m.r0.x * dx as real + m.r1.x * dy as real) * factor,
                   t.y + (-m.r0.y * dx as real + m.r1.y * dy as real) * factor,
                   t.z + (-m.r0.z * dx as real + m.r1.z * dy as real) * factor);
    c.(transform := c.transform.(translation := t'))
  }

  lemma ShiftByNothing(lib: Lib, c: Camera, viewportHeight: real)
    ensures Shift(lib, c, 0, 0, viewportHeight) == c
  {
  }

  /**
   * Camera::Dolly: a wheel notch away from the user (d > 0) shortens the gaze
   * distance by 10%, towards the user lengthens it by 10%; the eye moves
   * along forward so that the gaze point stays where it was.
   */
  function Dolly(lib: Lib, c: Camera, d: int): (r: Camera)
    ensures d == 0 ==> r == c
    ensures d > 0 ==> r.gazeDistance == c.gazeDistance * 0.9
    ensures d < 0 ==> r.gazeDistance == c.gazeDistance * 1.1
    ensures r.transform.rotation == c.transform.rotation
    ensures r.(transform := c.transform, gazeDistance := c.gazeDistance) == c
    ensures Gaze(lib, r) == Gaze(lib, c)
  {
    if d == 0 then c
    else
      var m := lib.rotationMatrix(c.transform.rotation);
      var f := MatrixAxisZ(m);
      var t := c.transform.translation;
      var gaze := Vec3(t.x - f.x * c.gazeDistance, t.y - f.y * c.gazeDistance, t.z - f.z * c.gazeDistance);
      var g := if d > 0 then c.gazeDistance * 0.9 else c.gazeDistance * 1.1;
      var t' := Vec3(gaze.x + f.x * g, gaze.y + f.y * g, gaze.z + f.z * g);
      c.(transform := c.transform.(translation := t'), gazeDistance := g)
  }

  /** static_cast<int>(float): truncation towards zero. */
  function TruncateToInt(x: real): (r: int)
    ensures 0.0 <= x ==> 0 <= r && r as real <= x < r as real + 1.0
    ensures x < 0.0 ==> r <= 0 && r as real - 1.0 < x <= r as real
  {
    if 0.0 <= x then x.Floor else -((-x).Floor)
  }

  /**
   * Camera::MouseInputTurntable: the aspect ratio follows the viewport;
   * right-drag turns and middle-drag shifts only while the viewport is
   * Active; the wheel dollies whenever it has any focus; Update runs last.
   */
  function MouseInputTurntable(lib: Lib, c: Camera, vp: ViewportState): (r: Camera)
    ensures r.projection == SetAspectRatio(c.projection, vp.viewportWidth, vp.viewportHeight)
    ensures r.projectionMatrix == lib.perspectiveFovRH(r.projection.fovY, r.projection.aspectRatio, r.projection.nearZ, r.projection.farZ)
    ensures r.viewMatrix == InversedMatrix(lib, r.transform)
    ensures vp.focus == NoFocus ==> r.transform == c.transform && r.gazeDistance == c.gazeDistance
    ensures vp.focus == Hover || (vp.focus == Active && !vp.mouseRightDown && !vp.mouseMiddleDown) ==>
              var d := Dolly(lib, c, TruncateToInt(vp.mouseWheel));
              r.transform == d.transform && r.gazeDistance == d.gazeDistance
  {
    var c1 := c.(projection := SetAspectRatio(c.projection, vp.viewportWidth, vp.viewportHeight));
    var c2 := if vp.focus == Active && vp.mouseRightDown
              then YawPitch(lib, c1, TruncateToInt(vp.mouseDeltaX), TruncateToInt(vp.mouseDeltaY))
              else c1;
    var c3 := if vp.focus == Active && vp.mouseMiddleDown
              then Shift(lib, c2, TruncateToInt(vp.mouseDeltaX), TruncateToInt(vp.mouseDeltaY), vp.viewportHeight)
              else c2;
    var c4 := if vp.focus != NoFocus then Dolly(lib, c3, TruncateToInt(vp.mouseWheel)) else c3;
    Update(lib, c4)
  }

  function Abs(x: real): real { if x < 0.0 then -x else x }

  /**
   * Camera::Fit: always resets the rotation. A box flatter than 1e-4 stops
   * there; otherwise the eye is centred on the box, the gaze distance is the
   * eye's z, and the clip planes are 1% and 100x the box diagonal.
   */
  function Fit(lib: Lib, c: Camera, min: Vec3, max: Vec3): (r: Camera)
    ensures r.transform.rotation == IdentityRotation
    ensures Abs(max.y - min.y) < 0.0001 ==> r == c.(transform := c.transform.(rotation := IdentityRotation))
    ensures Abs(max.y - min.y) >= 0.0001 ==>
              && r.gazeDistance == r.transform.translation.z
              && r.projection.farZ == 10000.0 * r.projection.nearZ
              && r.transform.translation.x == (min.x + max.x) / 2.0
              && r.transform.translation.y == (min.y + max.y) / 2.0
              && r.projection.fovY == c.projection.fovY
              && r.projection.aspectRatio == c.projection.aspectRatio
  {
    var c1 := c.(transform := c.transform.(rotation := IdentityRotation));
    var height := max.y - min.y;
    if Abs(height) < 0.0001 then c1
    else
      var distance := Div(height * 0.5, lib.atan(c.projection.fovY * 0.5));
      var t := Vec3((max.x + min.x) * 0.5, (max.y + min.y) * 0.5, distance * 1.2);
      var r := Length3(lib, Sub3(min, max));
      c1.(transform := c1.transform.(translation := t),
          gazeDistance := t.z,
          projection := c1.projection.(nearZ := r * 0.01, farZ := r * 100.0))
  }

  /**
   * Camera::GetRay: a ray from the eye through the pointer pixel, built from
   * the half-angle tangent and aspect ratio, rotated into world space and
   * normalised. At the viewport centre it looks down the camera's -Z axis.
   */
  function GetRay(lib: Lib, c: Camera, vp: ViewportState): (ray: Ray)
    ensures ray.origin == c.transform.translation
    ensures vp.mouseX == vp.viewportWidth / 2.0 && vp.mouseY == vp.viewportHeight / 2.0 ==>
              ray.direction == Normalized3(lib, lib.rotate(Vec3(0.0, 0.0, -1.0), c.transform.rotation))
  {
    var t := lib.tan(c.projection.fovY / 2.0);
    var h := vp.viewportHeight / 2.0;
    var y := Div(t * (h - vp.mouseY), h);
    var w := vp.viewportWidth / 2.0;
    var x := Div(t * c.projection.aspectRatio * (vp.mouseX - w), w);
    assert vp.mouseY == h ==> t * (h - vp.mouseY) == 0.0;
    assert vp.mouseX == w ==> t * c.projection.aspectRatio * (vp.mouseX - w) == 0.0;
    Ray(c.transform.translation, Normalized3(lib, lib.rotate(Vec3(x, y, -1.0), c.transform.rotation)))
  }
}
