# RectRay gizmo layer in Dafny

RectRay is a small C++ library for immediate-mode 3D gizmos (DirectXMath based).
Each frame follows the same steps:

1. A front end (`Gui`, its older variant `Interface`, or the geometry-only `Screen`) takes the camera and pointer state and casts a pointer ray.
2. The caller submits shapes: arrows, cubes, frustums, ray lines and the translate handle.
3. Each submitted shape is hit-tested and queued on a draw list.
4. At the end of the frame the nearest hit is highlighted and the hover/drag state machine advances.
5. `DrawList::ToMarker` flattens the queued 3D gizmos and primitives into 2D markers for a renderer.

This project models that layer as pure functions over immutable values. Vectors are real-valued. Transcendental and DirectXMath operations are uninterpreted: `sqrt`, `tan`, `atan`, `atan2`, the quaternion operations, matrix inverse, the perspective matrix and the ray/triangle test. They are fields of a `MathLib.Lib` record that every operation takes as a parameter. The few facts a proof needs about them (for `sqrt`, `SqrtLaw`) appear as `requires` of the lemmas that use them. Matrix products, `XMVector3Transform`, `XMVector4Transform` and `XMMatrixTranslation` are modelled concretely as row-vector algebra.

Modules, one per source file:

| module | file |
|---|---|
| `Wrappers` | `Option` |
| `Vectors` | operators of `linearalgebra.h` and the DirectXMath matrix algebra |
| `MathLib` | the uninterpreted operations |
| `LinearAlgebra` | `linearalgebra.h` |
| `Viewport` | `viewport.h` |
| `CameraControl` | `camera.h` |
| `Nearest` | the first-minimum fold shared by the cube hit test and both `End`s |
| `RayIntersection` | `intersects.h` |
| `FrameContext` | `context.h` |
| `Drawing` | `drawlist.h` |
| `TranslationDrag` | `drag/translation.h` |
| `GuiFrame` | `gui.h` |
| `InterfaceFrame` | `interface.h` |
| `ScreenFrame` | `screen.h` |

The files are mid-refactor and some calls do not resolve. The model follows each file's evident intent:
- `context.h` calls `Viewport.Intersects`; `viewport.h` defines `Intersect`, which the model uses.
- `gui.h` stores a `DragFunc` but receives a factory of another type, and that factory calls a `Translation` constructor (with a `DragType`) that `translation.h` does not have.
  - The model's gizmo carries a `DragStarter` token, `TranslateLocalX(matrix)`.
  - `GuiFrame.End` turns the token into a drag with `TranslationDrag.LocalX`, the only factory `translation.h` offers.
  - `GuiFrame.Translate` runs the stored drag through `TranslationDrag.Drag`, the drag as written.
- `screen.h`'s `Begin` takes a `MouseState`, which no file defines. The model's `ScreenFrame.Begin` takes no camera or pointer, since the source ignores both.
- Every caller of the plane test (`Context`'s `Drag`, `Translation::Initialize` and `Drag`, `Gui::Ray`) uses it as written, so their points lie on the mirror plane (first finding). The corrected chain is kept beside them under its own names: `RayIntersection.RayPlane`, `TranslationDrag.InitializeCorrected`, `TranslationDrag.LocalXCorrected` and `TranslationDrag.DragCorrected`.
- `camera.h` repeats the vector operators, `EuclideanTransform`, `Ray` and `ScreenState`. Each is modelled once, from `linearalgebra.h` and `viewport.h`; `ScreenState` is `ViewportState`.

## Model

| member | source | states |
|---|---|---|
| `Vectors.Div` | src/rectray/linearalgebra.h:29-31 | Dividing by a non-zero divisor gives the quotient (q·b = a). A zero divisor gives 0 instead of an IEEE infinity. |
| `Vectors.Cross` | src/rectray/linearalgebra.h:32-35 | The cross product is orthogonal to both of its arguments. |
| `Vectors.Lagrange` | src/rectray/linearalgebra.h:32-35 | Lagrange's identity: \|l×r\|² = \|l\|²\|r\|² − (l·r)². |
| `Vectors.CrossSelfIsZero` | src/rectray/linearalgebra.h:32-35 | A vector crossed with itself is the zero vector. |
| `Vectors.VectorLaws2` | src/rectray/linearalgebra.h:18-38 | The 2D operators are componentwise: (a+b)−b = a, + commutes, Dot is symmetric and scales linearly. |
| `Vectors.VectorLaws3` | src/rectray/linearalgebra.h:45-61 | The 3D operators are componentwise: (a+b)−b = a, a−b = a+(−b), −a = a·(−1), + commutes, Dot is symmetric and scales linearly. |
| `Vectors.TranslationMatrixRows` | src/rectray/linearalgebra.h:68-83 | The axis and position accessors read back a translation matrix's identity axes and its offset. |
| `Vectors.MulIdentity` | src/rectray/drag/translation.h:77-79 | Post-multiplying by the identity (a zero translation) leaves a matrix unchanged. |
| `Vectors.CombineTranslation` | src/rectray/drag/translation.h:77-79 | A row times a translation matrix moves the row's xyz by the offset scaled by the row's w. |
| `Vectors.MulTranslation` | src/rectray/drag/translation.h:77-79 | m·Translation(d) moves each row by d scaled by that row's w. For an affine matrix only the position moves. |
| `LinearAlgebra.Length2Facts` | src/rectray/linearalgebra.h:39 | A 2D length is non-negative and squares to Dot(v,v). It is positive when Dot(v,v) is. |
| `LinearAlgebra.Length3Facts` | src/rectray/linearalgebra.h:62 | A 3D length is non-negative and squares to Dot(v,v). It is positive when Dot(v,v) is. |
| `LinearAlgebra.NormalizedIsUnit2` | src/rectray/linearalgebra.h:39-43 | Normalising a non-zero 2D vector gives a unit vector. |
| `LinearAlgebra.NormalizedIsUnit3` | src/rectray/linearalgebra.h:62-66 | Normalising a non-zero 3D vector gives a unit vector. |
| `LinearAlgebra.RootOfSquare` | src/rectray/linearalgebra.h:39 | sqrt(x²) = x for x ≥ 0, so a length of a scaled unit vector is the scale. |
| `LinearAlgebra.HasRotation` | src/rectray/linearalgebra.h:96-102 | False exactly when the quaternion is (0,0,0,1) or (0,0,0,−1). The camera.h copy at lines 127-133 has the same truth table and is this member. |
| `LinearAlgebra.Point` | src/rectray/linearalgebra.h:186-192 | Point(0) is the origin, and Point(t) − origin = direction·t. |
| `LinearAlgebra.CreatePlain` | src/rectray/linearalgebra.h:199-203 | The plane's normal is the normalised argument and D = Dot(n, p), so p lies on the plane n·x = D. |
| `LinearAlgebra.CreatePlainDefaults` | src/rectray/linearalgebra.h:199-203 | With the default point the stored D is 0, and a non-zero normal becomes a unit normal. |
| `Viewport.InViewport` | src/rectray/viewport.h:29-43 | True exactly when 0 ≤ MouseX ≤ Width and 0 ≤ MouseY ≤ Height (inclusive bounds). |
| `Viewport.InViewportIgnoresOrigin` | src/rectray/viewport.h:29-43 | ViewportX and ViewportY take no part in the test. |
| `Viewport.ClipToViewport` | src/rectray/viewport.h:45-52 | NDC x = −1/+1 maps to pixel 0/Width and NDC y = +1/−1 maps to pixel 0/Height (Y flipped). Clip x = y = 0 is the centre pixel. |
| `Viewport.ClipToViewportScaleInvariant` | src/rectray/viewport.h:45-52 | Scaling a clip position by any non-zero k lands on the same pixel. |
| `Viewport.Intersect` | src/rectray/viewport.h:54-73 | None when the pointer projects before a or beyond b. None when the foot is farther than `pixel` from the pointer. Otherwise the foot of the perpendicular. |
| `Viewport.IntersectOnSegment` | src/rectray/viewport.h:57-72 | A returned point is a + unit(b−a)·d with 0 ≤ d ≤ \|b−a\|, within `pixel` of the pointer. |
| `CameraControl.SetAspectRatio` | src/rectray/camera.h:68-70 | aspect·height = width; nothing else in the projection changes. |
| `CameraControl.Update` | src/rectray/camera.h:405-408 | The projection matrix is the perspective of the projection parameters. The view matrix is the inverse of the pose. Nothing else changes. |
| `CameraControl.UpdateOnlyReadsPoseAndProjection` | src/rectray/camera.h:405-408 | Updating twice is updating once, and two cameras with the same pose and projection parameters get the same view-projection. |
| `CameraControl.Clamp` | src/rectray/camera.h:326-328 | The result lies in [lo, hi] and equals v when v already does. |
| `CameraControl.YawPitch` | src/rectray/camera.h:307-338 | The stored pitch stays within ±(π/2 − 0.01). Only the pose and the yaw/pitch scratch values change. |
| `CameraControl.Shift` | src/rectray/camera.h:340-358 | Only the translation moves, by (up·dy − left·dx)·tan(fovY/2)·2·gaze/height. |
| `CameraControl.ShiftByNothing` | src/rectray/camera.h:340-358 | Shift(0, 0) is the identity. |
| `CameraControl.Dolly` | src/rectray/camera.h:360-385 | d = 0 changes nothing. d > 0 scales the gaze distance by 0.9 and d < 0 by 1.1. The rotation is unchanged and the gaze point is preserved exactly. |
| `CameraControl.TruncateToInt` | src/rectray/camera.h:391-400 | static_cast<int> truncates toward zero for both signs. |
| `CameraControl.MouseInputTurntable` | src/rectray/camera.h:387-403 | The aspect always follows the viewport, and Update always runs. Without focus, the pose and gaze distance are untouched. With Hover, or Active with no button held, only the wheel dolly applies. |
| `CameraControl.Fit` | src/rectray/camera.h:415-434 | Rotation is always reset. A box flatter than 1e-4 changes nothing else. Otherwise the eye is centred on the box in x and y, gaze = eye z, and far = 10000·near. |
| `CameraControl.GetRay` | src/rectray/camera.h:441-463 | The ray starts at the eye. At the centre pixel it points along the rotated −Z axis. |
| `Nearest.FirstMinimum` | src/rectray/gui.h:55-62 | None exactly when no entry has a hit. Otherwise the index of a hit that is strictly below every earlier hit and at most every later one. |
| `Nearest.FirstMinimumUnique` | src/rectray/gui.h:55-62 | At most one index satisfies that description, so it pins down the fold's result. |
| `Nearest.FirstMinimumTieBreak` | src/rectray/gui.h:57 | With two equal smallest hits, the strict `<` picks the earlier one. |
| `RayIntersection.RayPlaneAsWritten` | src/rectray/intersects.h:6-9 | There is always a value (no zero-denominator guard). When the ray is not parallel, the hit satisfies n·x + D = 0. |
| `RayIntersection.RayPlane` | src/rectray/intersects.h:6-9 | Corrected sign: there is always a value, and a non-parallel hit satisfies n·x = D, the plane Plain::Create builds. |
| `RayIntersection.RayPlaneAsWrittenMirrors` | src/rectray/intersects.h:6-9 | On a created plane through p, the as-written hit lies on n·x = −n·p. It is on the intended plane only when that plane passes through the origin. |
| `RayIntersection.RayPlaneHitsCreatedPlane` | src/rectray/intersects.h:6-9 | On a created plane through p, the corrected hit lies on the plane through p. |
| `RayIntersection.MirroredPlaneExample` | src/rectray/intersects.h:6-9 | For the plane with normal +Z through (0,0,1), any non-parallel ray hits z = −1 as written and z = 1 corrected. |
| `RayIntersection.CubeCorners` | src/rectray/intersects.h:45-58 | The eight corners of the ±0.5 cube, each transformed by the matrix. |
| `RayIntersection.FaceHit` | src/rectray/intersects.h:74-93 | A face reports triangle (i0,i1,i2) when it hits, and only otherwise triangle (i2,i3,i0). |
| `RayIntersection.FaceHits` | src/rectray/intersects.h:72-94 | Six face results, one per face-table row, in order. |
| `RayIntersection.RayCube` | src/rectray/intersects.h:35-100 | None exactly when no triangle test succeeds on any face. Otherwise one of the face hits, no larger than any of them. |
| `FrameContext.Begin` | src/rectray/context.h:13-19 | Camera and viewport are copied. With focus, the ray is recast from the eye; without focus, the previous ray is kept. |
| `FrameContext.BeginFrames` | src/rectray/context.h:13-19 | After one or more frames, the context holds the last frame's camera and viewport. After none, it is unchanged. |
| `FrameContext.BeginUnfocusedKeepsRay` | src/rectray/context.h:13-19 | Any number of unfocused frames in a row keep the ray cast before them (proved by induction over the frames). |
| `FrameContext.BeginRayFromLastFocus` | src/rectray/context.h:13-19 | After a run of frames, the ray is the one cast in the last frame with focus, however many unfocused frames follow it. |
| `FrameContext.PixelToLengthIsConstant` | src/rectray/context.h:21-24 | The placeholder returns 0.1 whatever its arguments. |
| `FrameContext.WorldToViewport` | src/rectray/context.h:26-32 | A point whose clip x and y are 0 maps to the centre pixel. |
| `FrameContext.WorldToViewportOfMatrix` | src/rectray/context.h:34-36 | The matrix overload is the point overload applied to row 3. |
| `FrameContext.WorldToViewportOfTranslated` | src/rectray/context.h:34-36 | For a matrix whose row 3 has w = 1, moving it by a translation moves its pixel to the pixel of position + offset. |
| `FrameContext.Intersects` | src/rectray/context.h:38-52 | No ray means no hit. With a ray, there is a hit exactly when the viewport segment test succeeds. |
| `FrameContext.IntersectsOnSegment` | src/rectray/context.h:44-51 | A hit's ratio \|c−c0\|/\|c1−c0\| lies in [0,1]. The value is the non-negative distance from the eye to s + (e−s)·ratio. |
| `FrameContext.NewDrag` | src/rectray/context.h:85-102 | The matrix is stored and the plane passes through its position. World and pixel exist exactly when there is a ray. The pixel is the world point's projection. A non-parallel world point comes from the as-written plane test, so it satisfies n·x + D = 0: it is on the mirror plane n·x = −n·position. |
| `Drawing.Clear` | src/rectray/drawlist.h:121-125 | All three queues are empty. |
| `Drawing.AddLine` | src/rectray/drawlist.h:127-130 | Exactly one line marker is appended, with thickness (default 1). Nothing else changes. |
| `Drawing.AddTriangleFilled` | src/rectray/drawlist.h:132-136 | Exactly one triangle marker is appended, without thickness. |
| `Drawing.AddCircle` | src/rectray/drawlist.h:138-142 | Exactly one circle marker is appended, with segments (default 0) and thickness (default 1). |
| `Drawing.AddCircleFilled` | src/rectray/drawlist.h:144-147 | Exactly one circle marker is appended, without thickness. |
| `Drawing.CString` | src/rectray/drawlist.h:152-153 | The prefix of the buffer before its first NUL: no NUL inside, and a NUL right after it (if any). |
| `Drawing.AddText` | src/rectray/drawlist.h:149-155 | Exactly one text marker is appended, without thickness. With an end pointer its label is text[..end]. Without one it is the prefix before the first NUL: no NUL inside, and a NUL right after it unless it is the whole buffer. |
| `Drawing.AddPolyline` | src/rectray/drawlist.h:157-163 | Exactly one polyline is appended, holding the first n points in order with the given flags and thickness. |
| `Drawing.AddConvexPolyFilled` | src/rectray/drawlist.h:165-170 | Exactly one polyline is appended, holding the first n points, flags 0 and no thickness. |
| `Drawing.GetSideGeometry` | src/rectray/drawlist.h:40-48 | The arrow head's wings are symmetric about p = e − 10·unit(e−s), perpendicular to the shaft, and 10 pixels from p. p is 10 pixels from the tip. |
| `Drawing.FaceTablesAgree` | src/rectray/drawlist.h:245-248 | The drawing face table and intersects.h's triangle table (lines 60-67) name the same corner sets, row for row. |
| `Drawing.DrawFacesAreCubeFaces` | src/rectray/drawlist.h:229-248 | Row t's corners all have ±0.5 on the axis its comment names (+x +y +z −x −y −z). Consecutive corners share a cube edge. |
| `Drawing.FaceTableCombinatorics` | src/rectray/drawlist.h:245-248 | Every row has four distinct corners, and every corner of the cube is on exactly three rows. |
| `Drawing.CubeFaceRects` | src/rectray/drawlist.h:221-255 | Six rectangles. Rectangle t's corners are the transformed cube corners at face-table row t, in row order. |
| `Drawing.FrustumFaceRects` | src/rectray/drawlist.h:257-312 | Six rectangles of NDC-box corners, unprojected through the inverse view-projection and divided by w, per face-table row. |
| `Drawing.RectMarker` | src/rectray/drawlist.h:185-219 | One closed 5-point polyline (points[4] = points[0]) through the four projected corners, thickness 1, flags 0, in the gizmo's colour. |
| `Drawing.RectMarkers` | src/rectray/drawlist.h:249-254 | One rectangle outline per face, in order. |
| `Drawing.ArrowMarkers` | src/rectray/drawlist.h:314-329 | A thickness-4 line c0→c1, then a filled triangle whose first vertex is the projected tip c1 and the others GetSide's wings. |
| `Drawing.GizmoMarkers` | src/rectray/drawlist.h:332-334 | A rect gives 1 marker, a cube or frustum 6, an arrow 2, all in the gizmo's colour. |
| `Drawing.GizmosToMarkers` | src/rectray/drawlist.h:332-335 | Flattening the queue yields the sum of the per-gizmo counts, the first gizmo's markers first. |
| `Drawing.GizmosToMarkersAppend` | src/rectray/drawlist.h:332-335 | Flattening a concatenated queue is concatenating the flattened halves. |
| `Drawing.PrimitiveMarkers` | src/rectray/drawlist.h:344-358 | A primitive line becomes one projected line of thickness 1 in its colour. A primitive triangle becomes nothing. |
| `Drawing.PrimitivesToMarkers` | src/rectray/drawlist.h:361-364 | As many markers as there are line primitives. |
| `Drawing.ToMarker` | src/rectray/drawlist.h:172-365 | Gizmo and primitive queues are emptied. The earlier markers stay a prefix, followed by exactly the per-gizmo counts plus one per line primitive. |
| `Drawing.ClearThenToMarker` | src/rectray/drawlist.h:121-125 | Clear followed by ToMarker yields an empty draw list. |
| `Drawing.ToMarkerAfterBuilder` | src/rectray/drawlist.h:127-172 | A marker a builder appends before ToMarker keeps its index. The flattened result is the earlier markers, then that marker, then what ToMarker would have appended without it. |
| `Drawing.BuildersBeforeToMarker` | src/rectray/drawlist.h:127-142 | A line then a circle pushed before ToMarker come out right after the earlier markers, in push order, with their default thickness and segments. |
| `TranslationDrag.Initialize` | src/rectray/drag/translation.h:26-45 | Stores m and its row 3. The plane has the normalised normal and passes through row 3. The start point is the stored ray's as-written hit, so a non-parallel one satisfies n·x = −D. Both viewport points are the projections of the stored world points. |
| `TranslationDrag.InitializeCorrected` | src/rectray/drag/translation.h:26-45 | The same with the corrected plane test: a non-parallel start point is on the drag plane n·x = D. |
| `TranslationDrag.LocalXNormal` | src/rectray/drag/translation.h:90-92 | Cross(Cross(axis, dir), axis) is orthogonal to the axis, and its dot with dir is \|axis×dir\|² ≥ 0. |
| `TranslationDrag.LocalX` | src/rectray/drag/translation.h:83-98 | None exactly when the context has no ray. Otherwise the drag initialised with that normal, whose plane normal is orthogonal to row 0 of m. |
| `TranslationDrag.LocalXCorrected` | src/rectray/drag/translation.h:83-98 | The same, built on `InitializeCorrected`. |
| `TranslationDrag.NormalizedKeepsOrthogonal` | src/rectray/drag/translation.h:90-94 | Normalising a normal keeps it orthogonal to the axis. |
| `TranslationDrag.LocalXNormalFacesRay` | src/rectray/drag/translation.h:90-94 | For a non-zero axis not parallel to the ray, the unit local-X normal has a positive component along the ray, so the ray crosses the plane. |
| `TranslationDrag.LocalXStartOnMirrorPlane` | src/rectray/drag/translation.h:36-41 | For a non-degenerate axis not parallel to the ray, the plane faces the ray (n·dir > 0), and the as-written start point is on n·x = −D. It is on the drag plane exactly when the position is on the plane through the origin. |
| `TranslationDrag.LocalXCorrectedStartOnPlane` | src/rectray/drag/translation.h:36-41 | Under the same conditions, the corrected start point is on the drag plane n·x = D. |
| `TranslationDrag.Drag` | src/rectray/drag/translation.h:56-81 | As written: exactly two circles of radius 6 and colour 0xFF0088FF are appended, the first at the start pixel. |
| `TranslationDrag.DragNeverMoves` | src/rectray/drag/translation.h:61-79 | As written, for every handle whose start point is the stored ray's hit (all that Initialize makes), re-intersecting the stored ray yields the start point, so the result is the start matrix whatever the pointer does. |
| `TranslationDrag.DragCorrected` | src/rectray/drag/translation.h:56-81 | With the current ray: the start circle, plus a second one of the same style when there is a ray. Without a ray the matrix is left as it is. |
| `TranslationDrag.DragCorrectedStaysOnPlane` | src/rectray/drag/translation.h:61-79 | For an affine start matrix and a handle from `InitializeCorrected`, the axes are kept. The position moves by exactly the pointer's movement on the plane and stays on the drag plane. |
| `GuiFrame.Begin` | src/rectray/gui.h:34-38 | Hits and all three queues are emptied, the drag is kept, and the context is rebuilt. The hits invariant holds afterwards. |
| `GuiFrame.End` | src/rectray/gui.h:40-76 | While a drag is held, reports Drag with no Closest and changes nothing. Otherwise the drag ends, only the first-minimum gizmo turns yellow and its handle is reported, and a drag starts only on a press over a gizmo with a starter. No hit means no change, no Closest and no drag. |
| `GuiFrame.EndKeepsGizmos` | src/rectray/gui.h:55-66 | End changes nothing but colours, so queue length, shapes, handles and hits survive and `hits` still lists the queued hits. |
| `GuiFrame.EndReportsNearest` | src/rectray/gui.h:55-62 | The reported gizmo has a hit no larger than any other gizmo's. |
| `GuiFrame.Arrow` | src/rectray/gui.h:79-90 | One arrow is queued with no handle, the four-pixel hit test and the caller's starter. Its hit, if any, is appended to `hits`. |
| `GuiFrame.Cube` | src/rectray/gui.h:92-105 | One white cube is queued with the caller's handle. It is hit-tested only when there is a ray, and its hit is appended to `hits`. |
| `GuiFrame.Frustum` | src/rectray/gui.h:107-114 | One white frustum without a hit is queued, and `hits` is unchanged. |
| `GuiFrame.Ray` | src/rectray/gui.h:116-126 | One yellow line primitive is appended, from the ray's origin to the as-written hit, which satisfies n·x + D = 0 (the mirror of the far plane) when the ray is not parallel to it. |
| `GuiFrame.Translate` | src/rectray/gui.h:148-166 | Always queues one arrow from the position to position + (1,0,0), with no handle and the four-pixel hit. It returns true exactly when a drag is held. Then the arrow has the dragging colour and no starter, and the stored handle's as-written Drag sets the matrix and appends exactly two same-style circles, the first at the start pixel. For a recorded handle the matrix is the one at drag start. Otherwise the arrow is 0xFF0000FF with a local-X starter, and the matrix and markers are unchanged. |
| `GuiFrame.EndKeepsDragRecorded` | src/rectray/gui.h:44-73 | Every drag End keeps or starts has its start point recorded from its start ray. |
| `GuiFrame.HeldDragReturnsPressedMatrix` | src/rectray/gui.h:64-73 | A press on the translate arrow of a matrix starts a drag whose start matrix is that matrix. In the next frame, with the button held, Translate reports a drag and returns that matrix, whatever matrix it is given. |
| `InterfaceFrame.Begin` | src/rectray/interface.h:34-41 | The queues are emptied and a fresh context is built whose ray exists exactly when there is focus. |
| `InterfaceFrame.BeginAgreesWithGuiWhenFocused` | src/rectray/interface.h:34-41 | With focus, the fresh context equals the one the Gui builds. Without focus, the Gui keeps its old ray while Interface has none. |
| `InterfaceFrame.End` | src/rectray/interface.h:42-60 | Only the first-minimum gizmo turns yellow and its handle is reported. No hit changes nothing. Target and Updated stay empty. |
| `InterfaceFrame.EndAgreesWithGui` | src/rectray/interface.h:42-60 | On the same queue, Interface's End highlights and reports what Gui's End does when no drag is held. |
| `InterfaceFrame.EndIgnoresUnhit` | src/rectray/interface.h:46-52 | Queuing a gizmo without a hit never changes what End reports. |
| `InterfaceFrame.Arrow` | src/rectray/interface.h:63-70 | One arrow is queued in the caller's colour, with no hit and no handle, so it can never be selected. |
| `InterfaceFrame.Cube` | src/rectray/interface.h:72-83 | One white cube with the handle is queued, hit-tested only when there is a ray. Without a ray it cannot change End's report. |
| `InterfaceFrame.Frustum` | src/rectray/interface.h:85-92 | One white frustum is queued, which cannot change End's report. |
| `InterfaceFrame.Ray` | src/rectray/interface.h:94-100 | One yellow line primitive is appended, from the origin to the point at parameter zFar. |
| `ScreenFrame.Begin` | src/rectray/screen.h:12-14 | All queues are empty. |
| `ScreenFrame.FrameHoldsOnlyItsCube` | src/rectray/screen.h:12-50 | Whatever the previous frame left, Begin, one Cube and End hand over exactly that cube's six rectangles. A frame with nothing queued hands over nothing. |
| `ScreenFrame.RectGizmos` | src/rectray/screen.h:45-49 | One default gizmo per rectangle (white, no handle, no hit), in order. |
| `ScreenFrame.Cube` | src/rectray/screen.h:16-50 | Exactly six gizmos are appended and nothing else changes. Gizmo t is the default rect over the transformed cube corners at face-table row t. |
| `ScreenFrame.RectGizmosToMarkers` | src/rectray/screen.h:45-49 | Flattening default rect gizmos draws each rectangle once, in white. |
| `ScreenFrame.CubeDrawsLikeCubeGizmo` | src/rectray/screen.h:16-50 | The six rects Screen::Cube queues draw exactly the markers a white cube gizmo of the same matrix draws. |

## Left out

- `examples/glfw_imgui` (OpenGL, GLFW and ImGui plumbing) and `drag/drag.h` (a type alias) are not part of this model.
- IEEE floating point is not modelled: rounding, infinities, NaN. Division by zero yields 0 (`Vectors.Div`), where the source gets an infinity or NaN.
- `Ray::IsValid` and GetRay's `isfinite` check cannot fail on reals, so `CameraControl.GetRay` always returns a ray.
- `RayIntersection.RayCube` models the `+∞` sentinel as `None`. The final `isfinite` check, which would also reject a hit at distance +∞, is not modelled.
- The DirectXMath internals are uninterpreted fields of `MathLib.Lib`: quaternion to matrix, quaternion inverse and multiply, vector rotation, `XMMatrixInverse`, `XMMatrixPerspectiveFovRH`, `TriangleTests::Intersects`, plus `sqrt`, `tan`, `atan` and `atan2`. Only the `sqrt` law is assumed, and only by the lemmas that need it.
- `Gui::Debug` (gui.h:128-146) is not modelled. It draws another Gui's frustum, ray and hit circles, and calls `Camera::FarPlain`, which no file defines.
- `Translation::LocalX` hands out one static instance re-initialised on every call, and stores a drawlist pointer. The model returns a fresh value and passes the draw list explicitly, so aliasing between drags is not modelled.
- `Translation::Initialize` aborts (`assert(false)`) without a ray. `TranslationDrag.Initialize` therefore requires one, and `LocalX` only calls it with one.
- The `Space` argument of `Gui::Translate` is unused by the source, and the model ignores it too.
- The `Target` and `Updated` fields of interface.h's `Result` are never set; `InterfaceFrame.End` leaves them `None`.
- CameraControl.Fit: does not state the eye's z, the distance formula `height·0.5/atan(fovY·0.5)·1.2`, or near = 1% of the box diagonal. `atan` is uninterpreted, so only the relations between the outputs are stated.
- CameraControl.GetRay: states the origin, and the direction only at the centre pixel. `tan` and the rotation are uninterpreted.
- CameraControl.YawPitch: states the pitch clamp and what stays unchanged, not the new angles. The `atan2` results are uninterpreted.
- TranslationDrag.LocalXStartOnMirrorPlane: also requires a non-zero X axis and a ray not parallel to it. In those degenerate cases the source divides by a zero length.
- TranslationDrag.Drag: does not state the second circle's centre, only that it matches the first circle's style. The centre is the projected new point shifted by the start offset.
- TranslationDrag.DragCorrected: does not state the second circle's centre, only that it matches the first circle's style.
- GuiFrame.Translate: the drag starter records the matrix's value when Translate runs. The source's factory captures the `matrix` pointer and reads `*matrix` only when End starts the drag; the two differ only if the caller changes the matrix between Translate and End. The factory's call to a `Translation` constructor that does not exist is replaced by `Translation::LocalX`.

## Findings

| source | as written | input that shows it | evidently intended | confidence | as-written member | corrected member |
|---|---|---|---|---|---|---|
| src/rectray/intersects.h:7-8 | `t = −(Dot(n, origin) + D) / Dot(n, dir)`, which solves n·x + D = 0, while `Plain::Create` (linearalgebra.h:202) stores D = Dot(n, p), the plane n·x = D | plane `Create((0,0,1), (0,0,1))`, ray from (0,0,5) along (0,0,−1): the hit is at z = −1, the mirror image of the plane z = 1 | `t = (D − Dot(n, origin)) / Dot(n, dir)`, as in the commented-out `IntersectPlaneDistance` (lines 15-22) | high, not executed | `RayIntersection.RayPlaneAsWritten` (`RayIntersection.MirroredPlaneExample`, `RayIntersection.RayPlaneAsWrittenMirrors`) | `RayIntersection.RayPlane` (`RayIntersection.RayPlaneHitsCreatedPlane`, `TranslationDrag.LocalXCorrectedStartOnPlane`) |
| src/rectray/drag/translation.h:61 | `Drag` intersects `m_ray`, the ray captured by `Initialize` (line 37), not `context.Ray` | any drag: start one with `LocalX`, move the pointer, call `Drag`; the new point equals `m_plainStart`, the delta is zero, and the matrix is reset to `m_src` (through the Gui: `GuiFrame.HeldDragReturnsPressedMatrix`) | intersect the context's current ray, so the matrix follows the pointer along the plane | high, not executed | `TranslationDrag.Drag` (`TranslationDrag.DragNeverMoves`, `GuiFrame.HeldDragReturnsPressedMatrix`) | `TranslationDrag.DragCorrected` (`TranslationDrag.DragCorrectedStaysOnPlane`) |
