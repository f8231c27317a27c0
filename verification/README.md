# AR registration core of react-three-mind-experiment, in Dafny

The experiment shows 3D content over a live camera feed. An image-tracking engine
reports a pose for each image target it detects. `src/App.jsx` turns those poses
into scene transforms. It also keeps the virtual camera and the on-screen video
aligned with the physical camera. This project models that arithmetic as pure
functions over `real` and proves what it guarantees:

- **Viewport** (`viewport.dfy`) covers `resize`. It computes the cover-fit display
  size of the video element and its centring offsets. It also computes
  `inputAdjust`, `videoDisplayHeight` and `fovAdjust`, which handle a rotated
  device, plus the camera's near/far planes from projection entries 10 and 14
  and the camera aspect.
- **Targets** (`targets.dfy`) covers the post-transform built once per image
  target from its `[markerWidth, markerHeight]`.
- **Anchors** (`anchors.dfy`) covers the anchor map keyed by target index. It
  models the `onUpdate` callback that writes it, and the `ARAnchor` effect that
  turns an entry into a node's visibility and matrix.
- **Matrices** (`matrices.dfy`) holds 4x4 matrices as 16 reals in column-major
  order, which is the layout of the scene library's `elements` array. It
  defines the product (`multiply`), `fromArray`, row-major `set` and `compose`,
  the operations the core calls.

Sizes must be positive, as a precondition. The source divides by the video,
client and input sizes without any guard, so a zero size gives NaN or Infinity
there. Operations in the source that cannot fail are total functions here.

Behaviours of the code worth stating plainly:

- `resize` has no guard that skips the update when a size is zero. The model
  therefore requires positive sizes and has no skip branch.
- A lost target (null pose) does not hide its node. `ARAnchor` tests only
  whether the map has an entry for the target, and every stored value is a
  non-empty array. So after a null pose the node stays `visible` and carries the
  invisible matrix. That matrix collapses all of the node's content onto one
  point (`Anchors.BindAfterLost`).
- The y-translation of a post-transform is `w/2 + (h - w)/2`, which is just
  `h/2`. For a target 1 wide and 0.55 high that is 0.275
  (`Targets.PostMatrixExample`).
- Near < far is not guaranteed for an arbitrary projection matrix. It holds for
  a standard perspective projection whose clip planes satisfy 0 < n < f, and
  the model proves it for that case (`Viewport.ResizeOfPerspective`).

## Model

| member | source | states |
|---|---|---|
| `Viewport.CoverFit` | src/App.jsx:45-54 | The display box covers the container on both sides and equals it on at least one side. It keeps the video's aspect ratio, both as cross products and as width/height. |
| `Viewport.Placement` | src/App.jsx:90-93 | The top and left offsets are never positive. The box is centred: top + height/2 is half the client height, and left + width/2 is half the client width. Width and height are the cover-fit size. |
| `Viewport.CoverFitSmallest` | src/App.jsx:45-54 | Cover fit gives the smallest box of the video's shape that covers the container. Any other covering box with that ratio is at least as wide and at least as high. |
| `Viewport.CoverFitSameRatio` | src/App.jsx:46-54 | When the video and the container have the same ratio, the box is exactly the container and both offsets are zero. |
| `Viewport.InputAdjust` | src/App.jsx:59-65 | The result is positive. It is the element's width attribute over the input width when the input is wider than the container, and the height attribute over the input height otherwise. |
| `Viewport.VideoDisplayHeight` | src/App.jsx:59-75 | The display height that fovAdjust divides by is positive. When the input is wider than the container it is clientHeight·(element width)/inputWidth. Otherwise it is clientWidth·(element height)/inputWidth. |
| `Viewport.VideoDisplayHeightOfNativeSize` | src/App.jsx:46-75 | When the input size and the element attributes are the native video size, the display height is exactly the cover-fit height of the video. |
| `Viewport.FovAdjust` | src/App.jsx:59-76 | fovAdjust is positive. When the input is wider than the container it equals inputWidth over the element's width. Otherwise it equals clientHeight·inputWidth / (clientWidth·element height). |
| `Viewport.FovAdjustOfNativeSize` | src/App.jsx:46-78 | Take the input size and the element attributes equal to the native video size. Then fovAdjust is the client height over the cover-fit display height, which agrees with the commented-out formula on line 78. It is 1 exactly when the video is at least as wide as the container. |
| `Viewport.ClipPlanesOfPerspective` | src/App.jsx:80-81 | For a perspective projection built from clip planes 0 < n < f, the near and far formulas give back n and f. |
| `Viewport.PerspectiveOfClipPlanes` | src/App.jsx:80-81 | Take any projection with entry 10 not ±1 and entry 14 non-zero. Its near and far differ, and the perspective rebuilt from them has the same entries 10 and 14 as the original. |
| `Viewport.Camera` | src/App.jsx:79-87 | Given fovAdjust, the camera fields `resize` writes. The aspect is the client ratio, so aspect·clientHeight = clientWidth. The stored half-fov tangent times proj[5] is fovAdjust. near·(proj[10]−1) = proj[14] and far·(proj[10]+1) = proj[14]. |
| `Viewport.CameraFovTangent` | src/App.jsx:79 | The camera's half-fov tangent is fovAdjust / proj[5], the tangent inside the `atan` of line 79. |
| `Viewport.Resize` | src/App.jsx:42-94 | `resize` as a whole. The aspect is the client ratio. The half-fov tangent times proj[5] is the fovAdjust of the same inputs. Near and far satisfy near·(proj[10]−1) = proj[14] and far·(proj[10]+1) = proj[14]. The element box has top and left ≤ 0 and covers the container on both sides. It equals the container on at least one side and keeps the video's ratio. It is centred on the container. |
| `Viewport.ResizeIndependentOfTracker` | src/App.jsx:87-93 | Through `resize`, which pairs the camera fields with the placement: the aspect is the client ratio, and the aspect and the video placement do not depend on the projection matrix, the tracker input size or the element attributes. |
| `Viewport.ResizeOfPerspective` | src/App.jsx:79-81 | With a perspective projection from the tracker, the camera gets the tracker's near and far back. Its half-fov tangent is fovAdjust over the vertical focal scale. |
| `Matrices.Mul` | src/App.jsx:111 | Entry (r, c) of the product is row r of the left factor dotted with column c of the right factor, read from column-major storage. |
| `Matrices.ApplyMul` | src/App.jsx:111 | Applying a product to a point gives the same result as applying the right factor and then the left one. |
| `Matrices.FromRowMajor` | src/App.jsx:11 | The arguments of `set` are read row by row: entry (r, c) is argument 4r + c. |
| `Matrices.FromArray` | src/App.jsx:206 | `fromArray` copies the first 16 entries in order. On a 16-entry array it gives back the array itself. |
| `Matrices.ComposeUnrotated` | src/App.jsx:123-133 | `compose` with a fresh quaternion and a uniform scale s is the plain transform that scales by s and then translates by the position. |
| `Targets.PostMatrix` | src/App.jsx:126-133 | The post-transform of a w × h target scales uniformly by w with no rotation and translates by (w/2, h/2, 0). |
| `Targets.BuildPostMatrices` | src/App.jsx:121-135 | There is one post-transform per target, in target order. Entry i is the scale-translate matrix built from dimensions[i] alone. |
| `Targets.PostMatrixPlacesContent` | src/App.jsx:127-131 | A content point (x, y, z) lands at (w·x + w/2, w·y + h/2, w·z) in the marker frame. The content origin therefore sits on the marker centre. |
| `Targets.PosedPostMatrix` | src/App.jsx:110-111 | In pose × post, the first three columns are the pose's columns scaled by w. The last column is the pose applied to the marker centre (w/2, h/2, 0), given by `MarkerCentre`. |
| `Targets.PostMatrixExample` | src/App.jsx:126-131 | A target 1 wide and 0.55 high gets translation (0.5, 0.275, 0) and unit scale. |
| `Anchors.InitialNode` | src/App.jsx:217 | A new anchor group is hidden and its matrix leaves every point where it is. |
| `Anchors.InvisibleMatrix` | src/App.jsx:11 | The invisible matrix has 16 entries. All of them are 0 except index 15, which is 1. |
| `Anchors.InvisibleCollapses` | src/App.jsx:11 | The invisible matrix maps every point (x, y, z, w) to (0, 0, 0, w). |
| `Anchors.AnchorPose` | src/App.jsx:110-112 | A null pose stores the invisible matrix. A pose stores a matrix that acts as the post-transform followed by the pose. |
| `Anchors.OnUpdate` | src/App.jsx:105-114 | A message that is not "updateMatrix" changes nothing. An update adds or replaces only its target's key, with that target's anchor pose. Every other key keeps its value. |
| `Anchors.ApplyAll` | src/App.jsx:109-113 | Messages applied in arrival order keep every stored value at 16 entries. |
| `Anchors.LastUpdate` | src/App.jsx:109-113 | The message chosen for a target updates that target, sits in the run, and no later message in the run updates the target. None is chosen exactly when no message in the run updates the target. |
| `Anchors.LastWriterWins` | src/App.jsx:109-113 | After a run of messages, a target's entry is the anchor pose of the last message for it. If no message named it, the entry (present or absent) is what it was before the run. |
| `Anchors.Bind` | src/App.jsx:198-213 | Nothing changes before mount or while inputWidth is 0. Otherwise the node is visible exactly when the map has an entry for its target. A present entry sets the node's matrix, and an absent one leaves the matrix unchanged. |
| `Anchors.BindBeforeAnyUpdate` | src/App.jsx:198-210 | Starting from the empty map, a target no message has named has no entry. Its node is hidden and keeps its matrix. |
| `Anchors.BindAfterUpdates` | src/App.jsx:203-206 | Once a target has been reported, by a pose or by a null pose, its node is visible. It carries the anchor pose of the last report. |
| `Anchors.BindAfterLost` | src/App.jsx:110-112 | After a null pose the node is visible with the invisible matrix, whatever its state was before. All of its content collapses onto the origin. |
| `Anchors.BindIgnoresOtherTargets` | src/App.jsx:109-110 | An update for one target never changes what another target's node shows. |

## Left out

- Viewport.Camera: keeps the tangent of half the vertical field of view rather than `2·atan(...)·180/π` in degrees. The arc tangent and π are transcendental and are not modelled.
- The unused `ratio = proj[5] / proj[0]` (src/App.jsx:82) has no effect on any output.
- Floating point: everything is exact `real` arithmetic. Rounding, NaN and Infinity are not modelled. Zero sizes, `proj[5] == 0` and `proj[10] == ±1` are excluded by preconditions, because they would give NaN or Infinity in the source.
- Anchors.OnUpdate: requires that a non-null pose's target already has a post-transform. Without one the source throws: a ReferenceError while `postMatrixs` is not yet initialised (line 121), or a TypeError from `multiply(undefined)` after that. The source's own ordering meets this requirement, because `processVideo` (line 138) starts only after the loop on lines 122-135.
- Anchors.OnUpdate: also requires that a non-null pose has at least 16 entries. A shorter array would not throw in the source. `fromArray` would copy `undefined`, the product would be NaN, and the node would become visible with a NaN matrix. The model leaves this case out because the tracker's world matrices always have 16 entries, and NaN is not a real number.
- The tracking engine (`ImageTargetController`): its construction, `getProjectionMatrix`, `addImageTargets`, `dummyRun`, `processVideo` and `stopProcessVideo` are foreign calls. The projection matrix, the target dimensions and the update messages are inputs to the model.
- The `loadedmetadata` handler (src/App.jsx:148-156) copies the native video size into the element attributes and the tracker input. Its effect is the hypothesis of `Viewport.FovAdjustOfNativeSize`; the event wiring is not modelled.
- React and jotai plumbing: memoisation, effects, context, the atom store, event listener registration and removal, and the "px" strings written to CSS. Only the numbers they carry are modelled.
- Timing and concurrency: each update is one replacement of an immutable map value. Readers therefore can never see a partly written matrix, and the asynchronous callback order is just the order of the message sequence.
- Resize idempotence holds because every operation here is a pure function of its inputs. No separate lemma is stated.
- The demo components `ARCanvas`, `Plane`, `Box` and `App` (src/App.jsx:225-285) and `vite.config.js` are rendering and build configuration.
