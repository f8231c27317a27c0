/** The arithmetic of `resize` in src/App.jsx: cover-fit placement of the
    video element inside its container, and the virtual camera's field of
    view, clip planes and aspect derived from the tracker's projection
    matrix. All sizes are CSS pixels; nothing here is rounded. */
module Viewport {
  import opened Matrices

  /** A width and a height. */
  datatype Size = Size(width: real, height: real)

  predicate Positive(s: Size)
  {
    s.width > 0.0 && s.height > 0.0
  }

  /** Width over height. */
  function Ratio(s: Size): (r: real)
    requires s.height != 0.0
    ensures r * s.height == s.width
  {
    s.width / s.height
  }

  /** Where the video element is drawn: the CSS top/left offsets and the CSS
      width/height (`vw`, `vh`) of the element. */
  datatype VideoPlacement = VideoPlacement(top: real, left: real, width: real, height: real)

  /** The camera fields `resize` writes. The field of view is kept as the
      tangent of half the vertical angle; the camera's `fov` is that angle's
      double in degrees. */
  datatype CameraParams = CameraParams(halfFovTangent: real, near: real, far: real, aspect: real)

  datatype ResizeResult = ResizeResult(camera: CameraParams, placement: VideoPlacement)

  /** For positive sizes, comparing ratios is comparing cross products. */
  lemma RatioGreater(a: Size, b: Size)
    requires Positive(a) && Positive(b)
    ensures Ratio(a) > Ratio(b) <==> a.width * b.height > b.width * a.height
  {
    var ra, rb, k := Ratio(a), Ratio(b), a.height * b.height;
    assert k > 0.0;
    assert a.width * b.height == ra * k by {
      assert a.width == ra * a.height;
    }
    assert b.width * a.height == rb * k by {
      assert b.width == rb * b.height;
    }
    ScaleKeepsOrder(k, ra, rb);
  }

  /** Multiplying by a positive k keeps the order of x and y. */
  lemma ScaleKeepsOrder(k: real, x: real, y: real)
    requires k > 0.0
    ensures x > y <==> x * k > y * k
  {
    if x > y {
      assert (x - y) * k > 0.0;
    } else {
      assert (y - x) * k >= 0.0;
    }
  }

  /** The display size (`vw`, `vh`) of the video: a video wider than the
      container takes the container's height and overflows in width,
      otherwise it takes the container's width and overflows in height.
      The box covers the container, matches it along one side, and keeps the
      video's aspect ratio. */
  function CoverFit(video: Size, client: Size): (d: Size)
    requires Positive(video) && Positive(client)
    ensures d.width >= client.width && d.height >= client.height
    ensures d.width == client.width || d.height == client.height
    ensures d.width * video.height == d.height * video.width
    ensures Ratio(d) == Ratio(video)
  {
    var videoRatio := Ratio(video);
    var containerRatio := Ratio(client);
    RatioGreater(video, client);
    if videoRatio > containerRatio then
      var vh := client.height;
      var vw := vh * videoRatio;
      assert vw * video.height == vh * video.width;
      assert vw * client.height * video.height >= client.width * client.height * video.height;
      Size(vw, vh)
    else
      var vw := client.width;
      var vh := vw / videoRatio;
      assert vh * videoRatio == vw;
      assert vw * video.height == vh * video.width;
      assert vh * client.width * video.width >= client.height * client.width * video.width;
      Size(vw, vh)
  }

  /** The element's CSS box covers the container, matches it along one side,
      keeps the video's shape and is centred on it, so its offsets are never
      positive. */
  predicate CentredCover(p: VideoPlacement, video: Size, client: Size)
  {
    && p.top <= 0.0 && p.left <= 0.0
    && p.width >= client.width && p.height >= client.height
    && (p.width == client.width || p.height == client.height)
    && p.width * video.height == p.height * video.width
    && p.top + p.height / 2.0 == client.height / 2.0
    && p.left + p.width / 2.0 == client.width / 2.0
  }

  /** The element's CSS box: the cover-fit size, centred by offsets that are
      never positive. */
  function Placement(video: Size, client: Size): (p: VideoPlacement)
    requires Positive(video) && Positive(client)
    ensures p.top <= 0.0 && p.left <= 0.0
    ensures p.top + p.height / 2.0 == client.height / 2.0
    ensures p.left + p.width / 2.0 == client.width / 2.0
    ensures Size(p.width, p.height) == CoverFit(video, client)
    ensures CentredCover(p, video, client)
  {
    var d := CoverFit(video, client);
    VideoPlacement(-(d.height - client.height) / 2.0, -(d.width - client.width) / 2.0, d.width, d.height)
  }

  /** Cover fit picks the smallest box of the video's shape that covers the
      container: every other such box is at least as large on both sides. */
  lemma CoverFitSmallest(video: Size, client: Size, box: Size)
    requires Positive(video) && Positive(client)
    requires box.width * video.height == box.height * video.width
    requires box.width >= client.width && box.height >= client.height
    ensures box.width >= CoverFit(video, client).width
    ensures box.height >= CoverFit(video, client).height
  {
  }

  /** A video of the container's own shape fills it exactly, with no offset. */
  lemma CoverFitSameRatio(video: Size, client: Size)
    requires Positive(video) && Positive(client)
    requires Ratio(video) == Ratio(client)
    ensures CoverFit(video, client) == client
    ensures Placement(video, client) == VideoPlacement(0.0, 0.0, client.width, client.height)
  {
  }

  /** `inputAdjust`: the element's width attribute over the tracker's input
      width when the input is wider than the container, its height attribute
      over the input height otherwise. */
  function InputAdjust(input: Size, element: Size, client: Size): (a: real)
    requires Positive(input) && Positive(element) && Positive(client)
    ensures a > 0.0
    ensures a * (if Ratio(input) > Ratio(client) then input.width else input.height)
         == (if Ratio(input) > Ratio(client) then element.width else element.height)
  {
    if Ratio(input) > Ratio(client) then element.width / input.width
    else element.height / input.height
  }

  /** `videoDisplayHeight`: the container height (input wider than the
      container) or the input's height when drawn at the container's width,
      scaled by `inputAdjust`. Both branches reduce to a closed form. */
  function VideoDisplayHeight(input: Size, element: Size, client: Size): (h: real)
    requires Positive(input) && Positive(element) && Positive(client)
    ensures h > 0.0
    ensures Ratio(input) > Ratio(client) ==> h == client.height * element.width / input.width
    ensures Ratio(input) <= Ratio(client) ==> h == client.width * element.height / input.width
  {
    var adjust := InputAdjust(input, element, client);
    MulDiv(client.height, element.width, input.width);
    ScaleBack(client.width, input.width, input.height, element.height);
    if Ratio(input) > Ratio(client) then client.height * adjust
    else client.width / input.width * input.height * adjust
  }

  /** Once the video metadata has arrived the tracker input and the element
      attributes both equal the video's native size; then the display height
      is the cover-fit height of the video. */
  lemma VideoDisplayHeightOfNativeSize(video: Size, client: Size)
    requires Positive(video) && Positive(client)
    ensures VideoDisplayHeight(video, video, client) == CoverFit(video, client).height
  {
    if Ratio(video) > Ratio(client) {
      CancelFactor(client.height, video.width, 1.0);
    } else {
      DivByQuotient(client.width, video.width, video.height);
    }
  }

  /** `fovAdjust`, the factor applied to the tracker's vertical field of
      view: the input width over the element's width attribute when the input
      is wider than the container, otherwise
      clientHeight * inputWidth / (clientWidth * element height). */
  function FovAdjust(input: Size, element: Size, client: Size): (f: real)
    requires Positive(input) && Positive(element) && Positive(client)
    ensures f > 0.0
    ensures Ratio(input) > Ratio(client) ==> f == input.width / element.width
    ensures Ratio(input) <= Ratio(client) ==>
              f == client.height * input.width / (client.width * element.height)
  {
    DivByQuotient(client.height, client.height * element.width, input.width);
    CancelFactor(client.height, input.width, element.width);
    DivByQuotient(client.height, client.width * element.height, input.width);
    client.height / VideoDisplayHeight(input, element, client)
  }

  /** With the native video size everywhere, `fovAdjust` is the container
      height over the cover-fit display height, and it is 1 exactly when the
      video is at least as wide as the container. */
  lemma FovAdjustOfNativeSize(video: Size, client: Size)
    requires Positive(video) && Positive(client)
    ensures FovAdjust(video, video, client) == client.height / CoverFit(video, client).height
    ensures FovAdjust(video, video, client) == 1.0 <==> Ratio(video) >= Ratio(client)
  {
    var d := CoverFit(video, client);
    VideoDisplayHeightOfNativeSize(video, client);
    QuotientIsOne(client.height, d.height);
    if Ratio(video) <= Ratio(client) {
      QuotientSwap(client.width, client.height, Ratio(video));
    }
  }

  /** Real-number identities the closed forms above rest on. */
  lemma MulDiv(a: real, b: real, c: real)
    requires c != 0.0
    ensures a * (b / c) == a * b / c
  {
    var q := b / c;
    assert q * c == b;
    assert (a * q) * c == a * b;
  }

  lemma ScaleBack(a: real, w: real, h: real, e: real)
    requires w != 0.0 && h != 0.0
    ensures a / w * h * (e / h) == a * e / w
  {
    var p, q := a / w, e / h;
    assert p * w == a && q * h == e;
    assert p * h * q == p * e;
    assert (p * e) * w == a * e;
  }

  lemma DivByQuotient(a: real, b: real, c: real)
    requires b != 0.0 && c != 0.0
    ensures a / (b / c) == a * c / b
  {
    var q := b / c;
    assert q * c == b && q != 0.0;
    var x := a / q;
    assert x * q == a;
    assert x * b == x * q * c == a * c;
  }

  lemma CancelFactor(k: real, x: real, y: real)
    requires k != 0.0 && y != 0.0
    ensures k * x / (k * y) == x / y
  {
    var q := x / y;
    assert q * y == x;
    assert q * (k * y) == k * x;
  }

  lemma DivMul(x: real, y: real)
    requires y != 0.0
    ensures x / y * y == x
  {
  }

  /** The t with t * y == x is x / y. */
  lemma ProductIsQuotient(t: real, y: real, x: real)
    requires y != 0.0 && t * y == x
    ensures t == x / y
  {
  }

  /** Scaling x by the reciprocal of y and multiplying back by y gives x. */
  lemma ReciprocalMul(x: real, y: real)
    requires y != 0.0
    ensures 1.0 / y * x * y == x
  {
    DivMul(1.0, y);
  }

  lemma QuotientIsOne(a: real, b: real)
    requires b != 0.0
    ensures a / b == 1.0 <==> a == b
  {
    assert a / b * b == a;
  }

  lemma QuotientSwap(a: real, b: real, c: real)
    requires b > 0.0 && c > 0.0
    ensures a / c == b <==> a / b == c
  {
    assert a / c * c == a;
    assert a / b * b == a;
  }

  /** The near plane `proj[14] / (proj[10] - 1)`. */
  function Near(proj: Matrix): (n: real)
    requires proj[10] != 1.0
    ensures n * (proj[10] - 1.0) == proj[14]
  {
    proj[14] / (proj[10] - 1.0)
  }

  /** The far plane `proj[14] / (proj[10] + 1)`. */
  function Far(proj: Matrix): (f: real)
    requires proj[10] != -1.0
    ensures f * (proj[10] + 1.0) == proj[14]
  {
    proj[14] / (proj[10] + 1.0)
  }

  /** Reference: the standard OpenGL perspective projection with horizontal
      and vertical focal scales `sx`, `sy` and clip planes `n`, `f`, laid out
      column-major. */
  function Perspective(sx: real, sy: real, n: real, f: real): Matrix
    requires n != f
  {
    [sx,  0.0, 0.0, 0.0,
     0.0, sy,  0.0, 0.0,
     0.0, 0.0, -(f + n) / (f - n), -1.0,
     0.0, 0.0, -2.0 * f * n / (f - n), 0.0]
  }

  /** Near and far recover the clip planes a perspective projection was
      built from. */
  lemma ClipPlanesOfPerspective(sx: real, sy: real, n: real, f: real)
    requires 0.0 < n < f
    ensures Perspective(sx, sy, n, f)[10] != 1.0 && Perspective(sx, sy, n, f)[10] != -1.0
    ensures Near(Perspective(sx, sy, n, f)) == n
    ensures Far(Perspective(sx, sy, n, f)) == f
  {
  }

  /** Conversely, any projection with distinct clip planes has the depth
      entries of the perspective built from its own near and far. */
  lemma PerspectiveOfClipPlanes(proj: Matrix)
    requires proj[10] != 1.0 && proj[10] != -1.0 && proj[14] != 0.0
    ensures Near(proj) != Far(proj)
    ensures Perspective(proj[0], proj[5], Near(proj), Far(proj))[10] == proj[10]
    ensures Perspective(proj[0], proj[5], Near(proj), Far(proj))[14] == proj[14]
  {
  }

  /** What `resize` sets up between the camera, the container and the
      tracker's projection: multiplying each camera field back by its
      divisor gives its numerator. */
  predicate CameraMatches(c: CameraParams, client: Size, fovAdjust: real, proj: Matrix)
  {
    && c.aspect * client.height == client.width
    && c.halfFovTangent * proj[5] == fovAdjust
    && c.near * (proj[10] - 1.0) == proj[14]
    && c.far * (proj[10] + 1.0) == proj[14]
  }

  /** The half-fov tangent `1 / proj[5] * fovAdjust`: the tracker's
      vertical half-angle tangent scaled by `fovAdjust`. */
  function FovTangent(proj: Matrix, fovAdjust: real): (t: real)
    requires proj[5] != 0.0
    ensures t * proj[5] == fovAdjust
  {
    ReciprocalMul(fovAdjust, proj[5]);
    1.0 / proj[5] * fovAdjust
  }

  /** The camera half of `resize`: the half-fov tangent `1 / proj[5] *
      fovAdjust`, the clip planes and the container's aspect. Multiplying
      back by each divisor recovers the numerator. */
  function Camera(fovAdjust: real, client: Size, proj: Matrix): (c: CameraParams)
    requires Positive(client)
    requires proj[5] != 0.0 && proj[10] != 1.0 && proj[10] != -1.0
    ensures c.aspect == Ratio(client)
    ensures CameraMatches(c, client, fovAdjust, proj)
  {
    CameraParams(FovTangent(proj, fovAdjust), Near(proj), Far(proj), Ratio(client))
  }

  /** `resize`: camera parameters and video placement from the video's
      native size, the element's width/height attributes, the tracker's
      input size, the container's client size and the tracker's projection
      matrix. */
  function Resize(video: Size, element: Size, input: Size, client: Size, proj: Matrix): (r: ResizeResult)
    requires Positive(video) && Positive(element) && Positive(input) && Positive(client)
    requires proj[5] != 0.0 && proj[10] != 1.0 && proj[10] != -1.0
    ensures r.camera.aspect == Ratio(client)
    ensures CameraMatches(r.camera, client, FovAdjust(input, element, client), proj)
    ensures CentredCover(r.placement, video, client)
  {
    var fovAdjust := FovAdjust(input, element, client);
    ResizeResult(Camera(fovAdjust, client, proj), Placement(video, client))
  }

  /** The aspect and the placement depend on the container and the video
      only: neither the projection nor the tracker input changes them. */
  lemma ResizeIndependentOfTracker(video: Size, element: Size, element': Size, input: Size, input': Size,
                                   client: Size, proj: Matrix, proj': Matrix)
    requires Positive(video) && Positive(element) && Positive(input) && Positive(client)
    requires Positive(element') && Positive(input')
    requires proj[5] != 0.0 && proj[10] != 1.0 && proj[10] != -1.0
    requires proj'[5] != 0.0 && proj'[10] != 1.0 && proj'[10] != -1.0
    ensures Resize(video, element, input, client, proj).camera.aspect
         == Resize(video, element', input', client, proj').camera.aspect
         == Ratio(client)
    ensures Resize(video, element, input, client, proj).placement
         == Resize(video, element', input', client, proj').placement
  {
  }

  /** With a perspective projection from the tracker, the camera gets back
      the tracker's clip planes (so near < far) and its vertical
      half-angle tangent scaled by `fovAdjust`. */
  lemma ResizeOfPerspective(video: Size, element: Size, input: Size, client: Size,
                            sx: real, sy: real, n: real, f: real)
    requires Positive(video) && Positive(element) && Positive(input) && Positive(client)
    requires sy != 0.0 && 0.0 < n < f
    ensures Perspective(sx, sy, n, f)[10] != 1.0 && Perspective(sx, sy, n, f)[10] != -1.0
    ensures Resize(video, element, input, client, Perspective(sx, sy, n, f)).camera.near == n
    ensures Resize(video, element, input, client, Perspective(sx, sy, n, f)).camera.far == f
    ensures Resize(video, element, input, client, Perspective(sx, sy, n, f)).camera.halfFovTangent
         == FovAdjust(input, element, client) / sy
  {
    ClipPlanesOfPerspective(sx, sy, n, f);
    CameraFovTangent(FovAdjust(input, element, client), client, Perspective(sx, sy, n, f));
  }

  /** The camera's half-fov tangent is fovAdjust over the projection's
      vertical focal scale proj[5]. */
  lemma CameraFovTangent(fovAdjust: real, client: Size, proj: Matrix)
    requires Positive(client)
    requires proj[5] != 0.0 && proj[10] != 1.0 && proj[10] != -1.0
    ensures Camera(fovAdjust, client, proj).halfFovTangent == fovAdjust / proj[5]
  {
    ProductIsQuotient(Camera(fovAdjust, client, proj).halfFovTangent, proj[5], fovAdjust);
  }
}
