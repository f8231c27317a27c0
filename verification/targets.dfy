/** The per-target post-transforms built in `startAR` once the image
    targets are loaded: for a marker of size `[markerWidth, markerHeight]`
    the tracker's pose is corrected by a uniform scale of `markerWidth` and a
    translation to the marker's centre, with no rotation. */
module Targets {
  import opened Matrices

  /** One entry of the `dimensions` list the tracker reports for its image
      targets, in target-index order. */
  datatype Dimension = Dimension(width: real, height: real)

  /** The post-transform of one target, composed from position
      (w/2, w/2 + (h - w)/2, 0), a fresh (identity) quaternion and scale
      (w, w, w). It is the plain transform "scale by w, move to (w/2, h/2, 0)". */
  function PostMatrix(d: Dimension): (m: Matrix)
    ensures m == ScaleTranslate(d.width, Vec3(d.width / 2.0, d.height / 2.0, 0.0))
  {
    var w := d.width;
    var h := d.height;
    var position := Vec3(w / 2.0, w / 2.0 + (h - w) / 2.0, 0.0);
    assert position == Vec3(w / 2.0, h / 2.0, 0.0);
    ComposeUnrotated(position, w);
    Compose(position, IdentityQuat, Vec3(w, w, w))
  }

  /** The loop over `imageTargetDimensions`: one post-transform per target,
      in target order, each depending on that target's dimensions only. */
  method BuildPostMatrices(dims: seq<Dimension>) returns (ms: seq<Matrix>)
    ensures |ms| == |dims|
    ensures forall i :: 0 <= i < |dims| ==>
              ms[i] == ScaleTranslate(dims[i].width, Vec3(dims[i].width / 2.0, dims[i].height / 2.0, 0.0))
  {
    ms := [];
    var i := 0;
    while i < |dims|
      invariant 0 <= i <= |dims|
      invariant |ms| == i
      invariant forall j :: 0 <= j < i ==>
                  ms[j] == ScaleTranslate(dims[j].width, Vec3(dims[j].width / 2.0, dims[j].height / 2.0, 0.0))
    {
      ms := ms + [PostMatrix(dims[i])];
      i := i + 1;
    }
  }

  /** A point (x, y, z) of the anchored content lands at
      (w x + w/2, w y + h/2, w z) in the tracker's marker frame: the content's
      origin sits on the marker's centre and one content unit spans the
      marker's width. */
  lemma PostMatrixPlacesContent(d: Dimension, x: real, y: real, z: real)
    ensures Apply(PostMatrix(d), [x, y, z, 1.0])
         == [d.width * x + d.width / 2.0, d.width * y + d.height / 2.0, d.width * z, 1.0]
  {
    ApplyScaleTranslate(d.width, Vec3(d.width / 2.0, d.height / 2.0, 0.0), x, y, z);
  }

  /** The centre (w/2, h/2, 0) of a w x h marker in the tracker's marker
      frame. */
  function MarkerCentre(d: Dimension): Vec3
  {
    Vec3(d.width / 2.0, d.height / 2.0, 0.0)
  }

  /** The pose stored for a detected target: the first three columns are the
      tracker's pose columns scaled by the marker width, the last is the
      tracker's pose applied to the marker centre. */
  lemma PosedPostMatrix(pose: Matrix, d: Dimension)
    ensures forall r: nat :: r < 4 ==>
              && Entry(Mul(pose, PostMatrix(d)), r, 0) == d.width * Entry(pose, r, 0)
              && Entry(Mul(pose, PostMatrix(d)), r, 1) == d.width * Entry(pose, r, 1)
              && Entry(Mul(pose, PostMatrix(d)), r, 2) == d.width * Entry(pose, r, 2)
              && Entry(Mul(pose, PostMatrix(d)), r, 3)
                 == Entry(pose, r, 0) * MarkerCentre(d).x + Entry(pose, r, 1) * MarkerCentre(d).y + Entry(pose, r, 3)
  {
    forall r: nat | r < 4
      ensures Entry(Mul(pose, PostMatrix(d)), r, 0) == d.width * Entry(pose, r, 0)
      ensures Entry(Mul(pose, PostMatrix(d)), r, 1) == d.width * Entry(pose, r, 1)
      ensures Entry(Mul(pose, PostMatrix(d)), r, 2) == d.width * Entry(pose, r, 2)
      ensures Entry(Mul(pose, PostMatrix(d)), r, 3)
           == Entry(pose, r, 0) * MarkerCentre(d).x + Entry(pose, r, 1) * MarkerCentre(d).y + Entry(pose, r, 3)
    {
      PosedPostMatrixRow(pose, d, r);
    }
  }

  lemma PosedPostMatrixRow(pose: Matrix, d: Dimension, r: nat)
    requires r < 4
    ensures Entry(Mul(pose, PostMatrix(d)), r, 0) == d.width * Entry(pose, r, 0)
    ensures Entry(Mul(pose, PostMatrix(d)), r, 1) == d.width * Entry(pose, r, 1)
    ensures Entry(Mul(pose, PostMatrix(d)), r, 2) == d.width * Entry(pose, r, 2)
    ensures Entry(Mul(pose, PostMatrix(d)), r, 3)
         == Entry(pose, r, 0) * MarkerCentre(d).x + Entry(pose, r, 1) * MarkerCentre(d).y + Entry(pose, r, 3)
  {
    PostMatrixEntries(d);
    MulScaleTranslateRow(pose, PostMatrix(d), r, d.width, MarkerCentre(d).x, MarkerCentre(d).y);
  }

  /** Row r of `a x b`, for a `b` that scales by s and translates by
      (x, y, 0). */
  lemma MulScaleTranslateRow(a: Matrix, b: Matrix, r: nat, s: real, x: real, y: real)
    requires r < 4
    requires b[0] == s && b[1] == 0.0 && b[2] == 0.0 && b[3] == 0.0
    requires b[4] == 0.0 && b[5] == s && b[6] == 0.0 && b[7] == 0.0
    requires b[8] == 0.0 && b[9] == 0.0 && b[10] == s && b[11] == 0.0
    requires b[12] == x && b[13] == y && b[14] == 0.0 && b[15] == 1.0
    ensures Entry(Mul(a, b), r, 0) == s * Entry(a, r, 0)
    ensures Entry(Mul(a, b), r, 1) == s * Entry(a, r, 1)
    ensures Entry(Mul(a, b), r, 2) == s * Entry(a, r, 2)
    ensures Entry(Mul(a, b), r, 3) == Entry(a, r, 0) * x + Entry(a, r, 1) * y + Entry(a, r, 3)
  {
    DotColumn(a, b, r, 0, s, 0.0, 0.0, 0.0);
    DotColumn(a, b, r, 1, 0.0, s, 0.0, 0.0);
    DotColumn(a, b, r, 2, 0.0, 0.0, s, 0.0);
    DotColumn(a, b, r, 3, x, y, 0.0, 1.0);
  }

  /** The sixteen entries of a post-transform, in storage order. */
  lemma PostMatrixEntries(d: Dimension)
    ensures PostMatrix(d)[0] == d.width && PostMatrix(d)[1] == 0.0 && PostMatrix(d)[2] == 0.0 && PostMatrix(d)[3] == 0.0
    ensures PostMatrix(d)[4] == 0.0 && PostMatrix(d)[5] == d.width && PostMatrix(d)[6] == 0.0 && PostMatrix(d)[7] == 0.0
    ensures PostMatrix(d)[8] == 0.0 && PostMatrix(d)[9] == 0.0 && PostMatrix(d)[10] == d.width && PostMatrix(d)[11] == 0.0
    ensures PostMatrix(d)[12] == d.width / 2.0 && PostMatrix(d)[13] == d.height / 2.0
    ensures PostMatrix(d)[14] == 0.0 && PostMatrix(d)[15] == 1.0
  {
  }

  /** A target 1 wide and 0.55 high gets translation (0.5, 0.275, 0)
      and unit scale: the y-translation is h/2. */
  lemma PostMatrixExample()
    ensures PostMatrix(Dimension(1.0, 0.55)) == ScaleTranslate(1.0, Vec3(0.5, 0.275, 0.0))
  {
  }
}
