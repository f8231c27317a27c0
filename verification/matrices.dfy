/** 4x4 matrices as the scene library stores them: sixteen reals in
    column-major order, so entry (row r, column c) sits at index 4 * c + r.
    This is the layout of the `elements` array that `fromArray`/`toArray`
    copy, and the layout every matrix of the anchor store uses. */
module Matrices {

  type Matrix = m: seq<real> | |m| == 16 witness Zero()

  function Zero(): (z: seq<real>)
    ensures |z| == 16
  {
    seq(16, i => 0.0)
  }

  /** Entry (r, c) of a column-major matrix. */
  function Entry(m: Matrix, r: nat, c: nat): real
    requires r < 4 && c < 4
  {
    m[4 * c + r]
  }

  /** A homogeneous point or direction (x, y, z, w). */
  type Vec4 = v: seq<real> | |v| == 4 witness [0.0, 0.0, 0.0, 0.0]

  /** A three-component vector, as the scene library's Vector3. */
  datatype Vec3 = Vec3(x: real, y: real, z: real)

  /** A rotation quaternion (x, y, z, w), as the scene library's Quaternion. */
  datatype Quat = Quat(x: real, y: real, z: real, w: real)

  /** A freshly constructed Quaternion is the identity rotation (0, 0, 0, 1). */
  const IdentityQuat: Quat := Quat(0.0, 0.0, 0.0, 1.0)

  /** Reference definition of the identity matrix, entry by entry. */
  function Identity(): (m: Matrix)
    ensures forall r: nat, c: nat :: r < 4 && c < 4 ==> Entry(m, r, c) == (if r == c then 1.0 else 0.0)
  {
    [1.0, 0.0, 0.0, 0.0,
     0.0, 1.0, 0.0, 0.0,
     0.0, 0.0, 1.0, 0.0,
     0.0, 0.0, 0.0, 1.0]
  }

  /** The inner product of (x0, x1, x2, x3) and (y0, y1, y2, y3). */
  function Inner(x0: real, x1: real, x2: real, x3: real, y0: real, y1: real, y2: real, y3: real): real
  {
    x0 * y0 + x1 * y1 + x2 * y2 + x3 * y3
  }

  /** Row r of `a` times column c of `b`. */
  function Dot(a: Matrix, b: Matrix, r: nat, c: nat): real
    requires r < 4 && c < 4
  {
    Inner(Entry(a, r, 0), Entry(a, r, 1), Entry(a, r, 2), Entry(a, r, 3),
          Entry(b, 0, c), Entry(b, 1, c), Entry(b, 2, c), Entry(b, 3, c))
  }

  /** The product a x b, as `a.multiply(b)` computes it; the result is laid
      out column-major like its operands. */
  function Mul(a: Matrix, b: Matrix): (p: Matrix)
    ensures forall r: nat, c: nat :: r < 4 && c < 4 ==> Entry(p, r, c) == Dot(a, b, r, c)
  {
    seq(16, i requires 0 <= i < 16 => Dot(a, b, i % 4, i / 4))
  }

  /** The matrix applied to a homogeneous vector. */
  function Apply(m: Matrix, v: Vec4): (u: Vec4)
  {
    seq(4, r requires 0 <= r < 4 =>
      Inner(Entry(m, r, 0), Entry(m, r, 1), Entry(m, r, 2), Entry(m, r, 3), v[0], v[1], v[2], v[3]))
  }

  /** Applying a product is applying its factors one after the other: the
      world transform of a point is the pose applied to the post-transformed
      point. */
  lemma ApplyMul(a: Matrix, b: Matrix, v: Vec4)
    ensures Apply(Mul(a, b), v) == Apply(a, Apply(b, v))
  {
    forall r | 0 <= r < 4
      ensures Apply(Mul(a, b), v)[r] == Apply(a, Apply(b, v))[r]
    {
      ApplyMulRow(a, b, v, r);
    }
  }

  lemma ApplyMulRow(a: Matrix, b: Matrix, v: Vec4, r: nat)
    requires r < 4
    ensures Apply(Mul(a, b), v)[r] == Apply(a, Apply(b, v))[r]
  {
    InnerOfInner(Entry(a, r, 0), Entry(a, r, 1), Entry(a, r, 2), Entry(a, r, 3),
                 Entry(b, 0, 0), Entry(b, 0, 1), Entry(b, 0, 2), Entry(b, 0, 3),
                 Entry(b, 1, 0), Entry(b, 1, 1), Entry(b, 1, 2), Entry(b, 1, 3),
                 Entry(b, 2, 0), Entry(b, 2, 1), Entry(b, 2, 2), Entry(b, 2, 3),
                 Entry(b, 3, 0), Entry(b, 3, 1), Entry(b, 3, 2), Entry(b, 3, 3),
                 v[0], v[1], v[2], v[3]);
  }

  /** The row (a0, a1, a2, a3) times the product of the 4x4 matrix (bkc) and
      v, computed both ways: rows of the product first, or the product with
      v first. */
  lemma InnerOfInner(a0: real, a1: real, a2: real, a3: real,
                     b00: real, b01: real, b02: real, b03: real,
                     b10: real, b11: real, b12: real, b13: real,
                     b20: real, b21: real, b22: real, b23: real,
                     b30: real, b31: real, b32: real, b33: real,
                     v0: real, v1: real, v2: real, v3: real)
    ensures Inner(Inner(a0, a1, a2, a3, b00, b10, b20, b30), Inner(a0, a1, a2, a3, b01, b11, b21, b31),
                  Inner(a0, a1, a2, a3, b02, b12, b22, b32), Inner(a0, a1, a2, a3, b03, b13, b23, b33),
                  v0, v1, v2, v3)
         == Inner(a0, a1, a2, a3,
                  Inner(b00, b01, b02, b03, v0, v1, v2, v3), Inner(b10, b11, b12, b13, v0, v1, v2, v3),
                  Inner(b20, b21, b22, b23, v0, v1, v2, v3), Inner(b30, b31, b32, b33, v0, v1, v2, v3))
  {
    // Each product of an inner product with a scalar, multiplied out.
    assert ScaledInner(a0, a1, a2, a3, b00, b10, b20, b30, v0) == Inner(a0, a1, a2, a3, b00, b10, b20, b30) * v0;
    assert ScaledInner(a0, a1, a2, a3, b01, b11, b21, b31, v1) == Inner(a0, a1, a2, a3, b01, b11, b21, b31) * v1;
    assert ScaledInner(a0, a1, a2, a3, b02, b12, b22, b32, v2) == Inner(a0, a1, a2, a3, b02, b12, b22, b32) * v2;
    assert ScaledInner(a0, a1, a2, a3, b03, b13, b23, b33, v3) == Inner(a0, a1, a2, a3, b03, b13, b23, b33) * v3;
    assert ScaledInner(b00, b01, b02, b03, v0, v1, v2, v3, a0) == Inner(b00, b01, b02, b03, v0, v1, v2, v3) * a0;
    assert ScaledInner(b10, b11, b12, b13, v0, v1, v2, v3, a1) == Inner(b10, b11, b12, b13, v0, v1, v2, v3) * a1;
    assert ScaledInner(b20, b21, b22, b23, v0, v1, v2, v3, a2) == Inner(b20, b21, b22, b23, v0, v1, v2, v3) * a2;
    assert ScaledInner(b30, b31, b32, b33, v0, v1, v2, v3, a3) == Inner(b30, b31, b32, b33, v0, v1, v2, v3) * a3;
  }

  /** An inner product scaled by s, multiplied out term by term. */
  function ScaledInner(x0: real, x1: real, x2: real, x3: real, y0: real, y1: real, y2: real, y3: real, s: real): (p: real)
    ensures p == x0 * y0 * s + x1 * y1 * s + x2 * y2 * s + x3 * y3 * s
  {
    Inner(x0, x1, x2, x3, y0, y1, y2, y3) * s
  }

  /** Row r of `a` times a column of `b` whose four entries are known. */
  lemma DotColumn(a: Matrix, b: Matrix, r: nat, c: nat, b0: real, b1: real, b2: real, b3: real)
    requires r < 4 && c < 4
    requires b[4 * c] == b0 && b[4 * c + 1] == b1 && b[4 * c + 2] == b2 && b[4 * c + 3] == b3
    ensures Dot(a, b, r, c) == Entry(a, r, 0) * b0 + Entry(a, r, 1) * b1 + Entry(a, r, 2) * b2 + Entry(a, r, 3) * b3
  {
  }

  /** `new Matrix4().set(n11, n12, ..., n44)`: the arguments are given row by
      row, and stored column-major. */
  function FromRowMajor(n: seq<real>): (m: Matrix)
    requires |n| == 16
    ensures forall r: nat, c: nat :: r < 4 && c < 4 ==> Entry(m, r, c) == n[4 * r + c]
  {
    seq(16, i requires 0 <= i < 16 => n[4 * (i % 4) + i / 4])
  }

  /** `new Matrix4().fromArray(a)`: the first sixteen entries of `a`, taken
      as column-major. */
  function FromArray(a: seq<real>): (m: Matrix)
    requires |a| >= 16
    ensures forall i :: 0 <= i < 16 ==> m[i] == a[i]
    ensures |a| == 16 ==> m == a
  {
    a[..16]
  }

  /** A reference transform: uniform scale `s` on all three axes, no
      rotation, then translation `t`. */
  function ScaleTranslate(s: real, t: Vec3): Matrix
  {
    [s,   0.0, 0.0, 0.0,
     0.0, s,   0.0, 0.0,
     0.0, 0.0, s,   0.0,
     t.x, t.y, t.z, 1.0]
  }

  /** `Matrix4.compose(position, quaternion, scale)`: rotation from the
      quaternion, each column scaled by its axis' scale, translation in the
      last column. */
  function Compose(position: Vec3, q: Quat, scale: Vec3): Matrix
  {
    var x2 := q.x + q.x;
    var y2 := q.y + q.y;
    var z2 := q.z + q.z;
    var xx := q.x * x2;
    var xy := q.x * y2;
    var xz := q.x * z2;
    var yy := q.y * y2;
    var yz := q.y * z2;
    var zz := q.z * z2;
    var wx := q.w * x2;
    var wy := q.w * y2;
    var wz := q.w * z2;
    [(1.0 - (yy + zz)) * scale.x, (xy + wz) * scale.x, (xz - wy) * scale.x, 0.0,
     (xy - wz) * scale.y, (1.0 - (xx + zz)) * scale.y, (yz + wx) * scale.y, 0.0,
     (xz + wy) * scale.z, (yz - wx) * scale.z, (1.0 - (xx + yy)) * scale.z, 0.0,
     position.x, position.y, position.z, 1.0]
  }

  /** With the identity quaternion and a uniform scale, composing gives the
      plain scale-then-translate transform. */
  lemma ComposeUnrotated(position: Vec3, s: real)
    ensures Compose(position, IdentityQuat, Vec3(s, s, s)) == ScaleTranslate(s, position)
  {
  }

  /** A scale-translate transform moves the point (x, y, z) to
      (s x + tx, s y + ty, s z + tz). */
  lemma ApplyScaleTranslate(s: real, t: Vec3, x: real, y: real, z: real)
    ensures Apply(ScaleTranslate(s, t), [x, y, z, 1.0]) == [s * x + t.x, s * y + t.y, s * z + t.z, 1.0]
  {
    var u := Apply(ScaleTranslate(s, t), [x, y, z, 1.0]);
    assert u[0] == s * x + t.x;
    assert u[1] == s * y + t.y;
    assert u[2] == s * z + t.z;
    assert u[3] == 1.0;
  }
}
