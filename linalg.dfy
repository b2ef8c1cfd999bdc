/**
  The fixed-size linear algebra the frame conversions rely on: 3-vectors and
  3x3 matrices over the reals, with the products, the transpose, the cross
  product and a matrix inverse written out explicitly.
*/
module Linalg {
  import opened Wrappers

  datatype Vec3 = Vec3(x: real, y: real, z: real)

  /** A 3x3 matrix stored by rows. */
  datatype Mat3 = Mat3(r0: Vec3, r1: Vec3, r2: Vec3)

  function Zero(): Vec3 {
    Vec3(0.0, 0.0, 0.0)
  }

  function Add(a: Vec3, b: Vec3): Vec3 {
    Vec3(a.x + b.x, a.y + b.y, a.z + b.z)
  }

  function Sub(a: Vec3, b: Vec3): Vec3 {
    Vec3(a.x - b.x, a.y - b.y, a.z - b.z)
  }

  /** Real multiplication, named so that a scaled vector's components match syntactically. */
  function Mul(a: real, b: real): real {
    a * b
  }

  function Scale(c: real, a: Vec3): Vec3 {
    Vec3(Mul(c, a.x), Mul(c, a.y), Mul(c, a.z))
  }

  /** The componentwise quotient `a / s`. */
  function Div(a: Vec3, s: real): Vec3
    requires s != 0.0
  {
    Scale(1.0 / s, a)
  }

  function Dot(a: Vec3, b: Vec3): real {
    a.x * b.x + a.y * b.y + a.z * b.z
  }

  function Cross(a: Vec3, b: Vec3): Vec3 {
    Vec3(a.y * b.z - a.z * b.y, a.z * b.x - a.x * b.z, a.x * b.y - a.y * b.x)
  }

  /** A Euclidean norm: what nalgebra's `norm` computes, as a property of a function. */
  ghost predicate IsEuclideanNorm(norm: Vec3 -> real) {
    forall v :: norm(v) >= 0.0 && norm(v) * norm(v) == Dot(v, v) && (norm(v) == 0.0 <==> v == Zero())
  }

  /** The matrix whose columns are `c0`, `c1`, `c2` (nalgebra's `from_columns`). */
  function FromColumns(c0: Vec3, c1: Vec3, c2: Vec3): Mat3 {
    Mat3(Vec3(c0.x, c1.x, c2.x), Vec3(c0.y, c1.y, c2.y), Vec3(c0.z, c1.z, c2.z))
  }

  function Transpose(m: Mat3): Mat3 {
    FromColumns(m.r0, m.r1, m.r2)
  }

  function Identity(): Mat3 {
    Mat3(Vec3(1.0, 0.0, 0.0), Vec3(0.0, 1.0, 0.0), Vec3(0.0, 0.0, 1.0))
  }

  function MatNeg(m: Mat3): Mat3 {
    Mat3(Scale(-1.0, m.r0), Scale(-1.0, m.r1), Scale(-1.0, m.r2))
  }

  function MatScale(c: real, m: Mat3): Mat3 {
    Mat3(Scale(c, m.r0), Scale(c, m.r1), Scale(c, m.r2))
  }

  /** Matrix times column vector. */
  function MatVec(m: Mat3, v: Vec3): Vec3 {
    Vec3(Dot(m.r0, v), Dot(m.r1, v), Dot(m.r2, v))
  }

  /** Matrix product: row i of `a * b` is `b`-transposed times row i of `a`. */
  function MatMul(a: Mat3, b: Mat3): Mat3 {
    var bt := Transpose(b);
    Mat3(MatVec(bt, a.r0), MatVec(bt, a.r1), MatVec(bt, a.r2))
  }

  /** The determinant, as the triple product of the rows. */
  function Det(m: Mat3): real {
    Dot(m.r0, Cross(m.r1, m.r2))
  }

  /** The adjugate: its columns are the cross products of pairs of rows. */
  function Adjugate(m: Mat3): Mat3 {
    FromColumns(Cross(m.r1, m.r2), Cross(m.r2, m.r0), Cross(m.r0, m.r1))
  }

  /**
    nalgebra's `try_inverse` for a 3x3 matrix: `None` exactly when the
    determinant is zero, otherwise the adjugate divided by the determinant.
  */
  function TryInverse(m: Mat3): (r: Option<Mat3>)
    ensures r.None? <==> Det(m) == 0.0
    ensures r.Some? ==> MatMul(m, r.value) == Identity() && MatMul(r.value, m) == Identity()
  {
    var d := Det(m);
    if d == 0.0 then None
    else
      InverseRight(m);
      InverseLeft(m);
      Some(MatScale(1.0 / d, Adjugate(m)))
  }

  // The solver proves polynomial identities only over plain real variables,
  // and does not by itself substitute the value of a vector component inside
  // a product. So every identity below is first expanded with `DotOf` (or a
  // substitution with `MulEq`) into products of the components, and the
  // remaining identity on plain reals is a lemma of its own.

  /** A dot product of two vectors given by their components. */
  lemma DotOf(a: Vec3, b: Vec3, ax: real, ay: real, az: real, bx: real, b_y: real, bz: real)
    requires a == Vec3(ax, ay, az) && b == Vec3(bx, b_y, bz)
    ensures Dot(a, b) == ax * bx + ay * b_y + az * bz
  {
  }

  /** Replacing a factor by an equal expression. */
  lemma MulEq(a: real, b: real, c: real)
    requires a == c
    ensures a * b == c * b
  {
  }

  lemma DotScaleScalar(c: real, ax: real, ay: real, az: real, bx: real, b_y: real, bz: real)
    ensures (c * ax) * bx + (c * ay) * b_y + (c * az) * bz == (ax * bx + ay * b_y + az * bz) * c
    ensures ax * (c * bx) + ay * (c * b_y) + az * (c * bz) == (ax * bx + ay * b_y + az * bz) * c
  {
  }

  lemma DotScale(c: real, a: Vec3, b: Vec3)
    ensures Dot(Scale(c, a), b) == c * Dot(a, b)
    ensures Dot(a, Scale(c, b)) == c * Dot(a, b)
  {
    DotOf(Scale(c, a), b, c * a.x, c * a.y, c * a.z, b.x, b.y, b.z);
    DotOf(a, Scale(c, b), a.x, a.y, a.z, c * b.x, c * b.y, c * b.z);
    DotOf(a, b, a.x, a.y, a.z, b.x, b.y, b.z);
    MulEq(Dot(a, b), c, a.x * b.x + a.y * b.y + a.z * b.z);
    DotScaleScalar(c, a.x, a.y, a.z, b.x, b.y, b.z);
  }

  lemma DotSubScalar(rx: real, ry: real, rz: real, ux: real, uy: real, uz: real, vx: real, vy: real, vz: real)
    ensures rx * (ux - vx) + ry * (uy - vy) + rz * (uz - vz)
         == (rx * ux + ry * uy + rz * uz) - (rx * vx + ry * vy + rz * vz)
    ensures rx * (ux + vx) + ry * (uy + vy) + rz * (uz + vz)
         == (rx * ux + ry * uy + rz * uz) + (rx * vx + ry * vy + rz * vz)
  {
  }

  lemma DotSub(r: Vec3, u: Vec3, v: Vec3)
    ensures Dot(r, Sub(u, v)) == Dot(r, u) - Dot(r, v)
  {
    DotOf(r, Sub(u, v), r.x, r.y, r.z, u.x - v.x, u.y - v.y, u.z - v.z);
    DotOf(r, u, r.x, r.y, r.z, u.x, u.y, u.z);
    DotOf(r, v, r.x, r.y, r.z, v.x, v.y, v.z);
    DotSubScalar(r.x, r.y, r.z, u.x, u.y, u.z, v.x, v.y, v.z);
  }

  lemma DotComm(a: Vec3, b: Vec3)
    ensures Dot(a, b) == Dot(b, a)
  {
    DotOf(a, b, a.x, a.y, a.z, b.x, b.y, b.z);
    DotOf(b, a, b.x, b.y, b.z, a.x, a.y, a.z);
  }

  lemma TripleScalar(ax: real, ay: real, az: real, bx: real, b_y: real, bz: real, cx: real, cy: real, cz: real)
    ensures (ay * bz - az * b_y) * cx + (az * bx - ax * bz) * cy + (ax * b_y - ay * bx) * cz
         == ax * (b_y * cz - bz * cy) + ay * (bz * cx - bx * cz) + az * (bx * cy - b_y * cx)
  {
  }

  /** The triple product is invariant under a cyclic shift. */
  lemma TripleProduct(a: Vec3, b: Vec3, c: Vec3)
    ensures Dot(Cross(a, b), c) == Dot(a, Cross(b, c))
  {
    DotOf(Cross(a, b), c, a.y * b.z - a.z * b.y, a.z * b.x - a.x * b.z, a.x * b.y - a.y * b.x, c.x, c.y, c.z);
    DotOf(a, Cross(b, c), a.x, a.y, a.z, b.y * c.z - b.z * c.y, b.z * c.x - b.x * c.z, b.x * c.y - b.y * c.x);
    TripleScalar(a.x, a.y, a.z, b.x, b.y, b.z, c.x, c.y, c.z);
  }

  lemma CrossOrthogonalScalar(ax: real, ay: real, az: real, bx: real, b_y: real, bz: real)
    ensures (ay * bz - az * b_y) * ax + (az * bx - ax * bz) * ay + (ax * b_y - ay * bx) * az == 0.0
    ensures (ay * bz - az * b_y) * bx + (az * bx - ax * bz) * b_y + (ax * b_y - ay * bx) * bz == 0.0
  {
  }

  /** A cross product is orthogonal to both of its factors. */
  lemma CrossOrthogonal(a: Vec3, b: Vec3)
    ensures Dot(Cross(a, b), a) == 0.0 && Dot(Cross(a, b), b) == 0.0
  {
    var c := Cross(a, b);
    DotOf(c, a, a.y * b.z - a.z * b.y, a.z * b.x - a.x * b.z, a.x * b.y - a.y * b.x, a.x, a.y, a.z);
    DotOf(c, b, a.y * b.z - a.z * b.y, a.z * b.x - a.x * b.z, a.x * b.y - a.y * b.x, b.x, b.y, b.z);
    CrossOrthogonalScalar(a.x, a.y, a.z, b.x, b.y, b.z);
  }

  lemma AdjugateRight(m: Mat3)
    ensures MatMul(m, Adjugate(m)) == MatScale(Det(m), Identity())
  {
    var c0, c1, c2 := Cross(m.r1, m.r2), Cross(m.r2, m.r0), Cross(m.r0, m.r1);
    assert Transpose(Adjugate(m)) == Mat3(c0, c1, c2);
    CrossOrthogonal(m.r1, m.r2);
    CrossOrthogonal(m.r2, m.r0);
    CrossOrthogonal(m.r0, m.r1);
    DotComm(c0, m.r0);
    TripleProduct(m.r2, m.r0, m.r1);
    DotComm(m.r2, c2);
    TripleProduct(m.r0, m.r1, m.r2);
  }

  /** A multiple of a vector given by its components. */
  lemma ScaleOf(c: real, a: Vec3, ax: real, ay: real, az: real)
    requires a == Vec3(ax, ay, az)
    ensures Scale(c, a) == Vec3(c * ax, c * ay, c * az)
  {
  }

  lemma MatVecScale(m: Mat3, s: real, v: Vec3)
    ensures MatVec(m, Scale(s, v)) == Scale(s, MatVec(m, v))
  {
    DotScale(s, m.r0, v);
    DotScale(s, m.r1, v);
    DotScale(s, m.r2, v);
    ScaleOf(s, MatVec(m, v), Dot(m.r0, v), Dot(m.r1, v), Dot(m.r2, v));
  }

  lemma MatScaleVec(m: Mat3, s: real, v: Vec3)
    ensures MatVec(MatScale(s, m), v) == Scale(s, MatVec(m, v))
  {
    DotScale(s, m.r0, v);
    DotScale(s, m.r1, v);
    DotScale(s, m.r2, v);
    ScaleOf(s, MatVec(m, v), Dot(m.r0, v), Dot(m.r1, v), Dot(m.r2, v));
  }

  lemma TransposeScale(s: real, b: Mat3)
    ensures Transpose(MatScale(s, b)) == MatScale(s, Transpose(b))
  {
    var t := Transpose(b);
    ScaleOf(s, b.r0, b.r0.x, b.r0.y, b.r0.z);
    ScaleOf(s, b.r1, b.r1.x, b.r1.y, b.r1.z);
    ScaleOf(s, b.r2, b.r2.x, b.r2.y, b.r2.z);
    ScaleOf(s, t.r0, b.r0.x, b.r1.x, b.r2.x);
    ScaleOf(s, t.r1, b.r0.y, b.r1.y, b.r2.y);
    ScaleOf(s, t.r2, b.r0.z, b.r1.z, b.r2.z);
  }

  lemma MatMulScaleRight(a: Mat3, b: Mat3, s: real)
    ensures MatMul(a, MatScale(s, b)) == MatScale(s, MatMul(a, b))
  {
    var bt := Transpose(b);
    TransposeScale(s, b);
    MatScaleVec(bt, s, a.r0);
    MatScaleVec(bt, s, a.r1);
    MatScaleVec(bt, s, a.r2);
  }

  lemma MatMulScaleLeft(a: Mat3, b: Mat3, s: real)
    ensures MatMul(MatScale(s, a), b) == MatScale(s, MatMul(a, b))
  {
    var bt := Transpose(b);
    MatVecScale(bt, s, a.r0);
    MatVecScale(bt, s, a.r1);
    MatVecScale(bt, s, a.r2);
  }

  lemma InverseRight(m: Mat3)
    requires Det(m) != 0.0
    ensures MatMul(m, MatScale(1.0 / Det(m), Adjugate(m))) == Identity()
  {
    var s := 1.0 / Det(m);
    AdjugateRight(m);
    MatMulScaleRight(m, Adjugate(m), s);
    assert s * Det(m) == 1.0;
  }

  /** The determinant, expanded along the first row. */
  lemma DetOf(m: Mat3)
    ensures Det(m) == m.r0.x * (m.r1.y * m.r2.z - m.r1.z * m.r2.y)
                    + m.r0.y * (m.r1.z * m.r2.x - m.r1.x * m.r2.z)
                    + m.r0.z * (m.r1.x * m.r2.y - m.r1.y * m.r2.x)
  {
    DotOf(m.r0, Cross(m.r1, m.r2), m.r0.x, m.r0.y, m.r0.z,
          m.r1.y * m.r2.z - m.r1.z * m.r2.y, m.r1.z * m.r2.x - m.r1.x * m.r2.z,
          m.r1.x * m.r2.y - m.r1.y * m.r2.x);
  }

  lemma DetTransposeScalar(a: real, b: real, c: real, d: real, e: real, f: real, g: real, h: real, k: real)
    ensures a * (e * k - h * f) + d * (h * c - b * k) + g * (b * f - e * c)
         == a * (e * k - f * h) + b * (f * g - d * k) + c * (d * h - e * g)
  {
  }

  /** A matrix and its transpose have the same determinant. */
  lemma DetTranspose(m: Mat3)
    ensures Det(Transpose(m)) == Det(m)
  {
    DetOf(m);
    DetOf(Transpose(m));
    DetTransposeScalar(m.r0.x, m.r0.y, m.r0.z, m.r1.x, m.r1.y, m.r1.z, m.r2.x, m.r2.y, m.r2.z);
  }

  /** A cross product of two vectors given by their components. */
  lemma CrossOf(a: Vec3, b: Vec3, ax: real, ay: real, az: real, bx: real, b_y: real, bz: real)
    requires a == Vec3(ax, ay, az) && b == Vec3(bx, b_y, bz)
    ensures Cross(a, b) == Vec3(ay * bz - az * b_y, az * bx - ax * bz, ax * b_y - ay * bx)
  {
  }

  /** Row `i` of the adjugate of the transpose is the `i`-th cross product of rows. */
  lemma AdjugateTransposeRow0(m: Mat3)
    ensures Adjugate(Transpose(m)).r0 == Cross(m.r1, m.r2)
  {
    var a, b, c := m.r0, m.r1, m.r2;
    var t := Transpose(m);
    CrossOf(t.r1, t.r2, a.y, b.y, c.y, a.z, b.z, c.z);
    CrossOf(t.r2, t.r0, a.z, b.z, c.z, a.x, b.x, c.x);
    CrossOf(t.r0, t.r1, a.x, b.x, c.x, a.y, b.y, c.y);
    CrossOf(b, c, b.x, b.y, b.z, c.x, c.y, c.z);
  }

  lemma AdjugateTransposeRow1(m: Mat3)
    ensures Adjugate(Transpose(m)).r1 == Cross(m.r2, m.r0)
  {
    var a, b, c := m.r0, m.r1, m.r2;
    var t := Transpose(m);
    CrossOf(t.r1, t.r2, a.y, b.y, c.y, a.z, b.z, c.z);
    CrossOf(t.r2, t.r0, a.z, b.z, c.z, a.x, b.x, c.x);
    CrossOf(t.r0, t.r1, a.x, b.x, c.x, a.y, b.y, c.y);
    CrossOf(c, a, c.x, c.y, c.z, a.x, a.y, a.z);
  }

  lemma AdjugateTransposeRow2(m: Mat3)
    ensures Adjugate(Transpose(m)).r2 == Cross(m.r0, m.r1)
  {
    var a, b, c := m.r0, m.r1, m.r2;
    var t := Transpose(m);
    CrossOf(t.r1, t.r2, a.y, b.y, c.y, a.z, b.z, c.z);
    CrossOf(t.r2, t.r0, a.z, b.z, c.z, a.x, b.x, c.x);
    CrossOf(t.r0, t.r1, a.x, b.x, c.x, a.y, b.y, c.y);
    CrossOf(a, b, a.x, a.y, a.z, b.x, b.y, b.z);
  }

  /** The adjugate of the transpose is the transpose of the adjugate. */
  lemma AdjugateTranspose(m: Mat3)
    ensures Adjugate(Transpose(m)) == Transpose(Adjugate(m))
  {
    AdjugateTransposeRow0(m);
    AdjugateTransposeRow1(m);
    AdjugateTransposeRow2(m);
    TransposeOfColumns(Cross(m.r1, m.r2), Cross(m.r2, m.r0), Cross(m.r0, m.r1));
  }

  /** The transpose of a product is the product of the transposes, in the other order. */
  lemma TransposeMul(a: Mat3, b: Mat3)
    ensures Transpose(MatMul(a, b)) == MatMul(Transpose(b), Transpose(a))
  {
    var bt := Transpose(b);
    DotComm(bt.r0, a.r0); DotComm(bt.r1, a.r0); DotComm(bt.r2, a.r0);
    DotComm(bt.r0, a.r1); DotComm(bt.r1, a.r1); DotComm(bt.r2, a.r1);
    DotComm(bt.r0, a.r2); DotComm(bt.r1, a.r2); DotComm(bt.r2, a.r2);
  }

  lemma AdjugateLeft(m: Mat3)
    ensures MatMul(Adjugate(m), m) == MatScale(Det(m), Identity())
  {
    var t := Transpose(m);
    AdjugateRight(t);
    AdjugateTranspose(m);
    DetTranspose(m);
    TransposeMul(t, Adjugate(t));
    assert Transpose(Adjugate(t)) == Adjugate(m);
    assert Transpose(t) == m;
  }

  lemma InverseLeft(m: Mat3)
    requires Det(m) != 0.0
    ensures MatMul(MatScale(1.0 / Det(m), Adjugate(m)), m) == Identity()
  {
    var s := 1.0 / Det(m);
    AdjugateLeft(m);
    MatMulScaleLeft(Adjugate(m), m, s);
    assert s * Det(m) == 1.0;
  }

  // Facts about matrix-vector products used by the frame conversions.

  lemma MatVecSub(m: Mat3, u: Vec3, v: Vec3)
    ensures MatVec(m, Sub(u, v)) == Sub(MatVec(m, u), MatVec(m, v))
  {
    DotSub(m.r0, u, v);
    DotSub(m.r1, u, v);
    DotSub(m.r2, u, v);
  }

  lemma MatVecZero(m: Mat3)
    ensures MatVec(m, Zero()) == Zero()
  {
    DotOf(m.r0, Zero(), m.r0.x, m.r0.y, m.r0.z, 0.0, 0.0, 0.0);
    DotOf(m.r1, Zero(), m.r1.x, m.r1.y, m.r1.z, 0.0, 0.0, 0.0);
    DotOf(m.r2, Zero(), m.r2.x, m.r2.y, m.r2.z, 0.0, 0.0, 0.0);
  }

  lemma MatVecIdentity(v: Vec3)
    ensures MatVec(Identity(), v) == v
  {
    var i := Identity();
    DotOf(i.r0, v, 1.0, 0.0, 0.0, v.x, v.y, v.z);
    DotOf(i.r1, v, 0.0, 1.0, 0.0, v.x, v.y, v.z);
    DotOf(i.r2, v, 0.0, 0.0, 1.0, v.x, v.y, v.z);
  }

  lemma AssocScalar(p: real, q: real, r: real,
                    b00: real, b01: real, b02: real, b10: real, b11: real, b12: real,
                    b20: real, b21: real, b22: real, v0: real, v1: real, v2: real)
    ensures (b00 * p + b10 * q + b20 * r) * v0 + (b01 * p + b11 * q + b21 * r) * v1
          + (b02 * p + b12 * q + b22 * r) * v2
         == p * (b00 * v0 + b01 * v1 + b02 * v2) + q * (b10 * v0 + b11 * v1 + b12 * v2)
          + r * (b20 * v0 + b21 * v1 + b22 * v2)
  {
  }

  lemma RowAssoc(ai: Vec3, b: Mat3, v: Vec3)
    ensures Dot(MatVec(Transpose(b), ai), v) == Dot(ai, MatVec(b, v))
  {
    var t := Transpose(b);
    DotOf(t.r0, ai, b.r0.x, b.r1.x, b.r2.x, ai.x, ai.y, ai.z);
    DotOf(t.r1, ai, b.r0.y, b.r1.y, b.r2.y, ai.x, ai.y, ai.z);
    DotOf(t.r2, ai, b.r0.z, b.r1.z, b.r2.z, ai.x, ai.y, ai.z);
    DotOf(b.r0, v, b.r0.x, b.r0.y, b.r0.z, v.x, v.y, v.z);
    DotOf(b.r1, v, b.r1.x, b.r1.y, b.r1.z, v.x, v.y, v.z);
    DotOf(b.r2, v, b.r2.x, b.r2.y, b.r2.z, v.x, v.y, v.z);
    DotOf(MatVec(t, ai), v,
          b.r0.x * ai.x + b.r1.x * ai.y + b.r2.x * ai.z,
          b.r0.y * ai.x + b.r1.y * ai.y + b.r2.y * ai.z,
          b.r0.z * ai.x + b.r1.z * ai.y + b.r2.z * ai.z, v.x, v.y, v.z);
    DotOf(ai, MatVec(b, v), ai.x, ai.y, ai.z,
          b.r0.x * v.x + b.r0.y * v.y + b.r0.z * v.z,
          b.r1.x * v.x + b.r1.y * v.y + b.r1.z * v.z,
          b.r2.x * v.x + b.r2.y * v.y + b.r2.z * v.z);
    AssocScalar(ai.x, ai.y, ai.z, b.r0.x, b.r0.y, b.r0.z, b.r1.x, b.r1.y, b.r1.z,
                b.r2.x, b.r2.y, b.r2.z, v.x, v.y, v.z);
  }

  /** Applying a product is applying its factors in turn. */
  lemma MatVecMul(a: Mat3, b: Mat3, v: Vec3)
    ensures MatVec(MatMul(a, b), v) == MatVec(a, MatVec(b, v))
  {
    RowAssoc(a.r0, b, v);
    RowAssoc(a.r1, b, v);
    RowAssoc(a.r2, b, v);
  }

  /** A two-sided inverse undoes its matrix on vectors, in both orders. */
  lemma InverseCancels(m: Mat3, inv: Mat3, v: Vec3)
    requires MatMul(m, inv) == Identity() && MatMul(inv, m) == Identity()
    ensures MatVec(m, MatVec(inv, v)) == v
    ensures MatVec(inv, MatVec(m, v)) == v
  {
    MatVecMul(m, inv, v);
    MatVecMul(inv, m, v);
    MatVecIdentity(v);
  }

  // Linear cancellations.

  lemma AddSubCancel(a: Vec3, b: Vec3)
    ensures Sub(Add(a, b), a) == b && Sub(Add(a, b), b) == a
  {
  }

  lemma SubInjective(a: Vec3, b: Vec3, c: Vec3)
    requires Sub(a, c) == Sub(b, c)
    ensures a == b
  {
  }

  lemma CrossZero(w: Vec3)
    ensures Cross(w, Zero()) == Zero()
  {
  }

  /** A matrix with a two-sided inverse is injective on vectors. */
  lemma MatVecInjective(m: Mat3, inv: Mat3, u: Vec3, v: Vec3)
    requires MatMul(m, inv) == Identity() && MatMul(inv, m) == Identity()
    requires MatVec(m, u) == MatVec(m, v)
    ensures u == v
  {
    InverseCancels(m, inv, u);
    InverseCancels(m, inv, v);
  }

  lemma TransposeOfColumns(c0: Vec3, c1: Vec3, c2: Vec3)
    ensures Transpose(FromColumns(c0, c1, c2)) == Mat3(c0, c1, c2)
  {
  }

  /**
    One component of the vector triple product, on the components of `u` and
    `w` and on the names `cy`, `cz`, `ww`, `uw` the caller has for the
    components of `w x u` and for `w.w`, `u.w`.
  */
  lemma BacCabScalar(ux: real, uy: real, uz: real, wx: real, wy: real, wz: real,
                     cy: real, cz: real, ww: real, uw: real)
    requires cy == wz * ux - wx * uz && cz == wx * uy - wy * ux
    requires ww == wx * wx + wy * wy + wz * wz && uw == ux * wx + uy * wy + uz * wz
    ensures cy * wz - cz * wy == ww * ux - uw * wx
  {
    MulEq(cy, wz, wz * ux - wx * uz);
    MulEq(cz, wy, wx * uy - wy * ux);
    MulEq(ww, ux, wx * wx + wy * wy + wz * wz);
    MulEq(uw, wx, ux * wx + uy * wy + uz * wz);
  }

  /** The first component of `(w x u) x w = (w.w) u - (u.w) w`; the others follow by rotating the axes. */
  lemma BacCabX(u: Vec3, w: Vec3)
    ensures Cross(Cross(w, u), w).x == Sub(Scale(Dot(w, w), u), Scale(Dot(u, w), w)).x
  {
    var c := Cross(w, u);
    BacCabScalar(u.x, u.y, u.z, w.x, w.y, w.z, c.y, c.z, Dot(w, w), Dot(u, w));
  }

  lemma BacCabY(u: Vec3, w: Vec3)
    ensures Cross(Cross(w, u), w).y == Sub(Scale(Dot(w, w), u), Scale(Dot(u, w), w)).y
  {
    var c := Cross(w, u);
    BacCabScalar(u.y, u.z, u.x, w.y, w.z, w.x, c.z, c.x, Dot(w, w), Dot(u, w));
  }

  lemma BacCabZ(u: Vec3, w: Vec3)
    ensures Cross(Cross(w, u), w).z == Sub(Scale(Dot(w, w), u), Scale(Dot(u, w), w)).z
  {
    var c := Cross(w, u);
    BacCabScalar(u.z, u.x, u.y, w.z, w.x, w.y, c.x, c.y, Dot(w, w), Dot(u, w));
  }

  /** The vector triple product `(w x u) x w = (w.w) u - (u.w) w`. */
  lemma BacCab(u: Vec3, w: Vec3)
    ensures Cross(Cross(w, u), w) == Sub(Scale(Dot(w, w), u), Scale(Dot(u, w), w))
  {
    BacCabX(u, w);
    BacCabY(u, w);
    BacCabZ(u, w);
  }

  /** The determinant of the rows `u`, `w x u`, `w` is Lagrange's `|u|^2 |w|^2 - (u.w)^2`. */
  lemma DetOfFrameRows(u: Vec3, w: Vec3)
    ensures Det(Mat3(u, Cross(w, u), w)) == Dot(u, u) * Dot(w, w) - Dot(u, w) * Dot(u, w)
  {
    BacCab(u, w);
    DotSub(u, Scale(Dot(w, w), u), Scale(Dot(u, w), w));
    DotScale(Dot(w, w), u, u);
    DotScale(Dot(u, w), u, w);
  }
}
