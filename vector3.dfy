/**
  The vector helpers of the crate: the axis relabelling between the LVLH
  and VVLH frames, normalisation, the LVLH basis matrix of a reference
  state and its angular-velocity matrix, and the older revision's
  velocity-only frame conversions.
*/
module Vector3 {
  import opened Wrappers
  import opened Linalg
  import opened Errors
  import opened PosVelState

  /** A `[T; 3]`. */
  type Array3 = s: seq<real> | |s| == 3 witness [0.0, 0.0, 0.0]

  /** The components of a vector, in order. */
  function ToArray(v: Vec3): (r: Array3)
    ensures r[0] == v.x && r[1] == v.y && r[2] == v.z
  {
    [v.x, v.y, v.z]
  }

  /** nalgebra's `Vector3::new` on the elements of an array. */
  function FromArray(a: Array3): (v: Vec3)
    ensures ToArray(v) == a
  {
    var v := Vec3(a[0], a[1], a[2]);
    assert ToArray(v)[0] == a[0] && ToArray(v)[1] == a[1] && ToArray(v)[2] == a[2];
    v
  }

  /** `to_array` loses nothing: the vector is recovered from its components. */
  lemma ToArrayRoundTrip(v: Vec3)
    ensures FromArray(ToArray(v)) == v
  {
  }

  // The axis relabelling. LVLH x is radial, z along the angular momentum;
  // VVLH x is along-track, z toward the centre.

  /** The LVLH components of a vector given in VVLH axes: `(x, y, z)` goes to `(-z, x, -y)`. */
  function LvlhFromVvlh(vvlh: Vec3): (r: Vec3)
    ensures r == Vec3(-vvlh.z, vvlh.x, -vvlh.y)
  {
    var a := ToArray(vvlh);
    Vec3(-a[2], a[0], -a[1])
  }

  /** The VVLH components of a vector given in LVLH axes: `(x, y, z)` goes to `(y, -z, -x)`. */
  function VvlhFromLvlh(lvlh: Vec3): (r: Vec3)
    ensures r == Vec3(lvlh.y, -lvlh.z, -lvlh.x)
  {
    var a := ToArray(lvlh);
    Vec3(a[1], -a[2], -a[0])
  }

  /** The two relabellings undo each other, in both orders. */
  lemma AxisMapsInverse(v: Vec3)
    ensures VvlhFromLvlh(LvlhFromVvlh(v)) == v
    ensures LvlhFromVvlh(VvlhFromLvlh(v)) == v
  {
  }

  /** The VVLH vector `(1, 2, 3)` is the LVLH vector `(-3, 1, -2)`, and back. */
  lemma AxisMapsExample()
    ensures LvlhFromVvlh(Vec3(1.0, 2.0, 3.0)) == Vec3(-3.0, 1.0, -2.0)
    ensures VvlhFromLvlh(Vec3(-3.0, 1.0, -2.0)) == Vec3(1.0, 2.0, 3.0)
  {
  }

  /**
    The relabelling is a rotation: it keeps dot products and carries cross
    products to cross products, so both frames are right-handed.
  */
  lemma LvlhFromVvlhIsRotation(a: Vec3, b: Vec3)
    ensures Dot(LvlhFromVvlh(a), LvlhFromVvlh(b)) == Dot(a, b)
    ensures Cross(LvlhFromVvlh(a), LvlhFromVvlh(b)) == LvlhFromVvlh(Cross(a, b))
  {
    var la, lb := LvlhFromVvlh(a), LvlhFromVvlh(b);
    DotOf(la, lb, -a.z, a.x, -a.y, -b.z, b.x, -b.y);
    DotOf(a, b, a.x, a.y, a.z, b.x, b.y, b.z);
    CrossOf(la, lb, -a.z, a.x, -a.y, -b.z, b.x, -b.y);
    CrossOf(a, b, a.x, a.y, a.z, b.x, b.y, b.z);
  }

  // Normalisation.

  /** nalgebra's `normalize`: the vector divided by its norm, which must not be zero. */
  function Unit(v: Vec3, norm: Vec3 -> real): (u: Vec3)
    requires norm(v) != 0.0
    ensures Scale(norm(v), u) == v
  {
    ScaleUnit(v, norm(v));
    Div(v, norm(v))
  }

  lemma InverseScalar(n: real, c: real, x: real)
    requires n != 0.0 && c == 1.0 / n
    ensures n * (c * x) == x
  {
    assert n * c == 1.0;
  }

  lemma ScaleUnit(v: Vec3, n: real)
    requires n != 0.0
    ensures Scale(n, Div(v, n)) == v
  {
    var c := 1.0 / n;
    ScaleOf(n, Div(v, n), c * v.x, c * v.y, c * v.z);
    InverseScalar(n, c, v.x);
    InverseScalar(n, c, v.y);
    InverseScalar(n, c, v.z);
  }

  lemma UnitScalar(c: real, n: real, d: real, x: real)
    requires n != 0.0 && c == 1.0 / n && d == n * n && x == c * d
    ensures x * c == 1.0
  {
    MulEq(x, c, c * d);
    MulEq(d, c * c, n * n);
    assert c * n == 1.0;
  }

  /** Under a Euclidean norm, a normalised vector has length one. */
  lemma UnitLength(v: Vec3, norm: Vec3 -> real)
    requires IsEuclideanNorm(norm) && norm(v) != 0.0
    ensures Dot(Unit(v, norm), Unit(v, norm)) == 1.0
  {
    var n := norm(v);
    var c := 1.0 / n;
    var u := Unit(v, norm);
    assert u == Scale(c, v);
    DotScale(c, v, u);
    DotScale(c, v, v);
    UnitScalar(c, n, Dot(v, v), Dot(v, u));
  }

  /** The newer revision's `norm_not_zero`: the norm, or `NormalizeZero` when it is zero. */
  function NormNotZero(v: Vec3, norm: Vec3 -> real): (r: Result<real, MatrixError>)
    ensures r.Success? <==> norm(v) != 0.0
    ensures r.Success? ==> r.value == norm(v)
    ensures r.Failure? ==> r.error == NormalizeZero
  {
    var n := norm(v);
    if n == 0.0 then Failure(NormalizeZero) else Success(n)
  }

  /** The newer revision's `normalize`: `v / norm_not_zero(v)`. */
  function Normalize(v: Vec3, norm: Vec3 -> real): (r: Result<Vec3, MatrixError>)
    ensures r.Success? <==> norm(v) != 0.0
    ensures r.Success? ==> Scale(norm(v), r.value) == v && r.value == Unit(v, norm)
    ensures r.Failure? ==> r.error == NormalizeZero
  {
    var n :- NormNotZero(v, norm);
    Success(Unit(v, norm))
  }

  /** Under a Euclidean norm both guards fail exactly on the zero vector. */
  lemma NormalizeEuclidean(v: Vec3, norm: Vec3 -> real)
    requires IsEuclideanNorm(norm)
    ensures NormNotZero(v, norm).Failure? <==> v == Zero()
    ensures Normalize(v, norm).Failure? <==> v == Zero()
  {
    assert norm(v) == 0.0 <==> v == Zero();
  }

  // The LVLH basis of a reference state.

  /**
    The basis matrix built from the unit radial vector and the unit angular
    momentum: the transpose of the matrix with columns `rouHat`,
    `hHat x rouHat`, `hHat`, that is, the matrix with those vectors as rows.
  */
  function FrameBasis(rouHat: Vec3, hHat: Vec3): (a: Mat3)
    ensures a == Mat3(rouHat, Cross(hHat, rouHat), hHat)
  {
    var thetaHat := Cross(hHat, rouHat);
    TransposeOfColumns(rouHat, thetaHat, hHat);
    Transpose(FromColumns(rouHat, thetaHat, hHat))
  }

  lemma PositiveProduct(a: real, b: real)
    requires a > 0.0 && b > 0.0
    ensures a * b > 0.0
  {
  }

  lemma SquarePositive(n: real)
    requires n != 0.0
    ensures n * n > 0.0
  {
    if n > 0.0 {
      PositiveProduct(n, n);
    } else {
      PositiveProduct(-n, -n);
    }
  }

  /** The orbital angular velocity `h / |rou|^2` of the reference: scaled by `|rou|^2` it is `h` again. */
  function AngularVelocity(h: Vec3, rouNorm: real): (w: Vec3)
    requires rouNorm != 0.0
    ensures Scale(rouNorm * rouNorm, w) == h
  {
    SquarePositive(rouNorm);
    ScaleUnit(h, rouNorm * rouNorm);
    Scale(1.0 / (rouNorm * rouNorm), h)
  }

  /**
    The skew matrix of `w`, as the source lays it out row by row from the
    components of `w`; `OmegaMatrixIsCross` shows what it computes.
  */
  function OmegaMatrix(w: Vec3): (m: Mat3)
    ensures m == Mat3(Vec3(0.0, -w.z, w.y), Vec3(w.z, 0.0, -w.x), Vec3(-w.y, w.x, 0.0))
  {
    var a := ToArray(w);
    var x, y, z := a[0], a[1], a[2];
    Mat3(Vec3(0.0, -z, y), Vec3(z, 0.0, -x), Vec3(-y, x, 0.0))
  }

  /** The skew matrix of `w` applied to `u` is the cross product `w x u`. */
  lemma OmegaMatrixIsCross(w: Vec3, u: Vec3)
    ensures MatVec(OmegaMatrix(w), u) == Cross(w, u)
  {
    var m := OmegaMatrix(w);
    DotOf(m.r0, u, 0.0, -w.z, w.y, u.x, u.y, u.z);
    DotOf(m.r1, u, w.z, 0.0, -w.x, u.x, u.y, u.z);
    DotOf(m.r2, u, -w.y, w.x, 0.0, u.x, u.y, u.z);
    CrossOf(w, u, w.x, w.y, w.z, u.x, u.y, u.z);
  }

  /**
    The basis matrix of the reference state with position `pos` and velocity
    `vel`: its first row is the radial direction, its last the direction of
    the angular momentum `h = pos x vel`, and its middle row their cross product.
  */
  function ReferenceBasis(pos: Vec3, vel: Vec3, norm: Vec3 -> real): (a: Mat3)
    requires norm(pos) != 0.0 && norm(Cross(pos, vel)) != 0.0
    ensures Scale(norm(pos), a.r0) == pos
    ensures Scale(norm(Cross(pos, vel)), a.r2) == Cross(pos, vel)
    ensures a.r1 == Cross(a.r2, a.r0)
  {
    FrameBasis(Unit(pos, norm), Unit(Cross(pos, vel), norm))
  }

  /** The angular velocity of the reference state with position `pos` and velocity `vel`: `(pos x vel) / |pos|^2`. */
  function ReferenceOmega(pos: Vec3, vel: Vec3, norm: Vec3 -> real): (w: Vec3)
    requires norm(pos) != 0.0
    ensures Scale(norm(pos) * norm(pos), w) == Cross(pos, vel)
  {
    AngularVelocity(Cross(pos, vel), norm(pos))
  }

  /**
    The relation between a state relative to the reference, in LVLH axes
    (`lpos`, `lvel`), and the same state in J2000 (`jpos`, `jvel`): the LVLH
    position is the relative position in the reference's basis, and the
    LVLH velocity is the relative velocity, less the transport term
    `omega x relative position`, in that basis.
  */
  ghost predicate FrameRelation(lpos: Vec3, lvel: Vec3, jpos: Vec3, jvel: Vec3, refPos: Vec3, refVel: Vec3, norm: Vec3 -> real)
    requires norm(refPos) != 0.0 && norm(Cross(refPos, refVel)) != 0.0
  {
    var a, w, d := ReferenceBasis(refPos, refVel, norm), ReferenceOmega(refPos, refVel, norm), Sub(jpos, refPos);
    lpos == MatVec(a, d) && lvel == MatVec(a, Sub(Sub(jvel, refVel), Cross(w, d)))
  }

  /**
    The J2000-from-LVLH formula of both revisions, for any `a` with a
    two-sided inverse `inv`: the position is the reference position plus
    `inv * lpos`, the velocity the reference velocity plus
    `inv * (lvel + (a * omega) * (inv * lpos))`. It inverts the LVLH relation.
  */
  lemma FromLvlhFormula(a: Mat3, inv: Mat3, w: Vec3, refPos: Vec3, refVel: Vec3, lpos: Vec3, lvel: Vec3)
    requires MatMul(a, inv) == Identity() && MatMul(inv, a) == Identity()
    ensures var p := MatVec(inv, lpos);
            var vel := Add(refVel, MatVec(inv, Add(lvel, MatVec(MatMul(a, OmegaMatrix(w)), p))));
            lpos == MatVec(a, Sub(Add(refPos, p), refPos))
            && lvel == MatVec(a, Sub(Sub(vel, refVel), Cross(w, Sub(Add(refPos, p), refPos))))
  {
    var p := MatVec(inv, lpos);
    var t := MatVec(a, Cross(w, p));
    var x := Add(lvel, MatVec(MatMul(a, OmegaMatrix(w)), p));
    AddSubCancel(refPos, p);
    InverseCancels(a, inv, lpos);
    AddSubCancel(refVel, MatVec(inv, x));
    MatVecSub(a, MatVec(inv, x), Cross(w, p));
    InverseCancels(a, inv, x);
    MatVecMul(a, OmegaMatrix(w), p);
    OmegaMatrixIsCross(w, p);
    AddSubCancel(lvel, t);
  }

  /** With an invertible basis, the LVLH relation determines the J2000 state. */
  lemma FrameRelationInjective(lpos: Vec3, lvel: Vec3, jpos1: Vec3, jvel1: Vec3, jpos2: Vec3, jvel2: Vec3,
                               refPos: Vec3, refVel: Vec3, norm: Vec3 -> real)
    requires norm(refPos) != 0.0 && norm(Cross(refPos, refVel)) != 0.0
    requires Det(ReferenceBasis(refPos, refVel, norm)) != 0.0
    requires FrameRelation(lpos, lvel, jpos1, jvel1, refPos, refVel, norm)
    requires FrameRelation(lpos, lvel, jpos2, jvel2, refPos, refVel, norm)
    ensures jpos1 == jpos2 && jvel1 == jvel2
  {
    var a, w := ReferenceBasis(refPos, refVel, norm), ReferenceOmega(refPos, refVel, norm);
    var inv := TryInverse(a).value;
    var d1, d2 := Sub(jpos1, refPos), Sub(jpos2, refPos);
    MatVecInjective(a, inv, d1, d2);
    SubInjective(jpos1, jpos2, refPos);
    MatVecInjective(a, inv, Sub(Sub(jvel1, refVel), Cross(w, d1)), Sub(Sub(jvel2, refVel), Cross(w, d2)));
  }

  /** The reference state itself is the LVLH zero state. */
  lemma FrameRelationAtReference(refPos: Vec3, refVel: Vec3, norm: Vec3 -> real)
    requires norm(refPos) != 0.0 && norm(Cross(refPos, refVel)) != 0.0
    ensures FrameRelation(Zero(), Zero(), refPos, refVel, refPos, refVel, norm)
  {
    var a, w := ReferenceBasis(refPos, refVel, norm), ReferenceOmega(refPos, refVel, norm);
    assert Sub(refPos, refPos) == Zero() && Sub(refVel, refVel) == Zero();
    CrossZero(w);
    assert Sub(Zero(), Zero()) == Zero();
    MatVecZero(a);
  }

  lemma DotZeroScale(c1: real, c2: real, x: real, y: real, z: real)
    requires z == 0.0 && y == c2 * z && x == c1 * y
    ensures x == 0.0
  {
    MulEq(z, c2, 0.0);
    MulEq(y, c1, 0.0);
  }

  lemma DetOneScalar(uu: real, ww: real, uw: real, d: real)
    requires uu == 1.0 && ww == 1.0 && uw == 0.0 && d == uu * ww - uw * uw
    ensures d == 1.0
  {
    MulEq(uu, ww, 1.0);
    MulEq(uw, uw, 0.0);
  }

  /**
    Under a Euclidean norm the basis of a reference state is orthonormal:
    its rows are unit vectors and the radial one is orthogonal to the
    angular momentum, so its determinant is one and it is always invertible.
  */
  lemma ReferenceBasisDet(pos: Vec3, vel: Vec3, norm: Vec3 -> real)
    requires IsEuclideanNorm(norm) && norm(pos) != 0.0 && norm(Cross(pos, vel)) != 0.0
    ensures Det(ReferenceBasis(pos, vel, norm)) == 1.0
  {
    var h := Cross(pos, vel);
    var u, w := Unit(pos, norm), Unit(h, norm);
    var c1, c2 := 1.0 / norm(pos), 1.0 / norm(h);
    DetOfFrameRows(u, w);
    UnitLength(pos, norm);
    UnitLength(h, norm);
    assert u == Scale(c1, pos) && w == Scale(c2, h);
    DotScale(c1, pos, w);
    DotScale(c2, pos, h);
    CrossOrthogonal(pos, vel);
    DotComm(h, pos);
    DotZeroScale(c1, c2, Dot(u, w), Dot(pos, w), Dot(pos, h));
    DetOneScalar(Dot(u, u), Dot(w, w), Dot(u, w), Det(Mat3(u, Cross(w, u), w)));
  }

  // The older revision's velocity-only conversions. They divide by the norms
  // of the reference position and angular momentum without a guard, so here
  // both norms are required to be non-zero.

  /**
    `try_j2000_vel_from_lvlh`: the J2000 components of a velocity given in
    LVLH axes, by the inverse basis alone, with no angular-velocity term and
    no reference velocity added.
  */
  function TryJ2000VelFromLvlh(lvlhVel: Vec3, refState: J2000, norm: Vec3 -> real): (r: Result<Vec3, InverseOfSingularMatrix>)
    requires norm(refState.state.pos) != 0.0 && norm(Cross(refState.state.pos, refState.state.vel)) != 0.0
    ensures r.Failure? <==> Det(ReferenceBasis(refState.state.pos, refState.state.vel, norm)) == 0.0
    ensures r.Success? ==> MatVec(ReferenceBasis(refState.state.pos, refState.state.vel, norm), r.value) == lvlhVel
  {
    var rouRef, vel := refState.state.pos, refState.state.vel;
    var rouHat := Unit(rouRef, norm);
    var hHat := Unit(Cross(rouRef, vel), norm);
    var a := FrameBasis(rouHat, hHat);
    var inv :- TryInverse(a).OkOr(InverseOfSingularMatrix);
    InverseCancels(a, inv, lvlhVel);
    Success(MatVec(inv, lvlhVel))
  }

  /** `try_j2000_vel_from_vvlh`: the same, for a velocity given in VVLH axes. */
  function TryJ2000VelFromVvlh(vvlhVel: Vec3, refState: J2000, norm: Vec3 -> real): (r: Result<Vec3, InverseOfSingularMatrix>)
    requires norm(refState.state.pos) != 0.0 && norm(Cross(refState.state.pos, refState.state.vel)) != 0.0
    ensures r.Failure? <==> Det(ReferenceBasis(refState.state.pos, refState.state.vel, norm)) == 0.0
    ensures r.Success? ==> VvlhFromLvlh(MatVec(ReferenceBasis(refState.state.pos, refState.state.vel, norm), r.value)) == vvlhVel
  {
    AxisMapsInverse(vvlhVel);
    TryJ2000VelFromLvlh(LvlhFromVvlh(vvlhVel), refState, norm)
  }

  /** The three values `lvlh_vel_from_j2000_impl` returns. */
  datatype LvlhVelFromJ2000ImplResult = LvlhVelFromJ2000ImplResult(lvlhVel: Vec3, a: Mat3, rouRel: Vec3)

  /**
    `lvlh_vel_from_j2000_impl`. The relative position is computed as the
    reference position minus itself (the state's own position is shadowed by
    the reference's), so it is always zero and the angular-velocity term
    vanishes: the result is the basis applied to the velocity difference.
  */
  function LvlhVelFromJ2000Impl(j2000Vel: Vec3, refState: J2000, norm: Vec3 -> real): (r: LvlhVelFromJ2000ImplResult)
    requires norm(refState.state.pos) != 0.0 && norm(Cross(refState.state.pos, refState.state.vel)) != 0.0
    ensures r.rouRel == Zero()
    ensures r.a == ReferenceBasis(refState.state.pos, refState.state.vel, norm)
    ensures r.lvlhVel == MatVec(r.a, Sub(j2000Vel, refState.state.vel))
  {
    var pos, vel := refState.state.pos, refState.state.vel;
    var rouRef, vRef := pos, vel;
    var rouNorm := norm(rouRef);
    var rouHat := Div(rouRef, rouNorm);
    var h := Cross(rouRef, vRef);
    var hHat := Unit(h, norm);
    var a := FrameBasis(rouHat, hHat);
    var omegaW := OmegaMatrix(AngularVelocity(h, rouNorm));
    var rouRel := Sub(pos, rouRef);
    var lvlhVel := ImplLvlhVel(a, omegaW, j2000Vel, vRef, rouRel);
    MatVecZero(MatMul(a, omegaW));
    LvlhVelFromJ2000ImplResult(lvlhVel, a, rouRel)
  }

  /**
    The velocity formula of `lvlh_vel_from_j2000_impl`,
    `a * (j2000_vel - v_ref - (-a) * omega_w * rou_rel)`: the transport term
    enters as `+ a * omega_w * rou_rel`, where the LVLH relation has
    `- omega_w * rou_rel`.
  */
  function ImplLvlhVel(a: Mat3, omegaW: Mat3, j2000Vel: Vec3, vRef: Vec3, rouRel: Vec3): (r: Vec3)
    ensures r == MatVec(a, Add(Sub(j2000Vel, vRef), MatVec(MatMul(a, omegaW), rouRel)))
  {
    var m := MatMul(a, omegaW);
    MatMulScaleLeft(a, omegaW, -1.0);
    MatScaleVec(m, -1.0, rouRel);
    MatVec(a, Sub(Sub(j2000Vel, vRef), MatVec(MatMul(MatNeg(a), omegaW), rouRel)))
  }

  /**
    The transport term of `lvlh_vel_from_j2000_impl` is wrong even once the
    relative position is not zero. With the identity basis, a relative state
    that is at rest in LVLH axes (its relative velocity `v` is the transport
    velocity `w x d`) comes out of the impl's formula with velocity `2 v`
    instead of zero. The formula depends on the velocities only through
    `v - v_ref`, so `v_ref` is taken to be zero here.
  */
  lemma ImplTransportDoubles(w: Vec3, d: Vec3, v: Vec3)
    requires Cross(w, d) == v
    ensures Sub(v, Cross(w, d)) == Zero()
    ensures ImplLvlhVel(Identity(), OmegaMatrix(w), v, Zero(), d) == Scale(2.0, v)
  {
    ImplLvlhVelIdentity(w, v, Zero(), d, Scale(2.0, v));
  }

  /**
    A concrete instance: the reference at position `(1, 0, 0)` with velocity
    `(0, 1, 0)` has, under the Euclidean norm, the basis `I` and the angular
    velocity `w = (0, 0, 1)`. A state at J2000 velocity `(0, 2, 0)` at the
    relative position `d = (1, 0, 0)` has relative velocity `v = (0, 1, 0) = w x d`,
    so it is at rest at `d` in LVLH axes; the formula gives `2 v = (0, 2, 0)`.
  */
  lemma ImplTransportTermExample(w: Vec3, d: Vec3, v: Vec3)
    requires w == Vec3(0.0, 0.0, 1.0) && d == Vec3(1.0, 0.0, 0.0) && v == Vec3(0.0, 1.0, 0.0)
    ensures Cross(w, d) == v && Sub(v, Cross(w, d)) == Zero()
    ensures ImplLvlhVel(Identity(), OmegaMatrix(w), v, Zero(), d) == Scale(2.0, v)
  {
    ExampleCross(w, d, v);
    ImplTransportDoubles(w, d, v);
  }

  lemma ExampleCross(w: Vec3, d: Vec3, v: Vec3)
    requires w == Vec3(0.0, 0.0, 1.0) && d == Vec3(1.0, 0.0, 0.0) && v == Vec3(0.0, 1.0, 0.0)
    ensures Cross(w, d) == v
  {
    CrossOf(w, d, 0.0, 0.0, 1.0, 1.0, 0.0, 0.0);
  }

  /** With the identity basis the impl's formula gives `v - vRef + w x d`. */
  lemma ImplLvlhVelIdentity(w: Vec3, j2000Vel: Vec3, vRef: Vec3, d: Vec3, u: Vec3)
    requires u == Add(Sub(j2000Vel, vRef), Cross(w, d))
    ensures ImplLvlhVel(Identity(), OmegaMatrix(w), j2000Vel, vRef, d) == u
  {
    IdentityTransportTerm(w, d);
    MatVecIdentity(u);
    ImplLvlhVelOf(Identity(), OmegaMatrix(w), j2000Vel, vRef, d, Cross(w, d), u);
  }

  lemma IdentityTransportTerm(w: Vec3, d: Vec3)
    ensures MatVec(MatMul(Identity(), OmegaMatrix(w)), d) == Cross(w, d)
  {
    MatVecMul(Identity(), OmegaMatrix(w), d);
    OmegaMatrixIsCross(w, d);
    MatVecIdentity(Cross(w, d));
  }

  lemma ImplLvlhVelOf(a: Mat3, omegaW: Mat3, j2000Vel: Vec3, vRef: Vec3, rouRel: Vec3, t: Vec3, u: Vec3)
    requires MatVec(MatMul(a, omegaW), rouRel) == t
    requires u == Add(Sub(j2000Vel, vRef), t) && MatVec(a, u) == u
    ensures ImplLvlhVel(a, omegaW, j2000Vel, vRef, rouRel) == u
  {
  }

  /** `lvlh_vel_from_j2000`: the LVLH velocity, the basis applied to the velocity relative to the reference. */
  function LvlhVelFromJ2000(j2000Vel: Vec3, refState: J2000, norm: Vec3 -> real): (r: Vec3)
    requires norm(refState.state.pos) != 0.0 && norm(Cross(refState.state.pos, refState.state.vel)) != 0.0
    ensures r == MatVec(ReferenceBasis(refState.state.pos, refState.state.vel, norm), Sub(j2000Vel, refState.state.vel))
  {
    LvlhVelFromJ2000Impl(j2000Vel, refState, norm).lvlhVel
  }

  /**
    The two velocity helpers are inverse only up to the reference velocity:
    `lvlh_vel_from_j2000` subtracts it and `try_j2000_vel_from_lvlh` does not
    add it back.
  */
  lemma VelocityHelpersRoundTrip(v: Vec3, refState: J2000, norm: Vec3 -> real)
    requires norm(refState.state.pos) != 0.0 && norm(Cross(refState.state.pos, refState.state.vel)) != 0.0
    requires Det(ReferenceBasis(refState.state.pos, refState.state.vel, norm)) != 0.0
    ensures TryJ2000VelFromLvlh(LvlhVelFromJ2000(v, refState, norm), refState, norm) == Success(Sub(v, refState.state.vel))
  {
    var a := ReferenceBasis(refState.state.pos, refState.state.vel, norm);
    var inv := TryInverse(a).value;
    InverseCancels(a, inv, Sub(v, refState.state.vel));
  }
}
