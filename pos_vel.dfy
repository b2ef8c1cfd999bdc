/**
  The newer revision of the satellite state: `PosVel` and its three
  frame-tagged wrappers, whose conversions check every division they make
  and report a `MatrixError` instead of relying on the caller.
*/
module PosVel {
  import opened Wrappers
  import opened Linalg
  import opened Errors
  import Vector3
  import PosVelState

  /** Position in metres and velocity in metres per second. */
  datatype PosVel = PosVel(pos: Vec3, vel: Vec3) {
    static function New(pos: Vec3, vel: Vec3): (r: PosVel)
      ensures r.pos == pos && r.vel == vel
    {
      PosVel(pos, vel)
    }

    /** Both vectors are nalgebra's default, the zero vector. */
    static function Default(): (r: PosVel)
      ensures r.pos == Zero() && r.vel == Zero()
    {
      PosVel(Zero(), Zero())
    }

    /** The six-number view of a state (`impl_transmute!` to `[T; 6]`): position, then velocity. */
    static function FromArray(a: PosVelState.Array6): (r: PosVel)
      ensures r.pos == Vec3(a[0], a[1], a[2]) && r.vel == Vec3(a[3], a[4], a[5])
    {
      PosVel(Vec3(a[0], a[1], a[2]), Vec3(a[3], a[4], a[5]))
    }

    function ToArray(): (a: PosVelState.Array6)
      ensures FromArray(a) == this
    {
      [pos.x, pos.y, pos.z, vel.x, vel.y, vel.z]
    }
  }

  /** Reading six numbers into a state and back gives the same six numbers. */
  lemma ArrayRoundTrip(a: PosVelState.Array6)
    ensures PosVel.FromArray(a).ToArray() == a
  {
    var b := PosVel.FromArray(a).ToArray();
    assert forall i | 0 <= i < 6 :: b[i] == a[i];
  }

  /** The two guards of the conversions: the reference position and its angular momentum have non-zero norm. */
  ghost predicate Guarded(refState: J2000, norm: Vec3 -> real)
  {
    norm(refState.state.pos) != 0.0 && norm(Cross(refState.state.pos, refState.state.vel)) != 0.0
  }

  /** The LVLH basis of a guarded reference state. */
  ghost function Basis(refState: J2000, norm: Vec3 -> real): Mat3
    requires Guarded(refState, norm)
  {
    Vector3.ReferenceBasis(refState.state.pos, refState.state.vel, norm)
  }

  /** `lvlh` is the state `j2000` seen from the reference `refState`. */
  ghost predicate Relates(lvlh: LVLH, j2000: J2000, refState: J2000, norm: Vec3 -> real)
    requires Guarded(refState, norm)
  {
    Vector3.FrameRelation(lvlh.state.pos, lvlh.state.vel, j2000.state.pos, j2000.state.vel,
                          refState.state.pos, refState.state.vel, norm)
  }

  /** A state in the inertial J2000 frame. */
  datatype J2000 = J2000(state: PosVel) {
    static function New(pos: Vec3, vel: Vec3): (r: J2000)
      ensures r.state == PosVel.New(pos, vel)
    {
      J2000(PosVel.New(pos, vel))
    }

    static function Default(): (r: J2000)
      ensures r.state.pos == Zero() && r.state.vel == Zero()
    {
      J2000(PosVel.Default())
    }

    /** `From<PosVel> for J2000`. */
    static function FromPosVel(state: PosVel): (r: J2000)
      ensures r.state == state
    {
      J2000(state)
    }

    /** `From<J2000> for PosVel`: unwrapping undoes wrapping. */
    function ToPosVel(): (r: PosVel)
      ensures FromPosVel(r) == this
    {
      state
    }

    /** The six-number view of the wrapped state. */
    static function FromArray(a: PosVelState.Array6): (r: J2000)
      ensures r.state == PosVel.FromArray(a) && r.state.ToArray() == a
    {
      ArrayRoundTrip(a);
      J2000(PosVel.FromArray(a))
    }

    function ToArray(): (a: PosVelState.Array6)
      ensures FromArray(a) == this
    {
      state.ToArray()
    }

    /**
      `J2000::try_from_lvlh`: `NormalizeZero` when the reference position or
      its angular momentum has norm zero (checked in that order), then
      `InverseSingular` when the basis is singular, and otherwise the J2000
      state that `lvlh` describes.
    */
    static function TryFromLvlh(lvlh: LVLH, refState: J2000, norm: Vec3 -> real): (r: Result<J2000, MatrixError>)
      ensures !Guarded(refState, norm) ==> r == Failure(NormalizeZero)
      ensures Guarded(refState, norm) ==> (r.Failure? <==> Det(Basis(refState, norm)) == 0.0)
      ensures Guarded(refState, norm) && r.Failure? ==> r.error == InverseSingular
      ensures r.Success? ==> Guarded(refState, norm) && Relates(lvlh, r.value, refState, norm)
    {
      var rouNorm :- Vector3.NormNotZero(refState.state.pos, norm);
      var rouHat := Div(refState.state.pos, rouNorm);
      var h := Cross(refState.state.pos, refState.state.vel);
      var hHat :- Vector3.Normalize(h, norm);
      var a := Vector3.FrameBasis(rouHat, hHat);
      assert a == Basis(refState, norm);
      var invA :- TryInverse(a).OkOr(InverseSingular);
      var lvlhPosJ2000 := MatVec(invA, lvlh.state.pos);
      var w := Vector3.AngularVelocity(h, rouNorm);
      var velJ2000 := Add(refState.state.vel,
                          MatVec(invA, Add(lvlh.state.vel, MatVec(MatMul(a, Vector3.OmegaMatrix(w)), lvlhPosJ2000))));
      Vector3.FromLvlhFormula(a, invA, w, refState.state.pos, refState.state.vel, lvlh.state.pos, lvlh.state.vel);
      Success(J2000.New(Add(refState.state.pos, lvlhPosJ2000), velJ2000))
    }

    /** `J2000::try_from_vvlh`: relabel the axes, then convert from LVLH. */
    static function TryFromVvlh(vvlh: VVLH, refState: J2000, norm: Vec3 -> real): (r: Result<J2000, MatrixError>)
      ensures !Guarded(refState, norm) ==> r == Failure(NormalizeZero)
      ensures Guarded(refState, norm) ==> (r.Failure? <==> Det(Basis(refState, norm)) == 0.0)
      ensures Guarded(refState, norm) && r.Failure? ==> r.error == InverseSingular
      ensures r.Success? ==> Guarded(refState, norm) && Relates(LVLH.FromVvlh(vvlh), r.value, refState, norm)
    {
      J2000.TryFromLvlh(LVLH.FromVvlh(vvlh), refState, norm)
    }
  }

  /** A state relative to a reference, in the reference's LVLH axes. */
  datatype LVLH = LVLH(state: PosVel) {
    static function New(pos: Vec3, vel: Vec3): (r: LVLH)
      ensures r.state == PosVel.New(pos, vel)
    {
      LVLH(PosVel.New(pos, vel))
    }

    static function Default(): (r: LVLH)
      ensures r.state.pos == Zero() && r.state.vel == Zero()
    {
      LVLH(PosVel.Default())
    }

    /** `From<PosVel> for LVLH`. */
    static function FromPosVel(state: PosVel): (r: LVLH)
      ensures r.state == state
    {
      LVLH(state)
    }

    /** `From<LVLH> for PosVel`: unwrapping undoes wrapping. */
    function ToPosVel(): (r: PosVel)
      ensures FromPosVel(r) == this
    {
      state
    }

    /** The six-number view of the wrapped state. */
    static function FromArray(a: PosVelState.Array6): (r: LVLH)
      ensures r.state == PosVel.FromArray(a) && r.state.ToArray() == a
    {
      ArrayRoundTrip(a);
      LVLH(PosVel.FromArray(a))
    }

    function ToArray(): (a: PosVelState.Array6)
      ensures FromArray(a) == this
    {
      state.ToArray()
    }

    /**
      `LVLH::try_from_j2000`: `NormalizeZero` when a guard fails, and
      otherwise (it inverts nothing, so it cannot fail further) the
      relative position and the relative velocity, less the transport term,
      in the reference's basis.
    */
    static function TryFromJ2000(j2000: J2000, refState: J2000, norm: Vec3 -> real): (r: Result<LVLH, MatrixError>)
      ensures !Guarded(refState, norm) ==> r == Failure(NormalizeZero)
      ensures Guarded(refState, norm) ==> r.Success? && Relates(r.value, j2000, refState, norm)
    {
      var rouNorm :- Vector3.NormNotZero(refState.state.pos, norm);
      var rouHat := Div(refState.state.pos, rouNorm);
      var h := Cross(refState.state.pos, refState.state.vel);
      var hHat :- Vector3.Normalize(h, norm);
      var a := Vector3.FrameBasis(rouHat, hHat);
      assert a == Basis(refState, norm);
      var w := Vector3.AngularVelocity(h, rouNorm);
      var rouRel := Sub(j2000.state.pos, refState.state.pos);
      var lvlhVel := MatVec(a, Sub(Sub(j2000.state.vel, refState.state.vel), MatVec(Vector3.OmegaMatrix(w), rouRel)));
      Vector3.OmegaMatrixIsCross(w, rouRel);
      Success(LVLH.New(MatVec(a, rouRel), lvlhVel))
    }

    /** `From<VVLH> for LVLH`: relabel the axes of both vectors. */
    static function FromVvlh(vvlh: VVLH): (r: LVLH)
      ensures r.state.pos == Vector3.LvlhFromVvlh(vvlh.state.pos) && r.state.vel == Vector3.LvlhFromVvlh(vvlh.state.vel)
    {
      LVLH.New(Vector3.LvlhFromVvlh(vvlh.state.pos), Vector3.LvlhFromVvlh(vvlh.state.vel))
    }
  }

  /** A state relative to a reference, in the reference's VVLH axes. */
  datatype VVLH = VVLH(state: PosVel) {
    static function New(pos: Vec3, vel: Vec3): (r: VVLH)
      ensures r.state == PosVel.New(pos, vel)
    {
      VVLH(PosVel.New(pos, vel))
    }

    static function Default(): (r: VVLH)
      ensures r.state.pos == Zero() && r.state.vel == Zero()
    {
      VVLH(PosVel.Default())
    }

    /** `From<PosVel> for VVLH`. */
    static function FromPosVel(state: PosVel): (r: VVLH)
      ensures r.state == state
    {
      VVLH(state)
    }

    /** `From<VVLH> for PosVel`: unwrapping undoes wrapping. */
    function ToPosVel(): (r: PosVel)
      ensures FromPosVel(r) == this
    {
      state
    }

    /** The six-number view of the wrapped state. */
    static function FromArray(a: PosVelState.Array6): (r: VVLH)
      ensures r.state == PosVel.FromArray(a) && r.state.ToArray() == a
    {
      ArrayRoundTrip(a);
      VVLH(PosVel.FromArray(a))
    }

    function ToArray(): (a: PosVelState.Array6)
      ensures FromArray(a) == this
    {
      state.ToArray()
    }

    /** `VVLH::try_from_j2000`: convert to LVLH, then relabel the axes. */
    static function TryFromJ2000(j2000: J2000, refState: J2000, norm: Vec3 -> real): (r: Result<VVLH, MatrixError>)
      ensures !Guarded(refState, norm) ==> r == Failure(NormalizeZero)
      ensures Guarded(refState, norm) ==> r.Success? && Relates(LVLH.FromVvlh(r.value), j2000, refState, norm)
    {
      var lvlh :- LVLH.TryFromJ2000(j2000, refState, norm);
      AxisConversionsInverse(lvlh, VVLH.FromLvlh(lvlh));
      Success(VVLH.FromLvlh(lvlh))
    }

    /** `From<LVLH> for VVLH`: relabel the axes of both vectors. */
    static function FromLvlh(lvlh: LVLH): (r: VVLH)
      ensures r.state.pos == Vector3.VvlhFromLvlh(lvlh.state.pos) && r.state.vel == Vector3.VvlhFromLvlh(lvlh.state.vel)
    {
      VVLH.New(Vector3.VvlhFromLvlh(lvlh.state.pos), Vector3.VvlhFromLvlh(lvlh.state.vel))
    }
  }

  /** The two `From` conversions between LVLH and VVLH undo each other. */
  lemma AxisConversionsInverse(lvlh: LVLH, vvlh: VVLH)
    ensures LVLH.FromVvlh(VVLH.FromLvlh(lvlh)) == lvlh
    ensures VVLH.FromLvlh(LVLH.FromVvlh(vvlh)) == vvlh
  {
    Vector3.AxisMapsInverse(lvlh.state.pos);
    Vector3.AxisMapsInverse(lvlh.state.vel);
    Vector3.AxisMapsInverse(vvlh.state.pos);
    Vector3.AxisMapsInverse(vvlh.state.vel);
  }

  /** Reading an LVLH state in J2000 and back gives the same LVLH state. */
  lemma LvlhRoundTrip(lvlh: LVLH, refState: J2000, norm: Vec3 -> real)
    requires J2000.TryFromLvlh(lvlh, refState, norm).Success?
    ensures LVLH.TryFromJ2000(J2000.TryFromLvlh(lvlh, refState, norm).value, refState, norm) == Success(lvlh)
  {
    var j := J2000.TryFromLvlh(lvlh, refState, norm).value;
    var back := LVLH.TryFromJ2000(j, refState, norm).value;
    assert Relates(back, j, refState, norm);
  }

  /**
    Reading a J2000 state in LVLH and back gives the same J2000 state,
    whenever the reference basis is invertible.
  */
  lemma J2000RoundTrip(j2000: J2000, refState: J2000, norm: Vec3 -> real)
    requires Guarded(refState, norm) && Det(Basis(refState, norm)) != 0.0
    ensures J2000.TryFromLvlh(LVLH.TryFromJ2000(j2000, refState, norm).value, refState, norm) == Success(j2000)
  {
    var l := LVLH.TryFromJ2000(j2000, refState, norm).value;
    var back := J2000.TryFromLvlh(l, refState, norm).value;
    Vector3.FrameRelationInjective(l.state.pos, l.state.vel, back.state.pos, back.state.vel,
                                   j2000.state.pos, j2000.state.vel, refState.state.pos, refState.state.vel, norm);
  }

  /** The same round trip through VVLH axes. */
  lemma VvlhRoundTrip(vvlh: VVLH, refState: J2000, norm: Vec3 -> real)
    requires J2000.TryFromVvlh(vvlh, refState, norm).Success?
    ensures VVLH.TryFromJ2000(J2000.TryFromVvlh(vvlh, refState, norm).value, refState, norm) == Success(vvlh)
  {
    var l := LVLH.FromVvlh(vvlh);
    AxisConversionsInverse(l, vvlh);
    LvlhRoundTrip(l, refState, norm);
  }

  /** The reference state is the origin of its own LVLH frame, in both directions. */
  lemma ReferenceIsOrigin(refState: J2000, norm: Vec3 -> real)
    requires Guarded(refState, norm)
    ensures LVLH.TryFromJ2000(refState, refState, norm) == Success(LVLH.Default())
    ensures Det(Basis(refState, norm)) != 0.0 ==> J2000.TryFromLvlh(LVLH.Default(), refState, norm) == Success(refState)
  {
    var rp, rv := refState.state.pos, refState.state.vel;
    Vector3.FrameRelationAtReference(rp, rv, norm);
    if Det(Basis(refState, norm)) != 0.0 {
      var j := J2000.TryFromLvlh(LVLH.Default(), refState, norm).value;
      Vector3.FrameRelationInjective(Zero(), Zero(), j.state.pos, j.state.vel, rp, rv, rp, rv, norm);
    }
  }

  /** Under a Euclidean norm the guards hold exactly when the reference position and its angular momentum are non-zero. */
  lemma EuclideanGuards(refState: J2000, norm: Vec3 -> real)
    requires IsEuclideanNorm(norm)
    ensures Guarded(refState, norm) <==> refState.state.pos != Zero() && Cross(refState.state.pos, refState.state.vel) != Zero()
  {
    Vector3.NormalizeEuclidean(refState.state.pos, norm);
    Vector3.NormalizeEuclidean(Cross(refState.state.pos, refState.state.vel), norm);
  }

  /** Under a Euclidean norm the basis of a guarded reference is a rotation, with determinant one. */
  lemma EuclideanBasisDet(refState: J2000, norm: Vec3 -> real)
    requires IsEuclideanNorm(norm) && Guarded(refState, norm)
    ensures Det(Basis(refState, norm)) == 1.0
  {
    Vector3.ReferenceBasisDet(refState.state.pos, refState.state.vel, norm);
  }

  /**
    When the basis of every guarded reference is invertible, the only
    failure left is `NormalizeZero`, and it occurs exactly when a guard fails.
  */
  lemma FailsOnlyUnguarded(lvlh: LVLH, j2000: J2000, refState: J2000, norm: Vec3 -> real)
    requires Guarded(refState, norm) ==> Det(Basis(refState, norm)) != 0.0
    ensures J2000.TryFromLvlh(lvlh, refState, norm).Failure? <==> !Guarded(refState, norm)
    ensures J2000.TryFromLvlh(lvlh, refState, norm).Failure? ==> J2000.TryFromLvlh(lvlh, refState, norm).error == NormalizeZero
    ensures LVLH.TryFromJ2000(j2000, refState, norm).Failure? <==> !Guarded(refState, norm)
  {
  }

  /**
    Under a Euclidean norm `InverseSingular` never occurs: both conversions
    fail, with `NormalizeZero`, exactly when the reference position or its
    angular momentum is zero.
  */
  lemma EuclideanFailures(lvlh: LVLH, j2000: J2000, refState: J2000, norm: Vec3 -> real)
    requires IsEuclideanNorm(norm)
    ensures J2000.TryFromLvlh(lvlh, refState, norm).Failure?
            <==> refState.state.pos == Zero() || Cross(refState.state.pos, refState.state.vel) == Zero()
    ensures J2000.TryFromLvlh(lvlh, refState, norm).Failure? ==> J2000.TryFromLvlh(lvlh, refState, norm).error == NormalizeZero
    ensures LVLH.TryFromJ2000(j2000, refState, norm).Failure?
            <==> refState.state.pos == Zero() || Cross(refState.state.pos, refState.state.vel) == Zero()
  {
    EuclideanGuards(refState, norm);
    if Guarded(refState, norm) {
      EuclideanBasisDet(refState, norm);
    }
    FailsOnlyUnguarded(lvlh, j2000, refState, norm);
  }
}
