/**
  The older revision of the satellite state (the one the crate compiles):
  a position in metres and a velocity in metres per second, and three
  frame-tagged wrappers around it.
*/
module PosVelState {
  import opened Linalg

  /** A `[T; 6]`: position components, then velocity components. */
  type Array6 = s: seq<real> | |s| == 6 witness [0.0, 0.0, 0.0, 0.0, 0.0, 0.0]

  datatype PosVelState = PosVelState(pos: Vec3, vel: Vec3) {
    static function New(pos: Vec3, vel: Vec3): (r: PosVelState)
      ensures r.pos == pos && r.vel == vel
    {
      PosVelState(pos, vel)
    }

    /** Both vectors are nalgebra's default, the zero vector. */
    static function Default(): (r: PosVelState)
      ensures r.pos == Zero() && r.vel == Zero()
    {
      PosVelState(Zero(), Zero())
    }

    /** The field-by-field view of a state as six numbers. */
    static function FromArray(a: Array6): (r: PosVelState)
      ensures r.pos == Vec3(a[0], a[1], a[2]) && r.vel == Vec3(a[3], a[4], a[5])
    {
      PosVelState(Vec3(a[0], a[1], a[2]), Vec3(a[3], a[4], a[5]))
    }

    function ToArray(): (a: Array6)
      ensures FromArray(a) == this
    {
      [pos.x, pos.y, pos.z, vel.x, vel.y, vel.z]
    }
  }

  /** Reading six numbers into a state and back gives the same six numbers. */
  lemma ArrayRoundTrip(a: Array6)
    ensures PosVelState.FromArray(a).ToArray() == a
  {
    var b := PosVelState.FromArray(a).ToArray();
    assert forall i | 0 <= i < 6 :: b[i] == a[i];
  }

  /** The six numbers 1 to 6 are the state with position (1, 2, 3) and velocity (4, 5, 6), and back. */
  lemma ArrayExample()
    ensures PosVelState.FromArray([1.0, 2.0, 3.0, 4.0, 5.0, 6.0]) == PosVelState.New(Vec3(1.0, 2.0, 3.0), Vec3(4.0, 5.0, 6.0))
    ensures PosVelState.New(Vec3(1.0, 2.0, 3.0), Vec3(4.0, 5.0, 6.0)).ToArray() == [1.0, 2.0, 3.0, 4.0, 5.0, 6.0]
  {
  }

  /** A state in the inertial J2000 frame. */
  datatype J2000 = J2000(state: PosVelState) {
    static function New(pos: Vec3, vel: Vec3): (r: J2000)
      ensures r.state == PosVelState.New(pos, vel)
    {
      J2000(PosVelState.New(pos, vel))
    }

    static function Default(): (r: J2000)
      ensures r.state.pos == Zero() && r.state.vel == Zero()
    {
      J2000(PosVelState.Default())
    }

    static function FromState(state: PosVelState): (r: J2000)
      ensures r.state == state
    {
      J2000(state)
    }

    static function FromArray(a: Array6): (r: J2000)
      ensures r.state.ToArray() == a
    {
      ArrayRoundTrip(a);
      J2000(PosVelState.FromArray(a))
    }
  }

  /** A state relative to a reference, in the reference's LVLH axes. */
  datatype LVLH = LVLH(state: PosVelState) {
    static function New(pos: Vec3, vel: Vec3): (r: LVLH)
      ensures r.state == PosVelState.New(pos, vel)
    {
      LVLH(PosVelState.New(pos, vel))
    }

    static function Default(): (r: LVLH)
      ensures r.state.pos == Zero() && r.state.vel == Zero()
    {
      LVLH(PosVelState.Default())
    }

    static function FromState(state: PosVelState): (r: LVLH)
      ensures r.state == state
    {
      LVLH(state)
    }

    static function FromArray(a: Array6): (r: LVLH)
      ensures r.state.ToArray() == a
    {
      ArrayRoundTrip(a);
      LVLH(PosVelState.FromArray(a))
    }
  }

  /** A state relative to a reference, in the reference's VVLH axes. */
  datatype VVLH = VVLH(state: PosVelState) {
    static function New(pos: Vec3, vel: Vec3): (r: VVLH)
      ensures r.state == PosVelState.New(pos, vel)
    {
      VVLH(PosVelState.New(pos, vel))
    }

    static function Default(): (r: VVLH)
      ensures r.state.pos == Zero() && r.state.vel == Zero()
    {
      VVLH(PosVelState.Default())
    }

    static function FromState(state: PosVelState): (r: VVLH)
      ensures r.state == state
    {
      VVLH(state)
    }

    static function FromArray(a: Array6): (r: VVLH)
      ensures r.state.ToArray() == a
    {
      ArrayRoundTrip(a);
      VVLH(PosVelState.FromArray(a))
    }
  }
}

/**
  The older revision's conversions between the J2000, LVLH and VVLH
  states. The two J2000-from-relative conversions fail only when the
  reference basis is singular; the two relative-from-J2000 conversions are
  built on `lvlh_vel_from_j2000_impl` and, like it, lose the relative
  position.
*/
module PosVelStateFrames {
  import opened Wrappers
  import opened Linalg
  import opened Errors
  import opened PosVelState
  import Vector3

  /** `J2000::try_from_lvlh` of the older revision. */
  function J2000TryFromLvlh(lvlh: LVLH, refState: J2000, norm: Vec3 -> real): (r: Result<J2000, InverseOfSingularMatrix>)
    requires norm(refState.state.pos) != 0.0 && norm(Cross(refState.state.pos, refState.state.vel)) != 0.0
    ensures r.Failure? <==> Det(Vector3.ReferenceBasis(refState.state.pos, refState.state.vel, norm)) == 0.0
    ensures r.Success? ==>
      Vector3.FrameRelation(lvlh.state.pos, lvlh.state.vel, r.value.state.pos, r.value.state.vel,
                            refState.state.pos, refState.state.vel, norm)
  {
    var rouRef, vRef := refState.state.pos, refState.state.vel;
    var pos, vel := lvlh.state.pos, lvlh.state.vel;
    var rouNorm := norm(rouRef);
    var rouHat := Div(rouRef, rouNorm);
    var h := Cross(rouRef, vRef);
    var hHat := Vector3.Unit(h, norm);
    var a := Vector3.FrameBasis(rouHat, hHat);
    var inv :- TryInverse(a).OkOr(InverseOfSingularMatrix);
    var lvlhPosJ2000 := MatVec(inv, pos);
    var rouJ2000 := Add(rouRef, lvlhPosJ2000);
    var w := Vector3.AngularVelocity(h, rouNorm);
    var vJ2000 := Add(vRef, MatVec(inv, Add(vel, MatVec(MatMul(a, Vector3.OmegaMatrix(w)), lvlhPosJ2000))));
    Vector3.FromLvlhFormula(a, inv, w, rouRef, vRef, pos, vel);
    Success(J2000.New(rouJ2000, vJ2000))
  }

  /** `J2000::try_from_vvlh` of the older revision: relabel the axes, then convert from LVLH. */
  function J2000TryFromVvlh(vvlh: VVLH, refState: J2000, norm: Vec3 -> real): (r: Result<J2000, InverseOfSingularMatrix>)
    requires norm(refState.state.pos) != 0.0 && norm(Cross(refState.state.pos, refState.state.vel)) != 0.0
    ensures r.Failure? <==> Det(Vector3.ReferenceBasis(refState.state.pos, refState.state.vel, norm)) == 0.0
    ensures r.Success? ==>
      Vector3.FrameRelation(Vector3.LvlhFromVvlh(vvlh.state.pos), Vector3.LvlhFromVvlh(vvlh.state.vel),
                            r.value.state.pos, r.value.state.vel, refState.state.pos, refState.state.vel, norm)
  {
    J2000TryFromLvlh(LvlhFromVvlh(vvlh), refState, norm)
  }

  /**
    `LVLH::from_j2000` of the older revision: the basis times the relative
    position `lvlh_vel_from_j2000_impl` reports, which is always zero, and
    its velocity, the basis times the velocity difference.
  */
  function LvlhFromJ2000(j2000: J2000, refState: J2000, norm: Vec3 -> real): (r: LVLH)
    requires norm(refState.state.pos) != 0.0 && norm(Cross(refState.state.pos, refState.state.vel)) != 0.0
    ensures r.state.pos == Zero()
    ensures r.state.vel == MatVec(Vector3.ReferenceBasis(refState.state.pos, refState.state.vel, norm),
                                  Sub(j2000.state.vel, refState.state.vel))
  {
    var vals := Vector3.LvlhVelFromJ2000Impl(j2000.state.vel, refState, norm);
    MatVecZero(vals.a);
    LVLH.New(MatVec(vals.a, vals.rouRel), vals.lvlhVel)
  }

  /** `VVLH::from_j2000` of the older revision: convert to LVLH, then relabel the axes. */
  function VvlhFromJ2000(j2000: J2000, refState: J2000, norm: Vec3 -> real): (r: VVLH)
    requires norm(refState.state.pos) != 0.0 && norm(Cross(refState.state.pos, refState.state.vel)) != 0.0
    ensures r.state.pos == Zero()
    ensures r.state.vel == Vector3.VvlhFromLvlh(MatVec(Vector3.ReferenceBasis(refState.state.pos, refState.state.vel, norm),
                                                       Sub(j2000.state.vel, refState.state.vel)))
  {
    VvlhFromLvlh(LvlhFromJ2000(j2000, refState, norm))
  }

  /** `From<LVLH> for VVLH`: relabel the axes of both vectors. */
  function VvlhFromLvlh(lvlh: LVLH): (r: VVLH)
    ensures r.state.pos == Vector3.VvlhFromLvlh(lvlh.state.pos) && r.state.vel == Vector3.VvlhFromLvlh(lvlh.state.vel)
  {
    VVLH.New(Vector3.VvlhFromLvlh(lvlh.state.pos), Vector3.VvlhFromLvlh(lvlh.state.vel))
  }

  /** `From<VVLH> for LVLH`: relabel the axes of both vectors. */
  function LvlhFromVvlh(vvlh: VVLH): (r: LVLH)
    ensures r.state.pos == Vector3.LvlhFromVvlh(vvlh.state.pos) && r.state.vel == Vector3.LvlhFromVvlh(vvlh.state.vel)
  {
    LVLH.New(Vector3.LvlhFromVvlh(vvlh.state.pos), Vector3.LvlhFromVvlh(vvlh.state.vel))
  }

  /** The two `From` conversions between LVLH and VVLH states undo each other. */
  lemma StateAxisMapsInverse(lvlh: LVLH, vvlh: VVLH)
    ensures LvlhFromVvlh(VvlhFromLvlh(lvlh)) == lvlh
    ensures VvlhFromLvlh(LvlhFromVvlh(vvlh)) == vvlh
  {
    Vector3.AxisMapsInverse(lvlh.state.pos);
    Vector3.AxisMapsInverse(lvlh.state.vel);
    Vector3.AxisMapsInverse(vvlh.state.pos);
    Vector3.AxisMapsInverse(vvlh.state.vel);
  }

  /** The zero LVLH state converts to the reference state itself. */
  lemma J2000FromZeroLvlh(refState: J2000, norm: Vec3 -> real)
    requires norm(refState.state.pos) != 0.0 && norm(Cross(refState.state.pos, refState.state.vel)) != 0.0
    requires Det(Vector3.ReferenceBasis(refState.state.pos, refState.state.vel, norm)) != 0.0
    ensures J2000TryFromLvlh(LVLH.Default(), refState, norm) == Success(refState)
  {
    var rp, rv := refState.state.pos, refState.state.vel;
    var j := J2000TryFromLvlh(LVLH.Default(), refState, norm).value;
    Vector3.FrameRelationAtReference(rp, rv, norm);
    Vector3.FrameRelationInjective(Zero(), Zero(), j.state.pos, j.state.vel, rp, rv, rp, rv, norm);
  }

  /**
    The older `LVLH::from_j2000` agrees with the LVLH relation exactly at the
    J2000 states that sit at the reference position: everywhere else its
    zero position is wrong.
  */
  lemma LvlhFromJ2000RelationIff(j2000: J2000, refState: J2000, norm: Vec3 -> real)
    requires norm(refState.state.pos) != 0.0 && norm(Cross(refState.state.pos, refState.state.vel)) != 0.0
    requires Det(Vector3.ReferenceBasis(refState.state.pos, refState.state.vel, norm)) != 0.0
    ensures var l := LvlhFromJ2000(j2000, refState, norm);
            Vector3.FrameRelation(l.state.pos, l.state.vel, j2000.state.pos, j2000.state.vel,
                                  refState.state.pos, refState.state.vel, norm)
            <==> j2000.state.pos == refState.state.pos
  {
    var rp, rv := refState.state.pos, refState.state.vel;
    var a, w := Vector3.ReferenceBasis(rp, rv, norm), Vector3.ReferenceOmega(rp, rv, norm);
    var d := Sub(j2000.state.pos, rp);
    MatVecZero(a);
    CrossZero(w);
    assert Sub(rp, rp) == Zero();
    assert Sub(Sub(j2000.state.vel, rv), Zero()) == Sub(j2000.state.vel, rv);
    if MatVec(a, d) == Zero() {
      MatVecInjective(a, TryInverse(a).value, d, Zero());
      SubInjective(j2000.state.pos, rp, rp);
    }
  }

  /**
    The older round trip LVLH to J2000 to LVLH loses the position: it comes
    back zero, and the lost transport term is added to the velocity. So the
    round trip fails for every LVLH state with a non-zero position.
  */
  lemma LvlhRoundTripLosesPosition(lvlh: LVLH, refState: J2000, norm: Vec3 -> real)
    requires norm(refState.state.pos) != 0.0 && norm(Cross(refState.state.pos, refState.state.vel)) != 0.0
    requires Det(Vector3.ReferenceBasis(refState.state.pos, refState.state.vel, norm)) != 0.0
    ensures var a := Vector3.ReferenceBasis(refState.state.pos, refState.state.vel, norm);
            var w := Vector3.ReferenceOmega(refState.state.pos, refState.state.vel, norm);
            var back := LvlhFromJ2000(J2000TryFromLvlh(lvlh, refState, norm).value, refState, norm);
            back.state.pos == Zero()
            && back.state.vel == Add(lvlh.state.vel, MatVec(a, Cross(w, MatVec(TryInverse(a).value, lvlh.state.pos))))
    ensures lvlh.state.pos != Zero() ==> LvlhFromJ2000(J2000TryFromLvlh(lvlh, refState, norm).value, refState, norm) != lvlh
  {
    var rp, rv := refState.state.pos, refState.state.vel;
    var a, w := Vector3.ReferenceBasis(rp, rv, norm), Vector3.ReferenceOmega(rp, rv, norm);
    var inv := TryInverse(a).value;
    var j := J2000TryFromLvlh(lvlh, refState, norm).value;
    var d := Sub(j.state.pos, rp);
    InverseCancels(a, inv, d);
    MatVecSub(a, Sub(j.state.vel, rv), Cross(w, d));
  }
}
