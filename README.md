# Earth satellite state: frame conversions

This project models the core of the `earth_satellite_state` crate:
- a satellite state, which is a position in metres and a velocity in metres per second;
- three frame-tagged wrappers around that state;
- the conversions between them.

The three frames are:
- **J2000**, the inertial frame;
- **LVLH**, local vertical local horizontal, attached to a reference state: x points radially, z along the reference's orbital angular momentum `h = rou x v`;
- **VVLH**, the same local frame with its axes relabelled.

The crate holds two revisions of the state type, and both are modelled.

The older revision (`src/pos_vel_state.rs`, `PosVelState`) is the one the crate compiles:
- Its conversions divide by norms without checking them.
- Their only failure is a singular basis matrix (`InverseOfSingularMatrix`).
- They lean on the helpers in `src/vector3.rs`.

The newer revision (`src/pos_vel.rs`, `PosVel`) checks both norms it divides by and reports a `MatrixError`: `NormalizeZero` for a zero norm, `InverseSingular` for a singular basis.

The model is pure, with values, functions and lemmas. Vectors are `Vec3` values over `real`, and matrices are `Mat3` values stored by rows (module `Linalg`).

The modules do not follow the source files one to one. In Rust, `src/vector3.rs` and `src/pos_vel_state.rs` use each other, and Dafny modules cannot import each other in a cycle. So `src/pos_vel_state.rs` is split: its types are module `PosVelState`, which `Vector3` imports, and its conversions are module `PosVelStateFrames`, which imports both. The basis, angular velocity and LVLH relation that `src/pos_vel.rs` computes inline are defined once, in `Vector3`, and shared by both revisions.

Each conversion is given a specification and proved against it. The specification is a single relation, `Vector3.FrameRelation`, between an LVLH state and the J2000 state it describes:
- the LVLH position is `A (rou - rou_ref)`;
- the LVLH velocity is `A ((v - v_ref) - omega x (rou - rou_ref))`.

Here:
- `A` is the basis matrix, whose rows are the unit radial vector, `h_hat x rou_hat` and `h_hat`;
- `omega` is `h / |rou_ref|^2`.

Both revisions' J2000-from-LVLH conversions satisfy the relation. So does the newer LVLH-from-J2000 conversion. The round trips follow from the relation, because `A` is injective whenever it can be inverted. The older LVLH-from-J2000 conversion does not satisfy the relation (see Findings).

The norm is a parameter `norm: Vec3 -> real`, because nalgebra's `norm` is a foreign call. Lemmas that need a true Euclidean norm require `Linalg.IsEuclideanNorm(norm)`. Matrix inversion is modelled concretely, as the adjugate divided by the determinant, and it is proved to fail exactly when the determinant is zero.

## Model

| member | source | states |
|---|---|---|
| Linalg.TryInverse | src/pos_vel.rs:106 | `try_inverse` returns nothing exactly when the determinant is zero; otherwise it returns a two-sided inverse |
| Vector3.ToArray | src/vector3.rs:4-7 | the array holds the x, y and z components, in that order |
| Vector3.FromArray | src/vector3.rs:4-7 | building a vector from three numbers and reading it back gives the same three numbers |
| Vector3.ToArrayRoundTrip | src/vector3.rs:4-7 | `to_array` loses nothing: the vector is recovered from its components |
| Vector3.LvlhFromVvlh | src/vector3.rs:9-12 | `lvlh_from_vvlh` maps the VVLH components (x, y, z) to the LVLH components (-z, x, -y) |
| Vector3.VvlhFromLvlh | src/vector3.rs:14-17 | `vvlh_from_lvlh` maps the LVLH components (x, y, z) to the VVLH components (y, -z, -x) |
| Vector3.AxisMapsInverse | src/vector3.rs:9-17 | the two axis relabellings undo each other, in both orders |
| Vector3.AxisMapsExample | src/test.rs:32-38 | the VVLH vector (1, 2, 3) is the LVLH vector (-3, 1, -2), and it maps back to (1, 2, 3) |
| Vector3.LvlhFromVvlhIsRotation | src/vector3.rs:9-12 | the relabelling keeps dot products and maps cross products to cross products, so it is a proper rotation between right-handed frames |
| Vector3.Unit | src/vector3.rs:24-25 | `normalize` gives a vector which, scaled by the norm, is the original vector |
| Vector3.UnitLength | src/vector3.rs:24-25 | under a Euclidean norm, a normalised vector has unit length |
| Vector3.NormNotZero | src/pos_vel.rs:101 | `norm_not_zero` succeeds iff the norm is non-zero, returns that norm, and otherwise fails with `NormalizeZero` |
| Vector3.Normalize | src/pos_vel.rs:104 | `normalize` succeeds iff the norm is non-zero, returns the unit vector, and otherwise fails with `NormalizeZero` |
| Vector3.NormalizeEuclidean | src/pos_vel.rs:101-104 | under a Euclidean norm, both guards fail exactly on the zero vector |
| Vector3.FrameBasis | src/vector3.rs:26-27 | transposing the matrix with columns rou_hat, h_hat x rou_hat, h_hat gives the matrix with those vectors as rows |
| Vector3.AngularVelocity | src/pos_vel.rs:108 | the angular velocity `h / (rou_norm * rou_norm)`, scaled back by `rou_norm * rou_norm`, is `h` |
| Vector3.OmegaMatrix | src/pos_vel.rs:110 | `omega_w` is the matrix with rows (0, -z, y), (z, 0, -x) and (-y, x, 0) in the angular velocity's components |
| Vector3.OmegaMatrixIsCross | src/pos_vel_state.rs:94-96 | the matrix laid out from the angular velocity's components is the cross-product matrix: applied to u, it gives omega x u |
| Vector3.ReferenceBasis | src/pos_vel.rs:101-105 | the basis of a reference: its first row, scaled by the norm of the position, is the position; its last row, scaled by the norm of `h`, is `h = rou x v`; its middle row is the last row cross the first |
| Vector3.ReferenceOmega | src/pos_vel.rs:103-108 | the reference's angular velocity, scaled by the squared norm of the position, is `h = rou x v` |
| Vector3.ReferenceBasisDet | src/pos_vel.rs:102-105 | under a Euclidean norm, the basis of a reference with non-zero position and angular momentum has determinant 1, so it is never singular |
| Vector3.FromLvlhFormula | src/pos_vel_state.rs:91-98 | the J2000-from-LVLH formula `rou_ref + A^-1 p`, `v_ref + A^-1 (v + (A omega_w) A^-1 p)` produces a state that satisfies the LVLH relation with (p, v) |
| Vector3.FrameRelationInjective | src/pos_vel.rs:100-113 | when the basis is invertible, the LVLH relation fixes the J2000 state uniquely |
| Vector3.FrameRelationAtReference | src/pos_vel.rs:121-133 | the reference state is related to the zero LVLH state |
| Vector3.TryJ2000VelFromLvlh | src/vector3.rs:19-29 | fails iff the basis is singular; on success the basis maps the result back to the given LVLH velocity |
| Vector3.TryJ2000VelFromVvlh | src/vector3.rs:31-36 | fails iff the basis is singular; on success the result, in LVLH and then relabelled to VVLH, is the given velocity |
| Vector3.LvlhVelFromJ2000Impl | src/vector3.rs:51-73 | the relative position it reports is always zero (it is the reference position minus itself); `a` is the reference basis; the velocity is `a (v - v_ref)`, with no angular-velocity term left |
| Vector3.ImplLvlhVel | src/vector3.rs:67 | the formula `a (v - v_ref - (-a) omega_w rou_rel)` equals `a ((v - v_ref) + (a omega_w) rou_rel)`: the transport term is added and multiplied by `a` once more |
| Vector3.ImplLvlhVelIdentity | src/vector3.rs:67 | with the identity basis, the formula gives `v - v_ref + omega x rou_rel` |
| Vector3.ImplTransportDoubles | src/vector3.rs:67 | with the identity basis, every relative state at rest in LVLH axes (relative velocity `v = omega x rou_rel`) gets velocity `2 v` from the formula instead of zero |
| Vector3.ImplTransportTermExample | src/vector3.rs:67 | the instance `omega = (0, 0, 1)`, relative position (1, 0, 0) and relative velocity (0, 1, 0), which the reference at (1, 0, 0) moving at (0, 1, 0) yields with basis `I`: the state is at rest in LVLH axes, yet the formula gives it velocity (0, 2, 0) |
| Vector3.LvlhVelFromJ2000 | src/vector3.rs:38-43 | the LVLH velocity is the basis applied to the velocity relative to the reference |
| Vector3.VelocityHelpersRoundTrip | src/vector3.rs:19-43 | `try_j2000_vel_from_lvlh` undoes `lvlh_vel_from_j2000` only up to the reference velocity, which it does not add back |
| PosVelState.PosVelState.New | src/pos_vel_state.rs:23-27 | the state holds the given position and velocity |
| PosVelState.PosVelState.Default | src/pos_vel_state.rs:14-21 | the default state has zero position and zero velocity |
| PosVelState.PosVelState.FromArray | src/pos_vel_state.rs:29 | numbers 0 to 2 are the position and numbers 3 to 5 the velocity |
| PosVelState.PosVelState.ToArray | src/pos_vel_state.rs:29 | reading the six numbers back into a state gives the same state |
| PosVelState.ArrayRoundTrip | src/pos_vel_state.rs:29 | six numbers read into a state and written out again are unchanged |
| PosVelState.ArrayExample | src/test.rs:13-29 | the six numbers 1 to 6 are the state with position (1, 2, 3) and velocity (4, 5, 6), and back |
| PosVelState.J2000.New | src/pos_vel_state.rs:63-67 | wraps the state built from the given position and velocity |
| PosVelState.J2000.Default | src/pos_vel_state.rs:69-73 | the default wrapper holds the zero state |
| PosVelState.J2000.FromState | src/pos_vel_state.rs:37-41 | `From<PosVelState>` wraps the given state unchanged |
| PosVelState.J2000.FromArray | src/pos_vel_state.rs:43-48 | `From<[T; 6]>` wraps the state whose six numbers are the array |
| PosVelState.LVLH.New | src/pos_vel_state.rs:63-67 | wraps the state built from the given position and velocity |
| PosVelState.LVLH.Default | src/pos_vel_state.rs:69-73 | the default wrapper holds the zero state |
| PosVelState.LVLH.FromState | src/pos_vel_state.rs:37-41 | `From<PosVelState>` wraps the given state unchanged |
| PosVelState.LVLH.FromArray | src/pos_vel_state.rs:43-48 | `From<[T; 6]>` wraps the state whose six numbers are the array |
| PosVelState.VVLH.New | src/pos_vel_state.rs:63-67 | wraps the state built from the given position and velocity |
| PosVelState.VVLH.Default | src/pos_vel_state.rs:69-73 | the default wrapper holds the zero state |
| PosVelState.VVLH.FromState | src/pos_vel_state.rs:37-41 | `From<PosVelState>` wraps the given state unchanged |
| PosVelState.VVLH.FromArray | src/pos_vel_state.rs:43-48 | `From<[T; 6]>` wraps the state whose six numbers are the array |
| PosVelStateFrames.J2000TryFromLvlh | src/pos_vel_state.rs:81-99 | fails iff the basis is singular; on success the result is the J2000 state that the LVLH state describes |
| PosVelStateFrames.J2000TryFromVvlh | src/pos_vel_state.rs:101-103 | the same, for the VVLH state's axes relabelled to LVLH |
| PosVelStateFrames.LvlhFromJ2000 | src/pos_vel_state.rs:107-110 | as written, the position is always zero and the velocity is the basis applied to the velocity difference |
| PosVelStateFrames.VvlhFromJ2000 | src/pos_vel_state.rs:114-116 | the LVLH result relabelled to VVLH: zero position, and the relabelled velocity |
| PosVelStateFrames.VvlhFromLvlh | src/pos_vel_state.rs:119-124 | relabels the axes of both vectors from LVLH to VVLH |
| PosVelStateFrames.LvlhFromVvlh | src/pos_vel_state.rs:126-131 | relabels the axes of both vectors from VVLH to LVLH |
| PosVelStateFrames.StateAxisMapsInverse | src/pos_vel_state.rs:119-131 | the two state relabellings undo each other, in both orders |
| PosVelStateFrames.J2000FromZeroLvlh | src/pos_vel_state.rs:81-99 | the zero LVLH state converts to the reference state itself |
| PosVelStateFrames.LvlhFromJ2000RelationIff | src/pos_vel_state.rs:107-110 | the older `LVLH::from_j2000` satisfies the LVLH relation exactly for states at the reference position |
| PosVelStateFrames.LvlhRoundTripLosesPosition | src/vector3.rs:55-67 | LVLH to J2000 and back with the older code returns position zero and adds the lost transport term to the velocity, so it changes every LVLH state with a non-zero position |
| PosVel.PosVel.New | src/pos_vel.rs:28-32 | the state holds the given position and velocity |
| PosVel.PosVel.Default | src/pos_vel.rs:19-26 | the default state has zero position and zero velocity |
| PosVel.PosVel.FromArray | src/pos_vel.rs:38 | `impl_transmute!` to `[T; 6]`: numbers 0 to 2 are the position and numbers 3 to 5 the velocity |
| PosVel.PosVel.ToArray | src/pos_vel.rs:38 | reading the six numbers back into a state gives the same state |
| PosVel.ArrayRoundTrip | src/pos_vel.rs:38 | six numbers read into a state and written out again are unchanged |
| PosVel.J2000.New | src/pos_vel.rs:73-77 | wraps the state built from the given position and velocity |
| PosVel.J2000.Default | src/pos_vel.rs:79-83 | the default wrapper holds the zero state |
| PosVel.J2000.FromPosVel | src/pos_vel.rs:48-52 | `From<PosVel>` wraps the state unchanged |
| PosVel.J2000.ToPosVel | src/pos_vel.rs:54-58 | unwrapping is undone by wrapping |
| PosVel.J2000.FromArray | src/pos_vel.rs:92 | `impl_transmute!` to `[T; 6]`: wraps the state whose six numbers are the array |
| PosVel.J2000.ToArray | src/pos_vel.rs:92 | the six numbers of the wrapped state, which read back give the same wrapper |
| PosVel.J2000.TryFromLvlh | src/pos_vel.rs:100-113 | fails with `NormalizeZero` when either norm guard fails; otherwise fails, with `InverseSingular`, iff the basis is singular; on success the result is the J2000 state that the LVLH state describes |
| PosVel.J2000.TryFromVvlh | src/pos_vel.rs:115-117 | the same guards and errors; on success the result is described by the VVLH state relabelled to LVLH |
| PosVel.LVLH.New | src/pos_vel.rs:73-77 | wraps the state built from the given position and velocity |
| PosVel.LVLH.Default | src/pos_vel.rs:79-83 | the default wrapper holds the zero state |
| PosVel.LVLH.FromPosVel | src/pos_vel.rs:48-52 | `From<PosVel>` wraps the state unchanged |
| PosVel.LVLH.ToPosVel | src/pos_vel.rs:54-58 | unwrapping is undone by wrapping |
| PosVel.LVLH.FromArray | src/pos_vel.rs:92 | `impl_transmute!` to `[T; 6]`: wraps the state whose six numbers are the array |
| PosVel.LVLH.ToArray | src/pos_vel.rs:92 | the six numbers of the wrapped state, which read back give the same wrapper |
| PosVel.LVLH.TryFromJ2000 | src/pos_vel.rs:121-133 | fails with `NormalizeZero` iff a norm guard fails; otherwise succeeds with the LVLH state that describes the J2000 state |
| PosVel.LVLH.FromVvlh | src/pos_vel.rs:149-154 | relabels the axes of both vectors from VVLH to LVLH |
| PosVel.VVLH.New | src/pos_vel.rs:73-77 | wraps the state built from the given position and velocity |
| PosVel.VVLH.Default | src/pos_vel.rs:79-83 | the default wrapper holds the zero state |
| PosVel.VVLH.FromPosVel | src/pos_vel.rs:48-52 | `From<PosVel>` wraps the state unchanged |
| PosVel.VVLH.ToPosVel | src/pos_vel.rs:54-58 | unwrapping is undone by wrapping |
| PosVel.VVLH.FromArray | src/pos_vel.rs:92 | `impl_transmute!` to `[T; 6]`: wraps the state whose six numbers are the array |
| PosVel.VVLH.ToArray | src/pos_vel.rs:92 | the six numbers of the wrapped state, which read back give the same wrapper |
| PosVel.VVLH.TryFromJ2000 | src/pos_vel.rs:137-139 | the same guard as the LVLH conversion; on success, relabelled back to LVLH, the result describes the J2000 state |
| PosVel.VVLH.FromLvlh | src/pos_vel.rs:142-147 | relabels the axes of both vectors from LVLH to VVLH |
| PosVel.AxisConversionsInverse | src/pos_vel.rs:142-154 | the two `From` conversions between LVLH and VVLH undo each other |
| PosVel.LvlhRoundTrip | src/pos_vel.rs:100-133 | whenever J2000 from LVLH succeeds, converting back gives exactly the LVLH state |
| PosVel.J2000RoundTrip | src/pos_vel.rs:100-133 | when the guards hold and the basis is invertible, LVLH from J2000 and back gives exactly the J2000 state |
| PosVel.VvlhRoundTrip | src/pos_vel.rs:115-117 | whenever J2000 from VVLH succeeds, converting back gives exactly the VVLH state |
| PosVel.ReferenceIsOrigin | src/pos_vel.rs:100-133 | the reference state is the zero LVLH state, in both directions |
| PosVel.EuclideanGuards | src/pos_vel.rs:101-104 | under a Euclidean norm the guards hold iff the reference position and its angular momentum are non-zero |
| PosVel.EuclideanBasisDet | src/pos_vel.rs:105 | under a Euclidean norm, a guarded reference's basis has determinant 1 |
| PosVel.FailsOnlyUnguarded | src/pos_vel.rs:100-133 | when every guarded basis is invertible, both conversions fail iff a guard fails, and the error is then `NormalizeZero` |
| PosVel.EuclideanFailures | src/pos_vel.rs:100-133 | under a Euclidean norm `InverseSingular` never occurs, and both conversions fail iff the reference position or its angular momentum is zero |

## Left out

- Floating point: scalars are exact reals. Rounding, NaN and infinity are not modelled, and the round trips hold exactly rather than within a tolerance.
- The older revision's unchecked divisions are modelled with preconditions. `PosVelStateFrames.J2000TryFromLvlh`, `Vector3.TryJ2000VelFromLvlh`, `Vector3.LvlhVelFromJ2000Impl` and the members built on them require both norms to be non-zero. The Rust code divides anyway there and produces NaN, which the model cannot represent.
- nalgebra's `norm` is a parameter of the model, not a computation (it needs a square root). The properties that need it to be Euclidean state this as a precondition.
- nalgebra's `try_inverse` is modelled as the adjugate over the determinant; the floating-point rounding of its computation is not modelled.
- `impl_isomorphic`, `Deref`/`DerefMut` and the `impl_ref!`/`impl_mut!`/`impl_transmute!` views reinterpret the same memory as `[T; 6]` or `Vector6`. Only the value conversion between a state and six numbers (`[T; 6]`) is modelled, for both revisions' states and wrappers; the `Vector6` views, aliasing and in-place mutation through these views are not.
- `src/orbit_coefficient.rs`, `PartialEq`/`Clone`/`Debug` and the serde derives are not part of this model.
- `src/lib.rs` only re-exports modules. Its error struct is `Errors.InverseOfSingularMatrix`.
- `norm_not_zero` and `normalize` are called from `src/pos_vel.rs` but are not defined in the repository's `src/vector3.rs`. `Vector3.NormNotZero` and `Vector3.Normalize` are defined from their use: the norm, or `NormalizeZero` for a zero norm; and the vector divided by that norm.
- `MatrixError` is imported from the crate root by `src/pos_vel.rs:3` but is defined in no source file; `src/lib.rs` defines only `InverseOfSingularMatrix`. `Errors.MatrixError` is defined from its use: `InverseSingular` appears at src/pos_vel.rs:106, and the `NormalizeZero` variant is assumed, like the two helpers above.
- Generic scalar types (`T: RealField`) are fixed to `real`.

## Findings

| source | as written | input that shows it | evidently intended | confidence | as-written member | corrected member |
|---|---|---|---|---|---|---|
| src/vector3.rs:55-66 | in `lvlh_vel_from_j2000_impl`, `pos` is the reference position (bound by the destructuring of `ref_state`), so `rou_rel = pos - rou_ref` is always zero; the function is never given `j2000.pos`, so it cannot compute the relative position at all; `LVLH::from_j2000` (src/pos_vel_state.rs:107-110) then returns position zero and drops the transport term | any LVLH state with a non-zero position, e.g. position (1, 0, 0), through `J2000::try_from_lvlh` and back through `LVLH::from_j2000` | the newer `LVLH::try_from_j2000` formula as a whole (src/pos_vel.rs:130-132): `rou_rel = j2000.pos - ref_state.pos`, velocity `a (j2000.vel - ref_state.vel - omega_w rou_rel)`, position `a rou_rel`, so that the two conversions are inverse | not executed | PosVelStateFrames.LvlhRoundTripLosesPosition | PosVel.LvlhRoundTrip |
| src/vector3.rs:67 | the velocity is `a (j2000_vel - v_ref - (-a) omega_w rou_rel)`, which adds `a omega_w rou_rel` where the LVLH relation subtracts `omega_w rou_rel`: the sign is reversed and `a` is applied once too often, so a corrected `rou_rel` alone would not make the round trip work | the reference at position (1, 0, 0) with velocity (0, 1, 0), whose basis is `I` and whose angular velocity is (0, 0, 1) under the Euclidean norm, and the LVLH state at rest at (1, 0, 0); J2000 from LVLH gives relative position (1, 0, 0) and relative velocity (0, 1, 0) (J2000 velocity (0, 2, 0)); the formula gives the LVLH velocity (0, 2, 0) instead of zero | `a (j2000.vel - ref_state.vel - omega_w rou_rel)`, as at src/pos_vel.rs:131 | not executed | Vector3.ImplTransportTermExample | PosVel.LvlhRoundTrip |

The newer revision's `LVLH::try_from_j2000` (src/pos_vel.rs:121-133) computes the inverse of its `J2000::try_from_lvlh` formula (src/pos_vel.rs:107-112), and that is the only evidence in the crate that the two conversions are meant to undo each other. The older code does not undo J2000 from LVLH, for the two reasons in the rows above: the relative position it uses is always zero, and its transport term has the wrong sign and an extra factor of the basis. The model follows the code as written (`Vector3.LvlhVelFromJ2000Impl` is built on `Vector3.ImplLvlhVel`). The corrected behaviour is the newer revision's `LVLH::try_from_j2000`, specified with the same relation as J2000 from LVLH; `PosVel.LvlhRoundTrip` and `PosVel.J2000RoundTrip` prove both directions of the round trip.
