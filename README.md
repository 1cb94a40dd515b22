# Bell and clapper simulator, modelled in Dafny

The repository simulates a swinging church bell and the clapper inside it,
for use as a control environment. A controller gives a normalised pull on
the rope each frame. The environment turns it into a wheel force, runs one
physics frame and reports a scaled observation.

This project models the per-frame update in `init_bell.timestep`:
- free and attached clapper modes, with the trial step of attached mode and
  its three-way decision (release to rest, clapper leaves, rigid motion);
- the elastic stay bounce and the stay-hit counter;
- the strike clamp with its momentum-conserving velocity collapse;
- the strike flag `ding` with its re-arming hysteresis;
- the rope length and effective-force direction of `ropelength`;
- the backstroke-peak tracker, the history lists and the simulated clock;
- the constructor of the bell;
- `run_bell` and the three actuator maps of the environment.

Module layout:
- `RealMath` holds the numerical stand-ins. `sin`, `cos` and `sqrt` are an
  injected `Elementary` value, and `Lawful` lists the only laws the proofs
  use about them.
- `BellGeometry` holds the bell's constants.
- `Rope` is `ropelength`.
- `BellDynamics` holds one pure function per stage of a frame. `Frame`
  composes them, and the lemmas state what each stage does.
- `BellPhysics` holds the classes `Physics` (`init_physics`) and `Bell`
  (`init_bell`). Each method of `Bell` mutates the fields the way the source
  does, and is proved to leave the bell in exactly the state of the matching
  stage function. So `Timestep` computes `Frame`.
- `Environment` holds `run_bell` as the class `RunBell` and the actuator
  maps. Its `Step` is proved against the pure `AssistedFrame`.

Behaviour reproduced as the code has it:
- The strike time `ding_time` is read from `phy.game_time`, which nothing
  advances. `RunBell.Valid` therefore keeps the game clock, and with it every
  strike stamp, at 0.
- `max_length` becomes the sample just after a local peak of the rope
  length, and only once more than three samples exist.
- The rigid branch of attached mode moves the bell from its pre-trial
  velocity and angle with no stay check. Stay hits counted during the
  discarded trial remain.
- The assisted pull that `step` sets after a frame is overwritten at the
  start of the next `step`, so it never reaches `timestep`.
- The free-mode denominator uses `k_2` where the bell's own inertia
  coefficient is `k_1` (bell_physics.py:97). Both are 1.5, so the value does
  not change.
- The docstring of `get_scaled_state` says the state is scaled into [0, 1].
  The code divides the angle by the stay limit, which gives [-1, 1] while the
  bell is within the stays, and returns the velocity unscaled. The model
  follows the code.

## Model

| member | source | states |
|---|---|---|
| RealMath.UnitDot | bell_physics.py:279-281 | the dot product of two unit vectors lies in [-1, 1] |
| Rope.Unit | bell_physics.py:279 | dividing a non-zero vector by its norm gives a vector of length 1 |
| Rope.RimPointAwayFromOrigin | bell_physics.py:275-279 | the rim point (r + r sin, r - r cos) is never the origin, so its normalisation is defined |
| Rope.Transition | bell_physics.py:273-281 | in the transition range the effective force, minus a dot product of unit vectors, lies in [-1, 1], and the length is non-negative |
| Rope.RopeLength | bell_physics.py:260-283 | hole angle > 0 gives force -1 and length r·hole + r > r; hole angle ≤ -π/2 gives force +1 and length ≥ r; otherwise force in [-1, 1] and length ≥ 0 |
| Rope.RopeLengthContinuous | bell_physics.py:265-281 | the transition formulas meet the handstroke and backstroke branches at both boundary angles, in length and force |
| BellDynamics.EulerBellSpec | bell_physics.py:107-114 | velocity then angle by forward Euler; the velocity is halved exactly when it is below 0.01 in magnitude and nothing pulls; the previous angle is saved; nothing else changes |
| BellDynamics.StayBounceSpec | bell_physics.py:116-127 | inside the stays nothing changes; an angle up to twice the limit past a stay is reflected about it (2(π + stay) - angle, mirrored below) with velocity times -0.7, and stay_hit rises by 1 exactly when the rebound exceeds 1 rad/s; an angle further past the top bounces twice; the result lies within the stays for angles within three limits; only angle, velocity and stay_hit change and stay_hit never falls |
| BellDynamics.FreeModeSpec | bell_physics.py:92-138 | free mode: the clapper velocity is integrated with the acceleration before friction, the angle with the new velocity, and friction is taken off the stored acceleration afterwards; only kinematic fields and the stay counter change |
| BellDynamics.AttachedTrialSpec | bell_physics.py:141-177 | the trial step moves the bell alone and leaves clapper angle and velocity as they were |
| BellDynamics.ResolveSpec | bell_physics.py:179-211 | the release guard is checked first and, within 0.01 of a stay, snaps velocity to 0 and the angle to ±(π + stay); otherwise, if the comparator holds, the clapper leaves with the trial acceleration and the bell keeps the trial result; otherwise bell and clapper move rigidly from the pre-trial velocity and angle |
| BellDynamics.AttachedModeSpec | bell_physics.py:141-211 | under the release guard the clapper is untouched; in the rigid case the velocity and angle come from the pre-trial ones, the clapper-bell offset is kept from the start of the frame and the trial's stay hits remain |
| BellDynamics.MoveSpec | bell_physics.py:92-211 | motion never makes contact, never lowers stay_hit, and changes only kinematic fields |
| BellDynamics.CommonVelocity | bell_physics.py:218 | the common velocity conserves momentum: (m1 + m2)·v' = m1·v + m2·cv |
| BellDynamics.StrikeSpec | bell_physics.py:214-232 | contact holds exactly when the offset lay strictly outside ±limit; it is clamped to that limit; both velocities become the momentum-conserving value; volume_ref changes only while armed, to 0.2·|cv - v| before the collapse |
| BellDynamics.DingSpec | bell_physics.py:233-241 | ding holds exactly when contact is made while armed; it disarms and stamps the game clock; re-arming happens once the offset is more than 0.1 inside the limit |
| BellDynamics.RecordRopeSpec | bell_physics.py:243-248 | the rope state of the new angle is appended to both histories; max_length changes only when more than three samples exist, the force is positive and rlengths[-2] is a strict peak, and then becomes rlengths[-1] |
| BellDynamics.FrameHistory | bell_physics.py:243-258 | a frame appends exactly one entry to each history, and the time entry is the previous clock plus dt |
| BellDynamics.FrameSpec | bell_physics.py:89-258 | a frame keeps the histories aligned and the bell consistent; a ding means contact, a disarmed detector and the game-clock stamp; a disarmed detector cannot ding; stay_hit never falls; the wheel force is not changed |
| BellDynamics.FrameConsistent | bell_physics.py:89-258 | a frame from a consistent state ends in one: histories aligned, a ding only in contact with the detector disarmed, and contact only at the limit with the detector disarmed |
| BellDynamics.FrameHysteresis | bell_physics.py:214-241 | after a frame, contact means a disarmed detector; a ding needs the detector armed before the frame; a detector armed after the frame is inside the re-arming band (offset more than 0.1 inside the limit) or was armed before and did not fire |
| BellDynamics.Initial | bell_physics.py:40-87 | the initial bell is consistent, not in contact, armed, with zero counters, velocities and force, clapper at the bell angle, one angle and one time in the histories, and the rope state of the initial angle |
| BellDynamics.RunStepConsistent | bell_physics.py:89-258 | one frame of a run preserves consistency |
| BellDynamics.RunConsistent | bell_physics.py:89-258 | every state of a run from a consistent start is consistent |
| BellDynamics.NoConsecutiveDings | bell_physics.py:233-241 | the strike flag is never set on two consecutive frames |
| BellDynamics.RunStepHysteresis | bell_physics.py:233-241 | along a run, a ding needs the detector armed in the previous state, and arming happens only inside the re-arming band or by staying armed without firing |
| BellDynamics.DingOpensContact | bell_physics.py:214-241 | in a run from a consistent start, a frame that dings is in contact and the frame before it was not: a ding marks the first frame of a contact |
| BellDynamics.DingsSeparated | bell_physics.py:233-241 | in a run from a consistent start, between any two dings there is a frame where the clapper was back more than 0.1 inside the limit: one ding per contact episode |
| BellDynamics.RunStepStayHit | bell_physics.py:116-127 | one frame never lowers stay_hit |
| BellDynamics.StayHitMonotone | bell_physics.py:116-127 | stay_hit never decreases along a run |
| BellDynamics.RunExtends | bell_physics.py:256-258 | each frame of a run extends the time history by the clock plus dt and adds one angle and one rope sample |
| BellDynamics.RunHistoryAt | bell_physics.py:256-258 | after i frames the histories have grown by i, the initial times are kept and the clock has advanced by dt per frame |
| BellPhysics.Physics.constructor | bell_physics.py:14-29 | g = 9.8, dt = 1/60 and the clocks and counter start at 0 |
| BellPhysics.Bell.constructor | bell_physics.py:40-87 | the fields hold the initial state, which is valid |
| BellPhysics.Bell.EulerStep | bell_physics.py:107-114 | updates the fields to the Euler stage |
| BellPhysics.Bell.UpperStay | bell_physics.py:117-121 | updates the fields to the upper stay bounce |
| BellPhysics.Bell.LowerStay | bell_physics.py:122-127 | updates the fields to the lower stay bounce |
| BellPhysics.Bell.StayCheck | bell_physics.py:116-127 | updates the fields to both stay checks in order |
| BellPhysics.Bell.FreeClapperStep | bell_physics.py:129-138 | updates the fields to the free clapper stage |
| BellPhysics.Bell.FreeStep | bell_physics.py:92-138 | updates the fields to free mode |
| BellPhysics.Bell.SnapToStay | bell_physics.py:180-182 | updates the fields to the release-to-rest snap |
| BellPhysics.Bell.ReleaseClapper | bell_physics.py:184-191 | updates the fields to the clapper leaving |
| BellPhysics.Bell.RigidStep | bell_physics.py:193-211 | updates the fields to the rigid motion |
| BellPhysics.Bell.ResolveContact | bell_physics.py:179-211 | updates the fields to the attached-mode decision |
| BellPhysics.Bell.AttachedTrialStep | bell_physics.py:141-177 | updates the fields to the trial step |
| BellPhysics.Bell.TrialClapperStep | bell_physics.py:173-177 | updates the fields to the trial clapper acceleration |
| BellPhysics.Bell.AttachedStep | bell_physics.py:141-211 | updates the fields to attached mode, with the pre-trial velocity and angle |
| BellPhysics.Bell.CollideAt | bell_physics.py:215-222 | updates the fields to the clamp and collapse at the given limit |
| BellPhysics.Bell.CheckStrike | bell_physics.py:214-232 | updates the fields to the strike check |
| BellPhysics.Bell.CheckDing | bell_physics.py:233-241 | updates the fields to the ding stage |
| BellPhysics.Bell.SampleRopeStep | bell_physics.py:243-244 | updates the fields to the rope sample |
| BellPhysics.Bell.TrackPeakStep | bell_physics.py:246-248 | updates the fields to the backstroke-peak stage |
| BellPhysics.Bell.RecordRopeSample | bell_physics.py:243-248 | updates the fields to the rope bookkeeping |
| BellPhysics.Bell.SetWheelForce | main.py:28 | only the wheel force changes |
| BellPhysics.Bell.MoveStep | bell_physics.py:92-211 | updates the fields to the motion stage of the current mode |
| BellPhysics.Bell.AdvanceClock | bell_physics.py:256-258 | adds dt to the physics clock and appends the new time and angle |
| BellPhysics.Bell.SettleStep | bell_physics.py:214-258 | updates the fields to the stages after the motion |
| BellPhysics.Bell.Timestep | bell_physics.py:89-258 | the bell ends in exactly the frame of its old state, stays valid, and the clock advances by dt |
| BellPhysics.Bell.PulledTimestep | main.py:28-29 | a frame run with the given pull |
| Environment.DiscreteActuatorForce | main.py:45-49 | 1.0 exactly when action[0] > 0.5, otherwise 0.0 |
| Environment.ProbablyActuatorForce | main.py:51-55 | 1.0 exactly when action[0] exceeds the draw, otherwise 0.0 |
| Environment.ContinuousActuatorForce | main.py:42-43 | the first component of the action is the signal the other two actuators threshold: the discrete one at 0.5 and the random one at its draw |
| Environment.ProbablyAtHalfIsDiscrete | main.py:45-55 | at draw 0.5 the random actuator is the discrete one |
| Environment.ProbablyMonotone | main.py:51-55 | a larger draw never gives a larger force; for draws in [0, 1) an action ≥ 1 always pulls and one ≤ 0 never does |
| Environment.AssistedFrameSpec | main.py:26-35 | the frame runs with force·600; afterwards the wheel force is force·600, or effect_force·600 after a draw above 0.5, and within ±600 for an action in [-1, 1]; nothing else differs from the plain frame |
| Environment.AssistedStepKeeps | main.py:26-35 | a step keeps the bell consistent, moves the clock history on by dt and keeps the strike stamp at 0 |
| Environment.AssistOverwritten | main.py:28-33 | a step's result does not depend on the wheel force left by the previous step |
| Environment.RunBell.constructor | main.py:18-24 | a valid environment with a fresh bell at angle 0 in its initial state and count 0 |
| Environment.RunBell.Step | main.py:26-35 | the bell ends in the assisted frame of its old state; the clock advances by dt; both counters rise by exactly 1; the environment stays valid |
| Environment.RunBell.ScaledState | main.py:37-40 | two values: the angle as a fraction of π + stay, which lies in [-1, 1] within the stays, and the velocity |

## Left out

- Floating point: all quantities are reals. Rounding, overflow and NaN are not modelled.
- sin, cos, sqrt and π: the transcendental functions are injected, so nothing beyond the laws in `Lawful` is known of them. π is the decimal value of `np.pi`.
- The equations of motion (bell_physics.py:95-105, 130-134, 143-147, 174-177, 195-202) are reproduced but not analysed: no energy, stability or convergence properties.
- `random.random()`: the draw is a parameter of `Step` and `ProbablyActuatorForce`; no generator is modelled.
- `init_physics` rendering and wall-clock fields (`pixels_*`, `x1`, `y1`, the scales, `time_reference`, `real_time`, `do_volume`, `pix`): presentation and wall-clock time, not part of the dynamics.
- `init_bell` fields that `timestep` never reads (`volume`, `backstroke_pull`, `strike_velocity`): they do not affect any modelled behaviour.
- The commented-out adaptive time step (bell_physics.py:250-253): `dt` is the fixed 1/60, a constant.
- The `phy` argument of `init_bell.__init__` is unused there, as in the source.
- evolve_bell.py and test_bell.py: training loop and plotting script. They are not part of this model.
- ContinuousActuatorForce, DiscreteActuatorForce, ProbablyActuatorForce: require a non-empty action; Python raises IndexError on an empty one, and every caller passes a network output of fixed length.
- sin and cos at the backstroke boundary: `Lawful` sets sin(-π/2) = -1 and cos(-π/2) = 0 for the decimal π, as if it were exact; `np.cos(-np.pi/2)` is about 6e-17. The exact agreement that RopeLengthContinuous proves at that boundary rests on this.
- BellDynamics stage functions: their properties are stated in the lemmas named after them (`EulerBellSpec`, `StrikeSpec`, …) rather than as their own postconditions.
