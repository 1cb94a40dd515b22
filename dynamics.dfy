/** The per-frame update of bell and clapper (bell_physics.py:89-258) as pure
    functions on a snapshot of the bell's dynamic state. Each function is one
    stage of the frame; `Frame` composes them. The imperative class in
    BellPhysics is proved to compute exactly `Frame`. The equations of motion
    are kept as plain formulas over the abstract sin and cos; every property
    proved here is about branches, clamps, counters and bookkeeping. */
module BellDynamics {
  import opened RealMath
  import opened BellGeometry
  import opened Rope

  /** Everything `timestep` reads or writes on the bell. */
  datatype BellState = BellState(
    bellAngle: real, velocity: real, accel: real, prevAngle: real,
    clapperAngle: real, clapperVelocity: real, clapperAccel: real,
    onedge: bool, ding: bool, dingReset: bool, dingTime: real,
    stayHit: nat, volumeRef: real, wheelForce: real,
    rlength: real, effectForce: real, maxLength: real,
    rlengths: seq<real>, effectForces: seq<real>, times: seq<real>, bellAngles: seq<real>)

  /** Gravitational acceleration `init_physics.g` (bell_physics.py:18). */
  const G: real := 9.8
  /** The fixed frame step `init_physics.dt`, one frame at 60 frames per
      second (bell_physics.py:17, 21). */
  const DT: real := 1.0 / 60.0

  /** One forward-Euler update `x + rate*dt` over one frame. */
  function Euler(x: real, rate: real): real
  {
    x + rate * DT
  }

  // ---------------------------------------------------------------------
  // Equations of motion, reproduced as written. The only fact about them
  // proved here is that every denominator is non-zero; nothing below
  // depends on their values.

  /** Bell acceleration with the clapper free (bell_physics.py:95-105). The
      bell's inertia term in the denominator uses the clapper coefficient
      `K_2` (bell_physics.py:97) where the drive term uses `K_1`; as both are
      1.5 the value is the same. */
  function FreeBellAccel(e: Elementary, s: BellState): real
    requires Lawful(e)
  {
    var num := -M_1 * G * L_1 * e.sin(s.bellAngle) - M_2 * G * P * e.sin(s.bellAngle)
               - M_2 * P * L_2 * Sq(s.clapperVelocity) * e.sin(s.bellAngle - s.clapperAngle);
    var den := M_1 * ((1.0 + K_2) * Sq(L_1)) + M_2 * Sq(P)
               + M_2 * P * L_2 * e.cos(s.bellAngle - s.clapperAngle);
    num / den + (1.0 / M_1) * s.wheelForce * RADIUS / ((1.0 + K_1) * Sq(L_1)) - s.velocity * FRICTION
  }

  /** Trial bell acceleration with the clapper resting on the rim,
      bell body only (bell_physics.py:143-147). */
  function TrialBellAccel(e: Elementary, s: BellState): real
    requires Lawful(e)
  {
    (-G * e.sin(s.bellAngle)) / ((1.0 + K_1) * L_1)
    + (1.0 / M_1) * s.wheelForce * RADIUS / ((1.0 + K_1) * Sq(L_1)) - s.velocity * FRICTION
  }

  /** Clapper acceleration, before clapper friction (bell_physics.py:130-132
      and 174-176). */
  function ClapperAccel(e: Elementary, s: BellState): real
    requires Lawful(e)
  {
    var num := -G * e.sin(s.clapperAngle)
               - P * (s.accel * e.cos(s.bellAngle - s.clapperAngle)
                      - Sq(s.velocity) * e.sin(s.bellAngle - s.clapperAngle));
    num / ((1.0 + K_2) * L_2)
  }

  /** Acceleration of bell and clapper moving as one rigid body, from the
      pre-trial angle; the friction term uses the trial velocity in `s`
      (bell_physics.py:195-202). */
  function RigidBellAccel(e: Elementary, oldAngle: real, s: BellState): real
    requires Lawful(e)
  {
    var num := -L_1 * M_1 * G * e.sin(oldAngle)
               - M_2 * G * (P * e.sin(oldAngle) + L_2 * e.sin(s.clapperAngle));
    var den := M_1 * ((1.0 + K_1) * Sq(L_1))
               + M_2 * ((1.0 + K_2) * Sq(P + L_2 * e.cos(oldAngle - s.clapperAngle)));
    num / den + s.wheelForce * RADIUS / den - s.velocity * FRICTION
  }

  // ---------------------------------------------------------------------
  // Stages of a frame. Each stage is a plain function; what it guarantees is
  // stated and proved by the lemma that follows it.

  /** Velocity then angle by forward Euler, with the stopping rule that
      halves a small velocity when nothing pulls the rope
      (bell_physics.py:108-114 and 151-157). */
  function EulerBell(s: BellState): BellState
  {
    var v0 := Euler(s.velocity, s.accel);
    var v := if Abs(v0) < 0.01 && s.wheelForce == 0.0 then 0.5 * v0 else v0;
    s.(velocity := v, prevAngle := s.bellAngle, bellAngle := Euler(s.bellAngle, v))
  }

  lemma EulerBellSpec(s: BellState)
    ensures var r := EulerBell(s);
      r.prevAngle == s.bellAngle &&
      r.bellAngle == Euler(s.bellAngle, r.velocity) &&
      (Abs(Euler(s.velocity, s.accel)) < 0.01 && s.wheelForce == 0.0 ==>
        r.velocity == 0.5 * Euler(s.velocity, s.accel)) &&
      (!(Abs(Euler(s.velocity, s.accel)) < 0.01 && s.wheelForce == 0.0) ==>
        r.velocity == Euler(s.velocity, s.accel)) &&
      Abs(r.velocity) <= Abs(Euler(s.velocity, s.accel)) &&
      r == s.(velocity := r.velocity, prevAngle := r.prevAngle, bellAngle := r.bellAngle)
  {
  }

  /** The bounce off the stay past the top on the positive side. */
  function UpperBounce(s: BellState): BellState
  {
    if s.bellAngle > PI + STAY_ANGLE then
      var v := -0.7 * s.velocity;
      s.(velocity := v, bellAngle := 2.0 * PI + 2.0 * STAY_ANGLE - s.bellAngle,
         stayHit := if Abs(v) > 1.0 then s.stayHit + 1 else s.stayHit)
    else s
  }

  /** The bounce off the stay on the negative side. */
  function LowerBounce(s: BellState): BellState
  {
    if s.bellAngle < -PI - STAY_ANGLE then
      var v := -0.7 * s.velocity;
      s.(velocity := v, bellAngle := -2.0 * PI - 2.0 * STAY_ANGLE - s.bellAngle,
         stayHit := if Abs(v) > 1.0 then s.stayHit + 1 else s.stayHit)
    else s
  }

  /** The two stay checks, in the order the source runs them
      (bell_physics.py:117-127 and 160-170). */
  function StayBounce(s: BellState): BellState
  {
    LowerBounce(UpperBounce(s))
  }

  /** An angle past either limit is reflected about it and the velocity
      reversed with restitution 0.7; a rebound faster than 1 rad/s counts as
      a stay hit. The second check sees the result of the first, so an angle
      more than twice the limit past the top bounces twice. */
  lemma StayBounceSpec(s: BellState)
    ensures var r := StayBounce(s);
      s.stayHit <= r.stayHit <= s.stayHit + 2 &&
      r == s.(bellAngle := r.bellAngle, velocity := r.velocity, stayHit := r.stayHit) &&
      (-STAY_LIMIT <= s.bellAngle <= STAY_LIMIT ==> r == s) &&
      (STAY_LIMIT < s.bellAngle <= 3.0 * STAY_LIMIT ==>
        r.bellAngle == 2.0 * STAY_LIMIT - s.bellAngle && r.velocity == -0.7 * s.velocity &&
        r.stayHit == s.stayHit + (if Abs(r.velocity) > 1.0 then 1 else 0)) &&
      (s.bellAngle < -STAY_LIMIT ==>
        r.bellAngle == -2.0 * STAY_LIMIT - s.bellAngle && r.velocity == -0.7 * s.velocity &&
        r.stayHit == s.stayHit + (if Abs(r.velocity) > 1.0 then 1 else 0)) &&
      (3.0 * STAY_LIMIT < s.bellAngle ==>
        r.bellAngle == s.bellAngle - 4.0 * STAY_LIMIT && r.velocity == 0.49 * s.velocity) &&
      (-3.0 * STAY_LIMIT <= s.bellAngle <= 3.0 * STAY_LIMIT ==> -STAY_LIMIT <= r.bellAngle <= STAY_LIMIT)
  {
  }

  /** The clapper update of free mode, on the state after the bell has
      moved (bell_physics.py:130-138). */
  function FreeClapper(e: Elementary, b: BellState): BellState
    requires Lawful(e)
  {
    var ca := ClapperAccel(e, b);
    var cv := Euler(b.clapperVelocity, ca);
    b.(clapperVelocity := cv, clapperAccel := ca - CLAPPER_FRICTION * (cv - b.velocity),
       clapperAngle := Euler(b.clapperAngle, cv))
  }

  /** Free mode (bell_physics.py:92-138): the bell integrated with the
      coupled equation, the stay checks, then the clapper. */
  function FreeMode(e: Elementary, s: BellState): BellState
    requires Lawful(e)
  {
    FreeClapper(e, StayBounce(EulerBell(s.(accel := FreeBellAccel(e, s)))))
  }

  /** The clapper moves with the acceleration it has after the bell's
      bounce, integrated without friction; clapper friction is taken off the
      stored acceleration only after the velocity update. */
  lemma FreeModeSpec(e: Elementary, s: BellState)
    requires Lawful(e)
    ensures var b := StayBounce(EulerBell(s.(accel := FreeBellAccel(e, s))));
      var r := FreeMode(e, s);
      r.accel == FreeBellAccel(e, s) && r.prevAngle == s.bellAngle &&
      r.bellAngle == b.bellAngle && r.velocity == b.velocity && r.stayHit == b.stayHit &&
      r.clapperVelocity == Euler(s.clapperVelocity, ClapperAccel(e, b)) &&
      r.clapperAccel == ClapperAccel(e, b) - CLAPPER_FRICTION * (r.clapperVelocity - r.velocity) &&
      r.clapperAngle == Euler(s.clapperAngle, r.clapperVelocity) &&
      r.stayHit >= s.stayHit && r.onedge == s.onedge &&
      r == s.(bellAngle := r.bellAngle, velocity := r.velocity, accel := r.accel,
              prevAngle := r.prevAngle, stayHit := r.stayHit, clapperAngle := r.clapperAngle,
              clapperVelocity := r.clapperVelocity, clapperAccel := r.clapperAccel)
  {
    var a := s.(accel := FreeBellAccel(e, s));
    EulerBellSpec(a);
    StayBounceSpec(EulerBell(a));
  }

  /** The clapper acceleration attached mode tests, friction included, on
      the state after the trial bell step (bell_physics.py:174-177). */
  function TrialClapper(e: Elementary, b: BellState): BellState
    requires Lawful(e)
  {
    b.(clapperAccel := ClapperAccel(e, b) - CLAPPER_FRICTION * (b.clapperVelocity - b.velocity))
  }

  /** The trial step of attached mode (bell_physics.py:143-177): the bell
      alone integrated as in free mode, and the clapper acceleration it would
      then have. */
  function AttachedTrial(e: Elementary, s: BellState): BellState
    requires Lawful(e)
  {
    TrialClapper(e, StayBounce(EulerBell(s.(accel := TrialBellAccel(e, s)))))
  }

  /** The trial step does not move the clapper. */
  lemma AttachedTrialSpec(e: Elementary, s: BellState)
    requires Lawful(e)
    ensures var t := AttachedTrial(e, s);
      t.clapperAngle == s.clapperAngle && t.clapperVelocity == s.clapperVelocity &&
      t.accel == TrialBellAccel(e, s) && t.prevAngle == s.bellAngle && t.stayHit >= s.stayHit &&
      t == s.(bellAngle := t.bellAngle, velocity := t.velocity, accel := t.accel,
              prevAngle := t.prevAngle, stayHit := t.stayHit, clapperAccel := t.clapperAccel)
  {
    var a := s.(accel := TrialBellAccel(e, s));
    EulerBellSpec(a);
    StayBounceSpec(EulerBell(a));
  }

  /** The release-to-rest guard of attached mode. */
  predicate AtRest(t: BellState)
  {
    Abs(t.velocity) < 0.05 && t.wheelForce == 0.0
  }

  /** The power-like comparator that lets the clapper leave the rim. */
  predicate ClapperLeaves(t: BellState)
  {
    t.clapperAccel * t.clapperVelocity > t.accel * t.velocity
  }

  /** Near a stay, a bell at rest is snapped onto it (bell_physics.py:180-182). */
  function Snap(t: BellState): BellState
  {
    if Abs(t.bellAngle + PI + STAY_ANGLE) < 0.01 || Abs(t.bellAngle - PI - STAY_ANGLE) < 0.01 then
      t.(velocity := 0.0, bellAngle := Sign(t.bellAngle) * (PI + STAY_ANGLE))
    else t
  }

  /** The clapper leaves the rim with its trial acceleration
      (bell_physics.py:187-191). */
  function Release(t: BellState): BellState
  {
    var cv := Euler(t.clapperVelocity, t.clapperAccel);
    t.(onedge := false, clapperVelocity := cv, clapperAngle := Euler(t.clapperAngle, cv))
  }

  /** Bell and clapper move as one body from the pre-trial velocity and
      angle (bell_physics.py:195-211). */
  function Rigid(e: Elementary, oldVelocity: real, oldAngle: real, t: BellState): BellState
    requires Lawful(e)
  {
    var a := RigidBellAccel(e, oldAngle, t);
    var v := Euler(oldVelocity, a);
    t.(accel := a, clapperAccel := a, velocity := v, bellAngle := Euler(oldAngle, v),
       clapperVelocity := v, clapperAngle := Euler(t.clapperAngle, v))
  }

  /** The decision of attached mode on the trial state `t`
      (bell_physics.py:179-211). */
  function Resolve(e: Elementary, oldVelocity: real, oldAngle: real, t: BellState): BellState
    requires Lawful(e)
  {
    if AtRest(t) then Snap(t)
    else if ClapperLeaves(t) then Release(t)
    else Rigid(e, oldVelocity, oldAngle, t)
  }

  /** The release guard is checked first and, near a stay, snaps the bell
      onto it; only when the guard fails is the comparator consulted; a
      clapper that stays moves rigidly with the bell from the pre-trial
      velocity and angle, with no stay check. */
  lemma ResolveSpec(e: Elementary, oldVelocity: real, oldAngle: real, t: BellState)
    requires Lawful(e)
    ensures var r := Resolve(e, oldVelocity, oldAngle, t);
      (AtRest(t) ==>
        r == (if Abs(t.bellAngle + STAY_LIMIT) < 0.01 then t.(velocity := 0.0, bellAngle := -STAY_LIMIT)
              else if Abs(t.bellAngle - STAY_LIMIT) < 0.01 then t.(velocity := 0.0, bellAngle := STAY_LIMIT)
              else t)) &&
      (!AtRest(t) && ClapperLeaves(t) ==>
        !r.onedge && r.bellAngle == t.bellAngle && r.velocity == t.velocity &&
        r.clapperVelocity == Euler(t.clapperVelocity, t.clapperAccel) &&
        r.clapperAngle == Euler(t.clapperAngle, r.clapperVelocity)) &&
      (!AtRest(t) && !ClapperLeaves(t) ==>
        r.onedge == t.onedge && r.accel == RigidBellAccel(e, oldAngle, t) &&
        r.velocity == Euler(oldVelocity, r.accel) && r.bellAngle == Euler(oldAngle, r.velocity) &&
        r.clapperVelocity == r.velocity && r.clapperAccel == r.accel &&
        r.clapperAngle - r.bellAngle == t.clapperAngle - oldAngle) &&
      (r.onedge ==> t.onedge) &&
      r == t.(bellAngle := r.bellAngle, velocity := r.velocity, accel := r.accel,
              clapperAngle := r.clapperAngle, clapperVelocity := r.clapperVelocity,
              clapperAccel := r.clapperAccel, onedge := r.onedge)
  {
  }

  /** Attached mode (bell_physics.py:141-211): the trial step, then the
      decision, from the velocity and angle the bell had before the trial. */
  function AttachedMode(e: Elementary, s: BellState): BellState
    requires Lawful(e)
  {
    Resolve(e, s.velocity, s.bellAngle, AttachedTrial(e, s))
  }

  /** In the rigid case the bell moves from its velocity and angle before
      the trial, the clapper keeps its offset from the bell, and the stay hits
      counted during the discarded trial remain; when the release guard holds
      the clapper is left where it was. */
  lemma AttachedModeSpec(e: Elementary, s: BellState)
    requires Lawful(e)
    ensures var t := AttachedTrial(e, s);
      var r := AttachedMode(e, s);
      r.stayHit >= s.stayHit && r.prevAngle == s.bellAngle && (r.onedge ==> s.onedge) &&
      (AtRest(t) ==> r.onedge == s.onedge && r.clapperAngle == s.clapperAngle &&
                     r.clapperVelocity == s.clapperVelocity) &&
      (!AtRest(t) && !ClapperLeaves(t) ==>
        r.velocity == Euler(s.velocity, r.accel) && r.bellAngle == Euler(s.bellAngle, r.velocity) &&
        r.stayHit == t.stayHit && r.clapperAngle - r.bellAngle == s.clapperAngle - s.bellAngle) &&
      r == s.(bellAngle := r.bellAngle, velocity := r.velocity, accel := r.accel,
              prevAngle := r.prevAngle, stayHit := r.stayHit, clapperAngle := r.clapperAngle,
              clapperVelocity := r.clapperVelocity, clapperAccel := r.clapperAccel, onedge := r.onedge)
  {
    AttachedTrialSpec(e, s);
    ResolveSpec(e, s.velocity, s.bellAngle, AttachedTrial(e, s));
  }

  /** The motion stage of a frame, chosen by the contact mode. */
  function Move(e: Elementary, s: BellState): BellState
    requires Lawful(e)
  {
    if s.onedge then AttachedMode(e, s) else FreeMode(e, s)
  }

  /** Motion touches only the kinematic fields and the stay counter, and
      never makes contact; contact is made by the strike check alone. */
  lemma MoveSpec(e: Elementary, s: BellState)
    requires Lawful(e)
    ensures var r := Move(e, s);
      r.stayHit >= s.stayHit && r.prevAngle == s.bellAngle && (r.onedge ==> s.onedge) &&
      r == s.(bellAngle := r.bellAngle, velocity := r.velocity, accel := r.accel,
              prevAngle := r.prevAngle, stayHit := r.stayHit, clapperAngle := r.clapperAngle,
              clapperVelocity := r.clapperVelocity, clapperAccel := r.clapperAccel, onedge := r.onedge)
  {
    if s.onedge {
      AttachedModeSpec(e, s);
    } else {
      FreeModeSpec(e, s);
    }
  }

  /** The common velocity of bell and clapper after an inelastic impact. */
  function CommonVelocity(velocity: real, clapperVelocity: real): (v: real)
    ensures (M_1 + M_2) * v == M_1 * velocity + M_2 * clapperVelocity
  {
    (1.0 / (M_1 + M_2)) * (M_1 * velocity + M_2 * clapperVelocity)
  }

  /** Clamp the clapper at `limit` from the bell, merge the velocities and
      record the impact volume if the strike detector is armed. */
  function Collide(s: BellState, limit: real): BellState
  {
    var vol := if s.dingReset then 0.2 * Abs(s.clapperVelocity - s.velocity) else s.volumeRef;
    var avg := CommonVelocity(s.velocity, s.clapperVelocity);
    s.(volumeRef := vol, clapperVelocity := avg, velocity := avg,
       clapperAngle := limit + s.bellAngle, onedge := true)
  }

  /** The strike check (bell_physics.py:215-232). */
  function Strike(s: BellState): BellState
  {
    if s.clapperAngle - s.bellAngle < -CLAPPER_LIMIT then
      Collide(s, -CLAPPER_LIMIT)
    else if s.clapperAngle - s.bellAngle > CLAPPER_LIMIT then
      Collide(s, CLAPPER_LIMIT)
    else
      s.(onedge := false)
  }

  /** Contact is made exactly when the clapper is past the limit on either
      side; it is then clamped to that limit and both bodies take their
      momentum-conserving common velocity; the impact volume is recorded
      only while the detector is armed. */
  lemma StrikeSpec(s: BellState)
    ensures var r := Strike(s);
      (r.onedge <==>
        (s.clapperAngle - s.bellAngle < -CLAPPER_LIMIT || s.clapperAngle - s.bellAngle > CLAPPER_LIMIT)) &&
      (s.clapperAngle - s.bellAngle < -CLAPPER_LIMIT ==> r.clapperAngle - r.bellAngle == -CLAPPER_LIMIT) &&
      (s.clapperAngle - s.bellAngle > CLAPPER_LIMIT ==> r.clapperAngle - r.bellAngle == CLAPPER_LIMIT) &&
      (r.onedge ==> Abs(r.clapperAngle - r.bellAngle) == CLAPPER_LIMIT) &&
      (r.onedge ==>
        r.velocity == r.clapperVelocity &&
        (M_1 + M_2) * r.velocity == M_1 * s.velocity + M_2 * s.clapperVelocity) &&
      (r.onedge && s.dingReset ==> r.volumeRef == 0.2 * Abs(s.clapperVelocity - s.velocity)) &&
      (!(r.onedge && s.dingReset) ==> r.volumeRef == s.volumeRef) &&
      (!r.onedge ==> r == s.(onedge := false)) &&
      r == s.(onedge := r.onedge, velocity := r.velocity, clapperVelocity := r.clapperVelocity,
              clapperAngle := r.clapperAngle, volumeRef := r.volumeRef)
  {
  }

  /** The strike flag with its hysteresis (bell_physics.py:233-241). */
  function Ding(s: BellState, gameTime: real): BellState
  {
    var fired := if s.onedge && s.dingReset
                 then s.(ding := true, dingReset := false, dingTime := gameTime)
                 else s.(ding := false);
    if Abs(fired.clapperAngle - fired.bellAngle) < CLAPPER_LIMIT - 0.1 then fired.(dingReset := true)
    else fired
  }

  /** A ding fires exactly when contact is made while armed, disarms the
      detector and stamps the game clock; the detector re-arms once the
      clapper is back more than 0.1 inside the limit, and otherwise keeps
      its state. */
  lemma DingSpec(s: BellState, gameTime: real)
    ensures var r := Ding(s, gameTime);
      (r.ding <==> s.onedge && s.dingReset) &&
      r.dingTime == (if r.ding then gameTime else s.dingTime) &&
      (r.dingReset <==> Abs(s.clapperAngle - s.bellAngle) < CLAPPER_LIMIT - 0.1 || (s.dingReset && !r.ding)) &&
      r == s.(ding := r.ding, dingReset := r.dingReset, dingTime := r.dingTime)
  {
  }

  /** The last three samples of the rope history rise then fall. */
  predicate PeakBehind(ls: seq<real>)
    requires |ls| >= 3
  {
    ls[|ls| - 1] < ls[|ls| - 2] && ls[|ls| - 2] > ls[|ls| - 3]
  }

  /** The rope sample of the current angle, appended to both histories
      (bell_physics.py:243-244). */
  function SampleRope(e: Elementary, s: BellState): BellState
    requires Lawful(e)
  {
    var rope := RopeLength(e, s.bellAngle);
    s.(rlength := rope.length, effectForce := rope.effectForce, rlengths := s.rlengths + [rope.length],
       effectForces := s.effectForces + [rope.effectForce])
  }

  /** The backstroke maximum (bell_physics.py:246-248). */
  function TrackPeak(s: BellState): BellState
  {
    var ls := s.rlengths;
    s.(maxLength := if |ls| > 3 && s.effectForce > 0.0 && PeakBehind(ls) then ls[|ls| - 1] else s.maxLength)
  }

  /** Rope bookkeeping (bell_physics.py:243-248). */
  function RecordRope(e: Elementary, s: BellState): BellState
    requires Lawful(e)
  {
    TrackPeak(SampleRope(e, s))
  }

  /** The rope state of the new angle is appended to both histories, and
      `maxLength` changes only to the sample just after a local peak of the
      rope length, while the backstroke pulls and more than three samples
      exist. */
  lemma RecordRopeSpec(e: Elementary, s: BellState)
    requires Lawful(e)
    ensures var r := RecordRope(e, s);
      RopeState(r.rlength, r.effectForce) == RopeLength(e, s.bellAngle) &&
      r.rlengths == s.rlengths + [r.rlength] && r.effectForces == s.effectForces + [r.effectForce] &&
      -1.0 <= r.effectForce <= 1.0 &&
      (r.maxLength != s.maxLength ==>
        |r.rlengths| > 3 && r.effectForce > 0.0 && r.maxLength == r.rlengths[|r.rlengths| - 1] &&
        r.rlengths[|r.rlengths| - 2] > r.rlengths[|r.rlengths| - 1] &&
        r.rlengths[|r.rlengths| - 2] > r.rlengths[|r.rlengths| - 3]) &&
      (|r.rlengths| > 3 && r.effectForce > 0.0 && PeakBehind(r.rlengths) ==> r.maxLength == r.rlength) &&
      r == s.(rlength := r.rlength, effectForce := r.effectForce, rlengths := r.rlengths,
              effectForces := r.effectForces, maxLength := r.maxLength)
  {
  }

  /** The histories line up: one angle and one time per frame plus the
      initial ones, one rope sample per frame. */
  ghost predicate HistoryAligned(s: BellState)
  {
    |s.bellAngles| == |s.times| == |s.rlengths| + 1 == |s.effectForces| + 1
  }

  /** What holds of the bell between frames from construction on: a ding
      happens in contact and disarms the detector, and a clapper in contact
      sits at the limit, out of the re-arming band, so the detector stays
      disarmed for as long as the contact lasts. */
  ghost predicate Consistent(s: BellState)
  {
    HistoryAligned(s) &&
    (s.ding ==> s.onedge && !s.dingReset) &&
    (s.onedge ==> Abs(s.clapperAngle - s.bellAngle) == CLAPPER_LIMIT && !s.dingReset)
  }

  /** The clapper is far enough inside the limit for the strike detector to
      re-arm (bell_physics.py:240). */
  predicate InRearmBand(s: BellState)
  {
    Abs(s.clapperAngle - s.bellAngle) < CLAPPER_LIMIT - 0.1
  }

  /** One whole frame of `timestep` (bell_physics.py:89-258), with the
      simulated clock reading `time` before the frame. */
  function Frame(e: Elementary, gameTime: real, time: real, s: BellState): BellState
    requires Lawful(e)
  {
    Settle(e, gameTime, time, Move(e, s))
  }

  /** Everything in a frame after the motion stage: the strike check, the
      ding flag, the rope sample and the clock sample (bell_physics.py:214-258). */
  function Settle(e: Elementary, gameTime: real, time: real, m: BellState): BellState
    requires Lawful(e)
  {
    var k := RecordRope(e, Ding(Strike(m), gameTime));
    k.(times := k.times + [time + DT], bellAngles := k.bellAngles + [k.bellAngle])
  }

  /** A frame appends one sample to every history and keeps the earlier
      samples. */
  lemma FrameHistory(e: Elementary, gameTime: real, time: real, s: BellState)
    requires Lawful(e)
    ensures var r := Frame(e, gameTime, time, s);
      r.times == s.times + [time + DT] && r.bellAngles == s.bellAngles + [r.bellAngle] &&
      r.rlengths == s.rlengths + [r.rlength] && r.effectForces == s.effectForces + [r.effectForce]
  {
    var m := Move(e, s);
    MoveSpec(e, s);
    StrikeSpec(m);
    DingSpec(Strike(m), gameTime);
    RecordRopeSpec(e, Ding(Strike(m), gameTime));
  }

  /** A frame keeps the bell consistent, and can only ding while armed; a
      ding means contact and is stamped with the game clock. */
  lemma FrameSpec(e: Elementary, gameTime: real, time: real, s: BellState)
    requires Lawful(e)
    ensures var r := Frame(e, gameTime, time, s);
      (HistoryAligned(s) ==> Consistent(r)) &&
      (r.ding ==> r.onedge && !r.dingReset && r.dingTime == gameTime) &&
      (!r.ding ==> r.dingTime == s.dingTime) &&
      (r.onedge ==> Abs(r.clapperAngle - r.bellAngle) == CLAPPER_LIMIT) &&
      (!s.dingReset ==> !r.ding) &&
      r.stayHit >= s.stayHit && r.wheelForce == s.wheelForce &&
      -1.0 <= r.effectForce <= 1.0
  {
    var m := Move(e, s);
    MoveSpec(e, s);
    StrikeSpec(m);
    DingSpec(Strike(m), gameTime);
    RecordRopeSpec(e, Ding(Strike(m), gameTime));
    FrameHistory(e, gameTime, time, s);
  }

  /** The strike hysteresis over one frame: contact leaves the detector
      disarmed, only an armed detector can ding, and a detector armed after
      the frame was either re-armed inside the band or armed before and
      did not fire. */
  lemma FrameHysteresis(e: Elementary, gameTime: real, time: real, s: BellState)
    requires Lawful(e)
    ensures var r := Frame(e, gameTime, time, s);
      (r.onedge ==> !r.dingReset) &&
      (r.ding ==> s.dingReset) &&
      (r.dingReset ==> InRearmBand(r) || (s.dingReset && !r.ding))
  {
    var m := Move(e, s);
    MoveSpec(e, s);
    StrikeSpec(m);
    DingSpec(Strike(m), gameTime);
    RecordRopeSpec(e, Ding(Strike(m), gameTime));
  }

  /** A frame started from a consistent state ends in one. */
  lemma FrameConsistent(e: Elementary, gameTime: real, time: real, s: BellState)
    requires Lawful(e) && Consistent(s)
    ensures Consistent(Frame(e, gameTime, time, s))
  {
    FrameSpec(e, gameTime, time, s);
  }

  /** The state `bell_physics.init_bell.__init__` builds (bell_physics.py:40-87). */
  function Initial(e: Elementary, initAngle: real): (s: BellState)
    requires Lawful(e)
    ensures Consistent(s)
    ensures !s.onedge && !s.ding && s.dingReset && s.stayHit == 0
    ensures s.bellAngle == initAngle && s.clapperAngle == initAngle
    ensures s.velocity == 0.0 && s.clapperVelocity == 0.0 && s.wheelForce == 0.0
    ensures s.bellAngles == [initAngle] && s.times == [0.0] && s.rlengths == [] && s.effectForces == []
    ensures RopeState(s.rlength, s.effectForce) == RopeLength(e, initAngle)
  {
    var rope := RopeLength(e, initAngle);
    BellState(
      bellAngle := initAngle, velocity := 0.0, accel := 0.0, prevAngle := initAngle,
      clapperAngle := initAngle, clapperVelocity := 0.0, clapperAccel := 0.0,
      onedge := false, ding := false, dingReset := true, dingTime := 0.0,
      stayHit := 0, volumeRef := 0.0, wheelForce := 0.0,
      rlength := rope.length, effectForce := rope.effectForce, maxLength := 0.0,
      rlengths := [], effectForces := [], times := [0.0], bellAngles := [initAngle])
  }

  /** The simulated clock as last recorded in the time history. */
  function Clock(s: BellState): real
  {
    if |s.times| == 0 then 0.0 else s.times[|s.times| - 1]
  }

  /** `tr` is a run of frames: the wheel force is set to `forces[i]` before
      frame i, as the environment does before each call to `timestep`, and
      each frame starts from the clock its predecessor recorded. */
  ghost predicate IsRun(e: Elementary, gameTime: real,
                        tr: seq<BellState>, forces: seq<real>)
  {
    Lawful(e) && |tr| == |forces| + 1 &&
    forall i {:trigger forces[i]} :: 0 <= i < |forces| ==>
      tr[i + 1] == Frame(e, gameTime, Clock(tr[i]), tr[i].(wheelForce := forces[i]))
  }

  /** Every state of `tr` is consistent. */
  ghost predicate AllConsistent(tr: seq<BellState>)
  {
    forall i :: 0 <= i < |tr| ==> Consistent(tr[i])
  }

  /** No two successive states of `tr` both report a ding. */
  predicate NoDoubleDing(tr: seq<BellState>)
  {
    forall i :: 0 <= i < |tr| - 1 ==> !(tr[i].ding && tr[i + 1].ding)
  }

  /** The stay-hit counter never decreases along `tr`. */
  predicate StayHitsGrow(tr: seq<BellState>)
  {
    forall i, j :: 0 <= i <= j < |tr| ==> tr[i].stayHit <= tr[j].stayHit
  }

  /** One frame step of a run. */
  lemma RunStep(e: Elementary, gameTime: real,
                tr: seq<BellState>, forces: seq<real>, i: nat)
    requires IsRun(e, gameTime, tr, forces) && i < |forces|
    ensures tr[i + 1] == Frame(e, gameTime, Clock(tr[i]), tr[i].(wheelForce := forces[i]))
  {
  }

  /** One frame of a run takes a consistent state to a consistent state. */
  lemma RunStepConsistent(e: Elementary, gameTime: real, tr: seq<BellState>, forces: seq<real>, i: nat)
    requires IsRun(e, gameTime, tr, forces) && i < |forces| && Consistent(tr[i])
    ensures Consistent(tr[i + 1])
  {
    RunStep(e, gameTime, tr, forces, i);
    FrameConsistent(e, gameTime, Clock(tr[i]), tr[i].(wheelForce := forces[i]));
  }

  /** Along states whose every step keeps consistency, a consistent first
      state makes every state consistent. */
  lemma {:induction false} ConsistentAlong(tr: seq<BellState>, i: nat)
    requires forall k :: 0 <= k < |tr| - 1 && Consistent(tr[k]) ==> Consistent(tr[k + 1])
    requires 0 < |tr| && Consistent(tr[0]) && i < |tr|
    ensures Consistent(tr[i])
  {
    if i > 0 {
      ConsistentAlong(tr, i - 1);
    }
  }

  /** Every state of a run started from a consistent state is consistent. */
  lemma RunConsistent(e: Elementary, gameTime: real, tr: seq<BellState>, forces: seq<real>)
    requires IsRun(e, gameTime, tr, forces) && Consistent(tr[0])
    ensures AllConsistent(tr)
  {
    forall k | 0 <= k < |tr| - 1 && Consistent(tr[k])
      ensures Consistent(tr[k + 1])
    {
      RunStepConsistent(e, gameTime, tr, forces, k);
    }
    forall i | 0 <= i < |tr|
      ensures Consistent(tr[i])
    {
      ConsistentAlong(tr, i);
    }
  }

  /** The strike detector never reports two frames in a row: a ding disarms
      it, and a disarmed detector cannot fire in the next frame. */
  lemma NoConsecutiveDings(e: Elementary, gameTime: real,
                           tr: seq<BellState>, forces: seq<real>)
    requires IsRun(e, gameTime, tr, forces) && (tr[0].ding ==> !tr[0].dingReset)
    ensures NoDoubleDing(tr)
  {
    forall i | 0 <= i < |tr| - 1
      ensures !(tr[i].ding && tr[i + 1].ding)
    {
      RunStep(e, gameTime, tr, forces, i);
      FrameSpec(e, gameTime, Clock(tr[i]), tr[i].(wheelForce := forces[i]));
      if i > 0 {
        RunStep(e, gameTime, tr, forces, i - 1);
        FrameSpec(e, gameTime, Clock(tr[i - 1]), tr[i - 1].(wheelForce := forces[i - 1]));
      }
    }
  }

  /** One frame of a run under the strike hysteresis. */
  lemma RunStepHysteresis(e: Elementary, gameTime: real, tr: seq<BellState>, forces: seq<real>, i: nat)
    requires IsRun(e, gameTime, tr, forces) && i < |forces|
    ensures tr[i + 1].ding ==> tr[i].dingReset
    ensures tr[i + 1].dingReset ==> InRearmBand(tr[i + 1]) || (tr[i].dingReset && !tr[i + 1].ding)
  {
    RunStep(e, gameTime, tr, forces, i);
    FrameHysteresis(e, gameTime, Clock(tr[i]), tr[i].(wheelForce := forces[i]));
  }

  /** A ding marks the first frame of a contact: the clapper is on the edge
      in the frame that dings and was free in the frame before. */
  lemma DingOpensContact(e: Elementary, gameTime: real, tr: seq<BellState>, forces: seq<real>, j: nat)
    requires IsRun(e, gameTime, tr, forces) && Consistent(tr[0]) && 0 < j < |tr|
    ensures tr[j].ding ==> tr[j].onedge && !tr[j - 1].onedge
  {
    RunConsistent(e, gameTime, tr, forces);
    assert Consistent(tr[j - 1]) && Consistent(tr[j]);
    RunStepHysteresis(e, gameTime, tr, forces, j - 1);
  }

  /** Along states where every arming of the detector happens inside the
      re-arming band, a detector disarmed at i and armed at j was re-armed
      inside the band at some frame in (i, j]. */
  lemma {:induction false} RearmBetween(tr: seq<BellState>, i: nat, j: nat)
    requires forall k :: 0 < k < |tr| && tr[k].dingReset && !tr[k - 1].dingReset ==> InRearmBand(tr[k])
    requires i < j < |tr| && !tr[i].dingReset && tr[j].dingReset
    ensures exists k :: i < k <= j && InRearmBand(tr[k])
    decreases j - i
  {
    if tr[i + 1].dingReset {
      assert InRearmBand(tr[i + 1]);
    } else {
      RearmBetween(tr, i + 1, j);
    }
  }

  /** A ding fires at most once per contact: between any two dings of a run
      there is a frame where the clapper was back inside the re-arming band. */
  lemma DingsSeparated(e: Elementary, gameTime: real, tr: seq<BellState>, forces: seq<real>, i: nat, j: nat)
    requires IsRun(e, gameTime, tr, forces) && Consistent(tr[0]) && i < j < |tr|
    requires tr[i].ding && tr[j].ding
    ensures exists k :: i < k < j && InRearmBand(tr[k])
  {
    RunConsistent(e, gameTime, tr, forces);
    assert Consistent(tr[i]);
    forall k | 0 < k < |tr| && tr[k].dingReset && !tr[k - 1].dingReset
      ensures InRearmBand(tr[k])
    {
      RunStepHysteresis(e, gameTime, tr, forces, k - 1);
    }
    RunStepHysteresis(e, gameTime, tr, forces, j - 1);
    RearmBetween(tr, i, j - 1);
  }

  /** One frame of a run never lowers the stay-hit counter. */
  lemma RunStepStayHit(e: Elementary, gameTime: real, tr: seq<BellState>, forces: seq<real>, i: nat)
    requires IsRun(e, gameTime, tr, forces) && i < |forces|
    ensures tr[i].stayHit <= tr[i + 1].stayHit
  {
    RunStep(e, gameTime, tr, forces, i);
    FrameSpec(e, gameTime, Clock(tr[i]), tr[i].(wheelForce := forces[i]));
  }

  /** A counter that no single step lowers never decreases. */
  lemma {:induction false} StayHitsAlong(tr: seq<BellState>, i: nat, j: nat)
    requires forall k :: 0 <= k < |tr| - 1 ==> tr[k].stayHit <= tr[k + 1].stayHit
    requires i <= j < |tr|
    ensures tr[i].stayHit <= tr[j].stayHit
    decreases j - i
  {
    if i < j {
      StayHitsAlong(tr, i + 1, j);
    }
  }

  /** The stay-hit counter never decreases along a run. */
  lemma StayHitMonotone(e: Elementary, gameTime: real, tr: seq<BellState>, forces: seq<real>)
    requires IsRun(e, gameTime, tr, forces)
    ensures StayHitsGrow(tr)
  {
    forall k | 0 <= k < |tr| - 1
      ensures tr[k].stayHit <= tr[k + 1].stayHit
    {
      RunStepStayHit(e, gameTime, tr, forces, k);
    }
    forall i, j | 0 <= i <= j < |tr|
      ensures tr[i].stayHit <= tr[j].stayHit
    {
      StayHitsAlong(tr, i, j);
    }
  }

  /** `b` records one clock sample `DT` after the last of `a`, keeps the
      earlier samples, and adds one angle and one rope sample. */
  ghost predicate Extends(a: BellState, b: BellState)
  {
    b.times == a.times + [Clock(a) + DT] &&
    |b.bellAngles| == |a.bellAngles| + 1 && |b.rlengths| == |a.rlengths| + 1
  }

  /** Each frame of a run extends the histories of the previous state. */
  lemma RunExtends(e: Elementary, gameTime: real, tr: seq<BellState>, forces: seq<real>, i: nat)
    requires IsRun(e, gameTime, tr, forces) && i < |forces|
    ensures Extends(tr[i], tr[i + 1])
  {
    RunStep(e, gameTime, tr, forces, i);
    FrameHistory(e, gameTime, Clock(tr[i]), tr[i].(wheelForce := forces[i]));
  }

  /** Along states that each extend the previous one, state i has i more
      clock samples and keeps the initial ones. */
  lemma {:induction false} ExtendsHistory(tr: seq<BellState>, i: nat)
    requires forall k :: 0 <= k < |tr| - 1 ==> Extends(tr[k], tr[k + 1])
    requires i < |tr|
    ensures |tr[i].times| == |tr[0].times| + i && tr[i].times[..|tr[0].times|] == tr[0].times
    ensures |tr[i].bellAngles| == |tr[0].bellAngles| + i && |tr[i].rlengths| == |tr[0].rlengths| + i
  {
    if i > 0 {
      ExtendsHistory(tr, i - 1);
      assert Extends(tr[i - 1], tr[i]);
      assert tr[i].times[..|tr[0].times|] == tr[i - 1].times[..|tr[0].times|];
    }
  }

  /** Each frame records one clock sample `DT` after the previous one and
      keeps the earlier history, so the clock history of a run of n frames
      is the initial history extended by n samples. */
  lemma RunHistoryAt(e: Elementary, gameTime: real, tr: seq<BellState>, forces: seq<real>, i: nat)
    requires IsRun(e, gameTime, tr, forces) && i < |tr|
    ensures |tr[i].times| == |tr[0].times| + i && tr[i].times[..|tr[0].times|] == tr[0].times
    ensures |tr[i].bellAngles| == |tr[0].bellAngles| + i && |tr[i].rlengths| == |tr[0].rlengths| + i
    ensures i > 0 ==> Clock(tr[i]) == Clock(tr[i - 1]) + DT
  {
    forall k | 0 <= k < |tr| - 1
      ensures Extends(tr[k], tr[k + 1])
    {
      RunExtends(e, gameTime, tr, forces, k);
    }
    ExtendsHistory(tr, i);
  }
}
