/** The training environment of main.py: `run_bell`, which drives one bell
    frame by frame from an actuator force, and the three ways an action is
    turned into that force. The pseudo-random draws of `random.random()` are
    parameters. */
module Environment {
  import opened RealMath
  import opened BellGeometry
  import opened Rope
  import opened BellDynamics
  import opened BellPhysics

  /** Largest pull on the rope, in newtons (`run_bell.wheel_force`). */
  const MAX_FORCE: real := 600.0

  /** `continuous_actuator_force`: the first component of the action, the
      signal that the other two actuators threshold, the discrete one at one
      half and the random one at its draw. */
  function ContinuousActuatorForce(action: seq<real>): (f: real)
    requires |action| > 0
    ensures DiscreteActuatorForce(action) == (if f > 0.5 then 1.0 else 0.0)
    ensures forall draw :: ProbablyActuatorForce(action, draw) == (if f > draw then 1.0 else 0.0)
  {
    action[0]
  }

  /** `discrete_actuator_force`: full pull exactly when the first component
      exceeds one half. */
  function DiscreteActuatorForce(action: seq<real>): (f: real)
    requires |action| > 0
    ensures f == 1.0 || f == 0.0
    ensures f == 1.0 <==> action[0] > 0.5
  {
    if action[0] > 0.5 then 1.0 else 0.0
  }

  /** `probably_actuator_force`: full pull exactly when the first component
      exceeds the draw `draw` of `random.random()`. */
  function ProbablyActuatorForce(action: seq<real>, draw: real): (f: real)
    requires |action| > 0
    ensures f == 1.0 || f == 0.0
    ensures f == 1.0 <==> action[0] > draw
  {
    if action[0] > draw then 1.0 else 0.0
  }

  /** The random actuator with the draw fixed at one half is the discrete one. */
  lemma ProbablyAtHalfIsDiscrete(action: seq<real>)
    requires |action| > 0
    ensures ProbablyActuatorForce(action, 0.5) == DiscreteActuatorForce(action)
  {
  }

  /** A larger draw never gives a larger force, and for draws in [0, 1) an
      action of at least 1 always pulls and one of at most 0 never does. */
  lemma ProbablyMonotone(action: seq<real>, d1: real, d2: real)
    requires |action| > 0 && d1 <= d2
    ensures ProbablyActuatorForce(action, d2) <= ProbablyActuatorForce(action, d1)
    ensures 0.0 <= d1 < 1.0 && action[0] >= 1.0 ==> ProbablyActuatorForce(action, d1) == 1.0
    ensures 0.0 <= d1 < 1.0 && action[0] <= 0.0 ==> ProbablyActuatorForce(action, d1) == 0.0
  {
  }

  /** `run_bell.step` on values (main.py:26-35): the wheel force is set from
      the actuator, one frame runs, and if the draw exceeds one half the
      wheel force is replaced by the full pull in the direction the rope
      can act. */
  function AssistedFrame(e: Elementary, gameTime: real, time: real, s: BellState,
                         force: real, draw: real): BellState
    requires Lawful(e)
  {
    var k := Frame(e, gameTime, time, s.(wheelForce := force * MAX_FORCE));
    if draw > 0.5 then k.(wheelForce := k.effectForce * MAX_FORCE) else k
  }

  /** The frame runs with the actuator's force; afterwards the wheel force
      is that same force, or after a draw above one half the assisted pull,
      which is never more than the largest pull. An actuator force in [-1, 1]
      keeps the wheel force within the largest pull either way. Nothing but
      the wheel force differs from the plain frame. */
  lemma AssistedFrameSpec(e: Elementary, gameTime: real, time: real, s: BellState,
                          force: real, draw: real)
    requires Lawful(e)
    ensures var k := Frame(e, gameTime, time, s.(wheelForce := force * MAX_FORCE));
      var r := AssistedFrame(e, gameTime, time, s, force, draw);
      r == k.(wheelForce := r.wheelForce) &&
      (draw <= 0.5 ==> r.wheelForce == force * MAX_FORCE) &&
      (draw > 0.5 ==> r.wheelForce == r.effectForce * MAX_FORCE && Abs(r.wheelForce) <= MAX_FORCE) &&
      (-1.0 <= force <= 1.0 ==> Abs(r.wheelForce) <= MAX_FORCE)
  {
    FrameSpec(e, gameTime, time, s.(wheelForce := force * MAX_FORCE));
  }

  /** A step started from a consistent state whose clock history ends at
      `time` and whose strike stamp is 0 ends consistent, with the clock
      history ending one frame later and the stamp still 0 when the game
      clock reads 0. */
  lemma AssistedStepKeeps(e: Elementary, time: real, s: BellState, force: real, draw: real)
    requires Lawful(e) && Consistent(s) && Clock(s) == time && s.dingTime == 0.0
    ensures var r := AssistedFrame(e, 0.0, time, s, force, draw);
      Consistent(r) && Clock(r) == time + DT && r.dingTime == 0.0
  {
    var a := s.(wheelForce := force * MAX_FORCE);
    FrameHistory(e, 0.0, time, a);
    FrameSpec(e, 0.0, time, a);
  }

  /** The assisted pull of one step never reaches the next frame: `step`
      overwrites the wheel force before `timestep` reads it. */
  lemma AssistOverwritten(e: Elementary, gameTime: real, time: real, s: BellState,
                          w: real, force: real, draw: real)
    requires Lawful(e)
    ensures AssistedFrame(e, gameTime, time, s.(wheelForce := w), force, draw) ==
            AssistedFrame(e, gameTime, time, s, force, draw)
  {
    assert s.(wheelForce := w).(wheelForce := force * MAX_FORCE) == s.(wheelForce := force * MAX_FORCE);
  }

  /** `run_bell`: the physics, one bell released at angle 0 and the step
      counter; its largest pull `wheel_force` is `MAX_FORCE`. */
  class RunBell {
    const phy: Physics
    const bell: Bell
    /** Episode length in seconds; kept for the caller, unused here. */
    const maxTime: real
    var count: nat

    /** The bell is valid, its history ends at the physics clock, both
        counters agree, and the game clock that stamps strikes stays at 0,
        so every strike is stamped 0. */
    ghost predicate Valid()
      reads this, bell, phy
    {
      bell.Valid() &&
      Clock(bell.State()) == phy.time && count == phy.count &&
      phy.gameTime == 0.0 && bell.dingTime == 0.0
    }

    /** `run_bell.__init__` (main.py:18-24). */
    constructor (e: Elementary)
      requires Lawful(e)
      ensures Valid() && fresh(phy) && fresh(bell)
      ensures bell.math == e && bell.State() == Initial(e, 0.0)
      ensures count == 0 && maxTime == 120.0
    {
      var p := new Physics();
      phy := p;
      bell := new Bell(e, p, 0.0);
      count := 0;
      maxTime := 120.0;
    }

    /** `run_bell.step` (main.py:26-35): `force` is the actuator's output
        and `draw` the value `random.random()` returns. */
    method Step(force: real, draw: real)
      requires Valid()
      modifies bell, phy`time, phy`count, this`count
      ensures Valid()
      ensures bell.State() == AssistedFrame(bell.math, 0.0, old(phy.time), old(bell.State()), force, draw)
      ensures phy.time == old(phy.time) + DT
      ensures count == old(count) + 1 && phy.count == old(phy.count) + 1
    {
      ghost var s0, t0 := bell.State(), phy.time;
      bell.PulledTimestep(phy, force * MAX_FORCE);
      phy.count := phy.count + 1;
      if draw > 0.5 {
        bell.SetWheelForce(bell.effectForce * MAX_FORCE);
      }
      count := count + 1;
      assert bell.State() == AssistedFrame(bell.math, 0.0, t0, s0, force, draw);
      AssistedStepKeeps(bell.math, t0, s0, force, draw);
    }

    /** `run_bell.get_scaled_state` (main.py:37-40): the angle as a fraction
        of the stay limit, and the velocity unscaled. */
    function ScaledState(): (r: seq<real>)
      reads bell
      ensures |r| == 2 && r[0] * STAY_LIMIT == bell.bellAngle && r[1] == bell.velocity
      ensures -STAY_LIMIT <= bell.bellAngle <= STAY_LIMIT ==> -1.0 <= r[0] <= 1.0
    {
      [bell.bellAngle / (PI + STAY_ANGLE), bell.velocity / 1.0]
    }
  }
}
