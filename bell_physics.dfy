/** The objects of bell_physics.py: `init_physics`, the simulation clock and
    constants, and `init_bell`, whose `timestep` updates the bell in place.
    Every method is proved to leave the bell in exactly the state the
    matching pure stage in BellDynamics describes. */
module BellPhysics {
  import opened RealMath
  import opened BellGeometry
  import opened Rope
  import opened BellDynamics

  /** `init_physics` (bell_physics.py:10-29), reduced to what the bell uses. */
  class Physics {
    /** Gravitational acceleration; never changed. */
    const g: real := G
    /** Fixed step of one frame at 60 frames per second; never changed. */
    const dt: real := DT
    /** Simulated time, advanced by `Bell.Timestep`. */
    var time: real
    /** Clock that stamps strikes; nothing in the model advances it. */
    var gameTime: real
    /** Step counter, advanced by `RunBell.Step`. */
    var count: nat

    constructor ()
      ensures g == 9.8 && dt == 1.0 / 60.0
      ensures time == 0.0 && gameTime == 0.0 && count == 0
    {
      count := 0;
      gameTime := 0.0;
      time := 0.0;
    }
  }

  /** `init_bell`: angle, velocity and acceleration of bell and clapper,
      the strike detector, the rope and the histories. */
  class Bell {
    /** The numerical library the bell computes with. */
    const math: Elementary

    var bellAngle: real
    var velocity: real
    var accel: real
    var prevAngle: real
    var clapperAngle: real
    var clapperVelocity: real
    var clapperAccel: real
    var onedge: bool
    var ding: bool
    var dingReset: bool
    var dingTime: real
    var stayHit: nat
    var volumeRef: real
    var wheelForce: real
    var rlength: real
    var effectForce: real
    var maxLength: real
    var rlengths: seq<real>
    var effectForces: seq<real>
    var times: seq<real>
    var bellAngles: seq<real>

    /** The bell's fields as one value. */
    function State(): BellState
      reads this
    {
      BellState(bellAngle, velocity, accel, prevAngle, clapperAngle, clapperVelocity, clapperAccel,
                onedge, ding, dingReset, dingTime, stayHit, volumeRef, wheelForce,
                rlength, effectForce, maxLength, rlengths, effectForces, times, bellAngles)
    }

    ghost predicate Valid()
      reads this
    {
      Lawful(math) && Consistent(State())
    }

    /** `init_bell.__init__` (bell_physics.py:40-87); `phy` is accepted and
        not used, as in the source. */
    constructor (e: Elementary, phy: Physics, initAngle: real)
      requires Lawful(e)
      ensures math == e && State() == Initial(e, initAngle) && Valid()
    {
      math := e;
      onedge := false;
      ding, dingReset := false, true;
      dingTime := 0.0;
      accel := 0.0;
      velocity := 0.0;
      bellAngle := initAngle;
      prevAngle := initAngle;
      maxLength := 0.0;
      var rope := RopeLength(e, initAngle);
      rlength, effectForce := rope.length, rope.effectForce;
      rlengths, effectForces := [], [];
      wheelForce := 0.0;
      clapperAccel := 0.0;
      clapperVelocity := 0.0;
      clapperAngle := initAngle;
      volumeRef := 0.0;
      bellAngles := [initAngle];
      times := [0.0];
      stayHit := 0;
    }

    /** Forward Euler with the stopping rule (bell_physics.py:108-114,
        repeated at 151-157). */
    method EulerStep()
      modifies this
      ensures State() == EulerBell(old(State()))
    {
      velocity := Euler(velocity, accel);
      if Abs(velocity) < 0.01 && wheelForce == 0.0 {
        velocity := 0.5 * velocity;
      }
      prevAngle := bellAngle;
      bellAngle := Euler(bellAngle, velocity);
    }

    /** The stay check past the top on the positive side
        (bell_physics.py:117-121, repeated at 160-164). */
    method UpperStay()
      modifies this
      ensures State() == UpperBounce(old(State()))
    {
      if bellAngle > PI + STAY_ANGLE {
        var velocity' := -0.7 * velocity;
        velocity := velocity';
        bellAngle := 2.0 * PI + 2.0 * STAY_ANGLE - bellAngle;
        if Abs(velocity') > 1.0 {
          stayHit := stayHit + 1;
        }
      }
    }

    /** The stay check on the negative side (bell_physics.py:122-127,
        repeated at 166-170). */
    method LowerStay()
      modifies this
      ensures State() == LowerBounce(old(State()))
    {
      if bellAngle < -PI - STAY_ANGLE {
        var velocity' := -0.7 * velocity;
        velocity := velocity';
        bellAngle := -2.0 * PI - 2.0 * STAY_ANGLE - bellAngle;
        if Abs(velocity') > 1.0 {
          stayHit := stayHit + 1;
        }
      }
    }

    /** The two stay checks (bell_physics.py:117-127, repeated at 160-170). */
    method StayCheck()
      modifies this
      ensures State() == StayBounce(old(State()))
    {
      UpperStay();
      LowerStay();
    }

    /** The clapper update of the free branch (bell_physics.py:130-138). */
    method FreeClapperStep()
      requires Lawful(math)
      modifies this
      ensures State() == FreeClapper(math, old(State()))
    {
      var accel' := ClapperAccel(math, State());
      var velocity' := Euler(clapperVelocity, accel');
      clapperVelocity := velocity';
      clapperAccel := accel' - CLAPPER_FRICTION * (velocity' - velocity);
      clapperAngle := Euler(clapperAngle, velocity');
    }

    /** The free branch of `timestep` (bell_physics.py:92-138). */
    method FreeStep()
      requires Lawful(math)
      modifies this
      ensures State() == FreeMode(math, old(State()))
    {
      accel := FreeBellAccel(math, State());
      EulerStep();
      StayCheck();
      FreeClapperStep();
    }

    /** The release-to-rest snap (bell_physics.py:180-182). */
    method SnapToStay()
      modifies this
      ensures State() == Snap(old(State()))
    {
      if Abs(bellAngle + PI + STAY_ANGLE) < 0.01 || Abs(bellAngle - PI - STAY_ANGLE) < 0.01 {
        velocity := 0.0;
        bellAngle := Sign(bellAngle) * (PI + STAY_ANGLE);
      }
    }

    /** The clapper leaves the rim (bell_physics.py:187-191). */
    method ReleaseClapper()
      modifies this
      ensures State() == Release(old(State()))
    {
      onedge := false;
      clapperVelocity := Euler(clapperVelocity, clapperAccel);
      clapperAngle := Euler(clapperAngle, clapperVelocity);
    }

    /** Bell and clapper move as one body (bell_physics.py:195-211). */
    method RigidStep(oldVelocity: real, oldAngle: real)
      requires Lawful(math)
      modifies this
      ensures State() == Rigid(math, oldVelocity, oldAngle, old(State()))
    {
      var accel' := RigidBellAccel(math, oldAngle, State());
      var velocity' := Euler(oldVelocity, accel');
      accel := accel';
      clapperAccel := accel';
      velocity := velocity';
      bellAngle := Euler(oldAngle, velocity');
      clapperVelocity := velocity';
      clapperAngle := Euler(clapperAngle, velocity');
    }

    /** The decision of the attached branch (bell_physics.py:179-211);
        `oldVelocity` and `oldAngle` are the values before the trial step. */
    method ResolveContact(oldVelocity: real, oldAngle: real)
      requires Lawful(math)
      modifies this
      ensures State() == Resolve(math, oldVelocity, oldAngle, old(State()))
    {
      if Abs(velocity) < 0.05 && wheelForce == 0.0 {
        SnapToStay();
      } else if ClapperLeaves(State()) {
        ReleaseClapper();
      } else {
        RigidStep(oldVelocity, oldAngle);
      }
    }

    /** The trial step of the attached branch (bell_physics.py:143-177). */
    method AttachedTrialStep()
      requires Lawful(math)
      modifies this
      ensures State() == AttachedTrial(math, old(State()))
    {
      accel := TrialBellAccel(math, State());
      EulerStep();
      StayCheck();
      TrialClapperStep();
    }

    /** The clapper acceleration of the trial step, friction included
        (bell_physics.py:174-177). */
    method TrialClapperStep()
      requires Lawful(math)
      modifies this
      ensures State() == TrialClapper(math, old(State()))
    {
      clapperAccel := ClapperAccel(math, State());
      clapperAccel := clapperAccel - CLAPPER_FRICTION * (clapperVelocity - velocity);
    }

    /** The attached branch of `timestep` (bell_physics.py:141-211). */
    method AttachedStep()
      requires Lawful(math)
      modifies this
      ensures State() == AttachedMode(math, old(State()))
    {
      var oldVelocity, oldAngle := velocity, bellAngle;
      AttachedTrialStep();
      ResolveContact(oldVelocity, oldAngle);
    }

    /** The clamp and velocity collapse of a strike, with the clapper put
        `limit` from the bell (bell_physics.py:216-222, repeated at 224-230). */
    method CollideAt(limit: real)
      modifies this
      ensures State() == Collide(old(State()), limit)
    {
      if dingReset {
        volumeRef := 0.2 * Abs(clapperVelocity - velocity);
      }
      var avgVelocity := CommonVelocity(velocity, clapperVelocity);
      clapperVelocity := avgVelocity;
      velocity := avgVelocity;
      clapperAngle := limit + bellAngle;
      onedge := true;
    }

    /** The strike check (bell_physics.py:214-232). */
    method CheckStrike()
      modifies this
      ensures State() == Strike(old(State()))
    {
      if clapperAngle - bellAngle < -CLAPPER_LIMIT {
        CollideAt(-CLAPPER_LIMIT);
      } else if clapperAngle - bellAngle > CLAPPER_LIMIT {
        CollideAt(CLAPPER_LIMIT);
      } else {
        onedge := false;
      }
    }

    /** The ding flag and its re-arming (bell_physics.py:233-241). */
    method CheckDing(gameTime: real)
      modifies this
      ensures State() == Ding(old(State()), gameTime)
    {
      if onedge && dingReset {
        ding := true;
        dingReset := false;
        dingTime := gameTime;
      } else {
        ding := false;
      }
      if Abs(clapperAngle - bellAngle) < CLAPPER_LIMIT - 0.1 {
        dingReset := true;
      }
    }

    /** The rope sample (bell_physics.py:243-244). */
    method SampleRopeStep()
      requires Lawful(math)
      modifies this
      ensures State() == SampleRope(math, old(State()))
    {
      var rope := RopeLength(math, bellAngle);
      rlength, effectForce := rope.length, rope.effectForce;
      rlengths := rlengths + [rope.length];
      effectForces := effectForces + [rope.effectForce];
    }

    /** The backstroke maximum (bell_physics.py:246-248). */
    method TrackPeakStep()
      modifies this
      ensures State() == TrackPeak(old(State()))
    {
      if |rlengths| > 3 {
        if effectForce > 0.0 && PeakBehind(rlengths) {
          maxLength := rlengths[|rlengths| - 1];
        }
      }
    }

    /** Rope sample and backstroke maximum (bell_physics.py:243-248). */
    method RecordRopeSample()
      requires Lawful(math)
      modifies this
      ensures State() == RecordRope(math, old(State()))
    {
      SampleRopeStep();
      TrackPeakStep();
    }

    /** Sets the pull on the rope, as `run_bell.step` does on either side of
        the call to `timestep` (main.py:28 and 33). */
    method SetWheelForce(w: real)
      modifies this
      ensures State() == old(State()).(wheelForce := w)
    {
      wheelForce := w;
    }

    /** The motion stage: free or attached mode (bell_physics.py:92-211). */
    method MoveStep()
      requires Lawful(math)
      modifies this
      ensures State() == Move(math, old(State()))
    {
      if !onedge {
        FreeStep();
      } else {
        AttachedStep();
      }
    }

    /** The clock advance and the last two history samples
        (bell_physics.py:256-258). */
    method AdvanceClock(phy: Physics)
      modifies this, phy`time
      ensures phy.time == old(phy.time) + phy.dt
      ensures State() == old(State()).(times := old(State()).times + [old(phy.time) + DT],
                                       bellAngles := old(State()).bellAngles + [bellAngle])
    {
      phy.time := phy.time + phy.dt;
      times := times + [phy.time];
      bellAngles := bellAngles + [bellAngle];
    }

    /** The stages after the motion (bell_physics.py:214-258). */
    method SettleStep(phy: Physics)
      requires Lawful(math)
      modifies this, phy`time
      ensures State() == Settle(math, phy.gameTime, old(phy.time), old(State()))
      ensures phy.time == old(phy.time) + phy.dt
    {
      ghost var s0 := State();
      CheckStrike();
      CheckDing(phy.gameTime);
      RecordRopeSample();
      ghost var s3 := State();
      AdvanceClock(phy);
      assert s3 == RecordRope(math, Ding(Strike(s0), phy.gameTime));
    }

    /** `init_bell.timestep` (bell_physics.py:89-258): one frame, which also
        advances the simulated clock of `phy` by one step. */
    method Timestep(phy: Physics)
      requires Valid()
      modifies this, phy`time
      ensures Valid()
      ensures State() == Frame(math, phy.gameTime, old(phy.time), old(State()))
      ensures phy.time == old(phy.time) + phy.dt
    {
      MoveStep();
      SettleStep(phy);
      FrameConsistent(math, phy.gameTime, old(phy.time), old(State()));
    }

    /** `timestep` run with the rope pulled by `w`, as `run_bell.step` runs
        it (main.py:28-29). */
    method PulledTimestep(phy: Physics, w: real)
      requires Valid()
      modifies this, phy`time
      ensures Valid()
      ensures State() == Frame(math, phy.gameTime, old(phy.time), old(State()).(wheelForce := w))
      ensures phy.time == old(phy.time) + phy.dt
    {
      SetWheelForce(w);
      Timestep(phy);
    }
  }
}
