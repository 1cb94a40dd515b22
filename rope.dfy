/** Rope kinematics: the length of rope above the garter hole and the sign of
    the effective pull, as functions of the bell angle (bell_physics.py:260-283). */
module Rope {
  import opened RealMath
  import opened BellGeometry

  /** The pair returned by `ropelength`. */
  datatype RopeState = RopeState(length: real, effectForce: real)

  /** Angle of the garter hole measured from the top of the wheel. */
  function HoleAngle(bellAngle: real): real
  {
    bellAngle - PI + GARTER_HOLE
  }

  /** The fully-handstroke branch. */
  function Handstroke(hole: real): RopeState
  {
    RopeState(RADIUS * hole + RADIUS, -1.0)
  }

  /** The fully-backstroke branch. */
  function Backstroke(hole: real): RopeState
  {
    RopeState(RADIUS * (-PI / 2.0 - hole) + RADIUS, 1.0)
  }

  /** A non-zero vector divided by its `np.linalg.norm`. */
  function Unit(e: Elementary, x: real, y: real): (v: (real, real))
    requires Lawful(e) && Sq(x) + Sq(y) > 0.0
    ensures Sq(v.0) + Sq(v.1) == 1.0
  {
    var n := Norm(e, x, y);
    NormPositive(e, x, y);
    Normalized(x, y, n);
    (x / n, y / n)
  }

  /** The transition branch: the rim point of the wheel and the tangential
      direction there, both normalised; the effective force is minus their
      dot product and the length is the distance of the rim point. */
  function Transition(e: Elementary, hole: real): (r: RopeState)
    requires Lawful(e)
    ensures -1.0 <= r.effectForce <= 1.0
    ensures r.length >= 0.0
  {
    var s, c := e.sin(hole), e.cos(hole);
    var xpos := RADIUS + RADIUS * s;
    var ypos := RADIUS - RADIUS * c;
    RimPointAwayFromOrigin(s, c);
    var vec1 := Unit(e, xpos, ypos);
    var vec2 := Unit(e, c, s);
    UnitDot(vec1, vec2);
    var d2 := Sq(xpos) + Sq(ypos);
    assert d2 >= 0.0;
    var length := e.sqrt(d2);
    assert length >= 0.0;
    RopeState(length, -Dot(vec1, vec2))
  }

  /** `ropelength`: the rope length above the garter hole and the effective
      force direction (-1 handstroke, +1 backstroke). */
  function RopeLength(e: Elementary, bellAngle: real): (r: RopeState)
    requires Lawful(e)
    ensures -1.0 <= r.effectForce <= 1.0
    ensures HoleAngle(bellAngle) > 0.0 ==>
      r.effectForce == -1.0 && r.length == RADIUS * HoleAngle(bellAngle) + RADIUS && r.length > RADIUS
    ensures HoleAngle(bellAngle) <= -PI / 2.0 ==> r.effectForce == 1.0 && r.length >= RADIUS
    ensures -PI / 2.0 < HoleAngle(bellAngle) <= 0.0 ==> r.length >= 0.0
  {
    var hole := HoleAngle(bellAngle);
    if hole > 0.0 then Handstroke(hole)
    else if hole <= -PI / 2.0 then Backstroke(hole)
    else Transition(e, hole)
  }

  /** The transition formulas agree with the neighbouring branches at both
      boundary angles, in length and in effective force. */
  lemma RopeLengthContinuous(e: Elementary)
    requires Lawful(e)
    ensures Transition(e, 0.0) == Handstroke(0.0) == RopeState(RADIUS, -1.0)
    ensures Transition(e, -PI / 2.0) == Backstroke(-PI / 2.0) == RopeState(RADIUS, 1.0)
  {
    SqrtOfSquare(e, RADIUS);
    SqrtOfSquare(e, 1.0);
    assert Sq(RADIUS) + Sq(0.0) == Sq(RADIUS);
    assert Sq(0.0) + Sq(RADIUS) == Sq(RADIUS);
    assert Sq(1.0) + Sq(0.0) == Sq(1.0);
    assert Sq(0.0) + Sq(-1.0) == Sq(1.0);
  }

  lemma NormPositive(e: Elementary, x: real, y: real)
    requires Lawful(e) && Sq(x) + Sq(y) > 0.0
    ensures Norm(e, x, y) > 0.0
  {
  }

  /** The rim point (1 + sin, 1 - cos) never reaches the origin on the unit circle. */
  lemma RimPointAwayFromOrigin(s: real, c: real)
    requires Sq(s) + Sq(c) == 1.0 && -1.0 <= s <= 1.0 && -1.0 <= c <= 1.0
    ensures Sq(RADIUS + RADIUS * s) + Sq(RADIUS - RADIUS * c) > 0.0
  {
    if s > -1.0 {
      SqPositive(RADIUS + RADIUS * s);
    } else {
      assert Sq(s) == 1.0;
      SqPositive(RADIUS - RADIUS * c);
    }
  }
}
