/** The fixed geometry and mass constants that the bell's constructor sets
    and that nothing changes afterwards (bell_physics.py:42-83). */
module BellGeometry {
  import opened RealMath

  /** Radius of the wheel, in metres. */
  const RADIUS: real := 0.5
  /** Position of the garter hole relative to the stay. */
  const GARTER_HOLE: real := PI / 4.0
  /** Distance from the bell pivot to the bell's centre of mass. */
  const L_1: real := 0.7 * RADIUS
  /** Coefficient in the bell's moment of inertia. */
  const K_1: real := 1.5
  /** Mass of the bell, in kg. */
  const M_1: real := 500.0
  /** How far past the top the bell may swing before it meets the stay. */
  const STAY_ANGLE: real := 0.15
  /** Friction coefficient of the bell. */
  const FRICTION: real := 0.025
  /** Distance of the clapper pivot from the centre of the bell. */
  const P: real := 0.1 * RADIUS
  /** Length of the clapper. */
  const L_2: real := 0.65 * RADIUS
  /** Coefficient in the clapper's moment of inertia. */
  const K_2: real := 1.5
  /** Mass of the clapper. */
  const M_2: real := 0.05 * M_1
  /** Largest angle between clapper and bell. */
  const CLAPPER_LIMIT: real := 0.3
  /** Friction coefficient of the clapper. */
  const CLAPPER_FRICTION: real := 0.1 * FRICTION

  /** The angle at which the bell meets the stay, on either side. */
  const STAY_LIMIT: real := PI + STAY_ANGLE
}
