/** The simulation's tuning constants. The pool radius is derived from the
    window width in the program, so it is a parameter (poolR) here and the
    constants derived from it are functions of it. */
module Constants {
  import opened Geometry

  /** Dead zone of the cat's controller, in radians (about one degree). */
  const AngleAllowance: real := 0.02
  /** Distance the mouse covers per tick. */
  const SimSpeed: real := 1.0
  /** Diameter of the drawn entities; half of it is the collision threshold. */
  const SimSize: real := 8.0
  const CatSpeedMultiplier: real := 4.0

  /** Spiral strategy. */
  const SpiralCenterThreshold: real := 2.0
  const SpiralDashFrames: int := 10
  const SpiralRadialWeight: real := 1.0
  const SpiralTangentialWeight: real := 0.8
  const CatSettleThreshold: real := 0.04
  const CatSettleFrames: int := 30

  /** Optimal circling strategy. */
  const OppositeAngleTolerance: real := 0.05

  /** Radius inside which the mouse out-turns the cat. */
  function CirclingBoundary(poolR: real): (r: real)
    ensures 0.0 < poolR ==> 0.0 < r < poolR
  {
    poolR / CatSpeedMultiplier
  }

  /** Radius beyond which a straight dash beats the cat's half lap. */
  function DashBoundary(poolR: real): (r: real)
    ensures 0.0 < poolR ==> 0.0 < r < poolR
  {
    poolR * (1.0 - PI / 4.0)
  }

  /** The middle of the band between the two boundaries. For a positive pool
      radius the dash boundary is the INNER edge of that band. */
  function OptimalCircleRadius(poolR: real): (r: real)
    ensures 0.0 < poolR ==> 0.0 < DashBoundary(poolR) < r < CirclingBoundary(poolR)
  {
    (CirclingBoundary(poolR) + DashBoundary(poolR)) / 2.0
  }
}
