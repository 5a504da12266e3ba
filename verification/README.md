# Cat and mouse: a verified model of the pursuit engine

A mouse swims in a circular pool of radius R and tries to reach the edge.
A cat runs along the edge, four times as fast, and tries to be where the mouse
lands. The program runs one of five evasion strategies for the mouse. Each
frame, while the simulation is running, it:

1. moves the mouse by the chosen strategy;
2. turns the cat toward the mouse's polar angle;
3. declares the mouse escaped once it is at least R from the centre;
4. declares it caught once it is within 4 units of the cat. The collision check
   runs last, so a capture overrides an escape found on the same frame.

The model is in Dafny, one module per part of the engine:

| file | module | what it holds |
|---|---|---|
| `geometry.dfy` | `Geometry` | the host's `Math` functions, angle normalisation, the radial projection onto the edge and area-uniform sampling of a disc (`utils.js`) |
| `constants.dfy` | `Constants` | the tuning constants, and the radii derived from R |
| `strategies.dfy` | `Strategies` | one pure step function per strategy, and per phase of the two phase machines, with their properties |
| `mouse.dfy` | `Evader` | class `Mouse`: the mouse record the strategies update in place. Each method is proved to leave the record as the matching step function computes |
| `runs.dfy` | `StrategyRuns` | properties of the strategies over many frames |
| `pursuit.dfy` | `Pursuit` | the cat's controller as a pure function, with its properties |
| `simulation.dfy` | `Simulator` | the idle/running/terminal machine as pure functions, with its properties; class `Simulation` holds the program's global state, with one method per top-level function |

The host's square root, sine, cosine and arctangent are tables carried in a
`MathLib` value. Only three laws about them are assumed, as the requirement
`Lawful()`:

- the square root of x ≥ 0 is nonnegative and squares to x;
- sin² + cos² = 1;
- atan2(sin a, cos a) is a brought into (−π, π].

Everything else is proved from these laws. Random draws, the pointer position
and the frame rate are parameters.

Behaviour of the code worth noting:

- The dash boundary R(1 − π/4) ≈ 0.215 R lies inside the circling boundary
  R/4 (`Constants.OptimalCircleRadius`), so the circling strategy's outward
  walk ends as soon as it starts (`StrategyRuns.OppositeCatStartsDash`).
- The cat's recorded angular velocity is the raw difference of two normalised
  angles. A step across the ±π seam is recorded a whole turn off
  (`Pursuit.CatVelocityAtSeam`).
- A reset draws the cat's angle from [0, 2π). The recorded previous angle and
  velocity survive the reset (`Simulator.Reset`, `Simulator.ResetClears`).
- Choosing a strategy sets the state to running whatever the current state
  (`Simulator.Start`); in the program the strategy buttons are visible only
  while idle. A frame in the terminal state does nothing
  (`Simulator.TickOutcome`).
- The escape check runs before the collision check, so a capture wins
  (`Simulator.TickOutcome`).

## Model

| member | source | states |
|---|---|---|
| Constants.OptimalCircleRadius | sketch.js:21-23 | for a positive pool radius the circling radius lies strictly between the dash boundary (the inner edge) and the circling boundary, both positive |
| Constants.CirclingBoundary | sketch.js:21 | for a positive pool radius the circling boundary R/4 lies strictly inside the pool |
| Constants.DashBoundary | sketch.js:22 | for a positive pool radius the dash boundary R(1 − π/4) lies strictly inside the pool |
| Geometry.NormalizeAngle | sketch.js:216 | the normalised angle lies in (−π, π] and is the angle itself when that is already in range |
| Geometry.NormalizePeriodic | sketch.js:216 | adding whole turns to an angle does not change its normalised value |
| Geometry.SqrtCompare | strategies.js:11-13 | comparing a square root with a nonnegative bound is the same as comparing the radicand with the bound's square |
| Geometry.UnitOfIsUnit | strategies.js:142-144 | dividing a nonzero vector by its length gives a unit vector that scales back to the vector |
| Geometry.UnitOf | strategies.js:142-144 | the program's normalisation of a nonzero vector gives a unit vector |
| Geometry.NearestBoundaryPoint | utils.js:41-47 | the nearest boundary point lies on the edge of the pool, on the ray from the centre through the given point |
| Geometry.RandomPointInCircle | utils.js:1-8 | a sample lies at squared distance radius²·u from the centre, hence inside the disc |
| Geometry.SquaredRadiusReached | utils.js:1-8 | every squared distance in [0, radius²) is reached, by the draw s/radius² |
| Geometry.DrawOfSquaredRadius | utils.js:1-8 | only the draw s/radius² reaches squared distance s, so squared distance is uniform when the draw is |
| Geometry.DiskPointNorm | utils.js:1-8 | the sampled point at radius·sqrt(u) along the drawn angle is at squared distance radius²·u, at most radius² |
| Strategies.ManualStep | strategies.js:1-22 | the manual strategy changes only the position |
| Strategies.ManualStepMoves | strategies.js:7-21 | with the pointer more than one unit away, the mouse takes a step of exactly its speed toward the pointer; otherwise it stays put |
| Strategies.StepTowardPointer | strategies.js:11-19 | the distance test against 1 is the squared-distance test, and the step it takes is one of the mouse's speed toward the pointer |
| Evader.Mouse.ManualUpdate | strategies.js:1-22 | the in-place update leaves the record as ManualStep computes |
| Strategies.NearestEdgeStep | strategies.js:24-35 | the nearest-edge strategy changes only the position |
| Strategies.NearestEdgeIsRadial | strategies.js:24-35 | from inside the pool the step goes straight out along the radius by the mouse's speed; from outside it goes straight back in |
| Strategies.NearestEdgeInside | strategies.js:24-35 | inside the pool the step is the outward radial step of the mouse's speed |
| Strategies.NearestEdgeOutside | strategies.js:24-35 | outside the pool the step is the inward radial step of the mouse's speed |
| Strategies.TowardBoundary | strategies.js:25-32 | the unit vector toward the nearest boundary point is the radial unit vector from inside and its opposite from outside |
| Strategies.BoundaryPointIs | utils.js:41-47 | the nearest boundary point scales the position by R/d, d being the positive distance from the centre |
| Strategies.BoundaryApart | strategies.js:25-30 | a mouse neither at the centre nor on the edge is \|R − d\| > 0 from its nearest boundary point, so the division is defined |
| Strategies.RadialStepMoves | strategies.js:256-258 | a radial step of length len is a step of len along the position vector and changes the distance from the centre by len |
| Strategies.RadialStepBy | strategies.js:256-258 | a radial step changes only the position |
| Evader.Mouse.NearestEdge | strategies.js:24-35 | the in-place update leaves the record as NearestEdgeStep computes |
| Strategies.DashOppositeStep | strategies.js:37-52 | with a cached direction the mouse glides along it; without one, the direction opposite the cat is cached first and then used |
| Strategies.OppositeDirection | strategies.js:40-44 | the direction opposite the cat is a unit vector |
| Strategies.DashOppositeStepLength | strategies.js:37-52 | cached directions stay unit vectors and every tick moves exactly the mouse's speed |
| Strategies.GlideLength | strategies.js:47-51 | gliding along a unit direction covers exactly the mouse's speed |
| Strategies.Glide | strategies.js:47-51 | gliding changes only the position, by the direction times the mouse's speed |
| Evader.Mouse.DashOpposite | strategies.js:37-52 | the in-place update leaves the record as DashOppositeStep computes |
| StrategyRuns.DashOppositeHoldsCourse | strategies.js:39-51 | n ticks of the opposite dash are n glides along the direction fixed on the first tick, whatever the cat does later |
| StrategyRuns.DashOppositeRun | strategies.js:37-52 | over any run the opposite dash changes only the position and the cached direction, and never replaces a cached direction |
| StrategyRuns.GlideRunDisplacement | strategies.js:47-51 | n glides move the mouse n times its speed along the direction and change nothing else |
| Strategies.SpiralToCenter | strategies.js:56-72 | phase 0 starts waiting, with the stillness counter cleared, once within the threshold of the centre; otherwise it steps toward the centre |
| Strategies.SpiralToCenterMoves | strategies.js:66-70 | away from the centre, phase 0 steps exactly the mouse's speed toward the centre and comes that much closer |
| Strategies.SpiralSettle | strategies.js:75-105 | the stillness counter counts consecutive slow ticks of the cat and is cleared by a fast one; at the required count the direction away from the cat is stored and the dash begins with its frame count at 0 |
| Strategies.AwayFromCat | strategies.js:86-95 | the vector from the cat to the centre has length R, so its unit vector is (−cos, −sin) of the cat's angle |
| Strategies.SpiralDash | strategies.js:108-122 | with a stored direction phase 2 glides along it and counts one frame, moving to phase 3 once the count reaches the dash length; without one nothing happens |
| Strategies.AwaySign | strategies.js:139 | the tangential sign is ±1, positive exactly when the program's signed angle difference (the mouse's atan2 minus the cat's angle, normalised) is nonnegative |
| Strategies.SpiralHeadingUnit | strategies.js:141-161 | the spiral heading is a unit vector that points outward, with a sideways part 0.8·sign times its outward part |
| Strategies.SpiralHeading | strategies.js:141-161 | the spiral heading is a unit vector |
| Strategies.HeadingComponents | strategies.js:147-156 | before normalisation the heading has squared length 1.64, outward part 1 and sideways part 0.8·sign |
| Strategies.SpiralHeadingIs | strategies.js:141-161 | the radial unit vector is the position over its positive distance, and the heading is the blended vector over its positive length |
| Strategies.StepTurn | strategies.js:141-168 | a step of the normalised heading has a sideways part 0.8·sign times its outward part, and a positive outward part |
| Strategies.SpiralOut | strategies.js:125-168 | the phase-3 step changes only the position |
| Strategies.SpiralOutGlides | strategies.js:163-167 | the phase-3 step glides the mouse's speed along the spiral heading |
| Strategies.SpiralOutMoves | strategies.js:125-168 | the phase-3 step has length speed, goes outward, and its sideways part is 0.8 times its outward part, turning by the sign of the program's angle difference from the cat |
| Strategies.SpiralStep | strategies.js:54-169 | a spiral tick advances the phase by at most one, does nothing for a phase outside 0..3, and changes only the position and the spiral fields |
| Strategies.SpiralStepKeepsUnit | strategies.js:86-98 | the stored dash direction is a unit vector |
| Evader.Mouse.SpiralEscape | strategies.js:54-169 | the in-place update leaves the record as SpiralStep computes |
| Evader.Mouse.SpiralCenter | strategies.js:56-72 | phase 0 in place equals SpiralToCenter |
| Evader.Mouse.SpiralWait | strategies.js:75-105 | phase 1 in place equals SpiralSettle |
| Evader.Mouse.SpiralDashTick | strategies.js:108-122 | phase 2 in place equals SpiralDash |
| Evader.Mouse.SpiralOutward | strategies.js:125-168 | phase 3 in place equals SpiralOut |
| Evader.Mouse.AngleFromCatHere | strategies.js:127-136 | the computed angle is the program's signed angle from the cat to the mouse |
| Evader.Mouse.SpiralHeadingHere | strategies.js:141-161 | the computed heading is the normalised spiral heading |
| StrategyRuns.SpiralPhaseMonotone | strategies.js:54-169 | over any run the spiral phase never goes back |
| StrategyRuns.SpiralRun | strategies.js:54-169 | over any run the spiral strategy changes only the position and its own phase, frame count, dash direction and stillness counter |
| StrategyRuns.StillCounterTracksCat | strategies.js:77-81 | while the mouse waits, its stillness counter equals the number of consecutive slow ticks of the cat at the end of the run |
| StrategyRuns.TrailingSettledMeans | strategies.js:77-81 | the counted trailing ticks are indeed all slow |
| StrategyRuns.DashNeedsSettledCat | strategies.js:84-102 | the dash starts only after the cat has been slow for 30 consecutive ticks |
| StrategyRuns.DashLastsFixedTicks | strategies.js:108-122 | the spiral strategy in its dash phase lasts exactly the dash length |
| Strategies.OptimalApproach | strategies.js:193-210 | phase 0 changes only the position and the phase |
| Strategies.OptimalApproachMoves | strategies.js:193-210 | within one unit of the circling radius phase 0 starts circling; otherwise it steps the mouse's speed along the radius toward that radius |
| Strategies.AngleFromCat | strategies.js:221-227 | the program's signed angle from the cat is the difference of the polar angles normalised into (−π, π] |
| Strategies.TangentStep | strategies.js:229-233 | the tangential move from distance d lands at squared distance d² + speed², so never on the centre, and turns by the chosen sign |
| Strategies.SnapTo | strategies.js:235-239 | rescaling a point off the centre by c over its distance puts it on the circle of radius c |
| Strategies.OptimalCircle | strategies.js:212-247 | circling changes only the position and the phase |
| Strategies.SnapOnto | strategies.js:235-239 | rescaling the moved point puts it on the circling radius and keeps its turning sense |
| Strategies.OptimalCirclePhase | strategies.js:241-244 | circling moves on to phase 2 exactly when the cat was found opposite, within the tolerance |
| Strategies.OptimalCircleTurnsAway | strategies.js:212-247 | a circling tick leaves the mouse on the circling radius, turned by the sign of the program's angle difference (the mouse's atan2 minus the cat's angle) |
| Strategies.OptimalOutward | strategies.js:249-260 | phase 2 switches to the dash at the dash boundary and otherwise steps straight out |
| Strategies.OptimalOutwardMoves | strategies.js:256-258 | inside the dash boundary phase 2 steps the mouse's speed straight out |
| Strategies.OptimalStep | strategies.js:171-270 | a circling tick advances the phase by at most one, does nothing for a phase outside 0..3, and changes only the position and the phase |
| Evader.Mouse.OptimalCircling | strategies.js:171-270 | the in-place update leaves the record as OptimalStep computes |
| Evader.Mouse.OptimalToRadius | strategies.js:193-210 | phase 0 in place equals OptimalApproach |
| Evader.Mouse.OptimalAround | strategies.js:212-247 | phase 1 in place equals OptimalCircle |
| Evader.Mouse.TangentStepHere | strategies.js:229-233 | the computed point is the tangential move |
| Evader.CircleSnapIs | strategies.js:235-244 | the program's rescale completes the circling step |
| Evader.Mouse.OptimalToDashBoundary | strategies.js:249-260 | phase 2 in place equals OptimalOutward |
| Evader.Mouse.OptimalDash | strategies.js:262-269 | phase 3 in place is a radial step of the mouse's speed |
| StrategyRuns.OppositeCatStartsDash | strategies.js:241-254 | the dash boundary lies inside the circling radius, so the tick after the cat is found opposite switches straight to the dash without moving |
| StrategyRuns.OptimalRun | strategies.js:171-270 | over any run the circling strategy changes only the position and its phase |
| StrategyRuns.OutwardDistanceIs | strategies.js:262-269 | n outward steps add n times the step length to the distance |
| StrategyRuns.OutwardDistanceGrows | strategies.js:262-269 | steps of nonnegative length never bring the mouse closer to the centre |
| StrategyRuns.FinalDashGoesStraightOut | strategies.js:262-269 | in the final dash the mouse walks straight out: after n ticks from distance d it is at distance d + n·speed, with nothing else changed |
| Evader.Mouse.constructor | sketch.js:87-104 | the mouse starts at the centre at the simulation speed with every strategy field cleared |
| Evader.Mouse.PlaceAt | sketch.js:311-323 | the mouse's part of a reset places it at the drawn point at the simulation speed and clears every strategy field |
| Pursuit.GapToMouse | sketch.js:196-199 | the cat's gap to the mouse is the difference of polar angles normalised into (−π, π] |
| Pursuit.AngularStep | sketch.js:204-215 | the angular step is 4·speed/R: the frame time cancels |
| Pursuit.FrameTimeCancels | sketch.js:205-214 | dividing the speed by the frame time and multiplying it back gives 4·speed |
| Pursuit.TurnDirection | sketch.js:202 | the direction is ±1, and +1 exactly for a positive gap |
| Pursuit.CatStep | sketch.js:195-221 | the cat's speed never changes; a cat that moves ends at an angle in (−π, π], records that angle, and records as its velocity the raw difference from the angle recorded before |
| Pursuit.CatStepIs | sketch.js:195-221 | in the dead zone nothing changes. Outside it, the new angle is the old one ± 4·speed/R, normalised into (−π, π]; the recorded velocity is the new angle minus the previously recorded angle; the recorded angle becomes the new angle; the cat's speed is untouched |
| Pursuit.CatStepFrameRateFree | sketch.js:204-215 | any two positive frame rates move the cat the same way |
| Pursuit.CatGapAfterMove | sketch.js:196-216 | after a move, the gap to the mouse is the old gap less the signed step, normalised |
| Pursuit.CatClosesGap | sketch.js:196-216 | a step no longer than the gap reduces the gap by exactly the step, so the cat turns along the shorter arc |
| Pursuit.CatVelocityAtSeam | sketch.js:216-220 | a step within (−π, π] is recorded as the signed step; a step across the seam is recorded a whole turn off |
| Simulator.CatPosition | sketch.js:273-275 | the cat's position lies on the edge of the pool |
| Simulator.OutOfPool | sketch.js:291-297 | the escape test sqrt(x² + y²) ≥ R holds exactly when the squared distance from the centre reaches R² |
| Simulator.WithinReach | sketch.js:272-289 | the capture test, distance to the cat below half the entity size 8, holds exactly when the squared distance is below 16 |
| Simulator.EscapeCheck | sketch.js:291-297 | an escaped mouse ends the simulation as escaped; otherwise nothing changes |
| Simulator.CollisionCheck | sketch.js:272-289 | a mouse within reach ends the simulation as caught; otherwise nothing changes |
| Simulator.Moved | sketch.js:129-130 | the two moves leave the state, result and strategy alone |
| Simulator.StrategyStep | sketch.js:129 | the chosen strategy never changes the mouse's speed or the fields of the other strategies |
| Simulator.Tick | sketch.js:120-162 | a frame never changes the chosen strategy, changes nothing unless running, and never returns a started simulation to idle |
| Simulator.TickOutcome | sketch.js:120-147 | idle and terminal frames change nothing. A running frame keeps the strategy and both moves, ends the simulation exactly when the mouse is out of the pool or within reach, and a capture wins over an escape |
| Simulator.Reset | sketch.js:299-327 | a reset leaves the simulation idle with no strategy and no result, every mouse field but the position as at creation, and the cat at the drawn angle and full speed with its recorded turn kept |
| Simulator.ResetClears | sketch.js:299-327 | after a reset the mouse is within R/2 of the centre, hence not escaped, and the cat's angle lies in [0, 2π) |
| Simulator.Start | sketch.js:344-346 | choosing a strategy runs it from any state and moves nothing |
| Simulator.ConsistencyKept | sketch.js:120-147 | a reset makes the machine consistent (a result exactly when terminal, a strategy whenever running); a frame keeps it so, and so does a start from any state but terminal |
| Simulator.Run | sketch.js:115-172 | over any number of frames the chosen strategy stays the same and a started simulation never returns to idle |
| Simulator.RunConsistent | sketch.js:115-172 | consistency holds over any number of frames |
| Simulator.RunFrozenUnlessRunning | sketch.js:120-162 | an idle or finished simulation stays exactly as it is for any number of frames, with any inputs |
| Simulator.Simulation.constructor | sketch.js:87-113 | the program starts idle, the mouse at the centre, the cat at angle π, four times as fast as the mouse |
| Simulator.Simulation.UpdateCat | sketch.js:195-221 | the controller in place leaves the cat as CatStep computes and changes nothing else |
| Simulator.Simulation.CheckEscape | sketch.js:291-297 | the check in place equals EscapeCheck |
| Simulator.Simulation.CheckCollision | sketch.js:272-289 | the check in place equals CollisionCheck |
| Simulator.Simulation.RunStrategy | sketch.js:129 | calling the chosen strategy moves the mouse as StrategyStep computes, the cat being as the previous frame left it |
| Simulator.Simulation.Draw | sketch.js:115-172 | one frame in place equals Tick: strategy, cat, escape check, collision check, only while running |
| Simulator.Simulation.ResetSimulation | sketch.js:299-342 | the reset in place equals Reset |
| Simulator.Simulation.StartStrategy | sketch.js:344-354 | choosing a strategy in place equals Start |

## Left out

- Rendering is left out, as are the buttons and their show/hide, loop/noLoop/redraw, play/pause and the terminal-state text. They only display the state.
- The cat's Cartesian position `cat.x`, `cat.y`, and the previous positions `prevMouse`, `prevCat`, are left out. They are read only by drawing and by the debug-only speed readout, which is also left out.
- `setup` is the constructor followed by `ResetSimulation`; it is not a separate member.
- The fallback branch of `draw` for an unknown state is left out: the state type has only the three states.
- The pool radius comes from the window width, so it is a parameter R > 0. The constants derived from it are functions of it.
- The manual strategy's conversion of the pointer into pool coordinates (strategies.js:3-4) is left out: the pointer is given in pool coordinates.
- Floating point is not modelled: all arithmetic is on reals. The `Math` functions are tables that obey the three laws above; nothing else about them is assumed.
- `randomAngle` and the two draws of `randomPointInCircle` are parameters, restricted to the ranges `random` returns: [0, 2π) and [0, 1).
- Pursuit.AngularStep: requires a positive frame rate. The program's `dt = 1 / frameRate()` would be infinite at a zero frame rate, and that floating-point case is not modelled.
- Strategies.NearestEdgeStep: requires the mouse to be neither at the centre nor on the edge. At either point the program divides by zero and yields NaN, which is not modelled.
- Strategies.SpiralStep: requires phase 3 to start away from the centre, because the spiral heading divides by the distance from the centre.
- Strategies.OptimalStep: requires the mouse to be away from the centre, except in phase 0 when the circling radius is within one unit, for the same reason.
- Simulator.Tick: requires, while running, that a strategy is chosen and defined at the mouse's position. The program would call a null strategy or produce NaN there.
- The circling strategy's `optimalDirection` field is kept and cleared but never set by the program, so nothing is proved about it.
