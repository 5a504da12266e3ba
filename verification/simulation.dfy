/** The simulation's top level: a small state machine over idle, running
    and terminal. A reset puts the mouse somewhere in the inner half of the
    pool and the cat somewhere on the edge, and leaves the simulation idle;
    choosing a strategy starts it running; each running tick moves the mouse
    by the chosen strategy, then the cat, then checks for an escape and last
    for a capture, so that a capture wins over an escape on the same tick. */
module Simulator {
  import opened Wrappers
  import opened Geometry
  import opened Constants
  import opened Strategies
  import opened Evader
  import opened Pursuit

  /** The three states of the simulation. */
  datatype SimState = Idle | Running | Terminal

  /** How a simulation ended. */
  datatype Outcome = Escaped | Caught

  /** Everything a tick reads or writes, as one value. */
  datatype World = World(simState: SimState, simResult: Option<Outcome>, strategy: Option<Strategy>,
                         mouse: MouseState, cat: CatState)

  /** What the outside world supplies to one tick: the pointer, already in
      pool coordinates (read only by the manual strategy), and the frame rate. */
  datatype TickInput = TickInput(pointer: Point, frameRate: real)

  // ------------------------------------------------------------ the checks

  /** The cat's position on the edge of the pool. */
  function CatPosition(m: MathLib, poolR: real, angle: real): (p: Point)
    requires m.Lawful()
    ensures Norm2(p.x, p.y) == poolR * poolR
  {
    PolarNorm(m, poolR, angle);
    Point(poolR * m.Cos(angle), poolR * m.Sin(angle))
  }

  /** The escape test: the mouse is at least the pool's radius from the
      centre. Without square roots, the squared distance from the centre
      reaches the squared radius. */
  predicate OutOfPool(m: MathLib, poolR: real, s: MouseState)
    requires m.Lawful() && 0.0 <= poolR
    ensures OutOfPool(m, poolR, s) <==> poolR * poolR <= Norm2(s.x, s.y)
  {
    Norm2NonNegative(s.x, s.y);
    SqrtCompare(m, Norm2(s.x, s.y), poolR);
    m.Sqrt(Norm2(s.x, s.y)) >= poolR
  }

  /** The capture test: the mouse is less than half an entity's size from
      the cat. Without square roots, the squared distance to the cat is
      below 16, the square of half the entity size 8. */
  predicate WithinReach(m: MathLib, poolR: real, s: MouseState, catAngle: real)
    requires m.Lawful()
    ensures var c := CatPosition(m, poolR, catAngle);
      WithinReach(m, poolR, s, catAngle) <==> Norm2(s.x - c.x, s.y - c.y) < 16.0
  {
    var c := CatPosition(m, poolR, catAngle);
    Norm2NonNegative(s.x - c.x, s.y - c.y);
    SqrtCompare(m, Norm2(s.x - c.x, s.y - c.y), SimSize * 0.5);
    m.Sqrt(Norm2(s.x - c.x, s.y - c.y)) < SimSize * 0.5
  }

  /** The escape check: an escaped mouse ends the simulation as escaped;
      otherwise nothing changes. */
  function EscapeCheck(m: MathLib, poolR: real, w: World): (r: World)
    requires m.Lawful() && 0.0 <= poolR
    ensures OutOfPool(m, poolR, w.mouse) ==> r == w.(simState := Terminal, simResult := Some(Escaped))
    ensures !OutOfPool(m, poolR, w.mouse) ==> r == w
  {
    if OutOfPool(m, poolR, w.mouse) then w.(simState := Terminal, simResult := Some(Escaped)) else w
  }

  /** The collision check: a mouse within reach of the cat ends the
      simulation as caught; otherwise nothing changes. */
  function CollisionCheck(m: MathLib, poolR: real, w: World): (r: World)
    requires m.Lawful()
    ensures WithinReach(m, poolR, w.mouse, w.cat.angle) ==> r == w.(simState := Terminal, simResult := Some(Caught))
    ensures !WithinReach(m, poolR, w.mouse, w.cat.angle) ==> r == w
  {
    if WithinReach(m, poolR, w.mouse, w.cat.angle) then w.(simState := Terminal, simResult := Some(Caught)) else w
  }

  // ------------------------------------------------------------- one tick

  /** Where the chosen strategy is defined: the nearest-edge strategy
      divides by the distance from the centre and by the distance to the
      edge, the spiral and circling strategies by the distance from the
      centre in some phases. */
  predicate StrategyDefined(poolR: real, strategy: Strategy, s: MouseState) {
    match strategy
    case NearestEdge => Norm2(s.x, s.y) != 0.0 && Norm2(s.x, s.y) != poolR * poolR
    case SpiralEscape => SpiralStepDefined(s)
    case OptimalCircling => OptimalStepDefined(poolR, s)
    case _ => true
  }

  /** A tick is defined when the simulation is not running, or when it runs
      a strategy at a point where that strategy is defined. */
  predicate TickDefined(poolR: real, w: World) {
    w.simState == Running ==> w.strategy.Some? && StrategyDefined(poolR, w.strategy.value, w.mouse)
  }

  /** The chosen strategy's move of the mouse. A strategy sees the cat as
      the previous tick left it; it never changes the mouse's speed or the
      fields that belong to the other strategies. */
  function StrategyStep(m: MathLib, poolR: real, pointer: Point, w: World): (r: MouseState)
    requires m.Lawful() && 0.0 < poolR && w.strategy.Some? && StrategyDefined(poolR, w.strategy.value, w.mouse)
    ensures r.speed == w.mouse.speed
    ensures w.strategy.value != DashOpposite ==> r.dashDir == w.mouse.dashDir
    ensures w.strategy.value != SpiralEscape ==>
      r.spiralPhase == w.mouse.spiralPhase && r.spiralFrames == w.mouse.spiralFrames &&
      r.spiralDashDir == w.mouse.spiralDashDir && r.spiralCatDir == w.mouse.spiralCatDir &&
      r.spiralCatStillFrames == w.mouse.spiralCatStillFrames
    ensures w.strategy.value != OptimalCircling ==>
      r.optimalPhase == w.mouse.optimalPhase && r.optimalFrames == w.mouse.optimalFrames &&
      r.optimalDirection == w.mouse.optimalDirection
  {
    match w.strategy.value
    case Manual => ManualStep(m, w.mouse, pointer)
    case NearestEdge => NearestEdgeStep(m, poolR, w.mouse)
    case DashOpposite => DashOppositeStep(m, w.mouse, w.cat.angle)
    case SpiralEscape => SpiralStep(m, poolR, w.mouse, w.cat.angle, w.cat.angularVelocity)
    case OptimalCircling => OptimalStep(m, poolR, w.mouse, w.cat.angle)
  }

  /** The world after the running tick's two moves, before its checks. */
  function Moved(m: MathLib, poolR: real, input: TickInput, w: World): (r: World)
    requires m.Lawful() && 0.0 < poolR && 0.0 < input.frameRate
    requires w.strategy.Some? && StrategyDefined(poolR, w.strategy.value, w.mouse)
    ensures r.simState == w.simState && r.simResult == w.simResult && r.strategy == w.strategy
  {
    var mouse := StrategyStep(m, poolR, input.pointer, w);
    w.(mouse := mouse, cat := CatStep(m, poolR, input.frameRate, w.cat, mouse.x, mouse.y, mouse.speed))
  }

  /** One frame. Only a running simulation changes: its strategy moves the
      mouse, the cat follows the moved mouse, then the escape check and the
      collision check run in that order. */
  function Tick(m: MathLib, poolR: real, input: TickInput, w: World): (r: World)
    requires m.Lawful() && 0.0 < poolR && 0.0 < input.frameRate && TickDefined(poolR, w)
    ensures r.strategy == w.strategy
    ensures w.simState != Running ==> r == w
    ensures w.simState != Idle ==> r.simState != Idle
  {
    match w.simState
    case Idle => w
    case Running => CollisionCheck(m, poolR, EscapeCheck(m, poolR, Moved(m, poolR, input, w)))
    case Terminal => w
  }

  /** The tick's outcome. Idle and terminal worlds are left exactly as they
      are; a running tick never changes the chosen strategy and leaves both
      entities where the moves put them; it ends the simulation exactly when
      the moved mouse is out of the pool or within reach of the moved cat,
      and a capture wins over an escape. */
  lemma {:induction false} TickOutcome(m: MathLib, poolR: real, input: TickInput, w: World)
    requires m.Lawful() && 0.0 < poolR && 0.0 < input.frameRate && TickDefined(poolR, w)
    ensures w.simState != Running ==> Tick(m, poolR, input, w) == w
    ensures w.simState == Running ==>
      var r, mv := Tick(m, poolR, input, w), Moved(m, poolR, input, w);
      var escaped, caught := OutOfPool(m, poolR, mv.mouse), WithinReach(m, poolR, mv.mouse, mv.cat.angle);
      && r.strategy == w.strategy && r.mouse == mv.mouse && r.cat == mv.cat
      && (r.simState == Terminal <==> escaped || caught)
      && (!escaped && !caught ==> r.simState == Running && r.simResult == w.simResult)
      && (caught ==> r.simResult == Some(Caught))
      && (escaped && !caught ==> r.simResult == Some(Escaped))
  {
    hide OutOfPool, WithinReach, Moved;
    if w.simState == Running {
      var mv := Moved(m, poolR, input, w);
      var e := EscapeCheck(m, poolR, mv);
      var r := CollisionCheck(m, poolR, e);
      assert Tick(m, poolR, input, w) == r;
      assert e.mouse == mv.mouse && e.cat == mv.cat && e.strategy == w.strategy;
      assert WithinReach(m, poolR, e.mouse, e.cat.angle) == WithinReach(m, poolR, mv.mouse, mv.cat.angle);
      assert mv.simState == Running && mv.simResult == w.simResult;
    }
  }

  // ---------------------------------------------------- reset and start

  /** A reset. The mouse is placed at the point drawn in the disc of half
      the pool's radius, with its speed and every strategy field cleared; the
      cat is placed at the drawn angle with its speed restored; the recorded
      angle and velocity of the cat's last turn are kept. */
  function Reset(m: MathLib, poolR: real, w: World, pointAngle: real, u: real, catDraw: real): (r: World)
    requires m.Lawful() && 0.0 <= u < 1.0
    ensures r.simState == Idle && r.simResult.None? && r.strategy.None?
    ensures r.mouse == InitialMouse.(x := r.mouse.x, y := r.mouse.y)
    ensures r.cat == CatState(catDraw, SimSpeed * CatSpeedMultiplier, w.cat.prevAngle, w.cat.angularVelocity)
  {
    var p := RandomPointInCircle(m, poolR / 2.0, pointAngle, u);
    World(Idle, None, None, InitialMouse.(x := p.x, y := p.y),
          w.cat.(angle := catDraw, speed := SimSpeed * CatSpeedMultiplier))
  }

  /** After a reset the simulation is idle with nothing chosen and nothing
      decided, the mouse is at most half the radius from the centre (so not
      out of the pool) with every field but its position as at creation, the
      cat is at the drawn angle in [0, 2*PI), and its last turn is still
      recorded as before the reset. */
  lemma {:induction false} ResetClears(m: MathLib, poolR: real, w: World, pointAngle: real, u: real, catDraw: real)
    requires m.Lawful() && 0.0 < poolR && 0.0 <= u < 1.0 && 0.0 <= catDraw < TwoPi
    ensures var r := Reset(m, poolR, w, pointAngle, u, catDraw);
      && Norm2(r.mouse.x, r.mouse.y) <= (poolR / 2.0) * (poolR / 2.0)
      && !OutOfPool(m, poolR, r.mouse)
      && 0.0 <= r.cat.angle < TwoPi
  {
    hide RandomPointInCircle, MathLib.Lawful, MathLib.Sqrt, Norm2;
    var r := Reset(m, poolR, w, pointAngle, u, catDraw);
    var half := poolR / 2.0;
    assert Norm2(r.mouse.x, r.mouse.y) <= half * half;
    assert half * half < poolR * poolR by { MulLt(half, half, poolR, half * half, half * poolR); MulLt(poolR, half, poolR, poolR * half, poolR * poolR); }
  }

  /** Choosing a strategy: running with that strategy, whatever the state
      was. */
  function Start(w: World, strategy: Strategy): (r: World)
    ensures r.simState == Running && r.strategy == Some(strategy)
    ensures r.mouse == w.mouse && r.cat == w.cat && r.simResult == w.simResult
  {
    w.(simState := Running, strategy := Some(strategy))
  }

  // --------------------------------------------------------- consistency

  /** The relation between state and result the machine keeps: there is a
      result exactly when the simulation is over, and a running simulation
      has a strategy. */
  predicate Consistent(w: World) {
    (w.simResult.Some? <==> w.simState == Terminal) && (w.simState == Running ==> w.strategy.Some?)
  }

  /** A reset makes the world consistent, a tick keeps it consistent, and so
      does a start from any state but terminal (the program offers the
      strategy choices only while idle). */
  lemma {:induction false} ConsistencyKept(m: MathLib, poolR: real, input: TickInput, w: World, strategy: Strategy,
                                           pointAngle: real, u: real, catDraw: real)
    requires m.Lawful() && 0.0 < poolR && 0.0 < input.frameRate && 0.0 <= u < 1.0
    ensures Consistent(Reset(m, poolR, w, pointAngle, u, catDraw))
    ensures Consistent(w) && TickDefined(poolR, w) ==> Consistent(Tick(m, poolR, input, w))
    ensures Consistent(w) && w.simState != Terminal ==> Consistent(Start(w, strategy))
  {
    hide RandomPointInCircle, OutOfPool, WithinReach, Moved, MathLib.Lawful;
    if Consistent(w) && TickDefined(poolR, w) {
      TickOutcome(m, poolR, input, w);
    }
  }

  // ---------------------------------------------------------------- runs

  /** Every tick of a run is defined. */
  predicate RunDefined(m: MathLib, poolR: real, inputs: seq<TickInput>, w: World)
    requires m.Lawful() && 0.0 < poolR
    decreases |inputs|
  {
    |inputs| == 0 ||
    (0.0 < inputs[0].frameRate && TickDefined(poolR, w) &&
     RunDefined(m, poolR, inputs[1..], Tick(m, poolR, inputs[0], w)))
  }

  /** The world after one tick per input, oldest input first. */
  function Run(m: MathLib, poolR: real, inputs: seq<TickInput>, w: World): (r: World)
    requires m.Lawful() && 0.0 < poolR && RunDefined(m, poolR, inputs, w)
    ensures r.strategy == w.strategy
    ensures w.simState != Idle ==> r.simState != Idle
    decreases |inputs|
  {
    if |inputs| == 0 then w else Run(m, poolR, inputs[1..], Tick(m, poolR, inputs[0], w))
  }

  /** Ticks keep the machine consistent over a whole run. */
  lemma {:induction false} RunConsistent(m: MathLib, poolR: real, inputs: seq<TickInput>, w: World)
    requires m.Lawful() && 0.0 < poolR && RunDefined(m, poolR, inputs, w) && Consistent(w)
    ensures Consistent(Run(m, poolR, inputs, w))
    decreases |inputs|
  {
    hide Tick, MathLib.Lawful;
    if |inputs| > 0 {
      ConsistencyKept(m, poolR, inputs[0], w, Manual, 0.0, 0.0, 0.0);
      RunConsistent(m, poolR, inputs[1..], Tick(m, poolR, inputs[0], w));
    }
  }

  /** A finished simulation stays exactly as it finished, for any number of
      further frames with any inputs; a simulation that is not running moves
      nothing until it is started. */
  lemma {:induction false} RunFrozenUnlessRunning(m: MathLib, poolR: real, inputs: seq<TickInput>, w: World)
    requires m.Lawful() && 0.0 < poolR && w.simState != Running
    requires forall i :: 0 <= i < |inputs| ==> 0.0 < inputs[i].frameRate
    ensures RunDefined(m, poolR, inputs, w) && Run(m, poolR, inputs, w) == w
    decreases |inputs|
  {
    hide MathLib.Lawful, Moved, EscapeCheck, CollisionCheck;
    if |inputs| > 0 {
      assert Tick(m, poolR, inputs[0], w) == w;
      assert forall i :: 0 <= i < |inputs[1..]| ==> 0.0 < inputs[1..][i].frameRate by {
        forall i | 0 <= i < |inputs[1..]| ensures 0.0 < inputs[1..][i].frameRate {
          assert inputs[1..][i] == inputs[i + 1];
        }
      }
      RunFrozenUnlessRunning(m, poolR, inputs[1..], w);
    }
  }

  // -------------------------------------------------------- the program

  /** The program's global state: the mouse record, the cat record with the
      two values recording its last turn, and the state, result and chosen
      strategy of the simulation. */
  class Simulation {
    const poolR: real
    const mouse: Mouse
    var simState: SimState
    var simResult: Option<Outcome>
    var currentStrategy: Option<Strategy>
    var catAngle: real
    var catSpeed: real
    var prevCatAngle: real
    var catAngularVelocity: real

    /** The cat and its last turn as one value. */
    ghost function Cat(): CatState
      reads this
    {
      CatState(catAngle, catSpeed, prevCatAngle, catAngularVelocity)
    }

    /** All of the state as one value. */
    ghost function State(): World
      reads this, mouse
    {
      World(simState, simResult, currentStrategy, mouse.State(), Cat())
    }

    /** The globals as the program first sets them up: idle, the mouse at
        the centre and the cat at angle PI. */
    constructor (poolR: real)
      ensures this.poolR == poolR && fresh(mouse)
      ensures State() == World(Idle, None, None, InitialMouse, InitialCat)
    {
      this.poolR := poolR;
      mouse := new Mouse();
      simState := Idle;
      simResult := None;
      currentStrategy := None;
      catAngle := PI;
      catSpeed := SimSpeed * CatSpeedMultiplier;
      prevCatAngle := 0.0;
      catAngularVelocity := 0.0;
    }

    /** The cat's controller, on the globals. */
    method UpdateCat(m: MathLib, frameRate: real)
      requires m.Lawful() && 0.0 < poolR && 0.0 < frameRate
      modifies this
      ensures State() == old(State()).(cat := CatStep(m, poolR, frameRate, old(Cat()), mouse.x, mouse.y, mouse.speed))
    {
      hide MathLib.Lawful, MathLib.Atan2, MathLib.Sin, MathLib.Cos, AngularStep;
      var mouseAngle := m.Atan2(mouse.y, mouse.x);
      var diff := mouseAngle - catAngle;
      diff := m.Atan2(m.Sin(diff), m.Cos(diff));
      if Abs(diff) < AngleAllowance {
        return;
      }
      var direction := if diff > 0.0 then 1.0 else -1.0;
      var dt := 1.0 / frameRate;
      var mouseSpeedPerSecond := mouse.speed / dt;
      var catLinearSpeed := CatSpeedMultiplier * mouseSpeedPerSecond;
      var angularSpeed := (catLinearSpeed * dt) / poolR;
      FrameTimeCancels(mouse.speed, dt, mouseSpeedPerSecond, catLinearSpeed);
      assert angularSpeed == AngularStep(frameRate, mouse.speed, poolR);
      catAngle := catAngle + direction * angularSpeed;
      catAngle := m.Atan2(m.Sin(catAngle), m.Cos(catAngle));
      catAngularVelocity := catAngle - prevCatAngle;
      prevCatAngle := catAngle;
    }

    /** The escape check, on the globals. */
    method CheckEscape(m: MathLib)
      requires m.Lawful() && 0.0 <= poolR
      modifies this
      ensures State() == EscapeCheck(m, poolR, old(State()))
    {
      var distFromCenter := m.Sqrt(Norm2(mouse.x, mouse.y));
      if distFromCenter >= poolR {
        simState := Terminal;
        simResult := Some(Escaped);
      }
    }

    /** The collision check, on the globals. */
    method CheckCollision(m: MathLib)
      requires m.Lawful()
      modifies this
      ensures State() == CollisionCheck(m, poolR, old(State()))
    {
      hide MathLib.Lawful, MathLib.Sqrt, MathLib.Cos, MathLib.Sin, Norm2, EscapeCheck;
      var cx := poolR * m.Cos(catAngle);
      var cy := poolR * m.Sin(catAngle);
      var dx := mouse.x - cx;
      var dy := mouse.y - cy;
      var dist := m.Sqrt(Norm2(dx, dy));
      var threshold := SimSize * 0.5;
      assert Point(cx, cy) == CatPosition(m, poolR, catAngle);
      if dist < threshold {
        simState := Terminal;
        simResult := Some(Caught);
      }
    }

    /** Calls the chosen strategy on the mouse record. */
    method RunStrategy(m: MathLib, pointer: Point)
      requires m.Lawful() && 0.0 < poolR
      requires currentStrategy.Some? && StrategyDefined(poolR, currentStrategy.value, mouse.State())
      modifies mouse
      ensures mouse.State() == StrategyStep(m, poolR, pointer, old(State()))
    {
      match currentStrategy.value
      case Manual => mouse.ManualUpdate(m, pointer);
      case NearestEdge => mouse.NearestEdge(m, poolR);
      case DashOpposite => mouse.DashOpposite(m, catAngle);
      case SpiralEscape => mouse.SpiralEscape(m, poolR, catAngle, catAngularVelocity);
      case OptimalCircling => mouse.OptimalCircling(m, poolR, catAngle);
    }

    /** One frame: the state selects what happens; only a running simulation
        moves, strategy first, then the cat, then the two checks. */
    method Draw(m: MathLib, input: TickInput)
      requires m.Lawful() && 0.0 < poolR && 0.0 < input.frameRate && TickDefined(poolR, State())
      modifies this, mouse
      ensures State() == Tick(m, poolR, input, old(State()))
    {
      match simState
      case Idle =>
      case Running =>
        RunStrategy(m, input.pointer);
        UpdateCat(m, input.frameRate);
        CheckEscape(m);
        CheckCollision(m);
      case Terminal =>
    }

    /** The reset, with the three random draws given: the angle and the
        uniform number for the mouse's point, and the cat's angle. */
    method ResetSimulation(m: MathLib, pointAngle: real, u: real, catDraw: real)
      requires m.Lawful() && 0.0 <= u < 1.0
      modifies this, mouse
      ensures State() == Reset(m, poolR, old(State()), pointAngle, u, catDraw)
    {
      hide RandomPointInCircle, MathLib.Lawful, MathLib.Sqrt, MathLib.Sin, MathLib.Cos;
      ghost var cat := Cat();
      simState := Idle;
      simResult := None;
      currentStrategy := None;
      var p := RandomPointInCircle(m, poolR / 2.0, pointAngle, u);
      mouse.PlaceAt(p);
      catAngle := catDraw;
      catSpeed := SimSpeed * CatSpeedMultiplier;
      assert Cat() == cat.(angle := catDraw, speed := SimSpeed * CatSpeedMultiplier);
    }

    /** Choosing a strategy; there is no guard on the current state. */
    method StartStrategy(strategy: Strategy)
      modifies this
      ensures State() == Start(old(State()), strategy)
    {
      simState := Running;
      currentStrategy := Some(strategy);
    }
  }
}
