/** The mouse record the strategies update in place. Each strategy is a
    method that assigns the record's fields statement by statement, and is
    proved to leave the record in the state the matching step function of
    module Strategies computes from the old one; what the strategies promise
    is proved about those functions. */
module Evader {
  import opened Wrappers
  import opened Geometry
  import opened Constants
  import opened Strategies

  class Mouse {
    var x: real
    var y: real
    var speed: real
    var dashDir: Option<Direction>
    var spiralPhase: int
    var spiralFrames: int
    var spiralDashDir: Option<Direction>
    var spiralCatDir: Option<Direction>
    var spiralCatStillFrames: int
    var optimalPhase: int
    var optimalFrames: int
    var optimalDirection: Option<Rotation>

    /** The record's fields as one value. */
    ghost function State(): MouseState
      reads this
    {
      MouseState(x, y, speed, dashDir, spiralPhase, spiralFrames, spiralDashDir,
                 spiralCatDir, spiralCatStillFrames, optimalPhase, optimalFrames, optimalDirection)
    }

    /** The mouse as the program first creates it: at the centre, at the
        simulation speed, every strategy field cleared. */
    constructor ()
      ensures State() == InitialMouse
    {
      x, y := 0.0, 0.0;
      speed := SimSpeed;
      dashDir := None;
      spiralPhase, spiralFrames := 0, 0;
      spiralDashDir, spiralCatDir := None, None;
      spiralCatStillFrames := 0;
      optimalPhase, optimalFrames := 0, 0;
      optimalDirection := None;
    }

    /** The mouse's part of a reset: placed at p, at the simulation speed,
        with every strategy field cleared. */
    method PlaceAt(p: Point)
      modifies this
      ensures State() == InitialMouse.(x := p.x, y := p.y)
    {
      x := p.x;
      y := p.y;
      speed := SimSpeed;
      dashDir := None;
      spiralPhase := 0;
      spiralFrames := 0;
      spiralDashDir := None;
      spiralCatDir := None;
      spiralCatStillFrames := 0;
      optimalPhase := 0;
      optimalFrames := 0;
      optimalDirection := None;
    }

    /** Manual strategy; the pointer is given in simulation coordinates. */
    method ManualUpdate(m: MathLib, pointer: Point)
      requires m.Lawful()
      modifies this
      ensures State() == ManualStep(m, old(State()), pointer)
    {
      hide Norm2, MathLib.Lawful, MathLib.Sqrt;
      var dx := pointer.x - x;
      var dy := pointer.y - y;
      Norm2NonNegative(dx, dy);
      var d := m.Sqrt(Norm2(dx, dy));
      if d > 1.0 {
        SqrtCompare(m, Norm2(dx, dy), 1.0);
        assert Direction(dx / d, dy / d) == UnitOf(m, dx, dy);
        dx := dx / d;
        dy := dy / d;
        x := x + dx * speed;
        y := y + dy * speed;
      }
    }

    /** Nearest-edge strategy. Both divisions are unguarded in the program,
        so the mouse may be neither at the centre nor on the boundary. */
    method NearestEdge(m: MathLib, poolR: real)
      requires m.Lawful() && 0.0 < poolR
      requires Norm2(x, y) != 0.0 && Norm2(x, y) != poolR * poolR
      modifies this
      ensures State() == NearestEdgeStep(m, poolR, old(State()))
    {
      hide Norm2, MathLib.Lawful, MathLib.Sqrt, NearestBoundaryPoint, UnitOf, NearestEdgeStep;
      ghost var s := State();
      var b := NearestBoundaryPoint(m, poolR, x, y);
      var dx := b.x - x;
      var dy := b.y - y;
      var dist := m.Sqrt(Norm2(dx, dy));
      NearestEdgeStepIs(m, poolR, s);
      UnitOfIs(m, dx, dy);
      dx := dx / dist;
      dy := dy / dist;
      x := x + dx * speed;
      y := y + dy * speed;
    }

    /** Opposite-dash strategy. */
    method DashOpposite(m: MathLib, catAngle: real)
      requires m.Lawful()
      modifies this
      ensures State() == DashOppositeStep(m, old(State()), catAngle)
    {
      hide MathLib.Lawful, MathLib.Cos, MathLib.Sin;
      if dashDir.None? {
        var oppositeAngle := catAngle + PI;
        dashDir := Some(Direction(m.Cos(oppositeAngle), m.Sin(oppositeAngle)));
      }
      var dir := dashDir.value;
      x := x + dir.dx * speed;
      y := y + dir.dy * speed;
    }

    /** Spiral strategy: the phase field selects what this tick does. */
    method SpiralEscape(m: MathLib, poolR: real, catAngle: real, catAngularVelocity: real)
      requires m.Lawful() && 0.0 < poolR && SpiralStepDefined(State())
      modifies this
      ensures State() == SpiralStep(m, poolR, old(State()), catAngle, catAngularVelocity)
    {
      if spiralPhase == 0 {
        SpiralCenter(m);
      } else if spiralPhase == 1 {
        SpiralWait(m, poolR, catAngle, catAngularVelocity);
      } else if spiralPhase == 2 {
        SpiralDashTick();
      } else if spiralPhase == 3 {
        SpiralOutward(m, catAngle);
      }
    }

    /** Spiral phase 0. */
    method SpiralCenter(m: MathLib)
      requires m.Lawful() && spiralPhase == 0
      modifies this
      ensures State() == SpiralToCenter(m, old(State()))
    {
      hide Norm2, MathLib.Lawful, MathLib.Sqrt;
      Norm2NonNegative(x, y);
      var dist := m.Sqrt(Norm2(x, y));
      if dist < SpiralCenterThreshold {
        spiralPhase := 1;
        spiralCatStillFrames := 0;
        return;
      }
      SqrtCompare(m, Norm2(x, y), SpiralCenterThreshold);
      assert Direction(x / dist, y / dist) == UnitOf(m, x, y);
      var dx := -x / dist;
      var dy := -y / dist;
      NegatedUnit(x, dist, speed);
      NegatedUnit(y, dist, speed);
      x := x + dx * speed;
      y := y + dy * speed;
    }

    /** Spiral phase 1. */
    method SpiralWait(m: MathLib, poolR: real, catAngle: real, catAngularVelocity: real)
      requires m.Lawful() && 0.0 < poolR && spiralPhase == 1
      modifies this
      ensures State() == SpiralSettle(m, poolR, old(State()), catAngle, catAngularVelocity)
    {
      hide Norm2, MathLib.Lawful, MathLib.Sqrt, MathLib.Cos, MathLib.Sin;
      if Abs(catAngularVelocity) < CatSettleThreshold {
        spiralCatStillFrames := spiralCatStillFrames + 1;
      } else {
        spiralCatStillFrames := 0;
      }
      if spiralCatStillFrames >= CatSettleFrames {
        var cx := poolR * m.Cos(catAngle);
        var cy := poolR * m.Sin(catAngle);
        var dx := -cx;
        var dy := -cy;
        var mag := m.Sqrt(Norm2(dx, dy));
        AwayFromCat(m, poolR, catAngle, dx, dy, mag);
        dx := dx / mag;
        dy := dy / mag;
        spiralDashDir := Some(Direction(dx, dy));
        spiralFrames := 0;
        spiralPhase := 2;
      }
    }

    /** Spiral phase 2. */
    method SpiralDashTick()
      requires spiralPhase == 2
      modifies this
      ensures State() == SpiralDash(old(State()))
    {
      if spiralDashDir.None? {
        return;
      }
      x := x + spiralDashDir.value.dx * speed;
      y := y + spiralDashDir.value.dy * speed;
      spiralFrames := spiralFrames + 1;
      if spiralFrames >= SpiralDashFrames {
        spiralPhase := 3;
      }
    }

    /** Spiral phase 3. */
    method SpiralOutward(m: MathLib, catAngle: real)
      requires m.Lawful() && spiralPhase == 3 && Norm2(x, y) != 0.0
      modifies this
      ensures State() == SpiralOut(m, old(State()), catAngle)
    {
      hide SpiralOut, SpiralHeading, AngleFromCat, Norm2, MathLib.Lawful;
      var diff := AngleFromCatHere(m, catAngle);
      var tangentialSign := if diff >= 0.0 then 1.0 else -1.0;
      var nx, ny := SpiralHeadingHere(m, tangentialSign);
      SpiralOutGlides(m, State(), catAngle, Direction(nx, ny));
      x, y := x + nx * speed, y + ny * speed;
    }

    /** The mouse's polar angle minus the cat's, brought into (-PI, PI] by
        atan2(sin, cos). */
    method AngleFromCatHere(m: MathLib, catAngle: real) returns (diff: real)
      requires m.Lawful()
      ensures diff == AngleFromCat(m, State(), catAngle)
    {
      var mouseAngle := m.Atan2(y, x);
      diff := m.Atan2(m.Sin(mouseAngle - catAngle), m.Cos(mouseAngle - catAngle));
    }

    /** The spiral's unit heading from the mouse's position: the radial unit
        vector blended with the tangent turned by sign, then normalised. */
    method SpiralHeadingHere(m: MathLib, sign: real) returns (nx: real, ny: real)
      requires m.Lawful() && Norm2(x, y) != 0.0 && sign * sign == 1.0
      ensures Direction(nx, ny) == SpiralHeading(m, State(), sign)
    {
      hide Norm2, MathLib.Lawful, MathLib.Sqrt, SpiralHeading;
      var r := m.Sqrt(Norm2(x, y));
      SqrtNonzero(m, x, y);
      var rx := x / r;
      var ry := y / r;
      var tx := -ry;
      var ty := rx;
      tx := tx * sign;
      ty := ty * sign;
      var vx := SpiralRadialWeight * rx + SpiralTangentialWeight * tx;
      var vy := SpiralRadialWeight * ry + SpiralTangentialWeight * ty;
      assert Direction(rx, ry) == UnitOf(m, x, y);
      assert tx == -ry * sign && ty == rx * sign;
      assert Direction(vx, vy) == SpiralBlend(Direction(rx, ry), sign);
      var mag := m.Sqrt(Norm2(vx, vy));
      SpiralHeadingIs(m, State(), sign, r, Direction(rx, ry), Direction(vx, vy), mag);
      nx := vx / mag;
      ny := vy / mag;
    }

    /** Optimal-circling strategy: the phase field selects what this tick
        does. */
    method OptimalCircling(m: MathLib, poolR: real, catAngle: real)
      requires m.Lawful() && 0.0 < poolR && OptimalStepDefined(poolR, State())
      modifies this
      ensures State() == OptimalStep(m, poolR, old(State()), catAngle)
    {
      if optimalPhase == 0 {
        OptimalToRadius(m, poolR);
      } else if optimalPhase == 1 {
        OptimalAround(m, poolR, catAngle);
      } else if optimalPhase == 2 {
        OptimalToDashBoundary(m, poolR);
      } else if optimalPhase == 3 {
        OptimalDash(m);
      }
    }

    /** Circling phase 0. */
    method OptimalToRadius(m: MathLib, poolR: real)
      requires m.Lawful() && optimalPhase == 0
      requires Norm2(x, y) != 0.0 || Abs(OptimalCircleRadius(poolR)) < 1.0
      modifies this
      ensures State() == OptimalApproach(m, poolR, old(State()))
    {
      hide Norm2, MathLib.Lawful, MathLib.Sqrt;
      var r := m.Sqrt(Norm2(x, y));
      SqrtZero(m, x, y);
      if Abs(r - OptimalCircleRadius(poolR)) < 1.0 {
        optimalPhase := 1;
        return;
      }
      SqrtNonzero(m, x, y);
      var rx := x / r;
      var ry := y / r;
      assert Direction(rx, ry) == UnitOf(m, x, y);
      var direction := if OptimalCircleRadius(poolR) > r then 1.0 else -1.0;
      SignedStep(rx, direction, speed);
      SignedStep(ry, direction, speed);
      x := x + direction * rx * speed;
      y := y + direction * ry * speed;
    }

    /** Circling phase 1. */
    method OptimalAround(m: MathLib, poolR: real, catAngle: real)
      requires m.Lawful() && 0.0 < poolR && optimalPhase == 1 && Norm2(x, y) != 0.0
      modifies this
      ensures State() == OptimalCircle(m, poolR, old(State()), catAngle)
    {
      hide Norm2, MathLib.Lawful, MathLib.Sqrt, OptimalCircle, TangentStep, SnapTo, UnitOf, AngleFromCat;
      var diff := AngleFromCatHere(m, catAngle);
      var tangentialSign := if diff >= 0.0 then 1.0 else -1.0;
      // the tangential move, then the snap back onto the circling radius
      var nx, ny := TangentStepHere(m, tangentialSign);
      var r := m.Sqrt(Norm2(nx, ny));
      Norm2NonNegative(nx, ny);
      SqrtPositive(m, Norm2(nx, ny));
      var scale := OptimalCircleRadius(poolR) / r;
      CircleSnapIs(m, poolR, State(), catAngle, diff, nx, ny, r, scale);
      x, y := nx * scale, ny * scale;
      if Abs(Abs(diff) - PI) < OppositeAngleTolerance {
        optimalPhase := 2;
      }
    }

    /** The tangential move of circling phase 1: the mouse's speed along the
        tangent (-y, x) / r of its circle, turned by sign. */
    method TangentStepHere(m: MathLib, sign: real) returns (nx: real, ny: real)
      requires m.Lawful() && Norm2(x, y) != 0.0 && sign * sign == 1.0
      ensures Point(nx, ny) == TangentStep(m, State(), sign)
    {
      hide Norm2, MathLib.Lawful, MathLib.Sqrt, UnitOf;
      var r := m.Sqrt(Norm2(x, y));
      UnitOfIs(m, x, y);
      var rx := x / r;
      var ry := y / r;
      var tx := -ry;
      var ty := rx;
      nx := x + sign * tx * speed;
      ny := y + sign * ty * speed;
    }

    /** Circling phase 2. */
    method OptimalToDashBoundary(m: MathLib, poolR: real)
      requires m.Lawful() && 0.0 < poolR && optimalPhase == 2 && Norm2(x, y) != 0.0
      modifies this
      ensures State() == OptimalOutward(m, poolR, old(State()))
    {
      hide Norm2, MathLib.Lawful, MathLib.Sqrt;
      var r := m.Sqrt(Norm2(x, y));
      if r >= DashBoundary(poolR) {
        optimalPhase := 3;
        return;
      }
      SqrtNonzero(m, x, y);
      var rx := x / r;
      var ry := y / r;
      assert Direction(rx, ry) == UnitOf(m, x, y);
      x := x + rx * speed;
      y := y + ry * speed;
    }

    /** Circling phase 3. */
    method OptimalDash(m: MathLib)
      requires m.Lawful() && optimalPhase == 3 && Norm2(x, y) != 0.0
      modifies this
      ensures State() == RadialStepBy(m, old(State()), old(speed))
    {
      hide Norm2, MathLib.Lawful, MathLib.Sqrt;
      var r := m.Sqrt(Norm2(x, y));
      SqrtNonzero(m, x, y);
      var rx := x / r;
      var ry := y / r;
      assert Direction(rx, ry) == UnitOf(m, x, y);
      x := x + rx * speed;
      y := y + ry * speed;
    }
  }

  /** The snap of circling phase 1, as the program computes it, completes
      OptimalCircle. */
  lemma CircleSnapIs(m: MathLib, poolR: real, s: MouseState, catAngle: real, diff: real,
                     nx: real, ny: real, r: real, scale: real)
    requires m.Lawful() && 0.0 < poolR && Norm2(s.x, s.y) != 0.0
    requires diff == AngleFromCat(m, s, catAngle)
    requires TangentStep(m, s, AwaySign(diff)) == Point(nx, ny) && Norm2(nx, ny) != 0.0
    requires r == m.Sqrt(Norm2(nx, ny)) && 0.0 < r && scale == OptimalCircleRadius(poolR) / r
    ensures OptimalCircle(m, poolR, s, catAngle) ==
      s.(x := nx * scale, y := ny * scale, optimalPhase := if CatOpposite(diff) then 2 else s.optimalPhase)
  {
    hide MathLib.Lawful, MathLib.Sqrt, Norm2, TangentStep, AngleFromCat, AwaySign;
  }

  /** Stepping along the negated unit coordinate is stepping back along it. */
  lemma NegatedUnit(x: real, d: real, speed: real)
    requires d != 0.0
    ensures (-x / d) * speed == (x / d) * -speed
  {
  }

  /** A step of direction * speed along a unit coordinate, direction being
      +1 or -1. */
  lemma SignedStep(u: real, direction: real, speed: real)
    requires direction == 1.0 || direction == -1.0
    ensures direction * u * speed == u * (if direction == 1.0 then speed else -speed)
  {
  }
}
