/** The cat's controller. The cat runs along the pool's edge; once per
    running tick it turns toward the mouse's polar angle by a fixed angular
    step, unless the mouse is already within a small dead zone of it. The
    step is built from the frame time and cancels it again, so it does not
    depend on the frame rate. */
module Pursuit {
  import opened Geometry
  import opened Constants

  /** The cat's angle on the edge and its speed, with the two values that
      track how far it turned on its last move. */
  datatype CatState = CatState(angle: real, speed: real, prevAngle: real, angularVelocity: real)

  /** The cat as the program first creates it: at angle PI, four times as
      fast as the mouse, with no recorded turn. */
  const InitialCat: CatState := CatState(PI, SimSpeed * CatSpeedMultiplier, 0.0, 0.0)

  /** The signed angle from the cat to the mouse, brought into (-PI, PI]
      through atan2(sin, cos) as the program does. */
  function GapToMouse(m: MathLib, angle: real, mx: real, my: real): (diff: real)
    requires m.Lawful()
    ensures diff == NormalizeAngle(m.Atan2(my, mx) - angle)
    ensures -PI < diff <= PI
  {
    var d := m.Atan2(my, mx) - angle;
    AtanLaw(m, d);
    m.Atan2(m.Sin(d), m.Cos(d))
  }

  /** The angle the cat turns through in one frame: the mouse's speed per
      frame is turned into a speed per second, multiplied by four, turned
      back into a distance per frame and divided by the radius. The frame
      time cancels. */
  function AngularStep(frameRate: real, mouseSpeed: real, poolR: real): (step: real)
    requires 0.0 < frameRate && 0.0 < poolR
    ensures step == CatSpeedMultiplier * mouseSpeed / poolR
  {
    var dt := 1.0 / frameRate;
    var mouseSpeedPerSecond := mouseSpeed / dt;
    var catLinearSpeed := CatSpeedMultiplier * mouseSpeedPerSecond;
    FrameTimeCancels(mouseSpeed, dt, mouseSpeedPerSecond, catLinearSpeed);
    (catLinearSpeed * dt) / poolR
  }

  /** Dividing by the frame time and multiplying by it again gives back the
      distance per frame. */
  lemma FrameTimeCancels(mouseSpeed: real, dt: real, perSecond: real, linear: real)
    requires 0.0 < dt && perSecond == mouseSpeed / dt && linear == CatSpeedMultiplier * perSecond
    ensures linear * dt == CatSpeedMultiplier * mouseSpeed
  {
    assert perSecond * dt == mouseSpeed;
  }

  /** The turning direction: +1 for a mouse ahead of the cat (positive gap),
      -1 otherwise. */
  function TurnDirection(diff: real): (direction: real)
    ensures direction == 1.0 || direction == -1.0
    ensures direction == 1.0 <==> diff > 0.0
  {
    if diff > 0.0 then 1.0 else -1.0
  }

  /** One call of the controller, the mouse being at (mx, my) with the given
      speed. The cat's speed is never touched; a cat that moves ends at an
      angle in (-PI, PI], records that angle, and records as its velocity
      the raw difference from the angle recorded before. */
  function CatStep(m: MathLib, poolR: real, frameRate: real, c: CatState,
                   mx: real, my: real, mouseSpeed: real): (r: CatState)
    requires m.Lawful() && 0.0 < poolR && 0.0 < frameRate
    ensures r.speed == c.speed
    ensures r == c || (-PI < r.angle <= PI && r.prevAngle == r.angle && r.angularVelocity == r.angle - c.prevAngle)
  {
    var diff := GapToMouse(m, c.angle, mx, my);
    if Abs(diff) < AngleAllowance then c
    else
      var raw := c.angle + TurnDirection(diff) * AngularStep(frameRate, mouseSpeed, poolR);
      AtanLaw(m, raw);
      var angle := m.Atan2(m.Sin(raw), m.Cos(raw));
      c.(angle := angle, angularVelocity := angle - c.prevAngle, prevAngle := angle)
  }

  /** The cat's move as a whole: inside the dead zone nothing changes; outside
      it the new angle is the old one plus or minus 4 * speed / poolR, whatever
      the frame rate, brought into (-PI, PI]; the recorded velocity is the raw
      difference from the previously recorded angle, and the recorded angle
      becomes the new one. The cat's speed is never used or changed. */
  lemma {:induction false} CatStepIs(m: MathLib, poolR: real, frameRate: real, c: CatState,
                                     mx: real, my: real, mouseSpeed: real)
    requires m.Lawful() && 0.0 < poolR && 0.0 < frameRate
    ensures var diff, r := NormalizeAngle(m.Atan2(my, mx) - c.angle), CatStep(m, poolR, frameRate, c, mx, my, mouseSpeed);
      if Abs(diff) < AngleAllowance then r == c
      else
        && r.angle == NormalizeAngle(c.angle + TurnDirection(diff) * (CatSpeedMultiplier * mouseSpeed / poolR))
        && -PI < r.angle <= PI
        && r.angularVelocity == r.angle - c.prevAngle
        && r.prevAngle == r.angle
        && r.speed == c.speed
  {
    hide GapToMouse, AngularStep, NormalizeAngle, MathLib.Lawful, MathLib.Atan2, MathLib.Sin, MathLib.Cos;
    var diff := GapToMouse(m, c.angle, mx, my);
    if Abs(diff) >= AngleAllowance {
      var raw := c.angle + TurnDirection(diff) * AngularStep(frameRate, mouseSpeed, poolR);
      AtanLaw(m, raw);
    }
  }

  /** The frame rate does not matter: any two positive frame rates move the
      cat alike. */
  lemma {:induction false} CatStepFrameRateFree(m: MathLib, poolR: real, f1: real, f2: real, c: CatState,
                                                mx: real, my: real, mouseSpeed: real)
    requires m.Lawful() && 0.0 < poolR && 0.0 < f1 && 0.0 < f2
    ensures CatStep(m, poolR, f1, c, mx, my, mouseSpeed) == CatStep(m, poolR, f2, c, mx, my, mouseSpeed)
  {
    assert AngularStep(f1, mouseSpeed, poolR) == AngularStep(f2, mouseSpeed, poolR);
  }

  /** After a move, the gap from the cat to the mouse is the old gap less the
      step taken toward the mouse, brought into (-PI, PI]. */
  lemma {:induction false} CatGapAfterMove(m: MathLib, poolR: real, frameRate: real, c: CatState,
                                           mx: real, my: real, mouseSpeed: real)
    requires m.Lawful() && 0.0 < poolR && 0.0 < frameRate
    requires AngleAllowance <= Abs(GapToMouse(m, c.angle, mx, my))
    ensures var diff := GapToMouse(m, c.angle, mx, my);
      GapToMouse(m, CatStep(m, poolR, frameRate, c, mx, my, mouseSpeed).angle, mx, my)
        == NormalizeAngle(diff - TurnDirection(diff) * (CatSpeedMultiplier * mouseSpeed / poolR))
  {
    hide CatStep, GapToMouse, AngularStep, NormalizeAngle, MathLib.Lawful, MathLib.Atan2;
    var diff := GapToMouse(m, c.angle, mx, my);
    var step := CatSpeedMultiplier * mouseSpeed / poolR;
    var dir := TurnDirection(diff);
    var mouseAngle := m.Atan2(my, mx);
    CatStepIs(m, poolR, frameRate, c, mx, my, mouseSpeed);
    var r := CatStep(m, poolR, frameRate, c, mx, my, mouseSpeed);
    var k1 := NormalizeTurns(mouseAngle - c.angle);
    var k2 := NormalizeTurns(c.angle + dir * step);
    assert r.angle == c.angle + dir * step + TwoPi * (k2 as real);
    calc {
      GapToMouse(m, r.angle, mx, my);
      NormalizeAngle(mouseAngle - r.angle);
      { assert mouseAngle - r.angle == (diff - dir * step) + TwoPi * ((-k1 - k2) as real); }
      NormalizeAngle((diff - dir * step) + TwoPi * ((-k1 - k2) as real));
      { NormalizePeriodic(diff - dir * step, -k1 - k2); }
      NormalizeAngle(diff - dir * step);
    }
  }

  /** A normalised angle differs from the angle by whole turns. */
  lemma NormalizeTurns(a: real) returns (k: int)
    ensures NormalizeAngle(a) == a + TwoPi * (k as real)
  {
    k := ((PI - a) / TwoPi).Floor;
  }

  /** The cat closes the gap: a step no longer than the gap takes exactly the
      step off it, so the cat turns along the shorter arc toward the mouse. */
  lemma {:induction false} CatClosesGap(m: MathLib, poolR: real, frameRate: real, c: CatState,
                                        mx: real, my: real, mouseSpeed: real)
    requires m.Lawful() && 0.0 < poolR && 0.0 < frameRate && 0.0 <= mouseSpeed
    requires AngleAllowance <= Abs(GapToMouse(m, c.angle, mx, my))
    requires CatSpeedMultiplier * mouseSpeed / poolR <= Abs(GapToMouse(m, c.angle, mx, my))
    ensures Abs(GapToMouse(m, CatStep(m, poolR, frameRate, c, mx, my, mouseSpeed).angle, mx, my))
         == Abs(GapToMouse(m, c.angle, mx, my)) - CatSpeedMultiplier * mouseSpeed / poolR
  {
    hide CatStep, GapToMouse, AngularStep, NormalizeAngle, MathLib.Lawful, MathLib.Atan2;
    var diff := GapToMouse(m, c.angle, mx, my);
    var step := CatSpeedMultiplier * mouseSpeed / poolR;
    CatGapAfterMove(m, poolR, frameRate, c, mx, my, mouseSpeed);
    assert 0.0 <= step;
    var left := diff - TurnDirection(diff) * step;
    assert -PI < left <= PI;
    assert NormalizeAngle(left) == left;
  }

  /** The recorded velocity is not brought back into (-PI, PI]: for a cat
      whose last move was recorded, a step that stays inside (-PI, PI] is
      recorded as the signed step, but one that crosses the seam at PI is
      recorded a whole turn off. */
  lemma {:induction false} CatVelocityAtSeam(m: MathLib, poolR: real, frameRate: real, c: CatState,
                                             mx: real, my: real, mouseSpeed: real)
    requires m.Lawful() && 0.0 < poolR && 0.0 < frameRate
    requires c.prevAngle == c.angle && -PI < c.angle <= PI
    requires 0.0 <= mouseSpeed && CatSpeedMultiplier * mouseSpeed / poolR < PI
    requires AngleAllowance <= Abs(GapToMouse(m, c.angle, mx, my))
    ensures var signed := TurnDirection(GapToMouse(m, c.angle, mx, my)) * (CatSpeedMultiplier * mouseSpeed / poolR);
      var v := CatStep(m, poolR, frameRate, c, mx, my, mouseSpeed).angularVelocity;
      && (-PI < c.angle + signed <= PI ==> v == signed)
      && (PI < c.angle + signed ==> v == signed - TwoPi)
      && (c.angle + signed <= -PI ==> v == signed + TwoPi)
  {
    hide CatStep, GapToMouse, AngularStep, NormalizeAngle, MathLib.Lawful, MathLib.Atan2;
    var diff := GapToMouse(m, c.angle, mx, my);
    var signed := TurnDirection(diff) * (CatSpeedMultiplier * mouseSpeed / poolR);
    CatStepIs(m, poolR, frameRate, c, mx, my, mouseSpeed);
    var raw := c.angle + signed;
    if PI < raw {
      assert -PI < raw - TwoPi <= PI;
      NormalizePeriodic(raw, -1);
    } else if raw <= -PI {
      assert -PI < raw + TwoPi <= PI;
      NormalizePeriodic(raw, 1);
    }
  }
}
