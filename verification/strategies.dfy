/** The evader's strategies. Each one is called once per running tick and
    moves the mouse record in place; the spiral and optimal-circling strategies
    also step phase fields kept on that record. A strategy reads the cat only
    through its angle and its last angular velocity, which are parameters here. */
module Strategies {
  import opened Wrappers
  import opened Geometry
  import opened Constants

  /** Intended turning sense of the circling strategy; never set by the program. */
  datatype Rotation = Clockwise | CounterClockwise

  /** The mouse record: position, speed and every strategy's private fields. */
  datatype MouseState = MouseState(
    x: real, y: real, speed: real,
    dashDir: Option<Direction>,
    spiralPhase: int, spiralFrames: int, spiralDashDir: Option<Direction>,
    spiralCatDir: Option<Direction>, spiralCatStillFrames: int,
    optimalPhase: int, optimalFrames: int, optimalDirection: Option<Rotation>)

  /** The strategies a user can start. */
  datatype Strategy = Manual | NearestEdge | DashOpposite | SpiralEscape | OptimalCircling

  /** The mouse as the program creates it: at the centre, every phase and
      cache cleared. */
  const InitialMouse: MouseState :=
    MouseState(0.0, 0.0, SimSpeed, None, 0, 0, None, None, 0, 0, 0, None)

  /** The same record with only the position replaced. */
  function MovedTo(s: MouseState, x: real, y: real): MouseState {
    s.(x := x, y := y)
  }

  /** The record moved len along u: x += u.dx * len, y += u.dy * len. */
  function Advance(s: MouseState, u: Direction, len: real): MouseState {
    MovedTo(s, s.x + u.dx * len, s.y + u.dy * len)
  }

  /** Going len along the reversed direction is going -len along it. */
  lemma AdvanceReversed(s: MouseState, u: Direction, len: real)
    ensures Advance(s, Reversed(u), len) == Advance(s, u, -len)
  {
    var v := Reversed(u);
    assert v.dx == -u.dx && v.dy == -u.dy;
    NegatedFactor(u.dx, len);
    NegatedFactor(u.dy, len);
    assert s.x + v.dx * len == s.x + u.dx * -len;
    assert s.y + v.dy * len == s.y + u.dy * -len;
  }

  /** A sign moves freely between the two factors of a product. */
  lemma NegatedFactor(a: real, b: real)
    ensures -a * b == a * -b
  {
  }

  /** Every cached direction is a unit vector. */
  ghost predicate UnitDirections(s: MouseState) {
    (s.dashDir.Some? ==> Norm2(s.dashDir.value.dx, s.dashDir.value.dy) == 1.0) &&
    (s.spiralDashDir.Some? ==> Norm2(s.spiralDashDir.value.dx, s.spiralDashDir.value.dy) == 1.0)
  }

  // ---------------------------------------------------------------- Manual

  /** Manual strategy: step toward the pointer at the mouse's speed unless
      the pointer is within one unit. */
  function ManualStep(m: MathLib, s: MouseState, pointer: Point): (r: MouseState)
    requires m.Lawful()
    ensures r == MovedTo(s, r.x, r.y)
  {
    var dx := pointer.x - s.x;
    var dy := pointer.y - s.y;
    var d := m.Sqrt(Norm2(dx, dy));
    SqrtCompare(m, Norm2(dx, dy), 1.0);
    if d > 1.0 then
      Advance(s, UnitOf(m, dx, dy), s.speed)
    else
      s
  }

  /** More than one unit from the pointer the mouse steps its speed toward
      the pointer; within one unit it stays where it is. */
  lemma {:induction false} ManualStepMoves(m: MathLib, s: MouseState, pointer: Point)
    requires m.Lawful()
    ensures var r, tx, ty := ManualStep(m, s, pointer), pointer.x - s.x, pointer.y - s.y;
      if Norm2(tx, ty) > 1.0 then IsStepAlong(r.x - s.x, r.y - s.y, tx, ty, s.speed) else r == s
  {
    hide MathLib.Lawful, MathLib.Sqrt, Norm2, IsStepAlong;
    var r := ManualStep(m, s, pointer);
    var dx := pointer.x - s.x;
    var dy := pointer.y - s.y;
    var d := m.Sqrt(Norm2(dx, dy));
    Norm2NonNegative(dx, dy);
    SqrtCompare(m, Norm2(dx, dy), 1.0);
    if d > 1.0 {
      StepTowardPointer(m, dx, dy, d, s.speed, s.x, s.y, r.x, r.y);
    } else {
      StepTowardPointer(m, dx, dy, d, s.speed, s.x, s.y, s.x, s.y);
    }
  }

  /** The manual strategy's distance test, and the step from (x, y) to
      (nx, ny) it then takes. */
  lemma {:induction false} StepTowardPointer(m: MathLib, dx: real, dy: real, d: real, speed: real,
                                             x: real, y: real, nx: real, ny: real)
    requires m.Lawful() && d == m.Sqrt(Norm2(dx, dy))
    requires d > 1.0 ==> nx == x + (dx / d) * speed && ny == y + (dy / d) * speed
    ensures d > 1.0 <==> Norm2(dx, dy) > 1.0
    ensures d > 1.0 ==> IsStepAlong(nx - x, ny - y, dx, dy, speed)
  {
    SqrtCompare(m, Norm2(dx, dy), 1.0);
    if d > 1.0 {
      UnitStepTo(dx, dy, d, speed);
      assert nx - x == (dx / d) * speed && ny - y == (dy / d) * speed;
    }
  }

  // ---------------------------------------------------------- NearestEdge

  /** Nearest-edge strategy: step at the mouse's speed toward the radial
      projection of the mouse on the boundary. The program divides by the
      mouse's distance from the centre and by its distance from the boundary
      without a guard, so both must be nonzero. The step is exactly a radial
      step of the speed: outward from inside the pool, inward from outside. */
  function NearestEdgeStep(m: MathLib, poolR: real, s: MouseState): (r: MouseState)
    requires m.Lawful() && 0.0 < poolR
    requires Norm2(s.x, s.y) != 0.0 && Norm2(s.x, s.y) != poolR * poolR
    ensures r == MovedTo(s, r.x, r.y)
  {
    var b := NearestBoundaryPoint(m, poolR, s.x, s.y);
    var dx := b.x - s.x;
    var dy := b.y - s.y;
    BoundaryApart(m, poolR, s.x, s.y, m.Sqrt(Norm2(s.x, s.y)), b, dx, dy, m.Sqrt(Norm2(dx, dy)));
    Advance(s, UnitOf(m, dx, dy), s.speed)
  }

  /** NearestEdgeStep, unfolded for callers that keep its body hidden: the
      boundary point is apart from the mouse, and the mouse advances toward it. */
  lemma NearestEdgeStepIs(m: MathLib, poolR: real, s: MouseState)
    requires m.Lawful() && 0.0 < poolR
    requires Norm2(s.x, s.y) != 0.0 && Norm2(s.x, s.y) != poolR * poolR
    ensures var b := NearestBoundaryPoint(m, poolR, s.x, s.y);
      var dx, dy := b.x - s.x, b.y - s.y;
      Norm2(dx, dy) != 0.0 && NearestEdgeStep(m, poolR, s) == Advance(s, UnitOf(m, dx, dy), s.speed)
  {
    var b := NearestBoundaryPoint(m, poolR, s.x, s.y);
    var dx, dy := b.x - s.x, b.y - s.y;
    BoundaryApart(m, poolR, s.x, s.y, m.Sqrt(Norm2(s.x, s.y)), b, dx, dy, m.Sqrt(Norm2(dx, dy)));
  }

  /** The nearest-edge step is exactly a radial step of the mouse's speed:
      outward from inside the pool, inward from outside. */
  lemma {:induction false} NearestEdgeIsRadial(m: MathLib, poolR: real, s: MouseState)
    requires m.Lawful() && 0.0 < poolR
    requires Norm2(s.x, s.y) != 0.0 && Norm2(s.x, s.y) != poolR * poolR
    ensures Norm2(s.x, s.y) < poolR * poolR ==> NearestEdgeStep(m, poolR, s) == RadialStepBy(m, s, s.speed)
    ensures poolR * poolR < Norm2(s.x, s.y) ==> NearestEdgeStep(m, poolR, s) == RadialStepBy(m, s, -s.speed)
  {
    if Norm2(s.x, s.y) < poolR * poolR {
      NearestEdgeInside(m, poolR, s);
    } else {
      NearestEdgeOutside(m, poolR, s);
    }
  }

  /** From inside the pool the nearest-edge step goes straight out. */
  lemma {:induction false} NearestEdgeInside(m: MathLib, poolR: real, s: MouseState)
    requires m.Lawful() && 0.0 < poolR
    requires Norm2(s.x, s.y) != 0.0 && Norm2(s.x, s.y) < poolR * poolR
    ensures NearestEdgeStep(m, poolR, s) == RadialStepBy(m, s, s.speed)
  {
    var b := NearestBoundaryPoint(m, poolR, s.x, s.y);
    var dx := b.x - s.x;
    var dy := b.y - s.y;
    var d := m.Sqrt(Norm2(s.x, s.y));
    var dist := m.Sqrt(Norm2(dx, dy));
    TowardBoundary(m, poolR, s.x, s.y, d, b, dx, dy, dist);
  }

  /** From outside the pool the nearest-edge step goes straight back in. */
  lemma {:induction false} NearestEdgeOutside(m: MathLib, poolR: real, s: MouseState)
    requires m.Lawful() && 0.0 < poolR
    requires Norm2(s.x, s.y) != 0.0 && poolR * poolR < Norm2(s.x, s.y)
    ensures NearestEdgeStep(m, poolR, s) == RadialStepBy(m, s, -s.speed)
  {
    var b := NearestBoundaryPoint(m, poolR, s.x, s.y);
    var dx := b.x - s.x;
    var dy := b.y - s.y;
    var d := m.Sqrt(Norm2(s.x, s.y));
    var dist := m.Sqrt(Norm2(dx, dy));
    TowardBoundary(m, poolR, s.x, s.y, d, b, dx, dy, dist);
    AdvanceReversed(s, UnitOf(m, s.x, s.y), s.speed);
  }

  /** The unit vector toward the nearest boundary point is the radial unit
      vector from inside the pool and its opposite from outside. */
  lemma {:induction false} TowardBoundary(m: MathLib, poolR: real, x: real, y: real,
                                          d: real, b: Point, dx: real, dy: real, dist: real)
    requires m.Lawful() && 0.0 < poolR && Norm2(x, y) != 0.0 && Norm2(x, y) != poolR * poolR
    requires d == m.Sqrt(Norm2(x, y)) && b == NearestBoundaryPoint(m, poolR, x, y)
    requires dx == b.x - x && dy == b.y - y && dist == m.Sqrt(Norm2(dx, dy))
    ensures Norm2(dx, dy) != 0.0
    ensures Norm2(x, y) < poolR * poolR ==> UnitOf(m, dx, dy) == UnitOf(m, x, y)
    ensures poolR * poolR < Norm2(x, y) ==> UnitOf(m, dx, dy) == Reversed(UnitOf(m, x, y))
  {
    BoundaryApart(m, poolR, x, y, d, b, dx, dy, dist);
    RadialUnit(x, d, poolR, dist);
    RadialUnit(y, d, poolR, dist);
    assert UnitOf(m, dx, dy) == Direction(dx / dist, dy / dist);
    assert UnitOf(m, x, y) == Direction(x / d, y / d);
  }

  /** A mouse at distance d from the centre, neither at the centre nor on
      the boundary, is |poolR - d| > 0 away from its nearest boundary point,
      which lies (dx, dy) from it. */
  lemma {:induction false} BoundaryApart(m: MathLib, poolR: real, x: real, y: real,
                                         d: real, b: Point, dx: real, dy: real, dist: real)
    requires m.Lawful() && 0.0 < poolR && Norm2(x, y) != 0.0 && Norm2(x, y) != poolR * poolR
    requires d == m.Sqrt(Norm2(x, y)) && b == NearestBoundaryPoint(m, poolR, x, y)
    requires dx == b.x - x && dy == b.y - y && dist == m.Sqrt(Norm2(dx, dy))
    ensures 0.0 < d && d != poolR && (d < poolR <==> Norm2(x, y) < poolR * poolR)
    ensures dx == (x / d) * poolR - x && dy == (y / d) * poolR - y
    ensures dist == Abs(poolR - d) && 0.0 < dist && Norm2(dx, dy) != 0.0
  {
    BoundaryPointIs(m, poolR, x, y, d);
    SqrtCompare(m, Norm2(x, y), poolR);
    BoundaryGap(m, poolR, x, y, d, dx, dy);
  }

  /** The nearest boundary point scales the mouse's position by poolR / d. */
  lemma BoundaryPointIs(m: MathLib, poolR: real, x: real, y: real, d: real)
    requires m.Lawful() && 0.0 < poolR && Norm2(x, y) != 0.0 && d == m.Sqrt(Norm2(x, y))
    ensures 0.0 < d && d * d == Norm2(x, y)
    ensures NearestBoundaryPoint(m, poolR, x, y) == Point((x / d) * poolR, (y / d) * poolR)
  {
    SqrtPositive(m, Norm2(x, y));
  }

  /** The gap between a point at distance d from the centre and its radial
      projection is |poolR - d|, and the program's square root finds it. */
  lemma {:induction false} BoundaryGap(m: MathLib, poolR: real, x: real, y: real, d: real,
                                       dx: real, dy: real)
    requires m.Lawful() && 0.0 < d && d * d == Norm2(x, y)
    requires dx == (x / d) * poolR - x && dy == (y / d) * poolR - y
    ensures m.Sqrt(Norm2(dx, dy)) == Abs(poolR - d)
    ensures Norm2(dx, dy) == (poolR - d) * (poolR - d)
    ensures d != poolR ==> Norm2(dx, dy) != 0.0 && 0.0 < Abs(poolR - d)
  {
    hide MathLib.Lawful, MathLib.Sqrt, Norm2;
    var g := poolR - d;
    GapSquared(poolR, x, y, d, dx, dy);
    AbsSquared(g);
    SqrtOfSquareOf(m, Norm2(dx, dy), Abs(g));
    if d != poolR && Norm2(dx, dy) == 0.0 {
      SqrtOfSquareOf(m, 0.0, 0.0);
      assert false;
    }
  }

  lemma AbsSquared(g: real)
    ensures Abs(g) * Abs(g) == g * g
  {
  }

  /** The squared gap between (x, y) and its radial projection. */
  lemma {:induction false} GapSquared(poolR: real, x: real, y: real, d: real, dx: real, dy: real)
    requires 0.0 < d && d * d == Norm2(x, y)
    requires dx == (x / d) * poolR - x && dy == (y / d) * poolR - y
    ensures Norm2(dx, dy) == (poolR - d) * (poolR - d)
  {
    var g := poolR - d;
    var k := g / d;
    ScaledTo(x, d, poolR, k);
    ScaledTo(y, d, poolR, k);
    var kk := k * k;
    ScaledNorm2(x, y, k);
    assert Norm2(x * k, y * k) == kk * (d * d);
    SquareOfQuotient(g, d, k);
  }

  lemma ScaledTo(x: real, d: real, poolR: real, k: real)
    requires 0.0 < d && k == (poolR - d) / d
    ensures (x / d) * poolR - x == x * k
  {
  }

  /** One coordinate of the unit vector toward the boundary point at
      radius poolR, seen from distance d. */
  lemma {:induction false} RadialUnit(x: real, d: real, poolR: real, dist: real)
    requires 0.0 < d && d != poolR && dist == Abs(poolR - d)
    ensures 0.0 < dist
    ensures d < poolR ==> ((x / d) * poolR - x) / dist == x / d
    ensures poolR < d ==> ((x / d) * poolR - x) / dist == -(x / d)
  {
    var g := poolR - d;
    assert (x / d) * poolR - x == x * g / d;
  }

  // --------------------------------------------------------- DashOpposite

  /** Move the mouse's speed along dir: x += dir.dx * speed, y += dir.dy * speed. */
  function Glide(s: MouseState, dir: Direction): (r: MouseState)
    ensures r == MovedTo(s, r.x, r.y)
    ensures r.x - s.x == dir.dx * s.speed && r.y - s.y == dir.dy * s.speed
  {
    Advance(s, dir, s.speed)
  }

  /** Gliding along a unit direction covers exactly the mouse's speed. */
  lemma {:induction false} GlideLength(s: MouseState, dir: Direction)
    requires Norm2(dir.dx, dir.dy) == 1.0
    ensures var r := Glide(s, dir);
      Norm2(r.x - s.x, r.y - s.y) == s.speed * s.speed
  {
    var r := Glide(s, dir);
    ScaledNorm2(dir.dx, dir.dy, s.speed);
    assert Norm2(r.x - s.x, r.y - s.y) == Norm2(dir.dx * s.speed, dir.dy * s.speed);
  }

  /** The direction opposite the cat's angle, as the opposite dash computes
      it: a unit vector. */
  function OppositeDirection(m: MathLib, catAngle: real): (dir: Direction)
    requires m.Lawful()
    ensures Norm2(dir.dx, dir.dy) == 1.0
  {
    var oppositeAngle := catAngle + PI;
    TrigLaw(m, oppositeAngle);
    Direction(m.Cos(oppositeAngle), m.Sin(oppositeAngle))
  }

  /** Opposite-dash strategy: on the first call, fix the direction opposite
      the cat's angle; every call then glides along the fixed direction,
      whatever the cat does later. */
  function DashOppositeStep(m: MathLib, s: MouseState, catAngle: real): (r: MouseState)
    requires m.Lawful()
    ensures s.dashDir.Some? ==> r == Glide(s, s.dashDir.value)
    ensures s.dashDir.None? ==>
      var dir := OppositeDirection(m, catAngle);
      r == Glide(s.(dashDir := Some(dir)), dir)
  {
    var dir := if s.dashDir.None? then OppositeDirection(m, catAngle) else s.dashDir.value;
    Glide(s.(dashDir := Some(dir)), dir)
  }

  /** The opposite dash keeps its direction a unit vector and so moves
      exactly the mouse's speed per tick. */
  lemma {:induction false} DashOppositeStepLength(m: MathLib, s: MouseState, catAngle: real)
    requires m.Lawful() && UnitDirections(s)
    ensures var r := DashOppositeStep(m, s, catAngle);
      UnitDirections(r) && Norm2(r.x - s.x, r.y - s.y) == s.speed * s.speed
  {
    var r := DashOppositeStep(m, s, catAngle);
    var dir := r.dashDir.value;
    GlideLength(s.(dashDir := Some(dir)), dir);
  }

  // ------------------------------------------------------- radial moves

  /** Move len along the radius through the mouse (outward when len is
      positive, toward the centre when it is negative): x += (x / r) * len,
      r being the distance from the centre. */
  function RadialStepBy(m: MathLib, s: MouseState, len: real): (r: MouseState)
    requires m.Lawful() && Norm2(s.x, s.y) != 0.0
    ensures r == MovedTo(s, r.x, r.y)
  {
    Advance(s, UnitOf(m, s.x, s.y), len)
  }

  /** A radial step of len is a step of len along the mouse's position
      vector, and it changes the distance from the centre by len. */
  lemma {:induction false} RadialStepMoves(m: MathLib, s: MouseState, len: real)
    requires m.Lawful() && Norm2(s.x, s.y) != 0.0
    ensures var r, d := RadialStepBy(m, s, len), m.Sqrt(Norm2(s.x, s.y));
      IsStepAlong(r.x - s.x, r.y - s.y, s.x, s.y, len) && Norm2(r.x, r.y) == (d + len) * (d + len)
  {
    var r := RadialStepBy(m, s, len);
    var d := m.Sqrt(Norm2(s.x, s.y));
    SqrtPositive(m, Norm2(s.x, s.y));
    RadialMove(s.x, s.y, d, len, r.x, r.y);
  }

  // --------------------------------------------------------------- Spiral

  /** Spiral phase 0: walk to the centre, then wait (phase 1) with the
      stillness counter cleared once closer than the threshold. */
  function SpiralToCenter(m: MathLib, s: MouseState): (r: MouseState)
    requires m.Lawful()
    ensures Norm2(s.x, s.y) < SpiralCenterThreshold * SpiralCenterThreshold ==>
      r == s.(spiralPhase := 1, spiralCatStillFrames := 0)
    ensures SpiralCenterThreshold * SpiralCenterThreshold <= Norm2(s.x, s.y) ==>
      r == RadialStepBy(m, s, -s.speed)
  {
    var dist := m.Sqrt(Norm2(s.x, s.y));
    SqrtCompare(m, Norm2(s.x, s.y), SpiralCenterThreshold);
    if dist < SpiralCenterThreshold then
      s.(spiralPhase := 1, spiralCatStillFrames := 0)
    else
      RadialStepBy(m, s, -s.speed)
  }

  /** Away from the centre, phase 0 steps the mouse's speed toward the
      centre and brings it that much closer. */
  lemma {:induction false} SpiralToCenterMoves(m: MathLib, s: MouseState)
    requires m.Lawful() && SpiralCenterThreshold * SpiralCenterThreshold <= Norm2(s.x, s.y)
    ensures var r, d := SpiralToCenter(m, s), m.Sqrt(Norm2(s.x, s.y));
      r == MovedTo(s, r.x, r.y) &&
      IsStepAlong(r.x - s.x, r.y - s.y, -s.x, -s.y, s.speed) &&
      Norm2(r.x, r.y) == (d - s.speed) * (d - s.speed)
  {
    hide MathLib.Lawful, MathLib.Sqrt, RadialStepBy, Advance, UnitOf, IsStepAlong, Norm2, SpiralToCenter, MovedTo;
    var r := RadialStepBy(m, s, -s.speed);
    RadialStepMoves(m, s, -s.speed);
    StepReversed(r.x - s.x, r.y - s.y, s.x, s.y, s.speed);
  }

  /** A step of length -len along t is a step of length len along -t. */
  lemma StepReversed(dx: real, dy: real, tx: real, ty: real, len: real)
    requires IsStepAlong(dx, dy, tx, ty, -len)
    ensures IsStepAlong(dx, dy, -tx, -ty, len)
  {
  }

  /** Spiral phase 1: stay put and count the consecutive ticks in which the
      cat barely turned; after enough of them store the unit direction
      opposite the cat and start the dash (phase 2). */
  function SpiralSettle(m: MathLib, poolR: real, s: MouseState, catAngle: real,
                        catAngularVelocity: real): (r: MouseState)
    requires m.Lawful() && 0.0 < poolR
    ensures r == s.(spiralCatStillFrames := r.spiralCatStillFrames, spiralPhase := r.spiralPhase,
                    spiralFrames := r.spiralFrames, spiralDashDir := r.spiralDashDir)
    ensures r.spiralCatStillFrames ==
      if Abs(catAngularVelocity) < CatSettleThreshold then s.spiralCatStillFrames + 1 else 0
    ensures if CatSettleFrames <= r.spiralCatStillFrames then
        r.spiralPhase == 2 && r.spiralFrames == 0 &&
        r.spiralDashDir == Some(Direction(-m.Cos(catAngle), -m.Sin(catAngle)))
      else
        r.spiralPhase == s.spiralPhase && r.spiralFrames == s.spiralFrames &&
        r.spiralDashDir == s.spiralDashDir
  {
    var still := if Abs(catAngularVelocity) < CatSettleThreshold then s.spiralCatStillFrames + 1 else 0;
    if still >= CatSettleFrames then
      var cx := poolR * m.Cos(catAngle);
      var cy := poolR * m.Sin(catAngle);
      var dx := -cx;
      var dy := -cy;
      var mag := m.Sqrt(Norm2(dx, dy));
      AwayFromCat(m, poolR, catAngle, dx, dy, mag);
      s.(spiralCatStillFrames := still, spiralDashDir := Some(Direction(dx / mag, dy / mag)),
         spiralFrames := 0, spiralPhase := 2)
    else
      s.(spiralCatStillFrames := still)
  }

  /** The vector from the cat's point on the boundary to the centre has the
      pool radius as its length, so normalising it gives (-cos, -sin). */
  lemma {:induction false} AwayFromCat(m: MathLib, poolR: real, a: real, dx: real, dy: real, mag: real)
    requires m.Lawful() && 0.0 < poolR
    requires dx == -(poolR * m.Cos(a)) && dy == -(poolR * m.Sin(a)) && mag == m.Sqrt(Norm2(dx, dy))
    ensures mag == poolR && dx / mag == -m.Cos(a) && dy / mag == -m.Sin(a)
  {
    hide MathLib.Lawful, MathLib.Sqrt, MathLib.Cos, MathLib.Sin;
    PolarNorm(m, poolR, a);
    assert Norm2(dx, dy) == Norm2(poolR * m.Cos(a), poolR * m.Sin(a));
    SqrtOfSquareOf(m, Norm2(dx, dy), poolR);
  }

  /** Spiral phase 2: move along the stored direction for a fixed number of
      ticks, then start spiralling (phase 3). Without a stored direction
      nothing happens. */
  function SpiralDash(s: MouseState): (r: MouseState)
    ensures s.spiralDashDir.None? ==> r == s
    ensures s.spiralDashDir.Some? ==>
      r == Glide(s, s.spiralDashDir.value).(spiralFrames := s.spiralFrames + 1, spiralPhase := r.spiralPhase) &&
      (r.spiralPhase == 3 <==> SpiralDashFrames <= r.spiralFrames || s.spiralPhase == 3) &&
      (r.spiralPhase != 3 ==> r.spiralPhase == s.spiralPhase)
  {
    if s.spiralDashDir.None? then s
    else
      var frames := s.spiralFrames + 1;
      Glide(s, s.spiralDashDir.value).(spiralFrames := frames,
        spiralPhase := if frames >= SpiralDashFrames then 3 else s.spiralPhase)
  }


  /** The program's turning sense away from the cat: +1 (counterclockwise)
      when the signed angle difference (the mouse's atan2 minus the cat's
      angle, normalised) is nonnegative, -1 otherwise. */
  function AwaySign(diff: real): (sign: real)
    ensures sign * sign == 1.0
    ensures 0.0 < sign <==> 0.0 <= diff
  {
    if diff >= 0.0 then 1.0 else -1.0
  }

  /** Spiral phase 3: step at the mouse's speed along the radial unit vector
      plus 0.8 times the tangential unit vector that turns away from the cat.
      The heading is normalised, so the step has length speed; it points
      outward and its sideways part is 0.8 times its outward part, turning
      counterclockwise exactly when the program's signed angle difference
      from the cat is nonnegative. */
  function SpiralOut(m: MathLib, s: MouseState, catAngle: real): (r: MouseState)
    requires m.Lawful() && Norm2(s.x, s.y) != 0.0
    ensures r == MovedTo(s, r.x, r.y)
  {
    Glide(s, SpiralHeading(m, s, AwaySign(AngleFromCat(m, s, catAngle))))
  }

  /** The outward spiral glides along its heading. */
  lemma SpiralOutGlides(m: MathLib, s: MouseState, catAngle: real, dir: Direction)
    requires m.Lawful() && Norm2(s.x, s.y) != 0.0
    requires dir == SpiralHeading(m, s, AwaySign(AngleFromCat(m, s, catAngle)))
    ensures SpiralOut(m, s, catAngle) == MovedTo(s, s.x + dir.dx * s.speed, s.y + dir.dy * s.speed)
  {
    hide SpiralHeading, AngleFromCat, AwaySign;
  }

  /** The spiral step has length speed; it points outward and its sideways
      part is 0.8 times its outward part, turning by the sign of the
      program's angle difference from the cat. */
  lemma {:induction false} SpiralOutMoves(m: MathLib, s: MouseState, catAngle: real)
    requires m.Lawful() && Norm2(s.x, s.y) != 0.0
    ensures var r := SpiralOut(m, s, catAngle);
      TurningStep(s.x, s.y, r.x - s.x, r.y - s.y,
                  SpiralTangentialWeight * AwaySign(NormalizeAngle(m.Atan2(s.y, s.x) - catAngle)), s.speed)
  {
    hide SpiralHeading, AngleFromCat, AwaySign, TurningHeading, TurningStep;
    var sign := AwaySign(AngleFromCat(m, s, catAngle));
    var dir := SpiralHeading(m, s, sign);
    SpiralHeadingUnit(m, s, sign);
    var r := Glide(s, dir);
    StepAlongHeading(s.x, s.y, dir.dx, dir.dy, SpiralTangentialWeight * sign, s.speed,
      r.x - s.x, r.y - s.y);
  }

  /** (hx, hy) is a unit heading that, seen from (x, y), goes outward and
      whose sideways part is w times its outward part. */
  ghost predicate TurningHeading(x: real, y: real, hx: real, hy: real, w: real) {
    Norm2(hx, hy) == 1.0 && Cross(x, y, hx, hy) == w * Dot(x, y, hx, hy) && 0.0 < Dot(x, y, hx, hy)
  }

  /** (sx, sy) is a step of length speed whose sideways part, seen from
      (x, y), is w times its outward part, and which goes outward when
      speed is positive. */
  ghost predicate TurningStep(x: real, y: real, sx: real, sy: real, w: real, speed: real) {
    Norm2(sx, sy) == speed * speed &&
    Cross(x, y, sx, sy) == w * Dot(x, y, sx, sy) &&
    (0.0 < speed ==> 0.0 < Dot(x, y, sx, sy))
  }

  /** The spiral heading before normalisation: the radial unit vector u
      plus 0.8 times the tangential unit vector (-u.dy, u.dx) turned by sign. */
  function SpiralBlend(u: Direction, sign: real): Direction {
    Direction(SpiralRadialWeight * u.dx + SpiralTangentialWeight * (-u.dy * sign),
              SpiralRadialWeight * u.dy + SpiralTangentialWeight * (u.dx * sign))
  }

  /** The normalised spiral heading: a unit vector. */
  function SpiralHeading(m: MathLib, s: MouseState, sign: real): (dir: Direction)
    requires m.Lawful() && Norm2(s.x, s.y) != 0.0 && sign * sign == 1.0
    ensures Norm2(dir.dx, dir.dy) == 1.0
  {
    var u := UnitOf(m, s.x, s.y);
    var v := SpiralBlend(u, sign);
    UnitOfIsUnit(m, s.x, s.y);
    HeadingComponents(u.dx, u.dy, sign, v.dx, v.dy);
    UnitOf(m, v.dx, v.dy)
  }

  /** The spiral heading is a unit vector whose sideways part is 0.8 * sign
      times its outward part, which is positive. */
  lemma {:induction false} SpiralHeadingUnit(m: MathLib, s: MouseState, sign: real)
    requires m.Lawful() && Norm2(s.x, s.y) != 0.0 && sign * sign == 1.0
    ensures TurningHeading(s.x, s.y, SpiralHeading(m, s, sign).dx, SpiralHeading(m, s, sign).dy,
                           SpiralTangentialWeight * sign)
  {
    hide MathLib.Lawful, MathLib.Sqrt, Norm2, SpiralHeading, UnitOf, TurningHeading;
    var d := m.Sqrt(Norm2(s.x, s.y));
    var u := UnitOf(m, s.x, s.y);
    var v := SpiralBlend(u, sign);
    var mag := m.Sqrt(Norm2(v.dx, v.dy));
    SpiralHeadingIs(m, s, sign, d, u, v, mag);
    HeadingUnit(m, s.x, s.y, sign, d, u.dx, u.dy, v.dx, v.dy, mag, v.dx / mag, v.dy / mag);
  }

  /** The spiral heading, spelled out as the program computes it. */
  lemma {:induction false} SpiralHeadingIs(m: MathLib, s: MouseState, sign: real, d: real, u: Direction,
                                           v: Direction, mag: real)
    requires m.Lawful() && Norm2(s.x, s.y) != 0.0 && sign * sign == 1.0
    requires d == m.Sqrt(Norm2(s.x, s.y)) && u == UnitOf(m, s.x, s.y)
    requires v == SpiralBlend(u, sign) && mag == m.Sqrt(Norm2(v.dx, v.dy))
    ensures 0.0 < d && u == Direction(s.x / d, s.y / d)
    ensures 0.0 < mag && SpiralHeading(m, s, sign) == Direction(v.dx / mag, v.dy / mag)
  {
    hide MathLib.Lawful, MathLib.Sqrt, Norm2;
    Norm2NonNegative(s.x, s.y);
    SqrtPositive(m, Norm2(s.x, s.y));
    UnitOfIsUnit(m, s.x, s.y);
    HeadingComponents(u.dx, u.dy, sign, v.dx, v.dy);
    SqrtPositive(m, Norm2(v.dx, v.dy));
  }

  /** The normalised heading (hx, hy) = (vx, vy) / mag. */
  lemma {:induction false} HeadingUnit(m: MathLib, x: real, y: real, sign: real, d: real,
                                       rx: real, ry: real, vx: real, vy: real, mag: real,
                                       hx: real, hy: real)
    requires m.Lawful() && Norm2(x, y) != 0.0 && sign * sign == 1.0
    requires d == m.Sqrt(Norm2(x, y)) && 0.0 < d && rx == x / d && ry == y / d
    requires vx == SpiralRadialWeight * rx + SpiralTangentialWeight * (-ry * sign)
    requires vy == SpiralRadialWeight * ry + SpiralTangentialWeight * (rx * sign)
    requires mag == m.Sqrt(Norm2(vx, vy)) && 0.0 < mag
    requires hx == vx / mag && hy == vy / mag
    ensures TurningHeading(x, y, hx, hy, SpiralTangentialWeight * sign)
  {
    hide MathLib.Lawful, MathLib.Sqrt;
    assert hx == (vx / mag) * 1.0 && hy == (vy / mag) * 1.0;
    SqrtPositive(m, Norm2(x, y));
    SqrtLaw(m, Norm2(vx, vy));
    UnitByLength(x, y, d);
    HeadingComponents(rx, ry, sign, vx, vy);
    StepLength(vx, vy, mag, 1.0, hx, hy);
    StepTurn(x, y, sign, 1.0, d, rx, ry, vx, vy, mag, hx, hy);
  }

  /** A step (sx, sy) of speed times a unit heading (hx, hy) whose sideways
      part, seen from (x, y), is w times its positive outward part: it has
      length speed and the same proportion. */
  lemma {:induction false} StepAlongHeading(x: real, y: real, hx: real, hy: real, w: real,
                                            speed: real, sx: real, sy: real)
    requires TurningHeading(x, y, hx, hy, w)
    requires sx == hx * speed && sy == hy * speed
    ensures TurningStep(x, y, sx, sy, w, speed)
  {
    ScaledNorm2(hx, hy, speed);
    ScaledDotCross(x, y, hx, hy, 1.0, speed);
    assert x * 1.0 == x && y * 1.0 == y;
    var dot := Dot(x, y, hx, hy);
    assert Dot(x, y, sx, sy) == speed * dot;
    assert Cross(x, y, sx, sy) == speed * (w * dot);
    if 0.0 < speed {
      MulLt(speed, 0.0, dot, 0.0, speed * dot);
    }
  }

  /** Moving speed along a normalised heading is a step of length speed. */
  lemma {:induction false} StepLength(vx: real, vy: real, mag: real, speed: real, sx: real, sy: real)
    requires 0.0 < mag && mag * mag == Norm2(vx, vy)
    requires sx == (vx / mag) * speed && sy == (vy / mag) * speed
    ensures Norm2(sx, sy) == speed * speed
  {
    UnitByLength(vx, vy, mag);
    var ss := speed * speed;
    ScaledNorm2(vx / mag, vy / mag, speed);
    assert Norm2(sx, sy) == ss * Norm2(vx / mag, vy / mag);
  }

  /** The outward and sideways parts of the spiral step, seen from the mouse. */
  lemma {:induction false} StepTurn(x: real, y: real, sign: real, speed: real, d: real,
                                    rx: real, ry: real, vx: real, vy: real, mag: real,
                                    sx: real, sy: real)
    requires 0.0 < d && rx == x / d && ry == y / d && 0.0 < mag
    requires Dot(rx, ry, vx, vy) == 1.0 && Cross(rx, ry, vx, vy) == SpiralTangentialWeight * sign
    requires sx == (vx / mag) * speed && sy == (vy / mag) * speed
    ensures Cross(x, y, sx, sy) == SpiralTangentialWeight * sign * Dot(x, y, sx, sy)
    ensures 0.0 < speed ==> 0.0 < Dot(x, y, sx, sy)
  {
    var k := speed / mag;
    assert sx == vx * k && sy == vy * k;
    assert x == rx * d && y == ry * d;
    ScaledDotCross(rx, ry, vx, vy, d, k);
    var dk := d * k;
    assert Dot(x, y, sx, sy) == dk && Cross(x, y, sx, sy) == dk * (SpiralTangentialWeight * sign);
    if 0.0 < speed {
      assert 0.0 < k;
      MulLt(d, 0.0, k, 0.0, dk);
    }
  }

  /** Radial and tangential parts of the spiral heading for a unit (rx, ry). */
  lemma {:induction false} HeadingComponents(rx: real, ry: real, sign: real, vx: real, vy: real)
    requires Norm2(rx, ry) == 1.0 && sign * sign == 1.0
    requires vx == SpiralRadialWeight * rx + SpiralTangentialWeight * (-ry * sign)
    requires vy == SpiralRadialWeight * ry + SpiralTangentialWeight * (rx * sign)
    ensures Norm2(vx, vy) == 1.64
    ensures Dot(rx, ry, vx, vy) == 1.0
    ensures Cross(rx, ry, vx, vy) == SpiralTangentialWeight * sign
  {
    var r2 := rx * rx + ry * ry;
    var s2 := sign * sign;
    assert Norm2(vx, vy) == r2 + 0.64 * s2 * r2;
    assert Dot(rx, ry, vx, vy) == r2;
    assert Cross(rx, ry, vx, vy) == SpiralTangentialWeight * sign * r2;
  }

  /** Dot and cross products scale with both arguments. */
  lemma ScaledDotCross(ux: real, uy: real, vx: real, vy: real, j: real, k: real)
    ensures Dot(ux * j, uy * j, vx * k, vy * k) == (j * k) * Dot(ux, uy, vx, vy)
    ensures Cross(ux * j, uy * j, vx * k, vy * k) == (j * k) * Cross(ux, uy, vx, vy)
  {
  }

  /** The phase-3 spiral step divides by the mouse's distance from the centre. */
  predicate SpiralStepDefined(s: MouseState) {
    s.spiralPhase == 3 ==> Norm2(s.x, s.y) != 0.0
  }

  /** One tick of the spiral strategy: the phase field selects the step; a
      phase outside 0..3 does nothing. The phase only ever advances by one,
      and only the spiral fields and the position change. */
  function SpiralStep(m: MathLib, poolR: real, s: MouseState, catAngle: real,
                      catAngularVelocity: real): (r: MouseState)
    requires m.Lawful() && 0.0 < poolR && SpiralStepDefined(s)
    ensures r.spiralPhase == s.spiralPhase || (0 <= s.spiralPhase < 3 && r.spiralPhase == s.spiralPhase + 1)
    ensures !(0 <= s.spiralPhase <= 3) ==> r == s
    ensures r == s.(x := r.x, y := r.y, spiralPhase := r.spiralPhase, spiralFrames := r.spiralFrames,
                    spiralDashDir := r.spiralDashDir, spiralCatStillFrames := r.spiralCatStillFrames)
  {
    if s.spiralPhase == 0 then
      SpiralToCenter(m, s)
    else if s.spiralPhase == 1 then
      SpiralSettle(m, poolR, s, catAngle, catAngularVelocity)
    else if s.spiralPhase == 2 then
      SpiralDash(s)
    else if s.spiralPhase == 3 then
      SpiralOut(m, s, catAngle)
    else
      s
  }

  /** The direction the spiral stores for its dash is a unit vector. */
  lemma {:induction false} SpiralStepKeepsUnit(m: MathLib, poolR: real, s: MouseState, catAngle: real,
                                               catAngularVelocity: real)
    requires m.Lawful() && 0.0 < poolR && SpiralStepDefined(s) && UnitDirections(s)
    ensures UnitDirections(SpiralStep(m, poolR, s, catAngle, catAngularVelocity))
  {
    if s.spiralPhase == 1 {
      TrigLaw(m, catAngle);
      assert Norm2(-m.Cos(catAngle), -m.Sin(catAngle)) == Norm2(m.Sin(catAngle), m.Cos(catAngle));
    }
  }

  // ------------------------------------------------------ OptimalCircling

  /** The circling strategy computes x / r for the mouse's distance r from
      the centre, which is undefined at the centre. The only step that is
      still defined there is phase 0 finding the circling radius within one
      unit, and a phase outside 0..3, which does nothing. */
  predicate OptimalStepDefined(poolR: real, s: MouseState) {
    Norm2(s.x, s.y) != 0.0 || !(0 <= s.optimalPhase <= 3) ||
    (s.optimalPhase == 0 && Abs(OptimalCircleRadius(poolR)) < 1.0)
  }

  /** At the centre the distance from the centre is 0. */
  lemma SqrtZero(m: MathLib, x: real, y: real)
    requires m.Lawful()
    ensures Norm2(x, y) == 0.0 ==> m.Sqrt(Norm2(x, y)) == 0.0
  {
    if Norm2(x, y) == 0.0 {
      SqrtOfSquareOf(m, Norm2(x, y), 0.0);
    }
  }

  /** Circling phase 0: walk along the radius, at the mouse's speed, toward the
      circling radius; within one unit of it, start circling (phase 1). */
  function OptimalApproach(m: MathLib, poolR: real, s: MouseState): (r: MouseState)
    requires m.Lawful()
    requires Norm2(s.x, s.y) != 0.0 || Abs(OptimalCircleRadius(poolR)) < 1.0
    ensures r == s.(x := r.x, y := r.y, optimalPhase := r.optimalPhase)
  {
    var d := m.Sqrt(Norm2(s.x, s.y));
    SqrtZero(m, s.x, s.y);
    if Abs(d - OptimalCircleRadius(poolR)) < 1.0 then
      s.(optimalPhase := 1)
    else
      RadialStepBy(m, s, if OptimalCircleRadius(poolR) > d then s.speed else -s.speed)
  }

  /** Within one unit of the circling radius phase 0 starts circling;
      otherwise it steps the mouse's speed along the radius toward that
      radius and changes its distance from the centre by that much. */
  lemma {:induction false} OptimalApproachMoves(m: MathLib, poolR: real, s: MouseState)
    requires m.Lawful()
    requires Norm2(s.x, s.y) != 0.0 || Abs(OptimalCircleRadius(poolR)) < 1.0
    ensures var r, d, c := OptimalApproach(m, poolR, s), m.Sqrt(Norm2(s.x, s.y)), OptimalCircleRadius(poolR);
      if Abs(d - c) < 1.0 then
        r == s.(optimalPhase := 1)
      else
        var len := if c > d then s.speed else -s.speed;
        r == MovedTo(s, r.x, r.y) && IsStepAlong(r.x - s.x, r.y - s.y, s.x, s.y, len) &&
        Norm2(r.x, r.y) == (d + len) * (d + len)
  {
    hide RadialStepBy, Advance, UnitOf, Norm2, MovedTo, IsStepAlong, MathLib.Lawful, MathLib.Sqrt;
    var d := m.Sqrt(Norm2(s.x, s.y));
    SqrtZero(m, s.x, s.y);
    if Abs(d - OptimalCircleRadius(poolR)) >= 1.0 {
      RadialStepMoves(m, s, if OptimalCircleRadius(poolR) > d then s.speed else -s.speed);
    }
  }

  /** The cat is (nearly) diametrically opposite: the signed angle from the
      cat to the mouse is within the tolerance of a half turn. */
  predicate CatOpposite(diff: real) {
    Abs(Abs(diff) - PI) < OppositeAngleTolerance
  }

  /** Circling phase 1: step the mouse's speed along the tangent that turns
      away from the cat, then scale the position back onto the circling
      radius. When the cat was found opposite (within the tolerance) before
      the move, go outward next (phase 2). */
  function OptimalCircle(m: MathLib, poolR: real, s: MouseState, catAngle: real): (r: MouseState)
    requires m.Lawful() && 0.0 < poolR && Norm2(s.x, s.y) != 0.0
    ensures r == s.(x := r.x, y := r.y, optimalPhase := r.optimalPhase)
  {
    var diff := AngleFromCat(m, s, catAngle);
    var p := TangentStep(m, s, AwaySign(diff));
    var q := SnapTo(m, p, OptimalCircleRadius(poolR));
    s.(x := q.x, y := q.y, optimalPhase := if CatOpposite(diff) then 2 else s.optimalPhase)
  }

  /** The signed angle from the cat to the mouse as the program computes it
      (atan2 of the sine and cosine of the raw difference): the raw
      difference normalised into (-PI, PI]. */
  function AngleFromCat(m: MathLib, s: MouseState, catAngle: real): (diff: real)
    requires m.Lawful()
    ensures diff == NormalizeAngle(m.Atan2(s.y, s.x) - catAngle)
  {
    var mouseAngle := m.Atan2(s.y, s.x);
    AtanLaw(m, mouseAngle - catAngle);
    m.Atan2(m.Sin(mouseAngle - catAngle), m.Cos(mouseAngle - catAngle))
  }

  /** The position after a step of the mouse's speed along the tangent,
      turning by sign. It lands at squared distance d * d + speed * speed
      from the centre, d being the old distance, so away from the centre,
      and its cross product with the old position is sign * speed * d. */
  function TangentStep(m: MathLib, s: MouseState, sign: real): (p: Point)
    requires m.Lawful() && Norm2(s.x, s.y) != 0.0 && sign * sign == 1.0
    ensures Norm2(p.x, p.y) != 0.0
    ensures var d := m.Sqrt(Norm2(s.x, s.y));
      Norm2(p.x, p.y) == d * d + s.speed * s.speed && Cross(s.x, s.y, p.x, p.y) == sign * s.speed * d
  {
    var u := UnitOf(m, s.x, s.y);
    var p := Point(s.x + sign * -u.dy * s.speed, s.y + sign * u.dx * s.speed);
    TangentFrom(m, s, sign, u, p);
    p
  }

  /** TangentMove, for the program's radial unit vector u of the mouse's
      position. */
  lemma {:induction false} TangentFrom(m: MathLib, s: MouseState, sign: real, u: Direction, p: Point)
    requires m.Lawful() && Norm2(s.x, s.y) != 0.0 && sign * sign == 1.0 && u == UnitOf(m, s.x, s.y)
    requires p == Point(s.x + sign * -u.dy * s.speed, s.y + sign * u.dx * s.speed)
    ensures Norm2(p.x, p.y) != 0.0
    ensures var d := m.Sqrt(Norm2(s.x, s.y));
      Norm2(p.x, p.y) == d * d + s.speed * s.speed && Cross(s.x, s.y, p.x, p.y) == sign * s.speed * d
  {
    hide MathLib.Lawful, MathLib.Sqrt, Norm2, Cross, UnitOf;
    var d := m.Sqrt(Norm2(s.x, s.y));
    Norm2NonNegative(s.x, s.y);
    SqrtPositive(m, Norm2(s.x, s.y));
    UnitOfIs(m, s.x, s.y);
    TangentMove(s.x, s.y, d, u.dx, u.dy, sign, s.speed, p.x, p.y);
  }

  /** p scaled onto the circle of radius c around the centre. */
  function SnapTo(m: MathLib, p: Point, c: real): (q: Point)
    requires m.Lawful() && Norm2(p.x, p.y) != 0.0
    ensures Norm2(q.x, q.y) == c * c
  {
    var d1 := m.Sqrt(Norm2(p.x, p.y));
    Norm2NonNegative(p.x, p.y);
    SqrtPositive(m, Norm2(p.x, p.y));
    var scale := c / d1;
    ScaledNorm2(p.x, p.y, scale);
    SquareOfQuotient(c, d1, scale);
    Point(p.x * scale, p.y * scale)
  }

  /** Circling moves on to the outward walk exactly when the cat was found
      opposite, and changes nothing but the position otherwise. */
  lemma OptimalCirclePhase(m: MathLib, poolR: real, s: MouseState, catAngle: real)
    requires m.Lawful() && 0.0 < poolR && Norm2(s.x, s.y) != 0.0
    ensures var r := OptimalCircle(m, poolR, s, catAngle);
      r.optimalPhase == (if CatOpposite(NormalizeAngle(m.Atan2(s.y, s.x) - catAngle)) then 2 else s.optimalPhase)
  {
  }

  /** r lies on the circle of radius c and, when s moves at all, has turned
      from s in the sense given by sign: the cross product of the old and new
      positions has the sign of sign. */
  predicate OnCircleTurning(s: MouseState, r: MouseState, c: real, sign: real) {
    Norm2(r.x, r.y) == c * c && (0.0 < s.speed ==> 0.0 < sign * Cross(s.x, s.y, r.x, r.y))
  }

  /** Circling puts the mouse on the circling radius and turns it by the sign
      of the program's angle difference from the cat. */
  lemma {:induction false} OptimalCircleTurnsAway(m: MathLib, poolR: real, s: MouseState, catAngle: real)
    requires m.Lawful() && 0.0 < poolR && Norm2(s.x, s.y) != 0.0
    ensures OnCircleTurning(s, OptimalCircle(m, poolR, s, catAngle), OptimalCircleRadius(poolR),
                            AwaySign(NormalizeAngle(m.Atan2(s.y, s.x) - catAngle)))
  {
    hide MathLib.Lawful, MathLib.Sqrt, Norm2, Cross, TangentStep, SnapTo, AngleFromCat;
    var sign := AwaySign(AngleFromCat(m, s, catAngle));
    var p := TangentStep(m, s, sign);
    var c := OptimalCircleRadius(poolR);
    SnapOnto(m, s, p, c, sign, SnapTo(m, p, c));
  }

  /** Snapping a tangential step p onto the circle of radius c, giving q,
      keeps its turning sense. */
  lemma {:induction false} SnapOnto(m: MathLib, s: MouseState, p: Point, c: real, sign: real, q: Point)
    requires m.Lawful() && Norm2(s.x, s.y) != 0.0 && Norm2(p.x, p.y) != 0.0 && 0.0 < c && sign * sign == 1.0
    requires Cross(s.x, s.y, p.x, p.y) == sign * s.speed * m.Sqrt(Norm2(s.x, s.y))
    requires q == SnapTo(m, p, c)
    ensures OnCircleTurning(s, s.(x := q.x, y := q.y), c, sign)
  {
    hide MathLib.Lawful, MathLib.Sqrt, Norm2, Cross;
    var d := m.Sqrt(Norm2(s.x, s.y));
    Norm2NonNegative(s.x, s.y);
    SqrtPositive(m, Norm2(s.x, s.y));
    var d1 := m.Sqrt(Norm2(p.x, p.y));
    Norm2NonNegative(p.x, p.y);
    SqrtPositive(m, Norm2(p.x, p.y));
    var k := c / d1;
    assert q.x == p.x * k && q.y == p.y * k;
    SnapToCircle(s.x, s.y, p.x, p.y, d1, c, sign, s.speed, d, k, q.x, q.y);
  }

  /** The arithmetic behind TangentStep: a tangential step of length speed
      from distance d lands at squared distance d * d + speed * speed,
      turning by sign. */
  lemma {:induction false} TangentMove(x: real, y: real, d: real, rx: real, ry: real,
                                       sign: real, speed: real, x1: real, y1: real)
    requires 0.0 < d && d * d == Norm2(x, y) && rx == x / d && ry == y / d && sign * sign == 1.0
    requires x1 == x + sign * -ry * speed && y1 == y + sign * rx * speed
    ensures Norm2(x1, y1) == d * d + speed * speed && Norm2(x1, y1) != 0.0
    ensures Cross(x, y, x1, y1) == sign * speed * d
  {
    MulLt(d, 0.0, d, 0.0, d * d);
    UnitByLength(x, y, d);
    assert x * ry == y * rx;
    TangentLength(x, y, rx, ry, sign, speed, x1, y1);
    TangentTurn(x, y, d, rx, ry, sign, speed, x1, y1);
  }

  lemma {:induction false} TangentLength(x: real, y: real, rx: real, ry: real,
                                         sign: real, speed: real, x1: real, y1: real)
    requires rx * rx + ry * ry == 1.0 && x * ry == y * rx && sign * sign == 1.0
    requires x1 == x + sign * -ry * speed && y1 == y + sign * rx * speed
    ensures Norm2(x1, y1) == Norm2(x, y) + speed * speed
  {
    var ss := sign * sign;
    var sp := speed * speed;
    assert Norm2(x1, y1) == Norm2(x, y) + ss * sp * (rx * rx + ry * ry);
  }

  lemma {:induction false} TangentTurn(x: real, y: real, d: real, rx: real, ry: real,
                                       sign: real, speed: real, x1: real, y1: real)
    requires 0.0 < d && d * d == Norm2(x, y) && rx == x / d && ry == y / d
    requires x1 == x + sign * -ry * speed && y1 == y + sign * rx * speed
    ensures Cross(x, y, x1, y1) == sign * speed * d
  {
    assert x * rx + y * ry == Norm2(x, y) / d;
    assert Cross(x, y, x1, y1) == sign * speed * (x * rx + y * ry);
  }

  /** The arithmetic behind SnapOnto: scaling (x1, y1) by k = c / d1 to
      (qx, qy) puts the point on the circle of radius c and keeps the turning
      sense. */
  lemma {:induction false} SnapToCircle(x: real, y: real, x1: real, y1: real, d1: real, c: real,
                                        sign: real, speed: real, d: real, k: real, qx: real, qy: real)
    requires 0.0 < d1 && d1 * d1 == Norm2(x1, y1) && 0.0 < c && 0.0 < d && sign * sign == 1.0
    requires Cross(x, y, x1, y1) == sign * speed * d
    requires k == c / d1 && qx == x1 * k && qy == y1 * k
    ensures Norm2(qx, qy) == c * c
    ensures 0.0 < speed ==> 0.0 < sign * Cross(x, y, qx, qy)
  {
    var kk := k * k;
    ScaledNorm2(x1, y1, k);
    assert Norm2(qx, qy) == kk * (d1 * d1);
    SquareOfQuotient(c, d1, k);
    ScaledDotCross(x, y, x1, y1, 1.0, k);
    assert x * 1.0 == x && y * 1.0 == y;
    var sd := speed * d;
    assert sign * Cross(x, y, qx, qy) == k * sd;
    if 0.0 < speed {
      MulLt(speed, 0.0, d, 0.0, sd);
      assert 0.0 < k;
      MulLt(k, 0.0, sd, 0.0, k * sd);
    }
  }

  /** Circling phase 2: walk outward at the mouse's speed until the dash
      boundary is reached, then dash (phase 3). */
  function OptimalOutward(m: MathLib, poolR: real, s: MouseState): (r: MouseState)
    requires m.Lawful() && 0.0 < poolR && Norm2(s.x, s.y) != 0.0
    ensures DashBoundary(poolR) * DashBoundary(poolR) <= Norm2(s.x, s.y) ==>
      r == s.(optimalPhase := 3)
    ensures Norm2(s.x, s.y) < DashBoundary(poolR) * DashBoundary(poolR) ==>
      r == RadialStepBy(m, s, s.speed)
  {
    var d := m.Sqrt(Norm2(s.x, s.y));
    assert 0.0 < DashBoundary(poolR) by {
      assert 0.0 < OptimalCircleRadius(poolR);
    }
    SqrtCompare(m, Norm2(s.x, s.y), DashBoundary(poolR));
    if d >= DashBoundary(poolR) then
      s.(optimalPhase := 3)
    else
      RadialStepBy(m, s, s.speed)
  }

  /** Inside the dash boundary phase 2 steps the mouse's speed straight out
      and moves it that much further from the centre. */
  lemma {:induction false} OptimalOutwardMoves(m: MathLib, poolR: real, s: MouseState)
    requires m.Lawful() && 0.0 < poolR && Norm2(s.x, s.y) != 0.0
    requires Norm2(s.x, s.y) < DashBoundary(poolR) * DashBoundary(poolR)
    ensures var r, d := OptimalOutward(m, poolR, s), m.Sqrt(Norm2(s.x, s.y));
      r == MovedTo(s, r.x, r.y) && IsStepAlong(r.x - s.x, r.y - s.y, s.x, s.y, s.speed) &&
      Norm2(r.x, r.y) == (d + s.speed) * (d + s.speed)
  {
    RadialStepMoves(m, s, s.speed);
  }

  /** One tick of the optimal-circling strategy: the phase field selects the
      step, phase 3 being a plain outward step; a phase outside 0..3 does
      nothing. The phase only ever advances by one, and only the position
      and the phase change. */
  function OptimalStep(m: MathLib, poolR: real, s: MouseState, catAngle: real): (r: MouseState)
    requires m.Lawful() && 0.0 < poolR && OptimalStepDefined(poolR, s)
    ensures r.optimalPhase == s.optimalPhase || (0 <= s.optimalPhase < 3 && r.optimalPhase == s.optimalPhase + 1)
    ensures !(0 <= s.optimalPhase <= 3) ==> r == s
    ensures r == s.(x := r.x, y := r.y, optimalPhase := r.optimalPhase)
  {
    if s.optimalPhase == 0 then
      OptimalApproach(m, poolR, s)
    else if s.optimalPhase == 1 then
      OptimalCircle(m, poolR, s, catAngle)
    else if s.optimalPhase == 2 then
      OptimalOutward(m, poolR, s)
    else if s.optimalPhase == 3 then
      RadialStepBy(m, s, s.speed)
    else
      s
  }
}
