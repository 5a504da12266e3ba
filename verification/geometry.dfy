/** Geometry shared by the pursuer and the evader strategies: the host's Math
    library, angle normalisation, radial projection onto the pool boundary and
    area-uniform sampling of a disk. */
module Geometry {

  /** JavaScript's Math.PI, as a decimal literal. */
  const PI: real := 3.141592653589793
  const TwoPi: real := 2.0 * PI

  datatype Point = Point(x: real, y: real)

  /** A direction vector, as the strategies cache it ({dx, dy}). */
  datatype Direction = Direction(dx: real, dy: real)

  /** The opposite direction. */
  function Reversed(u: Direction): Direction {
    Direction(-u.dx, -u.dy)
  }

  /** Squared Euclidean length of (x, y). */
  function Norm2(x: real, y: real): real {
    x * x + y * y
  }

  /** A squared length is never negative. */
  lemma Norm2NonNegative(x: real, y: real)
    ensures 0.0 <= Norm2(x, y)
  {
  }

  function Abs(a: real): real {
    if a < 0.0 then -a else a
  }

  /** The host's Math functions. Nothing is known about them except the laws
      collected in Lawful(): they are the only facts about square roots and
      trigonometry the model relies on. */
  datatype MathLib = MathLib(sqrt: imap<real, real>, sin: imap<real, real>, cos: imap<real, real>,
                             atan2: imap<(real, real), real>)
  {
    function Sqrt(x: real): real { if x in sqrt then sqrt[x] else 0.0 }
    function Sin(a: real): real { if a in sin then sin[a] else 0.0 }
    function Cos(a: real): real { if a in cos then cos[a] else 0.0 }
    function Atan2(y: real, x: real): real { if (y, x) in atan2 then atan2[(y, x)] else 0.0 }

    /** The quantities the laws below speak about. They only appear where a
        proof asks for a law explicitly (SqrtLaw, TrigLaw). */
    function SqrtSquared(x: real): real { Sqrt(x) * Sqrt(x) }
    function TrigNorm(a: real): real { Sin(a) * Sin(a) + Cos(a) * Cos(a) }
    function AtanOfSinCos(a: real): real { Atan2(Sin(a), Cos(a)) }

    ghost predicate Lawful() {
      (forall x {:trigger SqrtSquared(x)} :: 0.0 <= x ==> 0.0 <= Sqrt(x) && SqrtSquared(x) == x) &&
      (forall a {:trigger TrigNorm(a)} :: TrigNorm(a) == 1.0) &&
      (forall a {:trigger AtanOfSinCos(a)} :: AtanOfSinCos(a) == NormalizeAngle(a))
    }
  }

  /** The square root of a nonnegative number is a nonnegative number whose
      square is that number. */
  lemma SqrtLaw(m: MathLib, x: real)
    requires m.Lawful() && 0.0 <= x
    ensures 0.0 <= m.Sqrt(x) && m.Sqrt(x) * m.Sqrt(x) == x
  {
    assert m.SqrtSquared(x) == x;
  }

  /** sin^2 + cos^2 = 1. */
  lemma TrigLaw(m: MathLib, a: real)
    requires m.Lawful()
    ensures m.Sin(a) * m.Sin(a) + m.Cos(a) * m.Cos(a) == 1.0
  {
    assert m.TrigNorm(a) == 1.0;
  }

  /** atan2(sin a, cos a) is a brought into (-PI, PI]. */
  lemma AtanLaw(m: MathLib, a: real)
    requires m.Lawful()
    ensures m.Atan2(m.Sin(a), m.Cos(a)) == NormalizeAngle(a)
  {
    assert m.AtanOfSinCos(a) == NormalizeAngle(a);
  }

  /** The representative of angle a in (-PI, PI]: the value of atan2(sin(a), cos(a)). */
  function NormalizeAngle(a: real): (r: real)
    ensures -PI < r <= PI
    ensures -PI < a <= PI ==> r == a
  {
    var k := -((PI - a) / TwoPi).Floor;
    a - TwoPi * (k as real)
  }

  /** Adding whole turns does not change the normalised angle. */
  lemma {:induction false} NormalizePeriodic(a: real, k: int)
    ensures NormalizeAngle(a + TwoPi * (k as real)) == NormalizeAngle(a)
  {
    var b := a + TwoPi * (k as real);
    var ka := -((PI - a) / TwoPi).Floor;
    var kb := -((PI - b) / TwoPi).Floor;
    assert (PI - b) / TwoPi == (PI - a) / TwoPi - (k as real);
    assert kb == ka + k;
  }

  /** Normalising twice is normalising once. */
  lemma NormalizeIdempotent(a: real)
    ensures NormalizeAngle(NormalizeAngle(a)) == NormalizeAngle(a)
  {
  }

  /** The square root law pins the root of a square down to the absolute value. */
  lemma {:induction false} SqrtOfSquare(m: MathLib, a: real)
    requires m.Lawful()
    ensures m.Sqrt(a * a) == Abs(a)
  {
    hide MathLib.Lawful, MathLib.Sqrt;
    var s := m.Sqrt(a * a);
    var b := Abs(a);
    Norm2NonNegative(a, 0.0);
    SqrtLaw(m, a * a);
    assert b * b == a * a;
    if s < b {
      SquareMonotone(s, b);
      assert false;
    } else if b < s {
      SquareMonotone(b, s);
      assert false;
    }
  }

  /** The square root of q is r whenever q is the square of the nonnegative r. */
  lemma {:induction false} SqrtOfSquareOf(m: MathLib, q: real, r: real)
    requires m.Lawful() && 0.0 <= r && q == r * r
    ensures m.Sqrt(q) == r
  {
    SqrtOfSquare(m, r);
  }

  /** Multiplying by a nonnegative factor keeps an order; kx and ky name
      the two products. */
  lemma MulLe(k: real, x: real, y: real, kx: real, ky: real)
    requires kx == k * x && ky == k * y && 0.0 <= k && x <= y
    ensures kx <= ky
  {
  }

  /** Multiplying by a positive factor keeps a strict order. */
  lemma MulLt(k: real, x: real, y: real, kx: real, ky: real)
    requires kx == k * x && ky == k * y && 0.0 < k && x < y
    ensures kx < ky
  {
  }

  /** Squaring is monotone on the nonnegative reals. */
  lemma {:induction false} SquareMonotone(a: real, b: real)
    requires 0.0 <= a
    ensures a < b ==> a * a < b * b
    ensures a <= b ==> a * a <= b * b
  {
    var aa, ab, bb := a * a, a * b, b * b;
    if a < b {
      MulLe(a, a, b, aa, ab);
      MulLt(b, a, b, ab, bb);
    }
  }

  /** Comparing a square root with a nonnegative bound is comparing the
      radicand with the bound's square. */
  lemma {:induction false} SqrtCompare(m: MathLib, q: real, c: real)
    requires m.Lawful() && 0.0 <= q && 0.0 <= c
    ensures m.Sqrt(q) < c <==> q < c * c
    ensures m.Sqrt(q) <= c <==> q <= c * c
    ensures 0.0 <= m.Sqrt(q) && m.Sqrt(q) * m.Sqrt(q) == q
  {
    var s := m.Sqrt(q);
    SqrtLaw(m, q);
    SquareMonotone(s, c);
    SquareMonotone(c, s);
  }

  /** A square root of a positive quantity is positive. */
  lemma SqrtPositive(m: MathLib, x: real)
    requires m.Lawful() && 0.0 < x
    ensures 0.0 < m.Sqrt(x) && m.Sqrt(x) * m.Sqrt(x) == x
  {
    SqrtLaw(m, x);
  }

  /** The square root of a nonzero squared length is nonzero. */
  lemma SqrtNonzero(m: MathLib, x: real, y: real)
    requires m.Lawful() && Norm2(x, y) != 0.0
    ensures m.Sqrt(Norm2(x, y)) != 0.0
  {
    SqrtPositive(m, Norm2(x, y));
  }

  /** Scaling a vector by k scales its squared length by k*k. */
  lemma ScaledNorm2(x: real, y: real, k: real)
    ensures Norm2(x * k, y * k) == k * k * Norm2(x, y)
  {
  }

  /** (x / d, y / d) is a unit vector when d is the length of (x, y). */
  lemma {:induction false} UnitByLength(x: real, y: real, d: real)
    requires d != 0.0 && d * d == Norm2(x, y)
    ensures Norm2(x / d, y / d) == 1.0
  {
    ScaledNorm2(x, y, 1.0 / d);
    assert x / d == x * (1.0 / d) && y / d == y * (1.0 / d);
    assert (1.0 / d) * (1.0 / d) * (d * d) == 1.0;
  }

  /** (dx, dy) is a step of signed length len along the nonzero vector (tx, ty):
      parallel to it, of squared length len * len, and pointing the same way
      as (tx, ty) when len is positive and the opposite way when it is negative. */
  ghost predicate IsStepAlong(dx: real, dy: real, tx: real, ty: real, len: real) {
    dx * ty == dy * tx &&
    Norm2(dx, dy) == len * len &&
    (dx * tx + dy * ty) * len >= 0.0
  }

  /** A step of len times a unit vector u is a step of length len along any
      positive multiple of u. */
  lemma {:induction false} UnitStepAlong(ux: real, uy: real, tx: real, ty: real, k: real, len: real)
    requires Norm2(ux, uy) == 1.0 && 0.0 < k && tx == k * ux && ty == k * uy
    ensures IsStepAlong(ux * len, uy * len, tx, ty, len)
  {
    ScaledNorm2(ux, uy, len);
    assert (ux * len) * tx + (uy * len) * ty == len * k * Norm2(ux, uy);
    assert len * k * len >= 0.0;
  }

  function Dot(ux: real, uy: real, vx: real, vy: real): real {
    ux * vx + uy * vy
  }

  /** The z component of the cross product: positive when v points
      counterclockwise of u. */
  function Cross(ux: real, uy: real, vx: real, vy: real): real {
    ux * vy - uy * vx
  }

  /** k = g / d undoes the division: k * k * (d * d) == g * g. */
  lemma {:induction false} SquareOfQuotient(g: real, d: real, k: real)
    requires 0.0 < d && k == g / d
    ensures k * k * (d * d) == g * g
  {
    assert k * d == g;
  }

  /** (x, y) divided by its length, as the program normalises a vector
      (x / r, y / r with r = sqrt(x * x + y * y)): a unit vector. */
  function UnitOf(m: MathLib, x: real, y: real): (u: Direction)
    requires m.Lawful() && Norm2(x, y) != 0.0
    ensures Norm2(u.dx, u.dy) == 1.0
  {
    var d := m.Sqrt(Norm2(x, y));
    Norm2NonNegative(x, y);
    SqrtPositive(m, Norm2(x, y));
    UnitByLength(x, y, d);
    Direction(x / d, y / d)
  }

  /** UnitOf, unfolded for callers that keep its body hidden. */
  lemma UnitOfIs(m: MathLib, x: real, y: real)
    requires m.Lawful() && Norm2(x, y) != 0.0
    ensures var d := m.Sqrt(Norm2(x, y)); 0.0 < d && UnitOf(m, x, y) == Direction(x / d, y / d)
  {
    Norm2NonNegative(x, y);
    SqrtPositive(m, Norm2(x, y));
  }

  /** The normalised vector has length 1 and, scaled back by the length,
      gives the vector again. */
  lemma {:induction false} UnitOfIsUnit(m: MathLib, x: real, y: real)
    requires m.Lawful() && Norm2(x, y) != 0.0
    ensures var u, d := UnitOf(m, x, y), m.Sqrt(Norm2(x, y));
      0.0 < d && d * d == Norm2(x, y) &&
      Norm2(u.dx, u.dy) == 1.0 && u.dx * d == x && u.dy * d == y
  {
    var d := m.Sqrt(Norm2(x, y));
    SqrtPositive(m, Norm2(x, y));
    UnitByLength(x, y, d);
  }

  /** Moving len along (dx, dy) / d, where d is the length of (dx, dy), is a
      step of length len along (dx, dy). */
  lemma {:induction false} UnitStepTo(dx: real, dy: real, d: real, len: real)
    requires 0.0 < d && d * d == Norm2(dx, dy)
    ensures IsStepAlong((dx / d) * len, (dy / d) * len, dx, dy, len)
  {
    UnitByLength(dx, dy, d);
    UnitStepAlong(dx / d, dy / d, dx, dy, d, len);
  }

  /** Moving len along the radius through (x, y), at distance d from the
      centre, to (nx, ny) lands at distance |d + len|. */
  lemma {:induction false} RadialMove(x: real, y: real, d: real, len: real, nx: real, ny: real)
    requires 0.0 < d && d * d == Norm2(x, y)
    requires nx == x + (x / d) * len && ny == y + (y / d) * len
    ensures Norm2(nx, ny) == (d + len) * (d + len)
    ensures IsStepAlong(nx - x, ny - y, x, y, len)
  {
    hide Norm2, IsStepAlong;
    var k := (d + len) / d;
    assert nx == x * k && ny == y * k;
    var kk := k * k;
    ScaledNorm2(x, y, k);
    assert Norm2(x * k, y * k) == kk * (d * d);
    SquareOfQuotient(d + len, d, k);
    UnitStepTo(x, y, d, len);
    assert nx - x == (x / d) * len && ny - y == (y / d) * len;
  }

  /** Radial projection of (x, y) onto the pool boundary of radius poolR.
      The origin has no nearest boundary point (the division by its length is
      undefined), so it is excluded. The point lies on the boundary, on the
      ray from the centre through (x, y). */
  function NearestBoundaryPoint(m: MathLib, poolR: real, x: real, y: real): (b: Point)
    requires m.Lawful() && 0.0 < poolR && Norm2(x, y) != 0.0
    ensures Norm2(b.x, b.y) == poolR * poolR && b.x * y == b.y * x && 0.0 < b.x * x + b.y * y
  {
    var d := m.Sqrt(Norm2(x, y));
    Norm2NonNegative(x, y);
    SqrtPositive(m, Norm2(x, y));
    var u := UnitOf(m, x, y);
    BoundaryPointScales(poolR, x, y, d, u.dx * poolR, u.dy * poolR);
    Point(u.dx * poolR, u.dy * poolR)
  }

  lemma {:induction false} BoundaryPointScales(poolR: real, x: real, y: real, d: real, px: real, py: real)
    requires 0.0 < poolR && 0.0 < d && d * d == Norm2(x, y)
    requires px == (x / d) * poolR && py == (y / d) * poolR
    ensures Norm2(px, py) == poolR * poolR && px * y == py * x && 0.0 < px * x + py * y
  {
    var k := poolR / d;
    assert (x * k) * y == (y * k) * x;
    ScaledNorm2(x, y, k);
    assert k * k * (d * d) == poolR * poolR;
    assert (x * k) * x + (y * k) * y == k * (d * d);
    assert 0.0 < k * (d * d);
  }

  /** A point of the disk of the given radius, from an angle draw and a
      uniform draw u in [0, 1): at distance radius * sqrt(u) from the centre,
      that is, at squared distance radius^2 * u. */
  function RandomPointInCircle(m: MathLib, radius: real, angle: real, u: real): (p: Point)
    requires m.Lawful() && 0.0 <= u < 1.0
    ensures Norm2(p.x, p.y) == radius * radius * u
    ensures Norm2(p.x, p.y) <= radius * radius
  {
    var r := radius * m.Sqrt(u);
    DiskPointNorm(m, radius, angle, u, r);
    Point(r * m.Cos(angle), r * m.Sin(angle))
  }

  lemma {:induction false} DiskPointNorm(m: MathLib, radius: real, angle: real, u: real, r: real)
    requires m.Lawful() && 0.0 <= u < 1.0 && r == radius * m.Sqrt(u)
    ensures Norm2(r * m.Cos(angle), r * m.Sin(angle)) == radius * radius * u
    ensures radius * radius * u <= radius * radius
  {
    hide MathLib.Lawful, MathLib.Sqrt, MathLib.Cos, MathLib.Sin, Norm2;
    PolarNorm(m, r, angle);
    RadiusOfDraw(m, radius, u, r);
  }

  /** (r cos a, r sin a) lies at squared distance r * r from the origin. */
  lemma {:induction false} PolarNorm(m: MathLib, r: real, a: real)
    requires m.Lawful()
    ensures Norm2(r * m.Cos(a), r * m.Sin(a)) == r * r
  {
    ScaledNorm2(m.Cos(a), m.Sin(a), r);
    TrigLaw(m, a);
    assert r * m.Cos(a) == m.Cos(a) * r && r * m.Sin(a) == m.Sin(a) * r;
  }

  lemma {:induction false} RadiusOfDraw(m: MathLib, radius: real, u: real, r: real)
    requires m.Lawful() && 0.0 <= u < 1.0 && r == radius * m.Sqrt(u)
    ensures r * r == radius * radius * u && radius * radius * u <= radius * radius
  {
    var s := m.Sqrt(u);
    SqrtLaw(m, u);
    assert (radius * s) * (radius * s) == (radius * radius) * (s * s);
    assert radius * radius * u <= radius * radius * 1.0;
  }

  /** Every squared distance below radius^2 is reached: by the draw
      s / radius^2. Together with DrawOfSquaredRadius, the squared distance of
      a sample is an affine bijection of the uniform draw onto [0, radius^2),
      so squared distances are uniform when the draw is. */
  lemma {:induction false} SquaredRadiusReached(m: MathLib, radius: real, angle: real, s: real, q: real)
    requires m.Lawful() && 0.0 < radius && q == radius * radius && 0.0 <= s < q
    ensures 0.0 <= s / q < 1.0
    ensures var p := RandomPointInCircle(m, radius, angle, s / q);
      Norm2(p.x, p.y) == s
  {
    hide MathLib.Lawful, MathLib.Sqrt, MathLib.Cos, MathLib.Sin, Norm2, RandomPointInCircle;
    MulLt(radius, 0.0, radius, 0.0, q);
    assert s / q < 1.0 by {
      assert s < q;
    }
    assert q * (s / q) == s;
  }

  /** Only the draw s / radius^2 lands at squared distance s. */
  lemma {:induction false} DrawOfSquaredRadius(m: MathLib, radius: real, angle: real, u: real, q: real)
    requires m.Lawful() && 0.0 < radius && q == radius * radius && 0.0 < q && 0.0 <= u < 1.0
    ensures var p := RandomPointInCircle(m, radius, angle, u);
      u == Norm2(p.x, p.y) / q
  {
    hide MathLib.Lawful, MathLib.Sqrt, MathLib.Cos, MathLib.Sin, Norm2, RandomPointInCircle;
    MulLt(radius, 0.0, radius, 0.0, q);
    assert q * u == Norm2(RandomPointInCircle(m, radius, angle, u).x, RandomPointInCircle(m, radius, angle, u).y);
  }
}
