/** Friction of the cloth on one ball (engine.ts: applyFeltFriction): sliding turns slip into
    spin, rolling slows down, and a ball comes to rest, exactly when the time step is short
    enough. */
module Friction {
  import opened Bodies

  const SLIDING := 0.18 * 9.81
  const ROLLING := 0.035 * 9.81
  const STOP_SPEED := 0.003
  const STOP_SPIN := 0.08
  const SLIP_THRESHOLD := 0.018

  // Velocity of the point of contact over the cloth.
  function SlipOf(vel: Vec, spin: Vec, r: real): Vec {
    Vec(vel.x + spin.y * r, vel.y - spin.x * r)
  }

  function Slip(b: Body): Vec {
    SlipOf(b.vel, b.spin, b.radius)
  }

  function Stopped(b: Body): Body {
    b.(vel := ORIGIN, spin := ORIGIN)
  }

  predicate AtRest(b: Body) {
    b.vel == ORIGIN && b.spin == ORIGIN
  }

  // The velocity change of one sliding step: against the slip, of length SLIDING * dt.
  function Drag(slip: Vec, slipSpeed: real, dt: real): Vec
    requires slipSpeed > 0.0
  {
    Vec(-(slip.x / slipSpeed) * (SLIDING * dt), -(slip.y / slipSpeed) * (SLIDING * dt))
  }

  function Dragged(b: Body, f: Vec): Body
    requires b.radius > 0.0
  {
    b.(vel := b.vel.Plus(f), spin := DraggedSpin(b.spin, f, 2.5 / b.radius))
  }

  function DraggedSpin(spin: Vec, f: Vec, angularScale: real): Vec {
    Vec(spin.x + -f.y * angularScale, spin.y + f.x * angularScale)
  }

  function RollingSpin(vel: Vec, r: real): Vec
    requires r > 0.0
  {
    Vec(vel.y / r, -vel.x / r)
  }

  // A ball that moves at vel and whose spin is made to match.
  function Settled(b: Body, vel: Vec, sqrt: real -> real): Body
    requires b.radius > 0.0
  {
    var spin := RollingSpin(vel, b.radius);
    if Norm(vel, sqrt) < STOP_SPEED && Norm(spin, sqrt) < STOP_SPIN then Stopped(b)
    else b.(vel := vel, spin := spin)
  }

  function Rolled(b: Body, speed: real, dt: real, sqrt: real -> real): Body
    requires b.radius > 0.0
  {
    if speed > 0.0 then
      var nextSpeed := if speed - ROLLING * dt > 0.0 then speed - ROLLING * dt else 0.0;
      if nextSpeed == 0.0 then Stopped(b)
      else Settled(b, b.vel.Times(nextSpeed / speed), sqrt)
    else Settled(b, b.vel, sqrt)
  }

  function Friction(b: Body, dt: real, sqrt: real -> real): (c: Body)
    requires b.radius > 0.0
    ensures c.radius == b.radius
  {
    var speed, slipSpeed := Norm(b.vel, sqrt), Norm(Slip(b), sqrt);
    if speed < STOP_SPEED && slipSpeed < SLIP_THRESHOLD then Stopped(b)
    else if slipSpeed > SLIP_THRESHOLD then Dragged(b, Drag(Slip(b), slipSpeed, dt))
    else Rolled(b, speed, dt, sqrt)
  }

  // ---- Sliding

  lemma SpinOnRim(s: real, g: real, r: real)
    requires r > 0.0
    ensures (s + g * (2.5 / r)) * r == s * r + 2.5 * g
  {
    Quotient(2.5, r);
    assert g * (2.5 / r) * r == g * ((2.5 / r) * r);
  }

  // A sliding step changes slip by three and a half times the drag...
  lemma DragOnSlip(b: Body, f: Vec)
    requires b.radius > 0.0
    ensures Slip(Dragged(b, f)) == Slip(b).Plus(f.Times(3.5))
  {
    SpinOnRim(b.spin.y, f.x, b.radius);
    SpinOnRim(b.spin.x, -f.y, b.radius);
  }

  // ... and leaves the angular momentum about the point of contact alone.
  lemma SlidingKeepsContactMomentum(b: Body, f: Vec)
    requires b.radius > 0.0
    ensures var c := Dragged(b, f);
      && c.vel.x - 0.4 * (c.spin.y * c.radius) == b.vel.x - 0.4 * (b.spin.y * b.radius)
      && c.vel.y + 0.4 * (c.spin.x * c.radius) == b.vel.y + 0.4 * (b.spin.x * b.radius)
  {
    SpinOnRim(b.spin.y, f.x, b.radius);
    SpinOnRim(b.spin.x, -f.y, b.radius);
  }

  lemma DragIsAgainstSlip(slip: Vec, dt: real, sqrt: real -> real)
    requires Norm(slip, sqrt) > 0.0
    ensures Drag(slip, Norm(slip, sqrt), dt) == Direction(slip, sqrt).Times(-(SLIDING * dt))
  {
    Negated(slip.x / Norm(slip, sqrt), SLIDING * dt);
    Negated(slip.y / Norm(slip, sqrt), SLIDING * dt);
  }

  lemma Negated(a: real, b: real)
    ensures -a * b == a * -b
  {
  }

  lemma AlongOneDirection(u: Vec, s: real, k: real)
    ensures u.Times(s).Plus(u.Times(-k).Times(3.5)) == u.Times(s - 3.5 * k)
  {
  }

  // Slip speed falls by a fixed amount per sliding step, or jumps past zero.
  lemma SlipAfterSliding(b: Body, dt: real, sqrt: real -> real)
    requires IsSqrt(sqrt) && b.radius > 0.0 && Norm(Slip(b), sqrt) > 0.0
    ensures Norm(Slip(Dragged(b, Drag(Slip(b), Norm(Slip(b), sqrt), dt))), sqrt)
      == Abs(Norm(Slip(b), sqrt) - 3.5 * (SLIDING * dt))
  {
    var slip := Slip(b);
    var u, s := Direction(slip, sqrt), Norm(slip, sqrt);
    DragIsAgainstSlip(slip, dt, sqrt);
    DragOnSlip(b, Drag(slip, s, dt));
    DirectionIsUnit(slip, sqrt);
    DirectionTimesNorm(slip, sqrt);
    AlongOneDirection(u, s, SLIDING * dt);
    NormOfMultiple(u, s - 3.5 * (SLIDING * dt), sqrt);
  }

  // One sliding step adds at most SLIDING * dt to the speed.
  lemma SpeedAfterSliding(b: Body, dt: real, sqrt: real -> real)
    requires IsSqrt(sqrt) && b.radius > 0.0 && Norm(Slip(b), sqrt) > 0.0 && dt > 0.0
    ensures Norm(Dragged(b, Drag(Slip(b), Norm(Slip(b), sqrt), dt)).vel, sqrt) <= Norm(b.vel, sqrt) + SLIDING * dt
  {
    DragIsAgainstSlip(Slip(b), dt, sqrt);
    DirectionIsUnit(Slip(b), sqrt);
    NormSquared(b.vel, sqrt);
    Triangle(b.vel, Direction(Slip(b), sqrt), SLIDING * dt, Norm(b.vel, sqrt), sqrt);
  }

  lemma Triangle(v: Vec, u: Vec, k: real, p: real, sqrt: real -> real)
    requires IsSqrt(sqrt) && u.Sq() == 1.0 && k >= 0.0 && p >= 0.0 && p * p == v.Sq()
    ensures Norm(v.Plus(u.Times(-k)), sqrt) <= p + k
  {
    TriangleSquares(v, u, k, p);
    NormAtMost(v.Plus(u.Times(-k)), p + k, sqrt);
  }

  lemma TriangleSquares(v: Vec, u: Vec, k: real, p: real)
    requires u.Sq() == 1.0 && k >= 0.0 && p >= 0.0 && p * p == v.Sq()
    ensures v.Plus(u.Times(-k)).Sq() <= (p + k) * (p + k)
  {
    var c := v.Dot(u);
    Cauchy(v, u, p, c);
    NonNegativeProduct(k, p + c, k * p + k * c);
    assert v.Plus(u.Times(-k)).Sq() == v.Sq() - 2.0 * (k * c) + u.Sq() * (k * k) by { Expanded(v, u, k); }
    assert (p + k) * (p + k) == p * p + 2.0 * (k * p) + k * k;
  }

  lemma Expanded(v: Vec, u: Vec, k: real)
    ensures v.Plus(u.Times(-k)).Sq() == v.Sq() - 2.0 * (k * v.Dot(u)) + u.Sq() * (k * k)
  {
  }

  lemma Cauchy(v: Vec, u: Vec, p: real, c: real)
    requires u.Sq() == 1.0 && p >= 0.0 && p * p == v.Sq() && c == v.Dot(u)
    ensures -p <= c <= p
  {
    FrameOf(u, v);
    SquareNonNegative(v.Dot(u.Left()), v.Dot(u.Left()) * v.Dot(u.Left()));
    ShorterThan(Abs(c), p, c * c);
  }

  // ---- Rolling

  lemma RollingHasNoSlip(b: Body, vel: Vec)
    requires b.radius > 0.0
    ensures Slip(b.(vel := vel, spin := RollingSpin(vel, b.radius))) == ORIGIN
  {
    Quotient(vel.y, b.radius);
    Quotient(-vel.x, b.radius);
  }

  lemma NormOfOrigin(sqrt: real -> real)
    requires IsSqrt(sqrt)
    ensures Norm(ORIGIN, sqrt) == 0.0
  {
    NormSquared(ORIGIN, sqrt);
    SquareNonNegative(Norm(ORIGIN, sqrt), 0.0);
  }

  lemma NormScaled(v: Vec, k: real, sqrt: real -> real)
    requires IsSqrt(sqrt) && k >= 0.0
    ensures Norm(v.Times(k), sqrt) == Norm(v, sqrt) * k
  {
    NormSquared(v, sqrt);
    ScaledSquares(v, k, Norm(v, sqrt));
    NonNegativeProduct(Norm(v, sqrt), k, Norm(v, sqrt) * k);
    NormIs(v.Times(k), Norm(v, sqrt) * k, sqrt);
  }

  lemma ScaledSquares(v: Vec, k: real, p: real)
    requires p * p == v.Sq()
    ensures (p * k) * (p * k) == v.Times(k).Sq()
  {
    assert v.Times(k).Sq() == v.Sq() * (k * k);
    assert (p * k) * (p * k) == (p * p) * (k * k);
  }

  // A rolling step ends at rest, or rolling without slip at a speed lower by a fixed amount.
  lemma AfterRolling(b: Body, dt: real, sqrt: real -> real)
    requires IsSqrt(sqrt) && b.radius > 0.0 && dt > 0.0
    ensures var speed := Norm(b.vel, sqrt);
      var c := Rolled(b, speed, dt, sqrt);
      AtRest(c) || (speed > ROLLING * dt && Slip(c) == ORIGIN && Norm(c.vel, sqrt) == speed - ROLLING * dt)
  {
    NormSquared(b.vel, sqrt);
    if Norm(b.vel, sqrt) > ROLLING * dt {
      SlowedBy(b.vel, Norm(b.vel, sqrt), Norm(b.vel, sqrt) - ROLLING * dt, sqrt);
      RollingHasNoSlip(b, b.vel.Times((Norm(b.vel, sqrt) - ROLLING * dt) / Norm(b.vel, sqrt)));
    } else if Norm(b.vel, sqrt) == 0.0 {
      StandingStillSettles(b, sqrt);
    }
  }

  lemma SlowedBy(v: Vec, speed: real, next: real, sqrt: real -> real)
    requires IsSqrt(sqrt) && speed == Norm(v, sqrt) && speed > 0.0 && next > 0.0
    ensures Norm(v.Times(next / speed), sqrt) == next
  {
    QuotientPositive(next, speed);
    NormScaled(v, next / speed, sqrt);
    Quotient(next, speed);
  }

  lemma StandingStillSettles(b: Body, sqrt: real -> real)
    requires IsSqrt(sqrt) && b.radius > 0.0 && b.vel == ORIGIN
    ensures Settled(b, b.vel, sqrt) == Stopped(b)
  {
    assert RollingSpin(ORIGIN, b.radius) == ORIGIN;
    NormOfOrigin(sqrt);
  }

  lemma QuotientPositive(a: real, b: real)
    requires a > 0.0 && b > 0.0
    ensures a / b > 0.0
  {
  }

  // ---- One step in figures

  lemma SlipInFigures(b: Body)
    ensures Slip(b) == Vec(b.vel.x + b.spin.y * b.radius, b.vel.y - b.spin.x * b.radius)
  {
    var vel, spin, r := b.vel, b.spin, b.radius;
    assert SlipOf(vel, spin, r) == Vec(vel.x + spin.y * r, vel.y - spin.x * r);
  }

  // A slow ball that hardly slips stops.
  lemma SlowBallStopsExactly(b: Body, dt: real, sqrt: real -> real, slip: Vec)
    requires b.radius > 0.0 && slip == Vec(b.vel.x + b.spin.y * b.radius, b.vel.y - b.spin.x * b.radius)
    ensures Norm(b.vel, sqrt) < 0.003 && Norm(slip, sqrt) < 0.018 ==>
      Friction(b, dt, sqrt) == b.(vel := Vec(0.0, 0.0), spin := Vec(0.0, 0.0))
  {
    SlipInFigures(b);
  }

  lemma SlippingBallIsDragged(b: Body, dt: real, sqrt: real -> real, slip: Vec)
    requires b.radius > 0.0 && slip == Slip(b) && Norm(slip, sqrt) > 0.018
    ensures Friction(b, dt, sqrt) == Dragged(b, Drag(slip, Norm(slip, sqrt), dt))
  {
  }

  lemma DraggedInFigures(b: Body, f: Vec)
    requires b.radius > 0.0
    ensures var c := Dragged(b, f);
      && c.vel == Vec(b.vel.x + f.x, b.vel.y + f.y)
      && b.radius * c.spin.x == b.radius * b.spin.x - 2.5 * f.y
      && b.radius * c.spin.y == b.radius * b.spin.y + 2.5 * f.x
      && c.pos == b.pos && c.radius == b.radius && c.sunk == b.sunk && c.sinking == b.sinking
  {
    SpinOnRim(b.spin.x, -f.y, b.radius);
    SpinOnRim(b.spin.y, f.x, b.radius);
  }

  // A slipping ball is slowed against its slip, by 0.18 times gravity, and spun by two and a half
  // times that on its rim.
  lemma SlippingBall(b: Body, dt: real, sqrt: real -> real, slip: Vec, f: Vec)
    requires b.radius > 0.0 && slip == Vec(b.vel.x + b.spin.y * b.radius, b.vel.y - b.spin.x * b.radius)
    requires Norm(slip, sqrt) > 0.018 && f == Direction(slip, sqrt).Times(-(0.18 * 9.81 * dt))
    ensures var c := Friction(b, dt, sqrt);
      && c.vel == Vec(b.vel.x + f.x, b.vel.y + f.y)
      && b.radius * c.spin.x == b.radius * b.spin.x - 2.5 * f.y
      && b.radius * c.spin.y == b.radius * b.spin.y + 2.5 * f.x
      && c.pos == b.pos && c.radius == b.radius && c.sunk == b.sunk && c.sinking == b.sinking
  {
    SlipInFigures(b);
    DragIsAgainstSlip(slip, dt, sqrt);
    SlippingBallIsDragged(b, dt, sqrt, slip);
    DraggedInFigures(b, f);
  }

  lemma RollingBallIsRolled(b: Body, dt: real, sqrt: real -> real, speed: real)
    requires b.radius > 0.0 && speed == Norm(b.vel, sqrt)
    requires Norm(Slip(b), sqrt) <= 0.018 && (speed >= 0.003 || Norm(Slip(b), sqrt) == 0.018)
    ensures Friction(b, dt, sqrt) == Rolled(b, speed, dt, sqrt)
  {
  }

  // A rolling ball keeps its direction and loses 0.035 times gravity of its speed; its spin is
  // made to match. It stops when too little is left of both.
  lemma RollingBall(b: Body, dt: real, sqrt: real -> real, speed: real, k: real, vel: Vec)
    requires IsSqrt(sqrt) && b.radius > 0.0 && dt > 0.0 && speed == Norm(b.vel, sqrt)
    requires Norm(Slip(b), sqrt) <= 0.018 && (speed >= 0.003 || Norm(Slip(b), sqrt) == 0.018)
    requires speed > 0.035 * 9.81 * dt && k == (speed - 0.035 * 9.81 * dt) / speed && vel == b.vel.Times(k)
    ensures 0.0 < k < 1.0 && Norm(vel, sqrt) == speed - 0.035 * 9.81 * dt
    ensures var c := Friction(b, dt, sqrt);
      var spin := Vec(vel.y / b.radius, -vel.x / b.radius);
      if Norm(vel, sqrt) < 0.003 && Norm(spin, sqrt) < 0.08 then c.vel == c.spin == Vec(0.0, 0.0)
      else c.vel == vel && c.spin == spin
  {
    PartOfOne(speed - ROLLING * dt, speed);
    SlowedBy(b.vel, speed, speed - ROLLING * dt, sqrt);
    RollingBallIsRolled(b, dt, sqrt, speed);
  }

  lemma PartOfOne(a: real, b: real)
    requires 0.0 < a < b
    ensures 0.0 < a / b < 1.0
  {
    QuotientPositive(a, b);
    Quotient(a, b);
    if a / b >= 1.0 { NonNegativeProduct(a / b - 1.0, b, a / b * b - b); }
  }

  lemma SpentBallStops(b: Body, dt: real, sqrt: real -> real)
    requires IsSqrt(sqrt) && b.radius > 0.0 && dt > 0.0
    requires Norm(Slip(b), sqrt) <= 0.018 && Norm(b.vel, sqrt) <= 0.035 * 9.81 * dt
    ensures AtRest(Friction(b, dt, sqrt))
  {
    var speed := Norm(b.vel, sqrt);
    NormSquared(b.vel, sqrt);
    if speed >= 0.003 || Norm(Slip(b), sqrt) == 0.018 {
      RollingBallIsRolled(b, dt, sqrt, speed);
      SpentRollStops(b, speed, dt, sqrt);
    }
  }

  lemma SpentRollStops(b: Body, speed: real, dt: real, sqrt: real -> real)
    requires IsSqrt(sqrt) && b.radius > 0.0 && speed == Norm(b.vel, sqrt) && 0.0 <= speed <= ROLLING * dt
    requires speed == 0.0 ==> b.vel == ORIGIN
    ensures AtRest(Rolled(b, speed, dt, sqrt))
  {
    if speed == 0.0 { StandingStillSettles(b, sqrt); }
  }

  // ---- Coming to rest

  // How many steps of this drop it takes for a slip speed to fall under the threshold.
  function Slides(slip: real, drop: real): nat
    requires slip >= 0.0 && drop > 0.0
  {
    if slip <= SLIP_THRESHOLD then 0 else Fits(slip, drop) + 1
  }

  // How often `part` fits into `whole`.
  function Fits(whole: real, part: real): nat
    requires whole >= 0.0 && part > 0.0
  {
    QuotientNonNegative(whole, part);
    (whole / part).Floor
  }

  lemma QuotientNonNegative(a: real, b: real)
    requires a >= 0.0 && b > 0.0
    ensures a / b >= 0.0
  {
  }

  lemma FitsOneLess(whole: real, part: real)
    requires part > 0.0 && whole >= part
    ensures Fits(whole - part, part) == Fits(whole, part) - 1
  {
    assert (whole - part) / part == whole / part - 1.0 by {
      DifferenceQuotient(whole, part);
    }
  }

  lemma DifferenceQuotient(a: real, b: real)
    requires b > 0.0
    ensures (a - b) / b == a / b - 1.0
  {
    Quotient(a - b, b);
    Quotient(a, b);
    OnlyZero((a - b) / b - a / b + 1.0, b, (a - b) / b * b - a / b * b + b);
  }

  lemma OnlyZero(x: real, b: real, k: real)
    requires b > 0.0 && k == x * b && k == 0.0
    ensures x == 0.0
  {
    if x > 0.0 { PositiveProduct(x, b, k); }
    if x < 0.0 { PositiveProduct(-x, b, -k); }
  }

  lemma FitsGrows(a: real, b: real, part: real)
    requires part > 0.0 && 0.0 <= a <= b
    ensures Fits(a, part) <= Fits(b, part)
  {
    QuotientNonNegative(b - a, part);
    assert b / part == a / part + (b - a) / part;
  }

  lemma SlidesGetFewer(slip: real, drop: real)
    requires 0.0 < drop <= 2.0 * SLIP_THRESHOLD && slip > SLIP_THRESHOLD
    ensures Slides(Abs(slip - drop), drop) < Slides(slip, drop)
  {
    if slip - drop > SLIP_THRESHOLD {
      FitsOneLess(slip, drop);
    }
  }

  // Steps a ball still has to go: the slides, then the rolls that use up the speed it has and
  // the speed the slides may add, then one to settle.
  function StepsLeft(slip: real, speed: real, dt: real): nat
    requires slip >= 0.0 && speed >= 0.0 && dt > 0.0
  {
    var slides := Slides(slip, 3.5 * (SLIDING * dt));
    slides + Fits(speed + Added(slides, dt), ROLLING * dt) + 1
  }

  function Added(slides: nat, dt: real): real
    requires dt > 0.0
    ensures Added(slides, dt) >= 0.0
  {
    NonNegativeProduct(slides as real, SLIDING * dt, slides as real * (SLIDING * dt));
    slides as real * (SLIDING * dt)
  }

  lemma AddedOneMore(k: nat, k': nat, dt: real)
    requires dt > 0.0 && k' < k
    ensures Added(k', dt) + SLIDING * dt <= Added(k, dt)
  {
    NonNegativeProduct((k - 1 - k') as real, SLIDING * dt, Added(k, dt) - Added(k', dt) - SLIDING * dt);
  }

  lemma StepsAfterSlide(slip: real, speed: real, speed': real, dt: real)
    requires dt > 0.0 && 3.5 * (SLIDING * dt) <= 2.0 * SLIP_THRESHOLD
    requires slip > SLIP_THRESHOLD && speed >= 0.0 && 0.0 <= speed' <= speed + SLIDING * dt
    ensures StepsLeft(Abs(slip - 3.5 * (SLIDING * dt)), speed', dt) < StepsLeft(slip, speed, dt)
  {
    var drop := 3.5 * (SLIDING * dt);
    SlidesGetFewer(slip, drop);
    var k, k' := Slides(slip, drop), Slides(Abs(slip - drop), drop);
    AddedOneMore(k, k', dt);
    FitsGrows(speed' + Added(k', dt), speed + Added(k, dt), ROLLING * dt);
  }

  lemma StepsAfterRoll(speed: real, dt: real)
    requires dt > 0.0 && speed >= ROLLING * dt
    ensures StepsLeft(0.0, speed - ROLLING * dt, dt) < StepsLeft(0.0, speed, dt)
  {
    assert Added(0, dt) == 0.0;
    FitsOneLess(speed, ROLLING * dt);
  }

  lemma StepsWithLessSlip(slip: real, speed: real, dt: real)
    requires dt > 0.0 && 0.0 <= slip <= SLIP_THRESHOLD && speed >= 0.0
    ensures StepsLeft(slip, speed, dt) == StepsLeft(0.0, speed, dt)
  {
  }

  ghost function Rank(b: Body, dt: real, sqrt: real -> real): nat
    requires dt > 0.0 && IsSqrt(sqrt)
  {
    NormSquared(b.vel, sqrt);
    NormSquared(Slip(b), sqrt);
    if AtRest(b) then 0 else StepsLeft(Norm(Slip(b), sqrt), Norm(b.vel, sqrt), dt)
  }

  // The step is short enough: one slide cannot overshoot from above the threshold to above it.
  predicate ShortStep(dt: real) {
    3.5 * (SLIDING * dt) <= 2.0 * SLIP_THRESHOLD
  }

  lemma FrictionLowersRank(b: Body, dt: real, sqrt: real -> real)
    requires IsSqrt(sqrt) && b.radius > 0.0 && dt > 0.0 && ShortStep(dt)
    ensures Rank(Friction(b, dt, sqrt), dt, sqrt) < Rank(b, dt, sqrt) || AtRest(b)
  {
    NormSquared(b.vel, sqrt);
    NormSquared(Slip(b), sqrt);
    var speed, slip := Norm(b.vel, sqrt), Norm(Slip(b), sqrt);
    var c := Friction(b, dt, sqrt);
    NormSquared(c.vel, sqrt);
    if AtRest(b) || AtRest(c) {
    } else if slip > SLIP_THRESHOLD {
      SlipAfterSliding(b, dt, sqrt);
      SpeedAfterSliding(b, dt, sqrt);
      StepsAfterSlide(slip, speed, Norm(c.vel, sqrt), dt);
    } else {
      AfterRolling(b, dt, sqrt);
      NormOfOrigin(sqrt);
      StepsWithLessSlip(slip, speed, dt);
      StepsAfterRoll(speed, dt);
    }
  }

  lemma AtRestIsStill(b: Body)
    requires AtRest(b)
    ensures b.vel == ORIGIN && Slip(b) == ORIGIN
  {
  }

  lemma SlipAtRest(b: Body, sqrt: real -> real)
    requires IsSqrt(sqrt) && AtRest(b)
    ensures Norm(b.vel, sqrt) == 0.0 && Norm(Slip(b), sqrt) == 0.0
  {
    AtRestIsStill(b);
    NormOfOrigin(sqrt);
  }

  lemma SlowBallStops(b: Body, dt: real, sqrt: real -> real)
    requires b.radius > 0.0 && Norm(b.vel, sqrt) < STOP_SPEED && Norm(Slip(b), sqrt) < SLIP_THRESHOLD
    ensures Friction(b, dt, sqrt) == Stopped(b)
  {
  }

  lemma RestIsKept(b: Body, dt: real, sqrt: real -> real)
    requires b.radius > 0.0 && AtRest(b) && Norm(b.vel, sqrt) == 0.0 && Norm(Slip(b), sqrt) == 0.0
    ensures Friction(b, dt, sqrt) == b
  {
    SlowBallStops(b, dt, sqrt);
  }

  function Iterate(b: Body, n: nat, dt: real, sqrt: real -> real): Body
    requires b.radius > 0.0
    decreases n
  {
    if n == 0 then b else Iterate(Friction(b, dt, sqrt), n - 1, dt, sqrt)
  }

  lemma RankFalls(b: Body, n: nat, dt: real, sqrt: real -> real)
    requires IsSqrt(sqrt) && b.radius > 0.0 && dt > 0.0 && ShortStep(dt)
    requires n > 0 && n >= Rank(b, dt, sqrt)
    ensures n - 1 >= Rank(Friction(b, dt, sqrt), dt, sqrt)
  {
    if AtRest(b) {
      SlipAtRest(b, sqrt);
      RestIsKept(b, dt, sqrt);
    } else {
      FrictionLowersRank(b, dt, sqrt);
    }
  }

  lemma RestOneLater(b: Body, n: nat, dt: real, sqrt: real -> real)
    requires b.radius > 0.0 && n > 0
    ensures AtRest(Iterate(Friction(b, dt, sqrt), n - 1, dt, sqrt)) ==> AtRest(Iterate(b, n, dt, sqrt))
  {
  }

  lemma OneStepCloser(b: Body, n: nat, dt: real, sqrt: real -> real) returns (c: Body)
    requires IsSqrt(sqrt) && b.radius > 0.0 && dt > 0.0 && ShortStep(dt)
    requires n > 0 && n >= Rank(b, dt, sqrt)
    ensures c.radius == b.radius && n - 1 >= Rank(c, dt, sqrt)
    ensures AtRest(Iterate(c, n - 1, dt, sqrt)) ==> AtRest(Iterate(b, n, dt, sqrt))
  {
    c := Friction(b, dt, sqrt);
    RankFalls(b, n, dt, sqrt);
    RestOneLater(b, n, dt, sqrt);
  }

  // With a short step a ball is at rest after Rank(b) steps and stays so.
  lemma {:induction false} ComesToRest(b: Body, n: nat, dt: real, sqrt: real -> real)
    requires IsSqrt(sqrt) && b.radius > 0.0 && dt > 0.0 && ShortStep(dt)
    requires n >= Rank(b, dt, sqrt)
    ensures AtRest(Iterate(b, n, dt, sqrt))
    decreases n
  {
    if n > 0 {
      var c := OneStepCloser(b, n, dt, sqrt);
      ComesToRest(c, n - 1, dt, sqrt);
    }
  }

  // The engine's 240 steps a second are short enough.
  lemma EngineStepIsShort()
    ensures ShortStep(1.0 / 240.0)
  {
  }

  // ---- Too long a step

  // A ball that starts with half a drop of slip along x and no spin.
  function Skidding(radius: real, dt: real): Body {
    Body(ORIGIN, Vec(1.75 * (SLIDING * dt), 0.0), ORIGIN, radius, false, false)
  }

  // One step later: as much slip the other way.
  function SkiddingBack(radius: real, dt: real): Body
    requires radius > 0.0
  {
    Body(ORIGIN, Vec(0.75 * (SLIDING * dt), 0.0), Vec(0.0, -(SLIDING * dt) * (2.5 / radius)), radius, false, false)
  }

  lemma SlipOfSkid(radius: real, dt: real)
    requires radius > 0.0
    ensures Slip(Skidding(radius, dt)) == Vec(1.75 * (SLIDING * dt), 0.0)
    ensures Slip(SkiddingBack(radius, dt)) == Vec(-1.75 * (SLIDING * dt), 0.0)
  {
    SpinOnRim(0.0, -(SLIDING * dt), radius);
  }

  lemma UnitX(k: real, sqrt: real -> real)
    requires IsSqrt(sqrt) && k != 0.0
    ensures Norm(Vec(k, 0.0), sqrt) == Abs(k)
    ensures k / Abs(k) == (if k > 0.0 then 1.0 else -1.0) && 0.0 / Abs(k) == 0.0
  {
    assert Vec(k, 0.0) == Vec(1.0, 0.0).Times(k);
    NormOfMultiple(Vec(1.0, 0.0), k, sqrt);
  }

  // Under a longer step the two states follow each other for ever.
  lemma SkidsForthAndBack(radius: real, dt: real, sqrt: real -> real)
    requires IsSqrt(sqrt) && radius > 0.0 && dt > 0.0 && !ShortStep(dt)
    ensures Friction(Skidding(radius, dt), dt, sqrt) == SkiddingBack(radius, dt)
    ensures Friction(SkiddingBack(radius, dt), dt, sqrt) == Skidding(radius, dt)
  {
    SlipOfSkid(radius, dt);
    UnitX(1.75 * (SLIDING * dt), sqrt);
    UnitX(-1.75 * (SLIDING * dt), sqrt);
  }

  lemma {:induction false} NeverRests(radius: real, n: nat, dt: real, sqrt: real -> real)
    requires IsSqrt(sqrt) && radius > 0.0 && dt > 0.0 && !ShortStep(dt)
    ensures !AtRest(Iterate(Skidding(radius, dt), n, dt, sqrt))
    ensures !AtRest(Iterate(SkiddingBack(radius, dt), n, dt, sqrt))
  {
    if n > 0 {
      SkidsForthAndBack(radius, dt, sqrt);
      NeverRests(radius, n - 1, dt, sqrt);
    }
  }

  ghost predicate Rests(b: Body, dt: real, sqrt: real -> real)
    requires b.radius > 0.0
  {
    exists n: nat :: AtRest(Iterate(b, n, dt, sqrt))
  }

  lemma RestsOnShortSteps(b: Body, dt: real, sqrt: real -> real)
    requires IsSqrt(sqrt) && b.radius > 0.0 && dt > 0.0 && ShortStep(dt)
    ensures Rests(b, dt, sqrt)
  {
    ComesToRest(b, Rank(b, dt, sqrt), dt, sqrt);
  }

  lemma SkiddingDoesNotRest(radius: real, dt: real, sqrt: real -> real)
    requires IsSqrt(sqrt) && radius > 0.0 && dt > 0.0 && !ShortStep(dt)
    ensures !Rests(Skidding(radius, dt), dt, sqrt)
  {
    forall n: nat ensures !AtRest(Iterate(Skidding(radius, dt), n, dt, sqrt)) {
      NeverRests(radius, n, dt, sqrt);
    }
  }

  lemma ShortStepInFigures(dt: real)
    ensures ShortStep(dt) <==> 3.5 * 0.18 * 9.81 * dt <= 0.036
  {
  }

  // Friction brings every ball of a given size to rest exactly when the step is short.
  lemma EveryBallRestsExactlyWhenTheStepIsShort(radius: real, dt: real, sqrt: real -> real)
    requires IsSqrt(sqrt) && dt > 0.0 && radius > 0.0
    ensures (forall b: Body :: b.radius == radius ==> Rests(b, dt, sqrt)) <==> ShortStep(dt)
  {
    if ShortStep(dt) {
      forall b: Body | b.radius == radius ensures Rests(b, dt, sqrt) {
        RestsOnShortSteps(b, dt, sqrt);
      }
    } else {
      SkiddingDoesNotRest(radius, dt, sqrt);
    }
  }

  // ---- The method

  method ApplyFeltFriction(ball: Ball, dt: real, sqrt: real -> real)
    requires ball.radius > 0.0
    modifies ball
    ensures ball.State() == Friction(old(ball.State()), dt, sqrt)
  {
    var speed := Norm(Vec(ball.vx, ball.vy), sqrt);
    var slip := SlipOf(Vec(ball.vx, ball.vy), Vec(ball.spinX, ball.spinY), ball.radius);
    var slipSpeed := Norm(slip, sqrt);
    if speed < STOP_SPEED && slipSpeed < SLIP_THRESHOLD {
      StopBall(ball);
      return;
    }
    if slipSpeed > SLIP_THRESHOLD {
      var f := Drag(slip, slipSpeed, dt);
      ball.vx, ball.vy := ball.vx + f.x, ball.vy + f.y;
      var spun := DraggedSpin(Vec(ball.spinX, ball.spinY), f, 2.5 / ball.radius);
      ball.spinX, ball.spinY := spun.x, spun.y;
      return;
    }
    if speed > 0.0 {
      var nextSpeed := if speed - ROLLING * dt > 0.0 then speed - ROLLING * dt else 0.0;
      var next := Vec(ball.vx, ball.vy).Times(nextSpeed / speed);
      ball.vx, ball.vy := next.x, next.y;
      if nextSpeed == 0.0 {
        StopBall(ball);
        return;
      }
    }
    var spin := RollingSpin(Vec(ball.vx, ball.vy), ball.radius);
    ball.spinX, ball.spinY := spin.x, spin.y;
    if Norm(Vec(ball.vx, ball.vy), sqrt) < STOP_SPEED && Norm(spin, sqrt) < STOP_SPIN {
      StopBall(ball);
    }
  }

  method StopBall(ball: Ball)
    modifies ball
    ensures ball.State() == Stopped(old(ball.State()))
  {
    ball.vx, ball.vy, ball.spinX, ball.spinY := 0.0, 0.0, 0.0, 0.0;
  }
}
