/** Bouncing off the cushion, and the two collision phases as the loops the engine runs
    (engine.ts: resolveCushionCollision, stepSimulation phases 2 and 3). */
module Cushions {
  import opened Bodies
  import opened Collisions

  // How squarely a ball hits, from 0 (grazing) to 1 (head on).
  function Directness(vel: Vec, vn: real, sqrt: real -> real): real {
    var speed := Norm(vel, sqrt);
    if speed > 0.0 then Abs(vn) / speed else 1.0
  }

  function Restitution(directness: real): real { 0.72 + (0.84 - 0.72) * directness }

  function Damping(directness: real): real { 0.76 + (0.9 - 0.76) * directness }

  // Velocity after the bounce off a cushion whose inward normal is n.
  function BouncedVel(vel: Vec, n: Vec, directness: real): Vec {
    n.Times(-vel.Dot(n) * Restitution(directness)).Plus(n.Left().Times(vel.Dot(n.Left()) * Damping(directness)))
  }

  function BouncedSpin(spin: Vec, t: Vec, loss: real, r: real): Vec
    requires r > 0.0
  {
    Vec((spin.x + (t.y * loss * 1.8) / r) * 0.92, (spin.y + (-t.x * loss * 1.8) / r) * 0.92)
  }

  function TangentLoss(vt: real, directness: real): real {
    vt - vt * Damping(directness)
  }

  function Bounce(b: Body, n: Vec, sqrt: real -> real): Body
    requires b.radius > 0.0
  {
    var vn, vt := b.vel.Dot(n), b.vel.Dot(n.Left());
    if vn >= 0.0 then b
    else
      var directness := Directness(b.vel, vn, sqrt);
      b.(vel := BouncedVel(b.vel, n, directness),
         spin := BouncedSpin(b.spin, n.Left(), TangentLoss(vt, directness), b.radius))
  }

  lemma DirectnessIsAFraction(vel: Vec, n: Vec, vn: real, sqrt: real -> real)
    requires IsSqrt(sqrt) && n.Sq() == 1.0 && vn == vel.Dot(n)
    ensures 0.0 <= Directness(vel, vn, sqrt) <= 1.0
  {
    PartOfSpeed(vel, n, vn, Norm(vel, sqrt), sqrt);
    DirectnessOfAPart(vel, vn, sqrt);
  }

  lemma PartOfSpeed(vel: Vec, n: Vec, vn: real, speed: real, sqrt: real -> real)
    requires IsSqrt(sqrt) && n.Sq() == 1.0 && vn == vel.Dot(n) && speed == Norm(vel, sqrt)
    ensures Abs(vn) <= speed
  {
    NormSquared(vel, sqrt);
    ComponentIsShorter(vel, n, speed, vn);
  }

  lemma DirectnessOfAPart(vel: Vec, vn: real, sqrt: real -> real)
    requires Abs(vn) <= Norm(vel, sqrt)
    ensures 0.0 <= Directness(vel, vn, sqrt) <= 1.0
  {
    if Norm(vel, sqrt) > 0.0 { FractionOf(Abs(vn), Norm(vel, sqrt)); }
  }

  lemma ComponentIsShorter(vel: Vec, n: Vec, speed: real, vn: real)
    requires n.Sq() == 1.0 && vn == vel.Dot(n) && speed >= 0.0 && speed * speed == vel.Sq()
    ensures Abs(vn) <= speed
  {
    FrameOf(n, vel);
    SquareNonNegative(vel.Dot(n.Left()), vel.Dot(n.Left()) * vel.Dot(n.Left()));
    ShorterThan(Abs(vn), speed, vn * vn);
  }

  lemma FractionOf(a: real, b: real)
    requires 0.0 <= a <= b && b > 0.0
    ensures 0.0 <= a / b <= 1.0
  {
  }

  // A factor of at most one shrinks a square.
  lemma ScaledSquare(v: real, e: real, k: real, s: real)
    requires 0.0 <= e <= 1.0 && k == v * v && s == (v * e) * (v * e)
    ensures s <= k
  {
    var m := 1.0 - e * e;
    NonNegativeProduct(1.0 - e, 1.0 + e, m);
    SquareNonNegative(v, k);
    NonNegativeProduct(k, m, k - s);
  }

  // A bounce never adds linear kinetic energy.
  lemma BounceTakesEnergy(vel: Vec, n: Vec, directness: real)
    requires n.Sq() == 1.0 && 0.0 <= directness <= 1.0
    ensures BouncedVel(vel, n, directness).Sq() <= vel.Sq()
  {
    var vn, vt := vel.Dot(n), vel.Dot(n.Left());
    var a, b := -vn * Restitution(directness), vt * Damping(directness);
    ScaledSquare(-vn, Restitution(directness), vn * vn, a * a);
    ScaledSquare(vt, Damping(directness), vt * vt, b * b);
    BounceBudget(vel, n, vn, vt, a, b);
  }

  lemma BounceBudget(vel: Vec, n: Vec, vn: real, vt: real, a: real, b: real)
    requires n.Sq() == 1.0 && vn == vel.Dot(n) && vt == vel.Dot(n.Left())
    requires a * a <= vn * vn && b * b <= vt * vt
    ensures n.Times(a).Plus(n.Left().Times(b)).Sq() <= vel.Sq()
  {
    Frame(n, a, b);
    FrameOf(n, vel);
  }

  // A ball that ran into the cushion leaves it inwards, at 72 to 84 per cent of its normal speed.
  lemma BounceTurnsInward(vel: Vec, n: Vec, directness: real)
    requires n.Sq() == 1.0 && 0.0 <= directness <= 1.0 && vel.Dot(n) < 0.0
    ensures 0.72 * -vel.Dot(n) <= BouncedVel(vel, n, directness).Dot(n) <= 0.84 * -vel.Dot(n)
  {
    var u, e := -vel.Dot(n), Restitution(directness);
    InwardSpeed(n, u, e, vel.Dot(n.Left()) * Damping(directness), BouncedVel(vel, n, directness).Dot(n));
  }

  lemma InwardSpeed(n: Vec, u: real, e: real, b: real, w: real)
    requires n.Sq() == 1.0 && u > 0.0 && 0.72 <= e <= 0.84
    requires w == n.Times(u * e).Plus(n.Left().Times(b)).Dot(n)
    ensures 0.72 * u <= w <= 0.84 * u
  {
    Frame(n, u * e, b);
    NonNegativeProduct(u, e - 0.72, w - 0.72 * u);
    NonNegativeProduct(u, 0.84 - e, 0.84 * u - w);
  }

  // Along the cushion it goes on the way it went, at 76 to 90 per cent.
  lemma BounceKeepsItsWay(vel: Vec, n: Vec, directness: real, vt: real, w: real)
    requires n.Sq() == 1.0 && 0.0 <= directness <= 1.0
    requires vt == vel.Dot(n.Left()) && w == BouncedVel(vel, n, directness).Dot(n.Left())
    ensures vt >= 0.0 ==> 0.76 * vt <= w <= 0.9 * vt
    ensures vt <= 0.0 ==> 0.9 * vt <= w <= 0.76 * vt
  {
    Frame(n, -vel.Dot(n) * Restitution(directness), vt * Damping(directness));
    BetweenFactors(vt, Damping(directness), w);
  }

  lemma BetweenFactors(vt: real, e: real, w: real)
    requires 0.76 <= e <= 0.9 && w == vt * e
    ensures vt >= 0.0 ==> 0.76 * vt <= w <= 0.9 * vt
    ensures vt <= 0.0 ==> 0.9 * vt <= w <= 0.76 * vt
  {
    if vt >= 0.0 {
      NonNegativeProduct(vt, e - 0.76, w - 0.76 * vt);
      NonNegativeProduct(vt, 0.9 - e, 0.9 * vt - w);
    } else {
      NonNegativeProduct(-vt, e - 0.76, 0.76 * vt - w);
      NonNegativeProduct(-vt, 0.9 - e, w - 0.9 * vt);
    }
  }

  // The bounce exactly, for a ball of speed v that runs into the cushion at u and along it at vt:
  // the squarer the hit, the more of both is left. What is lost along the cushion turns into spin,
  // of which a part is lost at once.
  lemma BounceInFigures(b: Body, n: Vec, sqrt: real -> real, v: real, u: real, vt: real)
    requires IsSqrt(sqrt) && b.radius > 0.0 && n.Sq() == 1.0
    requires v == Norm(b.vel, sqrt) && u == -b.vel.Dot(n) && u > 0.0 && vt == b.vel.Dot(Vec(-n.y, n.x))
    ensures var c := Bounce(b, n, sqrt);
      var w := c.vel.Dot(Vec(-n.y, n.x));
      && v * c.vel.Dot(n) == u * (0.72 * v + 0.12 * u)
      && v * w == vt * (0.76 * v + 0.14 * u)
      && b.radius * c.spin.x == 0.92 * (b.radius * b.spin.x + 1.8 * (vt - w) * n.x)
      && b.radius * c.spin.y == 0.92 * (b.radius * b.spin.y + 1.8 * (vt - w) * n.y)
      && c.pos == b.pos && c.radius == b.radius && c.sunk == b.sunk && c.sinking == b.sinking
  {
    assert n.Left() == Vec(-n.y, n.x);
    var d := Directness(b.vel, -u, sqrt);
    DirectnessTimesSpeed(b.vel, n, u, v, sqrt);
    Frame(n, u * Restitution(d), vt * Damping(d));
    FactorInFigures(u, v, u, d, 0.72, 0.12, Restitution(d));
    FactorInFigures(vt, v, u, d, 0.76, 0.14, Damping(d));
    SpinInFigures(b.spin, n, vt - vt * Damping(d), b.radius);
  }

  lemma DirectnessTimesSpeed(vel: Vec, n: Vec, u: real, v: real, sqrt: real -> real)
    requires IsSqrt(sqrt) && n.Sq() == 1.0 && v == Norm(vel, sqrt) && u == -vel.Dot(n) && u > 0.0
    ensures v > 0.0 && v * Directness(vel, -u, sqrt) == u
  {
    PartOfSpeed(vel, n, -u, v, sqrt);
    Quotient(u, v);
  }

  lemma FactorInFigures(a: real, v: real, u: real, d: real, low: real, more: real, e: real)
    requires v * d == u && e == low + more * d
    ensures v * (a * e) == a * (low * v + more * u)
  {
    assert v * (a * e) == a * (low * v + more * (v * d));
  }

  lemma SpinInFigures(spin: Vec, n: Vec, loss: real, r: real)
    requires r > 0.0
    ensures var s := BouncedSpin(spin, n.Left(), loss, r);
      && r * s.x == 0.92 * (r * spin.x + 1.8 * loss * n.x) && r * s.y == 0.92 * (r * spin.y + 1.8 * loss * n.y)
  {
    Quotient(n.x * loss * 1.8, r);
    Quotient(n.y * loss * 1.8, r);
  }

  // ---- One ball against the cushion

  function Outside(b: Body, sqrt: real -> real): bool {
    b.InPlay() && Norm(b.pos, sqrt) > TABLE_RADIUS - b.radius
  }

  function Cushioned(b: Body, sqrt: real -> real): Body
    requires b.radius > 0.0
  {
    if !Outside(b, sqrt) then b
    else
      var outward := Direction(b.pos, sqrt);
      Bounce(b.(pos := outward.Times(TABLE_RADIUS - b.radius)), outward.Times(-1.0), sqrt)
  }

  lemma InwardIsUnit(v: Vec, sqrt: real -> real)
    requires IsSqrt(sqrt)
    ensures Direction(v, sqrt).Times(-1.0).Sq() == 1.0
  {
    DirectionIsUnit(v, sqrt);
    OppositeLength(Direction(v, sqrt));
  }

  lemma OppositeLength(n: Vec)
    ensures n.Times(-1.0).Sq() == n.Sq()
  {
  }

  // A ball past the cushion is put back on the rim, in its direction; if it was running outwards
  // it now runs inwards, at 72 to 84 per cent of its normal speed, and along the cushion the way it
  // ran, at 76 to 90 per cent; and else as it was. Any other ball is left alone. No ball gains
  // energy.
  lemma CushionedLaws(b: Body, sqrt: real -> real)
    requires IsSqrt(sqrt) && 0.0 < b.radius <= TABLE_RADIUS
    ensures var c := Cushioned(b, sqrt);
      && Energy(c) <= Energy(b) && c.radius == b.radius && (c.InPlay() <==> b.InPlay())
      && (!Outside(b, sqrt) ==> c == b)
      && (Outside(b, sqrt) ==>
            var n := Direction(b.pos, sqrt).Times(-1.0);
            var vt, w := b.vel.Dot(Vec(-n.y, n.x)), c.vel.Dot(Vec(-n.y, n.x));
            && c.pos == Direction(b.pos, sqrt).Times(0.95 - b.radius)
            && Norm(c.pos, sqrt) == 0.95 - b.radius
            && (b.vel.Dot(n) < 0.0 ==>
                  && 0.72 * -b.vel.Dot(n) <= c.vel.Dot(n) <= 0.84 * -b.vel.Dot(n)
                  && (vt >= 0.0 ==> 0.76 * vt <= w <= 0.9 * vt) && (vt <= 0.0 ==> 0.9 * vt <= w <= 0.76 * vt))
            && (b.vel.Dot(n) >= 0.0 ==> c.vel == b.vel && c.spin == b.spin))
  {
    if Outside(b, sqrt) {
      var outward := Direction(b.pos, sqrt);
      var n := outward.Times(-1.0);
      DirectionIsUnit(b.pos, sqrt);
      InwardIsUnit(b.pos, sqrt);
      NormOfMultiple(outward, TABLE_RADIUS - b.radius, sqrt);
      if b.vel.Dot(n) < 0.0 {
        var directness := Directness(b.vel, b.vel.Dot(n), sqrt);
        DirectnessIsAFraction(b.vel, n, b.vel.Dot(n), sqrt);
        BounceTakesEnergy(b.vel, n, directness);
        BounceTurnsInward(b.vel, n, directness);
        BounceKeepsItsWay(b.vel, n, directness, b.vel.Dot(n.Left()),
                          BouncedVel(b.vel, n, directness).Dot(n.Left()));
      }
    }
  }

  // A ball in play is past the cushion when its rim is further out than the table's.
  lemma OutsideExactlyWhen(b: Body, sqrt: real -> real)
    requires b.radius > 0.0
    ensures !b.sunk && !b.sinking && Norm(b.pos, sqrt) > 0.95 - b.radius <==> Outside(b, sqrt)
    ensures b.sunk || b.sinking || Norm(b.pos, sqrt) <= 0.95 - b.radius ==> Cushioned(b, sqrt) == b
  {
  }

  function AllCushioned(bs: seq<Body>, sqrt: real -> real): seq<Body>
    requires ProperRadii(bs)
  {
    seq(|bs|, i requires 0 <= i < |bs| => assert bs[i] in bs; Cushioned(bs[i], sqrt))
  }

  predicate BallsFit(bs: seq<Body>) {
    forall b :: b in bs ==> 0.0 < b.radius <= TABLE_RADIUS
  }

  lemma CushionPhaseTakesEnergy(bs: seq<Body>, sqrt: real -> real)
    requires IsSqrt(sqrt) && BallsFit(bs)
    ensures Sum(AllCushioned(bs, sqrt), Energy) <= Sum(bs, Energy)
    ensures ProperRadii(AllCushioned(bs, sqrt))
  {
    var cs := AllCushioned(bs, sqrt);
    forall i | 0 <= i < |bs| ensures Energy(cs[i]) <= Energy(bs[i]) && cs[i].radius > 0.0 {
      assert bs[i] in bs;
      CushionedLaws(bs[i], sqrt);
    }
    SumOrder(cs, bs, Energy);
  }

  // Both phases together, from any state of any number of balls.
  lemma CollisionsNeverAddEnergy(bs: seq<Body>, sqrt: real -> real)
    requires IsSqrt(sqrt) && BallsFit(bs)
    ensures ProperRadii(AllCushioned(bs, sqrt))
    ensures Sum(PairsFrom(AllCushioned(bs, sqrt), 0, 1, sqrt), Energy) <= Sum(bs, Energy)
  {
    CushionPhaseTakesEnergy(bs, sqrt);
    CollisionPhaseLaws(AllCushioned(bs, sqrt), 0, 1, sqrt);
  }

  // ---- The loops

  method ResolveCushionCollision(ball: Ball, n: Vec, sqrt: real -> real)
    requires ball.radius > 0.0
    modifies ball
    ensures ball.State() == Bounce(old(ball.State()), n, sqrt)
  {
    var vel := Vec(ball.vx, ball.vy);
    var normalVelocity := vel.Dot(n);
    if normalVelocity >= 0.0 {
      return;
    }
    var tangentVelocity := vel.Dot(n.Left());
    var directness := Directness(vel, normalVelocity, sqrt);
    var next := BouncedVel(vel, n, directness);
    var tangentLoss := TangentLoss(tangentVelocity, directness);
    var spin := BouncedSpin(Vec(ball.spinX, ball.spinY), n.Left(), tangentLoss, ball.radius);
    ball.vx, ball.vy := next.x, next.y;
    ball.spinX, ball.spinY := spin.x, spin.y;
  }

  method CushionBall(ball: Ball, sqrt: real -> real)
    requires ball.radius > 0.0
    modifies ball
    ensures ball.State() == Cushioned(old(ball.State()), sqrt)
  {
    if ball.sunk || ball.sinking {
      return;
    }
    var distance := Norm(Vec(ball.x, ball.y), sqrt);
    var maxDistance := TABLE_RADIUS - ball.radius;
    if distance > maxDistance {
      var outward := Direction(Vec(ball.x, ball.y), sqrt);
      var rim := outward.Times(maxDistance);
      ball.x, ball.y := rim.x, rim.y;
      ResolveCushionCollision(ball, outward.Times(-1.0), sqrt);
    }
  }

  method CushionPhase(balls: seq<Ball>, sqrt: real -> real)
    requires DistinctBalls(balls) && ProperRadii(States(balls))
    modifies balls
    ensures States(balls) == AllCushioned(old(States(balls)), sqrt)
  {
    ghost var before := States(balls);
    for i := 0 to |balls|
      invariant forall k :: 0 <= k < |balls| ==> before[k] in before
      invariant forall k :: 0 <= k < |balls| ==>
        balls[k].State() == if k < i then Cushioned(before[k], sqrt) else before[k]
    {
      CushionBall(balls[i], sqrt);
    }
  }

  method ResolvePair(ballA: Ball, ballB: Ball, sqrt: real -> real)
    requires ballA != ballB && ballA.radius > 0.0 && ballB.radius > 0.0
    modifies ballA, ballB
    ensures (ballA.State(), ballB.State()) == Collide(old(ballA.State()), old(ballB.State()), sqrt)
  {
    var d := Vec(ballB.x, ballB.y).Minus(Vec(ballA.x, ballA.y));
    var dist := Norm(d, sqrt);
    var minDist := ballA.radius + ballB.radius;
    if dist >= minDist {
      return;
    }
    var n := Direction(d, sqrt);
    var shift := n.Times((minDist - dist) * 0.5);
    ballA.x, ballA.y := ballA.x - shift.x, ballA.y - shift.y;
    ballB.x, ballB.y := ballB.x + shift.x, ballB.y + shift.y;
    var rv := Vec(ballB.vx, ballB.vy).Minus(Vec(ballA.vx, ballA.vy));
    if rv.Dot(n) >= 0.0 {
      return;
    }
    var impulse := Impulse(n, rv);
    ballA.vx, ballA.vy := ballA.vx - impulse.x, ballA.vy - impulse.y;
    ballB.vx, ballB.vy := ballB.vx + impulse.x, ballB.vy + impulse.y;
    var kickA, kickB := SpinKick(n, rv, ballA.radius), SpinKick(n, rv, ballB.radius);
    ballA.spinX, ballA.spinY := ballA.spinX + kickA.x, ballA.spinY + kickA.y;
    ballB.spinX, ballB.spinY := ballB.spinX - kickB.x, ballB.spinY - kickB.y;
  }

  // The body of the inner loop.
  method MeetBall(balls: seq<Ball>, i: nat, j: nat, sqrt: real -> real)
    requires i < j < |balls| && DistinctBalls(balls) && ProperRadii(States(balls))
    requires States(balls)[i].InPlay()
    modifies balls[i], balls[j]
    ensures States(balls) == PairStep(old(States(balls)), i, j, sqrt)
  {
    ghost var before := States(balls);
    assert before[i] in before && before[j] in before;
    if balls[j].sunk || balls[j].sinking {
      return;
    }
    ghost var (a, b) := Collide(before[i], before[j], sqrt);
    ResolvePair(balls[i], balls[j], sqrt);
    assert balls[i].State() == a && balls[j].State() == b;
    assert forall k :: 0 <= k < |balls| && k != i && k != j ==> balls[k].State() == before[k];
    assert States(balls) == before[i := a][j := b];
  }

  lemma NextPair(bs: seq<Body>, i: nat, j: nat, sqrt: real -> real)
    requires i < j < |bs| && ProperRadii(bs)
    ensures ProperRadii(PairStep(bs, i, j, sqrt))
    ensures PairStep(bs, i, j, sqrt)[i].InPlay() <==> bs[i].InPlay()
    ensures PairsFrom(bs, i, j, sqrt) == PairsFrom(PairStep(bs, i, j, sqrt), i, j + 1, sqrt)
  {
    PairStepKeepsRadii(bs, i, j, sqrt);
  }

  lemma NextRow(bs: seq<Body>, i: nat, sqrt: real -> real)
    requires i < |bs| && ProperRadii(bs)
    ensures PairsFrom(bs, i, |bs|, sqrt) == PairsFrom(bs, i + 1, i + 2, sqrt)
  {
  }

  // A ball out of play meets nobody: its whole row of pairs changes nothing.
  lemma {:induction false} SkippedBall(bs: seq<Body>, i: nat, j: nat, sqrt: real -> real)
    requires i < |bs| && i < j && ProperRadii(bs) && !bs[i].InPlay()
    ensures PairsFrom(bs, i, j, sqrt) == PairsFrom(bs, i + 1, i + 2, sqrt)
    decreases |bs| - j
  {
    if j < |bs| {
      SkippedBall(bs, i, j + 1, sqrt);
    }
  }

  // The inner loop.
  method MeetRest(balls: seq<Ball>, i: nat, sqrt: real -> real)
    requires i < |balls| && DistinctBalls(balls) && ProperRadii(States(balls)) && States(balls)[i].InPlay()
    modifies balls
    ensures ProperRadii(States(balls))
    ensures PairsFrom(States(balls), i + 1, i + 2, sqrt) == PairsFrom(old(States(balls)), i, i + 1, sqrt)
  {
    for j := i + 1 to |balls|
      invariant ProperRadii(States(balls)) && States(balls)[i].InPlay()
      invariant PairsFrom(States(balls), i, j, sqrt) == PairsFrom(old(States(balls)), i, i + 1, sqrt)
    {
      NextPair(States(balls), i, j, sqrt);
      MeetBall(balls, i, j, sqrt);
    }
    NextRow(States(balls), i, sqrt);
  }

  method CollisionPhase(balls: seq<Ball>, sqrt: real -> real)
    requires DistinctBalls(balls) && ProperRadii(States(balls))
    modifies balls
    ensures States(balls) == PairsFrom(old(States(balls)), 0, 1, sqrt)
  {
    for i := 0 to |balls|
      invariant ProperRadii(States(balls))
      invariant PairsFrom(States(balls), i, i + 1, sqrt) == PairsFrom(old(States(balls)), 0, 1, sqrt)
    {
      if balls[i].sunk || balls[i].sinking {
        SkippedBall(States(balls), i, i + 1, sqrt);
        continue;
      }
      MeetRest(balls, i, sqrt);
    }
  }

  // Both phases on the engine's own balls: no energy is gained, and after the cushions (`rim` is
  // the table at that moment) the collisions keep the sums of positions, velocities and rim speeds.
  method ResolveContacts(balls: seq<Ball>, sqrt: real -> real) returns (ghost rim: seq<Body>)
    requires DistinctBalls(balls) && BallsFit(States(balls)) && IsSqrt(sqrt)
    modifies balls
    ensures rim == AllCushioned(old(States(balls)), sqrt) && ProperRadii(rim)
    ensures States(balls) == PairsFrom(rim, 0, 1, sqrt)
    ensures SameSums(rim, States(balls))
    ensures Sum(States(balls), Energy) <= Sum(rim, Energy) <= Sum(old(States(balls)), Energy)
  {
    CushionPhaseTakesEnergy(States(balls), sqrt);
    CushionPhase(balls, sqrt);
    rim := States(balls);
    CollisionPhaseLaws(rim, 0, 1, sqrt);
    CollisionPhase(balls, sqrt);
  }
}
