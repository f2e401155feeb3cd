/** Phases 2 and 3 of a simulation step: the cushion and the ball-to-ball collisions
    (engine.ts: stepSimulation, resolveCushionCollision, clampMagnitude). The phases are loops
    over mutable balls; each is tied to a function on their states, and the conservation laws are
    proved of that function for any number of balls. */
module Collisions {
  import opened Bodies

  const RESTITUTION := 0.96
  const TABLE_RADIUS := 0.95

  function Sign(v: real): real { if v > 0.0 then 1.0 else if v < 0.0 then -1.0 else 0.0 }

  function ClampMagnitude(value: real, maxDelta: real): real {
    if Abs(value) <= maxDelta then 0.0 else value - Sign(value) * maxDelta
  }

  // ---- One pair

  function NormalImpulse(vn: real): real {
    (-(1.0 + RESTITUTION) * vn) / 2.0
  }

  function TangentImpulse(vt: real, impulse: real): real {
    ClampMagnitude(vt * 0.04, impulse * 0.12)
  }

  // What a contact along n adds to the second ball's velocity and takes from the first's.
  function Impulse(n: Vec, rv: Vec): Vec {
    var j := NormalImpulse(rv.Dot(n));
    n.Times(j).Minus(n.Left().Times(TangentImpulse(rv.Dot(n.Left()), j)))
  }

  // Its effect on the spin of a ball of radius r: the tangential impulse acts on the rim.
  function SpinKick(n: Vec, rv: Vec, r: real): Vec
    requires r > 0.0
  {
    var tau := TangentImpulse(rv.Dot(n.Left()), NormalImpulse(rv.Dot(n)));
    Vec(n.x * tau / r, n.y * tau / r)
  }

  predicate Touching(a: Body, b: Body, sqrt: real -> real) {
    Norm(b.pos.Minus(a.pos), sqrt) < a.radius + b.radius
  }

  function Separation(a: Body, b: Body, sqrt: real -> real): Vec {
    var d := b.pos.Minus(a.pos);
    Direction(d, sqrt).Times((a.radius + b.radius - Norm(d, sqrt)) * 0.5)
  }

  function PushedApart(a: Body, b: Body, shift: Vec): (Body, Body) {
    (a.(pos := a.pos.Minus(shift)), b.(pos := b.pos.Plus(shift)))
  }

  function Struck(a: Body, b: Body, n: Vec, rv: Vec): (Body, Body)
    requires a.radius > 0.0 && b.radius > 0.0
  {
    (a.(vel := a.vel.Minus(Impulse(n, rv)), spin := a.spin.Plus(SpinKick(n, rv, a.radius))),
     b.(vel := b.vel.Plus(Impulse(n, rv)), spin := b.spin.Minus(SpinKick(n, rv, b.radius))))
  }

  function Collide(a: Body, b: Body, sqrt: real -> real): (Body, Body)
    requires a.radius > 0.0 && b.radius > 0.0
  {
    if !Touching(a, b, sqrt) then (a, b)
    else
      var n := Direction(b.pos.Minus(a.pos), sqrt);
      var rv := b.vel.Minus(a.vel);
      var (a', b') := PushedApart(a, b, Separation(a, b, sqrt));
      if rv.Dot(n) >= 0.0 then (a', b') else Struck(a', b', n, rv)
  }

  // Soft thresholding takes the tangential speed towards zero, never past it.
  lemma ClampShrinks(vt: real, m: real)
    requires m >= 0.0
    ensures var tau := ClampMagnitude(vt * 0.04, m);
      if vt >= 0.0 then 0.0 <= tau <= vt else vt <= tau <= 0.0
  {
  }

  lemma NormalLoss(vn: real, s: real)
    requires s == vn * vn
    ensures NormalImpulse(vn) * vn + NormalImpulse(vn) * NormalImpulse(vn) == -0.0196 * s
  {
    assert NormalImpulse(vn) == -0.98 * vn;
  }

  lemma TangentialWork(vt: real, tau: real, k: real)
    requires if vt >= 0.0 then 0.0 <= tau <= vt else vt <= tau <= 0.0
    requires k == tau * (vt - tau)
    ensures k >= 0.0
  {
    if tau > 0.0 && vt > tau { PositiveProduct(tau, vt - tau, k); }
    if tau < 0.0 && vt < tau { PositiveProduct(-tau, tau - vt, k); }
  }

  lemma ExchangeEnergy(va: Vec, vb: Vec, w: Vec)
    ensures va.Minus(w).Sq() + vb.Plus(w).Sq() == va.Sq() + vb.Sq() + 2.0 * w.Dot(vb.Minus(va)) + 2.0 * w.Sq()
  {
  }

  lemma ImpulseLength(n: Vec, j: real, tau: real)
    requires n.Sq() == 1.0
    ensures n.Times(j).Minus(n.Left().Times(tau)).Sq() == j * j + tau * tau
  {
    assert n.Times(j).Minus(n.Left().Times(tau)) == n.Times(j).Plus(n.Left().Times(-tau));
    Frame(n, j, -tau);
  }

  lemma ImpulseWork(n: Vec, rv: Vec, j: real, tau: real)
    ensures n.Times(j).Minus(n.Left().Times(tau)).Dot(rv) == j * rv.Dot(n) - tau * rv.Dot(n.Left())
  {
  }

  // A contact between approaching balls takes energy, never gives any.
  lemma ImpulseTakesEnergy(va: Vec, vb: Vec, n: Vec)
    requires n.Sq() == 1.0 && vb.Minus(va).Dot(n) < 0.0
    ensures var w := Impulse(n, vb.Minus(va)); va.Minus(w).Sq() + vb.Plus(w).Sq() <= va.Sq() + vb.Sq()
  {
    var rv := vb.Minus(va);
    var vn, vt := rv.Dot(n), rv.Dot(n.Left());
    var j := NormalImpulse(vn);
    var tau := TangentImpulse(vt, j);
    EnergyBalance(va, vb, n, vn, vt, j, tau, vn * vn, tau * (vt - tau));
    SquareNonNegative(vn, vn * vn);
    ClampShrinks(vt, j * 0.12);
    TangentialWork(vt, tau, tau * (vt - tau));
  }

  // The energy a contact takes, exactly (both sides are twice the kinetic energy).
  lemma EnergyBalance(va: Vec, vb: Vec, n: Vec, vn: real, vt: real, j: real, tau: real, s: real, k: real)
    requires n.Sq() == 1.0 && vn == vb.Minus(va).Dot(n) && vt == vb.Minus(va).Dot(n.Left())
    requires j == NormalImpulse(vn) && tau == TangentImpulse(vt, j) && s == vn * vn && k == tau * (vt - tau)
    ensures var w := Impulse(n, vb.Minus(va));
      va.Minus(w).Sq() + vb.Plus(w).Sq() == va.Sq() + vb.Sq() - 0.0392 * s - 2.0 * k
  {
    var w := Impulse(n, vb.Minus(va));
    ExchangeEnergy(va, vb, w);
    ImpulseLength(n, j, tau);
    ImpulseWork(n, vb.Minus(va), j, tau);
    NormalLoss(vn, s);
    TangentWork(tau, vt, k);
  }

  lemma TangentWork(tau: real, vt: real, k: real)
    requires k == tau * (vt - tau)
    ensures k == tau * vt - tau * tau
  {
  }

  // The pair leaves with the restitution law along the contact, and no closer than touching.
  lemma PairRebounds(a: Body, b: Body, sqrt: real -> real)
    requires IsSqrt(sqrt) && a.radius > 0.0 && b.radius > 0.0 && Touching(a, b, sqrt)
    requires b.vel.Minus(a.vel).Dot(Direction(b.pos.Minus(a.pos), sqrt)) < 0.0
    ensures var n := Direction(b.pos.Minus(a.pos), sqrt);
      var (a', b') := Collide(a, b, sqrt);
      b'.vel.Minus(a'.vel).Dot(n) == -0.96 * b.vel.Minus(a.vel).Dot(n)
  {
    var n := Direction(b.pos.Minus(a.pos), sqrt);
    DirectionIsUnit(b.pos.Minus(a.pos), sqrt);
    ReboundAlong(a.vel, b.vel, n);
  }

  lemma ReboundAlong(va: Vec, vb: Vec, n: Vec)
    requires n.Sq() == 1.0
    ensures var w := Impulse(n, vb.Minus(va));
      vb.Plus(w).Minus(va.Minus(w)).Dot(n) == -0.96 * vb.Minus(va).Dot(n)
  {
    var rv := vb.Minus(va);
    var j := NormalImpulse(rv.Dot(n));
    var tau := TangentImpulse(rv.Dot(n.Left()), j);
    var w := Impulse(n, rv);
    Frame(n, j, -tau);
    assert w == n.Times(j).Plus(n.Left().Times(-tau));
    assert w.Dot(n) == j;
    SeparationSpeed(va, vb, w, n);
  }

  lemma SeparationSpeed(va: Vec, vb: Vec, w: Vec, n: Vec)
    ensures vb.Plus(w).Minus(va.Minus(w)).Dot(n) == vb.Minus(va).Dot(n) + 2.0 * w.Dot(n)
  {
  }

  lemma PairSeparates(a: Body, b: Body, sqrt: real -> real)
    requires IsSqrt(sqrt) && a.radius > 0.0 && b.radius > 0.0 && Touching(a, b, sqrt)
    ensures var (a', b') := Collide(a, b, sqrt); Norm(b'.pos.Minus(a'.pos), sqrt) == a.radius + b.radius
  {
    var d := b.pos.Minus(a.pos);
    var n := Direction(d, sqrt);
    var gap := a.radius + b.radius;
    DirectionIsUnit(d, sqrt);
    DirectionTimesNorm(d, sqrt);
    var (a', b') := Collide(a, b, sqrt);
    var d' := b'.pos.Minus(a'.pos);
    HalfEach(n, d, Norm(d, sqrt), gap);
    assert d' == n.Times(gap);
    NormOfMultiple(n, gap, sqrt);
  }

  lemma HalfEach(n: Vec, d: Vec, dist: real, gap: real)
    requires d == n.Times(dist)
    ensures d.Plus(n.Times((gap - dist) * 0.5)).Plus(n.Times((gap - dist) * 0.5)) == n.Times(gap)
  {
  }

  // What a pair cannot change: the sums of positions, of velocities and of rim speeds.
  ghost predicate SameTotals(a: Body, b: Body, a': Body, b': Body) {
    && a'.pos.Plus(b'.pos) == a.pos.Plus(b.pos)
    && a'.vel.Plus(b'.vel) == a.vel.Plus(b.vel)
    && RimX(a') + RimX(b') == RimX(a) + RimX(b)
    && RimY(a') + RimY(b') == RimY(a) + RimY(b)
    && a'.radius == a.radius && b'.radius == b.radius
    && (a'.InPlay() <==> a.InPlay()) && (b'.InPlay() <==> b.InPlay())
  }

  lemma PairKeepsTotals(a: Body, b: Body, sqrt: real -> real)
    requires a.radius > 0.0 && b.radius > 0.0
    ensures var (a', b') := Collide(a, b, sqrt); SameTotals(a, b, a', b')
  {
    var (a', b') := PushedApart(a, b, Separation(a, b, sqrt));
    PushKeepsTotals(a, b, Separation(a, b, sqrt));
    StrikeKeepsTotals(a', b', Direction(b.pos.Minus(a.pos), sqrt), b.vel.Minus(a.vel));
  }

  lemma PushKeepsTotals(a: Body, b: Body, shift: Vec)
    ensures var (a', b') := PushedApart(a, b, shift); SameTotals(a, b, a', b')
  {
  }

  lemma StrikeKeepsTotals(a: Body, b: Body, n: Vec, rv: Vec)
    requires a.radius > 0.0 && b.radius > 0.0
    ensures var (a', b') := Struck(a, b, n, rv); SameTotals(a, b, a', b')
  {
    ExchangeCancels(a.vel, b.vel, Impulse(n, rv));
    KicksCancel(n, rv, a, b);
  }

  lemma ExchangeCancels(v: Vec, w: Vec, d: Vec)
    ensures v.Minus(d).Plus(w.Plus(d)) == v.Plus(w)
  {
  }

  lemma KicksCancel(n: Vec, rv: Vec, a: Body, b: Body)
    requires a.radius > 0.0 && b.radius > 0.0
    ensures a.radius * a.spin.Plus(SpinKick(n, rv, a.radius)).x + b.radius * b.spin.Minus(SpinKick(n, rv, b.radius)).x
      == a.radius * a.spin.x + b.radius * b.spin.x
    ensures a.radius * a.spin.Plus(SpinKick(n, rv, a.radius)).y + b.radius * b.spin.Minus(SpinKick(n, rv, b.radius)).y
      == a.radius * a.spin.y + b.radius * b.spin.y
  {
    KickOnTheRim(n, rv, a.radius, a.spin);
    KickOnTheRim(n, rv, b.radius, b.spin);
  }

  // The kick changes a ball's rim speed by n times the tangential impulse, whatever its radius.
  lemma KickOnTheRim(n: Vec, rv: Vec, r: real, spin: Vec)
    requires r > 0.0
    ensures var tau := TangentImpulse(rv.Dot(n.Left()), NormalImpulse(rv.Dot(n)));
      var kick := SpinKick(n, rv, r);
      && r * spin.Plus(kick).x == r * spin.x + n.x * tau && r * spin.Plus(kick).y == r * spin.y + n.y * tau
      && r * spin.Minus(kick).x == r * spin.x - n.x * tau && r * spin.Minus(kick).y == r * spin.y - n.y * tau
  {
    var tau := TangentImpulse(rv.Dot(n.Left()), NormalImpulse(rv.Dot(n)));
    RimQuotient(n.x * tau, r, spin.x);
    RimQuotient(n.y * tau, r, spin.y);
  }

  lemma RimQuotient(t: real, r: real, s: real)
    requires r > 0.0
    ensures r * (s + t / r) == r * s + t && r * (s - t / r) == r * s - t
  {
    Quotient(t, r);
  }

  lemma PairTakesEnergy(a: Body, b: Body, sqrt: real -> real)
    requires IsSqrt(sqrt) && a.radius > 0.0 && b.radius > 0.0
    ensures var (a', b') := Collide(a, b, sqrt); Energy(a') + Energy(b') <= Energy(a) + Energy(b)
  {
    var n := Direction(b.pos.Minus(a.pos), sqrt);
    DirectionIsUnit(b.pos.Minus(a.pos), sqrt);
    if b.vel.Minus(a.vel).Dot(n) < 0.0 {
      ImpulseTakesEnergy(a.vel, b.vel, n);
    }
  }

  // ---- The contact exactly

  // Four hundredths of the tangential speed, less twelve hundredths of the normal impulse, or
  // nothing if that is more.
  function Rub(vn: real, vt: real): real {
    if vt > 0.0 && 0.04 * vt > -0.1176 * vn then 0.04 * vt + 0.1176 * vn
    else if vt < 0.0 && 0.04 * vt < 0.1176 * vn then 0.04 * vt - 0.1176 * vn
    else 0.0
  }

  lemma RubIsTheTangentImpulse(vn: real, vt: real)
    requires vn < 0.0
    ensures TangentImpulse(vt, NormalImpulse(vn)) == Rub(vn, vt)
  {
    assert NormalImpulse(vn) * 0.12 == -0.1176 * vn;
  }

  lemma PlaceOfATouchingPair(a: Body, b: Body, sqrt: real -> real)
    requires a.radius > 0.0 && b.radius > 0.0 && Touching(a, b, sqrt)
    ensures var (a', b') := Collide(a, b, sqrt);
      a'.pos == a.pos.Minus(Separation(a, b, sqrt)) && b'.pos == b.pos.Plus(Separation(a, b, sqrt))
  {
  }

  // Both balls of a touching pair are moved apart by half of what they overlap.
  lemma PairIsPushedApart(a: Body, b: Body, sqrt: real -> real, n: Vec, half: real)
    requires a.radius > 0.0 && b.radius > 0.0
    requires Norm(b.pos.Minus(a.pos), sqrt) < a.radius + b.radius && n == Direction(b.pos.Minus(a.pos), sqrt)
    requires half == (a.radius + b.radius - Norm(b.pos.Minus(a.pos), sqrt)) * 0.5
    ensures var (a', b') := Collide(a, b, sqrt);
      && a'.pos == Vec(a.pos.x - n.x * half, a.pos.y - n.y * half)
      && b'.pos == Vec(b.pos.x + n.x * half, b.pos.y + n.y * half)
  {
    assert Separation(a, b, sqrt) == n.Times(half);
    PlaceOfATouchingPair(a, b, sqrt);
  }

  // If they were not closing in, that is all.
  lemma PartingPairIsLeftAlone(a: Body, b: Body, sqrt: real -> real)
    requires a.radius > 0.0 && b.radius > 0.0
    requires b.vel.Minus(a.vel).Dot(Direction(b.pos.Minus(a.pos), sqrt)) >= 0.0
    ensures var (a', b') := Collide(a, b, sqrt);
      a'.vel == a.vel && a'.spin == a.spin && b'.vel == b.vel && b'.spin == b.spin
  {
  }

  lemma ImpulseInFigures(n: Vec, rv: Vec, vn: real, rub: real)
    requires vn == rv.Dot(n) && rub == TangentImpulse(rv.Dot(n.Left()), NormalImpulse(vn))
    ensures Impulse(n, rv) == Vec(-(n.x * (0.98 * vn)) + n.y * rub, -(n.y * (0.98 * vn)) - n.x * rub)
  {
    assert NormalImpulse(vn) == -(0.98 * vn);
  }

  // If they were closing in at -vn, with vt across, 0.98 of vn passes from the one to the other along
  // the contact, and the rub across it.
  lemma PairIsStruck(a: Body, b: Body, sqrt: real -> real, n: Vec, vn: real, vt: real, rub: real)
    requires a.radius > 0.0 && b.radius > 0.0
    requires Norm(b.pos.Minus(a.pos), sqrt) < a.radius + b.radius && n == Direction(b.pos.Minus(a.pos), sqrt)
    requires vn == b.vel.Minus(a.vel).Dot(n) && vt == b.vel.Minus(a.vel).Dot(Vec(-n.y, n.x))
    requires vn < 0.0 && rub == Rub(vn, vt)
    ensures var (a', b') := Collide(a, b, sqrt);
      && a'.vel == Vec(a.vel.x + n.x * (0.98 * vn) - n.y * rub, a.vel.y + n.y * (0.98 * vn) + n.x * rub)
      && b'.vel == Vec(b.vel.x - n.x * (0.98 * vn) + n.y * rub, b.vel.y - n.y * (0.98 * vn) - n.x * rub)
  {
    assert n.Left() == Vec(-n.y, n.x);
    RubIsTheTangentImpulse(vn, vt);
    ImpulseInFigures(n, b.vel.Minus(a.vel), vn, rub);
  }

  lemma SpinOfAStruckPair(a: Body, b: Body, sqrt: real -> real, n: Vec, rv: Vec)
    requires a.radius > 0.0 && b.radius > 0.0
    requires Norm(b.pos.Minus(a.pos), sqrt) < a.radius + b.radius && n == Direction(b.pos.Minus(a.pos), sqrt)
    requires rv == b.vel.Minus(a.vel) && rv.Dot(n) < 0.0
    ensures var (a', b') := Collide(a, b, sqrt);
      a'.spin == a.spin.Plus(SpinKick(n, rv, a.radius)) && b'.spin == b.spin.Minus(SpinKick(n, rv, b.radius))
  {
  }

  lemma KickInFigures(n: Vec, rv: Vec, vn: real, vt: real, rub: real, r: real)
    requires r > 0.0 && vn == rv.Dot(n) && vt == rv.Dot(Vec(-n.y, n.x)) && vn < 0.0 && rub == Rub(vn, vt)
    ensures r * SpinKick(n, rv, r).x == n.x * rub && r * SpinKick(n, rv, r).y == n.y * rub
  {
    assert n.Left() == Vec(-n.y, n.x);
    RubIsTheTangentImpulse(vn, vt);
    Quotient(n.x * rub, r);
    Quotient(n.y * rub, r);
  }

  // The rub sets both rims turning.
  lemma PairIsSpun(a: Body, b: Body, sqrt: real -> real, n: Vec, vn: real, vt: real, rub: real)
    returns (kickA: Vec, kickB: Vec)
    requires a.radius > 0.0 && b.radius > 0.0
    requires Norm(b.pos.Minus(a.pos), sqrt) < a.radius + b.radius && n == Direction(b.pos.Minus(a.pos), sqrt)
    requires vn == b.vel.Minus(a.vel).Dot(n) && vt == b.vel.Minus(a.vel).Dot(Vec(-n.y, n.x))
    requires vn < 0.0 && rub == Rub(vn, vt)
    ensures var (a', b') := Collide(a, b, sqrt); a'.spin == a.spin.Plus(kickA) && b'.spin == b.spin.Minus(kickB)
    ensures a.radius * kickA.x == n.x * rub && a.radius * kickA.y == n.y * rub
    ensures b.radius * kickB.x == n.x * rub && b.radius * kickB.y == n.y * rub
  {
    var rv := b.vel.Minus(a.vel);
    kickA, kickB := SpinKick(n, rv, a.radius), SpinKick(n, rv, b.radius);
    SpinOfAStruckPair(a, b, sqrt, n, rv);
    KickInFigures(n, rv, vn, vt, rub, a.radius);
    KickInFigures(n, rv, vn, vt, rub, b.radius);
  }

  lemma ApartIsLeftAlone(a: Body, b: Body, sqrt: real -> real)
    requires a.radius > 0.0 && b.radius > 0.0
    ensures Norm(b.pos.Minus(a.pos), sqrt) >= a.radius + b.radius ==> Collide(a, b, sqrt) == (a, b)
  {
  }

  // Balls on the same spot are pushed apart along the x axis.
  lemma DirectionOfNothing(sqrt: real -> real)
    requires IsSqrt(sqrt)
    ensures Direction(ORIGIN, sqrt) == Vec(1.0, 0.0)
  {
    NormSquared(ORIGIN, sqrt);
    SquareNonNegative(Norm(ORIGIN, sqrt), 0.0);
  }

  // ---- All pairs

  function PairStep(bs: seq<Body>, i: nat, j: nat, sqrt: real -> real): (r: seq<Body>)
    requires i < j < |bs| && ProperRadii(bs)
    ensures |r| == |bs|
  {
    if bs[i].InPlay() && bs[j].InPlay() then
      var (a, b) := Collide(bs[i], bs[j], sqrt);
      bs[i := a][j := b]
    else bs
  }

  lemma PairStepKeepsRadii(bs: seq<Body>, i: nat, j: nat, sqrt: real -> real)
    requires i < j < |bs| && ProperRadii(bs)
    ensures ProperRadii(PairStep(bs, i, j, sqrt))
    ensures PairStep(bs, i, j, sqrt)[i].InPlay() <==> bs[i].InPlay()
  {
    var r := PairStep(bs, i, j, sqrt);
    forall b | b in r ensures b.radius > 0.0 {
      var k :| 0 <= k < |r| && r[k] == b;
      assert bs[k] in bs;
    }
  }

  // The pairs (i, j), (i, j+1), ..., (i+1, i+2), ... in the order the loops visit them.
  function PairsFrom(bs: seq<Body>, i: nat, j: nat, sqrt: real -> real): seq<Body>
    requires i < j && ProperRadii(bs)
    decreases |bs| - i, |bs| - j
  {
    if i >= |bs| then bs
    else if j >= |bs| then PairsFrom(bs, i + 1, i + 2, sqrt)
    else
      PairStepKeepsRadii(bs, i, j, sqrt);
      PairsFrom(PairStep(bs, i, j, sqrt), i, j + 1, sqrt)
  }

  // ---- Every pair, once, in order

  // One pair comes before another: a lower first ball, or the same and a lower second.
  predicate Precedes(p: (nat, nat), q: (nat, nat)) {
    p.0 < q.0 || (p.0 == q.0 && p.1 < q.1)
  }

  // All pairs of n balls, the lower one first, from the pair (i, j) on and in order.
  ghost predicate ListsPairs(ps: seq<(nat, nat)>, n: nat, i: nat, j: nat) {
    && (forall p :: p in ps <==> p.0 < p.1 < n && !Precedes(p, (i, j)))
    && (forall k, l :: 0 <= k < l < |ps| ==> Precedes(ps[k], ps[l]))
  }

  // One pair after the other meets.
  function Meetings(bs: seq<Body>, ps: seq<(nat, nat)>, sqrt: real -> real): seq<Body>
    requires ProperRadii(bs) && forall p :: p in ps ==> p.0 < p.1 < |bs|
    decreases |ps|
  {
    if ps == [] then bs
    else
      assert ps[0] in ps;
      PairStepKeepsRadii(bs, ps[0].0, ps[0].1, sqrt);
      Meetings(PairStep(bs, ps[0].0, ps[0].1, sqrt), ps[1..], sqrt)
  }

  lemma FirstPair(ps: seq<(nat, nat)>, n: nat, i: nat, j: nat)
    requires ListsPairs(ps, n, i, j) && i < j < n
    ensures ps != [] && ps[0] == (i, j) && ListsPairs(ps[1..], n, i, j + 1)
  {
    assert (i, j) in ps;
    var k :| 0 <= k < |ps| && ps[k] == (i, j);
    assert ps[0] in ps;
    assert ps == [ps[0]] + ps[1..];
    forall p: (nat, nat) ensures p in ps[1..] <==> p.0 < p.1 < n && !Precedes(p, (i, j + 1)) {
      if p in ps[1..] {
        var l :| 0 <= l < |ps[1..]| && ps[1..][l] == p;
        assert ps[l + 1] == p && Precedes(ps[0], ps[l + 1]);
      }
    }
  }

  lemma HasAFirst(ps: seq<(nat, nat)>)
    requires ps != []
    ensures exists p :: p in ps
  {
    assert ps[0] in ps;
  }

  lemma NoPairLeft(ps: seq<(nat, nat)>, n: nat, i: nat, j: nat)
    requires ListsPairs(ps, n, i, j) && i >= n
    ensures ps == []
  {
    if ps != [] { HasAFirst(ps); }
  }

  // The nested loops let each pair of balls meet exactly once, in that order.
  lemma {:induction false} EveryPairMeetsOnce(bs: seq<Body>, ps: seq<(nat, nat)>, i: nat, j: nat, sqrt: real -> real)
    requires i < j && ProperRadii(bs) && ListsPairs(ps, |bs|, i, j)
    requires forall p :: p in ps ==> p.0 < p.1 < |bs|
    ensures PairsFrom(bs, i, j, sqrt) == Meetings(bs, ps, sqrt)
    decreases |bs| - i, |bs| - j
  {
    if i >= |bs| {
      NoPairLeft(ps, |bs|, i, j);
    } else if j >= |bs| {
      assert ListsPairs(ps, |bs|, i + 1, i + 2);
      EveryPairMeetsOnce(bs, ps, i + 1, i + 2, sqrt);
    } else {
      FirstPair(ps, |bs|, i, j);
      PairStepKeepsRadii(bs, i, j, sqrt);
      EveryPairMeetsOnce(PairStep(bs, i, j, sqrt), ps[1..], i, j + 1, sqrt);
    }
  }

  // A pair of which one is out of play does not meet.
  lemma OutOfPlayMeetsNobody(bs: seq<Body>, i: nat, j: nat, sqrt: real -> real)
    requires i < j < |bs| && ProperRadii(bs)
    ensures bs[i].sunk || bs[i].sinking || bs[j].sunk || bs[j].sinking ==> PairStep(bs, i, j, sqrt) == bs
    ensures !bs[i].sunk && !bs[i].sinking && !bs[j].sunk && !bs[j].sinking ==>
      var r := PairStep(bs, i, j, sqrt);
      && (r[i], r[j]) == Collide(bs[i], bs[j], sqrt)
      && forall k :: 0 <= k < |bs| && k != i && k != j ==> r[k] == bs[k]
  {
  }

  // ---- Sums over all balls

  ghost predicate SameSums(bs: seq<Body>, cs: seq<Body>) {
    && |cs| == |bs|
    && Sum(cs, PosX) == Sum(bs, PosX) && Sum(cs, PosY) == Sum(bs, PosY)
    && Sum(cs, VelX) == Sum(bs, VelX) && Sum(cs, VelY) == Sum(bs, VelY)
    && Sum(cs, RimX) == Sum(bs, RimX) && Sum(cs, RimY) == Sum(bs, RimY)
  }

  lemma SumOfTwo(bs: seq<Body>, f: Body -> real, i: nat, a: Body, j: nat, b: Body)
    requires i < j < |bs|
    ensures Sum(bs[i := a][j := b], f) == Sum(bs, f) - f(bs[i]) - f(bs[j]) + f(a) + f(b)
  {
    SumUpdate(bs, f, i, a);
    SumUpdate(bs[i := a], f, j, b);
  }

  lemma PairStepLaws(bs: seq<Body>, i: nat, j: nat, sqrt: real -> real)
    requires i < j < |bs| && ProperRadii(bs) && IsSqrt(sqrt)
    ensures SameSums(bs, PairStep(bs, i, j, sqrt))
    ensures Sum(PairStep(bs, i, j, sqrt), Energy) <= Sum(bs, Energy)
  {
    assert bs[i] in bs && bs[j] in bs;
    if bs[i].InPlay() && bs[j].InPlay() {
      var (a, b) := Collide(bs[i], bs[j], sqrt);
      PairKeepsTotals(bs[i], bs[j], sqrt);
      PairTakesEnergy(bs[i], bs[j], sqrt);
      TwoOfSix(bs, i, a, j, b);
    }
  }

  lemma TwoOfSix(bs: seq<Body>, i: nat, a: Body, j: nat, b: Body)
    requires i < j < |bs| && SameTotals(bs[i], bs[j], a, b)
    requires Energy(a) + Energy(b) <= Energy(bs[i]) + Energy(bs[j])
    ensures SameSums(bs, bs[i := a][j := b])
    ensures Sum(bs[i := a][j := b], Energy) <= Sum(bs, Energy)
  {
    SumOfTwo(bs, PosX, i, a, j, b);
    SumOfTwo(bs, PosY, i, a, j, b);
    SumOfTwo(bs, VelX, i, a, j, b);
    SumOfTwo(bs, VelY, i, a, j, b);
    SumOfTwo(bs, RimX, i, a, j, b);
    SumOfTwo(bs, RimY, i, a, j, b);
    SumOfTwo(bs, Energy, i, a, j, b);
  }

  // Any number of balls: the whole collision phase keeps the sum of positions, the momentum and
  // the sum of rim speeds, and never adds linear kinetic energy.
  lemma {:induction false} CollisionPhaseLaws(bs: seq<Body>, i: nat, j: nat, sqrt: real -> real)
    requires i < j && ProperRadii(bs) && IsSqrt(sqrt)
    ensures SameSums(bs, PairsFrom(bs, i, j, sqrt))
    ensures Sum(PairsFrom(bs, i, j, sqrt), Energy) <= Sum(bs, Energy)
    decreases |bs| - i, |bs| - j
  {
    if i < |bs| {
      if j >= |bs| {
        CollisionPhaseLaws(bs, i + 1, i + 2, sqrt);
      } else {
        PairStepKeepsRadii(bs, i, j, sqrt);
        PairStepLaws(bs, i, j, sqrt);
        CollisionPhaseLaws(PairStep(bs, i, j, sqrt), i, j + 1, sqrt);
      }
    }
  }
}
