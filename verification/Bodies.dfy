/** Plane vectors, the moving state of a ball, and sums over the balls on a table
    (frontend/src/game/physics/engine.ts, over the reals). */
module Bodies {
  datatype Vec = Vec(x: real, y: real) {
    function Plus(w: Vec): Vec { Vec(x + w.x, y + w.y) }
    function Minus(w: Vec): Vec { Vec(x - w.x, y - w.y) }
    function Times(k: real): Vec { Vec(x * k, y * k) }
    function Dot(w: Vec): real { x * w.x + y * w.y }
    // A quarter turn to the left.
    function Left(): Vec { Vec(-y, x) }
    function Sq(): real { x * x + y * y }
  }

  const ORIGIN := Vec(0.0, 0.0)

  datatype Body = Body(pos: Vec, vel: Vec, spin: Vec, radius: real, sunk: bool, sinking: bool) {
    predicate InPlay() { !sunk && !sinking }
  }

  // Math.sqrt, as far as the engine relies on it.
  ghost predicate IsSqrt(sqrt: real -> real) {
    forall v: real :: v >= 0.0 ==> sqrt(v) >= 0.0 && sqrt(v) * sqrt(v) == v
  }

  function Norm(v: Vec, sqrt: real -> real): real {
    sqrt(v.Sq())
  }

  lemma NormSquared(v: Vec, sqrt: real -> real)
    requires IsSqrt(sqrt)
    ensures Norm(v, sqrt) >= 0.0 && Norm(v, sqrt) * Norm(v, sqrt) == v.Sq()
    ensures Norm(v, sqrt) == 0.0 ==> v == ORIGIN
  {
    SumOfSquares(v, v.Sq());
    RootOf(v.Sq(), Norm(v, sqrt), sqrt);
    OnlyOriginHasNoLength(v, Norm(v, sqrt));
  }

  lemma OnlyOriginHasNoLength(v: Vec, p: real)
    requires p * p == v.Sq()
    ensures p == 0.0 ==> v == ORIGIN
  {
    SumOfSquares(v, v.Sq());
    if p == 0.0 { ZeroSquare(p, v.Sq()); }
  }

  lemma RootOf(k: real, p: real, sqrt: real -> real)
    requires IsSqrt(sqrt) && k >= 0.0 && p == sqrt(k)
    ensures p >= 0.0 && p * p == k
  {
  }

  lemma SumOfSquares(v: Vec, k: real)
    requires k == v.Sq()
    ensures k >= 0.0 && (k == 0.0 ==> v == ORIGIN)
  {
    SquareNonNegative(v.x, v.x * v.x);
    SquareNonNegative(v.y, v.y * v.y);
  }

  lemma ZeroSquare(p: real, k: real)
    requires p == 0.0 && k == p * p
    ensures k == 0.0
  {
  }

  function Abs(v: real): real { if v < 0.0 then -v else v }

  lemma NonNegativeProduct(a: real, b: real, k: real)
    requires a >= 0.0 && b >= 0.0 && k == a * b
    ensures k >= 0.0
  {
    if a > 0.0 && b > 0.0 { PositiveProduct(a, b, k); }
  }

  // Products are named by a parameter, so that callers reason about them linearly.
  lemma PositiveProduct(a: real, b: real, k: real)
    requires a > 0.0 && b > 0.0 && k == a * b
    ensures k > 0.0
  {
  }

  lemma SquareNonNegative(a: real, k: real)
    requires k == a * a
    ensures k >= 0.0 && (a != 0.0 ==> k > 0.0)
  {
    if a > 0.0 { PositiveProduct(a, a, k); }
    if a < 0.0 { PositiveProduct(-a, -a, k); }
  }

  lemma SquareOrder(a: real, b: real)
    requires a >= 0.0 && b >= 0.0 && a * a <= b * b
    ensures a <= b
  {
    if a > b {
      PositiveProduct(a - b, a + b, a * a - b * b);
    }
  }

  lemma ShorterThan(a: real, b: real, s: real)
    requires a >= 0.0 && b >= 0.0 && a * a == s && s <= b * b
    ensures a <= b
  {
    SquareOrder(a, b);
  }

  // The direction of v, or of the x axis when there is none.
  function Direction(v: Vec, sqrt: real -> real): Vec {
    var d := Norm(v, sqrt);
    if d > 0.0 then Vec(v.x / d, v.y / d) else Vec(1.0, 0.0)
  }

  lemma DirectionIsUnit(v: Vec, sqrt: real -> real)
    requires IsSqrt(sqrt)
    ensures Direction(v, sqrt).Sq() == 1.0
  {
    NormSquared(v, sqrt);
    UnitQuotients(v.x, v.y, Norm(v, sqrt));
  }

  lemma DirectionTimesNorm(v: Vec, sqrt: real -> real)
    requires IsSqrt(sqrt)
    ensures Direction(v, sqrt).Times(Norm(v, sqrt)) == v
  {
    NormSquared(v, sqrt);
    if Norm(v, sqrt) > 0.0 {
      Quotient(v.x, Norm(v, sqrt));
      Quotient(v.y, Norm(v, sqrt));
    }
  }

  lemma UnitQuotients(x: real, y: real, d: real)
    requires d >= 0.0 && x * x + y * y == d * d
    ensures d > 0.0 ==> (x / d) * (x / d) + (y / d) * (y / d) == 1.0 && (x / d) * d == x && (y / d) * d == y
  {
    if d > 0.0 {
      Quotient(x, d);
      Quotient(y, d);
      UnitFromScaled(x / d, y / d, d, x, y);
    }
  }

  lemma Quotient(x: real, d: real)
    requires d > 0.0
    ensures (x / d) * d == x
  {
  }

  lemma UnitFromScaled(p: real, q: real, d: real, x: real, y: real)
    requires d > 0.0 && p * d == x && q * d == y && x * x + y * y == d * d
    ensures p * p + q * q == 1.0
  {
    var k := d * d;
    SquareNonNegative(d, k);
    assert (p * p + q * q) * k == x * x + y * y;
    Cancel(p * p + q * q, k, x * x + y * y);
  }

  lemma Cancel(e: real, k: real, m: real)
    requires k > 0.0 && m == e * k && m == k
    ensures e == 1.0
  {
    if e > 1.0 { PositiveProduct(e - 1.0, k, m - k); }
    if e < 1.0 { PositiveProduct(1.0 - e, k, k - m); }
  }

  lemma NormIs(w: Vec, k: real, sqrt: real -> real)
    requires IsSqrt(sqrt) && k >= 0.0 && w.Sq() == k * k
    ensures Norm(w, sqrt) == k
  {
    NormSquared(w, sqrt);
    EqualSquares(Norm(w, sqrt), k, w.Sq());
  }

  lemma NormAtMost(w: Vec, k: real, sqrt: real -> real)
    requires IsSqrt(sqrt) && k >= 0.0 && w.Sq() <= k * k
    ensures Norm(w, sqrt) <= k
  {
    NormSquared(w, sqrt);
    SquareOrder(Norm(w, sqrt), k);
  }

  lemma NormOfMultiple(n: Vec, k: real, sqrt: real -> real)
    requires IsSqrt(sqrt) && n.Sq() == 1.0
    ensures Norm(n.Times(k), sqrt) == Abs(k)
  {
    SquareOfMultiple(n, k);
    NormIs(n.Times(k), Abs(k), sqrt);
  }

  lemma SquareOfMultiple(n: Vec, k: real)
    requires n.Sq() == 1.0
    ensures n.Times(k).Sq() == Abs(k) * Abs(k)
  {
    assert n.Times(k).Sq() == n.Sq() * (k * k);
  }

  lemma EqualSquares(a: real, b: real, s: real)
    requires a >= 0.0 && b >= 0.0 && a * a == s && b * b == s
    ensures a == b
  {
    SquareOrder(a, b);
    SquareOrder(b, a);
  }

  // Components along a unit vector and across it determine length and vector.
  lemma Frame(n: Vec, a: real, b: real)
    requires n.Sq() == 1.0
    ensures n.Times(a).Plus(n.Left().Times(b)).Sq() == a * a + b * b
    ensures n.Times(a).Plus(n.Left().Times(b)).Dot(n) == a
    ensures n.Times(a).Plus(n.Left().Times(b)).Dot(n.Left()) == b
  {
    var w := n.Times(a).Plus(n.Left().Times(b));
    assert w == Vec(n.x * a - n.y * b, n.y * a + n.x * b);
    assert w.Sq() == (a * a + b * b) * n.Sq();
    assert w.Dot(n) == a * n.Sq();
    assert w.Dot(n.Left()) == b * n.Sq();
  }

  lemma FrameOf(n: Vec, v: Vec)
    requires n.Sq() == 1.0
    ensures v.Dot(n) * v.Dot(n) + v.Dot(n.Left()) * v.Dot(n.Left()) == v.Sq()
  {
    assert v.Dot(n) * v.Dot(n) + v.Dot(n.Left()) * v.Dot(n.Left()) == v.Sq() * n.Sq();
  }

  // ---- Sums

  function PosX(b: Body): real { b.pos.x }
  function PosY(b: Body): real { b.pos.y }
  function VelX(b: Body): real { b.vel.x }
  function VelY(b: Body): real { b.vel.y }
  // Spin weighted by radius: the rim speed.
  function RimX(b: Body): real { b.radius * b.spin.x }
  function RimY(b: Body): real { b.radius * b.spin.y }
  // Twice the linear kinetic energy per unit of mass.
  function Energy(b: Body): real { b.vel.Sq() }

  function Sum(bs: seq<Body>, f: Body -> real): real {
    if bs == [] then 0.0 else f(bs[0]) + Sum(bs[1..], f)
  }

  lemma {:induction false} SumUpdate(bs: seq<Body>, f: Body -> real, i: nat, b: Body)
    requires i < |bs|
    ensures Sum(bs[i := b], f) == Sum(bs, f) - f(bs[i]) + f(b)
  {
    if i == 0 {
      assert bs[0 := b][1..] == bs[1..];
    } else {
      assert bs[i := b][1..] == bs[1..][i - 1 := b];
      SumUpdate(bs[1..], f, i - 1, b);
    }
  }

  lemma {:induction false} SumOrder(bs: seq<Body>, cs: seq<Body>, f: Body -> real)
    requires |bs| == |cs| && forall i :: 0 <= i < |bs| ==> f(bs[i]) <= f(cs[i])
    ensures Sum(bs, f) <= Sum(cs, f)
  {
    if bs != [] {
      SumOrder(bs[1..], cs[1..], f);
    }
  }

  // ---- The balls themselves

  class Ball {
    var x: real
    var y: real
    var vx: real
    var vy: real
    var spinX: real
    var spinY: real
    const radius: real
    var sunk: bool
    var sinking: bool

    constructor (b: Body)
      ensures State() == b
    {
      x, y, vx, vy, spinX, spinY := b.pos.x, b.pos.y, b.vel.x, b.vel.y, b.spin.x, b.spin.y;
      radius, sunk, sinking := b.radius, b.sunk, b.sinking;
    }

    function State(): Body
      reads this
    {
      Body(Vec(x, y), Vec(vx, vy), Vec(spinX, spinY), radius, sunk, sinking)
    }
  }

  function States(balls: seq<Ball>): (bs: seq<Body>)
    reads balls
    ensures |bs| == |balls|
  {
    seq(|balls|, i requires 0 <= i < |balls| reads balls => balls[i].State())
  }

  predicate DistinctBalls(balls: seq<Ball>) {
    forall i, j :: 0 <= i < j < |balls| ==> balls[i] != balls[j]
  }

  predicate ProperRadii(bs: seq<Body>) {
    forall b :: b in bs ==> b.radius > 0.0
  }
}
