/** The sixteen balls of a match and the server's gate on submitted tables
    (match_state.go: initMatchBalls, ownerAndPointsForBall, sanitizeSubmittedBalls,
    sunkTargetIDs, preservesPreviouslySunkTargets). */
module MatchBalls {
  import opened Base

  // A JSON number as the server meets it: finite, or NaN / infinity.
  datatype Float = Finite(v: real) | NotFinite

  // Owner of a ball and role of a player; the source uses the same four strings.
  datatype Side = NoSide | CreatorSide | OpponentSide | NeutralSide

  // "#f4b942", "#4aa3ff", "#111111", "#ffffff", and whatever else a client may send
  datatype Color = Amber | Blue | Black | White | OtherColor(text: string)

  // sinking, sinkProgress, sinkStartX/Y, sinkX/Y
  datatype Sink = Sink(active: bool, progress: Float, startX: Float, startY: Float, x: Float, y: Float)

  datatype Ball = Ball(
    id: int, x: Float, y: Float, vx: Float, vy: Float, spinX: Float, spinY: Float,
    radius: Float, isWhite: bool, sunk: bool, sink: Sink,
    color: Color, owner: Side, points: int)

  const ZERO := Finite(0.0)
  const NO_SINK := Sink(false, ZERO, ZERO, ZERO, ZERO, ZERO)
  const TABLE_RADIUS := 0.95
  const BALL_RADIUS := Finite(0.035)

  function OwnerOf(id: int): Side {
    if 1 <= id <= 7 then CreatorSide else if 9 <= id <= 15 then OpponentSide
    else if id == 8 then NeutralSide else NoSide
  }

  // 1..7 for the creator, 9..15 for the opponent, 8 for neutral.
  function IdsOf(side: Side): set<int> {
    set k: int | 0 <= k < 16 && OwnerOf(k) == side
  }

  function PointsOf(id: int): int {
    if 1 <= id <= 7 || 9 <= id <= 15 then 10 else if id == 8 then 30 else 0
  }

  function ColorOf(id: int): Color {
    if 1 <= id <= 7 then Amber else if 9 <= id <= 15 then Blue
    else if id == 8 then Black else White
  }

  predicate Within(f: Float, bound: real) {
    f.Finite? && -bound <= f.v <= bound
  }

  predicate InBounds(b: Ball) {
    && Within(b.x, TABLE_RADIUS + 0.25) && Within(b.y, TABLE_RADIUS + 0.25)
    && Within(b.vx, 8.0) && Within(b.vy, 8.0)
    && Within(b.spinX, 500.0) && Within(b.spinY, 500.0)
  }

  function StillBall(id: int, x: Float, y: Float, sunk: bool): Ball {
    Ball(id, x, y, ZERO, ZERO, ZERO, ZERO, BALL_RADIUS, id == 0, sunk, NO_SINK,
         ColorOf(id), OwnerOf(id), PointsOf(id))
  }

  // What the server keeps of a submitted ball: identity, place and, off the cue ball, `sunk`.
  function Normalized(b: Ball): Ball {
    StillBall(b.id, b.x, b.y, b.sunk && b.id != 0)
  }

  // A full rack: every id from 0 to 15 once, at rest, with the canonical attributes.
  predicate Table(balls: seq<Ball>) {
    && |balls| == 16
    && Elems(Ids(balls)) == Below(16)
    && (forall b :: b in balls ==> InBounds(b) && b == Normalized(b))
  }

  // In id order, with the canonical attributes a score depends on.
  predicate InOrder(balls: seq<Ball>) {
    |balls| == 16 && forall k :: 0 <= k < 16 ==>
      balls[k].id == k && balls[k].isWhite == (k == 0) && balls[k].owner == OwnerOf(k) && balls[k].points == PointsOf(k)
  }

  // The declared meaning of an acceptable submission: an in-bounds permutation of the ids 0..15.
  predicate Acceptable(s: seq<Ball>) {
    && |s| == 16
    && Elems(Ids(s)) == Below(16)
    && (forall b :: b in s ==> InBounds(b))
  }

  function Ids(s: seq<Ball>): (ids: seq<int>)
    ensures |ids| == |s| && forall i :: 0 <= i < |s| ==> ids[i] == s[i].id
  {
    seq(|s|, i requires 0 <= i < |s| => s[i].id)
  }

  function SunkTargets(balls: seq<Ball>): set<int> {
    set b | b in balls && !b.isWhite && b.sunk :: b.id
  }

  // A ball is found by its id, and by nothing else.
  lemma BallWithId(s: seq<Ball>, k: int)
    requires |s| == 16 && Elems(Ids(s)) == Below(16) && 0 <= k < 16
    ensures exists i :: 0 <= i < 16 && s[i].id == k
    ensures forall b, c :: b in s && c in s && b.id == c.id ==> b == c
    ensures forall b :: b in s ==> 0 <= b.id < 16
  {
    Pigeonhole(Ids(s));
    assert k in Elems(Ids(s));
    var i :| 0 <= i < 16 && Ids(s)[i] == k;
    forall b, c | b in s && c in s && b.id == c.id ensures b == c {
      var i :| 0 <= i < 16 && s[i] == b;
      var j :| 0 <= j < 16 && s[j] == c;
      assert Ids(s)[i] == Ids(s)[j];
    }
    forall b | b in s ensures 0 <= b.id < 16 {
      var i :| 0 <= i < 16 && s[i] == b;
      assert Ids(s)[i] in Ids(s);
    }
  }

  // ---- Sanitising

  // The ball that carries id k (an acceptable submission has exactly one for each k).
  ghost function WithId(s: seq<Ball>, k: int): (b: Ball)
    requires Acceptable(s) && 0 <= k < 16
    ensures b in s && b.id == k
  {
    BallWithId(s, k);
    var i :| 0 <= i < 16 && s[i].id == k; s[i]
  }

  ghost function Sanitized(s: seq<Ball>): seq<Ball>
    requires Acceptable(s)
  {
    seq(16, k requires 0 <= k < 16 => Normalized(WithId(s, k)))
  }

  predicate SortedById(s: seq<Ball>) {
    forall i, j :: 0 <= i < j < |s| ==> s[i].id <= s[j].id
  }

  // Stands for Go's sort.Slice with the ID comparison.
  method SortById(balls: seq<Ball>) returns (sorted: seq<Ball>)
    ensures SortedById(sorted) && multiset(sorted) == multiset(balls)
  {
    sorted := [];
    for i := 0 to |balls|
      invariant SortedById(sorted) && multiset(sorted) == multiset(balls[..i])
    {
      assert balls[..i + 1] == balls[..i] + [balls[i]];
      sorted := Insert(sorted, balls[i]);
    }
    assert balls[..|balls|] == balls;
  }

  lemma InsertKeepsBalls(s: seq<Ball>, b: Ball, at: nat)
    requires at <= |s|
    ensures multiset(s[..at] + [b] + s[at..]) == multiset(s) + multiset{b}
  {
    assert s == s[..at] + s[at..];
  }

  method Insert(s: seq<Ball>, b: Ball) returns (r: seq<Ball>)
    requires SortedById(s)
    ensures SortedById(r) && multiset(r) == multiset(s) + multiset{b}
  {
    var at := |s|;
    while at > 0 && s[at - 1].id > b.id
      invariant 0 <= at <= |s|
      invariant forall k :: at <= k < |s| ==> s[k].id > b.id
    {
      at := at - 1;
    }
    r := s[..at] + [b] + s[at..];
    InsertKeepsBalls(s, b, at);
  }

  // The two ways a submission goes wrong, and the way it does not.
  lemma OutOfRangeIsRefused(s: seq<Ball>, i: nat)
    requires i < |s| && !(0 <= s[i].id < 16)
    ensures !Acceptable(s)
  {
    Pigeonhole(Ids(s));
    assert Ids(s)[i] in Ids(s);
  }

  lemma RepeatIsRefused(s: seq<Ball>, k: nat, i: nat)
    requires k < i < |s| && s[k].id == s[i].id
    ensures !Acceptable(s)
  {
    Pigeonhole(Ids(s));
    assert Ids(s)[k] == Ids(s)[i];
  }

  lemma DistinctInRangeIsAcceptable(s: seq<Ball>)
    requires |s| == 16 && forall k :: 0 <= k < 16 ==> InBounds(s[k]) && 0 <= s[k].id < 16
    requires forall j, k :: 0 <= j < k < 16 ==> s[j].id != s[k].id
    ensures Acceptable(s)
  {
    Pigeonhole(Ids(s));
  }

  method SanitizeSubmittedBalls(submitted: seq<Ball>) returns (balls: seq<Ball>, ok: bool)
    ensures ok <==> Acceptable(submitted)
    ensures ok ==> balls == Sanitized(submitted)
    ensures !ok ==> balls == []
  {
    balls, ok := [], false;
    if |submitted| != 16 {
      return;
    }
    var seen: set<int> := {};
    var normalized: seq<Ball> := [];
    for i := 0 to 16
      invariant |normalized| == i
      invariant forall id :: id in seen <==> exists k :: 0 <= k < i && submitted[k].id == id
      invariant forall k :: 0 <= k < i ==> InBounds(submitted[k]) && 0 <= submitted[k].id < 16
      invariant forall j, k :: 0 <= j < k < i ==> submitted[j].id != submitted[k].id
      invariant forall k :: 0 <= k < i ==> normalized[k] == Normalized(submitted[k])
    {
      var ball := submitted[i];
      if ball.id < 0 || ball.id > 15 {
        OutOfRangeIsRefused(submitted, i);
        return;
      }
      if ball.id in seen {
        ghost var k :| 0 <= k < i && submitted[k].id == ball.id;
        RepeatIsRefused(submitted, k, i);
        return;
      }
      seen := seen + {ball.id};
      if !InBounds(ball) {
        assert ball in submitted;
        return;
      }
      normalized := normalized + [Normalized(ball)];
    }
    DistinctInRangeIsAcceptable(submitted);
    balls := SortById(normalized);
    ok := true;
    NormalizedSortedIsSanitized(submitted, normalized, balls);
  }

  lemma NormalizedSortedIsSanitized(s: seq<Ball>, normalized: seq<Ball>, sorted: seq<Ball>)
    requires Acceptable(s) && |normalized| == 16
    requires forall k :: 0 <= k < 16 ==> normalized[k] == Normalized(s[k])
    requires SortedById(sorted) && multiset(sorted) == multiset(normalized)
    ensures sorted == Sanitized(s)
  {
    assert |sorted| == |multiset(sorted)| == 16;
    forall k: int ensures k in Elems(Ids(sorted)) <==> k in Elems(Ids(s)) {
      SameIds(s, normalized, sorted, k);
    }
    Pigeonhole(Ids(sorted));
    forall k: nat | k < 16 ensures sorted[k] == Sanitized(s)[k] {
      AscendingCover(Ids(sorted), k);
      assert sorted[k] in multiset(sorted);
      assert sorted[k] in normalized;
      var i :| 0 <= i < 16 && normalized[i] == sorted[k];
      BallWithId(s, k);
      assert s[i] in s && s[i] == WithId(s, k);
    }
  }

  lemma SameIds(s: seq<Ball>, normalized: seq<Ball>, sorted: seq<Ball>, k: int)
    requires |normalized| == |s| == |sorted|
    requires forall k :: 0 <= k < |s| ==> normalized[k] == Normalized(s[k])
    requires multiset(sorted) == multiset(normalized)
    ensures k in Elems(Ids(sorted)) <==> k in Elems(Ids(s))
  {
    if k in Elems(Ids(s)) {
      var i :| 0 <= i < |s| && Ids(s)[i] == k;
      assert normalized[i] in multiset(normalized);
      assert normalized[i] in sorted;
      var j :| 0 <= j < |s| && sorted[j] == normalized[i];
      assert Ids(sorted)[j] == k;
    }
    if k in Elems(Ids(sorted)) {
      var i :| 0 <= i < |s| && Ids(sorted)[i] == k;
      assert sorted[i] in multiset(sorted);
      assert sorted[i] in normalized;
      var j :| 0 <= j < |s| && sorted[i] == normalized[j];
      assert Ids(s)[j] == k;
    }
  }

  // What callers rely on: ball k sits at index k with canonical attributes and no motion;
  // exactly the submitted places and (off the cue ball) the submitted sunk flags survive.
  lemma SanitizedShape(s: seq<Ball>)
    requires Acceptable(s)
    ensures Table(Sanitized(s))
    ensures InOrder(Sanitized(s))
    ensures forall b :: b in s ==>
      0 <= b.id < 16 && Sanitized(s)[b.id] == StillBall(b.id, b.x, b.y, b.sunk && b.id != 0)
  {
    BallWithId(s, 0);
    var t := Sanitized(s);
    assert forall k :: 0 <= k < 16 ==> Ids(t)[k] == k;
    assert Elems(Ids(t)) == Below(16) by { Pigeonhole(Ids(t)); }
  }

  // The result does not depend on the order in which the balls were submitted.
  lemma SanitizedIgnoresOrder(s: seq<Ball>, t: seq<Ball>)
    requires multiset(s) == multiset(t)
    ensures Acceptable(s) <==> Acceptable(t)
    ensures Acceptable(s) ==> Sanitized(s) == Sanitized(t)
  {
    assert |s| == |multiset(s)| == |multiset(t)| == |t|;
    SameBalls(s, t);
    SameBalls(t, s);
    if Acceptable(s) {
      BallWithId(s, 0);
    }
  }

  lemma SameBalls(s: seq<Ball>, t: seq<Ball>)
    requires multiset(s) == multiset(t)
    ensures forall b :: b in s ==> b in t
    ensures Elems(Ids(s)) <= Elems(Ids(t))
  {
    forall b | b in s ensures b in t {
      assert b in multiset(s);
    }
    forall k | k in Elems(Ids(s)) ensures k in Elems(Ids(t)) {
      var i :| 0 <= i < |s| && Ids(s)[i] == k;
      assert s[i] in t;
      var j :| 0 <= j < |t| && t[j] == s[i];
      assert Ids(t)[j] == k;
    }
  }

  // Sanitising a sanitised table changes nothing.
  lemma SanitizedIdempotent(s: seq<Ball>)
    requires Acceptable(s)
    ensures Acceptable(Sanitized(s)) && Sanitized(Sanitized(s)) == Sanitized(s)
  {
    SanitizedShape(s);
    var t := Sanitized(s);
    SanitizedShape(t);
    forall k | 0 <= k < 16 ensures Sanitized(t)[k] == t[k] {
      assert t[k] in t;
    }
  }

  // ---- Sunk balls

  method SunkTargetIDs(balls: seq<Ball>) returns (ids: set<int>)
    ensures ids == SunkTargets(balls)
  {
    ids := {};
    for i := 0 to |balls|
      invariant ids == SunkTargets(balls[..i])
    {
      assert balls[..i + 1] == balls[..i] + [balls[i]];
      if !balls[i].isWhite && balls[i].sunk {
        ids := ids + {balls[i].id};
      }
    }
    assert balls[..|balls|] == balls;
  }

  // The last ball in `next` with a sunk target's id must exist and be sunk.
  ghost predicate KeepsSunk(next: seq<Ball>, b: Ball) {
    exists i :: 0 <= i < |next| && next[i].id == b.id && next[i].sunk &&
      forall j :: i < j < |next| ==> next[j].id != b.id
  }

  method PreservesPreviouslySunkTargets(previous: seq<Ball>, next: seq<Ball>) returns (ok: bool)
    ensures ok <==> forall b :: b in previous && !b.isWhite && b.sunk ==> KeepsSunk(next, b)
  {
    var nextByID: map<int, Ball> := map[];
    for i := 0 to |next|
      invariant forall k :: k in nextByID <==> exists j :: 0 <= j < i && next[j].id == k
      invariant forall k :: k in nextByID ==>
                  (exists j :: 0 <= j < i && next[j] == nextByID[k] && next[j].id == k &&
                               (forall l :: j < l < i ==> next[l].id != k))
    {
      nextByID := nextByID[next[i].id := next[i]];
    }
    for i := 0 to |previous|
      invariant forall k :: 0 <= k < i && !previous[k].isWhite && previous[k].sunk ==> KeepsSunk(next, previous[k])
    {
      var ball := previous[i];
      if ball.isWhite || !ball.sunk {
        continue;
      }
      if ball.id !in nextByID || !nextByID[ball.id].sunk {
        assert ball in previous;
        return false;
      }
    }
    return true;
  }

  // On full racks the test says exactly that the set of sunk targets has not shrunk.
  lemma KeepsSunkOnTables(previous: seq<Ball>, next: seq<Ball>)
    requires Table(previous) && Table(next)
    ensures (forall b :: b in previous && !b.isWhite && b.sunk ==> KeepsSunk(next, b))
      <==> SunkTargets(previous) <= SunkTargets(next)
  {
    BallWithId(next, 0);
    Pigeonhole(Ids(next));
    if forall b :: b in previous && !b.isWhite && b.sunk ==> KeepsSunk(next, b) {
      forall id | id in SunkTargets(previous) ensures id in SunkTargets(next) {
        var b :| b in previous && !b.isWhite && b.sunk && b.id == id;
        var i :| 0 <= i < |next| && next[i].id == b.id && next[i].sunk;
        assert next[i] in next && b == Normalized(b) && next[i] == Normalized(next[i]);
      }
    }
    if SunkTargets(previous) <= SunkTargets(next) {
      forall b | b in previous && !b.isWhite && b.sunk ensures KeepsSunk(next, b) {
        assert b.id in SunkTargets(previous);
        var c :| c in next && !c.isWhite && c.sunk && c.id == b.id;
        var i :| 0 <= i < |next| && next[i] == c;
      }
    }
  }

  // ---- The opening rack

  // Ids on the ring around the black ball, in the order they are placed.
  function RingId(k: int): int {
    if k < 7 then k + 1 else k + 2
  }

  // Where the outer balls stand: 0.16 times (cos, sin) of an angle.
  datatype Spot = Spot(x: real, y: real)
  type RingSpot = p: Spot | -0.16 <= p.x <= 0.16 && -0.16 <= p.y <= 0.16 witness Spot(0.0, 0.0)

  ghost function InitialBalls(ring: int -> RingSpot): seq<Ball> {
    seq(16, i => InitialBall(ring, i))
  }

  function InitialBall(ring: int -> RingSpot, i: int): Ball {
    if i == 0 then StillBall(0, Finite(-TABLE_RADIUS * 0.64), ZERO, false)
    else if i == 1 then StillBall(8, ZERO, ZERO, false)
    else StillBall(RingId(i - 2), Finite(ring(i - 2).x), Finite(ring(i - 2).y), false)
  }

  method InitMatchBalls(ring: int -> RingSpot) returns (balls: seq<Ball>)
    ensures balls == InitialBalls(ring)
  {
    balls := [StillBall(0, Finite(-TABLE_RADIUS * 0.64), ZERO, false), StillBall(8, ZERO, ZERO, false)];
    for index := 0 to 14
      invariant balls == InitialBalls(ring)[..index + 2]
    {
      var spot := ring(index);
      balls := balls + [StillBall(RingId(index), Finite(spot.x), Finite(spot.y), false)];
    }
  }

  lemma InitialBallsAreATable(ring: int -> RingSpot)
    ensures Table(InitialBalls(ring))
    ensures SunkTargets(InitialBalls(ring)) == {}
  {
    var t := InitialBalls(ring);
    forall k | k in Below(16) ensures k in Elems(Ids(t)) {
      var at := if k == 0 then 0 else if k == 8 then 1 else if k < 8 then k + 1 else k;
      assert Ids(t)[at] == k;
    }
    forall b | b in t ensures InBounds(b) && b == Normalized(b) && !b.sunk && 0 <= b.id < 16 {
      var i :| 0 <= i < 16 && t[i] == b;
      InitialBallIsStill(ring, i);
    }
  }

  lemma InitialBallIsStill(ring: int -> RingSpot, i: int)
    requires 0 <= i < 16
    ensures var b := InitialBall(ring, i); InBounds(b) && b == Normalized(b) && !b.sunk && 0 <= b.id < 16
  {
    var spot: RingSpot := ring(i - 2);
  }
}
