/** The rules of a match in plain ids and figures (match_state.go, with the match half of
    ws_handler.go): whose the balls are, what they score, who wins and who shoots next, when each
    event takes effect, and what it writes. */
module MatchLaws {
  import opened Base
  import opened MatchBalls
  import opened MatchRules
  import opened MatchMachine

  const CREATORS := {1, 2, 3, 4, 5, 6, 7}
  const OPPONENTS := {9, 10, 11, 12, 13, 14, 15}

  // ---- Balls

  lemma ColoursAreSeven()
    ensures IdsOf(CreatorSide) == CREATORS && IdsOf(OpponentSide) == OPPONENTS
  {
  }

  // A submitted ball keeps its id, its place and, the cue ball apart, whether it is down. What it
  // is worth, and to whom, follows from the id; so does its colour; and it stands still.
  lemma SanitizedBall(s: seq<Ball>, b: Ball)
    requires Acceptable(s) && b in s
    ensures 0 <= b.id < 16 && |Sanitized(s)| == 16
    ensures var c := Sanitized(s)[b.id];
      && c.id == b.id && c.x == b.x && c.y == b.y && (c.sunk <==> b.sunk && b.id != 0)
      && (c.owner == CreatorSide <==> 1 <= b.id <= 7) && (c.owner == OpponentSide <==> 9 <= b.id <= 15)
      && (c.owner == NeutralSide <==> b.id == 8) && (c.owner == NoSide <==> b.id == 0)
      && c.points == (if b.id == 0 then 0 else if b.id == 8 then 30 else 10)
      && (c.isWhite <==> b.id == 0) && (c.color == White <==> b.id == 0) && (c.color == Black <==> b.id == 8)
      && (c.color == Amber <==> 1 <= b.id <= 7) && (c.color == Blue <==> 9 <= b.id <= 15)
      && c.radius == Finite(0.035)
      && c.sink == Sink(false, Finite(0.0), Finite(0.0), Finite(0.0), Finite(0.0), Finite(0.0))
      && c.vx == c.vy == c.spinX == c.spinY == Finite(0.0)
  {
    SanitizedShape(s);
  }

  // No coordinate is further out than this.
  predicate UpTo(f: Float, bound: real) {
    f.Finite? && -bound <= f.v <= bound
  }

  lemma BelowSixteen()
    ensures Below(16) == {0, 1, 2, 3, 4, 5, 6, 7, 8, 9, 10, 11, 12, 13, 14, 15}
  {
  }

  lemma IdsAreIds(s: seq<Ball>)
    ensures Elems(Ids(s)) == set b | b in s :: b.id
  {
    forall k ensures k in Elems(Ids(s)) <==> k in (set b | b in s :: b.id) {
      if k in Elems(Ids(s)) {
        var i :| 0 <= i < |s| && Ids(s)[i] == k;
        assert s[i] in s;
      }
      if b :| b in s && b.id == k {
        var i :| 0 <= i < |s| && s[i] == b;
        assert Ids(s)[i] == k;
      }
    }
  }

  lemma InBoundsExactlyWhen(b: Ball)
    ensures InBounds(b) <==> UpTo(b.x, 1.2) && UpTo(b.y, 1.2) && UpTo(b.vx, 8.0) && UpTo(b.vy, 8.0) &&
                             UpTo(b.spinX, 500.0) && UpTo(b.spinY, 500.0)
  {
  }

  // Sixteen balls with the ids 0 to 15, none off the table or faster than allowed.
  lemma AcceptableExactlyWhen(s: seq<Ball>)
    ensures Acceptable(s) <==>
      && |s| == 16
      && (set b | b in s :: b.id) == {0, 1, 2, 3, 4, 5, 6, 7, 8, 9, 10, 11, 12, 13, 14, 15}
      && forall b :: b in s ==> UpTo(b.x, 1.2) && UpTo(b.y, 1.2) && UpTo(b.vx, 8.0) && UpTo(b.vy, 8.0) &&
                                UpTo(b.spinX, 500.0) && UpTo(b.spinY, 500.0)
  {
    BelowSixteen();
    IdsAreIds(s);
    forall b ensures InBounds(b) <==> UpTo(b.x, 1.2) && UpTo(b.y, 1.2) && UpTo(b.vx, 8.0) && UpTo(b.vy, 8.0) &&
                                      UpTo(b.spinX, 500.0) && UpTo(b.spinY, 500.0)
    {
      InBoundsExactlyWhen(b);
    }
  }

  // A sunk target is a ball other than the cue ball that is down.
  lemma SunkTargetsAreDown(balls: seq<Ball>, k: int)
    requires Table(balls)
    ensures k in SunkTargets(balls) <==> exists b :: b in balls && b.id == k && b.sunk
  {
    assert forall b :: b in balls ==> b == Normalized(b);
  }

  // The cue ball starts on the left, the black in the middle, and the others around it in the order
  // of their ids.
  lemma RackInFigures(ring: int -> RingSpot, b: Ball)
    requires b in InitialBalls(ring)
    ensures 0 <= b.id < 16 && !b.sunk && b.y.Finite? && b.x.Finite?
    ensures b.id == 0 ==> b.x.v == -0.608 && b.y.v == 0.0
    ensures b.id == 8 ==> b.x.v == 0.0 && b.y.v == 0.0
    ensures 1 <= b.id <= 7 ==> b.x.v == ring(b.id - 1).x && b.y.v == ring(b.id - 1).y
    ensures 9 <= b.id <= 15 ==> b.x.v == ring(b.id - 2).x && b.y.v == ring(b.id - 2).y
  {
    var i :| 0 <= i < 16 && InitialBalls(ring)[i] == b;
    assert b == InitialBall(ring, i);
  }

  // ---- Score, winner and turn

  // The other of the two players.
  function Other(room: MatchRoom, user: string): Option<string> {
    if user == room.row.creator then room.row.opponent else Some(room.row.creator)
  }

  // Ten points for each ball down, to its owner; the match is over when the black or all of one
  // colour is down; who sinks the black has lost, and otherwise the colour that is down has won,
  // or the last to shoot if both are.
  ghost predicate ScoredRight(room: MatchRoom, s: Snapshot) {
    var sunk := SunkTargets(s.balls);
    && s.scores.creator == 10 * |sunk * CREATORS| && s.scores.opponent == 10 * |sunk * OPPONENTS|
    && (s.status.Finished? <==> 8 in sunk || CREATORS <= sunk || OPPONENTS <= sunk)
    && (s.winner == "" <==> !s.status.Finished?)
    && (8 in sunk ==> Some(s.winner) == Other(room, s.turnUserID))
    && (8 !in sunk && CREATORS <= sunk && OPPONENTS <= sunk ==> s.winner == s.turnUserID)
    && (8 !in sunk && CREATORS <= sunk && !(OPPONENTS <= sunk) ==> s.winner == room.row.creator)
    && (8 !in sunk && OPPONENTS <= sunk && !(CREATORS <= sunk) ==> Some(s.winner) == room.row.opponent)
  }

  lemma InvScoresRight(oracle: Oracle, room: MatchRoom, s: Snapshot)
    requires Inv(oracle, room, s)
    ensures ScoredRight(room, s)
  {
    ColoursAreSeven();
  }

  lemma ReachableIsScoredRight(oracle: Oracle, room: MatchRoom, s: Snapshot)
    requires Reachable(oracle, room, s)
    ensures ScoredRight(room, s)
  {
    ReachableInv(oracle, room, s);
    InvScoresRight(oracle, room, s);
  }

  // What one accepted result scores, and whether its sender shoots again.
  lemma JudgedInFigures(oracle: Oracle, room: MatchRoom, s: Snapshot, user: string, r: ShotResult, now: int)
    requires Inv(oracle, room, s) && SubmissionAdmitted(room, s, user, r)
    ensures var next := ShotOutcome(oracle, room, s, r, now);
      var downed := SunkTargets(Sanitized(r.balls)) - SunkTargets(s.balls);
      var own := if user == room.row.creator then downed * CREATORS else downed * OPPONENTS;
      && next.balls == Sanitized(r.balls)
      && next.scores.creator == s.scores.creator + 10 * |downed * CREATORS|
      && next.scores.opponent == s.scores.opponent + 10 * |downed * OPPONENTS|
      && (next.status.Finished? ==> next.turnUserID == user && next.turnSeq == s.turnSeq)
      && (!next.status.Finished? ==>
            && next.status.Aiming? && next.turnSeq == s.turnSeq + 1
            && Some(next.turnUserID) == if !r.cueBallSunk && own != {} then Some(user) else Other(room, user))
  {
    ColoursAreSeven();
    JudgedTurnOrder(oracle, room, s, user, r, now);
    JudgedScoreInv(oracle, room, s, r, now);
  }

  // A lost turn or shot hands the turn to the other player, and any other unjudged step leaves it.
  lemma UnjudgedTurns(oracle: Oracle, room: MatchRoom, s: Snapshot, e: Event)
    requires Inv(oracle, room, s) && !Step(oracle, room, s, e).kind.Judged?
    ensures var o := Step(oracle, room, s, e);
      && o.next.balls == s.balls && o.next.scores == s.scores && o.next.winner == s.winner
      && Some(o.next.turnUserID) ==
           if o.kind.TurnLost? || o.kind.ShotLost? then Other(room, s.turnUserID) else Some(s.turnUserID)
  {
    OnlyJudgedShotsTouchTheTable(oracle, room, s, e);
  }

  lemma NewMatchInFigures(oracle: Oracle, room: MatchRoom, now: int)
    requires ProperRoom(room) && now > 0
    ensures var s := InitialSnapshot(oracle, room, now);
      && s.turnUserID == room.row.creator && s.turnSeq == 1 && s.shotSeq == 0 && s.status.Aiming?
      && s.turnStartedAt == 0 && s.turnDeadlineAt == 0 && s.updatedAt == now && s.activeShot.None?
      && s.scores == Scoreboard(0, 0) && SunkTargets(s.balls) == {}
  {
    InitialBallsAreATable(oracle.ring);
  }

  // ---- When events take effect

  // Whatever the clock reads, a step is stamped later than what it steps from.
  function Stamp(s: Snapshot, now: int): int {
    if now > s.updatedAt then now else s.updatedAt + 1
  }

  lemma StepIsStamped(oracle: Oracle, room: MatchRoom, s: Snapshot, e: Event)
    requires PhasesInv(room, s)
    ensures var o := Step(oracle, room, s, e);
      o.next.updatedAt == if o.kind.Idle? then s.updatedAt else Stamp(s, e.now)
  {
  }

  // turn_ready of the player whose turn it is starts a clock of twenty seconds, once.
  lemma ReadyExactlyWhen(oracle: Oracle, room: MatchRoom, s: Snapshot, user: string, matchID: string, turnSeq: int,
                         now: int)
    requires PhasesInv(room, s)
    ensures var o := Step(oracle, room, s, TurnReady(user, matchID, turnSeq, now));
      && (o.kind.Clocked? <==>
            && s.status.Aiming? && s.turnStartedAt == 0 && s.turnUserID == user
            && (matchID == "" || matchID == room.id) && (turnSeq == 0 || (turnSeq > 0 && turnSeq == s.turnSeq)))
      && (o.kind.Clocked? ==>
            o.next.turnStartedAt == Stamp(s, now) && o.next.turnDeadlineAt == Stamp(s, now) + 20_000)
      && (!o.kind.Clocked? ==> o == Outcome(s, Idle))
  {
  }

  // shot_started of the player whose turn it is, while the clock runs: a shot if twenty seconds
  // have not passed, and a lost turn otherwise. The shot carries what the event says.
  lemma ShotExactlyWhen(oracle: Oracle, room: MatchRoom, s: Snapshot, user: string, matchID: string, angle: real,
                        power: real, now: int)
    requires PhasesInv(room, s)
    ensures var o := Step(oracle, room, s, ShotStarted(user, matchID, angle, power, now));
      var heard := s.status.Aiming? && s.turnStartedAt > 0 && s.turnUserID == user &&
        (matchID == "" || matchID == room.id) && 0.0 < power <= 100.0;
      && (o.kind.Fired? <==> heard && now < s.turnStartedAt + 20_000)
      && (o.kind.TurnLost? <==> heard && now >= s.turnStartedAt + 20_000)
      && (!heard ==> o == Outcome(s, Idle))
  {
  }

  lemma ShotCarries(oracle: Oracle, room: MatchRoom, s: Snapshot, user: string, matchID: string, angle: real,
                    power: real, now: int)
    requires PhasesInv(room, s)
    requires Step(oracle, room, s, ShotStarted(user, matchID, angle, power, now)).kind.Fired?
    ensures var t := Step(oracle, room, s, ShotStarted(user, matchID, angle, power, now)).next;
      && t.activeShot.Some?
      && t.activeShot.value.angle == angle && t.activeShot.value.power == power && t.activeShot.value.shooter == user
      && t.activeShot.value.shotSeq == s.shotSeq + 1 && t.activeShot.value.matchID == room.id
      && t.activeShot.value.startedAt == Stamp(s, now)
      && t.balls == s.balls && t.pockets == s.pockets && t.scores == s.scores && t.winner == s.winner
      && t.turnUserID == s.turnUserID && t.turnSeq == s.turnSeq && t.shotSeq == s.shotSeq + 1
      && t.turnStartedAt == 0 && t.turnDeadlineAt == 0
  {
  }

  // A result is judged for the shot in the air, of the player who fired it, when its table is
  // acceptable and no ball that was down comes back.
  lemma ResultExactlyWhen(oracle: Oracle, room: MatchRoom, s: Snapshot, user: string, r: ShotResult, now: int)
    requires Inv(oracle, room, s)
    ensures var o := Step(oracle, room, s, ShotSubmitted(user, r, now));
      && (o.kind.Judged? <==>
            && s.status.Moving? && s.turnUserID == user && (r.shooter == "" || r.shooter == user)
            && (r.matchID == "" || r.matchID == room.id)
            && r.shotSeq >= 0 && (r.shotSeq == s.shotSeq || r.shotSeq == s.shotSeq - 1)
            && Acceptable(r.balls) && SunkTargets(s.balls) <= SunkTargets(Sanitized(r.balls)))
      && (!o.kind.Judged? ==> o == Outcome(s, Idle))
  {
    SubmissionExactlyWhen(oracle, room, s, user, r, now);
    if Acceptable(r.balls) {
      SanitizedShape(r.balls);
      KeepsSunkOnTables(s.balls, Sanitized(r.balls));
    }
  }

  lemma SubmissionExactlyWhen(oracle: Oracle, room: MatchRoom, s: Snapshot, user: string, r: ShotResult, now: int)
    requires TurnInv(room, s)
    ensures var o := Step(oracle, room, s, ShotSubmitted(user, r, now));
      && (o.kind.Judged? <==>
            && s.status.Moving? && s.turnUserID == user && (r.shooter == "" || r.shooter == user)
            && (r.matchID == "" || r.matchID == room.id)
            && r.shotSeq >= 0 && (r.shotSeq == s.shotSeq || r.shotSeq == s.shotSeq - 1)
            && Acceptable(r.balls)
            && forall b :: b in s.balls && !b.isWhite && b.sunk ==> KeepsSunk(Sanitized(r.balls), b))
      && (!o.kind.Judged? ==> o == Outcome(s, Idle))
  {
  }

  // Left to itself, a turn starts its clock after a second and a half, is lost twenty seconds
  // later, and a shot is lost after fifteen seconds without a result.
  lemma TimeoutsExactlyWhen(oracle: Oracle, room: MatchRoom, s: Snapshot, now: int)
    requires PhasesInv(room, s)
    ensures var o := Step(oracle, room, s, Event.Reconcile(now));
      && (o.kind.Clocked? <==> s.status.Aiming? && s.turnStartedAt == 0 && now >= s.updatedAt + 1_500)
      && (o.kind.TurnLost? <==> s.status.Aiming? && s.turnStartedAt > 0 && now >= s.turnStartedAt + 20_000)
      && (o.kind.ShotLost? <==> s.status.Moving? && now >= s.activeShot.value.startedAt + 15_000)
      && (o.kind.Clocked? ==>
            o.next.turnStartedAt == Stamp(s, now) && o.next.turnDeadlineAt == Stamp(s, now) + 20_000)
      && !o.kind.Fired? && !o.kind.Judged?
  {
  }

  // A lost shot stops the balls where they are, whatever table it was, and clears shot and clock.
  lemma LostShotInFigures(oracle: Oracle, room: MatchRoom, s: Snapshot, now: int)
    requires ShotTimeoutApplies(s)
    ensures var t := ShotTimeoutOutcome(oracle, room, s, now);
      && |t.balls| == |s.balls|
      && (forall i :: 0 <= i < |s.balls| ==>
            t.balls[i] == s.balls[i].(vx := Finite(0.0), vy := Finite(0.0), spinX := Finite(0.0), spinY := Finite(0.0),
                                      sink := NO_SINK))
      && t.pockets == oracle.pockets(room.id, s.shotSeq, t.balls) && t.auditHash == oracle.auditHash(t.balls)
      && t.turnSeq == s.turnSeq + 1 && t.turnStartedAt == 0 && t.turnDeadlineAt == 0 && t.activeShot.None?
      && t.status.Aiming? && t.updatedAt == Stamp(s, now)
      && t.scores == s.scores && t.winner == s.winner && t.shotSeq == s.shotSeq && t.matchID == s.matchID
  {
  }

  // ---- Pockets

  // The pockets were drawn for this room, this table and the number of shots that are over; a
  // finished match has none.
  ghost predicate PocketsInv(oracle: Oracle, room: MatchRoom, s: Snapshot) {
    s.pockets ==
      if s.status.Finished? then []
      else oracle.pockets(room.id, if s.status.Moving? then s.shotSeq - 1 else s.shotSeq, s.balls)
  }

  lemma StepKeepsPockets(oracle: Oracle, room: MatchRoom, s: Snapshot, e: Event)
    requires Inv(oracle, room, s) && PocketsInv(oracle, room, s)
    ensures PocketsInv(oracle, room, Step(oracle, room, s, e).next)
  {
    StoppedTableIsItself(s.balls);
    RestedStepKeepsPockets(oracle, room, s, e);
  }

  lemma RestedStepKeepsPockets(oracle: Oracle, room: MatchRoom, s: Snapshot, e: Event)
    requires PhasesInv(room, s) && PocketsInv(oracle, room, s) && AllStopped(s.balls) == s.balls
    ensures PocketsInv(oracle, room, Step(oracle, room, s, e).next)
  {
    StepPhases(oracle, room, s, e);
  }

  lemma {:induction false} RunKeepsPockets(oracle: Oracle, room: MatchRoom, start: int, events: seq<Event>)
    requires ProperRoom(room) && start > 0
    ensures PocketsInv(oracle, room, Run(oracle, room, InitialSnapshot(oracle, room, start), events))
  {
    var s := InitialSnapshot(oracle, room, start);
    InitialInv(oracle, room, start);
    if events != [] {
      var n := |events| - 1;
      RunKeepsPockets(oracle, room, start, events[..n]);
      RunKeepsInv(oracle, room, s, events[..n]);
      StepKeepsPockets(oracle, room, Run(oracle, room, s, events[..n]), events[n]);
    }
  }

  // ---- The repaired clock

  // A clock read back with one of its ends missing is completed to twenty seconds, from the end
  // that is there; a clock that should not run is cleared.
  lemma RepairedClock(s: Snapshot, now: int)
    requires now > 0
    ensures var t := NormalizeTurnClock(s, now);
      var runs := s.status.Aiming? && s.winner == "" && (s.turnStartedAt > 0 || s.turnDeadlineAt > 0);
      && t == s.(turnSeq := t.turnSeq, turnStartedAt := t.turnStartedAt, turnDeadlineAt := t.turnDeadlineAt)
      && t.turnSeq == (if s.turnSeq > 0 then s.turnSeq else 1)
      && (runs && s.turnStartedAt > 0 ==> t.turnStartedAt == s.turnStartedAt)
      && (runs && s.turnDeadlineAt > 0 ==> t.turnDeadlineAt == s.turnDeadlineAt)
      && (runs && s.turnDeadlineAt <= 0 ==> t.turnDeadlineAt == t.turnStartedAt + 20_000)
      && (runs && s.turnStartedAt <= 0 ==>
            t.turnStartedAt == if s.turnDeadlineAt > 20_000 then s.turnDeadlineAt - 20_000 else now)
      && (!s.status.Aiming? || s.winner != "" ==> t.turnStartedAt == 0 && t.turnDeadlineAt == 0)
      && (s.status.Aiming? && s.winner == "" && !runs ==>
            t.turnStartedAt == s.turnStartedAt && t.turnDeadlineAt == s.turnDeadlineAt)
  {
  }

  // ---- A table decided some other way

  // Between two sides that have both cleared their balls, or neither with the black down, the
  // higher score wins, and a tie is the shooter's; a side that alone is clear wins anyhow.
  lemma RoleByScore(balls: seq<Ball>, scores: Scoreboard, shooter: Side)
    ensures var role := WinnerRole(balls, scores, shooter);
      var creator := forall b :: b in balls && b.owner == CreatorSide ==> b.sunk;
      var opponent := forall b :: b in balls && b.owner == OpponentSide ==> b.sunk;
      var black := exists b :: b in balls && b.owner == NeutralSide && b.sunk;
      && (creator && !opponent ==> role == CreatorSide) && (opponent && !creator ==> role == OpponentSide)
      && (!creator && !opponent && !black ==> role == NoSide)
      && ((creator && opponent) || (!creator && !opponent && black) ==>
            && (scores.creator > scores.opponent ==> role == CreatorSide)
            && (scores.creator < scores.opponent ==> role == OpponentSide)
            && (scores.creator == scores.opponent ==> role == shooter))
  {
  }
}
