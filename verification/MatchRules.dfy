/** The pure rules of a match: the turn clock, the due predicates, and what a shot result,
    a turn timeout and a shot timeout do to a snapshot (match_state.go). */
module MatchRules {
  import opened Base
  import opened MatchBalls
  import RoomRows

  // The room of a match: its id, and its row in the rooms table.
  datatype MatchRoom = MatchRoom(id: string, row: RoomRows.Room)

  // Statuses of a snapshot. The server writes three of them; Striking exists on clients only.
  datatype Status = Aiming | Striking | Moving | Finished | OtherStatus

  datatype Pocket = Pocket(x: real, y: real)
  datatype Scoreboard = Scoreboard(creator: int, opponent: int)
  datatype ActiveShot = ActiveShot(
    matchID: string, shotSeq: int, shooter: string, angle: real, power: real, startedAt: int)

  datatype Snapshot = Snapshot(
    matchID: string, balls: seq<Ball>, pockets: seq<Pocket>, scores: Scoreboard,
    turnUserID: string, turnSeq: int, turnStartedAt: int, turnDeadlineAt: int,
    shotSeq: int, status: Status, winner: string, auditHash: string, updatedAt: int,
    activeShot: Option<ActiveShot>)

  datatype ShotResult = ShotResult(matchID: string, shotSeq: int, shooter: string, balls: seq<Ball>, cueBallSunk: bool)

  // SHA-256 in hexadecimal.
  type Hash = h: string | |h| == 64 witness seq(64, i => '0')

  // Foreign computations the rules only pass along: the audit hash of a table, the seeded
  // pockets of (room, shot, table), and the trigonometry of the opening rack.
  datatype Oracle = Oracle(
    auditHash: seq<Ball> -> Hash,
    pockets: (string, int, seq<Ball>) -> seq<Pocket>,
    ring: int -> RingSpot)

  const TURN_DURATION := 20_000
  const TURN_PREPARE := 1_500
  const SHOT_RESULT_TIMEOUT := 15_000

  // ---- Clock

  function UpdateTimeAfter(s: Snapshot, now: int): int {
    if now <= s.updatedAt then s.updatedAt + 1 else now
  }

  function NormalizeTurnClock(s: Snapshot, now: int): Snapshot {
    var s := if s.turnSeq <= 0 then s.(turnSeq := 1) else s;
    if s.status != Aiming || s.winner != "" then
      s.(turnStartedAt := 0, turnDeadlineAt := 0)
    else if s.turnStartedAt <= 0 && s.turnDeadlineAt <= 0 then
      s
    else
      var started :=
        if s.turnStartedAt > 0 then s.turnStartedAt
        else if s.turnDeadlineAt - TURN_DURATION > 0 then s.turnDeadlineAt - TURN_DURATION
        else now;
      s.(turnStartedAt := started,
         turnDeadlineAt := if s.turnDeadlineAt <= 0 then started + TURN_DURATION else s.turnDeadlineAt)
  }

  predicate ClockStarted(s: Snapshot) {
    s.turnStartedAt > 0 && s.turnDeadlineAt > 0
  }

  predicate TurnPrepareDue(s: Snapshot, now: int) {
    s.status == Aiming && s.winner == "" && !ClockStarted(s) && s.updatedAt > 0 && now >= s.updatedAt + TURN_PREPARE
  }

  predicate TurnExpired(s: Snapshot, now: int) {
    s.status == Aiming && s.winner == "" && s.turnDeadlineAt > 0 && now >= s.turnDeadlineAt
  }

  function ShotResultDeadline(s: Snapshot): int {
    if s.activeShot.None? then 0
    else
      var started := if s.activeShot.value.startedAt <= 0 then s.updatedAt else s.activeShot.value.startedAt;
      if started <= 0 then 0 else started + SHOT_RESULT_TIMEOUT
  }

  predicate ShotResultExpired(s: Snapshot, now: int) {
    && s.status == Moving && s.winner == "" && s.activeShot.Some?
    && ShotResultDeadline(s) > 0 && now >= ShotResultDeadline(s)
  }

  function StartTurnClock(s: Snapshot, now: int): Snapshot {
    var t := UpdateTimeAfter(s, now);
    s.(turnStartedAt := t, turnDeadlineAt := t + TURN_DURATION, activeShot := None, updatedAt := t)
  }

  // Normalising twice, the first time with a clock reading after the epoch, is normalising once.
  lemma NormalizeIsIdempotent(s: Snapshot, now: int, later: int)
    requires now > 0
    ensures NormalizeTurnClock(NormalizeTurnClock(s, now), later) == NormalizeTurnClock(s, now)
  {
  }

  // ---- Players

  function RoleOf(user: string, room: MatchRoom): Side {
    if user == room.row.creator then CreatorSide
    else if room.row.opponent == Some(user) then OpponentSide
    else NoSide
  }

  function OpponentUserIDFor(user: string, room: MatchRoom): string {
    if room.row.opponent.None? then ""
    else if user == room.row.creator then room.row.opponent.value
    else if user == room.row.opponent.value then room.row.creator
    else ""
  }

  function NextTurnUserIDFor(user: string, room: MatchRoom): string {
    if room.row.opponent.Some? && user == room.row.creator then room.row.opponent.value else room.row.creator
  }

  // ---- Shot result

  predicate Cleared(balls: seq<Ball>, side: Side) {
    forall b :: b in balls && b.owner == side ==> b.sunk
  }

  // The rule book: a side that alone has cleared its balls wins. Otherwise, once the black is
  // down or both are clear, the higher score wins and the shooter takes ties.
  ghost function WinnerRole(balls: seq<Ball>, scores: Scoreboard, shooter: Side): Side {
    var c, o := Cleared(balls, CreatorSide), Cleared(balls, OpponentSide);
    if c != o then (if c then CreatorSide else OpponentSide)
    else if !c && !(exists b :: b in balls && b.owner == NeutralSide && b.sunk) then NoSide
    else if scores.creator != scores.opponent then
      (if scores.creator > scores.opponent then CreatorSide else OpponentSide)
    else shooter
  }

  method ResolveServerWinnerRole(balls: seq<Ball>, scores: Scoreboard, shooterRole: Side) returns (role: Side)
    ensures role == WinnerRole(balls, scores, shooterRole)
  {
    var creatorCleared, opponentCleared, neutralSunk := true, true, false;
    for i := 0 to |balls|
      invariant creatorCleared == Cleared(balls[..i], CreatorSide)
      invariant opponentCleared == Cleared(balls[..i], OpponentSide)
      invariant neutralSunk == exists b :: b in balls[..i] && b.owner == NeutralSide && b.sunk
    {
      assert balls[..i + 1] == balls[..i] + [balls[i]];
      match balls[i].owner
      case CreatorSide => if !balls[i].sunk { creatorCleared := false; }
      case OpponentSide => if !balls[i].sunk { opponentCleared := false; }
      case NeutralSide => if balls[i].sunk { neutralSunk := true; }
      case NoSide =>
    }
    assert balls[..|balls|] == balls;
    if creatorCleared && !opponentCleared { return CreatorSide; }
    if opponentCleared && !creatorCleared { return OpponentSide; }
    if !neutralSunk && !(creatorCleared && opponentCleared) { return NoSide; }
    if scores.creator > scores.opponent { return CreatorSide; }
    if scores.opponent > scores.creator { return OpponentSide; }
    return shooterRole;
  }

  // Targets this shot put down.
  function Newly(before: seq<Ball>, after: seq<Ball>): set<int> {
    SunkTargets(after) - SunkTargets(before)
  }

  // Ten points a ball to the ball's owner, whoever shot it; the black scores nothing.
  ghost function AddPoints(scores: Scoreboard, downed: set<int>): Scoreboard {
    Scoreboard(scores.creator + 10 * |downed * IdsOf(CreatorSide)|,
               scores.opponent + 10 * |downed * IdsOf(OpponentSide)|)
  }

  ghost predicate SankOwn(downed: set<int>, role: Side, cueBallSunk: bool) {
    !cueBallSunk &&
    ((role.CreatorSide? && downed * IdsOf(CreatorSide) != {}) ||
     (role.OpponentSide? && downed * IdsOf(OpponentSide) != {}))
  }

  // Scores a table against the targets already down, as the loop in applyShotResult does.
  method TallyShot(nextBalls: seq<Ball>, ghost before: seq<Ball>, beforeSunk: set<int>, scores: Scoreboard,
                   shooterRole: Side, cueBallSunk: bool)
    returns (nextScores: Scoreboard, sankOwn: bool, sankBlack: bool)
    requires InOrder(nextBalls)
    requires beforeSunk == SunkTargets(before)
    requires !shooterRole.NeutralSide?
    ensures nextScores == AddPoints(scores, Newly(before, nextBalls))
    ensures sankOwn == SankOwn(Newly(before, nextBalls), shooterRole, cueBallSunk)
    ensures sankBlack == (8 in Newly(before, nextBalls))
  {
    nextScores, sankOwn, sankBlack := scores, false, false;
    ghost var downed: set<int> := {};
    for i := 0 to |nextBalls|
      invariant forall k :: k in downed <==> 0 < k < i && nextBalls[k].sunk && k !in beforeSunk
      invariant nextScores == AddPoints(scores, downed)
      invariant sankOwn == SankOwn(downed, shooterRole, cueBallSunk)
      invariant sankBlack == (8 in downed)
    {
      if nextBalls[i].isWhite || nextBalls[i].id in beforeSunk || !nextBalls[i].sunk {
        continue;
      }
      nextScores, sankOwn, sankBlack :=
        TallyBall(nextBalls[i], downed, scores, nextScores, sankOwn, sankBlack, shooterRole, cueBallSunk);
      downed := downed + {i};
    }
    NewlyByIndex(before, nextBalls, downed);
  }

  lemma NewlyByIndex(before: seq<Ball>, balls: seq<Ball>, downed: set<int>)
    requires InOrder(balls)
    requires forall k :: k in downed <==> 0 < k < 16 && balls[k].sunk && k !in SunkTargets(before)
    ensures downed == Newly(before, balls)
  {
    forall k | k in downed ensures k in Newly(before, balls) {
      assert balls[k] in balls;
    }
  }

  // One freshly sunk target.
  method TallyBall(ball: Ball, ghost downed: set<int>, ghost start: Scoreboard, scores: Scoreboard, own: bool,
                   black: bool, shooterRole: Side, cueBallSunk: bool)
    returns (nextScores: Scoreboard, sankOwn: bool, sankBlack: bool)
    requires 0 < ball.id < 16 && ball.owner == OwnerOf(ball.id) && ball.points == PointsOf(ball.id)
    requires ball.id !in downed && !shooterRole.NeutralSide?
    requires scores == AddPoints(start, downed)
    requires own == SankOwn(downed, shooterRole, cueBallSunk) && black == (8 in downed)
    ensures nextScores == AddPoints(start, downed + {ball.id})
    ensures sankOwn == SankOwn(downed + {ball.id}, shooterRole, cueBallSunk)
    ensures sankBlack == (8 in downed + {ball.id})
  {
    PointsOneMore(start, downed, ball.id);
    SankOwnOneMore(downed, ball.id, shooterRole, cueBallSunk);
    nextScores, sankOwn, sankBlack := scores, own, black;
    if ball.id == 8 {
      assert OwnerOf(ball.id) == NeutralSide;
      sankBlack := true;
      return;
    }
    if ball.owner == CreatorSide {
      nextScores := nextScores.(creator := nextScores.creator + ball.points);
    } else if ball.owner == OpponentSide {
      nextScores := nextScores.(opponent := nextScores.opponent + ball.points);
    }
    // Only the black is neutral, and it has been dealt with.
    if !cueBallSunk && shooterRole != NoSide && ball.owner == shooterRole {
      sankOwn := true;
    }
  }

  lemma PointsOneMore(start: Scoreboard, downed: set<int>, id: int)
    requires id !in downed && 0 <= id < 16
    ensures var before, after := AddPoints(start, downed), AddPoints(start, downed + {id});
      && after.creator == before.creator + (if OwnerOf(id) == CreatorSide then 10 else 0)
      && after.opponent == before.opponent + (if OwnerOf(id) == OpponentSide then 10 else 0)
  {
    OneMore(downed, id, CreatorSide);
    OneMore(downed, id, OpponentSide);
  }

  lemma SankOwnOneMore(downed: set<int>, id: int, role: Side, cueBallSunk: bool)
    requires id !in downed && 0 < id < 16
    ensures SankOwn(downed + {id}, role, cueBallSunk) <==>
      SankOwn(downed, role, cueBallSunk) ||
      (!cueBallSunk && (role.CreatorSide? || role.OpponentSide?) && OwnerOf(id) == role)
  {
    OneMore(downed, id, role);
  }

  lemma OneMore(downed: set<int>, id: int, side: Side)
    requires id !in downed && 0 <= id < 16
    ensures |(downed + {id}) * IdsOf(side)| == |downed * IdsOf(side)| + (if OwnerOf(id) == side then 1 else 0)
    ensures (downed + {id}) * IdsOf(side) != {} <==> OwnerOf(id) == side || downed * IdsOf(side) != {}
  {
    if OwnerOf(id) == side {
      assert (downed + {id}) * IdsOf(side) == downed * IdsOf(side) + {id};
    } else {
      assert (downed + {id}) * IdsOf(side) == downed * IdsOf(side);
    }
  }

  // The result must be for the shot in the air, or carry the number just before it.
  predicate SeqTolerated(active: ActiveShot, seqNo: int) {
    seqNo == active.shotSeq || seqNo == active.shotSeq - 1
  }

  ghost predicate ResultAccepted(current: Snapshot, result: ShotResult) {
    && current.activeShot.Some? && current.status == Moving
    && SeqTolerated(current.activeShot.value, result.shotSeq)
    && (result.shooter == "" || result.shooter == current.activeShot.value.shooter)
    && Acceptable(result.balls)
    && (forall b :: b in current.balls && !b.isWhite && b.sunk ==> KeepsSunk(Sanitized(result.balls), b))
  }

  ghost function WinnerOf(room: MatchRoom, nextBalls: seq<Ball>, downed: set<int>, scores: Scoreboard, shooter: string)
    : string
  {
    if 8 in downed then OpponentUserIDFor(shooter, room)
    else match WinnerRole(nextBalls, scores, RoleOf(shooter, room))
      case CreatorSide => room.row.creator
      case OpponentSide => if room.row.opponent.Some? then room.row.opponent.value else ""
      case _ => ""
  }

  // The snapshot that records a judged shot: turn order, counters and clocks.
  function Recorded(oracle: Oracle, room: MatchRoom, current: Snapshot, shot: ActiveShot, balls: seq<Ball>,
                    scores: Scoreboard, sankOwn: bool, winner: string, wall: int): Snapshot
  {
    var over := winner != "";
    Snapshot(
      room.id, balls,
      if over then [] else oracle.pockets(room.id, shot.shotSeq, balls),
      scores,
      if over then current.turnUserID
      else if sankOwn then shot.shooter
      else NextTurnUserIDFor(current.turnUserID, room),
      if over then current.turnSeq else current.turnSeq + 1,
      0, 0, shot.shotSeq,
      if over then Finished else Aiming,
      winner, oracle.auditHash(balls), UpdateTimeAfter(current, wall), None)
  }

  // The snapshot an accepted result leads to.
  ghost function ShotOutcome(oracle: Oracle, room: MatchRoom, current: Snapshot, result: ShotResult, wall: int)
    : Snapshot
    requires ResultAccepted(current, result)
  {
    var shot := current.activeShot.value;
    var balls := Sanitized(result.balls);
    var downed := Newly(current.balls, balls);
    var scores := AddPoints(current.scores, downed);
    Recorded(oracle, room, current, shot, balls, scores,
             SankOwn(downed, RoleOf(shot.shooter, room), result.cueBallSunk),
             WinnerOf(room, balls, downed, scores, shot.shooter), wall)
  }

  // The guards of applyShotResult, in its order.
  method AdmitShotResult(current: Snapshot, result: ShotResult) returns (nextBalls: seq<Ball>, ok: bool)
    ensures ok <==> ResultAccepted(current, result)
    ensures ok ==> nextBalls == Sanitized(result.balls)
  {
    nextBalls, ok := [], false;
    if current.activeShot.None? || current.status != Moving {
      return;
    }
    var shot := current.activeShot.value;
    if shot.shotSeq != result.shotSeq {
      if result.shotSeq != shot.shotSeq - 1 {
        return;
      }
    }
    if result.shooter != "" && result.shooter != shot.shooter {
      return;
    }
    nextBalls, ok := SanitizeSubmittedBalls(result.balls);
    if !ok {
      return;
    }
    ok := PreservesPreviouslySunkTargets(current.balls, nextBalls);
  }

  method ServerWinner(room: MatchRoom, balls: seq<Ball>, ghost downed: set<int>, sankBlack: bool, scores: Scoreboard,
                      shooter: string)
    returns (winner: string)
    requires sankBlack == (8 in downed)
    ensures winner == WinnerOf(room, balls, downed, scores, shooter)
  {
    winner := "";
    if sankBlack {
      winner := OpponentUserIDFor(shooter, room);
    } else {
      var role := ResolveServerWinnerRole(balls, scores, RoleOf(shooter, room));
      if role == CreatorSide {
        winner := room.row.creator;
      } else if role == OpponentSide && room.row.opponent.Some? {
        winner := room.row.opponent.value;
      }
    }
  }

  method ApplyShotResult(oracle: Oracle, room: MatchRoom, current: Snapshot, result: ShotResult, wall: int)
    returns (next: Snapshot, applied: bool)
    ensures applied <==> ResultAccepted(current, result)
    ensures applied ==> next == ShotOutcome(oracle, room, current, result, wall)
    ensures !applied ==> next == current
  {
    var nextBalls, ok := AdmitShotResult(current, result);
    if !ok {
      return current, false;
    }
    SanitizedShape(result.balls);
    var shot := current.activeShot.value;
    var shooterRole := RoleOf(shot.shooter, room);
    var beforeSunk := SunkTargetIDs(current.balls);
    var nextScores, sankOwn, sankBlack :=
      TallyShot(nextBalls, current.balls, beforeSunk, current.scores, shooterRole, result.cueBallSunk);
    ghost var downed := Newly(current.balls, nextBalls);
    var winner := ServerWinner(room, nextBalls, downed, sankBlack, nextScores, shot.shooter);
    next := Recorded(oracle, room, current, shot, nextBalls, nextScores, sankOwn, winner, wall);
    applied := true;
  }

  // A result numbered one below the shot in the air is taken as if numbered correctly.
  lemma PreviousSeqIsTakenForThisShot(oracle: Oracle, room: MatchRoom, current: Snapshot, result: ShotResult, wall: int)
    requires current.activeShot.Some? && result.shotSeq == current.activeShot.value.shotSeq
    ensures var stale := result.(shotSeq := result.shotSeq - 1);
      && (ResultAccepted(current, stale) <==> ResultAccepted(current, result))
      && (ResultAccepted(current, result) ==>
            ShotOutcome(oracle, room, current, stale, wall) == ShotOutcome(oracle, room, current, result, wall))
  {
  }

  // ---- Timeouts

  function TurnTimeoutOutcome(room: MatchRoom, s: Snapshot, now: int): Snapshot {
    s.(turnUserID := NextTurnUserIDFor(s.turnUserID, room), turnSeq := s.turnSeq + 1,
       turnStartedAt := 0, turnDeadlineAt := 0, status := Aiming, activeShot := None,
       updatedAt := UpdateTimeAfter(s, now))
  }

  function Stopped(b: Ball): Ball {
    b.(vx := ZERO, vy := ZERO, spinX := ZERO, spinY := ZERO, sink := NO_SINK)
  }

  function AllStopped(balls: seq<Ball>): seq<Ball> {
    seq(|balls|, i requires 0 <= i < |balls| => Stopped(balls[i]))
  }

  predicate ShotTimeoutApplies(s: Snapshot) {
    s.activeShot.Some? && s.status == Moving && s.winner == ""
  }

  function ShotTimeoutOutcome(oracle: Oracle, room: MatchRoom, s: Snapshot, now: int): Snapshot
    requires ShotTimeoutApplies(s)
  {
    var balls := AllStopped(s.balls);
    s.(balls := balls, pockets := oracle.pockets(room.id, s.shotSeq, balls),
       turnUserID := NextTurnUserIDFor(s.activeShot.value.shooter, room), turnSeq := s.turnSeq + 1,
       turnStartedAt := 0, turnDeadlineAt := 0, status := Aiming, activeShot := None,
       auditHash := oracle.auditHash(balls), updatedAt := UpdateTimeAfter(s, now))
  }

  method ApplyShotResultTimeout(oracle: Oracle, room: MatchRoom, current: Snapshot, now: int)
    returns (next: Snapshot, applied: bool)
    ensures applied <==> ShotTimeoutApplies(current)
    ensures applied ==> next == ShotTimeoutOutcome(oracle, room, current, now)
    ensures !applied ==> next == current
  {
    if current.activeShot.None? || current.status != Moving || current.winner != "" {
      return current, false;
    }
    var nextBalls := new Ball[|current.balls|](i requires 0 <= i < |current.balls| => current.balls[i]);
    for i := 0 to nextBalls.Length
      invariant forall k :: 0 <= k < nextBalls.Length ==>
        nextBalls[k] == if k < i then Stopped(current.balls[k]) else current.balls[k]
    {
      nextBalls[i] := nextBalls[i].(vx := ZERO, vy := ZERO, spinX := ZERO, spinY := ZERO, sink := NO_SINK);
    }
    assert nextBalls[..] == AllStopped(current.balls);
    var balls := nextBalls[..];
    next := current.(balls := balls, pockets := oracle.pockets(room.id, current.shotSeq, balls),
      turnUserID := NextTurnUserIDFor(current.activeShot.value.shooter, room),
      turnSeq := current.turnSeq + 1, turnStartedAt := 0, turnDeadlineAt := 0, status := Aiming,
      activeShot := None, auditHash := oracle.auditHash(balls), updatedAt := UpdateTimeAfter(current, now));
    applied := true;
  }

  // ---- A new match

  ghost function InitialSnapshot(oracle: Oracle, room: MatchRoom, now: int): Snapshot {
    var balls := InitialBalls(oracle.ring);
    Snapshot(room.id, balls, oracle.pockets(room.id, 0, balls), Scoreboard(0, 0), room.row.creator, 1, 0, 0,
             0, Aiming, "", oracle.auditHash(balls), now, None)
  }

  method NewInitialMatchSnapshot(oracle: Oracle, room: MatchRoom, now: int) returns (s: Snapshot)
    ensures s == InitialSnapshot(oracle, room, now)
  {
    var balls := InitMatchBalls(oracle.ring);
    s := Snapshot(room.id, balls, oracle.pockets(room.id, 0, balls), Scoreboard(0, 0), room.row.creator, 1, 0, 0,
                  0, Aiming, "", oracle.auditHash(balls), now, None);
  }
}
