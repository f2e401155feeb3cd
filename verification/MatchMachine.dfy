/** A match as a state machine: client events and timer firings at arbitrary clock readings,
    the invariant of every reachable snapshot, and what holds over whole runs
    (match_state.go with the match half of ws_handler.go). */
module MatchMachine {
  import opened Base
  import opened MatchBalls
  import opened MatchRules

  // `now` is whatever the wall clock says; it may go backwards between events.
  datatype Event =
    | Reconcile(now: int)
    | TurnReady(user: string, matchID: string, turnSeq: int, now: int)
    | ShotStarted(user: string, matchID: string, angle: real, power: real, now: int)
    | ShotSubmitted(user: string, result: ShotResult, now: int)

  datatype Kind = Idle | Clocked | Fired | Judged | TurnLost | ShotLost

  datatype Outcome = Outcome(next: Snapshot, kind: Kind)

  // ---- Steps

  predicate ForRoom(matchID: string, room: MatchRoom) {
    matchID == "" || matchID == room.id
  }

  function ReconcileStep(oracle: Oracle, room: MatchRoom, s: Snapshot, now: int): Outcome {
    if s.status == Aiming && s.winner == "" && ClockStarted(s) && TurnExpired(s, now) then
      Outcome(TurnTimeoutOutcome(room, s, now), TurnLost)
    else if s.status == Aiming && s.winner == "" && TurnPrepareDue(s, now) then
      Outcome(StartTurnClock(s, now), Clocked)
    else if ShotResultExpired(s, now) then
      Outcome(ShotTimeoutOutcome(oracle, room, s, now), ShotLost)
    else
      Outcome(s, Idle)
  }

  predicate ReadyAccepted(room: MatchRoom, s: Snapshot, user: string, matchID: string, turnSeq: int) {
    && ForRoom(matchID, room) && turnSeq >= 0
    && s.status == Aiming && s.winner == "" && s.turnUserID == user
    && (turnSeq > 0 ==> turnSeq == s.turnSeq)
  }

  function TurnReadyStep(room: MatchRoom, s: Snapshot, user: string, matchID: string, turnSeq: int, now: int): Outcome {
    if !ReadyAccepted(room, s, user, matchID, turnSeq) || ClockStarted(s) then Outcome(s, Idle)
    else Outcome(StartTurnClock(s, now), Clocked)
  }

  predicate ShotAdmitted(room: MatchRoom, s: Snapshot, user: string, matchID: string, power: real) {
    && ForRoom(matchID, room) && 0.0 < power <= 100.0
    && s.status == Aiming && s.winner == "" && s.turnUserID == user && ClockStarted(s)
  }

  function FireShot(room: MatchRoom, s: Snapshot, user: string, angle: real, power: real, now: int): Snapshot {
    var t := UpdateTimeAfter(s, now);
    s.(shotSeq := s.shotSeq + 1, status := Moving, turnStartedAt := 0, turnDeadlineAt := 0, updatedAt := t,
       activeShot := Some(ActiveShot(room.id, s.shotSeq + 1, user, angle, power, t)))
  }

  function ShotStartedStep(room: MatchRoom, s: Snapshot, user: string, matchID: string, angle: real, power: real,
                           now: int)
    : Outcome
  {
    if !ShotAdmitted(room, s, user, matchID, power) then Outcome(s, Idle)
    else if TurnExpired(s, now) then Outcome(TurnTimeoutOutcome(room, s, now), TurnLost)
    else Outcome(FireShot(room, s, user, angle, power, now), Fired)
  }

  ghost predicate SubmissionAdmitted(room: MatchRoom, s: Snapshot, user: string, result: ShotResult) {
    && result.shotSeq >= 0 && ForRoom(result.matchID, room)
    && s.activeShot.Some? && s.activeShot.value.shooter == user
    && ResultAccepted(s, result)
  }

  ghost function ShotSubmittedStep(oracle: Oracle, room: MatchRoom, s: Snapshot, user: string, result: ShotResult,
                                   now: int)
    : Outcome
  {
    if SubmissionAdmitted(room, s, user, result) then Outcome(ShotOutcome(oracle, room, s, result, now), Judged)
    else Outcome(s, Idle)
  }

  ghost function Step(oracle: Oracle, room: MatchRoom, s: Snapshot, e: Event): Outcome {
    match e
    case Reconcile(now) => ReconcileStep(oracle, room, s, now)
    case TurnReady(user, matchID, turnSeq, now) => TurnReadyStep(room, s, user, matchID, turnSeq, now)
    case ShotStarted(user, matchID, angle, power, now) => ShotStartedStep(room, s, user, matchID, angle, power, now)
    case ShotSubmitted(user, result, now) => ShotSubmittedStep(oracle, room, s, user, result, now)
  }

  // ---- The invariant of a reachable snapshot

  predicate ProperRoom(room: MatchRoom) {
    && room.row.creator != "" && room.row.opponent.Some? && room.row.opponent.value != ""
    && room.row.opponent.value != room.row.creator
  }

  predicate Player(room: MatchRoom, user: string) {
    user == room.row.creator || room.row.opponent == Some(user)
  }

  // The black is down, or one colour is off the table.
  predicate Decided(sunk: set<int>) {
    8 in sunk || IdsOf(CreatorSide) <= sunk || IdsOf(OpponentSide) <= sunk
  }

  // Who wins a decided table: sinking the black loses; otherwise the colour that is off the
  // table wins, and if both left in one shot the shooter does.
  function Verdict(room: MatchRoom, sunk: set<int>, shooter: string): string {
    if 8 in sunk then OpponentUserIDFor(shooter, room)
    else if IdsOf(CreatorSide) <= sunk && IdsOf(OpponentSide) <= sunk then shooter
    else if IdsOf(CreatorSide) <= sunk then room.row.creator
    else OpponentUserIDFor(room.row.creator, room)
  }

  ghost function ScoreOf(sunk: set<int>): Scoreboard {
    Scoreboard(10 * |sunk * IdsOf(CreatorSide)|, 10 * |sunk * IdsOf(OpponentSide)|)
  }

  ghost predicate ScoreInv(room: MatchRoom, s: Snapshot) {
    var sunk := SunkTargets(s.balls);
    && Table(s.balls)
    && s.scores == ScoreOf(sunk)
    && (s.winner != "" <==> s.status.Finished?)
    && (s.status.Finished? <==> Decided(sunk))
    && (s.status.Finished? ==> s.winner == Verdict(room, sunk, s.turnUserID))
  }

  predicate TurnInv(room: MatchRoom, s: Snapshot) {
    && (s.status.Aiming? || s.status.Moving? || s.status.Finished?)
    && Player(room, s.turnUserID)
    && s.turnSeq >= 1 && s.shotSeq >= 0
    && (s.status.Moving? <==> s.activeShot.Some?)
    && (s.status.Moving? ==>
          var shot := s.activeShot.value;
          shot.shooter == s.turnUserID && shot.shotSeq == s.shotSeq >= 1 &&
          shot.startedAt == s.updatedAt && shot.matchID == room.id)
  }

  // A running clock stops TURN_DURATION after it started, and it started when the snapshot was written.
  predicate ClockInv(s: Snapshot) {
    && s.updatedAt > 0
    && (if s.turnStartedAt == 0 then s.turnDeadlineAt == 0
        else s.status.Aiming? && s.turnStartedAt == s.updatedAt && s.turnDeadlineAt == s.turnStartedAt + TURN_DURATION)
  }

  // The part of the invariant that does not look at the table.
  predicate PhasesInv(room: MatchRoom, s: Snapshot) {
    TurnInv(room, s) && ClockInv(s) && (s.winner != "" <==> s.status.Finished?)
  }

  ghost predicate Inv(oracle: Oracle, room: MatchRoom, s: Snapshot) {
    && ProperRoom(room) && s.matchID == room.id && s.auditHash == oracle.auditHash(s.balls)
    && ScoreInv(room, s) && TurnInv(room, s) && ClockInv(s)
  }

  lemma InitialInv(oracle: Oracle, room: MatchRoom, now: int)
    requires ProperRoom(room) && now > 0
    ensures Inv(oracle, room, InitialSnapshot(oracle, room, now))
  {
    InitialBallsAreATable(oracle.ring);
    assert 1 in IdsOf(CreatorSide) && 9 in IdsOf(OpponentSide);
  }

  // Reading a reachable snapshot back through the clock repair does not alter it.
  lemma NormalizeIsIdentity(oracle: Oracle, room: MatchRoom, s: Snapshot, now: int)
    requires Inv(oracle, room, s)
    ensures NormalizeTurnClock(s, now) == s
  {
  }

  // ---- Scoring

  lemma ClearedIsCovered(balls: seq<Ball>, side: Side)
    requires Table(balls) && (side.CreatorSide? || side.OpponentSide?)
    ensures Cleared(balls, side) <==> IdsOf(side) <= SunkTargets(balls)
  {
    BallWithId(balls, 0);
    if Cleared(balls, side) {
      forall id | id in IdsOf(side) ensures id in SunkTargets(balls) {
        BallWithId(balls, id);
        var i :| 0 <= i < 16 && balls[i].id == id;
        assert balls[i] in balls && balls[i] == Normalized(balls[i]);
      }
    }
    if IdsOf(side) <= SunkTargets(balls) {
      forall b | b in balls && b.owner == side ensures b.sunk {
        assert b == Normalized(b);
        assert b.id in IdsOf(side);
      }
    }
  }

  lemma BlackIsNeutral(balls: seq<Ball>)
    requires Table(balls)
    ensures (exists b :: b in balls && b.owner == NeutralSide && b.sunk) <==> 8 in SunkTargets(balls)
  {
    BallWithId(balls, 8);
    if b :| b in balls && b.owner == NeutralSide && b.sunk {
      assert b == Normalized(b);
    }
    if 8 in SunkTargets(balls) {
      var b :| b in balls && !b.isWhite && b.sunk && b.id == 8;
      assert b == Normalized(b);
    }
  }

  lemma SevenEach()
    ensures |IdsOf(CreatorSide)| == 7 && |IdsOf(OpponentSide)| == 7
  {
    assert IdsOf(CreatorSide) == {1, 2, 3, 4, 5, 6, 7};
    assert IdsOf(OpponentSide) == {9, 10, 11, 12, 13, 14, 15};
  }

  lemma PointsAddUp(before: set<int>, after: set<int>)
    requires before <= after
    ensures AddPoints(ScoreOf(before), after - before) == ScoreOf(after)
  {
    assert after * IdsOf(CreatorSide) == before * IdsOf(CreatorSide) + (after - before) * IdsOf(CreatorSide);
    assert after * IdsOf(OpponentSide) == before * IdsOf(OpponentSide) + (after - before) * IdsOf(OpponentSide);
  }

  // With the black spared, the winning role is read off the sunk balls.
  lemma RoleOnATable(balls: seq<Ball>, shooter: Side)
    requires Table(balls) && 8 !in SunkTargets(balls)
    ensures var sunk := SunkTargets(balls);
      WinnerRole(balls, ScoreOf(sunk), shooter) ==
        if IdsOf(CreatorSide) <= sunk then (if IdsOf(OpponentSide) <= sunk then shooter else CreatorSide)
        else if IdsOf(OpponentSide) <= sunk then OpponentSide
        else NoSide
  {
    var sunk := SunkTargets(balls);
    ClearedIsCovered(balls, CreatorSide);
    ClearedIsCovered(balls, OpponentSide);
    BlackIsNeutral(balls);
    if IdsOf(CreatorSide) <= sunk && IdsOf(OpponentSide) <= sunk {
      BothScoresAreFull(sunk);
    }
  }

  lemma BothScoresAreFull(sunk: set<int>)
    requires IdsOf(CreatorSide) <= sunk && IdsOf(OpponentSide) <= sunk
    ensures ScoreOf(sunk) == Scoreboard(70, 70)
  {
    SevenEach();
    assert sunk * IdsOf(CreatorSide) == IdsOf(CreatorSide);
    assert sunk * IdsOf(OpponentSide) == IdsOf(OpponentSide);
  }

  // The server's winner computation is the verdict on the table, and silent on an undecided one.
  lemma WinnerIsVerdict(room: MatchRoom, balls: seq<Ball>, before: set<int>, shooter: string)
    requires ProperRoom(room) && Player(room, shooter) && Table(balls)
    requires before <= SunkTargets(balls) && 8 !in before
    ensures var sunk := SunkTargets(balls);
      WinnerOf(room, balls, sunk - before, ScoreOf(sunk), shooter) ==
        if Decided(sunk) then Verdict(room, sunk, shooter) else ""
  {
    if 8 !in SunkTargets(balls) {
      RoleOnATable(balls, RoleOf(shooter, room));
    }
  }

  lemma VerdictIsAPlayer(room: MatchRoom, sunk: set<int>, shooter: string)
    requires ProperRoom(room) && Player(room, shooter)
    ensures Player(room, Verdict(room, sunk, shooter)) && Verdict(room, sunk, shooter) != ""
  {
  }

  lemma JudgedScoreInv(oracle: Oracle, room: MatchRoom, s: Snapshot, result: ShotResult, now: int)
    requires Inv(oracle, room, s) && ResultAccepted(s, result)
    ensures ScoreInv(room, ShotOutcome(oracle, room, s, result, now))
    ensures SunkTargets(s.balls) <= SunkTargets(ShotOutcome(oracle, room, s, result, now).balls)
  {
    SanitizedShape(result.balls);
    var balls := Sanitized(result.balls);
    var before, after := SunkTargets(s.balls), SunkTargets(balls);
    KeepsSunkOnTables(s.balls, balls);
    PointsAddUp(before, after);
    WinnerIsVerdict(room, balls, before, s.turnUserID);
    if Decided(after) {
      VerdictIsAPlayer(room, after, s.turnUserID);
    }
  }

  lemma JudgedInv(oracle: Oracle, room: MatchRoom, s: Snapshot, result: ShotResult, now: int)
    requires Inv(oracle, room, s) && ResultAccepted(s, result)
    ensures Inv(oracle, room, ShotOutcome(oracle, room, s, result, now))
  {
    JudgedScoreInv(oracle, room, s, result, now);
  }

  // A reachable table is already at rest, so a lost shot leaves it exactly as it was.
  lemma StoppedTableIsItself(balls: seq<Ball>)
    requires Table(balls)
    ensures AllStopped(balls) == balls
  {
    forall i | 0 <= i < 16 ensures Stopped(balls[i]) == balls[i] {
      assert balls[i] in balls && balls[i] == Normalized(balls[i]);
    }
  }

  lemma ClockKeepsInv(oracle: Oracle, room: MatchRoom, s: Snapshot, now: int)
    requires Inv(oracle, room, s) && s.status.Aiming?
    ensures Inv(oracle, room, StartTurnClock(s, now))
  {
  }

  lemma TurnTimeoutKeepsInv(oracle: Oracle, room: MatchRoom, s: Snapshot, now: int)
    requires Inv(oracle, room, s) && s.status.Aiming?
    ensures Inv(oracle, room, TurnTimeoutOutcome(room, s, now))
  {
  }

  lemma ShotTimeoutKeepsInv(oracle: Oracle, room: MatchRoom, s: Snapshot, now: int)
    requires Inv(oracle, room, s) && ShotTimeoutApplies(s)
    ensures Inv(oracle, room, ShotTimeoutOutcome(oracle, room, s, now))
  {
    StoppedTableIsItself(s.balls);
  }

  lemma FireKeepsInv(oracle: Oracle, room: MatchRoom, s: Snapshot, angle: real, power: real, now: int)
    requires Inv(oracle, room, s) && s.status.Aiming?
    ensures Inv(oracle, room, FireShot(room, s, s.turnUserID, angle, power, now))
  {
  }

  lemma ReconcileKeepsInv(oracle: Oracle, room: MatchRoom, s: Snapshot, now: int)
    requires Inv(oracle, room, s)
    ensures Inv(oracle, room, ReconcileStep(oracle, room, s, now).next)
  {
    var kind := ReconcileStep(oracle, room, s, now).kind;
    if kind.TurnLost? {
      TurnTimeoutKeepsInv(oracle, room, s, now);
    } else if kind.Clocked? {
      ClockKeepsInv(oracle, room, s, now);
    } else if kind.ShotLost? {
      ShotTimeoutKeepsInv(oracle, room, s, now);
    }
  }

  lemma TurnReadyKeepsInv(oracle: Oracle, room: MatchRoom, s: Snapshot, user: string, matchID: string, turnSeq: int,
                          now: int)
    requires Inv(oracle, room, s)
    ensures Inv(oracle, room, TurnReadyStep(room, s, user, matchID, turnSeq, now).next)
  {
    if s.status.Aiming? { ClockKeepsInv(oracle, room, s, now); }
  }

  lemma ShotStartedKeepsInv(oracle: Oracle, room: MatchRoom, s: Snapshot, user: string, matchID: string, angle: real,
                            power: real, now: int)
    requires Inv(oracle, room, s)
    ensures Inv(oracle, room, ShotStartedStep(room, s, user, matchID, angle, power, now).next)
  {
    if s.status.Aiming? {
      TurnTimeoutKeepsInv(oracle, room, s, now);
      FireKeepsInv(oracle, room, s, angle, power, now);
    }
  }

  lemma StepKeepsInv(oracle: Oracle, room: MatchRoom, s: Snapshot, e: Event)
    requires Inv(oracle, room, s)
    ensures Inv(oracle, room, Step(oracle, room, s, e).next)
  {
    match e
    case Reconcile(now) => ReconcileKeepsInv(oracle, room, s, now);
    case TurnReady(user, matchID, turnSeq, now) => TurnReadyKeepsInv(oracle, room, s, user, matchID, turnSeq, now);
    case ShotStarted(user, matchID, angle, power, now) =>
      ShotStartedKeepsInv(oracle, room, s, user, matchID, angle, power, now);
    case ShotSubmitted(user, result, now) =>
      if SubmissionAdmitted(room, s, user, result) { JudgedInv(oracle, room, s, result, now); }
  }

  // ---- Runs

  ghost function Run(oracle: Oracle, room: MatchRoom, s: Snapshot, events: seq<Event>): Snapshot {
    if events == [] then s
    else Step(oracle, room, Run(oracle, room, s, events[..|events| - 1]), events[|events| - 1]).next
  }

  lemma RunStep(oracle: Oracle, room: MatchRoom, s: Snapshot, events: seq<Event>, k: nat)
    requires k < |events|
    ensures Run(oracle, room, s, events[..k + 1]) ==
      Step(oracle, room, Run(oracle, room, s, events[..k]), events[k]).next
  {
    assert events[..k + 1][..k] == events[..k];
  }

  lemma {:induction false} RunSplits(oracle: Oracle, room: MatchRoom, s: Snapshot, events: seq<Event>, k: nat)
    requires k <= |events|
    ensures Run(oracle, room, s, events) == Run(oracle, room, Run(oracle, room, s, events[..k]), events[k..])
  {
    if k == |events| {
      assert events[..k] == events;
    } else {
      var n := |events| - 1;
      RunSplits(oracle, room, s, events[..n], k);
      SplitsAlike(events, k);
      LastStep(oracle, room, s, events);
      LastStep(oracle, room, Run(oracle, room, s, events[..k]), events[k..]);
    }
  }

  lemma SplitsAlike(events: seq<Event>, k: nat)
    requires k < |events|
    ensures var n := |events| - 1;
      events[..n][..k] == events[..k] && events[..n][k..] == events[k..][..|events[k..]| - 1] &&
      events[k..][|events[k..]| - 1] == events[n]
  {
  }

  lemma LastStep(oracle: Oracle, room: MatchRoom, s: Snapshot, events: seq<Event>)
    requires events != []
    ensures var n := |events| - 1;
      Run(oracle, room, s, events) == Step(oracle, room, Run(oracle, room, s, events[..n]), events[n]).next
  {
  }

  lemma {:induction false} RunKeepsInv(oracle: Oracle, room: MatchRoom, s: Snapshot, events: seq<Event>)
    requires Inv(oracle, room, s)
    ensures Inv(oracle, room, Run(oracle, room, s, events))
  {
    if events != [] {
      RunKeepsInv(oracle, room, s, events[..|events| - 1]);
      StepKeepsInv(oracle, room, Run(oracle, room, s, events[..|events| - 1]), events[|events| - 1]);
    }
  }

  // A snapshot some run of the room's match leads to.
  ghost predicate Reachable(oracle: Oracle, room: MatchRoom, s: Snapshot) {
    exists now: int, events: seq<Event> :: ReachedBy(oracle, room, s, now, events)
  }

  ghost predicate ReachedBy(oracle: Oracle, room: MatchRoom, s: Snapshot, now: int, events: seq<Event>) {
    ProperRoom(room) && now > 0 && s == Run(oracle, room, InitialSnapshot(oracle, room, now), events)
  }

  lemma ReachableInv(oracle: Oracle, room: MatchRoom, s: Snapshot)
    requires Reachable(oracle, room, s)
    ensures Inv(oracle, room, s)
  {
    var now: int, events: seq<Event> :| ReachedBy(oracle, room, s, now, events);
    InitialInv(oracle, room, now);
    RunKeepsInv(oracle, room, InitialSnapshot(oracle, room, now), events);
  }

  lemma InitialReachable(oracle: Oracle, room: MatchRoom, now: int)
    requires ProperRoom(room) && now > 0
    ensures Reachable(oracle, room, InitialSnapshot(oracle, room, now))
  {
    assert ReachedBy(oracle, room, InitialSnapshot(oracle, room, now), now, []);
  }

  lemma StepReachable(oracle: Oracle, room: MatchRoom, s: Snapshot, e: Event)
    requires Reachable(oracle, room, s)
    ensures Reachable(oracle, room, Step(oracle, room, s, e).next)
  {
    var now: int, events: seq<Event> :| ReachedBy(oracle, room, s, now, events);
    RunStep(oracle, room, InitialSnapshot(oracle, room, now), events + [e], |events|);
    assert (events + [e])[..|events|] == events && (events + [e])[..|events| + 1] == events + [e];
    assert ReachedBy(oracle, room, Step(oracle, room, s, e).next, now, events + [e]);
  }

  // ---- What single steps do

  // Finished is absorbing; every other kind of step moves between the phases it should.
  lemma StepPhases(oracle: Oracle, room: MatchRoom, s: Snapshot, e: Event)
    requires PhasesInv(room, s)
    ensures var o := Step(oracle, room, s, e);
      && (o.kind.Idle? ==> o.next == s)
      && (s.status.Finished? ==> o.kind.Idle?)
      && (o.kind.Clocked? ==> s.status.Aiming? && !ClockStarted(s) && o.next.status.Aiming? && ClockStarted(o.next))
      && (o.kind.Fired? ==> s.status.Aiming? && ClockStarted(s) && o.next.status.Moving?)
      && (o.kind.TurnLost? ==> s.status.Aiming? && ClockStarted(s) && o.next.status.Aiming? && !ClockStarted(o.next))
      && (o.kind.ShotLost? ==> s.status.Moving? && o.next.status.Aiming? && !ClockStarted(o.next))
      && (o.kind.Judged? ==> s.status.Moving? && !o.next.status.Moving? && !ClockStarted(o.next))
  {
  }

  // Everything but turn and clock as it was; a timeout hands the turn over.
  predicate TableKept(room: MatchRoom, s: Snapshot, o: Outcome) {
    && o.next.balls == s.balls && o.next.scores == s.scores && o.next.winner == s.winner
    && o.next.auditHash == s.auditHash
    && o.next.turnUserID ==
         if o.kind.TurnLost? || o.kind.ShotLost? then OpponentUserIDFor(s.turnUserID, room) else s.turnUserID
  }

  lemma ReconcileKeepsTable(oracle: Oracle, room: MatchRoom, s: Snapshot, now: int)
    requires Inv(oracle, room, s)
    ensures TableKept(room, s, ReconcileStep(oracle, room, s, now))
  {
    StoppedTableIsItself(s.balls);
  }

  lemma ClientStepKeepsTable(oracle: Oracle, room: MatchRoom, s: Snapshot, e: Event)
    requires Inv(oracle, room, s) && (e.TurnReady? || e.ShotStarted?)
    ensures TableKept(room, s, Step(oracle, room, s, e))
  {
  }

  // Timeouts leave table and score alone; nothing but a judged shot touches the table.
  lemma OnlyJudgedShotsTouchTheTable(oracle: Oracle, room: MatchRoom, s: Snapshot, e: Event)
    requires Inv(oracle, room, s) && !Step(oracle, room, s, e).kind.Judged?
    ensures TableKept(room, s, Step(oracle, room, s, e))
  {
    if e.Reconcile? {
      ReconcileKeepsTable(oracle, room, s, e.now);
    } else if !e.ShotSubmitted? {
      ClientStepKeepsTable(oracle, room, s, e);
    }
  }

  // A judged shot keeps the turn exactly when the shooter put down a ball of their own colour
  // without losing the cue ball, or when it ended the match.
  lemma JudgedTurnOrder(oracle: Oracle, room: MatchRoom, s: Snapshot, user: string, result: ShotResult, now: int)
    requires Inv(oracle, room, s) && SubmissionAdmitted(room, s, user, result)
    ensures var next := ShotOutcome(oracle, room, s, result, now);
      var downed := SunkTargets(next.balls) - SunkTargets(s.balls);
      && user == s.turnUserID
      && (next.turnUserID == user <==>
            next.status.Finished? || (!result.cueBallSunk && downed * IdsOf(RoleOf(user, room)) != {}))
      && (next.turnUserID != user ==> next.turnUserID == OpponentUserIDFor(user, room))
  {
  }

  // A shot in the air can always be answered: its shooter may submit the table as it was before,
  // and that passes the turn on with the score as it stood.
  lemma EveryShotCanBeAnswered(oracle: Oracle, room: MatchRoom, s: Snapshot, now: int)
    requires Inv(oracle, room, s) && s.status.Moving?
    ensures var result := ShotResult(room.id, s.shotSeq, s.turnUserID, s.balls, false);
      && SubmissionAdmitted(room, s, s.turnUserID, result)
      && var next := ShotOutcome(oracle, room, s, result, now);
      next.scores == s.scores && next.status.Aiming? && next.turnUserID == OpponentUserIDFor(s.turnUserID, room)
  {
    var result := ShotResult(room.id, s.shotSeq, s.turnUserID, s.balls, false);
    SameTableIsAccepted(s.balls);
    var next := ShotOutcome(oracle, room, s, result, now);
    JudgedScoreInv(oracle, room, s, result, now);
    JudgedTurnOrder(oracle, room, s, s.turnUserID, result, now);
  }

  lemma SameTableIsAccepted(balls: seq<Ball>)
    requires Table(balls)
    ensures Acceptable(balls) && SunkTargets(Sanitized(balls)) == SunkTargets(balls)
    ensures forall b :: b in balls && !b.isWhite && b.sunk ==> KeepsSunk(Sanitized(balls), b)
  {
    SanitizedShape(balls);
    var t := Sanitized(balls);
    forall b | b in balls ensures b in t {
      BallWithId(balls, 0);
      assert t[b.id] == b;
    }
    KeepsSunkOnTables(balls, t);
    KeepsSunkOnTables(t, balls);
  }

  lemma BothColours()
    ensures var sunk := IdsOf(CreatorSide) + IdsOf(OpponentSide);
      8 !in sunk && ScoreOf(sunk) == Scoreboard(70, 70)
  {
    BothScoresAreFull(IdsOf(CreatorSide) + IdsOf(OpponentSide));
  }

  // Both colours down and the black spared: 70 to 70, and the last shooter has won. (A finished
  // snapshot's turn holder is the one who shot last: JudgedTurnOrder.)
  lemma BothColoursDown(oracle: Oracle, room: MatchRoom, s: Snapshot)
    requires Inv(oracle, room, s) && SunkTargets(s.balls) == IdsOf(CreatorSide) + IdsOf(OpponentSide)
    ensures s.status.Finished? && s.scores == Scoreboard(70, 70) && s.winner == s.turnUserID
  {
    BothColours();
  }

  // However the wall clock behaves, a shot is stamped strictly inside its turn.
  lemma ShotsAreStampedInsideTheTurn(oracle: Oracle, room: MatchRoom, s: Snapshot, e: Event)
    requires Inv(oracle, room, s) && Step(oracle, room, s, e).kind.Fired?
    ensures s.turnStartedAt < Step(oracle, room, s, e).next.activeShot.value.startedAt < s.turnDeadlineAt
  {
  }

  // ---- What whole runs do

  ghost function Count(oracle: Oracle, room: MatchRoom, s: Snapshot, events: seq<Event>, kind: Kind): nat {
    if events == [] then 0
    else
      var n := |events| - 1;
      Count(oracle, room, s, events[..n], kind) +
      (if Step(oracle, room, Run(oracle, room, s, events[..n]), events[n]).kind == kind then 1 else 0)
  }

  // Turns that are over: all but the one being played.
  function TurnsOver(s: Snapshot): int {
    if s.status.Aiming? then s.turnSeq - 1 else s.turnSeq
  }

  // How one step moves the counters.
  lemma StepCounters(oracle: Oracle, room: MatchRoom, s: Snapshot, e: Event)
    requires PhasesInv(room, s)
    ensures var o := Step(oracle, room, s, e);
      && o.next.shotSeq == s.shotSeq + (if o.kind == Fired then 1 else 0)
      && TurnsOver(o.next) == TurnsOver(s) + (if o.kind == Fired || o.kind == TurnLost then 1 else 0)
  {
  }

  // The turn number counts turns that are over: one per shot and one per turn timeout.
  lemma {:induction false} TurnAccounting(oracle: Oracle, room: MatchRoom, s: Snapshot, events: seq<Event>)
    requires Inv(oracle, room, s)
    ensures var t := Run(oracle, room, s, events);
      && t.shotSeq == s.shotSeq + Count(oracle, room, s, events, Fired)
      && TurnsOver(t) == TurnsOver(s) + Count(oracle, room, s, events, Fired) + Count(oracle, room, s, events, TurnLost)
  {
    if events != [] {
      var n := |events| - 1;
      TurnAccounting(oracle, room, s, events[..n]);
      RunKeepsInv(oracle, room, s, events[..n]);
      StepCounters(oracle, room, Run(oracle, room, s, events[..n]), events[n]);
    }
  }

  // The numbers of the shots that were resolved, by result or by timeout, in order.
  ghost function Resolved(oracle: Oracle, room: MatchRoom, s: Snapshot, events: seq<Event>): seq<int> {
    if events == [] then []
    else
      var n := |events| - 1;
      var before := Run(oracle, room, s, events[..n]);
      var kind := Step(oracle, room, before, events[n]).kind;
      Resolved(oracle, room, s, events[..n]) + (if kind == Judged || kind == ShotLost then [before.shotSeq] else [])
  }

  // Shots that are no longer in the air.
  function ShotsDone(s: Snapshot): int {
    if s.status.Moving? then s.shotSeq - 1 else s.shotSeq
  }

  lemma StepResolves(oracle: Oracle, room: MatchRoom, s: Snapshot, e: Event)
    requires PhasesInv(room, s)
    ensures var o := Step(oracle, room, s, e);
      if o.kind == Judged || o.kind == ShotLost then ShotsDone(o.next) == ShotsDone(s) + 1 == s.shotSeq
      else ShotsDone(o.next) == ShotsDone(s)
  {
  }

  lemma OneMoreStepResolves(oracle: Oracle, room: MatchRoom, s: Snapshot, events: seq<Event>)
    requires events != [] && Inv(oracle, room, Run(oracle, room, s, events[..|events| - 1]))
    ensures var before := ShotsDone(Run(oracle, room, s, events[..|events| - 1]));
      var after := ShotsDone(Run(oracle, room, s, events));
      var earlier := Resolved(oracle, room, s, events[..|events| - 1]);
      || (after == before && Resolved(oracle, room, s, events) == earlier)
      || (after == before + 1 && Resolved(oracle, room, s, events) == earlier + [after])
  {
    var n := |events| - 1;
    StepResolves(oracle, room, Run(oracle, room, s, events[..n]), events[n]);
  }

  // Each shot is resolved once, in order: the shots resolved since s carry the next numbers,
  // none twice and none skipped, save one still in the air.
  lemma {:induction false} EveryShotResolvedOnce(oracle: Oracle, room: MatchRoom, s: Snapshot, events: seq<Event>)
    requires Inv(oracle, room, s)
    ensures var done := Resolved(oracle, room, s, events);
      && |done| == ShotsDone(Run(oracle, room, s, events)) - ShotsDone(s)
      && forall i :: 0 <= i < |done| ==> done[i] == ShotsDone(s) + 1 + i
  {
    if events != [] {
      var n := |events| - 1;
      EveryShotResolvedOnce(oracle, room, s, events[..n]);
      RunKeepsInv(oracle, room, s, events[..n]);
      OneMoreStepResolves(oracle, room, s, events);
    }
  }

  lemma StepKeepsSunk(oracle: Oracle, room: MatchRoom, s: Snapshot, e: Event)
    requires Inv(oracle, room, s)
    ensures SunkTargets(s.balls) <= SunkTargets(Step(oracle, room, s, e).next.balls)
  {
    if Step(oracle, room, s, e).kind.Judged? {
      JudgedScoreInv(oracle, room, s, e.result, e.now);
    } else {
      OnlyJudgedShotsTouchTheTable(oracle, room, s, e);
    }
  }

  // Balls stay down.
  lemma {:induction false} SunkTargetsNeverShrink(oracle: Oracle, room: MatchRoom, s: Snapshot, events: seq<Event>)
    requires Inv(oracle, room, s)
    ensures SunkTargets(s.balls) <= SunkTargets(Run(oracle, room, s, events).balls)
  {
    if events != [] {
      var n := |events| - 1;
      var before := Run(oracle, room, s, events[..n]);
      SunkTargetsNeverShrink(oracle, room, s, events[..n]);
      RunKeepsInv(oracle, room, s, events[..n]);
      StepKeepsSunk(oracle, room, before, events[n]);
    }
  }

  // Relative to a snapshot s whose clock runs: the same turn with this clock or, past aiming,
  // with none, or a later turn.
  predicate KeepsClock(s: Snapshot, t: Snapshot) {
    || t.turnSeq > s.turnSeq
    || (t.turnSeq == s.turnSeq && t.turnStartedAt == s.turnStartedAt && t.turnDeadlineAt == s.turnDeadlineAt)
    || (t.turnSeq == s.turnSeq && !t.status.Aiming?)
  }

  lemma StepKeepsClock(oracle: Oracle, room: MatchRoom, s: Snapshot, t: Snapshot, e: Event)
    requires PhasesInv(room, t) && ClockStarted(s) && KeepsClock(s, t)
    ensures KeepsClock(s, Step(oracle, room, t, e).next)
    ensures Step(oracle, room, t, e).kind.Clocked? ==> t.turnSeq > s.turnSeq
  {
  }

  // Within one turn the deadline is set at most once: whatever happens after it is set, the turn
  // keeps it, leaves aiming for good, or is over, and no clock is started before it is over.
  lemma {:induction false} ClockIsSetOnce(oracle: Oracle, room: MatchRoom, s: Snapshot, events: seq<Event>, e: Event)
    requires Inv(oracle, room, s) && ClockStarted(s)
    ensures var t := Run(oracle, room, s, events);
      KeepsClock(s, t) && (Step(oracle, room, t, e).kind.Clocked? ==> t.turnSeq > s.turnSeq)
  {
    if events != [] {
      var n := |events| - 1;
      ClockIsSetOnce(oracle, room, s, events[..n], events[n]);
      RunKeepsInv(oracle, room, s, events[..n]);
      StepKeepsClock(oracle, room, s, Run(oracle, room, s, events[..n]), events[n]);
    }
    RunKeepsInv(oracle, room, s, events);
    StepKeepsClock(oracle, room, s, Run(oracle, room, s, events), e);
  }

  // ---- Reconciliation

  // When a snapshot has waited long enough for the server to act on its own: fifteen seconds for
  // a result, twenty in a turn, one and a half before its clock starts.
  function DueAt(s: Snapshot): int
    requires s.status.Moving? ==> s.activeShot.Some?
  {
    if s.status.Moving? then s.activeShot.value.startedAt + 15_000
    else if s.turnStartedAt > 0 then s.turnStartedAt + 20_000
    else s.updatedAt + 1_500
  }

  // Reconciling acts exactly when due, which is never later than one turn after the snapshot
  // was written, and doing it twice at the same reading is doing it once.
  lemma ReconcileActsExactlyWhenDue(oracle: Oracle, room: MatchRoom, s: Snapshot, now: int)
    requires Inv(oracle, room, s)
    ensures var o := ReconcileStep(oracle, room, s, now);
      && (o.next != s <==> !s.status.Finished? && now >= DueAt(s))
      && (o.next == s <==> o.kind.Idle?)
      && DueAt(s) <= s.updatedAt + 20_000
      && ReconcileStep(oracle, room, o.next, now) == Outcome(o.next, Idle)
  {
  }
}
