/** What becomes of a result that arrives twice, after its shot was lost, or in the next match
    (match_state.go: applyShotResult; ws_handler.go: shot_result_submitted): within its match it is
    judged again, or after all, exactly when its sender has the next shot in the air. */
module LateResults {
  import opened MatchBalls
  import opened MatchRules
  import opened MatchMachine

  // Since shot `seqNo` left this table behind: the shot is over, and while the next one is in the
  // air the table has not changed.
  predicate SinceResult(t: Snapshot, seqNo: int, balls: seq<Ball>) {
    && t.shotSeq >= seqNo
    && (t.shotSeq == seqNo ==> !t.status.Moving? && t.balls == balls)
    && (t.shotSeq == seqNo + 1 && t.status.Moving? ==> t.balls == balls)
  }

  lemma StepKeepsSinceResult(oracle: Oracle, room: MatchRoom, t: Snapshot, e: Event, seqNo: int, balls: seq<Ball>)
    requires Inv(oracle, room, t) && SinceResult(t, seqNo, balls)
    ensures SinceResult(Step(oracle, room, t, e).next, seqNo, balls)
  {
    StepPhases(oracle, room, t, e);
    StepCounters(oracle, room, t, e);
    if !Step(oracle, room, t, e).kind.Judged? {
      OnlyJudgedShotsTouchTheTable(oracle, room, t, e);
    }
  }

  lemma {:induction false} RunKeepsSinceResult(oracle: Oracle, room: MatchRoom, t: Snapshot, events: seq<Event>,
                                               seqNo: int, balls: seq<Ball>)
    requires Inv(oracle, room, t) && SinceResult(t, seqNo, balls)
    ensures SinceResult(Run(oracle, room, t, events), seqNo, balls)
  {
    if events != [] {
      var n := |events| - 1;
      RunKeepsSinceResult(oracle, room, t, events[..n], seqNo, balls);
      RunKeepsInv(oracle, room, t, events[..n]);
      StepKeepsSinceResult(oracle, room, Run(oracle, room, t, events[..n]), events[n], seqNo, balls);
    }
  }

  // The submitted table is accepted again wherever it still is the table.
  lemma SameTableIsTakenAgain(s: seq<Ball>)
    requires Acceptable(s)
    ensures forall b :: b in Sanitized(s) && !b.isWhite && b.sunk ==> KeepsSunk(Sanitized(s), b)
  {
    SanitizedShape(s);
    KeepsSunkOnTables(Sanitized(s), Sanitized(s));
  }

  lemma TakenAgainExactlyWhen(oracle: Oracle, room: MatchRoom, t: Snapshot, user: string, r: ShotResult, seqNo: int)
    requires TurnInv(room, t) && Acceptable(r.balls) && SinceResult(t, seqNo, Sanitized(r.balls))
    requires ForRoom(r.matchID, room) && 0 <= r.shotSeq && seqNo - 1 <= r.shotSeq <= seqNo
    requires r.shooter == "" || r.shooter == user
    ensures SubmissionAdmitted(room, t, user, r) <==>
      t.status.Moving? && t.shotSeq == r.shotSeq + 1 && t.turnUserID == user
  {
    SameTableIsTakenAgain(r.balls);
  }

  // The result r has been accepted and events have followed. The same message is accepted a
  // second time exactly while its sender has the very next shot in the air.
  lemma DuplicateIsAcceptedExactlyWhen(oracle: Oracle, room: MatchRoom, s: Snapshot, user: string, r: ShotResult,
                                       now: int, events: seq<Event>)
    requires Inv(oracle, room, s) && SubmissionAdmitted(room, s, user, r)
    ensures var t := Run(oracle, room, ShotOutcome(oracle, room, s, r, now), events);
      SubmissionAdmitted(room, t, user, r) <==>
        t.status.Moving? && t.shotSeq == r.shotSeq + 1 && t.turnUserID == user
  {
    AfterAResult(oracle, room, s, user, r, now, events);
    var t := Run(oracle, room, ShotOutcome(oracle, room, s, r, now), events);
    TakenAgainExactlyWhen(oracle, room, t, user, r, s.shotSeq);
  }

  lemma AfterAResult(oracle: Oracle, room: MatchRoom, s: Snapshot, user: string, r: ShotResult, now: int,
                     events: seq<Event>)
    requires Inv(oracle, room, s) && SubmissionAdmitted(room, s, user, r)
    ensures var t := Run(oracle, room, ShotOutcome(oracle, room, s, r, now), events);
      Inv(oracle, room, t) && SinceResult(t, s.shotSeq, Sanitized(r.balls))
  {
    var s1 := ShotOutcome(oracle, room, s, r, now);
    JudgedInv(oracle, room, s, r, now);
    RunKeepsInv(oracle, room, s1, events);
    RunKeepsSinceResult(oracle, room, s1, events, s.shotSeq, s1.balls);
  }

  // That second judgement scores nothing and takes the turn from its sender.
  lemma DuplicateCostsTheNextShot(oracle: Oracle, room: MatchRoom, t: Snapshot, user: string, r: ShotResult, now: int)
    requires Inv(oracle, room, t) && SubmissionAdmitted(room, t, user, r) && t.balls == Sanitized(r.balls)
    ensures var next := ShotOutcome(oracle, room, t, r, now);
      && next.balls == t.balls && next.scores == t.scores && next.status.Aiming?
      && next.turnUserID == OpponentUserIDFor(user, room) && next.turnSeq == t.turnSeq + 1
  {
    JudgedScoreInv(oracle, room, t, r, now);
    JudgedTurnOrder(oracle, room, t, user, r, now);
  }

  lemma LateDuplicateCostsTheNextShot(oracle: Oracle, room: MatchRoom, s: Snapshot, user: string, r: ShotResult,
                                      now: int, events: seq<Event>, later: int)
    requires Inv(oracle, room, s) && SubmissionAdmitted(room, s, user, r)
    requires SubmissionAdmitted(room, Run(oracle, room, ShotOutcome(oracle, room, s, r, now), events), user, r)
    ensures var t := Run(oracle, room, ShotOutcome(oracle, room, s, r, now), events);
      var next := ShotOutcome(oracle, room, t, r, later);
      && next.balls == t.balls && next.scores == t.scores && next.status.Aiming?
      && next.turnUserID == OpponentUserIDFor(user, room)
  {
    AfterAResult(oracle, room, s, user, r, now, events);
    var t := Run(oracle, room, ShotOutcome(oracle, room, s, r, now), events);
    TakenAgainExactlyWhen(oracle, room, t, user, r, s.shotSeq);
    DuplicateCostsTheNextShot(oracle, room, t, user, r, later);
  }

  // ---- That it happens

  // The player whose turn it is takes the next shot.
  function NextShot(user: string): seq<Event> {
    [TurnReady(user, "", 0, 0), ShotStarted(user, "", 0.0, 50.0, 0)]
  }

  lemma NextShotIsFired(oracle: Oracle, room: MatchRoom, s: Snapshot, user: string)
    requires Inv(oracle, room, s) && s.status.Aiming? && !ClockStarted(s) && s.turnUserID == user
    ensures var t := Run(oracle, room, s, NextShot(user));
      && Inv(oracle, room, t) && t.status.Moving? && t.shotSeq == s.shotSeq + 1 && t.turnUserID == user
      && t.balls == s.balls
  {
    var events := NextShot(user);
    RunKeepsInv(oracle, room, s, events);
    assert events[..0] == [] && events[..2] == events;
    RunStep(oracle, room, s, events, 0);
    RunStep(oracle, room, s, events, 1);
    TheTurnBegins(oracle, room, s, user);
    ClockKeepsInv(oracle, room, s, 0);
    TheShotIsFired(oracle, room, StartTurnClock(s, 0), user);
  }

  lemma TheTurnBegins(oracle: Oracle, room: MatchRoom, s: Snapshot, user: string)
    requires Inv(oracle, room, s) && s.status.Aiming? && !ClockStarted(s) && s.turnUserID == user
    ensures Step(oracle, room, s, NextShot(user)[0]).next == StartTurnClock(s, 0)
    ensures ClockStarted(StartTurnClock(s, 0)) && !TurnExpired(StartTurnClock(s, 0), 0)
  {
  }

  lemma TheShotIsFired(oracle: Oracle, room: MatchRoom, s: Snapshot, user: string)
    requires Inv(oracle, room, s) && s.status.Aiming? && ClockStarted(s) && !TurnExpired(s, 0) && s.turnUserID == user
    ensures Step(oracle, room, s, NextShot(user)[1]).next == FireShot(room, s, user, 0.0, 50.0, 0)
  {
  }

  // A result sent with its own shot's number that leaves the turn with its sender is accepted
  // again as soon as the next shot is fired.
  lemma DuplicateIsAccepted(oracle: Oracle, room: MatchRoom, s: Snapshot, user: string, r: ShotResult, now: int)
    requires Inv(oracle, room, s) && SubmissionAdmitted(room, s, user, r) && r.shotSeq == s.shotSeq
    requires var s1 := ShotOutcome(oracle, room, s, r, now); s1.status.Aiming? && s1.turnUserID == user
    ensures SubmissionAdmitted(room, Run(oracle, room, ShotOutcome(oracle, room, s, r, now), NextShot(user)), user, r)
  {
    JudgedInv(oracle, room, s, r, now);
    NextShotIsFired(oracle, room, ShotOutcome(oracle, room, s, r, now), user);
    DuplicateIsAcceptedExactlyWhen(oracle, room, s, user, r, now, NextShot(user));
  }

  // The table with one more ball down.
  function WithSunk(balls: seq<Ball>, id: int): seq<Ball> {
    seq(|balls|, i requires 0 <= i < |balls| => if balls[i].id == id then balls[i].(sunk := true) else balls[i])
  }

  lemma SinkingKeepsTheTable(balls: seq<Ball>, id: int)
    requires Table(balls) && 0 < id < 16
    ensures Table(WithSunk(balls, id))
  {
    var after := WithSunk(balls, id);
    assert Ids(after) == Ids(balls);
    forall k: nat | k < 16 ensures InBounds(after[k]) && after[k] == Normalized(after[k]) {
      assert balls[k] in balls;
    }
  }

  lemma SinkingOneMore(balls: seq<Ball>, id: int)
    requires Table(balls) && 0 < id < 16
    ensures SunkTargets(WithSunk(balls, id)) == SunkTargets(balls) + {id}
  {
    BallWithId(balls, id);
    var at :| 0 <= at < 16 && balls[at].id == id;
    assert balls[at] in balls && WithSunk(balls, id)[at] in WithSunk(balls, id);
    forall k: int ensures k in SunkTargets(WithSunk(balls, id)) <==> k in SunkTargets(balls) + {id} {
      SunkStaysSunk(balls, id, k);
      OnlyOneMoreIsSunk(balls, id, k);
    }
  }

  lemma SunkStaysSunk(balls: seq<Ball>, id: int, k: int)
    ensures k in SunkTargets(balls) ==> k in SunkTargets(WithSunk(balls, id))
  {
    if k in SunkTargets(balls) {
      var i :| 0 <= i < |balls| && !balls[i].isWhite && balls[i].sunk && balls[i].id == k;
      assert WithSunk(balls, id)[i] in WithSunk(balls, id);
    }
  }

  lemma OnlyOneMoreIsSunk(balls: seq<Ball>, id: int, k: int)
    ensures k in SunkTargets(WithSunk(balls, id)) ==> k == id || k in SunkTargets(balls)
  {
    var after := WithSunk(balls, id);
    if k in SunkTargets(after) {
      var i :| 0 <= i < |after| && !after[i].isWhite && after[i].sunk && after[i].id == k;
      assert balls[i] in balls;
    }
  }

  // Sinking one ball of the own colour, and not deciding the match by it, is such a result.
  lemma SinkingAnOwnBallKeepsTheTurn(oracle: Oracle, room: MatchRoom, s: Snapshot, user: string, id: int, now: int)
    requires Inv(oracle, room, s) && s.status.Moving? && s.turnUserID == user && 0 < id < 16
    requires OwnerOf(id) == RoleOf(user, room) && id !in SunkTargets(s.balls)
    requires !Decided(SunkTargets(s.balls) + {id})
    ensures var r := ShotResult("", s.shotSeq, "", WithSunk(s.balls, id), false);
      && SubmissionAdmitted(room, s, user, r)
      && var next := ShotOutcome(oracle, room, s, r, now);
      next.status.Aiming? && next.turnUserID == user
  {
    var r := ShotResult("", s.shotSeq, "", WithSunk(s.balls, id), false);
    SunkTableIsAccepted(s.balls, id);
    AcceptableTableIsAdmitted(room, s, WithSunk(s.balls, id));
    OwnBallGoesDown(SunkTargets(s.balls), id, RoleOf(user, room));
    AnOwnBallKeepsTheTurn(oracle, room, s, user, r, now);
  }

  lemma AcceptableTableIsAdmitted(room: MatchRoom, s: Snapshot, balls: seq<Ball>)
    requires TurnInv(room, s) && s.status.Moving? && Acceptable(balls)
    requires forall b :: b in s.balls && !b.isWhite && b.sunk ==> KeepsSunk(Sanitized(balls), b)
    ensures SubmissionAdmitted(room, s, s.turnUserID, ShotResult("", s.shotSeq, "", balls, false))
  {
  }

  lemma AnOwnBallKeepsTheTurn(oracle: Oracle, room: MatchRoom, s: Snapshot, user: string, r: ShotResult, now: int)
    requires Inv(oracle, room, s) && SubmissionAdmitted(room, s, user, r) && !r.cueBallSunk
    requires var sunk := SunkTargets(Sanitized(r.balls));
      !Decided(sunk) && (sunk - SunkTargets(s.balls)) * IdsOf(RoleOf(user, room)) != {}
    ensures var next := ShotOutcome(oracle, room, s, r, now); next.status.Aiming? && next.turnUserID == user
  {
    JudgedScoreInv(oracle, room, s, r, now);
    JudgedTurnOrder(oracle, room, s, user, r, now);
  }

  lemma OwnBallGoesDown(sunk: set<int>, id: int, role: Side)
    requires 0 < id < 16 && OwnerOf(id) == role && id !in sunk
    ensures ((sunk + {id}) - sunk) * IdsOf(role) != {}
  {
    assert id in ((sunk + {id}) - sunk) * IdsOf(role);
  }

  lemma SunkTableIsAccepted(balls: seq<Ball>, id: int)
    requires Table(balls) && 0 < id < 16
    ensures var after := WithSunk(balls, id);
      && Acceptable(after) && SunkTargets(Sanitized(after)) == SunkTargets(balls) + {id}
      && forall b :: b in balls && !b.isWhite && b.sunk ==> KeepsSunk(Sanitized(after), b)
  {
    SinkingKeepsTheTable(balls, id);
    SinkingOneMore(balls, id);
    SameTableIsAccepted(WithSunk(balls, id));
    SanitizedShape(WithSunk(balls, id));
    KeepsSunkOnTables(balls, Sanitized(WithSunk(balls, id)));
  }

  // So it happens in any match: the creator sinks ball 1 with the first shot, fires the second,
  // and the message about the first is accepted for it.
  lemma DuplicateIsAcceptedInAnyMatch(oracle: Oracle, room: MatchRoom, start: int, now: int)
    requires ProperRoom(room) && start > 0
    ensures var s := Run(oracle, room, InitialSnapshot(oracle, room, start), NextShot(room.row.creator));
      var r := ShotResult("", s.shotSeq, "", WithSunk(s.balls, 1), false);
      && SubmissionAdmitted(room, s, room.row.creator, r)
      && SubmissionAdmitted(room, Run(oracle, room, ShotOutcome(oracle, room, s, r, now), NextShot(room.row.creator)),
                            room.row.creator, r)
  {
    var first := InitialSnapshot(oracle, room, start);
    InitialInv(oracle, room, start);
    InitialBallsAreATable(oracle.ring);
    NextShotIsFired(oracle, room, first, room.row.creator);
    var s := Run(oracle, room, first, NextShot(room.row.creator));
    var r := ShotResult("", s.shotSeq, "", WithSunk(s.balls, 1), false);
    assert 2 in IdsOf(CreatorSide) && 9 in IdsOf(OpponentSide);
    SinkingAnOwnBallKeepsTheTurn(oracle, room, s, room.row.creator, 1, now);
    DuplicateIsAccepted(oracle, room, s, room.row.creator, r, now);
  }

  // ---- A result whose shot was lost

  // The result never came in, and its shot was lost to the timeout. Whatever has followed, the
  // result is admitted exactly while its sender has the very next shot in the air, and then that
  // shot is given the table and the points the lost one would have had.
  lemma LostResultIsTakenExactlyWhen(oracle: Oracle, room: MatchRoom, s: Snapshot, user: string, r: ShotResult,
                                     late: int, events: seq<Event>, now: int)
    requires Inv(oracle, room, s) && SubmissionAdmitted(room, s, user, r) && r.shotSeq == s.shotSeq
    requires ReconcileStep(oracle, room, s, late).kind.ShotLost?
    ensures var t := Run(oracle, room, ReconcileStep(oracle, room, s, late).next, events);
      && (SubmissionAdmitted(room, t, user, r) <==>
            t.status.Moving? && t.shotSeq == s.shotSeq + 1 && t.turnUserID == user)
      && (SubmissionAdmitted(room, t, user, r) ==>
            var judged, after := ShotOutcome(oracle, room, s, r, now), ShotOutcome(oracle, room, t, r, now);
            after.balls == judged.balls && after.scores == judged.scores)
  {
    var t := Run(oracle, room, ReconcileStep(oracle, room, s, late).next, events);
    AfterALostShot(oracle, room, s, late, events);
    if t.status.Moving? && t.shotSeq == s.shotSeq + 1 {
      assert t.balls == s.balls && t.scores == s.scores;
    }
  }

  lemma AfterALostShot(oracle: Oracle, room: MatchRoom, s: Snapshot, late: int, events: seq<Event>)
    requires Inv(oracle, room, s) && ReconcileStep(oracle, room, s, late).kind.ShotLost?
    ensures var t := Run(oracle, room, ReconcileStep(oracle, room, s, late).next, events);
      Inv(oracle, room, t) && SinceResult(t, s.shotSeq, s.balls)
  {
    var lost := ReconcileStep(oracle, room, s, late).next;
    StoppedTableIsItself(s.balls);
    ReconcileKeepsInv(oracle, room, s, late);
    RunKeepsInv(oracle, room, lost, events);
    RunKeepsSinceResult(oracle, room, lost, events, s.shotSeq, s.balls);
  }

  // And it happens: the opponent lets a turn go by, and the sender fires again.
  function TurnGoesBy(s: Snapshot): seq<Event> {
    [Event.Reconcile(s.updatedAt + TURN_PREPARE), Event.Reconcile(s.updatedAt + TURN_PREPARE + TURN_DURATION)]
  }

  lemma TurnComesBack(oracle: Oracle, room: MatchRoom, s: Snapshot)
    requires Inv(oracle, room, s) && s.status.Aiming? && !ClockStarted(s)
    ensures var t := Run(oracle, room, s, TurnGoesBy(s));
      && Inv(oracle, room, t) && t.status.Aiming? && !ClockStarted(t) && t.shotSeq == s.shotSeq
      && t.turnUserID == OpponentUserIDFor(s.turnUserID, room)
  {
    var events := TurnGoesBy(s);
    RunKeepsInv(oracle, room, s, events);
    RunStep(oracle, room, s, events, 0);
    RunStep(oracle, room, s, events, 1);
    assert events[..2] == events;
    assert Run(oracle, room, s, events[..0]) == s;
    assert Step(oracle, room, s, events[0]).next == StartTurnClock(s, s.updatedAt + TURN_PREPARE);
  }

  lemma LostResultIsTaken(oracle: Oracle, room: MatchRoom, s: Snapshot, user: string, r: ShotResult, late: int)
    requires Inv(oracle, room, s) && SubmissionAdmitted(room, s, user, r) && r.shotSeq == s.shotSeq
    requires ReconcileStep(oracle, room, s, late).kind.ShotLost?
    ensures var lost := ReconcileStep(oracle, room, s, late).next;
      SubmissionAdmitted(room, Run(oracle, room, Run(oracle, room, lost, TurnGoesBy(lost)), NextShot(user)), user, r)
  {
    var lost := ReconcileStep(oracle, room, s, late).next;
    ReconcileKeepsInv(oracle, room, s, late);
    TurnComesBack(oracle, room, lost);
    var back := Run(oracle, room, lost, TurnGoesBy(lost));
    NextShotIsFired(oracle, room, back, user);
    var t := Run(oracle, room, back, NextShot(user));
    var events := TurnGoesBy(lost) + NextShot(user);
    RunSplits(oracle, room, lost, events, 2);
    assert events[..2] == TurnGoesBy(lost) && events[2..] == NextShot(user);
    LostResultIsTakenExactlyWhen(oracle, room, s, user, r, late, events, 0);
  }

  // ---- A result of the match before

  // Results name the room, and the next match in it has the same name. A result that was fit for
  // one match is judged in another exactly while that has a shot of its sender in the air with its
  // number or the one after, and none of the balls sunk there comes back; table and score are then
  // those of the message.
  lemma OldResultIsJudgedExactlyWhen(oracle: Oracle, room: MatchRoom, s: Snapshot, t: Snapshot, user: string,
                                     r: ShotResult, now: int)
    requires Inv(oracle, room, s) && SubmissionAdmitted(room, s, user, r) && Inv(oracle, room, t)
    ensures SubmissionAdmitted(room, t, user, r) <==>
      && t.status.Moving? && r.shotSeq <= t.shotSeq <= r.shotSeq + 1 && t.turnUserID == user
      && SunkTargets(t.balls) <= SunkTargets(Sanitized(r.balls))
    ensures SubmissionAdmitted(room, t, user, r) ==>
      var next := ShotOutcome(oracle, room, t, r, now);
      next.balls == Sanitized(r.balls) && next.scores == ScoreOf(SunkTargets(next.balls))
  {
    SanitizedShape(r.balls);
    KeepsSunkOnTables(t.balls, Sanitized(r.balls));
    FitResultIsAdmittedExactlyWhen(room, t, user, r);
    if SubmissionAdmitted(room, t, user, r) { JudgedScoreInv(oracle, room, t, r, now); }
  }

  lemma FitResultIsAdmittedExactlyWhen(room: MatchRoom, t: Snapshot, user: string, r: ShotResult)
    requires TurnInv(room, t) && r.shotSeq >= 0 && ForRoom(r.matchID, room) && Acceptable(r.balls)
    requires r.shooter == "" || r.shooter == user
    ensures SubmissionAdmitted(room, t, user, r) <==>
      && t.status.Moving? && r.shotSeq <= t.shotSeq <= r.shotSeq + 1 && t.turnUserID == user
      && forall b :: b in t.balls && !b.isWhite && b.sunk ==> KeepsSunk(Sanitized(r.balls), b)
  {
  }

  // So what the creator reported of the first shot of a match settles the first shot of the next.
  lemma OldResultIsJudged(oracle: Oracle, room: MatchRoom, s: Snapshot, r: ShotResult, start: int)
    requires Inv(oracle, room, s) && SubmissionAdmitted(room, s, room.row.creator, r) && r.shotSeq <= 1 && start > 0
    ensures var t := Run(oracle, room, InitialSnapshot(oracle, room, start), NextShot(room.row.creator));
      SubmissionAdmitted(room, t, room.row.creator, r)
  {
    var first := InitialSnapshot(oracle, room, start);
    InitialInv(oracle, room, start);
    InitialBallsAreATable(oracle.ring);
    NextShotIsFired(oracle, room, first, room.row.creator);
    var t := Run(oracle, room, first, NextShot(room.row.creator));
    OldResultIsJudgedExactlyWhen(oracle, room, s, t, room.row.creator, r, 0);
  }
}
