# Proofs about the lobby, the game and the login service

A Dafny model of the stateful core of a multiplayer billiards application, and proofs about it.
`dafny verify dfyconfig.toml` checks all of it.

What is modelled, file by file:

| files | what |
|---|---|
| `MatchBalls.dfy`, `MatchRules.dfy` | one match as the server judges it: the submitted table, scoring, winner, turn order and clock |
| `MatchLaws.dfy` | the rules in plain ids and figures: whose the balls are, score, winner and turn, when each event takes effect and what it writes |
| `MatchMachine.dfy`, `LateResults.dfy` | the match as a state machine under client events and timer firings at arbitrary clock readings, its invariant and what holds over whole runs; results that arrive twice, too late, or in the next match |
| `SnapshotOrder.dfy` | the version order of snapshots and the page that keeps the newest since the last start |
| `MatchHandler.dfy` | the server object: snapshot cache written through to the repository, three timer tables, event and timer handlers, with failing reads and writes |
| `MatchFeed.dfy` | what the handler stores and publishes over any number of calls, whatever fails, and what pages make of it |
| `Bodies.dfy`, `Collisions.dfy`, `Cushions.dfy`, `Friction.dfy` | the physics step over reals: pair collisions, cushions, cloth friction |
| `LockOrder.dfy`, `RoomRows.dfy`, `RoomTable.dfy` | the rooms table: rows, guarded updates, and transactions interleaved step by step under row locks and advisory locks |
| `RoomLaws.dfy` | the life of a room field by field: which steps change it, when, and to what |
| `RoomRuns.dfy`, `RoomDeadlock.dfy`, `RoomTimers.dfy` | what holds over every run of that protocol: one active room per user, when transactions can wait in a circle, justified disconnect timers |
| `RoomRepository.dfy` | the same transactions as plain methods, and their agreement with the steps |
| `RoomReach.dfy`, `RoomSweep.dfy` | states that ordinary requests lead to: how the rule of one active room is broken, and what the bulk release of opponents evicts |
| `Invitations.dfy` | pending invitations under three indexes |
| `TokenFamilies.dfy` | refresh-token families, after section 10.4 of RFC 6749 |
| `RateLimiter.dfy` | the fixed-window limiter and its cleaner |
| `Base.dfy` | string order, counting facts |

Conventions. Times are integers in milliseconds and may be anything unless a contract says
otherwise: clocks run backwards in the match proofs, and only the rate limiter's laws need a
monotone clock. Failing calls are parameters. SHA-256, the random pocket generator and the ring
positions of the rack are function parameters (`Oracle`), as are the square root (non-negative,
squares back) and the database's hash from users to advisory locks. Rooms of a match have two
different, non-empty players. Operations under one mutex, and token rotations, are atomic; the
transactions of the rooms table are not.

## What the proofs found

- A result may carry the previous shot's number, and is then judged for the current shot. So a
  duplicate of an accepted result is accepted again exactly while its sender has the very next shot
  in the air, and takes the turn from them (`LateResults.DuplicateIsAcceptedExactlyWhen`,
  `LateDuplicateCostsTheNextShot`); it happens in any match (`DuplicateIsAcceptedInAnyMatch`). A
  result that came too late for its own shot is taken for the sender's next one on the same terms,
  and scores there (`LostResultIsTakenExactlyWhen`, `LostResultIsTaken`). Results name the room and
  not the match, so one of the match before can settle a shot of the next
  (`OldResultIsJudgedExactlyWhen`, `OldResultIsJudged`).
- A page forgets its version when a match starts. A snapshot of the match before that arrives after
  that hides the new match until its counters have passed the old ones
  (`SnapshotOrder.LateSnapshotStaysExactlyUntil`, `NewMatchIsHiddenExactlyWhen`).
- When the cache is empty and the read of the stored match fails, the next event starts a new
  match over it and is handled there (`MatchHandler.Handler.HandleRoomClientEvent`). One failed
  write and one failed read are enough. Nobody is told: between such restarts what the handler
  stores and publishes is a single run of one match, no call that restarts stays on a run that has
  had a shot, and pages go on showing the old match until the new one's counters have passed it (`MatchFeed.FeedFollowsTheLastMatch`,
  `CallFollowsTheRunExactlyWhen`, `PagesMissALostRead`, `PageAfterAnUnannouncedMatch`).
- The read of a cue movement takes no lock on the match, and can make a new match be refused
  (`MatchHandler.Handler.InterruptedStart`).
- A timer that cannot load its room puts itself back even over a newer entry, one that finds it not
  playing drops even a newer entry, and a failed write leaves the match without timers until the
  next event (`HandleTurnTimer`, `StoreCanonicalSnapshot`).
- Friction stops every ball only up to a time step of about 5.8 ms; above it some ball
  skids back and forth for ever (`Friction.EveryBallRestsExactlyWhenTheStepIsShort`).
- Page and server rank the status `striking` differently; no version the server produces shows it
  (`SnapshotOrder.OrdersAgreeOffStriking`).
- An opponent leaving or being released from a finished or expired room, and a reset, make the room
  wait again without looking for other active rooms, and a commit does not look again at what its
  transaction has checked. Along a run nobody ever sits in two active rooms exactly when each
  reopening finds its players free and each other commit finds those it checked still free
  (`RoomRuns.RunIsFineExactlyWhen`); to leave no trap for a later commit, a reopening must also find
  its players unchecked by any open transaction (`ReopeningIsSoundExactlyWhen`). Ordinary requests
  break the rule in four ways (`RoomReach.LeavingSeatsTheCreatorTwice`,
  `ReleasingSeatsTheCreatorTwice`, `CommitAfterALeaveSeatsTwice`,
  `RoomSweep.SweepSeatsTheCreatorTwice`).
- Users are locked in order of name but by hash. Transactions can deadlock exactly when two users
  share a lock that one between them in that order does not; three users suffice
  (`RoomDeadlock.NeverDeadlocksExactlyWhen`, `ThreeUsersDeadlock`).
- The bulk release of lost opponents checks the marks only when it reads, and evicts whoever sits
  there when it updates (`RoomSweep.SweepEvictsEarlyExactlyWhen`).
- A join that finds its room expired marks it so in a transaction that it then rolls back, so the
  mark is lost (`RoomRepository.ExpiredJoinLeavesNoMark`).
- A token whose expiry falls between two of the clock readings of one rotation is taken for reuse,
  and costs its user the family (`TokenFamilies.ExpiryBetweenReadingsIsTakenForReuse`). When the
  revocation of a family fails after reuse, fraud is answered but the family lives on
  (`TokenFamilies.FraudKillsExactlyWhen`).
- A limit of 0 or less still lets one request per window through (`RateLimiter.BurstAdmits`).

## Model

| member | source | states |
|---|---|---|
| MatchBalls.SanitizeSubmittedBalls | lobby/internal/lobby/match_state.go:363-423 | accepts exactly the submissions whose ids are 0 to 15, each once, and whose positions are in bounds; returns the ball with id i at index i in canonical colour, owner and points and without motion |
| MatchBalls.DistinctInRangeIsAcceptable | lobby/internal/lobby/match_state.go:363-423 | pigeonhole: sixteen ids in range and none twice are all sixteen ids, so the code's length check on the set of seen ids can never fail |
| MatchBalls.OutOfRangeIsRefused | lobby/internal/lobby/match_state.go:370-385 | one id out of range makes the whole submission unacceptable |
| MatchBalls.RepeatIsRefused | lobby/internal/lobby/match_state.go:370-385 | one repeated id makes the whole submission unacceptable |
| MatchBalls.SortById | lobby/internal/lobby/match_state.go:408-423 | sorting yields the same balls in ascending id order |
| MatchBalls.NormalizedSortedIsSanitized | lobby/internal/lobby/match_state.go:363-423 | normalising each ball and sorting by id, as the code does, is the index-by-id reference definition |
| MatchBalls.SanitizedShape | lobby/internal/lobby/match_state.go:363-423 | a sanitised table has sixteen canonical balls, each at the index of its id, with the submitted position and sunk flag |
| MatchBalls.SanitizedIgnoresOrder | lobby/internal/lobby/match_state.go:363-423 | two orders of the same submission sanitise to the same table |
| MatchBalls.SanitizedIdempotent | lobby/internal/lobby/match_state.go:363-423 | sanitising a sanitised table is the identity |
| MatchBalls.SunkTargetIDs | lobby/internal/lobby/match_state.go:632-640 | returns exactly the ids of sunk balls other than the cue ball |
| MatchBalls.PreservesPreviouslySunkTargets | lobby/internal/lobby/match_state.go:642-657 | holds exactly when every sunk target of the previous table has a sunk ball of its id in the next |
| MatchBalls.KeepsSunkOnTables | lobby/internal/lobby/match_state.go:642-657 | on full tables that check is inclusion of the two sets of sunk targets |
| MatchBalls.InitMatchBalls | lobby/internal/lobby/match_state.go:210-247 | builds the rack: sixteen still balls, in the order in which the code places them |
| MatchBalls.InitialBallsAreATable | lobby/internal/lobby/match_state.go:210-262 | whatever the ring positions, the rack is a canonical table with nothing sunk |
| MatchRules.NormalizeIsIdempotent | lobby/internal/lobby/match_state.go:128-150 | repairing the clock twice, the first time at a positive reading, is repairing it once |
| MatchRules.ResolveServerWinnerRole | lobby/internal/lobby/match_state.go:692-730 | the loop and its branches compute WinnerRole |
| MatchRules.TallyShot | lobby/internal/lobby/match_state.go:457-489 | the scoring loop adds ten points for each newly sunk ball to its owner, and reports whether the shooter sank an own ball with the cue ball still up and whether the black went down |
| MatchRules.TallyBall | lobby/internal/lobby/match_state.go:463-489 | one ball of that loop moves the tally to the set of downed balls with this ball added |
| MatchRules.NewlyByIndex | lobby/internal/lobby/match_state.go:463-466 | the indices the loop counts are the newly sunk targets |
| MatchRules.AdmitShotResult | lobby/internal/lobby/match_state.go:432-454 | a result is admitted exactly when a shot is in the air, its number is that shot's or the one before, it names that shooter or nobody, its table is acceptable and no sunk ball comes back |
| MatchRules.ServerWinner | lobby/internal/lobby/match_state.go:491-501 | names the winner: the opponent of a shooter who sank the black, else the owner of the winning role, else nobody |
| MatchRules.ApplyShotResult | lobby/internal/lobby/match_state.go:432-547 | applies exactly the accepted results, and then yields the recorded outcome: table, score, winner, next turn, counters and cleared clock |
| MatchRules.PreviousSeqIsTakenForThisShot | lobby/internal/lobby/match_state.go:437-442 | a result that carries the previous shot's number is admitted and judged as the same result with the current number |
| MatchRules.ApplyShotResultTimeout | lobby/internal/lobby/match_state.go:585-630 | applies exactly when a shot is in the air and no one has won; the balls stop where they are and the turn passes on |
| MatchRules.NewInitialMatchSnapshot | lobby/internal/lobby/match_state.go:110-126 | a new match: the rack, no score, the creator's first turn, no clock |
| MatchMachine.InitialInv | lobby/internal/lobby/match_state.go:110-126 | a new match satisfies the invariant |
| MatchMachine.StepKeepsInv | lobby/internal/lobby/ws_handler.go:619-749 | every client event and every reconciliation, at any clock reading, keeps the invariant: score is ten points per sunk ball of each colour; winner set, finished and decided table coincide and the winner is the verdict on the table; moving exactly when a shot is in the air, shot by the turn holder with the current number; a running clock's deadline is start plus 20000 and its start is the update time |
| MatchMachine.RunKeepsInv | lobby/internal/lobby/ws_handler.go:515-749 | so does every run |
| MatchMachine.ReconcileKeepsInv | lobby/internal/lobby/ws_handler.go:1424-1480 | reconciliation keeps it in each of its three branches |
| MatchMachine.TurnReadyKeepsInv | lobby/internal/lobby/ws_handler.go:619-656 | turn_ready keeps it |
| MatchMachine.ShotStartedKeepsInv | lobby/internal/lobby/ws_handler.go:658-729 | shot_started keeps it, timed out or fired |
| MatchMachine.ClockKeepsInv | lobby/internal/lobby/match_state.go:194-201 | starting the turn clock keeps it |
| MatchMachine.TurnTimeoutKeepsInv | lobby/internal/lobby/match_state.go:549-583 | a turn timeout keeps it |
| MatchMachine.ShotTimeoutKeepsInv | lobby/internal/lobby/match_state.go:585-630 | a shot timeout keeps it |
| MatchMachine.FireKeepsInv | lobby/internal/lobby/ws_handler.go:690-714 | firing a shot keeps it |
| MatchMachine.JudgedInv | lobby/internal/lobby/match_state.go:432-547 | an accepted result keeps it |
| MatchMachine.JudgedScoreInv | lobby/internal/lobby/match_state.go:457-506 | an accepted result keeps the scoring half of it and loses no sunk ball |
| MatchMachine.NormalizeIsIdentity | lobby/internal/lobby/match_state.go:128-150 | reading a reachable snapshot back through the clock repair does not alter it |
| MatchMachine.WinnerIsVerdict | lobby/internal/lobby/match_state.go:491-501 | the server's winner computation is the verdict on the table: sinking the black loses; otherwise the colour off the table wins; both colours off in one shot, the shooter wins; an undecided table has no winner |
| MatchMachine.RoleOnATable | lobby/internal/lobby/match_state.go:692-730 | with the black spared, the winning role is read off which colours are down |
| MatchMachine.PointsAddUp | lobby/internal/lobby/match_state.go:463-489 | adding the points of the newly sunk balls to the score of the old table gives the score of the new one |
| MatchMachine.BothColoursDown | lobby/internal/lobby/match_state.go:491-501 | both colours down and the black spared: 70 to 70 and the one who shot last has won |
| MatchMachine.StoppedTableIsItself | lobby/internal/lobby/match_state.go:594-606 | a reachable table is at rest, so a lost shot leaves it exactly as it was |
| MatchMachine.StepPhases | lobby/internal/lobby/ws_handler.go:619-762 | finished is absorbing; each other kind of step moves between the phases it should, and an idle one changes nothing |
| MatchMachine.OnlyJudgedShotsTouchTheTable | lobby/internal/lobby/ws_handler.go:619-749 | any step but an accepted result leaves balls, score, winner and audit hash alone, and hands the turn to the opponent exactly on a timeout |
| MatchMachine.JudgedTurnOrder | lobby/internal/lobby/match_state.go:508-515 | after an accepted result the shooter keeps the turn exactly when the match is over or an own ball went down without the cue ball; otherwise the turn is the opponent's |
| MatchMachine.EveryShotCanBeAnswered | lobby/internal/lobby/match_state.go:432-547 | every shot in the air can be answered: its shooter may submit the table as it was, which is accepted, keeps the score and passes the turn on |
| MatchMachine.ShotsAreStampedInsideTheTurn | lobby/internal/lobby/ws_handler.go:683-713 | an accepted shot is stamped strictly between the turn's start and deadline, even if the wall clock runs backwards |
| MatchMachine.StepCounters | lobby/internal/lobby/ws_handler.go:619-749 | how one step moves the shot number and the count of turns over |
| MatchMachine.TurnAccounting | lobby/internal/lobby/ws_handler.go:619-749 | over every run the shot number counts the shots fired, and the turn number counts shots fired plus turn timeouts, plus one while aiming |
| MatchMachine.StepResolves | lobby/internal/lobby/ws_handler.go:731-749 | a result or a shot timeout ends exactly the shot in the air, and no other step ends one |
| MatchMachine.EveryShotResolvedOnce | lobby/internal/lobby/ws_handler.go:731-749 | over every run the resolved shots carry consecutive numbers: none resolved twice, none skipped save one still in the air |
| MatchMachine.SunkTargetsNeverShrink | lobby/internal/lobby/match_state.go:642-657 | over every run balls stay down |
| MatchMachine.ClockIsSetOnce | lobby/internal/lobby/match_state.go:194-201 | within one turn the deadline is set at most once, over every run |
| MatchMachine.ReconcileActsExactlyWhenDue | lobby/internal/lobby/ws_handler.go:1424-1480 | reconciling changes a snapshot exactly when it is unfinished and due: 15,000 after a shot, 20,000 after the clock of a turn started, 1,500 after the snapshot was written otherwise; a second reconciliation at the same reading changes nothing |
| MatchLaws.SanitizedBall | lobby/internal/lobby/match_state.go:249-273 | every submitted ball keeps id, place and, the cue ball apart, whether it is down; balls 1 to 7 are the creator's and 9 to 15 the opponent's at ten points each, 8 is neutral at thirty, 0 is white at none; colour and radius are canonical and it stands still |
| MatchLaws.AcceptableExactlyWhen | lobby/internal/lobby/match_state.go:363-423 | a submission is acceptable if and only if it has sixteen balls with the ids 0 to 15, places within 1.2, speeds within 8 and spins within 500 |
| MatchLaws.SunkTargetsAreDown | lobby/internal/lobby/match_state.go:632-640 | a sunk target of a table is a ball that is down |
| MatchLaws.RackInFigures | lobby/internal/lobby/match_state.go:210-247 | where each ball starts: the cue ball at (-0.608, 0), the black in the middle, the others on the ring in order of id |
| MatchLaws.ReachableIsScoredRight | lobby/internal/lobby/match_state.go:457-506 | on every reachable snapshot each player has ten points for each of the seven own balls (1 to 7, 9 to 15) that is down; the match is over exactly when the black or all of one colour is down; who sank the black has lost, and otherwise the colour that is down has won, or the last to shoot if both are |
| MatchLaws.JudgedInFigures | lobby/internal/lobby/match_state.go:457-515 | what one accepted result scores for whom, and that its sender shoots again exactly if one of their own balls went down without the cue ball or the match is over |
| MatchLaws.UnjudgedTurns | lobby/internal/lobby/match_state.go:549-630 | a lost turn or shot hands the turn to the other player, and no other unjudged step changes turn, table, score or winner |
| MatchLaws.NewMatchInFigures | lobby/internal/lobby/match_state.go:110-126 | how a match begins: the creator's first turn, no clock, no score, nothing down |
| MatchLaws.StepIsStamped | lobby/internal/lobby/match_state.go:187-192 | every step that is not idle is stamped with the clock, or one later than the snapshot it steps from if the clock is behind |
| MatchLaws.ReadyExactlyWhen | lobby/internal/lobby/ws_handler.go:619-656 | turn_ready starts a clock of 20,000 if and only if its sender has the turn, names this room and this turn or none, and no clock runs |
| MatchLaws.ShotExactlyWhen | lobby/internal/lobby/ws_handler.go:658-714 | shot_started fires if and only if its sender has the turn, the clock has run for less than 20,000 and the power is above 0 and at most 100; later than that it loses the turn |
| MatchLaws.ShotCarries | lobby/internal/lobby/ws_handler.go:690-714 | the shot in the air carries the angle and the power of the event, its sender and the next number; table, pockets, score and turn are as before |
| MatchLaws.ResultExactlyWhen | lobby/internal/lobby/match_state.go:432-454 | a result is judged if and only if its sender's shot is in the air, it names that player or nobody and this room or none, carries that shot's number or the one before, and its table is acceptable with no ball come back |
| MatchLaws.TimeoutsExactlyWhen | lobby/internal/lobby/ws_handler.go:1424-1480 | left to itself a turn starts its clock after 1,500 and is lost 20,000 later, and a shot is lost after 15,000 |
| MatchLaws.LostShotInFigures | lobby/internal/lobby/match_state.go:585-630 | a lost shot stops every ball where it is, draws new pockets and clears shot and clock, on any table |
| MatchLaws.RunKeepsPockets | lobby/internal/lobby/match_state.go:425-430 | over every run the pockets are those drawn for the room, the table and the number of shots that are over, and a finished match has none |
| MatchLaws.RepairedClock | lobby/internal/lobby/match_state.go:128-150 | a clock read back with one end missing is completed to 20,000 from the end that is there, one that should not run is cleared, and nothing else changes |
| MatchLaws.RoleByScore | lobby/internal/lobby/match_state.go:692-730 | a side alone clear wins; between two clear sides, or none with the black down, the higher score wins and a tie is the shooter's |
| LateResults.DuplicateIsAcceptedExactlyWhen | lobby/internal/lobby/match_state.go:432-454 | a result has been accepted and any events have followed: the same message is accepted a second time if and only if its sender has the very next shot in the air |
| LateResults.DuplicateIsAccepted | lobby/internal/lobby/match_state.go:437-442 | a result sent with its own shot's number that leaves the turn with its sender is accepted a second time as soon as the next shot is fired |
| LateResults.DuplicateIsAcceptedInAnyMatch | lobby/internal/lobby/match_state.go:432-547 | so in any match, from its start: the creator sinks ball 1 with the first shot and fires a second one, for which the message about the first is accepted again |
| LateResults.SinkingAnOwnBallKeepsTheTurn | lobby/internal/lobby/match_state.go:508-515 | of any shot in the air its shooter may report one more ball of the own colour down, which is accepted and, short of deciding the match, keeps the turn |
| LateResults.LateDuplicateCostsTheNextShot | lobby/internal/lobby/match_state.go:432-547 | that second judgement keeps table and score, leaves the match open and hands the turn to the opponent |
| LateResults.LostResultIsTakenExactlyWhen | lobby/internal/lobby/match_state.go:432-454 | a result that came too late for its shot, which was lost to the timeout, is admitted if and only if its sender has the very next shot in the air, whatever has happened in between; that shot is then given the table and the points the lost one would have had |
| LateResults.LostResultIsTaken | lobby/internal/lobby/match_state.go:585-630 | and that can happen after any lost shot: the opponent lets a turn go by and the sender fires again |
| LateResults.OldResultIsJudgedExactlyWhen | lobby/internal/lobby/match_state.go:432-454 | match_id is the room, so a result fit for one match is admitted in another of the same room if and only if that has a shot of its sender in the air with its number or the one after and no sunk ball comes back; table and score are then those of the message |
| LateResults.OldResultIsJudged | lobby/internal/lobby/match_state.go:110-126 | and that happens: what the creator reported of the first shot of a match is admitted for the first shot of the next |
| LateResults.RunKeepsSinceResult | lobby/internal/lobby/match_state.go:432-547 | over every run since an accepted result, its shot is over and the table stays as submitted while the next shot is in the air |
| SnapshotOrder.StepIsNewer | lobby/internal/lobby/ws_handler.go:1236-1282 | whatever the clock reads, a step is strictly newer in the version order exactly when it is not idle, so the cache never refuses a legitimate step |
| SnapshotOrder.RunIsNewer | lobby/internal/lobby/ws_handler.go:1236-1247 | the end of a run is its start or strictly newer |
| SnapshotOrder.NewerIsTransitive | lobby/internal/lobby/ws_handler.go:1236-1247 | the version order is transitive under either ranking of statuses |
| SnapshotOrder.VersionsAreUnique | lobby/internal/lobby/ws_handler.go:1236-1247 | within a match a version names one snapshot, and of two snapshots one is newer |
| SnapshotOrder.OrdersAgreeOffStriking | frontend/src/pages/GamePage.tsx:139-174 | the page's order and the server's agree on two versions exactly unless they differ only in status and the ranking of striking decides; on versions the server produces they always agree |
| SnapshotOrder.NewerExactlyWhen | lobby/internal/lobby/ws_handler.go:1236-1260 | which of two snapshots is newer, for server and page: by shot number, then turn number, then time of writing, then status |
| SnapshotOrder.GamePage.AcceptSnapshot | frontend/src/pages/GamePage.tsx:291-302 | takes a snapshot exactly when it is newer than the last one taken, and then remembers its version |
| SnapshotOrder.GamePage.Receive | frontend/src/pages/GamePage.tsx:550-617 | after a stream of messages the page shows what the reference fold shows of the snapshots since the last start of a match |
| SnapshotOrder.ShownIsNewest | frontend/src/pages/GamePage.tsx:291-302 | what a page shows is among the messages, and none of them is newer |
| SnapshotOrder.PagesConverge | frontend/src/pages/GamePage.tsx:291-302 | two pages fed the same set of snapshots of one match, in any order and with any repetition, show the same snapshot |
| SnapshotOrder.PageShowsTheCurrentSnapshot | frontend/src/pages/GamePage.tsx:291-302 | a page that has received the current snapshot shows it, whatever else arrived in whatever order |
| SnapshotOrder.LateSnapshotStaysExactlyUntil | frontend/src/pages/GamePage.tsx:291-302 | a snapshot of the match before that arrives after the start of a new one is shown until a snapshot of the new match is newer, and from then on the page shows the new match as if it had never come |
| SnapshotOrder.NewMatchIsHiddenExactlyWhen | frontend/src/pages/GamePage.tsx:603-617 | such a late snapshot hides the first snapshot of the new match if and only if it is past its first turn, past a shot or not written earlier |
| SnapshotOrder.NewMatchIsNewerExactlyWhen | lobby/internal/lobby/ws_handler.go:1236-1247 | a new match's snapshot is newer than a reachable one if and only if that is in its first turn, before any shot, and was written earlier |
| MatchFeed.FeedFollowsARun | lobby/internal/lobby/ws_handler.go:515-530 | however many client events, timer firings and starts the handler serves, with any failing reads and writes, none of them a restart: what is stored is where one run of the match stored at the beginning ends, and every snapshot published is one this run goes through; a restart is a start that is stored, or a call that finds no match to work on (uncached, and the read fails or there is none) and can store a new one |
| MatchFeed.FeedFollowsTheLastMatch | lobby/internal/lobby/ws_handler.go:515-530 | whatever calls come, restarts included: the same of the match since the last restart and of what was published since |
| MatchFeed.ThereIsALastRestart | lobby/internal/lobby/ws_handler.go:1295-1328 | any sequence of calls has a last restart or none |
| MatchFeed.FeedSinceIsTheRest | lobby/internal/lobby/ws_handler.go:515-530 | what was published since the last restart is all that was published but for what came before it |
| MatchFeed.Serve | lobby/internal/lobby/ws_handler.go:515-530 | one call on the handler, whatever fails, leaves in the repository and in the cache what Served says, and publishes just that |
| MatchFeed.ServeAll | lobby/internal/lobby/ws_handler.go:515-530 | so any number of calls, one after the other, store and publish what Feed says |
| MatchFeed.CallFollowsTheRunExactlyWhen | lobby/internal/lobby/ws_handler.go:1295-1328 | once a shot of the match is over, a call leaves the match on its run if and only if it is no restart |
| MatchFeed.FailedWriteThenLostReadRestarts | lobby/internal/lobby/ws_handler.go:1341-1366 | a firing whose write fails and one whose read fails, one after the other, are a restart |
| MatchFeed.RestartIsBeforeTheFirstShot | lobby/internal/lobby/ws_handler.go:1316-1328 | after a restart no shot of the stored match is over, what it publishes precedes the first shot, and it announces the start only if it is one |
| MatchFeed.EventComesAfterTimeouts | lobby/internal/lobby/ws_handler.go:515-530 | with nothing failing, a client event is a reconciliation and then its own step, of the same match, and its messages are those of the two in that order |
| MatchFeed.PagesOfAFeedConverge | frontend/src/pages/GamePage.tsx:291-302 | two pages that got the same part of what was published since the last restart, in any order and with any repetition, show the same snapshot, and the stored one if that is in it |
| MatchFeed.PagesMissALostRead | frontend/src/pages/GamePage.tsx:291-302 | a lost read stores a new match in the place of one that has had its first shot, and a page that shows the old one still shows it after all that was published about it |
| MatchFeed.PageAfterAnUnannouncedMatch | frontend/src/pages/GamePage.tsx:291-302 | whatever is published after that, without a start, the page shows the old match until a snapshot of the new one is newer |
| MatchHandler.Handler.StoreCanonicalSnapshot | lobby/internal/lobby/ws_handler.go:1341-1366 | a stored snapshot is persisted, cached and timed exactly as it calls for; a failed write leaves the previous one as what the next read returns |
| MatchHandler.Handler.StoreStep | lobby/internal/lobby/ws_handler.go:1341-1366 | any step of the match is storable: the cache never refuses it and what is stored is the step's snapshot unaltered |
| MatchHandler.Handler.SetCachedSnapshot | lobby/internal/lobby/ws_handler.go:1262-1282 | takes a snapshot exactly when its version is valid and nothing as new is cached |
| MatchHandler.Handler.ClearCachedSnapshot | lobby/internal/lobby/ws_handler.go:1284-1293 | forgets the snapshot and all three timers of one room |
| MatchHandler.Handler.GetCanonicalSnapshot | lobby/internal/lobby/ws_handler.go:1295-1314 | returns the persisted snapshot when there is one and cache or read provide it, and caches it |
| MatchHandler.Handler.EnsureCanonicalSnapshot | lobby/internal/lobby/ws_handler.go:1316-1328 | the same, and otherwise starts a new match, also when it was only the read that failed |
| MatchHandler.Handler.StartMatch | lobby/internal/lobby/ws_handler.go:572-592 | a start replaces whatever match was stored by a new one, and publishes the start and the new snapshot exactly if that was stored |
| MatchHandler.Handler.SyncMatchTimers | lobby/internal/lobby/ws_handler.go:1555-1575 | the three timer tables end with exactly the timer the snapshot calls for, of its number and deadline, when deadlines are real times |
| MatchHandler.Handler.SyncTurnTimer | lobby/internal/lobby/ws_handler.go:1614-1646 | the turn timer table follows the snapshot, and is cleared when that calls for no turn timer |
| MatchHandler.Handler.SyncPrepareTimer | lobby/internal/lobby/ws_handler.go:1577-1612 | the prepare timer table follows the snapshot, and is cleared when that calls for no prepare timer |
| MatchHandler.Handler.SyncShotTimer | lobby/internal/lobby/ws_handler.go:1648-1683 | the shot timer table follows the snapshot, and is cleared when that calls for no shot timer |
| MatchHandler.Handler.ForgetTurnTimer | lobby/internal/lobby/ws_handler.go:1531-1537 | a stale firing never removes a newer entry |
| MatchHandler.Handler.ForgetPrepareTimer | lobby/internal/lobby/ws_handler.go:1539-1545 | likewise |
| MatchHandler.Handler.ForgetShotTimer | lobby/internal/lobby/ws_handler.go:1547-1553 | likewise |
| MatchHandler.Handler.ReconcileMatchState | lobby/internal/lobby/ws_handler.go:1424-1480 | takes the reconciliation step from the stored match or, when that cannot be had, from a new one stored in its place, and publishes what it stored; the timers are right afterwards whether or not anything changed |
| MatchHandler.Handler.HandleTurnReady | lobby/internal/lobby/ws_handler.go:619-656 | takes the turn_ready step of the machine from the match it loads or starts; counts as handled, and publishes the snapshot, when the turn is its sender's and the clock runs already or could be started and stored |
| MatchHandler.Handler.HandleShotStarted | lobby/internal/lobby/ws_handler.go:658-729 | takes the shot_started step, the timed-out turn included, from the match it loads or starts; publishes the shot, with the angle and power of the event, or the snapshot after a timeout, exactly when that was stored |
| MatchHandler.Handler.HandleShotResultSubmitted | lobby/internal/lobby/ws_handler.go:731-752 | takes the shot_result_submitted step, and publishes the new snapshot exactly when the result was admitted and stored; never starts a match |
| MatchHandler.Handler.HandleRoomClientEvent | lobby/internal/lobby/ws_handler.go:515-530 | in a room that is playing an event first reconciles and then takes its step, from the stored match or from a new one where that cannot be had; says when it counts as handled, what is published in which order, and which timers stand afterwards, for every combination of failing reads and writes; in any other room nothing happens |
| MatchHandler.Handler.InterruptedStart | lobby/internal/lobby/ws_handler.go:579-582 | a cue movement's read between the clearing and the storing of a new match puts the old one back in the cache, and then the new one is refused unless the old one never got past its first turn |
| MatchHandler.Handler.HandlePrepareTimer | lobby/internal/lobby/ws_handler.go:1769-1793 | a firing reconciles the match and publishes what that changed, or comes back, and a match in play keeps a timer; one that cannot load its room overwrites the table entry with its own, one that finds the room not playing drops whatever entry is there |
| MatchHandler.Handler.HandleShotTimer | lobby/internal/lobby/ws_handler.go:1795-1819 | likewise |
| MatchHandler.Handler.HandleTurnTimer | lobby/internal/lobby/ws_handler.go:1821-1845 | likewise |
| MatchHandler.ReachableIsStorable | lobby/internal/lobby/ws_handler.go:1341-1366 | preparing a reachable snapshot for storage does not alter it, and it parses back to itself |
| MatchHandler.StepIsStorable | lobby/internal/lobby/ws_handler.go:1341-1366 | a step from a reachable snapshot is reachable, and newer unless idle |
| MatchHandler.TimerInFigures | lobby/internal/lobby/ws_handler.go:1555-1683 | which timer a snapshot calls for, with its number and deadline, and that it is a real time from 10^12 on |
| MatchHandler.AnsweredExactlyWhen | lobby/internal/lobby/ws_handler.go:619-752 | an event counts as handled if and only if its step was stored, or it is turn_ready in a turn of its sender's whose clock runs; then exactly one message goes out |
| MatchHandler.StartsExactlyWhen | lobby/internal/lobby/ws_handler.go:619-690 | which events get as far as starting a match where none can be loaded: those of players, for this room, with a power above 0 and at most 100 |
| MatchHandler.PreparedSnapshot | lobby/internal/lobby/ws_handler.go:1341-1366 | what is stored is dated and carries the hash of its table unless it had them, its clock is repaired, and nothing else is touched |
| Collisions.ClampShrinks | frontend/src/game/physics/engine.ts:261-264 | the soft threshold moves a value towards zero without crossing it |
| Collisions.ImpulseTakesEnergy | frontend/src/game/physics/engine.ts:430-449 | an impulse between approaching balls never adds kinetic energy |
| Collisions.EnergyBalance | frontend/src/game/physics/engine.ts:430-449 | what a contact takes, exactly: a part of the square of the normal speed and twice the work of the tangential impulse |
| Collisions.PairRebounds | frontend/src/game/physics/engine.ts:425-449 | after contact the pair's normal relative speed is minus 0.96 times what it was |
| Collisions.PairSeparates | frontend/src/game/physics/engine.ts:413-423 | an overlapping pair ends exactly touching |
| Collisions.PairKeepsTotals | frontend/src/game/physics/engine.ts:408-456 | a pair keeps the sums of positions and velocities, and of radius times spin |
| Collisions.PairTakesEnergy | frontend/src/game/physics/engine.ts:408-456 | a pair never gains kinetic energy |
| Collisions.PairIsPushedApart | frontend/src/game/physics/engine.ts:411-423 | both balls are moved apart along the line of centres by half of their overlap |
| Collisions.PairIsStruck | frontend/src/game/physics/engine.ts:425-446 | what a contact does to both velocities, in full: 0.98 of the closing speed passes along the contact, and across it 0.04 of the tangential speed less 0.1176 of the closing speed, if that leaves anything |
| Collisions.PairIsSpun | frontend/src/game/physics/engine.ts:448-453 | what it does to both spins, in full |
| Collisions.PartingPairIsLeftAlone | frontend/src/game/physics/engine.ts:425-428 | a touching pair that is not closing in keeps velocities and spins |
| Collisions.ApartIsLeftAlone | frontend/src/game/physics/engine.ts:408-411 | a pair that does not touch is left alone |
| Collisions.DirectionOfNothing | frontend/src/game/physics/engine.ts:414-416 | balls on one spot are pushed apart along the x axis |
| Collisions.EveryPairMeetsOnce | frontend/src/game/physics/engine.ts:399-405 | the nested loops let every pair of balls meet exactly once, in order of the first and then the second |
| Collisions.OutOfPlayMeetsNobody | frontend/src/game/physics/engine.ts:399-405 | a pair of which one is sunk or sinking does not meet, any other does, and nobody else is touched |
| Collisions.PairStepLaws | frontend/src/game/physics/engine.ts:404-457 | one turn of the nested loop keeps the sums over all balls and never adds energy |
| Collisions.CollisionPhaseLaws | frontend/src/game/physics/engine.ts:399-458 | for any number of balls the whole nested loop keeps the sums of positions and velocities and never adds kinetic energy |
| Cushions.BounceTakesEnergy | frontend/src/game/physics/engine.ts:323-353 | a bounce never adds kinetic energy |
| Cushions.BounceTurnsInward | frontend/src/game/physics/engine.ts:323-353 | a bounced ball moves inward |
| Cushions.BounceKeepsItsWay | frontend/src/game/physics/engine.ts:336-345 | along the cushion a bounced ball keeps its direction, at 76 to 90 per cent of its speed |
| Cushions.BounceInFigures | frontend/src/game/physics/engine.ts:323-353 | the bounce in full: both components of the velocity for any directness, and both of the spin |
| Cushions.OutsideExactlyWhen | frontend/src/game/physics/engine.ts:382-390 | a ball is past the cushion if and only if it is in play and its centre is further out than 0.95 less its radius |
| Cushions.CushionedLaws | frontend/src/game/physics/engine.ts:382-397 | a ball past the cushion is put back exactly on the rim and, if it was running outwards, runs inwards at 72 to 84 per cent of its normal speed, and along the cushion the way it ran at 76 to 90 per cent; any other ball is left alone; no ball gains energy |
| Cushions.CushionPhaseTakesEnergy | frontend/src/game/physics/engine.ts:382-397 | the cushion loop never adds energy |
| Cushions.CollisionsNeverAddEnergy | frontend/src/game/physics/engine.ts:382-458 | cushions and collisions together never add energy |
| Cushions.ResolveCushionCollision | frontend/src/game/physics/engine.ts:323-353 | overwrites the ball with the bounce |
| Cushions.CushionBall | frontend/src/game/physics/engine.ts:382-397 | overwrites one ball with its state after the cushion |
| Cushions.CushionPhase | frontend/src/game/physics/engine.ts:382-397 | overwrites each ball with its state after the cushion |
| Cushions.ResolvePair | frontend/src/game/physics/engine.ts:408-456 | overwrites both balls with the collision |
| Cushions.MeetBall | frontend/src/game/physics/engine.ts:404-457 | one turn of the inner loop is one pair step; a ball out of play is skipped |
| Cushions.MeetRest | frontend/src/game/physics/engine.ts:404-457 | the inner loop visits the row of pairs of one ball |
| Cushions.CollisionPhase | frontend/src/game/physics/engine.ts:399-458 | the nested loops over balls updated in place visit all pairs in order |
| Cushions.ResolveContacts | frontend/src/game/physics/engine.ts:382-458 | both phases on the engine's own balls, cushions first and then every pair: the collisions keep the sums of positions and velocities, and neither phase adds energy |
| Cushions.SkippedBall | frontend/src/game/physics/engine.ts:400-402 | skipping a ball out of play skips a row in which nothing would happen |
| Friction.SlipAfterSliding | frontend/src/game/physics/engine.ts:280-293 | a sliding step changes the slip speed by a fixed amount |
| Friction.SlidingKeepsContactMomentum | frontend/src/game/physics/engine.ts:280-293 | sliding keeps vx - (2r/5) spinY and vy + (2r/5) spinX |
| Friction.SpeedAfterSliding | frontend/src/game/physics/engine.ts:280-293 | sliding adds at most a fixed amount to the speed |
| Friction.AfterRolling | frontend/src/game/physics/engine.ts:295-320 | rolling ends at rest, or without slip at a speed lower by a fixed amount |
| Friction.SlowBallStopsExactly | frontend/src/game/physics/engine.ts:267-277 | a ball slower than 0.003 that slips less than 0.018 stops |
| Friction.SlippingBall | frontend/src/game/physics/engine.ts:279-293 | what a sliding step does to velocity and spin, in full: 0.18 times gravity against the slip, and two and a half times that on the rim |
| Friction.RollingBall | frontend/src/game/physics/engine.ts:295-320 | a rolling ball keeps its direction, loses 0.035 times gravity of its speed and has its spin made to match; it stops when below 0.003 and 0.08 |
| Friction.SpentBallStops | frontend/src/game/physics/engine.ts:295-307 | it stops when no more speed is left than one step takes |
| Friction.ShortStepInFigures | frontend/src/game/physics/engine.ts:267-293 | the condition on the step, in figures |
| Friction.RestIsKept | frontend/src/game/physics/engine.ts:267-277 | a ball at rest stays as it is |
| Friction.FrictionLowersRank | frontend/src/game/physics/engine.ts:267-320 | under a short step, each call brings a moving ball closer to rest by an explicit measure in steps |
| Friction.ComesToRest | frontend/src/game/physics/engine.ts:267-320 | a ball is at rest after that many steps and stays so |
| Friction.EngineStepIsShort | frontend/src/game/physics/engine.ts:267-293 | 240 steps a second are short enough |
| Friction.NeverRests | frontend/src/game/physics/engine.ts:267-293 | under a longer step there is a ball of each size that skids back and forth for ever |
| Friction.EveryBallRestsExactlyWhenTheStepIsShort | frontend/src/game/physics/engine.ts:267-320 | friction brings every ball to rest if and only if 3.5 * 0.18 * 9.81 * dt <= 0.036 |
| Friction.ApplyFeltFriction | frontend/src/game/physics/engine.ts:267-320 | overwrites the ball with its state after friction, branch by branch |
| Friction.StopBall | frontend/src/game/physics/engine.ts:230-236 | clears velocity and spin |
| LockOrder.OrderUsers | lobby/internal/lobby/repository.go:107-122 | the users to lock, without empty ids or repetitions, come out in ascending order however the set is walked |
| LockOrder.OneArrangement | lobby/internal/lobby/repository.go:107-122 | there is one ascending arrangement of a set of users |
| LockOrder.InLockOrderAscends | lobby/internal/lobby/repository.go:107-122 | the lock order ascends strictly |
| Base.LessIsByFirstDifference | lobby/internal/lobby/repository.go:111-122 | the order of users: the first byte that differs decides, and a beginning comes before what it begins |
| RoomTable.StepKeepsLocks | lobby/internal/lobby/repository.go:73-129 | row locks and advisory locks stay exclusive, and each transaction goes through its own lists in order |
| RoomTable.StepKeepsRows | lobby/internal/lobby/repository.go:307-410 | a locked row stays what it was when read, under any step of anyone |
| RoomTable.SingleSeatsNobody | lobby/internal/lobby/repository.go:412-520 | a guarded update of one row seats nobody in an active room, reopenings apart |
| RoomTable.CommitSeatsCheckedUsers | lobby/internal/lobby/repository.go:131-185 | a commit seats only users that its transaction has found free of other active rooms |
| RoomTable.CommitKeepsInv | lobby/internal/lobby/repository.go:131-185 | a commit keeps one active room per user, and the findings of every other open transaction |
| RoomTable.StepKeepsInv | lobby/internal/lobby/repository.go:73-609 | every step but a reopening keeps the protocol's invariant |
| RoomLaws.StartsExactlyWhen | lobby/internal/lobby/repository.go:412-447 | for any step of anyone: a room starts to play if and only if its start reaches a waiting row with both players there and neither marked as lost, or a rematch of it commits |
| RoomLaws.FinishesExactlyWhen | lobby/internal/lobby/repository.go:449-482 | it finishes if and only if that reaches a playing row |
| RoomLaws.ExpiresExactlyWhen | lobby/internal/lobby/repository.go:611-758 | it expires if and only if it is closed, by hand, by its creator's leaving or by the creator's being lost since the cutoff, or has waited alone past its time, or is expired by id |
| RoomLaws.WaitsAgainExactlyWhen | lobby/internal/lobby/repository.go:484-520 | it waits again if and only if its opponent leaves, is released after being lost since the cutoff or swept out, or a finished room is reset |
| RoomLaws.CreatorNeverChanges | lobby/internal/lobby/repository.go:131-185 | no step changes a room's creator, and no room disappears |
| RoomLaws.OpponentChangesExactlyWhen | lobby/internal/lobby/repository.go:307-410 | the opponent changes exactly by the commit of a join, to its user, and when the seat is emptied |
| RoomLaws.ExpiryChangesExactlyWhen | lobby/internal/lobby/repository.go:484-609 | the time a room has left is set to 300,000 when it waits again and to 600,000 by a rematch, and by nothing else |
| RoomLaws.CreatorConnectionExactly | lobby/internal/lobby/repository.go:760-791 | the creator's connection is the last one marked by the creator while the room was open, until it closes |
| RoomLaws.OpponentConnectionExactly | lobby/internal/lobby/repository.go:811-842 | likewise the opponent's, until the room closes or the seat is emptied |
| RoomLaws.CreatorMarkExactly | lobby/internal/lobby/repository.go:793-809 | the mark of a lost creator is set exactly by a loss of the connection the row names, and cleared by a new connection, a closing, a reset or a rematch |
| RoomLaws.OpponentMarkExactly | lobby/internal/lobby/repository.go:844-860 | likewise the opponent's, and by emptying the seat |
| RoomLaws.RoomIsNewExactlyWhen | lobby/internal/lobby/repository.go:131-185 | a room is new exactly by the commit of a creation, with 300,000 to wait and nothing else set |
| RoomLaws.JoinRefusedExactlyWhen | lobby/internal/lobby/repository.go:340-375 | which rooms let a user in, and which of the refusals any other gives |
| RoomLaws.OneActiveRoomMeans | lobby/internal/lobby/repository.go:73-88 | the rule in plain words: nobody is creator or opponent of two rooms that wait or play |
| RoomLaws.HasActiveRoomMeans | lobby/internal/lobby/repository.go:73-88 | what a transaction looks for, in the same words |
| RoomRuns.RunKeepsInv | lobby/internal/lobby/repository.go:73-609 | so does every run, with careful reopenings allowed |
| RoomRuns.NoUserInTwoActiveRooms | lobby/internal/lobby/repository.go:73-185 | under every interleaving of the steps of all transactions and statements, the bulk release included, whatever the hash, no user sits in two rooms that wait or play, as long as each reopening is careful: the players it brings back have no active room, and no open transaction has found one of them free |
| RoomRuns.ReopeningIsFineExactlyWhen | lobby/internal/lobby/repository.go:484-520 | right after a reopening (a reset, or an opponent leaving or being released, singly or in bulk, from a finished or expired room) no user sits in two active rooms if and only if none of the players it brings back had one |
| RoomRuns.CommitIsFineExactlyWhen | lobby/internal/lobby/repository.go:131-185 | right after any other commit no user sits in two active rooms if and only if the players the transaction found free still are |
| RoomRuns.StepIsFineExactlyWhen | lobby/internal/lobby/repository.go:73-609 | the exact law for any one step of anyone: the rule survives it if and only if the step is fine, that is, if it reopens a room its players are free, and if it is another commit those it checked still are |
| RoomRuns.RunIsFineExactlyWhen | lobby/internal/lobby/repository.go:73-609 | over every run, no user ever sits in two active rooms if and only if each of its steps is fine where it is taken |
| RoomRuns.ReopeningIsSoundExactlyWhen | lobby/internal/lobby/repository.go:484-520 | a reopening keeps the whole protocol sound, commits still to come included, if and only if it is careful |
| RoomRuns.ReopeningSeatsTheReturning | lobby/internal/lobby/repository.go:484-520 | a reopening writes an active row over an inactive one, and seats in it exactly the creator and, after a reset, the opponent |
| RoomRuns.CarefulReopeningKeepsInv | lobby/internal/lobby/repository.go:484-520 | a reopening of free players, whom no open transaction has found free already, keeps the whole protocol sound |
| RoomReach.LeavingSeatsTheCreatorTwice | lobby/internal/lobby/repository.go:656-758 | between any two users, a run of ordinary requests leads to a finished room whose creator waits in another, and then the opponent's leaving seats the creator in two active rooms |
| RoomReach.ReleasingSeatsTheCreatorTwice | lobby/internal/lobby/repository.go:916-955 | the same with the opponent's disconnect timer in place of the leaving |
| RoomReach.CommitAfterALeaveSeatsTwice | lobby/internal/lobby/repository.go:131-185 | a run from the empty table in which every reopening brings back only players who are free, and which still seats a creator twice: the creation checks, the opponent leaves the old room, the creation commits |
| RoomReach.MatchIsPlayed | lobby/internal/lobby/repository.go:131-482 | two idle users can open, fill, start and finish a room |
| RoomSweep.SweepStepIsSwept | lobby/internal/lobby/repository.go:957-1017 | the bulk release empties the seat of a room it has read, once |
| RoomSweep.SweepEvictsEarlyExactlyWhen | lobby/internal/lobby/repository.go:957-1017 | the bulk release reads its rooms and then updates by id alone: an opponent seated at the update is evicted where the single-room statement would not, if and only if the room has closed or that opponent bears no mark old enough |
| RoomSweep.SweepEvictsAReturnedOpponent | lobby/internal/lobby/repository.go:957-1017 | a run from the empty table in which the bulk release reads a lost opponent, the opponent reconnects, and the update evicts it, which the single-room statement would not do then |
| RoomSweep.SweepEvictsANewOpponent | lobby/internal/lobby/repository.go:957-1017 | a run from the empty table in which the bulk release reads a lost opponent, that one leaves, another user joins, and the update evicts the newcomer |
| RoomSweep.SweepReopensAnEmptyRoom | lobby/internal/lobby/repository.go:957-1017 | finding nobody in the seat, the bulk release makes the room wait all the same, even a closed one |
| RoomSweep.SweepSeatsTheCreatorTwice | lobby/internal/lobby/repository.go:957-1017 | a run from the empty table in which the bulk release reads a waiting room, its creator closes it and opens another, and the update makes the closed room wait with the creator in it |
| RoomDeadlock.NeverDeadlocksExactlyWhen | lobby/internal/lobby/repository.go:107-129 | for any set of users and any hash: no run in which only they take part reaches transactions that wait in a circle, if and only if between two of them that share a lock there is, in lock order, none with another lock |
| RoomDeadlock.NoWaitCycle | lobby/internal/lobby/repository.go:107-129 | no transactions wait in a circle, when that holds of the users they lock |
| RoomDeadlock.NoRunDeadlocks | lobby/internal/lobby/repository.go:107-129 | no run reaches such a circle, when that holds of the users who take part |
| RoomDeadlock.SomeoneCanAdvance | lobby/internal/lobby/repository.go:107-129 | then, while transactions are open, one of them can take its next step |
| RoomDeadlock.WishesAscend | lobby/internal/lobby/repository.go:111-122 | a waiting transaction that is waited for wants a user later in lock order than the one it is waited for with |
| RoomDeadlock.ThreeUsersDeadlock | lobby/internal/lobby/repository.go:118-122 | three users suffice: when the first and the last share a lock that the one between them does not, two rematches reach a state in which they wait for each other for ever |
| RoomDeadlock.CollidingKeysDeadlock | lobby/internal/lobby/repository.go:118-122 | any two rematches whose users share locks crosswise end so: users are ordered by name, locks are taken by hash |
| RoomTimers.AMarkHasALoss | lobby/internal/lobby/repository.go:793-860 | over every run, a disconnect mark stands only since one step marked a connection of the occupant's as lost, that an earlier step had marked as made, with no other connection marked for the seat in between or since, and the seat kept throughout |
| RoomTimers.CloseMeansTheCreatorIsGone | lobby/internal/lobby/repository.go:862-882 | a room closes for a lost creator only if the last connection the creator made was itself marked as lost by the cutoff |
| RoomTimers.ReleaseMeansThisOpponentIsGone | lobby/internal/lobby/repository.go:916-955 | a seat is released only from the opponent whose own last connection was marked as lost by the cutoff; a previous opponent's timer never evicts a later one early |
| RoomTimers.RunKeepsTimersInv | lobby/internal/lobby/repository.go:811-860 | an empty seat never carries a disconnect mark or a connection |
| RoomTimers.AConnectionWasMade | lobby/internal/lobby/repository.go:760-842 | over every run, the connection a row names is the last one its occupant has made, in the seat kept since |
| RoomTimers.ALossIsOfItsOwnConnection | lobby/internal/lobby/repository.go:793-860 | every loss that takes effect is of the connection last made in that seat |
| RoomTimers.StaleSocketIsIgnored | lobby/internal/lobby/repository.go:793-860 | a disconnect from any other connection changes nothing |
| RoomRepository.RoomRepository.UserHasActiveRoom | lobby/internal/lobby/repository.go:73-88 | the search over rows finds an active room of the user, the excluded one apart, exactly when there is one |
| RoomRepository.RoomRepository.CreateRoom | lobby/internal/lobby/repository.go:131-185 | creates a waiting room exactly when the creator has no active room |
| RoomRepository.RoomRepository.JoinRoom | lobby/internal/lobby/repository.go:307-410 | seats the opponent, or answers with the first refusal that applies and changes nothing |
| RoomRepository.RoomRepository.StartRematchRoom | lobby/internal/lobby/repository.go:522-609 | restarts a finished room exactly when neither player has another active room |
| RoomRepository.RoomRepository.LeaveRoom | lobby/internal/lobby/repository.go:656-758 | the creator's leaving closes the room, the opponent's frees the seat, a spectator's changes nothing |
| RoomRepository.CreateAnswers | lobby/internal/lobby/repository.go:131-185 | a creation is refused exactly to a user with an active room, and otherwise writes a room that waits for 300,000 |
| RoomRepository.JoinAnswers | lobby/internal/lobby/repository.go:307-410 | which of its seven answers a join gives, for each of them if and only if, and that a success writes the opponent alone |
| RoomRepository.RematchAnswers | lobby/internal/lobby/repository.go:522-609 | a rematch needs a finished room with both players, neither in another active room, and then plays on for 600,000 with both marks cleared |
| RoomRepository.LeavingLeaves | lobby/internal/lobby/repository.go:656-758 | what leaving writes for creator, opponent and anyone else |
| RoomRepository.UpdateSeatsNobodyTwice | lobby/internal/lobby/repository.go:412-520 | what every guarded update of one row keeps: reopenings apart, no user comes to sit in two active rooms |
| RoomRepository.ExpiredJoinLeavesNoMark | lobby/internal/lobby/repository.go:347-351 | a join that finds its room out of time is refused and leaves the table as it was: the mark it writes is rolled back, and the room goes on saying that it waits |
| RoomRepository.CreateAlone | lobby/internal/lobby/repository.go:131-185 | uninterrupted, the transaction's steps do what the method does |
| RoomRepository.JoinAlone | lobby/internal/lobby/repository.go:307-410 | likewise for a join, refusals included |
| RoomRepository.RematchAlone | lobby/internal/lobby/repository.go:522-609 | likewise for a rematch |
| RoomRepository.LeaveAlone | lobby/internal/lobby/repository.go:656-758 | likewise for leaving |
| Invitations.InvitationStore.Upsert | lobby/internal/lobby/presence.go:247-267 | sets the pending invitation of one room and user and no other; the three indexes stay projections of one map without empty inner maps if and only if the id was not in use for another room or user |
| Invitations.InvitationStore.ListForUser | lobby/internal/lobby/presence.go:269-281 | returns exactly the user's pending invitations, none twice, oldest first |
| Invitations.InvitationStore.ClearRoom | lobby/internal/lobby/presence.go:283-313 | empties the room and answers with exactly its invitations in order of invitee |
| Invitations.InvitationStore.ClearInvitation | lobby/internal/lobby/presence.go:315-344 | removes exactly that invitation if it is the user's, and otherwise changes nothing |
| Invitations.IndexSurvivesExactlyAFreshId | lobby/internal/lobby/presence.go:247-267 | after an upsert the index by id is still a projection if and only if the id was not in use for another room or user |
| Invitations.UserHoldsWhatRoomsHold | lobby/internal/lobby/presence.go:232-245 | what is filed under a user is what is pending for that user in some room |
| Invitations.RoomGoes | lobby/internal/lobby/presence.go:283-308 | dropping a room at once is dropping its invitations one by one |
| Invitations.DropIsRemoval | lobby/internal/lobby/presence.go:295-308 | removing an entry and an inner map it leaves empty removes that entry only |
| Invitations.PutIsUpdate | lobby/internal/lobby/presence.go:250-266 | putting an entry, with a new inner map if need be, changes that entry only |
| TokenFamilies.TokenService.RotateRefreshToken | auth/internal/auth/token_service.go:112-191 | the whole rotation, failing calls and separate clock readings included, is the function the laws are about |
| TokenFamilies.TokenService.GenerateRefreshToken | auth/internal/auth/token_service.go:86-110 | a login adds one token of a new family, or fails and changes nothing |
| TokenFamilies.TokenService.RevokeUserTokens | auth/internal/auth/token_service.go:193-195 | after a logout that succeeds every family the user has a token in is without unrevoked token, and no other user's token has changed |
| TokenFamilies.TokenService.FindActiveByFamilyID | auth/internal/auth/postgres.go:137-146 | returns the latest unrevoked and unexpired token of the family, or none exactly when there is none |
| TokenFamilies.TokenService.FindByTokenHash | auth/internal/auth/postgres.go:129-135 | finds a token of that hash exactly when there is one |
| TokenFamilies.RotateKeepsSound | auth/internal/auth/token_service.go:112-191 | a rotation keeps: hashes unique, one user per family, at most one unrevoked token per family |
| TokenFamilies.GraceUsesTheLiveToken | auth/internal/auth/postgres.go:137-146 | the query for an active token has at most one row to choose from |
| TokenFamilies.IssuedTokenIsTheLiveOne | auth/internal/auth/token_service.go:126-184 | after a success the new token is the only unrevoked one of its family, with the presented token's user |
| TokenFamilies.AnswersExactlyWhen | auth/internal/auth/token_service.go:112-191 | which of its answers a rotation gives to a known token, for each of them if and only if: by two readings of the expiry, the 15,000 of grace, the live token of the family and the failing calls |
| TokenFamilies.ReuseIsFraudExactlyWhen | auth/internal/auth/models.go:48-62 | an unexpired token that was revoked is fraud if and only if more than 15,000 have passed since; within that, with a live token in its family and no call failing, it is exchanged |
| TokenFamilies.UnknownHashIsInvalid | auth/internal/auth/token_service.go:112-121 | an unknown hash is invalid, a failing look-up an error, and neither changes anything |
| TokenFamilies.ExchangeWrites | auth/internal/auth/token_service.go:126-184 | what an exchange writes: one token of the family given up, the presented one if it was still good, one new one for 604,800,000, and nothing else |
| TokenFamilies.FraudWrites | auth/internal/auth/token_service.go:186-190 | fraud revokes what is unrevoked in the family and touches nothing else; expiry and a missing token write nothing |
| TokenFamilies.LoginSweepAndLogoutWrite | auth/internal/auth/token_service.go:86-110 | what logins, sweeps and logouts write, token by token |
| TokenFamilies.ExpiryBetweenReadingsIsTakenForReuse | auth/internal/auth/token_service.go:122-190 | a token never exchanged is answered with fraud if and only if it expires between the two readings of its expiry, and then its family is lost unless the revocation fails |
| TokenFamilies.FraudKillsExactlyWhen | auth/internal/auth/token_service.go:186-190 | fraud ends the family exactly unless the revocation itself fails, which the code only logs |
| TokenFamilies.BreakdownIsCleanOrFinal | auth/internal/auth/token_service.go:126-184 | a rotation that breaks down has changed nothing or has ended the family |
| TokenFamilies.DeadNeverIssues | auth/internal/auth/models.go:48-62 | a token of a family without unrevoked token is never exchanged, whatever the clocks read |
| TokenFamilies.StepKeepsDead | auth/internal/auth/token_service.go:86-195 | no step revives a family without unrevoked token |
| TokenFamilies.DeadFamilyNeverSucceeds | auth/internal/auth/token_service.go:86-195 | over every run, once a family has no unrevoked token none of its tokens ever succeeds again, the grace period included |
| TokenFamilies.LogoutKills | auth/internal/auth/token_service.go:193-195 | logging out ends every family the user has a token in |
| TokenFamilies.StepKeepsInv | auth/internal/auth/token_service.go:86-195 | logins with fresh families, rotations, logouts and sweeps keep the families sound |
| TokenFamilies.FamiliesStaySound | auth/internal/auth/token_service.go:86-195 | over every run each family has one user and at most one unrevoked token |
| RateLimiter.IPBasedRateLimiter.Handle | auth/internal/middleware/rate_limit.go:34-71 | the three branches of the request path on the table of clients |
| RateLimiter.IPBasedRateLimiter.CleanRound | auth/internal/middleware/rate_limit.go:21-31 | a round of the cleaner visits every entry once, each at its own reading of the clock, and leaves what the single cleaning steps in that order leave |
| RateLimiter.RoundDeletesExactlyTheStale | auth/internal/middleware/rate_limit.go:24-28 | such a round deletes exactly the entries that are stale when visited |
| RateLimiter.SweptAnswersAlike | auth/internal/middleware/rate_limit.go:17-72 | a table from which stale entries are missing answers every later request alike |
| RateLimiter.CleanerChangesNoAnswer | auth/internal/middleware/rate_limit.go:21-31 | wherever cleaning steps are put in a run with a monotone clock, every request gets the same answer as without them |
| RateLimiter.IntervalAdmitsAtMost | auth/internal/middleware/rate_limit.go:34-71 | any stretch of one window's length lets at most 2n - 1 requests of a client through, n being the limit but at least 1 |
| RateLimiter.BoundIsReached | auth/internal/middleware/rate_limit.go:34-71 | for every limit, 0 and less included, and every window of at least 1 ms a run lets exactly 2n - 1 through |
| RateLimiter.BurstAdmits | auth/internal/middleware/rate_limit.go:34-71 | of any burst that finds no open window exactly the first n requests are let through, one under a limit of 0 or less |
| RateLimiter.WindowRunsFromTheSecondReading | auth/internal/middleware/rate_limit.go:34-71 | a window runs from the second reading of the clock by the request that opens it, so the next request is let through exactly if that is more than a window ago or the limit is above 1 |

## Left out

- Rooms: the advisory locks are those of one table; transactions' own statements are taken as single steps, an uncommitted write being invisible to others; the bulk expiry and the bulk closing, whose guards are on the updated row, are their single-row updates; the bulk release reads its rooms in one step and then updates each on its own, so the order in which it locks rows, and its holding them together, are not modelled.
- RoomRuns.NoUserInTwoActiveRooms: does not speak of the empty user id, which the code never locks.
- MatchHandler.Handler.StartMatch: a new match and its times are taken at positive clock readings.
- Publishing is said of snapshots, shots and starts; the payloads of timeouts and of finished matches, and messages that get lost on the way to a page, are not modelled.
- MatchHandler.Handler.SyncMatchTimers: says which timers are scheduled, not when the Go runtime fires them; deadlines before 10^12 get no timer, as in the code.
- Clearing the snapshot of a room that closes, and the read of a cue movement, run outside the lock on the match; of what they may fall between, only the start of a new match is modelled (`InterruptedStart`).
- MatchFeed.ServeAll: serves calls one after the other, as the lock on the match has it, in a room that is playing; starts with a read of a cue movement in between are not among them.
- A write that fails is one that did not happen; a write that happened but was reported as failed is not modelled.
- 64-bit wrap-around of times, counters and scores.
- TokenFamilies.RotateKeepsSound: each rotation is atomic; two rotations interleaved between their database calls are not modelled and can leave two unrevoked tokens.
- The physics claims are over reals: rounding of floating point and the rounding of each ball's state after a step (engine.ts:460-462) are not modelled; nor are pockets, sinking and the order of the engine's other phases.
- Friction.EveryBallRestsExactlyWhenTheStepIsShort: about the cloth alone, between collisions.
- Positions stay inside the table only after the cushion phase; collisions may push a ball past it.
- Submitted positions are finite numbers or not; the arithmetic on them is not modelled, nor are the placement of pockets and the audit hash beyond being functions of their inputs.
- JSON, NATS and WebSocket traffic (taken as the identity), HTTP handlers, JWT, bcrypt, S3.
- XP awards, profiles, chat, cue movement, spectators and online lists, the connection hand-off of the presence tracker, and the rematch requests: easy members.
- The user-based rate limiter is the same algorithm under another key.
