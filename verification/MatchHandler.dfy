/** The server object that runs matches: the versioned snapshot cache written through to the
    repository, the three timer tables, client events and timer firings (ws_handler.go).
    The handlers are critical sections of matchStateMu. Reading for a cue movement and clearing a
    closed room's snapshot happen outside it: InterruptedStart shows what that can do. */
module MatchHandler {
  import opened Base
  import opened MatchRules
  import opened MatchMachine
  import opened SnapshotOrder

  datatype TurnTimer = TurnTimer(turnSeq: int, deadline: int)

  // The timers scheduled for one room.
  datatype Timers = Timers(turn: Option<TurnTimer>, prepare: Option<int>, shot: Option<int>)

  const NO_TIMERS := Timers(None, None, None)

  // Deadlines below this are taken for test fixtures and get no timer.
  const REAL_TIME := 1_000_000_000_000

  // Which repository calls fail during an operation: reading the stored match, storing a new one
  // in its place, and storing the operation's own step.
  datatype Faults = Faults(read: bool, create: bool, write: bool)

  function Lookup<V>(m: map<string, V>, key: string): Option<V> {
    if key in m then Some(m[key]) else None
  }

  // The two tables agree on every other key.
  ghost predicate SameElsewhere<V>(m: map<string, V>, m': map<string, V>, key: string) {
    m - {key} == m' - {key}
  }

  lemma OverwrittenAtOnce<V>(m: map<string, V>, key: string, v: V, v': V)
    ensures m[key := v][key := v'] == m[key := v']
  {
  }

  predicate InPlay(s: Snapshot) {
    (s.status.Moving? && s.activeShot.Some? && s.winner == "") || (s.status.Aiming? && s.winner == "")
  }

  // The one timer a snapshot calls for.
  function TimersFor(s: Snapshot): Timers {
    if !InPlay(s) then NO_TIMERS
    else if s.status.Moving? then NO_TIMERS.(shot := Some(s.activeShot.value.shotSeq))
    else if ClockStarted(s) then NO_TIMERS.(turn := Some(TurnTimer(s.turnSeq, s.turnDeadlineAt)))
    else NO_TIMERS.(prepare := Some(s.turnSeq))
  }

  // Its deadline is a real one.
  predicate RealTime(s: Snapshot) {
    InPlay(s) ==>
      if s.status.Moving? then ShotResultDeadline(s) >= REAL_TIME
      else if ClockStarted(s) then s.turnDeadlineAt >= REAL_TIME
      else s.updatedAt + TURN_PREPARE >= REAL_TIME
  }

  // A match between two shots waits for the clock to be started or to run out, one with a shot in
  // the air for the result, and one that is over for nothing; deadlines count from the epoch.
  lemma TimerInFigures(oracle: Oracle, room: MatchRoom, s: Snapshot)
    requires Inv(oracle, room, s)
    ensures s.status.Finished? ==> TimersFor(s) == Timers(None, None, None)
    ensures s.status.Moving? ==> TimersFor(s) == Timers(None, None, Some(s.shotSeq))
    ensures s.status.Aiming? && s.turnStartedAt > 0 ==>
      TimersFor(s) == Timers(Some(TurnTimer(s.turnSeq, s.turnStartedAt + 20_000)), None, None)
    ensures s.status.Aiming? && s.turnStartedAt == 0 ==> TimersFor(s) == Timers(None, Some(s.turnSeq), None)
    ensures var wait := if s.status.Moving? then 15_000 else if s.turnStartedAt > 0 then 20_000 else 1_500;
      RealTime(s) <==> s.status.Finished? || s.updatedAt + wait >= 1_000_000_000_000
  {
  }

  predicate ValidVersion(s: Snapshot) {
    s.shotSeq >= 0 && s.turnSeq >= 0 && s.updatedAt > 0
  }

  predicate Parsable(s: Snapshot) {
    s.shotSeq >= 0 && s.updatedAt > 0 && s.turnUserID != "" && s.balls != []
  }

  // What storing a snapshot writes.
  function Prepared(oracle: Oracle, s: Snapshot, wall: int): Snapshot {
    var s := NormalizeTurnClock(s, wall);
    var s := if s.updatedAt <= 0 then s.(updatedAt := wall) else s;
    if s.auditHash == "" then s.(auditHash := oracle.auditHash(s.balls)) else s
  }

  // What is stored is dated and carries the hash of its table, unless it had them already; the
  // clock is repaired and nothing else is touched.
  lemma PreparedSnapshot(oracle: Oracle, s: Snapshot, wall: int)
    ensures var t := Prepared(oracle, s, wall);
      && t.updatedAt == (if s.updatedAt > 0 then s.updatedAt else wall)
      && t.auditHash == (if s.auditHash != "" then s.auditHash else oracle.auditHash(s.balls))
      && t == NormalizeTurnClock(s, wall).(updatedAt := t.updatedAt, auditHash := t.auditHash)
  {
  }

  // A reachable snapshot is stored as it is, is valid, and parses back to itself.
  lemma ReachableIsStorable(oracle: Oracle, room: MatchRoom, s: Snapshot, wall: int)
    requires Reachable(oracle, room, s)
    ensures Prepared(oracle, s, wall) == s && ValidVersion(s) && Parsable(s) && NormalizeTurnClock(s, wall) == s
    ensures Player(room, s.turnUserID) && (s.activeShot.Some? ==> Player(room, s.activeShot.value.shooter))
    ensures InPlay(s) <==> !s.status.Finished?
  {
    ReachableInv(oracle, room, s);
  }

  // What a step leads to is reachable in turn, and gets past a cache that holds where it came from.
  lemma StepIsStorable(oracle: Oracle, room: MatchRoom, s: Snapshot, e: Event)
    requires Reachable(oracle, room, s)
    ensures var o := Step(oracle, room, s, e);
      && Reachable(oracle, room, o.next)
      && (!o.kind.Idle? ==> SnapshotIsNewer(VersionOf(o.next), VersionOf(s)))
      && (o.kind.Idle? ==> o.next == s)
  {
    ReachableInv(oracle, room, s);
    StepReachable(oracle, room, s, e);
    StepPhases(oracle, room, s, e);
    StepIsNewer(oracle, room, s, e);
  }

  // What is stored after a step from s: an idle step, or one whose write fails, stores nothing.
  function Kept(s: Snapshot, o: Outcome, writeFails: bool): Snapshot {
    if o.kind.Idle? || !writeFails then o.next else s
  }

  // Whether an event counts as handled, and what is published to the room.
  datatype Reply = Reply(handled: bool, messages: seq<Message>)

  const IGNORED := Reply(false, [])

  // The reply to an event judged on the snapshot s. A shot is published as such, any other change
  // as the new snapshot; turn_ready in a turn whose clock runs is answered with what is there.
  ghost function Answer(oracle: Oracle, room: MatchRoom, s: Snapshot, e: Event, writeFails: bool): Reply {
    var o := Step(oracle, room, s, e);
    if o.kind.Idle? then
      if e.TurnReady? && ReadyAccepted(room, s, e.user, e.matchID, e.turnSeq) then Reply(true, [StateSync(s)])
      else IGNORED
    else if writeFails then IGNORED
    else if o.kind.Fired? then Reply(true, [ShotFired(o.next.activeShot.value)])
    else Reply(true, [StateSync(o.next)])
  }

  // An event is handled when its step could be stored, or when it is turn_ready in a turn of its
  // sender's whose clock runs; then exactly one message goes out.
  lemma AnsweredExactlyWhen(oracle: Oracle, room: MatchRoom, s: Snapshot, e: Event, writeFails: bool)
    requires PhasesInv(room, s)
    ensures var o, answer := Step(oracle, room, s, e), Answer(oracle, room, s, e, writeFails);
      && (answer.handled <==>
            (!o.kind.Idle? && !writeFails) ||
            (e.TurnReady? && s.status.Aiming? && s.turnStartedAt > 0 && s.turnUserID == e.user &&
             (e.matchID == "" || e.matchID == room.id) &&
             (e.turnSeq == 0 || (e.turnSeq > 0 && e.turnSeq == s.turnSeq))))
      && (!answer.handled ==> answer.messages == [])
      && (answer.handled && !o.kind.Fired? ==> answer.messages == [StateSync(o.next)])
      && (answer.handled && o.kind.Fired? ==>
            o.next.activeShot.Some? && answer.messages == [ShotFired(o.next.activeShot.value)])
  {
  }

  // Where a reconciliation of s and, if that could be stored, a client's event lead: what is
  // stored then, the reply, and whether the last write went through.
  datatype Landing = Landing(stored: Snapshot, reply: Reply, written: bool)

  ghost function Landed(oracle: Oracle, room: MatchRoom, s: Snapshot, before: int, e: Event, faults: Faults,
                        faults': Faults)
    : Landing
  {
    var o := ReconcileStep(oracle, room, s, before);
    if !o.kind.Idle? && faults.write then Landing(s, IGNORED, false)
    else LandedFrom(oracle, room, o.next, e, faults'.write, Synced(o))
  }

  // The event on the reconciled snapshot, `synced` having been published before.
  ghost function LandedFrom(oracle: Oracle, room: MatchRoom, s: Snapshot, e: Event, writeFails: bool,
                            synced: seq<Message>)
    : Landing
  {
    var o := Step(oracle, room, s, e);
    var answer := Answer(oracle, room, s, e, writeFails);
    Landing(Kept(s, o, writeFails), answer.(messages := synced + answer.messages), o.kind.Idle? || !writeFails)
  }

  // What a reconciliation publishes.
  function Synced(o: Outcome): seq<Message> {
    if o.kind.Idle? then [] else [StateSync(o.next)]
  }

  // Whether an event gets as far as starting a match where none can be loaded.
  predicate Starts(room: MatchRoom, e: Event) {
    match e
    case Reconcile(_) => true
    case TurnReady(user, matchID, turnSeq, _) => Player(room, user) && turnSeq >= 0 && ForRoom(matchID, room)
    case ShotStarted(user, matchID, _, power, _) => Player(room, user) && 0.0 < power <= 100.0 && ForRoom(matchID, room)
    case ShotSubmitted(_, _, _) => false
  }

  lemma StartsExactlyWhen(room: MatchRoom, e: Event)
    requires room.row.opponent.Some?
    ensures Starts(room, e) <==>
      e.Reconcile? ||
      (!e.ShotSubmitted? && (e.user == room.row.creator || e.user == room.row.opponent.value) &&
       (e.matchID == "" || e.matchID == room.id) &&
       (e.TurnReady? ==> e.turnSeq >= 0) && (e.ShotStarted? ==> 0.0 < e.power && e.power <= 100.0))
  {
  }

  // The others change nothing.
  lemma MalformedIsIdle(oracle: Oracle, room: MatchRoom, s: Snapshot, e: Event)
    requires Reachable(oracle, room, s) && !Starts(room, e) && !e.ShotSubmitted?
    ensures Step(oracle, room, s, e) == Outcome(s, Idle)
    ensures e.TurnReady? ==> !ReadyAccepted(room, s, e.user, e.matchID, e.turnSeq)
  {
    ReachableInv(oracle, room, s);
  }

  class Handler {
    const oracle: Oracle
    var snapshots: map<string, Snapshot>
    var turnTimers: map<string, TurnTimer>
    var prepareTimers: map<string, int>
    var shotTimers: map<string, int>
    // The room_match_states table.
    var persisted: map<string, Snapshot>

    constructor (oracle: Oracle, persisted: map<string, Snapshot>)
      ensures this.oracle == oracle && this.persisted == persisted && snapshots == map[]
      ensures turnTimers == map[] && prepareTimers == map[] && shotTimers == map[]
    {
      this.oracle, this.persisted, snapshots := oracle, persisted, map[];
      turnTimers, prepareTimers, shotTimers := map[], map[], map[];
    }

    function TimersOf(roomID: string): Timers
      reads this
    {
      Timers(Lookup(turnTimers, roomID), Lookup(prepareTimers, roomID), Lookup(shotTimers, roomID))
    }

    // The cache never says anything the repository does not, and what is stored is reachable.
    ghost predicate Coherent(room: MatchRoom)
      reads this
    {
      && (room.id in snapshots ==> room.id in persisted && snapshots[room.id] == persisted[room.id])
      && (room.id in persisted ==> Reachable(oracle, room, persisted[room.id]))
    }

    // A current snapshot can be had: from the cache, or by a read that succeeds.
    predicate Available(roomID: string, readFails: bool)
      reads this`snapshots, this`persisted
    {
      roomID in persisted && (roomID in snapshots || !readFails)
    }

    // Nothing about any other room has changed.
    twostate predicate OthersKept(roomID: string)
      reads this
    {
      && SameElsewhere(old(snapshots), snapshots, roomID)
      && SameElsewhere(old(persisted), persisted, roomID)
      && SameElsewhere(old(turnTimers), turnTimers, roomID)
      && SameElsewhere(old(prepareTimers), prepareTimers, roomID)
      && SameElsewhere(old(shotTimers), shotTimers, roomID)
    }

    // An unfinished match on real deadlines that has no timer.
    predicate FadesOut(room: MatchRoom)
      reads this
    {
      && room.id in persisted && !persisted[room.id].status.Finished? && RealTime(persisted[room.id])
      && TimersOf(room.id) == NO_TIMERS
    }

    // The snapshot is cached, and has the timer it calls for.
    predicate UpToDate(roomID: string, s: Snapshot)
      reads this
    {
      roomID in snapshots && snapshots[roomID] == s && (RealTime(s) ==> TimersOf(roomID) == TimersFor(s))
    }

    // The next operation has to read the stored snapshot, and no timer will.
    predicate Forgotten(roomID: string)
      reads this
    {
      roomID !in snapshots && TimersOf(roomID) == NO_TIMERS
    }

    // The new snapshot is persisted, cached and timed; or, the write having failed, the old one
    // is what the next read returns.
    twostate predicate Wrote(roomID: string, next: Snapshot, writeFails: bool)
      reads this
    {
      if !writeFails then persisted == old(persisted)[roomID := next] && UpToDate(roomID, next)
      else persisted == old(persisted) && Forgotten(roomID)
    }

    // What an operation starts from: the stored match, if it can be had; else, in a room that is
    // playing, a new one in its place, if that can be stored.
    ghost function Loaded(room: MatchRoom, wall: int, faults: Faults): Option<Snapshot>
      reads this`snapshots, this`persisted
    {
      if Available(room.id, faults.read) then Some(persisted[room.id])
      else if room.row.status.Playing? && !faults.create then Some(InitialSnapshot(oracle, room, wall))
      else None
    }

    // What an event in a room that is playing starts from.
    ghost function LoadedFor(room: MatchRoom, e: Event, wall: int, faults: Faults): Option<Snapshot>
      reads this`snapshots, this`persisted
    {
      if !room.row.status.Playing? then None
      else if Starts(room, e) || Available(room.id, faults.read) then Loaded(room, wall, faults)
      else None
    }

    // The match has taken the step of this event from what was loaded for it.
    twostate predicate Handled(room: MatchRoom, e: Event, wall: int, faults: Faults)
      reads this
    {
      var loaded := old(LoadedFor(room, e, wall, faults));
      if loaded.None? then persisted == old(persisted)
      else Took(room.id, loaded.value, Step(oracle, room, loaded.value, e), faults.write)
    }

    // From the loaded snapshot s the match has taken this step. An idle one stores nothing, and
    // after a failed write s is what is stored and what the next read returns.
    twostate predicate Took(roomID: string, s: Snapshot, o: Outcome, writeFails: bool)
      reads this
    {
      && persisted == old(persisted)[roomID := Kept(s, o, writeFails)]
      && (!o.kind.Idle? && !writeFails ==> UpToDate(roomID, o.next))
      && (!o.kind.Idle? && writeFails ==> Forgotten(roomID))
    }

    // An event in a room that is not playing, or idle on the cached snapshot, leaves cache and
    // timers alone.
    twostate predicate Spares(room: MatchRoom, e: Event)
      reads this
    {
      !room.row.status.Playing? || old(room.id in snapshots && Step(oracle, room, snapshots[room.id], e).kind.Idle?) ==>
        snapshots == old(snapshots) && TimersOf(room.id) == old(TimersOf(room.id))
    }

    // The reply to an event in this room: none without a match to judge it on.
    twostate predicate Replied(room: MatchRoom, e: Event, wall: int, faults: Faults, reply: Reply)
      reads this
    {
      var loaded := old(LoadedFor(room, e, wall, faults));
      reply == if loaded.None? then IGNORED else Answer(oracle, room, loaded.value, e, faults.write)
    }

    // ---- Timer tables

    method CancelTurnTimer(roomID: string)
      modifies this`turnTimers
      ensures turnTimers == old(turnTimers) - {roomID} && SameElsewhere(old(turnTimers), turnTimers, roomID)
    {
      turnTimers := turnTimers - {roomID};
    }

    method CancelPrepareTimer(roomID: string)
      modifies this`prepareTimers
      ensures prepareTimers == old(prepareTimers) - {roomID} && SameElsewhere(old(prepareTimers), prepareTimers, roomID)
    {
      prepareTimers := prepareTimers - {roomID};
    }

    method CancelShotTimer(roomID: string)
      modifies this`shotTimers
      ensures shotTimers == old(shotTimers) - {roomID} && SameElsewhere(old(shotTimers), shotTimers, roomID)
    {
      shotTimers := shotTimers - {roomID};
    }

    // A firing takes its own entry out of the table, and no other.
    method ForgetTurnTimer(roomID: string, turnSeq: int)
      modifies this`turnTimers
      ensures turnTimers == if roomID in old(turnTimers) && old(turnTimers)[roomID].turnSeq == turnSeq
                            then old(turnTimers) - {roomID} else old(turnTimers)
      ensures SameElsewhere(old(turnTimers), turnTimers, roomID)
    {
      if roomID in turnTimers && turnTimers[roomID].turnSeq == turnSeq {
        turnTimers := turnTimers - {roomID};
      }
    }

    method ForgetPrepareTimer(roomID: string, turnSeq: int)
      modifies this`prepareTimers
      ensures prepareTimers == if Lookup(old(prepareTimers), roomID) == Some(turnSeq)
                               then old(prepareTimers) - {roomID} else old(prepareTimers)
      ensures SameElsewhere(old(prepareTimers), prepareTimers, roomID)
    {
      if roomID in prepareTimers && prepareTimers[roomID] == turnSeq {
        prepareTimers := prepareTimers - {roomID};
      }
    }

    method ForgetShotTimer(roomID: string, shotSeq: int)
      modifies this`shotTimers
      ensures shotTimers == if Lookup(old(shotTimers), roomID) == Some(shotSeq)
                            then old(shotTimers) - {roomID} else old(shotTimers)
      ensures SameElsewhere(old(shotTimers), shotTimers, roomID)
    {
      if roomID in shotTimers && shotTimers[roomID] == shotSeq {
        shotTimers := shotTimers - {roomID};
      }
    }

    // A firing that failed comes back, over whatever entry there is.
    method RescheduleTurnTimer(roomID: string, turnSeq: int)
      modifies this`turnTimers
      ensures turnTimers == old(turnTimers)[roomID := TurnTimer(turnSeq, 0)]
      ensures SameElsewhere(old(turnTimers), turnTimers, roomID)
    {
      turnTimers := turnTimers[roomID := TurnTimer(turnSeq, 0)];
    }

    method ReschedulePrepareTimer(roomID: string, turnSeq: int)
      modifies this`prepareTimers
      ensures prepareTimers == old(prepareTimers)[roomID := turnSeq]
      ensures SameElsewhere(old(prepareTimers), prepareTimers, roomID)
    {
      prepareTimers := prepareTimers[roomID := turnSeq];
    }

    method RescheduleShotTimer(roomID: string, shotSeq: int)
      modifies this`shotTimers
      ensures shotTimers == old(shotTimers)[roomID := shotSeq]
      ensures SameElsewhere(old(shotTimers), shotTimers, roomID)
    {
      shotTimers := shotTimers[roomID := shotSeq];
    }

    method SyncPrepareTimer(roomID: string, s: Snapshot, wall: int)
      modifies this`prepareTimers
      ensures SameElsewhere(old(prepareTimers), prepareTimers, roomID)
      ensures var wanted := InPlay(s) && s.status.Aiming? && !ClockStarted(s);
        var timely := (if s.updatedAt <= 0 then wall else s.updatedAt) + TURN_PREPARE >= REAL_TIME;
        && (!wanted ==> roomID !in prepareTimers)
        && (wanted && timely ==> Lookup(prepareTimers, roomID) == Some(s.turnSeq))
        && (wanted && !timely ==> prepareTimers == old(prepareTimers))
    {
      if s.status != Aiming || s.winner != "" || ClockStarted(s) {
        CancelPrepareTimer(roomID);
        return;
      }
      var updatedAt := if s.updatedAt <= 0 then wall else s.updatedAt;
      if updatedAt + TURN_PREPARE < REAL_TIME {
        return;
      }
      if roomID in prepareTimers && prepareTimers[roomID] == s.turnSeq {
        return;
      }
      prepareTimers := prepareTimers[roomID := s.turnSeq];
    }

    method SyncTurnTimer(roomID: string, s: Snapshot)
      modifies this`turnTimers
      ensures SameElsewhere(old(turnTimers), turnTimers, roomID)
      ensures var wanted := InPlay(s) && s.status.Aiming? && s.turnDeadlineAt > 0;
        var timely := s.turnDeadlineAt >= REAL_TIME;
        && (!wanted ==> roomID !in turnTimers)
        && (wanted && timely ==> Lookup(turnTimers, roomID) == Some(TurnTimer(s.turnSeq, s.turnDeadlineAt)))
        && (wanted && !timely ==> turnTimers == old(turnTimers))
    {
      if s.status != Aiming || s.winner != "" || s.turnDeadlineAt <= 0 {
        CancelTurnTimer(roomID);
        return;
      }
      if s.turnDeadlineAt < REAL_TIME {
        return;
      }
      if roomID in turnTimers && turnTimers[roomID] == TurnTimer(s.turnSeq, s.turnDeadlineAt) {
        return;
      }
      turnTimers := turnTimers[roomID := TurnTimer(s.turnSeq, s.turnDeadlineAt)];
    }

    method SyncShotTimer(roomID: string, s: Snapshot)
      modifies this`shotTimers
      ensures SameElsewhere(old(shotTimers), shotTimers, roomID)
      ensures var wanted := InPlay(s) && s.status.Moving? && ShotResultDeadline(s) > 0;
        var timely := ShotResultDeadline(s) >= REAL_TIME;
        && (!wanted ==> roomID !in shotTimers)
        && (wanted && timely ==> Lookup(shotTimers, roomID) == Some(s.activeShot.value.shotSeq))
        && (wanted && !timely ==> shotTimers == old(shotTimers))
    {
      if s.status != Moving || s.winner != "" || s.activeShot.None? {
        CancelShotTimer(roomID);
        return;
      }
      if ShotResultDeadline(s) <= 0 {
        CancelShotTimer(roomID);
        return;
      }
      if ShotResultDeadline(s) < REAL_TIME {
        return;
      }
      if roomID in shotTimers && shotTimers[roomID] == s.activeShot.value.shotSeq {
        return;
      }
      shotTimers := shotTimers[roomID := s.activeShot.value.shotSeq];
    }

    // Afterwards the room has exactly the timer its snapshot calls for.
    method SyncMatchTimers(roomID: string, s: Snapshot, wall: int)
      modifies this`turnTimers, this`prepareTimers, this`shotTimers
      ensures OthersKept(roomID)
      ensures s.updatedAt > 0 && RealTime(s) ==> TimersOf(roomID) == TimersFor(s)
      // Under a fixture's clock only the other kinds are cancelled.
      ensures TimersFor(s).turn.None? ==> TimersOf(roomID).turn.None?
      ensures TimersFor(s).prepare.None? ==> TimersOf(roomID).prepare.None?
      ensures TimersFor(s).shot.None? ==> TimersOf(roomID).shot.None?
    {
      if s.status == Moving && s.activeShot.Some? && s.winner == "" {
        CancelTurnTimer(roomID);
        CancelPrepareTimer(roomID);
        SyncShotTimer(roomID, s);
        return;
      }
      CancelShotTimer(roomID);
      if s.status != Aiming || s.winner != "" {
        CancelTurnTimer(roomID);
        CancelPrepareTimer(roomID);
        return;
      }
      if ClockStarted(s) {
        CancelPrepareTimer(roomID);
        SyncTurnTimer(roomID, s);
        return;
      }
      CancelTurnTimer(roomID);
      SyncPrepareTimer(roomID, s, wall);
    }

    // ---- Snapshot cache and repository

    // The cache takes a valid snapshot that is newer than the valid one it may hold.
    predicate Cachable(roomID: string, s: Snapshot)
      reads this
    {
      ValidVersion(s) &&
      (roomID in snapshots && ValidVersion(snapshots[roomID]) ==>
         SnapshotIsNewer(VersionOf(s), VersionOf(snapshots[roomID])))
    }

    method SetCachedSnapshot(roomID: string, s: Snapshot) returns (ok: bool)
      modifies this`snapshots
      ensures ok <==> old(Cachable(roomID, s))
      ensures ok ==> s.shotSeq >= 0 && s.turnSeq >= 0 && s.updatedAt > 0
      ensures s.shotSeq >= 0 && s.turnSeq >= 0 && s.updatedAt > 0 && roomID !in old(snapshots) ==> ok
      ensures snapshots == if ok then old(snapshots)[roomID := s] else old(snapshots)
    {
      if !ValidVersion(s) {
        return false;
      }
      if roomID in snapshots {
        var current := snapshots[roomID];
        if ValidVersion(current) && !SnapshotIsNewer(VersionOf(s), VersionOf(current)) {
          return false;
        }
      }
      snapshots := snapshots[roomID := s];
      return true;
    }

    method ClearCachedSnapshot(roomID: string)
      modifies this`snapshots, this`turnTimers, this`prepareTimers, this`shotTimers
      ensures snapshots == old(snapshots) - {roomID}
      ensures TimersOf(roomID) == NO_TIMERS && OthersKept(roomID)
    {
      snapshots := snapshots - {roomID};
      CancelTurnTimer(roomID);
      CancelPrepareTimer(roomID);
      CancelShotTimer(roomID);
    }

    method GetCanonicalSnapshot(room: MatchRoom, wall: int, readFails: bool) returns (s: Snapshot, ok: bool)
      requires Coherent(room)
      modifies this`snapshots
      ensures Coherent(room)
      ensures ok <==> old(Available(room.id, readFails))
      ensures ok ==> s == persisted[room.id] && snapshots == old(snapshots)[room.id := s]
      ensures !ok ==> snapshots == old(snapshots) && room.id !in snapshots
      ensures old(room.id in snapshots) ==> snapshots == old(snapshots)
    {
      s := *;
      if room.id in persisted {
        ReachableIsStorable(oracle, room, persisted[room.id], wall);
      }
      if room.id in snapshots {
        var cached := snapshots[room.id];
        if Parsable(cached) {
          return NormalizeTurnClock(cached, wall), true;
        }
      }
      if readFails || room.id !in persisted {
        return s, false;
      }
      ok := SetCachedSnapshot(room.id, persisted[room.id]);
      if !ok {
        return;
      }
      s, ok := NormalizeTurnClock(persisted[room.id], wall), Parsable(persisted[room.id]);
    }

    method StoreCanonicalSnapshot(roomID: string, snapshot: Snapshot, wall: int, writeFails: bool)
      returns (stored: bool)
      modifies this
      ensures OthersKept(roomID)
      ensures var s := Prepared(oracle, snapshot, wall);
        if !old(Cachable(roomID, s)) then
          && !stored && snapshots == old(snapshots) && persisted == old(persisted)
          && TimersOf(roomID) == old(TimersOf(roomID))
        else if writeFails then
          && !stored && persisted == old(persisted) && Forgotten(roomID)
        else
          && stored && snapshots == old(snapshots)[roomID := s] && persisted == old(persisted)[roomID := s]
          && (RealTime(s) ==> TimersOf(roomID) == TimersFor(s))
    {
      var s := NormalizeTurnClock(snapshot, wall);
      if s.updatedAt <= 0 {
        s := s.(updatedAt := wall);
      }
      if s.auditHash == "" {
        s := s.(auditHash := oracle.auditHash(s.balls));
      }
      stored := SetCachedSnapshot(roomID, s);
      if !stored {
        return;
      }
      if writeFails {
        ClearCachedSnapshot(roomID);
        return false;
      }
      persisted := persisted[roomID := s];
      SyncMatchTimers(roomID, s, wall);
    }

    // Storing the outcome of a step on the current snapshot always gets past the cache.
    method StoreStep(room: MatchRoom, ghost s: Snapshot, ghost e: Event, next: Snapshot, wall: int, writeFails: bool)
      returns (stored: bool)
      requires Coherent(room) && room.id in snapshots && s == snapshots[room.id]
      requires var o := Step(oracle, room, s, e); next == o.next && !o.kind.Idle?
      modifies this
      ensures Coherent(room) && OthersKept(room.id)
      ensures stored <==> !writeFails
      ensures Took(room.id, s, Step(oracle, room, s, e), writeFails)
    {
      StepIsStorable(oracle, room, s, e);
      stored := StoreNext(room, s, next, wall, writeFails);
    }

    method StoreNext(room: MatchRoom, ghost s: Snapshot, next: Snapshot, wall: int, writeFails: bool)
      returns (stored: bool)
      requires Coherent(room) && room.id in snapshots && s == snapshots[room.id]
      requires Reachable(oracle, room, next) && SnapshotIsNewer(VersionOf(next), VersionOf(s))
      modifies this
      ensures Coherent(room) && OthersKept(room.id)
      ensures stored <==> !writeFails
      ensures Wrote(room.id, next, writeFails)
    {
      ReachableIsStorable(oracle, room, next, wall);
      stored := StoreCanonicalSnapshot(room.id, next, wall, writeFails);
    }

    // The current snapshot; failing that, in a room that is playing, a new match. So a read that
    // fails while the cache is empty throws the stored match away: the other branch below.
    method EnsureCanonicalSnapshot(room: MatchRoom, now: int, wall: int, faults: Faults) returns (s: Snapshot, ok: bool)
      requires Coherent(room) && ProperRoom(room) && now > 0
      modifies this
      ensures Coherent(room) && OthersKept(room.id)
      ensures var loaded := old(Loaded(room, now, faults));
        && (ok <==> loaded.Some?)
        && (ok ==> s == loaded.value && persisted == old(persisted)[room.id := s])
        && (!ok ==> persisted == old(persisted))
      ensures old(Available(room.id, faults.read)) || !room.row.status.Playing? ==>
        TimersOf(room.id) == old(TimersOf(room.id))
      ensures old(room.id in snapshots) ==> snapshots == old(snapshots)
      ensures ok ==> room.id in snapshots && snapshots[room.id] == s
      ensures !ok && room.row.status.Playing? ==> Forgotten(room.id)
    {
      s, ok := GetCanonicalSnapshot(room, wall, faults.read);
      if ok {
        return;
      }
      if !room.row.status.Playing? {
        return;
      }
      s, ok := StoreNewMatch(room, now, wall, faults.create);
    }

    method StoreNewMatch(room: MatchRoom, now: int, wall: int, writeFails: bool) returns (s: Snapshot, stored: bool)
      requires ProperRoom(room) && now > 0 && room.id !in snapshots
      modifies this
      ensures s == InitialSnapshot(oracle, room, now) && Reachable(oracle, room, s)
      ensures OthersKept(room.id)
      ensures stored <==> !writeFails
      ensures Wrote(room.id, s, writeFails)
    {
      s := NewInitialMatchSnapshot(oracle, room, now);
      InitialReachable(oracle, room, now);
      ReachableIsStorable(oracle, room, s, wall);
      stored := StoreCanonicalSnapshot(room.id, s, wall, writeFails);
    }

    // match_start and an agreed rematch: the old match is dropped from the cache first, so the
    // new one is stored although its version is lower.
    method StartMatch(room: MatchRoom, now: int, wall: int, writeFails: bool) returns (reply: Reply)
      requires Coherent(room) && ProperRoom(room) && now > 0
      modifies this
      ensures Coherent(room) && OthersKept(room.id)
      ensures reply == if writeFails then IGNORED
                       else Reply(true, [MatchStart, StateSync(InitialSnapshot(oracle, room, now))])
      ensures Wrote(room.id, InitialSnapshot(oracle, room, now), writeFails)
    {
      ClearCachedSnapshot(room.id);
      var s, stored := StoreNewMatch(room, now, wall, writeFails);
      reply := if stored then Reply(true, [MatchStart, StateSync(s)]) else IGNORED;
    }

    // The same with a read for a cue movement, which takes no lock on the match, falling between
    // the two halves: it may put the old match back in the cache, and then the new one is refused
    // unless the old one never got past its first turn.
    method InterruptedStart(room: MatchRoom, now: int, wall: int, readFails: bool, writeFails: bool)
      returns (stored: bool)
      requires Coherent(room) && ProperRoom(room) && now > 0
      modifies this
      ensures Coherent(room) && OthersKept(room.id)
      ensures var recached := room.id in old(persisted) && !readFails;
        var refused := recached && !FirstTurnBefore(old(persisted)[room.id], now);
        && (stored <==> !refused && !writeFails)
        && persisted == (if stored then old(persisted)[room.id := InitialSnapshot(oracle, room, now)]
                         else old(persisted))
        && (refused ==> room.id in snapshots && snapshots[room.id] == old(persisted)[room.id])
    {
      ClearCachedSnapshot(room.id);
      var read, found := GetCanonicalSnapshot(room, wall, readFails);
      if found {
        NewMatchIsNewerExactlyWhen(oracle, room, read, now);
        ReachableIsStorable(oracle, room, read, wall);
      }
      var s := NewInitialMatchSnapshot(oracle, room, now);
      InitialReachable(oracle, room, now);
      ReachableIsStorable(oracle, room, s, wall);
      stored := StoreCanonicalSnapshot(room.id, s, wall, writeFails);
    }

    // ---- Reconciliation

    method ReconcileMatchState(room: MatchRoom, now: int, wall: int, faults: Faults)
      returns (snapshot: Snapshot, changed: bool, ok: bool)
      requires Coherent(room) && ProperRoom(room) && now > 0 && wall > 0
      modifies this
      ensures Coherent(room) && OthersKept(room.id)
      ensures !room.row.status.Playing? ==>
        !ok && TimersOf(room.id) == old(TimersOf(room.id)) && snapshots == old(snapshots)
      ensures Handled(room, Event.Reconcile(now), wall, faults)
      ensures var loaded := old(LoadedFor(room, Event.Reconcile(now), wall, faults));
        && (ok <==> loaded.Some? && (ReconcileStep(oracle, room, loaded.value, now).kind.Idle? || !faults.write))
        && (ok ==> var o := ReconcileStep(oracle, room, loaded.value, now);
              snapshot == o.next && (changed <==> !o.kind.Idle?))
      ensures ok ==> room.id in persisted && snapshot == persisted[room.id] && UpToDate(room.id, snapshot)
      ensures !ok && room.row.status.Playing? ==> Forgotten(room.id)
    {
      snapshot, changed, ok := *, false, false;
      if !room.row.status.Playing? {
        return;
      }
      var s, have := EnsureCanonicalSnapshot(room, wall, wall, faults);
      if have {
        snapshot, changed, ok := ReconcileOn(room, s, now, wall, faults.write);
      }
    }

    // The reconciliation of a loaded snapshot.
    method ReconcileOn(room: MatchRoom, s: Snapshot, now: int, wall: int, writeFails: bool)
      returns (snapshot: Snapshot, changed: bool, ok: bool)
      requires Coherent(room) && room.id in snapshots && snapshots[room.id] == s
      modifies this
      ensures Coherent(room) && OthersKept(room.id)
      ensures var o := ReconcileStep(oracle, room, s, now);
        && Took(room.id, s, o, writeFails)
        && (ok <==> o.kind.Idle? || !writeFails)
        && (ok ==> snapshot == o.next && (changed <==> !o.kind.Idle?))
      ensures if ok then UpToDate(room.id, snapshot) else Forgotten(room.id)
    {
      ReachableIsStorable(oracle, room, s, wall);
      snapshot, changed, ok := s, false, true;
      var next := s;
      if s.status == Aiming && s.winner == "" && ClockStarted(s) && TurnExpired(s, now) {
        next, changed := TurnTimeoutOutcome(room, s, now), true;
      } else if s.status == Aiming && s.winner == "" && TurnPrepareDue(s, now) {
        next, changed := StartTurnClock(s, now), true;
      } else if ShotResultExpired(s, now) {
        next, changed := ApplyShotResultTimeout(oracle, room, s, now);
      }
      if !changed {
        SyncMatchTimers(room.id, s, wall);
        return;
      }
      ok := StoreStep(room, s, Event.Reconcile(now), next, wall, writeFails);
      if !ok {
        return s, false, false;
      }
      snapshot := next;
    }

    // ---- Client events

    method HandleTurnReady(room: MatchRoom, user: string, matchID: string, turnSeq: int, now: int, wall: int,
                           faults: Faults)
      returns (reply: Reply)
      requires Coherent(room) && ProperRoom(room) && wall > 0
      modifies this
      ensures Coherent(room) && OthersKept(room.id)
      ensures Handled(room, TurnReady(user, matchID, turnSeq, now), wall, faults)
      ensures Replied(room, TurnReady(user, matchID, turnSeq, now), wall, faults, reply)
      ensures Spares(room, TurnReady(user, matchID, turnSeq, now))
    {
      reply := IGNORED;
      if !room.row.status.Playing? {
        return;
      }
      if !Player(room, user) || turnSeq < 0 || !ForRoom(matchID, room) {
        if room.id in persisted {
          MalformedIsIdle(oracle, room, persisted[room.id], TurnReady(user, matchID, turnSeq, now));
        }
        return;
      }
      var s, ok := EnsureCanonicalSnapshot(room, wall, wall, faults);
      if ok {
        ghost var o := Step(oracle, room, s, TurnReady(user, matchID, turnSeq, now));
        OverwrittenAtOnce(old(persisted), room.id, s, Kept(s, o, faults.write));
        reply := ReadyOn(room, s, user, matchID, turnSeq, now, wall, faults.write);
      }
    }

    // turn_ready on a loaded snapshot.
    method ReadyOn(room: MatchRoom, s: Snapshot, user: string, matchID: string, turnSeq: int, now: int, wall: int,
                   writeFails: bool)
      returns (reply: Reply)
      requires Coherent(room) && room.row.status.Playing? && room.id in snapshots && snapshots[room.id] == s
      requires turnSeq >= 0 && ForRoom(matchID, room)
      modifies this
      ensures Coherent(room) && OthersKept(room.id)
      ensures Took(room.id, s, Step(oracle, room, s, TurnReady(user, matchID, turnSeq, now)), writeFails)
      ensures reply == Answer(oracle, room, s, TurnReady(user, matchID, turnSeq, now), writeFails)
      ensures Spares(room, TurnReady(user, matchID, turnSeq, now))
    {
      if s.status != Aiming || s.winner != "" || s.turnUserID != user || (turnSeq > 0 && turnSeq != s.turnSeq) {
        return IGNORED;
      }
      if ClockStarted(s) {
        return Reply(true, [StateSync(s)]);
      }
      ReachableIsStorable(oracle, room, s, wall);
      var ready := StartTurnClock(s, now);
      var stored := StoreStep(room, s, TurnReady(user, matchID, turnSeq, now), ready, wall, writeFails);
      reply := if stored then Reply(true, [StateSync(ready)]) else IGNORED;
    }

    method HandleShotStarted(room: MatchRoom, user: string, matchID: string, angle: real, power: real,
                             now: int, wall: int, faults: Faults)
      returns (reply: Reply)
      requires Coherent(room) && ProperRoom(room) && wall > 0
      modifies this
      ensures Coherent(room) && OthersKept(room.id)
      ensures Handled(room, ShotStarted(user, matchID, angle, power, now), wall, faults)
      ensures Replied(room, ShotStarted(user, matchID, angle, power, now), wall, faults, reply)
      ensures forall m :: m in reply.messages && m.ShotFired? ==>
        m.shot.angle == angle && m.shot.power == power && m.shot.shooter == user && m.shot.matchID == room.id
      ensures Spares(room, ShotStarted(user, matchID, angle, power, now))
    {
      reply := IGNORED;
      if !room.row.status.Playing? {
        return;
      }
      if !Player(room, user) || power <= 0.0 || power > 100.0 || !ForRoom(matchID, room) {
        if room.id in persisted {
          MalformedIsIdle(oracle, room, persisted[room.id], ShotStarted(user, matchID, angle, power, now));
        }
        return;
      }
      var s, ok := EnsureCanonicalSnapshot(room, wall, wall, faults);
      if ok {
        ghost var o := Step(oracle, room, s, ShotStarted(user, matchID, angle, power, now));
        OverwrittenAtOnce(old(persisted), room.id, s, Kept(s, o, faults.write));
        reply := FireOn(room, s, user, matchID, angle, power, now, wall, faults.write);
      }
    }

    // shot_started on a loaded snapshot.
    method FireOn(room: MatchRoom, s: Snapshot, user: string, matchID: string, angle: real, power: real, now: int,
                  wall: int, writeFails: bool)
      returns (reply: Reply)
      requires Coherent(room) && room.row.status.Playing? && room.id in snapshots && snapshots[room.id] == s
      requires 0.0 < power <= 100.0 && ForRoom(matchID, room)
      modifies this
      ensures Coherent(room) && OthersKept(room.id)
      ensures Took(room.id, s, Step(oracle, room, s, ShotStarted(user, matchID, angle, power, now)), writeFails)
      ensures reply == Answer(oracle, room, s, ShotStarted(user, matchID, angle, power, now), writeFails)
      ensures forall m :: m in reply.messages && m.ShotFired? ==>
        m.shot.angle == angle && m.shot.power == power && m.shot.shooter == user && m.shot.matchID == room.id
      ensures Spares(room, ShotStarted(user, matchID, angle, power, now))
    {
      if s.status != Aiming || s.winner != "" || s.turnUserID != user || !ClockStarted(s) {
        return IGNORED;
      }
      if TurnExpired(s, now) {
        var late := TurnTimeoutOutcome(room, s, now);
        var timedOut := StoreStep(room, s, ShotStarted(user, matchID, angle, power, now), late, wall, writeFails);
        return if timedOut then Reply(true, [StateSync(late)]) else IGNORED;
      }
      var at := UpdateTimeAfter(s, now);
      var fired := ActiveShot(room.id, s.shotSeq + 1, user, angle, power, at);
      var next := s.(shotSeq := s.shotSeq + 1, status := Moving, turnStartedAt := 0, turnDeadlineAt := 0,
                     activeShot := Some(fired), updatedAt := at);
      var started := StoreStep(room, s, ShotStarted(user, matchID, angle, power, now), next, wall, writeFails);
      reply := if started then Reply(true, [ShotFired(fired)]) else IGNORED;
    }

    // A result is judged only against a snapshot that is there: this event never starts a match.
    method HandleShotResultSubmitted(room: MatchRoom, user: string, result: ShotResult, now: int, wall: int,
                                     faults: Faults)
      returns (reply: Reply)
      requires Coherent(room) && ProperRoom(room)
      modifies this
      ensures Coherent(room) && OthersKept(room.id)
      ensures Handled(room, ShotSubmitted(user, result, now), wall, faults)
      ensures Replied(room, ShotSubmitted(user, result, now), wall, faults, reply)
      ensures Spares(room, ShotSubmitted(user, result, now))
    {
      reply := IGNORED;
      if !room.row.status.Playing? {
        return;
      }
      if room.id in persisted {
        ReachableIsStorable(oracle, room, persisted[room.id], wall);
      }
      if !Player(room, user) || result.shotSeq < 0 || !ForRoom(result.matchID, room) {
        return;
      }
      var s, ok := GetCanonicalSnapshot(room, wall, faults.read);
      if ok {
        reply := JudgeOn(room, s, user, result, now, wall, faults.write);
      }
    }

    // shot_result_submitted on a loaded snapshot.
    method JudgeOn(room: MatchRoom, s: Snapshot, user: string, result: ShotResult, now: int, wall: int,
                   writeFails: bool)
      returns (reply: Reply)
      requires Coherent(room) && room.row.status.Playing? && room.id in snapshots && snapshots[room.id] == s
      requires result.shotSeq >= 0 && ForRoom(result.matchID, room)
      modifies this
      ensures Coherent(room) && OthersKept(room.id)
      ensures Took(room.id, s, Step(oracle, room, s, ShotSubmitted(user, result, now)), writeFails)
      ensures reply == Answer(oracle, room, s, ShotSubmitted(user, result, now), writeFails)
      ensures Spares(room, ShotSubmitted(user, result, now))
    {
      var next, applied := JudgeSubmission(room, s, user, result, now);
      if !applied {
        return IGNORED;
      }
      var stored := StoreStep(room, s, ShotSubmitted(user, result, now), next, wall, writeFails);
      reply := if stored then Reply(true, [StateSync(next)]) else IGNORED;
    }

    method JudgeSubmission(room: MatchRoom, s: Snapshot, user: string, result: ShotResult, now: int)
      returns (next: Snapshot, applied: bool)
      requires result.shotSeq >= 0 && ForRoom(result.matchID, room)
      ensures var o := Step(oracle, room, s, ShotSubmitted(user, result, now));
        next == o.next && (applied <==> !o.kind.Idle?)
    {
      if s.activeShot.None? || s.activeShot.value.shooter != user {
        return s, false;
      }
      next, applied := ApplyShotResult(oracle, room, s, result, now);
    }

    predicate LandedAt(roomID: string, before: map<string, Snapshot>, landing: Landing)
      reads this
    {
      && persisted == before[roomID := landing.stored]
      && if landing.written then UpToDate(roomID, landing.stored) else Forgotten(roomID)
    }

    // A game event in a room that is playing is handled on a reconciled snapshot, be it the stored
    // one or that of a match it starts; when a step fails to persist, the match stands where the
    // last stored step left it. In another room nothing happens.
    method HandleRoomClientEvent(room: MatchRoom, e: Event, before: int, wall: int, faults: Faults, faults': Faults)
      returns (reply: Reply)
      requires Coherent(room) && ProperRoom(room) && before > 0 && wall > 0 && !e.Reconcile?
      modifies this
      ensures Coherent(room) && OthersKept(room.id)
      ensures !room.row.status.Playing? ==>
        reply == IGNORED && persisted == old(persisted) && snapshots == old(snapshots) &&
        TimersOf(room.id) == old(TimersOf(room.id))
      ensures room.row.status.Playing? ==>
        var loaded := old(Loaded(room, wall, faults));
        if loaded.None? then reply == IGNORED && persisted == old(persisted) && Forgotten(room.id)
        else
          var landing := Landed(oracle, room, loaded.value, before, e, faults, faults');
          reply == landing.reply && LandedAt(room.id, old(persisted), landing)
    {
      if !room.row.status.Playing? {
        reply := Dispatch(room, e, wall, faults');
        return;
      }
      ghost var landing;
      reply, landing := HandleInPlay(room, e, before, wall, faults, faults');
    }

    method HandleInPlay(room: MatchRoom, e: Event, before: int, wall: int, faults: Faults, faults': Faults)
      returns (reply: Reply, ghost landing: Landing)
      requires Coherent(room) && ProperRoom(room) && room.row.status.Playing? && before > 0 && wall > 0 && !e.Reconcile?
      modifies this
      ensures Coherent(room) && OthersKept(room.id)
      ensures var loaded := old(Loaded(room, wall, faults));
        if loaded.None? then persisted == old(persisted) && Forgotten(room.id) && landing.reply == IGNORED
        else
          && landing == Landed(oracle, room, loaded.value, before, e, faults, faults')
          && LandedAt(room.id, old(persisted), landing)
      ensures reply == landing.reply
    {
      var ok, synced;
      ghost var mid;
      ok, synced, mid, landing := ReconcileFirst(room, e, before, wall, faults, faults');
      reply := IGNORED;
      if ok {
        reply := DispatchOn(room, old(persisted), mid, landing, synced, e, wall, faults');
      }
    }

    // The first half: either it settles where the match has landed, or the event is still to be
    // taken from the reconciled snapshot.
    method ReconcileFirst(room: MatchRoom, ghost e: Event, before: int, wall: int, faults: Faults,
                          ghost faults': Faults)
      returns (ok: bool, synced: seq<Message>, ghost mid: Snapshot, ghost landing: Landing)
      requires Coherent(room) && ProperRoom(room) && room.row.status.Playing? && before > 0 && wall > 0
      modifies this
      ensures Coherent(room) && OthersKept(room.id)
      ensures var loaded := old(Loaded(room, wall, faults));
        if loaded.None? then !ok && persisted == old(persisted)
        else
          && landing == Landed(oracle, room, loaded.value, before, e, faults, faults')
          && persisted == old(persisted)[room.id := if ok then mid else landing.stored]
      ensures if ok then UpToDate(room.id, mid) && landing == LandedFrom(oracle, room, mid, e, faults'.write, synced)
              else Forgotten(room.id) && !landing.written && landing.reply == IGNORED
    {
      var snapshot;
      ok, snapshot, synced := ReconcileAndPublish(room, before, wall, faults);
      mid := snapshot;
      landing := if ok then LandedFrom(oracle, room, mid, e, faults'.write, synced)
                 else if room.id in persisted then Landing(persisted[room.id], IGNORED, false)
                 else Landing(mid, IGNORED, false);
    }

    // What client events and timer firings have in common.
    method ReconcileAndPublish(room: MatchRoom, now: int, wall: int, faults: Faults)
      returns (ok: bool, snapshot: Snapshot, messages: seq<Message>)
      requires Coherent(room) && ProperRoom(room) && room.row.status.Playing? && now > 0 && wall > 0
      modifies this
      ensures Coherent(room) && OthersKept(room.id)
      ensures if ok then UpToDate(room.id, snapshot) && !FadesOut(room) else Forgotten(room.id) && messages == []
      ensures var loaded := old(Loaded(room, wall, faults));
        if loaded.None? then !ok && persisted == old(persisted)
        else
          var o := ReconcileStep(oracle, room, loaded.value, now);
          && persisted == old(persisted)[room.id := Kept(loaded.value, o, faults.write)]
          && (ok <==> o.kind.Idle? || !faults.write)
          && (ok ==> snapshot == o.next && messages == Synced(o))
    {
      var changed;
      snapshot, changed, ok := ReconcileMatchState(room, now, wall, faults);
      messages := if ok && changed then [StateSync(snapshot)] else [];
      if ok {
        ReachableIsStorable(oracle, room, snapshot, wall);
      }
    }

    // The event on the snapshot just reconciled.
    method DispatchOn(room: MatchRoom, ghost before: map<string, Snapshot>, ghost s: Snapshot, ghost landing: Landing,
                      synced: seq<Message>, e: Event, wall: int, faults: Faults)
      returns (reply: Reply)
      requires Coherent(room) && ProperRoom(room) && room.row.status.Playing? && wall > 0 && !e.Reconcile?
      requires UpToDate(room.id, s) && persisted == before[room.id := s]
      requires landing == LandedFrom(oracle, room, s, e, faults.write, synced)
      modifies this
      ensures Coherent(room) && OthersKept(room.id)
      ensures reply == landing.reply && LandedAt(room.id, before, landing)
    {
      StepIsStorable(oracle, room, s, e);
      OverwrittenAtOnce(before, room.id, s, landing.stored);
      reply := Dispatch(room, e, wall, faults);
      reply := reply.(messages := synced + reply.messages);
    }

    method Dispatch(room: MatchRoom, e: Event, wall: int, faults: Faults) returns (reply: Reply)
      requires Coherent(room) && ProperRoom(room) && wall > 0 && !e.Reconcile?
      modifies this
      ensures Coherent(room) && OthersKept(room.id)
      ensures Handled(room, e, wall, faults)
      ensures Replied(room, e, wall, faults, reply)
      ensures Spares(room, e)
    {
      match e
      case TurnReady(user, matchID, turnSeq, now) =>
        reply := HandleTurnReady(room, user, matchID, turnSeq, now, wall, faults);
      case ShotStarted(user, matchID, angle, power, now) =>
        reply := HandleShotStarted(room, user, matchID, angle, power, now, wall, faults);
      case ShotSubmitted(user, result, now) =>
        reply := HandleShotResultSubmitted(room, user, result, now, wall, faults);
    }

    // ---- Timer firings. `load` says whether the room could be read back.

    // What a firing does to the match loaded for it, if any. When nothing can be loaded or the
    // write fails, the room is left uncached and with the timers `alone`.
    twostate predicate FiringReconciles(room: MatchRoom, loaded: Option<Snapshot>, now: int, writeFails: bool,
                                        alone: Timers, messages: seq<Message>)
      reads this
    {
      if loaded.None? then
        messages == [] && persisted == old(persisted) && room.id !in snapshots && TimersOf(room.id) == alone
      else
        var o := ReconcileStep(oracle, room, loaded.value, now);
        && persisted == old(persisted)[room.id := Kept(loaded.value, o, writeFails)]
        && if o.kind.Idle? || !writeFails then messages == Synced(o) && UpToDate(room.id, o.next)
           else messages == [] && room.id !in snapshots && TimersOf(room.id) == alone
    }

    // What a firing leaves behind. `retry` is the table with the fired timer put back, whatever
    // was there, `dropped` the table without it, and `alone` the fired timer by itself: a firing
    // that cannot load its room overwrites even a newer entry with its own, and one that finds its
    // room not playing drops even a newer entry. One that reconciles leaves exactly the timer the
    // stored snapshot calls for, or its own if that fails. In a room that is playing no match
    // fades out.
    twostate predicate TimerFired(room: MatchRoom, load: bool, now: int, wall: int, faults: Faults, retry: Timers,
                                  dropped: Timers, alone: Timers, messages: seq<Message>)
      reads this
    {
      && (!load || !room.row.status.Playing? ==>
            && messages == [] && persisted == old(persisted) && snapshots == old(snapshots)
            && TimersOf(room.id) == if load then dropped else retry)
      && (load && room.row.status.Playing? ==>
            FiringReconciles(room, old(Loaded(room, wall, faults)), now, faults.write, alone, messages))
      && (room.row.status.Playing? ==> !FadesOut(room))
    }

    // A firing on a room that is still playing reconciles it; if it cannot, it comes back.
    method HandlePrepareTimer(room: MatchRoom, turnSeq: int, load: bool, now: int, wall: int, faults: Faults)
      returns (messages: seq<Message>)
      requires Coherent(room) && ProperRoom(room) && now > 0 && wall > 0
      modifies this
      ensures Coherent(room) && OthersKept(room.id)
      ensures TimerFired(room, load, now, wall, faults, old(TimersOf(room.id)).(prepare := Some(turnSeq)),
                         old(TimersOf(room.id)).(prepare := None), NO_TIMERS.(prepare := Some(turnSeq)), messages)
    {
      messages := [];
      ForgetPrepareTimer(room.id, turnSeq);
      if !load {
        ReschedulePrepareTimer(room.id, turnSeq);
        return;
      }
      if !room.row.status.Playing? {
        CancelPrepareTimer(room.id);
        return;
      }
      var ok, snapshot;
      ok, snapshot, messages := ReconcileAndPublish(room, now, wall, faults);
      if !ok {
        ReschedulePrepareTimer(room.id, turnSeq);
      }
    }

    method HandleShotTimer(room: MatchRoom, shotSeq: int, load: bool, now: int, wall: int, faults: Faults)
      returns (messages: seq<Message>)
      requires Coherent(room) && ProperRoom(room) && now > 0 && wall > 0
      modifies this
      ensures Coherent(room) && OthersKept(room.id)
      ensures TimerFired(room, load, now, wall, faults, old(TimersOf(room.id)).(shot := Some(shotSeq)),
                         old(TimersOf(room.id)).(shot := None), NO_TIMERS.(shot := Some(shotSeq)), messages)
    {
      messages := [];
      ForgetShotTimer(room.id, shotSeq);
      if !load {
        RescheduleShotTimer(room.id, shotSeq);
        return;
      }
      if !room.row.status.Playing? {
        CancelShotTimer(room.id);
        return;
      }
      var ok, snapshot;
      ok, snapshot, messages := ReconcileAndPublish(room, now, wall, faults);
      if !ok {
        RescheduleShotTimer(room.id, shotSeq);
      }
    }

    method HandleTurnTimer(room: MatchRoom, turnSeq: int, load: bool, now: int, wall: int, faults: Faults)
      returns (messages: seq<Message>)
      requires Coherent(room) && ProperRoom(room) && now > 0 && wall > 0
      modifies this
      ensures Coherent(room) && OthersKept(room.id)
      ensures TimerFired(room, load, now, wall, faults, old(TimersOf(room.id)).(turn := Some(TurnTimer(turnSeq, 0))),
                         old(TimersOf(room.id)).(turn := None), NO_TIMERS.(turn := Some(TurnTimer(turnSeq, 0))),
                         messages)
    {
      messages := [];
      ForgetTurnTimer(room.id, turnSeq);
      if !load {
        RescheduleTurnTimer(room.id, turnSeq);
        return;
      }
      if !room.row.status.Playing? {
        CancelTurnTimer(room.id);
        return;
      }
      var ok, snapshot;
      ok, snapshot, messages := ReconcileAndPublish(room, now, wall, faults);
      if !ok {
        RescheduleTurnTimer(room.id, turnSeq);
      }
    }
  }
}
