/** States the rooms table can come to, with which users: scripts of whole transactions, and how
    the rule of one active room is broken by what clients and timers really send. */
module RoomReach {
  import opened Base
  import opened LockOrder
  import opened RoomRows
  import opened RoomTable
  import opened RoomRuns
  import opened RoomRepository

  // Only these users take part.
  predicate OpWithin(op: Op, users: iset<string>) {
    op.Rematch? || op.user in users
  }

  predicate StepWithin(step: Step, users: iset<string>) {
    step.Begin? ==> OpWithin(step.op, users)
  }

  predicate Within(steps: seq<Step>, users: iset<string>) {
    forall i :: 0 <= i < |steps| ==> StepWithin(steps[i], users)
  }

  ghost predicate Comes(s: State, steps: seq<Step>, users: iset<string>, key: string -> int) {
    Within(steps, users) && Run(EMPTY, steps, key) == s
  }

  ghost predicate Reachable(s: State, users: iset<string>, key: string -> int) {
    exists steps :: Comes(s, steps, users, key)
  }

  lemma StartIsReachable(users: iset<string>, key: string -> int)
    ensures Reachable(Nobody(map[]), users, key)
  {
    assert Comes(Nobody(map[]), [], users, key);
  }

  lemma OneMore(s: State, step: Step, users: iset<string>, key: string -> int)
    requires Reachable(s, users, key) && StepWithin(step, users)
    ensures Reachable(Next(s, step, key), users, key)
  {
    var steps :| Comes(s, steps, users, key);
    assert (steps + [step])[..|steps|] == steps;
    assert Comes(Next(s, step, key), steps + [step], users, key);
  }

  // Sweeps under way do not touch what other steps do.
  function Beside(s: State, sweeps: map<int, set<string>>): State {
    s.(sweeps := sweeps)
  }

  lemma OneMoreBeside(s: State, step: Step, sweeps: map<int, set<string>>, users: iset<string>, key: string -> int)
    requires Reachable(Beside(s, sweeps), users, key) && StepWithin(step, users) && !step.ReadSweep? && !step.Sweep?
    ensures Reachable(Beside(Next(s, step, key), sweeps), users, key)
  {
    OneMore(Beside(s, sweeps), step, users, key);
    SweepsDoNotMatter(s, step, sweeps, key);
  }

  lemma SweepsDoNotMatter(s: State, step: Step, sweeps: map<int, set<string>>, key: string -> int)
    requires !step.ReadSweep? && !step.Sweep?
    ensures Next(Beside(s, sweeps), step, key) == Beside(Next(s, step, key), sweeps)
  {
    assert Enabled(Beside(s, sweeps), step, key) <==> Enabled(s, step, key);
  }

  // Each transaction can be played out with no other around.
  lemma PlayOut(rooms: map<string, Room>, sweeps: map<int, set<string>>, op: Op, now: int, id: string,
                users: iset<string>, key: string -> int)
    requires Reachable(Beside(Nobody(rooms), sweeps), users, key) && OpWithin(op, users)
    ensures Reachable(Beside(Alone(rooms, 0, op, now, id, key), sweeps), users, key)
  {
    var s0 := Nobody(rooms);
    OneMoreBeside(s0, Begin(0, op), sweeps, users, key);
    var s1 := Next(s0, Begin(0, op), key);
    OneMoreBeside(s1, LockRow(0, now), sweeps, users, key);
    var s2 := Next(s1, LockRow(0, now), key);
    OneMoreBeside(s2, LockUser(0), sweeps, users, key);
    OneMoreBeside(Next(s2, LockUser(0), key), LockUser(0), sweeps, users, key);
    var s3 := LocksTwice(s2, 0, key);
    OneMoreBeside(s3, Check(0), sweeps, users, key);
    OneMoreBeside(Next(s3, Check(0), key), Check(0), sweeps, users, key);
    OneMoreBeside(ChecksTwice(s3, 0, key), Commit(0, now, id), sweeps, users, key);
  }

  lemma Leaves(rooms: map<string, Room>, sweeps: map<int, set<string>>, room: string, user: string,
               users: iset<string>, key: string -> int)
    requires Reachable(Beside(Nobody(rooms), sweeps), users, key) && user in users && room in rooms
    ensures Reachable(Beside(Nobody(rooms[room := Left(rooms[room], user, 0)]), sweeps), users, key)
  {
    PlayOut(rooms, sweeps, Leave(room, user), 0, "", users, key);
    LeaveAlone(rooms, 0, room, user, 0, "", key);
  }

  lemma Joins(rooms: map<string, Room>, sweeps: map<int, set<string>>, room: string, user: string,
              users: iset<string>, key: string -> int)
    requires Reachable(Beside(Nobody(rooms), sweeps), users, key) && user in users && room in rooms
    requires JoinRefusal(rooms[room], user, 0).None? && !HasActiveRoom(rooms, user, Some(room))
    ensures Reachable(Beside(Nobody(rooms[room := Joined(rooms[room], user)]), sweeps), users, key)
  {
    PlayOut(rooms, sweeps, Join(room, user), 0, "", users, key);
    JoinAlone(rooms, 0, room, user, 0, "", key);
  }

  lemma Happens(rooms: map<string, Room>, sweeps: map<int, set<string>>, room: string, st: Statement,
                users: iset<string>, key: string -> int)
    requires Reachable(Beside(Nobody(rooms), sweeps), users, key) && room in rooms && Matches(st, rooms[room])
    ensures Reachable(Beside(Nobody(rooms[room := Updated(st, rooms[room])]), sweeps), users, key)
  {
    OneMoreBeside(Nobody(rooms), Single(room, st), sweeps, users, key);
    assert Next(Nobody(rooms), Single(room, st), key) == Nobody(rooms[room := Updated(st, rooms[room])]);
  }

  // ---- A match played to its end

  predicate Idle(rooms: map<string, Room>, user: string) {
    forall r :: r in rooms ==> !(Active(rooms[r]) && Seats(rooms[r], user))
  }

  lemma IdleHasNoActiveRoom(rooms: map<string, Room>, user: string, exclude: Option<string>)
    requires Idle(rooms, user)
    ensures !HasActiveRoom(rooms, user, exclude)
  {
  }

  function FinishedRoom(creator: string, opponent: string): Room {
    NewRoom(creator, 0).(status := Finished, opponent := Some(opponent))
  }

  lemma RoomOpens(rooms: map<string, Room>, id: string, a: string, users: iset<string>, key: string -> int)
    requires Reachable(Nobody(rooms), users, key) && id !in rooms && a in users && Idle(rooms, a)
    ensures Reachable(Nobody(rooms[id := NewRoom(a, 0)]), users, key)
  {
    IdleHasNoActiveRoom(rooms, a, None);
    PlayOut(rooms, map[], Create(a), 0, id, users, key);
    CreateAlone(rooms, 0, a, 0, id, key);
  }

  lemma FreeElsewhere(rooms: map<string, Room>, id: string, row: Room, user: string)
    requires Idle(rooms, user)
    ensures !HasActiveRoom(rooms[id := row], user, Some(id))
  {
  }

  lemma RoomFills(rooms: map<string, Room>, id: string, a: string, b: string, users: iset<string>, key: string -> int)
    requires Reachable(Nobody(rooms), users, key) && id !in rooms && a in users && b in users && a != b
    requires Idle(rooms, a) && Idle(rooms, b)
    ensures Reachable(Nobody(rooms[id := Joined(NewRoom(a, 0), b)]), users, key)
  {
    RoomOpens(rooms, id, a, users, key);
    var waiting := rooms[id := NewRoom(a, 0)];
    FreeElsewhere(rooms, id, NewRoom(a, 0), b);
    Joins(waiting, map[], id, b, users, key);
    assert waiting[id := Joined(NewRoom(a, 0), b)] == rooms[id := Joined(NewRoom(a, 0), b)];
  }

  lemma MatchIsPlayed(rooms: map<string, Room>, id: string, a: string, b: string, users: iset<string>,
                      key: string -> int)
    requires Reachable(Nobody(rooms), users, key) && id !in rooms && a in users && b in users && a != b
    requires Idle(rooms, a) && Idle(rooms, b)
    ensures Reachable(Nobody(rooms[id := FinishedRoom(a, b)]), users, key)
  {
    RoomFills(rooms, id, a, b, users, key);
    var full := rooms[id := Joined(NewRoom(a, 0), b)];
    Happens(full, map[], id, Start, users, key);
    var playing := rooms[id := Joined(NewRoom(a, 0), b).(status := Playing)];
    assert full[id := playing[id]] == playing;
    Happens(playing, map[], id, Finish, users, key);
    assert playing[id := FinishedRoom(a, b)] == rooms[id := FinishedRoom(a, b)];
  }

  // ---- One active room, broken by what is really sent

  // The creator of a finished room has opened another.
  function MovedOn(over: Room): map<string, Room> {
    map["1" := over, "2" := NewRoom(over.creator, 0)]
  }

  lemma TheCreatorMovesOn(a: string, b: string, users: iset<string>, key: string -> int)
    requires a in users && b in users && a != b
    ensures Reachable(Nobody(MovedOn(FinishedRoom(a, b))), users, key)
  {
    StartIsReachable(users, key);
    MatchIsPlayed(map[], "1", a, b, users, key);
    var over := map["1" := FinishedRoom(a, b)];
    assert map[]["1" := FinishedRoom(a, b)] == over;
    RoomOpens(over, "2", a, users, key);
    assert over["2" := NewRoom(a, 0)] == MovedOn(FinishedRoom(a, b));
  }

  lemma ReopeningOneSeatsTwice(over: Room, again: Room)
    requires !Active(over) && Active(again) && again.creator == over.creator != ""
    ensures OneActiveRoom(MovedOn(over)) && !OneActiveRoom(MovedOn(over)["1" := again])
  {
    var after := MovedOn(over)["1" := again];
    assert ActiveIn(after, "1", over.creator) && ActiveIn(after, "2", over.creator) && "1" != "2";
  }

  // Between any two users: the match is over, the creator waits in a new room, and the opponent
  // leaves the old one. The old room waits again, with the creator in it.
  lemma LeavingSeatsTheCreatorTwice(a: string, b: string, now: int, users: iset<string>, key: string -> int)
    requires a in users && b in users && a != b && a != ""
    ensures var rooms := MovedOn(FinishedRoom(a, b));
      && Reachable(Nobody(rooms), users, key) && OneActiveRoom(rooms)
      && !OneActiveRoom(Alone(rooms, 0, Leave("1", b), now, "", key).rooms)
  {
    TheCreatorMovesOn(a, b, users, key);
    LeaveAlone(MovedOn(FinishedRoom(a, b)), 0, "1", b, now, "", key);
    ReopeningOneSeatsTwice(FinishedRoom(a, b), Left(FinishedRoom(a, b), b, now));
  }

  // The finished room once the opponent's connection was marked lost.
  function LostRoom(a: string, b: string, conn: string, at: int): Room {
    FinishedRoom(a, b).(opponentConn := Some(conn), opponentDownAt := Some(at))
  }

  lemma TheOpponentIsLost(a: string, b: string, conn: string, at: int, users: iset<string>, key: string -> int)
    requires a in users && b in users && a != b
    ensures Reachable(Nobody(MovedOn(LostRoom(a, b, conn, at))), users, key)
  {
    TheCreatorMovesOn(a, b, users, key);
    var rooms := MovedOn(FinishedRoom(a, b));
    Happens(rooms, map[], "1", MarkOpponentConnected(b, conn), users, key);
    var back := MovedOn(FinishedRoom(a, b).(opponentConn := Some(conn)));
    assert rooms["1" := back["1"]] == back;
    Happens(back, map[], "1", MarkOpponentDisconnected(b, conn, at), users, key);
    assert back["1" := LostRoom(a, b, conn, at)] == MovedOn(LostRoom(a, b, conn, at));
  }

  // The same, with the opponent's disconnect timer in place of the opponent's leaving.
  lemma ReleasingSeatsTheCreatorTwice(a: string, b: string, conn: string, at: int, before: int, now: int,
                                      users: iset<string>, key: string -> int)
    requires a in users && b in users && a != b && a != "" && at <= before
    ensures var rooms := MovedOn(LostRoom(a, b, conn, at));
      && Reachable(Nobody(rooms), users, key) && OneActiveRoom(rooms)
      && !OneActiveRoom(Next(Nobody(rooms), Single("1", ReleaseIfOpponentDisconnected(before, now)), key).rooms)
  {
    TheOpponentIsLost(a, b, conn, at, users, key);
    var over := LostRoom(a, b, conn, at);
    var s := Nobody(MovedOn(over));
    assert Enabled(s, Single("1", ReleaseIfOpponentDisconnected(before, now)), key);
    ReopeningOneSeatsTwice(over, Vacated(over, now));
  }

  // ---- The same between a check and its commit

  // A transaction that has found its user free and is about to open a room.
  function Opening(user: string): Txn {
    Txn(Create(user), None, [user], [], [user], [])
  }

  function Leaving(room: string, user: string, row: Room): Txn {
    Txn(Leave(room, user), Some(row), [], [], [], [])
  }

  lemma CreationIsPrepared(rooms: map<string, Room>, a: string, users: iset<string>, key: string -> int)
    requires Reachable(Nobody(rooms), users, key) && a in users && a != "" && Idle(rooms, a)
    ensures Reachable(One(rooms, 0, Opening(a)), users, key)
  {
    IdleHasNoActiveRoom(rooms, a, None);
    OneMore(Nobody(rooms), Begin(0, Create(a)), users, key);
    assert Next(Nobody(rooms), Begin(0, Create(a)), key) == One(rooms, 0, Opened(Create(a)));
    assert InLockOrder([a]) == [a];
    OneMore(One(rooms, 0, Opened(Create(a))), LockUser(0), users, key);
    LocksOnce(rooms, 0, Opened(Create(a)), key);
    assert [] + [a] == [a] && [a][1..] == [];
    var locked := Txn(Create(a), None, [a], [], [], [a]);
    assert Next(One(rooms, 0, Opened(Create(a))), LockUser(0), key) == One(rooms, 0, locked);
    OneMore(One(rooms, 0, locked), Check(0), users, key);
    ChecksOnce(rooms, 0, locked, key);
  }

  // The opponent's leaving up to its commit, beside that transaction.
  lemma LeavingIsPrepared(rooms: map<string, Room>, room: string, a: string, b: string, users: iset<string>,
                          key: string -> int)
    requires Reachable(One(rooms, 0, Opening(a)), users, key) && room in rooms && b in users
    ensures var txns := map[0 := Opening(a), 1 := Leaving(room, b, rooms[room])];
      Reachable(One(rooms, 0, Opening(a)).(txns := txns), users, key)
  {
    var s := One(rooms, 0, Opening(a));
    OneMore(s, Begin(1, Leave(room, b)), users, key);
    var begun := s.(txns := map[0 := Opening(a), 1 := Opened(Leave(room, b))]);
    assert Next(s, Begin(1, Leave(room, b)), key) == begun;
    OneMore(begun, LockRow(1, 0), users, key);
    assert Enabled(begun, LockRow(1, 0), key);
    assert Next(begun, LockRow(1, 0), key) ==
      s.(txns := map[0 := Opening(a), 1 := Leaving(room, b, rooms[room])]);
  }

  // A match is over. Its creator asks for a new room and is found free; then the opponent leaves
  // the old one, whose creator is in no active room at that moment either; then the new room is
  // committed. Every reopening concerned players who were free, and the creator sits in two.
  lemma CommitAfterALeaveSeatsTwice(a: string, b: string, now: int, users: iset<string>, key: string -> int)
    requires a in users && b in users && a != b && a != ""
    ensures var over := FinishedRoom(a, b);
      var before := State(map["1" := over], map[0 := Opening(a), 1 := Leaving("1", b, over)], map[]);
      var between := One(map["1" := Left(over, b, now)], 0, Opening(a));
      && Reachable(before, users, key) && ReturnsFree(before, Commit(1, now, ""))
      && Next(before, Commit(1, now, ""), key) == between && OneActiveRoom(between.rooms)
      && !OneActiveRoom(Next(between, Commit(0, now, "2"), key).rooms)
  {
    var over := FinishedRoom(a, b);
    var rooms := map["1" := over];
    StartIsReachable(users, key);
    MatchIsPlayed(map[], "1", a, b, users, key);
    assert map[]["1" := over] == rooms;
    CreationIsPrepared(rooms, a, users, key);
    LeavingIsPrepared(rooms, "1", a, b, users, key);
    LeaveThenCommit(a, b, now, key);
  }

  lemma LeaveThenCommit(a: string, b: string, now: int, key: string -> int)
    requires a != b && a != ""
    ensures var over := FinishedRoom(a, b);
      var before := State(map["1" := over], map[0 := Opening(a), 1 := Leaving("1", b, over)], map[]);
      var between := One(map["1" := Left(over, b, now)], 0, Opening(a));
      && ReturnsFree(before, Commit(1, now, ""))
      && Next(before, Commit(1, now, ""), key) == between && OneActiveRoom(between.rooms)
      && !OneActiveRoom(Next(between, Commit(0, now, "2"), key).rooms)
  {
    var over := FinishedRoom(a, b);
    var before := State(map["1" := over], map[0 := Opening(a), 1 := Leaving("1", b, over)], map[]);
    var between := One(map["1" := Left(over, b, now)], 0, Opening(a));
    assert before.rooms["1" := Left(over, b, now)] == between.rooms;
    assert before.txns - {1} == between.txns;
    var after := between.rooms["2" := NewRoom(a, now)];
    assert Next(between, Commit(0, now, "2"), key).rooms == after;
    assert ActiveIn(after, "1", a) && ActiveIn(after, "2", a) && "1" != "2";
  }
}
