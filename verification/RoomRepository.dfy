/** The repository as one client sees it with nobody else around (repository.go), and why that
    is what its transactions do in RoomTable when nothing comes between their steps. */
module RoomRepository {
  import opened Base
  import opened LockOrder
  import opened RoomRows
  import opened RoomTable

  datatype Result = Done(room: Room) | Refused(error: JoinError)

  datatype LeaveRole = LeftAsCreator | LeftAsOpponent | LeftAsSpectator

  // ---- What each transaction answers

  ghost function CreateResult(rooms: map<string, Room>, user: string, now: int): Result {
    if HasActiveRoom(rooms, user, None) then Refused(InActiveRoom) else Done(NewRoom(user, now))
  }

  ghost function JoinResult(rooms: map<string, Room>, id: string, user: string, now: int): Result {
    if id !in rooms then Refused(RoomNotFound)
    else
      var refusal := JoinRefusal(rooms[id], user, now);
      if refusal.Some? then Refused(refusal.value)
      else if HasActiveRoom(rooms, user, Some(id)) then Refused(InActiveRoom)
      else Done(Joined(rooms[id], user))
  }

  ghost function RematchResult(rooms: map<string, Room>, id: string, now: int): Result {
    if id !in rooms || !CanRematch(rooms[id]) then Refused(RoomNotFound)
    else if HasActiveRoom(rooms, rooms[id].creator, Some(id)) ||
            HasActiveRoom(rooms, rooms[id].opponent.value, Some(id)) then
      Refused(InActiveRoom)
    else Done(Rematched(rooms[id], now))
  }

  // What each request answers, and when.
  lemma CreateAnswers(rooms: map<string, Room>, user: string, now: int)
    ensures var r := CreateResult(rooms, user, now);
      && (HasActiveRoom(rooms, user, None) ==> r == Refused(InActiveRoom))
      && (!HasActiveRoom(rooms, user, None) ==>
            r == Done(Room(user, None, Waiting, now + 300_000, None, None, None, None)))
  {
  }

  lemma JoinAnswers(rooms: map<string, Room>, id: string, user: string, now: int)
    ensures var r := JoinResult(rooms, id, user, now);
      && (r == Refused(RoomNotFound) <==> id !in rooms)
      && (id in rooms ==>
            var row := rooms[id];
            var late := row.status.Expired? || (row.opponent.None? && row.expiresAt < now);
            var there := row.creator == user || row.opponent == Some(user);
            var free := !late && row.status.Waiting? && !there && row.opponent.None?;
            && (r == Refused(RoomExpired) <==> late)
            && (r == Refused(NotWaiting) <==> !late && !row.status.Waiting?)
            && (r == Refused(AlreadyJoined) <==> !late && row.status.Waiting? && there)
            && (r == Refused(RoomFull) <==> !late && row.status.Waiting? && !there && row.opponent.Some?)
            && (r == Refused(InActiveRoom) <==> free && HasActiveRoom(rooms, user, Some(id)))
            && (r.Done? <==> free && !HasActiveRoom(rooms, user, Some(id)))
            && (r.Done? ==> r.room == row.(opponent := Some(user))))
  {
  }

  lemma RematchAnswers(rooms: map<string, Room>, id: string, now: int)
    ensures var r := RematchResult(rooms, id, now);
      var over := id in rooms && rooms[id].status.Finished? && rooms[id].opponent.Some?;
      && (!over ==> r == Refused(RoomNotFound))
      && (over ==>
            var row := rooms[id];
            var busy := HasActiveRoom(rooms, row.creator, Some(id)) ||
                        HasActiveRoom(rooms, row.opponent.value, Some(id));
            r == if busy then Refused(InActiveRoom)
                 else Done(row.(status := Playing, expiresAt := now + 600_000, creatorDownAt := None,
                                opponentDownAt := None)))
  {
  }

  lemma LeavingLeaves(row: Room, user: string, now: int)
    ensures row.creator == user ==>
      Left(row, user, now) == row.(status := Expired, creatorDownAt := None, opponentDownAt := None,
                                   creatorConn := None, opponentConn := None)
    ensures row.creator != user && row.opponent == Some(user) ==>
      Left(row, user, now) == row.(opponent := None, status := Waiting, expiresAt := now + 300_000,
                                   opponentDownAt := None, opponentConn := None)
    ensures row.creator != user && row.opponent != Some(user) ==> Left(row, user, now) == row
  {
  }

  function Stored(rooms: map<string, Room>, id: string, r: Result): map<string, Room> {
    if r.Done? then rooms[id := r.room] else rooms
  }

  class RoomRepository {
    var rooms: map<string, Room>

    constructor ()
      ensures rooms == map[]
    {
      rooms := map[];
    }

    method UserHasActiveRoom(user: string, exclude: Option<string>) returns (busy: bool)
      ensures busy == HasActiveRoom(rooms, user, exclude)
    {
      var ids := rooms.Keys;
      busy := false;
      while ids != {} && !busy
        invariant ids <= rooms.Keys
        invariant busy ==> HasActiveRoom(rooms, user, exclude)
        invariant !busy ==> forall r :: ActiveIn(rooms, r, user) && Some(r) != exclude ==> r in ids
        decreases |ids|
      {
        var r :| r in ids;
        if Active(rooms[r]) && Seats(rooms[r], user) && Some(r) != exclude {
          assert ActiveIn(rooms, r, user);
          busy := true;
        }
        ids := ids - {r};
      }
    }

    method CreateRoom(user: string, id: string, now: int) returns (r: Result)
      requires id !in rooms
      modifies this
      ensures r == CreateResult(old(rooms), user, now) && rooms == Stored(old(rooms), id, r)
    {
      var busy := UserHasActiveRoom(user, None);
      if busy {
        return Refused(InActiveRoom);
      }
      var room := NewRoom(user, now);
      rooms := rooms[id := room];
      r := Done(room);
    }

    method JoinRoom(id: string, user: string, now: int) returns (r: Result)
      modifies this
      ensures r == JoinResult(old(rooms), id, user, now) && rooms == Stored(old(rooms), id, r)
    {
      if id !in rooms {
        return Refused(RoomNotFound);
      }
      // The transaction's own view of the table; returning without a commit drops it.
      var view := rooms;
      var room := view[id];
      if room.status.Expired? || (room.opponent.None? && now > room.expiresAt) {
        view := view[id := room.(status := Expired)];
        return Refused(RoomExpired);
      }
      if !room.status.Waiting? {
        return Refused(NotWaiting);
      }
      if room.creator == user {
        return Refused(AlreadyJoined);
      }
      if room.opponent.Some? {
        if room.opponent.value == user {
          return Refused(AlreadyJoined);
        }
        return Refused(RoomFull);
      }
      var busy := UserHasActiveRoom(user, Some(id));
      if busy {
        return Refused(InActiveRoom);
      }
      room := room.(opponent := Some(user));
      view := view[id := room];
      rooms := view;
      r := Done(room);
    }

    method StartRematchRoom(id: string, now: int) returns (r: Result)
      modifies this
      ensures r == RematchResult(old(rooms), id, now) && rooms == Stored(old(rooms), id, r)
    {
      if id !in rooms {
        return Refused(RoomNotFound);
      }
      var room := rooms[id];
      if !room.status.Finished? || room.opponent.None? {
        return Refused(RoomNotFound);
      }
      var creatorBusy := UserHasActiveRoom(room.creator, Some(id));
      var opponentBusy := UserHasActiveRoom(room.opponent.value, Some(id));
      if creatorBusy || opponentBusy {
        return Refused(InActiveRoom);
      }
      room := room.(status := Playing, expiresAt := now + TEN_MINUTES, creatorDownAt := None, opponentDownAt := None);
      rooms := rooms[id := room];
      r := Done(room);
    }

    method LeaveRoom(id: string, user: string, now: int) returns (found: bool, role: LeaveRole)
      modifies this
      ensures found == (id in old(rooms))
      ensures rooms == if found then old(rooms)[id := Left(old(rooms)[id], user, now)] else old(rooms)
      ensures found ==> (role.LeftAsCreator? <==> old(rooms)[id].creator == user)
      ensures found ==> (role.LeftAsSpectator? <==> !Seats(old(rooms)[id], user))
    {
      found, role := id in rooms, LeftAsSpectator;
      if !found {
        return;
      }
      var room := rooms[id];
      if room.creator == user {
        role := LeftAsCreator;
        room := room.(status := Expired, creatorDownAt := None, opponentDownAt := None, creatorConn := None,
                      opponentConn := None);
      } else if room.opponent.Some? && room.opponent.value == user {
        role := LeftAsOpponent;
        room := room.(opponent := None, status := Waiting, expiresAt := now + FIVE_MINUTES, opponentDownAt := None,
                      opponentConn := None);
      }
      rooms := rooms[id := room];
    }

    // StartRoom, FinishRoom, the connection marks and the other guarded updates of one row.
    method UpdateRoom(id: string, st: Statement) returns (changed: bool)
      modifies this
      ensures changed == (id in old(rooms) && Matches(st, old(rooms)[id]))
      ensures rooms == if changed then old(rooms)[id := Updated(st, old(rooms)[id])] else old(rooms)
      ensures OneActiveRoom(old(rooms)) && !Reopens(Nobody(old(rooms)), Single(id, st)) ==> OneActiveRoom(rooms)
    {
      if id in rooms && Matches(st, rooms[id]) && OneActiveRoom(rooms) && !Reopens(Nobody(rooms), Single(id, st)) {
        UpdateSeatsNobodyTwice(rooms, id, st);
      }
      changed := id in rooms && Matches(st, rooms[id]);
      if changed {
        rooms := rooms[id := Updated(st, rooms[id])];
      }
    }
  }

  // What every guarded update of one row keeps: reopenings apart, it seats nobody, so it cannot
  // seat anybody twice.
  lemma UpdateSeatsNobodyTwice(rooms: map<string, Room>, id: string, st: Statement)
    requires !Reopens(Nobody(rooms), Single(id, st)) && OneActiveRoom(rooms) && id in rooms && Matches(st, rooms[id])
    ensures OneActiveRoom(rooms[id := Updated(st, rooms[id])])
  {
    forall user ensures !Enters(rooms, id, Updated(st, rooms[id]), user) {
      SingleSeatsNobody(Nobody(rooms), id, st, user);
    }
    SeatingKeepsOneActiveRoom(rooms, id, Updated(st, rooms[id]));
  }

  // A join that finds its room out of time writes that down and rolls it back: the room goes on
  // saying that it waits.
  lemma ExpiredJoinLeavesNoMark(rooms: map<string, Room>, t: int, room: string, user: string, now: int, id: string,
                                key: string -> int)
    requires room in rooms && JoinRefusal(rooms[room], user, now) == Some(RoomExpired)
    ensures JoinResult(rooms, room, user, now) == Refused(RoomExpired)
    ensures Alone(rooms, t, Join(room, user), now, id, key) == Nobody(rooms)
    ensures rooms[room].opponent.None? && !rooms[room].status.Expired? ==>
      now > rooms[room].expiresAt && Alone(rooms, t, Join(room, user), now, id, key).rooms[room] == rooms[room]
  {
    JoinAlone(rooms, t, room, user, now, id, key);
  }

  // ---- The same transactions, step by step and alone

  function One(rooms: map<string, Room>, t: int, x: Txn): State {
    State(rooms, map[t := x], map[])
  }

  function Nobody(rooms: map<string, Room>): State {
    State(rooms, map[], map[])
  }

  // Steps that are not for this kind of transaction, or come after its end, do nothing.
  ghost function Alone(rooms: map<string, Room>, t: int, op: Op, now: int, id: string, key: string -> int): State {
    var s := Next(Next(Nobody(rooms), Begin(t, op), key), LockRow(t, now), key);
    Next(ChecksTwice(LocksTwice(s, t, key), t, key), Commit(t, now, id), key)
  }

  ghost function LocksTwice(s: State, t: int, key: string -> int): State {
    Next(Next(s, LockUser(t), key), LockUser(t), key)
  }

  ghost function ChecksTwice(s: State, t: int, key: string -> int): State {
    Next(Next(s, Check(t), key), Check(t), key)
  }

  lemma LocksOnce(rooms: map<string, Room>, t: int, x: Txn, key: string -> int)
    ensures Next(One(rooms, t, x), LockUser(t), key) == One(rooms, t,
      if x.toLock == [] then x else Granted(x))
  {
  }

  lemma LocksAll(rooms: map<string, Room>, t: int, x: Txn, key: string -> int)
    requires |x.toLock| <= 2
    ensures LocksTwice(One(rooms, t, x), t, key) == One(rooms, t, x.(locked := x.locked + x.toLock, toLock := []))
  {
    LocksOnce(rooms, t, x, key);
    if x.toLock == [] {
      assert x.locked + x.toLock == x.locked;
    } else {
      var y := Granted(x);
      LocksOnce(rooms, t, y, key);
      assert |x.toLock| == 2 ==> y.locked + [y.toLock[0]] == x.locked + x.toLock && y.toLock[1..] == [];
      assert |x.toLock| == 1 ==> y.locked == x.locked + x.toLock && y.toLock == [];
    }
  }

  lemma ChecksOnce(rooms: map<string, Room>, t: int, x: Txn, key: string -> int)
    requires x.toLock == []
    ensures Next(One(rooms, t, x), Check(t), key) ==
      if x.toCheck == [] then One(rooms, t, x)
      else if HasActiveRoom(rooms, x.toCheck[0], RoomOf(x.op)) then Nobody(rooms)
      else One(rooms, t, x.(checked := x.checked + [x.toCheck[0]], toCheck := x.toCheck[1..]))
  {
  }

  lemma ChecksAll(rooms: map<string, Room>, t: int, x: Txn, key: string -> int)
    requires x.toLock == [] && |x.toCheck| <= 2
    ensures ChecksTwice(One(rooms, t, x), t, key) ==
      if AnyActive(rooms, x.toCheck, RoomOf(x.op)) then Nobody(rooms)
      else One(rooms, t, x.(checked := x.checked + x.toCheck, toCheck := []))
  {
    ChecksOnce(rooms, t, x, key);
    if x.toCheck == [] {
      assert x.checked + x.toCheck == x.checked;
    } else if !HasActiveRoom(rooms, x.toCheck[0], RoomOf(x.op)) {
      var y := x.(checked := x.checked + [x.toCheck[0]], toCheck := x.toCheck[1..]);
      ChecksOnce(rooms, t, y, key);
      assert |x.toCheck| == 2 ==> y.checked + [y.toCheck[0]] == x.checked + x.toCheck && y.toCheck[1..] == [];
      assert |x.toCheck| == 2 ==> y.toCheck[0] == x.toCheck[1];
      assert |x.toCheck| == 1 ==> y.checked == x.checked + x.toCheck && y.toCheck == [];
    }
  }

  lemma {:induction false} LockOrderIsShort(users: seq<string>)
    ensures |InLockOrder(users)| <= |users|
  {
    if users != [] {
      LockOrderIsShort(users[1..]);
      InsertAddsOne(users[0], InLockOrder(users[1..]));
    }
  }

  lemma {:induction false} InsertAddsOne(u: string, us: seq<string>)
    ensures |InsertUser(u, us)| <= |us| + 1
  {
    if us != [] && u != us[0] && !Less(u, us[0]) {
      InsertAddsOne(u, us[1..]);
    }
  }

  function Admitted(op: Op, row: Option<Room>, users: seq<string>): Txn {
    Txn(op, row, [], InLockOrder(users), [], users)
  }

  function Prepared(op: Op, row: Option<Room>, users: seq<string>): Txn {
    Txn(op, row, InLockOrder(users), [], users, [])
  }

  ghost predicate AnyActive(rooms: map<string, Room>, users: seq<string>, exclude: Option<string>) {
    exists i :: 0 <= i < |users| && HasActiveRoom(rooms, users[i], exclude)
  }

  lemma LocksAndChecks(rooms: map<string, Room>, t: int, op: Op, row: Option<Room>, users: seq<string>,
                       key: string -> int)
    requires |users| <= 2
    ensures ChecksTwice(LocksTwice(One(rooms, t, Admitted(op, row, users)), t, key), t, key) ==
      if AnyActive(rooms, users, RoomOf(op)) then Nobody(rooms) else One(rooms, t, Prepared(op, row, users))
  {
    LockOrderIsShort(users);
    LocksAll(rooms, t, Admitted(op, row, users), key);
    assert [] + InLockOrder(users) == InLockOrder(users) && [] + users == users;
    ChecksAll(rooms, t, Txn(op, row, InLockOrder(users), [], [], users), key);
  }

  // From an admitted transaction to its end.
  lemma FromAdmission(rooms: map<string, Room>, t: int, op: Op, row: Option<Room>, users: seq<string>, now: int,
                      id: string, key: string -> int)
    requires |users| <= 2 && Ready(Prepared(op, row, users)) && (op.Create? ==> id !in rooms)
    ensures var ready := ChecksTwice(LocksTwice(One(rooms, t, Admitted(op, row, users)), t, key), t, key);
      Next(ready, Commit(t, now, id), key) ==
      Nobody(if AnyActive(rooms, users, RoomOf(op)) then rooms
             else rooms[Target(Prepared(op, row, users), id) := Written(Prepared(op, row, users), now)])
  {
    LocksAndChecks(rooms, t, op, row, users, key);
    CommitAlone(rooms, t, Prepared(op, row, users), now, id, key);
  }

  lemma CommitAlone(rooms: map<string, Room>, t: int, x: Txn, now: int, id: string, key: string -> int)
    requires Ready(x) && (x.op.Create? ==> id !in rooms)
    ensures Next(One(rooms, t, x), Commit(t, now, id), key) == Nobody(rooms[Target(x, id) := Written(x, now)])
    ensures Next(Nobody(rooms), Commit(t, now, id), key) == Nobody(rooms)
  {
  }

  lemma NothingHappens(rooms: map<string, Room>, t: int, now: int, id: string, key: string -> int)
    ensures Next(ChecksTwice(LocksTwice(Nobody(rooms), t, key), t, key), Commit(t, now, id), key) == Nobody(rooms)
  {
    assert Next(Nobody(rooms), LockUser(t), key) == Nobody(rooms);
    assert Next(Nobody(rooms), Check(t), key) == Nobody(rooms);
  }

  lemma UpToTheRow(rooms: map<string, Room>, t: int, op: Op, now: int, key: string -> int)
    ensures Next(Next(Nobody(rooms), Begin(t, op), key), LockRow(t, now), key) ==
      if op.Create? then One(rooms, t, Opened(op))
      else if op.room in rooms && Admits(op, rooms[op.room], now) then
        One(rooms, t, WithRow(Opened(op), rooms[op.room]))
      else Nobody(rooms)
  {
    assert Next(Nobody(rooms), Begin(t, op), key) == One(rooms, t, Opened(op));
  }

  lemma EitherIsActive(rooms: map<string, Room>, u: string, v: string, exclude: Option<string>)
    ensures AnyActive(rooms, [u, v], exclude) <==> HasActiveRoom(rooms, u, exclude) || HasActiveRoom(rooms, v, exclude)
  {
    var users := [u, v];
    assert users[0] == u && users[1] == v;
  }

  // A transaction that nothing interrupts does what the repository's method does.
  lemma CreateAlone(rooms: map<string, Room>, t: int, user: string, now: int, id: string, key: string -> int)
    requires id !in rooms
    ensures Alone(rooms, t, Create(user), now, id, key) == Nobody(Stored(rooms, id, CreateResult(rooms, user, now)))
  {
    UpToTheRow(rooms, t, Create(user), now, key);
    FromAdmission(rooms, t, Create(user), None, [user], now, id, key);
  }

  lemma JoinAlone(rooms: map<string, Room>, t: int, room: string, user: string, now: int, id: string,
                  key: string -> int)
    ensures Alone(rooms, t, Join(room, user), now, id, key) ==
      Nobody(Stored(rooms, room, JoinResult(rooms, room, user, now)))
  {
    var op := Join(room, user);
    UpToTheRow(rooms, t, op, now, key);
    if room in rooms && Admits(op, rooms[room], now) {
      FromAdmission(rooms, t, op, Some(rooms[room]), [user], now, id, key);
    } else {
      NothingHappens(rooms, t, now, id, key);
    }
  }

  lemma RematchAlone(rooms: map<string, Room>, t: int, room: string, now: int, id: string, key: string -> int)
    ensures Alone(rooms, t, Rematch(room), now, id, key) == Nobody(Stored(rooms, room, RematchResult(rooms, room, now)))
  {
    var op := Rematch(room);
    UpToTheRow(rooms, t, op, now, key);
    if room in rooms && Admits(op, rooms[room], now) {
      var users := [rooms[room].creator, rooms[room].opponent.value];
      FromAdmission(rooms, t, op, Some(rooms[room]), users, now, id, key);
      EitherIsActive(rooms, users[0], users[1], Some(room));
    } else {
      NothingHappens(rooms, t, now, id, key);
    }
  }

  lemma LeaveAlone(rooms: map<string, Room>, t: int, room: string, user: string, now: int, id: string,
                   key: string -> int)
    ensures Alone(rooms, t, Leave(room, user), now, id, key) ==
      Nobody(if room in rooms then rooms[room := Left(rooms[room], user, now)] else rooms)
  {
    var op := Leave(room, user);
    UpToTheRow(rooms, t, op, now, key);
    if room in rooms {
      FromAdmission(rooms, t, op, Some(rooms[room]), [], now, id, key);
    } else {
      NothingHappens(rooms, t, now, id, key);
    }
  }
}
