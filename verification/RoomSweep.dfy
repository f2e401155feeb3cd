/** The sweep that releases lost opponents of all rooms (repository.go:
    ReleaseRoomsWithExpiredOpponentDisconnect). It first reads which rooms match and then updates
    them by id alone, so between the two the row may change under it. */
module RoomSweep {
  import opened Base
  import opened RoomRows
  import opened RoomTable
  import opened RoomRepository
  import opened RoomReach

  // The update that follows asks only for the id.
  function Swept(rooms: map<string, Room>, room: string, now: int): map<string, Room>
    requires room in rooms
  {
    rooms[room := Vacated(rooms[room], now)]
  }

  // A sweep updates a room it has read, once.
  lemma SweepStepIsSwept(s: State, w: int, room: string, now: int, key: string -> int)
    requires Enabled(s, Sweep(w, room, now), key)
    ensures Next(s, Sweep(w, room, now), key).rooms == Swept(s.rooms, room, now)
    ensures !Enabled(Next(s, Sweep(w, room, now), key), Sweep(w, room, now), key)
  {
  }

  // What the statement for a single room would do at that moment.
  function Released(rooms: map<string, Room>, room: string, before: int, now: int): map<string, Room>
    requires room in rooms
  {
    rooms[room := Applied(ReleaseIfOpponentDisconnected(before, now), rooms[room])]
  }

  // An opponent seated when the update comes is evicted early exactly when the room has meanwhile
  // closed, or the opponent bears no mark that old: it has come back, or another has come.
  lemma SweepEvictsEarlyExactlyWhen(rooms: map<string, Room>, room: string, before: int, now: int)
    requires room in rooms && rooms[room].opponent.Some?
    ensures var row := rooms[room];
      Swept(rooms, room, now) != Released(rooms, room, before, now) <==>
        row.status.Expired? || !DownSince(row.opponentDownAt, before)
  {
    assert Swept(rooms, room, now)[room].opponent.None?;
    assert Swept(rooms, room, now)[room] == Vacated(rooms[room], now);
  }

  // Finding nobody in the seat, it makes the room wait all the same, even a closed one.
  lemma SweepReopensAnEmptyRoom(rooms: map<string, Room>, room: string, before: int, now: int)
    requires room in rooms && rooms[room].opponent.None?
    ensures Released(rooms, room, before, now) == rooms
    ensures Active(Swept(rooms, room, now)[room])
  {
  }

  // The room with both seated, and the opponent's connection marked lost.
  function LostSeat(a: string, b: string, conn: string, at: int): Room {
    Joined(NewRoom(a, 0), b).(opponentConn := Some(conn), opponentDownAt := Some(at))
  }

  lemma TheSeatIsLost(a: string, b: string, conn: string, at: int, users: iset<string>, key: string -> int)
    requires a in users && b in users && a != b
    ensures Reachable(Nobody(map["1" := LostSeat(a, b, conn, at)]), users, key)
  {
    StartIsReachable(users, key);
    RoomFills(map[], "1", a, b, users, key);
    var full := map["1" := Joined(NewRoom(a, 0), b)];
    assert map[]["1" := Joined(NewRoom(a, 0), b)] == full;
    Happens(full, map[], "1", MarkOpponentConnected(b, conn), users, key);
    var back := map["1" := Joined(NewRoom(a, 0), b).(opponentConn := Some(conn))];
    assert full["1" := back["1"]] == back;
    Happens(back, map[], "1", MarkOpponentDisconnected(b, conn, at), users, key);
    assert back["1" := LostSeat(a, b, conn, at)] == map["1" := LostSeat(a, b, conn, at)];
  }

  // ---- Who is evicted

  // The sweep has read the room while it waited.
  const READ := map[0 := {"1"}]

  lemma TheSweepHasRead(a: string, b: string, conn: string, at: int, before: int, users: iset<string>,
                        key: string -> int)
    requires a in users && b in users && a != b && at <= before
    ensures Reachable(Beside(Nobody(map["1" := LostSeat(a, b, conn, at)]), READ), users, key)
  {
    TheSeatIsLost(a, b, conn, at, users, key);
    var rooms := map["1" := LostSeat(a, b, conn, at)];
    OneMore(Nobody(rooms), ReadSweep(0, before), users, key);
    assert Candidates(rooms, before) == {"1"};
    assert Next(Nobody(rooms), ReadSweep(0, before), key) == Beside(Nobody(rooms), READ);
  }

  // An opponent who reconnects between the reading and the update loses the seat all the same.
  lemma SweepEvictsAReturnedOpponent(a: string, b: string, conn: string, again: string, at: int, before: int, now: int,
                                     users: iset<string>, key: string -> int)
    requires a in users && b in users && a != b && at <= before
    ensures var read := map["1" := LostSeat(a, b, conn, at)];
      var back := read["1" := Updated(MarkOpponentConnected(b, again), read["1"])];
      var s := Beside(Nobody(back), READ);
      && Candidates(read, before) == {"1"} && Reachable(Beside(Nobody(read), READ), users, key)
      && Reachable(s, users, key) && Released(back, "1", before, now) == back
      && back["1"].opponent == Some(b) && Next(s, Sweep(0, "1", now), key).rooms["1"].opponent.None?
  {
    TheSweepHasRead(a, b, conn, at, before, users, key);
    var read := map["1" := LostSeat(a, b, conn, at)];
    Happens(read, READ, "1", MarkOpponentConnected(b, again), users, key);
    var back := read["1" := Updated(MarkOpponentConnected(b, again), read["1"])];
    SweepStepIsSwept(Beside(Nobody(back), READ), 0, "1", now, key);
  }

  lemma TheSeatIsLeft(a: string, b: string, conn: string, at: int, users: iset<string>, key: string -> int)
    requires a in users && b in users && a != b
    requires Reachable(Beside(Nobody(map["1" := LostSeat(a, b, conn, at)]), READ), users, key)
    ensures Reachable(Beside(Nobody(map["1" := Left(LostSeat(a, b, conn, at), b, 0)]), READ), users, key)
  {
    var lost := map["1" := LostSeat(a, b, conn, at)];
    Leaves(lost, READ, "1", b, users, key);
    assert lost["1" := Left(LostSeat(a, b, conn, at), b, 0)] == map["1" := Left(LostSeat(a, b, conn, at), b, 0)];
  }

  // Another user sits down in the seat the lost one left.
  function Retaken(a: string, b: string, c: string, conn: string, at: int): Room {
    Joined(Left(LostSeat(a, b, conn, at), b, 0), c)
  }

  lemma TheSeatIsTaken(a: string, b: string, c: string, conn: string, at: int, users: iset<string>, key: string -> int)
    requires a in users && b in users && c in users && a != b && c != a
    requires Reachable(Beside(Nobody(map["1" := LostSeat(a, b, conn, at)]), READ), users, key)
    ensures Reachable(Beside(Nobody(map["1" := Retaken(a, b, c, conn, at)]), READ), users, key)
  {
    TheSeatIsLeft(a, b, conn, at, users, key);
    var row := Left(LostSeat(a, b, conn, at), b, 0);
    var empty := map["1" := row];
    assert !HasActiveRoom(empty, c, Some("1"));
    Joins(empty, READ, "1", c, users, key);
    assert empty["1" := Joined(row, c)] == map["1" := Joined(row, c)];
  }

  // So does one who has only just sat down.
  lemma SweepEvictsANewOpponent(a: string, b: string, c: string, conn: string, at: int, before: int, now: int,
                                users: iset<string>, key: string -> int)
    requires a in users && b in users && c in users && a != b && c != a && at <= before
    ensures var read := map["1" := LostSeat(a, b, conn, at)];
      var taken := map["1" := Retaken(a, b, c, conn, at)];
      var s := Beside(Nobody(taken), READ);
      && Candidates(read, before) == {"1"} && Reachable(Beside(Nobody(read), READ), users, key)
      && Reachable(s, users, key) && Released(taken, "1", before, now) == taken
      && taken["1"].opponent == Some(c) && Next(s, Sweep(0, "1", now), key).rooms["1"].opponent.None?
  {
    TheSweepHasRead(a, b, conn, at, before, users, key);
    TheSeatIsTaken(a, b, c, conn, at, users, key);
    SweepStepIsSwept(Beside(Nobody(map["1" := Retaken(a, b, c, conn, at)]), READ), 0, "1", now, key);
  }

  // ---- The rule of one active room, broken by a sweep

  // Meanwhile the creator leaves, which closes the room, and opens another.
  function ClosedAndMovedOn(a: string, b: string, conn: string, at: int): map<string, Room> {
    map["1" := Closed(LostSeat(a, b, conn, at)), "2" := NewRoom(a, 0)]
  }

  lemma TheCreatorCloses(a: string, b: string, conn: string, at: int, users: iset<string>, key: string -> int)
    requires a in users && b in users && a != b
    requires Reachable(Beside(Nobody(map["1" := LostSeat(a, b, conn, at)]), READ), users, key)
    ensures Reachable(Beside(Nobody(map["1" := Closed(LostSeat(a, b, conn, at))]), READ), users, key)
  {
    var rooms := map["1" := LostSeat(a, b, conn, at)];
    Leaves(rooms, READ, "1", a, users, key);
    assert rooms["1" := Closed(rooms["1"])] == map["1" := Closed(rooms["1"])];
  }

  lemma TheCreatorReopens(a: string, b: string, conn: string, at: int, users: iset<string>, key: string -> int)
    requires a in users && b in users && a != b
    requires Reachable(Beside(Nobody(map["1" := Closed(LostSeat(a, b, conn, at))]), READ), users, key)
    ensures Reachable(Beside(Nobody(ClosedAndMovedOn(a, b, conn, at)), READ), users, key)
  {
    var rooms := map["1" := Closed(LostSeat(a, b, conn, at))];
    IdleHasNoActiveRoom(rooms, a, None);
    PlayOut(rooms, READ, Create(a), 0, "2", users, key);
    CreateAlone(rooms, 0, a, 0, "2", key);
    assert rooms["2" := NewRoom(a, 0)] == ClosedAndMovedOn(a, b, conn, at);
  }

  // Then the sweep makes the closed room wait again, with its creator in it.
  lemma SweepSeatsTheCreatorTwice(a: string, b: string, conn: string, at: int, before: int, now: int,
                                  users: iset<string>, key: string -> int)
    requires a in users && b in users && a != b && a != "" && at <= before
    ensures var s := Beside(Nobody(ClosedAndMovedOn(a, b, conn, at)), READ);
      && Reachable(s, users, key) && OneActiveRoom(s.rooms)
      && !OneActiveRoom(Next(s, Sweep(0, "1", now), key).rooms)
  {
    TheSweepHasRead(a, b, conn, at, before, users, key);
    TheCreatorCloses(a, b, conn, at, users, key);
    TheCreatorReopens(a, b, conn, at, users, key);
    var s := Beside(Nobody(ClosedAndMovedOn(a, b, conn, at)), READ);
    var after := Next(s, Sweep(0, "1", now), key).rooms;
    assert Enabled(s, Sweep(0, "1", now), key);
    assert ActiveIn(after, "1", a) && ActiveIn(after, "2", a) && "1" != "2";
  }
}
