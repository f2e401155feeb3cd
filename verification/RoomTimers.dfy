/** What a disconnect timer may conclude when it fires (repository.go:
    CloseRoomIfCreatorDisconnected, ReleaseOpponentIfDisconnected; ws_handler.go:
    scheduleOwnerDisconnectClose, scheduleOpponentDisconnectRelease). */
module RoomTimers {
  import opened Base
  import opened RoomRows
  import opened RoomTable
  import opened RoomRuns

  datatype Seat = CreatorSeat | OpponentSeat

  function Occupant(seat: Seat, row: Room): Option<string> {
    if seat.CreatorSeat? then Some(row.creator) else row.opponent
  }

  function DownMark(seat: Seat, row: Room): Option<int> {
    if seat.CreatorSeat? then row.creatorDownAt else row.opponentDownAt
  }

  predicate MarksDown(seat: Seat, st: Statement, user: string, at: int) {
    match seat
    case CreatorSeat => st.MarkCreatorDisconnected? && st.user == user && st.at == at
    case OpponentSeat => st.MarkOpponentDisconnected? && st.user == user && st.at == at
  }

  predicate MarksUp(seat: Seat, st: Statement) {
    match seat
    case CreatorSeat => st.MarkCreatorConnected?
    case OpponentSeat => st.MarkOpponentConnected?
  }

  // The step is a statement of the given kind on this room, and it takes effect.
  ghost predicate Drops(s: State, step: Step, seat: Seat, room: string, user: string, at: int, key: string -> int) {
    step.Single? && step.room == room && MarksDown(seat, step.st, user, at) && Enabled(s, step, key)
  }

  ghost predicate Returns(s: State, step: Step, seat: Seat, room: string, key: string -> int) {
    step.Single? && step.room == room && MarksUp(seat, step.st) && Enabled(s, step, key)
  }

  ghost predicate Sits(s: State, seat: Seat, room: string, user: string) {
    room in s.rooms && Occupant(seat, s.rooms[room]) == Some(user)
  }

  ghost predicate IsDown(s: State, seat: Seat, room: string, at: int) {
    room in s.rooms && DownMark(seat, s.rooms[room]) == Some(at)
  }

  // Step i marked the user's current connection as lost; up to step n no connection was marked
  // since, and the user has kept the seat.
  ghost predicate GoneSince(steps: seq<Step>, i: int, n: int, seat: Seat, room: string, user: string, at: int,
                            key: string -> int)
  {
    && 0 <= i < n <= |steps|
    && Drops(After(steps, i, key), steps[i], seat, room, user, at, key)
    && NotBack(steps, i, n, seat, room, key)
    && Stayed(steps, i, n, seat, room, user, key)
  }

  ghost predicate Stayed(steps: seq<Step>, i: nat, n: nat, seat: Seat, room: string, user: string, key: string -> int)
    requires n <= |steps|
  {
    forall j :: i < j <= n ==> Sits(After(steps, j, key), seat, room, user)
  }

  lemma StillStays(steps: seq<Step>, i: nat, n: nat, seat: Seat, room: string, user: string, key: string -> int)
    requires n < |steps| && Stayed(steps, i, n, seat, room, user, key)
    requires Sits(After(steps, n + 1, key), seat, room, user)
    ensures Stayed(steps, i, n + 1, seat, room, user, key)
  {
  }

  ghost predicate NotBack(steps: seq<Step>, i: nat, n: nat, seat: Seat, room: string, key: string -> int)
    requires n <= |steps|
  {
    forall j :: i < j < n ==> !Returns(After(steps, j, key), steps[j], seat, room, key)
  }

  lemma NotBackYet(steps: seq<Step>, i: nat, n: nat, seat: Seat, room: string, key: string -> int)
    requires n < |steps| && NotBack(steps, i, n, seat, room, key)
    requires !Returns(After(steps, n, key), steps[n], seat, room, key)
    ensures NotBack(steps, i, n + 1, seat, room, key)
  {
  }

  // An empty seat carries no mark and no connection.
  ghost predicate MarksInv(s: State) {
    forall room :: room in s.rooms && s.rooms[room].opponent.None? ==>
      s.rooms[room].opponentDownAt.None? && s.rooms[room].opponentConn.None?
  }

  ghost predicate TimersInv(s: State, key: string -> int) {
    LocksInv(s, key) && RowsInv(s) && MarksInv(s)
  }

  lemma StepKeepsTimersInv(s: State, step: Step, key: string -> int)
    requires TimersInv(s, key)
    ensures TimersInv(Next(s, step, key), key)
  {
    StepKeepsRows(s, step, key);
    if Enabled(s, step, key) && step.Commit? {
      assert RowHeld(s.rooms, s.txns[step.t]);
    }
  }

  lemma {:induction false} RunKeepsTimersInv(steps: seq<Step>, n: nat, key: string -> int)
    requires n <= |steps|
    ensures TimersInv(After(steps, n, key), key)
  {
    if n > 0 {
      RunKeepsTimersInv(steps, n - 1, key);
      AfterOneMore(steps, n - 1, key);
      StepKeepsTimersInv(After(steps, n - 1, key), steps[n - 1], key);
    }
  }

  // A mark after a write was there before it, and the seat with it, unless the write set it.
  lemma WhereASinglesMarkComesFrom(row: Room, st: Statement, seat: Seat, at: int)
    requires Matches(st, row) && DownMark(seat, Updated(st, row)) == Some(at)
    requires row.opponent.None? ==> row.opponentDownAt.None?
    ensures Occupant(seat, Updated(st, row)) == Occupant(seat, row) && Occupant(seat, row).Some?
    ensures MarksDown(seat, st, Occupant(seat, row).value, at) ||
      (DownMark(seat, row) == Some(at) && !MarksUp(seat, st))
  {
  }

  lemma WhereAPlainMarkComesFrom(s: State, step: Step, seat: Seat, at: int)
    requires Plain(step) && step.room in s.rooms && (step.Single? ==> Matches(step.st, s.rooms[step.room]))
    requires MarksInv(s) && DownMark(seat, PlainRow(s, step)) == Some(at)
    ensures var row := s.rooms[step.room];
      && Occupant(seat, PlainRow(s, step)) == Occupant(seat, row) && Occupant(seat, row).Some?
      && ((step.Single? && MarksDown(seat, step.st, Occupant(seat, row).value, at)) ||
          (DownMark(seat, row) == Some(at) && (step.Single? ==> !MarksUp(seat, step.st))))
  {
    if step.Single? { WhereASinglesMarkComesFrom(s.rooms[step.room], step.st, seat, at); }
  }

  lemma WhereACommitsMarkComesFrom(s: State, t: int, now: int, id: string, seat: Seat, at: int)
    requires t in s.txns && Ready(s.txns[t]) && RowHeld(s.rooms, s.txns[t]) && MarksInv(s)
    requires DownMark(seat, Written(s.txns[t], now)) == Some(at)
    ensures var r := Target(s.txns[t], id);
      IsDown(s, seat, r, at) && Occupant(seat, Written(s.txns[t], now)) == Occupant(seat, s.rooms[r]) &&
      Occupant(seat, s.rooms[r]).Some?
  {
  }

  lemma WhereAMarkComesFrom(s: State, step: Step, seat: Seat, room: string, at: int, key: string -> int)
    returns (user: string)
    requires TimersInv(s, key) && IsDown(Next(s, step, key), seat, room, at)
    ensures Sits(Next(s, step, key), seat, room, user)
    ensures Drops(s, step, seat, room, user, at, key) ||
      (IsDown(s, seat, room, at) && Sits(s, seat, room, user) && !Returns(s, step, seat, room, key))
  {
    user := if room in s.rooms && Occupant(seat, s.rooms[room]).Some? then Occupant(seat, s.rooms[room]).value else "";
    if !Enabled(s, step, key) {
    } else if Plain(step) && step.room == room {
      WhereAPlainMarkComesFrom(s, step, seat, at);
    } else if step.Commit? && Target(s.txns[step.t], step.id) == room {
      WhereACommitsMarkComesFrom(s, step.t, step.now, step.id, seat, at);
    }
  }

  lemma GoneOneStepMore(steps: seq<Step>, i: int, n: int, seat: Seat, room: string, user: string, at: int,
                        key: string -> int)
    requires n < |steps| && GoneSince(steps, i, n, seat, room, user, at, key)
    requires !Returns(After(steps, n, key), steps[n], seat, room, key)
    requires Sits(After(steps, n + 1, key), seat, room, user)
    ensures GoneSince(steps, i, n + 1, seat, room, user, at, key)
  {
    NotBackYet(steps, i, n, seat, room, key);
    StillStays(steps, i, n, seat, room, user, key);
  }

  lemma {:induction false} AMarkWasSet(steps: seq<Step>, n: nat, seat: Seat, room: string, user: string, at: int,
                                       key: string -> int)
    returns (i: int)
    requires n <= |steps|
    requires IsDown(After(steps, n, key), seat, room, at) && Sits(After(steps, n, key), seat, room, user)
    ensures GoneSince(steps, i, n, seat, room, user, at, key)
    decreases n
  {
    var m := n - 1;
    AfterOneMore(steps, m, key);
    RunKeepsTimersInv(steps, m, key);
    var same := WhereAMarkComesFrom(After(steps, m, key), steps[m], seat, room, at, key);
    if Drops(After(steps, m, key), steps[m], seat, room, user, at, key) {
      i := m;
    } else {
      i := AMarkWasSet(steps, m, seat, room, user, at, key);
      GoneOneStepMore(steps, i, m, seat, room, user, at, key);
    }
  }

  // ---- Which connection was lost

  function ConnOf(seat: Seat, row: Room): Option<string> {
    if seat.CreatorSeat? then row.creatorConn else row.opponentConn
  }

  predicate Connects(seat: Seat, st: Statement, user: string, conn: string) {
    match seat
    case CreatorSeat => st.MarkCreatorConnected? && st.user == user && st.conn == conn
    case OpponentSeat => st.MarkOpponentConnected? && st.user == user && st.conn == conn
  }

  ghost predicate IsOn(s: State, seat: Seat, room: string, conn: string) {
    room in s.rooms && ConnOf(seat, s.rooms[room]) == Some(conn)
  }

  // The step marks this connection of the user's as the seat's, and it takes effect.
  ghost predicate Arrives(s: State, step: Step, seat: Seat, room: string, user: string, conn: string,
                          key: string -> int)
  {
    step.Single? && step.room == room && Connects(seat, step.st, user, conn) && Enabled(s, step, key)
  }

  // Step k marked the user's connection; up to step n none was marked since, and the user has kept
  // the seat.
  ghost predicate OnSince(steps: seq<Step>, k: int, n: int, seat: Seat, room: string, user: string, conn: string,
                          key: string -> int)
  {
    && 0 <= k < n <= |steps|
    && Arrives(After(steps, k, key), steps[k], seat, room, user, conn, key)
    && NotBack(steps, k, n, seat, room, key)
    && Stayed(steps, k, n, seat, room, user, key)
  }

  lemma WhereASinglesConnComesFrom(row: Room, st: Statement, seat: Seat, conn: string)
    requires Matches(st, row) && ConnOf(seat, Updated(st, row)) == Some(conn)
    requires row.opponent.None? ==> row.opponentConn.None?
    ensures Occupant(seat, Updated(st, row)) == Occupant(seat, row) && Occupant(seat, row).Some?
    ensures Connects(seat, st, Occupant(seat, row).value, conn) ||
      (ConnOf(seat, row) == Some(conn) && !MarksUp(seat, st))
  {
  }

  lemma WhereAPlainConnComesFrom(s: State, step: Step, seat: Seat, conn: string)
    requires Plain(step) && step.room in s.rooms && (step.Single? ==> Matches(step.st, s.rooms[step.room]))
    requires MarksInv(s) && ConnOf(seat, PlainRow(s, step)) == Some(conn)
    ensures var row := s.rooms[step.room];
      && Occupant(seat, PlainRow(s, step)) == Occupant(seat, row) && Occupant(seat, row).Some?
      && ((step.Single? && Connects(seat, step.st, Occupant(seat, row).value, conn)) ||
          (ConnOf(seat, row) == Some(conn) && (step.Single? ==> !MarksUp(seat, step.st))))
  {
    if step.Single? { WhereASinglesConnComesFrom(s.rooms[step.room], step.st, seat, conn); }
  }

  lemma WhereACommitsConnComesFrom(s: State, t: int, now: int, id: string, seat: Seat, conn: string)
    requires t in s.txns && Ready(s.txns[t]) && RowHeld(s.rooms, s.txns[t]) && MarksInv(s)
    requires ConnOf(seat, Written(s.txns[t], now)) == Some(conn)
    ensures var r := Target(s.txns[t], id);
      IsOn(s, seat, r, conn) && Occupant(seat, Written(s.txns[t], now)) == Occupant(seat, s.rooms[r]) &&
      Occupant(seat, s.rooms[r]).Some?
  {
  }

  lemma WhereAConnComesFrom(s: State, step: Step, seat: Seat, room: string, conn: string, key: string -> int)
    returns (user: string)
    requires TimersInv(s, key) && IsOn(Next(s, step, key), seat, room, conn)
    ensures Sits(Next(s, step, key), seat, room, user)
    ensures Arrives(s, step, seat, room, user, conn, key) ||
      (IsOn(s, seat, room, conn) && Sits(s, seat, room, user) && !Returns(s, step, seat, room, key))
  {
    user := if room in s.rooms && Occupant(seat, s.rooms[room]).Some? then Occupant(seat, s.rooms[room]).value else "";
    if !Enabled(s, step, key) {
    } else if Plain(step) && step.room == room {
      WhereAPlainConnComesFrom(s, step, seat, conn);
    } else if step.Commit? && Target(s.txns[step.t], step.id) == room {
      WhereACommitsConnComesFrom(s, step.t, step.now, step.id, seat, conn);
    }
  }

  lemma OnOneStepMore(steps: seq<Step>, k: int, n: int, seat: Seat, room: string, user: string, conn: string,
                      key: string -> int)
    requires n < |steps| && OnSince(steps, k, n, seat, room, user, conn, key)
    requires !Returns(After(steps, n, key), steps[n], seat, room, key)
    requires Sits(After(steps, n + 1, key), seat, room, user)
    ensures OnSince(steps, k, n + 1, seat, room, user, conn, key)
  {
    NotBackYet(steps, k, n, seat, room, key);
    StillStays(steps, k, n, seat, room, user, key);
  }

  // The connection a row names is the last one its occupant has made.
  lemma {:induction false} AConnectionWasMade(steps: seq<Step>, n: nat, seat: Seat, room: string, user: string,
                                              conn: string, key: string -> int)
    returns (k: int)
    requires n <= |steps|
    requires IsOn(After(steps, n, key), seat, room, conn) && Sits(After(steps, n, key), seat, room, user)
    ensures OnSince(steps, k, n, seat, room, user, conn, key)
    decreases n
  {
    var m := n - 1;
    AfterOneMore(steps, m, key);
    RunKeepsTimersInv(steps, m, key);
    var same := WhereAConnComesFrom(After(steps, m, key), steps[m], seat, room, conn, key);
    if Arrives(After(steps, m, key), steps[m], seat, room, user, conn, key) {
      k := m;
    } else {
      k := AConnectionWasMade(steps, m, seat, room, user, conn, key);
      OnOneStepMore(steps, k, m, seat, room, user, conn, key);
    }
  }

  // A disconnect from another connection than the seat's changes nothing: the socket is stale.
  lemma StaleSocketIsIgnored(s: State, room: string, user: string, conn: string, at: int, key: string -> int)
    requires room in s.rooms
    ensures s.rooms[room].creatorConn != Some(conn) ==>
      Next(s, Single(room, MarkCreatorDisconnected(user, conn, at)), key) == s
    ensures s.rooms[room].opponentConn != Some(conn) ==>
      Next(s, Single(room, MarkOpponentDisconnected(user, conn, at)), key) == s
  {
  }

  // Step i marked a connection as lost that step k had marked as made, by the same user in the same
  // seat, and none was marked in between.
  ghost predicate LostItsOwn(steps: seq<Step>, k: int, i: int, seat: Seat, room: string, user: string, conn: string,
                             key: string -> int)
  {
    && OnSince(steps, k, i, seat, room, user, conn, key) && i < |steps| && steps[i].Single?
    && match seat
       case CreatorSeat => steps[i].st.MarkCreatorDisconnected? && steps[i].st.conn == conn
       case OpponentSeat => steps[i].st.MarkOpponentDisconnected? && steps[i].st.conn == conn
  }

  lemma ALossIsOfItsOwnConnection(steps: seq<Step>, i: nat, seat: Seat, room: string, user: string, at: int,
                                  key: string -> int)
    returns (k: int, conn: string)
    requires i < |steps| && Drops(After(steps, i, key), steps[i], seat, room, user, at, key)
    ensures LostItsOwn(steps, k, i, seat, room, user, conn, key)
  {
    conn := steps[i].st.conn;
    k := AConnectionWasMade(steps, i, seat, room, user, conn, key);
  }

  // So a mark stands only while the occupant's last connection is lost: it was made at step k, lost
  // at step i, and none has been made since.
  lemma AMarkHasALoss(steps: seq<Step>, n: nat, seat: Seat, room: string, user: string, at: int, key: string -> int)
    returns (k: int, i: int, conn: string)
    requires n <= |steps|
    requires IsDown(After(steps, n, key), seat, room, at) && Sits(After(steps, n, key), seat, room, user)
    ensures GoneSince(steps, i, n, seat, room, user, at, key)
    ensures LostItsOwn(steps, k, i, seat, room, user, conn, key)
  {
    i := AMarkWasSet(steps, n, seat, room, user, at, key);
    k, conn := ALossIsOfItsOwnConnection(steps, i, seat, room, user, at, key);
  }

  // A room closes for a lost creator only if the last connection the creator has made was marked
  // lost by the cutoff.
  lemma CloseMeansTheCreatorIsGone(steps: seq<Step>, n: nat, room: string, before: int, key: string -> int)
    returns (k: int, i: int, user: string, conn: string, at: int)
    requires n <= |steps| && Enabled(After(steps, n, key), Single(room, CloseIfCreatorDisconnected(before)), key)
    ensures at <= before && GoneSince(steps, i, n, CreatorSeat, room, user, at, key)
    ensures LostItsOwn(steps, k, i, CreatorSeat, room, user, conn, key)
  {
    var row := After(steps, n, key).rooms[room];
    at, user := row.creatorDownAt.value, row.creator;
    k, i, conn := AMarkHasALoss(steps, n, CreatorSeat, room, user, at, key);
  }

  // A seat is released only from the opponent whose own loss is at least that old, so the timer
  // of a previous opponent never evicts a later one early.
  lemma ReleaseMeansThisOpponentIsGone(steps: seq<Step>, n: nat, room: string, before: int, now: int,
                                       key: string -> int)
    returns (k: int, i: int, user: string, conn: string, at: int)
    requires n <= |steps|
    requires Enabled(After(steps, n, key), Single(room, ReleaseIfOpponentDisconnected(before, now)), key)
    ensures at <= before && GoneSince(steps, i, n, OpponentSeat, room, user, at, key)
    ensures LostItsOwn(steps, k, i, OpponentSeat, room, user, conn, key)
  {
    var row := After(steps, n, key).rooms[room];
    at, user := row.opponentDownAt.value, row.opponent.value;
    k, i, conn := AMarkHasALoss(steps, n, OpponentSeat, room, user, at, key);
  }
}
