/** One row of the rooms table and what each guarded UPDATE of repository.go does to it.
    The database clock NOW() is a parameter, in milliseconds. */
module RoomRows {
  import opened Base

  datatype Status = Waiting | Playing | Finished | Expired

  datatype Room = Room(
    creator: string,
    opponent: Option<string>,
    status: Status,
    expiresAt: int,
    creatorDownAt: Option<int>,
    opponentDownAt: Option<int>,
    creatorConn: Option<string>,
    opponentConn: Option<string>
  )

  const FIVE_MINUTES := 300_000
  const TEN_MINUTES := 600_000

  predicate Active(row: Room) {
    row.status.Waiting? || row.status.Playing?
  }

  predicate Open(row: Room) {
    !row.status.Expired?
  }

  predicate Seats(row: Room, user: string) {
    row.creator == user || row.opponent == Some(user)
  }

  // ---- Statements that run on their own

  datatype Statement =
    | Start
    | Finish
    | Reset(now: int)
    | ExpireDue(now: int)
    | ExpireById
    | Close
    | MarkCreatorConnected(user: string, conn: string)
    | MarkCreatorDisconnected(user: string, conn: string, at: int)
    | MarkOpponentConnected(user: string, conn: string)
    | MarkOpponentDisconnected(user: string, conn: string, at: int)
    | CloseIfCreatorDisconnected(before: int)
    | ReleaseIfOpponentDisconnected(before: int, now: int)

  function Closed(row: Room): Room {
    row.(status := Expired, creatorDownAt := None, opponentDownAt := None, creatorConn := None, opponentConn := None)
  }

  function Vacated(row: Room, now: int): Room {
    row.(opponent := None, status := Waiting, expiresAt := now + FIVE_MINUTES, opponentDownAt := None,
         opponentConn := None)
  }

  predicate DownSince(mark: Option<int>, before: int) {
    mark.Some? && mark.value <= before
  }

  // The WHERE clause of each statement.
  predicate Matches(st: Statement, row: Room) {
    match st
    case Start => row.status.Waiting? && row.opponent.Some? && row.creatorDownAt.None? && row.opponentDownAt.None?
    case Finish => row.status.Playing? && row.opponent.Some?
    case Reset(_) => row.status.Finished? && row.opponent.Some?
    case ExpireDue(now) => row.status.Waiting? && row.opponent.None? && row.expiresAt < now
    case ExpireById => true
    case Close => true
    case MarkCreatorConnected(user, _) => row.creator == user && Open(row)
    case MarkCreatorDisconnected(user, conn, _) => row.creator == user && row.creatorConn == Some(conn) && Open(row)
    case MarkOpponentConnected(user, _) => row.opponent == Some(user) && Open(row)
    case MarkOpponentDisconnected(user, conn, _) =>
      row.opponent == Some(user) && row.opponentConn == Some(conn) && Open(row)
    case CloseIfCreatorDisconnected(before) => Open(row) && DownSince(row.creatorDownAt, before)
    case ReleaseIfOpponentDisconnected(before, _) =>
      Open(row) && row.opponent.Some? && DownSince(row.opponentDownAt, before)
  }

  // The SET clause of each statement.
  function Updated(st: Statement, row: Room): Room {
    match st
    case Start => row.(status := Playing)
    case Finish => row.(status := Finished)
    case Reset(now) =>
      row.(status := Waiting, expiresAt := now + FIVE_MINUTES, creatorDownAt := None, opponentDownAt := None)
    case ExpireDue(_) => row.(status := Expired)
    case ExpireById => row.(status := Expired)
    case Close => Closed(row)
    case MarkCreatorConnected(_, conn) => row.(creatorDownAt := None, creatorConn := Some(conn))
    case MarkCreatorDisconnected(_, _, at) => row.(creatorDownAt := Some(at))
    case MarkOpponentConnected(_, conn) => row.(opponentDownAt := None, opponentConn := Some(conn))
    case MarkOpponentDisconnected(_, _, at) => row.(opponentDownAt := Some(at))
    case CloseIfCreatorDisconnected(_) => Closed(row)
    case ReleaseIfOpponentDisconnected(_, now) => Vacated(row, now)
  }

  function Applied(st: Statement, row: Room): Room {
    if Matches(st, row) then Updated(st, row) else row
  }

  // ---- What the transactions write

  function NewRoom(creator: string, now: int): Room {
    Room(creator, None, Waiting, now + FIVE_MINUTES, None, None, None, None)
  }

  function Joined(row: Room, user: string): Room {
    row.(opponent := Some(user))
  }

  function Rematched(row: Room, now: int): Room {
    row.(status := Playing, expiresAt := now + TEN_MINUTES, creatorDownAt := None, opponentDownAt := None)
  }

  function Left(row: Room, user: string, now: int): Room {
    if row.creator == user then Closed(row)
    else if row.opponent == Some(user) then Vacated(row, now)
    else row
  }

  datatype JoinError = RoomNotFound | RoomExpired | NotWaiting | AlreadyJoined | RoomFull | InActiveRoom

  // Why a user may not take the seat of this row, the other rooms aside.
  function JoinRefusal(row: Room, user: string, now: int): Option<JoinError> {
    if row.status.Expired? || (row.opponent.None? && now > row.expiresAt) then Some(RoomExpired)
    else if !row.status.Waiting? then Some(NotWaiting)
    else if row.creator == user then Some(AlreadyJoined)
    else if row.opponent.Some? then Some(if row.opponent == Some(user) then AlreadyJoined else RoomFull)
    else None
  }

  predicate CanRematch(row: Room) {
    row.status.Finished? && row.opponent.Some?
  }
}
