/** The life of a room, field by field (repository.go): for each field of a row, which steps of the
    protocol change it, under which conditions, and to what. */
module RoomLaws {
  import opened Base
  import opened RoomRows
  import opened RoomTable

  // The statement reaches the row: no transaction holds it.
  ghost predicate Reaches(s: State, step: Step, r: string) {
    (step.Single? || (step.Sweep? && step.w in s.sweeps && r in s.sweeps[step.w])) && step.room == r && r in s.rooms &&
    forall t :: t in s.txns ==> s.txns[t].row.None? || RoomOf(s.txns[t].op) != Some(r)
  }

  // A transaction of this room commits, having locked and checked all it wanted to.
  predicate Ends(s: State, step: Step, r: string) {
    step.Commit? && step.t in s.txns && !s.txns[step.t].op.Create? && s.txns[step.t].op.room == r &&
    s.txns[step.t].row.Some? && s.txns[step.t].toLock == [] && s.txns[step.t].toCheck == []
  }

  predicate EndsLeave(s: State, step: Step, r: string) {
    Ends(s, step, r) && s.txns[step.t].op.Leave?
  }

  // The creator closes the room by leaving it, by hand, or by having been away since `before`.
  ghost predicate Closes(s: State, step: Step, r: string)
    requires r in s.rooms
  {
    var row := s.rooms[r];
    || (EndsLeave(s, step, r) && s.txns[step.t].op.user == row.creator)
    || (Reaches(s, step, r) && step.Single? &&
        (step.st.Close? ||
         (step.st.CloseIfCreatorDisconnected? && !row.status.Expired? && row.creatorDownAt.Some? &&
          row.creatorDownAt.value <= step.st.before)))
  }

  // The opponent's seat is emptied: the opponent leaves, is released after having been away since
  // `before`, or is swept out.
  ghost predicate Empties(s: State, step: Step, r: string)
    requires r in s.rooms
  {
    var row := s.rooms[r];
    || (EndsLeave(s, step, r) && s.txns[step.t].op.user != row.creator && row.opponent == Some(s.txns[step.t].op.user))
    || (Reaches(s, step, r) && step.Sweep?)
    || (Reaches(s, step, r) && step.Single? && step.st.ReleaseIfOpponentDisconnected? && !row.status.Expired? &&
        row.opponent.Some? && row.opponentDownAt.Some? && row.opponentDownAt.value <= step.st.before)
  }

  ghost predicate Restores(s: State, step: Step, r: string)
    requires r in s.rooms
  {
    Reaches(s, step, r) && step.Single? && step.st.Reset? && s.rooms[r].status.Finished? && s.rooms[r].opponent.Some?
  }

  predicate Restarts(s: State, step: Step, r: string) {
    Ends(s, step, r) && s.txns[step.t].op.Rematch?
  }

  // What every state of the protocol satisfies (RoomTable.StepKeepsRows).
  ghost predicate Kept(s: State, key: string -> int) {
    LocksInv(s, key) && RowsInv(s)
  }

  // The clock the step writes from.
  function Now(step: Step): int {
    match step
    case Commit(_, now, _) => now
    case Sweep(_, _, now) => now
    case Single(_, Reset(now)) => now
    case Single(_, ReleaseIfOpponentDisconnected(_, now)) => now
    case _ => 0
  }

  // ---- Status

  // A room starts with both players there and connected, or again by a rematch of a finished match.
  lemma StartsExactlyWhen(s: State, step: Step, r: string, key: string -> int)
    requires Kept(s, key) && r in s.rooms && r in Next(s, step, key).rooms
    ensures var row := s.rooms[r];
      !row.status.Playing? && Next(s, step, key).rooms[r].status.Playing? <==>
        Restarts(s, step, r) ||
        (Reaches(s, step, r) && step.Single? && step.st.Start? && row.status.Waiting? && row.opponent.Some? &&
         row.creatorDownAt.None? && row.opponentDownAt.None?)
  {
    if Ends(s, step, r) { assert RowHeld(s.rooms, s.txns[step.t]); }
  }

  lemma FinishesExactlyWhen(s: State, step: Step, r: string, key: string -> int)
    requires Kept(s, key) && r in s.rooms && r in Next(s, step, key).rooms
    ensures var row := s.rooms[r];
      !row.status.Finished? && Next(s, step, key).rooms[r].status.Finished? <==>
        Reaches(s, step, r) && step.Single? && step.st.Finish? && row.status.Playing? && row.opponent.Some?
  {
    if Ends(s, step, r) { assert RowHeld(s.rooms, s.txns[step.t]); }
  }

  lemma ExpiresExactlyWhen(s: State, step: Step, r: string, key: string -> int)
    requires Kept(s, key) && r in s.rooms && r in Next(s, step, key).rooms
    ensures var row := s.rooms[r];
      !row.status.Expired? && Next(s, step, key).rooms[r].status.Expired? <==>
        !row.status.Expired? &&
        (Closes(s, step, r) ||
         (Reaches(s, step, r) && step.Single? &&
          (step.st.ExpireById? ||
           (step.st.ExpireDue? && row.status.Waiting? && row.opponent.None? && row.expiresAt < step.st.now))))
  {
    if Ends(s, step, r) { assert RowHeld(s.rooms, s.txns[step.t]); }
  }

  lemma WaitsAgainExactlyWhen(s: State, step: Step, r: string, key: string -> int)
    requires Kept(s, key) && r in s.rooms && r in Next(s, step, key).rooms
    ensures var row := s.rooms[r];
      !row.status.Waiting? && Next(s, step, key).rooms[r].status.Waiting? <==>
        !row.status.Waiting? && (Empties(s, step, r) || Restores(s, step, r))
  {
    if Ends(s, step, r) { assert RowHeld(s.rooms, s.txns[step.t]); }
  }

  // ---- Players

  lemma CreatorNeverChanges(s: State, step: Step, r: string, key: string -> int)
    requires Kept(s, key) && r in s.rooms
    ensures r in Next(s, step, key).rooms && Next(s, step, key).rooms[r].creator == s.rooms[r].creator
  {
    if Ends(s, step, r) { assert RowHeld(s.rooms, s.txns[step.t]); }
  }

  lemma OpponentChangesExactlyWhen(s: State, step: Step, r: string, key: string -> int)
    requires Kept(s, key) && r in s.rooms && r in Next(s, step, key).rooms
    ensures Next(s, step, key).rooms[r].opponent ==
      if Empties(s, step, r) then None
      else if Ends(s, step, r) && s.txns[step.t].op.Join? then Some(s.txns[step.t].op.user)
      else s.rooms[r].opponent
  {
    if Ends(s, step, r) { assert RowHeld(s.rooms, s.txns[step.t]); }
  }

  // ---- Time left

  lemma ExpiryChangesExactlyWhen(s: State, step: Step, r: string, key: string -> int)
    requires Kept(s, key) && r in s.rooms && r in Next(s, step, key).rooms
    ensures Next(s, step, key).rooms[r].expiresAt ==
      if Empties(s, step, r) || Restores(s, step, r) then Now(step) + 300_000
      else if Restarts(s, step, r) then Now(step) + 600_000
      else s.rooms[r].expiresAt
  {
    if Ends(s, step, r) { assert RowHeld(s.rooms, s.txns[step.t]); }
  }

  // ---- Connections

  lemma CreatorConnectionExactly(s: State, step: Step, r: string, key: string -> int)
    requires Kept(s, key) && r in s.rooms && r in Next(s, step, key).rooms
    ensures var row := s.rooms[r];
      var on := Reaches(s, step, r) && step.Single? && step.st.MarkCreatorConnected? && step.st.user == row.creator &&
                !row.status.Expired?;
      Next(s, step, key).rooms[r].creatorConn ==
        if on then Some(step.st.conn) else if Closes(s, step, r) then None else row.creatorConn
  {
    if Ends(s, step, r) { assert RowHeld(s.rooms, s.txns[step.t]); }
  }

  lemma OpponentConnectionExactly(s: State, step: Step, r: string, key: string -> int)
    requires Kept(s, key) && r in s.rooms && r in Next(s, step, key).rooms
    ensures var row := s.rooms[r];
      var on := Reaches(s, step, r) && step.Single? && step.st.MarkOpponentConnected? &&
                row.opponent == Some(step.st.user) && !row.status.Expired?;
      Next(s, step, key).rooms[r].opponentConn ==
        if on then Some(step.st.conn)
        else if Closes(s, step, r) || Empties(s, step, r) then None else row.opponentConn
  {
    if Ends(s, step, r) { assert RowHeld(s.rooms, s.txns[step.t]); }
  }

  lemma CreatorMarkExactly(s: State, step: Step, r: string, key: string -> int)
    requires Kept(s, key) && r in s.rooms && r in Next(s, step, key).rooms
    ensures var row := s.rooms[r];
      var single := Reaches(s, step, r) && step.Single? && !row.status.Expired?;
      var off := single && step.st.MarkCreatorDisconnected? && step.st.user == row.creator &&
                 row.creatorConn == Some(step.st.conn);
      var on := single && step.st.MarkCreatorConnected? && step.st.user == row.creator;
      Next(s, step, key).rooms[r].creatorDownAt ==
        if off then Some(step.st.at)
        else if on || Closes(s, step, r) || Restores(s, step, r) || Restarts(s, step, r) then None
        else row.creatorDownAt
  {
    if Ends(s, step, r) { assert RowHeld(s.rooms, s.txns[step.t]); }
  }

  lemma OpponentMarkExactly(s: State, step: Step, r: string, key: string -> int)
    requires Kept(s, key) && r in s.rooms && r in Next(s, step, key).rooms
    ensures var row := s.rooms[r];
      var single := Reaches(s, step, r) && step.Single? && !row.status.Expired?;
      var off := single && step.st.MarkOpponentDisconnected? && row.opponent == Some(step.st.user) &&
                 row.opponentConn == Some(step.st.conn);
      var on := single && step.st.MarkOpponentConnected? && row.opponent == Some(step.st.user);
      Next(s, step, key).rooms[r].opponentDownAt ==
        if off then Some(step.st.at)
        else if on || Closes(s, step, r) || Empties(s, step, r) || Restores(s, step, r) || Restarts(s, step, r) then
          None
        else row.opponentDownAt
  {
    if Ends(s, step, r) { assert RowHeld(s.rooms, s.txns[step.t]); }
  }

  // ---- New rooms and refusals

  // A room is new only by the commit of a creation: it waits five minutes for an opponent.
  lemma RoomIsNewExactlyWhen(s: State, step: Step, r: string, key: string -> int)
    requires Kept(s, key) && r !in s.rooms
    ensures r in Next(s, step, key).rooms <==>
      step.Commit? && step.t in s.txns && s.txns[step.t].op.Create? && step.id == r &&
      s.txns[step.t].toLock == [] && s.txns[step.t].toCheck == []
    ensures r in Next(s, step, key).rooms ==>
      Next(s, step, key).rooms[r] ==
        Room(s.txns[step.t].op.user, None, Waiting, step.now + 300_000, None, None, None, None)
  {
    if step.Commit? && step.t in s.txns { assert RowHeld(s.rooms, s.txns[step.t]); }
  }

  // Which rooms let a user in, and what the others answer.
  lemma JoinRefusedExactlyWhen(row: Room, user: string, now: int)
    ensures var refusal := JoinRefusal(row, user, now);
      var late := row.status.Expired? || (row.opponent.None? && row.expiresAt < now);
      && (refusal == Some(RoomExpired) <==> late)
      && (refusal == Some(NotWaiting) <==> !late && !row.status.Waiting?)
      && (refusal == Some(AlreadyJoined) <==>
            !late && row.status.Waiting? && (row.creator == user || row.opponent == Some(user)))
      && (refusal == Some(RoomFull) <==>
            !late && row.status.Waiting? && row.creator != user && row.opponent.Some? && row.opponent != Some(user))
      && (refusal.None? <==> !late && row.status.Waiting? && row.creator != user && row.opponent.None?)
  {
  }

  // The user plays in this room, or waits there.
  predicate PlaysIn(rooms: map<string, Room>, r: string, user: string) {
    r in rooms && (rooms[r].status.Waiting? || rooms[r].status.Playing?) &&
    (rooms[r].creator == user || rooms[r].opponent == Some(user))
  }

  // The rule of one active room, in plain words, and what a transaction looks for.
  lemma OneActiveRoomMeans(rooms: map<string, Room>)
    ensures OneActiveRoom(rooms) <==>
      forall user, r1, r2 :: user != "" && PlaysIn(rooms, r1, user) && PlaysIn(rooms, r2, user) ==> r1 == r2
  {
    assert forall r, user :: PlaysIn(rooms, r, user) <==> ActiveIn(rooms, r, user);
  }

  lemma HasActiveRoomMeans(rooms: map<string, Room>, user: string, exclude: Option<string>)
    ensures HasActiveRoom(rooms, user, exclude) <==> exists r :: PlaysIn(rooms, r, user) && Some(r) != exclude
  {
    assert forall r :: PlaysIn(rooms, r, user) <==> ActiveIn(rooms, r, user);
  }
}
