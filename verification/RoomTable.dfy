/** The rooms table under concurrent transactions (repository.go). A transaction takes a row
    lock, then one advisory lock per user, then looks for other active rooms, then commits;
    statements and transactions of other clients may come between any two of these steps.
    `key` is the database's hash from user to advisory lock. */
module RoomTable {
  import opened Base
  import opened LockOrder
  import opened RoomRows

  datatype Op =
    | Create(user: string)
    | Join(room: string, user: string)
    | Rematch(room: string)
    | Leave(room: string, user: string)

  // `row` is the row the transaction read and locked.
  datatype Txn = Txn(
    op: Op,
    row: Option<Room>,
    locked: seq<string>,
    toLock: seq<string>,
    checked: seq<string>,
    toCheck: seq<string>
  )

  // `sweeps` are the bulk releases under way, each with the rooms it has read and not yet updated.
  datatype State = State(rooms: map<string, Room>, txns: map<int, Txn>, sweeps: map<int, set<string>>)

  datatype Step =
    | Begin(t: int, op: Op)
    | LockRow(t: int, now: int)
    | LockUser(t: int)
    | Check(t: int)
    | Commit(t: int, now: int, id: string)
    | Abort(t: int)
    | Single(room: string, st: Statement)
    | ReadSweep(w: int, before: int)
    | Sweep(w: int, room: string, now: int)

  // ---- Looking for active rooms

  ghost predicate ActiveIn(rooms: map<string, Room>, r: string, user: string) {
    r in rooms && Active(rooms[r]) && Seats(rooms[r], user)
  }

  ghost predicate HasActiveRoom(rooms: map<string, Room>, user: string, exclude: Option<string>) {
    exists r :: ActiveIn(rooms, r, user) && Some(r) != exclude
  }

  // No user sits in two rooms that wait or play. Nobody locks the empty user id.
  ghost predicate OneActiveRoom(rooms: map<string, Room>) {
    forall user, r1, r2 :: user != "" && ActiveIn(rooms, r1, user) && ActiveIn(rooms, r2, user) ==> r1 == r2
  }

  // ---- Locks

  function RoomOf(op: Op): Option<string> {
    if op.Create? then None else Some(op.room)
  }

  predicate HoldsRow(x: Txn, room: string) {
    x.row.Some? && RoomOf(x.op) == Some(room)
  }

  predicate HoldsKey(x: Txn, k: int, key: string -> int) {
    exists i :: 0 <= i < |x.locked| && key(x.locked[i]) == k
  }

  ghost predicate RowFree(s: State, room: string) {
    forall t :: t in s.txns ==> !HoldsRow(s.txns[t], room)
  }

  // An advisory lock its own transaction holds already is granted again.
  ghost predicate KeyFree(s: State, t: int, k: int, key: string -> int) {
    forall t2 :: t2 in s.txns && t2 != t ==> !HoldsKey(s.txns[t2], k, key)
  }

  // ---- Steps

  function Opened(op: Op): Txn {
    match op
    case Create(user) => Txn(op, None, [], InLockOrder([user]), [], [user])
    case _ => Txn(op, None, [], [], [], [])
  }

  predicate AtRow(x: Txn) {
    !x.op.Create? && x.row.None?
  }

  // The users whose other rooms a transaction looks at, once it has its row.
  function UsersOf(op: Op, row: Option<Room>): seq<string> {
    match op
    case Create(user) => [user]
    case Join(_, user) => if row.Some? then [user] else []
    case Rematch(_) =>
      if row.Some? && row.value.opponent.Some? then [row.value.creator, row.value.opponent.value] else []
    case Leave(_, _) => []
  }

  predicate Admits(op: Op, row: Room, now: int) {
    match op
    case Create(_) => false
    case Join(_, user) => JoinRefusal(row, user, now).None?
    case Rematch(_) => CanRematch(row)
    case Leave(_, _) => true
  }

  function WithRow(x: Txn, row: Room): Txn {
    var users := UsersOf(x.op, Some(row));
    Txn(x.op, Some(row), [], InLockOrder(users), [], users)
  }

  predicate Ready(x: Txn) {
    !AtRow(x) && x.toLock == [] && x.toCheck == []
  }

  function Written(x: Txn, now: int): Room
    requires Ready(x)
  {
    match x.op
    case Create(user) => NewRoom(user, now)
    case Join(_, user) => Joined(x.row.value, user)
    case Rematch(_) => Rematched(x.row.value, now)
    case Leave(_, user) => Left(x.row.value, user, now)
  }

  function Target(x: Txn, id: string): string {
    if x.op.Create? then id else x.op.room
  }

  function Ended(s: State, t: int): State {
    s.(txns := s.txns - {t})
  }

  function With(s: State, t: int, x: Txn): State {
    s.(txns := s.txns[t := x])
  }

  // A statement that writes one row and takes no other lock.
  predicate Plain(step: Step) {
    step.Single? || step.Sweep?
  }

  // The rooms a bulk release reads. It updates them later, by id alone.
  function Candidates(rooms: map<string, Room>, before: int): set<string> {
    set r | r in rooms && Matches(ReleaseIfOpponentDisconnected(before, 0), rooms[r])
  }

  function PlainRow(s: State, step: Step): Room
    requires Plain(step) && step.room in s.rooms
  {
    if step.Single? then Updated(step.st, s.rooms[step.room]) else Vacated(s.rooms[step.room], step.now)
  }

  function Rewritten(s: State, r: string, row: Room): State {
    s.(rooms := s.rooms[r := row])
  }

  // A step that is not enabled waits: it leaves the state as it is.
  ghost predicate Enabled(s: State, step: Step, key: string -> int) {
    match step
    case Begin(t, _) => t !in s.txns
    case LockRow(t, _) =>
      t in s.txns && AtRow(s.txns[t]) && RowFree(s, s.txns[t].op.room)
    case LockUser(t) =>
      t in s.txns && s.txns[t].toLock != [] && KeyFree(s, t, key(s.txns[t].toLock[0]), key)
    case Check(t) => t in s.txns && s.txns[t].toLock == [] && s.txns[t].toCheck != []
    case Commit(t, _, id) => t in s.txns && Ready(s.txns[t]) && (s.txns[t].op.Create? ==> id !in s.rooms)
    case Abort(t) => t in s.txns
    case Single(room, st) => room in s.rooms && RowFree(s, room) && Matches(st, s.rooms[room])
    case ReadSweep(w, _) => w !in s.sweeps
    case Sweep(w, room, _) => w in s.sweeps && room in s.sweeps[w] && room in s.rooms && RowFree(s, room)
  }

  ghost function Next(s: State, step: Step, key: string -> int): State {
    if !Enabled(s, step, key) then s
    else
      match step
      case Begin(t, op) => With(s, t, Opened(op))
      case LockRow(t, now) => AfterLockRow(s, t, now)
      case LockUser(t) => With(s, t, Granted(s.txns[t]))
      case Check(t) => AfterCheck(s, t)
      case Commit(t, now, id) =>
        var x := s.txns[t];
        Ended(Rewritten(s, Target(x, id), Written(x, now)), t)
      case Abort(t) => Ended(s, t)
      case Single(room, _) => Rewritten(s, room, PlainRow(s, step))
      case ReadSweep(w, before) => s.(sweeps := s.sweeps[w := Candidates(s.rooms, before)])
      case Sweep(w, room, _) => Rewritten(s, room, PlainRow(s, step)).(sweeps := s.sweeps[w := s.sweeps[w] - {room}])
  }

  // The transaction with the lock it was waiting for.
  function Granted(x: Txn): Txn
    requires x.toLock != []
  {
    x.(locked := x.locked + [x.toLock[0]], toLock := x.toLock[1..])
  }

  // SELECT ... FOR UPDATE and the refusals that follow it.
  function AfterLockRow(s: State, t: int, now: int): State
    requires t in s.txns && AtRow(s.txns[t])
  {
    var x := s.txns[t];
    if x.op.room in s.rooms && Admits(x.op, s.rooms[x.op.room], now) then With(s, t, WithRow(x, s.rooms[x.op.room]))
    else Ended(s, t)
  }

  ghost function AfterCheck(s: State, t: int): State
    requires t in s.txns && s.txns[t].toCheck != []
  {
    var x := s.txns[t];
    if HasActiveRoom(s.rooms, x.toCheck[0], RoomOf(x.op)) then Ended(s, t)
    else With(s, t, x.(checked := x.checked + [x.toCheck[0]], toCheck := x.toCheck[1..]))
  }

  // ---- What every open transaction knows

  // Progress through its own lists.
  predicate InOrder(x: Txn) {
    && x.locked + x.toLock == InLockOrder(UsersOf(x.op, x.row))
    && x.checked + x.toCheck == UsersOf(x.op, x.row)
    && (x.checked != [] ==> x.toLock == [])
    && (x.op.Create? ==> x.row.None?)
  }

  // The locked row is still what it was when it was read.
  predicate RowHeld(rooms: map<string, Room>, x: Txn) {
    x.row.Some? && !x.op.Create? ==>
      && x.op.room in rooms && rooms[x.op.room] == x.row.value
      && (x.op.Join? ==> x.row.value.status.Waiting? && x.row.value.opponent.None?)
      && (x.op.Rematch? ==> CanRematch(x.row.value))
  }

  // The users it has looked at are still in no other active room.
  ghost predicate StillFree(rooms: map<string, Room>, x: Txn) {
    forall user, r :: user in x.checked && user != "" && ActiveIn(rooms, r, user) ==> Some(r) == RoomOf(x.op)
  }

  ghost predicate RowsExclusive(txns: map<int, Txn>) {
    forall t1, t2 ::
      t1 in txns && t2 in txns && txns[t1].row.Some? && txns[t2].row.Some? &&
      RoomOf(txns[t1].op) == RoomOf(txns[t2].op)
      ==> t1 == t2
  }

  ghost predicate KeysExclusive(txns: map<int, Txn>, key: string -> int) {
    forall t1, t2, u1, u2 {:trigger u1 in txns[t1].locked, u2 in txns[t2].locked} ::
      t1 in txns && t2 in txns && u1 in txns[t1].locked && u2 in txns[t2].locked && key(u1) == key(u2)
      ==> t1 == t2
  }

  ghost predicate LocksInv(s: State, key: string -> int) {
    && RowsExclusive(s.txns)
    && KeysExclusive(s.txns, key)
    && forall t :: t in s.txns ==> InOrder(s.txns[t])
  }

  ghost predicate RowsInv(s: State) {
    forall t :: t in s.txns ==> RowHeld(s.rooms, s.txns[t])
  }

  ghost predicate ChecksInv(s: State) {
    forall t :: t in s.txns ==> StillFree(s.rooms, s.txns[t])
  }

  ghost predicate Inv(s: State, key: string -> int) {
    LocksInv(s, key) && RowsInv(s) && ChecksInv(s) && OneActiveRoom(s.rooms)
  }

  // ---- Locks are exclusive

  lemma OneTxnKeepsLocks(s: State, t: int, x: Txn, key: string -> int)
    requires LocksInv(s, key) && InOrder(x)
    requires x.row.Some? ==> forall t2 :: t2 in s.txns && t2 != t && s.txns[t2].row.Some? ==>
      RoomOf(s.txns[t2].op) != RoomOf(x.op)
    requires forall t2, u, u2 :: t2 in s.txns && t2 != t && u in x.locked && u2 in s.txns[t2].locked ==>
      key(u) != key(u2)
    ensures LocksInv(With(s, t, x), key)
  {
  }

  lemma LockRowKeepsLocks(s: State, t: int, now: int, key: string -> int)
    requires LocksInv(s, key) && Enabled(s, LockRow(t, now), key)
    ensures LocksInv(AfterLockRow(s, t, now), key)
  {
    var x := s.txns[t];
    if x.op.room in s.rooms {
      var y := WithRow(x, s.rooms[x.op.room]);
      forall t2 | t2 in s.txns && t2 != t && s.txns[t2].row.Some? ensures RoomOf(s.txns[t2].op) != RoomOf(y.op) {
        assert !HoldsRow(s.txns[t2], x.op.room);
      }
      OneTxnKeepsLocks(s, t, y, key);
    }
  }

  // Nobody else holds the key of the user this transaction is granted.
  lemma GrantedKeyIsFree(s: State, t: int, t2: int, u2: string, key: string -> int)
    requires t in s.txns && s.txns[t].toLock != [] && KeyFree(s, t, key(s.txns[t].toLock[0]), key)
    requires t2 in s.txns && t2 != t && u2 in s.txns[t2].locked
    ensures key(s.txns[t].toLock[0]) != key(u2)
  {
    assert !HoldsKey(s.txns[t2], key(s.txns[t].toLock[0]), key);
  }

  lemma LockUserKeepsLocks(s: State, t: int, key: string -> int)
    requires LocksInv(s, key) && Enabled(s, LockUser(t), key)
    ensures LocksInv(Next(s, LockUser(t), key), key)
  {
    var x := s.txns[t];
    OneMoreLockIsInOrder(x);
    forall u, t2, u2 | t2 in s.txns && t2 != t && u in Granted(x).locked && u2 in s.txns[t2].locked
      ensures key(u) != key(u2)
    {
      if u in x.locked {
        OthersHoldOtherKeys(s, t, u, t2, u2, key);
      } else {
        GrantedKeyIsFree(s, t, t2, u2, key);
      }
    }
    OneTxnKeepsLocks(s, t, Granted(x), key);
  }

  lemma OneMoreLockIsInOrder(x: Txn)
    requires InOrder(x) && x.toLock != []
    ensures InOrder(Granted(x)) && forall u :: u in Granted(x).locked <==> u in x.locked || u == x.toLock[0]
  {
    assert Granted(x).locked + Granted(x).toLock == x.locked + x.toLock;
  }

  lemma OthersHoldOtherKeys(s: State, t: int, u: string, t2: int, u2: string, key: string -> int)
    requires KeysExclusive(s.txns, key) && t in s.txns && t2 in s.txns && t2 != t
    requires u in s.txns[t].locked && u2 in s.txns[t2].locked
    ensures key(u) != key(u2)
  {
  }

  lemma CheckKeepsLocks(s: State, t: int, key: string -> int)
    requires LocksInv(s, key) && Enabled(s, Check(t), key)
    ensures LocksInv(AfterCheck(s, t), key)
  {
    var x := s.txns[t];
    var y := x.(checked := x.checked + [x.toCheck[0]], toCheck := x.toCheck[1..]);
    assert y.checked + y.toCheck == x.checked + x.toCheck;
    OneTxnKeepsLocks(s, t, y, key);
  }

  lemma BeginKeepsLocks(s: State, t: int, op: Op, key: string -> int)
    requires LocksInv(s, key) && t !in s.txns
    ensures LocksInv(With(s, t, Opened(op)), key)
  {
    OneTxnKeepsLocks(s, t, Opened(op), key);
  }

  lemma EndKeepsLocks(s: State, t: int, key: string -> int)
    requires LocksInv(s, key)
    ensures LocksInv(Ended(s, t), key)
  {
  }

  lemma StepKeepsLocks(s: State, step: Step, key: string -> int)
    requires LocksInv(s, key)
    ensures LocksInv(Next(s, step, key), key)
  {
    if Enabled(s, step, key) {
      match step
      case Begin(t, op) => BeginKeepsLocks(s, t, op, key);
      case LockRow(t, now) => LockRowKeepsLocks(s, t, now, key);
      case LockUser(t) => LockUserKeepsLocks(s, t, key);
      case Check(t) => CheckKeepsLocks(s, t, key);
      case Commit(t, _, _) => EndKeepsLocks(s, t, key);
      case Abort(t) => EndKeepsLocks(s, t, key);
      case _ =>
    }
  }

  // ---- Who comes to sit in an active room

  ghost predicate Enters(rooms: map<string, Room>, r: string, row: Room, user: string) {
    user != "" && Active(row) && Seats(row, user) && !ActiveIn(rooms, r, user)
  }

  // Steps that make a finished or expired room wait again without looking at its players.
  ghost predicate Reopens(s: State, step: Step) {
    match step
    case Single(room, st) =>
      room in s.rooms && (st.Reset? || (st.ReleaseIfOpponentDisconnected? && !Active(s.rooms[room])))
    case Commit(t, _, _) =>
      t in s.txns && s.txns[t].op.Leave? && s.txns[t].row.Some? &&
      s.txns[t].row.value.creator != s.txns[t].op.user && s.txns[t].row.value.opponent == Some(s.txns[t].op.user) &&
      !Active(s.txns[t].row.value)
    case Sweep(_, room, _) => room in s.rooms && !Active(s.rooms[room])
    case _ => false
  }

  lemma SingleSeatsNobody(s: State, room: string, st: Statement, user: string)
    requires room in s.rooms && Matches(st, s.rooms[room]) && !Reopens(s, Single(room, st))
    ensures !Enters(s.rooms, room, Updated(st, s.rooms[room]), user)
  {
  }

  lemma PlainSeatsNobody(s: State, step: Step, user: string)
    requires Plain(step) && step.room in s.rooms && (step.Single? ==> Matches(step.st, s.rooms[step.room]))
    requires !Reopens(s, step)
    ensures !Enters(s.rooms, step.room, PlainRow(s, step), user)
  {
    if step.Single? { SingleSeatsNobody(s, step.room, step.st, user); }
  }

  // A commit seats only users that the transaction has found free.
  lemma CommitSeatsCheckedUsers(s: State, t: int, now: int, id: string, user: string)
    requires t in s.txns && Ready(s.txns[t]) && InOrder(s.txns[t]) && RowHeld(s.rooms, s.txns[t])
    requires !Reopens(s, Commit(t, now, id))
    requires Enters(s.rooms, Target(s.txns[t], id), Written(s.txns[t], now), user)
    ensures user in s.txns[t].checked
  {
    var x := s.txns[t];
    assert x.checked == UsersOf(x.op, x.row);
  }

  lemma SeatingKeepsOneActiveRoom(rooms: map<string, Room>, r: string, row: Room)
    requires OneActiveRoom(rooms)
    requires forall user, r2 :: Enters(rooms, r, row, user) ==> !ActiveIn(rooms, r2, user)
    ensures OneActiveRoom(rooms[r := row])
  {
    var after := rooms[r := row];
    forall user, r1, r2 | user != "" && ActiveIn(after, r1, user) && ActiveIn(after, r2, user) ensures r1 == r2 {
      if r1 != r { assert ActiveIn(rooms, r1, user); }
      if r2 != r { assert ActiveIn(rooms, r2, user); }
      if r1 == r || r2 == r {
        assert Enters(rooms, r, row, user) || ActiveIn(rooms, r, user);
      }
    }
  }

  lemma SeatingKeepsChecks(rooms: map<string, Room>, r: string, row: Room, x: Txn)
    requires StillFree(rooms, x)
    requires forall user :: user in x.checked && Enters(rooms, r, row, user) ==> Some(r) == RoomOf(x.op)
    ensures StillFree(rooms[r := row], x)
  {
    var after := rooms[r := row];
    forall user, r2 | user in x.checked && user != "" && ActiveIn(after, r2, user) ensures Some(r2) == RoomOf(x.op) {
      if r2 != r {
        assert ActiveIn(rooms, r2, user);
      } else {
        assert Enters(rooms, r, row, user) || ActiveIn(rooms, r, user);
      }
    }
  }

  // ---- One step

  lemma PlainKeepsInv(s: State, step: Step, key: string -> int)
    requires Inv(s, key) && Plain(step) && Enabled(s, step, key) && !Reopens(s, step)
    ensures var s' := Next(s, step, key); ChecksInv(s') && OneActiveRoom(s'.rooms)
  {
    var row := PlainRow(s, step);
    forall user ensures !Enters(s.rooms, step.room, row, user) {
      PlainSeatsNobody(s, step, user);
    }
    SeatingKeepsOneActiveRoom(s.rooms, step.room, row);
    forall t | t in s.txns ensures StillFree(s.rooms[step.room := row], s.txns[t]) {
      SeatingKeepsChecks(s.rooms, step.room, row, s.txns[t]);
    }
  }

  lemma WriteKeepsRows(s: State, room: string, row: Room)
    requires RowsInv(s) && RowFree(s, room)
    ensures RowsInv(Rewritten(s, room, row))
  {
    forall t | t in s.txns ensures RowHeld(s.rooms[room := row], s.txns[t]) {
      assert !HoldsRow(s.txns[t], room);
    }
  }

  lemma CommitKeepsInv(s: State, t: int, now: int, id: string, key: string -> int)
    requires Inv(s, key) && Enabled(s, Commit(t, now, id), key) && !Reopens(s, Commit(t, now, id))
    ensures var s' := Next(s, Commit(t, now, id), key); ChecksInv(s') && OneActiveRoom(s'.rooms)
  {
    var x := s.txns[t];
    var r, row := Target(x, id), Written(x, now);
    forall user, r2 | Enters(s.rooms, r, row, user) ensures !ActiveIn(s.rooms, r2, user) {
      CommitSeatsCheckedUsers(s, t, now, id, user);
    }
    SeatingKeepsOneActiveRoom(s.rooms, r, row);
    CommitKeepsOthersChecks(s, t, now, id, key);
  }

  lemma CommitKeepsOthersChecks(s: State, t: int, now: int, id: string, key: string -> int)
    requires Inv(s, key) && Enabled(s, Commit(t, now, id), key) && !Reopens(s, Commit(t, now, id))
    ensures ChecksInv(Next(s, Commit(t, now, id), key))
  {
    var r, row := Target(s.txns[t], id), Written(s.txns[t], now);
    forall t2 | t2 in s.txns && t2 != t ensures StillFree(s.rooms[r := row], s.txns[t2]) {
      forall user | user in s.txns[t2].checked ensures !Enters(s.rooms, r, row, user) {
        if Enters(s.rooms, r, row, user) {
          CommitSeatsCheckedUsers(s, t, now, id, user);
          OnlyOneChecks(s, t, t2, user, key);
          assert false;
        }
      }
      SeatingKeepsChecks(s.rooms, r, row, s.txns[t2]);
    }
  }

  lemma CheckedIsLocked(x: Txn, user: string)
    requires InOrder(x) && user in x.checked && user != ""
    ensures user in x.locked
  {
    assert user in x.checked + x.toCheck;
    assert user in x.locked + x.toLock;
  }

  lemma OnlyOneChecks(s: State, t1: int, t2: int, user: string, key: string -> int)
    requires LocksInv(s, key) && t1 in s.txns && t2 in s.txns && user != ""
    requires user in s.txns[t1].checked && user in s.txns[t2].checked
    ensures t1 == t2
  {
    CheckedIsLocked(s.txns[t1], user);
    CheckedIsLocked(s.txns[t2], user);
  }

  lemma CommitKeepsRows(s: State, t: int, r: string, row: Room, key: string -> int)
    requires LocksInv(s, key) && RowsInv(s) && t in s.txns && Ready(s.txns[t])
    requires if s.txns[t].op.Create? then r !in s.rooms else r == s.txns[t].op.room
    ensures RowsInv(Ended(Rewritten(s, r, row), t))
  {
    forall t2 | t2 in s.txns && t2 != t ensures RowHeld(s.rooms[r := row], s.txns[t2]) {
      assert RowHeld(s.rooms, s.txns[t2]);
    }
  }

  lemma CheckKeepsChecks(s: State, t: int)
    requires ChecksInv(s) && t in s.txns && s.txns[t].toCheck != []
    ensures ChecksInv(AfterCheck(s, t))
  {
    var x := s.txns[t];
    if !HasActiveRoom(s.rooms, x.toCheck[0], RoomOf(x.op)) {
      var y := x.(checked := x.checked + [x.toCheck[0]], toCheck := x.toCheck[1..]);
      forall user, r | user in y.checked && user != "" && ActiveIn(s.rooms, r, user) ensures Some(r) == RoomOf(y.op) {
        assert user in x.checked || user == x.toCheck[0];
      }
      assert StillFree(s.rooms, y);
    }
  }

  lemma TxnStepKeepsRows(s: State, step: Step, key: string -> int)
    requires RowsInv(s) && !step.Commit? && !Plain(step)
    ensures RowsInv(Next(s, step, key))
  {
  }

  lemma TxnStepKeepsChecks(s: State, step: Step, key: string -> int)
    requires ChecksInv(s) && !step.Commit? && !Plain(step)
    ensures ChecksInv(Next(s, step, key)) && Next(s, step, key).rooms == s.rooms
  {
    if step.Check? && Enabled(s, step, key) {
      CheckKeepsChecks(s, step.t);
    }
  }

  lemma TxnStepKeepsTable(s: State, step: Step, key: string -> int)
    requires !step.Commit? && !Plain(step)
    ensures Next(s, step, key).rooms == s.rooms
  {
  }

  // Any step whatever.
  lemma StepKeepsRows(s: State, step: Step, key: string -> int)
    requires LocksInv(s, key) && RowsInv(s)
    ensures LocksInv(Next(s, step, key), key) && RowsInv(Next(s, step, key))
  {
    StepKeepsLocks(s, step, key);
    if !Enabled(s, step, key) {
    } else if step.Commit? {
      CommitKeepsRows(s, step.t, Target(s.txns[step.t], step.id), Written(s.txns[step.t], step.now), key);
    } else if Plain(step) {
      WriteKeepsRows(s, step.room, PlainRow(s, step));
    } else {
      TxnStepKeepsRows(s, step, key);
    }
  }

  lemma StepKeepsInv(s: State, step: Step, key: string -> int)
    requires Inv(s, key) && !Reopens(s, step)
    ensures Inv(Next(s, step, key), key)
  {
    StepKeepsRows(s, step, key);
    if !Enabled(s, step, key) {
    } else if step.Commit? {
      CommitKeepsInv(s, step.t, step.now, step.id, key);
    } else if Plain(step) {
      PlainKeepsInv(s, step, key);
    } else {
      TxnStepKeepsChecks(s, step, key);
    }
  }
}
