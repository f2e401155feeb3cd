/** Waiting for locks: transactions on the rooms table never wait in a circle, exactly when the
    users that share an advisory lock stand next to each other in lock order. */
module RoomDeadlock {
  import opened Base
  import opened LockOrder
  import opened RoomRows
  import opened RoomTable
  import opened RoomRuns
  import opened RoomRepository
  import opened RoomReach

  ghost predicate Waits(s: State, t1: int, t2: int, key: string -> int) {
    && t1 in s.txns && t2 in s.txns && t1 != t2
    && ((AtRow(s.txns[t1]) && HoldsRow(s.txns[t2], s.txns[t1].op.room)) ||
        (s.txns[t1].toLock != [] && HoldsKey(s.txns[t2], key(s.txns[t1].toLock[0]), key)))
  }

  // Each waits for the next, and the last is the first.
  ghost predicate WaitCycle(s: State, cycle: seq<int>, key: string -> int) {
    && |cycle| > 1 && cycle[0] == cycle[|cycle| - 1]
    && WaitPath(s, cycle, key)
  }

  // Between two of these users with one lock there is none with another.
  ghost predicate Contiguous(key: string -> int, users: iset<string>) {
    forall u, v, w :: u in users && v in users && w in users && u != "" && Less(u, v) && Less(v, w) && key(u) == key(w)
      ==> key(v) == key(u)
  }

  // All users that open transactions lock or are about to lock.
  ghost predicate Involves(s: State, users: iset<string>) {
    forall t, u :: t in s.txns && u in s.txns[t].locked + s.txns[t].toLock ==> u in users
  }

  predicate Wanting(s: State, t: int) {
    t in s.txns && s.txns[t].toLock != []
  }

  // The user a transaction is about to lock.
  function Wants(s: State, t: int): string
    requires Wanting(s, t)
  {
    s.txns[t].toLock[0]
  }

  lemma AtRowHoldsNothing(x: Txn)
    requires InOrder(x) && AtRow(x)
    ensures x.toLock == [] && x.locked == []
  {
    assert UsersOf(x.op, x.row) == [];
  }

  lemma HolderIsPastItsRow(s: State, t1: int, t2: int, key: string -> int)
    requires LocksInv(s, key) && Waits(s, t1, t2, key)
    ensures !AtRow(s.txns[t2])
  {
    if AtRow(s.txns[t2]) { AtRowHoldsNothing(s.txns[t2]); }
  }

  lemma HolderWantsAUser(s: State, t1: int, t2: int, t3: int, key: string -> int)
    requires LocksInv(s, key) && Waits(s, t1, t2, key) && Waits(s, t2, t3, key)
    ensures Wanting(s, t2)
  {
    HolderIsPastItsRow(s, t1, t2, key);
  }

  lemma HoldsForWaiter(s: State, t1: int, t2: int, key: string -> int) returns (u: string)
    requires LocksInv(s, key) && Waits(s, t1, t2, key) && Wanting(s, t1)
    ensures u in s.txns[t2].locked && key(u) == key(Wants(s, t1))
  {
    if AtRow(s.txns[t1]) { AtRowHoldsNothing(s.txns[t1]); }
    var i :| 0 <= i < |s.txns[t2].locked| && key(s.txns[t2].locked[i]) == key(Wants(s, t1));
    u := s.txns[t2].locked[i];
  }

  lemma LocksBeforeItsWish(s: State, t: int, u: string, key: string -> int)
    requires LocksInv(s, key) && Wanting(s, t) && u in s.txns[t].locked
    ensures u != "" && Less(u, Wants(s, t))
  {
    var x := s.txns[t];
    InLockOrderAscends(UsersOf(x.op, x.row));
    var all := x.locked + x.toLock;
    var i :| 0 <= i < |x.locked| && x.locked[i] == u;
    assert all[i] == u && all[|x.locked|] == Wants(s, t);
    assert all[i] in all;
  }

  // Someone waited for who waits as well: the wish of the second comes later in lock order. For
  // it has another key than any lock the second holds.
  lemma WishesAscend(s: State, t1: int, t2: int, t3: int, key: string -> int, users: iset<string>)
    requires LocksInv(s, key) && Involves(s, users) && Contiguous(key, users)
    requires Waits(s, t1, t2, key) && Waits(s, t2, t3, key) && Wanting(s, t1) && Wanting(s, t2)
    ensures Less(Wants(s, t1), Wants(s, t2))
  {
    var u := HoldsForWaiter(s, t1, t2, key);
    var v := HoldsForWaiter(s, t2, t3, key);
    LocksBeforeItsWish(s, t2, u, key);
    assert key(u) != key(v);
    LaterWish(u, Wants(s, t1), Wants(s, t2), key, users) by {
      assert u in s.txns[t2].locked + s.txns[t2].toLock;
      assert Wants(s, t1) in s.txns[t1].locked + s.txns[t1].toLock;
      assert Wants(s, t2) in s.txns[t2].locked + s.txns[t2].toLock;
    }
  }

  lemma LaterWish(u: string, w1: string, w2: string, key: string -> int, users: iset<string>)
    requires Contiguous(key, users) && u in users && w1 in users && w2 in users
    requires u != "" && Less(u, w2) && key(u) == key(w1) && key(w1) != key(w2)
    ensures Less(w1, w2)
  {
    LessIsStrictTotal(w1, w2);
  }

  ghost predicate WaitPath(s: State, path: seq<int>, key: string -> int) {
    forall i :: 0 <= i < |path| - 1 ==> Waits(s, path[i], path[i + 1], key)
  }

  lemma {:induction false} ChainAscends(s: State, path: seq<int>, i: nat, key: string -> int, users: iset<string>)
    requires LocksInv(s, key) && Involves(s, users) && Contiguous(key, users) && WaitPath(s, path, key)
    requires 0 < i < |path| - 1 && Wanting(s, path[0])
    ensures Wanting(s, path[i]) && Less(Wants(s, path[0]), Wants(s, path[i]))
  {
    HolderWantsAUser(s, path[i - 1], path[i], path[i + 1], key);
    if i == 1 {
      WishesAscend(s, path[0], path[1], path[2], key, users);
    } else {
      ChainAscends(s, path, i - 1, key, users);
      WishesAscend(s, path[i - 1], path[i], path[i + 1], key, users);
      LessIsTransitive(Wants(s, path[0]), Wants(s, path[i - 1]), Wants(s, path[i]));
    }
  }

  lemma NoWaitCycle(s: State, cycle: seq<int>, key: string -> int, users: iset<string>)
    requires LocksInv(s, key) && Involves(s, users) && Contiguous(key, users)
    ensures !WaitCycle(s, cycle, key)
  {
    if WaitCycle(s, cycle, key) {
      var k := |cycle| - 1;
      HolderWantsAUser(s, cycle[k - 1], cycle[k], cycle[1], key);
      if k > 1 {
        ChainAscends(s, cycle, k - 1, key, users);
        WishesAscend(s, cycle[k - 1], cycle[k], cycle[1], key, users);
        LessIsStrictTotal(Wants(s, cycle[0]), Wants(s, cycle[k - 1]));
      }
      assert false;
    }
  }

  // ---- Whole runs

  predicate RowWithin(row: Room, users: iset<string>) {
    row.creator in users && (row.opponent.Some? ==> row.opponent.value in users)
  }

  ghost predicate UsersInv(s: State, users: iset<string>) {
    && (forall r :: r in s.rooms ==> RowWithin(s.rooms[r], users))
    && (forall t :: t in s.txns ==> OpWithin(s.txns[t].op, users))
    && (forall t :: t in s.txns && s.txns[t].row.Some? ==> RowWithin(s.txns[t].row.value, users))
  }

  lemma WriteKeepsUsers(s: State, r: string, row: Room, users: iset<string>)
    requires UsersInv(s, users) && RowWithin(row, users)
    ensures UsersInv(Rewritten(s, r, row), users)
  {
  }

  lemma TxnKeepsUsers(s: State, t: int, x: Txn, users: iset<string>)
    requires UsersInv(s, users) && OpWithin(x.op, users) && (x.row.Some? ==> RowWithin(x.row.value, users))
    ensures UsersInv(With(s, t, x), users) && UsersInv(Ended(s, t), users)
  {
  }

  lemma WrittenIsWithin(x: Txn, now: int, users: iset<string>)
    requires Ready(x) && OpWithin(x.op, users) && (x.row.Some? ==> RowWithin(x.row.value, users))
    ensures RowWithin(Written(x, now), users)
  {
  }

  lemma UpdatedIsWithin(st: Statement, row: Room, users: iset<string>)
    requires RowWithin(row, users)
    ensures RowWithin(Updated(st, row), users)
  {
  }

  lemma StepKeepsUsers(s: State, step: Step, users: iset<string>, key: string -> int)
    requires UsersInv(s, users) && StepWithin(step, users) && Enabled(s, step, key)
    ensures UsersInv(Next(s, step, key), users)
  {
    match step
    case Begin(t, op) => TxnKeepsUsers(s, t, Opened(op), users);
    case LockRow(t, _) =>
      var x := s.txns[t];
      TxnKeepsUsers(s, t, if x.op.room in s.rooms then WithRow(x, s.rooms[x.op.room]) else x, users);
    case LockUser(t) =>
      TxnKeepsUsers(s, t, Granted(s.txns[t]), users);
    case Check(t) =>
      var x := s.txns[t];
      TxnKeepsUsers(s, t, x.(checked := x.checked + [x.toCheck[0]], toCheck := x.toCheck[1..]), users);
    case Commit(t, now, id) =>
      var x := s.txns[t];
      WrittenIsWithin(x, now, users);
      WriteKeepsUsers(s, Target(x, id), Written(x, now), users);
      TxnKeepsUsers(Rewritten(s, Target(x, id), Written(x, now)), t, x, users);
    case Abort(t) => TxnKeepsUsers(s, t, s.txns[t], users);
    case Single(room, st) =>
      UpdatedIsWithin(st, s.rooms[room], users);
      WriteKeepsUsers(s, room, PlainRow(s, step), users);
    case ReadSweep(_, _) =>
    case Sweep(_, room, _) => WriteKeepsUsers(s, room, PlainRow(s, step), users);
  }

  lemma {:induction false} RunKeepsUsers(steps: seq<Step>, users: iset<string>, key: string -> int)
    requires Within(steps, users)
    ensures LocksInv(Run(EMPTY, steps, key), key) && UsersInv(Run(EMPTY, steps, key), users)
  {
    if steps != [] {
      var n := |steps| - 1;
      var before := Run(EMPTY, steps[..n], key);
      RunKeepsUsers(steps[..n], users, key);
      StepKeepsLocks(before, steps[n], key);
      if Enabled(before, steps[n], key) { StepKeepsUsers(before, steps[n], users, key); }
    }
  }

  lemma OwnUsersAreInvolved(s: State, users: iset<string>, key: string -> int)
    requires LocksInv(s, key) && UsersInv(s, users)
    ensures Involves(s, users)
  {
    forall t, u | t in s.txns && u in s.txns[t].locked + s.txns[t].toLock ensures u in users {
      assert u in UsersOf(s.txns[t].op, s.txns[t].row);
    }
  }

  // No run, reopening or not, with these users reaches a circle of waiting transactions.
  lemma NoRunDeadlocks(steps: seq<Step>, cycle: seq<int>, users: iset<string>, key: string -> int)
    requires Within(steps, users) && Contiguous(key, users)
    ensures !WaitCycle(Run(EMPTY, steps, key), cycle, key)
  {
    RunKeepsUsers(steps, users, key);
    OwnUsersAreInvolved(Run(EMPTY, steps, key), users, key);
    NoWaitCycle(Run(EMPTY, steps, key), cycle, key, users);
  }

  // ---- Progress

  // The transaction has a step of its own to take (`id` is a fresh room id).
  ghost predicate CanAdvance(s: State, t: int, id: string, key: string -> int) {
    || Enabled(s, LockRow(t, 0), key)
    || Enabled(s, LockUser(t), key)
    || Enabled(s, Check(t), key)
    || Enabled(s, Commit(t, 0, id), key)
  }

  lemma WaitsOrAdvances(s: State, t: int, id: string, key: string -> int)
    requires LocksInv(s, key) && t in s.txns && id !in s.rooms
    ensures CanAdvance(s, t, id, key) || exists t2 :: Waits(s, t, t2, key)
  {
    var x := s.txns[t];
    if AtRow(x) {
      WaitsForItsRow(s, t, key);
    } else if x.toLock != [] {
      WaitsForItsUser(s, t, key);
    } else {
      ChecksOrCommits(s, t, id, key);
    }
  }

  lemma ChecksOrCommits(s: State, t: int, id: string, key: string -> int)
    requires t in s.txns && !AtRow(s.txns[t]) && s.txns[t].toLock == [] && id !in s.rooms
    ensures Enabled(s, Check(t), key) || Enabled(s, Commit(t, 0, id), key)
  {
  }

  lemma WaitsForItsRow(s: State, t: int, key: string -> int)
    requires t in s.txns && AtRow(s.txns[t])
    ensures Enabled(s, LockRow(t, 0), key) || exists t2 :: Waits(s, t, t2, key)
  {
    if !RowFree(s, s.txns[t].op.room) {
      var t2 :| t2 in s.txns && HoldsRow(s.txns[t2], s.txns[t].op.room);
      assert t2 != t;
      assert Waits(s, t, t2, key);
    }
  }

  lemma WaitsForItsUser(s: State, t: int, key: string -> int)
    requires t in s.txns && !AtRow(s.txns[t]) && s.txns[t].toLock != []
    ensures Enabled(s, LockUser(t), key) || exists t2 :: Waits(s, t, t2, key)
  {
    var k := key(s.txns[t].toLock[0]);
    if !KeyFree(s, t, k, key) {
      var t2 :| t2 in s.txns && t2 != t && HoldsKey(s.txns[t2], k, key);
      assert Waits(s, t, t2, key);
    }
  }

  // Among transactions about to lock a user, one whose wish is last in lock order.
  lemma {:induction false} LastWish(s: State, ts: set<int>, first: int) returns (m: int)
    requires first in ts && forall t :: t in ts ==> Wanting(s, t)
    ensures m in ts && forall t :: t in ts ==> !Less(Wants(s, m), Wants(s, t))
    decreases |ts|
  {
    m := first;
    LessIsStrictTotal(Wants(s, m), Wants(s, m));
    var rest := ts - {m};
    assert forall t :: t in ts <==> t == m || t in rest;
    if next :| next in rest {
      var n := LastWish(s, rest, next);
      if Less(Wants(s, m), Wants(s, n)) {
        LessIsStrictTotal(Wants(s, m), Wants(s, n));
        m := n;
      } else {
        forall t | t in rest ensures !Less(Wants(s, m), Wants(s, t)) {
          LessIsStrictTotal(Wants(s, n), Wants(s, t));
          if Less(Wants(s, m), Wants(s, t)) && Less(Wants(s, t), Wants(s, n)) {
            LessIsTransitive(Wants(s, m), Wants(s, t), Wants(s, n));
          }
        }
      }
    }
  }

  // A transaction that nobody it might wait for can wait in turn.
  ghost predicate Foremost(s: State, t: int) {
    && t in s.txns
    && (forall u :: Wanting(s, u) ==> Wanting(s, t) && !Less(Wants(s, t), Wants(s, u)))
  }

  lemma SomeoneIsForemost(s: State) returns (t: int)
    requires exists t :: t in s.txns
    ensures Foremost(s, t)
  {
    var wanting := set u | u in s.txns && s.txns[u].toLock != [];
    assert forall u :: Wanting(s, u) <==> u in wanting;
    if first :| first in wanting {
      t := LastWish(s, wanting, first);
    } else {
      var any :| any in s.txns;
      t := any;
    }
  }

  // While transactions are open, one of them can go on.
  lemma SomeoneCanAdvance(s: State, id: string, key: string -> int, users: iset<string>)
    requires LocksInv(s, key) && Involves(s, users) && Contiguous(key, users)
    requires (exists t :: t in s.txns) && id !in s.rooms
    ensures exists t :: t in s.txns && CanAdvance(s, t, id, key)
  {
    var t := SomeoneIsForemost(s);
    WaitsOrAdvances(s, t, id, key);
    if t2 :| Waits(s, t, t2, key) {
      HolderAdvances(s, t, t2, id, key, users);
    }
  }

  lemma HolderAdvances(s: State, t: int, t2: int, id: string, key: string -> int, users: iset<string>)
    requires LocksInv(s, key) && Involves(s, users) && Contiguous(key, users)
    requires id !in s.rooms && Foremost(s, t) && Waits(s, t, t2, key)
    ensures CanAdvance(s, t2, id, key)
  {
    WaitsOrAdvances(s, t2, id, key);
    if t3 :| Waits(s, t2, t3, key) {
      HolderWantsAUser(s, t, t2, t3, key);
      WishesAscend(s, t, t2, t3, key, users);
      assert false;
    }
  }

  // ---- Two users on one lock

  function Rematching(room: string, over: Room, locked: string, next: string): Txn
    requires over.opponent.Some?
  {
    Txn(Op.Rematch(room), Some(over), [locked], [next], [], [over.creator, over.opponent.value])
  }

  lemma PairInLockOrder(a: string, b: string)
    requires a != "" && Less(a, b)
    ensures InLockOrder([a, b]) == [a, b]
  {
    LessIsStrictTotal(a, b);
    assert [a, b][1..] == [b];
    assert InLockOrder([b]) == [b];
  }

  // A transaction asks for a rematch and takes the lock of its first user.
  lemma RematchTakesItsFirstUser(s: State, t: int, room: string, over: Room, key: string -> int)
    requires CanRematch(over) && room in s.rooms && s.rooms[room] == over
    requires over.creator != "" && Less(over.creator, over.opponent.value) && t !in s.txns
    requires RowFree(s, room) && KeyFree(s, t, key(over.creator), key)
    ensures var s1 := Next(s, Begin(t, Op.Rematch(room)), key);
      var s2 := Next(s1, LockRow(t, 0), key);
      Next(s2, LockUser(t), key) == With(s, t, Rematching(room, over, over.creator, over.opponent.value))
  {
    PairInLockOrder(over.creator, over.opponent.value);
    var s1 := Next(s, Begin(t, Op.Rematch(room)), key);
    assert Enabled(s1, LockRow(t, 0), key);
    var s2 := Next(s1, LockRow(t, 0), key);
    assert s2 == With(s, t, Txn(Op.Rematch(room), Some(over), [], [over.creator, over.opponent.value], [],
                                [over.creator, over.opponent.value]));
    var x := s2.txns[t];
    assert Enabled(s2, LockUser(t), key) && x.locked + [x.toLock[0]] == [over.creator];
    assert x.toLock[1..] == [over.opponent.value];
  }

  // The state after two transactions have asked for rematches and taken one lock each.
  ghost function BothAsk(s: State, key: string -> int): State {
    Asks(Asks(s, 1, "1", key), 2, "2", key)
  }

  ghost function Asks(s: State, t: int, room: string, key: string -> int): State {
    Next(Next(Next(s, Begin(t, Op.Rematch(room)), key), LockRow(t, 0), key), LockUser(t), key)
  }

  // Two rematches whose users share locks crosswise wait for each other for ever: transactions
  // lock by user name, the database by the key of the name. (b and c may be one user.)
  lemma CollidingKeysDeadlock(a: string, b: string, c: string, d: string, key: string -> int)
    requires a != "" && b != "" && Less(a, c) && Less(b, d)
    requires key(a) == key(d) && key(b) == key(c) && key(a) != key(b)
    ensures WaitCycle(BothAsk(Nobody(map["1" := FinishedRoom(a, c), "2" := FinishedRoom(b, d)]), key), [1, 2, 1], key)
  {
    var s := Nobody(map["1" := FinishedRoom(a, c), "2" := FinishedRoom(b, d)]);
    RematchTakesItsFirstUser(s, 1, "1", FinishedRoom(a, c), key);
    var s1 := With(s, 1, Rematching("1", FinishedRoom(a, c), a, c));
    CrosswiseWait(s1, b, d, key);
  }

  lemma CrosswiseWait(s1: State, b: string, d: string, key: string -> int)
    requires s1.txns.Keys == {1} && "2" in s1.rooms && s1.rooms["2"] == FinishedRoom(b, d)
    requires s1.txns[1].op == Op.Rematch("1") && |s1.txns[1].locked| == 1 && |s1.txns[1].toLock| == 1
    requires key(s1.txns[1].locked[0]) == key(d) && key(s1.txns[1].toLock[0]) == key(b) && key(b) != key(d)
    requires b != "" && Less(b, d)
    ensures WaitCycle(Asks(s1, 2, "2", key), [1, 2, 1], key)
  {
    var y := Rematching("2", FinishedRoom(b, d), b, d);
    RematchTakesItsFirstUser(s1, 2, "2", FinishedRoom(b, d), key);
    assert y.locked[0] == b && y.toLock[0] == d;
  }

  // ---- The exact condition

  lemma TwoMatchesArePlayed(u: string, v: string, w: string, users: iset<string>, key: string -> int)
    requires u in users && v in users && w in users && u != v && v != w
    ensures Reachable(Nobody(map["1" := FinishedRoom(u, v), "2" := FinishedRoom(v, w)]), users, key)
  {
    StartIsReachable(users, key);
    MatchIsPlayed(map[], "1", u, v, users, key);
    var one := map["1" := FinishedRoom(u, v)];
    assert map[]["1" := FinishedRoom(u, v)] == one;
    MatchIsPlayed(one, "2", v, w, users, key);
    assert one["2" := FinishedRoom(v, w)] == map["1" := FinishedRoom(u, v), "2" := FinishedRoom(v, w)];
  }

  lemma AskingIsReachable(s: State, t: int, room: string, users: iset<string>, key: string -> int)
    requires Reachable(s, users, key)
    ensures Reachable(Asks(s, t, room, key), users, key)
  {
    OneMore(s, Begin(t, Op.Rematch(room)), users, key);
    OneMore(Next(s, Begin(t, Op.Rematch(room)), key), LockRow(t, 0), users, key);
    OneMore(Next(Next(s, Begin(t, Op.Rematch(room)), key), LockRow(t, 0), key), LockUser(t), users, key);
  }

  // Three users suffice: the first and the last share a lock that the one between them does not.
  lemma ThreeUsersDeadlock(u: string, v: string, w: string, users: iset<string>, key: string -> int) returns (s: State)
    requires u in users && v in users && w in users && u != "" && Less(u, v) && Less(v, w)
    requires key(u) == key(w) && key(v) != key(u)
    ensures Reachable(s, users, key) && WaitCycle(s, [1, 2, 1], key)
  {
    LessIsStrictTotal(u, v);
    LessIsStrictTotal(v, w);
    TwoMatchesArePlayed(u, v, w, users, key);
    var start := Nobody(map["1" := FinishedRoom(u, v), "2" := FinishedRoom(v, w)]);
    AskingIsReachable(start, 1, "1", users, key);
    AskingIsReachable(Asks(start, 1, "1", key), 2, "2", users, key);
    CollidingKeysDeadlock(u, v, v, w, key);
    s := BothAsk(start, key);
  }

  ghost predicate NeverDeadlocks(users: iset<string>, key: string -> int) {
    forall s, cycle :: Reachable(s, users, key) ==> !WaitCycle(s, cycle, key)
  }

  // With these users no run can deadlock exactly when between two of them that share a lock there
  // is none that does not.
  lemma NeverDeadlocksExactlyWhen(users: iset<string>, key: string -> int)
    ensures NeverDeadlocks(users, key) <==> Contiguous(key, users)
  {
    if Contiguous(key, users) {
      forall s, cycle | Reachable(s, users, key) ensures !WaitCycle(s, cycle, key) {
        var steps :| Comes(s, steps, users, key);
        NoRunDeadlocks(steps, cycle, users, key);
      }
    } else {
      var u, v, w :| u in users && v in users && w in users && u != "" && Less(u, v) && Less(v, w) &&
        key(u) == key(w) && key(v) != key(u);
      var s := ThreeUsersDeadlock(u, v, w, users, key);
      assert Reachable(s, users, key) && WaitCycle(s, [1, 2, 1], key);
    }
  }
}
