/** Whole runs of the rooms table, and the rule they keep: one active room per user. */
module RoomRuns {
  import opened Base
  import opened RoomRows
  import opened RoomTable

  const EMPTY := State(map[], map[], map[])

  ghost function Run(s: State, steps: seq<Step>, key: string -> int): State {
    if steps == [] then s
    else Next(Run(s, steps[..|steps| - 1], key), steps[|steps| - 1], key)
  }

  // ---- One active room per user

  // The players whom a reopening makes active again.
  function Returning(s: State, step: Step): set<string> {
    match step
    case Single(room, st) =>
      if room !in s.rooms then {}
      else if st.Reset? && s.rooms[room].opponent.Some? then {s.rooms[room].creator, s.rooms[room].opponent.value}
      else {s.rooms[room].creator}
    case Commit(t, _, _) => if t in s.txns && s.txns[t].row.Some? then {s.txns[t].row.value.creator} else {}
    case Sweep(_, room, _) => if room in s.rooms then {s.rooms[room].creator} else {}
    case _ => {}
  }

  // None of them sits in an active room.
  ghost predicate ReturnsFree(s: State, step: Step) {
    forall user :: user in Returning(s, step) && user != "" ==> !HasActiveRoom(s.rooms, user, None)
  }

  // A reopening that looks before it acts: its players are free, and no open transaction has
  // found one of them free already.
  ghost predicate Careful(s: State, step: Step) {
    && ReturnsFree(s, step)
    && forall user, t :: user in Returning(s, step) && user != "" && t in s.txns ==> user !in s.txns[t].checked
  }

  ghost predicate Safe(s: State, step: Step, key: string -> int) {
    Reopens(s, step) && Enabled(s, step, key) ==> Careful(s, step)
  }

  ghost predicate AllSafe(s: State, steps: seq<Step>, key: string -> int) {
    forall i :: 0 <= i < |steps| ==> Safe(Run(s, steps[..i], key), steps[i], key)
  }

  // The row a reopening writes.
  function ReopenedRoom(s: State, step: Step): string
    requires Reopens(s, step)
  {
    if Plain(step) then step.room else s.txns[step.t].op.room
  }

  ghost function ReopenedRow(s: State, step: Step, key: string -> int): Room
    requires Reopens(s, step) && Enabled(s, step, key)
  {
    if Plain(step) then PlainRow(s, step) else Written(s.txns[step.t], step.now)
  }

  lemma ReopeningSeatsTheReturning(s: State, step: Step, key: string -> int)
    requires RowsInv(s) && Reopens(s, step) && Enabled(s, step, key)
    ensures var r, row := ReopenedRoom(s, step), ReopenedRow(s, step, key);
      && Next(s, step, key).rooms == s.rooms[r := row]
      && r in s.rooms && !Active(s.rooms[r]) && Active(row)
      && forall user :: Seats(row, user) <==> user in Returning(s, step)
  {
    if step.Commit? {
      assert RowHeld(s.rooms, s.txns[step.t]);
    }
  }

  lemma CarefulReopeningKeepsInv(s: State, step: Step, key: string -> int)
    requires Inv(s, key) && Reopens(s, step) && Enabled(s, step, key) && Careful(s, step)
    ensures Inv(Next(s, step, key), key)
  {
    StepKeepsRows(s, step, key);
    ReopeningSeatsTheReturning(s, step, key);
    var r, row := ReopenedRoom(s, step), ReopenedRow(s, step, key);
    forall user, r2 | Enters(s.rooms, r, row, user) ensures !ActiveIn(s.rooms, r2, user) {
      assert !HasActiveRoom(s.rooms, user, None);
    }
    SeatingKeepsOneActiveRoom(s.rooms, r, row);
    forall t | t in s.txns ensures StillFree(s.rooms[r := row], s.txns[t]) {
      SeatingKeepsChecks(s.rooms, r, row, s.txns[t]);
    }
  }

  lemma SafeStepKeepsInv(s: State, step: Step, key: string -> int)
    requires Inv(s, key) && Safe(s, step, key)
    ensures Inv(Next(s, step, key), key)
  {
    if !Enabled(s, step, key) {
    } else if Reopens(s, step) {
      CarefulReopeningKeepsInv(s, step, key);
    } else {
      StepKeepsInv(s, step, key);
    }
  }

  lemma {:induction false} RunKeepsInv(s: State, steps: seq<Step>, key: string -> int)
    requires Inv(s, key) && AllSafe(s, steps, key)
    ensures Inv(Run(s, steps, key), key)
  {
    if steps != [] {
      var n := |steps| - 1;
      forall i | 0 <= i < n ensures Safe(Run(s, steps[..n][..i], key), steps[..n][i], key) {
        assert steps[..n][..i] == steps[..i];
      }
      RunKeepsInv(s, steps[..n], key);
      SafeStepKeepsInv(Run(s, steps[..n], key), steps[n], key);
    }
  }

  lemma EmptyInv(key: string -> int)
    ensures Inv(EMPTY, key)
  {
  }

  // Under every interleaving, and whatever the hash, no user sits in two active rooms, when every
  // reopening is careful.
  lemma NoUserInTwoActiveRooms(steps: seq<Step>, key: string -> int)
    requires AllSafe(EMPTY, steps, key)
    ensures OneActiveRoom(Run(EMPTY, steps, key).rooms)
  {
    EmptyInv(key);
    RunKeepsInv(EMPTY, steps, key);
  }

  // ---- The exact conditions

  lemma ReopeningIsFineExactlyWhen(s: State, step: Step, key: string -> int)
    requires OneActiveRoom(s.rooms) && RowsInv(s) && Enabled(s, step, key) && Reopens(s, step)
    ensures OneActiveRoom(Next(s, step, key).rooms) <==> ReturnsFree(s, step)
  {
    ReopeningSeatsTheReturning(s, step, key);
    var r, row := ReopenedRoom(s, step), ReopenedRow(s, step, key);
    var after := s.rooms[r := row];
    if OneActiveRoom(after) {
      forall user | user in Returning(s, step) && user != "" ensures !HasActiveRoom(s.rooms, user, None) {
        assert ActiveIn(after, r, user);
        assert forall r2 :: r2 != r ==> (ActiveIn(after, r2, user) <==> ActiveIn(s.rooms, r2, user));
      }
    }
    if ReturnsFree(s, step) {
      forall user, r2 | Enters(s.rooms, r, row, user) ensures !ActiveIn(s.rooms, r2, user) {
        assert !HasActiveRoom(s.rooms, user, None);
      }
      SeatingKeepsOneActiveRoom(s.rooms, r, row);
    }
  }

  lemma CommitSeatsAllItChecked(s: State, t: int, now: int, id: string, user: string)
    requires t in s.txns && Ready(s.txns[t]) && InOrder(s.txns[t]) && RowHeld(s.rooms, s.txns[t])
    requires user in s.txns[t].checked
    ensures Active(Written(s.txns[t], now)) && Seats(Written(s.txns[t], now), user)
  {
    assert s.txns[t].checked == UsersOf(s.txns[t].op, s.txns[t].row);
  }

  lemma CommitIsFineExactlyWhen(s: State, t: int, now: int, id: string, key: string -> int)
    requires LocksInv(s, key) && RowsInv(s) && OneActiveRoom(s.rooms)
    requires Enabled(s, Commit(t, now, id), key) && !Reopens(s, Commit(t, now, id))
    ensures OneActiveRoom(Next(s, Commit(t, now, id), key).rooms) <==> StillFree(s.rooms, s.txns[t])
  {
    var x := s.txns[t];
    var r, row := Target(x, id), Written(x, now);
    var after := s.rooms[r := row];
    if OneActiveRoom(after) {
      forall user, r2 | user in x.checked && user != "" && ActiveIn(s.rooms, r2, user)
        ensures Some(r2) == RoomOf(x.op)
      {
        CommitSeatsAllItChecked(s, t, now, id, user);
        assert ActiveIn(after, r, user);
        assert r2 != r ==> ActiveIn(after, r2, user);
      }
    }
    if StillFree(s.rooms, x) {
      forall user, r2 | Enters(s.rooms, r, row, user) ensures !ActiveIn(s.rooms, r2, user) {
        CommitSeatsCheckedUsers(s, t, now, id, user);
      }
      SeatingKeepsOneActiveRoom(s.rooms, r, row);
    }
  }

  // What a step needs for the rule to survive it: a reopening, that the players it brings back are
  // in no active room; a commit, that the players it found free still are.
  ghost predicate Fine(s: State, step: Step, key: string -> int) {
    Enabled(s, step, key) ==>
      if Reopens(s, step) then ReturnsFree(s, step)
      else step.Commit? ==> StillFree(s.rooms, s.txns[step.t])
  }

  lemma StepIsFineExactlyWhen(s: State, step: Step, key: string -> int)
    requires LocksInv(s, key) && RowsInv(s) && OneActiveRoom(s.rooms)
    ensures OneActiveRoom(Next(s, step, key).rooms) <==> Fine(s, step, key)
  {
    if !Enabled(s, step, key) {
    } else if Reopens(s, step) {
      ReopeningIsFineExactlyWhen(s, step, key);
    } else if step.Commit? {
      CommitIsFineExactlyWhen(s, step.t, step.now, step.id, key);
    } else if Plain(step) {
      forall user ensures !Enters(s.rooms, step.room, PlainRow(s, step), user) {
        PlainSeatsNobody(s, step, user);
      }
      SeatingKeepsOneActiveRoom(s.rooms, step.room, PlainRow(s, step));
    } else {
      TxnStepKeepsTable(s, step, key);
    }
  }

  // The table after the first k steps.
  ghost function After(steps: seq<Step>, k: nat, key: string -> int): State
    requires k <= |steps|
  {
    Run(EMPTY, steps[..k], key)
  }

  lemma AfterOneMore(steps: seq<Step>, k: nat, key: string -> int)
    requires k < |steps|
    ensures After(steps, k + 1, key) == Next(After(steps, k, key), steps[k], key)
  {
    assert steps[..k + 1][..k] == steps[..k];
  }

  lemma {:induction false} AfterKeepsRows(steps: seq<Step>, k: nat, key: string -> int)
    requires k <= |steps|
    ensures LocksInv(After(steps, k, key), key) && RowsInv(After(steps, k, key))
  {
    if k == 0 {
      EmptyInv(key);
    } else {
      AfterKeepsRows(steps, k - 1, key);
      AfterOneMore(steps, k - 1, key);
      StepKeepsRows(After(steps, k - 1, key), steps[k - 1], key);
    }
  }

  ghost predicate RuleHolds(steps: seq<Step>, n: nat, key: string -> int)
    requires n <= |steps|
  {
    forall k :: 0 <= k <= n ==> OneActiveRoom(After(steps, k, key).rooms)
  }

  ghost predicate AllFine(steps: seq<Step>, n: nat, key: string -> int)
    requires n <= |steps|
  {
    forall k :: 0 <= k < n ==> Fine(After(steps, k, key), steps[k], key)
  }

  lemma TheRuleHoldsAtTheStart(steps: seq<Step>, key: string -> int)
    ensures RuleHolds(steps, 0, key) && AllFine(steps, 0, key)
  {
    assert steps[..0] == [];
    assert After(steps, 0, key) == EMPTY;
  }

  // The rule holds all along a run exactly when each of its steps is fine where it is taken.
  lemma {:induction false} RunIsFineExactlyWhen(steps: seq<Step>, n: nat, key: string -> int)
    requires n <= |steps|
    ensures RuleHolds(steps, n, key) <==> AllFine(steps, n, key)
  {
    if n == 0 {
      TheRuleHoldsAtTheStart(steps, key);
    } else {
      RunIsFineExactlyWhen(steps, n - 1, key);
      OneMoreStepIsFine(steps, n - 1, n, key);
    }
  }

  lemma OneMoreStepIsFine(steps: seq<Step>, n: nat, m: nat, key: string -> int)
    requires n < |steps| && m == n + 1 && (RuleHolds(steps, n, key) <==> AllFine(steps, n, key))
    ensures RuleHolds(steps, m, key) <==> AllFine(steps, m, key)
  {
    RuleOneLonger(steps, n, m, key);
    AllFineOneLonger(steps, n, m, key);
    if RuleHolds(steps, n, key) {
      NextStepIsFine(steps, n, key);
    }
  }

  lemma RuleOneLonger(steps: seq<Step>, n: nat, m: nat, key: string -> int)
    requires n < |steps| && m == n + 1
    ensures RuleHolds(steps, m, key) <==> RuleHolds(steps, n, key) && OneActiveRoom(After(steps, m, key).rooms)
  {
  }

  lemma AllFineOneLonger(steps: seq<Step>, n: nat, m: nat, key: string -> int)
    requires n < |steps| && m == n + 1
    ensures AllFine(steps, m, key) <==> AllFine(steps, n, key) && Fine(After(steps, n, key), steps[n], key)
  {
  }

  lemma NextStepIsFine(steps: seq<Step>, n: nat, key: string -> int)
    requires n < |steps| && OneActiveRoom(After(steps, n, key).rooms)
    ensures OneActiveRoom(After(steps, n + 1, key).rooms) <==> Fine(After(steps, n, key), steps[n], key)
  {
    AfterKeepsRows(steps, n, key);
    AfterOneMore(steps, n, key);
    StepIsFineExactlyWhen(After(steps, n, key), steps[n], key);
  }

  // A reopening keeps all that the protocol knows exactly when it is careful: its players must
  // also not have been found free by a transaction still open, which would seat them again.
  lemma ReopeningIsSoundExactlyWhen(s: State, step: Step, key: string -> int)
    requires Inv(s, key) && Reopens(s, step) && Enabled(s, step, key)
    ensures Inv(Next(s, step, key), key) <==> Careful(s, step)
  {
    if Careful(s, step) {
      CarefulReopeningKeepsInv(s, step, key);
    }
    if Inv(Next(s, step, key), key) {
      ReopeningIsFineExactlyWhen(s, step, key);
      forall user, t | user in Returning(s, step) && user != "" && t in s.txns ensures user !in s.txns[t].checked {
        ReturningIsNotChecked(s, step, user, t, key);
      }
    }
  }

  lemma ReturningIsNotChecked(s: State, step: Step, user: string, t: int, key: string -> int)
    requires Inv(s, key) && Reopens(s, step) && Enabled(s, step, key) && ChecksInv(Next(s, step, key))
    requires user in Returning(s, step) && user != "" && t in s.txns
    ensures user !in s.txns[t].checked
  {
    ReopeningSeatsTheReturning(s, step, key);
    var x, after := s.txns[t], Next(s, step, key);
    if step.Commit? && step.t == t {
      assert x.checked == [] by { LeavingChecksNobody(x); }
    } else if user in x.checked {
      assert ActiveIn(after.rooms, ReopenedRoom(s, step), user);
      assert StillFree(after.rooms, after.txns[t]);
      CheckingHoldsItsRow(s, step, t, key);
      assert false;
    }
  }

  lemma LeavingChecksNobody(x: Txn)
    requires InOrder(x) && x.op.Leave?
    ensures x.checked == []
  {
    assert UsersOf(x.op, x.row) == [];
  }

  lemma CheckingHoldsItsRow(s: State, step: Step, t: int, key: string -> int)
    requires Inv(s, key) && Reopens(s, step) && Enabled(s, step, key)
    requires t in s.txns && s.txns[t].checked != [] && !(step.Commit? && step.t == t)
    ensures RoomOf(s.txns[t].op) != Some(ReopenedRoom(s, step))
  {
    var x := s.txns[t];
    assert InOrder(x) && x.checked + x.toCheck == UsersOf(x.op, x.row);
    if Plain(step) { assert !HoldsRow(x, step.room); }
  }
}
