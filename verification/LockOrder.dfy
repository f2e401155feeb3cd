/** The order in which a transaction locks the users it is about to seat
    (repository.go: lockActiveRoomUsersTx). */
module LockOrder {
  import opened Base

  predicate Ascending(us: seq<string>) {
    forall i, j :: 0 <= i < j < |us| ==> Less(us[i], us[j])
  }

  function InsertUser(u: string, us: seq<string>): (r: seq<string>)
    ensures forall x :: x in r <==> x == u || x in us
  {
    if us == [] then [u]
    else if u == us[0] then us
    else if Less(u, us[0]) then [u] + us
    else [us[0]] + InsertUser(u, us[1..])
  }

  // The distinct non-empty users in ascending order.
  function InLockOrder(users: seq<string>): (r: seq<string>)
    ensures forall x :: x in r <==> x != "" && x in users
  {
    if users == [] then []
    else if users[0] == "" then InLockOrder(users[1..])
    else InsertUser(users[0], InLockOrder(users[1..]))
  }

  lemma {:induction false} InsertKeepsAscending(u: string, us: seq<string>)
    requires Ascending(us)
    ensures Ascending(InsertUser(u, us))
  {
    if us != [] && u != us[0] {
      LessIsStrictTotal(u, us[0]);
      if Less(u, us[0]) {
        forall i | 0 <= i < |us| ensures Less(u, us[i]) {
          if i > 0 { LessIsTransitive(u, us[0], us[i]); }
        }
      } else {
        InsertKeepsAscending(u, us[1..]);
        var rest := InsertUser(u, us[1..]);
        forall i | 0 <= i < |rest| ensures Less(us[0], rest[i]) {
          assert rest[i] in rest;
        }
      }
    }
  }

  lemma {:induction false} InLockOrderAscends(users: seq<string>)
    ensures Ascending(InLockOrder(users))
  {
    if users != [] {
      InLockOrderAscends(users[1..]);
      InsertKeepsAscending(users[0], InLockOrder(users[1..]));
    }
  }

  // There is one ascending arrangement of a set of users.
  lemma {:induction false} OneArrangement(a: seq<string>, b: seq<string>)
    requires Ascending(a) && Ascending(b) && forall x :: x in a <==> x in b
    ensures a == b
  {
    assert a != [] ==> a[0] in b;
    assert b != [] ==> b[0] in a;
    if a != [] && b != [] {
      SameHead(a, b);
      forall x ensures x in a[1..] <==> x in b[1..] {
        InTail(a, x);
        InTail(b, x);
      }
      OneArrangement(a[1..], b[1..]);
      assert a == [a[0]] + a[1..];
      assert b == [b[0]] + b[1..];
    }
  }

  lemma SameHead(a: seq<string>, b: seq<string>)
    requires Ascending(a) && Ascending(b) && a != [] && b != [] && forall x :: x in a <==> x in b
    ensures a[0] == b[0]
  {
    assert a[0] in b && b[0] in a;
    LessIsStrictTotal(a[0], b[0]);
  }

  lemma InTail(us: seq<string>, x: string)
    requires Ascending(us) && us != []
    ensures x in us[1..] <==> x in us && x != us[0]
  {
    LessIsStrictTotal(us[0], us[0]);
    assert us == [us[0]] + us[1..];
    assert forall i :: 0 <= i < |us[1..]| ==> us[1..][i] == us[i + 1] && Less(us[0], us[i + 1]);
  }

  // Whatever order the set is walked in, the users come out in lock order.
  method OrderUsers(userIDs: seq<string>) returns (ordered: seq<string>)
    ensures ordered == InLockOrder(userIDs)
    ensures Ascending(ordered)
  {
    var unique: set<string> := {};
    for k := 0 to |userIDs|
      invariant forall x :: x in unique <==> x != "" && x in userIDs[..k]
    {
      if userIDs[k] != "" {
        unique := unique + {userIDs[k]};
      }
    }
    ordered := [];
    ghost var all := unique;
    while unique != {}
      invariant Ascending(ordered) && unique <= all
      invariant forall x :: x in ordered <==> x in all && x !in unique
    {
      var u :| u in unique;
      InsertKeepsAscending(u, ordered);
      ordered := InsertUser(u, ordered);
      unique := unique - {u};
    }
    assert userIDs[..|userIDs|] == userIDs;
    InLockOrderAscends(userIDs);
    OneArrangement(ordered, InLockOrder(userIDs));
  }
}
