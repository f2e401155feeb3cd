/** Pending room invitations under three indexes (presence.go: invitationStore). All three are
    projections of one map from room and invitee to the invitation. */
module Invitations {
  import opened Base

  datatype Invite = Invite(id: string, room: string, fromUser: string, toUser: string, createdAt: int)

  datatype Cleared = Cleared(id: string, room: string, fromUser: string, toUser: string, reason: string)

  // ---- Nested maps that keep no empty inner map

  type Nested = map<string, map<string, Invite>>

  function At(m: Nested, outer: string, key: string): Option<Invite> {
    if outer in m && key in m[outer] then Some(m[outer][key]) else None
  }

  predicate NoEmpty(m: Nested) {
    forall o :: o in m ==> m[o] != map[]
  }

  function Inner(m: Nested, outer: string): map<string, Invite> {
    if outer in m then m[outer] else map[]
  }

  function Put(m: Nested, outer: string, key: string, v: Invite): Nested {
    m[outer := Inner(m, outer)[key := v]]
  }

  function Drop(m: Nested, outer: string, key: string): Nested {
    var rest := Inner(m, outer) - {key};
    if rest == map[] then m - {outer} else m[outer := rest]
  }

  lemma PutIsUpdate(m: Nested, outer: string, key: string, v: Invite)
    requires NoEmpty(m)
    ensures NoEmpty(Put(m, outer, key, v))
    ensures forall o, k :: At(Put(m, outer, key, v), o, k) == if o == outer && k == key then Some(v) else At(m, o, k)
  {
    assert key in Put(m, outer, key, v)[outer];
  }

  lemma DropIsRemoval(m: Nested, outer: string, key: string)
    requires NoEmpty(m)
    ensures NoEmpty(Drop(m, outer, key))
    ensures forall o, k :: At(Drop(m, outer, key), o, k) == if o == outer && k == key then None else At(m, o, k)
  {
    assert forall k :: k in Inner(m, outer) && k != key ==> k in Inner(m, outer) - {key};
  }

  // ---- The indexes

  predicate Filed(inv: map<string, Invite>, v: Invite) {
    v.id in inv && inv[v.id] == v
  }

  ghost predicate RoomIndex(inv: map<string, Invite>, byRoom: Nested) {
    && NoEmpty(byRoom)
    && (forall r, u :: At(byRoom, r, u).Some? ==>
          var v := At(byRoom, r, u).value; v.room == r && v.toUser == u && Filed(inv, v))
    && (forall id :: id in inv ==> inv[id].id == id && At(byRoom, inv[id].room, inv[id].toUser) == Some(inv[id]))
  }

  ghost predicate UserIndex(inv: map<string, Invite>, byUser: Nested) {
    && NoEmpty(byUser)
    && (forall u, id :: At(byUser, u, id).Some? ==>
          var v := At(byUser, u, id).value; v.toUser == u && v.id == id && Filed(inv, v))
    && (forall id :: id in inv ==> inv[id].id == id && At(byUser, inv[id].toUser, id) == Some(inv[id]))
  }

  lemma RemoveFromRooms(inv: map<string, Invite>, byRoom: Nested, v: Invite)
    requires RoomIndex(inv, byRoom) && Filed(inv, v)
    ensures RoomIndex(inv - {v.id}, Drop(byRoom, v.room, v.toUser))
  {
    DropIsRemoval(byRoom, v.room, v.toUser);
  }

  lemma RemoveFromUsers(inv: map<string, Invite>, byUser: Nested, v: Invite)
    requires UserIndex(inv, byUser) && Filed(inv, v)
    ensures UserIndex(inv - {v.id}, Drop(byUser, v.toUser, v.id))
  {
    DropIsRemoval(byUser, v.toUser, v.id);
  }

  lemma AddToRooms(inv: map<string, Invite>, byRoom: Nested, v: Invite)
    requires RoomIndex(inv, byRoom) && v.id !in inv && At(byRoom, v.room, v.toUser).None?
    ensures RoomIndex(inv[v.id := v], Put(byRoom, v.room, v.toUser, v))
  {
    PutIsUpdate(byRoom, v.room, v.toUser, v);
  }

  lemma AddToUsers(inv: map<string, Invite>, byUser: Nested, v: Invite)
    requires UserIndex(inv, byUser) && v.id !in inv
    ensures UserIndex(inv[v.id := v], Put(byUser, v.toUser, v.id, v))
  {
    PutIsUpdate(byUser, v.toUser, v.id, v);
  }

  // An id in use for the same room and user may be used again.
  predicate FreshId(inv: map<string, Invite>, v: Invite) {
    v.id in inv ==> inv[v.id].room == v.room && inv[v.id].toUser == v.toUser
  }

  // The invitations but for the one that v replaces.
  function Without(inv: map<string, Invite>, replaced: Option<Invite>): map<string, Invite> {
    if replaced.Some? then inv - {replaced.value.id} else inv
  }

  lemma FreshKeepsRoomIndex(inv: map<string, Invite>, byRoom: Nested, v: Invite)
    requires RoomIndex(inv, byRoom) && FreshId(inv, v)
    ensures RoomIndex(Without(inv, At(byRoom, v.room, v.toUser))[v.id := v], Put(byRoom, v.room, v.toUser, v))
  {
    var replaced := At(byRoom, v.room, v.toUser);
    if replaced.None? {
      AddToRooms(inv, byRoom, v);
    } else {
      RemoveFromRooms(inv, byRoom, replaced.value);
      DropIsRemoval(byRoom, v.room, v.toUser);
      AddToRooms(inv - {replaced.value.id}, Drop(byRoom, v.room, v.toUser), v);
      PutOverDrop(byRoom, v.room, v.toUser, v);
    }
  }

  lemma PutOverDrop(m: Nested, outer: string, key: string, v: Invite)
    ensures Put(Drop(m, outer, key), outer, key, v) == Put(m, outer, key, v)
  {
    var dropped := Drop(m, outer, key);
    assert Inner(dropped, outer) == Inner(m, outer) - {key};
    assert Inner(dropped, outer)[key := v] == Inner(m, outer)[key := v];
  }

  // Reusing the id of an invitation to another room or user loses that one from the index.
  lemma IndexSurvivesExactlyAFreshId(inv: map<string, Invite>, byRoom: Nested, v: Invite)
    requires RoomIndex(inv, byRoom)
    ensures RoomIndex(Without(inv, At(byRoom, v.room, v.toUser))[v.id := v], Put(byRoom, v.room, v.toUser, v))
      <==> FreshId(inv, v)
  {
    if FreshId(inv, v) {
      FreshKeepsRoomIndex(inv, byRoom, v);
    } else {
      PutIsUpdate(byRoom, v.room, v.toUser, v);
      var other := inv[v.id];
      assert At(Put(byRoom, v.room, v.toUser, v), other.room, other.toUser) == Some(other);
    }
  }

  // A whole room can go at once when each of its invitations has gone from the other indexes.
  lemma RoomGoes(inv: map<string, Invite>, left: Nested, byRoom: Nested, room: string)
    requires RoomIndex(inv, left) && NoEmpty(byRoom)
    requires forall r, u :: At(left, r, u) == if r == room then None else At(byRoom, r, u)
    ensures RoomIndex(inv, byRoom - {room})
    ensures forall r, u :: At(byRoom - {room}, r, u) == if r == room then None else At(byRoom, r, u)
  {
    assert forall r, u :: At(byRoom - {room}, r, u) == At(left, r, u);
  }

  // What is filed under a user is what is pending for that user in some room.
  lemma UserHoldsWhatRoomsHold(inv: map<string, Invite>, byRoom: Nested, byUser: Nested, user: string, v: Invite)
    requires RoomIndex(inv, byRoom) && UserIndex(inv, byUser)
    ensures At(byUser, user, v.id) == Some(v) <==> v.toUser == user && At(byRoom, v.room, user) == Some(v)
  {
    assert At(byRoom, v.room, user) == Some(v) ==> Filed(inv, v);
  }

  // ---- Answers

  function ClearedOf(v: Invite, reason: string): Cleared {
    Cleared(v.id, v.room, v.fromUser, v.toUser, reason)
  }

  predicate ByInvitee(cs: seq<Cleared>) {
    forall i, j :: 0 <= i < j < |cs| ==> Less(cs[i].toUser, cs[j].toUser)
  }

  function InsertCleared(c: Cleared, cs: seq<Cleared>): (r: seq<Cleared>)
    ensures forall x :: x in r <==> x == c || x in cs
  {
    if cs == [] || Less(c.toUser, cs[0].toUser) then [c] + cs else [cs[0]] + InsertCleared(c, cs[1..])
  }

  lemma {:induction false} InsertKeepsByInvitee(c: Cleared, cs: seq<Cleared>)
    requires ByInvitee(cs) && forall x :: x in cs ==> x.toUser != c.toUser
    ensures ByInvitee(InsertCleared(c, cs))
  {
    if cs != [] {
      assert cs[0] in cs;
      LessIsStrictTotal(c.toUser, cs[0].toUser);
      if Less(c.toUser, cs[0].toUser) {
        forall i | 0 <= i < |cs| ensures Less(c.toUser, cs[i].toUser) {
          if i > 0 { LessIsTransitive(c.toUser, cs[0].toUser, cs[i].toUser); }
        }
      } else {
        InsertKeepsByInvitee(c, cs[1..]);
        var rest := InsertCleared(c, cs[1..]);
        forall i | 0 <= i < |rest| ensures Less(cs[0].toUser, rest[i].toUser) {
          assert rest[i] in rest;
        }
      }
    }
  }

  // Exactly the invitations outside todo are answered, in order of invitee.
  ghost predicate Answers(cs: seq<Cleared>, invites: map<string, Invite>, todo: set<string>, reason: string) {
    && ByInvitee(cs)
    && forall c :: c in cs <==>
         c.toUser in invites && c.toUser !in todo && c == ClearedOf(invites[c.toUser], reason)
  }

  lemma AnswerOne(cs: seq<Cleared>, invites: map<string, Invite>, todo: set<string>, user: string, reason: string)
    requires Answers(cs, invites, todo, reason) && user in todo && user in invites && invites[user].toUser == user
    ensures Answers(InsertCleared(ClearedOf(invites[user], reason), cs), invites, todo - {user}, reason)
  {
    InsertKeepsByInvitee(ClearedOf(invites[user], reason), cs);
  }

  // When all are answered, these are the answers to the pending invitations of the room.
  ghost predicate AnswersRoom(cs: seq<Cleared>, byRoom: Nested, room: string, reason: string) {
    forall c :: c in cs <==>
      && c.room == room && c.reason == reason && At(byRoom, room, c.toUser).Some?
      && var v := At(byRoom, room, c.toUser).value; c.id == v.id && c.fromUser == v.fromUser
  }

  lemma AnsweredForTheRoom(cs: seq<Cleared>, inv: map<string, Invite>, byRoom: Nested, room: string, reason: string)
    requires RoomIndex(inv, byRoom) && Answers(cs, Inner(byRoom, room), {}, reason)
    ensures AnswersRoom(cs, byRoom, room, reason)
  {
    forall c ensures c in cs <==>
      && c.room == room && c.reason == reason && At(byRoom, room, c.toUser).Some?
      && var v := At(byRoom, room, c.toUser).value; c.id == v.id && c.fromUser == v.fromUser
    {
      if At(byRoom, room, c.toUser).Some? {
        assert At(byRoom, room, c.toUser).value.toUser == c.toUser;
      }
    }
  }

  predicate ByAge(vs: seq<Invite>) {
    forall i, j :: 0 <= i < j < |vs| ==> vs[i].createdAt <= vs[j].createdAt
  }

  predicate NoneTwice(vs: seq<Invite>) {
    forall i, j :: 0 <= i < j < |vs| ==> vs[i] != vs[j]
  }

  function InsertInvite(v: Invite, vs: seq<Invite>): (r: seq<Invite>)
    ensures forall x :: x in r <==> x == v || x in vs
  {
    if vs == [] || v.createdAt < vs[0].createdAt then [v] + vs else [vs[0]] + InsertInvite(v, vs[1..])
  }

  lemma {:induction false} InsertKeepsByAge(v: Invite, vs: seq<Invite>)
    requires ByAge(vs) && NoneTwice(vs) && v !in vs
    ensures ByAge(InsertInvite(v, vs)) && NoneTwice(InsertInvite(v, vs))
  {
    if vs != [] && vs[0].createdAt <= v.createdAt {
      assert vs[0] in vs && vs[0] !in vs[1..];
      InsertKeepsByAge(v, vs[1..]);
      var rest := InsertInvite(v, vs[1..]);
      forall i | 0 <= i < |rest| ensures vs[0].createdAt <= rest[i].createdAt && vs[0] != rest[i] {
        assert rest[i] in rest;
      }
    }
  }

  // ---- The store

  class InvitationStore {
    var byInvitation: map<string, Invite>
    var byRoom: Nested
    var byUser: Nested

    ghost predicate Valid()
      reads this
    {
      RoomIndex(byInvitation, byRoom) && UserIndex(byInvitation, byUser)
    }

    // The one map behind the indexes.
    function Pending(room: string, user: string): Option<Invite>
      reads this
    {
      At(byRoom, room, user)
    }

    constructor ()
      ensures Valid() && forall r, u :: Pending(r, u).None?
    {
      byInvitation, byRoom, byUser := map[], map[], map[];
    }

    // An id that is in use for another room or user breaks the indexes, any other keeps them.
    method Upsert(invite: Invite)
      requires Valid()
      modifies this
      ensures Valid() <==> FreshId(old(byInvitation), invite)
      ensures forall r, u ::
        Pending(r, u) == if r == invite.room && u == invite.toUser then Some(invite) else old(Pending(r, u))
    {
      var room, user := invite.room, invite.toUser;
      var previous := At(byRoom, room, user);
      IndexSurvivesExactlyAFreshId(byInvitation, byRoom, invite);
      PutIsUpdate(byRoom, room, user, invite);
      if previous.Some? {
        RemoveFromUsers(byInvitation, byUser, previous.value);
        byUser := Drop(byUser, user, previous.value.id);
        byInvitation := byInvitation - {previous.value.id};
      }
      if invite.id !in byInvitation {
        AddToUsers(byInvitation, byUser, invite);
      }
      byRoom := Put(byRoom, room, user, invite);
      byUser := Put(byUser, user, invite.id, invite);
      byInvitation := byInvitation[invite.id := invite];
    }

    method ListForUser(user: string) returns (invites: seq<Invite>)
      requires Valid()
      ensures forall v :: v in invites <==> v.toUser == user && Pending(v.room, user) == Some(v)
      ensures ByAge(invites) && NoneTwice(invites)
    {
      var mine := Inner(byUser, user);
      var todo := mine.Keys;
      invites := [];
      assert forall id :: id in mine ==> At(byUser, user, id) == Some(mine[id]) && mine[id].id == id;
      while todo != {}
        invariant todo <= mine.Keys && ByAge(invites) && NoneTwice(invites)
        invariant forall v :: v in invites <==> v.id in mine && v.id !in todo && mine[v.id] == v
      {
        var id :| id in todo;
        InsertKeepsByAge(mine[id], invites);
        invites := InsertInvite(mine[id], invites);
        todo := todo - {id};
      }
      forall v ensures v in invites <==> v.toUser == user && Pending(v.room, user) == Some(v) {
        UserHoldsWhatRoomsHold(byInvitation, byRoom, byUser, user, v);
      }
    }

    method ClearInvitation(id: string, user: string, reason: string) returns (cleared: Option<Cleared>)
      requires Valid()
      modifies this
      ensures Valid()
      ensures var found := id in old(byInvitation) && old(byInvitation)[id].toUser == user;
        && (cleared.Some? <==> found)
        && (found ==>
              var v, c := old(byInvitation)[id], cleared.value;
              c.id == id && c.room == v.room && c.fromUser == v.fromUser && c.toUser == user && c.reason == reason)
        && forall r, u :: Pending(r, u) ==
             if found && old(Pending(r, u)) == Some(old(byInvitation)[id]) then None else old(Pending(r, u))
    {
      if id !in byInvitation || byInvitation[id].toUser != user {
        return None;
      }
      var invite := byInvitation[id];
      RemoveFromRooms(byInvitation, byRoom, invite);
      RemoveFromUsers(byInvitation, byUser, invite);
      DropIsRemoval(byRoom, invite.room, user);
      byInvitation := byInvitation - {id};
      byUser := Drop(byUser, user, id);
      byRoom := Drop(byRoom, invite.room, user);
      cleared := Some(ClearedOf(invite, reason));
    }

    method ClearRoom(room: string, reason: string) returns (cleared: seq<Cleared>)
      requires Valid()
      modifies this
      ensures Valid()
      ensures forall r, u :: Pending(r, u) == if r == room then None else old(Pending(r, u))
      ensures ByInvitee(cleared)
      ensures forall c :: c in cleared <==>
        && c.room == room && c.reason == reason && old(Pending(room, c.toUser)).Some?
        && var v := old(Pending(room, c.toUser)).value; c.id == v.id && c.fromUser == v.fromUser
    {
      cleared := [];
      var invites := Inner(byRoom, room);
      var todo := invites.Keys;
      ghost var left := byRoom;
      while todo != {}
        invariant todo <= invites.Keys && byRoom == old(byRoom)
        invariant RoomIndex(byInvitation, left) && UserIndex(byInvitation, byUser)
        invariant forall r, u :: At(left, r, u) == if r == room && u !in todo then None else At(byRoom, r, u)
        invariant Answers(cleared, invites, todo, reason)
      {
        var user :| user in todo;
        var invite := invites[user];
        assert At(left, room, user) == Some(invite);
        RemoveFromRooms(byInvitation, left, invite);
        RemoveFromUsers(byInvitation, byUser, invite);
        DropIsRemoval(left, room, user);
        AnswerOne(cleared, invites, todo, user, reason);
        cleared := InsertCleared(ClearedOf(invite, reason), cleared);
        byInvitation := byInvitation - {invite.id};
        byUser := Drop(byUser, user, invite.id);
        left := Drop(left, room, user);
        todo := todo - {user};
      }
      AnsweredForTheRoom(cleared, old(byInvitation), old(byRoom), room, reason);
      RoomGoes(byInvitation, left, byRoom, room);
      byRoom := byRoom - {room};
    }
  }
}
