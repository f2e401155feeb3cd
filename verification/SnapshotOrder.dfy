/** The version order of snapshots on the server (ws_handler.go) and in the browser
    (GamePage.tsx), and what it gives receivers whose messages are reordered or repeated. */
module SnapshotOrder {
  import opened Base
  import opened MatchRules
  import opened MatchMachine

  datatype Version = Version(shotSeq: int, turnSeq: int, updatedAt: int, status: Status)

  function VersionOf(s: Snapshot): Version {
    Version(s.shotSeq, s.turnSeq, s.updatedAt, s.status)
  }

  // ws_handler.go: unknown statuses, `striking` among them, rank lowest.
  function ServerRank(status: Status): int {
    match status case Aiming => 1 case Moving => 3 case Finished => 4 case _ => 0
  }

  // GamePage.tsx knows one status more.
  function ClientRank(status: Status): int {
    match status case Aiming => 1 case Striking => 2 case Moving => 3 case Finished => 4 case OtherStatus => 0
  }

  predicate NewerBy(a: Version, b: Version, rank: Status -> int) {
    if a.shotSeq != b.shotSeq then a.shotSeq > b.shotSeq
    else if a.turnSeq != b.turnSeq then a.turnSeq > b.turnSeq
    else if a.updatedAt != b.updatedAt then a.updatedAt > b.updatedAt
    else rank(a.status) > rank(b.status)
  }

  predicate SnapshotIsNewer(incoming: Version, current: Version) {
    NewerBy(incoming, current, ServerRank)
  }

  predicate IsNewerSnapshot(incoming: Version, current: Version) {
    NewerBy(incoming, current, ClientRank)
  }

  predicate SameCounters(a: Version, b: Version) {
    a.shotSeq == b.shotSeq && a.turnSeq == b.turnSeq && a.updatedAt == b.updatedAt
  }

  // The two orders part exactly on versions with equal counters where one says `striking`
  // and the other says `striking`-or-lower differently: never on what the server writes.
  lemma OrdersAgreeOffStriking(a: Version, b: Version)
    ensures (SnapshotIsNewer(a, b) <==> IsNewerSnapshot(a, b)) <==>
      !(SameCounters(a, b) &&
        ((a.status.Striking? && (b.status.Aiming? || b.status.OtherStatus?)) ||
         (b.status.Striking? && a.status.Aiming?)))
  {
  }

  lemma NewerIsTransitive(a: Version, b: Version, c: Version, rank: Status -> int)
    requires NewerBy(a, b, rank) && NewerBy(b, c, rank)
    ensures NewerBy(a, c, rank) && !NewerBy(c, a, rank)
  {
  }

  // The shot number decides; then the turn number; then the time of writing; and on a tie in all
  // three the server takes a finished match for newer than a shot in the air, that for newer than
  // a turn, and a turn for newer than anything else. The page ranks a cue stroke between the two.
  lemma NewerExactlyWhen(s: Snapshot, t: Snapshot)
    ensures var server := SnapshotIsNewer(VersionOf(s), VersionOf(t));
      var page := IsNewerSnapshot(VersionOf(s), VersionOf(t));
      && (s.shotSeq != t.shotSeq ==> (server <==> s.shotSeq > t.shotSeq) && (page <==> s.shotSeq > t.shotSeq))
      && (s.shotSeq == t.shotSeq && s.turnSeq != t.turnSeq ==>
            (server <==> s.turnSeq > t.turnSeq) && (page <==> s.turnSeq > t.turnSeq))
      && (s.shotSeq == t.shotSeq && s.turnSeq == t.turnSeq && s.updatedAt != t.updatedAt ==>
            (server <==> s.updatedAt > t.updatedAt) && (page <==> s.updatedAt > t.updatedAt))
      && (s.shotSeq == t.shotSeq && s.turnSeq == t.turnSeq && s.updatedAt == t.updatedAt ==>
            && (server <==> (s.status.Finished? && !t.status.Finished?) ||
                            (s.status.Moving? && !t.status.Finished? && !t.status.Moving?) ||
                            (s.status.Aiming? && (t.status.Striking? || t.status.OtherStatus?)))
            && (page <==> (s.status.Finished? && !t.status.Finished?) ||
                          (s.status.Moving? && !t.status.Finished? && !t.status.Moving?) ||
                          (s.status.Striking? && (t.status.Aiming? || t.status.OtherStatus?)) ||
                          (s.status.Aiming? && t.status.OtherStatus?)))
  {
  }

  // ---- Versions along a run

  // Whatever the clocks read, a step that changes the snapshot makes it strictly newer.
  lemma StepIsNewer(oracle: Oracle, room: MatchRoom, s: Snapshot, e: Event)
    requires PhasesInv(room, s)
    ensures var o := Step(oracle, room, s, e);
      o.kind.Idle? <==> !SnapshotIsNewer(VersionOf(o.next), VersionOf(s))
  {
    StepPhases(oracle, room, s, e);
  }

  lemma {:induction false} RunIsNewer(oracle: Oracle, room: MatchRoom, s: Snapshot, events: seq<Event>)
    requires Inv(oracle, room, s)
    ensures var t := Run(oracle, room, s, events);
      t == s || SnapshotIsNewer(VersionOf(t), VersionOf(s))
  {
    if events != [] {
      var n := |events| - 1;
      var before := Run(oracle, room, s, events[..n]);
      RunIsNewer(oracle, room, s, events[..n]);
      RunKeepsInv(oracle, room, s, events[..n]);
      StepPhases(oracle, room, before, events[n]);
      StepIsNewer(oracle, room, before, events[n]);
      if before != s && Run(oracle, room, s, events) != before {
        NewerIsTransitive(VersionOf(Run(oracle, room, s, events)), VersionOf(before), VersionOf(s), ServerRank);
      }
    }
  }

  // The snapshots a match has been through.
  ghost predicate OfMatch(oracle: Oracle, room: MatchRoom, s: Snapshot, events: seq<Event>, t: Snapshot) {
    exists k :: 0 <= k <= |events| && t == Run(oracle, room, s, events[..k])
  }

  // Within a match, a version names one snapshot, and of two snapshots one is newer.
  lemma VersionsAreUnique(oracle: Oracle, room: MatchRoom, s: Snapshot, events: seq<Event>, t: Snapshot, u: Snapshot)
    requires Inv(oracle, room, s) && OfMatch(oracle, room, s, events, t) && OfMatch(oracle, room, s, events, u)
    ensures t == u || SnapshotIsNewer(VersionOf(t), VersionOf(u)) || SnapshotIsNewer(VersionOf(u), VersionOf(t))
    ensures VersionOf(t) == VersionOf(u) ==> t == u
  {
    var i: nat :| i <= |events| && t == Run(oracle, room, s, events[..i]);
    var j: nat :| j <= |events| && u == Run(oracle, room, s, events[..j]);
    if i <= j {
      LaterIsNewer(oracle, room, s, events, i, j);
    } else {
      LaterIsNewer(oracle, room, s, events, j, i);
    }
  }

  lemma LaterIsNewer(oracle: Oracle, room: MatchRoom, s: Snapshot, events: seq<Event>, i: nat, j: nat)
    requires Inv(oracle, room, s) && i <= j <= |events|
    ensures var t, u := Run(oracle, room, s, events[..i]), Run(oracle, room, s, events[..j]);
      u == t || SnapshotIsNewer(VersionOf(u), VersionOf(t))
  {
    assert events[..j][..i] == events[..i];
    RunSplits(oracle, room, s, events[..j], i);
    RunKeepsInv(oracle, room, s, events[..i]);
    RunIsNewer(oracle, room, Run(oracle, room, s, events[..i]), events[..j][i..]);
  }

  // ---- A browser

  // What is published to a room. To a page the reset of a room is what a start is.
  datatype Message = MatchStart | StateSync(snapshot: Snapshot) | ShotFired(shot: ActiveShot)

  const NO_VERSION := Version(-1, 0, 0, OtherStatus)

  // The part of GamePage that filters game_state_sync messages.
  class GamePage {
    var lastVersion: Version
    var shown: Option<Snapshot>

    constructor ()
      ensures lastVersion == NO_VERSION && shown == None
    {
      lastVersion, shown := NO_VERSION, None;
    }

    method AcceptSnapshot(snapshot: Snapshot) returns (accepted: bool)
      modifies this
      ensures accepted <==> IsNewerSnapshot(VersionOf(snapshot), old(lastVersion))
      ensures accepted ==> lastVersion == VersionOf(snapshot) && shown == Some(snapshot)
      ensures !accepted ==> lastVersion == old(lastVersion) && shown == old(shown)
    {
      if !IsNewerSnapshot(VersionOf(snapshot), lastVersion) {
        return false;
      }
      lastVersion := VersionOf(snapshot);
      shown := Some(snapshot);
      return true;
    }

    // A new match starts: the page forgets what it has seen.
    method Restart()
      modifies this
      ensures lastVersion == NO_VERSION && shown == None
    {
      lastVersion, shown := NO_VERSION, None;
    }

    // A page that has been fed a stream of messages shows what Shown says of the snapshots that
    // came since the last start.
    method Receive(messages: seq<Message>)
      requires lastVersion == NO_VERSION && shown == None
      modifies this
      ensures shown == Shown(SinceStart(messages))
    {
      for i := 0 to |messages|
        invariant shown == Shown(SinceStart(messages[..i]))
        invariant lastVersion == ShownVersion(shown)
      {
        assert messages[..i + 1] == messages[..i] + [messages[i]];
        ShownAfterOneMore(messages[..i], messages[i]);
        Handle(messages[i]);
      }
      assert messages[..|messages|] == messages;
    }

    method Handle(message: Message)
      requires lastVersion == ShownVersion(shown)
      modifies this
      ensures lastVersion == ShownVersion(shown)
      ensures shown == ShownNext(old(shown), message)
    {
      match message
      case MatchStart => Restart();
      case StateSync(snapshot) => var accepted := AcceptSnapshot(snapshot);
      case ShotFired(_) =>
    }
  }

  function ShownVersion(shown: Option<Snapshot>): Version {
    if shown.None? then NO_VERSION else VersionOf(shown.value)
  }

  // What one message makes of what is on display.
  function ShownNext(shown: Option<Snapshot>, message: Message): Option<Snapshot> {
    match message
    case MatchStart => None
    case StateSync(snapshot) =>
      if IsNewerSnapshot(VersionOf(snapshot), ShownVersion(shown)) then Some(snapshot) else shown
    case ShotFired(_) => shown
  }

  lemma ShownAfterOneMore(messages: seq<Message>, message: Message)
    ensures Shown(SinceStart(messages + [message])) == ShownNext(Shown(SinceStart(messages)), message)
  {
    assert (messages + [message])[..|messages|] == messages;
    if message.StateSync? { ShownOneMore(SinceStart(messages), message.snapshot); }
  }

  function SinceStart(messages: seq<Message>): seq<Snapshot> {
    if messages == [] then []
    else
      var n := |messages| - 1;
      match messages[n]
      case MatchStart => []
      case StateSync(snapshot) => SinceStart(messages[..n]) + [snapshot]
      case ShotFired(_) => SinceStart(messages[..n])
  }

  // The snapshot on display after a fresh page has received these in this order.
  function Shown(messages: seq<Snapshot>): Option<Snapshot> {
    if messages == [] then None
    else
      var before := Shown(messages[..|messages| - 1]);
      var last := messages[|messages| - 1];
      if IsNewerSnapshot(VersionOf(last), ShownVersion(before)) then Some(last) else before
  }

  lemma ShownOneMore(snapshots: seq<Snapshot>, last: Snapshot)
    ensures var before := Shown(snapshots);
      Shown(snapshots + [last]) == if IsNewerSnapshot(VersionOf(last), ShownVersion(before)) then Some(last) else before
  {
    assert (snapshots + [last])[..|snapshots|] == snapshots;
  }

  // What a page shows is one of the messages, and none of them is newer.
  lemma {:induction false} ShownIsNewest(messages: seq<Snapshot>)
    requires messages != [] && forall m :: m in messages ==> m.shotSeq >= 0
    ensures Shown(messages).Some? && Shown(messages).value in messages
    ensures forall m :: m in messages ==> !IsNewerSnapshot(VersionOf(m), VersionOf(Shown(messages).value))
  {
    var n := |messages| - 1;
    var last := messages[n];
    assert messages == messages[..n] + [last];
    if n > 0 {
      ShownIsNewest(messages[..n]);
      var before := Shown(messages[..n]).value;
      forall m | m in messages[..n] ensures !IsNewerSnapshot(VersionOf(m), VersionOf(Shown(messages).value)) {
        if IsNewerSnapshot(VersionOf(last), VersionOf(before)) && IsNewerSnapshot(VersionOf(m), VersionOf(last)) {
          NewerIsTransitive(VersionOf(m), VersionOf(last), VersionOf(before), ClientRank);
        }
      }
    }
  }

  // Convergence: two pages that received the same snapshots of one match, in any orders and
  // with any repetitions, show the same one.
  lemma PagesConverge(oracle: Oracle, room: MatchRoom, s: Snapshot, events: seq<Event>, xs: seq<Snapshot>,
                      ys: seq<Snapshot>)
    requires Inv(oracle, room, s)
    requires forall m :: m in xs ==> OfMatch(oracle, room, s, events, m)
    requires forall m :: m in xs <==> m in ys
    ensures Shown(xs) == Shown(ys)
  {
    assert xs != [] ==> xs[0] in ys;
    assert ys != [] ==> ys[0] in xs;
    if xs != [] {
      forall m | m in xs ensures m.shotSeq >= 0 && !m.status.Striking? {
        var k: nat :| k <= |events| && m == Run(oracle, room, s, events[..k]);
        RunKeepsInv(oracle, room, s, events[..k]);
      }
      ShownIsNewest(xs);
      ShownIsNewest(ys);
      var x, y := Shown(xs).value, Shown(ys).value;
      VersionsAreUnique(oracle, room, s, events, x, y);
      OrdersAgreeOffStriking(VersionOf(x), VersionOf(y));
      OrdersAgreeOffStriking(VersionOf(y), VersionOf(x));
    }
  }

  // A page that has received the current snapshot of a match shows it, whatever else it received.
  lemma PageShowsTheCurrentSnapshot(oracle: Oracle, room: MatchRoom, s: Snapshot, events: seq<Event>, xs: seq<Snapshot>)
    requires Inv(oracle, room, s)
    requires forall m :: m in xs ==> OfMatch(oracle, room, s, events, m)
    requires Run(oracle, room, s, events) in xs
    ensures Shown(xs) == Some(Run(oracle, room, s, events))
  {
    var now := Run(oracle, room, s, events);
    forall m | m in xs ensures m.shotSeq >= 0 && !m.status.Striking? {
      var k: nat :| k <= |events| && m == Run(oracle, room, s, events[..k]);
      RunKeepsInv(oracle, room, s, events[..k]);
    }
    ShownIsNewest(xs);
    var x := Shown(xs).value;
    var k: nat :| k <= |events| && x == Run(oracle, room, s, events[..k]);
    assert events[..|events|] == events;
    LaterIsNewer(oracle, room, s, events, k, |events|);
    OrdersAgreeOffStriking(VersionOf(now), VersionOf(x));
  }

  // ---- A new match in the same room

  // A match in its first turn, last written before this time.
  predicate FirstTurnBefore(s: Snapshot, now: int) {
    s.shotSeq == 0 && s.turnSeq == 1 && s.updatedAt < now
  }

  lemma NewMatchIsNewerExactlyWhen(oracle: Oracle, room: MatchRoom, s: Snapshot, now: int)
    requires Reachable(oracle, room, s)
    ensures SnapshotIsNewer(VersionOf(InitialSnapshot(oracle, room, now)), VersionOf(s)) <==> FirstTurnBefore(s, now)
  {
    ReachableInv(oracle, room, s);
  }

  // A snapshot of the match before, published late, reaches a page after the start of the new one.
  // The page shows it until a snapshot of the new match is newer, and from then on the new match.
  lemma LateSnapshotStaysExactlyUntil(late: Snapshot, snapshots: seq<Snapshot>)
    requires late.shotSeq >= 0 && forall m :: m in snapshots ==> m.shotSeq >= 0
    ensures Shown([late] + snapshots) ==
      if exists m :: m in snapshots && IsNewerSnapshot(VersionOf(m), VersionOf(late)) then Shown(snapshots)
      else Some(late)
  {
    LateSnapshotComesFirst(late, snapshots);
    if snapshots != [] { ShownIsNewest(snapshots); }
  }

  lemma {:induction false} LateSnapshotComesFirst(late: Snapshot, snapshots: seq<Snapshot>)
    requires late.shotSeq >= 0 && forall m :: m in snapshots ==> m.shotSeq >= 0
    ensures Shown([late] + snapshots) ==
      if Shown(snapshots).Some? && IsNewerSnapshot(VersionOf(Shown(snapshots).value), VersionOf(late)) then
        Shown(snapshots)
      else Some(late)
  {
    if snapshots == [] {
      ShownOneMore([], late);
    } else {
      var n := |snapshots| - 1;
      LateSnapshotComesFirst(late, snapshots[..n]);
      assert [late] + snapshots == [late] + snapshots[..n] + [snapshots[n]];
      ShownOneMore([late] + snapshots[..n], snapshots[n]);
    }
  }

  // The first snapshot of the new match is hidden by any late one but those of a first turn
  // written earlier.
  lemma NewMatchIsHiddenExactlyWhen(oracle: Oracle, room: MatchRoom, late: Snapshot, now: int)
    requires Reachable(oracle, room, late)
    ensures var first := InitialSnapshot(oracle, room, now);
      Shown(SinceStart([MatchStart, StateSync(late), StateSync(first)])) ==
        Some(if FirstTurnBefore(late, now) then first else late)
  {
    ReachableInv(oracle, room, late);
    var first := InitialSnapshot(oracle, room, now);
    NewMatchIsNewerExactlyWhen(oracle, room, late, now);
    OrdersAgreeOffStriking(VersionOf(first), VersionOf(late));
    var messages := [MatchStart, StateSync(late), StateSync(first)];
    assert messages[..2] == [MatchStart, StateSync(late)] && messages[..2][..1] == [MatchStart];
    assert SinceStart([MatchStart]) == [];
    assert SinceStart(messages[..2]) == [late];
    assert SinceStart(messages) == [late] + [first];
    ShownOneMore([], first);
    assert [] + [first] == [first];
    LateSnapshotComesFirst(late, [first]);
  }
}
