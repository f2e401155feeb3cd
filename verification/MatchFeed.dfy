/** What the handler publishes of a match, and what pages make of it: client events, timer firings
    and starts of a match handled one after the other in a room that is playing, with reads,
    writes and clocks as they may be. */
module MatchFeed {
  import opened Base
  import opened MatchRules
  import opened MatchMachine
  import opened SnapshotOrder
  import opened MatchHandler

  datatype Timer = Turning | Preparing | Shooting

  // The calls on the handler, each with the clock readings and failures it meets.
  datatype Call =
    | ClientEvent(e: Event, before: int, wall: int, faults: Faults, faults': Faults)
    | Firing(timer: Timer, seqNo: int, load: bool, now: int, wall: int, faults: Faults)
    | Start(now: int, wall: int, writeFails: bool)

  // What the handler knows of a match: the stored snapshot, and whether it is cached.
  datatype Store = Store(stored: Option<Snapshot>, cached: bool)

  predicate ProperCall(call: Call) {
    match call
    case ClientEvent(e, before, wall, _, _) => before > 0 && wall > 0 && !e.Reconcile?
    case Firing(_, _, _, now, wall, _) => now > 0 && wall > 0
    case Start(now, _, _) => now > 0
  }

  // ---- What calls do to a match

  // The stored match cannot be had: there is none, or it is not cached and the read fails.
  predicate Misses(store: Store, faults: Faults) {
    store.stored.None? || (!store.cached && faults.read)
  }

  // What a call works on: the stored match, or a new one in its place if that can be stored.
  ghost function WorksOn(oracle: Oracle, room: MatchRoom, store: Store, wall: int, faults: Faults): Option<Snapshot> {
    if !Misses(store, faults) then store.stored
    else if !faults.create then Some(InitialSnapshot(oracle, room, wall))
    else None
  }

  // What is stored after a call, and what it publishes.
  ghost function Served(oracle: Oracle, room: MatchRoom, store: Store, call: Call): (Store, seq<Message>) {
    match call
    case ClientEvent(e, before, wall, faults, faults') =>
      var s := WorksOn(oracle, room, store, wall, faults);
      if s.None? then (store.(cached := false), [])
      else
        var landing := Landed(oracle, room, s.value, before, e, faults, faults');
        (Store(Some(landing.stored), landing.written), landing.reply.messages)
    case Firing(_, _, load, now, wall, faults) =>
      if !load then (store, [])
      else FiringServed(oracle, room, store, now, wall, faults)
    case Start(now, _, writeFails) =>
      if writeFails then (store.(cached := false), [])
      else
        var s := InitialSnapshot(oracle, room, now);
        (Store(Some(s), true), [MatchStart, StateSync(s)])
  }

  ghost function FiringServed(oracle: Oracle, room: MatchRoom, store: Store, now: int, wall: int, faults: Faults)
    : (Store, seq<Message>)
  {
    var s := WorksOn(oracle, room, store, wall, faults);
    if s.None? then (store.(cached := false), [])
    else
      var o := ReconcileStep(oracle, room, s.value, now);
      if o.kind.Idle? || !faults.write then (Store(Some(o.next), true), Synced(o))
      else (Store(s, false), [])
  }

  // The same for one call after the other.
  ghost function Feed(oracle: Oracle, room: MatchRoom, store: Store, calls: seq<Call>): (Store, seq<Message>) {
    if calls == [] then (store, [])
    else
      var before := Feed(oracle, room, store, calls[..|calls| - 1]);
      var served := Served(oracle, room, before.0, calls[|calls| - 1]);
      (served.0, before.1 + served.1)
  }

  // With nothing failing, a client event is one reconciliation and one step of the match, in that
  // order, and so are its messages: so an event that comes too late finds its turn or shot lost.
  lemma EventComesAfterTimeouts(oracle: Oracle, room: MatchRoom, s: Snapshot, before: int, e: Event, faults: Faults,
                                faults': Faults)
    requires Inv(oracle, room, s) && !faults.write && !faults'.write
    ensures var landing := Landed(oracle, room, s, before, e, faults, faults');
      var mid := Run(oracle, room, s, [Event.Reconcile(before)]);
      && landing.stored == Run(oracle, room, s, [Event.Reconcile(before), e]) && landing.written
      && landing.reply.messages ==
           (if mid == s then [] else [StateSync(mid)]) + Answer(oracle, room, mid, e, false).messages
      && landing.reply.handled == Answer(oracle, room, mid, e, false).handled
  {
    var events := [Event.Reconcile(before), e];
    assert events[..1] == [Event.Reconcile(before)] && events[..1][..0] == [];
    LastStep(oracle, room, s, events[..1]);
    LastStep(oracle, room, s, events);
    StepPhases(oracle, room, s, Event.Reconcile(before));
    ReconcileActsExactlyWhenDue(oracle, room, s, before);
    StepKeepsInv(oracle, room, s, Event.Reconcile(before));
    StepPhases(oracle, room, ReconcileStep(oracle, room, s, before).next, e);
  }

  // ---- The handler does that

  function StoreOf(h: Handler, roomID: string): Store
    reads h`persisted, h`snapshots
  {
    Store(Lookup(h.persisted, roomID), roomID in h.snapshots)
  }

  method Serve(h: Handler, room: MatchRoom, call: Call) returns (messages: seq<Message>)
    requires h.Coherent(room) && ProperRoom(room) && room.row.status.Playing? && ProperCall(call)
    modifies h
    ensures h.Coherent(room)
    ensures (StoreOf(h, room.id), messages) == Served(h.oracle, room, old(StoreOf(h, room.id)), call)
  {
    match call
    case ClientEvent(e, before, wall, faults, faults') =>
      messages := ServeEvent(h, room, e, before, wall, faults, faults');
    case Firing(timer, seqNo, load, now, wall, faults) =>
      messages := ServeFiring(h, room, timer, seqNo, load, now, wall, faults);
    case Start(now, wall, writeFails) =>
      var reply := h.StartMatch(room, now, wall, writeFails);
      messages := reply.messages;
  }

  method ServeEvent(h: Handler, room: MatchRoom, e: Event, before: int, wall: int, faults: Faults, faults': Faults)
    returns (messages: seq<Message>)
    requires h.Coherent(room) && ProperRoom(room) && room.row.status.Playing?
    requires before > 0 && wall > 0 && !e.Reconcile?
    modifies h
    ensures h.Coherent(room)
    ensures (StoreOf(h, room.id), messages) ==
      Served(h.oracle, room, old(StoreOf(h, room.id)), ClientEvent(e, before, wall, faults, faults'))
  {
    var reply := h.HandleRoomClientEvent(room, e, before, wall, faults, faults');
    messages := reply.messages;
  }

  method ServeFiring(h: Handler, room: MatchRoom, timer: Timer, seqNo: int, load: bool, now: int, wall: int,
                     faults: Faults)
    returns (messages: seq<Message>)
    requires h.Coherent(room) && ProperRoom(room) && room.row.status.Playing? && now > 0 && wall > 0
    modifies h
    ensures h.Coherent(room)
    ensures (StoreOf(h, room.id), messages) ==
      if load then FiringServed(h.oracle, room, old(StoreOf(h, room.id)), now, wall, faults)
      else (old(StoreOf(h, room.id)), [])
  {
    match timer
    case Turning => messages := h.HandleTurnTimer(room, seqNo, load, now, wall, faults);
    case Preparing => messages := h.HandlePrepareTimer(room, seqNo, load, now, wall, faults);
    case Shooting => messages := h.HandleShotTimer(room, seqNo, load, now, wall, faults);
  }

  // Whatever calls come, the handler stores and publishes what Feed says.
  method ServeAll(h: Handler, room: MatchRoom, calls: seq<Call>) returns (messages: seq<Message>)
    requires h.Coherent(room) && ProperRoom(room) && room.row.status.Playing?
    requires forall call :: call in calls ==> ProperCall(call)
    modifies h
    ensures h.Coherent(room)
    ensures (StoreOf(h, room.id), messages) == Feed(h.oracle, room, old(StoreOf(h, room.id)), calls)
  {
    messages := [];
    for i := 0 to |calls|
      invariant h.Coherent(room)
      invariant (StoreOf(h, room.id), messages) == Feed(h.oracle, room, old(StoreOf(h, room.id)), calls[..i])
    {
      assert calls[..i + 1][..i] == calls[..i];
      var more := Serve(h, room, calls[i]);
      messages := messages + more;
    }
    assert calls[..|calls|] == calls;
  }

  // ---- One run

  // Every snapshot among these messages is one the run of these events goes through.
  ghost predicate AllOfMatch(oracle: Oracle, room: MatchRoom, s: Snapshot, events: seq<Event>, messages: seq<Message>) {
    forall m :: m in messages && m.StateSync? ==> OfMatch(oracle, room, s, events, m.snapshot)
  }

  lemma LongerRunHasMore(oracle: Oracle, room: MatchRoom, s: Snapshot, events: seq<Event>, more: seq<Event>,
                         t: Snapshot)
    requires OfMatch(oracle, room, s, events, t) && events <= more
    ensures OfMatch(oracle, room, s, more, t)
  {
    var k: nat :| k <= |events| && t == Run(oracle, room, s, events[..k]);
    assert more[..k] == events[..k];
  }

  lemma LongerRunHasAll(oracle: Oracle, room: MatchRoom, s: Snapshot, events: seq<Event>, more: seq<Event>,
                        messages: seq<Message>)
    requires AllOfMatch(oracle, room, s, events, messages) && events <= more
    ensures AllOfMatch(oracle, room, s, more, messages)
  {
    forall m | m in messages && m.StateSync? ensures OfMatch(oracle, room, s, more, m.snapshot) {
      LongerRunHasMore(oracle, room, s, events, more, m.snapshot);
    }
  }

  lemma TheEndIsOfTheMatch(oracle: Oracle, room: MatchRoom, s: Snapshot, events: seq<Event>)
    ensures OfMatch(oracle, room, s, events, Run(oracle, room, s, events))
  {
    assert events[..|events|] == events;
  }

  // A step from where a run ends, if it is stored, lengthens the run by its event.
  lemma StepIsStored(oracle: Oracle, room: MatchRoom, s: Snapshot, events: seq<Event>, t: Snapshot, e: Event,
                     writeFails: bool)
    returns (more: seq<Event>)
    requires Inv(oracle, room, s) && t == Run(oracle, room, s, events)
    ensures events <= more
    ensures Kept(t, Step(oracle, room, t, e), writeFails) == Run(oracle, room, s, more)
    ensures !writeFails ==> Step(oracle, room, t, e).next == Run(oracle, room, s, more)
  {
    RunKeepsInv(oracle, room, s, events);
    StepPhases(oracle, room, t, e);
    if writeFails {
      more := events;
    } else {
      more := events + [e];
      LastStep(oracle, room, s, more);
      assert more[..|events|] == events;
    }
  }

  // An answer publishes the snapshot the event was judged on, or the one stored after it.
  lemma AnswerPublishes(oracle: Oracle, room: MatchRoom, t: Snapshot, e: Event, writeFails: bool, i: nat)
    requires i < |Answer(oracle, room, t, e, writeFails).messages|
    ensures var m := Answer(oracle, room, t, e, writeFails).messages[i];
      m.StateSync? ==> m.snapshot == t || (!writeFails && m.snapshot == Step(oracle, room, t, e).next)
  {
  }

  lemma EventFollowsTheRun(oracle: Oracle, room: MatchRoom, s: Snapshot, events: seq<Event>, t: Snapshot, e: Event,
                           writeFails: bool, synced: seq<Message>)
    returns (more: seq<Event>)
    requires Inv(oracle, room, s) && t == Run(oracle, room, s, events) && AllOfMatch(oracle, room, s, events, synced)
    ensures events <= more
    ensures var landing := LandedFrom(oracle, room, t, e, writeFails, synced);
      landing.stored == Run(oracle, room, s, more) && AllOfMatch(oracle, room, s, more, landing.reply.messages)
  {
    more := StepIsStored(oracle, room, s, events, t, e, writeFails);
    var answer := Answer(oracle, room, t, e, writeFails).messages;
    forall m | m in synced + answer && m.StateSync? ensures OfMatch(oracle, room, s, more, m.snapshot) {
      if m in synced {
        LongerRunHasMore(oracle, room, s, events, more, m.snapshot);
      } else {
        var i: nat :| i < |answer| && answer[i] == m;
        AnswerPublishes(oracle, room, t, e, writeFails, i);
        TheEndIsOfTheMatch(oracle, room, s, events);
        LongerRunHasMore(oracle, room, s, events, more, t);
        TheEndIsOfTheMatch(oracle, room, s, more);
      }
    }
  }

  lemma FiringFollowsTheRun(oracle: Oracle, room: MatchRoom, s: Snapshot, events: seq<Event>, t: Snapshot, now: int,
                            writeFails: bool)
    returns (more: seq<Event>)
    requires Inv(oracle, room, s) && t == Run(oracle, room, s, events)
    ensures events <= more
    ensures var o := ReconcileStep(oracle, room, t, now);
      && Kept(t, o, writeFails) == Run(oracle, room, s, more)
      && (!writeFails ==> o.next == Run(oracle, room, s, more) && AllOfMatch(oracle, room, s, more, Synced(o)))
  {
    more := StepIsStored(oracle, room, s, events, t, Event.Reconcile(now), writeFails);
    TheEndIsOfTheMatch(oracle, room, s, more);
  }

  // A call that puts a new match in the place of the stored one, announced or not.
  predicate Restarts(store: Store, call: Call) {
    match call
    case ClientEvent(_, _, _, faults, _) => Misses(store, faults) && !faults.create
    case Firing(_, _, load, _, _, faults) => load && Misses(store, faults) && !faults.create
    case Start(_, _, writeFails) => !writeFails
  }

  ghost function NewMatch(oracle: Oracle, room: MatchRoom, call: Call): Snapshot {
    InitialSnapshot(oracle, room, if call.Start? then call.now else call.wall)
  }

  // Any other call takes the run of the match on, whichever of its reads and writes fail.
  lemma ServedFollowsTheRun(oracle: Oracle, room: MatchRoom, s: Snapshot, events: seq<Event>, store: Store, call: Call)
    returns (more: seq<Event>)
    requires Inv(oracle, room, s) && store.stored == Some(Run(oracle, room, s, events)) && !Restarts(store, call)
    ensures events <= more
    ensures var served := Served(oracle, room, store, call);
      served.0.stored == Some(Run(oracle, room, s, more)) && AllOfMatch(oracle, room, s, more, served.1)
  {
    var t := store.stored.value;
    match call
    case ClientEvent(e, before, _, faults, faults') =>
      if Misses(store, faults) || (!ReconcileStep(oracle, room, t, before).kind.Idle? && faults.write) {
        more := events;
      } else {
        var mid := FiringFollowsTheRun(oracle, room, s, events, t, before, false);
        var o := ReconcileStep(oracle, room, t, before);
        more := EventFollowsTheRun(oracle, room, s, mid, o.next, e, faults'.write, Synced(o));
      }
    case Firing(_, _, load, now, _, faults) =>
      if !load || Misses(store, faults) {
        more := events;
      } else {
        more := FiringFollowsTheRun(oracle, room, s, events, t, now, faults.write);
      }
    case Start(_, _, _) => more := events;
  }

  // A call that finds no match does on the new one what it would have done had that been stored.
  lemma RestartIsServedByTheNewMatch(oracle: Oracle, room: MatchRoom, store: Store, call: Call)
    requires Restarts(store, call) && !call.Start?
    ensures var renewed := Store(Some(NewMatch(oracle, room, call)), true);
      Served(oracle, room, store, call) == Served(oracle, room, renewed, call) && !Restarts(renewed, call)
  {
  }

  lemma RestartFollowsTheNewRun(oracle: Oracle, room: MatchRoom, store: Store, call: Call) returns (events: seq<Event>)
    requires ProperRoom(room) && ProperCall(call) && Restarts(store, call)
    ensures var s := NewMatch(oracle, room, call);
      var served := Served(oracle, room, store, call);
      && Inv(oracle, room, s) && served.0.stored == Some(Run(oracle, room, s, events))
      && AllOfMatch(oracle, room, s, events, served.1)
  {
    var s := NewMatch(oracle, room, call);
    InitialInv(oracle, room, if call.Start? then call.now else call.wall);
    if call.Start? {
      events := [];
      TheEndIsOfTheMatch(oracle, room, s, []);
    } else {
      RestartIsServedByTheNewMatch(oracle, room, store, call);
      events := ServedFollowsTheRun(oracle, room, s, [], Store(Some(s), true), call);
    }
  }

  // ---- Any number of calls

  ghost predicate RestartsAt(oracle: Oracle, room: MatchRoom, store: Store, calls: seq<Call>, i: nat)
    requires i < |calls|
  {
    Restarts(Feed(oracle, room, store, calls[..i]).0, calls[i])
  }

  // Of these calls the one before `since` was the last to restart the match; none was, if it is 0.
  ghost predicate LastRestart(oracle: Oracle, room: MatchRoom, store: Store, calls: seq<Call>, since: nat) {
    && since <= |calls|
    && (since > 0 ==> RestartsAt(oracle, room, store, calls, since - 1))
    && forall i :: since <= i < |calls| ==> !RestartsAt(oracle, room, store, calls, i)
  }

  lemma ShorterRestartsAlike(oracle: Oracle, room: MatchRoom, store: Store, calls: seq<Call>)
    requires calls != []
    ensures var n := |calls| - 1;
      forall i: nat :: i < n ==>
        (RestartsAt(oracle, room, store, calls[..n], i) <==> RestartsAt(oracle, room, store, calls, i))
  {
    var n := |calls| - 1;
    forall i: nat | i < n
      ensures RestartsAt(oracle, room, store, calls[..n], i) <==> RestartsAt(oracle, room, store, calls, i)
    {
      assert calls[..n][..i] == calls[..i];
    }
  }

  lemma LastRestartStays(oracle: Oracle, room: MatchRoom, store: Store, calls: seq<Call>, since: nat)
    requires calls != [] && since < |calls| && !RestartsAt(oracle, room, store, calls, |calls| - 1)
    ensures LastRestart(oracle, room, store, calls[..|calls| - 1], since) ==>
      LastRestart(oracle, room, store, calls, since)
  {
    ShorterRestartsAlike(oracle, room, store, calls);
  }

  lemma {:induction false} ThereIsALastRestart(oracle: Oracle, room: MatchRoom, store: Store, calls: seq<Call>)
    returns (since: nat)
    ensures LastRestart(oracle, room, store, calls, since)
  {
    if calls == [] {
      since := 0;
    } else {
      var n := |calls| - 1;
      if RestartsAt(oracle, room, store, calls, n) {
        since := n + 1;
      } else {
        since := ThereIsALastRestart(oracle, room, store, calls[..n]);
        LastRestartStays(oracle, room, store, calls, since);
      }
    }
  }

  // The match that has been played since then.
  ghost function MatchSince(oracle: Oracle, room: MatchRoom, store: Store, calls: seq<Call>, since: nat): Snapshot
    requires since <= |calls| && (since == 0 ==> store.stored.Some?)
  {
    if since == 0 then store.stored.value else NewMatch(oracle, room, calls[since - 1])
  }

  // What was published since then, the restarting call included.
  ghost function FeedSince(oracle: Oracle, room: MatchRoom, store: Store, calls: seq<Call>, since: nat): seq<Message> {
    if calls == [] || |calls| < since then []
    else
      var n := |calls| - 1;
      var before := Feed(oracle, room, store, calls[..n]).0;
      FeedSince(oracle, room, store, calls[..n], since) + Served(oracle, room, before, calls[n]).1
  }

  // The calls up to and without the restarting one.
  function Before(calls: seq<Call>, since: nat): seq<Call>
    requires since <= |calls|
  {
    calls[..if since == 0 then 0 else since - 1]
  }

  lemma SplitAlike(a: seq<Message>, b: seq<Message>, c: seq<Message>)
    ensures a + b + c == a + (b + c)
  {
  }

  lemma NothingSince(oracle: Oracle, room: MatchRoom, store: Store, calls: seq<Call>, since: nat)
    requires since <= |calls| && (calls == [] || since == |calls|)
    ensures Feed(oracle, room, store, calls).1 ==
      Feed(oracle, room, store, Before(calls, since)).1 + FeedSince(oracle, room, store, calls, since)
  {
    if calls != [] {
      var n := |calls| - 1;
      assert Before(calls, since) == calls[..n] && FeedSince(oracle, room, store, calls[..n], since) == [];
    }
  }

  lemma {:induction false} FeedSinceIsTheRest(oracle: Oracle, room: MatchRoom, store: Store, calls: seq<Call>,
                                              since: nat)
    requires since <= |calls|
    ensures Feed(oracle, room, store, calls).1 ==
      Feed(oracle, room, store, Before(calls, since)).1 + FeedSince(oracle, room, store, calls, since)
  {
    if calls == [] || since == |calls| {
      NothingSince(oracle, room, store, calls, since);
    } else {
      var n := |calls| - 1;
      FeedSinceIsTheRest(oracle, room, store, calls[..n], since);
      assert Before(calls[..n], since) == Before(calls, since);
      SplitAlike(Feed(oracle, room, store, Before(calls, since)).1, FeedSince(oracle, room, store, calls[..n], since),
                 Served(oracle, room, Feed(oracle, room, store, calls[..n]).0, calls[n]).1);
    }
  }

  // However many calls, and whichever of their reads and writes fail: what is stored is where one
  // run of the match since the last restart ends, and every snapshot published since is one that
  // this run goes through.
  lemma {:induction false} FeedFollowsTheLastMatch(oracle: Oracle, room: MatchRoom, store: Store, calls: seq<Call>,
                                                   since: nat)
    returns (events: seq<Event>)
    requires ProperRoom(room) && forall call :: call in calls ==> ProperCall(call)
    requires LastRestart(oracle, room, store, calls, since)
    requires since == 0 ==> store.stored.Some? && Inv(oracle, room, store.stored.value)
    ensures var s := MatchSince(oracle, room, store, calls, since);
      && Inv(oracle, room, s)
      && Feed(oracle, room, store, calls).0.stored == Some(Run(oracle, room, s, events))
      && AllOfMatch(oracle, room, s, events, FeedSince(oracle, room, store, calls, since))
  {
    if calls == [] {
      events := [];
    } else {
      var n := |calls| - 1;
      var before := Feed(oracle, room, store, calls[..n]).0;
      if since == n + 1 {
        events := RestartFollowsTheNewRun(oracle, room, before, calls[n]);
        assert FeedSince(oracle, room, store, calls[..n], since) == [];
      } else {
        ShorterRestartsAlike(oracle, room, store, calls);
        var earlier := FeedFollowsTheLastMatch(oracle, room, store, calls[..n], since);
        var s := MatchSince(oracle, room, store, calls, since);
        assert !RestartsAt(oracle, room, store, calls, n);
        events := ServedFollowsTheRun(oracle, room, s, earlier, before, calls[n]);
        LongerRunHasAll(oracle, room, s, earlier, events, FeedSince(oracle, room, store, calls[..n], since));
      }
    }
  }

  // Without a restart, then, that is a run of the match that was stored at the beginning.
  lemma FeedFollowsARun(oracle: Oracle, room: MatchRoom, store: Store, calls: seq<Call>) returns (events: seq<Event>)
    requires ProperRoom(room) && forall call :: call in calls ==> ProperCall(call)
    requires store.stored.Some? && Inv(oracle, room, store.stored.value)
    requires LastRestart(oracle, room, store, calls, 0)
    ensures var s, feed := store.stored.value, Feed(oracle, room, store, calls);
      feed.0.stored == Some(Run(oracle, room, s, events)) && AllOfMatch(oracle, room, s, events, feed.1)
  {
    events := FeedFollowsTheLastMatch(oracle, room, store, calls, 0);
    FeedSinceIsTheRest(oracle, room, store, calls, 0);
    assert Before(calls, 0) == [];
  }

  // ---- Pages

  // These snapshots were published.
  predicate Published(messages: seq<Message>, snapshots: seq<Snapshot>) {
    forall m :: m in snapshots ==> StateSync(m) in messages
  }

  // Two pages that got the same part of what was published since the last restart, in any order
  // and with any repetition, show the same snapshot; and the stored one, if that is in it.
  lemma PagesOfAFeedConverge(oracle: Oracle, room: MatchRoom, store: Store, calls: seq<Call>, since: nat,
                             xs: seq<Snapshot>, ys: seq<Snapshot>)
    requires ProperRoom(room) && forall call :: call in calls ==> ProperCall(call)
    requires LastRestart(oracle, room, store, calls, since)
    requires since == 0 ==> store.stored.Some? && Inv(oracle, room, store.stored.value)
    requires var published := FeedSince(oracle, room, store, calls, since);
      Published(published, xs) && Published(published, ys)
    requires forall m :: m in xs <==> m in ys
    ensures Shown(xs) == Shown(ys)
    ensures forall m :: m in xs && Feed(oracle, room, store, calls).0.stored == Some(m) ==> Shown(xs) == Some(m)
  {
    var events := FeedFollowsTheLastMatch(oracle, room, store, calls, since);
    var s := MatchSince(oracle, room, store, calls, since);
    var published := FeedSince(oracle, room, store, calls, since);
    forall m | m in xs ensures OfMatch(oracle, room, s, events, m) {
      assert StateSync(m) in published;
    }
    PagesConverge(oracle, room, s, events, xs, ys);
    if Run(oracle, room, s, events) in xs { PageShowsTheCurrentSnapshot(oracle, room, s, events, xs); }
  }

  // ---- Restarts that nobody announces

  lemma {:induction false} ShotsDoneNeverFall(oracle: Oracle, room: MatchRoom, s: Snapshot, events: seq<Event>)
    requires Inv(oracle, room, s)
    ensures ShotsDone(Run(oracle, room, s, events)) >= ShotsDone(s)
  {
    if events != [] {
      var n := |events| - 1;
      ShotsDoneNeverFall(oracle, room, s, events[..n]);
      RunKeepsInv(oracle, room, s, events[..n]);
      StepResolves(oracle, room, Run(oracle, room, s, events[..n]), events[n]);
    }
  }

  // What an event can do in a turn before the first shot.
  lemma FirstTurnEvent(oracle: Oracle, room: MatchRoom, t: Snapshot, e: Event, writeFails: bool)
    requires PhasesInv(room, t) && t.status.Aiming? && t.shotSeq == 0
    ensures ShotsDone(Kept(t, Step(oracle, room, t, e), writeFails)) == 0
    ensures var messages := Answer(oracle, room, t, e, writeFails).messages;
      MatchStart !in messages && forall m :: m in messages && m.StateSync? ==> m.snapshot.shotSeq == 0
  {
    StepPhases(oracle, room, t, e);
    StepCounters(oracle, room, t, e);
  }

  lemma LandsBeforeTheFirstShot(oracle: Oracle, room: MatchRoom, s: Snapshot, before: int, e: Event, faults: Faults,
                                faults': Faults)
    requires Inv(oracle, room, s) && s.status.Aiming? && s.shotSeq == 0
    ensures var landing := Landed(oracle, room, s, before, e, faults, faults');
      && ShotsDone(landing.stored) == 0 && MatchStart !in landing.reply.messages
      && forall m :: m in landing.reply.messages && m.StateSync? ==> m.snapshot.shotSeq == 0
  {
    ReconcileKeepsInv(oracle, room, s, before);
    StepPhases(oracle, room, s, Event.Reconcile(before));
    StepCounters(oracle, room, s, Event.Reconcile(before));
    FirstTurnEvent(oracle, room, ReconcileStep(oracle, room, s, before).next, e, faults'.write);
  }

  lemma FirstCall(oracle: Oracle, room: MatchRoom, s: Snapshot, call: Call)
    requires Inv(oracle, room, s) && s.status.Aiming? && s.shotSeq == 0 && !call.Start?
    ensures var served := Served(oracle, room, Store(Some(s), true), call);
      && served.0.stored.Some? && ShotsDone(served.0.stored.value) == 0 && MatchStart !in served.1
      && forall m :: m in served.1 && m.StateSync? ==> m.snapshot.shotSeq == 0
  {
    match call
    case ClientEvent(e, before, _, faults, faults') =>
      LandsBeforeTheFirstShot(oracle, room, s, before, e, faults, faults');
    case Firing(_, _, _, now, _, faults) =>
      StepPhases(oracle, room, s, Event.Reconcile(now));
      StepCounters(oracle, room, s, Event.Reconcile(now));
  }

  // After a restart no shot of the new match is over, and every snapshot published precedes its
  // first shot.
  lemma RestartIsBeforeTheFirstShot(oracle: Oracle, room: MatchRoom, store: Store, call: Call)
    requires ProperRoom(room) && ProperCall(call) && Restarts(store, call)
    ensures var served := Served(oracle, room, store, call);
      && served.0.stored.Some? && ShotsDone(served.0.stored.value) == 0
      && (forall m :: m in served.1 && m.StateSync? ==> m.snapshot.shotSeq == 0)
      && (MatchStart in served.1 <==> call.Start?)
  {
    var s := NewMatch(oracle, room, call);
    InitialInv(oracle, room, if call.Start? then call.now else call.wall);
    if !call.Start? {
      RestartIsServedByTheNewMatch(oracle, room, store, call);
      FirstCall(oracle, room, s, call);
    }
  }

  // Once a shot of the match is over, a call takes its run on if and only if it is no restart.
  lemma CallFollowsTheRunExactlyWhen(oracle: Oracle, room: MatchRoom, store: Store, call: Call)
    requires ProperRoom(room) && ProperCall(call)
    requires store.stored.Some? && Inv(oracle, room, store.stored.value) && ShotsDone(store.stored.value) > 0
    ensures !Restarts(store, call) <==>
      exists events :: Served(oracle, room, store, call).0.stored == Some(Run(oracle, room, store.stored.value, events))
  {
    var s := store.stored.value;
    if !Restarts(store, call) {
      var events := ServedFollowsTheRun(oracle, room, s, [], store, call);
    } else {
      RestartIsBeforeTheFirstShot(oracle, room, store, call);
      forall events ensures Served(oracle, room, store, call).0.stored != Some(Run(oracle, room, s, events)) {
        ShotsDoneNeverFall(oracle, room, s, events);
      }
    }
  }

  lemma {:induction false} SinceStartIsPublished(messages: seq<Message>, m: Snapshot)
    requires m in SinceStart(messages)
    ensures StateSync(m) in messages
  {
    var n := |messages| - 1;
    if messages[n] != StateSync(m) { SinceStartIsPublished(messages[..n], m); }
  }

  lemma {:induction false} SinceStartOfMore(s: Snapshot, messages: seq<Message>)
    requires MatchStart !in messages
    ensures SinceStart([StateSync(s)] + messages) == [s] + SinceStart(messages)
  {
    var all := [StateSync(s)] + messages;
    if messages == [] {
      assert all[..0] == [] && SinceStart(all[..0]) == [];
    } else {
      var n := |messages| - 1;
      assert all[..|all| - 1] == [StateSync(s)] + messages[..n];
      SinceStartOfMore(s, messages[..n]);
    }
  }

  // Whatever follows without a start, the page shows the old match until a snapshot of the new one
  // is newer.
  lemma PageAfterAnUnannouncedMatch(s: Snapshot, messages: seq<Message>)
    requires s.shotSeq >= 0 && MatchStart !in messages
    requires forall m :: m in messages && m.StateSync? ==> m.snapshot.shotSeq >= 0
    ensures Shown(SinceStart([StateSync(s)] + messages)) ==
      if exists m :: m in SinceStart(messages) && IsNewerSnapshot(VersionOf(m), VersionOf(s)) then
        Shown(SinceStart(messages))
      else Some(s)
  {
    SinceStartOfMore(s, messages);
    forall m | m in SinceStart(messages) ensures m.shotSeq >= 0 {
      SinceStartIsPublished(messages, m);
    }
    LateSnapshotStaysExactlyUntil(s, SinceStart(messages));
  }

  // The cache is empty, the read fails, and a new match is stored where one was that has had its
  // first shot: a page that shows the old match goes on showing it.
  lemma PagesMissALostRead(oracle: Oracle, room: MatchRoom, s: Snapshot, call: Call)
    requires Inv(oracle, room, s) && ShotsDone(s) > 0 && ProperCall(call) && !call.Start?
    requires Restarts(Store(Some(s), false), call)
    ensures var served := Served(oracle, room, Store(Some(s), false), call);
      && served.0.stored != Some(s)
      && Shown(SinceStart([StateSync(s)] + served.1)) == Some(s)
  {
    RestartIsBeforeTheFirstShot(oracle, room, Store(Some(s), false), call);
    var messages := Served(oracle, room, Store(Some(s), false), call).1;
    PageAfterAnUnannouncedMatch(s, messages);
    forall m | m in SinceStart(messages) ensures !IsNewerSnapshot(VersionOf(m), VersionOf(s)) {
      SinceStartIsPublished(messages, m);
    }
  }

  // A failed write followed by a failed read is all it takes.
  lemma FailedWriteThenLostReadRestarts(oracle: Oracle, room: MatchRoom, s: Snapshot, due: int, now: int, wall: int)
    requires Inv(oracle, room, s) && !ReconcileStep(oracle, room, s, due).kind.Idle?
    ensures var first := Firing(Shooting, s.shotSeq, true, due, wall, Faults(false, false, true));
      var second := Firing(Shooting, s.shotSeq, true, now, wall, Faults(true, false, false));
      RestartsAt(oracle, room, Store(Some(s), true), [first, second], 1)
  {
    var first := Firing(Shooting, s.shotSeq, true, due, wall, Faults(false, false, true));
    var second := Firing(Shooting, s.shotSeq, true, now, wall, Faults(true, false, false));
    assert [first, second][..1] == [first] && [first][..0] == [];
    assert Feed(oracle, room, Store(Some(s), true), [first]).0 == Store(Some(s), false);
  }
}
