/** The fixed-window rate limiter and its background cleaner (rate_limit.go). A request reads the
    clock up to twice under the lock: `now` to test the window, `later` to open a new one. */
module RateLimiter {
  datatype Client = Client(lastSeen: int, count: int)

  type Clients = map<string, Client>

  datatype Limits = Limits(limit: int, window: int)

  // How many requests one window lets through: its first in any case.
  function PerWindow(l: Limits): int {
    if l.limit > 1 then l.limit else 1
  }

  predicate Stale(c: Client, now: int, l: Limits) {
    now - c.lastSeen > l.window
  }

  function Served(cs: Clients, key: string, now: int, later: int, l: Limits): (Clients, bool) {
    if key !in cs || Stale(cs[key], now, l) then (cs[key := Client(later, 1)], true)
    else if cs[key].count >= l.limit then (cs, false)
    else (cs[key := Client(cs[key].lastSeen, cs[key].count + 1)], true)
  }

  // The cleaner reaches one entry.
  function Cleaned(cs: Clients, key: string, now: int, l: Limits): Clients {
    if key in cs && Stale(cs[key], now, l) then cs - {key} else cs
  }

  datatype Step =
    | Request(key: string, now: int, later: int)
    | Clean(key: string, now: int)

  function Next(cs: Clients, step: Step, l: Limits): Clients {
    match step
    case Request(key, now, later) => Served(cs, key, now, later, l).0
    case Clean(key, now) => Cleaned(cs, key, now, l)
  }

  // The clock never runs backwards, starting from t.
  predicate Monotone(steps: seq<Step>, t: int) {
    steps == [] || (t <= steps[0].now && (steps[0].Request? ==> steps[0].now <= steps[0].later) &&
                    Monotone(steps[1..], EndOf(steps[0])))
  }

  function EndOf(step: Step): int {
    if step.Request? then step.later else step.now
  }

  // ---- The cleaner

  // What the requests of a run are told, in order.
  function Answers(cs: Clients, steps: seq<Step>, l: Limits): seq<bool>
    decreases |steps|
  {
    if steps == [] then []
    else
      var rest := Answers(Next(cs, steps[0], l), steps[1..], l);
      if steps[0].Request? then [Served(cs, steps[0].key, steps[0].now, steps[0].later, l).1] + rest else rest
  }

  function Requests(steps: seq<Step>): seq<Step> {
    if steps == [] then []
    else if steps[0].Request? then [steps[0]] + Requests(steps[1..])
    else Requests(steps[1..])
  }

  // `cs` lacks some entries of `full` that are stale at t.
  predicate Swept(cs: Clients, full: Clients, t: int, l: Limits) {
    && (forall k :: k in cs ==> k in full && cs[k] == full[k])
    && (forall k :: k in full && k !in cs ==> Stale(full[k], t, l))
  }

  lemma SweptIsServedAlike(cs: Clients, full: Clients, t: int, key: string, now: int, later: int, l: Limits)
    requires Swept(cs, full, t, l) && t <= now <= later
    ensures Served(cs, key, now, later, l).1 == Served(full, key, now, later, l).1
    ensures Swept(Served(cs, key, now, later, l).0, Served(full, key, now, later, l).0, later, l)
  {
  }

  lemma {:induction false} SweptAnswersAlike(cs: Clients, full: Clients, steps: seq<Step>, t: int, l: Limits)
    requires Swept(cs, full, t, l) && Monotone(steps, t)
    ensures Answers(cs, steps, l) == Answers(full, Requests(steps), l)
    decreases |steps|
  {
    if steps == [] {
    } else if steps[0].Request? {
      var r := steps[0];
      SweptIsServedAlike(cs, full, t, r.key, r.now, r.later, l);
      SweptAnswersAlike(Next(cs, r, l), Next(full, r, l), steps[1..], r.later, l);
      var requests := [r] + Requests(steps[1..]);
      assert requests[1..] == Requests(steps[1..]);
    } else {
      SweptAnswersAlike(Next(cs, steps[0], l), full, steps[1..], steps[0].now, l);
    }
  }

  // Whenever and however often the cleaner runs, every request gets the same answer.
  lemma CleanerChangesNoAnswer(steps: seq<Step>, t: int, l: Limits)
    requires Monotone(steps, t)
    ensures Answers(map[], steps, l) == Answers(map[], Requests(steps), l)
  {
    SweptAnswersAlike(map[], map[], steps, t, l);
  }

  // ---- How much an interval lets through

  // Requests of this key let through at a time from a to a + window.
  function Admitted(cs: Clients, steps: seq<Step>, key: string, a: int, l: Limits): nat
    decreases |steps|
  {
    if steps == [] then 0
    else Counts(cs, steps[0], key, a, l) + Admitted(Next(cs, steps[0], l), steps[1..], key, a, l)
  }

  function Counts(cs: Clients, step: Step, key: string, a: int, l: Limits): nat {
    if step.Request? && step.key == key && a <= step.now <= a + l.window && Served(cs, key, step.now, step.later, l).1
    then 1 else 0
  }

  predicate Counting(cs: Clients) {
    forall k :: k in cs ==> cs[k].count >= 1
  }

  lemma {:induction false} NothingAfterTheInterval(cs: Clients, steps: seq<Step>, t: int, key: string, a: int,
                                                   l: Limits)
    requires Monotone(steps, t) && t > a + l.window
    ensures Admitted(cs, steps, key, a, l) == 0
    decreases |steps|
  {
    if steps != [] {
      NothingAfterTheInterval(Next(cs, steps[0], l), steps[1..], EndOf(steps[0]), key, a, l);
    }
  }

  // What may still come: the rest of the open window and, if it opened before a, one more.
  function Budget(cs: Clients, key: string, a: int, l: Limits): int {
    if key !in cs then PerWindow(l)
    else Left(cs[key], l) + (if cs[key].lastSeen < a then PerWindow(l) else 0)
  }

  function Left(c: Client, l: Limits): int {
    if PerWindow(l) > c.count then PerWindow(l) - c.count else 0
  }

  lemma StepSpendsBudget(cs: Clients, step: Step, key: string, a: int, l: Limits)
    requires a <= step.now && (step.Request? ==> step.now <= step.later)
    ensures step.now > a + l.window ||
      Counts(cs, step, key, a, l) + Budget(Next(cs, step, l), key, a, l) <= Budget(cs, key, a, l)
  {
  }

  lemma {:induction false} LateRunFitsBudget(cs: Clients, steps: seq<Step>, t: int, key: string, a: int, l: Limits)
    requires Monotone(steps, t) && t >= a
    ensures Admitted(cs, steps, key, a, l) <= Budget(cs, key, a, l)
    decreases |steps|
  {
    if steps != [] {
      var step := steps[0];
      if step.now > a + l.window {
        NothingAfterTheInterval(Next(cs, step, l), steps[1..], EndOf(step), key, a, l);
      } else {
        StepSpendsBudget(cs, step, key, a, l);
        LateRunFitsBudget(Next(cs, step, l), steps[1..], EndOf(step), key, a, l);
      }
    }
  }

  // No stretch of one window's length lets more than 2n - 1 requests of one client through,
  // with n a window's allowance.
  lemma {:induction false} IntervalAdmitsAtMost(cs: Clients, steps: seq<Step>, t: int, key: string, a: int, l: Limits)
    requires Monotone(steps, t) && Counting(cs)
    ensures Admitted(cs, steps, key, a, l) <= 2 * PerWindow(l) - 1
    decreases |steps|
  {
    if steps != [] {
      if steps[0].now < a {
        IntervalAdmitsAtMost(Next(cs, steps[0], l), steps[1..], EndOf(steps[0]), key, a, l);
      } else {
        assert Monotone(steps, a);
        LateRunFitsBudget(cs, steps, a, key, a, l);
      }
    }
  }

  // ---- The bound is reached

  function Burst(key: string, now: int, n: nat): seq<Step> {
    if n == 0 then [] else [Request(key, now, now)] + Burst(key, now, n - 1)
  }

  // One request opens a window, the rest of its allowance comes at its end, and the next
  // window's whole allowance right after.
  function TwoBursts(key: string, l: Limits): seq<Step> {
    [Request(key, 0, 0)] + (Burst(key, l.window, PerWindow(l) - 1) + Burst(key, l.window + 1, PerWindow(l)))
  }

  lemma {:induction false} BurstIsMonotone(key: string, now: int, n: nat, more: seq<Step>, t: int)
    requires t <= now && Monotone(more, now)
    ensures Monotone(Burst(key, now, n) + more, t)
  {
    if n == 0 {
      assert Burst(key, now, n) + more == more;
      SoonerIsMonotone(more, now, t);
    } else {
      BurstIsMonotone(key, now, n - 1, more, now);
      assert (Burst(key, now, n) + more)[1..] == Burst(key, now, n - 1) + more;
    }
  }

  lemma SoonerIsMonotone(steps: seq<Step>, t: int, sooner: int)
    requires Monotone(steps, t) && sooner <= t
    ensures Monotone(steps, sooner)
  {
  }

  lemma {:induction false} BurstInOpenWindow(cs: Clients, key: string, now: int, n: nat, more: seq<Step>, a: int,
                                             l: Limits)
    requires key in cs && !Stale(cs[key], now, l) && (n == 0 || cs[key].count + n <= l.limit)
    requires a <= now <= a + l.window
    ensures Admitted(cs, Burst(key, now, n) + more, key, a, l)
      == n + Admitted(cs[key := cs[key].(count := cs[key].count + n)], more, key, a, l)
  {
    if n == 0 {
      assert Burst(key, now, n) + more == more;
      assert cs[key := cs[key].(count := cs[key].count + n)] == cs;
    } else {
      var next := cs[key := cs[key].(count := cs[key].count + 1)];
      assert (Burst(key, now, n) + more)[1..] == Burst(key, now, n - 1) + more;
      assert Next(cs, Request(key, now, now), l) == next;
      BurstInOpenWindow(next, key, now, n - 1, more, a, l);
      assert next[key := next[key].(count := next[key].count + (n - 1))] ==
        cs[key := cs[key].(count := cs[key].count + n)];
    }
  }

  lemma SecondBurst(key: string, l: Limits)
    requires l.window >= 1
    ensures Admitted(map[key := Client(0, PerWindow(l))], Burst(key, l.window + 1, PerWindow(l)), key, l.window, l)
      == PerWindow(l)
  {
    var n := PerWindow(l);
    var cs := map[key := Client(0, n)];
    var reopened := cs[key := Client(l.window + 1, 1)];
    var rest := Burst(key, l.window + 1, n - 1);
    assert Burst(key, l.window + 1, n)[1..] == rest;
    assert Next(cs, Request(key, l.window + 1, l.window + 1), l) == reopened;
    BurstInOpenWindow(reopened, key, l.window + 1, n - 1, [], l.window, l);
    assert rest + [] == rest;
  }

  // The bound of 2n - 1 is met under every limit, so no smaller one holds.
  lemma BoundIsReached(key: string, l: Limits)
    requires l.window >= 1
    ensures Monotone(TwoBursts(key, l), 0)
    ensures Admitted(map[], TwoBursts(key, l), key, l.window, l) == 2 * PerWindow(l) - 1
  {
    var n := PerWindow(l);
    var second := Burst(key, l.window + 1, n);
    assert second + [] == second;
    BurstIsMonotone(key, l.window + 1, n, [], l.window);
    BurstIsMonotone(key, l.window, n - 1, second, 0);
    assert TwoBursts(key, l)[1..] == Burst(key, l.window, n - 1) + second;
    assert Next(map[], Request(key, 0, 0), l) == map[key := Client(0, 1)];
    BurstInOpenWindow(map[key := Client(0, 1)], key, l.window, n - 1, second, l.window, l);
    SecondBurst(key, l);
    assert map[key := Client(0, 1)][key := Client(0, n)] == map[key := Client(0, n)];
  }

  // A window runs from the second reading of the clock by the request that opens it: the next
  // request is let through if that is more than a window ago, or if two fit into one.
  lemma WindowRunsFromTheSecondReading(cs: Clients, key: string, now: int, later: int, next: int, after: int, l: Limits)
    requires key !in cs || now - cs[key].lastSeen > l.window
    ensures Served(cs, key, now, later, l).1
    ensures Served(Next(cs, Request(key, now, later), l), key, next, after, l).1 <==>
      next - later > l.window || l.limit > 1
  {
  }

  // Every request of a burst that finds no open window is counted up to the allowance, none beyond.
  lemma {:induction false} BurstAdmits(cs: Clients, key: string, now: int, n: nat, l: Limits)
    requires l.window >= 0 && (key !in cs || Stale(cs[key], now, l))
    ensures Admitted(cs, Burst(key, now, n), key, now, l) == if n <= PerWindow(l) then n else PerWindow(l)
  {
    if n > 0 {
      var open := cs[key := Client(now, 1)];
      assert Burst(key, now, n)[1..] == Burst(key, now, n - 1);
      assert Next(cs, Request(key, now, now), l) == open;
      OpenBurstAdmits(open, key, now, n - 1, l);
    }
  }

  lemma {:induction false} OpenBurstAdmits(cs: Clients, key: string, now: int, n: nat, l: Limits)
    requires l.window >= 0 && key in cs && cs[key].lastSeen == now && 1 <= cs[key].count <= PerWindow(l)
    ensures Admitted(cs, Burst(key, now, n), key, now, l) ==
      if n <= PerWindow(l) - cs[key].count then n else PerWindow(l) - cs[key].count
  {
    if n > 0 {
      assert Burst(key, now, n)[1..] == Burst(key, now, n - 1);
      OpenBurstAdmits(Next(cs, Request(key, now, now), l), key, now, n - 1, l);
    }
  }

  // ---- A round of the cleaner

  // What the cleaning steps of these visits leave, each made at its own reading of the clock.
  function AfterRound(cs: Clients, visits: seq<(string, int)>, l: Limits): Clients {
    if visits == [] then cs
    else
      var n := |visits| - 1;
      Next(AfterRound(cs, visits[..n], l), Clean(visits[n].0, visits[n].1), l)
  }

  // These entries are visited, each once.
  ghost predicate EachOnce(visits: seq<(string, int)>, ips: set<string>) {
    && (forall ip :: ip in ips <==> exists i :: 0 <= i < |visits| && visits[i].0 == ip)
    && (forall i, j :: 0 <= i < j < |visits| ==> visits[i].0 != visits[j].0)
  }

  ghost predicate ReadsClock(visits: seq<(string, int)>, clock: nat -> int) {
    forall i :: 0 <= i < |visits| ==> visits[i].1 == clock(i)
  }

  // A round over the table cs has made these visits, to the given entries, and left this table.
  ghost predicate InRound(cs: Clients, left: Clients, visits: seq<(string, int)>, ips: set<string>,
                          clock: nat -> int, l: Limits)
  {
    EachOnce(visits, ips) && ReadsClock(visits, clock) && left == AfterRound(cs, visits, l)
  }

  lemma OneMoreVisit(cs: Clients, left: Clients, visits: seq<(string, int)>, todo: set<string>, ip: string,
                     clock: nat -> int, l: Limits)
    requires InRound(cs, left, visits, cs.Keys - todo, clock, l) && ip in todo && todo <= left.Keys
    ensures var now := clock(|visits|);
      var left' := Cleaned(left, ip, now, l);
      InRound(cs, left', visits + [(ip, now)], cs.Keys - (todo - {ip}), clock, l) && todo - {ip} <= left'.Keys
  {
    assert ip in cs by { RoundOnlyDeletes(cs, visits, l); }
    assert cs.Keys - (todo - {ip}) == cs.Keys - todo + {ip};
    OneMoreIsEachOnce(visits, cs.Keys - todo, ip, clock(|visits|));
    assert (visits + [(ip, clock(|visits|))])[..|visits|] == visits;
  }

  lemma {:induction false} RoundOnlyDeletes(cs: Clients, visits: seq<(string, int)>, l: Limits)
    ensures AfterRound(cs, visits, l).Keys <= cs.Keys
  {
    if visits != [] {
      RoundOnlyDeletes(cs, visits[..|visits| - 1], l);
    }
  }

  lemma OneMoreIsEachOnce(visits: seq<(string, int)>, ips: set<string>, ip: string, now: int)
    requires EachOnce(visits, ips) && ip !in ips
    ensures EachOnce(visits + [(ip, now)], ips + {ip})
  {
    var more := visits + [(ip, now)];
    forall x | x in ips + {ip} ensures exists i :: 0 <= i < |more| && more[i].0 == x {
      if x == ip {
        assert more[|visits|].0 == x;
      } else {
        var i :| 0 <= i < |visits| && visits[i].0 == x;
        assert more[i].0 == x;
      }
    }
  }

  // So a round that visits every entry deletes exactly those that are stale when visited.
  lemma {:induction false} RoundDeletesExactlyTheStale(cs: Clients, visits: seq<(string, int)>, l: Limits, i: nat)
    requires i < |visits| && forall j, k :: 0 <= j < k < |visits| ==> visits[j].0 != visits[k].0
    requires visits[i].0 in cs
    ensures visits[i].0 in AfterRound(cs, visits, l) <==> !Stale(cs[visits[i].0], visits[i].1, l)
  {
    var n := |visits| - 1;
    if i < n {
      RoundDeletesExactlyTheStale(cs, visits[..n], l, i);
    } else {
      UnvisitedStays(cs, visits[..n], l, visits[n].0);
    }
  }

  lemma {:induction false} UnvisitedStays(cs: Clients, visits: seq<(string, int)>, l: Limits, ip: string)
    requires ip in cs && forall j :: 0 <= j < |visits| ==> visits[j].0 != ip
    ensures ip in AfterRound(cs, visits, l) && AfterRound(cs, visits, l)[ip] == cs[ip]
  {
    if visits != [] {
      UnvisitedStays(cs, visits[..|visits| - 1], l, ip);
    }
  }

  // ---- The middleware

  class IPBasedRateLimiter {
    const limits: Limits
    var clients: Clients

    constructor (limit: int, window: int)
      ensures limits == Limits(limit, window) && clients == map[]
    {
      limits := Limits(limit, window);
      clients := map[];
    }

    method Handle(ip: string, now: int, later: int) returns (admitted: bool)
      modifies this
      ensures (clients, admitted) == Served(old(clients), ip, now, later, limits)
    {
      if ip !in clients {
        clients := clients[ip := Client(later, 1)];
        return true;
      }
      var cl := clients[ip];
      if now - cl.lastSeen > limits.window {
        clients := clients[ip := cl.(lastSeen := later, count := 1)];
        return true;
      }
      if cl.count >= limits.limit {
        return false;
      }
      clients := clients[ip := cl.(count := cl.count + 1)];
      admitted := true;
    }

    method CleanEntry(ip: string, now: int)
      requires ip in clients
      modifies this
      ensures clients == Cleaned(old(clients), ip, now, limits)
    {
      if now - clients[ip].lastSeen > limits.window {
        clients := clients - {ip};
      }
    }

    // One round of the cleaner visits every entry once, in an order of the runtime's choosing, and
    // reads the clock anew at each: the i-th visit reads clock(i).
    method CleanRound(clock: nat -> int) returns (ghost visits: seq<(string, int)>)
      modifies this
      ensures clients == AfterRound(old(clients), visits, limits)
      ensures EachOnce(visits, old(clients).Keys)
      ensures ReadsClock(visits, clock)
    {
      visits := [];
      var todo, turn := clients.Keys, 0;
      while todo != {}
        invariant turn == |visits| && todo <= clients.Keys
        invariant InRound(old(clients), clients, visits, old(clients).Keys - todo, clock, limits)
        decreases |todo|
      {
        var ip :| ip in todo;
        var now := clock(turn);
        OneMoreVisit(old(clients), clients, visits, todo, ip, clock, limits);
        CleanEntry(ip, now);
        visits := visits + [(ip, now)];
        todo, turn := todo - {ip}, turn + 1;
      }
      assert old(clients).Keys - todo == old(clients).Keys;
    }
  }
}
