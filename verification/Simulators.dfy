/**
 The two implementations of SimState: routers in memory, and routers as one
 document each in a key-value store. Clock readings, jitters, drops and visiting
 orders are arguments; the store answers every request.
 */
module Simulators {
  import opened Codes
  import opened Devices

  /** `order` is how the in-memory map is visited, `sorted` how the document's names are. */
  datatype Call =
    | RegisterRouter(id: int, name: string, now: int)
    | UnregisterRouter(id: int)
    | Reset(id: int)
    | Probe(id: int, now: int)
    | ApplyHotspotConfig(id: int, hotspot: string, rx: int, tx: int, uptimeLimit: int)
    | ApplyRateMultiplier(id: int, hotspot: string, multiplier: real)
    | SeedSession(id: int, session: SimSession)
    | DisconnectSession(id: int, username: string)
    | ListSessions(id: int, intervalSec: real, choices: Choices, order: seq<string>, sorted: seq<string>)

  datatype Reply =
    | Nothing
    | Probed(connected: bool, lastSeen: int)
    | Failed(error: Error)
    | Accepted
    | Sessions(list: seq<SimSession>)

  function NewRouter(id: int, name: string): Router {
    Router(id, name, false, 0, map[], map[])
  }

  /** Calls other than registration, on a router that exists: its new state and the answer. */
  ghost function OnRouter(r: Router, c: Call, order: seq<string>): (Router, Reply)
    requires c.ListSessions? && r.connected ==>
               Enumerates(order, r.sessions.Keys) && ChoicesFor(c.choices, r.sessions.Keys)
  {
    match c
    case RegisterRouter(_, _, now) => (r.(connected := true, lastSeen := now), Nothing)
    case UnregisterRouter(_) => (r, Nothing)
    case Reset(_) => (r.(connected := false), Nothing)
    case Probe(_, now) => (r.(lastSeen := now), Probed(r.connected, now))
    case ApplyHotspotConfig(_, hotspot, rx, tx, uptimeLimit) =>
      if !r.connected then (r, Failed(RouterOffline))
      else (Configured(r, hotspot, rx, tx, uptimeLimit), Accepted)
    case ApplyRateMultiplier(_, hotspot, multiplier) =>
      if !r.connected then (r, Failed(RouterOffline))
      else if hotspot !in r.hotspots then (r, Failed(NoHotspot))
      else (Boosted(r, hotspot, multiplier), Accepted)
    case SeedSession(_, s) =>
      (if r.connected then r.(sessions := r.sessions[s.username := s]) else r, Nothing)
    case DisconnectSession(_, username) =>
      if !r.connected then (r, Failed(RouterOffline))
      else (r.(sessions := r.sessions - {username}), Accepted)
    case ListSessions(_, intervalSec, choices, _, _) =>
      if !r.connected then (r, Failed(RouterOffline))
      else var l := Listed(r, intervalSec, choices, order); (l.0, Sessions(l.1))
  }

  /** The answer about a router that does not exist. */
  function OnUnknown(c: Call): Reply {
    if c.RegisterRouter? || c.UnregisterRouter? || c.Reset? || c.SeedSession? then Nothing else Failed(UnknownRouter)
  }

  /** A listing comes with a full enumeration of the sessions and a choice for each. */
  ghost predicate Playable(r: Router, c: Call, order: seq<string>) {
    c.ListSessions? && r.connected ==> Enumerates(order, r.sessions.Keys) && ChoicesFor(c.choices, r.sessions.Keys)
  }

  // ---- In memory ----

  type Memory = map<int, Router>

  ghost function MemoryCall(m: Memory, c: Call): (Memory, Reply)
    requires c.id in m ==> Playable(m[c.id], c, if c.ListSessions? then c.order else [])
  {
    if c.UnregisterRouter? then (m - {c.id}, Nothing)
    else if c.id in m then
      var o := OnRouter(m[c.id], c, if c.ListSessions? then c.order else []);
      (m[c.id := o.0], o.1)
    else if c.RegisterRouter? then (m[c.id := OnRouter(NewRouter(c.id, c.name), c, []).0], Nothing)
    else (m, OnUnknown(c))
  }

  // ---- In Redis ----

  const PREFIX := "fihos:sim:router:"

  function KeyFor(id: int): string {
    PREFIX + FormatInt(id)
  }

  type Documents = map<string, Router>

  /** Registering again renames the document, which no call of SimState shows. */
  function Renamed(r: Router, c: Call): Router {
    if c.RegisterRouter? && c.name != "" then r.(name := c.name) else r
  }

  ghost function RedisCall(docs: Documents, c: Call): (Documents, Reply)
    requires KeyFor(c.id) in docs ==> Playable(docs[KeyFor(c.id)], c, if c.ListSessions? then c.sorted else [])
  {
    var key := KeyFor(c.id);
    if c.UnregisterRouter? then (docs - {key}, Nothing)
    else if key in docs then
      var o := OnRouter(docs[key], c, if c.ListSessions? then c.sorted else []);
      var r := Renamed(o.0, c);
      (docs[KeyFor(r.id) := r], o.1)
    else if c.RegisterRouter? then (docs[key := OnRouter(NewRouter(c.id, c.name), c, []).0], Nothing)
    else (docs, OnUnknown(c))
  }

  // ---- Agreement ----

  /** Everything but the name. */
  ghost predicate SameDevice(a: Router, b: Router) {
    a.(name := b.name) == b
  }

  ghost predicate Mirrors(m: Memory, docs: Documents) {
    forall id :: (id in m <==> KeyFor(id) in docs) &&
                 (id in m ==> m[id].id == id && SameDevice(m[id], docs[KeyFor(id)]))
  }

  ghost predicate RepliesAgree(a: Reply, b: Reply) {
    if a.Sessions? && b.Sessions? then |a.list| == |b.list| && forall x :: x in a.list <==> x in b.list else a == b
  }

  /** The visiting orders of a listing make no difference: some session stays, or the same one comes last. */
  ghost predicate OrdersAgree(r: Router, c: Call) {
    c.ListSessions? && r.connected && r.sessions != map[] ==>
      c.order != [] && c.sorted != [] &&
      ((exists n :: n in r.sessions && n !in c.choices.drops) ||
       c.order[|c.order| - 1] == c.sorted[|c.sorted| - 1])
  }

  ghost predicate CallOk(m: Memory, c: Call) {
    c.id in m ==>
      && Playable(m[c.id], c, if c.ListSessions? then c.order else [])
      && Playable(m[c.id], c, if c.ListSessions? then c.sorted else [])
      && OrdersAgree(m[c.id], c)
  }

  lemma KeysDiffer(id: int, other: int)
    ensures KeyFor(id) == KeyFor(other) <==> id == other
  {
    FormatInjective(id, other);
    assert KeyFor(id)[|PREFIX|..] == FormatInt(id) && KeyFor(other)[|PREFIX|..] == FormatInt(other);
  }

  lemma OneRouterAgrees(r: Router, d: Router, c: Call)
    requires SameDevice(r, d) && OrdersAgree(r, c)
    requires Playable(r, c, if c.ListSessions? then c.order else [])
    requires Playable(r, c, if c.ListSessions? then c.sorted else [])
    ensures Playable(d, c, if c.ListSessions? then c.sorted else [])
    ensures var a := OnRouter(r, c, if c.ListSessions? then c.order else []);
            var b := OnRouter(d, c, if c.ListSessions? then c.sorted else []);
            SameDevice(a.0, b.0) && RepliesAgree(a.1, b.1) && a.0.id == r.id
  {
    hide Listed, Scaled, OrdersAgree, Enumerates, ChoicesFor;
    if c.ListSessions? && r.connected {
      ListingsAgree(r, d, c);
    }
  }

  /** What a listing reports does not depend on the order, even when what it keeps does. */
  lemma ReportsAgree(r: Router, d: Router, c: Call)
    requires SameDevice(r, d) && c.ListSessions? && r.connected
    requires Playable(r, c, c.order) && Playable(r, c, c.sorted)
    ensures var a := Listed(r, c.intervalSec, c.choices, c.order);
            var b := Listed(d, c.intervalSec, c.choices, c.sorted);
            |a.1| == |b.1| && (forall x :: x in a.1 <==> x in b.1) && a.0.id == r.id
  {
    EnumerationCounts(c.order, r.sessions.Keys);
    EnumerationCounts(c.sorted, r.sessions.Keys);
    VisitReports(r.sessions, c.order, Rate(r.hotspots), c.intervalSec, c.choices);
    VisitReports(r.sessions, c.sorted, Rate(r.hotspots), c.intervalSec, c.choices);
    if r.sessions != map[] {
      OrderMatters(r, c.intervalSec, c.choices, c.order, c.sorted);
    } else {
      assert |r.sessions.Keys| == 0;
    }
  }

  lemma ListingsAgree(r: Router, d: Router, c: Call)
    requires SameDevice(r, d) && c.ListSessions? && r.connected && OrdersAgree(r, c)
    requires Playable(r, c, c.order) && Playable(r, c, c.sorted)
    ensures var a := Listed(r, c.intervalSec, c.choices, c.order);
            var b := Listed(d, c.intervalSec, c.choices, c.sorted);
            && SameDevice(a.0, b.0) && |a.1| == |b.1| && (forall x :: x in a.1 <==> x in b.1) && a.0.id == r.id
  {
    ReportsAgree(r, d, c);
    hide Visit, IsRate;
    if r.sessions != map[] {
      OrderMatters(r, c.intervalSec, c.choices, c.order, c.sorted);
    } else {
      EnumerationCounts(c.order, r.sessions.Keys);
      EnumerationCounts(c.sorted, r.sessions.Keys);
      assert |r.sessions.Keys| == 0;
    }
  }

  lemma CallsAgree(m: Memory, docs: Documents, c: Call)
    requires Mirrors(m, docs) && CallOk(m, c)
    ensures KeyFor(c.id) in docs ==> Playable(docs[KeyFor(c.id)], c, if c.ListSessions? then c.sorted else [])
    ensures Mirrors(MemoryCall(m, c).0, RedisCall(docs, c).0)
    ensures RepliesAgree(MemoryCall(m, c).1, RedisCall(docs, c).1)
  {
    if c.id in m {
      OneRouterAgrees(m[c.id], docs[KeyFor(c.id)], c);
    }
    hide OnRouter, KeyFor, Playable, OrdersAgree;
    forall id
      ensures KeyFor(id) == KeyFor(c.id) <==> id == c.id
    {
      KeysDiffer(id, c.id);
    }
  }

  /** The memory after a run of calls, with every reply. */
  ghost predicate RunOk(m: Memory, calls: seq<Call>)
    decreases |calls|
  {
    calls != [] ==> CallOk(m, calls[0]) && RunOk(MemoryCall(m, calls[0]).0, calls[1..])
  }

  ghost function MemoryReplies(m: Memory, calls: seq<Call>): seq<Reply>
    requires RunOk(m, calls)
    decreases |calls|
  {
    if calls == [] then []
    else [MemoryCall(m, calls[0]).1] + MemoryReplies(MemoryCall(m, calls[0]).0, calls[1..])
  }

  ghost predicate RedisRunOk(docs: Documents, calls: seq<Call>)
    decreases |calls|
  {
    calls != [] ==>
      && (KeyFor(calls[0].id) in docs ==>
            Playable(docs[KeyFor(calls[0].id)], calls[0], if calls[0].ListSessions? then calls[0].sorted else []))
      && RedisRunOk(RedisCall(docs, calls[0]).0, calls[1..])
  }

  ghost function RedisReplies(docs: Documents, calls: seq<Call>): seq<Reply>
    requires RedisRunOk(docs, calls)
    decreases |calls|
  {
    if calls == [] then []
    else [RedisCall(docs, calls[0]).1] + RedisReplies(RedisCall(docs, calls[0]).0, calls[1..])
  }

  /**
   For every sequence of calls by a single caller, both simulators give the same
   answers, as long as the visiting order of no listing decides which session
   is the last one kept.
   */
  lemma {:induction false} SimulatorsAgree(m: Memory, docs: Documents, calls: seq<Call>)
    requires Mirrors(m, docs) && RunOk(m, calls)
    ensures RedisRunOk(docs, calls)
    ensures |MemoryReplies(m, calls)| == |RedisReplies(docs, calls)| == |calls|
    ensures forall i :: 0 <= i < |calls| ==> RepliesAgree(MemoryReplies(m, calls)[i], RedisReplies(docs, calls)[i])
    decreases |calls|
  {
    if calls != [] {
      CallsAgree(m, docs, calls[0]);
      SimulatorsAgree(MemoryCall(m, calls[0]).0, RedisCall(docs, calls[0]).0, calls[1..]);
    }
  }

  /**
   The proviso is exact: on mirrored routers, a listing leaves them mirrored if
   and only if some session stays or both orders end with the same session.
   */
  lemma AgreementIsExact(m: Memory, docs: Documents, c: Call)
    requires Mirrors(m, docs) && c.ListSessions? && c.id in m && m[c.id].connected
    requires Playable(m[c.id], c, c.order) && Playable(m[c.id], c, c.sorted)
    ensures Playable(docs[KeyFor(c.id)], c, c.sorted)
    ensures Mirrors(MemoryCall(m, c).0, RedisCall(docs, c).0) <==> OrdersAgree(m[c.id], c)
  {
    hide KeyFor, Visit, IsRate, Kept, ChoicesFor, Enumerates;
    var r, d := m[c.id], docs[KeyFor(c.id)];
    if r.sessions != map[] {
      OrderMatters(r, c.intervalSec, c.choices, c.order, c.sorted);
    }
    if OrdersAgree(r, c) {
      CallsAgree(m, docs, c);
    } else {
      assert Listed(d, c.intervalSec, c.choices, c.sorted).0.sessions ==
             Listed(r, c.intervalSec, c.choices, c.sorted).0.sessions;
      assert Listed(r, c.intervalSec, c.choices, c.order).0.sessions !=
             Listed(r, c.intervalSec, c.choices, c.sorted).0.sessions;
      assert !SameDevice(MemoryCall(m, c).0[c.id], RedisCall(docs, c).0[KeyFor(c.id)]);
    }
  }
}
