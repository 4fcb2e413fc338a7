/** What a simulator's answers say about the calls before: which routers are known and online, which sessions run. */
module SimulatorHistory {
  import opened Devices
  import opened Simulators

  // ---- Known and online routers ----

  /** The call registers or removes the router. */
  predicate Changes(c: Call, id: int) {
    (c.RegisterRouter? || c.UnregisterRouter?) && c.id == id
  }

  /** The call registers or removes the router or takes it offline. */
  predicate Switches(c: Call, id: int) {
    (c.RegisterRouter? || c.UnregisterRouter? || c.Reset?) && c.id == id
  }

  /** Position of the last call that registers or removes the router, -1 without one. */
  function LastChange(calls: seq<Call>, id: int): (i: int)
    ensures -1 <= i < |calls| && (i >= 0 ==> Changes(calls[i], id))
    ensures forall j :: i < j < |calls| ==> !Changes(calls[j], id)
  {
    if calls == [] then -1
    else if Changes(calls[|calls| - 1], id) then |calls| - 1
    else LastChange(calls[..|calls| - 1], id)
  }

  /** Position of the last call that registers, removes or resets the router, -1 without one. */
  function LastSwitch(calls: seq<Call>, id: int): (i: int)
    ensures -1 <= i < |calls| && (i >= 0 ==> Switches(calls[i], id))
    ensures forall j :: i < j < |calls| ==> !Switches(calls[j], id)
  {
    if calls == [] then -1
    else if Switches(calls[|calls| - 1], id) then |calls| - 1
    else LastSwitch(calls[..|calls| - 1], id)
  }

  /** The last call to change whether the router exists was a registration. */
  predicate Known(calls: seq<Call>, id: int) {
    LastChange(calls, id) >= 0 && calls[LastChange(calls, id)].RegisterRouter?
  }

  /** The last call to switch it on or off was a registration. */
  predicate Online(calls: seq<Call>, id: int) {
    LastSwitch(calls, id) >= 0 && calls[LastSwitch(calls, id)].RegisterRouter?
  }

  /** A listing comes with an enumeration of the sessions and a choice for each. */
  ghost predicate CanCall(m: Memory, c: Call) {
    c.id in m ==> Playable(m[c.id], c, if c.ListSessions? then c.order else [])
  }

  ghost predicate CanRun(m: Memory, calls: seq<Call>)
    decreases |calls|, 0
  {
    calls == [] || (CanRun(m, calls[..|calls| - 1]) && CanCall(After(m, calls[..|calls| - 1]), calls[|calls| - 1]))
  }

  /** The routers after a run of calls. */
  ghost function After(m: Memory, calls: seq<Call>): Memory
    requires CanRun(m, calls)
    decreases |calls|, 1
  {
    if calls == [] then m else MemoryCall(After(m, calls[..|calls| - 1]), calls[|calls| - 1]).0
  }

  lemma CallSwitches(m: Memory, c: Call, id: int)
    requires CanCall(m, c)
    ensures var m' := MemoryCall(m, c).0;
            && (id in m' <==> if Changes(c, id) then c.RegisterRouter? else id in m)
            && (id in m' && m'[id].connected <==>
                  if Switches(c, id) then c.RegisterRouter? else id in m && m[id].connected)
  {
    hide Visit, Scaled, IsRate;
  }

  /** After every run from scratch, a router is known and online as its last registration, removal or reset says. */
  lemma {:induction false} RoutersFollowCalls(calls: seq<Call>, id: int)
    requires CanRun(map[], calls)
    ensures id in After(map[], calls) <==> Known(calls, id)
    ensures id in After(map[], calls) && After(map[], calls)[id].connected <==> Online(calls, id)
  {
    hide MemoryCall, CanCall;
    if calls != [] {
      var init := calls[..|calls| - 1];
      RoutersFollowCalls(init, id);
      CallSwitches(After(map[], init), calls[|calls| - 1], id);
    }
  }

  /** A probe answers whether the router is online, as of now, and refuses only a router that is not known. */
  lemma ProbeAnswers(calls: seq<Call>, id: int, now: int)
    requires CanRun(map[], calls)
    ensures MemoryCall(After(map[], calls), Probe(id, now)).1 ==
            if Known(calls, id) then Probed(Online(calls, id), now) else Failed(UnknownRouter)
    ensures Known(calls, id) ==> MemoryCall(After(map[], calls), Probe(id, now)).0[id].lastSeen == now
  {
    RoutersFollowCalls(calls, id);
    hide CanRun, Known, Online, After;
  }

  /** Registering again, resetting and probing keep the sessions and hotspots of a router; a new one has none. */
  lemma SwitchesKeepSessions(m: Memory, c: Call)
    requires c.RegisterRouter? || c.Reset? || c.Probe?
    ensures var m' := MemoryCall(m, c).0;
            && (c.id in m ==> c.id in m' && m' == m[c.id := m[c.id].(connected := m'[c.id].connected,
                                                                     lastSeen := m'[c.id].lastSeen)])
            && (c.id !in m && c.RegisterRouter? ==>
                  m' == m[c.id := Router(c.id, c.name, true, c.now, map[], map[])])
            && (c.id !in m && !c.RegisterRouter? ==> m' == m)
            && (c.RegisterRouter? || (c.Probe? && c.id in m) ==> c.id in m' && m'[c.id].lastSeen == c.now)
  {
  }

  // ---- Sessions ----

  /** Unknown and offline routers refuse, each with its error, and change nothing. */
  lemma OthersRefuse(m: Memory, c: Call)
    requires c.DisconnectSession? || c.ListSessions?
    requires !(c.id in m && m[c.id].connected)
    ensures MemoryCall(m, c) == (m, Failed(if c.id in m then RouterOffline else UnknownRouter))
  {
    if c.id in m {
      assert m[c.id := m[c.id]] == m;
    }
  }

  /** A seeded session replaces one of its name, exactly when its router is online; nothing else changes. */
  lemma SeedAnswers(m: Memory, id: int, s: SimSession)
    ensures var (m', reply) := MemoryCall(m, SeedSession(id, s));
            && reply == Nothing
            && (if id in m && m[id].connected
                then m' == m[id := m[id].(sessions := m[id].sessions[s.username := s])]
                else m' == m)
  {
    if id in m {
      assert m[id := m[id]] == m;
    }
  }

  /** A disconnected session is gone and every other one is as it was. */
  lemma DisconnectAnswers(m: Memory, id: int, username: string)
    requires id in m && m[id].connected
    ensures var (m', reply) := MemoryCall(m, DisconnectSession(id, username));
            && reply == Accepted && id in m' && m' == m[id := m[id].(sessions := m'[id].sessions)]
            && username !in m'[id].sessions
            && forall n :: n != username ==>
                 (n in m'[id].sessions <==> n in m[id].sessions) &&
                 (n in m[id].sessions ==> m'[id].sessions[n] == m[id].sessions[n])
  {
  }

  predicate Reports(list: seq<SimSession>, username: string) {
    exists i :: 0 <= i < |list| && list[i].username == username
  }

  /** The next listing reports a session just seeded, with its addresses and counters that did not fall. */
  lemma SeededIsListed(m: Memory, c: Call, s: SimSession)
    requires c.ListSessions? && c.id in m && m[c.id].connected && c.intervalSec >= 0.0
    requires CanCall(MemoryCall(m, SeedSession(c.id, s)).0, c)
    ensures var reply := MemoryCall(MemoryCall(m, SeedSession(c.id, s)).0, c).1;
            reply.Sessions? && exists i :: 0 <= i < |reply.list| && Counted(s, reply.list[i])
  {
    var r := MemoryCall(m, SeedSession(c.id, s)).0[c.id];
    assert Playable(r, c, c.order) && s.username in r.sessions && r.sessions[s.username] == s;
    hide MemoryCall, Counted, Visit, Kept;
    ListingKeepsCounters(r, c.intervalSec, c.choices, c.order);
    var i := Position(c.order, s.username);
    assert Counted(r.sessions[c.order[i]], Listed(r, c.intervalSec, c.choices, c.order).1[i]);
    ListingAnswers(MemoryCall(m, SeedSession(c.id, s)).0, c);
  }

  /** The next listing reports the sessions of the router and nothing else, so none that was disconnected. */
  lemma DisconnectedIsNotListed(m: Memory, c: Call, username: string)
    requires c.ListSessions? && c.id in m && m[c.id].connected && KeyedByName(m[c.id].sessions)
    requires CanCall(MemoryCall(m, DisconnectSession(c.id, username)).0, c)
    ensures var reply := MemoryCall(MemoryCall(m, DisconnectSession(c.id, username)).0, c).1;
            && reply.Sessions? && !Reports(reply.list, username)
            && forall n :: n != username && n in m[c.id].sessions ==> Reports(reply.list, n)
  {
    DisconnectAnswers(m, c.id, username);
    var m1 := MemoryCall(m, DisconnectSession(c.id, username)).0;
    hide MemoryCall;
    var r := m1[c.id];
    assert r.connected && Playable(r, c, c.order);
    ListingAnswers(m1, c);
    hide CanCall;
    ListingReports(r, c);
  }

  lemma ListingAnswers(m: Memory, c: Call)
    requires c.ListSessions? && c.id in m && m[c.id].connected && CanCall(m, c)
    ensures MemoryCall(m, c).1 == Sessions(Listed(m[c.id], c.intervalSec, c.choices, c.order).1)
  {
    hide Listed;
  }

  lemma ListingReports(r: Router, c: Call)
    requires c.ListSessions? && r.connected && Playable(r, c, c.order) && KeyedByName(r.sessions)
    ensures forall n :: Reports(Listed(r, c.intervalSec, c.choices, c.order).1, n) <==> n in r.sessions
  {
    hide Visit, IsRate, Advanced;
    var list := Listed(r, c.intervalSec, c.choices, c.order).1;
    VisitReports(r.sessions, c.order, Rate(r.hotspots), c.intervalSec, c.choices);
    forall i | 0 <= i < |list|
      ensures c.order[i] in r.sessions && list[i].username == c.order[i]
    {
      assert c.order[i] in r.sessions.Keys;
      AdvancedName(r.sessions[c.order[i]], Rate(r.hotspots), c.intervalSec, c.choices.jitter[c.order[i]]);
    }
    forall n | n in r.sessions
      ensures Reports(list, n)
    {
      var i := Position(c.order, n);
      assert list[i].username == n;
    }
  }

  lemma AdvancedName(s: SimSession, rate: int, intervalSec: real, jitter: real)
    ensures Advanced(s, rate, intervalSec, jitter).username == s.username
  {
  }
}
