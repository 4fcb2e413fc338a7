/** The answers of two fresh simulators: equal up to a listing that drops every session, and what shows after one. */
module SimulatorAnswers {
  import opened Devices
  import opened Simulators

  ghost function MemoryAfter(m: Memory, calls: seq<Call>): Memory
    requires RunOk(m, calls)
    decreases |calls|
  {
    if calls == [] then m else MemoryAfter(MemoryCall(m, calls[0]).0, calls[1..])
  }

  ghost function RedisAfter(docs: Documents, calls: seq<Call>): Documents
    requires RedisRunOk(docs, calls)
    decreases |calls|
  {
    if calls == [] then docs else RedisAfter(RedisCall(docs, calls[0]).0, calls[1..])
  }

  ghost predicate Keyed(m: Memory) {
    forall id :: id in m ==> KeyedByName(m[id].sessions)
  }

  lemma CallKeepsKeyed(m: Memory, c: Call)
    requires Keyed(m) && (c.id in m ==> Playable(m[c.id], c, if c.ListSessions? then c.order else []))
    ensures Keyed(MemoryCall(m, c).0)
  {
    if c.ListSessions? && c.id in m && m[c.id].connected {
      VisitReports(m[c.id].sessions, c.order, Rate(m[c.id].hotspots), c.intervalSec, c.choices);
    }
    hide Visit, IsRate;
  }

  lemma {:induction false} RunsStayMirrored(m: Memory, docs: Documents, calls: seq<Call>)
    requires Mirrors(m, docs) && Keyed(m) && RunOk(m, calls) && RedisRunOk(docs, calls)
    ensures Mirrors(MemoryAfter(m, calls), RedisAfter(docs, calls)) && Keyed(MemoryAfter(m, calls))
    decreases |calls|
  {
    hide Mirrors, Keyed, MemoryCall, RedisCall;
    if calls != [] {
      CallsAgree(m, docs, calls[0]);
      CallKeepsKeyed(m, calls[0]);
      RunsStayMirrored(MemoryCall(m, calls[0]).0, RedisCall(docs, calls[0]).0, calls[1..]);
    }
  }

  /** Two fresh simulators give the same answers to the same calls, and mirror each other throughout. */
  lemma FreshSimulatorsAgree(calls: seq<Call>)
    requires RunOk(map[], calls)
    ensures RedisRunOk(map[], calls)
    ensures |MemoryReplies(map[], calls)| == |RedisReplies(map[], calls)| == |calls|
    ensures forall i :: 0 <= i < |calls| ==>
              RepliesAgree(MemoryReplies(map[], calls)[i], RedisReplies(map[], calls)[i])
    ensures Mirrors(MemoryAfter(map[], calls), RedisAfter(map[], calls)) && Keyed(MemoryAfter(map[], calls))
  {
    assert Mirrors(map[], map[]) && Keyed(map[]);
    SimulatorsAgree(map[], map[], calls);
    RunsStayMirrored(map[], map[], calls);
  }

  // ---- After a listing ----

  /** A listing that drops every session keeps the last one it visits. */
  lemma KeepsOnlyLast(r: Router, c: Call, order: seq<string>)
    requires c.ListSessions? && r.connected && KeyedByName(r.sessions) && order != []
    requires Enumerates(order, r.sessions.Keys) && ChoicesFor(c.choices, r.sessions.Keys)
    requires r.sessions.Keys <= c.choices.drops
    ensures var r', last := OnRouter(r, c, order).0, order[|order| - 1];
            r'.connected && r'.sessions.Keys == {last} && r'.sessions[last].username == last
  {
    KeptSessions(r.sessions, order, Rate(r.hotspots), c.intervalSec, c.choices);
    VisitReports(r.sessions, order, Rate(r.hotspots), c.intervalSec, c.choices);
    hide Visit, IsRate;
    assert order[|order| - 1] in OnRouter(r, c, order).0.sessions.Keys;
  }

  /** A listing of a router with one session reports that one alone. */
  lemma ReportsOnlyOne(r: Router, c: Call, order: seq<string>, name: string)
    requires c.ListSessions? && r.connected && r.sessions.Keys == {name} && r.sessions[name].username == name
    requires Playable(r, c, order)
    ensures var reply := OnRouter(r, c, order).1;
            reply.Sessions? && |reply.list| == 1 && reply.list[0].username == name
  {
    EnumerationCounts(order, r.sessions.Keys);
    VisitReports(r.sessions, order, Rate(r.hotspots), c.intervalSec, c.choices);
    hide Visit, IsRate;
    assert order[0] in r.sessions.Keys;
  }

  /**
   The next listing of a router tells the simulators apart if and only if the
   listing before dropped every session and its two orders ended differently.
   */
  lemma NextListingIff(r: Router, d: Router, c: Call, next: Call)
    requires SameDevice(r, d) && c.ListSessions? && r.connected && KeyedByName(r.sessions)
    requires Playable(r, c, c.order) && Playable(r, c, c.sorted)
    requires next.ListSessions? && Playable(OnRouter(r, c, c.order).0, next, next.order)
    requires Playable(OnRouter(d, c, c.sorted).0, next, next.sorted)
    ensures RepliesAgree(OnRouter(OnRouter(r, c, c.order).0, next, next.order).1,
                         OnRouter(OnRouter(d, c, c.sorted).0, next, next.sorted).1)
            <==> OrdersAgree(r, c)
  {
    hide Visit, IsRate, RepliesAgree, Enumerates, ChoicesFor;
    assert OnRouter(r, c, c.order).0.connected;
    hide Listed;
    if OrdersAgree(r, c) {
      ListingsAgree(r, d, c);
      ReportsAgree(OnRouter(r, c, c.order).0, OnRouter(d, c, c.sorted).0, next);
      SameReplies(OnRouter(OnRouter(r, c, c.order).0, next, next.order).1,
                  OnRouter(OnRouter(d, c, c.sorted).0, next, next.sorted).1);
    } else {
      EnumerationsNotEmpty(r.sessions, c.order);
      EnumerationsNotEmpty(r.sessions, c.sorted);
      KeepsOnlyLast(r, c, c.order);
      KeepsOnlyLast(d, c, c.sorted);
      hide OnRouter;
      ReportsOnlyOne(OnRouter(r, c, c.order).0, next, next.order, c.order[|c.order| - 1]);
      ReportsOnlyOne(OnRouter(d, c, c.sorted).0, next, next.sorted, c.sorted[|c.sorted| - 1]);
      DifferentReplies(OnRouter(OnRouter(r, c, c.order).0, next, next.order).1,
                       OnRouter(OnRouter(d, c, c.sorted).0, next, next.sorted).1);
    }
  }

  lemma EnumerationsNotEmpty(sessions: map<string, SimSession>, order: seq<string>)
    requires Enumerates(order, sessions.Keys) && sessions != map[]
    ensures order != []
  {
    EnumerationCounts(order, sessions.Keys);
    assert |sessions.Keys| == |sessions|;
  }

  lemma SameReplies(a: Reply, b: Reply)
    requires a.Sessions? && b.Sessions? && |a.list| == |b.list| && forall x :: x in a.list <==> x in b.list
    ensures RepliesAgree(a, b)
  {
  }

  lemma DifferentReplies(a: Reply, b: Reply)
    requires a.Sessions? && b.Sessions? && |a.list| == |b.list| == 1 && a.list[0].username != b.list[0].username
    ensures !RepliesAgree(a, b)
  {
    assert a.list[0] in a.list;
  }

  /** A listing of a connected router in both stores, and another one right after it. */
  ghost predicate ListedTwice(m: Memory, docs: Documents, c: Call, next: Call) {
    && c.ListSessions? && next.ListSessions? && next.id == c.id && c.id in m && m[c.id].connected
    && Playable(m[c.id], c, c.order) && Playable(m[c.id], c, c.sorted)
    && KeyFor(c.id) in docs && Playable(docs[KeyFor(c.id)], c, c.sorted)
    && Playable(MemoryCall(m, c).0[c.id], next, next.order)
    && KeyFor(c.id) in RedisCall(docs, c).0 && Playable(RedisCall(docs, c).0[KeyFor(c.id)], next, next.sorted)
  }

  lemma StoreListing(m: Memory, docs: Documents, c: Call)
    requires c.ListSessions? && c.id in m && KeyFor(c.id) in docs && docs[KeyFor(c.id)].id == c.id
    requires Playable(m[c.id], c, c.order) && Playable(docs[KeyFor(c.id)], c, c.sorted)
    ensures MemoryCall(m, c) == (m[c.id := OnRouter(m[c.id], c, c.order).0], OnRouter(m[c.id], c, c.order).1)
    ensures var o := OnRouter(docs[KeyFor(c.id)], c, c.sorted);
            RedisCall(docs, c) == (docs[KeyFor(c.id) := o.0], o.1) && o.0.id == c.id
  {
    hide Visit, IsRate, KeyFor;
  }

  /** The answers to a listing agree, and those to the next one of the same router exactly under the proviso. */
  lemma AnswersIff(m: Memory, docs: Documents, c: Call, next: Call)
    requires Mirrors(m, docs) && Keyed(m) && ListedTwice(m, docs, c, next)
    ensures RepliesAgree(MemoryCall(m, c).1, RedisCall(docs, c).1)
    ensures RepliesAgree(MemoryCall(MemoryCall(m, c).0, next).1, RedisCall(RedisCall(docs, c).0, next).1)
            <==> OrdersAgree(m[c.id], c)
  {
    var r, d := m[c.id], docs[KeyFor(c.id)];
    assert SameDevice(r, d) && d.id == c.id && KeyedByName(r.sessions);
    StoreListing(m, docs, c);
    hide Mirrors, Keyed, KeyFor;
    ReportsAgree(r, d, c);
    StoreListing(MemoryCall(m, c).0, RedisCall(docs, c).0, next);
    hide MemoryCall, RedisCall, Visit, IsRate, Playable;
    assert RepliesAgree(OnRouter(r, c, c.order).1, OnRouter(d, c, c.sorted).1);
    hide OnRouter, RepliesAgree, OrdersAgree;
    NextListingIff(r, d, c, next);
  }

  /** So it is after any run of two fresh simulators. */
  lemma FreshAnswersIff(calls: seq<Call>, c: Call, next: Call)
    requires RunOk(map[], calls) && RedisRunOk(map[], calls)
    requires ListedTwice(MemoryAfter(map[], calls), RedisAfter(map[], calls), c, next)
    ensures var m, docs := MemoryAfter(map[], calls), RedisAfter(map[], calls);
            && RepliesAgree(MemoryCall(m, c).1, RedisCall(docs, c).1)
            && (RepliesAgree(MemoryCall(MemoryCall(m, c).0, next).1, RedisCall(RedisCall(docs, c).0, next).1)
                <==> OrdersAgree(m[c.id], c))
  {
    FreshSimulatorsAgree(calls);
    hide MemoryAfter, RedisAfter, RunOk, RedisRunOk, MemoryReplies, RedisReplies, Mirrors, Keyed;
    hide MemoryCall, RedisCall, OrdersAgree, RepliesAgree, Playable, KeyFor;
    AnswersIff(MemoryAfter(map[], calls), RedisAfter(map[], calls), c, next);
  }

  // ---- That it happens ----

  const A := SimSession("a", "", "", 0, 0)
  const B := SimSession("b", "", "", 0, 0)

  /** Two sessions, both of which the next listing drops. */
  const SETUP: seq<Call> := [RegisterRouter(1, "r", 0), SeedSession(1, A), SeedSession(1, B)]

  function Drop(order: seq<string>, sorted: seq<string>): Call {
    ListSessions(1, 0.0, Choices(map["a" := 1.0, "b" := 1.0], {"a", "b"}), order, sorted)
  }

  lemma SetupRuns()
    ensures RunOk(map[], SETUP)
    ensures 1 in MemoryAfter(map[], SETUP) && MemoryAfter(map[], SETUP)[1].connected
    ensures MemoryAfter(map[], SETUP)[1].sessions == map["a" := A, "b" := B]
  {
    var r0 := Router(1, "r", true, 0, map[], map[]);
    var r1 := r0.(sessions := map["a" := A]);
    var r2 := r0.(sessions := map["a" := A, "b" := B]);
    assert MemoryCall(map[], SETUP[0]).0 == map[1 := r0];
    assert MemoryCall(map[1 := r0], SETUP[1]).0 == map[1 := r1];
    assert MemoryCall(map[1 := r1], SETUP[2]).0 == map[1 := r2];
    var tail := SETUP[1..];
    assert tail == [SETUP[1], SETUP[2]] && tail[1..] == [SETUP[2]] && tail[1..][1..] == [];
    hide MemoryCall;
    assert RunOk(map[1 := r2], []) && MemoryAfter(map[1 := r2], []) == map[1 := r2];
    assert RunOk(map[1 := r1], [SETUP[2]]) && MemoryAfter(map[1 := r1], [SETUP[2]]) == map[1 := r2];
    assert RunOk(map[1 := r0], tail) && MemoryAfter(map[1 := r0], tail) == map[1 := r2];
  }

  /** Two fresh simulators, the same calls, and different sessions in the end. */
  lemma AnswersDiffer()
    ensures RunOk(map[], SETUP) && RedisRunOk(map[], SETUP)
    ensures var m, docs := MemoryAfter(map[], SETUP), RedisAfter(map[], SETUP);
            var c, next := Drop(["b", "a"], ["a", "b"]), Drop(["a"], ["b"]);
            && ListedTwice(m, docs, c, next)
            && !RepliesAgree(MemoryCall(MemoryCall(m, c).0, next).1, RedisCall(RedisCall(docs, c).0, next).1)
  {
    SetupRuns();
    FreshSimulatorsAgree(SETUP);
    hide MemoryAfter, RedisAfter, RunOk, RedisRunOk, MemoryReplies, RedisReplies, Keyed;
    var m, docs := MemoryAfter(map[], SETUP), RedisAfter(map[], SETUP);
    assert SameDevice(m[1], docs[KeyFor(1)]) && docs[KeyFor(1)].id == 1 && KeyFor(1) in docs;
    hide Mirrors, KeyFor;
    DropsListed(m, docs);
    hide ListedTwice, MemoryCall, RedisCall, RepliesAgree;
    FreshAnswersIff(SETUP, Drop(["b", "a"], ["a", "b"]), Drop(["a"], ["b"]));
  }

  lemma DropsListed(m: Memory, docs: Documents)
    requires 1 in m && m[1].connected && m[1].sessions == map["a" := A, "b" := B]
    requires KeyFor(1) in docs && SameDevice(m[1], docs[KeyFor(1)]) && docs[KeyFor(1)].id == 1
    ensures ListedTwice(m, docs, Drop(["b", "a"], ["a", "b"]), Drop(["a"], ["b"]))
    ensures !OrdersAgree(m[1], Drop(["b", "a"], ["a", "b"]))
  {
    var c, next := Drop(["b", "a"], ["a", "b"]), Drop(["a"], ["b"]);
    assert m[1].sessions.Keys == {"a", "b"};
    DropKeepsLast(m[1], c, c.order);
    DropKeepsLast(m[1], c, c.sorted);
    DropKeepsLast(docs[KeyFor(1)], c, c.sorted);
    StoreListing(m, docs, c);
    hide MemoryCall, RedisCall, OnRouter, KeyFor;
    SinglePlayable(MemoryCall(m, c).0[1], next, "a");
    SinglePlayable(RedisCall(docs, c).0[KeyFor(1)], next, "b");
  }

  lemma SinglePlayable(r: Router, c: Call, name: string)
    requires r.sessions.Keys == {name} && c.ListSessions? && ChoicesFor(c.choices, {name})
    ensures Playable(r, c, [name])
  {
  }

  lemma DropKeepsLast(r: Router, c: Call, order: seq<string>)
    requires r.connected && r.sessions.Keys == {"a", "b"} && order in {["b", "a"], ["a", "b"]}
    requires c == Drop(["b", "a"], ["a", "b"])
    ensures Playable(r, c, order)
    ensures OnRouter(r, c, order).0.sessions.Keys == {order[1]}
  {
    DropOk(r.sessions.Keys, order);
    hide Visit, IsRate, Enumerates, ChoicesFor;
    KeptSessions(r.sessions, order, Rate(r.hotspots), c.intervalSec, c.choices);
  }

  lemma DropOk(names: set<string>, order: seq<string>)
    requires names == {"a", "b"} && order in {["b", "a"], ["a", "b"]}
    ensures Enumerates(order, names) && ChoicesFor(Drop(["b", "a"], ["a", "b"]).choices, names)
  {
  }
}
