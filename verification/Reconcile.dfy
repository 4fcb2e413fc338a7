/**
 One reconciliation of a router with the session table: seed the emulated
 router, list its sessions, snapshot those listed and close the others.
 */
module Reconcile {
  import opened Wrappers
  import opened UsageTables
  import opened Devices
  import opened Simulators

  /** A session row as the worker has read it. */
  datatype Entry = Entry(id: int, router: int, session: Session, mac: string, ip: string)

  /** The random choices, the visiting order and the clock readings of one pass. */
  datatype Pass = Pass(intervalSec: real, choices: Choices, order: seq<string>, now: int, dbNow: int)

  function SeedOf(e: Entry): SimSession {
    SimSession(e.session.username, e.mac, e.ip, e.session.bytes.rx, e.session.bytes.tx)
  }

  /** SeedSessions */
  ghost function Seeded(m: Memory, router: int, rows: seq<Entry>): Memory {
    if rows == [] then m
    else MemoryCall(Seeded(m, router, rows[..|rows| - 1]), SeedSession(router, SeedOf(rows[|rows| - 1]))).0
  }

  /** The last listed session with each username. */
  function ByUser(list: seq<SimSession>): map<string, SimSession> {
    if list == [] then map[] else ByUser(list[..|list| - 1])[list[|list| - 1].username := list[|list| - 1]]
  }

  predicate CountersOk(s: SimSession) {
    s.bytesRX >= 0 && s.bytesTX >= 0
  }

  function OrSame(t: Tables, r: Result<Tables, UsageTables.Error>): Tables {
    if r.Ok? then r.value else t
  }

  /** One turn of the loop over the rows: errors are logged and otherwise ignored. */
  function Record(t: Tables, e: Entry, byUser: map<string, SimSession>, now: int, dbNow: int): Tables
    requires forall u :: u in byUser ==> CountersOk(byUser[u])
  {
    var u := e.session.username;
    if u in byUser
    then
      assert CountersOk(byUser[u]);
      OrSame(t, Snapshot(t, e.id, now, dbNow, Counters(byUser[u].bytesRX, byUser[u].bytesTX)))
    else OrSame(t, Close(t, e.id, now, e.session.bytes))
  }

  function Recorded(t: Tables, rows: seq<Entry>, byUser: map<string, SimSession>, now: int, dbNow: int): Tables
    requires forall u :: u in byUser ==> CountersOk(byUser[u])
  {
    if rows == [] then t
    else Record(Recorded(t, rows[..|rows| - 1], byUser, now, dbNow), rows[|rows| - 1], byUser, now, dbNow)
  }

  // ---- Routers ----

  /** Sessions are kept under their usernames, with counters that are not negative. */
  ghost predicate RouterOk(r: Router) {
    KeyedByName(r.sessions) && forall n :: n in r.sessions ==> CountersOk(r.sessions[n])
  }

  ghost predicate MemoryOk(m: Memory) {
    forall r :: r in m ==> m[r].id == r && RouterOk(m[r])
  }

  predicate Answering(m: Memory, router: int) {
    router in m && m[router].connected
  }

  /** Seeding an answering router changes its sessions only; any other router not at all. */
  lemma {:induction false} SeededKeeps(m: Memory, router: int, rows: seq<Entry>)
    requires MemoryOk(m)
    ensures MemoryOk(Seeded(m, router, rows))
    ensures Answering(Seeded(m, router, rows), router) <==> Answering(m, router)
    ensures !Answering(m, router) ==> Seeded(m, router, rows) == m
  {
    if rows != [] {
      SeededKeeps(m, router, rows[..|rows| - 1]);
      SeedKeeps(Seeded(m, router, rows[..|rows| - 1]), router, rows[|rows| - 1]);
    }
  }

  lemma SeedKeeps(m: Memory, router: int, e: Entry)
    requires MemoryOk(m)
    ensures var m' := MemoryCall(m, SeedSession(router, SeedOf(e))).0;
            && MemoryOk(m') && (Answering(m', router) <==> Answering(m, router))
            && (if Answering(m, router)
                then router in m' && m'[router].sessions == m[router].sessions[e.session.username := SeedOf(e)]
                else m' == m)
  {
    if router in m && !m[router].connected {
      assert m[router := m[router]] == m;
    }
  }

  ghost predicate UsernamesDistinct(rows: seq<Entry>) {
    forall i, j :: 0 <= i < j < |rows| ==> rows[i].session.username != rows[j].session.username
  }

  lemma {:induction false} SeededHas(m: Memory, router: int, rows: seq<Entry>)
    requires MemoryOk(m) && Answering(m, router) && UsernamesDistinct(rows)
    ensures var m' := Seeded(m, router, rows);
            && router in m'
            && forall i :: 0 <= i < |rows| ==>
                 var u := rows[i].session.username;
                 u in m'[router].sessions && m'[router].sessions[u] == SeedOf(rows[i])
  {
    if rows != [] {
      var init := rows[..|rows| - 1];
      assert forall i :: 0 <= i < |init| ==> init[i] == rows[i];
      SeededHas(m, router, init);
      SeededKeeps(m, router, init);
      SeedKeeps(Seeded(m, router, init), router, rows[|rows| - 1]);
      hide SeedOf, MemoryCall;
    }
  }

  lemma {:induction false} ByUserIsLast(list: seq<SimSession>)
    ensures forall u :: u in ByUser(list) ==> ByUser(list)[u].username == u && ByUser(list)[u] in list
    ensures forall i :: 0 <= i < |list| ==> list[i].username in ByUser(list)
  {
    if list != [] {
      ByUserIsLast(list[..|list| - 1]);
      assert list == list[..|list| - 1] + [list[|list| - 1]];
    }
  }

  // ---- The pass ----

  ghost predicate PassOk(m: Memory, router: int, rows: seq<Entry>, p: Pass) {
    && MemoryOk(m) && p.intervalSec >= 0.0
    && (Answering(m, router) ==>
          var seeded := Seeded(m, router, rows);
          router in seeded && Enumerates(p.order, seeded[router].sessions.Keys) &&
          ChoicesFor(p.choices, seeded[router].sessions.Keys))
  }

  /** The listing of a router: every session on it, once, with counters that did not fall. */
  lemma ListedByUser(r: Router, intervalSec: real, choices: Choices, order: seq<string>)
    requires Enumerates(order, r.sessions.Keys) && ChoicesFor(choices, r.sessions.Keys)
    requires intervalSec >= 0.0 && RouterOk(r)
    ensures var byUser := ByUser(Listed(r, intervalSec, choices, order).1);
            && byUser.Keys == r.sessions.Keys
            && forall u :: u in byUser ==> Counted(r.sessions[u], byUser[u]) && CountersOk(byUser[u])
  {
    hide Listed, ByUser, ChoicesFor, Counted, Enumerates, Kept;
    ListingKeepsCounters(r, intervalSec, choices, order);
    ListByUser(r.sessions, order, Listed(r, intervalSec, choices, order).1);
  }

  lemma ListByUser(sessions: map<string, SimSession>, order: seq<string>, list: seq<SimSession>)
    requires Enumerates(order, sessions.Keys) && |list| == |order| && KeyedByName(sessions)
    requires forall n :: n in sessions ==> CountersOk(sessions[n])
    requires forall i :: 0 <= i < |order| ==> order[i] in sessions && Counted(sessions[order[i]], list[i])
    ensures ByUser(list).Keys == sessions.Keys
    ensures forall u :: u in ByUser(list) ==> Counted(sessions[u], ByUser(list)[u]) && CountersOk(ByUser(list)[u])
  {
    ByUserIsLast(list);
    hide ByUser;
    forall u | u in ByUser(list)
      ensures u in sessions && Counted(sessions[u], ByUser(list)[u]) && CountersOk(ByUser(list)[u])
    {
      var i :| 0 <= i < |list| && list[i] == ByUser(list)[u];
      assert Counted(sessions[order[i]], list[i]);
    }
    forall u | u in sessions.Keys
      ensures u in ByUser(list)
    {
      var i :| 0 <= i < |order| && order[i] == u;
      assert Counted(sessions[order[i]], list[i]) && list[i].username == u;
    }
  }

  lemma ListingKeepsRouter(r: Router, intervalSec: real, choices: Choices, order: seq<string>)
    requires Enumerates(order, r.sessions.Keys) && ChoicesFor(choices, r.sessions.Keys)
    requires intervalSec >= 0.0 && RouterOk(r)
    ensures var r' := Listed(r, intervalSec, choices, order).0;
            RouterOk(r') && r' == r.(sessions := r'.sessions)
  {
    var r' := Listed(r, intervalSec, choices, order).0;
    assert r' == r.(sessions := r'.sessions);
    ListingKeepsCounters(r, intervalSec, choices, order);
    hide Listed, ChoicesFor;
    forall n | n in r'.sessions
      ensures r'.sessions[n].username == n && CountersOk(r'.sessions[n])
    {
      assert Counted(r.sessions[n], r'.sessions[n]);
    }
  }

  /** reconcileRouter */
  ghost function Reconciled(t: Tables, m: Memory, router: int, rows: seq<Entry>, p: Pass): (r: (Tables, Memory))
    requires PassOk(m, router, rows, p)
  {
    var seeded := Seeded(m, router, rows);
    if !Answering(m, router) then (t, seeded)
    else
      SeededKeeps(m, router, rows);
      ListedByUser(seeded[router], p.intervalSec, p.choices, p.order);
      var l := Listed(seeded[router], p.intervalSec, p.choices, p.order);
      (Recorded(t, rows, ByUser(l.1), p.now, p.dbNow), seeded[router := l.0])
  }

  lemma ReconcileKeepsMemory(t: Tables, m: Memory, router: int, rows: seq<Entry>, p: Pass)
    requires PassOk(m, router, rows, p)
    ensures MemoryOk(Reconciled(t, m, router, rows, p).1)
    ensures !Answering(m, router) ==> Reconciled(t, m, router, rows, p) == (t, m)
  {
    SeededKeeps(m, router, rows);
    if Answering(m, router) {
      ListingKeepsRouter(Seeded(m, router, rows)[router], p.intervalSec, p.choices, p.order);
    }
    hide Listed, Seeded, Recorded, RouterOk;
  }

  /** The rows are the table's own, so nobody has written them since they were read. */
  ghost predicate Current(t: Tables, rows: seq<Entry>) {
    && (forall i :: 0 <= i < |rows| ==>
          rows[i].id in t.sessions && t.sessions[rows[i].id] == rows[i].session && rows[i].session.active)
    && (forall i, j :: 0 <= i < j < |rows| ==> rows[i].id != rows[j].id)
  }

  /** A session got a snapshot with counters no lower than before, and its usage grew by the difference. */
  ghost predicate Snapped(t: Tables, t': Tables, id: int, now: int) {
    && id in t.sessions && id in t'.sessions
    && t'.sessions[id] == t.sessions[id].(bytes := t'.sessions[id].bytes, lastSeenAt := now)
    && forall d :: t'.sessions[id].bytes.Of(d) >= t.sessions[id].bytes.Of(d) &&
                   Total(t'.usage, id, d) ==
                   Total(t.usage, id, d) + t'.sessions[id].bytes.Of(d) - t.sessions[id].bytes.Of(d)
  }

  ghost predicate Untouched(t: Tables, t': Tables, id: int) {
    && (id in t.sessions <==> id in t'.sessions)
    && (id in t.sessions ==> t'.sessions[id] == t.sessions[id])
    && forall d :: Total(t'.usage, id, d) == Total(t.usage, id, d)
  }

  /** The rows' sessions and nothing else got their snapshots. */
  ghost predicate AllSnapped(t: Tables, t': Tables, rows: seq<Entry>, now: int) {
    && (forall i :: 0 <= i < |rows| ==> Snapped(t, t', rows[i].id, now))
    && (forall id :: (forall i :: 0 <= i < |rows| ==> rows[i].id != id) ==> Untouched(t, t', id))
  }

  lemma RecordSnaps(t: Tables, e: Entry, byUser: map<string, SimSession>, now: int, dbNow: int, id: int)
    requires forall u :: u in byUser ==> CountersOk(byUser[u])
    requires e.session.username in byUser && Counted(SeedOf(e), byUser[e.session.username])
    requires e.id in t.sessions && t.sessions[e.id] == e.session && e.session.active
    ensures var t' := Record(t, e, byUser, now, dbNow);
            if id == e.id then Snapped(t, t', id, now) else Untouched(t, t', id)
  {
    var lv := byUser[e.session.username];
    assert CountersOk(lv);
    var row := SnapshotRow(e.id, e.session, now, Counters(lv.bytesRX, lv.bytesTX));
    forall d
      ensures Total(UpsertSnapshot(t.usage, row, dbNow), id, d) ==
              Total(t.usage, id, d) + (if row.session == id then row.bytes.Of(d) else 0)
    {
      UpsertAdds(t.usage, row, dbNow, id, d);
    }
    hide UpsertSnapshot, Total;
  }

  lemma {:induction false} RecordedSnaps(t: Tables, rows: seq<Entry>, byUser: map<string, SimSession>, now: int,
                                         dbNow: int)
    requires forall u :: u in byUser ==> CountersOk(byUser[u])
    requires forall i :: 0 <= i < |rows| ==> rows[i].session.username in byUser
    requires forall i :: 0 <= i < |rows| ==> Counted(SeedOf(rows[i]), byUser[rows[i].session.username])
    requires Current(t, rows)
    ensures AllSnapped(t, Recorded(t, rows, byUser, now, dbNow), rows, now)
  {
    hide Snapped, Untouched, Record;
    if rows == [] {
      forall id
        ensures Untouched(t, t, id)
      {
        UntouchedSelf(t, id);
      }
    } else {
      var init, e := rows[..|rows| - 1], rows[|rows| - 1];
      assert forall i :: 0 <= i < |init| ==> init[i] == rows[i];
      RecordedSnaps(t, init, byUser, now, dbNow);
      var mid := Recorded(t, init, byUser, now, dbNow);
      var t' := Record(mid, e, byUser, now, dbNow);
      assert Untouched(t, mid, e.id);
      forall id
        ensures id == e.id ==> Snapped(t, t', id, now)
        ensures id != e.id && Snapped(t, mid, id, now) ==> Snapped(t, t', id, now)
        ensures id != e.id && Untouched(t, mid, id) ==> Untouched(t, t', id)
      {
        StepSnaps(t, mid, e, byUser, now, dbNow, id);
      }
    }
  }

  lemma UntouchedSelf(t: Tables, id: int)
    ensures Untouched(t, t, id)
  {
  }

  lemma StepSnaps(t: Tables, mid: Tables, e: Entry, byUser: map<string, SimSession>, now: int, dbNow: int, id: int)
    requires forall u :: u in byUser ==> CountersOk(byUser[u])
    requires e.session.username in byUser && Counted(SeedOf(e), byUser[e.session.username])
    requires e.id in t.sessions && t.sessions[e.id] == e.session && e.session.active && Untouched(t, mid, e.id)
    ensures var t' := Record(mid, e, byUser, now, dbNow);
            && (id == e.id ==> Snapped(t, t', id, now))
            && (id != e.id && Snapped(t, mid, id, now) ==> Snapped(t, t', id, now))
            && (id != e.id && Untouched(t, mid, id) ==> Untouched(t, t', id))
  {
    RecordSnaps(mid, e, byUser, now, dbNow, id);
    hide Record;
  }

  /**
   With distinct usernames and no other writer, a pass over an answering router
   snapshots every session it was given, with counters no lower than the stored
   ones, closes none and leaves every other session alone.
   */
  lemma ConnectedPassSnaps(t: Tables, m: Memory, router: int, rows: seq<Entry>, p: Pass)
    requires PassOk(m, router, rows, p) && Answering(m, router) && Current(t, rows) && UsernamesDistinct(rows)
    ensures AllSnapped(t, Reconciled(t, m, router, rows, p).0, rows, p.now)
  {
    SeededKeeps(m, router, rows);
    SeededHas(m, router, rows);
    var r := Seeded(m, router, rows)[router];
    hide Seeded, Current, SeedOf;
    ListedByUser(r, p.intervalSec, p.choices, p.order);
    var byUser := ByUser(Listed(r, p.intervalSec, p.choices, p.order).1);
    hide Listed, Counted, CountersOk, RouterOk;
    forall i | 0 <= i < |rows|
      ensures rows[i].session.username in byUser && Counted(SeedOf(rows[i]), byUser[rows[i].session.username])
    {
      assert rows[i].session.username in r.sessions.Keys;
    }
    RecordedSnaps(t, rows, byUser, p.now, p.dbNow);
    hide AllSnapped;
  }

  // ---- Runs ----

  datatype Event =
    | Reconcile(router: int, rows: seq<Entry>, pass: Pass)
    | Open(id: int, session: Session)
    | Device(call: Call)

  datatype World = World(tables: Tables, devices: Memory)

  ghost predicate Allowed(w: World, e: Event) {
    match e
    case Reconcile(router, rows, p) =>
      PassOk(w.devices, router, rows, p) && Current(w.tables, rows) && UsernamesDistinct(rows)
    case Open(id, session) => id !in w.tables.sessions && session.active && session.bytes == Counters(0, 0)
    case Device(c) =>
      && (c.id in w.devices ==> Playable(w.devices[c.id], c, if c.ListSessions? then c.order else []))
      && (c.SeedSession? ==> CountersOk(c.session))
      && (c.ListSessions? ==> c.intervalSec >= 0.0)
  }

  ghost function Apply(w: World, e: Event): World
    requires Allowed(w, e)
  {
    match e
    case Reconcile(router, rows, p) =>
      var r := Reconciled(w.tables, w.devices, router, rows, p);
      World(r.0, r.1)
    case Open(id, session) => w.(tables := w.tables.(sessions := w.tables.sessions[id := session]))
    case Device(c) => w.(devices := MemoryCall(w.devices, c).0)
  }

  ghost predicate AllAllowed(w: World, events: seq<Event>)
    decreases |events|, 0
  {
    events == [] || (AllAllowed(w, events[..|events| - 1]) &&
                     Allowed(After(w, events[..|events| - 1]), events[|events| - 1]))
  }

  ghost function After(w: World, events: seq<Event>): World
    requires AllAllowed(w, events)
    decreases |events|, 1
  {
    if events == [] then w else Apply(After(w, events[..|events| - 1]), events[|events| - 1])
  }

  const START: World := World(Tables(map[], []), map[])

  /** Every session is open and its usage rows add up to its counters. */
  ghost predicate Exact(t: Tables) {
    && (forall id :: id in t.sessions ==> t.sessions[id].active)
    && (forall id, d :: Total(t.usage, id, d) == if id in t.sessions then t.sessions[id].bytes.Of(d) else 0)
  }

  lemma SnappedStaysExact(t: Tables, t': Tables, rows: seq<Entry>, now: int)
    requires Exact(t) && AllSnapped(t, t', rows, now) && Current(t, rows)
    ensures Exact(t')
  {
    hide Total;
    forall id
      ensures id in t'.sessions ==> t'.sessions[id].active
      ensures forall d :: Total(t'.usage, id, d) == if id in t'.sessions then t'.sessions[id].bytes.Of(d) else 0
    {
      assert forall d :: Total(t.usage, id, d) == if id in t.sessions then t.sessions[id].bytes.Of(d) else 0;
      if i :| 0 <= i < |rows| && rows[i].id == id {
        assert Snapped(t, t', rows[i].id, now);
      } else {
        assert Untouched(t, t', id);
      }
    }
  }

  lemma CallKeepsMemory(m: Memory, c: Call)
    requires MemoryOk(m) && Allowed(World(Tables(map[], []), m), Device(c))
    ensures MemoryOk(MemoryCall(m, c).0)
  {
    hide Listed, Scaled, Enumerates, ChoicesFor;
    if c.ListSessions? && Answering(m, c.id) {
      ListingKeepsRouter(m[c.id], c.intervalSec, c.choices, c.order);
    }
  }

  lemma EventKeepsExact(w: World, e: Event)
    requires Exact(w.tables) && MemoryOk(w.devices) && Allowed(w, e)
    ensures Exact(Apply(w, e).tables) && MemoryOk(Apply(w, e).devices)
  {
    hide RouterOk, Exact, Reconciled, AllSnapped, MemoryCall;
    match e
    case Reconcile(router, rows, p) =>
      ReconcileKeepsMemory(w.tables, w.devices, router, rows, p);
      if Answering(w.devices, router) {
        ConnectedPassSnaps(w.tables, w.devices, router, rows, p);
        SnappedStaysExact(w.tables, Reconciled(w.tables, w.devices, router, rows, p).0, rows, p.now);
      }
    case Open(id, session) => OpenKeepsExact(w.tables, id, session);
    case Device(c) => CallKeepsMemory(w.devices, c);
  }

  lemma OpenKeepsExact(t: Tables, id: int, session: Session)
    requires Exact(t) && id !in t.sessions && session.active && session.bytes == Counters(0, 0)
    ensures Exact(t.(sessions := t.sessions[id := session]))
  {
  }

  /**
   Whatever routers go offline, restart or forget their sessions, runs of passes
   close no session and keep its usage rows adding up to its counters.
   */
  lemma {:induction false} PassesStayExact(events: seq<Event>)
    requires AllAllowed(START, events)
    ensures Exact(After(START, events).tables) && MemoryOk(After(START, events).devices)
  {
    hide Exact, Allowed, MemoryOk;
    if events == [] {
      EmptyIsExact();
    } else {
      PassesStayExact(events[..|events| - 1]);
      EventKeepsExact(After(START, events[..|events| - 1]), events[|events| - 1]);
    }
  }

  lemma EmptyIsExact()
    ensures Exact(START.tables) && MemoryOk(START.devices)
  {
  }
}
