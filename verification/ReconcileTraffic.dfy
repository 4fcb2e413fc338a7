/** What one reconciliation pass stores: the traffic of its router, byte for byte, and the end of unlisted sessions. */
module ReconcileTraffic {
  import opened Wrappers
  import opened UsageTables
  import opened UsageIntervals
  import opened Devices
  import opened DeviceRates
  import opened Simulators
  import opened Reconcile

  /** What a seeded router has of a row. */
  lemma SeedIs(m: Memory, router: int, rows: seq<Entry>, i: nat)
    requires MemoryOk(m) && Answering(m, router) && UsernamesDistinct(rows) && i < |rows|
    ensures var m', row := Seeded(m, router, rows), rows[i];
            && router in m' && row.session.username in m'[router].sessions
            && m'[router].sessions[row.session.username] ==
               SimSession(row.session.username, row.mac, row.ip, row.session.bytes.rx, row.session.bytes.tx)
  {
    SeededHas(m, router, rows);
  }

  /** Seeding leaves the hotspots of a router alone. */
  lemma {:induction false} SeedKeepsHotspots(m: Memory, router: int, rows: seq<Entry>)
    requires Answering(m, router)
    ensures Answering(Seeded(m, router, rows), router)
    ensures Seeded(m, router, rows)[router].hotspots == m[router].hotspots
  {
    if rows != [] {
      SeedKeepsHotspots(m, router, rows[..|rows| - 1]);
    }
  }

  /** The listed session of a name moved by the router's rate for the length of the pass. */
  lemma ListedMoves(r: Router, intervalSec: real, choices: Choices, order: seq<string>, u: string)
    requires Enumerates(order, r.sessions.Keys) && ChoicesFor(choices, r.sessions.Keys)
    requires intervalSec >= 0.0 && RouterOk(r) && u in r.sessions
    ensures var byUser := ByUser(Listed(r, intervalSec, choices, order).1);
            && u in byUser && CountersOk(byUser[u])
            && Moved(r.sessions[u], byUser[u], Rate(r.hotspots) as real * intervalSec * 125.0, choices.jitter[u])
  {
    var list := Listed(r, intervalSec, choices, order).1;
    ListedByUser(r, intervalSec, choices, order);
    ByUserIsLast(list);
    ListingKeepsCounters(r, intervalSec, choices, order);
    hide Listed, ByUser, Moved, Kept, IsRate;
    assert Counted(r.sessions[u], ByUser(list)[u]);
    var i :| 0 <= i < |list| && list[i] == ByUser(list)[u];
    assert Counted(r.sessions[order[i]], list[i]);
    ListingTraffic(r, intervalSec, choices, order, i);
  }

  /** Each of the rows' sessions has exactly the listed counters. */
  ghost predicate Stored(t: Tables, rows: seq<Entry>, byUser: map<string, SimSession>) {
    forall i :: 0 <= i < |rows| ==>
      && rows[i].session.username in byUser && rows[i].id in t.sessions
      && t.sessions[rows[i].id].bytes.rx == byUser[rows[i].session.username].bytesRX
      && t.sessions[rows[i].id].bytes.tx == byUser[rows[i].session.username].bytesTX
  }

  lemma {:induction false} RecordedStores(t: Tables, rows: seq<Entry>, byUser: map<string, SimSession>, now: int,
                                          dbNow: int)
    requires forall u :: u in byUser ==> CountersOk(byUser[u])
    requires (forall i :: 0 <= i < |rows| ==> rows[i].session.username in byUser) && Current(t, rows)
    ensures Stored(Recorded(t, rows, byUser, now, dbNow), rows, byUser)
    ensures forall id :: (forall i :: 0 <= i < |rows| ==> rows[i].id != id) ==>
              SameSession(t, Recorded(t, rows, byUser, now, dbNow), id)
  {
    hide Record;
    if rows != [] {
      var init, e := rows[..|rows| - 1], rows[|rows| - 1];
      assert forall i :: 0 <= i < |init| ==> init[i] == rows[i];
      RecordedStores(t, init, byUser, now, dbNow);
      var mid := Recorded(t, init, byUser, now, dbNow);
      assert SameSession(t, mid, e.id);
      RecordStores(mid, e, byUser, now, dbNow);
      var t' := Record(mid, e, byUser, now, dbNow);
      hide Recorded;
      forall i | 0 <= i < |init|
        ensures SameSession(mid, t', rows[i].id) && init[i] == rows[i]
      {
      }
      forall id | forall i :: 0 <= i < |rows| ==> rows[i].id != id
        ensures SameSession(t, t', id)
      {
        assert rows[|rows| - 1].id != id;
        assert SameSession(t, mid, id) && SameSession(mid, t', id);
      }
    }
  }

  predicate SameSession(t: Tables, t': Tables, id: int) {
    (id in t.sessions <==> id in t'.sessions) && (id in t.sessions ==> t'.sessions[id] == t.sessions[id])
  }

  /** One listed row: its session gets the listed counters, and no other changes. */
  lemma RecordStores(t: Tables, e: Entry, byUser: map<string, SimSession>, now: int, dbNow: int)
    requires forall u :: u in byUser ==> CountersOk(byUser[u])
    requires e.session.username in byUser && e.id in t.sessions && t.sessions[e.id].active
    ensures var t', listed := Record(t, e, byUser, now, dbNow), byUser[e.session.username];
            && e.id in t'.sessions
            && t'.sessions[e.id].bytes.rx == listed.bytesRX && t'.sessions[e.id].bytes.tx == listed.bytesTX
            && forall id :: id != e.id ==> SameSession(t, t', id)
  {
    var listed := byUser[e.session.username];
    assert CountersOk(listed);
    SnapshotBooksAt(t, e.id, now, dbNow, Counters(listed.bytesRX, listed.bytesTX));
    hide Snapshot, BookedOnly;
  }

  /** A row that is not listed: its session ends now with the counters it has, and no usage is booked. */
  lemma UnlistedIsClosed(t: Tables, e: Entry, byUser: map<string, SimSession>, now: int, dbNow: int)
    requires forall u :: u in byUser ==> CountersOk(byUser[u])
    requires e.session.username !in byUser && e.id in t.sessions && t.sessions[e.id] == e.session && e.session.active
    requires -1_000_000 < now - e.session.startedAt < 2_147_483_648_000_000
    ensures var t' := Record(t, e, byUser, now, dbNow);
            && t'.sessions == t.sessions[e.id := e.session.(active := false, endTime := Some(now))]
            && forall id, x, d :: TotalAt(t'.usage, id, x, d) == TotalAt(t.usage, id, x, d)
  {
    CloseBooksAt(t, e.id, now, e.session.bytes);
    ClosingBooksNothing(t, e.id, now);
    hide UpsertClosing, ClosingFits, TotalAt, CloseWrites;
  }

  /** The session's counters grew by `full` bytes at that jitter, 28 percent of it in the other direction. */
  predicate Measured(before: Session, after: Session, full: real, jitter: real) {
    && CutsOff(after.bytes.rx - before.bytes.rx, full * jitter)
    && CutsOff(after.bytes.tx - before.bytes.tx, full * jitter * 0.28)
  }

  /**
   After a pass over an answering router, every session it was given has exactly
   the counters it had plus what the router's rate moves in the length of the
   pass at the session's jitter.
   */
  lemma PassMeasures(t: Tables, m: Memory, router: int, rows: seq<Entry>, p: Pass, i: nat)
    requires PassOk(m, router, rows, p) && Answering(m, router) && Current(t, rows) && UsernamesDistinct(rows)
    requires i < |rows|
    ensures var t', row := Reconciled(t, m, router, rows, p).0, rows[i];
            && row.id in t'.sessions && row.session.username in p.choices.jitter
            && Measured(row.session, t'.sessions[row.id], Rate(m[router].hotspots) as real * p.intervalSec * 125.0,
                        p.choices.jitter[row.session.username])
  {
    PassStores(t, m, router, rows, p);
    PassMoves(m, router, rows, p, i);
    hide Seeded, Reconciled, Rate, IsRate, Listed, ByUser, Current, PassOk, UsernamesDistinct, Measured, Moved;
    var r, u := Seeded(m, router, rows)[router], rows[i].session.username;
    MovedIsMeasured(r.sessions[u], ByUser(Listed(r, p.intervalSec, p.choices, p.order).1)[u], rows[i].session,
                    Reconciled(t, m, router, rows, p).0.sessions[rows[i].id],
                    Rate(m[router].hotspots) as real * p.intervalSec * 125.0, p.choices.jitter[u]);
  }

  /** What the listing of a pass finds on its router. */
  lemma PassFinds(m: Memory, router: int, rows: seq<Entry>, p: Pass, i: nat)
    requires PassOk(m, router, rows, p) && Answering(m, router) && UsernamesDistinct(rows) && i < |rows|
    ensures router in Seeded(m, router, rows)
    ensures var r, u := Seeded(m, router, rows)[router], rows[i].session.username;
            && RouterOk(r) && r.hotspots == m[router].hotspots && u in r.sessions && u in p.choices.jitter
            && Enumerates(p.order, r.sessions.Keys) && ChoicesFor(p.choices, r.sessions.Keys) && p.intervalSec >= 0.0
            && r.sessions[u].bytesRX == rows[i].session.bytes.rx && r.sessions[u].bytesTX == rows[i].session.bytes.tx
  {
    SeedKeepsHotspots(m, router, rows);
    SeedIs(m, router, rows, i);
    SeededKeeps(m, router, rows);
    hide Seeded, RouterOk, Enumerates;
    assert rows[i].session.username in Seeded(m, router, rows)[router].sessions.Keys;
  }

  /** The listing of a pass, for one of its rows. */
  lemma PassMoves(m: Memory, router: int, rows: seq<Entry>, p: Pass, i: nat)
    requires PassOk(m, router, rows, p) && Answering(m, router) && UsernamesDistinct(rows) && i < |rows|
    ensures router in Seeded(m, router, rows)
    ensures var r, u := Seeded(m, router, rows)[router], rows[i].session.username;
            && Enumerates(p.order, r.sessions.Keys) && ChoicesFor(p.choices, r.sessions.Keys)
            && u in r.sessions && u in p.choices.jitter
            && r.sessions[u].bytesRX == rows[i].session.bytes.rx && r.sessions[u].bytesTX == rows[i].session.bytes.tx
            && var byUser := ByUser(Listed(r, p.intervalSec, p.choices, p.order).1);
               && u in byUser
               && Moved(r.sessions[u], byUser[u], Rate(m[router].hotspots) as real * p.intervalSec * 125.0,
                        p.choices.jitter[u])
  {
    hide *;
    PassFinds(m, router, rows, p, i);
    var r, u := Seeded(m, router, rows)[router], rows[i].session.username;
    ListedMoves(r, p.intervalSec, p.choices, p.order, u);
  }

  lemma MovedIsMeasured(s: SimSession, s': SimSession, before: Session, after: Session, full: real, jitter: real)
    requires Moved(s, s', full, jitter)
    requires s.bytesRX == before.bytes.rx && s.bytesTX == before.bytes.tx
    requires s'.bytesRX == after.bytes.rx && s'.bytesTX == after.bytes.tx
    ensures Measured(before, after, full, jitter)
  {
  }

  lemma PassStores(t: Tables, m: Memory, router: int, rows: seq<Entry>, p: Pass)
    requires PassOk(m, router, rows, p) && Answering(m, router) && Current(t, rows) && UsernamesDistinct(rows)
    ensures Stored(Reconciled(t, m, router, rows, p).0, rows,
                   ByUser(Listed(Seeded(m, router, rows)[router], p.intervalSec, p.choices, p.order).1))
  {
    SeededKeeps(m, router, rows);
    SeededHas(m, router, rows);
    var r := Seeded(m, router, rows)[router];
    hide Seeded, IsRate, Listed, Stored;
    ListedByUser(r, p.intervalSec, p.choices, p.order);
    var byUser := ByUser(Listed(r, p.intervalSec, p.choices, p.order).1);
    hide ByUser;
    forall k | 0 <= k < |rows|
      ensures rows[k].session.username in byUser
    {
      assert rows[k].session.username in r.sessions.Keys;
    }
    RecordedStores(t, rows, byUser, p.now, p.dbNow);
  }
}
