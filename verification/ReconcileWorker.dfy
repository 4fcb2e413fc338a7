/** The worker's reconciliation as it goes, on the session store and the emulated routers. */
module ReconcileWorker {
  import opened UsageTables
  import opened UsageStore
  import opened Devices
  import opened Simulators
  import opened SimulatorStores
  import opened Reconcile
  import Vouchers

  /** The rows of one router, in their order. */
  function OfRouter(rows: seq<Entry>, router: int): seq<Entry> {
    if rows == [] then []
    else OfRouter(rows[..|rows| - 1], router) +
         (if rows[|rows| - 1].router == router then [rows[|rows| - 1]] else [])
  }

  /** routersWithActiveSessions: the rows grouped by router. */
  method GroupByRouter(rows: seq<Entry>) returns (grouped: map<int, seq<Entry>>)
    ensures forall r :: r in grouped <==> OfRouter(rows, r) != []
    ensures forall r :: r in grouped ==> grouped[r] == OfRouter(rows, r)
  {
    grouped := map[];
    for i := 0 to |rows|
      invariant forall r :: OfRouter(rows[..i], r) == if r in grouped then grouped[r] else []
      invariant forall r :: r in grouped ==> grouped[r] != []
    {
      var r := rows[i].router;
      var before := if r in grouped then grouped[r] else [];
      assert rows[..i + 1][..i] == rows[..i] && OfRouter(rows[..i], r) == before;
      grouped := grouped[r := before + [rows[i]]];
    }
    assert rows[..|rows|] == rows;
  }

  /** Grouping loses no row, invents none and keeps ids and usernames distinct. */
  lemma {:induction false} GroupsPartition(rows: seq<Entry>, router: int)
    ensures forall e :: e in OfRouter(rows, router) <==> e in rows && e.router == router
    ensures UsernamesDistinct(rows) ==> UsernamesDistinct(OfRouter(rows, router))
    ensures IdsDistinct(rows) ==> IdsDistinct(OfRouter(rows, router))
  {
    if rows != [] {
      var init, last := rows[..|rows| - 1], rows[|rows| - 1];
      assert rows == init + [last];
      GroupsPartition(init, router);
      DistinctAppend(init, last);
      if last.router == router {
        hide UsernamesDistinct, IdsDistinct;
        DistinctAppend(OfRouter(init, router), last);
      }
    }
  }

  predicate IdsDistinct(rows: seq<Entry>) {
    forall i, j :: 0 <= i < j < |rows| ==> rows[i].id != rows[j].id
  }

  lemma DistinctAppend(rows: seq<Entry>, last: Entry)
    ensures UsernamesDistinct(rows + [last]) <==>
            UsernamesDistinct(rows) && forall e :: e in rows ==> e.session.username != last.session.username
    ensures IdsDistinct(rows + [last]) <==> IdsDistinct(rows) && forall e :: e in rows ==> e.id != last.id
  {
    var all := rows + [last];
    assert forall i :: 0 <= i < |rows| ==> all[i] == rows[i] && rows[i] in rows;
    assert all[|rows|] == last;
  }

  /** Sessions opened by redeeming vouchers have distinct usernames, so they fit one pass. */
  lemma RedeemedRowsFit(events: seq<Vouchers.Event>, rows: seq<Entry>)
    requires forall i :: 0 <= i < |rows| ==>
               0 <= rows[i].id < |Vouchers.Run(Vouchers.EMPTY, events).sessions| &&
               rows[i].session.username == Vouchers.Run(Vouchers.EMPTY, events).sessions[rows[i].id].username
    requires forall i, j :: 0 <= i < j < |rows| ==> rows[i].id != rows[j].id
    ensures UsernamesDistinct(rows)
  {
    forall i, j | 0 <= i < j < |rows|
      ensures rows[i].session.username != rows[j].session.username
    {
      if rows[i].id < rows[j].id {
        Vouchers.UsernamesDistinct(events, rows[i].id, rows[j].id);
      } else {
        Vouchers.UsernamesDistinct(events, rows[j].id, rows[i].id);
      }
    }
  }

  lemma NoListing(m: Memory, router: int, p: Pass)
    requires !Answering(m, router)
    ensures MemoryCall(m, ListSessions(router, p.intervalSec, p.choices, p.order, p.order)).0 == m
  {
    if router in m {
      assert m[router := m[router]] == m;
    }
  }

  class Reconciler {
    const store: UsageStore.Store
    const device: Simulator

    constructor (store: UsageStore.Store, device: Simulator)
      ensures this.store == store && this.device == device
    {
      this.store, this.device := store, device;
    }

    ghost predicate Valid()
      reads device
    {
      device.Valid() && MemoryOk(device.routers)
    }

    method SeedSessions(router: int, rows: seq<Entry>)
      requires Valid()
      modifies device
      ensures Valid() && device.routers == Seeded(old(device.routers), router, rows)
    {
      hide MemoryOk, MemoryCall;
      for i := 0 to |rows|
        invariant Valid() && device.routers == Seeded(old(device.routers), router, rows[..i])
      {
        var e := rows[i];
        SeedKeeps(device.routers, router, e);
        device.SeedSession(router, e.session.username, e.mac, e.ip, e.session.bytes.rx, e.session.bytes.tx);
        assert rows[..i + 1][..i] == rows[..i];
      }
      assert rows[..|rows|] == rows;
    }

    method IndexByUser(list: seq<SimSession>) returns (byUser: map<string, SimSession>)
      ensures byUser == ByUser(list)
    {
      byUser := map[];
      for i := 0 to |list|
        invariant byUser == ByUser(list[..i])
      {
        byUser := byUser[list[i].username := list[i]];
        assert list[..i + 1][..i] == list[..i];
      }
      assert list[..|list|] == list;
    }

    method RecordAll(rows: seq<Entry>, byUser: map<string, SimSession>, now: int, dbNow: int)
      requires forall u :: u in byUser ==> CountersOk(byUser[u])
      modifies store
      ensures store.View() == Recorded(old(store.View()), rows, byUser, now, dbNow)
    {
      hide Snapshot, Close;
      for i := 0 to |rows|
        invariant store.View() == Recorded(old(store.View()), rows[..i], byUser, now, dbNow)
      {
        var e := rows[i];
        if e.session.username in byUser {
          var lv := byUser[e.session.username];
          assert CountersOk(lv);
          var _ := store.SnapshotSessionUsage(e.id, now, dbNow, lv.bytesRX, lv.bytesTX);
        } else {
          var _ := store.CloseSession(e.id, now, e.session.bytes.rx, e.session.bytes.tx);
        }
        assert rows[..i + 1][..i] == rows[..i];
      }
      assert rows[..|rows|] == rows;
    }

    method ReconcileRouter(router: int, rows: seq<Entry>, p: Pass)
      requires Valid() && PassOk(device.routers, router, rows, p)
      modifies store, device
      ensures Valid()
      ensures (store.View(), device.routers) == Reconciled(old(store.View()), old(device.routers), router, rows, p)
    {
      hide Seeded, Recorded, Listed;
      ReconcileKeepsMemory(store.View(), device.routers, router, rows, p);
      SeededKeeps(device.routers, router, rows);
      SeedSessions(router, rows);
      if Answering(device.routers, router) {
        ListedByUser(device.routers[router], p.intervalSec, p.choices, p.order);
      }
      if !Answering(device.routers, router) {
        NoListing(device.routers, router, p);
      }
      var reply := device.ListSessions(router, p.intervalSec, p.choices, p.order);
      if reply.Sessions? {
        var byUser := IndexByUser(reply.list);
        RecordAll(rows, byUser, p.now, p.dbNow);
      }
    }
  }
}
