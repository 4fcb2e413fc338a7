/**
 Anomaly alerts: repeats of a fingerprint within an hour are folded into the open
 alert, and open alerts are resolved after a day. Times are microseconds; the
 clock never goes back and transactions follow one another.
 */
module Alerts {
  import opened Wrappers

  const HOUR := 3_600_000_000

  datatype Status = Open | Acknowledged | Resolved | Dismissed

  /** What a rule reports. */
  datatype Finding = Finding(fingerprint: string, kind: string, severity: string, hotspot: Option<int>, value: real,
                             baseline: real)

  datatype Alert = Alert(tenant: int, fingerprint: string, kind: string, severity: string, hotspot: Option<int>,
                         status: Status, value: real, baseline: real, occurrences: nat,
                         ackedAt: Option<int>, resolvedAt: Option<int>, createdAt: int, updatedAt: int)
  {
    predicate OpenFor(owner: int, key: string) {
      tenant == owner && fingerprint == key && status == Open
    }
  }

  /** The row that an insert is folded into: open, same fingerprint, less than an hour old. */
  predicate Recent(a: Alert, tenant: int, fingerprint: string, now: int) {
    a.OpenFor(tenant, fingerprint) && a.createdAt > now - HOUR
  }

  function FindRecent(alerts: seq<Alert>, tenant: int, fingerprint: string, now: int): (r: Option<nat>)
    ensures r.Some? ==> r.value < |alerts| && Recent(alerts[r.value], tenant, fingerprint, now)
    ensures r.None? ==> forall k :: 0 <= k < |alerts| ==> !Recent(alerts[k], tenant, fingerprint, now)
  {
    if alerts == [] then None
    else if Recent(alerts[|alerts| - 1], tenant, fingerprint, now) then Some(|alerts| - 1)
    else FindRecent(alerts[..|alerts| - 1], tenant, fingerprint, now)
  }

  function NewAlert(tenant: int, f: Finding, now: int): Alert {
    Alert(tenant, f.fingerprint, f.kind, f.severity, f.hotspot, Open, f.value, f.baseline, 1, None, None, now, now)
  }

  /** InsertAlert: the table after it and the row it returns. */
  function Inserted(alerts: seq<Alert>, tenant: int, f: Finding, now: int): (r: (seq<Alert>, nat))
    ensures r.1 < |r.0|
  {
    var existing := FindRecent(alerts, tenant, f.fingerprint, now);
    if existing.Some? then
      var a := alerts[existing.value];
      var counted := a.(occurrences := a.occurrences + 1, value := f.value, updatedAt := now);
      (alerts[existing.value := counted], existing.value)
    else (alerts + [NewAlert(tenant, f, now)], |alerts|)
  }

  function WithStatus(a: Alert, status: Status, now: int): Alert {
    match status
    case Acknowledged => a.(status := status, updatedAt := now, ackedAt := Some(now))
    case Resolved => a.(status := status, updatedAt := now, resolvedAt := Some(now))
    case Dismissed => a.(status := status, updatedAt := now, ackedAt := Some(now))
    case Open => a.(status := status, updatedAt := now)
  }

  /** UpdateAlertStatus; an unknown alert is not found. */
  function StatusSet(alerts: seq<Alert>, tenant: int, id: nat, status: Status, now: int): seq<Alert> {
    if id < |alerts| && alerts[id].tenant == tenant then alerts[id := WithStatus(alerts[id], status, now)] else alerts
  }

  predicate Stale(a: Alert, tenant: int, now: int) {
    a.tenant == tenant && a.status == Open && a.createdAt < now - 24 * HOUR
  }

  function Expire(a: Alert, tenant: int, now: int): Alert {
    if Stale(a, tenant, now)
    then a.(status := Resolved, resolvedAt := if a.resolvedAt.Some? then a.resolvedAt else Some(now), updatedAt := now)
    else a
  }

  /** autoResolve */
  function AutoResolved(alerts: seq<Alert>, tenant: int, now: int): (r: seq<Alert>)
    ensures |r| == |alerts| && forall k :: 0 <= k < |r| ==> r[k] == Expire(alerts[k], tenant, now)
  {
    seq(|alerts|, k requires 0 <= k < |alerts| => Expire(alerts[k], tenant, now))
  }

  // ---- Runs ----

  /** Each event comes some time after the one before. */
  datatype Event =
    | Insert(wait: nat, tenant: int, finding: Finding)
    | SetStatus(wait: nat, tenant: int, id: nat, status: Status)
    | AutoResolve(wait: nat, tenant: int)

  /** `inserts` only records whom and what has been inserted for. */
  datatype State = State(alerts: seq<Alert>, clock: int, inserts: seq<(int, string)>)

  /** The API only takes these as a new status. */
  predicate Allowed(e: Event) {
    e.SetStatus? ==> e.status != Open
  }

  function Next(s: State, e: Event): State {
    var now := s.clock + e.wait;
    match e
    case Insert(_, tenant, f) =>
      State(Inserted(s.alerts, tenant, f, now).0, now, s.inserts + [(tenant, f.fingerprint)])
    case SetStatus(_, tenant, id, status) => State(StatusSet(s.alerts, tenant, id, status, now), now, s.inserts)
    case AutoResolve(_, tenant) => State(AutoResolved(s.alerts, tenant, now), now, s.inserts)
  }

  function After(s: State, events: seq<Event>): State {
    if events == [] then s else Next(After(s, events[..|events| - 1]), events[|events| - 1])
  }

  predicate AllAllowed(events: seq<Event>) {
    forall i :: 0 <= i < |events| ==> Allowed(events[i])
  }

  // ---- What every run keeps ----

  predicate SameOpen(a: Alert, b: Alert) {
    a.status == Open && b.OpenFor(a.tenant, a.fingerprint)
  }

  /** Open alerts with one fingerprint were created at least an hour apart. */
  ghost predicate Spaced(alerts: seq<Alert>) {
    forall i, j :: 0 <= i < j < |alerts| && SameOpen(alerts[i], alerts[j]) ==>
      alerts[j].createdAt - alerts[i].createdAt >= HOUR
  }

  ghost predicate CreatedBy(alerts: seq<Alert>, clock: int) {
    forall i :: 0 <= i < |alerts| ==> alerts[i].createdAt <= clock
  }

  /** All occurrences of a fingerprint, whatever has become of its alerts. */
  function Occurrences(alerts: seq<Alert>, tenant: int, fingerprint: string): nat {
    if alerts == [] then 0
    else
      var last := alerts[|alerts| - 1];
      Occurrences(alerts[..|alerts| - 1], tenant, fingerprint) +
      (if last.tenant == tenant && last.fingerprint == fingerprint then last.occurrences else 0)
  }

  function InsertsOf(inserts: seq<(int, string)>, tenant: int, fingerprint: string): nat {
    if inserts == [] then 0
    else InsertsOf(inserts[..|inserts| - 1], tenant, fingerprint) +
         (if inserts[|inserts| - 1] == (tenant, fingerprint) then 1 else 0)
  }

  ghost predicate Tallied(s: State) {
    forall t, f :: Occurrences(s.alerts, t, f) == InsertsOf(s.inserts, t, f)
  }

  ghost predicate Inv(s: State) {
    Spaced(s.alerts) && CreatedBy(s.alerts, s.clock) && Tallied(s)
  }

  lemma {:induction false} OccurrencesChange(alerts: seq<Alert>, k: nat, a: Alert, tenant: int, fingerprint: string)
    requires k < |alerts| && a.tenant == alerts[k].tenant && a.fingerprint == alerts[k].fingerprint
    ensures Occurrences(alerts[k := a], tenant, fingerprint) ==
            Occurrences(alerts, tenant, fingerprint) +
            (if a.tenant == tenant && a.fingerprint == fingerprint then a.occurrences - alerts[k].occurrences else 0)
  {
    var n := |alerts| - 1;
    if k == n {
      assert alerts[k := a][..n] == alerts[..n];
    } else {
      assert alerts[k := a][..n] == alerts[..n][k := a];
      OccurrencesChange(alerts[..n], k, a, tenant, fingerprint);
    }
  }

  lemma {:induction false} OccurrencesSame(a: seq<Alert>, b: seq<Alert>, tenant: int, fingerprint: string)
    requires |a| == |b|
    requires forall k :: 0 <= k < |a| ==> b[k].tenant == a[k].tenant && b[k].fingerprint == a[k].fingerprint &&
                                          b[k].occurrences == a[k].occurrences
    ensures Occurrences(b, tenant, fingerprint) == Occurrences(a, tenant, fingerprint)
  {
    if a != [] {
      OccurrencesSame(a[..|a| - 1], b[..|b| - 1], tenant, fingerprint);
    }
  }

  lemma OccurrencesAppend(alerts: seq<Alert>, a: Alert, tenant: int, fingerprint: string)
    ensures Occurrences(alerts + [a], tenant, fingerprint) ==
            Occurrences(alerts, tenant, fingerprint) +
            (if a.tenant == tenant && a.fingerprint == fingerprint then a.occurrences else 0)
  {
    assert (alerts + [a])[..|alerts|] == alerts;
  }

  lemma InsertsAppend(inserts: seq<(int, string)>, x: (int, string), tenant: int, fingerprint: string)
    ensures InsertsOf(inserts + [x], tenant, fingerprint) ==
            InsertsOf(inserts, tenant, fingerprint) + (if x == (tenant, fingerprint) then 1 else 0)
  {
    assert (inserts + [x])[..|inserts|] == inserts;
  }

  /** An insert adds one occurrence to its fingerprint, folded or not. */
  lemma InsertAddsOne(alerts: seq<Alert>, owner: int, f: Finding, now: int, tenant: int, fingerprint: string)
    ensures Occurrences(Inserted(alerts, owner, f, now).0, tenant, fingerprint) ==
            Occurrences(alerts, tenant, fingerprint) +
            (if owner == tenant && f.fingerprint == fingerprint then 1 else 0)
  {
    var existing := FindRecent(alerts, owner, f.fingerprint, now);
    hide FindRecent;
    if existing.Some? {
      var alerts' := Inserted(alerts, owner, f, now).0;
      OccurrencesChange(alerts, existing.value, alerts'[existing.value], tenant, fingerprint);
    } else {
      OccurrencesAppend(alerts, NewAlert(owner, f, now), tenant, fingerprint);
    }
    hide Occurrences;
  }

  lemma InsertTallies(s: State, e: Event, tenant: int, fingerprint: string)
    requires Tallied(s) && e.Insert?
    ensures Occurrences(Next(s, e).alerts, tenant, fingerprint) == InsertsOf(Next(s, e).inserts, tenant, fingerprint)
  {
    hide Occurrences, InsertsOf, Inserted;
    assert Occurrences(s.alerts, tenant, fingerprint) == InsertsOf(s.inserts, tenant, fingerprint);
    InsertAddsOne(s.alerts, e.tenant, e.finding, s.clock + e.wait, tenant, fingerprint);
    InsertsAppend(s.inserts, (e.tenant, e.finding.fingerprint), tenant, fingerprint);
  }

  /** Statuses other than open never bring open alerts closer. */
  lemma ClosingKeepsSpaced(a: seq<Alert>, b: seq<Alert>)
    requires Spaced(a) && |a| == |b|
    requires forall k :: 0 <= k < |a| ==>
               && b[k].tenant == a[k].tenant && b[k].fingerprint == a[k].fingerprint
               && b[k].createdAt == a[k].createdAt && (b[k].status == Open ==> a[k].status == Open)
    ensures Spaced(b)
  {
    forall i, j | 0 <= i < j < |b| && SameOpen(b[i], b[j])
      ensures b[j].createdAt - b[i].createdAt >= HOUR
    {
      assert SameOpen(a[i], a[j]);
    }
  }

  lemma InsertKeepsSpaced(alerts: seq<Alert>, tenant: int, f: Finding, now: int)
    requires Spaced(alerts)
    ensures Spaced(Inserted(alerts, tenant, f, now).0)
  {
    var alerts' := Inserted(alerts, tenant, f, now).0;
    if FindRecent(alerts, tenant, f.fingerprint, now).Some? {
      ClosingKeepsSpaced(alerts, alerts');
    } else {
      forall i, j | 0 <= i < j < |alerts'| && SameOpen(alerts'[i], alerts'[j])
        ensures alerts'[j].createdAt - alerts'[i].createdAt >= HOUR
      {
        if j == |alerts| {
          assert !Recent(alerts[i], tenant, f.fingerprint, now);
        } else {
          assert SameOpen(alerts[i], alerts[j]);
        }
      }
    }
  }

  lemma NextKeepsInv(s: State, e: Event)
    requires Inv(s) && Allowed(e)
    ensures Inv(Next(s, e))
  {
    var s' := Next(s, e);
    var now := s.clock + e.wait;
    if e.Insert? {
      InsertKeepsSpaced(s.alerts, e.tenant, e.finding, now);
      forall t, f
        ensures Occurrences(s'.alerts, t, f) == InsertsOf(s'.inserts, t, f)
      {
        InsertTallies(s, e, t, f);
      }
    } else {
      ClosingKeepsSpaced(s.alerts, s'.alerts);
      forall t, f
        ensures Occurrences(s'.alerts, t, f) == InsertsOf(s'.inserts, t, f)
      {
        OccurrencesSame(s.alerts, s'.alerts, t, f);
      }
    }
  }

  const EMPTY: State := State([], 0, [])

  lemma {:induction false} RunKeepsInv(events: seq<Event>)
    requires AllAllowed(events)
    ensures Inv(After(EMPTY, events))
  {
    if events != [] {
      RunKeepsInv(events[..|events| - 1]);
      NextKeepsInv(After(EMPTY, events[..|events| - 1]), events[|events| - 1]);
    }
  }

  // ---- Theorems ----

  /** In every run, the lookup of an insert matches at most one row, at any later time. */
  lemma LookupIsUnique(events: seq<Event>, tenant: int, fingerprint: string, now: int, i: nat, j: nat)
    requires AllAllowed(events) && now >= After(EMPTY, events).clock
    requires i < |After(EMPTY, events).alerts| && j < |After(EMPTY, events).alerts|
    requires Recent(After(EMPTY, events).alerts[i], tenant, fingerprint, now)
    requires Recent(After(EMPTY, events).alerts[j], tenant, fingerprint, now)
    ensures i == j
  {
    RunKeepsInv(events);
    var alerts := After(EMPTY, events).alerts;
    assert SameOpen(alerts[i], alerts[j]) && SameOpen(alerts[j], alerts[i]);
  }

  /** No insert is lost or counted twice, whatever is folded, acknowledged or resolved. */
  lemma OccurrencesCountInserts(events: seq<Event>, tenant: int, fingerprint: string)
    requires AllAllowed(events)
    ensures Occurrences(After(EMPTY, events).alerts, tenant, fingerprint) ==
            InsertsOf(After(EMPTY, events).inserts, tenant, fingerprint)
  {
    RunKeepsInv(events);
  }

  function OpenCount(alerts: seq<Alert>, tenant: int, fingerprint: string): nat {
    if alerts == [] then 0
    else OpenCount(alerts[..|alerts| - 1], tenant, fingerprint) +
         (if alerts[|alerts| - 1].OpenFor(tenant, fingerprint) then 1 else 0)
  }

  /** Points an hour apart in an interval. */
  lemma {:induction false} SpacedFit(alerts: seq<Alert>, tenant: int, fingerprint: string, from: int, until: int)
    requires Spaced(alerts) && from <= until
    requires forall i :: 0 <= i < |alerts| && alerts[i].OpenFor(tenant, fingerprint) ==>
               from <= alerts[i].createdAt <= until
    ensures (OpenCount(alerts, tenant, fingerprint) - 1) * HOUR <= until - from
  {
    if alerts != [] {
      var n := |alerts| - 1;
      var init, last := alerts[..n], alerts[n];
      assert forall i :: 0 <= i < n ==> init[i] == alerts[i];
      if !last.OpenFor(tenant, fingerprint) {
        SpacedFit(init, tenant, fingerprint, from, until);
      } else if exists i :: 0 <= i < n && init[i].OpenFor(tenant, fingerprint) {
        forall i | 0 <= i < n && init[i].OpenFor(tenant, fingerprint)
          ensures from <= init[i].createdAt <= last.createdAt - HOUR
        {
          assert SameOpen(alerts[i], alerts[n]);
        }
        SpacedFit(init, tenant, fingerprint, from, last.createdAt - HOUR);
      } else {
        NoneOpen(init, tenant, fingerprint);
      }
    }
  }

  lemma NoneOpen(alerts: seq<Alert>, tenant: int, fingerprint: string)
    requires forall i :: 0 <= i < |alerts| ==> !alerts[i].OpenFor(tenant, fingerprint)
    ensures OpenCount(alerts, tenant, fingerprint) == 0
  {
  }

  /** Right after stale alerts are resolved, at most 25 alerts with one fingerprint are open. */
  lemma AtMost25Open(events: seq<Event>, tenant: int, fingerprint: string)
    requires AllAllowed(events) && events != [] && events[|events| - 1].AutoResolve?
    requires events[|events| - 1].tenant == tenant
    ensures OpenCount(After(EMPTY, events).alerts, tenant, fingerprint) <= 25
  {
    RunKeepsInv(events);
    var s := After(EMPTY, events);
    SpacedFit(s.alerts, tenant, fingerprint, s.clock - 24 * HOUR, s.clock);
  }

  /** The bound is reached: one finding an hour for a day. */
  function Hourly(f: Finding, n: nat): seq<Event> {
    seq(n, i => Insert(if i == 0 then 0 else HOUR, 1, f))
  }

  function HourlyTable(f: Finding, n: nat): (alerts: seq<Alert>)
    ensures |alerts| == n && forall i :: 0 <= i < n ==> alerts[i] == NewAlert(1, f, i * HOUR)
  {
    seq(n, i => NewAlert(1, f, i * HOUR))
  }

  lemma HourlyInsert(f: Finding, n: nat)
    ensures Inserted(HourlyTable(f, n), 1, f, n * HOUR).0 == HourlyTable(f, n + 1)
  {
    assert forall k :: 0 <= k < n ==> HourlyTable(f, n)[k].createdAt <= n * HOUR - HOUR;
    assert FindRecent(HourlyTable(f, n), 1, f.fingerprint, n * HOUR).None?;
  }

  lemma {:induction false} HourlyAlerts(f: Finding, n: nat)
    ensures After(EMPTY, Hourly(f, n)).clock == if n == 0 then 0 else (n - 1) * HOUR
    ensures After(EMPTY, Hourly(f, n)).alerts == HourlyTable(f, n)
  {
    hide Inserted, HourlyTable;
    if n > 0 {
      HourlyAlerts(f, n - 1);
      assert Hourly(f, n)[..n - 1] == Hourly(f, n - 1);
      HourlyInsert(f, n - 1);
    }
  }

  lemma {:induction false} AllOpen(alerts: seq<Alert>, tenant: int, fingerprint: string)
    requires forall i :: 0 <= i < |alerts| ==> alerts[i].OpenFor(tenant, fingerprint)
    ensures OpenCount(alerts, tenant, fingerprint) == |alerts|
  {
    if alerts != [] {
      AllOpen(alerts[..|alerts| - 1], tenant, fingerprint);
    }
  }

  lemma Reaches25(f: Finding)
    ensures OpenCount(After(EMPTY, Hourly(f, 25) + [AutoResolve(0, 1)]).alerts, 1, f.fingerprint) == 25
  {
    var events := Hourly(f, 25) + [AutoResolve(0, 1)];
    HourlyAlerts(f, 25);
    assert events[..|events| - 1] == Hourly(f, 25);
    var s := After(EMPTY, Hourly(f, 25));
    assert forall k :: 0 <= k < 25 ==> !Stale(s.alerts[k], 1, s.clock);
    AllOpen(After(EMPTY, events).alerts, 1, f.fingerprint);
  }

  /**
   Why the API refuses to open an alert again: a table with open alerts an hour
   apart stays one exactly when the new status is not open, the alert was open
   anyway, or no open alert with its fingerprint is within an hour of it.
   */
  lemma ReopeningIff(alerts: seq<Alert>, tenant: int, id: nat, status: Status, now: int)
    requires Spaced(alerts) && id < |alerts| && alerts[id].tenant == tenant
    ensures Spaced(StatusSet(alerts, tenant, id, status, now)) <==>
            status != Open || alerts[id].status == Open || !HasNeighbour(alerts, id)
  {
    var alerts' := StatusSet(alerts, tenant, id, status, now);
    if status != Open || alerts[id].status == Open {
      ClosingKeepsSpaced(alerts, alerts');
    } else if HasNeighbour(alerts, id) {
      var k :| 0 <= k < |alerts| && k != id && IsNeighbour(alerts, id, k);
      assert if k < id then SameOpen(alerts'[k], alerts'[id]) else SameOpen(alerts'[id], alerts'[k]);
    } else {
      forall i, j | 0 <= i < j < |alerts'| && SameOpen(alerts'[i], alerts'[j])
        ensures alerts'[j].createdAt - alerts'[i].createdAt >= HOUR
      {
        if i == id {
          assert !IsNeighbour(alerts, id, j);
        } else if j == id {
          assert !IsNeighbour(alerts, id, i);
        } else {
          assert SameOpen(alerts[i], alerts[j]);
        }
      }
    }
  }

  /** An open alert with the same fingerprint that was not created an hour away on its side of the table. */
  predicate IsNeighbour(alerts: seq<Alert>, id: nat, k: int)
    requires id < |alerts|
  {
    && 0 <= k < |alerts| && alerts[k].OpenFor(alerts[id].tenant, alerts[id].fingerprint)
    && (if k < id then alerts[id].createdAt - alerts[k].createdAt
        else alerts[k].createdAt - alerts[id].createdAt) < HOUR
  }

  predicate HasNeighbour(alerts: seq<Alert>, id: nat)
    requires id < |alerts|
  {
    exists k :: 0 <= k < |alerts| && k != id && IsNeighbour(alerts, id, k)
  }
}
