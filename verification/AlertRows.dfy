/** What alert rows say about their history: their times, and when open ones are folded, spaced and resolved. */
module AlertRows {
  import opened Wrappers
  import opened Alerts

  // ---- One event ----

  predicate IsRecent(alerts: seq<Alert>, k: int, tenant: int, fingerprint: string, now: int) {
    && 0 <= k < |alerts| && alerts[k].tenant == tenant && alerts[k].fingerprint == fingerprint
    && alerts[k].status == Open && alerts[k].createdAt > now - 3_600_000_000
  }

  /**
   A finding is counted in an open alert of its fingerprint created less than an
   hour ago; without one, it becomes a new open alert that occurred once.
   */
  lemma InsertIs(alerts: seq<Alert>, tenant: int, f: Finding, now: int)
    ensures var (alerts', k) := Inserted(alerts, tenant, f, now);
            if exists i :: IsRecent(alerts, i, tenant, f.fingerprint, now)
            then && IsRecent(alerts, k, tenant, f.fingerprint, now)
                 && alerts' == alerts[k := alerts'[k]]
                 && alerts'[k] == alerts[k].(occurrences := alerts[k].occurrences + 1, value := f.value,
                                             updatedAt := now)
            else && k == |alerts| && alerts' == alerts + [alerts'[k]]
                 && alerts'[k] == Alert(tenant, f.fingerprint, f.kind, f.severity, f.hotspot, Open, f.value, f.baseline,
                                        1, None, None, now, now)
  {
    var found := FindRecent(alerts, tenant, f.fingerprint, now);
    hide FindRecent;
    if found.Some? {
      assert IsRecent(alerts, found.value, tenant, f.fingerprint, now);
    } else {
      forall i | 0 <= i < |alerts|
        ensures !IsRecent(alerts, i, tenant, f.fingerprint, now)
      {
        assert !Recent(alerts[i], tenant, f.fingerprint, now);
      }
    }
  }

  /** A status change by the API writes the time that goes with the status, on an alert of the tenant only. */
  lemma StatusIs(s: State, wait: nat, tenant: int, id: nat, status: Status)
    ensures var s' := Next(s, SetStatus(wait, tenant, id, status));
            && s'.clock == s.clock + wait
            && (if id < |s.alerts| && s.alerts[id].tenant == tenant
                then && s'.alerts == s.alerts[id := s'.alerts[id]]
                     && s'.alerts[id] == s.alerts[id].(status := status, updatedAt := s'.clock,
                                                       ackedAt := s'.alerts[id].ackedAt,
                                                       resolvedAt := s'.alerts[id].resolvedAt)
                     && s'.alerts[id].ackedAt == (if status.Acknowledged? || status.Dismissed? then Some(s'.clock)
                                                  else s.alerts[id].ackedAt)
                     && s'.alerts[id].resolvedAt == (if status.Resolved? then Some(s'.clock)
                                                     else s.alerts[id].resolvedAt)
                else s'.alerts == s.alerts)
  {
  }

  /** Resolving stale alerts touches exactly the tenant's open alerts created more than a day ago. */
  lemma StaleAreResolved(s: State, wait: nat, tenant: int, k: nat)
    requires k < |s.alerts|
    ensures var s' := Next(s, AutoResolve(wait, tenant));
            var a := s.alerts[k];
            && |s'.alerts| == |s.alerts| && s'.clock == s.clock + wait
            && if a.tenant == tenant && a.status == Open && s'.clock - a.createdAt > 86_400_000_000
               then s'.alerts[k] == a.(status := Resolved, updatedAt := s'.clock,
                                       resolvedAt := if a.resolvedAt == None then Some(s'.clock) else a.resolvedAt)
               else s'.alerts[k] == a
  {
  }

  // ---- Every run ----

  predicate Within(from: int, at: Option<int>, until: int) {
    at.Some? ==> from <= at.value <= until
  }

  /** An alert's times lie between its creation and its last change, and its status tells which it has. */
  predicate TimesFit(a: Alert, clock: int) {
    && a.createdAt <= a.updatedAt <= clock && a.occurrences >= 1
    && Within(a.createdAt, a.ackedAt, a.updatedAt) && Within(a.createdAt, a.resolvedAt, a.updatedAt)
    && (a.status == Open ==> a.ackedAt == None && a.resolvedAt == None)
    && (a.status == Acknowledged || a.status == Dismissed ==> a.ackedAt.Some?)
    && (a.status == Resolved ==> a.resolvedAt.Some?)
  }

  ghost predicate AllTimesFit(s: State) {
    forall k :: 0 <= k < |s.alerts| ==> TimesFit(s.alerts[k], s.clock)
  }

  lemma EventKeepsTimes(s: State, e: Event)
    requires AllTimesFit(s) && Allowed(e)
    ensures AllTimesFit(Next(s, e))
  {
    var s' := Next(s, e);
    match e
    case Insert(wait, tenant, f) =>
      InsertIs(s.alerts, tenant, f, s'.clock);
      hide Inserted;
      forall k | 0 <= k < |s'.alerts|
        ensures TimesFit(s'.alerts[k], s'.clock)
      {
        assert k < |s.alerts| ==> TimesFit(s.alerts[k], s.clock);
      }
    case SetStatus(wait, tenant, id, status) =>
      forall k | 0 <= k < |s'.alerts|
        ensures TimesFit(s'.alerts[k], s'.clock)
      {
        assert TimesFit(s.alerts[k], s.clock);
      }
    case AutoResolve(wait, tenant) =>
      forall k | 0 <= k < |s'.alerts|
        ensures TimesFit(s'.alerts[k], s'.clock)
      {
        assert TimesFit(s.alerts[k], s.clock);
      }
  }

  /**
   In every run, open alerts of one fingerprint were created an hour apart, and
   each alert's times agree with its status: an open one was never acknowledged
   or resolved, an acknowledged or dismissed one has its time of acknowledgement
   and a resolved one its time of resolution, none before its creation.
   */
  lemma {:induction false} RowsTellTheirHistory(events: seq<Event>)
    requires AllAllowed(events)
    ensures AllTimesFit(After(EMPTY, events))
    ensures var alerts := After(EMPTY, events).alerts;
            forall i, j :: 0 <= i < j < |alerts| && SameOpen(alerts[i], alerts[j]) ==>
              alerts[j].createdAt - alerts[i].createdAt >= 3_600_000_000
  {
    if events != [] {
      RowsTellTheirHistory(events[..|events| - 1]);
      EventKeepsTimes(After(EMPTY, events[..|events| - 1]), events[|events| - 1]);
    }
    RunKeepsInv(events);
    assert Spaced(After(EMPTY, events).alerts);
    hide After, Next, AllTimesFit;
  }

  /** Right after stale alerts are resolved, no open alert of the tenant is more than a day old. */
  lemma NoneLeftStale(s: State, wait: nat, tenant: int)
    ensures var s' := Next(s, AutoResolve(wait, tenant));
            forall k :: 0 <= k < |s'.alerts| && s'.alerts[k].tenant == tenant && s'.alerts[k].status == Open ==>
              s'.clock - s'.alerts[k].createdAt <= 86_400_000_000
  {
    var s' := Next(s, AutoResolve(wait, tenant));
    forall k | 0 <= k < |s'.alerts| && s'.alerts[k].tenant == tenant && s'.alerts[k].status == Open
      ensures s'.clock - s'.alerts[k].createdAt <= 86_400_000_000
    {
      StaleAreResolved(s, wait, tenant, k);
    }
  }
}
