/** The alert table, one run of the anomaly engine over its findings, and the hourly digest. */
module AlertEngine {
  import opened Wrappers
  import opened Alerts
  import Vouchers

  // ---- The digest ----

  datatype Key = Key(hotspot: int, kind: string, severity: string)

  datatype SummaryKey = SummaryKey(tenant: int, key: Key, bucket: int)

  datatype Summary = Summary(open: nat, total: nat, resolved: nat, value: real, first: int, last: int)

  datatype Tally = Tally(open: nat, acknowledged: nat, resolved: nat, dismissed: nat)

  /** The alerts of one key: how many in each status, the sum of values, the first and the latest creation. */
  datatype Group = Group(tally: Tally, value: real, first: int, last: int)

  function KeyOf(a: Alert): Key {
    Key(if a.hotspot.Some? then a.hotspot.value else 0, a.kind, a.severity)
  }

  function CountIn(t: Tally, status: Status): Tally {
    match status
    case Open => t.(open := t.open + 1)
    case Acknowledged => t.(acknowledged := t.acknowledged + 1)
    case Resolved => t.(resolved := t.resolved + 1)
    case Dismissed => t.(dismissed := t.dismissed + 1)
  }

  function AddTo(g: Option<Group>, a: Alert): Group {
    if g.None? then Group(CountIn(Tally(0, 0, 0, 0), a.status), a.value, a.createdAt, a.createdAt)
    else
      Group(CountIn(g.value.tally, a.status), g.value.value + a.value, g.value.first,
            if a.createdAt > g.value.last then a.createdAt else g.value.last)
  }

  function GroupOf(alerts: seq<Alert>, k: Key): Option<Group> {
    if alerts == [] then None
    else
      var before := GroupOf(alerts[..|alerts| - 1], k);
      if KeyOf(alerts[|alerts| - 1]) == k then Some(AddTo(before, alerts[|alerts| - 1])) else before
  }

  function Size(t: Tally): nat {
    t.open + t.acknowledged + t.resolved + t.dismissed
  }

  function Summarised(g: Group): Summary {
    Summary(g.tally.open, Size(g.tally), g.tally.resolved, g.value, g.first, g.last)
  }

  /** The summaries after the digest: those of the alerts' keys in this hour are overwritten, others stay. */
  ghost predicate Digested(before: map<SummaryKey, Summary>, after: map<SummaryKey, Summary>, tenant: int, bucket: int,
                           alerts: seq<Alert>, keys: set<Key>) {
    && (forall k :: k in keys && GroupOf(alerts, k).Some? ==>
          SummaryKey(tenant, k, bucket) in after &&
          after[SummaryKey(tenant, k, bucket)] == Summarised(GroupOf(alerts, k).value))
    && (forall s: SummaryKey ::
          !(s.tenant == tenant && s.bucket == bucket && s.key in keys && GroupOf(alerts, s.key).Some?) ==>
            (s in after <==> s in before) && (s in before ==> after[s] == before[s]))
  }

  lemma {:induction false} GroupedIff(alerts: seq<Alert>, k: Key)
    ensures GroupOf(alerts, k).Some? <==> exists i :: 0 <= i < |alerts| && KeyOf(alerts[i]) == k
  {
    if alerts != [] {
      var n := |alerts| - 1;
      GroupedIff(alerts[..n], k);
      if i :| 0 <= i < |alerts| && KeyOf(alerts[i]) == k && i < n {
        assert KeyOf(alerts[..n][i]) == k;
      }
    }
  }

  function TotalOf(alerts: seq<Alert>, k: Key): nat {
    var g := GroupOf(alerts, k);
    if g.Some? then Size(g.value.tally) else 0
  }

  function SumTotals(alerts: seq<Alert>, keys: seq<Key>): nat {
    if keys == [] then 0 else SumTotals(alerts, keys[..|keys| - 1]) + TotalOf(alerts, keys[|keys| - 1])
  }

  lemma {:induction false} OneMoreAlert(alerts: seq<Alert>, a: Alert, keys: seq<Key>)
    requires forall i, j :: 0 <= i < j < |keys| ==> keys[i] != keys[j]
    ensures SumTotals(alerts + [a], keys) == SumTotals(alerts, keys) + (if KeyOf(a) in keys then 1 else 0)
  {
    if keys != [] {
      var n := |keys| - 1;
      assert keys == keys[..n] + [keys[n]];
      OneMoreAlert(alerts, a, keys[..n]);
      assert (alerts + [a])[..|alerts|] == alerts;
      assert TotalOf(alerts + [a], keys[n]) == TotalOf(alerts, keys[n]) + (if KeyOf(a) == keys[n] then 1 else 0);
    }
  }

  /** The totals of a digest add up to the alerts it was made of: none is dropped, none counted twice. */
  lemma {:induction false} DigestCountsAll(alerts: seq<Alert>, keys: seq<Key>)
    requires forall i, j :: 0 <= i < j < |keys| ==> keys[i] != keys[j]
    requires forall i :: 0 <= i < |alerts| ==> KeyOf(alerts[i]) in keys
    ensures SumTotals(alerts, keys) == |alerts|
  {
    if alerts == [] {
      NoTotals(keys);
    } else {
      var n := |alerts| - 1;
      assert alerts == alerts[..n] + [alerts[n]];
      forall i | 0 <= i < n
        ensures KeyOf(alerts[..n][i]) in keys
      {
        assert alerts[..n][i] == alerts[i];
      }
      DigestCountsAll(alerts[..n], keys);
      OneMoreAlert(alerts[..n], alerts[n], keys);
    }
  }

  lemma {:induction false} NoTotals(keys: seq<Key>)
    ensures SumTotals([], keys) == 0
  {
    if keys != [] {
      NoTotals(keys[..|keys| - 1]);
    }
  }

  /** A digest of open alerts shows nothing resolved: every count is of open ones. */
  lemma {:induction false} OpenDigest(alerts: seq<Alert>, k: Key)
    requires forall i :: 0 <= i < |alerts| ==> alerts[i].status == Open
    requires GroupOf(alerts, k).Some?
    ensures var s := Summarised(GroupOf(alerts, k).value);
            s.open == s.total && s.total > 0 && s.resolved == 0
  {
    var n := |alerts| - 1;
    assert forall i :: 0 <= i < n ==> alerts[..n][i] == alerts[i];
    if GroupOf(alerts[..n], k).Some? {
      OpenDigest(alerts[..n], k);
    }
  }

  /** The first and last times are those of alerts of the group, and the last is the latest. */
  lemma {:induction false} GroupTimes(alerts: seq<Alert>, k: Key)
    requires GroupOf(alerts, k).Some?
    ensures exists i :: 0 <= i < |alerts| && KeyOf(alerts[i]) == k &&
                        alerts[i].createdAt == GroupOf(alerts, k).value.last
    ensures forall i :: 0 <= i < |alerts| && KeyOf(alerts[i]) == k ==>
              alerts[i].createdAt <= GroupOf(alerts, k).value.last
    ensures exists i :: 0 <= i < |alerts| && KeyOf(alerts[i]) == k &&
                        alerts[i].createdAt == GroupOf(alerts, k).value.first &&
                        forall j :: 0 <= j < i ==> KeyOf(alerts[j]) != k
  {
    var n := |alerts| - 1;
    GroupedIff(alerts[..n], k);
    if GroupOf(alerts[..n], k).Some? {
      GroupTimes(alerts[..n], k);
      var i :| 0 <= i < n && KeyOf(alerts[..n][i]) == k &&
               alerts[..n][i].createdAt == GroupOf(alerts[..n], k).value.first &&
               forall j :: 0 <= j < i ==> KeyOf(alerts[..n][j]) != k;
      assert KeyOf(alerts[i]) == k && forall j :: 0 <= j < i ==> alerts[..n][j] == alerts[j];
    } else {
      assert forall j :: 0 <= j < n ==> alerts[..n][j] == alerts[j];
    }
  }

  // ---- One run of the engine ----

  /** The findings that no earlier one of the same run has the fingerprint of. */
  function Firsts(findings: seq<Finding>): seq<Finding> {
    if findings == [] then []
    else
      var init, last := findings[..|findings| - 1], findings[|findings| - 1];
      Firsts(init) + (if Seen(init, last.fingerprint) then [] else [last])
  }

  predicate Seen(findings: seq<Finding>, fingerprint: string) {
    exists i :: 0 <= i < |findings| && findings[i].fingerprint == fingerprint
  }

  /** One finding per fingerprint, and every fingerprint. */
  lemma {:induction false} FirstsDistinct(findings: seq<Finding>)
    ensures forall i, j :: 0 <= i < j < |Firsts(findings)| ==>
              Firsts(findings)[i].fingerprint != Firsts(findings)[j].fingerprint
    ensures forall f :: Seen(Firsts(findings), f) <==> Seen(findings, f)
  {
    if findings != [] {
      var n := |findings| - 1;
      var init, last := findings[..n], findings[n];
      FirstsDistinct(init);
      assert findings == init + [last] && Firsts(init) + [] == Firsts(init);
      forall f
        ensures Seen(findings, f) <==> Seen(init, f) || last.fingerprint == f
        ensures Seen(Firsts(init) + [last], f) <==> Seen(Firsts(init), f) || last.fingerprint == f
      {
        SeenAppend(init, last, f);
        SeenAppend(Firsts(init), last, f);
      }
      forall i | 0 <= i < |Firsts(init)|
        ensures Firsts(init)[i].fingerprint == last.fingerprint ==> Seen(init, last.fingerprint)
      {
        assert Seen(Firsts(init), Firsts(init)[i].fingerprint);
      }
    }
  }

  lemma SeenAppend(findings: seq<Finding>, last: Finding, fingerprint: string)
    ensures Seen(findings + [last], fingerprint) <==> Seen(findings, fingerprint) || last.fingerprint == fingerprint
  {
    if i :| 0 <= i < |findings| && findings[i].fingerprint == fingerprint {
      assert (findings + [last])[i].fingerprint == fingerprint;
    }
    assert (findings + [last])[|findings|] == last;
  }

  /** The inserts of a run; the k-th one comes `wait(k)` after the one before. */
  function RunInserts(tenant: int, firsts: seq<Finding>, wait: nat -> nat): (events: seq<Event>)
    ensures |events| == |firsts|
    ensures forall i :: 0 <= i < |events| ==> events[i] == Insert(wait(i), tenant, firsts[i])
  {
    seq(|firsts|, i requires 0 <= i < |firsts| => Insert(wait(i), tenant, firsts[i]))
  }

  function RunEvents(tenant: int, findings: seq<Finding>, wait: nat -> nat): seq<Event> {
    RunInserts(tenant, Firsts(findings), wait) + [AutoResolve(wait(|Firsts(findings)|), tenant)]
  }

  lemma {:induction false} AfterAppend(s: State, a: seq<Event>, b: seq<Event>)
    ensures After(After(s, a), b) == After(s, a + b)
  {
    if b == [] {
      assert a + b == a;
    } else {
      var n := |b| - 1;
      AfterAppend(s, a, b[..n]);
      assert (a + b)[..|a + b| - 1] == a + b[..n];
    }
  }

  /** Whatever came before, a run leaves at most 25 alerts open per fingerprint of its tenant. */
  lemma RunLeavesAtMost25(events: seq<Event>, tenant: int, findings: seq<Finding>, wait: nat -> nat,
                          fingerprint: string)
    requires AllAllowed(events)
    ensures OpenCount(After(After(EMPTY, events), RunEvents(tenant, findings, wait)).alerts, tenant, fingerprint) <= 25
  {
    AfterAppend(EMPTY, events, RunEvents(tenant, findings, wait));
    AtMost25Open(events + RunEvents(tenant, findings, wait), tenant, fingerprint);
  }

  /** The row an insert returns is open. */
  lemma InsertedIsOpen(alerts: seq<Alert>, tenant: int, f: Finding, now: int)
    ensures var r := Inserted(alerts, tenant, f, now);
            r.0[r.1].OpenFor(tenant, f.fingerprint) && r.0[r.1].value == f.value && r.0[r.1].updatedAt == now
  {
  }

  class AlertStore {
    var alerts: seq<Alert>
    var summaries: map<SummaryKey, Summary>
    var clock: int
    ghost var inserts: seq<(int, string)>

    ghost function View(): State
      reads this
    {
      State(alerts, clock, inserts)
    }

    constructor ()
      ensures View() == EMPTY && summaries == map[]
    {
      alerts, summaries, clock, inserts := [], map[], 0, [];
    }

    /** Look for a recent open alert; count up in it or insert a new one. */
    method InsertAlert(wait: nat, tenant: int, f: Finding) returns (a: Alert)
      modifies this
      ensures View() == Next(old(View()), Insert(wait, tenant, f)) && summaries == old(summaries)
      ensures a == alerts[Inserted(old(alerts), tenant, f, clock).1]
      ensures a.OpenFor(tenant, f.fingerprint) && a.value == f.value
    {
      InsertedIsOpen(alerts, tenant, f, clock + wait);
      clock := clock + wait;
      inserts := inserts + [(tenant, f.fingerprint)];
      var existing := FindRecent(alerts, tenant, f.fingerprint, clock);
      if existing.Some? {
        a := alerts[existing.value];
        a := a.(occurrences := a.occurrences + 1, value := f.value, updatedAt := clock);
        alerts := alerts[existing.value := a];
      } else {
        a := NewAlert(tenant, f, clock);
        alerts := alerts + [a];
      }
    }

    method UpdateAlertStatus(wait: nat, tenant: int, id: nat, status: Status) returns (r: Option<Alert>)
      modifies this
      ensures View() == Next(old(View()), SetStatus(wait, tenant, id, status)) && summaries == old(summaries)
      ensures r.Some? <==> id < |old(alerts)| && old(alerts)[id].tenant == tenant
      ensures r.Some? ==> r.value == alerts[id] && r.value.status == status
    {
      clock := clock + wait;
      if id >= |alerts| || alerts[id].tenant != tenant {
        return None;
      }
      var a := alerts[id].(status := status, updatedAt := clock);
      if status == Acknowledged || status == Dismissed {
        a := a.(ackedAt := Some(clock));
      } else if status == Resolved {
        a := a.(resolvedAt := Some(clock));
      }
      alerts := alerts[id := a];
      return Some(a);
    }

    /** UPDATE of every stale open alert of the tenant. */
    method ResolveStale(wait: nat, tenant: int)
      modifies this
      ensures View() == Next(old(View()), AutoResolve(wait, tenant)) && summaries == old(summaries)
    {
      clock := clock + wait;
      for k := 0 to |alerts|
        invariant |alerts| == old(|alerts|) && clock == old(clock) + wait
        invariant summaries == old(summaries) && inserts == old(inserts)
        invariant forall i :: 0 <= i < |alerts| ==>
                    alerts[i] == if i < k then Expire(old(alerts)[i], tenant, clock) else old(alerts)[i]
      {
        if Stale(alerts[k], tenant, clock) {
          var a := alerts[k];
          var at := if a.resolvedAt.Some? then a.resolvedAt else Some(clock);
          alerts := alerts[k := a.(status := Resolved, resolvedAt := at, updatedAt := clock)];
        }
      }
    }

    method UpsertAnomalySummary(key: SummaryKey, s: Summary)
      modifies this`summaries
      ensures summaries == old(summaries)[key := s]
    {
      summaries := summaries[key := s];
    }
  }

  class AnomalyEngine {
    const st: AlertStore

    constructor (st: AlertStore)
      ensures this.st == st
    {
      this.st := st;
    }

    /** Inserts one finding per fingerprint; insert number `failsAt` fails, if there is such. */
    method InsertAll(tenant: int, findings: seq<Finding>, wait: nat -> nat, failsAt: Option<nat>)
      returns (persisted: seq<Alert>, ok: bool)
      modifies st
      ensures ok <==> failsAt.None? || failsAt.value >= |Firsts(findings)|
      ensures |persisted| == if ok then |Firsts(findings)| else failsAt.value
      ensures st.View() == After(old(st.View()), RunInserts(tenant, Firsts(findings), wait)[..|persisted|])
      ensures Persisted(tenant, Firsts(findings), persisted) && st.summaries == old(st.summaries)
    {
      persisted := [];
      var seen: set<string> := {};
      ghost var firsts := Firsts(findings);
      ghost var inserts := RunInserts(tenant, firsts, wait);
      hide Next, Inserted, Firsts, Seen;
      assert Firsts(findings[..0]) == [] && forall f :: !Seen(findings[..0], f) by {
        NoFirsts();
        assert findings[..0] == [];
      }
      for i := 0 to |findings|
        invariant forall f :: f in seen <==> Seen(findings[..i], f)
        invariant |persisted| == |Firsts(findings[..i])| && Firsts(findings[..i]) <= firsts
        invariant failsAt.Some? ==> |persisted| <= failsAt.value
        invariant st.View() == After(old(st.View()), inserts[..|persisted|]) && st.summaries == old(st.summaries)
        invariant Persisted(tenant, firsts, persisted)
      {
        var f := findings[i];
        FirstsStep(findings, i);
        SeenStep(findings, i);
        if f.fingerprint in seen {
          continue;
        }
        seen := seen + {f.fingerprint};
        var k := |persisted|;
        if failsAt == Some(k) {
          return persisted, false;
        }
        assert Firsts(findings[..i + 1])[k] == f && firsts[k] == f;
        var a := st.InsertAlert(wait(k), tenant, f);
        assert inserts[..k + 1][..k] == inserts[..k];
        persisted := persisted + [a];
      }
      assert findings[..|findings|] == findings;
      return persisted, true;
    }

    /**
     The end of Run: inserts the findings, writes the digest and resolves stale
     alerts. A failing insert ends the run there.
     */
    method Run(tenant: int, findings: seq<Finding>, wait: nat -> nat, bucket: int, failsAt: Option<nat>)
      returns (persisted: seq<Alert>, ok: bool)
      modifies st
      ensures ok <==> failsAt.None? || failsAt.value >= |Firsts(findings)|
      ensures |persisted| == if ok then |Firsts(findings)| else failsAt.value
      ensures Persisted(tenant, Firsts(findings), persisted)
      ensures ok ==>
                && st.View() == After(old(st.View()), RunEvents(tenant, findings, wait))
                && exists keys :: KeysOf(persisted, keys) &&
                                  Digested(old(st.summaries), st.summaries, tenant, bucket, persisted, keys)
      ensures !ok ==>
                && st.View() == After(old(st.View()), RunInserts(tenant, Firsts(findings), wait)[..failsAt.value])
                && st.summaries == old(st.summaries)
    {
      persisted, ok := InsertAll(tenant, findings, wait, failsAt);
      if !ok {
        return;
      }
      ghost var inserts := RunInserts(tenant, Firsts(findings), wait);
      assert inserts[..|persisted|] == inserts;
      var keys := UpsertDigest(tenant, persisted, bucket);
      assert st.View() == After(old(st.View()), inserts);
      hide Digested, KeysOf, Persisted, Next, Firsts;
      st.ResolveStale(wait(|persisted|), tenant);
      assert RunEvents(tenant, findings, wait)[..|inserts|] == inserts;
    }

    /** Groups the alerts by key and writes one summary per key. */
    method UpsertDigest(tenant: int, alerts: seq<Alert>, bucket: int) returns (keys: set<Key>)
      modifies st`summaries
      ensures KeysOf(alerts, keys)
      ensures Digested(old(st.summaries), st.summaries, tenant, bucket, alerts, keys)
    {
      hide Digested;
      var agg, vals, first, last := GroupAlerts(alerts);
      WriteAll(tenant, alerts, bucket, agg, vals, first, last);
      keys := agg.Keys;
      forall k
        ensures k in keys <==> exists i :: 0 <= i < |alerts| && KeyOf(alerts[i]) == k
      {
        GroupedIff(alerts, k);
      }
    }

    method GroupAlerts(alerts: seq<Alert>)
      returns (agg: map<Key, Tally>, vals: map<Key, real>, first: map<Key, int>, last: map<Key, int>)
      ensures Grouped(alerts, agg, vals, first, last)
    {
      agg, vals, first, last := map[], map[], map[], map[];
      for i := 0 to |alerts|
        invariant Grouped(alerts[..i], agg, vals, first, last)
      {
        var a := alerts[i];
        var k := KeyOf(a);
        assert alerts[..i + 1][..i] == alerts[..i];
        if k !in agg {
          agg, first := agg[k := Tally(0, 0, 0, 0)], first[k := a.createdAt];
          vals, last := vals[k := 0.0], last[k := a.createdAt];
        }
        agg := agg[k := CountIn(agg[k], a.status)];
        vals := vals[k := vals[k] + a.value];
        if a.createdAt > last[k] {
          last := last[k := a.createdAt];
        }
      }
      assert alerts[..|alerts|] == alerts;
    }

    method WriteAll(tenant: int, ghost alerts: seq<Alert>, bucket: int, agg: map<Key, Tally>, vals: map<Key, real>,
                    first: map<Key, int>, last: map<Key, int>)
      requires Grouped(alerts, agg, vals, first, last)
      modifies st`summaries
      ensures Digested(old(st.summaries), st.summaries, tenant, bucket, alerts, agg.Keys)
    {
      hide GroupOf;
      var left := agg.Keys;
      while left != {}
        invariant left <= agg.Keys
        invariant Digested(old(st.summaries), st.summaries, tenant, bucket, alerts, agg.Keys - left)
        decreases left
      {
        assert (exists k :: k in left) || left == {};
        var k :| k in left;
        var counts := agg[k];
        var total := counts.open + counts.acknowledged + counts.resolved + counts.dismissed;
        st.UpsertAnomalySummary(SummaryKey(tenant, k, bucket),
                                Summary(counts.open, total, counts.resolved, vals[k], first[k], last[k]));
        left := left - {k};
      }
      assert agg.Keys - left == agg.Keys;
    }
  }

  /** The maps of the digest hold the groups. */
  ghost predicate Grouped(alerts: seq<Alert>, agg: map<Key, Tally>, vals: map<Key, real>, first: map<Key, int>,
                          last: map<Key, int>) {
    && agg.Keys == vals.Keys == first.Keys == last.Keys
    && (forall k :: k in agg ==> GroupOf(alerts, k) == Some(Group(agg[k], vals[k], first[k], last[k])))
    && (forall k :: k !in agg ==> GroupOf(alerts, k) == None)
  }

  ghost predicate KeysOf(alerts: seq<Alert>, keys: set<Key>) {
    forall k :: k in keys <==> exists i :: 0 <= i < |alerts| && KeyOf(alerts[i]) == k
  }

  /** Row by row, the findings as open alerts. */
  ghost predicate Persisted(tenant: int, firsts: seq<Finding>, persisted: seq<Alert>) {
    && |persisted| <= |firsts|
    && forall k :: 0 <= k < |persisted| ==>
         persisted[k].OpenFor(tenant, firsts[k].fingerprint) && persisted[k].value == firsts[k].value
  }

  lemma NoFirsts()
    ensures Firsts([]) == [] && forall f :: !Seen([], f)
  {
  }

  lemma FirstsStep(findings: seq<Finding>, i: nat)
    requires i < |findings|
    ensures Firsts(findings[..i + 1]) ==
            Firsts(findings[..i]) + (if Seen(findings[..i], findings[i].fingerprint) then [] else [findings[i]])
    ensures Firsts(findings[..i + 1]) <= Firsts(findings)
  {
    hide Seen, Firsts;
    FirstsPrefix(findings, i + 1);
    FirstsOfLonger(findings[..i + 1]);
    assert findings[..i + 1][..i] == findings[..i];
  }

  lemma SeenStep(findings: seq<Finding>, i: nat)
    requires i < |findings|
    ensures forall f :: Seen(findings[..i + 1], f) <==> Seen(findings[..i], f) || findings[i].fingerprint == f
  {
    hide Seen;
    assert findings[..i + 1] == findings[..i] + [findings[i]];
    forall f
      ensures Seen(findings[..i + 1], f) <==> Seen(findings[..i], f) || findings[i].fingerprint == f
    {
      SeenAppend(findings[..i], findings[i], f);
    }
  }

  lemma FirstsOfLonger(findings: seq<Finding>)
    requires findings != []
    ensures var init, last := findings[..|findings| - 1], findings[|findings| - 1];
            Firsts(findings) == Firsts(init) + (if Seen(init, last.fingerprint) then [] else [last])
  {
  }

  lemma {:induction false} FirstsPrefix(findings: seq<Finding>, i: nat)
    requires i <= |findings|
    ensures Firsts(findings[..i]) <= Firsts(findings)
  {
    if i < |findings| {
      var n := |findings| - 1;
      FirstsPrefix(findings[..n], i);
      assert findings[..n][..i] == findings[..i];
    } else {
      assert findings[..i] == findings;
    }
  }

  // ---- Shared vouchers ----

  /** The sessions per voucher, as the rule for shared vouchers counts them. */
  method CountVouchers(vouchers: seq<Option<int>>) returns (count: map<int, nat>)
    ensures forall v :: v in count <==> Some(v) in vouchers
    ensures forall v :: v in count ==> count[v] == Uses(vouchers, v)
  {
    count := map[];
    for i := 0 to |vouchers|
      invariant forall v :: v in count <==> Some(v) in vouchers[..i]
      invariant forall v :: (if v in count then count[v] else 0) == Uses(vouchers[..i], v)
    {
      assert vouchers[..i + 1] == vouchers[..i] + [vouchers[i]] && vouchers[..i + 1][..i] == vouchers[..i];
      if vouchers[i].Some? {
        var v := vouchers[i].value;
        count := count[v := (if v in count then count[v] else 0) + 1];
      }
    }
    assert vouchers[..|vouchers|] == vouchers;
  }

  function Uses(vouchers: seq<Option<int>>, v: int): nat {
    if vouchers == [] then 0
    else Uses(vouchers[..|vouchers| - 1], v) + (if vouchers[|vouchers| - 1] == Some(v) then 1 else 0)
  }

  /** Sessions that redemptions have opened, each at most once, never make the rule for shared vouchers fire. */
  lemma {:induction false} NoSharedVoucher(events: seq<Vouchers.Event>, ids: seq<nat>, v: nat)
    requires forall i :: 0 <= i < |ids| ==> ids[i] < |Vouchers.Run(Vouchers.EMPTY, events).sessions|
    requires forall i, j :: 0 <= i < j < |ids| ==> ids[i] != ids[j]
    requires v < |Vouchers.Run(Vouchers.EMPTY, events).vouchers|
    ensures Uses(VouchersOf(events, ids), v) <= 1
    ensures Uses(VouchersOf(events, ids), v) == 1 ==>
              exists i :: 0 <= i < |ids| && Vouchers.Run(Vouchers.EMPTY, events).sessions[ids[i]].voucher == v
  {
    if ids != [] {
      var n := |ids| - 1;
      var s := Vouchers.Run(Vouchers.EMPTY, events);
      NoSharedVoucher(events, ids[..n], v);
      assert VouchersOf(events, ids)[..n] == VouchersOf(events, ids[..n]);
      Vouchers.RedeemedExactlyOnce(events, v);
      hide Vouchers.Run;
      if Uses(VouchersOf(events, ids[..n]), v) == 1 {
        var i :| 0 <= i < n && s.sessions[ids[..n][i]].voucher == v;
        assert s.sessions[ids[i]].voucher == v && ids[i] != ids[n];
        assert s.sessions[ids[n]].voucher != v;
      } else if s.sessions[ids[n]].voucher == v {
        assert s.sessions[ids[n]].voucher == v;
      }
    }
  }

  ghost function VouchersOf(events: seq<Vouchers.Event>, ids: seq<nat>): (r: seq<Option<int>>)
    requires forall i :: 0 <= i < |ids| ==> ids[i] < |Vouchers.Run(Vouchers.EMPTY, events).sessions|
    ensures |r| == |ids|
    ensures forall i :: 0 <= i < |ids| ==> r[i] == Some(Vouchers.Run(Vouchers.EMPTY, events).sessions[ids[i]].voucher)
  {
    seq(|ids|, i requires 0 <= i < |ids| => Some(Vouchers.Run(Vouchers.EMPTY, events).sessions[ids[i]].voucher))
  }
}
