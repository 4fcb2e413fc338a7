/**
 Session counters and their usage rows. A report carries cumulative counters;
 each one becomes a row of clamped increments, merged into an existing row with
 the same (session, started_at) key. Times are microseconds.
 */
module UsageTables {
  import opened Wrappers

  const SECOND := 1_000_000
  const MINUTE := 60 * SECOND
  const MAX_INTEGER := 2147483647

  datatype Direction = Rx | Tx

  datatype Counters = Counters(rx: nat, tx: nat) {
    function Of(d: Direction): nat {
      if d == Rx then rx else tx
    }
  }

  datatype Session = Session(tenant: int, username: string, voucher: Option<int>, rateWindow: Option<int>,
                             startedAt: int, lastSeenAt: int, endTime: Option<int>, active: bool, bytes: Counters)

  datatype UsageRow = UsageRow(tenant: int, session: int, voucher: Option<int>, startedAt: int, endedAt: int,
                               durationSec: int, bytes: Counters, rateWindow: Option<int>)

  datatype Tables = Tables(sessions: map<int, Session>, usage: seq<UsageRow>)

  datatype Error = NotFound | CheckViolation

  function Clamp(delta: int): nat {
    if delta < 0 then 0 else delta
  }

  function Max(a: nat, b: nat): nat {
    if a < b then b else a
  }

  /** The increments since the stored counters; a counter that fell counts for nothing. */
  function Delta(reported: Counters, stored: Counters): Counters {
    Counters(Clamp(reported.rx - stored.rx), Clamp(reported.tx - stored.tx))
  }

  function Plus(a: Counters, b: Counters): Counters {
    Counters(a.rx + b.rx, a.tx + b.tx)
  }

  /** int(d.Seconds()): whole seconds, truncated towards zero. */
  function WholeSeconds(d: int): int {
    if d >= 0 then d / SECOND else -(-d / SECOND)
  }

  /** `seconds` is that many microseconds, cut towards zero. */
  predicate Lasts(seconds: int, micros: int) {
    if micros >= 0 then 1_000_000 * seconds <= micros < 1_000_000 * seconds + 1_000_000
    else 1_000_000 * seconds - 1_000_000 < micros <= 1_000_000 * seconds
  }

  lemma WholeSecondsCut(micros: int)
    ensures Lasts(WholeSeconds(micros), micros)
  {
  }

  /** Position of the row with a session and a start time. */
  function FindRow(usage: seq<UsageRow>, session: int, startedAt: int): (r: Option<nat>)
    ensures r.Some? ==> r.value < |usage| && usage[r.value].session == session && usage[r.value].startedAt == startedAt
    ensures r.None? ==>
              forall k :: 0 <= k < |usage| ==> !(usage[k].session == session && usage[k].startedAt == startedAt)
  {
    if usage == [] then None
    else if usage[|usage| - 1].session == session && usage[|usage| - 1].startedAt == startedAt then Some(|usage| - 1)
    else FindRow(usage[..|usage| - 1], session, startedAt)
  }

  /** INSERT ... ON CONFLICT (session_id, started_at) DO UPDATE, as a snapshot does it. */
  function UpsertSnapshot(usage: seq<UsageRow>, row: UsageRow, now: int): seq<UsageRow> {
    var found := FindRow(usage, row.session, row.startedAt);
    if found.None? then usage + [row]
    else
      var old' := usage[found.value];
      usage[found.value := old'.(bytes := Plus(old'.bytes, row.bytes), endedAt := now)]
  }

  /** The same for the row written when the session closes. */
  function UpsertClosing(usage: seq<UsageRow>, row: UsageRow): seq<UsageRow> {
    var found := FindRow(usage, row.session, row.startedAt);
    if found.None? then usage + [row]
    else
      var old' := usage[found.value];
      usage[found.value := old'.(bytes := Plus(old'.bytes, row.bytes), endedAt := row.endedAt,
                                 durationSec := row.durationSec)]
  }

  /** The usage row of a report that arrives at `at`. */
  function SnapshotRow(id: int, s: Session, at: int, reported: Counters): UsageRow {
    UsageRow(s.tenant, id, s.voucher, at, at, 0, Delta(reported, s.bytes), s.rateWindow)
  }

  function ClosingRow(id: int, s: Session, endedAt: int, reported: Counters): UsageRow {
    UsageRow(s.tenant, id, s.voucher, endedAt - MINUTE, endedAt, WholeSeconds(endedAt - s.startedAt),
             Delta(reported, s.bytes), s.rateWindow)
  }

  /** What SnapshotSessionUsage writes, given the session row it has read under its lock. */
  function SnapshotWrites(t: Tables, id: int, seen: Session, at: int, now: int, reported: Counters): Tables {
    Tables(t.sessions[id := seen.(bytes := reported, lastSeenAt := at)],
           UpsertSnapshot(t.usage, SnapshotRow(id, seen, at, reported), now))
  }

  /** The CHECK constraints on the closing row. */
  predicate ClosingFits(seen: Session, endedAt: int) {
    0 <= WholeSeconds(endedAt - seen.startedAt) <= MAX_INTEGER
  }

  /** What CloseSession writes; the stored counters never go down. */
  function CloseWrites(t: Tables, id: int, seen: Session, endedAt: int, reported: Counters): Tables {
    var final := Counters(Max(reported.rx, seen.bytes.rx), Max(reported.tx, seen.bytes.tx));
    Tables(t.sessions[id := seen.(active := false, endTime := Some(endedAt), bytes := final)],
           UpsertClosing(t.usage, ClosingRow(id, seen, endedAt, reported)))
  }

  /** SnapshotSessionUsage as one uninterrupted transaction. */
  function Snapshot(t: Tables, id: int, at: int, now: int, reported: Counters): Result<Tables, Error> {
    if id !in t.sessions || !t.sessions[id].active then Err(NotFound)
    else Ok(SnapshotWrites(t, id, t.sessions[id], at, now, reported))
  }

  /** CloseSession as one uninterrupted transaction. */
  function Close(t: Tables, id: int, endedAt: int, reported: Counters): Result<Tables, Error> {
    if id !in t.sessions || !t.sessions[id].active then Err(NotFound)
    else if !ClosingFits(t.sessions[id], endedAt) then Err(CheckViolation)
    else Ok(CloseWrites(t, id, t.sessions[id], endedAt, reported))
  }

  // ---- Totals ----

  /** The bytes of all usage rows of a session. */
  function Total(usage: seq<UsageRow>, session: int, d: Direction): nat {
    if usage == [] then 0
    else
      var last := usage[|usage| - 1];
      Total(usage[..|usage| - 1], session, d) + (if last.session == session then last.bytes.Of(d) else 0)
  }

  lemma TotalAppend(usage: seq<UsageRow>, row: UsageRow, session: int, d: Direction)
    ensures Total(usage + [row], session, d) ==
            Total(usage, session, d) + (if row.session == session then row.bytes.Of(d) else 0)
  {
    assert (usage + [row])[..|usage|] == usage;
  }

  lemma {:induction false} TotalUpdate(usage: seq<UsageRow>, k: nat, row: UsageRow, session: int, d: Direction)
    requires k < |usage| && row.session == usage[k].session
    ensures Total(usage[k := row], session, d) ==
            Total(usage, session, d) +
            (if row.session == session then row.bytes.Of(d) - usage[k].bytes.Of(d) else 0)
  {
    var n := |usage| - 1;
    if k == n {
      assert usage[k := row][..n] == usage[..n];
    } else {
      assert usage[k := row][..n] == usage[..n][k := row];
      TotalUpdate(usage[..n], k, row, session, d);
    }
  }

  /** However an upsert lands, it adds the new row's bytes to its session's total and nothing to any other. */
  lemma UpsertAdds(usage: seq<UsageRow>, row: UsageRow, now: int, session: int, d: Direction)
    ensures Total(UpsertSnapshot(usage, row, now), session, d) ==
            Total(usage, session, d) + (if row.session == session then row.bytes.Of(d) else 0)
    ensures Total(UpsertClosing(usage, row), session, d) ==
            Total(usage, session, d) + (if row.session == session then row.bytes.Of(d) else 0)
  {
    var found := FindRow(usage, row.session, row.startedAt);
    if found.None? {
      TotalAppend(usage, row, session, d);
    } else {
      TotalUpdate(usage, found.value, UpsertSnapshot(usage, row, now)[found.value], session, d);
      TotalUpdate(usage, found.value, UpsertClosing(usage, row)[found.value], session, d);
    }
  }

  // ---- Reports ----

  /** The sum of the positive increments of a session's reports, starting from zero. */
  function Increments(reports: seq<Counters>, d: Direction): nat {
    if reports == [] then 0
    else
      var n := |reports| - 1;
      Increments(reports[..n], d) + Clamp(reports[n].Of(d) - LastReport(reports[..n]).Of(d))
  }

  function LastReport(reports: seq<Counters>): Counters {
    if reports == [] then Counters(0, 0) else reports[|reports| - 1]
  }

  ghost predicate Nondecreasing(reports: seq<Counters>, d: Direction) {
    forall i, j :: 0 <= i < j < |reports| ==> reports[i].Of(d) <= reports[j].Of(d)
  }

  /** Increments cover every report, and amount to exactly the last one when reports never drop. */
  lemma {:induction false} IncrementsCover(reports: seq<Counters>, d: Direction)
    ensures forall i :: 0 <= i < |reports| ==> Increments(reports, d) >= reports[i].Of(d)
    ensures Nondecreasing(reports, d) ==> Increments(reports, d) == LastReport(reports).Of(d)
  {
    if reports != [] {
      var n := |reports| - 1;
      IncrementsCover(reports[..n], d);
      assert forall i :: 0 <= i < n ==> reports[..n][i] == reports[i];
      assert Increments(reports[..n], d) >= LastReport(reports[..n]).Of(d);
    }
  }

  /** Exactness the other way: the total exceeds the last report as soon as one report drops. */
  lemma {:induction false} IncrementsExact(reports: seq<Counters>, d: Direction)
    ensures Increments(reports, d) == LastReport(reports).Of(d) <==> Nondecreasing(reports, d)
  {
    IncrementsCover(reports, d);
    if reports != [] {
      var n := |reports| - 1;
      IncrementsExact(reports[..n], d);
      IncrementsCover(reports[..n], d);
      assert forall i :: 0 <= i < n ==> reports[..n][i] == reports[i];
      assert Increments(reports[..n], d) >= LastReport(reports[..n]).Of(d);
      if Increments(reports, d) == LastReport(reports).Of(d) {
        assert Nondecreasing(reports[..n], d);
        if n > 0 {
          assert reports[n - 1].Of(d) <= reports[n].Of(d);
          forall i, j | 0 <= i < j < |reports|
            ensures reports[i].Of(d) <= reports[j].Of(d)
          {
            if j == n && i < n - 1 {
              assert reports[..n][i].Of(d) <= reports[..n][n - 1].Of(d);
            } else if j < n {
              assert reports[..n][i].Of(d) <= reports[..n][j].Of(d);
            }
          }
        }
      }
    }
  }
}
