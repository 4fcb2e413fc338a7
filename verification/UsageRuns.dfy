/**
 Snapshots by the worker and disconnects through the API, interleaved. A
 disconnect closes the session with counters it read earlier, outside the
 transaction; every transaction locks the session row, writes and commits.
 */
module UsageRuns {
  import opened Wrappers
  import opened UsageTables

  datatype Work =
    | DoSnapshot(at: int, now: int)
    | DoClose(endedAt: int)

  datatype Outcome = Committed | Unchanged | Rejected(error: Error) | Aborted

  datatype Proc =
    | Disconnecting(id: int, endedAt: int)                             // about to read the session
    | WantsRow(id: int, work: Work, reported: Counters)                // about to SELECT ... FOR UPDATE
    | HasRow(id: int, work: Work, reported: Counters, seen: Session)   // holds the row, about to write and commit
    | Done(outcome: Outcome)

  /** `reports` and `closings` only record what has been committed. */
  datatype State = State(tables: Tables, lock: map<int, int>, procs: map<int, Proc>,
                         reports: map<int, seq<Counters>>, closings: seq<int>)

  const EMPTY := State(Tables(map[], []), map[], map[], map[], [])

  function ReportsOf(s: State, id: int): seq<Counters> {
    if id in s.reports then s.reports[id] else []
  }

  function Goto(s: State, t: int, p: Proc): State {
    s.(procs := s.procs[t := p])
  }

  function Finish(s: State, t: int, o: Outcome): State {
    s.(lock := map id | id in s.lock && s.lock[id] != t :: s.lock[id], procs := s.procs[t := Done(o)])
  }

  /** The writes of a transaction that holds its row, and its commit. */
  function Commit(s: State, t: int, id: int, work: Work, reported: Counters, seen: Session): State {
    match work
    case DoSnapshot(at, now) =>
      Finish(s.(tables := SnapshotWrites(s.tables, id, seen, at, now, reported),
                reports := s.reports[id := ReportsOf(s, id) + [reported]]), t, Committed)
    case DoClose(endedAt) =>
      if !ClosingFits(seen, endedAt) then Finish(s, t, Rejected(CheckViolation))
      else Finish(s.(tables := CloseWrites(s.tables, id, seen, endedAt, reported),
                     reports := s.reports[id := ReportsOf(s, id) + [reported]],
                     closings := s.closings + [id]), t, Committed)
  }

  /** One statement of transaction `t`; None while it waits for the row. */
  function Advance(s: State, t: int): Option<State>
    requires t in s.procs
  {
    match s.procs[t]
    case Disconnecting(id, endedAt) =>
      Some(if id !in s.tables.sessions then Finish(s, t, Rejected(NotFound))
           else if !s.tables.sessions[id].active then Finish(s, t, Unchanged)
           else Goto(s, t, WantsRow(id, DoClose(endedAt), s.tables.sessions[id].bytes)))
    case WantsRow(id, work, reported) =>
      if id !in s.tables.sessions || !s.tables.sessions[id].active then Some(Finish(s, t, Rejected(NotFound)))
      else if id in s.lock then None
      else Some(Goto(s, t, HasRow(id, work, reported, s.tables.sessions[id])).(lock := s.lock[id := t]))
    case HasRow(id, work, reported, seen) =>
      Some(Commit(s, t, id, work, reported, seen))
    case Done(_) =>
      None
  }

  datatype Event =
    | Open(id: int, session: Session)
    | BeginSnapshot(tx: int, id: int, at: int, now: int, reported: Counters)
    | BeginDisconnect(tx: int, id: int, endedAt: int)
    | Step(tx: int)
    | Abort(tx: int)

  function Next(s: State, ev: Event): State {
    match ev
    case Open(id, session) =>
      if id !in s.tables.sessions && session.active && session.endTime.None? && session.bytes == Counters(0, 0)
      then s.(tables := s.tables.(sessions := s.tables.sessions[id := session])) else s
    case BeginSnapshot(t, id, at, now, reported) =>
      if t in s.procs then s else Goto(s, t, WantsRow(id, DoSnapshot(at, now), reported))
    case BeginDisconnect(t, id, endedAt) =>
      if t in s.procs then s else Goto(s, t, Disconnecting(id, endedAt))
    case Step(t) =>
      if t in s.procs && Advance(s, t).Some? then Advance(s, t).value else s
    case Abort(t) =>
      if t in s.procs && !s.procs[t].Done? then Finish(s, t, Aborted) else s
  }

  function Run(s: State, events: seq<Event>): State
    decreases |events|
  {
    if events == [] then s else Run(Next(s, events[0]), events[1..])
  }

  // ---- What every event keeps ----

  ghost predicate LocksOk(s: State) {
    && (forall id :: id in s.lock ==>
          s.lock[id] in s.procs && s.procs[s.lock[id]].HasRow? && s.procs[s.lock[id]].id == id)
    && (forall t :: t in s.procs && s.procs[t].HasRow? ==>
          s.procs[t].id in s.lock && s.lock[s.procs[t].id] == t)
  }

  /** What a transaction read under its lock is still the row. */
  ghost predicate ProcsOk(s: State) {
    forall t :: t in s.procs && s.procs[t].HasRow? ==>
      && s.procs[t].id in s.tables.sessions && s.procs[t].seen == s.tables.sessions[s.procs[t].id]
      && s.procs[t].seen.active
  }

  ghost predicate KeysUnique(usage: seq<UsageRow>) {
    forall j, k :: 0 <= j < k < |usage| ==>
      !(usage[j].session == usage[k].session && usage[j].startedAt == usage[k].startedAt)
  }

  ghost predicate RowsHaveSessions(t: Tables) {
    forall k :: 0 <= k < |t.usage| ==> t.usage[k].session in t.sessions
  }

  /** The row a closed session was closed with. */
  ghost predicate HasFinalRow(t: Tables, id: int)
    requires id in t.sessions && t.sessions[id].endTime.Some?
  {
    var e := t.sessions[id].endTime.value;
    exists k :: 0 <= k < |t.usage| && t.usage[k].session == id && t.usage[k].startedAt == e - MINUTE &&
                t.usage[k].endedAt == e && t.usage[k].durationSec == WholeSeconds(e - t.sessions[id].startedAt)
  }

  ghost predicate SessionOk(s: State, id: int)
    requires id in s.tables.sessions
  {
    var session := s.tables.sessions[id];
    var reports := ReportsOf(s, id);
    && (forall d :: Total(s.tables.usage, id, d) == Increments(reports, d))
    && (session.active ==> session.bytes == LastReport(reports) && session.endTime.None? && id !in s.closings)
    && (!session.active ==>
          && session.endTime.Some? && HasFinalRow(s.tables, id)
          && reports != []
          && (forall d :: session.bytes.Of(d) ==
                Max(LastReport(reports).Of(d), LastReport(reports[..|reports| - 1]).Of(d))))
  }

  ghost predicate HistoryOk(s: State) {
    && (forall id :: id in s.reports ==> id in s.tables.sessions)
    && (forall i, j :: 0 <= i < j < |s.closings| ==> s.closings[i] != s.closings[j])
    && (forall i :: 0 <= i < |s.closings| ==>
          s.closings[i] in s.tables.sessions && !s.tables.sessions[s.closings[i]].active)
    && (forall id :: id in s.tables.sessions && !s.tables.sessions[id].active ==> id in s.closings)
  }

  ghost predicate Inv(s: State) {
    && LocksOk(s) && ProcsOk(s) && KeysUnique(s.tables.usage) && RowsHaveSessions(s.tables) && HistoryOk(s)
    && (forall id :: id in s.tables.sessions ==> SessionOk(s, id))
  }

  /** A commit by the holder of one row, seen from the tables. */
  ghost predicate Wrote(s: State, s': State, id: int) {
    && id in s.tables.sessions && s.tables.sessions[id].active && id in s'.tables.sessions
    && s'.tables.sessions.Keys == s.tables.sessions.Keys
    && (forall i :: i in s.tables.sessions && i != id ==> s'.tables.sessions[i] == s.tables.sessions[i])
    && (forall i :: i != id ==> ReportsOf(s', i) == ReportsOf(s, i))
    && Extended(s.tables.usage, s'.tables.usage, id)
    && KeysUnique(s'.tables.usage)
  }

  lemma CommitWrites(s: State, t: int)
    requires Inv(s) && t in s.procs && s.procs[t].HasRow?
    ensures var p := s.procs[t];
            var s' := Commit(s, t, p.id, p.work, p.reported, p.seen);
            s'.procs[t] == Done(Committed) ==> Wrote(s, s', p.id)
  {
    hide SessionOk, HistoryOk, LocksOk, UpsertSnapshot, UpsertClosing;
    var p := s.procs[t];
    match p.work
    case DoSnapshot(at, now) => UpsertExtends(s.tables.usage, SnapshotRow(p.id, p.seen, at, p.reported), now);
    case DoClose(endedAt) => UpsertExtends(s.tables.usage, ClosingRow(p.id, p.seen, endedAt, p.reported), 0);
  }

  /** Rows are merged or added for one session only, and keys stay unique. */
  ghost predicate Extended(usage: seq<UsageRow>, usage': seq<UsageRow>, id: int) {
    && |usage| <= |usage'|
    && (forall k :: 0 <= k < |usage| ==>
          usage'[k].session == usage[k].session && usage'[k].startedAt == usage[k].startedAt &&
          (usage[k].session != id ==> usage'[k] == usage[k]))
    && (forall k :: |usage| <= k < |usage'| ==> usage'[k].session == id)
    && (KeysUnique(usage) ==> KeysUnique(usage'))
  }

  lemma UpsertExtends(usage: seq<UsageRow>, row: UsageRow, now: int)
    ensures Extended(usage, UpsertSnapshot(usage, row, now), row.session)
    ensures Extended(usage, UpsertClosing(usage, row), row.session)
  {
  }

  /** Other sessions keep their rows, totals and reports. */
  lemma OtherSessionsKeep(s: State, s': State, id: int, other: int)
    requires Wrote(s, s', id) && other in s.tables.sessions && other != id && SessionOk(s, other)
    requires forall d :: Total(s'.tables.usage, other, d) == Total(s.tables.usage, other, d)
    requires other in s'.closings <==> other in s.closings
    ensures SessionOk(s', other)
  {
    if !s.tables.sessions[other].active {
      var e := s.tables.sessions[other].endTime.value;
      var k :| 0 <= k < |s.tables.usage| && s.tables.usage[k].session == other &&
               s.tables.usage[k].startedAt == e - MINUTE && s.tables.usage[k].endedAt == e &&
               s.tables.usage[k].durationSec == WholeSeconds(e - s.tables.sessions[other].startedAt);
      assert s'.tables.usage[k] == s.tables.usage[k];
    }
  }

  lemma CommitKeepsSessions(s: State, t: int)
    requires Inv(s) && t in s.procs && s.procs[t].HasRow?
    ensures var p := s.procs[t];
            var s' := Commit(s, t, p.id, p.work, p.reported, p.seen);
            forall id :: id in s'.tables.sessions ==> SessionOk(s', id)
  {
    var p := s.procs[t];
    var s' := Commit(s, t, p.id, p.work, p.reported, p.seen);
    CommitWrites(s, t);
    if s'.procs[t] == Done(Committed) {
      CommittedSessionOk(s, t);
      forall other | other in s'.tables.sessions && other != p.id
        ensures SessionOk(s', other)
      {
        forall d
          ensures Total(s'.tables.usage, other, d) == Total(s.tables.usage, other, d)
        {
          CommitAdds(s, t, other, d);
        }
        OtherSessionsKeep(s, s', p.id, other);
      }
    } else {
      forall id | id in s'.tables.sessions
        ensures SessionOk(s', id)
      {
        assert SessionOk(s, id);
      }
    }
  }

  /** A commit adds its clamped increments to its own session's total. */
  lemma CommitAdds(s: State, t: int, id: int, d: Direction)
    requires t in s.procs && s.procs[t].HasRow?
    requires s.procs[t].work.DoClose? ==> ClosingFits(s.procs[t].seen, s.procs[t].work.endedAt)
    ensures var p := s.procs[t];
            Total(Commit(s, t, p.id, p.work, p.reported, p.seen).tables.usage, id, d) ==
            Total(s.tables.usage, id, d) + (if id == p.id then Delta(p.reported, p.seen.bytes).Of(d) else 0)
  {
    var p := s.procs[t];
    match p.work
    case DoSnapshot(at, now) => UpsertAdds(s.tables.usage, SnapshotRow(p.id, p.seen, at, p.reported), now, id, d);
    case DoClose(endedAt) => UpsertAdds(s.tables.usage, ClosingRow(p.id, p.seen, endedAt, p.reported), 0, id, d);
  }

  lemma CommittedSessionOk(s: State, t: int)
    requires Inv(s) && t in s.procs && s.procs[t].HasRow?
    requires s.procs[t].work.DoClose? ==> ClosingFits(s.procs[t].seen, s.procs[t].work.endedAt)
    ensures var p := s.procs[t];
            SessionOk(Commit(s, t, p.id, p.work, p.reported, p.seen), p.id)
  {
    var p := s.procs[t];
    var s' := Commit(s, t, p.id, p.work, p.reported, p.seen);
    var reports := ReportsOf(s, p.id);
    assert SessionOk(s, p.id);
    assert ReportsOf(s', p.id) == reports + [p.reported] && (reports + [p.reported])[..|reports|] == reports;
    forall d
      ensures Total(s'.tables.usage, p.id, d) == Increments(reports + [p.reported], d)
    {
      CommitAdds(s, t, p.id, d);
    }
    if p.work.DoClose? {
      ClosingRowThere(s.tables.usage, ClosingRow(p.id, p.seen, p.work.endedAt, p.reported));
    }
  }

  lemma ClosingRowThere(usage: seq<UsageRow>, row: UsageRow)
    ensures exists k :: 0 <= k < |UpsertClosing(usage, row)| &&
              UpsertClosing(usage, row)[k].session == row.session &&
              UpsertClosing(usage, row)[k].startedAt == row.startedAt &&
              UpsertClosing(usage, row)[k].endedAt == row.endedAt &&
              UpsertClosing(usage, row)[k].durationSec == row.durationSec
  {
    var found := FindRow(usage, row.session, row.startedAt);
    var k := if found.None? then |usage| else found.value;
    assert UpsertClosing(usage, row)[k].session == row.session;
  }

  /** Events that write no table. */
  lemma MoveKeepsInv(s: State, s': State, t: int, p: Proc)
    requires Inv(s) && s'.tables == s.tables && s'.reports == s.reports && s'.closings == s.closings
    requires s'.procs == s.procs[t := p] && LocksOk(s')
    requires p.HasRow? ==>
               p.id in s.tables.sessions && p.seen == s.tables.sessions[p.id] && p.seen.active
    ensures Inv(s')
  {
    hide LocksOk;
    forall id | id in s'.tables.sessions
      ensures SessionOk(s', id)
    {
      assert SessionOk(s, id);
    }
  }

  lemma FinishReleases(s: State, t: int, o: Outcome)
    requires LocksOk(s) && t in s.procs
    ensures LocksOk(Finish(s, t, o))
  {
  }

  lemma CommitKeepsInv(s: State, t: int)
    requires Inv(s) && t in s.procs && s.procs[t].HasRow?
    ensures Inv(Next(s, Step(t)))
  {
    var p := s.procs[t];
    CommitWrites(s, t);
    CommitKeepsSessions(s, t);
    if p.work.DoClose? && !ClosingFits(p.seen, p.work.endedAt) {
      FinishReleases(s, t, Rejected(CheckViolation));
      MoveKeepsInv(s, Finish(s, t, Rejected(CheckViolation)), t, Done(Rejected(CheckViolation)));
    } else {
      CommitKeepsLocks(s, t);
      CommitKeepsHistory(s, t);
    }
  }

  lemma CommitKeepsLocks(s: State, t: int)
    requires Inv(s) && t in s.procs && s.procs[t].HasRow? && Wrote(s, Next(s, Step(t)), s.procs[t].id)
    requires s.procs[t].work.DoClose? ==> ClosingFits(s.procs[t].seen, s.procs[t].work.endedAt)
    ensures LocksOk(Next(s, Step(t))) && ProcsOk(Next(s, Step(t))) && RowsHaveSessions(Next(s, Step(t)).tables)
  {
    hide SessionOk, HistoryOk, KeysUnique, UpsertSnapshot, UpsertClosing;
    var s' := Next(s, Step(t));
    FinishReleases(s, t, Committed);
    assert s'.procs == Finish(s, t, Committed).procs && s'.lock == Finish(s, t, Committed).lock;
  }

  lemma CommitKeepsHistory(s: State, t: int)
    requires Inv(s) && t in s.procs && s.procs[t].HasRow?
    requires s.procs[t].work.DoClose? ==> ClosingFits(s.procs[t].seen, s.procs[t].work.endedAt)
    ensures HistoryOk(Next(s, Step(t)))
  {
    assert SessionOk(s, s.procs[t].id);
    hide SessionOk, UpsertSnapshot, UpsertClosing, LocksOk;
  }

  lemma NextKeepsInv(s: State, ev: Event)
    requires Inv(s)
    ensures Inv(Next(s, ev))
  {
    var s' := Next(s, ev);
    match ev
    case Open(id, session) =>
      if s' != s {
        OpenKeepsSessions(s, id, session);
      }
    case BeginSnapshot(t, id, at, now, reported) =>
      if t !in s.procs {
        MoveKeepsInv(s, s', t, s'.procs[t]);
      }
    case BeginDisconnect(t, id, endedAt) =>
      if t !in s.procs {
        MoveKeepsInv(s, s', t, s'.procs[t]);
      }
    case Step(t) =>
      if t in s.procs {
        if s.procs[t].HasRow? {
          CommitKeepsInv(s, t);
        } else if Advance(s, t).Some? {
          ReadKeepsInv(s, t);
        }
      }
    case Abort(t) =>
      if t in s.procs && !s.procs[t].Done? {
        FinishReleases(s, t, Aborted);
        MoveKeepsInv(s, s', t, Done(Aborted));
      }
  }

  lemma ReadKeepsInv(s: State, t: int)
    requires Inv(s) && t in s.procs && !s.procs[t].HasRow? && Advance(s, t).Some?
    ensures Inv(Advance(s, t).value)
  {
    var s' := Advance(s, t).value;
    if s'.procs[t].Done? {
      FinishReleases(s, t, s'.procs[t].outcome);
    }
    MoveKeepsInv(s, s', t, s'.procs[t]);
  }

  lemma OpenKeepsSessions(s: State, id: int, session: Session)
    requires Inv(s) && id !in s.tables.sessions && Next(s, Open(id, session)) != s
    ensures forall i :: i in Next(s, Open(id, session)).tables.sessions ==> SessionOk(Next(s, Open(id, session)), i)
  {
    var s' := Next(s, Open(id, session));
    forall i | i in s'.tables.sessions
      ensures SessionOk(s', i)
    {
      if i == id {
        forall d
          ensures Total(s.tables.usage, id, d) == 0
        {
          NoRowsNoTotal(s.tables.usage, id, d);
        }
      } else {
        assert SessionOk(s, i);
        assert !s.tables.sessions[i].active ==> HasFinalRow(s.tables, i);
      }
    }
  }

  lemma NoRowsNoTotal(usage: seq<UsageRow>, id: int, d: Direction)
    requires forall k :: 0 <= k < |usage| ==> usage[k].session != id
    ensures Total(usage, id, d) == 0
  {
  }

  lemma {:induction false} RunKeepsInv(s: State, events: seq<Event>)
    requires Inv(s)
    ensures Inv(Run(s, events))
    decreases |events|
  {
    if events != [] {
      NextKeepsInv(s, events[0]);
      RunKeepsInv(Next(s, events[0]), events[1..]);
    }
  }

  // ---- Theorems ----

  /**
   In every run, a session's usage rows add up to the positive increments of its
   reports. So they cover every report ever committed and the stored counter,
   and equal the last report exactly when reports never dropped.
   */
  lemma UsageIsIncrements(events: seq<Event>, id: int, d: Direction)
    requires id in Run(EMPTY, events).tables.sessions
    ensures var s := Run(EMPTY, events);
            var reports, total := ReportsOf(s, id), Total(s.tables.usage, id, d);
            && total == Increments(reports, d)
            && (forall i :: 0 <= i < |reports| ==> total >= reports[i].Of(d))
            && total >= s.tables.sessions[id].bytes.Of(d)
            && (total == LastReport(reports).Of(d) <==> Nondecreasing(reports, d))
            && (Nondecreasing(reports, d) ==> total == s.tables.sessions[id].bytes.Of(d))
  {
    RunKeepsInv(EMPTY, events);
    var s := Run(EMPTY, events);
    var reports := ReportsOf(s, id);
    assert SessionOk(s, id);
    IncrementsCover(reports, d);
    IncrementsExact(reports, d);
    if |reports| > 1 {
      assert reports[|reports| - 2] == LastReport(reports[..|reports| - 1]);
    }
  }

  /** A closed session: at most one closing, and a row from one minute before its end that has its end and duration. */
  lemma ClosedOnce(events: seq<Event>, id: int)
    requires id in Run(EMPTY, events).tables.sessions
    ensures var s := Run(EMPTY, events);
            && (forall i, j :: 0 <= i < j < |s.closings| ==> s.closings[i] != s.closings[j])
            && (id in s.closings <==> !s.tables.sessions[id].active)
            && (id in s.closings <==> s.tables.sessions[id].endTime.Some?)
            && (id in s.closings ==>
                  var session := s.tables.sessions[id];
                  exists k :: 0 <= k < |s.tables.usage| && s.tables.usage[k].session == id &&
                              s.tables.usage[k].startedAt == session.endTime.value - 60_000_000 &&
                              s.tables.usage[k].endedAt == session.endTime.value &&
                              Lasts(s.tables.usage[k].durationSec, session.endTime.value - session.startedAt))
  {
    RunKeepsInv(EMPTY, events);
    var s := Run(EMPTY, events);
    assert SessionOk(s, id);
    hide Run, Total, Inv, Lasts, WholeSeconds;
    if id in s.closings {
      WholeSecondsCut(s.tables.sessions[id].endTime.value - s.tables.sessions[id].startedAt);
    }
  }

  /** A closed session and its usage rows are never written again, and it gets no further row or report. */
  ghost predicate Frozen(s: State, s': State, id: int) {
    && id in s'.tables.sessions && id in s.tables.sessions && s'.tables.sessions[id] == s.tables.sessions[id]
    && ReportsOf(s', id) == ReportsOf(s, id)
    && |s.tables.usage| <= |s'.tables.usage|
    && (forall k :: 0 <= k < |s.tables.usage| && s.tables.usage[k].session == id ==>
          s'.tables.usage[k] == s.tables.usage[k])
    && (forall k :: 0 <= k < |s.tables.usage| ==> s'.tables.usage[k].session == s.tables.usage[k].session)
    && (forall k :: |s.tables.usage| <= k < |s'.tables.usage| ==> s'.tables.usage[k].session != id)
  }

  lemma {:induction false} ClosedIsFinal(s: State, events: seq<Event>, id: int)
    requires Inv(s) && id in s.tables.sessions && !s.tables.sessions[id].active
    ensures Frozen(s, Run(s, events), id)
    decreases |events|
  {
    if events != [] {
      NextKeepsInv(s, events[0]);
      ClosedStaysFrozen(s, events[0], id);
      hide Inv;
      ClosedIsFinal(Next(s, events[0]), events[1..], id);
    }
  }

  lemma ClosedStaysFrozen(s: State, ev: Event, id: int)
    requires Inv(s) && id in s.tables.sessions && !s.tables.sessions[id].active
    ensures Frozen(s, Next(s, ev), id)
  {
    hide SessionOk, HistoryOk;
    if ev.Step? && ev.tx in s.procs && s.procs[ev.tx].HasRow? {
      CommitWrites(s, ev.tx);
    }
  }

  /** Recorded bytes are never lost: totals only grow, whoever writes and however stale their counters. */
  lemma {:induction false} TotalsGrow(s: State, events: seq<Event>, id: int, d: Direction)
    ensures Total(Run(s, events).tables.usage, id, d) >= Total(s.tables.usage, id, d)
    decreases |events|
  {
    hide Next, Total;
    if events != [] {
      StepGrows(s, events[0], id, d);
      TotalsGrow(Next(s, events[0]), events[1..], id, d);
    }
  }

  lemma StepGrows(s: State, ev: Event, id: int, d: Direction)
    ensures Total(Next(s, ev).tables.usage, id, d) >= Total(s.tables.usage, id, d)
  {
    hide UpsertSnapshot, UpsertClosing, Total;
    if ev.Step? && ev.tx in s.procs && s.procs[ev.tx].HasRow? {
      var p := s.procs[ev.tx];
      if p.work.DoSnapshot? || ClosingFits(p.seen, p.work.endedAt) {
        CommitAdds(s, ev.tx, id, d);
      }
    }
  }

  /** A disconnect that read its counters before `reported` were committed closes without losing them. */
  lemma StaleCloseKeepsCounters(s: State, t: int, d: Direction)
    requires ProcsOk(s) && t in s.procs && s.procs[t].HasRow? && s.procs[t].work.DoClose?
    requires ClosingFits(s.procs[t].seen, s.procs[t].work.endedAt)
    ensures var p := s.procs[t];
            var s' := Next(s, Step(t));
            && p.id in s'.tables.sessions && !s'.tables.sessions[p.id].active
            && s'.tables.sessions[p.id].bytes.Of(d) >= s.tables.sessions[p.id].bytes.Of(d)
            && (p.reported.Of(d) <= s.tables.sessions[p.id].bytes.Of(d) ==>
                  s'.tables.sessions[p.id].bytes.Of(d) == s.tables.sessions[p.id].bytes.Of(d) &&
                  Total(s'.tables.usage, p.id, d) == Total(s.tables.usage, p.id, d))
  {
    ClosingStep(s, t);
    CommitAdds(s, t, s.procs[t].id, d);
    hide Next, Commit, Advance, CloseWrites, ClosingFits, ProcsOk, WholeSeconds, Total;
  }

  /** What the closing step leaves. */
  lemma ClosingStep(s: State, t: int)
    requires ProcsOk(s) && t in s.procs && s.procs[t].HasRow? && s.procs[t].work.DoClose?
    requires ClosingFits(s.procs[t].seen, s.procs[t].work.endedAt)
    ensures var p := s.procs[t];
            var s' := Next(s, Step(t));
            && s' == Commit(s, t, p.id, p.work, p.reported, p.seen)
            && p.id in s.tables.sessions && p.seen == s.tables.sessions[p.id]
            && p.id in s'.tables.sessions && !s'.tables.sessions[p.id].active
            && s'.tables.sessions[p.id].bytes ==
               Counters(Max(p.reported.rx, p.seen.bytes.rx), Max(p.reported.tx, p.seen.bytes.tx))
  {
    hide UpsertClosing, ClosingRow, ClosingFits, WholeSeconds;
  }
}
