/** When usage is booked: the start times of usage rows, one by one and over whole runs. */
module UsageIntervals {
  import opened Wrappers
  import opened UsageTables
  import opened UsageRuns

  /** The bytes of a session's usage rows that start at `x`. */
  function TotalAt(usage: seq<UsageRow>, session: int, x: int, d: Direction): nat {
    if usage == [] then 0
    else
      var last := usage[|usage| - 1];
      TotalAt(usage[..|usage| - 1], session, x, d) +
      (if last.session == session && last.startedAt == x then last.bytes.Of(d) else 0)
  }

  /** What a row counts for in that. */
  function Counts(row: UsageRow, session: int, x: int, d: Direction): nat {
    if row.session == session && row.startedAt == x then row.bytes.Of(d) else 0
  }

  lemma TotalAtAppend(usage: seq<UsageRow>, row: UsageRow, session: int, x: int, d: Direction)
    ensures TotalAt(usage + [row], session, x, d) == TotalAt(usage, session, x, d) + Counts(row, session, x, d)
  {
    assert (usage + [row])[..|usage|] == usage;
  }

  lemma {:induction false} TotalAtUpdate(usage: seq<UsageRow>, k: nat, row: UsageRow, session: int, x: int,
                                         d: Direction)
    requires k < |usage| && row.session == usage[k].session && row.startedAt == usage[k].startedAt
    ensures TotalAt(usage[k := row], session, x, d) ==
            TotalAt(usage, session, x, d) + Counts(row, session, x, d) - Counts(usage[k], session, x, d)
  {
    var n := |usage| - 1;
    if k == n {
      assert usage[k := row][..n] == usage[..n];
    } else {
      assert usage[k := row][..n] == usage[..n][k := row];
      TotalAtUpdate(usage[..n], k, row, session, x, d);
    }
  }

  lemma UpsertBooks(usage: seq<UsageRow>, row: UsageRow, now: int, session: int, x: int, d: Direction)
    ensures TotalAt(UpsertSnapshot(usage, row, now), session, x, d) ==
            TotalAt(usage, session, x, d) + Counts(row, session, x, d)
    ensures TotalAt(UpsertClosing(usage, row), session, x, d) ==
            TotalAt(usage, session, x, d) + Counts(row, session, x, d)
  {
    var found := FindRow(usage, row.session, row.startedAt);
    if found.None? {
      TotalAtAppend(usage, row, session, x, d);
    } else {
      TotalAtUpdate(usage, found.value, UpsertSnapshot(usage, row, now)[found.value], session, x, d);
      TotalAtUpdate(usage, found.value, UpsertClosing(usage, row)[found.value], session, x, d);
    }
  }

  /** How much a report exceeds the stored counter; nothing when it is below. */
  function Gain(reported: Counters, stored: Counters, d: Direction): nat {
    if reported.Of(d) > stored.Of(d) then reported.Of(d) - stored.Of(d) else 0
  }

  /** The usage of session `id` that starts at `x` grew by the gain, and no other. */
  ghost predicate BookedOnly(t: Tables, t': Tables, id: int, x: int, reported: Counters)
    requires id in t.sessions
  {
    forall session, y, d :: TotalAt(t'.usage, session, y, d) ==
      TotalAt(t.usage, session, y, d) + (if session == id && y == x then Gain(reported, t.sessions[id].bytes, d) else 0)
  }

  /**
   A snapshot of an active session books the gain over the stored counters at its
   own time, and stores the reported counters; any other one is refused.
   */
  lemma SnapshotBooksAt(t: Tables, id: int, at: int, now: int, reported: Counters)
    ensures Snapshot(t, id, at, now, reported).Ok? <==> id in t.sessions && t.sessions[id].active
    ensures Snapshot(t, id, at, now, reported).Err? ==> Snapshot(t, id, at, now, reported).error == NotFound
    ensures Snapshot(t, id, at, now, reported).Ok? ==>
              var t' := Snapshot(t, id, at, now, reported).value;
              && BookedOnly(t, t', id, at, reported)
              && t'.sessions == t.sessions[id := t.sessions[id].(bytes := reported, lastSeenAt := at)]
  {
    hide BookedOnly, UpsertSnapshot;
    if id in t.sessions && t.sessions[id].active {
      SnapshotWritesBook(t, id, t.sessions[id], at, now, reported);
    }
  }

  lemma SnapshotWritesBook(t: Tables, id: int, seen: Session, at: int, now: int, reported: Counters)
    requires id in t.sessions && seen == t.sessions[id]
    ensures BookedOnly(t, SnapshotWrites(t, id, seen, at, now, reported), id, at, reported)
  {
    hide UpsertSnapshot, TotalAt;
    forall session, y, d
      ensures TotalAt(SnapshotWrites(t, id, seen, at, now, reported).usage, session, y, d) ==
              TotalAt(t.usage, session, y, d) +
              (if session == id && y == at then Gain(reported, seen.bytes, d) else 0)
    {
      UpsertBooks(t.usage, SnapshotRow(id, seen, at, reported), now, session, y, d);
    }
  }

  /** The duration of a closing fits its column. */
  lemma DurationFits(seen: Session, endedAt: int)
    ensures ClosingFits(seen, endedAt) <==> -1_000_000 < endedAt - seen.startedAt < 2_147_483_648_000_000
  {
  }

  /**
   Closing an active session books the gain one minute before its end and keeps
   the higher counters; it is refused when the duration in whole seconds is
   negative or does not fit the column.
   */
  lemma CloseBooksAt(t: Tables, id: int, endedAt: int, reported: Counters)
    ensures Close(t, id, endedAt, reported) == Err(NotFound) <==> id !in t.sessions || !t.sessions[id].active
    ensures Close(t, id, endedAt, reported) == Err(CheckViolation) <==>
              && id in t.sessions && t.sessions[id].active
              && !(-1_000_000 < endedAt - t.sessions[id].startedAt < 2_147_483_648_000_000)
    ensures Close(t, id, endedAt, reported).Ok? ==>
              var t' := Close(t, id, endedAt, reported).value;
              && BookedOnly(t, t', id, endedAt - 60_000_000, reported)
              && id in t'.sessions && t'.sessions == t.sessions[id := t'.sessions[id]]
              && ClosedAs(t.sessions[id], t'.sessions[id], endedAt, reported)
  {
    if id in t.sessions {
      DurationFits(t.sessions[id], endedAt);
    }
    hide ClosingFits, BookedOnly, WholeSeconds, UpsertClosing, ClosedAs;
    if Close(t, id, endedAt, reported).Ok? {
      ClosingWrites(t, id, t.sessions[id], endedAt, reported);
    }
  }

  /** The session row after its closing. */
  ghost predicate ClosedAs(s: Session, s': Session, endedAt: int, reported: Counters) {
    && s' == s.(active := false, endTime := Some(endedAt), bytes := s'.bytes)
    && forall d :: s'.bytes.Of(d) == s.bytes.Of(d) + Gain(reported, s.bytes, d)
  }

  lemma ClosingWrites(t: Tables, id: int, seen: Session, endedAt: int, reported: Counters)
    requires id in t.sessions && seen == t.sessions[id]
    ensures BookedOnly(t, CloseWrites(t, id, seen, endedAt, reported), id, endedAt - 60_000_000, reported)
    ensures ClosedAs(seen, CloseWrites(t, id, seen, endedAt, reported).sessions[id], endedAt, reported)
  {
    hide WholeSeconds, UpsertClosing, TotalAt;
    forall session, y, d
      ensures TotalAt(CloseWrites(t, id, seen, endedAt, reported).usage, session, y, d) ==
              TotalAt(t.usage, session, y, d) +
              (if session == id && y == endedAt - 60_000_000 then Gain(reported, seen.bytes, d) else 0)
    {
      UpsertBooks(t.usage, ClosingRow(id, seen, endedAt, reported), 0, session, y, d);
    }
  }

  // ---- What the rows say ----

  /** The row of key (session, startedAt) is new, or an older one is kept as it was but for what `row` replaces. */
  ghost predicate RowWritten(usage: seq<UsageRow>, usage': seq<UsageRow>, k: nat, row: UsageRow) {
    && k < |usage'| && usage'[k] == row
    && (if k < |usage|
        then usage' == usage[k := row] && usage[k].session == row.session && usage[k].startedAt == row.startedAt
        else usage' == usage + [row] &&
             forall i :: 0 <= i < |usage| ==>
               !(usage[i].session == row.session && usage[i].startedAt == row.startedAt))
  }

  /** What a snapshot writes about its row besides the bytes. */
  lemma SnapshotRowIs(t: Tables, id: int, at: int, now: int, reported: Counters) returns (k: nat)
    requires id in t.sessions && t.sessions[id].active
    ensures var usage' := Snapshot(t, id, at, now, reported).value.usage;
            && k < |usage'| && RowWritten(t.usage, usage', k, usage'[k])
            && usage'[k].session == id && usage'[k].startedAt == at
            && if k < |t.usage| then usage'[k] == t.usage[k].(bytes := usage'[k].bytes, endedAt := now)
               else && usage'[k].tenant == t.sessions[id].tenant && usage'[k].voucher == t.sessions[id].voucher
                    && usage'[k].rateWindow == t.sessions[id].rateWindow
                    && usage'[k].endedAt == at && usage'[k].durationSec == 0
  {
    var found := FindRow(t.usage, id, at);
    k := if found.None? then |t.usage| else found.value;
  }

  /** What closing writes about its row besides the bytes. */
  lemma ClosingRowIs(t: Tables, id: int, endedAt: int, reported: Counters) returns (k: nat)
    requires Close(t, id, endedAt, reported).Ok?
    ensures id in t.sessions
    ensures var usage' := Close(t, id, endedAt, reported).value.usage;
            && k < |usage'| && RowWritten(t.usage, usage', k, usage'[k])
            && usage'[k].session == id && usage'[k].startedAt == endedAt - 60_000_000 && usage'[k].endedAt == endedAt
            && Lasts(usage'[k].durationSec, endedAt - t.sessions[id].startedAt)
            && if k < |t.usage|
               then usage'[k] == t.usage[k].(bytes := usage'[k].bytes, endedAt := endedAt,
                                             durationSec := usage'[k].durationSec)
               else && usage'[k].tenant == t.sessions[id].tenant && usage'[k].voucher == t.sessions[id].voucher
                    && usage'[k].rateWindow == t.sessions[id].rateWindow
  {
    WholeSecondsCut(endedAt - t.sessions[id].startedAt);
    var found := FindRow(t.usage, id, endedAt - 60_000_000);
    k := if found.None? then |t.usage| else found.value;
    hide WholeSeconds, Lasts;
  }

  // ---- Over whole runs ----

  /** The time at which a piece of work books what it gains. */
  function BookingTime(w: Work): int {
    if w.DoSnapshot? then w.at else w.endedAt - 60_000_000
  }

  /** What one event books for a session at `x`: the gain of the report whose transaction commits with it. */
  function Books(s: State, ev: Event, id: int, x: int, d: Direction): nat {
    if ev.Step? && ev.tx in s.procs && s.procs[ev.tx].HasRow? && s.procs[ev.tx].id == id &&
       BookingTime(s.procs[ev.tx].work) == x && Next(s, ev).procs[ev.tx] == Done(Committed) && id in s.tables.sessions
    then Gain(s.procs[ev.tx].reported, s.tables.sessions[id].bytes, d) else 0
  }

  function Booked(s: State, events: seq<Event>, id: int, x: int, d: Direction): nat
    decreases |events|
  {
    if events == [] then 0 else Books(s, events[0], id, x, d) + Booked(Next(s, events[0]), events[1..], id, x, d)
  }

  lemma EventBooks(s: State, ev: Event, id: int, x: int, d: Direction)
    requires ProcsOk(s)
    ensures TotalAt(Next(s, ev).tables.usage, id, x, d) == TotalAt(s.tables.usage, id, x, d) + Books(s, ev, id, x, d)
  {
    hide UpsertSnapshot, UpsertClosing, TotalAt, WholeSeconds;
    if ev.Step? && ev.tx in s.procs && s.procs[ev.tx].HasRow? {
      CommitBooks(s, ev.tx, id, x, d);
    }
  }

  lemma CommitBooks(s: State, t: int, id: int, x: int, d: Direction)
    requires t in s.procs && s.procs[t].HasRow? && s.procs[t].id in s.tables.sessions
    requires s.procs[t].seen == s.tables.sessions[s.procs[t].id]
    ensures TotalAt(Next(s, Step(t)).tables.usage, id, x, d) ==
            TotalAt(s.tables.usage, id, x, d) + Books(s, Step(t), id, x, d)
  {
    hide BookedOnly, UpsertSnapshot, UpsertClosing, TotalAt, WholeSeconds, SnapshotWrites, CloseWrites;
    var p := s.procs[t];
    match p.work
    case DoSnapshot(at, now) =>
      SnapshotWritesBook(s.tables, p.id, p.seen, at, now, p.reported);
      var t' := SnapshotWrites(s.tables, p.id, p.seen, at, now, p.reported);
      BookedAt(s.tables, t', p.id, at, p.reported, id, x, d);
    case DoClose(endedAt) =>
      ClosingWrites(s.tables, p.id, p.seen, endedAt, p.reported);
      var t' := CloseWrites(s.tables, p.id, p.seen, endedAt, p.reported);
      BookedAt(s.tables, t', p.id, endedAt - 60_000_000, p.reported, id, x, d);
  }

  lemma BookedAt(t: Tables, t': Tables, id: int, x: int, reported: Counters, session: int, y: int, d: Direction)
    requires id in t.sessions && BookedOnly(t, t', id, x, reported)
    ensures TotalAt(t'.usage, session, y, d) ==
            TotalAt(t.usage, session, y, d) +
            (if session == id && y == x then Gain(reported, t.sessions[id].bytes, d) else 0)
  {
  }

  /**
   In every interleaving, the bytes of a session's rows that start at `x` are
   exactly the gains of the snapshots taken at `x` and of a closing that ended a
   minute after `x`.
   */
  lemma {:induction false} UsageIsBookedInTime(s: State, events: seq<Event>, id: int, x: int, d: Direction)
    requires Inv(s)
    ensures TotalAt(Run(s, events).tables.usage, id, x, d) ==
            TotalAt(s.tables.usage, id, x, d) + Booked(s, events, id, x, d)
    decreases |events|
  {
    hide Books, TotalAt, Next;
    if events != [] {
      NextKeepsInv(s, events[0]);
      assert ProcsOk(s);
      hide Inv;
      EventBooks(s, events[0], id, x, d);
      UsageIsBookedInTime(Next(s, events[0]), events[1..], id, x, d);
    }
  }

  // ---- Undisturbed transactions ----

  lemma RunTwo(s: State, a: Event, b: Event)
    ensures Run(s, [a, b]) == Next(Next(s, a), b)
  {
    hide Next;
    assert [a, b][1..] == [b] && [b][1..] == [];
    assert Run(Next(s, a), [b]) == Run(Next(Next(s, a), b), []);
  }

  lemma RunThree(s: State, a: Event, b: Event, c: Event)
    ensures Run(s, [a, b, c]) == Next(Next(Next(s, a), b), c)
  {
    assert [a, b, c][1..] == [b, c];
    RunTwo(Next(s, a), b, c);
  }

  lemma RunFour(s: State, a: Event, b: Event, c: Event, d: Event)
    ensures Run(s, [a, b, c, d]) == Next(Next(Next(Next(s, a), b), c), d)
  {
    assert [a, b, c, d][1..] == [b, c, d];
    RunThree(Next(s, a), b, c, d);
  }

  /** Transaction `t` is over with that outcome, and the tables are as given. */
  predicate Ended(s': State, t: int, o: Outcome, tables: Tables) {
    t in s'.procs && s'.procs[t] == Done(o) && s'.tables == tables
  }

  /** From waiting for a free row, two steps lock it and commit. */
  lemma WorkAlone(s: State, t: int, id: int, work: Work, reported: Counters)
    requires t in s.procs && s.procs[t] == WantsRow(id, work, reported) && id !in s.lock
    requires id in s.tables.sessions && s.tables.sessions[id].active
    ensures var s', seen := Next(Next(s, Step(t)), Step(t)), s.tables.sessions[id];
            if work.DoSnapshot? then
              Ended(s', t, Committed, SnapshotWrites(s.tables, id, seen, work.at, work.now, reported))
            else if ClosingFits(seen, work.endedAt) then
              Ended(s', t, Committed, CloseWrites(s.tables, id, seen, work.endedAt, reported))
            else Ended(s', t, Rejected(CheckViolation), s.tables)
  {
    hide SnapshotWrites, CloseWrites, ClosingFits;
  }

  /** A transaction that is over takes no step. */
  lemma EndedStays(s: State, t: int, o: Outcome, tables: Tables)
    requires Ended(s, t, o, tables)
    ensures Ended(Next(s, Step(t)), t, o, tables)
  {
  }

  /** What a disconnect does before it waits for the row. */
  lemma DisconnectReads(s: State, t: int, id: int, endedAt: int)
    requires t !in s.procs
    ensures var s' := Next(Next(s, BeginDisconnect(t, id, endedAt)), Step(t));
            if id !in s.tables.sessions then Ended(s', t, Rejected(NotFound), s.tables)
            else if !s.tables.sessions[id].active then Ended(s', t, Unchanged, s.tables)
            else s' == Goto(s, t, WantsRow(id, DoClose(endedAt), s.tables.sessions[id].bytes))
  {
    if id in s.tables.sessions && s.tables.sessions[id].active {
      var waiting := WantsRow(id, DoClose(endedAt), s.tables.sessions[id].bytes);
      assert Goto(Goto(s, t, Disconnecting(id, endedAt)), t, waiting) == Goto(s, t, waiting);
    }
  }

  /** A snapshot that nothing disturbs does what the uninterrupted transaction does. */
  lemma SnapshotAlone(s: State, t: int, id: int, at: int, now: int, reported: Counters)
    requires t !in s.procs && id !in s.lock
    ensures var s' := Run(s, [BeginSnapshot(t, id, at, now, reported), Step(t), Step(t)]);
            var r := Snapshot(s.tables, id, at, now, reported);
            Ended(s', t, if r.Ok? then Committed else Rejected(r.error), if r.Ok? then r.value else s.tables)
  {
    RunThree(s, BeginSnapshot(t, id, at, now, reported), Step(t), Step(t));
    var s1 := Next(s, BeginSnapshot(t, id, at, now, reported));
    assert s1 == Goto(s, t, WantsRow(id, DoSnapshot(at, now), reported));
    if id in s.tables.sessions && s.tables.sessions[id].active {
      WorkAlone(s1, t, id, DoSnapshot(at, now), reported);
    } else {
      assert Ended(Next(s1, Step(t)), t, Rejected(NotFound), s.tables);
      EndedStays(Next(s1, Step(t)), t, Rejected(NotFound), s.tables);
    }
    hide Run, Next, SnapshotWrites;
  }

  /**
   A disconnect that nothing disturbs closes the session with the counters it
   already has, so it books no bytes; a closed session is left as it is.
   */
  lemma DisconnectAlone(s: State, t: int, id: int, endedAt: int)
    requires t !in s.procs && id !in s.lock
    ensures var s' := Run(s, [BeginDisconnect(t, id, endedAt), Step(t), Step(t), Step(t)]);
            if id !in s.tables.sessions then Ended(s', t, Rejected(NotFound), s.tables)
            else if !s.tables.sessions[id].active then Ended(s', t, Unchanged, s.tables)
            else
              var session := s.tables.sessions[id];
              if !(-1_000_000 < endedAt - session.startedAt < 2_147_483_648_000_000)
              then Ended(s', t, Rejected(CheckViolation), s.tables)
              else && Ended(s', t, Committed, s'.tables)
                   && s'.tables.sessions ==
                      s.tables.sessions[id := session.(active := false, endTime := Some(endedAt))]
                   && forall i, x, d :: TotalAt(s'.tables.usage, i, x, d) == TotalAt(s.tables.usage, i, x, d)
  {
    RunFour(s, BeginDisconnect(t, id, endedAt), Step(t), Step(t), Step(t));
    DisconnectReads(s, t, id, endedAt);
    hide Run, Next, WholeSeconds, TotalAt, ClosingFits, CloseWrites;
    var s2 := Next(Next(s, BeginDisconnect(t, id, endedAt)), Step(t));
    if id !in s.tables.sessions || !s.tables.sessions[id].active {
      EndedStays(s2, t, s2.procs[t].outcome, s.tables);
      EndedStays(Next(s2, Step(t)), t, s2.procs[t].outcome, s.tables);
    } else {
      var session := s.tables.sessions[id];
      WorkAlone(s2, t, id, DoClose(endedAt), session.bytes);
      DurationFits(session, endedAt);
      if ClosingFits(session, endedAt) {
        ClosingBooksNothing(s.tables, id, endedAt);
      }
    }
  }

  lemma ClosingBooksNothing(t: Tables, id: int, endedAt: int)
    requires id in t.sessions
    ensures var t' := CloseWrites(t, id, t.sessions[id], endedAt, t.sessions[id].bytes);
            && t'.sessions == t.sessions[id := t.sessions[id].(active := false, endTime := Some(endedAt))]
            && forall i, x, d :: TotalAt(t'.usage, i, x, d) == TotalAt(t.usage, i, x, d)
  {
    ClosingWrites(t, id, t.sessions[id], endedAt, t.sessions[id].bytes);
    hide UpsertClosing, TotalAt, WholeSeconds;
  }
}
