/**
 The store's wallet and billing methods as sequential code over tables updated
 in place. Between any two statements the other transactions run as many
 statements as the schedule `env` says; a transaction that waits for a row lock
 keeps letting them run and gives up when its context ends.
 */
module WalletStore {
  import opened WalletTables
  import opened WalletSteps
  import opened WalletInvariant
  import opened WalletTheorems

  /** What the other transactions do at the n-th pause. */
  type Schedule = nat -> seq<Event>

  predicate Foreign(ev: Event, t: int) {
    (ev.Begin? || ev.Step? || ev.Abort?) ==> ev.tx != t
  }

  ghost predicate Others(env: Schedule, t: int) {
    forall n: nat, i :: 0 <= i < |env(n)| ==> Foreign(env(n)[i], t)
  }

  lemma {:induction false} RunAppend(s: State, a: seq<Event>, b: seq<Event>)
    ensures Run(s, a + b) == Run(Run(s, a), b)
    decreases |a|
  {
    if a == [] {
      assert a + b == b;
    } else {
      assert (a + b)[0] == a[0] && (a + b)[1..] == a[1..] + b;
      RunAppend(Next(s, a[0]), a[1..], b);
    }
  }

  /** Other transactions cannot move `t`. */
  lemma {:induction false} ForeignRunSparesProc(s: State, events: seq<Event>, t: int)
    requires forall i :: 0 <= i < |events| ==> Foreign(events[i], t)
    ensures t in s.procs ==> t in Run(s, events).procs && Run(s, events).procs[t] == s.procs[t]
    ensures t !in s.procs ==> t !in Run(s, events).procs
    decreases |events|
  {
    if events != [] {
      var ev := events[0];
      if ev.Step? && ev.tx in s.procs && Advance(s, ev.tx).Some? {
        StepGoesForward(s, ev.tx);
      }
      ForeignRunSparesProc(Next(s, ev), events[1..], t);
    }
  }

  class Store {
    var customers: map<int, Customer>
    var windows: seq<Window>
    var payments: seq<Payment>
    var ledger: seq<Row>
    var nextRowId: nat
    var customerLock: map<int, int>
    var windowLock: map<nat, int>
    var procs: map<int, Proc>

    function View(): State
      reads this
    {
      State(customers, windows, payments, ledger, nextRowId, customerLock, windowLock, procs)
    }

    constructor ()
      ensures View() == EMPTY
    {
      customers, windows, payments, ledger, nextRowId := map[], [], [], [], 0;
      customerLock, windowLock, procs := map[], map[], map[];
    }

    /** The INSERT of a payment; refused by a constraint, or given up while the customer's row is locked. */
    method CreatePayment(p: Payment) returns (ok: bool)
      requires Inv(View())
      modifies this
      ensures View() == Next(old(View()), Event.CreatePayment(p)) && Inv(View())
      ensures ok <==> PaymentAccepted(old(View()), p)
      ensures payments == if ok then old(payments) + [p] else old(payments)
    {
      NextKeepsInv(View(), Event.CreatePayment(p));
      hide Inv;
      ok := PaymentAccepted(View(), p);
      if ok {
        payments := payments + [p];
      }
    }

    // ---- Pauses ----

    method LetOthersRun(t: int, events: seq<Event>)
      requires Inv(View()) && t in procs && forall i :: 0 <= i < |events| ==> Foreign(events[i], t)
      modifies this
      ensures View() == Run(old(View()), events)
      ensures Inv(View()) && t in procs && procs[t] == old(procs[t])
    {
      RunKeepsInv(View(), events);
      ForeignRunSparesProc(View(), events, t);
      var s := Run(View(), events);
      customers, windows, payments, ledger, nextRowId := s.customers, s.windows, s.payments, s.ledger, s.nextRowId;
      customerLock, windowLock, procs := s.customerLock, s.windowLock, s.procs;
    }

    /** Waits, at most `patience` pauses long, until the next statement of `t` is not blocked. */
    method AwaitLock(t: int, env: Schedule, first: nat, patience: nat) returns (n: nat, ghost trace: seq<Event>)
      requires Inv(View()) && t in procs && Others(env, t)
      modifies this
      ensures View() == Run(old(View()), trace)
      ensures Inv(View()) && t in procs && procs[t] == old(procs[t])
    {
      n, trace := first + 1, env(first);
      LetOthersRun(t, env(first));
      while n < first + patience && Advance(View(), t).None?
        invariant View() == Run(old(View()), trace)
        invariant Inv(View()) && t in procs && procs[t] == old(procs[t])
      {
        RunAppend(old(View()), trace, env(n));
        trace := trace + env(n);
        LetOthersRun(t, env(n));
        n := n + 1;
      }
    }

    // ---- Statements ----

    /** BEGIN, and the checks a method makes before it. */
    method BeginTx(t: int, op: Op)
      requires Inv(View()) && t !in procs
      modifies this`procs
      ensures Inv(View()) && View() == Next(old(View()), Begin(t, op)) && procs == old(procs)[t := Start(op)]
    {
      hide Inv;
      NextKeepsInv(View(), Begin(t, op));
      procs := procs[t := Start(op)];
    }

    /** ROLLBACK. */
    method Rollback(t: int, error: Error)
      requires t in procs
      modifies this`customerLock, this`windowLock, this`procs
      ensures View() == Fail(old(View()), t, error)
      ensures t in procs && procs[t] == Done(Failure(old(procs[t]), error))
    {
      var o := Failure(procs[t], error);
      customerLock, windowLock := Unlock(customerLock, t), Unlock(windowLock, t);
      procs := procs[t := Done(o)];
    }

    /** The end of a context: whatever the transaction was doing is rolled back. */
    method GiveUp(t: int)
      requires Inv(View()) && t in procs && !procs[t].Done?
      modifies this
      ensures Inv(View()) && View() == Next(old(View()), Abort(t))
      ensures t in procs && procs[t] == Done(Failure(old(procs[t]), Aborted))
    {
      hide Inv;
      NextKeepsInv(View(), Abort(t));
      Rollback(t, Aborted);
    }

    method CommitTx(t: int, o: Outcome)
      requires t in procs
      modifies this`customerLock, this`windowLock, this`procs
      ensures View() == Finish(old(View()), t, o)
    {
      customerLock, windowLock := Unlock(customerLock, t), Unlock(windowLock, t);
      procs := procs[t := Done(o)];
    }

    /** SELECT balance ... FOR UPDATE; `blocked` when another transaction holds the row. */
    method SelectCustomerForUpdate(t: int) returns (blocked: bool)
      requires Inv(View()) && t in procs && procs[t].Apply? && procs[t].stage.Waiting?
      modifies this
      ensures Inv(View()) && View() == Next(old(View()), Step(t)) && t in procs
      ensures blocked ==> View() == old(View())
      ensures !blocked ==>
                procs[t] == Done(Failure(old(procs[t]), NotFound)) ||
                (procs[t].Apply? && procs[t].entry == old(procs[t].entry) && procs[t].stage.Locked?)
    {
      hide Inv;
      NextKeepsInv(View(), Step(t));
      var e := procs[t].entry;
      if e.customer !in customers || customers[e.customer].tenant != e.tenant {
        Rollback(t, NotFound);
      } else if e.customer in customerLock {
        return true;
      } else {
        customerLock := customerLock[e.customer := t];
        procs := procs[t := Apply(e, Locked(customers[e.customer].balance))];
      }
      return false;
    }

    /** The overdraft check and UPDATE customers SET balance = balance + delta. */
    method UpdateBalance(t: int)
      requires Inv(View()) && t in procs && procs[t].Apply? && procs[t].stage.Locked?
      modifies this
      ensures Inv(View()) && View() == Next(old(View()), Step(t)) && t in procs
      ensures if old(procs[t].stage.seen) + old(procs[t].entry.delta) < 0
              then procs[t] == Done(Failure(old(procs[t]), Insufficient))
              else procs[t].Apply? && procs[t].entry == old(procs[t].entry) && procs[t].stage.Updated?
    {
      hide Inv;
      NextKeepsInv(View(), Step(t));
      LockedFacts(View(), t);
      var e, seen := procs[t].entry, procs[t].stage.seen;
      if seen + e.delta < 0 {
        Rollback(t, Insufficient);
      } else {
        procs := procs[t := Apply(e, Updated(customers[e.customer].balance + e.delta, seen + e.delta))];
      }
    }

    /** INSERT INTO wallet_transactions. */
    method InsertWalletTx(t: int)
      requires Inv(View()) && t in procs && procs[t].Apply? && procs[t].stage.Updated?
      modifies this
      ensures Inv(View()) && View() == Next(old(View()), Step(t)) && t in procs
      ensures procs[t].Apply? && procs[t].entry == old(procs[t].entry) && procs[t].stage.Inserted?
    {
      hide Inv;
      NextKeepsInv(View(), Step(t));
      var e, stage := procs[t].entry, procs[t].stage;
      var row := Row(nextRowId, e.tenant, e.customer, e.kind, e.delta, stage.after, e.ref);
      nextRowId := nextRowId + 1;
      procs := procs[t := Apply(e, Inserted(stage.pending, row))];
    }

    /** COMMIT of lockAndApply and insertWalletTx, and for a bill of markWindowPaidTx. */
    method CommitEntry(t: int)
      requires Inv(View()) && t in procs && procs[t].Apply?
      requires procs[t].stage.Marked? || (procs[t].stage.Inserted? && !procs[t].entry.ref.WindowRef?)
      modifies this
      ensures Inv(View()) && View() == Next(old(View()), Step(t)) && t in procs && procs[t] == Done(Committed)
      ensures var e := old(procs[t].entry);
              && |ledger| == |old(ledger)| + 1 && ledger[..|old(ledger)|] == old(ledger)
              && var row := ledger[|old(ledger)|];
                 && row == Row(row.id, e.tenant, e.customer, e.kind, e.delta, row.balanceAfter, e.ref)
                 && e.customer in customers && row.balanceAfter == customers[e.customer].balance
      ensures var e := old(procs[t].entry);
              e.kind == BillPayment ==>
                e.ref.WindowRef? && e.ref.window < |windows| && e == BillEntry(windows[e.ref.window], e.ref.window) &&
                windows == MarkPaid(old(windows), e.ref.window)
    {
      hide Inv;
      NextKeepsInv(View(), Step(t));
      LockedFacts(View(), t);
      var e, stage := procs[t].entry, procs[t].stage;
      customers := customers[e.customer := customers[e.customer].(balance := stage.pending)];
      ledger := ledger + [stage.row];
      if e.ref.WindowRef? {
        windows := MarkPaid(windows, e.ref.window);
      }
      CommitTx(t, Committed);
    }

    /** UPDATE billing_windows SET status='paid' inside a bill payment. */
    method MarkWindowPaidTx(t: int)
      requires Inv(View()) && t in procs && procs[t].Apply? && procs[t].stage.Inserted?
      requires procs[t].entry.kind == BillPayment
      modifies this
      ensures Inv(View()) && View() == Next(old(View()), Step(t)) && t in procs
      ensures procs[t].Apply? && procs[t].entry == old(procs[t].entry) && procs[t].stage.Marked?
    {
      hide Inv;
      NextKeepsInv(View(), Step(t));
      LockedFacts(View(), t);
      var e, stage := procs[t].entry, procs[t].stage;
      procs := procs[t := Apply(e, Marked(stage.pending, stage.row))];
    }

    /** SELECT customer_id, amount ... WHERE status <> 'paid' FOR UPDATE. */
    method SelectWindowForUpdate(t: int) returns (blocked: bool)
      requires Inv(View()) && t in procs && procs[t].BillStart?
      modifies this
      ensures Inv(View()) && View() == Next(old(View()), Step(t)) && t in procs
      ensures blocked ==> View() == old(View())
      ensures !blocked ==>
                procs[t] == Done(Rejected(NotFound)) ||
                (var w := old(procs[t].window);
                 0 <= w < |windows| && windows[w].tenant == old(procs[t].tenant) &&
                 procs[t] == Apply(BillEntry(windows[w], w), Waiting))
    {
      hide Inv;
      NextKeepsInv(View(), Step(t));
      var tenant, w := procs[t].tenant, procs[t].window;
      if w < 0 || w >= |windows| || windows[w].tenant != tenant || windows[w].status == Paid {
        Rollback(t, NotFound);
      } else if w in windowLock {
        return true;
      } else {
        windowLock := windowLock[w := t];
        procs := procs[t := Apply(BillEntry(windows[w], w), Waiting)];
      }
      return false;
    }

    /** UPDATE billing_windows SET status='paid' WHERE tenant_id=$1 AND id=$2, outside a bill payment. */
    method UpdateWindowPaid(t: int) returns (blocked: bool)
      requires Inv(View()) && t in procs && procs[t].ManualStart?
      modifies this
      ensures Inv(View()) && View() == Next(old(View()), Step(t)) && t in procs
      ensures blocked ==> View() == old(View())
      ensures !blocked ==>
                procs[t] == Done(Rejected(NotFound)) ||
                (var w := old(procs[t].window);
                 0 <= w < |windows| && windows[w].tenant == old(procs[t].tenant) && procs[t] == ManualMarked(w))
    {
      hide Inv;
      NextKeepsInv(View(), Step(t));
      var tenant, w := procs[t].tenant, procs[t].window;
      if w < 0 || w >= |windows| || windows[w].tenant != tenant {
        Rollback(t, NotFound);
      } else if w in windowLock {
        return true;
      } else {
        windowLock := windowLock[w := t];
        procs := procs[t := ManualMarked(w)];
      }
      return false;
    }

    /** COMMIT of a manual payment. */
    method CommitManual(t: int)
      requires Inv(View()) && t in procs && procs[t].ManualMarked?
      modifies this
      ensures Inv(View()) && View() == Next(old(View()), Step(t)) && t in procs && procs[t] == Done(Committed)
      ensures old(procs[t].marked) < |windows| && windows == MarkPaid(old(windows), old(procs[t].marked))
    {
      hide Inv;
      NextKeepsInv(View(), Step(t));
      MarkedFacts(View(), t);
      windows := MarkPaid(windows, procs[t].marked);
      CommitTx(t, Committed);
    }

    /** PaymentByRefGlobal and the early return for a settled payment. */
    method ReadPayment(t: int)
      requires Inv(View()) && t in procs && procs[t].SettleRead?
      modifies this
      ensures Inv(View()) && View() == Next(old(View()), Step(t)) && t in procs
      ensures procs[t] == Done(Rejected(NotFound)) ||
              exists pid: nat ::
                && pid < |payments| && payments[pid].externalRef == old(procs[t].externalRef)
                && procs[t] == if payments[pid].status == Succeeded then Done(AlreadySettled)
                               else SettleUpdate(pid, payments[pid])
    {
      hide Inv;
      NextKeepsInv(View(), Step(t));
      var found := PaymentByRef(payments, procs[t].externalRef);
      if found.None? {
        Rollback(t, NotFound);
      } else if payments[found.value].status == Succeeded {
        CommitTx(t, AlreadySettled);
      } else {
        procs := procs[t := SettleUpdate(found.value, payments[found.value])];
      }
    }

    /** UPDATE payments SET status='succeeded' WHERE id=$2 AND status IN ('pending','failed'). */
    method UpdatePaymentStatus(t: int)
      requires Inv(View()) && t in procs && procs[t].SettleUpdate?
      modifies this
      ensures Inv(View()) && View() == Next(old(View()), Step(t)) && t in procs
      ensures procs[t] == Done(Rejected(NotFound)) ||
              (var pid := old(procs[t].payment);
               && pid < |payments| && payments[pid] == old(procs[t].seen).(status := Succeeded)
               && procs[t] == if !payments[pid].CreditsWallet() then Done(Committed)
                              else if payments[pid].net <= 0 then Done(Uncredited(pid))
                              else Apply(CreditEntry(pid, payments[pid]), Waiting))
    {
      hide Inv, LiveClash;
      NextKeepsInv(View(), Step(t));
      SettleFacts(View(), t);
      var pid, seen := procs[t].payment, procs[t].seen;
      if payments[pid].status !in {Pending, Failed} || LiveClash(payments, payments[pid], pid) {
        Rollback(t, NotFound);
      } else {
        payments := payments[pid := payments[pid].(status := Succeeded)];
        if !seen.CreditsWallet() {
          CommitTx(t, Committed);
        } else if seen.net <= 0 {
          CommitTx(t, Uncredited(pid));
        } else {
          procs := procs[t := Apply(CreditEntry(pid, seen), Waiting)];
        }
      }
    }

    // ---- The store's methods ----

    /** lockAndApply and insertWalletTx, with the pauses between their statements. */
    method LockAndApply(t: int, env: Schedule, first: nat, patience: nat) returns (n: nat, ghost trace: seq<Event>)
      requires Inv(View()) && t in procs && Others(env, t) && procs[t].Apply? && procs[t].stage.Waiting?
      modifies this
      ensures View() == Run(old(View()), trace) && Inv(View()) && t in procs
      ensures procs[t] == Done(Failure(old(procs[t]), NotFound)) ||
              procs[t] == Done(Failure(old(procs[t]), Insufficient)) ||
              procs[t] == Done(Failure(old(procs[t]), Aborted)) ||
              (procs[t].Apply? && procs[t].stage.Inserted? && procs[t].entry == old(procs[t].entry))
    {
      hide Inv, Next, Advance;
      n, trace := AwaitLock(t, env, first, patience);
      var blocked := SelectCustomerForUpdate(t);
      RunSnoc(old(View()), trace, Step(t));
      trace := trace + [Step(t)];
      if blocked {
        GiveUp(t);
        RunSnoc(old(View()), trace, Abort(t));
        trace := trace + [Abort(t)];
        return;
      }
      if procs[t].Done? {
        return;
      }
      trace := Pause(old(View()), t, env, n, trace);
      UpdateBalance(t);
      RunSnoc(old(View()), trace, Step(t));
      trace := trace + [Step(t)];
      if procs[t].Done? {
        return;
      }
      trace := Pause(old(View()), t, env, n + 1, trace);
      InsertWalletTx(t);
      RunSnoc(old(View()), trace, Step(t));
      trace := trace + [Step(t)];
      trace := Pause(old(View()), t, env, n + 2, trace);
      n := n + 3;
    }

    /** A pause in the middle of a method that started in `start` and has come as far as `trace`. */
    method Pause(ghost start: State, t: int, env: Schedule, n: nat, ghost trace: seq<Event>)
      returns (ghost trace': seq<Event>)
      requires Inv(View()) && t in procs && Others(env, t) && View() == Run(start, trace)
      modifies this
      ensures View() == Run(start, trace') && trace <= trace'
      ensures Inv(View()) && t in procs && procs[t] == old(procs[t])
    {
      RunAppend(start, trace, env(n));
      trace' := trace + env(n);
      LetOthersRun(t, env(n));
    }

    /** adjustBalance, for a started manual adjustment or a started credit. */
    method AdjustBalance(t: int, env: Schedule, first: nat, patience: nat) returns (ghost trace: seq<Event>)
      requires Inv(View()) && t in procs && Others(env, t)
      requires procs[t].Apply? && procs[t].stage.Waiting? && !procs[t].entry.ref.WindowRef?
      modifies this
      ensures View() == Run(old(View()), trace) && Inv(View()) && t in procs
      ensures procs[t] == Done(Committed) || procs[t] == Done(Failure(old(procs[t]), NotFound)) ||
              procs[t] == Done(Failure(old(procs[t]), Insufficient)) ||
              procs[t] == Done(Failure(old(procs[t]), Aborted))
      ensures procs[t] == Done(Committed) ==> Books(old(View()), View(), old(procs[t].entry))
    {
      hide Inv, Next, Advance;
      var n;
      n, trace := LockAndApply(t, env, first, patience);
      if procs[t].Done? {
        assert Failure(old(procs[t]), NotFound) != Committed && Failure(old(procs[t]), Aborted) != Committed;
        return;
      }
      HistoryIsFinal(old(View()), trace);
      ghost var k := |ledger|;
      CommitEntry(t);
      RunSnoc(old(View()), trace, Step(t));
      trace := trace + [Step(t)];
      assert View().ledger[k].ref == old(procs[t].entry.ref);
    }

    /** AdjustWallet: the whole manual correction. */
    method AdjustWallet(t: int, tenant: int, customer: int, delta: int, env: Schedule, patience: nat)
      returns (outcome: Outcome, ghost trace: seq<Event>)
      requires Inv(View()) && t !in procs && Others(env, t)
      modifies this
      ensures View() == Run(old(View()), trace) && Inv(View()) && t in procs && procs[t] == Done(outcome)
      ensures outcome == Committed ==>
                delta != 0 && Books(old(View()), View(), Entry(tenant, customer, Adjustment, delta, NoRef))
      ensures outcome != Committed ==> outcome.Rejected?
      ensures outcome == Rejected(BadAmount) <==> delta == 0
    {
      hide Inv, Next, Advance;
      BeginTx(t, Adjust(tenant, customer, delta));
      RunSnoc(old(View()), [], Begin(t, Adjust(tenant, customer, delta)));
      trace := [] + [Begin(t, Adjust(tenant, customer, delta))];
      if !procs[t].Done? {
        ghost var rest := AdjustBalance(t, env, 0, patience);
        RunAppend(old(View()), trace, rest);
        trace := trace + rest;
      }
      outcome := procs[t].outcome;
    }

    /** DebitWalletForBillByWindow: pays a window from its customer's wallet. */
    method DebitWalletForBillByWindow(t: int, tenant: int, window: int, env: Schedule, patience: nat)
      returns (outcome: Outcome, ghost trace: seq<Event>)
      requires Inv(View()) && t !in procs && Others(env, t)
      modifies this
      ensures View() == Run(old(View()), trace) && Inv(View()) && t in procs && procs[t] == Done(outcome)
      ensures outcome == Committed ==>
                && 0 <= window < |windows| && windows[window].tenant == tenant && windows[window].status == Paid
                && Books(old(View()), View(), BillEntry(windows[window], window))
      ensures outcome != Committed ==> outcome.Rejected? && outcome.error in {NotFound, Insufficient, Aborted}
    {
      hide Inv, Next, Advance;
      BeginTx(t, PayFromWallet(tenant, window));
      RunSnoc(old(View()), [], Begin(t, PayFromWallet(tenant, window)));
      trace := [] + [Begin(t, PayFromWallet(tenant, window))];
      var n;
      ghost var rest;
      n, rest := AwaitLock(t, env, 0, patience);
      RunAppend(old(View()), trace, rest);
      trace := trace + rest;
      var blocked := SelectWindowForUpdate(t);
      RunSnoc(old(View()), trace, Step(t));
      trace := trace + [Step(t)];
      if blocked {
        GiveUp(t);
        RunSnoc(old(View()), trace, Abort(t));
        trace := trace + [Abort(t)];
      } else if !procs[t].Done? {
        ghost var more := PayLockedWindow(t, env, n, patience, window);
        HistoryIsFinal(old(View()), trace);
        RunAppend(old(View()), trace, more);
        trace := trace + more;
      }
      outcome := procs[t].outcome;
    }

    /** The part of DebitWalletForBillByWindow that runs once the window row is locked. */
    method PayLockedWindow(t: int, env: Schedule, first: nat, patience: nat, ghost window: nat)
      returns (ghost trace: seq<Event>)
      requires Inv(View()) && t in procs && Others(env, t)
      requires window < |windows| && procs[t] == Apply(BillEntry(windows[window], window), Waiting)
      modifies this
      ensures View() == Run(old(View()), trace) && Inv(View()) && t in procs
      ensures procs[t] == Done(Committed) || procs[t] == Done(Rejected(NotFound)) ||
              procs[t] == Done(Rejected(Insufficient)) || procs[t] == Done(Rejected(Aborted))
      ensures procs[t] == Done(Committed) ==>
                && window < |windows| && windows[window].status == Paid
                && windows[window].tenant == old(windows[window].tenant)
                && Books(old(View()), View(), BillEntry(windows[window], window))
    {
      hide Inv, Next, Advance;
      ghost var e := procs[t].entry;
      var n;
      n, trace := LockAndApply(t, env, first, patience);
      if procs[t].Done? {
        return;
      }
      MarkWindowPaidTx(t);
      RunSnoc(old(View()), trace, Step(t));
      trace := trace + [Step(t)];
      trace := Pause(old(View()), t, env, n, trace);
      HistoryIsFinal(old(View()), trace);
      ghost var k := |ledger|;
      CommitEntry(t);
      RunSnoc(old(View()), trace, Step(t));
      trace := trace + [Step(t)];
      assert View().ledger[k].ref == e.ref;
    }

    /** MarkWindowPaid: the manual payment, which no wallet row accompanies. */
    method MarkWindowPaid(t: int, tenant: int, window: int, env: Schedule, patience: nat)
      returns (outcome: Outcome, ghost trace: seq<Event>)
      requires Inv(View()) && t !in procs && Others(env, t)
      modifies this
      ensures View() == Run(old(View()), trace) && Inv(View()) && t in procs && procs[t] == Done(outcome)
      ensures outcome == Committed ==>
                0 <= window < |windows| && windows[window].tenant == tenant && windows[window].status == Paid
      ensures outcome != Committed ==> outcome.Rejected? && outcome.error in {NotFound, Aborted}
    {
      hide Inv, Next, Advance;
      BeginTx(t, PayManually(tenant, window));
      RunSnoc(old(View()), [], Begin(t, PayManually(tenant, window)));
      trace := [] + [Begin(t, PayManually(tenant, window))];
      var n;
      ghost var rest;
      n, rest := AwaitLock(t, env, 0, patience);
      RunAppend(old(View()), trace, rest);
      trace := trace + rest;
      var blocked := UpdateWindowPaid(t);
      RunSnoc(old(View()), trace, Step(t));
      trace := trace + [Step(t)];
      if blocked {
        GiveUp(t);
        RunSnoc(old(View()), trace, Abort(t));
        trace := trace + [Abort(t)];
      } else if !procs[t].Done? {
        label marked:
        ghost var before := trace;
        trace := Pause(old(View()), t, env, n, trace);
        WindowsKeepTenant(old(View()), before, trace, window);
        CommitManual(t);
        RunSnoc(old(View()), trace, Step(t));
        trace := trace + [Step(t)];
      }
      outcome := procs[t].outcome;
    }

    /** CreditWallet, for a payment whose status update has gone through. */
    method CreditClaimed(t: int, env: Schedule, patience: nat, ghost pid: nat) returns (ghost trace: seq<Event>)
      requires Inv(View()) && t in procs && Others(env, t)
      requires pid < |payments| && payments[pid].SettledTopUp()
      requires procs[t] == Apply(CreditEntry(pid, payments[pid]), Waiting)
      modifies this
      ensures View() == Run(old(View()), trace) && Inv(View()) && t in procs
      ensures pid < |payments| && payments[pid] == old(payments)[pid] && |ledger| >= |old(ledger)|
      ensures procs[t] == Done(Uncredited(pid)) ||
              (procs[t] == Done(Committed) && Books(old(View()), View(), CreditEntry(pid, payments[pid])))
    {
      hide Inv, Next, Advance, Run;
      trace := AdjustBalance(t, env, 1, patience);
      HistoryIsFinal(old(View()), trace);
    }

    /** Settle: read the payment, update its status, credit the wallet. */
    method SettlePayment(t: int, externalRef: string, env: Schedule, patience: nat)
      returns (outcome: Outcome, ghost trace: seq<Event>)
      requires Inv(View()) && t !in procs && Others(env, t)
      modifies this
      ensures View() == Run(old(View()), trace) && Inv(View()) && t in procs && procs[t] == Done(outcome)
      ensures !outcome.Rejected? ==> SettledAs(old(View()), View(), externalRef, outcome)
      ensures outcome.Rejected? ==> outcome == Rejected(NotFound)
    {
      hide Inv, Next, Advance, Run;
      RunOfNone(View());
      BeginTx(t, Settle(externalRef));
      RunSnoc(old(View()), [], Begin(t, Settle(externalRef)));
      trace := [] + [Begin(t, Settle(externalRef))];
      ReadPayment(t);
      RunSnoc(old(View()), trace, Step(t));
      trace := trace + [Step(t)];
      if !procs[t].Done? {
        ghost var pid := procs[t].payment;
        trace := Pause(old(View()), t, env, 0, trace);
        HistoryIsFinal(old(View()), trace);
        UpdatePaymentStatus(t);
        RunSnoc(old(View()), trace, Step(t));
        trace := trace + [Step(t)];
        if !procs[t].Done? {
          HistoryIsFinal(old(View()), trace);
          ghost var rest := CreditClaimed(t, env, patience, pid);
          RunAppend(old(View()), trace, rest);
          trace := trace + rest;
        }
      }
      outcome := procs[t].outcome;
    }
  }

  /** The payment with that reference has succeeded, and a committed top-up is in the ledger. */
  ghost predicate SettledAs(s: State, s': State, externalRef: string, outcome: Outcome) {
    exists pid: nat ::
      && pid < |s'.payments| && s'.payments[pid].externalRef == externalRef && s'.payments[pid].status == Succeeded
      && (outcome == Committed && s'.payments[pid].CreditsWallet() ==>
            Books(s, s', CreditEntry(pid, s'.payments[pid])))
      && (outcome.Uncredited? ==> outcome.payment == pid && s'.payments[pid].CreditsWallet())
  }

  lemma RunOfNone(s: State)
    ensures Run(s, []) == s
  {
  }

  lemma RunSnoc(start: State, trace: seq<Event>, ev: Event)
    ensures Run(start, trace + [ev]) == Next(Run(start, trace), ev)
  {
    RunAppend(start, trace, [ev]);
    assert [ev][1..] == [];
  }

  /** Since `s`, a row for entry `e` has entered the ledger. */
  ghost predicate Books(s: State, s': State, e: Entry) {
    exists i :: |s.ledger| <= i < |s'.ledger| &&
      s'.ledger[i] == Row(s'.ledger[i].id, e.tenant, e.customer, e.kind, e.delta, s'.ledger[i].balanceAfter, e.ref)
  }

  /** What a transaction that holds its customer row may rely on. */
  lemma LockedFacts(s: State, t: int)
    requires Inv(s) && t in s.procs && s.procs[t].Apply? && !s.procs[t].stage.Waiting?
    ensures var e, stage := s.procs[t].entry, s.procs[t].stage;
            && CustomerExists(s, e.tenant, e.customer)
            && (e.ref.WindowRef? <==> e.kind == BillPayment)
            && (e.ref.WindowRef? ==>
                  e.ref.window < |s.windows| && e == BillEntry(s.windows[e.ref.window], e.ref.window))
            && (stage.Inserted? || stage.Marked? ==>
                  stage.row == Row(stage.row.id, e.tenant, e.customer, e.kind, e.delta, stage.pending, e.ref))
  {
    assert ProcOk(s, s.procs[t]);
  }

  lemma MarkedFacts(s: State, t: int)
    requires Inv(s) && t in s.procs && s.procs[t].ManualMarked?
    ensures s.procs[t].marked < |s.windows|
  {
    assert ProcOk(s, s.procs[t]);
  }

  lemma SettleFacts(s: State, t: int)
    requires Inv(s) && t in s.procs && s.procs[t].SettleUpdate?
    ensures var p := s.procs[t]; p.payment < |s.payments| && p.seen == s.payments[p.payment].(status := p.seen.status)
  {
    assert ProcOk(s, s.procs[t]);
  }

  lemma WindowsKeepTenant(start: State, before: seq<Event>, after: seq<Event>, window: nat)
    requires Inv(start) && window < |Run(start, before).windows| && before <= after
    ensures window < |Run(start, after).windows|
    ensures Run(start, after).windows[window].tenant == Run(start, before).windows[window].tenant
  {
    var rest := after[|before|..];
    assert after == before + rest;
    RunAppend(start, before, rest);
    RunKeepsInv(start, before);
    HistoryIsFinal(Run(start, before), rest);
  }
}
