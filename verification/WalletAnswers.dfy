/**
 What the wallet operations answer and leave when no other transaction holds
 their rows, from their start to their end.
 */
module WalletAnswers {
  import opened Wrappers
  import opened WalletTables
  import opened WalletSteps
  import opened WalletInvariant
  import opened WalletStore
  import opened WalletOutcomes

  /** The operation and six statements, the most that any takes; a finished transaction takes no more. */
  function Alone(t: int, op: Op): seq<Event> {
    [Begin(t, op), Step(t), Step(t), Step(t), Step(t), Step(t), Step(t)]
  }

  function Steps(s: State, t: int, n: nat): State
    decreases n
  {
    if n == 0 then s else Steps(Next(s, Step(t)), t, n - 1)
  }

  lemma RunAlone(s: State, t: int, op: Op)
    ensures Run(s, Alone(t, op)) == Steps(Next(s, Begin(t, op)), t, 6)
  {
    hide Next, Run, Steps;
    var first, second := [Begin(t, op), Step(t), Step(t)], [Step(t), Step(t), Step(t), Step(t)];
    RunThree(s, first[0], first[1], first[2]);
    RunFour(Run(s, first), second);
    RunAppend(s, first, second);
    assert first + second == Alone(t, op);
    StepsTwo(Next(s, Begin(t, op)), t, 4);
    StepsTwo(Run(s, first), t, 2);
    StepsTwo(Next(Next(Run(s, first), Step(t)), Step(t)), t, 0);
    StepsNone(Run(s, first + second), t);
  }

  lemma Begins(s: State, t: int, op: Op)
    requires t !in s.procs
    ensures Next(s, Begin(t, op)) == Goto(s, t, Start(op))
  {
  }

  lemma StepsNone(s: State, t: int)
    ensures Steps(s, t, 0) == s
  {
  }

  lemma StepsTwo(s: State, t: int, n: nat)
    ensures Steps(s, t, n + 2) == Steps(Next(Next(s, Step(t)), Step(t)), t, n)
  {
    hide Next;
    assert Steps(s, t, n + 2) == Steps(Next(s, Step(t)), t, n + 1);
  }

  /** A statement, known by what it leaves, and the rest. */
  lemma StepTo(s: State, s': State, t: int, n: nat)
    requires Next(s, Step(t)) == s'
    ensures Steps(s, t, n + 1) == Steps(s', t, n)
  {
    hide Next;
  }

  lemma {:induction false} StepsDone(s: State, t: int, n: nat)
    requires t in s.procs && s.procs[t].Done?
    ensures Steps(s, t, n) == s
    decreases n
  {
    if n > 0 {
      StepsDone(s, t, n - 1);
    }
  }

  /** The transaction ended with an outcome, holds no row and left these tables. */
  ghost predicate EndsWith(s: State, s': State, t: int, outcome: Outcome, customers: map<int, Customer>,
                           windows: seq<Window>, payments: seq<Payment>, ledger: seq<Row>) {
    && s'.procs == s.procs[t := Done(outcome)]
    && s'.customerLock == s.customerLock && s'.windowLock == s.windowLock
    && s'.customers == customers && s'.windows == windows && s'.payments == payments && s'.ledger == ledger
  }

  /** The same with the tables untouched. */
  ghost predicate Refuses(s: State, s': State, t: int, outcome: Outcome) {
    EndsWith(s, s', t, outcome, s.customers, s.windows, s.payments, s.ledger)
  }

  lemma UnlockNothing<K>(locks: map<K, int>, t: int)
    requires forall k :: k in locks ==> locks[k] != t
    ensures Unlock(locks, t) == locks
    ensures forall k :: k !in locks ==> Unlock(locks[k := t], t) == locks
  {
    forall k | k !in locks
      ensures Unlock(locks[k := t], t) == locks
    {
      assert forall j :: j in Unlock(locks[k := t], t) <==> j in locks;
    }
  }

  /** A new transaction holds no row. */
  lemma NothingHeld(s: State, t: int)
    requires LocksOk(s) && t !in s.procs
    ensures Unlock(s.customerLock, t) == s.customerLock && Unlock(s.windowLock, t) == s.windowLock
    ensures forall c :: c !in s.customerLock ==> Unlock(s.customerLock[c := t], t) == s.customerLock
    ensures forall w: nat :: w !in s.windowLock ==> Unlock(s.windowLock[w := t], t) == s.windowLock
  {
    assert forall c :: c in s.customerLock ==> s.customerLock[c] in s.procs;
    assert forall w :: w in s.windowLock ==> s.windowLock[w] in s.procs;
    UnlockNothing(s.customerLock, t);
    UnlockNothing(s.windowLock, t);
  }

  // ---- Lock, check, update, insert and commit ----

  /** Three statements: refused, or with the row inserted and to be committed. */
  lemma EntryInserts(s: State, t: int, e: Entry, n: nat)
    requires t in s.procs && s.procs[t] == Apply(e, Waiting)
    requires CustomerExists(s, e.tenant, e.customer) && e.customer !in s.customerLock
    ensures var after := s.customers[e.customer].balance + e.delta;
            var locked := s.(customerLock := s.customerLock[e.customer := t]);
            var row := Row(s.nextRowId, e.tenant, e.customer, e.kind, e.delta, after, e.ref);
            Steps(s, t, n + 3) ==
            if after < 0 then Finish(locked, t, Failure(Apply(e, Waiting), Insufficient))
            else Steps(Goto(locked, t, Apply(e, Inserted(after, row))).(nextRowId := s.nextRowId + 1), t, n)
  {
    hide Unlock, Steps;
    var after := s.customers[e.customer].balance + e.delta;
    var locked := s.(customerLock := s.customerLock[e.customer := t]);
    var row := Row(s.nextRowId, e.tenant, e.customer, e.kind, e.delta, after, e.ref);
    var s1 := Goto(locked, t, Apply(e, Locked(s.customers[e.customer].balance)));
    StepTo(s, s1, t, n + 2);
    if after < 0 {
      var refused := Finish(locked, t, Failure(Apply(e, Waiting), Insufficient));
      assert Fail(s1, t, Insufficient).procs == refused.procs;
      StepTo(s1, refused, t, n + 1);
      StepsDone(refused, t, n + 1);
    } else {
      var s2 := Goto(s1, t, Apply(e, Updated(after, after)));
      StepTo(s1, s2, t, n + 1);
      var s3 := Goto(locked, t, Apply(e, Inserted(after, row))).(nextRowId := s.nextRowId + 1);
      assert s3.procs == s2.procs[t := Apply(e, Inserted(after, row))];
      StepTo(s2, s3, t, n);
    }
  }

  /** The whole of an adjustment or a credit, from waiting for the customer on. */
  lemma EntryRuns(s: State, t: int, e: Entry, n: nat)
    requires LocksOk(s) && t !in s.procs && e.customer !in s.customerLock && !e.ref.WindowRef?
    requires CustomerExists(s, e.tenant, e.customer)
    ensures var s' := Steps(Goto(s, t, Apply(e, Waiting)), t, n + 4);
            var after := s.customers[e.customer].balance + e.delta;
            if after < 0 then Refuses(s, s', t, Failure(Apply(e, Waiting), Insufficient))
            else EndsWith(s, s', t, Committed,
                          s.customers[e.customer := s.customers[e.customer].(balance := after)], s.windows, s.payments,
                          s.ledger + [Row(s.nextRowId, e.tenant, e.customer, e.kind, e.delta, after, e.ref)])
  {
    hide Steps, Unlock, Failure;
    NothingHeld(s, t);
    hide LocksOk;
    var s1 := Goto(s, t, Apply(e, Waiting));
    EntryInserts(s1, t, e, n + 1);
    var after := s.customers[e.customer].balance + e.delta;
    if after >= 0 {
      var row := Row(s.nextRowId, e.tenant, e.customer, e.kind, e.delta, after, e.ref);
      var s4 := Goto(s1.(customerLock := s.customerLock[e.customer := t]), t, Apply(e, Inserted(after, row)))
                  .(nextRowId := s.nextRowId + 1);
      var s5 := Commit(s4, t, e, after, row);
      StepTo(s4, s5, t, n);
      StepsDone(s5, t, n);
    }
  }

  // ---- Manual corrections ----

  /**
   A correction of an unlocked balance: refused when zero, for an unknown
   customer or when it would overdraw, and otherwise committed with its row.
   */
  lemma AdjustAnswer(s: State, t: int, tenant: int, customer: int, delta: int)
    requires Inv(s) && t !in s.procs && customer !in s.customerLock
    ensures var s' := Run(s, Alone(t, Adjust(tenant, customer, delta)));
            if delta == 0 then Refuses(s, s', t, Rejected(BadAmount))
            else if !(customer in s.customers && s.customers[customer].tenant == tenant)
            then Refuses(s, s', t, Rejected(NotFound))
            else if s.customers[customer].balance + delta < 0 then Refuses(s, s', t, Rejected(Insufficient))
            else
              var after := s.customers[customer].balance + delta;
              EndsWith(s, s', t, Committed, s.customers[customer := s.customers[customer].(balance := after)],
                       s.windows, s.payments,
                       s.ledger + [Row(s.nextRowId, tenant, customer, Adjustment, delta, after, NoRef)])
  {
    hide Steps, Run, Next, Goto, Unlock, Refuses, EndsWith;
    RunAlone(s, t, Adjust(tenant, customer, delta));
    Begins(s, t, Adjust(tenant, customer, delta));
    assert LocksOk(s);
    hide Inv, LocksOk;
    if delta == 0 {
      FailsAtOnce(s, t, BadAmount);
    } else if !CustomerExists(s, tenant, customer) {
      AdjustFindsNone(s, t, Entry(tenant, customer, Adjustment, delta, NoRef));
    } else {
      EntryRuns(s, t, Entry(tenant, customer, Adjustment, delta, NoRef), 2);
    }
  }

  lemma FailsAtOnce(s: State, t: int, error: Error)
    requires t !in s.procs
    ensures Refuses(s, Steps(Goto(s, t, Done(Rejected(error))), t, 6), t, Rejected(error))
  {
    hide Steps;
    StepsDone(Goto(s, t, Done(Rejected(error))), t, 6);
  }

  lemma AdjustFindsNone(s: State, t: int, e: Entry)
    requires LocksOk(s) && t !in s.procs && !CustomerExists(s, e.tenant, e.customer) && e.ref.NoRef?
    ensures Refuses(s, Steps(Goto(s, t, Apply(e, Waiting)), t, 6), t, Rejected(NotFound))
  {
    hide Steps, Unlock;
    NothingHeld(s, t);
    hide LocksOk;
    NotFoundAtOnce(s, Goto(s, t, Apply(e, Waiting)), t);
  }

  /** A first statement that finds nothing. */
  lemma NotFoundAtOnce(s: State, s1: State, t: int)
    requires t !in s.procs && t in s1.procs && s1 == Goto(s, t, s1.procs[t])
    requires CreditOf(s1.procs[t]).None? && Next(s1, Step(t)) == Fail(s1, t, NotFound)
    requires Unlock(s.customerLock, t) == s.customerLock && Unlock(s.windowLock, t) == s.windowLock
    ensures Refuses(s, Steps(s1, t, 6), t, Rejected(NotFound))
  {
    hide Next, Steps, Unlock;
    var s2 := Fail(s1, t, NotFound);
    StepTo(s1, s2, t, 5);
    StepsDone(s2, t, 5);
    assert s2.procs == s.procs[t := Done(Rejected(NotFound))];
  }

  // ---- Windows paid from the wallet ----

  /**
   Paying an unlocked window from an unlocked balance: refused when it is
   unknown or paid or when the balance is too low, and otherwise committed with
   its row and the window paid.
   */
  lemma BillAnswer(s: State, t: int, tenant: int, w: nat)
    requires Inv(s) && t !in s.procs && w !in s.windowLock
    requires w < |s.windows| ==> s.windows[w].customer !in s.customerLock
    ensures var s' := Run(s, Alone(t, PayFromWallet(tenant, w)));
            if !(w < |s.windows| && s.windows[w].tenant == tenant) || s.windows[w].status == Paid
            then Refuses(s, s', t, Rejected(NotFound))
            else
              var c, amount := s.windows[w].customer, s.windows[w].amount;
              c in s.customers &&
              if s.customers[c].balance < amount then Refuses(s, s', t, Rejected(Insufficient))
              else
                var after := s.customers[c].balance - amount;
                EndsWith(s, s', t, Committed, s.customers[c := s.customers[c].(balance := after)],
                         s.windows[w := s.windows[w].(status := Paid)], s.payments,
                         s.ledger + [Row(s.nextRowId, tenant, c, BillPayment, -amount, after, WindowRef(w))])
  {
    hide Steps, Run, Next, Goto, Unlock, Refuses, EndsWith;
    RunAlone(s, t, PayFromWallet(tenant, w));
    Begins(s, t, PayFromWallet(tenant, w));
    assert LocksOk(s) && WindowsOk(s);
    hide Inv, LocksOk;
    if !WindowExists(s, tenant, w) || s.windows[w].status == Paid {
      BillFindsNone(s, t, tenant, w);
    } else {
      assert CustomerExists(s, s.windows[w].tenant, s.windows[w].customer);
      hide WindowsOk;
      BillRuns(s, t, tenant, w);
    }
  }

  lemma BillFindsNone(s: State, t: int, tenant: int, w: int)
    requires LocksOk(s) && t !in s.procs && (!WindowExists(s, tenant, w) || s.windows[w].status == Paid)
    ensures Refuses(s, Steps(Goto(s, t, BillStart(tenant, w)), t, 6), t, Rejected(NotFound))
  {
    hide Steps, Unlock;
    NothingHeld(s, t);
    hide LocksOk;
    NotFoundAtOnce(s, Goto(s, t, BillStart(tenant, w)), t);
  }

  lemma BillRuns(s: State, t: int, tenant: int, w: nat)
    requires LocksOk(s) && t !in s.procs && w !in s.windowLock && WindowExists(s, tenant, w)
    requires s.windows[w].status != Paid && s.windows[w].customer !in s.customerLock
    requires CustomerExists(s, tenant, s.windows[w].customer)
    ensures var s' := Steps(Goto(s, t, BillStart(tenant, w)), t, 6);
            var c, amount := s.windows[w].customer, s.windows[w].amount;
            var after := s.customers[c].balance - amount;
            if after < 0 then Refuses(s, s', t, Rejected(Insufficient))
            else EndsWith(s, s', t, Committed, s.customers[c := s.customers[c].(balance := after)],
                          s.windows[w := s.windows[w].(status := Paid)], s.payments,
                          s.ledger + [Row(s.nextRowId, tenant, c, BillPayment, -amount, after, WindowRef(w))])
  {
    hide Steps, Unlock, EndsWith, Refuses;
    NothingHeld(s, t);
    hide LocksOk;
    var e := BillEntry(s.windows[w], w);
    var s2 := Goto(s, t, Apply(e, Waiting)).(windowLock := s.windowLock[w := t]);
    BillLocks(s, t, tenant, w);
    hide Next;
    EntryInserts(s2, t, e, 2);
    var after := s.customers[e.customer].balance + e.delta;
    if after < 0 {
      BillRefused(s, s2.(customerLock := s.customerLock[e.customer := t]), t, e);
    } else {
      var row := Row(s.nextRowId, e.tenant, e.customer, e.kind, e.delta, after, e.ref);
      var s5 := Goto(s2.(customerLock := s.customerLock[e.customer := t]), t, Apply(e, Inserted(after, row)))
                  .(nextRowId := s.nextRowId + 1);
      BillCommits(s, s5, t, e, after, row);
    }
  }

  lemma BillLocks(s: State, t: int, tenant: int, w: nat)
    requires t !in s.procs && w !in s.windowLock && WindowExists(s, tenant, w) && s.windows[w].status != Paid
    ensures Steps(Goto(s, t, BillStart(tenant, w)), t, 6) ==
            Steps(Goto(s, t, Apply(BillEntry(s.windows[w], w), Waiting)).(windowLock := s.windowLock[w := t]), t, 5)
  {
    hide Steps, Unlock;
    var e := BillEntry(s.windows[w], w);
    var s1, s2 := Goto(s, t, BillStart(tenant, w)), Goto(s, t, Apply(e, Waiting)).(windowLock := s.windowLock[w := t]);
    assert s1.procs[t := Apply(e, Waiting)] == s2.procs;
    StepTo(s1, s2, t, 5);
  }

  lemma BillRefused(s: State, s3: State, t: int, e: Entry)
    requires t !in s.procs && e.ref.WindowRef?
    requires Unlock(s3.customerLock, t) == s.customerLock && Unlock(s3.windowLock, t) == s.windowLock
    requires t in s3.procs && s3.procs == s.procs[t := s3.procs[t]]
    requires s3.customers == s.customers && s3.windows == s.windows && s3.payments == s.payments
    requires s3.ledger == s.ledger
    ensures Refuses(s, Finish(s3, t, Failure(Apply(e, Waiting), Insufficient)), t, Rejected(Insufficient))
  {
    hide Unlock;
  }

  lemma BillCommits(s: State, s5: State, t: int, e: Entry, after: int, row: Row)
    requires t !in s.procs && e.ref.WindowRef? && WindowExists(s, e.tenant, e.ref.window)
    requires CustomerExists(s, e.tenant, e.customer)
    requires Unlock(s5.customerLock, t) == s.customerLock && Unlock(s5.windowLock, t) == s.windowLock
    requires t in s5.procs && s5.procs == s.procs[t := Apply(e, Inserted(after, row))]
    requires s5.customers == s.customers && s5.windows == s.windows && s5.payments == s.payments
    requires s5.ledger == s.ledger
    ensures EndsWith(s, Steps(s5, t, 2), t, Committed,
                     s.customers[e.customer := s.customers[e.customer].(balance := after)],
                     s.windows[e.ref.window := s.windows[e.ref.window].(status := Paid)], s.payments, s.ledger + [row])
  {
    hide Unlock, Steps;
    var s6 := Goto(s5, t, Apply(e, Marked(after, row)));
    StepTo(s5, s6, t, 1);
    var s7 := Commit(s6, t, e, after, row);
    StepTo(s6, s7, t, 0);
    StepsNone(s7, t);
  }

  // ---- Settlements ----

  /**
   Settling a payment whose customer is unlocked: succeeded ones stay as they
   are, pending ones succeed, and a top-up that nets something is credited.
   */
  lemma SettleAnswer(s: State, t: int, pid: nat)
    requires Inv(s) && t !in s.procs && pid < |s.payments| && s.payments[pid].status in {Pending, Succeeded}
    requires s.payments[pid].customer.Some? ==> s.payments[pid].customer.value !in s.customerLock
    ensures var p := s.payments[pid];
            var s' := Run(s, Alone(t, Settle(p.externalRef)));
            var settled := s.payments[pid := p.(status := Succeeded)];
            if p.status == Succeeded then Refuses(s, s', t, AlreadySettled)
            else if !(p.entity == WalletTopUp && p.customer.Some?)
            then EndsWith(s, s', t, Committed, s.customers, s.windows, settled, s.ledger)
            else if p.net <= 0
            then EndsWith(s, s', t, Uncredited(pid), s.customers, s.windows, settled, s.ledger)
            else
              var c := p.customer.value;
              c in s.customers &&
              var after := s.customers[c].balance + p.net;
              EndsWith(s, s', t, Committed, s.customers[c := s.customers[c].(balance := after)], s.windows, settled,
                       s.ledger + [Row(s.nextRowId, p.tenant, c, TopUp, p.net, after, PaymentRef(pid))])
  {
    hide Steps, Run, Next, Goto, Unlock, Refuses, EndsWith;
    var p := s.payments[pid];
    RunAlone(s, t, Settle(p.externalRef));
    Begins(s, t, Settle(p.externalRef));
    assert PaymentsOk(s) && BalancesOk(s) && LocksOk(s);
    hide Inv, LocksOk, BalancesOk;
    SettleReads(s, t, pid);
    hide PaymentsOk;
    if p.status != Succeeded {
      UpdateRuns(s, t, pid);
    }
  }

  lemma SettleReads(s: State, t: int, pid: nat)
    requires LocksOk(s) && PaymentsOk(s) && t !in s.procs && pid < |s.payments|
    ensures var p := s.payments[pid];
            var s1 := Goto(s, t, SettleRead(p.externalRef));
            if p.status == Succeeded then Refuses(s, Steps(s1, t, 6), t, AlreadySettled)
            else Steps(s1, t, 6) == Steps(Goto(s, t, SettleUpdate(pid, p)), t, 5)
  {
    hide Steps, Unlock;
    var p := s.payments[pid];
    var s1 := Goto(s, t, SettleRead(p.externalRef));
    NothingHeld(s, t);
    assert PaymentByRef(s.payments, p.externalRef) == Some(pid);
    hide PaymentByRef, LocksOk, PaymentsOk;
    var s2 := if p.status == Succeeded then Finish(s1, t, AlreadySettled) else Goto(s, t, SettleUpdate(pid, p));
    assert s1.procs[t := s2.procs[t]] == s2.procs == s.procs[t := s2.procs[t]];
    StepTo(s1, s2, t, 5);
    hide Next;
    if p.status == Succeeded {
      StepsDone(s2, t, 5);
    }
  }

  lemma UpdateRuns(s: State, t: int, pid: nat)
    requires LocksOk(s) && PaymentsOk(s) && BalancesOk(s) && t !in s.procs && pid < |s.payments|
    requires s.payments[pid].status == Pending
    requires s.payments[pid].customer.Some? ==> s.payments[pid].customer.value !in s.customerLock
    ensures var p := s.payments[pid];
            var s' := Steps(Goto(s, t, SettleUpdate(pid, p)), t, 5);
            var settled := s.payments[pid := p.(status := Succeeded)];
            if !p.CreditsWallet() then EndsWith(s, s', t, Committed, s.customers, s.windows, settled, s.ledger)
            else if p.net <= 0 then EndsWith(s, s', t, Uncredited(pid), s.customers, s.windows, settled, s.ledger)
            else
              var c := p.customer.value;
              c in s.customers &&
              var after := s.customers[c].balance + p.net;
              EndsWith(s, s', t, Committed, s.customers[c := s.customers[c].(balance := after)], s.windows, settled,
                       s.ledger + [Row(s.nextRowId, p.tenant, c, TopUp, p.net, after, PaymentRef(pid))])
  {
    hide Steps, Unlock;
    var p := s.payments[pid];
    var s2 := Goto(s, t, SettleUpdate(pid, p));
    var settled := s.(payments := s.payments[pid := p.(status := Succeeded)]);
    assert !LiveClash(s.payments, p, pid);
    assert p.customer.Some? ==> CustomerExists(s, p.tenant, p.customer.value);
    SameLocks(s, settled);
    NothingHeld(s, t);
    hide LiveClash, LocksOk, PaymentsOk;
    if p.CreditsWallet() && p.net > 0 {
      var e := CreditEntry(pid, p);
      var s3 := Goto(settled, t, Apply(e, Waiting));
      assert s2.procs[t := Apply(e, Waiting)] == s3.procs;
      StepTo(s2, s3, t, 4);
      hide Next;
      EntryRuns(settled, t, e, 0);
    } else {
      hide BalancesOk;
      var o := if p.CreditsWallet() then Uncredited(pid) else Committed;
      var s3 := Finish(settled, t, o);
      assert s2.procs[t := Done(o)] == s3.procs;
      StepTo(s2, s3, t, 4);
      hide Next;
      StepsDone(s3, t, 4);
    }
  }

  lemma UnknownSettlement(s: State, t: int, externalRef: string)
    requires Inv(s) && t !in s.procs
    requires forall i :: 0 <= i < |s.payments| ==> s.payments[i].externalRef != externalRef
    ensures Refuses(s, Run(s, Alone(t, Settle(externalRef))), t, Rejected(NotFound))
  {
    hide Steps, Run, Next, Unlock, Refuses;
    RunAlone(s, t, Settle(externalRef));
    Begins(s, t, Settle(externalRef));
    assert LocksOk(s);
    hide Inv;
    NothingHeld(s, t);
    hide LocksOk;
    ReadFindsNone(s, t, externalRef);
    NotFoundAtOnce(s, Goto(s, t, SettleRead(externalRef)), t);
  }

  lemma ReadFindsNone(s: State, t: int, externalRef: string)
    requires forall i :: 0 <= i < |s.payments| ==> s.payments[i].externalRef != externalRef
    ensures var s1 := Goto(s, t, SettleRead(externalRef));
            Next(s1, Step(t)) == Fail(s1, t, NotFound)
  {
    hide Unlock;
  }

  // ---- What else writes ----

  /** Nothing but a commit changes a balance, the ledger or a window's status; an abort or a refusal leaves no trace. */
  lemma OnlyCommitsWrite(s: State, ev: Event)
    requires !ev.AddCustomer? && !ev.GenerateWindows?
    ensures var s' := Next(s, ev);
            (s'.customers == s.customers && s'.windows == s.windows && s'.ledger == s.ledger) ||
            (ev.Step? && ev.tx in s'.procs && s'.procs[ev.tx] == Done(Committed))
  {
    hide Unlock, PaymentByRef, LiveClash, CreditEntry, BillEntry, AdvanceEntry;
    if ev.Step? && ev.tx in s.procs && s.procs[ev.tx].Apply? && Advance(s, ev.tx).Some? {
      EntryWrites(s, ev.tx, s.procs[ev.tx].entry, s.procs[ev.tx].stage);
    }
  }

  lemma EntryWrites(s: State, t: int, e: Entry, stage: Stage)
    requires t in s.procs && s.procs[t] == Apply(e, stage) && AdvanceEntry(s, t, e, stage).Some?
    ensures var s' := AdvanceEntry(s, t, e, stage).value;
            (s'.customers == s.customers && s'.windows == s.windows && s'.ledger == s.ledger) ||
            (t in s'.procs && s'.procs[t] == Done(Committed))
  {
    hide Unlock;
  }

  /** A generation issues one window of the fee to each token customer of the tenant that lacks one, to nobody else. */
  lemma GeneratesExactly(s: State, tenant: int, period: int, fee: int, order: seq<int>)
    requires fee >= 0 && BillingOrder(s, tenant, period, order)
    ensures var s', n := Next(s, GenerateWindows(tenant, period, fee, order)), |s.windows|;
            && n <= |s'.windows| && s'.windows[..n] == s.windows
            && s' == s.(windows := s'.windows)
            && (forall w :: n <= w < |s'.windows| ==>
                  var c := s'.windows[w].customer;
                  && s'.windows[w] == Window(tenant, c, period, fee, Issued)
                  && c in s.customers && s.customers[c].tenant == tenant && s.customers[c].token
                  && (forall v :: 0 <= v < n ==>
                        !(s.windows[v].customer == c && s.windows[v].periodStart == period)))
            && (forall v, w :: n <= v < w < |s'.windows| ==> s'.windows[v].customer != s'.windows[w].customer)
  {
    forall i | 0 <= i < |order|
      ensures Billable(s, tenant, period, order[i])
    {
      assert order[i] in order;
    }
  }

  /** A voucher charge is accepted if and only if its amount is not negative and its reference is new. */
  lemma VoucherChargeAcceptedIff(s: State, p: Payment)
    requires p.entity == Voucher && p.customer.None? && p.status == Pending
    ensures PaymentAccepted(s, p) <==>
            p.amount >= 0 && forall i :: 0 <= i < |s.payments| ==> s.payments[i].externalRef != p.externalRef
  {
  }
}
