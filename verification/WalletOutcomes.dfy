/**
 Two outcomes that stay as they are: top-ups that settled without reaching the
 wallet, and windows that were paid without it.
 */
module WalletOutcomes {
  import opened Wrappers
  import opened WalletTables
  import opened WalletSteps
  import opened WalletInvariant
  import opened WalletTheorems
  import opened WalletStore
  import opened WalletCharges

  lemma {:induction false} DoneStays(s: State, events: seq<Event>, t: int)
    requires t in s.procs && s.procs[t].Done?
    ensures t in Run(s, events).procs && Run(s, events).procs[t] == s.procs[t]
    decreases |events|
  {
    if events != [] {
      var ev := events[0];
      if ev.Step? && ev.tx in s.procs && Advance(s, ev.tx).Some? {
        StepGoesForward(s, ev.tx);
      }
      DoneStays(Next(s, ev), events[1..], t);
    }
  }

  // ---- Settled and not credited ----

  /** A settlement that stopped after its status update is never made up for, by whatever webhooks still arrive. */
  lemma NeverCreditedLater(s: State, events: seq<Event>, t: int, pid: nat)
    requires Inv(s) && t in s.procs && s.procs[t] == Done(Uncredited(pid))
    ensures !Booked(Run(s, events), pid)
    ensures forall c :: pid !in Credited(Run(s, events).ledger, c)
  {
    RunKeepsInv(s, events);
    DoneStays(s, events, t);
    hide Run, RowsOk, LocksOk, ProcsOk;
    assert CreditOf(Run(s, events).procs[t]) == Some(pid);
  }

  /** The transaction is between the status update of a payment and the commit of its credit. */
  predicate Crediting(p: Proc, pid: nat) {
    p.Apply? && p.entry.ref == PaymentRef(pid)
  }

  predicate AbortsCredit(s: State, ev: Event, pid: nat) {
    ev.Abort? && ev.tx in s.procs && Crediting(s.procs[ev.tx], pid)
  }

  /** Somewhere in the run, an abort hits a settlement of the payment after its status update. */
  predicate AbortHit(s: State, events: seq<Event>, pid: nat)
    decreases |events|
  {
    events != [] && (AbortsCredit(s, events[0], pid) || AbortHit(Next(s, events[0]), events[1..], pid))
  }

  lemma {:induction false} HitNeverCredited(s: State, events: seq<Event>, pid: nat)
    requires Inv(s) && AbortHit(s, events, pid)
    ensures !Booked(Run(s, events), pid)
    decreases |events|
  {
    NextKeepsInv(s, events[0]);
    hide Inv, Booked;
    if AbortsCredit(s, events[0], pid) {
      NeverCreditedLater(Next(s, events[0]), events[1..], events[0].tx, pid);
    } else {
      HitNeverCredited(Next(s, events[0]), events[1..], pid);
    }
  }

  /** What a transaction on its way to a credit may rely on: nothing but an abort can stop it. */
  lemma CreditGoesThrough(s: State, t: int, pid: nat)
    requires Inv(s) && t in s.procs && Crediting(s.procs[t], pid)
    ensures Advance(s, t).Some? ==> Advance(s, t).value.procs[t] != Done(Uncredited(pid))
  {
    assert ProcOk(s, s.procs[t]) && PaymentsOk(s) && BalancesOk(s);
    hide Inv, Unlock;
  }

  lemma UpdateStopsOnly(s: State, t: int, pid: nat)
    requires Inv(s) && t in s.procs && s.procs[t].SettleUpdate?
    requires AdvanceSettleUpdate(s, t, s.procs[t].payment, s.procs[t].seen).procs[t] == Done(Uncredited(pid))
    ensures pid < |s.payments| && s.payments[pid].net <= 0
  {
    assert ProcOk(s, s.procs[t]);
    hide Inv, Unlock, LiveClash;
  }

  lemma CreditOnlyStopsItself(s: State, t: int, pid: nat)
    requires t in s.procs && s.procs[t].Apply? && !Crediting(s.procs[t], pid)
    ensures Advance(s, t).Some? ==> Advance(s, t).value.procs[t] != Done(Uncredited(pid))
  {
    hide Unlock;
  }

  lemma OthersDoNotStop(s: State, t: int, pid: nat)
    requires t in s.procs && !s.procs[t].Apply? && !s.procs[t].SettleUpdate? && Advance(s, t).Some?
    ensures Advance(s, t).value.procs[t] != Done(Uncredited(pid))
  {
    hide Unlock, PaymentByRef;
  }

  lemma StepStops(s: State, s': State, t: int, pid: nat)
    requires Inv(s) && t in s.procs && Advance(s, t) == Some(s')
    requires t in s'.procs && s'.procs[t] == Done(Uncredited(pid))
    ensures pid < |s.payments| && s.payments[pid].net <= 0
  {
    hide Inv, AdvanceEntry, AdvanceSettleUpdate;
    if s.procs[t].Apply? {
      if Crediting(s.procs[t], pid) {
        CreditGoesThrough(s, t, pid);
      } else {
        CreditOnlyStopsItself(s, t, pid);
      }
    } else if s.procs[t].SettleUpdate? {
      UpdateStopsOnly(s, t, pid);
    } else {
      OthersDoNotStop(s, t, pid);
    }
  }

  /** The only two ways in which a settlement stops between update and credit. */
  lemma StopsWhy(s: State, ev: Event, t: int, pid: nat)
    requires Inv(s) && t in Next(s, ev).procs && Next(s, ev).procs[t] == Done(Uncredited(pid))
    requires t in s.procs ==> s.procs[t] != Done(Uncredited(pid))
    ensures AbortsCredit(s, ev, pid) || (pid < |s.payments| && s.payments[pid].net <= 0)
  {
    hide Inv, Unlock, Advance;
    if ev.Step? {
      StepGoesForward(s, ev.tx);
      StepStops(s, Next(s, ev), t, pid);
    }
  }

  lemma {:induction false} StoppedWhy(s: State, events: seq<Event>, t: int, pid: nat)
    requires Inv(s) && t in Run(s, events).procs && Run(s, events).procs[t] == Done(Uncredited(pid))
    requires t in s.procs ==> s.procs[t] != Done(Uncredited(pid))
    ensures AbortHit(s, events, pid) || (pid < |Run(s, events).payments| && Run(s, events).payments[pid].net <= 0)
    decreases |events|
  {
    var ev := events[0];
    var s' := Next(s, ev);
    NextKeepsInv(s, ev);
    if t in s'.procs && s'.procs[t] == Done(Uncredited(pid)) {
      StopsWhy(s, ev, t, pid);
      HistoryIsFinal(s, events);
    } else {
      hide Inv, Next;
      StoppedWhy(s', events[1..], t, pid);
    }
  }

  ghost predicate TopUpsPositive(ledger: seq<Row>) {
    forall i :: 0 <= i < |ledger| && ledger[i].kind == TopUp ==> ledger[i].amount > 0
  }

  lemma {:induction false} CreditsArePositive(s: State, events: seq<Event>)
    requires Inv(s) && TopUpsPositive(s.ledger)
    ensures TopUpsPositive(Run(s, events).ledger)
    decreases |events|
  {
    if events != [] {
      NextKeepsInv(s, events[0]);
      NextIsPositive(s, events[0]);
      hide Inv, Next;
      CreditsArePositive(Next(s, events[0]), events[1..]);
    }
  }

  lemma NextIsPositive(s: State, ev: Event)
    requires Inv(s) && TopUpsPositive(s.ledger)
    ensures TopUpsPositive(Next(s, ev).ledger)
  {
    if ev.Step? && ev.tx in s.procs {
      assert ProcOk(s, s.procs[ev.tx]);
      hide Inv;
      AdvanceExtends(s, ev.tx);
      if s.procs[ev.tx].Apply? {
        EntryExtends(s, ev.tx, s.procs[ev.tx].entry, s.procs[ev.tx].stage);
      }
    }
    hide Inv, Advance, ProcOk;
  }

  /**
   When nobody is just crediting it, a top-up is in the ledger if and only if it
   has succeeded, nets something, and no abort hit its settlement between the
   status update and the credit.
   */
  lemma CreditedIff(events: seq<Event>, pid: nat)
    requires pid < |After(events).payments| && After(events).payments[pid].CreditsWallet()
    requires forall t :: t in After(events).procs ==> !Crediting(After(events).procs[t], pid)
    ensures var p := After(events).payments[pid];
            Booked(After(events), pid) <==> p.status == Succeeded && p.net > 0 && !AbortHit(EMPTY, events, pid)
  {
    EmptyInv();
    hide Inv, Run, AbortHit;
    if Booked(After(events), pid) {
      BookedIsWhole(events, pid);
      if AbortHit(EMPTY, events, pid) {
        HitNeverCredited(EMPTY, events, pid);
      }
    } else if After(events).payments[pid].status == Succeeded {
      var t := Stopped(events, pid);
      StoppedWhy(EMPTY, events, t, pid);
    }
  }

  lemma BookedIsWhole(events: seq<Event>, pid: nat)
    requires pid < |After(events).payments| && Booked(After(events), pid)
    ensures After(events).payments[pid].status == Succeeded && After(events).payments[pid].net > 0
  {
    EmptyInv();
    ReachableInv(events);
    CreditsArePositive(EMPTY, events);
    assert RowsOk(After(events));
    hide Inv, Run;
    RowIsWhole(After(events), pid);
  }

  lemma RowIsWhole(s: State, pid: nat)
    requires RowsOk(s) && TopUpsPositive(s.ledger) && Booked(s, pid)
    ensures pid < |s.payments| && s.payments[pid].status == Succeeded && s.payments[pid].net > 0
  {
    var i :| 0 <= i < |s.ledger| && s.ledger[i].ref == PaymentRef(pid);
    assert RowMatches(s, s.ledger[i]);
  }

  lemma EmptyInv()
    ensures Inv(EMPTY)
  {
    ReachableInv([]);
  }

  /** A settled top-up that nobody is crediting and that is not in the ledger has a stopped settlement. */
  lemma Stopped(events: seq<Event>, pid: nat) returns (t: int)
    requires pid < |After(events).payments| && After(events).payments[pid].SettledTopUp()
    requires !Booked(After(events), pid)
    requires forall t :: t in After(events).procs ==> !Crediting(After(events).procs[t], pid)
    ensures t in After(events).procs && After(events).procs[t] == Done(Uncredited(pid))
  {
    ReachableInv(events);
    assert Claimed(After(events), pid);
    hide Inv, Run;
    t :| t in After(events).procs && CreditOf(After(events).procs[t]) == Some(pid);
  }

  /** For the payments that ChargeTopUp creates, netting something is being of a positive amount. */
  lemma ChargedTopUpCreditedIff(events: seq<Event>, pid: nat, amount: nat)
    requires pid < |After(events).payments|
    requires var p := After(events).payments[pid];
             p.customer.Some? &&
             p == TopUpPayment(p.tenant, p.customer.value, amount, p.externalRef).(status := p.status)
    requires forall t :: t in After(events).procs ==> !Crediting(After(events).procs[t], pid)
    ensures Booked(After(events), pid) <==>
            After(events).payments[pid].status == Succeeded && amount > 0 && !AbortHit(EMPTY, events, pid)
  {
    hide AbortHit, Booked, Run, NetOf, FeeOf;
    CreditedIff(events, pid);
    FeeSplit(amount);
  }

  /** A run in which it happens: the settlement of the first webhook is aborted, and the second one finds it settled. */
  function LostTopUp(amount: nat): seq<Event> {
    [AddCustomer(1, 1, true), CreatePayment(TopUpPayment(1, 1, amount, "topup")),
     Begin(1, Settle("topup")), Step(1), Step(1), Abort(1),
     Begin(2, Settle("topup")), Step(2)]
  }

  lemma TopUpsGetLost(amount: nat)
    requires amount > 0
    ensures var s := After(LostTopUp(amount));
            && |s.payments| == 1 && s.payments[0].SettledTopUp() && s.payments[0].net > 0 && s.ledger == []
            && 1 in s.procs && s.procs[1] == Done(Uncredited(0)) && 2 in s.procs && s.procs[2] == Done(AlreadySettled)
  {
    FeeSplit(amount);
    var p := TopUpPayment(1, 1, amount, "topup");
    var s0 := EMPTY.(customers := map[1 := Customer(1, 0, true)], payments := [p]);
    hide NetOf, FeeOf, Next, Run;
    var events := LostTopUp(amount);
    RunFour(EMPTY, events[..4]);
    LostStart(p);
    var s4 := Goto(s0, 1, SettleUpdate(0, p));
    RunFour(s4, events[4..]);
    LostEnd(s0, p);
    RunAppend(EMPTY, events[..4], events[4..]);
    assert events[..4] + events[4..] == events;
  }

  lemma LostStart(p: Payment)
    requires p.CreditsWallet() && p.status == Pending && p.externalRef == "topup" && p.amount >= 0
    requires p.tenant == 1 && p.customer == Some(1)
    ensures var s0 := EMPTY.(customers := map[1 := Customer(1, 0, true)], payments := [p]);
            && Next(Next(EMPTY, AddCustomer(1, 1, true)), CreatePayment(p)) == s0
            && Next(Next(s0, Begin(1, Settle("topup"))), Step(1)) == Goto(s0, 1, SettleUpdate(0, p))
  {
    assert PaymentByRef([p], "topup") == Some(0);
  }

  lemma LostEnd(s0: State, p: Payment)
    requires p.CreditsWallet() && p.status == Pending && p.externalRef == "topup" && p.net > 0
    requires s0 == EMPTY.(customers := map[1 := Customer(1, 0, true)], payments := [p])
    ensures var s4 := Goto(s0, 1, SettleUpdate(0, p));
            Next(Next(Next(Next(s4, Step(1)), Abort(1)), Begin(2, Settle("topup"))), Step(2)) ==
            s0.(payments := [p.(status := Succeeded)],
                procs := map[1 := Done(Uncredited(0)), 2 := Done(AlreadySettled)])
  {
    var s4 := Goto(s0, 1, SettleUpdate(0, p));
    var s5 := Goto(s0, 1, Apply(CreditEntry(0, p), Waiting)).(payments := [p.(status := Succeeded)]);
    var s6 := s5.(procs := map[1 := Done(Uncredited(0))]);
    assert Next(s4, Step(1)) == s5;
    assert Next(s5, Abort(1)) == s6;
    assert PaymentByRef(s6.payments, "topup") == Some(0);
  }

  lemma RunFour(s: State, events: seq<Event>)
    requires |events| == 4
    ensures Run(s, events) == Next(Next(Next(Next(s, events[0]), events[1]), events[2]), events[3])
  {
    hide Next, Run;
    RunTwo(s, events[0], events[1]);
    RunTwo(Next(Next(s, events[0]), events[1]), events[2], events[3]);
    RunAppend(s, [events[0], events[1]], [events[2], events[3]]);
    assert events == [events[0], events[1]] + [events[2], events[3]];
  }

  // ---- One top-up ----

  ghost predicate StatusesOk(payments: seq<Payment>) {
    forall i :: 0 <= i < |payments| ==> payments[i].status in {Pending, Succeeded}
  }

  /** No code path marks a payment failed or refunded. */
  lemma {:induction false} StatusesStay(s: State, events: seq<Event>)
    requires Inv(s) && StatusesOk(s.payments)
    ensures StatusesOk(Run(s, events).payments)
    decreases |events|
  {
    if events != [] {
      NextKeepsInv(s, events[0]);
      NextStatuses(s, events[0]);
      hide Inv, Next;
      StatusesStay(Next(s, events[0]), events[1..]);
    }
  }

  lemma NextStatuses(s: State, ev: Event)
    requires Inv(s) && StatusesOk(s.payments)
    ensures StatusesOk(Next(s, ev).payments)
  {
    StepExtends(s, ev);
    hide Inv;
    if ev.Step? && ev.tx in s.procs && Advance(s, ev.tx).Some? {
      StepKeepsPayments(s, ev.tx);
    }
    hide Advance;
  }

  lemma StepKeepsPayments(s: State, t: int)
    requires t in s.procs && Advance(s, t).Some?
    ensures |Advance(s, t).value.payments| == |s.payments|
  {
    hide Unlock, PaymentByRef, LiveClash, CreditEntry;
  }

  /** The customer has a top-up, in whatever status. */
  ghost predicate HasTopUp(payments: seq<Payment>, tenant: int, customer: Option<int>) {
    exists i :: 0 <= i < |payments| && payments[i].CreditsWallet() &&
                payments[i].tenant == tenant && payments[i].customer == customer
  }

  /** A well-formed top-up is accepted if and only if its customer has never had one. */
  lemma TopUpAcceptedIff(events: seq<Event>, p: Payment)
    requires p.status == Pending && p.CreditsWallet() && p.amount >= 0
    requires forall i :: 0 <= i < |After(events).payments| ==> After(events).payments[i].externalRef != p.externalRef
    requires CustomerExists(After(events), p.tenant, p.customer.value)
    requires p.customer.value !in After(events).customerLock
    ensures PaymentAccepted(After(events), p) <==> !HasTopUp(After(events).payments, p.tenant, p.customer)
  {
    EmptyInv();
    hide Inv, Run, CustomerExists;
    StatusesStay(EMPTY, events);
    if i :| 0 <= i < |After(events).payments| && After(events).payments[i].CreditsWallet() &&
            After(events).payments[i].tenant == p.tenant && After(events).payments[i].customer == p.customer {
      assert After(events).payments[i].Live();
    }
  }

  /** A run that charges a top-up and settles it to its commit. */
  function FirstTopUp(amount: nat): seq<Event> {
    [AddCustomer(1, 1, true), CreatePayment(TopUpPayment(1, 1, amount, "topup")),
     Begin(1, Settle("topup")), Step(1), Step(1), Step(1), Step(1), Step(1), Step(1)]
  }

  /** A customer whose first top-up has been credited, for every positive amount, and a second one that is refused. */
  lemma SecondTopUpRefused(amount: nat, second: nat)
    requires amount > 0
    ensures var s, p := After(FirstTopUp(amount)), TopUpPayment(1, 1, second, "second");
            && |s.payments| == 1 && s.payments[0].SettledTopUp() && s.procs == map[1 := Done(Committed)]
            && |s.ledger| == 1 && s.ledger[0].kind == TopUp && s.ledger[0].amount == NetOf(amount)
            && s.customers == map[1 := Customer(1, NetOf(amount), true)] && s.customerLock == map[]
            && !PaymentAccepted(s, p) && Next(s, CreatePayment(p)) == s
  {
    FeeSplit(amount);
    var p := TopUpPayment(1, 1, amount, "topup");
    var s0 := EMPTY.(customers := map[1 := Customer(1, 0, true)], payments := [p]);
    var events := FirstTopUp(amount);
    hide NetOf, FeeOf, Next, Run;
    RunFour(EMPTY, events[..4]);
    LostStart(p);
    var s4 := Goto(s0, 1, SettleUpdate(0, p));
    RunFour(s4, events[4..8]);
    FirstCredit(s0, p);
    RunAppend(EMPTY, events[..4], events[4..8]);
    assert events[..4] + events[4..8] == events[..8];
    RunSnoc(EMPTY, events[..8], Step(1));
    assert events[..8] + [Step(1)] == events;
    assert After(events).payments[0].Live();
    RefusedPayment(After(events), TopUpPayment(1, 1, second, "second"));
  }

  lemma FirstCredit(s0: State, p: Payment)
    requires p.CreditsWallet() && p.status == Pending && p.net > 0 && p.tenant == 1 && p.customer == Some(1)
    requires s0 == EMPTY.(customers := map[1 := Customer(1, 0, true)], payments := [p])
    ensures var s4 := Goto(s0, 1, SettleUpdate(0, p));
            var row := Row(0, 1, 1, TopUp, p.net, p.net, PaymentRef(0));
            Next(Next(Next(Next(Next(s4, Step(1)), Step(1)), Step(1)), Step(1)), Step(1)) ==
            EMPTY.(customers := map[1 := Customer(1, p.net, true)], payments := [p.(status := Succeeded)],
                   ledger := [row], nextRowId := 1, procs := map[1 := Done(Committed)])
  {
    var s4 := Goto(s0, 1, SettleUpdate(0, p));
    var e := CreditEntry(0, p);
    var row := Row(0, 1, 1, TopUp, p.net, p.net, PaymentRef(0));
    var s5 := Goto(s0, 1, Apply(e, Waiting)).(payments := [p.(status := Succeeded)]);
    var s6 := Goto(s5, 1, Apply(e, Locked(0))).(customerLock := map[1 := 1]);
    var s7 := Goto(s6, 1, Apply(e, Updated(p.net, p.net)));
    var s8 := Goto(s7, 1, Apply(e, Inserted(p.net, row))).(nextRowId := 1);
    assert Next(s4, Step(1)) == s5;
    assert Next(s5, Step(1)) == s6;
    assert Next(s6, Step(1)) == s7;
    assert Next(s7, Step(1)) == s8;
    assert Unlock(s8.customerLock, 1) == map[];
    assert Unlock(s8.windowLock, 1) == map[];
  }

  // ---- Paid without the wallet ----

  ghost predicate Uncharged(s: State, w: nat) {
    && w < |s.windows| && s.windows[w].status == Paid
    && forall i :: 0 <= i < |s.ledger| ==> s.ledger[i].ref != WindowRef(w)
  }

  /** Once a window is paid without a bill_payment row, no later run ever charges it to the wallet. */
  lemma {:induction false} PaidIsNeverCharged(s: State, events: seq<Event>, w: nat)
    requires Inv(s) && Uncharged(s, w)
    ensures Uncharged(Run(s, events), w)
    decreases |events|
  {
    if events != [] {
      NextKeepsInv(s, events[0]);
      NextKeepsUncharged(s, events[0], w);
      hide Inv, Next, Uncharged;
      PaidIsNeverCharged(Next(s, events[0]), events[1..], w);
    }
  }

  lemma NextKeepsUncharged(s: State, ev: Event, w: nat)
    requires Inv(s) && Uncharged(s, w)
    ensures Uncharged(Next(s, ev), w)
  {
    StepExtends(s, ev);
    if ev.Step? && ev.tx in s.procs {
      assert ProcOk(s, s.procs[ev.tx]);
      hide Inv;
      AdvanceExtends(s, ev.tx);
      if s.procs[ev.tx].Apply? {
        EntryExtends(s, ev.tx, s.procs[ev.tx].entry, s.procs[ev.tx].stage);
      }
    }
    hide Inv, Advance, ProcOk;
  }

  /** Paying an unlocked window manually works exactly when it exists, paid or not; from the wallet, only if unpaid. */
  lemma PayingIff(s: State, t: int, tenant: int, w: int)
    requires t !in s.procs && (w >= 0 ==> w !in s.windowLock)
    ensures var s' := Run(s, [Begin(t, PayManually(tenant, w)), Step(t), Step(t)]);
            t in s'.procs && (s'.procs[t] == Done(Committed) <==> WindowExists(s, tenant, w))
    ensures var s' := Run(s, [Begin(t, PayFromWallet(tenant, w)), Step(t)]);
            t in s'.procs && (s'.procs[t] == Done(Rejected(NotFound)) <==>
                              !WindowExists(s, tenant, w) || s.windows[w].status == Paid)
  {
    hide Run, Unlock;
    RunThree(s, Begin(t, PayManually(tenant, w)), Step(t), Step(t));
    ManualSteps(s, t, tenant, w);
    RunTwo(s, Begin(t, PayFromWallet(tenant, w)), Step(t));
    WalletStep(s, t, tenant, w);
    hide Next;
  }

  lemma ManualSteps(s: State, t: int, tenant: int, w: int)
    requires t !in s.procs && (w >= 0 ==> w !in s.windowLock)
    ensures var s' := Next(Next(Next(s, Begin(t, PayManually(tenant, w))), Step(t)), Step(t));
            t in s'.procs && (s'.procs[t] == Done(Committed) <==> WindowExists(s, tenant, w))
  {
    hide Unlock, MarkPaid;
    var s1 := Next(s, Begin(t, PayManually(tenant, w)));
    assert s1 == Goto(s, t, ManualStart(tenant, w));
    var s2 := Next(s1, Step(t));
    if WindowExists(s, tenant, w) {
      assert s2 == Goto(s1, t, ManualMarked(w)).(windowLock := s.windowLock[w := t]);
    } else {
      assert s2 == Fail(s1, t, NotFound);
      assert Next(s2, Step(t)) == s2;
    }
  }

  lemma WalletStep(s: State, t: int, tenant: int, w: int)
    requires t !in s.procs && (w >= 0 ==> w !in s.windowLock)
    ensures var s' := Next(Next(s, Begin(t, PayFromWallet(tenant, w))), Step(t));
            t in s'.procs && (s'.procs[t] == Done(Rejected(NotFound)) <==>
                              !WindowExists(s, tenant, w) || s.windows[w].status == Paid)
  {
    hide Unlock;
    assert Next(s, Begin(t, PayFromWallet(tenant, w))) == Goto(s, t, BillStart(tenant, w));
  }

  lemma RunTwo(s: State, a: Event, b: Event)
    ensures Run(s, [a, b]) == Next(Next(s, a), b)
  {
    hide Next;
    OneEvent(s, a);
    OneEvent(Next(s, a), b);
    RunAppend(s, [a], [b]);
    assert [a, b] == [a] + [b];
  }

  lemma RunThree(s: State, a: Event, b: Event, c: Event)
    ensures Run(s, [a, b, c]) == Next(Next(Next(s, a), b), c)
  {
    hide Next, Run;
    RunTwo(s, a, b);
    OneEvent(Next(Next(s, a), b), c);
    RunAppend(s, [a, b], [c]);
    assert [a, b, c] == [a, b] + [c];
  }
}
