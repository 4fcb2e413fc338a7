/** The billing service: charges for vouchers and wallet top-ups, settled at once or by a later webhook. */
module WalletCharges {
  import opened Wrappers
  import opened WalletTables
  import opened WalletSteps
  import opened WalletInvariant
  import opened WalletTheorems
  import opened WalletStore

  /** The payment rows of ChargeTopUp and Charge. */
  function TopUpPayment(tenant: int, customer: int, amount: nat, externalRef: string): Payment {
    Payment(tenant, Some(customer), WalletTopUp, externalRef, amount, FeeOf(amount), NetOf(amount), Pending)
  }

  function VoucherPayment(tenant: int, amount: nat, externalRef: string): Payment {
    Payment(tenant, None, Voucher, externalRef, amount, FeeOf(amount), NetOf(amount), Pending)
  }

  class Billing {
    const st: Store

    constructor (st: Store)
      ensures this.st == st
    {
      this.st := st;
    }

    /** Settles at once unless the provider settles out of band. */
    method SettleOrReturn(t: int, p: Payment, async: bool, env: Schedule, patience: nat)
      returns (r: Option<Payment>, outcome: Outcome, ghost trace: seq<Event>)
      requires Inv(st.View()) && t !in st.procs && Others(env, t)
      modifies st
      ensures st.View() == Run(old(st.View()), trace) && Inv(st.View())
      ensures async ==> r == Some(p) && trace == []
      ensures !async && r.Some? ==> r == Some(p.(status := Succeeded)) && !outcome.Rejected? && !outcome.Uncredited?
      ensures !async && !outcome.Rejected? ==> SettledAs(old(st.View()), st.View(), p.externalRef, outcome)
    {
      trace := [];
      if async {
        return Some(p), Committed, [];
      }
      outcome, trace := st.SettlePayment(t, p.externalRef, env, patience);
      r := if outcome.Rejected? || outcome.Uncredited? then None else Some(p.(status := Succeeded));
    }

    /** Inserts a payment and settles it; no payment comes back when the insert or the settlement fails. */
    method ChargeFor(t: int, p: Payment, async: bool, env: Schedule, patience: nat)
      returns (r: Option<Payment>, outcome: Outcome, ghost trace: seq<Event>)
      requires Inv(st.View()) && t !in st.procs && Others(env, t) && p.status == Pending
      modifies st
      ensures st.View() == Run(old(st.View()), trace) && Inv(st.View())
      ensures !PaymentAccepted(old(st.View()), p) ==> r.None? && st.View() == old(st.View())
      ensures PaymentAccepted(old(st.View()), p) && async ==>
                r == Some(p) && st.View() == Next(old(st.View()), CreatePayment(p))
      ensures r.Some? && !async ==>
                && r == Some(p.(status := Succeeded))
                && SettledAs(Next(old(st.View()), CreatePayment(p)), st.View(), p.externalRef, outcome)
                && |old(st.payments)| < |st.payments|
                && st.payments[|old(st.payments)|] in {p, p.(status := Succeeded)}
    {
      hide Inv, SettledAs, PaymentAccepted;
      var ok := st.CreatePayment(p);
      trace := [CreatePayment(p)];
      OneEvent(old(st.View()), CreatePayment(p));
      if !ok {
        RefusedPayment(old(st.View()), p);
        return None, Rejected(NotFound), trace;
      }
      ghost var rest: seq<Event>;
      r, outcome, rest := SettleOrReturn(t, p, async, env, patience);
      RunAppend(old(st.View()), trace, rest);
      PaymentStays(old(st.View()), p, rest);
      trace := trace + rest;
      assert async ==> Run(Next(old(st.View()), CreatePayment(p)), []) == Next(old(st.View()), CreatePayment(p));
    }

    method ChargeTopUp(t: int, tenant: int, customer: int, amount: nat, externalRef: string, async: bool, env: Schedule,
                       patience: nat)
      returns (r: Option<Payment>, outcome: Outcome, ghost trace: seq<Event>)
      requires Inv(st.View()) && t !in st.procs && Others(env, t)
      modifies st
      ensures st.View() == Run(old(st.View()), trace) && Inv(st.View())
      ensures r.Some? ==> PaymentAccepted(old(st.View()), TopUpPayment(tenant, customer, amount, externalRef))
      ensures r.Some? ==> r == Some(TopUpPayment(tenant, customer, amount, externalRef)
                                    .(status := if async then Pending else Succeeded))
      ensures r.Some? && outcome == Committed && !async ==>
                exists i :: |old(st.ledger)| <= i < |st.ledger| && st.ledger[i].kind == TopUp &&
                            st.ledger[i].tenant == tenant && st.ledger[i].customer == customer &&
                            st.ledger[i].amount == r.value.net
      ensures r.Some? ==>
                && r.value.tenant == tenant && r.value.customer == Some(customer) && r.value.amount == amount
                && r.value.entity == WalletTopUp && r.value.externalRef == externalRef
                && r.value.status == (if async then Pending else Succeeded)
                && -50 < 100 * r.value.fee - 3 * amount <= 50 && -50 < 100 * r.value.net - 97 * amount <= 50
    {
      FeeRates(amount);
      hide FeeOf, NetOf, PaymentAccepted;
      var p := TopUpPayment(tenant, customer, amount, externalRef);
      r, outcome, trace := ChargeFor(t, p, async, env, patience);
      if r.Some? && !async && outcome == Committed {
        CreditInLedger(Next(old(st.View()), CreatePayment(p)), st.View(), p, |old(st.payments)|);
      }
    }

    method Charge(t: int, tenant: int, amount: nat, externalRef: string, async: bool, env: Schedule, patience: nat)
      returns (r: Option<Payment>, outcome: Outcome, ghost trace: seq<Event>)
      requires Inv(st.View()) && t !in st.procs && Others(env, t)
      modifies st
      ensures st.View() == Run(old(st.View()), trace) && Inv(st.View())
      ensures r.Some? ==> r == Some(VoucherPayment(tenant, amount, externalRef)
                                    .(status := if async then Pending else Succeeded))
      ensures r.Some? ==>
                && r.value.tenant == tenant && r.value.customer == None && r.value.amount == amount
                && r.value.entity == Voucher && r.value.externalRef == externalRef
                && r.value.status == (if async then Pending else Succeeded)
                && -50 < 100 * r.value.fee - 3 * amount <= 50 && -50 < 100 * r.value.net - 97 * amount <= 50
    {
      FeeRates(amount);
      hide FeeOf, NetOf;
      r, outcome, trace := ChargeFor(t, VoucherPayment(tenant, amount, externalRef), async, env, patience);
    }
  }

  lemma OneEvent(s: State, ev: Event)
    ensures Run(s, [ev]) == Next(s, ev)
  {
    assert [ev][1..] == [];
  }

  /** The row of an accepted payment stays where it is and changes in its status only. */
  lemma PaymentStays(s: State, p: Payment, events: seq<Event>)
    requires Inv(s) && PaymentAccepted(s, p)
    ensures var s' := Run(Next(s, CreatePayment(p)), events);
            |s.payments| < |s'.payments| && s'.payments[|s.payments|] in {p, p.(status := Succeeded)}
  {
    NextKeepsInv(s, CreatePayment(p));
    HistoryIsFinal(Next(s, CreatePayment(p)), events);
    hide Inv;
    assert Next(s, CreatePayment(p)).payments[|s.payments|] == p;
  }

  /** References are unique, so the settled payment is the one charged. */
  lemma CreditInLedger(s: State, s': State, p: Payment, n: nat)
    requires Inv(s') && p.CreditsWallet() && SettledAs(s, s', p.externalRef, Committed)
    requires n < |s'.payments| && s'.payments[n] in {p, p.(status := Succeeded)}
    ensures exists i :: |s.ledger| <= i < |s'.ledger| && s'.ledger[i].kind == TopUp &&
                        s'.ledger[i].tenant == p.tenant && s'.ledger[i].customer == p.customer.value &&
                        s'.ledger[i].amount == p.net
  {
    assert PaymentsOk(s');
    hide Inv;
    var pid: nat :|
      && pid < |s'.payments| && s'.payments[pid].externalRef == p.externalRef && s'.payments[pid].status == Succeeded
      && (s'.payments[pid].CreditsWallet() ==> Books(s, s', CreditEntry(pid, s'.payments[pid])));
    assert pid == n;
    var i :| |s.ledger| <= i < |s'.ledger| &&
             s'.ledger[i] == Row(s'.ledger[i].id, p.tenant, p.customer.value, TopUp, p.net,
                                 s'.ledger[i].balanceAfter, PaymentRef(pid));
  }

  lemma RefusedPayment(s: State, p: Payment)
    requires !PaymentAccepted(s, p)
    ensures Next(s, CreatePayment(p)) == s
  {
  }
}
