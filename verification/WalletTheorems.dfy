/** What holds after every run of the wallet, settlement and billing transactions. */
module WalletTheorems {
  import opened Wrappers
  import opened WalletTables
  import opened WalletSteps
  import opened WalletInvariant

  /** The database after a run from empty tables. */
  ghost function After(events: seq<Event>): State {
    Run(EMPTY, events)
  }

  lemma ReachableInv(events: seq<Event>)
    ensures Inv(After(events))
  {
    RunKeepsInv(EMPTY, events);
  }

  // ---- The ledger ----

  /** Balances are never negative and are the ledger's sums, and each row carries its running sum. */
  lemma LedgerAddsUp(events: seq<Event>)
    ensures var s := After(events);
            && (forall c :: c in s.customers ==>
                  s.customers[c].balance >= 0 && s.customers[c].balance == LedgerSum(s.ledger, c))
            && (forall i :: 0 <= i < |s.ledger| ==>
                  s.ledger[i].balanceAfter == LedgerSum(s.ledger[..i + 1], s.ledger[i].customer) &&
                  s.ledger[i].balanceAfter >= 0)
            && (forall i, j :: 0 <= i < j < |s.ledger| && s.ledger[i].customer == s.ledger[j].customer ==>
                  s.ledger[i].id < s.ledger[j].id)
  {
    ReachableInv(events);
    RunningBalances(EMPTY, events);
  }

  ghost predicate NoOverdraft(s: State) {
    forall i :: 0 <= i < |s.ledger| ==> s.ledger[i].balanceAfter >= 0
  }

  lemma {:induction false} RunningBalances(s: State, events: seq<Event>)
    requires Inv(s) && NoOverdraft(s)
    ensures NoOverdraft(Run(s, events))
    decreases |events|
  {
    if events != [] {
      NextKeepsInv(s, events[0]);
      StepBalance(s, events[0]);
      RunningBalances(Next(s, events[0]), events[1..]);
    }
  }

  lemma StepBalance(s: State, ev: Event)
    requires Inv(s) && NoOverdraft(s)
    ensures NoOverdraft(Next(s, ev))
  {
    if ev.Step? && ev.tx in s.procs {
      assert ProcOk(s, s.procs[ev.tx]);
      AdvanceExtends(s, ev.tx);
      if s.procs[ev.tx].Apply? {
        EntryExtends(s, ev.tx, s.procs[ev.tx].entry, s.procs[ev.tx].stage);
      }
    }
  }

  // ---- What a run never takes back ----

  /** Later tables extend earlier ones: rows stay, paid windows stay paid, settled payments stay settled. */
  ghost predicate Extends(s: State, s': State) {
    && s.ledger <= s'.ledger
    && |s.windows| <= |s'.windows|
    && (forall w :: 0 <= w < |s.windows| ==>
          s'.windows[w] == s.windows[w] || s'.windows[w] == s.windows[w].(status := Paid))
    && |s.payments| <= |s'.payments|
    && (forall i :: 0 <= i < |s.payments| ==>
          s'.payments[i] == s.payments[i] || s'.payments[i] == s.payments[i].(status := Succeeded))
    && (forall c :: c in s.customers ==> c in s'.customers && s'.customers[c].tenant == s.customers[c].tenant)
  }

  lemma EntryExtends(s: State, t: int, e: Entry, stage: Stage)
    requires t in s.procs && s.procs[t] == Apply(e, stage) && ProcOk(s, s.procs[t])
    ensures var next := AdvanceEntry(s, t, e, stage);
            next.Some? ==>
              Extends(s, next.value) &&
              (next.value.ledger == s.ledger ||
               ((stage.Inserted? || stage.Marked?) && next.value.ledger == s.ledger + [stage.row]))
  {
  }

  lemma AdvanceExtends(s: State, t: int)
    requires t in s.procs && ProcOk(s, s.procs[t])
    ensures Advance(s, t).Some? ==> Extends(s, Advance(s, t).value)
    ensures !s.procs[t].Apply? && Advance(s, t).Some? ==> Advance(s, t).value.ledger == s.ledger
  {
    hide AdvanceEntry, AdvanceSettleUpdate, Unlock, Failure, BillEntry;
    match s.procs[t]
    case Apply(e, stage) => EntryExtends(s, t, e, stage);
    case SettleUpdate(pid, seen) => SettleExtends(s, t, pid, seen);
    case _ =>
  }

  lemma SettleExtends(s: State, t: int, pid: nat, seen: Payment)
    requires t in s.procs && ProcOk(s, s.procs[t])
    ensures Extends(s, AdvanceSettleUpdate(s, t, pid, seen))
    ensures AdvanceSettleUpdate(s, t, pid, seen).ledger == s.ledger
  {
    hide LiveClash, Unlock;
  }

  lemma StepExtends(s: State, ev: Event)
    requires Inv(s)
    ensures Extends(s, Next(s, ev))
  {
    if ev.Step? && ev.tx in s.procs {
      assert ProcOk(s, s.procs[ev.tx]);
    }
    hide Inv, Advance, ProcOk;
    if ev.Step? && ev.tx in s.procs {
      AdvanceExtends(s, ev.tx);
    }
  }

  /** Nothing that has been committed is ever changed back, whatever runs next. */
  lemma {:induction false} HistoryIsFinal(s: State, events: seq<Event>)
    requires Inv(s)
    ensures Extends(s, Run(s, events))
    decreases |events|
  {
    if events != [] {
      NextKeepsInv(s, events[0]);
      StepExtends(s, events[0]);
      HistoryIsFinal(Next(s, events[0]), events[1..]);
    }
  }

  // ---- Settlement ----

  /** A payment is credited at most once, for its net amount, to its customer, and only once it has succeeded. */
  lemma CreditedAtMostOnce(events: seq<Event>)
    ensures var s := After(events);
            && (forall i :: 0 <= i < |s.ledger| && s.ledger[i].kind == TopUp ==>
                  && s.ledger[i].ref.PaymentRef? && s.ledger[i].ref.payment < |s.payments|
                  && var p := s.payments[s.ledger[i].ref.payment];
                     p.status == Succeeded && p.CreditsWallet() && p.customer == Some(s.ledger[i].customer)
                     && s.ledger[i].amount == p.net)
            && (forall i, j :: 0 <= i < j < |s.ledger| && s.ledger[i].ref.PaymentRef? ==>
                  s.ledger[i].ref != s.ledger[j].ref)
  {
    ReachableInv(events);
    var s := After(events);
    forall i | 0 <= i < |s.ledger|
      ensures RowMatches(s, s.ledger[i])
    {
    }
  }

  /** A customer's settled top-ups. */
  ghost function SettledTopUps(s: State, c: int): set<nat> {
    set pid: nat | pid < |s.payments| && s.payments[pid].SettledTopUp() && s.payments[pid].customer == Some(c)
  }

  /** Those of them whose settlement is between its status update and its credit, or ended there. */
  ghost function StoppedTopUps(s: State, c: int): set<nat> {
    set pid: nat | pid < |s.payments| && pid in SettledTopUps(s, c) && Claimed(s, pid)
  }

  lemma CreditedIsRest(s: State, c: int)
    requires Inv(s)
    ensures Credited(s.ledger, c) == SettledTopUps(s, c) - StoppedTopUps(s, c)
  {
    forall pid: nat | pid in Credited(s.ledger, c)
      ensures pid in SettledTopUps(s, c) - StoppedTopUps(s, c)
    {
      var i :| 0 <= i < |s.ledger| && s.ledger[i].customer == c && s.ledger[i].kind == TopUp &&
               s.ledger[i].ref == PaymentRef(pid);
      assert RowMatches(s, s.ledger[i]);
      assert !Claimed(s, pid);
    }
    forall pid: nat | pid in SettledTopUps(s, c) - StoppedTopUps(s, c)
      ensures pid in Credited(s.ledger, c)
    {
      assert Booked(s, pid);
      var i :| 0 <= i < |s.ledger| && s.ledger[i].ref == PaymentRef(pid);
      assert RowMatches(s, s.ledger[i]);
      assert s.ledger[i].kind == TopUp && s.ledger[i].customer == c;
    }
  }

  /** The top-up rows of a customer add up to the nets of the payments they book. */
  lemma {:induction false} TopUpSumIsNetSum(ledger: seq<Row>, payments: seq<Payment>, c: int)
    requires forall i :: 0 <= i < |ledger| && ledger[i].kind == TopUp ==>
               ledger[i].ref.PaymentRef? && ledger[i].ref.payment < |payments| &&
               ledger[i].amount == payments[ledger[i].ref.payment].net
    requires forall i, j :: 0 <= i < j < |ledger| && ledger[i].ref != NoRef ==> ledger[i].ref != ledger[j].ref
    ensures TopUpSum(ledger, c) == NetSum(payments, Credited(ledger, c))
  {
    if ledger == [] {
      NetSumSame(payments, {}, Credited(ledger, c));
      EmptyNetSum(payments);
    } else {
      var n := |ledger| - 1;
      var init, last := ledger[..n], ledger[n];
      TopUpSumIsNetSum(init, payments, c);
      if last.customer == c && last.kind == TopUp {
        var pid := last.ref.payment;
        assert Credited(ledger, c) == Credited(init, c) + {pid} by {
          forall k | k in Credited(init, c)
            ensures k in Credited(ledger, c)
          {
            var i :| 0 <= i < n && init[i].customer == c && init[i].kind == TopUp && init[i].ref == PaymentRef(k);
            assert ledger[i] == init[i];
          }
          assert ledger[n].ref.payment == pid;
        }
        NetSumAdd(payments, Credited(init, c), pid);
      } else {
        assert Credited(ledger, c) == Credited(init, c) by {
          forall k | k in Credited(init, c)
            ensures k in Credited(ledger, c)
          {
            var i :| 0 <= i < n && init[i].customer == c && init[i].kind == TopUp && init[i].ref == PaymentRef(k);
            assert ledger[i] == init[i];
          }
        }
      }
    }
  }

  lemma EmptyNetSum(payments: seq<Payment>)
    ensures NetSum(payments, {}) == 0
  {
  }

  /**
   Conservation: what a customer has been credited is the net of the settled
   top-ups, less those stopped between the status update and the credit.
   */
  lemma TopUpsConserved(events: seq<Event>, c: int)
    ensures var s := After(events);
            TopUpSum(s.ledger, c) ==
            NetSum(s.payments, SettledTopUps(s, c)) - NetSum(s.payments, StoppedTopUps(s, c))
  {
    ReachableInv(events);
    var s := After(events);
    forall i | 0 <= i < |s.ledger|
      ensures RowMatches(s, s.ledger[i])
    {
    }
    TopUpSumIsNetSum(s.ledger, s.payments, c);
    CreditedIsRest(s, c);
    NetSumSplit(s.payments, SettledTopUps(s, c), StoppedTopUps(s, c));
  }

  /**
   The partial unique index also covers settled top-ups. So a customer has at
   most one top-up row in the whole history of the database, and once a top-up
   is live every further one is refused, for good.
   */
  lemma OneTopUpPerCustomer(events: seq<Event>, later: seq<Event>, i: int, p: Payment)
    requires 0 <= i < |After(events).payments| && After(events).payments[i].Live()
    requires p.CreditsWallet() && p.tenant == After(events).payments[i].tenant &&
             p.customer == After(events).payments[i].customer
    ensures !PaymentAccepted(Run(After(events), later), p)
    ensures var s := After(events);
            forall j, k :: 0 <= j < k < |s.ledger| && s.ledger[j].kind == TopUp && s.ledger[k].kind == TopUp ==>
              s.ledger[j].customer != s.ledger[k].customer
  {
    ReachableInv(events);
    var s := After(events);
    HistoryIsFinal(s, later);
    assert Run(s, later).payments[i].Live();
    forall j, k | 0 <= j < k < |s.ledger| && s.ledger[j].kind == TopUp && s.ledger[k].kind == TopUp
      ensures s.ledger[j].customer != s.ledger[k].customer
    {
      assert RowMatches(s, s.ledger[j]) && RowMatches(s, s.ledger[k]);
      var a, b := s.ledger[j].ref.payment, s.ledger[k].ref.payment;
      assert s.payments[a].Live() && s.payments[b].Live() && a != b;
    }
  }

  // ---- Billing windows ----

  /** A window has at most one bill_payment row, of minus its amount, for its own customer, and only if it is paid. */
  lemma BilledAtMostOnce(events: seq<Event>)
    ensures var s := After(events);
            && (forall i :: 0 <= i < |s.ledger| && s.ledger[i].kind == BillPayment ==>
                  && s.ledger[i].ref.WindowRef? && s.ledger[i].ref.window < |s.windows|
                  && var w := s.windows[s.ledger[i].ref.window];
                     w.status == Paid && w.customer == s.ledger[i].customer && s.ledger[i].amount == -w.amount)
            && (forall i, j :: 0 <= i < j < |s.ledger| && s.ledger[i].ref.WindowRef? ==>
                  s.ledger[i].ref != s.ledger[j].ref)
  {
    ReachableInv(events);
    var s := After(events);
    forall i | 0 <= i < |s.ledger|
      ensures RowMatches(s, s.ledger[i])
    {
    }
  }

  /** A customer never gets two windows for one period. */
  lemma OneWindowPerPeriod(events: seq<Event>)
    ensures var s := After(events);
            forall v, w :: 0 <= v < w < |s.windows| && s.windows[v].customer == s.windows[w].customer ==>
              s.windows[v].periodStart != s.windows[w].periodStart
  {
    ReachableInv(events);
  }

  /** Generating a period's windows reaches every token customer of the tenant; a second pass adds nothing. */
  lemma GenerateIsIdempotent(s: State, tenant: int, period: int, fee: int, order: seq<int>, again: Event)
    requires fee >= 0 && BillingOrder(s, tenant, period, order)
    requires again.GenerateWindows? && again.tenant == tenant && again.period == period
    ensures var s' := Next(s, GenerateWindows(tenant, period, fee, order));
            Next(s', again) == s' &&
            forall c :: CustomerExists(s', tenant, c) && s'.customers[c].token ==> HasWindow(s', c, period)
  {
    var s' := Next(s, GenerateWindows(tenant, period, fee, order));
    forall c | CustomerExists(s', tenant, c) && s'.customers[c].token
      ensures HasWindow(s', c, period)
    {
      if Billable(s, tenant, period, c) {
        var k :| 0 <= k < |order| && order[k] == c;
        assert s'.windows[|s.windows| + k].customer == c && s'.windows[|s.windows| + k].periodStart == period;
      } else {
        var w :| 0 <= w < |s.windows| && s.windows[w].customer == c && s.windows[w].periodStart == period;
        assert s'.windows[w] == s.windows[w];
      }
    }
    assert forall c :: !Billable(s', tenant, period, c);
    assert again.order != [] ==> again.order[0] in again.order;
  }

  ghost predicate HasWindow(s: State, c: int, period: int) {
    exists w :: 0 <= w < |s.windows| && s.windows[w].customer == c && s.windows[w].periodStart == period
  }

  // ---- Locks ----

  /** Transaction `t` waits for a row that `u` holds. */
  ghost predicate WaitsFor(s: State, t: int, u: int) {
    && t in s.procs && u in s.procs && Advance(s, t).None?
    && match s.procs[t]
       case BillStart(_, w) => 0 <= w && w in s.windowLock && s.windowLock[w] == u
       case ManualStart(_, w) => 0 <= w && w in s.windowLock && s.windowLock[w] == u
       case Apply(e, _) => e.customer in s.customerLock && s.customerLock[e.customer] == u
       case _ => false
  }

  /** Windows are locked before customers: a waiting transaction ranks below the one it waits for. */
  function LockRank(p: Proc): nat {
    match p
    case BillStart(_, _) => 0
    case ManualStart(_, _) => 0
    case Apply(_, Waiting) => 1
    case _ => 2
  }

  lemma WaitingRanksBelow(s: State, t: int, u: int)
    requires Inv(s) && WaitsFor(s, t, u)
    ensures LockRank(s.procs[t]) < LockRank(s.procs[u]) && !s.procs[u].Done?
  {
  }

  /** No chain of waiting transactions is longer than window waiter, customer waiter, holder; no cycle. */
  lemma {:induction false} NoWaitCycle(events: seq<Event>, chain: seq<int>)
    requires |chain| >= 2
    requires forall i :: 0 <= i < |chain| - 1 ==> WaitsFor(After(events), chain[i], chain[i + 1])
    ensures |chain| <= 3 && chain[0] != chain[|chain| - 1]
  {
    ReachableInv(events);
    RanksClimb(After(events), chain, |chain| - 1);
  }

  lemma {:induction false} RanksClimb(s: State, chain: seq<int>, k: nat)
    requires Inv(s) && 1 <= k < |chain|
    requires forall i :: 0 <= i < |chain| - 1 ==> WaitsFor(s, chain[i], chain[i + 1])
    ensures chain[0] in s.procs && chain[k] in s.procs
    ensures LockRank(s.procs[chain[k]]) >= LockRank(s.procs[chain[0]]) + k
  {
    assert WaitsFor(s, chain[k - 1], chain[k]);
    WaitingRanksBelow(s, chain[k - 1], chain[k]);
    if k > 1 {
      RanksClimb(s, chain, k - 1);
    }
  }

  /** The transaction `t` waits for, directly or through one more waiter, can run its next statement. */
  lemma SomeoneCanStep(s: State, t: int) returns (u: int)
    requires Inv(s) && t in s.procs && !s.procs[t].Done?
    ensures u in s.procs && !s.procs[u].Done? && Advance(s, u).Some?
    decreases 2 - LockRank(s.procs[t])
  {
    if Advance(s, t).Some? {
      u := t;
    } else {
      var holder := match s.procs[t]
        case BillStart(_, w) => s.windowLock[w]
        case ManualStart(_, w) => s.windowLock[w]
        case Apply(e, _) => s.customerLock[e.customer];
      assert WaitsFor(s, t, holder);
      WaitingRanksBelow(s, t, holder);
      u := SomeoneCanStep(s, holder);
    }
  }

  /** Statements a transaction still has to run at most. */
  function StepsLeft(p: Proc): nat {
    match p
    case SettleRead(_) => 8
    case SettleUpdate(_, _) => 7
    case BillStart(_, _) => 7
    case ManualStart(_, _) => 2
    case ManualMarked(_) => 1
    case Apply(_, Waiting) => 6
    case Apply(_, Locked(_)) => 5
    case Apply(_, Updated(_, _)) => 4
    case Apply(_, Inserted(_, _)) => 3
    case Apply(_, Marked(_, _)) => 2
    case Done(_) => 0
  }

  ghost function AnyOf(ts: set<int>): (t: int)
    requires ts != {}
    ensures t in ts
  {
    assert (exists t :: t in ts) || ts == {};
    var t :| t in ts; t
  }

  ghost function WorkLeft(procs: map<int, Proc>): nat
    decreases |procs|
  {
    if procs == map[] then 0
    else
      var t := AnyOf(procs.Keys);
      StepsLeft(procs[t]) + WorkLeft(procs - {t})
  }

  lemma {:induction false} WorkSplits(procs: map<int, Proc>, t: int)
    requires t in procs
    ensures WorkLeft(procs) == StepsLeft(procs[t]) + WorkLeft(procs - {t})
    decreases |procs|
  {
    var u := AnyOf(procs.Keys);
    if u != t {
      WorkSplits(procs - {u}, t);
      WorkSplits(procs - {t}, u);
      assert procs - {u} - {t} == procs - {t} - {u};
    }
  }

  lemma WorkDrops(procs: map<int, Proc>, t: int, p: Proc)
    requires t in procs && StepsLeft(p) < StepsLeft(procs[t])
    ensures WorkLeft(procs[t := p]) < WorkLeft(procs)
  {
    WorkSplits(procs, t);
    WorkSplits(procs[t := p], t);
    assert procs[t := p] - {t} == procs - {t};
  }

  lemma StepGoesForward(s: State, t: int)
    requires t in s.procs && Advance(s, t).Some?
    ensures t in Advance(s, t).value.procs && Advance(s, t).value.procs == s.procs[t := Advance(s, t).value.procs[t]]
    ensures StepsLeft(Advance(s, t).value.procs[t]) < StepsLeft(s.procs[t])
  {
    hide Unlock, PaymentByRef;
    match s.procs[t]
    case Apply(e, stage) => EntryGoesForward(s, t, e, stage);
    case SettleUpdate(pid, seen) => SettleGoesForward(s, t, pid, seen);
    case _ =>
  }

  lemma SettleGoesForward(s: State, t: int, pid: nat, seen: Payment)
    requires t in s.procs && s.procs[t] == SettleUpdate(pid, seen)
    ensures var s' := AdvanceSettleUpdate(s, t, pid, seen);
            t in s'.procs && s'.procs == s.procs[t := s'.procs[t]] &&
            StepsLeft(s'.procs[t]) < StepsLeft(s.procs[t])
  {
    SettleShape(s, t, pid, seen);
    hide AdvanceSettleUpdate;
  }

  lemma EntryGoesForward(s: State, t: int, e: Entry, stage: Stage)
    requires t in s.procs && s.procs[t] == Apply(e, stage) && AdvanceEntry(s, t, e, stage).Some?
    ensures var s' := AdvanceEntry(s, t, e, stage).value;
            t in s'.procs && s'.procs == s.procs[t := s'.procs[t]] &&
            StepsLeft(s'.procs[t]) < StepsLeft(s.procs[t])
  {
    hide Unlock, LiveClash;
  }

  lemma StepDoesWork(s: State, t: int)
    requires t in s.procs && Advance(s, t).Some?
    ensures WorkLeft(Advance(s, t).value.procs) < WorkLeft(s.procs)
  {
    StepGoesForward(s, t);
    WorkDrops(s.procs, t, Advance(s, t).value.procs[t]);
  }

  /** From every state of every run, the transactions can all be driven to their end without an abort. */
  lemma EveryRunCanFinish(s: State) returns (events: seq<Event>)
    requires Inv(s)
    ensures forall i :: 0 <= i < |events| ==> events[i].Step?
    ensures forall t :: t in Run(s, events).procs ==> Run(s, events).procs[t].Done?
    decreases WorkLeft(s.procs)
  {
    hide Inv, Advance;
    if forall t :: t in s.procs ==> s.procs[t].Done? {
      events := [];
    } else {
      var t :| t in s.procs && !s.procs[t].Done?;
      var u := SomeoneCanStep(s, t);
      StepDoesWork(s, u);
      NextKeepsInv(s, Step(u));
      var rest := EveryRunCanFinish(Next(s, Step(u)));
      events := [Step(u)] + rest;
      assert events[1..] == rest;
    }
  }

  // ---- Fees ----

  /** Rounding of a non-negative number of hundredths of a cent to a NUMERIC(12, 2) column. */
  function RoundToCents(hundredths: nat): nat {
    (hundredths + 50) / 100
  }

  /** The net and fee columns that Charge and ChargeTopUp fill at the 3% rate. */
  function NetOf(amount: nat): nat {
    RoundToCents(amount * 97)
  }

  function FeeOf(amount: nat): nat {
    RoundToCents(amount * 3)
  }

  /** Fee and net add up to the amount except when both round up, and a positive amount always nets something. */
  lemma FeeSplit(amount: nat)
    ensures FeeOf(amount) + NetOf(amount) == amount <==> amount % 100 != 50
    ensures amount % 100 == 50 ==> FeeOf(amount) + NetOf(amount) == amount + 1
    ensures amount > 0 <==> NetOf(amount) > 0
  {
    var q, r := amount / 100, amount % 100;
    WholePart(97 * r + 50, 97 * q);
    WholePart(3 * r + 50, 3 * q);
    FeeSplitBelow100(r);
  }

  /** Three per cent of the amount is the fee and the rest is net, each to the nearest cent, half a cent going up. */
  lemma FeeRates(amount: nat)
    ensures -50 < 100 * FeeOf(amount) - 3 * amount <= 50
    ensures -50 < 100 * NetOf(amount) - 97 * amount <= 50
  {
  }

  lemma WholePart(x: nat, k: nat)
    ensures (x + 100 * k) / 100 == x / 100 + k
  {
  }

  lemma FeeSplitBelow100(r: nat)
    requires r < 100
    ensures (3 * r + 50) / 100 + (97 * r + 50) / 100 == if r == 50 then r + 1 else r
    ensures r > 0 <==> (97 * r + 50) / 100 > 0
  {
    var fee := (3 * r + 50) / 100;
    assert r < 17 ==> fee == 0;
    assert 17 <= r < 50 ==> fee == 1;
    assert 50 <= r < 84 ==> fee == 2;
    assert 84 <= r ==> fee == 3;
  }
}
