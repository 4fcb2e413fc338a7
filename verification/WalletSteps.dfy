/**
 The statements that wallet, billing and payment transactions execute, one
 database step at a time, under row locks. Any number of transactions run
 interleaved. Uncommitted writes live in the transaction itself and reach the
 tables only at its commit, together; an abort drops them.
 */
module WalletSteps {
  import opened Wrappers
  import opened WalletTables

  /** The arguments of lockAndApply and insertWalletTx. */
  datatype Entry = Entry(tenant: int, customer: int, kind: RowKind, delta: int, ref: Ref)

  /** How far lockAndApply, insertWalletTx and markWindowPaidTx have come. */
  datatype Stage =
    | Waiting
    | Locked(seen: int)
    | Updated(pending: int, after: int)
    | Inserted(pending: int, row: Row)
    | Marked(pending: int, row: Row)

  datatype Error = NotFound | Insufficient | BadAmount | Aborted

  datatype Outcome =
    | Committed
    | AlreadySettled
    | Rejected(error: Error)
    | Uncredited(payment: nat)  // Settle ended after its status update and before its credit committed

  datatype Proc =
    | SettleRead(externalRef: string)
    | SettleUpdate(payment: nat, seen: Payment)
    | BillStart(tenant: int, window: int)
    | ManualStart(tenant: int, window: int)
    | ManualMarked(marked: nat)
    | Apply(entry: Entry, stage: Stage)
    | Done(outcome: Outcome)

  datatype State = State(
    customers: map<int, Customer>,
    windows: seq<Window>,
    payments: seq<Payment>,
    ledger: seq<Row>,
    nextRowId: nat,
    customerLock: map<int, int>,
    windowLock: map<nat, int>,
    procs: map<int, Proc>)

  const EMPTY := State(map[], [], [], [], 0, map[], map[], map[])

  // ---- The rows a transaction holds ----

  function HeldCustomer(p: Proc): Option<int> {
    if p.Apply? && !p.stage.Waiting? then Some(p.entry.customer) else None
  }

  function HeldWindow(p: Proc): Option<nat> {
    match p
    case ManualMarked(w) => Some(w)
    case Apply(e, _) => if e.ref.WindowRef? then Some(e.ref.window) else None
    case _ => None
  }

  function Unlock<K>(locks: map<K, int>, t: int): map<K, int> {
    map k | k in locks && locks[k] != t :: locks[k]
  }

  /** The payment whose credit a settlement has claimed and not booked. */
  function CreditOf(p: Proc): Option<nat> {
    match p
    case Apply(e, _) => if e.ref.PaymentRef? then Some(e.ref.payment) else None
    case Done(Uncredited(pid)) => Some(pid)
    case _ => None
  }

  // ---- Table lookups ----

  predicate CustomerExists(s: State, tenant: int, customer: int) {
    customer in s.customers && s.customers[customer].tenant == tenant
  }

  predicate WindowExists(s: State, tenant: int, window: int) {
    0 <= window < |s.windows| && s.windows[window].tenant == tenant
  }

  /** Another row that the partial unique index on top-ups would clash with. */
  predicate LiveClash(payments: seq<Payment>, p: Payment, except: int) {
    p.CreditsWallet() &&
    exists i :: 0 <= i < |payments| && i != except && payments[i].Live() &&
                payments[i].tenant == p.tenant && payments[i].customer == p.customer
  }

  // ---- Single steps ----

  function Goto(s: State, t: int, p: Proc): State {
    s.(procs := s.procs[t := p])
  }

  function Finish(s: State, t: int, o: Outcome): State {
    s.(customerLock := Unlock(s.customerLock, t), windowLock := Unlock(s.windowLock, t), procs := s.procs[t := Done(o)])
  }

  /** The return value of a transaction that rolls back. */
  function Failure(p: Proc, error: Error): Outcome {
    if CreditOf(p).Some? then Uncredited(CreditOf(p).value) else Rejected(error)
  }

  function Fail(s: State, t: int, error: Error): State
    requires t in s.procs
  {
    Finish(s, t, Failure(s.procs[t], error))
  }

  function MarkPaid(windows: seq<Window>, w: nat): seq<Window>
    requires w < |windows|
  {
    windows[w := windows[w].(status := Paid)]
  }

  /** Commit of a transaction that has run lockAndApply and insertWalletTx. */
  function Commit(s: State, t: int, e: Entry, pending: int, row: Row): State
    requires e.customer in s.customers
    requires e.ref.WindowRef? ==> e.ref.window < |s.windows|
  {
    Finish(s.(customers := s.customers[e.customer := s.customers[e.customer].(balance := pending)],
              ledger := s.ledger + [row],
              windows := if e.ref.WindowRef? then MarkPaid(s.windows, e.ref.window) else s.windows),
           t, Committed)
  }

  /** The next statement of lockAndApply, insertWalletTx and markWindowPaidTx. */
  function AdvanceEntry(s: State, t: int, e: Entry, stage: Stage): Option<State>
    requires t in s.procs && s.procs[t] == Apply(e, stage)
  {
    match stage
    case Waiting =>
      if !CustomerExists(s, e.tenant, e.customer) then Some(Fail(s, t, NotFound))
      else if e.customer in s.customerLock then None
      else Some(Goto(s, t, Apply(e, Locked(s.customers[e.customer].balance)))
                .(customerLock := s.customerLock[e.customer := t]))
    case Locked(seen) =>
      if seen + e.delta < 0 then Some(Fail(s, t, Insufficient))
      else if e.customer !in s.customers then Some(Fail(s, t, NotFound))
      else Some(Goto(s, t, Apply(e, Updated(s.customers[e.customer].balance + e.delta, seen + e.delta))))
    case Updated(pending, after) =>
      var row := Row(s.nextRowId, e.tenant, e.customer, e.kind, e.delta, after, e.ref);
      Some(Goto(s, t, Apply(e, Inserted(pending, row))).(nextRowId := s.nextRowId + 1))
    case Inserted(pending, row) =>
      if e.customer !in s.customers then Some(Fail(s, t, NotFound))
      else if e.ref.WindowRef? then
        if !WindowExists(s, e.tenant, e.ref.window) then Some(Fail(s, t, NotFound))
        else Some(Goto(s, t, Apply(e, Marked(pending, row))))
      else Some(Commit(s, t, e, pending, row))
    case Marked(pending, row) =>
      if e.customer !in s.customers || (e.ref.WindowRef? && e.ref.window >= |s.windows|)
      then Some(Fail(s, t, NotFound))
      else Some(Commit(s, t, e, pending, row))
  }

  /** The entry a settlement books once its status update has gone through. */
  function CreditEntry(pid: nat, p: Payment): Entry
    requires p.customer.Some?
  {
    Entry(p.tenant, p.customer.value, TopUp, p.net, PaymentRef(pid))
  }

  /** Settle's guarded status update, an autocommitted statement. */
  function AdvanceSettleUpdate(s: State, t: int, pid: nat, seen: Payment): State
    requires t in s.procs
  {
    if pid >= |s.payments| || s.payments[pid].status !in {Pending, Failed} ||
       LiveClash(s.payments, s.payments[pid], pid)
    then Fail(s, t, NotFound)
    else
      var updated := s.(payments := s.payments[pid := s.payments[pid].(status := Succeeded)]);
      if !seen.CreditsWallet() then Finish(updated, t, Committed)
      else if seen.net <= 0 then Finish(updated, t, Uncredited(pid))
      else Goto(updated, t, Apply(CreditEntry(pid, seen), Waiting))
  }

  function BillEntry(w: Window, window: nat): Entry {
    Entry(w.tenant, w.customer, BillPayment, -w.amount, WindowRef(window))
  }

  /** One statement of transaction `t`; None while it waits for a row lock. */
  function Advance(s: State, t: int): Option<State>
    requires t in s.procs
  {
    match s.procs[t]
    case SettleRead(externalRef) =>
      var found := PaymentByRef(s.payments, externalRef);
      Some(if found.None? then Fail(s, t, NotFound)
           else if s.payments[found.value].status == Succeeded then Finish(s, t, AlreadySettled)
           else Goto(s, t, SettleUpdate(found.value, s.payments[found.value])))
    case SettleUpdate(pid, seen) =>
      Some(AdvanceSettleUpdate(s, t, pid, seen))
    case BillStart(tenant, w) =>
      if !WindowExists(s, tenant, w) || s.windows[w].status == Paid then Some(Fail(s, t, NotFound))
      else if w in s.windowLock then None
      else Some(Goto(s, t, Apply(BillEntry(s.windows[w], w), Waiting)).(windowLock := s.windowLock[w := t]))
    case ManualStart(tenant, w) =>
      if !WindowExists(s, tenant, w) then Some(Fail(s, t, NotFound))
      else if w in s.windowLock then None
      else Some(Goto(s, t, ManualMarked(w)).(windowLock := s.windowLock[w := t]))
    case ManualMarked(w) =>
      Some(if w < |s.windows| then Finish(s.(windows := MarkPaid(s.windows, w)), t, Committed)
           else Fail(s, t, NotFound))
    case Apply(e, stage) =>
      AdvanceEntry(s, t, e, stage)
    case Done(_) =>
      None
  }

  // ---- Events ----

  datatype Op =
    | Settle(externalRef: string)
    | Adjust(tenant: int, customer: int, delta: int)
    | PayFromWallet(tenant: int, window: int)
    | PayManually(tenant: int, window: int)

  function Start(op: Op): Proc {
    match op
    case Settle(externalRef) => SettleRead(externalRef)
    case Adjust(tenant, customer, delta) =>
      if delta == 0 then Done(Rejected(BadAmount))
      else Apply(Entry(tenant, customer, Adjustment, delta, NoRef), Waiting)
    case PayFromWallet(tenant, w) => BillStart(tenant, w)
    case PayManually(tenant, w) => ManualStart(tenant, w)
  }

  datatype Event =
    | AddCustomer(id: int, tenant: int, token: bool)
    | GenerateWindows(tenant: int, period: int, fee: int, order: seq<int>)
    | CreatePayment(payment: Payment)
    | Begin(tx: int, op: Op)
    | Step(tx: int)
    | Abort(tx: int)

  predicate PaymentAccepted(s: State, p: Payment) {
    && p.amount >= 0 && p.status == Pending
    && (forall i :: 0 <= i < |s.payments| ==> s.payments[i].externalRef != p.externalRef)
    && (p.customer.Some? ==> CustomerExists(s, p.tenant, p.customer.value) && p.customer.value !in s.customerLock)
    && !LiveClash(s.payments, p, -1)
  }

  /** Customers that GenerateMonthlyWindows inserts a window for. */
  predicate Billable(s: State, tenant: int, period: int, c: int) {
    && CustomerExists(s, tenant, c) && s.customers[c].token
    && forall w :: 0 <= w < |s.windows| ==> !(s.windows[w].customer == c && s.windows[w].periodStart == period)
  }

  /** `order` lists every billable customer once, in the order the database visits them. */
  predicate BillingOrder(s: State, tenant: int, period: int, order: seq<int>) {
    && (forall i, j :: 0 <= i < j < |order| ==> order[i] != order[j])
    && (forall c :: c in order ==> Billable(s, tenant, period, c))
    && (forall c :: c in s.customers && Billable(s, tenant, period, c) ==> c in order)
  }

  function NewWindows(tenant: int, period: int, fee: int, order: seq<int>): (ws: seq<Window>)
    ensures |ws| == |order|
    ensures forall i :: 0 <= i < |ws| ==> ws[i] == Window(tenant, order[i], period, fee, Issued)
  {
    seq(|order|, i requires 0 <= i < |order| => Window(tenant, order[i], period, fee, Issued))
  }

  /** The state after one event; an event that the database refuses changes nothing. */
  function Next(s: State, ev: Event): State {
    match ev
    case AddCustomer(id, tenant, token) =>
      if id in s.customers then s else s.(customers := s.customers[id := Customer(tenant, 0, token)])
    case GenerateWindows(tenant, period, fee, order) =>
      if fee >= 0 && BillingOrder(s, tenant, period, order)
      then s.(windows := s.windows + NewWindows(tenant, period, fee, order)) else s
    case CreatePayment(p) =>
      if PaymentAccepted(s, p) then s.(payments := s.payments + [p]) else s
    case Begin(t, op) =>
      if t in s.procs then s else Goto(s, t, Start(op))
    case Step(t) =>
      if t in s.procs && Advance(s, t).Some? then Advance(s, t).value else s
    case Abort(t) =>
      if t in s.procs && !s.procs[t].Done? then Fail(s, t, Aborted) else s
  }

  /** The state after a whole run. */
  function Run(s: State, events: seq<Event>): State
    decreases |events|
  {
    if events == [] then s else Run(Next(s, events[0]), events[1..])
  }
}
