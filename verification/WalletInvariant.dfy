/** What every event of a wallet run keeps. */
module WalletInvariant {
  import opened Wrappers
  import opened WalletTables
  import opened WalletSteps

  // ---- Locks ----

  /** The lock tables say exactly who holds what. */
  ghost predicate LocksOk(s: State) {
    && (forall c :: c in s.customerLock ==>
          s.customerLock[c] in s.procs && HeldCustomer(s.procs[s.customerLock[c]]) == Some(c))
    && (forall w :: w in s.windowLock ==>
          s.windowLock[w] in s.procs && HeldWindow(s.procs[s.windowLock[w]]) == Some(w))
    && (forall t :: t in s.procs && HeldCustomer(s.procs[t]).Some? ==>
          HeldCustomer(s.procs[t]).value in s.customerLock && s.customerLock[HeldCustomer(s.procs[t]).value] == t)
    && (forall t :: t in s.procs && HeldWindow(s.procs[t]).Some? ==>
          HeldWindow(s.procs[t]).value in s.windowLock && s.windowLock[HeldWindow(s.procs[t]).value] == t)
  }

  // ---- Transactions ----

  ghost predicate EntryOk(s: State, e: Entry) {
    match e.kind
    case TopUp =>
      && e.ref.PaymentRef? && e.ref.payment < |s.payments| && s.payments[e.ref.payment].SettledTopUp()
      && e == CreditEntry(e.ref.payment, s.payments[e.ref.payment]) && e.delta > 0
    case BillPayment =>
      && e.ref.WindowRef? && e.ref.window < |s.windows| && s.windows[e.ref.window].status != Paid
      && e == BillEntry(s.windows[e.ref.window], e.ref.window)
    case Adjustment => e.ref == NoRef
  }

  ghost predicate RowPending(s: State, e: Entry, pending: int, row: Row) {
    && CustomerExists(s, e.tenant, e.customer)
    && pending == s.customers[e.customer].balance + e.delta
    && row == Row(row.id, e.tenant, e.customer, e.kind, e.delta, pending, e.ref)
    && row.id < s.nextRowId
    && forall i :: 0 <= i < |s.ledger| && s.ledger[i].customer == e.customer ==> s.ledger[i].id < row.id
  }

  /** What a transaction remembers about a locked customer is still what the table says. */
  ghost predicate StageOk(s: State, e: Entry, stage: Stage)
  {
    !stage.Waiting? ==>
      && CustomerExists(s, e.tenant, e.customer)
      && match stage
         case Waiting => true
         case Locked(seen) => seen == s.customers[e.customer].balance
         case Updated(pending, after) => pending == after == s.customers[e.customer].balance + e.delta && after >= 0
         case Inserted(pending, row) => pending >= 0 && RowPending(s, e, pending, row)
         case Marked(pending, row) => pending >= 0 && RowPending(s, e, pending, row) && e.ref.WindowRef?
  }

  ghost predicate ProcOk(s: State, p: Proc) {
    match p
    case SettleUpdate(pid, seen) => pid < |s.payments| && seen == s.payments[pid].(status := seen.status)
    case ManualMarked(w) => w < |s.windows|
    case Apply(e, stage) => EntryOk(s, e) && StageOk(s, e, stage)
    case Done(Uncredited(pid)) => pid < |s.payments| && s.payments[pid].SettledTopUp()
    case _ => true
  }

  ghost predicate ProcsOk(s: State) {
    forall t :: t in s.procs ==> ProcOk(s, s.procs[t])
  }

  // ---- Tables ----

  ghost predicate BalancesOk(s: State) {
    forall c :: c in s.customers ==> s.customers[c].balance == LedgerSum(s.ledger, c) && s.customers[c].balance >= 0
  }

  /** A ledger row agrees with the payment or window it books. */
  ghost predicate RowMatches(s: State, row: Row) {
    match row.kind
    case TopUp =>
      && row.ref.PaymentRef? && row.ref.payment < |s.payments| && s.payments[row.ref.payment].SettledTopUp()
      && s.payments[row.ref.payment].customer == Some(row.customer)
      && row.amount == s.payments[row.ref.payment].net
    case BillPayment =>
      && row.ref.WindowRef? && row.ref.window < |s.windows| && s.windows[row.ref.window].status == Paid
      && s.windows[row.ref.window].customer == row.customer
      && row.amount == -s.windows[row.ref.window].amount
    case Adjustment => row.ref == NoRef
  }

  ghost predicate RowOk(s: State, i: int)
    requires 0 <= i < |s.ledger|
  {
    var row := s.ledger[i];
    && CustomerExists(s, row.tenant, row.customer)
    && row.id < s.nextRowId
    && row.balanceAfter == LedgerSum(s.ledger[..i + 1], row.customer)
    && RowMatches(s, row)
  }

  ghost predicate RowsOk(s: State) {
    forall i {:trigger s.ledger[i]} {:trigger RowOk(s, i)} :: 0 <= i < |s.ledger| ==> RowOk(s, i)
  }

  /** A customer's rows are in id order, and no payment or window is booked twice. */
  ghost predicate RowsDistinct(s: State) {
    forall i, j :: 0 <= i < j < |s.ledger| ==>
      && (s.ledger[i].customer == s.ledger[j].customer ==> s.ledger[i].id < s.ledger[j].id)
      && (s.ledger[i].ref != NoRef ==> s.ledger[i].ref != s.ledger[j].ref)
  }

  ghost predicate Booked(s: State, pid: nat) {
    exists i :: 0 <= i < |s.ledger| && s.ledger[i].ref == PaymentRef(pid)
  }

  ghost predicate Claimed(s: State, pid: nat) {
    exists t :: t in s.procs && CreditOf(s.procs[t]) == Some(pid)
  }

  /** Every settled top-up is booked or claimed by exactly one settlement, never both. */
  ghost predicate CreditsOk(s: State) {
    && (forall t, u :: t in s.procs && u in s.procs && t != u && CreditOf(s.procs[t]).Some? ==>
          CreditOf(s.procs[t]) != CreditOf(s.procs[u]))
    && (forall t, i :: t in s.procs && 0 <= i < |s.ledger| && CreditOf(s.procs[t]).Some? ==>
          s.ledger[i].ref != PaymentRef(CreditOf(s.procs[t]).value))
    && (forall pid: nat :: pid < |s.payments| && s.payments[pid].SettledTopUp() ==> Booked(s, pid) || Claimed(s, pid))
  }

  ghost predicate PaymentsOk(s: State) {
    && (forall i :: 0 <= i < |s.payments| && s.payments[i].customer.Some? ==>
          CustomerExists(s, s.payments[i].tenant, s.payments[i].customer.value))
    && (forall i, j :: 0 <= i < j < |s.payments| ==> s.payments[i].externalRef != s.payments[j].externalRef)
    && (forall i, j :: 0 <= i < j < |s.payments| && s.payments[i].Live() && s.payments[j].Live() ==>
          !(s.payments[i].tenant == s.payments[j].tenant && s.payments[i].customer == s.payments[j].customer))
  }

  ghost predicate WindowsOk(s: State) {
    && (forall w :: 0 <= w < |s.windows| ==> CustomerExists(s, s.windows[w].tenant, s.windows[w].customer))
    && (forall v, w :: 0 <= v < w < |s.windows| ==>
          !(s.windows[v].customer == s.windows[w].customer && s.windows[v].periodStart == s.windows[w].periodStart))
  }

  ghost predicate Inv(s: State) {
    && LocksOk(s) && ProcsOk(s) && BalancesOk(s) && RowsOk(s) && RowsDistinct(s)
    && CreditsOk(s) && PaymentsOk(s) && WindowsOk(s)
  }

  // ---- Events that leave the tables alone ----

  /** Only transaction `t` moved, and it claims what it claimed before. */
  ghost predicate Moved(s: State, s': State, t: int, p: Proc) {
    && s'.customers == s.customers && s'.windows == s.windows && s'.payments == s.payments && s'.ledger == s.ledger
    && s'.nextRowId >= s.nextRowId && s'.procs == s.procs[t := p]
    && CreditOf(p) == (if t in s.procs then CreditOf(s.procs[t]) else None)
  }

  lemma MoveKeepsInv(s: State, s': State, t: int, p: Proc)
    requires Inv(s) && Moved(s, s', t, p) && LocksOk(s') && ProcOk(s', p)
    ensures Inv(s')
  {
    hide LocksOk, CreditsOk;
    forall u | u in s'.procs
      ensures ProcOk(s', s'.procs[u])
    {
      if u != t {
        assert ProcOk(s, s.procs[u]);
      }
    }
    ClaimsMove(s, s', t, p);
  }

  lemma ClaimsMove(s: State, s': State, t: int, p: Proc)
    requires CreditsOk(s) && Moved(s, s', t, p)
    ensures CreditsOk(s')
  {
    forall pid: nat | pid < |s'.payments| && s'.payments[pid].SettledTopUp()
      ensures Booked(s', pid) || Claimed(s', pid)
    {
      if Booked(s, pid) {
        var i :| 0 <= i < |s.ledger| && s.ledger[i].ref == PaymentRef(pid);
        assert s'.ledger[i].ref == PaymentRef(pid);
      } else {
        var u :| u in s.procs && CreditOf(s.procs[u]) == Some(pid);
        assert u in s'.procs && CreditOf(s'.procs[u]) == Some(pid);
      }
    }
  }

  lemma FinishReleases(s: State, t: int, o: Outcome)
    requires LocksOk(s) && t in s.procs
    ensures LocksOk(Finish(s, t, o))
  {
  }

  lemma FailKeepsInv(s: State, t: int, error: Error)
    requires Inv(s) && t in s.procs
    ensures Inv(Fail(s, t, error))
  {
    var p := Done(Failure(s.procs[t], error));
    FinishReleases(s, t, p.outcome);
    assert ProcOk(s, s.procs[t]);
    MoveKeepsInv(s, Fail(s, t, error), t, p);
  }

  // ---- Commits ----

  lemma CommitKeepsInv(s: State, t: int, e: Entry, pending: int, row: Row)
    requires Inv(s) && t in s.procs && s.procs[t].Apply? && s.procs[t].entry == e
    requires s.procs[t].stage == Inserted(pending, row) || s.procs[t].stage == Marked(pending, row)
    ensures e.customer in s.customers && (e.ref.WindowRef? ==> e.ref.window < |s.windows|)
    ensures Inv(Commit(s, t, e, pending, row))
  {
    hide Unlock, LocksOk, BalancesOk, RowsOk, RowsDistinct, CreditsOk, PaymentsOk, WindowsOk;
    assert ProcOk(s, s.procs[t]);
    var s' := Commit(s, t, e, pending, row);
    CommitProcs(s, t, e, pending, row);
    CommitTables(s, t, e, pending, row);
    CommitCredits(s, t, e, pending, row);
  }

  ghost predicate Committing(s: State, t: int, e: Entry, pending: int, row: Row) {
    && Inv(s) && t in s.procs && s.procs[t].Apply? && s.procs[t].entry == e
    && (s.procs[t].stage == Inserted(pending, row) || s.procs[t].stage == Marked(pending, row))
    && ProcOk(s, s.procs[t])
  }

  /** A commit by someone else leaves alone what a transaction relies on. */
  lemma CommitSparesOthers(s: State, t: int, e: Entry, pending: int, row: Row, p: Proc)
    requires e.customer in s.customers && (e.ref.WindowRef? ==> e.ref.window < |s.windows|)
    requires row.customer == e.customer
    requires ProcOk(s, p) && HeldCustomer(p) != Some(e.customer)
    requires e.ref.WindowRef? ==> HeldWindow(p) != Some(e.ref.window)
    ensures ProcOk(Commit(s, t, e, pending, row), p)
  {
    var s' := Commit(s, t, e, pending, row);
    if p.Apply? {
      assert EntryOk(s', p.entry);
      assert StageOk(s', p.entry, p.stage);
    }
  }

  lemma CommitProcs(s: State, t: int, e: Entry, pending: int, row: Row)
    requires Committing(s, t, e, pending, row)
    ensures LocksOk(Commit(s, t, e, pending, row)) && ProcsOk(Commit(s, t, e, pending, row))
  {
    hide BalancesOk, RowsOk, RowsDistinct, CreditsOk, PaymentsOk, WindowsOk;
    var s' := Commit(s, t, e, pending, row);
    FinishReleases(s, t, Committed);
    assert LocksOk(s') by {
      assert s'.customerLock == Finish(s, t, Committed).customerLock;
      assert s'.windowLock == Finish(s, t, Committed).windowLock;
      assert s'.procs == Finish(s, t, Committed).procs;
    }
    forall u | u in s'.procs
      ensures ProcOk(s', s'.procs[u])
    {
      if u != t {
        assert ProcOk(s, s.procs[u]);
        CommitSparesOthers(s, t, e, pending, row, s.procs[u]);
      }
    }
  }

  lemma CommitTables(s: State, t: int, e: Entry, pending: int, row: Row)
    requires Committing(s, t, e, pending, row)
    ensures BalancesOk(Commit(s, t, e, pending, row))
    ensures RowsOk(Commit(s, t, e, pending, row)) && RowsDistinct(Commit(s, t, e, pending, row))
    ensures PaymentsOk(Commit(s, t, e, pending, row)) && WindowsOk(Commit(s, t, e, pending, row))
  {
    hide Unlock, LocksOk, ProcsOk, CreditsOk, RowsOk, RowsDistinct;
    var s' := Commit(s, t, e, pending, row);
    CommitBalances(s, s', t, e, pending, row);
    CommitRows(s, s', t, e, pending, row);
    CommitDistinct(s, s', t, e, pending, row);
    hide BalancesOk;
  }

  lemma CommitBalances(s: State, s': State, t: int, e: Entry, pending: int, row: Row)
    requires Committing(s, t, e, pending, row) && s' == Commit(s, t, e, pending, row)
    ensures BalancesOk(s')
  {
    hide Unlock, LocksOk, ProcsOk, CreditsOk, RowsOk, RowsDistinct, PaymentsOk, WindowsOk;
    forall c | c in s'.customers
      ensures s'.customers[c].balance == LedgerSum(s'.ledger, c) && s'.customers[c].balance >= 0
    {
      SumsAppend(s.ledger, row, c);
    }
  }

  lemma CommitRows(s: State, s': State, t: int, e: Entry, pending: int, row: Row)
    requires Committing(s, t, e, pending, row) && s' == Commit(s, t, e, pending, row)
    ensures RowsOk(s')
  {
    hide Unlock, LocksOk, ProcsOk, CreditsOk, PaymentsOk, WindowsOk, RowsDistinct;
    assert RowMatches(s', row);
    assert s.customers[e.customer].balance == LedgerSum(s.ledger, e.customer);
    forall i | 0 <= i < |s'.ledger|
      ensures RowOk(s', i)
    {
      if i < |s.ledger| {
        OldRowStays(s, s', row, i);
      } else {
        NewRowOk(s, s', row);
      }
    }
  }

  lemma OldRowStays(s: State, s': State, row: Row, i: nat)
    requires i < |s.ledger| && RowsOk(s) && s'.ledger == s.ledger + [row] && s'.nextRowId == s.nextRowId
    requires forall c :: c in s.customers ==> c in s'.customers && s'.customers[c].tenant == s.customers[c].tenant
    requires s'.payments == s.payments && |s'.windows| == |s.windows|
    requires forall w :: 0 <= w < |s.windows| ==>
               s'.windows[w] == s.windows[w] || s'.windows[w] == s.windows[w].(status := Paid)
    ensures RowOk(s', i)
  {
    assert s'.ledger[i] == s.ledger[i] && s'.ledger[..i + 1] == s.ledger[..i + 1];
    assert RowMatches(s, s.ledger[i]);
  }

  lemma NewRowOk(s: State, s': State, row: Row)
    requires s'.ledger == s.ledger + [row] && row.id < s'.nextRowId && CustomerExists(s', row.tenant, row.customer)
    requires row.balanceAfter == LedgerSum(s.ledger, row.customer) + row.amount && RowMatches(s', row)
    ensures RowOk(s', |s.ledger|)
  {
    SumsAppend(s.ledger, row, row.customer);
    assert s'.ledger[..|s.ledger| + 1] == s.ledger + [row];
  }

  /** A window is booked only once it is paid, a payment only while one settlement claims it. */
  lemma CommitDistinct(s: State, s': State, t: int, e: Entry, pending: int, row: Row)
    requires Committing(s, t, e, pending, row) && s' == Commit(s, t, e, pending, row)
    ensures RowsDistinct(s')
  {
    hide Unlock, LocksOk, ProcsOk, PaymentsOk, WindowsOk, BalancesOk;
    var n := |s.ledger|;
    forall i | 0 <= i < n
      ensures s'.ledger[i] == s.ledger[i]
      ensures row.ref != NoRef ==> s.ledger[i].ref != row.ref
      ensures s.ledger[i].customer == row.customer ==> s.ledger[i].id < row.id
    {
      assert RowMatches(s, s.ledger[i]);
    }
    assert s'.ledger[n] == row;
  }

  lemma CommitCredits(s: State, t: int, e: Entry, pending: int, row: Row)
    requires Committing(s, t, e, pending, row)
    ensures CreditsOk(Commit(s, t, e, pending, row))
  {
    hide Unlock, LocksOk, ProcsOk, BalancesOk, RowsOk, RowsDistinct, PaymentsOk, WindowsOk;
    var s' := Commit(s, t, e, pending, row);
    assert forall i :: 0 <= i < |s.ledger| ==> s'.ledger[i] == s.ledger[i];
    assert s'.ledger[|s.ledger|] == row;
    forall pid: nat | pid < |s'.payments| && s'.payments[pid].SettledTopUp()
      ensures Booked(s', pid) || Claimed(s', pid)
    {
      if Booked(s, pid) {
        var i :| 0 <= i < |s.ledger| && s.ledger[i].ref == PaymentRef(pid);
        assert s'.ledger[i].ref == PaymentRef(pid);
      } else {
        var u :| u in s.procs && CreditOf(s.procs[u]) == Some(pid);
        if u == t {
          assert s'.ledger[|s.ledger|].ref == PaymentRef(pid);
        } else {
          assert u in s'.procs && CreditOf(s'.procs[u]) == Some(pid);
        }
      }
    }
  }

  lemma ManualCommitKeepsInv(s: State, t: int)
    requires Inv(s) && t in s.procs && s.procs[t].ManualMarked?
    ensures s.procs[t].marked < |s.windows|
    ensures Inv(Finish(s.(windows := MarkPaid(s.windows, s.procs[t].marked)), t, Committed))
  {
    assert ProcOk(s, s.procs[t]);
    var w := s.procs[t].marked;
    var s0 := Finish(s, t, Committed);
    FinishReleases(s, t, Committed);
    MoveKeepsInv(s, s0, t, Done(Committed));
    forall u | u in s0.procs
      ensures HeldWindow(s0.procs[u]) != Some(w)
    {
    }
    MarkUnlockedKeepsInv(s0, w);
  }

  /** Marking a window paid that no transaction holds. */
  lemma MarkUnlockedKeepsInv(s: State, w: nat)
    requires Inv(s) && w < |s.windows| && forall u :: u in s.procs ==> HeldWindow(s.procs[u]) != Some(w)
    ensures Inv(s.(windows := MarkPaid(s.windows, w)))
  {
    var s' := s.(windows := MarkPaid(s.windows, w));
    MarkingKeepsProcs(s, w);
    MarkingKeepsRows(s, w);
    hide ProcsOk, RowsOk;
    forall pid: nat | Booked(s, pid) || Claimed(s, pid)
      ensures Booked(s', pid) || Claimed(s', pid)
    {
      SameClaims(s, s', pid);
    }
  }

  lemma MarkingKeepsProcs(s: State, w: nat)
    requires ProcsOk(s) && w < |s.windows| && forall u :: u in s.procs ==> HeldWindow(s.procs[u]) != Some(w)
    ensures ProcsOk(s.(windows := MarkPaid(s.windows, w)))
  {
    var s' := s.(windows := MarkPaid(s.windows, w));
    forall u | u in s'.procs
      ensures ProcOk(s', s'.procs[u])
    {
      assert ProcOk(s, s.procs[u]);
    }
  }

  lemma MarkingKeepsRows(s: State, w: nat)
    requires RowsOk(s) && w < |s.windows|
    ensures RowsOk(s.(windows := MarkPaid(s.windows, w)))
  {
    forall i | 0 <= i < |s.ledger|
      ensures RowMatches(s.(windows := MarkPaid(s.windows, w)), s.ledger[i])
    {
      assert RowMatches(s, s.ledger[i]);
    }
  }

  lemma SameClaims(s: State, s': State, pid: nat)
    requires s'.ledger == s.ledger && s'.procs == s.procs
    ensures Booked(s, pid) <==> Booked(s', pid)
    ensures Claimed(s, pid) <==> Claimed(s', pid)
  {
  }

  // ---- Settlement ----

  /** Payment `pid` was marked succeeded, and transaction `t` went on as `p`. */
  ghost predicate SettledBy(s: State, s': State, t: int, pid: nat, p: Proc) {
    && t in s.procs && CreditOf(s.procs[t]).None? && pid < |s.payments|
    && s.payments[pid].status in {Pending, Failed}
    && s'.customers == s.customers && s'.windows == s.windows && s'.ledger == s.ledger && s'.nextRowId == s.nextRowId
    && s'.payments == s.payments[pid := s.payments[pid].(status := Succeeded)]
    && s'.procs == s.procs[t := p]
    && CreditOf(p) == if s.payments[pid].CreditsWallet() then Some(pid) else None
  }

  /** Nobody can have claimed or booked a payment that is not settled yet. */
  lemma UnsettledIsFree(s: State, pid: nat)
    requires ProcsOk(s) && RowsOk(s) && pid < |s.payments| && s.payments[pid].status != Succeeded
    ensures forall u :: u in s.procs ==> CreditOf(s.procs[u]) != Some(pid)
    ensures forall i :: 0 <= i < |s.ledger| ==> s.ledger[i].ref != PaymentRef(pid)
  {
    forall u | u in s.procs
      ensures CreditOf(s.procs[u]) != Some(pid)
    {
      assert ProcOk(s, s.procs[u]);
    }
    forall i | 0 <= i < |s.ledger|
      ensures s.ledger[i].ref != PaymentRef(pid)
    {
      assert RowMatches(s, s.ledger[i]);
    }
  }

  lemma SettlingKeepsProcs(s: State, s': State, t: int, pid: nat, p: Proc)
    requires ProcsOk(s) && RowsOk(s) && SettledBy(s, s', t, pid, p) && ProcOk(s', p)
    ensures ProcsOk(s') && RowsOk(s')
  {
    forall u | u in s'.procs
      ensures ProcOk(s', s'.procs[u])
    {
      if u != t {
        assert ProcOk(s, s.procs[u]);
      }
    }
    forall i | 0 <= i < |s.ledger|
      ensures RowMatches(s', s.ledger[i])
    {
      assert RowMatches(s, s.ledger[i]);
    }
  }

  lemma SettlingKeepsPayments(s: State, s': State, t: int, pid: nat, p: Proc)
    requires PaymentsOk(s) && SettledBy(s, s', t, pid, p) && !LiveClash(s.payments, s.payments[pid], pid)
    ensures PaymentsOk(s')
  {
  }

  lemma SettlingKeepsCredits(s: State, s': State, t: int, pid: nat, p: Proc)
    requires ProcsOk(s) && RowsOk(s) && CreditsOk(s) && SettledBy(s, s', t, pid, p)
    ensures CreditsOk(s')
  {
    UnsettledIsFree(s, pid);
    forall k: nat | k < |s'.payments| && s'.payments[k].SettledTopUp()
      ensures Booked(s', k) || Claimed(s', k)
    {
      if k == pid {
        assert t in s'.procs && CreditOf(s'.procs[t]) == Some(k);
      } else if Booked(s, k) {
        var i :| 0 <= i < |s.ledger| && s.ledger[i].ref == PaymentRef(k);
        assert s'.ledger[i].ref == PaymentRef(k);
      } else {
        var u :| u in s.procs && CreditOf(s.procs[u]) == Some(k);
        assert u in s'.procs && CreditOf(s'.procs[u]) == Some(k);
      }
    }
  }

  lemma SettleKeepsInv(s: State, t: int, pid: nat, seen: Payment)
    requires Inv(s) && t in s.procs && s.procs[t] == SettleUpdate(pid, seen)
    ensures Inv(AdvanceSettleUpdate(s, t, pid, seen))
  {
    hide LocksOk, CreditsOk, PaymentsOk;
    assert ProcOk(s, s.procs[t]);
    var s' := AdvanceSettleUpdate(s, t, pid, seen);
    if s.payments[pid].status !in {Pending, Failed} || LiveClash(s.payments, s.payments[pid], pid) {
      FailKeepsInv(s, t, NotFound);
    } else {
      var p := s'.procs[t];
      SettleLocks(s, t, pid, seen);
      SettlingKeepsProcs(s, s', t, pid, p);
      SettlingKeepsPayments(s, s', t, pid, p);
      SettlingKeepsCredits(s, s', t, pid, p);
    }
  }

  /** Where Settle's status update takes the transaction, and its locks. */
  lemma SettleShape(s: State, t: int, pid: nat, seen: Payment)
    requires t in s.procs && s.procs[t] == SettleUpdate(pid, seen)
    ensures var s' := AdvanceSettleUpdate(s, t, pid, seen);
            && t in s'.procs && s'.procs == s.procs[t := s'.procs[t]]
            && if s'.procs[t].Done?
               then s'.customerLock == Unlock(s.customerLock, t) && s'.windowLock == Unlock(s.windowLock, t)
               else s'.procs[t].Apply? && s'.procs[t].stage.Waiting? && s'.procs[t].entry.ref.PaymentRef? &&
                    s'.customerLock == s.customerLock && s'.windowLock == s.windowLock
  {
    hide LiveClash, Unlock, Failure;
    if pid < |s.payments| && s.payments[pid].status in {Pending, Failed} &&
       !LiveClash(s.payments, s.payments[pid], pid) {
      var updated := s.(payments := s.payments[pid := s.payments[pid].(status := Succeeded)]);
      assert updated.procs == s.procs;
      if seen.CreditsWallet() && seen.net > 0 {
        assert AdvanceSettleUpdate(s, t, pid, seen) == Goto(updated, t, Apply(CreditEntry(pid, seen), Waiting));
      }
    } else {
      assert AdvanceSettleUpdate(s, t, pid, seen) == Fail(s, t, NotFound);
    }
  }

  lemma SettleLocks(s: State, t: int, pid: nat, seen: Payment)
    requires LocksOk(s) && t in s.procs && s.procs[t] == SettleUpdate(pid, seen)
    ensures LocksOk(AdvanceSettleUpdate(s, t, pid, seen))
  {
    SettleShape(s, t, pid, seen);
    hide AdvanceSettleUpdate;
    var s' := AdvanceSettleUpdate(s, t, pid, seen);
    if s'.procs[t].Done? {
      FinishReleases(s, t, s'.procs[t].outcome);
      SameLocks(Finish(s, t, s'.procs[t].outcome), s');
    }
  }

  lemma SameLocks(a: State, b: State)
    requires LocksOk(a) && b.procs == a.procs && b.customerLock == a.customerLock && b.windowLock == a.windowLock
    ensures LocksOk(b)
  {
  }

  // ---- New rows ----

  /** The tables grew: customers, windows and payments of `s` are still there. */
  ghost predicate Grown(s: State, s': State) {
    && (forall c :: c in s.customers ==> c in s'.customers && s'.customers[c] == s.customers[c])
    && s.windows <= s'.windows && s.payments <= s'.payments
    && s'.ledger == s.ledger && s'.nextRowId == s.nextRowId && s'.procs == s.procs
    && s'.customerLock == s.customerLock && s'.windowLock == s.windowLock
  }

  lemma GrowthKeepsInv(s: State, s': State)
    requires Inv(s) && Grown(s, s') && BalancesOk(s') && PaymentsOk(s') && WindowsOk(s')
    requires forall i :: |s.payments| <= i < |s'.payments| ==> s'.payments[i].status == Pending
    ensures Inv(s')
  {
    GrowthKeepsProcs(s, s');
    GrowthKeepsCredits(s, s');
    hide ProcsOk, CreditsOk, BalancesOk, PaymentsOk, WindowsOk;
    forall i | 0 <= i < |s.ledger|
      ensures RowMatches(s', s.ledger[i])
    {
      assert RowMatches(s, s.ledger[i]);
    }
  }

  lemma GrowthKeepsProcs(s: State, s': State)
    requires ProcsOk(s) && Grown(s, s')
    ensures ProcsOk(s')
  {
    forall u | u in s'.procs
      ensures ProcOk(s', s'.procs[u])
    {
      assert ProcOk(s, s.procs[u]);
    }
  }

  lemma GrowthKeepsCredits(s: State, s': State)
    requires CreditsOk(s) && Grown(s, s')
    requires forall i :: |s.payments| <= i < |s'.payments| ==> s'.payments[i].status == Pending
    ensures CreditsOk(s')
  {
    forall pid: nat | pid < |s'.payments| && s'.payments[pid].SettledTopUp()
      ensures Booked(s', pid) || Claimed(s', pid)
    {
      assert pid < |s.payments| && s.payments[pid] == s'.payments[pid];
      SameClaims(s, s', pid);
    }
  }

  lemma NoRowsNoSum(ledger: seq<Row>, c: int)
    requires forall i :: 0 <= i < |ledger| ==> ledger[i].customer != c
    ensures LedgerSum(ledger, c) == 0
  {
  }

  lemma AddCustomerKeepsInv(s: State, id: int, tenant: int, token: bool)
    requires Inv(s)
    ensures Inv(Next(s, AddCustomer(id, tenant, token)))
  {
    hide LocksOk, ProcsOk, RowsDistinct, CreditsOk;
    if id !in s.customers {
      NoRowsNoSum(s.ledger, id);
      GrowthKeepsInv(s, Next(s, AddCustomer(id, tenant, token)));
    }
  }

  lemma GenerateKeepsInv(s: State, tenant: int, period: int, fee: int, order: seq<int>)
    requires Inv(s)
    ensures Inv(Next(s, GenerateWindows(tenant, period, fee, order)))
  {
    var s' := Next(s, GenerateWindows(tenant, period, fee, order));
    if fee >= 0 && BillingOrder(s, tenant, period, order) {
      forall i | 0 <= i < |order|
        ensures Billable(s, tenant, period, order[i])
      {
        assert order[i] in order;
      }
      GrowthKeepsInv(s, s');
    }
  }

  lemma CreatePaymentKeepsInv(s: State, p: Payment)
    requires Inv(s)
    ensures Inv(Next(s, CreatePayment(p)))
  {
    hide LocksOk, ProcsOk, RowsOk, RowsDistinct, CreditsOk;
    if PaymentAccepted(s, p) {
      GrowthKeepsInv(s, Next(s, CreatePayment(p)));
    }
  }

  // ---- Every event ----

  lemma EntryKeepsInv(s: State, t: int, e: Entry, stage: Stage)
    requires Inv(s) && t in s.procs && s.procs[t] == Apply(e, stage)
    ensures AdvanceEntry(s, t, e, stage).Some? ==> Inv(AdvanceEntry(s, t, e, stage).value)
  {
    assert ProcOk(s, s.procs[t]);
    hide Inv;
    match stage
    case Waiting =>
      FailKeepsInv(s, t, NotFound);
      if CustomerExists(s, e.tenant, e.customer) && e.customer !in s.customerLock {
        EntryMoves(s, t, e, stage);
      }
    case Locked(seen) =>
      if seen + e.delta < 0 {
        FailKeepsInv(s, t, Insufficient);
      } else {
        EntryMoves(s, t, e, stage);
      }
    case Updated(_, _) => EntryMoves(s, t, e, stage);
    case Inserted(pending, row) =>
      if e.ref.WindowRef? {
        EntryMoves(s, t, e, stage);
      } else {
        CommitKeepsInv(s, t, e, pending, row);
      }
    case Marked(pending, row) => CommitKeepsInv(s, t, e, pending, row);
  }

  /** The statements between taking the customer lock and the commit. */
  lemma EntryMoves(s: State, t: int, e: Entry, stage: Stage)
    requires Inv(s) && t in s.procs && s.procs[t] == Apply(e, stage) && ProcOk(s, s.procs[t])
    requires match stage
             case Waiting => CustomerExists(s, e.tenant, e.customer) && e.customer !in s.customerLock
             case Locked(seen) => seen + e.delta >= 0
             case Updated(_, _) => true
             case Inserted(_, _) => e.ref.WindowRef?
             case Marked(_, _) => false
    ensures AdvanceEntry(s, t, e, stage).Some? && Inv(AdvanceEntry(s, t, e, stage).value)
  {
    var s' := AdvanceEntry(s, t, e, stage).value;
    EntryMoved(s, t, e, stage);
    EntryLocks(s, s', t);
    hide Inv, LocksOk, ProcOk, AdvanceEntry;
    MoveKeepsInv(s, s', t, s'.procs[t]);
  }

  /** The same statements, as far as the transaction itself and the tables go. */
  lemma EntryMoved(s: State, t: int, e: Entry, stage: Stage)
    requires RowsOk(s) && t in s.procs && s.procs[t] == Apply(e, stage) && ProcOk(s, s.procs[t])
    requires match stage
             case Waiting => CustomerExists(s, e.tenant, e.customer) && e.customer !in s.customerLock
             case Locked(seen) => seen + e.delta >= 0
             case Updated(_, _) => true
             case Inserted(_, _) => e.ref.WindowRef?
             case Marked(_, _) => false
    ensures var next := AdvanceEntry(s, t, e, stage);
            && next.Some? && t in next.value.procs && Moved(s, next.value, t, next.value.procs[t])
            && next.value.procs[t].Apply? && next.value.procs[t].entry == e && !next.value.procs[t].stage.Waiting?
            && ProcOk(next.value, next.value.procs[t])
            && next.value.windowLock == s.windowLock
            && (if stage.Waiting? then next.value.customerLock == s.customerLock[e.customer := t]
                else next.value.customerLock == s.customerLock)
  {
    var s' := AdvanceEntry(s, t, e, stage).value;
    assert EntryOk(s', e);
    assert StageOk(s', e, s'.procs[t].stage);
  }

  lemma EntryLocks(s: State, s': State, t: int)
    requires LocksOk(s) && t in s.procs && s.procs[t].Apply? && t in s'.procs && s'.procs == s.procs[t := s'.procs[t]]
    requires s'.procs[t].Apply? && s'.procs[t].entry == s.procs[t].entry && !s'.procs[t].stage.Waiting?
    requires s'.windowLock == s.windowLock
    requires if s.procs[t].stage.Waiting?
             then s.procs[t].entry.customer !in s.customerLock &&
                  s'.customerLock == s.customerLock[s.procs[t].entry.customer := t]
             else s'.customerLock == s.customerLock
    ensures LocksOk(s')
  {
  }

  lemma AdvanceKeepsInv(s: State, t: int)
    requires Inv(s) && t in s.procs
    ensures Advance(s, t).Some? ==> Inv(Advance(s, t).value)
  {
    assert ProcOk(s, s.procs[t]);
    hide Inv;
    match s.procs[t]
    case SettleRead(externalRef) => ReadKeepsInv(s, t, externalRef);
    case SettleUpdate(pid, seen) => SettleKeepsInv(s, t, pid, seen);
    case BillStart(tenant, w) =>
      FailKeepsInv(s, t, NotFound);
      if WindowExists(s, tenant, w) && s.windows[w].status != Paid && w !in s.windowLock {
        LockWindowKeepsInv(s, t, w, Apply(BillEntry(s.windows[w], w), Waiting));
      }
    case ManualStart(tenant, w) =>
      FailKeepsInv(s, t, NotFound);
      if WindowExists(s, tenant, w) && w !in s.windowLock {
        LockWindowKeepsInv(s, t, w, ManualMarked(w));
      }
    case ManualMarked(w) => ManualCommitKeepsInv(s, t);
    case Apply(e, stage) => EntryKeepsInv(s, t, e, stage);
    case Done(_) =>
  }

  lemma LockWindowKeepsInv(s: State, t: int, w: nat, p: Proc)
    requires Inv(s) && t in s.procs && (s.procs[t].BillStart? || s.procs[t].ManualStart?) && w !in s.windowLock
    requires ProcOk(s, p) && HeldWindow(p) == Some(w) && HeldCustomer(p) == None && CreditOf(p) == None
    ensures Inv(Goto(s, t, p).(windowLock := s.windowLock[w := t]))
  {
    hide BalancesOk, RowsOk, RowsDistinct, CreditsOk, PaymentsOk, WindowsOk, ProcsOk;
    LockWindowLocks(s, t, w, p);
    hide LocksOk, Inv;
    MoveKeepsInv(s, Goto(s, t, p).(windowLock := s.windowLock[w := t]), t, p);
  }

  lemma LockWindowLocks(s: State, t: int, w: nat, p: Proc)
    requires LocksOk(s) && t in s.procs && (s.procs[t].BillStart? || s.procs[t].ManualStart?) && w !in s.windowLock
    requires HeldWindow(p) == Some(w) && HeldCustomer(p) == None
    ensures LocksOk(Goto(s, t, p).(windowLock := s.windowLock[w := t]))
  {
  }

  lemma ReadKeepsInv(s: State, t: int, externalRef: string)
    requires Inv(s) && t in s.procs && s.procs[t] == SettleRead(externalRef)
    ensures Advance(s, t).Some? && Inv(Advance(s, t).value)
  {
    var found := PaymentByRef(s.payments, externalRef);
    if found.None? {
      FailKeepsInv(s, t, NotFound);
    } else if s.payments[found.value].status == Succeeded {
      FinishReleases(s, t, AlreadySettled);
      MoveKeepsInv(s, Finish(s, t, AlreadySettled), t, Done(AlreadySettled));
    } else {
      var p := SettleUpdate(found.value, s.payments[found.value]);
      MoveKeepsInv(s, Goto(s, t, p), t, p);
    }
  }

  lemma BeginKeepsInv(s: State, t: int, op: Op)
    requires Inv(s) && t !in s.procs
    ensures Inv(Goto(s, t, Start(op)))
  {
    MoveKeepsInv(s, Goto(s, t, Start(op)), t, Start(op));
  }

  lemma NextKeepsInv(s: State, ev: Event)
    requires Inv(s)
    ensures Inv(Next(s, ev))
  {
    hide Inv, Advance;
    match ev
    case AddCustomer(id, tenant, token) => AddCustomerKeepsInv(s, id, tenant, token);
    case GenerateWindows(tenant, period, fee, order) => GenerateKeepsInv(s, tenant, period, fee, order);
    case CreatePayment(p) => CreatePaymentKeepsInv(s, p);
    case Begin(t, op) =>
      if t !in s.procs {
        BeginKeepsInv(s, t, op);
      }
    case Step(t) =>
      if t in s.procs {
        AdvanceKeepsInv(s, t);
      }
    case Abort(t) =>
      if t in s.procs && !s.procs[t].Done? {
        FailKeepsInv(s, t, Aborted);
      }
  }

  /** Every state of every run from the empty database satisfies the invariant. */
  lemma {:induction false} RunKeepsInv(s: State, events: seq<Event>)
    requires Inv(s)
    ensures Inv(Run(s, events))
    decreases |events|
  {
    if events != [] {
      NextKeepsInv(s, events[0]);
      RunKeepsInv(Next(s, events[0]), events[1..]);
    }
  }
}
