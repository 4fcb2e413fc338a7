/**
 The tables behind the prepaid wallet: customers, billing windows, payments and
 the wallet ledger. Amounts are whole cents (`NUMERIC(12, 2)` columns). Window
 and payment ids are the positions of the rows, as identity columns only grow.
 */
module WalletTables {
  import opened Wrappers

  datatype Customer = Customer(tenant: int, balance: int, token: bool)

  datatype WindowStatus = Draft | Issued | Paid | Overdue

  datatype Window = Window(tenant: int, customer: int, periodStart: int, amount: int, status: WindowStatus)

  datatype EntityType = Voucher | WalletTopUp

  datatype PaymentStatus = Pending | Succeeded | Failed | Refunded

  datatype Payment = Payment(tenant: int, customer: Option<int>, entity: EntityType, externalRef: string,
                             amount: int, fee: int, net: int, status: PaymentStatus)
  {
    /** The condition under which Settle credits a wallet. */
    predicate CreditsWallet() {
      entity == WalletTopUp && customer.Some?
    }

    /** The rows covered by the partial unique index on top-ups. */
    predicate Live() {
      CreditsWallet() && (status == Pending || status == Succeeded)
    }

    predicate SettledTopUp() {
      CreditsWallet() && status == Succeeded
    }
  }

  datatype RowKind = TopUp | BillPayment | Adjustment

  datatype Ref = NoRef | PaymentRef(payment: nat) | WindowRef(window: nat)

  datatype Row = Row(id: nat, tenant: int, customer: int, kind: RowKind, amount: int, balanceAfter: int, ref: Ref)

  /** The sum of a customer's ledger rows. */
  function LedgerSum(ledger: seq<Row>, customer: int): int {
    if ledger == [] then 0
    else
      var last := ledger[|ledger| - 1];
      LedgerSum(ledger[..|ledger| - 1], customer) + (if last.customer == customer then last.amount else 0)
  }

  /** The sum of a customer's top-up rows alone. */
  function TopUpSum(ledger: seq<Row>, customer: int): int {
    if ledger == [] then 0
    else
      var last := ledger[|ledger| - 1];
      TopUpSum(ledger[..|ledger| - 1], customer) +
      (if last.customer == customer && last.kind == TopUp then last.amount else 0)
  }

  /** The net amounts of the payments whose ids are in `ids`, added up. */
  function NetSum(payments: seq<Payment>, ids: set<nat>): int {
    if payments == [] then 0
    else
      var n := |payments| - 1;
      NetSum(payments[..n], ids) + (if n in ids then payments[n].net else 0)
  }

  lemma SumsAppend(ledger: seq<Row>, row: Row, customer: int)
    ensures LedgerSum(ledger + [row], customer) ==
            LedgerSum(ledger, customer) + (if row.customer == customer then row.amount else 0)
    ensures TopUpSum(ledger + [row], customer) ==
            TopUpSum(ledger, customer) + (if row.customer == customer && row.kind == TopUp then row.amount else 0)
  {
    assert (ledger + [row])[..|ledger|] == ledger;
  }

  lemma {:induction false} NetSumSplit(payments: seq<Payment>, all: set<nat>, part: set<nat>)
    requires part <= all
    ensures NetSum(payments, all) == NetSum(payments, part) + NetSum(payments, all - part)
  {
    if payments != [] {
      NetSumSplit(payments[..|payments| - 1], all, part);
    }
  }

  lemma {:induction false} NetSumAdd(payments: seq<Payment>, ids: set<nat>, id: nat)
    requires id < |payments| && id !in ids
    ensures NetSum(payments, ids + {id}) == NetSum(payments, ids) + payments[id].net
  {
    var n := |payments| - 1;
    if id < n {
      NetSumAdd(payments[..n], ids, id);
    } else {
      NetSumSame(payments[..n], ids, ids + {id});
    }
  }

  lemma {:induction false} NetSumSame(payments: seq<Payment>, a: set<nat>, b: set<nat>)
    requires forall i :: 0 <= i < |payments| ==> (i in a <==> i in b)
    ensures NetSum(payments, a) == NetSum(payments, b)
  {
    if payments != [] {
      NetSumSame(payments[..|payments| - 1], a, b);
    }
  }

  /** The payments that a customer's top-up rows refer to. */
  function Credited(ledger: seq<Row>, customer: int): set<nat> {
    set i | 0 <= i < |ledger| && ledger[i].customer == customer && ledger[i].kind == TopUp && ledger[i].ref.PaymentRef?
      :: ledger[i].ref.payment
  }

  /** Position of the payment with an external reference, if there is one. */
  function PaymentByRef(payments: seq<Payment>, externalRef: string): (r: Option<nat>)
    ensures r.Some? ==> r.value < |payments| && payments[r.value].externalRef == externalRef
    ensures r.None? ==> forall i :: 0 <= i < |payments| ==> payments[i].externalRef != externalRef
  {
    if payments == [] then None
    else if payments[|payments| - 1].externalRef == externalRef then Some(|payments| - 1)
    else PaymentByRef(payments[..|payments| - 1], externalRef)
  }
}
