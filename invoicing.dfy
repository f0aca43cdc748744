/**
 * The arithmetic of the billing engine: an order's subtotal over its
 * non-cancelled items, the invoice recalculated from it, and a customer's
 * ledger balance. These are pure functions of the store's contents; the
 * store (module MemoryRepos) writes their results back.
 */
module Invoicing {
  import opened Domain

  function LineTotal(it: OrderItem): int {
    it.qty * it.unitPrice
  }

  /** What an item adds to an order's subtotal: its line total if it belongs to the order and is not cancelled. */
  function Contribution(it: OrderItem, orderId: Id): int {
    if it.orderId == orderId && it.status != ItemStatus.Cancelled then LineTotal(it) else 0
  }

  /** Σ qty×unitPrice over the order's non-cancelled items, summed left to right. */
  function Subtotal(items: seq<OrderItem>, orderId: Id): int {
    if items == [] then 0
    else Subtotal(items[..|items| - 1], orderId) + Contribution(items[|items| - 1], orderId)
  }

  /** Appending an item adds exactly its contribution. */
  lemma SubtotalAppend(items: seq<OrderItem>, it: OrderItem, orderId: Id)
    ensures Subtotal(items + [it], orderId) == Subtotal(items, orderId) + Contribution(it, orderId)
  {
    assert (items + [it])[..|items|] == items;
  }

  /** Replacing one item changes the subtotal by the difference of the two contributions, and by nothing else. */
  lemma {:induction false} SubtotalUpdate(items: seq<OrderItem>, k: nat, it: OrderItem, orderId: Id)
    requires k < |items|
    ensures Subtotal(items[k := it], orderId)
            == Subtotal(items, orderId) - Contribution(items[k], orderId) + Contribution(it, orderId)
  {
    var n := |items|;
    var updated := items[k := it];
    if k == n - 1 {
      assert updated[..n - 1] == items[..n - 1];
    } else {
      assert updated[..n - 1] == items[..n - 1][k := it];
      SubtotalUpdate(items[..n - 1], k, it, orderId);
    }
  }

  /** An order that owns no item has a zero subtotal. */
  lemma {:induction false} SubtotalOfEmptyOrder(items: seq<OrderItem>, orderId: Id)
    requires forall i :: 0 <= i < |items| ==> items[i].orderId != orderId
    ensures Subtotal(items, orderId) == 0
  {
    if items != [] {
      SubtotalOfEmptyOrder(items[..|items| - 1], orderId);
    }
  }

  /**
   * Moving item k to another order conserves value: the two orders'
   * subtotals keep their sum, the moved item's contribution passes from one
   * to the other, and every other order's subtotal is unchanged.
   */
  lemma MoveConservesValue(items: seq<OrderItem>, k: nat, to: Id)
    requires k < |items| && items[k].orderId != to
    ensures var from := items[k].orderId;
            var moved := items[k := items[k].(orderId := to)];
            && Subtotal(moved, from) == Subtotal(items, from) - Contribution(items[k], from)
            && Subtotal(moved, to) == Subtotal(items, to) + Contribution(items[k], from)
            && Subtotal(moved, from) + Subtotal(moved, to) == Subtotal(items, from) + Subtotal(items, to)
            && forall o :: o != from && o != to ==> Subtotal(moved, o) == Subtotal(items, o)
  {
    var from := items[k].orderId;
    var it := items[k].(orderId := to);
    SubtotalUpdate(items, k, it, from);
    SubtotalUpdate(items, k, it, to);
    forall o | o != from && o != to
      ensures Subtotal(items[k := it], o) == Subtotal(items, o)
    {
      SubtotalUpdate(items, k, it, o);
    }
  }

  /** Setting item k's status changes its order's subtotal only when the item enters or leaves `cancelled`. */
  lemma StatusChangeEffect(items: seq<OrderItem>, k: nat, status: ItemStatus)
    requires k < |items|
    ensures var o := items[k].orderId;
            var changed := items[k := items[k].(status := status)];
            && (forall o' :: o' != o ==> Subtotal(changed, o') == Subtotal(items, o'))
            && ((items[k].status == ItemStatus.Cancelled) == (status == ItemStatus.Cancelled) ==>
                  Subtotal(changed, o) == Subtotal(items, o))
            && (items[k].status != ItemStatus.Cancelled && status == ItemStatus.Cancelled ==>
                  Subtotal(changed, o) == Subtotal(items, o) - LineTotal(items[k]))
            && (items[k].status == ItemStatus.Cancelled && status != ItemStatus.Cancelled ==>
                  Subtotal(changed, o) == Subtotal(items, o) + LineTotal(items[k]))
  {
    var it := items[k].(status := status);
    forall o' ensures Subtotal(items[k := it], o') == Subtotal(items, o') - Contribution(items[k], o') + Contribution(it, o') {
      SubtotalUpdate(items, k, it, o');
    }
  }

  /** The invoice an order has before anything was recorded for it. */
  function DefaultInvoice(orderId: Id): Invoice {
    Invoice(orderId, 0, 0, 0, 0, InvoiceStatus.Open)
  }

  /** The stored invoice of an order, or the default one. */
  function Prior(invoices: map<Id, Invoice>, orderId: Id): Invoice {
    if orderId in invoices then invoices[orderId] else DefaultInvoice(orderId)
  }

  /** `paid` once the payments cover a positive total, `open` otherwise. */
  function SettledStatus(paid: int, total: int): InvoiceStatus {
    if paid >= total && total > 0 then Paid else InvoiceStatus.Open
  }

  /** What is left to pay, never negative. */
  function Remaining(inv: Invoice): int {
    Max(inv.total - inv.paid, 0)
  }

  /**
   * The recalculated invoice: a fresh subtotal and total over `prev`'s
   * discount, `prev`'s paid amount carried over, and the status re-derived
   * unless `prev` was already posted to credit.
   */
  function Recalc(items: seq<OrderItem>, orderId: Id, prev: Invoice): Invoice {
    var subtotal := Subtotal(items, orderId);
    var total := Max(subtotal - prev.discount, 0);
    var status := if prev.status == Credit then Credit else SettledStatus(prev.paid, total);
    prev.(subtotal := subtotal, total := total, status := status)
  }

  /** What recalculation keeps from the previous invoice. */
  predicate SameBasis(a: Invoice, b: Invoice) {
    a.orderId == b.orderId && a.discount == b.discount && a.paid == b.paid
    && (a.status == Credit <==> b.status == Credit)
  }

  /** The recalculated invoice: total = max(subtotal − discount, 0), discount and paid carried over, credit sticky, otherwise paid exactly when paid ≥ total > 0. */
  lemma RecalcMeaning(items: seq<OrderItem>, orderId: Id, prev: Invoice)
    ensures var inv := Recalc(items, orderId, prev);
            && inv.subtotal == Subtotal(items, orderId)
            && inv.total >= 0 && inv.total >= inv.subtotal - inv.discount
            && (inv.total == 0 || inv.total == inv.subtotal - inv.discount)
            && SameBasis(inv, prev)
            && (prev.status == Credit ==> inv.status == Credit)
            && (prev.status != Credit ==> (inv.status == Paid <==> inv.paid >= inv.total && inv.total > 0))
            && (inv.total == 0 ==> inv.status != Paid)
  {
  }

  /** Recalculation depends on the previous invoice only through what it keeps of it. */
  lemma RecalcCongruent(items: seq<OrderItem>, orderId: Id, a: Invoice, b: Invoice)
    requires SameBasis(a, b)
    ensures Recalc(items, orderId, a) == Recalc(items, orderId, b)
  {
  }

  /** A later recalculation overrides an earlier one; with no change in between, recalculating twice is recalculating once. */
  lemma RecalcAbsorbs(before: seq<OrderItem>, after: seq<OrderItem>, orderId: Id, prev: Invoice)
    ensures Recalc(after, orderId, Recalc(before, orderId, prev)) == Recalc(after, orderId, prev)
    ensures Recalc(after, orderId, Recalc(after, orderId, prev)) == Recalc(after, orderId, prev)
  {
  }

  /** Signed effect of a ledger entry on a customer's balance. */
  function Signed(e: LedgerEntry, customerId: CustomerId): int {
    if e.customerId != customerId then 0
    else if e.kind == ChargeEntry then e.amount
    else -e.amount
  }

  /** `customerBalance`: the signed sum over the customer's entries, left to right. */
  function Balance(ledger: seq<LedgerEntry>, customerId: CustomerId): int {
    if ledger == [] then 0
    else Balance(ledger[..|ledger| - 1], customerId) + Signed(ledger[|ledger| - 1], customerId)
  }

  /** Σ amounts of the customer's entries of one kind. */
  function KindSum(ledger: seq<LedgerEntry>, customerId: CustomerId, kind: EntryKind): int {
    if ledger == [] then 0
    else
      var e := ledger[|ledger| - 1];
      KindSum(ledger[..|ledger| - 1], customerId, kind)
      + (if e.customerId == customerId && e.kind == kind then e.amount else 0)
  }

  /** The balance is Σ charges − Σ payments. */
  lemma {:induction false} BalanceIsChargesMinusPayments(ledger: seq<LedgerEntry>, customerId: CustomerId)
    ensures Balance(ledger, customerId)
            == KindSum(ledger, customerId, ChargeEntry) - KindSum(ledger, customerId, PaymentEntry)
  {
    if ledger != [] {
      BalanceIsChargesMinusPayments(ledger[..|ledger| - 1], customerId);
    }
  }

  lemma {:induction false} BalanceConcat(a: seq<LedgerEntry>, b: seq<LedgerEntry>, customerId: CustomerId)
    ensures Balance(a + b, customerId) == Balance(a, customerId) + Balance(b, customerId)
  {
    if b == [] {
      assert a + b == a;
    } else {
      assert (a + b)[..|a + b| - 1] == a + b[..|b| - 1];
      BalanceConcat(a, b[..|b| - 1], customerId);
    }
  }

  /** Prepending an entry (as the store does) changes only that customer's balance, by the entry's signed amount. */
  lemma BalancePrepend(e: LedgerEntry, ledger: seq<LedgerEntry>, customerId: CustomerId)
    ensures Balance([e] + ledger, customerId) == Signed(e, customerId) + Balance(ledger, customerId)
  {
    BalanceConcat([e], ledger, customerId);
    assert [e][..0] == [];
  }

  /** Taking entry j out of the ledger removes exactly its signed amount. */
  lemma BalanceRemoveAt(b: seq<LedgerEntry>, j: nat, customerId: CustomerId)
    requires j < |b|
    ensures Balance(b, customerId) == Balance(b[..j] + b[j + 1..], customerId) + Signed(b[j], customerId)
  {
    assert b == (b[..j] + [b[j]]) + b[j + 1..];
    BalanceConcat(b[..j] + [b[j]], b[j + 1..], customerId);
    BalanceConcat(b[..j], [b[j]], customerId);
    BalanceConcat(b[..j], b[j + 1..], customerId);
    assert [b[j]][..0] == [];
  }

  lemma MultisetRemoveAt(a: seq<LedgerEntry>, b: seq<LedgerEntry>, j: nat)
    requires a != [] && j < |b| && multiset(a) == multiset(b) && b[j] == a[|a| - 1]
    ensures multiset(a[..|a| - 1]) == multiset(b[..j] + b[j + 1..])
  {
    var x := b[j];
    assert a == a[..|a| - 1] + [x];
    assert b == b[..j] + [x] + b[j + 1..];
    calc {
      multiset(a[..|a| - 1]) + multiset{x};
      multiset(a);
      multiset(b);
      multiset(b[..j]) + multiset{x} + multiset(b[j + 1..]);
      multiset(b[..j] + b[j + 1..]) + multiset{x};
    }
    assert multiset(a[..|a| - 1]) == (multiset(a[..|a| - 1]) + multiset{x}) - multiset{x};
    assert multiset(b[..j] + b[j + 1..]) == (multiset(b[..j] + b[j + 1..]) + multiset{x}) - multiset{x};
  }

  /** The balance does not depend on the order of the entries. */
  lemma {:induction false} BalanceIgnoresOrder(a: seq<LedgerEntry>, b: seq<LedgerEntry>, customerId: CustomerId)
    requires multiset(a) == multiset(b)
    ensures Balance(a, customerId) == Balance(b, customerId)
    decreases |a|
  {
    if a != [] {
      var x := a[|a| - 1];
      assert x in multiset(b);
      var j :| 0 <= j < |b| && b[j] == x;
      MultisetRemoveAt(a, b, j);
      BalanceIgnoresOrder(a[..|a| - 1], b[..j] + b[j + 1..], customerId);
      BalanceRemoveAt(b, j, customerId);
    } else {
      assert |b| == |multiset(b)| == 0;
    }
  }
}
