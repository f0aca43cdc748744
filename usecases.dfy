/**
 * The use cases that orchestrate the store: each validates its input the
 * way the source's schema does (a failed validation is `InvalidInput`,
 * returned before anything changes), then runs the repository operations
 * in the source's order.
 */
module UseCases {
  import opened Domain
  import opened ItemState
  import opened Invoicing
  import opened MemoryRepos

  // ---------------------------------------------------------------------
  // Splitting a check
  // ---------------------------------------------------------------------

  /** One pass of the split loop: the item with that id goes to `dst` if it currently belongs to `src`. */
  function MoveOne(items: seq<OrderItem>, id: Id, src: Id, dst: Id): seq<OrderItem> {
    var k := ItemIndex(items, id);
    if k.Some? && items[k.value].orderId == src then items[k.value := items[k.value].(orderId := dst)] else items
  }

  /** The items after the split loop has run over `ids` in order. Only order ids change, and only to `dst`. */
  function MoveOwned(items: seq<OrderItem>, ids: seq<Id>, src: Id, dst: Id): (r: seq<OrderItem>)
    ensures |r| == |items|
    ensures forall i :: 0 <= i < |r| ==> r[i] == items[i].(orderId := r[i].orderId)
    ensures forall i :: 0 <= i < |r| ==> r[i].orderId == items[i].orderId || r[i].orderId == dst
    decreases |ids|
  {
    if ids == [] then items
    else MoveOne(MoveOwned(items, ids[..|ids| - 1], src, dst), ids[|ids| - 1], src, dst)
  }

  /**
   * With unique item ids, the split moves exactly the requested items that
   * belonged to the source; ids that are missing or belong elsewhere are
   * skipped, and repeating an id changes nothing.
   */
  lemma {:induction false} MoveOwnedCharacterized(items: seq<OrderItem>, ids: seq<Id>, src: Id, dst: Id)
    requires UniqueIds(items) && src != dst
    ensures forall i :: 0 <= i < |items| ==>
              MoveOwned(items, ids, src, dst)[i]
              == if items[i].id in ids && items[i].orderId == src then items[i].(orderId := dst) else items[i]
    decreases |ids|
  {
    if ids != [] {
      var ids' := ids[..|ids| - 1];
      var id := ids[|ids| - 1];
      MoveOwnedCharacterized(items, ids', src, dst);
      var prev := MoveOwned(items, ids', src, dst);
      assert forall x :: x in ids <==> x in ids' || x == id by {
        assert ids == ids' + [id];
      }
      if j :| 0 <= j < |items| && items[j].id == id {
        assert UniqueIds(prev);
        UniqueItemIndex(prev, j, id);
      }
    }
  }

  /** The split conserves value: what leaves the source's subtotal arrives in the destination's, and no other order changes. */
  lemma {:induction false} MoveOwnedConservesValue(items: seq<OrderItem>, ids: seq<Id>, src: Id, dst: Id)
    requires src != dst
    ensures var r := MoveOwned(items, ids, src, dst);
            && Subtotal(r, src) + Subtotal(r, dst) == Subtotal(items, src) + Subtotal(items, dst)
            && forall o :: o != src && o != dst ==> Subtotal(r, o) == Subtotal(items, o)
    decreases |ids|
  {
    if ids != [] {
      var prev := MoveOwned(items, ids[..|ids| - 1], src, dst);
      MoveOwnedConservesValue(items, ids[..|ids| - 1], src, dst);
      var k := ItemIndex(prev, ids[|ids| - 1]);
      if k.Some? && prev[k.value].orderId == src {
        MoveConservesValue(prev, k.value, dst);
      }
    }
  }

  /**
   * Splitting into a fresh order: exactly the requested items of the
   * source end up on the new order, and the two subtotals together equal
   * the source's subtotal before.
   */
  lemma SplitItemsEffect(items: seq<OrderItem>, ids: seq<Id>, src: Id, dst: Id)
    requires UniqueIds(items) && src != dst
    requires forall i :: 0 <= i < |items| ==> items[i].orderId != dst
    ensures var r := MoveOwned(items, ids, src, dst);
            && (forall i :: 0 <= i < |r| ==> (r[i].orderId == dst <==> items[i].id in ids && items[i].orderId == src))
            && Subtotal(r, src) + Subtotal(r, dst) == Subtotal(items, src)
  {
    MoveOwnedCharacterized(items, ids, src, dst);
    MoveOwnedConservesValue(items, ids, src, dst);
    SubtotalOfEmptyOrder(items, dst);
  }

  /** Whether a list of items holds one that is not cancelled (`some(i => i.status !== "cancelled")`). */
  predicate HasLiveItems(items: seq<OrderItem>) {
    exists i :: 0 <= i < |items| && items[i].status != ItemStatus.Cancelled
  }

  /**
   * `splitOrderItems`: open a new check on the source's table, move the
   * requested items that belong to the source into it, then close the
   * source if no live item is left on it or its recalculated total is not
   * positive. A missing source is refused before anything is created.
   * Nothing refuses a split after a payment.
   */
  method SplitOrderItems(s: Store, orderId: Id, itemIds: seq<Id>, createdBy: UserId) returns (r: Result<Order>)
    requires s.Valid()
    modifies s`orders, s`items, s`invoices, s`nextId
    ensures s.Valid()
    ensures |itemIds| == 0 || |createdBy| == 0 ==> r == Err(InvalidInput)
    ensures |itemIds| > 0 && |createdBy| > 0 ==> (r.Ok? <==> FindOrder(old(s.orders), orderId).Some?)
    ensures r.Err? ==>
              && s.orders == old(s.orders) && s.items == old(s.items)
              && s.invoices == old(s.invoices) && s.nextId == old(s.nextId)
    ensures r.Err? && |itemIds| > 0 && |createdBy| > 0 ==> r == Err(OrderNotFound)
    ensures r.Ok? ==>
              && FindOrder(old(s.orders), orderId).Some?
              && r.value == Order(old(s.nextId), FindOrder(old(s.orders), orderId).value.tableLabel, createdBy,
                                  OrderStatus.Open, None)
              && r.value.id != orderId
              && s.items == MoveOwned(old(s.items), itemIds, orderId, r.value.id)
    ensures r.Ok? ==>
              forall i :: 0 <= i < |s.items| ==>
                (s.items[i].orderId == r.value.id <==> old(s.items)[i].id in itemIds && old(s.items)[i].orderId == orderId)
    ensures r.Ok? ==>
              Subtotal(s.items, orderId) + Subtotal(s.items, r.value.id) == Subtotal(old(s.items), orderId)
    ensures r.Ok? ==>
              && orderId in s.invoices && r.value.id in s.invoices
              && s.invoices[orderId] == Recalc(s.items, orderId, Prior(old(s.invoices), orderId))
              && s.invoices[r.value.id] == Recalc(s.items, r.value.id, DefaultInvoice(r.value.id))
              && forall o :: o != orderId && o != r.value.id ==> Prior(s.invoices, o) == Prior(old(s.invoices), o)
    ensures r.Ok? ==>
              var closeSource := !HasLiveItems(ItemsOfOrder(s.items, orderId)) || s.invoices[orderId].total <= 0;
              s.orders == [r.value] + (if closeSource then WithStatus(old(s.orders), orderId, Closed) else old(s.orders))
  {
    if |itemIds| == 0 || |createdBy| == 0 {
      return Err(InvalidInput);
    }
    var src := FindOrder(s.orders, orderId);
    if src.None? {
      return Err(OrderNotFound);
    }
    var dst := s.CreateOrder(src.value.tableLabel, createdBy, None);
    ghost var invoicesCreated := s.invoices;
    var closed := MoveAndSettle(s, orderId, itemIds, dst.id);
    assert Prior(invoicesCreated, orderId) == Prior(old(s.invoices), orderId);
    forall o | o != orderId && o != dst.id
      ensures Prior(s.invoices, o) == Prior(old(s.invoices), o)
    {
      assert Prior(invoicesCreated, o) == Prior(old(s.invoices), o);
    }
    if closed {
      WithStatusBehindNew(dst, old(s.orders), orderId, Closed);
    }
    SplitItemsEffect(old(s.items), itemIds, orderId, dst.id);
    r := Ok(dst);
  }

  /** The work of `splitOrderItems` once the destination exists: the loop, then settling the source. */
  method MoveAndSettle(s: Store, orderId: Id, itemIds: seq<Id>, dstId: Id) returns (closed: bool)
    requires s.Valid() && dstId != orderId && OrderIndex(s.orders, dstId).Some?
    requires dstId in s.invoices && s.invoices[dstId] == Recalc(s.items, dstId, DefaultInvoice(dstId))
    modifies s`orders, s`items, s`invoices, s`nextId
    ensures s.Valid()
    ensures s.items == MoveOwned(old(s.items), itemIds, orderId, dstId)
    ensures orderId in s.invoices && dstId in s.invoices
    ensures s.invoices[orderId] == Recalc(s.items, orderId, Prior(old(s.invoices), orderId))
    ensures s.invoices[dstId] == Recalc(s.items, dstId, DefaultInvoice(dstId))
    ensures forall o :: o != orderId && o != dstId ==> Prior(s.invoices, o) == Prior(old(s.invoices), o)
    ensures closed == (!HasLiveItems(ItemsOfOrder(s.items, orderId)) || s.invoices[orderId].total <= 0)
    ensures s.orders == if closed then WithStatus(old(s.orders), orderId, Closed) else old(s.orders)
  {
    MoveRequested(s, orderId, itemIds, dstId);
    ghost var invoicesMoved := s.invoices;
    closed := SettleSource(s, orderId);
    RecalcCongruent(s.items, orderId, Prior(invoicesMoved, orderId), Prior(old(s.invoices), orderId));
    forall o | o != orderId && o != dstId
      ensures Prior(s.invoices, o) == Prior(old(s.invoices), o)
    {
      assert Prior(s.invoices, o) == Prior(invoicesMoved, o);
    }
  }

  /**
   * The loop of `splitOrderItems`: each requested item that belongs to the
   * source at that moment is moved to the destination, recomputing both
   * invoices; each recomputation keeps the discount, payments and credit
   * flag of the invoice it replaces.
   */
  method MoveRequested(s: Store, orderId: Id, itemIds: seq<Id>, dstId: Id)
    requires s.Valid() && dstId != orderId && OrderIndex(s.orders, dstId).Some?
    requires dstId in s.invoices && s.invoices[dstId] == Recalc(s.items, dstId, DefaultInvoice(dstId))
    modifies s`items, s`invoices, s`nextId
    ensures s.Valid() && s.nextId == old(s.nextId)
    ensures s.items == MoveOwned(old(s.items), itemIds, orderId, dstId)
    ensures dstId in s.invoices && s.invoices[dstId] == Recalc(s.items, dstId, DefaultInvoice(dstId))
    ensures SameBasis(Prior(s.invoices, orderId), Prior(old(s.invoices), orderId))
    ensures forall o :: o != orderId && o != dstId ==> Prior(s.invoices, o) == Prior(old(s.invoices), o)
  {
    for i := 0 to |itemIds|
      invariant s.Valid() && s.nextId == old(s.nextId)
      invariant s.items == MoveOwned(old(s.items), itemIds[..i], orderId, dstId)
      invariant dstId in s.invoices && s.invoices[dstId] == Recalc(s.items, dstId, DefaultInvoice(dstId))
      invariant SameBasis(Prior(s.invoices, orderId), Prior(old(s.invoices), orderId))
      invariant forall o :: o != orderId && o != dstId ==> Prior(s.invoices, o) == Prior(old(s.invoices), o)
    {
      assert itemIds[..i + 1][..i] == itemIds[..i];
      MoveIfOwned(s, orderId, itemIds[i], dstId);
    }
    assert itemIds[..|itemIds|] == itemIds;
  }

  /** One pass of the split loop, as `MoveOne` states it, with the invoices it recomputes. */
  method MoveIfOwned(s: Store, orderId: Id, itemId: Id, dstId: Id)
    requires s.Valid() && dstId != orderId && OrderIndex(s.orders, dstId).Some?
    requires dstId in s.invoices && s.invoices[dstId] == Recalc(s.items, dstId, DefaultInvoice(dstId))
    modifies s`items, s`invoices, s`nextId
    ensures s.Valid() && s.nextId == old(s.nextId)
    ensures s.items == MoveOne(old(s.items), itemId, orderId, dstId)
    ensures dstId in s.invoices && s.invoices[dstId] == Recalc(s.items, dstId, DefaultInvoice(dstId))
    ensures SameBasis(Prior(s.invoices, orderId), Prior(old(s.invoices), orderId))
    ensures forall o :: o != orderId && o != dstId ==> Prior(s.invoices, o) == Prior(old(s.invoices), o)
  {
    var it := FindItem(s.items, itemId);
    if it.Some? && it.value.orderId == orderId {
      ghost var before := s.items;
      var moved := s.MoveToOrder(itemId, dstId);
      assert moved.Ok?;
      RecalcAbsorbs(before, s.items, dstId, DefaultInvoice(dstId));
      RecalcMeaning(s.items, orderId, Prior(old(s.invoices), orderId));
    }
  }

  /**
   * The end of `splitOrderItems`: recompute the source's invoice, then
   * close the source when no live item is left on it or its total is not
   * positive.
   */
  method SettleSource(s: Store, orderId: Id) returns (closed: bool)
    requires s.Valid()
    modifies s`orders, s`invoices, s`nextId
    ensures s.Valid()
    ensures s.invoices == old(s.invoices)[orderId := Recalc(s.items, orderId, Prior(old(s.invoices), orderId))]
    ensures closed == (!HasLiveItems(ItemsOfOrder(s.items, orderId)) || s.invoices[orderId].total <= 0)
    ensures s.orders == if closed then WithStatus(old(s.orders), orderId, Closed) else old(s.orders)
  {
    var srcInv := s.RecalcInvoice(orderId);
    var srcItems := ItemsOfOrder(s.items, orderId);
    var hasRealItems := HasLiveItems(srcItems);
    closed := !hasRealItems || srcInv.total <= 0;
    if closed {
      s.SetOrderStatus(orderId, Closed);
    }
  }

  // ---------------------------------------------------------------------
  // Payments and credit
  // ---------------------------------------------------------------------

  /**
   * `addPayment`: refuse a credit invoice, a settled invoice and an amount
   * above what remains before calling the repository; afterwards close the
   * order whenever the recalculated invoice is paid. An accepted payment
   * raises `paid` by exactly the amount and never past the total.
   */
  method AddPayment(s: Store, orderId: Id, amount: int, receivedBy: UserId) returns (r: Result<Payment>)
    requires s.Valid()
    modifies s`invoices, s`nextId, s`payments, s`orders
    ensures s.Valid()
    ensures amount <= 0 || |receivedBy| == 0 ==>
              r == Err(InvalidInput) && s.invoices == old(s.invoices) && s.orders == old(s.orders)
              && s.payments == old(s.payments) && s.nextId == old(s.nextId)
    ensures var inv0 := Recalc(s.items, orderId, Prior(old(s.invoices), orderId));
            amount > 0 && |receivedBy| > 0 ==>
              && (r.Ok? <==> PaymentRefusal(FindOrder(old(s.orders), orderId), inv0, amount).None?)
              && (inv0.status == Credit ==> r == Err(CreditInvoice))
              && (inv0.status != Credit && Remaining(inv0) <= 0 ==> r == Err(AlreadyPaid))
              && (inv0.status != Credit && 0 < Remaining(inv0) < amount ==>
                    r == Err(ExceedsRemaining(Remaining(inv0))))
              && (inv0.status != Credit && 0 < Remaining(inv0) && amount <= Remaining(inv0) && r.Err? ==>
                    r == Err(OrderNotFound) || r == Err(OrderClosed))
              && (r.Err? ==> s.payments == old(s.payments) && s.orders == old(s.orders)
                             && s.invoices == old(s.invoices)[orderId := inv0])
    ensures r.Ok? ==>
              var inv0 := Recalc(s.items, orderId, Prior(old(s.invoices), orderId));
              && orderId in s.invoices
              && r.value.orderId == orderId && r.value.amount == amount && r.value.receivedBy == receivedBy
              && (forall i :: 0 <= i < |old(s.payments)| ==> old(s.payments)[i].id != r.value.id)
              && s.payments == [r.value] + old(s.payments)
              && s.invoices[orderId] == inv0.(paid := inv0.paid + amount, status := SettledStatus(inv0.paid + amount, inv0.total))
              && inv0.paid < s.invoices[orderId].paid <= s.invoices[orderId].total
              && s.orders == if s.invoices[orderId].status == Paid then WithStatus(old(s.orders), orderId, Closed)
                             else old(s.orders)
    ensures r.Ok? ==>
              && FindOrder(s.orders, orderId).Some?
              && (FindOrder(s.orders, orderId).value.status == Closed <==> s.invoices[orderId].status == Paid)
  {
    if amount <= 0 || |receivedBy| == 0 {
      return Err(InvalidInput);
    }
    var inv0 := s.RecalcInvoice(orderId);
    if inv0.status == Credit {
      return Err(CreditInvoice);
    }
    var remaining0 := Max(inv0.total - inv0.paid, 0);
    if remaining0 <= 0 {
      return Err(AlreadyPaid);
    }
    if amount > remaining0 {
      return Err(ExceedsRemaining(remaining0));
    }
    RecalcAbsorbs(s.items, s.items, orderId, Prior(old(s.invoices), orderId));
    ghost var invoices0 := s.invoices;
    r := PayChecked(s, orderId, amount, receivedBy);
    assert r.Ok? ==> s.invoices == invoices0[orderId := s.invoices[orderId]];
  }

  /**
   * The part of `addPayment` after its own checks have passed on the
   * recalculated invoice: the repository call, then closing the order when
   * the invoice is paid.
   */
  method PayChecked(s: Store, orderId: Id, amount: int, receivedBy: UserId) returns (r: Result<Payment>)
    requires s.Valid() && orderId in s.invoices
    requires var inv0 := s.invoices[orderId];
             && Recalc(s.items, orderId, inv0) == inv0
             && inv0.status != Credit && 0 < Remaining(inv0) && amount <= Remaining(inv0)
    modifies s`invoices, s`nextId, s`payments, s`orders
    ensures s.Valid()
    ensures r.Ok? <==> PaymentRefusal(FindOrder(old(s.orders), orderId), old(s.invoices)[orderId], amount).None?
    ensures r.Err? ==>
              && (r == Err(OrderNotFound) || r == Err(OrderClosed))
              && s.payments == old(s.payments) && s.orders == old(s.orders) && s.invoices == old(s.invoices)
    ensures r.Ok? ==>
              var inv0 := old(s.invoices)[orderId];
              && orderId in s.invoices
              && r.value.orderId == orderId && r.value.amount == amount && r.value.receivedBy == receivedBy
              && (forall i :: 0 <= i < |old(s.payments)| ==> old(s.payments)[i].id != r.value.id)
              && s.payments == [r.value] + old(s.payments)
              && s.invoices == old(s.invoices)[orderId := inv0.(paid := inv0.paid + amount,
                                                                 status := SettledStatus(inv0.paid + amount, inv0.total))]
              && s.orders == if s.invoices[orderId].status == Paid then WithStatus(old(s.orders), orderId, Closed)
                             else old(s.orders)
    ensures r.Ok? ==>
              && FindOrder(s.orders, orderId).Some?
              && (FindOrder(s.orders, orderId).value.status == Closed <==> s.invoices[orderId].status == Paid)
  {
    var p := s.AddPayment(orderId, amount, receivedBy);
    if p.Err? {
      return Err(p.error);
    }
    var paid := CloseIfPaid(s, orderId);
    if paid {
      WithStatusTwice(old(s.orders), orderId, Closed);
    }
    WithStatusFind(old(s.orders), orderId, Closed, orderId);
    r := Ok(p.value);
  }

  /**
   * The end of `addPayment`: recalculate the invoice, which a payment has
   * just settled and which therefore comes out unchanged, and close the
   * order when it is paid.
   */
  method CloseIfPaid(s: Store, orderId: Id) returns (paid: bool)
    requires s.Valid() && orderId in s.invoices
    requires s.invoices[orderId].status != Credit
    requires s.invoices[orderId].subtotal == Subtotal(s.items, orderId)
    requires s.invoices[orderId].total == Max(s.invoices[orderId].subtotal - s.invoices[orderId].discount, 0)
    requires s.invoices[orderId].status == SettledStatus(s.invoices[orderId].paid, s.invoices[orderId].total)
    modifies s`invoices, s`nextId, s`orders
    ensures s.Valid() && s.invoices == old(s.invoices) && s.nextId == old(s.nextId)
    ensures paid == (s.invoices[orderId].status == Paid)
    ensures s.orders == if paid then WithStatus(old(s.orders), orderId, Closed) else old(s.orders)
  {
    var inv1 := s.RecalcInvoice(orderId);
    assert inv1 == old(s.invoices)[orderId];
    assert s.invoices == old(s.invoices);
    paid := inv1.status == Paid;
    if paid {
      s.SetOrderStatus(orderId, Closed);
    }
  }

  /**
   * `postOrderToCustomerCredit`: link the customer to the order first (so
   * the link is set even when nothing remains), then post what remains on
   * the cached invoice as one ledger charge.
   */
  method PostOrderToCustomerCredit(s: Store, orderId: Id, customerId: CustomerId, note: Option<string>,
                                   actorUserId: UserId)
    returns (r: Result<Option<Id>>)
    requires s.Valid()
    modifies s`invoices, s`nextId, s`orders, s`ledger
    ensures s.Valid()
    ensures |customerId| == 0 || |actorUserId| == 0 ==>
              && r == Err(InvalidInput)
              && s.invoices == old(s.invoices) && s.orders == old(s.orders) && s.ledger == old(s.ledger)
    ensures |customerId| > 0 && |actorUserId| > 0 ==> r.Ok?
    ensures r.Ok? ==>
              var remaining := Remaining(Cached(old(s.invoices), s.items, orderId));
              && (remaining <= 0 ==>
                    && r.value.None? && s.ledger == old(s.ledger)
                    && s.invoices == old(s.invoices)[orderId := Cached(old(s.invoices), s.items, orderId).(status := Paid)]
                    && s.orders == WithCustomer(old(s.orders), orderId, Some(customerId)))
              && (remaining > 0 ==>
                    && r.value.Some?
                    && s.ledger == [LedgerEntry(r.value.value, customerId, ChargeEntry, remaining, note, Some(orderId),
                                                Some(actorUserId))] + old(s.ledger)
                    && Balance(s.ledger, customerId) == Balance(old(s.ledger), customerId) + remaining
                    && s.invoices == old(s.invoices)[orderId := Cached(old(s.invoices), s.items, orderId).(status := Credit)]
                    && s.orders == WithStatus(WithCustomer(old(s.orders), orderId, Some(customerId)), orderId, Closed))
  {
    if |customerId| == 0 || |actorUserId| == 0 {
      return Err(InvalidInput);
    }
    s.SetCustomer(orderId, Some(customerId));
    WithCustomerTwice(old(s.orders), orderId, Some(customerId));
    var entryId := s.PostToCredit(orderId, customerId, note, Some(actorUserId));
    r := Ok(entryId);
  }

  /** After posting, an existing order is linked to the customer, and closed when something was charged. */
  lemma PostedOrderIsLinked(orders: seq<Order>, orderId: Id, customerId: CustomerId, charged: bool)
    requires FindOrder(orders, orderId).Some?
    ensures var linked := WithCustomer(orders, orderId, Some(customerId));
            var after := if charged then WithStatus(linked, orderId, Closed) else linked;
            && FindOrder(after, orderId).Some?
            && FindOrder(after, orderId).value.customerId == Some(customerId)
            && (charged ==> FindOrder(after, orderId).value.status == Closed)
  {
    var linked := WithCustomer(orders, orderId, Some(customerId));
    SameIdsSameIndex(linked, orders, orderId);
    WithStatusFind(linked, orderId, Closed, orderId);
  }

  /**
   * `addLedgerCharge` and `addLedgerPayment`: a positive amount becomes one
   * entry of that kind at the front of the ledger, moving the customer's
   * balance by exactly that amount.
   */
  method AddLedgerEntry(s: Store, kind: EntryKind, customerId: CustomerId, amount: int, note: Option<string>,
                        actorUserId: UserId, orderId: Option<Id>)
    returns (r: Result<LedgerEntry>)
    requires s.Valid()
    modifies s`ledger, s`nextId
    ensures s.Valid()
    ensures |customerId| == 0 || amount <= 0 || |actorUserId| == 0 ==> r == Err(InvalidInput) && s.ledger == old(s.ledger)
    ensures |customerId| > 0 && amount > 0 && |actorUserId| > 0 ==> r.Ok?
    ensures r.Ok? ==>
              && r.value == LedgerEntry(old(s.nextId), customerId, kind, amount, note, orderId, Some(actorUserId))
              && s.ledger == [r.value] + old(s.ledger)
              && Balance(s.ledger, customerId)
                 == Balance(old(s.ledger), customerId) + (if kind == ChargeEntry then amount else -amount)
  {
    if |customerId| == 0 || amount <= 0 || |actorUserId| == 0 {
      return Err(InvalidInput);
    }
    var e := s.PrependEntry(kind, customerId, Max(amount, 0), note, orderId, Some(actorUserId));
    r := Ok(e);
  }

  // ---------------------------------------------------------------------
  // Orders and items
  // ---------------------------------------------------------------------

  /** `createOrder`: a new open order for a named creator. */
  method CreateOrder(s: Store, tableLabel: Option<string>, createdBy: UserId) returns (r: Result<Order>)
    requires s.Valid()
    modifies s`orders, s`invoices, s`nextId
    ensures s.Valid()
    ensures |createdBy| == 0 ==>
              && r == Err(InvalidInput) && s.orders == old(s.orders)
              && s.invoices == old(s.invoices) && s.nextId == old(s.nextId)
    ensures |createdBy| > 0 ==> r.Ok?
    ensures r.Ok? ==>
              && r.value == Order(old(s.nextId), tableLabel, createdBy, OrderStatus.Open, None)
              && s.orders == [r.value] + old(s.orders)
              && FindOrder(old(s.orders), r.value.id).None?
              && r.value.id !in old(s.invoices)
              && s.invoices == old(s.invoices)[r.value.id := DefaultInvoice(r.value.id)]
              && s.nextId == old(s.nextId) + 1
  {
    if |createdBy| == 0 {
      return Err(InvalidInput);
    }
    var o := s.CreateOrder(tableLabel, createdBy, None);
    SubtotalOfEmptyOrder(s.items, o.id);
    r := Ok(o);
  }

  /**
   * `addItem`: add a new item for a listed product, snapshotting the price
   * (the explicit one if given, else the product's current price) and the
   * station (the explicit one if given, else the product's).
   */
  method AddItem(s: Store, orderId: Id, productId: ProductId, qty: int, unitPrice: Option<int>,
                 assignedTo: Option<Station>, notes: Option<string>, actorUserId: UserId)
    returns (r: Result<OrderItem>)
    requires s.Valid()
    modifies s`items, s`invoices, s`nextId
    ensures s.Valid()
    ensures var valid := |productId| > 0 && qty > 0 && (unitPrice.Some? ==> unitPrice.value >= 0) && |actorUserId| > 0;
            && (!valid ==> r == Err(InvalidInput))
            && (valid && FindProduct(s.products, productId).None? ==> r == Err(ProductNotFound))
            && (r.Ok? <==> valid && FindProduct(s.products, productId).Some?)
    ensures r.Err? ==> s.items == old(s.items) && s.invoices == old(s.invoices) && s.nextId == old(s.nextId)
    ensures r.Ok? ==>
              && r.value.id == old(s.nextId)
              && (forall i :: 0 <= i < |old(s.items)| ==> old(s.items)[i].id != r.value.id)
              && s.invoices == old(s.invoices)[orderId := Recalc(s.items, orderId, Prior(old(s.invoices), orderId))]
    ensures r.Ok? ==>
              var product := FindProduct(s.products, productId).value;
              && r.value.unitPrice == unitPrice.GetOr(product.price)
              && r.value.assignedTo == assignedTo.GetOr(product.targetRole)
              && r.value.orderId == orderId && r.value.productId == productId && r.value.qty == qty
              && r.value.status == New
              && s.items == old(s.items) + [r.value]
              && Subtotal(s.items, orderId) == Subtotal(old(s.items), orderId) + qty * r.value.unitPrice
  {
    if |productId| == 0 || qty <= 0 || (unitPrice.Some? && unitPrice.value < 0) || |actorUserId| == 0 {
      return Err(InvalidInput);
    }
    var product := FindProduct(s.products, productId);
    if product.None? {
      return Err(ProductNotFound);
    }
    var it := s.AddItem(orderId, productId, qty, unitPrice.GetOr(product.value.price), notes,
                        assignedTo.GetOr(product.value.targetRole));
    r := Ok(it);
  }

  // ---------------------------------------------------------------------
  // Kitchen status
  // ---------------------------------------------------------------------

  /** The statuses the kitchen may request. */
  predicate IsKitchenTarget(to: ItemStatus) {
    to == ItemStatus.InProgress || to == ItemStatus.Ready || to == Served || to == ItemStatus.Cancelled
  }

  /**
   * `setItemStatus`: refuse a missing item and a transition the table
   * forbids, leaving everything unchanged; otherwise set the status and
   * recompute the order's invoice. Cancelling takes the item's line total
   * off its order's subtotal; any other move leaves it unchanged.
   */
  method SetItemStatus(s: Store, itemId: Id, to: ItemStatus, actorUserId: UserId) returns (r: Result<bool>)
    requires s.Valid()
    modifies s`items, s`invoices, s`nextId
    ensures s.Valid()
    ensures !IsKitchenTarget(to) || |actorUserId| == 0 ==> r == Err(InvalidInput)
    ensures var it := FindItem(old(s.items), itemId);
            IsKitchenTarget(to) && |actorUserId| > 0 ==>
              && (it.None? ==> r == Err(ItemNotFound))
              && (it.Some? && !CanSetItemStatus(it.value.status, to) ==> r == Err(InvalidTransition(it.value.status, to)))
              && (it.Some? && CanSetItemStatus(it.value.status, to) ==> r == Ok(true))
    ensures r.Err? ==> s.items == old(s.items) && s.invoices == old(s.invoices)
    ensures r.Ok? ==>
              var it := FindItem(old(s.items), itemId).value;
              && s.items == WithItemStatus(old(s.items), itemId, to)
              && Rank(it.status) < Rank(to)
              && s.invoices == old(s.invoices)[it.orderId := Recalc(s.items, it.orderId, Prior(old(s.invoices), it.orderId))]
              && (to == ItemStatus.Cancelled ==>
                    Subtotal(s.items, it.orderId) == Subtotal(old(s.items), it.orderId) - LineTotal(it))
              && (to != ItemStatus.Cancelled ==> Subtotal(s.items, it.orderId) == Subtotal(old(s.items), it.orderId))
  {
    if !IsKitchenTarget(to) || |actorUserId| == 0 {
      return Err(InvalidInput);
    }
    var item := FindItem(s.items, itemId);
    if item.None? {
      return Err(ItemNotFound);
    }
    if !CanSetItemStatus(item.value.status, to) {
      return Err(InvalidTransition(item.value.status, to));
    }
    TransitionRaisesRank(item.value.status, to);
    StatusChangeEffect(s.items, ItemIndex(s.items, itemId).value, to);
    s.SetItemStatus(itemId, to);
    r := Ok(true);
  }

  /** One pass of the send loop: the item is sent if its status in the snapshot allows it. */
  function SendOne(items: seq<OrderItem>, snapshot: seq<OrderItem>, id: Id): seq<OrderItem> {
    var it := FindItem(snapshot, id);
    if it.Some? && CanSetItemStatus(it.value.status, Sent) then WithItemStatus(items, id, Sent) else items
  }

  /** The items after the send loop has run over `ids` in order against the snapshot. Only statuses change, and only to `sent`. */
  function SendAll(items: seq<OrderItem>, snapshot: seq<OrderItem>, ids: seq<Id>): (r: seq<OrderItem>)
    ensures |r| == |items|
    ensures forall i :: 0 <= i < |r| ==> r[i] == items[i].(status := r[i].status)
    ensures forall i :: 0 <= i < |r| ==> r[i].status == items[i].status || r[i].status == Sent
    decreases |ids|
  {
    if ids == [] then items
    else SendOne(SendAll(items, snapshot, ids[..|ids| - 1]), snapshot, ids[|ids| - 1])
  }

  /** Storing the same invoice again changes nothing more. */
  lemma UpdateAbsorbs(m: map<Id, Invoice>, m0: map<Id, Invoice>, k: Id, v: Invoice)
    requires m == m0 || m == m0[k := v]
    ensures m[k := v] == m0[k := v]
  {
    if m != m0 {
      assert m[k := v] == m0[k := v][k := v];
    }
  }

  /** Recalculation sees the items only through the order's subtotal. */
  lemma RecalcBySubtotal(a: seq<OrderItem>, b: seq<OrderItem>, orderId: Id, prev: Invoice)
    requires Subtotal(a, orderId) == Subtotal(b, orderId)
    ensures Recalc(a, orderId, prev) == Recalc(b, orderId, prev)
  {
  }

  /** With unique ids, `items.find` reaches the one item holding the id. */
  lemma UniqueItemIndex(items: seq<OrderItem>, j: nat, id: Id)
    requires UniqueIds(items) && j < |items| && items[j].id == id
    ensures ItemIndex(items, id) == Some(j)
  {
  }

  /** Looking an id up in an order's snapshot finds the store's item with that id exactly when it belongs to the order. */
  lemma SnapshotFind(items: seq<OrderItem>, orderId: Id, id: Id)
    requires UniqueIds(items)
    ensures var it := FindItem(ItemsOfOrder(items, orderId), id);
            && (forall j :: 0 <= j < |items| && items[j].id == id ==>
                  it == if items[j].orderId == orderId then Some(items[j]) else None)
            && ((forall j :: 0 <= j < |items| ==> items[j].id != id) ==> it.None?)
  {
    var snapshot := ItemsOfOrder(items, orderId);
    var it := FindItem(snapshot, id);
    if it.Some? {
      assert it.value in items;
    } else {
      forall j | 0 <= j < |items| && items[j].orderId == orderId
        ensures items[j].id != id
      {
        assert items[j] in snapshot;
      }
    }
  }

  /** Only a new item may be sent. */
  lemma SendableIffNew(status: ItemStatus)
    ensures CanSetItemStatus(status, Sent) <==> status == New
  {
    TransitionsCharacterized(status, Sent);
  }

  /** What the send loop makes of one stored item: sent if it is a requested, still new item of the order. */
  function AfterSend(it: OrderItem, orderId: Id, ids: seq<Id>): OrderItem {
    if it.orderId == orderId && it.id in ids && it.status == New then it.(status := Sent) else it
  }

  /**
   * With unique item ids, sending moves exactly the requested items of the
   * order that are `new` to `sent`; everything else is skipped silently.
   */
  lemma {:induction false} SendAllCharacterized(items: seq<OrderItem>, orderId: Id, ids: seq<Id>)
    requires UniqueIds(items)
    ensures var r := SendAll(items, ItemsOfOrder(items, orderId), ids);
            forall i :: 0 <= i < |items| ==> r[i] == AfterSend(items[i], orderId, ids)
    decreases |ids|
  {
    if ids != [] {
      var snapshot := ItemsOfOrder(items, orderId);
      var ids' := ids[..|ids| - 1];
      var id := ids[|ids| - 1];
      SendAllCharacterized(items, orderId, ids');
      SnapshotFind(items, orderId, id);
      var prev := SendAll(items, snapshot, ids');
      var r := SendAll(items, snapshot, ids);
      assert r == SendOne(prev, snapshot, id);
      assert forall x :: x in ids <==> x in ids' || x == id by {
        assert ids == ids' + [id];
      }
      if j :| 0 <= j < |items| && items[j].id == id {
        assert UniqueIds(prev);
        UniqueItemIndex(prev, j, id);
        var sends := items[j].orderId == orderId && items[j].status == New;
        SendableIffNew(items[j].status);
        assert r == if sends then prev[j := prev[j].(status := Sent)] else prev;
        assert r[j] == AfterSend(items[j], orderId, ids);
        forall i | 0 <= i < |items| && i != j
          ensures r[i] == AfterSend(items[i], orderId, ids)
        {
          assert items[i].id != id;
          assert (items[i].id in ids) == (items[i].id in ids');
          assert r[i] == prev[i];
          assert prev[i] == AfterSend(items[i], orderId, ids');
        }
      } else {
        assert r == prev;
        forall i | 0 <= i < |items|
          ensures r[i] == AfterSend(items[i], orderId, ids)
        {
          assert items[i].id != id;
        }
      }
    }
  }

  /** A send the snapshot allows hits an item of the order that is not cancelled, so no subtotal moves. */
  lemma SendStep(items0: seq<OrderItem>, orderId: Id, done: seq<Id>, id: Id)
    requires UniqueIds(items0)
    requires var it := FindItem(ItemsOfOrder(items0, orderId), id);
             it.Some? && CanSetItemStatus(it.value.status, Sent)
    ensures var cur := SendAll(items0, ItemsOfOrder(items0, orderId), done);
            && FindItem(cur, id).Some? && FindItem(cur, id).value.orderId == orderId
            && forall o :: Subtotal(WithItemStatus(cur, id, Sent), o) == Subtotal(cur, o)
  {
    var cur := SendAll(items0, ItemsOfOrder(items0, orderId), done);
    SnapshotFind(items0, orderId, id);
    var it := FindItem(ItemsOfOrder(items0, orderId), id);
    assert it.value in items0;
    var j :| 0 <= j < |items0| && items0[j] == it.value;
    SendableIffNew(it.value.status);
    assert cur[j] == items0[j].(status := cur[j].status);
    assert cur[j].id == id && cur[j].orderId == orderId;
    assert cur[j].status != ItemStatus.Cancelled;
    assert UniqueIds(cur) by {
      forall a, b | 0 <= a < b < |cur| ensures cur[a].id != cur[b].id {
        assert cur[a].id == items0[a].id && cur[b].id == items0[b].id;
      }
    }
    UniqueItemIndex(cur, j, id);
    StatusChangeEffect(cur, j, Sent);
  }

  /**
   * `sendItems`: send each requested item of the order whose status allows
   * `sent`, skipping the rest. The code looks statuses up in the live item
   * records that `listByOrder` returned; the model looks them up in the
   * order's items as they stood before the loop. Both end in the same
   * state: the loop only moves `new` to `sent`, so an item it has already
   * sent is either skipped (live) or sent again to the status it has
   * (before the loop).
   * Sending changes no subtotal, so at most the order's invoice is
   * recalculated to what it already was.
   */
  method SendItems(s: Store, orderId: Id, itemIds: seq<Id>, actorUserId: UserId) returns (r: Result<bool>)
    requires s.Valid()
    modifies s`items, s`invoices, s`nextId
    ensures s.Valid()
    ensures |actorUserId| == 0 ==> r == Err(InvalidInput) && s.items == old(s.items) && s.invoices == old(s.invoices)
    ensures |actorUserId| > 0 ==> r == Ok(true)
    ensures r.Ok? ==> s.items == SendAll(old(s.items), ItemsOfOrder(old(s.items), orderId), itemIds)
    ensures forall o :: Subtotal(s.items, o) == Subtotal(old(s.items), o)
    ensures || s.invoices == old(s.invoices)
            || s.invoices == old(s.invoices)[orderId := Recalc(old(s.items), orderId, Prior(old(s.invoices), orderId))]
  {
    if |actorUserId| == 0 {
      return Err(InvalidInput);
    }
    var items := ItemsOfOrder(s.items, orderId);
    ghost var items0 := s.items;
    ghost var invoices0 := s.invoices;
    ghost var base := Prior(invoices0, orderId);
    ghost var settled := Recalc(items0, orderId, base);
    for i := 0 to |itemIds|
      invariant s.Valid()
      invariant s.items == SendAll(items0, items, itemIds[..i])
      invariant forall o :: Subtotal(s.items, o) == Subtotal(items0, o)
      invariant s.invoices == invoices0 || s.invoices == invoices0[orderId := settled]
    {
      assert itemIds[..i + 1][..i] == itemIds[..i];
      var id := itemIds[i];
      var it := FindItem(items, id);
      if it.Some? && CanSetItemStatus(it.value.status, Sent) {
        SendStep(items0, orderId, itemIds[..i], id);
        ghost var cur, inv := s.items, s.invoices;
        assert Prior(inv, orderId) == base || Prior(inv, orderId) == settled;
        s.SetItemStatus(id, Sent);
        assert s.items == WithItemStatus(cur, id, Sent);
        assert forall o :: Subtotal(s.items, o) == Subtotal(cur, o);
        RecalcAbsorbs(items0, items0, orderId, base);
        RecalcBySubtotal(s.items, items0, orderId, Prior(inv, orderId));
        assert s.invoices == inv[orderId := settled];
        UpdateAbsorbs(inv, invoices0, orderId, settled);
      }
    }
    assert itemIds[..|itemIds|] == itemIds;
    r := Ok(true);
  }

  /** What `sendItems` does to the store's items, item by item: an item ends up sent exactly when it already was, or it was a requested new item of the order; nothing but the status changes. */
  lemma SendItemsEffect(items: seq<OrderItem>, orderId: Id, itemIds: seq<Id>)
    requires UniqueIds(items)
    ensures var r := SendAll(items, ItemsOfOrder(items, orderId), itemIds);
            && |r| == |items|
            && forall i :: 0 <= i < |items| ==>
                 && r[i] == items[i].(status := r[i].status)
                 && (r[i].status == Sent <==>
                       (items[i].status == Sent || (items[i].orderId == orderId && items[i].id in itemIds && items[i].status == New)))
  {
    SendAllCharacterized(items, orderId, itemIds);
  }

  // ---------------------------------------------------------------------
  // Shift assignments
  // ---------------------------------------------------------------------

  /** The number of supervisor assignments (`filter(a => a.role === "supervisor").length`). */
  function CountSupervisors(assignments: seq<Assignment>): (r: nat)
    ensures r <= |assignments|
  {
    if assignments == [] then 0
    else CountSupervisors(assignments[..|assignments| - 1])
         + (if assignments[|assignments| - 1].role == Supervisor then 1 else 0)
  }

  /** The count is zero exactly when no assignment is a supervisor. */
  lemma {:induction false} NoSupervisor(assignments: seq<Assignment>)
    ensures CountSupervisors(assignments) == 0 <==> forall i :: 0 <= i < |assignments| ==> assignments[i].role != Supervisor
  {
    if assignments != [] {
      NoSupervisor(assignments[..|assignments| - 1]);
    }
  }

  /** The count is one exactly when a single assignment, at index `i`, is a supervisor. */
  lemma {:induction false} OneSupervisor(assignments: seq<Assignment>, i: nat)
    requires i < |assignments| && assignments[i].role == Supervisor
    ensures CountSupervisors(assignments) == 1
            <==> forall j :: 0 <= j < |assignments| && j != i ==> assignments[j].role != Supervisor
  {
    var n := |assignments|;
    var init := assignments[..n - 1];
    NoSupervisor(init);
    if i < n - 1 {
      OneSupervisor(init, i);
    }
  }

  /**
   * `updateShiftAssignments`: refuse unless exactly one assignment is a
   * supervisor, then replace the open shift's kind, supervisor and
   * assignments.
   */
  method UpdateShiftAssignments(s: Store, kind: ShiftKind, supervisorUserId: UserId, assignments: seq<Assignment>)
    returns (r: Result<Shift>)
    modifies s`shift
    ensures var valid := |supervisorUserId| > 0 && forall i :: 0 <= i < |assignments| ==> |assignments[i].userId| > 0;
            && (!valid ==> r == Err(InvalidInput))
            && (valid && CountSupervisors(assignments) != 1 ==> r == Err(SupervisorCount(CountSupervisors(assignments))))
            && (valid && CountSupervisors(assignments) == 1 && (old(s.shift).None? || !old(s.shift).value.isOpen) ==>
                  r == Err(NoOpenShift))
            && (r.Ok? <==> valid && CountSupervisors(assignments) == 1 && old(s.shift).Some? && old(s.shift).value.isOpen)
    ensures r.Err? ==> s.shift == old(s.shift)
    ensures r.Ok? ==>
              && CountSupervisors(assignments) == 1
              && r.value == old(s.shift).value.(kind := kind, supervisorUserId := supervisorUserId, assignments := assignments)
              && s.shift == Some(r.value)
  {
    if |supervisorUserId| == 0 || exists i :: 0 <= i < |assignments| && |assignments[i].userId| == 0 {
      return Err(InvalidInput);
    }
    var supCount := CountSupervisors(assignments);
    if supCount != 1 {
      return Err(SupervisorCount(supCount));
    }
    r := s.UpdateOpenShift(kind, supervisorUserId, assignments);
  }
}
