/**
 * The in-memory store (`mem`) and the repository operations over it:
 * orders, items, billing and the customer ledger. Every operation that the
 * store performs in place is a method of class Store that changes only the
 * fields its `modifies` clause names; lookups and listings are functions.
 */
module MemoryRepos {
  import opened Domain
  import opened Invoicing

  /** Index of the first element satisfying `p` (`Array.prototype.find`). */
  function IndexOf<T(!new)>(s: seq<T>, p: T -> bool): (r: Option<nat>)
    ensures r.Some? ==> r.value < |s| && p(s[r.value]) && forall i :: 0 <= i < r.value ==> !p(s[i])
    ensures r.None? ==> forall i :: 0 <= i < |s| ==> !p(s[i])
  {
    if s == [] then None
    else if p(s[0]) then Some(0)
    else
      var r := IndexOf(s[1..], p);
      assert forall i :: 1 <= i < |s| ==> s[i] == s[1..][i - 1];
      if r.None? then None else Some(r.value + 1)
  }

  /** Filtering a sequence extended by one element extends the result by that element exactly when it passes. */
  lemma {:induction false} FilterAppend<T(!new)>(s: seq<T>, x: T, p: T -> bool)
    ensures Filter(s + [x], p) == Filter(s, p) + (if p(x) then [x] else [])
  {
    if s == [] {
      assert [x][1..] == [];
    } else {
      assert (s + [x])[1..] == s[1..] + [x];
      FilterAppend(s[1..], x, p);
    }
  }

  /** The elements satisfying `p`, in their original order (`Array.prototype.filter`). */
  function Filter<T(!new)>(s: seq<T>, p: T -> bool): (r: seq<T>)
    ensures |r| <= |s|
    ensures forall x :: x in r <==> x in s && p(x)
  {
    if s == [] then []
    else
      var rest := Filter(s[1..], p);
      assert forall x :: x in s <==> x == s[0] || x in s[1..];
      if p(s[0]) then [s[0]] + rest else rest
  }

  function OrderIndex(orders: seq<Order>, id: Id): (r: Option<nat>)
    ensures r.Some? ==> r.value < |orders| && orders[r.value].id == id
                        && forall i :: 0 <= i < r.value ==> orders[i].id != id
    ensures r.None? <==> forall i :: 0 <= i < |orders| ==> orders[i].id != id
  {
    IndexOf(orders, (o: Order) => o.id == id)
  }

  function ItemIndex(items: seq<OrderItem>, id: Id): (r: Option<nat>)
    ensures r.Some? ==> r.value < |items| && items[r.value].id == id
                        && forall i :: 0 <= i < r.value ==> items[i].id != id
    ensures r.None? <==> forall i :: 0 <= i < |items| ==> items[i].id != id
  {
    IndexOf(items, (it: OrderItem) => it.id == id)
  }

  /** `products.get`: the first product with that id that is not archived. */
  function FindProduct(products: seq<Product>, id: ProductId): (r: Option<Product>)
    ensures r.Some? ==> r.value in products && r.value.id == id && !r.value.isArchived
    ensures r.None? <==> forall i :: 0 <= i < |products| ==> products[i].id != id || products[i].isArchived
  {
    var k := IndexOf(products, (p: Product) => p.id == id && !p.isArchived);
    if k.Some? then Some(products[k.value]) else None
  }

  /** `orders.listOpen`: orders neither closed nor cancelled. */
  function OpenOrders(orders: seq<Order>): (r: seq<Order>)
    ensures forall o :: o in r <==> o in orders && o.status != Closed && o.status != OrderStatus.Cancelled
  {
    Filter(orders, (o: Order) => o.status != Closed && o.status != OrderStatus.Cancelled)
  }

  /** `orders.listAll`: every order that is not cancelled, closed ones included. */
  function AllOrders(orders: seq<Order>): (r: seq<Order>)
    ensures forall o :: o in r <==> o in orders && o.status != OrderStatus.Cancelled
  {
    Filter(orders, (o: Order) => o.status != OrderStatus.Cancelled)
  }

  /** `items.listByOrder`: the order's items, cancelled ones included. */
  function ItemsOfOrder(items: seq<OrderItem>, orderId: Id): (r: seq<OrderItem>)
    ensures forall it :: it in r <==> it in items && it.orderId == orderId
  {
    Filter(items, (it: OrderItem) => it.orderId == orderId)
  }

  /** `items.listByRole`: a station's items that are neither served nor cancelled. */
  function ItemsForStation(items: seq<OrderItem>, role: Station): (r: seq<OrderItem>)
    ensures forall it :: it in r <==>
              it in items && it.assignedTo == role && it.status != Served && it.status != ItemStatus.Cancelled
  {
    Filter(items, (it: OrderItem) => it.assignedTo == role && it.status != Served && it.status != ItemStatus.Cancelled)
  }

  /** `billing.listPayments`: the order's payments. */
  function PaymentsOf(payments: seq<Payment>, orderId: Id): (r: seq<Payment>)
    ensures forall p :: p in r <==> p in payments && p.orderId == orderId
  {
    Filter(payments, (p: Payment) => p.orderId == orderId)
  }

  /** `ledger.listByCustomer`: the customer's ledger entries. */
  function EntriesOf(ledger: seq<LedgerEntry>, customerId: CustomerId): (r: seq<LedgerEntry>)
    ensures forall e :: e in r <==> e in ledger && e.customerId == customerId
  {
    Filter(ledger, (e: LedgerEntry) => e.customerId == customerId)
  }

  /**
   * The stored invoice of an order, or a freshly computed one when none is
   * stored: an open invoice over the order's current subtotal with no
   * discount and nothing paid.
   */
  function Cached(invoices: map<Id, Invoice>, items: seq<OrderItem>, orderId: Id): (r: Invoice)
    ensures orderId in invoices ==> r == invoices[orderId]
    ensures orderId !in invoices ==>
              && r.orderId == orderId && r.discount == 0 && r.paid == 0
              && r.subtotal == Subtotal(items, orderId) && r.total == Max(r.subtotal, 0)
              && r.status == InvoiceStatus.Open
  {
    if orderId in invoices then invoices[orderId] else Recalc(items, orderId, DefaultInvoice(orderId))
  }

  /** `orders.get`: the first order with that id. */
  function FindOrder(orders: seq<Order>, id: Id): (r: Option<Order>)
    ensures r.Some? <==> OrderIndex(orders, id).Some?
    ensures r.Some? ==> r.value == orders[OrderIndex(orders, id).value] && r.value.id == id
  {
    var k := OrderIndex(orders, id);
    if k.Some? then Some(orders[k.value]) else None
  }

  /** `items.get`: the first item with that id. */
  function FindItem(items: seq<OrderItem>, id: Id): (r: Option<OrderItem>)
    ensures r.Some? <==> ItemIndex(items, id).Some?
    ensures r.Some? ==> r.value == items[ItemIndex(items, id).value] && r.value.id == id
  {
    var k := ItemIndex(items, id);
    if k.Some? then Some(items[k.value]) else None
  }

  /** The orders after `o.status = status` on the first order with that id, if any. */
  function WithStatus(orders: seq<Order>, id: Id, status: OrderStatus): seq<Order> {
    var k := OrderIndex(orders, id);
    if k.Some? then orders[k.value := orders[k.value].(status := status)] else orders
  }

  /** The orders after `o.customerId = customerId` on the first order with that id, if any. */
  function WithCustomer(orders: seq<Order>, id: Id, customerId: Option<CustomerId>): seq<Order> {
    var k := OrderIndex(orders, id);
    if k.Some? then orders[k.value := orders[k.value].(customerId := customerId)] else orders
  }

  /** The items after `it.status = status` on the first item with that id, if any. */
  function WithItemStatus(items: seq<OrderItem>, id: Id, status: ItemStatus): seq<OrderItem> {
    var k := ItemIndex(items, id);
    if k.Some? then items[k.value := items[k.value].(status := status)] else items
  }

  /** Sequences of orders with the same ids position by position find an id at the same index. */
  lemma SameIdsSameIndex(a: seq<Order>, b: seq<Order>, id: Id)
    requires |a| == |b| && forall i :: 0 <= i < |a| ==> a[i].id == b[i].id
    ensures OrderIndex(a, id) == OrderIndex(b, id)
  {
    var ka, kb := OrderIndex(a, id), OrderIndex(b, id);
    if ka.Some? && kb.Some? {
      assert !(ka.value < kb.value) && !(kb.value < ka.value);
    }
  }

  /** Updating an order through `orders.find` only changes the order found, and finding it again sees the change. */
  lemma WithStatusFind(orders: seq<Order>, id: Id, status: OrderStatus, other: Id)
    ensures var r := WithStatus(orders, id, status);
            && |r| == |orders| && (forall i :: 0 <= i < |r| ==> r[i].id == orders[i].id)
            && FindOrder(r, id) == (if FindOrder(orders, id).Some? then Some(FindOrder(orders, id).value.(status := status)) else None)
            && (other != id ==> FindOrder(r, other) == FindOrder(orders, other))
  {
    var r := WithStatus(orders, id, status);
    SameIdsSameIndex(r, orders, id);
    SameIdsSameIndex(r, orders, other);
  }

  /** Setting the same status twice is setting it once. */
  lemma WithStatusTwice(orders: seq<Order>, id: Id, status: OrderStatus)
    ensures WithStatus(WithStatus(orders, id, status), id, status) == WithStatus(orders, id, status)
  {
    SameIdsSameIndex(WithStatus(orders, id, status), orders, id);
  }

  /** Linking the same customer twice is linking once. */
  lemma WithCustomerTwice(orders: seq<Order>, id: Id, customerId: Option<CustomerId>)
    ensures WithCustomer(WithCustomer(orders, id, customerId), id, customerId) == WithCustomer(orders, id, customerId)
  {
    SameIdsSameIndex(WithCustomer(orders, id, customerId), orders, id);
  }

  /** A new order in front does not affect updates of another id. */
  lemma WithStatusBehindNew(o: Order, orders: seq<Order>, id: Id, status: OrderStatus)
    requires o.id != id
    ensures WithStatus([o] + orders, id, status) == [o] + WithStatus(orders, id, status)
  {
    var k := OrderIndex(orders, id);
    var k' := OrderIndex([o] + orders, id);
    assert forall i :: 0 <= i < |orders| ==> ([o] + orders)[i + 1] == orders[i];
    assert k.Some? <==> k'.Some?;
    assert k.Some? ==> k'.value == k.value + 1;
  }

  /** No two items share an id. */
  ghost predicate UniqueIds(items: seq<OrderItem>) {
    forall i, j :: 0 <= i < j < |items| ==> items[i].id != items[j].id
  }

  predicate IsFinished(status: OrderStatus) {
    status == Closed || status == OrderStatus.Cancelled
  }

  /**
   * Why `billing.addPayment` refuses a payment against the recalculated
   * invoice, checked in the source's order: a missing order, a closed or
   * cancelled one, an invoice posted to credit, nothing left to pay, and an
   * amount above what remains.
   */
  function PaymentRefusal(order: Option<Order>, inv: Invoice, amount: int): (r: Option<Error>)
    ensures r.None? <==> order.Some? && !IsFinished(order.value.status) && inv.status != Credit
                         && 0 < Remaining(inv) && amount <= Remaining(inv)
    ensures order.None? ==> r == Some(OrderNotFound)
    ensures order.Some? && IsFinished(order.value.status) ==> r == Some(OrderClosed)
    ensures r == Some(ExceedsRemaining(Remaining(inv))) <==>
              order.Some? && !IsFinished(order.value.status) && inv.status != Credit && 0 < Remaining(inv) < amount
  {
    if order.None? then Some(OrderNotFound)
    else if IsFinished(order.value.status) then Some(OrderClosed)
    else if inv.status == Credit then Some(CreditInvoice)
    else
      var remaining := Max(inv.total - inv.paid, 0);
      if remaining <= 0 then Some(AlreadyPaid)
      else if amount > remaining then Some(ExceedsRemaining(remaining))
      else None
  }

  /** An accepted payment never takes `paid` past the total. */
  lemma AcceptedPaymentFits(order: Option<Order>, inv: Invoice, amount: int)
    requires PaymentRefusal(order, inv, amount).None?
    ensures inv.paid + amount <= inv.total
    ensures SettledStatus(inv.paid + amount, inv.total) == Paid <==> amount == Remaining(inv) && inv.total > 0
  {
  }

  /** The shared in-memory state and the repository operations on it. */
  class Store {
    var orders: seq<Order>
    var items: seq<OrderItem>
    var payments: seq<Payment>
    var ledger: seq<LedgerEntry>
    var invoices: map<Id, Invoice>
    var products: seq<Product>
    var shift: Option<Shift>
    /** The next identifier to hand out; stands in for random UUIDs. */
    var nextId: Id

    /**
     * Every identifier the store has seen (of an order, item, invoice,
     * payment or ledger entry) is below the counter, so a new one collides
     * with nothing; item ids are unique; and no stored invoice has a
     * negative discount or total.
     */
    ghost predicate Valid()
      reads this
    {
      && OrderIdsFresh() && ItemIdsFresh() && InvoiceKeysFresh() && PaymentIdsFresh() && LedgerIdsFresh()
      && ItemIdsUnique() && InvoicesNonNegative()
    }

    ghost predicate OrderIdsFresh()
      reads this`orders, this`nextId
    {
      forall i :: 0 <= i < |orders| ==> orders[i].id < nextId
    }

    ghost predicate ItemIdsFresh()
      reads this`items, this`nextId
    {
      forall i :: 0 <= i < |items| ==> items[i].id < nextId && items[i].orderId < nextId
    }

    ghost predicate InvoiceKeysFresh()
      reads this`invoices, this`nextId
    {
      forall k :: k in invoices ==> k < nextId
    }

    ghost predicate PaymentIdsFresh()
      reads this`payments, this`nextId
    {
      forall i :: 0 <= i < |payments| ==> payments[i].id < nextId
    }

    ghost predicate LedgerIdsFresh()
      reads this`ledger, this`nextId
    {
      forall i :: 0 <= i < |ledger| ==> ledger[i].id < nextId
    }

    ghost predicate InvoicesNonNegative()
      reads this`invoices
    {
      forall k :: k in invoices ==> invoices[k].discount >= 0 && invoices[k].total >= 0
    }

    ghost predicate ItemIdsUnique()
      reads this`items
    {
      UniqueIds(items)
    }

    constructor (products: seq<Product>, shift: Option<Shift>)
      ensures Valid()
      ensures orders == [] && items == [] && payments == [] && ledger == [] && invoices == map[]
      ensures this.products == products && this.shift == shift
    {
      orders, items, payments, ledger, invoices := [], [], [], [], map[];
      this.products, this.shift := products, shift;
      nextId := 0;
    }

    /** A fresh identifier (`uid()`). */
    method NewId() returns (id: Id)
      requires Valid()
      modifies this`nextId
      ensures Valid()
      ensures id == old(nextId) && nextId == id + 1
      ensures id !in invoices
      ensures && (forall i :: 0 <= i < |orders| ==> orders[i].id != id)
              && (forall i :: 0 <= i < |items| ==> items[i].id != id && items[i].orderId != id)
              && (forall i :: 0 <= i < |payments| ==> payments[i].id != id)
              && (forall i :: 0 <= i < |ledger| ==> ledger[i].id != id)
    {
      id := nextId;
      nextId := nextId + 1;
    }

    /**
     * `recalcInvoice`: recompute the order's invoice from the current items
     * and store it. The counter is kept above the order id, since invoices
     * are recorded even for ids the store never handed out.
     */
    method RecalcInvoice(orderId: Id) returns (inv: Invoice)
      requires Valid()
      modifies this`invoices, this`nextId
      ensures Valid()
      ensures inv == Recalc(items, orderId, Prior(old(invoices), orderId))
      ensures invoices == old(invoices)[orderId := inv]
      ensures nextId == Max(old(nextId), orderId + 1)
    {
      inv := Recalc(items, orderId, Prior(invoices, orderId));
      invoices := invoices[orderId := inv];
      if orderId >= nextId {
        nextId := orderId + 1;
      }
    }

    /** `orders.create`: a new open order at the front, with an empty invoice. */
    method CreateOrder(tableLabel: Option<string>, createdBy: UserId, customerId: Option<CustomerId>)
      returns (o: Order)
      requires Valid()
      modifies this`orders, this`invoices, this`nextId
      ensures Valid()
      ensures o == Order(old(nextId), tableLabel, createdBy, OrderStatus.Open, customerId)
      ensures orders == [o] + old(orders)
      ensures invoices == old(invoices)[o.id := Recalc(items, o.id, DefaultInvoice(o.id))]
      ensures o.id !in old(invoices) && forall i :: 0 <= i < |items| ==> items[i].orderId != o.id
      ensures nextId == old(nextId) + 1
    {
      var id := NewId();
      o := Order(id, tableLabel, createdBy, OrderStatus.Open, customerId);
      orders := [o] + orders;
      var _ := RecalcInvoice(id);
    }

    /** `orders.setStatus`: set the status of the order if it exists. */
    method SetOrderStatus(orderId: Id, status: OrderStatus)
      requires Valid()
      modifies this`orders
      ensures Valid()
      ensures orders == WithStatus(old(orders), orderId, status)
    {
      var k := OrderIndex(orders, orderId);
      if k.Some? {
        orders := orders[k.value := orders[k.value].(status := status)];
      }
    }

    /** `orders.setCustomer`: link (or unlink) a customer if the order exists. */
    method SetCustomer(orderId: Id, customerId: Option<CustomerId>)
      requires Valid()
      modifies this`orders
      ensures Valid()
      ensures orders == WithCustomer(old(orders), orderId, customerId)
    {
      var k := OrderIndex(orders, orderId);
      if k.Some? {
        orders := orders[k.value := orders[k.value].(customerId := customerId)];
      }
    }

    /** `items.add`: append a new item and recompute its order's invoice. The order is not checked to exist. */
    method AddItem(orderId: Id, productId: ProductId, qty: int, unitPrice: int, notes: Option<string>, assignedTo: Station)
      returns (it: OrderItem)
      requires Valid()
      modifies this`items, this`invoices, this`nextId
      ensures Valid()
      ensures it == OrderItem(old(nextId), orderId, productId, qty, unitPrice, notes, assignedTo, New)
      ensures items == old(items) + [it]
      ensures invoices == old(invoices)[orderId := Recalc(items, orderId, Prior(old(invoices), orderId))]
      ensures Subtotal(items, orderId) == Subtotal(old(items), orderId) + qty * unitPrice
      ensures forall o :: o != orderId ==> Subtotal(items, o) == Subtotal(old(items), o)
      ensures nextId > old(nextId)
    {
      var id := NewId();
      it := OrderItem(id, orderId, productId, qty, unitPrice, notes, assignedTo, New);
      if orderId >= nextId {
        nextId := orderId + 1;
      }
      forall o ensures Subtotal(items + [it], o) == Subtotal(items, o) + Contribution(it, o) {
        SubtotalAppend(items, it, o);
      }
      items := items + [it];
      var _ := RecalcInvoice(orderId);
    }

    /** `items.setStatus`: set the item's status (no transition check here) and recompute its order's invoice. */
    method SetItemStatus(itemId: Id, status: ItemStatus)
      requires Valid()
      modifies this`items, this`invoices, this`nextId
      ensures Valid() && nextId == old(nextId)
      ensures items == WithItemStatus(old(items), itemId, status)
      ensures FindItem(old(items), itemId).None? ==> invoices == old(invoices)
      ensures FindItem(old(items), itemId).Some? ==>
                var o := FindItem(old(items), itemId).value.orderId;
                invoices == old(invoices)[o := Recalc(items, o, Prior(old(invoices), o))]
    {
      var k := ItemIndex(items, itemId);
      if k.Some? {
        items := items[k.value := items[k.value].(status := status)];
        var _ := RecalcInvoice(items[k.value].orderId);
      }
    }

    /**
     * `items.moveToOrder`: reassign an item to another existing order and
     * recompute both invoices; moving an item to its own order does nothing.
     */
    method MoveToOrder(itemId: Id, toOrderId: Id) returns (r: Result<()>)
      requires Valid()
      modifies this`items, this`invoices, this`nextId
      ensures Valid() && nextId == old(nextId)
      ensures ItemIndex(old(items), itemId).None? ==> r == Err(ItemNotFound)
      ensures r.Err? ==> items == old(items) && invoices == old(invoices)
      ensures ItemIndex(old(items), itemId).Some? ==>
                var k := ItemIndex(old(items), itemId).value;
                var from := old(items)[k].orderId;
                && (from == toOrderId ==> r == Ok(()) && items == old(items) && invoices == old(invoices))
                && (from != toOrderId && OrderIndex(orders, toOrderId).None? ==> r == Err(TargetOrderNotFound))
                && (from != toOrderId && OrderIndex(orders, toOrderId).Some? ==>
                      && r == Ok(())
                      && items == old(items)[k := old(items)[k].(orderId := toOrderId)]
                      && invoices == old(invoices)[from := Recalc(items, from, Prior(old(invoices), from))]
                                                  [toOrderId := Recalc(items, toOrderId, Prior(old(invoices), toOrderId))])
    {
      var k := ItemIndex(items, itemId);
      if k.None? {
        return Err(ItemNotFound);
      }
      var from := items[k.value].orderId;
      if from == toOrderId {
        return Ok(());
      }
      var target := OrderIndex(orders, toOrderId);
      if target.None? {
        return Err(TargetOrderNotFound);
      }
      items := items[k.value := items[k.value].(orderId := toOrderId)];
      var _ := RecalcInvoice(from);
      var _ := RecalcInvoice(toOrderId);
      r := Ok(());
    }

    /** The stored invoice, or a recalculated one when none is stored (`invoices.get(id) ?? recalcInvoice(id)`). */
    method CurrentInvoice(orderId: Id) returns (inv: Invoice)
      requires Valid()
      modifies this`invoices, this`nextId
      ensures Valid()
      ensures inv == Cached(old(invoices), items, orderId)
      ensures invoices == old(invoices)[orderId := inv]
      ensures orderId in old(invoices) ==> nextId == old(nextId)
      ensures orderId < nextId
      ensures inv.discount >= 0 && inv.total >= 0
    {
      if orderId in invoices {
        inv := invoices[orderId];
      } else {
        inv := RecalcInvoice(orderId);
      }
    }

    /** `billing.applyDiscount`: store the discount, clamped at zero, and recompute the invoice. */
    method ApplyDiscount(orderId: Id, discount: int) returns (inv: Invoice)
      requires Valid()
      modifies this`invoices, this`nextId
      ensures Valid()
      ensures inv == Recalc(items, orderId, Prior(old(invoices), orderId).(discount := Max(discount, 0)))
      ensures invoices == old(invoices)[orderId := inv]
      ensures inv.discount >= 0 && inv.discount >= discount && inv.paid == Prior(old(invoices), orderId).paid
    {
      var cur := CurrentInvoice(orderId);
      invoices := invoices[orderId := cur.(discount := Max(discount, 0))];
      inv := RecalcInvoice(orderId);
      RecalcCongruent(items, orderId, cur.(discount := Max(discount, 0)),
                      Prior(old(invoices), orderId).(discount := Max(discount, 0)));
    }

    /**
     * `billing.addPayment`: against the freshly recalculated invoice, refuse
     * the payment as `PaymentRefusal` says; otherwise prepend it, add it to
     * `paid`, re-derive the status and close the order once it is paid.
     */
    method AddPayment(orderId: Id, amount: int, receivedBy: UserId) returns (r: Result<Payment>)
      requires Valid()
      modifies this`invoices, this`nextId, this`payments, this`orders
      ensures Valid()
      ensures var inv0 := Recalc(items, orderId, Prior(old(invoices), orderId));
              var refusal := PaymentRefusal(FindOrder(old(orders), orderId), inv0, amount);
              && (refusal.Some? ==> r == Err(refusal.value))
              && (refusal.None? ==> r.Ok?)
      ensures var inv0 := Recalc(items, orderId, Prior(old(invoices), orderId));
              r.Err? ==> payments == old(payments) && orders == old(orders) && invoices == old(invoices)[orderId := inv0]
      ensures r.Ok? ==>
                var inv0 := Recalc(items, orderId, Prior(old(invoices), orderId));
                var paid := inv0.paid + amount;
                && r.value == Payment(r.value.id, orderId, amount, receivedBy)
                && (forall i :: 0 <= i < |old(payments)| ==> old(payments)[i].id != r.value.id)
                && payments == [r.value] + old(payments)
                && invoices == old(invoices)[orderId := inv0.(paid := paid, status := SettledStatus(paid, inv0.total))]
      ensures r.Ok? ==>
                orders == if invoices[orderId].status == Paid then WithStatus(old(orders), orderId, Closed) else old(orders)
    {
      var inv0 := RecalcInvoice(orderId);
      var refusal := PaymentRefusal(FindOrder(orders, orderId), inv0, amount);
      if refusal.Some? {
        return Err(refusal.value);
      }
      var p := RecordPayment(orderId, OrderIndex(orders, orderId).value, inv0, amount, receivedBy);
      r := Ok(p);
    }

    /** The accepting half of `billing.addPayment`, for the order at index `k`. */
    method RecordPayment(orderId: Id, k: nat, inv0: Invoice, amount: int, receivedBy: UserId) returns (p: Payment)
      requires Valid() && k < |orders| && orderId in invoices && inv0.discount >= 0 && inv0.total >= 0
      modifies this`invoices, this`nextId, this`payments, this`orders
      ensures Valid()
      ensures var paid := inv0.paid + amount;
              invoices == old(invoices)[orderId := inv0.(paid := paid, status := SettledStatus(paid, inv0.total))]
      ensures p == Payment(old(nextId), orderId, amount, receivedBy) && payments == [p] + old(payments)
      ensures orders == old(orders)[k := old(orders)[k].(
                status := if invoices[orderId].status == Paid then Closed else old(orders)[k].status)]
    {
      var id := NewId();
      p := Payment(id, orderId, amount, receivedBy);
      payments := [p] + payments;
      var paid := inv0.paid + amount;
      var nextStatus := SettledStatus(paid, inv0.total);
      invoices := invoices[orderId := inv0.(paid := paid, status := nextStatus)];
      if nextStatus == Paid {
        orders := orders[k := orders[k].(status := Closed)];
      }
    }

    /**
     * `billing.postToCredit`: turn what remains on the cached invoice into
     * one ledger charge for the customer, mark the invoice `credit` and
     * close the order. With nothing remaining the invoice is marked `paid`
     * and no entry is made. The order is not checked to be open, so a
     * second call charges again.
     */
    method PostToCredit(orderId: Id, customerId: CustomerId, note: Option<string>, actorUserId: Option<UserId>)
      returns (entryId: Option<Id>)
      requires Valid()
      modifies this`invoices, this`nextId, this`orders, this`ledger
      ensures Valid()
      ensures var remaining := Remaining(Cached(old(invoices), old(items), orderId));
              remaining <= 0 ==>
                && entryId.None?
                && invoices == old(invoices)[orderId := Cached(old(invoices), old(items), orderId).(status := Paid)]
                && ledger == old(ledger) && orders == old(orders)
      ensures var remaining := Remaining(Cached(old(invoices), old(items), orderId));
              remaining > 0 ==>
                && entryId.Some?
                && invoices == old(invoices)[orderId := Cached(old(invoices), old(items), orderId).(status := Credit)]
                && ledger == [LedgerEntry(entryId.value, customerId, ChargeEntry, remaining, note, Some(orderId), actorUserId)]
                             + old(ledger)
                && Balance(ledger, customerId) == Balance(old(ledger), customerId) + remaining
      ensures Remaining(Cached(old(invoices), old(items), orderId)) > 0 ==>
                orders == WithStatus(WithCustomer(old(orders), orderId, Some(customerId)), orderId, Closed)
    {
      var inv := CurrentInvoice(orderId);
      ghost var invoices1 := invoices;
      assert inv == Cached(old(invoices), old(items), orderId);
      var remaining := Max(inv.total - inv.paid, 0);
      if remaining <= 0 {
        invoices := invoices[orderId := inv.(status := Paid)];
        return None;
      }
      var e := ChargeRemaining(orderId, inv, remaining, customerId, note, actorUserId);
      assert invoices == invoices1[orderId := inv.(status := Credit)];
      entryId := Some(e.id);
    }

    /** The crediting half of `billing.postToCredit`: mark the invoice, close the order, charge the customer. */
    method ChargeRemaining(orderId: Id, inv: Invoice, remaining: int, customerId: CustomerId, note: Option<string>,
                           actorUserId: Option<UserId>)
      returns (e: LedgerEntry)
      requires Valid() && orderId in invoices && inv.discount >= 0 && inv.total >= 0
      modifies this`invoices, this`nextId, this`orders, this`ledger
      ensures Valid()
      ensures invoices == old(invoices)[orderId := inv.(status := Credit)]
      ensures e == LedgerEntry(old(nextId), customerId, ChargeEntry, remaining, note, Some(orderId), actorUserId)
      ensures ledger == [e] + old(ledger)
      ensures Balance(ledger, customerId) == Balance(old(ledger), customerId) + remaining
      ensures orders == WithStatus(WithCustomer(old(orders), orderId, Some(customerId)), orderId, Closed)
    {
      invoices := invoices[orderId := inv.(status := Credit)];
      CloseForCustomer(orderId, customerId);
      e := PrependEntry(ChargeEntry, customerId, remaining, note, Some(orderId), actorUserId);
    }

    /** Link the customer to the order and close it, if the order exists. */
    method CloseForCustomer(orderId: Id, customerId: CustomerId)
      requires Valid()
      modifies this`orders
      ensures Valid()
      ensures orders == WithStatus(WithCustomer(old(orders), orderId, Some(customerId)), orderId, Closed)
    {
      SameIdsSameIndex(WithCustomer(orders, orderId, Some(customerId)), orders, orderId);
      var k := OrderIndex(orders, orderId);
      if k.Some? {
        orders := orders[k.value := orders[k.value].(customerId := Some(customerId), status := Closed)];
      }
    }

    /** Put a new entry at the front of the ledger (`ledger.unshift`). */
    method PrependEntry(kind: EntryKind, customerId: CustomerId, amount: int, note: Option<string>,
                        orderId: Option<Id>, actorUserId: Option<UserId>)
      returns (e: LedgerEntry)
      requires Valid()
      modifies this`ledger, this`nextId
      ensures Valid()
      ensures e == LedgerEntry(old(nextId), customerId, kind, amount, note, orderId, actorUserId)
      ensures ledger == [e] + old(ledger)
      ensures Balance(ledger, customerId)
              == Balance(old(ledger), customerId) + (if kind == ChargeEntry then amount else -amount)
      ensures forall c :: c != customerId ==> Balance(ledger, c) == Balance(old(ledger), c)
    {
      var id := NewId();
      e := LedgerEntry(id, customerId, kind, amount, note, orderId, actorUserId);
      forall c ensures Balance([e] + ledger, c) == Signed(e, c) + Balance(ledger, c) {
        BalancePrepend(e, ledger, c);
      }
      ledger := [e] + ledger;
    }

    /** `ledger.addCharge` and `ledger.addPayment`: prepend an entry whose amount is clamped at zero. */
    method AddLedgerEntry(kind: EntryKind, customerId: CustomerId, amount: int, note: Option<string>,
                          orderId: Option<Id>, actorUserId: Option<UserId>)
      returns (e: LedgerEntry)
      requires Valid()
      modifies this`ledger, this`nextId
      ensures Valid()
      ensures e == LedgerEntry(old(nextId), customerId, kind, Max(amount, 0), note, orderId, actorUserId)
      ensures e.amount >= 0
      ensures ledger == [e] + old(ledger)
      ensures kind == ChargeEntry ==> Balance(ledger, customerId) >= Balance(old(ledger), customerId)
      ensures kind == PaymentEntry ==> Balance(ledger, customerId) <= Balance(old(ledger), customerId)
      ensures forall c :: c != customerId ==> Balance(ledger, c) == Balance(old(ledger), c)
    {
      e := PrependEntry(kind, customerId, Max(amount, 0), note, orderId, actorUserId);
    }

    /** `shifts.updateOpenShift`: replace the open shift's kind, supervisor and assignments. */
    method UpdateOpenShift(kind: ShiftKind, supervisorUserId: UserId, assignments: seq<Assignment>)
      returns (r: Result<Shift>)
      modifies this`shift
      ensures old(shift).None? || !old(shift).value.isOpen ==> r == Err(NoOpenShift) && shift == old(shift)
      ensures old(shift).Some? && old(shift).value.isOpen ==>
                && r == Ok(old(shift).value.(kind := kind, supervisorUserId := supervisorUserId, assignments := assignments))
                && shift == Some(r.value)
    {
      if shift.None? || !shift.value.isOpen {
        return Err(NoOpenShift);
      }
      var s := shift.value.(kind := kind, supervisorUserId := supervisorUserId, assignments := assignments);
      shift := Some(s);
      r := Ok(s);
    }
  }
}
