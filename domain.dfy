/**
 * The café's record shapes and status enumerations (orders, items, invoices,
 * payments, ledger entries, products, shifts), and the error kinds that the
 * billing operations raise.
 */
module Domain {

  /** Identifiers handed out by the store's fresh-id counter. */
  type Id = nat
  type UserId = string
  type CustomerId = string
  type ProductId = string

  datatype Option<+T> = None | Some(value: T) {
    function GetOr(default: T): T {
      match this
      case Some(v) => v
      case None => default
    }
  }

  /** Success value or the kind of error the operation throws. */
  datatype Result<+T> = Ok(value: T) | Err(error: Error)

  datatype Error =
    | InvalidInput                    // the input schema rejects the request
    | OrderNotFound
    | ItemNotFound
    | TargetOrderNotFound
    | ProductNotFound
    | OrderClosed
    | CreditInvoice                   // invoice already posted to customer credit
    | AlreadyPaid
    | ExceedsRemaining(remaining: int)
    | InvalidTransition(from: ItemStatus, to: ItemStatus)
    | NoOpenShift
    | SupervisorCount(count: nat)     // a shift needs exactly one supervisor

  datatype BaseRole = Owner | Staff
  datatype ShiftRole = Supervisor | Waiter | Barista | Shisha

  /** The two kitchen stations an item can be routed to. */
  type Station = r: ShiftRole | r == Barista || r == Shisha witness Barista

  // Several constructor names are shared between these enumerations; uses
  // that would be ambiguous are qualified (`OrderStatus.Closed`).
  datatype ItemStatus = New | Sent | InProgress | Ready | Served | Cancelled
  datatype OrderStatus = Open | InProgress | Ready | Closed | Cancelled
  datatype InvoiceStatus = Open | Paid | Credit
  /** `charge` and `payment` ledger entries. */
  datatype EntryKind = ChargeEntry | PaymentEntry
  datatype ShiftKind = Morning | Evening

  datatype Order = Order(
    id: Id,
    tableLabel: Option<string>,
    createdBy: UserId,
    status: OrderStatus,
    customerId: Option<CustomerId>)

  datatype OrderItem = OrderItem(
    id: Id,
    orderId: Id,
    productId: ProductId,
    qty: int,
    unitPrice: int,          // price snapshot taken when the item was added
    notes: Option<string>,
    assignedTo: Station,
    status: ItemStatus)

  datatype Invoice = Invoice(
    orderId: Id,
    subtotal: int,
    discount: int,
    total: int,
    paid: int,
    status: InvoiceStatus)

  datatype Payment = Payment(id: Id, orderId: Id, amount: int, receivedBy: UserId)

  datatype LedgerEntry = LedgerEntry(
    id: Id,
    customerId: CustomerId,
    kind: EntryKind,
    amount: int,
    note: Option<string>,
    orderId: Option<Id>,
    actorUserId: Option<UserId>)

  datatype Product = Product(
    id: ProductId,
    name: string,
    price: int,
    targetRole: Station,
    isArchived: bool)

  datatype Assignment = Assignment(userId: UserId, role: ShiftRole)

  datatype Shift = Shift(
    id: Id,
    kind: ShiftKind,
    isOpen: bool,
    supervisorUserId: UserId,
    assignments: seq<Assignment>)

  function Max(a: int, b: int): int { if a < b then b else a }
}
