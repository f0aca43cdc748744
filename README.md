# Café POS billing engine in Dafny

This project models the billing core of a café point-of-sale system and
proves properties of it. The core covers:

- **Orders and items.** Order items carry a price snapshot and move through
  a kitchen status machine.
- **Invoices.** Each order's invoice is recalculated from its items.
- **Money flows.** Payments against an invoice, splitting a check into a
  new order on the same table, and posting an unpaid balance to a
  customer's credit ledger.
- **Small pure rules.** The role checks, the capability derivation of a
  session, and PIN and phone-number normalisation.

The modules follow the source:

| module | file | models |
|---|---|---|
| `Domain` | `domain.dfy` | The record shapes and status enumerations (`src/domain/model.ts`), plus `Option`, `Result` and the error kinds the operations throw. |
| `ItemState` | `item_state.dfy` | The item transition table (`src/domain/state.ts`). |
| `Policy` | `policy.dfy` | `canTakePayment`, `canApplyDiscount` and `canUpdateKitchenItem` (`src/domain/policy.ts`). |
| `Authz` | `authz.dfy` | The `effectiveRole` and `can` derivations of `src/lib/authz.tsx`, as pure functions of user, shift and owner view role. |
| `Pin` | `pin.dfy` | `pinToPassword` and `normalizePhone` (`src/lib/auth/pin.ts`). |
| `Invoicing` | `invoicing.dfy` | The pure arithmetic of `recalcInvoice` and `customerBalance` (`src/data/memory/repos.ts`): the subtotal over non-cancelled items, the recalculated invoice, and the signed ledger balance. |
| `MemoryRepos` | `repos.dfy` | The shared in-memory store `mem` as class `Store`, and the repository operations as its methods. Lookups and listings are functions. |
| `UseCases` | `usecases.dfy` | The use cases of `src/usecases/index.ts` as methods over a `Store`. |

## How the model works

- **Validation.** Each use case checks its input as the source's schema
  does. A rejected input returns `Err(InvalidInput)` before anything
  changes. Every exception the code throws is an `Err` with its own error
  kind.
- **Ids and money.** Identifiers come from a counter, `nextId`, in place of
  random UUIDs, and money is an unbounded integer.
- **State invariant.** `Store.Valid` keeps every identifier the store has
  seen below the counter: the ids of orders, items, invoices, payments and
  ledger entries. It also keeps item ids unique, and every stored invoice's
  discount and total non-negative. Each method changes only the fields its
  `modifies` clause names.
- **The two loops.** The loops of `splitOrderItems` and `sendItems` are
  methods with loop invariants. Each invariant ties the store to a
  recursive function (`MoveOwned`, `SendAll`), and lemmas characterise
  those functions item by item.

Four behaviours of the code that the model keeps as they are:

- **Split after payment.** `splitOrderItems` does not refuse a split once a
  payment exists.
- **Repeated credit posting.** `billing.postToCredit` reads the cached
  invoice without recalculating it. It never checks whether the order is
  already closed, so a second call charges the customer a second time.
- **Nothing left to post.** When nothing remains, `billing.postToCredit`
  marks the invoice `paid`, even one already marked `credit`.
- **Unchecked payment amount.** `billing.addPayment` in the repository does
  not check that the amount is positive; only the use case's schema does.

## Model

| member | source | states |
|---|---|---|
| ItemState.TransitionsCharacterized | src/domain/state.ts:4-12 | `served` and `cancelled` allow no transition; every other status may go exactly to its one forward successor or to `cancelled` |
| ItemState.NoSelfTransition | src/domain/state.ts:4-12 | no status may be set to itself |
| ItemState.TransitionRaisesRank | src/domain/state.ts:4-12 | every allowed transition moves strictly forward along new < sent < in_progress < ready < served (cancelled ranks last) |
| ItemState.ChainRaisesRank | src/domain/state.ts:4-12 | along a chain of allowed transitions the rank rises by at least one per step |
| ItemState.ChainIsShort | src/domain/state.ts:4-12 | any chain of allowed transitions has at most five statuses, so at most four steps |
| Policy.OwnerPassesEverything | src/domain/policy.ts:9-17 | an owner passes all three checks, for either station, whatever the shift role |
| Policy.StaffWithoutShiftPassesNothing | src/domain/policy.ts:9-17 | a staff member without a shift role passes none of the checks |
| Policy.StationsAreSeparate | src/domain/policy.ts:15-17 | staff may update a kitchen item iff their shift role is that item's station; shisha staff cannot update barista items, nor the reverse |
| Authz.AssignedRole | src/lib/authz.tsx:116-117 | the role of the first assignment naming the user; none exactly when no assignment names the user |
| Authz.SignedOutHasNothing | src/lib/authz.tsx:112-130 | with no session user the effective role is null and all seven capabilities are false |
| Authz.OwnerHasEverything | src/lib/authz.tsx:112-130 | an owner's effective role is the selected view role, and every capability is true |
| Authz.UnassignedStaffHasNothing | src/lib/authz.tsx:112-130 | staff with no open shift, or not assigned in it, have no effective role and no capability |
| Authz.StaffCapabilitiesByRole | src/lib/authz.tsx:120-130 | for staff: supervisor gets takeOrders and billing but not kitchen; waiter gets takeOrders only; barista and shisha get kitchen only; none gets owner or management rights |
| Authz.ManagementIsOwnerOnly | src/lib/authz.tsx:120-130 | manageMenu, manageStaff and manageShifts are each true iff the user is an owner |
| Authz.PolicyAgreesWithCapabilities | src/domain/policy.ts:9-17 | with the user's role in the open shift as the policy context, the payment and discount predicates hold exactly when the session's derived capabilities include billing, and a station may update kitchen items only when they include kitchen, every kitchen holder having at least one station it may update |
| Pin.TrimStart | src/lib/auth/pin.ts:2 | the result is a suffix of the input, everything removed is white space, and the result does not start with white space |
| Pin.TrimEnd | src/lib/auth/pin.ts:2 | the result is a prefix of the input, everything removed is white space, and the result does not end with white space |
| Pin.Trim | src/lib/auth/pin.ts:2 | the trimmed text is no longer than the input and neither starts nor ends with white space |
| Pin.TrimmedUnchanged | src/lib/auth/pin.ts:2 | text with no white space at either end is its own trim |
| Pin.TrimBlank | src/lib/auth/pin.ts:15 | blank text trims to the empty string |
| Pin.PasswordLength | src/lib/auth/pin.ts:1-6 | a trimmed PIN shorter than six characters is doubled, a longer one is returned unchanged, and a PIN of three or more characters yields at least six |
| Pin.PinToPasswordInjective | src/lib/auth/pin.ts:1-6 | two different trimmed PINs on the same side of the six-character boundary give different passwords |
| Pin.ShortAndLongPinCollide | src/lib/auth/pin.ts:1-6 | across the boundary passwords collide: a PIN w of three to five characters and the PIN w+w give the same password |
| Pin.Digits | src/lib/auth/pin.ts:28 | stripping non-digits leaves only digits, never lengthens the text, and leaves nothing of a text without digits |
| Pin.DigitsStep | src/lib/auth/pin.ts:28 | read left to right, each digit of the input is kept in order and every other character is dropped |
| Pin.DigitsOfDigits | src/lib/auth/pin.ts:28 | stripping non-digits from text made only of digits leaves it unchanged |
| Pin.BlankPhoneIsEmpty | src/lib/auth/pin.ts:15-16 | empty or all-white-space input normalises to "" |
| Pin.PhoneShape | src/lib/auth/pin.ts:28-35 | the normalised phone number is digits, optionally after one leading '+' |
| Pin.PhonePlusRule | src/lib/auth/pin.ts:20-31 | the output starts with '+' iff the trimmed input contains '+' or starts with "00" |
| Pin.PhoneDoubleZero | src/lib/auth/pin.ts:23-31 | when the trimmed input starts with "00", the output is '+' followed by the digits after those two characters |
| Pin.PhoneIdempotent | src/lib/auth/pin.ts:14-36 | normalising a normalised number changes nothing, unless that number itself begins with "00" |
| Pin.PhoneNotIdempotentOnDoubleZeroDigits | src/lib/auth/pin.ts:14-36 | the exception is real: for digits d starting with "00", "(d)" normalises to d, and normalising d again gives "+" followed by d without its "00" |
| Invoicing.SubtotalAppend | src/data/memory/repos.ts:6-7 | appending an item adds exactly its line total to its order's subtotal, if it is not cancelled, and nothing to other orders |
| Invoicing.SubtotalUpdate | src/data/memory/repos.ts:6-7 | replacing one item changes a subtotal by the difference of the two items' contributions only |
| Invoicing.SubtotalOfEmptyOrder | src/data/memory/repos.ts:6-7 | an order that owns no item has subtotal 0 |
| Invoicing.MoveConservesValue | src/data/memory/repos.ts:228-240 | moving one item passes its contribution from the source subtotal to the target's, keeps their sum, and leaves every other order's subtotal unchanged |
| Invoicing.StatusChangeEffect | src/data/memory/repos.ts:221-225 | changing an item's status changes its order's subtotal only when the item enters or leaves `cancelled`: entering takes its line total off, leaving (which the repository does not forbid) adds it back; no other order is affected |
| Invoicing.RecalcMeaning | src/data/memory/repos.ts:5-23 | the recalculated subtotal is the sum over the order's non-cancelled items; total = max(subtotal − discount, 0) ≥ 0; discount and paid are carried over; credit is sticky; otherwise status is paid iff paid ≥ total > 0, so a zero total is never paid |
| Invoicing.RecalcCongruent | src/data/memory/repos.ts:9-20 | the recalculated invoice depends on the stored one only through its discount, paid amount and credit flag |
| Invoicing.RecalcAbsorbs | src/data/memory/repos.ts:13-21 | a later recalculation overrides an earlier one, and recalculating twice with no change in between stores the same invoice |
| Invoicing.BalanceIsChargesMinusPayments | src/data/memory/repos.ts:25-29 | a customer's balance is Σ charge amounts − Σ payment amounts over their entries |
| Invoicing.BalanceConcat | src/data/memory/repos.ts:25-29 | the balance of two ledgers joined is the sum of their balances |
| Invoicing.BalancePrepend | src/data/memory/repos.ts:25-29 | a new entry at the front changes only its own customer's balance, by its signed amount |
| Invoicing.BalanceIgnoresOrder | src/data/memory/repos.ts:25-29 | the balance does not depend on the order of the entries: ledgers with the same entries as a multiset have equal balances |
| MemoryRepos.FilterAppend | src/data/memory/repos.ts:176-184 | the listings keep the store's order and multiplicity: filtering a sequence extended by one element extends the result by that element exactly when it passes |
| MemoryRepos.FindProduct | src/data/memory/repos.ts:117-120 | returns a listed product with that id, and fails exactly when every product with that id is archived or none exists |
| MemoryRepos.OpenOrders | src/data/memory/repos.ts:176-179 | the orders listed are exactly those neither closed nor cancelled |
| MemoryRepos.AllOrders | src/data/memory/repos.ts:180-184 | the orders listed are exactly those not cancelled, closed ones included |
| MemoryRepos.ItemsOfOrder | src/data/memory/repos.ts:213-216 | the items listed are exactly the order's items, cancelled ones included |
| MemoryRepos.ItemsForStation | src/data/memory/repos.ts:217-220 | the items listed are exactly the station's items that are neither served nor cancelled |
| MemoryRepos.PaymentsOf | src/data/memory/repos.ts:301-304 | the payments listed are exactly the order's payments |
| MemoryRepos.EntriesOf | src/data/memory/repos.ts:341-346 | the entries listed are exactly the customer's ledger entries |
| MemoryRepos.FindOrder | src/data/memory/repos.ts:172-175 | the first order with that id, or none exactly when no order has that id |
| MemoryRepos.FindItem | src/data/memory/repos.ts:209-212 | the first item with that id, or none exactly when no item has that id |
| MemoryRepos.Cached | src/data/memory/repos.ts:307 | the stored invoice when one exists; otherwise an open invoice for the order with no discount and nothing paid, whose subtotal is the order's current subtotal and whose total is that subtotal clamped at 0 |
| MemoryRepos.WithStatusFind | src/data/memory/repos.ts:185-190 | setting an order's status changes only the order found: finding it again sees the new status, and lookups of other ids are unchanged |
| MemoryRepos.WithStatusTwice | src/data/memory/repos.ts:185-190 | setting the same order status twice is setting it once |
| MemoryRepos.WithCustomerTwice | src/data/memory/repos.ts:191-196 | linking the same customer twice is linking once |
| MemoryRepos.WithStatusBehindNew | src/data/memory/repos.ts:185-190 | an order created at the front does not affect a status update of another order |
| MemoryRepos.PaymentRefusal | src/data/memory/repos.ts:262-283 | a payment is accepted iff the order exists, is neither closed nor cancelled, and the invoice is not credit, 0 < remaining and amount ≤ remaining; a missing order and a finished order give their own errors; an overpayment reports the remaining amount |
| MemoryRepos.AcceptedPaymentFits | src/data/memory/repos.ts:275-289 | an accepted payment never takes paid past the total, and it makes the invoice paid iff it pays exactly what remains of a positive total |
| MemoryRepos.Store.constructor | src/data/memory/db.ts:35-63 | the store starts with no orders, items, payments, ledger entries or invoices, with the given products and shift |
| MemoryRepos.Store.NewId | src/data/memory/db.ts:65-70 | hands out an identifier that no stored order, item, payment, ledger entry or invoice key uses, and advances the counter |
| MemoryRepos.Store.RecalcInvoice | src/data/memory/repos.ts:5-23 | stores and returns the invoice recalculated from the current items over the stored (or default) invoice, and changes no other invoice |
| MemoryRepos.Store.CreateOrder | src/data/memory/repos.ts:163-171 | a new open order with a fresh id is put at the front; its invoice is the empty order's; no item belongs to it yet |
| MemoryRepos.Store.SetOrderStatus | src/data/memory/repos.ts:185-190 | sets the status of the first order with that id, and does nothing when there is none |
| MemoryRepos.Store.SetCustomer | src/data/memory/repos.ts:191-196 | sets the customer of the first order with that id, and does nothing when there is none |
| MemoryRepos.Store.AddItem | src/data/memory/repos.ts:200-208 | appends a new `new` item with a fresh id and recalculates its order's invoice; that order's subtotal grows by qty × unitPrice and no other subtotal changes |
| MemoryRepos.Store.SetItemStatus | src/data/memory/repos.ts:221-227 | sets the item's status, without any transition check, and recalculates its order's invoice; a missing item changes nothing |
| MemoryRepos.Store.MoveToOrder | src/data/memory/repos.ts:228-241 | fails on a missing item or target order and changes nothing; moving to the item's own order is a no-op; otherwise only that item's order id changes and both invoices are recalculated |
| MemoryRepos.Store.CurrentInvoice | src/data/memory/repos.ts:251 | returns the stored invoice, or the recalculated one when none is stored; either way its discount and total are non-negative |
| MemoryRepos.Store.ApplyDiscount | src/data/memory/repos.ts:249-256 | stores max(discount, 0) and recalculates; the resulting discount is non-negative and paid is unchanged |
| MemoryRepos.Store.AddPayment | src/data/memory/repos.ts:257-300 | recalculates the invoice, then refuses exactly as PaymentRefusal says, with no payment added and no order changed; otherwise it prepends one payment whose id no earlier payment has, adds the amount to paid, re-derives the status, and closes the order iff the invoice became paid |
| MemoryRepos.Store.RecordPayment | src/data/memory/repos.ts:285-296 | the accepting half of addPayment: one payment is prepended, paid grows by the amount, the status is re-derived, and the order is closed iff the invoice is paid |
| MemoryRepos.Store.PostToCredit | src/data/memory/repos.ts:305-337 | with nothing remaining on the cached invoice, marks it paid and adds no ledger entry; otherwise it marks it credit, links the customer, closes the order, and prepends one charge of exactly the remaining amount, raising that customer's balance by it |
| MemoryRepos.Store.ChargeRemaining | src/data/memory/repos.ts:315-336 | marks the invoice credit, links and closes the order, and prepends one charge that raises the customer's balance by the amount |
| MemoryRepos.Store.CloseForCustomer | src/data/memory/repos.ts:318-322 | links the customer to the order and closes it, if the order exists |
| MemoryRepos.Store.PrependEntry | src/data/memory/repos.ts:324-334 | puts one new entry at the front of the ledger; that customer's balance moves by its signed amount, and every other customer's balance is unchanged |
| MemoryRepos.Store.AddLedgerEntry | src/data/memory/repos.ts:351-382 | records a charge or a payment with its amount clamped at 0; a charge never lowers the customer's balance, a payment never raises it, and other customers' balances are unchanged |
| MemoryRepos.Store.UpdateOpenShift | src/data/memory/repos.ts:84-93 | fails with no change when no shift is open; otherwise it replaces the open shift's kind, supervisor and assignments |
| UseCases.MoveOwned | src/usecases/index.ts:197-202 | the split loop changes only items' order ids, and each only to the destination |
| UseCases.MoveOwnedCharacterized | src/usecases/index.ts:197-202 | with unique item ids, an item is moved iff it was requested and belonged to the source; missing and foreign ids are skipped |
| UseCases.MoveOwnedConservesValue | src/usecases/index.ts:197-202 | the split loop keeps the sum of the source's and destination's subtotals, and changes no other order's subtotal |
| UseCases.SplitItemsEffect | src/usecases/index.ts:183-219 | splitting into a fresh order: an item ends on the new order iff it was requested and on the source, and the two subtotals add up to the source's subtotal before |
| UseCases.SplitOrderItems | src/usecases/index.ts:183-219 | fails on invalid input, or with "order not found" before creating anything; otherwise it creates an open order on the source's table for the actor, moves exactly the requested source items, conserves the subtotal, recalculates both invoices, and closes the source iff it has no live item left or its total is ≤ 0 |
| UseCases.MoveAndSettle | src/usecases/index.ts:196-210 | runs the move loop and then settles the source; the store ends as the split's effect describes |
| UseCases.MoveRequested | src/usecases/index.ts:197-202 | after the loop the items are MoveOwned of the request; the destination's invoice is recalculated; the source keeps its discount, payments and credit flag; other invoices are untouched |
| UseCases.MoveIfOwned | src/usecases/index.ts:198-201 | one loop pass: moves the item iff it exists and currently belongs to the source |
| UseCases.SettleSource | src/usecases/index.ts:204-210 | recalculates the source's invoice and closes the source iff it has no non-cancelled item or its total is ≤ 0 |
| UseCases.AddPayment | src/usecases/index.ts:321-356 | rejects a non-positive amount or an empty receiver with no change at all; otherwise it accepts iff the repository's guards pass on the recalculated invoice; before the repository is called it refuses a credit invoice with CreditInvoice, a settled one with AlreadyPaid and an amount above what remains with ExceedsRemaining of that remainder, and past those checks the only refusals are OrderNotFound and OrderClosed; a refusal adds no payment and changes no order; on success paid grows by exactly the amount and stays ≤ total, one payment with an id no earlier payment has is prepended, and the order ends closed iff the invoice is paid |
| UseCases.PayChecked | src/usecases/index.ts:337-347 | on an invoice already recalculated, not on credit and with something left to pay, the repository accepts the amount iff its guards pass; a refusal is order-missing or order-closed and changes no payment, order or invoice; on success one payment with an id no earlier payment has is prepended, paid grows by the amount, the status is re-derived, and the order ends closed exactly when the invoice is paid |
| UseCases.CloseIfPaid | src/usecases/index.ts:344-347 | re-reads the recalculated invoice, leaving invoices and the id counter as they were, and closes the order exactly when that invoice is paid, otherwise leaving the orders unchanged |
| UseCases.PostOrderToCustomerCredit | src/usecases/index.ts:365-383 | links the customer first, even when nothing remains; with nothing remaining it makes no ledger entry and marks the invoice paid; otherwise it makes one charge of the remaining amount, marks the invoice credit, and closes the order |
| UseCases.PostedOrderIsLinked | src/usecases/index.ts:368-374 | after posting, an existing order carries the customer, and it is closed when something was charged |
| UseCases.AddLedgerEntry | src/usecases/index.ts:90-148 | rejects an empty customer or actor and a non-positive amount; otherwise it prepends one entry, numbered by the id counter, carrying the given kind, amount, customer, note and order and the actor as its author, moving the customer's balance by exactly ±amount |
| UseCases.CreateOrder | src/usecases/index.ts:159-170 | rejects an empty creator and changes nothing; otherwise it puts a new open order with a fresh id at the front, stores the empty order's invoice for it, and advances the counter |
| UseCases.AddItem | src/usecases/index.ts:231-252 | rejects invalid input and unknown or archived products with no change; otherwise it appends a `new` item with a fresh id, priced at the explicit unit price, else the product's current price, and routed to the explicit station, else the product's; the order's subtotal grows by qty × that price and its invoice is recalculated |
| UseCases.SetItemStatus | src/usecases/index.ts:290-309 | fails on a missing item and on a transition the table forbids, leaving items and invoices unchanged; otherwise it sets the status (the rank strictly rises) and recalculates the invoice, and only a cancellation lowers the subtotal, by the item's line total |
| UseCases.SendAll | src/usecases/index.ts:264-269 | the send loop changes only item statuses, each either unchanged or set to `sent` |
| UseCases.SnapshotFind | src/usecases/index.ts:262-265 | looking an id up in the order's snapshot finds the store's item with that id exactly when it belongs to the order |
| UseCases.SendableIffNew | src/usecases/index.ts:267 | an item may go to `sent` iff it is `new` |
| UseCases.SendAllCharacterized | src/usecases/index.ts:264-269 | with unique ids, exactly the requested `new` items of the order become `sent`; ids not in the order and items in other statuses are skipped |
| UseCases.SendItems | src/usecases/index.ts:260-278 | rejects an empty actor; otherwise the items end as SendAll of the request, with statuses looked up as they stood before the loop, which ends in the same state as the code's lookups in the live records, because a repeated send of an item is absorbed; no subtotal changes, and at most the order's invoice is recalculated |
| UseCases.SendItemsEffect | src/usecases/index.ts:260-278 | per item: only the status changes, and an item is `sent` afterwards iff it already was, or it is a requested `new` item of the order |
| UseCases.CountSupervisors | src/usecases/index.ts:42 | the number of supervisor assignments is at most the number of assignments |
| UseCases.NoSupervisor | src/usecases/index.ts:42-43 | the supervisor count is zero iff no assignment is a supervisor |
| UseCases.OneSupervisor | src/usecases/index.ts:42-43 | with a supervisor at index i, the count is one iff no other assignment is a supervisor |
| UseCases.UpdateShiftAssignments | src/usecases/index.ts:39-57 | rejects invalid input; accepts iff exactly one assignment is a supervisor and a shift is open; a refusal leaves the shift unchanged; success replaces the open shift's kind, supervisor and assignments |

## Left out

- Persistence: `ensureLoaded`, `persist`, local storage and the legacy category migration of `src/data/memory/db.ts` are not modelled. The store is plain in-memory state.
- Random identifiers: `uid()` is replaced by the counter `nextId`. `MemoryRepos.Store.RecalcInvoice` also raises the counter above any order id it records an invoice for, so that a fresh id never collides with an invoice key. Ids are numbers, so the schema's "non-empty id" check on order and item ids has no counterpart.
- Timestamps (`createdAt`, `receivedAt`, `at`, `startedAt`), the newest-first sorts of `listPayments` and `listByCustomer`, and the locale-aware staff sort: these depend on the clock and the locale. The listing functions keep store order.
- The `events` audit log and every `events.append` call: best-effort side output that nothing in the core reads.
- Staff, customer and product records (`staff.*`, `customers.*`, `products.list`), shift opening and closing (`shifts.openShift`, `closeShift`, `listHistory`), and the `openShift` and `createCustomer` use cases: plain record keeping outside billing. Products and the open shift are given to the store's constructor.
- Money as JavaScript numbers: modelled as unbounded integers, so fractional amounts, rounding and `Number(...)` coercion are not represented.
- Concurrency: every operation is one atomic method, since the code has no locking and `await` only sequences the calls.
- Null and undefined inputs, such as `pinRaw ?? ""`: Dafny strings are never null. Optional fields are `Option`, and a missing ledger entry id is `None` rather than "".
- White space and length: `Pin.IsSpace` lists the characters JavaScript's `trim` removes. A Dafny `string` counts Unicode scalar values, while JavaScript's `length` counts UTF-16 code units. So for a PIN holding a character outside the Basic Multilingual Plane, such as an emoji, `pin.length < 6` in `pinToPassword` crosses the six-character boundary earlier in the code than in `Pin.PinToPassword`. Nothing else about Unicode is modelled.
- Pin.Trim: its contract states only that the result is no longer than the input and has no white space at either end. That it is exactly the input's middle part is stated by `Pin.TrimStart` and `Pin.TrimEnd`, not restated for `Trim`.
- Route handlers, the crypto and cookie code, the Supabase clients, middleware and UI components, including the polling and state setters around the authz derivations: HTTP, environment and browser plumbing outside the core.
- The older single-purpose use-case files (`src/usecases/addItem.ts` and its siblings): superseded by `src/usecases/index.ts`, which alone is modelled.
