# UZA Mobility backend: a verified model

A model, in Dafny, of the parts of the UZA Mobility marketplace backend that hold state machines,
arithmetic or loops, with proofs about every input, every run and every reachable state.

**Commerce.** `Commerce` holds the shared tables; `Invoices`, `Payments`, `Orders` and `Bookings` give
each service method as a function from tables to tables or an exception, with the checks in the source's
order. Two methods go on after their transaction: confirming a payment makes the order, and delivering
an order writes the sustainability metric. Both second halves are steps of their own, and a crash may
come before them. `Protocol` puts all calls together with anything that can happen to accounts, listings
and inquiries, and proves the joint invariant. `Guarantees` draws what follows for whole runs,
`ActiveInvoices` and `Exclusive` which steps break a rule that no service keeps alone. `Deadlines`,
`Rights` and `BookingLife` are laws across calls: when invoices expire, whose call may change what, and
what a booking keeps. `CommerceStore` is the imperative form: a store whose methods update the tables,
each proved to take exactly the specified step and to keep the joint invariant. `Witnesses` holds runs
from empty tables that reach the failing side of what is kept only under a condition.

**Platform listings.** `Gallery` is the photo gallery and review status inside one update that can be
rolled back; `Inventory` is the pipeline between the China and the Rwanda channel and the price that
moves with it; `GalleryUpdate` and `GalleryOrder` say what a whole update makes of the photos and when a
requested order is followed, `PriceTrips` when a visit to Kigali brings a price back.

**Pricing.** `Pricing` holds the four calculators, `Money` the conversions, `RuleSync` the loop that
re-prices what a rule governs; `Repricing` holds creation, edit and sync together in all four channels.

**Identifiers and lists.** `References` and `Decimal` are reference numbers; `Slugs` are slugs and the
search for a free one, `SlugWords` their words; `PaymentViews` hides superseded payments and cuts pages;
`Promotions` finds the best promotion, singly and in a batch.

Money is exact (`real`), with Math.round as floor(x + 1/2). A row of a table that only grows is known by
its place.

## What came out

These are facts about the code that its own messages or documentation do not suggest:

- A buyer can never cancel an AWAITING_PAYMENT invoice, though the status is on the cancellable list:
  it always has a rejected payment (`BuyerCancelsIff`).
- A cancelled, confirmed or expired invoice is closed for good only without a payment under
  verification; confirming or rejecting such a payment overwrites the status (`ClosedForGoodIff`,
  `ExpiredForGoodIff`; reached in `ClosedNotForGood`).
- One active invoice for a buyer and a vehicle is kept by all steps but two
  (`OneActiveEachIff`; broken in `TwoActiveInvoices`).
- docs/doc-04 says orders are created automatically on confirmation. They are, except for an invoice
  without a listing and after a crash between the two transactions; then none ever comes unless
  another payment is open (`ConfirmedButThrowsIff`, `OrderComesIff`; reached in `ConfirmedButThrows` and
  `OrderLost`).
- An order does not take its vehicle off sale: it can be ordered again (`OneLiveOrderIff`,
  `TwoLiveOrders`).
- Booking is refused to the holder of an active invoice, but an invoice is not refused to the holder of
  an active booking (`NotBothIff`, `BookingAndInvoice`).
- A booking can be confirmed without any proof (`BookingConfirmableIff`, reached in
  `ConfirmedWithoutProof`).
- An admin can cancel a delivered order; its metric stays (`CancelKeepsDelivery`, reached in
  `DeliveredThenCancelled`).
- docs/doc-02 and docs/doc-03 say that requesting an invoice reserves the listing. No modelled method
  does (`NothingReserves`); cancellation and expiry still release one that is reserved.
- The update form says new photos are shown after the others. After a removal without a new order
  they may not be (`AppendShownLastIff`, `NewPhotoShownFirst`).
- A photo order that is the one shown already is not looked at: gaps and ties stay, and it may name a
  photo that the update removes (`UpdateFollowsIff`, `OrderNotLookedAt`, `RemovedPhotoNamed`). Naming a
  photo of it twice makes it count (`RepeatOfShownIff`, `RepeatClosesGap`).
- A photo order with repeats is accepted, although the message asks for every photo exactly once
  (`RepeatAccepted`).
- An unpinned listing whose origin is not CN is re-priced by the rule for CN when it leaves Kigali
  (`OtherOriginRepriced`, `DearerAfterVisit`).
- A price edit that names no rule keeps an old pin beside the active rule's price, and the vehicle may
  come back from Kigali at another price (`EditKeepsWayBackIff`, `StalePin`).
- The price kept on the move into Kigali holds a discount that the next rule sync takes again
  (`KeptPriceSurvivesSyncIff`, `DiscountTakenTwice`).
- The buyer's list of payments, asked for REJECTED ones, shows attempts that a newer payment replaced
  (`StatusFilterAgreesIff`).
- A listing is moved even if its price cannot be: the two updates are not one transaction
  (`MovedWithoutItsPrice`).
- A rule sync pins the listings it re-prices that were not pinned to any rule
  (`SyncIsIdempotent`).
- The millionth reference of a year is the last new one (`NeverRepeatsIff`, `AllDifferentIff`).
- Cents survive conversion exactly from a rate of 100 up, the bound included (`CentsRecoveredIff`).

## Model

| member | source | states |
|---|---|---|
| `Protocol.StepKeepsInv` | src/modules/payments/payments.service.ts:60-108 | the joint invariant of the four services survives every call, every left-over step and a crash: a SENT invoice has no payment, PAYMENT_SUBMITTED and PARTIALLY_PAID have one under verification, AWAITING_PAYMENT a rejected one, PAYMENT_CONFIRMED a confirmed one, no other status but CANCELLED and EXPIRED occurs; orders, bookings and metrics as in the rows below |
| `Guarantees.EveryRun` | src/modules/payments/payments.service.ts:195-274 | the invariant holds after every run from empty tables, and what a run settled no continuation undoes |
| `Guarantees.RunKeeps` | src/modules/bookings/bookings.service.ts:328-374 | over any run: CONFIRMED and REJECTED payments keep their status, tracking logs only grow and the rest of an order never changes, CONFIRMED and CANCELLED bookings never change, a booking with a proof keeps its fee and is never cancelled |
| `Guarantees.BuyerCancelsIff` | src/modules/invoices/invoices.service.ts:447-466 | a buyer can cancel exactly his own SENT invoices, although AWAITING_PAYMENT is on the list of cancellable statuses |
| `Guarantees.BuyerCancelIsFinal` | src/modules/invoices/invoices.service.ts:430-471 | an invoice its buyer cancelled stays CANCELLED, without a payment and without an order, in every continuation |
| `Guarantees.ClosedForGoodIff` | src/modules/payments/payments.service.ts:202-218 | a PAYMENT_CONFIRMED or CANCELLED invoice keeps its status in every continuation if and only if none of its payments is still under verification |
| `Guarantees.ExpiredForGoodIff` | src/modules/payments/payments.service.ts:257-274 | an EXPIRED invoice stays EXPIRED or CANCELLED in every continuation under the same condition |
| `Guarantees.RunQuiet` | src/modules/payments/payments.service.ts:304-321 | an invoice without an open payment that takes no new one: its payments never change, its status at most from EXPIRED to CANCELLED |
| `Guarantees.OrderComesIff` | src/modules/orders/orders.service.ts:38-88 | an invoice for a listing can still get an order in some continuation if and only if it has one, one is owed, a payment is under verification or one can be submitted; so a crash between confirmation and order can lose the order for good |
| `Guarantees.ConfirmedButThrowsIff` | src/modules/orders/orders.service.ts:48-57 | confirmPayment commits and then throws exactly when the invoice has no listing |
| `Guarantees.OrdersComplete` | src/modules/orders/orders.service.ts:38-88 | after a crash-free run that owes an invoice for a listing no order: it has an order iff it has a CONFIRMED payment |
| `Guarantees.MetricsComplete` | src/modules/sustainability/sustainability.service.ts:26-63 | after a crash-free run that owes an order no metric: it has one metric if DELIVERED is in its log and none otherwise |
| `Guarantees.CancelKeepsDelivery` | src/modules/orders/orders.service.ts:462-491 | an order can be cancelled exactly until it is, even when delivered; its delivery stays in the log and its one metric stays, in every continuation |
| `Guarantees.NothingReserves` | src/modules/invoices/invoices.service.ts:123-159 | no call of the four services makes a listing RESERVED: one that is was so before, unless something outside changed it |
| `Guarantees.MovesAreBounded` | src/modules/orders/orders.service.ts:154-207 | in every run an order is advanced or cancelled no more often than it has stages left plus one, and never once cancelled |
| `Guarantees.MovesAreLogged` | src/modules/orders/orders.service.ts:462-491 | the tracking log grows by exactly one entry for each call that advances or cancels the order |
| `Guarantees.BookingConfirmableIff` | src/modules/bookings/bookings.service.ts:602-638 | a booking can be confirmed in some continuation if and only if it is not cancelled, proof or no proof |
| `Guarantees.BookingCancellableIff` | src/modules/bookings/bookings.service.ts:398-447 | a booking that is not cancelled can still be cancelled in some continuation if and only if it has no proof and is not confirmed |
| `Guarantees.FeeChangeableIff` | src/modules/bookings/bookings.service.ts:76-131 | its fee can still change in some continuation under exactly that condition |
| `ActiveInvoices.OneActiveEachIff` | src/modules/invoices/invoices.service.ts:99-112 | at most one active invoice for a buyer and a vehicle: a step keeps the rule if and only if it is neither a fleet invoice for a vehicle the buyer holds nor a payment step that reopens a closed invoice while he holds another |
| `ActiveInvoices.CancelLetsRequestAgain` | src/modules/invoices/invoices.service.ts:494-514 | where that rule holds, cancelling an active invoice releases a reserved listing, and the buyer may request again exactly if the listing can be sold |
| `Exclusive.OneLiveOrderIff` | src/modules/orders/orders.service.ts:38-88 | a vehicle gets a second uncancelled order in a step if and only if the order of a confirmed invoice is made while the vehicle has one |
| `Exclusive.NotBothIff` | src/modules/bookings/bookings.service.ts:204-216 | a buyer comes to hold both an active booking and an active invoice for a vehicle in a step if and only if an invoice is issued or opened again for the holder of an active booking |
| `Exclusive.HoldsAfterIff` | src/modules/invoices/invoices.service.ts:99-112 | which step gives whom an active invoice for which vehicle |
| `Deadlines.RequestedExpiresIff` | src/modules/invoices/invoices.service.ts:118-155 | an invoice asked for at a time is expired by an expiry run if and only if that is more than seven days later |
| `Deadlines.FleetExpiresIff` | src/modules/invoices/invoices.service.ts:360-401 | so is a fleet invoice |
| `Deadlines.FulfilledExpiresIff` | src/modules/invoices/invoices.service.ts:250-272 | so is every invoice that fulfilment adds |
| `Deadlines.SevenDays` | src/modules/invoices/invoices.service.ts:531-559 | over every run whose expiries have clocks within the seven days, an invoice asked for does not expire |
| `Deadlines.PaymentStopsTheClock` | src/modules/payments/payments.service.ts:99-108 | an invoice with a submitted or partial payment is not expired by any expiry run; after a rejection it is, once its date is past |
| `Rights.CallsAreOwn` | src/modules/payments/payments.service.ts:56-58 | a buyer's call, of all services, adds and changes only his own invoices, bookings and payments, and no order or metric |
| `Rights.MayRequestIff` | src/modules/invoices/invoices.service.ts:78-112 | in every reachable state a request succeeds exactly for an active account with a profile, a published, priced and present listing, and no open invoice of the user for it |
| `Rights.RequestIssues` | src/modules/invoices/invoices.service.ts:124-160 | the one new row is the user's, for the listing, in the channel it is sold in at that time |
| `Rights.FulfillServes` | src/modules/invoices/invoices.service.ts:243-272 | fulfilment issues only what a BUY inquiry of the user asks for, and afterwards every such listing that may be invoiced is held |
| `Rights.FleetIssuedIff` | src/modules/invoices/invoices.service.ts:348-401 | a fleet invoice is issued exactly for an existing buyer, a positive total, in francs or else converted, and an existing vehicle if one is named; with its whole row |
| `Rights.OrderGoesByChannel` | src/modules/orders/orders.service.ts:59-71 | an order goes by the channel frozen in its invoice, or, of a fleet invoice, by that of the listing when the order is made |
| `Rights.PaysInTurn` | src/modules/payments/payments.service.ts:60-64 | after a submission another one is refused until the payment is rejected or marked partial; then exactly the owner may pay again |
| `Rights.AdminCancelsIff` | src/modules/invoices/invoices.service.ts:501-509 | in every reachable state an admin can cancel exactly what is neither cancelled nor confirmed |
| `Rights.VerifiableIff` | src/modules/payments/payment-transitions.ts:3-16 | in every reachable state a payment can be confirmed, rejected and marked partial exactly while it is neither confirmed nor rejected |
| `Rights.RowErrors` | src/modules/orders/orders.service.ts:538-548 | across the services a missing row, and nothing else, is NotFound, and another buyer's row, and nothing else, Forbidden |
| `Rights.RequestErrors` | src/modules/invoices/invoices.service.ts:78-93 | which requests are Forbidden and which NotFound |
| `Rights.CancelTwice` | src/modules/bookings/bookings.service.ts:420-425 | cancelling a booking again succeeds and changes nothing |
| `BookingLife.ProofsStay` | src/modules/bookings/bookings.service.ts:347-372 | in every continuation of a submission with proofs these stay on the booking after the earlier ones, it is not cancelled, and both fee columns are as they were |
| `BookingLife.RejectedAndPaidAgain` | src/modules/bookings/bookings.service.ts:660-692 | a rejection shows its reason and keeps the proofs; the owner can pay again, which adds proofs and clears the reason |
| `BookingLife.MayBookIff` | src/modules/bookings/bookings.service.ts:166-215 | in every reachable state a booking can be made exactly with a profile, for a published listing that neither an own live booking nor an own open invoice holds |
| `BookingLife.RequestedFee` | src/modules/bookings/bookings.service.ts:222-245 | the new booking is the user's, at the platform's fee, its USD column within half a cent |
| `BookingLife.FeeAsAsked` | src/modules/bookings/bookings.service.ts:107-131 | a changed fee is positive and the one asked for, in francs if given, else converted; whole cents are stored exactly from a rate of 100 up |
| `BookingLife.FeesStayPositive` | src/modules/bookings/bookings.service.ts:107-131 | no step makes a fee that is not positive while the platform's is |
| `Witnesses.ClosedNotForGood` | src/modules/payments/payments.service.ts:202-218 | runs from empty tables reach a cancelled, a confirmed and an expired invoice with a payment under verification, and each is opened again or confirmed after all in a continuation |
| `Witnesses.OrderLost` | src/modules/payments/payments.service.ts:202-220 | a run with one crash reaches a confirmed invoice for a listing that never gets an order |
| `Witnesses.ConfirmedButThrows` | src/modules/orders/orders.service.ts:48-57 | a run reaches a fleet invoice whose confirmation commits and whose order throws |
| `Witnesses.TwoActiveInvoices` | src/modules/invoices/invoices.service.ts:343-401 | two runs reach two active invoices of one buyer for one vehicle, by a fleet invoice and by rejecting the payment of a cancelled invoice |
| `Witnesses.ConfirmedWithoutProof` | src/modules/bookings/bookings.service.ts:328-374 | a run reaches a CONFIRMED booking without a proof |
| `Witnesses.BookedWithProof` | src/modules/bookings/bookings.service.ts:347-372 | a run reaches a booking with a proof |
| `Witnesses.DeliveredThenCancelled` | src/modules/orders/orders.service.ts:462-491 | a run reaches a CANCELLED order with a delivery in its log and its metric |
| `Witnesses.TwoLiveOrders` | src/modules/orders/orders.service.ts:38-88 | a run reaches two uncancelled orders of one buyer for one vehicle |
| `Witnesses.BookingAndInvoice` | src/modules/invoices/invoices.service.ts:99-112 | a run reaches a buyer with an active booking and an active invoice for one vehicle |
| `Payments.PaymentStepKeepsLedger` | src/modules/payments/payments.service.ts:202-218 | what the status of an invoice says about its payments survives each payment call |
| `Payments.PaymentStepKeepsPayments` | src/modules/payments/payment-transitions.ts:3-16 | no payment call changes a payment that is not under verification, or moves one to another invoice |
| `Invoices.ExpireDueExactly` | src/modules/invoices/invoices.service.ts:531-559 | the expiry loop closes exactly the due invoices, puts on sale exactly the reserved listings that one of them is for, touches nothing else and leaves nothing due |
| `Invoices.FulfillExactly` | src/modules/invoices/invoices.service.ts:233-275 | fulfilment leaves an active invoice for every inquired listing that can be invoiced, adds at most one for a listing and only where there was none, changes nothing else, and a second run adds nothing |
| `Orders.MoveKeepsTracked` | src/modules/orders/orders.service.ts:154-207 | an order can be advanced exactly until cancelled or delivered, and its log stays a non-empty prefix of its stages, then perhaps one CANCELLED, with the status last |
| `Orders.NextStage` | src/modules/orders/order-stages.ts:77-87 | the next stage of a tracked order is the one that follows its log, and there is none exactly when it is delivered |
| `Orders.StagesInOrder` | src/modules/orders/order-stages.ts:3-37 | every channel goes through its stages in the order of an order's life, all from payment to delivery but processing only outside Rwanda stock and the voyage only when shipped |
| `Orders.MovesToDelivery` | src/modules/orders/order-stages.ts:3-37 | an order is delivered after three moves from Rwanda stock, four from a local seller, seven when shipped |
| `Orders.OrderStepKeepsOrders` | src/modules/orders/orders.service.ts:38-88 | each order call keeps the logs well formed and at most one order for an invoice |
| `Orders.DeliveryIsAccounted` | src/modules/sustainability/sustainability.service.ts:26-63 | each order call writes or owes a metric exactly for the order it delivers |
| `Bookings.BookingStepKeepsSound` | src/modules/bookings/bookings.service.ts:161-245 | each booking call keeps at most one active booking for a user and a listing; REJECTED, EXPIRED and PAYMENT_SUBMITTED are never written; a cancelled booking has no proof |
| `CommerceStore.Store.RequestInvoice` | src/modules/invoices/invoices.service.ts:59-132 | exactly one new row or exactly one exception: Forbidden for an account that may not trade, then BadRequest without a profile, NotFound for a listing not on sale, BadRequest without a price or with an active invoice; else a SENT row valid for seven days and no other change |
| `CommerceStore.Store.CreateFleetInvoice` | src/modules/invoices/invoices.service.ts:343-401 | a SENT row without a channel for an existing user and a positive total, the listing optional; unlike a request it neither looks at the listing's status nor for an active invoice |
| `CommerceStore.Store.CancelInvoiceByBuyer` | src/modules/invoices/invoices.service.ts:430-471 | NotFound, then Forbidden for another owner, then BadRequest for the status or any payment; else CANCELLED, a reserved listing back on sale, nothing else changed |
| `CommerceStore.Store.CancelInvoice` | src/modules/invoices/invoices.service.ts:494-514 | refused only for CANCELLED, PAYMENT_CONFIRMED and FULLY_PAID; payments are not looked at, so an invoice with a payment under verification can be cancelled |
| `CommerceStore.Store.ExecuteInvoiceCancellation` | src/modules/invoices/invoices.service.ts:616-641 | the invoice is closed and its listing goes on sale only if it was reserved; all other rows stay |
| `CommerceStore.Store.ExpireDueInvoices` | src/modules/invoices/invoices.service.ts:531-571 | the loop over the due invoices is the specified fold, and returns their number |
| `CommerceStore.Store.FulfillPendingBuyInquiries` | src/modules/invoices/invoices.service.ts:233-275 | the loop is the specified fold, a failing request being skipped |
| `CommerceStore.Store.SubmitPayment` | src/modules/payments/payments.service.ts:42-108 | only the owner of a payable invoice adds a payment, under verification, and the invoice becomes PAYMENT_SUBMITTED in the same step |
| `CommerceStore.Store.ConfirmPayment` | src/modules/payments/payments.service.ts:195-220 | the confirmation commits on its own; then the order is made, once for an invoice, and an exception from that is passed on without undoing the confirmation |
| `CommerceStore.Store.RejectPayment` | src/modules/payments/payments.service.ts:249-274 | only a payment under verification; it becomes REJECTED and its invoice AWAITING_PAYMENT whatever the invoice was |
| `CommerceStore.Store.MarkPartial` | src/modules/payments/payments.service.ts:304-321 | the invoice becomes PARTIALLY_PAID whatever it was; the payment itself stays under verification |
| `CommerceStore.Store.CreateFromInvoice` | src/modules/orders/orders.service.ts:38-88 | an existing order is left alone; else an invoice with a listing gets one, in its frozen channel or the listing's, with one tracking event |
| `CommerceStore.Store.AdvanceOrderStatus` | src/modules/orders/orders.service.ts:154-211 | status and log move together to the next stage of the channel; a delivery then writes one metric |
| `CommerceStore.Store.RecordDelivery` | src/modules/sustainability/sustainability.service.ts:26-59 | one metric for the order if its listing exists; no check for an earlier one |
| `CommerceStore.Store.CancelOrder` | src/modules/orders/orders.service.ts:462-491 | refused only for a cancelled order; status and log both end in CANCELLED |
| `CommerceStore.Store.RequestBooking` | src/modules/bookings/bookings.service.ts:161-245 | BadRequest without a profile, NotFound, then BadRequest for a listing not published, an active booking or an active invoice; else one row awaiting payment |
| `CommerceStore.Store.SubmitBookingPayment` | src/modules/bookings/bookings.service.ts:308-374 | only the owner, while awaiting payment or rejected with a reason; proofs are appended, perhaps none, and the reason is cleared |
| `CommerceStore.Store.CancelBookingByBuyer` | src/modules/bookings/bookings.service.ts:398-447 | cancelling a cancelled booking succeeds and changes nothing; else only while awaiting payment and without a proof |
| `CommerceStore.Store.ConfirmBooking` | src/modules/bookings/bookings.service.ts:602-638 | a submitted booking becomes CONFIRMED and nothing else of it changes |
| `CommerceStore.Store.RejectBooking` | src/modules/bookings/bookings.service.ts:660-692 | a submitted booking awaits payment again, with the new reason or none, and keeps its proofs |
| `CommerceStore.Store.UpdateBookingFee` | src/modules/bookings/bookings.service.ts:76-131 | only while awaiting payment without a proof; the fee in francs, given or converted, must be positive and both columns change together |
| `PaymentViews.FilterSupersededRejectedPayments` | src/modules/payments/payments.service.ts:341-358 | the map filled in a loop holds the newest payment of each invoice, and the filter by it is the specified one |
| `PaymentViews.HidesExactlySuperseded` | src/modules/payments/payments.service.ts:341-358 | rows keep their order; exactly the rejected payments that are not the newest of their invoice are hidden, so at most one rejected payment of an invoice is shown |
| `PaymentViews.HidingIsIdempotent` | src/modules/payments/payments.service.ts:341-358 | hiding again hides nothing more |
| `PaymentViews.FindMine` | src/modules/payments/payments.service.ts:142-178 | of the payments of the user, and of one status if that is asked for: the page cut out of the visible ones, their number and the number of pages |
| `PaymentViews.PagesAreOwn` | src/modules/payments/payments.service.ts:142-178 | every row on a page is a payment of the user, of the status asked for |
| `PaymentViews.UnrejectedOnSomePage` | src/modules/payments/payments.service.ts:164-178 | every payment of the user that was not rejected is on one of his pages |
| `PaymentViews.StatusFilterAgreesIff` | src/modules/payments/payments.service.ts:143-164 | asking for one status shows the visible payments of that status, for all payments, if and only if the status is not REJECTED; then a replaced rejected attempt is shown again |
| `PaymentViews.PagesShowAll` | src/modules/payments/payments.service.ts:165-178 | for every positive limit the pages one after the other are the visible list, no page is longer than the limit, and a page is empty exactly past the last one unless the list is |
| `Promotions.PickBestDiscountPromotion` | src/modules/promotions/promotion-display.util.ts:42-58 | the loop keeps the first promotion of the greatest positive saving so far |
| `Promotions.BestIsFirstGreatest` | src/modules/promotions/promotion-display.util.ts:42-58 | the choice has the greatest saving, is the first that has it, and is none iff no saving is positive |
| `Promotions.BestIsLowest` | src/modules/promotions/promotion-display.util.ts:61-73 | the displayed price is not negative and no other discount of the list gives a lower one |
| `Promotions.PercentIsAmount` | src/modules/promotions/promotion-display.util.ts:17-40 | from 0 to 100 percent off a price shows what the amount of that percentage off shows |
| `Promotions.AmountIsCapped` | src/modules/promotions/promotion-display.util.ts:28-36 | an amount off saves at most the price, and does not count beside a percentage |
| `Promotions.LiveCounts` | src/modules/promotions/promotions.service.ts:26-39 | a link counts exactly for its listing, while its promotion is active, within its dates, both included, and has a discount |
| `Promotions.DisplayIsOfLink` | src/modules/promotions/promotion-display.util.ts:60-73 | a display names a live promotion of the listing, with the price and saving of it |
| `Promotions.OrderIrrelevant` | src/modules/promotions/promotion-display.util.ts:17-73 | displayed price and saving do not depend on the order of the promotions |
| `Promotions.GetBestDisplayForListing` | src/modules/promotions/promotions.service.ts:292-300 | the display of the best live promotion of one listing |
| `Promotions.GetBestDisplayByListingIds` | src/modules/promotions/promotions.service.ts:302-343 | the batch, with its two maps, shows for every id what the single computation shows over the same links, and nothing for other listings |
| `Promotions.BatchAgrees` | src/modules/promotions/promotions.service.ts:302-343 | grouping the links and choosing for each group agrees with filtering the links for each listing |
| `Promotions.LinkOrderIrrelevant` | src/modules/promotions/promotions.service.ts:280-343 | in whatever order the links come, each listing shows the same price and saving |
| `Gallery.GalleryOfEveryRun` | src/modules/listings/listings.service.ts:508-752 | for a listing made by createByAdmin, after every run of updates, reviews and releases: exactly one primary photo whenever there is a photo, a non-DRAFT listing has a photo, at most 20 photos after an update that adds some |
| `Gallery.ListingGallery.UpdateCreatedByAdmin` | src/modules/listings/listings.service.ts:508-752 | an update does all of its changes in their order, or throws and leaves every row as it was |
| `GalleryUpdate.UpdatePrimary` | src/modules/listings/listings.service.ts:1781-1802 | after a whole update the primary photo is the one asked for, if left; else the one before, if left; else one of least display order; else the first new one |
| `GalleryUpdate.UpdateSucceedsIff` | src/modules/listings/listings.service.ts:508-752 | an update succeeds exactly for the maker, of an unsold listing, with an allowed status, known removals, an order and a primary photo that fit those left, at most 20 photos after adding, and one at least |
| `GalleryUpdate.UpdateLeaves` | src/modules/listings/listings.service.ts:675-752 | it leaves exactly the photos not removed, in their rows and with their files, then the new ones, and the status asked for |
| `GalleryUpdate.RemovesIff` | src/modules/listings/listings.service.ts:1766-1779 | a removal succeeds exactly if all its photos are on the listing |
| `GalleryUpdate.CreatedPrimary` | src/modules/listings/listings.service.ts:401-447 | a new listing shows its photos in order, the first one primary; for review it needs one |
| `Marketplace.FirstPublishedIsApproved` | src/modules/listings/listing-transitions.ts:3-14 | on every path of the status table a draft published for the first time was submitted and then approved |
| `Marketplace.SoldIsFinal` | src/modules/listings/listing-transitions.ts:3-14 | a sold listing can only be archived, an archived one not changed |
| `Marketplace.AroundPublished` | src/modules/listings/listing-transitions.ts:3-14 | what follows a publication, from where one comes back, what ends it, and what leads to draft and rejection |
| `Gallery.ListingGallery.RemovePhotos` | src/modules/listings/listings.service.ts:1761-1804 | removal of known ids only; the first photo shown becomes primary when the primary one went |
| `Gallery.ListingGallery.PlacePhotos` | src/modules/listings/listings.service.ts:1863-1869 | the loop that writes display orders puts every photo at its place in the list of ids |
| `Gallery.ListingGallery.ReorderPhotos` | src/modules/listings/listings.service.ts:1833-1888 | order and primary photo as specified, with the checks |
| `Gallery.ListingGallery.AppendPhotos` | src/modules/listings/listings.service.ts:1806-1831 | new photos at the next places, at most 20 in all, the first primary if there was none |
| `Gallery.AcceptedIsPermutation` | src/modules/listings/listings.service.ts:1848-1862 | an order that passes both checks is, without its repeats, a permutation of the remaining photos |
| `Gallery.PlacedAsRequested` | src/modules/listings/listings.service.ts:1863-1869 | after the loop the display orders are exactly 0 to n-1 in the requested order |
| `Gallery.AppendExtendsDense` | src/modules/listings/listings.service.ts:1811-1830 | appending k photos extends 0 to n-1 to 0 to n+k-1 |
| `Gallery.UpdateFollowsOrder` | src/modules/listings/listings.service.ts:675-752 | a whole update whose order differs from the one shown names the kept photos once each, shows them in that order, then the new ones |
| `GalleryOrder.UpdateFollowsIff` | src/modules/listings/listings.service.ts:625-646 | for every update that names an order, keeps a photo and succeeds: it names exactly the kept photos, shows them in that order and the new ones after them if and only if the order differs from the one shown, or nothing is removed and the photos stand at their places already |
| `GalleryOrder.OrderNotLookedAt` | src/modules/listings/listings.service.ts:640-646 | a gallery with a gap, asked for the order that it shows and for one more photo: the gap stays and the new photo ties with the last one |
| `GalleryOrder.RemovedPhotoNamed` | src/modules/listings/listings.service.ts:640-646 | an order that names a photo that the same update removes succeeds when it is the one shown |
| `GalleryOrder.Gap` | src/modules/listings/listings.service.ts:1761-1804 | a listing made with three photos and its middle one removed has that gap |
| `Gallery.AppendShownLastIff` | src/modules/listings/listings.service.ts:1823-1830 | new photos are shown after all others exactly when no display order is above the number of photos |
| `Gallery.AppendAboveIff` | src/modules/listings/listings.service.ts:1823-1830 | new photos have a greater display order than all others exactly when every display order is below the number of photos |
| `GalleryOrder.NewPhotoShownFirst` | src/modules/listings/listings.service.ts:1806-1831 | a listing made with three photos, the first two removed, a new one added: the new photo comes before the one that was left |
| `GalleryOrder.RepeatAccepted` | src/modules/listings/listings.service.ts:1848-1862 | the photos of any gallery, the first one named twice, are an accepted order of it |
| `GalleryOrder.RepeatMakesNoDifference` | src/modules/listings/listings.service.ts:1848-1869 | orders that agree without their repeats are accepted alike and reorder alike |
| `GalleryOrder.RepeatInUpdate` | src/modules/listings/listings.service.ts:640-646 | so do whole updates by two such orders that both differ from the one shown |
| `GalleryOrder.RepeatOfShownIff` | src/modules/listings/listings.service.ts:640-646 | against an update that names the order shown exactly, one that repeats a photo of it does the same if and only if nothing is kept, or nothing is removed and the photos stand at their places |
| `GalleryOrder.RepeatClosesGap` | src/modules/listings/listings.service.ts:640-646 | in the gallery with a gap the order shown changes nothing, and with its first photo named again closes the gap |
| `Gallery.RemoveKeepsGood` | src/modules/listings/listings.service.ts:1761-1804 | removal keeps ids unique and exactly one primary photo among those left |
| `Gallery.ReorderKeepsGood` | src/modules/listings/listings.service.ts:1833-1888 | reordering keeps ids unique and exactly one primary photo |
| `Gallery.AppendKeepsGood` | src/modules/listings/listings.service.ts:1806-1831 | appending with fresh ids keeps ids unique and exactly one primary photo |
| `Inventory.PlatformPipeline` | src/modules/listings/listings.service.ts:2105-2204 | over every run of stage changes, price changes and edits of the country a platform listing sells from Rwanda stock exactly while in KIGALI_STOCK, a date once set never changes, and one that started in China has every milestone it is at or past dated |
| `PriceTrips.PriceRoundTrip` | src/modules/listings/listings.service.ts:2245-2337 | from AT_PORT to KIGALI_STOCK keeps the final and display franc price of a franc listing priced from China; going back restores every column but the Rwanda base price, the same rule being chosen; the move in succeeds exactly when a rule is found |
| `PriceTrips.RestoredIff` | src/modules/listings/listings.service.ts:2245-2337 | for any franc row at the port a visit to Kigali and back restores every column but the base if and only if both rules are found and the row is what the rule of the way back makes of its own FOB and discount |
| `PriceTrips.VisitIs` | src/modules/listings/listings.service.ts:2166-2218 | a visit succeeds exactly when both rules are found, and the whole row that comes back |
| `PriceTrips.CreatedPriceQualifies` | src/modules/listings/listings.service.ts:1382-1427 | prices stored by createByAdmin are priced from China; the same rule is chosen on return for a pinned rule or country CN |
| `PriceTrips.OtherOriginRepriced` | src/modules/listings/listings.service.ts:2186-2218 | whatever rule priced it, a vehicle comes back as one from CN at the price that its pinned rule, or else the rule for CN, gives its FOB |
| `PriceTrips.DearerAfterVisit` | src/modules/listings/listings.service.ts:2186-2218 | a vehicle from the Emirates, unpinned, costs more after a visit to Kigali when the rule for CN charges more than its own |
| `PriceTrips.MovedWithoutItsPrice` | src/modules/listings/listings.service.ts:2173-2218 | without a rule for the Rwanda channel the move into Kigali throws, with the vehicle moved and its price as it was |
| `PriceTrips.EditKeepsWayBackIff` | src/modules/listings/listings.service.ts:590-606 | after a written price edit of a China listing a visit to Kigali restores the price if and only if both rules are found and the rule of the way back prices the vehicle as the rule of the edit does, which naming a rule ensures; an edit that names none keeps the old pin |
| `PriceTrips.StalePin` | src/modules/listings/listings.service.ts:590-606 | a listing created with a pinned rule and then edited without one: its price is the active rule's, 201, and a visit brings it back at the old one's, 200 |
| `PriceTrips.SyncKeepsWayBack` | src/modules/pricing/pricing.service.ts:344-392 | after a rule sync a visit restores the price exactly when the rule in Kigali is found |
| `PriceTrips.KeptPriceSurvivesSyncIff` | src/modules/listings/listings.service.ts:2276-2298 | in Kigali the USD price is that of the Rwanda rule at once, and the kept franc price survives the next rule sync if and only if that rule makes it of the base price and the discount |
| `PriceTrips.DiscountTakenTwice` | src/modules/listings/listings.service.ts:2276-2298 | a vehicle sold at 90 with a discount of 10: in Kigali its USD price is that of 80, and the first sync makes the franc price 80 |
| `Inventory.StepKeepsPipeline` | src/modules/listings/listings.service.ts:2155-2204 | even when the price cannot be moved, channel and dates follow the stage |
| `Inventory.AdvanceIs` | src/modules/listings/listing-inventory.util.ts:39-53 | a vehicle gets to a stage exactly if it is there or next to it; any other move is a BadRequest that changes nothing; dates are those of the first arrival, the country that of the channel |
| `Inventory.RunMovesOneByOne` | src/modules/listings/listing-inventory.util.ts:39-53 | no run moves a vehicle further than it has stage changes |
| `Inventory.StartsWhereItSells` | src/modules/listings/listing-inventory.util.ts:17-30 | a listing starts in Kigali in the two channels that sell from Rwanda, else in China, undated |
| `Inventory.ListingRow.AdvanceInventoryStage` | src/modules/listings/listings.service.ts:2086-2218 | stage, dates, channel, country and price after the move; a price that fails to move leaves the listing moved and the price as it was |
| `Inventory.ListingRow.UpdatePricing` | src/modules/listings/listings.service.ts:2245-2337 | the price row after the move between channels, or the exception with the row unchanged |
| `Pricing.PartsAddUp` | src/modules/pricing/pricing.service.ts:100-255 | in every channel the parts less both discounts are the stored price up to 1/2, which is a whole number; the landing cost is the sum of its parts |
| `Pricing.ColumnsAre` | src/modules/pricing/pricing.service.ts:145-187 | each charge stands in its own column; without a rate there are no taxes, no insurance, no margin, no discount |
| `Pricing.NotesRecord` | src/modules/listings/listing-pricing.util.ts:138-153 | the notes hold the rule named and the percentages applied, and none without a rule |
| `Repricing.DaysAre` | src/modules/pricing/pricing.service.ts:138-139 | the delivery times promised in each channel, with and without a rule for them |
| `Pricing.CommissionIsShareOfListPrice` | src/modules/pricing/pricing.service.ts:189-217 | the commission is the rule's share of the list price, and what is left is the payout |
| `Pricing.FinalPriceMonotoneIff` | src/modules/pricing/pricing-discount.util.ts:3-25 | a dearer list price never gives a cheaper final price if and only if the rule takes off at most 100% |
| `Pricing.PriceMonotoneIff` | src/modules/pricing/pricing.service.ts:119-255 | in every channel the stored price is monotone in the cost if and only if the slope is not negative: what a franc of cost adds to the list price (taxes and insurance, margin, or commission) times the share that the rule discount leaves |
| `Pricing.PriceRisesWithCost` | src/modules/pricing/pricing.service.ts:119-255 | so it is for rates that are not negative, a discount of at most 100% and a commission below 100% |
| `RuleSync.PricingService.Sync` | src/modules/pricing/pricing.service.ts:300-353 | for a rule whose commission is not the whole price, the loop with its per-country memo re-prices exactly the listings, with exactly the results, that deciding each one directly gives, and counts them; an unknown rule is refused |
| `Repricing.SyncKeepsMadePrice` | src/modules/pricing/pricing.service.ts:355-392 | in all four channels a sync at the same rate leaves every amount of a price as it was made, pins it, and sets the longest delivery time |
| `Repricing.SyncKeepsEditedPrice` | src/modules/pricing/pricing.service.ts:355-392 | and leaves an edited price as the edit stored it, which is every amount that it computed |
| `Repricing.SyncTouchesIff` | src/modules/pricing/pricing.service.ts:316-342 | a sync touches no USD price, no other channel, none pinned to another rule, none unpinned under another active rule; every other of its channel it pins |
| `Repricing.EditPricesLikeNew` | src/modules/listings/listing-pricing.util.ts:77-108 | an edit prices as if made anew from the amounts named, else the row's in francs, else in USD, converted |
| `Repricing.PricedIff` | src/modules/listings/listing-pricing.util.ts:45-75 | without the cost of its channel a listing is refused, and with it not found only if no rule is |
| `Repricing.LegacyIntoKigali` | src/modules/listings/listings.service.ts:2260-2274 | a price in USD only moves into Kigali at its base, or else final, price converted, and is then in francs |
| `Repricing.LegacyIntoChina` | src/modules/listings/listings.service.ts:2302-2315 | and into China at its FOB, or else base or final, price converted |
| `RuleSync.Applies` | src/modules/pricing/pricing.service.ts:316-342 | the memo agrees with the direct lookup |
| `RuleSync.SyncIsIdempotent` | src/modules/pricing/pricing.service.ts:355-392 | syncing twice is syncing once; every governed listing ends pinned to the rule, every other is unchanged |
| `RuleSync.RepriceAgain` | src/modules/listings/listing-pricing.util.ts:110-155 | a written price holds every input it was computed from |
| `Money.CentsRecoveredIff` | src/common/money/money-format.util.ts:21-36 | whole cents converted to francs and back are recovered for all amounts if and only if the rate is at least 100 |
| `Money.FrancDrift` | src/common/money/money-format.util.ts:21-36 | francs to USD and back drift by at most 0.005 times the rate plus 0.5 |
| `Slugs.ResolveUniqueSlug` | src/common/utils/slug.util.ts:15-34 | the loop ends within one probe more than there are taken slugs, with the first free candidate, in normal form; it fails exactly for a text without letter and digit |
| `Slugs.SlugIsNormal` | src/common/utils/slug.util.ts:1-9 | a slug has only [a-z0-9-] and no doubled, leading or trailing hyphen |
| `Slugs.SlugifyFixesExactlyNormal` | src/common/utils/slug.util.ts:1-9 | slugs are exactly the texts that slugifying leaves alone, so it is idempotent |
| `Slugs.SlugKeepsAlnums` | src/common/utils/slug.util.ts:1-9 | a slug keeps every letter and digit of the text, in order |
| `SlugWords.SpacesBecomeHyphens` | src/common/utils/slug.util.ts:1-9 | two texts with slugs and a space, tab or line end between them have both slugs with a hyphen between them |
| `SlugWords.WordIsSlug` | src/common/utils/slug.util.ts:1-9 | a word of letters and digits is its own slug, in lower case |
| `Slugs.CandidatesDiffer` | src/common/utils/slug.util.ts:25-31 | two attempts never probe the same text |
| `References.LatestIsNumericMaximum` | src/common/utils/reference-number.util.ts:19-85 | up to 999999 the text-descending latest row carries the numeric maximum |
| `References.IssuedIsNext` | src/common/utils/reference-number.util.ts:12-93 | the issued reference carries the number after the largest, which no row has yet |
| `References.NeverRepeatsIff` | src/common/utils/reference-number.util.ts:12-93 | a sequential run of k issues after the number m never repeats a reference if and only if m + k is at most 1000000 |
| `References.GeneratedIsNextOfYear` | src/common/utils/reference-number.util.ts:12-93 | in a column of references of several years with numbers up to 999999, the one generated for a year carries that year's largest number plus one and is not in the column |
| `References.AllDifferentIff` | src/common/utils/reference-number.util.ts:12-93 | references of a prefix issued one after the other, in whatever years, are all different if and only if no year issues more than a million of them |
| `References.YearsApart` | src/common/utils/reference-number.util.ts:16-17 | a reference of one year never matches the base of another |
| `References.PrefixesApart` | src/common/utils/reference-number.util.ts:3-10 | a reference of one prefix never matches the base of another, UZM-BKG and UZM-BKG-PAY included |
| `Decimal.ParseUndoesPadding` | src/common/utils/reference-number.util.ts:87-92 | parsing undoes six-digit padding for numbers of any length |
| `Decimal.FixedOrder` | src/common/utils/reference-number.util.ts:92 | on equally long digit texts, text order is numeric order |

## Left out

- Controllers, guards, DTO validation, tokens, mail, notifications, sockets, PDF and file storage: plumbing. A failure of a notification after a commit is therefore not modelled.
- Races between requests: each method is one step, but for the two that continue after their transaction.
- Floating-point error: amounts are exact.
- Amounts, numbers and buyer details printed on an invoice: no modelled branch reads them after the invoice is made; the total of a fleet invoice is checked when it is made.
- Days are 86400000 milliseconds; a change of clocks within the seven days of an invoice is not modelled. Booking validity dates are not kept, as no method reads them.
- The rule lookup of getActiveRule is any fixed function of channel and country: its order is the database's. A missing country and an empty one are the same.
- The text of priceNotes is a record with an optional rule id.
- RuleSync.PricingService.Sync: its contract also says what the loop does when pricing throws, but for a commission of exactly the whole price it is the model that throws; what the source then writes is not modelled.
- Pricing.CommissionIsShareOfListPrice: for a commission of exactly the whole price the source divides by zero and stores an infinite price; the model reports an error instead.
- Slugs.SlugIsNormal: texts are ASCII; case folding and spaces beyond ASCII are not modelled.
- PriceTrips.PriceRoundTrip: states the round trip for listings priced in francs; of a legacy USD price only each move is stated (`LegacyIntoKigali`, `LegacyIntoChina`).
- The seller profile, city and owner that change with a listing's channel, and the audit log.
- Hard deletion of a listing by an administrator, and seller-managed galleries, which mark the first photo of every batch as primary.
- Photos with equal display orders are taken in the order of their rows, which the database does not promise.
- The supersede utility of the commerce module: nothing calls it.
- Fleet requests, financing, parts, energy, categories, charging stations, dashboards and search.
- toDisplayRwf and the money labels: formatting without a law to prove.
