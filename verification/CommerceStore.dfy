/** The four services over one database: each method reads rows, checks them in the order of the
    source, and writes. Its contract is the step of the protocol that it takes. */
module CommerceStore {
  import opened Prelude
  import opened Marketplace
  import opened Commerce
  import Money
  import Invoices
  import Payments
  import Orders
  import Bookings
  import Protocol

  class Store {
    var users: map<nat, User>
    var listings: map<nat, Listing>
    var inquiries: seq<Inquiry>
    var invoices: seq<Invoice>
    var payments: seq<Payment>
    var orders: seq<Order>
    var bookings: seq<Booking>
    var metrics: seq<nat>
    ghost var toOrder: multiset<nat>
    ghost var toRecord: multiset<nat>

    ghost function View(): State
      reads this
    {
      State(users, listings, inquiries, invoices, payments, orders, bookings, metrics, toOrder, toRecord)
    }

    /** The joint invariant of the protocol. */
    ghost predicate Valid()
      reads this
    {
      Protocol.Inv(View())
    }

    constructor ()
      ensures Valid() && View() == EMPTY
    {
      users, listings, inquiries, invoices, payments := map[], map[], [], [], [];
      orders, bookings, metrics, toOrder, toRecord := [], [], [], multiset{}, multiset{};
      Protocol.EmptyInv();
    }

    // ----- invoices -----

    method RequestInvoice(user: nat, listing: nat, now: int) returns (error: Option<Error>)
      requires Valid()
      modifies this`invoices
      ensures Valid()
      ensures (View(), error) == Outcome(old(View()), Invoices.RequestInvoice(old(View()), user, listing, now))
    {
      Protocol.InvoicingKeepsInv(View(), Invoices.Request(user, listing, now));
      if user !in users || !users[user].isActive || users[user].deleted {
        return Some(Forbidden);
      }
      if !users[user].hasBuyerProfile {
        return Some(BadRequest);
      }
      if listing !in listings || !listings[listing].status.Published? || listings[listing].deleted {
        return Some(NotFound);
      }
      if !listings[listing].priced || HoldsInvoice(invoices, user, listing) {
        return Some(BadRequest);
      }
      var row := Invoice(user, Some(listing), Some(listings[listing].sellerType), Sent,
                         now + Invoices.VALIDITY_DAYS * DAY);
      invoices, error := invoices + [row], None;
    }

    method CreateFleetInvoice(
      user: nat, listing: Option<nat>, totalRwf: Option<real>, totalUsd: Option<real>, rate: real, now: int)
      returns (error: Option<Error>)
      requires Valid()
      modifies this`invoices
      ensures Valid()
      ensures (View(), error) ==
        Outcome(old(View()), Invoices.CreateFleetInvoice(old(View()), user, listing, totalRwf, totalUsd, rate, now))
    {
      Protocol.InvoicingKeepsInv(View(), Invoices.CreateFleet(user, listing, totalRwf, totalUsd, rate, now));
      if user !in users {
        return Some(NotFound);
      }
      var total := if totalRwf.Some? then totalRwf.value else Round(totalUsd.GetOr(0.0) * rate) as real;
      if !(total > 0.0) {
        return Some(BadRequest);
      }
      if listing.Some? && listing.value !in listings {
        return Some(Refused);
      }
      invoices := invoices + [Invoice(user, listing, None, Sent, now + Invoices.VALIDITY_DAYS * DAY)];
      error := None;
    }

    method ExecuteInvoiceCancellation(invoice: nat, status: InvoiceStatus)
      requires invoice < |invoices|
      modifies this`invoices, this`listings
      ensures View() == Invoices.Close(old(View()), invoice, status)
    {
      var row := invoices[invoice];
      invoices := invoices[invoice := row.(status := status)];
      if row.listing.Some? && row.listing.value in listings {
        var listing := listings[row.listing.value];
        if listing.status.Reserved? {
          listings := listings[row.listing.value := listing.(status := Published)];
        }
      }
    }

    method CancelInvoiceByBuyer(user: nat, invoice: nat) returns (error: Option<Error>)
      requires Valid()
      modifies this`invoices, this`listings
      ensures Valid()
      ensures (View(), error) == Outcome(old(View()), Invoices.CancelInvoiceByBuyer(old(View()), user, invoice))
    {
      Protocol.InvoicingKeepsInv(View(), Invoices.CancelByBuyer(user, invoice));
      if invoice >= |invoices| {
        return Some(NotFound);
      }
      if invoices[invoice].user != user {
        return Some(Forbidden);
      }
      if !Invoices.IsBuyerCancellable(invoices[invoice].status) || Invoices.PaymentCount(payments, invoice) > 0 {
        return Some(BadRequest);
      }
      ExecuteInvoiceCancellation(invoice, InvoiceCancelled);
      error := None;
    }

    method CancelInvoice(invoice: nat) returns (error: Option<Error>)
      requires Valid()
      modifies this`invoices, this`listings
      ensures Valid()
      ensures (View(), error) == Outcome(old(View()), Invoices.CancelInvoice(old(View()), invoice))
    {
      Protocol.InvoicingKeepsInv(View(), Invoices.Cancel(invoice));
      if invoice >= |invoices| {
        return Some(NotFound);
      }
      var status := invoices[invoice].status;
      if status.InvoiceCancelled? || status.PaymentConfirmed? || status.FullyPaid? {
        return Some(BadRequest);
      }
      ExecuteInvoiceCancellation(invoice, InvoiceCancelled);
      error := None;
    }

    method ExpireDueInvoices(now: int) returns (count: nat)
      requires Valid()
      modifies this`invoices, this`listings
      ensures Valid()
      ensures View() == Invoices.ExpireDue(old(View()), now)
      ensures count == |Invoices.DueInvoices(old(invoices), now)|
    {
      Protocol.InvoicingKeepsInv(View(), Invoices.Expire(now));
      var expired := Invoices.DueInvoices(invoices, now);
      ExpireEach(expired);
      count := |expired|;
    }

    /** The loop over the rows found. */
    method ExpireEach(expired: seq<nat>)
      requires Invoices.AreRows(expired, invoices)
      modifies this`invoices, this`listings
      ensures View() == Invoices.ExpireAll(old(View()), expired)
    {
      for j := 0 to |expired|
        invariant View() == Invoices.ExpireAll(old(View()), expired[..j])
      {
        assert expired[..j + 1][..j] == expired[..j];
        ExecuteInvoiceCancellation(expired[j], InvoiceExpired);
      }
      assert expired[..|expired|] == expired;
    }

    method FulfillPendingBuyInquiries(user: nat, now: int)
      requires Valid()
      modifies this`invoices
      ensures Valid()
      ensures View() == Invoices.FulfillPendingBuyInquiries(old(View()), user, now)
    {
      Protocol.InvoicingKeepsInv(View(), Invoices.Fulfill(user, now));
      if user !in users || !users[user].hasBuyerProfile {
        return;
      }
      var wanted := Invoices.InquiredListings(inquiries, user);
      for j := 0 to |wanted|
        invariant Valid() && View() == Invoices.FulfillAll(old(View()), user, wanted[..j], now)
      {
        assert wanted[..j + 1][..j] == wanted[..j];
        if !HoldsInvoice(invoices, user, wanted[j]) {
          var _ := RequestInvoice(user, wanted[j], now);
        }
      }
      assert wanted[..|wanted|] == wanted;
    }

    // ----- payments -----

    method SubmitPayment(user: nat, invoice: nat) returns (error: Option<Error>)
      requires Valid()
      modifies this`payments, this`invoices
      ensures Valid()
      ensures (View(), error) == Outcome(old(View()), Payments.SubmitPayment(old(View()), user, invoice))
    {
      Protocol.PayingKeepsInv(View(), Payments.Submit(user, invoice));
      if invoice >= |invoices| {
        return Some(NotFound);
      }
      if invoices[invoice].user != user {
        return Some(Forbidden);
      }
      if !Payments.IsPayable(invoices[invoice].status) {
        return Some(BadRequest);
      }
      payments := payments + [Payment(invoice, UnderVerification)];
      invoices := invoices[invoice := invoices[invoice].(status := PaymentSubmitted)];
      error := None;
    }

    /** The transaction of a confirmation or a rejection. */
    method Settle(payment: nat, to: PaymentStatus, invoiceTo: InvoiceStatus) returns (error: Option<Error>)
      modifies this`payments, this`invoices
      ensures (View(), error) == Outcome(old(View()), Payments.Settle(old(View()), payment, to, invoiceTo))
    {
      if payment >= |payments| {
        return Some(NotFound);
      }
      if !CanPaymentTransition(payments[payment].status, to) {
        return Some(BadRequest);
      }
      payments := payments[payment := payments[payment].(status := to)];
      invoices := WithInvoiceStatus(invoices, payments[payment].invoice, invoiceTo);
      error := None;
    }

    /** The confirmation stands even when the order that follows it cannot be made. */
    method ConfirmPayment(payment: nat) returns (error: Option<Error>)
      requires Valid()
      modifies this
      ensures Valid()
      ensures var s := old(View());
        match Payments.ConfirmInDatabase(s, payment)
        case Err(e) => View() == s && error == Some(e)
        case Ok(t) =>
          var invoice := s.payments[payment].invoice;
          && View() == Orders.OrderAfterConfirmation(t, invoice)
          && error == Outcome(t, Orders.CreateFromInvoice(t, invoice)).1
    {
      Protocol.PayingKeepsInv(View(), Payments.Confirm(payment));
      error := Settle(payment, Confirmed, PaymentConfirmed);
      if error.None? {
        var invoice := payments[payment].invoice;
        toOrder := toOrder + multiset{invoice};
        Protocol.OrderingKeepsInv(View(), Orders.FinishConfirmation(invoice));
        error := CreateFromInvoice(invoice);
        toOrder := toOrder - multiset{invoice};
      }
    }

    method RejectPayment(payment: nat) returns (error: Option<Error>)
      requires Valid()
      modifies this`payments, this`invoices
      ensures Valid()
      ensures (View(), error) == Outcome(old(View()), Payments.RejectPayment(old(View()), payment))
    {
      Protocol.PayingKeepsInv(View(), Payments.Reject(payment));
      error := Settle(payment, PaymentRejected, AwaitingPayment);
    }

    method MarkPartial(payment: nat) returns (error: Option<Error>)
      requires Valid()
      modifies this`invoices
      ensures Valid()
      ensures (View(), error) == Outcome(old(View()), Payments.MarkPartial(old(View()), payment))
    {
      Protocol.PayingKeepsInv(View(), Payments.Partial(payment));
      if payment >= |payments| {
        return Some(NotFound);
      }
      if !payments[payment].status.UnderVerification? {
        return Some(BadRequest);
      }
      invoices := WithInvoiceStatus(invoices, payments[payment].invoice, PartiallyPaid);
      error := None;
    }

    // ----- orders -----

    method CreateFromInvoice(invoice: nat) returns (error: Option<Error>)
      modifies this`orders
      ensures (View(), error) == Outcome(old(View()), Orders.CreateFromInvoice(old(View()), invoice))
    {
      if Orders.HasOrder(orders, invoice) {
        return None;
      }
      if invoice >= |invoices| || invoices[invoice].listing.None? || invoices[invoice].listing.value !in listings {
        return Some(BadRequest);
      }
      var row := invoices[invoice];
      var sellerType := row.sellerType.GetOr(listings[row.listing.value].sellerType);
      orders := orders + [Order(row.user, row.listing.value, invoice, sellerType,
                                OrderPaymentConfirmed, [OrderPaymentConfirmed])];
      error := None;
    }

    method AdvanceOrderStatus(order: nat) returns (error: Option<Error>)
      requires Valid()
      modifies this`orders, this`metrics, this`toRecord
      ensures Valid()
      ensures var s := old(View());
        match Orders.AdvanceInDatabase(s, order)
        case Err(e) => View() == s && error == Some(e)
        case Ok(t) =>
          && error == None
          && View() == if t.orders[order].status.Delivered?
                       then Orders.MetricAfterDelivery(t, order) else t
    {
      error := WriteNextStage(order);
      if error.None? && orders[order].status.Delivered? {
        FinishDelivery(order);
      }
    }

    /** Writes the metric that a delivery owes. */
    method FinishDelivery(order: nat)
      requires Valid() && toRecord[order] > 0
      modifies this`metrics, this`toRecord
      ensures Valid() && View() == Orders.MetricAfterDelivery(old(View()), order)
    {
      Protocol.OrderingKeepsInv(View(), Orders.FinishDelivery(order));
      RecordDelivery(order);
      toRecord := toRecord - multiset{order};
    }

    /** The checks and the transaction of an advance; a delivery is then owed its metric. */
    method WriteNextStage(order: nat) returns (error: Option<Error>)
      requires Valid()
      modifies this`orders, this`toRecord
      ensures Valid()
      ensures (View(), error) == Outcome(old(View()), Orders.AdvanceInDatabase(old(View()), order))
      ensures error.None? ==> order < |orders| && (orders[order].status.Delivered? ==> toRecord[order] > 0)
    {
      Protocol.OrderingKeepsInv(View(), Orders.Advance(order));
      if order >= |orders| {
        return Some(NotFound);
      }
      var row := orders[order];
      if row.status.OrderCancelled? || row.status.Delivered? {
        return Some(BadRequest);
      }
      var next := Orders.GetNextOrderStatus(row.sellerType, row.status);
      if next.None? {
        return Some(BadRequest);
      }
      orders := orders[order := row.(status := next.value, log := row.log + [next.value])];
      if next.value.Delivered? {
        toRecord := toRecord + multiset{order};
      }
      error := None;
    }

    method RecordDelivery(order: nat)
      modifies this`metrics
      ensures View() == Orders.RecordDelivery(old(View()), order)
    {
      if order >= |orders| || orders[order].listing !in listings {
        return;
      }
      metrics := metrics + [order];
    }

    method CancelOrder(order: nat) returns (error: Option<Error>)
      requires Valid()
      modifies this`orders
      ensures Valid()
      ensures (View(), error) == Outcome(old(View()), Orders.CancelOrder(old(View()), order))
    {
      Protocol.OrderingKeepsInv(View(), Orders.Cancel(order));
      if order >= |orders| {
        return Some(NotFound);
      }
      var row := orders[order];
      if row.status.OrderCancelled? {
        return Some(BadRequest);
      }
      orders := orders[order := row.(status := OrderCancelled, log := row.log + [OrderCancelled])];
      error := None;
    }

    // ----- bookings -----

    method RequestBooking(user: nat, listing: nat, feeRwf: real, rate: real) returns (error: Option<Error>)
      requires Valid()
      modifies this`bookings
      ensures Valid()
      ensures (View(), error) ==
        Outcome(old(View()), Bookings.RequestBooking(old(View()), user, listing, feeRwf, rate))
    {
      Protocol.BookedKeepsInv(View(), Bookings.Request(user, listing, feeRwf, rate));
      if user !in users || !users[user].hasBuyerProfile {
        return Some(BadRequest);
      }
      if listing !in listings {
        return Some(NotFound);
      }
      if !listings[listing].status.Published? || Bookings.HoldsBooking(bookings, user, listing)
         || HoldsInvoice(invoices, user, listing)
      {
        return Some(BadRequest);
      }
      bookings := bookings + [Booking(user, listing, feeRwf, Money.RwfToUsd(feeRwf, rate),
                                      BookingAwaitingPayment, None, [])];
      error := None;
    }

    method SubmitBookingPayment(user: nat, booking: nat, proofs: seq<string>) returns (error: Option<Error>)
      requires Valid()
      modifies this`bookings
      ensures Valid()
      ensures (View(), error) == Outcome(old(View()), Bookings.SubmitPayment(old(View()), user, booking, proofs))
    {
      Protocol.BookedKeepsInv(View(), Bookings.Submit(user, booking, proofs));
      if booking >= |bookings| {
        return Some(NotFound);
      }
      if bookings[booking].user != user {
        return Some(Forbidden);
      }
      if !Bookings.CanSubmitPayment(bookings[booking]) {
        return Some(BadRequest);
      }
      var row := bookings[booking].(proofs := bookings[booking].proofs + proofs);
      bookings := bookings[booking := row.(status := BookingUnderVerification, rejectionReason := None)];
      error := None;
    }

    method CancelBookingByBuyer(user: nat, booking: nat) returns (error: Option<Error>)
      requires Valid()
      modifies this`bookings
      ensures Valid()
      ensures (View(), error) == Outcome(old(View()), Bookings.CancelBookingByBuyer(old(View()), user, booking))
    {
      Protocol.BookedKeepsInv(View(), Bookings.CancelByBuyer(user, booking));
      if booking >= |bookings| {
        return Some(NotFound);
      }
      var row := bookings[booking];
      if row.user != user {
        return Some(Forbidden);
      }
      if row.status.BookingCancelled? {
        return None;
      }
      if !row.status.BookingAwaitingPayment? || |row.proofs| > 0 {
        return Some(BadRequest);
      }
      bookings, error := bookings[booking := row.(status := BookingCancelled)], None;
    }

    method ConfirmBooking(booking: nat) returns (error: Option<Error>)
      requires Valid()
      modifies this`bookings
      ensures Valid()
      ensures (View(), error) == Outcome(old(View()), Bookings.ConfirmBooking(old(View()), booking))
    {
      Protocol.BookedKeepsInv(View(), Bookings.Confirm(booking));
      if booking >= |bookings| {
        return Some(NotFound);
      }
      if !Bookings.IsVerifiable(bookings[booking].status) {
        return Some(BadRequest);
      }
      bookings, error := bookings[booking := bookings[booking].(status := BookingConfirmed)], None;
    }

    method RejectBooking(booking: nat, reason: Option<string>) returns (error: Option<Error>)
      requires Valid()
      modifies this`bookings
      ensures Valid()
      ensures (View(), error) == Outcome(old(View()), Bookings.RejectBooking(old(View()), booking, reason))
    {
      Protocol.BookedKeepsInv(View(), Bookings.Reject(booking, reason));
      if booking >= |bookings| {
        return Some(NotFound);
      }
      if !Bookings.IsVerifiable(bookings[booking].status) {
        return Some(BadRequest);
      }
      var row := bookings[booking].(status := BookingAwaitingPayment, rejectionReason := reason);
      bookings, error := bookings[booking := row], None;
    }

    method UpdateBookingFee(booking: nat, feeRwf: Option<real>, feeUsd: Option<real>, rate: real)
      returns (error: Option<Error>)
      requires Valid()
      modifies this`bookings
      ensures Valid()
      ensures (View(), error) ==
        Outcome(old(View()), Bookings.UpdateBookingFee(old(View()), booking, feeRwf, feeUsd, rate))
    {
      Protocol.BookedKeepsInv(View(), Bookings.UpdateFee(booking, feeRwf, feeUsd, rate));
      if booking >= |bookings| {
        return Some(NotFound);
      }
      if !bookings[booking].status.BookingAwaitingPayment? || |bookings[booking].proofs| > 0 {
        return Some(BadRequest);
      }
      var fee := Bookings.NextFee(feeRwf, feeUsd, rate);
      if fee.None? || !(fee.value > 0.0) {
        return Some(BadRequest);
      }
      var row := bookings[booking].(feeRwf := fee.value, feeUsd := Money.RwfToUsd(fee.value, rate));
      bookings, error := bookings[booking := row], None;
    }
  }
}
