/** The commerce protocol as one machine: every call of the four services, the work two of them
    leave for after their transaction, the rest of the system, and crashes. */
module Protocol {
  import opened Prelude
  import opened Marketplace
  import opened Commerce
  import Invoices
  import Payments
  import Orders
  import Bookings

  datatype Event =
    | Invoicing(i: Invoices.Step)
    | Paying(p: Payments.Step)
    | Ordering(o: Orders.Step)
    | Booked(b: Bookings.Step)
    | PutUser(id: nat, user: User)           // anything that happens to an account
    | PutListing(id: nat, listing: Listing)  // anything that happens to a listing
    | AddInquiry(inquiry: Inquiry)
    | Crash                                  // work outside a transaction is lost

  /** A call that throws leaves the tables as they were. */
  function Apply(s: State, e: Event): State {
    match e
    case Invoicing(i) => Outcome(s, Invoices.Call(s, i)).0
    case Paying(p) => Outcome(s, Payments.Call(s, p)).0
    case Ordering(o) => Outcome(s, Orders.Call(s, o)).0
    case Booked(b) => Outcome(s, Bookings.Call(s, b)).0
    case PutUser(id, user) => s.(users := s.users[id := user])
    case PutListing(id, listing) => s.(listings := s.listings[id := listing])
    case AddInquiry(inquiry) => s.(inquiries := s.inquiries + [inquiry])
    case Crash => s.(toOrder := multiset{}, toRecord := multiset{})
  }

  function Exec(s: State, events: seq<Event>): State
    decreases |events|
  {
    if events == [] then s else Exec(Apply(s, events[0]), events[1..])
  }

  // ----- frames: which tables a service may write -----

  lemma {:induction false} InvoicingFrame(s: State, e: Invoices.Step)
    ensures var t := Outcome(s, Invoices.Call(s, e)).0;
      && t == s.(invoices := t.invoices, listings := t.listings)
      && t.listings.Keys == s.listings.Keys
  {
    match e {
      case Expire(now) => Invoices.ExpireDueExactly(s, now);
      case Fulfill(user, now) => Invoices.FulfillExactly(s, user, now, now);
      case _ =>
    }
  }

  lemma {:induction false} PayingFrame(s: State, e: Payments.Step)
    ensures var t := Outcome(s, Payments.Call(s, e)).0;
      && t == s.(invoices := t.invoices, payments := t.payments, toOrder := t.toOrder)
      && |t.invoices| == |s.invoices|
      && forall i :: 0 <= i < |s.invoices| ==> t.invoices[i] == s.invoices[i].(status := t.invoices[i].status)
  {
  }

  lemma {:induction false} OrderingFrame(s: State, e: Orders.Step)
    ensures var t := Outcome(s, Orders.Call(s, e)).0;
      t == s.(orders := t.orders, metrics := t.metrics, toOrder := t.toOrder, toRecord := t.toRecord)
  {
  }

  lemma {:induction false} BookedFrame(s: State, e: Bookings.Step)
    ensures var t := Outcome(s, Bookings.Call(s, e)).0; t == s.(bookings := t.bookings)
  {
  }

  // ----- what an invoice call does to the invoices -----

  /** The call closes invoices, and adds new ones for listings that exist. */
  ghost predicate ClosedOrNew(before: seq<Invoice>, after: seq<Invoice>, listings: map<nat, Listing>) {
    && |before| <= |after|
    && (forall i :: 0 <= i < |before| ==>
          after[i] == before[i] || after[i] == before[i].(status := InvoiceCancelled)
          || after[i] == before[i].(status := InvoiceExpired))
    && (forall i :: |before| <= i < |after| ==>
          after[i].status.Sent? && (after[i].listing.Some? ==> after[i].listing.value in listings))
  }

  lemma {:induction false} FulfillClosedOrNew(s: State, user: nat, now: int)
    ensures ClosedOrNew(s.invoices, Invoices.FulfillPendingBuyInquiries(s, user, now).invoices, s.listings)
  {
    Invoices.FulfillExactly(s, user, now, now);
    var rows := Invoices.FulfillPendingBuyInquiries(s, user, now).invoices;
    var wanted := Invoices.InquiredListings(s.inquiries, user);
    forall i | |s.invoices| <= i < |rows|
      ensures rows[i].status.Sent? && (rows[i].listing.Some? ==> rows[i].listing.value in s.listings)
    {
      assert Invoices.IsGrant(s, rows[i], user, wanted, now);
    }
    assert forall i :: 0 <= i < |s.invoices| ==> rows[i] == s.invoices[i];
  }

  lemma {:induction false} InvoicingClosedOrNew(s: State, e: Invoices.Step)
    ensures ClosedOrNew(s.invoices, Outcome(s, Invoices.Call(s, e)).0.invoices, s.listings)
  {
    match e {
      case Expire(now) => Invoices.ExpireDueExactly(s, now);
      case Fulfill(user, now) => FulfillClosedOrNew(s, user, now);
      case _ =>
    }
  }

  // ----- the joint invariant -----

  predicate Linked(s: State) {
    && Orders.ListingsExist(s)
    && forall i :: 0 <= i < |s.invoices| && s.invoices[i].listing.Some? ==> s.invoices[i].listing.value in s.listings
  }

  /** The order is for an invoice that has a confirmed payment, and takes its buyer, listing and
      channel. */
  predicate IsBacked(invoices: seq<Invoice>, payments: seq<Payment>, o: Order) {
    && o.invoice < |invoices| && Payment(o.invoice, Confirmed) in payments
    && o.user == invoices[o.invoice].user && Some(o.listing) == invoices[o.invoice].listing
    && (invoices[o.invoice].sellerType.Some? ==> Some(o.sellerType) == invoices[o.invoice].sellerType)
  }

  predicate Backed(s: State) {
    && (forall o :: 0 <= o < |s.orders| ==> IsBacked(s.invoices, s.payments, s.orders[o]))
    && (forall i :: i in s.toOrder ==> Payment(i, Confirmed) in s.payments)
  }

  ghost predicate MetricsBounded(s: State) {
    forall o: nat :: Orders.Accounted(s, o) <= Orders.Deliveries(s.orders, o)
  }

  ghost predicate Inv(s: State) {
    && Payments.Ledger(s.invoices, s.payments)
    && Bookings.Sound(s.bookings)
    && Orders.AllTracked(s.orders) && Orders.OnePerInvoice(s.orders)
    && Linked(s) && Backed(s) && MetricsBounded(s)
  }

  lemma {:induction false} ClosingKeepsLedger(
    before: seq<Invoice>, after: seq<Invoice>, payments: seq<Payment>, listings: map<nat, Listing>)
    requires Payments.Ledger(before, payments) && ClosedOrNew(before, after, listings)
    ensures Payments.Ledger(after, payments)
  {
    forall i | 0 <= i < |after| ensures Payments.Explained(after[i].status, payments, i) {
      if i < |before| {
        assert Payments.Explained(before[i].status, payments, i);
      }
    }
  }

  lemma {:induction false} InvoicingKeepsInv(s: State, e: Invoices.Step)
    requires Inv(s)
    ensures Inv(Outcome(s, Invoices.Call(s, e)).0)
  {
    var t := Outcome(s, Invoices.Call(s, e)).0;
    InvoicingFrame(s, e);
    InvoicingClosedOrNew(s, e);
    InvoicesReplaced(s, t.invoices, t.listings);
  }

  lemma {:induction false} InvoicesReplaced(s: State, invoices: seq<Invoice>, listings: map<nat, Listing>)
    requires Inv(s) && ClosedOrNew(s.invoices, invoices, s.listings) && listings.Keys == s.listings.Keys
    ensures Inv(s.(invoices := invoices, listings := listings))
  {
    ClosingKeepsLedger(s.invoices, invoices, s.payments, s.listings);
    var t := s.(invoices := invoices, listings := listings);
    assert forall k :: k in s.listings ==> k in s.listings.Keys;
    assert forall k :: k in listings.Keys ==> k in listings;
    forall o | 0 <= o < |s.orders| ensures IsBacked(t.invoices, t.payments, t.orders[o]) {
      assert IsBacked(s.invoices, s.payments, s.orders[o]);
    }
    assert forall o: nat :: Orders.Accounted(t, o) == Orders.Accounted(s, o);
  }

  lemma {:induction false} ConfirmedStays(before: seq<Payment>, after: seq<Payment>, i: nat)
    requires Payments.PaymentsKept(before, after) && Payment(i, Confirmed) in before
    ensures Payment(i, Confirmed) in after
  {
    var k :| 0 <= k < |before| && before[k] == Payment(i, Confirmed);
    assert after[k] == before[k];
  }

  /** What is left to do after a confirmation is for an invoice that it confirmed. */
  lemma {:induction false} ConfirmationIsBacked(s: State, e: Payments.Step, i: nat)
    requires Backed(s)
    ensures var t := Outcome(s, Payments.Call(s, e)).0;
      i in t.toOrder ==> Payment(i, Confirmed) in t.payments
  {
    var t := Outcome(s, Payments.Call(s, e)).0;
    Payments.PaymentStepKeepsPayments(s, e);
    if i in s.toOrder {
      ConfirmedStays(s.payments, t.payments, i);
    } else if i in t.toOrder {
      assert t.payments[e.payment] == Payment(i, Confirmed);
    }
  }

  lemma {:induction false} PayingKeepsBacked(s: State, e: Payments.Step)
    requires Backed(s)
    ensures Backed(Outcome(s, Payments.Call(s, e)).0)
  {
    var t := Outcome(s, Payments.Call(s, e)).0;
    PayingFrame(s, e);
    Payments.PaymentStepKeepsPayments(s, e);
    forall o | 0 <= o < |t.orders| ensures IsBacked(t.invoices, t.payments, t.orders[o]) {
      assert IsBacked(s.invoices, s.payments, s.orders[o]);
      ConfirmedStays(s.payments, t.payments, t.orders[o].invoice);
    }
    forall i | i in t.toOrder ensures Payment(i, Confirmed) in t.payments {
      ConfirmationIsBacked(s, e, i);
    }
  }

  lemma {:induction false} PayingKeepsInv(s: State, e: Payments.Step)
    requires Inv(s)
    ensures Inv(Outcome(s, Payments.Call(s, e)).0)
  {
    var t := Outcome(s, Payments.Call(s, e)).0;
    PayingFrame(s, e);
    Payments.PaymentStepKeepsLedger(s, e);
    PayingKeepsBacked(s, e);
    assert forall o: nat :: Orders.Accounted(t, o) == Orders.Accounted(s, o);
  }

  lemma {:induction false} FinishKeepsLinks(s: State, invoice: nat)
    requires Linked(s) && Backed(s) && s.toOrder[invoice] > 0
    ensures var t := Outcome(s, Orders.CreateFromInvoice(s, invoice)).0;
      Linked(t) && Backed(t)
  {
    var t := Outcome(s, Orders.CreateFromInvoice(s, invoice)).0;
    Orders.CreateIs(s, invoice);
    forall o | 0 <= o < |t.orders| ensures IsBacked(t.invoices, t.payments, t.orders[o]) {
      if o < |s.orders| {
        assert IsBacked(s.invoices, s.payments, s.orders[o]);
      }
    }
  }

  lemma {:induction false} MoveKeepsLinks(s: State, orders: seq<Order>, order: nat, to: OrderStatus)
    requires Linked(s) && Backed(s) && order < |s.orders|
    requires orders == s.orders[order := Orders.Moved(s.orders[order], to)]
    ensures Linked(s.(orders := orders)) && Backed(s.(orders := orders))
  {
    forall o | 0 <= o < |orders| ensures IsBacked(s.invoices, s.payments, orders[o]) {
      assert IsBacked(s.invoices, s.payments, s.orders[o]);
    }
  }

  lemma {:induction false} OrderingKeepsLinks(s: State, e: Orders.Step)
    requires Linked(s) && Backed(s)
    ensures var t := Outcome(s, Orders.Call(s, e)).0; Linked(t) && Backed(t)
  {
    var t := Outcome(s, Orders.Call(s, e)).0;
    match e {
      case FinishConfirmation(invoice) =>
        if s.toOrder[invoice] > 0 {
          FinishKeepsLinks(s, invoice);
          assert forall i :: i in t.toOrder ==> i in s.toOrder;
        }
      case Advance(order) =>
        if t != s {
          MoveKeepsLinks(s, t.orders, order, t.orders[order].status);
        }
      case FinishDelivery(order) =>
      case Cancel(order) =>
        if t != s {
          MoveKeepsLinks(s, t.orders, order, OrderCancelled);
        }
    }
  }

  lemma {:induction false} OrderingKeepsMetrics(s: State, e: Orders.Step, o: nat)
    requires Orders.AllTracked(s.orders) && Linked(s) && MetricsBounded(s)
    ensures Orders.Balanced(s, Outcome(s, Orders.Call(s, e)).0, o)
  {
    if e.FinishDelivery? {
      assert Orders.Accounted(s, e.order) <= Orders.Deliveries(s.orders, e.order);
    }
    Orders.DeliveryIsAccounted(s, e, o);
  }

  lemma {:induction false} OrderingKeepsInv(s: State, e: Orders.Step)
    requires Inv(s)
    ensures Inv(Outcome(s, Orders.Call(s, e)).0)
  {
    var t := Outcome(s, Orders.Call(s, e)).0;
    OrderingFrame(s, e);
    OrderingKeepsLinks(s, e);
    Orders.OrderStepKeepsOrders(s, e);
    forall o: nat ensures Orders.Accounted(t, o) <= Orders.Deliveries(t.orders, o) {
      OrderingKeepsMetrics(s, e, o);
    }
  }

  lemma {:induction false} BookedKeepsInv(s: State, e: Bookings.Step)
    requires Inv(s)
    ensures Inv(Outcome(s, Bookings.Call(s, e)).0)
  {
    var t := Outcome(s, Bookings.Call(s, e)).0;
    BookedFrame(s, e);
    Bookings.BookingStepKeepsSound(s, e);
    SameTables(s, t);
  }

  /** Accounts, inquiries and bookings are not in question. */
  lemma {:induction false} SameTables(s: State, t: State)
    requires Inv(s) && Bookings.Sound(t.bookings)
    requires s.(users := t.users, inquiries := t.inquiries, bookings := t.bookings) == t
    ensures Inv(t)
  {
    assert forall o: nat :: Orders.Accounted(t, o) == Orders.Accounted(s, o);
  }

  lemma {:induction false} CrashKeepsInv(s: State)
    requires Inv(s)
    ensures Inv(s.(toOrder := multiset{}, toRecord := multiset{}))
  {
    var t := s.(toOrder := multiset{}, toRecord := multiset{});
    assert forall o: nat :: Orders.Accounted(t, o) <= Orders.Accounted(s, o);
  }

  lemma {:induction false} StepKeepsInv(s: State, e: Event)
    requires Inv(s)
    ensures Inv(Apply(s, e))
  {
    match e {
      case Invoicing(i) => InvoicingKeepsInv(s, i);
      case Paying(p) => PayingKeepsInv(s, p);
      case Ordering(o) => OrderingKeepsInv(s, o);
      case Booked(b) => BookedKeepsInv(s, b);
      case PutUser(_, _) => SameTables(s, Apply(s, e));
      case PutListing(id, listing) => ListingChanged(s, s.listings[id := listing]);
      case AddInquiry(_) => SameTables(s, Apply(s, e));
      case Crash => CrashKeepsInv(s);
    }
  }

  lemma {:induction false} ListingChanged(s: State, listings: map<nat, Listing>)
    requires Inv(s) && s.listings.Keys <= listings.Keys
    ensures Inv(s.(listings := listings))
  {
    var t := s.(listings := listings);
    assert forall k :: k in s.listings ==> k in s.listings.Keys;
    assert forall k :: k in listings.Keys ==> k in listings;
    assert forall o: nat :: Orders.Accounted(t, o) == Orders.Accounted(s, o);
  }

  lemma {:induction false} EmptyInv()
    ensures Inv(EMPTY)
  {
  }

  lemma {:induction false} ExecKeepsInv(s: State, events: seq<Event>)
    requires Inv(s)
    ensures Inv(Exec(s, events))
    decreases |events|
  {
    if events != [] {
      StepKeepsInv(s, events[0]);
      ExecKeepsInv(Apply(s, events[0]), events[1..]);
    }
  }
}
