/** Two rules that no service keeps alone: a vehicle has one live order, and a buyer does not hold
    both a booking and an invoice for a vehicle. */
module Exclusive {
  import opened Prelude
  import opened Marketplace
  import opened Commerce
  import opened Protocol
  import Invoices
  import Payments
  import Orders
  import Bookings

  // ----- one live order for a vehicle -----

  predicate IsLive(o: Order, listing: nat) {
    o.listing == listing && !o.status.OrderCancelled?
  }

  predicate HasLiveOrder(orders: seq<Order>, listing: nat) {
    exists o :: 0 <= o < |orders| && IsLive(orders[o], listing)
  }

  predicate OneLiveEach(orders: seq<Order>) {
    forall a, b :: 0 <= a < b < |orders| && orders[a].listing == orders[b].listing ==>
      orders[a].status.OrderCancelled? || orders[b].status.OrderCancelled?
  }

  /** The step makes the order of a confirmed invoice whose vehicle has a live order already. */
  predicate MakesSecond(s: State, e: Orders.Step) {
    && e.FinishConfirmation? && s.toOrder[e.invoice] > 0 && !Orders.HasOrder(s.orders, e.invoice)
    && e.invoice < |s.invoices| && s.invoices[e.invoice].listing.Some?
    && s.invoices[e.invoice].listing.value in s.listings
    && HasLiveOrder(s.orders, s.invoices[e.invoice].listing.value)
  }

  lemma {:induction false} AddedOrder(orders: seq<Order>, o: Order)
    requires OneLiveEach(orders) && !o.status.OrderCancelled?
    ensures OneLiveEach(orders + [o]) <==> !HasLiveOrder(orders, o.listing)
  {
    var after := orders + [o];
    assert forall k :: 0 <= k < |orders| ==> after[k] == orders[k];
    assert after[|orders|] == o;
    if HasLiveOrder(orders, o.listing) {
      var k :| 0 <= k < |orders| && IsLive(orders[k], o.listing);
      assert after[k].listing == after[|orders|].listing;
    }
  }

  lemma {:induction false} NoneRevived(before: seq<Order>, after: seq<Order>)
    requires OneLiveEach(before) && |after| == |before|
    requires forall k :: 0 <= k < |before| ==>
      after[k].listing == before[k].listing
      && (before[k].status.OrderCancelled? ==> after[k].status.OrderCancelled?)
    ensures OneLiveEach(after)
  {
    forall a, b | 0 <= a < b < |after| && after[a].listing == after[b].listing
      ensures after[a].status.OrderCancelled? || after[b].status.OrderCancelled?
    {
      assert before[a].listing == before[b].listing;
    }
  }

  lemma {:induction false} OrderingOneLiveIff(s: State, e: Orders.Step)
    requires OneLiveEach(s.orders)
    ensures OneLiveEach(Outcome(s, Orders.Call(s, e)).0.orders) <==> !MakesSecond(s, e)
  {
    var t := Outcome(s, Orders.Call(s, e)).0;
    if e.FinishConfirmation? {
      FinishOneLiveIff(s, e.invoice);
    } else {
      NoneRevived(s.orders, t.orders);
    }
  }

  lemma {:induction false} FinishOneLiveIff(s: State, invoice: nat)
    requires OneLiveEach(s.orders)
    ensures OneLiveEach(Orders.OrderAfterConfirmation(s, invoice).orders)
      <==> !MakesSecond(s, Orders.FinishConfirmation(invoice))
  {
    if s.toOrder[invoice] > 0 && !Orders.HasOrder(s.orders, invoice)
       && invoice < |s.invoices| && s.invoices[invoice].listing.Some?
       && s.invoices[invoice].listing.value in s.listings
    {
      AddedOrder(s.orders, Orders.NewOrder(s, invoice, s.invoices[invoice].listing.value));
    }
  }

  /** A vehicle gets a second live order exactly when the order of a confirmed invoice is made while
      it has one: neither the confirmation nor the order looks at the listing. */
  lemma {:induction false} OneLiveOrderIff(s: State, e: Event)
    requires OneLiveEach(s.orders)
    ensures OneLiveEach(Apply(s, e).orders) <==> !(e.Ordering? && MakesSecond(s, e.o))
  {
    match e {
      case Invoicing(i) => InvoicingFrame(s, i);
      case Paying(p) => PayingFrame(s, p);
      case Ordering(o) => OrderingOneLiveIff(s, o);
      case Booked(b) => BookedFrame(s, b);
      case _ =>
    }
  }

  // ----- not both a booking and an invoice -----

  /** For no vehicle does a buyer hold both an active booking and an active invoice. */
  ghost predicate NotBoth(s: State) {
    forall user: nat, l: nat ::
      !(Bookings.HoldsBooking(s.bookings, user, l) && HoldsInvoice(s.invoices, user, l))
  }

  /** The step gives the buyer an active invoice for the vehicle, if he holds none. */
  predicate GivesInvoice(s: State, e: Event, user: nat, l: nat) {
    match e
    case Invoicing(i) => Invoices.Call(s, i).Ok? && InvoiceGiven(s, i, user, l)
    case Paying(p) => InvoiceReopened(s, p, user, l)
    case _ => false
  }

  predicate InvoiceGiven(s: State, i: Invoices.Step, user: nat, l: nat) {
    match i
    case Request(u, listing, _) => u == user && listing == l
    case CreateFleet(u, vehicle, _, _, _, _) => u == user && vehicle == Some(l)
    case Fulfill(u, _) =>
      u == user && Invoices.CanInvoice(s, user, l) && l in Invoices.InquiredListings(s.inquiries, user)
    case _ => false
  }

  /** A payment of an invoice that holds nothing any more is rejected or marked partial. */
  predicate InvoiceReopened(s: State, p: Payments.Step, user: nat, l: nat) {
    && (p.Reject? || p.Partial?) && p.payment < |s.payments| && s.payments[p.payment].status.UnderVerification?
    && var i := s.payments[p.payment].invoice;
       i < |s.invoices| && s.invoices[i].user == user && s.invoices[i].listing == Some(l)
  }

  lemma {:induction false} HeldAfterAdding(invoices: seq<Invoice>, row: Invoice, user: nat, l: nat)
    requires !HoldsInvoice(invoices, user, l) && IsActiveInvoice(row.status)
    ensures HoldsInvoice(invoices + [row], user, l) <==> row.user == user && row.listing == Some(l)
  {
    Invoices.StillHolds(invoices, row, user, l);
  }

  lemma {:induction false} HeldAfterStatus(invoices: seq<Invoice>, i: nat, status: InvoiceStatus, user: nat, l: nat)
    requires i < |invoices| && !HoldsInvoice(invoices, user, l)
    ensures HoldsInvoice(WithInvoiceStatus(invoices, i, status), user, l)
      <==> IsActiveInvoice(status) && invoices[i].user == user && invoices[i].listing == Some(l)
  {
    var after := WithInvoiceStatus(invoices, i, status);
    assert forall k :: 0 <= k < |invoices| && k != i ==> after[k] == invoices[k];
    assert after[i] == invoices[i].(status := status);
  }

  lemma {:induction false} NotHeldAfterClosing(before: seq<Invoice>, after: seq<Invoice>, user: nat, l: nat)
    requires |after| == |before| && !HoldsInvoice(before, user, l)
    requires forall k :: 0 <= k < |before| ==>
      after[k].user == before[k].user && after[k].listing == before[k].listing
      && (IsActiveInvoice(after[k].status) ==> IsActiveInvoice(before[k].status))
    ensures !HoldsInvoice(after, user, l)
  {
  }

  lemma {:induction false} HeldAfterFulfilling(s: State, u: nat, now: int, user: nat, l: nat)
    requires !HoldsInvoice(s.invoices, user, l)
    ensures HoldsInvoice(Invoices.FulfillPendingBuyInquiries(s, u, now).invoices, user, l)
      <==> u == user && Invoices.CanInvoice(s, user, l) && l in Invoices.InquiredListings(s.inquiries, user)
  {
    var rows := Invoices.FulfillPendingBuyInquiries(s, u, now).invoices;
    var wanted := Invoices.InquiredListings(s.inquiries, u);
    Invoices.FulfillExactly(s, u, now, now);
    assert forall k :: 0 <= k < |s.invoices| ==> rows[k] == s.invoices[k];
    if HoldsInvoice(rows, user, l) {
      var i :| 0 <= i < |rows| && rows[i].user == user && rows[i].listing == Some(l) && IsActiveInvoice(rows[i].status);
      assert i >= |s.invoices|;
      assert Invoices.IsGrant(s, rows[i], u, wanted, now);
    }
  }

  lemma {:induction false} InvoicingHolds(s: State, i: Invoices.Step, user: nat, l: nat)
    requires !HoldsInvoice(s.invoices, user, l)
    ensures HoldsInvoice(Outcome(s, Invoices.Call(s, i)).0.invoices, user, l)
      <==> Invoices.Call(s, i).Ok? && InvoiceGiven(s, i, user, l)
  {
    var t := Outcome(s, Invoices.Call(s, i)).0;
    match i {
      case Request(u, listing, now) =>
        if Invoices.Call(s, i).Ok? {
          HeldAfterAdding(s.invoices, Invoices.NewInvoice(s, u, listing, now), user, l);
        }
      case CreateFleet(u, vehicle, _, _, _, now) =>
        HeldAfterAdding(s.invoices, Invoice(u, vehicle, None, Sent, now + Invoices.VALIDITY_DAYS * DAY), user, l);
      case Expire(now) =>
        Invoices.ExpireDueExactly(s, now);
        NotHeldAfterClosing(s.invoices, t.invoices, user, l);
      case Fulfill(u, now) => HeldAfterFulfilling(s, u, now, user, l);
      case _ => NotHeldAfterClosing(s.invoices, t.invoices, user, l);
    }
  }

  lemma {:induction false} PayingHolds(s: State, p: Payments.Step, user: nat, l: nat)
    requires !HoldsInvoice(s.invoices, user, l)
    ensures HoldsInvoice(Outcome(s, Payments.Call(s, p)).0.invoices, user, l) <==> InvoiceReopened(s, p, user, l)
  {
    var t := Outcome(s, Payments.Call(s, p)).0;
    if Payments.Call(s, p).Ok? {
      var i := if p.Submit? then p.invoice else s.payments[p.payment].invoice;
      if i < |s.invoices| {
        HeldAfterStatus(s.invoices, i, t.invoices[i].status, user, l);
      }
    }
  }

  /** Whoever holds no active invoice for the vehicle holds one after the step exactly if the step
      gives it. */
  lemma {:induction false} HoldsAfterIff(s: State, e: Event, user: nat, l: nat)
    requires !HoldsInvoice(s.invoices, user, l)
    ensures HoldsInvoice(Apply(s, e).invoices, user, l) <==> GivesInvoice(s, e, user, l)
  {
    match e {
      case Invoicing(i) => InvoicingHolds(s, i, user, l);
      case Paying(p) => PayingHolds(s, p, user, l);
      case Ordering(o) => OrderingFrame(s, o);
      case Booked(b) => BookedFrame(s, b);
      case _ =>
    }
  }

  /** A booking is activated only by a request, which refuses a buyer with an active invoice. */
  lemma {:induction false} BookedHolds(s: State, b: Bookings.Step, user: nat, l: nat)
    requires Bookings.Sound(s.bookings) && HoldsInvoice(s.invoices, user, l)
    requires !Bookings.HoldsBooking(s.bookings, user, l)
    ensures !Bookings.HoldsBooking(Outcome(s, Bookings.Call(s, b)).0.bookings, user, l)
  {
    var t := Outcome(s, Bookings.Call(s, b)).0;
    forall k | 0 <= k < |t.bookings| && t.bookings[k].user == user && t.bookings[k].listing == l
      ensures !Bookings.IsActive(t.bookings[k].status)
    {
      if k < |s.bookings| {
        assert Bookings.IsSound(s.bookings[k]);
        assert !Bookings.IsActive(s.bookings[k].status);
      }
    }
  }

  lemma {:induction false} SameHoldings(s: State, e: Event, user: nat, l: nat)
    requires Inv(s) && NotBoth(s)
    ensures Bookings.HoldsBooking(Apply(s, e).bookings, user, l) && HoldsInvoice(Apply(s, e).invoices, user, l)
      <==> Bookings.HoldsBooking(s.bookings, user, l) && GivesInvoice(s, e, user, l)
  {
    assert !(Bookings.HoldsBooking(s.bookings, user, l) && HoldsInvoice(s.invoices, user, l));
    if e.Booked? {
      BookedFrame(s, e.b);
      if HoldsInvoice(s.invoices, user, l) {
        BookedHolds(s, e.b, user, l);
      }
    } else {
      BookingsUntouched(s, e);
      if !HoldsInvoice(s.invoices, user, l) {
        HoldsAfterIff(s, e, user, l);
      }
    }
  }

  lemma {:induction false} BookingsUntouched(s: State, e: Event)
    requires !e.Booked?
    ensures Apply(s, e).bookings == s.bookings
  {
    match e {
      case Invoicing(i) => InvoicingFrame(s, i);
      case Paying(p) => PayingFrame(s, p);
      case Ordering(o) => OrderingFrame(s, o);
      case _ =>
    }
  }

  /** A buyer comes to hold both for a vehicle exactly when an invoice is issued or opened again for
      the holder of an active booking; no booking is made for the holder of an active invoice. */
  lemma {:induction false} NotBothIff(s: State, e: Event)
    requires Inv(s) && NotBoth(s)
    ensures NotBoth(Apply(s, e))
      <==> forall user: nat, l: nat :: !(Bookings.HoldsBooking(s.bookings, user, l) && GivesInvoice(s, e, user, l))
  {
    forall user: nat, l: nat
      ensures Bookings.HoldsBooking(Apply(s, e).bookings, user, l) && HoldsInvoice(Apply(s, e).invoices, user, l)
        <==> Bookings.HoldsBooking(s.bookings, user, l) && GivesInvoice(s, e, user, l)
    {
      SameHoldings(s, e, user, l);
    }
  }
}
