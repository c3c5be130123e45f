/** Runs from empty tables that reach the failing side of what the services keep only under a
    condition. */
module Witnesses {
  import opened Prelude
  import opened Marketplace
  import opened Commerce
  import opened Protocol
  import Invoices
  import Payments
  import Orders
  import Bookings
  import Guarantees
  import ActiveInvoices
  import Exclusive

  ghost predicate Reachable(s: State) {
    exists events :: Exec(EMPTY, events) == s
  }

  lemma {:induction false} ReachableIsInv(s: State)
    requires Reachable(s)
    ensures Inv(s)
  {
    var events :| Exec(EMPTY, events) == s;
    EmptyInv();
    ExecKeepsInv(EMPTY, events);
  }

  lemma {:induction false} OneMoreStep(s: State, e: Event)
    requires Reachable(s)
    ensures Reachable(Apply(s, e))
  {
    var events :| Exec(EMPTY, events) == s;
    Guarantees.ExecConcat(EMPTY, events, [e]);
    assert Exec(s, [e]) == Exec(Apply(s, e), []);
    assert Exec(EMPTY, events + [e]) == Apply(s, e);
  }

  // ----- the setting: one buyer, one vehicle in Kigali -----

  const BUYER := User(true, false, true)
  const CAR := Listing(Published, false, true, UzaRwandaStock)

  function With(invoices: seq<Invoice>, payments: seq<Payment>): State {
    EMPTY.(users := map[0 := BUYER], listings := map[0 := CAR], invoices := invoices, payments := payments)
  }

  function Requested(status: InvoiceStatus): Invoice {
    Invoice(0, Some(0), Some(UzaRwandaStock), status, Invoices.VALIDITY_DAYS * DAY)
  }

  function Fleet(vehicle: Option<nat>, status: InvoiceStatus): Invoice {
    Invoice(0, vehicle, None, status, Invoices.VALIDITY_DAYS * DAY)
  }

  lemma {:induction false} Setting()
    ensures Reachable(With([], []))
  {
    assert Exec(EMPTY, []) == EMPTY;
    OneMoreStep(EMPTY, PutUser(0, BUYER));
    OneMoreStep(Apply(EMPTY, PutUser(0, BUYER)), PutListing(0, CAR));
    assert Apply(Apply(EMPTY, PutUser(0, BUYER)), PutListing(0, CAR)) == With([], []);
  }

  lemma {:induction false} Invoiced()
    ensures Reachable(With([Requested(Sent)], []))
  {
    Setting();
    var e := Invoicing(Invoices.Request(0, 0, 0));
    OneMoreStep(With([], []), e);
    assert Apply(With([], []), e) == With([Requested(Sent)], []);
  }

  lemma {:induction false} Paid()
    ensures Reachable(With([Requested(PaymentSubmitted)], [Payment(0, UnderVerification)]))
  {
    Invoiced();
    var e := Paying(Payments.Submit(0, 0));
    OneMoreStep(With([Requested(Sent)], []), e);
    assert Apply(With([Requested(Sent)], []), e)
        == With([Requested(PaymentSubmitted)], [Payment(0, UnderVerification)]);
  }

  /** A partial payment and a second one, both under verification. */
  lemma {:induction false} PaidTwice()
    ensures Reachable(With([Requested(PaymentSubmitted)],
                           [Payment(0, UnderVerification), Payment(0, UnderVerification)]))
  {
    Paid();
    var one, two := [Payment(0, UnderVerification)], [Payment(0, UnderVerification), Payment(0, UnderVerification)];
    var a, b := With([Requested(PaymentSubmitted)], one), With([Requested(PartiallyPaid)], one);
    OneMoreStep(a, Paying(Payments.Partial(0)));
    assert Apply(a, Paying(Payments.Partial(0))) == b;
    OneMoreStep(b, Paying(Payments.Submit(0, 0)));
    assert Apply(b, Paying(Payments.Submit(0, 0))) == With([Requested(PaymentSubmitted)], two);
  }

  /** Confirmed, the order still to be made. */
  function JustConfirmed(): State {
    With([Requested(PaymentConfirmed)], [Payment(0, Confirmed)]).(toOrder := multiset{0})
  }

  lemma {:induction false} Confirming()
    ensures Reachable(JustConfirmed())
  {
    Paid();
    var a := With([Requested(PaymentSubmitted)], [Payment(0, UnderVerification)]);
    OneMoreStep(a, Paying(Payments.Confirm(0)));
    assert Apply(a, Paying(Payments.Confirm(0))) == JustConfirmed();
  }

  // ----- closed invoices with an open payment -----

  predicate OpenAgainst(s: State, status: InvoiceStatus) {
    && |s.invoices| == 1 && s.invoices[0].status == status
    && Payment(0, UnderVerification) in s.payments
  }

  /** A cancelled, a confirmed and an expired invoice, each with a payment under verification, that
      a run from empty tables reaches; none of them is closed for good. */
  lemma {:induction false} ClosedNotForGood() returns (cancelled: State, confirmed: State, expired: State)
    ensures Reachable(cancelled) && OpenAgainst(cancelled, InvoiceCancelled)
    ensures Reachable(confirmed) && OpenAgainst(confirmed, PaymentConfirmed)
    ensures Reachable(expired) && OpenAgainst(expired, InvoiceExpired)
    ensures MayBecome(cancelled, PaymentConfirmed)
    ensures MayBecome(confirmed, AwaitingPayment)
    ensures MayBecome(expired, PaymentConfirmed)
  {
    cancelled := CancelledOpen();
    confirmed := ConfirmedOpen();
    expired := ExpiredOpen();
    OpenMayBecome(cancelled, InvoiceCancelled);
    OpenMayBecome(confirmed, PaymentConfirmed);
    OpenMayBecome(expired, InvoiceExpired);
  }

  ghost predicate MayBecome(s: State, status: InvoiceStatus) {
    exists events :: Guarantees.StatusOf(Exec(s, events), 0) == Some(status)
  }

  lemma {:induction false} OpenMayBecome(s: State, status: InvoiceStatus)
    requires OpenAgainst(s, status)
    ensures MayBecome(s, PaymentConfirmed) && MayBecome(s, AwaitingPayment)
  {
    var p :| 0 <= p < |s.payments| && s.payments[p] == Payment(0, UnderVerification);
    Guarantees.Reopens(s, 0, p);
  }

  lemma {:induction false} CancelledOpen() returns (s: State)
    ensures Reachable(s) && OpenAgainst(s, InvoiceCancelled)
    ensures s == With([Requested(InvoiceCancelled)], [Payment(0, UnderVerification)])
  {
    Paid();
    var a := With([Requested(PaymentSubmitted)], [Payment(0, UnderVerification)]);
    s := Apply(a, Invoicing(Invoices.Cancel(0)));
    OneMoreStep(a, Invoicing(Invoices.Cancel(0)));
    assert s == With([Requested(InvoiceCancelled)], [Payment(0, UnderVerification)]);
  }

  lemma {:induction false} ConfirmedOpen() returns (s: State)
    ensures Reachable(s) && OpenAgainst(s, PaymentConfirmed)
  {
    PaidTwice();
    var a := With([Requested(PaymentSubmitted)], [Payment(0, UnderVerification), Payment(0, UnderVerification)]);
    s := Apply(a, Paying(Payments.Confirm(0)));
    OneMoreStep(a, Paying(Payments.Confirm(0)));
    assert s.invoices == [Requested(PaymentConfirmed)];
    assert s.payments[1] == Payment(0, UnderVerification);
  }

  lemma {:induction false} ExpiredOpen() returns (s: State)
    ensures Reachable(s) && OpenAgainst(s, InvoiceExpired)
  {
    PaidTwice();
    var a := With([Requested(PaymentSubmitted)], [Payment(0, UnderVerification), Payment(0, UnderVerification)]);
    var b := With([Requested(AwaitingPayment)], [Payment(0, PaymentRejected), Payment(0, UnderVerification)]);
    OneMoreStep(a, Paying(Payments.Reject(0)));
    assert Apply(a, Paying(Payments.Reject(0))) == b;
    var now := Invoices.VALIDITY_DAYS * DAY + 1;
    s := Apply(b, Invoicing(Invoices.Expire(now)));
    OneMoreStep(b, Invoicing(Invoices.Expire(now)));
    Invoices.ExpireDueExactly(b, now);
    assert Invoices.IsDue(b.invoices[0], now);
    assert s.payments[1] == Payment(0, UnderVerification);
  }

  // ----- orders that never come -----

  /** A crash between confirmation and order loses the order for good. */
  lemma {:induction false} OrderLost() returns (s: State)
    ensures Reachable(s) && |s.invoices| == 1 && s.invoices[0].listing == Some(0)
    ensures Payment(0, Confirmed) in s.payments && !Guarantees.OrderPossible(s, 0)
  {
    Confirming();
    OneMoreStep(JustConfirmed(), Crash);
    s := Apply(JustConfirmed(), Crash);
    assert s == With([Requested(PaymentConfirmed)], [Payment(0, Confirmed)]);
    assert s.payments[0] == Payment(0, Confirmed);
    ReachableIsInv(s);
    Guarantees.OrderComesIff(s, 0);
  }

  /** A fleet invoice without a vehicle can be paid and confirmed, and then its order throws. */
  lemma {:induction false} ConfirmedButThrows() returns (s: State)
    ensures Reachable(s)
    ensures var r := Payments.ConfirmInDatabase(s, 0); r.Ok? && Orders.CreateFromInvoice(r.value, 0).Err?
  {
    Setting();
    var fleet := Invoicing(Invoices.CreateFleet(0, None, Some(1.0), None, 1.0, 0));
    OneMoreStep(With([], []), fleet);
    assert Apply(With([], []), fleet) == With([Fleet(None, Sent)], []);
    OneMoreStep(With([Fleet(None, Sent)], []), Paying(Payments.Submit(0, 0)));
    s := Apply(With([Fleet(None, Sent)], []), Paying(Payments.Submit(0, 0)));
    assert s == With([Fleet(None, PaymentSubmitted)], [Payment(0, UnderVerification)]);
  }

  // ----- two active invoices -----

  predicate TwoActive(s: State) {
    |s.invoices| == 2 && ActiveInvoices.Clash(s.invoices[0], s.invoices[1])
  }

  /** Two active invoices of one buyer for one vehicle: by a fleet invoice, and by rejecting the
      payment of a cancelled invoice. */
  lemma {:induction false} TwoActiveInvoices() returns (byFleet: State, byRejection: State)
    ensures Reachable(byFleet) && TwoActive(byFleet)
    ensures Reachable(byRejection) && TwoActive(byRejection)
  {
    Invoiced();
    var fleet := Invoicing(Invoices.CreateFleet(0, Some(0), Some(1.0), None, 1.0, 0));
    byFleet := Apply(With([Requested(Sent)], []), fleet);
    OneMoreStep(With([Requested(Sent)], []), fleet);
    assert byFleet.invoices == [Requested(Sent), Fleet(Some(0), Sent)];
    byRejection := ReopenedByRejection();
  }

  lemma {:induction false} ReopenedByRejection() returns (s: State)
    ensures Reachable(s) && TwoActive(s)
  {
    var b := CancelledOpen();
    var open := [Payment(0, UnderVerification)];
    var c := With([Requested(InvoiceCancelled), Requested(Sent)], open);
    OneMoreStep(b, Invoicing(Invoices.Request(0, 0, 0)));
    assert Apply(b, Invoicing(Invoices.Request(0, 0, 0))) == c;
    s := Apply(c, Paying(Payments.Reject(0)));
    OneMoreStep(c, Paying(Payments.Reject(0)));
    assert s.invoices == [Requested(AwaitingPayment), Requested(Sent)];
  }

  // ----- a delivered order that is cancelled -----

  function WithOrder(log: seq<OrderStatus>, metrics: seq<nat>, toRecord: multiset<nat>): State
    requires log != []
  {
    With([Requested(PaymentConfirmed)], [Payment(0, Confirmed)]).(
      orders := [Order(0, 0, 0, UzaRwandaStock, log[|log| - 1], log)], metrics := metrics, toRecord := toRecord)
  }

  lemma {:induction false} Ordered()
    ensures Reachable(WithOrder([OrderPaymentConfirmed], [], multiset{}))
  {
    Confirming();
    var s, finish := JustConfirmed(), Ordering(Orders.FinishConfirmation(0));
    OneMoreStep(s, finish);
    Orders.CreateIs(s, 0);
    assert Apply(s, finish) == WithOrder([OrderPaymentConfirmed], [], multiset{});
  }

  lemma {:induction false} Advanced(log: seq<OrderStatus>, next: OrderStatus)
    requires log != [] && log + [next] <= Orders.Stages(UzaRwandaStock)
    requires Reachable(WithOrder(log, [], multiset{}))
    ensures Reachable(WithOrder(log + [next], [], if next.Delivered? then multiset{0} else multiset{}))
  {
    var s := WithOrder(log, [], multiset{});
    ReachableIsInv(s);
    NextOf(s.orders[0], next);
    OneMoreStep(s, Ordering(Orders.Advance(0)));
    assert Apply(s, Ordering(Orders.Advance(0)))
        == WithOrder(log + [next], [], if next.Delivered? then multiset{0} else multiset{});
  }

  lemma {:induction false} NextOf(o: Order, next: OrderStatus)
    requires Orders.Tracked(o) && o.log + [next] <= Orders.Stages(o.sellerType)
    ensures !o.status.OrderCancelled? && !o.status.Delivered?
    ensures Orders.GetNextOrderStatus(o.sellerType, o.status) == Some(next)
  {
    var stages, k := Orders.Stages(o.sellerType), |o.log|;
    Orders.StagesWellFormed(o.sellerType);
    assert (o.log + [next])[k - 1] == o.status && (o.log + [next])[k] == next;
    assert stages[k - 1] == o.status && stages[k] == next;
    Orders.NextStage(o);
  }

  /** An order delivered, recorded and then cancelled: its metric stays. */
  lemma {:induction false} DeliveredThenCancelled() returns (s: State)
    ensures Reachable(s) && |s.orders| == 1
    ensures s.orders[0].status.OrderCancelled? && Delivered in s.orders[0].log && s.metrics == [0]
  {
    Ordered();
    var a := [OrderPaymentConfirmed, VehicleReserved];
    var b := a + [ReadyForHandover];
    var c := b + [Delivered];
    assert c == Orders.Stages(UzaRwandaStock);
    assert [OrderPaymentConfirmed] + [VehicleReserved] == a;
    Advanced([OrderPaymentConfirmed], VehicleReserved);
    Advanced(a, ReadyForHandover);
    Advanced(b, Delivered);
    s := RecordedThenCancelled(c);
  }

  lemma {:induction false} RecordedThenCancelled(log: seq<OrderStatus>) returns (s: State)
    requires log != [] && log[|log| - 1].Delivered? && Reachable(WithOrder(log, [], multiset{0}))
    ensures Reachable(s) && |s.orders| == 1
    ensures s.orders[0].status.OrderCancelled? && Delivered in s.orders[0].log && s.metrics == [0]
  {
    var a, b := WithOrder(log, [], multiset{0}), WithOrder(log, [0], multiset{});
    OneMoreStep(a, Ordering(Orders.FinishDelivery(0)));
    assert Apply(a, Ordering(Orders.FinishDelivery(0))) == b;
    OneMoreStep(b, Ordering(Orders.Cancel(0)));
    s := Apply(b, Ordering(Orders.Cancel(0)));
    assert s.orders == [Orders.Moved(b.orders[0], OrderCancelled)];
    assert s.orders[0].log == log + [OrderCancelled];
  }

  // ----- a booking confirmed without a proof -----

  function WithBooking(status: BookingStatus): State {
    With([], []).(bookings := [Bookings.NewBooking(0, 0, 1.0, 1.0).(status := status)])
  }

  lemma {:induction false} BookedOnce()
    ensures Reachable(WithBooking(BookingAwaitingPayment))
  {
    Setting();
    var request := Booked(Bookings.Request(0, 0, 1.0, 1.0));
    OneMoreStep(With([], []), request);
    assert Apply(With([], []), request) == WithBooking(BookingAwaitingPayment);
  }

  lemma {:induction false} ConfirmedWithoutProof() returns (s: State)
    ensures Reachable(s) && |s.bookings| == 1
    ensures s.bookings[0].status.BookingConfirmed? && s.bookings[0].proofs == []
  {
    BookedOnce();
    var submit := Booked(Bookings.Submit(0, 0, []));
    OneMoreStep(WithBooking(BookingAwaitingPayment), submit);
    var none: seq<string> := [];
    assert none + none == none;
    assert Apply(WithBooking(BookingAwaitingPayment), submit) == WithBooking(BookingUnderVerification);
    var confirm := Booked(Bookings.Confirm(0));
    OneMoreStep(WithBooking(BookingUnderVerification), confirm);
    s := Apply(WithBooking(BookingUnderVerification), confirm);
    assert s == WithBooking(BookingConfirmed);
  }

  // ----- a booking beside an invoice -----

  /** A buyer who books a vehicle and then requests an invoice for it holds both. */
  lemma {:induction false} BookingAndInvoice() returns (s: State)
    ensures Reachable(s)
    ensures Bookings.HoldsBooking(s.bookings, 0, 0) && HoldsInvoice(s.invoices, 0, 0)
  {
    BookedOnce();
    var booked, request := WithBooking(BookingAwaitingPayment), Invoicing(Invoices.Request(0, 0, 0));
    OneMoreStep(booked, request);
    s := Apply(booked, request);
    assert s == booked.(invoices := [Requested(Sent)]);
    assert s.bookings[0].user == 0 && s.invoices[0].user == 0;
  }

  // ----- two live orders for one vehicle -----

  /** One order made, and a second invoice for the same vehicle. */
  function Again(status: InvoiceStatus, second: seq<Payment>, toOrder: multiset<nat>): State {
    WithOrder([OrderPaymentConfirmed], [], multiset{}).(
      invoices := [Requested(PaymentConfirmed), Requested(status)],
      payments := [Payment(0, Confirmed)] + second, toOrder := toOrder)
  }

  lemma {:induction false} RequestedAgain()
    ensures Reachable(Again(Sent, [], multiset{}))
  {
    Ordered();
    var s, e := WithOrder([OrderPaymentConfirmed], [], multiset{}), Invoicing(Invoices.Request(0, 0, 0));
    OneMoreStep(s, e);
    assert s.payments == [Payment(0, Confirmed)] + [];
    assert Apply(s, e) == Again(Sent, [], multiset{});
  }

  lemma {:induction false} PaidAgain()
    ensures Reachable(Again(PaymentSubmitted, [Payment(1, UnderVerification)], multiset{}))
  {
    RequestedAgain();
    var s, e := Again(Sent, [], multiset{}), Paying(Payments.Submit(0, 1));
    OneMoreStep(s, e);
    assert Apply(s, e) == Again(PaymentSubmitted, [Payment(1, UnderVerification)], multiset{});
  }

  lemma {:induction false} ConfirmedAgain()
    ensures Reachable(Again(PaymentConfirmed, [Payment(1, Confirmed)], multiset{1}))
  {
    PaidAgain();
    var s := Again(PaymentSubmitted, [Payment(1, UnderVerification)], multiset{});
    OneMoreStep(s, Paying(Payments.Confirm(1)));
    assert s.payments[1] == Payment(1, UnderVerification);
    assert Apply(s, Paying(Payments.Confirm(1))) == Again(PaymentConfirmed, [Payment(1, Confirmed)], multiset{1});
  }

  /** A vehicle can be ordered twice: nothing takes it off sale. */
  lemma {:induction false} TwoLiveOrders() returns (s: State)
    ensures Reachable(s) && |s.orders| == 2
    ensures Exclusive.IsLive(s.orders[0], 0) && Exclusive.IsLive(s.orders[1], 0)
  {
    ConfirmedAgain();
    var before := Again(PaymentConfirmed, [Payment(1, Confirmed)], multiset{1});
    OneMoreStep(before, Ordering(Orders.FinishConfirmation(1)));
    Orders.CreateIs(before, 1);
    s := Apply(before, Ordering(Orders.FinishConfirmation(1)));
    assert !Orders.HasOrder(before.orders, 1);
    assert s.orders == before.orders + [Orders.NewOrder(before, 1, 0)];
  }

  /** A run reaches a booking with a proof. */
  lemma {:induction false} BookedWithProof(url: string) returns (s: State)
    ensures Reachable(s) && |s.bookings| == 1
    ensures s.bookings[0].status.BookingUnderVerification? && s.bookings[0].proofs == [url]
  {
    BookedOnce();
    var submit := Booked(Bookings.Submit(0, 0, [url]));
    OneMoreStep(WithBooking(BookingAwaitingPayment), submit);
    s := Apply(WithBooking(BookingAwaitingPayment), submit);
    var none: seq<string> := [];
    assert none + [url] == [url];
  }
}
