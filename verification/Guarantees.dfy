/** What holds of every run of the commerce protocol. Where the services promise more than they
    keep, the exact condition under which they keep it. */
module Guarantees {
  import opened Prelude
  import opened Marketplace
  import opened Commerce
  import opened Protocol
  import Invoices
  import Payments
  import Orders
  import Bookings

  // ----- nothing settled is undone -----

  ghost predicate Kept(s: State, t: State) {
    && Payments.PaymentsKept(s.payments, t.payments)
    && Orders.OrdersKept(s.orders, t.orders)
    && Bookings.BookingsKept(s.bookings, t.bookings)
    && s.metrics <= t.metrics
  }

  lemma {:induction false} KeptAlone(s: State)
    requires Inv(s)
    ensures Kept(s, s)
  {
    forall b | 0 <= b < |s.bookings| ensures Bookings.MayBecome(s.bookings[b], s.bookings[b]) {
      assert Bookings.IsSound(s.bookings[b]);
    }
  }

  lemma {:induction false} KeptInTurn(s: State, t: State, u: State)
    requires Kept(s, t) && Kept(t, u)
    ensures Kept(s, u)
  {
    forall b | 0 <= b < |s.bookings| ensures Bookings.MayBecome(s.bookings[b], u.bookings[b]) {
      Bookings.MayBecomeInTurn(s.bookings[b], t.bookings[b], u.bookings[b]);
    }
    LogsInTurn(s.orders, t.orders, u.orders);
  }

  lemma {:induction false} LogsInTurn(a: seq<Order>, b: seq<Order>, c: seq<Order>)
    requires Orders.OrdersKept(a, b) && Orders.OrdersKept(b, c)
    ensures Orders.OrdersKept(a, c)
  {
    forall o | 0 <= o < |a|
      ensures a[o].log <= c[o].log && c[o] == a[o].(status := c[o].status, log := c[o].log)
    {
      assert b[o].log <= c[o].log;
    }
  }

  lemma {:induction false} PayingKeeps(s: State, e: Payments.Step)
    requires Inv(s)
    ensures Kept(s, Outcome(s, Payments.Call(s, e)).0)
  {
    KeptAlone(s);
    PayingFrame(s, e);
    Payments.PaymentStepKeepsPayments(s, e);
  }

  lemma {:induction false} OrderingKeeps(s: State, e: Orders.Step)
    requires Inv(s)
    ensures Kept(s, Outcome(s, Orders.Call(s, e)).0)
  {
    KeptAlone(s);
    OrderingFrame(s, e);
    Orders.OrderStepKeepsOrders(s, e);
    Orders.MetricsOnlyGrow(s, e);
  }

  lemma {:induction false} BookedKeeps(s: State, e: Bookings.Step)
    requires Inv(s)
    ensures Kept(s, Outcome(s, Bookings.Call(s, e)).0)
  {
    KeptAlone(s);
    BookedFrame(s, e);
    Bookings.BookingStepKeepsSound(s, e);
  }

  lemma {:induction false} StepKeeps(s: State, e: Event)
    requires Inv(s)
    ensures Kept(s, Apply(s, e))
  {
    match e {
      case Invoicing(i) => InvoicingFrame(s, i); KeptAlone(s);
      case Paying(p) => PayingKeeps(s, p);
      case Ordering(o) => OrderingKeeps(s, o);
      case Booked(b) => BookedKeeps(s, b);
      case _ => KeptAlone(s);
    }
  }

  /** Payments once confirmed or rejected stay so, tracking logs and metrics only grow, a booking once
      confirmed or cancelled stays as it is, and one with a proof keeps its fee and is never
      cancelled. */
  lemma {:induction false} RunKeeps(s: State, events: seq<Event>)
    requires Inv(s)
    ensures Kept(s, Exec(s, events))
    decreases |events|
  {
    if events == [] {
      KeptAlone(s);
    } else {
      var t := Apply(s, events[0]);
      StepKeeps(s, events[0]);
      StepKeepsInv(s, events[0]);
      RunKeeps(t, events[1..]);
      KeptInTurn(s, t, Exec(t, events[1..]));
    }
  }

  lemma {:induction false} ExecConcat(s: State, a: seq<Event>, b: seq<Event>)
    ensures Exec(s, a + b) == Exec(Exec(s, a), b)
    decreases |a|
  {
    if a == [] {
      assert a + b == b;
    } else {
      assert (a + b)[1..] == a[1..] + b;
      ExecConcat(Apply(s, a[0]), a[1..], b);
    }
  }

  lemma {:induction false} EveryRun(events: seq<Event>, more: seq<Event>)
    ensures Inv(Exec(EMPTY, events))
    ensures Kept(Exec(EMPTY, events), Exec(EMPTY, events + more))
  {
    EmptyInv();
    ExecKeepsInv(EMPTY, events);
    RunKeeps(Exec(EMPTY, events), more);
    ExecConcat(EMPTY, events, more);
  }

  // ----- an invoice that nothing can reach any more -----

  /** No payment of the invoice awaits verification and none can be submitted. */
  predicate Quiet(s: State, i: nat) {
    i < |s.invoices| && Payment(i, UnderVerification) !in s.payments && !Payments.IsPayable(s.invoices[i].status)
  }

  /** Only an expired invoice may still change, into a cancelled one. */
  ghost predicate StillQuiet(s: State, t: State, i: nat) {
    && i < |s.invoices| && Quiet(t, i)
    && (t.invoices[i].status == s.invoices[i].status
        || (s.invoices[i].status.InvoiceExpired? && t.invoices[i].status.InvoiceCancelled?))
    && Payments.SamePaymentsOf(s.payments, t.payments, i)
    && t.toOrder[i] <= s.toOrder[i]
  }

  lemma {:induction false} QuietStatus(s: State, i: nat)
    requires Inv(s) && Quiet(s, i)
    ensures var st := s.invoices[i].status; st.PaymentConfirmed? || st.InvoiceCancelled? || st.InvoiceExpired?
  {
    assert Payments.Explained(s.invoices[i].status, s.payments, i);
  }

  lemma {:induction false} InvoicingQuiet(s: State, e: Invoices.Step, i: nat)
    requires Inv(s) && Quiet(s, i)
    ensures StillQuiet(s, Outcome(s, Invoices.Call(s, e)).0, i)
  {
    QuietStatus(s, i);
    InvoicingFrame(s, e);
    match e {
      case Expire(now) => Invoices.ExpireDueExactly(s, now);
      case Fulfill(user, now) => Invoices.FulfillExactly(s, user, now, now);
      case _ =>
    }
  }

  lemma {:induction false} PayingQuiet(s: State, e: Payments.Step, i: nat)
    requires Inv(s) && Quiet(s, i)
    ensures StillQuiet(s, Outcome(s, Payments.Call(s, e)).0, i)
  {
    var t := Outcome(s, Payments.Call(s, e)).0;
    if t != s {
      match e {
        case Submit(user, invoice) => Payments.AddedPayment(s.payments, Payment(invoice, UnderVerification), i);
        case Confirm(payment) => Payments.SettledPayment(s.payments, payment, Confirmed, i);
        case Reject(payment) => Payments.SettledPayment(s.payments, payment, PaymentRejected, i);
        case Partial(payment) =>
      }
    }
  }

  lemma {:induction false} StepQuiet(s: State, e: Event, i: nat)
    requires Inv(s) && Quiet(s, i)
    ensures StillQuiet(s, Apply(s, e), i)
  {
    match e {
      case Invoicing(k) => InvoicingQuiet(s, k, i);
      case Paying(p) => PayingQuiet(s, p, i);
      case Ordering(o) => OrderingFrame(s, o); OrdersDoneOnce(s, o, i);
      case Booked(b) => BookedFrame(s, b);
      case _ =>
    }
  }

  lemma {:induction false} OrdersDoneOnce(s: State, e: Orders.Step, i: nat)
    ensures var left := Outcome(s, Orders.Call(s, e)).0.toOrder[i];
      left <= s.toOrder[i] && (e != Orders.FinishConfirmation(i) ==> left == s.toOrder[i])
  {
  }

  lemma {:induction false} RunQuiet(s: State, events: seq<Event>, i: nat)
    requires Inv(s) && Quiet(s, i)
    ensures StillQuiet(s, Exec(s, events), i)
    decreases |events|
  {
    if events != [] {
      StepQuiet(s, events[0], i);
      StepKeepsInv(s, events[0]);
      RunQuiet(Apply(s, events[0]), events[1..], i);
    }
  }

  // ----- the buyer's cancellation -----

  lemma {:induction false} NoneCounted(payments: seq<Payment>, i: nat)
    ensures Invoices.PaymentCount(payments, i) == 0 <==> Payments.NoPayment(payments, i)
  {
    if payments != [] {
      NoneCounted(payments[1..], i);
      assert forall k :: 1 <= k < |payments| ==> payments[k] == payments[1..][k - 1];
    }
  }

  /** AWAITING_PAYMENT is on the list of cancellable statuses, but never without a payment: a buyer
      can cancel an invoice exactly while it is SENT. */
  lemma {:induction false} BuyerCancelsIff(s: State, user: nat, i: nat)
    requires Inv(s)
    ensures Invoices.CancelInvoiceByBuyer(s, user, i).Ok?
      <==> i < |s.invoices| && s.invoices[i].user == user && s.invoices[i].status.Sent?
  {
    NoneCounted(s.payments, i);
    if i < |s.invoices| {
      assert Payments.Explained(s.invoices[i].status, s.payments, i);
    }
  }

  /** An invoice that its buyer cancelled stays cancelled, without a payment and without an order,
      whatever follows. */
  lemma {:induction false} BuyerCancelIsFinal(s: State, user: nat, i: nat, events: seq<Event>)
    requires Inv(s) && Invoices.CancelInvoiceByBuyer(s, user, i).Ok?
    ensures var t := Exec(s, [Invoicing(Invoices.CancelByBuyer(user, i))] + events);
      && i < |t.invoices| && t.invoices[i].status.InvoiceCancelled?
      && Payments.NoPayment(t.payments, i)
      && !Orders.HasOrder(t.orders, i)
  {
    var cancel := Invoicing(Invoices.CancelByBuyer(user, i));
    BuyerCancelsIff(s, user, i);
    NoneCounted(s.payments, i);
    var c := Apply(s, cancel);
    StepKeepsInv(s, cancel);
    assert ([cancel] + events)[1..] == events;
    RunQuiet(c, events, i);
    ExecKeepsInv(c, events);
    NoOrderWithoutPayment(Exec(c, events), i);
  }

  lemma {:induction false} NoOrderWithoutPayment(s: State, i: nat)
    requires Inv(s) && Payment(i, Confirmed) !in s.payments
    ensures !Orders.HasOrder(s.orders, i)
  {
    forall o | 0 <= o < |s.orders| ensures s.orders[o].invoice != i {
      assert IsBacked(s.invoices, s.payments, s.orders[o]);
    }
  }

  // ----- closed invoices that open again -----

  function StatusOf(s: State, i: nat): Option<InvoiceStatus> {
    if i < |s.invoices| then Some(s.invoices[i].status) else None
  }

  /** A confirmed or cancelled invoice is closed for good if and only if none of its payments still
      awaits verification: otherwise confirming or rejecting that payment changes its status. */
  lemma {:induction false} ClosedForGoodIff(s: State, i: nat)
    requires Inv(s) && i < |s.invoices|
    requires s.invoices[i].status.PaymentConfirmed? || s.invoices[i].status.InvoiceCancelled?
    ensures (forall events :: StatusOf(Exec(s, events), i) == StatusOf(s, i))
      <==> Payment(i, UnderVerification) !in s.payments
  {
    if Payment(i, UnderVerification) in s.payments {
      var p :| 0 <= p < |s.payments| && s.payments[p] == Payment(i, UnderVerification);
      Reopens(s, i, p);
    } else {
      forall events ensures StatusOf(Exec(s, events), i) == StatusOf(s, i) {
        RunQuiet(s, events, i);
      }
    }
  }

  lemma {:induction false} Reopens(s: State, i: nat, p: nat)
    requires i < |s.invoices| && p < |s.payments| && s.payments[p] == Payment(i, UnderVerification)
    ensures StatusOf(Exec(s, [Paying(Payments.Confirm(p))]), i) == Some(PaymentConfirmed)
    ensures StatusOf(Exec(s, [Paying(Payments.Reject(p))]), i) == Some(AwaitingPayment)
  {
    assert Exec(s, [Paying(Payments.Confirm(p))]) == Apply(s, Paying(Payments.Confirm(p)));
    assert Exec(s, [Paying(Payments.Reject(p))]) == Apply(s, Paying(Payments.Reject(p)));
  }

  /** An expired invoice stays expired or cancelled if and only if none of its payments still
      awaits verification. */
  lemma {:induction false} ExpiredForGoodIff(s: State, i: nat)
    requires Inv(s) && i < |s.invoices| && s.invoices[i].status.InvoiceExpired?
    ensures (forall events :: var st := StatusOf(Exec(s, events), i);
               st == Some(InvoiceExpired) || st == Some(InvoiceCancelled))
      <==> Payment(i, UnderVerification) !in s.payments
  {
    if Payment(i, UnderVerification) in s.payments {
      var p :| 0 <= p < |s.payments| && s.payments[p] == Payment(i, UnderVerification);
      Reopens(s, i, p);
    } else {
      forall events ensures var st := StatusOf(Exec(s, events), i);
        st == Some(InvoiceExpired) || st == Some(InvoiceCancelled)
      {
        RunQuiet(s, events, i);
      }
    }
  }

  // ----- when an order can still come -----

  ghost predicate OrderPossible(s: State, i: nat) {
    exists events :: Orders.HasOrder(Exec(s, events).orders, i)
  }

  lemma {:induction false} PossibleBefore(s: State, e: Event, i: nat)
    requires OrderPossible(Apply(s, e), i)
    ensures OrderPossible(s, i)
  {
    var events :| Orders.HasOrder(Exec(Apply(s, e), events).orders, i);
    assert ([e] + events)[1..] == events;
    assert Exec(s, [e] + events) == Exec(Apply(s, e), events);
  }

  /** The invoice is for a listing, which exists. */
  predicate ForListing(s: State, i: nat) {
    i < |s.invoices| && s.invoices[i].listing.Some? && s.invoices[i].listing.value in s.listings
  }

  lemma {:induction false} FinishMakesOrder(s: State, i: nat)
    requires ForListing(s, i) && (s.toOrder[i] > 0 || Orders.HasOrder(s.orders, i))
    ensures Orders.HasOrder(Apply(s, Ordering(Orders.FinishConfirmation(i))).orders, i)
  {
    var t := Apply(s, Ordering(Orders.FinishConfirmation(i)));
    if !Orders.HasOrder(s.orders, i) {
      assert t.orders[|s.orders|].invoice == i;
    }
  }

  lemma {:induction false} PossibleNow(s: State, i: nat)
    requires ForListing(s, i) && (s.toOrder[i] > 0 || Orders.HasOrder(s.orders, i))
    ensures OrderPossible(s, i)
  {
    var t := Apply(s, Ordering(Orders.FinishConfirmation(i)));
    FinishMakesOrder(s, i);
    assert Orders.HasOrder(Exec(t, []).orders, i);
    PossibleBefore(s, Ordering(Orders.FinishConfirmation(i)), i);
  }

  lemma {:induction false} PossibleByConfirming(s: State, i: nat, p: nat)
    requires ForListing(s, i) && p < |s.payments| && s.payments[p] == Payment(i, UnderVerification)
    ensures OrderPossible(s, i)
  {
    var e := Paying(Payments.Confirm(p));
    PossibleNow(Apply(s, e), i);
    PossibleBefore(s, e, i);
  }

  lemma {:induction false} PossibleByPaying(s: State, i: nat)
    requires ForListing(s, i) && Payments.IsPayable(s.invoices[i].status)
    ensures OrderPossible(s, i)
  {
    var e := Paying(Payments.Submit(s.invoices[i].user, i));
    PossibleByConfirming(Apply(s, e), i, |s.payments|);
    PossibleBefore(s, e, i);
  }

  lemma {:induction false} OrderNeedsWork(s: State, e: Event, i: nat)
    requires !Orders.HasOrder(s.orders, i) && s.toOrder[i] == 0
    ensures !Orders.HasOrder(Apply(s, e).orders, i)
  {
    match e {
      case Invoicing(k) => InvoicingFrame(s, k);
      case Ordering(o) => OrderFromWork(s, o, i);
      case _ =>
    }
  }

  lemma {:induction false} OrderFromWork(s: State, e: Orders.Step, i: nat)
    requires !Orders.HasOrder(s.orders, i) && s.toOrder[i] == 0
    ensures !Orders.HasOrder(Outcome(s, Orders.Call(s, e)).0.orders, i)
  {
    var t := Outcome(s, Orders.Call(s, e)).0;
    forall o | 0 <= o < |t.orders| ensures t.orders[o].invoice != i {
      if o < |s.orders| {
        assert s.orders[o].invoice != i;
      }
    }
  }

  lemma {:induction false} NoOrderEver(s: State, events: seq<Event>, i: nat)
    requires Inv(s) && Quiet(s, i) && s.toOrder[i] == 0 && !Orders.HasOrder(s.orders, i)
    ensures !Orders.HasOrder(Exec(s, events).orders, i)
    decreases |events|
  {
    if events != [] {
      StepQuiet(s, events[0], i);
      StepKeepsInv(s, events[0]);
      OrderNeedsWork(s, events[0], i);
      NoOrderEver(Apply(s, events[0]), events[1..], i);
    }
  }

  /** An invoice for a listing can still get an order if and only if it has one, one is owed, a
      payment awaits verification or one can be submitted. So when a crash comes between the
      confirmation and the order, and no other payment is open, the order never comes. */
  lemma {:induction false} OrderComesIff(s: State, i: nat)
    requires Inv(s) && i < |s.invoices| && s.invoices[i].listing.Some?
    ensures OrderPossible(s, i)
      <==> Orders.HasOrder(s.orders, i) || s.toOrder[i] > 0
           || Payment(i, UnderVerification) in s.payments || Payments.IsPayable(s.invoices[i].status)
  {
    if Orders.HasOrder(s.orders, i) || s.toOrder[i] > 0 {
      PossibleNow(s, i);
    } else if Payment(i, UnderVerification) in s.payments {
      var p :| 0 <= p < |s.payments| && s.payments[p] == Payment(i, UnderVerification);
      PossibleByConfirming(s, i, p);
    } else if Payments.IsPayable(s.invoices[i].status) {
      PossibleByPaying(s, i);
    } else {
      forall events ensures !Orders.HasOrder(Exec(s, events).orders, i) {
        NoOrderEver(s, events, i);
      }
    }
  }

  /** confirmPayment commits and yet throws exactly for an invoice without a listing, which a fleet
      invoice may be: its payment is confirmed, and it never gets an order. */
  lemma {:induction false} ConfirmedButThrowsIff(s: State, p: nat)
    requires Inv(s) && Payments.ConfirmInDatabase(s, p).Ok?
    ensures var t, i := Payments.ConfirmInDatabase(s, p).value, s.payments[p].invoice;
      && i < |s.invoices|
      && (Orders.CreateFromInvoice(t, i).Err? <==> s.invoices[i].listing.None?)
  {
    var i := s.payments[p].invoice;
    assert Payments.PaymentsLinked(s.invoices, s.payments);
    if s.invoices[i].listing.None? {
      forall o | 0 <= o < |s.orders| ensures s.orders[o].invoice != i {
        assert IsBacked(s.invoices, s.payments, s.orders[o]);
      }
    }
  }

  // ----- runs without a crash -----

  predicate NoCrash(events: seq<Event>) {
    forall k :: 0 <= k < |events| ==> !events[k].Crash?
  }

  /** Every confirmed invoice for a listing has its order or is owed one. */
  predicate OrderOrOwed(s: State, i: nat) {
    i < |s.invoices| && s.invoices[i].listing.Some? && Payment(i, Confirmed) in s.payments
    ==> s.toOrder[i] > 0 || Orders.HasOrder(s.orders, i)
  }

  ghost predicate NothingLost(s: State) {
    && (forall i: nat :: OrderOrOwed(s, i))
    && (forall o: nat :: Orders.Accounted(s, o) == Orders.Deliveries(s.orders, o))
  }

  lemma {:induction false} PayingLosesNothing(s: State, e: Payments.Step, i: nat)
    requires Inv(s) && OrderOrOwed(s, i)
    ensures OrderOrOwed(Outcome(s, Payments.Call(s, e)).0, i)
  {
    var t := Outcome(s, Payments.Call(s, e)).0;
    PayingFrame(s, e);
    if t != s && Payment(i, Confirmed) in t.payments && Payment(i, Confirmed) !in s.payments {
      var k :| 0 <= k < |t.payments| && t.payments[k] == Payment(i, Confirmed);
      assert e == Payments.Confirm(k);
    }
  }

  lemma {:induction false} OrderStays(before: seq<Order>, after: seq<Order>, i: nat)
    requires Orders.OrdersKept(before, after) && Orders.HasOrder(before, i)
    ensures Orders.HasOrder(after, i)
  {
    var o :| 0 <= o < |before| && before[o].invoice == i;
    assert after[o].invoice == i;
  }

  lemma {:induction false} OrderingLosesNothing(s: State, e: Orders.Step, i: nat)
    requires Inv(s) && OrderOrOwed(s, i)
    ensures OrderOrOwed(Outcome(s, Orders.Call(s, e)).0, i)
  {
    OrderingFrame(s, e);
    if Orders.HasOrder(s.orders, i) {
      Orders.OrderStepKeepsOrders(s, e);
      OrderStays(s.orders, Outcome(s, Orders.Call(s, e)).0.orders, i);
    } else if ForListing(s, i) && s.toOrder[i] > 0 {
      OwedUntilMade(s, e, i);
    }
  }

  lemma {:induction false} OwedUntilMade(s: State, e: Orders.Step, i: nat)
    requires ForListing(s, i) && s.toOrder[i] > 0
    ensures var t := Outcome(s, Orders.Call(s, e)).0; t.toOrder[i] > 0 || Orders.HasOrder(t.orders, i)
  {
    if e == Orders.FinishConfirmation(i) {
      FinishMakesOrder(s, i);
    } else {
      OrdersDoneOnce(s, e, i);
    }
  }

  lemma {:induction false} InvoicingLosesNothing(s: State, e: Invoices.Step, i: nat)
    requires Inv(s) && OrderOrOwed(s, i)
    ensures OrderOrOwed(Outcome(s, Invoices.Call(s, e)).0, i)
  {
    InvoicingFrame(s, e);
    InvoicingClosedOrNew(s, e);
  }

  lemma {:induction false} StepLosesNoOrder(s: State, e: Event, i: nat)
    requires Inv(s) && OrderOrOwed(s, i) && !e.Crash?
    ensures OrderOrOwed(Apply(s, e), i)
  {
    match e {
      case Invoicing(k) => InvoicingLosesNothing(s, k, i);
      case Paying(p) => PayingLosesNothing(s, p, i);
      case Ordering(o) => OrderingLosesNothing(s, o, i);
      case Booked(b) => BookedFrame(s, b);
      case _ =>
    }
  }

  lemma {:induction false} StepLosesNoMetric(s: State, e: Event, o: nat)
    requires Inv(s) && !e.Crash?
    ensures Orders.Balanced(s, Apply(s, e), o)
  {
    match e {
      case Invoicing(k) => InvoicingFrame(s, k);
      case Paying(p) => PayingFrame(s, p);
      case Ordering(k) => OrderingKeepsMetrics(s, k, o);
      case Booked(b) => BookedFrame(s, b);
      case _ =>
    }
  }

  lemma {:induction false} RunLosesNothing(s: State, events: seq<Event>)
    requires Inv(s) && NothingLost(s) && NoCrash(events)
    ensures NothingLost(Exec(s, events))
    decreases |events|
  {
    if events != [] {
      var t := Apply(s, events[0]);
      forall i: nat ensures OrderOrOwed(t, i) {
        StepLosesNoOrder(s, events[0], i);
      }
      forall o: nat ensures Orders.Accounted(t, o) == Orders.Deliveries(t.orders, o) {
        StepLosesNoMetric(s, events[0], o);
      }
      StepKeepsInv(s, events[0]);
      RunLosesNothing(t, events[1..]);
    }
  }

  /** In a run without a crash that owes an invoice no order, the invoice, if it is for a listing,
      has an order exactly if it has a confirmed payment. */
  lemma {:induction false} OrdersComplete(events: seq<Event>, i: nat)
    requires NoCrash(events)
    requires var s := Exec(EMPTY, events);
      i < |s.invoices| && s.invoices[i].listing.Some? && s.toOrder[i] == 0
    ensures var s := Exec(EMPTY, events);
      Orders.HasOrder(s.orders, i) <==> Payment(i, Confirmed) in s.payments
  {
    var s := Exec(EMPTY, events);
    EmptyInv();
    RunLosesNothing(EMPTY, events);
    ExecKeepsInv(EMPTY, events);
    assert OrderOrOwed(s, i);
    if Payment(i, Confirmed) !in s.payments {
      NoOrderWithoutPayment(s, i);
    }
  }

  /** In a run without a crash that owes an order no metric, the order has one metric if it was
      delivered and none if not. */
  lemma {:induction false} MetricsComplete(events: seq<Event>, o: nat)
    requires NoCrash(events)
    requires var s := Exec(EMPTY, events); o < |s.orders| && s.toRecord[o] == 0
    ensures var s := Exec(EMPTY, events);
      multiset(s.metrics)[o] == if Delivered in s.orders[o].log then 1 else 0
  {
    var s := Exec(EMPTY, events);
    EmptyInv();
    RunLosesNothing(EMPTY, events);
    assert Orders.Accounted(s, o) == Orders.Deliveries(s.orders, o);
  }

  // ----- how often an order can move -----

  /** The calls of a run that advanced or cancelled the order. */
  function Moves(s: State, events: seq<Event>, o: nat): nat
    decreases |events|
  {
    if events == [] then 0
    else (if DoesMove(s, events[0], o) then 1 else 0) + Moves(Apply(s, events[0]), events[1..], o)
  }

  predicate DoesMove(s: State, e: Event, o: nat) {
    && e.Ordering? && (e.o == Orders.Advance(o) || e.o == Orders.Cancel(o))
    && Orders.Call(s, e.o).Ok?
  }

  function LogLength(s: State, o: nat): nat {
    if o < |s.orders| then |s.orders[o].log| else 0
  }

  lemma {:induction false} MoveIsLogged(s: State, e: Event, o: nat)
    requires o < |s.orders|
    ensures LogLength(Apply(s, e), o) == LogLength(s, o) + if DoesMove(s, e, o) then 1 else 0
  {
    match e {
      case Invoicing(k) => InvoicingFrame(s, k);
      case Ordering(k) => CallIsLogged(s, k, o);
      case _ =>
    }
  }

  lemma {:induction false} CallIsLogged(s: State, k: Orders.Step, o: nat)
    requires o < |s.orders|
    ensures LogLength(Outcome(s, Orders.Call(s, k)).0, o)
         == LogLength(s, o) + if DoesMove(s, Ordering(k), o) then 1 else 0
  {
    match k {
      case FinishConfirmation(invoice) => Orders.CreateIs(s, invoice);
      case _ =>
    }
  }

  lemma {:induction false} MovesAreLogged(s: State, events: seq<Event>, o: nat)
    requires Inv(s) && o < |s.orders|
    ensures LogLength(Exec(s, events), o) == LogLength(s, o) + Moves(s, events, o)
    decreases |events|
  {
    if events != [] {
      MoveIsLogged(s, events[0], o);
      StepKeeps(s, events[0]);
      StepKeepsInv(s, events[0]);
      MovesAreLogged(Apply(s, events[0]), events[1..], o);
    }
  }

  /** Each stage and the cancellation can come once: an order moves no more often than it has
      stages left and one cancellation. */
  lemma {:induction false} MovesAreBounded(s: State, events: seq<Event>, o: nat)
    requires Inv(s) && o < |s.orders|
    ensures LogLength(s, o) + Moves(s, events, o) <= |Orders.Stages(s.orders[o].sellerType)| + 1
    ensures s.orders[o].status.OrderCancelled? ==> Moves(s, events, o) == 0
  {
    var t := Exec(s, events);
    MovesAreLogged(s, events, o);
    ExecKeepsInv(s, events);
    RunKeeps(s, events);
    assert Orders.Tracked(t.orders[o]) && t.orders[o].sellerType == s.orders[o].sellerType;
    if s.orders[o].status.OrderCancelled? {
      CancelledLogIsFull(s.orders[o], t.orders[o]);
    }
  }

  lemma {:induction false} CancelledLogIsFull(a: Order, b: Order)
    requires Orders.Tracked(a) && Orders.Tracked(b) && a.log <= b.log && a.sellerType == b.sellerType
    requires a.status.OrderCancelled?
    ensures |b.log| == |a.log|
  {
    Orders.StagesWellFormed(b.sellerType);
    var k := |a.log| - 1;
    assert b.log[k] == OrderCancelled;
    assert k < |Orders.Reached(b)| ==> Orders.Reached(b)[k] in Orders.Stages(b.sellerType);
  }

  // ----- reservations and cancelled deliveries -----

  /** No call of the four services reserves a listing. */
  lemma {:induction false} NothingReserves(s: State, e: Event, l: nat)
    requires !e.PutListing?
    requires l in Apply(s, e).listings && Apply(s, e).listings[l].status.Reserved?
    ensures l in s.listings && s.listings[l].status.Reserved?
  {
    match e {
      case Invoicing(i) => InvoicingReservesNothing(s, i, l);
      case Paying(p) => PayingFrame(s, p);
      case Ordering(o) => OrderingFrame(s, o);
      case Booked(b) => BookedFrame(s, b);
      case _ =>
    }
  }

  lemma {:induction false} InvoicingReservesNothing(s: State, e: Invoices.Step, l: nat)
    requires var t := Outcome(s, Invoices.Call(s, e)).0; l in t.listings && t.listings[l].status.Reserved?
    ensures l in s.listings && s.listings[l].status.Reserved?
  {
    var t := Outcome(s, Invoices.Call(s, e)).0;
    InvoicingFrame(s, e);
    assert l in t.listings.Keys;
    match e {
      case Expire(now) => Invoices.ExpireDueExactly(s, now);
      case Fulfill(user, now) => Invoices.FulfillExactly(s, user, now, now);
      case _ =>
    }
  }

  /** An order can be cancelled exactly until it is, even when delivered. A metric it has stays, the
      one metric of the order, and so does the delivery in its log, whatever follows. */
  lemma {:induction false} CancelKeepsDelivery(s: State, o: nat, events: seq<Event>)
    requires Inv(s)
    ensures Orders.CancelOrder(s, o).Ok? <==> o < |s.orders| && !s.orders[o].status.OrderCancelled?
    ensures Orders.CancelOrder(s, o).Ok? ==>
      var t := Exec(s, [Ordering(Orders.Cancel(o))] + events);
      && o < |t.orders| && t.orders[o].status.OrderCancelled?
      && (Delivered in s.orders[o].log ==> Delivered in t.orders[o].log)
      && (multiset(s.metrics)[o] > 0 ==> multiset(t.metrics)[o] == 1)
  {
    if Orders.CancelOrder(s, o).Ok? {
      var cancel := Ordering(Orders.Cancel(o));
      var c := Apply(s, cancel);
      var t := Exec(c, events);
      assert ([cancel] + events)[1..] == events;
      StepKeepsInv(s, cancel);
      ExecKeepsInv(c, events);
      RunKeeps(c, events);
      CancelledForGood(c, events, o);
      if multiset(s.metrics)[o] > 0 {
        MetricStays(c, t, o);
      }
    }
  }

  lemma {:induction false} CancelledForGood(c: State, events: seq<Event>, o: nat)
    requires Inv(c) && o < |c.orders| && c.orders[o].status.OrderCancelled?
    ensures var t := Exec(c, events); o < |t.orders| && t.orders[o] == c.orders[o]
  {
    var t := Exec(c, events);
    RunKeeps(c, events);
    ExecKeepsInv(c, events);
    assert Orders.Tracked(t.orders[o]);
    CancelledLogIsFull(c.orders[o], t.orders[o]);
    assert t.orders[o].log == c.orders[o].log;
  }

  lemma {:induction false} MetricStays(c: State, t: State, o: nat)
    requires c.metrics <= t.metrics && MetricsBounded(t) && multiset(c.metrics)[o] > 0
    ensures multiset(t.metrics)[o] == 1
  {
    assert t.metrics == c.metrics + t.metrics[|c.metrics|..];
    assert Orders.Accounted(t, o) <= Orders.Deliveries(t.orders, o);
  }

  // ----- what can still become of a booking -----

  function BookingOf(s: State, b: nat): Option<Booking> {
    if b < |s.bookings| then Some(s.bookings[b]) else None
  }

  /** Some run takes the booking to a row that meets the condition. */
  ghost predicate CanBecome(s: State, b: nat, wanted: Booking -> bool) {
    exists events :: var row := BookingOf(Exec(s, events), b); row.Some? && wanted(row.value)
  }

  lemma {:induction false} CanBecomeAfter(s: State, e: Event, b: nat, wanted: Booking -> bool)
    requires CanBecome(Apply(s, e), b, wanted)
    ensures CanBecome(s, b, wanted)
  {
    var events :| var row := BookingOf(Exec(Apply(s, e), events), b); row.Some? && wanted(row.value);
    assert ([e] + events)[1..] == events;
    assert Exec(s, [e] + events) == Exec(Apply(s, e), events);
  }

  lemma {:induction false} IsAlready(s: State, b: nat, wanted: Booking -> bool)
    requires b < |s.bookings| && wanted(s.bookings[b])
    ensures CanBecome(s, b, wanted)
  {
    assert BookingOf(Exec(s, []), b) == Some(s.bookings[b]);
  }

  lemma {:induction false} BecomesByStep(s: State, e: Event, b: nat, wanted: Booking -> bool)
    requires b < |s.bookings| && |Apply(s, e).bookings| == |s.bookings| && wanted(Apply(s, e).bookings[b])
    ensures CanBecome(s, b, wanted)
  {
    IsAlready(Apply(s, e), b, wanted);
    CanBecomeAfter(s, e, b, wanted);
  }

  /** A booking can be confirmed if and only if it was not cancelled, proof or no proof. */
  lemma {:induction false} BookingConfirmableIff(s: State, b: nat)
    requires Inv(s) && b < |s.bookings|
    ensures CanBecome(s, b, (r: Booking) => r.status.BookingConfirmed?) <==> !s.bookings[b].status.BookingCancelled?
  {
    var wanted := (r: Booking) => r.status.BookingConfirmed?;
    var row := s.bookings[b];
    assert Bookings.IsSound(row);
    if row.status.BookingConfirmed? {
      IsAlready(s, b, wanted);
    } else if row.status.BookingUnderVerification? {
      BecomesByStep(s, Booked(Bookings.Confirm(b)), b, wanted);
    } else if row.status.BookingAwaitingPayment? {
      var submit := Booked(Bookings.Submit(row.user, b, []));
      BecomesByStep(Apply(s, submit), Booked(Bookings.Confirm(b)), b, wanted);
      CanBecomeAfter(s, submit, b, wanted);
    } else {
      forall events ensures BookingOf(Exec(s, events), b) == Some(row) {
        RunKeeps(s, events);
        assert Bookings.MayBecome(row, Exec(s, events).bookings[b]);
      }
    }
  }

  /** A booking can still be cancelled if and only if it has no proof and is not confirmed: a
      payment submitted without a proof can be rejected, and the booking then cancelled. */
  lemma {:induction false} BookingCancellableIff(s: State, b: nat)
    requires Inv(s) && b < |s.bookings| && !s.bookings[b].status.BookingCancelled?
    ensures CanBecome(s, b, (r: Booking) => r.status.BookingCancelled?)
      <==> s.bookings[b].proofs == [] && !s.bookings[b].status.BookingConfirmed?
  {
    var wanted := (r: Booking) => r.status.BookingCancelled?;
    var row := s.bookings[b];
    assert Bookings.IsSound(row);
    if row.proofs == [] && !row.status.BookingConfirmed? {
      var cancel := Booked(Bookings.CancelByBuyer(row.user, b));
      if row.status.BookingAwaitingPayment? {
        BecomesByStep(s, cancel, b, wanted);
      } else {
        var reject := Booked(Bookings.Reject(b, None));
        BecomesByStep(Apply(s, reject), cancel, b, wanted);
        CanBecomeAfter(s, reject, b, wanted);
      }
    } else {
      forall events ensures var r := BookingOf(Exec(s, events), b); r.Some? && !r.value.status.BookingCancelled? {
        RunKeeps(s, events);
        assert Bookings.MayBecome(row, Exec(s, events).bookings[b]);
      }
    }
  }

  /** Its fee can still change under exactly the same condition. */
  lemma {:induction false} FeeChangeableIff(s: State, b: nat)
    requires Inv(s) && b < |s.bookings| && !s.bookings[b].status.BookingCancelled?
    ensures CanBecome(s, b, (r: Booking) => r.feeRwf != s.bookings[b].feeRwf)
      <==> s.bookings[b].proofs == [] && !s.bookings[b].status.BookingConfirmed?
  {
    var row := s.bookings[b];
    var wanted := (r: Booking) => r.feeRwf != row.feeRwf;
    assert Bookings.IsSound(row);
    if row.proofs == [] && !row.status.BookingConfirmed? {
      var update := Booked(Bookings.UpdateFee(b, Some(if row.feeRwf == 1.0 then 2.0 else 1.0), None, 1.0));
      if row.status.BookingAwaitingPayment? {
        BecomesByStep(s, update, b, wanted);
      } else {
        var reject := Booked(Bookings.Reject(b, None));
        BecomesByStep(Apply(s, reject), update, b, wanted);
        CanBecomeAfter(s, reject, b, wanted);
      }
    } else {
      forall events ensures var r := BookingOf(Exec(s, events), b); r.Some? && !wanted(r.value) {
        RunKeeps(s, events);
        assert Bookings.MayBecome(row, Exec(s, events).bookings[b]);
      }
    }
  }
}
