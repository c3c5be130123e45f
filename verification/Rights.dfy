/** Whose call may change what: the guards of the services, across all of their calls. */
module Rights {
  import opened Prelude
  import opened Marketplace
  import opened Commerce
  import opened Protocol
  import Invoices
  import Payments
  import Orders
  import Bookings

  // ----- a buyer's calls change what is his -----

  /** The calls that a buyer makes for himself. */
  function Caller(e: Event): Option<nat> {
    match e
    case Invoicing(i) =>
      (match i
       case Request(user, _, _) => Some(user)
       case CancelByBuyer(user, _) => Some(user)
       case Fulfill(user, _) => Some(user)
       case _ => None)
    case Paying(p) => (match p case Submit(user, _) => Some(user) case _ => None)
    case Booked(b) =>
      (match b
       case Request(user, _, _, _) => Some(user)
       case Submit(user, _, _) => Some(user)
       case CancelByBuyer(user, _) => Some(user)
       case _ => None)
    case _ => None
  }

  /** New rows are the user's, and so is every row that changed. */
  predicate OnlyOwnInvoices(before: seq<Invoice>, after: seq<Invoice>, user: nat) {
    && |before| <= |after|
    && (forall i :: 0 <= i < |before| && before[i].user != user ==> after[i] == before[i])
    && (forall i :: |before| <= i < |after| ==> after[i].user == user)
  }

  predicate OnlyOwnBookings(before: seq<Booking>, after: seq<Booking>, user: nat) {
    && |before| <= |after|
    && (forall b :: 0 <= b < |before| && before[b].user != user ==> after[b] == before[b])
    && (forall b :: |before| <= b < |after| ==> after[b].user == user)
  }

  /** Every new payment is for an invoice of the user; old ones are not touched. */
  predicate OnlyOwnPayments(s: State, after: seq<Payment>, user: nat) {
    && s.payments <= after
    && forall k :: |s.payments| <= k < |after| ==>
         after[k].invoice < |s.invoices| && s.invoices[after[k].invoice].user == user
  }

  lemma {:induction false} InvoicingIsOwn(s: State, i: Invoices.Step)
    requires Caller(Invoicing(i)).Some?
    ensures OnlyOwnInvoices(s.invoices, Outcome(s, Invoices.Call(s, i)).0.invoices, Caller(Invoicing(i)).value)
  {
    match i {
      case Fulfill(user, now) =>
        Invoices.FulfillExactly(s, user, now, now);
        var rows := Invoices.FulfillPendingBuyInquiries(s, user, now).invoices;
        forall k | |s.invoices| <= k < |rows| ensures rows[k].user == user {
          assert Invoices.IsGrant(s, rows[k], user, Invoices.InquiredListings(s.inquiries, user), now);
        }
      case _ =>
    }
  }

  /** A buyer's call adds and changes only invoices, payments and bookings of his own, and leaves the
      orders and the metrics alone. */
  lemma {:induction false} CallsAreOwn(s: State, e: Event)
    requires Caller(e).Some?
    ensures var t, user := Apply(s, e), Caller(e).value;
      && OnlyOwnInvoices(s.invoices, t.invoices, user) && OnlyOwnBookings(s.bookings, t.bookings, user)
      && OnlyOwnPayments(s, t.payments, user)
      && t.orders == s.orders && t.metrics == s.metrics
  {
    match e {
      case Invoicing(i) => InvoicingFrame(s, i); InvoicingIsOwn(s, i);
      case Paying(p) => PayingFrame(s, p);
      case Booked(b) => BookedFrame(s, b); BookedIsOwn(s, b);
    }
  }

  lemma {:induction false} BookedIsOwn(s: State, b: Bookings.Step)
    requires Caller(Booked(b)).Some?
    ensures OnlyOwnBookings(s.bookings, Outcome(s, Bookings.Call(s, b)).0.bookings, Caller(Booked(b)).value)
  {
  }

  // ----- for whom and for what an invoice is issued -----

  /** An invoice that a request or a fulfilment issued: to an account that may trade, for a vehicle on
      sale with a price, in the channel that it is sold in. */
  predicate ProperlyIssued(s: State, row: Invoice, user: nat) {
    && row.user == user && user in s.users
    && s.users[user].isActive && !s.users[user].deleted && s.users[user].hasBuyerProfile
    && row.listing.Some? && row.listing.value in s.listings
    && var l := s.listings[row.listing.value];
       l.status.Published? && !l.deleted && l.priced && row.sellerType == Some(l.sellerType)
  }

  lemma {:induction false} RequestIssues(s: State, user: nat, listing: nat, now: int)
    ensures var r := Invoices.RequestInvoice(s, user, listing, now);
      && (r.Ok? ==> r.value == s.(invoices := r.value.invoices)
                    && |r.value.invoices| == |s.invoices| + 1 && s.invoices <= r.value.invoices
                    && r.value.invoices[|s.invoices|].listing == Some(listing)
                    && ProperlyIssued(s, r.value.invoices[|s.invoices|], user))
  {
  }

  /** The user has an invoice for the listing that waits for a payment or its verification. */
  predicate HasOpenInvoice(s: State, user: nat, listing: nat) {
    exists i :: 0 <= i < |s.invoices| && s.invoices[i].user == user && s.invoices[i].listing == Some(listing)
      && (s.invoices[i].status.Sent? || s.invoices[i].status.AwaitingPayment?
          || s.invoices[i].status.PaymentSubmitted? || s.invoices[i].status.PartiallyPaid?)
  }

  lemma {:induction false} SameInvoiced(s: State, user: nat, listing: nat)
    requires Inv(s)
    ensures HasOpenInvoice(s, user, listing) <==> HoldsInvoice(s.invoices, user, listing)
  {
    if HoldsInvoice(s.invoices, user, listing) {
      var i :| 0 <= i < |s.invoices| && s.invoices[i].user == user && s.invoices[i].listing == Some(listing)
        && IsActiveInvoice(s.invoices[i].status);
      assert Payments.Explained(s.invoices[i].status, s.payments, i);
    }
  }

  /** In every reachable state an invoice can be asked for exactly by an account that may trade, for a
      vehicle on sale with a price, and while no own invoice holds it. */
  lemma {:induction false} MayRequestIff(s: State, user: nat, listing: nat, now: int)
    requires Inv(s)
    ensures Invoices.RequestInvoice(s, user, listing, now).Ok?
      <==> user in s.users && s.users[user].isActive && !s.users[user].deleted && s.users[user].hasBuyerProfile
           && listing in s.listings && s.listings[listing].status.Published?
           && !s.listings[listing].deleted && s.listings[listing].priced
           && !HasOpenInvoice(s, user, listing)
  {
    SameInvoiced(s, user, listing);
  }

  /** The inquiry asks for a purchase of the listing by the user. */
  predicate Asks(q: Inquiry, user: nat, listing: nat) {
    q == Inquiry(Some(user), Buy, Some(listing))
  }

  ghost predicate IsAsked(inquiries: seq<Inquiry>, user: nat, listing: nat) {
    exists k :: 0 <= k < |inquiries| && Asks(inquiries[k], user, listing)
  }

  lemma {:induction false} WantedIffAsked(inquiries: seq<Inquiry>, user: nat, listing: nat)
    ensures listing in Invoices.InquiredListings(inquiries, user) <==> IsAsked(inquiries, user, listing)
  {
    if listing in Invoices.InquiredListings(inquiries, user) {
      var k :| 0 <= k < |inquiries| && Invoices.IsPending(inquiries[k], user) && inquiries[k].listing == Some(listing);
      assert Asks(inquiries[k], user, listing);
    }
    if IsAsked(inquiries, user, listing) {
      var k :| 0 <= k < |inquiries| && Asks(inquiries[k], user, listing);
      assert Invoices.IsPending(inquiries[k], user);
    }
  }

  /** Fulfilment issues only what a purchase inquiry of the user asks for, and serves every one that
      can be: for a user who may trade, every vehicle asked for that is on sale with a price is
      then held by an active invoice. */
  lemma {:induction false} FulfillServes(s: State, user: nat, now: int, i: nat, listing: nat)
    ensures var t := Invoices.FulfillPendingBuyInquiries(s, user, now);
      && (|s.invoices| <= i < |t.invoices| ==>
            ProperlyIssued(s, t.invoices[i], user) && IsAsked(s.inquiries, user, t.invoices[i].listing.value))
      && (IsAsked(s.inquiries, user, listing) && user in s.users
          && s.users[user].isActive && !s.users[user].deleted && s.users[user].hasBuyerProfile
          && listing in s.listings && s.listings[listing].status.Published?
          && !s.listings[listing].deleted && s.listings[listing].priced
          ==> HoldsInvoice(t.invoices, user, listing))
  {
    var t := Invoices.FulfillPendingBuyInquiries(s, user, now);
    var wanted := Invoices.InquiredListings(s.inquiries, user);
    Invoices.FulfillExactly(s, user, now, now);
    if |s.invoices| <= i < |t.invoices| {
      assert Invoices.IsGrant(s, t.invoices[i], user, wanted, now);
      WantedIffAsked(s.inquiries, user, t.invoices[i].listing.value);
    }
    WantedIffAsked(s.inquiries, user, listing);
  }

  /** A fleet invoice needs a buyer, a positive total, given in francs or else converted, and a
      vehicle that exists if it names one. */
  lemma {:induction false} FleetIssuedIff(
    s: State, user: nat, vehicle: Option<nat>, rwf: Option<real>, usd: Option<real>, rate: real, now: int)
    ensures var r := Invoices.CreateFleetInvoice(s, user, vehicle, rwf, usd, rate, now);
      && (r.Ok? <==>
            && user in s.users
            && (if rwf.Some? then rwf.value > 0.0 else usd.Some? && Round(usd.value * rate) > 0)
            && (vehicle.Some? ==> vehicle.value in s.listings))
      && (r.Ok? ==>
            r.value == s.(invoices := s.invoices + [Invoice(user, vehicle, None, Sent, now + 7 * 86_400_000)]))
  {
    assert usd.None? ==> Round(usd.GetOr(0.0) * rate) == 0;
  }

  /** An order of a fleet invoice goes the way of the channel that its vehicle is sold in when the
      order is made; one of an invoice asked for, of the channel at that time. */
  lemma {:induction false} OrderGoesByChannel(s: State, i: nat)
    requires Orders.CreateFromInvoice(s, i).Ok? && !Orders.HasOrder(s.orders, i)
    ensures var t := Orders.CreateFromInvoice(s, i).value;
      && i < |s.invoices| && s.invoices[i].listing.Some? && s.invoices[i].listing.value in s.listings
      && |t.orders| == |s.orders| + 1
      && t.orders[|s.orders|].sellerType ==
           match s.invoices[i].sellerType
           case Some(channel) => channel
           case None => s.listings[s.invoices[i].listing.value].sellerType
  {
  }

  // ----- paying again, and closing -----

  /** A submitted payment blocks another one until an admin rejects it or marks it partial; then the
      owner may pay again, and nobody else. */
  lemma {:induction false} PaysInTurn(s: State, user: nat, i: nat, p: nat, other: nat)
    ensures var r := Payments.SubmitPayment(s, user, i);
      r.Ok? ==> Payments.SubmitPayment(r.value, user, i) == Err(BadRequest)
    ensures var r := Payments.RejectPayment(s, p);
      r.Ok? && s.payments[p].invoice < |s.invoices| ==>
        (Payments.SubmitPayment(r.value, other, s.payments[p].invoice).Ok?
         <==> other == s.invoices[s.payments[p].invoice].user)
    ensures var r := Payments.MarkPartial(s, p);
      r.Ok? && s.payments[p].invoice < |s.invoices| ==>
        (Payments.SubmitPayment(r.value, other, s.payments[p].invoice).Ok?
         <==> other == s.invoices[s.payments[p].invoice].user)
  {
  }

  /** An admin can cancel every reachable invoice that is neither cancelled nor confirmed. */
  lemma {:induction false} AdminCancelsIff(s: State, i: nat)
    requires Inv(s)
    ensures Invoices.CancelInvoice(s, i).Ok?
      <==> i < |s.invoices| && !s.invoices[i].status.InvoiceCancelled? && !s.invoices[i].status.PaymentConfirmed?
  {
    if i < |s.invoices| {
      assert Payments.Explained(s.invoices[i].status, s.payments, i);
    }
  }

  /** In every reachable state a payment can be confirmed, rejected or marked partial exactly while it
      is neither confirmed nor rejected. */
  lemma {:induction false} VerifiableIff(s: State, p: nat)
    requires Inv(s)
    ensures var open := p < |s.payments| && !s.payments[p].status.Confirmed? && !s.payments[p].status.PaymentRejected?;
      && (Payments.ConfirmInDatabase(s, p).Ok? <==> open)
      && (Payments.RejectPayment(s, p).Ok? <==> open)
      && (Payments.MarkPartial(s, p).Ok? <==> open)
  {
    assert Payments.PaymentsLinked(s.invoices, s.payments);
  }

  // ----- which exception -----

  /** A call about a row that does not exist is answered with NotFound, and only that; one about
      another user's row, by a buyer, with Forbidden, and only that. */
  lemma {:induction false} RowErrors(
    s: State, user: nat, id: nat, reason: Option<string>, rwf: Option<real>, usd: Option<real>, rate: real,
    proofs: seq<string>)
    ensures Payments.ConfirmInDatabase(s, id) == Err(NotFound) <==> id >= |s.payments|
    ensures Payments.RejectPayment(s, id) == Err(NotFound) <==> id >= |s.payments|
    ensures Payments.MarkPartial(s, id) == Err(NotFound) <==> id >= |s.payments|
    ensures Invoices.CancelInvoice(s, id) == Err(NotFound) <==> id >= |s.invoices|
    ensures Orders.AdvanceInDatabase(s, id) == Err(NotFound) <==> id >= |s.orders|
    ensures Orders.CancelOrder(s, id) == Err(NotFound) <==> id >= |s.orders|
    ensures Bookings.ConfirmBooking(s, id) == Err(NotFound) <==> id >= |s.bookings|
    ensures Bookings.RejectBooking(s, id, reason) == Err(NotFound) <==> id >= |s.bookings|
    ensures Bookings.UpdateBookingFee(s, id, rwf, usd, rate) == Err(NotFound) <==> id >= |s.bookings|
    ensures OwnerErrors(Payments.SubmitPayment(s, user, id), id < |s.invoices|, user,
                        if id < |s.invoices| then s.invoices[id].user else user)
    ensures OwnerErrors(Invoices.CancelInvoiceByBuyer(s, user, id), id < |s.invoices|, user,
                        if id < |s.invoices| then s.invoices[id].user else user)
    ensures OwnerErrors(Bookings.SubmitPayment(s, user, id, proofs), id < |s.bookings|, user,
                        if id < |s.bookings| then s.bookings[id].user else user)
    ensures OwnerErrors(Bookings.CancelBookingByBuyer(s, user, id), id < |s.bookings|, user,
                        if id < |s.bookings| then s.bookings[id].user else user)
  {
  }

  predicate OwnerErrors(r: Result<State>, found: bool, user: nat, owner: nat) {
    && (r == Err(NotFound) <==> !found)
    && (r == Err(Forbidden) <==> found && owner != user)
  }

  /** A request of an account that may not trade is forbidden; of one that may and has a profile, for
      a vehicle not on sale, not found. */
  lemma {:induction false} RequestErrors(s: State, user: nat, listing: nat, now: int, fee: real, rate: real)
    ensures var trades := user in s.users && s.users[user].isActive && !s.users[user].deleted;
      var onSale := listing in s.listings && s.listings[listing].status.Published? && !s.listings[listing].deleted;
      var r := Invoices.RequestInvoice(s, user, listing, now);
      && (r == Err(Forbidden) <==> !trades)
      && (r == Err(NotFound) <==> trades && s.users[user].hasBuyerProfile && !onSale)
    ensures Bookings.RequestBooking(s, user, listing, fee, rate) == Err(NotFound)
      <==> user in s.users && s.users[user].hasBuyerProfile && listing !in s.listings
    ensures Bookings.RequestBooking(s, user, listing, fee, rate) != Err(Forbidden)
  {
  }

  /** Cancelling a booking again succeeds and changes nothing. */
  lemma {:induction false} CancelTwice(s: State, user: nat, b: nat)
    requires Bookings.CancelBookingByBuyer(s, user, b).Ok?
    ensures var t := Bookings.CancelBookingByBuyer(s, user, b).value;
      b < |t.bookings| && t.bookings[b].status.BookingCancelled?
      && Bookings.CancelBookingByBuyer(t, user, b) == Ok(t)
  {
  }
}
