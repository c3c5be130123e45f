/** Bookings of a vehicle against a fee (src/modules/bookings/bookings.service.ts and
    booking.constants.ts). */
module Bookings {
  import opened Prelude
  import opened Marketplace
  import opened Commerce
  import Money

  predicate IsActive(status: BookingStatus) {
    status.BookingAwaitingPayment? || status.BookingPaymentSubmitted? || status.BookingUnderVerification?
    || status.BookingConfirmed?
  }

  predicate HoldsBooking(bookings: seq<Booking>, user: nat, listing: nat) {
    exists b :: 0 <= b < |bookings| && bookings[b].user == user && bookings[b].listing == listing
                && IsActive(bookings[b].status)
  }

  function NewBooking(user: nat, listing: nat, feeRwf: real, rate: real): Booking {
    Booking(user, listing, feeRwf, Money.RwfToUsd(feeRwf, rate), BookingAwaitingPayment, None, [])
  }

  function RequestBooking(s: State, user: nat, listing: nat, feeRwf: real, rate: real): Result<State> {
    if user !in s.users || !s.users[user].hasBuyerProfile then Err(BadRequest)
    else if listing !in s.listings then Err(NotFound)
    else if !s.listings[listing].status.Published? then Err(BadRequest)
    else if HoldsBooking(s.bookings, user, listing) then Err(BadRequest)
    else if HoldsInvoice(s.invoices, user, listing) then Err(BadRequest)
    else Ok(s.(bookings := s.bookings + [NewBooking(user, listing, feeRwf, rate)]))
  }

  predicate CanSubmitPayment(b: Booking) {
    b.status.BookingAwaitingPayment?
    || (b.status.BookingRejected? && b.rejectionReason.Some? && b.rejectionReason.value != "")
  }

  function Submitted(b: Booking, proofs: seq<string>): Booking {
    b.(proofs := b.proofs + proofs, status := BookingUnderVerification, rejectionReason := None)
  }

  function SubmitPayment(s: State, user: nat, booking: nat, proofs: seq<string>): Result<State> {
    if booking >= |s.bookings| then Err(NotFound)
    else if s.bookings[booking].user != user then Err(Forbidden)
    else if !CanSubmitPayment(s.bookings[booking]) then Err(BadRequest)
    else Ok(s.(bookings := s.bookings[booking := Submitted(s.bookings[booking], proofs)]))
  }

  function CancelBookingByBuyer(s: State, user: nat, booking: nat): Result<State> {
    if booking >= |s.bookings| then Err(NotFound)
    else if s.bookings[booking].user != user then Err(Forbidden)
    else if s.bookings[booking].status.BookingCancelled? then Ok(s)
    else if !s.bookings[booking].status.BookingAwaitingPayment? then Err(BadRequest)
    else if |s.bookings[booking].proofs| > 0 then Err(BadRequest)
    else Ok(s.(bookings := s.bookings[booking := s.bookings[booking].(status := BookingCancelled)]))
  }

  predicate IsVerifiable(status: BookingStatus) {
    status.BookingUnderVerification? || status.BookingPaymentSubmitted?
  }

  function ConfirmBooking(s: State, booking: nat): Result<State> {
    if booking >= |s.bookings| then Err(NotFound)
    else if !IsVerifiable(s.bookings[booking].status) then Err(BadRequest)
    else Ok(s.(bookings := s.bookings[booking := s.bookings[booking].(status := BookingConfirmed)]))
  }

  function RejectBooking(s: State, booking: nat, reason: Option<string>): Result<State> {
    if booking >= |s.bookings| then Err(NotFound)
    else if !IsVerifiable(s.bookings[booking].status) then Err(BadRequest)
    else Ok(s.(bookings := s.bookings[booking := s.bookings[booking].(status := BookingAwaitingPayment,
                                                                       rejectionReason := reason)]))
  }

  /** The fee asked for, in francs. */
  function NextFee(feeRwf: Option<real>, feeUsd: Option<real>, rate: real): Option<real> {
    if feeRwf.Some? then feeRwf
    else
      match feeUsd
      case None => None
      case Some(usd) => Some(Round(usd * rate) as real)
  }

  function UpdateBookingFee(
    s: State, booking: nat, feeRwf: Option<real>, feeUsd: Option<real>, rate: real): Result<State>
  {
    if booking >= |s.bookings| then Err(NotFound)
    else if !s.bookings[booking].status.BookingAwaitingPayment? then Err(BadRequest)
    else if |s.bookings[booking].proofs| > 0 then Err(BadRequest)
    else
      var fee := NextFee(feeRwf, feeUsd, rate);
      if fee.None? || fee.value <= 0.0 then Err(BadRequest)
      else Ok(s.(bookings := s.bookings[booking := s.bookings[booking].(feeRwf := fee.value,
                                                                         feeUsd := Money.RwfToUsd(fee.value, rate))]))
  }

  datatype Step =
    | Request(user: nat, listing: nat, fee: real, rate: real)
    | Submit(user: nat, booking: nat, proofs: seq<string>)
    | CancelByBuyer(user: nat, booking: nat)
    | Confirm(booking: nat)
    | Reject(booking: nat, reason: Option<string>)
    | UpdateFee(booking: nat, feeRwf: Option<real>, feeUsd: Option<real>, rate: real)

  function Call(s: State, e: Step): Result<State> {
    match e
    case Request(user, listing, fee, rate) => RequestBooking(s, user, listing, fee, rate)
    case Submit(user, booking, proofs) => SubmitPayment(s, user, booking, proofs)
    case CancelByBuyer(user, booking) => CancelBookingByBuyer(s, user, booking)
    case Confirm(booking) => ConfirmBooking(s, booking)
    case Reject(booking, reason) => RejectBooking(s, booking, reason)
    case UpdateFee(booking, feeRwf, feeUsd, rate) => UpdateBookingFee(s, booking, feeRwf, feeUsd, rate)
  }

  // ----- what every call keeps -----

  /** The statuses a booking can have. REJECTED, EXPIRED and PAYMENT_SUBMITTED are never written. */
  predicate IsReachable(status: BookingStatus) {
    status.BookingAwaitingPayment? || status.BookingUnderVerification? || status.BookingConfirmed?
    || status.BookingCancelled?
  }

  predicate OneActiveEach(bookings: seq<Booking>) {
    forall a, b :: 0 <= a < b < |bookings| && IsActive(bookings[a].status) && IsActive(bookings[b].status)
      ==> bookings[a].user != bookings[b].user || bookings[a].listing != bookings[b].listing
  }

  /** A booking awaiting verification or confirmed carries no rejection, a cancelled one no proof. */
  predicate IsSound(b: Booking) {
    && IsReachable(b.status)
    && (b.rejectionReason.Some? ==> b.status.BookingAwaitingPayment? || b.status.BookingCancelled?)
    && (b.status.BookingCancelled? ==> b.proofs == [])
  }

  predicate Sound(bookings: seq<Booking>) {
    && OneActiveEach(bookings)
    && forall b :: 0 <= b < |bookings| ==> IsSound(bookings[b])
  }

  /** What a booking may become. */
  predicate MayBecome(b: Booking, c: Booking) {
    && c.user == b.user && c.listing == b.listing
    && b.proofs <= c.proofs
    && (b.status.BookingCancelled? || b.status.BookingConfirmed? ==> c == b)
    && (b.proofs != [] ==> c.feeRwf == b.feeRwf && c.feeUsd == b.feeUsd && !c.status.BookingCancelled?)
  }

  predicate BookingsKept(before: seq<Booking>, after: seq<Booking>) {
    && |before| <= |after|
    && forall b :: 0 <= b < |before| ==> MayBecome(before[b], after[b])
  }

  lemma {:induction false} ReplacedBooking(bookings: seq<Booking>, k: nat, c: Booking)
    requires Sound(bookings) && k < |bookings|
    requires MayBecome(bookings[k], c) && IsSound(c) && (IsActive(c.status) ==> IsActive(bookings[k].status))
    ensures Sound(bookings[k := c]) && BookingsKept(bookings, bookings[k := c])
  {
    var after := bookings[k := c];
    forall b | 0 <= b < |bookings| ensures IsSound(after[b]) && MayBecome(bookings[b], after[b]) {
      assert IsSound(bookings[b]);
    }
  }

  lemma {:induction false} AddedBooking(bookings: seq<Booking>, c: Booking)
    requires Sound(bookings) && IsSound(c) && !HoldsBooking(bookings, c.user, c.listing)
    ensures Sound(bookings + [c]) && BookingsKept(bookings, bookings + [c])
  {
    var after := bookings + [c];
    assert forall b :: 0 <= b < |bookings| ==> after[b] == bookings[b];
  }

  lemma {:induction false} BookingStepKeepsSound(s: State, e: Step)
    requires Sound(s.bookings)
    ensures var r := Call(s, e);
      r.Ok? ==> Sound(r.value.bookings) && BookingsKept(s.bookings, r.value.bookings)
  {
    var r := Call(s, e);
    if r.Ok? {
      if e.Request? {
        AddedBooking(s.bookings, NewBooking(e.user, e.listing, e.fee, e.rate));
      } else {
        var c := r.value.bookings[e.booking];
        ReplacedBooking(s.bookings, e.booking, c);
      }
    }
  }

  lemma {:induction false} MayBecomeInTurn(b: Booking, c: Booking, d: Booking)
    requires MayBecome(b, c) && MayBecome(c, d)
    ensures MayBecome(b, d)
  {
    assert |b.proofs| <= |c.proofs|;
  }
}
