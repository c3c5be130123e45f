/** What a booking keeps from its request through payment and rejection: proofs, reasons, fees. */
module BookingLife {
  import opened Prelude
  import opened Marketplace
  import opened Commerce
  import opened Protocol
  import Money
  import Bookings
  import Guarantees
  import Rights

  /** A proof once submitted is on the booking for good: whatever follows, no proof is lost, the
      booking is not cancelled, and its fee is what it was. */
  lemma {:induction false} ProofsStay(s: State, user: nat, b: nat, proofs: seq<string>, events: seq<Event>)
    requires Inv(s) && proofs != [] && Bookings.SubmitPayment(s, user, b, proofs).Ok?
    ensures var t := Exec(Bookings.SubmitPayment(s, user, b, proofs).value, events);
      && b < |s.bookings| <= |t.bookings|
      && s.bookings[b].proofs + proofs <= t.bookings[b].proofs
      && !t.bookings[b].status.BookingCancelled?
      && t.bookings[b].feeRwf == s.bookings[b].feeRwf && t.bookings[b].feeUsd == s.bookings[b].feeUsd
  {
    var paid := Bookings.SubmitPayment(s, user, b, proofs).value;
    BookedKeepsInv(s, Bookings.Submit(user, b, proofs));
    Guarantees.RunKeeps(paid, events);
    assert Bookings.MayBecome(paid.bookings[b], Exec(paid, events).bookings[b]);
  }

  /** A rejection shows its reason and keeps the proofs; its owner may pay again, which adds to the
      proofs and clears the reason. */
  lemma {:induction false} RejectedAndPaidAgain(
    s: State, b: nat, reason: Option<string>, proofs: seq<string>)
    requires Bookings.RejectBooking(s, b, reason).Ok?
    ensures var t := Bookings.RejectBooking(s, b, reason).value;
      && b < |t.bookings| && t.bookings[b].rejectionReason == reason
      && t.bookings[b].proofs == s.bookings[b].proofs
      && var again := Bookings.SubmitPayment(t, s.bookings[b].user, b, proofs);
         && again.Ok? && again.value.bookings[b].rejectionReason.None?
         && again.value.bookings[b].proofs == s.bookings[b].proofs + proofs
         && Bookings.RejectBooking(again.value, b, reason).Ok?
  {
  }

  // ----- who may book -----

  /** The user has a booking for the listing that is neither cancelled, rejected nor expired. */
  predicate HasBooked(s: State, user: nat, listing: nat) {
    exists b :: 0 <= b < |s.bookings| && s.bookings[b].user == user && s.bookings[b].listing == listing
      && !s.bookings[b].status.BookingCancelled? && !s.bookings[b].status.BookingRejected?
      && !s.bookings[b].status.BookingExpired?
  }

  /** In every reachable state a user may book exactly a published listing, with a buyer profile, and
      while neither an own booking nor an own invoice holds it. */
  lemma {:induction false} MayBookIff(s: State, user: nat, listing: nat, fee: real, rate: real)
    requires Inv(s)
    ensures Bookings.RequestBooking(s, user, listing, fee, rate).Ok?
      <==> user in s.users && s.users[user].hasBuyerProfile
           && listing in s.listings && s.listings[listing].status.Published?
           && !HasBooked(s, user, listing) && !Rights.HasOpenInvoice(s, user, listing)
  {
    SameBooked(s, user, listing);
    Rights.SameInvoiced(s, user, listing);
  }

  lemma {:induction false} SameBooked(s: State, user: nat, listing: nat)
    ensures HasBooked(s, user, listing) <==> Bookings.HoldsBooking(s.bookings, user, listing)
  {
    if HasBooked(s, user, listing) {
      var b :| 0 <= b < |s.bookings| && s.bookings[b].user == user && s.bookings[b].listing == listing
        && !s.bookings[b].status.BookingCancelled? && !s.bookings[b].status.BookingRejected?
        && !s.bookings[b].status.BookingExpired?;
      assert Bookings.IsActive(s.bookings[b].status);
    }
  }

  // ----- fees -----

  /** The two columns of a fee say the same at the rate, to half a cent. */
  predicate FeesAgree(b: Booking, rate: real) {
    rate > 0.0 ==> -0.005 <= b.feeUsd - b.feeRwf / rate <= 0.005
  }

  lemma {:induction false} ConversionIsNear(rwf: real, rate: real)
    requires rate > 0.0
    ensures -0.005 <= Money.RwfToUsd(rwf, rate) - rwf / rate <= 0.005
  {
    RoundIsNear(rwf / rate * 100.0);
  }

  /** A booking is made at the platform's fee. */
  lemma {:induction false} RequestedFee(s: State, user: nat, listing: nat, fee: real, rate: real)
    requires Bookings.RequestBooking(s, user, listing, fee, rate).Ok?
    ensures var t := Bookings.RequestBooking(s, user, listing, fee, rate).value;
      && |t.bookings| == |s.bookings| + 1
      && var row := t.bookings[|s.bookings|];
         row.user == user && row.listing == listing && row.feeRwf == fee && FeesAgree(row, rate)
         && row.proofs == []
  {
    if rate > 0.0 {
      ConversionIsNear(fee, rate);
    }
  }

  lemma {:induction false} CentsComeBack(cents: int, rate: real)
    requires rate >= 100.0
    ensures var fee := Bookings.NextFee(None, Some(Money.Cents(cents)), rate);
      fee.Some? && Money.RwfToUsd(fee.value, rate) == Money.Cents(cents)
  {
    Money.CentsRecoveredIff(rate);
    assert Money.ThereAndBack(cents, rate) == Money.Cents(cents);
    FeeIsConverted(Some(Money.Cents(cents)), rate);
  }

  lemma {:induction false} FeeIsConverted(usd: Option<real>, rate: real)
    requires usd.Some?
    ensures Bookings.NextFee(None, usd, rate) == Some(Money.UsdToRwf(usd.value, rate) as real)
  {
  }

  /** A changed fee is the one asked for: in francs if that is given, else converted, and then from
      a rate of 100 up the whole cents asked for are stored exactly. It is always positive. */
  lemma {:induction false} FeeAsAsked(s: State, b: nat, rwf: Option<real>, cents: Option<int>, rate: real)
    ensures var usd := if cents.Some? then Some(Money.Cents(cents.value)) else None;
      var r := Bookings.UpdateBookingFee(s, b, rwf, usd, rate);
      r.Ok? ==>
        && b < |s.bookings| == |r.value.bookings|
        && var row := r.value.bookings[b];
           && (rwf.Some? || usd.Some?) && row.feeRwf > 0.0 && FeesAgree(row, rate)
           && (rwf.Some? ==> row.feeRwf == rwf.value)
           && (rwf.None? && rate >= 100.0 ==> row.feeUsd == usd.value)
  {
    if rwf.None? && cents.Some? && rate >= 100.0 {
      CentsComeBack(cents.value, rate);
    }
    var usd := if cents.Some? then Some(Money.Cents(cents.value)) else None;
    var fee := Bookings.NextFee(rwf, usd, rate);
    if rate > 0.0 && fee.Some? {
      ConversionIsNear(fee.value, rate);
    }
  }

  predicate FeesPositive(bookings: seq<Booking>) {
    forall b :: 0 <= b < |bookings| ==> bookings[b].feeRwf > 0.0
  }

  /** While the platform's fee is positive, so is every booking's. */
  lemma {:induction false} FeesStayPositive(s: State, e: Event)
    requires FeesPositive(s.bookings) && (e.Booked? && e.b.Request? ==> e.b.fee > 0.0)
    ensures FeesPositive(Apply(s, e).bookings)
  {
    match e {
      case Invoicing(i) => InvoicingFrame(s, i);
      case Paying(p) => PayingFrame(s, p);
      case Ordering(o) => OrderingFrame(s, o);
      case Booked(b) => CallKeepsPositive(s, b);
      case _ =>
    }
  }

  lemma {:induction false} CallKeepsPositive(s: State, b: Bookings.Step)
    requires FeesPositive(s.bookings) && (b.Request? ==> b.fee > 0.0)
    ensures FeesPositive(Outcome(s, Bookings.Call(s, b)).0.bookings)
  {
  }
}
