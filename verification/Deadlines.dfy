/** How long an issued invoice lives: issue, payment and expiry together. */
module Deadlines {
  import opened Prelude
  import opened Marketplace
  import opened Commerce
  import opened Protocol
  import Invoices
  import Payments

  predicate IsExpired(s: State, i: nat) {
    i < |s.invoices| && s.invoices[i].status.InvoiceExpired?
  }

  lemma {:induction false} ExpiresIff(s: State, i: nat, later: int)
    requires i < |s.invoices|
    ensures IsExpired(Invoices.ExpireDue(s, later), i)
      <==> s.invoices[i].status.InvoiceExpired?
           || ((s.invoices[i].status.Sent? || s.invoices[i].status.AwaitingPayment?)
               && s.invoices[i].validUntil < later)
  {
    Invoices.ExpireDueExactly(s, later);
  }

  /** An invoice that is asked for expires at the first expiry more than seven days later. */
  lemma {:induction false} RequestedExpiresIff(s: State, user: nat, listing: nat, now: int, later: int)
    requires Invoices.RequestInvoice(s, user, listing, now).Ok?
    ensures var t := Invoices.RequestInvoice(s, user, listing, now).value;
      IsExpired(Invoices.ExpireDue(t, later), |s.invoices|) <==> later > now + 7 * 86_400_000
  {
    ExpiresIff(Invoices.RequestInvoice(s, user, listing, now).value, |s.invoices|, later);
  }

  /** So does a fleet invoice. */
  lemma {:induction false} FleetExpiresIff(
    s: State, user: nat, vehicle: Option<nat>, rwf: Option<real>, usd: Option<real>, rate: real, now: int, later: int)
    requires Invoices.CreateFleetInvoice(s, user, vehicle, rwf, usd, rate, now).Ok?
    ensures var t := Invoices.CreateFleetInvoice(s, user, vehicle, rwf, usd, rate, now).value;
      IsExpired(Invoices.ExpireDue(t, later), |s.invoices|) <==> later > now + 7 * 86_400_000
  {
    ExpiresIff(Invoices.CreateFleetInvoice(s, user, vehicle, rwf, usd, rate, now).value, |s.invoices|, later);
  }

  /** And every invoice that fulfilment adds. */
  lemma {:induction false} FulfilledExpiresIff(s: State, user: nat, now: int, later: int, i: nat)
    requires var t := Invoices.FulfillPendingBuyInquiries(s, user, now); |s.invoices| <= i < |t.invoices|
    ensures var t := Invoices.FulfillPendingBuyInquiries(s, user, now);
      IsExpired(Invoices.ExpireDue(t, later), i) <==> later > now + 7 * 86_400_000
  {
    var t := Invoices.FulfillPendingBuyInquiries(s, user, now);
    Invoices.FulfillExactly(s, user, now, now);
    assert Invoices.IsGrant(s, t.invoices[i], user, Invoices.InquiredListings(s.inquiries, user), now);
    ExpiresIff(t, i, later);
  }

  /** A submitted or a partial payment stops the clock; a rejected one lets it run again. */
  lemma {:induction false} PaymentStopsTheClock(s: State, user: nat, p: nat, i: nat, later: int)
    requires i < |s.invoices|
    ensures var r := Payments.SubmitPayment(s, user, i);
      r.Ok? ==> !IsExpired(Invoices.ExpireDue(r.value, later), i)
    ensures var r := Payments.MarkPartial(s, p);
      r.Ok? && s.payments[p].invoice == i ==> !IsExpired(Invoices.ExpireDue(r.value, later), i)
    ensures var r := Payments.RejectPayment(s, p);
      r.Ok? && s.payments[p].invoice == i ==>
        (IsExpired(Invoices.ExpireDue(r.value, later), i) <==> s.invoices[i].validUntil < later)
  {
    if Payments.SubmitPayment(s, user, i).Ok? {
      ExpiresIff(Payments.SubmitPayment(s, user, i).value, i, later);
    }
    if Payments.MarkPartial(s, p).Ok? {
      ExpiresIff(Payments.MarkPartial(s, p).value, i, later);
    }
    if Payments.RejectPayment(s, p).Ok? {
      ExpiresIff(Payments.RejectPayment(s, p).value, i, later);
    }
  }

  // ----- over runs -----

  /** No expiry of the run has a later clock. */
  predicate ClocksUpTo(events: seq<Event>, deadline: int) {
    forall k :: 0 <= k < |events| && events[k].Invoicing? && events[k].i.Expire? ==> events[k].i.now <= deadline
  }

  predicate Lives(s: State, i: nat, deadline: int) {
    i < |s.invoices| && s.invoices[i].validUntil == deadline && !s.invoices[i].status.InvoiceExpired?
  }

  lemma {:induction false} InvoicingLives(s: State, e: Invoices.Step, i: nat, deadline: int)
    requires Lives(s, i, deadline) && (e.Expire? ==> e.now <= deadline)
    ensures Lives(Outcome(s, Invoices.Call(s, e)).0, i, deadline)
  {
    match e {
      case Expire(now) => Invoices.ExpireDueExactly(s, now);
      case Fulfill(user, now) => Invoices.FulfillExactly(s, user, now, now);
      case _ =>
    }
  }

  lemma {:induction false} StepLives(s: State, e: Event, i: nat, deadline: int)
    requires Lives(s, i, deadline) && (e.Invoicing? && e.i.Expire? ==> e.i.now <= deadline)
    ensures Lives(Apply(s, e), i, deadline)
  {
    match e {
      case Invoicing(k) => InvoicingLives(s, k, i, deadline);
      case Paying(p) => PayingFrame(s, p);
      case Ordering(o) => OrderingFrame(s, o);
      case Booked(b) => BookedFrame(s, b);
      case _ =>
    }
  }

  lemma {:induction false} RunLives(s: State, events: seq<Event>, i: nat, deadline: int)
    requires Lives(s, i, deadline) && ClocksUpTo(events, deadline)
    ensures Lives(Exec(s, events), i, deadline)
    decreases |events|
  {
    if events != [] {
      assert events[0].Invoicing? && events[0].i.Expire? ==> events[0].i.now <= deadline;
      StepLives(s, events[0], i, deadline);
      RunLives(Apply(s, events[0]), events[1..], i, deadline);
    }
  }

  /** Whatever follows, an invoice asked for does not expire within seven days. */
  lemma {:induction false} SevenDays(s: State, user: nat, listing: nat, now: int, events: seq<Event>)
    requires Invoices.RequestInvoice(s, user, listing, now).Ok?
    requires ClocksUpTo(events, now + 7 * 86_400_000)
    ensures var t := Exec(Invoices.RequestInvoice(s, user, listing, now).value, events);
      |s.invoices| < |t.invoices| && !t.invoices[|s.invoices|].status.InvoiceExpired?
  {
    RunLives(Invoices.RequestInvoice(s, user, listing, now).value, events, |s.invoices|, now + 7 * 86_400_000);
  }
}
