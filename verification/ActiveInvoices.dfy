/** How far the rule "one active invoice for a buyer and a vehicle" goes. Requests and fulfilment
    check it; fleet invoices and payment steps do not. */
module ActiveInvoices {
  import opened Prelude
  import opened Marketplace
  import opened Commerce
  import opened Protocol
  import Invoices
  import Payments

  /** Both hold the same vehicle for the same buyer. */
  predicate Clash(a: Invoice, b: Invoice) {
    && IsActiveInvoice(a.status) && IsActiveInvoice(b.status)
    && a.user == b.user && a.listing == b.listing && a.listing.Some?
  }

  predicate OneActiveEach(invoices: seq<Invoice>) {
    forall a, b :: 0 <= a < b < |invoices| ==> !Clash(invoices[a], invoices[b])
  }

  /** An active invoice like this one is held. */
  predicate IsHeld(invoices: seq<Invoice>, row: Invoice) {
    row.listing.Some? && HoldsInvoice(invoices, row.user, row.listing.value)
  }

  lemma {:induction false} AddedActive(invoices: seq<Invoice>, row: Invoice)
    requires OneActiveEach(invoices) && IsActiveInvoice(row.status)
    ensures OneActiveEach(invoices + [row]) <==> !IsHeld(invoices, row)
  {
    var after := invoices + [row];
    assert after[|invoices|] == row;
    if IsHeld(invoices, row) {
      var i :| 0 <= i < |invoices| && invoices[i].user == row.user && invoices[i].listing == row.listing
               && IsActiveInvoice(invoices[i].status);
      assert Clash(after[i], after[|invoices|]);
    } else {
      assert forall i :: 0 <= i < |invoices| ==> after[i] == invoices[i];
    }
  }

  lemma {:induction false} MadeActive(invoices: seq<Invoice>, i: nat, status: InvoiceStatus)
    requires OneActiveEach(invoices) && IsActiveInvoice(status) && i < |invoices|
    ensures OneActiveEach(WithInvoiceStatus(invoices, i, status))
      <==> IsActiveInvoice(invoices[i].status) || !IsHeld(invoices, invoices[i])
  {
    var after := WithInvoiceStatus(invoices, i, status);
    if !IsActiveInvoice(invoices[i].status) && IsHeld(invoices, invoices[i]) {
      var j :| 0 <= j < |invoices| && invoices[j].user == invoices[i].user
               && invoices[j].listing == invoices[i].listing && IsActiveInvoice(invoices[j].status);
      assert Clash(after[i], after[j]) && Clash(after[j], after[i]);
    }
  }

  lemma {:induction false} NoneMadeActive(before: seq<Invoice>, after: seq<Invoice>)
    requires OneActiveEach(before) && |after| == |before|
    requires forall i :: 0 <= i < |before| ==>
      after[i].user == before[i].user && after[i].listing == before[i].listing
      && (IsActiveInvoice(after[i].status) ==> IsActiveInvoice(before[i].status))
    ensures OneActiveEach(after)
  {
    forall a, b | 0 <= a < b < |after| ensures !Clash(after[a], after[b]) {
      assert !Clash(before[a], before[b]);
    }
  }

  lemma {:induction false} FulfillKeepsOneEach(s: State, user: nat, wanted: seq<nat>, now: int)
    requires OneActiveEach(s.invoices)
    ensures OneActiveEach(Invoices.FulfillAll(s, user, wanted, now).invoices)
  {
    if wanted != [] {
      var n := |wanted| - 1;
      var rest, l := wanted[..n], wanted[n];
      FulfillKeepsOneEach(s, user, rest, now);
      Invoices.FulfillAllGrants(s, user, rest, now);
      var rows := Invoices.FulfillAll(s, user, rest, now).invoices;
      Invoices.FulfillOneIs(s, rows, user, l, now);
      if Invoices.CanInvoice(s, user, l) {
        AddedActive(rows, Invoices.NewInvoice(s, user, l, now));
      }
    }
  }

  /** A fleet invoice for a vehicle that its buyer already holds. */
  predicate FleetForHeld(s: State, e: Invoices.Step) {
    && e.CreateFleet? && Invoices.Call(s, e).Ok?
    && e.vehicle.Some? && HoldsInvoice(s.invoices, e.user, e.vehicle.value)
  }

  lemma {:induction false} InvoicingOneEachIff(s: State, e: Invoices.Step)
    requires OneActiveEach(s.invoices)
    ensures OneActiveEach(Outcome(s, Invoices.Call(s, e)).0.invoices) <==> !FleetForHeld(s, e)
  {
    match e {
      case Request(user, listing, now) =>
        if Invoices.Call(s, e).Ok? {
          AddedActive(s.invoices, Invoices.NewInvoice(s, user, listing, now));
        }
      case CreateFleet(user, vehicle, _, _, _, now) =>
        AddedActive(s.invoices, Invoice(user, vehicle, None, Sent, now + Invoices.VALIDITY_DAYS * DAY));
      case Expire(now) =>
        Invoices.ExpireDueExactly(s, now);
        NoneMadeActive(s.invoices, Invoices.ExpireDue(s, now).invoices);
      case Fulfill(user, now) =>
        FulfillKeepsOneEach(s, user, Invoices.InquiredListings(s.inquiries, user), now);
      case _ =>
        NoneMadeActive(s.invoices, Outcome(s, Invoices.Call(s, e)).0.invoices);
    }
  }

  /** A payment of a closed invoice is rejected or marked partial, which opens the invoice again,
      while its buyer holds another one for the vehicle. */
  predicate ReopensHeld(s: State, e: Payments.Step) {
    && (e.Reject? || e.Partial?) && e.payment < |s.payments| && s.payments[e.payment].status.UnderVerification?
    && var i := s.payments[e.payment].invoice;
       i < |s.invoices| && !IsActiveInvoice(s.invoices[i].status) && IsHeld(s.invoices, s.invoices[i])
  }

  lemma {:induction false} PayingOneEachIff(s: State, e: Payments.Step)
    requires OneActiveEach(s.invoices)
    ensures OneActiveEach(Outcome(s, Payments.Call(s, e)).0.invoices) <==> !ReopensHeld(s, e)
  {
    var t := Outcome(s, Payments.Call(s, e)).0;
    if t.invoices != s.invoices {
      var i := if e.Submit? then e.invoice else s.payments[e.payment].invoice;
      if e.Confirm? {
        NoneMadeActive(s.invoices, t.invoices);
      } else {
        MadeActive(s.invoices, i, t.invoices[i].status);
      }
    }
  }

  /** The rule survives a step exactly when the step is neither of the two that do not check it. */
  lemma {:induction false} OneActiveEachIff(s: State, e: Event)
    requires OneActiveEach(s.invoices)
    ensures OneActiveEach(Apply(s, e).invoices)
      <==> !(e.Invoicing? && FleetForHeld(s, e.i)) && !(e.Paying? && ReopensHeld(s, e.p))
  {
    match e {
      case Invoicing(i) => InvoicingOneEachIff(s, i);
      case Paying(p) => PayingOneEachIff(s, p);
      case Ordering(o) => OrderingFrame(s, o);
      case Booked(b) => BookedFrame(s, b);
      case _ =>
    }
  }

  /** The listing can be sold, or is only reserved. */
  predicate IsOnSaleOrReserved(l: Listing) {
    (l.status.Published? || l.status.Reserved?) && !l.deleted && l.priced
  }

  /** Cancelling an active invoice puts a reserved listing back on sale, and where the rule held,
      the buyer may at once request another invoice exactly if the listing can be sold. */
  lemma {:induction false} CancelLetsRequestAgain(s: State, i: nat, now: int)
    requires OneActiveEach(s.invoices) && i < |s.invoices|
    requires IsActiveInvoice(s.invoices[i].status) && s.invoices[i].listing.Some?
    ensures var user, l := s.invoices[i].user, s.invoices[i].listing.value;
      var r := Invoices.CancelInvoice(s, i);
      && r.Ok?
      && (Invoices.RequestInvoice(r.value, user, l, now).Ok? <==>
            Invoices.IsTradingUser(s, user) && s.users[user].hasBuyerProfile
            && l in s.listings && IsOnSaleOrReserved(s.listings[l]))
  {
    var user, l := s.invoices[i].user, s.invoices[i].listing.value;
    var t := Invoices.CancelInvoice(s, i).value;
    forall j | 0 <= j < |t.invoices| && t.invoices[j].user == user && t.invoices[j].listing == Some(l)
      ensures !IsActiveInvoice(t.invoices[j].status)
    {
      if j != i {
        assert !Clash(s.invoices[if i < j then i else j], s.invoices[if i < j then j else i]);
      }
    }
  }
}
