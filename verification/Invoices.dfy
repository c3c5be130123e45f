/** Invoices: issue, cancellation, expiry and the fulfilment of inquiries
    (src/modules/invoices/invoices.service.ts and invoice.constants.ts). */
module Invoices {
  import opened Prelude
  import opened Marketplace
  import opened Commerce

  const VALIDITY_DAYS := 7

  predicate IsBuyerCancellable(status: InvoiceStatus) {
    status.Sent? || status.AwaitingPayment?
  }

  predicate IsTradingUser(s: State, user: nat) {
    user in s.users && s.users[user].isActive && !s.users[user].deleted
  }

  predicate IsOnSale(s: State, listing: nat) {
    listing in s.listings && s.listings[listing].status.Published? && !s.listings[listing].deleted
  }

  function NewInvoice(s: State, user: nat, listing: nat, now: int): Invoice
    requires listing in s.listings
  {
    Invoice(user, Some(listing), Some(s.listings[listing].sellerType), Sent, now + VALIDITY_DAYS * DAY)
  }

  function RequestInvoice(s: State, user: nat, listing: nat, now: int): Result<State> {
    if !IsTradingUser(s, user) then Err(Forbidden)
    else if !s.users[user].hasBuyerProfile then Err(BadRequest)
    else if !IsOnSale(s, listing) then Err(NotFound)
    else if !s.listings[listing].priced then Err(BadRequest)
    else if HoldsInvoice(s.invoices, user, listing) then Err(BadRequest)
    else Ok(s.(invoices := s.invoices + [NewInvoice(s, user, listing, now)]))
  }

  /** createFleetInvoice: the total is in francs, or converted at the rate of the day. The database
      refuses a listing that does not exist. */
  function CreateFleetInvoice(
    s: State, user: nat, listing: Option<nat>, totalRwf: Option<real>, totalUsd: Option<real>, rate: real,
    now: int): Result<State>
  {
    if user !in s.users then Err(NotFound)
    else if totalRwf.GetOr(Round(totalUsd.GetOr(0.0) * rate) as real) <= 0.0 then Err(BadRequest)
    else if listing.Some? && listing.value !in s.listings then Err(Refused)
    else Ok(s.(invoices := s.invoices + [Invoice(user, listing, None, Sent, now + VALIDITY_DAYS * DAY)]))
  }

  /** executeInvoiceCancellation, and the transaction of expireDueInvoices. */
  function Close(s: State, invoice: nat, status: InvoiceStatus): State
    requires invoice < |s.invoices|
  {
    s.(invoices := WithInvoiceStatus(s.invoices, invoice, status),
       listings := Released(s.listings, s.invoices[invoice].listing))
  }

  function PaymentCount(payments: seq<Payment>, invoice: nat): nat {
    if payments == [] then 0
    else PaymentCount(payments[1..], invoice) + if payments[0].invoice == invoice then 1 else 0
  }

  function CancelInvoiceByBuyer(s: State, user: nat, invoice: nat): Result<State> {
    if invoice >= |s.invoices| then Err(NotFound)
    else if s.invoices[invoice].user != user then Err(Forbidden)
    else if !IsBuyerCancellable(s.invoices[invoice].status) then Err(BadRequest)
    else if PaymentCount(s.payments, invoice) > 0 then Err(BadRequest)
    else Ok(Close(s, invoice, InvoiceCancelled))
  }

  function CancelInvoice(s: State, invoice: nat): Result<State> {
    if invoice >= |s.invoices| then Err(NotFound)
    else if s.invoices[invoice].status.InvoiceCancelled? || s.invoices[invoice].status.PaymentConfirmed?
            || s.invoices[invoice].status.FullyPaid? then Err(BadRequest)
    else Ok(Close(s, invoice, InvoiceCancelled))
  }

  // ----- expiry -----

  predicate IsDue(i: Invoice, now: int) {
    (i.status.Sent? || i.status.AwaitingPayment?) && i.validUntil < now
  }

  /** The rows that the query of expireDueInvoices finds. */
  function DueInvoices(invoices: seq<Invoice>, now: int): (due: seq<nat>)
    ensures forall k: nat :: k in due <==> k < |invoices| && IsDue(invoices[k], now)
    ensures AreRows(due, invoices)
  {
    if invoices == [] then []
    else
      var n := |invoices| - 1;
      var rest := DueInvoices(invoices[..n], now);
      if IsDue(invoices[n], now) then rest + [n] else rest
  }

  predicate AreRows(ids: seq<nat>, invoices: seq<Invoice>) {
    forall j :: 0 <= j < |ids| ==> ids[j] < |invoices|
  }

  /** The loop over those rows. */
  function ExpireAll(s: State, due: seq<nat>): (t: State)
    requires AreRows(due, s.invoices)
    ensures |t.invoices| == |s.invoices|
  {
    if due == [] then s
    else Close(ExpireAll(s, due[..|due| - 1]), due[|due| - 1], InvoiceExpired)
  }

  function ExpireDue(s: State, now: int): State {
    ExpireAll(s, DueInvoices(s.invoices, now))
  }

  // ----- fulfilment of inquiries -----

  predicate IsPending(q: Inquiry, user: nat) {
    q.user == Some(user) && q.intent.Buy? && q.listing.Some?
  }

  /** The listings of the buy inquiries that the query finds. */
  function InquiredListings(inquiries: seq<Inquiry>, user: nat): (wanted: seq<nat>)
    ensures forall l :: l in wanted <==>
      exists k :: 0 <= k < |inquiries| && IsPending(inquiries[k], user) && inquiries[k].listing == Some(l)
  {
    if inquiries == [] then []
    else
      var n := |inquiries| - 1;
      var rest := InquiredListings(inquiries[..n], user);
      assert forall k :: 0 <= k < n ==> inquiries[k] == inquiries[..n][k];
      if IsPending(inquiries[n], user) then rest + [inquiries[n].listing.value] else rest
  }

  /** One turn of the loop; a request that fails is skipped. */
  function FulfillOne(s: State, user: nat, listing: nat, now: int): State {
    if HoldsInvoice(s.invoices, user, listing) then s
    else Outcome(s, RequestInvoice(s, user, listing, now)).0
  }

  function FulfillAll(s: State, user: nat, wanted: seq<nat>, now: int): State {
    if wanted == [] then s
    else FulfillOne(FulfillAll(s, user, wanted[..|wanted| - 1], now), user, wanted[|wanted| - 1], now)
  }

  function FulfillPendingBuyInquiries(s: State, user: nat, now: int): State {
    if user !in s.users || !s.users[user].hasBuyerProfile then s
    else FulfillAll(s, user, InquiredListings(s.inquiries, user), now)
  }

  datatype Step =
    | Request(user: nat, listing: nat, now: int)
    | CreateFleet(
        user: nat, vehicle: Option<nat>, totalRwf: Option<real>, totalUsd: Option<real>, rate: real, now: int)
    | CancelByBuyer(user: nat, invoice: nat)
    | Cancel(invoice: nat)
    | Expire(now: int)
    | Fulfill(user: nat, now: int)

  function Call(s: State, e: Step): Result<State> {
    match e
    case Request(user, listing, now) => RequestInvoice(s, user, listing, now)
    case CreateFleet(user, vehicle, rwf, usd, rate, now) => CreateFleetInvoice(s, user, vehicle, rwf, usd, rate, now)
    case CancelByBuyer(user, invoice) => CancelInvoiceByBuyer(s, user, invoice)
    case Cancel(invoice) => CancelInvoice(s, invoice)
    case Expire(now) => Ok(ExpireDue(s, now))
    case Fulfill(user, now) => Ok(FulfillPendingBuyInquiries(s, user, now))
  }

  // ----- what expiry does -----

  ghost predicate FreedBy(invoices: seq<Invoice>, due: seq<nat>, listing: nat) {
    exists k: nat :: k in due && k < |invoices| && invoices[k].listing == Some(listing)
  }

  ghost predicate ExpiredInvoices(before: seq<Invoice>, due: seq<nat>, after: seq<Invoice>) {
    && |after| == |before|
    && forall k :: 0 <= k < |before| ==>
         after[k] == if k in due then before[k].(status := InvoiceExpired) else before[k]
  }

  ghost predicate FreedListings(
    before: map<nat, Listing>, invoices: seq<Invoice>, due: seq<nat>, after: map<nat, Listing>)
  {
    && after.Keys == before.Keys
    && forall l :: l in before ==>
         after[l] == if before[l].status.Reserved? && FreedBy(invoices, due, l)
                     then before[l].(status := Published) else before[l]
  }

  lemma {:induction false} ExpireAllInvoices(s: State, due: seq<nat>)
    requires AreRows(due, s.invoices)
    ensures ExpiredInvoices(s.invoices, due, ExpireAll(s, due).invoices)
  {
    if due != [] {
      var n := |due| - 1;
      ExpireAllInvoices(s, due[..n]);
      assert forall k: nat :: k in due <==> k in due[..n] || k == due[n];
    }
  }

  lemma {:induction false} ReleaseOneMore(
    before: map<nat, Listing>, invoices: seq<Invoice>, due: seq<nat>, middle: map<nat, Listing>, k: nat)
    requires FreedListings(before, invoices, due, middle) && k < |invoices|
    ensures FreedListings(before, invoices, due + [k], Released(middle, invoices[k].listing))
  {
    forall l | l in before
      ensures FreedBy(invoices, due + [k], l) <==> FreedBy(invoices, due, l) || invoices[k].listing == Some(l)
    {
      if FreedBy(invoices, due, l) {
        var j: nat :| j in due && j < |invoices| && invoices[j].listing == Some(l);
        assert j in due + [k];
      }
      assert k in due + [k];
    }
  }

  lemma {:induction false} ExpireAllListings(s: State, due: seq<nat>)
    requires AreRows(due, s.invoices)
    ensures FreedListings(s.listings, s.invoices, due, ExpireAll(s, due).listings)
  {
    if due != [] {
      var n := |due| - 1;
      var rest := due[..n];
      ExpireAllInvoices(s, rest);
      ExpireAllListings(s, rest);
      assert rest + [due[n]] == due;
      ReleaseOneMore(s.listings, s.invoices, rest, ExpireAll(s, rest).listings, due[n]);
    }
  }

  lemma {:induction false} ExpireAllFrame(s: State, due: seq<nat>)
    requires AreRows(due, s.invoices)
    ensures var t := ExpireAll(s, due); t == s.(invoices := t.invoices, listings := t.listings)
  {
    if due != [] {
      ExpireAllFrame(s, due[..|due| - 1]);
    }
  }

  /** Expiry closes exactly the due invoices, puts back on sale exactly the reserved listings that
      one of them is for, and touches nothing else. */
  lemma {:induction false} ExpireDueExactly(s: State, now: int)
    ensures var t := ExpireDue(s, now);
      && t == s.(invoices := t.invoices, listings := t.listings)
      && ExpiredInvoices(s.invoices, DueInvoices(s.invoices, now), t.invoices)
      && FreedListings(s.listings, s.invoices, DueInvoices(s.invoices, now), t.listings)
      && (forall k :: 0 <= k < |t.invoices| ==> !IsDue(t.invoices[k], now))
  {
    var due := DueInvoices(s.invoices, now);
    ExpireAllFrame(s, due);
    ExpireAllInvoices(s, due);
    ExpireAllListings(s, due);
  }

  // ----- what fulfilment does -----

  /** The user may trade and the listing may be invoiced. */
  predicate CanInvoice(s: State, user: nat, listing: nat) {
    IsTradingUser(s, user) && s.users[user].hasBuyerProfile && IsOnSale(s, listing) && s.listings[listing].priced
  }

  /** A new row is an invoice for a listing that was wanted, could be invoiced and had none. */
  ghost predicate IsGrant(s: State, row: Invoice, user: nat, wanted: seq<nat>, now: int) {
    exists l :: l in wanted && CanInvoice(s, user, l) && !HoldsInvoice(s.invoices, user, l)
                && row == NewInvoice(s, user, l, now)
  }

  ghost predicate AreGrants(s: State, rows: seq<Invoice>, user: nat, wanted: seq<nat>, now: int) {
    && s.invoices <= rows
    && forall i :: |s.invoices| <= i < |rows| ==> IsGrant(s, rows[i], user, wanted, now)
  }

  predicate OncePerListing(rows: seq<Invoice>, from: nat) {
    forall i, j :: from <= i < j < |rows| ==> rows[i].listing != rows[j].listing
  }

  predicate Covers(s: State, rows: seq<Invoice>, user: nat, wanted: seq<nat>) {
    forall l :: l in wanted && CanInvoice(s, user, l) ==> HoldsInvoice(rows, user, l)
  }

  lemma {:induction false} StillHolds(rows: seq<Invoice>, row: Invoice, user: nat, listing: nat)
    ensures HoldsInvoice(rows + [row], user, listing) <==>
      HoldsInvoice(rows, user, listing)
      || (row.user == user && row.listing == Some(listing) && IsActiveInvoice(row.status))
  {
    var after := rows + [row];
    assert after[|rows|] == row;
    if HoldsInvoice(rows, user, listing) {
      var i :| 0 <= i < |rows| && rows[i].user == user && rows[i].listing == Some(listing)
               && IsActiveInvoice(rows[i].status);
      assert after[i] == rows[i];
    }
  }

  /** What one turn of the loop does. */
  lemma {:induction false} FulfillOneIs(s: State, rows: seq<Invoice>, user: nat, l: nat, now: int)
    ensures FulfillOne(s.(invoices := rows), user, l, now) ==
      s.(invoices := if CanInvoice(s, user, l) && !HoldsInvoice(rows, user, l)
                     then rows + [NewInvoice(s, user, l, now)] else rows)
  {
  }

  lemma {:induction false} GrantIsFirst(
    s: State, rows: seq<Invoice>, user: nat, wanted: seq<nat>, l: nat, now: int, i: nat)
    requires AreGrants(s, rows, user, wanted, now) && !HoldsInvoice(rows, user, l)
    ensures |s.invoices| <= i < |rows| ==> rows[i].listing != Some(l)
    ensures !HoldsInvoice(s.invoices, user, l)
  {
    if |s.invoices| <= i < |rows| {
      assert IsGrant(s, rows[i], user, wanted, now);
    }
    assert forall k :: 0 <= k < |s.invoices| ==> s.invoices[k] == rows[k];
  }

  lemma {:induction false} WiderGrants(s: State, rows: seq<Invoice>, user: nat, wanted: seq<nat>, l: nat, now: int)
    requires AreGrants(s, rows, user, wanted, now)
    ensures AreGrants(s, rows, user, wanted + [l], now)
  {
    forall i | |s.invoices| <= i < |rows|
      ensures IsGrant(s, rows[i], user, wanted + [l], now)
    {
      assert IsGrant(s, rows[i], user, wanted, now);
      var m :| m in wanted && CanInvoice(s, user, m) && !HoldsInvoice(s.invoices, user, m)
               && rows[i] == NewInvoice(s, user, m, now);
      assert m in wanted + [l];
    }
  }

  lemma {:induction false} OneMoreGrant(s: State, rows: seq<Invoice>, user: nat, wanted: seq<nat>, l: nat, now: int)
    requires AreGrants(s, rows, user, wanted, now) && OncePerListing(rows, |s.invoices|)
    requires CanInvoice(s, user, l) && !HoldsInvoice(rows, user, l)
    ensures var after := rows + [NewInvoice(s, user, l, now)];
      AreGrants(s, after, user, wanted + [l], now) && OncePerListing(after, |s.invoices|)
  {
    var row := NewInvoice(s, user, l, now);
    var after := rows + [row];
    WiderGrants(s, rows, user, wanted, l, now);
    assert l in wanted + [l];
    forall i | |s.invoices| <= i < |rows| ensures rows[i].listing != Some(l) {
      GrantIsFirst(s, rows, user, wanted, l, now, i);
    }
    GrantIsFirst(s, rows, user, wanted, l, now, 0);
    assert IsGrant(s, row, user, wanted + [l], now);
  }

  lemma {:induction false} OneMoreCovered(s: State, rows: seq<Invoice>, user: nat, wanted: seq<nat>, l: nat, now: int)
    requires Covers(s, rows, user, wanted)
    ensures Covers(s, FulfillOne(s.(invoices := rows), user, l, now).invoices, user, wanted + [l])
  {
    FulfillOneIs(s, rows, user, l, now);
    var after := FulfillOne(s.(invoices := rows), user, l, now).invoices;
    forall m | m in wanted + [l] && CanInvoice(s, user, m) ensures HoldsInvoice(after, user, m) {
      if after != rows {
        StillHolds(rows, NewInvoice(s, user, l, now), user, m);
      }
    }
  }

  lemma {:induction false} FulfillAllGrants(s: State, user: nat, wanted: seq<nat>, now: int)
    ensures var t := FulfillAll(s, user, wanted, now);
      && t == s.(invoices := t.invoices)
      && AreGrants(s, t.invoices, user, wanted, now) && OncePerListing(t.invoices, |s.invoices|)
      && Covers(s, t.invoices, user, wanted)
  {
    if wanted != [] {
      var n := |wanted| - 1;
      var rest, l := wanted[..n], wanted[n];
      FulfillAllGrants(s, user, rest, now);
      assert rest + [l] == wanted;
      var rows := FulfillAll(s, user, rest, now).invoices;
      FulfillOneIs(s, rows, user, l, now);
      if CanInvoice(s, user, l) && !HoldsInvoice(rows, user, l) {
        OneMoreGrant(s, rows, user, rest, l, now);
      } else {
        WiderGrants(s, rows, user, rest, l, now);
      }
      OneMoreCovered(s, rows, user, rest, l, now);
    }
  }

  lemma {:induction false} NothingToFulfill(s: State, user: nat, wanted: seq<nat>, now: int)
    requires Covers(s, s.invoices, user, wanted)
    ensures FulfillAll(s, user, wanted, now) == s
  {
    if wanted != [] {
      NothingToFulfill(s, user, wanted[..|wanted| - 1], now);
      FulfillOneIs(s, s.invoices, user, wanted[|wanted| - 1], now);
    }
  }

  /** Fulfilment leaves an invoice for every wanted listing that can be invoiced, adds at most one
      for a listing and only where there was none, and has nothing to add when run again. */
  lemma {:induction false} FulfillExactly(s: State, user: nat, now: int, later: int)
    ensures var t, wanted := FulfillPendingBuyInquiries(s, user, now), InquiredListings(s.inquiries, user);
      && t == s.(invoices := t.invoices)
      && AreGrants(s, t.invoices, user, wanted, now) && OncePerListing(t.invoices, |s.invoices|)
      && Covers(s, t.invoices, user, wanted)
      && FulfillPendingBuyInquiries(t, user, later) == t
  {
    var t, wanted := FulfillPendingBuyInquiries(s, user, now), InquiredListings(s.inquiries, user);
    FulfillAllGrants(s, user, wanted, now);
    if user in s.users && s.users[user].hasBuyerProfile {
      NothingToFulfill(t, user, wanted, later);
    }
  }
}
