/** Payment verification (src/modules/payments/payments.service.ts). A payment step overwrites the
    status of its invoice whatever that is. */
module Payments {
  import opened Prelude
  import opened Marketplace
  import opened Commerce

  predicate IsPayable(status: InvoiceStatus) {
    status.Sent? || status.AwaitingPayment? || status.PartiallyPaid?
  }

  function SubmitPayment(s: State, user: nat, invoice: nat): Result<State> {
    if invoice >= |s.invoices| then Err(NotFound)
    else if s.invoices[invoice].user != user then Err(Forbidden)
    else if !IsPayable(s.invoices[invoice].status) then Err(BadRequest)
    else Ok(s.(payments := s.payments + [Payment(invoice, UnderVerification)],
               invoices := WithInvoiceStatus(s.invoices, invoice, PaymentSubmitted)))
  }

  function Settle(s: State, payment: nat, to: PaymentStatus, invoiceTo: InvoiceStatus): Result<State> {
    if payment >= |s.payments| then Err(NotFound)
    else if !CanPaymentTransition(s.payments[payment].status, to) then Err(BadRequest)
    else Ok(s.(payments := s.payments[payment := s.payments[payment].(status := to)],
               invoices := WithInvoiceStatus(s.invoices, s.payments[payment].invoice, invoiceTo)))
  }

  /** The transaction of confirmPayment; the order is made after it. */
  function ConfirmInDatabase(s: State, payment: nat): Result<State> {
    match Settle(s, payment, Confirmed, PaymentConfirmed)
    case Err(e) => Err(e)
    case Ok(t) => Ok(t.(toOrder := t.toOrder + multiset{s.payments[payment].invoice}))
  }

  function RejectPayment(s: State, payment: nat): Result<State> {
    Settle(s, payment, PaymentRejected, AwaitingPayment)
  }

  function MarkPartial(s: State, payment: nat): Result<State> {
    if payment >= |s.payments| then Err(NotFound)
    else if !s.payments[payment].status.UnderVerification? then Err(BadRequest)
    else Ok(s.(invoices := WithInvoiceStatus(s.invoices, s.payments[payment].invoice, PartiallyPaid)))
  }

  datatype Step =
    | Submit(user: nat, invoice: nat)
    | Confirm(payment: nat)
    | Reject(payment: nat)
    | Partial(payment: nat)

  function Call(s: State, e: Step): Result<State> {
    match e
    case Submit(user, invoice) => SubmitPayment(s, user, invoice)
    case Confirm(payment) => ConfirmInDatabase(s, payment)
    case Reject(payment) => RejectPayment(s, payment)
    case Partial(payment) => MarkPartial(s, payment)
  }

  // ----- what an invoice's status says about its payments -----

  predicate NoPayment(payments: seq<Payment>, i: nat) {
    forall k :: 0 <= k < |payments| ==> payments[k].invoice != i
  }

  predicate Explained(status: InvoiceStatus, payments: seq<Payment>, i: nat) {
    match status
    case Sent => NoPayment(payments, i)
    case PaymentSubmitted => Payment(i, UnderVerification) in payments
    case PartiallyPaid => Payment(i, UnderVerification) in payments
    case AwaitingPayment => Payment(i, PaymentRejected) in payments
    case PaymentConfirmed => Payment(i, Confirmed) in payments
    case InvoiceCancelled => true
    case InvoiceExpired => true
    case _ => false
  }

  predicate PaymentsLinked(invoices: seq<Invoice>, payments: seq<Payment>) {
    forall k :: 0 <= k < |payments| ==>
      payments[k].invoice < |invoices|
      && (payments[k].status.UnderVerification? || payments[k].status.Confirmed?
          || payments[k].status.PaymentRejected?)
  }

  ghost predicate Ledger(invoices: seq<Invoice>, payments: seq<Payment>) {
    && PaymentsLinked(invoices, payments)
    && forall i :: 0 <= i < |invoices| ==> Explained(invoices[i].status, payments, i)
  }

  /** Once settled, a payment keeps its status; none is lost or moved to another invoice. */
  predicate PaymentsKept(before: seq<Payment>, after: seq<Payment>) {
    && |before| <= |after|
    && forall k :: 0 <= k < |before| ==>
         after[k].invoice == before[k].invoice
         && (!before[k].status.UnderVerification? ==> after[k] == before[k])
  }

  /** Another invoice's payments are untouched. */
  predicate SamePaymentsOf(before: seq<Payment>, after: seq<Payment>, i: nat) {
    && (forall st :: Payment(i, st) in before <==> Payment(i, st) in after)
    && (NoPayment(before, i) <==> NoPayment(after, i))
  }

  lemma {:induction false} AddedPayment(payments: seq<Payment>, p: Payment, i: nat)
    requires i != p.invoice
    ensures SamePaymentsOf(payments, payments + [p], i)
  {
    var after := payments + [p];
    assert forall k :: 0 <= k < |payments| ==> after[k] == payments[k];
  }

  lemma {:induction false} SettledPayment(payments: seq<Payment>, k: nat, to: PaymentStatus, i: nat)
    requires k < |payments| && i != payments[k].invoice
    ensures SamePaymentsOf(payments, payments[k := payments[k].(status := to)], i)
  {
    var after := payments[k := payments[k].(status := to)];
    assert forall j :: 0 <= j < |payments| && j != k ==> after[j] == payments[j];
    forall st ensures Payment(i, st) in payments <==> Payment(i, st) in after {
      if Payment(i, st) in payments {
        var j :| 0 <= j < |payments| && payments[j] == Payment(i, st);
        assert after[j] == payments[j];
      }
    }
    if NoPayment(after, i) {
      assert forall j :: 0 <= j < |payments| ==> after[j].invoice == payments[j].invoice;
    }
  }

  lemma {:induction false} SubmitKeepsLedger(s: State, user: nat, invoice: nat)
    requires Ledger(s.invoices, s.payments)
    ensures var r := SubmitPayment(s, user, invoice);
      r.Ok? ==> Ledger(r.value.invoices, r.value.payments)
  {
    var r := SubmitPayment(s, user, invoice);
    if r.Ok? {
      var t := r.value;
      assert t.payments[|s.payments|] == Payment(invoice, UnderVerification);
      forall i | 0 <= i < |t.invoices| && i != invoice
        ensures Explained(t.invoices[i].status, t.payments, i)
      {
        assert Explained(s.invoices[i].status, s.payments, i);
        AddedPayment(s.payments, Payment(invoice, UnderVerification), i);
      }
    }
  }

  lemma {:induction false} SettleKeepsLedger(s: State, payment: nat, to: PaymentStatus, invoiceTo: InvoiceStatus)
    requires Ledger(s.invoices, s.payments)
    requires (to.Confirmed? && invoiceTo.PaymentConfirmed?) || (to.PaymentRejected? && invoiceTo.AwaitingPayment?)
    ensures var r := Settle(s, payment, to, invoiceTo);
      r.Ok? ==> Ledger(r.value.invoices, r.value.payments)
  {
    var r := Settle(s, payment, to, invoiceTo);
    if r.Ok? {
      var t, invoice := r.value, s.payments[payment].invoice;
      assert t.payments[payment] == Payment(invoice, to);
      forall i | 0 <= i < |t.invoices| && i != invoice
        ensures Explained(t.invoices[i].status, t.payments, i)
      {
        assert Explained(s.invoices[i].status, s.payments, i);
        SettledPayment(s.payments, payment, to, i);
      }
    }
  }

  lemma {:induction false} PartialKeepsLedger(s: State, payment: nat)
    requires Ledger(s.invoices, s.payments)
    ensures var r := MarkPartial(s, payment);
      r.Ok? ==> Ledger(r.value.invoices, r.value.payments)
  {
    var r := MarkPartial(s, payment);
    if r.Ok? {
      var invoice := s.payments[payment].invoice;
      assert s.payments[payment] == Payment(invoice, UnderVerification);
      forall i | 0 <= i < |s.invoices| && i != invoice
        ensures Explained(r.value.invoices[i].status, s.payments, i)
      {
        assert Explained(s.invoices[i].status, s.payments, i);
      }
    }
  }

  lemma {:induction false} PaymentStepKeepsLedger(s: State, e: Step)
    requires Ledger(s.invoices, s.payments)
    ensures var r := Call(s, e); r.Ok? ==> Ledger(r.value.invoices, r.value.payments)
  {
    match e {
      case Submit(user, invoice) => SubmitKeepsLedger(s, user, invoice);
      case Confirm(payment) => SettleKeepsLedger(s, payment, Confirmed, PaymentConfirmed);
      case Reject(payment) => SettleKeepsLedger(s, payment, PaymentRejected, AwaitingPayment);
      case Partial(payment) => PartialKeepsLedger(s, payment);
    }
  }

  lemma {:induction false} PaymentStepKeepsPayments(s: State, e: Step)
    ensures var r := Call(s, e); r.Ok? ==> PaymentsKept(s.payments, r.value.payments)
  {
  }
}
