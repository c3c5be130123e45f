/** The tables that invoices, payments, orders and bookings share. A row of a table that only grows
    is known by its place. */
module Commerce {
  import opened Prelude
  import opened Marketplace

  datatype InvoiceStatus =
    | InvoiceDraft
    | Sent
    | AwaitingPayment
    | PaymentSubmitted
    | InvoiceUnderVerification
    | PaymentConfirmed
    | PartiallyPaid
    | FullyPaid
    | InvoiceExpired
    | InvoiceRejected
    | InvoiceRefunded
    | InvoiceCancelled

  datatype OrderStatus =
    | InvoiceIssued
    | OrderPaymentSubmitted
    | OrderPaymentConfirmed
    | VehicleReserved
    | Processing
    | InTransit
    | Arrived
    | Clearance
    | ReadyForHandover
    | Delivered
    | OrderCancelled

  datatype BookingStatus =
    | BookingAwaitingPayment
    | BookingPaymentSubmitted
    | BookingUnderVerification
    | BookingConfirmed
    | BookingRejected
    | BookingCancelled
    | BookingExpired

  datatype Intent = Buy | Book

  datatype User = User(isActive: bool, deleted: bool, hasBuyerProfile: bool)

  datatype Listing = Listing(status: ListingStatus, deleted: bool, priced: bool, sellerType: SellerType)

  datatype Inquiry = Inquiry(user: Option<nat>, intent: Intent, listing: Option<nat>)

  datatype Invoice = Invoice(
    user: nat,
    listing: Option<nat>,
    sellerType: Option<SellerType>,
    status: InvoiceStatus,
    validUntil: int)

  datatype Payment = Payment(invoice: nat, status: PaymentStatus)

  /** log holds the stages of the order's tracking events, oldest first. */
  datatype Order = Order(
    user: nat,
    listing: nat,
    invoice: nat,
    sellerType: SellerType,
    status: OrderStatus,
    log: seq<OrderStatus>)

  datatype Booking = Booking(
    user: nat,
    listing: nat,
    feeRwf: real,
    feeUsd: real,
    status: BookingStatus,
    rejectionReason: Option<string>,
    proofs: seq<string>)

  /** The tables, and the work that a confirmation or a delivery has yet to do once its own
      transaction is over: invoices that await an order, orders that await a metric. */
  datatype State = State(
    users: map<nat, User>,
    listings: map<nat, Listing>,
    inquiries: seq<Inquiry>,
    invoices: seq<Invoice>,
    payments: seq<Payment>,
    orders: seq<Order>,
    bookings: seq<Booking>,
    metrics: seq<nat>,
    toOrder: multiset<nat>,
    toRecord: multiset<nat>)

  const EMPTY := State(map[], map[], [], [], [], [], [], [], multiset{}, multiset{})

  const DAY := 86_400_000  // milliseconds

  predicate IsActiveInvoice(status: InvoiceStatus) {
    status.Sent? || status.AwaitingPayment? || status.PaymentSubmitted? || status.InvoiceUnderVerification?
    || status.PartiallyPaid?
  }

  predicate HoldsInvoice(invoices: seq<Invoice>, user: nat, listing: nat) {
    exists i :: 0 <= i < |invoices| && invoices[i].user == user && invoices[i].listing == Some(listing)
                && IsActiveInvoice(invoices[i].status)
  }

  function WithInvoiceStatus(invoices: seq<Invoice>, i: nat, status: InvoiceStatus): seq<Invoice> {
    if i < |invoices| then invoices[i := invoices[i].(status := status)] else invoices
  }

  /** A reserved listing goes back on sale. */
  function Released(listings: map<nat, Listing>, listing: Option<nat>): map<nat, Listing> {
    if listing.Some? && listing.value in listings && listings[listing.value].status.Reserved? then
      listings[listing.value := listings[listing.value].(status := Published)]
    else listings
  }

  /** What a caller sees: the tables after the call, and the exception if there is one. */
  function Outcome(s: State, r: Result<State>): (State, Option<Error>) {
    match r case Ok(t) => (t, None) case Err(e) => (s, Some(e))
  }
}
