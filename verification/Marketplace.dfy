/** Enumerations and the listing status table shared by the services. */
module Marketplace {

  datatype SellerType = UzaRwandaStock | UzaChinaSourcing | LocalSeller | InternationalSeller

  datatype ListingStatus =
    | Draft
    | PendingReview
    | Approved
    | Published
    | Sold
    | Reserved
    | Suspended
    | Rejected
    | Expired
    | Archived

  /** The table of src/modules/listings/listing-transitions.ts. */
  predicate CanTransition(from: ListingStatus, to: ListingStatus) {
    match from
    case Draft => to.PendingReview?
    case PendingReview => to.Approved? || to.Rejected?
    case Approved => to.Published? || to.Rejected?
    case Published => to.Reserved? || to.Sold? || to.Suspended? || to.Expired? || to.Archived?
    case Reserved => to.Published? || to.Sold?
    case Rejected => to.Draft?
    case Suspended => to.Published?
    case Sold => to.Archived?
    case Expired => to.Draft?
    case Archived => false
  }

  /** Every step of the path is in the table. */
  predicate IsPath(path: seq<ListingStatus>) {
    forall i :: 0 <= i < |path| - 1 ==> CanTransition(path[i], path[i + 1])
  }

  /** A draft that is published for the first time was submitted and approved just before. */
  lemma {:induction false} FirstPublishedIsApproved(path: seq<ListingStatus>)
    requires IsPath(path) && |path| >= 2 && path[0].Draft? && path[|path| - 1].Published?
    requires forall i :: 0 <= i < |path| - 1 ==> !path[i].Published?
    ensures |path| >= 4 && path[|path| - 2].Approved? && path[|path| - 3].PendingReview?
  {
    var n := |path| - 1;
    assert CanTransition(path[n - 1], path[n]);
    if n >= 2 {
      assert CanTransition(path[n - 2], path[n - 1]);
    }
    if n >= 3 {
      assert CanTransition(path[n - 3], path[n - 2]);
    }
  }

  /** Off the market only a reservation, a suspension and an expiry lead back: a sold or archived
      listing is never published again. */
  lemma {:induction false} SoldIsFinal(path: seq<ListingStatus>, i: nat, j: nat)
    requires IsPath(path) && i < j < |path| && (path[i].Sold? || path[i].Archived?)
    ensures path[i].Sold? && path[j].Archived? && j == i + 1
  {
    assert CanTransition(path[i], path[i + 1]);
    assert i + 1 < j ==> CanTransition(path[i + 1], path[i + 2]);
  }

  /** What may follow a publication, from where one comes back, and what ends one. */
  lemma {:induction false} AroundPublished(s: ListingStatus)
    ensures CanTransition(Published, s) && CanTransition(s, Published) <==> s.Reserved? || s.Suspended?
    ensures CanTransition(Published, s) && !CanTransition(s, Published) <==> s.Sold? || s.Expired? || s.Archived?
    ensures CanTransition(s, Sold) <==> s.Published? || s.Reserved?
    ensures CanTransition(s, Archived) <==> s.Published? || s.Sold?
    ensures CanTransition(s, Draft) <==> s.Rejected? || s.Expired?
    ensures CanTransition(s, Rejected) <==> s.PendingReview? || s.Approved?
  {
  }

  datatype PaymentStatus = Submitted | UnderVerification | Confirmed | PaymentRejected | Refunded

  /** The table of src/modules/payments/payment-transitions.ts. */
  predicate CanPaymentTransition(from: PaymentStatus, to: PaymentStatus) {
    match from
    case Submitted => to.UnderVerification?
    case UnderVerification => to.Confirmed? || to.PaymentRejected?
    case Confirmed => to.Refunded?
    case PaymentRejected => false
    case Refunded => false
  }
}
