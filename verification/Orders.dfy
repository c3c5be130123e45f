/** Orders and their tracking (src/modules/orders/orders.service.ts, order-stages.ts), and the
    metric of a delivery (src/modules/sustainability/sustainability.service.ts). */
module Orders {
  import opened Prelude
  import opened Marketplace
  import opened Commerce

  /** ORDER_STAGES */
  function Stages(sellerType: SellerType): (stages: seq<OrderStatus>)
    ensures stages != []
  {
    match sellerType
    case UzaRwandaStock => [OrderPaymentConfirmed, VehicleReserved, ReadyForHandover, Delivered]
    case LocalSeller => [OrderPaymentConfirmed, VehicleReserved, Processing, ReadyForHandover, Delivered]
    case UzaChinaSourcing =>
      [OrderPaymentConfirmed, VehicleReserved, Processing, InTransit, Arrived, Clearance, ReadyForHandover, Delivered]
    case InternationalSeller =>
      [OrderPaymentConfirmed, VehicleReserved, Processing, InTransit, Arrived, Clearance, ReadyForHandover, Delivered]
  }

  /** The element after the first place where current stands, unless that is the last place. */
  function StageAfter(stages: seq<OrderStatus>, current: OrderStatus): Option<OrderStatus> {
    if |stages| < 2 then None
    else if stages[0] == current then Some(stages[1])
    else StageAfter(stages[1..], current)
  }

  function GetNextOrderStatus(sellerType: SellerType, current: OrderStatus): Option<OrderStatus> {
    StageAfter(Stages(sellerType), current)
  }

  predicate HasOrder(orders: seq<Order>, invoice: nat) {
    exists o :: 0 <= o < |orders| && orders[o].invoice == invoice
  }

  function NewOrder(s: State, invoice: nat, listing: nat): Order
    requires invoice < |s.invoices| && listing in s.listings
  {
    Order(s.invoices[invoice].user, listing, invoice,
          s.invoices[invoice].sellerType.GetOr(s.listings[listing].sellerType),
          OrderPaymentConfirmed, [OrderPaymentConfirmed])
  }

  function CreateFromInvoice(s: State, invoice: nat): Result<State> {
    if HasOrder(s.orders, invoice) then Ok(s)
    else if invoice >= |s.invoices| || s.invoices[invoice].listing.None?
            || s.invoices[invoice].listing.value !in s.listings then Err(BadRequest)
    else Ok(s.(orders := s.orders + [NewOrder(s, invoice, s.invoices[invoice].listing.value)]))
  }

  /** The status and the tracking event are written in one transaction. */
  function Moved(o: Order, to: OrderStatus): Order {
    o.(status := to, log := o.log + [to])
  }

  /** The transaction of advanceOrderStatus; the metric of a delivery is written after it. */
  function AdvanceInDatabase(s: State, order: nat): Result<State> {
    if order >= |s.orders| then Err(NotFound)
    else if s.orders[order].status.OrderCancelled? || s.orders[order].status.Delivered? then Err(BadRequest)
    else
      match GetNextOrderStatus(s.orders[order].sellerType, s.orders[order].status)
      case None => Err(BadRequest)
      case Some(next) =>
        Ok(s.(orders := s.orders[order := Moved(s.orders[order], next)],
              toRecord := if next.Delivered? then s.toRecord + multiset{order} else s.toRecord))
  }

  function RecordDelivery(s: State, order: nat): State {
    if order < |s.orders| && s.orders[order].listing in s.listings then s.(metrics := s.metrics + [order]) else s
  }

  function CancelOrder(s: State, order: nat): Result<State> {
    if order >= |s.orders| then Err(NotFound)
    else if s.orders[order].status.OrderCancelled? then Err(BadRequest)
    else Ok(s.(orders := s.orders[order := Moved(s.orders[order], OrderCancelled)]))
  }

  datatype Step =
    | FinishConfirmation(invoice: nat)  // what confirmPayment does after its transaction
    | Advance(order: nat)
    | FinishDelivery(order: nat)        // what advanceOrderStatus does after its transaction
    | Cancel(order: nat)

  /** Work that was left is taken up at most once, whether or not it then succeeds. */
  function OrderAfterConfirmation(s: State, invoice: nat): State {
    if s.toOrder[invoice] == 0 then s
    else Outcome(s, CreateFromInvoice(s, invoice)).0.(toOrder := s.toOrder - multiset{invoice})
  }

  function MetricAfterDelivery(s: State, order: nat): State {
    if s.toRecord[order] == 0 then s
    else RecordDelivery(s, order).(toRecord := s.toRecord - multiset{order})
  }

  function Call(s: State, e: Step): Result<State> {
    match e
    case FinishConfirmation(invoice) => Ok(OrderAfterConfirmation(s, invoice))
    case Advance(order) => AdvanceInDatabase(s, order)
    case FinishDelivery(order) => Ok(MetricAfterDelivery(s, order))
    case Cancel(order) => CancelOrder(s, order)
  }

  // ----- the tracking log -----

  /** The stages of the log before a cancellation. */
  function Reached(o: Order): seq<OrderStatus> {
    if o.status.OrderCancelled? && o.log != [] then o.log[..|o.log| - 1] else o.log
  }

  /** The log is a non-empty prefix of the stages, then perhaps one cancellation; the status is
      its last entry. */
  predicate Tracked(o: Order) {
    && o.log != [] && o.log[|o.log| - 1] == o.status
    && Reached(o) != [] && Reached(o) <= Stages(o.sellerType)
  }

  predicate NoneTwice(stages: seq<OrderStatus>) {
    forall i, j :: 0 <= i < j < |stages| ==> stages[i] != stages[j]
  }

  lemma {:induction false} StageAfterIs(stages: seq<OrderStatus>, k: nat)
    requires k < |stages| && NoneTwice(stages)
    ensures StageAfter(stages, stages[k]) == if k + 1 < |stages| then Some(stages[k + 1]) else None
  {
    if |stages| >= 2 {
      if k > 0 {
        assert stages[1..][k - 1] == stages[k];
        StageAfterIs(stages[1..], k - 1);
      }
    }
  }

  lemma {:induction false} StagesWellFormed(sellerType: SellerType)
    ensures NoneTwice(Stages(sellerType))
    ensures OrderCancelled !in Stages(sellerType)
    ensures Stages(sellerType)[|Stages(sellerType)| - 1] == Delivered && |Stages(sellerType)| <= 8
    ensures Stages(sellerType)[0] == OrderPaymentConfirmed
  {
  }

  /** The place of a status in the life of an order. */
  function Rank(status: OrderStatus): nat {
    match status
    case InvoiceIssued => 0
    case OrderPaymentSubmitted => 1
    case OrderPaymentConfirmed => 2
    case VehicleReserved => 3
    case Processing => 4
    case InTransit => 5
    case Arrived => 6
    case Clearance => 7
    case ReadyForHandover => 8
    case Delivered => 9
    case OrderCancelled => 10
  }

  predicate IsShipped(sellerType: SellerType) {
    sellerType.UzaChinaSourcing? || sellerType.InternationalSeller?
  }

  /** Every channel goes through its stages in the order of an order's life: all of them from payment
      to delivery, but processing only for what is not in Rwanda stock, and the voyage only for what
      is shipped. */
  lemma {:induction false} StagesInOrder(sellerType: SellerType, status: OrderStatus)
    ensures var stages := Stages(sellerType);
      && (forall i, j :: 0 <= i < j < |stages| ==> Rank(stages[i]) < Rank(stages[j]))
      && (status in stages <==>
            2 <= Rank(status) <= 9
            && (status.Processing? ==> !sellerType.UzaRwandaStock?)
            && (5 <= Rank(status) <= 7 ==> IsShipped(sellerType)))
  {
    match sellerType {
      case UzaRwandaStock =>
      case LocalSeller =>
      case _ =>
        if 2 <= Rank(status) <= 9 {
          ShippedStage(sellerType, status);
        }
    }
  }

  lemma {:induction false} ShippedStage(sellerType: SellerType, status: OrderStatus)
    requires IsShipped(sellerType) && 2 <= Rank(status) <= 9
    ensures Stages(sellerType)[Rank(status) - 2] == status
  {
  }

  /** An order is delivered after three moves from Rwanda stock, four from a local seller, and seven
      when it is shipped. */
  lemma {:induction false} MovesToDelivery(o: Order)
    requires Tracked(o) && o.status.Delivered?
    ensures |o.log| - 1 == if o.sellerType.UzaRwandaStock? then 3 else if o.sellerType.LocalSeller? then 4 else 7
  {
    NextStage(o);
  }

  predicate AllTracked(orders: seq<Order>) {
    forall o :: 0 <= o < |orders| ==> Tracked(orders[o])
  }

  predicate OnePerInvoice(orders: seq<Order>) {
    forall a, b :: 0 <= a < b < |orders| ==> orders[a].invoice != orders[b].invoice
  }

  /** Nothing of an order but its status and log changes, and the log only grows. */
  predicate OrdersKept(before: seq<Order>, after: seq<Order>) {
    && |before| <= |after|
    && forall o :: 0 <= o < |before| ==>
         before[o].log <= after[o].log
         && after[o] == before[o].(status := after[o].status, log := after[o].log)
  }

  /** The stage that follows is the next of the list; there is one until the order is delivered. */
  lemma {:induction false} NextStage(o: Order)
    requires Tracked(o) && !o.status.OrderCancelled?
    ensures var stages := Stages(o.sellerType);
      && |o.log| <= |stages| && (|o.log| == |stages| <==> o.status.Delivered?)
      && (|o.log| < |stages| ==> GetNextOrderStatus(o.sellerType, o.status) == Some(stages[|o.log|]))
  {
    StagesWellFormed(o.sellerType);
    var stages := Stages(o.sellerType);
    StageAfterIs(stages, |o.log| - 1);
    assert stages[|o.log| - 1] == o.status;
  }

  /** An order can be advanced exactly until it is cancelled or delivered, and cancelled until it
      is cancelled; either way its log stays well formed. */
  lemma {:induction false} MoveKeepsTracked(s: State, order: nat)
    requires AllTracked(s.orders) && order < |s.orders|
    ensures var o := s.orders[order];
      && (AdvanceInDatabase(s, order).Ok? <==> !o.status.OrderCancelled? && !o.status.Delivered?)
      && (AdvanceInDatabase(s, order).Ok? ==> AllTracked(AdvanceInDatabase(s, order).value.orders))
      && (CancelOrder(s, order).Ok? ==> AllTracked(CancelOrder(s, order).value.orders))
  {
    var o := s.orders[order];
    if !o.status.OrderCancelled? {
      NextStage(o);
      StagesWellFormed(o.sellerType);
      CancelledIsTracked(o);
      if !o.status.Delivered? {
        AdvancedIsTracked(o);
      }
    }
  }

  lemma {:induction false} AdvancedIsTracked(o: Order)
    requires Tracked(o) && !o.status.OrderCancelled? && !o.status.Delivered?
    ensures |o.log| < |Stages(o.sellerType)| && Tracked(Moved(o, Stages(o.sellerType)[|o.log|]))
  {
    NextStage(o);
    StagesWellFormed(o.sellerType);
    var next := Stages(o.sellerType)[|o.log|];
    assert next in Stages(o.sellerType);
    assert Reached(Moved(o, next)) == o.log + [next];
  }

  lemma {:induction false} CancelledIsTracked(o: Order)
    requires Tracked(o) && !o.status.OrderCancelled?
    ensures Tracked(Moved(o, OrderCancelled))
  {
    assert Reached(Moved(o, OrderCancelled)) == o.log;
  }

  lemma {:induction false} NewIsTracked(s: State, invoice: nat, listing: nat)
    requires invoice < |s.invoices| && listing in s.listings
    ensures Tracked(NewOrder(s, invoice, listing))
  {
    var o := NewOrder(s, invoice, listing);
    StagesWellFormed(o.sellerType);
    assert Reached(o) == [OrderPaymentConfirmed];
  }

  lemma {:induction false} CreateKeepsOrders(s: State, invoice: nat)
    requires AllTracked(s.orders) && OnePerInvoice(s.orders)
    ensures var t := Outcome(s, CreateFromInvoice(s, invoice)).0;
      && AllTracked(t.orders) && OnePerInvoice(t.orders) && OrdersKept(s.orders, t.orders)
      && t == s.(orders := t.orders)
  {
    var r := CreateFromInvoice(s, invoice);
    if r.Ok? && r.value != s {
      NewIsTracked(s, invoice, s.invoices[invoice].listing.value);
    }
  }

  lemma {:induction false} MovedRow(orders: seq<Order>, order: nat, to: OrderStatus)
    requires order < |orders| && OnePerInvoice(orders)
    ensures var after := orders[order := Moved(orders[order], to)];
      OnePerInvoice(after) && OrdersKept(orders, after)
  {
  }

  ghost predicate GoodAfter(before: seq<Order>, after: seq<Order>) {
    AllTracked(after) && OnePerInvoice(after) && OrdersKept(before, after)
  }

  lemma {:induction false} AdvanceKeepsOrders(s: State, order: nat)
    requires AllTracked(s.orders) && OnePerInvoice(s.orders)
    ensures var r := AdvanceInDatabase(s, order); r.Ok? ==> GoodAfter(s.orders, r.value.orders)
  {
    if AdvanceInDatabase(s, order).Ok? {
      var o := s.orders[order];
      MoveKeepsTracked(s, order);
      MovedRow(s.orders, order, GetNextOrderStatus(o.sellerType, o.status).value);
    }
  }

  lemma {:induction false} CancelKeepsOrders(s: State, order: nat)
    requires AllTracked(s.orders) && OnePerInvoice(s.orders)
    ensures var r := CancelOrder(s, order); r.Ok? ==> GoodAfter(s.orders, r.value.orders)
  {
    if order < |s.orders| {
      MoveKeepsTracked(s, order);
      MovedRow(s.orders, order, OrderCancelled);
    }
  }

  lemma {:induction false} CreateIs(s: State, invoice: nat)
    ensures var t := Outcome(s, CreateFromInvoice(s, invoice)).0;
      && t == s.(orders := t.orders)
      && (t.orders == s.orders
          || (invoice < |s.invoices| && s.invoices[invoice].listing.Some?
              && s.invoices[invoice].listing.value in s.listings && !HasOrder(s.orders, invoice)
              && t.orders == s.orders + [NewOrder(s, invoice, s.invoices[invoice].listing.value)]))
  {
  }

  lemma {:induction false} OrderStepKeepsOrders(s: State, e: Step)
    requires AllTracked(s.orders) && OnePerInvoice(s.orders)
    ensures var r := Call(s, e); r.Ok? ==> GoodAfter(s.orders, r.value.orders)
  {
    match e {
      case FinishConfirmation(invoice) => CreateKeepsOrders(s, invoice);
      case Advance(order) => AdvanceKeepsOrders(s, order);
      case FinishDelivery(order) =>
      case Cancel(order) => CancelKeepsOrders(s, order);
    }
  }

  // ----- metrics -----

  function Deliveries(orders: seq<Order>, o: nat): nat {
    if o < |orders| && Delivered in orders[o].log then 1 else 0
  }

  /** Metrics written and metrics owed. */
  function Accounted(s: State, o: nat): nat {
    multiset(s.metrics)[o] + s.toRecord[o]
  }

  /** A metric is written or owed for an order exactly when the order is delivered. */
  predicate Balanced(s: State, t: State, o: nat) {
    Accounted(t, o) - Accounted(s, o) == Deliveries(t.orders, o) - Deliveries(s.orders, o)
  }

  predicate ListingsExist(s: State) {
    forall o :: 0 <= o < |s.orders| ==> s.orders[o].listing in s.listings
  }

  lemma {:induction false} NotDeliveredBefore(o: Order)
    requires Tracked(o) && !o.status.OrderCancelled?
    ensures Delivered in o.log <==> o.status.Delivered?
  {
    NextStage(o);
    StagesWellFormed(o.sellerType);
    var stages := Stages(o.sellerType);
    assert forall k :: 0 <= k < |o.log| ==> o.log[k] == stages[k];
  }

  lemma {:induction false} NewIsNotDelivered(s: State, invoice: nat, o: nat)
    ensures var t := Outcome(s, CreateFromInvoice(s, invoice)).0;
      Deliveries(t.orders, o) == Deliveries(s.orders, o)
  {
  }

  lemma {:induction false} CancelIsNoDelivery(s: State, order: nat, o: nat)
    ensures Deliveries(Outcome(s, CancelOrder(s, order)).0.orders, o) == Deliveries(s.orders, o)
  {
  }

  lemma {:induction false} AdvanceIsAccounted(s: State, order: nat, o: nat)
    requires AllTracked(s.orders)
    ensures var r := AdvanceInDatabase(s, order);
      r.Ok? ==> Balanced(s, r.value, o)
  {
    if AdvanceInDatabase(s, order).Ok? {
      NotDeliveredBefore(s.orders[order]);
    }
  }

  lemma {:induction false} FinishIsAccounted(s: State, order: nat, o: nat)
    requires ListingsExist(s) && Accounted(s, order) <= Deliveries(s.orders, order)
    ensures var r := Call(s, FinishDelivery(order)); r.Ok? && Balanced(s, r.value, o)
  {
    assert s.toRecord[order] > 0 ==> order < |s.orders|;
  }

  lemma {:induction false} DeliveryIsAccounted(s: State, e: Step, o: nat)
    requires AllTracked(s.orders) && ListingsExist(s)
    requires e.FinishDelivery? ==> Accounted(s, e.order) <= Deliveries(s.orders, e.order)
    ensures var r := Call(s, e);
      r.Ok? ==> Balanced(s, r.value, o)
  {
    match e {
      case FinishConfirmation(invoice) => NewIsNotDelivered(s, invoice, o);
      case Advance(order) => AdvanceIsAccounted(s, order, o);
      case FinishDelivery(order) =>
        FinishIsAccounted(s, order, o);
      case Cancel(order) => CancelIsNoDelivery(s, order, o);
    }
  }

  lemma {:induction false} MetricsOnlyGrow(s: State, e: Step)
    ensures s.metrics <= Outcome(s, Call(s, e)).0.metrics
  {
    match e {
      case FinishConfirmation(invoice) => CreateIs(s, invoice);
      case _ =>
    }
  }
}
