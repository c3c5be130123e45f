/** The inventory pipeline and the move of a price between the China and the Rwanda channel
    (src/modules/listings/listings.service.ts, listing-inventory.util.ts and
    listing-pricing.util.ts). */
module Inventory {
  import opened Prelude
  import opened Marketplace
  import opened Pricing
  import Money

  datatype Stage = ChinaUnpaid | InTransit | AtPort | KigaliStock

  function Position(s: Stage): nat {
    match s case ChinaUnpaid => 0 case InTransit => 1 case AtPort => 2 case KigaliStock => 3
  }

  /** assertInventoryStageTransition passes. */
  predicate OneStep(from: Stage, to: Stage) {
    Position(to) == Position(from) + 1 || Position(from) == Position(to) + 1
  }

  function DefaultStage(sellerType: SellerType): Stage {
    match sellerType
    case UzaRwandaStock => KigaliStock
    case UzaChinaSourcing => ChinaUnpaid
    case LocalSeller => KigaliStock
    case InternationalSeller => ChinaUnpaid
  }

  // ----- pricing of a listing -----

  predicate HasRequiredCost(sellerType: SellerType, input: Input) {
    match sellerType
    case UzaRwandaStock => input.base.Some?
    case LocalSeller => input.payout.Some?
    case UzaChinaSourcing => input.fob.Some?
    case InternationalSeller => input.fob.Some?
  }

  function FromUsd(row: PriceRow, usd: Option<real>, rate: real): Option<real> {
    if row.currency.RWF? || usd.None? then None else Some(Money.UsdToRwf(usd.value, rate) as real)
  }

  /** mergeListingPricingInput, before its check. */
  function Merge(partial: Input, row: PriceRow, rate: real): Input {
    Input(
      partial.base.Or(row.amounts.base).Or(FromUsd(row, row.baseUsd, rate)),
      partial.fob.Or(row.amounts.fob).Or(FromUsd(row, row.fobUsd, rate)),
      partial.payout.Or(row.amounts.payout).Or(FromUsd(row, row.payoutUsd, rate)),
      partial.discount.Or(row.amounts.discount).Or(FromUsd(row, row.discountUsd, rate)))
  }

  /** resolveListingPricing: the price data to write. */
  function ResolvePricing(
    rules: Rules, rate: real, sellerType: SellerType, country: string, partial: Input, ruleId: Option<RuleId>,
    existing: Option<PriceRow>): Result<PriceRow>
  {
    var input := if existing.Some? then Merge(partial, existing.value, rate) else partial;
    if !HasRequiredCost(sellerType, input) then Err(BadRequest)
    else
      match CalculatePrice(rules, sellerType, input, country, ruleId, rate)
      case Err(e) => Err(e)
      case Ok(b) => Ok(ToWrite(b, ruleId, existing))
  }

  function InFrancs(row: PriceRow, own: Option<real>, amount: real, rate: real): real {
    if row.currency.RWF? || own.Some? then amount else Round(amount * rate) as real
  }

  /** migratePricingForInventoryChannel into the Rwanda channel. */
  function MigrateToRwanda(rules: Rules, rate: real, row: PriceRow, country: string): Result<PriceRow> {
    var a := row.amounts;
    var amount := a.base.Or(row.finalPrice).Or(row.displayPrice).Or(row.baseUsd).GetOr(row.finalUsd);
    var partial := Input(Some(InFrancs(row, a.base, amount, rate)), None, None, a.discount);
    match ResolvePricing(rules, rate, UzaRwandaStock, country, partial, PinnedRule(row.notes), Some(row))
    case Err(e) => Err(e)
    case Ok(w) =>
      var kept := if row.finalPrice.Some? then w.(finalPrice := row.finalPrice, displayPrice := row.finalPrice) else w;
      Ok(UpdateRow(row, kept.(amounts := kept.amounts.(fob := a.fob.Or(kept.amounts.fob)))))
  }

  /** migratePricingForInventoryChannel into the China channel. */
  function MigrateToChina(rules: Rules, rate: real, row: PriceRow, country: string): Result<PriceRow> {
    var a := row.amounts;
    var amount := a.fob.Or(row.finalPrice).Or(row.fobUsd).Or(row.baseUsd).GetOr(row.finalUsd);
    var partial := Input(None, Some(InFrancs(row, a.fob, amount, rate)), None, a.discount);
    match ResolvePricing(rules, rate, UzaChinaSourcing, country, partial, PinnedRule(row.notes), Some(row))
    case Err(e) => Err(e)
    case Ok(w) => Ok(UpdateRow(row, w.(amounts := w.amounts.(base := a.base.Or(w.amounts.base)))))
  }

  // ----- the pipeline -----

  datatype Vehicle = Vehicle(
    sellerType: SellerType,
    country: string,
    stage: Stage,
    paidAt: Option<int>,
    portAt: Option<int>,
    kigaliAt: Option<int>,
    pricing: Option<PriceRow>)

  /** A listing as createByAdmin inserts it. */
  function Created(sellerType: SellerType, country: string, pricing: PriceRow): Vehicle {
    Vehicle(sellerType, country, DefaultStage(sellerType), None, None, None, Some(pricing))
  }

  predicate NeedsHealing(v: Vehicle, to: Stage) {
    && v.stage.KigaliStock? && to.KigaliStock?
    && (v.sellerType.UzaChinaSourcing?
        || v.pricing.None?
        || (v.pricing.value.amounts.base.None? && v.pricing.value.baseUsd.None?))
  }

  /** The listing row that the stage change writes. */
  function Moved(v: Vehicle, to: Stage, now: int): Vehicle {
    var w := v.(stage := to,
                paidAt := if to.InTransit? then v.paidAt.Or(Some(now)) else v.paidAt,
                portAt := if to.AtPort? then v.portAt.Or(Some(now)) else v.portAt);
    if to.KigaliStock? then
      w.(kigaliAt := v.kigaliAt.Or(Some(now)), sellerType := UzaRwandaStock, country := "RW")
    else if v.stage.KigaliStock? then
      w.(sellerType := UzaChinaSourcing, country := if v.country == "" || v.country == "RW" then "CN" else v.country)
    else w
  }

  /** The separate update of the price that follows the listing update. */
  function MigratePricing(v: Vehicle, rules: Rules, rate: real): (Vehicle, Option<Error>) {
    if v.pricing.None? then (v, None)
    else
      var r := if v.sellerType.UzaRwandaStock? then MigrateToRwanda(rules, rate, v.pricing.value, v.country)
               else MigrateToChina(rules, rate, v.pricing.value, v.country);
      match r
      case Ok(row) => (v.(pricing := Some(row)), None)
      case Err(e) => (v, Some(e))
  }

  /** advanceInventoryStage. The listing and its price are updated one after the other, outside a
      transaction, so a price that cannot be found leaves the listing moved. */
  function Advance(v: Vehicle, to: Stage, now: int, rules: Rules, rate: real): (Vehicle, Option<Error>) {
    if NeedsHealing(v, to) then MigratePricing(Moved(v, to, now), rules, rate)
    else if !OneStep(v.stage, to) then (v, Some(BadRequest))
    else if to.KigaliStock? || v.stage.KigaliStock? then MigratePricing(Moved(v, to, now), rules, rate)
    else (Moved(v, to, now), None)
  }

  class ListingRow {
    var sellerType: SellerType
    var country: string
    var stage: Stage
    var paidAt: Option<int>
    var portAt: Option<int>
    var kigaliAt: Option<int>
    var pricing: Option<PriceRow>

    ghost function View(): Vehicle
      reads this
    {
      Vehicle(sellerType, country, stage, paidAt, portAt, kigaliAt, pricing)
    }

    constructor CreateByAdmin(sellerType: SellerType, country: string, pricing: PriceRow)
      ensures View() == Created(sellerType, country, pricing)
    {
      this.sellerType, this.country, this.stage := sellerType, country, DefaultStage(sellerType);
      this.paidAt, this.portAt, this.kigaliAt := None, None, None;
      this.pricing := Some(pricing);
    }

    method UpdatePricing(rules: Rules, rate: real) returns (error: Option<Error>)
      modifies this`pricing
      ensures (View(), error) == MigratePricing(old(View()), rules, rate)
    {
      if pricing.None? {
        return None;
      }
      var r := if sellerType.UzaRwandaStock? then MigrateToRwanda(rules, rate, pricing.value, country)
               else MigrateToChina(rules, rate, pricing.value, country);
      if r.Err? {
        return Some(r.error);
      }
      pricing, error := Some(r.value), None;
    }

    method AdvanceInventoryStage(to: Stage, now: int, rules: Rules, rate: real) returns (error: Option<Error>)
      modifies this
      ensures (View(), error) == Advance(old(View()), to, now, rules, rate)
    {
      var from := stage;
      if !(from.KigaliStock? && to.KigaliStock?
           && (sellerType.UzaChinaSourcing? || pricing.None?
               || (pricing.value.amounts.base.None? && pricing.value.baseUsd.None?)))
         && !OneStep(from, to)
      {
        return Some(BadRequest);
      }
      stage := to;
      if to.InTransit? {
        paidAt := paidAt.Or(Some(now));
      }
      if to.AtPort? {
        portAt := portAt.Or(Some(now));
      }
      if to.KigaliStock? {
        kigaliAt := kigaliAt.Or(Some(now));
        sellerType, country := UzaRwandaStock, "RW";
      } else if from.KigaliStock? {
        sellerType := UzaChinaSourcing;
        country := if country == "" || country == "RW" then "CN" else country;
      } else {
        return None;
      }
      error := UpdatePricing(rules, rate);
    }
  }

  // ----- what every run keeps -----

  datatype Event =
    | AdvanceTo(to: Stage, now: int, rules: Rules, rate: real)
    | PriceChange(pricing: Option<PriceRow>)  // a rule sync or an edit
    | CountryEdit(country: string)            // an edit of the listing by an admin

  function Apply(v: Vehicle, e: Event): Vehicle {
    match e
    case AdvanceTo(to, now, rules, rate) => Advance(v, to, now, rules, rate).0
    case PriceChange(pricing) => v.(pricing := pricing)
    case CountryEdit(country) => v.(country := country)
  }

  function Run(v: Vehicle, events: seq<Event>): Vehicle
    decreases |events|
  {
    if events == [] then v else Run(Apply(v, events[0]), events[1..])
  }

  predicate ChannelFitsStage(v: Vehicle) {
    && (v.sellerType.UzaRwandaStock? || v.sellerType.UzaChinaSourcing?)
    && (v.sellerType.UzaRwandaStock? <==> v.stage.KigaliStock?)
  }

  /** A milestone once reached is dated. */
  predicate MilestonesDated(v: Vehicle) {
    && (Position(v.stage) >= 1 ==> v.paidAt.Some?)
    && (Position(v.stage) >= 2 ==> v.portAt.Some?)
    && (Position(v.stage) >= 3 ==> v.kigaliAt.Some?)
  }

  predicate DatesKept(v: Vehicle, w: Vehicle) {
    && (v.paidAt.Some? ==> w.paidAt == v.paidAt)
    && (v.portAt.Some? ==> w.portAt == v.portAt)
    && (v.kigaliAt.Some? ==> w.kigaliAt == v.kigaliAt)
  }

  lemma {:induction false} MigrationKeepsRow(v: Vehicle, rules: Rules, rate: real)
    ensures MigratePricing(v, rules, rate).0.(pricing := v.pricing) == v
  {
  }

  /** Even a call that fails after moving the listing keeps the channel with the stage. */
  lemma {:induction false} StepKeepsPipeline(v: Vehicle, e: Event)
    ensures ChannelFitsStage(v) ==> ChannelFitsStage(Apply(v, e))
    ensures MilestonesDated(v) ==> MilestonesDated(Apply(v, e))
    ensures DatesKept(v, Apply(v, e))
  {
    match e {
      case AdvanceTo(to, now, rules, rate) => MigrationKeepsRow(Moved(v, to, now), rules, rate);
      case _ =>
    }
  }

  lemma {:induction false} RunKeepsPipeline(v: Vehicle, events: seq<Event>)
    ensures ChannelFitsStage(v) ==> ChannelFitsStage(Run(v, events))
    ensures MilestonesDated(v) ==> MilestonesDated(Run(v, events))
    ensures DatesKept(v, Run(v, events))
    decreases |events|
  {
    if events != [] {
      StepKeepsPipeline(v, events[0]);
      RunKeepsPipeline(Apply(v, events[0]), events[1..]);
    }
  }

  lemma {:induction false} RunConcat(v: Vehicle, a: seq<Event>, b: seq<Event>)
    ensures Run(v, a + b) == Run(Run(v, a), b)
    decreases |a|
  {
    if a == [] {
      assert a + b == b;
    } else {
      assert (a + b)[1..] == a[1..] + b;
      RunConcat(Apply(v, a[0]), a[1..], b);
    }
  }

  /** Whatever happens to a platform listing, it sells from Rwanda stock exactly while it is in
      Kigali, a date once set never changes, and one that started in China has every milestone
      it is at or past dated. */
  lemma {:induction false} PlatformPipeline(
    sellerType: SellerType, country: string, pricing: PriceRow, events: seq<Event>, more: seq<Event>)
    requires sellerType.UzaRwandaStock? || sellerType.UzaChinaSourcing?
    ensures var v := Run(Created(sellerType, country, pricing), events);
      && (v.sellerType.UzaRwandaStock? <==> v.stage.KigaliStock?)
      && (sellerType.UzaChinaSourcing? ==> MilestonesDated(v))
      && DatesKept(v, Run(Created(sellerType, country, pricing), events + more))
  {
    var start := Created(sellerType, country, pricing);
    RunKeepsPipeline(start, events);
    RunConcat(start, events, more);
    RunKeepsPipeline(Run(start, events), more);
  }

  // ----- one stage at a time -----

  /** The stages are next to each other in the pipeline. */
  predicate AreNeighbours(a: Stage, b: Stage) {
    -1 <= Position(a) - Position(b) <= 1 && a != b
  }

  /** A vehicle in Kigali that still sells from China, or has no price there. */
  predicate IsUnhealed(v: Vehicle) {
    v.stage.KigaliStock?
    && (v.sellerType.UzaChinaSourcing? || v.pricing.None?
        || (v.pricing.value.amounts.base.None? && v.pricing.value.baseUsd.None?))
  }

  /** A vehicle gets to a stage exactly if it is there or next to it. Any other move, and one to its
      own stage but for healing it in Kigali, throws and changes nothing. A date is set by the first
      arrival, to the time of it, and the country is that of the channel. */
  lemma {:induction false} AdvanceIs(v: Vehicle, to: Stage, now: int, rules: Rules, rate: real)
    ensures var (w, e) := Advance(v, to, now, rules, rate);
      && (w.stage == to <==> to == v.stage || AreNeighbours(v.stage, to))
      && (!AreNeighbours(v.stage, to) && !(to.KigaliStock? && IsUnhealed(v)) ==> w == v && e == Some(BadRequest))
      && (v.paidAt.None? ==>
            w.paidAt == if to.InTransit? && AreNeighbours(v.stage, to) then Some(now) else None)
      && (v.portAt.None? ==>
            w.portAt == if to.AtPort? && AreNeighbours(v.stage, to) then Some(now) else None)
      && (v.kigaliAt.None? ==>
            w.kigaliAt == if to.KigaliStock? && (v.stage.AtPort? || IsUnhealed(v)) then Some(now) else None)
      && w.country == (if to.KigaliStock? && (v.stage.AtPort? || IsUnhealed(v)) then "RW"
                       else if to.AtPort? && v.stage.KigaliStock? && v.country in ["", "RW"] then "CN"
                       else v.country)
  {
    MigrationKeepsRow(Moved(v, to, now), rules, rate);
  }

  /** The stage changes of a run that were asked for. */
  function Advances(events: seq<Event>): nat {
    if events == [] then 0 else Advances(events[1..]) + if events[0].AdvanceTo? then 1 else 0
  }

  lemma {:induction false} StepMovesOne(v: Vehicle, e: Event)
    ensures var w := Apply(v, e);
      if e.AdvanceTo? then -1 <= Position(w.stage) - Position(v.stage) <= 1 else w.stage == v.stage
  {
    if e.AdvanceTo? {
      AdvanceIs(v, e.to, e.now, e.rules, e.rate);
    }
  }

  /** A run moves a vehicle no further than it has stage changes: from China to Kigali takes three. */
  lemma {:induction false} RunMovesOneByOne(v: Vehicle, events: seq<Event>)
    ensures 0 - Advances(events) <= Position(Run(v, events).stage) - Position(v.stage) <= Advances(events)
    decreases |events|
  {
    if events != [] {
      StepMovesOne(v, events[0]);
      RunMovesOneByOne(Apply(v, events[0]), events[1..]);
    }
  }

  /** A listing starts in Kigali in the two channels that sell from Rwanda, and in China otherwise. */
  lemma {:induction false} StartsWhereItSells(sellerType: SellerType, country: string, pricing: PriceRow)
    ensures var v := Created(sellerType, country, pricing);
      && v.stage == (if sellerType.UzaRwandaStock? || sellerType.LocalSeller? then KigaliStock else ChinaUnpaid)
      && v.sellerType == sellerType && v.country == country && v.pricing == Some(pricing)
      && v.paidAt.None? && v.portAt.None? && v.kigaliAt.None?
  {
  }
}
