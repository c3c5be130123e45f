/** Prices made, edited and re-priced, in all four channels: listing creation, price edits and the
    rule sync over the same rows. */
module Repricing {
  import opened Prelude
  import opened Marketplace
  import opened Pricing
  import opened Inventory
  import Money
  import RuleSync

  /** The one cost that the channel prices from. */
  function CostOf(sellerType: SellerType, input: Input): Option<real> {
    match sellerType
    case UzaRwandaStock => input.base
    case LocalSeller => input.payout
    case _ => input.fob
  }

  /** A channel reads its own cost and the discount, and nothing else. */
  lemma {:induction false} OnlyOwnCost(sellerType: SellerType, a: Input, b: Input, rule: Rule, rate: real)
    requires CostOf(sellerType, a).GetOr(0.0) == CostOf(sellerType, b).GetOr(0.0)
    requires a.discount.GetOr(0.0) == b.discount.GetOr(0.0)
    ensures Calculate(sellerType, a, rule, rate) == Calculate(sellerType, b, rule, rate)
  {
    match sellerType {
      case UzaRwandaStock =>
        SamePrice(sellerType, a.(fob := None, payout := None), b.(fob := None, payout := None), rule, rate);
        assert Calculate(sellerType, a, rule, rate)
            == Calculate(sellerType, a.(fob := None, payout := None), rule, rate);
        assert Calculate(sellerType, b, rule, rate)
            == Calculate(sellerType, b.(fob := None, payout := None), rule, rate);
      case LocalSeller =>
        SamePrice(sellerType, a.(base := None, fob := None), b.(base := None, fob := None), rule, rate);
        assert Calculate(sellerType, a, rule, rate)
            == Calculate(sellerType, a.(base := None, fob := None), rule, rate);
        assert Calculate(sellerType, b, rule, rate)
            == Calculate(sellerType, b.(base := None, fob := None), rule, rate);
      case _ =>
        SamePrice(sellerType, a.(base := None, payout := None), b.(base := None, payout := None), rule, rate);
        assert Calculate(sellerType, a, rule, rate)
            == Calculate(sellerType, a.(base := None, payout := None), rule, rate);
        assert Calculate(sellerType, b, rule, rate)
            == Calculate(sellerType, b.(base := None, payout := None), rule, rate);
    }
  }

  /** A price holds the cost that it was made from. */
  lemma {:induction false} PriceHoldsCost(sellerType: SellerType, input: Input, rule: Rule, rate: real)
    requires Calculate(sellerType, input, rule, rate).Ok?
    ensures var a := Calculate(sellerType, input, rule, rate).value.amounts;
      && CostOf(sellerType, Input(a.base, a.fob, a.payout, a.discount)) == Some(CostOf(sellerType, input).GetOr(0.0))
      && a.discount == Some(input.discount.GetOr(0.0))
  {
  }

  lemma {:induction false} PricedAgain(sellerType: SellerType, input: Input, row: PriceRow, rule: Rule, rate: real)
    requires Calculate(sellerType, input, rule, rate).Ok?
    requires row.amounts == Calculate(sellerType, input, rule, rate).value.amounts
    ensures Calculate(sellerType, RuleSync.RowInput(row), rule, rate) == Calculate(sellerType, input, rule, rate)
  {
    PriceHoldsCost(sellerType, input, rule, rate);
    OnlyOwnCost(sellerType, RuleSync.RowInput(row), input, rule, rate);
  }

  lemma {:induction false} WrittenAgain(b: Breakdown, ruleId: Option<RuleId>, id: RuleId)
    requires ruleId.None? || ruleId == Some(id)
    ensures var row := ToWrite(b, ruleId, None);
      UpdateRow(row, ToWrite(b, Some(id), Some(row))) == row.(notes := ToWrite(b, Some(id), None).notes)
  {
  }

  /** In every channel a rule sync at the same rate leaves a price as it was made, whether the rule
      was named or active; it pins the price to the rule, if it was not, and sets the longest delivery
      time. */
  lemma {:induction false} SyncKeepsMadePrice(
    rules: Rules, rate: real, sellerType: SellerType, country: string, input: Input, ruleId: Option<RuleId>,
    id: RuleId, row: PriceRow, days: Option<int>)
    requires id in rules.byId && rules.byId[id].sellerType == sellerType
    requires ruleId == Some(id) || (ruleId.None? && rules.active(sellerType, country) == Some(id))
    requires ResolvePricing(rules, rate, sellerType, country, input, ruleId, None) == Ok(row)
    ensures var l := RuleSync.Listing(sellerType, country, Some(row), days);
      && RuleSync.Governs(rules, id, l)
      && var synced := RuleSync.Synced(rules, rate, id, l);
         && synced.pricing.Some? && synced.pricing.value == row.(notes := synced.pricing.value.notes)
         && PinnedRule(synced.pricing.value.notes) == Some(id)
         && (ruleId.Some? ==> synced.pricing == Some(row))
         && synced.deliveryDays == Some(rules.byId[id].deliveryDaysMax.GetOr(UsualDays(sellerType).1))
  {
    var rule := rules.byId[id];
    var b := Calculate(sellerType, input, rule, rate).value;
    PricedAgain(sellerType, input, row, rule, rate);
    WrittenAgain(b, ruleId, id);
    DaysAre(sellerType, input, rule, rate);
  }

  /** The shortest and the longest delivery that a channel promises without a rule for it. */
  function UsualDays(sellerType: SellerType): (int, int) {
    match sellerType
    case UzaRwandaStock => (1, 2)
    case LocalSeller => (2, 5)
    case UzaChinaSourcing => (42, 56)
    case InternationalSeller => (42, 70)
  }

  lemma {:induction false} DaysAre(sellerType: SellerType, input: Input, rule: Rule, rate: real)
    ensures var r := Calculate(sellerType, input, rule, rate);
      r.Ok? ==>
        && r.value.deliveryDaysMin == rule.deliveryDaysMin.GetOr(UsualDays(sellerType).0)
        && r.value.deliveryDaysMax == rule.deliveryDaysMax.GetOr(UsualDays(sellerType).1)
  {
  }

  // ----- edits -----

  /** What an edit prices from: the amount it names, else the row's in francs, else the row's in USD,
      converted, unless the row is in francs. */
  predicate IsEdited(named: Option<real>, francs: Option<real>, usd: Option<real>, row: PriceRow, rate: real,
                     used: Option<real>)
  {
    && (named.Some? ==> used == named)
    && (named.None? && francs.Some? ==> used == francs)
    && (named.None? && francs.None? ==>
          used == if row.currency.USD? && usd.Some? then Some(Money.UsdToRwf(usd.value, rate) as real) else None)
  }

  /** An edit prices a listing as if it were made anew from those amounts, and leaves the USD columns
      that it has. */
  lemma {:induction false} EditPricesLikeNew(
    rules: Rules, rate: real, sellerType: SellerType, country: string, row: PriceRow, partial: Input,
    ruleId: Option<RuleId>, input: Input)
    requires IsEdited(partial.base, row.amounts.base, row.baseUsd, row, rate, input.base)
    requires IsEdited(partial.fob, row.amounts.fob, row.fobUsd, row, rate, input.fob)
    requires IsEdited(partial.payout, row.amounts.payout, row.payoutUsd, row, rate, input.payout)
    requires IsEdited(partial.discount, row.amounts.discount, row.discountUsd, row, rate, input.discount)
    ensures var edited := ResolvePricing(rules, rate, sellerType, country, partial, ruleId, Some(row));
      var made := ResolvePricing(rules, rate, sellerType, country, input, ruleId, None);
      match made
      case Err(e) => edited == Err(e)
      case Ok(w) =>
        edited == Ok(w.(baseUsd := row.baseUsd, fobUsd := row.fobUsd, payoutUsd := row.payoutUsd,
                        discountUsd := row.discountUsd))
  {
  }

  lemma {:induction false} EditedHoldsCost(
    sellerType: SellerType, row: PriceRow, b: Breakdown, input: Input, id: RuleId)
    requires b.amounts.discount == Some(input.discount.GetOr(0.0))
    requires CostOf(sellerType, Input(b.amounts.base, b.amounts.fob, b.amounts.payout, b.amounts.discount))
      == Some(CostOf(sellerType, input).GetOr(0.0))
    ensures var stored := RuleSync.RowInput(UpdateRow(row, ToWrite(b, Some(id), Some(row))));
      CostOf(sellerType, stored) == Some(CostOf(sellerType, input).GetOr(0.0))
      && stored.discount == Some(input.discount.GetOr(0.0))
  {
  }

  /** Every amount that was computed is stored. */
  predicate HoldsAll(stored: Amounts, computed: Amounts) {
    && (computed.base.Some? ==> stored.base == computed.base)
    && (computed.fob.Some? ==> stored.fob == computed.fob)
    && (computed.payout.Some? ==> stored.payout == computed.payout)
    && (computed.shipping.Some? ==> stored.shipping == computed.shipping)
    && (computed.local.Some? ==> stored.local == computed.local)
    && (computed.taxes.Some? ==> stored.taxes == computed.taxes)
    && (computed.insurance.Some? ==> stored.insurance == computed.insurance)
    && (computed.storage.Some? ==> stored.storage == computed.storage)
    && (computed.clearing.Some? ==> stored.clearing == computed.clearing)
    && (computed.landing.Some? ==> stored.landing == computed.landing)
    && (computed.margin.Some? ==> stored.margin == computed.margin)
    && (computed.commission.Some? ==> stored.commission == computed.commission)
    && (computed.ruleDiscount.Some? ==> stored.ruleDiscount == computed.ruleDiscount)
    && (computed.discount.Some? ==> stored.discount == computed.discount)
  }

  /** A rule sync at the same rate leaves an edited price as the edit stored it, in every channel, and
      the edit stored every amount that it computed. */
  lemma {:induction false} SyncKeepsEditedPrice(
    rules: Rules, rate: real, sellerType: SellerType, country: string, row: PriceRow, partial: Input, id: RuleId,
    w: PriceRow, days: Option<int>)
    requires id in rules.byId && rules.byId[id].sellerType == sellerType
    requires ResolvePricing(rules, rate, sellerType, country, partial, Some(id), Some(row)) == Ok(w)
    ensures var stored := UpdateRow(row, w);
      var l := RuleSync.Listing(sellerType, country, Some(stored), days);
      && RuleSync.Governs(rules, id, l) && RuleSync.Synced(rules, rate, id, l).pricing == Some(stored)
      && HoldsAll(stored.amounts, w.amounts)
  {
    var rule, input := rules.byId[id], Merge(partial, row, rate);
    var b := Calculate(sellerType, input, rule, rate).value;
    var stored := UpdateRow(row, w);
    PriceHoldsCost(sellerType, input, rule, rate);
    EditedHoldsCost(sellerType, row, b, input, id);
    OnlyOwnCost(sellerType, RuleSync.RowInput(stored), input, rule, rate);
    RuleSync.RewriteIsStable(row, b, id);
  }

  /** A listing cannot be priced without the cost of its channel. */
  lemma {:induction false} PricedIff(
    rules: Rules, rate: real, sellerType: SellerType, country: string, input: Input, ruleId: Option<RuleId>)
    ensures var r := ResolvePricing(rules, rate, sellerType, country, input, ruleId, None);
      && (CostOf(sellerType, input).None? ==> r == Err(BadRequest))
      && (CostOf(sellerType, input).Some? ==>
            (r == Err(NotFound) <==> ChosenRule(rules, sellerType, country, ruleId).None?))
  {
  }

  // ----- which prices a sync leaves alone -----

  /** A sync touches no USD price, no other channel, no price pinned to another rule, and no unpinned
      one for which another rule is active; every other price of its channel it pins. */
  lemma {:induction false} SyncTouchesIff(rules: Rules, rate: real, id: RuleId, l: RuleSync.Listing)
    requires id in rules.byId && RuleSync.CanPrice(rules.byId[id])
    ensures var synced := RuleSync.Synced(rules, rate, id, l);
      if l.pricing.Some? && l.pricing.value.currency.RWF? && l.sellerType == rules.byId[id].sellerType
         && (l.pricing.value.notes.None? || l.pricing.value.notes.value.ruleId.None?
             ==> rules.active(l.sellerType, l.country) == Some(id))
         && (l.pricing.value.notes.Some? && l.pricing.value.notes.value.ruleId.Some?
             ==> l.pricing.value.notes.value.ruleId == Some(id))
      then synced.pricing.Some? && PinnedRule(synced.pricing.value.notes) == Some(id)
           && synced.sellerType == l.sellerType && synced.country == l.country
      else synced == l
  {
    if RuleSync.Governs(rules, id, l) {
      RuleSync.RepriceSucceedsIff(rules, rate, id, l);
    }
  }

  // ----- legacy prices -----

  /** A price in USD only. */
  predicate IsLegacy(row: PriceRow) {
    row.currency.USD? && row.amounts == NOTHING && row.finalPrice.None? && row.displayPrice.None?
  }

  lemma {:induction false} LegacyAmount(row: PriceRow, usd: real, rate: real)
    requires IsLegacy(row)
    ensures InFrancs(row, None, usd, rate) == Money.UsdToRwf(usd, rate) as real
  {
  }

  /** A legacy price moves into Kigali at its USD base price, or else its final price, converted. */
  lemma {:induction false} LegacyIntoKigali(rules: Rules, rate: real, row: PriceRow, country: string, usd: real)
    requires IsLegacy(row) && usd == row.baseUsd.GetOr(row.finalUsd)
    ensures var r := MigrateToRwanda(rules, rate, row, country);
      r.Ok? ==> r.value.currency.RWF? && r.value.amounts.base == Some(Money.UsdToRwf(usd, rate) as real)
  {
    LegacyAmount(row, usd, rate);
  }

  /** And into China at its USD FOB, or else its base or final price, converted. */
  lemma {:induction false} LegacyIntoChina(rules: Rules, rate: real, row: PriceRow, country: string, usd: real)
    requires IsLegacy(row) && usd == row.fobUsd.Or(row.baseUsd).GetOr(row.finalUsd)
    ensures var r := MigrateToChina(rules, rate, row, country);
      r.Ok? ==> r.value.currency.RWF? && r.value.amounts.fob == Some(Money.UsdToRwf(usd, rate) as real)
  {
    LegacyAmount(row, usd, rate);
  }
}
