/** A vehicle's price on a visit to Kigali: from the port into the Rwanda channel and back
    (src/modules/listings/listings.service.ts and listing-pricing.util.ts). */
module PriceTrips {
  import opened Prelude
  import opened Marketplace
  import opened Pricing
  import opened Inventory
  import Money
  import RuleSync

  /** Into Kigali and, if that succeeds, back to the port. */
  function Visit(v: Vehicle, rules: Rules, rate: real, t: int, u: int): (Vehicle, Option<Error>) {
    var (inKigali, e) := Advance(v, KigaliStock, t, rules, rate);
    if e.Some? then (inKigali, e) else Advance(inKigali, AtPort, u, rules, rate)
  }

  /** A vehicle at the port with a price in francs. */
  predicate Visits(v: Vehicle) {
    v.stage.AtPort? && v.pricing.Some? && v.pricing.value.currency.RWF? && v.pricing.value.finalPrice.Some?
  }

  /** The rule that prices the row in Kigali. */
  function KigaliRule(rules: Rules, row: PriceRow): Option<Rule> {
    ChosenRule(rules, UzaRwandaStock, "RW", PinnedRule(row.notes))
  }

  /** The rule that prices the row on its way back into the China channel. */
  function ReturnRule(rules: Rules, row: PriceRow): Option<Rule> {
    ChosenRule(rules, UzaChinaSourcing, "CN", PinnedRule(row.notes))
  }

  /** The row but for the Rwanda base price, which a visit leaves behind. */
  function WithBase(row: PriceRow): PriceRow {
    row.(amounts := row.amounts.(base := row.amounts.base.Or(row.finalPrice)))
  }

  /** The visit succeeds and every other column is as it was. */
  predicate IsRestored(v: Vehicle, rules: Rules, rate: real, t: int, u: int) {
    v.pricing.Some?
    && var (back, e) := Visit(v, rules, rate, t, u);
       e.None? && back.pricing == Some(WithBase(v.pricing.value))
  }

  // ----- what a visit does to a row -----

  /** The row holds, in francs, what the China calculator makes of its own FOB and discount. */
  predicate PricedFromChina(row: PriceRow, rule: Rule, rate: real) {
    && row.currency.RWF? && row.amounts.fob.Some?
    && var b := CalcChinaSourcing(Input(None, row.amounts.fob, None, row.amounts.discount), rule, rate);
       && row.amounts == b.amounts.(base := row.amounts.base, payout := row.amounts.payout,
                                    commission := row.amounts.commission)
       && row.finalPrice == Some(b.finalPrice) && row.displayPrice == Some(b.finalPrice)
       && row.finalUsd == b.finalPriceUsd
       && var pinned := PinnedRule(row.notes);
          pinned.Some? ==> row.notes == Some(Notes(pinned, b.marginPercent, b.discountPercent))
  }

  lemma {:induction false} IntoRwanda(rules: Rules, rate: real, row: PriceRow)
    requires row.currency.RWF? && row.finalPrice.Some?
    ensures var r := MigrateToRwanda(rules, rate, row, "RW");
      && (r.Ok? <==> ChosenRule(rules, UzaRwandaStock, "RW", PinnedRule(row.notes)).Some?)
      && (r.Ok? ==>
            && r.value.finalPrice == row.finalPrice && r.value.displayPrice == row.finalPrice
            && r.value.currency.RWF? && PinnedRule(r.value.notes) == PinnedRule(row.notes)
            && (PinnedRule(row.notes).None? ==> r.value.notes == row.notes)
            && r.value.baseUsd == row.baseUsd && r.value.fobUsd == row.fobUsd
            && r.value.payoutUsd == row.payoutUsd && r.value.discountUsd == row.discountUsd
            && r.value.amounts == row.amounts.(base := Some(row.amounts.base.GetOr(row.finalPrice.value)),
                                               ruleDiscount := r.value.amounts.ruleDiscount,
                                               discount := Some(row.amounts.discount.GetOr(0.0))))
  {
  }

  /** The row that comes back, priced by the rule. */
  function Returned(row: PriceRow, rule: Rule, rate: real): PriceRow {
    var b := CalcChinaSourcing(Input(None, row.amounts.fob.Or(row.finalPrice), None, row.amounts.discount), rule, rate);
    var pinned := PinnedRule(row.notes);
    row.(finalUsd := b.finalPriceUsd,
         amounts := b.amounts.(base := row.amounts.base.Or(row.finalPrice), payout := row.amounts.payout,
                               commission := row.amounts.commission),
         finalPrice := Some(b.finalPrice), displayPrice := Some(b.finalPrice),
         notes := if pinned.Some? then Some(Notes(pinned, b.marginPercent, b.discountPercent)) else row.notes)
  }

  lemma {:induction false} BackToChina(rules: Rules, rate: real, row: PriceRow, mid: PriceRow)
    requires row.currency.RWF? && row.finalPrice.Some?
    requires mid.currency.RWF? && PinnedRule(mid.notes) == PinnedRule(row.notes)
    requires PinnedRule(row.notes).None? ==> mid.notes == row.notes
    requires mid.baseUsd == row.baseUsd && mid.fobUsd == row.fobUsd
    requires mid.payoutUsd == row.payoutUsd && mid.discountUsd == row.discountUsd
    requires mid.finalPrice == row.finalPrice
    requires mid.amounts == row.amounts.(base := row.amounts.base.Or(row.finalPrice),
                                         ruleDiscount := mid.amounts.ruleDiscount,
                                         discount := Some(row.amounts.discount.GetOr(0.0)))
    ensures var r := MigrateToChina(rules, rate, mid, "CN");
      var rule := ReturnRule(rules, row);
      && (r.Ok? <==> rule.Some?)
      && (rule.Some? ==> r.value == Returned(row, rule.value, rate))
  {
    var rule := ReturnRule(rules, row);
    if rule.Some? {
      var fob := mid.amounts.fob.Or(mid.finalPrice);
      var input := Merge(Input(None, fob, None, mid.amounts.discount), mid, rate);
      SameFromChina(input, Input(None, fob, None, row.amounts.discount), rule.value, rate);
    }
  }

  /** The China calculator reads the FOB and the discount. */
  lemma {:induction false} SameFromChina(a: Input, b: Input, rule: Rule, rate: real)
    requires a.fob.GetOr(0.0) == b.fob.GetOr(0.0) && a.discount.GetOr(0.0) == b.discount.GetOr(0.0)
    ensures CalcChinaSourcing(a, rule, rate) == CalcChinaSourcing(b, rule, rate)
  {
    var same := a.(base := b.base, payout := b.payout);
    assert CalcChinaSourcing(a, rule, rate) == CalcChinaSourcing(same, rule, rate);
    SamePrice(UzaChinaSourcing, same, b, rule, rate);
  }

  /** A visit succeeds exactly when both rules are found; then the vehicle is back at the port, from
      CN, priced by the second. */
  lemma {:induction false} VisitIs(v: Vehicle, rules: Rules, rate: real, t: int, u: int)
    requires Visits(v)
    ensures var row := v.pricing.value;
      var (back, e) := Visit(v, rules, rate, t, u);
      && (e.None? <==> KigaliRule(rules, row).Some? && ReturnRule(rules, row).Some?)
      && (e.None? ==>
            && back.stage.AtPort? && back.sellerType.UzaChinaSourcing? && back.country == "CN"
            && back.pricing == Some(Returned(row, ReturnRule(rules, row).value, rate)))
  {
    var row := v.pricing.value;
    IntoRwanda(rules, rate, row);
    var r := MigrateToRwanda(rules, rate, row, "RW");
    if r.Ok? {
      BackToChina(rules, rate, row, r.value);
    }
  }

  lemma {:induction false} ReturnedIff(row: PriceRow, rule: Rule, rate: real)
    requires row.currency.RWF? && row.finalPrice.Some?
    ensures Returned(row, rule, rate) == WithBase(row) <==> PricedFromChina(row, rule, rate)
  {
    var b := CalcChinaSourcing(Input(None, row.amounts.fob.Or(row.finalPrice), None, row.amounts.discount), rule, rate);
    assert b.amounts.fob.Some? && b.amounts.base.None?;
  }

  /** A visit brings the price back, every column but the base, if and only if both rules are found
      and the row is what the rule of the way back makes of its own FOB and discount. */
  lemma {:induction false} RestoredIff(v: Vehicle, rules: Rules, rate: real, t: int, u: int)
    requires Visits(v)
    ensures var row := v.pricing.value;
      IsRestored(v, rules, rate, t, u)
      <==> KigaliRule(rules, row).Some? && ReturnRule(rules, row).Some?
           && PricedFromChina(row, ReturnRule(rules, row).value, rate)
  {
    VisitIs(v, rules, rate, t, u);
    var rule := ReturnRule(rules, v.pricing.value);
    if rule.Some? {
      ReturnedIff(v.pricing.value, rule.value, rate);
    }
  }

  /** From the port into Kigali keeps the final and display price in francs. From there back to the
      port, with the same rule chosen, the whole price row is as it was, but for the Rwanda base
      price that the visit leaves behind. The move into Kigali succeeds exactly when a rule is
      found. */
  lemma {:induction false} PriceRoundTrip(v: Vehicle, rule: Rule, rules: Rules, rate: real, t: int, u: int)
    requires v.stage.AtPort? && v.sellerType.UzaChinaSourcing? && v.pricing.Some?
    requires PricedFromChina(v.pricing.value, rule, rate)
    requires ChosenRule(rules, UzaChinaSourcing, "CN", PinnedRule(v.pricing.value.notes)) == Some(rule)
    ensures var row := v.pricing.value;
      var (inKigali, e) := Advance(v, KigaliStock, t, rules, rate);
      && (e.None? <==> ChosenRule(rules, UzaRwandaStock, "RW", PinnedRule(row.notes)).Some?)
      && (e.None? ==>
            && inKigali.pricing.Some?
            && inKigali.pricing.value.finalPrice == row.finalPrice
            && inKigali.pricing.value.displayPrice == row.displayPrice
            && var (back, f) := Advance(inKigali, AtPort, u, rules, rate);
               && f.None? && back.stage.AtPort? && back.sellerType.UzaChinaSourcing?
               && back.pricing ==
                    Some(row.(amounts := row.amounts.(base := Some(row.amounts.base.GetOr(row.finalPrice.value))))))
  {
    IntoRwanda(rules, rate, v.pricing.value);
    VisitIs(v, rules, rate, t, u);
    ReturnedIff(v.pricing.value, rule, rate);
  }

  /** A price that createByAdmin stores for a China listing is priced from China by the chosen
      rule; it comes back unchanged when the rule is pinned or the listing's country is CN. */
  lemma {:induction false} CreatedPriceQualifies(
    rules: Rules, rate: real, country: string, fob: real, discount: Option<real>, ruleId: Option<RuleId>)
    ensures var r := ResolvePricing(rules, rate, UzaChinaSourcing, country, Input(None, Some(fob), None, discount),
                                    ruleId, None);
      r.Ok? ==>
        var rule := ChosenRule(rules, UzaChinaSourcing, country, ruleId);
        && rule.Some? && PricedFromChina(r.value, rule.value, rate) && PinnedRule(r.value.notes) == ruleId
        && (ruleId.Some? || country == "CN" ==>
              ChosenRule(rules, UzaChinaSourcing, "CN", PinnedRule(r.value.notes)) == rule)
  {
    var rule := ChosenRule(rules, UzaChinaSourcing, country, ruleId);
    if rule.Some? {
      SamePrice(UzaChinaSourcing, Input(None, Some(fob), None, discount),
                Input(None, Some(fob), None, Some(discount.GetOr(0.0))), rule.value, rate);
    }
  }

  /** Whatever rule priced it, a vehicle comes back as one from CN at the price that the rule of the
      way back gives its FOB: its pinned rule, or the one for CN whatever its origin was. */
  lemma {:induction false} OtherOriginRepriced(v: Vehicle, rules: Rules, rate: real, t: int, u: int)
    requires v.stage.AtPort? && v.sellerType.UzaChinaSourcing? && v.pricing.Some?
    requires v.pricing.value.currency.RWF? && v.pricing.value.amounts.fob.Some? && v.pricing.value.finalPrice.Some?
    requires KigaliRule(rules, v.pricing.value).Some?
    ensures var row := v.pricing.value;
      var inKigali := Advance(v, KigaliStock, t, rules, rate).0;
      var (back, e) := Advance(inKigali, AtPort, u, rules, rate);
      var rule := ReturnRule(rules, row);
      && back.country == "CN" && (e.None? <==> rule.Some?)
      && (rule.Some? ==>
            && back.pricing.Some?
            && back.pricing.value.finalPrice ==
                 Some(CalcChinaSourcing(Input(None, row.amounts.fob, None, row.amounts.discount),
                                        rule.value, rate).finalPrice))
  {
    IntoRwanda(rules, rate, v.pricing.value);
    VisitIs(v, rules, rate, t, u);
  }

  // ----- which changes of a price keep the way back -----

  /** A change of the price that updateCreatedByAdmin would write. */
  predicate PriceChanged(row: PriceRow, w: PriceRow) {
    || w.amounts.base != row.amounts.base || w.amounts.fob != row.amounts.fob
    || w.amounts.discount != row.amounts.discount || w.finalPrice != row.finalPrice
    || w.currency != row.currency || w.notes != row.notes
  }

  /** The price row after an admin edits the price of a China listing. */
  function EditPrice(
    rules: Rules, rate: real, country: string, row: PriceRow, partial: Input, ruleId: Option<RuleId>): Result<PriceRow>
  {
    match ResolvePricing(rules, rate, UzaChinaSourcing, country, partial, ruleId, Some(row))
    case Err(e) => Err(e)
    case Ok(w) => Ok(if PriceChanged(row, w) then UpdateRow(row, w) else row)
  }

  /** The rule gives the vehicle the price that the other rule does, and the notes, if they pin a
      rule, record its percentages. */
  predicate PricesAlike(input: Input, used: Rule, other: Rule, rate: real, notes: Option<Notes>) {
    var a, b := CalcChinaSourcing(input, used, rate), CalcChinaSourcing(input, other, rate);
    && a.amounts == b.amounts && a.finalPrice == b.finalPrice
    && (PinnedRule(notes).Some? ==> notes == Some(Notes(PinnedRule(notes), b.marginPercent, b.discountPercent)))
  }

  /** What a write from China leaves in the row. */
  lemma {:induction false} WrittenFromChina(
    row: PriceRow, input: Input, used: Rule, other: Rule, rate: real, ruleId: Option<RuleId>)
    ensures var after := UpdateRow(row, ToWrite(CalcChinaSourcing(input, used, rate), ruleId, Some(row)));
      PricedFromChina(after, other, rate) <==> PricesAlike(input, used, other, rate, after.notes)
  {
    var after := UpdateRow(row, ToWrite(CalcChinaSourcing(input, used, rate), ruleId, Some(row)));
    SameFromChina(input, Input(None, after.amounts.fob, None, after.amounts.discount), other, rate);
  }

  /** After a written edit a visit to Kigali restores the price if and only if both rules are found
      and the rule of the way back prices the vehicle as the rule of the edit does. Naming a rule in
      the edit makes it so; an edit that names none keeps an old pin, beside the price that the
      active rule gives. */
  lemma {:induction false} EditKeepsWayBackIff(
    v: Vehicle, rules: Rules, rate: real, country: string, partial: Input, ruleId: Option<RuleId>, t: int, u: int)
    requires v.stage.AtPort? && v.pricing.Some?
    ensures var row := v.pricing.value;
      var r := EditPrice(rules, rate, country, row, partial, ruleId);
      var used := ChosenRule(rules, UzaChinaSourcing, country, ruleId);
      var input := Merge(partial, row, rate);
      && (r.Ok? <==> input.fob.Some? && used.Some?)
      && (r.Ok? && PriceChanged(row, ToWrite(CalcChinaSourcing(input, used.value, rate), ruleId, Some(row))) ==>
            var back := ReturnRule(rules, r.value);
            && PinnedRule(r.value.notes) == ruleId.Or(PinnedRule(row.notes))
            && (IsRestored(v.(pricing := Some(r.value)), rules, rate, t, u)
                <==> KigaliRule(rules, r.value).Some? && back.Some?
                     && PricesAlike(input, used.value, back.value, rate, r.value.notes))
            && (ruleId.Some? ==> back == used && PricesAlike(input, used.value, used.value, rate, r.value.notes)))
  {
    var row := v.pricing.value;
    var used := ChosenRule(rules, UzaChinaSourcing, country, ruleId);
    var input := Merge(partial, row, rate);
    if used.Some? && input.fob.Some? {
      var after := UpdateRow(row, ToWrite(CalcChinaSourcing(input, used.value, rate), ruleId, Some(row)));
      var back := ReturnRule(rules, after);
      RestoredIff(v.(pricing := Some(after)), rules, rate, t, u);
      if back.Some? {
        WrittenFromChina(row, input, used.value, back.value, rate, ruleId);
      }
    }
  }

  /** After a rule sync a visit restores the price exactly when the rule in Kigali is found: the sync
      pins the listing to the rule that it prices it by. */
  lemma {:induction false} SyncKeepsWayBack(
    v: Vehicle, rules: Rules, rate: real, id: RuleId, l: RuleSync.Listing, t: int, u: int)
    requires id in rules.byId && RuleSync.Governs(rules, id, l) && l.sellerType.UzaChinaSourcing?
    requires v.stage.AtPort? && v.pricing == RuleSync.Synced(rules, rate, id, l).pricing
    ensures v.pricing.Some? && ReturnRule(rules, v.pricing.value) == Some(rules.byId[id])
    ensures PricedFromChina(v.pricing.value, rules.byId[id], rate)
    ensures IsRestored(v, rules, rate, t, u) <==> KigaliRule(rules, v.pricing.value).Some?
  {
    var row := l.pricing.value;
    WrittenFromChina(row, RuleSync.RowInput(row), rules.byId[id], rules.byId[id], rate, Some(id));
    RestoredIff(v, rules, rate, t, u);
  }

  // ----- a rule sync in Kigali -----

  /** The listing as a rule sync sees it. */
  function InSync(v: Vehicle, days: Option<int>): RuleSync.Listing {
    RuleSync.Listing(v.sellerType, v.country, v.pricing, days)
  }

  /** The base price of the row in Kigali. */
  function KigaliBase(row: PriceRow): real
    requires row.finalPrice.Some?
  {
    row.amounts.base.GetOr(row.finalPrice.value)
  }

  lemma {:induction false} KigaliUsd(rules: Rules, rate: real, row: PriceRow)
    requires row.currency.RWF? && row.finalPrice.Some? && KigaliRule(rules, row).Some?
    ensures var r := MigrateToRwanda(rules, rate, row, "RW");
      r.Ok? && r.value.finalUsd ==
        Money.RwfToUsd(FinalPrice(KigaliBase(row), KigaliRule(rules, row).value, row.amounts.discount), rate)
  {
  }

  /** A sync prices a listing in Kigali from its base price and discount. */
  lemma {:induction false} SyncedInKigali(rules: Rules, rate: real, id: RuleId, l: RuleSync.Listing)
    requires id in rules.byId && RuleSync.Governs(rules, id, l) && l.sellerType.UzaRwandaStock?
    ensures var row, synced := l.pricing.value, RuleSync.Synced(rules, rate, id, l).pricing;
      synced.Some? && synced.value.finalPrice ==
        Some(FinalPrice(row.amounts.base.GetOr(0.0), rules.byId[id], row.amounts.discount))
  {
  }

  /** In Kigali the USD price is at once that of the Rwanda rule. The kept franc price survives the
      next sync of a rule that governs the listing if and only if that rule makes it of the base
      price and the discount: a discount that the kept price already holds is taken again. */
  lemma {:induction false} KeptPriceSurvivesSyncIff(
    v: Vehicle, rules: Rules, rate: real, t: int, id: RuleId, days: Option<int>)
    requires Visits(v) && KigaliRule(rules, v.pricing.value).Some?
    requires id in rules.byId
    requires RuleSync.Governs(rules, id, InSync(Advance(v, KigaliStock, t, rules, rate).0, days))
    ensures var row := v.pricing.value;
      var inKigali := Advance(v, KigaliStock, t, rules, rate).0;
      var synced := RuleSync.Synced(rules, rate, id, InSync(inKigali, days)).pricing;
      && inKigali.pricing.Some? && inKigali.pricing.value.finalPrice == row.finalPrice
      && inKigali.pricing.value.finalUsd
           == Money.RwfToUsd(FinalPrice(KigaliBase(row), KigaliRule(rules, row).value, row.amounts.discount), rate)
      && synced.Some?
      && (synced.value.finalPrice == row.finalPrice
          <==> FinalPrice(KigaliBase(row), rules.byId[id], row.amounts.discount) == row.finalPrice.value)
  {
    var row := v.pricing.value;
    IntoRwanda(rules, rate, row);
    KigaliUsd(rules, rate, row);
    SyncedInKigali(rules, rate, id, InSync(Advance(v, KigaliStock, t, rules, rate).0, days));
    SameDiscounts(KigaliBase(row), rules.byId[id], row.amounts.discount, Some(row.amounts.discount.GetOr(0.0)));
  }

  // ----- visits that do not bring the price back -----

  const FREE := Rule(UzaChinaSourcing, None, None, None, None, None, None, None, None, None, None, None)
  const SHIPPED := FREE.(shippingCost := Some(1.0))
  const LOCAL := FREE.(sellerType := UzaRwandaStock)

  /** Two rules for China, of which one ships for 1 franc, and one for Kigali. */
  function SomeRules(origin: RuleId, cn: RuleId): Rules {
    Rules(map[0 := FREE, 1 := SHIPPED, 2 := LOCAL],
          (sellerType: SellerType, country: string) =>
            Some(if sellerType.UzaRwandaStock? then 2 else if country == "CN" then cn else origin))
  }

  function FobOnly(fob: real): Input {
    Input(None, Some(fob), None, None)
  }

  /** A vehicle at the port, as created by an admin and advanced. */
  function AtThePort(country: string, pricing: PriceRow): Vehicle {
    Vehicle(UzaChinaSourcing, country, AtPort, Some(0), Some(0), None, Some(pricing))
  }

  lemma {:induction false} ChinaPrices(input: Input, fob: real, discount: real, rate: real)
    requires input.fob == Some(fob) && input.discount.GetOr(0.0) == discount
    ensures CalcChinaSourcing(input, FREE, rate).finalPrice == Round(fob - discount) as real
    ensures CalcChinaSourcing(input, SHIPPED, rate).finalPrice == Round(fob + 1.0 - discount) as real
  {
    assert ChinaAmounts(input, FREE).landing == Some(fob);
    assert ChinaAmounts(input, SHIPPED).landing == Some(fob + 1.0);
  }

  /** A row priced at the FOB and the discount, and pinned as told. */
  predicate IsPlain(row: PriceRow, fob: real, discount: real, price: real, pinned: Option<RuleId>) {
    && row.currency.RWF? && row.finalPrice == Some(price) && PinnedRule(row.notes) == pinned
    && row.amounts.fob == Some(fob) && row.amounts.discount == Some(discount) && row.amounts.base.None?
  }

  lemma {:induction false} Made(
    origin: RuleId, cn: RuleId, rate: real, country: string, fob: real, discount: real, pinned: Option<RuleId>)
    returns (made: PriceRow)
    requires ChosenRule(SomeRules(origin, cn), UzaChinaSourcing, country, pinned) == Some(FREE)
    ensures ResolvePricing(SomeRules(origin, cn), rate, UzaChinaSourcing, country,
                           Input(None, Some(fob), None, Some(discount)), pinned, None) == Ok(made)
    ensures IsPlain(made, fob, discount, Round(fob - discount) as real, pinned)
  {
    var input := Input(None, Some(fob), None, Some(discount));
    var b := CalcChinaSourcing(input, FREE, rate);
    ChinaPrices(input, fob, discount, rate);
    assert CalculatePrice(SomeRules(origin, cn), UzaChinaSourcing, input, country, pinned, rate) == Ok(b);
    made := ToWrite(b, pinned, None);
  }

  lemma {:induction false} EditedByActive(rate: real, row: PriceRow) returns (edited: PriceRow)
    requires IsPlain(row, 100.0, 0.0, 100.0, Some(0))
    ensures EditPrice(SomeRules(1, 1), rate, "CN", row, FobOnly(200.0), None) == Ok(edited)
    ensures IsPlain(edited, 200.0, 0.0, 201.0, Some(0))
  {
    ChinaPrices(Merge(FobOnly(200.0), row, rate), 200.0, 0.0, rate);
    assert Round(200.0 + 1.0 - 0.0) == 201;
    edited := EditPrice(SomeRules(1, 1), rate, "CN", row, FobOnly(200.0), None).value;
  }

  lemma {:induction false} PlainReturn(
    origin: RuleId, cn: RuleId, rate: real, row: PriceRow, fob: real, price: real, pinned: Option<RuleId>)
    requires IsPlain(row, fob, 0.0, price, pinned)
    requires (pinned.None? || pinned == Some(0)) && (cn == 0 || cn == 1)
    ensures var rules := SomeRules(origin, cn);
      && KigaliRule(rules, row).Some? && ReturnRule(rules, row).Some?
      && Returned(row, ReturnRule(rules, row).value, rate).finalPrice
           == Some(Round(if pinned.None? && cn == 1 then fob + 1.0 else fob) as real)
  {
    ChinaPrices(Input(None, row.amounts.fob, None, row.amounts.discount), fob, 0.0, rate);
  }

  lemma {:induction false} PlainVisit(
    origin: RuleId, cn: RuleId, rate: real, v: Vehicle, fob: real, price: real, pinned: Option<RuleId>, t: int, u: int)
    returns (back: Vehicle)
    requires v.stage.AtPort? && v.pricing.Some? && IsPlain(v.pricing.value, fob, 0.0, price, pinned)
    requires (pinned.None? || pinned == Some(0)) && (cn == 0 || cn == 1)
    ensures Visit(v, SomeRules(origin, cn), rate, t, u) == (back, None)
    ensures back.pricing.Some? && back.pricing.value.finalPrice
      == Some(Round(if pinned.None? && cn == 1 then fob + 1.0 else fob) as real)
  {
    PlainReturn(origin, cn, rate, v.pricing.value, fob, price, pinned);
    VisitIs(v, SomeRules(origin, cn), rate, t, u);
    back := Visit(v, SomeRules(origin, cn), rate, t, u).0;
  }

  /** A listing created with one rule pinned, whose FOB is then edited without naming a rule: its
      price is that of the active rule, and a visit to Kigali brings it back at the pinned one's. */
  lemma {:induction false} StalePin(rate: real, t: int, u: int)
    returns (made: PriceRow, edited: PriceRow, back: Vehicle)
    ensures ResolvePricing(SomeRules(1, 1), rate, UzaChinaSourcing, "CN",
                           Input(None, Some(100.0), None, Some(0.0)), Some(0), None) == Ok(made)
    ensures EditPrice(SomeRules(1, 1), rate, "CN", made, FobOnly(200.0), None) == Ok(edited)
    ensures edited.finalPrice == Some(201.0)
    ensures Visit(AtThePort("CN", edited), SomeRules(1, 1), rate, t, u) == (back, None)
    ensures back.pricing.Some? && back.pricing.value.finalPrice == Some(200.0)
  {
    made := Made(1, 1, rate, "CN", 100.0, 0.0, Some(0));
    assert Round(100.0 - 0.0) == 100 && Round(200.0) == 200;
    edited := EditedByActive(rate, made);
    back := PlainVisit(1, 1, rate, AtThePort("CN", edited), 200.0, 201.0, Some(0), t, u);
  }

  /** A vehicle from the Emirates, unpinned, at the port: after a visit to Kigali it costs more. */
  lemma {:induction false} DearerAfterVisit(rate: real, t: int, u: int) returns (made: PriceRow, back: Vehicle)
    ensures ResolvePricing(SomeRules(0, 1), rate, UzaChinaSourcing, "AE",
                           Input(None, Some(100.0), None, Some(0.0)), None, None) == Ok(made)
    ensures made.finalPrice == Some(100.0)
    ensures Visit(AtThePort("AE", made), SomeRules(0, 1), rate, t, u) == (back, None)
    ensures back.pricing.Some? && back.pricing.value.finalPrice == Some(101.0)
  {
    made := Made(0, 1, rate, "AE", 100.0, 0.0, None);
    assert Round(100.0 - 0.0) == 100 && Round(100.0 + 1.0) == 101;
    back := PlainVisit(0, 1, rate, AtThePort("AE", made), 100.0, 100.0, None, t, u);
  }

  /** A vehicle sold with a discount of 10 francs at 90: in Kigali its USD price is that of 80, and
      the first rule sync there makes the franc price 80. */
  lemma {:induction false} DiscountTakenTwice(rate: real, t: int) returns (made: PriceRow, inKigali: Vehicle)
    ensures ResolvePricing(SomeRules(0, 0), rate, UzaChinaSourcing, "CN",
                           Input(None, Some(100.0), None, Some(10.0)), None, None) == Ok(made)
    ensures made.finalPrice == Some(90.0)
    ensures Advance(AtThePort("CN", made), KigaliStock, t, SomeRules(0, 0), rate) == (inKigali, None)
    ensures inKigali.pricing.Some? && inKigali.pricing.value.finalPrice == Some(90.0)
    ensures inKigali.pricing.value.finalUsd == Money.RwfToUsd(80.0, rate)
    ensures RuleSync.Governs(SomeRules(0, 0), 2, InSync(inKigali, None))
    ensures var synced := RuleSync.Synced(SomeRules(0, 0), rate, 2, InSync(inKigali, None)).pricing;
      synced.Some? && synced.value.finalPrice == Some(80.0)
  {
    made := Made(0, 0, rate, "CN", 100.0, 10.0, None);
    assert Round(100.0 - 10.0) == 90;
    PlainSync(rate, AtThePort("CN", made), t);
    inKigali := Advance(AtThePort("CN", made), KigaliStock, t, SomeRules(0, 0), rate).0;
  }

  lemma {:induction false} PlainSync(rate: real, v: Vehicle, t: int)
    requires v.stage.AtPort? && v.pricing.Some? && IsPlain(v.pricing.value, 100.0, 10.0, 90.0, None)
    ensures var (inKigali, e) := Advance(v, KigaliStock, t, SomeRules(0, 0), rate);
      && e.None? && inKigali.pricing.Some? && inKigali.pricing.value.finalPrice == Some(90.0)
      && inKigali.pricing.value.finalUsd == Money.RwfToUsd(80.0, rate)
      && RuleSync.Governs(SomeRules(0, 0), 2, InSync(inKigali, None))
      && var synced := RuleSync.Synced(SomeRules(0, 0), rate, 2, InSync(inKigali, None)).pricing;
         synced.Some? && synced.value.finalPrice == Some(80.0)
  {
    var row := v.pricing.value;
    IntoRwanda(SomeRules(0, 0), rate, row);
    KigaliUsd(SomeRules(0, 0), rate, row);
    assert FinalPrice(90.0, LOCAL, Some(10.0)) == 80.0;
    SyncedInKigali(SomeRules(0, 0), rate, 2, InSync(Advance(v, KigaliStock, t, SomeRules(0, 0), rate).0, None));
  }

  // ----- a price that cannot be moved -----

  /** Without a rule for the Rwanda channel the move into Kigali throws, with the vehicle moved and
      its price as it was. */
  lemma {:induction false} MovedWithoutItsPrice(v: Vehicle, rules: Rules, rate: real, t: int)
    requires v.stage.AtPort? && v.pricing.Some?
    requires v.pricing.value.currency.RWF? && v.pricing.value.finalPrice.Some?
    requires ChosenRule(rules, UzaRwandaStock, "RW", PinnedRule(v.pricing.value.notes)).None?
    ensures var (w, e) := Advance(v, KigaliStock, t, rules, rate);
      && e == Some(NotFound)
      && w.stage.KigaliStock? && w.sellerType.UzaRwandaStock? && w.pricing == v.pricing
  {
    IntoRwanda(rules, rate, v.pricing.value);
  }
}
