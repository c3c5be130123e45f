/** The pricing engine: discounts, the four calculators, and the stored price row
    (src/modules/pricing/pricing.service.ts, pricing-discount.util.ts and
    src/modules/listings/listing-pricing.util.ts). */
module Pricing {
  import opened Prelude
  import opened Marketplace
  import Money

  type RuleId = nat

  datatype Rule = Rule(
    sellerType: SellerType,
    shippingCost: Option<real>,
    localCharges: Option<real>,
    taxPercent: Option<real>,
    insurancePercent: Option<real>,
    storagePerDay: Option<real>,
    clearingFee: Option<real>,
    marginPercent: Option<real>,
    commissionRate: Option<real>,
    discountPercent: Option<real>,
    deliveryDaysMin: Option<int>,
    deliveryDaysMax: Option<int>)

  /** The rule table, with the database's choice of active rule per channel and country. */
  datatype Rules = Rules(
    byId: map<RuleId, Rule>,
    active: (SellerType, string) -> Option<RuleId>)

  datatype Input = Input(base: Option<real>, fob: Option<real>, payout: Option<real>, discount: Option<real>)

  /** The amounts of a price; None is an absent field. All amounts are in Rwf. */
  datatype Amounts = Amounts(
    base: Option<real>,
    fob: Option<real>,
    payout: Option<real>,
    shipping: Option<real>,
    local: Option<real>,
    taxes: Option<real>,
    insurance: Option<real>,
    storage: Option<real>,
    clearing: Option<real>,
    landing: Option<real>,
    margin: Option<real>,
    commission: Option<real>,
    ruleDiscount: Option<real>,
    discount: Option<real>)

  const NOTHING := Amounts(None, None, None, None, None, None, None, None, None, None, None, None, None, None)

  datatype Breakdown = Breakdown(
    amounts: Amounts,
    finalPrice: real,
    finalPriceUsd: real,
    marginPercent: Option<real>,
    discountPercent: Option<real>,
    deliveryDaysMin: int,
    deliveryDaysMax: int)

  // ----- discounts and calculators -----

  datatype Discounts = Discounts(ruleDiscount: real, percent: Option<real>, discount: real, finalPrice: real)

  function ApplyDiscounts(preDiscount: real, rule: Rule, listingDiscount: Option<real>): Discounts {
    var rate := rule.discountPercent.GetOr(0.0);
    var ruleDiscount := if rate > 0.0 then preDiscount * rate / 100.0 else 0.0;
    var discount := listingDiscount.GetOr(0.0);
    Discounts(ruleDiscount, if rate > 0.0 then Some(rate) else None, discount, preDiscount - ruleDiscount - discount)
  }

  function Finalize(
    amounts: Amounts, d: Discounts, marginPercent: Option<real>, daysMin: int, daysMax: int, rate: real): Breakdown
  {
    var finalPrice := Round(d.finalPrice) as real;
    Breakdown(
      amounts.(ruleDiscount := Some(d.ruleDiscount), discount := Some(d.discount)),
      finalPrice, Money.RwfToUsd(finalPrice, rate), marginPercent, d.percent, daysMin, daysMax)
  }

  function CalcRwandaStock(input: Input, rule: Rule, rate: real): Breakdown {
    var base := input.base.GetOr(0.0);
    Finalize(
      NOTHING.(base := Some(base)),
      ApplyDiscounts(base, rule, input.discount),
      None, rule.deliveryDaysMin.GetOr(1), rule.deliveryDaysMax.GetOr(2), rate)
  }

  function Percent(amount: real, percent: Option<real>): real {
    amount * (percent.GetOr(0.0) / 100.0)
  }

  function ChinaAmounts(input: Input, rule: Rule): Amounts {
    var fob, ship, local := input.fob.GetOr(0.0), rule.shippingCost.GetOr(0.0), rule.localCharges.GetOr(0.0);
    var taxes, insure := Percent(fob + ship, rule.taxPercent), Percent(fob + ship, rule.insurancePercent);
    var storage, clearing := rule.storagePerDay.GetOr(0.0), rule.clearingFee.GetOr(0.0);
    var landing := fob + ship + local + taxes + insure + storage + clearing;
    NOTHING.(fob := Some(fob), shipping := Some(ship), local := Some(local), taxes := Some(taxes),
             insurance := Some(insure), storage := Some(storage), clearing := Some(clearing),
             landing := Some(landing), margin := Some(Percent(landing, rule.marginPercent)))
  }

  function CalcChinaSourcing(input: Input, rule: Rule, rate: real): Breakdown {
    var a := ChinaAmounts(input, rule);
    Finalize(
      a, ApplyDiscounts(a.landing.value + a.margin.value, rule, input.discount),
      rule.marginPercent, rule.deliveryDaysMin.GetOr(42), rule.deliveryDaysMax.GetOr(56), rate)
  }

  /** A commission of the whole price leaves nothing to pay out; the division by zero is an
      error here. */
  function CalcLocalSeller(input: Input, rule: Rule, rate: real): Result<Breakdown> {
    var payout, commissionRate := input.payout.GetOr(0.0), rule.commissionRate.GetOr(0.05);
    if commissionRate == 1.0 then Err(BadRequest)
    else
      var listPrice := payout / (1.0 - commissionRate);
      Ok(Finalize(
           NOTHING.(payout := Some(payout), commission := Some(listPrice - payout)),
           ApplyDiscounts(listPrice, rule, input.discount),
           None, rule.deliveryDaysMin.GetOr(2), rule.deliveryDaysMax.GetOr(5), rate))
  }

  function InternationalAmounts(input: Input, rule: Rule): Amounts {
    var fob, route, local := input.fob.GetOr(0.0), rule.shippingCost.GetOr(0.0), rule.localCharges.GetOr(0.0);
    var taxes := Percent(fob + route, rule.taxPercent);
    NOTHING.(fob := Some(fob), shipping := Some(route), local := Some(local), taxes := Some(taxes),
             margin := Some(Percent(fob + route + local + taxes, rule.marginPercent)))
  }

  function CalcInternational(input: Input, rule: Rule, rate: real): Breakdown {
    var a := InternationalAmounts(input, rule);
    Finalize(
      a, ApplyDiscounts(a.fob.value + a.shipping.value + a.local.value + a.taxes.value + a.margin.value,
                        rule, input.discount),
      rule.marginPercent, rule.deliveryDaysMin.GetOr(42), rule.deliveryDaysMax.GetOr(70), rate)
  }

  function Calculate(sellerType: SellerType, input: Input, rule: Rule, rate: real): Result<Breakdown> {
    match sellerType
    case UzaRwandaStock => Ok(CalcRwandaStock(input, rule, rate))
    case UzaChinaSourcing => Ok(CalcChinaSourcing(input, rule, rate))
    case LocalSeller => CalcLocalSeller(input, rule, rate)
    case InternationalSeller => Ok(CalcInternational(input, rule, rate))
  }

  /** The id and the rule that price a listing: the given rule, else the active one. */
  function ChosenRule(rules: Rules, sellerType: SellerType, country: string, ruleId: Option<RuleId>): Option<Rule> {
    var id := ruleId.Or(rules.active(sellerType, country));
    if id.Some? && id.value in rules.byId then Some(rules.byId[id.value]) else None
  }

  function CalculatePrice(
    rules: Rules, sellerType: SellerType, input: Input, country: string, ruleId: Option<RuleId>, rate: real)
    : Result<Breakdown>
  {
    match ChosenRule(rules, sellerType, country, ruleId)
    case None => Err(NotFound)
    case Some(rule) => Calculate(sellerType, input, rule, rate)
  }

  // ----- the stored row -----

  datatype Currency = RWF | USD

  /** The JSON of priceNotes. */
  datatype Notes = Notes(ruleId: Option<RuleId>, marginPercent: Option<real>, discountPercent: Option<real>)

  /** A row of listing_pricing, or the data of a write, where None leaves a column alone. */
  datatype PriceRow = PriceRow(
    currency: Currency,
    baseUsd: Option<real>,
    fobUsd: Option<real>,
    payoutUsd: Option<real>,
    discountUsd: Option<real>,
    finalUsd: real,
    amounts: Amounts,
    finalPrice: Option<real>,
    displayPrice: Option<real>,
    notes: Option<Notes>)

  function PinnedRule(notes: Option<Notes>): Option<RuleId> {
    if notes.Some? then notes.value.ruleId else None
  }

  /** breakdownToListingPricingCreate. */
  function ToWrite(b: Breakdown, ruleId: Option<RuleId>, existing: Option<PriceRow>): PriceRow {
    var usd := existing.GetOr(PriceRow(USD, None, None, None, None, 0.0, NOTHING, None, None, None));
    PriceRow(
      RWF, usd.baseUsd, usd.fobUsd, usd.payoutUsd, usd.discountUsd, b.finalPriceUsd,
      b.amounts, Some(b.finalPrice), Some(b.finalPrice),
      if ruleId.Some? then Some(Notes(ruleId, b.marginPercent, b.discountPercent)) else None)
  }

  function UpdateAmounts(a: Amounts, w: Amounts): Amounts {
    Amounts(
      w.base.Or(a.base), w.fob.Or(a.fob), w.payout.Or(a.payout), w.shipping.Or(a.shipping), w.local.Or(a.local),
      w.taxes.Or(a.taxes), w.insurance.Or(a.insurance), w.storage.Or(a.storage), w.clearing.Or(a.clearing),
      w.landing.Or(a.landing), w.margin.Or(a.margin), w.commission.Or(a.commission),
      w.ruleDiscount.Or(a.ruleDiscount), w.discount.Or(a.discount))
  }

  /** An update of the row: absent fields of the write keep their column. */
  function UpdateRow(row: PriceRow, w: PriceRow): PriceRow {
    PriceRow(
      w.currency, w.baseUsd.Or(row.baseUsd), w.fobUsd.Or(row.fobUsd), w.payoutUsd.Or(row.payoutUsd),
      w.discountUsd.Or(row.discountUsd), w.finalUsd, UpdateAmounts(row.amounts, w.amounts),
      w.finalPrice.Or(row.finalPrice), w.displayPrice.Or(row.displayPrice), w.notes.Or(row.notes))
  }

  // ----- the parts of a price add up -----

  /** What the listed parts of a stored price come to before discounts. */
  function Gross(sellerType: SellerType, a: Amounts): real {
    match sellerType
    case UzaRwandaStock => a.base.GetOr(0.0)
    case LocalSeller => a.payout.GetOr(0.0) + a.commission.GetOr(0.0)
    case InternationalSeller =>
      a.fob.GetOr(0.0) + a.shipping.GetOr(0.0) + a.local.GetOr(0.0) + a.taxes.GetOr(0.0) + a.margin.GetOr(0.0)
    case UzaChinaSourcing =>
      a.fob.GetOr(0.0) + a.shipping.GetOr(0.0) + a.local.GetOr(0.0) + a.taxes.GetOr(0.0) + a.insurance.GetOr(0.0)
      + a.storage.GetOr(0.0) + a.clearing.GetOr(0.0) + a.margin.GetOr(0.0)
  }

  /** In every channel the parts less both discounts are the stored price, up to half a franc
      of rounding, and the stored price is a whole number of francs. */
  lemma {:induction false} PartsAddUp(sellerType: SellerType, input: Input, rule: Rule, rate: real)
    ensures var r := Calculate(sellerType, input, rule, rate);
      r.Ok? ==>
        var b := r.value;
        var net := Gross(sellerType, b.amounts) - b.amounts.ruleDiscount.GetOr(0.0) - b.amounts.discount.GetOr(0.0);
        && -0.5 <= b.finalPrice - net <= 0.5
        && b.finalPrice == b.finalPrice.Floor as real
        && (sellerType.UzaChinaSourcing? ==>
              b.amounts.landing.GetOr(0.0) == Gross(sellerType, b.amounts) - b.amounts.margin.GetOr(0.0))
  {
    match sellerType {
      case UzaRwandaStock =>
        RoundIsNear(ApplyDiscounts(input.base.GetOr(0.0), rule, input.discount).finalPrice);
      case UzaChinaSourcing =>
        var a := ChinaAmounts(input, rule);
        RoundIsNear(ApplyDiscounts(a.landing.value + a.margin.value, rule, input.discount).finalPrice);
      case LocalSeller =>
        var commissionRate := rule.commissionRate.GetOr(0.05);
        if commissionRate != 1.0 {
          var listPrice := input.payout.GetOr(0.0) / (1.0 - commissionRate);
          RoundIsNear(ApplyDiscounts(listPrice, rule, input.discount).finalPrice);
        }
      case InternationalSeller =>
        var a := InternationalAmounts(input, rule);
        RoundIsNear(ApplyDiscounts(Gross(InternationalSeller, a), rule, input.discount).finalPrice);
    }
  }

  /** The commission is the rule's share of the list price, and what is left is the payout. */
  lemma {:induction false} CommissionIsShareOfListPrice(input: Input, rule: Rule, rate: real)
    ensures var r := CalcLocalSeller(input, rule, rate);
      r.Ok? ==>
        var a := r.value.amounts;
        var listPrice := a.payout.value + a.commission.value;
        && a.payout == Some(input.payout.GetOr(0.0))
        && a.commission.value == rule.commissionRate.GetOr(0.05) * listPrice
  {
    var c := rule.commissionRate.GetOr(0.05);
    if c != 1.0 {
      var listPrice := input.payout.GetOr(0.0) / (1.0 - c);
      assert listPrice * (1.0 - c) == input.payout.GetOr(0.0);
    }
  }

  // ----- how the price moves with the cost -----

  lemma {:induction false} ShareKept(x: real, y: real, kept: real)
    ensures x <= y && kept >= 0.0 ==> x * kept <= y * kept
  {
    assert x <= y && kept >= 0.0 ==> (y - x) * kept >= 0.0;
  }

  /** The share of the list price that the rule's discount leaves. */
  function Kept(rule: Rule): real {
    if rule.discountPercent.GetOr(0.0) > 0.0 then 1.0 - rule.discountPercent.value / 100.0 else 1.0
  }

  lemma {:induction false} DiscountedIsShare(list: real, rule: Rule, discount: Option<real>)
    ensures ApplyDiscounts(list, rule, discount).finalPrice == list * Kept(rule) - discount.GetOr(0.0)
  {
  }

  /** The price after both discounts, as stored. */
  function FinalPrice(list: real, rule: Rule, discount: Option<real>): real {
    Round(ApplyDiscounts(list, rule, discount).finalPrice) as real
  }

  lemma {:induction false} RoundRises(x: real, y: real)
    requires x <= y
    ensures Round(x) <= Round(y)
  {
  }

  lemma {:induction false} FinalPriceRises(x: real, y: real, rule: Rule, discount: Option<real>)
    requires x <= y && rule.discountPercent.GetOr(0.0) <= 100.0
    ensures FinalPrice(x, rule, discount) <= FinalPrice(y, rule, discount)
  {
    ShareKept(x, y, Kept(rule));
    DiscountedIsShare(x, rule, discount);
    DiscountedIsShare(y, rule, discount);
    RoundRises(ApplyDiscounts(x, rule, discount).finalPrice, ApplyDiscounts(y, rule, discount).finalPrice);
  }

  /** A dearer list price never gives a cheaper final price exactly when the rule takes off at
      most 100 percent. */
  lemma {:induction false} FinalPriceMonotoneIff(rule: Rule, discount: Option<real>)
    ensures (forall x, y :: x <= y ==> FinalPrice(x, rule, discount) <= FinalPrice(y, rule, discount))
       <==> rule.discountPercent.GetOr(0.0) <= 100.0
  {
    if rule.discountPercent.GetOr(0.0) <= 100.0 {
      forall x: real, y: real | x <= y ensures FinalPrice(x, rule, discount) <= FinalPrice(y, rule, discount) {
        FinalPriceRises(x, y, rule, discount);
      }
    } else {
      var y := 1.0 / (-Kept(rule));
      assert y * Kept(rule) == -1.0;
      DiscountedIsShare(0.0, rule, discount);
      DiscountedIsShare(y, rule, discount);
      RoundIsNear(-discount.GetOr(0.0));
      RoundIsNear(-discount.GetOr(0.0) - 1.0);
      assert FinalPrice(y, rule, discount) < FinalPrice(0.0, rule, discount);
    }
  }

  /** Input with the one cost a channel prices from. */
  function CostInput(sellerType: SellerType, cost: real, discount: Option<real>): Input {
    match sellerType
    case UzaRwandaStock => Input(Some(cost), None, None, discount)
    case LocalSeller => Input(None, None, Some(cost), discount)
    case _ => Input(None, Some(cost), None, discount)
  }

  predicate HasListPrice(sellerType: SellerType, rule: Rule) {
    sellerType.LocalSeller? ==> rule.commissionRate.GetOr(0.05) != 1.0
  }

  /** A percentage, as a share. */
  function Share(percent: Option<real>): real {
    percent.GetOr(0.0) / 100.0
  }

  /** The list price of China and international sourcing: charges on a cost, then a margin. */
  function Loaded(cost: real, ship: real, tax: real, insurance: real, other: real, margin: real): real {
    var landing := cost + (cost + ship) * tax + (cost + ship) * insurance + other;
    landing + landing * margin
  }

  /** The charges of China sourcing that do not depend on the cost. */
  function FixedCharges(rule: Rule): real {
    rule.shippingCost.GetOr(0.0) + rule.localCharges.GetOr(0.0) + rule.storagePerDay.GetOr(0.0)
    + rule.clearingFee.GetOr(0.0)
  }

  /** The price of a vehicle before discounts. */
  function ListPrice(sellerType: SellerType, cost: real, rule: Rule): real
    requires HasListPrice(sellerType, rule)
  {
    var ship, tax, margin := rule.shippingCost.GetOr(0.0), Share(rule.taxPercent), Share(rule.marginPercent);
    match sellerType
    case UzaRwandaStock => cost
    case LocalSeller => cost / (1.0 - rule.commissionRate.GetOr(0.05))
    case UzaChinaSourcing => Loaded(cost, ship, tax, Share(rule.insurancePercent), FixedCharges(rule), margin)
    case InternationalSeller => Loaded(cost, ship, tax, 0.0, ship + rule.localCharges.GetOr(0.0), margin)
  }

  /** What one more franc of cost adds to the list price. */
  function ListSlope(sellerType: SellerType, rule: Rule): real
    requires HasListPrice(sellerType, rule)
  {
    match sellerType
    case UzaRwandaStock => 1.0
    case LocalSeller => 1.0 / (1.0 - rule.commissionRate.GetOr(0.05))
    case UzaChinaSourcing =>
      (1.0 + Share(rule.taxPercent) + Share(rule.insurancePercent)) * (1.0 + Share(rule.marginPercent))
    case InternationalSeller => (1.0 + Share(rule.taxPercent)) * (1.0 + Share(rule.marginPercent))
  }

  // Factors of products are parameters below, so that equal products are the same product.

  lemma {:induction false} Times(a: real, b: real, d: real, k: real)
    requires d == b - a
    ensures d * k == b * k - a * k
  {
  }

  lemma {:induction false} Sum(d: real, j: real, k: real, both: real)
    requires both == j + k
    ensures d * both == d * j + d * k
  {
  }

  lemma {:induction false} InTurn(a: real, b: real, c: real, bc: real)
    requires bc == b * c
    ensures a * b * c == a * bc
  {
  }

  /** An amount and its margin, when the amount grows by d * k. */
  lemma {:induction false} MarginDelta(
    low: real, high: real, lowMargin: real, highMargin: real, d: real, k: real, m: real, loaded: real)
    requires high - low == d * k && lowMargin == low * m && highMargin == high * m && loaded == k * (1.0 + m)
    ensures (high + highMargin) - (low + lowMargin) == d * loaded
  {
    Times(low, high, high - low, m);
    InTurn(d, k, m, k * m);
    Sum(d, k, k * m, loaded);
  }

  lemma {:induction false} ChargesDelta(
    a: real, b: real, ship: real, tax: real, insurance: real, d: real, k: real)
    requires d == b - a && k == 1.0 + (tax + insurance)
    ensures (b + (b + ship) * tax + (b + ship) * insurance) - (a + (a + ship) * tax + (a + ship) * insurance) == d * k
  {
    Times(a + ship, b + ship, d, tax);
    Times(a + ship, b + ship, d, insurance);
    Sum(d, tax, insurance, tax + insurance);
    Sum(d, 1.0, tax + insurance, k);
  }

  lemma {:induction false} LoadedDelta(
    a: real, b: real, ship: real, tax: real, insurance: real, other: real, margin: real, d: real, k: real)
    requires d == b - a && k == (1.0 + (tax + insurance)) * (1.0 + margin)
    ensures Loaded(b, ship, tax, insurance, other, margin) - Loaded(a, ship, tax, insurance, other, margin) == d * k
  {
    var low := a + (a + ship) * tax + (a + ship) * insurance + other;
    var high := b + (b + ship) * tax + (b + ship) * insurance + other;
    var charged := 1.0 + (tax + insurance);
    ChargesDelta(a, b, ship, tax, insurance, d, charged);
    MarginDelta(low, high, low * margin, high * margin, d, charged, margin, k);
  }

  lemma {:induction false} DividedDelta(a: real, b: real, rest: real, d: real, k: real)
    requires rest != 0.0 && d == b - a && k == 1.0 / rest
    ensures b / rest - a / rest == d * k
  {
  }

  lemma {:induction false} ListDelta(sellerType: SellerType, a: real, b: real, rule: Rule, d: real, k: real)
    requires HasListPrice(sellerType, rule) && d == b - a && k == ListSlope(sellerType, rule)
    ensures ListPrice(sellerType, b, rule) - ListPrice(sellerType, a, rule) == d * k
  {
    var ship, tax, margin := rule.shippingCost.GetOr(0.0), Share(rule.taxPercent), Share(rule.marginPercent);
    match sellerType {
      case UzaRwandaStock =>
      case LocalSeller => DividedDelta(a, b, 1.0 - rule.commissionRate.GetOr(0.05), d, k);
      case UzaChinaSourcing =>
        LoadedDelta(a, b, ship, tax, Share(rule.insurancePercent), FixedCharges(rule), margin, d, k);
      case InternationalSeller =>
        LoadedDelta(a, b, ship, tax, 0.0, ship + rule.localCharges.GetOr(0.0), margin, d, k);
    }
  }

  lemma {:induction false} DiscountedDelta(
    x: real, y: real, d: real, k: real, s: real, rule: Rule, discount: Option<real>)
    requires y - x == d * k && s == k * Kept(rule)
    ensures ApplyDiscounts(y, rule, discount).finalPrice - ApplyDiscounts(x, rule, discount).finalPrice == d * s
  {
    DiscountedIsShare(x, rule, discount);
    DiscountedIsShare(y, rule, discount);
    Times(x, y, y - x, Kept(rule));
    InTurn(d, k, Kept(rule), s);
  }

  lemma {:induction false} RoundFollows(x: real, y: real, d: real)
    requires y - x == d
    ensures d >= 0.0 ==> Round(x) <= Round(y)
    ensures d <= -2.0 ==> Round(x) > Round(y)
  {
  }

  /** The stored price of a vehicle of a given cost. */
  function StoredPrice(sellerType: SellerType, cost: real, discount: Option<real>, rule: Rule, rate: real): real
    requires HasListPrice(sellerType, rule)
  {
    Calculate(sellerType, CostInput(sellerType, cost, discount), rule, rate).value.finalPrice
  }

  lemma {:induction false} ChinaListPrice(cost: real, discount: Option<real>, rule: Rule)
    ensures var a := ChinaAmounts(CostInput(UzaChinaSourcing, cost, discount), rule);
      a.landing.value + a.margin.value == ListPrice(UzaChinaSourcing, cost, rule)
  {
  }

  lemma {:induction false} InternationalListPrice(cost: real, discount: Option<real>, rule: Rule)
    ensures var a := InternationalAmounts(CostInput(InternationalSeller, cost, discount), rule);
      Gross(InternationalSeller, a) == ListPrice(InternationalSeller, cost, rule)
  {
  }

  lemma {:induction false} StoredIsFinal(
    sellerType: SellerType, cost: real, discount: Option<real>, rule: Rule, rate: real) returns (list: real)
    requires HasListPrice(sellerType, rule)
    ensures list == ListPrice(sellerType, cost, rule)
    ensures StoredPrice(sellerType, cost, discount, rule, rate) == FinalPrice(list, rule, discount)
  {
    list := ListPrice(sellerType, cost, rule);
    if sellerType.UzaChinaSourcing? {
      ChinaListPrice(cost, discount, rule);
    } else if sellerType.InternationalSeller? {
      InternationalListPrice(cost, discount, rule);
    }
  }

  /** What one more franc of cost adds to the price before rounding. */
  function Slope(sellerType: SellerType, rule: Rule): real
    requires HasListPrice(sellerType, rule)
  {
    ListSlope(sellerType, rule) * Kept(rule)
  }

  lemma {:induction false} StoredPair(
    sellerType: SellerType, a: real, b: real, discount: Option<real>, rule: Rule, rate: real, d: real, k: real)
    returns (x: real, y: real)
    requires HasListPrice(sellerType, rule) && d == b - a && k == ListSlope(sellerType, rule)
    ensures y - x == d * k
    ensures StoredPrice(sellerType, a, discount, rule, rate) == FinalPrice(x, rule, discount)
    ensures StoredPrice(sellerType, b, discount, rule, rate) == FinalPrice(y, rule, discount)
  {
    x := StoredIsFinal(sellerType, a, discount, rule, rate);
    y := StoredIsFinal(sellerType, b, discount, rule, rate);
    ListDelta(sellerType, a, b, rule, d, k);
  }

  /** Two prices before rounding. */
  lemma {:induction false} UnroundedPair(
    sellerType: SellerType, a: real, b: real, discount: Option<real>, rule: Rule, rate: real, d: real, k: real,
    s: real)
    returns (x: real, y: real)
    requires HasListPrice(sellerType, rule) && d == b - a && k == ListSlope(sellerType, rule) && s == k * Kept(rule)
    ensures y - x == d * s
    ensures StoredPrice(sellerType, a, discount, rule, rate) == Round(x) as real
    ensures StoredPrice(sellerType, b, discount, rule, rate) == Round(y) as real
  {
    var low, high := StoredPair(sellerType, a, b, discount, rule, rate, d, k);
    DiscountedDelta(low, high, d, k, s, rule, discount);
    x, y := ApplyDiscounts(low, rule, discount).finalPrice, ApplyDiscounts(high, rule, discount).finalPrice;
  }

  lemma {:induction false} StoredPriceFollows(
    sellerType: SellerType, a: real, b: real, discount: Option<real>, rule: Rule, rate: real, d: real, k: real,
    s: real)
    requires HasListPrice(sellerType, rule) && d == b - a && k == ListSlope(sellerType, rule) && s == k * Kept(rule)
    ensures d * s >= 0.0 ==>
      StoredPrice(sellerType, a, discount, rule, rate) <= StoredPrice(sellerType, b, discount, rule, rate)
    ensures d * s <= -2.0 ==>
      StoredPrice(sellerType, a, discount, rule, rate) > StoredPrice(sellerType, b, discount, rule, rate)
  {
    var x, y := UnroundedPair(sellerType, a, b, discount, rule, rate, d, k, s);
    RoundFollows(x, y, d * s);
  }

  lemma {:induction false} NotNegative(a: real, b: real)
    requires a >= 0.0 && b >= 0.0
    ensures a * b >= 0.0
  {
  }

  lemma {:induction false} FallsByTwo(k: real) returns (y: real)
    requires k < 0.0
    ensures y >= 0.0 && y * k == -2.0
  {
    y := 2.0 / (-k);
  }

  ghost predicate NeverFalls(sellerType: SellerType, discount: Option<real>, rule: Rule, rate: real)
    requires HasListPrice(sellerType, rule)
  {
    forall a, b :: a <= b ==>
      StoredPrice(sellerType, a, discount, rule, rate) <= StoredPrice(sellerType, b, discount, rule, rate)
  }

  lemma {:induction false} NeverFallsIff(
    sellerType: SellerType, discount: Option<real>, rule: Rule, rate: real, k: real, s: real)
    requires HasListPrice(sellerType, rule) && k == ListSlope(sellerType, rule) && s == k * Kept(rule)
    ensures NeverFalls(sellerType, discount, rule, rate) <==> s >= 0.0
  {
    if s >= 0.0 {
      forall a: real, b: real | a <= b
        ensures StoredPrice(sellerType, a, discount, rule, rate) <= StoredPrice(sellerType, b, discount, rule, rate)
      {
        NotNegative(b - a, s);
        StoredPriceFollows(sellerType, a, b, discount, rule, rate, b - a, k, s);
      }
    } else {
      var y := FallsByTwo(s);
      StoredPriceFollows(sellerType, 0.0, y, discount, rule, rate, y, k, s);
    }
  }

  /** In every channel a dearer vehicle is never priced lower if and only if what a franc of cost
      adds to the list price, times the share that the rule's discount leaves, is not negative. */
  lemma {:induction false} PriceMonotoneIff(sellerType: SellerType, discount: Option<real>, rule: Rule, rate: real)
    requires HasListPrice(sellerType, rule)
    ensures NeverFalls(sellerType, discount, rule, rate) <==> Slope(sellerType, rule) >= 0.0
  {
    NeverFallsIff(sellerType, discount, rule, rate, ListSlope(sellerType, rule), Slope(sellerType, rule));
  }

  /** Rates that are not negative, a discount of at most 100% and a commission below 100%. */
  predicate UsualRates(rule: Rule) {
    && rule.taxPercent.GetOr(0.0) >= 0.0 && rule.insurancePercent.GetOr(0.0) >= 0.0
    && rule.marginPercent.GetOr(0.0) >= 0.0 && rule.discountPercent.GetOr(0.0) <= 100.0
    && rule.commissionRate.GetOr(0.05) < 1.0
  }

  lemma {:induction false} UsualSlope(sellerType: SellerType, rule: Rule)
    requires UsualRates(rule)
    ensures HasListPrice(sellerType, rule) && Slope(sellerType, rule) >= 0.0
  {
    assert Kept(rule) >= 0.0;
    NotNegative(1.0 + Share(rule.taxPercent) + Share(rule.insurancePercent), 1.0 + Share(rule.marginPercent));
    NotNegative(1.0 + Share(rule.taxPercent), 1.0 + Share(rule.marginPercent));
    assert ListSlope(sellerType, rule) >= 0.0;
    NotNegative(ListSlope(sellerType, rule), Kept(rule));
  }

  /** So it is at usual rates. */
  lemma {:induction false} PriceRisesWithCost(
    sellerType: SellerType, a: real, b: real, discount: Option<real>, rule: Rule, rate: real)
    requires a <= b && UsualRates(rule)
    ensures var p := Calculate(sellerType, CostInput(sellerType, a, discount), rule, rate);
      var q := Calculate(sellerType, CostInput(sellerType, b, discount), rule, rate);
      p.Ok? && q.Ok? && p.value.finalPrice <= q.value.finalPrice
  {
    UsualSlope(sellerType, rule);
    PriceMonotoneIff(sellerType, discount, rule, rate);
    assert StoredPrice(sellerType, a, discount, rule, rate) <= StoredPrice(sellerType, b, discount, rule, rate);
  }

  // ----- absent amounts -----

  /** The inputs agree once absent amounts are read as zero. */
  predicate SameAmounts(a: Input, b: Input) {
    && a.base.GetOr(0.0) == b.base.GetOr(0.0) && a.fob.GetOr(0.0) == b.fob.GetOr(0.0)
    && a.payout.GetOr(0.0) == b.payout.GetOr(0.0) && a.discount.GetOr(0.0) == b.discount.GetOr(0.0)
  }

  lemma {:induction false} SamePrice(sellerType: SellerType, a: Input, b: Input, rule: Rule, rate: real)
    requires SameAmounts(a, b)
    ensures Calculate(sellerType, a, rule, rate) == Calculate(sellerType, b, rule, rate)
  {
    match sellerType {
      case UzaRwandaStock =>
        SameDiscounts(a.base.GetOr(0.0), rule, a.discount, b.discount);
      case UzaChinaSourcing =>
        var list := ChinaAmounts(a, rule);
        assert list == ChinaAmounts(b, rule);
        SameDiscounts(list.landing.value + list.margin.value, rule, a.discount, b.discount);
      case LocalSeller =>
        if rule.commissionRate != Some(1.0) {
          var list := a.payout.GetOr(0.0) / (1.0 - rule.commissionRate.GetOr(0.05));
          SameDiscounts(list, rule, a.discount, b.discount);
        }
      case InternationalSeller =>
        var list := InternationalAmounts(a, rule);
        assert list == InternationalAmounts(b, rule);
        SameDiscounts(Gross(sellerType, list), rule, a.discount, b.discount);
    }
  }

  lemma {:induction false} SameDiscounts(list: real, rule: Rule, d: Option<real>, e: Option<real>)
    requires d.GetOr(0.0) == e.GetOr(0.0)
    ensures ApplyDiscounts(list, rule, d) == ApplyDiscounts(list, rule, e)
  {
  }

  // ----- the columns of a price -----

  /** Each charge stands in its own column: the fixed ones are the rule's, and without a rate there
      are no taxes, no insurance, no margin and no discount. */
  lemma {:induction false} ColumnsAre(sellerType: SellerType, input: Input, rule: Rule, rate: real)
    requires sellerType.UzaChinaSourcing? || sellerType.InternationalSeller?
    ensures var r := Calculate(sellerType, input, rule, rate);
      && r.Ok?
      && var a := r.value.amounts;
         && a.fob == Some(input.fob.GetOr(0.0)) && a.discount == Some(input.discount.GetOr(0.0))
         && a.shipping == Some(rule.shippingCost.GetOr(0.0)) && a.local == Some(rule.localCharges.GetOr(0.0))
         && (sellerType.UzaChinaSourcing? ==>
               a.storage == Some(rule.storagePerDay.GetOr(0.0)) && a.clearing == Some(rule.clearingFee.GetOr(0.0)))
         && (rule.taxPercent.None? ==> a.taxes == Some(0.0))
         && (sellerType.UzaChinaSourcing? && rule.insurancePercent.None? ==> a.insurance == Some(0.0))
         && (rule.marginPercent.None? ==> a.margin == Some(0.0))
         && (rule.discountPercent.None? ==> a.ruleDiscount == Some(0.0))
  {
    assert rule.taxPercent.None? ==> Percent(input.fob.GetOr(0.0) + rule.shippingCost.GetOr(0.0), None) == 0.0;
  }

  /** The notes record the percentages that were applied: the margin where there is one, and the
      discount if it takes anything off. */
  lemma {:induction false} NotesRecord(sellerType: SellerType, input: Input, rule: Rule, rate: real, id: RuleId)
    requires Calculate(sellerType, input, rule, rate).Ok?
    ensures var b := Calculate(sellerType, input, rule, rate).value;
      && ToWrite(b, Some(id), None).notes == Some(Notes(
           Some(id),
           if sellerType.UzaChinaSourcing? || sellerType.InternationalSeller? then rule.marginPercent else None,
           if rule.discountPercent.GetOr(0.0) > 0.0 then rule.discountPercent else None))
      && ToWrite(b, None, None).notes.None?
  {
  }
}
