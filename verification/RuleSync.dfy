/** Re-pricing of the listings a rule governs (src/modules/pricing/pricing.service.ts, from
    syncListingsForPricingRule on). */
module RuleSync {
  import opened Prelude
  import opened Marketplace
  import opened Pricing

  datatype Listing = Listing(
    sellerType: SellerType, country: string, pricing: Option<PriceRow>, deliveryDays: Option<int>)

  function RowInput(row: PriceRow): Input {
    Input(row.amounts.base, row.amounts.fob, row.amounts.payout, row.amounts.discount)
  }

  /** recalculateListingPricing with a given rule id. */
  function Reprice(rules: Rules, rate: real, id: RuleId, l: Listing): Result<Listing>
    requires l.pricing.Some?
  {
    var row := l.pricing.value;
    match CalculatePrice(rules, l.sellerType, RowInput(row), l.country, Some(id), rate)
    case Err(e) => Err(e)
    case Ok(b) =>
      Ok(l.(pricing := Some(UpdateRow(row, ToWrite(b, Some(id), Some(row)))), deliveryDays := Some(b.deliveryDaysMax)))
  }

  /** Deciding one listing on its own: a franc price pinned to the rule, or pinned to none and
      with the rule active for its channel and country. */
  predicate Governs(rules: Rules, id: RuleId, l: Listing)
    requires id in rules.byId
  {
    && l.sellerType == rules.byId[id].sellerType
    && l.pricing.Some? && l.pricing.value.currency.RWF?
    && var pinned := PinnedRule(l.pricing.value.notes);
       pinned == Some(id) || (pinned.None? && rules.active(l.sellerType, l.country) == Some(id))
  }

  /** The rule can price its channel: a commission of the whole price cannot. */
  predicate CanPrice(rule: Rule) {
    rule.sellerType.LocalSeller? ==> rule.commissionRate != Some(1.0)
  }

  lemma {:induction false} RepriceSucceedsIff(rules: Rules, rate: real, id: RuleId, l: Listing)
    requires id in rules.byId && Governs(rules, id, l)
    ensures var r := Reprice(rules, rate, id, l);
      if CanPrice(rules.byId[id]) then r.Ok? else r == Err(BadRequest)
  {
  }

  /** A listing after the sync. */
  function Synced(rules: Rules, rate: real, id: RuleId, l: Listing): Listing
    requires id in rules.byId
  {
    if Governs(rules, id, l) then
      match Reprice(rules, rate, id, l) case Ok(next) => next case Err(_) => l
    else l
  }

  function SyncedAll(rules: Rules, rate: real, id: RuleId, ls: seq<Listing>): seq<Listing>
    requires id in rules.byId
  {
    seq(|ls|, i requires 0 <= i < |ls| => Synced(rules, rate, id, ls[i]))
  }

  function GovernedCount(rules: Rules, id: RuleId, ls: seq<Listing>): nat
    requires id in rules.byId
  {
    if ls == [] then 0
    else GovernedCount(rules, id, ls[..|ls| - 1]) + if Governs(rules, id, ls[|ls| - 1]) then 1 else 0
  }

  lemma {:induction false} CountPrefix(rules: Rules, id: RuleId, ls: seq<Listing>, i: nat)
    requires id in rules.byId && i < |ls|
    ensures GovernedCount(rules, id, ls[..i + 1])
         == GovernedCount(rules, id, ls[..i]) + if Governs(rules, id, ls[i]) then 1 else 0
  {
    assert ls[..i + 1][..i] == ls[..i];
  }

  /** Every entry of the memo is the active rule of its country. */
  ghost predicate MemoAgrees(rules: Rules, sellerType: SellerType, memo: map<string, Option<RuleId>>) {
    forall c :: c in memo ==> memo[c] == rules.active(sellerType, c)
  }

  /** The decision of one iteration, which looks a country up once and remembers it. */
  method Applies(rules: Rules, id: RuleId, l: Listing, memo: map<string, Option<RuleId>>)
    returns (applies: bool, next: map<string, Option<RuleId>>)
    requires id in rules.byId && MemoAgrees(rules, rules.byId[id].sellerType, memo)
    ensures applies <==> Governs(rules, id, l)
    ensures MemoAgrees(rules, rules.byId[id].sellerType, next)
  {
    applies, next := false, memo;
    if l.sellerType == rules.byId[id].sellerType && l.pricing.Some? && l.pricing.value.currency.RWF? {
      var linked := PinnedRule(l.pricing.value.notes);
      applies := linked == Some(id);
      if !applies && linked.None? {
        if l.country !in next {
          next := next[l.country := rules.active(l.sellerType, l.country)];
        }
        applies := next[l.country] == Some(id);
      }
    }
  }

  /** recalculateListingPricing of a listing that the rule governs. */
  method Recalculate(rules: Rules, rate: real, id: RuleId, l: Listing) returns (r: Result<Listing>)
    requires id in rules.byId && Governs(rules, id, l)
    ensures r == if CanPrice(rules.byId[id]) then Ok(Synced(rules, rate, id, l)) else Err(BadRequest)
  {
    RepriceSucceedsIff(rules, rate, id, l);
    r := Reprice(rules, rate, id, l);
  }

  /** The table after the loop has dealt with its first i rows. */
  function Halfway(rules: Rules, rate: real, id: RuleId, ls: seq<Listing>, i: nat): seq<Listing>
    requires id in rules.byId && i <= |ls|
  {
    SyncedAll(rules, rate, id, ls[..i]) + ls[i..]
  }

  lemma {:induction false} OneFurther(rules: Rules, rate: real, id: RuleId, ls: seq<Listing>, i: nat)
    requires id in rules.byId && i < |ls|
    ensures Halfway(rules, rate, id, ls, i)[i] == ls[i]
    ensures Halfway(rules, rate, id, ls, i)[i := Synced(rules, rate, id, ls[i])] == Halfway(rules, rate, id, ls, i + 1)
    ensures !Governs(rules, id, ls[i]) ==> Synced(rules, rate, id, ls[i]) == ls[i]
  {
  }

  lemma {:induction false} AllTheWay(rules: Rules, rate: real, id: RuleId, ls: seq<Listing>)
    requires id in rules.byId
    ensures Halfway(rules, rate, id, ls, 0) == ls
    ensures Halfway(rules, rate, id, ls, |ls|) == SyncedAll(rules, rate, id, ls)
  {
    assert ls[..|ls|] == ls;
  }

  class PricingService {
    var listings: seq<Listing>

    constructor (listings: seq<Listing>)
      ensures this.listings == listings
    {
      this.listings := listings;
    }

    /** The loop with its per-country memo re-prices exactly what deciding each listing directly
        would. A rule that cannot price stops at the first listing it governs. */
    method Sync(rules: Rules, rate: real, id: RuleId) returns (r: Result<nat>)
      modifies this
      ensures id !in rules.byId ==> r == Err(NotFound) && listings == old(listings)
      ensures id in rules.byId ==>
        var governed := GovernedCount(rules, id, old(listings));
        if CanPrice(rules.byId[id]) || governed == 0
        then r == Ok(governed) && listings == SyncedAll(rules, rate, id, old(listings))
        else r == Err(BadRequest) && listings == old(listings)
    {
      if id !in rules.byId {
        return Err(NotFound);
      }
      var rule := rules.byId[id];
      ghost var before := listings;
      var memo: map<string, Option<RuleId>> := map[];
      var synced := 0;
      var i := 0;
      AllTheWay(rules, rate, id, before);
      while i < |listings|
        invariant i <= |listings| == |before| && listings == Halfway(rules, rate, id, before, i)
        invariant MemoAgrees(rules, rule.sellerType, memo)
        invariant synced == GovernedCount(rules, id, before[..i])
        invariant CanPrice(rule) || (synced == 0 && listings == before)
      {
        OneFurther(rules, rate, id, before, i);
        var l := listings[i];
        var applies;
        applies, memo := Applies(rules, id, l, memo);
        CountPrefix(rules, id, before, i);
        if applies {
          var priced := Recalculate(rules, rate, id, l);
          if priced.Err? {
            CountGrows(rules, id, before, i + 1);
            return Err(priced.error);
          }
          listings := listings[i := priced.value];
          synced := synced + 1;
        }
        i := i + 1;
      }
      assert before[..|before|] == before;
      r := Ok(synced);
    }
  }

  lemma {:induction false} CountGrows(rules: Rules, id: RuleId, ls: seq<Listing>, i: nat)
    requires id in rules.byId && i <= |ls|
    ensures GovernedCount(rules, id, ls[..i]) <= GovernedCount(rules, id, ls)
    decreases |ls| - i
  {
    if i == |ls| {
      assert ls[..i] == ls;
    } else {
      CountPrefix(rules, id, ls, i);
      CountGrows(rules, id, ls, i + 1);
    }
  }

  // ----- running it again -----

  /** A written price holds every input it was computed from. */
  lemma {:induction false} WriteKeepsInputs(sellerType: SellerType, row: PriceRow, rule: Rule, rate: real, id: RuleId)
    requires Calculate(sellerType, RowInput(row), rule, rate).Ok?
    ensures var w := ToWrite(Calculate(sellerType, RowInput(row), rule, rate).value, Some(id), Some(row));
      SameAmounts(RowInput(row), RowInput(UpdateRow(row, w)))
  {
  }

  lemma {:induction false} RewriteIsStable(row: PriceRow, b: Breakdown, id: RuleId)
    ensures var next := UpdateRow(row, ToWrite(b, Some(id), Some(row)));
      UpdateRow(next, ToWrite(b, Some(id), Some(next))) == next
  {
  }

  lemma {:induction false} RepriceAgain(rules: Rules, rate: real, id: RuleId, l: Listing)
    requires id in rules.byId && Governs(rules, id, l) && CanPrice(rules.byId[id])
    ensures var next := Synced(rules, rate, id, l);
      && Governs(rules, id, next) && PinnedRule(next.pricing.value.notes) == Some(id)
      && Reprice(rules, rate, id, next) == Ok(next)
  {
    var rule, row := rules.byId[id], l.pricing.value;
    var b := Calculate(l.sellerType, RowInput(row), rule, rate).value;
    var next := UpdateRow(row, ToWrite(b, Some(id), Some(row)));
    WriteKeepsInputs(l.sellerType, row, rule, rate, id);
    SamePrice(l.sellerType, RowInput(row), RowInput(next), rule, rate);
    RewriteIsStable(row, b, id);
  }

  /** Syncing twice leaves what syncing once leaves, and pins every governed listing to the
      rule that re-priced it. */
  lemma {:induction false} SyncIsIdempotent(rules: Rules, rate: real, id: RuleId, ls: seq<Listing>)
    requires id in rules.byId && CanPrice(rules.byId[id])
    ensures var once := SyncedAll(rules, rate, id, ls);
      && SyncedAll(rules, rate, id, once) == once
      && (forall i :: 0 <= i < |ls| ==>
            if Governs(rules, id, ls[i]) then PinnedRule(once[i].pricing.value.notes) == Some(id)
            else once[i] == ls[i])
  {
    var once := SyncedAll(rules, rate, id, ls);
    forall i | 0 <= i < |ls|
      ensures Synced(rules, rate, id, once[i]) == once[i]
      ensures if Governs(rules, id, ls[i]) then
        once[i].pricing.Some? && PinnedRule(once[i].pricing.value.notes) == Some(id) else once[i] == ls[i]
    {
      if Governs(rules, id, ls[i]) {
        RepriceAgain(rules, rate, id, ls[i]);
      }
    }
  }
}
