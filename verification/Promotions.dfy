/** The best discount promotion of a listing, one listing at a time and in a batch
    (src/modules/promotions/promotions.service.ts and promotion-display.util.ts). */
module Promotions {
  import opened Prelude

  datatype PromotionType =
    | FeaturedListing
    | HomepageBanner
    | CategorySponsorship
    | SponsoredSupplier
    | BankPartnerBanner
    | ChargingPartnerBanner
    | DealOfWeek
    | NewArrivalHighlight
    | DiscountCampaign
    | FleetDiscount
    | TaxiAssociationCampaign
    | SeasonalPromotion
    | ReferralPromotion

  datatype Promotion = Promotion(
    id: nat,
    name: string,
    kind: PromotionType,
    discountPercent: Option<real>,
    discountAmountUsd: Option<real>,
    isActive: bool,
    startDate: int,
    endDate: int)

  datatype Effect = Effect(effectivePrice: real, saving: real)

  datatype Display = Display(
    promotionId: nat,
    promotionName: string,
    promotionType: PromotionType,
    displayPriceUsd: real,
    savingUsd: real)

  /** A row of the join table. */
  datatype Link = Link(listingId: nat, promotion: Promotion)

  predicate HasDiscountValue(p: Promotion) {
    p.discountPercent.Some? || p.discountAmountUsd.Some?
  }

  function Max(x: real, y: real): real {
    if x < y then y else x
  }

  function Min(x: real, y: real): real {
    if y < x then y else x
  }

  function ApplyPromotion(base: real, p: Promotion): Effect {
    if p.discountPercent.Some? then
      var saving := base * (p.discountPercent.value / 100.0);
      Effect(Max(0.0, base - saving), saving)
    else if p.discountAmountUsd.Some? then
      var saving := Min(p.discountAmountUsd.value, base);
      Effect(Max(0.0, base - saving), saving)
    else Effect(base, 0.0)
  }

  function Saving(base: real, p: Promotion): real {
    ApplyPromotion(base, p).saving
  }

  function ToDisplay(base: real, p: Promotion): Display {
    var e := ApplyPromotion(base, p);
    Display(p.id, p.name, p.kind, e.effectivePrice, e.saving)
  }

  // ----- the best of a list -----

  function BestSaving(base: real, best: Option<Promotion>): real {
    if best.Some? then Saving(base, best.value) else 0.0
  }

  /** One round of the search. */
  function Better(base: real, best: Option<Promotion>, p: Promotion): Option<Promotion> {
    if HasDiscountValue(p) && Saving(base, p) > BestSaving(base, best) then Some(p) else best
  }

  function Best(base: real, promotions: seq<Promotion>): Option<Promotion> {
    if promotions == [] then None
    else Better(base, Best(base, promotions[..|promotions| - 1]), promotions[|promotions| - 1])
  }

  method PickBestDiscountPromotion(base: real, promotions: seq<Promotion>) returns (best: Option<Promotion>)
    ensures best == Best(base, promotions)
  {
    best := None;
    var bestSaving := 0.0;
    for i := 0 to |promotions|
      invariant best == Best(base, promotions[..i]) && bestSaving == BestSaving(base, best)
    {
      assert promotions[..i + 1][..i] == promotions[..i];
      var promotion := promotions[i];
      if !HasDiscountValue(promotion) {
        continue;
      }
      var effect := ApplyPromotion(base, promotion);
      if effect.saving > bestSaving {
        bestSaving, best := effect.saving, Some(promotion);
      }
    }
    assert promotions[..|promotions|] == promotions;
  }

  /** What a promotion without a discount would be worth is nothing. */
  predicate Beats(base: real, s: real, p: Promotion) {
    HasDiscountValue(p) ==> Saving(base, p) <= s
  }

  /** The choice saves the most, is the first that does, and is made iff some saving is positive. */
  ghost predicate IsFirstGreatest(base: real, promotions: seq<Promotion>, best: Option<Promotion>) {
    && (forall i :: 0 <= i < |promotions| ==> Beats(base, BestSaving(base, best), promotions[i]))
    && (best.None? <==> forall i :: 0 <= i < |promotions| ==> Beats(base, 0.0, promotions[i]))
    && (best.Some? ==>
          exists k :: 0 <= k < |promotions| && promotions[k] == best.value && HasDiscountValue(best.value)
            && forall i :: 0 <= i < k && HasDiscountValue(promotions[i]) ==>
                 Saving(base, promotions[i]) < Saving(base, best.value))
  }

  lemma {:induction false} BestIsFirstGreatest(base: real, promotions: seq<Promotion>)
    ensures IsFirstGreatest(base, promotions, Best(base, promotions))
    ensures BestSaving(base, Best(base, promotions)) >= 0.0
    ensures Best(base, promotions).Some? ==> BestSaving(base, Best(base, promotions)) > 0.0
  {
    if promotions != [] {
      var n := |promotions| - 1;
      var rest, p := promotions[..n], promotions[n];
      BestIsFirstGreatest(base, rest);
      var before, best := Best(base, rest), Best(base, promotions);
      assert forall i :: 0 <= i < n ==> promotions[i] == rest[i];
      if best != before {
        assert best == Some(p) && promotions[n] == p;
      }
    }
  }

  /** In whatever order the promotions come, the price shown and the saving are the same. */
  lemma {:induction false} OrderIrrelevant(base: real, a: seq<Promotion>, b: seq<Promotion>)
    requires multiset(a) == multiset(b)
    ensures var x, y := Best(base, a), Best(base, b);
      && (x.None? <==> y.None?)
      && (x.Some? ==>
            && ToDisplay(base, x.value).displayPriceUsd == ToDisplay(base, y.value).displayPriceUsd
            && ToDisplay(base, x.value).savingUsd == ToDisplay(base, y.value).savingUsd)
  {
    AtLeastAsGood(base, a, b);
    AtLeastAsGood(base, b, a);
    BestIsFirstGreatest(base, a);
    BestIsFirstGreatest(base, b);
  }

  lemma {:induction false} AtLeastAsGood(base: real, a: seq<Promotion>, b: seq<Promotion>)
    requires multiset(a) == multiset(b)
    ensures BestSaving(base, Best(base, b)) <= BestSaving(base, Best(base, a))
  {
    BestIsFirstGreatest(base, a);
    BestIsFirstGreatest(base, b);
    var y := Best(base, b);
    if y.Some? {
      assert y.value in multiset(b);
      assert y.value in a;
    }
  }

  /** No other discount of the list gives a lower price than the chosen one. */
  lemma {:induction false} BestIsLowest(base: real, promotions: seq<Promotion>, k: nat)
    requires k < |promotions| && HasDiscountValue(promotions[k]) && Best(base, promotions).Some?
    ensures 0.0 <= ToDisplay(base, Best(base, promotions).value).displayPriceUsd
              <= ApplyPromotion(base, promotions[k]).effectivePrice
  {
    BestIsFirstGreatest(base, promotions);
    var best := Best(base, promotions).value;
    assert Beats(base, Saving(base, best), promotions[k]);
    assert HasDiscountValue(best);
    PriceFollowsSaving(base, best);
    PriceFollowsSaving(base, promotions[k]);
  }

  lemma {:induction false} PriceFollowsSaving(base: real, p: Promotion)
    requires HasDiscountValue(p)
    ensures ApplyPromotion(base, p).effectivePrice == Max(0.0, base - Saving(base, p))
  {
  }

  // ----- one listing and many -----

  predicate IsLive(p: Promotion, now: int) {
    p.isActive && p.startDate <= now <= p.endDate && HasDiscountValue(p)
  }

  /** getDiscountPromotionsForListing, over the join table in its order. */
  function PromotionsOf(links: seq<Link>, id: nat, now: int): seq<Promotion> {
    if links == [] then []
    else
      var rest, l := PromotionsOf(links[..|links| - 1], id, now), links[|links| - 1];
      if l.listingId == id && IsLive(l.promotion, now) then rest + [l.promotion] else rest
  }

  function BestDisplay(base: real, promotions: seq<Promotion>): Option<Display> {
    var best := Best(base, promotions);
    if best.None? then None else Some(ToDisplay(base, best.value))
  }

  method GetBestDisplayForListing(links: seq<Link>, id: nat, base: real, now: int) returns (display: Option<Display>)
    ensures display == BestDisplay(base, PromotionsOf(links, id, now))
  {
    var best := PickBestDiscountPromotion(base, PromotionsOf(links, id, now));
    if best.None? {
      return None;
    }
    return Some(ToDisplay(base, best.value));
  }

  /** The rows of the batched query. */
  function Fetched(links: seq<Link>, ids: seq<nat>, now: int): seq<Link> {
    if links == [] then []
    else
      var rest, l := Fetched(links[..|links| - 1], ids, now), links[|links| - 1];
      if l.listingId in ids && IsLive(l.promotion, now) then rest + [l] else rest
  }

  /** The map of the first loop, and its keys in the order of insertion. */
  function Grouped(links: seq<Link>): map<nat, seq<Promotion>> {
    if links == [] then map[]
    else
      var m, l := Grouped(links[..|links| - 1]), links[|links| - 1];
      m[l.listingId := (if l.listingId in m then m[l.listingId] else []) + [l.promotion]]
  }

  function Keys(links: seq<Link>): seq<nat> {
    if links == [] then []
    else
      var rest, id := Keys(links[..|links| - 1]), links[|links| - 1].listingId;
      if id in rest then rest else rest + [id]
  }

  /** The map of the second loop after the given keys. */
  function Displays(keys: seq<nat>, groups: map<nat, seq<Promotion>>, prices: map<nat, real>): map<nat, Display>
    requires forall k :: k in keys ==> k in groups
  {
    if keys == [] then map[]
    else
      var m, id := Displays(keys[..|keys| - 1], groups, prices), keys[|keys| - 1];
      if id !in prices || BestDisplay(prices[id], groups[id]).None? then m
      else m[id := BestDisplay(prices[id], groups[id]).value]
  }

  /** What the single computation shows for a listing, if it has a price. */
  function Shown(links: seq<Link>, prices: map<nat, real>, id: nat, now: int): Option<Display> {
    if id in prices then BestDisplay(prices[id], PromotionsOf(links, id, now)) else None
  }

  ghost predicate Agrees(result: map<nat, Display>, links: seq<Link>, prices: map<nat, real>, ids: seq<nat>, now: int) {
    forall id :: (if id in result then Some(result[id]) else None)
              == (if id in ids then Shown(links, prices, id, now) else None)
  }

  /** The first loop of the batch. */
  method GroupByListing(fetched: seq<Link>) returns (byListing: map<nat, seq<Promotion>>, keys: seq<nat>)
    ensures byListing == Grouped(fetched) && keys == Keys(fetched)
  {
    byListing, keys := map[], [];
    for i := 0 to |fetched|
      invariant byListing == Grouped(fetched[..i]) && keys == Keys(fetched[..i])
    {
      assert fetched[..i + 1][..i] == fetched[..i];
      var link := fetched[i];
      KeysAreGroups(fetched[..i], link.listingId);
      var list := if link.listingId in byListing then byListing[link.listingId] else [];
      if link.listingId !in byListing {
        keys := keys + [link.listingId];
      }
      byListing := byListing[link.listingId := list + [link.promotion]];
    }
    assert fetched[..|fetched|] == fetched;
  }

  /** The second loop of the batch. */
  method ShowBest(keys: seq<nat>, byListing: map<nat, seq<Promotion>>, prices: map<nat, real>)
    returns (result: map<nat, Display>)
    requires forall k :: k in keys ==> k in byListing
    ensures result == Displays(keys, byListing, prices)
  {
    result := map[];
    for j := 0 to |keys|
      invariant result == Displays(keys[..j], byListing, prices)
    {
      assert keys[..j + 1][..j] == keys[..j];
      var id := keys[j];
      if id !in prices {
        continue;
      }
      var best := PickBestDiscountPromotion(prices[id], byListing[id]);
      if best.Some? {
        result := result[id := ToDisplay(prices[id], best.value)];
      }
    }
    assert keys[..|keys|] == keys;
  }

  /** getBestDisplayByListingIds; prices holds the final USD price of each listing that has one. */
  method GetBestDisplayByListingIds(links: seq<Link>, prices: map<nat, real>, ids: seq<nat>, now: int)
    returns (result: map<nat, Display>)
    ensures Agrees(result, links, prices, ids, now)
  {
    if |ids| == 0 {
      return map[];
    }
    BatchAgrees(links, prices, ids, now);
    var byListing, keys := GroupByListing(Fetched(links, ids, now));
    result := ShowBest(keys, byListing, prices);
  }

  lemma {:induction false} GroupsOf(links: seq<Link>, ids: seq<nat>, id: nat, now: int)
    ensures var groups := Grouped(Fetched(links, ids, now));
      && (id in groups <==> id in ids && PromotionsOf(links, id, now) != [])
      && (id in groups ==> groups[id] == PromotionsOf(links, id, now))
  {
    if links != [] {
      var rest, l := links[..|links| - 1], links[|links| - 1];
      GroupsOf(rest, ids, id, now);
      if l.listingId in ids && IsLive(l.promotion, now) {
        var fetched := Fetched(links, ids, now);
        assert fetched[..|fetched| - 1] == Fetched(rest, ids, now);
      }
    }
  }

  lemma {:induction false} KeysAreGroups(links: seq<Link>, id: nat)
    ensures id in Keys(links) <==> id in Grouped(links)
  {
    if links != [] {
      KeysAreGroups(links[..|links| - 1], id);
    }
  }

  lemma {:induction false} DisplaysAt(keys: seq<nat>, groups: map<nat, seq<Promotion>>, prices: map<nat, real>, id: nat)
    requires forall k :: k in keys ==> k in groups
    ensures var m := Displays(keys, groups, prices);
      (if id in m then Some(m[id]) else None)
      == (if id in keys && id in prices then BestDisplay(prices[id], groups[id]) else None)
  {
    if keys != [] {
      DisplaysAt(keys[..|keys| - 1], groups, prices, id);
    }
  }

  /** The batch shows for each listing what the single computation shows, and nothing else. */
  lemma {:induction false} BatchAgrees(links: seq<Link>, prices: map<nat, real>, ids: seq<nat>, now: int)
    ensures var fetched := Fetched(links, ids, now);
      && (forall k :: k in Keys(fetched) ==> k in Grouped(fetched))
      && Agrees(Displays(Keys(fetched), Grouped(fetched), prices), links, prices, ids, now)
  {
    var fetched := Fetched(links, ids, now);
    forall k ensures k in Keys(fetched) <==> k in Grouped(fetched) {
      KeysAreGroups(fetched, k);
    }
    forall id ensures var m := Displays(Keys(fetched), Grouped(fetched), prices);
      (if id in m then Some(m[id]) else None) == (if id in ids then Shown(links, prices, id, now) else None)
    {
      DisplaysAt(Keys(fetched), Grouped(fetched), prices, id);
      GroupsOf(links, ids, id, now);
    }
  }

  lemma {:induction false} CountLinked(links: seq<Link>, id: nat, now: int, p: Promotion)
    ensures multiset(PromotionsOf(links, id, now))[p]
         == if IsLive(p, now) then multiset(links)[Link(id, p)] else 0
  {
    if links != [] {
      var rest := links[..|links| - 1];
      CountLinked(rest, id, now, p);
      assert links == rest + [links[|links| - 1]];
    }
  }

  /** Whatever order the database returns the links in, a listing shows the same price. */
  lemma {:induction false} LinkOrderIrrelevant(
    a: seq<Link>, b: seq<Link>, prices: map<nat, real>, id: nat, now: int)
    requires multiset(a) == multiset(b)
    ensures var x, y := Shown(a, prices, id, now), Shown(b, prices, id, now);
      && (x.None? <==> y.None?)
      && (x.Some? ==> x.value.displayPriceUsd == y.value.displayPriceUsd && x.value.savingUsd == y.value.savingUsd)
  {
    var ps, qs := PromotionsOf(a, id, now), PromotionsOf(b, id, now);
    forall p ensures multiset(ps)[p] == multiset(qs)[p] {
      CountLinked(a, id, now, p);
      CountLinked(b, id, now, p);
    }
    assert multiset(ps) == multiset(qs);
    if id in prices {
      OrderIrrelevant(prices[id], ps, qs);
    }
  }

  // ----- what a discount is worth -----

  /** d percent off shows what the amount of d percent of the price shows. */
  lemma {:induction false} PercentIsAmount(base: real, d: real, p: Promotion, q: Promotion)
    requires base >= 0.0 && 0.0 <= d <= 100.0
    requires p.discountPercent == Some(d)
    requires q.discountPercent.None? && q.discountAmountUsd == Some(base * d / 100.0)
    ensures ApplyPromotion(base, p) == ApplyPromotion(base, q)
    ensures 0.0 <= Saving(base, p) <= base
  {
    PercentOf(base, d);
  }

  lemma {:induction false} PercentOf(base: real, d: real)
    requires base >= 0.0 && 0.0 <= d <= 100.0
    ensures base * (d / 100.0) == base * d / 100.0 && 0.0 <= base * d / 100.0 <= base
  {
    assert base * d >= 0.0 && base * (100.0 - d) >= 0.0;
  }

  /** An amount off is at most the price, and an amount beside a percentage does not count. */
  lemma {:induction false} AmountIsCapped(base: real, p: Promotion, amount: real)
    requires base >= 0.0 && amount >= 0.0
    ensures var q := p.(discountPercent := None, discountAmountUsd := Some(amount));
      && Saving(base, q) == (if amount <= base then amount else base)
      && ApplyPromotion(base, q).effectivePrice == (if amount <= base then base - amount else 0.0)
    ensures p.discountPercent.Some? ==>
      ApplyPromotion(base, p.(discountAmountUsd := Some(amount))) == ApplyPromotion(base, p)
  {
  }

  /** A promotion counts for its listing from its first to its last moment while it is active and
      has a discount, and for no other. */
  lemma {:induction false} LiveCounts(links: seq<Link>, l: Link, id: nat, now: int)
    ensures PromotionsOf(links + [l], id, now) == PromotionsOf(links, id, now)
      + if l.listingId == id && l.promotion.isActive
           && l.promotion.startDate <= now && now <= l.promotion.endDate
           && (l.promotion.discountPercent.Some? || l.promotion.discountAmountUsd.Some?)
        then [l.promotion] else []
  {
    assert (links + [l])[..|links|] == links;
  }

  /** A display names a promotion that counts for the listing, at its price and saving. */
  lemma {:induction false} DisplayIsOfLink(links: seq<Link>, prices: map<nat, real>, id: nat, now: int)
    returns (p: Promotion)
    requires Shown(links, prices, id, now).Some?
    ensures Link(id, p) in links && IsLive(p, now)
    ensures Shown(links, prices, id, now) ==
      Some(Display(p.id, p.name, p.kind, ApplyPromotion(prices[id], p).effectivePrice, Saving(prices[id], p)))
  {
    var promotions := PromotionsOf(links, id, now);
    BestIsFirstGreatest(prices[id], promotions);
    p := Best(prices[id], promotions).value;
    assert p in promotions;
    CountLinked(links, id, now, p);
    assert multiset(promotions)[p] > 0;
  }
}
