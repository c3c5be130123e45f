/** Orders asked of a gallery that are not followed, or not looked at
    (src/modules/listings/listings.service.ts). */
module GalleryOrder {
  import opened Prelude
  import opened Marketplace
  import opened Gallery

  // ----- a photo left apart -----

  lemma {:induction false} LonePhotoOvertaken(p: Photo, url: string, nextId: nat)
    requires p.displayOrder >= 2
    ensures var r := Append([p], [url], nextId);
      r.Ok? && |r.value| == 2 && r.value[0] == p && r.value[1].url == url
      && r.value[1].displayOrder < r.value[0].displayOrder
  {
    var added := NewPhotos([url], nextId, 1, !HasPrimary([p]));
    assert |added| == 1 && added[0].displayOrder == 1 && added[0].url == url;
    assert Append([p], [url], nextId).value == [p] + added;
  }

  lemma {:induction false} FirstTwoOfThree(a: Photo, b: Photo, c: Photo)
    requires a.id != b.id && c.id != a.id && c.id != b.id
    ensures WithIds([a, b, c], [a.id, b.id]) == [a, b] && WithoutIds([a, b, c], [a.id, b.id]) == [c]
    ensures Dedupe([a.id, b.id]) == [a.id, b.id]
  {
    var all, ids := [a, b, c], [a.id, b.id];
    assert all[1..] == [b, c] && [b, c][1..] == [c] && [c][1..] == [];
    assert WithIds([c], ids) == [] && WithoutIds([c], ids) == [c];
    assert WithIds([b, c], ids) == [b] && WithoutIds([b, c], ids) == [c];
    assert ids[..1] == [a.id] && [a.id][..0] == [];
    assert Dedupe([]) == [] && Dedupe([a.id]) == [a.id];
  }

  lemma {:induction false} RemoveFirstTwo(a: Photo, b: Photo, c: Photo)
    requires a.id != b.id && c.id != a.id && c.id != b.id && a.isPrimary
    ensures Remove([a, b, c], [a.id, b.id]) == Ok([c.(isPrimary := true)])
  {
    FirstTwoOfThree(a, b, c);
    assert [a, b][0].isPrimary;
    assert WithPrimary([c], c.id) == [c.(isPrimary := true)];
  }

  function Removal(ids: seq<nat>): Update {
    Update(ids, [], None, [], None, false)
  }

  function Addition(url: string): Update {
    Update([], [], None, [url], None, false)
  }

  /** A listing made with three photos, of which an update removes the first two: the photo that
      the next update adds is shown before the one that was left. */
  lemma {:induction false} NewPhotoShownFirst(admin: nat, urls: seq<string>, url: string)
    requires |urls| == 3
    ensures var made := Created(admin, false, urls);
      && made.Ok?
      && var left := Updated(made.value, admin, Removal([0, 1]));
      && left.Ok?
      && var now := Updated(left.value, admin, Addition(url));
      && now.Ok? && |now.value.photos| == 2
      && now.value.photos[0].url == urls[2] && now.value.photos[1].url == url
      && now.value.photos[1].displayOrder < now.value.photos[0].displayOrder
  {
    var a, b, c := Photo(0, urls[0], true, 0), Photo(1, urls[1], false, 1), Photo(2, urls[2], false, 2);
    var made := Created(admin, false, urls).value;
    assert made.photos == [a, b, c];
    RemoveFirstTwo(a, b, c);
    var left := Updated(made, admin, Removal([0, 1])).value;
    assert left == made.(photos := [c.(isPrimary := true)]);
    LonePhotoOvertaken(left.photos[0], url, left.nextId);
    assert PhotosAfter(left, Addition(url)) == Append(left.photos, [url], left.nextId);
  }

  lemma {:induction false} DedupeOfDistinct(ids: seq<nat>)
    requires Distinct(ids)
    ensures Dedupe(ids) == ids
  {
    if ids != [] {
      DedupeOfDistinct(ids[..|ids| - 1]);
    }
  }

  /** Repeats change neither whether an order is accepted nor what reordering by it does. */
  lemma {:induction false} RepeatMakesNoDifference(photos: seq<Photo>, a: seq<nat>, b: seq<nat>, primary: Option<nat>)
    requires Dedupe(a) == Dedupe(b)
    ensures Reorder(photos, a, primary) == Reorder(photos, b, primary)
  {
    DedupeIsDistinct(a);
    DedupeIsDistinct(b);
    assert a == [] || a[0] in Dedupe(a);
    assert b == [] || b[0] in Dedupe(b);
  }

  /** So the photos of any gallery, the first one named twice, are an accepted order of it. */
  lemma {:induction false} RepeatAccepted(photos: seq<Photo>)
    requires UniqueIds(photos) && photos != []
    ensures Reorder(photos, Ids(photos) + [photos[0].id], None).Ok?
  {
    var ids := Ids(photos);
    DedupeOfDistinct(ids);
    assert ids[0] == photos[0].id && (ids + [ids[0]])[..|ids|] == ids;
    RepeatMakesNoDifference(photos, ids + [ids[0]], ids, None);
  }

  // ----- an order that is the one shown already -----

  /** Every photo stands at its place in the order. */
  predicate AtPlaces(photos: seq<Photo>, order: seq<nat>) {
    && |order| == |photos|
    && forall i :: 0 <= i < |photos| ==>
         0 <= photos[i].displayOrder < |order| && order[photos[i].displayOrder] == photos[i].id
  }

  /** The update names exactly the photos that it keeps, shows them in the order asked for, and shows
      the photos it adds after them. */
  ghost predicate IsFollowed(s: State, u: Update) {
    && PhotosAfter(s, u).Ok?
    && multiset(Dedupe(u.order)) == multiset(Ids(Kept(s, u)))
    && Follows(PhotosAfter(s, u).value, Kept(s, u), Dedupe(u.order), u.urls)
  }

  lemma {:induction false} SplitByIds(photos: seq<Photo>, ids: seq<nat>)
    ensures |WithIds(photos, ids)| + |WithoutIds(photos, ids)| == |photos|
  {
    if photos != [] {
      SplitByIds(photos[1..], ids);
    }
  }

  /** A removal that succeeds leaves fewer photos. */
  lemma {:induction false} RemovalShrinks(photos: seq<Photo>, photoIds: seq<nat>)
    requires photoIds != [] && Remove(photos, photoIds).Ok?
    ensures |Remove(photos, photoIds).value| < |photos|
  {
    DedupeIsDistinct(photoIds);
    assert photoIds[0] in Dedupe(photoIds);
    SplitByIds(photos, Dedupe(photoIds));
  }

  /** The order shown names every photo once. */
  lemma {:induction false} ShownOrder(photos: seq<Photo>)
    requires UniqueIds(photos)
    ensures var order := Ids(Shown(photos));
      |order| == |photos| && Distinct(order) && Dedupe(order) == order && OrderAccepted(photos, order)
  {
    var order := Ids(Shown(photos));
    ShownIsSorted(photos);
    forall k | 0 <= k < |order| ensures order[k] in Ids(photos) {
      assert Shown(photos)[k] in photos;
      var i :| 0 <= i < |photos| && photos[i] == Shown(photos)[k];
      assert Ids(photos)[i] == order[k];
    }
    ShownUnique(photos);
    DedupeOfDistinct(order);
  }

  lemma {:induction false} ShownUnique(photos: seq<Photo>)
    requires UniqueIds(photos)
    ensures UniqueIds(Shown(photos))
  {
    if photos != [] {
      var init, last := photos[..|photos| - 1], photos[|photos| - 1];
      ShownUnique(init);
      ShownIsSorted(init);
      forall q | q in Shown(init) ensures q.id != last.id {
        assert q in init;
      }
      InsertUnique(Shown(init), last);
    }
  }

  lemma {:induction false} InsertUnique(shown: seq<Photo>, p: Photo)
    requires UniqueIds(shown) && Sorted(shown) && forall q :: q in shown ==> q.id != p.id
    ensures UniqueIds(InsertShown(shown, p))
  {
    if shown != [] && shown[|shown| - 1].displayOrder > p.displayOrder {
      var init, last := shown[..|shown| - 1], shown[|shown| - 1];
      InsertUnique(init, p);
      InsertIsSorted(init, p);
      forall q | q in InsertShown(init, p) ensures q.id != last.id {
        assert q in init || q == p;
      }
    }
  }

  /** What an update leaves that changes no place. */
  ghost predicate KeepsPlaces(after: seq<Photo>, kept: seq<Photo>, urls: seq<string>) {
    && |after| == |kept| + |urls|
    && (forall i :: 0 <= i < |kept| ==> after[i].id == kept[i].id && after[i].displayOrder == kept[i].displayOrder)
    && (forall k :: 0 <= k < |urls| ==>
          after[|kept| + k].url == urls[k] && after[|kept| + k].displayOrder == |kept| + k)
  }

  lemma {:induction false} UnorderedKeepsPlaces(s: State, u: Update)
    requires !OrderChanged(s, u) && PhotosAfter(s, u).Ok?
    ensures KeepsPlaces(PhotosAfter(s, u).value, Kept(s, u), u.urls)
  {
  }

  lemma {:induction false} AddedPlace(after: seq<Photo>, kept: seq<Photo>, urls: seq<string>, i: nat)
    requires KeepsPlaces(after, kept, urls) && |kept| <= i < |after|
    ensures after[i].displayOrder == i
  {
    var k := i - |kept|;
    assert after[|kept| + k].url == urls[k];
  }

  lemma {:induction false} AtPlacesIsDense(after: seq<Photo>, kept: seq<Photo>, order: seq<nat>, urls: seq<string>)
    requires UniqueIds(kept) && KeepsPlaces(after, kept, urls) && AtPlaces(kept, order)
    ensures Dense(after)
  {
    forall i | 0 <= i < |after| ensures 0 <= after[i].displayOrder < |after| {
      if i >= |kept| {
        AddedPlace(after, kept, urls, i);
      } else {
        assert after[i].displayOrder == kept[i].displayOrder;
      }
    }
    forall i, j | 0 <= i < j < |after| ensures after[i].displayOrder != after[j].displayOrder {
      if j >= |kept| {
        AddedPlace(after, kept, urls, j);
        if i >= |kept| {
          AddedPlace(after, kept, urls, i);
        } else {
          assert after[i].displayOrder == kept[i].displayOrder;
        }
      } else {
        assert kept[i].id != kept[j].id;
        assert after[i].displayOrder == kept[i].displayOrder && after[j].displayOrder == kept[j].displayOrder;
      }
    }
  }

  lemma {:induction false} AtPlacesFollows(after: seq<Photo>, kept: seq<Photo>, order: seq<nat>, urls: seq<string>)
    requires UniqueIds(kept) && KeepsPlaces(after, kept, urls) && AtPlaces(kept, order)
    ensures Follows(after, kept, order, urls)
  {
    AtPlacesIsDense(after, kept, order, urls);
    forall i | 0 <= i < |kept|
      ensures after[i].id == kept[i].id
        && 0 <= after[i].displayOrder < |order| && order[after[i].displayOrder] == kept[i].id
    {
      assert after[i].displayOrder == kept[i].displayOrder;
    }
    forall k | 0 <= k < |urls|
      ensures after[|kept| + k].url == urls[k] && after[|kept| + k].displayOrder == |kept| + k
    {
      AddedPlace(after, kept, urls, |kept| + k);
    }
  }

  lemma {:induction false} FollowsAtPlaces(after: seq<Photo>, kept: seq<Photo>, order: seq<nat>, urls: seq<string>)
    requires |order| == |kept| && KeepsPlaces(after, kept, urls) && Follows(after, kept, order, urls)
    ensures AtPlaces(kept, order)
  {
    forall i | 0 <= i < |kept|
      ensures 0 <= kept[i].displayOrder < |order| && order[kept[i].displayOrder] == kept[i].id
    {
      assert after[i].displayOrder == kept[i].displayOrder;
    }
  }

  /** An update that asks for an order is followed if and only if the order differs from the one
      shown, or nothing is removed and the photos stand at their places in it already: an order that
      is shown already is not looked at, so it leaves gaps and ties, and may name removed photos. */
  lemma {:induction false} UpdateFollowsIff(s: State, u: Update)
    requires Good(s.photos, s.nextId) && u.order != []
    requires PhotosAfter(s, u).Ok? && Kept(s, u) != []
    ensures IsFollowed(s, u) <==> OrderChanged(s, u) || (u.remove == [] && AtPlaces(s.photos, u.order))
  {
    if OrderChanged(s, u) {
      UpdateFollowsOrder(s, u);
    } else {
      ShownOrder(s.photos);
      UnorderedKeepsPlaces(s, u);
      if u.remove == [] {
        AcceptedIsPermutation(s.photos, u.order);
        if AtPlaces(s.photos, u.order) {
          AtPlacesFollows(PhotosAfter(s, u).value, s.photos, u.order, u.urls);
        } else if Follows(PhotosAfter(s, u).value, s.photos, u.order, u.urls) {
          FollowsAtPlaces(PhotosAfter(s, u).value, s.photos, u.order, u.urls);
        }
      } else {
        RemovalShrinks(s.photos, u.remove);
        assert |multiset(u.order)| == |u.order| && |multiset(Ids(Kept(s, u)))| == |Kept(s, u)|;
      }
    }
  }

  // ----- a repeat of the order shown -----

  /** Two orders that differ from the one shown and agree without their repeats do the same. */
  lemma {:induction false} RepeatInUpdate(s: State, admin: nat, u: Update, order: seq<nat>)
    requires OrderChanged(s, u) && OrderChanged(s, u.(order := order)) && Dedupe(order) == Dedupe(u.order)
    ensures Updated(s, admin, u.(order := order)) == Updated(s, admin, u)
  {
    var kept := Kept(s, u);
    RepeatMakesNoDifference(kept, order, u.order, if PrimaryChanged(s, u) then u.primary else None);
  }

  lemma {:induction false} PlacedIffAtPlaces(photos: seq<Photo>, order: seq<nat>)
    requires UniqueIds(photos) && Distinct(order) && |order| == |photos|
    requires forall i :: 0 <= i < |photos| ==> photos[i].id in order
    ensures Placed(photos, order) == photos <==> AtPlaces(photos, order)
  {
    var placed := Placed(photos, order);
    forall i | 0 <= i < |photos|
      ensures placed[i] == photos[i]
        <==> 0 <= photos[i].displayOrder < |order| && order[photos[i].displayOrder] == photos[i].id
    {
      var k := IndexOf(order, photos[i].id);
      assert placed[i] == photos[i].(displayOrder := k);
    }
  }

  lemma {:induction false} SameAfterAppend(
    a: seq<Photo>, b: seq<Photo>, urls: seq<string>, nextId: nat)
    requires |a| == |b| && forall i :: 0 <= i < |a| ==> a[i] == b[i].(displayOrder := a[i].displayOrder)
    requires Append(b, urls, nextId).Ok?
    ensures Append(a, urls, nextId).Ok?
    ensures Append(a, urls, nextId) == Append(b, urls, nextId) <==> a == b
  {
    assert forall i :: 0 <= i < |a| ==> a[i].isPrimary == b[i].isPrimary;
    var x, y := Append(a, urls, nextId).value, Append(b, urls, nextId).value;
    assert x[..|a|] == a && y[..|b|] == b;
  }

  /** The update, if it changes anything. */
  function WithPhotos(s: State, u: Update, r: Result<seq<Photo>>): Result<State> {
    match r
    case Err(e) => Err(e)
    case Ok(photos) =>
      if photos == [] then Err(BadRequest)
      else Ok(s.(status := u.status.GetOr(s.status), photos := photos, nextId := s.nextId + |u.urls|))
  }

  lemma {:induction false} UpdatedIs(s: State, admin: nat, u: Update)
    requires Updated(s, admin, u).Ok? && s.photos != []
    ensures PhotosAfter(s, u).Ok? && Updated(s, admin, u) == WithPhotos(s, u, PhotosAfter(s, u))
  {
  }

  lemma {:induction false} OrderedIs(s: State, admin: nat, u: Update, order: seq<nat>)
    requires Updated(s, admin, u).Ok? && OrderChanged(s, u.(order := order))
    ensures Updated(s, admin, u.(order := order)) == WithPhotos(s, u, PhotosAfter(s, u.(order := order)))
  {
  }

  lemma {:induction false} SameUpdateIff(s: State, u: Update, a: Result<seq<Photo>>, b: Result<seq<Photo>>)
    requires WithPhotos(s, u, a).Ok?
    ensures WithPhotos(s, u, b) == WithPhotos(s, u, a) <==> a == b
  {
  }

  /** The steps that follow a removal. */
  function Rest(s: State, u: Update, order: seq<nat>): Result<seq<Photo>> {
    var primary := if PrimaryChanged(s, u) then u.primary else None;
    match Reorder(Kept(s, u), order, primary)
    case Err(e) => Err(e)
    case Ok(ordered) => if u.urls != [] then Append(ordered, u.urls, s.nextId) else Ok(ordered)
  }

  lemma {:induction false} PhotosAfterIsRest(s: State, u: Update)
    requires u.remove == [] || Remove(s.photos, u.remove).Ok?
    ensures PhotosAfter(s, u) == Rest(s, u, if OrderChanged(s, u) then u.order else [])
  {
  }

  lemma {:induction false} SameRestIff(s: State, u: Update, order: seq<nat>)
    requires UniqueIds(Kept(s, u)) && Kept(s, u) != [] && OrderAccepted(Kept(s, u), order) && order != []
    requires Rest(s, u, []).Ok?
    ensures Rest(s, u, order) == Rest(s, u, []) <==> AtPlaces(Kept(s, u), Dedupe(order))
  {
    var kept := Kept(s, u);
    var primary := if PrimaryChanged(s, u) then u.primary else None;
    var placed := Placed(kept, Dedupe(order));
    AcceptedIsPermutation(kept, order);
    DedupeIsDistinct(order);
    forall i | 0 <= i < |kept| ensures kept[i].id in Dedupe(order) {
      assert Ids(kept)[i] in multiset(Ids(kept));
    }
    PlacedIffAtPlaces(kept, Dedupe(order));
    var a := if primary.Some? then WithPrimary(placed, primary.value) else placed;
    var b := if primary.Some? then WithPrimary(kept, primary.value) else kept;
    SamePlacesIff(placed, kept, primary);
    if u.urls != [] {
      SameAfterAppend(a, b, u.urls, s.nextId);
    }
  }

  lemma {:induction false} SamePlacesIff(a: seq<Photo>, b: seq<Photo>, primary: Option<nat>)
    requires |a| == |b| && forall i :: 0 <= i < |a| ==> a[i] == b[i].(displayOrder := a[i].displayOrder)
    ensures var x := if primary.Some? then WithPrimary(a, primary.value) else a;
      var y := if primary.Some? then WithPrimary(b, primary.value) else b;
      && (forall i :: 0 <= i < |x| ==> x[i] == y[i].(displayOrder := x[i].displayOrder))
      && (x == y <==> a == b)
  {
    var x := if primary.Some? then WithPrimary(a, primary.value) else a;
    var y := if primary.Some? then WithPrimary(b, primary.value) else b;
    if x == y {
      forall i | 0 <= i < |a| ensures a[i] == b[i] {
        assert x[i].displayOrder == y[i].displayOrder;
      }
    }
  }

  /** Against an update that names the order shown exactly, which rewrites no place, one that repeats
      a photo of it does the same if and only if nothing is kept, or nothing is removed and the
      photos stand at their places already. */
  lemma {:induction false} RepeatOfShownIff(s: State, admin: nat, u: Update, order: seq<nat>)
    requires Good(s.photos, s.nextId) && u.order == Ids(Shown(s.photos)) && u.order != []
    requires order != u.order && Dedupe(order) == u.order
    requires Updated(s, admin, u).Ok?
    ensures Updated(s, admin, u.(order := order)) == Updated(s, admin, u)
      <==> Kept(s, u) == [] || (u.remove == [] && AtPlaces(s.photos, u.order))
  {
    UpdatedIs(s, admin, u);
    OrderedIs(s, admin, u, order);
    SameUpdateIff(s, u, PhotosAfter(s, u), PhotosAfter(s, u.(order := order)));
    SameStepsIff(s, u, order);
  }

  lemma {:induction false} SameStepsIff(s: State, u: Update, order: seq<nat>)
    requires Good(s.photos, s.nextId) && u.order == Ids(Shown(s.photos)) && u.order != []
    requires order != u.order && Dedupe(order) == u.order
    requires PhotosAfter(s, u).Ok?
    ensures PhotosAfter(s, u.(order := order)) == PhotosAfter(s, u)
      <==> Kept(s, u) == [] || (u.remove == [] && AtPlaces(s.photos, u.order))
  {
    ShownOrder(s.photos);
    AcceptedByDedupe(s.photos, order, u.order);
    if u.remove != [] {
      RepeatAfterRemoval(s, u, order);
    } else {
      PhotosAfterIsRest(s, u);
      PhotosAfterIsRest(s, u.(order := order));
      SameRestIff(s, u, order);
    }
  }

  lemma {:induction false} RepeatAfterRemoval(s: State, u: Update, order: seq<nat>)
    requires u.remove != [] && OrderChanged(s, u.(order := order)) && !OrderChanged(s, u)
    requires |Dedupe(order)| == |s.photos| && PhotosAfter(s, u).Ok?
    ensures PhotosAfter(s, u.(order := order)) == PhotosAfter(s, u) <==> Kept(s, u) == []
  {
    RemovalShrinks(s.photos, u.remove);
  }

  lemma {:induction false} AcceptedByDedupe(photos: seq<Photo>, a: seq<nat>, b: seq<nat>)
    requires Dedupe(a) == b && Dedupe(b) == b
    ensures OrderAccepted(photos, a) <==> OrderAccepted(photos, b)
  {
  }

  // ----- a gallery with a gap -----

  lemma {:induction false} RemoveMiddle(a: Photo, b: Photo, c: Photo)
    requires a.id != b.id && c.id != a.id && c.id != b.id && !b.isPrimary
    ensures Remove([a, b, c], [b.id]) == Ok([a, c])
  {
    var all, ids := [a, b, c], [b.id];
    assert all[1..] == [b, c] && [b, c][1..] == [c] && [c][1..] == [];
    assert WithIds([c], ids) == [] && WithIds([b, c], ids) == [b] && WithIds(all, ids) == [b];
    assert WithoutIds([c], ids) == [c] && WithoutIds([b, c], ids) == [c] && WithoutIds(all, ids) == [a, c];
    assert ids[..0] == [] && Dedupe([]) == [] && Dedupe(ids) == [b.id];
  }

  predicate HasGap(s: State, admin: nat) {
    && s.createdBy == admin && s.status.Draft? && |s.photos| == 2
    && s.photos[0].id == 0 && s.photos[0].displayOrder == 0 && s.photos[0].isPrimary
    && s.photos[1].id == 2 && s.photos[1].displayOrder == 2 && !s.photos[1].isPrimary
  }

  /** A listing made with three photos, the middle one removed. */
  lemma {:induction false} Gap(admin: nat, urls: seq<string>) returns (made: State, left: State)
    requires |urls| == 3
    ensures Created(admin, false, urls) == Ok(made) && Updated(made, admin, Removal([1])) == Ok(left)
    ensures HasGap(left, admin)
  {
    var a, b, c := Photo(0, urls[0], true, 0), Photo(1, urls[1], false, 1), Photo(2, urls[2], false, 2);
    made := Created(admin, false, urls).value;
    assert made.photos == [a, b, c];
    RemoveMiddle(a, b, c);
    left := made.(photos := [a, c]);
  }

  lemma {:induction false} TwoShown(a: Photo, b: Photo)
    requires a.displayOrder <= b.displayOrder
    ensures Shown([a, b]) == [a, b] && Ids(Shown([a, b])) == [a.id, b.id]
  {
    assert [] + [a] == [a] && [a] + [b] == [a, b];
    ShownOneMore([], a);
    ShownOneMore([a], b);
  }

  lemma {:induction false} GapOrder(s: State, admin: nat)
    requires HasGap(s, admin)
    ensures Ids(Shown(s.photos)) == [0, 2]
  {
    TwoShown(s.photos[0], s.photos[1]);
    assert s.photos == [s.photos[0], s.photos[1]];
  }

  function Ordering(order: seq<nat>, urls: seq<string>): Update {
    Update([], order, None, urls, None, false)
  }

  /** Asked for the order that it shows, and for one more photo: the gap stays, and the new photo
      ties with the last one. */
  lemma {:induction false} OrderNotLookedAt(s: State, admin: nat, url: string) returns (now: State)
    requires HasGap(s, admin)
    ensures Updated(s, admin, Ordering([0, 2], [url])) == Ok(now)
    ensures |now.photos| == 3 && now.photos[2].url == url
    ensures now.photos[1].displayOrder == 2 && now.photos[2].displayOrder == 2
  {
    GapOrder(s, admin);
    now := s.(photos := Append(s.photos, [url], s.nextId).value, nextId := s.nextId + 1);
  }

  /** The order shown, named exactly, changes nothing; with the first photo named again it closes the
      gap. */
  lemma {:induction false} RepeatClosesGap(s: State, admin: nat) returns (now: State)
    requires HasGap(s, admin)
    ensures Updated(s, admin, Ordering([0, 2], [])) == Ok(s)
    ensures Updated(s, admin, Ordering([0, 2, 0], [])) == Ok(now)
    ensures |now.photos| == 2 && now.photos[0].displayOrder == 0 && now.photos[1].displayOrder == 1
  {
    GapOrder(s, admin);
    RepeatDropped();
    var placed := Placed(s.photos, [0, 2]);
    now := s.(photos := placed);
    assert placed[0].displayOrder == 0 && placed[1].displayOrder == 1;
    assert Ids(s.photos) == [0, 2];
    assert OrderAccepted(s.photos, [0, 2, 0]);
    assert Reorder(s.photos, [0, 2, 0], None) == Ok(placed);
  }

  lemma {:induction false} RepeatDropped()
    ensures Dedupe([0, 2, 0]) == [0, 2]
  {
    assert [0][..0] == [] && [0, 2][..1] == [0] && [0, 2, 0][..2] == [0, 2];
    assert Dedupe([]) == [] && Dedupe([0]) == [0] && Dedupe([0, 2]) == [0, 2];
  }

  /** An order that names a photo that the same update removes is accepted when it is the one shown. */
  lemma {:induction false} RemovedPhotoNamed(admin: nat, urls: seq<string>) returns (made: State, now: State)
    requires |urls| == 2
    ensures Created(admin, false, urls) == Ok(made)
    ensures Updated(made, admin, Update([0], [0, 1], None, [], None, false)) == Ok(now)
    ensures |now.photos| == 1 && now.photos[0].id == 1
  {
    var a, b := Photo(0, urls[0], true, 0), Photo(1, urls[1], false, 1);
    made := Created(admin, false, urls).value;
    assert made.photos == [a, b];
    TwoShown(a, b);
    RemoveFirst(a, b);
    now := made.(photos := [b.(isPrimary := true)]);
  }

  lemma {:induction false} RemoveFirst(a: Photo, b: Photo)
    requires a.id != b.id && a.isPrimary
    ensures Remove([a, b], [a.id]) == Ok([b.(isPrimary := true)])
  {
    var all, ids := [a, b], [a.id];
    assert all[1..] == [b] && [b][1..] == [];
    assert WithIds([b], ids) == [] && WithIds(all, ids) == [a];
    assert WithoutIds([b], ids) == [b] && WithoutIds(all, ids) == [b];
    assert ids[..0] == [] && Dedupe([]) == [] && Dedupe(ids) == [a.id];
    assert [a][0].isPrimary && WithPrimary([b], b.id) == [b.(isPrimary := true)];
  }
}
