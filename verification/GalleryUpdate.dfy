/** What a whole update makes of a gallery: which photos it leaves, which of them is primary, and
    when it is refused (src/modules/listings/listings.service.ts). */
module GalleryUpdate {
  import opened Prelude
  import opened Marketplace
  import opened Gallery
  import GalleryOrder

  /** The photo with the id is the primary one. */
  predicate IsThePrimary(photos: seq<Photo>, id: nat) {
    && id in Ids(photos)
    && forall i :: 0 <= i < |photos| ==> (photos[i].isPrimary <==> photos[i].id == id)
  }

  lemma {:induction false} GoodHasPrimary(photos: seq<Photo>, nextId: nat) returns (id: nat)
    requires Good(photos, nextId) && photos != []
    ensures IsThePrimary(photos, id)
  {
    var p :| p in photos && p.isPrimary && forall q :: q in photos && q.isPrimary ==> q == p;
    id := p.id;
    var k :| 0 <= k < |photos| && photos[k] == p;
    assert Ids(photos)[k] == id;
    forall i | 0 <= i < |photos| ensures photos[i].isPrimary <==> photos[i].id == id {
      assert photos[i] in photos;
    }
  }

  /** The steps of an update, one by one. */
  lemma {:induction false} PrimarySet(photos: seq<Photo>, id: nat)
    requires id in Ids(photos)
    ensures IsThePrimary(WithPrimary(photos, id), id)
  {
    var k :| 0 <= k < |photos| && Ids(photos)[k] == id;
    assert Ids(WithPrimary(photos, id))[k] == id;
  }

  lemma {:induction false} RestMembers(photos: seq<Photo>, ids: seq<nat>, id: nat)
    requires IsThePrimary(photos, id)
    ensures var rest := WithoutIds(photos, ids);
      && (forall i :: 0 <= i < |rest| ==> (rest[i].isPrimary <==> rest[i].id == id) && rest[i].id !in ids)
      && (id in Ids(rest) <==> id !in ids)
      && (HasPrimary(WithIds(photos, ids)) <==> id in ids)
  {
    var found, rest := WithIds(photos, ids), WithoutIds(photos, ids);
    WithMembers(photos, ids);
    WithoutMembers(photos, ids);
    var k :| 0 <= k < |photos| && Ids(photos)[k] == id;
    assert photos[k] in photos;
    forall i | 0 <= i < |rest| ensures (rest[i].isPrimary <==> rest[i].id == id) && rest[i].id !in ids {
      assert rest[i] in rest;
      var j :| 0 <= j < |photos| && photos[j] == rest[i];
    }
    if id in ids {
      var i := SamePlace(found, photos[k]);
    } else {
      var i := SamePlace(rest, photos[k]);
      assert Ids(rest)[i] == id;
    }
    if HasPrimary(found) {
      var i :| 0 <= i < |found| && found[i].isPrimary;
      assert found[i] in found;
      var j :| 0 <= j < |photos| && photos[j] == found[i];
    }
  }

  /** A primary photo that stays is the primary one; one that goes passes this to the first photo
      shown of those that are left. */
  lemma {:induction false} RemovalPasses(photos: seq<Photo>, photoIds: seq<nat>, id: nat)
    requires IsThePrimary(photos, id) && Remove(photos, photoIds).Ok? && Remove(photos, photoIds).value != []
    ensures var rest := WithoutIds(photos, photoIds);
      && rest != []
      && IsThePrimary(Remove(photos, photoIds).value, if id in photoIds then FirstShown(rest).id else id)
  {
    var ids := Dedupe(photoIds);
    var rest := WithoutIds(photos, ids);
    DedupeIsDistinct(photoIds);
    SameWithout(photos, ids, photoIds);
    RestMembers(photos, ids, id);
    if id in photoIds {
      FirstShownIsLeast(rest);
      var k := SamePlace(rest, FirstShown(rest));
      assert Ids(rest)[k] == FirstShown(rest).id;
      PrimarySet(rest, FirstShown(rest).id);
    }
  }

  lemma {:induction false} ReorderSets(photos: seq<Photo>, order: seq<nat>, primary: Option<nat>, id: nat)
    requires IsThePrimary(photos, id) && Reorder(photos, order, primary).Ok?
    ensures IsThePrimary(Reorder(photos, order, primary).value, primary.GetOr(id))
  {
    var placed := if order != [] then Placed(photos, Dedupe(order)) else photos;
    assert Ids(placed) == Ids(photos);
    if primary.Some? {
      PrimarySet(placed, primary.value);
    }
  }

  lemma {:induction false} AppendKeepsPrimary(photos: seq<Photo>, urls: seq<string>, nextId: nat, id: nat)
    requires IsThePrimary(photos, id) && IdsBelow(photos, nextId) && Append(photos, urls, nextId).Ok?
    ensures IsThePrimary(Append(photos, urls, nextId).value, id)
  {
    var after := Append(photos, urls, nextId).value;
    var k :| 0 <= k < |photos| && Ids(photos)[k] == id;
    assert photos[k].isPrimary && photos[k] in photos && Ids(after)[k] == id;
  }

  lemma {:induction false} FirstPhotosPrimary(urls: seq<string>, nextId: nat)
    requires urls != [] && Append([], urls, nextId).Ok?
    ensures IsThePrimary(Append([], urls, nextId).value, nextId)
    ensures Append([], urls, nextId).value[0].url == urls[0]
  {
    assert Ids(Append([], urls, nextId).value)[0] == nextId;
  }

  lemma {:induction false} CurrentIs(photos: seq<Photo>, id: nat)
    requires forall i :: 0 <= i < |photos| ==> (photos[i].isPrimary <==> photos[i].id == id)
    ensures CurrentPrimary(photos) == if id in Ids(photos) then Some(id) else None
  {
    if photos != [] {
      CurrentIs(photos[1..], id);
      assert Ids(photos) == [photos[0].id] + Ids(photos[1..]);
    }
  }

  lemma {:induction false} ShownPrimary(photos: seq<Photo>, id: nat)
    requires IsThePrimary(photos, id)
    ensures CurrentPrimary(Shown(photos)) == Some(id)
  {
    var shown := Shown(photos);
    ShownIsSorted(photos);
    forall i | 0 <= i < |shown| ensures shown[i].isPrimary <==> shown[i].id == id {
      assert shown[i] in photos;
      var j :| 0 <= j < |photos| && photos[j] == shown[i];
    }
    var k :| 0 <= k < |photos| && Ids(photos)[k] == id;
    assert photos[k] in photos;
    var j := SamePlace(shown, photos[k]);
    assert Ids(shown)[j] == id;
    CurrentIs(shown, id);
  }

  // ----- the primary photo after a whole update -----

  /** The photos that the update does not remove. */
  function Left(s: State, u: Update): seq<Photo> {
    WithoutIds(s.photos, u.remove)
  }

  lemma {:induction false} WithoutNone(photos: seq<Photo>)
    ensures WithoutIds(photos, []) == photos
  {
    if photos != [] {
      WithoutNone(photos[1..]);
    }
  }

  /** The primary photo once the removals are done. */
  lemma {:induction false} KeptPrimary(s: State, u: Update, id: nat)
    requires IsThePrimary(s.photos, id) && Good(s.photos, s.nextId) && PhotosAfter(s, u).Ok? && Left(s, u) != []
    ensures Kept(s, u) != [] && Ids(Kept(s, u)) == Ids(Left(s, u)) && Good(Kept(s, u), s.nextId)
    ensures IsThePrimary(Kept(s, u), if id in u.remove then FirstShown(Left(s, u)).id else id)
  {
    if u.remove == [] {
      WithoutNone(s.photos);
    } else {
      RemoveKeepsGood(s.photos, u.remove, s.nextId);
      assert |Ids(Kept(s, u))| == |Ids(Left(s, u))|;
      RemovalPasses(s.photos, u.remove, id);
    }
  }

  /** The order that the update is carried out with, and the primary photo. */
  function UsedOrder(s: State, u: Update): seq<nat> {
    if OrderChanged(s, u) then u.order else []
  }

  lemma {:induction false} ReorderedPrimary(s: State, u: Update, id: nat, kept: nat)
    requires IsThePrimary(s.photos, id) && IsThePrimary(Kept(s, u), kept)
    requires Kept(s, u) != [] && PhotosAfter(s, u).Ok? && (id !in u.remove ==> kept == id)
    ensures var primary := if PrimaryChanged(s, u) then u.primary else None;
      var r := Reorder(Kept(s, u), UsedOrder(s, u), primary);
      r.Ok? && IsThePrimary(r.value,
        if u.primary.Some? && u.primary.value in Ids(Kept(s, u)) && (PrimaryChanged(s, u) || id !in u.remove)
        then u.primary.value else kept)
  {
    ShownPrimary(s.photos, id);
    var primary := if PrimaryChanged(s, u) then u.primary else None;
    ReorderSets(Kept(s, u), UsedOrder(s, u), primary, kept);
  }

  lemma {:induction false} PhotosAfterPrimary(s: State, u: Update, id: nat)
    requires IsThePrimary(s.photos, id) && Good(s.photos, s.nextId) && PhotosAfter(s, u).Ok? && Left(s, u) != []
    ensures IsThePrimary(PhotosAfter(s, u).value,
      if u.primary.Some? && u.primary.value in Ids(Left(s, u)) then u.primary.value
      else if id in u.remove then FirstShown(Left(s, u)).id else id)
  {
    var kept := if id in u.remove then FirstShown(Left(s, u)).id else id;
    KeptPrimary(s, u, id);
    LeftIds(s, u, id);
    ShownPrimary(s.photos, id);
    ReorderedPrimary(s, u, id, kept);
    var primary := if PrimaryChanged(s, u) then u.primary else None;
    var r := Reorder(Kept(s, u), UsedOrder(s, u), primary).value;
    ReorderKeepsGood(Kept(s, u), UsedOrder(s, u), primary, s.nextId);
    GalleryOrder.PhotosAfterIsRest(s, u);
    if u.urls != [] {
      AppendKeepsPrimary(r, u.urls, s.nextId,
        if u.primary.Some? && u.primary.value in Ids(Left(s, u)) then u.primary.value else kept);
    }
  }

  lemma {:induction false} LeftIds(s: State, u: Update, id: nat)
    requires IsThePrimary(s.photos, id)
    ensures id in Ids(Left(s, u)) <==> id !in u.remove
  {
    RestMembers(s.photos, u.remove, id);
  }

  /** After an update that succeeds the primary photo is the one asked for, if it is left; else the one
      before, if it is left; else a photo with the least display order of those left; and if none is
      left, the first new one. */
  lemma {:induction false} UpdatePrimary(s: State, admin: nat, u: Update, id: nat)
    requires Good(s.photos, s.nextId) && Updated(s, admin, u).Ok? && s.photos != [] && IsThePrimary(s.photos, id)
    ensures var photos, left := Updated(s, admin, u).value.photos, Left(s, u);
      && (left != [] && u.primary.Some? && u.primary.value in Ids(left) ==> IsThePrimary(photos, u.primary.value))
      && (left != [] && !(u.primary.Some? && u.primary.value in Ids(left)) && id !in u.remove
          ==> IsThePrimary(photos, id))
      && (left != [] && !(u.primary.Some? && u.primary.value in Ids(left)) && id in u.remove
          ==> IsThePrimary(photos, FirstShown(left).id) && FirstShown(left) in left
              && forall p :: p in left ==> FirstShown(left).displayOrder <= p.displayOrder)
      && (left == [] ==> IsThePrimary(photos, s.nextId) && u.urls != [] && photos[0].url == u.urls[0])
  {
    GalleryOrder.UpdatedIs(s, admin, u);
    var left := Left(s, u);
    if left != [] {
      PhotosAfterPrimary(s, u, id);
      FirstShownIsLeast(left);
    } else {
      NoneLeft(s, u);
    }
  }

  lemma {:induction false} NoneLeft(s: State, u: Update)
    requires Good(s.photos, s.nextId) && Left(s, u) == [] && PhotosAfter(s, u).Ok? && PhotosAfter(s, u).value != []
    ensures u.urls != [] && IsThePrimary(PhotosAfter(s, u).value, s.nextId)
    ensures PhotosAfter(s, u).value[0].url == u.urls[0]
  {
    if u.remove == [] {
      WithoutNone(s.photos);
    } else {
      RemoveKeepsGood(s.photos, u.remove, s.nextId);
      assert |Ids(Kept(s, u))| == |Ids(Left(s, u))|;
    }
    GalleryOrder.PhotosAfterIsRest(s, u);
    if u.urls != [] {
      FirstPhotosPrimary(u.urls, s.nextId);
    }
  }

  /** A listing made with photos shows the first one first, and as its primary. */
  lemma {:induction false} CreatedPrimary(admin: nat, pendingReview: bool, urls: seq<string>)
    ensures var r := Created(admin, pendingReview, urls);
      && (r.Err? <==> pendingReview && urls == [])
      && (r.Ok? ==>
            && r.value.createdBy == admin && r.value.status == (if pendingReview then PendingReview else Draft)
            && |r.value.photos| == |urls| && UniqueIds(r.value.photos)
            && (forall k :: 0 <= k < |urls| ==>
                  r.value.photos[k].url == urls[k] && r.value.photos[k].displayOrder == k
                  && (r.value.photos[k].isPrimary <==> k == 0)))
  {
  }

  // ----- which updates succeed, and what they leave -----

  /** The photos left, in their rows and with their files, and then the new ones. */
  predicate Leaves(photos: seq<Photo>, left: seq<Photo>, urls: seq<string>) {
    && |photos| == |left| + |urls|
    && (forall i :: 0 <= i < |left| ==> photos[i].id == left[i].id && photos[i].url == left[i].url)
    && (forall k :: 0 <= k < |urls| ==> photos[|left| + k].url == urls[k])
  }

  /** The photos that stay are those not removed, in their rows and with their files, then the new
      ones; the status is the one asked for. */
  lemma {:induction false} UpdateLeaves(s: State, admin: nat, u: Update)
    requires Good(s.photos, s.nextId) && s.photos != [] && Updated(s, admin, u).Ok?
    ensures var t, left := Updated(s, admin, u).value, Left(s, u);
      && Leaves(t.photos, left, u.urls)
      && t.status == u.status.GetOr(s.status) && t.createdBy == s.createdBy
      && (forall p :: p in left <==> p in s.photos && p.id !in u.remove)
  {
    GalleryOrder.UpdatedIs(s, admin, u);
    WithoutMembers(s.photos, u.remove);
    KeptRows(s, u);
    GalleryOrder.PhotosAfterIsRest(s, u);
    RestRows(s, u);
  }

  predicate SameFiles(a: seq<Photo>, b: seq<Photo>) {
    |a| == |b| && forall i :: 0 <= i < |a| ==> a[i].id == b[i].id && a[i].url == b[i].url
  }

  lemma {:induction false} KeptRows(s: State, u: Update)
    requires u.remove == [] || Remove(s.photos, u.remove).Ok?
    ensures SameFiles(Kept(s, u), Left(s, u))
  {
    if u.remove == [] {
      WithoutNone(s.photos);
    } else {
      DedupeIsDistinct(u.remove);
      SameWithout(s.photos, Dedupe(u.remove), u.remove);
    }
  }

  lemma {:induction false} RestRows(s: State, u: Update)
    requires SameFiles(Kept(s, u), Left(s, u)) && GalleryOrder.Rest(s, u, UsedOrder(s, u)).Ok?
    ensures Leaves(GalleryOrder.Rest(s, u, UsedOrder(s, u)).value, Left(s, u), u.urls)
  {
    var primary := if PrimaryChanged(s, u) then u.primary else None;
    var r := Reorder(Kept(s, u), UsedOrder(s, u), primary).value;
    assert SameFiles(r, Left(s, u));
  }

  /** Every removed id is of a photo. */
  predicate AllKnown(photos: seq<Photo>, ids: seq<nat>) {
    forall k :: 0 <= k < |ids| ==> ids[k] in Ids(photos)
  }

  lemma {:induction false} FoundAllIff(photos: seq<Photo>, ids: seq<nat>)
    requires UniqueIds(photos) && Distinct(ids)
    ensures |WithIds(photos, ids)| == |ids| <==> AllKnown(photos, ids)
  {
    var found := WithIds(photos, ids);
    FoundUnique(photos, ids);
    WithMembers(photos, ids);
    var a, b := Members(Ids(found)), Members(ids);
    DistinctSetSize(Ids(found));
    DistinctSetSize(ids);
    forall id | id in a ensures id in b {
      var k :| 0 <= k < |found| && Ids(found)[k] == id;
      assert found[k] in found;
    }
    if AllKnown(photos, ids) {
      forall id | id in b ensures id in a {
        var k :| 0 <= k < |ids| && ids[k] == id;
        var i :| 0 <= i < |photos| && Ids(photos)[i] == id;
        var j := SamePlace(found, photos[i]);
        assert Ids(found)[j] == id;
      }
      assert a == b;
    }
    if |found| == |ids| {
      SubsetOfSameSize(a, b);
      forall k | 0 <= k < |ids| ensures ids[k] in Ids(photos) {
        assert ids[k] in a;
        var j :| 0 <= j < |found| && Ids(found)[j] == ids[k];
        assert found[j] in photos;
        var i := SamePlace(photos, found[j]);
        assert Ids(photos)[i] == ids[k];
      }
    }
  }

  lemma {:induction false} FoundUnique(photos: seq<Photo>, ids: seq<nat>)
    requires UniqueIds(photos)
    ensures UniqueIds(WithIds(photos, ids))
  {
    if photos != [] {
      var rest := WithIds(photos[1..], ids);
      FoundUnique(photos[1..], ids);
      WithMembers(photos[1..], ids);
      forall k | 0 <= k < |rest| ensures rest[k].id != photos[0].id {
        assert rest[k] in photos[1..];
        var j := SamePlace(photos[1..], rest[k]);
        assert photos[1..][j] == photos[j + 1];
      }
    }
  }

  /** A removal succeeds exactly if all its photos are on the listing. */
  lemma {:induction false} RemovesIff(photos: seq<Photo>, photoIds: seq<nat>)
    requires UniqueIds(photos)
    ensures Remove(photos, photoIds).Ok? <==> AllKnown(photos, photoIds)
  {
    var ids := Dedupe(photoIds);
    DedupeIsDistinct(photoIds);
    FoundAllIff(photos, ids);
    if AllKnown(photos, ids) {
      forall k | 0 <= k < |photoIds| ensures photoIds[k] in Ids(photos) {
        assert photoIds[k] in ids;
        var j :| 0 <= j < |ids| && ids[j] == photoIds[k];
      }
    }
    if AllKnown(photos, photoIds) {
      forall k | 0 <= k < |ids| ensures ids[k] in Ids(photos) {
        assert ids[k] in photoIds;
        var j :| 0 <= j < |photoIds| && photoIds[j] == ids[k];
      }
    }
  }

  /** The new order, if there is one, names exactly the photos left, and the new primary photo is one
      of them. */
  predicate LayoutFits(s: State, u: Update, left: seq<Photo>) {
    && (OrderChanged(s, u) ==> multiset(Dedupe(u.order)) == multiset(Ids(left)))
    && (PrimaryChanged(s, u) ==> u.primary.value in Ids(left))
  }

  lemma {:induction false} StepsSucceedIff(s: State, u: Update)
    requires Good(s.photos, s.nextId)
    ensures PhotosAfter(s, u).Ok? <==>
      && AllKnown(s.photos, u.remove)
      && (Left(s, u) != [] ==> LayoutFits(s, u, Left(s, u)))
      && (u.urls != [] ==> |Left(s, u)| + |u.urls| <= 20)
  {
    RemovesIff(s.photos, u.remove);
    if AllKnown(s.photos, u.remove) {
      KeptRows(s, u);
      assert Ids(Kept(s, u)) == Ids(Left(s, u));
      RemoveKeepsGood(s.photos, u.remove, s.nextId);
      GalleryOrder.PhotosAfterIsRest(s, u);
      AcceptedIsPermutation(Kept(s, u), u.order);
    }
  }

  /** An update succeeds exactly for the admin who made the listing, while it is not sold, with a
      status that is allowed next, and if the steps succeed and leave a photo, or nothing changes. */
  lemma {:induction false} UpdateSucceedsIff(s: State, admin: nat, u: Update)
    requires Good(s.photos, s.nextId) && s.photos != []
    ensures Updated(s, admin, u).Ok? <==>
      && s.createdBy == admin && !s.status.Sold?
      && (u.status.Some? && u.status.value != s.status ==>
            CanTransition(s.status, u.status.value) || (s.status.Rejected? && u.status.value.PendingReview?))
      && AllKnown(s.photos, u.remove)
      && (Left(s, u) != [] ==> LayoutFits(s, u, Left(s, u)))
      && (u.urls != [] ==> |Left(s, u)| + |u.urls| <= 20)
      && |Left(s, u)| + |u.urls| > 0
  {
    StepsSucceedIff(s, u);
    if PhotosAfter(s, u).Ok? {
      KeptRows(s, u);
      GalleryOrder.PhotosAfterIsRest(s, u);
      RestRows(s, u);
    }
    WithoutNone(s.photos);
  }
}
