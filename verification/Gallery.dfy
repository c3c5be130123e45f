/** The photo gallery and the review status of a platform listing
    (src/modules/listings/listings.service.ts). */
module Gallery {
  import opened Prelude
  import opened Marketplace

  datatype Photo = Photo(id: nat, url: string, isPrimary: bool, displayOrder: int)

  const MAX_PHOTOS := 20

  // ----- lists of ids and photos -----

  /** [...new Set(ids)]: the first occurrence of each, in order. */
  function Dedupe(ids: seq<nat>): seq<nat> {
    if ids == [] then []
    else
      var before, id := Dedupe(ids[..|ids| - 1]), ids[|ids| - 1];
      if id in before then before else before + [id]
  }

  function Ids(photos: seq<Photo>): seq<nat> {
    seq(|photos|, i requires 0 <= i < |photos| => photos[i].id)
  }

  predicate Distinct(ids: seq<nat>) {
    forall i, j :: 0 <= i < j < |ids| ==> ids[i] != ids[j]
  }

  function WithIds(photos: seq<Photo>, ids: seq<nat>): seq<Photo> {
    if photos == [] then []
    else if photos[0].id in ids then [photos[0]] + WithIds(photos[1..], ids)
    else WithIds(photos[1..], ids)
  }

  function WithoutIds(photos: seq<Photo>, ids: seq<nat>): seq<Photo> {
    if photos == [] then []
    else if photos[0].id in ids then WithoutIds(photos[1..], ids)
    else [photos[0]] + WithoutIds(photos[1..], ids)
  }

  function WithPrimary(photos: seq<Photo>, id: nat): seq<Photo> {
    seq(|photos|, i requires 0 <= i < |photos| => photos[i].(isPrimary := photos[i].id == id))
  }

  function WithOrder(photos: seq<Photo>, id: nat, order: int): seq<Photo> {
    seq(|photos|, i requires 0 <= i < |photos| =>
      if photos[i].id == id then photos[i].(displayOrder := order) else photos[i])
  }

  predicate HasPrimary(photos: seq<Photo>) {
    exists i :: 0 <= i < |photos| && photos[i].isPrimary
  }

  /** findFirst ordered by displayOrder; among equals, the earliest row. */
  function FirstShown(photos: seq<Photo>): Photo
    requires photos != []
  {
    if |photos| == 1 then photos[0]
    else
      var before, last := FirstShown(photos[..|photos| - 1]), photos[|photos| - 1];
      if last.displayOrder < before.displayOrder then last else before
  }

  function InsertShown(shown: seq<Photo>, p: Photo): seq<Photo> {
    if shown == [] || shown[|shown| - 1].displayOrder <= p.displayOrder then shown + [p]
    else InsertShown(shown[..|shown| - 1], p) + [shown[|shown| - 1]]
  }

  /** The stable sort by displayOrder. */
  function Shown(photos: seq<Photo>): seq<Photo> {
    if photos == [] then [] else InsertShown(Shown(photos[..|photos| - 1]), photos[|photos| - 1])
  }

  function IndexOf(ids: seq<nat>, id: nat): (k: nat)
    requires id in ids
    ensures k < |ids| && ids[k] == id
  {
    if ids[0] == id then 0 else 1 + IndexOf(ids[1..], id)
  }

  // ----- the steps of an update -----

  /** removeAdminListingPhotos */
  function Remove(photos: seq<Photo>, photoIds: seq<nat>): Result<seq<Photo>> {
    var ids := Dedupe(photoIds);
    var found, rest := WithIds(photos, ids), WithoutIds(photos, ids);
    if |found| != |ids| then Err(BadRequest)
    else if HasPrimary(found) && rest != [] then Ok(WithPrimary(rest, FirstShown(rest).id))
    else Ok(rest)
  }

  /** The checks on a requested order of the photos. */
  predicate OrderAccepted(photos: seq<Photo>, photoOrder: seq<nat>) {
    var order := Dedupe(photoOrder);
    |order| == |photos| && forall k :: 0 <= k < |order| ==> order[k] in Ids(photos)
  }

  /** Every photo at its place in the order. */
  ghost predicate PlacedBy(placed: seq<Photo>, photos: seq<Photo>, order: seq<nat>) {
    && |placed| == |photos|
    && forall i :: 0 <= i < |photos| ==>
         && placed[i] == photos[i].(displayOrder := placed[i].displayOrder)
         && 0 <= placed[i].displayOrder < |order| && order[placed[i].displayOrder] == photos[i].id
  }

  function Placed(photos: seq<Photo>, order: seq<nat>): seq<Photo> {
    seq(|photos|, i requires 0 <= i < |photos| =>
      if photos[i].id in order then photos[i].(displayOrder := IndexOf(order, photos[i].id)) else photos[i])
  }

  /** reorderAdminListingPhotos; an empty order is no order. */
  function Reorder(photos: seq<Photo>, photoOrder: seq<nat>, primary: Option<nat>): Result<seq<Photo>> {
    if photos == [] then Ok(photos)
    else if photoOrder != [] && !OrderAccepted(photos, photoOrder) then Err(BadRequest)
    else if primary.Some? && primary.value !in Ids(photos) then Err(BadRequest)
    else
      var placed := if photoOrder != [] then Placed(photos, Dedupe(photoOrder)) else photos;
      Ok(if primary.Some? then WithPrimary(placed, primary.value) else placed)
  }

  function NewPhotos(urls: seq<string>, firstId: nat, count: nat, firstIsPrimary: bool): seq<Photo> {
    seq(|urls|, k requires 0 <= k < |urls| => Photo(firstId + k, urls[k], firstIsPrimary && k == 0, count + k))
  }

  /** appendAdminListingPhotos; the database hands out the ids from firstId on. */
  function Append(photos: seq<Photo>, urls: seq<string>, firstId: nat): Result<seq<Photo>> {
    if |photos| + |urls| > MAX_PHOTOS then Err(BadRequest)
    else Ok(photos + NewPhotos(urls, firstId, |photos|, !HasPrimary(photos)))
  }

  // ----- a listing and its updates -----

  datatype State = State(createdBy: nat, status: ListingStatus, photos: seq<Photo>, nextId: nat)

  /** The gallery side of an admin update; fieldsChanged tells whether any other field, price,
      specification or media file changes. */
  datatype Update = Update(
    remove: seq<nat>,
    order: seq<nat>,
    primary: Option<nat>,
    urls: seq<string>,
    status: Option<ListingStatus>,
    fieldsChanged: bool)

  /** assertAdminManualStatusChange passes. */
  predicate ManualChangeAllowed(from: ListingStatus, to: ListingStatus) {
    from == to || CanTransition(from, to) || (from.Rejected? && to.PendingReview?)
  }

  function CurrentPrimary(photos: seq<Photo>): Option<nat> {
    if photos == [] then None
    else if photos[0].isPrimary then Some(photos[0].id) else CurrentPrimary(photos[1..])
  }

  predicate OrderChanged(s: State, u: Update) {
    u.order != [] && u.order != Ids(Shown(s.photos))
  }

  predicate PrimaryChanged(s: State, u: Update) {
    u.primary.Some? && u.primary != CurrentPrimary(Shown(s.photos))
  }

  predicate Changes(s: State, u: Update) {
    u.remove != [] || u.urls != [] || u.fieldsChanged || OrderChanged(s, u) || PrimaryChanged(s, u)
    || (u.status.Some? && u.status.value != s.status)
  }

  /** The photos after the steps of the transaction. */
  function PhotosAfter(s: State, u: Update): Result<seq<Photo>> {
    match (if u.remove != [] then Remove(s.photos, u.remove) else Ok(s.photos))
    case Err(e) => Err(e)
    case Ok(kept) =>
      var order := if OrderChanged(s, u) then u.order else [];
      var primary := if PrimaryChanged(s, u) then u.primary else None;
      match (if OrderChanged(s, u) || PrimaryChanged(s, u) then Reorder(kept, order, primary) else Ok(kept))
      case Err(e) => Err(e)
      case Ok(ordered) => if u.urls != [] then Append(ordered, u.urls, s.nextId) else Ok(ordered)
  }

  /** updateCreatedByAdmin. */
  function Updated(s: State, admin: nat, u: Update): Result<State> {
    if s.createdBy != admin then Err(Forbidden)
    else if s.status.Sold? then Err(BadRequest)
    else if u.status.Some? && !ManualChangeAllowed(s.status, u.status.value) then Err(BadRequest)
    else if !Changes(s, u) then Ok(s)
    else
      match PhotosAfter(s, u)
      case Err(e) => Err(e)
      case Ok(photos) =>
        if photos == [] then Err(BadRequest)
        else Ok(s.(status := u.status.GetOr(s.status), photos := photos, nextId := s.nextId + |u.urls|))
  }

  /** createByAdmin with a status of DRAFT or PENDING_REVIEW. */
  function Created(admin: nat, pendingReview: bool, urls: seq<string>): Result<State> {
    if pendingReview && urls == [] then Err(BadRequest)
    else Ok(State(admin, if pendingReview then PendingReview else Draft, NewPhotos(urls, 0, 0, true), |urls|))
  }

  class ListingGallery {
    const createdBy: nat
    var status: ListingStatus
    var photos: seq<Photo>
    var nextId: nat

    ghost function View(): State
      reads this
    {
      State(createdBy, status, photos, nextId)
    }

    constructor (s: State)
      ensures View() == s
    {
      createdBy, status, photos, nextId := s.createdBy, s.status, s.photos, s.nextId;
    }

    method RemovePhotos(photoIds: seq<nat>) returns (error: Option<Error>)
      modifies this`photos
      ensures match Remove(old(photos), photoIds)
        case Ok(after) => error.None? && photos == after
        case Err(e) => error == Some(e) && photos == old(photos)
    {
      var ids := Dedupe(photoIds);
      var found := WithIds(photos, ids);
      if |found| != |ids| {
        return Some(BadRequest);
      }
      photos := WithoutIds(photos, ids);
      if HasPrimary(found) && photos != [] {
        photos := WithPrimary(photos, FirstShown(photos).id);
      }
      error := None;
    }

    /** The loop writes the display orders one photo at a time. */
    method PlacePhotos(order: seq<nat>)
      requires Distinct(order)
      modifies this`photos
      ensures photos == Placed(old(photos), order)
    {
      ghost var before := photos;
      for index := 0 to |order|
        invariant |photos| == |before|
        invariant forall i :: 0 <= i < |before| ==>
          photos[i] == if before[i].id in order[..index]
                       then before[i].(displayOrder := IndexOf(order, before[i].id)) else before[i]
      {
        ghost var earlier := photos;
        PlaceOfDistinct(order, index);
        photos := WithOrder(photos, order[index], index);
        assert order[..index + 1] == order[..index] + [order[index]];
      }
      assert order[..|order|] == order;
    }

    method ReorderPhotos(photoOrder: seq<nat>, primary: Option<nat>) returns (error: Option<Error>)
      modifies this`photos
      ensures match Reorder(old(photos), photoOrder, primary)
        case Ok(after) => error.None? && photos == after
        case Err(e) => error == Some(e)
    {
      if photos == [] {
        return None;
      }
      var ids := Ids(photos);
      if photoOrder != [] {
        var order := Dedupe(photoOrder);
        DedupeIsDistinct(photoOrder);
        if |order| != |photos| || exists k :: 0 <= k < |order| && order[k] !in ids {
          return Some(BadRequest);
        }
        PlacePhotos(order);
      }
      if primary.Some? {
        if primary.value !in ids {
          return Some(BadRequest);
        }
        photos := WithPrimary(photos, primary.value);
      }
      error := None;
    }

    method AppendPhotos(urls: seq<string>) returns (error: Option<Error>)
      modifies this`photos, this`nextId
      ensures match Append(old(photos), urls, old(nextId))
        case Ok(after) => error.None? && photos == after && nextId == old(nextId) + |urls|
        case Err(e) => error == Some(e) && photos == old(photos) && nextId == old(nextId)
    {
      if |photos| + |urls| > MAX_PHOTOS {
        return Some(BadRequest);
      }
      photos := photos + NewPhotos(urls, nextId, |photos|, !HasPrimary(photos));
      nextId := nextId + |urls|;
      error := None;
    }

    /** The writes of the transaction, made one after the other; on an error they stand half
        done. */
    method WriteUpdate(u: Update, orderChanged: bool, primaryChanged: bool) returns (error: Option<Error>)
      requires orderChanged == OrderChanged(View(), u) && primaryChanged == PrimaryChanged(View(), u)
      modifies this
      ensures match PhotosAfter(old(View()), u)
        case Err(e) => error == Some(e)
        case Ok(after) =>
          if after == [] then error == Some(BadRequest)
          else error.None? && photos == after && nextId == old(nextId) + |u.urls|
               && status == u.status.GetOr(old(status))
    {
      if u.status.Some? {
        status := u.status.value;
      }
      if u.remove != [] {
        error := RemovePhotos(u.remove);
        if error.Some? {
          return;
        }
      }
      if orderChanged || primaryChanged {
        error := ReorderPhotos(if orderChanged then u.order else [], if primaryChanged then u.primary else None);
        if error.Some? {
          return;
        }
      }
      if u.urls != [] {
        error := AppendPhotos(u.urls);
        if error.Some? {
          return;
        }
      }
      error := if photos == [] then Some(BadRequest) else None;
    }

    /** A failing update leaves every row as it was: the transaction rolls back. */
    method UpdateCreatedByAdmin(admin: nat, u: Update) returns (error: Option<Error>)
      modifies this
      ensures match Updated(old(View()), admin, u)
        case Ok(after) => error.None? && View() == after
        case Err(e) => error == Some(e) && View() == old(View())
    {
      if createdBy != admin {
        return Some(Forbidden);
      }
      if status.Sold? || (u.status.Some? && !ManualChangeAllowed(status, u.status.value)) {
        return Some(BadRequest);
      }
      var shown := Shown(photos);
      var orderChanged := u.order != [] && u.order != Ids(shown);
      var primaryChanged := u.primary.Some? && u.primary != CurrentPrimary(shown);
      if !(u.remove != [] || u.urls != [] || u.fieldsChanged || orderChanged || primaryChanged
           || (u.status.Some? && u.status.value != status))
      {
        return None;
      }
      var status0, photos0, nextId0 := status, photos, nextId;
      error := WriteUpdate(u, orderChanged, primaryChanged);
      if error.Some? {
        status, photos, nextId := status0, photos0, nextId0;
      }
    }
  }

  // ----- facts about the lists -----

  lemma {:induction false} DedupeIsDistinct(ids: seq<nat>)
    ensures Distinct(Dedupe(ids)) && forall id :: id in Dedupe(ids) <==> id in ids
  {
    if ids != [] {
      var init, last := ids[..|ids| - 1], ids[|ids| - 1];
      DedupeIsDistinct(init);
      assert ids == init + [last];
    }
  }

  lemma {:induction false} PlaceOfDistinct(order: seq<nat>, k: nat)
    requires Distinct(order) && k < |order|
    ensures IndexOf(order, order[k]) == k
  {
  }

  predicate UniqueIds(photos: seq<Photo>) {
    forall i, j :: 0 <= i < j < |photos| ==> photos[i].id != photos[j].id
  }

  /** Where there are photos, exactly one of them is primary. */
  ghost predicate OnePrimary(photos: seq<Photo>) {
    photos != [] ==>
      exists p :: p in photos && p.isPrimary && forall q :: q in photos && q.isPrimary ==> q == p
  }

  predicate IdsBelow(photos: seq<Photo>, nextId: nat) {
    forall p :: p in photos ==> p.id < nextId
  }

  ghost predicate Good(photos: seq<Photo>, nextId: nat) {
    UniqueIds(photos) && OnePrimary(photos) && IdsBelow(photos, nextId)
  }

  lemma {:induction false} WithoutMembers(photos: seq<Photo>, ids: seq<nat>)
    ensures forall p :: p in WithoutIds(photos, ids) <==> p in photos && p.id !in ids
    ensures UniqueIds(photos) ==> UniqueIds(WithoutIds(photos, ids))
  {
    if photos != [] {
      WithoutMembers(photos[1..], ids);
      var rest := WithoutIds(photos[1..], ids);
      assert photos == [photos[0]] + photos[1..];
      if UniqueIds(photos) && photos[0].id !in ids {
        forall j | 0 <= j < |rest| ensures rest[j].id != photos[0].id {
          assert rest[j] in photos[1..];
        }
      }
    }
  }

  lemma {:induction false} WithMembers(photos: seq<Photo>, ids: seq<nat>)
    ensures forall p :: p in WithIds(photos, ids) <==> p in photos && p.id in ids
  {
    if photos != [] {
      WithMembers(photos[1..], ids);
      assert photos == [photos[0]] + photos[1..];
    }
  }

  lemma {:induction false} FirstShownIsLeast(photos: seq<Photo>)
    requires photos != []
    ensures FirstShown(photos) in photos
    ensures forall p :: p in photos ==> FirstShown(photos).displayOrder <= p.displayOrder
  {
    if |photos| > 1 {
      var init := photos[..|photos| - 1];
      FirstShownIsLeast(init);
      assert photos == init + [photos[|photos| - 1]];
    }
  }

  lemma {:induction false} SamePlace(photos: seq<Photo>, p: Photo) returns (i: nat)
    requires p in photos
    ensures i < |photos| && photos[i] == p
  {
    i :| 0 <= i < |photos| && photos[i] == p;
  }

  lemma {:induction false} WithPrimaryIsGood(photos: seq<Photo>, p: Photo, nextId: nat)
    requires UniqueIds(photos) && IdsBelow(photos, nextId) && p in photos
    ensures Good(WithPrimary(photos, p.id), nextId)
    ensures forall q :: q in WithPrimary(photos, p.id) && q.isPrimary ==> q.id == p.id
  {
    var after := WithPrimary(photos, p.id);
    var i := SamePlace(photos, p);
    forall q | q in after && q.isPrimary ensures q == after[i] {
      var j := SamePlace(after, q);
      assert j == i;
    }
    assert after[i] in after;
    forall q | q in after ensures q.id < nextId {
      var j := SamePlace(after, q);
      assert photos[j] in photos;
    }
  }

  /** Removing photos succeeds exactly when all of them are on the listing, and takes away those
      and no others. A primary that goes is replaced by the first photo shown. */
  lemma {:induction false} RemoveKeepsGood(photos: seq<Photo>, photoIds: seq<nat>, nextId: nat)
    requires Good(photos, nextId)
    ensures var r := Remove(photos, photoIds);
      r.Ok? ==> Good(r.value, nextId) && Ids(r.value) == Ids(WithoutIds(photos, photoIds))
  {
    var ids := Dedupe(photoIds);
    var found, rest := WithIds(photos, ids), WithoutIds(photos, ids);
    DedupeIsDistinct(photoIds);
    SameWithout(photos, ids, photoIds);
    WithMembers(photos, ids);
    WithoutMembers(photos, ids);
    if rest != [] {
      if HasPrimary(found) {
        FirstShownIsLeast(rest);
        WithPrimaryIsGood(rest, FirstShown(rest), nextId);
      } else {
        var p :| p in photos && p.isPrimary && forall q :: q in photos && q.isPrimary ==> q == p;
        if p in found {
          var i := SamePlace(found, p);
        }
        assert p in rest;
      }
    }
  }

  lemma {:induction false} SameWithout(photos: seq<Photo>, a: seq<nat>, b: seq<nat>)
    requires forall id :: id in a <==> id in b
    ensures WithoutIds(photos, a) == WithoutIds(photos, b)
  {
    if photos != [] {
      SameWithout(photos[1..], a, b);
    }
  }

  /** Photos that keep id and primary flag row by row stay good. */
  lemma {:induction false} RowwiseGood(photos: seq<Photo>, after: seq<Photo>, nextId: nat)
    requires Good(photos, nextId) && |after| == |photos|
    requires forall i :: 0 <= i < |photos| ==> after[i].id == photos[i].id && after[i].isPrimary == photos[i].isPrimary
    ensures Good(after, nextId)
  {
    if photos != [] {
      var p :| p in photos && p.isPrimary && forall q :: q in photos && q.isPrimary ==> q == p;
      var i := SamePlace(photos, p);
      forall q | q in after && q.isPrimary ensures q == after[i] {
        var j := SamePlace(after, q);
        assert photos[j] in photos;
        assert j == i;
      }
      assert after[i] in after;
      forall q | q in after ensures q.id < nextId {
        var j := SamePlace(after, q);
        assert photos[j] in photos;
      }
    }
  }

  lemma {:induction false} ReorderKeepsGood(photos: seq<Photo>, order: seq<nat>, primary: Option<nat>, nextId: nat)
    requires Good(photos, nextId)
    ensures var r := Reorder(photos, order, primary); r.Ok? ==> Good(r.value, nextId) && |r.value| == |photos|
  {
    if Reorder(photos, order, primary).Ok? && photos != [] {
      var placed := if order != [] then Placed(photos, Dedupe(order)) else photos;
      RowwiseGood(photos, placed, nextId);
      if primary.Some? {
        var i :| 0 <= i < |photos| && Ids(photos)[i] == primary.value;
        WithPrimaryIsGood(placed, placed[i], nextId);
      }
    }
  }

  lemma {:induction false} AppendKeepsGood(photos: seq<Photo>, urls: seq<string>, nextId: nat)
    requires Good(photos, nextId)
    ensures var r := Append(photos, urls, nextId);
      r.Ok? ==> Good(r.value, nextId + |urls|) && |r.value| == |photos| + |urls| <= MAX_PHOTOS
  {
    var added := NewPhotos(urls, nextId, |photos|, !HasPrimary(photos));
    var after := photos + added;
    if |photos| + |urls| <= MAX_PHOTOS && after != [] {
      forall i, j | 0 <= i < j < |after| ensures after[i].id != after[j].id {
        if i < |photos| {
          assert photos[i] in photos;
        }
      }
      forall q | q in after ensures q.id < nextId + |urls| {
        var j := SamePlace(after, q);
        if j < |photos| {
          assert photos[j] in photos;
        }
      }
      AppendOnePrimary(photos, added);
    }
  }

  lemma {:induction false} AppendOnePrimary(photos: seq<Photo>, added: seq<Photo>)
    requires OnePrimary(photos)
    requires forall k :: 0 <= k < |added| ==> added[k].isPrimary == (!HasPrimary(photos) && k == 0)
    ensures OnePrimary(photos + added)
  {
    var after := photos + added;
    if photos != [] {
      var p :| p in photos && p.isPrimary && forall q :: q in photos && q.isPrimary ==> q == p;
      var i := SamePlace(photos, p);
      assert p in after;
      forall q | q in after && q.isPrimary ensures q == p {
        var j := SamePlace(after, q);
        if j < |photos| {
          assert q in photos;
        }
      }
    } else if added != [] {
      assert added[0] in after;
      forall q | q in after && q.isPrimary ensures q == added[0] {
        var j := SamePlace(after, q);
      }
    }
  }

  // ----- the requested order -----

  /** n photos at the places 0 to n - 1, each once. */
  predicate Dense(photos: seq<Photo>) {
    && (forall i :: 0 <= i < |photos| ==> 0 <= photos[i].displayOrder < |photos|)
    && (forall i, j :: 0 <= i < j < |photos| ==> photos[i].displayOrder != photos[j].displayOrder)
  }

  ghost function Members(ids: seq<nat>): set<nat> {
    set id | id in ids
  }

  lemma {:induction false} DistinctSetSize(ids: seq<nat>)
    requires Distinct(ids)
    ensures |Members(ids)| == |ids|
  {
    if ids != [] {
      var init, last := ids[..|ids| - 1], ids[|ids| - 1];
      DistinctSetSize(init);
      assert ids == init + [last] && last !in init;
      assert Members(ids) == Members(init) + {last};
    }
  }

  lemma {:induction false} SubsetOfSameSize(a: set<nat>, b: set<nat>)
    requires a <= b && |a| == |b|
    ensures a == b
  {
    assert b == a + (b - a);
  }

  lemma {:induction false} OnceEach(ids: seq<nat>, id: nat)
    requires Distinct(ids)
    ensures multiset(ids)[id] == if id in ids then 1 else 0
  {
    if ids != [] {
      var init, last := ids[..|ids| - 1], ids[|ids| - 1];
      assert ids == init + [last];
      OnceEach(init, id);
      assert last !in init;
    }
  }

  /** An order that passes the two checks, once repeats are dropped, is a permutation of the
      listing's photos. */
  lemma {:induction false} AcceptedIsPermutation(photos: seq<Photo>, photoOrder: seq<nat>)
    requires UniqueIds(photos)
    ensures OrderAccepted(photos, photoOrder) <==> multiset(Dedupe(photoOrder)) == multiset(Ids(photos))
  {
    var order, ids := Dedupe(photoOrder), Ids(photos);
    DedupeIsDistinct(photoOrder);
    if OrderAccepted(photos, photoOrder) {
      DistinctSetSize(order);
      DistinctSetSize(ids);
      var a, b := Members(order), Members(ids);
      assert a <= b;
      SubsetOfSameSize(a, b);
      forall id ensures multiset(order)[id] == multiset(ids)[id] {
        OnceEach(order, id);
        OnceEach(ids, id);
        assert id in a <==> id in b;
      }
    } else if multiset(order) == multiset(ids) {
      assert |multiset(order)| == |order| && |multiset(ids)| == |ids|;
      forall k | 0 <= k < |order| ensures order[k] in ids {
        assert order[k] in multiset(order);
      }
    }
  }

  /** After an accepted order every photo is at its place in it, the places are 0 to n - 1, and
      nothing else of a photo changed. */
  lemma {:induction false} PlacedAsRequested(photos: seq<Photo>, photoOrder: seq<nat>)
    requires UniqueIds(photos) && OrderAccepted(photos, photoOrder)
    ensures var order := Dedupe(photoOrder);
      PlacedBy(Placed(photos, order), photos, order) && Dense(Placed(photos, order))
  {
    var order, ids := Dedupe(photoOrder), Ids(photos);
    AcceptedIsPermutation(photos, photoOrder);
    forall i | 0 <= i < |photos| ensures photos[i].id in order {
      assert ids[i] in multiset(ids);
    }
  }

  /** Appending to n photos at 0 to n - 1 gives the next places to the new photos. */
  lemma {:induction false} AppendExtendsDense(photos: seq<Photo>, urls: seq<string>, nextId: nat)
    requires Dense(photos) && Append(photos, urls, nextId).Ok?
    ensures var after := Append(photos, urls, nextId).value;
      Dense(after) && after[..|photos|] == photos
      && forall k :: 0 <= k < |urls| ==>
           after[|photos| + k].url == urls[k] && after[|photos| + k].displayOrder == |photos| + k
  {
  }

  /** The photos left by the removals of an update. */
  function Kept(s: State, u: Update): seq<Photo> {
    var r := if u.remove != [] then Remove(s.photos, u.remove) else Ok(s.photos);
    if r.Ok? then r.value else []
  }

  /** The kept photos stand at their places in the order and the added ones at the places after
      them, with no gap and no tie. */
  ghost predicate Follows(after: seq<Photo>, kept: seq<Photo>, order: seq<nat>, urls: seq<string>) {
    && |after| == |kept| + |urls| && Dense(after)
    && (forall i :: 0 <= i < |kept| ==>
          && after[i].id == kept[i].id
          && 0 <= after[i].displayOrder < |order| && order[after[i].displayOrder] == kept[i].id)
    && (forall k :: 0 <= k < |urls| ==>
          after[|kept| + k].url == urls[k] && after[|kept| + k].displayOrder == |kept| + k)
  }

  lemma {:induction false} ReorderFollows(kept: seq<Photo>, photoOrder: seq<nat>, primary: Option<nat>)
    requires UniqueIds(kept) && kept != [] && photoOrder != [] && Reorder(kept, photoOrder, primary).Ok?
    ensures Follows(Reorder(kept, photoOrder, primary).value, kept, Dedupe(photoOrder), [])
  {
    PlacedAsRequested(kept, photoOrder);
  }

  lemma {:induction false} AppendFollows(
    ordered: seq<Photo>, kept: seq<Photo>, order: seq<nat>, urls: seq<string>, nextId: nat)
    requires Follows(ordered, kept, order, []) && Append(ordered, urls, nextId).Ok?
    ensures Follows(Append(ordered, urls, nextId).value, kept, order, urls)
  {
    AppendExtendsDense(ordered, urls, nextId);
    var after := Append(ordered, urls, nextId).value;
    assert forall i :: 0 <= i < |kept| ==> after[i] == ordered[i];
  }

  /** An update that asks for a new order names each photo it keeps once, shows them in that
      order, and shows the photos it adds after them. */
  lemma {:induction false} UpdateFollowsOrder(s: State, u: Update)
    requires Good(s.photos, s.nextId) && OrderChanged(s, u)
    requires PhotosAfter(s, u).Ok? && Kept(s, u) != []
    ensures multiset(Dedupe(u.order)) == multiset(Ids(Kept(s, u)))
    ensures Follows(PhotosAfter(s, u).value, Kept(s, u), Dedupe(u.order), u.urls)
  {
    var kept := Kept(s, u);
    var primary := if PrimaryChanged(s, u) then u.primary else None;
    RemoveKeepsGood(s.photos, u.remove, s.nextId);
    assert Reorder(kept, u.order, primary).Ok?;
    AcceptedIsPermutation(kept, u.order);
    ReorderFollows(kept, u.order, primary);
    if u.urls != [] {
      AppendFollows(Reorder(kept, u.order, primary).value, kept, Dedupe(u.order), u.urls, s.nextId);
    }
  }

  // ----- the order shown -----

  predicate Sorted(photos: seq<Photo>) {
    forall i, j :: 0 <= i < j < |photos| ==> photos[i].displayOrder <= photos[j].displayOrder
  }

  lemma {:induction false} InsertIsSorted(shown: seq<Photo>, p: Photo)
    requires Sorted(shown)
    ensures Sorted(InsertShown(shown, p)) && |InsertShown(shown, p)| == |shown| + 1
    ensures forall q :: q in InsertShown(shown, p) <==> q in shown || q == p
  {
    if shown != [] && shown[|shown| - 1].displayOrder > p.displayOrder {
      var init, last := shown[..|shown| - 1], shown[|shown| - 1];
      InsertIsSorted(init, p);
      assert shown == init + [last];
      forall q | q in InsertShown(init, p) ensures q.displayOrder <= last.displayOrder {
        assert q in init || q == p;
      }
    }
  }

  /** The order shown is sorted, and has the photos of the gallery. */
  lemma {:induction false} ShownIsSorted(photos: seq<Photo>)
    ensures Sorted(Shown(photos)) && |Shown(photos)| == |photos|
    ensures forall q :: q in Shown(photos) <==> q in photos
  {
    if photos != [] {
      var init, last := photos[..|photos| - 1], photos[|photos| - 1];
      ShownIsSorted(init);
      InsertIsSorted(Shown(init), last);
      assert photos == init + [last];
    }
  }

  predicate UpTo(photos: seq<Photo>, order: int) {
    forall p :: p in photos ==> p.displayOrder <= order
  }

  lemma {:induction false} ShownOneMore(photos: seq<Photo>, p: Photo)
    requires UpTo(photos, p.displayOrder)
    ensures Shown(photos + [p]) == Shown(photos) + [p]
  {
    ShownIsSorted(photos);
    assert (photos + [p])[..|photos|] == photos;
    if photos != [] {
      assert Shown(photos)[|photos| - 1] in Shown(photos);
    }
  }

  lemma {:induction false} UpToOneMore(photos: seq<Photo>, p: Photo)
    requires UpTo(photos, p.displayOrder)
    ensures UpTo(photos + [p], p.displayOrder + 1)
  {
  }

  predicate FromPlace(photos: seq<Photo>, n: int) {
    forall k :: 0 <= k < |photos| ==> photos[k].displayOrder == n + k
  }

  ghost predicate IsShownLast(photos: seq<Photo>, added: seq<Photo>, n: int) {
    Shown(photos + added) == Shown(photos) + added && UpTo(photos + added, n + |added|)
  }

  lemma {:induction false} NoneShownLast(photos: seq<Photo>, n: int)
    requires UpTo(photos, n)
    ensures IsShownLast(photos, [], n)
  {
    assert photos + [] == photos && Shown(photos) + [] == Shown(photos);
  }

  lemma {:induction false} OneMoreShownLast(photos: seq<Photo>, added: seq<Photo>, p: Photo, n: int)
    requires IsShownLast(photos, added, n) && p.displayOrder == n + |added|
    ensures IsShownLast(photos, added + [p], n)
  {
    ShownOneMore(photos + added, p);
    UpToOneMore(photos + added, p);
    assert photos + (added + [p]) == photos + added + [p];
  }

  /** Photos at the places from n on, added to photos up to n, are shown last. */
  lemma {:induction false} ShownLast(photos: seq<Photo>, added: seq<Photo>, n: int)
    requires UpTo(photos, n) && FromPlace(added, n)
    ensures IsShownLast(photos, added, n)
  {
    if added == [] {
      NoneShownLast(photos, n);
    } else {
      var init := added[..|added| - 1];
      ShownLast(photos, init, n);
      OneMoreShownLast(photos, init, added[|added| - 1], n);
      assert init + [added[|added| - 1]] == added;
    }
  }

  /** New photos have a greater display order than all others exactly when every display order is
      below the number of photos. */
  lemma {:induction false} AppendAboveIff(photos: seq<Photo>, urls: seq<string>, nextId: nat)
    requires urls != [] && Append(photos, urls, nextId).Ok?
    ensures var after := Append(photos, urls, nextId).value;
      (forall i, k :: 0 <= i < |photos| <= k < |after| ==> after[i].displayOrder < after[k].displayOrder)
      <==> (forall i :: 0 <= i < |photos| ==> photos[i].displayOrder < |photos|)
  {
    var after := Append(photos, urls, nextId).value;
    assert after[|photos|].displayOrder == |photos|;
    assert forall i :: 0 <= i < |photos| ==> after[i] == photos[i];
  }

  lemma {:induction false} NotShownLast(photos: seq<Photo>, added: seq<Photo>, p: Photo)
    requires added != [] && p in photos && p.displayOrder > added[0].displayOrder
    ensures Shown(photos + added) != Shown(photos) + added
  {
    ShownIsSorted(photos);
    ShownIsSorted(photos + added);
    var shown := Shown(photos);
    var i :| 0 <= i < |shown| && shown[i] == p;
    assert (shown + added)[i] == p && (shown + added)[|shown|] == added[0];
    assert !Sorted(shown + added);
  }

  /** New photos are shown after all others exactly when no display order is above the number of
      photos; a removal without a new order can break this. */
  lemma {:induction false} AppendShownLastIff(photos: seq<Photo>, urls: seq<string>, nextId: nat)
    requires urls != [] && Append(photos, urls, nextId).Ok?
    ensures var after := Append(photos, urls, nextId).value;
      Shown(after) == Shown(photos) + after[|photos|..] <==> UpTo(photos, |photos|)
  {
    var after := Append(photos, urls, nextId).value;
    var added := NewPhotos(urls, nextId, |photos|, !HasPrimary(photos));
    assert after == photos + added && after[|photos|..] == added && added[0].displayOrder == |photos|;
    if UpTo(photos, |photos|) {
      ShownLast(photos, added, |photos|);
    } else {
      var p :| p in photos && p.displayOrder > |photos|;
      NotShownLast(photos, added, p);
    }
  }

  // ----- every run -----

  datatype Event =
    | EditByAdmin(admin: nat, update: Update)
    | SubmitForReview
    | Review(to: ListingStatus)  // approve, publish, unpublish, reject
    | ReleaseReservation         // an invoice cancelled or expired

  function Apply(s: State, e: Event): State {
    match e
    case EditByAdmin(admin, update) =>
      (match Updated(s, admin, update) case Ok(after) => after case Err(_) => s)
    case SubmitForReview =>
      if CanTransition(s.status, PendingReview) && |s.photos| >= 1 then s.(status := PendingReview) else s
    case Review(to) =>
      if (to.Approved? || to.Published? || to.Suspended? || to.Rejected?) && CanTransition(s.status, to)
      then s.(status := to) else s
    case ReleaseReservation => if s.status.Reserved? then s.(status := Published) else s
  }

  function Run(s: State, events: seq<Event>): State
    decreases |events|
  {
    if events == [] then s else Run(Apply(s, events[0]), events[1..])
  }

  ghost predicate Inv(s: State) {
    Good(s.photos, s.nextId) && (s.status.Draft? || s.photos != [])
  }

  lemma {:induction false} PhotosAfterGood(s: State, u: Update)
    requires Good(s.photos, s.nextId)
    ensures var r := PhotosAfter(s, u);
      r.Ok? ==> Good(r.value, s.nextId + |u.urls|) && (u.urls != [] ==> |r.value| <= MAX_PHOTOS)
  {
    var r := if u.remove != [] then Remove(s.photos, u.remove) else Ok(s.photos);
    RemoveKeepsGood(s.photos, u.remove, s.nextId);
    if r.Ok? {
      var order := if OrderChanged(s, u) then u.order else [];
      var primary := if PrimaryChanged(s, u) then u.primary else None;
      ReorderKeepsGood(r.value, order, primary, s.nextId);
      var t := if OrderChanged(s, u) || PrimaryChanged(s, u) then Reorder(r.value, order, primary) else Ok(r.value);
      if t.Ok? {
        AppendKeepsGood(t.value, u.urls, s.nextId);
      }
    }
  }

  lemma {:induction false} EditKeepsInv(s: State, admin: nat, u: Update)
    requires Inv(s)
    ensures var r := Updated(s, admin, u); r.Ok? ==> Inv(r.value)
  {
    PhotosAfterGood(s, u);
  }

  lemma {:induction false} StepKeepsInv(s: State, e: Event)
    requires Inv(s)
    ensures Inv(Apply(s, e))
  {
    match e {
      case EditByAdmin(admin, update) => EditKeepsInv(s, admin, update);
      case _ =>
        var after := Apply(s, e);
        assert after.photos == s.photos && after.nextId == s.nextId;
        assert after.status.Draft? ==> s.status.Draft?;
    }
  }

  lemma {:induction false} RunKeepsInv(s: State, events: seq<Event>)
    requires Inv(s)
    ensures Inv(Run(s, events))
    decreases |events|
  {
    if events != [] {
      StepKeepsInv(s, events[0]);
      RunKeepsInv(Apply(s, events[0]), events[1..]);
    }
  }

  /** After any run of a listing made by createByAdmin exactly one photo is primary whenever there
      are photos, a listing that is not a draft has a photo, and an update that adds photos
      leaves at most twenty. */
  lemma {:induction false} GalleryOfEveryRun(
    admin: nat, pendingReview: bool, urls: seq<string>, events: seq<Event>, u: Update)
    requires Created(admin, pendingReview, urls).Ok?
    ensures var s := Run(Created(admin, pendingReview, urls).value, events);
      && UniqueIds(s.photos) && OnePrimary(s.photos)
      && (!s.status.Draft? ==> s.photos != [])
      && (var r := Updated(s, admin, u); r.Ok? && u.urls != [] ==> |r.value.photos| <= MAX_PHOTOS)
  {
    var start := Created(admin, pendingReview, urls).value;
    AppendOnePrimary([], start.photos);
    assert [] + start.photos == start.photos;
    RunKeepsInv(start, events);
    PhotosAfterGood(Run(start, events), u);
  }
}
