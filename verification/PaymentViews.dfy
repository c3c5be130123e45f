/** A buyer's list of payments: rejected attempts that a newer payment replaced are hidden, and the
    rest is cut into pages (src/modules/payments/payments.service.ts). */
module PaymentViews {
  import opened Prelude
  import opened Marketplace

  datatype Row = Row(id: nat, invoiceId: nat, status: PaymentStatus)

  /** The id of the first row of each invoice; rows come newest first. */
  function LatestIds(rows: seq<Row>): map<nat, nat> {
    if rows == [] then map[]
    else
      var m, row := LatestIds(rows[..|rows| - 1]), rows[|rows| - 1];
      if row.invoiceId in m then m else m[row.invoiceId := row.id]
  }

  predicate IsVisible(row: Row, latest: map<nat, nat>) {
    !row.status.PaymentRejected? || (row.invoiceId in latest && latest[row.invoiceId] == row.id)
  }

  function Filter(rows: seq<Row>, latest: map<nat, nat>): seq<Row> {
    if rows == [] then []
    else
      var rest, row := Filter(rows[..|rows| - 1], latest), rows[|rows| - 1];
      if IsVisible(row, latest) then rest + [row] else rest
  }

  function Visible(rows: seq<Row>): seq<Row> {
    Filter(rows, LatestIds(rows))
  }

  method FilterSupersededRejectedPayments(rows: seq<Row>) returns (visible: seq<Row>)
    ensures visible == Visible(rows)
  {
    var latestIdByInvoice: map<nat, nat> := map[];
    for i := 0 to |rows|
      invariant latestIdByInvoice == LatestIds(rows[..i])
    {
      assert rows[..i + 1][..i] == rows[..i];
      if rows[i].invoiceId !in latestIdByInvoice {
        latestIdByInvoice := latestIdByInvoice[rows[i].invoiceId := rows[i].id];
      }
    }
    assert rows[..|rows|] == rows;
    visible := Filter(rows, latestIdByInvoice);
  }

  // ----- what is shown -----

  predicate UniqueIds(rows: seq<Row>) {
    forall i, j :: 0 <= i < j < |rows| ==> rows[i].id != rows[j].id
  }

  predicate IsNewest(rows: seq<Row>, i: nat)
    requires i < |rows|
  {
    forall j :: 0 <= j < i ==> rows[j].invoiceId != rows[i].invoiceId
  }

  lemma {:induction false} LatestIsFirst(rows: seq<Row>, i: nat)
    requires UniqueIds(rows) && i < |rows|
    ensures var m := LatestIds(rows);
      rows[i].invoiceId in m && (m[rows[i].invoiceId] == rows[i].id <==> IsNewest(rows, i))
  {
    LatestComesFrom(rows, rows[i].invoiceId);
  }

  lemma {:induction false} LatestComesFrom(rows: seq<Row>, invoiceId: nat)
    ensures invoiceId in LatestIds(rows) <==> exists i :: 0 <= i < |rows| && rows[i].invoiceId == invoiceId
    ensures invoiceId in LatestIds(rows) ==>
      exists i :: 0 <= i < |rows| && rows[i].invoiceId == invoiceId && IsNewest(rows, i)
        && rows[i].id == LatestIds(rows)[invoiceId]
  {
    if rows != [] {
      var n := |rows| - 1;
      var rest := rows[..n];
      LatestComesFrom(rest, invoiceId);
      if invoiceId in LatestIds(rest) {
        var i :| 0 <= i < |rest| && rest[i].invoiceId == invoiceId && IsNewest(rest, i)
                 && rest[i].id == LatestIds(rest)[invoiceId];
        assert rows[i] == rest[i] && IsNewest(rows, i);
      } else if rows[n].invoiceId == invoiceId {
        assert forall j :: 0 <= j < n ==> rows[j] == rest[j];
        assert IsNewest(rows, n);
      }
    }
  }

  /** Which rows are kept: those at strictly rising places, one for each row of the result. */
  ghost predicate Picks(at: seq<nat>, rows: seq<Row>, kept: seq<Row>) {
    && |at| == |kept|
    && (forall a :: 0 <= a < |at| ==> at[a] < |rows| && kept[a] == rows[at[a]])
    && (forall a, b :: 0 <= a < b < |at| ==> at[a] < at[b])
  }

  /** The places of the rows that are kept. */
  function Places(rows: seq<Row>, latest: map<nat, nat>): seq<nat> {
    if rows == [] then []
    else
      var rest := Places(rows[..|rows| - 1], latest);
      if IsVisible(rows[|rows| - 1], latest) then rest + [|rows| - 1] else rest
  }

  lemma {:induction false} PlacesPick(rows: seq<Row>, latest: map<nat, nat>)
    ensures Picks(Places(rows, latest), rows, Filter(rows, latest))
  {
    if rows != [] {
      var rest := rows[..|rows| - 1];
      PlacesPick(rest, latest);
      var at := Places(rest, latest);
      assert forall a :: 0 <= a < |at| ==> rows[at[a]] == rest[at[a]];
    }
  }

  lemma {:induction false} PlaceIffVisible(rows: seq<Row>, latest: map<nat, nat>, i: nat)
    requires i < |rows|
    ensures i in Places(rows, latest) <==> IsVisible(rows[i], latest)
  {
    var rest := rows[..|rows| - 1];
    if i < |rest| {
      PlaceIffVisible(rest, latest, i);
    } else {
      PlacesPick(rest, latest);
    }
  }

  /** The list keeps its order, and hides exactly the rejected payments that are not the newest
      of their invoice; so at most one rejected payment of an invoice is shown. */
  lemma {:induction false} HidesExactlySuperseded(rows: seq<Row>) returns (at: seq<nat>)
    requires UniqueIds(rows)
    ensures Picks(at, rows, Visible(rows))
    ensures forall i :: 0 <= i < |rows| ==> (i in at <==> !rows[i].status.PaymentRejected? || IsNewest(rows, i))
    ensures var v := Visible(rows);
      forall a, b :: 0 <= a < b < |v| && v[a].invoiceId == v[b].invoiceId ==> !v[b].status.PaymentRejected?
  {
    at := Places(rows, LatestIds(rows));
    PlacesPick(rows, LatestIds(rows));
    forall i | 0 <= i < |rows|
      ensures i in at <==> !rows[i].status.PaymentRejected? || IsNewest(rows, i)
    {
      LatestIsFirst(rows, i);
      PlaceIffVisible(rows, LatestIds(rows), i);
    }
    var v := Visible(rows);
    forall a, b | 0 <= a < b < |v| && v[a].invoiceId == v[b].invoiceId
      ensures !v[b].status.PaymentRejected?
    {
      assert at[b] in at && at[a] < at[b];
      assert !IsNewest(rows, at[b]);
    }
  }

  lemma {:induction false} SameLatest(rows: seq<Row>, m: map<nat, nat>)
    requires forall k :: k in LatestIds(rows) ==> k in m && m[k] == LatestIds(rows)[k]
    ensures LatestIds(Filter(rows, m)) == LatestIds(rows)
  {
    if rows != [] {
      var rest, row := rows[..|rows| - 1], rows[|rows| - 1];
      SameLatest(rest, m);
      if IsVisible(row, m) {
        assert Filter(rows, m)[..|Filter(rest, m)|] == Filter(rest, m);
      }
    }
  }

  lemma {:induction false} FilterTwice(rows: seq<Row>, m: map<nat, nat>)
    ensures Filter(Filter(rows, m), m) == Filter(rows, m)
  {
    if rows != [] {
      var rest, row := rows[..|rows| - 1], rows[|rows| - 1];
      FilterTwice(rest, m);
      if IsVisible(row, m) {
        assert Filter(rows, m)[..|Filter(rest, m)|] == Filter(rest, m);
      }
    }
  }

  lemma {:induction false} HidingIsIdempotent(rows: seq<Row>)
    ensures Visible(Visible(rows)) == Visible(rows)
  {
    SameLatest(rows, LatestIds(rows));
    FilterTwice(rows, LatestIds(rows));
  }

  // ----- pages -----

  function Least(a: nat, b: nat): nat {
    if a < b then a else b
  }

  /** Array.prototype.slice for positions that are not negative. */
  function Slice(rows: seq<Row>, from: nat, to: nat): seq<Row>
    requires from <= to
  {
    rows[Least(from, |rows|)..Least(to, |rows|)]
  }

  function Page(rows: seq<Row>, page: nat, limit: nat): seq<Row>
    requires page >= 1
  {
    Slice(rows, (page - 1) * limit, (page - 1) * limit + limit)
  }

  /** Math.ceil(total / limit) || 1 */
  function TotalPages(total: nat, limit: nat): nat
    requires limit >= 1
  {
    var pages := (total + limit - 1) / limit;
    if pages == 0 then 1 else pages
  }

  predicate Matches(row: Row, ownerOf: nat -> nat, user: nat, status: Option<PaymentStatus>) {
    ownerOf(row.invoiceId) == user && (status.Some? ==> row.status == status.value)
  }

  /** The query of findMine: the user's payments, newest first, of one status if that is asked for.
      The owner of a payment is the owner of its invoice. */
  function Query(rows: seq<Row>, ownerOf: nat -> nat, user: nat, status: Option<PaymentStatus>): seq<Row> {
    if rows == [] then []
    else
      var rest, row := Query(rows[..|rows| - 1], ownerOf, user, status), rows[|rows| - 1];
      if Matches(row, ownerOf, user, status) then rest + [row] else rest
  }

  /** findMine, on the table of payments, newest first. */
  method FindMine(
    rows: seq<Row>, ownerOf: nat -> nat, user: nat, status: Option<PaymentStatus>, page: nat, limit: nat)
    returns (items: seq<Row>, total: nat, totalPages: nat)
    requires page >= 1 && limit >= 1
    ensures var visible := Visible(Query(rows, ownerOf, user, status));
      items == Page(visible, page, limit) && total == |visible| && totalPages == TotalPages(total, limit)
  {
    var visible := FilterSupersededRejectedPayments(Query(rows, ownerOf, user, status));
    var skip := (page - 1) * limit;
    total := |visible|;
    items := Slice(visible, skip, skip + limit);
    totalPages := TotalPages(total, limit);
  }

  // ----- the status filter -----

  /** Every payment of the user's invoices is in the user's rows, so the newest ones are the same. */
  lemma {:induction false} SameLatestOfOwner(rows: seq<Row>, ownerOf: nat -> nat, user: nat, id: nat)
    requires ownerOf(id) == user
    ensures var m, n := LatestIds(rows), LatestIds(Query(rows, ownerOf, user, None));
      (id in m <==> id in n) && (id in m ==> m[id] == n[id])
  {
    if rows != [] {
      var rest, row := rows[..|rows| - 1], rows[|rows| - 1];
      SameLatestOfOwner(rest, ownerOf, user, id);
      var before, after := Query(rest, ownerOf, user, None), Query(rows, ownerOf, user, None);
      assert after == before || (after == before + [row] && after[..|before|] == before);
    }
  }

  /** Filtering by owner and status commutes with hiding by one and the same map. */
  lemma {:induction false} QueryOfFilter(
    rows: seq<Row>, ownerOf: nat -> nat, user: nat, status: Option<PaymentStatus>, m: map<nat, nat>, n: map<nat, nat>)
    requires forall i :: 0 <= i < |rows| && Matches(rows[i], ownerOf, user, status) ==>
      (IsVisible(rows[i], m) <==> IsVisible(rows[i], n))
    ensures Query(Filter(rows, m), ownerOf, user, status) == Filter(Query(rows, ownerOf, user, status), n)
  {
    if rows != [] {
      var rest, row := rows[..|rows| - 1], rows[|rows| - 1];
      assert forall i :: 0 <= i < |rest| ==> rest[i] == rows[i];
      QueryOfFilter(rest, ownerOf, user, status, m, n);
      assert row == rows[|rest|];
      FilterOneMore(Query(rest, ownerOf, user, status), row, n);
      QueryOneMore(Filter(rest, m), row, ownerOf, user, status);
    }
  }

  lemma {:induction false} FilterOneMore(rows: seq<Row>, row: Row, m: map<nat, nat>)
    ensures Filter(rows + [row], m) == Filter(rows, m) + if IsVisible(row, m) then [row] else []
  {
    assert (rows + [row])[..|rows|] == rows;
  }

  lemma {:induction false} QueryOneMore(
    rows: seq<Row>, row: Row, ownerOf: nat -> nat, user: nat, status: Option<PaymentStatus>)
    ensures Query(rows + [row], ownerOf, user, status) == Query(rows, ownerOf, user, status)
      + if Matches(row, ownerOf, user, status) then [row] else []
  {
    assert (rows + [row])[..|rows|] == rows;
  }

  lemma {:induction false} FilterAgreesUnlessRejected(
    rows: seq<Row>, ownerOf: nat -> nat, user: nat, status: Option<PaymentStatus>)
    requires status != Some(PaymentRejected)
    ensures Visible(Query(rows, ownerOf, user, status)) == Query(Visible(rows), ownerOf, user, status)
  {
    var n := LatestIds(Query(rows, ownerOf, user, status));
    forall i | 0 <= i < |rows| && Matches(rows[i], ownerOf, user, status)
      ensures IsVisible(rows[i], LatestIds(rows)) <==> IsVisible(rows[i], n)
    {
      if status.None? {
        SameLatestOfOwner(rows, ownerOf, user, rows[i].invoiceId);
      }
    }
    QueryOfFilter(rows, ownerOf, user, status, LatestIds(rows), n);
  }

  lemma {:induction false} LatestOneMore(rows: seq<Row>, row: Row)
    ensures var m := LatestIds(rows);
      LatestIds(rows + [row]) == if row.invoiceId in m then m else m[row.invoiceId := row.id]
  {
    assert (rows + [row])[..|rows|] == rows;
  }

  function Newer(id: nat): Row {
    Row(1, id, UnderVerification)
  }

  function Older(id: nat): Row {
    Row(0, id, PaymentRejected)
  }

  /** A rejected payment and, before it, the newer one that replaced it. */
  function Replaced(id: nat): seq<Row> {
    [Newer(id)] + [Older(id)]
  }

  lemma {:induction false} OnlyNewerVisible(id: nat)
    ensures Visible(Replaced(id)) == [Newer(id)]
  {
    assert [] + [Newer(id)] == [Newer(id)];
    LatestOneMore([], Newer(id));
    LatestOneMore([Newer(id)], Older(id));
    FilterOneMore([], Newer(id), LatestIds(Replaced(id)));
    FilterOneMore([Newer(id)], Older(id), LatestIds(Replaced(id)));
  }

  lemma {:induction false} LoneVisible(id: nat)
    ensures Visible([Older(id)]) == [Older(id)]
  {
    assert [] + [Older(id)] == [Older(id)];
    LatestOneMore([], Older(id));
    FilterOneMore([], Older(id), LatestIds([Older(id)]));
  }

  lemma {:induction false} RejectedOnly(ownerOf: nat -> nat, user: nat, id: nat)
    requires ownerOf(id) == user
    ensures Query([Newer(id)], ownerOf, user, Some(PaymentRejected)) == []
    ensures Query(Replaced(id), ownerOf, user, Some(PaymentRejected)) == [Older(id)]
  {
    assert [] + [Newer(id)] == [Newer(id)];
    QueryOneMore([], Newer(id), ownerOf, user, Some(PaymentRejected));
    QueryOneMore([Newer(id)], Older(id), ownerOf, user, Some(PaymentRejected));
  }

  lemma {:induction false} RejectedComesBack(ownerOf: nat -> nat, user: nat, id: nat)
    requires ownerOf(id) == user
    ensures UniqueIds(Replaced(id))
    ensures Visible(Query(Replaced(id), ownerOf, user, Some(PaymentRejected))) == [Older(id)]
    ensures Query(Visible(Replaced(id)), ownerOf, user, Some(PaymentRejected)) == []
  {
    OnlyNewerVisible(id);
    LoneVisible(id);
    RejectedOnly(ownerOf, user, id);
  }

  /** Asking for one status shows the visible payments of that status, whatever the payments are,
      if and only if the status is not REJECTED: then a rejected attempt that a newer payment
      replaced is shown again. */
  lemma {:induction false} StatusFilterAgreesIff(
    ownerOf: nat -> nat, user: nat, id: nat, status: Option<PaymentStatus>)
    requires ownerOf(id) == user
    ensures (forall rows :: UniqueIds(rows) ==>
               Visible(Query(rows, ownerOf, user, status)) == Query(Visible(rows), ownerOf, user, status))
      <==> status != Some(PaymentRejected)
  {
    if status == Some(PaymentRejected) {
      RejectedComesBack(ownerOf, user, id);
    } else {
      forall rows | UniqueIds(rows)
        ensures Visible(Query(rows, ownerOf, user, status)) == Query(Visible(rows), ownerOf, user, status)
      {
        FilterAgreesUnlessRejected(rows, ownerOf, user, status);
      }
    }
  }

  // ----- going through the pages -----

  /** The pages 1 to n, one after the other. */
  function FirstPages(rows: seq<Row>, n: nat, limit: nat): seq<Row> {
    if n == 0 then [] else FirstPages(rows, n - 1, limit) + Page(rows, n, limit)
  }

  lemma {:induction false} FirstPagesArePrefix(rows: seq<Row>, n: nat, limit: nat)
    ensures n * limit >= 0 && FirstPages(rows, n, limit) == rows[..Least(n * limit, |rows|)]
  {
    if n > 0 {
      FirstPagesArePrefix(rows, n - 1, limit);
      assert n * limit == (n - 1) * limit + limit;
    }
  }

  lemma {:induction false} PagesReach(total: nat, limit: nat)
    requires limit >= 1
    ensures TotalPages(total, limit) * limit >= total
    ensures total > 0 ==> (TotalPages(total, limit) - 1) * limit < total
  {
    var q := (total + limit - 1) / limit;
    assert q * limit + (total + limit - 1) % limit == total + limit - 1;
    assert (q - 1) * limit == q * limit - limit;
    if q == 0 {
      assert q * limit == 0;
    }
  }

  lemma {:induction false} PageIsShown(rows: seq<Row>, page: nat, limit: nat)
    requires limit >= 1 && 1 <= page
    ensures |Page(rows, page, limit)| <= limit
    ensures Page(rows, page, limit) != [] <==> (page - 1) * limit < |rows|
  {
  }

  /** Going through all the pages shows every row once, in order, on pages of which none is empty
      unless the list is. */
  lemma {:induction false} PagesShowAll(rows: seq<Row>, page: nat, limit: nat)
    requires limit >= 1 && 1 <= page
    ensures FirstPages(rows, TotalPages(|rows|, limit), limit) == rows
    ensures |Page(rows, page, limit)| <= limit
    ensures rows != [] ==> (Page(rows, page, limit) != [] <==> page <= TotalPages(|rows|, limit))
  {
    var n := TotalPages(|rows|, limit);
    PagesReach(|rows|, limit);
    FirstPagesArePrefix(rows, n, limit);
    PageIsShown(rows, page, limit);
    if page <= n {
      Multiples(page - 1, n - 1, limit);
    } else {
      Multiples(n, page - 1, limit);
    }
  }

  lemma {:induction false} Multiples(a: int, b: int, limit: nat)
    requires a <= b
    ensures a * limit <= b * limit
  {
  }

  // ----- whose payments are shown -----

  lemma {:induction false} QueryMembers(
    rows: seq<Row>, ownerOf: nat -> nat, user: nat, status: Option<PaymentStatus>, row: Row)
    ensures row in Query(rows, ownerOf, user, status)
      <==> row in rows && ownerOf(row.invoiceId) == user && (status.Some? ==> row.status == status.value)
  {
    if rows != [] {
      QueryMembers(rows[..|rows| - 1], ownerOf, user, status, row);
      assert rows == rows[..|rows| - 1] + [rows[|rows| - 1]];
    }
  }

  lemma {:induction false} FilterMembers(rows: seq<Row>, latest: map<nat, nat>, row: Row)
    ensures row in Filter(rows, latest) <==> row in rows && IsVisible(row, latest)
  {
    if rows != [] {
      FilterMembers(rows[..|rows| - 1], latest, row);
      assert rows == rows[..|rows| - 1] + [rows[|rows| - 1]];
    }
  }

  /** Every row on a page is a payment of the user, of the status asked for. */
  lemma {:induction false} PagesAreOwn(
    rows: seq<Row>, ownerOf: nat -> nat, user: nat, status: Option<PaymentStatus>, page: nat, limit: nat, row: Row)
    requires page >= 1 && row in Page(Visible(Query(rows, ownerOf, user, status)), page, limit)
    ensures row in rows && ownerOf(row.invoiceId) == user && (status.Some? ==> row.status == status.value)
  {
    var fetched := Query(rows, ownerOf, user, status);
    assert row in Visible(fetched);
    FilterMembers(fetched, LatestIds(fetched), row);
    QueryMembers(rows, ownerOf, user, status, row);
  }

  lemma {:induction false} OnSomePage(rows: seq<Row>, n: nat, limit: nat, row: Row) returns (page: nat)
    requires row in FirstPages(rows, n, limit)
    ensures 1 <= page <= n && row in Page(rows, page, limit)
  {
    if row in Page(rows, n, limit) {
      page := n;
    } else {
      page := OnSomePage(rows, n - 1, limit, row);
    }
  }

  /** Every payment of the user that was not rejected is on one of his pages. */
  lemma {:induction false} UnrejectedOnSomePage(
    rows: seq<Row>, ownerOf: nat -> nat, user: nat, limit: nat, row: Row) returns (page: nat)
    requires limit >= 1 && row in rows && ownerOf(row.invoiceId) == user && !row.status.PaymentRejected?
    ensures var visible := Visible(Query(rows, ownerOf, user, None));
      1 <= page <= TotalPages(|visible|, limit) && row in Page(visible, page, limit)
  {
    var fetched := Query(rows, ownerOf, user, None);
    QueryMembers(rows, ownerOf, user, None, row);
    FilterMembers(fetched, LatestIds(fetched), row);
    PagesShowAll(Visible(fetched), 1, limit);
    page := OnSomePage(Visible(fetched), TotalPages(|Visible(fetched)|, limit), limit, row);
  }
}
