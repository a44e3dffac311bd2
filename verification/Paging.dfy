/** The paged list of users: newest first, the id breaking ties. */
module Paging {
  import opened Wrappers
  import opened Tokens

  /** The columns of a user that the order reads. */
  datatype UserRow = UserRow(id: Uuid, createdAt: Millis)

  datatype PageRequest = PageRequest(page: nat, limit: nat) {
    /** The query's validation lets no page or limit below one through. */
    ghost predicate Valid() {
      page >= 1 && limit >= 1
    }
  }

  datatype PaginatedResult = PaginatedResult(items: seq<UserRow>, page: nat, limit: nat, total: nat) {
    predicate HasMore() {
      page * limit < total
    }
  }

  function SkipFor(page: PageRequest): (skip: int)
    ensures page.Valid() ==> 0 <= skip == page.page * page.limit - page.limit
  {
    (page.page - 1) * page.limit
  }

  /** orderBy createdAt desc, id desc. */
  predicate Before(a: UserRow, b: UserRow) {
    a.createdAt > b.createdAt || (a.createdAt == b.createdAt && a.id > b.id)
  }

  ghost predicate DistinctIds(rows: seq<UserRow>) {
    forall i, j :: 0 <= i < j < |rows| ==> rows[i].id != rows[j].id
  }

  ghost predicate Sorted(rows: seq<UserRow>) {
    forall i, j :: 0 <= i < j < |rows| ==> Before(rows[i], rows[j])
  }

  function Insert(row: UserRow, sorted: seq<UserRow>): (out: seq<UserRow>)
    ensures multiset(out) == multiset{row} + multiset(sorted) && |out| == |sorted| + 1
  {
    if sorted == [] || Before(row, sorted[0]) then
      [row] + sorted
    else
      assert sorted == [sorted[0]] + sorted[1..];
      [sorted[0]] + Insert(row, sorted[1..])
  }

  function OrderBy(rows: seq<UserRow>): (out: seq<UserRow>)
    ensures multiset(out) == multiset(rows) && |out| == |rows|
  {
    if rows == [] then [] else
      assert rows == [rows[0]] + rows[1..];
      Insert(rows[0], OrderBy(rows[1..]))
  }

  /** LIMIT take OFFSET skip. */
  function Slice(rows: seq<UserRow>, skip: nat, take: nat): seq<UserRow> {
    if skip >= |rows| then []
    else if skip + take >= |rows| then rows[skip..]
    else rows[skip..skip + take]
  }

  function FindPage(rows: seq<UserRow>, page: PageRequest): PaginatedResult
    requires page.Valid()
  {
    PaginatedResult(Slice(OrderBy(rows), SkipFor(page), page.limit), page.page, page.limit, |rows|)
  }

  lemma SliceMeans(rows: seq<UserRow>, skip: nat, take: nat)
    ensures
      var items := Slice(rows, skip, take);
      && |items| == (if skip >= |rows| then 0 else if skip + take >= |rows| then |rows| - skip else take)
      && (forall i | 0 <= i < |items| :: items[i] == rows[skip + i])
  {
  }

  /**
   * A page repeats the request and counts all users. It is the stretch of the order after the pages
   * before it, as long as the limit, or as far as the order goes.
   */
  lemma PageMeans(rows: seq<UserRow>, page: PageRequest, before: nat)
    requires page.Valid() && before == (page.page - 1) * page.limit
    ensures
      var result, ordered := FindPage(rows, page), OrderBy(rows);
      && result.page == page.page && result.limit == page.limit && result.total == |rows| == |ordered|
      && |result.items| ==
           (if before >= |rows| then 0 else if before + page.limit >= |rows| then |rows| - before else page.limit)
      && (forall i | 0 <= i < |result.items| :: result.items[i] == ordered[before + i])
  {
    SliceMeans(OrderBy(rows), before, page.limit);
  }

  /** There is more exactly when the next page has somebody on it. */
  lemma HasMoreIff(rows: seq<UserRow>, page: PageRequest)
    requires page.Valid()
    ensures FindPage(rows, page).HasMore() <==> FindPage(rows, PageRequest(page.page + 1, page.limit)).items != []
  {
    PageMeans(rows, PageRequest(page.page + 1, page.limit), page.page * page.limit);
  }

  // ----- the order is total, so it decides every page -----

  lemma SameElements(a: seq<UserRow>, b: seq<UserRow>)
    requires multiset(a) == multiset(b)
    ensures |a| == |b|
    ensures forall row :: row in a <==> row in b
  {
    assert |multiset(a)| == |multiset(b)|;
    forall row ensures row in a <==> row in b {
      assert row in multiset(a) <==> row in multiset(b);
    }
  }

  lemma {:induction false} InsertSorts(row: UserRow, sorted: seq<UserRow>)
    requires Sorted(sorted) && forall other :: other in sorted ==> other.id != row.id
    ensures Sorted(Insert(row, sorted))
  {
    if sorted != [] && !Before(row, sorted[0]) {
      InsertSorts(row, sorted[1..]);
      var rest := Insert(row, sorted[1..]);
      SameElements(rest, [row] + sorted[1..]);
      forall other | other in rest ensures Before(sorted[0], other) {
        assert other == row || other in sorted[1..];
      }
    }
  }

  lemma {:induction false} OrderBySorts(rows: seq<UserRow>)
    requires DistinctIds(rows)
    ensures Sorted(OrderBy(rows))
  {
    if rows == [] {
    } else {
      OrderBySorts(rows[1..]);
      SameElements(OrderBy(rows[1..]), rows[1..]);
      InsertSorts(rows[0], OrderBy(rows[1..]));
    }
  }

  lemma TailHolds(a: seq<UserRow>, row: UserRow)
    requires Sorted(a) && a != []
    ensures row in a[1..] <==> row in a && row != a[0]
  {
    assert a == [a[0]] + a[1..];
  }

  lemma {:induction false} SortedIsUnique(a: seq<UserRow>, b: seq<UserRow>)
    requires Sorted(a) && Sorted(b) && |a| == |b| && forall row :: row in a <==> row in b
    ensures a == b
  {
    if a == [] {
    } else {
      assert a[0] in b && b[0] in a;
      forall row ensures row in a[1..] <==> row in b[1..] {
        TailHolds(a, row);
        TailHolds(b, row);
      }
      SortedIsUnique(a[1..], b[1..]);
      assert a == [a[0]] + a[1..] && b == [b[0]] + b[1..];
    }
  }

  /** Every page is the same however the database stores the rows. */
  lemma PageIgnoresStorageOrder(rows: seq<UserRow>, stored: seq<UserRow>, page: PageRequest)
    requires DistinctIds(rows) && DistinctIds(stored) && multiset(rows) == multiset(stored) && page.Valid()
    ensures FindPage(rows, page) == FindPage(stored, page)
  {
    OrderBySorts(rows);
    OrderBySorts(stored);
    SameElements(OrderBy(rows), OrderBy(stored));
    SortedIsUnique(OrderBy(rows), OrderBy(stored));
    SameElements(rows, stored);
  }

  // ----- walking the pages -----

  /** The items met by following the pages from this one while there are more. */
  function Walk(rows: seq<UserRow>, page: PageRequest): seq<UserRow>
    requires page.Valid()
    decreases |rows| - page.page * page.limit
  {
    var result := FindPage(rows, page);
    if result.HasMore() then
      NextIsFurther(page);
      result.items + Walk(rows, PageRequest(page.page + 1, page.limit))
    else
      result.items
  }

  lemma NextIsFurther(page: PageRequest)
    requires page.Valid()
    ensures (page.page + 1) * page.limit == page.page * page.limit + page.limit
    ensures page.page * page.limit == SkipFor(page) + page.limit && SkipFor(page) >= 0
  {
  }

  /** A page's slice and what comes after it. */
  lemma SliceThenRest(rows: seq<UserRow>, skip: nat, take: nat)
    requires skip <= |rows|
    ensures skip + take < |rows| ==> Slice(rows, skip, take) + rows[skip + take..] == rows[skip..]
    ensures skip + take >= |rows| ==> Slice(rows, skip, take) == rows[skip..]
  {
  }

  lemma WalkUnfolds(rows: seq<UserRow>, page: PageRequest, skip: nat)
    requires page.Valid() && skip == SkipFor(page)
    ensures
      var next, items := PageRequest(page.page + 1, page.limit), Slice(OrderBy(rows), skip, page.limit);
      && SkipFor(next) == skip + page.limit
      && Walk(rows, page) == if skip + page.limit < |rows| then items + Walk(rows, next) else items
  {
    NextIsFurther(page);
  }

  lemma {:induction false} WalkFrom(rows: seq<UserRow>, page: PageRequest, skip: nat)
    requires page.Valid() && skip == SkipFor(page) <= |rows|
    ensures Walk(rows, page) == OrderBy(rows)[skip..]
    decreases |rows| - skip
  {
    WalkUnfolds(rows, page, skip);
    SliceThenRest(OrderBy(rows), skip, page.limit);
    if skip + page.limit < |rows| {
      WalkFrom(rows, PageRequest(page.page + 1, page.limit), skip + page.limit);
    }
  }

  /** The walk from page one lists every user once, newest first. */
  lemma WalkListsEveryone(rows: seq<UserRow>, limit: nat)
    requires DistinctIds(rows) && limit >= 1
    ensures
      var walked := Walk(rows, PageRequest(1, limit));
      && multiset(walked) == multiset(rows)
      && forall i, j | 0 <= i < j < |walked| ::
           || walked[i].createdAt > walked[j].createdAt
           || (walked[i].createdAt == walked[j].createdAt && walked[i].id > walked[j].id)
  {
    OrderBySorts(rows);
    WalkFrom(rows, PageRequest(1, limit), 0);
    assert OrderBy(rows)[0..] == OrderBy(rows);
  }

  // ----- while users are being created -----

  ghost function Ahead(rows: seq<UserRow>, user: UserRow): set<UserRow> {
    set other | other in rows && Before(other, user)
  }

  lemma {:induction false} CountOfSorted(rows: seq<UserRow>)
    requires Sorted(rows)
    ensures |set row | row in rows| == |rows|
  {
    if rows == [] {
    } else {
      CountOfSorted(rows[1..]);
      assert (set row | row in rows) == {rows[0]} + (set row | row in rows[1..]);
    }
  }

  /** A user's place in the order is the number of users ahead. */
  lemma PlaceOf(rows: seq<UserRow>, user: UserRow) returns (k: nat)
    requires DistinctIds(rows) && user in rows
    ensures k < |rows| == |OrderBy(rows)| && OrderBy(rows)[k] == user && k == |Ahead(rows, user)|
  {
    var ordered := OrderBy(rows);
    OrderBySorts(rows);
    SameElements(ordered, rows);
    k :| 0 <= k < |ordered| && ordered[k] == user;
    CountOfSorted(ordered[..k]);
    assert Ahead(rows, user) == set row | row in ordered[..k];
  }

  lemma OnPage(rows: seq<UserRow>, page: PageRequest, user: UserRow)
    requires DistinctIds(rows) && user in rows && page.Valid()
    requires SkipFor(page) <= |Ahead(rows, user)| < page.page * page.limit
    ensures user in FindPage(rows, page).items
  {
    var k := PlaceOf(rows, user);
    NextIsFurther(page);
    assert FindPage(rows, page).items[k - SkipFor(page)] == user;
  }

  /** Each page of the walk reads the users there are at that moment; none is ever deleted. */
  ghost predicate Growing(snapshots: seq<seq<UserRow>>) {
    && (forall i | 0 <= i < |snapshots| :: DistinctIds(snapshots[i]))
    && (forall i, j | 0 <= i < j < |snapshots| :: forall row :: row in snapshots[i] ==> row in snapshots[j])
  }

  lemma {:induction false} NotYetMet(snapshots: seq<seq<UserRow>>, limit: nat, user: UserRow, n: nat)
    requires limit >= 1 && Growing(snapshots) && n <= |snapshots|
    requires snapshots != [] && user in snapshots[0]
    ensures (exists i | 0 <= i < n :: user in FindPage(snapshots[i], PageRequest(i + 1, limit)).items) ||
        (n > 0 ==> n * limit <= |Ahead(snapshots[n - 1], user)|)
  {
    if n == 0 {
    } else {
      NotYetMet(snapshots, limit, user, n - 1);
      var rows, page := snapshots[n - 1], PageRequest(n, limit);
      NextIsFurther(page);
      if n > 1 {
        SubsetIsSmaller(Ahead(snapshots[n - 2], user), Ahead(rows, user));
      }
      if SkipFor(page) <= |Ahead(rows, user)| < n * limit {
        OnPage(rows, page, user);
      }
    }
  }

  /**
   * Whatever users are created during the walk, and wherever the order puts them, a user who was
   * there when it began is met before a page says there are no more.
   */
  lemma NobodyIsSkipped(snapshots: seq<seq<UserRow>>, limit: nat, user: UserRow)
    requires limit >= 1 && Growing(snapshots) && snapshots != [] && user in snapshots[0]
    requires !FindPage(snapshots[|snapshots| - 1], PageRequest(|snapshots|, limit)).HasMore()
    ensures exists i | 0 <= i < |snapshots| :: user in FindPage(snapshots[i], PageRequest(i + 1, limit)).items
  {
    var last := snapshots[|snapshots| - 1];
    NotYetMet(snapshots, limit, user, |snapshots|);
    var k := PlaceOf(last, user);
  }
}
