/**
 * The list of requests, page by page (list_visible in backend/src/api/requests/repository.py,
 * list_requests in backend/src/api/requests/service.py).  A cursor is the key it encodes.
 */
module Paging {
  import opened Ordering
  import opened Results

  datatype Row = Row(createdAt: int, id: nat, status: string, category: Option<string>, partner: Option<string>)

  type Cursor = (int, nat)

  datatype Filters = Filters(
    status: Option<string>,
    category: Option<string>,
    partner: Option<string>,
    createdFrom: Option<int>,
    createdTo: Option<int>)

  predicate Matches(f: Filters, r: Row) {
    && (f.status.Some? ==> r.status == f.status.value)
    && (f.category.Some? ==> r.category == f.category)
    && (f.partner.Some? ==> r.partner == f.partner)
    && (f.createdFrom.Some? ==> r.createdAt >= f.createdFrom.value)
    && (f.createdTo.Some? ==> r.createdAt <= f.createdTo.value)
  }

  predicate IsAfter(r: Row, cursor: Option<Cursor>) {
    cursor.Some? ==>
      r.createdAt < cursor.value.0 || (r.createdAt == cursor.value.0 && r.id < cursor.value.1)
  }

  predicate NewestFirst(r: Row, s: Row) {
    r.createdAt > s.createdAt || (r.createdAt == s.createdAt && r.id >= s.id)
  }

  function KeyOf(r: Row): Cursor {
    (r.createdAt, r.id)
  }

  /** What a subject asks for: its visibility, which access rules decide, and its filters. */
  datatype Query = Query(visible: Row -> bool, filters: Filters) {
    predicate Selects(r: Row) {
      visible(r) && Matches(filters, r)
    }
  }

  function Where(q: Query, cursor: Option<Cursor>, table: seq<Row>): seq<Row> {
    if table == [] then []
    else (if q.Selects(table[0]) && IsAfter(table[0], cursor) then [table[0]] else []) + Where(q, cursor, table[1..])
  }

  /** The selected rows after the cursor, the newest first. */
  function Listing(q: Query, cursor: Option<Cursor>, table: seq<Row>): seq<Row> {
    Sort(Where(q, cursor, table), NewestFirst)
  }

  /** Up to one row more than a page holds. */
  function ListVisible(q: Query, cursor: Option<Cursor>, limit: nat, table: seq<Row>): seq<Row> {
    var rows := Listing(q, cursor, table);
    rows[..Min(limit + 1, |rows|)]
  }

  datatype Page = Page(items: seq<Row>, next: Option<Cursor>)

  /** A missing limit, and zero, mean 50; no page holds more than 100. */
  function PageLimit(limit: Option<nat>): (r: nat)
    ensures 1 <= r <= 100
    ensures limit.Some? && 1 <= limit.value <= 100 ==> r == limit.value
    ensures limit == None || limit == Some(0) ==> r == 50
    ensures limit.Some? && limit.value > 100 ==> r == 100
  {
    Min(if limit.None? || limit.value == 0 then 50 else limit.value, 100)
  }

  function ListRequests(q: Query, cursor: Option<Cursor>, limit: Option<nat>, table: seq<Row>): Page {
    var pageLimit := PageLimit(limit);
    var rows := ListVisible(q, cursor, pageLimit, table);
    var hasMore := |rows| > pageLimit;
    var items := rows[..Min(pageLimit, |rows|)];
    Page(items, if hasMore && items != [] then Some(KeyOf(items[|items| - 1])) else None)
  }

  ghost predicate DistinctIds(table: seq<Row>) {
    forall i, j :: 0 <= i < j < |table| ==> table[i].id != table[j].id
  }

  // ---- One listing ----

  lemma NewestFirstTotal()
    ensures Total(NewestFirst)
  {
  }

  lemma {:induction false} WhereMembers(q: Query, cursor: Option<Cursor>, table: seq<Row>)
    ensures forall r :: multiset(Where(q, cursor, table))[r]
                        == if q.Selects(r) && IsAfter(r, cursor) then multiset(table)[r] else 0
  {
    if table != [] {
      WhereMembers(q, cursor, table[1..]);
      assert table == [table[0]] + table[1..];
    }
  }

  lemma {:induction false} DistinctMultiset(table: seq<Row>)
    requires DistinctIds(table)
    ensures forall r :: multiset(table)[r] <= 1
    ensures forall r, s :: r in table && s in table && r.id == s.id ==> r == s
  {
    if table != [] {
      DistinctMultiset(table[1..]);
      assert table == [table[0]] + table[1..];
      assert table[0] !in table[1..];
      assert table[0] !in multiset(table[1..]);
    }
  }

  /** The listing holds exactly the selected rows after the cursor, each once, strictly descending. */
  ghost predicate IsListing(q: Query, cursor: Option<Cursor>, table: seq<Row>, rows: seq<Row>) {
    && (forall r :: r in rows <==> r in table && q.Selects(r) && IsAfter(r, cursor))
    && (forall i, j :: 0 <= i < j < |rows| ==> IsAfter(rows[j], Some(KeyOf(rows[i]))))
  }

  lemma CountedTwice(rows: seq<Row>, i: nat, j: nat)
    requires i < j < |rows| && rows[i] == rows[j]
    ensures multiset(rows)[rows[i]] >= 2
  {
    assert rows == rows[..j] + [rows[j]] + rows[j + 1..];
    assert rows[..j][i] == rows[j];
    assert rows[j] in multiset(rows[..j]);
  }

  lemma ListingOnce(q: Query, cursor: Option<Cursor>, table: seq<Row>, i: nat, j: nat)
    requires DistinctIds(table) && i < j < |Listing(q, cursor, table)|
    ensures Listing(q, cursor, table)[i] != Listing(q, cursor, table)[j]
  {
    var rows := Listing(q, cursor, table);
    NewestFirstTotal();
    SortSorted(Where(q, cursor, table), NewestFirst);
    WhereMembers(q, cursor, table);
    DistinctMultiset(table);
    if rows[i] == rows[j] {
      CountedTwice(rows, i, j);
    }
  }

  lemma ListingMembers(q: Query, cursor: Option<Cursor>, table: seq<Row>)
    ensures forall r :: r in Listing(q, cursor, table) <==> r in table && q.Selects(r) && IsAfter(r, cursor)
  {
    var rows := Listing(q, cursor, table);
    NewestFirstTotal();
    SortSorted(Where(q, cursor, table), NewestFirst);
    WhereMembers(q, cursor, table);
    forall r ensures r in rows <==> r in table && q.Selects(r) && IsAfter(r, cursor) {
      assert r in rows <==> r in multiset(rows);
      assert r in table <==> r in multiset(table);
    }
  }

  lemma ListingExact(q: Query, cursor: Option<Cursor>, table: seq<Row>)
    requires DistinctIds(table)
    ensures IsListing(q, cursor, table, Listing(q, cursor, table))
  {
    var rows := Listing(q, cursor, table);
    NewestFirstTotal();
    SortSorted(Where(q, cursor, table), NewestFirst);
    ListingMembers(q, cursor, table);
    DistinctMultiset(table);
    forall i, j | 0 <= i < j < |rows| ensures IsAfter(rows[j], Some(KeyOf(rows[i]))) {
      ListingOnce(q, cursor, table, i, j);
      assert NewestFirst(rows[i], rows[j]);
    }
  }

  /** A row is listed exactly if it is in the table, visible, of the status, category and partner asked
      for, created in the time asked for, and older than the cursor, or as old with a smaller id. */
  lemma ListedExactly(q: Query, cursor: Option<Cursor>, table: seq<Row>, r: Row)
    ensures var f := q.filters;
            r in Listing(q, cursor, table)
            <==> && r in table && q.visible(r)
                 && f.status in {None, Some(r.status)}
                 && (f.category == None || f.category == r.category)
                 && (f.partner == None || f.partner == r.partner)
                 && !(f.createdFrom.Some? && r.createdAt < f.createdFrom.value)
                 && !(f.createdTo.Some? && f.createdTo.value < r.createdAt)
                 && (cursor.Some? ==>
                       var (at, id) := cursor.value;
                       r.createdAt < at || (r.createdAt == at && r.id < id))
  {
    ListingMembers(q, cursor, table);
  }

  /** The newest come first, of equally new ones the one with the larger id. */
  lemma ListedInOrder(q: Query, cursor: Option<Cursor>, table: seq<Row>, i: nat, j: nat)
    requires DistinctIds(table) && i < j < |Listing(q, cursor, table)|
    ensures var rows := Listing(q, cursor, table);
            rows[i].createdAt > rows[j].createdAt
            || (rows[i].createdAt == rows[j].createdAt && rows[i].id > rows[j].id)
  {
    ListingExact(q, cursor, table);
    assert IsAfter(Listing(q, cursor, table)[j], Some(KeyOf(Listing(q, cursor, table)[i])));
  }

  lemma Headless(rows: seq<Row>)
    requires rows != []
    requires forall i, j :: 0 <= i < j < |rows| ==> IsAfter(rows[j], Some(KeyOf(rows[i])))
    ensures forall r :: r in rows[1..] <==> r in rows && r != rows[0]
  {
    forall r | r in rows[1..] ensures r != rows[0] {
      var j :| 0 < j < |rows| && rows[j] == r;
    }
    assert rows == [rows[0]] + rows[1..];
  }

  /** Two listings of the same rows are the same. */
  lemma {:induction false} ListingUnique(rows: seq<Row>, rows': seq<Row>)
    requires forall r :: r in rows <==> r in rows'
    requires forall i, j :: 0 <= i < j < |rows| ==> IsAfter(rows[j], Some(KeyOf(rows[i])))
    requires forall i, j :: 0 <= i < j < |rows'| ==> IsAfter(rows'[j], Some(KeyOf(rows'[i])))
    ensures rows == rows'
  {
    assert rows != [] ==> rows[0] in rows';
    assert rows' != [] ==> rows'[0] in rows;
    if rows != [] && rows' != [] {
      assert rows[0] == rows'[0];
      Headless(rows);
      Headless(rows');
      ListingUnique(rows[1..], rows'[1..]);
    }
  }

  /** The listing after one of its rows is the rest of the listing. */
  lemma ListingAfter(q: Query, table: seq<Row>, k: nat)
    requires DistinctIds(table) && 0 < k <= |Listing(q, None, table)|
    ensures Listing(q, Some(KeyOf(Listing(q, None, table)[k - 1])), table) == Listing(q, None, table)[k..]
  {
    var full := Listing(q, None, table);
    var cursor := Some(KeyOf(full[k - 1]));
    ListingExact(q, None, table);
    ListingExact(q, cursor, table);
    forall j | 0 <= j < |full| ensures IsAfter(full[j], cursor) <==> k <= j {
    }
    forall r | r in Listing(q, cursor, table) ensures r in full[k..] {
      var j :| 0 <= j < |full| && full[j] == r;
      assert full[k..][j - k] == r;
    }
    ListingUnique(full[k..], Listing(q, cursor, table));
  }

  /** `page` is the beginning of `rows`, with the key of its last row if there are more. */
  ghost predicate IsFront(page: Page, rows: seq<Row>, size: nat)
    requires size > 0
  {
    && page.items == rows[..Min(size, |rows|)]
    && page.next == if |rows| > size then Some(KeyOf(rows[size - 1])) else None
  }

  lemma PageIsFront(q: Query, limit: Option<nat>, table: seq<Row>, start: Option<Cursor>)
    ensures IsFront(ListRequests(q, start, limit, table), Listing(q, start, table), PageLimit(limit))
  {
    var rows, size := Listing(q, start, table), PageLimit(limit);
    assert rows[..Min(size + 1, |rows|)][..Min(size, |rows|)] == rows[..Min(size, |rows|)];
  }

  // ---- Walking the pages ----

  /** Pages read one after the other, the `i`-th from the table as it is then, each from the cursor of
      the page before. */
  ghost predicate IsWalk(q: Query, limit: Option<nat>, tables: seq<seq<Row>>, start: Option<Cursor>, pages: seq<Page>) {
    && |tables| == |pages| > 0
    && pages[0] == ListRequests(q, start, limit, tables[0])
    && (|pages| > 1 ==> pages[0].next.Some? && IsWalk(q, limit, tables[1..], pages[0].next, pages[1..]))
  }

  ghost predicate IsComplete(pages: seq<Page>) {
    pages != [] && pages[|pages| - 1].next.None?
  }

  ghost function ItemsOf(pages: seq<Page>): seq<Row> {
    if pages == [] then [] else pages[0].items + ItemsOf(pages[1..])
  }

  /** The page holds the `size` rows of `full` from `k` on, and the key of the last of them unless
      nothing follows it. */
  ghost predicate CutAt(page: Page, full: seq<Row>, k: nat, size: nat)
    requires k <= |full| && size > 0
  {
    && page.items == full[k..Min(k + size, |full|)]
    && page.next == if k + size < |full| then StartAt(full, k + size) else None
  }

  /** The key after which the rows from `k` on begin. */
  ghost function StartAt(full: seq<Row>, k: nat): Option<Cursor>
    requires k <= |full|
  {
    if k == 0 then None else Some(KeyOf(full[k - 1]))
  }

  lemma FrontIsCut(page: Page, full: seq<Row>, k: nat, size: nat)
    requires k <= |full| && size > 0 && IsFront(page, full[k..], size)
    ensures CutAt(page, full, k, size)
  {
  }

  /** One page over the listing of a table. */
  lemma FirstPage(q: Query, limit: Option<nat>, table: seq<Row>, k: nat)
    requires DistinctIds(table) && k <= |Listing(q, None, table)|
    ensures CutAt(ListRequests(q, StartAt(Listing(q, None, table), k), limit, table),
                  Listing(q, None, table), k, PageLimit(limit))
  {
    var full := Listing(q, None, table);
    var start := StartAt(full, k);
    if k > 0 {
      ListingAfter(q, table, k);
    }
    assert Listing(q, start, table) == full[k..];
    PageIsFront(q, limit, table, start);
    FrontIsCut(ListRequests(q, start, limit, table), full, k, PageLimit(limit));
  }

  /** `pages` pages of `size` rows: the last one ends the walk exactly if they reach `n` rows, and the
      ones before it do not reach them. */
  ghost predicate Fits(n: int, pages: int, size: nat, complete: bool) {
    && (complete <==> n <= pages * size)
    && (pages > 1 ==> (pages - 1) * size < n)
  }

  lemma FitsMore(n: int, pages: int, size: nat, complete: bool)
    requires pages > 1 && n > size && Fits(n - size, pages - 1, size, complete)
    ensures Fits(n, pages, size, complete)
  {
    assert (pages - 1) * size + size == pages * size;
    assert (pages - 2) * size + size == (pages - 1) * size;
  }

  lemma LastPage(pages: seq<Page>)
    requires |pages| > 1
    ensures IsComplete(pages) <==> IsComplete(pages[1..])
  {
    assert pages[1..][|pages| - 2] == pages[|pages| - 1];
  }

  lemma SinglePage(pages: seq<Page>)
    requires |pages| == 1
    ensures ItemsOf(pages) == pages[0].items
  {
    assert ItemsOf(pages) == pages[0].items + ItemsOf(pages[1..]);
  }

  /** The pages cut `full` from `k` on into pieces of `size` rows. */
  ghost predicate Cuts(pages: seq<Page>, full: seq<Row>, k: nat, size: nat)
    requires k <= |full| && size > 0
    decreases |pages|
  {
    && pages != []
    && CutAt(pages[0], full, k, size)
    && (|pages| > 1 ==> k + size < |full| && Cuts(pages[1..], full, k + size, size))
  }

  lemma {:induction false} WalkCuts(q: Query, limit: Option<nat>, table: seq<Row>, k: nat, tables: seq<seq<Row>>,
                                    pages: seq<Page>)
    requires DistinctIds(table) && k <= |Listing(q, None, table)|
    requires forall i :: 0 <= i < |tables| ==> tables[i] == table
    requires IsWalk(q, limit, tables, StartAt(Listing(q, None, table), k), pages)
    ensures Cuts(pages, Listing(q, None, table), k, PageLimit(limit))
    decreases |pages|
  {
    FirstPage(q, limit, table, k);
    assert CutAt(pages[0], Listing(q, None, table), k, PageLimit(limit));
    if |pages| > 1 {
      assert IsWalk(q, limit, tables[1..], pages[0].next, pages[1..]);
      WalkCuts(q, limit, table, k + PageLimit(limit), tables[1..], pages[1..]);
    }
  }

  lemma {:induction false} CutItems(pages: seq<Page>, full: seq<Row>, k: nat, size: nat)
    requires k <= |full| && size > 0 && Cuts(pages, full, k, size)
    ensures IsComplete(pages) ==> ItemsOf(pages) == full[k..]
    ensures Fits(|full| - k, |pages|, size, IsComplete(pages))
    decreases |pages|
  {
    if |pages| > 1 {
      CutItems(pages[1..], full, k + size, size);
      assert full[k..] == full[k..k + size] + full[k + size..];
      LastPage(pages);
      FitsMore(|full| - k, |pages|, size, IsComplete(pages));
    } else {
      SinglePage(pages);
      assert full[k..|full|] == full[k..];
    }
  }

  /**
   * Paging refines the full list.  On a table that does not change, a walk is over exactly when its
   * pages have room for all selected rows, which is after the least number of pages, one at least;
   * and then the pages one after the other are the sorted list of those rows.
   */
  lemma PagesAreTheList(q: Query, limit: Option<nat>, table: seq<Row>, tables: seq<seq<Row>>, pages: seq<Page>)
    requires DistinctIds(table) && forall i :: 0 <= i < |tables| ==> tables[i] == table
    requires IsWalk(q, limit, tables, None, pages)
    ensures IsListing(q, None, table, Listing(q, None, table))
    ensures IsComplete(pages) ==> ItemsOf(pages) == Listing(q, None, table)
    ensures IsComplete(pages) <==> |Listing(q, None, table)| <= |pages| * PageLimit(limit)
    ensures |pages| > 1 ==> (|pages| - 1) * PageLimit(limit) < |Listing(q, None, table)|
  {
    WalkCuts(q, limit, table, 0, tables, pages);
    CutItems(pages, Listing(q, None, table), 0, PageLimit(limit));
    assert Listing(q, None, table)[0..] == Listing(q, None, table);
    ListingExact(q, None, table);
  }

  // ---- Walking a table that changes ----

  ghost predicate Descends(rows: seq<Row>) {
    forall i, j :: 0 <= i < j < |rows| ==> IsAfter(rows[j], Some(KeyOf(rows[i])))
  }

  lemma FrontOrAfter(page: Page, rows: seq<Row>, size: nat, r: Row)
    requires size > 0 && IsFront(page, rows, size) && Descends(rows) && r in rows
    ensures r in page.items || (page.next.Some? && IsAfter(r, page.next))
  {
    var j :| 0 <= j < |rows| && rows[j] == r;
    if j < |page.items| {
      assert page.items[j] == r;
    } else {
      assert size - 1 < j;
    }
  }

  /** No selected row after the start is lost: it is on the page or after its cursor. */
  lemma OnePage(q: Query, limit: Option<nat>, table: seq<Row>, start: Option<Cursor>, r: Row)
    requires DistinctIds(table) && r in table && q.Selects(r) && IsAfter(r, start)
    ensures var page := ListRequests(q, start, limit, table);
            r in page.items || (page.next.Some? && IsAfter(r, page.next))
  {
    PageIsFront(q, limit, table, start);
    ListingExact(q, start, table);
    FrontOrAfter(ListRequests(q, start, limit, table), Listing(q, start, table), PageLimit(limit), r);
  }

  lemma FrontInOrder(page: Page, rows: seq<Row>, size: nat)
    requires size > 0 && IsFront(page, rows, size) && Descends(rows)
    ensures Descends(page.items)
    ensures page.next.Some? ==> forall i :: 0 <= i < |page.items| ==> !IsAfter(page.items[i], page.next)
    ensures forall i :: 0 <= i < |page.items| ==> page.items[i] in rows
    ensures page.next.Some? ==> exists r :: r in rows && page.next == Some(KeyOf(r))
  {
    if page.next.Some? {
      assert rows[size - 1] in rows;
    }
  }

  /** The rows of a page descend from its start to its cursor. */
  lemma PageInOrder(q: Query, limit: Option<nat>, table: seq<Row>, start: Option<Cursor>)
    requires DistinctIds(table)
    ensures var page := ListRequests(q, start, limit, table);
            && Descends(page.items)
            && (forall i :: 0 <= i < |page.items| ==> IsAfter(page.items[i], start))
            && (page.next.Some? ==> forall i :: 0 <= i < |page.items| ==> !IsAfter(page.items[i], page.next))
    ensures var page := ListRequests(q, start, limit, table);
            page.next.Some? ==> forall r :: IsAfter(r, page.next) ==> IsAfter(r, start)
  {
    var rows, page := Listing(q, start, table), ListRequests(q, start, limit, table);
    PageIsFront(q, limit, table, start);
    ListingExact(q, start, table);
    FrontInOrder(page, rows, PageLimit(limit));
  }

  lemma {:induction false} StrictlyDescending(q: Query, limit: Option<nat>, tables: seq<seq<Row>>,
                                              start: Option<Cursor>, pages: seq<Page>)
    requires IsWalk(q, limit, tables, start, pages)
    requires forall i :: 0 <= i < |tables| ==> DistinctIds(tables[i])
    ensures var items := ItemsOf(pages);
            && (forall i :: 0 <= i < |items| ==> IsAfter(items[i], start))
            && (forall i, j :: 0 <= i < j < |items| ==> IsAfter(items[j], Some(KeyOf(items[i]))))
    decreases |pages|
  {
    PageInOrder(q, limit, tables[0], start);
    if |pages| > 1 {
      StrictlyDescending(q, limit, tables[1..], pages[0].next, pages[1..]);
    } else {
      assert ItemsOf(pages) == pages[0].items + ItemsOf(pages[1..]) == pages[0].items;
    }
  }

  lemma {:induction false} StableRowSeen(q: Query, limit: Option<nat>, tables: seq<seq<Row>>, start: Option<Cursor>,
                                         pages: seq<Page>, row: Row)
    requires IsWalk(q, limit, tables, start, pages) && IsComplete(pages)
    requires forall i :: 0 <= i < |tables| ==> DistinctIds(tables[i]) && row in tables[i]
    requires q.Selects(row) && IsAfter(row, start)
    ensures row in ItemsOf(pages)
    decreases |pages|
  {
    OnePage(q, limit, tables[0], start, row);
    if |pages| > 1 && row !in pages[0].items {
      assert pages[1..][|pages| - 2] == pages[|pages| - 1];
      StableRowSeen(q, limit, tables[1..], pages[0].next, pages[1..], row);
    }
  }

  /**
   * Whatever is inserted, changed or deleted between the reads of the pages, a selected row that is in
   * the table all along is on exactly one page, once; and no key occurs twice on any pages.
   */
  lemma StableRowsExactlyOnce(q: Query, limit: Option<nat>, tables: seq<seq<Row>>, pages: seq<Page>, row: Row)
    requires IsWalk(q, limit, tables, None, pages) && IsComplete(pages)
    requires forall i :: 0 <= i < |tables| ==> DistinctIds(tables[i]) && row in tables[i]
    requires q.Selects(row)
    ensures exists i :: 0 <= i < |ItemsOf(pages)| && ItemsOf(pages)[i] == row
    ensures forall i, j :: 0 <= i < j < |ItemsOf(pages)| ==> KeyOf(ItemsOf(pages)[i]) != KeyOf(ItemsOf(pages)[j])
  {
    StableRowSeen(q, limit, tables, None, pages, row);
    StrictlyDescending(q, limit, tables, None, pages);
    var items := ItemsOf(pages);
    forall i, j | 0 <= i < j < |items| ensures KeyOf(items[i]) != KeyOf(items[j]) {
      assert IsAfter(items[j], Some(KeyOf(items[i])));
    }
  }
}
