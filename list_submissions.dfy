/**
 * The admin list view (`list-submissions.php`): the capability gate,
 * pagination arithmetic, cache-aside reads of the total count and of one
 * page of rows, the status column, and the two status notices.
 *
 * HTML, escaping, translation, dates and `paginate_links` are not modelled;
 * a rendered row is reduced to the values it shows.
 */
module ListSubmissions {
  import opened Php
  import opened ObjectCache
  import opened Database

  const PerPage: int := 15

  // ---------------------------------------------------------------------
  // Pagination arithmetic
  // ---------------------------------------------------------------------

  /** `isset($_GET['paged']) ? max(1, intval($_GET['paged'])) : 1`. */
  function CurrentPage(paged: Option<string>): (page: int)
    ensures 1 <= page <= PhpIntMax
  {
    match paged
    case None => 1
    case Some(p) => var n := IntVal(p); if n > 1 then n else 1
  }

  /** The page links this view produces (`paged=<n>`) lead back to page n. */
  lemma CurrentPageOfLink(n: int)
    requires 1 <= n <= PhpIntMax
    ensures CurrentPage(Some(IntToString(n))) == n
  {
    IntValOfIntToString(n);
  }

  /** A missing, non-numeric, zero or negative `paged` gives the first page. */
  lemma CurrentPageClamps(paged: Option<string>)
    ensures paged.None? ==> CurrentPage(paged) == 1
    ensures paged.Some? && IntVal(paged.value) < 1 ==> CurrentPage(paged) == 1
    ensures paged.Some? && IntVal(paged.value) >= 1 ==> CurrentPage(paged) == IntVal(paged.value)
  {
  }

  /** `($current_page - 1) * $per_page`. */
  function Offset(page: int): (offset: int)
    requires page >= 1
    ensures offset >= 0 && offset % PerPage == 0
    ensures offset / PerPage == page - 1
  {
    (page - 1) * PerPage
  }

  /** `ceil($total_items / $per_page)`, written with the floor division of negated operands. */
  function TotalPages(total: int): (pages: int)
    ensures (pages - 1) * PerPage < total <= pages * PerPage
  {
    -((-total) / PerPage)
  }

  /** No rows means no pages; otherwise every page up to the last is non-empty. */
  lemma TotalPagesOfCount(total: nat)
    ensures TotalPages(total) >= 0
    ensures TotalPages(total) == 0 <==> total == 0
    ensures forall page :: 1 <= page <= TotalPages(total) ==> Offset(page) < total
  {
  }

  // ---------------------------------------------------------------------
  // The page query: ORDER BY created_at DESC LIMIT 15 OFFSET offset
  // ---------------------------------------------------------------------

  function Reverse(s: seq<Row>): (r: seq<Row>)
    ensures |r| == |s| && forall i :: 0 <= i < |s| ==> r[i] == s[|s| - 1 - i]
  {
    seq(|s|, i requires 0 <= i < |s| => s[|s| - 1 - i])
  }

  /** All rows, newest first. */
  function NewestFirst(rows: seq<Row>): (r: seq<Row>)
    ensures |r| == |rows| && multiset(r) == multiset(rows)
    ensures forall i, j :: 0 <= i < j < |r| ==> r[i].createdAt >= r[j].createdAt
  {
    var sorted := SortByCreated(rows);
    var r := Reverse(sorted);
    assert r == seq(|sorted|, i requires 0 <= i < |sorted| => sorted[|sorted| - 1 - i]);
    ReverseSameMultiset(sorted);
    r
  }

  lemma {:induction false} ReverseSameMultiset(s: seq<Row>)
    ensures multiset(Reverse(s)) == multiset(s)
  {
    if s != [] {
      var last := s[|s| - 1];
      var init := s[..|s| - 1];
      ReverseSameMultiset(init);
      assert Reverse(s) == [last] + Reverse(init);
      assert s == init + [last];
    }
  }

  /** One page of the newest-first listing. */
  function PageRows(rows: seq<Row>, offset: int): (page: seq<Row>)
    requires offset >= 0
    ensures |page| == if offset >= |rows| then 0 else if |rows| - offset < PerPage then |rows| - offset else PerPage
    ensures forall i :: 0 <= i < |page| ==> page[i] == NewestFirst(rows)[offset + i]
    ensures forall i, j :: 0 <= i < j < |page| ==> page[i].createdAt >= page[j].createdAt
  {
    var all := NewestFirst(rows);
    if offset >= |all| then []
    else if |all| - offset < PerPage then all[offset..]
    else all[offset..offset + PerPage]
  }

  /** Position k of the listing lies on page k div 15 + 1, at k mod 15. */
  lemma PositionOnPage(k: int)
    requires k >= 0
    ensures var page := k / PerPage + 1;
            page >= 1 && Offset(page) + k % PerPage == k && 0 <= k % PerPage < PerPage
  {
    assert PerPage == 15;
  }

  /** A page that starts before the end of the listing is counted in the page total. */
  lemma PageStartsBeforeEnd(total: int, page: int)
    requires page >= 1 && Offset(page) < total
    ensures page <= TotalPages(total)
  {
    assert PerPage == 15;
    var pages := TotalPages(total);
    assert (page - 1) * 15 < pages * 15;
  }

  /** The 15-row windows of two different pages do not overlap. */
  lemma PagesDisjoint(p: int, q: int)
    requires 1 <= p < q
    ensures Offset(p) + PerPage <= Offset(q)
  {
    assert PerPage == 15;
  }

  /**
   * Every row of the listing is on exactly one page: position k is row
   * k mod 15 of page k div 15 + 1, a page that exists.
   */
  lemma EveryRowOnItsPage(rows: seq<Row>, k: int)
    requires 0 <= k < |rows|
    ensures var page := k / PerPage + 1;
            1 <= page <= TotalPages(|rows|) &&
            k % PerPage < |PageRows(rows, Offset(page))| &&
            PageRows(rows, Offset(page))[k % PerPage] == NewestFirst(rows)[k]
    ensures forall page :: page >= 1 && page != k / PerPage + 1 ==>
              !(Offset(page) <= k < Offset(page) + |PageRows(rows, Offset(page))|)
  {
    var page := k / PerPage + 1;
    PositionOnPage(k);
    PageStartsBeforeEnd(|rows|, page);
    forall p | p >= 1 && p != page
      ensures !(Offset(p) <= k < Offset(p) + |PageRows(rows, Offset(p))|)
    {
      if p < page {
        PagesDisjoint(p, page);
      } else {
        PagesDisjoint(page, p);
      }
    }
  }

  // ---------------------------------------------------------------------
  // Cache-aside reads
  // ---------------------------------------------------------------------

  const PagePrefix: string := "eeform_submissions_page_"

  /**
   * `'eeform_submissions_page_' . $current_page . '_per_' . $per_page`: the
   * page number can be read back from between the prefix and the suffix.
   */
  function PageKey(page: int): (key: string)
    ensures StartsWith(key, PagePrefix) && EndsWith(key, "_per_" + IntToString(PerPage))
    ensures |PagePrefix| + 1 + |"_per_" + IntToString(PerPage)| <= |key|
    ensures PhpIntMin <= page <= PhpIntMax ==>
              IntVal(key[|PagePrefix|..|key| - |"_per_" + IntToString(PerPage)|]) == page
  {
    var suffix := "_per_" + IntToString(PerPage);
    var key := PagePrefix + IntToString(page) + suffix;
    StripAffixes(PagePrefix, IntToString(page), suffix);
    assert key[..|PagePrefix|] == PagePrefix;
    assert key[|key| - |suffix|..] == suffix;
    assert PhpIntMin <= page <= PhpIntMax ==> IntVal(IntToString(page)) == page by {
      if PhpIntMin <= page <= PhpIntMax {
        IntValOfIntToString(page);
      }
    }
    key
  }

  /** Distinct pages have distinct cache keys. */
  lemma PageKeyInjective(a: int, b: int)
    requires PageKey(a) == PageKey(b)
    ensures a == b
  {
    var prefix, suffix := PagePrefix, "_per_" + IntToString(PerPage);
    var ka, kb := prefix + IntToString(a) + suffix, prefix + IntToString(b) + suffix;
    assert ka == PageKey(a) && kb == PageKey(b);
    StripAffixes(prefix, IntToString(a), suffix);
    StripAffixes(prefix, IntToString(b), suffix);
    assert IntToString(a) == ka[|prefix|..|ka| - |suffix|] == kb[|prefix|..|kb| - |suffix|] == IntToString(b);
    IntToStringInjective(a, b);
  }

  /** No page key is the count's key. */
  lemma PageKeyIsNotCountKey(page: int)
    ensures PageKey(page) != CountKey
  {
    assert PageKey(page)[7] == 's' && CountKey[7] == 't';
  }

  /**
   * The count shown: a cached count on a hit, the table's row count
   * otherwise; with the list group flushed it is always the table's.
   */
  function CountShown(entries: map<Address, CacheValue>, rowCount: int): (n: int)
    ensures n == rowCount || (Address(ListGroup, CountKey) in entries && entries[Address(ListGroup, CountKey)] == CachedCount(n))
    ensures (forall a :: a in entries ==> a.group != ListGroup) ==> n == rowCount
  {
    var a := Address(ListGroup, CountKey);
    if a in entries && entries[a].CachedCount? then entries[a].count else rowCount
  }

  /**
   * The rows shown: a cached page on a hit, the page query otherwise; with
   * the list group flushed it is always the query's.
   */
  function PageShown(entries: map<Address, CacheValue>, rows: seq<Row>, page: int): (shown: seq<Row>)
    requires page >= 1
    ensures shown == PageRows(rows, Offset(page)) ||
            (Address(ListGroup, PageKey(page)) in entries && entries[Address(ListGroup, PageKey(page))] == CachedPage(shown))
    ensures (forall a :: a in entries ==> a.group != ListGroup) ==> shown == PageRows(rows, Offset(page))
  {
    var a := Address(ListGroup, PageKey(page));
    if a in entries && entries[a].CachedPage? then entries[a].page else PageRows(rows, Offset(page))
  }

  /** The cache after reading the count: a missed, non-zero count is stored. */
  function CountCacheAfter(entries: map<Address, CacheValue>, rowCount: int): (after: map<Address, CacheValue>)
    ensures forall a :: a != Address(ListGroup, CountKey) ==>
              (a in after <==> a in entries) && (a in after ==> after[a] == entries[a])
    ensures CountShown(entries, rowCount) != 0 ==> CountShown(after, 0) == CountShown(entries, rowCount)
    ensures CountShown(entries, rowCount) == 0 ==> after == entries
    ensures Address(ListGroup, CountKey) in entries && entries[Address(ListGroup, CountKey)].CachedCount? ==> after == entries
    ensures !(Address(ListGroup, CountKey) in entries && entries[Address(ListGroup, CountKey)].CachedCount?) && rowCount != 0 ==>
              Address(ListGroup, CountKey) in after && after[Address(ListGroup, CountKey)] == CachedCount(rowCount)
  {
    var countKey := Address(ListGroup, CountKey);
    if !(countKey in entries && entries[countKey].CachedCount?) && rowCount != 0 then entries[countKey := CachedCount(rowCount)]
    else entries
  }

  /** The cache after reading the page: a missed, non-empty page is stored. */
  function PageCacheAfter(entries: map<Address, CacheValue>, rows: seq<Row>, page: int): (after: map<Address, CacheValue>)
    requires page >= 1
    ensures forall a :: a != Address(ListGroup, PageKey(page)) ==>
              (a in after <==> a in entries) && (a in after ==> after[a] == entries[a])
    ensures PageShown(entries, rows, page) != [] ==> PageShown(after, [], page) == PageShown(entries, rows, page)
    ensures PageShown(entries, rows, page) == [] ==> after == entries
    ensures Address(ListGroup, PageKey(page)) in entries && entries[Address(ListGroup, PageKey(page))].CachedPage? ==> after == entries
    ensures !(Address(ListGroup, PageKey(page)) in entries && entries[Address(ListGroup, PageKey(page))].CachedPage?) &&
            PageRows(rows, Offset(page)) != [] ==>
              Address(ListGroup, PageKey(page)) in after &&
              after[Address(ListGroup, PageKey(page))] == CachedPage(PageRows(rows, Offset(page)))
  {
    var pageKey := Address(ListGroup, PageKey(page));
    var pageRows := PageShown(entries, rows, page);
    if !(pageKey in entries && entries[pageKey].CachedPage?) && pageRows != [] then entries[pageKey := CachedPage(pageRows)]
    else entries
  }

  /** Storing the count leaves the page lookup as it was. */
  lemma CountCacheKeepsPage(entries: map<Address, CacheValue>, rowCount: int, rows: seq<Row>, page: int)
    requires page >= 1
    ensures var after := CountCacheAfter(entries, rowCount);
            var pageKey := Address(ListGroup, PageKey(page));
            (pageKey in after <==> pageKey in entries) && (pageKey in after ==> after[pageKey] == entries[pageKey]) &&
            PageShown(after, rows, page) == PageShown(entries, rows, page)
  {
    PageKeyIsNotCountKey(page);
  }

  /**
   * The cache after one list view: a missed count or page is stored only
   * when it is non-empty; a hit stores nothing.
   */
  function CacheAfterList(entries: map<Address, CacheValue>, rows: seq<Row>, page: int): (after: map<Address, CacheValue>)
    requires page >= 1
    ensures forall a :: a != Address(ListGroup, CountKey) && a != Address(ListGroup, PageKey(page)) ==>
              (a in after <==> a in entries) && (a in after ==> after[a] == entries[a])
    ensures CountShown(entries, |rows|) != 0 ==> CountShown(after, 0) == CountShown(entries, |rows|)
    ensures PageShown(entries, rows, page) != [] ==> PageShown(after, [], page) == PageShown(entries, rows, page)
    ensures CountShown(entries, |rows|) == 0 ==> CountShown(after, |rows|) == CountShown(entries, |rows|)
    ensures CountShown(entries, |rows|) == 0 ==>
              var countKey := Address(ListGroup, CountKey);
              (countKey in after <==> countKey in entries) && (countKey in after ==> after[countKey] == entries[countKey])
    ensures PageShown(entries, rows, page) == [] ==>
              var pageKey := Address(ListGroup, PageKey(page));
              (pageKey in after <==> pageKey in entries) && (pageKey in after ==> after[pageKey] == entries[pageKey])
  {
    PageKeyIsNotCountKey(page);
    CountCacheKeepsPage(entries, |rows|, rows, page);
    PageCacheAfter(CountCacheAfter(entries, |rows|), rows, page)
  }

  /** The count read of the view (`wp_cache_get`, then the `COUNT(*)` query on a miss). */
  method ReadCount(table: FeedbackTable, cache: Cache<CacheValue>) returns (totalItems: int)
    modifies cache
    ensures totalItems == CountShown(old(cache.entries), |table.rows|)
    ensures cache.entries == CountCacheAfter(old(cache.entries), |table.rows|)
  {
    var cachedCount := cache.Get(ListGroup, CountKey);
    if cachedCount.Some? && cachedCount.value.CachedCount? {
      totalItems := cachedCount.value.count;
    } else {
      totalItems := |table.rows|;
      if totalItems != 0 {
        cache.Set(ListGroup, CountKey, CachedCount(totalItems));
      }
    }
  }

  /** The page read of the view (`wp_cache_get`, then the page query on a miss). */
  method ReadPage(table: FeedbackTable, cache: Cache<CacheValue>, page: int) returns (submissions: seq<Row>)
    requires page >= 1
    modifies cache
    ensures submissions == PageShown(old(cache.entries), table.rows, page)
    ensures cache.entries == PageCacheAfter(old(cache.entries), table.rows, page)
  {
    var offset := (page - 1) * PerPage;
    var cachedPage := cache.Get(ListGroup, PageKey(page));
    if cachedPage.Some? && cachedPage.value.CachedPage? {
      submissions := cachedPage.value.page;
    } else {
      submissions := PageRows(table.rows, offset);
      if submissions != [] {
        cache.Set(ListGroup, PageKey(page), CachedPage(submissions));
      }
    }
  }

  /**
   * Inserting or deleting a row flushes the list group, so the next view
   * reads the count and the page from the table again.
   */
  lemma FlushedListIsFresh(entries: map<Address, CacheValue>, rows: seq<Row>, page: int)
    requires page >= 1
    ensures CountShown(WithoutGroup(entries, ListGroup), |rows|) == |rows|
    ensures PageShown(WithoutGroup(entries, ListGroup), rows, page) == PageRows(rows, Offset(page))
  {
  }

  // ---------------------------------------------------------------------
  // Status column and notices
  // ---------------------------------------------------------------------

  datatype Status = New | Read

  /** A row without `read_status` shows as read; `read_status == 0` shows as new. */
  function StatusOf(r: Row): (s: Status)
    ensures s == New <==> r.readStatus == Some(0)
  {
    match r.readStatus
    case None => Read
    case Some(v) => if v == 0 then New else Read
  }

  /** What one table line shows (the message excerpt and the date are presentation). */
  datatype Line = Line(id: int, status: Status, name: string, email: string)

  /** The `foreach` that renders the rows of the page. */
  method RenderRows(submissions: seq<Row>) returns (lines: seq<Line>)
    ensures |lines| == |submissions|
    ensures forall i :: 0 <= i < |submissions| ==>
              lines[i] == Line(submissions[i].id, StatusOf(submissions[i]), submissions[i].name, submissions[i].email)
  {
    lines := [];
    for i := 0 to |submissions|
      invariant |lines| == i
      invariant forall j :: 0 <= j < i ==>
                  lines[j] == Line(submissions[j].id, StatusOf(submissions[j]), submissions[j].name, submissions[j].email)
    {
      var submission := submissions[i];
      var readStatus := if submission.readStatus.Some? then submission.readStatus.value else 1;
      var status := if readStatus == 0 then New else Read;
      lines := lines + [Line(submission.id, status, submission.name, submission.email)];
    }
  }

  /** `(isset($_GET[$p]) ? intval($_GET[$p]) : 0) === 1`. */
  predicate NoticeShown(param: Option<string>)
    ensures NoticeShown(param) ==> param.Some? && !Empty(param.value)
  {
    param.Some? && (FalsyReadsZero(param.value); IntVal(param.value) == 1)
  }

  /** `intval` of a falsy string ("" or "0") is 0. */
  lemma FalsyReadsZero(s: string)
    ensures Empty(s) ==> IntVal(s) == 0
  {
    if s == "0" {
      IntValOfIntToString(0);
    }
  }

  /** Of the values the redirects can carry, only 1 shows the notice. */
  lemma NoticeOnlyForOne(n: int)
    requires PhpIntMin <= n <= PhpIntMax
    ensures NoticeShown(Some(IntToString(n))) <==> n == 1
    ensures !NoticeShown(None)
  {
    IntValOfIntToString(n);
  }

  // ---------------------------------------------------------------------
  // The view
  // ---------------------------------------------------------------------

  datatype ListView =
    | Denied
    | Listing(currentPage: int, totalPages: int, lines: seq<Line>, deletedNotice: bool, errorNotice: bool)

  /**
   * One request of the list view: 403 without `manage_options`; otherwise
   * the count and the page through the cache, and the notices.
   */
  method ShowList(table: FeedbackTable, cache: Cache<CacheValue>, canManage: bool,
                  paged: Option<string>, deleted: Option<string>, error: Option<string>)
    returns (view: ListView)
    modifies cache
    ensures !canManage ==> view == Denied && cache.entries == old(cache.entries)
    ensures canManage ==>
              var page := CurrentPage(paged);
              view.Listing? && view.currentPage == page &&
              view.totalPages == TotalPages(CountShown(old(cache.entries), |table.rows|)) &&
              |view.lines| == |PageShown(old(cache.entries), table.rows, page)| &&
              (forall i :: 0 <= i < |view.lines| ==>
                 var r := PageShown(old(cache.entries), table.rows, page)[i];
                 view.lines[i] == Line(r.id, StatusOf(r), r.name, r.email)) &&
              view.deletedNotice == NoticeShown(deleted) && view.errorNotice == NoticeShown(error) &&
              cache.entries == CacheAfterList(old(cache.entries), table.rows, page)
  {
    if !canManage {
      return Denied;
    }
    ghost var before := cache.entries;
    var currentPage := if paged.Some? then (var n := IntVal(paged.value); if n > 1 then n else 1) else 1;
    assert currentPage == CurrentPage(paged);
    var totalItems := ReadCount(table, cache);
    var totalPages := TotalPages(totalItems);
    CountCacheKeepsPage(before, |table.rows|, table.rows, currentPage);
    var submissions := ReadPage(table, cache, currentPage);

    var deletedNotice := deleted.Some? && IntVal(deleted.value) == 1;
    var errorNotice := error.Some? && IntVal(error.value) == 1;
    var lines := RenderRows(submissions);
    view := Listing(currentPage, totalPages, lines, deletedNotice, errorNotice);
  }
}
