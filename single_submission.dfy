/**
 * The admin view of one submission (`views/single-submission.php`): the
 * capability check, the nonce check on the link's id, the read of the row
 * through the object cache, the "mark as read" update with its cache
 * invalidation, and the "Back to List" link.
 */
module SingleSubmission {
  import opened Php
  import opened ObjectCache
  import opened Database

  /** How the view ends: `wp_die` with a status, or the row shown with its back link. */
  datatype View = Die(status: int) | Shown(submission: Row, backLink: string)

  /** What the request parameters give: a failed nonce check, or the id to show (0 when missing). */
  datatype Gate = Forbidden | RequestedId(id: int)

  /** The nonce action of one view link: `'view_feedback_' . $raw_feedback_id`. */
  function NonceAction(rawId: string): string {
    "view_feedback_" + rawId
  }

  /**
   * The parameter check: without both `feedback_id` and `_wpnonce` the id
   * stays 0; with both, the sanitized nonce must verify against the action
   * built from the raw id, and only then is the raw id passed to `intval`.
   */
  function CheckRequest(feedbackId: Option<string>, nonce: Option<string>,
                        sanitizeText: string -> string, verifyNonce: (string, string) -> bool): (g: Gate)
    ensures g == Forbidden <==>
              feedbackId.Some? && nonce.Some? && !verifyNonce(sanitizeText(nonce.value), NonceAction(feedbackId.value))
    ensures g.RequestedId? && feedbackId.Some? && nonce.Some? ==> g.id == IntVal(feedbackId.value)
    ensures feedbackId.None? || nonce.None? ==> g == RequestedId(0)
  {
    if feedbackId.Some? && nonce.Some? then
      if !verifyNonce(sanitizeText(nonce.value), NonceAction(feedbackId.value)) then Forbidden
      else RequestedId(IntVal(feedbackId.value))
    else
      RequestedId(0)
  }

  /**
   * A view link as the list builds it (the id written in decimal, its nonce
   * made for the same action) reaches the row with that id.
   */
  lemma ListLinkReachesRow(id: int, nonce: string, sanitizeText: string -> string, verifyNonce: (string, string) -> bool)
    requires PhpIntMin <= id <= PhpIntMax
    requires verifyNonce(sanitizeText(nonce), NonceAction(IntToString(id)))
    ensures CheckRequest(Some(IntToString(id)), Some(nonce), sanitizeText, verifyNonce) == RequestedId(id)
  {
    IntValOfIntToString(id);
  }

  /**
   * The row shown: a cached row on a hit, the `SELECT ... WHERE id = %d`
   * otherwise. Nothing is shown only when the table has no such id; with
   * no per-row entries cached, the shown row is the table's row with that id.
   */
  function SubmissionShown(entries: map<Address, CacheValue>, rows: seq<Row>, id: int): (shown: Option<Row>)
    ensures shown.None? ==> id !in IdSet(rows)
    ensures (forall a :: a in entries ==> a.group != ItemGroup) ==>
              (shown.Some? <==> id in IdSet(rows)) && (shown.Some? ==> shown.value in rows && shown.value.id == id)
  {
    var a := Address(ItemGroup, ItemKey(id));
    if a in entries && entries[a].CachedRow? then Some(entries[a].row) else FindById(rows, id)
  }

  /** The cache after the read: a missed row that the query finds is stored. */
  function CacheAfterRead(entries: map<Address, CacheValue>, rows: seq<Row>, id: int): (after: map<Address, CacheValue>)
    ensures forall a :: a != Address(ItemGroup, ItemKey(id)) ==>
              (a in after <==> a in entries) && (a in after ==> after[a] == entries[a])
    ensures SubmissionShown(after, rows, id) == SubmissionShown(entries, rows, id)
    ensures SubmissionShown(entries, rows, id).None? ==> after == entries
    ensures Address(ItemGroup, ItemKey(id)) in entries && entries[Address(ItemGroup, ItemKey(id))].CachedRow? ==> after == entries
    ensures !(Address(ItemGroup, ItemKey(id)) in entries && entries[Address(ItemGroup, ItemKey(id))].CachedRow?) &&
            FindById(rows, id).Some? ==>
              Address(ItemGroup, ItemKey(id)) in after && after[Address(ItemGroup, ItemKey(id))] == CachedRow(FindById(rows, id).value)
  {
    var a := Address(ItemGroup, ItemKey(id));
    if !(a in entries && entries[a].CachedRow?) && FindById(rows, id).Some? then
      entries[a := CachedRow(FindById(rows, id).value)]
    else
      entries
  }

  /** `$submission->read_status == 0`: a row without the column is never marked. */
  predicate IsUnread(r: Row) {
    r.readStatus == Some(0)
  }

  /** The cache after marking a row read: its entry is deleted and the list group flushed. */
  function CacheAfterMark(entries: map<Address, CacheValue>, id: int): (after: map<Address, CacheValue>)
    ensures Address(ItemGroup, ItemKey(id)) !in after
    ensures forall a :: a in after ==> a.group != ListGroup
    ensures forall a: Address :: a.group != ListGroup && a != Address(ItemGroup, ItemKey(id)) ==>
              (a in after <==> a in entries) && (a in after ==> after[a] == entries[a])
  {
    WithoutGroup(entries - {Address(ItemGroup, ItemKey(id))}, ListGroup)
  }

  const ListMarker: string := "page=easy-feedback-form"
  const ListPath: string := "admin.php?page=easy-feedback-form"

  /**
   * The "Back to List" target: the referer when there is one, it is not
   * falsy, and it contains the list page's query argument; the list page's
   * admin URL otherwise. Either way the link leads to the list page.
   */
  function BackLink(referer: Option<string>, adminUrl: string -> string): (link: string)
    ensures link == adminUrl(ListPath) || (referer == Some(link) && Contains(link, ListMarker))
  {
    if referer.None? || Empty(referer.value) || !Contains(referer.value, ListMarker) then adminUrl(ListPath)
    else referer.value
  }

  /**
   * The falsy test on the referer never decides anything: neither "" nor
   * "0" contains the list marker, so the link depends on the marker alone.
   */
  lemma BackLinkNeedsOnlyMarker(referer: Option<string>, adminUrl: string -> string)
    ensures referer.Some? && Contains(referer.value, ListMarker) ==> BackLink(referer, adminUrl) == referer.value
    ensures !(referer.Some? && Contains(referer.value, ListMarker)) ==> BackLink(referer, adminUrl) == adminUrl(ListPath)
  {
  }

  /**
   * One request of the view: 403 without `manage_options` or with a nonce
   * that does not verify, 400 for id 0, 404 when no row is found; otherwise
   * an unread row is marked read in the table and in the returned row, and
   * its cache entry and the list pages are invalidated.
   */
  method ShowSubmission(table: FeedbackTable, cache: Cache<CacheValue>, canManage: bool,
                        feedbackId: Option<string>, nonce: Option<string>,
                        sanitizeText: string -> string, verifyNonce: (string, string) -> bool,
                        referer: Option<string>, adminUrl: string -> string)
    returns (view: View)
    requires table.Valid()
    modifies table, cache
    ensures table.Valid() && table.autoIncrement == old(table.autoIncrement)
    ensures !canManage ==> view == Die(403)
    ensures canManage && CheckRequest(feedbackId, nonce, sanitizeText, verifyNonce) == Forbidden ==> view == Die(403)
    ensures canManage && CheckRequest(feedbackId, nonce, sanitizeText, verifyNonce) == RequestedId(0) ==> view == Die(400)
    ensures view.Die? ==> table.rows == old(table.rows) && cache.entries == old(cache.entries)
    ensures canManage && CheckRequest(feedbackId, nonce, sanitizeText, verifyNonce).RequestedId? ==>
              var id := CheckRequest(feedbackId, nonce, sanitizeText, verifyNonce).id;
              var shown := SubmissionShown(old(cache.entries), old(table.rows), id);
              id != 0 ==>
                (shown.None? ==> view == Die(404)) &&
                (shown.Some? && !IsUnread(shown.value) ==>
                   view == Shown(shown.value, BackLink(referer, adminUrl)) &&
                   table.rows == old(table.rows) &&
                   cache.entries == CacheAfterRead(old(cache.entries), old(table.rows), id)) &&
                (shown.Some? && IsUnread(shown.value) ==>
                   view == Shown(shown.value.(readStatus := Some(1)), BackLink(referer, adminUrl)) &&
                   table.rows == MarkedRead(old(table.rows), id) &&
                   cache.entries == CacheAfterMark(CacheAfterRead(old(cache.entries), old(table.rows), id), id))
  {
    if !canManage {
      return Die(403);
    }
    var id := 0;
    if feedbackId.Some? && nonce.Some? {
      var sanitizedNonce := sanitizeText(nonce.value);
      var rawId := feedbackId.value;
      if !verifyNonce(sanitizedNonce, NonceAction(rawId)) {
        return Die(403);
      }
      id := IntVal(rawId);
    }
    assert CheckRequest(feedbackId, nonce, sanitizeText, verifyNonce) == RequestedId(id);
    if id == 0 {
      return Die(400);
    }

    var submission: Option<Row>;
    var cached := cache.Get(ItemGroup, ItemKey(id));
    if cached.Some? && cached.value.CachedRow? {
      submission := Some(cached.value.row);
    } else {
      submission := FindById(table.rows, id);
      if submission.Some? {
        cache.Set(ItemGroup, ItemKey(id), CachedRow(submission.value));
      }
    }
    if submission.None? {
      return Die(404);
    }

    var row := submission.value;
    if row.readStatus.Some? && row.readStatus.value == 0 {
      table.MarkRead(id);
      row := row.(readStatus := Some(1));
      cache.Delete(ItemGroup, ItemKey(id));
      cache.FlushGroup(ListGroup);
    }
    view := Shown(row, BackLink(referer, adminUrl));
  }

  /**
   * Reading through the cache is transparent: a second read right after the
   * first shows the same row.
   */
  lemma RereadShowsSameRow(entries: map<Address, CacheValue>, rows: seq<Row>, id: int)
    ensures SubmissionShown(CacheAfterRead(entries, rows, id), rows, id) == SubmissionShown(entries, rows, id)
    ensures CacheAfterRead(CacheAfterRead(entries, rows, id), rows, id) == CacheAfterRead(entries, rows, id)
  {
  }

  /**
   * A row is marked read at most once: after a view that marked it, the
   * next view reads the table again (its cache entry is gone) and finds the
   * row read, or finds no row when the cached row had gone stale.
   */
  lemma SecondViewMakesNoUpdate(entries: map<Address, CacheValue>, rows: seq<Row>, id: int)
    requires SubmissionShown(entries, rows, id).Some? && IsUnread(SubmissionShown(entries, rows, id).value)
    ensures var after := CacheAfterMark(CacheAfterRead(entries, rows, id), id);
            var again := SubmissionShown(after, MarkedRead(rows, id), id);
            again == (if FindById(rows, id).Some? then Some(FindById(rows, id).value.(readStatus := Some(1))) else None) &&
            (again.Some? ==> !IsUnread(again.value))
  {
    var after := CacheAfterMark(CacheAfterRead(entries, rows, id), id);
    assert SubmissionShown(after, MarkedRead(rows, id), id) == FindById(MarkedRead(rows, id), id);
    if FindById(rows, id).Some? {
      FindMarkedRead(rows, id);
    } else {
      MarkedReadFlipsOnce(rows, id);
      assert FindById(MarkedRead(rows, id), id).None?;
    }
  }
}
