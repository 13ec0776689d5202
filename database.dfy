/**
 * The feedback table and the two writes of `EEFORM_Database`:
 * `insert_feedback` (append a row under the next auto-increment id) and
 * `delete_feedback` (delete one row, renumber the survivors 1..N in
 * ascending `created_at` order, reset the auto-increment to N+1, all inside
 * a transaction that is rolled back when a step throws).
 *
 * The table is a sequence of rows in physical order plus the table's
 * AUTO_INCREMENT counter. `ORDER BY created_at` does not break ties; the
 * model breaks them by physical order (a stable sort), and nothing below
 * depends on that choice beyond the non-strict order of `created_at`.
 */
module Database {
  import opened Php
  import opened ObjectCache

  /**
   * One row of `{prefix}feedback_submissions`. `readStatus` is `None` for a
   * row read from a table that does not have the `read_status` column.
   */
  datatype Row = Row(id: int, name: string, email: string, message: string, createdAt: int, readStatus: Option<int>)

  /** The values the plugin puts in the object cache. */
  datatype CacheValue = CachedCount(count: int) | CachedPage(page: seq<Row>) | CachedRow(row: Row)

  /** The cache group of single rows, and the group of the list view's count and pages. */
  const ItemGroup: string := "feedback_submissions"
  const ListGroup: string := "feedback_submissions_list"
  const CountKey: string := "eeform_total_submissions_count"

  const ItemPrefix: string := "eeform_submission_"

  /**
   * The cache key of one row: `'eeform_submission_' . $id`. The id can be
   * read back from the key with `intval`.
   */
  function ItemKey(id: int): (key: string)
    ensures StartsWith(key, ItemPrefix) && |key| > |ItemPrefix|
    ensures PhpIntMin <= id <= PhpIntMax ==> IntVal(key[|ItemPrefix|..]) == id
  {
    var key := ItemPrefix + IntToString(id);
    assert key[|ItemPrefix|..] == IntToString(id);
    assert PhpIntMin <= id <= PhpIntMax ==> IntVal(IntToString(id)) == id by {
      if PhpIntMin <= id <= PhpIntMax {
        IntValOfIntToString(id);
      }
    }
    key
  }

  /** Distinct ids have distinct item cache keys. */
  lemma ItemKeyInjective(a: int, b: int)
    requires ItemKey(a) == ItemKey(b)
    ensures a == b
  {
    var p := ItemPrefix;
    assert ItemKey(a)[|p|..] == IntToString(a);
    assert ItemKey(b)[|p|..] == IntToString(b);
    IntToStringInjective(a, b);
  }

  /** `id mediumint(9)`: the largest id the column holds. */
  const MaxId: int := 8388607

  /** WordPress's `sanitize_text_field`, `sanitize_email`, `sanitize_textarea_field`. */
  datatype Sanitizers = Sanitizers(text: string -> string, email: string -> string, textarea: string -> string)

  // ---------------------------------------------------------------------
  // Rows and ids
  // ---------------------------------------------------------------------

  /** The primary key: no two rows share an id. */
  ghost predicate UniqueIds(rows: seq<Row>) {
    forall i, j :: 0 <= i < j < |rows| ==> rows[i].id != rows[j].id
  }

  function Ids(rows: seq<Row>): (ids: seq<int>)
    ensures |ids| == |rows| && forall i :: 0 <= i < |rows| ==> ids[i] == rows[i].id
  {
    seq(|rows|, i requires 0 <= i < |rows| => rows[i].id)
  }

  ghost function IdSet(rows: seq<Row>): set<int> {
    set r | r in rows :: r.id
  }

  /** The N rows carry exactly the ids 1..N. */
  ghost predicate IdsOneToN(rows: seq<Row>) {
    (forall r :: r in rows ==> 1 <= r.id <= |rows|) &&
    (forall k :: 1 <= k <= |rows| ==> k in IdSet(rows))
  }

  /** `SELECT * FROM table WHERE id = %d`: the row with that id, if any. */
  function FindById(rows: seq<Row>, id: int): (r: Option<Row>)
    ensures r.Some? ==> r.value in rows && r.value.id == id
    ensures r.None? <==> id !in IdSet(rows)
  {
    if rows == [] then None
    else if rows[0].id == id then Some(rows[0])
    else
      var r := FindById(rows[1..], id);
      assert IdSet(rows) == {rows[0].id} + IdSet(rows[1..]) by {
        assert forall x :: x in rows <==> x == rows[0] || x in rows[1..];
      }
      r
  }

  /** How many rows carry the id. */
  function Occurrences(rows: seq<Row>, id: int): nat {
    if rows == [] then 0 else (if rows[0].id == id then 1 else 0) + Occurrences(rows[1..], id)
  }

  /**
   * `DELETE FROM table WHERE id = %d`: the rows that keep their place.
   * Exactly the rows with the id are dropped, and none with it remains.
   */
  function Without(rows: seq<Row>, id: int): (r: seq<Row>)
    ensures |r| <= |rows|
    ensures |r| == |rows| - Occurrences(rows, id)
    ensures Occurrences(r, id) == 0
  {
    if rows == [] then []
    else
      var rest := Without(rows[1..], id);
      if rows[0].id == id then rest
      else
        assert ([rows[0]] + rest)[1..] == rest;
        [rows[0]] + rest
  }

  /** The delete keeps exactly the rows with another id. */
  lemma {:induction false} WithoutMembers(rows: seq<Row>, id: int)
    ensures forall x :: x in Without(rows, id) <==> x in rows && x.id != id
  {
    if rows != [] {
      WithoutMembers(rows[1..], id);
      assert forall x :: x in rows <==> x == rows[0] || x in rows[1..];
    }
  }

  lemma {:induction false} WithoutKeepsUniqueIds(rows: seq<Row>, id: int)
    requires UniqueIds(rows)
    ensures UniqueIds(Without(rows, id))
  {
    if rows != [] {
      WithoutKeepsUniqueIds(rows[1..], id);
      WithoutMembers(rows[1..], id);
      var rest := Without(rows[1..], id);
      forall x | x in rest
        ensures x.id != rows[0].id
      {
        var j :| 0 <= j < |rows[1..]| && rows[1..][j] == x;
        assert rows[j + 1] == x;
      }
    }
  }

  /**
   * The delete takes away exactly the row with the given id when there is
   * one, and nothing otherwise; the survivors stay in their order.
   */
  lemma WithoutRemovesOneRow(rows: seq<Row>, id: int)
    requires UniqueIds(rows)
    ensures id in IdSet(rows) ==> |Without(rows, id)| == |rows| - 1
    ensures id !in IdSet(rows) ==> Without(rows, id) == rows
    ensures id !in IdSet(Without(rows, id))
  {
    if id in IdSet(rows) {
      WithoutOfPresent(rows, id);
    } else {
      WithoutOfAbsent(rows, id);
    }
    WithoutMembers(rows, id);
  }

  lemma {:induction false} WithoutOfAbsent(rows: seq<Row>, id: int)
    requires id !in IdSet(rows)
    ensures Without(rows, id) == rows
  {
    if rows != [] {
      IdSetOfCons(rows);
      WithoutOfAbsent(rows[1..], id);
      assert rows == [rows[0]] + rows[1..];
    }
  }

  lemma {:induction false} WithoutOfPresent(rows: seq<Row>, id: int)
    requires UniqueIds(rows) && id in IdSet(rows)
    ensures |Without(rows, id)| == |rows| - 1
  {
    IdSetOfCons(rows);
    if rows[0].id == id {
      HeadIdIsUnique(rows);
      WithoutOfAbsent(rows[1..], id);
    } else {
      assert UniqueIds(rows[1..]);
      WithoutOfPresent(rows[1..], id);
    }
  }

  lemma IdSetOfCons(rows: seq<Row>)
    requires rows != []
    ensures IdSet(rows) == {rows[0].id} + IdSet(rows[1..])
  {
    assert forall x :: x in rows <==> x == rows[0] || x in rows[1..];
  }


  /** With unique ids, the first row's id does not occur again. */
  lemma HeadIdIsUnique(rows: seq<Row>)
    requires UniqueIds(rows) && rows != []
    ensures rows[0].id !in IdSet(rows[1..])
  {
    forall x | x in rows[1..]
      ensures x.id != rows[0].id
    {
      var j :| 0 <= j < |rows[1..]| && rows[1..][j] == x;
      assert rows[j + 1] == x;
    }
  }

  // ---------------------------------------------------------------------
  // SELECT id ... ORDER BY created_at ASC
  // ---------------------------------------------------------------------

  ghost predicate SortedByCreated(rows: seq<Row>) {
    forall i, j :: 0 <= i < j < |rows| ==> rows[i].createdAt <= rows[j].createdAt
  }

  lemma ConsSorted(x: Row, s: seq<Row>)
    requires SortedByCreated(s)
    requires forall y :: y in s ==> x.createdAt <= y.createdAt
    ensures SortedByCreated([x] + s)
  {
    forall i, j | 0 <= i < j < |[x] + s|
      ensures ([x] + s)[i].createdAt <= ([x] + s)[j].createdAt
    {
      if i > 0 {
        assert ([x] + s)[i] == s[i - 1] && ([x] + s)[j] == s[j - 1];
      } else {
        assert ([x] + s)[j] == s[j - 1];
      }
    }
  }

  /** Insertion into a sequence already in `created_at` order, in front of the first later row. */
  function InsertByCreated(r: Row, sorted: seq<Row>): (out: seq<Row>)
    ensures multiset(out) == multiset(sorted) + multiset{r}
  {
    if sorted == [] then [r]
    else if r.createdAt <= sorted[0].createdAt then [r] + sorted
    else
      assert sorted == [sorted[0]] + sorted[1..];
      [sorted[0]] + InsertByCreated(r, sorted[1..])
  }

  lemma {:induction false} InsertKeepsSorted(r: Row, sorted: seq<Row>)
    requires SortedByCreated(sorted)
    ensures SortedByCreated(InsertByCreated(r, sorted))
  {
    if sorted == [] {
    } else if r.createdAt <= sorted[0].createdAt {
      ConsSorted(r, sorted);
    } else {
      var head, tail := sorted[0], sorted[1..];
      InsertKeepsSorted(r, tail);
      var rest := InsertByCreated(r, tail);
      forall y | y in rest
        ensures head.createdAt <= y.createdAt
      {
        assert y in multiset(rest);
        if y != r {
          var j :| 0 <= j < |tail| && tail[j] == y;
          assert sorted[j + 1] == y;
        }
      }
      ConsSorted(head, rest);
    }
  }

  /** The rows in ascending `created_at` order; equal timestamps keep their physical order. */
  function SortByCreated(rows: seq<Row>): (sorted: seq<Row>)
    ensures |sorted| == |rows|
    ensures SortedByCreated(sorted)
    ensures multiset(sorted) == multiset(rows)
  {
    if rows == [] then []
    else
      assert rows == [rows[0]] + rows[1..];
      var sorted := InsertByCreated(rows[0], SortByCreated(rows[1..]));
      InsertKeepsSorted(rows[0], SortByCreated(rows[1..]));
      assert |multiset(sorted)| == |sorted|;
      sorted
  }

  lemma SameElements(a: seq<Row>, b: seq<Row>)
    requires multiset(a) == multiset(b)
    ensures forall x :: x in a <==> x in b
    ensures IdSet(a) == IdSet(b)
  {
    assert forall x :: x in a <==> x in multiset(a);
    assert forall x :: x in b <==> x in multiset(b);
  }

  lemma {:induction false} InsertKeepsUniqueIds(r: Row, sorted: seq<Row>)
    requires UniqueIds(sorted) && r.id !in IdSet(sorted)
    ensures UniqueIds(InsertByCreated(r, sorted))
  {
    if sorted == [] {
    } else if r.createdAt <= sorted[0].createdAt {
      UniqueIdsOfPrepend(r, sorted);
    } else {
      var tail := sorted[1..];
      IdSetOfCons(sorted);
      HeadIdIsUnique(sorted);
      assert UniqueIds(tail);
      InsertKeepsUniqueIds(r, tail);
      IdSetOfInsert(r, tail);
      UniqueIdsOfPrepend(sorted[0], InsertByCreated(r, tail));
    }
  }

  /** A row whose id is new can be put in front without breaking the primary key. */
  lemma UniqueIdsOfPrepend(x: Row, s: seq<Row>)
    requires UniqueIds(s) && x.id !in IdSet(s)
    ensures UniqueIds([x] + s)
  {
    var t := [x] + s;
    forall i, j | 0 <= i < j < |t|
      ensures t[i].id != t[j].id
    {
      if i == 0 {
        assert t[j] == s[j - 1] && s[j - 1] in s;
      } else {
        assert t[i] == s[i - 1] && t[j] == s[j - 1];
      }
    }
  }

  /** Insertion adds exactly the inserted row's id. */
  lemma IdSetOfInsert(r: Row, s: seq<Row>)
    ensures IdSet(InsertByCreated(r, s)) == {r.id} + IdSet(s)
  {
    var t := [r] + s;
    assert multiset(t) == multiset(s) + multiset{r};
    SameElements(InsertByCreated(r, s), t);
    IdSetOfCons(t);
    assert t[1..] == s;
  }

  lemma {:induction false} SortKeepsUniqueIds(rows: seq<Row>)
    requires UniqueIds(rows)
    ensures UniqueIds(SortByCreated(rows))
  {
    if rows != [] {
      var tail := rows[1..];
      assert UniqueIds(tail);
      SortKeepsUniqueIds(tail);
      SameElements(SortByCreated(tail), tail);
      forall x | x in tail
        ensures x.id != rows[0].id
      {
        var j :| 0 <= j < |tail| && tail[j] == x;
        assert rows[j + 1] == x;
      }
      InsertKeepsUniqueIds(rows[0], SortByCreated(tail));
    }
  }

  /** A table already in `created_at` order sorts to itself. */
  lemma {:induction false} SortOfSorted(rows: seq<Row>)
    requires SortedByCreated(rows)
    ensures SortByCreated(rows) == rows
  {
    if rows != [] {
      SortedTail(rows);
      SortOfSorted(rows[1..]);
      InsertInFront(rows);
    }
  }

  /** A first row no later than the second stays in front. */
  lemma InsertInFront(rows: seq<Row>)
    requires rows != [] && (|rows| > 1 ==> rows[0].createdAt <= rows[1].createdAt)
    ensures InsertByCreated(rows[0], rows[1..]) == rows
  {
    assert [rows[0]] + rows[1..] == rows;
  }

  lemma SortedTail(rows: seq<Row>)
    requires SortedByCreated(rows) && rows != []
    ensures SortedByCreated(rows[1..])
    ensures |rows| > 1 ==> rows[0].createdAt <= rows[1].createdAt
  {
    var tail := rows[1..];
    forall i, j | 0 <= i < j < |tail|
      ensures tail[i].createdAt <= tail[j].createdAt
    {
      assert tail[i] == rows[i + 1] && tail[j] == rows[j + 1];
    }
  }

  // ---------------------------------------------------------------------
  // temp_ids and UPDATE ... JOIN temp_ids
  // ---------------------------------------------------------------------

  /**
   * The contents of `temp_ids` after inserting the old ids in order: old id
   * to new id, the new id being the AUTO_INCREMENT of `temp_ids` (1, 2, ...).
   */
  function Numbering(ids: seq<int>): map<int, int> {
    if ids == [] then map[] else Numbering(ids[..|ids| - 1])[ids[|ids| - 1] := |ids|]
  }

  ghost predicate Distinct(ids: seq<int>) {
    forall i, j :: 0 <= i < j < |ids| ==> ids[i] != ids[j]
  }

  lemma {:induction false} NumberingFacts(ids: seq<int>)
    requires Distinct(ids)
    ensures forall x :: x in Numbering(ids) <==> x in ids
    ensures forall k :: 0 <= k < |ids| ==> Numbering(ids)[ids[k]] == k + 1
  {
    if ids != [] {
      var init := ids[..|ids| - 1];
      NumberingFacts(init);
      forall x
        ensures x in Numbering(ids) <==> x in ids
      {
        assert x in ids <==> x in init || x == ids[|ids| - 1] by {
          assert ids == init + [ids[|ids| - 1]];
        }
      }
      forall k | 0 <= k < |ids|
        ensures Numbering(ids)[ids[k]] == k + 1
      {
        if k < |ids| - 1 {
          assert init[k] == ids[k];
        }
      }
    }
  }

  /** `UPDATE table JOIN temp_ids ON table.id = temp_ids.old_id SET table.id = temp_ids.new_id`. */
  function Remap(rows: seq<Row>, temp: map<int, int>): (r: seq<Row>)
    ensures |r| == |rows|
    ensures forall i :: 0 <= i < |rows| ==>
              r[i] == if rows[i].id in temp then rows[i].(id := temp[rows[i].id]) else rows[i]
  {
    seq(|rows|, i requires 0 <= i < |rows| =>
      if rows[i].id in temp then rows[i].(id := temp[rows[i].id]) else rows[i])
  }

  /** The table after the reindex steps of `delete_feedback`, applied to the surviving rows. */
  function Reindexed(rows: seq<Row>): (r: seq<Row>)
    ensures |r| == |rows|
    ensures forall i {:trigger r[i]} :: 0 <= i < |rows| ==> r[i] == rows[i].(id := r[i].id)
  {
    Remap(rows, Numbering(Ids(SortByCreated(rows))))
  }

  /**
   * Where a row lands in the reindex: its position p in creation order, and
   * its new id p + 1.
   */
  lemma NewIdPosition(rows: seq<Row>, i: int) returns (p: nat)
    requires UniqueIds(rows) && 0 <= i < |rows|
    ensures p < |rows| && SortByCreated(rows)[p] == rows[i]
    ensures |Reindexed(rows)| == |rows| && Reindexed(rows)[i].id == p + 1
  {
    var sorted := SortByCreated(rows);
    SortKeepsUniqueIds(rows);
    SameElements(sorted, rows);
    assert rows[i] in sorted;
    p :| 0 <= p < |sorted| && sorted[p] == rows[i];
    var ids := Ids(sorted);
    assert Distinct(ids);
    NumberingFacts(ids);
  }

  /** The reindex changes ids only: every row keeps its place and all its other columns. */
  lemma ReindexKeepsContent(rows: seq<Row>)
    requires UniqueIds(rows)
    ensures |Reindexed(rows)| == |rows|
    ensures forall i :: 0 <= i < |rows| ==> Reindexed(rows)[i] == rows[i].(id := Reindexed(rows)[i].id)
  {
  }

  /** The renumbering as the statements of `delete_feedback` perform it. */
  lemma ReindexedSteps(rows: seq<Row>)
    ensures Reindexed(rows) == Remap(rows, Numbering(Ids(SortByCreated(rows))))
  {
  }

  /**
   * The table after the delete and the renumbering keeps unique ids, all
   * below one more than the number of ids the `SELECT` returned.
   */
  lemma DeleteThenReindexValid(rows: seq<Row>, id: int)
    requires UniqueIds(rows)
    ensures var survivors := Without(rows, id);
            var after := Remap(survivors, Numbering(Ids(SortByCreated(survivors))));
            UniqueIds(after) && (forall r :: r in after ==> 1 <= r.id < |Ids(SortByCreated(survivors))| + 1)
  {
    WithoutKeepsUniqueIds(rows, id);
    ReindexIsDense(Without(rows, id));
  }

  /** After the reindex the N rows carry exactly the ids 1..N, each once. */
  lemma ReindexIsDense(rows: seq<Row>)
    requires UniqueIds(rows)
    ensures UniqueIds(Reindexed(rows))
    ensures IdsOneToN(Reindexed(rows))
  {
    var out := Reindexed(rows);
    ReindexKeepsUniqueIds(rows);
    forall k | 1 <= k <= |out|
      ensures k in IdSet(out)
    {
      ReindexReachesId(rows, k);
    }
    forall x | x in out
      ensures 1 <= x.id <= |out|
    {
      var i :| 0 <= i < |out| && out[i] == x;
      ReindexIdInRange(rows, i);
    }
  }

  /** Every id 1..N is given to some row: the one at position k - 1 in creation order. */
  lemma ReindexReachesId(rows: seq<Row>, k: int)
    requires UniqueIds(rows) && 1 <= k <= |rows|
    ensures k in IdSet(Reindexed(rows))
  {
    var i := SourceOfSorted(rows, k - 1);
    var p := NewIdPosition(rows, i);
    SortedPositionUnique(rows, p, k - 1);
    var out := Reindexed(rows);
    assert out[i] in out;
  }

  /** The row of the table that lands at position q of the creation order. */
  lemma SourceOfSorted(rows: seq<Row>, q: int) returns (i: int)
    requires 0 <= q < |rows|
    ensures 0 <= i < |rows| && rows[i] == SortByCreated(rows)[q]
  {
    var sorted := SortByCreated(rows);
    SameElements(sorted, rows);
    assert sorted[q] in rows;
    i :| 0 <= i < |rows| && rows[i] == sorted[q];
  }

  /** With unique ids, a row sits at one position only of the creation order. */
  lemma SortedPositionUnique(rows: seq<Row>, p: int, q: int)
    requires UniqueIds(rows) && 0 <= p < |rows| && 0 <= q < |rows|
    requires SortByCreated(rows)[p] == SortByCreated(rows)[q]
    ensures p == q
  {
    SortKeepsUniqueIds(rows);
  }

  /** Every new id lies in 1..N. */
  lemma ReindexIdInRange(rows: seq<Row>, i: int)
    requires UniqueIds(rows) && 0 <= i < |rows|
    ensures 1 <= Reindexed(rows)[i].id <= |rows|
  {
    var p := NewIdPosition(rows, i);
  }

  lemma ReindexKeepsUniqueIds(rows: seq<Row>)
    requires UniqueIds(rows)
    ensures UniqueIds(Reindexed(rows))
  {
    var out := Reindexed(rows);
    forall i, j | 0 <= i < j < |rows|
      ensures out[i].id != out[j].id
    {
      var p := NewIdPosition(rows, i);
      var q := NewIdPosition(rows, j);
      assert rows[i].id != rows[j].id;
    }
  }

  lemma SortedPositions(s: seq<Row>, p: int, q: int)
    requires SortedByCreated(s) && 0 <= p < |s| && 0 <= q < |s|
    requires s[p].createdAt < s[q].createdAt
    ensures p < q
  {
  }

  /** New ids follow creation time: a row created earlier gets a smaller id. */
  lemma ReindexFollowsCreation(rows: seq<Row>, i: int, j: int)
    requires UniqueIds(rows) && 0 <= i < |rows| && 0 <= j < |rows|
    requires rows[i].createdAt < rows[j].createdAt
    ensures Reindexed(rows)[i].id < Reindexed(rows)[j].id
  {
    var p := NewIdPosition(rows, i);
    var q := NewIdPosition(rows, j);
    SortedPositions(SortByCreated(rows), p, q);
  }

  /**
   * On a table whose rows are already in creation order, the row at
   * position p gets id p + 1.
   */
  lemma ReindexOfSorted(rows: seq<Row>)
    requires UniqueIds(rows) && SortedByCreated(rows)
    ensures forall p :: 0 <= p < |rows| ==> Reindexed(rows)[p] == rows[p].(id := p + 1)
  {
    SortOfSorted(rows);
    var ids := Ids(rows);
    assert Distinct(ids);
    NumberingFacts(ids);
  }

  /** Row p carries id p + 1: the state the reindex leaves behind, in creation order. */
  ghost predicate Numbered(rows: seq<Row>) {
    forall p :: 0 <= p < |rows| ==> rows[p].id == p + 1
  }

  lemma {:induction false} WithoutFromCounted(rows: seq<Row>, base: int, d: int)
    requires forall p :: 0 <= p < |rows| ==> rows[p].id == p + base
    requires base <= d < base + |rows|
    ensures Without(rows, d) == rows[..d - base] + rows[d - base + 1..]
  {
    if d != base {
      WithoutFromCounted(rows[1..], base + 1, d);
      assert rows[1..][..d - base - 1] == rows[1..d - base];
      assert rows[1..][d - base..] == rows[d - base + 1..];
      assert [rows[0]] + rows[1..d - base] == rows[..d - base];
    } else {
      WithoutAbsent(rows[1..], base + 1, d);
    }
  }

  lemma {:induction false} WithoutAbsent(rows: seq<Row>, base: int, d: int)
    requires forall p :: 0 <= p < |rows| ==> rows[p].id == p + base
    requires d < base
    ensures Without(rows, d) == rows
  {
    if rows != [] {
      WithoutAbsent(rows[1..], base + 1, d);
    }
  }

  lemma FindByIdAt(rows: seq<Row>, p: int, id: int)
    requires UniqueIds(rows) && 0 <= p < |rows| && rows[p].id == id
    ensures FindById(rows, id) == Some(rows[p])
  {
    var r := FindById(rows, id);
    assert rows[p].id in IdSet(rows);
    var q :| 0 <= q < |rows| && rows[q] == r.value;
  }

  lemma FindRowAt(rows: seq<Row>, p: int, r: Row)
    requires UniqueIds(rows) && 0 <= p < |rows| && rows[p] == r
    ensures FindById(rows, r.id) == Some(r)
  {
    FindByIdAt(rows, p, r.id);
  }

  /**
   * Deleting id d from a table numbered 1..N in creation order keeps the
   * rows before d as they are and moves every later row down by one id.
   */
  lemma DeleteShiftsLaterIds(rows: seq<Row>, d: int)
    requires Numbered(rows) && SortedByCreated(rows) && 1 <= d <= |rows|
    ensures |Reindexed(Without(rows, d))| == |rows| - 1
    ensures forall p :: 0 <= p < d - 1 ==> Reindexed(Without(rows, d))[p] == rows[p]
    ensures forall p :: d - 1 <= p < |rows| - 1 ==> Reindexed(Without(rows, d))[p] == rows[p + 1].(id := p + 1)
  {
    SurvivorsOfNumbered(rows, d);
    forall p | 0 <= p < d - 1
      ensures Reindexed(Without(rows, d))[p] == rows[p]
    {
      ShiftAt(rows, d, p);
    }
    forall p | d - 1 <= p < |rows| - 1
      ensures Reindexed(Without(rows, d))[p] == rows[p + 1].(id := p + 1)
    {
      ShiftAt(rows, d, p);
    }
  }

  lemma ShiftAt(rows: seq<Row>, d: int, p: int)
    requires Numbered(rows) && SortedByCreated(rows) && 1 <= d <= |rows| && 0 <= p < |rows| - 1
    ensures p < |Reindexed(Without(rows, d))| && Reindexed(Without(rows, d))[p] == if p < d - 1 then rows[p] else rows[p + 1].(id := p + 1)
    ensures UniqueIds(Reindexed(Without(rows, d)))
  {
    SurvivorsOfNumbered(rows, d);
    var survivors := Without(rows, d);
    ReindexKeepsUniqueIds(survivors);
    ReindexOfSortedAt(survivors, p);
    if p < d - 1 {
      assert survivors[p] == rows[p];
      assert rows[p].id == p + 1;
    } else {
      assert survivors[p] == rows[p + 1];
    }
  }

  lemma ReindexOfSortedAt(rows: seq<Row>, p: int)
    requires UniqueIds(rows) && SortedByCreated(rows) && 0 <= p < |rows|
    ensures Reindexed(rows)[p] == rows[p].(id := p + 1)
  {
    ReindexOfSorted(rows);
  }

  /** The rows that survive deleting id d from a table numbered 1..N in creation order. */
  lemma SurvivorsOfNumbered(rows: seq<Row>, d: int)
    requires Numbered(rows) && SortedByCreated(rows) && 1 <= d <= |rows|
    ensures |Without(rows, d)| == |rows| - 1
    ensures forall p {:trigger Without(rows, d)[p]} :: 0 <= p < |rows| - 1 ==> Without(rows, d)[p] == if p < d - 1 then rows[p] else rows[p + 1]
    ensures SortedByCreated(Without(rows, d)) && UniqueIds(Without(rows, d))
  {
    WithoutFromCounted(rows, 1, d);
    SpliceIndex(rows, d - 1);
    NumberedIdsAreUnique(rows);
    SpliceKeepsOrder(rows, d - 1);
  }

  lemma NumberedIdsAreUnique(rows: seq<Row>)
    requires Numbered(rows)
    ensures UniqueIds(rows)
  {
    forall i, j | 0 <= i < j < |rows|
      ensures rows[i].id != rows[j].id
    {
      assert rows[i].id == i + 1 && rows[j].id == j + 1;
    }
  }

  /** Cutting one row out keeps creation order and distinct ids. */
  lemma SpliceKeepsOrder(rows: seq<Row>, c: int)
    requires SortedByCreated(rows) && UniqueIds(rows) && 0 <= c < |rows|
    ensures SortedByCreated(rows[..c] + rows[c + 1..]) && UniqueIds(rows[..c] + rows[c + 1..])
  {
    var rest := rows[..c] + rows[c + 1..];
    SpliceIndex(rows, c);
    forall i, j | 0 <= i < j < |rest|
      ensures rest[i].createdAt <= rest[j].createdAt && rest[i].id != rest[j].id
    {
      var i', j' := if i < c then i else i + 1, if j < c then j else j + 1;
      assert rest[i] == rows[i'] && rest[j] == rows[j'];
    }
  }

  lemma SpliceIndex(rows: seq<Row>, c: int)
    requires 0 <= c < |rows|
    ensures |rows[..c] + rows[c + 1..]| == |rows| - 1
    ensures forall p :: 0 <= p < |rows| - 1 ==> (rows[..c] + rows[c + 1..])[p] == if p < c then rows[p] else rows[p + 1]
  {
  }

  /**
   * The per-row cache is not renumbered: after deleting id d, the entry
   * cached for a later id k still holds the row that had id k, while the
   * table's row with id k is now the next one (or there is none).
   */
  lemma StaleItemAfterDelete(rows: seq<Row>, d: int, k: int, entries: map<Address, CacheValue>)
    requires Numbered(rows) && SortedByCreated(rows) && 1 <= d < k <= |rows|
    requires Address(ItemGroup, ItemKey(k)) in entries && entries[Address(ItemGroup, ItemKey(k))] == CachedRow(rows[k - 1])
    ensures var cached := WithoutGroup(entries - {Address(ItemGroup, ItemKey(d))}, ListGroup);
            Address(ItemGroup, ItemKey(k)) in cached && cached[Address(ItemGroup, ItemKey(k))] == CachedRow(rows[k - 1])
    ensures k < |rows| ==> FindById(Reindexed(Without(rows, d)), k) == Some(rows[k].(id := k))
    ensures k == |rows| ==> FindById(Reindexed(Without(rows, d)), k) == None
  {
    ItemEntrySurvivesDelete(d, k, entries);
    FindAfterShift(rows, d, k);
  }

  /** Deleting one row's cache entry and flushing the list group leaves other rows' entries alone. */
  lemma ItemEntrySurvivesDelete<V>(d: int, k: int, entries: map<Address, V>)
    requires d != k && Address(ItemGroup, ItemKey(k)) in entries
    ensures var cached := WithoutGroup(entries - {Address(ItemGroup, ItemKey(d))}, ListGroup);
            Address(ItemGroup, ItemKey(k)) in cached && cached[Address(ItemGroup, ItemKey(k))] == entries[Address(ItemGroup, ItemKey(k))]
  {
    if ItemKey(k) == ItemKey(d) {
      ItemKeyInjective(k, d);
    }
    assert ItemGroup != ListGroup by {
      assert |ItemGroup| != |ListGroup|;
    }
  }

  /** What a read of id k finds after deleting an earlier id d from a table numbered in creation order. */
  lemma FindAfterShift(rows: seq<Row>, d: int, k: int)
    requires Numbered(rows) && SortedByCreated(rows) && 1 <= d < k <= |rows|
    ensures k < |rows| ==> FindById(Reindexed(Without(rows, d)), k) == Some(rows[k].(id := k))
    ensures k == |rows| ==> FindById(Reindexed(Without(rows, d)), k) == None
  {
    if k < |rows| {
      FindShiftedRow(rows, d, k);
    } else {
      FindPastEnd(rows, d);
    }
  }

  lemma ShiftedRowAt(rows: seq<Row>, d: int, k: int)
    requires Numbered(rows) && SortedByCreated(rows) && 1 <= d < k < |rows|
    ensures var after := Reindexed(Without(rows, d));
            UniqueIds(after) && k - 1 < |after| && after[k - 1] == rows[k].(id := k)
  {
    ShiftAt(rows, d, k - 1);
  }

  lemma FindShiftedRow(rows: seq<Row>, d: int, k: int)
    requires Numbered(rows) && SortedByCreated(rows) && 1 <= d < k < |rows|
    ensures FindById(Reindexed(Without(rows, d)), k) == Some(rows[k].(id := k))
  {
    ShiftedRowAt(rows, d, k);
    FindRowAt(Reindexed(Without(rows, d)), k - 1, rows[k].(id := k));
  }

  lemma FindPastEnd(rows: seq<Row>, d: int)
    requires Numbered(rows) && SortedByCreated(rows) && 1 <= d <= |rows|
    ensures FindById(Reindexed(Without(rows, d)), |rows|) == None
  {
    var after := Reindexed(Without(rows, d));
    SurvivorsOfNumbered(rows, d);
    ReindexIsDense(Without(rows, d));
    assert |after| == |rows| - 1;
    assert |rows| !in IdSet(after);
  }

  // ---------------------------------------------------------------------
  // The table
  // ---------------------------------------------------------------------

  /** A step of `delete_feedback`, in the order the code runs them. */
  datatype Step =
    | DeleteRow | SelectIds | CreateTempTable | FillTempTable | UpdateIds | DropTempTable
    | ResetAutoIncrement | Commit | InvalidateItem | FlushList

  /** Whether, and where, an exception interrupts `delete_feedback`. */
  datatype Fault = NoFault | ThrowsAt(step: Step)

  /** An exception up to and including COMMIT is rolled back; one after it is not. */
  predicate RolledBack(fault: Fault) {
    fault.ThrowsAt? && fault.step != InvalidateItem && fault.step != FlushList
  }

  /** A fault at none of the steps up to COMMIT is not rolled back. */
  lemma FaultAfterCommit(fault: Fault)
    requires fault != ThrowsAt(DeleteRow) && fault != ThrowsAt(SelectIds) && fault != ThrowsAt(CreateTempTable)
    requires fault != ThrowsAt(FillTempTable) && fault != ThrowsAt(UpdateIds) && fault != ThrowsAt(DropTempTable)
    requires fault != ThrowsAt(ResetAutoIncrement) && fault != ThrowsAt(Commit)
    ensures !RolledBack(fault)
  {
  }

  /**
   * The `foreach` that inserts every old id, in creation order, into
   * `temp_ids`, whose AUTO_INCREMENT numbers them 1, 2, ...
   */
  method FillTempIds(results: seq<int>) returns (tempIds: map<int, int>)
    ensures tempIds == Numbering(results)
  {
    tempIds := map[];
    var nextNewId := 1;
    for i := 0 to |results|
      invariant nextNewId == i + 1
      invariant tempIds == Numbering(results[..i])
    {
      assert results[..i + 1][..i] == results[..i];
      tempIds := tempIds[results[i] := nextNewId];
      nextNewId := nextNewId + 1;
    }
    assert results[..|results|] == results;
  }

  /** A run that got past every step had no fault. */
  lemma EveryStepPassed(fault: Fault)
    requires fault != ThrowsAt(DeleteRow) && fault != ThrowsAt(SelectIds) && fault != ThrowsAt(CreateTempTable)
    requires fault != ThrowsAt(FillTempTable) && fault != ThrowsAt(UpdateIds) && fault != ThrowsAt(DropTempTable)
    requires fault != ThrowsAt(ResetAutoIncrement) && fault != ThrowsAt(Commit)
    requires fault != ThrowsAt(InvalidateItem) && fault != ThrowsAt(FlushList)
    ensures fault == NoFault
  {
    if fault.ThrowsAt? {
      match fault.step
      case DeleteRow =>
      case SelectIds =>
      case CreateTempTable =>
      case FillTempTable =>
      case UpdateIds =>
      case DropTempTable =>
      case ResetAutoIncrement =>
      case Commit =>
      case InvalidateItem =>
      case FlushList =>
    }
  }

  class FeedbackTable {
    var rows: seq<Row>
    /** The table's AUTO_INCREMENT: the id the next insert receives. */
    var autoIncrement: int

    ghost predicate Valid()
      reads this
    {
      1 <= autoIncrement && UniqueIds(rows) && (forall r :: r in rows ==> 1 <= r.id < autoIncrement)
    }

    constructor ()
      ensures Valid() && rows == [] && autoIncrement == 1
    {
      rows := [];
      autoIncrement := 1;
    }

    /**
     * `insert_feedback`: sanitize the three values again, insert them with
     * `read_status = 0` under the next auto-increment id and, only when the
     * insert succeeded, drop the count and flush the list cache group.
     * `accepted` is the storage engine's answer; an id past the
     * `mediumint(9)` range is refused as well.
     */
    method InsertFeedback(name: string, email: string, message: string, san: Sanitizers,
                          now: int, accepted: bool, cache: Cache<CacheValue>)
      returns (ok: bool)
      requires Valid()
      modifies this, cache
      ensures Valid()
      ensures ok <==> accepted && old(autoIncrement) <= MaxId
      ensures ok ==> rows == old(rows) + [Row(old(autoIncrement), san.text(name), san.email(email),
                                              san.textarea(message), now, Some(0))]
      ensures ok ==> autoIncrement == old(autoIncrement) + 1
      ensures ok ==> cache.entries == WithoutGroup(old(cache.entries) - {Address(ListGroup, CountKey)}, ListGroup)
      ensures !ok ==> rows == old(rows) && autoIncrement == old(autoIncrement) && cache.entries == old(cache.entries)
    {
      var sanitizedName := san.text(name);
      var sanitizedEmail := san.email(email);
      var sanitizedMessage := san.textarea(message);
      ok := accepted && autoIncrement <= MaxId;
      if ok {
        var row := Row(autoIncrement, sanitizedName, sanitizedEmail, sanitizedMessage, now, Some(0));
        ghost var before := rows;
        rows := rows + [row];
        assert forall x :: x in rows ==> x in before || x == row;
        forall i, j | 0 <= i < j < |rows|
          ensures rows[i].id != rows[j].id
        {
          if j == |before| {
            assert rows[i] in before;
          }
        }
        autoIncrement := autoIncrement + 1;
        cache.Delete(ListGroup, CountKey);
        cache.FlushGroup(ListGroup);
      }
    }

    /**
     * `delete_feedback`: inside a transaction, delete the row, renumber the
     * survivors 1..N in creation order through `temp_ids`, and reset the
     * auto-increment to N+1; after COMMIT drop the deleted id's cache entry
     * and flush the list group. An exception at any step rolls the
     * transaction back (a no-op once committed) and the result is false.
     */
    method DeleteFeedback(feedbackId: int, fault: Fault, cache: Cache<CacheValue>) returns (ok: bool)
      requires Valid()
      modifies this, cache
      ensures Valid()
      ensures ok <==> fault == NoFault
      ensures RolledBack(fault) ==>
                rows == old(rows) && autoIncrement == old(autoIncrement) && cache.entries == old(cache.entries)
      ensures !RolledBack(fault) ==>
                rows == Reindexed(Without(old(rows), feedbackId)) && autoIncrement == |rows| + 1
      ensures fault == ThrowsAt(InvalidateItem) ==> cache.entries == old(cache.entries)
      ensures fault == ThrowsAt(FlushList) ==>
                cache.entries == old(cache.entries) - {Address(ItemGroup, ItemKey(feedbackId))}
      ensures fault == NoFault ==>
                cache.entries == WithoutGroup(old(cache.entries) - {Address(ItemGroup, ItemKey(feedbackId))}, ListGroup)
    {
      // START TRANSACTION
      var snapshot, snapshotAutoIncrement := rows, autoIncrement;
      var threw := RunUntilCommit(feedbackId, fault);
      if threw {
        // ROLLBACK
        rows, autoIncrement := snapshot, snapshotAutoIncrement;
        return false;
      }

      if fault == ThrowsAt(InvalidateItem) {
        return false;
      }
      cache.Delete(ItemGroup, ItemKey(feedbackId));

      if fault == ThrowsAt(FlushList) {
        return false;
      }
      cache.FlushGroup(ListGroup);
      EveryStepPassed(fault);
      ok := true;
    }

    /**
     * The statements of `delete_feedback` from the DELETE to the COMMIT.
     * When one of them throws, the table is left half-way and the caller
     * rolls it back.
     */
    method RunUntilCommit(feedbackId: int, fault: Fault) returns (threw: bool)
      requires Valid()
      modifies this
      ensures threw <==> RolledBack(fault)
      ensures !threw ==> Valid() && rows == Reindexed(Without(old(rows), feedbackId)) && autoIncrement == |rows| + 1
    {
      if fault == ThrowsAt(DeleteRow) {
        return true;
      }
      ghost var survivors := Without(rows, feedbackId);
      rows := Without(rows, feedbackId);

      if fault == ThrowsAt(SelectIds) {
        return true;
      }
      var results := Ids(SortByCreated(rows));

      if fault == ThrowsAt(CreateTempTable) || fault == ThrowsAt(FillTempTable) {
        return true;
      }
      var tempIds := FillTempIds(results);

      if fault == ThrowsAt(UpdateIds) {
        return true;
      }
      rows := Remap(rows, tempIds);

      if fault == ThrowsAt(DropTempTable) || fault == ThrowsAt(ResetAutoIncrement) || fault == ThrowsAt(Commit) {
        return true;
      }
      autoIncrement := |results| + 1;

      FaultAfterCommit(fault);
      ReindexedSteps(survivors);
      DeleteThenReindexValid(old(rows), feedbackId);
      threw := false;
    }

    /** `UPDATE table SET read_status = 1 WHERE id = %d`. */
    method MarkRead(id: int)
      requires Valid()
      modifies this
      ensures Valid() && autoIncrement == old(autoIncrement)
      ensures rows == MarkedRead(old(rows), id)
    {
      rows := MarkedRead(rows, id);
    }
  }

  /** The rows after `UPDATE ... SET read_status = 1 WHERE id = %d`. */
  function MarkedRead(rows: seq<Row>, id: int): (r: seq<Row>)
    ensures |r| == |rows|
    ensures forall i :: 0 <= i < |rows| ==>
              r[i] == if rows[i].id == id then rows[i].(readStatus := Some(1)) else rows[i]
  {
    seq(|rows|, i requires 0 <= i < |rows| =>
      if rows[i].id == id then rows[i].(readStatus := Some(1)) else rows[i])
  }

  /**
   * Marking a row read is a one-way, idempotent flip of that row's flag:
   * ids and every other column stay, other rows stay, and doing it twice is
   * doing it once.
   */
  lemma MarkedReadFlipsOnce(rows: seq<Row>, id: int)
    ensures MarkedRead(MarkedRead(rows, id), id) == MarkedRead(rows, id)
    ensures Ids(MarkedRead(rows, id)) == Ids(rows)
    ensures forall i :: 0 <= i < |rows| && rows[i].id == id ==> MarkedRead(rows, id)[i].readStatus == Some(1)
  {
  }

  /** A read of the marked table finds the row with its flag set. */
  lemma FindMarkedRead(rows: seq<Row>, id: int)
    requires FindById(rows, id).Some?
    ensures FindById(MarkedRead(rows, id), id) == Some(FindById(rows, id).value.(readStatus := Some(1)))
  {
    if rows[0].id != id {
      assert MarkedRead(rows, id)[1..] == MarkedRead(rows[1..], id);
      FindMarkedRead(rows[1..], id);
    }
  }
}
