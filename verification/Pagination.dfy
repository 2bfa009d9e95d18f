/**
 * Keyset pagination of the event search: pages of (startTime, id) order, each
 * carrying a cursor to the next. The table holds the rows that pass the other
 * filters, which do not change from page to page.
 */
module Pagination {
  import opened Common

  /** Times are milliseconds since the epoch. */
  datatype Row = Row(start: int, id: string)

  // ------------------------------------------------------------------- order

  predicate TextLess(a: string, b: string) {
    b != "" && (a == "" || a[0] < b[0] || (a[0] == b[0] && TextLess(a[1..], b[1..])))
  }

  /** (startTime, id) order: what the query sorts by, and what the cursor filter compares. */
  predicate Less(a: Row, b: Row) {
    a.start < b.start || (a.start == b.start && TextLess(a.id, b.id))
  }

  lemma {:induction false} TextLessIsTotal(a: string, b: string)
    ensures a == b || TextLess(a, b) || TextLess(b, a)
    ensures !(TextLess(a, b) && TextLess(b, a)) && !TextLess(a, a)
    decreases |a| + |b|
  {
    if a != "" && b != "" && a[0] == b[0] {
      TextLessIsTotal(a[1..], b[1..]);
      assert a == [a[0]] + a[1..] && b == [b[0]] + b[1..];
    }
    NotBelowItself(a);
  }

  lemma {:induction false} NotBelowItself(a: string)
    ensures !TextLess(a, a)
  {
    if a != "" {
      NotBelowItself(a[1..]);
    }
  }

  lemma {:induction false} TextLessIsTransitive(a: string, b: string, c: string)
    requires TextLess(a, b) && TextLess(b, c)
    ensures TextLess(a, c)
  {
    if a != "" && a[0] == b[0] && b[0] == c[0] {
      TextLessIsTransitive(a[1..], b[1..], c[1..]);
    }
  }

  lemma LessIsTotal(a: Row, b: Row)
    ensures a == b || Less(a, b) || Less(b, a)
    ensures !(Less(a, b) && Less(b, a)) && !Less(a, a)
  {
    TextLessIsTotal(a.id, b.id);
    TextLessIsTotal(a.id, a.id);
  }

  lemma LessIsTransitive(a: Row, b: Row, c: Row)
    requires Less(a, b) && Less(b, c)
    ensures Less(a, c)
  {
    if a.start == b.start && b.start == c.start {
      TextLessIsTransitive(a.id, b.id, c.id);
    }
  }

  // ------------------------------------------------------------------ cursors

  /** The library calls a cursor goes through: ISO time text and base64url. */
  datatype Codec = Codec(
    iso: int -> string, parseIso: string -> Option<int>,
    base64: string -> string, unBase64: string -> Option<string>)

  ghost predicate Faithful(codec: Codec) {
    && (forall t :: codec.parseIso(codec.iso(t)) == Some(t))
    && (forall t, k :: 0 <= k < |codec.iso(t)| ==> codec.iso(t)[k] != '|')
    && (forall s :: codec.unBase64(codec.base64(s)) == Some(s))
    && (forall s :: codec.base64(s) == "" ==> s == "")
  }

  /** The text before the first bar. */
  function Head(s: string): string {
    if s == "" || s[0] == '|' then "" else [s[0]] + Head(s[1..])
  }

  /** Split at "|": the first two parts, the second None when there is no bar. */
  function FirstTwo(s: string): (string, Option<string>) {
    var first := Head(s);
    HeadIsShort(s);
    if |first| < |s| then (first, Some(Head(s[|first| + 1..]))) else (first, None)
  }

  lemma {:induction false} HeadIsShort(s: string)
    ensures |Head(s)| <= |s|
  {
    if s != "" && s[0] != '|' {
      HeadIsShort(s[1..]);
    }
  }

  lemma {:induction false} HeadStopsAtBar(a: string, rest: string)
    requires forall k :: 0 <= k < |a| ==> a[k] != '|'
    ensures Head(a + "|" + rest) == a && Head(a) == a
  {
    if a != "" {
      HeadStopsAtBar(a[1..], rest);
      assert (a + "|" + rest)[1..] == a[1..] + "|" + rest;
    }
  }

  lemma {:induction false} HeadHasNoBar(s: string)
    ensures forall k :: 0 <= k < |Head(s)| ==> Head(s)[k] != '|'
  {
    if s != "" && s[0] != '|' {
      HeadHasNoBar(s[1..]);
    }
  }

  function EncodeCursor(codec: Codec, row: Row): string {
    codec.base64(codec.iso(row.start) + "|" + row.id)
  }

  /** Anything malformed falls back to the first page. */
  function DecodeCursor(codec: Codec, cursor: Option<string>): Option<Row> {
    if cursor.None? || cursor.value == "" then None
    else
      match codec.unBase64(cursor.value)
      case None => None
      case Some(text) =>
        var (iso, id) := FirstTwo(text);
        if id.None? || id.value == "" || codec.parseIso(iso).None? then None
        else Some(Row(codec.parseIso(iso).value, id.value))
  }

  predicate PlainId(id: string) {
    id != "" && forall k :: 0 <= k < |id| ==> id[k] != '|'
  }

  /** Decoding undoes encoding exactly for nonempty ids without a bar. */
  lemma DecodeUndoesEncode(codec: Codec, row: Row)
    requires Faithful(codec)
    ensures DecodeCursor(codec, Some(EncodeCursor(codec, row))) == Some(row) <==> PlainId(row.id)
  {
    var iso := codec.iso(row.start);
    var text := iso + "|" + row.id;
    HeadStopsAtBar(iso, row.id);
    assert text[|iso| + 1..] == row.id;
    HeadHasNoBar(row.id);
    if PlainId(row.id) {
      HeadStopsAtBar(row.id, "");
    }
  }

  // -------------------------------------------------------------------- search

  function Insert(sorted: seq<Row>, row: Row): seq<Row> {
    if sorted == [] || !Less(row, sorted[|sorted| - 1]) then sorted + [row]
    else Insert(sorted[..|sorted| - 1], row) + [sorted[|sorted| - 1]]
  }

  /** ORDER BY startTime, id. */
  function Sorted(rows: seq<Row>): seq<Row> {
    if rows == [] then [] else Insert(Sorted(rows[..|rows| - 1]), rows[|rows| - 1])
  }

  predicate Beyond(cursor: Option<Row>, row: Row) {
    cursor.Some? ==> row.start > cursor.value.start || (row.start == cursor.value.start && TextLess(cursor.value.id, row.id))
  }

  /** WHERE the row lies beyond the cursor. */
  function RowsBeyond(rows: seq<Row>, cursor: Option<Row>): seq<Row> {
    if rows == [] then []
    else
      var last := rows[|rows| - 1];
      RowsBeyond(rows[..|rows| - 1], cursor) + if Beyond(cursor, last) then [last] else []
  }

  datatype Page = Page(data: seq<Row>, nextCursor: Option<string>)

  function Take(rows: seq<Row>, n: nat): seq<Row> {
    if |rows| <= n then rows else rows[..n]
  }

  /** One row more than the limit is fetched to learn whether a next page exists. */
  function Search(codec: Codec, table: seq<Row>, limit: nat, cursor: Option<string>): Page {
    var rows := Take(Sorted(RowsBeyond(table, DecodeCursor(codec, cursor))), limit + 1);
    var hasMore := |rows| > limit;
    var data := if hasMore then rows[..limit] else rows;
    Page(data, if hasMore && data != [] then Some(EncodeCursor(codec, data[|data| - 1])) else None)
  }

  /** What a client has after `n` pages: all rows so far, and the cursor to go on with, None at the end. */
  datatype Browsing = Browsing(rows: seq<Row>, next: Option<string>)

  function Browse(codec: Codec, table: seq<Row>, limit: nat, n: nat): Browsing
    requires n > 0
  {
    if n == 1 then
      var page := Search(codec, table, limit, None);
      Browsing(page.data, page.nextCursor)
    else
      var before := Browse(codec, table, limit, n - 1);
      if before.next.None? then before
      else
        var page := Search(codec, table, limit, before.next);
        Browsing(before.rows + page.data, page.nextCursor)
  }

  // ------------------------------------------------------------------ promises

  predicate StrictlySorted(rows: seq<Row>) {
    forall i, j :: 0 <= i < j < |rows| ==> Less(rows[i], rows[j])
  }

  predicate DistinctRows(rows: seq<Row>) {
    forall i, j :: 0 <= i < j < |rows| ==> rows[i] != rows[j]
  }

  lemma {:induction false} InsertPermutes(sorted: seq<Row>, row: Row)
    ensures multiset(Insert(sorted, row)) == multiset(sorted) + multiset{row}
  {
    if sorted != [] && Less(row, sorted[|sorted| - 1]) {
      InsertPermutes(sorted[..|sorted| - 1], row);
      assert sorted == sorted[..|sorted| - 1] + [sorted[|sorted| - 1]];
    }
  }

  lemma {:induction false} InsertKeepsSorted(sorted: seq<Row>, row: Row)
    requires StrictlySorted(sorted) && row !in sorted
    ensures StrictlySorted(Insert(sorted, row))
  {
    if sorted != [] {
      var last := sorted[|sorted| - 1];
      var front := sorted[..|sorted| - 1];
      LessIsTotal(row, last);
      if Less(row, last) {
        InsertKeepsSorted(front, row);
        InsertPermutes(front, row);
        var inserted := Insert(front, row);
        forall k | 0 <= k < |inserted|
          ensures Less(inserted[k], last)
        {
          assert inserted[k] in multiset(inserted);
          assert inserted[k] in front || inserted[k] == row;
        }
      } else {
        forall k | 0 <= k < |sorted|
          ensures Less(sorted[k], row)
        {
          if k < |front| {
            LessIsTransitive(sorted[k], last, row);
          }
        }
      }
    }
  }

  /** The table in order is a strictly sorted permutation of it, even with equal start times. */
  lemma {:induction false} SortedIsTheOrder(rows: seq<Row>)
    requires DistinctRows(rows)
    ensures multiset(Sorted(rows)) == multiset(rows) && StrictlySorted(Sorted(rows))
  {
    if rows != [] {
      var front := rows[..|rows| - 1];
      var last := rows[|rows| - 1];
      SortedIsTheOrder(front);
      InsertPermutes(Sorted(front), last);
      assert rows == front + [last];
      assert last !in Sorted(front) by {
        assert last !in front;
        assert last !in multiset(front);
      }
      InsertKeepsSorted(Sorted(front), last);
    }
  }

  lemma {:induction false} BeyondStep(rows: seq<Row>, row: Row, cursor: Option<Row>)
    ensures RowsBeyond(rows + [row], cursor) == RowsBeyond(rows, cursor) + if Beyond(cursor, row) then [row] else []
  {
    assert (rows + [row])[..|rows|] == rows;
  }

  lemma InsertStep(front: seq<Row>, last: Row, row: Row)
    requires Less(row, last)
    ensures Insert(front + [last], row) == Insert(front, row) + [last]
  {
    assert (front + [last])[..|front|] == front;
  }

  lemma BeyondIsUpward(cursor: Option<Row>, row: Row, last: Row)
    requires Beyond(cursor, row) && Less(row, last)
    ensures Beyond(cursor, last)
  {
    if cursor.Some? {
      LessIsTransitive(cursor.value, row, last);
    }
  }

  /** Filtering by the cursor and inserting commute. */
  lemma {:induction false} InsertThenFilter(sorted: seq<Row>, row: Row, cursor: Option<Row>)
    requires StrictlySorted(sorted)
    ensures RowsBeyond(Insert(sorted, row), cursor)
            == if Beyond(cursor, row) then Insert(RowsBeyond(sorted, cursor), row) else RowsBeyond(sorted, cursor)
  {
    if sorted == [] {
      BeyondStep([], row, cursor);
    } else {
      var last := sorted[|sorted| - 1];
      var front := sorted[..|sorted| - 1];
      assert sorted == front + [last];
      if Less(row, last) {
        InsertThenFilter(front, row, cursor);
        InsertStep(front, last, row);
        InsertStep(RowsBeyond(front, cursor), last, row);
        BeyondStep(Insert(front, row), last, cursor);
        BeyondStep(front, last, cursor);
        if Beyond(cursor, row) {
          BeyondIsUpward(cursor, row, last);
        }
        hide Insert;
        hide RowsBeyond;
        hide Less;
        hide Beyond;
      } else {
        BeyondStep(sorted, row, cursor);
        FilteredEndsBelow(sorted, row, cursor);
        hide RowsBeyond;
        hide Less;
        hide Beyond;
      }
    }
  }

  lemma {:induction false} FilteredEndsBelow(sorted: seq<Row>, row: Row, cursor: Option<Row>)
    requires StrictlySorted(sorted) && sorted != [] && !Less(row, sorted[|sorted| - 1])
    ensures var kept := RowsBeyond(sorted, cursor); kept == [] || !Less(row, kept[|kept| - 1])
  {
    var last := sorted[|sorted| - 1];
    var front := sorted[..|sorted| - 1];
    if !Beyond(cursor, last) && front != [] {
      if Less(row, front[|front| - 1]) {
        LessIsTransitive(row, front[|front| - 1], last);
      }
      FilteredEndsBelow(front, row, cursor);
    }
  }

  lemma {:induction false} FilterThenSort(rows: seq<Row>, cursor: Option<Row>)
    requires DistinctRows(rows)
    ensures Sorted(RowsBeyond(rows, cursor)) == RowsBeyond(Sorted(rows), cursor)
  {
    if rows != [] {
      var front := rows[..|rows| - 1];
      var last := rows[|rows| - 1];
      FilterThenSort(front, cursor);
      SortedIsTheOrder(front);
      InsertThenFilter(Sorted(front), last, cursor);
      var kept := RowsBeyond(front, cursor);
      if Beyond(cursor, last) {
        assert (kept + [last])[..|kept|] == kept;
      } else {
        assert RowsBeyond(rows, cursor) == kept;
      }
    }
  }

  /** Beyond the k-th row of a sorted table lie exactly the rows after it. */
  lemma {:induction false} BeyondIsSuffix(sorted: seq<Row>, k: nat)
    requires StrictlySorted(sorted) && k < |sorted|
    ensures RowsBeyond(sorted, Some(sorted[k])) == sorted[k + 1..]
  {
    var last := |sorted| - 1;
    if k == last {
      LessIsTotal(sorted[k], sorted[k]);
      NothingBeyondLast(sorted[..last], sorted[k]);
    } else {
      BeyondIsSuffix(sorted[..last], k);
      assert Less(sorted[k], sorted[last]);
      assert sorted[k + 1..] == sorted[..last][k + 1..] + [sorted[last]];
    }
  }

  lemma {:induction false} NothingBeyondLast(rows: seq<Row>, cursor: Row)
    requires forall k :: 0 <= k < |rows| ==> Less(rows[k], cursor)
    ensures RowsBeyond(rows, Some(cursor)) == []
  {
    if rows != [] {
      LessIsTotal(rows[|rows| - 1], cursor);
      NothingBeyondLast(rows[..|rows| - 1], cursor);
    }
  }

  lemma {:induction false} EverythingBeyondNone(rows: seq<Row>)
    ensures RowsBeyond(rows, None) == rows
  {
    if rows != [] {
      EverythingBeyondNone(rows[..|rows| - 1]);
    }
  }

  /** A page cut from the rest of an ordered table. */
  lemma CutPage(codec: Codec, order: seq<Row>, limit: nat, from: nat)
    requires limit > 0 && from <= |order|
    ensures var rows := Take(order[from..], limit + 1);
            var data := if |rows| > limit then rows[..limit] else rows;
            var to := Min(from + limit, |order|);
            && (|rows| > limit <==> from + limit < |order|)
            && data == order[from..to]
            && (data != [] ==> data[|data| - 1] == order[to - 1])
  {
  }

  /** A page that starts after the first `from` rows of the order. */
  lemma PageFrom(codec: Codec, table: seq<Row>, order: seq<Row>, limit: nat, cursor: Option<string>, from: nat)
    requires limit > 0 && DistinctRows(table) && order == Sorted(table) && from <= |order|
    requires RowsBeyond(order, DecodeCursor(codec, cursor)) == order[from..]
    ensures var page := Search(codec, table, limit, cursor);
            var to := Min(from + limit, |order|);
            && page.data == order[from..to]
            && page.nextCursor == if from + limit < |order| then Some(EncodeCursor(codec, order[to - 1])) else None
  {
    hide Sorted;
    hide RowsBeyond;
    hide DecodeCursor;
    hide EncodeCursor;
    hide DistinctRows;
    hide Take;
    FilterThenSort(table, DecodeCursor(codec, cursor));
    CutPage(codec, order, limit, from);
  }

  lemma SortedHasAll(table: seq<Row>)
    requires DistinctRows(table)
    ensures |Sorted(table)| == |table| && forall row :: row in Sorted(table) ==> row in table
  {
    SortedIsTheOrder(table);
    assert |multiset(Sorted(table))| == |multiset(table)|;
    forall row | row in Sorted(table)
      ensures row in table
    {
      assert row in multiset(Sorted(table));
    }
  }

  /** From one page's cursor to the next page. */
  lemma NextPage(codec: Codec, table: seq<Row>, order: seq<Row>, limit: nat, from: nat)
    requires Faithful(codec) && limit > 0 && DistinctRows(table) && order == Sorted(table) && 0 < from < |order|
    requires forall k :: 0 <= k < |table| ==> PlainId(table[k].id)
    ensures var page := Search(codec, table, limit, Some(EncodeCursor(codec, order[from - 1])));
            var to := Min(from + limit, |order|);
            && page.data == order[from..to]
            && page.nextCursor == if from + limit < |order| then Some(EncodeCursor(codec, order[to - 1])) else None
  {
    hide Sorted;
    hide EncodeCursor;
    hide DecodeCursor;
    hide RowsBeyond;
    hide Search;
    hide Faithful;
    hide DistinctRows;
    SortedHasAll(table);
    SortedIsTheOrder(table);
    var last := order[from - 1];
    assert last in order && PlainId(last.id);
    hide PlainId;
    DecodeUndoesEncode(codec, last);
    BeyondIsSuffix(order, from - 1);
    PageFrom(codec, table, order, limit, Some(EncodeCursor(codec, last)), from);
  }

  /** All that `seen` rows of browsing amount to. */
  ghost predicate Shown(codec: Codec, order: seq<Row>, seen: nat, b: Browsing) {
    && b.rows == order[..Min(seen, |order|)]
    && (seen < |order| && seen > 0 ==> b.next == Some(EncodeCursor(codec, order[seen - 1])))
    && (seen >= |order| ==> b.next == None)
  }

  lemma FirstPage(codec: Codec, table: seq<Row>, limit: nat)
    requires limit > 0 && DistinctRows(table)
    ensures Shown(codec, Sorted(table), limit, Browse(codec, table, limit, 1))
  {
    var order := Sorted(table);
    EverythingBeyondNone(order);
    assert order[0..] == order;
    hide Sorted;
    hide RowsBeyond;
    hide Search;
    hide EncodeCursor;
    PageFrom(codec, table, order, limit, None, 0);
  }

  lemma OneMorePage(codec: Codec, table: seq<Row>, limit: nat, n: nat, seen: nat)
    requires Faithful(codec) && limit > 0 && n > 1 && seen > 0 && DistinctRows(table)
    requires forall k :: 0 <= k < |table| ==> PlainId(table[k].id)
    requires Shown(codec, Sorted(table), seen, Browse(codec, table, limit, n - 1))
    ensures Shown(codec, Sorted(table), seen + limit, Browse(codec, table, limit, n))
  {
    hide Sorted;
    hide Search;
    hide EncodeCursor;
    hide PlainId;
    hide Faithful;
    hide DistinctRows;
    var order := Sorted(table);
    if seen < |order| {
      NextPage(codec, table, order, limit, seen);
      assert order[..seen] + order[seen..Min(seen + limit, |order|)] == order[..Min(seen + limit, |order|)];
    }
  }

  /** Room for rows on `n` full pages. */
  function RowsOn(n: nat, limit: nat): nat {
    n * limit
  }

  /**
   * Following the cursors is complete: `n` pages hold exactly the first n * limit rows
   * of the order, none skipped and none repeated, and the browsing ends when and only
   * when all rows have been shown.
   */
  lemma {:induction false} PagesAreComplete(codec: Codec, table: seq<Row>, limit: nat, n: nat)
    requires Faithful(codec) && limit > 0 && n > 0 && DistinctRows(table)
    requires forall k :: 0 <= k < |table| ==> PlainId(table[k].id)
    ensures Shown(codec, Sorted(table), RowsOn(n, limit), Browse(codec, table, limit, n))
    ensures |Sorted(table)| == |table|
  {
    SortedHasAll(table);
    hide *;
    if n == 1 {
      OneLimit(limit);
      FirstPage(codec, table, limit);
    } else {
      PagesAreComplete(codec, table, limit, n - 1);
      OneMoreLimit(n, limit);
      OneMorePage(codec, table, limit, n, RowsOn(n - 1, limit));
    }
  }

  lemma OneLimit(limit: nat)
    ensures RowsOn(1, limit) == limit
  {
  }

  lemma OneMoreLimit(n: nat, limit: nat)
    requires n > 1 && limit > 0
    ensures RowsOn(n - 1, limit) + limit == RowsOn(n, limit) && RowsOn(n - 1, limit) > 0
  {
  }
}
