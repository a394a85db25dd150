/** Keyset paging over rows in (created_at, id) order, as the task list and the knowledge search do it: following the
    cursors must agree with reading the whole filtered list. The filter is any predicate on rows. */
module Paging {
  import opened Common
  import opened Cursors
  import TextOrder

  datatype Row<T> = Row(stamp: seq<Byte>, id: seq<Byte>, body: T)

  predicate Before(stamp: string, id: string, stamp': string, id': string) {
    TextOrder.Less(stamp, stamp') || (stamp == stamp' && TextOrder.Less(id, id'))
  }

  predicate RowBefore<T>(a: Row<T>, b: Row<T>) {
    Before(a.stamp, a.id, b.stamp, b.id)
  }

  lemma BeforeTransitive<T>(a: Row<T>, b: Row<T>, c: Row<T>)
    requires RowBefore(a, b) && RowBefore(b, c)
    ensures RowBefore(a, c)
  {
    if TextOrder.Less(a.stamp, b.stamp) && TextOrder.Less(b.stamp, c.stamp) {
      TextOrder.Transitive(a.stamp, b.stamp, c.stamp);
    } else if a.stamp == b.stamp && b.stamp == c.stamp {
      TextOrder.Transitive(a.id, b.id, c.id);
    }
  }

  lemma BeforeIrreflexive<T>(a: Row<T>)
    ensures !RowBefore(a, a)
  {
    TextOrder.Irreflexive(a.stamp);
    TextOrder.Irreflexive(a.id);
  }

  lemma BeforeTotal<T>(a: Row<T>, b: Row<T>)
    ensures RowBefore(a, b) || RowBefore(b, a) || (a.stamp == b.stamp && a.id == b.id)
  {
    TextOrder.Trichotomy(a.stamp, b.stamp);
    TextOrder.Trichotomy(a.id, b.id);
  }

  // ----- the query -----

  function Limit(requested: int): (n: nat)
    ensures 1 <= n <= 100
  {
    if requested <= 0 || requested > 100 then 50 else requested
  }

  predicate Past<T>(r: Row<T>, after: Option<(seq<Byte>, seq<Byte>)>) {
    after.Some? ==> Before(after.value.0, after.value.1, r.stamp, r.id)
  }

  function Where<T>(table: seq<Row<T>>, keep: Row<T> -> bool): seq<Row<T>> {
    if table == [] then []
    else (if keep(table[0]) then [table[0]] else []) + Where(table[1..], keep)
  }

  function Insert<T>(r: Row<T>, rows: seq<Row<T>>): seq<Row<T>> {
    if rows == [] || RowBefore(r, rows[0]) then [r] + rows else [rows[0]] + Insert(r, rows[1..])
  }

  function OrderBy<T>(rows: seq<Row<T>>): seq<Row<T>> {
    if rows == [] then [] else Insert(rows[0], OrderBy(rows[1..]))
  }

  /** WHERE filter AND key > after ORDER BY created_at, id, without a limit. */
  function Select<T>(table: seq<Row<T>>, keep: Row<T> -> bool, after: Option<(seq<Byte>, seq<Byte>)>): seq<Row<T>> {
    OrderBy(Where(table, r => keep(r) && Past(r, after)))
  }

  /** Reading everything at once. */
  function Full<T>(table: seq<Row<T>>, keep: Row<T> -> bool): seq<Row<T>> {
    Select(table, keep, None)
  }

  // ----- sorting -----

  ghost predicate Ascending<T>(rows: seq<Row<T>>) {
    forall i, j | 0 <= i < j < |rows| :: RowBefore(rows[i], rows[j])
  }

  ghost predicate DistinctIds<T>(rows: seq<Row<T>>) {
    forall i, j | 0 <= i < j < |rows| :: rows[i].id != rows[j].id
  }

  lemma {:induction false} WhereHas<T>(table: seq<Row<T>>, keep: Row<T> -> bool, r: Row<T>)
    ensures r in Where(table, keep) <==> r in table && keep(r)
    ensures multiset(Where(table, keep)) <= multiset(table)
  {
    if table != [] {
      assert table == [table[0]] + table[1..];
      WhereHas(table[1..], keep, r);
    }
  }

  lemma {:induction false} WhereDistinct<T>(table: seq<Row<T>>, keep: Row<T> -> bool)
    requires DistinctIds(table)
    ensures DistinctIds(Where(table, keep))
  {
    if table != [] {
      WhereDistinct(table[1..], keep);
      var rest := Where(table[1..], keep);
      forall i | 0 <= i < |rest| ensures rest[i].id != table[0].id {
        WhereHas(table[1..], keep, rest[i]);
        assert rest[i] in rest && rest[i] in table[1..];
      }
    }
  }

  lemma {:induction false} InsertHas<T>(r: Row<T>, rows: seq<Row<T>>)
    ensures multiset(Insert(r, rows)) == multiset(rows) + multiset{r}
  {
    if !(rows == [] || RowBefore(r, rows[0])) {
      InsertHas(r, rows[1..]);
      assert rows == [rows[0]] + rows[1..];
    }
  }

  lemma {:induction false} InsertAscends<T>(r: Row<T>, rows: seq<Row<T>>)
    requires Ascending(rows) && forall i | 0 <= i < |rows| :: rows[i].id != r.id
    ensures Ascending(Insert(r, rows))
  {
    if rows == [] {
    } else if RowBefore(r, rows[0]) {
      forall i | 0 < i < |rows| ensures RowBefore(r, rows[i]) {
        BeforeTransitive(r, rows[0], rows[i]);
      }
    } else {
      BeforeTotal(r, rows[0]);
      var rest := Insert(r, rows[1..]);
      InsertAscends(r, rows[1..]);
      InsertHas(r, rows[1..]);
      forall i | 0 <= i < |rest| ensures RowBefore(rows[0], rest[i]) {
        assert rest[i] in multiset(rest);
        if rest[i] != r {
          assert rest[i] in rows[1..];
        }
      }
    }
  }

  lemma {:induction false} OrderByHas<T>(rows: seq<Row<T>>)
    ensures multiset(OrderBy(rows)) == multiset(rows)
  {
    if rows != [] {
      OrderByHas(rows[1..]);
      InsertHas(rows[0], OrderBy(rows[1..]));
      assert rows == [rows[0]] + rows[1..];
    }
  }

  lemma {:induction false} OrderByAscends<T>(rows: seq<Row<T>>)
    requires DistinctIds(rows)
    ensures Ascending(OrderBy(rows))
  {
    if rows != [] {
      var rest := OrderBy(rows[1..]);
      OrderByAscends(rows[1..]);
      OrderByHas(rows[1..]);
      forall i | 0 <= i < |rest| ensures rest[i].id != rows[0].id {
        assert rest[i] in multiset(rest);
        assert rest[i] in rows[1..];
      }
      InsertAscends(rows[0], rest);
    }
  }

  /** The full read is the filtered table, nothing lost and nothing doubled, in ascending order. */
  lemma FullIs<T>(table: seq<Row<T>>, keep: Row<T> -> bool)
    requires DistinctIds(table)
    ensures Ascending(Full(table, keep))
    ensures multiset(Full(table, keep)) <= multiset(table)
    ensures forall r :: r in Full(table, keep) <==> r in table && keep(r)
  {
    var all := r => keep(r) && Past(r, None);
    WhereDistinct(table, all);
    OrderByAscends(Where(table, all));
    OrderByHas(Where(table, all));
    forall r ensures r in Full(table, keep) <==> r in table && keep(r) {
      WhereHas(table, all, r);
      assert r in Full(table, keep) <==> r in multiset(Full(table, keep));
    }
    if table != [] {
      WhereHas(table, all, table[0]);
    }
  }

  lemma FullHas<T>(table: seq<Row<T>>, keep: Row<T> -> bool, r: Row<T>)
    ensures r in Full(table, keep) <==> r in table && keep(r)
  {
    var all := r => keep(r) && Past(r, None);
    OrderByHas(Where(table, all));
    WhereHas(table, all, r);
    assert r in Full(table, keep) <==> r in multiset(Full(table, keep));
    assert r in Where(table, all) <==> r in multiset(Where(table, all));
  }

  lemma SelectIs<T>(table: seq<Row<T>>, keep: Row<T> -> bool, after: Option<(seq<Byte>, seq<Byte>)>)
    requires DistinctIds(table)
    ensures Ascending(Select(table, keep, after))
    ensures forall r :: r in Select(table, keep, after) <==> r in table && keep(r) && Past(r, after)
  {
    var all := r => keep(r) && Past(r, after);
    WhereDistinct(table, all);
    OrderByAscends(Where(table, all));
    OrderByHas(Where(table, all));
    forall r ensures r in Select(table, keep, after) <==> r in table && keep(r) && Past(r, after) {
      WhereHas(table, all, r);
      assert r in Select(table, keep, after) <==> r in multiset(Select(table, keep, after));
    }
  }

  /** Two ascending lists of the same rows are the same list. */
  lemma {:induction false} AscendingUnique<T>(a: seq<Row<T>>, b: seq<Row<T>>)
    requires Ascending(a) && Ascending(b) && forall r :: r in a <==> r in b
    ensures a == b
  {
    assert a != [] ==> a[0] in b;
    assert b != [] ==> b[0] in a;
    if a != [] && b != [] {
      SameFirst(a, b);
      forall r ensures r in a[1..] <==> r in b[1..] {
        RestHas(a, r);
        RestHas(b, r);
      }
      AscendingUnique(a[1..], b[1..]);
      assert a == [a[0]] + a[1..] && b == [b[0]] + b[1..];
    }
  }

  lemma SameFirst<T>(a: seq<Row<T>>, b: seq<Row<T>>)
    requires a != [] && b != [] && Ascending(a) && Ascending(b) && a[0] in b && b[0] in a
    ensures a[0] == b[0]
  {
    if a[0] != b[0] {
      BeforeTransitive(a[0], b[0], a[0]);
      BeforeIrreflexive(a[0]);
    }
  }

  lemma RestHas<T>(rows: seq<Row<T>>, r: Row<T>)
    requires rows != [] && Ascending(rows)
    ensures r in rows[1..] <==> r in rows && r != rows[0]
  {
    BeforeIrreflexive(rows[0]);
    assert rows == [rows[0]] + rows[1..];
  }

  /** Resuming after the n-th row of the full read gives the rest of it. */
  lemma ResumeGivesRest<T>(table: seq<Row<T>>, keep: Row<T> -> bool, n: nat)
    requires DistinctIds(table) && 0 < n <= |Full(table, keep)|
    ensures var last := Full(table, keep)[n - 1];
            Select(table, keep, Some((last.stamp, last.id))) == Full(table, keep)[n..]
  {
    var full := Full(table, keep);
    var last := full[n - 1];
    var rest := Select(table, keep, Some((last.stamp, last.id)));
    SelectIs(table, keep, None);
    SelectIs(table, keep, Some((last.stamp, last.id)));
    forall r ensures r in rest <==> r in full[n..] {
      SuffixHas(full, n, r);
    }
    AscendingUnique(rest, full[n..]);
  }

  lemma SuffixHas<T>(rows: seq<Row<T>>, n: nat, r: Row<T>)
    requires Ascending(rows) && 0 < n <= |rows|
    ensures r in rows[n..] <==> r in rows && RowBefore(rows[n - 1], r)
  {
    if r in rows {
      var i :| 0 <= i < |rows| && rows[i] == r;
      if i >= n {
        assert rows[n..][i - n] == r;
      } else {
        if RowBefore(rows[n - 1], r) {
          if i < n - 1 {
            BeforeTransitive(rows[n - 1], r, rows[n - 1]);
          }
          BeforeIrreflexive(rows[n - 1]);
        }
      }
    }
  }

  // ----- one page -----

  function After(cursor: string): Option<(seq<Byte>, seq<Byte>)> {
    if cursor == "" then None else DecodeCursor(cursor)
  }

  function Taken<T>(rows: seq<T>, limit: nat): (page: seq<T>) {
    if |rows| > limit then rows[..limit] else rows
  }

  function Next<T>(rows: seq<Row<T>>, limit: nat): string
    requires limit > 0
  {
    if |rows| > limit then EncodeCursor(rows[limit - 1].stamp, rows[limit - 1].id) else ""
  }

  datatype Listing<T> = Page(rows: seq<Row<T>>, next: string) | BadCursor

  /** One row more than the limit is read to learn whether there is a next page. */
  method List<T>(table: seq<Row<T>>, keep: Row<T> -> bool, requested: int, cursor: string) returns (r: Listing<T>)
    ensures r == BadCursor <==> cursor != "" && DecodeCursor(cursor) == None
    ensures r.Page? ==> r.rows == Taken(Select(table, keep, After(cursor)), Limit(requested))
                        && r.next == Next(Select(table, keep, After(cursor)), Limit(requested))
    ensures var asked := if 1 <= requested <= 100 then requested else 50;
            r.Page? ==> |r.rows| <= asked && (|r.rows| < asked ==> r.next == "")
  {
    var limit := Limit(requested);
    if cursor != "" && DecodeCursor(cursor).None? {
      return BadCursor;
    }
    var rows := Fetch(Select(table, keep, After(cursor)), limit + 1);
    if |rows| > limit {
      var last := rows[limit - 1];
      return Page(rows[..limit], EncodeCursor(last.stamp, last.id));
    }
    return Page(rows, "");
  }

  /** Reads rows until the limit of the query. */
  method Fetch<T>(selected: seq<Row<T>>, most: nat) returns (rows: seq<Row<T>>)
    requires most > 0
    ensures rows == Taken(selected, most)
  {
    rows := [];
    for i := 0 to |selected|
      invariant i < most && rows == selected[..i]
    {
      rows := rows + [selected[i]];
      if |rows| == most {
        return;
      }
    }
  }

  /** The search filters by tag only after the page is cut, so a page may come out short, or empty, before the end. */
  method Search<T>(table: seq<Row<T>>, keep: Row<T> -> bool, tagged: Row<T> -> bool, requested: int, cursor: string)
    returns (r: Listing<T>)
    ensures r == BadCursor <==> cursor != "" && DecodeCursor(cursor) == None
    ensures r.Page? ==> r.rows == Where(Taken(Select(table, keep, After(cursor)), Limit(requested)), tagged)
                        && r.next == Next(Select(table, keep, After(cursor)), Limit(requested))
  {
    var page := List(table, keep, requested, cursor);
    if page.BadCursor? {
      return BadCursor;
    }
    var filtered: seq<Row<T>> := [];
    for i := 0 to |page.rows|
      invariant filtered == Where(page.rows[..i], tagged)
    {
      WhereSnoc(page.rows, i, tagged);
      if tagged(page.rows[i]) {
        filtered := filtered + [page.rows[i]];
      }
    }
    assert page.rows[..|page.rows|] == page.rows;
    return Page(filtered, page.next);
  }

  lemma WhereCons<T>(r: Row<T>, rows: seq<Row<T>>, keep: Row<T> -> bool)
    ensures Where([r] + rows, keep) == (if keep(r) then [r] else []) + Where(rows, keep)
  {
    assert ([r] + rows)[1..] == rows;
  }

  lemma {:induction false} WhereAppend<T>(a: seq<Row<T>>, b: seq<Row<T>>, keep: Row<T> -> bool)
    ensures Where(a + b, keep) == Where(a, keep) + Where(b, keep)
  {
    if a == [] {
      assert a + b == b;
    } else {
      var rest := a[1..];
      WhereAppend(rest, b, keep);
      assert a == [a[0]] + rest && a + b == [a[0]] + (rest + b);
      WhereCons(a[0], rest, keep);
      WhereCons(a[0], rest + b, keep);
    }
  }

  lemma WhereSnoc<T>(rows: seq<Row<T>>, i: nat, keep: Row<T> -> bool)
    requires i < |rows|
    ensures Where(rows[..i + 1], keep) == Where(rows[..i], keep) + if keep(rows[i]) then [rows[i]] else []
  {
    assert rows[..i + 1] == rows[..i] + [rows[i]];
    WhereAppend(rows[..i], [rows[i]], keep);
  }

  /** A page has as many rows as asked for, 50 when that is not between 1 and 100, or all that are left; the first page is
      the beginning of the full read. */
  lemma PageSizes<T>(table: seq<Row<T>>, keep: Row<T> -> bool, requested: int)
    ensures var full, asked := Full(table, keep), if 1 <= requested <= 100 then requested else 50;
            Taken(Select(table, keep, After("")), Limit(requested)) == if |full| <= asked then full else full[..asked]
  {
  }

  // ----- following the cursors -----

  /** `pages` is what a reader collects who starts at `cursor` and follows next_cursor until it is empty. */
  ghost predicate Follows<T>(table: seq<Row<T>>, keep: Row<T> -> bool, limit: nat, cursor: string, pages: seq<seq<Row<T>>>)
    requires limit > 0
    decreases |pages|
  {
    && (cursor == "" || DecodeCursor(cursor).Some?)
    && pages != []
    && var rows := Select(table, keep, After(cursor));
       && pages[0] == Taken(rows, limit)
       && if Next(rows, limit) == "" then |pages| == 1 else Follows(table, keep, limit, Next(rows, limit), pages[1..])
  }

  function Concat<T>(pages: seq<seq<T>>): seq<T> {
    if pages == [] then [] else pages[0] + Concat(pages[1..])
  }

  /** The cursor that stands after `n` rows of the full read. */
  function CursorAfter<T>(full: seq<Row<T>>, n: nat): string
    requires n <= |full|
  {
    if n == 0 then "" else EncodeCursor(full[n - 1].stamp, full[n - 1].id)
  }

  ghost predicate Stamped<T>(table: seq<Row<T>>) {
    forall r | r in table :: BAR !in r.stamp
  }

  lemma EncodedIsNotEmpty(stamp: seq<Byte>, id: seq<Byte>)
    ensures EncodeCursor(stamp, id) != ""
  {
  }

  lemma CursorStands<T>(table: seq<Row<T>>, keep: Row<T> -> bool, n: nat)
    requires DistinctIds(table) && Stamped(table) && 0 < n <= |Full(table, keep)|
    ensures var last := Full(table, keep)[n - 1];
            After(CursorAfter(Full(table, keep), n)) == Some((last.stamp, last.id)) && CursorAfter(Full(table, keep), n) != ""
  {
    var last := Full(table, keep)[n - 1];
    assert last in Full(table, keep);
    FullHas(table, keep, last);
    CursorRoundTrip(last.stamp, last.id);
    EncodedIsNotEmpty(last.stamp, last.id);
  }

  /** The page a reader gets after `n` rows of the full read, and the cursor that comes with it. */
  lemma PageAt<T>(table: seq<Row<T>>, keep: Row<T> -> bool, limit: nat, n: nat)
    requires DistinctIds(table) && Stamped(table) && limit > 0 && n <= |Full(table, keep)|
    ensures var full, cursor := Full(table, keep), CursorAfter(Full(table, keep), n);
            && (cursor == "" || DecodeCursor(cursor).Some?)
            && Select(table, keep, After(cursor)) == full[n..]
            && (|full| - n > limit ==> Next(full[n..], limit) == CursorAfter(full, n + limit) != "")
            && (|full| - n <= limit ==> Next(full[n..], limit) == "")
  {
    if n > 0 {
      CursorStands(table, keep, n);
      ResumeGivesRest(table, keep, n);
    }
    if |Full(table, keep)| - n > limit {
      CursorStands(table, keep, n + limit);
    }
  }

  /** The first page of a reader who stands after `n` rows, and what follows it. */
  lemma FollowsAt<T>(table: seq<Row<T>>, keep: Row<T> -> bool, limit: nat, n: nat, pages: seq<seq<Row<T>>>)
    requires DistinctIds(table) && Stamped(table) && limit > 0 && n <= |Full(table, keep)|
    ensures var full := Full(table, keep);
            Follows(table, keep, limit, CursorAfter(full, n), pages) <==>
              && pages != []
              && pages[0] == Taken(full[n..], limit)
              && if |full| - n <= limit then |pages| == 1
                 else Follows(table, keep, limit, CursorAfter(full, n + limit), pages[1..])
  {
    PageAt(table, keep, limit, n);
  }

  /** The first page from there on, and what follows it. */
  lemma FollowsFirst<T>(table: seq<Row<T>>, keep: Row<T> -> bool, limit: nat, n: nat, pages: seq<seq<Row<T>>>)
    requires DistinctIds(table) && Stamped(table) && limit > 0 && n <= |Full(table, keep)|
    requires Follows(table, keep, limit, CursorAfter(Full(table, keep), n), pages)
    ensures pages != [] && pages[0] == Taken(Full(table, keep)[n..], limit)
    ensures |Full(table, keep)| - n <= limit ==> |pages| == 1
    ensures |Full(table, keep)| - n > limit ==>
              Follows(table, keep, limit, CursorAfter(Full(table, keep), n + limit), pages[1..])
  {
    FollowsAt(table, keep, limit, n, pages);
  }

  /** From the n-th row on, the pages add up to the rest of the full read. */
  lemma {:induction false} FollowingRest<T>(table: seq<Row<T>>, keep: Row<T> -> bool, limit: nat, n: nat, pages: seq<seq<Row<T>>>)
    requires DistinctIds(table) && Stamped(table) && limit > 0 && n <= |Full(table, keep)|
    requires Follows(table, keep, limit, CursorAfter(Full(table, keep), n), pages)
    ensures AddsUp(Full(table, keep), limit, n, pages)
    decreases |pages|
  {
    var full := Full(table, keep);
    FollowsFirst(table, keep, limit, n, pages);
    if |full| - n > limit {
      FollowingRest(table, keep, limit, n + limit, pages[1..]);
    }
    OnePageAndRest(full, limit, n, pages);
  }

  lemma OnePageAndRest<T>(full: seq<T>, limit: nat, n: nat, pages: seq<seq<T>>)
    requires n <= |full| && pages != [] && pages[0] == Taken(full[n..], limit)
    requires if |full| - n > limit then AddsUp(full, limit, n + limit, pages[1..]) else |pages| == 1
    ensures AddsUp(full, limit, n, pages)
  {
    if |full| - n > limit {
      MorePages(full, limit, n, pages);
    } else {
      LastPage(full, limit, n, pages);
    }
  }

  predicate AddsUp<T(==)>(full: seq<T>, limit: nat, n: nat, pages: seq<seq<T>>) {
    n <= |full| && pages != [] && Concat(pages) == full[n..] && Fits(|full| - n, |pages|, limit)
  }

  lemma MorePages<T>(full: seq<T>, limit: nat, n: nat, pages: seq<seq<T>>)
    requires pages != [] && n + limit < |full| && pages[0] == Taken(full[n..], limit) && AddsUp(full, limit, n + limit, pages[1..])
    ensures AddsUp(full, limit, n, pages)
  {
    assert full[n..] == full[n..][..limit] + full[n + limit..];
    OnePageMore(|full| - n - limit, |pages[1..]|, limit);
  }

  lemma LastPage<T>(full: seq<T>, limit: nat, n: nat, pages: seq<seq<T>>)
    requires |pages| == 1 && n <= |full| <= n + limit && pages[0] == Taken(full[n..], limit)
    ensures AddsUp(full, limit, n, pages)
  {
    assert Concat(pages) == pages[0] + Concat([]);
  }

  /** `pages` pages of `limit` rows hold `rows` rows, and fewer would not: 1 when there are none. */
  predicate Fits(rows: int, pages: nat, limit: nat) {
    rows <= pages * limit && (pages == 1 || (pages - 1) * limit < rows)
  }

  lemma OnePageMore(rows: nat, pages: nat, limit: nat)
    requires Fits(rows, pages, limit) && pages > 0 && rows > 0
    ensures Fits(rows + limit, pages + 1, limit)
  {
    assert (pages + 1) * limit == pages * limit + limit;
    assert pages * limit == (pages - 1) * limit + limit;
  }

  /** Whoever follows the cursors reads the whole filtered list, in order, without gaps or repeats, in as many pages
      as its length needs (one when it is empty). */
  lemma FollowingReadsAll<T>(table: seq<Row<T>>, keep: Row<T> -> bool, limit: nat, pages: seq<seq<Row<T>>>)
    requires DistinctIds(table) && Stamped(table) && limit > 0
    requires Follows(table, keep, limit, "", pages)
    ensures Concat(pages) == Full(table, keep)
    ensures Fits(|Full(table, keep)|, |pages|, limit)
  {
    FollowingRest(table, keep, limit, 0, pages);
  }

  /** Following the cursors ends. */
  lemma {:induction false} FollowingEnds<T>(table: seq<Row<T>>, keep: Row<T> -> bool, limit: nat, n: nat)
    returns (pages: seq<seq<Row<T>>>)
    requires DistinctIds(table) && Stamped(table) && limit > 0 && n <= |Full(table, keep)|
    ensures Follows(table, keep, limit, CursorAfter(Full(table, keep), n), pages)
    decreases |Full(table, keep)| - n
  {
    var full := Full(table, keep);
    if |full| - n > limit {
      var rest := FollowingEnds(table, keep, limit, n + limit);
      pages := [Taken(full[n..], limit)] + rest;
      assert pages[1..] == rest;
    } else {
      pages := [Taken(full[n..], limit)];
    }
    FollowsAt(table, keep, limit, n, pages);
  }

  function FilterPages<T>(pages: seq<seq<Row<T>>>, tagged: Row<T> -> bool): seq<seq<Row<T>>> {
    if pages == [] then [] else [Where(pages[0], tagged)] + FilterPages(pages[1..], tagged)
  }

  lemma {:induction false} FilterConcat<T>(pages: seq<seq<Row<T>>>, tagged: Row<T> -> bool)
    ensures Concat(FilterPages(pages, tagged)) == Where(Concat(pages), tagged)
  {
    if pages != [] {
      FilterConcat(pages[1..], tagged);
      WhereAppend(pages[0], Concat(pages[1..]), tagged);
      assert FilterPages(pages, tagged)[1..] == FilterPages(pages[1..], tagged);
    }
  }

  /** A search by tag, followed to the end, gives the tag filter of the full list. */
  lemma SearchReadsAllTagged<T>(table: seq<Row<T>>, keep: Row<T> -> bool, tagged: Row<T> -> bool, limit: nat,
                                pages: seq<seq<Row<T>>>)
    requires DistinctIds(table) && Stamped(table) && limit > 0
    requires Follows(table, keep, limit, "", pages)
    ensures Concat(FilterPages(pages, tagged)) == Where(Full(table, keep), tagged)
  {
    FollowingReadsAll(table, keep, limit, pages);
    FilterConcat(pages, tagged);
  }
}
