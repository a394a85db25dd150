/** Following the cursors while rows are being added: what a reader gets then. */
module PagingRuns {
  import opened Common
  import opened Cursors
  import opened Paging
  import TextOrder

  datatype Event<T> = Add(row: Row<T>) | Turn(rows: seq<Row<T>>, next: string)

  /** `late` collects the matching rows that were added behind the reader's back. */
  datatype World<T> = World(table: seq<Row<T>>, cursor: string, finished: bool, delivered: seq<Row<T>>, late: seq<Row<T>>)

  /** The reader is past this place of the order. */
  predicate Passed<T>(w: World<T>, r: Row<T>) {
    w.finished || (w.cursor != "" && !Past(r, After(w.cursor)))
  }

  /** A page is what the list returns for the cursor at that moment; new rows have new ids. */
  ghost predicate Allowed<T(!new)>(w: World<T>, keep: Row<T> -> bool, limit: nat, e: Event<T>)
    requires limit > 0
  {
    match e
    case Add(row) => BAR !in row.stamp && forall r | r in w.table :: r.id != row.id
    case Turn(rows, next) =>
      && !w.finished
      && rows == Taken(Select(w.table, keep, After(w.cursor)), limit)
      && next == Next(Select(w.table, keep, After(w.cursor)), limit)
  }

  function Step<T>(w: World<T>, keep: Row<T> -> bool, e: Event<T>): World<T> {
    match e
    case Add(row) => w.(table := w.table + [row], late := if keep(row) && Passed(w, row) then w.late + [row] else w.late)
    case Turn(rows, next) => w.(cursor := next, finished := next == "", delivered := w.delivered + rows)
  }

  function Run<T>(keep: Row<T> -> bool, events: seq<Event<T>>): World<T> {
    if events == [] then World([], "", false, [], [])
    else Step(Run(keep, events[..|events| - 1]), keep, events[|events| - 1])
  }

  ghost predicate Legal<T(!new)>(keep: Row<T> -> bool, limit: nat, events: seq<Event<T>>)
    requires limit > 0
  {
    events == [] ||
    (Legal(keep, limit, events[..|events| - 1])
     && Allowed(Run(keep, events[..|events| - 1]), keep, limit, events[|events| - 1]))
  }

  /** What was delivered is in ascending order, so without repeats, and it is exactly the matching rows the reader is
      past and that were not late. */
  ghost predicate ReadOnce<T(!new)>(w: World<T>, keep: Row<T> -> bool) {
    && Ascending(w.delivered)
    && forall r :: r in w.delivered <==> r in w.table && keep(r) && Passed(w, r) && r !in w.late
  }

  ghost predicate Steady<T(!new)>(w: World<T>, keep: Row<T> -> bool) {
    && DistinctIds(w.table) && Stamped(w.table)
    && (w.cursor == "" || DecodeCursor(w.cursor).Some?)
    && (forall r | r in w.late :: r in w.table && Passed(w, r))
    && ReadOnce(w, keep)
  }

  // ----- the order of keys -----

  lemma KeyTransitive(a: (seq<Byte>, seq<Byte>), b: (seq<Byte>, seq<Byte>), c: (seq<Byte>, seq<Byte>))
    requires Before(a.0, a.1, b.0, b.1) && Before(b.0, b.1, c.0, c.1)
    ensures Before(a.0, a.1, c.0, c.1)
  {
    BeforeTransitive(Row(a.0, a.1, ()), Row(b.0, b.1, ()), Row(c.0, c.1, ()));
  }

  /** Rows up to a place come before rows past it. */
  lemma AcrossThePlace<T>(key: (seq<Byte>, seq<Byte>), a: Row<T>, b: Row<T>)
    requires !Past(a, Some(key)) && Past(b, Some(key))
    ensures RowBefore(a, b)
  {
    BeforeTotal(a, b);
    if RowBefore(b, a) {
      KeyTransitive(key, (b.stamp, b.id), (a.stamp, a.id));
    }
  }

  lemma AscendingAppend<T>(a: seq<Row<T>>, b: seq<Row<T>>)
    requires Ascending(a) && Ascending(b) && forall x, y | x in a && y in b :: RowBefore(x, y)
    ensures Ascending(a + b)
  {
    forall i, j | 0 <= i < j < |a + b| ensures RowBefore((a + b)[i], (a + b)[j]) {
      if i < |a| <= j {
        assert a[i] in a && b[j - |a|] in b;
      }
    }
  }

  /** The first rows of an ascending list are those up to the last of them. */
  lemma FrontHas<T>(rows: seq<Row<T>>, n: nat, r: Row<T>)
    requires Ascending(rows) && 0 < n <= |rows|
    ensures r in rows[..n] <==> r in rows && !RowBefore(rows[n - 1], r)
  {
    assert rows == rows[..n] + rows[n..];
    if r in rows[..n] {
      var i :| 0 <= i < n && rows[i] == r;
      if RowBefore(rows[n - 1], r) {
        if i < n - 1 {
          BeforeTransitive(r, rows[n - 1], r);
        }
        BeforeIrreflexive(r);
      }
    }
    SuffixHas(rows, n, r);
  }

  // ----- every event keeps it -----

  lemma AddKeepsSteady<T(!new)>(w: World<T>, keep: Row<T> -> bool, row: Row<T>)
    requires Steady(w, keep) && BAR !in row.stamp && forall r | r in w.table :: r.id != row.id
    ensures Steady(Step(w, keep, Add(row)), keep)
  {
    var w' := Step(w, keep, Add(row));
    forall r ensures r in w'.delivered <==> r in w'.table && keep(r) && Passed(w', r) && r !in w'.late {
      assert r in w'.table <==> r in w.table || r == row;
    }
  }

  /** The page, seen as a set: the matching rows between the old place and the new one. */
  ghost predicate PageIs<T(!new)>(w: World<T>, w': World<T>, keep: Row<T> -> bool, rows: seq<Row<T>>) {
    && Ascending(rows)
    && (forall r :: r in rows <==> r in w.table && keep(r) && !Passed(w, r) && Passed(w', r))
    && (forall r | Passed(w, r) :: Passed(w', r))
  }

  lemma TurnIs<T(!new)>(w: World<T>, keep: Row<T> -> bool, limit: nat, e: Event<T>)
    requires limit > 0 && Steady(w, keep) && e.Turn? && Allowed(w, keep, limit, e)
    ensures PageIs(w, Step(w, keep, e), keep, e.rows)
    ensures e.next == "" || DecodeCursor(e.next).Some?
  {
    var selected := Select(w.table, keep, After(w.cursor));
    SelectIs(w.table, keep, After(w.cursor));
    if |selected| > limit {
      var last := selected[limit - 1];
      assert last in selected;
      CursorRoundTrip(last.stamp, last.id);
      EncodedIsNotEmpty(last.stamp, last.id);
      FrontIs(w, Step(w, keep, e), keep, selected, limit);
    }
  }

  lemma FrontIs<T(!new)>(w: World<T>, w': World<T>, keep: Row<T> -> bool, selected: seq<Row<T>>, limit: nat)
    requires 0 < limit <= |selected| && Ascending(selected) && !w.finished && !w'.finished && w'.cursor != ""
    requires w.cursor == "" || DecodeCursor(w.cursor).Some?
    requires forall r :: r in selected <==> r in w.table && keep(r) && Past(r, After(w.cursor))
    requires DecodeCursor(w'.cursor) == Some((selected[limit - 1].stamp, selected[limit - 1].id))
    ensures PageIs(w, w', keep, selected[..limit])
  {
    var last := selected[limit - 1];
    assert last in selected;
    forall r ensures r in selected[..limit] <==> r in selected && Passed(w', r) {
      FrontHas(selected, limit, r);
    }
    forall r | Passed(w, r) ensures Passed(w', r) {
      if Past(r, After(w'.cursor)) {
        KeyTransitive(After(w.cursor).value, (last.stamp, last.id), (r.stamp, r.id));
      }
    }
  }

  lemma TurnKeepsSteady<T(!new)>(w: World<T>, keep: Row<T> -> bool, limit: nat, e: Event<T>)
    requires limit > 0 && Steady(w, keep) && e.Turn? && Allowed(w, keep, limit, e)
    ensures Steady(Step(w, keep, e), keep)
  {
    TurnIs(w, keep, limit, e);
    PageReadsOnce(w, Step(w, keep, e), keep, e.rows);
  }

  lemma PageReadsOnce<T(!new)>(w: World<T>, w': World<T>, keep: Row<T> -> bool, rows: seq<Row<T>>)
    requires !w.finished && ReadOnce(w, keep) && PageIs(w, w', keep, rows)
    requires w.cursor == "" || DecodeCursor(w.cursor).Some?
    requires forall r | r in w.late :: r in w.table && Passed(w, r)
    requires w'.table == w.table && w'.late == w.late && w'.delivered == w.delivered + rows
    ensures ReadOnce(w', keep)
  {
    forall x, y | x in w.delivered && y in rows ensures RowBefore(x, y) {
      AcrossThePlace(After(w.cursor).value, x, y);
    }
    AscendingAppend(w.delivered, rows);
  }

  /** Over every run of additions and pages that follows the returned cursors: every row delivered is delivered once, in
      order; and a matching row the reader is past was delivered unless it was late. */
  lemma {:induction false} EveryRowOnce<T(!new)>(keep: Row<T> -> bool, limit: nat, events: seq<Event<T>>)
    requires limit > 0 && Legal(keep, limit, events)
    ensures Steady(Run(keep, events), keep)
    ensures ReadOnce(Run(keep, events), keep)
  {
    if events != [] {
      var before, e := events[..|events| - 1], events[|events| - 1];
      EveryRowOnce(keep, limit, before);
      match e
      case Add(row) => AddKeepsSteady(Run(keep, before), keep, row);
      case Turn(_, _) => TurnKeepsSteady(Run(keep, before), keep, limit, e);
    }
  }

  ghost predicate AddedBehind<T>(keep: Row<T> -> bool, events: seq<Event<T>>, i: nat, r: Row<T>)
    requires i < |events|
  {
    events[i] == Add(r) && keep(r) && Passed(Run(keep, events[..i]), r)
  }

  /** Late are exactly the matching rows that were added when the reader was past their place already. */
  lemma {:induction false} LateExactly<T>(keep: Row<T> -> bool, events: seq<Event<T>>, r: Row<T>)
    ensures r in Run(keep, events).late <==> exists i: nat | i < |events| :: AddedBehind(keep, events, i, r)
  {
    if events != [] {
      var before := events[..|events| - 1];
      LateExactly(keep, before, r);
      LateStep(keep, before, events[|events| - 1], r);
      assert before + [events[|events| - 1]] == events;
    }
  }

  lemma LateStep<T>(keep: Row<T> -> bool, before: seq<Event<T>>, e: Event<T>, r: Row<T>)
    requires r in Run(keep, before).late <==> exists i: nat | i < |before| :: AddedBehind(keep, before, i, r)
    ensures r in Run(keep, before + [e]).late <==> exists i: nat | i < |before + [e]| :: AddedBehind(keep, before + [e], i, r)
  {
    var events := before + [e];
    assert events[..|before|] == before;
    var now := e == Add(r) && keep(r) && Passed(Run(keep, before), r);
    assert AddedBehind(keep, events, |before|, r) <==> now;
    forall i: nat | i < |before| ensures AddedBehind(keep, events, i, r) <==> AddedBehind(keep, before, i, r) {
      assert events[..i] == before[..i];
    }
    assert r in Run(keep, events).late <==> r in Run(keep, before).late || now;
  }

  /** A reader who has come to the end got every matching row but those: all that were there when it began, and all that
      were added ahead of it. */
  lemma AtTheEnd<T(!new)>(keep: Row<T> -> bool, limit: nat, events: seq<Event<T>>, r: Row<T>)
    requires limit > 0 && Legal(keep, limit, events) && Run(keep, events).finished
    requires r in Run(keep, events).table && keep(r)
    ensures r !in Run(keep, events).delivered <==> exists i: nat | i < |events| :: AddedBehind(keep, events, i, r)
  {
    EveryRowOnce(keep, limit, events);
    LateExactly(keep, events, r);
  }

  /** Before the end a row lands behind the reader exactly when its stamp is earlier than the cursor's, or the same
      second's with an id not above the cursor's: a clock that has moved on since is enough, one that has not is not. */
  lemma BehindExactly<T>(w: World<T>, r: Row<T>)
    requires !w.finished && w.cursor != "" && DecodeCursor(w.cursor).Some?
    ensures var (stamp, id) := DecodeCursor(w.cursor).value;
            Passed(w, r) <==> TextOrder.Less(r.stamp, stamp) || (r.stamp == stamp && TextOrder.AtMost(r.id, id))
  {
    var (stamp, id) := DecodeCursor(w.cursor).value;
    TextOrder.Trichotomy(r.stamp, stamp);
    TextOrder.Total(r.id, id);
    TextOrder.Irreflexive(stamp);
    TextOrder.Irreflexive(id);
    if TextOrder.Less(r.stamp, stamp) && TextOrder.Less(stamp, r.stamp) {
      TextOrder.Transitive(stamp, r.stamp, stamp);
    }
    if TextOrder.Less(r.id, id) && TextOrder.Less(id, r.id) {
      TextOrder.Transitive(id, r.id, id);
    }
  }
}
