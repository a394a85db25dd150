/** Reading the inbox: a cursor over the insertion sequence that skips expired rows, and what an agent that keeps
    polling receives over a whole run. */
module Inbox {
  import opened Common
  import opened Cursors

  const NANOS := 1_000_000_000
  const BROADCAST := Id("broadcast")

  /** A stored message as the inbox sees it; `sentAt` is the client's stamp in whole seconds. */
  datatype Row = Row(number: int, recipient: Id, task: Option<Id>, kind: string, sentAt: int, ttl: Option<int>)

  datatype Filter = Filter(recipient: Id, task: Id, kinds: seq<string>, limit: int)

  datatype Listing = Page(rows: seq<Row>, next: string) | BadCursor

  // ----- expiry -----

  function Wrap64(n: int): (w: int)
    ensures INT64_MIN <= w <= INT64_MAX
    ensures INT64_MIN <= n <= INT64_MAX ==> w == n
  {
    (n - INT64_MIN) % 0x1_0000_0000_0000_0000 + INT64_MIN
  }

  /** The time-to-live becomes a 64-bit count of nanoseconds; `now` is in nanoseconds. */
  predicate Expired(row: Row, now: int) {
    row.ttl.Some? && now > row.sentAt * NANOS + Wrap64(row.ttl.value * NANOS)
  }

  /** What the time-to-live is documented to mean. */
  predicate Elapsed(row: Row, now: int) {
    row.ttl.Some? && now > (row.sentAt + row.ttl.value) * NANOS
  }

  /** A row lives as long as its time-to-live says exactly when that fits 64 bits of nanoseconds (292 years). */
  lemma TtlExactly(row: Row)
    requires row.ttl.Some? && row.ttl.value >= 0
    ensures (forall now :: Expired(row, now) <==> Elapsed(row, now)) <==> row.ttl.value <= 9_223_372_036
  {
    var meant := (row.sentAt + row.ttl.value) * NANOS;
    var used := row.sentAt * NANOS + Wrap64(row.ttl.value * NANOS);
    if row.ttl.value > 9_223_372_036 {
      assert used < meant;
      assert Expired(row, meant) && !Elapsed(row, meant);
    }
  }

  lemma StaysExpired(row: Row, now: int, later: int)
    requires Expired(row, now) && now <= later
    ensures Expired(row, later)
  {
  }

  // ----- the query -----

  predicate Matches(row: Row, f: Filter) {
    && (row.recipient == f.recipient || row.recipient == BROADCAST)
    && (f.task != NO_ID ==> row.task == Some(f.task))
    && (f.kinds != [] ==> row.kind in f.kinds)
  }

  function Limit(f: Filter): (n: nat)
    ensures 1 <= n <= 100
  {
    if f.limit <= 0 || f.limit > 100 then 50 else f.limit
  }

  /** WHERE ... AND seq > after ORDER BY seq; the table is in insertion order. */
  function Pending(table: seq<Row>, f: Filter, after: Option<int>): seq<Row> {
    if table == [] then []
    else
      var rest := Pending(table[1..], f, after);
      if Matches(table[0], f) && (after.Some? ==> table[0].number > after.value) then [table[0]] + rest else rest
  }

  function Live(rows: seq<Row>, now: int): seq<Row> {
    if rows == [] then []
    else
      var front := Live(rows[..|rows| - 1], now);
      if Expired(rows[|rows| - 1], now) then front else front + [rows[|rows| - 1]]
  }

  lemma {:induction false} LiveHas(rows: seq<Row>, now: int, r: Row)
    ensures r in Live(rows, now) <==> r in rows && !Expired(r, now)
  {
    if rows != [] {
      LiveHas(rows[..|rows| - 1], now, r);
      assert rows == rows[..|rows| - 1] + [rows[|rows| - 1]];
    }
  }

  lemma LiveSnoc(rows: seq<Row>, i: nat, now: int)
    requires i < |rows|
    ensures Live(rows[..i + 1], now) == Live(rows[..i], now) + if Expired(rows[i], now) then [] else [rows[i]]
  {
    assert rows[..i + 1][..i] == rows[..i];
  }

  /** `n` is the number of pending rows a poll passes: it stops at a full page of live rows, at the end, or after
      one row more than a page. */
  ghost predicate Passes(rows: seq<Row>, limit: nat, now: int, n: nat) {
    && n <= |rows| && n <= limit + 1
    && |Live(rows[..n], now)| <= limit
    && (forall k | 0 <= k < n :: |Live(rows[..k], now)| < limit)
    && (n == |rows| || n == limit + 1 || |Live(rows[..n], now)| == limit)
  }

  function NextCursor(rows: seq<Row>, n: nat, cursor: string): string
    requires n <= |rows|
  {
    if n == 0 then cursor else EncodeSeqCursor(rows[n - 1].number)
  }

  function After(cursor: string): Option<int> {
    if cursor == "" then None else DecodeSeqCursor(cursor)
  }

  /** One poll: the live rows among those passed, and a cursor at the last row passed. */
  ghost predicate IsPage(table: seq<Row>, f: Filter, cursor: string, now: int, rows: seq<Row>, next: string) {
    var pending := Pending(table, f, After(cursor));
    exists n: nat | n <= |pending| ::
      Passes(pending, Limit(f), now, n) && rows == Live(pending[..n], now) && next == NextCursor(pending, n, cursor)
  }

  method List(table: seq<Row>, f: Filter, cursor: string, now: int) returns (r: Listing)
    ensures r == BadCursor <==> cursor != "" && DecodeSeqCursor(cursor) == None
    ensures r.Page? ==> IsPage(table, f, cursor, now, r.rows, r.next)
    ensures r.Page? ==> forall row | row in r.rows :: row in table && AskedFor(row, f)
  {
    var limit := Limit(f);
    if cursor != "" && DecodeSeqCursor(cursor).None? {
      return BadCursor;
    }
    var pending := Pending(table, f, After(cursor));
    var selected := if |pending| > limit + 1 then pending[..limit + 1] else pending;
    var messages, numbers := Scan(selected, limit, now);
    var next := if |numbers| > 0 then EncodeSeqCursor(numbers[|numbers| - 1]) else cursor;
    assert next == NextCursor(selected, |numbers|, cursor);
    PageFound(table, f, cursor, now, selected, |numbers|, messages);
    PageIsAskedFor(table, f, cursor, now, messages, next);
    r := Page(messages, next);
  }

  /** What the scan of the selected rows found is a page. */
  lemma PageFound(table: seq<Row>, f: Filter, cursor: string, now: int, selected: seq<Row>, n: nat, rows: seq<Row>)
    requires var pending := Pending(table, f, After(cursor));
             selected == if |pending| > Limit(f) + 1 then pending[..Limit(f) + 1] else pending
    requires n <= |selected| && rows == Live(selected[..n], now) && |rows| <= Limit(f)
    requires forall k | 0 <= k < n :: |Live(selected[..k], now)| < Limit(f)
    requires n == |selected| || |rows| == Limit(f)
    ensures IsPage(table, f, cursor, now, rows, NextCursor(selected, n, cursor))
  {
    var pending := Pending(table, f, After(cursor));
    SelectedPasses(pending, selected, Limit(f), now, n);
    assert n > 0 ==> selected[n - 1] == pending[n - 1];
  }

  /** The loop over the selected rows: collect what is live, remember every row number examined. */
  method Scan(selected: seq<Row>, limit: nat, now: int) returns (messages: seq<Row>, numbers: seq<int>)
    requires limit > 0
    ensures |numbers| <= |selected| && messages == Live(selected[..|numbers|], now) && |messages| <= limit
    ensures |numbers| > 0 ==> numbers[|numbers| - 1] == selected[|numbers| - 1].number
    ensures forall k | 0 <= k < |numbers| :: |Live(selected[..k], now)| < limit
    ensures |numbers| == |selected| || |messages| == limit
  {
    messages, numbers := [], [];
    while |numbers| < |selected|
      invariant |numbers| <= |selected| && messages == Live(selected[..|numbers|], now) && |messages| < limit
      invariant |numbers| > 0 ==> numbers[|numbers| - 1] == selected[|numbers| - 1].number
      invariant forall k | 0 <= k < |numbers| :: |Live(selected[..k], now)| < limit
      decreases |selected| - |numbers|
    {
      var row := selected[|numbers|];
      LiveSnoc(selected, |numbers|, now);
      numbers := numbers + [row.number];
      if Expired(row, now) {
        continue;
      }
      messages := messages + [row];
      if |messages| == limit {
        break;
      }
    }
  }

  lemma SelectedPasses(pending: seq<Row>, selected: seq<Row>, limit: nat, now: int, n: nat)
    requires selected == if |pending| > limit + 1 then pending[..limit + 1] else pending
    requires n <= |selected| && |Live(selected[..n], now)| <= limit
    requires forall k | 0 <= k < n :: |Live(selected[..k], now)| < limit
    requires n == |selected| || |Live(selected[..n], now)| == limit
    ensures selected[..n] == pending[..n]
    ensures Passes(pending, limit, now, n)
  {
    forall k | 0 <= k <= n ensures selected[..k] == pending[..k] {
    }
  }

  lemma {:induction false} LiveIsShorter(rows: seq<Row>, now: int)
    ensures |Live(rows, now)| <= |rows|
  {
    if rows != [] {
      LiveIsShorter(rows[..|rows| - 1], now);
    }
  }

  /** A poll passes every pending row, or at least a page of them. */
  lemma Progress(rows: seq<Row>, limit: nat, now: int, n: nat)
    requires Passes(rows, limit, now, n)
    ensures n >= if |rows| < limit then |rows| else limit
  {
    LiveIsShorter(rows[..n], now);
  }

  // ----- the query's rows -----

  ghost predicate Sorted(rows: seq<Row>) {
    forall i, j | 0 <= i < j < |rows| :: rows[i].number < rows[j].number
  }

  predicate Beyond(number: int, after: Option<int>) {
    after.Some? ==> number > after.value
  }

  lemma {:induction false} PendingHas(table: seq<Row>, f: Filter, after: Option<int>, r: Row)
    ensures r in Pending(table, f, after) <==> r in table && Matches(r, f) && Beyond(r.number, after)
  {
    if table != [] {
      PendingHas(table[1..], f, after, r);
      assert table == [table[0]] + table[1..];
    }
  }

  lemma {:induction false} PendingSorted(table: seq<Row>, f: Filter, after: Option<int>)
    requires Sorted(table)
    ensures Sorted(Pending(table, f, after))
  {
    if table != [] {
      var rest := Pending(table[1..], f, after);
      PendingSorted(table[1..], f, after);
      forall i | 0 <= i < |rest| ensures table[0].number < rest[i].number {
        PendingHas(table[1..], f, after, rest[i]);
        assert rest[i] in rest;
      }
    }
  }

  lemma {:induction false} LiveKeepsOrder(rows: seq<Row>, now: int)
    requires Sorted(rows)
    ensures Sorted(Live(rows, now))
  {
    if rows != [] {
      var front := rows[..|rows| - 1];
      LiveKeepsOrder(front, now);
      forall i | 0 <= i < |Live(front, now)| ensures Live(front, now)[i].number < rows[|rows| - 1].number {
        assert Live(front, now)[i] in Live(front, now);
        LiveHas(front, now, Live(front, now)[i]);
      }
    }
  }

  // ----- a whole run: inserts and polls in any order -----

  datatype Event = Insert(row: Row) | Poll(now: int, rows: seq<Row>, next: string)

  datatype World = World(table: seq<Row>, cursor: string, delivered: seq<Row>, clock: int)

  const START := World([], "", [], 0)

  ghost predicate Allowed(w: World, f: Filter, e: Event) {
    match e
    case Insert(row) => 1 <= row.number <= INT64_MAX && forall r | r in w.table :: r.number < row.number
    case Poll(now, rows, next) => w.clock <= now && IsPage(w.table, f, w.cursor, now, rows, next)
  }

  function Step(w: World, e: Event): World {
    match e
    case Insert(row) => w.(table := w.table + [row])
    case Poll(now, rows, next) => w.(cursor := next, delivered := w.delivered + rows, clock := now)
  }

  function Run(events: seq<Event>): World {
    if events == [] then START else Step(Run(events[..|events| - 1]), events[|events| - 1])
  }

  ghost predicate Legal(f: Filter, events: seq<Event>) {
    events == [] || (Legal(f, events[..|events| - 1]) && Allowed(Run(events[..|events| - 1]), f, events[|events| - 1]))
  }

  /** The row number the cursor stands at; nothing is numbered 0. */
  function Position(cursor: string): int {
    if DecodeSeqCursor(cursor).Some? then DecodeSeqCursor(cursor).value else 0
  }

  predicate AtRow(table: seq<Row>, cursor: string) {
    cursor == "" || (DecodeSeqCursor(cursor).Some? && DecodeSeqCursor(cursor).value > 0)
  }

  /** Delivered rows come in order without repeats, all matching and all stored; and every stored matching row at or
      below the cursor was delivered or had expired. */
  ghost predicate ExactlyOnce(w: World, f: Filter) {
    && Sorted(w.delivered)
    && (forall r | r in w.delivered :: r in w.table && Matches(r, f) && r.number <= Position(w.cursor))
    && (forall r | r in w.table && Matches(r, f) && r.number <= Position(w.cursor) :: r in w.delivered || Expired(r, w.clock))
  }

  ghost predicate Steady(w: World, f: Filter) {
    && Sorted(w.table)
    && (forall r | r in w.table :: 1 <= r.number <= INT64_MAX)
    && AtRow(w.table, w.cursor)
    && (w.cursor != "" ==> exists r | r in w.table :: r.number == Position(w.cursor))
    && ExactlyOnce(w, f)
  }

  lemma EmptyCursor()
    ensures DecodeSeqCursor("") == None
  {
  }

  lemma InsertKeepsSteady(w: World, f: Filter, e: Event)
    requires Steady(w, f) && e.Insert? && Allowed(w, f, e)
    ensures Steady(Step(w, e), f)
  {
    EmptyCursor();
    var w' := Step(w, e);
    if w.cursor != "" {
      var r :| r in w.table && r.number == Position(w.cursor);
      assert r in w'.table && e.row.number > Position(w.cursor);
    }
  }

  lemma PollKeepsSteady(w: World, f: Filter, e: Event)
    requires Steady(w, f) && e.Poll? && Allowed(w, f, e)
    ensures Steady(Step(w, e), f)
  {
    var pending := Pending(w.table, f, After(w.cursor));
    var n: nat :| n <= |pending| && Passes(pending, Limit(f), e.now, n)
                  && e.rows == Live(pending[..n], e.now) && e.next == NextCursor(pending, n, w.cursor);
    if n == 0 {
      NothingPassed(w, f, e);
    } else {
      PendingHas(w.table, f, After(w.cursor), pending[n - 1]);
      SeqCursorRoundTrip(pending[n - 1].number);
      PendingSorted(w.table, f, After(w.cursor));
      PagePassed(w, f, e, pending, n);
    }
  }

  lemma NothingPassed(w: World, f: Filter, e: Event)
    requires Steady(w, f) && e.Poll? && w.clock <= e.now && e.rows == [] && e.next == w.cursor
    ensures Steady(Step(w, e), f)
  {
    assert w.delivered + [] == w.delivered;
    forall r | r in w.table && Expired(r, w.clock) ensures Expired(r, e.now) {
      StaysExpired(r, w.clock, e.now);
    }
  }

  /** The rows passed are the matching rows between the old position and the new one. */
  lemma PassedAre(w: World, f: Filter, pending: seq<Row>, n: nat, r: Row)
    requires AtRow(w.table, w.cursor) && (forall x | x in w.table :: 1 <= x.number)
    requires pending == Pending(w.table, f, After(w.cursor)) && Sorted(pending) && 0 < n <= |pending|
    ensures r in pending[..n] <==>
              r in w.table && Matches(r, f) && Position(w.cursor) < r.number <= pending[n - 1].number
  {
    EmptyCursor();
    PendingHas(w.table, f, After(w.cursor), r);
    if r in pending {
      var i :| 0 <= i < |pending| && pending[i] == r;
      assert i < n ==> pending[..n][i] == r;
    }
  }

  lemma PagePassed(w: World, f: Filter, e: Event, pending: seq<Row>, n: nat)
    requires Steady(w, f) && e.Poll? && w.clock <= e.now
    requires pending == Pending(w.table, f, After(w.cursor)) && Sorted(pending) && 0 < n <= |pending|
    requires e.rows == Live(pending[..n], e.now)
    requires DecodeSeqCursor(e.next) == Some(pending[n - 1].number)
    ensures Steady(Step(w, e), f)
  {
    var w' := Step(w, e);
    var passed := pending[..n];
    forall r ensures r in passed <==>
      r in w.table && Matches(r, f) && Position(w.cursor) < r.number <= Position(w'.cursor)
    {
      PassedAre(w, f, pending, n, r);
    }
    assert passed[n - 1] in passed;
    EmptyCursor();
    PageDelivers(w, w', f, e, passed);
  }

  lemma PageDelivers(w: World, w': World, f: Filter, e: Event, passed: seq<Row>)
    requires ExactlyOnce(w, f) && e.Poll? && w.clock <= e.now && w' == Step(w, e)
    requires Sorted(passed) && e.rows == Live(passed, e.now)
    requires Position(w.cursor) <= Position(w'.cursor)
    requires forall r :: r in passed <==>
               r in w.table && Matches(r, f) && Position(w.cursor) < r.number <= Position(w'.cursor)
    ensures ExactlyOnce(w', f)
  {
    LiveKeepsOrder(passed, e.now);
    forall r ensures r in e.rows <==> r in passed && !Expired(r, e.now) {
      LiveHas(passed, e.now, r);
    }
    AppendSorted(w.delivered, e.rows, Position(w.cursor));
    forall r | r in w.table && Matches(r, f) && r.number <= Position(w'.cursor)
      ensures r in w'.delivered || Expired(r, e.now)
    {
      if r.number <= Position(w.cursor) {
        assert r in w.delivered || Expired(r, w.clock);
      } else {
        assert r in passed;
      }
    }
  }

  lemma AppendSorted(a: seq<Row>, b: seq<Row>, at: int)
    requires Sorted(a) && Sorted(b)
    requires (forall r | r in a :: r.number <= at) && forall r | r in b :: at < r.number
    ensures Sorted(a + b)
  {
    forall i, j | 0 <= i < j < |a + b| ensures (a + b)[i].number < (a + b)[j].number {
      if i < |a| <= j {
        assert a[i] in a && b[j - |a|] in b;
      }
    }
  }

  /** Exactly-once delivery over every run of inserts and polls that follows the returned cursors. */
  lemma {:induction false} DeliveredExactlyOnce(f: Filter, events: seq<Event>)
    requires Legal(f, events)
    ensures Steady(Run(events), f)
    ensures ExactlyOnce(Run(events), f)
  {
    if events == [] {
      EmptyCursor();
    } else {
      var before := events[..|events| - 1];
      DeliveredExactlyOnce(f, before);
      if events[|events| - 1].Insert? {
        InsertKeepsSteady(Run(before), f, events[|events| - 1]);
      } else {
        PollKeepsSteady(Run(before), f, events[|events| - 1]);
      }
    }
  }

  // ----- whose mail it is -----

  /** What a reader asked for, said of the columns. */
  predicate AskedFor(r: Row, f: Filter) {
    && (r.recipient == f.recipient || r.recipient == Id("broadcast"))
    && (f.task == NO_ID || r.task == Some(f.task))
    && (f.kinds == [] || r.kind in f.kinds)
  }

  /** A page holds only stored rows the reader asked for, whose time-to-live has not run out, and at most as many as it
      asked for: 50 when that is not between 1 and 100. */
  lemma PageIsAskedFor(table: seq<Row>, f: Filter, cursor: string, now: int, rows: seq<Row>, next: string)
    requires IsPage(table, f, cursor, now, rows, next)
    ensures forall r | r in rows :: r in table && AskedFor(r, f)
    ensures forall r | r in rows && r.ttl.Some? && 0 <= r.ttl.value <= 9_223_372_036 :: now <= (r.sentAt + r.ttl.value) * 1_000_000_000
    ensures |rows| <= if 1 <= f.limit <= 100 then f.limit else 50
  {
    var pending := Pending(table, f, After(cursor));
    var n: nat :| n <= |pending| && Passes(pending, Limit(f), now, n) && rows == Live(pending[..n], now)
                  && next == NextCursor(pending, n, cursor);
    forall r | r in rows ensures r in table && AskedFor(r, f) && !Expired(r, now) {
      LiveHas(pending[..n], now, r);
      PendingHas(table, f, After(cursor), r);
    }
  }

  /** When none of the rows waiting has expired, the page is simply the first of them, as many as were asked for. */
  lemma PageIsFull(table: seq<Row>, f: Filter, cursor: string, now: int, rows: seq<Row>, next: string)
    requires IsPage(table, f, cursor, now, rows, next)
    requires forall r | r in Pending(table, f, After(cursor)) :: r.ttl.None?
    ensures var pending, asked := Pending(table, f, After(cursor)), if 1 <= f.limit <= 100 then f.limit else 50;
            rows == if |pending| <= asked then pending else pending[..asked]
  {
    var pending := Pending(table, f, After(cursor));
    var n: nat :| n <= |pending| && Passes(pending, Limit(f), now, n) && rows == Live(pending[..n], now)
                  && next == NextCursor(pending, n, cursor);
    forall k: nat | k <= |pending| ensures Live(pending[..k], now) == pending[..k] {
      forall r | r in pending[..k] ensures r.ttl.None? {
        assert r in pending;
      }
      AllLive(pending[..k], now);
    }
    assert |Live(pending[..n], now)| == n;
    if n > 0 {
      assert |Live(pending[..n - 1], now)| == n - 1;
    }
    assert pending[..|pending|] == pending;
  }

  lemma {:induction false} AllLive(rows: seq<Row>, now: int)
    requires forall r | r in rows :: r.ttl.None?
    ensures Live(rows, now) == rows
  {
    if rows != [] {
      AllLive(rows[..|rows| - 1], now);
      assert rows == rows[..|rows| - 1] + [rows[|rows| - 1]];
    }
  }

  /** Over every run: a stored row the reader asked for, at or below the cursor, was delivered to it or has expired, and
      nothing else was delivered. */
  lemma MailArrives(f: Filter, events: seq<Event>, r: Row)
    requires Legal(f, events) && r in Run(events).table && r.number <= Position(Run(events).cursor)
    ensures AskedFor(r, f) ==> r in Run(events).delivered || Expired(r, Run(events).clock)
    ensures r in Run(events).delivered ==> AskedFor(r, f)
  {
    DeliveredExactlyOnce(f, events);
  }

  // ----- draining -----

  lemma {:induction false} PendingBeyond(table: seq<Row>, f: Filter, after: Option<int>, to: int)
    requires Sorted(table) && Beyond(to, after)
    ensures Pending(table, f, Some(to)) == Pending(Pending(table, f, after), f, Some(to))
  {
    if table != [] {
      PendingBeyond(table[1..], f, after, to);
    }
  }

  lemma {:induction false} PendingSuffix(rows: seq<Row>, f: Filter, n: nat)
    requires Sorted(rows) && (forall r | r in rows :: Matches(r, f)) && 0 < n <= |rows|
    ensures Pending(rows, f, Some(rows[n - 1].number)) == rows[n..]
  {
    var at := rows[n - 1].number;
    assert rows[0] in rows;
    if n == 1 {
      AllBeyond(rows[1..], f, at);
    } else {
      assert rows[1..][n - 2] == rows[n - 1] && rows[1..][n - 1..] == rows[n..];
      forall r | r in rows[1..] ensures Matches(r, f) {
        assert r in rows;
      }
      PendingSuffix(rows[1..], f, n - 1);
    }
  }

  lemma {:induction false} AllBeyond(rows: seq<Row>, f: Filter, at: int)
    requires forall i | 0 <= i < |rows| :: Matches(rows[i], f) && rows[i].number > at
    ensures Pending(rows, f, Some(at)) == rows
  {
    if rows != [] {
      AllBeyond(rows[1..], f, at);
      assert rows == [rows[0]] + rows[1..];
    }
  }

  function Waiting(w: World, f: Filter): seq<Row> {
    Pending(w.table, f, After(w.cursor))
  }

  function Less(waiting: nat, page: nat): nat {
    if waiting <= page then 0 else waiting - page
  }

  /** A poll leaves waiting what it did not pass. */
  lemma PollAdvances(w: World, f: Filter, e: Event)
    requires Steady(w, f) && e.Poll? && Allowed(w, f, e)
    ensures |Waiting(Step(w, e), f)| <= Less(|Waiting(w, f)|, Limit(f))
  {
    var pending := Waiting(w, f);
    var n: nat :| n <= |pending| && Passes(pending, Limit(f), e.now, n)
                  && e.rows == Live(pending[..n], e.now) && e.next == NextCursor(pending, n, w.cursor);
    Progress(pending, Limit(f), e.now, n);
    if n > 0 {
      var last := pending[n - 1];
      PendingHas(w.table, f, After(w.cursor), last);
      SeqCursorRoundTrip(last.number);
      EmptyCursor();
      PendingSorted(w.table, f, After(w.cursor));
      forall r | r in pending ensures Matches(r, f) {
        PendingHas(w.table, f, After(w.cursor), r);
      }
      PendingBeyond(w.table, f, After(w.cursor), last.number);
      PendingSuffix(pending, f, n);
      assert Waiting(Step(w, e), f) == pending[n..];
    }
  }

  /** A run that goes on with polls only. */
  function Polled(w: World, polls: seq<Event>): World {
    if polls == [] then w else Step(Polled(w, polls[..|polls| - 1]), polls[|polls| - 1])
  }

  ghost predicate LegalPolls(w: World, f: Filter, polls: seq<Event>) {
    polls == [] ||
    (LegalPolls(w, f, polls[..|polls| - 1])
     && polls[|polls| - 1].Poll? && Allowed(Polled(w, polls[..|polls| - 1]), f, polls[|polls| - 1]))
  }

  /** What is left of `waiting` rows after taking off a page `polls` times. */
  function Drained(waiting: nat, polls: nat, page: nat): nat {
    if polls == 0 then waiting else Less(Drained(waiting, polls - 1, page), page)
  }

  lemma {:induction false} DrainedIs(waiting: nat, polls: nat, page: nat)
    ensures Drained(waiting, polls, page) == if waiting <= polls * page then 0 else waiting - polls * page
  {
    if polls > 0 {
      DrainedIs(waiting, polls - 1, page);
      assert polls * page == (polls - 1) * page + page;
    }
  }

  lemma {:induction false} PollsTake(w: World, f: Filter, polls: seq<Event>)
    requires Steady(w, f) && LegalPolls(w, f, polls)
    ensures Steady(Polled(w, polls), f)
    ensures |Waiting(Polled(w, polls), f)| <= Drained(|Waiting(w, f)|, |polls|, Limit(f))
  {
    if polls != [] {
      var fewer, last := polls[..|polls| - 1], polls[|polls| - 1];
      PollsTake(w, f, fewer);
      PollAdvances(Polled(w, fewer), f, last);
      PollKeepsSteady(Polled(w, fewer), f, last);
    }
  }

  /** Polls alone drain the inbox: from every reachable state, polls in a row leave at most what was waiting minus a page
      for each, expired rows included. */
  lemma PollsDrain(f: Filter, events: seq<Event>, polls: seq<Event>)
    requires Legal(f, events) && LegalPolls(Run(events), f, polls)
    ensures var before, after := |Waiting(Run(events), f)|, |Waiting(Polled(Run(events), polls), f)|;
            after <= if before <= |polls| * Limit(f) then 0 else before - |polls| * Limit(f)
  {
    DeliveredExactlyOnce(f, events);
    PollsTake(Run(events), f, polls);
    DrainedIs(|Waiting(Run(events), f)|, |polls|, Limit(f));
  }
}
