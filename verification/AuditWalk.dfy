/** Following nextCursor to the end while rows are being inserted: what is
    listed, what is not, and that nothing is listed twice. */
module AuditWalk {
  import opened Basics
  import opened AuditPaging

  /** The same walk on cursors; `boundaries` are the last rows of the pages
      that were followed by another. */
  datatype Trace = Trace(items: seq<Row>, boundaries: seq<Row>, finished: bool)

  function Trail(tables: seq<seq<Row>>, f: Filter, limit: nat, cursor: Option<Cursor>): Trace
    requires limit > 0
  {
    if tables == [] then Trace([], [], false)
    else
      var page := PageAt(tables[0], f, cursor, limit);
      if page.next.None? then Trace(page.items, [], true)
      else
        var rest := Trail(tables[1..], f, limit, page.next);
        Trace(page.items + rest.items, LastOf(page.items) + rest.boundaries, rest.finished)
  }

  function LastOf(rows: seq<Row>): seq<Row> { if rows == [] then [] else [Last(rows)] }

  /** Rows are only inserted: each table holds the one before. */
  ghost predicate Growing(tables: seq<seq<Row>>) {
    tables != [] ==>
      && Keyed(tables[0]) && Growing(tables[1..])
      && (|tables| > 1 ==> forall r :: r in tables[0] ==> r in tables[1])
  }

  ghost predicate Datable(tables: seq<seq<Row>>) {
    forall i, r :: 0 <= i < |tables| && r in tables[i] ==> IsDate(r.createdAt / 1000)
  }

  // ---- The tokens lead to the same walk --------------------------------------------------

  function Token(codec: Codec, cursor: Option<Cursor>): Option<string> {
    if cursor.None? then None else Some(EncodeAuditCursor(codec, cursor.value))
  }

  /** One page by token is the page by cursor. */
  lemma ListIsPage(codec: Codec, table: seq<Row>, f: Filter, limit: Option<int>, cursor: Option<Cursor>)
    requires Sound(codec) && (cursor.Some? ==> IsDate(cursor.value.createdAt))
    ensures var page := PageAt(table, f, cursor, Clamped(limit));
            List(codec, table, f, limit, Token(codec, cursor)) == Ok(Listing(page.items, Token(codec, page.next)))
  {
    if cursor.Some? { TokenRoundTrip(codec, cursor.value); }
  }

  /** No token the listing hands out is ever rejected, and following the tokens
      is following the cursors. */
  lemma {:induction false} FollowIsTrail(codec: Codec, tables: seq<seq<Row>>, f: Filter, limit: Option<int>, cursor: Option<Cursor>)
    requires Sound(codec) && Growing(tables) && Datable(tables)
    requires cursor.Some? ==> IsDate(cursor.value.createdAt)
    ensures var t := Trail(tables, f, Clamped(limit), cursor);
            Follow(codec, tables, f, limit, Token(codec, cursor)) == Ok(Walk(t.items, t.finished))
    decreases |tables|
  {
    if tables != [] {
      var page := PageAt(tables[0], f, cursor, Clamped(limit));
      ListIsPage(codec, tables[0], f, limit, cursor);
      PageIsExact(tables[0], f, cursor, Clamped(limit));
      if page.next.Some? {
        assert Last(page.items) in page.items;
        FollowIsTrail(codec, tables[1..], f, limit, page.next);
      }
    }
  }

  // ---- Order: nothing twice -----------------------------------------------------------------

  /** Truncation only ever moves a cursor up: what is below the cursor of a row
      is listed after it. */
  lemma BelowIsAfter(a: Row, b: Row)
    requires Below(b, CursorOf(a))
    ensures Before(a, b)
  {
  }

  ghost predicate AllEligible(rows: seq<Row>, f: Filter, cursor: Option<Cursor>) {
    forall i :: 0 <= i < |rows| ==> Eligible(f, cursor, rows[i])
  }

  ghost predicate Within(part: seq<Row>, whole: seq<Row>) {
    forall i :: 0 <= i < |part| ==> part[i] in whole
  }

  lemma DescendingConcat(a: seq<Row>, b: seq<Row>)
    requires Descending(a) && Descending(b)
    requires a != [] ==> forall r :: r in b ==> Before(Last(a), r)
    ensures Descending(a + b)
  {
    var s := a + b;
    forall i, j | 0 <= i < j < |s| ensures Before(s[i], s[j]) {
      if j < |a| {
        assert Before(a[i], a[j]);
      } else if |a| <= i {
        assert Before(b[i - |a|], b[j - |a|]);
      } else {
        assert s[j] == b[j - |a|] && Before(Last(a), b[j - |a|]);
        if i < |a| - 1 { assert Before(a[i], Last(a)); }
      }
    }
  }

  lemma {:induction false} TablesGrow(tables: seq<seq<Row>>, r: Row)
    requires Growing(tables) && tables != [] && r in tables[0]
    ensures r in Last(tables)
    decreases |tables|
  {
    if |tables| > 1 {
      TablesGrow(tables[1..], r);
    }
  }

  /** What a walk lists is eligible, in the last table, in strictly descending
      order; its boundaries are among it. */
  lemma {:induction false} TrailDescends(tables: seq<seq<Row>>, f: Filter, limit: nat, cursor: Option<Cursor>)
    requires Growing(tables) && limit > 0
    ensures var t := Trail(tables, f, limit, cursor);
            Descending(t.items) && AllEligible(t.items, f, cursor) && Within(t.boundaries, t.items)
            && (tables != [] ==> Within(t.items, Last(tables)))
    decreases |tables|
  {
    if tables != [] {
      var page := PageAt(tables[0], f, cursor, limit);
      PageIsExact(tables[0], f, cursor, limit);
      forall r | r in page.items ensures r in Last(tables) { TablesGrow(tables, r); }
      if page.next.Some? {
        var rest := Trail(tables[1..], f, limit, page.next);
        TrailDescends(tables[1..], f, limit, page.next);
        PageJoins(tables[0], f, cursor, limit, rest);
        if tables[1..] != [] { assert Last(tables[1..]) == Last(tables); }
      }
    }
  }

  /** A page and the walk that follows it. */
  lemma PageJoins(table: seq<Row>, f: Filter, cursor: Option<Cursor>, limit: nat, rest: Trace)
    requires Keyed(table) && limit > 0 && PageAt(table, f, cursor, limit).next.Some?
    requires var next := PageAt(table, f, cursor, limit).next;
             Descending(rest.items) && AllEligible(rest.items, f, next) && Within(rest.boundaries, rest.items)
    ensures var items := PageAt(table, f, cursor, limit).items;
            Descending(items + rest.items) && AllEligible(items + rest.items, f, cursor)
            && Within(LastOf(items) + rest.boundaries, items + rest.items)
  {
    var page := PageAt(table, f, cursor, limit);
    PageIsExact(table, f, cursor, limit);
    forall r | r in rest.items ensures Before(Last(page.items), r) && Eligible(f, cursor, r) {
      BelowIsAfter(Last(page.items), r);
      if cursor.Some? { assert Last(page.items) in page.items; }
    }
    DescendingConcat(page.items, rest.items);
    assert Last(page.items) in page.items;
  }

  // ---- Completeness ---------------------------------------------------------------------------

  /** `b` follows `a` in the listing, but not the cursor made of `a`: both fall
      into one millisecond, and `b` is not that millisecond's first instant with
      a smaller id. */
  predicate Shadows(a: Row, b: Row) {
    Before(a, b) && a.createdAt / 1000 == b.createdAt / 1000 && !(b.createdAt % 1000 == 0 && b.id < a.id)
  }

  lemma ShadowedOrBelow(a: Row, b: Row)
    requires Before(a, b)
    ensures Shadows(a, b) <==> !Below(b, CursorOf(a))
  {
  }

  ghost predicate Lost(boundaries: seq<Row>, r: Row) {
    exists i :: 0 <= i < |boundaries| && Shadows(boundaries[i], r)
  }

  /** A finished walk misses exactly the rows shadowed by the end of a page. */
  lemma {:induction false} MissedExactly(tables: seq<seq<Row>>, f: Filter, limit: nat, cursor: Option<Cursor>, r: Row)
    requires Growing(tables) && limit > 0 && Trail(tables, f, limit, cursor).finished
    requires tables != [] && r in tables[0] && Eligible(f, cursor, r)
    ensures var t := Trail(tables, f, limit, cursor);
            r in t.items <==> !Lost(t.boundaries, r)
    decreases |tables|
  {
    var page := PageAt(tables[0], f, cursor, limit);
    PageIsExact(tables[0], f, cursor, limit);
    if page.next.Some? {
      var b, rest := Last(page.items), Trail(tables[1..], f, limit, page.next);
      TrailDescends(tables[1..], f, limit, page.next);
      LostGrows(b, rest.boundaries, r);
      if r in page.items {
        ListedIsNotLost(page.items, rest, r, f, page.next);
      } else {
        ShadowedOrBelow(b, r);
        if Below(r, CursorOf(b)) {
          MissedExactly(tables[1..], f, limit, page.next, r);
        }
      }
    }
  }

  lemma LostGrows(b: Row, boundaries: seq<Row>, r: Row)
    ensures Lost([b] + boundaries, r) <==> Shadows(b, r) || Lost(boundaries, r)
  {
    var all := [b] + boundaries;
    assert all[0] == b;
    if Lost(boundaries, r) {
      var i :| 0 <= i < |boundaries| && Shadows(boundaries[i], r);
      assert all[i + 1] == boundaries[i];
    }
    if Lost(all, r) {
      var i :| 0 <= i < |all| && Shadows(all[i], r);
      if i > 0 { assert boundaries[i - 1] == all[i]; }
    }
  }

  lemma ListedIsNotLost(items: seq<Row>, rest: Trace, r: Row, f: Filter, next: Option<Cursor>)
    requires Descending(items) && r in items && next == Some(CursorOf(Last(items)))
    requires AllEligible(rest.items, f, next) && Within(rest.boundaries, rest.items)
    ensures !Shadows(Last(items), r) && !Lost(rest.boundaries, r)
  {
    var k :| 0 <= k < |items| && items[k] == r;
    assert k < |items| - 1 ==> Before(items[k], Last(items));
    forall i | 0 <= i < |rest.boundaries| ensures !Shadows(rest.boundaries[i], r) {
      var j :| 0 <= j < |rest.items| && rest.items[j] == rest.boundaries[i];
      assert Eligible(f, next, rest.items[j]);
      BelowIsAfter(Last(items), rest.items[j]);
    }
  }

  /** No two matching rows of the table are such that the first shadows the other. */
  ghost predicate Apart(table: seq<Row>, f: Filter) {
    forall a, b :: a in table && b in table && Matches(f, a) && Matches(f, b) ==> !Shadows(a, b)
  }

  /** Timestamps of the cursor's own grain never shadow each other. */
  lemma MillisecondsAreApart(table: seq<Row>, f: Filter)
    requires forall r :: r in table ==> r.createdAt % 1000 == 0
    ensures Apart(table, f)
  {
  }

  /** Following nextCursor from the start, with any rows inserted between the
      pages and whatever the timestamps: no token is rejected, no row is listed
      twice, the order is createdAt descending, then id descending, and every row
      is one of the organization's that matches. */
  lemma {:induction false} ListsNothingTwice(codec: Codec, tables: seq<seq<Row>>, f: Filter, limit: Option<int>)
    requires Sound(codec) && Growing(tables) && Datable(tables) && tables != []
    ensures var w := Follow(codec, tables, f, limit, None);
            && w.Ok?
            && NewestFirst(w.value.items)
            && forall i :: 0 <= i < |w.value.items| ==> w.value.items[i] in Last(tables) && Asked(f, w.value.items[i])
  {
    FollowIsTrail(codec, tables, f, limit, None);
    TrailDescends(tables, f, Clamped(limit), None);
    var t := Trail(tables, f, Clamped(limit), None);
    forall i | 0 <= i < |t.items| ensures Asked(f, t.items[i]) { MatchesAsked(f, t.items[i]); }
  }

  ghost predicate ListsAll(w: Result<Walk, ListError>, table: seq<Row>, f: Filter) {
    w.Ok? && w.value.finished && forall r :: r in table && Asked(f, r) ==> r in w.value.items
  }

  /** If matching rows do not shadow each other, a walk that reaches the end lists
      every matching row there was at its start, whatever was inserted since. */
  lemma {:induction false} ListsEverything(codec: Codec, tables: seq<seq<Row>>, f: Filter, limit: Option<int>)
    requires Sound(codec) && Growing(tables) && Datable(tables) && tables != []
    requires Apart(Last(tables), f)
    ensures var w := Follow(codec, tables, f, limit, None);
            w.Ok? && (w.value.finished ==> ListsAll(w, tables[0], f))
  {
    var t := Trail(tables, f, Clamped(limit), None);
    FollowIsTrail(codec, tables, f, limit, None);
    TrailDescends(tables, f, Clamped(limit), None);
    if t.finished {
      forall r | r in tables[0] && Asked(f, r) ensures r in t.items {
        MissedExactly(tables, f, Clamped(limit), None, r);
        TablesGrow(tables, r);
        ApartLosesNothing(t, Last(tables), f, r);
      }
    }
  }

  ghost predicate Once(rows: seq<Row>, r: Row) {
    exists i :: 0 <= i < |rows| && rows[i] == r && forall j :: 0 <= j < |rows| && j != i ==> rows[j] != r
  }

  lemma ListedOnce(rows: seq<Row>, r: Row)
    requires NewestFirst(rows) && r in rows
    ensures Once(rows, r)
  {
    var i :| 0 <= i < |rows| && rows[i] == r;
    forall j | 0 <= j < |rows| && j != i ensures rows[j] != r {
      var first, second := Min(i, j), Max(i, j);
      assert rows[first] != rows[second];
    }
  }

  /** With timestamps of the cursor's grain a walk that reaches the end lists
      every matching row there was at its start, each once. */
  lemma {:induction false} MillisecondRowsAllListed(codec: Codec, tables: seq<seq<Row>>, f: Filter, limit: Option<int>)
    requires Sound(codec) && Growing(tables) && Datable(tables) && tables != []
    requires forall r :: r in Last(tables) ==> r.createdAt % 1000 == 0
    ensures var w := Follow(codec, tables, f, limit, None);
            w.Ok? && (w.value.finished ==> forall r :: r in tables[0] && Asked(f, r) ==> Once(w.value.items, r))
  {
    var w := Follow(codec, tables, f, limit, None);
    MillisecondsAreApart(Last(tables), f);
    ListsNothingTwice(codec, tables, f, limit);
    ListsEverything(codec, tables, f, limit);
    if w.value.finished {
      forall r | r in tables[0] && Asked(f, r) ensures Once(w.value.items, r) { ListedOnce(w.value.items, r); }
    }
  }

  lemma ApartLosesNothing(t: Trace, table: seq<Row>, f: Filter, r: Row)
    requires Within(t.boundaries, t.items) && Within(t.items, table) && AllEligible(t.items, f, None)
    requires Apart(table, f) && r in table && Matches(f, r)
    ensures !Lost(t.boundaries, r)
  {
    forall i | 0 <= i < |t.boundaries| ensures !Shadows(t.boundaries[i], r) {
      var j :| 0 <= j < |t.items| && t.items[j] == t.boundaries[i];
      assert t.items[j] in table && Eligible(f, None, t.items[j]);
    }
  }

  // ---- The condition is needed ------------------------------------------------------------------

  /** `n` reads of a table nobody writes. */
  function Still(table: seq<Row>, n: nat): seq<seq<Row>> {
    if n == 0 then [] else [table] + Still(table, n - 1)
  }

  lemma {:induction false} StillGrows(table: seq<Row>, n: nat)
    requires Keyed(table)
    ensures Growing(Still(table, n)) && |Still(table, n)| == n && (n > 0 ==> Still(table, n)[0] == table)
    ensures forall i :: 0 <= i < n ==> Still(table, n)[i] == table
  {
    if n > 0 {
      StillGrows(table, n - 1);
      assert Still(table, n)[1..] == Still(table, n - 1);
    }
  }

  /** With one row a page, every listed row but the last ends a page. */
  lemma {:induction false} SingleRowPages(tables: seq<seq<Row>>, f: Filter, cursor: Option<Cursor>)
    requires Growing(tables) && Trail(tables, f, 1, cursor).finished
    ensures var t := Trail(tables, f, 1, cursor);
            if t.items == [] then t.boundaries == [] else t.boundaries == Front(t.items) || t.boundaries == t.items
    decreases |tables|
  {
    var page := PageAt(tables[0], f, cursor, 1);
    PageIsExact(tables[0], f, cursor, 1);
    if page.next.Some? {
      var rest := Trail(tables[1..], f, 1, page.next);
      SingleRowPages(tables[1..], f, page.next);
      assert page.items == [Last(page.items)];
      if rest.items != [] {
        assert page.items + Front(rest.items) == Front(page.items + rest.items);
      } else {
        assert page.items + rest.items == page.items;
      }
    }
  }

  lemma {:induction false} SelectedShrinks(table: seq<Row>, f: Filter, c: Option<Cursor>, c': Option<Cursor>, r: Row)
    requires forall x :: x in table && Eligible(f, c', x) ==> Eligible(f, c, x)
    ensures |Selected(table, f, c')| <= |Selected(table, f, c)|
    ensures r in table && Eligible(f, c, r) && !Eligible(f, c', r) ==> |Selected(table, f, c')| < |Selected(table, f, c)|
  {
    if table != [] {
      assert table == Front(table) + [Last(table)];
      SelectedShrinks(Front(table), f, c, c', r);
    }
  }

  lemma NextPageHasFewer(table: seq<Row>, f: Filter, limit: nat, cursor: Option<Cursor>)
    requires Keyed(table) && limit > 0 && PageAt(table, f, cursor, limit).next.Some?
    ensures |Selected(table, f, PageAt(table, f, cursor, limit).next)| < |Selected(table, f, cursor)|
  {
    var page := PageAt(table, f, cursor, limit);
    PageIsExact(table, f, cursor, limit);
    var b := Last(page.items);
    assert b in page.items;
    forall x | x in table && Eligible(f, page.next, x) ensures Eligible(f, cursor, x) { BelowIsAfter(b, x); }
    SelectedShrinks(table, f, cursor, page.next, b);
  }

  /** On a table nobody writes the walk ends: each page leaves fewer rows. */
  lemma {:induction false} StillFinishes(table: seq<Row>, n: nat, f: Filter, limit: nat, cursor: Option<Cursor>)
    requires Keyed(table) && limit > 0 && n > |Selected(table, f, cursor)|
    ensures Trail(Still(table, n), f, limit, cursor).finished
    decreases n
  {
    var tables, page := Still(table, n), PageAt(table, f, cursor, limit);
    assert tables[0] == table && tables[1..] == Still(table, n - 1);
    if page.next.Some? {
      NextPageHasFewer(table, f, limit, cursor);
      StillFinishes(table, n - 1, f, limit, page.next);
    }
  }

  lemma StillIsDatable(table: seq<Row>, n: nat)
    requires Keyed(table) && Datable([table])
    ensures Datable(Still(table, n))
  {
    StillGrows(table, n);
    forall i, r: Row | 0 <= i < n && r in Still(table, n)[i] ensures IsDate(r.createdAt / 1000) {
      assert r in [table][0];
    }
  }

  /** One row a page on a table that is not written: the walk ends, and if the
      matching rows are not apart it misses one. */
  lemma OneRowPages(codec: Codec, table: seq<Row>, n: nat, f: Filter)
    requires Sound(codec) && Keyed(table) && Datable([table]) && n > |table| && !Apart(table, f)
    ensures var w := Follow(codec, Still(table, n), f, Some(1), None);
            w.Ok? && w.value.finished && exists r :: r in table && Asked(f, r) && r !in w.value.items
  {
    StillGrows(table, n);
    StillIsDatable(table, n);
    SelectedIsPart(table, f, None);
    FollowIsTrail(codec, Still(table, n), f, Some(1), None);
    StillFinishes(table, n, f, 1, None);
    OneRowPagesLose(table, n, f);
  }

  /** A table that is not written lists completely at every page size exactly when
      its matching rows are apart: otherwise one row a page already loses one. */
  lemma {:induction false} ListsAllExactly(codec: Codec, table: seq<Row>, n: nat, f: Filter)
    requires Sound(codec) && Keyed(table) && Datable([table]) && n > |table|
    ensures Apart(table, f) <==>
              forall limit :: ListsAll(Follow(codec, Still(table, n), f, limit, None), table, f)
  {
    var tables := Still(table, n);
    if Apart(table, f) {
      StillGrows(table, n);
      StillIsDatable(table, n);
      SelectedIsPart(table, f, None);
      forall limit ensures ListsAll(Follow(codec, tables, f, limit, None), table, f) {
        ListsEverything(codec, tables, f, limit);
        FollowIsTrail(codec, tables, f, limit, None);
        StillFinishes(table, n, f, Clamped(limit), None);
      }
    } else {
      OneRowPages(codec, table, n, f);
      assert !ListsAll(Follow(codec, tables, f, Some(1), None), table, f);
    }
  }

  lemma {:induction false} SelectedIsPart(table: seq<Row>, f: Filter, cursor: Option<Cursor>)
    ensures |Selected(table, f, cursor)| <= |table|
  {
    if table != [] { SelectedIsPart(Front(table), f, cursor); }
  }

  lemma OneRowPagesLose(table: seq<Row>, n: nat, f: Filter)
    requires Keyed(table) && n > 0 && Trail(Still(table, n), f, 1, None).finished && !Apart(table, f)
    ensures exists r :: r in table && Asked(f, r) && r !in Trail(Still(table, n), f, 1, None).items
  {
    var tables := Still(table, n);
    var t := Trail(tables, f, 1, None);
    var a, b :| a in table && b in table && Matches(f, a) && Matches(f, b) && Shadows(a, b);
    StillGrows(table, n);
    SingleRowPages(tables, f, None);
    TrailDescends(tables, f, 1, None);
    if a in t.items && b in t.items {
      EarlierEndsAPage(t, a, b);
      MissedExactly(tables, f, 1, None, b);
    }
  }

  lemma EarlierEndsAPage(t: Trace, a: Row, b: Row)
    requires Descending(t.items) && a in t.items && b in t.items && Shadows(a, b)
    requires t.boundaries == Front(t.items) || t.boundaries == t.items
    ensures Lost(t.boundaries, b)
  {
    var i :| 0 <= i < |t.items| && t.items[i] == a;
    var j :| 0 <= j < |t.items| && t.items[j] == b;
    assert i < j;
    assert t.boundaries[i] == a;
  }

  function ValueFor(wanted: Option<string>): string { if wanted.Some? then wanted.value else "" }

  /** A matching row with the given id and creation time, in microseconds. */
  function RowFor(f: Filter, id: nat, createdAt: int): Row {
    Row(id, f.organizationId, ValueFor(f.action), ValueFor(f.result), ValueFor(f.targetType), createdAt)
  }

  /** Two rows one microsecond apart, within a millisecond. */
  function MicrosecondTable(f: Filter, ms: int): seq<Row> {
    [RowFor(f, 0, 1000 * ms + 2), RowFor(f, 1, 1000 * ms + 1)]
  }

  lemma MicrosecondsAreNotApart(f: Filter, ms: int)
    ensures var t := MicrosecondTable(f, ms);
            Keyed(t) && Matches(f, t[0]) && Matches(f, t[1]) && !Apart(t, f)
  {
    var t := MicrosecondTable(f, ms);
    assert Front(t) == [t[0]] && Front([t[0]]) == [];
    assert Shadows(t[0], t[1]);
    assert t[0] in t && t[1] in t;
  }

  /** Listed one a page, whatever the filter, one of the two is never returned. */
  lemma {:induction false} MicrosecondsAreLost(codec: Codec, f: Filter, ms: int)
    requires Sound(codec) && IsDate(ms)
    ensures var w := Follow(codec, Still(MicrosecondTable(f, ms), 3), f, Some(1), None);
            w.Ok? && w.value.finished && exists r :: r in MicrosecondTable(f, ms) && Asked(f, r) && r !in w.value.items
  {
    MicrosecondsAreNotApart(f, ms);
    assert Datable([MicrosecondTable(f, ms)]);
    OneRowPages(codec, MicrosecondTable(f, ms), 3, f);
  }
}
