/** Listing audit events page by page (src/services/audit-service.ts,
    src/repositories/postgres/audit-repository.ts).

    Rows carry the database's microsecond timestamps; a cursor carries the
    millisecond a JavaScript Date keeps of one. Ids are the 128-bit numbers the
    database orders. Each page is read from the table as it is at that moment. */
module AuditPaging {
  import opened Basics

  const DEFAULT_PAGE_LIMIT := 20
  const MAX_PAGE_LIMIT := 100

  datatype Row = Row(id: nat, organizationId: string, action: string, result: string, targetType: string, createdAt: int)

  datatype Filter = Filter(organizationId: string, action: Option<string>, result: Option<string>, targetType: Option<string>)

  /** `createdAt` in milliseconds. */
  datatype Cursor = Cursor(createdAt: int, id: nat)

  /** The cursor made of a row: reading the row dropped its microseconds. */
  function CursorOf(r: Row): Cursor { Cursor(r.createdAt / 1000, r.id) }

  // ---- listAuditEventsForOrganization ------------------------------------------------

  /** An absent or empty filter value filters nothing. */
  predicate Passes(wanted: Option<string>, value: string) {
    wanted.Some? && wanted.value != "" ==> wanted.value == value
  }

  predicate Matches(f: Filter, r: Row) {
    r.organizationId == f.organizationId && Passes(f.action, r.action) && Passes(f.result, r.result)
    && Passes(f.targetType, r.targetType)
  }

  predicate Below(r: Row, c: Cursor) {
    r.createdAt < c.createdAt * 1000 || (r.createdAt == c.createdAt * 1000 && r.id < c.id)
  }

  predicate Eligible(f: Filter, cursor: Option<Cursor>, r: Row) {
    Matches(f, r) && (cursor.Some? ==> Below(r, cursor.value))
  }

  function Selected(table: seq<Row>, f: Filter, cursor: Option<Cursor>): seq<Row> {
    if table == [] then []
    else Selected(Front(table), f, cursor) + if Eligible(f, cursor, Last(table)) then [Last(table)] else []
  }

  /** `a` is listed before `b`: createdAt descending, then id descending. */
  predicate Before(a: Row, b: Row) {
    a.createdAt > b.createdAt || (a.createdAt == b.createdAt && a.id > b.id)
  }

  function Insert(r: Row, rows: seq<Row>): seq<Row> {
    if rows == [] then [r]
    else if Before(r, rows[0]) then [r] + rows
    else [rows[0]] + Insert(r, rows[1..])
  }

  function Ordered(rows: seq<Row>): seq<Row> {
    if rows == [] then [] else Insert(Last(rows), Ordered(Front(rows)))
  }

  function Query(table: seq<Row>, f: Filter, cursor: Option<Cursor>, limit: nat): seq<Row> {
    var rows := Ordered(Selected(table, f, cursor));
    if |rows| > limit then rows[..limit] else rows
  }

  // ---- The cursor token ------------------------------------------------------------------

  /** Dates, uuids and base64url as text. */
  datatype Codec = Codec(
    toISOString: int -> string, parseDate: string -> Option<int>,
    showId: nat -> string, parseId: string -> Option<nat>,
    base64url: string -> string, fromBase64url: string -> string)

  /** The range of a JavaScript Date, in milliseconds. */
  predicate IsDate(t: int) { -8_640_000_000_000_000 <= t <= 8_640_000_000_000_000 }

  predicate Ascii(s: string) { forall i :: 0 <= i < |s| ==> s[i] as int < 128 }

  ghost predicate Sound(codec: Codec) {
    && (forall t :: IsDate(t) ==>
          var text := codec.toISOString(t);
          text != "" && '|' !in text && Ascii(text) && codec.parseDate(text) == Some(t))
    && (forall n: nat ::
          var text := codec.showId(n);
          text != "" && Ascii(text) && codec.parseId(text) == Some(n))
    && (forall s :: Ascii(s) && s != "" ==> codec.base64url(s) != "" && codec.fromBase64url(codec.base64url(s)) == s)
  }

  datatype ListError = InvalidAuditCursor | DatabaseRejectsId

  function IndexOf(s: string, c: char): (i: nat)
    ensures i <= |s| && (i < |s| ==> s[i] == c) && c !in s[..i]
  {
    if s == "" || s[0] == c then 0
    else
      assert forall k :: 1 <= k <= |s| ==> s[..k] == [s[0]] + s[1..][..k - 1];
      IndexOf(s[1..], c) + 1
  }

  function EncodeAuditCursor(codec: Codec, c: Cursor): string {
    codec.base64url(codec.toISOString(c.createdAt) + "|" + codec.showId(c.id))
  }

  /** The text halves of a token, split at its first separator. */
  function DecodeAuditCursor(codec: Codec, token: string): Result<(int, string), ListError> {
    var payload := codec.fromBase64url(token);
    var i := IndexOf(payload, '|');
    if i == |payload| || i == 0 then Err(InvalidAuditCursor)
    else
      var createdAt, id := codec.parseDate(payload[..i]), payload[i + 1..];
      if createdAt.None? || id == "" then Err(InvalidAuditCursor) else Ok((createdAt.value, id))
  }

  // ---- list ---------------------------------------------------------------------------------

  datatype Page = Page(items: seq<Row>, next: Option<Cursor>)

  function Clamped(limit: Option<int>): (r: nat)
    ensures 1 <= r <= MAX_PAGE_LIMIT
  {
    Min(Max(if limit.Some? then limit.value else DEFAULT_PAGE_LIMIT, 1), MAX_PAGE_LIMIT)
  }

  /** One row more than the page tells whether there is a next page. */
  function PageAt(table: seq<Row>, f: Filter, cursor: Option<Cursor>, limit: nat): Page
    requires limit > 0
  {
    var rows := Query(table, f, cursor, limit + 1);
    var items := if |rows| > limit then rows[..limit] else rows;
    Page(items, if |rows| > limit then Some(CursorOf(Last(items))) else None)
  }

  datatype Listing = Listing(items: seq<Row>, nextCursor: Option<string>)

  /** AuditService.list: an empty cursor is no cursor. */
  function List(codec: Codec, table: seq<Row>, f: Filter, limit: Option<int>, token: Option<string>): Result<Listing, ListError> {
    var cursor: Result<Option<Cursor>, ListError> :=
      if token.None? || token.value == "" then Ok(None)
      else match DecodeAuditCursor(codec, token.value)
        case Err(e) => Err(e)
        case Ok((createdAt, id)) =>
          if codec.parseId(id).None? then Err(DatabaseRejectsId) else Ok(Some(Cursor(createdAt, codec.parseId(id).value)));
    match cursor
    case Err(e) => Err(e)
    case Ok(c) =>
      var page := PageAt(table, f, c, Clamped(limit));
      Ok(Listing(page.items, if page.next.Some? then Some(EncodeAuditCursor(codec, page.next.value)) else None))
  }

  /** A client that follows nextCursor, the table being tables[i] at page i. */
  datatype Walk = Walk(items: seq<Row>, finished: bool)

  function Follow(codec: Codec, tables: seq<seq<Row>>, f: Filter, limit: Option<int>, token: Option<string>): Result<Walk, ListError> {
    if tables == [] then Ok(Walk([], false))
    else match List(codec, tables[0], f, limit, token)
      case Err(e) => Err(e)
      case Ok(page) =>
        if page.nextCursor.None? then Ok(Walk(page.items, true))
        else match Follow(codec, tables[1..], f, limit, page.nextCursor)
          case Err(e) => Err(e)
          case Ok(rest) => Ok(Walk(page.items + rest.items, rest.finished))
  }

  // ---- A page is exactly the next rows -----------------------------------------------------------

  /** Ids are unique: they are the primary key. */
  ghost predicate Keyed(rows: seq<Row>) {
    rows != [] ==> (forall r :: r in Front(rows) ==> r.id != Last(rows).id) && Keyed(Front(rows))
  }

  ghost predicate Descending(rows: seq<Row>) {
    forall i, j :: 0 <= i < j < |rows| ==> Before(rows[i], rows[j])
  }

  lemma {:induction false} SelectedExactly(table: seq<Row>, f: Filter, cursor: Option<Cursor>, r: Row)
    ensures r in Selected(table, f, cursor) <==> r in table && Eligible(f, cursor, r)
  {
    if table != [] {
      SelectedExactly(Front(table), f, cursor, r);
      assert table == Front(table) + [Last(table)];
    }
  }

  lemma {:induction false} SelectedKeyed(table: seq<Row>, f: Filter, cursor: Option<Cursor>)
    requires Keyed(table)
    ensures Keyed(Selected(table, f, cursor))
  {
    if table != [] {
      SelectedKeyed(Front(table), f, cursor);
      var before := Selected(Front(table), f, cursor);
      if Eligible(f, cursor, Last(table)) {
        assert Front(before + [Last(table)]) == before;
        forall r | r in before ensures r.id != Last(table).id { SelectedExactly(Front(table), f, cursor, r); }
      } else {
        assert before + [] == before;
      }
    }
  }

  lemma {:induction false} InsertExactly(r: Row, rows: seq<Row>, x: Row)
    ensures x in Insert(r, rows) <==> x == r || x in rows
  {
    if rows != [] {
      InsertExactly(r, rows[1..], x);
      assert rows == [rows[0]] + rows[1..];
    }
  }

  lemma {:induction false} InsertDescends(r: Row, rows: seq<Row>)
    requires Descending(rows) && forall x :: x in rows ==> x.id != r.id
    ensures Descending(Insert(r, rows))
  {
    if rows != [] && !Before(r, rows[0]) {
      var rest := Insert(r, rows[1..]);
      InsertDescends(r, rows[1..]);
      forall j | 0 <= j < |rest| ensures Before(rows[0], rest[j]) {
        InsertExactly(r, rows[1..], rest[j]);
        if rest[j] != r {
          var k :| 0 <= k < |rows[1..]| && rows[1..][k] == rest[j];
          assert rows[k + 1] == rest[j];
        }
      }
    }
  }

  lemma {:induction false} OrderedExactly(rows: seq<Row>, r: Row)
    ensures r in Ordered(rows) <==> r in rows
  {
    if rows != [] {
      OrderedExactly(Front(rows), r);
      InsertExactly(Last(rows), Ordered(Front(rows)), r);
      assert rows == Front(rows) + [Last(rows)];
    }
  }

  lemma {:induction false} OrderedDescends(rows: seq<Row>)
    requires Keyed(rows)
    ensures Descending(Ordered(rows))
  {
    if rows != [] {
      OrderedDescends(Front(rows));
      forall x | x in Ordered(Front(rows)) ensures x.id != Last(rows).id { OrderedExactly(Front(rows), x); }
      InsertDescends(Last(rows), Ordered(Front(rows)));
    }
  }

  /** All the eligible rows, in listing order, each once. */
  lemma AllInOrder(table: seq<Row>, f: Filter, cursor: Option<Cursor>)
    requires Keyed(table)
    ensures var all := Ordered(Selected(table, f, cursor));
            Descending(all) && forall r :: r in all <==> r in table && Eligible(f, cursor, r)
  {
    var selected := Selected(table, f, cursor);
    SelectedKeyed(table, f, cursor);
    OrderedDescends(selected);
    forall r ensures r in Ordered(selected) <==> r in table && Eligible(f, cursor, r) {
      OrderedExactly(selected, r);
      SelectedExactly(table, f, cursor, r);
    }
  }

  /** Cutting a descending list leaves out what is after the cut. */
  lemma PrefixSkipsNone(all: seq<Row>, n: nat, r: Row)
    requires Descending(all) && 0 < n <= |all| && r in all
    ensures r in all[..n] || Before(all[n - 1], r)
  {
    var k :| 0 <= k < |all| && all[k] == r;
    if k < n { assert all[..n][k] == r; }
  }

  /** A page lists eligible rows in order and skips none: an eligible row is on
      the page or after its last row, and if there is no next page it is on it. */
  lemma PageIsExact(table: seq<Row>, f: Filter, cursor: Option<Cursor>, limit: nat)
    requires Keyed(table) && limit > 0
    ensures var page := PageAt(table, f, cursor, limit);
            && Descending(page.items) && |page.items| <= limit
            && (forall r :: r in page.items ==> r in table && Eligible(f, cursor, r))
            && (page.next.Some? ==>
                  && |page.items| == limit && page.next == Some(CursorOf(Last(page.items)))
                  && exists r :: r in table && Eligible(f, cursor, r) && Before(Last(page.items), r))
            && (forall r :: r in table && Eligible(f, cursor, r) ==>
                  r in page.items || (page.next.Some? && Before(Last(page.items), r)))
  {
    var all, page := Ordered(Selected(table, f, cursor)), PageAt(table, f, cursor, limit);
    AllInOrder(table, f, cursor);
    assert page.items == if |all| > limit then all[..limit] else all;
    if page.next.Some? {
      assert all[limit] in all && Before(Last(page.items), all[limit]);
    }
    forall r | r in table && Eligible(f, cursor, r)
      ensures r in page.items || (page.next.Some? && Before(Last(page.items), r))
    {
      if page.next.Some? { PrefixSkipsNone(all, limit, r); }
    }
  }

  // ---- The token carries the cursor -----------------------------------------------------------------

  lemma {:induction false} IndexOfFirst(a: string, c: char, b: string)
    requires c !in a
    ensures IndexOf(a + [c] + b, c) == |a|
  {
    if a != "" {
      IndexOfFirst(a[1..], c, b);
      assert (a + [c] + b)[1..] == a[1..] + [c] + b;
      assert a[0] in a;
    }
  }

  /** A decoded token gives back the very cursor it was made from. */
  lemma TokenRoundTrip(codec: Codec, c: Cursor)
    requires Sound(codec) && IsDate(c.createdAt)
    ensures DecodeAuditCursor(codec, EncodeAuditCursor(codec, c)) == Ok((c.createdAt, codec.showId(c.id)))
    ensures codec.parseId(codec.showId(c.id)) == Some(c.id) && EncodeAuditCursor(codec, c) != ""
  {
    var date, id := codec.toISOString(c.createdAt), codec.showId(c.id);
    var payload := date + "|" + id;
    assert Ascii(payload);
    assert codec.fromBase64url(codec.base64url(payload)) == payload;
    IndexOfFirst(date, '|', id);
    assert payload[..|date|] == date && payload[|date| + 1..] == id;
  }

  // ---- What a listing answers ------------------------------------------------------------------------

  /** A row of the organization, with every field that is asked for. */
  predicate Asked(f: Filter, r: Row) {
    && r.organizationId == f.organizationId
    && (f.action == None || f.action == Some("") || f.action == Some(r.action))
    && (f.result == None || f.result == Some("") || f.result == Some(r.result))
    && (f.targetType == None || f.targetType == Some("") || f.targetType == Some(r.targetType))
  }

  /** Newest first, and of one instant the greatest id first. */
  ghost predicate NewestFirst(rows: seq<Row>) {
    forall i, j :: 0 <= i < j < |rows| ==>
      rows[i].createdAt > rows[j].createdAt || (rows[i].createdAt == rows[j].createdAt && rows[i].id > rows[j].id)
  }

  /** The page size is the limit asked for, 20 if none is, and at least 1 and at most 100. */
  lemma PageSize(limit: Option<int>)
    ensures limit == None ==> Clamped(limit) == 20
    ensures limit.Some? && 1 <= limit.value <= 100 ==> Clamped(limit) == limit.value
    ensures limit.Some? && limit.value < 1 ==> Clamped(limit) == 1
    ensures limit.Some? && limit.value > 100 ==> Clamped(limit) == 100
  {
  }

  lemma MatchesAsked(f: Filter, r: Row)
    ensures Matches(f, r) <==> Asked(f, r)
  {
  }

  /** A first page lists rows of the organization that are asked for, as many as
      the page holds; if it returns no cursor it lists all of them; if it does, it
      is full and there are more. */
  lemma FirstPage(codec: Codec, table: seq<Row>, f: Filter, limit: Option<int>, token: Option<string>)
    requires Keyed(table) && (token == None || token == Some(""))
    ensures var l := List(codec, table, f, limit, token);
            && l.Ok? && |l.value.items| <= Clamped(limit) && NewestFirst(l.value.items)
            && (forall r :: r in l.value.items ==> r in table && Asked(f, r))
            && (l.value.nextCursor == None ==> forall r :: r in table && Asked(f, r) ==> r in l.value.items)
            && (l.value.nextCursor != None ==>
                  && |l.value.items| == Clamped(limit)
                  && l.value.nextCursor == Some(EncodeAuditCursor(codec, CursorOf(Last(l.value.items))))
                  && exists r :: r in table && Asked(f, r) && r !in l.value.items)
  {
    var page := PageAt(table, f, None, Clamped(limit));
    PageIsExact(table, f, None, Clamped(limit));
    forall r ensures Eligible(f, None, r) <==> Asked(f, r) { MatchesAsked(f, r); }
    if page.next.Some? {
      var r :| r in table && Eligible(f, None, r) && Before(Last(page.items), r);
      NotListedAfterLast(page.items, r);
    }
  }

  lemma NotListedAfterLast(rows: seq<Row>, r: Row)
    requires Descending(rows) && rows != [] && Before(Last(rows), r)
    ensures r !in rows
  {
    forall i | 0 <= i < |rows| ensures rows[i] != r {
      if i < |rows| - 1 { assert Before(rows[i], Last(rows)); }
    }
  }

  /** What becomes of a token: its payload is cut at the first separator, and is
      refused without one, with no date or an unreadable one before it, or with
      nothing after it; then the database refuses what is no uuid; then the page
      after that cursor is listed. */
  lemma TokenAnswers(codec: Codec, table: seq<Row>, f: Filter, limit: Option<int>, token: string, date: string, id: string)
    requires token != "" && '|' !in date
    ensures var l, payload := List(codec, table, f, limit, Some(token)), codec.fromBase64url(token);
            && ('|' !in payload ==> l == Err(InvalidAuditCursor))
            && (payload == date + "|" + id ==>
                  if date == "" || codec.parseDate(date) == None || id == "" then l == Err(InvalidAuditCursor)
                  else if codec.parseId(id) == None then l == Err(DatabaseRejectsId)
                  else
                    var page := PageAt(table, f, Some(Cursor(codec.parseDate(date).value, codec.parseId(id).value)), Clamped(limit));
                    l.Ok? && l.value.items == page.items && (l.value.nextCursor.Some? <==> page.next.Some?))
  {
    var payload := codec.fromBase64url(token);
    var i := IndexOf(payload, '|');
    if i < |payload| { assert payload[i] in payload; }
    if payload == date + "|" + id {
      IndexOfFirst(date, '|', id);
      assert payload[..|date|] == date && payload[|date| + 1..] == id;
    }
  }
}
