/** The cache_entries table and its compare-and-swap updates
    (src/repositories/postgres/cache-repository.ts, src/db/schema.ts). Each
    function is one SQL statement; the class holds the table. */
module CacheRepository {
  import opened Basics
  import opened CacheStorageKey
  import opened CacheIdentity

  datatype Status = Pending | Ready | Failed | Invalidated

  datatype Row = Row(
    status: Status, storageKey: Option<string>, contentHash: Option<string>, contentEncoding: Option<string>,
    contentBytes: Option<int>, responseStatus: Option<int>, renderedAt: Option<int>,
    freshUntil: Option<int>, staleUntil: Option<int>, lastAttemptAt: Option<int>,
    lastErrorCode: Option<string>, invalidatedAt: Option<int>, generation: int)

  type Rows = map<Scope, Row>

  /** What a successful render writes. */
  datatype Content = Content(
    storageKey: string, contentHash: string, contentEncoding: string, contentBytes: int, responseStatus: int,
    renderedAt: int, freshUntil: int, staleUntil: int)

  /** An update hits its row, finds none, or violates a constraint of the table. */
  datatype Update = Updated(row: Row) | NoMatch | Violation

  /** The generation column is a 32-bit integer. */
  const MAX_GENERATION := 0x7fff_ffff

  /** The CHECK constraints of the table on the modelled columns. */
  predicate MeetsChecks(scope: Scope, r: Row) {
    && 1 <= r.generation <= MAX_GENERATION
    && (r.contentBytes.Some? ==> r.contentBytes.value >= 0)
    && (r.responseStatus.Some? ==> 100 <= r.responseStatus.value < 600)
    && (r.staleUntil.Some? && r.freshUntil.Some? ==> r.staleUntil.value >= r.freshUntil.value)
    && (r.status.Ready? ==> r.storageKey.Some? && r.contentHash.Some? && r.renderedAt.Some?
                            && r.freshUntil.Some? && r.staleUntil.Some?)
    && (r.status.Pending? ==> r.storageKey.None? && r.contentHash.None?)
    && (r.status.Invalidated? ==> r.invalidatedAt.Some?)
    && IsHex64(scope.cacheKeyHash)
    && (r.contentHash.Some? ==> IsHex64(r.contentHash.value))
    && (r.storageKey.Some? ==> !HasDotDot(r.storageKey.value))
  }

  function PendingRow(now: int): Row {
    Row(Pending, None, None, None, None, None, None, None, None, Some(now), None, None, 1)
  }

  function ReadyRow(r: Row, c: Content, now: int): Row {
    Row(Ready, Some(c.storageKey), Some(c.contentHash), Some(c.contentEncoding), Some(c.contentBytes),
        Some(c.responseStatus), Some(c.renderedAt), Some(c.freshUntil), Some(c.staleUntil), Some(now),
        None, r.invalidatedAt, r.generation + 1)
  }

  function FailedRow(r: Row, errorCode: string, now: int): Row {
    r.(status := Failed, lastErrorCode := Some(errorCode), lastAttemptAt := Some(now), generation := r.generation + 1)
  }

  function InvalidatedRow(r: Row, now: int): Row {
    r.(status := Invalidated, invalidatedAt := Some(now), generation := r.generation + 1)
  }

  /** Replace the row, unless the table's constraints reject the new one. */
  function Write(rows: Rows, scope: Scope, r: Row): (Update, Rows) {
    if MeetsChecks(scope, r) then (Updated(r), rows[scope := r]) else (Violation, rows)
  }

  /** INSERT ... ON CONFLICT DO NOTHING, then the row that is there. */
  function CreatePending(rows: Rows, scope: Scope, now: int): (Update, Rows) {
    if scope in rows then (Updated(rows[scope]), rows) else Write(rows, scope, PendingRow(now))
  }

  predicate Matches(rows: Rows, scope: Scope, expectedGeneration: int) {
    scope in rows && rows[scope].generation == expectedGeneration
  }

  /** A bound generation the column type cannot hold fails the statement. */
  predicate Bindable(generation: int) { -MAX_GENERATION - 1 <= generation <= MAX_GENERATION }

  function UpdateReady(rows: Rows, scope: Scope, c: Content, expectedGeneration: int, now: int): (Update, Rows) {
    if !Bindable(expectedGeneration) then (Violation, rows)
    else if Matches(rows, scope, expectedGeneration) then Write(rows, scope, ReadyRow(rows[scope], c, now))
    else (NoMatch, rows)
  }

  function UpdateFailed(rows: Rows, scope: Scope, errorCode: string, expectedGeneration: int, now: int): (Update, Rows) {
    if !Bindable(expectedGeneration) then (Violation, rows)
    else if Matches(rows, scope, expectedGeneration) then Write(rows, scope, FailedRow(rows[scope], errorCode, now))
    else (NoMatch, rows)
  }

  function Invalidate(rows: Rows, scope: Scope, now: int): (Update, Rows) {
    if scope in rows then Write(rows, scope, InvalidatedRow(rows[scope], now)) else (NoMatch, rows)
  }

  function Find(rows: Rows, scope: Scope): Option<Row> {
    if scope in rows then Some(rows[scope]) else None
  }

  class Repository {
    var rows: Rows

    constructor ()
      ensures rows == map[]
    {
      rows := map[];
    }

    /** Commit a new version of a row, as the database does. */
    method Store(scope: Scope, r: Row) returns (u: Update)
      modifies this
      ensures (u, rows) == Write(old(rows), scope, r)
    {
      if !MeetsChecks(scope, r) { return Violation; }
      rows := rows[scope := r];
      u := Updated(r);
    }

    method CreatePendingCacheEntry(scope: Scope, now: int) returns (u: Update)
      modifies this
      ensures scope in old(rows) ==> rows == old(rows) && u == Updated(old(rows)[scope])
      ensures scope !in old(rows) && u.Updated? ==>
        rows == old(rows)[scope := Row(Pending, None, None, None, None, None, None, None, None, Some(now), None, None, 1)]
      ensures (u, rows) == CreatePending(old(rows), scope, now)
    {
      if scope in rows { return Updated(rows[scope]); }
      u := Store(scope, PendingRow(now));
    }

    method UpdateReadyCacheEntry(scope: Scope, c: Content, expectedGeneration: int, now: int) returns (u: Update)
      modifies this
      ensures (u, rows) == UpdateReady(old(rows), scope, c, expectedGeneration, now)
    {
      if !Bindable(expectedGeneration) { return Violation; }
      if scope !in rows || rows[scope].generation != expectedGeneration { return NoMatch; }
      u := Store(scope, ReadyRow(rows[scope], c, now));
    }

    method UpdateFailedCacheEntry(scope: Scope, errorCode: string, expectedGeneration: int, now: int) returns (u: Update)
      modifies this
      ensures (u, rows) == UpdateFailed(old(rows), scope, errorCode, expectedGeneration, now)
    {
      if !Bindable(expectedGeneration) { return Violation; }
      if scope !in rows || rows[scope].generation != expectedGeneration { return NoMatch; }
      u := Store(scope, FailedRow(rows[scope], errorCode, now));
    }

    method InvalidateCacheEntry(scope: Scope, now: int) returns (u: Update)
      modifies this
      ensures (u, rows) == Invalidate(old(rows), scope, now)
    {
      if scope !in rows { return NoMatch; }
      u := Store(scope, InvalidatedRow(rows[scope], now));
    }

    method FindCacheEntryByIdentity(scope: Scope) returns (r: Option<Row>)
      ensures r == Find(rows, scope)
    {
      r := if scope in rows then Some(rows[scope]) else None;
    }
  }
}
