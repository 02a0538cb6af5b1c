/** The coordination of metadata rows and stored objects
    (src/services/cache-storage-service.ts): the three steps of a commit, the
    failure and invalidation marks, and the fail-closed read. SHA-256 and the
    codecs (brotli, RFC 7932; gzip, RFC 1952) are parameters. */
module CacheStorageService {
  import opened Basics
  import opened CacheStorageKey
  import opened CacheIdentity
  import opened CachePolicy
  import opened HtmlObjectStore
  import opened CacheRepository

  datatype Decompressed = Html(bytes: Bytes) | OverLimit | Corrupt

  datatype World = World(
    sha: Sha256,
    hashHtml: Bytes -> string,
    brotli: Bytes -> Bytes,
    gzip: Bytes -> Bytes,
    unbrotli: (Bytes, int) -> Decompressed,
    gunzip: (Bytes, int) -> Decompressed)

  /** Digests are 64 hex digits, and decompressing what was compressed gives it
      back, or reports that it exceeds the limit. */
  ghost predicate Lawful(w: World) {
    && (forall t :: IsHex64(w.sha(t)))
    && (forall h :: IsHex64(w.hashHtml(h)))
    && (forall h, max :: max >= 1 ==>
          w.unbrotli(w.brotli(h), max) == if |h| <= max then Html(h) else OverLimit)
    && (forall h, max :: max >= 1 ==>
          w.gunzip(w.gzip(h), max) == if |h| <= max then Html(h) else OverLimit)
  }

  function Compress(w: World, html: Bytes, e: Encoding): Bytes {
    match e case Br => w.brotli(html) case Gzip => w.gzip(html) case Plain => html
  }

  function Decompress(w: World, data: Bytes, e: Encoding, max: int): Decompressed {
    match e
    case Br => w.unbrotli(data, max)
    case Gzip => w.gunzip(data, max)
    case Plain => if |data| > max then OverLimit else Html(data)
  }

  datatype Limits = Limits(maxUncompressedHtmlBytes: int, maxStoredObjectBytes: int, maxDecompressedReadBytes: int)

  datatype CommitInput = CommitInput(
    identity: Identity, html: Bytes, responseStatus: int, expectedGeneration: int,
    contentEncoding: Option<Encoding>, policy: Option<Policy>, now: int)

  datatype CommitError =
    | HtmlSizeLimitExceeded | StoredObjectSizeLimitExceeded | InvalidStorageKey
    | ObjectStore(error: StoreError) | PolicyRejected | DatabaseError

  datatype CommitResult = Success(entry: Row) | Conflict | Thrown(error: CommitError)

  /** Everything a commit computes before its first effect. */
  datatype Prepared = Prepared(
    scope: Scope, storageKey: string, contentHash: string, encoding: Encoding, body: Bytes)

  function EncodingOf(i: CommitInput): Encoding {
    if i.contentEncoding.Some? then i.contentEncoding.value else Br
  }

  function PolicyOf(i: CommitInput): Policy {
    if i.policy.Some? then i.policy.value else DEFAULT_POLICY
  }

  function KeyParams(w: World, i: CommitInput): Params {
    ObjectKeyParams(w.sha, i.identity, i.expectedGeneration + 1, w.hashHtml(i.html), EncodingOf(i))
  }

  function Prepare(w: World, l: Limits, i: CommitInput): Result<Prepared, CommitError> {
    if |i.html| > l.maxUncompressedHtmlBytes then Err(HtmlSizeLimitExceeded)
    else
      var body := Compress(w, i.html, EncodingOf(i));
      if |body| > l.maxStoredObjectBytes then Err(StoredObjectSizeLimitExceeded)
      else
        match BuildKey(KeyParams(w, i))
        case Err(_) => Err(InvalidStorageKey)
        case Ok(key) => Ok(Prepared(ScopeOf(w.sha, i.identity), key, w.hashHtml(i.html), EncodingOf(i), body))
  }

  function ObjectOf(p: Prepared): StoredObject { StoredObject(p.body, p.encoding) }

  function ContentOf(p: Prepared, i: CommitInput, win: Window): Content {
    Content(p.storageKey, p.contentHash, EncodingName(p.encoding), |p.body|, i.responseStatus,
            i.now, win.freshUntil, win.staleUntil)
  }

  /** How the compare-and-swap of a commit ends. A rejected policy and a database
      error throw past the cleanup. */
  datatype Swap = Won(row: Row) | Lost | Threw(error: CommitError)

  function SwapRow(rows: Rows, p: Prepared, i: CommitInput): (Swap, Rows) {
    match FreshnessWindow(PolicyOf(i), i.now)
    case Err(_) => (Threw(PolicyRejected), rows)
    case Ok(win) =>
      var (u, rows') := UpdateReady(rows, p.scope, ContentOf(p, i, win), i.expectedGeneration, i.now);
      match u
      case Updated(row) => (Won(row), rows')
      case NoMatch => (Lost, rows')
      case Violation => (Threw(DatabaseError), rows')
  }

  // ---- The read --------------------------------------------------------------

  datatype Reason =
    | MissingObject | CorruptData | HashMismatch | SizeLimitExceeded | EncodingMismatch | MalformedMetadata

  datatype ReadError = NotReady | Integrity(reason: Reason) | StoreFailure(error: StoreError)

  function EncodingNamed(name: string): Option<Encoding> {
    if name == "br" then Some(Br) else if name == "gzip" then Some(Gzip)
    else if name == "identity" then Some(Plain) else None
  }

  /** The metadata checks made before the object is fetched. */
  function CheckMetadata(w: World, id: Identity, entry: Option<Row>): Result<Row, ReadError> {
    if entry.None? || !entry.value.status.Ready? then Err(NotReady)
    else
      var e := entry.value;
      if e.storageKey.None? || e.storageKey.value == "" || e.contentHash.None? || e.contentHash.value == ""
         || e.contentEncoding.None? || e.contentEncoding.value == "" || e.contentBytes.None? || e.generation < 1
      then Err(Integrity(MalformedMetadata))
      else if !IsHex64(e.contentHash.value) then Err(Integrity(MalformedMetadata))
      else
        match CheckKeyMatches(e.storageKey.value, CacheKeyHash(w.sha, id), e.generation,
                              e.contentHash.value, e.contentEncoding.value)
        case Err(_) => Err(Integrity(MalformedMetadata))
        case Ok(parsed) =>
          if EncodingName(parsed.contentEncoding) != e.contentEncoding.value then Err(Integrity(EncodingMismatch))
          else Ok(e)
  }

  /** The checks made on the fetched object. */
  function CheckObject(w: World, l: Limits, e: Row, fetched: Result<Option<StoredObject>, StoreError>)
    : Result<Bytes, ReadError>
    requires e.contentEncoding.Some? && e.contentHash.Some?
  {
    match fetched
    case Err(err) => Err(StoreFailure(err))
    case Ok(None) => Err(Integrity(MissingObject))
    case Ok(Some(o)) =>
      if |o.body| > l.maxStoredObjectBytes then Err(Integrity(SizeLimitExceeded))
      else
        match EncodingNamed(e.contentEncoding.value)
        case None => Err(Integrity(CorruptData))
        case Some(enc) =>
          match Decompress(w, o.body, enc, l.maxDecompressedReadBytes)
          case OverLimit => Err(Integrity(SizeLimitExceeded))
          case Corrupt => Err(Integrity(CorruptData))
          case Html(html) =>
            if !IsHex64(w.hashHtml(html)) || !IsHex64(e.contentHash.value) || w.hashHtml(html) != e.contentHash.value
            then Err(Integrity(HashMismatch))
            else Ok(html)
  }

  /** readReadyHtml, from the row it looked up and what the store answered. */
  function ReadReady(w: World, l: Limits, id: Identity, entry: Option<Row>, fetched: Result<Option<StoredObject>, StoreError>)
    : Result<Bytes, ReadError>
  {
    match CheckMetadata(w, id, entry)
    case Err(err) => Err(err)
    case Ok(e) => CheckObject(w, l, e, fetched)
  }

  // ---- The service object ------------------------------------------------------

  class Service {
    const world: World
    const limits: Limits
    const repository: Repository
    const objectStore: MemoryStore

    constructor (world: World, limits: Limits, repository: Repository, objectStore: MemoryStore)
      ensures this.world == world && this.limits == limits
      ensures this.repository == repository && this.objectStore == objectStore
    {
      this.world := world;
      this.limits := limits;
      this.repository := repository;
      this.objectStore := objectStore;
    }

    /** The update step of a commit. */
    method SwapMetadata(p: Prepared, input: CommitInput) returns (s: Swap)
      modifies repository
      ensures (s, repository.rows) == SwapRow(old(repository.rows), p, input)
    {
      var win := FreshnessWindow(PolicyOf(input), input.now);
      if win.Err? { return Threw(PolicyRejected); }
      var u := repository.UpdateReadyCacheEntry(p.scope, ContentOf(p, input, win.value), input.expectedGeneration, input.now);
      match u {
        case Updated(row) => s := Won(row);
        case NoMatch => s := Lost;
        case Violation => s := Threw(DatabaseError);
      }
    }

    /** A cleanup failure is swallowed. */
    method BestEffortCleanup(storageKey: string, fails: bool)
      modifies objectStore
      ensures objectStore.objects == Delete(old(objectStore.objects), storageKey, fails).1
    {
      var _ := objectStore.DeleteObject(storageKey, fails);
    }

    /** A commit that nothing interleaves with: put, swap, and cleanup exactly
        when the swap was lost. */
    method CommitRenderedHtml(input: CommitInput, putFails: bool, cleanupFails: bool) returns (r: CommitResult)
      modifies repository, objectStore
      ensures match Prepare(world, limits, input)
        case Err(e) =>
          r == Thrown(e) && repository.rows == old(repository.rows) && objectStore.objects == old(objectStore.objects)
        case Ok(p) =>
          var (put, stored) := Put(old(objectStore.objects), p.storageKey, ObjectOf(p), false, putFails);
          match put
          case Err(e) =>
            r == Thrown(ObjectStore(e)) && repository.rows == old(repository.rows)
            && objectStore.objects == old(objectStore.objects)
          case Ok(_) =>
            var (swap, rows) := SwapRow(old(repository.rows), p, input);
            && repository.rows == rows
            && (swap.Lost? ==> r == Conflict && objectStore.objects == Delete(stored, p.storageKey, cleanupFails).1)
            && (swap.Won? ==> r == Success(swap.row) && objectStore.objects == stored)
            && (swap.Threw? ==> r == Thrown(swap.error) && objectStore.objects == stored)
    {
      var prepared := Prepare(world, limits, input);
      if prepared.Err? { return Thrown(prepared.error); }
      var p := prepared.value;
      var put := objectStore.PutObject(p.storageKey, ObjectOf(p), false, putFails);
      if put.Err? { return Thrown(ObjectStore(put.error)); }
      var swap := SwapMetadata(p, input);
      match swap {
        case Won(row) => r := Success(row);
        case Threw(e) => r := Thrown(e);
        case Lost =>
          BestEffortCleanup(p.storageKey, cleanupFails);
          r := Conflict;
      }
    }

    method MarkRenderFailed(id: Identity, expectedGeneration: int, errorCode: string, now: int) returns (u: Update)
      modifies repository
      ensures (u, repository.rows)
           == UpdateFailed(old(repository.rows), ScopeOf(world.sha, id), errorCode, expectedGeneration, now)
    {
      u := repository.UpdateFailedCacheEntry(ScopeOf(world.sha, id), errorCode, expectedGeneration, now);
    }

    method InvalidateEntry(id: Identity, now: int) returns (u: Update)
      modifies repository
      ensures (u, repository.rows) == Invalidate(old(repository.rows), ScopeOf(world.sha, id), now)
    {
      u := repository.InvalidateCacheEntry(ScopeOf(world.sha, id), now);
    }

    method ReadReadyHtml(id: Identity, storeError: Option<StoreError>) returns (r: Result<Bytes, ReadError>)
      ensures var entry := Find(repository.rows, ScopeOf(world.sha, id));
              r == ReadReady(world, limits, id, entry,
                     if storeError.Some? then Err(storeError.value)
                     else Ok(Get(objectStore.objects,
                            if entry.Some? && entry.value.storageKey.Some? then entry.value.storageKey.value else "")))
    {
      var entry := repository.FindCacheEntryByIdentity(ScopeOf(world.sha, id));
      var checked := CheckMetadata(world, id, entry);
      if checked.Err? { return Err(checked.error); }
      var fetched: Result<Option<StoredObject>, StoreError>;
      if storeError.Some? {
        fetched := Err(storeError.value);
      } else {
        var o := objectStore.GetObject(checked.value.storageKey.value);
        fetched := Ok(o);
      }
      r := CheckObject(world, limits, checked.value, fetched);
    }
  }
}
