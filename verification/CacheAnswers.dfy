/** What the render cache answers to each commit and each read, case by case, with
    the limits, codes and conditions spelled out. */
module CacheAnswers {
  import opened Basics
  import opened CacheStorageKey
  import opened CacheIdentity
  import opened CachePolicy
  import opened HtmlObjectStore
  import opened CacheRepository
  import opened CacheStorageService
  import opened CacheProtocol
  import opened CacheSafety

  // ---- Commits -------------------------------------------------------------------

  /** The stored body: brotli unless another encoding is asked for. */
  function BodyOf(w: World, i: CommitInput): Bytes {
    match i.contentEncoding
    case None => w.brotli(i.html)
    case Some(Br) => w.brotli(i.html)
    case Some(Gzip) => w.gzip(i.html)
    case Some(Plain) => i.html
  }

  /** What a commit refuses before its first effect, and what it will store and
      write otherwise: the object key is that of the generation after the expected one. */
  lemma PrepareAnswers(w: World, l: Limits, i: CommitInput)
    ensures var r := Prepare(w, l, i);
            if |i.html| > l.maxUncompressedHtmlBytes then r == Err(HtmlSizeLimitExceeded)
            else if |BodyOf(w, i)| > l.maxStoredObjectBytes then r == Err(StoredObjectSizeLimitExceeded)
            else
              var key := BuildKey(Params(i.identity.organizationId, i.identity.projectId, i.identity.domainId,
                                         w.sha(Joined(i.identity)), i.expectedGeneration + 1, w.hashHtml(i.html),
                                         Some(if i.contentEncoding == None then Br else i.contentEncoding.value)));
              if key.Err? then r == Err(InvalidStorageKey)
              else
                && r.Ok? && r.value.storageKey == key.value && r.value.contentHash == w.hashHtml(i.html)
                && r.value.encoding == (if i.contentEncoding == None then Br else i.contentEncoding.value)
                && r.value.body == BodyOf(w, i)
                && r.value.scope == Scope(i.identity.organizationId, i.identity.projectId, i.identity.domainId,
                                          if i.identity.cacheKeyVersion == None then 1 else i.identity.cacheKeyVersion.value,
                                          w.sha(Joined(i.identity)))
  {
  }

  /** The policy a commit gives, or the default one, is within its bounds. */
  predicate PolicyFits(c: CommitInput) {
    c.policy == None
    || (10 <= c.policy.value.freshTtlSeconds <= 2_592_000 && 0 <= c.policy.value.staleTtlSeconds <= 2_592_000)
  }

  predicate AtGeneration(rows: Rows, scope: Scope, g: int) { scope in rows && rows[scope].generation == g }

  /** How the swap of a commit ends, in every reachable state: rejected exactly for
      a policy out of bounds; then won exactly if its row is at the expected
      generation, below the end of the column, and the status is an HTTP status;
      lost exactly if its row is missing or at another generation; and otherwise
      refused by the database. */
  lemma {:induction false} SwapEndsExactly(w: World, l: Limits, actions: seq<Action>, i: nat)
    requires InPhase(After(w, l, actions), i, Swapping)
    ensures var s := After(w, l, actions);
            var c := s.commits[i].input;
            var swap, here := SwapRow(s.rows, s.commits[i].prep, c).0, AtGeneration(s.rows, s.commits[i].prep.scope, c.expectedGeneration);
            var fits := -2_147_483_648 <= c.expectedGeneration <= 2_147_483_647;
            && (swap == Threw(PolicyRejected) <==> !PolicyFits(c))
            && (swap.Won? <==> PolicyFits(c) && here && c.expectedGeneration < 2_147_483_647 && 100 <= c.responseStatus < 600)
            && (swap == Lost <==> PolicyFits(c) && fits && !here)
            && (swap == Threw(DatabaseError) <==>
                  PolicyFits(c) && (!fits || (here && (c.expectedGeneration == 2_147_483_647 || !(100 <= c.responseStatus < 600)))))
  {
    Invariant(w, l, actions);
    SwapRejectedExactly(w, l, actions, i);
    var s := After(w, l, actions);
    PolicyFitsExactly(s.commits[i].input);
    if s.commits[i].prep.scope in s.rows {
      assert RowInv(s.commits[i].prep.scope, s.rows[s.commits[i].prep.scope], s.log[s.commits[i].prep.scope], s.commits);
    }
  }

  lemma PolicyFitsExactly(c: CommitInput)
    ensures PolicyFits(c) <==> ValidPolicy(PolicyOf(c))
  {
  }

  // ---- Reads ----------------------------------------------------------------------

  /** The columns of a row agree with each other, its key being that of its own hash,
      generation, content hash and encoding. */
  predicate Consistent(w: World, id: Identity, e: Row) {
    && e.storageKey.Some? && e.contentHash.Some? && e.contentEncoding.Some? && e.contentBytes.Some?
    && match ParseKey(e.storageKey.value)
       case Err(_) => false
       case Ok(k) =>
         && k.cacheKeyHash == w.sha(Joined(id)) && k.generation == e.generation && k.contentHash == e.contentHash.value
         && e.contentEncoding.value == match k.contentEncoding case Br => "br" case Gzip => "gzip" case Plain => "identity"
  }

  /** A read goes on to the object exactly if the row is ready and consistent; with
      no ready row it answers not ready, with an inconsistent one malformed metadata.
      An encoding mismatch is never reported: the key check before it tells first. */
  lemma MetadataAnswers(w: World, id: Identity, entry: Option<Row>)
    ensures CheckMetadata(w, id, entry) ==
              if entry == None || entry.value.status != Ready then Err(NotReady)
              else if Consistent(w, id, entry.value) then Ok(entry.value)
              else Err(Integrity(MalformedMetadata))
  {
    if entry.Some? && entry.value.status.Ready? && entry.value.storageKey.Some? {
      ParsedPartsFit(entry.value.storageKey.value);
    }
  }

  lemma ParsedPartsFit(key: string)
    ensures ParseKey(key).Ok? ==> key != "" && IsHex64(ParseKey(key).value.contentHash) && ParseKey(key).value.generation >= 1
  {
    if ParseKey(key).Ok? { ParsedShape(key); }
  }

  /** What was decompressed, under the limit of a read. */
  function Opened(w: World, l: Limits, encoding: string, body: Bytes): Decompressed {
    if encoding == "br" then w.unbrotli(body, l.maxDecompressedReadBytes)
    else if encoding == "gzip" then w.gunzip(body, l.maxDecompressedReadBytes)
    else if encoding != "identity" then Corrupt
    else if |body| > l.maxDecompressedReadBytes then OverLimit
    else Html(body)
  }

  /** What a read answers on a ready, consistent row, from what the store answered:
      a store error as such, a missing object, an object over the size limit stored
      or opened, one that cannot be opened, and one whose HTML has another hash are
      each refused with their own reason; only HTML with the row's hash is served. */
  lemma ReadAnswers(w: World, l: Limits, id: Identity, e: Row, fetched: Result<Option<StoredObject>, StoreError>)
    requires Lawful(w) && e.status.Ready? && Consistent(w, id, e)
    ensures var r := ReadReady(w, l, id, Some(e), fetched);
            match fetched
            case Err(error) => r == Err(StoreFailure(error))
            case Ok(None) => r == Err(Integrity(MissingObject))
            case Ok(Some(o)) =>
              if |o.body| > l.maxStoredObjectBytes then r == Err(Integrity(SizeLimitExceeded))
              else
                match Opened(w, l, e.contentEncoding.value, o.body)
                case OverLimit => r == Err(Integrity(SizeLimitExceeded))
                case Corrupt => r == Err(Integrity(CorruptData))
                case Html(html) =>
                  r == if Some(w.hashHtml(html)) == e.contentHash then Ok(html) else Err(Integrity(HashMismatch))
  {
    MetadataAnswers(w, id, Some(e));
    ParsedPartsFit(e.storageKey.value);
  }
}
