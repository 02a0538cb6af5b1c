/** What the invariants of CacheProtocol mean for callers: generations count
    updates, and reads return what was committed. */
module CacheSafety {
  import opened Basics
  import opened CacheStorageKey
  import opened CacheIdentity
  import opened CachePolicy
  import opened HtmlObjectStore
  import opened CacheRepository
  import opened CacheStorageService
  import opened CacheProtocol

  // ---- Generations -------------------------------------------------------------

  /** Every row's generation is one plus the number of updates applied to it. */
  ghost predicate GenerationsCount(s: System) {
    && s.log.Keys == s.rows.Keys
    && forall scope :: scope in s.rows ==> s.rows[scope].generation == 1 + |s.log[scope]|
  }

  ghost predicate Rivals(c: Commit, d: Commit) {
    c.prep.scope == d.prep.scope && c.input.expectedGeneration == d.input.expectedGeneration
  }

  /** Of the commits that expect one generation of one row, one was applied at most. */
  ghost predicate OneWinner(s: System) {
    forall i, j :: 0 <= i < |s.commits| && 0 <= j < |s.commits|
      && s.commits[i].phase.Committed? && s.commits[j].phase.Committed?
      && Rivals(s.commits[i], s.commits[j])
      ==> i == j
  }

  /** In every reachable state generations count updates, and every applied
      commit holds the log position of the generation it expected. */
  lemma GenerationsCountUpdates(w: World, l: Limits, actions: seq<Action>)
    ensures GenerationsCount(After(w, l, actions))
    ensures WinnersInv(After(w, l, actions).log, After(w, l, actions).commits)
  {
    Invariant(w, l, actions);
    var s := After(w, l, actions);
    forall scope | scope in s.rows ensures s.rows[scope].generation == 1 + |s.log[scope]| {
      assert RowInv(scope, s.rows[scope], s.log[scope], s.commits);
    }
  }

  /** Of the commits that expected one generation of one row, the swap of at
      most one was ever applied. */
  lemma SwapAppliedOnce(w: World, l: Limits, actions: seq<Action>)
    ensures OneWinner(After(w, l, actions))
  {
    GenerationsCountUpdates(w, l, actions);
    var s := After(w, l, actions);
    forall i, j | 0 <= i < |s.commits| && 0 <= j < |s.commits| && s.commits[i].phase.Committed?
                  && s.commits[j].phase.Committed? && Rivals(s.commits[i], s.commits[j])
      ensures i == j
    {
      assert WinnerLogged(i, s.commits[i], s.log) && WinnerLogged(j, s.commits[j], s.log);
    }
  }

  /** The log is a history: no step rewrites it. */
  lemma LogOnlyGrows(w: World, l: Limits, s: System, a: Action)
    requires s.log.Keys == s.rows.Keys
    ensures forall scope :: scope in s.log ==> scope in Step(w, l, s, a).log && s.log[scope] <= Step(w, l, s, a).log[scope]
  {
    var t := Step(w, l, s, a);
    if a.SwapStep? && InPhase(s, a.i, Swapping) {
      SwapLogs(s, a.i);
    }
  }

  lemma SwapLogs(s: System, i: nat)
    requires i < |s.commits|
    ensures var scope := s.commits[i].prep.scope;
            SwapCommit(s, i).log == s.log || SwapCommit(s, i).log == Logged(s, scope, ReadyBy(i)).log
  {
    var swap := SwapRow(s.rows, s.commits[i].prep, s.commits[i].input);
  }

  /** Stored keys satisfy the table's format constraints. */
  lemma PreparedKeyIsClean(w: World, l: Limits, i: CommitInput)
    requires Prepare(w, l, i).Ok?
    ensures !HasDotDot(Prepare(w, l, i).value.storageKey) && IsHex64(Prepare(w, l, i).value.contentHash)
  {
    KeysNeverTraverse(ShapeOf(KeyParams(w, i)));
  }

  /** In a reachable state the database rejects the swap of a commit exactly when
      its response status is no HTTP status, or the generation column is at its
      end; no other CHECK constraint can fire. */
  lemma SwapRejectedExactly(w: World, l: Limits, actions: seq<Action>, i: nat)
    requires InPhase(After(w, l, actions), i, Swapping)
    ensures var s := After(w, l, actions);
            var c := s.commits[i].input;
            SwapRow(s.rows, s.commits[i].prep, c).0 == Threw(DatabaseError)
            <==> ValidPolicy(PolicyOf(c))
                 && (!Bindable(c.expectedGeneration)
                     || (Matches(s.rows, s.commits[i].prep.scope, c.expectedGeneration)
                         && (!(100 <= c.responseStatus < 600) || c.expectedGeneration == MAX_GENERATION)))
  {
    Invariant(w, l, actions);
    var s := After(w, l, actions);
    var p, c := s.commits[i].prep, s.commits[i].input;
    PreparedKeyIsClean(w, l, c);
    if p.scope in s.rows {
      assert RowInv(p.scope, s.rows[p.scope], s.log[p.scope], s.commits);
    }
  }

  /** How the other updates end, in every reachable state. A failure mark is
      refused for a generation the column cannot hold, or at the column's end;
      applied if its row is at the expected generation; and otherwise does nothing.
      An invalidation is applied to any row below the column's end. Creating a row
      that exists does nothing. */
  lemma {:induction false} MarksEndExactly(w: World, l: Limits, actions: seq<Action>, scope: Scope, code: string, expected: int, now: int)
    ensures var rows := After(w, l, actions).rows;
            var here, fits := scope in rows && rows[scope].generation == expected, -2_147_483_648 <= expected <= 2_147_483_647;
            var mark, invalidation, creation :=
              UpdateFailed(rows, scope, code, expected, now), Invalidate(rows, scope, now), CreatePending(rows, scope, now);
            && (mark.0 == Violation <==> !fits || (here && expected == 2_147_483_647))
            && (mark.0.Updated? <==> here && expected < 2_147_483_647)
            && (mark.0 == NoMatch <==> fits && !here)
            && (invalidation.0 == Violation <==> scope in rows && rows[scope].generation == 2_147_483_647)
            && (invalidation.0.Updated? <==> scope in rows && rows[scope].generation < 2_147_483_647)
            && (invalidation.0 == NoMatch <==> scope !in rows)
            && (scope in rows ==> creation == (Updated(rows[scope]), rows))
            && (scope !in rows ==> (creation.0.Updated? <==> IsHex64(scope.cacheKeyHash)))
            && (!mark.0.Updated? ==> mark.1 == rows) && (!invalidation.0.Updated? ==> invalidation.1 == rows)
  {
    Invariant(w, l, actions);
    var s := After(w, l, actions);
    if scope in s.rows { assert RowInv(scope, s.rows[scope], s.log[scope], s.commits); }
  }

  // ---- Reads ---------------------------------------------------------------------

  /** The commit `i` made the last update of the row, which made it ready. */
  ghost predicate LastWriter(s: System, scope: Scope, i: nat) {
    && scope in s.rows && scope in s.log && s.log[scope] != [] && Last(s.log[scope]) == ReadyBy(i)
    && InPhase(s, i, Committed)
    && WrittenBy(scope, s.rows[scope], s.commits[i])
  }

  /** `html` is what `written` committed, and for the reader's identity; or
      there is a SHA-256 collision. */
  ghost predicate Faithful(w: World, html: Bytes, id: Identity, written: CommitInput) {
    && (html == written.html || Collision(w.hashHtml, html, written.html))
    && (NulFreeIdentity(id) && NulFreeIdentity(written.identity) ==>
          Resolved(written.identity) == Resolved(id) || Collision(w.sha, Joined(written.identity), Joined(id)))
  }

  lemma ReadyHasWriter(w: World, l: Limits, s: System, scope: Scope) returns (i: nat)
    requires Inv(w, l, s) && scope in s.rows && s.rows[scope].status.Ready?
    ensures LastWriter(s, scope, i)
    ensures Prepare(w, l, s.commits[i].input) == Ok(s.commits[i].prep)
  {
    var entries := s.log[scope];
    assert RowInv(scope, s.rows[scope], entries, s.commits);
    assert EntryInv(entries[|entries| - 1], scope, |entries| - 1, s.commits);
    i := Last(entries).commit;
  }

  lemma ReadIsFaithful(w: World, l: Limits, s: System, id: Identity, fetched: Result<Option<StoredObject>, StoreError>, i: nat)
    requires LastWriter(s, ScopeOf(w.sha, id), i) && Prepare(w, l, s.commits[i].input) == Ok(s.commits[i].prep)
    requires ReadReady(w, l, id, Find(s.rows, ScopeOf(w.sha, id)), fetched).Ok?
    ensures Faithful(w, ReadReady(w, l, id, Find(s.rows, ScopeOf(w.sha, id)), fetched).value, id, s.commits[i].input)
  {
    var c := s.commits[i].input;
    if NulFreeIdentity(id) && NulFreeIdentity(c.identity) && Resolved(c.identity) != Resolved(id) {
      DistinctIdentitiesDistinctRows(w.sha, c.identity, id);
    }
  }

  /** Whatever the store answers and whatever happens between the row lookup and
      the fetch, a read that succeeds returns the HTML of the very commit that
      wrote the row it looked up, and that commit was for the reader's own
      identity; anything else exhibits a SHA-256 collision. */
  lemma {:induction false} ReadReturnsTheCommit(w: World, l: Limits, actions: seq<Action>, id: Identity,
      fetched: Result<Option<StoredObject>, StoreError>) returns (i: nat)
    requires ReadReady(w, l, id, Find(After(w, l, actions).rows, ScopeOf(w.sha, id)), fetched).Ok?
    ensures LastWriter(After(w, l, actions), ScopeOf(w.sha, id), i)
    ensures Faithful(w, ReadReady(w, l, id, Find(After(w, l, actions).rows, ScopeOf(w.sha, id)), fetched).value,
                     id, After(w, l, actions).commits[i].input)
  {
    var s := After(w, l, actions);
    Invariant(w, l, actions);
    i := ReadyHasWriter(w, l, s, ScopeOf(w.sha, id));
    ReadIsFaithful(w, l, s, id, fetched, i);
  }

  /** The object under a commit's key came from a commit with the same content
      hash and encoding. */
  lemma SameKeySameContent(w: World, l: Limits, c: Commit, d: Commit)
    requires Prepare(w, l, c.input) == Ok(c.prep) && Prepare(w, l, d.input) == Ok(d.prep)
    requires c.prep.storageKey == d.prep.storageKey
    ensures c.prep.contentHash == d.prep.contentHash && c.prep.encoding == d.prep.encoding
    ensures c.input.expectedGeneration == d.input.expectedGeneration
    ensures c.prep.scope.organizationId == d.prep.scope.organizationId
    ensures c.prep.scope.projectId == d.prep.scope.projectId
    ensures c.prep.scope.domainId == d.prep.scope.domainId
    ensures c.prep.scope.cacheKeyHash == d.prep.scope.cacheKeyHash
  {
    BuildInjective(KeyParams(w, c.input), KeyParams(w, d.input));
  }

  ghost predicate ReadyFor(w: World, s: System, id: Identity) {
    ScopeOf(w.sha, id) in s.rows && s.rows[ScopeOf(w.sha, id)].status.Ready?
  }

  lemma PreparedKeyParses(w: World, l: Limits, i: CommitInput)
    requires Prepare(w, l, i).Ok? && i.expectedGeneration < MAX_GENERATION
    ensures var p := Prepare(w, l, i).value;
            && p.storageKey != ""
            && CheckKeyMatches(p.storageKey, p.scope.cacheKeyHash, i.expectedGeneration + 1, p.contentHash, EncodingName(p.encoding))
               == Ok(Defaulted(KeyParams(w, i)))
  {
    ParseAfterBuild(KeyParams(w, i));
    assert ParseKey("").Err?;
  }

  /** The metadata checks of a read pass on every reachable ready row. */
  lemma ReadyMetadataIsSound(w: World, l: Limits, s: System, id: Identity)
    requires Inv(w, l, s) && ReadyFor(w, s, id)
    ensures CheckMetadata(w, id, Find(s.rows, ScopeOf(w.sha, id))) == Ok(s.rows[ScopeOf(w.sha, id)])
  {
    var scope := ScopeOf(w.sha, id);
    var i := ReadyHasWriter(w, l, s, scope);
    assert RowInv(scope, s.rows[scope], s.log[scope], s.commits);
    PreparedKeyParses(w, l, s.commits[i].input);
    PreparedKeyIsClean(w, l, s.commits[i].input);
  }

  ghost predicate ReadLimitsCoverWrites(l: Limits) {
    l.maxDecompressedReadBytes >= l.maxUncompressedHtmlBytes && l.maxDecompressedReadBytes >= 1
  }

  /** An object put under the key that a row names passes every check on it. */
  lemma PutObjectsPass(w: World, l: Limits, row: Row, d: Commit)
    requires Lawful(w) && ReadLimitsCoverWrites(l)
    requires Prepare(w, l, d.input) == Ok(d.prep)
    requires row.contentHash == Some(d.prep.contentHash)
    requires row.contentEncoding == Some(EncodingName(d.prep.encoding))
    ensures CheckObject(w, l, row, Ok(Some(ObjectOf(d.prep)))) == Ok(d.input.html)
  {
    assert EncodingNamed(EncodingName(d.prep.encoding)) == Some(d.prep.encoding);
    assert Decompress(w, d.prep.body, d.prep.encoding, l.maxDecompressedReadBytes) == Html(d.input.html);
  }

  /** readReadyHtml with its row looked up in `s` and its object fetched in `t`. */
  function SplitRead(w: World, l: Limits, s: System, t: System, id: Identity): Result<Bytes, ReadError> {
    var entry := Find(s.rows, ScopeOf(w.sha, id));
    ReadReady(w, l, id, entry,
      Ok(Get(t.objects, if entry.Some? && entry.value.storageKey.Some? then entry.value.storageKey.value else "")))
  }

  /** The row names the object of the commit `c`. */
  ghost predicate Names(row: Row, c: Commit) {
    && row.storageKey == Some(c.prep.storageKey)
    && row.contentHash == Some(c.prep.contentHash)
    && row.contentEncoding == Some(EncodingName(c.prep.encoding))
  }

  /** Who put the object that a row names. */
  lemma MakerOfNamed(w: World, l: Limits, objects: Objects, cs: seq<Commit>, row: Row, i: nat) returns (j: nat)
    requires CommitsInv(w, l, cs) && ObjectsInv(objects, cs)
    requires i < |cs| && Names(row, cs[i]) && row.storageKey.value in objects
    ensures j < |cs| && Names(row, cs[j]) && objects[row.storageKey.value] == ObjectOf(cs[j].prep)
    ensures Prepare(w, l, cs[j].input) == Ok(cs[j].prep)
  {
    var key := row.storageKey.value;
    j :| 0 <= j < |cs| && PutBy(key, objects[key], cs[j]);
    SameKeySameContent(w, l, cs[i], cs[j]);
  }

  lemma StoredUnderKeyPasses(w: World, l: Limits, objects: Objects, cs: seq<Commit>, row: Row, i: nat)
    requires Lawful(w) && ReadLimitsCoverWrites(l) && CommitsInv(w, l, cs) && ObjectsInv(objects, cs)
    requires i < |cs| && Names(row, cs[i]) && row.storageKey.value in objects
    ensures var r := CheckObject(w, l, row, Ok(Some(objects[row.storageKey.value])));
            r.Ok? && row.contentHash == Some(w.hashHtml(r.value))
  {
    var j := MakerOfNamed(w, l, objects, cs, row, i);
    PutObjectsPass(w, l, row, cs[j]);
  }

  /** The checks on what the store holds under a row's key, given who wrote the row. */
  lemma ObjectOutcome(w: World, l: Limits, objects: Objects, cs: seq<Commit>, row: Row, i: nat)
    requires Lawful(w) && ReadLimitsCoverWrites(l) && CommitsInv(w, l, cs) && ObjectsInv(objects, cs)
    requires i < |cs| && Names(row, cs[i])
    ensures var r := CheckObject(w, l, row, Ok(Get(objects, row.storageKey.value)));
            && (row.storageKey.value in objects ==> r.Ok? && row.contentHash == Some(w.hashHtml(r.value)))
            && (row.storageKey.value !in objects ==> r == Err(Integrity(MissingObject)))
  {
    if row.storageKey.value in objects { StoredUnderKeyPasses(w, l, objects, cs, row, i); }
  }

  /** Once the metadata passes, a read is the checks on the object. */
  lemma SplitReadIsCheck(w: World, l: Limits, s: System, t: System, id: Identity)
    requires ReadyFor(w, s, id)
    requires var row := s.rows[ScopeOf(w.sha, id)];
             row.storageKey.Some? && row.contentEncoding.Some? && row.contentHash.Some?
             && CheckMetadata(w, id, Some(row)) == Ok(row)
    ensures var row := s.rows[ScopeOf(w.sha, id)];
            SplitRead(w, l, s, t, id) == CheckObject(w, l, row, Ok(Get(t.objects, row.storageKey.value)))
  {
  }

  /** A row looked up at one moment and its object fetched at any later moment:
      with the writer's limits, the read can only succeed or find the object
      missing. Malformed metadata, wrong encoding, size, corruption and hash
      failures are unreachable. */
  lemma {:induction false} ReadFailsOnlyByMissingObject(w: World, l: Limits, before: seq<Action>, between: seq<Action>, id: Identity)
    requires Lawful(w) && ReadLimitsCoverWrites(l)
    requires ReadyFor(w, After(w, l, before), id)
    ensures var s, t := After(w, l, before), After(w, l, before + between);
            var row, r := s.rows[ScopeOf(w.sha, id)], SplitRead(w, l, s, t, id);
            && row.storageKey.Some?
            && (row.storageKey.value in t.objects ==> r.Ok? && row.contentHash == Some(w.hashHtml(r.value)))
            && (row.storageKey.value !in t.objects ==> r == Err(Integrity(MissingObject)))
  {
    var s, t := After(w, l, before), After(w, l, before + between);
    Invariant(w, l, before);
    var i := ReadyHasWriter(w, l, s, ScopeOf(w.sha, id));
    ReadyMetadataIsSound(w, l, s, id);
    CommitsPersist(w, l, before, between);
    Invariant(w, l, before + between);
    SplitReadIsCheck(w, l, s, t, id);
    ObjectOutcome(w, l, t.objects, t.commits, s.rows[ScopeOf(w.sha, id)], i);
  }

  /** Later commits know every earlier one, and who committed. */
  ghost predicate Remembers(cs: seq<Commit>, ds: seq<Commit>) {
    && |cs| <= |ds|
    && (forall i :: 0 <= i < |cs| ==> ds[i].prep == cs[i].prep && ds[i].input == cs[i].input)
    && (forall i :: 0 <= i < |cs| && cs[i].phase.Committed? ==> ds[i].phase.Committed?)
  }

  lemma SwapPersists(s: System, i: nat)
    requires InPhase(s, i, Swapping)
    ensures Remembers(s.commits, SwapCommit(s, i).commits)
  {
    var swap := SwapRow(s.rows, s.commits[i].prep, s.commits[i].input);
  }

  lemma StepPersists(w: World, l: Limits, s: System, a: Action)
    ensures Remembers(s.commits, Step(w, l, s, a).commits)
  {
    if a.SwapStep? && InPhase(s, a.i, Swapping) { SwapPersists(s, a.i); }
  }

  lemma {:induction false} CommitsPersist(w: World, l: Limits, a: seq<Action>, b: seq<Action>)
    ensures Remembers(After(w, l, a).commits, After(w, l, a + b).commits)
  {
    if b == [] {
      assert a + b == a;
    } else {
      CommitsPersist(w, l, a, Front(b));
      StepPersists(w, l, After(w, l, a + Front(b)), Last(b));
      assert Front(a + b) == a + Front(b) && Last(a + b) == Last(b);
      assert After(w, l, a + b) == Step(w, l, After(w, l, a + Front(b)), Last(b));
    }
  }
}
