/** Every column of every cache row, over every run, read off the history of
    updates applied to it. */
module CacheHistory {
  import opened Basics
  import opened CacheStorageKey
  import opened CacheIdentity
  import opened CachePolicy
  import opened CacheRepository
  import opened CacheStorageService
  import opened CacheProtocol
  import opened CacheSafety

  // ---- Reading a history, latest update first ------------------------------------

  /** The last commit that made the row ready. */
  function LastReady(es: seq<Applied>): Option<nat> {
    if es == [] then None else if Last(es).ReadyBy? then Some(Last(es).commit) else LastReady(Front(es))
  }

  /** The error code of the last failure mark since the row was last made ready. */
  function LastError(es: seq<Applied>): Option<string> {
    if es == [] then None
    else
      match Last(es)
      case ReadyBy(_) => None
      case MarkedFailed(code, _) => Some(code)
      case WasInvalidated(_) => LastError(Front(es))
  }

  function LastInvalidation(es: seq<Applied>): Option<int> {
    if es == [] then None else if Last(es).WasInvalidated? then Some(Last(es).at) else LastInvalidation(Front(es))
  }

  /** The time of the last render attempt that was recorded, failed or not. */
  function LastAttempt(es: seq<Applied>, cs: seq<Commit>): Option<int> {
    if es == [] then None
    else
      match Last(es)
      case ReadyBy(i) => if i < |cs| then Some(cs[i].input.now) else None
      case MarkedFailed(_, at) => Some(at)
      case WasInvalidated(_) => LastAttempt(Front(es), cs)
  }

  function StatusAfter(es: seq<Applied>): Status {
    if es == [] then Pending
    else match Last(es) case ReadyBy(_) => Ready case MarkedFailed(_, _) => Failed case WasInvalidated(_) => Invalidated
  }

  // ---- What the columns say -----------------------------------------------------------

  /** The commit's policy, five minutes fresh and an hour stale if it gave none,
      within the bounds of ten seconds, thirty days and thirty days. */
  ghost predicate Lasts(c: CommitInput, freshSeconds: int, staleSeconds: int) {
    && (c.policy.None? ==> freshSeconds == 300 && staleSeconds == 3600)
    && (c.policy.Some? ==> freshSeconds == c.policy.value.freshTtlSeconds && staleSeconds == c.policy.value.staleTtlSeconds)
    && 10 <= freshSeconds <= 2_592_000 && 0 <= staleSeconds <= 2_592_000
  }

  /** The freshness window in milliseconds. */
  ghost predicate Dated(r: Row, c: CommitInput) {
    && r.renderedAt == Some(c.now)
    && exists freshSeconds, staleSeconds ::
         && Lasts(c, freshSeconds, staleSeconds)
         && r.freshUntil == Some(c.now + 1000 * freshSeconds)
         && r.staleUntil == Some(c.now + 1000 * freshSeconds + 1000 * staleSeconds)
  }

  ghost predicate ContentOfCommit(r: Row, c: Commit) {
    && r.storageKey == Some(c.prep.storageKey)
    && r.contentHash == Some(c.prep.contentHash)
    && r.contentEncoding == Some(match c.prep.encoding case Br => "br" case Gzip => "gzip" case Plain => "identity")
    && r.contentBytes == Some(|c.prep.body|)
    && r.responseStatus == Some(c.input.responseStatus)
    && Dated(r, c.input)
  }

  predicate NoContent(r: Row) {
    r.storageKey == None && r.contentHash == None && r.contentEncoding == None && r.contentBytes == None
    && r.responseStatus == None && r.renderedAt == None && r.freshUntil == None && r.staleUntil == None
  }

  ghost predicate RowSays(r: Row, es: seq<Applied>, cs: seq<Commit>) {
    && r.status == StatusAfter(es)
    && r.generation == 1 + |es|
    && r.lastErrorCode == LastError(es)
    && r.invalidatedAt == LastInvalidation(es)
    && (LastAttempt(es, cs).Some? ==> r.lastAttemptAt == LastAttempt(es, cs))
    && match LastReady(es)
       case None => NoContent(r)
       case Some(i) => i < |cs| && ContentOfCommit(r, cs[i])
  }

  ghost predicate RowsSay(rows: Rows, log: map<Scope, seq<Applied>>, cs: seq<Commit>) {
    log.Keys == rows.Keys && forall scope :: scope in rows ==> RowSays(rows[scope], log[scope], cs)
  }

  // ---- Each update --------------------------------------------------------------------

  lemma {:induction false} AttemptContinues(es: seq<Applied>, cs: seq<Commit>, ds: seq<Commit>)
    requires Remembers(cs, ds)
    requires forall k :: 0 <= k < |es| && es[k].ReadyBy? ==> es[k].commit < |cs|
    ensures LastAttempt(es, ds) == LastAttempt(es, cs)
  {
    if es != [] {
      assert es[|es| - 1] == Last(es);
      AttemptContinues(Front(es), cs, ds);
    }
  }

  lemma RowContinues(r: Row, es: seq<Applied>, cs: seq<Commit>, ds: seq<Commit>)
    requires RowSays(r, es, cs) && Remembers(cs, ds)
    requires forall k :: 0 <= k < |es| && es[k].ReadyBy? ==> es[k].commit < |cs|
    ensures RowSays(r, es, ds)
  {
    AttemptContinues(es, cs, ds);
  }

  lemma ScansOfSnoc(es: seq<Applied>, a: Applied)
    ensures Front(es + [a]) == es && Last(es + [a]) == a
  {
  }

  lemma FailureSays(r: Row, es: seq<Applied>, cs: seq<Commit>, code: string, at: int)
    requires RowSays(r, es, cs)
    ensures RowSays(FailedRow(r, code, at), es + [MarkedFailed(code, at)], cs)
  {
    ScansOfSnoc(es, MarkedFailed(code, at));
  }

  lemma InvalidationSays(r: Row, es: seq<Applied>, cs: seq<Commit>, at: int)
    requires RowSays(r, es, cs)
    ensures RowSays(InvalidatedRow(r, at), es + [WasInvalidated(at)], cs)
  {
    ScansOfSnoc(es, WasInvalidated(at));
  }

  lemma WindowDated(c: CommitInput, win: Window, r: Row)
    requires FreshnessWindow(PolicyOf(c), c.now) == Ok(win)
    requires r.renderedAt == Some(c.now) && r.freshUntil == Some(win.freshUntil) && r.staleUntil == Some(win.staleUntil)
    ensures Dated(r, c)
  {
    assert Lasts(c, PolicyOf(c).freshTtlSeconds, PolicyOf(c).staleTtlSeconds);
  }

  lemma CommitSays(r: Row, es: seq<Applied>, cs: seq<Commit>, i: nat, win: Window)
    requires RowSays(r, es, cs) && i < |cs|
    requires FreshnessWindow(PolicyOf(cs[i].input), cs[i].input.now) == Ok(win)
    ensures RowSays(ReadyRow(r, ContentOf(cs[i].prep, cs[i].input, win), cs[i].input.now), es + [ReadyBy(i)], cs)
  {
    ScansOfSnoc(es, ReadyBy(i));
    WindowDated(cs[i].input, win, ReadyRow(r, ContentOf(cs[i].prep, cs[i].input, win), cs[i].input.now));
  }

  // ---- Each step -----------------------------------------------------------------------

  lemma RowsContinueSaying(rows: Rows, log: map<Scope, seq<Applied>>, cs: seq<Commit>, ds: seq<Commit>)
    requires RowsSay(rows, log, cs) && LogInv(log, cs) && Remembers(cs, ds)
    ensures RowsSay(rows, log, ds)
  {
    forall scope | scope in rows ensures RowSays(rows[scope], log[scope], ds) {
      assert forall k :: 0 <= k < |log[scope]| ==> EntryInv(log[scope][k], scope, k, cs);
      RowContinues(rows[scope], log[scope], cs, ds);
    }
  }

  lemma RowUpdated(rows: Rows, log: map<Scope, seq<Applied>>, cs: seq<Commit>, scope: Scope, r: Row, a: Applied)
    requires RowsSay(rows, log, cs) && scope in rows && RowSays(r, log[scope] + [a], cs)
    ensures RowsSay(rows[scope := r], log[scope := log[scope] + [a]], cs)
  {
  }

  lemma WonSays(rows: Rows, log: map<Scope, seq<Applied>>, cs: seq<Commit>, i: nat, row: Row)
    requires RowsSay(rows, log, cs) && i < |cs|
    requires SwapRow(rows, cs[i].prep, cs[i].input).0 == Won(row)
    ensures var scope := cs[i].prep.scope;
            && scope in rows && SwapRow(rows, cs[i].prep, cs[i].input).1 == rows[scope := row]
            && RowSays(row, log[scope] + [ReadyBy(i)], cs)
  {
    var win := FreshnessWindow(PolicyOf(cs[i].input), cs[i].input.now).value;
    CommitSays(rows[cs[i].prep.scope], log[cs[i].prep.scope], cs, i, win);
  }

  lemma SwapSays(s: System, i: nat)
    requires LogInv(s.log, s.commits) && RowsSay(s.rows, s.log, s.commits) && InPhase(s, i, Swapping)
    ensures RowsSay(SwapCommit(s, i).rows, SwapCommit(s, i).log, SwapCommit(s, i).commits)
  {
    var c, ds := s.commits[i], SwapCommit(s, i).commits;
    SwapPersists(s, i);
    RowsContinueSaying(s.rows, s.log, s.commits, ds);
    match SwapRow(s.rows, c.prep, c.input).0
    case Won(row) =>
      assert ds[i].prep == c.prep && ds[i].input == c.input;
      WonSays(s.rows, s.log, ds, i, row);
      RowUpdated(s.rows, s.log, ds, c.prep.scope, row, ReadyBy(i));
    case _ =>
  }

  lemma FailureStepSays(w: World, l: Limits, s: System, id: Identity, g: int, code: string, now: int)
    requires RowsSay(s.rows, s.log, s.commits)
    ensures var t := Step(w, l, s, MarkFailed(id, g, code, now)); RowsSay(t.rows, t.log, t.commits)
  {
    var scope := ScopeOf(w.sha, id);
    if UpdateFailed(s.rows, scope, code, g, now).0.Updated? {
      FailureSays(s.rows[scope], s.log[scope], s.commits, code, now);
      RowUpdated(s.rows, s.log, s.commits, scope, FailedRow(s.rows[scope], code, now), MarkedFailed(code, now));
    }
  }

  lemma InvalidationStepSays(w: World, l: Limits, s: System, id: Identity, now: int)
    requires RowsSay(s.rows, s.log, s.commits)
    ensures var t := Step(w, l, s, InvalidateRow(id, now)); RowsSay(t.rows, t.log, t.commits)
  {
    var scope := ScopeOf(w.sha, id);
    if Invalidate(s.rows, scope, now).0.Updated? {
      InvalidationSays(s.rows[scope], s.log[scope], s.commits, now);
      RowUpdated(s.rows, s.log, s.commits, scope, InvalidatedRow(s.rows[scope], now), WasInvalidated(now));
    }
  }

  lemma CreationStepSays(w: World, l: Limits, s: System, id: Identity, now: int)
    requires RowsSay(s.rows, s.log, s.commits)
    ensures var t := Step(w, l, s, CreateRow(id, now)); RowsSay(t.rows, t.log, t.commits)
  {
    assert RowSays(PendingRow(now), [], s.commits);
  }

  predicate WritesRows(a: Action) { a.CreateRow? || a.SwapStep? || a.MarkFailed? || a.InvalidateRow? }

  lemma OthersWriteNoRow(w: World, l: Limits, s: System, a: Action)
    requires !WritesRows(a)
    ensures Step(w, l, s, a).rows == s.rows && Step(w, l, s, a).log == s.log
  {
  }

  lemma StepSays(w: World, l: Limits, s: System, a: Action)
    requires Inv(w, l, s) && RowsSay(s.rows, s.log, s.commits)
    ensures var t := Step(w, l, s, a); RowsSay(t.rows, t.log, t.commits)
  {
    match a
    case CreateRow(id, now) => CreationStepSays(w, l, s, id, now);
    case SwapStep(i) => if InPhase(s, i, Swapping) { SwapSays(s, i); }
    case MarkFailed(id, g, code, now) => FailureStepSays(w, l, s, id, g, code, now);
    case InvalidateRow(id, now) => InvalidationStepSays(w, l, s, id, now);
    case _ =>
      OthersWriteNoRow(w, l, s, a);
      StepPersists(w, l, s, a);
      RowsContinueSaying(s.rows, s.log, s.commits, Step(w, l, s, a).commits);
  }

  /** In every reachable state every column of every row is what its history of
      applied updates says: the status is that of the last update, the generation
      counts them, the content is that of the last commit applied, with its window
      in milliseconds, the error code that of the last failure mark since, and the
      invalidation time that of the last invalidation. */
  lemma {:induction false} RowsSayTheirHistory(w: World, l: Limits, actions: seq<Action>)
    ensures var s := After(w, l, actions); RowsSay(s.rows, s.log, s.commits)
  {
    if actions != [] {
      var s := After(w, l, Front(actions));
      Invariant(w, l, Front(actions));
      RowsSayTheirHistory(w, l, Front(actions));
      StepSays(w, l, s, Last(actions));
    }
  }
}
