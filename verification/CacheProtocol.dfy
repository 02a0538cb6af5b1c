/** Every interleaving of the render-cache protocol: any number of commits, each
    split into its asynchronous steps (put, compare-and-swap, cleanup), with
    failure marks, invalidations, injected store failures and abandoned commits
    in between. The steps are the functions of CacheStorageService. */
module CacheProtocol {
  import opened Basics
  import opened CacheStorageKey
  import opened CacheIdentity
  import opened CachePolicy
  import opened HtmlObjectStore
  import opened CacheRepository
  import opened CacheStorageService

  /** Where a commit stands. `Committed` means its swap was applied, whether or
      not its caller ever learns. */
  datatype Phase = Putting | Swapping | Cleaning | Committed | Over(how: Ending)

  datatype Ending = PutFailed | SwapThrew | CleanedUp | CleanupFailed | Abandoned

  datatype Commit = Commit(input: CommitInput, prep: Prepared, phase: Phase)

  /** One applied update of a row. */
  datatype Applied = ReadyBy(commit: nat) | MarkedFailed(code: string, at: int) | WasInvalidated(at: int)

  datatype System = System(
    objects: Objects,
    rows: Rows,
    commits: seq<Commit>,
    log: map<Scope, seq<Applied>>)   // history: the updates applied to each row, in order

  datatype Action =
    | CreateRow(identity: Identity, at: int)
    | Begin(input: CommitInput)
    | PutStep(i: nat, fails: bool)
    | SwapStep(i: nat)
    | CleanupStep(i: nat, fails: bool)
    | Abandon(i: nat)
    | MarkFailed(identity: Identity, expectedGeneration: int, errorCode: string, at: int)
    | InvalidateRow(identity: Identity, at: int)

  function Initial(): System { System(map[], map[], [], map[]) }

  predicate Working(p: Phase) { p.Putting? || p.Swapping? || p.Cleaning? }

  predicate InPhase(s: System, i: nat, p: Phase) {
    i < |s.commits| && s.commits[i].phase == p
  }

  function Advance(s: System, i: nat, p: Phase): System
    requires i < |s.commits|
  {
    s.(commits := s.commits[i := s.commits[i].(phase := p)])
  }

  function Logged(s: System, scope: Scope, a: Applied): System {
    s.(log := s.log[scope := (if scope in s.log then s.log[scope] else []) + [a]])
  }

  /** One step; a step whose turn it is not changes nothing. */
  function Step(w: World, l: Limits, s: System, a: Action): System {
    match a
    case CreateRow(id, now) =>
      var scope := ScopeOf(w.sha, id);
      var (u, rows) := CreatePending(s.rows, scope, now);
      s.(rows := rows, log := if u.Updated? && scope !in s.log then s.log[scope := []] else s.log)
    case Begin(input) =>
      (match Prepare(w, l, input)
       case Err(_) => s
       case Ok(p) => s.(commits := s.commits + [Commit(input, p, Putting)]))
    case PutStep(i, fails) =>
      if !InPhase(s, i, Putting) then s
      else
        var (r, objects) := Put(s.objects, s.commits[i].prep.storageKey, ObjectOf(s.commits[i].prep), false, fails);
        Advance(s.(objects := objects), i, if r.Ok? then Swapping else Over(PutFailed))
    case SwapStep(i) => if InPhase(s, i, Swapping) then SwapCommit(s, i) else s
    case CleanupStep(i, fails) =>
      if !InPhase(s, i, Cleaning) then s
      else
        var (r, objects) := Delete(s.objects, s.commits[i].prep.storageKey, fails);
        Advance(s.(objects := objects), i, Over(if r.Ok? then CleanedUp else CleanupFailed))
    case Abandon(i) =>
      if i < |s.commits| && Working(s.commits[i].phase) then Advance(s, i, Over(Abandoned)) else s
    case MarkFailed(id, g, code, now) =>
      var (u, rows) := UpdateFailed(s.rows, ScopeOf(w.sha, id), code, g, now);
      if u.Updated? then Logged(s.(rows := rows), ScopeOf(w.sha, id), MarkedFailed(code, now)) else s
    case InvalidateRow(id, now) =>
      var (u, rows) := Invalidate(s.rows, ScopeOf(w.sha, id), now);
      if u.Updated? then Logged(s.(rows := rows), ScopeOf(w.sha, id), WasInvalidated(now)) else s
  }

  function SwapCommit(s: System, i: nat): System
    requires i < |s.commits|
  {
    var c := s.commits[i];
    match SwapRow(s.rows, c.prep, c.input)
    case (Won(_), rows) => Logged(Advance(s.(rows := rows), i, Committed), c.prep.scope, ReadyBy(i))
    case (Lost, _) => Advance(s, i, Cleaning)
    case (Threw(_), _) => Advance(s, i, Over(SwapThrew))
  }

  function Run(w: World, l: Limits, s: System, actions: seq<Action>): System {
    if actions == [] then s else Step(w, l, Run(w, l, s, Front(actions)), Last(actions))
  }

  /** The states the system can be in. */
  function After(w: World, l: Limits, actions: seq<Action>): System {
    Run(w, l, Initial(), actions)
  }

  lemma {:induction false} RunAppend(w: World, l: Limits, s: System, a: seq<Action>, b: seq<Action>)
    ensures Run(w, l, s, a + b) == Run(w, l, Run(w, l, s, a), b)
  {
    if b == [] {
      assert a + b == a;
    } else {
      assert Front(a + b) == a + Front(b) && Last(a + b) == Last(b);
      RunAppend(w, l, s, a, Front(b));
    }
  }

  // ---- Invariants ------------------------------------------------------------

  /** A row whose last write was the commit `c`. */
  ghost predicate WrittenBy(scope: Scope, r: Row, c: Commit) {
    && c.prep.scope == scope
    && r.storageKey == Some(c.prep.storageKey)
    && r.contentHash == Some(c.prep.contentHash)
    && r.contentEncoding == Some(EncodingName(c.prep.encoding))
    && r.contentBytes == Some(|c.prep.body|)
    && r.responseStatus == Some(c.input.responseStatus)
    && r.renderedAt == Some(c.input.now) && r.lastAttemptAt == Some(c.input.now)
    && r.freshUntil.Some? && r.staleUntil.Some?
    && FreshnessWindow(PolicyOf(c.input), c.input.now) == Ok(Window(r.freshUntil.value, r.staleUntil.value))
    && r.lastErrorCode.None?
    && r.generation == c.input.expectedGeneration + 1
  }

  ghost predicate CommitsInv(w: World, l: Limits, cs: seq<Commit>) {
    forall i :: 0 <= i < |cs| ==> Prepare(w, l, cs[i].input) == Ok(cs[i].prep)
  }

  /** A commit in this phase can account for a stored object: it is past its put
      and has not cleaned up, or nobody knows how far it came. */
  predicate MayHold(p: Phase) {
    match p
    case Putting => false
    case Over(how) => how.SwapThrew? || how.CleanupFailed? || how.Abandoned?
    case _ => true
  }

  ghost predicate PutBy(key: string, o: StoredObject, c: Commit) {
    c.prep.storageKey == key && o == ObjectOf(c.prep) && MayHold(c.phase)
  }

  /** Every stored object is what some commit put under that key, and that commit
      has not removed it. */
  ghost predicate ObjectsInv(objects: Objects, cs: seq<Commit>) {
    forall key :: key in objects ==> exists i :: 0 <= i < |cs| && PutBy(key, objects[key], cs[i])
  }

  /** An applied update at position k of a row's log made generation k + 2. */
  ghost predicate EntryInv(a: Applied, scope: Scope, k: nat, cs: seq<Commit>) {
    a.ReadyBy? ==>
      && a.commit < |cs| && cs[a.commit].phase.Committed?
      && cs[a.commit].prep.scope == scope
      && cs[a.commit].input.expectedGeneration == k + 1
  }

  ghost predicate LogInv(log: map<Scope, seq<Applied>>, cs: seq<Commit>) {
    forall scope, k :: scope in log && 0 <= k < |log[scope]| ==> EntryInv(log[scope][k], scope, k, cs)
  }

  ghost predicate RowInv(scope: Scope, r: Row, entries: seq<Applied>, cs: seq<Commit>) {
    && MeetsChecks(scope, r)
    && r.generation == 1 + |entries|
    && (r.status.Ready? ==>
          && entries != [] && Last(entries).ReadyBy? && Last(entries).commit < |cs|
          && WrittenBy(scope, r, cs[Last(entries).commit]))
  }

  ghost predicate RowsInv(rows: Rows, log: map<Scope, seq<Applied>>, cs: seq<Commit>) {
    && log.Keys == rows.Keys
    && forall scope :: scope in rows ==> RowInv(scope, rows[scope], log[scope], cs)
  }

  /** A commit whose swap was applied is in the log of its row, at the position
      of the generation it expected. */
  ghost predicate WinnerLogged(i: nat, c: Commit, log: map<Scope, seq<Applied>>) {
    && c.prep.scope in log
    && 1 <= c.input.expectedGeneration <= |log[c.prep.scope]|
    && log[c.prep.scope][c.input.expectedGeneration - 1] == ReadyBy(i)
  }

  ghost predicate WinnersInv(log: map<Scope, seq<Applied>>, cs: seq<Commit>) {
    forall i :: 0 <= i < |cs| && cs[i].phase.Committed? ==> WinnerLogged(i, cs[i], log)
  }

  ghost predicate Inv(w: World, l: Limits, s: System) {
    && CommitsInv(w, l, s.commits)
    && ObjectsInv(s.objects, s.commits)
    && LogInv(s.log, s.commits)
    && RowsInv(s.rows, s.log, s.commits)
    && WinnersInv(s.log, s.commits)
  }

  /** `ds` continues `cs`: nobody's work changed and no further swap was applied. */
  ghost predicate Continues(cs: seq<Commit>, ds: seq<Commit>) {
    && |cs| <= |ds|
    && (forall i :: 0 <= i < |cs| ==>
          ds[i].input == cs[i].input && ds[i].prep == cs[i].prep
          && (ds[i].phase.Committed? <==> cs[i].phase.Committed?))
    && (forall i :: |cs| <= i < |ds| ==> !ds[i].phase.Committed?)
  }

  lemma ObjectsContinue(objects: Objects, cs: seq<Commit>, ds: seq<Commit>)
    requires ObjectsInv(objects, cs) && |cs| <= |ds|
    requires forall i :: 0 <= i < |cs| ==>
               ds[i].prep == cs[i].prep && (MayHold(cs[i].phase) ==> MayHold(ds[i].phase))
    ensures ObjectsInv(objects, ds)
  {
    forall key | key in objects ensures exists i :: 0 <= i < |ds| && PutBy(key, objects[key], ds[i]) {
      var i :| 0 <= i < |cs| && PutBy(key, objects[key], cs[i]);
      assert PutBy(key, objects[key], ds[i]);
    }
  }

  lemma LogContinues(log: map<Scope, seq<Applied>>, cs: seq<Commit>, ds: seq<Commit>)
    requires LogInv(log, cs) && Continues(cs, ds)
    ensures LogInv(log, ds)
  {
    forall scope, k | scope in log && 0 <= k < |log[scope]| ensures EntryInv(log[scope][k], scope, k, ds) {
      assert EntryInv(log[scope][k], scope, k, cs);
    }
  }

  lemma RowsContinue(rows: Rows, log: map<Scope, seq<Applied>>, cs: seq<Commit>, ds: seq<Commit>)
    requires RowsInv(rows, log, cs) && |cs| <= |ds|
    requires forall i :: 0 <= i < |cs| ==> ds[i].prep == cs[i].prep && ds[i].input == cs[i].input
    ensures RowsInv(rows, log, ds)
  {
    forall scope | scope in rows ensures RowInv(scope, rows[scope], log[scope], ds) {
      assert RowInv(scope, rows[scope], log[scope], cs);
    }
  }

  lemma WinnersContinue(log: map<Scope, seq<Applied>>, cs: seq<Commit>, ds: seq<Commit>)
    requires WinnersInv(log, cs) && Continues(cs, ds)
    ensures WinnersInv(log, ds)
  {
    forall i | 0 <= i < |ds| && ds[i].phase.Committed? ensures WinnerLogged(i, ds[i], log) {
      assert WinnerLogged(i, cs[i], log);
    }
  }

  /** Commits may move on, and the store may change with them. */
  lemma CommitsContinue(w: World, l: Limits, s: System, objects: Objects, ds: seq<Commit>)
    requires Inv(w, l, s) && Continues(s.commits, ds) && CommitsInv(w, l, ds) && ObjectsInv(objects, ds)
    ensures Inv(w, l, s.(objects := objects, commits := ds))
  {
    LogContinues(s.log, s.commits, ds);
    RowsContinue(s.rows, s.log, s.commits, ds);
    WinnersContinue(s.log, s.commits, ds);
  }

  /** A commit may move on without touching anything else. */
  lemma AdvanceKeeps(w: World, l: Limits, s: System, i: nat, p: Phase)
    requires Inv(w, l, s) && i < |s.commits|
    requires !s.commits[i].phase.Committed? && !p.Committed? && (MayHold(s.commits[i].phase) ==> MayHold(p))
    ensures Inv(w, l, Advance(s, i, p))
  {
    var ds := Advance(s, i, p).commits;
    ObjectsContinue(s.objects, s.commits, ds);
    CommitsContinue(w, l, s, s.objects, ds);
  }

  lemma PutStores(objects: Objects, cs: seq<Commit>, i: nat)
    requires ObjectsInv(objects, cs) && i < |cs| && ParseKey(cs[i].prep.storageKey).Ok?
    ensures ObjectsInv(Put(objects, cs[i].prep.storageKey, ObjectOf(cs[i].prep), false, false).1,
                       cs[i := cs[i].(phase := Swapping)])
  {
    var key, o, ds := cs[i].prep.storageKey, ObjectOf(cs[i].prep), cs[i := cs[i].(phase := Swapping)];
    ObjectsContinue(objects, cs, ds);
    assert PutBy(key, o, ds[i]);
    var objects' := Put(objects, key, o, false, false).1;
    assert objects' == objects || (key !in objects && objects' == objects[key := o]);
  }

  lemma PutSucceeds(w: World, l: Limits, s: System, i: nat)
    requires Inv(w, l, s) && InPhase(s, i, Putting) && ParseKey(s.commits[i].prep.storageKey).Ok?
    ensures var objects := Put(s.objects, s.commits[i].prep.storageKey, ObjectOf(s.commits[i].prep), false, false).1;
            Inv(w, l, Advance(s.(objects := objects), i, Swapping))
  {
    var objects := Put(s.objects, s.commits[i].prep.storageKey, ObjectOf(s.commits[i].prep), false, false).1;
    PutStores(s.objects, s.commits, i);
    CommitsContinue(w, l, s, objects, s.commits[i := s.commits[i].(phase := Swapping)]);
  }

  lemma {:induction false} PutKeeps(w: World, l: Limits, s: System, i: nat, fails: bool)
    requires Inv(w, l, s) && InPhase(s, i, Putting)
    ensures Inv(w, l, Step(w, l, s, PutStep(i, fails)))
  {
    if fails || ParseKey(s.commits[i].prep.storageKey).Err? {
      AdvanceKeeps(w, l, s, i, Over(PutFailed));
    } else {
      PutSucceeds(w, l, s, i);
    }
  }

  /** A successful cleanup removes the object the commit could account for. */
  lemma CleanupRemoves(objects: Objects, cs: seq<Commit>, i: nat)
    requires ObjectsInv(objects, cs) && i < |cs|
    ensures ObjectsInv(Delete(objects, cs[i].prep.storageKey, false).1, cs[i := cs[i].(phase := Over(CleanedUp))])
  {
    var ds, left := cs[i := cs[i].(phase := Over(CleanedUp))], Delete(objects, cs[i].prep.storageKey, false).1;
    forall key | key in left ensures exists j :: 0 <= j < |ds| && PutBy(key, left[key], ds[j]) {
      var j :| 0 <= j < |cs| && PutBy(key, objects[key], cs[j]);
      assert j != i && PutBy(key, left[key], ds[j]);
    }
  }

  lemma {:induction false} CleanupKeeps(w: World, l: Limits, s: System, i: nat, fails: bool)
    requires Inv(w, l, s) && InPhase(s, i, Cleaning)
    ensures Inv(w, l, Step(w, l, s, CleanupStep(i, fails)))
  {
    if fails {
      AdvanceKeeps(w, l, s, i, Over(CleanupFailed));
    } else {
      CleanupRemoves(s.objects, s.commits, i);
      CommitsContinue(w, l, s, Delete(s.objects, s.commits[i].prep.storageKey, false).1,
                      s.commits[i := s.commits[i].(phase := Over(CleanedUp))]);
    }
  }

  function LogWith(log: map<Scope, seq<Applied>>, scope: Scope, a: Applied): map<Scope, seq<Applied>>
    requires scope in log
  {
    log[scope := log[scope] + [a]]
  }

  /** One more applied update keeps the logs of all rows. */
  lemma LogGrows(log: map<Scope, seq<Applied>>, scope: Scope, a: Applied, cs: seq<Commit>)
    requires scope in log && LogInv(log, cs) && EntryInv(a, scope, |log[scope]|, cs)
    ensures LogInv(LogWith(log, scope, a), cs)
  {
    var log' := LogWith(log, scope, a);
    forall sc, k | sc in log' && 0 <= k < |log'[sc]| ensures EntryInv(log'[sc][k], sc, k, cs) {
      if sc != scope || k < |log[sc]| {
        assert EntryInv(log[sc][k], sc, k, cs);
      }
    }
  }

  lemma WinnersGrow(log: map<Scope, seq<Applied>>, scope: Scope, a: Applied, cs: seq<Commit>)
    requires scope in log && WinnersInv(log, cs)
    ensures WinnersInv(LogWith(log, scope, a), cs)
  {
    forall i | 0 <= i < |cs| && cs[i].phase.Committed? ensures WinnerLogged(i, cs[i], LogWith(log, scope, a)) {
      assert WinnerLogged(i, cs[i], log);
    }
  }

  lemma RowsGrow(rows: Rows, log: map<Scope, seq<Applied>>, scope: Scope, r: Row, a: Applied, cs: seq<Commit>)
    requires RowsInv(rows, log, cs) && scope in rows
    requires RowInv(scope, r, log[scope] + [a], cs)
    ensures RowsInv(rows[scope := r], LogWith(log, scope, a), cs)
  {
  }

  /** A failure mark or an invalidation of a row. */
  lemma MarkKeeps(w: World, l: Limits, s: System, scope: Scope, r: Row, a: Applied)
    requires Inv(w, l, s) && scope in s.rows
    requires !a.ReadyBy? && !r.status.Ready?
    requires MeetsChecks(scope, r) && r.generation == s.rows[scope].generation + 1
    ensures Inv(w, l, Logged(s.(rows := s.rows[scope := r]), scope, a))
  {
    assert RowInv(scope, s.rows[scope], s.log[scope], s.commits);
    LogGrows(s.log, scope, a, s.commits);
    WinnersGrow(s.log, scope, a, s.commits);
    RowsGrow(s.rows, s.log, scope, r, a, s.commits);
  }

  lemma WinnerEnters(log: map<Scope, seq<Applied>>, cs: seq<Commit>, i: nat)
    requires WinnersInv(log, cs) && i < |cs| && cs[i].prep.scope in log
    requires cs[i].input.expectedGeneration == |log[cs[i].prep.scope]| + 1
    ensures WinnersInv(LogWith(log, cs[i].prep.scope, ReadyBy(i)), cs[i := cs[i].(phase := Committed)])
  {
    var log', ds := LogWith(log, cs[i].prep.scope, ReadyBy(i)), cs[i := cs[i].(phase := Committed)];
    forall j | 0 <= j < |ds| && ds[j].phase.Committed? ensures WinnerLogged(j, ds[j], log') {
      if j != i {
        assert WinnerLogged(j, cs[j], log);
      }
    }
  }

  lemma LogKnowsWinner(log: map<Scope, seq<Applied>>, cs: seq<Commit>, i: nat)
    requires LogInv(log, cs) && i < |cs|
    ensures LogInv(log, cs[i := cs[i].(phase := Committed)])
  {
    var ds := cs[i := cs[i].(phase := Committed)];
    forall scope, k | scope in log && 0 <= k < |log[scope]| ensures EntryInv(log[scope][k], scope, k, ds) {
      assert EntryInv(log[scope][k], scope, k, cs);
    }
  }

  /** The row a winning swap writes. */
  lemma WonRow(rows: Rows, entries: seq<Applied>, cs: seq<Commit>, i: nat, row: Row)
    requires i < |cs| && cs[i].prep.scope in rows && RowInv(cs[i].prep.scope, rows[cs[i].prep.scope], entries, cs)
    requires SwapRow(rows, cs[i].prep, cs[i].input).0 == Won(row)
    ensures RowInv(cs[i].prep.scope, row, entries + [ReadyBy(i)], cs)
    ensures SwapRow(rows, cs[i].prep, cs[i].input).1 == rows[cs[i].prep.scope := row]
    ensures cs[i].input.expectedGeneration == 1 + |entries|
  {
    assert Last(entries + [ReadyBy(i)]) == ReadyBy(i);
  }

  lemma {:induction false} WonKeeps(w: World, l: Limits, s: System, i: nat, row: Row)
    requires Inv(w, l, s) && InPhase(s, i, Swapping)
    requires SwapRow(s.rows, s.commits[i].prep, s.commits[i].input).0 == Won(row)
    ensures Inv(w, l, SwapCommit(s, i))
  {
    var c, cs, scope := s.commits[i], s.commits, s.commits[i].prep.scope;
    var ds := cs[i := c.(phase := Committed)];
    ObjectsContinue(s.objects, cs, ds);
    RowsContinue(s.rows, s.log, cs, ds);
    assert ds[i].prep == c.prep && ds[i].input == c.input;
    WonRow(s.rows, s.log[scope], ds, i, row);
    LogKnowsWinner(s.log, cs, i);
    LogGrows(s.log, scope, ReadyBy(i), ds);
    RowsGrow(s.rows, s.log, scope, row, ReadyBy(i), ds);
    WinnerEnters(s.log, cs, i);
  }

  lemma {:induction false} SwapKeeps(w: World, l: Limits, s: System, i: nat)
    requires Inv(w, l, s) && InPhase(s, i, Swapping)
    ensures Inv(w, l, SwapCommit(s, i))
  {
    match SwapRow(s.rows, s.commits[i].prep, s.commits[i].input).0
    case Lost => AdvanceKeeps(w, l, s, i, Cleaning);
    case Threw(_) => AdvanceKeeps(w, l, s, i, Over(SwapThrew));
    case Won(row) => WonKeeps(w, l, s, i, row);
  }

  lemma CreateKeeps(w: World, l: Limits, s: System, id: Identity, now: int)
    requires Inv(w, l, s)
    ensures Inv(w, l, Step(w, l, s, CreateRow(id, now)))
  {
    var t := Step(w, l, s, CreateRow(id, now));
    var scope := ScopeOf(w.sha, id);
    if scope !in s.rows && t != s {
      assert RowInv(scope, t.rows[scope], t.log[scope], t.commits);
      forall i | 0 <= i < |s.commits| && s.commits[i].phase.Committed? ensures WinnerLogged(i, s.commits[i], t.log) {
        assert WinnerLogged(i, s.commits[i], s.log);
      }
      assert LogInv(t.log, t.commits);
    }
  }

  lemma NewcomerKeeps(w: World, l: Limits, s: System, c: Commit)
    requires Inv(w, l, s) && c.phase.Putting? && Prepare(w, l, c.input) == Ok(c.prep)
    ensures Inv(w, l, s.(commits := s.commits + [c]))
  {
    var ds := s.commits + [c];
    ObjectsContinue(s.objects, s.commits, ds);
    CommitsContinue(w, l, s, s.objects, ds);
  }

  lemma BeginKeeps(w: World, l: Limits, s: System, input: CommitInput)
    requires Inv(w, l, s)
    ensures Inv(w, l, Step(w, l, s, Begin(input)))
  {
    var r := Prepare(w, l, input);
    if r.Ok? { NewcomerKeeps(w, l, s, Commit(input, r.value, Putting)); }
  }

  lemma MarkStepKeeps(w: World, l: Limits, s: System, id: Identity, g: int, code: string, now: int)
    requires Inv(w, l, s)
    ensures Inv(w, l, Step(w, l, s, MarkFailed(id, g, code, now)))
  {
    var scope := ScopeOf(w.sha, id);
    if UpdateFailed(s.rows, scope, code, g, now).0.Updated? {
      MarkKeeps(w, l, s, scope, FailedRow(s.rows[scope], code, now), MarkedFailed(code, now));
    }
  }

  lemma InvalidateKeeps(w: World, l: Limits, s: System, id: Identity, now: int)
    requires Inv(w, l, s)
    ensures Inv(w, l, Step(w, l, s, InvalidateRow(id, now)))
  {
    var scope := ScopeOf(w.sha, id);
    if Invalidate(s.rows, scope, now).0.Updated? {
      MarkKeeps(w, l, s, scope, InvalidatedRow(s.rows[scope], now), WasInvalidated(now));
    }
  }

  lemma {:induction false} StepKeeps(w: World, l: Limits, s: System, a: Action)
    requires Inv(w, l, s)
    ensures Inv(w, l, Step(w, l, s, a))
  {
    match a
    case CreateRow(id, now) => CreateKeeps(w, l, s, id, now);
    case Begin(input) => BeginKeeps(w, l, s, input);
    case PutStep(i, fails) => if InPhase(s, i, Putting) { PutKeeps(w, l, s, i, fails); }
    case SwapStep(i) => if InPhase(s, i, Swapping) { SwapKeeps(w, l, s, i); }
    case CleanupStep(i, fails) => if InPhase(s, i, Cleaning) { CleanupKeeps(w, l, s, i, fails); }
    case Abandon(i) =>
      if i < |s.commits| && Working(s.commits[i].phase) { AdvanceKeeps(w, l, s, i, Over(Abandoned)); }
    case MarkFailed(id, g, code, now) => MarkStepKeeps(w, l, s, id, g, code, now);
    case InvalidateRow(id, now) => InvalidateKeeps(w, l, s, id, now);
  }

  lemma {:induction false} Invariant(w: World, l: Limits, actions: seq<Action>)
    ensures Inv(w, l, After(w, l, actions))
  {
    if actions != [] {
      Invariant(w, l, Front(actions));
      StepKeeps(w, l, After(w, l, Front(actions)), Last(actions));
    }
  }
}
