/** Which objects are stored, over every run: rows keep their objects exactly as
    long as no commit that can win shares its key with one that can clean up, and
    an object without a row has a commit to answer for it. */
module CachePresence {
  import opened Basics
  import opened CacheStorageKey
  import opened CacheIdentity
  import opened CachePolicy
  import opened HtmlObjectStore
  import opened CacheRepository
  import opened CacheStorageService
  import opened CacheProtocol
  import opened CacheSafety

  // ---- Which commits share an object ---------------------------------------------

  /** What being twins comes down to: the same tenant path and row hash, and the
      same expected generation, content hash and encoding. */
  lemma TwinsExactly(w: World, l: Limits, c: CommitInput, d: CommitInput)
    requires Prepare(w, l, c).Ok? && Prepare(w, l, d).Ok?
    ensures Prepare(w, l, c).value.storageKey == Prepare(w, l, d).value.storageKey
            <==> c.identity.organizationId == d.identity.organizationId
                 && c.identity.projectId == d.identity.projectId
                 && c.identity.domainId == d.identity.domainId
                 && CacheKeyHash(w.sha, c.identity) == CacheKeyHash(w.sha, d.identity)
                 && c.expectedGeneration == d.expectedGeneration
                 && w.hashHtml(c.html) == w.hashHtml(d.html)
                 && EncodingOf(c) == EncodingOf(d)
  {
    BuildInjective(KeyParams(w, c), KeyParams(w, d));
  }

  /** Commits that differ in identity, expected generation, HTML or encoding are
      no twins, short of a SHA-256 collision. */
  lemma DifferentCommitsAreNoTwins(w: World, l: Limits, c: CommitInput, d: CommitInput)
    requires Prepare(w, l, c).Ok? && Prepare(w, l, d).Ok?
    requires NulFreeIdentity(c.identity) && NulFreeIdentity(d.identity)
    requires Resolved(c.identity) != Resolved(d.identity) || c.expectedGeneration != d.expectedGeneration
             || c.html != d.html || EncodingOf(c) != EncodingOf(d)
    ensures Prepare(w, l, c).value.storageKey != Prepare(w, l, d).value.storageKey
            || Collision(w.sha, Joined(c.identity), Joined(d.identity)) || Collision(w.hashHtml, c.html, d.html)
  {
    TwinsExactly(w, l, c, d);
    if Resolved(c.identity) != Resolved(d.identity) {
      DistinctIdentitiesDistinctRows(w.sha, c.identity, d.identity);
    }
  }

  // ---- Presence ---------------------------------------------------------------------

  /** The table can accept what this commit writes. */
  predicate CanWin(c: CommitInput) {
    ValidPolicy(PolicyOf(c)) && 100 <= c.responseStatus < 600 && 1 <= c.expectedGeneration < MAX_GENERATION
  }

  /** `c` can win, and `d`, which addresses the same object, can get as far as
      cleaning up. */
  predicate Endangers(c: Commit, d: Commit) {
    c.prep.storageKey == d.prep.storageKey && CanWin(c.input) && ValidPolicy(PolicyOf(d.input))
  }

  ghost predicate Harmless(cs: seq<Commit>) {
    forall i, j :: 0 <= i < |cs| && 0 <= j < |cs| && i != j ==> !Endangers(cs[i], cs[j])
  }

  /** Who won could win, and who cleans up has a valid policy. */
  ghost predicate PhasesInv(cs: seq<Commit>) {
    forall i :: 0 <= i < |cs| ==>
      (cs[i].phase.Committed? ==> CanWin(cs[i].input)) && (cs[i].phase.Cleaning? ==> ValidPolicy(PolicyOf(cs[i].input)))
  }

  lemma WinnersCanWin(w: World, l: Limits, s: System, i: nat)
    requires Inv(w, l, s) && InPhase(s, i, Swapping)
    requires SwapRow(s.rows, s.commits[i].prep, s.commits[i].input).0.Won?
    ensures CanWin(s.commits[i].input)
  {
    var scope := s.commits[i].prep.scope;
    assert RowInv(scope, s.rows[scope], s.log[scope], s.commits);
  }

  lemma AdvanceKeepsPhases(cs: seq<Commit>, i: nat, p: Phase)
    requires PhasesInv(cs) && i < |cs|
    requires (p.Committed? ==> CanWin(cs[i].input)) && (p.Cleaning? ==> ValidPolicy(PolicyOf(cs[i].input)))
    ensures PhasesInv(cs[i := cs[i].(phase := p)])
  {
  }

  lemma SwapKeepsPhases(w: World, l: Limits, s: System, i: nat)
    requires Inv(w, l, s) && PhasesInv(s.commits) && InPhase(s, i, Swapping)
    ensures PhasesInv(SwapCommit(s, i).commits)
  {
    match SwapRow(s.rows, s.commits[i].prep, s.commits[i].input).0
    case Won(_) =>
      WinnersCanWin(w, l, s, i);
      AdvanceKeepsPhases(s.commits, i, Committed);
    case Lost => AdvanceKeepsPhases(s.commits, i, Cleaning);
    case Threw(_) => AdvanceKeepsPhases(s.commits, i, Over(SwapThrew));
  }

  lemma StepKeepsPhases(w: World, l: Limits, s: System, a: Action)
    requires PhasesInv(s.commits) && !a.SwapStep?
    ensures PhasesInv(Step(w, l, s, a).commits)
  {
  }

  /** Whoever has won, or is about to swap and can win, finds its object stored. */
  predicate Needs(c: Commit) { c.phase.Committed? || (c.phase.Swapping? && CanWin(c.input)) }

  ghost predicate Present(objects: Objects, cs: seq<Commit>) {
    forall i :: 0 <= i < |cs| && Needs(cs[i]) ==> cs[i].prep.storageKey in objects
  }

  lemma PutMakesPresent(objects: Objects, p: Prepared, fails: bool)
    ensures var (r, objects') := Put(objects, p.storageKey, ObjectOf(p), false, fails);
            (r.Ok? ==> p.storageKey in objects') && objects.Keys <= objects'.Keys
  {
  }

  /** A cleanup cannot hit an object somebody needs. */
  lemma CleanupSpares(objects: Objects, cs: seq<Commit>, i: nat, p: Phase)
    requires PhasesInv(cs) && Harmless(cs) && i < |cs| && cs[i].phase.Cleaning? && p.Over?
    requires Present(objects, cs)
    ensures Present(objects - {cs[i].prep.storageKey}, cs[i := cs[i].(phase := p)])
  {
    forall j | 0 <= j < |cs| && Needs(cs[j]) ensures cs[j].prep.storageKey != cs[i].prep.storageKey {
      assert !Endangers(cs[j], cs[i]);
    }
  }

  lemma AdvanceKeepsPresent(objects: Objects, cs: seq<Commit>, i: nat, p: Phase)
    requires Present(objects, cs) && i < |cs| && (p.Committed? ==> Needs(cs[i])) && !p.Swapping?
    ensures Present(objects, cs[i := cs[i].(phase := p)])
  {
    assert Needs(cs[i]) ==> cs[i].prep.storageKey in objects;
  }

  lemma SwapKeepsPresent(w: World, l: Limits, s: System, i: nat)
    requires Inv(w, l, s) && Present(s.objects, s.commits) && InPhase(s, i, Swapping)
    ensures Present(SwapCommit(s, i).objects, SwapCommit(s, i).commits)
  {
    match SwapRow(s.rows, s.commits[i].prep, s.commits[i].input).0
    case Won(_) =>
      WinnersCanWin(w, l, s, i);
      AdvanceKeepsPresent(s.objects, s.commits, i, Committed);
    case Lost => AdvanceKeepsPresent(s.objects, s.commits, i, Cleaning);
    case Threw(_) => AdvanceKeepsPresent(s.objects, s.commits, i, Over(SwapThrew));
  }

  lemma StepKeepsPresent(w: World, l: Limits, s: System, a: Action)
    requires PhasesInv(s.commits) && Present(s.objects, s.commits) && Harmless(s.commits) && !a.SwapStep?
    ensures Present(Step(w, l, s, a).objects, Step(w, l, s, a).commits)
  {
    match a
    case PutStep(i, fails) =>
      if InPhase(s, i, Putting) { PutMakesPresent(s.objects, s.commits[i].prep, fails); }
    case CleanupStep(i, fails) =>
      if InPhase(s, i, Cleaning) && !fails { CleanupSpares(s.objects, s.commits, i, Over(CleanedUp)); }
    case _ =>
  }

  /** Both properties over one step. */
  lemma StepKeepsBoth(w: World, l: Limits, s: System, a: Action)
    requires Inv(w, l, s) && PhasesInv(s.commits)
    requires Harmless(s.commits) ==> Present(s.objects, s.commits)
    ensures PhasesInv(Step(w, l, s, a).commits)
    ensures Harmless(s.commits) ==> Present(Step(w, l, s, a).objects, Step(w, l, s, a).commits)
  {
    if !a.SwapStep? {
      StepKeepsPhases(w, l, s, a);
      if Harmless(s.commits) { StepKeepsPresent(w, l, s, a); }
    } else if InPhase(s, a.i, Swapping) {
      SwapKeepsPhases(w, l, s, a.i);
      if Harmless(s.commits) { SwapKeepsPresent(w, l, s, a.i); }
    }
  }

  lemma {:induction false} PresentThroughout(w: World, l: Limits, actions: seq<Action>)
    ensures var s := After(w, l, actions);
            PhasesInv(s.commits) && (Harmless(s.commits) ==> Present(s.objects, s.commits))
  {
    if actions != [] {
      var s := After(w, l, Front(actions));
      Invariant(w, l, Front(actions));
      PresentThroughout(w, l, Front(actions));
      StepPersists(w, l, s, Last(actions));
      if Harmless(After(w, l, actions).commits) {
        HarmlessBefore(s.commits, After(w, l, actions).commits);
      }
      StepKeepsBoth(w, l, s, Last(actions));
    }
  }

  lemma HarmlessBefore(cs: seq<Commit>, ds: seq<Commit>)
    requires |cs| <= |ds| && forall i :: 0 <= i < |cs| ==> ds[i].prep == cs[i].prep && ds[i].input == cs[i].input
    requires Harmless(ds)
    ensures Harmless(cs)
  {
    forall i, j | 0 <= i < |cs| && 0 <= j < |cs| && i != j ensures !Endangers(cs[i], cs[j]) {
      assert !Endangers(ds[i], ds[j]);
    }
  }

  /** Every ready row names a stored object. */
  ghost predicate RowsKept(s: System) {
    forall scope :: scope in s.rows && s.rows[scope].status.Ready? ==>
      s.rows[scope].storageKey.Some? && s.rows[scope].storageKey.value in s.objects
  }

  lemma {:induction false} HarmlessRunsKeepRows(w: World, l: Limits, actions: seq<Action>)
    requires Harmless(After(w, l, actions).commits)
    ensures RowsKept(After(w, l, actions))
  {
    var s := After(w, l, actions);
    Invariant(w, l, actions);
    PresentThroughout(w, l, actions);
    forall scope | scope in s.rows && s.rows[scope].status.Ready?
      ensures s.rows[scope].storageKey.Some? && s.rows[scope].storageKey.value in s.objects
    {
      var i := ReadyHasWriter(w, l, s, scope);
    }
  }

  /** The commit `i` wrote the row that `s` holds for `id`, its object is stored
      in `s`, and a read that looks up the row in `s` and fetches in `t` returns
      what `i` committed. */
  ghost predicate ServedFrom(w: World, l: Limits, s: System, t: System, id: Identity, i: nat) {
    && LastWriter(s, ScopeOf(w.sha, id), i)
    && s.commits[i].prep.storageKey in s.objects
    && SplitRead(w, l, s, t, id).Ok?
    && Faithful(w, SplitRead(w, l, s, t, id).value, id, s.commits[i].input)
  }

  /** The writer of a row finds its object stored now and later. */
  lemma WriterStaysStored(w: World, l: Limits, before: seq<Action>, between: seq<Action>, scope: Scope, i: nat)
    requires Harmless(After(w, l, before + between).commits) && LastWriter(After(w, l, before), scope, i)
    ensures After(w, l, before).commits[i].prep.storageKey in After(w, l, before).objects
    ensures After(w, l, before).commits[i].prep.storageKey in After(w, l, before + between).objects
  {
    var s, t := After(w, l, before), After(w, l, before + between);
    CommitsPersist(w, l, before, between);
    HarmlessBefore(s.commits, t.commits);
    PresentThroughout(w, l, before);
    PresentThroughout(w, l, before + between);
    assert Needs(s.commits[i]) && Needs(t.commits[i]);
  }

  /** If no commit endangers another, every ready row names a stored object, and a
      read of it succeeds even if its object is fetched after any further steps,
      with exactly the bytes the writer of the row committed (or a collision). */
  lemma {:induction false} ReadyRowsStayReadable(w: World, l: Limits, before: seq<Action>, between: seq<Action>, id: Identity)
    requires Lawful(w) && ReadLimitsCoverWrites(l)
    requires Harmless(After(w, l, before + between).commits)
    requires ReadyFor(w, After(w, l, before), id)
    ensures exists i :: ServedFrom(w, l, After(w, l, before), After(w, l, before + between), id, i)
  {
    var s, t, scope := After(w, l, before), After(w, l, before + between), ScopeOf(w.sha, id);
    Invariant(w, l, before);
    var i := ReadyHasWriter(w, l, s, scope);
    WriterStaysStored(w, l, before, between, scope, i);
    ReadFailsOnlyByMissingObject(w, l, before, between, id);
    ReadIsFaithful(w, l, s, id, Ok(Get(t.objects, s.rows[scope].storageKey.value)), i);
    assert ServedFrom(w, l, s, t, id, i);
  }

  // ---- Orphans --------------------------------------------------------------------------

  /** Somebody at work, or the writer of a row, has this key. */
  ghost predicate Claimed(cs: seq<Commit>, key: string) {
    exists i :: 0 <= i < |cs| && cs[i].prep.storageKey == key && (Working(cs[i].phase) || cs[i].phase.Committed?)
  }

  ghost predicate LeftBehind(objects: Objects, key: string, c: Commit)
    requires key in objects
  {
    c.prep.storageKey == key && objects[key] == ObjectOf(c.prep)
    && (c.phase == Over(SwapThrew) || c.phase == Over(Abandoned) || c.phase == Over(CleanupFailed))
  }

  lemma OrphanHasMaker(objects: Objects, cs: seq<Commit>, key: string)
    requires ObjectsInv(objects, cs) && key in objects && !Claimed(cs, key)
    ensures exists i :: 0 <= i < |cs| && LeftBehind(objects, key, cs[i])
  {
    var i :| 0 <= i < |cs| && PutBy(key, objects[key], cs[i]);
    assert LeftBehind(objects, key, cs[i]);
  }

  /** A stored object that no applied commit names and that no commit at work
      addresses was left behind by a commit whose swap threw, that was abandoned,
      or whose cleanup failed; it holds what that commit put. */
  lemma {:induction false} OrphansExplained(w: World, l: Limits, actions: seq<Action>, key: string)
    requires key in After(w, l, actions).objects && !Claimed(After(w, l, actions).commits, key)
    ensures var s := After(w, l, actions);
            exists i :: 0 <= i < |s.commits| && LeftBehind(s.objects, key, s.commits[i])
  {
    Invariant(w, l, actions);
    OrphanHasMaker(After(w, l, actions).objects, After(w, l, actions).commits, key);
  }

  ghost predicate NoTwins(cs: seq<Commit>) {
    forall i, j :: 0 <= i < j < |cs| ==> cs[i].prep.storageKey != cs[j].prep.storageKey
  }

  /** After its put and until it has cleaned up, a commit with a key of its own
      has its object stored. */
  predicate Holds(p: Phase) {
    p.Swapping? || p.Cleaning? || p.Committed? || p == Over(SwapThrew) || p == Over(CleanupFailed)
  }

  ghost predicate AllHeld(objects: Objects, cs: seq<Commit>) {
    forall i :: 0 <= i < |cs| && Holds(cs[i].phase) ==> cs[i].prep.storageKey in objects
  }

  lemma PutKeepsHeld(objects: Objects, cs: seq<Commit>, i: nat, fails: bool)
    requires AllHeld(objects, cs) && i < |cs| && cs[i].phase.Putting?
    ensures var (r, objects') := Put(objects, cs[i].prep.storageKey, ObjectOf(cs[i].prep), false, fails);
            AllHeld(objects', cs[i := cs[i].(phase := if r.Ok? then Swapping else Over(PutFailed))])
  {
    PutMakesPresent(objects, cs[i].prep, fails);
  }

  lemma CleanupKeepsHeld(objects: Objects, cs: seq<Commit>, i: nat)
    requires AllHeld(objects, cs) && NoTwins(cs) && i < |cs| && cs[i].phase.Cleaning?
    ensures AllHeld(objects - {cs[i].prep.storageKey}, cs[i := cs[i].(phase := Over(CleanedUp))])
  {
  }

  /** A commit that holds its object may move on to any phase. */
  lemma AdvanceKeepsHeld(objects: Objects, cs: seq<Commit>, i: nat, p: Phase)
    requires AllHeld(objects, cs) && i < |cs| && (Holds(p) ==> Holds(cs[i].phase))
    ensures AllHeld(objects, cs[i := cs[i].(phase := p)])
  {
  }

  lemma SwapKeepsHeld(s: System, i: nat)
    requires AllHeld(s.objects, s.commits) && InPhase(s, i, Swapping)
    ensures AllHeld(SwapCommit(s, i).objects, SwapCommit(s, i).commits)
  {
    match SwapRow(s.rows, s.commits[i].prep, s.commits[i].input).0
    case Won(_) => AdvanceKeepsHeld(s.objects, s.commits, i, Committed);
    case Lost => AdvanceKeepsHeld(s.objects, s.commits, i, Cleaning);
    case Threw(_) => AdvanceKeepsHeld(s.objects, s.commits, i, Over(SwapThrew));
  }

  lemma StepKeepsHeld(w: World, l: Limits, s: System, a: Action)
    requires AllHeld(s.objects, s.commits) && NoTwins(s.commits)
    ensures AllHeld(Step(w, l, s, a).objects, Step(w, l, s, a).commits)
  {
    match a
    case PutStep(i, fails) => if InPhase(s, i, Putting) { PutKeepsHeld(s.objects, s.commits, i, fails); }
    case SwapStep(i) => if InPhase(s, i, Swapping) { SwapKeepsHeld(s, i); }
    case CleanupStep(i, fails) =>
      if InPhase(s, i, Cleaning) && !fails { CleanupKeepsHeld(s.objects, s.commits, i); }
    case _ =>
  }

  lemma {:induction false} HeldThroughout(w: World, l: Limits, actions: seq<Action>)
    requires NoTwins(After(w, l, actions).commits)
    ensures AllHeld(After(w, l, actions).objects, After(w, l, actions).commits)
  {
    if actions != [] {
      var s := After(w, l, Front(actions));
      StepPersists(w, l, s, Last(actions));
      assert NoTwins(s.commits);
      HeldThroughout(w, l, Front(actions));
      StepKeepsHeld(w, l, s, Last(actions));
    }
  }

  lemma HeldMeansStored(objects: Objects, cs: seq<Commit>, i: nat)
    requires ObjectsInv(objects, cs) && AllHeld(objects, cs) && NoTwins(cs)
    requires i < |cs| && cs[i].phase != Over(Abandoned)
    ensures cs[i].prep.storageKey in objects <==> Holds(cs[i].phase)
  {
    var key := cs[i].prep.storageKey;
    if key in objects {
      var j :| 0 <= j < |cs| && PutBy(key, objects[key], cs[j]);
      assert i == j;
    }
  }

  /** Among commits with keys of their own, the object of one that was not
      abandoned is stored exactly from its put to its successful cleanup: a swap
      that throws and a cleanup that fails leave it behind for good. */
  lemma {:induction false} StoredExactly(w: World, l: Limits, actions: seq<Action>, i: nat)
    requires NoTwins(After(w, l, actions).commits) && i < |After(w, l, actions).commits|
    requires After(w, l, actions).commits[i].phase != Over(Abandoned)
    ensures var s := After(w, l, actions);
            s.commits[i].prep.storageKey in s.objects <==> Holds(s.commits[i].phase)
  {
    Invariant(w, l, actions);
    HeldThroughout(w, l, actions);
    HeldMeansStored(After(w, l, actions).objects, After(w, l, actions).commits, i);
  }
}
