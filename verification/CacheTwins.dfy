/** The proviso of CachePresence is exact: of any two commits with one key, one
    able to win and the other able to clean up, the loser's cleanup can delete
    the winner's object. */
module CacheTwins {
  import opened Basics
  import opened CacheStorageKey
  import opened CacheIdentity
  import opened CachePolicy
  import opened CacheRepository
  import opened CacheStorageService
  import opened CacheProtocol
  import opened CacheSafety
  import opened CachePresence

  lemma RunSnoc(w: World, l: Limits, s: System, pre: seq<Action>, a: Action)
    ensures Run(w, l, s, pre + [a]) == Step(w, l, Run(w, l, s, pre), a)
  {
    assert Front(pre + [a]) == pre;
  }

  lemma {:induction false} Compose(w: World, l: Limits, s: System, a: seq<Action>, t: System, b: seq<Action>, u: System)
    requires t == Run(w, l, s, a) && u == Run(w, l, t, b)
    ensures u == Run(w, l, s, a + b)
  {
    RunAppend(w, l, s, a, b);
  }

  lemma RunTwo(w: World, l: Limits, s: System, a: Action, b: Action)
    ensures Run(w, l, s, [a, b]) == Step(w, l, Step(w, l, s, a), b)
  {
    RunSnoc(w, l, s, [], a);
    RunSnoc(w, l, s, [a], b);
    assert [] + [a] == [a] && [a] + [b] == [a, b];
  }

  /** An idle system whose only row, of `scope`, has reached a generation. */
  ghost predicate Raised(s: System, scope: Scope, generation: int) {
    && s.objects == map[] && s.commits == [] && s.log.Keys == s.rows.Keys
    && s.rows.Keys == {scope} && MeetsChecks(scope, s.rows[scope]) && s.rows[scope].generation == generation
  }

  lemma InvalidationRaises(w: World, l: Limits, s: System, id: Identity, generation: int)
    requires Raised(s, ScopeOf(w.sha, id), generation) && generation < MAX_GENERATION
    ensures Raised(Step(w, l, s, InvalidateRow(id, 0)), ScopeOf(w.sha, id), generation + 1)
  {
  }

  /** Creating the row of an identity and invalidating it raises it to any generation. */
  lemma {:induction false} RaisedRow(w: World, l: Limits, id: Identity, generation: int) returns (setup: seq<Action>, s: System)
    requires IsHex64(CacheKeyHash(w.sha, id)) && 1 <= generation <= MAX_GENERATION
    ensures s == After(w, l, setup) && Raised(s, ScopeOf(w.sha, id), generation)
    decreases generation
  {
    if generation == 1 {
      setup, s := [] + [CreateRow(id, 0)], Step(w, l, Initial(), CreateRow(id, 0));
      RunSnoc(w, l, Initial(), [], CreateRow(id, 0));
    } else {
      setup, s := RaisedRow(w, l, id, generation - 1);
      InvalidationRaises(w, l, s, id, generation - 1);
      RunSnoc(w, l, Initial(), setup, InvalidateRow(id, 0));
      setup, s := setup + [InvalidateRow(id, 0)], Step(w, l, s, InvalidateRow(id, 0));
    }
  }

  /** Two commits with one key, the first able to win, the second to clean up. */
  ghost predicate Racers(w: World, l: Limits, c: CommitInput, d: CommitInput) {
    && Prepare(w, l, c).Ok? && Prepare(w, l, d).Ok?
    && Prepare(w, l, c).value.storageKey == Prepare(w, l, d).value.storageKey
    && CanWin(c) && ValidPolicy(PolicyOf(d))
  }

  /** Both racers are at work, in the given phases. */
  predicate AtWork(c: CommitInput, d: CommitInput, p: Prepared, q: Prepared, s: System, first: Phase, second: Phase) {
    s.commits == [Commit(c, p, first), Commit(d, q, second)]
  }

  lemma BeginsBoth(w: World, l: Limits, c: CommitInput, d: CommitInput, p: Prepared, q: Prepared, s: System) returns (t: System)
    requires Prepare(w, l, c) == Ok(p) && Prepare(w, l, d) == Ok(q) && s.commits == []
    ensures t == Run(w, l, s, [Begin(c), Begin(d)])
    ensures AtWork(c, d, p, q, t, Putting, Putting) && t.(commits := []) == s
  {
    RunTwo(w, l, s, Begin(c), Begin(d));
    t := Step(w, l, Step(w, l, s, Begin(c)), Begin(d));
  }

  lemma StoresBoth(w: World, l: Limits, c: CommitInput, d: CommitInput, p: Prepared, q: Prepared, s: System) returns (t: System)
    requires AtWork(c, d, p, q, s, Putting, Putting)
    requires s.objects == map[] && ParseKey(p.storageKey).Ok? && p.storageKey == q.storageKey
    ensures t == Run(w, l, s, [PutStep(0, false), PutStep(1, false)])
    ensures AtWork(c, d, p, q, t, Swapping, Swapping) && t.rows == s.rows && t.log == s.log
    ensures t.objects.Keys == {p.storageKey}
  {
    RunTwo(w, l, s, PutStep(0, false), PutStep(1, false));
    var u := Step(w, l, s, PutStep(0, false));
    assert AtWork(c, d, p, q, u, Swapping, Putting) && u.objects == map[p.storageKey := ObjectOf(p)];
    t := Step(w, l, u, PutStep(1, false));
  }

  lemma FirstWins(w: World, l: Limits, c: CommitInput, d: CommitInput, p: Prepared, q: Prepared, s: System) returns (t: System)
    requires Racers(w, l, c, d) && Prepare(w, l, c) == Ok(p) && Prepare(w, l, d) == Ok(q)
    requires AtWork(c, d, p, q, s, Swapping, Swapping)
    requires Raised(s.(objects := map[], commits := []), p.scope, c.expectedGeneration)
    ensures t == Step(w, l, s, SwapStep(0))
    ensures AtWork(c, d, p, q, t, Committed, Swapping) && t.objects == s.objects
    ensures t.rows.Keys == {p.scope} && t.rows[p.scope].status.Ready? && t.rows[p.scope].storageKey == Some(p.storageKey)
    ensures t.rows[p.scope].generation == c.expectedGeneration + 1
  {
    PreparedKeyIsClean(w, l, c);
    var (swap, rows) := SwapRow(s.rows, p, c);
    assert swap.Won?;
    t := Step(w, l, s, SwapStep(0));
  }

  lemma SecondLoses(w: World, l: Limits, c: CommitInput, d: CommitInput, p: Prepared, q: Prepared, s: System) returns (t: System)
    requires ValidPolicy(PolicyOf(d)) && Bindable(d.expectedGeneration)
    requires AtWork(c, d, p, q, s, Committed, Swapping) && !Matches(s.rows, q.scope, d.expectedGeneration)
    requires s.objects.Keys == {q.storageKey}
    ensures t == Step(w, l, Step(w, l, s, SwapStep(1)), CleanupStep(1, false))
    ensures t.rows == s.rows && t.objects == map[] && AtWork(c, d, p, q, t, Committed, Over(CleanedUp))
  {
    assert SwapRow(s.rows, q, d).0 == Lost;
    var v := Step(w, l, s, SwapStep(1));
    assert AtWork(c, d, p, q, v, Committed, Cleaning);
    t := Step(w, l, v, CleanupStep(1, false));
  }

  lemma RunThree(w: World, l: Limits, s: System, a: Action, b: Action, c: Action)
    ensures Run(w, l, s, [a, b, c]) == Step(w, l, Step(w, l, Step(w, l, s, a), b), c)
  {
    RunTwo(w, l, s, a, b);
    RunSnoc(w, l, s, [a, b], c);
    assert [a, b] + [c] == [a, b, c];
  }

  /** The row names an object that is gone. */
  ghost predicate Orphaned(w: World, l: Limits, c: CommitInput, d: CommitInput, t: System) {
    && ReadyFor(w, t, c.identity)
    && t.objects == map[]
    && t.rows[ScopeOf(w.sha, c.identity)].storageKey.Some?
    && |t.commits| == 2 && t.commits[0].input == c && t.commits[1].input == d
  }

  /** The first swaps; the second's swap is lost and its cleanup removes the
      only object. */
  lemma LoserDeletes(w: World, l: Limits, c: CommitInput, d: CommitInput, p: Prepared, q: Prepared, s: System) returns (t: System)
    requires Racers(w, l, c, d) && Prepare(w, l, c) == Ok(p) && Prepare(w, l, d) == Ok(q)
    requires AtWork(c, d, p, q, s, Swapping, Swapping)
    requires Raised(s.(objects := map[], commits := []), p.scope, c.expectedGeneration)
    requires s.objects.Keys == {p.storageKey}
    ensures t == Run(w, l, s, [SwapStep(0), SwapStep(1), CleanupStep(1, false)])
    ensures Orphaned(w, l, c, d, t)
  {
    BuildInjective(KeyParams(w, c), KeyParams(w, d));
    var u := FirstWins(w, l, c, d, p, q, s);
    t := SecondLoses(w, l, c, d, p, q, u);
    RunThree(w, l, s, SwapStep(0), SwapStep(1), CleanupStep(1, false));
  }

  /** Both store the object, the first swaps, the second loses and cleans up. */
  lemma RaceLosesTheObject(w: World, l: Limits, c: CommitInput, d: CommitInput, s: System) returns (race: seq<Action>, t: System)
    requires Racers(w, l, c, d)
    requires Raised(s, ScopeOf(w.sha, c.identity), c.expectedGeneration)
    ensures t == Run(w, l, s, race) && Orphaned(w, l, c, d, t)
  {
    var p, q := Prepare(w, l, c).value, Prepare(w, l, d).value;
    PreparedKeyParses(w, l, c);
    var begun := BeginsBoth(w, l, c, d, p, q, s);
    var stored := StoresBoth(w, l, c, d, p, q, begun);
    t := LoserDeletes(w, l, c, d, p, q, stored);
    var r1, r2, r3 := [Begin(c), Begin(d)], [PutStep(0, false), PutStep(1, false)],
                      [SwapStep(0), SwapStep(1), CleanupStep(1, false)];
    Compose(w, l, s, r1, begun, r2, stored);
    Compose(w, l, s, r1 + r2, stored, r3, t);
    race := r1 + r2 + r3;
  }

  lemma MissingObjectIsReported(w: World, l: Limits, actions: seq<Action>, id: Identity)
    requires ReadyFor(w, After(w, l, actions), id)
    requires var s := After(w, l, actions);
             s.rows[ScopeOf(w.sha, id)].storageKey.Some? && s.rows[ScopeOf(w.sha, id)].storageKey.value !in s.objects
    ensures SplitRead(w, l, After(w, l, actions), After(w, l, actions), id) == Err(Integrity(MissingObject))
  {
    Invariant(w, l, actions);
    ReadyMetadataIsSound(w, l, After(w, l, actions), id);
  }

  /** Any two racers have a run from the empty system, with exactly these two
      commits, after which the row of the first is ready and its object gone, so
      that every read of it fails. */
  lemma TwinsLoseTheObject(w: World, l: Limits, c: CommitInput, d: CommitInput) returns (actions: seq<Action>)
    requires Racers(w, l, c, d)
    ensures var t := After(w, l, actions);
            && |t.commits| == 2 && t.commits[0].input == c && t.commits[1].input == d
            && ReadyFor(w, t, c.identity) && !RowsKept(t)
            && SplitRead(w, l, t, t, c.identity) == Err(Integrity(MissingObject))
  {
    var setup, s := RaisedRow(w, l, c.identity, c.expectedGeneration);
    var race, t := RaceLosesTheObject(w, l, c, d, s);
    Compose(w, l, Initial(), setup, s, race, t);
    actions := setup + race;
    MissingObjectIsReported(w, l, actions, c.identity);
    assert ScopeOf(w.sha, c.identity) in t.rows;
  }

  // ---- The exact condition -----------------------------------------------------------

  function InputsOf(cs: seq<Commit>): (r: seq<CommitInput>)
    ensures |r| == |cs| && forall i :: 0 <= i < |cs| ==> r[i] == cs[i].input
  {
    if cs == [] then [] else InputsOf(Front(cs)) + [Last(cs).input]
  }

  /** In this state every commit begun is one of `inputs`. */
  ghost predicate Among(s: System, inputs: seq<CommitInput>) {
    multiset(InputsOf(s.commits)) <= multiset(inputs)
  }

  /** Nowhere among these commits is one that can win endangered by another. */
  ghost predicate NoRace(w: World, l: Limits, inputs: seq<CommitInput>) {
    forall i, j :: 0 <= i < |inputs| && 0 <= j < |inputs| && i != j ==> !Racers(w, l, inputs[i], inputs[j])
  }

  lemma {:induction false} FindOne<T>(s: seq<T>, x: T) returns (i: nat)
    requires multiset(s)[x] >= 1
    ensures i < |s| && s[i] == x
  {
    assert x in multiset(s);
    i :| 0 <= i < |s| && s[i] == x;
  }

  lemma WithoutIndex<T>(s: seq<T>, i: nat)
    requires i < |s|
    ensures multiset(s) == multiset(s[..i] + s[i + 1..]) + multiset{s[i]}
  {
    assert s == s[..i] + [s[i]] + s[i + 1..];
  }

  /** Two positions of `a` have two positions of `b` that hold the same. */
  lemma {:induction false} FindTwo<T>(a: seq<T>, b: seq<T>, i: nat, j: nat) returns (k: nat, m: nat)
    requires multiset(a) <= multiset(b) && i < |a| && j < |a| && i != j
    ensures k < |b| && m < |b| && k != m && b[k] == a[i] && b[m] == a[j]
  {
    WithoutIndex(a, i);
    var rest := a[..i] + a[i + 1..];
    var j' := if j < i then j else j - 1;
    assert rest[j'] == a[j];
    assert multiset(a)[a[i]] >= 1;
    k := FindOne(b, a[i]);
    WithoutIndex(b, k);
    var left := b[..k] + b[k + 1..];
    assert a[j] in multiset(rest);
    assert multiset(a)[a[j]] <= multiset(b)[a[j]];
    assert multiset(rest)[a[j]] <= multiset(left)[a[j]];
    var m' := FindOne(left, a[j]);
    m := if m' < k then m' else m' + 1;
  }

  /** Commits drawn from inputs without a race do not endanger each other. */
  lemma NoRaceIsHarmless(w: World, l: Limits, s: System, inputs: seq<CommitInput>)
    requires CommitsInv(w, l, s.commits) && Among(s, inputs) && NoRace(w, l, inputs)
    ensures Harmless(s.commits)
  {
    forall i, j | 0 <= i < |s.commits| && 0 <= j < |s.commits| && i != j ensures !Endangers(s.commits[i], s.commits[j]) {
      var k, m := FindTwo(InputsOf(s.commits), inputs, i, j);
      assert !Racers(w, l, inputs[k], inputs[m]);
    }
  }

  lemma PairAmong(s: System, inputs: seq<CommitInput>, i: nat, j: nat)
    requires i < |inputs| && j < |inputs| && i != j
    requires |s.commits| == 2 && s.commits[0].input == inputs[i] && s.commits[1].input == inputs[j]
    ensures Among(s, inputs)
  {
    assert InputsOf(s.commits) == [inputs[i], inputs[j]];
    WithoutIndex(inputs, i);
    var rest := inputs[..i] + inputs[i + 1..];
    assert rest[if j < i then j else j - 1] == inputs[j];
    assert inputs[j] in multiset(rest);
  }

  /** For any collection of commits: every ready row keeps its object over every
      run of them, if and only if no two of them share a storage key, one of them
      able to win and the other with a valid policy. */
  lemma {:induction false} RowsKeptExactly(w: World, l: Limits, inputs: seq<CommitInput>)
    ensures (forall actions :: Among(After(w, l, actions), inputs) ==> RowsKept(After(w, l, actions)))
            <==> NoRace(w, l, inputs)
  {
    if NoRace(w, l, inputs) {
      forall actions | Among(After(w, l, actions), inputs) ensures RowsKept(After(w, l, actions)) {
        Invariant(w, l, actions);
        NoRaceIsHarmless(w, l, After(w, l, actions), inputs);
        HarmlessRunsKeepRows(w, l, actions);
      }
    } else {
      var i, j :| 0 <= i < |inputs| && 0 <= j < |inputs| && i != j && Racers(w, l, inputs[i], inputs[j]);
      var actions := TwinsLoseTheObject(w, l, inputs[i], inputs[j]);
      PairAmong(After(w, l, actions), inputs, i, j);
    }
  }
}
