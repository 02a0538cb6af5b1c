/** What every interleaving of creations, rotations and split revocations keeps:
    the shape of the rotation lineages. */
module ApiKeyLineage {
  import opened Basics
  import opened ApiKeys

  function From(r: KeyRow): Option<Id> { r.metadata.rotatedFromKeyId }

  function To(r: KeyRow): Option<Id> { r.metadata.rotatedToKeyId }

  predicate SameOwner(a: KeyRow, b: KeyRow) {
    a.organizationId == b.organizationId && a.metadata.projectId == b.metadata.projectId
  }

  // ---- The invariant ---------------------------------------------------------------

  ghost predicate RowInv(keys: map<Id, KeyRow>, born: map<Id, nat>, id: Id)
    requires id in keys
  {
    var r := keys[id];
    && (r.enabled <==> r.metadata.revokedAt.None?) && (r.enabled ==> To(r).None?)
    && (To(r).Some? ==> To(r).value in keys && From(keys[To(r).value]) == Some(id))
    && (From(r).Some? ==> Precedes(keys, born, From(r).value, id))
  }

  /** `p` is a key retired by the rotation that created `id`. */
  ghost predicate Precedes(keys: map<Id, KeyRow>, born: map<Id, nat>, p: Id, id: Id)
    requires id in keys
  {
    p in keys && !keys[p].enabled && SameOwner(keys[p], keys[id])
    && p in born && id in born && born[p] < born[id]
  }

  ghost predicate RowsInv(keys: map<Id, KeyRow>, born: map<Id, nat>) {
    forall id {:trigger RowInv(keys, born, id)} :: id in keys ==> RowInv(keys, born, id)
  }

  ghost predicate BornInv(keys: map<Id, KeyRow>, born: map<Id, nat>) {
    born.Keys == keys.Keys && forall id :: id in born ==> born[id] < |born|
  }

  /** No key has two successors. */
  ghost predicate OneSuccessor(keys: map<Id, KeyRow>) {
    forall a, b {:trigger From(keys[a]), From(keys[b])} ::
      a in keys && b in keys && From(keys[a]).Some? && From(keys[a]) == From(keys[b]) ==> a == b
  }

  ghost predicate KeysInv(keys: map<Id, KeyRow>, born: map<Id, nat>) {
    BornInv(keys, born) && RowsInv(keys, born) && OneSuccessor(keys)
  }

  /** A pending revocation was read from an enabled key: it carries the key's
      origin and no forward link. */
  ghost predicate PendingInv(keys: map<Id, KeyRow>, p: Pending) {
    && p.keyId in keys && keys[p.keyId].organizationId == p.org
    && p.metadata.createdByUserId == keys[p.keyId].metadata.createdByUserId
    && p.metadata.projectId == keys[p.keyId].metadata.projectId
    && p.metadata.rotatedFromKeyId == From(keys[p.keyId])
    && p.metadata.rotatedToKeyId.None? && p.metadata.revokedAt.Some?
  }

  ghost predicate PendingsInv(keys: map<Id, KeyRow>, pending: map<nat, Pending>) {
    forall token {:trigger pending[token]} :: token in pending ==> PendingInv(keys, pending[token])
  }

  ghost predicate Inv(s: System) {
    KeysInv(s.db.keys, s.born) && PendingsInv(s.db.keys, s.pending)
  }

  // ---- What no step does: remove a key, re-enable it, or change where it came from ----

  ghost predicate RowEvolves(a: KeyRow, b: KeyRow) {
    (b.enabled ==> a.enabled) && SameOwner(a, b) && From(a) == From(b)
    && a.metadata.createdByUserId == b.metadata.createdByUserId
  }

  ghost predicate Evolves(keys: map<Id, KeyRow>, keys': map<Id, KeyRow>) {
    forall id {:trigger id in keys} :: id in keys ==> id in keys' && RowEvolves(keys[id], keys'[id])
  }

  ghost predicate Extends(born: map<Id, nat>, born': map<Id, nat>) {
    forall id :: id in born ==> id in born' && born'[id] == born[id]
  }

  lemma PendingsSurvive(keys: map<Id, KeyRow>, keys': map<Id, KeyRow>, pending: map<nat, Pending>)
    requires PendingsInv(keys, pending) && Evolves(keys, keys')
    ensures PendingsInv(keys', pending)
  {
    forall token | token in pending ensures PendingInv(keys', pending[token]) {
      assert PendingInv(keys, pending[token]);
    }
  }

  lemma RowSurvives(keys: map<Id, KeyRow>, born: map<Id, nat>, keys': map<Id, KeyRow>, born': map<Id, nat>, id: Id)
    requires id in keys && RowInv(keys, born, id)
    requires Evolves(keys, keys') && Extends(born, born') && keys'[id] == keys[id]
    ensures RowInv(keys', born', id)
  {
  }

  lemma OneSuccessorSurvives(keys: map<Id, KeyRow>, keys': map<Id, KeyRow>)
    requires OneSuccessor(keys) && Evolves(keys, keys')
    requires forall id :: id in keys' && id !in keys ==> From(keys'[id]).None?
    ensures OneSuccessor(keys')
  {
    forall a, b | a in keys' && b in keys' && From(keys'[a]).Some? && From(keys'[a]) == From(keys'[b]) ensures a == b {
      assert RowEvolves(keys[a], keys'[a]) && RowEvolves(keys[b], keys'[b]);
    }
  }

  // ---- The three writes ---------------------------------------------------------------

  lemma InsertRows(keys: map<Id, KeyRow>, born: map<Id, nat>, id: Id, row: KeyRow)
    requires BornInv(keys, born) && RowsInv(keys, born) && id !in keys
    requires row.enabled && row.metadata.revokedAt.None? && To(row).None? && From(row).None?
    ensures RowsInv(keys[id := row], born[id := |born|])
  {
    var keys', born' := keys[id := row], born[id := |born|];
    forall x | x in keys' ensures RowInv(keys', born', x) {
      if x in keys { RowSurvives(keys, born, keys', born', x); }
    }
  }

  lemma InsertKeeps(keys: map<Id, KeyRow>, born: map<Id, nat>, id: Id, row: KeyRow)
    requires KeysInv(keys, born) && id !in keys
    requires row.enabled && row.metadata.revokedAt.None? && To(row).None? && From(row).None?
    ensures KeysInv(keys[id := row], born[id := |born|]) && Evolves(keys, keys[id := row])
  {
    InsertRows(keys, born, id, row);
    OneSuccessorSurvives(keys, keys[id := row]);
  }

  /** A key disabled, its forward link possibly erased. */
  lemma DisableKeeps(keys: map<Id, KeyRow>, born: map<Id, nat>, k: Id, row: KeyRow)
    requires KeysInv(keys, born) && k in keys
    requires !row.enabled && row.metadata.revokedAt.Some? && RowEvolves(keys[k], row) && To(row).None?
    ensures KeysInv(keys[k := row], born) && Evolves(keys, keys[k := row])
  {
    var keys' := keys[k := row];
    forall x | x in keys' ensures RowInv(keys', born, x) {
      if x != k { RowSurvives(keys, born, keys', born, x); }
      else { assert RowInv(keys, born, k); }
    }
    OneSuccessorSurvives(keys, keys');
  }

  lemma RotationRows(keys: map<Id, KeyRow>, born: map<Id, nat>, k: Id, retired: KeyRow, id: Id, row: KeyRow)
    requires BornInv(keys, born) && RowsInv(keys, born) && id !in keys && k in keys
    requires row.enabled && row.metadata.revokedAt.None? && To(row).None? && From(row) == Some(k) && SameOwner(keys[k], row)
    requires !retired.enabled && retired.metadata.revokedAt.Some? && RowEvolves(keys[k], retired) && To(retired) == Some(id)
    ensures RowsInv(keys[id := row][k := retired], born[id := |born|])
  {
    var keys', born' := keys[id := row][k := retired], born[id := |born|];
    forall x | x in keys' ensures RowInv(keys', born', x) {
      if x in keys && x != k {
        RowSurvives(keys, born, keys', born', x);
      } else if x == k {
        assert RowInv(keys, born, k);
      } else {
        assert Precedes(keys', born', k, id);
      }
    }
  }

  lemma RotationSuccessor(keys: map<Id, KeyRow>, born: map<Id, nat>, k: Id, retired: KeyRow, id: Id, row: KeyRow)
    requires RowsInv(keys, born) && OneSuccessor(keys) && id !in keys && k in keys && keys[k].enabled
    requires From(row) == Some(k) && From(retired) == From(keys[k])
    ensures OneSuccessor(keys[id := row][k := retired])
  {
    var keys' := keys[id := row][k := retired];
    forall a, b | a in keys' && b in keys' && From(keys'[a]).Some? && From(keys'[a]) == From(keys'[b]) ensures a == b {
      if a in keys { assert RowInv(keys, born, a); }
      if b in keys { assert RowInv(keys, born, b); }
      if a in keys && b in keys { assert From(keys[a]) == From(keys[b]); }
    }
  }

  // ---- Steps -------------------------------------------------------------------------

  lemma CreateKeeps(s: System, org: string, project: string, user: string, expiresAt: int, newId: Id, fault: nat)
    requires KeysInv(s.db.keys, s.born)
    ensures var t := Applied(s, CreateTx(s.db, org, project, user, expiresAt, newId, fault), newId);
            KeysInv(t.db.keys, t.born) && Evolves(s.db.keys, t.db.keys)
  {
    var a := CreateTx(s.db, org, project, user, expiresAt, newId, fault);
    if a.result.Ok? {
      InsertKeeps(s.db.keys, s.born, newId, NewRow(org, project, user, expiresAt, None));
    }
  }

  lemma RelinkKeeps(s: System, p: Rotation)
    requires KeysInv(s.db.keys, s.born) && p.newId !in s.db.keys
    requires p.keyId in s.db.keys && s.db.keys[p.keyId].enabled
    requires s.db.keys[p.keyId].organizationId == p.org && s.db.keys[p.keyId].metadata.projectId == p.project
    ensures KeysInv(Relinked(s.db, p).keys, s.born[p.newId := |s.born|])
    ensures Evolves(s.db.keys, Relinked(s.db, p).keys)
  {
    var row, retired := NewRow(p.org, p.project, p.user, p.expiresAt, Some(p.keyId)), Retired(s.db.keys[p.keyId], p.newId, p.now);
    RotationRows(s.db.keys, s.born, p.keyId, retired, p.newId, row);
    RotationSuccessor(s.db.keys, s.born, p.keyId, retired, p.newId, row);
  }

  lemma RotateKeeps(readable: (string, string) -> bool, s: System, p: Rotation, fault: nat)
    requires KeysInv(s.db.keys, s.born)
    ensures var t := Applied(s, RotateTx(readable, s.db, p, fault), p.newId);
            KeysInv(t.db.keys, t.born) && Evolves(s.db.keys, t.db.keys)
  {
    var a := RotateTx(readable, s.db, p, fault);
    if a.result.Ok? && a.result.value.Rotated? {
      RelinkKeeps(s, p);
    }
  }

  /** The keys after the write half of a revocation. */
  function KeysWritten(s: System, p: Pending, fault: nat): map<Id, KeyRow>
    requires p.keyId in s.db.keys
  {
    if fault > 2 then s.db.keys[p.keyId := s.db.keys[p.keyId].(enabled := false, metadata := p.metadata)] else s.db.keys
  }

  lemma WrittenKeys(s: System, p: Pending, fault: nat)
    requires BornInv(s.db.keys, s.born) && PendingInv(s.db.keys, p)
    ensures Written(s, p, fault).db.keys == KeysWritten(s, p, fault)
    ensures Written(s, p, fault).born == s.born
  {
  }

  lemma WriteKeeps(s: System, p: Pending, fault: nat)
    requires KeysInv(s.db.keys, s.born) && PendingInv(s.db.keys, p)
    ensures var t := Written(s, p, fault);
            KeysInv(t.db.keys, t.born) && Evolves(s.db.keys, t.db.keys)
  {
    WrittenKeys(s, p, fault);
    if fault > 2 {
      DisableKeeps(s.db.keys, s.born, p.keyId, s.db.keys[p.keyId].(enabled := false, metadata := p.metadata));
    }
  }

  /** A pending revocation is read from an enabled key. */
  lemma ReadKeeps(readable: (string, string) -> bool, s: System, token: nat, org: string, project: string, keyId: Id, now: int)
    requires Inv(s)
    ensures PendingsInv(s.db.keys, Step(readable, s, RevokeReads(token, org, project, keyId, now)).pending)
  {
    if Find(readable, s.db, org, project, keyId).Some? {
      assert RowInv(s.db.keys, s.born, keyId);
    }
  }

  lemma RereadStep(readable: (string, string) -> bool, s: System, token: nat)
    requires Inv(s)
    ensures Inv(Step(readable, s, RevokeRereads(token))) && Step(readable, s, RevokeRereads(token)).db == s.db
  {
    if token in s.pending { assert PendingInv(s.db.keys, s.pending[token]); }
  }

  lemma RevokeWriteStep(readable: (string, string) -> bool, s: System, token: nat, fault: nat)
    requires Inv(s) && token in s.pending && s.pending[token].found
    ensures var t := Step(readable, s, RevokeWrites(token, fault));
            Inv(t) && Evolves(s.db.keys, t.db.keys)
  {
    var u := s.(pending := s.pending - {token});
    WriteKeeps(u, s.pending[token], fault);
    PendingsSurvive(s.db.keys, Written(u, s.pending[token], fault).db.keys, u.pending);
  }

  lemma CreateStep(readable: (string, string) -> bool, s: System, a: Action)
    requires Inv(s) && a.Create?
    ensures Inv(Step(readable, s, a)) && Evolves(s.db.keys, Step(readable, s, a).db.keys)
  {
    CreateKeeps(s, a.org, a.project, a.user, a.expiresAt, a.newId, a.fault);
    PendingsSurvive(s.db.keys, Step(readable, s, a).db.keys, s.pending);
  }

  lemma RotateStep(readable: (string, string) -> bool, s: System, a: Action)
    requires Inv(s) && a.Rotate?
    ensures Inv(Step(readable, s, a)) && Evolves(s.db.keys, Step(readable, s, a).db.keys)
  {
    RotateKeeps(readable, s, a.p, a.fault);
    PendingsSurvive(s.db.keys, Step(readable, s, a).db.keys, s.pending);
  }

  /** No step breaks the invariant, removes a key, re-enables one, or changes
      where one came from. */
  lemma StepKeeps(readable: (string, string) -> bool, s: System, a: Action)
    requires Inv(s)
    ensures Inv(Step(readable, s, a)) && Evolves(s.db.keys, Step(readable, s, a).db.keys)
  {
    match a
    case Create(_, _, _, _, _, _) => CreateStep(readable, s, a);
    case Rotate(_, _) => RotateStep(readable, s, a);
    case RevokeReads(token, org, project, keyId, now) => ReadKeeps(readable, s, token, org, project, keyId, now);
    case RevokeRereads(token) => RereadStep(readable, s, token);
    case RevokeWrites(token, fault) =>
      if token in s.pending && s.pending[token].found { RevokeWriteStep(readable, s, token, fault); }
  }

  lemma {:induction false} RunKeeps(readable: (string, string) -> bool, s: System, actions: seq<Action>)
    requires Inv(s)
    ensures Inv(Run(readable, s, actions)) && Evolves(s.db.keys, Run(readable, s, actions).db.keys)
  {
    if actions != [] {
      RunKeeps(readable, s, Front(actions));
      StepKeeps(readable, Run(readable, s, Front(actions)), Last(actions));
    }
  }

  lemma ReachableInv(readable: (string, string) -> bool, actions: seq<Action>)
    ensures Inv(After(readable, actions))
  {
    RunKeeps(readable, Initial(), actions);
  }

  // ---- Over every run -------------------------------------------------------------------

  /** Once disabled a key stays disabled; keys stay, with their owner and origin. */
  lemma {:induction false} DisabledForGood(readable: (string, string) -> bool, actions: seq<Action>, more: seq<Action>, id: Id)
    requires id in After(readable, actions).db.keys
    ensures var before, after := After(readable, actions).db.keys, Run(readable, After(readable, actions), more).db.keys;
            && id in after
            && (after[id].enabled ==> before[id].enabled)
            && From(after[id]) == From(before[id]) && SameOwner(before[id], after[id])
  {
    ReachableInv(readable, actions);
    RunKeeps(readable, After(readable, actions), more);
  }

  /** A key that was found once is found ever after: the second lookup of a
      revocation never misses. */
  lemma FoundForGood(readable: (string, string) -> bool, actions: seq<Action>, more: seq<Action>,
                     org: string, project: string, id: Id)
    requires Find(readable, After(readable, actions).db, org, project, id).Some?
    ensures Find(readable, Run(readable, After(readable, actions), more).db, org, project, id).Some?
  {
    ReachableInv(readable, actions);
    RunKeeps(readable, After(readable, actions), more);
  }

  /** The outcome `already_rotated` is never produced: a rotated key is disabled,
      and that is what rotate tests first. */
  lemma {:induction false} NeverAlreadyRotated(readable: (string, string) -> bool, actions: seq<Action>, p: Rotation, fault: nat)
    ensures RotateTx(readable, After(readable, actions).db, p, fault).result != Ok(AlreadyRotated)
  {
    ReachableInv(readable, actions);
    var s := After(readable, actions);
    if p.keyId in s.db.keys { assert RowInv(s.db.keys, s.born, p.keyId); }
  }

  /** A key says when it was revoked exactly when it is disabled. */
  lemma DisabledSaysWhen(readable: (string, string) -> bool, actions: seq<Action>, k: Id)
    requires k in After(readable, actions).db.keys
    ensures var row := After(readable, actions).db.keys[k];
            !row.enabled <==> row.metadata.revokedAt.Some?
  {
    ReachableInv(readable, actions);
    assert RowInv(After(readable, actions).db.keys, After(readable, actions).born, k);
  }

  /** A forward link always points to the key that points back. */
  lemma {:induction false} LinksPointBack(readable: (string, string) -> bool, actions: seq<Action>, k: Id)
    requires k in After(readable, actions).db.keys
    ensures var keys := After(readable, actions).db.keys;
            To(keys[k]).Some? ==> To(keys[k]).value in keys && From(keys[To(keys[k]).value]) == Some(k)
  {
    ReachableInv(readable, actions);
    assert RowInv(After(readable, actions).db.keys, After(readable, actions).born, k);
  }

  // ---- Lineages are paths ------------------------------------------------------------------

  /** The key a lineage started from, and how many rotations ago. Following the
      origins ends because each was created before the key it led to. */
  ghost function Ancestry(keys: map<Id, KeyRow>, born: map<Id, nat>, id: Id): (r: (Id, nat))
    requires KeysInv(keys, born) && id in keys
    ensures r.0 in keys && SameOwner(keys[r.0], keys[id])
    decreases born[id]
  {
    assert RowInv(keys, born, id);
    match From(keys[id])
    case None => (id, 0)
    case Some(p) =>
      var r := Ancestry(keys, born, p);
      (r.0, r.1 + 1)
  }

  /** One key at each depth of a lineage: it never branches. */
  lemma {:induction false} OnePerDepth(keys: map<Id, KeyRow>, born: map<Id, nat>, a: Id, b: Id)
    requires KeysInv(keys, born) && a in keys && b in keys
    requires Ancestry(keys, born, a) == Ancestry(keys, born, b)
    ensures a == b
    decreases born[a]
  {
    assert RowInv(keys, born, a) && RowInv(keys, born, b);
    if From(keys[a]).Some? {
      OnePerDepth(keys, born, From(keys[a]).value, From(keys[b]).value);
    }
  }

  /** Every key but the deepest of a lineage is disabled. */
  lemma {:induction false} OnlyTheDeepestIsEnabled(keys: map<Id, KeyRow>, born: map<Id, nat>, a: Id, b: Id)
    requires KeysInv(keys, born) && a in keys && b in keys
    requires Ancestry(keys, born, a).0 == Ancestry(keys, born, b).0
    requires Ancestry(keys, born, a).1 < Ancestry(keys, born, b).1
    ensures !keys[a].enabled
    decreases born[b]
  {
    assert RowInv(keys, born, b);
    var p := From(keys[b]).value;
    if Ancestry(keys, born, a).1 == Ancestry(keys, born, p).1 {
      OnePerDepth(keys, born, a, p);
    } else {
      OnlyTheDeepestIsEnabled(keys, born, a, p);
    }
  }

  /** In every reachable state a lineage is an unbranching path of one owner with
      at most one enabled key, its last. */
  lemma {:induction false} LineagesArePaths(readable: (string, string) -> bool, actions: seq<Action>, a: Id, b: Id)
    requires a in After(readable, actions).db.keys && b in After(readable, actions).db.keys
    ensures var s := After(readable, actions);
            && Inv(s)
            && var (rootA, depthA), (rootB, depthB) := Ancestry(s.db.keys, s.born, a), Ancestry(s.db.keys, s.born, b);
               rootA == rootB ==>
                 && SameOwner(s.db.keys[a], s.db.keys[b])
                 && (depthA == depthB ==> a == b)
                 && (depthA < depthB ==> !s.db.keys[a].enabled)
                 && (s.db.keys[a].enabled && s.db.keys[b].enabled ==> a == b)
  {
    ReachableInv(readable, actions);
    var s := After(readable, actions);
    var keys, born := s.db.keys, s.born;
    if Ancestry(keys, born, a).0 == Ancestry(keys, born, b).0 {
      var depthA, depthB := Ancestry(keys, born, a).1, Ancestry(keys, born, b).1;
      if depthA == depthB { OnePerDepth(keys, born, a, b); }
      else if depthA < depthB { OnlyTheDeepestIsEnabled(keys, born, a, b); }
      else { OnlyTheDeepestIsEnabled(keys, born, b, a); }
    }
  }
}
