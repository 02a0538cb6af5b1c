/** What the audit table says about the keys, over every run with faults
    anywhere: the counters count its rows, its rows count the keys, and it tells
    which keys are enabled and which forward links survive. */
module ApiKeyAuditTrail {
  import opened Basics
  import opened ApiKeys
  import opened ApiKeyLineage

  // ---- The four effects a step can have on the tables --------------------------------

  /** One audit row more. */
  ghost predicate Logs(d: Db, e: Db, action: AuditAction, id: Id) {
    e.audits != [] && Front(e.audits) == d.audits && Last(e.audits).action == action && Last(e.audits).targetId == id
  }

  ghost predicate Creates(d: Db, e: Db, id: Id) {
    && id !in d.keys && id in e.keys && e.keys == d.keys[id := e.keys[id]]
    && e.keys[id].enabled && From(e.keys[id]).None? && To(e.keys[id]).None?
    && Logs(d, e, KeyCreated, id)
  }

  ghost predicate Rotates(d: Db, e: Db, k: Id, id: Id) {
    && k in d.keys && d.keys[k].enabled && id !in d.keys && k in e.keys && id in e.keys
    && e.keys == d.keys[k := e.keys[k]][id := e.keys[id]]
    && e.keys[id].enabled && From(e.keys[id]) == Some(k) && To(e.keys[id]).None?
    && !e.keys[k].enabled && From(e.keys[k]) == From(d.keys[k]) && To(e.keys[k]) == Some(id)
    && Logs(d, e, KeyRotated, id)
  }

  ghost predicate Revokes(d: Db, e: Db, k: Id) {
    && k in d.keys && k in e.keys && e.keys == d.keys[k := e.keys[k]]
    && !e.keys[k].enabled && From(e.keys[k]) == From(d.keys[k]) && To(e.keys[k]).None?
    && Logs(d, e, KeyRevoked, k)
  }

  ghost predicate Changes(d: Db, e: Db, c: Change) {
    match c
    case Nothing => e == d
    case Creation(id) => Creates(d, e, id)
    case Succession(k, id) => Rotates(d, e, k, id)
    case Revocation(k) => Revokes(d, e, k)
  }

  datatype Change = Nothing | Creation(id: Id) | Succession(k: Id, id: Id) | Revocation(k: Id)

  /** The change a step made, if its transaction committed. */
  ghost function ChangeOf(readable: (string, string) -> bool, s: System, a: Action): Change {
    match a
    case Create(org, project, user, expiresAt, newId, fault) =>
      if CreateTx(s.db, org, project, user, expiresAt, newId, fault).result.Ok? then Creation(newId) else Nothing
    case Rotate(p, fault) =>
      if RotateTx(readable, s.db, p, fault).result == Ok(Rotated(p.newId)) then Succession(p.keyId, p.newId) else Nothing
    case RevokeWrites(token, fault) =>
      if token in s.pending && s.pending[token].found && fault > 2 then Revocation(s.pending[token].keyId) else Nothing
    case _ => Nothing
  }

  lemma LogLogs(d: Db, row: AuditRow)
    ensures Logs(d, Log(d, row), row.action, row.targetId)
  {
    assert Front(d.audits + [row]) == d.audits;
  }

  lemma CreateChanges(d: Db, org: string, project: string, user: string, expiresAt: int, newId: Id)
    requires newId !in d.keys
    ensures Creates(d, CreateTx(d, org, project, user, expiresAt, newId, 3).db, newId)
  {
    var inserted := Insert(d, newId, NewRow(org, project, user, expiresAt, None));
    LogLogs(inserted, AuditRow(KeyCreated, org, newId));
  }

  lemma RotateChanges(d: Db, p: Rotation)
    requires p.keyId in d.keys && d.keys[p.keyId].enabled && p.newId !in d.keys
    ensures Rotates(d, Log(Relinked(d, p), AuditRow(KeyRotated, p.org, p.newId)), p.keyId, p.newId)
  {
    LogLogs(Relinked(d, p), AuditRow(KeyRotated, p.org, p.newId));
  }

  lemma WriteChanges(d: Db, p: Pending)
    requires PendingInv(d.keys, p)
    ensures Revokes(d, WriteTx(d, p.org, p.keyId, false, p.metadata, 3).db, p.keyId)
  {
    var updated := Insert(d, p.keyId, d.keys[p.keyId].(enabled := false, metadata := p.metadata));
    LogLogs(updated, AuditRow(KeyRevoked, p.org, p.keyId));
  }

  lemma {:induction false} StepChanges(readable: (string, string) -> bool, s: System, a: Action)
    requires Inv(s)
    ensures Changes(s.db, Step(readable, s, a).db, ChangeOf(readable, s, a))
  {
    if ChangeOf(readable, s, a) != Nothing {
      match a
      case Create(org, project, user, expiresAt, newId, fault) =>
        CreateChanges(s.db, org, project, user, expiresAt, newId);
      case Rotate(p, fault) =>
        RotateChanges(s.db, p);
      case RevokeWrites(token, fault) =>
        assert PendingInv(s.db.keys, s.pending[token]);
        WriteChanges(s.db, s.pending[token]);
    }
  }

  // ---- The audit rows count the keys ------------------------------------------------------

  function CountAudits(audits: seq<AuditRow>, action: AuditAction): nat {
    if audits == [] then 0
    else CountAudits(Front(audits), action) + if Last(audits).action == action then 1 else 0
  }

  function Successors(keys: map<Id, KeyRow>): set<Id> { set id | id in keys && From(keys[id]).Some? }

  function Originals(keys: map<Id, KeyRow>): set<Id> { set id | id in keys && From(keys[id]).None? }

  ghost predicate Counted(d: Db) {
    CountAudits(d.audits, KeyRotated) == |Successors(d.keys)| && CountAudits(d.audits, KeyCreated) == |Originals(d.keys)|
  }

  /** A change gives no existing key another origin. */
  lemma OriginsStay(d: Db, e: Db, c: Change, x: Id)
    requires Changes(d, e, c) && x in d.keys
    ensures x in e.keys && From(e.keys[x]) == From(d.keys[x])
  {
  }

  lemma ChangeSuccessors(d: Db, e: Db, c: Change)
    requires Changes(d, e, c)
    ensures |Successors(e.keys)| == |Successors(d.keys)| + if c.Succession? then 1 else 0
  {
    forall x | x in d.keys ensures x in Successors(e.keys) <==> x in Successors(d.keys) {
      OriginsStay(d, e, c, x);
    }
    if c.Succession? {
      assert Successors(e.keys) == Successors(d.keys) + {c.id};
    } else {
      assert Successors(e.keys) == Successors(d.keys);
    }
  }

  lemma ChangeOriginals(d: Db, e: Db, c: Change)
    requires Changes(d, e, c)
    ensures |Originals(e.keys)| == |Originals(d.keys)| + if c.Creation? then 1 else 0
  {
    forall x | x in d.keys ensures x in Originals(e.keys) <==> x in Originals(d.keys) {
      OriginsStay(d, e, c, x);
    }
    if c.Creation? {
      assert Originals(e.keys) == Originals(d.keys) + {c.id};
    } else {
      assert Originals(e.keys) == Originals(d.keys);
    }
  }

  lemma ChangeCounts(d: Db, e: Db, c: Change)
    requires Counted(d) && Changes(d, e, c)
    ensures Counted(e)
  {
    ChangeSuccessors(d, e, c);
    ChangeOriginals(d, e, c);
  }

  /** The success counter of each action. */
  ghost predicate Metered(s: System) {
    forall action {:trigger CountAudits(s.db.audits, action)} :: s.counters[(action, true)] == CountAudits(s.db.audits, action)
  }

  function ActionOf(c: Change): Option<AuditAction> {
    match c
    case Nothing => None
    case Creation(_) => Some(KeyCreated)
    case Succession(_, _) => Some(KeyRotated)
    case Revocation(_) => Some(KeyRevoked)
  }

  /** The action of a step that reached its audit row and did not commit. */
  ghost function FailureOf(readable: (string, string) -> bool, s: System, a: Action): Option<AuditAction> {
    match a
    case Create(org, project, user, expiresAt, newId, fault) =>
      if newId !in s.db.keys && 1 <= fault <= 2 then Some(KeyCreated) else None
    case Rotate(p, fault) =>
      if RotateDecision(Find(readable, s.db, p.org, p.project, p.keyId), p.newId, p.now).Rotated?
         && p.newId !in s.db.keys && 3 <= fault <= 4
      then Some(KeyRotated) else None
    case RevokeWrites(token, fault) =>
      if token in s.pending && s.pending[token].found && 1 <= fault <= 2 then Some(KeyRevoked) else None
    case _ => None
  }

  function One(x: Option<AuditAction>, action: AuditAction): nat { if x == Some(action) then 1 else 0 }

  /** The counters after a step: one more for the action it committed, one more
      for the action it failed at. */
  ghost predicate Meters(before: Counters, after: Counters, committed: Option<AuditAction>, failed: Option<AuditAction>) {
    forall action ::
      && after[(action, true)] == before[(action, true)] + One(committed, action)
      && after[(action, false)] == before[(action, false)] + One(failed, action)
  }

  lemma OutcomeMeters<T>(s: System, a: KeyAttempt<T>, id: Id)
    ensures Meters(s.counters, Applied(s, a, id).counters,
                   if a.result.Ok? then a.audited else None, if a.result.Err? then a.audited else None)
  {
  }

  lemma CreateMeters(readable: (string, string) -> bool, s: System, a: Action)
    requires a.Create?
    ensures Meters(s.counters, Step(readable, s, a).counters, ActionOf(ChangeOf(readable, s, a)), FailureOf(readable, s, a))
  {
    OutcomeMeters(s, CreateTx(s.db, a.org, a.project, a.user, a.expiresAt, a.newId, a.fault), a.newId);
  }

  lemma RotateMeters(readable: (string, string) -> bool, s: System, a: Action)
    requires a.Rotate?
    ensures Meters(s.counters, Step(readable, s, a).counters, ActionOf(ChangeOf(readable, s, a)), FailureOf(readable, s, a))
  {
    OutcomeMeters(s, RotateTx(readable, s.db, a.p, a.fault), a.p.newId);
  }

  lemma RevokeMeters(readable: (string, string) -> bool, s: System, a: Action)
    requires a.RevokeWrites?
    ensures Meters(s.counters, Step(readable, s, a).counters, ActionOf(ChangeOf(readable, s, a)), FailureOf(readable, s, a))
  {
    if a.token in s.pending && s.pending[a.token].found {
      var p, u := s.pending[a.token], s.(pending := s.pending - {a.token});
      OutcomeMeters(u, WriteTx(s.db, p.org, p.keyId, false, p.metadata, a.fault), p.keyId);
    }
  }

  /** Commit and count go together: a step that adds an audit row adds one
      success for its action; one that reached its audit row and rolled back adds
      one failure; any other step adds nothing. */
  lemma StepMeters(readable: (string, string) -> bool, s: System, a: Action)
    ensures Meters(s.counters, Step(readable, s, a).counters, ActionOf(ChangeOf(readable, s, a)), FailureOf(readable, s, a))
  {
    match a
    case Create(_, _, _, _, _, _) => CreateMeters(readable, s, a);
    case Rotate(_, _) => RotateMeters(readable, s, a);
    case RevokeWrites(_, _) => RevokeMeters(readable, s, a);
    case _ =>
  }

  lemma {:induction false} StepKeepsMetered(readable: (string, string) -> bool, s: System, a: Action)
    requires Inv(s) && Metered(s)
    ensures Metered(Step(readable, s, a))
  {
    var t, c := Step(readable, s, a), ChangeOf(readable, s, a);
    StepChanges(readable, s, a);
    StepMeters(readable, s, a);
    forall action ensures t.counters[(action, true)] == CountAudits(t.db.audits, action) {
      assert s.counters[(action, true)] == CountAudits(s.db.audits, action);
    }
  }

  // ---- The audit rows tell which keys are enabled and which links survive ---------------------

  ghost predicate Revoked(audits: seq<AuditRow>, k: Id) {
    exists i :: 0 <= i < |audits| && audits[i].action == KeyRevoked && audits[i].targetId == k
  }

  ghost predicate HasSuccessor(keys: map<Id, KeyRow>, k: Id) {
    exists x :: x in keys && From(keys[x]) == Some(k)
  }

  /** Was `k` revoked after the rotation that created `x`? */
  predicate RevokedSince(audits: seq<AuditRow>, k: Id, x: Id) {
    audits != [] &&
    var last := Last(audits);
    !(last.action == KeyRotated && last.targetId == x)
    && ((last.action == KeyRevoked && last.targetId == k) || RevokedSince(Front(audits), k, x))
  }

  ghost predicate TargetsExist(d: Db) {
    && (forall i :: 0 <= i < |d.audits| ==> d.audits[i].targetId in d.keys)
    && (forall x :: x in d.keys && From(d.keys[x]).Some? ==> From(d.keys[x]).value in d.keys)
  }

  ghost predicate EnabledTold(d: Db) {
    forall k :: k in d.keys ==> (d.keys[k].enabled <==> !Revoked(d.audits, k) && !HasSuccessor(d.keys, k))
  }

  ghost predicate LinkTold(d: Db, x: Id)
    requires x in d.keys
  {
    From(d.keys[x]).Some? ==>
      var k := From(d.keys[x]).value;
      k in d.keys && To(d.keys[k]) == if RevokedSince(d.audits, k, x) then None else Some(x)
  }

  ghost predicate LinksTold(d: Db) {
    forall x {:trigger LinkTold(d, x)} :: x in d.keys ==> LinkTold(d, x)
  }

  lemma ChangeTargets(d: Db, e: Db, c: Change)
    requires TargetsExist(d) && Changes(d, e, c)
    ensures TargetsExist(e)
  {
    if !c.Nothing? {
      forall i | 0 <= i < |e.audits| ensures e.audits[i].targetId in e.keys {
        if i < |d.audits| { assert e.audits[i] == Front(e.audits)[i]; }
      }
    }
  }

  /** One row more: `k` is revoked if it was, or if the row says so. */
  lemma RevokedGrows(d: Db, e: Db, action: AuditAction, id: Id, k: Id)
    requires Logs(d, e, action, id)
    ensures Revoked(e.audits, k) <==> Revoked(d.audits, k) || (action == KeyRevoked && id == k)
  {
    if Revoked(d.audits, k) {
      var i :| 0 <= i < |d.audits| && d.audits[i].action == KeyRevoked && d.audits[i].targetId == k;
      assert e.audits[i] == Front(e.audits)[i];
    }
    if Revoked(e.audits, k) {
      var i :| 0 <= i < |e.audits| && e.audits[i].action == KeyRevoked && e.audits[i].targetId == k;
      if i < |d.audits| { assert d.audits[i] == Front(e.audits)[i]; }
    }
    if action == KeyRevoked && id == k { assert e.audits[|e.audits| - 1] == Last(e.audits); }
  }

  lemma SuccessorsGrow(d: Db, e: Db, c: Change, k: Id)
    requires Changes(d, e, c)
    ensures HasSuccessor(e.keys, k) <==> HasSuccessor(d.keys, k) || (c.Succession? && c.k == k)
  {
    if HasSuccessor(d.keys, k) {
      var x :| x in d.keys && From(d.keys[x]) == Some(k);
      assert x in e.keys && From(e.keys[x]) == Some(k);
    }
    if HasSuccessor(e.keys, k) {
      var x :| x in e.keys && From(e.keys[x]) == Some(k);
      assert x in d.keys ==> From(d.keys[x]) == Some(k);
    }
    if c.Succession? && c.k == k { assert From(e.keys[c.id]) == Some(k); }
  }

  lemma ChangeEnabled(d: Db, e: Db, c: Change)
    requires TargetsExist(d) && EnabledTold(d) && Changes(d, e, c)
    ensures EnabledTold(e)
  {
    if !c.Nothing? {
      forall k | k in e.keys ensures e.keys[k].enabled <==> !Revoked(e.audits, k) && !HasSuccessor(e.keys, k) {
        RevokedGrows(d, e, Last(e.audits).action, Last(e.audits).targetId, k);
        SuccessorsGrow(d, e, c, k);
      }
    }
  }

  lemma ChangeLinks(d: Db, e: Db, c: Change, born: map<Id, nat>)
    requires KeysInv(d.keys, born) && TargetsExist(d) && LinksTold(d) && Changes(d, e, c)
    ensures LinksTold(e)
  {
    forall x | x in e.keys ensures LinkTold(e, x) {
      if x in d.keys && !c.Nothing? {
        assert LinkTold(d, x);
        assert From(e.keys[x]) == From(d.keys[x]);
        if From(d.keys[x]).Some? { LinkStep(d, e, c, born, From(d.keys[x]).value, x); }
      } else if c.Nothing? {
        assert LinkTold(d, x);
      }
    }
  }

  lemma LinkStep(d: Db, e: Db, c: Change, born: map<Id, nat>, k: Id, x: Id)
    requires KeysInv(d.keys, born) && Changes(d, e, c) && !c.Nothing?
    requires x in d.keys && From(d.keys[x]) == Some(k) && LinkTold(d, x)
    ensures From(e.keys[x]) == Some(k) && LinkTold(e, x)
  {
    assert RowInv(d.keys, born, x);
  }

  // ---- Over every run -----------------------------------------------------------------------

  ghost predicate TrailInv(s: System) {
    Inv(s) && Metered(s) && Counted(s.db) && TargetsExist(s.db) && EnabledTold(s.db) && LinksTold(s.db)
  }

  lemma {:induction false} StepKeepsTrail(readable: (string, string) -> bool, s: System, a: Action)
    requires TrailInv(s)
    ensures TrailInv(Step(readable, s, a))
  {
    StepKeeps(readable, s, a);
    StepChanges(readable, s, a);
    StepKeepsMetered(readable, s, a);
    var e, c := Step(readable, s, a).db, ChangeOf(readable, s, a);
    ChangeCounts(s.db, e, c);
    ChangeTargets(s.db, e, c);
    ChangeEnabled(s.db, e, c);
    ChangeLinks(s.db, e, c, s.born);
  }

  lemma InitialTrail()
    ensures TrailInv(Initial())
  {
    assert Successors(map[]) == {} && Originals(map[]) == {};
  }

  lemma {:induction false} TrailInvariant(readable: (string, string) -> bool, actions: seq<Action>)
    ensures TrailInv(After(readable, actions))
  {
    if actions == [] {
      InitialTrail();
    } else {
      TrailInvariant(readable, Front(actions));
      StepKeepsTrail(readable, After(readable, Front(actions)), Last(actions));
    }
  }

  /** Every committed audit row is counted as one success and nothing else is;
      `api_key.rotated` rows are as many as keys with an origin, `api_key.created`
      rows as many as keys without. */
  lemma AuditsCountKeys(readable: (string, string) -> bool, actions: seq<Action>, action: AuditAction)
    ensures var s := After(readable, actions);
            && s.counters[(action, true)] == CountAudits(s.db.audits, action)
            && CountAudits(s.db.audits, KeyRotated) == |Successors(s.db.keys)|
            && CountAudits(s.db.audits, KeyCreated) == |Originals(s.db.keys)|
  {
    TrailInvariant(readable, actions);
    assert CountAudits(After(readable, actions).db.audits, action) >= 0;
  }

  /** How many steps reached the audit row of an action and did not commit. */
  ghost function Failures(readable: (string, string) -> bool, actions: seq<Action>, action: AuditAction): nat {
    if actions == [] then 0
    else Failures(readable, Front(actions), action)
         + One(FailureOf(readable, After(readable, Front(actions)), Last(actions)), action)
  }

  /** The failure counter of each action counts just those steps. */
  lemma {:induction false} FailuresCounted(readable: (string, string) -> bool, actions: seq<Action>, action: AuditAction)
    ensures After(readable, actions).counters[(action, false)] == Failures(readable, actions, action)
  {
    if actions != [] {
      FailuresCounted(readable, Front(actions), action);
      StepMeters(readable, After(readable, Front(actions)), Last(actions));
    }
  }

  /** A key is enabled exactly when no audit row revokes it and no key succeeds it. */
  lemma EnabledExactly(readable: (string, string) -> bool, actions: seq<Action>, k: Id)
    requires k in After(readable, actions).db.keys
    ensures var d := After(readable, actions).db;
            d.keys[k].enabled <==> !Revoked(d.audits, k) && !HasSuccessor(d.keys, k)
  {
    TrailInvariant(readable, actions);
  }

  /** Rotating a key that has a successor is refused as already revoked. */
  lemma SucceededKeyIsAlreadyRevoked(readable: (string, string) -> bool, actions: seq<Action>, p: Rotation, fault: nat)
    requires var d := After(readable, actions).db;
             Find(readable, d, p.org, p.project, p.keyId).Some? && HasSuccessor(d.keys, p.keyId) && fault > 0
    ensures RotateTx(readable, After(readable, actions).db, p, fault).result == Ok(AlreadyRevoked)
  {
    EnabledExactly(readable, actions, p.keyId);
  }

  /** The forward link of a rotated key is there exactly when no revocation of it
      committed after its rotation. */
  lemma LinkSurvivesExactly(readable: (string, string) -> bool, actions: seq<Action>, x: Id)
    requires x in After(readable, actions).db.keys && From(After(readable, actions).db.keys[x]).Some?
    ensures var d := After(readable, actions).db;
            var k := From(d.keys[x]).value;
            && k in d.keys
            && (To(d.keys[k]) == Some(x) <==> !RevokedSince(d.audits, k, x))
            && (To(d.keys[k]) == None <==> RevokedSince(d.audits, k, x))
  {
    TrailInvariant(readable, actions);
    assert LinkTold(After(readable, actions).db, x);
  }

  // ---- A stale revocation does erase a link --------------------------------------------------

  lemma RunOne(readable: (string, string) -> bool, actions: seq<Action>, a: Action)
    ensures After(readable, actions + [a]) == Step(readable, After(readable, actions), a)
  {
    assert Front(actions + [a]) == actions;
  }

  /** One key, just created. */
  ghost predicate OneKey(s: System, p: Rotation) {
    s.db.keys == map[p.keyId := NewRow(p.org, p.project, p.user, p.expiresAt, None)]
  }

  /** A revocation of that key has read it and, if `found`, looked it up again. */
  ghost predicate AboutToRevoke(s: System, p: Rotation, token: nat, found: bool) {
    && OneKey(s, p) && token in s.pending
    && s.pending[token] == Pending(p.org, p.project, p.keyId, Metadata(p.project, p.user, Some(p.now), None, None), found)
  }

  lemma FirstStep(readable: (string, string) -> bool, a: Action) returns (actions: seq<Action>)
    ensures After(readable, actions) == Step(readable, Initial(), a)
  {
    actions := [] + [a];
    RunOne(readable, [], a);
  }

  lemma CreationMakesOneKey(readable: (string, string) -> bool, s: System, p: Rotation)
    requires s.db.keys == map[]
    ensures OneKey(Step(readable, s, Create(p.org, p.project, p.user, p.expiresAt, p.keyId, 3)), p)
  {
  }

  lemma KeyIsCreated(readable: (string, string) -> bool, p: Rotation) returns (actions: seq<Action>)
    ensures OneKey(After(readable, actions), p)
  {
    actions := FirstStep(readable, Create(p.org, p.project, p.user, p.expiresAt, p.keyId, 3));
    CreationMakesOneKey(readable, Initial(), p);
  }

  lemma RevocationReads(readable: (string, string) -> bool, s: System, p: Rotation, token: nat)
    requires readable(p.project, p.user) && OneKey(s, p)
    ensures AboutToRevoke(Step(readable, s, RevokeReads(token, p.org, p.project, p.keyId, p.now)), p, token, false)
  {
  }

  lemma RevocationRereads(readable: (string, string) -> bool, s: System, p: Rotation, token: nat)
    requires readable(p.project, p.user) && AboutToRevoke(s, p, token, false)
    ensures AboutToRevoke(Step(readable, s, RevokeRereads(token)), p, token, true)
  {
  }

  lemma RevocationWaits(readable: (string, string) -> bool, p: Rotation, token: nat) returns (actions: seq<Action>)
    requires readable(p.project, p.user)
    ensures AboutToRevoke(After(readable, actions), p, token, true)
  {
    var created := KeyIsCreated(readable, p);
    var read := RevokeReads(token, p.org, p.project, p.keyId, p.now);
    RunOne(readable, created, read);
    RevocationReads(readable, After(readable, created), p, token);
    RunOne(readable, created + [read], RevokeRereads(token));
    RevocationRereads(readable, After(readable, created + [read]), p, token);
    actions := created + [read] + [RevokeRereads(token)];
  }

  lemma RotationOvertakes(readable: (string, string) -> bool, s: System, p: Rotation, token: nat)
    requires AboutToRevoke(s, p, token, true) && readable(p.project, p.user) && p.newId != p.keyId && p.expiresAt > p.now
    ensures var t := Step(readable, s, Rotate(p, 5));
            && t.pending == s.pending && t.db.keys == Relinked(s.db, p).keys
  {
  }

  /** The write of a revocation that a rotation overtook. */
  lemma RevocationWrites(readable: (string, string) -> bool, s: System, t: System, p: Rotation, token: nat)
    requires AboutToRevoke(s, p, token, true) && p.newId != p.keyId
    requires t.pending == s.pending && t.db.keys == Relinked(s.db, p).keys
    ensures var keys := Step(readable, t, RevokeWrites(token, 3)).db.keys;
            p.newId in keys && From(keys[p.newId]) == Some(p.keyId) && keys[p.newId].enabled
            && p.keyId in keys && To(keys[p.keyId]) == None
  {
  }

  /** Revoking a key that is rotated between the revocation's lookups and its
      write leaves the old key without its forward link. */
  lemma StaleRevokeErasesLink(readable: (string, string) -> bool, p: Rotation, token: nat) returns (actions: seq<Action>)
    requires readable(p.project, p.user) && p.newId != p.keyId && p.expiresAt > p.now
    ensures var keys := After(readable, actions).db.keys;
            p.newId in keys && From(keys[p.newId]) == Some(p.keyId) && keys[p.newId].enabled
            && p.keyId in keys && To(keys[p.keyId]) == None
  {
    var before := RevocationWaits(readable, p, token);
    RotationOvertakes(readable, After(readable, before), p, token);
    RunOne(readable, before, Rotate(p, 5));
    var rotated := before + [Rotate(p, 5)];
    RunOne(readable, rotated, RevokeWrites(token, 3));
    RevocationWrites(readable, After(readable, before), After(readable, rotated), p, token);
    actions := rotated + [RevokeWrites(token, 3)];
  }
}
