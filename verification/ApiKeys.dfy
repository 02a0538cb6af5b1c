/** API keys, their rotation and revocation, and the audited transactions that
    change them (src/repositories/postgres/api-key-repository.ts, src/repositories/
    postgres/audit-repository.ts, src/services/api-key-service.ts).

    A transaction is atomic; `fault` numbers the statement of it that fails
    (every statement and the commit can). A revocation is a read, a second
    lookup and a write transaction; anything may run in between. */
module ApiKeys {
  import opened Basics
  import opened AuditedTransactions

  type Id = nat

  datatype Metadata = Metadata(
    projectId: string, createdByUserId: string, revokedAt: Option<int>,
    rotatedFromKeyId: Option<Id>, rotatedToKeyId: Option<Id>)

  datatype KeyRow = KeyRow(organizationId: string, enabled: bool, expiresAt: Option<int>, metadata: Metadata)

  datatype AuditAction = KeyCreated | KeyRevoked | KeyRotated

  datatype AuditRow = AuditRow(action: AuditAction, organizationId: string, targetId: Id)

  datatype Db = Db(keys: map<Id, KeyRow>, audits: seq<AuditRow>)

  /** The calls of incrementAuditEvent so far: action, and whether "success". */
  type Counters = multiset<(AuditAction, bool)>

  type KeyAttempt<T> = Attempt<Db, AuditAction, T>

  // ---- The statements ------------------------------------------------------------

  function Insert(db: Db, id: Id, row: KeyRow): Db {
    db.(keys := db.keys[id := row])
  }

  function Log(db: Db, row: AuditRow): Db {
    db.(audits := db.audits + [row])
  }

  function NewRow(org: string, project: string, user: string, expiresAt: int, from: Option<Id>): KeyRow {
    KeyRow(org, true, Some(expiresAt), Metadata(project, user, None, from, None))
  }

  function Retired(row: KeyRow, newId: Id, now: int): KeyRow {
    row.(enabled := false, metadata := row.metadata.(revokedAt := Some(now), rotatedToKeyId := Some(newId)))
  }

  /** getApiKeyForProject. `readable` says of a project id and a user id that
      metadata holding them validates when read back; other rows are not found. */
  function Find(readable: (string, string) -> bool, db: Db, org: string, project: string, keyId: Id): Option<KeyRow> {
    if keyId !in db.keys then None
    else
      var row := db.keys[keyId];
      if row.organizationId == org && row.metadata.projectId == project
         && readable(project, row.metadata.createdByUserId)
      then Some(row) else None
  }

  /** The key is there for this organization and project, and its metadata validates. */
  predicate Held(readable: (string, string) -> bool, db: Db, org: string, project: string, id: Id) {
    id in db.keys && db.keys[id].organizationId == org && db.keys[id].metadata.projectId == project
    && readable(db.keys[id].metadata.projectId, db.keys[id].metadata.createdByUserId)
  }

  // ---- The three transactions ------------------------------------------------------

  function CreateTx(db: Db, org: string, project: string, user: string, expiresAt: int, newId: Id, fault: nat): KeyAttempt<Id> {
    if fault == 0 || newId in db.keys then Attempt(db, None, Err(Failure))
    else
      var inserted := Insert(db, newId, NewRow(org, project, user, expiresAt, None));
      if fault == 1 then Attempt(inserted, Some(KeyCreated), Err(Failure))
      else
        var logged := Log(inserted, AuditRow(KeyCreated, org, newId));
        Attempt(logged, Some(KeyCreated), if fault == 2 then Err(Failure) else Ok(newId))
  }

  datatype RotateOutcome = Rotated(newId: Id) | NotFound | AlreadyRevoked | AlreadyRotated | Expired

  /** The decision rotate takes on the locked row, before it writes. */
  function RotateDecision(row: Option<KeyRow>, newId: Id, now: int): RotateOutcome {
    match row
    case None => NotFound
    case Some(row) =>
      if !row.enabled || row.metadata.revokedAt.Some? then AlreadyRevoked
      else if row.metadata.rotatedToKeyId.Some? then AlreadyRotated
      else if row.expiresAt.Some? && row.expiresAt.value <= now then Expired
      else Rotated(newId)
  }

  datatype Rotation = Rotation(org: string, project: string, keyId: Id, user: string, expiresAt: int, newId: Id, now: int)

  /** What a rotation has written when it reaches its audit row. */
  function Relinked(db: Db, p: Rotation): Db
    requires p.keyId in db.keys
  {
    var inserted := Insert(db, p.newId, NewRow(p.org, p.project, p.user, p.expiresAt, Some(p.keyId)));
    Insert(inserted, p.keyId, Retired(db.keys[p.keyId], p.newId, p.now))
  }

  function RotateTx(readable: (string, string) -> bool, db: Db, p: Rotation, fault: nat): KeyAttempt<RotateOutcome> {
    if fault == 0 then Attempt(db, None, Err(Failure))
    else
      var decision := RotateDecision(Find(readable, db, p.org, p.project, p.keyId), p.newId, p.now);
      if !decision.Rotated? then Attempt(db, None, Ok(decision))
      else if fault == 1 || p.newId in db.keys then Attempt(db, None, Err(Failure))
      else if fault == 2 then
        Attempt(Insert(db, p.newId, NewRow(p.org, p.project, p.user, p.expiresAt, Some(p.keyId))), None, Err(Failure))
      else if fault == 3 then Attempt(Relinked(db, p), Some(KeyRotated), Err(Failure))
      else
        Attempt(Log(Relinked(db, p), AuditRow(KeyRotated, p.org, p.newId)), Some(KeyRotated),
                if fault == 4 then Err(Failure) else Ok(decision))
  }

  /** What a rotation answers, from the stored row. It fails if its first or a later
      statement does; otherwise each outcome has its exact condition. */
  predicate Answers(readable: (string, string) -> bool, db: Db, p: Rotation, fault: nat, r: Result<RotateOutcome, Failure>) {
    if fault == 0 then r == Err(Failure)
    else if !Held(readable, db, p.org, p.project, p.keyId) then r == Ok(NotFound)
    else
      var row := db.keys[p.keyId];
      var live := row.enabled && row.metadata.revokedAt == None;
      var linked, expired := row.metadata.rotatedToKeyId != None, row.expiresAt.Some? && row.expiresAt.value <= p.now;
      && (!live ==> r == Ok(AlreadyRevoked))
      && (live && linked ==> r == Ok(AlreadyRotated))
      && (live && !linked && expired ==> r == Ok(Expired))
      && (live && !linked && !expired ==>
            r == if fault > 4 && p.newId !in db.keys then Ok(Rotated(p.newId)) else Err(Failure))
  }

  lemma RotationAnswers(readable: (string, string) -> bool, db: Db, p: Rotation, fault: nat)
    ensures Answers(readable, db, p, fault, RotateTx(readable, db, p, fault).result)
  {
  }

  /** The update of setEnabledAndMetadataForProject: it writes the metadata it was given. */
  function WriteTx(db: Db, org: string, keyId: Id, enabled: bool, metadata: Metadata, fault: nat): KeyAttempt<bool> {
    if fault == 0 then Attempt(db, None, Err(Failure))
    else
      var updated :=
        if keyId in db.keys && db.keys[keyId].organizationId == org
        then Insert(db, keyId, db.keys[keyId].(enabled := enabled, metadata := metadata))
        else db;
      if fault == 1 then Attempt(updated, Some(KeyRevoked), Err(Failure))
      else
        Attempt(Log(updated, AuditRow(KeyRevoked, org, keyId)), Some(KeyRevoked),
                if fault == 2 then Err(Failure) else Ok(true))
  }

  datatype RevokeRead = MayRevoke(metadata: Metadata) | RevokeNotFound | RevokeAlreadyRevoked

  /** The read half of revokeKey: the metadata it is going to write. */
  function ReadForRevoke(row: Option<KeyRow>, now: int): RevokeRead {
    match row
    case None => RevokeNotFound
    case Some(row) =>
      if !row.enabled then RevokeAlreadyRevoked
      else MayRevoke(row.metadata.(revokedAt := Some(now)))
  }

  /** What revokeKey answers, from the stored row, and the metadata it will write. */
  lemma RevocationAnswers(readable: (string, string) -> bool, db: Db, org: string, project: string, id: Id, now: int)
    ensures var r := ReadForRevoke(Find(readable, db, org, project, id), now);
            if !Held(readable, db, org, project, id) then r == RevokeNotFound
            else if !db.keys[id].enabled then r == RevokeAlreadyRevoked
            else
              var m := db.keys[id].metadata;
              r == MayRevoke(Metadata(project, m.createdByUserId, Some(now), m.rotatedFromKeyId, m.rotatedToKeyId))
  {
  }

  // ---- The repository object -----------------------------------------------------

  class Repository {
    const store: Store<Db, AuditAction>
    const readable: (string, string) -> bool

    constructor (readable: (string, string) -> bool)
      ensures fresh(store) && store.db == Db(map[], []) && store.counters == multiset{} && this.readable == readable
    {
      store := new Store(Db(map[], []));
      this.readable := readable;
    }

    /** The key and its audit row appear together, and the success is counted; or
        nothing changes, and a failure is counted if the audit row was reached. */
    method CreateApiKeyForProject(org: string, project: string, user: string, expiresAt: int, newId: Id, fault: nat)
      returns (r: Result<Id, Failure>)
      modifies store
      ensures r.Ok? <==> fault > 2 && newId !in old(store.db).keys
      ensures r.Ok? ==>
        && r.value == newId
        && store.db.keys == old(store.db).keys[newId :=
             KeyRow(org, true, Some(expiresAt), Metadata(project, user, None, None, None))]
        && store.db.audits == old(store.db).audits + [AuditRow(KeyCreated, org, newId)]
        && store.counters == old(store.counters) + multiset{(KeyCreated, true)}
      ensures r.Err? ==>
        && store.db == old(store.db)
        && store.counters == old(store.counters) +
             if fault == 0 || newId in old(store.db).keys then multiset{} else multiset{(KeyCreated, false)}
      ensures var a := CreateTx(old(store.db), org, project, user, expiresAt, newId, fault);
              r == a.result && (store.db, store.counters) == Audited(old(store.db), old(store.counters), a)
    {
      var tx, audited := store.db, None;
      var result: Result<Id, Failure> := Err(Failure);
      if fault != 0 && newId !in tx.keys {
        tx := tx.(keys := tx.keys[newId := KeyRow(org, true, Some(expiresAt), Metadata(project, user, None, None, None))]);
        audited := Some(KeyCreated);
        if fault != 1 {
          tx := tx.(audits := tx.audits + [AuditRow(KeyCreated, org, newId)]);
          if fault != 2 {
            result := Ok(newId);
          }
        }
      }
      r := store.RunAuditedTransaction(Attempt(tx, audited, result));
    }

    /** A rotation that goes through inserts the successor, retires the old key and
        links the two, with one audit row; a refusal and a failure change nothing,
        and a failure is counted if the audit row was reached. */
    method RotateApiKeyForProject(p: Rotation, fault: nat) returns (r: Result<RotateOutcome, Failure>)
      modifies store
      ensures Answers(readable, old(store.db), p, fault, r)
      ensures r.Ok? && r.value.Rotated? ==>
        && p.keyId in old(store.db).keys && p.newId !in old(store.db).keys && p.newId != p.keyId
        && store.db.keys.Keys == old(store.db).keys.Keys + {p.newId}
        && (forall id :: id in old(store.db).keys && id != p.keyId ==> store.db.keys[id] == old(store.db).keys[id])
        && store.db.keys[p.newId] == KeyRow(p.org, true, Some(p.expiresAt), Metadata(p.project, p.user, None, Some(p.keyId), None))
        && var was := old(store.db).keys[p.keyId];
        && store.db.keys[p.keyId] == KeyRow(was.organizationId, false, was.expiresAt,
             Metadata(was.metadata.projectId, was.metadata.createdByUserId, Some(p.now), was.metadata.rotatedFromKeyId, Some(p.newId)))
        && store.db.audits == old(store.db).audits + [AuditRow(KeyRotated, p.org, p.newId)]
        && store.counters == old(store.counters) + multiset{(KeyRotated, true)}
      ensures r.Err? || !r.value.Rotated? ==> store.db == old(store.db)
      ensures r.Ok? && !r.value.Rotated? ==> store.counters == old(store.counters)
      ensures r.Err? ==>
        store.counters == old(store.counters) +
          if fault <= 2 || p.newId in old(store.db).keys then multiset{} else multiset{(KeyRotated, false)}
      ensures var a := RotateTx(readable, old(store.db), p, fault);
              r == a.result && (store.db, store.counters) == Audited(old(store.db), old(store.counters), a)
    {
      var tx, audited := store.db, None;
      var result: Result<RotateOutcome, Failure> := Err(Failure);
      if fault != 0 {
        var existing := Find(readable, tx, p.org, p.project, p.keyId);
        var decision := RotateDecision(existing, p.newId, p.now);
        if !decision.Rotated? {
          result := Ok(decision);
        } else if fault != 1 && p.newId !in tx.keys {
          tx := tx.(keys := tx.keys[p.newId := NewRow(p.org, p.project, p.user, p.expiresAt, Some(p.keyId))]);
          if fault != 2 {
            tx := tx.(keys := tx.keys[p.keyId := Retired(existing.value, p.newId, p.now)]);
            audited := Some(KeyRotated);
            if fault != 3 {
              tx := tx.(audits := tx.audits + [AuditRow(KeyRotated, p.org, p.newId)]);
              if fault != 4 {
                result := Ok(decision);
              }
            }
          }
        }
      }
      r := store.RunAuditedTransaction(Attempt(tx, audited, result));
    }

    /** The given metadata is written over the current one together with an audit
        row; an unfound key and a failure change nothing. */
    method SetEnabledAndMetadataForProject(org: string, project: string, keyId: Id, enabled: bool, metadata: Metadata, fault: nat)
      returns (r: Result<bool, Failure>)
      modifies store
      ensures r == if !Held(readable, old(store.db), org, project, keyId) then Ok(false)
                   else if fault <= 2 then Err(Failure) else Ok(true)
      ensures r == Ok(true) ==>
        && keyId in old(store.db).keys
        && store.db.keys == old(store.db).keys[keyId := old(store.db).keys[keyId].(enabled := enabled, metadata := metadata)]
        && store.db.audits == old(store.db).audits + [AuditRow(KeyRevoked, org, keyId)]
        && store.counters == old(store.counters) + multiset{(KeyRevoked, true)}
      ensures r != Ok(true) ==> store.db == old(store.db)
      ensures r == Ok(false) ==> store.counters == old(store.counters)
      ensures r.Err? ==>
        store.counters == old(store.counters) + if fault == 0 then multiset{} else multiset{(KeyRevoked, false)}
      ensures Find(readable, old(store.db), org, project, keyId).Some? ==>
        var a := WriteTx(old(store.db), org, keyId, enabled, metadata, fault);
        r == a.result && (store.db, store.counters) == Audited(old(store.db), old(store.counters), a)
    {
      var existing := Find(readable, store.db, org, project, keyId);
      if existing.None? { return Ok(false); }
      var tx, audited := store.db, None;
      var result: Result<bool, Failure> := Err(Failure);
      if fault != 0 {
        if keyId in tx.keys && tx.keys[keyId].organizationId == org {
          tx := tx.(keys := tx.keys[keyId := tx.keys[keyId].(enabled := enabled, metadata := metadata)]);
        }
        audited := Some(KeyRevoked);
        if fault != 1 {
          tx := tx.(audits := tx.audits + [AuditRow(KeyRevoked, org, keyId)]);
          if fault != 2 {
            result := Ok(true);
          }
        }
      }
      r := store.RunAuditedTransaction(Attempt(tx, audited, result));
    }
  }

  // ---- Runs --------------------------------------------------------------------

  /** A revocation that has read its key and not yet written it; `found` once
      setEnabledAndMetadataForProject has looked the key up again. */
  datatype Pending = Pending(org: string, project: string, keyId: Id, metadata: Metadata, found: bool)

  /** `born` is history: the keys in order of creation. */
  datatype System = System(db: Db, counters: Counters, pending: map<nat, Pending>, born: map<Id, nat>)

  datatype Action =
    | Create(org: string, project: string, user: string, expiresAt: int, newId: Id, fault: nat)
    | Rotate(p: Rotation, fault: nat)
    | RevokeReads(token: nat, org: string, project: string, keyId: Id, now: int)
    | RevokeRereads(token: nat)
    | RevokeWrites(token: nat, fault: nat)

  function Initial(): System { System(Db(map[], []), multiset{}, map[], map[]) }

  function Applied<T>(s: System, a: KeyAttempt<T>, id: Id): System {
    var (db, counters) := Audited(s.db, s.counters, a);
    var born := if id in db.keys && id !in s.born then s.born[id := |s.born|] else s.born;
    System(db, counters, s.pending, born)
  }

  function Written(s: System, p: Pending, fault: nat): System {
    Applied(s, WriteTx(s.db, p.org, p.keyId, false, p.metadata, fault), p.keyId)
  }

  function Step(readable: (string, string) -> bool, s: System, a: Action): System {
    match a
    case Create(org, project, user, expiresAt, newId, fault) =>
      Applied(s, CreateTx(s.db, org, project, user, expiresAt, newId, fault), newId)
    case Rotate(p, fault) =>
      Applied(s, RotateTx(readable, s.db, p, fault), p.newId)
    case RevokeReads(token, org, project, keyId, now) =>
      var r := ReadForRevoke(Find(readable, s.db, org, project, keyId), now);
      if r.MayRevoke? then s.(pending := s.pending[token := Pending(org, project, keyId, r.metadata, false)]) else s
    case RevokeRereads(token) =>
      if token !in s.pending then s
      else
        var p := s.pending[token];
        s.(pending := if Find(readable, s.db, p.org, p.project, p.keyId).None? then s.pending - {token}
                      else s.pending[token := p.(found := true)])
    case RevokeWrites(token, fault) =>
      if token in s.pending && s.pending[token].found
      then Written(s.(pending := s.pending - {token}), s.pending[token], fault) else s
  }

  function Run(readable: (string, string) -> bool, s: System, actions: seq<Action>): System {
    if actions == [] then s else Step(readable, Run(readable, s, Front(actions)), Last(actions))
  }

  /** The state after the actions, from empty tables. */
  function After(readable: (string, string) -> bool, actions: seq<Action>): System {
    Run(readable, Initial(), actions)
  }
}
