/** runAuditedTransaction (src/repositories/postgres/audit-repository.ts): a
    change and its audit row commit together or not at all, and the audit metric
    counts what became of it. `Db` is whatever the transaction can change. */
module AuditedTransactions {
  import opened Basics

  datatype Failure = Failure

  /** What a transaction callback did: the tables as it left them, the action it
      declared audited, and whether it and the commit went through. */
  datatype Attempt<Db, Action, T> = Attempt(db: Db, audited: Option<Action>, result: Result<T, Failure>)

  /** Commit or roll back, then count the audited action, if one was declared:
      (action, true) is incrementAuditEvent(action, "success"). */
  function Audited<Db, Action(==), T>(db: Db, counters: multiset<(Action, bool)>, a: Attempt<Db, Action, T>)
    : (Db, multiset<(Action, bool)>)
  {
    (if a.result.Ok? then a.db else db,
     if a.audited.Some? then counters + multiset{(a.audited.value, a.result.Ok?)} else counters)
  }

  class Store<Db, Action(==)> {
    var db: Db
    var counters: multiset<(Action, bool)>

    constructor (db: Db)
      ensures this.db == db && counters == multiset{}
    {
      this.db := db;
      counters := multiset{};
    }

    method RunAuditedTransaction<T>(a: Attempt<Db, Action, T>) returns (r: Result<T, Failure>)
      modifies this
      ensures r == a.result && (db, counters) == Audited(old(db), old(counters), a)
    {
      if a.result.Err? {
        if a.audited.Some? {
          counters := counters + multiset{(a.audited.value, false)};
        }
        return a.result;
      }
      db := a.db;
      if a.audited.Some? {
        counters := counters + multiset{(a.audited.value, true)};
      }
      r := a.result;
    }
  }
}
