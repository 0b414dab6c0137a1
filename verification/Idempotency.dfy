/** Idempotency records for side-effecting skills: the in-memory store and the database store. */
module Idempotency {
  import opened Wrappers

  /** The digest of a call's identity: equal exactly when all five parts are equal. */
  datatype Key = Key(tenant: string, store: string, taskId: string, skill: string, params: string)

  datatype SkillResult = SkillResult(success: bool, data: string, errorCode: string)

  datatype Record = Running | Succeeded(result: SkillResult) | Failed(errorCode: string)

  type Records = map<Key, Record>

  function Begin(records: Records, key: Key): Records {
    if key in records then records else records[key := Running]
  }

  function Complete(records: Records, key: Key, result: SkillResult): Records {
    records[key := Succeeded(result)]
  }

  function Fail(records: Records, key: Key, errorCode: string): Records {
    records[key := Failed(errorCode)]
  }

  class MemoryIdempotencyStore {
    var records: Records

    constructor ()
      ensures records == map[]
    {
      records := map[];
    }

    method Get(key: Key) returns (record: Option<Record>)
      ensures record.Some? <==> key in records
      ensures record.Some? ==> record.value == records[key]
    {
      record := if key in records then Some(records[key]) else None;
    }

    /** Only the first caller for a key acquires it. */
    method BeginRun(key: Key) returns (acquired: bool)
      modifies this
      ensures acquired <==> key !in old(records)
      ensures records == if acquired then old(records)[key := Running] else old(records)
      ensures records == Begin(old(records), key)
    {
      if key in records {
        return false;
      }
      records := records[key := Running];
      acquired := true;
    }

    method CompleteRun(key: Key, result: SkillResult)
      modifies this
      ensures records == Complete(old(records), key, result)
    {
      records := records[key := Succeeded(result)];
    }

    method FailRun(key: Key, errorCode: string)
      modifies this
      ensures records == Fail(old(records), key, errorCode)
    {
      records := records[key := Failed(errorCode)];
    }
  }

  // ---------- The database store ----------

  /** A row of `skill_execution_idempotency`, with the tenant and store that every statement also filters on. */
  datatype Row = Row(tenant: string, store: string, record: Record)

  type Rows = map<Key, Row>

  function DbGet(rows: Rows, key: Key, tenant: string, store: string): Option<Record> {
    if key in rows && rows[key].tenant == tenant && rows[key].store == store then Some(rows[key].record) else None
  }

  function DbBegin(rows: Rows, key: Key, tenant: string, store: string): Rows {
    if key in rows then rows else rows[key := Row(tenant, store, Running)]
  }

  /** An update writes the row only where key, tenant and store all match; it never inserts. */
  function DbWrite(rows: Rows, key: Key, tenant: string, store: string, record: Record): Rows {
    if key in rows && rows[key].tenant == tenant && rows[key].store == store
    then rows[key := rows[key].(record := record)] else rows
  }

  /** The rows hold the same records as the in-memory store, each under its own tenant and store. */
  ghost predicate Mirrors(rows: Rows, records: Records) {
    && rows.Keys == records.Keys
    && forall k :: k in rows ==> rows[k].record == records[k] && rows[k].tenant == k.tenant && rows[k].store == k.store
  }

  /**
    For a caller that scopes its statements by the tenant and store in the key, and writes only after acquiring, the two
    stores answer alike and stay alike.
   */
  lemma StoresAgree(rows: Rows, records: Records, key: Key, record: Record)
    requires Mirrors(rows, records)
    ensures DbGet(rows, key, key.tenant, key.store) == if key in records then Some(records[key]) else None
    ensures Mirrors(DbBegin(rows, key, key.tenant, key.store), Begin(records, key))
    ensures key in records ==> Mirrors(DbWrite(rows, key, key.tenant, key.store, record), records[key := record])
    ensures key !in records ==> DbWrite(rows, key, key.tenant, key.store, record) == rows
  {
  }

  /** A caller of another tenant or store neither sees nor changes a record, and cannot take its key. */
  lemma ForeignScopeIsShutOut(rows: Rows, records: Records, key: Key, tenant: string, store: string, record: Record)
    requires Mirrors(rows, records) && key in records && (tenant != key.tenant || store != key.store)
    ensures DbGet(rows, key, tenant, store) == None
    ensures DbBegin(rows, key, tenant, store) == rows
    ensures DbWrite(rows, key, tenant, store, record) == rows
  {
  }
}
