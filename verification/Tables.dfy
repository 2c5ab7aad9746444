/**
 The three hosted tables and the statements the stores run on them. Every
 table is keyed by its primary key alone; the tenant is a column that each
 read and delete compares, as in persistence.py.
 */
module Tables {
  import opened Options
  import opened Roots

  type Tenant = string
  type Ref = string
  type Id = string
  type Time = int

  datatype Challenge = Challenge(baseUrl: string, loginUrl: string, pollEndpoint: string)

  datatype Pending = Pending(
    flowId: Id, tenant: Tenant, root: string, challenge: Challenge, pollRef: Ref, expires: Time)

  datatype Connection = Connection(
    id: Id, tenant: Tenant, baseUrl: string, login: string, root: string, ref: Ref, created: Time)

  datatype Secret = Secret(tenant: Tenant, value: string, created: Time)

  datatype Db = Db(
    pending: map<Id, Pending>, connections: map<Id, Connection>, secrets: map<Ref, Secret>)

  const EMPTY := Db(map[], map[], map[])

  /** What reading a row gives: the record built from it refuses some rows. */
  datatype Read<+T> = Missing | Unreadable | Found(row: T)

  // ---- pending_nextcloud_logins ----

  function GetPending(db: Db, flowId: Id, tenant: Tenant): Option<Pending> {
    if flowId in db.pending && db.pending[flowId].tenant == tenant then Some(db.pending[flowId]) else None
  }

  function ReadPending(db: Db, flowId: Id, tenant: Tenant): Read<Pending> {
    match GetPending(db, flowId, tenant)
    case None => Missing
    case Some(row) => if RootFits(row.root) then Found(row) else Unreadable
  }

  /** `None` when another tenant already owns the flow id. */
  function PutPending(db: Db, row: Pending): Option<Db> {
    if row.flowId in db.pending && db.pending[row.flowId].tenant != row.tenant then None
    else Some(db.(pending := db.pending[row.flowId := row]))
  }

  function DeletePending(db: Db, flowId: Id, tenant: Tenant): Db {
    if GetPending(db, flowId, tenant).Some? then db.(pending := db.pending - {flowId}) else db
  }

  // ---- nextcloud_connections ----

  function GetConnection(db: Db, id: Id, tenant: Tenant): Option<Connection> {
    if id in db.connections && db.connections[id].tenant == tenant then Some(db.connections[id]) else None
  }

  function ReadConnection(db: Db, id: Id, tenant: Tenant): Read<Connection> {
    match GetConnection(db, id, tenant)
    case None => Missing
    case Some(row) => if RootFits(row.root) then Found(row) else Unreadable
  }

  /** `None` when another tenant already owns the connection id. */
  function PutConnection(db: Db, row: Connection): Option<Db> {
    if row.id in db.connections && db.connections[row.id].tenant != row.tenant then None
    else Some(db.(connections := db.connections[row.id := row]))
  }

  function DeleteConnection(db: Db, id: Id, tenant: Tenant): Db {
    if GetConnection(db, id, tenant).Some? then db.(connections := db.connections - {id}) else db
  }

  /** The listing, as the set of rows: the order of equal timestamps is not modelled. */
  function ListConnections(db: Db, tenant: Tenant): set<Connection> {
    set id | id in db.connections && db.connections[id].tenant == tenant :: db.connections[id]
  }

  /** One row that cannot be read makes the listing raise. */
  predicate Listable(db: Db, tenant: Tenant) {
    forall id :: id in db.connections && db.connections[id].tenant == tenant ==> RootFits(db.connections[id].root)
  }

  // ---- bridge_secrets ----

  function GetSecret(db: Db, ref: Ref, tenant: Tenant): Option<Secret> {
    if ref in db.secrets && db.secrets[ref].tenant == tenant then Some(db.secrets[ref]) else None
  }

  /** `None` when the reference is taken: the insert violates the primary key. */
  function PutSecret(db: Db, ref: Ref, row: Secret): Option<Db> {
    if ref in db.secrets then None else Some(db.(secrets := db.secrets[ref := row]))
  }

  function DeleteSecret(db: Db, ref: Ref, tenant: Tenant): Db {
    if GetSecret(db, ref, tenant).Some? then db.(secrets := db.secrets - {ref}) else db
  }

  // ---- the statements of the maintenance job ----

  /** Rows whose login window ended strictly before `current`. */
  function ExpiredRows(db: Db, current: Time): set<Pending> {
    set f | f in db.pending && db.pending[f].expires < current :: db.pending[f]
  }

  function FlowIds(rows: set<Pending>): set<Id> {
    set row | row in rows :: row.flowId
  }

  function PollKeys(rows: set<Pending>): set<(Tenant, Ref)> {
    set row | row in rows :: (row.tenant, row.pollRef)
  }

  /** The rows that `DELETE ... WHERE (tenant_id, secret_ref) IN keys` hits. */
  function SecretsKeyed(db: Db, keys: set<(Tenant, Ref)>): set<(Tenant, Ref)> {
    set ref | ref in db.secrets && (db.secrets[ref].tenant, ref) in keys :: (db.secrets[ref].tenant, ref)
  }

  predicate Referenced(db: Db, tenant: Tenant, ref: Ref) {
    || (exists f :: f in db.pending && db.pending[f].tenant == tenant && db.pending[f].pollRef == ref)
    || (exists c :: c in db.connections && db.connections[c].tenant == tenant && db.connections[c].ref == ref)
  }

  function OrphanKeys(db: Db, cutoff: Time): set<(Tenant, Ref)> {
    set ref | ref in db.secrets && db.secrets[ref].created < cutoff && !Referenced(db, db.secrets[ref].tenant, ref)
      :: (db.secrets[ref].tenant, ref)
  }

  /** What a transaction sees, and later commits, once it has deleted these rows. */
  function Without(db: Db, flows: set<Id>, gone: set<(Tenant, Ref)>): Db {
    db.(pending := db.pending - flows,
        secrets := map ref | ref in db.secrets && (db.secrets[ref].tenant, ref) !in gone :: db.secrets[ref])
  }
}
