/**
 The connection metadata stores and the credential store as objects that
 change their tables in place. `o.ok` decides whether a statement raises;
 a raised statement leaves the table as it was.
 */
module Stores {
  import opened Options
  import opened Roots
  import opened Tables
  import opened Lifecycle

  class DatabaseConnectionStore {
    var pending: map<Id, Pending>
    var connections: map<Id, Connection>

    constructor ()
      ensures pending == map[] && connections == map[]
    {
      pending, connections := map[], map[];
    }

    /** The two tables as part of a database without secrets. */
    function Rows(): Db
      reads this
    {
      Db(pending, connections, map[])
    }

    method PutPending(record: Pending, o: Oracle) returns (raised: bool)
      modifies this`pending
      ensures raised <==> !o.ok || Tables.PutPending(old(Rows()), record).None?
      ensures Rows() == if raised then old(Rows()) else Tables.PutPending(old(Rows()), record).value
    {
      if !o.ok {
        return true;
      }
      if record.flowId in pending && pending[record.flowId].tenant != record.tenant {
        return true;
      }
      pending := pending[record.flowId := record];
      raised := false;
    }

    /** The record is built from the row, and that may raise. */
    method GetPending(flowId: Id, tenant: Tenant) returns (row: Read<Pending>)
      ensures row == Tables.ReadPending(Rows(), flowId, tenant)
    {
      if flowId in pending && pending[flowId].tenant == tenant {
        return if RootFits(pending[flowId].root) then Found(pending[flowId]) else Unreadable;
      }
      row := Missing;
    }

    method DeletePending(flowId: Id, tenant: Tenant, o: Oracle) returns (raised: bool)
      modifies this`pending
      ensures raised == !o.ok
      ensures Rows() == if raised then old(Rows()) else Tables.DeletePending(old(Rows()), flowId, tenant)
    {
      if !o.ok {
        return true;
      }
      if flowId in pending && pending[flowId].tenant == tenant {
        pending := pending - {flowId};
      }
      raised := false;
    }

    /** `DELETE ... WHERE flow_id IN ids`. */
    method DeletePendingIn(ids: set<Id>)
      modifies this`pending
      ensures pending == old(pending) - ids
    {
      pending := pending - ids;
    }

    method PutConnection(record: Connection, o: Oracle) returns (raised: bool)
      modifies this`connections
      ensures raised <==> !o.ok || Tables.PutConnection(old(Rows()), record).None?
      ensures Rows() == if raised then old(Rows()) else Tables.PutConnection(old(Rows()), record).value
    {
      if !o.ok {
        return true;
      }
      if record.id in connections && connections[record.id].tenant != record.tenant {
        return true;
      }
      connections := connections[record.id := record];
      raised := false;
    }

    method GetConnection(id: Id, tenant: Tenant) returns (row: Read<Connection>)
      ensures row == Tables.ReadConnection(Rows(), id, tenant)
    {
      if id in connections && connections[id].tenant == tenant {
        return if RootFits(connections[id].root) then Found(connections[id]) else Unreadable;
      }
      row := Missing;
    }

    /** `None` when building one of the records raises. */
    method ListConnections(tenant: Tenant) returns (rows: Option<set<Connection>>)
      ensures rows == if Listable(Rows(), tenant) then Some(Tables.ListConnections(Rows(), tenant)) else None
    {
      if exists id :: id in connections && connections[id].tenant == tenant && !RootFits(connections[id].root) {
        return None;
      }
      rows := Some(set id | id in connections && connections[id].tenant == tenant :: connections[id]);
    }

    method DeleteConnection(id: Id, tenant: Tenant, o: Oracle) returns (raised: bool)
      modifies this`connections
      ensures raised == !o.ok
      ensures Rows() == if raised then old(Rows()) else Tables.DeleteConnection(old(Rows()), id, tenant)
    {
      if !o.ok {
        return true;
      }
      if id in connections && connections[id].tenant == tenant {
        connections := connections - {id};
      }
      raised := false;
    }
  }

  /** The vault boundary; Vault.dfy shows that the encrypted table behaves like this map. */
  class CredentialStore {
    var secrets: map<Ref, Secret>

    constructor ()
      ensures secrets == map[]
    {
      secrets := map[];
    }

    /** The table as part of a database without other rows. */
    function Rows(): Db
      reads this
    {
      Db(map[], map[], secrets)
    }

    /** The reference is `o.ref`; the insert raises when it is taken. */
    method Put(tenant: Tenant, value: string, o: Oracle) returns (ref: Option<Ref>)
      modifies this
      ensures ref == if o.ok && Tables.PutSecret(old(Rows()), o.ref, Secret(tenant, value, o.stamp)).Some?
                     then Some(o.ref) else None
      ensures Rows() == if ref.None? then old(Rows())
                        else Tables.PutSecret(old(Rows()), o.ref, Secret(tenant, value, o.stamp)).value
    {
      if !o.ok || o.ref in secrets {
        return None;
      }
      secrets := secrets[o.ref := Secret(tenant, value, o.stamp)];
      ref := Some(o.ref);
    }

    method Get(tenant: Tenant, ref: Ref) returns (secret: Option<Secret>)
      ensures secret == Tables.GetSecret(Rows(), ref, tenant)
    {
      if ref in secrets && secrets[ref].tenant == tenant {
        return Some(secrets[ref]);
      }
      secret := None;
    }

    method Delete(tenant: Tenant, ref: Ref, o: Oracle) returns (raised: bool)
      modifies this
      ensures raised == !o.ok
      ensures Rows() == if raised then old(Rows()) else Tables.DeleteSecret(old(Rows()), ref, tenant)
    {
      if !o.ok {
        return true;
      }
      if ref in secrets && secrets[ref].tenant == tenant {
        secrets := secrets - {ref};
      }
      raised := false;
    }

    /** `DELETE ... WHERE (tenant_id, secret_ref) IN keys`. */
    method DeleteIn(keys: set<(Tenant, Ref)>)
      modifies this
      ensures Rows() == Tables.Without(old(Rows()), {}, keys)
    {
      secrets := map ref | ref in secrets && (secrets[ref].tenant, ref) !in keys :: secrets[ref];
    }
  }
}
