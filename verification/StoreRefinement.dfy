/**
 The SQL connection store against the in-memory one. The tables are keyed by
 id with a tenant column, the dictionaries by tenant and id, and a row of a
 table is built into a record again when it is read; the two answer alike on a
 run exactly when no put presents an id another tenant holds and no read meets
 a row whose root the record refuses.
 */
module StoreRefinement {
  import opened Options
  import opened Tables

  type Key = (Tenant, Id)

  datatype Memory = Memory(pending: map<Key, Pending>, connections: map<Key, Connection>)

  class InMemoryConnectionStore {
    var pending: map<Key, Pending>
    var connections: map<Key, Connection>

    constructor ()
      ensures Contents() == Memory(map[], map[])
    {
      pending, connections := map[], map[];
    }

    function Contents(): Memory
      reads this
    {
      Memory(pending, connections)
    }

    method PutPending(record: Pending)
      modifies this
      ensures (Contents(), Stored) == MemoryStep(old(Contents()), Op.PutPending(record))
    {
      pending := pending[(record.tenant, record.flowId) := record];
    }

    method GetPending(flowId: Id, tenant: Tenant) returns (row: Option<Pending>)
      ensures (Contents(), Flow(row)) == MemoryStep(Contents(), Op.GetPending(flowId, tenant))
    {
      row := if (tenant, flowId) in pending then Some(pending[(tenant, flowId)]) else None;
    }

    method DeletePending(flowId: Id, tenant: Tenant)
      modifies this
      ensures (Contents(), Stored) == MemoryStep(old(Contents()), Op.DeletePending(flowId, tenant))
    {
      pending := pending - {(tenant, flowId)};
    }

    method PutConnection(record: Connection)
      modifies this
      ensures (Contents(), Stored) == MemoryStep(old(Contents()), Op.PutConnection(record))
    {
      connections := connections[(record.tenant, record.id) := record];
    }

    method GetConnection(id: Id, tenant: Tenant) returns (row: Option<Connection>)
      ensures (Contents(), Row(row)) == MemoryStep(Contents(), Op.GetConnection(id, tenant))
    {
      row := if (tenant, id) in connections then Some(connections[(tenant, id)]) else None;
    }

    method ListConnections(tenant: Tenant) returns (rows: set<Connection>)
      ensures (Contents(), Rows(rows)) == MemoryStep(Contents(), Op.ListConnections(tenant))
    {
      rows := set k | k in connections && k.0 == tenant :: connections[k];
    }

    method DeleteConnection(id: Id, tenant: Tenant)
      modifies this
      ensures (Contents(), Stored) == MemoryStep(old(Contents()), Op.DeleteConnection(id, tenant))
    {
      connections := connections - {(tenant, id)};
    }
  }

  datatype Op =
    | PutPending(flow: Pending)
    | GetPending(flowId: Id, tenant: Tenant)
    | DeletePending(flowId: Id, tenant: Tenant)
    | PutConnection(connection: Connection)
    | GetConnection(id: Id, tenant: Tenant)
    | ListConnections(tenant: Tenant)
    | DeleteConnection(id: Id, tenant: Tenant)

  datatype Answer = Stored | Collision | Raised | Flow(flow: Option<Pending>) | Row(row: Option<Connection>) | Rows(rows: set<Connection>)

  function MemoryStep(m: Memory, op: Op): (Memory, Answer) {
    match op
    case PutPending(row) => (m.(pending := m.pending[(row.tenant, row.flowId) := row]), Stored)
    case GetPending(flowId, tenant) =>
      (m, Flow(if (tenant, flowId) in m.pending then Some(m.pending[(tenant, flowId)]) else None))
    case DeletePending(flowId, tenant) => (m.(pending := m.pending - {(tenant, flowId)}), Stored)
    case PutConnection(row) => (m.(connections := m.connections[(row.tenant, row.id) := row]), Stored)
    case GetConnection(id, tenant) =>
      (m, Row(if (tenant, id) in m.connections then Some(m.connections[(tenant, id)]) else None))
    case ListConnections(tenant) => (m, Rows(set k | k in m.connections && k.0 == tenant :: m.connections[k]))
    case DeleteConnection(id, tenant) => (m.(connections := m.connections - {(tenant, id)}), Stored)
  }

  function DatabaseStep(db: Db, op: Op): (Db, Answer) {
    match op
    case PutPending(row) =>
      (match Tables.PutPending(db, row) case Some(db') => (db', Stored) case None => (db, Collision))
    case GetPending(flowId, tenant) =>
      (db, match ReadPending(db, flowId, tenant)
           case Missing => Flow(None)
           case Unreadable => Raised
           case Found(row) => Flow(Some(row)))
    case DeletePending(flowId, tenant) => (Tables.DeletePending(db, flowId, tenant), Stored)
    case PutConnection(row) =>
      (match Tables.PutConnection(db, row) case Some(db') => (db', Stored) case None => (db, Collision))
    case GetConnection(id, tenant) =>
      (db, match ReadConnection(db, id, tenant)
           case Missing => Row(None)
           case Unreadable => Raised
           case Found(row) => Row(Some(row)))
    case ListConnections(tenant) =>
      (db, if Listable(db, tenant) then Rows(Tables.ListConnections(db, tenant)) else Raised)
    case DeleteConnection(id, tenant) => (Tables.DeleteConnection(db, id, tenant), Stored)
  }

  /** The dictionaries hold the rows of the tables under (tenant, id). */
  ghost predicate Same(db: Db, m: Memory) {
    && (forall f :: f in db.pending ==> db.pending[f].flowId == f)
    && (forall c :: c in db.connections ==> db.connections[c].id == c)
    && (forall k :: k in m.pending <==> k.1 in db.pending && db.pending[k.1].tenant == k.0)
    && (forall k :: k in m.pending ==> m.pending[k] == db.pending[k.1])
    && (forall k :: k in m.connections <==> k.1 in db.connections && db.connections[k.1].tenant == k.0)
    && (forall k :: k in m.connections ==> m.connections[k] == db.connections[k.1])
  }

  /** The operation puts an id that another tenant holds. */
  predicate Trespasses(db: Db, op: Op) {
    match op
    case PutPending(row) => row.flowId in db.pending && db.pending[row.flowId].tenant != row.tenant
    case PutConnection(row) => row.id in db.connections && db.connections[row.id].tenant != row.tenant
    case _ => false
  }

  /** The operation reads a row whose root does not fit. */
  predicate Stumbles(db: Db, op: Op) {
    match op
    case GetPending(flowId, tenant) => ReadPending(db, flowId, tenant).Unreadable?
    case GetConnection(id, tenant) => ReadConnection(db, id, tenant).Unreadable?
    case ListConnections(tenant) => !Listable(db, tenant)
    case _ => false
  }

  predicate Parts(db: Db, op: Op) {
    Trespasses(db, op) || Stumbles(db, op)
  }

  lemma ListsAgree(db: Db, m: Memory, tenant: Tenant)
    requires Same(db, m)
    ensures MemoryStep(m, ListConnections(tenant)).1 == Rows(Tables.ListConnections(db, tenant))
  {
    var listed := MemoryStep(m, ListConnections(tenant)).1.rows;
    forall c | c in Tables.ListConnections(db, tenant) ensures c in listed {
      assert (tenant, c.id) in m.connections;
    }
    forall c | c in listed ensures c in Tables.ListConnections(db, tenant) {
      var k :| k in m.connections && k.0 == tenant && m.connections[k] == c;
      assert k.1 in db.connections;
    }
  }

  lemma PendingPutsAgree(db: Db, m: Memory, op: Op)
    requires Same(db, m) && op.PutPending?
    ensures !Trespasses(db, op) ==> Same(DatabaseStep(db, op).0, MemoryStep(m, op).0)
    ensures DatabaseStep(db, op).1 == MemoryStep(m, op).1 <==> !Parts(db, op)
  {
  }

  lemma PendingStepsAgree(db: Db, m: Memory, op: Op)
    requires Same(db, m) && (op.GetPending? || op.DeletePending?)
    ensures !Trespasses(db, op) ==> Same(DatabaseStep(db, op).0, MemoryStep(m, op).0)
    ensures DatabaseStep(db, op).1 == MemoryStep(m, op).1 <==> !Parts(db, op)
  {
  }

  lemma ConnectionPutsAgree(db: Db, m: Memory, op: Op)
    requires Same(db, m) && op.PutConnection?
    ensures !Trespasses(db, op) ==> Same(DatabaseStep(db, op).0, MemoryStep(m, op).0)
    ensures DatabaseStep(db, op).1 == MemoryStep(m, op).1 <==> !Parts(db, op)
  {
  }

  lemma ConnectionStepsAgree(db: Db, m: Memory, op: Op)
    requires Same(db, m) && (op.GetConnection? || op.DeleteConnection?)
    ensures !Trespasses(db, op) ==> Same(DatabaseStep(db, op).0, MemoryStep(m, op).0)
    ensures DatabaseStep(db, op).1 == MemoryStep(m, op).1 <==> !Parts(db, op)
  {
  }

  /** One operation: same answer exactly if it does neither, and then the stores go on holding the same. */
  lemma StepsAgree(db: Db, m: Memory, op: Op)
    requires Same(db, m)
    ensures !Trespasses(db, op) ==> Same(DatabaseStep(db, op).0, MemoryStep(m, op).0)
    ensures DatabaseStep(db, op).1 == MemoryStep(m, op).1 <==> !Parts(db, op)
  {
    if op.ListConnections? {
      ListsAgree(db, m, op.tenant);
    } else if op.PutPending? {
      PendingPutsAgree(db, m, op);
    } else if op.GetPending? || op.DeletePending? {
      PendingStepsAgree(db, m, op);
    } else if op.PutConnection? {
      ConnectionPutsAgree(db, m, op);
    } else {
      ConnectionStepsAgree(db, m, op);
    }
  }

  // ---- whole runs ----

  function DatabaseRun(db: Db, ops: seq<Op>): (Db, seq<Answer>) {
    if ops == [] then (db, []) else
    var (db', answers) := DatabaseRun(db, ops[..|ops| - 1]);
    var (db'', answer) := DatabaseStep(db', ops[|ops| - 1]);
    (db'', answers + [answer])
  }

  function MemoryRun(m: Memory, ops: seq<Op>): (Memory, seq<Answer>) {
    if ops == [] then (m, []) else
    var (m', answers) := MemoryRun(m, ops[..|ops| - 1]);
    var (m'', answer) := MemoryStep(m', ops[|ops| - 1]);
    (m'', answers + [answer])
  }

  /** No put trespasses and no read stumbles. */
  predicate NeverParts(db: Db, ops: seq<Op>) {
    ops == [] || (NeverParts(db, ops[..|ops| - 1]) && !Parts(DatabaseRun(db, ops[..|ops| - 1]).0, ops[|ops| - 1]))
  }

  lemma {:induction false} RunsAgree(db: Db, m: Memory, ops: seq<Op>)
    requires Same(db, m)
    ensures NeverParts(db, ops) ==> Same(DatabaseRun(db, ops).0, MemoryRun(m, ops).0)
    ensures DatabaseRun(db, ops).1 == MemoryRun(m, ops).1 <==> NeverParts(db, ops)
  {
    if ops != [] {
      var n := |ops| - 1;
      RunsAgree(db, m, ops[..n]);
      var (db', a) := DatabaseRun(db, ops[..n]);
      var (m', b) := MemoryRun(m, ops[..n]);
      AnswersLength(db, m, ops[..n]);
      var x, y := DatabaseStep(db', ops[n]).1, MemoryStep(m', ops[n]).1;
      assert a + [x] == b + [y] <==> a == b && x == y by {
        assert (a + [x])[..|a|] == a && (b + [y])[..|b|] == b;
        assert (a + [x])[|a|] == x && (b + [y])[|b|] == y;
      }
      if NeverParts(db, ops[..n]) {
        StepsAgree(db', m', ops[n]);
      }
    }
  }

  lemma {:induction false} AnswersLength(db: Db, m: Memory, ops: seq<Op>)
    ensures |DatabaseRun(db, ops).1| == |ops| == |MemoryRun(m, ops).1|
  {
    if ops != [] {
      AnswersLength(db, m, ops[..|ops| - 1]);
    }
  }

  /** From empty stores: same answers throughout if and only if no put trespasses and no read stumbles. */
  lemma DatabaseRefinesMemory(ops: seq<Op>)
    ensures DatabaseRun(EMPTY, ops).1 == MemoryRun(Memory(map[], map[]), ops).1 <==> NeverParts(EMPTY, ops)
  {
    RunsAgree(EMPTY, Memory(map[], map[]), ops);
  }
}
