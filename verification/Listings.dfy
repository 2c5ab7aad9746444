/** What the calls do to the listing of a tenant's connections. */
module Listings {
  import opened Options
  import opened Tables
  import opened Lifecycle
  import opened Compensation
  import opened Answers
  import FlowRows
  import Undo
  import Managing

  /** One row more under a new id. */
  lemma RowAdded(db: Db, db': Db, tenant: Tenant, c: Connection, summaries: set<Summary>)
    requires Lists(db, tenant, summaries) && Undo.KeyedConnections(db)
    requires c.tenant == tenant && c.id !in db.connections && db'.connections == db.connections[c.id := c]
    ensures Shown(c) !in summaries && Lists(db', tenant, summaries + {Shown(c)})
  {
    var more := summaries + {Shown(c)};
    forall id | ConnectionOf(db', tenant, id) ensures Shown(db'.connections[id]) in more {
      assert id != c.id ==> ConnectionOf(db, tenant, id);
    }
    forall s | s in more ensures exists id :: ConnectionOf(db', tenant, id) && s == Shown(db'.connections[id]) {
      if s in summaries {
        var id :| ConnectionOf(db, tenant, id) && s == Shown(db.connections[id]);
        assert ConnectionOf(db', tenant, id) && db'.connections[id] == db.connections[id];
      } else {
        assert ConnectionOf(db', tenant, c.id);
      }
    }
  }

  /** One row less. */
  lemma RowRemoved(db: Db, db': Db, tenant: Tenant, id: Id, summaries: set<Summary>)
    requires Lists(db, tenant, summaries) && Undo.KeyedConnections(db)
    requires ConnectionOf(db, tenant, id) && db'.connections == db.connections - {id}
    ensures Shown(db.connections[id]) in summaries
    ensures Lists(db', tenant, summaries - {Shown(db.connections[id])})
  {
    var fewer := summaries - {Shown(db.connections[id])};
    forall other | ConnectionOf(db', tenant, other) ensures Shown(db'.connections[other]) in fewer {
      assert ConnectionOf(db, tenant, other) && Shown(db.connections[other]).id == other;
    }
    forall s | s in fewer ensures exists other :: ConnectionOf(db', tenant, other) && s == Shown(db'.connections[other]) {
      var other :| ConnectionOf(db, tenant, other) && s == Shown(db.connections[other]);
      assert ConnectionOf(db', tenant, other) && db'.connections[other] == db.connections[other];
    }
  }

  /** A poll that answers with a connection adds exactly that answer to the listing. */
  lemma PollExtendsListing(db: Db, tenant: Tenant, flowId: Id, ins: seq<Input>, summaries: set<Summary>)
    requires NewIds(db, ins) && Undo.KeyedConnections(db) && Lists(db, tenant, summaries)
    requires var t := Alone(db, Poll(PollStart(tenant, flowId)), ins).1; t.Done? && t.outcome.Connected?
    ensures var (db', t) := Alone(db, Poll(PollStart(tenant, flowId)), ins);
            t.outcome.summary !in summaries && Lists(db', tenant, summaries + {t.outcome.summary})
  {
    var (db', t) := Alone(db, Poll(PollStart(tenant, flowId)), ins);
    PollAnswers(db, tenant, flowId, ins);
    assert t.outcome == Connected(t.outcome.summary);
    var credentials :| Linked(db, tenant, flowId, ins, credentials);
    assert FlowRows.Stores(db, tenant, flowId, ins);
    FlowRows.RowsTrace(db, tenant, flowId, ins);
    RowAdded(db, db', tenant, FlowRows.NewRow(db, tenant, flowId, ins), summaries);
  }

  /** A disconnect that succeeds takes exactly its connection out of the listing. */
  lemma DisconnectShrinksListing(db: Db, tenant: Tenant, id: Id, ins: seq<Input>, summaries: set<Summary>)
    requires Undo.KeyedConnections(db) && Lists(db, tenant, summaries)
    requires var t := Alone(db, Disconnect(DisconnectStart(tenant, id)), ins).1; t.Done? && t.outcome.Disconnected?
    ensures ConnectionOf(db, tenant, id) && Shown(db.connections[id]) in summaries
    ensures Lists(Alone(db, Disconnect(DisconnectStart(tenant, id)), ins).0, tenant, summaries - {Shown(db.connections[id])})
  {
    var (db', t) := Alone(db, Disconnect(DisconnectStart(tenant, id)), ins);
    DisconnectAnswers(db, tenant, id, ins);
    assert t.outcome == Disconnected(t.outcome.id, t.outcome.revoked);
    Undo.DisconnectRemovesIffNothingRaises(db, tenant, id, ins);
    RowRemoved(db, db', tenant, id, summaries);
  }

  /** An update that succeeds replaces exactly its connection in the listing. */
  lemma UpdateRewritesListing(db: Db, tenant: Tenant, id: Id, newRoot: Option<string>, ins: seq<Input>,
                              summaries: set<Summary>)
    requires Undo.KeyedConnections(db) && Lists(db, tenant, summaries)
    requires var t := Alone(db, Manage(UpdateStart(tenant, id, newRoot)), ins).1; t.Done? && t.outcome.Updated?
    ensures ConnectionOf(db, tenant, id) && Shown(db.connections[id]) in summaries
    ensures var (db', t) := Alone(db, Manage(UpdateStart(tenant, id, newRoot)), ins);
            Lists(db', tenant, summaries - {Shown(db.connections[id])} + {t.outcome.summary})
  {
    var (db', t) := Alone(db, Manage(UpdateStart(tenant, id, newRoot)), ins);
    UpdateAnswers(db, tenant, id, newRoot, ins);
    assert t.outcome == Updated(t.outcome.summary);
    Managing.UpdateChangesOnlyTheRoot(db, tenant, id, newRoot, ins);
    var without := db.(connections := db.connections - {id});
    RowRemoved(db, without, tenant, id, summaries);
    RowAdded(without, db', tenant, db'.connections[id], summaries - {Shown(db.connections[id])});
  }
}
