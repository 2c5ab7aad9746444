/**
 What one call undoes: linking an account and disconnecting it again leaves
 the tables exactly as they were.
 */
module Undo {
  import opened Options
  import opened Roots
  import opened Tables
  import opened Lifecycle
  import opened Paths
  import opened StoredRoots
  import opened Compensation

  // ---- begin_connection ----

  /** The tables with a new flow and its token. */
  function WithFlow(db: Db, row: Pending, token: Secret): Db {
    db.(pending := db.pending[row.flowId := row], secrets := db.secrets[row.pollRef := token])
  }

  /** What the call was asked for, and what the remote issued for it. */
  datatype Order = Order(tenant: Tenant, root: string, challenge: Challenge, value: string, expires: Time)

  function BeginStart(order: Order): Thread {
    Begin(BeginSecret(order.tenant, order.root, order.challenge, order.value, order.expires))
  }

  /** The rows that a begin writes: the flow and the poll token. */
  function NewFlow(order: Order, ins: seq<Input>): Pending
    requires ins != []
  {
    Pending(ins[0].oracle.id, order.tenant, order.root, order.challenge, ins[0].oracle.ref, order.expires)
  }

  function NewToken(order: Order, ins: seq<Input>): Secret
    requires ins != []
  {
    Secret(order.tenant, order.value, ins[0].oracle.stamp)
  }

  function WithToken(db: Db, order: Order, ins: seq<Input>): Db
    requires ins != []
  {
    db.(secrets := db.secrets[ins[0].oracle.ref := NewToken(order, ins)])
  }

  /** The first write succeeds. */
  predicate TokenStored(db0: Db, ins: seq<Input>) {
    ins != [] && ins[0].oracle.ok && ins[0].oracle.ref !in db0.secrets
  }

  /** The second write raises. */
  predicate FlowRaises(db0: Db, order: Order, ins: seq<Input>) {
    && |ins| >= 2
    && (!ins[1].oracle.ok
        || (ins[0].oracle.id in db0.pending && db0.pending[ins[0].oracle.id].tenant != order.tenant))
  }

  /** Where a begin is after these steps, and what it has written. */
  ghost predicate BeginAt(db0: Db, order: Order, ins: seq<Input>, db: Db, t: Thread) {
    match t
    case Begin(BeginSecret(_, _, _, _, _)) => ins == [] && t == BeginStart(order) && db == db0
    case Begin(BeginPending(row, _)) =>
      |ins| == 1 && TokenStored(db0, ins) && RootFits(order.root) && row == NewFlow(order, ins)
      && db == WithToken(db0, order, ins)
    case Begin(BeginUndo(tenant, ref)) =>
      |ins| == 2 && TokenStored(db0, ins) && RootFits(order.root) && FlowRaises(db0, order, ins)
      && tenant == order.tenant && ref == ins[0].oracle.ref && db == WithToken(db0, order, ins)
    case Done(_, Started(flowId, loginUrl, expires)) =>
      |ins| >= 2 && TokenStored(db0, ins) && RootFits(order.root) && !FlowRaises(db0, order, ins)
      && flowId == NewFlow(order, ins).flowId && loginUrl == order.challenge.loginUrl && expires == order.expires
      && db == WithFlow(db0, NewFlow(order, ins), NewToken(order, ins))
    case Done(_, Failed(BadRecord)) =>
      TokenStored(db0, ins) && !RootFits(order.root) && db == WithToken(db0, order, ins)
    case Done(_, Failed(StorageFailed)) =>
      ins != []
      && if !TokenStored(db0, ins) then db == db0
         else && RootFits(order.root) && |ins| >= 3 && FlowRaises(db0, order, ins)
              && db == if ins[2].oracle.ok then db0 else WithToken(db0, order, ins)
    case _ => false
  }

  lemma TokenUndone(db0: Db, order: Order, ins: seq<Input>)
    requires TokenStored(db0, ins)
    ensures DeleteSecret(WithToken(db0, order, ins), ins[0].oracle.ref, order.tenant) == db0
  {
    assert db0.secrets[ins[0].oracle.ref := NewToken(order, ins)] - {ins[0].oracle.ref} == db0.secrets;
  }

  lemma BeginOne(db0: Db, order: Order, ins: seq<Input>, last: Input, db: Db, t: Thread)
    requires BeginAt(db0, order, ins, db, t)
    ensures var (db', t') := Advance(db, last.now, t, last.oracle); BeginAt(db0, order, ins + [last], db', t')
  {
    assert forall i :: 0 <= i < |ins| ==> (ins + [last])[i] == ins[i];
    assert (ins + [last])[|ins|] == last;
    if t.Begin? && t.begin.BeginUndo? {
      TokenUndone(db0, order, ins);
    }
  }

  lemma {:induction false} BeginTrace(db0: Db, order: Order, ins: seq<Input>)
    ensures var (db, t) := Alone(db0, BeginStart(order), ins); BeginAt(db0, order, ins, db, t)
  {
    if ins != [] {
      var init, last := ins[..|ins| - 1], ins[|ins| - 1];
      BeginTrace(db0, order, init);
      var (db, t) := Alone(db0, BeginStart(order), init);
      BeginOne(db0, order, init, last, db, t);
      assert ins == init + [last];
    }
  }

  /** One flow with everything it was asked for and its poll token, and an answer that says so; or nothing. */
  ghost predicate AllOrNothing(db0: Db, order: Order, ins: seq<Input>, db: Db, outcome: Outcome)
    requires ins != []
  {
    var row := NewFlow(order, ins);
    if outcome.Started? then
      && outcome == Started(row.flowId, order.challenge.loginUrl, order.expires)
      && row.pollRef !in db0.secrets && db == WithFlow(db0, row, NewToken(order, ins))
    else outcome.Failed? && db == db0
  }

  /**
   The poll token is left alone: it was stored, and then either the record of
   the flow refused the root, which nothing compensates, or the flow could not
   be stored and the clean-up raised as well.
   */
  predicate TokenLeft(db0: Db, order: Order, ins: seq<Input>) {
    && TokenStored(db0, ins)
    && (!RootFits(order.root) || (FlowRaises(db0, order, ins) && |ins| >= 3 && !ins[2].oracle.ok))
  }

  /** A begin is all or nothing if and only if the token is not left alone; then the token is all that is left. */
  lemma BeginIsAllOrNothing(db0: Db, order: Order, ins: seq<Input>)
    requires Alone(db0, BeginStart(order), ins).1.Done?
    ensures ins != []
    ensures var (db, t) := Alone(db0, BeginStart(order), ins);
            && (AllOrNothing(db0, order, ins, db, t.outcome) <==> !TokenLeft(db0, order, ins))
            && (TokenLeft(db0, order, ins) ==> t.outcome.Failed? && db == WithToken(db0, order, ins) != db0)
  {
    BeginTrace(db0, order, ins);
    if TokenLeft(db0, order, ins) {
      assert ins[0].oracle.ref in WithToken(db0, order, ins).secrets;
    }
  }

  /** A root that the record refuses, once the token is stored. */
  lemma UnfitRootLeavesToken(db0: Db, order: Order, ins: seq<Input>)
    requires !RootFits(order.root) && TokenStored(db0, ins) && Alone(db0, BeginStart(order), ins).1.Done?
    ensures var (db, t) := Alone(db0, BeginStart(order), ins);
            db == WithToken(db0, order, ins) && t.outcome == Failed(BadRecord)
  {
    BeginTrace(db0, order, ins);
  }

  /** A root of 4097 characters is accepted, and a begin with it leaves exactly its token. */
  lemma LongRootLeavesToken(db0: Db, order: Order, ins: seq<Input>)
    requires order.root == "/" + Letters(MAX_ROOT) && TokenStored(db0, ins)
    requires Alone(db0, BeginStart(order), ins).1.Done?
    ensures NormalizeRootPath(order.root) == Ok(order.root)
    ensures var (db, t) := Alone(db0, BeginStart(order), ins);
            db == WithToken(db0, order, ins) && t.outcome == Failed(BadRecord)
  {
    LongRootIsAccepted(MAX_ROOT);
    UnfitRootLeavesToken(db0, order, ins);
  }

  predicate Undoes(t: Thread) {
    t.Begin? && t.begin.BeginUndo?
  }

  /** The clean-up does not raise. */
  predicate CalmBegin(db: Db, t: Thread, ins: seq<Input>) {
    ins == [] ||
    (var n := |ins| - 1;
     CalmBegin(db, t, ins[..n]) && (Undoes(Alone(db, t, ins[..n]).1) ==> ins[n].oracle.ok))
  }

  lemma {:induction false} CalmUndo(db0: Db, order: Order, ins: seq<Input>)
    requires CalmBegin(db0, BeginStart(order), ins) && TokenStored(db0, ins) && RootFits(order.root)
    requires FlowRaises(db0, order, ins) && |ins| >= 3
    ensures ins[2].oracle.ok
  {
    if |ins| > 3 {
      var init := ins[..|ins| - 1];
      assert forall i :: 0 <= i < 3 ==> init[i] == ins[i];
      CalmUndo(db0, order, init);
    } else {
      BeginTrace(db0, order, ins[..2]);
      assert forall i :: 0 <= i < 2 ==> ins[..2][i] == ins[i];
    }
  }

  /**
   When no clean-up raises, a begin is all or nothing if and only if the root
   fits the record or the first write raised.
   */
  lemma CalmBeginIsAllOrNothing(db0: Db, order: Order, ins: seq<Input>)
    requires CalmBegin(db0, BeginStart(order), ins) && Alone(db0, BeginStart(order), ins).1.Done?
    ensures ins != []
    ensures var (db, t) := Alone(db0, BeginStart(order), ins);
            AllOrNothing(db0, order, ins, db, t.outcome) <==> RootFits(order.root) || !TokenStored(db0, ins)
  {
    BeginIsAllOrNothing(db0, order, ins);
    if TokenStored(db0, ins) && RootFits(order.root) && FlowRaises(db0, order, ins) && |ins| >= 3 {
      CalmUndo(db0, order, ins);
    }
  }

  // ---- disconnect ----

  ghost predicate DisconnectAt(db0: Db, tenant: Tenant, id: Id, db: Db, t: Thread) {
    var found := GetConnection(db0, id, tenant);
    match t
    case Disconnect(DisconnectStart(tn, i)) => tn == tenant && i == id && db == db0
    case Disconnect(pc) =>
      found == Some(pc.connection) && RootFits(pc.connection.root)
      && db == if pc.DisconnectDropRow? then DeleteSecret(db0, pc.connection.ref, tenant) else db0
    case Done(tn, outcome) => tn == tenant && DisconnectEnds(db0, tenant, found, db, outcome)
    case _ => false
  }

  ghost predicate DisconnectEnds(db0: Db, tenant: Tenant, found: Option<Connection>, db: Db, outcome: Outcome) {
    match outcome
    case Disconnected(_, _) => found.Some? && RootFits(found.value.root) && db == Unlinked(db0, found.value)
    case Failed(NotFound) => found.None? && db == db0
    case Failed(BadRecord) => found.Some? && !RootFits(found.value.root) && db == db0
    case Failed(StorageFailed) =>
      db == db0 || (found.Some? && RootFits(found.value.root) && db == DeleteSecret(db0, found.value.ref, tenant))
    case _ => false
  }

  /** The tables without the connection and its secret. */
  function Unlinked(db: Db, c: Connection): Db {
    DeleteConnection(DeleteSecret(db, c.ref, c.tenant), c.id, c.tenant)
  }

  /** Ids are the keys of their rows. */
  ghost predicate KeyedConnections(db: Db) {
    forall c :: c in db.connections ==> db.connections[c].id == c
  }

  lemma DisconnectAdvances(db0: Db, tenant: Tenant, id: Id, db: Db, t: Thread, now: Time, o: Oracle)
    requires KeyedConnections(db0) && DisconnectAt(db0, tenant, id, db, t)
    ensures var (db', t') := Advance(db, now, t, o); DisconnectAt(db0, tenant, id, db', t')
  {
  }

  lemma {:induction false} DisconnectTrace(db0: Db, tenant: Tenant, id: Id, ins: seq<Input>)
    requires KeyedConnections(db0)
    ensures var (db, t) := Alone(db0, Disconnect(DisconnectStart(tenant, id)), ins);
            DisconnectAt(db0, tenant, id, db, t)
  {
    var start := Disconnect(DisconnectStart(tenant, id));
    if ins != [] {
      var n := |ins| - 1;
      DisconnectTrace(db0, tenant, id, ins[..n]);
      var (db, t) := Alone(db0, start, ins[..n]);
      DisconnectAdvances(db0, tenant, id, db, t, ins[n].now, ins[n].oracle);
    }
  }

  predicate Drops(t: Thread) {
    t.Disconnect? && (t.disconnect.DisconnectDropSecret? || t.disconnect.DisconnectDropRow?)
  }

  /** Neither of the two deletions raises. */
  predicate CalmDisconnect(db: Db, t: Thread, ins: seq<Input>) {
    ins == [] ||
    (var n := |ins| - 1;
     CalmDisconnect(db, t, ins[..n]) && (Drops(Alone(db, t, ins[..n]).1) ==> ins[n].oracle.ok))
  }

  /** The two reads before the `try`, of the row and of its secret. */
  predicate ReadsSucceed(ins: seq<Input>) {
    |ins| >= 2 && ins[0].oracle.ok && ins[1].oracle.ok
  }

  ghost predicate ReadsAt(t: Thread, readable: bool, ins: seq<Input>, calm: bool) {
    match t
    case Disconnect(DisconnectStart(_, _)) => ins == []
    case Disconnect(DisconnectGet(_)) => readable && |ins| == 1 && ins[0].oracle.ok
    case Disconnect(_) => readable && ReadsSucceed(ins)
    case Done(_, Disconnected(_, _)) => readable && ReadsSucceed(ins)
    case Done(_, Failed(NotFound)) => !readable
    case Done(_, Failed(BadRecord)) => !readable && ins != [] && ins[0].oracle.ok
    case Done(_, Failed(StorageFailed)) =>
      (!readable ==> ins != [] && !ins[0].oracle.ok)
      && (calm ==> ins != [] && (!ins[0].oracle.ok || (|ins| >= 2 && !ins[1].oracle.ok)))
    case _ => false
  }

  lemma {:induction false} ReadsTrace(db0: Db, tenant: Tenant, id: Id, ins: seq<Input>)
    requires KeyedConnections(db0)
    ensures var start := Disconnect(DisconnectStart(tenant, id));
            ReadsAt(Alone(db0, start, ins).1, ReadConnection(db0, id, tenant).Found?, ins, CalmDisconnect(db0, start, ins))
  {
    if ins != [] {
      ReadsTrace(db0, tenant, id, ins[..|ins| - 1]);
      DisconnectTrace(db0, tenant, id, ins[..|ins| - 1]);
    }
  }

  /** A deletion that raises ends the call. */
  lemma {:induction false} CalmTrace(db0: Db, tenant: Tenant, id: Id, ins: seq<Input>)
    requires KeyedConnections(db0)
    ensures var start := Disconnect(DisconnectStart(tenant, id));
            var t := Alone(db0, start, ins).1;
            !t.Done? || t.outcome.Disconnected? ==> CalmDisconnect(db0, start, ins)
  {
    if ins != [] {
      CalmTrace(db0, tenant, id, ins[..|ins| - 1]);
      DisconnectTrace(db0, tenant, id, ins[..|ins| - 1]);
    }
  }

  /**
   A disconnect removes the connection and its secret, whatever becomes of the
   remote revocation, if and only if its row can be read, the two reads before
   its `try` and the two deletions in its `finally` succeed; otherwise the
   connection stays, and so does everything else but, at most, its secret.
   */
  lemma DisconnectRemovesIffNothingRaises(db0: Db, tenant: Tenant, id: Id, ins: seq<Input>)
    requires KeyedConnections(db0) && GetConnection(db0, id, tenant).Some?
    requires Alone(db0, Disconnect(DisconnectStart(tenant, id)), ins).1.Done?
    ensures var start, c := Disconnect(DisconnectStart(tenant, id)), GetConnection(db0, id, tenant).value;
            var (db, t) := Alone(db0, start, ins);
            if RootFits(c.root) && ReadsSucceed(ins) && CalmDisconnect(db0, start, ins) then
              db == Unlinked(db0, c) && t.outcome.Disconnected?
            else && GetConnection(db, id, tenant) == Some(c)
                 && t.outcome == Failed(if !RootFits(c.root) && ins != [] && ins[0].oracle.ok then BadRecord else StorageFailed)
                 && (db == db0 || (RootFits(c.root) && ReadsSucceed(ins) && db == DeleteSecret(db0, c.ref, tenant)))
  {
    ReadsTrace(db0, tenant, id, ins);
    DisconnectTrace(db0, tenant, id, ins);
    CalmTrace(db0, tenant, id, ins);
    NothingDeleted(db0, tenant, id, ins);
  }

  /** Without both reads no deletion is reached. */
  lemma {:induction false} NothingDeleted(db0: Db, tenant: Tenant, id: Id, ins: seq<Input>)
    requires KeyedConnections(db0)
    ensures var (db, t) := Alone(db0, Disconnect(DisconnectStart(tenant, id)), ins);
            !ReadsSucceed(ins) ==> db == db0
  {
    if ins != [] {
      var init := ins[..|ins| - 1];
      NothingDeleted(db0, tenant, id, init);
      ReadsTrace(db0, tenant, id, init);
      assert ReadsSucceed(init) ==> ReadsSucceed(ins);
    }
  }

  // ---- linking and unlinking ----

  lemma SecretUndone(db: Db, token: Ref, ref: Ref, secret: Secret, tenant: Tenant)
    requires ref !in db.secrets && secret.tenant == tenant
    ensures DeleteSecret(DeleteSecret(db.(secrets := db.secrets[ref := secret]), token, tenant), ref, tenant)
            == DeleteSecret(db, token, tenant)
  {
    var with := db.secrets[ref := secret];
    assert with - {ref} == db.secrets;
    assert with - {token} - {ref} == db.secrets - {token};
  }

  /** Secrets, connections and flows are deleted independently of each other. */
  lemma DeletesCommute(db: Db, row: Pending, c: Connection)
    ensures DeleteSecret(DeletePending(db, row.flowId, row.tenant), c.ref, c.tenant)
            == DeletePending(DeleteSecret(db, c.ref, c.tenant), row.flowId, row.tenant)
    ensures DeleteConnection(DeletePending(db, row.flowId, row.tenant), c.id, c.tenant)
            == DeletePending(DeleteConnection(db, c.id, c.tenant), row.flowId, row.tenant)
  {
  }

  lemma ConnectionBeforeSecret(db: Db, c: Connection)
    ensures Unlinked(db, c) == DeleteSecret(DeleteConnection(db, c.id, c.tenant), c.ref, c.tenant)
  {
  }

  lemma ConnectionUndone(db: Db, token: Ref, c: Connection)
    requires c.id !in db.connections
    ensures DeleteConnection(DeleteSecret(db.(connections := db.connections[c.id := c]), token, c.tenant), c.id, c.tenant)
            == DeleteSecret(db, token, c.tenant)
  {
    assert db.connections[c.id := c] - {c.id} == db.connections;
  }

  /** A poll's connection and its secret, taken away again. */
  lemma UnlinkLink(db: Db, row: Pending, c: Connection, secret: Secret)
    requires c.ref !in db.secrets && c.id !in db.connections && secret.tenant == row.tenant && c.tenant == row.tenant
    ensures Unlinked(Dropped(Apply(db, Link(c, secret)), row, FlowDropped), c) == Dropped(db, row, FlowDropped)
  {
    var linked := Apply(db, Link(c, secret));
    var dropped := DeleteSecret(linked, row.pollRef, row.tenant);
    DeletesCommute(dropped, row, c);
    DeletesCommute(DeleteSecret(dropped, c.ref, c.tenant), row, c);
    LinkUndone(db, row.pollRef, c, secret);
  }

  lemma LinkUndone(db: Db, token: Ref, c: Connection, secret: Secret)
    requires c.ref !in db.secrets && c.id !in db.connections && secret.tenant == c.tenant
    ensures Unlinked(DeleteSecret(Apply(db, Link(c, secret)), token, c.tenant), c) == DeleteSecret(db, token, c.tenant)
  {
    var secretOnly := db.(secrets := db.secrets[c.ref := secret]);
    var linked := secretOnly.(connections := secretOnly.connections[c.id := c]);
    assert linked == Apply(db, Link(c, secret));
    ConnectionBeforeSecret(DeleteSecret(linked, token, c.tenant), c);
    ConnectionUndone(secretOnly, token, c);
    SecretUndone(db, token, c.ref, secret, c.tenant);
  }

  /** A flow and its token, dropped again. */
  lemma DropFlow(db: Db, row: Pending, token: Secret)
    requires row.pollRef !in db.secrets && row.flowId !in db.pending && token.tenant == row.tenant
    ensures Dropped(WithFlow(db, row, token), row, FlowDropped) == db
  {
    var with := WithFlow(db, row, token);
    assert with.secrets - {row.pollRef} == db.secrets;
    assert with.pending - {row.flowId} == db.pending;
  }

  /**
   Disconnecting what a poll has just connected leaves nothing of the
   connection: the tables are as if the poll had only consumed its flow.
   */
  lemma DisconnectUndoesPoll(db0: Db, tenant: Tenant, flowId: Id, ins: seq<Input>, ins': seq<Input>)
    requires NewIds(db0, ins) && Keyed(db0) && KeyedConnections(db0)
    requires var poll := Poll(PollStart(tenant, flowId));
             var (db1, polled) := Alone(db0, poll, ins);
             && Calm(db0, poll, ins) && polled.Done? && polled.outcome.Connected?
             && var t := Alone(db1, Disconnect(DisconnectStart(tenant, polled.outcome.summary.id)), ins').1;
                t.Done? && t.outcome.Disconnected?
    ensures var (db1, polled) := Alone(db0, Poll(PollStart(tenant, flowId)), ins);
            var db2 := Alone(db1, Disconnect(DisconnectStart(tenant, polled.outcome.summary.id)), ins').0;
            && GetPending(db0, flowId, tenant).Some?
            && db2 == Dropped(db0, GetPending(db0, flowId, tenant).value, FlowDropped)
  {
    PollIsAllOrNothing(db0, tenant, flowId, ins);
    var (db1, polled) := Alone(db0, Poll(PollStart(tenant, flowId)), ins);
    var row := GetPending(db0, flowId, tenant).value;
    var c: Connection, secret, credentials :| Proper(db0, row, Link(c, secret), credentials, Heard(ins))
                                  && polled.outcome.summary == Summarize(c)
                                  && db1 == Dropped(Apply(db0, Link(c, secret)), row, FlowDropped);
    LinkIsFound(db0, row, c, secret);
    DisconnectTrace(db1, tenant, c.id, ins');
    UnlinkLink(db0, row, c, secret);
  }

  lemma LinkIsFound(db: Db, row: Pending, c: Connection, secret: Secret)
    requires KeyedConnections(db) && c.tenant == row.tenant
    ensures var linked := Dropped(Apply(db, Link(c, secret)), row, FlowDropped);
            KeyedConnections(linked) && GetConnection(linked, c.id, row.tenant) == Some(c)
  {
  }

  /** Begin, poll and disconnect, undisturbed and without failing deletions: the tables are what they were. */
  lemma LinkThenUnlinkRestores(db0: Db, order: Order, begin: seq<Input>, poll: seq<Input>, disconnect: seq<Input>)
    requires Keyed(db0) && KeyedConnections(db0) && NewIds(db0, poll)
    requires var (db1, started) := Alone(db0, BeginStart(order), begin);
             && started.Done? && started.outcome.Started? && started.outcome.flowId !in db0.pending
             && var start := Poll(PollStart(order.tenant, started.outcome.flowId));
                var (db2, polled) := Alone(db1, start, poll);
                && Calm(db1, start, poll) && polled.Done? && polled.outcome.Connected?
                && var t := Alone(db2, Disconnect(DisconnectStart(order.tenant, polled.outcome.summary.id)), disconnect).1;
                   t.Done? && t.outcome.Disconnected?
    ensures var (db1, started) := Alone(db0, BeginStart(order), begin);
            var (db2, polled) := Alone(db1, Poll(PollStart(order.tenant, started.outcome.flowId)), poll);
            Alone(db2, Disconnect(DisconnectStart(order.tenant, polled.outcome.summary.id)), disconnect).0 == db0
  {
    BeginTrace(db0, order, begin);
    var (db1, started) := Alone(db0, BeginStart(order), begin);
    var row, token := NewFlow(order, begin), NewToken(order, begin);
    assert GetPending(db1, row.flowId, order.tenant) == Some(row);
    DisconnectUndoesPoll(db1, order.tenant, row.flowId, poll, disconnect);
    DropFlow(db0, row, token);
  }
}
