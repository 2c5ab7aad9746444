/**
 What every reachable state of the lifecycle looks like, whatever the timing:
 references and ids are owned by one row of one tenant, and each thread's
 locals agree with the history.
 */
module LifecycleShape {
  import opened Tables
  import opened Lifecycle

  /** `ref` was committed into the row `holder` of `tenant`. */
  ghost predicate Holds(h: History, holder: Holder, ref: Ref, tenant: Tenant) {
    ref in h.bound && h.bound[ref] == holder && ref in h.issued && h.issued[ref].row.tenant == tenant
  }

  ghost predicate HoldsFlow(h: History, row: Pending) {
    Holds(h, Flow(row.flowId), row.pollRef, row.tenant)
  }

  ghost predicate HoldsConn(h: History, c: Connection) {
    Holds(h, Conn(c.id), c.ref, c.tenant)
  }

  /** `th` has written the secret `ref` and no row refers to it yet. */
  ghost predicate Pledged(h: History, th: nat, ref: Ref, tenant: Tenant) {
    ref in h.issued && h.issued[ref].writer == th && h.issued[ref].row.tenant == tenant && ref !in h.bound
  }

  ghost predicate PledgedAt(h: History, th: nat, ref: Ref, tenant: Tenant, stamp: Time) {
    Pledged(h, th, ref, tenant) && h.issued[ref].row.created == stamp
  }

  ghost predicate AllHeld(h: History, rows: set<Pending>) {
    forall row :: row in rows ==> HoldsFlow(h, row)
  }

  ghost predicate BeginShape(h: History, th: nat, pc: BeginPc) {
    match pc
    case BeginSecret(_, _, _, _, _) => true
    case BeginPending(row, stamp) => PledgedAt(h, th, row.pollRef, row.tenant, stamp)
    case BeginUndo(tenant, ref) => Pledged(h, th, ref, tenant)
  }

  ghost predicate PollShape(h: History, th: nat, pc: PollPc) {
    && (!pc.PollStart? ==> HoldsFlow(h, pc.row))
    && (pc.PollConnection? ==>
          && PledgedAt(h, th, pc.ref, pc.row.tenant, pc.stamp)
          && h.issued[pc.ref].row.value == pc.credentials.appPassword)
    && (pc.PollUndo? ==> Pledged(h, th, pc.ref, pc.row.tenant))
  }

  ghost predicate ManageShape(h: History, pc: ManagePc) {
    pc.UpdatePut? || pc.ResolveSecret? ==> HoldsConn(h, pc.connection)
  }

  ghost predicate DisconnectShape(h: History, pc: DisconnectPc) {
    && (!pc.DisconnectStart? ==> HoldsConn(h, pc.connection))
    && (pc.DisconnectResolve? ==> HoldsConn(h, pc.again) && pc.again.tenant == pc.connection.tenant)
  }

  ghost predicate SweepShape(h: History, pc: SweepPc) {
    && (!pc.SweepStart? ==> AllHeld(h, pc.expired))
    && (pc.SweepPolls? || pc.SweepSelect? || pc.SweepOrphans? || pc.SweepCommit? ==> pc.flows <= FlowIds(pc.expired))
  }

  ghost predicate ThreadShape(h: History, th: nat, t: Thread) {
    match t
    case Begin(pc) => BeginShape(h, th, pc)
    case Poll(pc) => PollShape(h, th, pc)
    case Manage(pc) => ManageShape(h, pc)
    case Disconnect(pc) => DisconnectShape(h, pc)
    case Sweep(pc) => SweepShape(h, pc)
    case Done(_, _) => true
  }

  ghost predicate DbShape(db: Db, h: History) {
    && (forall ref :: ref in db.secrets ==> ref in h.issued && db.secrets[ref] == h.issued[ref].row)
    && (forall f :: f in db.pending ==> db.pending[f].flowId == f && HoldsFlow(h, db.pending[f]))
    && (forall c :: c in db.connections ==> db.connections[c].id == c && HoldsConn(h, db.connections[c]))
    && BoundShape(h.issued, h.bound, h.granted)
  }

  /** Each row holds one reference, and a connection's is the app password it was granted. */
  ghost predicate BoundShape(issued: map<Ref, Issue>, bound: map<Ref, Holder>, granted: map<Id, string>) {
    && (forall ref :: ref in bound ==> ref in issued)
    && (forall a, b :: a in bound && b in bound && bound[a] == bound[b] ==> a == b)
    && (forall ref :: ref in bound && bound[ref].Conn? ==>
          bound[ref].id in granted && issued[ref].row.value == granted[bound[ref].id])
  }

  ghost predicate Shape(s: State) {
    DbShape(s.db, s.h) && forall th :: th in s.threads ==> ThreadShape(s.h, th, s.threads[th])
  }

  /** How one thread's step may change the history, as seen by another thread `th`. */
  ghost predicate Grows(h: History, h': History, th: nat) {
    && (forall ref :: ref in h.issued ==> ref in h'.issued && h'.issued[ref] == h.issued[ref])
    && (forall ref :: ref in h.bound ==> ref in h'.bound && h'.bound[ref] == h.bound[ref])
    && h.severed <= h'.severed
    && (forall ref :: ref in h.issued && h.issued[ref].writer == th && ref !in h.bound ==> ref !in h'.bound)
  }

  lemma {:induction false} ThreadShapeStable(h: History, h': History, th: nat, t: Thread)
    requires ThreadShape(h, th, t) && Grows(h, h', th)
    ensures ThreadShape(h', th, t)
  {
  }

  lemma NoteGrows(db: Db, h: History, th: nat, t: Thread, o: Oracle, other: nat)
    requires ThreadShape(h, th, t) && Fresh(h, t, o) && th != other
    ensures Grows(h, Note(h, th, t, o), other)
  {
  }

  // ---- what each kind of table change keeps ----

  ghost predicate Within(db: Db, db': Db) {
    && (forall k :: k in db'.pending ==> k in db.pending && db'.pending[k] == db.pending[k])
    && (forall k :: k in db'.connections ==> k in db.connections && db'.connections[k] == db.connections[k])
    && (forall k :: k in db'.secrets ==> k in db.secrets && db'.secrets[k] == db.secrets[k])
  }

  /** Deletions, and notes about severed rows, keep the shape. */
  lemma ShrinkShape(db: Db, db': Db, h: History, h': History)
    requires DbShape(db, h) && Within(db, db')
    requires h'.issued == h.issued && h'.bound == h.bound && h'.granted == h.granted
    ensures DbShape(db', h')
  {
  }

  lemma IssueShape(db: Db, h: History, ref: Ref, row: Secret, th: nat)
    requires DbShape(db, h) && ref !in h.issued
    ensures DbShape(db.(secrets := db.secrets[ref := row]), h.(issued := h.issued[ref := Issue(row, th)]))
  {
  }

  lemma BindFlowShape(db: Db, h: History, row: Pending)
    requires DbShape(db, h) && row.pollRef in h.issued && row.pollRef !in h.bound
    requires h.issued[row.pollRef].row.tenant == row.tenant && Flow(row.flowId) !in h.bound.Values
    ensures row.flowId !in db.pending
    ensures DbShape(db.(pending := db.pending[row.flowId := row]), h.(bound := h.bound[row.pollRef := Flow(row.flowId)]))
  {
  }

  lemma BindConnShape(db: Db, h: History, c: Connection, password: string)
    requires DbShape(db, h) && c.ref in h.issued && c.ref !in h.bound
    requires h.issued[c.ref].row.tenant == c.tenant && h.issued[c.ref].row.value == password
    requires Conn(c.id) !in h.bound.Values
    ensures c.id !in db.connections
    ensures DbShape(db.(connections := db.connections[c.id := c]),
                    h.(bound := h.bound[c.ref := Conn(c.id)], granted := h.granted[c.id := password]))
  {
  }

  lemma ReputShape(db: Db, h: History, c: Connection)
    requires DbShape(db, h) && HoldsConn(h, c)
    ensures DbShape(db.(connections := db.connections[c.id := c]), h)
  {
  }

  // ---- what each step keeps ----

  /** What a step of `th` must establish: the tables and its own new locals. */
  ghost predicate Keeps(db: Db, now: Time, h: History, th: nat, t: Thread, o: Oracle) {
    var (db', t') := Advance(db, now, t, o);
    DbShape(db', Note(h, th, t, o)) && ThreadShape(Note(h, th, t, o), th, t')
  }

  lemma BeginKeeps(db: Db, now: Time, h: History, th: nat, t: Thread, o: Oracle)
    requires DbShape(db, h) && ThreadShape(h, th, t) && Fresh(h, t, o) && t.Begin?
    ensures Keeps(db, now, h, th, t, o)
  {
    match t.begin
    case BeginSecret(tenant, _, _, token, _) =>
      if o.ok {
        IssueShape(db, h, o.ref, Secret(tenant, token, o.stamp), th);
      }
    case BeginPending(row, _) =>
      if o.ok {
        BindFlowShape(db, h, row);
      }
    case BeginUndo(tenant, ref) =>
      ShrinkShape(db, DeleteSecret(db, ref, tenant), h, h);
  }

  lemma PollReadKeeps(db: Db, now: Time, h: History, th: nat, t: Thread, o: Oracle)
    requires DbShape(db, h) && ThreadShape(h, th, t) && t.Poll?
    requires t.poll.PollStart? || t.poll.PollClock? || t.poll.PollToken? || t.poll.PollRemote?
    ensures Keeps(db, now, h, th, t, o)
  {
    assert Note(h, th, t, o) == h;
  }

  lemma PollWriteKeeps(db: Db, now: Time, h: History, th: nat, t: Thread, o: Oracle)
    requires DbShape(db, h) && ThreadShape(h, th, t) && Fresh(h, t, o) && t.Poll?
    requires t.poll.PollSecret? || t.poll.PollConnection?
    ensures Keeps(db, now, h, th, t, o)
  {
    if o.ok {
      match t.poll
      case PollSecret(row, credentials) =>
        IssueShape(db, h, o.ref, Secret(row.tenant, credentials.appPassword, o.stamp), th);
      case PollConnection(row, credentials, ref, _) =>
        BindConnShape(db, h, NewConnection(row, credentials, ref, o), credentials.appPassword);
    }
  }

  lemma PollDropKeeps(db: Db, now: Time, h: History, th: nat, t: Thread, o: Oracle)
    requires DbShape(db, h) && ThreadShape(h, th, t) && t.Poll?
    requires t.poll.PollUndo? || t.poll.PollDropSecret? || t.poll.PollDropFlow?
    ensures Keeps(db, now, h, th, t, o)
  {
    hide DbShape;
    match t.poll
    case PollUndo(row, ref) => ShrinkShape(db, DeleteSecret(db, ref, row.tenant), h, h);
    case PollDropSecret(row, _) => ShrinkShape(db, DeleteSecret(db, row.pollRef, row.tenant), h, Note(h, th, t, o));
    case PollDropFlow(row, _) => ShrinkShape(db, DeletePending(db, row.flowId, row.tenant), h, h);
  }

  /** What a read finds is held. */
  lemma ReadShape(db: Db, h: History, id: Id, tenant: Tenant)
    requires DbShape(db, h)
    ensures ReadConnection(db, id, tenant).Found? ==> HoldsConn(h, ReadConnection(db, id, tenant).row)
  {
  }

  lemma ManageReadKeeps(db: Db, now: Time, h: History, th: nat, t: Thread, o: Oracle)
    requires DbShape(db, h) && t.Manage? && !t.manage.UpdatePut?
    ensures Keeps(db, now, h, th, t, o)
  {
    hide DbShape;
    assert Note(h, th, t, o) == h;
    if t.manage.UpdateStart? || t.manage.ResolveStart? {
      ReadShape(db, h, t.manage.id, t.manage.tenant);
    }
  }

  lemma UpdatePutKeeps(db: Db, now: Time, h: History, th: nat, t: Thread, o: Oracle)
    requires DbShape(db, h) && t.Manage? && t.manage.UpdatePut? && HoldsConn(h, t.manage.connection)
    ensures Keeps(db, now, h, th, t, o)
  {
    ReputShape(db, h, t.manage.connection);
  }

  lemma ManageKeeps(db: Db, now: Time, h: History, th: nat, t: Thread, o: Oracle)
    requires DbShape(db, h) && ThreadShape(h, th, t) && t.Manage?
    ensures Keeps(db, now, h, th, t, o)
  {
    hide DbShape, Keeps;
    if t.manage.UpdatePut? {
      UpdatePutKeeps(db, now, h, th, t, o);
    } else {
      ManageReadKeeps(db, now, h, th, t, o);
    }
  }
  lemma DisconnectReadKeeps(db: Db, now: Time, h: History, th: nat, t: Thread, o: Oracle)
    requires DbShape(db, h) && ThreadShape(h, th, t) && t.Disconnect?
    requires !t.disconnect.DisconnectDropSecret? && !t.disconnect.DisconnectDropRow?
    ensures Keeps(db, now, h, th, t, o)
  {
    hide DbShape;
    assert Note(h, th, t, o) == h;
    match t.disconnect
    case DisconnectStart(tenant, id) => ReadShape(db, h, id, tenant);
    case DisconnectGet(c) => ReadShape(db, h, c.id, c.tenant);
    case DisconnectReread(c) => ReadShape(db, h, c.id, c.tenant);
    case DisconnectResolve(_, _) =>
    case DisconnectRevoke(_) =>
  }

  lemma DisconnectDropKeeps(db: Db, now: Time, h: History, th: nat, t: Thread, o: Oracle)
    requires DbShape(db, h) && ThreadShape(h, th, t) && t.Disconnect?
    requires t.disconnect.DisconnectDropSecret? || t.disconnect.DisconnectDropRow?
    ensures Keeps(db, now, h, th, t, o)
  {
    hide DbShape;
    var db' := Advance(db, now, t, o).0;
    assert Within(db, db');
    ShrinkShape(db, db', h, Note(h, th, t, o));
  }

  lemma SweepReadKeeps(db: Db, now: Time, h: History, th: nat, t: Thread, o: Oracle)
    requires DbShape(db, h) && ThreadShape(h, th, t) && t.Sweep? && !t.sweep.SweepCommit?
    ensures Keeps(db, now, h, th, t, o)
  {
    assert Note(h, th, t, o) == h;
  }

  lemma SweepCommitKeeps(db: Db, now: Time, h: History, th: nat, t: Thread, o: Oracle)
    requires DbShape(db, h) && ThreadShape(h, th, t) && t.Sweep? && t.sweep.SweepCommit?
    ensures Keeps(db, now, h, th, t, o)
  {
    ShrinkShape(db, Advance(db, now, t, o).0, h, h);
  }

  lemma AdvanceKeeps(db: Db, now: Time, h: History, th: nat, t: Thread, o: Oracle)
    requires DbShape(db, h) && ThreadShape(h, th, t) && Fresh(h, t, o)
    ensures Keeps(db, now, h, th, t, o)
  {
    match t
    case Begin(_) => BeginKeeps(db, now, h, th, t, o);
    case Poll(pc) =>
      if pc.PollSecret? || pc.PollConnection? {
        PollWriteKeeps(db, now, h, th, t, o);
      } else if pc.PollUndo? || pc.PollDropSecret? || pc.PollDropFlow? {
        PollDropKeeps(db, now, h, th, t, o);
      } else {
        PollReadKeeps(db, now, h, th, t, o);
      }
    case Manage(_) => ManageKeeps(db, now, h, th, t, o);
    case Disconnect(pc) =>
      if pc.DisconnectDropSecret? || pc.DisconnectDropRow? {
        DisconnectDropKeeps(db, now, h, th, t, o);
      } else {
        DisconnectReadKeeps(db, now, h, th, t, o);
      }
    case Sweep(pc) =>
      if pc.SweepCommit? {
        SweepCommitKeeps(db, now, h, th, t, o);
      } else {
        SweepReadKeeps(db, now, h, th, t, o);
      }
    case Done(_, _) =>
  }

  lemma {:induction false} StepShape(s: State, e: Event)
    requires Shape(s) && Enabled(s, e)
    ensures Shape(Step(s, e))
  {
    match e
    case Go(_, th, o) =>
      AdvanceKeeps(s.db, s.now, s.h, th, s.threads[th], o);
      var s' := Step(s, e);
      forall x | x in s'.threads && x != th ensures ThreadShape(s'.h, x, s'.threads[x]) {
        NoteGrows(s.db, s.h, th, s.threads[th], o, x);
        ThreadShapeStable(s.h, s'.h, x, s.threads[x]);
      }
    case _ =>
  }

  lemma {:induction false} RunShape(s: State, es: seq<Event>)
    requires Shape(s) && Legal(s, es)
    ensures Shape(Run(s, es))
  {
    if es != [] {
      RunShape(s, es[..|es| - 1]);
      StepShape(Run(s, es[..|es| - 1]), es[|es| - 1]);
    }
  }
}
