/**
 Tenant noninterference. In any interleaving of any number of calls by any
 tenants and of cleanups, erasing every event of the other tenants leaves
 tenant `a` with the same rows, the same secrets and the same results.
 */
module Tenancy {
  import opened Tables
  import opened Lifecycle
  import opened LifecycleShape

  // ---- what belongs to tenant a ----

  function MyPending(m: map<Id, Pending>, a: Tenant): map<Id, Pending> {
    map k | k in m && m[k].tenant == a :: m[k]
  }

  function MyConnections(m: map<Id, Connection>, a: Tenant): map<Id, Connection> {
    map k | k in m && m[k].tenant == a :: m[k]
  }

  function MySecrets(m: map<Ref, Secret>, a: Tenant): map<Ref, Secret> {
    map k | k in m && m[k].tenant == a :: m[k]
  }

  function MyDb(db: Db, a: Tenant): Db {
    Db(MyPending(db.pending, a), MyConnections(db.connections, a), MySecrets(db.secrets, a))
  }

  function MyRows(rows: set<Pending>, a: Tenant): set<Pending> {
    set row | row in rows && row.tenant == a
  }

  function MyKeys(keys: set<(Tenant, Ref)>, a: Tenant): set<(Tenant, Ref)> {
    set k | k in keys && k.0 == a
  }

  /** The locals of a cleanup, restricted to the rows of `a`. */
  function MySweep(pc: SweepPc, a: Tenant): SweepPc {
    match pc
    case SweepStart(_, _) => pc
    case SweepFlows(current, cutoff, expired) => SweepFlows(current, cutoff, MyRows(expired, a))
    case SweepPolls(current, cutoff, expired, flows) =>
      SweepPolls(current, cutoff, MyRows(expired, a), flows * FlowIds(MyRows(expired, a)))
    case SweepSelect(current, cutoff, expired, flows, gone) =>
      SweepSelect(current, cutoff, MyRows(expired, a), flows * FlowIds(MyRows(expired, a)), MyKeys(gone, a))
    case SweepOrphans(current, expired, flows, gone, orphans) =>
      SweepOrphans(current, MyRows(expired, a), flows * FlowIds(MyRows(expired, a)), MyKeys(gone, a), MyKeys(orphans, a))
    case SweepCommit(current, expired, flows, gone, orphans) =>
      SweepCommit(current, MyRows(expired, a), flows * FlowIds(MyRows(expired, a)), MyKeys(gone, a), MyKeys(orphans, a))
    case SweepDone(expired, orphans) => SweepDone(MyRows(expired, a), MyKeys(orphans, a))
  }

  function MyThread(t: Thread, a: Tenant): Thread {
    if t.Sweep? then Sweep(MySweep(t.sweep, a)) else t
  }

  predicate Mine(who: Actor, a: Tenant) {
    who == Janitor || who == Service(a)
  }

  function MyThreads(threads: map<nat, Thread>, a: Tenant): map<nat, Thread> {
    map th | th in threads && Mine(Owner(threads[th]), a) :: MyThread(threads[th], a)
  }

  /** The run with the events of all other tenants erased. */
  function MyEvents(es: seq<Event>, a: Tenant): seq<Event> {
    if es == [] then [] else
    var rest := MyEvents(es[..|es| - 1], a);
    var e := es[|es| - 1];
    if e.Tick? || Mine(e.who, a) then rest + [e] else rest
  }

  /** `mine` is all that tenant `a` can see of `s`, finished calls with their outcomes included. */
  ghost predicate SeenBy(s: State, mine: State, a: Tenant) {
    && mine.db == MyDb(s.db, a)
    && mine.threads == MyThreads(s.threads, a)
    && mine.now == s.now
    && mine.h.issued.Keys <= s.h.issued.Keys
    && mine.h.bound.Values <= s.h.bound.Values
  }

  // ---- the statements, seen by tenant a ----

  lemma PendingPut(m: map<Id, Pending>, row: Pending, a: Tenant)
    requires row.flowId in m ==> m[row.flowId].tenant == row.tenant
    ensures MyPending(m[row.flowId := row], a)
            == if row.tenant == a then MyPending(m, a)[row.flowId := row] else MyPending(m, a)
  {
  }

  lemma ConnectionPut(m: map<Id, Connection>, c: Connection, a: Tenant)
    requires c.id in m ==> m[c.id].tenant == c.tenant
    ensures MyConnections(m[c.id := c], a)
            == if c.tenant == a then MyConnections(m, a)[c.id := c] else MyConnections(m, a)
  {
  }

  lemma SecretPut(m: map<Ref, Secret>, ref: Ref, row: Secret, a: Tenant)
    requires ref !in m
    ensures MySecrets(m[ref := row], a)
            == if row.tenant == a then MySecrets(m, a)[ref := row] else MySecrets(m, a)
  {
  }

  lemma PendingDelete(db: Db, flowId: Id, tenant: Tenant, a: Tenant)
    ensures MyDb(DeletePending(db, flowId, tenant), a)
            == if tenant == a then DeletePending(MyDb(db, a), flowId, a) else MyDb(db, a)
  {
    if flowId in db.pending && db.pending[flowId].tenant == tenant {
      assert MyPending(db.pending - {flowId}, a) == MyPending(db.pending, a) - {flowId};
      assert tenant != a ==> MyPending(db.pending, a) - {flowId} == MyPending(db.pending, a);
    }
  }

  lemma ConnectionDelete(db: Db, id: Id, tenant: Tenant, a: Tenant)
    ensures MyDb(DeleteConnection(db, id, tenant), a)
            == if tenant == a then DeleteConnection(MyDb(db, a), id, a) else MyDb(db, a)
  {
    if id in db.connections && db.connections[id].tenant == tenant {
      assert MyConnections(db.connections - {id}, a) == MyConnections(db.connections, a) - {id};
      assert tenant != a ==> MyConnections(db.connections, a) - {id} == MyConnections(db.connections, a);
    }
  }

  lemma SecretDelete(db: Db, ref: Ref, tenant: Tenant, a: Tenant)
    ensures MyDb(DeleteSecret(db, ref, tenant), a)
            == if tenant == a then DeleteSecret(MyDb(db, a), ref, a) else MyDb(db, a)
  {
    if ref in db.secrets && db.secrets[ref].tenant == tenant {
      assert MySecrets(db.secrets - {ref}, a) == MySecrets(db.secrets, a) - {ref};
      assert tenant != a ==> MySecrets(db.secrets, a) - {ref} == MySecrets(db.secrets, a);
    }
  }

  lemma ListOwn(db: Db, a: Tenant)
    ensures ListConnections(MyDb(db, a), a) == ListConnections(db, a)
  {
    var mine := MyDb(db, a);
    forall c | c in ListConnections(db, a) ensures c in ListConnections(mine, a) {
      var id :| id in db.connections && db.connections[id].tenant == a && db.connections[id] == c;
      assert mine.connections[id] == c;
    }
  }

  // ---- single steps ----

  /** A service step does to a's view what it does alone there, or, for another tenant, nothing. */
  ghost predicate Separate(db: Db, now: Time, t: Thread, o: Oracle, a: Tenant) {
    var (db', t') := Advance(db, now, t, o);
    && (Owner(t) == Service(a) ==> Advance(MyDb(db, a), now, t, o) == (MyDb(db', a), t'))
    && (Owner(t) != Service(a) ==> MyDb(db', a) == MyDb(db, a))
    && Owner(t') == Owner(t)
  }

  lemma BeginSeparate(db: Db, h: History, now: Time, th: nat, t: Thread, o: Oracle, a: Tenant)
    requires DbShape(db, h) && ThreadShape(h, th, t) && Fresh(h, t, o) && t.Begin? && !t.begin.BeginPending?
    ensures Separate(db, now, t, o, a)
  {
    match t.begin
    case BeginSecret(tenant, _, _, token, _) =>
      if o.ok {
        SecretPut(db.secrets, o.ref, Secret(tenant, token, o.stamp), a);
      }
    case BeginUndo(tenant, ref) => SecretDelete(db, ref, tenant, a);
  }

  lemma BeginPendingSeparate(db: Db, h: History, now: Time, th: nat, t: Thread, o: Oracle, a: Tenant)
    requires DbShape(db, h) && ThreadShape(h, th, t) && Fresh(h, t, o) && t.Begin? && t.begin.BeginPending?
    ensures Separate(db, now, t, o, a)
  {
    var row := t.begin.row;
    if o.ok {
      assert row.flowId in db.pending ==> Flow(row.flowId) in h.bound.Values;
      PendingPut(db.pending, row, a);
    }
  }

  lemma PollReadSeparate(db: Db, now: Time, t: Thread, o: Oracle, a: Tenant)
    requires t.Poll?
    requires t.poll.PollStart? || t.poll.PollClock? || t.poll.PollToken? || t.poll.PollRemote?
    ensures Separate(db, now, t, o, a)
  {
  }

  lemma PollSecretSeparate(db: Db, h: History, now: Time, t: Thread, o: Oracle, a: Tenant)
    requires DbShape(db, h) && Fresh(h, t, o) && t.Poll? && t.poll.PollSecret?
    ensures Separate(db, now, t, o, a)
  {
    if o.ok {
      SecretPut(db.secrets, o.ref, Secret(t.poll.row.tenant, t.poll.credentials.appPassword, o.stamp), a);
    }
  }

  lemma PollConnectionSeparate(db: Db, h: History, now: Time, t: Thread, o: Oracle, a: Tenant)
    requires DbShape(db, h) && Fresh(h, t, o) && t.Poll? && t.poll.PollConnection?
    ensures Separate(db, now, t, o, a)
  {
    if o.ok {
      assert o.id in db.connections ==> Conn(o.id) in h.bound.Values;
      ConnectionPut(db.connections, NewConnection(t.poll.row, t.poll.credentials, t.poll.ref, o), a);
    }
  }

  lemma PollDropSeparate(db: Db, now: Time, t: Thread, o: Oracle, a: Tenant)
    requires t.Poll? && (t.poll.PollUndo? || t.poll.PollDropSecret? || t.poll.PollDropFlow?)
    ensures Separate(db, now, t, o, a)
  {
    var row := t.poll.row;
    match t.poll
    case PollUndo(_, ref) => SecretDelete(db, ref, row.tenant, a);
    case PollDropSecret(_, _) => SecretDelete(db, row.pollRef, row.tenant, a);
    case PollDropFlow(_, _) => PendingDelete(db, row.flowId, row.tenant, a);
  }

  lemma ListableOwn(db: Db, a: Tenant)
    ensures Listable(MyDb(db, a), a) == Listable(db, a)
  {
    forall id | id in db.connections && db.connections[id].tenant == a
      ensures id in MyDb(db, a).connections && MyDb(db, a).connections[id] == db.connections[id]
    {
    }
  }

  lemma ManageReadSeparate(db: Db, now: Time, t: Thread, o: Oracle, a: Tenant)
    requires t.Manage? && !t.manage.UpdatePut?
    ensures Separate(db, now, t, o, a)
  {
    if t.manage.ListStart? {
      ListOwn(db, a);
      ListableOwn(db, a);
    }
  }

  lemma UpdateSeparate(db: Db, h: History, now: Time, th: nat, t: Thread, o: Oracle, a: Tenant)
    requires DbShape(db, h) && ThreadShape(h, th, t) && t.Manage? && t.manage.UpdatePut?
    ensures Separate(db, now, t, o, a)
  {
    var c := t.manage.connection;
    assert c.id in db.connections ==> HoldsConn(h, db.connections[c.id]) && db.connections[c.id].id == c.id;
    UpsertSeparate(db, now, t, o, a);
  }

  lemma UpsertSeparate(db: Db, now: Time, t: Thread, o: Oracle, a: Tenant)
    requires t.Manage? && t.manage.UpdatePut?
    requires var c := t.manage.connection; c.id in db.connections ==> db.connections[c.id].tenant == c.tenant
    ensures Separate(db, now, t, o, a)
  {
    ConnectionPut(db.connections, t.manage.connection, a);
  }

  lemma DisconnectReadSeparate(db: Db, now: Time, t: Thread, o: Oracle, a: Tenant)
    requires t.Disconnect? && (t.disconnect.DisconnectStart? || t.disconnect.DisconnectGet? || t.disconnect.DisconnectRevoke?)
    ensures Separate(db, now, t, o, a)
  {
  }

  lemma DisconnectResolveSeparate(db: Db, h: History, now: Time, th: nat, t: Thread, o: Oracle, a: Tenant)
    requires ThreadShape(h, th, t)
    requires t.Disconnect? && (t.disconnect.DisconnectReread? || t.disconnect.DisconnectResolve?)
    ensures Separate(db, now, t, o, a)
  {
  }

  lemma DisconnectDropSeparate(db: Db, now: Time, t: Thread, o: Oracle, a: Tenant)
    requires t.Disconnect? && (t.disconnect.DisconnectDropSecret? || t.disconnect.DisconnectDropRow?)
    ensures Separate(db, now, t, o, a)
  {
    var c := t.disconnect.connection;
    if t.disconnect.DisconnectDropSecret? {
      SecretDelete(db, c.ref, c.tenant, a);
    } else {
      ConnectionDelete(db, c.id, c.tenant, a);
    }
  }

  // ---- cleanups ----

  lemma ExpiredOwn(db: Db, current: Time, a: Tenant)
    ensures ExpiredRows(MyDb(db, a), current) == MyRows(ExpiredRows(db, current), a)
  {
    forall row | row in MyRows(ExpiredRows(db, current), a) ensures row in ExpiredRows(MyDb(db, a), current) {
      var f :| f in db.pending && db.pending[f].expires < current && db.pending[f] == row;
      assert MyDb(db, a).pending[f] == row;
    }
  }

  /** An expired row of the cleanup and a stored row with its flow id belong to the same tenant. */
  lemma FlowsOwn(db: Db, h: History, expired: set<Pending>, flows: set<Id>, a: Tenant)
    requires DbShape(db, h) && AllHeld(h, expired)
    ensures forall f :: f in FlowIds(expired) && f in db.pending ==>
              (db.pending[f].tenant == a <==> f in FlowIds(MyRows(expired, a)))
  {
    forall f | f in FlowIds(expired) && f in db.pending
      ensures db.pending[f].tenant == a <==> f in FlowIds(MyRows(expired, a))
    {
      forall row | row in expired && row.flowId == f ensures row.tenant == db.pending[f].tenant {
        assert HoldsFlow(h, row) && HoldsFlow(h, db.pending[f]);
      }
      var row :| row in expired && row.flowId == f;
      assert row.tenant == a ==> row in MyRows(expired, a);
    }
  }

  lemma KeyedOwn(db: Db, keys: set<(Tenant, Ref)>, a: Tenant)
    ensures SecretsKeyed(MyDb(db, a), MyKeys(keys, a)) == MyKeys(SecretsKeyed(db, keys), a)
  {
    forall k | k in MyKeys(SecretsKeyed(db, keys), a) ensures k in SecretsKeyed(MyDb(db, a), MyKeys(keys, a)) {
      assert k.1 in MyDb(db, a).secrets;
    }
  }

  lemma PollKeysOwn(rows: set<Pending>, a: Tenant)
    ensures PollKeys(MyRows(rows, a)) == MyKeys(PollKeys(rows), a)
  {
    forall k | k in MyKeys(PollKeys(rows), a) ensures k in PollKeys(MyRows(rows, a)) {
      var row :| row in rows && (row.tenant, row.pollRef) == k;
      assert row in MyRows(rows, a);
    }
  }

  lemma SecretsWithoutOwn(db: Db, flows: set<Id>, gone: set<(Tenant, Ref)>, a: Tenant)
    ensures MySecrets(Without(db, flows, gone).secrets, a) == Without(MyDb(db, a), {}, MyKeys(gone, a)).secrets
  {
  }

  /** Deleting flows and looking at one tenant's rows commute, if the rows know their tenant. */
  lemma PendingWithoutOwn(pending: map<Id, Pending>, flows: set<Id>, mine: set<Id>, a: Tenant)
    requires forall f :: f in flows && f in pending ==> (pending[f].tenant == a <==> f in mine)
    ensures MyPending(pending - flows, a) == MyPending(pending, a) - flows * mine
  {
  }

  lemma WithoutParts(db: Db, flows: set<Id>, gone: set<(Tenant, Ref)>, mine: set<Id>, a: Tenant)
    requires MyPending(db.pending - flows, a) == MyPending(db.pending, a) - mine
    ensures MyDb(Without(db, flows, gone), a) == Without(MyDb(db, a), mine, MyKeys(gone, a))
  {
    SecretsWithoutOwn(db, flows, gone, a);
  }

  lemma WithoutOwn(db: Db, h: History, expired: set<Pending>, flows: set<Id>, gone: set<(Tenant, Ref)>, a: Tenant)
    requires DbShape(db, h) && AllHeld(h, expired) && flows <= FlowIds(expired)
    ensures MyDb(Without(db, flows, gone), a)
            == Without(MyDb(db, a), flows * FlowIds(MyRows(expired, a)), MyKeys(gone, a))
  {
    var mine := FlowIds(MyRows(expired, a));
    FlowsOwn(db, h, expired, flows, a);
    PendingWithoutOwn(db.pending, flows, mine, a);
    WithoutParts(db, flows, gone, flows * mine, a);
  }

  lemma ReferencedOwn(db: Db, ref: Ref, a: Tenant)
    ensures Referenced(MyDb(db, a), a, ref) == Referenced(db, a, ref)
  {
    var mine := MyDb(db, a);
    if f :| f in db.pending && db.pending[f].tenant == a && db.pending[f].pollRef == ref {
      assert mine.pending[f].pollRef == ref;
    }
    if c :| c in db.connections && db.connections[c].tenant == a && db.connections[c].ref == ref {
      assert mine.connections[c].ref == ref;
    }
  }

  lemma OrphansOwn(db: Db, cutoff: Time, a: Tenant)
    ensures OrphanKeys(MyDb(db, a), cutoff) == MyKeys(OrphanKeys(db, cutoff), a)
  {
    var mine := MyDb(db, a);
    forall k: (Tenant, Ref) ensures k in OrphanKeys(mine, cutoff) <==> k in MyKeys(OrphanKeys(db, cutoff), a) {
      ReferencedOwn(db, k.1, a);
      if k in MyKeys(OrphanKeys(db, cutoff), a) {
        assert mine.secrets[k.1] == db.secrets[k.1];
      }
    }
  }

  ghost predicate SweepCommutes(db: Db, pc: SweepPc, a: Tenant) {
    var (db', t') := SweepStep(db, pc);
    SweepStep(MyDb(db, a), MySweep(pc, a)) == (MyDb(db', a), MyThread(t', a)) && t'.Sweep?
  }

  lemma SweepReadCommutes(db: Db, h: History, pc: SweepPc, a: Tenant)
    requires DbShape(db, h) && SweepShape(h, pc) && (pc.SweepStart? || pc.SweepFlows? || pc.SweepPolls? || pc.SweepDone?)
    ensures SweepCommutes(db, pc, a)
  {
    match pc
    case SweepStart(current, _) => ExpiredOwn(db, current, a);
    case SweepFlows(_, _, expired) =>
      FlowsOwn(db, h, expired, {}, a);
      assert FlowIds(MyRows(expired, a)) * MyDb(db, a).pending.Keys
             == FlowIds(expired) * db.pending.Keys * FlowIds(MyRows(expired, a));
    case SweepPolls(_, _, expired, _) =>
      PollKeysOwn(expired, a);
      KeyedOwn(db, PollKeys(expired), a);
    case SweepDone(_, _) =>
  }

  lemma SweepSelectCommutes(db: Db, h: History, pc: SweepPc, a: Tenant)
    requires DbShape(db, h) && SweepShape(h, pc) && pc.SweepSelect?
    ensures SweepCommutes(db, pc, a)
  {
    WithoutOwn(db, h, pc.expired, pc.flows, pc.gone, a);
    OrphansOwn(Without(db, pc.flows, pc.gone), pc.cutoff, a);
    PollKeysOwn(pc.expired, a);
    var orphans := OrphanKeys(Without(db, pc.flows, pc.gone), pc.cutoff);
    assert MyKeys(orphans, a) - MyKeys(PollKeys(pc.expired), a) == MyKeys(orphans - PollKeys(pc.expired), a);
  }

  lemma SweepDropCommutes(db: Db, h: History, pc: SweepPc, a: Tenant)
    requires DbShape(db, h) && SweepShape(h, pc) && (pc.SweepOrphans? || pc.SweepCommit?)
    ensures SweepCommutes(db, pc, a)
  {
    if pc.SweepOrphans? {
      KeyedOwn(db, pc.orphans, a);
      assert MyKeys(pc.gone + SecretsKeyed(db, pc.orphans), a)
             == MyKeys(pc.gone, a) + MyKeys(SecretsKeyed(db, pc.orphans), a);
    } else {
      WithoutOwn(db, h, pc.expired, pc.flows, pc.gone, a);
    }
  }

  // ---- whole runs ----

  lemma ServiceSeparate(db: Db, h: History, now: Time, th: nat, t: Thread, o: Oracle, a: Tenant)
    requires DbShape(db, h) && ThreadShape(h, th, t) && Fresh(h, t, o) && !t.Sweep?
    ensures Separate(db, now, t, o, a)
  {
    match t
    case Begin(pc) =>
      if pc.BeginPending? {
        BeginPendingSeparate(db, h, now, th, t, o, a);
      } else {
        BeginSeparate(db, h, now, th, t, o, a);
      }
    case Poll(pc) =>
      if pc.PollSecret? {
        PollSecretSeparate(db, h, now, t, o, a);
      } else if pc.PollConnection? {
        PollConnectionSeparate(db, h, now, t, o, a);
      } else if pc.PollUndo? || pc.PollDropSecret? || pc.PollDropFlow? {
        PollDropSeparate(db, now, t, o, a);
      } else {
        PollReadSeparate(db, now, t, o, a);
      }
    case Manage(pc) =>
      if pc.UpdatePut? {
        UpdateSeparate(db, h, now, th, t, o, a);
      } else {
        ManageReadSeparate(db, now, t, o, a);
      }
    case Disconnect(pc) =>
      if pc.DisconnectDropSecret? || pc.DisconnectDropRow? {
        DisconnectDropSeparate(db, now, t, o, a);
      } else if pc.DisconnectReread? || pc.DisconnectResolve? {
        DisconnectResolveSeparate(db, h, now, th, t, o, a);
      } else {
        DisconnectReadSeparate(db, now, t, o, a);
      }
    case Done(_, _) =>
  }

  /** A step of a or of a cleanup, taken in the full system and in a's view. */
  lemma MyStep(db: Db, h: History, now: Time, th: nat, t: Thread, o: Oracle, a: Tenant)
    requires DbShape(db, h) && ThreadShape(h, th, t) && Fresh(h, t, o) && Mine(Owner(t), a)
    ensures var (db', t') := Advance(db, now, t, o);
            Advance(MyDb(db, a), now, MyThread(t, a), o) == (MyDb(db', a), MyThread(t', a)) && Owner(t') == Owner(t)
  {
    match t
    case Sweep(pc) =>
      if pc.SweepSelect? {
        SweepSelectCommutes(db, h, pc, a);
      } else if pc.SweepOrphans? || pc.SweepCommit? {
        SweepDropCommutes(db, h, pc, a);
      } else {
        SweepReadCommutes(db, h, pc, a);
      }
    case _ => ServiceSeparate(db, h, now, th, t, o, a);
  }

  /** The rows that this step commits a reference into. */
  function NewHolders(t: Thread, o: Oracle): set<Holder> {
    if !o.ok then {} else
    match t
    case Begin(BeginPending(row, _)) => {Flow(row.flowId)}
    case Poll(PollConnection(_, _, _, _)) => {Conn(o.id)}
    case _ => {}
  }

  lemma NoteAtMost(h: History, th: nat, t: Thread, o: Oracle)
    ensures Note(h, th, t, o).bound.Values <= h.bound.Values + NewHolders(t, o)
  {
  }

  lemma NoteAtLeast(h: History, th: nat, t: Thread, o: Oracle)
    requires ThreadShape(h, th, t)
    ensures h.issued.Keys <= Note(h, th, t, o).issued.Keys
    ensures h.bound.Values + NewHolders(t, o) <= Note(h, th, t, o).bound.Values
  {
    var h' := Note(h, th, t, o);
    forall x | x in h.bound.Values ensures x in h'.bound.Values {
      var q :| q in h.bound && h.bound[q] == x;
      assert h'.bound[q] == x;
    }
    match t
    case Begin(BeginPending(row, _)) => assert o.ok ==> h'.bound[row.pollRef] == Flow(row.flowId);
    case Poll(PollConnection(_, _, ref, _)) => assert o.ok ==> h'.bound[ref] == Conn(o.id);
    case _ =>
  }

  /** What the step notes is noted in both systems: the full system knows all that `a` knows. */
  lemma NoteCovers(h: History, mine: History, th: nat, t: Thread, a: Tenant, o: Oracle)
    requires mine.issued.Keys <= h.issued.Keys && mine.bound.Values <= h.bound.Values && ThreadShape(h, th, t)
    ensures Note(mine, th, MyThread(t, a), o).issued.Keys <= Note(h, th, t, o).issued.Keys
    ensures Note(mine, th, MyThread(t, a), o).bound.Values <= Note(h, th, t, o).bound.Values
  {
    NoteAtMost(mine, th, MyThread(t, a), o);
    NoteAtLeast(h, th, t, o);
  }

  lemma MyThreadsUpdate(threads: map<nat, Thread>, th: nat, t: Thread, a: Tenant)
    requires th in threads ==> Owner(threads[th]) == Owner(t)
    ensures MyThreads(threads[th := t], a)
            == if Mine(Owner(t), a) then MyThreads(threads, a)[th := MyThread(t, a)] else MyThreads(threads, a)
  {
  }

  lemma MyThreadsRemove(threads: map<nat, Thread>, th: nat, a: Tenant)
    requires th in threads
    ensures MyThreads(threads - {th}, a)
            == if Mine(Owner(threads[th]), a) then MyThreads(threads, a) - {th} else MyThreads(threads, a)
  {
  }

  lemma GoMineSeen(s: State, mine: State, e: Event, a: Tenant)
    requires Shape(s) && SeenBy(s, mine, a) && e.Go? && Enabled(s, e) && Mine(e.who, a)
    ensures Enabled(mine, e) && SeenBy(Step(s, e), Step(mine, e), a)
  {
    var t := s.threads[e.th];
    assert mine.threads[e.th] == MyThread(t, a);
    MyStep(s.db, s.h, s.now, e.th, t, e.oracle, a);
    NoteCovers(s.h, mine.h, e.th, t, a, e.oracle);
    MyThreadsUpdate(s.threads, e.th, Advance(s.db, s.now, t, e.oracle).1, a);
  }

  lemma GoOtherSeen(s: State, mine: State, e: Event, a: Tenant)
    requires Shape(s) && SeenBy(s, mine, a) && e.Go? && Enabled(s, e) && !Mine(e.who, a)
    ensures SeenBy(Step(s, e), mine, a)
  {
    var t := s.threads[e.th];
    ServiceSeparate(s.db, s.h, s.now, e.th, t, e.oracle, a);
    NoteAtLeast(s.h, e.th, t, e.oracle);
    MyThreadsUpdate(s.threads, e.th, Advance(s.db, s.now, t, e.oracle).1, a);
  }

  lemma StepSeen(s: State, mine: State, e: Event, a: Tenant)
    requires Shape(s) && SeenBy(s, mine, a) && Enabled(s, e)
    ensures e.Tick? || Mine(e.who, a) ==> Enabled(mine, e) && SeenBy(Step(s, e), Step(mine, e), a)
    ensures !e.Tick? && !Mine(e.who, a) ==> SeenBy(Step(s, e), mine, a)
  {
    match e
    case Tick(_) =>
    case Go(who, _, _) =>
      if Mine(who, a) {
        GoMineSeen(s, mine, e, a);
      } else {
        GoOtherSeen(s, mine, e, a);
      }
    case Spawn(_, th, start) => MyThreadsUpdate(s.threads, th, start, a);
    case Crash(_, th) => MyThreadsRemove(s.threads, th, a);
  }

  /**
   Erasing all other tenants from any run leaves a legal run, and tenant `a`
   sees the same rows, secrets, running calls and outcomes at its end.
   */
  lemma {:induction false} TenantsDoNotInterfere(start: Time, es: seq<Event>, a: Tenant)
    requires Legal(Init(start), es)
    ensures Legal(Init(start), MyEvents(es, a))
    ensures SeenBy(Run(Init(start), es), Run(Init(start), MyEvents(es, a)), a)
  {
    if es != [] {
      var before := es[..|es| - 1];
      var e := es[|es| - 1];
      TenantsDoNotInterfere(start, before, a);
      RunShape(Init(start), before);
      var mine := MyEvents(before, a);
      StepSeen(Run(Init(start), before), Run(Init(start), mine), e, a);
      assert (mine + [e])[..|mine + [e]| - 1] == mine;
    }
  }

  /** Two runs that differ only in what other tenants do end alike for `a`. */
  lemma SameEventsSameView(start: Time, es: seq<Event>, es': seq<Event>, a: Tenant)
    requires Legal(Init(start), es) && Legal(Init(start), es') && MyEvents(es, a) == MyEvents(es', a)
    ensures MyDb(Run(Init(start), es).db, a) == MyDb(Run(Init(start), es').db, a)
    ensures MyThreads(Run(Init(start), es).threads, a) == MyThreads(Run(Init(start), es').threads, a)
  {
    TenantsDoNotInterfere(start, es, a);
    TenantsDoNotInterfere(start, es', a);
  }
}
