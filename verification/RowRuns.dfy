/**
 What becomes of one connection row over a run: when a disconnected one stays
 away, and when a stored one cannot be read any more. An update stores any
 root; a row whose root does not fit the record makes every later read raise.
 */
module RowRuns {
  import opened Options
  import opened Roots
  import opened Tables
  import opened Lifecycle
  import opened LifecycleShape
  import opened LifecycleFindings

  function RowOf(db: Db, c: Id): Option<Connection> {
    if c in db.connections then Some(db.connections[c]) else None
  }

  // ---- what one step does to the row ----

  /** The step commits a new connection under this id. */
  predicate AddsRow(t: Thread, o: Oracle, c: Id) {
    t.Poll? && t.poll.PollConnection? && o.ok && o.id == c
  }

  lemma PollRow(db: Db, now: Time, h: History, pc: PollPc, o: Oracle, c: Id)
    requires DbShape(db, h) && Fresh(h, Poll(pc), o)
    ensures RowOf(PollStep(db, now, pc, o).0, c)
            == if AddsRow(Poll(pc), o, c) then Some(NewConnection(pc.row, pc.credentials, pc.ref, o)) else RowOf(db, c)
    ensures AddsRow(Poll(pc), o, c) ==> c !in db.connections
  {
    assert c in db.connections ==> HoldsConn(h, db.connections[c]);
    if pc.PollConnection? && o.ok {
      assert o.id in db.connections ==> HoldsConn(h, db.connections[o.id]);
    }
  }

  lemma UpdatedRow(db: Db, h: History, pc: ManagePc, o: Oracle, c: Id)
    requires ManageShape(h, pc) && DbShape(db, h)
    ensures RowOf(ManageStep(db, pc, o).0, c) == if WritesRow(Manage(pc), o, c) then Some(pc.connection) else RowOf(db, c)
  {
    if pc.UpdatePut? {
      var id := pc.connection.id;
      assert id in db.connections ==> HoldsConn(h, db.connections[id]);
    }
  }

  lemma DroppedRow(db: Db, h: History, pc: DisconnectPc, o: Oracle, c: Id)
    requires DisconnectShape(h, pc) && DbShape(db, h)
    ensures RowOf(DisconnectStep(db, pc, o).0, c) == if DropsRow(Disconnect(pc), o, c) then None else RowOf(db, c)
  {
    if pc.DisconnectDropRow? {
      var id := pc.connection.id;
      assert id in db.connections ==> HoldsConn(h, db.connections[id]);
    }
  }

  /** The row after any step of any thread. */
  function NextRow(db: Db, t: Thread, o: Oracle, c: Id): Option<Connection> {
    if WritesRow(t, o, c) then Some(t.manage.connection)
    else if DropsRow(t, o, c) then None
    else if AddsRow(t, o, c) then Some(NewConnection(t.poll.row, t.poll.credentials, t.poll.ref, o))
    else RowOf(db, c)
  }

  lemma RowAfter(db: Db, now: Time, h: History, th: nat, t: Thread, o: Oracle, c: Id)
    requires ThreadShape(h, th, t) && DbShape(db, h) && Fresh(h, t, o)
    ensures RowOf(Advance(db, now, t, o).0, c) == NextRow(db, t, o, c)
    ensures AddsRow(t, o, c) ==> c !in db.connections
  {
    match t
    case Poll(pc) => PollRow(db, now, h, pc, o, c);
    case Manage(pc) => UpdatedRow(db, h, pc, o, c);
    case Disconnect(pc) => DroppedRow(db, h, pc, o, c);
    case _ =>
  }

  // ---- a dropped row stays away ----

  /** No update of `c` is between its read and its write. */
  predicate NoUpdate(threads: map<nat, Thread>, c: Id) {
    forall th :: th in threads ==> !Updates(threads[th], c)
  }

  predicate Updates(t: Thread, c: Id) {
    t.Manage? && t.manage.UpdatePut? && t.manage.connection.id == c
  }

  /** A step makes its thread an update of `c` only by reading the row. */
  lemma UpdateNeedsRow(db: Db, h: History, now: Time, t: Thread, o: Oracle, c: Id)
    requires DbShape(db, h) && Updates(Advance(db, now, t, o).1, c)
    ensures c in db.connections || Updates(t, c)
  {
  }

  lemma AbsentStep(s: State, e: Event, c: Id)
    requires Shape(s) && Enabled(s, e) && Known(s.h, c)
    requires c !in s.db.connections && NoUpdate(s.threads, c)
    ensures Known(Step(s, e).h, c) && c !in Step(s, e).db.connections && NoUpdate(Step(s, e).threads, c)
  {
    PresenceStep(s, e, c);
    if e.Go? {
      assert !Updates(s.threads[e.th], c);
      var t' := Advance(s.db, s.now, s.threads[e.th], e.oracle).1;
      if Updates(t', c) {
        UpdateNeedsRow(s.db, s.h, s.now, s.threads[e.th], e.oracle, c);
      }
    }
  }

  lemma {:induction false} AbsentStays(s: State, es: seq<Event>, c: Id)
    requires Shape(s) && Legal(s, es) && Known(s.h, c) && c !in s.db.connections && NoUpdate(s.threads, c)
    ensures Known(Run(s, es).h, c) && c !in Run(s, es).db.connections && NoUpdate(Run(s, es).threads, c)
  {
    if es != [] {
      var init := es[..|es| - 1];
      AbsentStays(s, init, c);
      RunShape(s, init);
      AbsentStep(Run(s, init), es[|es| - 1], c);
    }
  }

  /**
   If no update of the connection has read it and not yet written when a
   disconnect drops its row, the row stays away for the rest of every run.
   */
  lemma QuietDropIsFinal(s: State, drop: Event, es: seq<Event>, c: Id)
    requires Shape(s) && Enabled(s, drop) && Drops(s, drop, c) && NoUpdate(s.threads, c)
    requires Legal(Step(s, drop), es)
    ensures c !in Run(Step(s, drop), es).db.connections
  {
    DropKnows(s, drop, c);
    StepShape(s, drop);
    AbsentStays(Step(s, drop), es, c);
  }

  // ---- rows that cannot be read ----

  /** The row is stored and reading it raises. */
  predicate Unreadable(db: Db, c: Id) {
    c in db.connections && !RootFits(db.connections[c].root)
  }

  predicate ThreadFits(t: Thread) {
    match t
    case Begin(pc) => pc.BeginPending? ==> RootFits(pc.row.root)
    case Poll(pc) => !pc.PollStart? ==> RootFits(pc.row.root)
    case _ => true
  }

  /** Flows, and the calls that work on them, have roots that fit. */
  ghost predicate FlowsFit(s: State) {
    && (forall f :: f in s.db.pending ==> RootFits(s.db.pending[f].root))
    && forall th :: th in s.threads ==> ThreadFits(s.threads[th])
  }

  lemma AdvanceFits(db: Db, now: Time, t: Thread, o: Oracle)
    requires (forall f :: f in db.pending ==> RootFits(db.pending[f].root)) && ThreadFits(t)
    ensures var (db', t') := Advance(db, now, t, o);
            (forall f :: f in db'.pending ==> RootFits(db'.pending[f].root)) && ThreadFits(t')
  {
  }

  lemma {:induction false} RunFits(start: Time, es: seq<Event>)
    requires Legal(Init(start), es)
    ensures FlowsFit(Run(Init(start), es))
  {
    if es != [] {
      var s, e := Run(Init(start), es[..|es| - 1]), es[|es| - 1];
      RunFits(start, es[..|es| - 1]);
      if e.Go? {
        AdvanceFits(s.db, s.now, s.threads[e.th], e.oracle);
      }
    }
  }

  /** The event commits an update of `c` with a root that does not fit. */
  predicate WritesLong(s: State, e: Event, c: Id) {
    Writes(s, e, c) && !RootFits(s.threads[e.th].manage.connection.root)
  }

  lemma UnreadableStep(s: State, e: Event, c: Id)
    requires Shape(s) && FlowsFit(s) && Enabled(s, e)
    ensures Unreadable(Step(s, e).db, c)
            <==> WritesLong(s, e, c) || (Unreadable(s.db, c) && !Writes(s, e, c) && !Drops(s, e, c))
  {
    if e.Go? {
      var t := s.threads[e.th];
      assert ThreadShape(s.h, e.th, t) && ThreadFits(t);
      RowAfter(s.db, s.now, s.h, e.th, t, e.oracle, c);
    }
  }

  predicate WritesLongAt(s: State, es: seq<Event>, i: nat, c: Id) {
    i < |es| && WritesLong(Run(s, es[..i]), es[i], c)
  }

  /** Event `j` is the last write of the row, and its root does not fit. */
  ghost predicate SpoiltAt(start: Time, es: seq<Event>, j: nat, c: Id) {
    && WritesLongAt(Init(start), es, j, c)
    && forall k: nat :: j < k ==> !WritesAt(Init(start), es, k, c) && !DropsAt(Init(start), es, k, c)
  }

  ghost predicate Spoilt(start: Time, es: seq<Event>, c: Id) {
    exists j: nat :: SpoiltAt(start, es, j, c)
  }

  lemma SpoiltNext(start: Time, es: seq<Event>, c: Id)
    requires es != []
    ensures var n := |es| - 1;
            Spoilt(start, es, c)
            <==> || WritesLongAt(Init(start), es, n, c)
                 || (Spoilt(start, es[..n], c) && !WritesAt(Init(start), es, n, c) && !DropsAt(Init(start), es, n, c))
  {
    var n := |es| - 1;
    forall k: nat | k < n
      ensures WritesLongAt(Init(start), es, k, c) == WritesLongAt(Init(start), es[..n], k, c)
      ensures WritesAt(Init(start), es, k, c) == WritesAt(Init(start), es[..n], k, c)
      ensures DropsAt(Init(start), es, k, c) == DropsAt(Init(start), es[..n], k, c)
    {
      assert es[..n][..k] == es[..k];
    }
    if WritesLongAt(Init(start), es, n, c) {
      assert SpoiltAt(start, es, n, c);
    }
    if j: nat :| SpoiltAt(start, es, j, c) {
      assert j < n ==> SpoiltAt(start, es[..n], j, c);
    }
    if j: nat :| SpoiltAt(start, es[..n], j, c) {
      if !WritesAt(Init(start), es, n, c) && !DropsAt(Init(start), es, n, c) {
        assert SpoiltAt(start, es, j, c);
      }
    }
  }

  /**
   Over every run, a stored connection cannot be read if and only if the last
   write of its row was an update with a root that does not fit.
   */
  lemma {:induction false} UnreadableIffSpoilt(start: Time, es: seq<Event>, c: Id)
    requires Legal(Init(start), es)
    ensures Unreadable(Run(Init(start), es).db, c) <==> Spoilt(start, es, c)
  {
    if es != [] {
      var n := |es| - 1;
      UnreadableIffSpoilt(start, es[..n], c);
      RunShape(Init(start), es[..n]);
      RunFits(start, es[..n]);
      UnreadableStep(Run(Init(start), es[..n]), es[n], c);
      SpoiltNext(start, es, c);
    }
  }

  /** It takes one update: from every reachable state, any readable row can be spoilt by any root that does not fit. */
  lemma UpdateCanSpoil(s: State, c: Id, u: nat, root: string)
    requires Shape(s) && c in s.db.connections && RootFits(s.db.connections[c].root) && u !in s.threads && !RootFits(root)
    ensures exists s' :: Leads(s, s') && Unreadable(s'.db, c)
                         && u in s'.threads && s'.threads[u].Done? && s'.threads[u].outcome.Updated?
  {
    var row := s.db.connections[c];
    assert HoldsConn(s.h, row);
    hide Leads;
    var start, put := Manage(UpdateStart(row.tenant, c, Some(root))), Manage(UpdatePut(row.(root := root)));
    Here(s);
    Enter(s, s, u, start);
    Move(s, s, u, start, SMOOTH, put);
    var go := Go(Service(row.tenant), u, SMOOTH);
    Extend(s, With(s, u, put), go);
    var s' := Step(With(s, u, put), go);
    assert s'.db.connections[c].root == root;
  }

  // ---- what an unreadable row does ----

  /** No call is past its read of the row with an update or a disconnect. */
  predicate Untouched(threads: map<nat, Thread>, c: Id) {
    forall th :: th in threads ==> !Touches(threads[th], c)
  }

  predicate Touches(t: Thread, c: Id) {
    || (t.Manage? && (t.manage.UpdatePut? || t.manage.ResolveSecret?) && t.manage.connection.id == c)
    || (t.Disconnect? && !t.disconnect.DisconnectStart? && t.disconnect.connection.id == c)
  }

  /** The answer says that the row has been read: by a listing of its tenant, an update or a disconnect. */
  predicate Serves(caller: Tenant, outcome: Outcome, tenant: Tenant, c: Id) {
    match outcome
    case Listed(_) => caller == tenant
    case Updated(summary) => summary.id == c
    case Disconnected(id, _) => id == c
    case _ => false
  }

  /** The call has such an answer. */
  predicate Served(t: Thread, tenant: Tenant, c: Id) {
    match t
    case Done(caller, outcome) => Serves(caller, outcome, tenant, c)
    case Poll(PollDropSecret(row, outcome)) => Serves(row.tenant, outcome, tenant, c)
    case Poll(PollDropFlow(row, outcome)) => Serves(row.tenant, outcome, tenant, c)
    case _ => false
  }

  /** Nothing is served that was not served before. */
  ghost predicate Fruitless(s: State, s': State, tenant: Tenant, c: Id) {
    forall th :: th in s'.threads && Served(s'.threads[th], tenant, c) ==>
                   th in s.threads && Served(s.threads[th], tenant, c)
  }

  lemma UnservedStep(db: Db, h: History, now: Time, th: nat, t: Thread, o: Oracle, c: Id)
    requires DbShape(db, h) && ThreadShape(h, th, t) && Unreadable(db, c) && !Touches(t, c)
    ensures !Touches(Advance(db, now, t, o).1, c)
    ensures Served(Advance(db, now, t, o).1, db.connections[c].tenant, c) ==> Served(t, db.connections[c].tenant, c)
  {
    match t
    case Poll(pc) => UnservedPoll(db, now, pc, o, db.connections[c].tenant, c);
    case Manage(pc) => UnservedManage(db, h, pc, o, c);
    case Disconnect(pc) => UnservedDisconnect(db, h, pc, o, c);
    case _ =>
  }

  lemma UnservedPoll(db: Db, now: Time, pc: PollPc, o: Oracle, tenant: Tenant, c: Id)
    ensures !Touches(PollStep(db, now, pc, o).1, c)
    ensures Served(PollStep(db, now, pc, o).1, tenant, c) ==> Served(Poll(pc), tenant, c)
  {
  }

  lemma UnservedList(db: Db, tenant: Tenant, o: Oracle, c: Id)
    requires Unreadable(db, c)
    ensures var t := ManageStep(db, ListStart(tenant), o).1; !Touches(t, c) && !Served(t, db.connections[c].tenant, c)
  {
    assert tenant == db.connections[c].tenant ==> !Listable(db, tenant);
  }

  lemma UnservedUpdate(db: Db, h: History, pc: ManagePc, o: Oracle, c: Id)
    requires DbShape(db, h) && Unreadable(db, c) && !Touches(Manage(pc), c) && !pc.ListStart?
    ensures var t := ManageStep(db, pc, o).1; !Touches(t, c) && !Served(t, db.connections[c].tenant, c)
  {
  }

  lemma UnservedManage(db: Db, h: History, pc: ManagePc, o: Oracle, c: Id)
    requires DbShape(db, h) && Unreadable(db, c) && !Touches(Manage(pc), c)
    ensures var t := ManageStep(db, pc, o).1; !Touches(t, c) && !Served(t, db.connections[c].tenant, c)
  {
    if pc.ListStart? {
      UnservedList(db, pc.tenant, o, c);
    } else {
      UnservedUpdate(db, h, pc, o, c);
    }
  }

  lemma UnservedDisconnect(db: Db, h: History, pc: DisconnectPc, o: Oracle, c: Id)
    requires DbShape(db, h) && DisconnectShape(h, pc) && Unreadable(db, c) && !Touches(Disconnect(pc), c)
    ensures !Touches(DisconnectStep(db, pc, o).1, c) && !Served(DisconnectStep(db, pc, o).1, db.connections[c].tenant, c)
  {
  }

  /** The row as it was, nobody past a read of it, and no new answer that says that it has been read. */
  ghost predicate Stuck(s: State, s': State, c: Id) {
    && Unreadable(s.db, c) && RowOf(s'.db, c) == RowOf(s.db, c)
    && Untouched(s'.threads, c) && Fruitless(s, s', s.db.connections[c].tenant, c)
  }

  lemma StuckStep(s: State, s': State, e: Event, c: Id)
    requires Stuck(s, s', c) && Shape(s') && Enabled(s', e)
    ensures Stuck(s, Step(s', e), c)
  {
    if e.Go? {
      var t := s'.threads[e.th];
      assert ThreadShape(s'.h, e.th, t) && !Touches(t, c);
      RowAfter(s'.db, s'.now, s'.h, e.th, t, e.oracle, c);
      UnservedStep(s'.db, s'.h, s'.now, e.th, t, e.oracle, c);
    }
  }

  /**
   Once a row is unreadable and no update or disconnect is past its read of
   it, it is there for good, in every run: nothing changes or removes it, and
   no call answers any more with a listing of its tenant's connections, with an
   update of it or with a disconnect of it.
   */
  lemma {:induction false} UnreadableIsForGood(s: State, es: seq<Event>, c: Id)
    requires Shape(s) && Unreadable(s.db, c) && Untouched(s.threads, c)
    requires Legal(s, es)
    ensures Stuck(s, Run(s, es), c)
  {
    if es != [] {
      var init := es[..|es| - 1];
      UnreadableIsForGood(s, init, c);
      RunShape(s, init);
      StuckStep(s, Run(s, init), es[|es| - 1], c);
    }
  }
}
