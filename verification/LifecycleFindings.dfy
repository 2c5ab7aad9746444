/**
 The edge of the garbage-collection guarantee: from any state, an update that
 races with a disconnect can leave a connection without a secret, and a commit
 later than the grace period lets a cleanup take the secret of a live row.
 */
module LifecycleFindings {
  import opened Options
  import opened Roots
  import opened Tables
  import opened Lifecycle
  import opened LifecycleShape

  /** Some legal continuation of `s` ends in `s'`. */
  ghost predicate Leads(s: State, s': State) {
    exists es :: Legal(s, es) && Run(s, es) == s'
  }

  lemma Here(s: State)
    ensures Leads(s, s)
  {
    assert Legal(s, []) && Run(s, []) == s;
  }

  lemma Extend(s: State, s': State, e: Event)
    requires Leads(s, s') && Enabled(s', e)
    ensures Leads(s, Step(s', e))
  {
    var es :| Legal(s, es) && Run(s, es) == s';
    var longer := es + [e];
    assert longer[..|longer| - 1] == es;
    assert Legal(s, longer) && Run(s, longer) == Step(s', e);
  }

  function With(s: State, th: nat, t: Thread): State {
    s.(threads := s.threads[th := t])
  }

  /** A step of `th` that only moves its program counter from `t` to `t'`. */
  lemma Move(s: State, base: State, th: nat, t: Thread, o: Oracle, t': Thread)
    requires Leads(s, With(base, th, t)) && Fresh(base.h, t, o)
    requires Advance(base.db, base.now, t, o) == (base.db, t') && Note(base.h, th, t, o) == base.h
    ensures Leads(s, With(base, th, t'))
  {
    Extend(s, With(base, th, t), Go(Owner(t), th, o));
    assert Step(With(base, th, t), Go(Owner(t), th, o)) == With(base, th, t');
  }

  /** A call enters the system. */
  lemma Enter(s: State, s': State, th: nat, t: Thread)
    requires Leads(s, s') && th !in s'.threads && IsStart(t) && !t.Sweep?
    ensures Leads(s, With(s', th, t))
  {
    Extend(s, s', Spawn(Owner(t), th, t));
  }

  const SMOOTH := Oracle(true, "", "", 0, NotYet, true)

  // ---- update_root_path against disconnect ----

  lemma UpdateReads(s: State, c: Connection, u: nat)
    requires c.id in s.db.connections && s.db.connections[c.id] == c && RootFits(c.root) && u !in s.threads
    ensures Leads(s, With(s, u, Manage(UpdatePut(c))))
  {
    Here(s);
    var start := Manage(UpdateStart(c.tenant, c.id, Some(c.root)));
    Enter(s, s, u, start);
    Move(s, s, u, start, SMOOTH, Manage(UpdatePut(c)));
  }

  lemma DisconnectMove(s: State, base: State, d: nat, pc: DisconnectPc, pc': DisconnectPc)
    requires Leads(s, With(base, d, Disconnect(pc))) && !pc.DisconnectDropSecret?
    requires DisconnectStep(base.db, pc, SMOOTH) == (base.db, Disconnect(pc'))
    ensures Leads(s, With(base, d, Disconnect(pc')))
  {
    Move(s, base, d, Disconnect(pc), SMOOTH, Disconnect(pc'));
  }

  /** From its start to its two deletions, a disconnect whose secret is readable only reads. */
  lemma DisconnectReads(s: State, base: State, c: Connection, d: nat) returns (revoked: bool)
    requires Leads(s, base) && c.id in base.db.connections && base.db.connections[c.id] == c && d !in base.threads
    requires RootFits(c.root) && c.ref in base.db.secrets && base.db.secrets[c.ref].tenant == c.tenant
    ensures Leads(s, With(base, d, Disconnect(DisconnectDropSecret(c, revoked))))
  {
    Enter(s, base, d, Disconnect(DisconnectStart(c.tenant, c.id)));
    DisconnectMove(s, base, d, DisconnectStart(c.tenant, c.id), DisconnectGet(c));
    DisconnectMove(s, base, d, DisconnectGet(c), DisconnectReread(c));
    DisconnectMove(s, base, d, DisconnectReread(c), DisconnectResolve(c, c));
    revoked := DisconnectRevokes(s, base, c, d);
  }

  /** The attempt to revoke the credentials, which the settings may refuse. */
  lemma DisconnectRevokes(s: State, base: State, c: Connection, d: nat) returns (revoked: bool)
    requires Leads(s, With(base, d, Disconnect(DisconnectResolve(c, c))))
    requires c.ref in base.db.secrets && base.db.secrets[c.ref].tenant == c.tenant
    ensures Leads(s, With(base, d, Disconnect(DisconnectDropSecret(c, revoked))))
  {
    revoked := SettingsRoot(c.root).Some?;
    if revoked {
      DisconnectMove(s, base, d, DisconnectResolve(c, c), DisconnectRevoke(c));
      DisconnectMove(s, base, d, DisconnectRevoke(c), DisconnectDropSecret(c, true));
    } else {
      DisconnectMove(s, base, d, DisconnectResolve(c, c), DisconnectDropSecret(c, false));
    }
  }

  /** The two deletions of a disconnect. */
  lemma DisconnectDrops(s: State, base: State, c: Connection, d: nat, revoked: bool) returns (s': State)
    requires Leads(s, With(base, d, Disconnect(DisconnectDropSecret(c, revoked))))
    requires c.ref in base.db.secrets && base.db.secrets[c.ref].tenant == c.tenant
    requires c.id in base.db.connections && base.db.connections[c.id] == c
    ensures Leads(s, s') && s'.threads == base.threads[d := Done(c.tenant, Disconnected(c.id, revoked))]
    ensures c.ref !in s'.db.secrets && c.id !in s'.db.connections
  {
    hide Leads;
    var go := Go(Service(c.tenant), d, SMOOTH);
    var s1 := With(base, d, Disconnect(DisconnectDropSecret(c, revoked)));
    Extend(s, s1, go);
    var s2 := Step(s1, go);
    assert s2.threads[d] == Disconnect(DisconnectDropRow(c, revoked)) && s2.db == DeleteSecret(base.db, c.ref, c.tenant);
    Extend(s, s2, go);
    s' := Step(s2, go);
  }

  /** A connection row whose secret is gone, although no call is still working on it. */
  ghost predicate Stranded(s: State, id: Id, u: nat, d: nat) {
    && id in s.db.connections && GetSecret(s.db, s.db.connections[id].ref, s.db.connections[id].tenant).None?
    && u in s.threads && s.threads[u].Done? && s.threads[u].outcome.Updated?
    && d in s.threads && s.threads[d].Done? && s.threads[d].outcome.Disconnected?
  }

  /**
   Every readable connection with a secret can be stranded: an update reads its row, a
   disconnect runs to its end, and the update then writes the row back.
   */
  lemma UpdateRevivesDisconnected(s: State, id: Id, u: nat, d: nat)
    requires Shape(s) && id in s.db.connections && s.db.connections[id].ref in s.db.secrets
    requires RootFits(s.db.connections[id].root)
    requires u !in s.threads && d !in s.threads && u != d
    ensures exists s' :: Leads(s, s') && Stranded(s', id, u, d)
  {
    var c := s.db.connections[id];
    assert HoldsConn(s.h, c) && c.id == id;
    UpdateReads(s, c, u);
    var s1 := With(s, u, Manage(UpdatePut(c)));
    var revoked := DisconnectReads(s, s1, c, d);
    var s2 := DisconnectDrops(s, s1, c, d, revoked);
    Rewrite(s, s2, c, u, d, revoked);
  }

  lemma Rewrite(s: State, s4: State, c: Connection, u: nat, d: nat, revoked: bool)
    requires Leads(s, s4) && u in s4.threads && s4.threads[u] == Manage(UpdatePut(c)) && c.id !in s4.db.connections
    requires d in s4.threads && s4.threads[d] == Done(c.tenant, Disconnected(c.id, revoked)) && u != d
    requires c.ref !in s4.db.secrets
    ensures exists s' :: Leads(s, s') && Stranded(s', c.id, u, d)
  {
    var put := Go(Service(c.tenant), u, SMOOTH);
    Extend(s, s4, put);
    assert Stranded(Step(s4, put), c.id, u, d);
  }

  /** The event commits an update of connection `c`. */
  predicate Writes(s: State, e: Event, c: Id) {
    && e.Go? && e.oracle.ok && e.th in s.threads && s.threads[e.th].Manage? && s.threads[e.th].manage.UpdatePut?
    && s.threads[e.th].manage.connection.id == c
  }

  /** The event commits the last deletion of a disconnect of `c`, which then reports success. */
  predicate Drops(s: State, e: Event, c: Id) {
    && e.Go? && e.oracle.ok && e.th in s.threads && s.threads[e.th].Disconnect?
    && s.threads[e.th].disconnect.DisconnectDropRow? && s.threads[e.th].disconnect.connection.id == c
  }

  predicate WritesAt(s: State, es: seq<Event>, i: nat, c: Id) {
    i < |es| && Writes(Run(s, es[..i]), es[i], c)
  }

  predicate DropsAt(s: State, es: seq<Event>, i: nat, c: Id) {
    i < |es| && Drops(Run(s, es[..i]), es[i], c)
  }

  /** The holder `Conn(c)` has been committed once, so no poll can draw the id again. */
  ghost predicate Known(h: History, c: Id) {
    exists ref :: ref in h.bound && h.bound[ref] == Conn(c)
  }

  lemma DropKnows(s: State, e: Event, c: Id)
    requires Shape(s) && Drops(s, e, c)
    ensures Known(Step(s, e).h, c) && c !in Step(s, e).db.connections
  {
    var conn := s.threads[e.th].disconnect.connection;
    assert HoldsConn(s.h, conn);
    assert c in s.db.connections ==> HoldsConn(s.h, s.db.connections[c]);
  }

  /** From then on only an update brings the row back, and only a disconnect takes it away. */
  lemma PresenceStep(s: State, e: Event, c: Id)
    requires Shape(s) && Enabled(s, e) && Known(s.h, c)
    ensures Known(Step(s, e).h, c)
    ensures c in Step(s, e).db.connections <==> Writes(s, e, c) || (c in s.db.connections && !Drops(s, e, c))
  {
    if e.Go? {
      var t := s.threads[e.th];
      assert ThreadShape(s.h, e.th, t);
      assert c in s.db.connections ==> HoldsConn(s.h, s.db.connections[c]);
      KnownStays(s, e, c);
      RowStep(s.db, s.now, s.h, e.th, t, e.oracle, c);
    }
  }

  lemma KnownStays(s: State, e: Event, c: Id)
    requires Known(s.h, c) && Enabled(s, e) && e.Go? && Shape(s)
    ensures Known(Step(s, e).h, c)
  {
    var ref :| ref in s.h.bound && s.h.bound[ref] == Conn(c);
    assert ThreadShape(s.h, e.th, s.threads[e.th]);
    assert ref in Step(s, e).h.bound && Step(s, e).h.bound[ref] == Conn(c);
  }

  predicate WritesRow(t: Thread, o: Oracle, c: Id) {
    t.Manage? && t.manage.UpdatePut? && o.ok && t.manage.connection.id == c
  }

  predicate DropsRow(t: Thread, o: Oracle, c: Id) {
    t.Disconnect? && t.disconnect.DisconnectDropRow? && o.ok && t.disconnect.connection.id == c
  }

  lemma PollKeepsRow(db: Db, now: Time, h: History, pc: PollPc, o: Oracle, c: Id)
    requires Known(h, c) && Fresh(h, Poll(pc), o)
    ensures c in PollStep(db, now, pc, o).0.connections <==> c in db.connections
  {
    if pc.PollConnection? && o.ok {
      assert o.id != c;
    }
  }

  lemma ManageRow(db: Db, h: History, pc: ManagePc, o: Oracle, c: Id)
    requires ManageShape(h, pc) && DbShape(db, h)
    ensures c in ManageStep(db, pc, o).0.connections <==> c in db.connections || WritesRow(Manage(pc), o, c)
  {
    if pc.UpdatePut? {
      var id := pc.connection.id;
      assert id in db.connections ==> HoldsConn(h, db.connections[id]);
    }
  }

  lemma DisconnectRow(db: Db, h: History, pc: DisconnectPc, o: Oracle, c: Id)
    requires DisconnectShape(h, pc) && DbShape(db, h)
    ensures c in DisconnectStep(db, pc, o).0.connections <==> c in db.connections && !DropsRow(Disconnect(pc), o, c)
  {
    if pc.DisconnectDropRow? {
      var id := pc.connection.id;
      assert id in db.connections ==> HoldsConn(h, db.connections[id]);
    }
  }

  lemma RowStep(db: Db, now: Time, h: History, th: nat, t: Thread, o: Oracle, c: Id)
    requires ThreadShape(h, th, t) && Known(h, c) && Fresh(h, t, o) && DbShape(db, h)
    ensures c in Advance(db, now, t, o).0.connections
            <==> WritesRow(t, o, c) || (c in db.connections && !DropsRow(t, o, c))
  {
    match t
    case Poll(pc) => PollKeepsRow(db, now, h, pc, o, c);
    case Manage(pc) => ManageRow(db, h, pc, o, c);
    case Disconnect(pc) => DisconnectRow(db, h, pc, o, c);
    case _ =>
  }

  lemma {:induction false} KnownAfter(start: Time, es: seq<Event>, i: nat, c: Id)
    requires Legal(Init(start), es) && DropsAt(Init(start), es, i, c)
    ensures Known(Run(Init(start), es).h, c)
  {
    var n := |es| - 1;
    var s := Run(Init(start), es[..n]);
    RunShape(Init(start), es[..n]);
    if i == n {
      DropKnows(s, es[n], c);
    } else {
      assert es[..n][..i] == es[..i];
      KnownAfter(start, es[..n], i, c);
      PresenceStep(s, es[n], c);
    }
  }

  /** An update of `c` has committed after event `i` and no disconnect of `c` since. */
  ghost predicate RewrittenSince(start: Time, es: seq<Event>, i: nat, c: Id) {
    exists j: nat :: i < j && RewrittenAt(start, es, j, c)
  }

  ghost predicate RewrittenAt(start: Time, es: seq<Event>, j: nat, c: Id) {
    WritesAt(Init(start), es, j, c) && forall k: nat :: j < k ==> !DropsAt(Init(start), es, k, c)
  }

  /** One more event. */
  lemma RewrittenNext(start: Time, es: seq<Event>, i: nat, c: Id)
    requires i < |es| - 1
    ensures var n := |es| - 1;
            RewrittenSince(start, es, i, c)
            <==> WritesAt(Init(start), es, n, c)
                 || (RewrittenSince(start, es[..n], i, c) && !DropsAt(Init(start), es, n, c))
  {
    var n := |es| - 1;
    forall k: nat | k < n
      ensures WritesAt(Init(start), es, k, c) == WritesAt(Init(start), es[..n], k, c)
      ensures DropsAt(Init(start), es, k, c) == DropsAt(Init(start), es[..n], k, c)
    {
      assert es[..n][..k] == es[..k];
    }
    if WritesAt(Init(start), es, n, c) {
      assert RewrittenAt(start, es, n, c);
    }
    forall j: nat | i < j < n
      ensures RewrittenAt(start, es, j, c) <==> RewrittenAt(start, es[..n], j, c) && !DropsAt(Init(start), es, n, c)
    {
    }
    if RewrittenSince(start, es, i, c) {
      var j: nat :| i < j && RewrittenAt(start, es, j, c);
    }
    if RewrittenSince(start, es[..n], i, c) {
      var j: nat :| i < j && RewrittenAt(start, es[..n], j, c);
      assert RewrittenAt(start, es, j, c) <==> !DropsAt(Init(start), es, n, c);
    }
  }

  /**
   After a disconnect has reported success its row is present if and only if
   an update of the same connection has committed since, and no disconnect
   after that update.
   */
  lemma {:induction false} PresentIffRewritten(start: Time, es: seq<Event>, i: nat, c: Id)
    requires Legal(Init(start), es) && DropsAt(Init(start), es, i, c)
    ensures c in Run(Init(start), es).db.connections <==> RewrittenSince(start, es, i, c)
  {
    var n := |es| - 1;
    var s := Run(Init(start), es[..n]);
    RunShape(Init(start), es[..n]);
    if i == n {
      DropKnows(s, es[n], c);
    } else {
      assert es[..n][..i] == es[..i];
      PresentIffRewritten(start, es[..n], i, c);
      KnownAfter(start, es[..n], i, c);
      PresenceStep(s, es[n], c);
      RewrittenNext(start, es, i, c);
    }
  }

  // ---- a commit after the grace period ----

  lemma SweepMove(s: State, base: State, w: nat, pc: SweepPc)
    requires Leads(s, With(base, w, Sweep(pc))) && !pc.SweepCommit?
    ensures Leads(s, With(base, w, SweepStep(base.db, pc).1))
  {
    Move(s, base, w, Sweep(pc), SMOOTH, SweepStep(base.db, pc).1);
  }

  /** Where a cleanup stands after its first two deletions. */
  function Pruned(db: Db, current: Time, grace: Time): SweepPc {
    var expired := ExpiredRows(db, current);
    SweepSelect(current, current - grace, expired, FlowIds(expired) * db.pending.Keys,
                SecretsKeyed(db, PollKeys(expired)))
  }

  /** Where a cleanup stands when only its commit is left. */
  function Swept(db: Db, current: Time, grace: Time): SweepPc {
    var p := Pruned(db, current, grace);
    var orphans := OrphanKeys(Without(db, p.flows, p.gone), current - grace) - PollKeys(p.expired);
    SweepCommit(current, p.expired, p.flows, p.gone + SecretsKeyed(db, orphans), orphans)
  }

  lemma SweepPrunes(s: State, base: State, w: nat, current: Time, grace: Time)
    requires Leads(s, base) && w !in base.threads && current <= base.now
    ensures Leads(s, With(base, w, Sweep(Pruned(base.db, current, grace))))
  {
    var p0 := SweepStart(current, grace);
    var p1 := SweepStep(base.db, p0).1.sweep;
    var p2 := SweepStep(base.db, p1).1.sweep;
    Extend(s, base, Spawn(Janitor, w, Sweep(p0)));
    SweepMove(s, base, w, p0);
    SweepMove(s, base, w, p1);
    SweepMove(s, base, w, p2);
  }

  lemma SweepReads(s: State, base: State, w: nat, current: Time, grace: Time)
    requires Leads(s, base) && w !in base.threads && current <= base.now
    ensures Leads(s, With(base, w, Sweep(Swept(base.db, current, grace))))
  {
    SweepPrunes(s, base, w, current, grace);
    var p3 := Pruned(base.db, current, grace);
    var p4 := SweepStep(base.db, p3).1.sweep;
    SweepMove(s, base, w, p3);
    SweepMove(s, base, w, p4);
  }

  /** A connection that no disconnect has touched, without its secret. */
  ghost predicate Bereft(s: State, id: Id) {
    && id in s.db.connections && Conn(id) !in s.h.severed
    && GetSecret(s.db, s.db.connections[id].ref, s.db.connections[id].tenant).None?
  }

  /**
   The time limit is needed for every poll: if a poll that has stored its
   secret pauses until the grace period is over, a cleanup takes the secret
   and the connection is committed without it.
   */
  lemma LateCommitLosesSecret(s: State, p: nat, w: nat, id: Id, grace: Time)
    requires Shape(s) && p in s.threads && s.threads[p].Poll? && s.threads[p].poll.PollConnection?
    requires w !in s.threads && Conn(id) !in s.h.bound.Values && Conn(id) !in s.h.severed
    ensures exists s' :: Leads(s, s') && Bereft(s', id)
  {
    var pc := s.threads[p].poll;
    var late := if s.now <= pc.stamp + grace then pc.stamp + grace + 1 else s.now;
    Here(s);
    Extend(s, s, Tick(late));
    var s1 := s.(now := late);
    SweepReads(s, s1, w, late, grace);
    PledgedIsSwept(s1, p, late, grace);
    SweepCommits(s, s1, p, w, Swept(s1.db, late, grace), id);
  }

  /** A pledged secret older than the grace period is an orphan. */
  lemma PledgedIsSwept(s: State, p: nat, current: Time, grace: Time)
    requires Shape(s) && p in s.threads && s.threads[p].Poll? && s.threads[p].poll.PollConnection?
    requires s.threads[p].poll.stamp + grace < current
    ensures s.threads[p].poll.ref in s.db.secrets ==>
              (s.db.secrets[s.threads[p].poll.ref].tenant, s.threads[p].poll.ref) in Swept(s.db, current, grace).gone
  {
    var ref := s.threads[p].poll.ref;
    assert PollShape(s.h, p, s.threads[p].poll);
    assert forall f :: f in s.db.pending ==> s.db.pending[f].pollRef != ref;
    assert forall c :: c in s.db.connections ==> s.db.connections[c].ref != ref;
    var expired := ExpiredRows(s.db, current);
    var polls := SecretsKeyed(s.db, PollKeys(expired));
    var seen := Without(s.db, FlowIds(expired) * s.db.pending.Keys, polls);
    if ref in s.db.secrets && (s.db.secrets[ref].tenant, ref) !in polls {
      var tenant := s.db.secrets[ref].tenant;
      assert ref in seen.secrets && !Referenced(seen, tenant, ref);
      assert (tenant, ref) in OrphanKeys(seen, current - grace) - PollKeys(expired);
    }
  }

  lemma SweepCommits(s: State, base: State, p: nat, w: nat, sweep: SweepPc, id: Id)
    requires Leads(s, With(base, w, Sweep(sweep))) && sweep.SweepCommit? && Shape(s)
    requires p in base.threads && base.threads[p].Poll? && base.threads[p].poll.PollConnection? && w !in base.threads
    requires Conn(id) !in base.h.bound.Values && Conn(id) !in base.h.severed
    requires var ref := base.threads[p].poll.ref;
             ref in base.db.secrets ==> (base.db.secrets[ref].tenant, ref) in sweep.gone
    ensures exists s' :: Leads(s, s') && Bereft(s', id)
  {
    var commit := Go(Janitor, w, SMOOTH);
    Extend(s, With(base, w, Sweep(sweep)), commit);
    CommitLate(s, Step(With(base, w, Sweep(sweep)), commit), p, id);
  }

  lemma CommitLate(s: State, s3: State, p: nat, id: Id)
    requires Shape(s) && Leads(s, s3) && p in s3.threads && s3.threads[p].Poll? && s3.threads[p].poll.PollConnection?
    requires Conn(id) !in s3.h.bound.Values && Conn(id) !in s3.h.severed
    requires s3.threads[p].poll.ref !in s3.db.secrets
    ensures exists s' :: Leads(s, s') && Bereft(s', id)
  {
    var es :| Legal(s, es) && Run(s, es) == s3;
    RunShape(s, es);
    var go := Go(Service(s3.threads[p].poll.row.tenant), p, SMOOTH.(id := id));
    assert id in s3.db.connections ==> HoldsConn(s3.h, s3.db.connections[id]);
    Extend(s, s3, go);
    assert Bereft(Step(s3, go), id);
  }
}
