/**
 Garbage collection never takes the secret of a live row. The proof is a
 rely/guarantee argument: every step of a thread keeps the tables right and
 disturbs no fact that another thread relies on.
 */
module GcSafety {
  import opened Tables
  import opened Lifecycle
  import opened LifecycleShape

  /**
   The timing the maintenance job is designed for: a row is committed within
   `window` of the timestamp of its secret, and the grace period of every
   cleanup is at least that long.
   */
  ghost predicate Timely(s: State, e: Event, window: Time) {
    match e
    case Spawn(_, _, Sweep(SweepStart(_, grace))) => grace >= window
    case Go(_, th, o) => th in s.threads && o.ok ==> Prompt(s.threads[th], s.now, window)
    case _ => true
  }

  ghost predicate Prompt(t: Thread, now: Time, window: Time) {
    match t
    case Begin(BeginPending(_, stamp)) => now <= stamp + window
    case Poll(PollConnection(_, _, _, stamp)) => now <= stamp + window
    case _ => true
  }

  ghost predicate AllTimely(s: State, es: seq<Event>, window: Time) {
    es == [] || (AllTimely(s, es[..|es| - 1], window) && Timely(Run(s, es[..|es| - 1]), es[|es| - 1], window))
  }

  ghost predicate Present(db: Db, holder: Holder) {
    match holder
    case Flow(f) => f in db.pending
    case Conn(c) => c in db.connections
  }

  /** A row has its secret exactly until a poll or a disconnect has deleted it. */
  ghost predicate DbKept(db: Db, h: History) {
    && (forall ref :: ref in h.bound && h.bound[ref] !in h.severed && h.bound[ref].Conn? ==> Present(db, h.bound[ref]))
    && (forall ref :: ref in h.bound && h.bound[ref] !in h.severed && Present(db, h.bound[ref]) ==> ref in db.secrets)
    && (forall ref :: ref in h.bound && h.bound[ref] in h.severed ==> ref !in db.secrets)
    && h.severed <= h.bound.Values
  }

  /** The secret `ref` can go: its row is gone for good, or no row can claim it in time any more. */
  ghost predicate Doomed(db: Db, h: History, ref: Ref, flows: set<Id>, current: Time, window: Time) {
    if ref in h.bound
    then h.bound[ref] in h.severed || (h.bound[ref].Flow? && (h.bound[ref].id in flows || h.bound[ref].id !in db.pending))
    else ref in h.issued && h.issued[ref].row.created + window < current
  }

  ghost predicate AllDoomed(db: Db, h: History, keys: set<(Tenant, Ref)>, flows: set<Id>, current: Time, window: Time) {
    forall k :: k in keys ==> Doomed(db, h, k.1, flows, current, window)
  }

  ghost predicate FlowsGone(db: Db, expired: set<Pending>, flows: set<Id>) {
    forall row :: row in expired ==> row.flowId in flows || row.flowId !in db.pending
  }

  ghost predicate SweepKept(db: Db, h: History, now: Time, window: Time, pc: SweepPc) {
    match pc
    case SweepStart(current, grace) => current <= now && grace >= window
    case SweepFlows(current, cutoff, _) => current <= now && cutoff + window <= current
    case SweepPolls(current, cutoff, expired, flows) =>
      current <= now && cutoff + window <= current && FlowsGone(db, expired, flows)
    case SweepSelect(current, cutoff, expired, flows, gone) =>
      current <= now && cutoff + window <= current && AllDoomed(db, h, gone, flows, current, window)
    case SweepOrphans(current, _, flows, gone, orphans) =>
      && current <= now && AllDoomed(db, h, gone, flows, current, window)
      && AllDoomed(db, h, orphans, flows, current, window)
    case SweepCommit(current, _, flows, gone, _) => current <= now && AllDoomed(db, h, gone, flows, current, window)
    case SweepDone(_, _) => true
  }

  ghost predicate ThreadKept(db: Db, h: History, now: Time, window: Time, t: Thread) {
    match t
    case Begin(pc) => pc.BeginPending? && now <= pc.stamp + window ==> pc.row.pollRef in db.secrets
    case Poll(pc) =>
      && (pc.PollConnection? && now <= pc.stamp + window ==> pc.ref in db.secrets)
      && (pc.PollDropFlow? ==> Flow(pc.row.flowId) in h.severed)
    case Disconnect(pc) => pc.DisconnectDropRow? ==> Conn(pc.connection.id) in h.severed
    case Sweep(pc) => SweepKept(db, h, now, window, pc)
    case _ => true
  }

  ghost predicate Kept(s: State, window: Time) {
    DbKept(s.db, s.h) && forall th :: th in s.threads ==> ThreadKept(s.db, s.h, s.now, window, s.threads[th])
  }

  /** What a step guarantees to every thread other than the acting one. */
  ghost predicate Steady(db: Db, h: History, now: Time, window: Time, db': Db, h': History, other: nat) {
    && Grows(h, h', other)
    && (forall ref | ref in h.bound && h.bound[ref].Flow? && h.bound[ref].id !in db.pending
          :: h.bound[ref].id !in db'.pending)
    && (forall ref | ref in h.issued && h.issued[ref].writer == other && ref !in h.bound && ref in db.secrets
                     && now <= h.issued[ref].row.created + window :: ref in db'.secrets)
    && (forall ref :: ref in h'.bound && ref !in h.bound ==> ref in h.issued && now <= h.issued[ref].row.created + window)
  }

  lemma DoomedStable(db: Db, h: History, now: Time, window: Time, db': Db, h': History, other: nat,
                     ref: Ref, flows: set<Id>, current: Time)
    requires Steady(db, h, now, window, db', h', other) && current <= now
    requires Doomed(db, h, ref, flows, current, window)
    ensures Doomed(db', h', ref, flows, current, window)
  {
  }

  lemma ThreadKeptStable(db: Db, h: History, now: Time, window: Time, db': Db, h': History, other: nat, t: Thread)
    requires ThreadShape(h, other, t) && ThreadKept(db, h, now, window, t)
    requires Steady(db, h, now, window, db', h', other)
    ensures ThreadKept(db', h', now, window, t)
  {
    match t
    case Sweep(pc) =>
      forall ref, flows, current | current <= now && Doomed(db, h, ref, flows, current, window)
        ensures Doomed(db', h', ref, flows, current, window)
      {
        DoomedStable(db, h, now, window, db', h', other, ref, flows, current);
      }
    case _ =>
  }

  // ---- the acting thread ----

  ghost predicate StepKept(db: Db, h: History, now: Time, window: Time, th: nat, t: Thread, o: Oracle) {
    var (db', t') := Advance(db, now, t, o);
    && DbKept(db', Note(h, th, t, o))
    && ThreadKept(db', Note(h, th, t, o), now, window, t')
  }

  lemma AddSecretKept(db: Db, h: History, ref: Ref, row: Secret, issue: Issue)
    requires DbShape(db, h) && DbKept(db, h) && ref !in h.issued
    ensures DbKept(db.(secrets := db.secrets[ref := row]), h.(issued := h.issued[ref := issue]))
  {
  }

  lemma BindKept(db: Db, h: History, ref: Ref, holder: Holder, db': Db, h': History)
    requires DbShape(db, h) && DbKept(db, h) && ref !in h.bound && holder !in h.bound.Values && ref in db.secrets
    requires db'.secrets == db.secrets && h'.bound == h.bound[ref := holder] && h'.severed == h.severed
    requires Present(db', holder) && forall x :: x != holder ==> Present(db', x) == Present(db, x)
    ensures DbKept(db', h')
  {
    forall x | x in h.severed ensures x in h'.bound.Values {
      var r :| r in h.bound && h.bound[r] == x;
      assert h'.bound[r] == x;
    }
  }

  /** Deleting a secret that no row holds. */
  lemma DropUnboundKept(db: Db, h: History, ref: Ref, tenant: Tenant)
    requires DbKept(db, h) && ref !in h.bound
    ensures DbKept(DeleteSecret(db, ref, tenant), h)
  {
  }

  lemma SeverKept(db: Db, h: History, holder: Holder, ref: Ref, tenant: Tenant)
    requires DbShape(db, h) && DbKept(db, h) && Holds(h, holder, ref, tenant)
    ensures DbKept(DeleteSecret(db, ref, tenant), h.(severed := h.severed + {holder}))
  {
  }

  lemma DropFlowKept(db: Db, h: History, flowId: Id, tenant: Tenant)
    requires DbKept(db, h)
    ensures DbKept(DeletePending(db, flowId, tenant), h)
  {
  }

  lemma DropConnKept(db: Db, h: History, id: Id, tenant: Tenant)
    requires DbKept(db, h) && Conn(id) in h.severed
    ensures DbKept(DeleteConnection(db, id, tenant), h)
  {
  }

  lemma ReputKept(db: Db, h: History, c: Connection)
    requires DbKept(db, h) && DbShape(db, h) && HoldsConn(h, c)
    ensures DbKept(db.(connections := db.connections[c.id := c]), h)
  {
  }

  lemma BeginSecretKept(db: Db, h: History, now: Time, window: Time, th: nat, t: Thread, o: Oracle)
    requires DbShape(db, h) && DbKept(db, h) && Fresh(h, t, o) && t.Begin? && t.begin.BeginSecret?
    ensures StepKept(db, h, now, window, th, t, o)
  {
    if o.ok {
      var row := Secret(t.begin.tenant, t.begin.token, o.stamp);
      AddSecretKept(db, h, o.ref, row, Issue(row, th));
    }
  }

  lemma BeginPendingKept(db: Db, h: History, now: Time, window: Time, th: nat, t: Thread, o: Oracle)
    requires DbShape(db, h) && DbKept(db, h) && ThreadShape(h, th, t) && ThreadKept(db, h, now, window, t)
    requires Fresh(h, t, o) && (o.ok ==> Prompt(t, now, window)) && t.Begin? && t.begin.BeginPending?
    ensures StepKept(db, h, now, window, th, t, o)
  {
    if o.ok {
      var row := t.begin.row;
      BindFlowShape(db, h, row);
      BindKept(db, h, row.pollRef, Flow(row.flowId), db.(pending := db.pending[row.flowId := row]), Note(h, th, t, o));
    }
  }

  lemma BeginUndoKept(db: Db, h: History, now: Time, window: Time, th: nat, t: Thread, o: Oracle)
    requires DbKept(db, h) && ThreadShape(h, th, t) && t.Begin? && t.begin.BeginUndo?
    ensures StepKept(db, h, now, window, th, t, o)
  {
    DropUnboundKept(db, h, t.begin.ref, t.begin.tenant);
  }

  lemma PollSecretKept(db: Db, h: History, now: Time, window: Time, th: nat, t: Thread, o: Oracle)
    requires DbShape(db, h) && DbKept(db, h) && Fresh(h, t, o) && t.Poll? && t.poll.PollSecret?
    ensures StepKept(db, h, now, window, th, t, o)
  {
    if o.ok {
      var row := Secret(t.poll.row.tenant, t.poll.credentials.appPassword, o.stamp);
      AddSecretKept(db, h, o.ref, row, Issue(row, th));
    }
  }

  lemma PollConnectionKept(db: Db, h: History, now: Time, window: Time, th: nat, t: Thread, o: Oracle)
    requires DbShape(db, h) && DbKept(db, h) && ThreadShape(h, th, t) && ThreadKept(db, h, now, window, t)
    requires Fresh(h, t, o) && (o.ok ==> Prompt(t, now, window)) && t.Poll? && t.poll.PollConnection?
    ensures StepKept(db, h, now, window, th, t, o)
  {
    if o.ok {
      var c := NewConnection(t.poll.row, t.poll.credentials, t.poll.ref, o);
      BindConnShape(db, h, c, t.poll.credentials.appPassword);
      BindKept(db, h, c.ref, Conn(c.id), db.(connections := db.connections[c.id := c]), Note(h, th, t, o));
    }
  }

  lemma PollReadKept(db: Db, h: History, now: Time, window: Time, th: nat, t: Thread, o: Oracle)
    requires DbShape(db, h) && DbKept(db, h) && ThreadShape(h, th, t) && t.Poll?
    requires t.poll.PollStart? || t.poll.PollClock? || t.poll.PollToken? || t.poll.PollRemote?
    ensures StepKept(db, h, now, window, th, t, o)
  {
    assert Note(h, th, t, o) == h;
  }

  lemma PollDropKept(db: Db, h: History, now: Time, window: Time, th: nat, t: Thread, o: Oracle)
    requires DbShape(db, h) && DbKept(db, h) && ThreadShape(h, th, t) && ThreadKept(db, h, now, window, t) && t.Poll?
    requires t.poll.PollUndo? || t.poll.PollDropSecret? || t.poll.PollDropFlow?
    ensures StepKept(db, h, now, window, th, t, o)
  {
    var row := t.poll.row;
    match t.poll
    case PollUndo(_, ref) => DropUnboundKept(db, h, ref, row.tenant);
    case PollDropSecret(_, _) => SeverKept(db, h, Flow(row.flowId), row.pollRef, row.tenant);
    case PollDropFlow(_, _) => DropFlowKept(db, h, row.flowId, row.tenant);
  }

  lemma ManageReadKept(db: Db, h: History, now: Time, window: Time, th: nat, t: Thread, o: Oracle)
    requires DbKept(db, h) && t.Manage? && !t.manage.UpdatePut?
    ensures StepKept(db, h, now, window, th, t, o)
  {
    assert Note(h, th, t, o) == h;
  }

  lemma UpdateKept(db: Db, h: History, now: Time, window: Time, th: nat, t: Thread, o: Oracle)
    requires DbShape(db, h) && DbKept(db, h) && ThreadShape(h, th, t) && t.Manage? && t.manage.UpdatePut?
    ensures StepKept(db, h, now, window, th, t, o)
  {
    ReputKept(db, h, t.manage.connection);
  }

  lemma DisconnectReadKept(db: Db, h: History, now: Time, window: Time, th: nat, t: Thread, o: Oracle)
    requires DbKept(db, h) && ThreadShape(h, th, t) && t.Disconnect?
    requires !t.disconnect.DisconnectDropSecret? && !t.disconnect.DisconnectDropRow?
    ensures StepKept(db, h, now, window, th, t, o)
  {
    assert Note(h, th, t, o) == h;
  }

  lemma DisconnectDropKept(db: Db, h: History, now: Time, window: Time, th: nat, t: Thread, o: Oracle)
    requires DbShape(db, h) && DbKept(db, h) && ThreadShape(h, th, t) && ThreadKept(db, h, now, window, t)
    requires t.Disconnect? && (t.disconnect.DisconnectDropSecret? || t.disconnect.DisconnectDropRow?)
    ensures StepKept(db, h, now, window, th, t, o)
  {
    var c := t.disconnect.connection;
    if t.disconnect.DisconnectDropSecret? {
      SeverKept(db, h, Conn(c.id), c.ref, c.tenant);
    } else {
      DropConnKept(db, h, c.id, c.tenant);
    }
  }

  /** The orphan query sees the row of every secret whose row is neither severed nor deleted. */
  lemma LiveIsReferenced(db: Db, h: History, seen: Db, ref: Ref)
    requires DbShape(db, h) && ref in h.bound && Present(seen, h.bound[ref])
    requires seen.pending.Keys <= db.pending.Keys && seen.connections == db.connections
    requires forall f :: f in seen.pending ==> seen.pending[f] == db.pending[f]
    ensures Referenced(seen, h.issued[ref].row.tenant, ref)
  {
    match h.bound[ref]
    case Conn(c) => assert seen.connections[c].ref == ref;
    case Flow(f) => assert seen.pending[f].pollRef == ref;
  }

  /** A secret the orphan query selects is doomed. */
  lemma OrphansDoomed(db: Db, h: History, flows: set<Id>, gone: set<(Tenant, Ref)>, cutoff: Time, current: Time, window: Time)
    requires DbShape(db, h) && DbKept(db, h) && cutoff + window <= current
    ensures AllDoomed(db, h, OrphanKeys(Without(db, flows, gone), cutoff), flows, current, window)
  {
    var seen := Without(db, flows, gone);
    forall k | k in OrphanKeys(seen, cutoff) ensures Doomed(db, h, k.1, flows, current, window) {
      if k.1 in h.bound && Present(seen, h.bound[k.1]) {
        LiveIsReferenced(db, h, seen, k.1);
        assert false;
      }
    }
  }

  lemma SweepStepKept(db: Db, h: History, now: Time, window: Time, th: nat, t: Thread, o: Oracle)
    requires DbShape(db, h) && DbKept(db, h) && ThreadShape(h, th, t) && ThreadKept(db, h, now, window, t)
    requires t.Sweep?
    ensures StepKept(db, h, now, window, th, t, o)
  {
    match t.sweep
    case SweepSelect(current, cutoff, _, flows, gone) =>
      OrphansDoomed(db, h, flows, gone, cutoff, current, window);
    case _ =>
  }

  lemma AdvanceKept(db: Db, h: History, now: Time, window: Time, th: nat, t: Thread, o: Oracle)
    requires DbShape(db, h) && DbKept(db, h) && ThreadShape(h, th, t) && ThreadKept(db, h, now, window, t)
    requires Fresh(h, t, o) && (o.ok ==> Prompt(t, now, window))
    ensures StepKept(db, h, now, window, th, t, o)
  {
    match t
    case Begin(BeginSecret(_, _, _, _, _)) => BeginSecretKept(db, h, now, window, th, t, o);
    case Begin(BeginPending(_, _)) => BeginPendingKept(db, h, now, window, th, t, o);
    case Begin(BeginUndo(_, _)) => BeginUndoKept(db, h, now, window, th, t, o);
    case Poll(pc) =>
      if pc.PollSecret? {
        PollSecretKept(db, h, now, window, th, t, o);
      } else if pc.PollConnection? {
        PollConnectionKept(db, h, now, window, th, t, o);
      } else if pc.PollUndo? || pc.PollDropSecret? || pc.PollDropFlow? {
        PollDropKept(db, h, now, window, th, t, o);
      } else {
        PollReadKept(db, h, now, window, th, t, o);
      }
    case Manage(pc) =>
      if pc.UpdatePut? {
        UpdateKept(db, h, now, window, th, t, o);
      } else {
        ManageReadKept(db, h, now, window, th, t, o);
      }
    case Disconnect(pc) =>
      if pc.DisconnectDropSecret? || pc.DisconnectDropRow? {
        DisconnectDropKept(db, h, now, window, th, t, o);
      } else {
        DisconnectReadKept(db, h, now, window, th, t, o);
      }
    case Sweep(_) => SweepStepKept(db, h, now, window, th, t, o);
    case Done(_, _) =>
  }

  // ---- the other threads ----

  /** A step that writes nothing into the history only has to spare the pledged secrets and create no flow. */
  lemma QuietSteady(db: Db, h: History, now: Time, window: Time, db': Db, other: nat)
    requires db'.pending.Keys <= db.pending.Keys
    requires forall ref | ref in h.issued && h.issued[ref].writer == other && ref !in h.bound && ref in db.secrets
                          && now <= h.issued[ref].row.created + window :: ref in db'.secrets
    ensures Steady(db, h, now, window, db', h, other)
  {
  }

  ghost predicate StepSteady(db: Db, h: History, now: Time, window: Time, th: nat, t: Thread, o: Oracle, other: nat) {
    Steady(db, h, now, window, Advance(db, now, t, o).0, Note(h, th, t, o), other)
  }

  lemma BeginSteady(db: Db, h: History, now: Time, window: Time, th: nat, t: Thread, o: Oracle, other: nat)
    requires DbShape(db, h) && ThreadShape(h, th, t) && Fresh(h, t, o) && (o.ok ==> Prompt(t, now, window))
    requires t.Begin? && th != other
    ensures StepSteady(db, h, now, window, th, t, o, other)
  {
    NoteGrows(db, h, th, t, o, other);
  }

  lemma PollWriteSteady(db: Db, h: History, now: Time, window: Time, th: nat, t: Thread, o: Oracle, other: nat)
    requires ThreadShape(h, th, t) && Fresh(h, t, o) && (o.ok ==> Prompt(t, now, window))
    requires t.Poll? && (t.poll.PollSecret? || t.poll.PollConnection?) && th != other
    ensures StepSteady(db, h, now, window, th, t, o, other)
  {
    NoteGrows(db, h, th, t, o, other);
  }

  lemma PollSteady(db: Db, h: History, now: Time, window: Time, th: nat, t: Thread, o: Oracle, other: nat)
    requires ThreadShape(h, th, t) && Fresh(h, t, o)
    requires t.Poll? && !t.poll.PollSecret? && !t.poll.PollConnection? && th != other
    ensures StepSteady(db, h, now, window, th, t, o, other)
  {
    NoteGrows(db, h, th, t, o, other);
  }

  lemma ServeSteady(db: Db, h: History, now: Time, window: Time, th: nat, t: Thread, o: Oracle, other: nat)
    requires ThreadShape(h, th, t) && (t.Manage? || t.Disconnect?) && th != other
    ensures StepSteady(db, h, now, window, th, t, o, other)
  {
    NoteGrows(db, h, th, t, o, other);
  }

  lemma SweepSteady(db: Db, h: History, now: Time, window: Time, th: nat, t: Thread, o: Oracle, other: nat)
    requires ThreadKept(db, h, now, window, t) && t.Sweep?
    ensures StepSteady(db, h, now, window, th, t, o, other)
  {
    QuietSteady(db, h, now, window, Advance(db, now, t, o).0, other);
  }

  lemma AdvanceSteady(db: Db, h: History, now: Time, window: Time, th: nat, t: Thread, o: Oracle, other: nat)
    requires DbShape(db, h) && ThreadShape(h, th, t) && ThreadKept(db, h, now, window, t)
    requires Fresh(h, t, o) && (o.ok ==> Prompt(t, now, window)) && th != other
    ensures StepSteady(db, h, now, window, th, t, o, other)
  {
    match t
    case Begin(_) => BeginSteady(db, h, now, window, th, t, o, other);
    case Poll(pc) =>
      if pc.PollSecret? || pc.PollConnection? {
        PollWriteSteady(db, h, now, window, th, t, o, other);
      } else {
        PollSteady(db, h, now, window, th, t, o, other);
      }
    case Manage(_) => ServeSteady(db, h, now, window, th, t, o, other);
    case Disconnect(_) => ServeSteady(db, h, now, window, th, t, o, other);
    case Sweep(_) => SweepSteady(db, h, now, window, th, t, o, other);
    case Done(_, _) =>
  }

  // ---- whole runs ----

  /** Time passing only makes the promises of the threads weaker. */
  lemma TickKept(s: State, window: Time, to: Time)
    requires Kept(s, window) && s.now <= to
    ensures Kept(s.(now := to), window)
  {
  }

  lemma GoKept(s: State, window: Time, who: Actor, th: nat, o: Oracle)
    requires Shape(s) && Kept(s, window) && Enabled(s, Go(who, th, o)) && Timely(s, Go(who, th, o), window)
    ensures Kept(Step(s, Go(who, th, o)), window)
  {
    var t := s.threads[th];
    var s' := Step(s, Go(who, th, o));
    AdvanceKept(s.db, s.h, s.now, window, th, t, o);
    forall x | x in s'.threads && x != th ensures ThreadKept(s'.db, s'.h, s'.now, window, s'.threads[x]) {
      AdvanceSteady(s.db, s.h, s.now, window, th, t, o, x);
      ThreadKeptStable(s.db, s.h, s.now, window, s'.db, s'.h, x, s.threads[x]);
    }
  }

  lemma StepKeepsAll(s: State, window: Time, e: Event)
    requires Shape(s) && Kept(s, window) && Enabled(s, e) && Timely(s, e, window)
    ensures Kept(Step(s, e), window)
  {
    match e
    case Tick(to) => TickKept(s, window, to);
    case Go(who, th, o) => GoKept(s, window, who, th, o);
    case Spawn(_, _, _) =>
    case Crash(_, _) =>
  }

  lemma {:induction false} RunKept(s: State, es: seq<Event>, window: Time)
    requires Shape(s) && Kept(s, window) && Legal(s, es) && AllTimely(s, es, window)
    ensures Kept(Run(s, es), window)
  {
    if es != [] {
      var before := es[..|es| - 1];
      RunKept(s, before, window);
      RunShape(s, before);
      StepKeepsAll(Run(s, before), window, es[|es| - 1]);
    }
  }

  /** The row's secret is stored and its tenant can read `value` under `ref`. */
  predicate Readable(db: Db, ref: Ref, tenant: Tenant, value: string) {
    GetSecret(db, ref, tenant).Some? && GetSecret(db, ref, tenant).value.value == value
  }

  /**
   In every state of every timely run, with crashes anywhere, a connection has
   its secret, still holding the app password the remote granted for it, if
   and only if no disconnect of it has deleted its secret.
   */
  lemma SecretsOutliveCollection(start: Time, es: seq<Event>, window: Time)
    requires Legal(Init(start), es) && AllTimely(Init(start), es, window)
    ensures var s := Run(Init(start), es);
            forall c :: c in s.db.connections ==>
              var row := s.db.connections[c];
              && c in s.h.granted
              && (Conn(c) !in s.h.severed ==> Readable(s.db, row.ref, row.tenant, s.h.granted[c]))
              && (Conn(c) in s.h.severed ==> GetSecret(s.db, row.ref, row.tenant).None?)
  {
    var s := Run(Init(start), es);
    RunShape(Init(start), es);
    RunKept(Init(start), es, window);
    forall c | c in s.db.connections
      ensures HoldsConn(s.h, s.db.connections[c])
    {
    }
  }

  /** The same for a login flow: its poll token is stored until a poll has dropped it. */
  lemma PollTokensOutliveCollection(start: Time, es: seq<Event>, window: Time)
    requires Legal(Init(start), es) && AllTimely(Init(start), es, window)
    ensures var s := Run(Init(start), es);
            forall f :: f in s.db.pending ==>
              (GetSecret(s.db, s.db.pending[f].pollRef, s.db.pending[f].tenant).Some? <==> Flow(f) !in s.h.severed)
  {
    var s := Run(Init(start), es);
    RunShape(Init(start), es);
    RunKept(Init(start), es, window);
    forall f | f in s.db.pending
      ensures HoldsFlow(s.h, s.db.pending[f])
    {
    }
  }

  /** Event `i` is the statement of a disconnect of `c` that deletes its secret. */
  ghost predicate SeversAt(s: State, es: seq<Event>, i: nat, c: Id)
    requires i < |es|
  {
    && es[i].Go? && es[i].oracle.ok
    && var threads := Run(s, es[..i]).threads;
       && es[i].th in threads && threads[es[i].th].Disconnect?
       && threads[es[i].th].disconnect.DisconnectDropSecret?
       && threads[es[i].th].disconnect.connection.id == c
  }

  /** What the history calls severed is exactly what the run did. */
  lemma {:induction false} SeveredMeansDisconnected(start: Time, es: seq<Event>, c: Id)
    ensures Conn(c) in Run(Init(start), es).h.severed
            <==> exists i: nat :: i < |es| && SeversAt(Init(start), es, i, c)
  {
    if es != [] {
      var n := |es| - 1;
      SeveredMeansDisconnected(start, es[..n], c);
      forall i: nat | i < n
        ensures SeversAt(Init(start), es[..n], i, c) == SeversAt(Init(start), es, i, c)
      {
        assert es[..n][..i] == es[..i];
      }
      var last := SeversAt(Init(start), es, n, c);
      assert Conn(c) in Run(Init(start), es).h.severed <==> Conn(c) in Run(Init(start), es[..n]).h.severed || last;
      if exists i: nat :: i < n && SeversAt(Init(start), es[..n], i, c) {
        var i: nat :| i < n && SeversAt(Init(start), es[..n], i, c);
        assert SeversAt(Init(start), es, i, c);
      }
    }
  }
}
