/** Listing, root updates and settings of connections, undisturbed from start to end. */
module Managing {
  import opened Options
  import opened Roots
  import opened Tables
  import opened Lifecycle
  import opened Compensation
  import opened Paths
  import opened StoredRoots
  import Targets
  import opened Undo

  // ---- update_root_path ----

  ghost predicate UpdateAt(db0: Db, tenant: Tenant, id: Id, newRoot: Option<string>, db: Db, t: Thread) {
    var found := GetConnection(db0, id, tenant);
    match t
    case Manage(UpdateStart(tn, i, root)) => tn == tenant && i == id && root == newRoot && db == db0
    case Manage(UpdatePut(c)) =>
      found.Some? && RootFits(found.value.root) && newRoot.Some? && c == found.value.(root := newRoot.value) && db == db0
    case Done(_, Updated(summary)) =>
      found.Some? && RootFits(found.value.root) && newRoot.Some? && db == WithRoot(db0, found.value, newRoot.value)
      && summary == Summarize(found.value.(root := newRoot.value))
    case Done(_, Failed(error)) =>
      && db == db0
      && (error == NotFound ==> found.None?)
      && (error == InvalidRoot ==> found.Some? && newRoot.None?)
      && (error == BadRecord ==> found.Some? && !RootFits(found.value.root))
      && (error == NotFound || error == InvalidRoot || error == BadRecord || error == StorageFailed)
    case _ => false
  }

  /** The tables with another root in one connection. */
  function WithRoot(db: Db, c: Connection, root: string): Db {
    db.(connections := db.connections[c.id := c.(root := root)])
  }

  lemma {:induction false} UpdateTrace(db0: Db, tenant: Tenant, id: Id, newRoot: Option<string>, ins: seq<Input>)
    requires KeyedConnections(db0)
    ensures var (db, t) := Alone(db0, Manage(UpdateStart(tenant, id, newRoot)), ins);
            UpdateAt(db0, tenant, id, newRoot, db, t)
  {
    if ins != [] {
      UpdateTrace(db0, tenant, id, newRoot, ins[..|ins| - 1]);
    }
  }

  /**
   An update succeeds with nothing changed but the root of the owned connection,
   or fails with nothing changed. It does not ask whether the new root fits: with
   one that does not, the row cannot be read again.
   */
  lemma UpdateChangesOnlyTheRoot(db0: Db, tenant: Tenant, id: Id, newRoot: Option<string>, ins: seq<Input>)
    requires KeyedConnections(db0) && Alone(db0, Manage(UpdateStart(tenant, id, newRoot)), ins).1.Done?
    ensures var (db, t) := Alone(db0, Manage(UpdateStart(tenant, id, newRoot)), ins);
            var found := GetConnection(db0, id, tenant);
            if t.outcome.Updated? then
              && found.Some? && RootFits(found.value.root) && newRoot.Some?
              && GetConnection(db, id, tenant) == Some(found.value.(root := newRoot.value))
              && (ReadConnection(db, id, tenant) == Unreadable <==> !RootFits(newRoot.value))
              && db.pending == db0.pending && db.secrets == db0.secrets && db.connections.Keys == db0.connections.Keys
              && forall c :: c in db.connections && c != id ==> db.connections[c] == db0.connections[c]
            else t.outcome.Failed? && db == db0
  {
    UpdateTrace(db0, tenant, id, newRoot, ins);
  }

  /** A root of 4097 characters is accepted and stored, and the row cannot be read again. */
  lemma LongUpdateSpoils(db0: Db, tenant: Tenant, id: Id, ins: seq<Input>)
    requires KeyedConnections(db0)
    requires var t := Alone(db0, Manage(UpdateStart(tenant, id, Some("/" + Letters(MAX_ROOT)))), ins).1;
             t.Done? && t.outcome.Updated?
    ensures NormalizeRootPath("/" + Letters(MAX_ROOT)) == Ok("/" + Letters(MAX_ROOT))
    ensures ReadConnection(Alone(db0, Manage(UpdateStart(tenant, id, Some("/" + Letters(MAX_ROOT)))), ins).0, id, tenant)
            == Unreadable
  {
    LongRootIsAccepted(MAX_ROOT);
    UpdateChangesOnlyTheRoot(db0, tenant, id, Some("/" + Letters(MAX_ROOT)), ins);
  }

  // ---- resolve_settings ----

  ghost predicate ResolveAt(db0: Db, tenant: Tenant, id: Id, db: Db, t: Thread) {
    var found := GetConnection(db0, id, tenant);
    && db == db0
    && match t
       case Manage(ResolveStart(tn, i)) => tn == tenant && i == id
       case Manage(ResolveSecret(c)) => found == Some(c) && RootFits(c.root)
       case Done(_, Resolved(root, password)) =>
         found.Some? && RootFits(found.value.root) && SettingsRoot(found.value.root) == Some(root)
         && GetSecret(db0, found.value.ref, tenant).Some? && GetSecret(db0, found.value.ref, tenant).value.value == password
       case Done(_, Failed(NotFound)) => found.None?
       case Done(_, Failed(BadRecord)) =>
         found.Some? && (!RootFits(found.value.root) || SettingsRoot(found.value.root).None?)
       case Done(_, Failed(CredentialUnavailable)) => found.Some? && GetSecret(db0, found.value.ref, tenant).None?
       case Done(_, Failed(StorageFailed)) => true
       case _ => false
  }

  lemma {:induction false} ResolveTrace(db0: Db, tenant: Tenant, id: Id, ins: seq<Input>)
    ensures var (db, t) := Alone(db0, Manage(ResolveStart(tenant, id)), ins);
            ResolveAt(db0, tenant, id, db, t)
  {
    if ins != [] {
      ResolveTrace(db0, tenant, id, ins[..|ins| - 1]);
    }
  }

  /** A poll that has come past its token. */
  predicate PastToken(t: Thread) {
    match t
    case Poll(PollRemote(_)) => true
    case Poll(PollSecret(_, _)) => true
    case Poll(PollConnection(_, _, _, _)) => true
    case Poll(PollDropSecret(_, Connected(_))) => true
    case Poll(PollDropFlow(_, Connected(_))) => true
    case Done(_, Connected(_)) => true
    case _ => false
  }

  lemma {:induction false} TokenWasStored(db0: Db, tenant: Tenant, flowId: Id, ins: seq<Input>)
    requires NewIds(db0, ins) && PastToken(Alone(db0, Poll(PollStart(tenant, flowId)), ins).1)
    ensures var found := GetPending(db0, flowId, tenant);
            found.Some? && GetSecret(db0, found.value.pollRef, tenant).Some?
  {
    var init := ins[..|ins| - 1];
    var tr := PollTrace(db0, tenant, flowId, init);
    if PastToken(Alone(db0, Poll(PollStart(tenant, flowId)), init).1) {
      TokenWasStored(db0, tenant, flowId, init);
    }
  }

  lemma LinkIsReadable(db: Db, row: Pending, c: Connection, secret: Secret)
    requires c.tenant == row.tenant && secret.tenant == row.tenant && c.ref != row.pollRef
    ensures var linked := Dropped(Apply(db, Link(c, secret)), row, FlowDropped);
            GetConnection(linked, c.id, c.tenant) == Some(c) && GetSecret(linked, c.ref, c.tenant) == Some(secret)
  {
  }

  /** What the settings of a freshly linked connection hold. */
  lemma LinkIsResolved(db0: Db, row: Pending, db1: Db, summary: Summary, heard: set<Lifecycle.Answer>, db: Db, t: Thread)
    requires AddsOne(db0, row, db1, summary, heard) && GetSecret(db0, row.pollRef, row.tenant).Some? && RootFits(row.root)
    requires ResolveAt(db1, row.tenant, summary.id, db, t) && t.Done? && t.outcome != Failed(StorageFailed)
    ensures match SettingsRoot(row.root)
            case None => t.outcome == Failed(BadRecord)
            case Some(root) => t.outcome.Resolved? && t.outcome.root == root && WasGranted(t.outcome.password, heard)
  {
    var c: Connection, secret, credentials :| Proper(db0, row, Link(c, secret), credentials, heard) && summary == Summarize(c)
                                              && db1 == Dropped(Apply(db0, Link(c, secret)), row, FlowDropped);
    LinkIsReadable(db0, row, c, secret);
    hide Dropped;
    assert Granted(credentials) in heard && credentials.appPassword == secret.value;
  }

  /**
   The settings of a freshly polled connection hold the granted app password and
   what normalising makes of the root of its flow; if it makes nothing of it, the
   settings are refused.
   */
  lemma ResolveAfterPoll(db0: Db, tenant: Tenant, flowId: Id, poll: seq<Input>, resolve: seq<Input>)
    requires NewIds(db0, poll) && Calm(db0, Poll(PollStart(tenant, flowId)), poll)
    requires var (db1, polled) := Alone(db0, Poll(PollStart(tenant, flowId)), poll);
             && polled.Done? && polled.outcome.Connected?
             && var t := Alone(db1, Manage(ResolveStart(tenant, polled.outcome.summary.id)), resolve).1;
                t.Done? && t.outcome != Failed(StorageFailed)
    ensures var (db1, polled) := Alone(db0, Poll(PollStart(tenant, flowId)), poll);
            var t := Alone(db1, Manage(ResolveStart(tenant, polled.outcome.summary.id)), resolve).1;
            && GetPending(db0, flowId, tenant).Some?
            && match SettingsRoot(GetPending(db0, flowId, tenant).value.root)
               case None => t.outcome == Failed(BadRecord)
               case Some(root) =>
                 t.outcome.Resolved? && t.outcome.root == root && WasGranted(t.outcome.password, Heard(poll))
  {
    PollIsAllOrNothing(db0, tenant, flowId, poll);
    TokenWasStored(db0, tenant, flowId, poll);
    var (db1, polled) := Alone(db0, Poll(PollStart(tenant, flowId)), poll);
    var (db, t) := Alone(db1, Manage(ResolveStart(tenant, polled.outcome.summary.id)), resolve);
    ResolveTrace(db1, tenant, polled.outcome.summary.id, resolve);
    LinkIsResolved(db0, GetPending(db0, flowId, tenant).value, db1, polled.outcome.summary, Heard(poll), db, t);
  }

  /** So they hold the flow's root, which was accepted as `value`, if and only if it does not end in whitespace. */
  lemma ResolveKeepsTheRoot(db0: Db, tenant: Tenant, flowId: Id, poll: seq<Input>, resolve: seq<Input>, value: string)
    requires NewIds(db0, poll) && Calm(db0, Poll(PollStart(tenant, flowId)), poll)
    requires var (db1, polled) := Alone(db0, Poll(PollStart(tenant, flowId)), poll);
             && polled.Done? && polled.outcome.Connected?
             && var t := Alone(db1, Manage(ResolveStart(tenant, polled.outcome.summary.id)), resolve).1;
                t.Done? && t.outcome != Failed(StorageFailed)
    requires GetPending(db0, flowId, tenant).Some?
             && NormalizeRootPath(value) == Ok(GetPending(db0, flowId, tenant).value.root)
    ensures var (db1, polled) := Alone(db0, Poll(PollStart(tenant, flowId)), poll);
            var t := Alone(db1, Manage(ResolveStart(tenant, polled.outcome.summary.id)), resolve).1;
            var root := GetPending(db0, flowId, tenant).value.root;
            root != "" && (t.outcome.Resolved? && t.outcome.root == root <==> !IsSpace(Targets.Last(root)))
  {
    ResolveAfterPoll(db0, tenant, flowId, poll, resolve);
    SettingsHoldTheRoot(value);
  }

  /** The remote has granted this app password. */
  ghost predicate WasGranted(password: string, heard: set<Lifecycle.Answer>) {
    exists credentials :: Granted(credentials) in heard && credentials.appPassword == password
  }
}
