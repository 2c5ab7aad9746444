/**
 Which answer a service call gives, from the tables it starts from and what its
 steps take from outside: statement results, the clock and the remote. Nobody
 else acts in between.
 */
module Answers {
  import opened Options
  import Paths
  import opened Tables
  import opened Lifecycle
  import opened Compensation
  import opened Service

  /** A row of the tenant under this key. */
  predicate FlowOf(db: Db, tenant: Tenant, flowId: Id) {
    flowId in db.pending && db.pending[flowId].tenant == tenant
  }

  predicate ConnectionOf(db: Db, tenant: Tenant, id: Id) {
    id in db.connections && db.connections[id].tenant == tenant
  }

  predicate SecretOf(db: Db, tenant: Tenant, ref: Ref) {
    ref in db.secrets && db.secrets[ref].tenant == tenant
  }

  /** The lengths of a root that the records accept. */
  predicate Fits(root: string) {
    2 <= |root| <= 4096
  }

  /** Statement `k` of the call is reached and succeeds. */
  predicate Works(ins: seq<Input>, k: nat) {
    k < |ins| && ins[k].oracle.ok
  }

  function Final(db: Db, t: Thread, ins: seq<Input>): Thread {
    Alone(db, t, ins).1
  }

  // ---- steps ----

  lemma {:induction false} DoneStays(db: Db, tenant: Tenant, outcome: Outcome, ins: seq<Input>)
    ensures Alone(db, Done(tenant, outcome), ins) == (db, Done(tenant, outcome))
  {
    if ins != [] {
      DoneStays(db, tenant, outcome, ins[..|ins| - 1]);
    }
  }

  /** The rest of a call decides. */
  lemma RestDecides(db: Db, t: Thread, ins: seq<Input>, k: nat)
    requires k <= |ins|
    ensures var (db', t') := Alone(db, t, ins[..k]);
            Alone(db, t, ins) == Alone(db', t', ins[k..])
  {
    AloneConcat(db, t, ins[..k], ins[k..]);
    assert ins == ins[..k] + ins[k..];
  }

  /** One step, then the rest. */
  lemma StepDecides(db: Db, t: Thread, ins: seq<Input>)
    requires ins != []
    ensures var (db', t') := Advance(db, ins[0].now, t, ins[0].oracle);
            Alone(db, t, ins) == Alone(db', t', ins[1..])
  {
    First(db, t, ins);
    RestDecides(db, t, ins, 1);
  }

  /** A finished call stays as it is, and one that is not finished has steps to come. */
  lemma Ends(db: Db, t: Thread, ins: seq<Input>)
    requires Final(db, t, ins).Done?
    ensures t.Done? ==> Alone(db, t, ins) == (db, t)
    ensures !t.Done? ==> ins != []
  {
    if t.Done? {
      DoneStays(db, t.tenant, t.outcome, ins);
    }
  }

  // ---- poll_connection ----

  /** Both deletions of `_delete_pending`, tried from step `k` on, succeed. */
  predicate Deleted(ins: seq<Input>, k: nat) {
    Works(ins, k) && Works(ins, k + 1)
  }

  /** The end of a poll: its outcome stands if both deletions succeed. */
  lemma DropAnswers(db: Db, row: Pending, outcome: Outcome, ins: seq<Input>)
    requires Final(db, Poll(PollDropSecret(row, outcome)), ins).Done?
    ensures Final(db, Poll(PollDropSecret(row, outcome)), ins)
            == Done(row.tenant, if Deleted(ins, 0) then outcome else Failed(StorageFailed))
  {
    hide Alone;
    var t := Poll(PollDropSecret(row, outcome));
    Ends(db, t, ins);
    StepDecides(db, t, ins);
    var (db1, t1) := Advance(db, ins[0].now, t, ins[0].oracle);
    Ends(db1, t1, ins[1..]);
    if ins[0].oracle.ok {
      StepDecides(db1, t1, ins[1..]);
      var (db2, t2) := Advance(db1, ins[1].now, t1, ins[1].oracle);
      Ends(db2, t2, ins[1..][1..]);
    }
  }

  /** From the grant on: both writes, then the deletions. */
  lemma GrantAnswers(db: Db, row: Pending, credentials: Credentials, ins: seq<Input>)
    requires Final(db, Poll(PollSecret(row, credentials)), ins).Done?
    ensures var stored := Works(ins, 0) && ins[0].oracle.ref !in db.secrets;
            var linked := stored && Works(ins, 1)
                          && (ins[1].oracle.id in db.connections ==> ConnectionOf(db, row.tenant, ins[1].oracle.id));
            Final(db, Poll(PollSecret(row, credentials)), ins)
            == Done(row.tenant,
                    if linked && Deleted(ins, 2) then
                      Connected(Summary(ins[1].oracle.id, credentials.server, credentials.login, row.root,
                                        ins[1].oracle.stamp))
                    else Failed(StorageFailed))
  {
    hide Alone;
    var t := Poll(PollSecret(row, credentials));
    Ends(db, t, ins);
    StepDecides(db, t, ins);
    var (db1, t1) := Advance(db, ins[0].now, t, ins[0].oracle);
    var rest := ins[1..];
    Ends(db1, t1, rest);
    if t1.poll.PollDropSecret? {
      DropAnswers(db1, row, t1.poll.outcome, rest);
    } else {
      StepDecides(db1, t1, rest);
      var (db2, t2) := Advance(db1, rest[0].now, t1, rest[0].oracle);
      Ends(db2, t2, rest[1..]);
      if t2.poll.PollDropSecret? {
        DropAnswers(db2, row, t2.poll.outcome, rest[1..]);
      } else {
        StepDecides(db2, t2, rest[1..]);
        var (db3, t3) := Advance(db2, rest[1].now, t2, rest[1].oracle);
        DropAnswers(db3, row, t3.poll.outcome, rest[1..][1..]);
      }
    }
  }

  /** The first statement reads the flow. */
  predicate FlowRead(db: Db, tenant: Tenant, flowId: Id, ins: seq<Input>) {
    Works(ins, 0) && FlowOf(db, tenant, flowId) && Fits(db.pending[flowId].root)
  }

  /** It has not expired when the clock is read. */
  predicate FlowLive(db: Db, tenant: Tenant, flowId: Id, ins: seq<Input>) {
    FlowRead(db, tenant, flowId, ins) && |ins| > 1 && ins[1].now < db.pending[flowId].expires
  }

  /** It has. */
  predicate FlowExpired(db: Db, tenant: Tenant, flowId: Id, ins: seq<Input>) {
    FlowRead(db, tenant, flowId, ins) && |ins| > 1 && ins[1].now >= db.pending[flowId].expires
  }

  /** The token of a live flow is looked up: `found` says whether it is stored. */
  predicate TokenLooked(db: Db, tenant: Tenant, flowId: Id, ins: seq<Input>, found: bool) {
    FlowLive(db, tenant, flowId, ins) && Works(ins, 2) && SecretOf(db, tenant, db.pending[flowId].pollRef) == found
  }

  /** The remote is asked about a live flow with its token, and says this. */
  predicate RemoteSays(db: Db, tenant: Tenant, flowId: Id, ins: seq<Input>, answer: Answer) {
    TokenLooked(db, tenant, flowId, ins, true) && |ins| > 3 && ins[3].oracle.answer == answer
  }

  /** From the token on. */
  lemma LiveAnswers(db: Db, row: Pending, ins: seq<Input>)
    requires Final(db, Poll(PollToken(row)), ins).Done?
    ensures !Works(ins, 0) ==> Final(db, Poll(PollToken(row)), ins) == Done(row.tenant, Failed(StorageFailed))
    ensures Works(ins, 0) && !SecretOf(db, row.tenant, row.pollRef) ==>
              Final(db, Poll(PollToken(row)), ins)
              == Done(row.tenant, if Deleted(ins, 1) then Failed(CredentialUnavailable) else Failed(StorageFailed))
    ensures Works(ins, 0) && SecretOf(db, row.tenant, row.pollRef) ==>
              |ins| > 1
              && Final(db, Poll(PollToken(row)), ins)
                 == match ins[1].oracle.answer
                    case Refused => Done(row.tenant, Failed(LinkingFailed))
                    case NotYet => Done(row.tenant, StillPending)
                    case Granted(credentials) => Final(db, Poll(PollSecret(row, credentials)), ins[2..])
  {
    hide Alone;
    var t := Poll(PollToken(row));
    Ends(db, t, ins);
    StepDecides(db, t, ins);
    var (db1, t1) := Advance(db, ins[0].now, t, ins[0].oracle);
    var rest := ins[1..];
    Ends(db1, t1, rest);
    if t1.Poll? && t1.poll.PollDropSecret? {
      DropAnswers(db1, row, t1.poll.outcome, rest);
    } else if t1.Poll? {
      StepDecides(db1, t1, rest);
      var (db2, t2) := Advance(db1, rest[0].now, t1, rest[0].oracle);
      Ends(db2, t2, rest[1..]);
      assert rest[1..] == ins[2..];
    }
  }

  /** Up to the token. */
  lemma FlowAnswers(db: Db, tenant: Tenant, flowId: Id, ins: seq<Input>)
    requires Final(db, Poll(PollStart(tenant, flowId)), ins).Done?
    ensures !Works(ins, 0) ==> Final(db, Poll(PollStart(tenant, flowId)), ins) == Done(tenant, Failed(StorageFailed))
    ensures Works(ins, 0) && !FlowOf(db, tenant, flowId) ==>
              Final(db, Poll(PollStart(tenant, flowId)), ins) == Done(tenant, Failed(NotFound))
    ensures Works(ins, 0) && FlowOf(db, tenant, flowId) && !Fits(db.pending[flowId].root) ==>
              Final(db, Poll(PollStart(tenant, flowId)), ins) == Done(tenant, Failed(BadRecord))
    ensures FlowRead(db, tenant, flowId, ins) ==> FlowLive(db, tenant, flowId, ins) || FlowExpired(db, tenant, flowId, ins)
    ensures FlowExpired(db, tenant, flowId, ins) ==>
              Final(db, Poll(PollStart(tenant, flowId)), ins)
              == Done(tenant, if Deleted(ins, 2) then Failed(Expired) else Failed(StorageFailed))
    ensures FlowLive(db, tenant, flowId, ins) ==>
              Final(db, Poll(PollStart(tenant, flowId)), ins) == Final(db, Poll(PollToken(db.pending[flowId])), ins[2..])
  {
    hide Alone;
    var t := Poll(PollStart(tenant, flowId));
    Ends(db, t, ins);
    StepDecides(db, t, ins);
    var (db1, t1) := Advance(db, ins[0].now, t, ins[0].oracle);
    var rest := ins[1..];
    Ends(db1, t1, rest);
    if t1.Poll? {
      StepDecides(db1, t1, rest);
      var (db2, t2) := Advance(db1, rest[0].now, t1, rest[0].oracle);
      assert rest[1..] == ins[2..];
      if t2.poll.PollDropSecret? {
        DropAnswers(db2, t1.poll.row, Failed(Expired), rest[1..]);
      }
    }
  }

  /** The credentials that the remote grants are stored with the connection, and both deletions succeed. */
  predicate Linked(db: Db, tenant: Tenant, flowId: Id, ins: seq<Input>, credentials: Credentials) {
    && RemoteSays(db, tenant, flowId, ins, Granted(credentials))
    && Works(ins, 4) && ins[4].oracle.ref !in db.secrets
    && Works(ins, 5) && (ins[5].oracle.id in db.connections ==> ConnectionOf(db, tenant, ins[5].oracle.id))
    && Deleted(ins, 6)
  }

  /**
   Which answer a poll gives. Every outcome has its own guards, and a storage
   failure is what remains.
   */
  lemma PollAnswers(db: Db, tenant: Tenant, flowId: Id, ins: seq<Input>)
    requires Final(db, Poll(PollStart(tenant, flowId)), ins).Done?
    ensures var t := Final(db, Poll(PollStart(tenant, flowId)), ins);
            && t.tenant == tenant
            && (t.outcome == Failed(NotFound) <==> Works(ins, 0) && !FlowOf(db, tenant, flowId))
            && (t.outcome == Failed(BadRecord) <==>
                  Works(ins, 0) && FlowOf(db, tenant, flowId) && !Fits(db.pending[flowId].root))
            && (t.outcome == Failed(Expired) <==> FlowExpired(db, tenant, flowId, ins) && Deleted(ins, 2))
            && (t.outcome == Failed(CredentialUnavailable) <==>
                  TokenLooked(db, tenant, flowId, ins, false) && Deleted(ins, 3))
            && (t.outcome == StillPending <==> RemoteSays(db, tenant, flowId, ins, NotYet))
            && (t.outcome == Failed(LinkingFailed) <==> RemoteSays(db, tenant, flowId, ins, Refused))
            && (forall summary :: t.outcome == Connected(summary) <==>
                  exists credentials :: Linked(db, tenant, flowId, ins, credentials)
                    && summary == Summary(ins[5].oracle.id, credentials.server, credentials.login, db.pending[flowId].root,
                                          ins[5].oracle.stamp))
            && (t.outcome == Failed(StorageFailed) || t.outcome.StillPending? || t.outcome.Connected?
                || t.outcome in {Failed(NotFound), Failed(BadRecord), Failed(Expired), Failed(CredentialUnavailable),
                                 Failed(LinkingFailed)})
  {
    hide Final;
    FlowAnswers(db, tenant, flowId, ins);
    if FlowLive(db, tenant, flowId, ins) {
      var row := db.pending[flowId];
      LiveAnswers(db, row, ins[2..]);
      if TokenLooked(db, tenant, flowId, ins, true) && ins[3].oracle.answer.Granted? {
        GrantAnswers(db, row, ins[3].oracle.answer.credentials, ins[2..][2..]);
        assert ins[2..][2..] == ins[4..];
      }
    }
  }

  // ---- disconnect ----

  /** The first statement reads the connection. */
  predicate ConnectionRead(db: Db, tenant: Tenant, id: Id, ins: seq<Input>) {
    Works(ins, 0) && ConnectionOf(db, tenant, id) && Fits(db.connections[id].root)
  }

  /** The settings accept the stored root. */
  predicate SettingsAccept(root: string) {
    Paths.NormalizeRootPath(root).Ok?
  }

  /** How many steps the attempt to revoke takes: none without a secret, three if the remote is asked. */
  function Attempt(db: Db, c: Connection, ins: seq<Input>): nat {
    if !SecretOf(db, c.tenant, c.ref) then 0
    else if !Works(ins, 2) then 1
    else if !Works(ins, 3) || !SettingsAccept(c.root) then 2
    else 3
  }

  /** The remote is asked to revoke, and does. */
  predicate Revoked(db: Db, c: Connection, ins: seq<Input>) {
    Attempt(db, c, ins) == 3 && |ins| > 4 && ins[4].oracle.revoked
  }

  lemma RemoveAnswers(db: Db, c: Connection, revoked: bool, ins: seq<Input>)
    requires Final(db, Disconnect(DisconnectDropSecret(c, revoked)), ins).Done?
    ensures Final(db, Disconnect(DisconnectDropSecret(c, revoked)), ins)
            == Done(c.tenant, if Deleted(ins, 0) then Disconnected(c.id, revoked) else Failed(StorageFailed))
  {
    hide Alone;
    var t := Disconnect(DisconnectDropSecret(c, revoked));
    Ends(db, t, ins);
    StepDecides(db, t, ins);
    var (db1, t1) := Advance(db, ins[0].now, t, ins[0].oracle);
    Ends(db1, t1, ins[1..]);
    if ins[0].oracle.ok {
      StepDecides(db1, t1, ins[1..]);
      var (db2, t2) := Advance(db1, ins[1].now, t1, ins[1].oracle);
      Ends(db2, t2, ins[1..][1..]);
    }
  }

  /** From the second read of the secret on. */
  lemma ResolveAnswers(db: Db, c: Connection, ins: seq<Input>)
    requires Final(db, Disconnect(DisconnectResolve(c, c)), ins).Done? && SecretOf(db, c.tenant, c.ref)
    ensures var asked := Works(ins, 0) && SettingsAccept(c.root);
            |ins| > (if asked then 1 else 0)
            && Final(db, Disconnect(DisconnectResolve(c, c)), ins)
               == Done(c.tenant, if Deleted(ins, if asked then 2 else 1) then
                                   Disconnected(c.id, asked && ins[1].oracle.revoked)
                                 else Failed(StorageFailed))
  {
    hide Alone;
    var t := Disconnect(DisconnectResolve(c, c));
    Ends(db, t, ins);
    StepDecides(db, t, ins);
    var (db1, t1) := Advance(db, ins[0].now, t, ins[0].oracle);
    var rest := ins[1..];
    Ends(db1, t1, rest);
    if t1.disconnect.DisconnectDropSecret? {
      RemoveAnswers(db1, c, t1.disconnect.revoked, rest);
    } else {
      StepDecides(db1, t1, rest);
      var (db2, t2) := Advance(db1, rest[0].now, t1, rest[0].oracle);
      RemoveAnswers(db2, c, t2.disconnect.revoked, rest[1..]);
    }
  }

  /** The `try` and the `finally`, once the secret has been found. */
  lemma TryAnswers(db: Db, c: Connection, ins: seq<Input>)
    requires Final(db, Disconnect(DisconnectReread(c)), ins).Done? && SecretOf(db, c.tenant, c.ref)
    requires ConnectionOf(db, c.tenant, c.id) && db.connections[c.id] == c && Fits(c.root)
    ensures ins != []
    ensures !ins[0].oracle.ok ==>
              Final(db, Disconnect(DisconnectReread(c)), ins)
              == Done(c.tenant, if Deleted(ins, 1) then Disconnected(c.id, false) else Failed(StorageFailed))
    ensures ins[0].oracle.ok ==>
              Final(db, Disconnect(DisconnectReread(c)), ins) == Final(db, Disconnect(DisconnectResolve(c, c)), ins[1..])
  {
    hide Alone;
    var t := Disconnect(DisconnectReread(c));
    Ends(db, t, ins);
    StepDecides(db, t, ins);
    if !ins[0].oracle.ok {
      RemoveAnswers(db, c, false, ins[1..]);
    }
  }

  /** Up to the secret. */
  lemma FoundAnswers(db: Db, c: Connection, ins: seq<Input>)
    requires Final(db, Disconnect(DisconnectGet(c)), ins).Done?
    ensures !Works(ins, 0) ==> Final(db, Disconnect(DisconnectGet(c)), ins) == Done(c.tenant, Failed(StorageFailed))
    ensures Works(ins, 0) && !SecretOf(db, c.tenant, c.ref) ==>
              Final(db, Disconnect(DisconnectGet(c)), ins)
              == Done(c.tenant, if Deleted(ins, 1) then Disconnected(c.id, false) else Failed(StorageFailed))
    ensures Works(ins, 0) && SecretOf(db, c.tenant, c.ref) ==>
              Final(db, Disconnect(DisconnectGet(c)), ins) == Final(db, Disconnect(DisconnectReread(c)), ins[1..])
  {
    hide Alone;
    var t := Disconnect(DisconnectGet(c));
    Ends(db, t, ins);
    StepDecides(db, t, ins);
    var (db1, t1) := Advance(db, ins[0].now, t, ins[0].oracle);
    Ends(db1, t1, ins[1..]);
    if ins[0].oracle.ok && !SecretOf(db, c.tenant, c.ref) {
      RemoveAnswers(db, c, false, ins[1..]);
    }
  }

  /** Which connection a disconnect works on. */
  lemma OwnedAnswers(db: Db, tenant: Tenant, id: Id, ins: seq<Input>)
    requires Final(db, Disconnect(DisconnectStart(tenant, id)), ins).Done?
    ensures !Works(ins, 0) ==> Final(db, Disconnect(DisconnectStart(tenant, id)), ins) == Done(tenant, Failed(StorageFailed))
    ensures Works(ins, 0) && !ConnectionOf(db, tenant, id) ==>
              Final(db, Disconnect(DisconnectStart(tenant, id)), ins) == Done(tenant, Failed(NotFound))
    ensures Works(ins, 0) && ConnectionOf(db, tenant, id) && !Fits(db.connections[id].root) ==>
              Final(db, Disconnect(DisconnectStart(tenant, id)), ins) == Done(tenant, Failed(BadRecord))
    ensures ConnectionRead(db, tenant, id, ins) ==>
              Final(db, Disconnect(DisconnectStart(tenant, id)), ins)
              == Final(db, Disconnect(DisconnectGet(db.connections[id])), ins[1..])
  {
    hide Alone;
    var t := Disconnect(DisconnectStart(tenant, id));
    Ends(db, t, ins);
    StepDecides(db, t, ins);
    var (db1, t1) := Advance(db, ins[0].now, t, ins[0].oracle);
    Ends(db1, t1, ins[1..]);
  }

  /**
   Which answer a disconnect gives. It says that the app password was revoked if
   and only if the remote has said so, which it is asked only with a secret that
   is found twice, a row that is read twice and settings that accept the root.
   */
  lemma DisconnectAnswers(db: Db, tenant: Tenant, id: Id, ins: seq<Input>)
    requires Final(db, Disconnect(DisconnectStart(tenant, id)), ins).Done?
    requires ConnectionOf(db, tenant, id) ==> db.connections[id].id == id
    ensures var t := Final(db, Disconnect(DisconnectStart(tenant, id)), ins);
            && t.tenant == tenant
            && (t.outcome == Failed(NotFound) <==> Works(ins, 0) && !ConnectionOf(db, tenant, id))
            && (t.outcome == Failed(BadRecord) <==>
                  Works(ins, 0) && ConnectionOf(db, tenant, id) && !Fits(db.connections[id].root))
            && (forall id', revoked :: t.outcome == Disconnected(id', revoked) <==>
                  && ConnectionRead(db, tenant, id, ins) && Works(ins, 1)
                  && Deleted(ins, 2 + Attempt(db, db.connections[id], ins))
                  && id' == id && revoked == Revoked(db, db.connections[id], ins))
            && (t.outcome.Disconnected? || t.outcome in {Failed(NotFound), Failed(BadRecord), Failed(StorageFailed)})
  {
    hide Final;
    OwnedAnswers(db, tenant, id, ins);
    if ConnectionRead(db, tenant, id, ins) {
      var c := db.connections[id];
      FoundAnswers(db, c, ins[1..]);
      if Works(ins, 1) && SecretOf(db, tenant, c.ref) {
        TryAnswers(db, c, ins[1..][1..]);
        if Works(ins, 2) {
          ResolveAnswers(db, c, ins[1..][1..][1..]);
        }
      }
    }
  }

  // ---- update_root_path ----

  /** Which answer a root update gives, with every field of the connection. */
  lemma UpdateAnswers(db: Db, tenant: Tenant, id: Id, newRoot: Option<string>, ins: seq<Input>)
    requires Final(db, Manage(UpdateStart(tenant, id, newRoot)), ins).Done?
    requires ConnectionOf(db, tenant, id) ==> db.connections[id].id == id
    ensures var t := Final(db, Manage(UpdateStart(tenant, id, newRoot)), ins);
            && t.tenant == tenant
            && (t.outcome == Failed(NotFound) <==> Works(ins, 0) && !ConnectionOf(db, tenant, id))
            && (t.outcome == Failed(BadRecord) <==>
                  Works(ins, 0) && ConnectionOf(db, tenant, id) && !Fits(db.connections[id].root))
            && (t.outcome == Failed(InvalidRoot) <==> ConnectionRead(db, tenant, id, ins) && newRoot == None)
            && (forall summary :: t.outcome == Updated(summary) <==>
                  && ConnectionRead(db, tenant, id, ins) && newRoot != None && Works(ins, 1)
                  && var c := db.connections[id]; summary == Summary(id, c.baseUrl, c.login, newRoot.value, c.created))
            && (t.outcome.Updated?
                || t.outcome in {Failed(NotFound), Failed(BadRecord), Failed(InvalidRoot), Failed(StorageFailed)})
  {
    hide Alone;
    var t := Manage(UpdateStart(tenant, id, newRoot));
    Ends(db, t, ins);
    StepDecides(db, t, ins);
    var (db1, t1) := Advance(db, ins[0].now, t, ins[0].oracle);
    var rest := ins[1..];
    Ends(db1, t1, rest);
    if t1.Manage? {
      StepDecides(db1, t1, rest);
      var (db2, t2) := Advance(db1, rest[0].now, t1, rest[0].oracle);
      Ends(db2, t2, rest[1..]);
    }
  }

  // ---- resolve_settings ----

  /** Which settings a connection gets. */
  lemma SettingsAnswers(db: Db, tenant: Tenant, id: Id, ins: seq<Input>)
    requires Final(db, Manage(ResolveStart(tenant, id)), ins).Done?
    ensures var t := Final(db, Manage(ResolveStart(tenant, id)), ins);
            && t.tenant == tenant
            && (t.outcome == Failed(NotFound) <==> Works(ins, 0) && !ConnectionOf(db, tenant, id))
            && (t.outcome == Failed(CredentialUnavailable) <==>
                  ConnectionRead(db, tenant, id, ins) && Works(ins, 1) && !SecretOf(db, tenant, db.connections[id].ref))
            && (forall root, password :: t.outcome == Resolved(root, password) <==>
                  && ConnectionRead(db, tenant, id, ins) && Works(ins, 1) && SecretOf(db, tenant, db.connections[id].ref)
                  && Paths.NormalizeRootPath(db.connections[id].root) == Paths.Ok(root)
                  && db.secrets[db.connections[id].ref].value == password)
            && (t.outcome == Failed(BadRecord) <==>
                  || (Works(ins, 0) && ConnectionOf(db, tenant, id) && !Fits(db.connections[id].root))
                  || (&& ConnectionRead(db, tenant, id, ins) && Works(ins, 1) && SecretOf(db, tenant, db.connections[id].ref)
                      && !SettingsAccept(db.connections[id].root)))
            && (t.outcome.Resolved?
                || t.outcome in {Failed(NotFound), Failed(BadRecord), Failed(CredentialUnavailable), Failed(StorageFailed)})
  {
    hide Alone;
    var t := Manage(ResolveStart(tenant, id));
    Ends(db, t, ins);
    StepDecides(db, t, ins);
    var (db1, t1) := Advance(db, ins[0].now, t, ins[0].oracle);
    var rest := ins[1..];
    Ends(db1, t1, rest);
    if t1.Manage? {
      StepDecides(db1, t1, rest);
      var (db2, t2) := Advance(db1, rest[0].now, t1, rest[0].oracle);
      Ends(db2, t2, rest[1..]);
    }
  }

  // ---- begin_connection ----

  /** Which answer a begin gives, once the remote has issued a challenge. */
  lemma BeginAnswers(db: Db, tenant: Tenant, root: string, challenge: Challenge, token: string, expires: Time,
                     ins: seq<Input>)
    requires Final(db, Begin(BeginSecret(tenant, root, challenge, token, expires)), ins).Done?
    ensures var t := Final(db, Begin(BeginSecret(tenant, root, challenge, token, expires)), ins);
            && t.tenant == tenant
            && var stored := Works(ins, 0) && ins[0].oracle.ref !in db.secrets;
               && (t.outcome == Failed(BadRecord) <==> stored && !Fits(root))
               && (forall flowId, url, until :: t.outcome == Started(flowId, url, until) <==>
                     && stored && Fits(root) && Works(ins, 1)
                     && (ins[0].oracle.id in db.pending ==> FlowOf(db, tenant, ins[0].oracle.id))
                     && flowId == ins[0].oracle.id && url == challenge.loginUrl && until == expires)
               && (t.outcome.Started? || t.outcome in {Failed(BadRecord), Failed(StorageFailed)})
  {
    hide Alone;
    var t := Begin(BeginSecret(tenant, root, challenge, token, expires));
    Ends(db, t, ins);
    StepDecides(db, t, ins);
    var (db1, t1) := Advance(db, ins[0].now, t, ins[0].oracle);
    var rest := ins[1..];
    Ends(db1, t1, rest);
    if t1.Begin? {
      StepDecides(db1, t1, rest);
      var (db2, t2) := Advance(db1, rest[0].now, t1, rest[0].oracle);
      Ends(db2, t2, rest[1..]);
      if t2.Begin? {
        StepDecides(db2, t2, rest[1..]);
        var (db3, t3) := Advance(db2, rest[1].now, t2, rest[1].oracle);
        Ends(db3, t3, rest[1..][1..]);
      }
    }
  }

  // ---- list_connections ----

  /** What a listing shows of a connection. */
  function Shown(c: Connection): Summary {
    Summary(c.id, c.baseUrl, c.login, c.root, c.created)
  }

  /** All rows of the tenant fit. */
  ghost predicate AllFit(db: Db, tenant: Tenant) {
    forall id :: ConnectionOf(db, tenant, id) ==> Fits(db.connections[id].root)
  }

  /** The summaries of the tenant's rows, and no others. */
  ghost predicate Lists(db: Db, tenant: Tenant, summaries: set<Summary>) {
    && (forall id :: ConnectionOf(db, tenant, id) ==> Shown(db.connections[id]) in summaries)
    && (forall s :: s in summaries ==> exists id :: ConnectionOf(db, tenant, id) && s == Shown(db.connections[id]))
  }

  /** Which answer a listing gives. */
  lemma ListAnswers(db: Db, tenant: Tenant, ins: seq<Input>)
    requires Final(db, Manage(ListStart(tenant)), ins).Done?
    ensures var t := Final(db, Manage(ListStart(tenant)), ins);
            && t.tenant == tenant
            && (t.outcome.Listed? <==> Works(ins, 0) && AllFit(db, tenant))
            && (t.outcome.Listed? ==> Lists(db, tenant, t.outcome.summaries))
            && (t.outcome == Failed(BadRecord) <==> Works(ins, 0) && !AllFit(db, tenant))
            && (t.outcome == Failed(StorageFailed) <==> !Works(ins, 0))
  {
    hide Alone;
    var t := Manage(ListStart(tenant));
    Ends(db, t, ins);
    StepDecides(db, t, ins);
    var (db1, t1) := Advance(db, ins[0].now, t, ins[0].oracle);
    Ends(db1, t1, ins[1..]);
    ListedRows(db, tenant);
    assert AllFit(db, tenant) <==> Listable(db, tenant) by {
      assert forall id :: ConnectionOf(db, tenant, id) <==> id in db.connections && db.connections[id].tenant == tenant;
    }
  }

  lemma ListedRows(db: Db, tenant: Tenant)
    ensures Lists(db, tenant, set c | c in ListConnections(db, tenant) :: Summarize(c))
  {
    var summaries := set c | c in ListConnections(db, tenant) :: Summarize(c);
    forall id | ConnectionOf(db, tenant, id) ensures Shown(db.connections[id]) in summaries {
      assert db.connections[id] in ListConnections(db, tenant);
    }
    forall s | s in summaries ensures exists id :: ConnectionOf(db, tenant, id) && s == Shown(db.connections[id]) {
      var c :| c in ListConnections(db, tenant) && s == Summarize(c);
      var id :| id in db.connections && db.connections[id].tenant == tenant && db.connections[id] == c;
      assert ConnectionOf(db, tenant, id);
    }
  }
}
