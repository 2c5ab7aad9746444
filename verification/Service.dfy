/**
 ConnectionService as an object over its two stores. Every method is proved to
 take exactly the steps of the lifecycle, one per statement, clock reading or
 remote answer, so whatever is proved about the steps holds of the methods.
 */
module Service {
  import opened Options
  import opened Compensation
  import opened Lifecycle
  import opened Roots
  import opened Sequences
  import opened Stores
  import opened Tables

  class ConnectionService {
    const connectionStore: DatabaseConnectionStore
    const credentialStore: CredentialStore

    constructor (connectionStore: DatabaseConnectionStore, credentialStore: CredentialStore)
      ensures this.connectionStore == connectionStore && this.credentialStore == credentialStore
    {
      this.connectionStore := connectionStore;
      this.credentialStore := credentialStore;
    }

    /** Both stores as one database. */
    function Database(): Db
      reads connectionStore, credentialStore
    {
      Db(connectionStore.pending, connectionStore.connections, credentialStore.secrets)
    }

    method BeginConnection(tenant: Tenant, root: string, challenge: Challenge, token: string, expires: Time, ins: seq<Input>)
      returns (outcome: Outcome, steps: nat)
      requires |ins| >= 3
      modifies connectionStore, credentialStore
      ensures steps <= 3
      ensures Alone(old(Database()), Begin(BeginSecret(tenant, root, challenge, token, expires)), ins[..steps])
              == (Database(), Done(tenant, outcome))
    {
      hide Alone;
      ghost var db0, start := Database(), Begin(BeginSecret(tenant, root, challenge, token, expires));
      First(db0, start, ins);
      var ref := credentialStore.Put(tenant, token, ins[0].oracle);
      if ref.None? {
        return Failed(StorageFailed), 1;
      }
      if !RootFits(root) {
        return Failed(BadRecord), 1;
      }
      var pending := Pending(ins[0].oracle.id, tenant, root, challenge, ref.value, expires);
      Next(db0, start, ins, 1);
      var raised := connectionStore.PutPending(pending, ins[1].oracle);
      if raised {
        Next(db0, start, ins, 2);
        var _ := credentialStore.Delete(tenant, ref.value, ins[2].oracle);
        return Failed(StorageFailed), 3;
      }
      outcome, steps := Started(pending.flowId, challenge.loginUrl, expires), 2;
    }

    /** `_delete_pending`: the token first, then the flow. */
    method DeletePending(pending: Pending, outcome: Outcome, ins: seq<Input>) returns (result: Outcome, steps: nat)
      requires |ins| >= 2
      modifies connectionStore, credentialStore
      ensures steps <= 2
      ensures Alone(old(Database()), Poll(PollDropSecret(pending, outcome)), ins[..steps])
              == (Database(), Done(pending.tenant, result))
    {
      hide Alone;
      ghost var db0, start := Database(), Poll(PollDropSecret(pending, outcome));
      First(db0, start, ins);
      var raised := credentialStore.Delete(pending.tenant, pending.pollRef, ins[0].oracle);
      if raised {
        return Failed(StorageFailed), 1;
      }
      Next(db0, start, ins, 1);
      raised := connectionStore.DeletePending(pending.flowId, pending.tenant, ins[1].oracle);
      result, steps := if raised then Failed(StorageFailed) else outcome, 2;
    }

    /** The `try` body of a poll and its compensation; what is left is the `finally`. */
    method StoreConnection(pending: Pending, credentials: Credentials, ins: seq<Input>)
      returns (outcome: Outcome, steps: nat)
      requires |ins| >= 3
      modifies connectionStore, credentialStore
      ensures steps <= 3
      ensures Alone(old(Database()), Poll(PollSecret(pending, credentials)), ins[..steps])
              == (Database(), Poll(PollDropSecret(pending, outcome)))
    {
      hide Alone;
      ghost var db0, start := Database(), Poll(PollSecret(pending, credentials));
      First(db0, start, ins);
      var ref := credentialStore.Put(pending.tenant, credentials.appPassword, ins[0].oracle);
      if ref.None? {
        return Failed(StorageFailed), 1;
      }
      Next(db0, start, ins, 1);
      var record := NewConnection(pending, credentials, ref.value, ins[1].oracle);
      var raised := connectionStore.PutConnection(record, ins[1].oracle);
      if !raised {
        return Connected(Summarize(record)), 2;
      }
      Next(db0, start, ins, 2);
      var _ := credentialStore.Delete(pending.tenant, ref.value, ins[2].oracle);
      outcome, steps := Failed(StorageFailed), 3;
    }

    /** From the granted credentials to the end: `try`, `except` and `finally`. */
    method CompletePoll(pending: Pending, credentials: Credentials, ins: seq<Input>)
      returns (outcome: Outcome, steps: nat)
      requires |ins| >= 5
      modifies connectionStore, credentialStore
      ensures steps <= 5
      ensures Alone(old(Database()), Poll(PollSecret(pending, credentials)), ins[..steps])
              == (Database(), Done(pending.tenant, outcome))
    {
      hide Alone, Advance;
      ghost var db0, start := Database(), Poll(PollSecret(pending, credentials));
      var stored, used := StoreConnection(pending, credentials, ins);
      outcome, steps := DeletePending(pending, stored, ins[used..]);
      Compose(db0, start, ins, used, steps);
      steps := used + steps;
    }

    /** The remote answer decides. */
    method AskRemote(pending: Pending, ins: seq<Input>) returns (outcome: Outcome, steps: nat)
      requires |ins| >= 6
      modifies connectionStore, credentialStore
      ensures steps <= 6
      ensures Alone(old(Database()), Poll(PollRemote(pending)), ins[..steps]) == (Database(), Done(pending.tenant, outcome))
    {
      hide Alone;
      ghost var db0, start := Database(), Poll(PollRemote(pending));
      First(db0, start, ins);
      match ins[0].oracle.answer
      case Refused => return Failed(LinkingFailed), 1;
      case NotYet => return StillPending, 1;
      case Granted(credentials) =>
        outcome, steps := CompletePoll(pending, credentials, ins[1..]);
        Compose(db0, start, ins, 1, steps);
        steps := 1 + steps;
    }

    /** A poll of a flow that has not expired. */
    method PollLive(pending: Pending, ins: seq<Input>) returns (outcome: Outcome, steps: nat)
      requires |ins| >= 7
      modifies connectionStore, credentialStore
      ensures steps <= 7
      ensures Alone(old(Database()), Poll(PollToken(pending)), ins[..steps]) == (Database(), Done(pending.tenant, outcome))
    {
      hide Alone;
      ghost var db0, start := Database(), Poll(PollToken(pending));
      First(db0, start, ins);
      if !ins[0].oracle.ok {
        return Failed(StorageFailed), 1;
      }
      var token := credentialStore.Get(pending.tenant, pending.pollRef);
      if token.None? {
        outcome, steps := DeletePending(pending, Failed(CredentialUnavailable), ins[1..]);
        Compose(db0, start, ins, 1, steps);
        return outcome, 1 + steps;
      }
      outcome, steps := AskRemote(pending, ins[1..]);
      Compose(db0, start, ins, 1, steps);
      steps := 1 + steps;
    }

    method PollConnection(tenant: Tenant, flowId: Id, ins: seq<Input>) returns (outcome: Outcome, steps: nat)
      requires |ins| >= 9
      modifies connectionStore, credentialStore
      ensures steps <= 9
      ensures Alone(old(Database()), Poll(PollStart(tenant, flowId)), ins[..steps]) == (Database(), Done(tenant, outcome))
    {
      hide Alone;
      ghost var db0, start := Database(), Poll(PollStart(tenant, flowId));
      First(db0, start, ins);
      if !ins[0].oracle.ok {
        return Failed(StorageFailed), 1;
      }
      var found := connectionStore.GetPending(flowId, tenant);
      if !found.Found? {
        return Failed(if found.Missing? then NotFound else BadRecord), 1;
      }
      var pending := found.row;
      Next(db0, start, ins, 1);
      if ins[1].now >= pending.expires {
        outcome, steps := DeletePending(pending, Failed(Expired), ins[2..]);
      } else {
        outcome, steps := PollLive(pending, ins[2..]);
      }
      Compose(db0, start, ins, 2, steps);
      steps := 2 + steps;
    }

    method UpdateRootPath(tenant: Tenant, id: Id, newRoot: Option<string>, ins: seq<Input>)
      returns (outcome: Outcome, steps: nat)
      requires |ins| >= 2
      modifies connectionStore
      ensures steps <= 2
      ensures Alone(old(Database()), Manage(UpdateStart(tenant, id, newRoot)), ins[..steps])
              == (Database(), Done(tenant, outcome))
    {
      hide Alone;
      ghost var db0, start := Database(), Manage(UpdateStart(tenant, id, newRoot));
      First(db0, start, ins);
      if !ins[0].oracle.ok {
        return Failed(StorageFailed), 1;
      }
      var record := connectionStore.GetConnection(id, tenant);
      if !record.Found? {
        return Failed(if record.Missing? then NotFound else BadRecord), 1;
      }
      if newRoot.None? {
        return Failed(InvalidRoot), 1;
      }
      var updated := record.row.(root := newRoot.value);
      Next(db0, start, ins, 1);
      var raised := connectionStore.PutConnection(updated, ins[1].oracle);
      outcome, steps := if raised then Failed(StorageFailed) else Updated(Summarize(updated)), 2;
    }

    method ListConnections(tenant: Tenant, ins: seq<Input>) returns (outcome: Outcome)
      requires |ins| >= 1
      ensures Alone(Database(), Manage(ListStart(tenant)), ins[..1]) == (Database(), Done(tenant, outcome))
    {
      hide Alone;
      First(Database(), Manage(ListStart(tenant)), ins);
      if !ins[0].oracle.ok {
        return Failed(StorageFailed);
      }
      var records := connectionStore.ListConnections(tenant);
      assert Listable(connectionStore.Rows(), tenant) == Listable(Database(), tenant);
      if records.None? {
        return Failed(BadRecord);
      }
      assert records.value == Tables.ListConnections(Database(), tenant);
      outcome := Listed(set c | c in records.value :: Summarize(c));
    }

    /** The settings are built last, and their validator normalises the root. */
    method ResolveSettings(tenant: Tenant, id: Id, ins: seq<Input>) returns (outcome: Outcome, steps: nat)
      requires |ins| >= 2
      ensures steps <= 2
      ensures Alone(Database(), Manage(ResolveStart(tenant, id)), ins[..steps]) == (Database(), Done(tenant, outcome))
    {
      hide Alone;
      ghost var db0, start := Database(), Manage(ResolveStart(tenant, id));
      First(db0, start, ins);
      if !ins[0].oracle.ok {
        return Failed(StorageFailed), 1;
      }
      var record := connectionStore.GetConnection(id, tenant);
      if !record.Found? {
        return Failed(if record.Missing? then NotFound else BadRecord), 1;
      }
      Next(db0, start, ins, 1);
      if !ins[1].oracle.ok {
        return Failed(StorageFailed), 2;
      }
      var secret := credentialStore.Get(tenant, record.row.ref);
      if secret.None? {
        return Failed(CredentialUnavailable), 2;
      }
      var root := SettingsRoot(record.row.root);
      if root.None? {
        return Failed(BadRecord), 2;
      }
      outcome, steps := Resolved(root.value, secret.value.value), 2;
    }

    /** The revocation attempt inside the `try` of a disconnect: it only reads. */
    method TryRevoke(record: Connection, ins: seq<Input>) returns (revoked: bool, steps: nat)
      requires |ins| >= 3
      ensures steps <= 3
      ensures Alone(Database(), Thread.Disconnect(DisconnectReread(record)), ins[..steps])
              == (Database(), Thread.Disconnect(DisconnectDropSecret(record, revoked)))
    {
      hide Alone;
      ghost var db0, start := Database(), Thread.Disconnect(DisconnectReread(record));
      First(db0, start, ins);
      if !ins[0].oracle.ok {
        return false, 1;
      }
      var again := connectionStore.GetConnection(record.id, record.tenant);
      if !again.Found? {
        return false, 1;
      }
      Next(db0, start, ins, 1);
      if !ins[1].oracle.ok {
        return false, 2;
      }
      var secret := credentialStore.Get(again.row.tenant, again.row.ref);
      if secret.None? || SettingsRoot(again.row.root).None? {
        return false, 2;
      }
      Next(db0, start, ins, 2);
      revoked, steps := ins[2].oracle.revoked, 3;
    }

    /** The `finally` of a disconnect. */
    method DropConnection(record: Connection, revoked: bool, ins: seq<Input>) returns (outcome: Outcome, steps: nat)
      requires |ins| >= 2
      modifies connectionStore, credentialStore
      ensures steps <= 2
      ensures Alone(old(Database()), Thread.Disconnect(DisconnectDropSecret(record, revoked)), ins[..steps])
              == (Database(), Done(record.tenant, outcome))
    {
      hide Alone;
      ghost var db0, start := Database(), Thread.Disconnect(DisconnectDropSecret(record, revoked));
      First(db0, start, ins);
      var raised := credentialStore.Delete(record.tenant, record.ref, ins[0].oracle);
      if raised {
        return Failed(StorageFailed), 1;
      }
      Next(db0, start, ins, 1);
      raised := connectionStore.DeleteConnection(record.id, record.tenant, ins[1].oracle);
      outcome, steps := if raised then Failed(StorageFailed) else Disconnected(record.id, revoked), 2;
    }

    /** The `try` and the `finally` of a disconnect. */
    method RevokeAndDrop(record: Connection, ins: seq<Input>) returns (outcome: Outcome, steps: nat)
      requires |ins| >= 5
      modifies connectionStore, credentialStore
      ensures steps <= 5
      ensures Alone(old(Database()), Thread.Disconnect(DisconnectReread(record)), ins[..steps])
              == (Database(), Done(record.tenant, outcome))
    {
      hide Alone, Advance;
      ghost var db0, start := Database(), Thread.Disconnect(DisconnectReread(record));
      var revoked, used := TryRevoke(record, ins);
      outcome, steps := DropConnection(record, revoked, ins[used..]);
      Compose(db0, start, ins, used, steps);
      steps := used + steps;
    }

    /** A disconnect once its connection is found. */
    method CompleteDisconnect(record: Connection, ins: seq<Input>) returns (outcome: Outcome, steps: nat)
      requires |ins| >= 6
      modifies connectionStore, credentialStore
      ensures steps <= 6
      ensures Alone(old(Database()), Thread.Disconnect(DisconnectGet(record)), ins[..steps])
              == (Database(), Done(record.tenant, outcome))
    {
      hide Alone;
      ghost var db0, start := Database(), Thread.Disconnect(DisconnectGet(record));
      First(db0, start, ins);
      if !ins[0].oracle.ok {
        return Failed(StorageFailed), 1;
      }
      var secret := credentialStore.Get(record.tenant, record.ref);
      if secret.None? {
        outcome, steps := DropConnection(record, false, ins[1..]);
        Compose(db0, start, ins, 1, steps);
        return outcome, 1 + steps;
      }
      outcome, steps := RevokeAndDrop(record, ins[1..]);
      Compose(db0, start, ins, 1, steps);
      steps := 1 + steps;
    }

    method Disconnect(tenant: Tenant, id: Id, ins: seq<Input>) returns (outcome: Outcome, steps: nat)
      requires |ins| >= 7
      modifies connectionStore, credentialStore
      ensures steps <= 7
      ensures Alone(old(Database()), Thread.Disconnect(DisconnectStart(tenant, id)), ins[..steps])
              == (Database(), Done(tenant, outcome))
    {
      hide Alone;
      ghost var db0, start := Database(), Thread.Disconnect(DisconnectStart(tenant, id));
      First(db0, start, ins);
      if !ins[0].oracle.ok {
        return Failed(StorageFailed), 1;
      }
      var found := connectionStore.GetConnection(id, tenant);
      if !found.Found? {
        return Failed(if found.Missing? then NotFound else BadRecord), 1;
      }
      outcome, steps := CompleteDisconnect(found.row, ins[1..]);
      Compose(db0, start, ins, 1, steps);
      steps := 1 + steps;
    }
  }

  lemma First(db: Db, t: Thread, ins: seq<Input>)
    requires ins != []
    ensures Alone(db, t, ins[..1]) == Advance(db, ins[0].now, t, ins[0].oracle)
  {
    assert ins[..1][..0] == [];
    assert Alone(db, t, []) == (db, t);
  }

  lemma Next(db: Db, t: Thread, ins: seq<Input>, k: nat)
    requires k < |ins|
    ensures var (db', t') := Alone(db, t, ins[..k]);
            Alone(db, t, ins[..k + 1]) == Advance(db', ins[k].now, t', ins[k].oracle)
  {
    assert ins[..k + 1][..k] == ins[..k];
  }

  lemma AloneNext(db: Db, t: Thread, ins: seq<Input>, last: Input)
    ensures var (db', t') := Alone(db, t, ins);
            Alone(db, t, ins + [last]) == Advance(db', last.now, t', last.oracle)
  {
    assert (ins + [last])[..|ins|] == ins;
  }

  lemma {:induction false} AloneConcat(db: Db, t: Thread, a: seq<Input>, b: seq<Input>)
    ensures var (db', t') := Alone(db, t, a);
            Alone(db, t, a + b) == Alone(db', t', b)
    decreases |b|
  {
    if b == [] {
      assert a + b == a;
    } else {
      var init, last := b[..|b| - 1], b[|b| - 1];
      var (db', t') := Alone(db, t, a);
      assert b == init + [last];
      Assoc(a, init, [last]);
      AloneConcat(db, t, a, init);
      AloneNext(db, t, a + init, last);
      AloneNext(db', t', init, last);
    }
  }

  /** Two stretches of a call make one. */
  lemma Compose(db: Db, t: Thread, ins: seq<Input>, k: nat, n: nat)
    requires k + n <= |ins|
    ensures var (db', t') := Alone(db, t, ins[..k]);
            Alone(db, t, ins[..k + n]) == Alone(db', t', ins[k..][..n])
  {
    AloneConcat(db, t, ins[..k], ins[k..][..n]);
    assert ins[..k + n] == ins[..k] + ins[k..][..n];
  }
}
