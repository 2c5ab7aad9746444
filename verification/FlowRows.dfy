/**
 What becomes of one login flow: when a granted poll consumes it, and how many
 connection rows the polls of one flow can store over a sequential run.
 */
module FlowRows {
  import opened Options
  import opened Roots
  import opened Tables
  import opened Lifecycle
  import opened Compensation
  import opened Service

  // ---- a granted poll and its flow ----

  predicate Drops(t: Thread) {
    t.Poll? && (t.poll.PollDropSecret? || t.poll.PollDropFlow?)
  }

  /** Both deletions of `_delete_pending` succeed, as far as they are reached. */
  predicate DropsSucceed(db: Db, t: Thread, ins: seq<Input>) {
    ins == [] ||
    (var n := |ins| - 1;
     DropsSucceed(db, t, ins[..n]) && (Drops(Alone(db, t, ins[..n]).1) ==> ins[n].oracle.ok))
  }

  /** Neither the flow nor its poll token is stored. */
  predicate FlowGone(db: Db, row: Pending) {
    GetPending(db, row.flowId, row.tenant).None? && GetSecret(db, row.pollRef, row.tenant).None?
  }

  /** The flow of a granted poll stands until the second deletion, its token until the first. */
  ghost predicate FlowAt(row: Pending, db: Db, t: Thread, granted: bool, dropped: bool) {
    granted ==>
      match t
      case Poll(pc) =>
        (if pc.PollDropFlow? then GetSecret(db, row.pollRef, row.tenant).None?
         else pc.PollSecret? || pc.PollConnection? || pc.PollUndo? || pc.PollDropSecret?)
        && pc.row == row && GetPending(db, row.flowId, row.tenant) == Some(row) && dropped
      case Done(_, _) =>
        if dropped then FlowGone(db, row) else GetPending(db, row.flowId, row.tenant) == Some(row)
      case _ => false
  }

  lemma FlowStep(row: Pending, db: Db, t: Thread, granted: bool, dropped: bool, now: Time, o: Oracle)
    requires FlowAt(row, db, t, granted, dropped) && granted
    ensures var (db', t') := Advance(db, now, t, o); FlowAt(row, db', t', true, dropped && (Drops(t) ==> o.ok))
  {
  }

  /** Up to the grant no deletion has been tried. */
  lemma {:induction false} NoDropsYet(db0: Db, tenant: Tenant, flowId: Id, ins: seq<Input>)
    ensures var start := Poll(PollStart(tenant, flowId));
            var t := Alone(db0, start, ins).1;
            t.Poll? && !Drops(t) && !t.poll.PollConnection? && !t.poll.PollUndo? ==> DropsSucceed(db0, start, ins)
  {
    if ins != [] {
      NoDropsYet(db0, tenant, flowId, ins[..|ins| - 1]);
    }
  }

  lemma FlowGranted(db0: Db, tenant: Tenant, flowId: Id, ins: seq<Input>)
    requires NewIds(db0, ins) && Keyed(db0)
    requires var t := Alone(db0, Poll(PollStart(tenant, flowId)), ins).1; t.Poll? && t.poll.PollSecret?
    ensures var start := Poll(PollStart(tenant, flowId));
            var (db, t) := Alone(db0, start, ins);
            && GetPending(db0, flowId, tenant).Some?
            && FlowAt(GetPending(db0, flowId, tenant).value, db, t, true, DropsSucceed(db0, start, ins))
  {
    var tr := PollTrace(db0, tenant, flowId, ins);
    NoDropsYet(db0, tenant, flowId, ins);
  }

  lemma {:induction false} FlowTrace(db0: Db, tenant: Tenant, flowId: Id, ins: seq<Input>)
    requires NewIds(db0, ins) && Keyed(db0)
    ensures var start := Poll(PollStart(tenant, flowId));
            var (db, t) := Alone(db0, start, ins);
            Grants(db0, start, ins) ==>
              && GetPending(db0, flowId, tenant).Some?
              && FlowAt(GetPending(db0, flowId, tenant).value, db, t, true, DropsSucceed(db0, start, ins))
  {
    var start := Poll(PollStart(tenant, flowId));
    var t' := Alone(db0, start, ins).1;
    if t'.Poll? && t'.poll.PollSecret? {
      FlowGranted(db0, tenant, flowId, ins);
    } else if ins != [] {
      var init, last := ins[..|ins| - 1], ins[|ins| - 1];
      FlowTrace(db0, tenant, flowId, init);
      var (db, t) := Alone(db0, start, init);
      if Grants(db0, start, init) {
        FlowStep(GetPending(db0, flowId, tenant).value, db, t, true, DropsSucceed(db0, start, init), last.now, last.oracle);
      }
    }
  }

  /**
   Once the remote has granted, whether the writes succeed or fail, a finished
   poll has consumed its flow and its poll token if and only if both deletions
   succeed; otherwise the flow still stands and the poll has raised.
   */
  lemma GrantConsumesFlow(db0: Db, tenant: Tenant, flowId: Id, ins: seq<Input>)
    requires NewIds(db0, ins) && Keyed(db0)
    requires Grants(db0, Poll(PollStart(tenant, flowId)), ins) && Alone(db0, Poll(PollStart(tenant, flowId)), ins).1.Done?
    ensures GetPending(db0, flowId, tenant).Some?
    ensures var start := Poll(PollStart(tenant, flowId));
            var (db, t) := Alone(db0, start, ins);
            var row := GetPending(db0, flowId, tenant).value;
            if DropsSucceed(db0, start, ins) then FlowGone(db, row)
            else GetPending(db, flowId, tenant) == Some(row) && t.outcome == Failed(StorageFailed)
  {
    FlowTrace(db0, tenant, flowId, ins);
    DropFails(db0, tenant, flowId, ins);
  }

  /** A deletion that raises is what the poll raises. */
  lemma {:induction false} DropFails(db0: Db, tenant: Tenant, flowId: Id, ins: seq<Input>)
    ensures var start := Poll(PollStart(tenant, flowId));
            var t := Alone(db0, start, ins).1;
            DropsSucceed(db0, start, ins) || (t.Done? && t.outcome == Failed(StorageFailed))
  {
    if ins != [] {
      DropFails(db0, tenant, flowId, ins[..|ins| - 1]);
    }
  }

  // ---- when a poll stores a connection ----

  /** The first `n` guards of a poll: what its reads find, what the clock and the remote say, and the first write. */
  predicate Passes(db: Db, tenant: Tenant, flowId: Id, ins: seq<Input>, n: nat)
    requires n <= |ins|
  {
    var found := GetPending(db, flowId, tenant);
    && (n >= 1 ==> ins[0].oracle.ok && found.Some? && RootFits(found.value.root))
    && (n >= 2 ==> ins[1].now < found.value.expires)
    && (n >= 3 ==> ins[2].oracle.ok && GetSecret(db, found.value.pollRef, tenant).Some?)
    && (n >= 4 ==> ins[3].oracle.answer.Granted?)
    && (n >= 5 ==> ins[4].oracle.ok && ins[4].oracle.ref !in db.secrets)
  }

  /**
   The poll stores a connection: the flow and its token are stored, the reads
   succeed, the flow has not expired, the remote grants and both writes succeed.
   */
  predicate Stores(db: Db, tenant: Tenant, flowId: Id, ins: seq<Input>) {
    |ins| >= 6 && Passes(db, tenant, flowId, ins, 5) && ins[5].oracle.ok
  }

  /** The position of a poll before its second write. */
  function Position(t: Thread): nat {
    match t
    case Poll(PollStart(_, _)) => 0
    case Poll(PollClock(_)) => 1
    case Poll(PollToken(_)) => 2
    case Poll(PollRemote(_)) => 3
    case Poll(PollSecret(_, _)) => 4
    case Poll(PollConnection(_, _, _, _)) => 5
    case _ => 6
  }

  function NewSecret(row: Pending, ins: seq<Input>): Secret
    requires |ins| >= 5 && ins[3].oracle.answer.Granted?
  {
    Secret(row.tenant, ins[3].oracle.answer.credentials.appPassword, ins[4].oracle.stamp)
  }

  /** A poll is at position `n` exactly after `n` steps whose guards it passed. */
  ghost predicate PassedTo(db0: Db, tenant: Tenant, flowId: Id, ins: seq<Input>, db: Db, t: Thread) {
    var n, found := Position(t), GetPending(db0, flowId, tenant);
    && (n < 6 <==> |ins| <= 5 && Passes(db0, tenant, flowId, ins, |ins|))
    && (n < 6 ==> n == |ins|)
    && (n == 0 ==> t.poll.tenant == tenant && t.poll.flowId == flowId)
    && (0 < n < 6 ==> found == Some(t.poll.row))
    && (n <= 4 ==> db == db0)
    && (n == 4 || n == 5 ==> t.poll.credentials == ins[3].oracle.answer.credentials)
    && (n == 5 ==> t.poll.ref == ins[4].oracle.ref
                   && db == db0.(secrets := db0.secrets[ins[4].oracle.ref := NewSecret(found.value, ins)]))
  }

  lemma PassedStep(db0: Db, tenant: Tenant, flowId: Id, ins: seq<Input>, last: Input, db: Db, t: Thread)
    requires PassedTo(db0, tenant, flowId, ins, db, t) && (t.Poll? || t.Done?)
    ensures var (db', t') := Advance(db, last.now, t, last.oracle); PassedTo(db0, tenant, flowId, ins + [last], db', t')
  {
    var ins' := ins + [last];
    assert ins'[..|ins|] == ins && ins'[|ins|] == last;
  }

  lemma {:induction false} PollOrDone(db0: Db, tenant: Tenant, flowId: Id, ins: seq<Input>)
    ensures var t := Alone(db0, Poll(PollStart(tenant, flowId)), ins).1; t.Poll? || t.Done?
  {
    if ins != [] {
      PollOrDone(db0, tenant, flowId, ins[..|ins| - 1]);
    }
  }

  lemma {:induction false} PassedTrace(db0: Db, tenant: Tenant, flowId: Id, ins: seq<Input>)
    ensures var (db, t) := Alone(db0, Poll(PollStart(tenant, flowId)), ins); PassedTo(db0, tenant, flowId, ins, db, t)
  {
    if ins != [] {
      var init, last := ins[..|ins| - 1], ins[|ins| - 1];
      PassedTrace(db0, tenant, flowId, init);
      PollOrDone(db0, tenant, flowId, init);
      var (db, t) := Alone(db0, Poll(PollStart(tenant, flowId)), init);
      PassedStep(db0, tenant, flowId, init, last, db, t);
      assert ins == init + [last];
    }
  }

  function NewRow(db: Db, tenant: Tenant, flowId: Id, ins: seq<Input>): Connection
    requires Stores(db, tenant, flowId, ins)
  {
    NewConnection(GetPending(db, flowId, tenant).value, ins[3].oracle.answer.credentials, ins[4].oracle.ref, ins[5].oracle)
  }

  lemma StoresNext(db: Db, tenant: Tenant, flowId: Id, ins: seq<Input>, last: Input)
    ensures Stores(db, tenant, flowId, ins + [last])
            <==> Stores(db, tenant, flowId, ins) || (|ins| == 5 && Passes(db, tenant, flowId, ins, 5) && last.oracle.ok)
    ensures Stores(db, tenant, flowId, ins) ==>
              NewRow(db, tenant, flowId, ins + [last]) == NewRow(db, tenant, flowId, ins)
              && (ins + [last])[5] == ins[5]
  {
  }

  /** The connection rows of a poll: one more if it stores one, and no other change. */
  ghost predicate RowsAt(db0: Db, tenant: Tenant, flowId: Id, ins: seq<Input>, db: Db) {
    db.connections == if Stores(db0, tenant, flowId, ins) then
                        db0.connections[ins[5].oracle.id := NewRow(db0, tenant, flowId, ins)]
                      else db0.connections
  }

  lemma RowsStep(db0: Db, tenant: Tenant, flowId: Id, ins: seq<Input>, last: Input, db: Db, t: Thread)
    requires RowsAt(db0, tenant, flowId, ins, db) && PassedTo(db0, tenant, flowId, ins, db, t) && (t.Poll? || t.Done?)
    requires last.oracle.id !in db0.connections
    ensures RowsAt(db0, tenant, flowId, ins + [last], Advance(db, last.now, t, last.oracle).0)
  {
    StoresNext(db0, tenant, flowId, ins, last);
    ConnectionsStep(db, t, last.now, last.oracle);
    if Position(t) == 5 {
      assert (ins + [last])[5] == last && (ins + [last])[..5] == ins;
    }
  }

  lemma {:induction false} RowsTrace(db0: Db, tenant: Tenant, flowId: Id, ins: seq<Input>)
    requires NewIds(db0, ins)
    ensures RowsAt(db0, tenant, flowId, ins, Alone(db0, Poll(PollStart(tenant, flowId)), ins).0)
  {
    if ins != [] {
      var init, last := ins[..|ins| - 1], ins[|ins| - 1];
      RowsTrace(db0, tenant, flowId, init);
      PassedTrace(db0, tenant, flowId, init);
      PollOrDone(db0, tenant, flowId, init);
      var (db, t) := Alone(db0, Poll(PollStart(tenant, flowId)), init);
      RowsStep(db0, tenant, flowId, init, last, db, t);
      assert ins == init + [last];
    }
  }

  /** Only the second write of a poll touches the connections. */
  lemma ConnectionsStep(db: Db, t: Thread, now: Time, o: Oracle)
    requires t.Poll? || t.Done?
    ensures Position(t) != 5 || !o.ok ==> Advance(db, now, t, o).0.connections == db.connections
    ensures Position(t) == 5 && o.ok && o.id !in db.connections ==>
              Advance(db, now, t, o).0.connections
              == db.connections[o.id := NewConnection(t.poll.row, t.poll.credentials, t.poll.ref, o)]
  {
  }

  /** Rows that were not there before. */
  function Added(before: Db, after: Db): nat {
    |after.connections.Keys - before.connections.Keys|
  }

  /** A poll stores one connection row if its guards pass, and none otherwise. */
  lemma PollAdds(db0: Db, tenant: Tenant, flowId: Id, ins: seq<Input>)
    requires NewIds(db0, ins)
    ensures var db := Alone(db0, Poll(PollStart(tenant, flowId)), ins).0;
            Added(db0, db) == if Stores(db0, tenant, flowId, ins) then 1 else 0
  {
    var db := Alone(db0, Poll(PollStart(tenant, flowId)), ins).0;
    RowsTrace(db0, tenant, flowId, ins);
    if Stores(db0, tenant, flowId, ins) {
      assert db.connections.Keys - db0.connections.Keys == {ins[5].oracle.id};
    } else {
      assert db.connections.Keys - db0.connections.Keys == {};
    }
  }

  // ---- the token after a stored connection ----

  /** The poll ended, by a crash or a raise, before its token was deleted. */
  predicate KeepsToken(ins: seq<Input>) {
    |ins| <= 6 || !ins[6].oracle.ok
  }

  /** No poll can read a token of this flow again. */
  predicate Spent(db: Db, flowId: Id, ref: Ref) {
    ref !in db.secrets && (flowId in db.pending ==> db.pending[flowId].pollRef == ref)
  }

  lemma ReadyToStore(db0: Db, tenant: Tenant, flowId: Id, ins: seq<Input>)
    requires |ins| >= 5 && Passes(db0, tenant, flowId, ins, 5)
    ensures var (db, t) := Alone(db0, Poll(PollStart(tenant, flowId)), ins[..5]);
            var row := GetPending(db0, flowId, tenant).value;
            && Position(t) == 5 && t.poll.row == row
            && db == db0.(secrets := db0.secrets[ins[4].oracle.ref := NewSecret(row, ins)])
  {
    PassedTrace(db0, tenant, flowId, ins[..5]);
    assert ins[..5][..5] == ins[..5];
  }

  lemma StoreStep(db: Db, now: Time, t: Thread, o: Oracle)
    requires Position(t) == 5 && o.ok && o.id !in db.connections
    ensures var (db', t') := Advance(db, now, t, o);
            && t'.Poll? && t'.poll.PollDropSecret? && t'.poll.row == t.poll.row
            && db'.pending == db.pending && db'.secrets == db.secrets
  {
  }

  lemma Stored(db0: Db, tenant: Tenant, flowId: Id, ins: seq<Input>)
    requires NewIds(db0, ins) && Stores(db0, tenant, flowId, ins)
    ensures var (db, t) := Alone(db0, Poll(PollStart(tenant, flowId)), ins[..6]);
            var row := GetPending(db0, flowId, tenant).value;
            && t.Poll? && t.poll.PollDropSecret? && t.poll.row == row && db.pending == db0.pending
            && db.secrets == db0.secrets[ins[4].oracle.ref := NewSecret(row, ins)]
  {
    ReadyToStore(db0, tenant, flowId, ins);
    Next(db0, Poll(PollStart(tenant, flowId)), ins, 5);
    var (db, t) := Alone(db0, Poll(PollStart(tenant, flowId)), ins[..5]);
    StoreStep(db, ins[5].now, t, ins[5].oracle);
  }

  /** The first deletion succeeds: the token is gone. */
  lemma TokenDropped(db0: Db, tenant: Tenant, flowId: Id, ins: seq<Input>)
    requires NewIds(db0, ins) && Stores(db0, tenant, flowId, ins) && !KeepsToken(ins)
    ensures Spent(Alone(db0, Poll(PollStart(tenant, flowId)), ins[..7]).0, flowId, GetPending(db0, flowId, tenant).value.pollRef)
  {
    Stored(db0, tenant, flowId, ins);
    Next(db0, Poll(PollStart(tenant, flowId)), ins, 6);
  }

  /** It raises: flow and token stand as before, and the poll has raised. */
  lemma TokenStands(db0: Db, tenant: Tenant, flowId: Id, ins: seq<Input>)
    requires NewIds(db0, ins) && Stores(db0, tenant, flowId, ins) && |ins| == 7 && !ins[6].oracle.ok
    ensures var (db, t) := Alone(db0, Poll(PollStart(tenant, flowId)), ins);
            && t == Done(tenant, Failed(StorageFailed)) && db.pending == db0.pending
            && db.secrets == db0.secrets[ins[4].oracle.ref := NewSecret(GetPending(db0, flowId, tenant).value, ins)]
  {
    Stored(db0, tenant, flowId, ins);
    Next(db0, Poll(PollStart(tenant, flowId)), ins, 6);
    assert ins[..7] == ins;
  }

  lemma SpentStep(db: Db, now: Time, t: Thread, o: Oracle, flowId: Id, ref: Ref)
    requires Spent(db, flowId, ref) && NamesNot(t, flowId) && o.id != flowId && o.ref != ref
    ensures Spent(Advance(db, now, t, o).0, flowId, ref) && NamesNot(Advance(db, now, t, o).1, flowId)
  {
  }

  /** The references that a call draws are new. */
  predicate AvoidsRef(ins: seq<Input>, ref: Ref) {
    forall i :: 0 <= i < |ins| ==> ins[i].oracle.ref != ref
  }

  predicate AvoidsId(ins: seq<Input>, id: Id) {
    forall i :: 0 <= i < |ins| ==> ins[i].oracle.id != id
  }

  lemma {:induction false} SpentStays(db: Db, t: Thread, ins: seq<Input>, flowId: Id, ref: Ref)
    requires Spent(db, flowId, ref) && NamesNot(t, flowId) && AvoidsRef(ins, ref) && AvoidsId(ins, flowId)
    ensures Spent(Alone(db, t, ins).0, flowId, ref) && NamesNot(Alone(db, t, ins).1, flowId)
  {
    if ins != [] {
      var init, last := ins[..|ins| - 1], ins[|ins| - 1];
      SpentStays(db, t, init, flowId, ref);
      SpentStep(Alone(db, t, init).0, last.now, Alone(db, t, init).1, last.oracle, flowId, ref);
    }
  }

  // ---- sequential runs ----

  /** Calls from their first step, completed or cut short by a crash, with new ids and references. */
  ghost predicate Fresh(db: Db, calls: seq<Call>, f: Id) {
    forall i :: 0 <= i < |calls| ==> FreshCall(db, calls, i, f)
  }

  ghost predicate FreshCall(db: Db, calls: seq<Call>, i: nat, f: Id)
    requires i < |calls|
  {
    && IsStart(calls[i].start) && AvoidsId(calls[i].ins, f) && NewIds(After(db, calls[..i]), calls[i].ins)
    && (f in db.pending ==> AvoidsRef(calls[i].ins, db.pending[f].pollRef))
  }

  predicate IsPollOf(call: Call, f: Id) {
    call.start.Poll? && call.start.poll.PollStart? && call.start.poll.flowId == f
  }

  /** How many connection rows the polls of flow `f` have stored. */
  function Rows(db: Db, calls: seq<Call>, f: Id): nat {
    if calls == [] then 0 else
    var n := |calls| - 1;
    Rows(db, calls[..n], f) + if IsPollOf(calls[n], f) then Added(After(db, calls[..n]), After(db, calls)) else 0
  }

  /** Call `i` is a poll of `f` whose guards pass: flow and token stored, not expired, granted, writes succeed. */
  predicate StoresAt(db: Db, calls: seq<Call>, i: nat, f: Id) {
    i < |calls| && IsPollOf(calls[i], f) && Stores(After(db, calls[..i]), calls[i].start.poll.tenant, f, calls[i].ins)
  }

  lemma StoresAtPrefix(db: Db, calls: seq<Call>, n: nat, i: nat, f: Id)
    requires i < n <= |calls|
    ensures StoresAt(db, calls[..n], i, f) <==> StoresAt(db, calls, i, f)
  {
    assert calls[..n][..i] == calls[..i];
  }

  lemma RowsNext(db: Db, calls: seq<Call>, f: Id)
    requires calls != [] && Fresh(db, calls, f)
    ensures var n := |calls| - 1;
            Rows(db, calls, f) == Rows(db, calls[..n], f) + if StoresAt(db, calls, n, f) then 1 else 0
  {
    var n := |calls| - 1;
    assert FreshCall(db, calls, n, f);
    if IsPollOf(calls[n], f) {
      PollAdds(After(db, calls[..n]), calls[n].start.poll.tenant, f, calls[n].ins);
    }
  }

  lemma FreshPrefix(db: Db, calls: seq<Call>, n: nat, f: Id)
    requires n <= |calls| && Fresh(db, calls, f)
    ensures Fresh(db, calls[..n], f)
  {
    forall i | 0 <= i < n ensures FreshCall(db, calls[..n], i, f) {
      assert FreshCall(db, calls, i, f);
      assert calls[..n][..i] == calls[..i];
    }
  }

  ghost predicate StoresOnce(db: Db, calls: seq<Call>, f: Id) {
    exists i: nat :: StoresAt(db, calls, i, f)
  }

  ghost predicate StoresTwice(db: Db, calls: seq<Call>, f: Id) {
    exists i: nat, j: nat :: i < j && StoresAt(db, calls, i, f) && StoresAt(db, calls, j, f)
  }

  lemma StoresOnceNext(db: Db, calls: seq<Call>, n: nat, f: Id)
    requires n + 1 == |calls|
    ensures StoresOnce(db, calls, f) <==> StoresOnce(db, calls[..n], f) || StoresAt(db, calls, n, f)
  {
    if i: nat :| StoresAt(db, calls, i, f) && i < n {
      StoresAtPrefix(db, calls, n, i, f);
      assert StoresAt(db, calls[..n], i, f);
    }
    if i: nat :| StoresAt(db, calls[..n], i, f) {
      StoresAtPrefix(db, calls, n, i, f);
    }
  }

  lemma TwoStoresSplit(db: Db, calls: seq<Call>, n: nat, i: nat, j: nat, f: Id)
    requires n + 1 == |calls| && i < j <= n && StoresAt(db, calls, i, f) && StoresAt(db, calls, j, f)
    ensures StoresTwice(db, calls[..n], f) || (StoresOnce(db, calls[..n], f) && StoresAt(db, calls, n, f))
  {
    hide StoresAt;
    StoresAtPrefix(db, calls, n, i, f);
    assert StoresAt(db, calls[..n], i, f);
    if j < n {
      StoresAtPrefix(db, calls, n, j, f);
      assert StoresAt(db, calls[..n], j, f);
    }
  }

  lemma StoresTwiceSplits(db: Db, calls: seq<Call>, n: nat, f: Id)
    requires n + 1 == |calls| && StoresTwice(db, calls, f)
    ensures StoresTwice(db, calls[..n], f) || (StoresOnce(db, calls[..n], f) && StoresAt(db, calls, n, f))
  {
    var i: nat, j: nat :| i < j && StoresAt(db, calls, i, f) && StoresAt(db, calls, j, f);
    TwoStoresSplit(db, calls, n, i, j, f);
  }

  lemma StoresTwiceEarlier(db: Db, calls: seq<Call>, n: nat, f: Id)
    requires n + 1 == |calls| && StoresTwice(db, calls[..n], f)
    ensures StoresTwice(db, calls, f)
  {
    var i: nat, j: nat :| i < j && StoresAt(db, calls[..n], i, f) && StoresAt(db, calls[..n], j, f);
    StoresAtPrefix(db, calls, n, i, f);
    StoresAtPrefix(db, calls, n, j, f);
  }

  lemma StoresTwiceNow(db: Db, calls: seq<Call>, n: nat, f: Id)
    requires n + 1 == |calls| && StoresOnce(db, calls[..n], f) && StoresAt(db, calls, n, f)
    ensures StoresTwice(db, calls, f)
  {
    var i: nat :| StoresAt(db, calls[..n], i, f);
    StoresAtPrefix(db, calls, n, i, f);
  }

  lemma {:induction false} RowsCount(db: Db, calls: seq<Call>, f: Id)
    requires Fresh(db, calls, f)
    ensures Rows(db, calls, f) >= 1 <==> StoresOnce(db, calls, f)
    ensures Rows(db, calls, f) >= 2 <==> StoresTwice(db, calls, f)
  {
    if calls != [] {
      var n := |calls| - 1;
      FreshPrefix(db, calls, n, f);
      RowsCount(db, calls[..n], f);
      RowsNext(db, calls, f);
      StoresOnceNext(db, calls, n, f);
      if StoresTwice(db, calls, f) {
        StoresTwiceSplits(db, calls, n, f);
      }
      if StoresTwice(db, calls[..n], f) {
        StoresTwiceEarlier(db, calls, n, f);
      } else if StoresOnce(db, calls[..n], f) && StoresAt(db, calls, n, f) {
        StoresTwiceNow(db, calls, n, f);
      }
    }
  }

  // ---- no second row once the token is gone ----

  /** The row of the flow never changes: it stands as it was or is gone. */
  predicate RowStands(db: Db, f: Id, row: Pending) {
    f in db.pending ==> db.pending[f] == row
  }

  lemma RowStep(db: Db, now: Time, t: Thread, o: Oracle, f: Id, row: Pending)
    requires RowStands(db, f, row) && NamesNot(t, f) && o.id != f
    ensures RowStands(Advance(db, now, t, o).0, f, row) && NamesNot(Advance(db, now, t, o).1, f)
  {
  }

  lemma {:induction false} RowStays(db: Db, t: Thread, ins: seq<Input>, f: Id, row: Pending)
    requires RowStands(db, f, row) && NamesNot(t, f) && AvoidsId(ins, f)
    ensures RowStands(Alone(db, t, ins).0, f, row) && NamesNot(Alone(db, t, ins).1, f)
  {
    if ins != [] {
      var init, last := ins[..|ins| - 1], ins[|ins| - 1];
      RowStays(db, t, init, f, row);
      RowStep(Alone(db, t, init).0, last.now, Alone(db, t, init).1, last.oracle, f, row);
    }
  }

  /** A flow that is stored was there from the start: no call reuses its id. */
  lemma {:induction false} RowWas(db: Db, calls: seq<Call>, n: nat, f: Id)
    requires n <= |calls| && Fresh(db, calls, f)
    ensures f in After(db, calls[..n]).pending ==> f in db.pending && After(db, calls[..n]).pending[f] == db.pending[f]
  {
    if n > 0 {
      RowWas(db, calls, n - 1, f);
      assert FreshCall(db, calls, n - 1, f);
      assert calls[..n][..n - 1] == calls[..n - 1];
      var before, call := After(db, calls[..n - 1]), calls[n - 1];
      if f in before.pending {
        RowStays(before, call.start, call.ins, f, db.pending[f]);
      } else {
        CallKeepsGone(before, call, call.ins, f);
      }
      if f in before.pending && f in Alone(before, call.start, call.ins).0.pending {
        assert RowStands(Alone(before, call.start, call.ins).0, f, db.pending[f]);
      }
    }
  }

  lemma SpentAfterCall(db: Db, calls: seq<Call>, i: nat, f: Id)
    requires Fresh(db, calls, f) && StoresAt(db, calls, i, f) && !KeepsToken(calls[i].ins)
    ensures f in db.pending && Spent(After(db, calls[..i + 1]), f, db.pending[f].pollRef)
  {
    var before, call := After(db, calls[..i]), calls[i];
    assert FreshCall(db, calls, i, f);
    RowWas(db, calls, i, f);
    var ref := db.pending[f].pollRef;
    TokenDropped(before, call.start.poll.tenant, f, call.ins);
    var (db7, t7) := Alone(before, call.start, call.ins[..7]);
    PollOrDone(before, call.start.poll.tenant, f, call.ins[..7]);
    SpentStays(db7, t7, call.ins[7..], f, ref);
    AloneConcat(before, call.start, call.ins[..7], call.ins[7..]);
    assert call.ins[..7] + call.ins[7..] == call.ins;
    assert calls[..i + 1][..i] == calls[..i];
  }

  lemma {:induction false} SpentUntil(db: Db, calls: seq<Call>, i: nat, j: nat, f: Id, ref: Ref)
    requires Fresh(db, calls, f) && i <= j <= |calls| && f in db.pending && db.pending[f].pollRef == ref
    requires Spent(After(db, calls[..i]), f, ref)
    ensures Spent(After(db, calls[..j]), f, ref)
  {
    if i < j {
      SpentUntil(db, calls, i, j - 1, f, ref);
      assert FreshCall(db, calls, j - 1, f);
      assert calls[..j][..j - 1] == calls[..j - 1];
      SpentStays(After(db, calls[..j - 1]), calls[j - 1].start, calls[j - 1].ins, f, ref);
    }
  }

  /** After a poll that stored a connection and deleted the token, no poll of the flow stores another one. */
  lemma NoSecondRow(db: Db, calls: seq<Call>, i: nat, j: nat, f: Id)
    requires Fresh(db, calls, f) && i < j && StoresAt(db, calls, i, f) && !KeepsToken(calls[i].ins)
    ensures !StoresAt(db, calls, j, f)
  {
    if j < |calls| {
      SpentAfterCall(db, calls, i, f);
      SpentUntil(db, calls, i + 1, j, f, db.pending[f].pollRef);
    }
  }

  /** A poll stores a connection, its token stays, and a later poll of the flow is granted and stores another one. */
  ghost predicate Repeats(db: Db, calls: seq<Call>, f: Id) {
    exists i: nat, j: nat ::
      i < j && StoresAt(db, calls, i, f) && KeepsToken(calls[i].ins) && StoresAt(db, calls, j, f)
  }

  /**
   Over every sequential run, crashes included, the polls of a flow store at
   most one connection row if and only if no second granted poll follows one
   that stored its connection and left its token: by a raise of the first
   deletion or by a crash before it.
   */
  lemma OneRowPerFlow(db: Db, calls: seq<Call>, f: Id)
    requires Fresh(db, calls, f)
    ensures Rows(db, calls, f) <= 1 <==> !Repeats(db, calls, f)
  {
    RowsCount(db, calls, f);
    if i: nat, j: nat :| i < j && StoresAt(db, calls, i, f) && StoresAt(db, calls, j, f) {
      if !KeepsToken(calls[i].ins) {
        NoSecondRow(db, calls, i, j, f);
      }
      assert Repeats(db, calls, f);
    }
  }

  /** Every poll of the flow that stores a connection deletes its token. */
  ghost predicate TokensDropped(db: Db, calls: seq<Call>, f: Id) {
    forall i: nat :: StoresAt(db, calls, i, f) ==> !KeepsToken(calls[i].ins)
  }

  /** The remote grants at most one poll of the flow. */
  ghost predicate GrantedOnce(calls: seq<Call>, f: Id) {
    forall i, j :: 0 <= i < j < |calls| && GrantedPoll(calls[i], f) ==> !GrantedPoll(calls[j], f)
  }

  predicate GrantedPoll(call: Call, f: Id) {
    IsPollOf(call, f) && |call.ins| >= 4 && call.ins[3].oracle.answer.Granted?
  }

  /** If the deletions succeed, or the remote grants once, a flow leads to at most one connection row. */
  lemma OneRowIfDroppedOrGrantedOnce(db: Db, calls: seq<Call>, f: Id)
    requires Fresh(db, calls, f) && (TokensDropped(db, calls, f) || GrantedOnce(calls, f))
    ensures Rows(db, calls, f) <= 1
  {
    OneRowPerFlow(db, calls, f);
    if i: nat, j: nat :| i < j && StoresAt(db, calls, i, f) && KeepsToken(calls[i].ins) && StoresAt(db, calls, j, f) {
      assert GrantedPoll(calls[i], f) && GrantedPoll(calls[j], f);
    }
  }

  // ---- two rows ----

  /** What a poll draws and hears: a granted poll at `now`. */
  function Granting(now: Time, ok: bool, ref: Ref, id: Id, credentials: Credentials): Input {
    Input(now, Oracle(ok, ref, id, now, Granted(credentials), false))
  }

  /** Every step of the poll succeeds up to the deletion of the token, which raises. */
  function Attempt(now: Time, ref: Ref, id: Id, credentials: Credentials): seq<Input> {
    seq(7, i => Granting(now, i < 6, ref, id, credentials))
  }

  lemma AttemptStores(db: Db, tenant: Tenant, f: Id, now: Time, ref: Ref, id: Id, credentials: Credentials)
    requires ReadPending(db, f, tenant).Found? && now < GetPending(db, f, tenant).value.expires
    requires GetSecret(db, GetPending(db, f, tenant).value.pollRef, tenant).Some?
    requires ref !in db.secrets && id !in db.connections
    ensures var row, ins := GetPending(db, f, tenant).value, Attempt(now, ref, id, credentials);
            var (db', t) := Alone(db, Poll(PollStart(tenant, f)), ins);
            && Stores(db, tenant, f, ins) && KeepsToken(ins) && t == Done(tenant, Failed(StorageFailed))
            && db'.pending == db.pending && db'.secrets.Keys == db.secrets.Keys + {ref}
            && GetSecret(db', row.pollRef, tenant) == GetSecret(db, row.pollRef, tenant)
            && db'.connections == db.connections[id := Connection(id, row.tenant, credentials.server, credentials.login,
                                                                  row.root, ref, now)]
  {
    var ins := Attempt(now, ref, id, credentials);
    AttemptShape(db, now, ref, id, credentials);
    assert Stores(db, tenant, f, ins);
    TokenStands(db, tenant, f, ins);
    RowsTrace(db, tenant, f, ins);
  }

  lemma AttemptShape(db: Db, now: Time, ref: Ref, id: Id, credentials: Credentials)
    ensures var ins := Attempt(now, ref, id, credentials);
            && |ins| == 7 && (forall i :: 0 <= i < 7 ==> ins[i] == Granting(now, i < 6, ref, id, credentials))
            && (id !in db.connections ==> NewIds(db, ins))
  {
  }

  /**
   From any tables with a live flow: two granted polls whose first deletion
   raises store two connections with the flow's root, and both calls fail.
   */
  lemma TwoGrantsStoreTwoRows(db: Db, tenant: Tenant, f: Id, now: Time, ref: Ref, id: Id, ref': Ref, id': Id,
                              credentials: Credentials, credentials': Credentials)
    requires ReadPending(db, f, tenant).Found? && now < GetPending(db, f, tenant).value.expires
    requires GetSecret(db, GetPending(db, f, tenant).value.pollRef, tenant).Some?
    requires ref !in db.secrets && ref' !in db.secrets && ref != ref'
    requires id !in db.connections && id' !in db.connections && id != id' && id != f && id' != f
    ensures var start := Poll(PollStart(tenant, f));
            var first, second := Call(start, Attempt(now, ref, id, credentials)),
                                 Call(start, Attempt(now, ref', id', credentials'));
            var db1, db2 := After(db, [first]), After(db, [first, second]);
            && Fresh(db, [first, second], f) && Rows(db, [first, second], f) == 2
            && Alone(db, start, first.ins).1 == Done(tenant, Failed(StorageFailed))
            && Alone(db1, start, second.ins).1 == Done(tenant, Failed(StorageFailed))
            && id in db2.connections && id' in db2.connections
            && db2.connections[id].root == db2.connections[id'].root == GetPending(db, f, tenant).value.root
  {
    var start := Poll(PollStart(tenant, f));
    var first, second := Call(start, Attempt(now, ref, id, credentials)),
                         Call(start, Attempt(now, ref', id', credentials'));
    AttemptStores(db, tenant, f, now, ref, id, credentials);
    AfterTwo(db, first, second);
    AttemptStores(After(db, [first]), tenant, f, now, ref', id', credentials');
    AttemptsAreFresh(db, tenant, f, first, second, now, ref, id, ref', id', credentials, credentials');
    assert StoresAt(db, [first, second], 0, f) && StoresAt(db, [first, second], 1, f);
    RowsCount(db, [first, second], f);
    TwoCallsTwoRows(db, first, second, f);
  }

  lemma AttemptsAreFresh(db: Db, tenant: Tenant, f: Id, first: Call, second: Call, now: Time, ref: Ref, id: Id,
                         ref': Ref, id': Id, credentials: Credentials, credentials': Credentials)
    requires first == Call(Poll(PollStart(tenant, f)), Attempt(now, ref, id, credentials))
    requires second == Call(Poll(PollStart(tenant, f)), Attempt(now, ref', id', credentials'))
    requires f in db.pending ==> ref != db.pending[f].pollRef && ref' != db.pending[f].pollRef
    requires id !in db.connections && id != f && id' !in After(db, [first]).connections && id' != f
    ensures Fresh(db, [first, second], f)
  {
    AfterTwo(db, first, second);
    AttemptShape(db, now, ref, id, credentials);
    AttemptShape(After(db, [first]), now, ref', id', credentials');
    assert FreshCall(db, [first, second], 0, f) && FreshCall(db, [first, second], 1, f);
  }

  lemma AfterTwo(db: Db, first: Call, second: Call)
    ensures After(db, [first]) == Alone(db, first.start, first.ins).0
    ensures After(db, [first, second]) == Alone(After(db, [first]), second.start, second.ins).0
    ensures [first, second][..0] == [] && [first, second][..1] == [first]
  {
    assert [first][..0] == [] && [first, second][..1] == [first];
  }

  lemma TwoCallsTwoRows(db: Db, first: Call, second: Call, f: Id)
    requires Fresh(db, [first, second], f)
    ensures Rows(db, [first, second], f) <= 2
  {
    var calls := [first, second];
    assert calls[..1] == [first] && [first][..0] == [];
    RowsNext(db, calls, f);
    FreshPrefix(db, calls, 1, f);
    RowsNext(db, [first], f);
  }
}
