/**
 Service calls that run to their end undisturbed: what each outcome says about
 the tables, for every combination of failing statements and remote answers.
 */
module Compensation {
  import opened Options
  import opened Roots
  import opened Tables
  import opened Lifecycle

  /** The clock and the oracle of one step. */
  datatype Input = Input(now: Time, oracle: Oracle)

  /** A call's steps with nobody else in between. */
  function Alone(db: Db, t: Thread, ins: seq<Input>): (Db, Thread) {
    if ins == [] then (db, t) else
    var (db', t') := Alone(db, t, ins[..|ins| - 1]);
    Advance(db', ins[|ins| - 1].now, t', ins[|ins| - 1].oracle)
  }

  // ---- poll_connection ----

  /** What a poll may add to the tables. */
  datatype Effect =
    | Nothing
    | Orphan(ref: Ref, secret: Secret)
    | Link(connection: Connection, secret: Secret)

  function Apply(db: Db, e: Effect): Db {
    match e
    case Nothing => db
    case Orphan(ref, secret) => db.(secrets := db.secrets[ref := secret])
    case Link(c, secret) => db.(secrets := db.secrets[c.ref := secret], connections := db.connections[c.id := c])
  }

  /** How far `_delete_pending` has come. */
  datatype Drop = Intact | TokenDropped | FlowDropped

  function Dropped(db: Db, row: Pending, drop: Drop): Db {
    match drop
    case Intact => db
    case TokenDropped => DeleteSecret(db, row.pollRef, row.tenant)
    case FlowDropped => DeletePending(DeleteSecret(db, row.pollRef, row.tenant), row.flowId, row.tenant)
  }

  /** The remote answers among the inputs. */
  function Heard(ins: seq<Input>): set<Answer> {
    set i | 0 <= i < |ins| :: ins[i].oracle.answer
  }

  /** `e` only adds a new reference and a new connection built from the flow and the granted credentials. */
  ghost predicate Proper(db: Db, row: Pending, e: Effect, credentials: Credentials, heard: set<Answer>) {
    (e != Nothing ==> Granted(credentials) in heard) &&
    match e
    case Nothing => true
    case Orphan(ref, secret) =>
      ref !in db.secrets && secret.tenant == row.tenant && secret.value == credentials.appPassword
    case Link(c, secret) =>
      && c.ref !in db.secrets && c.id !in db.connections
      && secret.tenant == row.tenant && secret.value == credentials.appPassword
      && c.tenant == row.tenant && c.root == row.root
      && c.baseUrl == credentials.server && c.login == credentials.login
  }

  /** The trace of a poll: everything its program counter says about the tables it started from. */
  datatype Trace = Trace(effect: Effect, drop: Drop, credentials: Credentials)

  ghost predicate PollAt(db0: Db, tenant: Tenant, flowId: Id, db: Db, t: Thread, tr: Trace, heard: set<Answer>, calm: bool) {
    match t
    case Poll(PollStart(tn, f)) => tn == tenant && f == flowId && db == db0
    case Poll(pc) =>
      && ReadPending(db0, flowId, tenant) == Found(pc.row)
      && Proper(db0, pc.row, tr.effect, tr.credentials, heard)
      && db == Dropped(Apply(db0, tr.effect), pc.row, tr.drop)
      && (match pc
          case PollSecret(_, credentials) =>
            Granted(credentials) in heard && tr.effect == Nothing && tr.drop == Intact
          case PollConnection(_, credentials, ref, _) =>
            tr.credentials == credentials && tr.effect.Orphan? && tr.effect.ref == ref && tr.drop == Intact
          case PollUndo(_, ref) => tr.effect.Orphan? && tr.effect.ref == ref && tr.drop == Intact
          case PollDropSecret(_, outcome) => tr.drop == Intact && Settled(outcome, tr.effect, calm)
          case PollDropFlow(_, outcome) => tr.drop == TokenDropped && Settled(outcome, tr.effect, calm)
          case _ => tr.effect == Nothing && tr.drop == Intact)
    case Done(tn, outcome) => tn == tenant && PollDone(db0, flowId, db, tenant, outcome, tr, heard, calm)
    case _ => false
  }

  /** The outcome on its way through `finally`, and what stands in the tables for it. */
  ghost predicate Settled(outcome: Outcome, e: Effect, calm: bool) {
    match outcome
    case Connected(summary) => e.Link? && summary == Summarize(e.connection)
    case Failed(Expired) => e == Nothing
    case Failed(CredentialUnavailable) => e == Nothing
    case Failed(StorageFailed) => !e.Link? && (calm ==> e == Nothing)
    case _ => false
  }

  /** The final states of a poll; `calm` says that none of its deletions raised. */
  ghost predicate PollDone(db0: Db, flowId: Id, db: Db, tenant: Tenant, outcome: Outcome, tr: Trace, heard: set<Answer>, calm: bool) {
    var found := GetPending(db0, flowId, tenant);
    match outcome
    case StillPending => db == db0 && NotYet in heard
    case Failed(NotFound) => db == db0 && found.None?
    case Failed(BadRecord) => db == db0 && found.Some? && !RootFits(found.value.root)
    case Failed(LinkingFailed) => db == db0 && Refused in heard
    case Failed(StorageFailed) =>
      || db == db0
      || (&& found.Some? && Proper(db0, found.value, tr.effect, tr.credentials, heard)
          && db == Dropped(Apply(db0, tr.effect), found.value, tr.drop)
          && (calm ==> tr.effect == Nothing && tr.drop == FlowDropped))
    case _ =>
      && found.Some? && RootFits(found.value.root)
      && Proper(db0, found.value, tr.effect, tr.credentials, heard)
      && db == Dropped(Apply(db0, tr.effect), found.value, FlowDropped) && Settled(outcome, tr.effect, calm)
  }

  predicate Deletes(t: Thread) {
    t.Poll? && (t.poll.PollUndo? || t.poll.PollDropSecret? || t.poll.PollDropFlow?)
  }

  /** No deletion of the call raises. */
  predicate Calm(db: Db, t: Thread, ins: seq<Input>) {
    ins == [] ||
    (var n := |ins| - 1;
     Calm(db, t, ins[..n]) && (Deletes(Alone(db, t, ins[..n]).1) ==> ins[n].oracle.ok))
  }

  /** The random connection ids are not in use. */
  predicate NewIds(db: Db, ins: seq<Input>) {
    forall i :: 0 <= i < |ins| ==> ins[i].oracle.id !in db.connections
  }

  lemma PollReads(db0: Db, tenant: Tenant, flowId: Id, db: Db, t: Thread, tr: Trace, heard: set<Answer>, calm: bool, now: Time, o: Oracle)
    requires PollAt(db0, tenant, flowId, db, t, tr, heard, calm) && t.Poll?
    requires t.poll.PollStart? || t.poll.PollClock? || t.poll.PollToken? || t.poll.PollRemote?
    ensures var (db', t') := Advance(db, now, t, o);
            PollAt(db0, tenant, flowId, db', t', Trace(Nothing, Intact, tr.credentials), heard + {o.answer}, calm)
  {
  }

  lemma PollWrites(db0: Db, tenant: Tenant, flowId: Id, db: Db, t: Thread, tr: Trace, heard: set<Answer>, calm: bool, now: Time, o: Oracle)
    returns (tr': Trace)
    requires PollAt(db0, tenant, flowId, db, t, tr, heard, calm) && o.id !in db0.connections && t.Poll?
    requires t.poll.PollSecret? || t.poll.PollConnection?
    ensures var (db', t') := Advance(db, now, t, o); PollAt(db0, tenant, flowId, db', t', tr', heard + {o.answer}, calm)
  {
    var row := t.poll.row;
    match t.poll
    case PollSecret(_, credentials) =>
      var put := o.ok && o.ref !in db.secrets;
      var secret := Secret(row.tenant, credentials.appPassword, o.stamp);
      tr' := Trace(if put then Orphan(o.ref, secret) else Nothing, Intact, credentials);
    case PollConnection(_, credentials, ref, _) =>
      var c := NewConnection(row, credentials, ref, o);
      tr' := if o.ok then tr.(effect := Link(c, tr.effect.secret)) else tr;
  }

  lemma PollUndoes(db0: Db, tenant: Tenant, flowId: Id, db: Db, t: Thread, tr: Trace, heard: set<Answer>, calm: bool, now: Time, o: Oracle)
    returns (tr': Trace)
    requires PollAt(db0, tenant, flowId, db, t, tr, heard, calm) && t.Poll? && t.poll.PollUndo?
    ensures var (db', t') := Advance(db, now, t, o); PollAt(db0, tenant, flowId, db', t', tr', heard + {o.answer}, calm && o.ok)
  {
    tr' := if o.ok then tr.(effect := Nothing) else tr;
    assert (db0.secrets[t.poll.ref := tr.effect.secret]) - {t.poll.ref} == db0.secrets;
  }

  lemma PollDropsToken(db0: Db, tenant: Tenant, flowId: Id, db: Db, t: Thread, tr: Trace, heard: set<Answer>, calm: bool, now: Time, o: Oracle)
    returns (tr': Trace)
    requires PollAt(db0, tenant, flowId, db, t, tr, heard, calm) && t.Poll? && t.poll.PollDropSecret?
    ensures var (db', t') := Advance(db, now, t, o); PollAt(db0, tenant, flowId, db', t', tr', heard + {o.answer}, calm && o.ok)
  {
    tr' := if o.ok then tr.(drop := TokenDropped) else tr;
  }

  lemma PollDropsFlow(db0: Db, tenant: Tenant, flowId: Id, db: Db, t: Thread, tr: Trace, heard: set<Answer>, calm: bool, now: Time, o: Oracle)
    returns (tr': Trace)
    requires PollAt(db0, tenant, flowId, db, t, tr, heard, calm) && t.Poll? && t.poll.PollDropFlow?
    ensures var (db', t') := Advance(db, now, t, o); PollAt(db0, tenant, flowId, db', t', tr', heard + {o.answer}, calm && o.ok)
  {
    tr' := if o.ok then tr.(drop := FlowDropped) else tr;
  }

  lemma PollDrops(db0: Db, tenant: Tenant, flowId: Id, db: Db, t: Thread, tr: Trace, heard: set<Answer>, calm: bool, now: Time, o: Oracle)
    returns (tr': Trace)
    requires PollAt(db0, tenant, flowId, db, t, tr, heard, calm) && Deletes(t)
    ensures var (db', t') := Advance(db, now, t, o); PollAt(db0, tenant, flowId, db', t', tr', heard + {o.answer}, calm && o.ok)
  {
    if t.poll.PollUndo? {
      tr' := PollUndoes(db0, tenant, flowId, db, t, tr, heard, calm, now, o);
    } else if t.poll.PollDropSecret? {
      tr' := PollDropsToken(db0, tenant, flowId, db, t, tr, heard, calm, now, o);
    } else {
      tr' := PollDropsFlow(db0, tenant, flowId, db, t, tr, heard, calm, now, o);
    }
  }

  /** A finished poll stays as it is. */
  lemma PollRests(db0: Db, tenant: Tenant, flowId: Id, db: Db, t: Thread, tr: Trace, heard: set<Answer>, calm: bool, now: Time, o: Oracle)
    requires PollAt(db0, tenant, flowId, db, t, tr, heard, calm) && !t.Poll?
    ensures var (db', t') := Advance(db, now, t, o); PollAt(db0, tenant, flowId, db', t', tr, heard + {o.answer}, calm)
  {
  }

  lemma PollStarts(db0: Db, tenant: Tenant, flowId: Id)
    ensures PollAt(db0, tenant, flowId, db0, Poll(PollStart(tenant, flowId)), Trace(Nothing, Intact, Credentials("", "", "")),
                   {}, true)
  {
  }

  lemma {:induction false} PollTrace(db0: Db, tenant: Tenant, flowId: Id, ins: seq<Input>) returns (tr: Trace)
    requires NewIds(db0, ins)
    ensures var start := Poll(PollStart(tenant, flowId));
            var (db, t) := Alone(db0, start, ins);
            PollAt(db0, tenant, flowId, db, t, tr, Heard(ins), Calm(db0, start, ins))
  {
    hide PollAt, Advance;
    var start := Poll(PollStart(tenant, flowId));
    if ins == [] {
      PollStarts(db0, tenant, flowId);
      assert Heard(ins) == {} && Calm(db0, start, ins);
      tr := Trace(Nothing, Intact, Credentials("", "", ""));
    } else {
      var n := |ins| - 1;
      var before := PollTrace(db0, tenant, flowId, ins[..n]);
      var (db, t) := Alone(db0, start, ins[..n]);
      assert Heard(ins) == Heard(ins[..n]) + {ins[n].oracle.answer};
      var heard, calm, now, o := Heard(ins[..n]), Calm(db0, start, ins[..n]), ins[n].now, ins[n].oracle;
      assert Calm(db0, start, ins) == (calm && (Deletes(t) ==> o.ok));
      if !t.Poll? {
        PollRests(db0, tenant, flowId, db, t, before, heard, calm, now, o);
        tr := before;
      } else if Deletes(t) {
        tr := PollDrops(db0, tenant, flowId, db, t, before, heard, calm, now, o);
      } else if t.poll.PollSecret? || t.poll.PollConnection? {
        tr := PollWrites(db0, tenant, flowId, db, t, before, heard, calm, now, o);
      } else {
        PollReads(db0, tenant, flowId, db, t, before, heard, calm, now, o);
        tr := Trace(Nothing, Intact, before.credentials);
      }
    }
  }

  /** The remote has granted: the run has reached the first write of the poll. */
  predicate Grants(db: Db, t: Thread, ins: seq<Input>) {
    || (Alone(db, t, ins).1.Poll? && Alone(db, t, ins).1.poll.PollSecret?)
    || (ins != [] && Grants(db, t, ins[..|ins| - 1]))
  }

  /** Where a poll can be before and after the grant. */
  ghost predicate GrantAt(t: Thread, granted: bool) {
    match t
    case Poll(pc) =>
      if pc.PollDropSecret? || pc.PollDropFlow? then
        granted <==> pc.outcome.Connected? || pc.outcome == Failed(StorageFailed)
      else granted <==> pc.PollSecret? || pc.PollConnection? || pc.PollUndo?
    case Done(_, outcome) => outcome != Failed(StorageFailed) ==> (granted <==> outcome.Connected?)
    case _ => false
  }

  lemma {:induction false} GrantTrace(db0: Db, tenant: Tenant, flowId: Id, ins: seq<Input>)
    ensures var start := Poll(PollStart(tenant, flowId));
            GrantAt(Alone(db0, start, ins).1, Grants(db0, start, ins))
  {
    if ins != [] {
      GrantTrace(db0, tenant, flowId, ins[..|ins| - 1]);
    }
  }

  /** A storage failure consumes the flow and nothing else after the grant, and changes nothing before it. */
  ghost predicate StorageEnd(db0: Db, tenant: Tenant, flowId: Id, db: Db, t: Thread, granted: bool, calm: bool) {
    t.Done? && t.outcome == Failed(StorageFailed) && calm ==>
      var found := GetPending(db0, flowId, tenant);
      if granted then found.Some? && db == Dropped(db0, found.value, FlowDropped) else db == db0
  }

  lemma {:induction false} StorageTrace(db0: Db, tenant: Tenant, flowId: Id, ins: seq<Input>)
    requires NewIds(db0, ins)
    ensures var start := Poll(PollStart(tenant, flowId));
            var (db, t) := Alone(db0, start, ins);
            StorageEnd(db0, tenant, flowId, db, t, Grants(db0, start, ins), Calm(db0, start, ins))
  {
    if ins != [] {
      var init, start := ins[..|ins| - 1], Poll(PollStart(tenant, flowId));
      StorageTrace(db0, tenant, flowId, init);
      GrantTrace(db0, tenant, flowId, init);
      var tr := PollTrace(db0, tenant, flowId, init);
      var last := ins[|ins| - 1];
      var (db, t) := Alone(db0, start, init);
      StorageStep(db0, tenant, flowId, db, t, tr, Heard(init), Grants(db0, start, init), Calm(db0, start, init),
                  last.now, last.oracle);
    }
  }

  lemma StorageStep(db0: Db, tenant: Tenant, flowId: Id, db: Db, t: Thread, tr: Trace, heard: set<Answer>,
                    granted: bool, calm: bool, now: Time, o: Oracle)
    requires PollAt(db0, tenant, flowId, db, t, tr, heard, calm) && GrantAt(t, granted)
    requires StorageEnd(db0, tenant, flowId, db, t, granted, calm)
    ensures var (db', t') := Advance(db, now, t, o);
            StorageEnd(db0, tenant, flowId, db', t', granted, calm && (Deletes(t) ==> o.ok))
  {
  }

  /**
   A poll whose deletions do not raise ends in one of four ways: untouched
   tables, when the remote has not granted, the flow is unknown or unreadable, or
   a read before the grant failed; the flow and its token gone and nothing else, when
   the flow was expired or unusable or a write after the grant failed; or the
   same plus exactly one connection with the flow's root and the granted app
   password behind it.
   */
  lemma PollIsAllOrNothing(db0: Db, tenant: Tenant, flowId: Id, ins: seq<Input>)
    requires NewIds(db0, ins) && Calm(db0, Poll(PollStart(tenant, flowId)), ins)
    requires Alone(db0, Poll(PollStart(tenant, flowId)), ins).1.Done?
    ensures var (db, t) := Alone(db0, Poll(PollStart(tenant, flowId)), ins);
            PollOutcome(db0, tenant, flowId, db, t.outcome, Grants(db0, Poll(PollStart(tenant, flowId)), ins), Heard(ins))
  {
    var tr := PollTrace(db0, tenant, flowId, ins);
    GrantTrace(db0, tenant, flowId, ins);
    StorageTrace(db0, tenant, flowId, ins);
    var (db, t) := Alone(db0, Poll(PollStart(tenant, flowId)), ins);
    PollEnds(db0, tenant, flowId, db, t, tr, Heard(ins), Grants(db0, Poll(PollStart(tenant, flowId)), ins));
  }

  /** The tables after a poll, by its outcome and by whether the remote has granted. */
  ghost predicate PollOutcome(db0: Db, tenant: Tenant, flowId: Id, db: Db, outcome: Outcome, granted: bool, heard: set<Answer>) {
    var found := GetPending(db0, flowId, tenant);
    match outcome
    case StillPending => !granted && db == db0 && NotYet in heard
    case Failed(NotFound) => !granted && db == db0
    case Failed(BadRecord) => !granted && found.Some? && !RootFits(found.value.root) && db == db0
    case Failed(LinkingFailed) => !granted && db == db0 && Refused in heard
    case Failed(InvalidRoot) => false
    case Failed(StorageFailed) =>
      if granted then found.Some? && db == Dropped(db0, found.value, FlowDropped) else db == db0
    case Failed(_) => !granted && found.Some? && db == Dropped(db0, found.value, FlowDropped)
    case Connected(summary) => granted && found.Some? && RootFits(found.value.root) && AddsOne(db0, found.value, db, summary, heard)
    case _ => false
  }

  /** The flow is consumed and exactly one connection, built from it and from a grant, is new. */
  ghost predicate AddsOne(db0: Db, row: Pending, db: Db, summary: Summary, heard: set<Answer>) {
    exists c, secret, credentials ::
      && Proper(db0, row, Link(c, secret), credentials, heard) && summary == Summarize(c)
      && db == Dropped(Apply(db0, Link(c, secret)), row, FlowDropped)
  }

  lemma PollEnds(db0: Db, tenant: Tenant, flowId: Id, db: Db, t: Thread, tr: Trace, heard: set<Answer>, granted: bool)
    requires t.Done? && PollAt(db0, tenant, flowId, db, t, tr, heard, true) && GrantAt(t, granted)
    requires StorageEnd(db0, tenant, flowId, db, t, granted, true)
    ensures PollOutcome(db0, tenant, flowId, db, t.outcome, granted, heard)
  {
    assert t.outcome != Failed(InvalidRoot);
    if t.outcome.Connected? {
      assert tr.effect == Link(tr.effect.connection, tr.effect.secret);
    }
  }

  /** The flow id is the primary key. */
  ghost predicate Keyed(db: Db) {
    forall f :: f in db.pending ==> db.pending[f].flowId == f
  }

  /** Whatever raises, a poll that answers with a connection has consumed its flow and token. */
  lemma ConnectedConsumesFlow(db0: Db, tenant: Tenant, flowId: Id, ins: seq<Input>)
    requires NewIds(db0, ins) && Keyed(db0)
    requires var t := Alone(db0, Poll(PollStart(tenant, flowId)), ins).1; t.Done? && t.outcome.Connected?
    ensures flowId in db0.pending && flowId !in Alone(db0, Poll(PollStart(tenant, flowId)), ins).0.pending
  {
    var tr := PollTrace(db0, tenant, flowId, ins);
  }

  // ---- sequential runs ----

  /** A call from its start to its end. */
  datatype Call = Call(start: Thread, ins: seq<Input>)

  function After(db: Db, calls: seq<Call>): Db {
    if calls == [] then db else
    var last := calls[|calls| - 1];
    Alone(After(db, calls[..|calls| - 1]), last.start, last.ins).0
  }

  /** No call starts a flow under the id `f`: ids are random. */
  predicate Avoids(call: Call, f: Id) {
    forall i :: 0 <= i < |call.ins| ==> call.ins[i].oracle.id != f
  }

  predicate NamesNot(t: Thread, f: Id) {
    t.Begin? && t.begin.BeginPending? ==> t.begin.row.flowId != f
  }

  lemma AdvanceKeepsGone(db: Db, now: Time, t: Thread, o: Oracle, f: Id)
    requires f !in db.pending && NamesNot(t, f) && o.id != f
    ensures f !in Advance(db, now, t, o).0.pending && NamesNot(Advance(db, now, t, o).1, f)
  {
  }

  lemma AdvanceKeyed(db: Db, now: Time, t: Thread, o: Oracle)
    requires Keyed(db)
    ensures Keyed(Advance(db, now, t, o).0)
  {
  }

  lemma {:induction false} AloneKeyed(db: Db, t: Thread, ins: seq<Input>)
    requires Keyed(db)
    ensures Keyed(Alone(db, t, ins).0)
  {
    if ins != [] {
      var n := |ins| - 1;
      AloneKeyed(db, t, ins[..n]);
      AdvanceKeyed(Alone(db, t, ins[..n]).0, ins[n].now, Alone(db, t, ins[..n]).1, ins[n].oracle);
    }
  }

  lemma {:induction false} AfterKeyed(db: Db, calls: seq<Call>)
    requires Keyed(db)
    ensures Keyed(After(db, calls))
  {
    if calls != [] {
      var n := |calls| - 1;
      AfterKeyed(db, calls[..n]);
      AloneKeyed(After(db, calls[..n]), calls[n].start, calls[n].ins);
    }
  }

  lemma {:induction false} CallKeepsGone(db: Db, call: Call, ins: seq<Input>, f: Id)
    requires f !in db.pending && Avoids(call, f) && ins <= call.ins && IsStart(call.start)
    ensures f !in Alone(db, call.start, ins).0.pending && NamesNot(Alone(db, call.start, ins).1, f)
  {
    if ins != [] {
      var n := |ins| - 1;
      CallKeepsGone(db, call, ins[..n], f);
      var (db', t') := Alone(db, call.start, ins[..n]);
      assert ins[n] == call.ins[n];
      AdvanceKeepsGone(db', ins[n].now, t', ins[n].oracle, f);
    }
  }

  /** Call `i` is a poll of flow `f` and answers with a connection. */
  predicate Yields(db: Db, calls: seq<Call>, i: nat, f: Id)
    requires i < |calls|
  {
    var before := After(db, calls[..i]);
    var t := Alone(before, calls[i].start, calls[i].ins).1;
    && calls[i].start.Poll? && calls[i].start.poll.PollStart? && calls[i].start.poll.flowId == f
    && t.Done? && t.outcome.Connected?
  }

  /** Every call is a service call or a cleanup from its first step, with fresh ids. */
  ghost predicate Sequential(db: Db, calls: seq<Call>, f: Id) {
    Keyed(db) &&
    forall i :: 0 <= i < |calls| ==>
      IsStart(calls[i].start) && Avoids(calls[i], f) && NewIds(After(db, calls[..i]), calls[i].ins)
  }

  lemma {:induction false} GoneStaysGone(db: Db, calls: seq<Call>, i: nat, j: nat, f: Id)
    requires i <= j <= |calls| && Sequential(db, calls, f) && f !in After(db, calls[..i]).pending
    ensures f !in After(db, calls[..j]).pending
  {
    hide Alone, Keyed, NewIds, IsStart, Avoids;
    if i < j {
      GoneStaysGone(db, calls, i, j - 1, f);
      assert calls[..j][..j - 1] == calls[..j - 1];
      CallKeepsGone(After(db, calls[..j - 1]), calls[j - 1], calls[j - 1].ins, f);
      assert After(db, calls[..j]) == Alone(After(db, calls[..j - 1]), calls[j - 1].start, calls[j - 1].ins).0;
    }
  }

  /** In any sequential run, whatever raises, at most one poll of a flow answers with a connection. */
  lemma FlowYieldsOnce(db: Db, calls: seq<Call>, i: nat, j: nat, f: Id)
    requires i < |calls| && j < |calls| && Sequential(db, calls, f)
    requires Yields(db, calls, i, f) && Yields(db, calls, j, f)
    ensures i == j
  {
    if i < j {
      YieldsOnceOrdered(db, calls, i, j, f);
      assert false;
    } else if j < i {
      YieldsOnceOrdered(db, calls, j, i, f);
      assert false;
    }
  }

  lemma YieldsOnceOrdered(db: Db, calls: seq<Call>, i: nat, j: nat, f: Id)
    requires i < j < |calls| && Sequential(db, calls, f) && Yields(db, calls, i, f)
    ensures !Yields(db, calls, j, f)
  {
    AfterKeyed(db, calls[..i]);
    AfterKeyed(db, calls[..j]);
    ConnectedConsumesFlow(After(db, calls[..i]), calls[i].start.poll.tenant, f, calls[i].ins);
    assert calls[..i + 1][..i] == calls[..i];
    GoneStaysGone(db, calls, i + 1, j, f);
    if Yields(db, calls, j, f) {
      ConnectedConsumesFlow(After(db, calls[..j]), calls[j].start.poll.tenant, f, calls[j].ins);
    }
  }
}
