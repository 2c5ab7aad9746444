/**
 The service calls and the maintenance job as interleaved threads. One step is
 one store statement or commit, one clock reading or one remote answer, so any
 other thread may act between two of them.
 */
module Lifecycle {
  import opened Options
  import opened Roots
  import opened Tables

  datatype Credentials = Credentials(server: string, login: string, appPassword: string)

  /** What the remote login flow says when it is polled. */
  datatype Answer = Refused | NotYet | Granted(credentials: Credentials)

  /**
   Everything one step takes from outside: whether the store statement
   succeeds (a raised statement is not committed), a random reference and a
   random id, the timestamp read for the new row, and the remote answers.
   */
  datatype Oracle = Oracle(ok: bool, ref: Ref, id: Id, stamp: Time, answer: Answer, revoked: bool)

  /** `BadRecord`: a record or the settings refuse one of their fields. */
  datatype Error = NotFound | Expired | CredentialUnavailable | LinkingFailed | InvalidRoot | BadRecord | StorageFailed

  /** Connection metadata without the credential reference. */
  datatype Summary = Summary(id: Id, baseUrl: string, login: string, root: string, connectedAt: Time)

  datatype Outcome =
    | Started(flowId: Id, loginUrl: string, expires: Time)
    | StillPending
    | Connected(summary: Summary)
    | Updated(summary: Summary)
    | Listed(summaries: set<Summary>)
    | Resolved(root: string, password: string)
    | Disconnected(id: Id, revoked: bool)
    | Failed(error: Error)

  /** begin_connection, once the remote has issued a challenge. */
  datatype BeginPc =
    | BeginSecret(tenant: Tenant, root: string, challenge: Challenge, token: string, expires: Time)
    | BeginPending(row: Pending, stamp: Time)
    | BeginUndo(tenant: Tenant, ref: Ref)

  /** poll_connection, with `_delete_pending` as its last two steps. */
  datatype PollPc =
    | PollStart(tenant: Tenant, flowId: Id)
    | PollClock(row: Pending)
    | PollToken(row: Pending)
    | PollRemote(row: Pending)
    | PollSecret(row: Pending, credentials: Credentials)
    | PollConnection(row: Pending, credentials: Credentials, ref: Ref, stamp: Time)
    | PollUndo(row: Pending, ref: Ref)
    | PollDropSecret(row: Pending, outcome: Outcome)
    | PollDropFlow(row: Pending, outcome: Outcome)

  /** list_connections, update_root_path and resolve_settings. */
  datatype ManagePc =
    | ListStart(tenant: Tenant)
    | UpdateStart(tenant: Tenant, id: Id, newRoot: Option<string>)
    | UpdatePut(connection: Connection)
    | ResolveStart(tenant: Tenant, id: Id)
    | ResolveSecret(connection: Connection)

  /** disconnect; the settings are resolved again inside its `try`. */
  datatype DisconnectPc =
    | DisconnectStart(tenant: Tenant, id: Id)
    | DisconnectGet(connection: Connection)
    | DisconnectReread(connection: Connection)
    | DisconnectResolve(connection: Connection, again: Connection)
    | DisconnectRevoke(connection: Connection)
    | DisconnectDropSecret(connection: Connection, revoked: bool)
    | DisconnectDropRow(connection: Connection, revoked: bool)

  /** cleanup_hosted_storage, statement by statement. */
  datatype SweepPc =
    | SweepStart(current: Time, grace: Time)
    | SweepFlows(current: Time, cutoff: Time, expired: set<Pending>)
    | SweepPolls(current: Time, cutoff: Time, expired: set<Pending>, flows: set<Id>)
    | SweepSelect(current: Time, cutoff: Time, expired: set<Pending>, flows: set<Id>, gone: set<(Tenant, Ref)>)
    | SweepOrphans(current: Time, expired: set<Pending>, flows: set<Id>, gone: set<(Tenant, Ref)>, orphans: set<(Tenant, Ref)>)
    | SweepCommit(current: Time, expired: set<Pending>, flows: set<Id>, gone: set<(Tenant, Ref)>, orphans: set<(Tenant, Ref)>)
    | SweepDone(expired: set<Pending>, orphans: set<(Tenant, Ref)>)

  /** A call in progress: where it is, with its local variables. */
  datatype Thread =
    | Begin(begin: BeginPc)
    | Poll(poll: PollPc)
    | Manage(manage: ManagePc)
    | Disconnect(disconnect: DisconnectPc)
    | Sweep(sweep: SweepPc)
    | Done(tenant: Tenant, outcome: Outcome)

  function Summarize(c: Connection): Summary {
    Summary(c.id, c.baseUrl, c.login, c.root, c.created)
  }

  function NewConnection(row: Pending, credentials: Credentials, ref: Ref, o: Oracle): Connection {
    Connection(o.id, row.tenant, credentials.server, credentials.login, row.root, ref, o.stamp)
  }

  /** One step of one thread: the committed tables and the thread afterwards. */
  function Advance(db: Db, now: Time, t: Thread, o: Oracle): (Db, Thread) {
    match t
    case Begin(pc) => BeginStep(db, pc, o)
    case Poll(pc) => PollStep(db, now, pc, o)
    case Manage(pc) => ManageStep(db, pc, o)
    case Disconnect(pc) => DisconnectStep(db, pc, o)
    case Sweep(pc) => SweepStep(db, pc)
    case Done(_, _) => (db, t)
  }

  function BeginStep(db: Db, pc: BeginPc, o: Oracle): (Db, Thread) {
    match pc
    case BeginSecret(tenant, root, challenge, token, expires) =>
      (match if o.ok then PutSecret(db, o.ref, Secret(tenant, token, o.stamp)) else None
       case Some(db') =>
         (db', if RootFits(root) then Begin(BeginPending(Pending(o.id, tenant, root, challenge, o.ref, expires), o.stamp))
               else Done(tenant, Failed(BadRecord)))
       case None => (db, Done(tenant, Failed(StorageFailed))))
    case BeginPending(row, _) =>
      (match if o.ok then PutPending(db, row) else None
       case Some(db') => (db', Done(row.tenant, Started(row.flowId, row.challenge.loginUrl, row.expires)))
       case None => (db, Begin(BeginUndo(row.tenant, row.pollRef))))
    case BeginUndo(tenant, ref) =>
      (if o.ok then DeleteSecret(db, ref, tenant) else db, Done(tenant, Failed(StorageFailed)))
  }

  function PollStep(db: Db, now: Time, pc: PollPc, o: Oracle): (Db, Thread) {
    match pc
    case PollStart(tenant, flowId) =>
      if !o.ok then (db, Done(tenant, Failed(StorageFailed))) else
      (db, match ReadPending(db, flowId, tenant)
           case Missing => Done(tenant, Failed(NotFound))
           case Unreadable => Done(tenant, Failed(BadRecord))
           case Found(row) => Poll(PollClock(row)))
    case PollClock(row) =>
      (db, Poll(if now >= row.expires then PollDropSecret(row, Failed(Expired)) else PollToken(row)))
    case PollToken(row) =>
      if !o.ok then (db, Done(row.tenant, Failed(StorageFailed))) else
      (match GetSecret(db, row.pollRef, row.tenant)
       case None => (db, Poll(PollDropSecret(row, Failed(CredentialUnavailable))))
       case Some(_) => (db, Poll(PollRemote(row))))
    case PollRemote(row) =>
      (db, match o.answer
           case Refused => Done(row.tenant, Failed(LinkingFailed))
           case NotYet => Done(row.tenant, StillPending)
           case Granted(credentials) => Poll(PollSecret(row, credentials)))
    case PollSecret(row, credentials) =>
      (match if o.ok then PutSecret(db, o.ref, Secret(row.tenant, credentials.appPassword, o.stamp)) else None
       case Some(db') => (db', Poll(PollConnection(row, credentials, o.ref, o.stamp)))
       case None => (db, Poll(PollDropSecret(row, Failed(StorageFailed)))))
    case PollConnection(row, credentials, ref, _) =>
      var c := NewConnection(row, credentials, ref, o);
      (match if o.ok then PutConnection(db, c) else None
       case Some(db') => (db', Poll(PollDropSecret(row, Connected(Summarize(c)))))
       case None => (db, Poll(PollUndo(row, ref))))
    case PollUndo(row, ref) =>
      (if o.ok then DeleteSecret(db, ref, row.tenant) else db, Poll(PollDropSecret(row, Failed(StorageFailed))))
    case PollDropSecret(row, outcome) =>
      if !o.ok then (db, Done(row.tenant, Failed(StorageFailed)))
      else (DeleteSecret(db, row.pollRef, row.tenant), Poll(PollDropFlow(row, outcome)))
    case PollDropFlow(row, outcome) =>
      if !o.ok then (db, Done(row.tenant, Failed(StorageFailed)))
      else (DeletePending(db, row.flowId, row.tenant), Done(row.tenant, outcome))
  }

  function ManageStep(db: Db, pc: ManagePc, o: Oracle): (Db, Thread) {
    match pc
    case ListStart(tenant) =>
      (db, Done(tenant, if !o.ok then Failed(StorageFailed)
                        else if !Listable(db, tenant) then Failed(BadRecord)
                        else Listed(set c | c in ListConnections(db, tenant) :: Summarize(c))))
    case UpdateStart(tenant, id, newRoot) =>
      if !o.ok then (db, Done(tenant, Failed(StorageFailed))) else
      (db, match ReadConnection(db, id, tenant)
           case Missing => Done(tenant, Failed(NotFound))
           case Unreadable => Done(tenant, Failed(BadRecord))
           case Found(c) => match newRoot
                            case None => Done(tenant, Failed(InvalidRoot))
                            case Some(root) => Manage(UpdatePut(c.(root := root))))
    case UpdatePut(c) =>
      (match if o.ok then PutConnection(db, c) else None
       case Some(db') => (db', Done(c.tenant, Updated(Summarize(c))))
       case None => (db, Done(c.tenant, Failed(StorageFailed))))
    case ResolveStart(tenant, id) =>
      if !o.ok then (db, Done(tenant, Failed(StorageFailed))) else
      (db, match ReadConnection(db, id, tenant)
           case Missing => Done(tenant, Failed(NotFound))
           case Unreadable => Done(tenant, Failed(BadRecord))
           case Found(c) => Manage(ResolveSecret(c)))
    case ResolveSecret(c) =>
      if !o.ok then (db, Done(c.tenant, Failed(StorageFailed))) else
      (db, match GetSecret(db, c.ref, c.tenant)
           case None => Done(c.tenant, Failed(CredentialUnavailable))
           case Some(secret) => Done(c.tenant, match SettingsRoot(c.root)
                                               case None => Failed(BadRecord)
                                               case Some(root) => Resolved(root, secret.value)))
  }

  function DisconnectStep(db: Db, pc: DisconnectPc, o: Oracle): (Db, Thread) {
    match pc
    case DisconnectStart(tenant, id) =>
      if !o.ok then (db, Done(tenant, Failed(StorageFailed))) else
      (db, match ReadConnection(db, id, tenant)
           case Missing => Done(tenant, Failed(NotFound))
           case Unreadable => Done(tenant, Failed(BadRecord))
           case Found(c) => Disconnect(DisconnectGet(c)))
    case DisconnectGet(c) =>
      if !o.ok then (db, Done(c.tenant, Failed(StorageFailed)))
      else (db, Disconnect(if GetSecret(db, c.ref, c.tenant).None? then DisconnectDropSecret(c, false)
                           else DisconnectReread(c)))
    case DisconnectReread(c) =>
      (db, Disconnect(match if o.ok then ReadConnection(db, c.id, c.tenant) else Missing
                      case Found(again) => DisconnectResolve(c, again)
                      case _ => DisconnectDropSecret(c, false)))
    case DisconnectResolve(c, again) =>
      (db, Disconnect(if o.ok && GetSecret(db, again.ref, again.tenant).Some? && SettingsRoot(again.root).Some?
                      then DisconnectRevoke(c) else DisconnectDropSecret(c, false)))
    case DisconnectRevoke(c) => (db, Disconnect(DisconnectDropSecret(c, o.revoked)))
    case DisconnectDropSecret(c, revoked) =>
      if !o.ok then (db, Done(c.tenant, Failed(StorageFailed)))
      else (DeleteSecret(db, c.ref, c.tenant), Disconnect(DisconnectDropRow(c, revoked)))
    case DisconnectDropRow(c, revoked) =>
      if !o.ok then (db, Done(c.tenant, Failed(StorageFailed)))
      else (DeleteConnection(db, c.id, c.tenant), Done(c.tenant, Disconnected(c.id, revoked)))
  }

  /**
   cleanup_hosted_storage is one transaction at READ COMMITTED: each statement
   reads what is committed when it runs minus what the transaction itself has
   deleted, and nobody else sees the deletions before the commit.
   */
  function SweepStep(db: Db, pc: SweepPc): (Db, Thread) {
    match pc
    case SweepStart(current, grace) =>
      (db, Sweep(SweepFlows(current, current - grace, ExpiredRows(db, current))))
    case SweepFlows(current, cutoff, expired) =>
      (db, Sweep(SweepPolls(current, cutoff, expired, FlowIds(expired) * db.pending.Keys)))
    case SweepPolls(current, cutoff, expired, flows) =>
      (db, Sweep(SweepSelect(current, cutoff, expired, flows, SecretsKeyed(db, PollKeys(expired)))))
    case SweepSelect(current, cutoff, expired, flows, gone) =>
      (db, Sweep(SweepOrphans(current, expired, flows, gone,
                              OrphanKeys(Without(db, flows, gone), cutoff) - PollKeys(expired))))
    case SweepOrphans(current, expired, flows, gone, orphans) =>
      (db, Sweep(SweepCommit(current, expired, flows, gone + SecretsKeyed(db, orphans), orphans)))
    case SweepCommit(_, expired, flows, gone, orphans) =>
      (Without(db, flows, gone), Sweep(SweepDone(expired, orphans)))
    case SweepDone(_, _) => (db, Sweep(pc))
  }

  // ---- the interleaved system ----

  /** The metadata row that a secret belongs to. */
  datatype Holder = Flow(id: Id) | Conn(id: Id)

  datatype Issue = Issue(row: Secret, writer: nat)

  /**
   What happened so far: every secret ever written and by which thread, the
   row each reference was committed into, the app password the remote granted
   for each connection, and the rows whose secret a poll or a disconnect has
   deleted. No step reads it.
   */
  datatype History = History(
    issued: map<Ref, Issue>, bound: map<Ref, Holder>, granted: map<Id, string>, severed: set<Holder>)

  datatype State = State(db: Db, threads: map<nat, Thread>, now: Time, h: History)

  datatype Actor = Service(tenant: Tenant) | Janitor

  datatype Event =
    | Tick(to: Time)
    | Spawn(who: Actor, th: nat, start: Thread)
    | Go(who: Actor, th: nat, oracle: Oracle)
    | Crash(who: Actor, th: nat)

  function Owner(t: Thread): Actor {
    match t
    case Begin(pc) => Service(if pc.BeginPending? then pc.row.tenant else pc.tenant)
    case Poll(pc) => Service(if pc.PollStart? then pc.tenant else pc.row.tenant)
    case Manage(pc) => Service(if pc.UpdatePut? || pc.ResolveSecret? then pc.connection.tenant else pc.tenant)
    case Disconnect(pc) => Service(if pc.DisconnectStart? then pc.tenant else pc.connection.tenant)
    case Sweep(_) => Janitor
    case Done(tenant, _) => Service(tenant)
  }

  predicate IsStart(t: Thread) {
    match t
    case Begin(pc) => pc.BeginSecret?
    case Poll(pc) => pc.PollStart?
    case Manage(pc) => pc.ListStart? || pc.UpdateStart? || pc.ResolveStart?
    case Disconnect(pc) => pc.DisconnectStart?
    case Sweep(pc) => pc.SweepStart?
    case Done(_, _) => false
  }

  /** Random references and ids never repeat; ids are judged when their row is written. */
  ghost predicate Fresh(h: History, t: Thread, o: Oracle) {
    o.ok ==>
      match t
      case Begin(BeginSecret(_, _, _, _, _)) => o.ref !in h.issued
      case Begin(BeginPending(row, _)) => Flow(row.flowId) !in h.bound.Values
      case Poll(PollSecret(_, _)) => o.ref !in h.issued
      case Poll(PollConnection(_, _, _, _)) => Conn(o.id) !in h.bound.Values
      case _ => true
  }

  ghost predicate Enabled(s: State, e: Event) {
    match e
    case Tick(to) => s.now <= to
    case Spawn(who, th, start) =>
      th !in s.threads && IsStart(start) && Owner(start) == who && (start.Sweep? ==> start.sweep.current <= s.now)
    case Go(who, th, o) =>
      th in s.threads && Owner(s.threads[th]) == who && Fresh(s.h, s.threads[th], o)
    case Crash(who, th) => th in s.threads && Owner(s.threads[th]) == who
  }

  function Note(h: History, th: nat, t: Thread, o: Oracle): History {
    if !o.ok then h else
    match t
    case Begin(BeginSecret(tenant, _, _, token, _)) =>
      h.(issued := h.issued[o.ref := Issue(Secret(tenant, token, o.stamp), th)])
    case Begin(BeginPending(row, _)) => h.(bound := h.bound[row.pollRef := Flow(row.flowId)])
    case Poll(PollSecret(row, credentials)) =>
      h.(issued := h.issued[o.ref := Issue(Secret(row.tenant, credentials.appPassword, o.stamp), th)])
    case Poll(PollConnection(_, credentials, ref, _)) =>
      h.(bound := h.bound[ref := Conn(o.id)], granted := h.granted[o.id := credentials.appPassword])
    case Poll(PollDropSecret(row, _)) => h.(severed := h.severed + {Flow(row.flowId)})
    case Disconnect(DisconnectDropSecret(c, _)) => h.(severed := h.severed + {Conn(c.id)})
    case _ => h
  }

  function Step(s: State, e: Event): State {
    match e
    case Tick(to) => s.(now := to)
    case Spawn(_, th, start) => s.(threads := s.threads[th := start])
    case Crash(_, th) => s.(threads := s.threads - {th})
    case Go(_, th, o) =>
      if th !in s.threads then s else
      var (db, t) := Advance(s.db, s.now, s.threads[th], o);
      State(db, s.threads[th := t], s.now, Note(s.h, th, s.threads[th], o))
  }

  function Run(s: State, es: seq<Event>): State {
    if es == [] then s else Step(Run(s, es[..|es| - 1]), es[|es| - 1])
  }

  /** Each event is possible in the state the earlier ones lead to. */
  ghost predicate Legal(s: State, es: seq<Event>) {
    es == [] || (Legal(s, es[..|es| - 1]) && Enabled(Run(s, es[..|es| - 1]), es[|es| - 1]))
  }

  function Init(now: Time): State {
    State(EMPTY, map[], now, History(map[], map[], map[], {}))
  }
}
