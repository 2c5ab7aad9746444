/**
 Configurations as interleaved threads, one step per statement. Between the
 queries of a write and its commit anyone else may commit, so it is the
 constraints of the tables that keep the profiles sound: the primary key, the
 unique index on tenant and connection, and the foreign key.
 */
module ProfileRuns {
  import opened Options
  import opened Paths
  import opened Profiles

  /** Which constraints the profile table has besides its primary key. */
  datatype Schema = Schema(index: bool, foreignKey: bool)

  const DEPLOYED := Schema(true, true)

  /** put_profile: three queries, then the flush and commit. */
  datatype WritePc =
    | WriteStart(record: Profile)
    | WriteGet(record: Profile)
    | WriteOther(record: Profile, loaded: Option<Profile>)
    | WriteFlush(record: Profile, loaded: Option<Profile>)
    | WriteDone(record: Profile, result: PutResult)

  datatype Request = Request(tenant: Tenant, connection: Id, input: Input, readable: bool)

  /** configure_profile: settings resolved and input checked, profile looked up, record written. */
  datatype Thread =
    | Resolving(request: Request)
    | Looking(request: Request, settings: Settings)
    | Writing(write: WritePc)
    | Finished(outcome: Outcome)

  // ---- one write ----

  predicate Allows(schema: Schema, db: Db, row: Profile) {
    && (schema.index ==> !Taken(db.profiles, row))
    && (schema.foreignKey ==> Owned(db, row.connection, row.tenant))
  }

  /** An update sets a column only if the wanted value is not the one that was loaded. */
  function Column<T(==)>(stored: T, loaded: T, wanted: T): T {
    if wanted == loaded then stored else wanted
  }

  function MergedSettings(stored: Settings, loaded: Settings, wanted: Settings): Settings {
    Settings(Column(stored.name, loaded.name, wanted.name), Column(stored.inbox, loaded.inbox, wanted.inbox),
             Column(stored.archive, loaded.archive, wanted.archive), Column(stored.reports, loaded.reports, wanted.reports),
             Column(stored.currency, loaded.currency, wanted.currency))
  }

  function Merged(stored: Profile, loaded: Profile, wanted: Profile): Profile {
    Profile(stored.id, Column(stored.tenant, loaded.tenant, wanted.tenant),
            Column(stored.connection, loaded.connection, wanted.connection),
            MergedSettings(stored.settings, loaded.settings, wanted.settings),
            Column(stored.created, loaded.created, wanted.created), Column(stored.updated, loaded.updated, wanted.updated))
  }

  /** An insert, an update of the changed columns, or nothing if none changed. */
  function Flush(schema: Schema, db: Db, record: Profile, loaded: Option<Profile>): (Db, PutResult) {
    match loaded
    case None =>
      if record.id in db.profiles || !Allows(schema, db, record) then (db, ConstraintFails)
      else (db.(profiles := db.profiles[record.id := record]), Put)
    case Some(l) =>
      if record == l then (db, Put)
      else if record.id !in db.profiles then (db, RowGone)
      else
        var row := Merged(db.profiles[record.id], l, record);
        if !Allows(schema, db, row) then (db, ConstraintFails)
        else (db.(profiles := db.profiles[record.id := row]), Put)
  }

  function WriteStep(schema: Schema, db: Db, pc: WritePc): (Db, WritePc) {
    match pc
    case WriteStart(record) =>
      (db, if Owned(db, record.connection, record.tenant) then WriteGet(record) else WriteDone(record, NotOwned))
    case WriteGet(record) =>
      (db, if record.id !in db.profiles then WriteOther(record, None)
           else if db.profiles[record.id].tenant != record.tenant then WriteDone(record, IdCollision)
           else WriteOther(record, Some(db.profiles[record.id])))
    case WriteOther(record, loaded) =>
      (db, if Taken(db.profiles, record) then WriteDone(record, AlreadyExists) else WriteFlush(record, loaded))
    case WriteFlush(record, loaded) =>
      var (db', r) := Flush(schema, db, record, loaded);
      (db', WriteDone(record, r))
    case WriteDone(_, _) => (db, pc)
  }

  function Steps(db: Db, pc: WritePc, n: nat): (Db, WritePc) {
    if n == 0 then (db, pc) else
    var (db', pc') := Steps(db, pc, n - 1);
    WriteStep(DEPLOYED, db', pc')
  }

  lemma MergedUndisturbed(loaded: Profile, wanted: Profile)
    requires loaded.id == wanted.id
    ensures Merged(loaded, loaded, wanted) == wanted
  {
  }

  lemma StepsNext(db: Db, pc: WritePc, n: nat)
    requires n > 0
    ensures Steps(db, pc, n) == WriteStep(DEPLOYED, Steps(db, pc, n - 1).0, Steps(db, pc, n - 1).1)
  {
  }

  /** With nothing in between, the statements do what the method of the store does; the constraints add nothing. */
  lemma UndisturbedWrite(db: Db, record: Profile)
    requires record.id in db.profiles ==> db.profiles[record.id].id == record.id
    ensures Steps(db, WriteStart(record), 4) == (PutProfile(db, record).0, WriteDone(record, PutProfile(db, record).1))
  {
    var pc := WriteStart(record);
    StepsNext(db, pc, 1);
    StepsNext(db, pc, 2);
    StepsNext(db, pc, 3);
    StepsNext(db, pc, 4);
    if record.id in db.profiles {
      MergedUndisturbed(db.profiles[record.id], record);
      assert db.profiles[record.id] == record ==> db.profiles[record.id := record] == db.profiles;
    }
  }

  // ---- the interleaved system ----

  /** Who a profile id was first planned for, and when. */
  datatype Birth = Birth(tenant: Tenant, connection: Id, created: Time)

  /** `born` is history: no step reads it. */
  datatype State = State(db: Db, threads: map<nat, Thread>, born: map<Id, Birth>)

  datatype Event =
    | Connect(connection: Id, tenant: Tenant)
    | Disconnect(connection: Id, tenant: Tenant)
    | Spawn(th: nat, request: Request)
    | Go(th: nat, newId: Id, now: Time)
    | Crash(th: nat)

  function BirthOf(p: Profile): Birth {
    Birth(p.tenant, p.connection, p.created)
  }

  /** The record to write, or the answer when there is nothing to write. */
  ghost function Look(db: Db, q: Request, settings: Settings, newId: Id, now: Time): Thread {
    match ProfileOf(db.profiles, q.connection, q.tenant)
    case Some(p) =>
      if !RecordFits(p.settings) then Finished(Error(BadRecord))
      else if p.settings == settings then Finished(Summary(p))
      else if !RecordFits(settings) then Finished(Error(BadRecord))
      else Writing(WriteStart(p.(tenant := q.tenant, connection := q.connection, settings := settings, updated := now)))
    case None =>
      if !RecordFits(settings) then Finished(Error(BadRecord))
      else Writing(WriteStart(Profile(newId, q.tenant, q.connection, settings, now, now)))
  }

  /** One step of one thread; `upper` is Python's `str.upper`. */
  ghost function Advance(schema: Schema, upper: string -> string, db: Db, t: Thread, newId: Id, now: Time): (Db, Thread) {
    match t
    case Resolving(q) =>
      (db, if !Owned(db, q.connection, q.tenant) || !q.readable then Finished(Error(Unresolved))
           else match Check(q.input, upper)
                case Bad(problem) => Finished(Error(problem))
                case Good(settings) => Looking(q, settings))
    case Looking(q, settings) => (db, Look(db, q, settings, newId, now))
    case Writing(WriteDone(record, r)) => (db, Finished(if r == Put then Summary(record) else Error(NotWritten(r))))
    case Writing(pc) =>
      var (db', pc') := WriteStep(schema, db, pc);
      (db', Writing(pc'))
    case Finished(_) => (db, t)
  }

  /** `n` steps of one thread with nobody else in between. */
  ghost function Alone(upper: string -> string, db: Db, t: Thread, newId: Id, now: Time, n: nat): (Db, Thread)
    decreases n
  {
    if n == 0 then (db, t) else
    var (db', t') := Advance(DEPLOYED, upper, db, t, newId, now);
    Alone(upper, db', t', newId, now, n - 1)
  }

  lemma {:induction false} FinishedStays(upper: string -> string, db: Db, outcome: Outcome, newId: Id, now: Time, n: nat)
    ensures Alone(upper, db, Finished(outcome), newId, now, n) == (db, Finished(outcome))
  {
    if n > 0 {
      FinishedStays(upper, db, outcome, newId, now, n - 1);
    }
  }

  /** The statements of a write, until it is done, then the answer. */
  lemma {:induction false} WriteFinishes(upper: string -> string, db: Db, pc: WritePc, newId: Id, now: Time, n: nat)
    requires var (db', pc') := WriteSteps(db, pc, n); pc'.WriteDone?
    ensures var (db', pc') := WriteSteps(db, pc, n);
            Alone(upper, db, Writing(pc), newId, now, n + 1)
            == (db', Finished(if pc'.result == Put then Summary(pc'.record) else Error(NotWritten(pc'.result))))
    decreases n
  {
    if pc.WriteDone? {
      DoneStays(db, pc, n);
      FinishedStays(upper, db, if pc.result == Put then Summary(pc.record) else Error(NotWritten(pc.result)), newId, now, n);
    } else if n > 0 {
      var (db1, pc1) := WriteStep(DEPLOYED, db, pc);
      WriteFinishes(upper, db1, pc1, newId, now, n - 1);
    }
  }

  /** `Steps` from the front. */
  function WriteSteps(db: Db, pc: WritePc, n: nat): (Db, WritePc)
    decreases n
  {
    if n == 0 then (db, pc) else
    var (db', pc') := WriteStep(DEPLOYED, db, pc);
    WriteSteps(db', pc', n - 1)
  }

  lemma {:induction false} DoneStays(db: Db, pc: WritePc, n: nat)
    requires pc.WriteDone?
    ensures WriteSteps(db, pc, n) == (db, pc)
  {
    if n > 0 {
      DoneStays(db, pc, n - 1);
    }
  }

  lemma {:induction false} StepsFromFront(db: Db, pc: WritePc, n: nat)
    ensures var (db', pc') := WriteStep(DEPLOYED, db, pc); Steps(db, pc, n + 1) == Steps(db', pc', n)
  {
    if n == 0 {
      assert Steps(db, pc, 0) == (db, pc);
    } else {
      StepsFromFront(db, pc, n - 1);
    }
  }

  lemma {:induction false} SameSteps(db: Db, pc: WritePc, n: nat)
    ensures WriteSteps(db, pc, n) == Steps(db, pc, n)
    decreases n
  {
    if n > 0 {
      var (db', pc') := WriteStep(DEPLOYED, db, pc);
      SameSteps(db', pc', n - 1);
      StepsFromFront(db, pc, n - 1);
    }
  }

  /** The first two steps of a call make its plan. */
  lemma PlanIs(upper: string -> string, db: Db, q: Request, newId: Id, now: Time, n: nat)
    requires n >= 2
    ensures Alone(upper, db, Resolving(q), newId, now, n)
            == match PlanFor(db, q.tenant, q.connection, q.input, upper, q.readable, newId, now)
               case Unchanged(p) => (db, Finished(Summary(p)))
               case Rejected(problem) => (db, Finished(Error(problem)))
               case ToWrite(record) => Alone(upper, db, Writing(WriteStart(record)), newId, now, n - 2)
  {
    hide Check, RecordFits;
    var t1 := Advance(DEPLOYED, upper, db, Resolving(q), newId, now).1;
    if t1.Finished? {
      FinishedStays(upper, db, t1.outcome, newId, now, n - 1);
    } else {
      var t2 := Advance(DEPLOYED, upper, db, t1, newId, now).1;
      if t2.Finished? {
        FinishedStays(upper, db, t2.outcome, newId, now, n - 2);
      }
    }
  }

  /** With nobody in between, the steps of a call do what both of its transactions do, within seven. */
  lemma UndisturbedCall(upper: string -> string, db: Db, q: Request, newId: Id, now: Time)
    requires forall id :: id in db.profiles ==> db.profiles[id].id == id
    ensures var (db', r) := Configured(db, q.tenant, q.connection, q.input, upper, q.readable, newId, now);
            Alone(upper, db, Resolving(q), newId, now, 7) == (db', Finished(r))
  {
    hide PlanFor, Alone, Steps, WriteSteps;
    PlanIs(upper, db, q, newId, now, 7);
    var plan := PlanFor(db, q.tenant, q.connection, q.input, upper, q.readable, newId, now);
    if plan.ToWrite? {
      UndisturbedWrite(db, plan.record);
      SameSteps(db, WriteStart(plan.record), 4);
      WriteFinishes(upper, db, WriteStart(plan.record), newId, now, 4);
    }
  }

  /** The column is set if the record changes what was loaded, and stays as it is stored otherwise. */
  predicate Sets<T(==)>(row: T, stored: T, loaded: T, wanted: T) {
    (wanted != loaded ==> row == wanted) && (wanted == loaded ==> row == stored)
  }

  /** An update that commits sets the columns it changes in its own row, and nothing else. */
  lemma ColumnsAreMerged(db: Db, record: Profile, loaded: Profile)
    requires record.id in db.profiles && db.profiles[record.id].id == record.id && loaded.id == record.id
    requires Flush(DEPLOYED, db, record, Some(loaded)).1 == Put
    ensures var db', stored := Flush(DEPLOYED, db, record, Some(loaded)).0, db.profiles[record.id];
            && record.id in db'.profiles && db' == db.(profiles := db.profiles[record.id := db'.profiles[record.id]])
            && var row := db'.profiles[record.id];
               && row.id == record.id
               && Sets(row.tenant, stored.tenant, loaded.tenant, record.tenant)
               && Sets(row.connection, stored.connection, loaded.connection, record.connection)
               && Sets(row.settings.name, stored.settings.name, loaded.settings.name, record.settings.name)
               && Sets(row.settings.inbox, stored.settings.inbox, loaded.settings.inbox, record.settings.inbox)
               && Sets(row.settings.archive, stored.settings.archive, loaded.settings.archive, record.settings.archive)
               && Sets(row.settings.reports, stored.settings.reports, loaded.settings.reports, record.settings.reports)
               && Sets(row.settings.currency, stored.settings.currency, loaded.settings.currency, record.settings.currency)
               && Sets(row.created, stored.created, loaded.created, record.created)
               && Sets(row.updated, stored.updated, loaded.updated, record.updated)
  {
    assert record == loaded ==> db.profiles[record.id := db.profiles[record.id]] == db.profiles;
  }

  function Note(born: map<Id, Birth>, t: Thread): map<Id, Birth> {
    if t.Writing? && t.write.WriteStart? && t.write.record.id !in born then born[t.write.record.id := BirthOf(t.write.record)]
    else born
  }

  ghost function Step(schema: Schema, upper: string -> string, s: State, e: Event): State {
    match e
    case Connect(connection, tenant) =>
      if connection in s.db.connections then s
      else s.(db := s.db.(connections := s.db.connections[connection := tenant]))
    case Disconnect(connection, tenant) => s.(db := DeleteConnection(s.db, connection, tenant))
    case Spawn(th, q) => if th in s.threads then s else s.(threads := s.threads[th := Resolving(q)])
    case Go(th, newId, now) =>
      if th !in s.threads then s else
      var (db', t') := Advance(schema, upper, s.db, s.threads[th], newId, now);
      State(db', s.threads[th := t'], Note(s.born, t'))
    case Crash(th) => s.(threads := s.threads - {th})
  }

  /** A random id is new when a record is planned with it. */
  ghost predicate Fresh(s: State, e: Event) {
    e.Go? && e.th in s.threads && s.threads[e.th].Looking? ==> e.newId !in s.born
  }

  ghost function Run(schema: Schema, upper: string -> string, s: State, events: seq<Event>): State {
    if events == [] then s
    else Step(schema, upper, Run(schema, upper, s, events[..|events| - 1]), events[|events| - 1])
  }

  ghost predicate FreshRun(schema: Schema, upper: string -> string, s: State, events: seq<Event>) {
    events != [] ==>
      && FreshRun(schema, upper, s, events[..|events| - 1])
      && Fresh(Run(schema, upper, s, events[..|events| - 1]), events[|events| - 1])
  }

  const INIT := State(Db(map[], map[]), map[], map[])

  // ---- what every state keeps ----

  /** The id was born for this tenant, connection and creation time. */
  ghost predicate Rooted(born: map<Id, Birth>, p: Profile) {
    p.id in born && born[p.id] == BirthOf(p)
  }

  ghost predicate DbSound(db: Db, born: map<Id, Birth>) {
    && Unique(db.profiles)
    && (forall id :: id in db.profiles ==> db.profiles[id].id == id && Rooted(born, db.profiles[id]))
    && (forall id :: id in db.profiles ==> Owned(db, db.profiles[id].connection, db.profiles[id].tenant))
  }

  ghost predicate WriteSound(born: map<Id, Birth>, pc: WritePc) {
    && Rooted(born, pc.record)
    && (pc.WriteOther? || pc.WriteFlush? ==>
          pc.loaded.Some? ==> pc.loaded.value.id == pc.record.id && Rooted(born, pc.loaded.value))
    && (pc.WriteDone? ==> pc.result != IdCollision)
  }

  ghost predicate ThreadSound(born: map<Id, Birth>, t: Thread) {
    match t
    case Writing(pc) => WriteSound(born, pc)
    case Finished(outcome) => outcome != Error(NotWritten(IdCollision))
    case _ => true
  }

  ghost predicate Sound(s: State) {
    DbSound(s.db, s.born) && forall th :: th in s.threads ==> ThreadSound(s.born, s.threads[th])
  }

  ghost predicate BornKept(born: map<Id, Birth>, born': map<Id, Birth>) {
    forall id :: id in born ==> id in born' && born'[id] == born[id]
  }

  lemma SoundGrows(db: Db, threads: map<nat, Thread>, born: map<Id, Birth>, born': map<Id, Birth>)
    requires Sound(State(db, threads, born)) && BornKept(born, born')
    ensures Sound(State(db, threads, born'))
  {
    forall id | id in db.profiles ensures Rooted(born', db.profiles[id]) {
      assert Rooted(born, db.profiles[id]);
    }
    forall th | th in threads ensures ThreadSound(born', threads[th]) {
      assert ThreadSound(born, threads[th]);
    }
  }

  lemma RowUnique(profiles: Profiles, row: Profile)
    requires Unique(profiles) && !Taken(profiles, row) && (row.id in profiles ==> profiles[row.id].id == row.id)
    ensures Unique(profiles[row.id := row])
  {
    var profiles' := profiles[row.id := row];
    forall a, b | a in profiles' && b in profiles' && a != b
      ensures !Of(profiles'[b], profiles'[a].connection, profiles'[a].tenant)
    {
      if a == row.id {
        assert !Of(profiles[b], row.connection, row.tenant);
      } else if b == row.id {
        assert !Of(profiles[a], row.connection, row.tenant);
      }
    }
  }

  /** A row that the constraints allow keeps the table unique and owned. */
  lemma RowSound(db: Db, born: map<Id, Birth>, row: Profile)
    requires DbSound(db, born) && Rooted(born, row) && Allows(DEPLOYED, db, row)
    ensures DbSound(db.(profiles := db.profiles[row.id := row]), born)
  {
    RowUnique(db.profiles, row);
    var profiles := db.profiles[row.id := row];
    forall id | id in profiles ensures profiles[id].id == id && Rooted(born, profiles[id]) {
      if id != row.id {
        assert Rooted(born, db.profiles[id]);
      }
    }
  }

  lemma MergedRooted(born: map<Id, Birth>, stored: Profile, loaded: Profile, wanted: Profile)
    requires Rooted(born, stored) && Rooted(born, loaded) && Rooted(born, wanted)
    requires stored.id == loaded.id == wanted.id
    ensures Rooted(born, Merged(stored, loaded, wanted))
    ensures Merged(stored, loaded, wanted).tenant == stored.tenant
            && Merged(stored, loaded, wanted).connection == stored.connection
  {
  }

  lemma UpdateSound(db: Db, born: map<Id, Birth>, record: Profile, loaded: Profile)
    requires DbSound(db, born) && WriteSound(born, WriteFlush(record, Some(loaded))) && record.id in db.profiles
    ensures DbSound(Flush(DEPLOYED, db, record, Some(loaded)).0, born)
  {
    var stored := db.profiles[record.id];
    assert Rooted(born, stored);
    MergedRooted(born, stored, loaded, record);
    var row := Merged(stored, loaded, record);
    if Allows(DEPLOYED, db, row) {
      RowSound(db, born, row);
    }
  }

  lemma FlushSound(db: Db, born: map<Id, Birth>, record: Profile, loaded: Option<Profile>)
    requires DbSound(db, born) && WriteSound(born, WriteFlush(record, loaded))
    ensures DbSound(Flush(DEPLOYED, db, record, loaded).0, born)
  {
    if loaded.Some? && record.id in db.profiles {
      UpdateSound(db, born, record, loaded.value);
    } else if loaded.None? && Allows(DEPLOYED, db, record) {
      RowSound(db, born, record);
    }
  }

  lemma WriteStepSound(db: Db, born: map<Id, Birth>, pc: WritePc)
    requires DbSound(db, born) && WriteSound(born, pc)
    ensures var (db', pc') := WriteStep(DEPLOYED, db, pc); DbSound(db', born) && WriteSound(born, pc')
  {
    if pc.WriteFlush? {
      FlushSound(db, born, pc.record, pc.loaded);
    }
  }

  /** A planned record has an id that is new or stands for the same connection. */
  lemma LookSound(db: Db, born: map<Id, Birth>, q: Request, settings: Settings, newId: Id, now: Time)
    requires DbSound(db, born) && newId !in born
    ensures var t := Look(db, q, settings, newId, now); ThreadSound(Note(born, t), t) && BornKept(born, Note(born, t))
  {
    var p := ProfileOf(db.profiles, q.connection, q.tenant);
    if p.Some? {
      assert Rooted(born, p.value);
    }
  }

  lemma AdvanceSound(upper: string -> string, db: Db, born: map<Id, Birth>, t: Thread, newId: Id, now: Time)
    requires DbSound(db, born) && ThreadSound(born, t) && (t.Looking? ==> newId !in born)
    ensures var (db', t') := Advance(DEPLOYED, upper, db, t, newId, now);
            DbSound(db', born) && ThreadSound(Note(born, t'), t') && BornKept(born, Note(born, t'))
  {
    match t
    case Looking(q, settings) => LookSound(db, born, q, settings, newId, now);
    case Writing(pc) => WriteStepSound(db, born, pc);
    case _ =>
  }

  /** A disconnect takes the profiles of its connection along. */
  lemma DisconnectSound(db: Db, born: map<Id, Birth>, connection: Id, tenant: Tenant)
    requires DbSound(db, born)
    ensures DbSound(DeleteConnection(db, connection, tenant), born)
  {
    var db' := DeleteConnection(db, connection, tenant);
    assert forall id :: id in db'.profiles ==> id in db.profiles && db'.profiles[id] == db.profiles[id];
    forall id | id in db'.profiles
      ensures Owned(db', db'.profiles[id].connection, db'.profiles[id].tenant)
    {
      var p := db.profiles[id];
      assert Owned(db, p.connection, p.tenant);
      assert Owned(db, connection, tenant) ==> !Of(p, connection, tenant);
    }
    forall id | id in db'.profiles ensures db'.profiles[id].id == id && Rooted(born, db'.profiles[id]) {
      assert Rooted(born, db.profiles[id]);
    }
  }

  lemma ConnectSound(db: Db, born: map<Id, Birth>, connection: Id, tenant: Tenant)
    requires DbSound(db, born) && connection !in db.connections
    ensures DbSound(db.(connections := db.connections[connection := tenant]), born)
  {
    var db' := db.(connections := db.connections[connection := tenant]);
    forall id | id in db'.profiles ensures Owned(db', db'.profiles[id].connection, db'.profiles[id].tenant) {
      assert Owned(db, db.profiles[id].connection, db.profiles[id].tenant);
    }
  }

  lemma GoSound(upper: string -> string, s: State, th: nat, newId: Id, now: Time)
    requires Sound(s) && th in s.threads && (s.threads[th].Looking? ==> newId !in s.born)
    ensures Sound(Step(DEPLOYED, upper, s, Go(th, newId, now)))
  {
    var (db', t') := Advance(DEPLOYED, upper, s.db, s.threads[th], newId, now);
    AdvanceSound(upper, s.db, s.born, s.threads[th], newId, now);
    assert Sound(State(db', s.threads, s.born));
    SoundGrows(db', s.threads, s.born, Note(s.born, t'));
  }

  lemma StepSound(upper: string -> string, s: State, e: Event)
    requires Sound(s) && Fresh(s, e)
    ensures Sound(Step(DEPLOYED, upper, s, e))
  {
    match e
    case Connect(connection, tenant) =>
      if connection !in s.db.connections {
        ConnectSound(s.db, s.born, connection, tenant);
      }
    case Disconnect(connection, tenant) => DisconnectSound(s.db, s.born, connection, tenant);
    case Go(th, newId, now) => if th in s.threads { GoSound(upper, s, th, newId, now); }
    case Spawn(_, _) =>
    case Crash(_) =>
  }

  lemma {:induction false} RunIsSound(upper: string -> string, s: State, events: seq<Event>)
    requires Sound(s) && FreshRun(DEPLOYED, upper, s, events)
    ensures Sound(Run(DEPLOYED, upper, s, events))
  {
    if events != [] {
      RunIsSound(upper, s, events[..|events| - 1]);
      StepSound(upper, Run(DEPLOYED, upper, s, events[..|events| - 1]), events[|events| - 1]);
    }
  }

  // ---- what the columns hold ----

  ghost predicate Accepted(path: string) {
    PathFits(path) && exists value :: NormalizeRelativePath(value) == Ok(path)
  }

  /** Every column holds a value that a check and the record have let through. */
  ghost predicate ColumnsOk(s: Settings) {
    1 <= |s.name| <= 128 && CurrencyOk(s.currency) && Accepted(s.inbox) && Accepted(s.archive) && Accepted(s.reports)
  }

  lemma CheckSound(input: Input, upper: string -> string)
    ensures var c := Check(input, upper); c.Good? && RecordFits(c.settings) ==> ColumnsOk(c.settings)
  {
    var c := Check(input, upper);
    if c.Good? && RecordFits(c.settings) {
      GoodMeans(input, upper);
      assert Accepted(c.settings.inbox) && Accepted(c.settings.archive) && Accepted(c.settings.reports);
    }
  }

  lemma MergedColumns(stored: Settings, loaded: Settings, wanted: Settings)
    requires ColumnsOk(stored) && ColumnsOk(wanted)
    ensures ColumnsOk(MergedSettings(stored, loaded, wanted))
  {
  }

  /** A property of settings that checking and building the record establish and merging keeps. */
  ghost predicate Lasting(fine: Settings -> bool, upper: string -> string) {
    && (forall stored, loaded, wanted :: fine(stored) && fine(wanted) ==> fine(MergedSettings(stored, loaded, wanted)))
    && (forall input :: Check(input, upper).Good? && RecordFits(Check(input, upper).settings) ==>
                          fine(Check(input, upper).settings))
  }

  ghost predicate AllFine(fine: Settings -> bool, profiles: Profiles) {
    forall id :: id in profiles ==> fine(profiles[id].settings)
  }

  ghost predicate ThreadFine(fine: Settings -> bool, upper: string -> string, t: Thread) {
    && (t.Looking? ==> Check(t.request.input, upper) == Good(t.settings) && DistinctFolders(t.settings))
    && (t.Writing? ==> fine(t.write.record.settings) && DistinctFolders(t.write.record.settings))
  }

  ghost predicate Fine(fine: Settings -> bool, upper: string -> string, s: State) {
    AllFine(fine, s.db.profiles) && forall th :: th in s.threads ==> ThreadFine(fine, upper, s.threads[th])
  }

  lemma FlushFine(fine: Settings -> bool, schema: Schema, upper: string -> string, db: Db, record: Profile,
                  loaded: Option<Profile>)
    requires Lasting(fine, upper) && AllFine(fine, db.profiles) && fine(record.settings)
    ensures AllFine(fine, Flush(schema, db, record, loaded).0.profiles)
  {
  }

  lemma AdvanceFine(fine: Settings -> bool, schema: Schema, upper: string -> string, db: Db, t: Thread, newId: Id, now: Time)
    requires Lasting(fine, upper) && AllFine(fine, db.profiles) && ThreadFine(fine, upper, t)
    ensures var (db', t') := Advance(schema, upper, db, t, newId, now); AllFine(fine, db'.profiles) && ThreadFine(fine, upper, t')
  {
    match t
    case Resolving(q) =>
      if Check(q.input, upper).Good? {
        GoodMeans(q.input, upper);
      }
    case Writing(WriteFlush(record, loaded)) => FlushFine(fine, schema, upper, db, record, loaded);
    case _ =>
  }

  lemma {:induction false} RunIsFine(fine: Settings -> bool, schema: Schema, upper: string -> string, events: seq<Event>)
    requires Lasting(fine, upper)
    ensures Fine(fine, upper, Run(schema, upper, INIT, events))
  {
    if events != [] {
      var s, e := Run(schema, upper, INIT, events[..|events| - 1]), events[|events| - 1];
      RunIsFine(fine, schema, upper, events[..|events| - 1]);
      if e.Go? && e.th in s.threads {
        AdvanceFine(fine, schema, upper, s.db, s.threads[e.th], e.newId, e.now);
      }
    }
  }

  lemma ColumnsLast(upper: string -> string)
    ensures Lasting(s => ColumnsOk(s), upper)
  {
    forall stored, loaded, wanted | ColumnsOk(stored) && ColumnsOk(wanted)
      ensures ColumnsOk(MergedSettings(stored, loaded, wanted))
    {
      MergedColumns(stored, loaded, wanted);
    }
    forall input | Check(input, upper).Good? && RecordFits(Check(input, upper).settings)
      ensures ColumnsOk(Check(input, upper).settings)
    {
      CheckSound(input, upper);
    }
  }

  /**
   In every run, whatever is interleaved with the statements of a write: at most
   one profile per tenant and connection, every profile belongs to a live
   connection of its tenant, and every column holds a checked value that fits
   the record, so every profile can be read.
   */
  lemma ProfilesAreSound(upper: string -> string, events: seq<Event>)
    requires FreshRun(DEPLOYED, upper, INIT, events)
    ensures var db := Run(DEPLOYED, upper, INIT, events).db;
            && Unique(db.profiles) && AllFine(s => ColumnsOk(s), db.profiles) && AllFine(s => RecordFits(s), db.profiles)
            && forall id :: id in db.profiles ==>
                 db.profiles[id].id == id && Owned(db, db.profiles[id].connection, db.profiles[id].tenant)
  {
    RunIsSound(upper, INIT, events);
    ColumnsLast(upper);
    RunIsFine(s => ColumnsOk(s), DEPLOYED, upper, events);
  }

  // ---- identity ----

  lemma {:induction false} BirthsAreKept(upper: string -> string, events: seq<Event>, n: nat)
    requires n <= |events|
    ensures BornKept(Run(DEPLOYED, upper, INIT, events[..n]).born, Run(DEPLOYED, upper, INIT, events).born)
  {
    if n < |events| {
      BirthsAreKept(upper, events[..|events| - 1], n);
      assert events[..|events| - 1][..n] == events[..n];
    } else {
      assert events[..n] == events;
    }
  }

  lemma {:induction false} FreshPrefix(upper: string -> string, events: seq<Event>, n: nat)
    requires n <= |events| && FreshRun(DEPLOYED, upper, INIT, events)
    ensures FreshRun(DEPLOYED, upper, INIT, events[..n])
  {
    if n < |events| {
      FreshPrefix(upper, events[..|events| - 1], n);
      assert events[..|events| - 1][..n] == events[..n];
    } else {
      assert events[..n] == events;
    }
  }

  /** A profile id keeps its tenant, its connection and its creation time for the rest of the run. */
  lemma IdentityIsKept(upper: string -> string, events: seq<Event>, n: nat, id: Id)
    requires n <= |events| && FreshRun(DEPLOYED, upper, INIT, events)
    requires id in Run(DEPLOYED, upper, INIT, events[..n]).db.profiles && id in Run(DEPLOYED, upper, INIT, events).db.profiles
    ensures BirthOf(Run(DEPLOYED, upper, INIT, events[..n]).db.profiles[id])
            == BirthOf(Run(DEPLOYED, upper, INIT, events).db.profiles[id])
  {
    FreshPrefix(upper, events, n);
    RunIsSound(upper, INIT, events[..n]);
    RunIsSound(upper, INIT, events);
    BirthsAreKept(upper, events, n);
    var s, s' := Run(DEPLOYED, upper, INIT, events[..n]), Run(DEPLOYED, upper, INIT, events);
    assert Rooted(s.born, s.db.profiles[id]) && Rooted(s'.born, s'.db.profiles[id]);
  }

  /** With random ids no call ever answers that ids collide. */
  lemma NoIdCollision(upper: string -> string, events: seq<Event>, th: nat)
    requires FreshRun(DEPLOYED, upper, INIT, events) && th in Run(DEPLOYED, upper, INIT, events).threads
    ensures Run(DEPLOYED, upper, INIT, events).threads[th] != Finished(Error(NotWritten(IdCollision)))
  {
    RunIsSound(upper, INIT, events);
    var s := Run(DEPLOYED, upper, INIT, events);
    assert ThreadSound(s.born, s.threads[th]);
  }

  /** The commit that thread `th` is about to make. */
  ghost predicate Commits(s: State, th: nat, record: Profile, loaded: Option<Profile>) {
    th in s.threads && s.threads[th] == Writing(WriteFlush(record, loaded))
  }

  /**
   A commit for a connection that has a profile, however stale its queries are:
   the profile keeps id, tenant, connection and creation time, and the commit
   succeeds exactly if it updates this profile or has nothing to update.
   */
  lemma ReconfiguringKeepsIdentity(upper: string -> string, events: seq<Event>, th: nat, record: Profile,
                                   loaded: Option<Profile>)
    requires FreshRun(DEPLOYED, upper, INIT, events) && Commits(Run(DEPLOYED, upper, INIT, events), th, record, loaded)
    requires ProfileOf(Run(DEPLOYED, upper, INIT, events).db.profiles, record.connection, record.tenant).Some?
    ensures var s := Run(DEPLOYED, upper, INIT, events);
            var p := ProfileOf(s.db.profiles, record.connection, record.tenant).value;
            var (db', r) := Flush(DEPLOYED, s.db, record, loaded);
            && (r == Put <==> loaded.Some? && (p.id == record.id || record == loaded.value))
            && p.id in db'.profiles && BirthOf(db'.profiles[p.id]) == BirthOf(p)
  {
    RunIsSound(upper, INIT, events);
    var s := Run(DEPLOYED, upper, INIT, events);
    assert ThreadSound(s.born, s.threads[th]);
    OverwriteKeeps(s.db, s.born, record, loaded);
  }

  lemma OverwriteKeeps(db: Db, born: map<Id, Birth>, record: Profile, loaded: Option<Profile>)
    requires DbSound(db, born) && WriteSound(born, WriteFlush(record, loaded))
    requires ProfileOf(db.profiles, record.connection, record.tenant).Some?
    ensures var p := ProfileOf(db.profiles, record.connection, record.tenant).value;
            var (db', r) := Flush(DEPLOYED, db, record, loaded);
            && (r == Put <==> loaded.Some? && (p.id == record.id || record == loaded.value))
            && p.id in db'.profiles && BirthOf(db'.profiles[p.id]) == BirthOf(p)
  {
    var p := ProfileOf(db.profiles, record.connection, record.tenant).value;
    assert p.id in db.profiles && db.profiles[p.id] == p && Rooted(born, p);
    if record.id in db.profiles {
      var stored := db.profiles[record.id];
      assert Rooted(born, stored) && stored.tenant == record.tenant && stored.connection == record.connection;
      assert p.id == record.id;
      if loaded.Some? {
        MergedRooted(born, stored, loaded.value, record);
      }
    } else {
      assert Of(db.profiles[p.id], record.connection, record.tenant);
      assert Taken(db.profiles, record);
    }
  }

  // ---- the folders of concurrent reconfigurations ----

  function Folder(s: Settings, i: int): string {
    if i == 0 then s.inbox else if i == 1 then s.archive else s.reports
  }

  /** Column `i` is set to what column `j`, which is not set, holds by now. */
  predicate CrossedIn(stored: Settings, loaded: Settings, wanted: Settings, i: int, j: int) {
    && Folder(wanted, i) != Folder(loaded, i) && Folder(wanted, j) == Folder(loaded, j)
    && Folder(wanted, i) == Folder(stored, j)
  }

  predicate Crossed(stored: Settings, loaded: Settings, wanted: Settings) {
    exists i, j :: 0 <= i < 3 && 0 <= j < 3 && i != j && CrossedIn(stored, loaded, wanted, i, j)
  }

  /** Merging two settings with distinct folders keeps them distinct if and only if no columns cross. */
  lemma MergedFoldersAre(stored: Settings, loaded: Settings, wanted: Settings)
    requires DistinctFolders(stored) && DistinctFolders(wanted)
    ensures DistinctFolders(MergedSettings(stored, loaded, wanted)) <==> !Crossed(stored, loaded, wanted)
  {
    var m := MergedSettings(stored, loaded, wanted);
    PairMerged(stored, loaded, wanted, 0, 1);
    PairMerged(stored, loaded, wanted, 0, 2);
    PairMerged(stored, loaded, wanted, 1, 2);
    if Crossed(stored, loaded, wanted) {
      var i, j :| 0 <= i < 3 && 0 <= j < 3 && i != j && CrossedIn(stored, loaded, wanted, i, j);
      PairMerged(stored, loaded, wanted, i, j);
    }
    assert Folder(m, 0) == m.inbox && Folder(m, 1) == m.archive && Folder(m, 2) == m.reports;
  }

  lemma PairMerged(stored: Settings, loaded: Settings, wanted: Settings, i: int, j: int)
    requires 0 <= i < 3 && 0 <= j < 3 && i != j
    requires Folder(stored, i) != Folder(stored, j) && Folder(wanted, i) != Folder(wanted, j)
    ensures var m := MergedSettings(stored, loaded, wanted);
            Folder(m, i) == Folder(m, j)
            <==> CrossedIn(stored, loaded, wanted, i, j) || CrossedIn(stored, loaded, wanted, j, i)
  {
  }

  /** In particular the folders stay distinct if the row still has the folders that were loaded. */
  lemma UndisturbedNeverCrosses(stored: Settings, loaded: Settings, wanted: Settings)
    requires DistinctFolders(wanted) && forall i :: 0 <= i < 3 ==> Folder(stored, i) == Folder(loaded, i)
    ensures !Crossed(stored, loaded, wanted)
  {
  }

  ghost predicate FoldersDistinct(profiles: Profiles) {
    forall id :: id in profiles ==> DistinctFolders(profiles[id].settings)
  }

  /** The event commits an update whose columns cross with what others have committed since the row was loaded. */
  ghost predicate CrossesAt(s: State, e: Event) {
    && e.Go? && e.th in s.threads && s.threads[e.th].Writing? && s.threads[e.th].write.WriteFlush?
    && var pc := s.threads[e.th].write;
       && pc.loaded.Some? && pc.record != pc.loaded.value && pc.record.id in s.db.profiles
       && Crossed(s.db.profiles[pc.record.id].settings, pc.loaded.value.settings, pc.record.settings)
  }

  ghost predicate NeverCrosses(upper: string -> string, events: seq<Event>) {
    events != [] ==>
      && NeverCrosses(upper, events[..|events| - 1])
      && !CrossesAt(Run(DEPLOYED, upper, INIT, events[..|events| - 1]), events[|events| - 1])
  }

  ghost predicate AlwaysDistinct(upper: string -> string, events: seq<Event>) {
    && FoldersDistinct(Run(DEPLOYED, upper, INIT, events).db.profiles)
    && (events != [] ==> AlwaysDistinct(upper, events[..|events| - 1]))
  }

  /** The one row that an update changes decides. */
  lemma FoldersAfter(profiles: Profiles, id: Id, row: Profile)
    requires FoldersDistinct(profiles)
    ensures FoldersDistinct(profiles[id := row]) <==> DistinctFolders(row.settings)
  {
    assert profiles[id := row][id] == row;
  }

  lemma UpdateCrosses(db: Db, born: map<Id, Birth>, record: Profile, loaded: Profile)
    requires DbSound(db, born) && WriteSound(born, WriteFlush(record, Some(loaded)))
    requires FoldersDistinct(db.profiles) && DistinctFolders(record.settings)
    requires record != loaded && record.id in db.profiles
    ensures FoldersDistinct(Flush(DEPLOYED, db, record, Some(loaded)).0.profiles)
            <==> !Crossed(db.profiles[record.id].settings, loaded.settings, record.settings)
  {
    var stored := db.profiles[record.id];
    var row := Merged(stored, loaded, record);
    assert Rooted(born, stored);
    MergedRooted(born, stored, loaded, record);
    StoredAllows(db, born, row);
    MergedFoldersAre(stored.settings, loaded.settings, record.settings);
    FoldersAfter(db.profiles, record.id, row);
  }

  lemma FlushCrosses(db: Db, born: map<Id, Birth>, record: Profile, loaded: Option<Profile>)
    requires DbSound(db, born) && WriteSound(born, WriteFlush(record, loaded))
    requires FoldersDistinct(db.profiles) && DistinctFolders(record.settings)
    ensures FoldersDistinct(Flush(DEPLOYED, db, record, loaded).0.profiles)
            <==> !(loaded.Some? && record != loaded.value && record.id in db.profiles
                   && Crossed(db.profiles[record.id].settings, loaded.value.settings, record.settings))
  {
    if loaded.Some? && record.id in db.profiles && record != loaded.value {
      UpdateCrosses(db, born, record, loaded.value);
    } else if loaded.None? {
      FoldersAfter(db.profiles, record.id, record);
    }
  }

  /** A row with the tenant and connection of the stored one violates no constraint. */
  lemma StoredAllows(db: Db, born: map<Id, Birth>, row: Profile)
    requires DbSound(db, born) && row.id in db.profiles
    requires Of(row, db.profiles[row.id].connection, db.profiles[row.id].tenant)
    ensures Allows(DEPLOYED, db, row)
  {
    assert forall id :: id in db.profiles && id != row.id ==> !Of(db.profiles[id], row.connection, row.tenant);
  }

  predicate Flushes(t: Thread) {
    t.Writing? && t.write.WriteFlush?
  }

  lemma AdvanceReads(upper: string -> string, db: Db, t: Thread, newId: Id, now: Time)
    requires !Flushes(t)
    ensures Advance(DEPLOYED, upper, db, t, newId, now).0 == db
  {
  }

  /** Everything but a flush at most takes rows away. */
  lemma OthersKeepFolders(upper: string -> string, s: State, e: Event)
    requires e.Go? && e.th in s.threads ==> !Flushes(s.threads[e.th])
    ensures FoldersDistinct(s.db.profiles) ==> FoldersDistinct(Step(DEPLOYED, upper, s, e).db.profiles)
  {
    if e.Go? && e.th in s.threads {
      AdvanceReads(upper, s.db, s.threads[e.th], e.newId, e.now);
    }
  }

  lemma FlushStep(upper: string -> string, s: State, e: Event, record: Profile, loaded: Option<Profile>)
    requires e.Go? && Commits(s, e.th, record, loaded)
    ensures Step(DEPLOYED, upper, s, e).db == Flush(DEPLOYED, s.db, record, loaded).0
  {
  }

  lemma StepCrosses(upper: string -> string, s: State, e: Event)
    requires Sound(s) && Fine(_ => true, upper, s) && FoldersDistinct(s.db.profiles)
    ensures FoldersDistinct(Step(DEPLOYED, upper, s, e).db.profiles) <==> !CrossesAt(s, e)
  {
    if e.Go? && e.th in s.threads && Flushes(s.threads[e.th]) {
      var pc := s.threads[e.th].write;
      assert ThreadSound(s.born, s.threads[e.th]) && ThreadFine(_ => true, upper, s.threads[e.th]);
      FlushStep(upper, s, e, pc.record, pc.loaded);
      FlushCrosses(s.db, s.born, pc.record, pc.loaded);
    } else {
      OthersKeepFolders(upper, s, e);
    }
  }

  /** Over a whole run the folders of every stored profile are distinct at all times if and only if no update crosses. */
  lemma {:induction false} DistinctUnlessCrossed(upper: string -> string, events: seq<Event>)
    requires FreshRun(DEPLOYED, upper, INIT, events)
    ensures AlwaysDistinct(upper, events) <==> NeverCrosses(upper, events)
  {
    if events != [] {
      var init := events[..|events| - 1];
      DistinctUnlessCrossed(upper, init);
      if AlwaysDistinct(upper, init) {
        RunIsSound(upper, INIT, init);
        RunIsFine(_ => true, DEPLOYED, upper, init);
        AlwaysNow(upper, init);
        StepCrosses(upper, Run(DEPLOYED, upper, INIT, init), events[|events| - 1]);
      }
    }
  }

  lemma AlwaysNow(upper: string -> string, events: seq<Event>)
    requires AlwaysDistinct(upper, events)
    ensures FoldersDistinct(Run(DEPLOYED, upper, INIT, events).db.profiles)
  {
  }
}
