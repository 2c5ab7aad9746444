/**
 Two configurations at the same time: without the unique index or the foreign
 key the profiles do not stay sound, and with both of them two updates can
 still leave a profile with two equal folders.
 */
module ProfileFindings {
  import opened Options
  import opened Profiles
  import opened ProfileRuns

  /** Some run with fresh ids from `s` ends in `s'`. */
  ghost predicate Leads(schema: Schema, upper: string -> string, s: State, s': State) {
    exists events :: FreshRun(schema, upper, s, events) && Run(schema, upper, s, events) == s'
  }

  lemma Here(schema: Schema, upper: string -> string, s: State)
    ensures Leads(schema, upper, s, s)
  {
    assert FreshRun(schema, upper, s, []) && Run(schema, upper, s, []) == s;
  }

  lemma Extend(schema: Schema, upper: string -> string, s: State, s': State, e: Event)
    requires Leads(schema, upper, s, s') && Fresh(s', e)
    ensures Leads(schema, upper, s, Step(schema, upper, s', e))
  {
    var events :| FreshRun(schema, upper, s, events) && Run(schema, upper, s, events) == s';
    var longer := events + [e];
    assert longer[..|longer| - 1] == events;
    assert FreshRun(schema, upper, s, longer) && Run(schema, upper, s, longer) == Step(schema, upper, s', e);
  }

  function With(s: State, th: nat, t: Thread): State {
    s.(threads := s.threads[th := t])
  }

  lemma Restarted(threads: map<nat, Thread>, th: nat, t: Thread, t': Thread)
    ensures threads[th := t][th := t'] == threads[th := t']
  {
  }

  lemma MoveStep(schema: Schema, upper: string -> string, base: State, th: nat, t: Thread, newId: Id, now: Time, t': Thread)
    requires Advance(schema, upper, base.db, t, newId, now) == (base.db, t')
    ensures Step(schema, upper, With(base, th, t), Go(th, newId, now)) == With(base.(born := Note(base.born, t')), th, t')
  {
    Restarted(base.threads, th, t, t');
  }

  /** A step of `th` that writes nothing. */
  lemma Move(schema: Schema, upper: string -> string, s: State, base: State, th: nat, t: Thread, newId: Id, now: Time, t': Thread)
    requires Leads(schema, upper, s, With(base, th, t)) && (t.Looking? ==> newId !in base.born)
    requires Advance(schema, upper, base.db, t, newId, now) == (base.db, t')
    ensures Leads(schema, upper, s, With(base.(born := Note(base.born, t')), th, t'))
  {
    Extend(schema, upper, s, With(base, th, t), Go(th, newId, now));
    MoveStep(schema, upper, base, th, t, newId, now, t');
  }

  /** A request whose settings can be resolved and whose input is accepted, also by the record. */
  predicate Ready(db: Db, upper: string -> string, q: Request) {
    && Owned(db, q.connection, q.tenant) && q.readable && Check(q.input, upper).Good?
    && RecordFits(Check(q.input, upper).settings)
  }

  /** The call comes to the point where it has looked up the profile. */
  lemma Plans(schema: Schema, upper: string -> string, s: State, base: State, th: nat, q: Request, newId: Id, now: Time,
              record: Profile)
    requires Leads(schema, upper, s, base) && th !in base.threads && Ready(base.db, upper, q) && newId !in base.born
    requires Look(base.db, q, Check(q.input, upper).settings, newId, now) == Writing(WriteStart(record))
    ensures Leads(schema, upper, s,
                  With(base.(born := Note(base.born, Writing(WriteStart(record)))), th, Writing(WriteStart(record))))
  {
    Extend(schema, upper, s, base, Spawn(th, q));
    assert Step(schema, upper, base, Spawn(th, q)) == With(base, th, Resolving(q));
    var settings := Check(q.input, upper).settings;
    Move(schema, upper, s, base, th, Resolving(q), newId, now, Looking(q, settings));
    assert base.(born := base.born) == base;
    Move(schema, upper, s, base, th, Looking(q, settings), newId, now, Writing(WriteStart(record)));
  }

  function Loaded(db: Db, id: Id): Option<Profile> {
    if id in db.profiles then Some(db.profiles[id]) else None
  }

  /** And on to its commit, when its three queries find nothing in the way. */
  lemma Queries(schema: Schema, upper: string -> string, s: State, base: State, th: nat, record: Profile)
    requires Leads(schema, upper, s, With(base, th, Writing(WriteStart(record))))
    requires Owned(base.db, record.connection, record.tenant) && !Taken(base.db.profiles, record)
    requires record.id in base.db.profiles ==> base.db.profiles[record.id].tenant == record.tenant
    ensures Leads(schema, upper, s, With(base, th, Writing(WriteFlush(record, Loaded(base.db, record.id)))))
  {
    var loaded := Loaded(base.db, record.id);
    assert base.(born := base.born) == base;
    Move(schema, upper, s, base, th, Writing(WriteStart(record)), "", 0, Writing(WriteGet(record)));
    Move(schema, upper, s, base, th, Writing(WriteGet(record)), "", 0, Writing(WriteOther(record, loaded)));
    Move(schema, upper, s, base, th, Writing(WriteOther(record, loaded)), "", 0, Writing(WriteFlush(record, loaded)));
  }

  /** Both together. */
  lemma Prepares(schema: Schema, upper: string -> string, s: State, base: State, th: nat, q: Request, newId: Id, now: Time,
                 record: Profile)
    requires Leads(schema, upper, s, base) && th !in base.threads && Ready(base.db, upper, q) && newId !in base.born
    requires Look(base.db, q, Check(q.input, upper).settings, newId, now) == Writing(WriteStart(record))
    requires Of(record, q.connection, q.tenant) && !Taken(base.db.profiles, record)
    requires record.id in base.db.profiles ==> base.db.profiles[record.id].tenant == record.tenant
    ensures Leads(schema, upper, s,
                  With(base.(born := Note(base.born, Writing(WriteStart(record)))), th,
                       Writing(WriteFlush(record, Loaded(base.db, record.id)))))
  {
    Plans(schema, upper, s, base, th, q, newId, now, record);
    Queries(schema, upper, s, base.(born := Note(base.born, Writing(WriteStart(record)))), th, record);
  }

  /** The tables and the thread after a commit and its answer. */
  function Answered(s1: State, th: nat, db: Db, record: Profile): State {
    State(db, s1.threads[th := Finished(Summary(record))], s1.born)
  }

  lemma CommitStep(schema: Schema, upper: string -> string, s1: State, th: nat, record: Profile, loaded: Option<Profile>, db: Db)
    requires Commits(s1, th, record, loaded) && Flush(schema, s1.db, record, loaded) == (db, Put)
    ensures var s2 := Step(schema, upper, s1, Go(th, "", 0));
            s2 == State(db, s1.threads[th := Writing(WriteDone(record, Put))], s1.born)
            && Step(schema, upper, s2, Go(th, "", 0)) == Answered(s1, th, db, record)
  {
    Restarted(s1.threads, th, Writing(WriteDone(record, Put)), Finished(Summary(record)));
  }

  /** The commit and the answer of a call. */
  lemma Commit(schema: Schema, upper: string -> string, s: State, s1: State, th: nat, record: Profile, loaded: Option<Profile>,
               db: Db)
    requires Leads(schema, upper, s, s1) && Commits(s1, th, record, loaded)
    requires Flush(schema, s1.db, record, loaded) == (db, Put)
    ensures Leads(schema, upper, s, Answered(s1, th, db, record))
  {
    CommitStep(schema, upper, s1, th, record, loaded, db);
    var s2 := Step(schema, upper, s1, Go(th, "", 0));
    Extend(schema, upper, s, s1, Go(th, "", 0));
    Extend(schema, upper, s, s2, Go(th, "", 0));
  }

  /** Both calls have answered with a profile. */
  predicate BothSucceed(s: State, a: nat, b: nat) {
    && a in s.threads && s.threads[a].Finished? && s.threads[a].outcome.Summary?
    && b in s.threads && s.threads[b].Finished? && s.threads[b].outcome.Summary?
  }

  // ---- what the constraints are for ----

  /** A connection without a profile, and a call that will make one. */
  ghost predicate Unconfigured(s: State, upper: string -> string, q: Request, th: nat, newId: Id) {
    && Sound(s) && Ready(s.db, upper, q) && ProfileOf(s.db.profiles, q.connection, q.tenant).None?
    && th !in s.threads && newId !in s.born
  }

  function NewRecord(upper: string -> string, q: Request, newId: Id, now: Time): Profile
    requires Check(q.input, upper).Good?
  {
    Profile(newId, q.tenant, q.connection, Check(q.input, upper).settings, now, now)
  }

  lemma NoneTaken(db: Db, record: Profile)
    requires ProfileOf(db.profiles, record.connection, record.tenant).None?
    ensures !Taken(db.profiles, record)
  {
  }

  lemma NewPrepares(schema: Schema, upper: string -> string, s: State, base: State, th: nat, q: Request, newId: Id, now: Time)
    requires Leads(schema, upper, s, base) && Unconfigured(base, upper, q, th, newId)
    ensures var record := NewRecord(upper, q, newId, now);
            Leads(schema, upper, s,
                  With(base.(born := base.born[newId := BirthOf(record)]), th, Writing(WriteFlush(record, None))))
  {
    var record := NewRecord(upper, q, newId, now);
    NoneTaken(base.db, record);
    assert newId in base.db.profiles ==> Rooted(base.born, base.db.profiles[newId]);
    Prepares(schema, upper, s, base, th, q, newId, now, record);
  }

  /**
   Without the unique index: from every sound state, for every connection
   without a profile, two calls at the same time both succeed and leave two.
   */
  lemma IndexIsNeeded(foreignKey: bool, upper: string -> string, s: State, q: Request, a: nat, b: nat, idA: Id, idB: Id,
                      now: Time)
    requires Unconfigured(s, upper, q, a, idA) && Unconfigured(s, upper, q, b, idB) && a != b && idA != idB
    ensures exists s' :: Leads(Schema(false, foreignKey), upper, s, s') && !Unique(s'.db.profiles) && BothSucceed(s', a, b)
  {
    var schema := Schema(false, foreignKey);
    var ra, rb := NewRecord(upper, q, idA, now), NewRecord(upper, q, idB, now);
    Here(schema, upper, s);
    NewPrepares(schema, upper, s, s, a, q, idA, now);
    var s1 := With(s.(born := s.born[idA := BirthOf(ra)]), a, Writing(WriteFlush(ra, None)));
    PreparedSound(s, ra, a);
    NewPrepares(schema, upper, s, s1, b, q, idB, now);
    var s2 := With(s1.(born := s1.born[idB := BirthOf(rb)]), b, Writing(WriteFlush(rb, None)));
    TwoCommits(schema, upper, s, s2, ra, rb, a, b);
  }

  lemma PreparedSound(s: State, record: Profile, th: nat)
    requires Sound(s) && record.id !in s.born
    ensures Sound(With(s.(born := s.born[record.id := BirthOf(record)]), th, Writing(WriteFlush(record, None))))
  {
    var born' := s.born[record.id := BirthOf(record)];
    SoundGrows(s.db, s.threads, s.born, born');
    assert Rooted(born', record);
  }

  lemma TwoCommits(schema: Schema, upper: string -> string, s: State, s2: State, ra: Profile, rb: Profile, a: nat, b: nat)
    requires Leads(schema, upper, s, s2) && !schema.index && a != b && ra.id != rb.id
    requires Commits(s2, a, ra, None) && Commits(s2, b, rb, None)
    requires ra.id !in s2.db.profiles && rb.id !in s2.db.profiles
    requires Owned(s2.db, ra.connection, ra.tenant) && Of(rb, ra.connection, ra.tenant)
    ensures exists s' :: Leads(schema, upper, s, s') && !Unique(s'.db.profiles) && BothSucceed(s', a, b)
  {
    var db1 := s2.db.(profiles := s2.db.profiles[ra.id := ra]);
    var db2 := db1.(profiles := db1.profiles[rb.id := rb]);
    Commit(schema, upper, s, s2, a, ra, None, db1);
    var s3 := Answered(s2, a, db1, ra);
    Commit(schema, upper, s, s3, b, rb, None, db2);
    var s4 := Answered(s3, b, db2, rb);
    assert ra.id in db2.profiles && rb.id in db2.profiles;
    assert Of(db2.profiles[rb.id], db2.profiles[ra.id].connection, db2.profiles[ra.id].tenant);
    assert Leads(schema, upper, s, s4);
  }

  /** A profile whose connection is gone. */
  ghost predicate Ownerless(db: Db) {
    exists id :: id in db.profiles && !Owned(db, db.profiles[id].connection, db.profiles[id].tenant)
  }

  /**
   Without the foreign key: a disconnect between the queries and the commit
   leaves a profile without a connection.
   */
  lemma ForeignKeyIsNeeded(index: bool, upper: string -> string, s: State, q: Request, a: nat, idA: Id, now: Time)
    requires Unconfigured(s, upper, q, a, idA)
    ensures exists s' :: Leads(Schema(index, false), upper, s, s') && Ownerless(s'.db)
  {
    var schema := Schema(index, false);
    var record := NewRecord(upper, q, idA, now);
    Here(schema, upper, s);
    NewPrepares(schema, upper, s, s, a, q, idA, now);
    var s1 := With(s.(born := s.born[idA := BirthOf(record)]), a, Writing(WriteFlush(record, None)));
    Extend(schema, upper, s, s1, Disconnect(q.connection, q.tenant));
    var s2 := Step(schema, upper, s1, Disconnect(q.connection, q.tenant));
    assert idA in s.db.profiles ==> Rooted(s.born, s.db.profiles[idA]);
    InsertLate(schema, upper, s, s2, a, record);
  }

  lemma InsertLate(schema: Schema, upper: string -> string, s: State, s2: State, a: nat, record: Profile)
    requires Leads(schema, upper, s, s2) && !schema.foreignKey && Commits(s2, a, record, None)
    requires record.id !in s2.db.profiles && !Taken(s2.db.profiles, record)
    requires !Owned(s2.db, record.connection, record.tenant)
    ensures exists s' :: Leads(schema, upper, s, s') && Ownerless(s'.db)
  {
    var db := s2.db.(profiles := s2.db.profiles[record.id := record]);
    Commit(schema, upper, s, s2, a, record, None, db);
    assert record.id in db.profiles && !Owned(db, record.connection, record.tenant);
    assert Ownerless(Answered(s2, a, db, record).db);
  }

  // ---- two updates that cross ----

  /** A call that changes one folder of the stored profile. */
  ghost predicate Reconfigures(s: State, upper: string -> string, q: Request, p: Profile, settings: Settings, th: nat) {
    && Ready(s.db, upper, q) && Of(p, q.connection, q.tenant) && Check(q.input, upper) == Good(settings)
    && settings != p.settings && RecordFits(p.settings) && th !in s.threads
  }

  function Updated(p: Profile, settings: Settings, now: Time): Profile {
    p.(settings := settings, updated := now)
  }

  lemma UpdatePrepares(upper: string -> string, s: State, base: State, th: nat, q: Request, p: Profile, settings: Settings,
                       newId: Id, now: Time)
    requires Leads(DEPLOYED, upper, s, base) && Sound(base) && p.id in base.db.profiles && base.db.profiles[p.id] == p
    requires Reconfigures(base, upper, q, p, settings, th) && newId !in base.born
    ensures Leads(DEPLOYED, upper, s, With(base, th, Writing(WriteFlush(Updated(p, settings, now), Some(p)))))
  {
    var record := Updated(p, settings, now);
    TheProfile(base.db.profiles, p.id);
    assert Rooted(base.born, p);
    assert !Taken(base.db.profiles, record);
    Prepares(DEPLOYED, upper, s, base, th, q, newId, now, record);
    assert base.(born := Note(base.born, Writing(WriteStart(record)))) == base;
  }

  /**
   From every sound state, for every stored profile and every new folder: two
   calls at the same time, one moving the inbox there and one the archive, both
   succeed and leave a profile whose inbox and archive are the same folder.
   */
  lemma UpdatesCanCross(upper: string -> string, s: State, id: Id, x: string, qa: Request, qb: Request, a: nat, b: nat,
                        newId: Id, now: Time)
    requires Sound(s) && id in s.db.profiles && a != b && newId !in s.born
    requires var p := s.db.profiles[id];
             && Reconfigures(s, upper, qa, p, p.settings.(inbox := x), a)
             && Reconfigures(s, upper, qb, p, p.settings.(archive := x), b)
    ensures exists s' :: Leads(DEPLOYED, upper, s, s') && id in s'.db.profiles
                         && s'.db.profiles[id].settings.inbox == x && s'.db.profiles[id].settings.archive == x && BothSucceed(s', a, b)
  {
    var p := s.db.profiles[id];
    assert Rooted(s.born, p);
    var ra, rb := Updated(p, p.settings.(inbox := x), now), Updated(p, p.settings.(archive := x), now);
    Here(DEPLOYED, upper, s);
    UpdatePrepares(upper, s, s, a, qa, p, ra.settings, newId, now);
    var s1 := With(s, a, Writing(WriteFlush(ra, Some(p))));
    assert ThreadSound(s.born, Writing(WriteFlush(ra, Some(p))));
    UpdatePrepares(upper, s, s1, b, qb, p, rb.settings, newId, now);
    CrossingCommits(upper, s, With(s1, b, Writing(WriteFlush(rb, Some(p)))), p, x, ra, rb, a, b);
  }

  lemma FirstUpdate(db: Db, born: map<Id, Birth>, p: Profile, ra: Profile)
    requires DbSound(db, born) && p.id in db.profiles && db.profiles[p.id] == p
    requires ra == Updated(p, ra.settings, ra.updated) && ra != p && WriteSound(born, WriteFlush(ra, Some(p)))
    ensures var db' := db.(profiles := db.profiles[p.id := ra]);
            Flush(DEPLOYED, db, ra, Some(p)) == (db', Put) && DbSound(db', born)
  {
    MergedUndisturbed(p, ra);
    StoredAllows(db, born, ra);
    RowSound(db, born, ra);
  }

  lemma SecondUpdate(db: Db, born: map<Id, Birth>, p: Profile, x: string, ra: Profile, rb: Profile) returns (row: Profile)
    requires DbSound(db, born) && p.id in db.profiles && db.profiles[p.id] == ra
    requires ra.settings == p.settings.(inbox := x) && rb.settings == p.settings.(archive := x) != p.settings
    requires ra == Updated(p, ra.settings, ra.updated) && rb == Updated(p, rb.settings, rb.updated)
    ensures Flush(DEPLOYED, db, rb, Some(p)) == (db.(profiles := db.profiles[p.id := row]), Put)
    ensures row.settings.inbox == x && row.settings.archive == x
  {
    row := Merged(ra, p, rb);
    StoredAllows(db, born, row);
  }

  lemma CrossingCommits(upper: string -> string, s: State, s2: State, p: Profile, x: string, ra: Profile, rb: Profile,
                        a: nat, b: nat)
    requires Leads(DEPLOYED, upper, s, s2) && DbSound(s2.db, s2.born) && a != b
    requires p.id in s2.db.profiles && s2.db.profiles[p.id] == p
    requires ra.settings == p.settings.(inbox := x) != p.settings && rb.settings == p.settings.(archive := x) != p.settings
    requires ra == Updated(p, ra.settings, ra.updated) && rb == Updated(p, rb.settings, rb.updated)
    requires Commits(s2, a, ra, Some(p)) && Commits(s2, b, rb, Some(p)) && WriteSound(s2.born, WriteFlush(ra, Some(p)))
    ensures exists s' :: Leads(DEPLOYED, upper, s, s') && p.id in s'.db.profiles
                         && s'.db.profiles[p.id].settings.inbox == x && s'.db.profiles[p.id].settings.archive == x && BothSucceed(s', a, b)
  {
    FirstUpdate(s2.db, s2.born, p, ra);
    var db1 := s2.db.(profiles := s2.db.profiles[p.id := ra]);
    Commit(DEPLOYED, upper, s, s2, a, ra, Some(p), db1);
    var s3 := Answered(s2, a, db1, ra);
    var row := SecondUpdate(db1, s2.born, p, x, ra, rb);
    var db2 := db1.(profiles := db1.profiles[p.id := row]);
    Commit(DEPLOYED, upper, s, s3, b, rb, Some(p), db2);
    var s4 := Answered(s3, b, db2, rb);
    assert BothSucceed(s4, a, b) && s4.db.profiles[p.id] == row;
  }
}
