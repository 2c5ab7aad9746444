/**
 Household profiles, one per connection: configuring one reads, then writes in a
 second transaction. The stores, the service, and what the three folders name.
 */
module Profiles {
  import opened Options
  import opened Paths
  import opened Targets

  type Tenant = string
  type Id = string
  type Time = int

  datatype Settings = Settings(name: string, inbox: string, archive: string, reports: string, currency: string)

  datatype Profile = Profile(id: Id, tenant: Tenant, connection: Id, settings: Settings, created: Time, updated: Time)

  type Profiles = map<Id, Profile>

  /** The connection and profile tables; a connection is its id and its owner. */
  datatype Db = Db(connections: map<Id, Tenant>, profiles: Profiles)

  // ---- the store ----

  predicate Owned(db: Db, connection: Id, tenant: Tenant) {
    connection in db.connections && db.connections[connection] == tenant
  }

  predicate Of(p: Profile, connection: Id, tenant: Tenant) {
    p.connection == connection && p.tenant == tenant
  }

  /** Another profile already belongs to the connection. */
  predicate Taken(profiles: Profiles, record: Profile) {
    exists id :: id in profiles && id != record.id && Of(profiles[id], record.connection, record.tenant)
  }

  /** The last two are raised by the commit: a constraint fails, or the row to update is gone. */
  datatype PutResult = Put | NotOwned | IdCollision | AlreadyExists | ConstraintFails | RowGone

  /** The write with nothing in between; `ProfileRuns` takes it apart. */
  function PutProfile(db: Db, record: Profile): (Db, PutResult) {
    if !Owned(db, record.connection, record.tenant) then (db, NotOwned)
    else if record.id in db.profiles && db.profiles[record.id].tenant != record.tenant then (db, IdCollision)
    else if Taken(db.profiles, record) then (db, AlreadyExists)
    else (db.(profiles := db.profiles[record.id := record]), Put)
  }

  /** A disconnect; the foreign key takes the profiles of the connection along. */
  function DeleteConnection(db: Db, connection: Id, tenant: Tenant): Db {
    if !Owned(db, connection, tenant) then db
    else Db(db.connections - {connection},
            map id | id in db.profiles && !Of(db.profiles[id], connection, tenant) :: db.profiles[id])
  }

  ghost predicate Unique(profiles: Profiles) {
    forall a, b :: a in profiles && b in profiles && a != b ==>
      !Of(profiles[b], profiles[a].connection, profiles[a].tenant)
  }

  /** The profile of a connection, if there is one. */
  ghost function ProfileOf(profiles: Profiles, connection: Id, tenant: Tenant): Option<Profile> {
    if exists id :: id in profiles && Of(profiles[id], connection, tenant) then
      var id :| id in profiles && Of(profiles[id], connection, tenant); Some(profiles[id])
    else None
  }

  class DatabaseHouseholdProfileStore {
    var db: Db

    constructor (db: Db)
      ensures this.db == db
    {
      this.db := db;
    }

    method Write(record: Profile) returns (r: PutResult)
      modifies this
      ensures (db, r) == PutProfile(old(db), record)
    {
      if !Owned(db, record.connection, record.tenant) {
        return NotOwned;
      }
      if record.id in db.profiles && db.profiles[record.id].tenant != record.tenant {
        return IdCollision;
      }
      if Taken(db.profiles, record) {
        return AlreadyExists;
      }
      db := db.(profiles := db.profiles[record.id := record]);
      r := Put;
    }

    method GetProfileForConnection(connection: Id, tenant: Tenant) returns (r: Option<Profile>)
      requires Unique(db.profiles)
      ensures r == ProfileOf(db.profiles, connection, tenant)
    {
      var ids := db.profiles.Keys;
      while ids != {}
        invariant ids <= db.profiles.Keys
        invariant forall id :: id in db.profiles && id !in ids ==> !Of(db.profiles[id], connection, tenant)
        decreases |ids|
      {
        var id :| id in ids;
        if Of(db.profiles[id], connection, tenant) {
          return Some(db.profiles[id]);
        }
        ids := ids - {id};
      }
      r := None;
    }
  }

  // ---- configuring a profile ----

  /** The caller's input; the name's words are joined by single blanks. */
  datatype Input = Input(words: seq<string>, inbox: string, archive: string, reports: string, currency: string)

  /** `BadRecord`: the record refuses one of its fields. */
  datatype Problem = Unresolved | BadName | BadCurrency | BadPath | NotDistinct | BadRecord | NotWritten(why: PutResult)

  datatype Checked = Good(settings: Settings) | Bad(problem: Problem)

  function JoinWords(words: seq<string>): string {
    if words == [] then "" else if |words| == 1 then words[0] else words[0] + " " + JoinWords(words[1..])
  }

  predicate CurrencyOk(currency: string) {
    |currency| == 3 && forall i :: 0 <= i < 3 ==> 'A' <= currency[i] <= 'Z'
  }

  /** The checks, in the order they are made; `upper` is Python's `str.upper`. */
  function Check(input: Input, upper: string -> string): Checked {
    var name, currency := JoinWords(input.words), upper(Strip(input.currency));
    var inbox, archive, reports :=
      NormalizeRelativePath(input.inbox), NormalizeRelativePath(input.archive), NormalizeRelativePath(input.reports);
    if name == "" || |name| > 128 then Bad(BadName)
    else if !CurrencyOk(currency) then Bad(BadCurrency)
    else if inbox.Refused? || archive.Refused? || reports.Refused? then Bad(BadPath)
    else if inbox.path == archive.path || inbox.path == reports.path || archive.path == reports.path then Bad(NotDistinct)
    else Good(Settings(name, inbox.path, archive.path, reports.path, currency))
  }

  const MAX_PATH := 4096

  predicate PathFits(path: string) {
    1 <= |path| <= MAX_PATH
  }

  /** The lengths that the record of a profile accepts, when it is built from input or from a row. */
  predicate RecordFits(s: Settings) {
    && 1 <= |s.name| <= 128 && |s.currency| == 3
    && PathFits(s.inbox) && PathFits(s.archive) && PathFits(s.reports)
  }

  datatype Plan = Unchanged(profile: Profile) | ToWrite(record: Profile) | Rejected(problem: Problem)

  /** The first transaction; `newId` is drawn at random, `readable` is whether the credentials can be read. */
  ghost function PlanFor(db: Db, tenant: Tenant, connection: Id, input: Input, upper: string -> string, readable: bool,
                         newId: Id, now: Time): Plan
  {
    if !Owned(db, connection, tenant) || !readable then Rejected(Unresolved) else
    match Check(input, upper)
    case Bad(problem) => Rejected(problem)
    case Good(settings) =>
      match ProfileOf(db.profiles, connection, tenant)
      case Some(p) =>
        if !RecordFits(p.settings) then Rejected(BadRecord)
        else if p.settings == settings then Unchanged(p)
        else if !RecordFits(settings) then Rejected(BadRecord)
        else ToWrite(p.(tenant := tenant, connection := connection, settings := settings, updated := now))
      case None =>
        if !RecordFits(settings) then Rejected(BadRecord)
        else ToWrite(Profile(newId, tenant, connection, settings, now, now))
  }

  datatype Outcome = Summary(profile: Profile) | Error(problem: Problem)

  /** Both transactions with nothing in between. */
  ghost function Configured(db: Db, tenant: Tenant, connection: Id, input: Input, upper: string -> string,
                            readable: bool, newId: Id, now: Time): (Db, Outcome)
  {
    match PlanFor(db, tenant, connection, input, upper, readable, newId, now)
    case Unchanged(p) => (db, Summary(p))
    case Rejected(problem) => (db, Error(problem))
    case ToWrite(record) =>
      var (db', r) := PutProfile(db, record);
      (db', if r == Put then Summary(record) else Error(NotWritten(r)))
  }

  class HouseholdService {
    const store: DatabaseHouseholdProfileStore

    constructor (store: DatabaseHouseholdProfileStore)
      ensures this.store == store
    {
      this.store := store;
    }

    method ConfigureProfile(tenant: Tenant, connection: Id, input: Input, upper: string -> string, readable: bool,
                            newId: Id, now: Time)
      returns (r: Outcome)
      requires Unique(store.db.profiles)
      modifies store
      ensures (store.db, r) == Configured(old(store.db), tenant, connection, input, upper, readable, newId, now)
    {
      if !Owned(store.db, connection, tenant) || !readable {
        return Error(Unresolved);
      }
      var checked := Check(input, upper);
      if checked.Bad? {
        return Error(checked.problem);
      }
      var settings := checked.settings;
      var existing := store.GetProfileForConnection(connection, tenant);
      if existing.Some? && !RecordFits(existing.value.settings) {
        return Error(BadRecord);
      }
      if existing.Some? && existing.value.settings == settings {
        return Summary(existing.value);
      }
      if !RecordFits(settings) {
        return Error(BadRecord);
      }
      var record := Profile(
        if existing.Some? then existing.value.id else newId, tenant, connection, settings,
        if existing.Some? then existing.value.created else now, now);
      var written := store.Write(record);
      r := if written == Put then Summary(record) else Error(NotWritten(written));
    }
  }

  // ---- the in-memory store ----

  type Memory = map<(Tenant, Id), Profile>

  class InMemoryHouseholdProfileStore {
    var profiles: Memory

    constructor ()
      ensures profiles == map[]
    {
      profiles := map[];
    }

    /** The first match in iteration order; any order. */
    method GetProfileForConnection(connection: Id, tenant: Tenant) returns (r: Option<Profile>)
      ensures r.Some? ==> exists key :: InMemory(profiles, key, connection, tenant) && profiles[key] == r.value
      ensures r.None? ==> forall key :: !InMemory(profiles, key, connection, tenant)
    {
      var keys := profiles.Keys;
      while keys != {}
        invariant keys <= profiles.Keys
        invariant forall key :: key !in keys ==> !InMemory(profiles, key, connection, tenant)
        decreases |keys|
      {
        var key :| key in keys;
        if key.0 == tenant && profiles[key].connection == connection {
          assert InMemory(profiles, key, connection, tenant);
          return Some(profiles[key]);
        }
        keys := keys - {key};
      }
      r := None;
    }

    /** Raises for a second profile of the connection. */
    method PutRecord(record: Profile) returns (ok: bool)
      requires OnePerConnection(profiles)
      modifies this
      ensures ok == !MemoryTaken(old(profiles), record)
      ensures profiles == if ok then old(profiles)[(record.tenant, record.id) := record] else old(profiles)
      ensures OnePerConnection(profiles)
    {
      var existing := GetProfileForConnection(record.connection, record.tenant);
      if existing.Some? && existing.value.id != record.id {
        ghost var key :| InMemory(profiles, key, record.connection, record.tenant) && profiles[key] == existing.value;
        return false;
      }
      OneStays(profiles, record, existing);
      profiles := profiles[(record.tenant, record.id) := record];
      ok := true;
    }
  }

  ghost predicate InMemory(m: Memory, key: (Tenant, Id), connection: Id, tenant: Tenant) {
    key in m && key.0 == tenant && m[key].connection == connection
  }

  ghost predicate MemoryTaken(m: Memory, record: Profile) {
    exists key :: InMemory(m, key, record.connection, record.tenant) && m[key].id != record.id
  }

  /** Rows are stored under their own id and tenant, one per connection. */
  ghost predicate OnePerConnection(m: Memory) {
    && (forall key :: key in m ==> m[key].tenant == key.0 && m[key].id == key.1)
    && forall key, key' :: key in m && InMemory(m, key', m[key].connection, key.0) ==> key == key'
  }

  lemma OneStays(m: Memory, record: Profile, existing: Option<Profile>)
    requires OnePerConnection(m)
    requires existing.Some? ==>
               existing.value.id == record.id
               && exists key :: InMemory(m, key, record.connection, record.tenant) && m[key] == existing.value
    requires existing.None? ==> forall key :: !InMemory(m, key, record.connection, record.tenant)
    ensures !MemoryTaken(m, record) && OnePerConnection(m[(record.tenant, record.id) := record])
  {
    var own := (record.tenant, record.id);
    forall key | InMemory(m, key, record.connection, record.tenant) ensures key == own {
      assert m[key].tenant == key.0 && m[key].id == key.1;
    }
    var m' := m[own := record];
    forall key, key' | key in m' && InMemory(m', key', m'[key].connection, key.0) ensures key == key' {
      if key == own && key' != own {
        assert InMemory(m, key', record.connection, record.tenant);
      } else if key != own && key' == own {
        assert InMemory(m, key, record.connection, record.tenant);
      } else if key != own {
        assert InMemory(m, key', m[key].connection, key.0);
      }
    }
  }

  /** Both stores hold the same profiles. */
  ghost predicate SameProfiles(m: Memory, profiles: Profiles) {
    && (forall key :: key in m <==> key.1 in profiles && profiles[key.1].tenant == key.0)
    && (forall key :: key in m ==> m[key] == profiles[key.1])
    && (forall id :: id in profiles ==> profiles[id].id == id)
  }

  /**
   On an owned connection, and unless the profile id belongs to another tenant,
   the two stores accept the same records and go on holding the same profiles.
   */
  lemma StoresAgree(m: Memory, db: Db, record: Profile)
    requires SameProfiles(m, db.profiles) && Owned(db, record.connection, record.tenant)
    requires record.id in db.profiles ==> db.profiles[record.id].tenant == record.tenant
    ensures PutProfile(db, record).1 == if MemoryTaken(m, record) then AlreadyExists else Put
    ensures !MemoryTaken(m, record) ==>
              SameProfiles(m[(record.tenant, record.id) := record], PutProfile(db, record).0.profiles)
  {
    if Taken(db.profiles, record) {
      var id :| id in db.profiles && id != record.id && Of(db.profiles[id], record.connection, record.tenant);
      assert InMemory(m, (record.tenant, id), record.connection, record.tenant);
    }
  }

  // ---- the folders and the entries they name ----

  predicate DistinctFolders(s: Settings) {
    s.inbox != s.archive && s.inbox != s.reports && s.archive != s.reports
  }

  lemma GoodMeans(input: Input, upper: string -> string)
    requires Check(input, upper).Good?
    ensures var s := Check(input, upper).settings;
            && s.name != "" && |s.name| <= 128 && CurrencyOk(s.currency) && DistinctFolders(s)
            && NormalizeRelativePath(input.inbox) == Ok(s.inbox) && NormalizeRelativePath(input.archive) == Ok(s.archive)
            && NormalizeRelativePath(input.reports) == Ok(s.reports)
  {
  }

  /** The requests for the three folders address different entries. */
  predicate DistinctEntries(s: Settings) {
    !SharesEntry(s.inbox, s.archive) && !SharesEntry(s.inbox, s.reports) && !SharesEntry(s.archive, s.reports)
  }

  /** The same is left of both paths when requests trim them, and it has no `..`. */
  predicate SameLanding(p: Names, q: Names)
    requires p != [] && q != []
  {
    Landing(p) == Landing(q) && ".." !in Landing(p)
  }

  /**
   Three accepted folders are different entries if and only if no two of them
   leave the same names once the whitespace at their ends is gone.
   */
  lemma DistinctEntriesIff(s: Settings, inbox: Names, archive: Names, reports: Names)
    requires inbox != [] && AllClean(inbox) && NoBackslashes(inbox) && s.inbox == Join(inbox)
    requires archive != [] && AllClean(archive) && NoBackslashes(archive) && s.archive == Join(archive)
    requires reports != [] && AllClean(reports) && NoBackslashes(reports) && s.reports == Join(reports)
    ensures DistinctEntries(s)
            <==> !SameLanding(inbox, archive) && !SameLanding(inbox, reports) && !SameLanding(archive, reports)
  {
    TargetIs(inbox);
    TargetIs(archive);
    TargetIs(reports);
  }

  /** A folder that is normalised again to itself. */
  predicate Settled(path: string) {
    NormalizeRelative(path) == Ok(path)
  }

  /** Accepted folders that normalising leaves alone are different entries. */
  lemma SettledFoldersAreDistinct(input: Input, upper: string -> string)
    requires Check(input, upper).Good?
    requires var s := Check(input, upper).settings; Settled(s.inbox) && Settled(s.archive) && Settled(s.reports)
    ensures DistinctFolders(Check(input, upper).settings) && DistinctEntries(Check(input, upper).settings)
  {
    GoodMeans(input, upper);
    var s := Check(input, upper).settings;
    SharedIffSameAgain(s.inbox, s.archive);
    SharedIffSameAgain(s.inbox, s.reports);
    SharedIffSameAgain(s.archive, s.reports);
  }

  /** Not every accepted input has such folders: with a blank in front of its inbox, the archive is the same entry. */
  lemma DistinctFoldersShareAnEntry(input: Input, upper: string -> string, names: Names)
    requires names != [] && AllClean(names) && NoBackslashes(names) && Edgeless(names)
    requires input.inbox == "./ " + Join(names) && input.archive == "./" + Join(names)
    requires Check(input, upper).Good?
    ensures var s := Check(input, upper).settings;
            DistinctFolders(s) && SharesEntry(s.inbox, s.archive) && !DistinctEntries(s)
  {
    GoodMeans(input, upper);
    FolderCanStartWithBlank(names);
  }

  lemma OneBlank(name: string)
    requires Clean(name) && NoBackslash(name) && !IsSpace(name[0]) && !IsSpace(Last(name))
    ensures NormalizeRelativePath("./ " + name) == Ok(" " + name) && NormalizeRelativePath("./" + name) == Ok(name)
    ensures SharesEntry(" " + name, name)
  {
    FolderCanStartWithBlank([name]);
    assert Join([name]) == name;
  }

  lemma EuroIsAccepted()
    ensures Strip("EUR") == "EUR" && CurrencyOk("EUR") && JoinWords(["home"]) == "home"
  {
    TrimLeftIsSuffix("EUR");
    TrimRightIsPrefix("EUR");
  }

  lemma Checks(input: Input, upper: string -> string, s: Settings)
    requires JoinWords(input.words) == s.name && s.name != "" && |s.name| <= 128
    requires upper(Strip(input.currency)) == s.currency && CurrencyOk(s.currency) && DistinctFolders(s)
    requires NormalizeRelativePath(input.inbox) == Ok(s.inbox) && NormalizeRelativePath(input.archive) == Ok(s.archive)
    requires NormalizeRelativePath(input.reports) == Ok(s.reports)
    ensures Check(input, upper) == Good(s)
  {
  }

  lemma BlankPaths(input: Input)
    requires input == Input(["home"], "./ a", "./a", "b", "EUR")
    ensures NormalizeRelativePath(input.inbox) == Ok(" a") && NormalizeRelativePath(input.archive) == Ok("a")
    ensures NormalizeRelativePath(input.reports) == Ok("b") && SharesEntry(" a", "a")
  {
    assert Clean("a") && Clean("b");
    OneBlank("a");
    PlainIsAccepted("b");
    assert "./ " + "a" == "./ a" && "./" + "a" == "./a" && " " + "a" == " a";
  }

  lemma BlankFoldersDiffer(s: Settings)
    requires s == Settings("home", " a", "a", "b", "EUR")
    ensures DistinctFolders(s)
  {
    assert s.inbox[0] == ' ' && s.archive[0] == 'a' && s.reports[0] == 'b';
  }

  /** Such as these. */
  lemma BlankInboxIsAccepted(upper: string -> string)
    requires upper("EUR") == "EUR"
    ensures var s := Settings("home", " a", "a", "b", "EUR");
            Check(Input(["home"], "./ a", "./a", "b", "EUR"), upper) == Good(s) && !DistinctEntries(s)
  {
    var input, s := Input(["home"], "./ a", "./a", "b", "EUR"), Settings("home", " a", "a", "b", "EUR");
    EuroIsAccepted();
    BlankPaths(input);
    BlankFoldersDiffer(s);
    Checks(input, upper, s);
  }

  lemma PlainIsAccepted(name: string)
    requires Clean(name) && NoBackslash(name) && !IsSpace(name[0]) && !IsSpace(Last(name))
    ensures NormalizeRelativePath(name) == Ok(name)
  {
    EdgelessAccepted([name]);
    assert Join([name]) == name;
  }

  // ---- repeating a configuration ----

  lemma WriteKeepsUnique(db: Db, record: Profile)
    requires Unique(db.profiles) && (forall id :: id in db.profiles ==> db.profiles[id].id == id)
    ensures Unique(PutProfile(db, record).0.profiles)
  {
    var db' := PutProfile(db, record).0;
    forall a, b | a in db'.profiles && b in db'.profiles && a != b
      ensures !Of(db'.profiles[b], db'.profiles[a].connection, db'.profiles[a].tenant)
    {
      if a == record.id && b in db.profiles {
        assert Of(db.profiles[b], record.connection, record.tenant) ==> Taken(db.profiles, record) || db' == db;
      } else if b == record.id && a in db.profiles {
        assert Of(db.profiles[a], record.connection, record.tenant) ==> Taken(db.profiles, record) || db' == db;
      }
    }
  }

  lemma TheProfile(profiles: Profiles, id: Id)
    requires Unique(profiles) && id in profiles
    ensures ProfileOf(profiles, profiles[id].connection, profiles[id].tenant) == Some(profiles[id])
  {
    assert Of(profiles[id], profiles[id].connection, profiles[id].tenant);
  }

  /** A record that was written is the profile of its connection. */
  lemma WrittenIsFound(db: Db, record: Profile)
    requires Unique(db.profiles) && (forall id :: id in db.profiles ==> db.profiles[id].id == id)
    requires PutProfile(db, record).1 == Put
    ensures ProfileOf(PutProfile(db, record).0.profiles, record.connection, record.tenant) == Some(record)
  {
    WriteKeepsUnique(db, record);
    TheProfile(PutProfile(db, record).0.profiles, record.id);
  }

  /** Once the profile has the settings of the input, there is nothing to do. */
  lemma NothingToPlan(db: Db, tenant: Tenant, connection: Id, input: Input, upper: string -> string, p: Profile,
                      newId: Id, now: Time)
    requires Owned(db, connection, tenant) && ProfileOf(db.profiles, connection, tenant) == Some(p)
    requires Check(input, upper) == Good(p.settings) && RecordFits(p.settings)
    ensures Configured(db, tenant, connection, input, upper, true, newId, now) == (db, Summary(p))
  {
  }

  /** What a plan to write says. */
  lemma PlannedRecord(db: Db, tenant: Tenant, connection: Id, input: Input, upper: string -> string, newId: Id, now: Time)
    requires PlanFor(db, tenant, connection, input, upper, true, newId, now).ToWrite?
    ensures var record := PlanFor(db, tenant, connection, input, upper, true, newId, now).record;
            && Owned(db, connection, tenant) && Of(record, connection, tenant)
            && Check(input, upper) == Good(record.settings) && RecordFits(record.settings)
  {
  }

  /** Repeating a configuration that succeeded changes nothing and returns the same profile. */
  lemma RepeatChangesNothing(db: Db, tenant: Tenant, connection: Id, input: Input, upper: string -> string,
                             newId: Id, now: Time, newId': Id, now': Time)
    requires Unique(db.profiles) && (forall id :: id in db.profiles ==> db.profiles[id].id == id)
    requires Configured(db, tenant, connection, input, upper, true, newId, now).1.Summary?
    ensures var first := Configured(db, tenant, connection, input, upper, true, newId, now);
            Configured(first.0, tenant, connection, input, upper, true, newId', now') == first
  {
    hide Check, RecordFits, Unique;
    var plan := PlanFor(db, tenant, connection, input, upper, true, newId, now);
    if plan.ToWrite? {
      PlannedRecord(db, tenant, connection, input, upper, newId, now);
      WrittenIsFound(db, plan.record);
      NothingToPlan(PutProfile(db, plan.record).0, tenant, connection, input, upper, plan.record, newId', now');
    }
  }
}
