/**
 Which answer configuring a profile gives and what it writes, from the tables
 and the input alone.
 */
module ProfileAnswers {
  import opened Options
  import opened Paths
  import opened Profiles
  import Runs = ProfileRuns

  // ---- the input ----

  /** The words are joined by single blanks, wherever one cuts them. */
  lemma {:induction false} JoinWordsConcat(a: seq<string>, b: seq<string>)
    requires a != [] && b != []
    ensures JoinWords(a + b) == JoinWords(a) + " " + JoinWords(b)
    decreases |a|
  {
    assert (a + b)[0] == a[0] && (a + b)[1..] == a[1..] + b;
    if |a| > 1 {
      JoinWordsConcat(a[1..], b);
      assert a[0] + " " + (JoinWords(a[1..]) + " " + JoinWords(b)) == a[0] + " " + JoinWords(a[1..]) + " " + JoinWords(b);
    }
  }

  /** No words give no name, and one word is the name. */
  lemma FewWords(word: string)
    ensures JoinWords([]) == "" && JoinWords([word]) == word
  {
  }

  /** Three letters from A to Z. */
  predicate Letters(currency: string) {
    |currency| == 3
    && forall c :: c in currency ==>
         c in {'A', 'B', 'C', 'D', 'E', 'F', 'G', 'H', 'I', 'J', 'K', 'L', 'M',
               'N', 'O', 'P', 'Q', 'R', 'S', 'T', 'U', 'V', 'W', 'X', 'Y', 'Z'}
  }

  lemma LettersAre(currency: string)
    ensures Letters(currency) <==> CurrencyOk(currency)
  {
    if Letters(currency) {
      assert currency[0] in currency && currency[1] in currency && currency[2] in currency;
    }
  }

  // ---- the answer ----

  /** The first check: the connection is the tenant's and its credentials can be read. */
  predicate Resolves(db: Db, tenant: Tenant, connection: Id, readable: bool) {
    connection in db.connections && db.connections[connection] == tenant && readable
  }

  predicate NameGiven(input: Input) {
    1 <= |JoinWords(input.words)| <= 128
  }

  predicate CurrencyGiven(input: Input, upper: string -> string) {
    Letters(upper(Strip(input.currency)))
  }

  predicate PathsGiven(input: Input) {
    NormalizeRelativePath(input.inbox).Ok? && NormalizeRelativePath(input.archive).Ok?
    && NormalizeRelativePath(input.reports).Ok?
  }

  predicate PathsDiffer(input: Input)
    requires PathsGiven(input)
  {
    && NormalizeRelativePath(input.inbox).path != NormalizeRelativePath(input.archive).path
    && NormalizeRelativePath(input.inbox).path != NormalizeRelativePath(input.reports).path
    && NormalizeRelativePath(input.archive).path != NormalizeRelativePath(input.reports).path
  }

  /** The input passes every check. */
  predicate Accepted(input: Input, upper: string -> string) {
    NameGiven(input) && CurrencyGiven(input, upper) && PathsGiven(input) && PathsDiffer(input)
  }

  /** Every field of the profile is that of the input. */
  predicate Matches(s: Settings, input: Input, upper: string -> string) {
    && s.name == JoinWords(input.words)
    && s.currency == upper(Strip(input.currency))
    && NormalizeRelativePath(input.inbox) == Ok(s.inbox)
    && NormalizeRelativePath(input.archive) == Ok(s.archive)
    && NormalizeRelativePath(input.reports) == Ok(s.reports)
  }

  /** The record of a profile accepts these fields. */
  predicate Storable(s: Settings) {
    && 1 <= |s.name| <= 128 && |s.currency| == 3
    && 1 <= |s.inbox| <= 4096 && 1 <= |s.archive| <= 4096 && 1 <= |s.reports| <= 4096
  }

  /** The settings the input asks for. */
  function Wanted(input: Input, upper: string -> string): (s: Settings)
    requires PathsGiven(input)
    ensures Matches(s, input, upper)
  {
    Settings(JoinWords(input.words), NormalizeRelativePath(input.inbox).path, NormalizeRelativePath(input.archive).path,
             NormalizeRelativePath(input.reports).path, upper(Strip(input.currency)))
  }

  /** One input is wanted in one way. */
  lemma MatchesOnce(s: Settings, input: Input, upper: string -> string)
    requires PathsGiven(input) && Matches(s, input, upper)
    ensures s == Wanted(input, upper)
  {
  }

  lemma CheckAnswers(input: Input, upper: string -> string)
    ensures var checked := Check(input, upper);
            && (checked == Bad(BadName) <==> !NameGiven(input))
            && (checked == Bad(BadCurrency) <==> NameGiven(input) && !CurrencyGiven(input, upper))
            && (checked == Bad(BadPath) <==> NameGiven(input) && CurrencyGiven(input, upper) && !PathsGiven(input))
            && (checked == Bad(NotDistinct) <==>
                  NameGiven(input) && CurrencyGiven(input, upper) && PathsGiven(input) && !PathsDiffer(input))
            && (checked.Good? <==> Accepted(input, upper))
            && (checked.Good? ==> Matches(checked.settings, input, upper))
            && (checked.Bad? ==> checked.problem in {BadName, BadCurrency, BadPath, NotDistinct})
  {
    LettersAre(upper(Strip(input.currency)));
  }

  /** The table is keyed by the ids of its rows, one of each connection. */
  ghost predicate Tidy(db: Db) {
    Unique(db.profiles) && forall id :: id in db.profiles ==> db.profiles[id].id == id
  }

  /** The profile of the connection, which is the only one. */
  ghost predicate Has(db: Db, tenant: Tenant, connection: Id, p: Profile) {
    p.id in db.profiles && db.profiles[p.id] == p && p.tenant == tenant && p.connection == connection
  }

  ghost predicate HasNone(db: Db, tenant: Tenant, connection: Id) {
    forall id :: id in db.profiles ==> db.profiles[id].tenant != tenant || db.profiles[id].connection != connection
  }

  lemma HasIs(db: Db, tenant: Tenant, connection: Id, p: Profile)
    requires Tidy(db)
    ensures Has(db, tenant, connection, p) <==> ProfileOf(db.profiles, connection, tenant) == Some(p)
    ensures HasNone(db, tenant, connection) <==> ProfileOf(db.profiles, connection, tenant) == None
  {
    if Has(db, tenant, connection, p) {
      TheProfile(db.profiles, p.id);
    }
    if exists id :: id in db.profiles && Of(db.profiles[id], connection, tenant) {
      var id :| id in db.profiles && Of(db.profiles[id], connection, tenant);
      TheProfile(db.profiles, id);
      assert !HasNone(db, tenant, connection);
    }
  }

  /**
   Configuring a connection that has a profile: the settings it has already are
   answered as they are; any other settings replace them under the same id and
   creation time, if both records accept their fields.
   */
  lemma ReconfigureAnswers(db: Db, tenant: Tenant, connection: Id, input: Input, upper: string -> string, readable: bool,
                           newId: Id, now: Time, p: Profile)
    requires Tidy(db) && Has(db, tenant, connection, p)
    requires Resolves(db, tenant, connection, readable) && Accepted(input, upper)
    ensures var (db', r) := Configured(db, tenant, connection, input, upper, readable, newId, now);
            var wanted := Wanted(input, upper);
            if !Storable(p.settings) || !Storable(wanted) then db' == db && r == Error(BadRecord)
            else if p.settings == wanted then db' == db && r == Summary(p)
            else var q := Profile(p.id, tenant, connection, wanted, p.created, now);
                 db' == db.(profiles := db.profiles[p.id := q]) && r == Summary(q)
  {
    CheckAnswers(input, upper);
    MatchesOnce(Check(input, upper).settings, input, upper);
    HasIs(db, tenant, connection, p);
    assert !Taken(db.profiles, p.(settings := Wanted(input, upper), updated := now));
  }

  /** Configuring one without a profile adds it under the new id, unless another tenant holds that. */
  lemma FirstAnswers(db: Db, tenant: Tenant, connection: Id, input: Input, upper: string -> string, readable: bool,
                     newId: Id, now: Time)
    requires Tidy(db) && HasNone(db, tenant, connection)
    requires Resolves(db, tenant, connection, readable) && Accepted(input, upper)
    ensures var (db', r) := Configured(db, tenant, connection, input, upper, readable, newId, now);
            var wanted := Wanted(input, upper);
            if !Storable(wanted) then db' == db && r == Error(BadRecord)
            else if newId in db.profiles && db.profiles[newId].tenant != tenant then
              db' == db && r == Error(NotWritten(IdCollision))
            else var q := Profile(newId, tenant, connection, wanted, now, now);
                 db' == db.(profiles := db.profiles[newId := q]) && r == Summary(q)
  {
    CheckAnswers(input, upper);
    MatchesOnce(Check(input, upper).settings, input, upper);
    HasIs(db, tenant, connection, Profile(newId, tenant, connection, Wanted(input, upper), now, now));
  }

  /** Anything else is refused by the first check that fails, and nothing is written. */
  lemma RefusedAnswers(db: Db, tenant: Tenant, connection: Id, input: Input, upper: string -> string, readable: bool,
                       newId: Id, now: Time)
    requires !Resolves(db, tenant, connection, readable) || !Accepted(input, upper)
    ensures Configured(db, tenant, connection, input, upper, readable, newId, now)
            == (db, Error(if !Resolves(db, tenant, connection, readable) then Unresolved
                          else if !NameGiven(input) then BadName
                          else if !CurrencyGiven(input, upper) then BadCurrency
                          else if !PathsGiven(input) then BadPath
                          else NotDistinct))
  {
    CheckAnswers(input, upper);
  }

  // ---- a whole run ----

  lemma {:induction false} AloneNext(upper: string -> string, db: Db, t: Runs.Thread, newId: Id, now: Time, n: nat)
    ensures var (db', t') := Runs.Alone(upper, db, t, newId, now, n);
            Runs.Alone(upper, db, t, newId, now, n + 1) == Runs.Advance(Runs.DEPLOYED, upper, db', t', newId, now)
    decreases n
  {
    hide Runs.Advance;
    var (db1, t1) := Runs.Advance(Runs.DEPLOYED, upper, db, t, newId, now);
    if n == 0 {
      assert Runs.Alone(upper, db1, t1, newId, now, 0) == (db1, t1);
    } else {
      AloneNext(upper, db1, t1, newId, now, n - 1);
    }
  }

  /** `n` steps of one thread. */
  function Turns(th: nat, newId: Id, now: Time, n: nat): seq<Runs.Event> {
    if n == 0 then [] else Turns(th, newId, now, n - 1) + [Runs.Go(th, newId, now)]
  }

  lemma {:induction false} RunTurns(upper: string -> string, s: Runs.State, th: nat, newId: Id, now: Time, n: nat)
    requires th in s.threads
    ensures var s' := Runs.Run(Runs.DEPLOYED, upper, s, Turns(th, newId, now, n));
            th in s'.threads && (s'.db, s'.threads[th]) == Runs.Alone(upper, s.db, s.threads[th], newId, now, n)
  {
    hide Runs.Advance;
    if n > 0 {
      RunTurns(upper, s, th, newId, now, n - 1);
      AloneNext(upper, s.db, s.threads[th], newId, now, n - 1);
      var events := Turns(th, newId, now, n);
      assert events[..|events| - 1] == Turns(th, newId, now, n - 1);
    }
  }

  /** The connection is linked and a call for it begins. */
  function Opened(tenant: Tenant, connection: Id, input: Input): Runs.State {
    Runs.State(Db(map[connection := tenant], map[]), map[0 := Runs.Resolving(Runs.Request(tenant, connection, input, true))],
               map[])
  }

  lemma Opens(upper: string -> string, tenant: Tenant, connection: Id, input: Input)
    ensures Runs.Run(Runs.DEPLOYED, upper, Runs.INIT,
                     [Runs.Connect(connection, tenant), Runs.Spawn(0, Runs.Request(tenant, connection, input, true))])
            == Opened(tenant, connection, input)
  {
    var connect, spawn := Runs.Connect(connection, tenant), Runs.Spawn(0, Runs.Request(tenant, connection, input, true));
    assert [connect, spawn][..1] == [connect] && [connect][..0] == [];
    assert Runs.Run(Runs.DEPLOYED, upper, Runs.INIT, []) == Runs.INIT;
    assert Runs.Run(Runs.DEPLOYED, upper, Runs.INIT, [connect]) == Runs.Step(Runs.DEPLOYED, upper, Runs.INIT, connect);
  }

  /**
   From nothing: once a connection is linked, seven steps of a call with accepted
   input store exactly its profile and answer with it, and disconnecting takes
   both away again.
   */
  lemma LinkConfigureUnlink(upper: string -> string, tenant: Tenant, connection: Id, input: Input, newId: Id, now: Time)
    requires Accepted(input, upper) && Storable(Wanted(input, upper))
    ensures var linked := Runs.Run(Runs.DEPLOYED, upper, Runs.INIT,
                                   [Runs.Connect(connection, tenant),
                                    Runs.Spawn(0, Runs.Request(tenant, connection, input, true))]);
            var s := Runs.Run(Runs.DEPLOYED, upper, linked, Turns(0, newId, now, 7));
            var p := Profile(newId, tenant, connection, Wanted(input, upper), now, now);
            && s.db == Db(map[connection := tenant], map[newId := p])
            && 0 in s.threads && s.threads[0] == Runs.Finished(Summary(p))
            && Runs.Step(Runs.DEPLOYED, upper, s, Runs.Disconnect(connection, tenant)).db == Db(map[], map[])
  {
    var linked := Opened(tenant, connection, input);
    Opens(upper, tenant, connection, input);
    RunTurns(upper, linked, 0, newId, now, 7);
    Runs.UndisturbedCall(upper, linked.db, Runs.Request(tenant, connection, input, true), newId, now);
    FirstAnswers(linked.db, tenant, connection, input, upper, true, newId, now);
    hide Runs.Run, Runs.Alone, Configured;
    var p := Profile(newId, tenant, connection, Wanted(input, upper), now, now);
    var db := Db(map[connection := tenant], map[newId := p]);
    assert linked.db.profiles[newId := p] == map[newId := p];
    assert map[connection := tenant] - {connection} == map[];
    assert DeleteConnection(db, connection, tenant).profiles == map[];
  }
}
