/**
 cleanup_hosted_storage on tables nobody else touches: what it keeps, what its
 report counts, and that a second run at the same time has nothing to do.
 */
module Maintenance {
  import opened Tables
  import opened Lifecycle
  import opened Compensation
  import opened Stores
  import opened Service

  datatype CleanupReport = CleanupReport(expiredPendingFlows: nat, expiredPollSecrets: nat, orphanSecrets: nat)

  /** A surviving flow or a connection points at the secret. */
  predicate ReferencedBySurvivor(db: Db, current: Time, tenant: Tenant, ref: Ref) {
    || (exists f :: f in db.pending && db.pending[f].expires >= current
                    && db.pending[f].tenant == tenant && db.pending[f].pollRef == ref)
    || (exists c :: c in db.connections && db.connections[c].tenant == tenant && db.connections[c].ref == ref)
  }

  /** The poll secret of a login flow that has expired. */
  predicate ExpiredPoll(db: Db, current: Time, tenant: Tenant, ref: Ref) {
    (tenant, ref) in PollKeys(ExpiredRows(db, current))
  }

  /** The rows a cleanup keeps. */
  ghost predicate KeepsFlow(db: Db, current: Time, f: Id) {
    f in db.pending && db.pending[f].expires >= current
  }

  ghost predicate KeepsSecret(db: Db, current: Time, cutoff: Time, ref: Ref) {
    && ref in db.secrets
    && var tenant := db.secrets[ref].tenant;
       !ExpiredPoll(db, current, tenant, ref)
       && (ReferencedBySurvivor(db, current, tenant, ref) || db.secrets[ref].created >= cutoff)
  }

  /** `db'` holds exactly the rows that the cleanup of `db` keeps, unchanged. */
  ghost predicate Cleaned(db: Db, current: Time, cutoff: Time, db': Db) {
    && (forall f :: f in db'.pending <==> KeepsFlow(db, current, f))
    && (forall f :: f in db'.pending ==> db'.pending[f] == db.pending[f])
    && db'.connections == db.connections
    && (forall ref :: ref in db'.secrets <==> KeepsSecret(db, current, cutoff, ref))
    && (forall ref :: ref in db'.secrets ==> db'.secrets[ref] == db.secrets[ref])
  }

  // ---- the statements ----

  /** Unreferenced secrets older than this may go. */
  function Cutoff(current: Time, grace: Time): Time {
    current - grace
  }

  /** The expired poll secrets that the second delete hits. */
  function Polls(db: Db, current: Time): set<(Tenant, Ref)> {
    SecretsKeyed(db, PollKeys(ExpiredRows(db, current)))
  }

  /** The keys of the last delete. */
  function Orphans(db: Db, current: Time, cutoff: Time): set<(Tenant, Ref)> {
    OrphanKeys(Without(db, FlowIds(ExpiredRows(db, current)), Polls(db, current)), cutoff)
    - PollKeys(ExpiredRows(db, current))
  }

  /** The tables that the job commits. */
  function Committed(db: Db, current: Time, cutoff: Time): Db {
    Without(db, FlowIds(ExpiredRows(db, current)), Polls(db, current) + SecretsKeyed(db, Orphans(db, current, cutoff)))
  }

  lemma ExpiredIds(db: Db, current: Time)
    requires Keyed(db)
    ensures FlowIds(ExpiredRows(db, current)) == set f | f in db.pending && db.pending[f].expires < current
  {
    forall f | f in db.pending && db.pending[f].expires < current ensures f in FlowIds(ExpiredRows(db, current)) {
      assert db.pending[f] in ExpiredRows(db, current);
    }
  }

  function Report(db: Db, current: Time, cutoff: Time): CleanupReport {
    CleanupReport(|FlowIds(ExpiredRows(db, current))|, |PollKeys(ExpiredRows(db, current))|,
                  |Orphans(db, current, cutoff)|)
  }

  /** The orphan query sees a reference exactly when a survivor holds it. */
  lemma SeenReferences(db: Db, current: Time, gone: set<(Tenant, Ref)>, tenant: Tenant, ref: Ref)
    requires Keyed(db)
    ensures Referenced(Without(db, FlowIds(ExpiredRows(db, current)), gone), tenant, ref)
            <==> ReferencedBySurvivor(db, current, tenant, ref)
  {
    ExpiredIds(db, current);
    var seen := Without(db, FlowIds(ExpiredRows(db, current)), gone);
    if ReferencedBySurvivor(db, current, tenant, ref) {
      if f :| f in db.pending && db.pending[f].expires >= current
              && db.pending[f].tenant == tenant && db.pending[f].pollRef == ref {
        assert f in seen.pending;
      }
      if c :| c in db.connections && db.connections[c].tenant == tenant && db.connections[c].ref == ref {
        assert c in seen.connections;
      }
    }
  }

  /** The orphan keys in words; the subtraction of the expired keys removes nothing. */
  lemma OrphansAre(db: Db, current: Time, cutoff: Time)
    requires Keyed(db)
    ensures Orphans(db, current, cutoff)
            == OrphanKeys(Without(db, FlowIds(ExpiredRows(db, current)), Polls(db, current)), cutoff)
    ensures forall k :: k in Orphans(db, current, cutoff) <==>
              && k.1 in db.secrets && db.secrets[k.1].tenant == k.0 && !ExpiredPoll(db, current, k.0, k.1)
              && db.secrets[k.1].created < cutoff && !ReferencedBySurvivor(db, current, k.0, k.1)
    ensures SecretsKeyed(db, Orphans(db, current, cutoff)) == Orphans(db, current, cutoff)
  {
    var polls := Polls(db, current);
    var seen := Without(db, FlowIds(ExpiredRows(db, current)), polls);
    var orphans := OrphanKeys(seen, cutoff);
    forall k: (Tenant, Ref)
      ensures k in orphans <==>
              && k.1 in db.secrets && db.secrets[k.1].tenant == k.0 && !ExpiredPoll(db, current, k.0, k.1)
              && db.secrets[k.1].created < cutoff && !ReferencedBySurvivor(db, current, k.0, k.1)
    {
      SeenReferences(db, current, polls, k.0, k.1);
      if k.1 in db.secrets && db.secrets[k.1].tenant == k.0 && !ExpiredPoll(db, current, k.0, k.1) {
        assert k.1 in seen.secrets;
      }
    }
  }

  /** The committed tables hold exactly the kept rows. */
  lemma CommitIsExact(db: Db, current: Time, cutoff: Time)
    requires Keyed(db)
    ensures Cleaned(db, current, cutoff, Committed(db, current, cutoff))
  {
    ExpiredIds(db, current);
    OrphansAre(db, current, cutoff);
    var db' := Committed(db, current, cutoff);
    forall ref ensures ref in db'.secrets <==> KeepsSecret(db, current, cutoff, ref) {
      if ref in db.secrets {
        var key := (db.secrets[ref].tenant, ref);
        assert key in Polls(db, current) <==> ExpiredPoll(db, current, key.0, ref);
      }
    }
  }

  // ---- counting ----

  lemma {:induction false} PairsCount(m: map<Ref, Secret>, refs: set<Ref>)
    requires refs <= m.Keys
    ensures |set ref | ref in refs :: (m[ref].tenant, ref)| == |refs|
  {
    if refs != {} {
      var r :| r in refs;
      PairsCount(m, refs - {r});
      assert (set ref | ref in refs :: (m[ref].tenant, ref))
             == (set ref | ref in refs - {r} :: (m[ref].tenant, ref)) + {(m[r].tenant, r)};
    }
  }

  lemma RestCount(m: map<Ref, Secret>, refs: set<Ref>, kept: map<Ref, Secret>)
    requires refs <= m.Keys && kept.Keys == m.Keys - refs
    ensures |kept| + |refs| == |m|
  {
    assert kept.Keys + refs == m.Keys && kept.Keys !! refs;
    assert |kept.Keys| + |refs| == |m.Keys|;
  }

  /** A delete removes as many secrets as the keys it hits. */
  lemma DeletedCount(db: Db, flows: set<Id>, gone: set<(Tenant, Ref)>)
    requires forall k :: k in gone ==> k.1 in db.secrets && db.secrets[k.1].tenant == k.0
    ensures |Without(db, flows, gone).secrets| + |gone| == |db.secrets|
  {
    var refs := set ref | ref in db.secrets && (db.secrets[ref].tenant, ref) in gone;
    PairsCount(db.secrets, refs);
    assert (set ref | ref in refs :: (db.secrets[ref].tenant, ref)) == gone by {
      forall k | k in gone ensures k in (set ref | ref in refs :: (db.secrets[ref].tenant, ref)) {
        assert k.1 in refs;
      }
    }
    RestCount(db.secrets, refs, Without(db, flows, gone).secrets);
  }

  /** What the report says about the tables before and after. */
  ghost predicate Reports(db: Db, current: Time, db': Db, report: CleanupReport) {
    var expired := ExpiredRows(db, current);
    && |db.pending| == |db'.pending| + report.expiredPendingFlows
    && |PollKeys(expired)| == report.expiredPollSecrets
    && |db.secrets| == |db'.secrets| + report.orphanSecrets + |Polls(db, current)|
  }

  /** Every expired flow still has its poll token. */
  ghost predicate TokensStored(db: Db, current: Time) {
    forall f :: f in db.pending && db.pending[f].expires < current ==>
                  GetSecret(db, db.pending[f].pollRef, db.pending[f].tenant).Some?
  }

  lemma SameSize<T>(a: set<T>, b: set<T>)
    requires a <= b
    ensures |a| == |b| <==> a == b
  {
    assert |b - a| == |b| - |a|;
  }

  /** The reported number of poll secrets is that of the deleted rows if and only if no expired flow has lost its token. */
  lemma PollCountIsExact(db: Db, current: Time, cutoff: Time)
    ensures Report(db, current, cutoff).expiredPollSecrets == |Polls(db, current)| <==> TokensStored(db, current)
  {
    var keys := PollKeys(ExpiredRows(db, current));
    SameSize(Polls(db, current), keys);
    if TokensStored(db, current) {
      forall k | k in keys ensures k in Polls(db, current) {
        assert k.1 in db.secrets && db.secrets[k.1].tenant == k.0;
      }
    } else {
      var f :| f in db.pending && db.pending[f].expires < current
               && GetSecret(db, db.pending[f].pollRef, db.pending[f].tenant).None?;
      var key := (db.pending[f].tenant, db.pending[f].pollRef);
      assert db.pending[f] in ExpiredRows(db, current);
      assert key in keys && key !in Polls(db, current);
    }
  }

  lemma MinusCount<K, V>(m: map<K, V>, ids: set<K>)
    requires ids <= m.Keys
    ensures |m - ids| + |ids| == |m|
  {
    var kept := (m - ids).Keys;
    assert kept + ids == m.Keys && kept !! ids;
    assert |kept| + |ids| == |m.Keys|;
  }

  lemma FlowCount(db: Db, current: Time, cutoff: Time)
    requires Keyed(db)
    ensures |db.pending| == |Committed(db, current, cutoff).pending| + |FlowIds(ExpiredRows(db, current))|
  {
    ExpiredIds(db, current);
    MinusCount(db.pending, FlowIds(ExpiredRows(db, current)));
  }

  lemma SecretCount(db: Db, current: Time, cutoff: Time)
    requires Keyed(db)
    ensures |db.secrets| == |Committed(db, current, cutoff).secrets| + |Orphans(db, current, cutoff)| + |Polls(db, current)|
  {
    OrphansAre(db, current, cutoff);
    var polls, orphans := Polls(db, current), Orphans(db, current, cutoff);
    DeletedCount(db, FlowIds(ExpiredRows(db, current)), polls + orphans);
    assert polls !! orphans;
    assert |polls + orphans| == |polls| + |orphans|;
  }

  // ---- the job ----

  /** Deleting by all keys is deleting the rows they hit. */
  lemma DeletedInTurn(db: Db, flows: set<Id>, keys: set<(Tenant, Ref)>, more: set<(Tenant, Ref)>)
    ensures Without(db, flows, keys) == Without(db, flows, SecretsKeyed(db, keys))
    ensures Without(Without(db, flows, keys), {}, more)
            == Without(db, flows, SecretsKeyed(db, keys) + SecretsKeyed(db, more))
  {
    assert Without(db, flows, keys).secrets == Without(db, flows, SecretsKeyed(db, keys)).secrets;
    assert Without(Without(db, flows, keys), {}, more).secrets
           == Without(db, flows, SecretsKeyed(db, keys) + SecretsKeyed(db, more)).secrets;
  }

  lemma NothingToDelete(db: Db, flows: set<Id>)
    ensures Without(db, flows, {}) == db.(pending := db.pending - flows) && db.pending - {} == db.pending
  {
  }

  /** Both stores as one database. */
  function Database(store: DatabaseConnectionStore, vault: CredentialStore): Db
    reads store, vault
  {
    Db(store.pending, store.connections, vault.secrets)
  }

  /** The guarded delete statements. */
  method DeleteRows(store: DatabaseConnectionStore, vault: CredentialStore, flowIds: set<Id>, keys: set<(Tenant, Ref)>)
    modifies store, vault
    ensures Database(store, vault) == Without(old(Database(store, vault)), flowIds, keys)
  {
    NothingToDelete(Database(store, vault), flowIds);
    if flowIds != {} {
      store.DeletePendingIn(flowIds);
    }
    if keys != {} {
      vault.DeleteIn(keys);
    }
  }

  /** The tables after the two rounds of deletes. */
  lemma StatementsCommit(db: Db, pruned: Db, after: Db, current: Time, cutoff: Time)
    requires var expired := ExpiredRows(db, current);
             && pruned == Without(db, FlowIds(expired), PollKeys(expired))
             && after == Without(pruned, {}, OrphanKeys(pruned, cutoff) - PollKeys(expired))
    ensures OrphanKeys(pruned, cutoff) - PollKeys(ExpiredRows(db, current)) == Orphans(db, current, cutoff)
    ensures after == Committed(db, current, cutoff)
  {
    var expired := ExpiredRows(db, current);
    DeletedInTurn(db, FlowIds(expired), PollKeys(expired), OrphanKeys(pruned, cutoff) - PollKeys(expired));
  }

  /**
   The job on both stores, statement by statement: exactly the kept rows are
   left and the report counts what is gone. SweepCommits says that a cleanup
   thread of the lifecycle commits the same tables.
   */
  method CleanupHostedStorage(store: DatabaseConnectionStore, vault: CredentialStore, current: Time, grace: Time)
    returns (report: CleanupReport)
    modifies store, vault
    ensures Database(store, vault) == Committed(old(Database(store, vault)), current, Cutoff(current, grace))
    ensures report == Report(old(Database(store, vault)), current, Cutoff(current, grace))
    ensures Keyed(old(Database(store, vault))) ==>
              && Cleaned(old(Database(store, vault)), current, Cutoff(current, grace), Database(store, vault))
              && Reports(old(Database(store, vault)), current, Database(store, vault), report)
  {
    ghost var db := Database(store, vault);
    var expiredRows := ExpiredRows(Database(store, vault), current);
    var expiredKeys := PollKeys(expiredRows);
    var expiredFlowIds := FlowIds(expiredRows);
    DeleteRows(store, vault, expiredFlowIds, expiredKeys);
    ghost var pruned := Database(store, vault);
    var trueOrphanKeys := OrphanKeys(Database(store, vault), Cutoff(current, grace)) - expiredKeys;
    DeleteRows(store, vault, {}, trueOrphanKeys);
    report := CleanupReport(|expiredFlowIds|, |expiredKeys|, |trueOrphanKeys|);
    StatementsCommit(db, pruned, Database(store, vault), current, Cutoff(current, grace));
    if Keyed(db) {
      JobIsExact(db, current, Cutoff(current, grace));
    }
  }

  /** In words: exactly the kept rows are left, and the report counts what is gone. */
  lemma JobIsExact(db: Db, current: Time, cutoff: Time)
    requires Keyed(db)
    ensures Cleaned(db, current, cutoff, Committed(db, current, cutoff))
    ensures Reports(db, current, Committed(db, current, cutoff), Report(db, current, cutoff))
  {
    CommitIsExact(db, current, cutoff);
    FlowCount(db, current, cutoff);
    SecretCount(db, current, cutoff);
  }

  /** Up to the orphan query, an undisturbed cleanup thread has only read. */
  lemma SweepPrunes(db: Db, current: Time, grace: Time, ins: seq<Input>)
    requires |ins| == 6
    ensures var expired := ExpiredRows(db, current);
            Alone(db, Sweep(SweepStart(current, grace)), ins[..3])
            == (db, Sweep(SweepSelect(current, Cutoff(current, grace), expired, FlowIds(expired) * db.pending.Keys, Polls(db, current))))
  {
    var t := Sweep(SweepStart(current, grace));
    First(db, t, ins);
    Next(db, t, ins, 1);
    Next(db, t, ins, 2);
  }

  /** The orphan query of an undisturbed thread. */
  lemma SweepFinds(db: Db, current: Time, grace: Time, ins: seq<Input>)
    requires Keyed(db) && |ins| == 6
    ensures var expired, orphans := ExpiredRows(db, current), Orphans(db, current, Cutoff(current, grace));
            Alone(db, Sweep(SweepStart(current, grace)), ins[..4])
            == (db, Sweep(SweepOrphans(current, expired, FlowIds(expired), Polls(db, current), orphans)))
  {
    ExpiredIds(db, current);
    assert FlowIds(ExpiredRows(db, current)) * db.pending.Keys == FlowIds(ExpiredRows(db, current));
    SweepPrunes(db, current, grace, ins);
    Next(db, Sweep(SweepStart(current, grace)), ins, 3);
  }

  lemma SweepSelects(db: Db, current: Time, grace: Time, ins: seq<Input>)
    requires Keyed(db) && |ins| == 6
    ensures var expired, orphans := ExpiredRows(db, current), Orphans(db, current, Cutoff(current, grace));
            Alone(db, Sweep(SweepStart(current, grace)), ins[..5])
            == (db, Sweep(SweepCommit(current, expired, FlowIds(expired),
                                      Polls(db, current) + SecretsKeyed(db, orphans), orphans)))
  {
    SweepFinds(db, current, grace, ins);
    Next(db, Sweep(SweepStart(current, grace)), ins, 4);
  }

  /** An undisturbed cleanup thread commits what the job commits. */
  lemma SweepCommits(db: Db, current: Time, grace: Time, ins: seq<Input>)
    requires Keyed(db) && |ins| == 6
    ensures Alone(db, Sweep(SweepStart(current, grace)), ins)
            == (Committed(db, current, Cutoff(current, grace)),
                Sweep(SweepDone(ExpiredRows(db, current), Orphans(db, current, Cutoff(current, grace)))))
  {
    SweepSelects(db, current, grace, ins);
    Next(db, Sweep(SweepStart(current, grace)), ins, 5);
    assert ins[..6] == ins;
  }

  lemma SurvivorsStay(db: Db, current: Time, cutoff: Time, db': Db, tenant: Tenant, ref: Ref)
    requires Cleaned(db, current, cutoff, db') && ReferencedBySurvivor(db, current, tenant, ref)
    ensures ReferencedBySurvivor(db', current, tenant, ref)
  {
    if f :| f in db.pending && db.pending[f].expires >= current
            && db.pending[f].tenant == tenant && db.pending[f].pollRef == ref {
      assert f in db'.pending;
    } else {
      var c :| c in db.connections && db.connections[c].tenant == tenant && db.connections[c].ref == ref;
      assert c in db'.connections;
    }
  }

  /** What one cleanup keeps, the next one keeps. */
  lemma KeptAgain(db: Db, current: Time, cutoff: Time, db': Db, ref: Ref)
    requires Cleaned(db, current, cutoff, db') && ref in db'.secrets
    ensures KeepsSecret(db', current, cutoff, ref)
  {
    assert KeepsSecret(db, current, cutoff, ref);
    NothingExpired(db, current, cutoff, db');
    if db.secrets[ref].created < cutoff {
      SurvivorsStay(db, current, cutoff, db', db.secrets[ref].tenant, ref);
    }
  }

  lemma NothingExpired(db: Db, current: Time, cutoff: Time, db': Db)
    requires Cleaned(db, current, cutoff, db')
    ensures ExpiredRows(db', current) == {}
  {
    forall f | f in db'.pending ensures db'.pending[f].expires >= current {
      assert KeepsFlow(db, current, f);
    }
  }

  lemma SecondRunKeepsAll(db: Db, current: Time, cutoff: Time, db': Db, db'': Db)
    requires Cleaned(db, current, cutoff, db') && Cleaned(db', current, cutoff, db'')
    ensures db'' == db'
  {
    forall ref ensures ref in db''.secrets <==> ref in db'.secrets {
      if ref in db'.secrets {
        KeptAgain(db, current, cutoff, db', ref);
      }
    }
    forall f ensures f in db''.pending <==> f in db'.pending {
      assert f in db'.pending ==> KeepsFlow(db, current, f);
    }
    assert db''.secrets == db'.secrets && db''.pending == db'.pending;
  }

  /** A second cleanup at the same time changes nothing and reports zeros. */
  lemma SecondRunIsIdle(db: Db, current: Time, cutoff: Time, db': Db, db'': Db, report: CleanupReport)
    requires Cleaned(db, current, cutoff, db')
    requires Cleaned(db', current, cutoff, db'') && Reports(db', current, db'', report)
    ensures db'' == db' && report == CleanupReport(0, 0, 0)
  {
    SecondRunKeepsAll(db, current, cutoff, db', db'');
    NothingExpired(db, current, cutoff, db');
    assert PollKeys({}) == {};
  }
}
