/** What must have happened in a run before a disconnect says that the app password was revoked. */
module Revocations {
  import opened Options
  import Paths
  import opened Tables
  import opened Lifecycle

  function At(start: Time, es: seq<Event>, k: nat): State
    requires k <= |es|
  {
    Run(Init(start), es[..k])
  }

  /** Event `k` is a step of thread `th`, which is here. */
  predicate StepsFrom(start: Time, es: seq<Event>, k: nat, th: nat, t: Thread) {
    && k < |es| && es[k].Go? && es[k].th == th
    && th in At(start, es, k).threads && At(start, es, k).threads[th] == t
  }

  /** The row of the connection is read again, and found as `again`. */
  predicate Rereads(start: Time, es: seq<Event>, k: nat, th: nat, c: Connection, again: Connection) {
    && StepsFrom(start, es, k, th, Disconnect(DisconnectReread(c))) && es[k].oracle.ok
    && var db := At(start, es, k).db;
       && c.id in db.connections && db.connections[c.id] == again && again.tenant == c.tenant
       && 2 <= |again.root| <= 4096
  }

  /** Its secret is read again and found, and the settings accept the root. */
  predicate Resolves(start: Time, es: seq<Event>, k: nat, th: nat, c: Connection, again: Connection) {
    && StepsFrom(start, es, k, th, Disconnect(DisconnectResolve(c, again))) && es[k].oracle.ok
    && var db := At(start, es, k).db;
       && again.ref in db.secrets && db.secrets[again.ref].tenant == again.tenant
       && Paths.NormalizeRootPath(again.root).Ok?
  }

  /** The remote is asked, and revokes. */
  predicate Revokes(start: Time, es: seq<Event>, k: nat, th: nat, c: Connection) {
    StepsFrom(start, es, k, th, Disconnect(DisconnectRevoke(c))) && es[k].oracle.revoked
  }

  ghost predicate Reread(start: Time, es: seq<Event>, n: nat, th: nat, c: Connection, again: Connection) {
    exists i: nat :: i < n && Rereads(start, es, i, th, c, again)
  }

  ghost predicate Resolved(start: Time, es: seq<Event>, n: nat, th: nat, c: Connection) {
    exists j: nat, again: Connection :: j < n && Resolves(start, es, j, th, c, again) && Reread(start, es, j, th, c, again)
  }

  /** Row, secret and settings were read again, in this order, and then the remote revoked. */
  ghost predicate Revoked(start: Time, es: seq<Event>, n: nat, th: nat, c: Connection) {
    exists k: nat :: k < n && Revokes(start, es, k, th, c) && Resolved(start, es, k, th, c)
  }

  /** What the position of a thread says about the events so far. */
  ghost predicate Earned(start: Time, es: seq<Event>, n: nat, th: nat, t: Thread) {
    match t
    case Disconnect(DisconnectResolve(c, again)) => Reread(start, es, n, th, c, again)
    case Disconnect(DisconnectRevoke(c)) => Resolved(start, es, n, th, c)
    case Disconnect(DisconnectDropSecret(c, revoked)) => revoked ==> Revoked(start, es, n, th, c)
    case Disconnect(DisconnectDropRow(c, revoked)) => revoked ==> Revoked(start, es, n, th, c)
    case Done(tenant, Disconnected(id, revoked)) =>
      revoked ==> exists c: Connection :: c.id == id && c.tenant == tenant && Revoked(start, es, n, th, c)
    case Poll(PollDropSecret(_, outcome)) => !outcome.Disconnected?
    case Poll(PollDropFlow(_, outcome)) => !outcome.Disconnected?
    case _ => true
  }

  lemma EarnedLater(start: Time, es: seq<Event>, n: nat, th: nat, t: Thread)
    requires Earned(start, es, n, th, t)
    ensures Earned(start, es, n + 1, th, t)
  {
  }

  /** The row is read again. */
  lemma RereadStep(start: Time, es: seq<Event>, n: nat, th: nat, c: Connection)
    requires n < |es| && StepsFrom(start, es, n, th, Disconnect(DisconnectReread(c)))
    ensures var s := At(start, es, n);
            Earned(start, es, n + 1, th, Advance(s.db, s.now, Disconnect(DisconnectReread(c)), es[n].oracle).1)
  {
    hide Revoked, Resolved;
    var db := At(start, es, n).db;
    if es[n].oracle.ok && ReadConnection(db, c.id, c.tenant).Found? {
      assert Rereads(start, es, n, th, c, ReadConnection(db, c.id, c.tenant).row);
    }
  }

  /** The settings are resolved. */
  lemma ResolveStep(start: Time, es: seq<Event>, n: nat, th: nat, c: Connection, again: Connection)
    requires n < |es| && StepsFrom(start, es, n, th, Disconnect(DisconnectResolve(c, again)))
    requires Reread(start, es, n, th, c, again)
    ensures var s := At(start, es, n);
            Earned(start, es, n + 1, th, Advance(s.db, s.now, Disconnect(DisconnectResolve(c, again)), es[n].oracle).1)
  {
    hide Revoked, Reread;
    var db := At(start, es, n).db;
    if es[n].oracle.ok && GetSecret(db, again.ref, again.tenant).Some? && Paths.NormalizeRootPath(again.root).Ok? {
      assert Resolves(start, es, n, th, c, again);
    }
  }

  /** The remote answers. */
  lemma RevokeStep(start: Time, es: seq<Event>, n: nat, th: nat, c: Connection)
    requires n < |es| && StepsFrom(start, es, n, th, Disconnect(DisconnectRevoke(c))) && Resolved(start, es, n, th, c)
    ensures var s := At(start, es, n);
            Earned(start, es, n + 1, th, Advance(s.db, s.now, Disconnect(DisconnectRevoke(c)), es[n].oracle).1)
  {
    hide Resolved, Reread;
    assert es[n].oracle.revoked ==> Revokes(start, es, n, th, c);
  }

  /** Any other step. */
  lemma OtherStep(start: Time, es: seq<Event>, n: nat, th: nat, t: Thread, db: Db, now: Time, o: Oracle)
    requires Earned(start, es, n, th, t)
    requires t.Disconnect? ==>
               !t.disconnect.DisconnectReread? && !t.disconnect.DisconnectResolve? && !t.disconnect.DisconnectRevoke?
    ensures Earned(start, es, n, th, Advance(db, now, t, o).1)
  {
    hide Reread, Resolved, Revoked;
  }

  /** One more step of the thread. */
  lemma EarnedStep(start: Time, es: seq<Event>, n: nat, th: nat, t: Thread)
    requires n < |es| && StepsFrom(start, es, n, th, t) && Earned(start, es, n, th, t)
    ensures var s := At(start, es, n); Earned(start, es, n + 1, th, Advance(s.db, s.now, t, es[n].oracle).1)
  {
    hide Advance, Reread, Resolved, Revoked;
    match t
    case Disconnect(DisconnectReread(c)) => RereadStep(start, es, n, th, c);
    case Disconnect(DisconnectResolve(c, again)) => ResolveStep(start, es, n, th, c, again);
    case Disconnect(DisconnectRevoke(c)) => RevokeStep(start, es, n, th, c);
    case _ =>
      var s := At(start, es, n);
      OtherStep(start, es, n, th, t, s.db, s.now, es[n].oracle);
      EarnedLater(start, es, n, th, Advance(s.db, s.now, t, es[n].oracle).1);
  }

  lemma NextAt(start: Time, es: seq<Event>, n: nat)
    requires n < |es|
    ensures At(start, es, n + 1) == Step(At(start, es, n), es[n])
  {
    assert es[..n + 1][..n] == es[..n];
  }

  lemma {:induction false} LegalPrefix(s: State, es: seq<Event>, n: nat)
    requires n <= |es| && Legal(s, es)
    ensures Legal(s, es[..n])
  {
    if n == |es| {
      assert es[..n] == es;
    } else {
      LegalPrefix(s, es[..|es| - 1], n);
      assert es[..|es| - 1][..n] == es[..n];
    }
  }

  lemma {:induction false} AllEarned(start: Time, es: seq<Event>, n: nat)
    requires n <= |es| && Legal(Init(start), es)
    ensures forall th :: th in At(start, es, n).threads ==> Earned(start, es, n, th, At(start, es, n).threads[th])
  {
    if n > 0 {
      AllEarned(start, es, n - 1);
      NextAt(start, es, n - 1);
      LegalPrefix(Init(start), es, n);
      assert es[..n][..n - 1] == es[..n - 1];
      forall th | th in At(start, es, n).threads ensures Earned(start, es, n, th, At(start, es, n).threads[th]) {
        EarnedNext(start, es, n - 1, th);
      }
    }
  }

  lemma EarnedNext(start: Time, es: seq<Event>, n: nat, th: nat)
    requires n < |es| && Enabled(At(start, es, n), es[n]) && th in Step(At(start, es, n), es[n]).threads
    requires forall i :: i in At(start, es, n).threads ==> Earned(start, es, n, i, At(start, es, n).threads[i])
    ensures Earned(start, es, n + 1, th, Step(At(start, es, n), es[n]).threads[th])
  {
    if es[n].Go? && es[n].th == th {
      EarnedStep(start, es, n, th, At(start, es, n).threads[th]);
    } else if es[n].Spawn? && es[n].th == th {
      assert IsStart(es[n].start);
    } else {
      EarnedLater(start, es, n, th, At(start, es, n).threads[th]);
    }
  }

  /**
   In every run, whatever is interleaved, a disconnect answers that the app
   password was revoked only after it has read its row again, then its secret,
   with settings that accept the root, and the remote has revoked.
   */
  lemma RevokedMeansAsked(start: Time, es: seq<Event>, th: nat)
    requires Legal(Init(start), es) && th in Run(Init(start), es).threads
    requires var t := Run(Init(start), es).threads[th]; t.Done? && t.outcome.Disconnected? && t.outcome.revoked
    ensures var t := Run(Init(start), es).threads[th];
            exists c: Connection :: c.id == t.outcome.id && c.tenant == t.tenant && Revoked(start, es, |es|, th, c)
  {
    AllEarned(start, es, |es|);
    hide Run, Revoked;
    assert es[..|es|] == es;
    assert Earned(start, es, |es|, th, At(start, es, |es|).threads[th]);
  }

  /** What a disconnect can still answer once the remote has revoked. */
  predicate Reports(t: Thread, c: Connection) {
    || t == Disconnect(DisconnectDropSecret(c, true)) || t == Disconnect(DisconnectDropRow(c, true))
    || t == Done(c.tenant, Disconnected(c.id, true)) || t == Done(c.tenant, Failed(StorageFailed))
  }

  /** Once the remote has revoked, a disconnect that does not crash says so, or that the storage failed. */
  lemma {:induction false} RevocationIsReported(start: Time, es: seq<Event>, k: nat, n: nat, th: nat, c: Connection)
    requires Legal(Init(start), es) && Revokes(start, es, k, th, c) && k < n <= |es|
    requires forall m :: k < m < n ==> !(es[m].Crash? && es[m].th == th)
    ensures th in At(start, es, n).threads && Reports(At(start, es, n).threads[th], c)
  {
    NextAt(start, es, n - 1);
    if n > k + 1 {
      RevocationIsReported(start, es, k, n - 1, th, c);
      LegalPrefix(Init(start), es, n);
      assert es[..n][..n - 1] == es[..n - 1];
    }
  }
}
