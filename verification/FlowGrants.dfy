/**
 The connection rows of one flow in every interleaving: its polls never commit
 more of them than the login client has accepted grants.
 */
module FlowGrants {
  import opened Tables
  import opened Lifecycle
  import opened LifecycleShape
  import opened RowRuns

  /** The login client accepts credentials for the flow. */
  predicate GrantsFlow(s: State, e: Event, f: Id) {
    && e.Go? && e.th in s.threads && s.threads[e.th].Poll? && s.threads[e.th].poll.PollRemote?
    && s.threads[e.th].poll.row.flowId == f && e.oracle.answer.Granted?
  }

  /** A poll of the flow commits a connection row. */
  predicate StoresRow(s: State, e: Event, f: Id) {
    && e.Go? && e.oracle.ok && e.th in s.threads && s.threads[e.th].Poll? && s.threads[e.th].poll.PollConnection?
    && s.threads[e.th].poll.row.flowId == f
  }

  /** Every such commit adds a row that was not there. */
  lemma StoresNewRow(s: State, e: Event, f: Id)
    requires Shape(s) && Enabled(s, e) && StoresRow(s, e, f)
    ensures e.oracle.id !in s.db.connections && e.oracle.id in Step(s, e).db.connections
    ensures Step(s, e).db.connections.Keys == s.db.connections.Keys + {e.oracle.id}
  {
    var t := s.threads[e.th];
    assert ThreadShape(s.h, e.th, t);
    RowAfter(s.db, s.now, s.h, e.th, t, e.oracle, e.oracle.id);
  }

  function GrantCount(s: State, es: seq<Event>, f: Id): nat {
    if es == [] then 0 else
    var init := es[..|es| - 1];
    GrantCount(s, init, f) + if GrantsFlow(Run(s, init), es[|es| - 1], f) then 1 else 0
  }

  function RowCount(s: State, es: seq<Event>, f: Id): nat {
    if es == [] then 0 else
    var init := es[..|es| - 1];
    RowCount(s, init, f) + if StoresRow(Run(s, init), es[|es| - 1], f) then 1 else 0
  }

  /** The poll has a grant and has not yet tried to commit its row. */
  predicate HoldsGrant(t: Thread, f: Id) {
    t.Poll? && (t.poll.PollSecret? || t.poll.PollConnection?) && t.poll.row.flowId == f
  }

  function Holders(threads: map<nat, Thread>, f: Id): set<nat> {
    set th | th in threads && HoldsGrant(threads[th], f)
  }

  /** One step of a thread takes a grant, uses it up, loses it, or has nothing to do with it. */
  lemma GrantStep(db: Db, now: Time, t: Thread, o: Oracle, f: Id)
    ensures var t' := Advance(db, now, t, o).1;
            HoldsGrant(t', f) ==>
              || (HoldsGrant(t, f) && !t.poll.PollConnection?)
              || (t.Poll? && t.poll.PollRemote? && t.poll.row.flowId == f && o.answer.Granted?)
  {
  }

  lemma HoldersAfter(threads: map<nat, Thread>, th: nat, t: Thread, f: Id)
    ensures Holders(threads[th := t], f) == if HoldsGrant(t, f) then Holders(threads, f) + {th} else Holders(threads, f) - {th}
  {
  }

  lemma HoldersGone(threads: map<nat, Thread>, th: nat, f: Id)
    ensures Holders(threads - {th}, f) == Holders(threads, f) - {th}
  {
  }

  lemma CountStep(s: State, e: Event, f: Id)
    requires Enabled(s, e)
    ensures |Holders(Step(s, e).threads, f)| + (if StoresRow(s, e, f) then 1 else 0)
            <= |Holders(s.threads, f)| + if GrantsFlow(s, e, f) then 1 else 0
  {
    match e
    case Tick(_) =>
    case Spawn(_, th, start) => HoldersAfter(s.threads, th, start, f);
    case Crash(_, th) => HoldersGone(s.threads, th, f);
    case Go(_, th, o) =>
      var t' := Advance(s.db, s.now, s.threads[th], o).1;
      GrantStep(s.db, s.now, s.threads[th], o, f);
      HoldersAfter(s.threads, th, t', f);
      OneHolder(Holders(s.threads, f), th);
  }

  lemma OneHolder(holders: set<nat>, th: nat)
    ensures |holders + {th}| == |holders| + if th in holders then 0 else 1
    ensures |holders - {th}| == |holders| - if th in holders then 1 else 0
  {
    if th in holders {
      assert holders + {th} == holders;
    } else {
      assert holders - {th} == holders;
    }
  }

  lemma {:induction false} RowsAndHolders(start: Time, es: seq<Event>, f: Id)
    requires Legal(Init(start), es)
    ensures RowCount(Init(start), es, f) + |Holders(Run(Init(start), es).threads, f)| <= GrantCount(Init(start), es, f)
  {
    if es != [] {
      var init := es[..|es| - 1];
      RowsAndHolders(start, init, f);
      CountStep(Run(Init(start), init), es[|es| - 1], f);
    }
  }

  /**
   Over every run, whatever is interleaved, crashes and raises included, the
   polls of a flow commit at most as many connection rows as the login client
   has accepted grants; at most one, if it accepts one.
   */
  lemma RowsNeverExceedGrants(start: Time, es: seq<Event>, f: Id)
    requires Legal(Init(start), es)
    ensures RowCount(Init(start), es, f) <= GrantCount(Init(start), es, f)
  {
    RowsAndHolders(start, es, f);
  }
}
