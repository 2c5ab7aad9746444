/**
 The limiter over whole runs: what its table holds, when forgetting keys
 cannot be noticed, and how many calls any stretch of time can see.
 */
module LimiterRuns {
  import opened Options
  import opened Limiter

  datatype Call = Call(now: real, limits: seq<Limit>)

  type Answers = seq<Option<int>>

  /** The table and the answers after a run of calls on an empty limiter. */
  function Bounded(calls: seq<Call>, window: int, maxKeys: nat): (Table, Answers) {
    if calls == [] then (Table(map[], []), []) else
    var last := calls[|calls| - 1];
    var (t, answers) := Bounded(calls[..|calls| - 1], window, maxKeys);
    var (t', answer) := Consumed(t, last.limits, last.now, window, maxKeys);
    (t', answers + [answer])
  }

  /** The same run on the limiter that never forgets a key. */
  function Free(calls: seq<Call>, window: int): (Windows, Answers) {
    if calls == [] then (map[], []) else
    var last := calls[|calls| - 1];
    var (u, answers) := Free(calls[..|calls| - 1], window);
    var (u', answer) := Unbounded(u, last.limits, last.now, window);
    (u', answers + [answer])
  }

  /** The keys of the admitted calls, in order. */
  function History(calls: seq<Call>, window: int, maxKeys: nat): seq<Key> {
    if calls == [] then [] else
    var init, last := calls[..|calls| - 1], calls[|calls| - 1];
    var admitted := Blocked(Bounded(init, window, maxKeys).0.windows, last.limits, last.now, window, 0).None?;
    History(init, window, maxKeys) + if admitted then Keys(last.limits) else []
  }

  // ---- the table holds the keys admitted last ----

  predicate Distinct(keys: seq<Key>) {
    forall i, j :: 0 <= i < j < |keys| ==> keys[i] != keys[j]
  }

  lemma {:induction false} WithoutSplit(a: seq<Key>, b: seq<Key>, key: Key)
    ensures Without(a + b, key) == Without(a, key) + Without(b, key)
  {
    if a == [] {
      assert a + b == b;
    } else {
      assert (a + b)[1..] == a[1..] + b;
      WithoutSplit(a[1..], b, key);
    }
  }

  /** At most one entry of distinct keys is taken out. */
  lemma {:induction false} WithoutLength(keys: seq<Key>, key: Key)
    requires Distinct(keys)
    ensures |Without(keys, key)| >= |keys| - 1
    ensures key !in keys ==> |Without(keys, key)| == |keys|
  {
    if keys != [] {
      WithoutLength(keys[1..], key);
    }
  }

  lemma LastOfEnd(a: seq<Key>, b: seq<Key>, n: nat)
    requires |b| >= n
    ensures LastOf(a + b, n) == LastOf(b, n)
  {
  }

  /** Dropping all but the last keys before a move does not show in the last keys after it. */
  lemma LastOfMove(keys: seq<Key>, key: Key, n: nat)
    requires Distinct(keys)
    ensures LastOf(MoveToEnd(LastOf(keys, n), key), n) == LastOf(MoveToEnd(keys, key), n)
  {
    if |keys| > n {
      var early, recent := keys[..|keys| - n], keys[|keys| - n..];
      assert keys == early + recent;
      WithoutSplit(early, recent, key);
      WithoutLength(recent, key);
      assert MoveToEnd(keys, key) == Without(early, key) + MoveToEnd(recent, key);
      LastOfEnd(Without(early, key), MoveToEnd(recent, key), n);
    }
  }

  lemma {:induction false} MovedDistinct(order: seq<Key>, keys: seq<Key>)
    requires Distinct(order)
    ensures Distinct(Moved(order, keys))
  {
    if keys != [] {
      MovedDistinct(order, keys[..|keys| - 1]);
      WithoutIs(Moved(order, keys[..|keys| - 1]), keys[|keys| - 1]);
    }
  }

  lemma {:induction false} LastOfMoved(order: seq<Key>, keys: seq<Key>, n: nat)
    requires Distinct(order)
    ensures LastOf(Moved(LastOf(order, n), keys), n) == LastOf(Moved(order, keys), n)
  {
    if keys != [] {
      var init, key := keys[..|keys| - 1], keys[|keys| - 1];
      LastOfMoved(order, init, n);
      MovedDistinct(order, init);
      MovedDistinct(LastOf(order, n), init);
      LastOfMove(Moved(order, init), key, n);
      LastOfMove(Moved(LastOf(order, n), init), key, n);
    }
  }

  lemma {:induction false} MovedAppend(order: seq<Key>, a: seq<Key>, b: seq<Key>)
    ensures Moved(order, a + b) == Moved(Moved(order, a), b)
  {
    if b == [] {
      assert a + b == a;
    } else {
      assert (a + b)[..|a + b| - 1] == a + b[..|b| - 1];
      MovedAppend(order, a, b[..|b| - 1]);
    }
  }

  /**
   After every run the table holds at most `maxKeys` keys: the distinct keys
   admitted last, ordered by their last admission.
   */
  lemma {:induction false} TableHoldsTheLastKeys(calls: seq<Call>, window: int, maxKeys: nat)
    ensures var t := Bounded(calls, window, maxKeys).0;
            && WellFormed(t) && |t.order| <= maxKeys
            && t.order == LastOf(Moved([], History(calls, window, maxKeys)), maxKeys)
  {
    if calls != [] {
      var init, last := calls[..|calls| - 1], calls[|calls| - 1];
      TableHoldsTheLastKeys(init, window, maxKeys);
      var t, h := Bounded(init, window, maxKeys).0, History(init, window, maxKeys);
      CallIs(t, last.limits, last.now, window, maxKeys);
      MovedDistinct([], h);
      LastOfMoved(Moved([], h), Keys(last.limits), maxKeys);
      MovedAppend([], h, Keys(last.limits));
      assert h + [] == h;
    }
  }

  // ---- when forgetting cannot be noticed ----

  ghost predicate Monotone(calls: seq<Call>) {
    forall i, j :: 0 <= i < j < |calls| ==> calls[i].now <= calls[j].now
  }

  /** The time of the last call; any time is late enough for the first one. */
  ghost predicate NotBefore(calls: seq<Call>, now: real) {
    calls != [] ==> calls[|calls| - 1].now <= now
  }

  /** Every window that is no longer held has expired. */
  ghost predicate Similar(held: Windows, all: Windows, now: real, window: int) {
    && (forall k :: k in held ==> k in all && held[k] == all[k])
    && (forall k :: k in all && k !in held ==> Expired(all[k], now, window))
  }

  ghost predicate Positive(windows: Windows) {
    forall k :: k in windows ==> windows[k].requests > 0
  }

  /** A call on table `t` evicts no window that is still running. */
  ghost predicate EvictsOnlyExpired(t: Table, call: Call, window: int, maxKeys: nat) {
    Blocked(t.windows, call.limits, call.now, window, 0).None? ==>
      var r := Consumed(t, call.limits, call.now, window, maxKeys).0;
      var all := Counted(t.windows, call.limits, call.now, window);
      forall k :: k in all && k !in r.windows ==> Expired(all[k], call.now, window)
  }

  ghost predicate NoLiveEviction(calls: seq<Call>, window: int, maxKeys: nat) {
    calls != [] ==>
      && NoLiveEviction(calls[..|calls| - 1], window, maxKeys)
      && EvictsOnlyExpired(Bounded(calls[..|calls| - 1], window, maxKeys).0, calls[|calls| - 1], window, maxKeys)
  }

  lemma {:induction false} SimilarBlocked(held: Windows, all: Windows, now: real, limits: seq<Limit>, window: int,
                                          i: nat)
    requires Similar(held, all, now, window) && i <= |limits|
    ensures Blocked(held, limits, now, window, i) == Blocked(all, limits, now, window, i)
    decreases |limits| - i
  {
    if i < |limits| {
      SimilarBlocked(held, all, now, limits, window, i + 1);
    }
  }

  lemma Later(held: Windows, all: Windows, now: real, now': real, window: int)
    requires Similar(held, all, now, window) && now <= now'
    ensures Similar(held, all, now', window)
  {}

  /** Counting keeps the tables similar, before any eviction. */
  lemma CountedSimilar(held: Windows, all: Windows, call: Call, window: int)
    requires Similar(held, all, call.now, window)
    ensures Similar(Counted(held, call.limits, call.now, window), Counted(all, call.limits, call.now, window),
                    call.now, window)
  {
  }

  lemma SimilarStep(t: Table, u: Windows, call: Call, window: int, maxKeys: nat)
    requires WellFormed(t) && |t.order| <= maxKeys && Similar(t.windows, u, call.now, window)
    ensures Consumed(t, call.limits, call.now, window, maxKeys).1 == Unbounded(u, call.limits, call.now, window).1
    ensures EvictsOnlyExpired(t, call, window, maxKeys) ==>
              Similar(Consumed(t, call.limits, call.now, window, maxKeys).0.windows,
                      Unbounded(u, call.limits, call.now, window).0, call.now, window)
  {
    SimilarBlocked(t.windows, u, call.now, call.limits, window, 0);
    CallIs(t, call.limits, call.now, window, maxKeys);
    CountedSimilar(t.windows, u, call, window);
  }

  /** As long as only expired windows are evicted, every answer is that of the limiter that never forgets. */
  lemma {:induction false} ForgettingUnnoticed(calls: seq<Call>, window: int, maxKeys: nat, now: real)
    requires Monotone(calls) && NoLiveEviction(calls, window, maxKeys) && NotBefore(calls, now)
    ensures Bounded(calls, window, maxKeys).1 == Free(calls, window).1
    ensures Similar(Bounded(calls, window, maxKeys).0.windows, Free(calls, window).0, now, window)
  {
    if calls != [] {
      var init, last := calls[..|calls| - 1], calls[|calls| - 1];
      ForgettingUnnoticed(init, window, maxKeys, last.now);
      TableHoldsTheLastKeys(init, window, maxKeys);
      SimilarStep(Bounded(init, window, maxKeys).0, Free(init, window).0, last, window, maxKeys);
      Later(Bounded(calls, window, maxKeys).0.windows, Free(calls, window).0, last.now, now, window);
    }
  }

  ghost predicate AnswersAgree(calls: seq<Call>, window: int, maxKeys: nat) {
    Bounded(calls, window, maxKeys).1 == Free(calls, window).1
  }

  /** No call that could come next tells the two limiters apart. */
  ghost predicate Indistinguishable(calls: seq<Call>, window: int, maxKeys: nat) {
    forall next: Call :: NotBefore(calls, next.now) ==> AnswersAgree(calls + [next], window, maxKeys)
  }

  /** At no point of the run. */
  ghost predicate NeverNoticed(calls: seq<Call>, window: int, maxKeys: nat) {
    && Indistinguishable(calls, window, maxKeys)
    && (calls != [] ==> NeverNoticed(calls[..|calls| - 1], window, maxKeys))
  }

  lemma {:induction false} HeldPositive(calls: seq<Call>, window: int, maxKeys: nat)
    ensures Positive(Bounded(calls, window, maxKeys).0.windows)
  {
    if calls != [] {
      var init, last := calls[..|calls| - 1], calls[|calls| - 1];
      HeldPositive(init, window, maxKeys);
      TableHoldsTheLastKeys(init, window, maxKeys);
      CallIs(Bounded(init, window, maxKeys).0, last.limits, last.now, window, maxKeys);
    }
  }

  /** A forgotten key starts afresh where the other limiter refuses. */
  lemma ProbeDiffers(held: Windows, all: Windows, k: Key, now: real, window: int)
    requires k !in held && k in all && all[k].requests > 0 && !Expired(all[k], now, window)
    ensures Unbounded(held, [Limit(k, all[k].requests)], now, window).1
         != Unbounded(all, [Limit(k, all[k].requests)], now, window).1
  {
    var limits := [Limit(k, all[k].requests)];
    assert Blocked(held, limits, now, window, 1).None?;
  }

  /** A running window that the call evicts is still in the table that never forgets. */
  lemma EvictedIsRunning(t: Table, u: Windows, call: Call, window: int, maxKeys: nat) returns (k: Key)
    requires WellFormed(t) && |t.order| <= maxKeys && Similar(t.windows, u, call.now, window) && Positive(t.windows)
    requires !EvictsOnlyExpired(t, call, window, maxKeys)
    ensures var u' := Unbounded(u, call.limits, call.now, window).0;
            && k !in Consumed(t, call.limits, call.now, window, maxKeys).0.windows
            && k in u' && u'[k].requests > 0 && !Expired(u'[k], call.now, window)
  {
    var r := Consumed(t, call.limits, call.now, window, maxKeys).0;
    var held := Counted(t.windows, call.limits, call.now, window);
    k :| k in held && k !in r.windows && !Expired(held[k], call.now, window);
    SimilarBlocked(t.windows, u, call.now, call.limits, window, 0);
    CountedSimilar(t.windows, u, call, window);
  }

  lemma BoundedNext(calls: seq<Call>, next: Call, window: int, maxKeys: nat)
    ensures Bounded(calls + [next], window, maxKeys)
            == (Consumed(Bounded(calls, window, maxKeys).0, next.limits, next.now, window, maxKeys).0,
                Bounded(calls, window, maxKeys).1
                + [Consumed(Bounded(calls, window, maxKeys).0, next.limits, next.now, window, maxKeys).1])
  {
    assert (calls + [next])[..|calls|] == calls;
  }

  lemma FreeNext(calls: seq<Call>, next: Call, window: int)
    ensures Free(calls + [next], window)
            == (Unbounded(Free(calls, window).0, next.limits, next.now, window).0,
                Free(calls, window).1 + [Unbounded(Free(calls, window).0, next.limits, next.now, window).1])
  {
    assert (calls + [next])[..|calls|] == calls;
  }

  /** Two runs that are continued with different answers have different answers. */
  lemma LastDiffers(a: Answers, b: Answers, x: Option<int>, y: Option<int>)
    requires x != y
    ensures a + [x] != b + [y]
  {
    assert (a + [x])[|a|] == x && (b + [y])[|b|] == y;
    assert |a| != |b| ==> |a + [x]| != |b + [y]|;
  }

  /** Evicting a running window shows: a call for that key, with the count it had reached as limit, is admitted. */
  lemma LiveEvictionShows(calls: seq<Call>, call: Call, window: int, maxKeys: nat) returns (next: Call)
    requires Monotone(calls) && NoLiveEviction(calls, window, maxKeys) && NotBefore(calls, call.now)
    requires !EvictsOnlyExpired(Bounded(calls, window, maxKeys).0, call, window, maxKeys)
    ensures next.now == call.now && !AnswersAgree(calls + [call] + [next], window, maxKeys)
  {
    var t, u := Bounded(calls, window, maxKeys).0, Free(calls, window).0;
    ForgettingUnnoticed(calls, window, maxKeys, call.now);
    TableHoldsTheLastKeys(calls, window, maxKeys);
    HeldPositive(calls, window, maxKeys);
    var k := EvictedIsRunning(t, u, call, window, maxKeys);
    BoundedNext(calls, call, window, maxKeys);
    FreeNext(calls, call, window);
    TableHoldsTheLastKeys(calls + [call], window, maxKeys);
    var r, u' := Bounded(calls + [call], window, maxKeys).0, Free(calls + [call], window).0;
    next := Call(call.now, [Limit(k, u'[k].requests)]);
    ProbeDiffers(r.windows, u', k, call.now, window);
    CallIs(r, next.limits, next.now, window, maxKeys);
    BoundedNext(calls + [call], next, window, maxKeys);
    FreeNext(calls + [call], next, window);
    LastDiffers(Bounded(calls + [call], window, maxKeys).1, Free(calls + [call], window).1,
                Unbounded(r.windows, next.limits, next.now, window).1,
                Unbounded(u', next.limits, next.now, window).1);
  }

  /** The next answer cannot differ as long as only expired windows were evicted. */
  lemma NextAgrees(calls: seq<Call>, next: Call, window: int, maxKeys: nat)
    requires Monotone(calls) && NoLiveEviction(calls, window, maxKeys) && NotBefore(calls, next.now)
    ensures AnswersAgree(calls + [next], window, maxKeys)
  {
    ForgettingUnnoticed(calls, window, maxKeys, next.now);
    TableHoldsTheLastKeys(calls, window, maxKeys);
    SimilarStep(Bounded(calls, window, maxKeys).0, Free(calls, window).0, next, window, maxKeys);
    assert (calls + [next])[..|calls|] == calls;
  }

  lemma UnnoticedNow(calls: seq<Call>, window: int, maxKeys: nat)
    requires Monotone(calls) && NoLiveEviction(calls, window, maxKeys)
    ensures Indistinguishable(calls, window, maxKeys)
  {
    forall next: Call | NotBefore(calls, next.now) ensures AnswersAgree(calls + [next], window, maxKeys) {
      NextAgrees(calls, next, window, maxKeys);
    }
  }

  lemma NoticedNow(calls: seq<Call>, call: Call, window: int, maxKeys: nat)
    requires Monotone(calls + [call]) && NoLiveEviction(calls, window, maxKeys)
    requires !EvictsOnlyExpired(Bounded(calls, window, maxKeys).0, call, window, maxKeys)
    ensures !Indistinguishable(calls + [call], window, maxKeys)
  {
    var all := calls + [call];
    assert forall i :: 0 <= i < |calls| ==> all[i] == calls[i];
    assert all[|calls|] == call;
    var next := LiveEvictionShows(calls, call, window, maxKeys);
    assert NotBefore(all, next.now) && !AnswersAgree(all + [next], window, maxKeys);
  }

  /** No next call at any point of a run tells the limiters apart if and only if no running window is evicted. */
  lemma {:induction false} ExactWithoutLiveEviction(calls: seq<Call>, window: int, maxKeys: nat)
    requires Monotone(calls)
    ensures NoLiveEviction(calls, window, maxKeys) <==> NeverNoticed(calls, window, maxKeys)
  {
    if NoLiveEviction(calls, window, maxKeys) {
      UnnoticedNow(calls, window, maxKeys);
    }
    if calls != [] {
      var init, last := calls[..|calls| - 1], calls[|calls| - 1];
      assert calls == init + [last];
      ExactWithoutLiveEviction(init, window, maxKeys);
      if NoLiveEviction(init, window, maxKeys) && !NoLiveEviction(calls, window, maxKeys) {
        NoticedNow(init, last, window, maxKeys);
      }
    }
  }
}
