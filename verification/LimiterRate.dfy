/**
 How many calls of one key any stretch of time can see: at most the limit in
 each window, and at most twice the limit less one in any stretch as long as
 a window, wherever it starts.
 */
module LimiterRate {
  import opened Options
  import opened Limiter
  import opened LimiterRuns

  /** An admission of the key: when, and the start of the window it was counted in. */
  datatype Admission = Admission(at: real, start: real)

  type Log = seq<Admission>

  predicate Admits(windows: Windows, call: Call, window: int, key: Key) {
    key in Keys(call.limits) && Blocked(windows, call.limits, call.now, window, 0).None?
  }

  function Extended(log: Log, windows: Windows, call: Call, window: int, key: Key): Log {
    if Admits(windows, call, window, key) then log + [Admission(call.now, Current(windows, key, call.now, window).start)]
    else log
  }

  /** The admissions of `key` in a run. */
  function LogOf(calls: seq<Call>, window: int, maxKeys: nat, key: Key): Log {
    if calls == [] then [] else
    var init, last := calls[..|calls| - 1], calls[|calls| - 1];
    Extended(LogOf(init, window, maxKeys, key), Bounded(init, window, maxKeys).0.windows, last, window, key)
  }

  /** A call on table `t` evicts `key` although its window is still running. */
  predicate Forgets(t: Table, call: Call, window: int, maxKeys: nat, key: Key) {
    var all := Counted(t.windows, call.limits, call.now, window);
    && Blocked(t.windows, call.limits, call.now, window, 0).None?
    && key in all && key !in Consumed(t, call.limits, call.now, window, maxKeys).0.windows
    && !Expired(all[key], call.now, window)
  }

  /** No call of the run evicts `key` while its window is running. */
  predicate Remembered(calls: seq<Call>, window: int, maxKeys: nat, key: Key) {
    calls != [] ==>
      && Remembered(calls[..|calls| - 1], window, maxKeys, key)
      && !Forgets(Bounded(calls[..|calls| - 1], window, maxKeys).0, calls[|calls| - 1], window, maxKeys, key)
  }

  /** A run that evicts no running window at all remembers every key. */
  lemma {:induction false} AllRemembered(calls: seq<Call>, window: int, maxKeys: nat, key: Key)
    requires NoLiveEviction(calls, window, maxKeys)
    ensures Remembered(calls, window, maxKeys, key)
  {
    if calls != [] {
      AllRemembered(calls[..|calls| - 1], window, maxKeys, key);
    }
  }

  function Count(log: Log, p: Admission -> bool): nat {
    if log == [] then 0 else Count(log[..|log| - 1], p) + if p(log[|log| - 1]) then 1 else 0
  }

  function StartsAt(start: real): Admission -> bool {
    (a: Admission) => a.start == start
  }

  function StartsIn(from: real, to: real): Admission -> bool {
    (a: Admission) => from <= a.start < to
  }

  function Within(from: real, to: real): Admission -> bool {
    (a: Admission) => from <= a.at < to
  }

  /** `key` is always given the same limit. */
  ghost predicate ConstantLimit(calls: seq<Call>, key: Key, limit: int) {
    forall i, j :: 0 <= i < |calls| && 0 <= j < |calls[i].limits| && calls[i].limits[j].key == key ==>
                     calls[i].limits[j].limit == limit
  }

  // ---- the windows of a log ----

  /** Admissions lie in their window and different windows do not overlap. */
  ghost predicate Apart(log: Log, window: int) {
    && (forall i :: 0 <= i < |log| ==> log[i].start <= log[i].at < log[i].start + window as real)
    && (forall i, j :: 0 <= i < j < |log| ==>
                         log[i].start == log[j].start || log[i].start + window as real <= log[j].start)
  }

  function OpensAt(start: real): Admission -> bool {
    (a: Admission) => a.at == start && a.start == start
  }

  /** Each window is opened by an admission. */
  ghost predicate Opened(log: Log) {
    forall start :: Count(log, StartsAt(start)) > 0 ==> Count(log, OpensAt(start)) > 0
  }

  ghost predicate Windowed(log: Log, window: int) {
    Apart(log, window) && Opened(log)
  }

  ghost predicate AtMost(log: Log, limit: int) {
    forall start :: Count(log, StartsAt(start)) <= (if limit > 0 then limit else 0)
  }

  /** The table keeps the last window of the log, or that window has expired. */
  ghost predicate Tracks(log: Log, windows: Windows, key: Key, now: real, window: int) {
    if key in windows then
      log != [] && windows[key] == Window(log[|log| - 1].start, Count(log, StartsAt(log[|log| - 1].start)))
    else
      log != [] ==> log[|log| - 1].start + window as real <= now
  }

  lemma {:induction false} CountNone(log: Log, p: Admission -> bool)
    requires forall i :: 0 <= i < |log| ==> !p(log[i])
    ensures Count(log, p) == 0
  {
    if log != [] {
      CountNone(log[..|log| - 1], p);
    }
  }

  lemma {:induction false} CountSome(log: Log, p: Admission -> bool, i: nat)
    requires i < |log| && p(log[i])
    ensures Count(log, p) > 0
  {
    if i < |log| - 1 {
      CountSome(log[..|log| - 1], p, i);
    }
  }

  /** Disjoint properties `p` and `q` that both imply `r` count at most as often together. */
  lemma {:induction false} CountTwo(log: Log, p: Admission -> bool, q: Admission -> bool, r: Admission -> bool)
    requires forall i :: 0 <= i < |log| ==> (p(log[i]) ==> r(log[i]) && !q(log[i])) && (q(log[i]) ==> r(log[i]))
    ensures Count(log, p) + Count(log, q) <= Count(log, r)
  {
    if log != [] {
      CountTwo(log[..|log| - 1], p, q, r);
    }
  }

  /** A property that implies one of two others counts at most as often as both. */
  lemma {:induction false} CountEither(log: Log, p: Admission -> bool, q: Admission -> bool, r: Admission -> bool)
    requires forall i :: 0 <= i < |log| && p(log[i]) ==> q(log[i]) || r(log[i])
    ensures Count(log, p) <= Count(log, q) + Count(log, r)
  {
    if log != [] {
      CountEither(log[..|log| - 1], p, q, r);
    }
  }

  lemma CountNext(log: Log, a: Admission, p: Admission -> bool)
    ensures Count(log + [a], p) == Count(log, p) + if p(a) then 1 else 0
  {
    assert (log + [a])[..|log|] == log;
  }

  lemma AtMostNext(log: Log, a: Admission, limit: int)
    requires AtMost(log, limit) && Count(log, StartsAt(a.start)) < limit
    ensures AtMost(log + [a], limit)
  {
    forall start ensures Count(log + [a], StartsAt(start)) <= (if limit > 0 then limit else 0) {
      CountNext(log, a, StartsAt(start));
    }
  }

  /** An admission in the last window, or one that opens a window after it, keeps the windows apart. */
  lemma ApartNext(log: Log, a: Admission, window: int)
    requires window > 0 && Apart(log, window) && a.start <= a.at < a.start + window as real
    requires log != [] ==> var last := log[|log| - 1]; a.start == last.start || last.start + window as real <= a.start
    ensures Apart(log + [a], window)
  {
    assert forall i :: 0 <= i < |log| - 1 ==> log[i].start <= log[|log| - 1].start;
  }

  lemma OpenedNext(log: Log, a: Admission)
    requires Opened(log)
    requires a.at == a.start || (log != [] && a.start == log[|log| - 1].start)
    ensures Opened(log + [a])
  {
    if log != [] {
      CountSome(log, StartsAt(log[|log| - 1].start), |log| - 1);
    }
    forall start | Count(log + [a], StartsAt(start)) > 0 ensures Count(log + [a], OpensAt(start)) > 0 {
      CountNext(log, a, StartsAt(start));
      CountNext(log, a, OpensAt(start));
    }
  }

  lemma NewWindowIsEmpty(log: Log, now: real, window: int)
    requires window > 0 && Apart(log, window) && (log != [] ==> log[|log| - 1].start + window as real <= now)
    ensures Count(log, StartsAt(now)) == 0
  {
    assert forall i :: 0 <= i < |log| ==> log[i].start <= log[|log| - 1].start < now;
    CountNone(log, StartsAt(now));
  }

  ghost predicate NoLater(log: Log, now: real) {
    log != [] ==> log[|log| - 1].at <= now
  }

  /** An admitted call has room in its current window. */
  lemma HasRoom(windows: Windows, call: Call, window: int, key: Key, limit: int)
    requires ConstantLimit([call], key, limit) && Admits(windows, call, window, key)
    ensures Current(windows, key, call.now, window).requests < limit
  {
    BlockedIs(windows, call.limits, call.now, window, 0);
    var j :| 0 <= j < |call.limits| && Keys(call.limits)[j] == key;
    assert [call][0].limits[j].key == key;
  }

  /** An admission lies in a window that follows the log. */
  lemma AdmissionFits(log: Log, windows: Windows, now: real, window: int, key: Key, limit: int)
    requires window > 0 && NoLater(log, now) && Windowed(log, window) && AtMost(log, limit)
    requires Tracks(log, windows, key, now, window) && Current(windows, key, now, window).requests < limit
    ensures var w := Current(windows, key, now, window);
            var log' := log + [Admission(now, w.start)];
            && Windowed(log', window) && AtMost(log', limit)
            && Count(log', StartsAt(w.start)) == w.requests + 1
  {
    var w := Current(windows, key, now, window);
    var a := Admission(now, w.start);
    if !(key in windows && !Expired(windows[key], now, window)) {
      NewWindowIsEmpty(log, now, window);
    }
    ApartNext(log, a, window);
    OpenedNext(log, a);
    AtMostNext(log, a, limit);
    CountNext(log, a, StartsAt(w.start));
  }

  /** What a call leaves of the key: nothing changes, or it is counted like the others and dropped only when expired. */
  lemma KeyAfter(t: Table, call: Call, window: int, maxKeys: nat, key: Key)
    requires WellFormed(t) && |t.order| <= maxKeys && !Forgets(t, call, window, maxKeys, key)
    ensures var r, all := Consumed(t, call.limits, call.now, window, maxKeys).0.windows,
                          Counted(t.windows, call.limits, call.now, window);
            if Blocked(t.windows, call.limits, call.now, window, 0).Some? then r == t.windows else
            && (key in r ==> key in all && r[key] == all[key])
            && (key in all && key !in r ==> Expired(all[key], call.now, window))
  {
    CallIs(t, call.limits, call.now, window, maxKeys);
  }

  lemma LogStep(log: Log, t: Table, call: Call, window: int, maxKeys: nat, key: Key, limit: int)
    requires WellFormed(t) && |t.order| <= maxKeys && !Forgets(t, call, window, maxKeys, key)
    requires window > 0 && ConstantLimit([call], key, limit) && NoLater(log, call.now)
    requires Windowed(log, window) && AtMost(log, limit) && Tracks(log, t.windows, key, call.now, window)
    ensures var log', r := Extended(log, t.windows, call, window, key),
                           Consumed(t, call.limits, call.now, window, maxKeys).0;
            && Windowed(log', window) && AtMost(log', limit) && NoLater(log', call.now)
            && Tracks(log', r.windows, key, call.now, window)
  {
    KeyAfter(t, call, window, maxKeys, key);
    var r := Consumed(t, call.limits, call.now, window, maxKeys).0.windows;
    if Admits(t.windows, call, window, key) {
      HasRoom(t.windows, call, window, key, limit);
      AdmissionFits(log, t.windows, call.now, window, key, limit);
      CountedTracks(log, t.windows, r, call, window, key);
    } else {
      OthersTrack(log, t.windows, r, call, window, key);
    }
  }

  lemma CountedTracks(log: Log, windows: Windows, r: Windows, call: Call, window: int, key: Key)
    requires window > 0 && key in Keys(call.limits)
    requires key in r ==> r[key] == Bump(Current(windows, key, call.now, window))
    requires key !in r ==> Expired(Bump(Current(windows, key, call.now, window)), call.now, window)
    requires var w := Current(windows, key, call.now, window);
             Count(log + [Admission(call.now, w.start)], StartsAt(w.start)) == w.requests + 1
    ensures Tracks(log + [Admission(call.now, Current(windows, key, call.now, window).start)], r, key, call.now, window)
  {
  }

  lemma OthersTrack(log: Log, windows: Windows, r: Windows, call: Call, window: int, key: Key)
    requires Tracks(log, windows, key, call.now, window) && !Admits(windows, call, window, key)
    requires var all := Counted(windows, call.limits, call.now, window);
             if Blocked(windows, call.limits, call.now, window, 0).Some? then r == windows else
             && (key in r ==> key in all && r[key] == all[key])
             && (key in all && key !in r ==> Expired(all[key], call.now, window))
    ensures Tracks(log, r, key, call.now, window)
  {
  }

  /** Every run that remembers the key leaves a log of windows of at most `limit` admissions each. */
  lemma LogIsWindowed(calls: seq<Call>, window: int, maxKeys: nat, key: Key, limit: int)
    requires window > 0 && Monotone(calls) && ConstantLimit(calls, key, limit)
    requires Remembered(calls, window, maxKeys, key)
    ensures var log := LogOf(calls, window, maxKeys, key); Windowed(log, window) && AtMost(log, limit)
  {
    LogTrace(calls, window, maxKeys, key, limit, if calls == [] then 0.0 else calls[|calls| - 1].now);
  }

  lemma {:induction false} LogTrace(calls: seq<Call>, window: int, maxKeys: nat, key: Key, limit: int, now: real)
    requires window > 0 && Monotone(calls) && ConstantLimit(calls, key, limit) && NotBefore(calls, now)
    requires Remembered(calls, window, maxKeys, key)
    ensures var log := LogOf(calls, window, maxKeys, key);
            && Windowed(log, window) && AtMost(log, limit) && NoLater(log, now)
            && Tracks(log, Bounded(calls, window, maxKeys).0.windows, key, now, window)
  {
    if calls != [] {
      var init, last := calls[..|calls| - 1], calls[|calls| - 1];
      LogTrace(init, window, maxKeys, key, limit, last.now);
      TableHoldsTheLastKeys(init, window, maxKeys);
      LogStep(LogOf(init, window, maxKeys, key), Bounded(init, window, maxKeys).0, last, window, maxKeys, key, limit);
    }
  }

  // ---- any stretch of time ----

  /** At most one window starts in a stretch no longer than a window. */
  lemma OneStart(log: Log, window: int, limit: nat, from: real, to: real)
    requires Apart(log, window) && AtMost(log, limit) && to - from <= window as real
    ensures Count(log, StartsIn(from, to)) <= limit
  {
    if i :| 0 <= i < |log| && StartsIn(from, to)(log[i]) {
      CountEither(log, StartsIn(from, to), StartsAt(log[i].start), _ => false);
      CountNone(log, _ => false);
    } else {
      CountNone(log, StartsIn(from, to));
    }
  }

  function Carried(from: real, window: int): Admission -> bool {
    (a: Admission) => from - window as real <= a.start < from <= a.at
  }

  /** Of the window already running at `from` at least the opening admission is over. */
  lemma CarriedOver(log: Log, window: int, limit: nat, from: real)
    requires limit > 0 && Windowed(log, window) && AtMost(log, limit)
    ensures Count(log, Carried(from, window)) <= limit - 1
  {
    if i :| 0 <= i < |log| && Carried(from, window)(log[i]) {
      var start := log[i].start;
      CountSome(log, StartsAt(start), i);
      CountTwo(log, Carried(from, window), OpensAt(start), StartsIn(from - window as real, from));
      OneStart(log, window, limit, from - window as real, from);
    } else {
      CountNone(log, Carried(from, window));
    }
  }

  lemma StretchBound(log: Log, window: int, limit: nat, from: real)
    requires limit > 0 && Windowed(log, window) && AtMost(log, limit)
    ensures Count(log, Within(from, from + window as real)) <= 2 * limit - 1
  {
    OneStart(log, window, limit, from, from + window as real);
    CarriedOver(log, window, limit, from);
    CountEither(log, Within(from, from + window as real), Carried(from, window), StartsIn(from, from + window as real));
  }

  // ---- in terms of the answers ----

  /** How many calls that name the key were admitted in a stretch of time, read off the answers. */
  function Admitted(calls: seq<Call>, answers: Answers, key: Key, from: real, to: real): nat
    requires |answers| == |calls|
  {
    if calls == [] then 0 else
    var n, last := |calls| - 1, calls[|calls| - 1];
    Admitted(calls[..n], answers[..n], key, from, to)
    + if answers[n].None? && key in Keys(last.limits) && from <= last.now < to then 1 else 0
  }

  lemma AdmittedNext(calls: seq<Call>, answers: Answers, call: Call, answer: Option<int>, key: Key, from: real, to: real)
    requires |answers| == |calls|
    ensures |answers + [answer]| == |calls + [call]|
    ensures Admitted(calls + [call], answers + [answer], key, from, to)
            == Admitted(calls, answers, key, from, to)
               + if answer.None? && key in Keys(call.limits) && from <= call.now < to then 1 else 0
  {
    assert (calls + [call])[..|calls|] == calls && (answers + [answer])[..|calls|] == answers;
  }

  lemma {:induction false} AdmittedIsCounted(calls: seq<Call>, window: int, maxKeys: nat, key: Key, from: real, to: real)
    ensures |Bounded(calls, window, maxKeys).1| == |calls|
    ensures Admitted(calls, Bounded(calls, window, maxKeys).1, key, from, to)
            == Count(LogOf(calls, window, maxKeys, key), Within(from, to))
  {
    if calls != [] {
      var init, last := calls[..|calls| - 1], calls[|calls| - 1];
      AdmittedIsCounted(init, window, maxKeys, key, from, to);
      var (t, answers) := Bounded(init, window, maxKeys);
      assert calls == init + [last];
      AdmittedNext(init, answers, last, Consumed(t, last.limits, last.now, window, maxKeys).1, key, from, to);
      CountNext(LogOf(init, window, maxKeys, key),
                Admission(last.now, Current(t.windows, key, last.now, window).start), Within(from, to));
    }
  }

  /**
   On a run that never evicts its running window, a key with a constant positive
   limit is admitted at most `2 * limit - 1` times in any stretch as long as a
   window, whatever happens to the other keys.
   */
  lemma SlidingBound(calls: seq<Call>, window: int, maxKeys: nat, key: Key, limit: nat, from: real)
    requires window > 0 && limit > 0 && Monotone(calls) && ConstantLimit(calls, key, limit)
    requires Remembered(calls, window, maxKeys, key)
    ensures |Bounded(calls, window, maxKeys).1| == |calls|
    ensures Admitted(calls, Bounded(calls, window, maxKeys).1, key, from, from + window as real) <= 2 * limit - 1
  {
    LogIsWindowed(calls, window, maxKeys, key, limit);
    AdmittedIsCounted(calls, window, maxKeys, key, from, from + window as real);
    StretchBound(LogOf(calls, window, maxKeys, key), window, limit, from);
  }

  /** A key whose limit is not positive is never admitted, on any clock and with any evictions. */
  lemma {:induction false} NothingWithoutLimit(calls: seq<Call>, window: int, maxKeys: nat, key: Key, limit: int, from: real, to: real)
    requires limit <= 0 && ConstantLimit(calls, key, limit)
    ensures |Bounded(calls, window, maxKeys).1| == |calls|
    ensures Admitted(calls, Bounded(calls, window, maxKeys).1, key, from, to) == 0
  {
    AdmittedIsCounted(calls, window, maxKeys, key, from, to);
    if calls != [] {
      var init, last := calls[..|calls| - 1], calls[|calls| - 1];
      NothingWithoutLimit(init, window, maxKeys, key, limit, from, to);
      AdmittedIsCounted(init, window, maxKeys, key, from, to);
      if Admits(Bounded(init, window, maxKeys).0.windows, last, window, key) {
        HasRoom(Bounded(init, window, maxKeys).0.windows, last, window, key, limit);
        assert false;
      }
    }
  }

  // ---- the bound is met ----

  /** The table after a run, how often it admits the key in the stretch, and whether it evicts no running window. */
  ghost function Summary(calls: seq<Call>, window: int, maxKeys: nat, key: Key, from: real, to: real): (Table, int, bool) {
    var (t, answers) := Bounded(calls, window, maxKeys);
    (t, if |answers| == |calls| then Admitted(calls, answers, key, from, to) else -1, NoLiveEviction(calls, window, maxKeys))
  }

  /** `calls` name only `key`, leave it in window `w` and admit it `total` times in the stretch. */
  ghost predicate Leaves(calls: seq<Call>, window: int, maxKeys: nat, key: Key, w: Window, from: real, to: real,
                         total: nat)
  {
    Summary(calls, window, maxKeys, key, from, to) == (Table(map[key := w], [key]), total, true)
  }

  /** A call that finds the table empty or with this key alone. */
  ghost predicate AtMostAlone(t: Table, key: Key) {
    t == Table(map[], []) || exists w :: t == Table(map[key := w], [key])
  }

  lemma MovedAlone(order: seq<Key>, key: Key)
    requires order == [] || order == [key]
    ensures MoveToEnd(order, key) == [key]
  {
    if order == [key] {
      assert order[1..] == [] && Without(order[1..], key) == [];
    } else {
      assert Without(order, key) == [];
    }
  }

  lemma SingleTouched(t: Table, key: Key, limit: int, now: real, window: int)
    requires AtMostAlone(t, key)
    ensures var w, limits := Current(t.windows, key, now, window), [Limit(key, limit)];
            && Touched(t, limits, now, window, 1) == Table(map[key := Bump(w)], [key])
            && Counted(t.windows, limits, now, window) == map[key := Bump(w)]
  {
    var w, limits := Current(t.windows, key, now, window), [Limit(key, limit)];
    assert Touched(t, limits, now, window, 0) == t;
    MovedAlone(t.order, key);
    assert t.windows[key := Bump(w)] == map[key := Bump(w)];
    assert Keys(limits) == [key];
  }

  lemma SingleConsumed(t: Table, key: Key, limit: int, now: real, window: int, maxKeys: nat)
    requires AtMostAlone(t, key) && maxKeys > 0 && Current(t.windows, key, now, window).requests < limit
    ensures var w, limits := Current(t.windows, key, now, window), [Limit(key, limit)];
            && Consumed(t, limits, now, window, maxKeys) == (Table(map[key := Bump(w)], [key]), None)
            && EvictsOnlyExpired(t, Call(now, limits), window, maxKeys)
  {
    BlockedIs(t.windows, [Limit(key, limit)], now, window, 0);
    SingleTouched(t, key, limit, now, window);
  }

  lemma SingleNext(calls: seq<Call>, key: Key, limit: nat, window: int, maxKeys: nat, now: real, from: real, to: real)
    requires maxKeys > 0 && NoLiveEviction(calls, window, maxKeys)
    requires var (t, answers) := Bounded(calls, window, maxKeys);
             |answers| == |calls| && AtMostAlone(t, key) && Current(t.windows, key, now, window).requests < limit
    ensures var (t, answers) := Bounded(calls, window, maxKeys);
            var w, all := Current(t.windows, key, now, window), calls + [Call(now, [Limit(key, limit)])];
            Leaves(all, window, maxKeys, key, Bump(w), from, to,
                   Admitted(calls, answers, key, from, to) + if from <= now < to then 1 else 0)
  {
    var call := Call(now, [Limit(key, limit)]);
    var (t, answers) := Bounded(calls, window, maxKeys);
    SingleConsumed(t, key, limit, now, window, maxKeys);
    BoundedNext(calls, call, window, maxKeys);
    assert Keys(call.limits) == [key];
    AdmittedNext(calls, answers, call, None, key, from, to);
    assert (calls + [call])[..|calls|] == calls;
  }

  lemma LeavesNext(calls: seq<Call>, all: seq<Call>, key: Key, limit: nat, window: int, maxKeys: nat, w: Window,
                   w': Window, now: real, from: real, to: real, total: nat, total': nat)
    requires maxKeys > 0 && Leaves(calls, window, maxKeys, key, w, from, to, total)
    requires !Expired(w, now, window) && w.requests < limit && from <= now < to
    requires all == calls + [Call(now, [Limit(key, limit)])] && w' == Bump(w) && total' == total + 1
    ensures Leaves(all, window, maxKeys, key, w', from, to, total')
  {
    SingleNext(calls, key, limit, window, maxKeys, now, from, to);
  }

  /** Calls at one moment are admitted while there is room. */
  lemma {:induction false} TimesAdmitted(calls: seq<Call>, key: Key, limit: nat, window: int, maxKeys: nat, w: Window,
                                         w': Window, now: real, n: nat, from: real, to: real, total: nat, total': nat)
    returns (all: seq<Call>)
    requires maxKeys > 0 && Leaves(calls, window, maxKeys, key, w, from, to, total)
    requires !Expired(w, now, window) && w.requests + n <= limit && from <= now < to
    requires w' == Window(w.start, w.requests + n) && total' == total + n
    ensures all == calls + Times(Call(now, [Limit(key, limit)]), n)
    ensures Leaves(all, window, maxKeys, key, w', from, to, total')
    decreases n
  {
    if n == 0 {
      TimesNext(calls, Call(now, [Limit(key, limit)]), 0);
      all := calls;
    } else {
      var w1, total1 := Window(w.start, w.requests + (n - 1)), total + (n - 1);
      var before := TimesAdmitted(calls, key, limit, window, maxKeys, w, w1, now, n - 1, from, to, total, total1);
      all := calls + Times(Call(now, [Limit(key, limit)]), n);
      TimesNext(calls, Call(now, [Limit(key, limit)]), n);
      LeavesNext(before, all, key, limit, window, maxKeys, w1, w', now, from, to, total1, total');
    }
  }

  lemma TimesNext(calls: seq<Call>, call: Call, n: nat)
    ensures n == 0 ==> calls + Times(call, n) == calls
    ensures n > 0 ==> calls + Times(call, n) == calls + Times(call, n - 1) + [call]
  {
  }

  /** One early call, the rest of its window in the middle of it, then the whole next window at once. */
  function Burst(key: Key, limit: nat, window: int): seq<Call>
    requires limit > 0 && window > 0
  {
    var w := window as real;
    seq(2 * limit, i => Call(if i == 0 then 0.0 else if i < limit then w / 2.0 else w, [Limit(key, limit)]))
  }

  lemma BurstParts(key: Key, limit: nat, window: int)
    requires limit > 0 && window > 0
    ensures var w, limits := window as real, [Limit(key, limit)];
            Burst(key, limit, window)
            == [Call(0.0, limits)] + Times(Call(w / 2.0, limits), limit - 1) + [Call(w, limits)]
               + Times(Call(w, limits), limit - 1)
  {
  }

  function Times(call: Call, n: nat): seq<Call> {
    seq(n, _ => call)
  }

  /** One call before the stretch, then as many as the window still admits. */
  lemma FirstHalf(first: Call, key: Key, limit: nat, window: int, maxKeys: nat, now: real, from: real, to: real)
    requires window > 0 && limit > 0 && maxKeys > 0 && first == Call(0.0, [Limit(key, limit)])
    requires 0.0 < from <= now < to && now < window as real
    ensures Leaves([first] + Times(Call(now, [Limit(key, limit)]), limit - 1), window, maxKeys, key, Window(0.0, limit),
                   from, to, limit - 1)
  {
    SingleNext([], key, limit, window, maxKeys, 0.0, from, to);
    assert [] + [first] == [first];
    var _ := TimesAdmitted([first], key, limit, window, maxKeys, Window(0.0, 1), Window(0.0, limit), now, limit - 1,
                           from, to, 0, limit - 1);
  }

  lemma BurstLeaves(key: Key, limit: nat, window: int, maxKeys: nat, w: real, h: real)
    requires limit > 0 && window > 0 && maxKeys > 0 && w == window as real == h + h
    ensures var limits := [Limit(key, limit)];
            Leaves([Call(0.0, limits)] + Times(Call(h, limits), limit - 1) + [Call(w, limits)]
                   + Times(Call(w, limits), limit - 1),
                   window, maxKeys, key, Window(w, limit), h, h + w, 2 * limit - 1)
  {
    var first := Call(0.0, [Limit(key, limit)]);
    var half := [first] + Times(Call(h, [Limit(key, limit)]), limit - 1);
    FirstHalf(first, key, limit, window, maxKeys, h, h, h + w);
    SecondHalf(half, key, limit, window, maxKeys, w, h, h + w);
  }

  /** The first call after the window has expired. */
  lemma LeavesReopened(calls: seq<Call>, key: Key, limit: nat, window: int, maxKeys: nat, w: Window, now: real,
                       from: real, to: real, total: nat)
    requires maxKeys > 0 && limit > 0 && Leaves(calls, window, maxKeys, key, w, from, to, total)
    requires Expired(w, now, window) && from <= now < to
    ensures Leaves(calls + [Call(now, [Limit(key, limit)])], window, maxKeys, key, Window(now, 1), from, to, total + 1)
  {
    SingleNext(calls, key, limit, window, maxKeys, now, from, to);
  }

  /** The calls that fill a window at the moment it has opened. */
  lemma FillsWindow(start: seq<Call>, key: Key, limit: nat, window: int, maxKeys: nat, now: real, from: real, to: real,
                    total: nat, total': nat)
    requires limit > 0 && window > 0 && maxKeys > 0 && from <= now < to && total' == total + limit - 1
    requires Leaves(start, window, maxKeys, key, Window(now, 1), from, to, total)
    ensures Leaves(start + Times(Call(now, [Limit(key, limit)]), limit - 1), window, maxKeys, key, Window(now, limit),
                   from, to, total')
  {
    var _ := TimesAdmitted(start, key, limit, window, maxKeys, Window(now, 1), Window(now, limit), now, limit - 1,
                           from, to, total, total');
  }

  /** A whole window at one moment, once the window before it has expired. */
  lemma SecondHalf(half: seq<Call>, key: Key, limit: nat, window: int, maxKeys: nat, w: real, from: real, to: real)
    requires limit > 0 && window > 0 && maxKeys > 0 && w == window as real && from <= w < to
    requires Leaves(half, window, maxKeys, key, Window(0.0, limit), from, to, limit - 1)
    ensures var call := Call(w, [Limit(key, limit)]);
            Leaves(half + [call] + Times(call, limit - 1), window, maxKeys, key, Window(w, limit), from, to, 2 * limit - 1)
  {
    LeavesReopened(half, key, limit, window, maxKeys, Window(0.0, limit), w, from, to, limit - 1);
    FillsWindow(half + [Call(w, [Limit(key, limit)])], key, limit, window, maxKeys, w, from, to, limit, 2 * limit - 1);
  }

  lemma BurstShape(key: Key, limit: nat, window: int)
    requires limit > 0 && window > 0
    ensures Monotone(Burst(key, limit, window)) && ConstantLimit(Burst(key, limit, window), key, limit)
  {
  }

  lemma BurstRun(key: Key, limit: nat, window: int, maxKeys: nat)
    requires limit > 0 && window > 0 && maxKeys > 0
    ensures var w := window as real;
            Leaves(Burst(key, limit, window), window, maxKeys, key, Window(w, limit), w / 2.0, w / 2.0 + w, 2 * limit - 1)
  {
    BurstParts(key, limit, window);
    BurstLeaves(key, limit, window, maxKeys, window as real, window as real / 2.0);
  }

  /**
   The bound is met, for every limit, every window length and every table with
   room for one key, by a run that evicts nothing.
   */
  lemma SlidingBoundIsMet(key: Key, limit: nat, window: int, maxKeys: nat)
    requires limit > 0 && window > 0 && maxKeys > 0
    ensures var calls, from := Burst(key, limit, window), window as real / 2.0;
            && Monotone(calls) && ConstantLimit(calls, key, limit)
            && NoLiveEviction(calls, window, maxKeys) && Remembered(calls, window, maxKeys, key)
            && |Bounded(calls, window, maxKeys).1| == |calls|
            && Admitted(calls, Bounded(calls, window, maxKeys).1, key, from, from + window as real) == 2 * limit - 1
  {
    var calls := Burst(key, limit, window);
    BurstShape(key, limit, window);
    BurstRun(key, limit, window, maxKeys);
    AllRemembered(calls, window, maxKeys, key);
  }
}
