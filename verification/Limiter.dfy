/**
 The fixed-window limiter: an ordered table of windows, all-or-nothing
 admission of several keys, eviction of the key admitted longest ago.
 */
module Limiter {
  import opened Options

  type Key = string

  datatype Window = Window(start: real, requests: nat)

  datatype Limit = Limit(key: Key, limit: int)

  type Windows = map<Key, Window>

  /** An `OrderedDict`: the entries, and their keys from first to last. */
  datatype Table = Table(windows: Windows, order: seq<Key>)

  predicate Expired(w: Window, now: real, window: int) {
    now - w.start >= window as real
  }

  /** The window that counts for a key now: a missing or expired one is replaced by a new one. */
  function Current(windows: Windows, key: Key, now: real, window: int): Window {
    if key in windows && !Expired(windows[key], now, window) then windows[key] else Window(now, 0)
  }

  function Ceil(x: real): int {
    -((-x).Floor)
  }

  function Wait(w: Window, now: real, window: int): int {
    var seconds := Ceil(window as real - (now - w.start));
    if seconds < 1 then 1 else seconds
  }

  /** The first limit from position `i` on that is already used up. */
  function Blocked(windows: Windows, limits: seq<Limit>, now: real, window: int, i: nat): (b: Option<nat>)
    requires i <= |limits|
    ensures b.Some? ==> i <= b.value < |limits|
    decreases |limits| - i
  {
    if i == |limits| then None
    else if Current(windows, limits[i].key, now, window).requests >= limits[i].limit then Some(i)
    else Blocked(windows, limits, now, window, i + 1)
  }

  function Bump(w: Window): Window {
    w.(requests := w.requests + 1)
  }

  function Without(keys: seq<Key>, key: Key): seq<Key> {
    if keys == [] then [] else (if keys[0] == key then [] else [keys[0]]) + Without(keys[1..], key)
  }

  function MoveToEnd(keys: seq<Key>, key: Key): seq<Key> {
    Without(keys, key) + [key]
  }

  /** The first `n` limits counted, in order; `before` are the windows at the start of the call. */
  function Touched(t: Table, limits: seq<Limit>, now: real, window: int, n: nat): Table
    requires n <= |limits|
  {
    if n == 0 then t else
    var t' := Touched(t, limits, now, window, n - 1);
    var key := limits[n - 1].key;
    Table(t'.windows[key := Bump(Current(t.windows, key, now, window))], MoveToEnd(t'.order, key))
  }

  function Evicted(t: Table, maxKeys: nat): Table
    decreases |t.order|
  {
    if |t.order| <= maxKeys then t
    else Evicted(Table(t.windows - {t.order[0]}, t.order[1..]), maxKeys)
  }

  /** One call on the table: the new table and, for a refused call, the seconds to wait. */
  function Consumed(t: Table, limits: seq<Limit>, now: real, window: int, maxKeys: nat): (Table, Option<int>) {
    match Blocked(t.windows, limits, now, window, 0)
    case Some(i) => (t, Some(Wait(Current(t.windows, limits[i].key, now, window), now, window)))
    case None => (Evicted(Touched(t, limits, now, window, |limits|), maxKeys), None)
  }

  predicate DistinctKeys(limits: seq<Limit>) {
    forall i, j :: 0 <= i < j < |limits| ==> limits[i].key != limits[j].key
  }

  class FixedWindowRateLimiter {
    const window: int
    const maxKeys: nat
    var windows: Windows
    var order: seq<Key>

    function Contents(): Table
      reads this
    {
      Table(windows, order)
    }

    constructor (window: int, maxKeys: nat)
      ensures this.window == window && this.maxKeys == maxKeys && Contents() == Table(map[], [])
    {
      this.window, this.maxKeys := window, maxKeys;
      windows, order := map[], [];
    }

    method Consume(now: real, limits: seq<Limit>) returns (wait: Option<int>)
      requires DistinctKeys(limits)
      modifies this
      ensures (Contents(), wait) == Consumed(old(Contents()), limits, now, window, maxKeys)
    {
      var active: seq<(Key, Window)> := [];
      var i := 0;
      while i < |limits|
        invariant 0 <= i <= |limits| == |limits| && |active| == i
        invariant Blocked(windows, limits, now, window, 0) == Blocked(windows, limits, now, window, i)
        invariant forall j :: 0 <= j < i ==> active[j] == (limits[j].key, Current(windows, limits[j].key, now, window))
      {
        var key := limits[i].key;
        var w := Window(now, 0);
        if key in windows && !Expired(windows[key], now, window) {
          w := windows[key];
        }
        if w.requests >= limits[i].limit {
          return Some(Wait(w, now, window));
        }
        active := active + [(key, w)];
        i := i + 1;
      }
      i := 0;
      while i < |active|
        invariant 0 <= i <= |active|
        invariant Contents() == Touched(old(Contents()), limits, now, window, i)
      {
        var (key, w) := active[i];
        windows := windows[key := w.(requests := w.requests + 1)];
        order := MoveToEnd(order, key);
        i := i + 1;
      }
      while |order| > maxKeys
        invariant Evicted(Contents(), maxKeys)
               == Evicted(Touched(old(Contents()), limits, now, window, |limits|), maxKeys)
      {
        windows, order := windows - {order[0]}, order[1..];
      }
      wait := None;
    }
  }

  // ---- one call, stated without the loops ----

  /** The keys of a call. */
  function Keys(limits: seq<Limit>): seq<Key> {
    seq(|limits|, i requires 0 <= i < |limits| => limits[i].key)
  }

  /** Every key of the call counted once, every other key left alone. */
  function Counted(windows: Windows, limits: seq<Limit>, now: real, window: int): Windows {
    map key | key in windows.Keys + (set k | k in Keys(limits)) ::
      if key in Keys(limits) then Bump(Current(windows, key, now, window)) else windows[key]
  }

  /** The limiter that never forgets a key. */
  function Unbounded(windows: Windows, limits: seq<Limit>, now: real, window: int): (Windows, Option<int>) {
    match Blocked(windows, limits, now, window, 0)
    case Some(i) => (windows, Some(Wait(Current(windows, limits[i].key, now, window), now, window)))
    case None => (Counted(windows, limits, now, window), None)
  }

  /** The table is an ordered dictionary of at most `maxKeys` entries. */
  ghost predicate WellFormed(t: Table) {
    && (forall i, j :: 0 <= i < j < |t.order| ==> t.order[i] != t.order[j])
    && (forall k :: k in t.order <==> k in t.windows)
  }

  function LastOf(keys: seq<Key>, n: nat): seq<Key> {
    if |keys| <= n then keys else keys[|keys| - n..]
  }

  /** The keys moved to the end, one after the other. */
  function Moved(order: seq<Key>, keys: seq<Key>): seq<Key> {
    if keys == [] then order else MoveToEnd(Moved(order, keys[..|keys| - 1]), keys[|keys| - 1])
  }

  lemma {:induction false} WithoutIs(keys: seq<Key>, key: Key)
    ensures key !in Without(keys, key)
    ensures forall k :: k != key ==> (k in Without(keys, key) <==> k in keys)
    ensures (forall i, j :: 0 <= i < j < |keys| ==> keys[i] != keys[j]) ==>
              forall i, j :: 0 <= i < j < |Without(keys, key)| ==> Without(keys, key)[i] != Without(keys, key)[j]
  {
    if keys != [] {
      WithoutIs(keys[1..], key);
      var rest := Without(keys[1..], key);
      if keys[0] != key {
        assert Without(keys, key) == [keys[0]] + rest;
        if forall i, j :: 0 <= i < j < |keys| ==> keys[i] != keys[j] {
          assert keys[0] !in keys[1..];
          assert keys[0] !in rest;
        }
      } else {
        assert Without(keys, key) == rest;
      }
    }
  }

  /** Setting a key's window and moving it to the end keeps the dictionary well formed. */
  lemma MoveWellFormed(t: Table, key: Key, w: Window)
    requires WellFormed(t)
    ensures WellFormed(Table(t.windows[key := w], MoveToEnd(t.order, key)))
  {
    WithoutIs(t.order, key);
  }

  lemma KeysNext(limits: seq<Limit>, last: Limit)
    ensures Keys(limits + [last]) == Keys(limits) + [last.key]
  {
  }

  lemma MovedNext(order: seq<Key>, keys: seq<Key>, key: Key)
    ensures Moved(order, keys + [key]) == MoveToEnd(Moved(order, keys), key)
  {
    assert (keys + [key])[..|keys|] == keys;
  }

  lemma {:induction false} TouchedWellFormed(t: Table, limits: seq<Limit>, now: real, window: int, n: nat)
    requires n <= |limits| && WellFormed(t)
    ensures WellFormed(Touched(t, limits, now, window, n))
  {
    if n > 0 {
      TouchedWellFormed(t, limits, now, window, n - 1);
      var key := limits[n - 1].key;
      MoveWellFormed(Touched(t, limits, now, window, n - 1), key, Bump(Current(t.windows, key, now, window)));
    }
  }

  lemma {:induction false} TouchedOrder(t: Table, limits: seq<Limit>, now: real, window: int, n: nat)
    requires n <= |limits|
    ensures Touched(t, limits, now, window, n).order == Moved(t.order, Keys(limits[..n]))
  {
    if n == 0 {
      assert Keys(limits[..0]) == [];
    } else {
      TouchedOrder(t, limits, now, window, n - 1);
      KeysNext(limits[..n - 1], limits[n - 1]);
      MovedNext(t.order, Keys(limits[..n - 1]), limits[n - 1].key);
      assert limits[..n] == limits[..n - 1] + [limits[n - 1]];
    }
  }

  lemma {:induction false} TouchedWindows(t: Table, limits: seq<Limit>, now: real, window: int, n: nat)
    requires n <= |limits|
    ensures Touched(t, limits, now, window, n).windows == Counted(t.windows, limits[..n], now, window)
  {
    if n == 0 {
      assert Counted(t.windows, limits[..0], now, window) == t.windows;
    } else {
      TouchedWindows(t, limits, now, window, n - 1);
      CountOne(t.windows, limits[..n - 1], limits[n - 1], now, window);
      assert limits[..n] == limits[..n - 1] + [limits[n - 1]];
    }
  }

  lemma CountOne(windows: Windows, limits: seq<Limit>, last: Limit, now: real, window: int)
    ensures Counted(windows, limits + [last], now, window)
            == Counted(windows, limits, now, window)[last.key := Bump(Current(windows, last.key, now, window))]
  {
    assert Keys(limits + [last]) == Keys(limits) + [last.key];
  }

  function DropFirst(t: Table): Table
    requires t.order != []
  {
    Table(t.windows - {t.order[0]}, t.order[1..])
  }

  lemma DropFirstKeepsOrder(t: Table)
    requires WellFormed(t) && t.order != []
    ensures WellFormed(DropFirst(t)) && t.order[0] !in t.order[1..]
  {
    assert t.order == [t.order[0]] + t.order[1..];
  }

  function Kept(t: Table, maxKeys: nat): Windows {
    map k | k in t.windows && k in LastOf(t.order, maxKeys) :: t.windows[k]
  }

  lemma DropFirstKeeps(t: Table, maxKeys: nat)
    requires WellFormed(t) && |t.order| > maxKeys
    ensures LastOf(DropFirst(t).order, maxKeys) == LastOf(t.order, maxKeys)
    ensures Kept(DropFirst(t), maxKeys) == Kept(t, maxKeys)
  {
    DropFirstKeepsOrder(t);
    var last := LastOf(t.order, maxKeys);
    assert LastOf(t.order[1..], maxKeys) == last;
    assert t.order[0] !in last;
  }

  /** Eviction keeps the last `maxKeys` keys and their windows. */
  lemma {:induction false} EvictedIs(t: Table, maxKeys: nat)
    requires WellFormed(t)
    ensures var r := Evicted(t, maxKeys);
            && WellFormed(r) && r.order == LastOf(t.order, maxKeys) && r.windows == Kept(t, maxKeys)
    decreases |t.order|
  {
    if |t.order| > maxKeys {
      DropFirstKeepsOrder(t);
      DropFirstKeeps(t, maxKeys);
      EvictedIs(DropFirst(t), maxKeys);
    }
  }

  /**
   One call is all or nothing: refused, it changes no key; admitted, every key
   of the call counts one more, every other kept key is as before, and the
   table keeps the `maxKeys` keys admitted last.
   */
  lemma CallIs(t: Table, limits: seq<Limit>, now: real, window: int, maxKeys: nat)
    requires WellFormed(t) && |t.order| <= maxKeys
    ensures var (r, wait) := Consumed(t, limits, now, window, maxKeys);
            && WellFormed(r) && |r.order| <= maxKeys
            && wait == Unbounded(t.windows, limits, now, window).1
            && (wait.Some? ==> r == t)
            && (wait.None? ==> r.order == LastOf(Moved(t.order, Keys(limits)), maxKeys))
            && (wait.None? ==> var all := Unbounded(t.windows, limits, now, window).0;
                               r.windows == map k | k in all && k in r.order :: all[k])
  {
    if Blocked(t.windows, limits, now, window, 0).None? {
      TouchedWellFormed(t, limits, now, window, |limits|);
      TouchedOrder(t, limits, now, window, |limits|);
      TouchedWindows(t, limits, now, window, |limits|);
      assert limits[..|limits|] == limits;
      EvictedIs(Touched(t, limits, now, window, |limits|), maxKeys);
    }
  }

  /**
   A call is refused exactly if one of its keys has used up its limit in its
   current window; the one that is named is the first such key.
   */
  lemma {:induction false} BlockedIs(windows: Windows, limits: seq<Limit>, now: real, window: int, i: nat)
    requires i <= |limits|
    ensures var b := Blocked(windows, limits, now, window, i);
            && (b.None? <==> forall j :: i <= j < |limits| ==>
                               Current(windows, limits[j].key, now, window).requests < limits[j].limit)
            && (b.Some? ==> limits[b.value].limit <= Current(windows, limits[b.value].key, now, window).requests)
            && (b.Some? ==> forall j :: i <= j < b.value ==>
                              Current(windows, limits[j].key, now, window).requests < limits[j].limit)
    decreases |limits| - i
  {
    if i < |limits| {
      BlockedIs(windows, limits, now, window, i + 1);
    }
  }

  predicate ExpiredAfter(w: Window, now: real, seconds: int, window: int) {
    Expired(w, now + seconds as real, window)
  }

  /** The wait is the least positive number of whole seconds after which the window has expired. */
  lemma WaitIsLeast(windows: Windows, key: Key, now: real, window: int)
    ensures var w := Current(windows, key, now, window);
            var wait := Wait(w, now, window);
            && wait >= 1 && ExpiredAfter(w, now, wait, window)
            && forall v :: 1 <= v < wait ==> !ExpiredAfter(w, now, v, window)
  {
    var w := Current(windows, key, now, window);
    var x := window as real - (now - w.start);
    assert (-x).Floor as real <= -x < (-x).Floor as real + 1.0;
    assert Ceil(x) as real >= x > Ceil(x) as real - 1.0;
    forall v | 1 <= v < Wait(w, now, window) ensures !ExpiredAfter(w, now, v, window) {
      assert v <= Ceil(x) - 1 && v as real <= (Ceil(x) - 1) as real;
    }
  }

  /** The wait of a refused call is that of the first key without room: every key before it has some. */
  lemma RefusedByFirst(t: Table, limits: seq<Limit>, now: real, window: int, maxKeys: nat) returns (i: nat)
    requires Consumed(t, limits, now, window, maxKeys).1.Some?
    ensures i < |limits| && limits[i].limit <= Current(t.windows, limits[i].key, now, window).requests
    ensures forall j :: 0 <= j < i ==> Current(t.windows, limits[j].key, now, window).requests < limits[j].limit
    ensures var w, wait := Current(t.windows, limits[i].key, now, window), Consumed(t, limits, now, window, maxKeys).1.value;
            && wait >= 1 && ExpiredAfter(w, now, wait, window)
            && forall v :: 1 <= v < wait ==> !ExpiredAfter(w, now, v, window)
  {
    BlockedIs(t.windows, limits, now, window, 0);
    i := Blocked(t.windows, limits, now, window, 0).value;
    WaitIsLeast(t.windows, limits[i].key, now, window);
  }
}
