/**
 The capped breadth-first search: a queue, a scan budget and a result limit
 compute what the level-by-level listing of the tree determines, whatever the
 server answers.
 */
module Search {
  import opened Options
  import opened Paths
  import opened Sequences

  datatype Entry = Entry(name: string, path: string, isDir: bool)

  /** The answer to the listing request with this number for this folder; `None` is an error. */
  type Server = (nat, string) -> Option<seq<Entry>>

  datatype Outcome =
    | Found(query: string, path: string, entries: seq<Entry>, scanned: nat, truncated: bool)
    | BadQuery | BadLimit | BadDepth | BadPath(why: Refusal) | ListingFailed

  const BUDGET := 2000

  predicate OccursAt(text: string, part: string, i: int) {
    0 <= i <= |text| - |part| && text[i..i + |part|] == part
  }

  predicate Contains(text: string, part: string) {
    exists i :: 0 <= i <= |text| && OccursAt(text, part, i)
  }

  /** Entries whose folded name contains the folded query; `fold` is Python's `str.casefold`. */
  function Matching(query: string, fold: string -> string): Entry -> bool {
    (e: Entry) => Contains(fold(e.name), query)
  }

  // ---- the level-by-level listing ----

  /** What the walk meets, in order: an entry, or a listing that fails. */
  datatype Step = Item(entry: Entry) | Failure

  function Items(entries: seq<Entry>): seq<Step> {
    seq(|entries|, i requires 0 <= i < |entries| => Item(entries[i]))
  }

  function Listed(server: Server, n: nat, folder: string): seq<Step> {
    match server(n, folder)
    case None => [Failure]
    case Some(entries) => Items(entries)
  }

  function Level(server: Server, folders: seq<string>, n: nat): seq<Step> {
    if folders == [] then [] else Listed(server, n, folders[0]) + Level(server, folders[1..], n + 1)
  }

  function Dirs(steps: seq<Step>): seq<string> {
    if steps == [] then []
    else (if steps[0].Item? && steps[0].entry.isDir then [steps[0].entry.path] else []) + Dirs(steps[1..])
  }

  /** The folders of one level, then the folders found in them, down to `levels` further levels. */
  function All(server: Server, folders: seq<string>, n: nat, levels: nat): seq<Step>
    decreases levels
  {
    Level(server, folders, n)
    + if levels == 0 then [] else All(server, Dirs(Level(server, folders, n)), n + |folders|, levels - 1)
  }

  // ---- what the listing determines ----

  /** The entries before the first failure. */
  function Reached(steps: seq<Step>): seq<Entry> {
    if steps == [] || steps[0].Failure? then [] else [steps[0].entry] + Reached(steps[1..])
  }

  predicate Fails(steps: seq<Step>) {
    Failure in steps
  }

  function Filter(entries: seq<Entry>, hit: Entry -> bool): seq<Entry> {
    if entries == [] then []
    else (if hit(entries[0]) then [entries[0]] else []) + Filter(entries[1..], hit)
  }

  function Take<T>(s: seq<T>, n: nat): seq<T> {
    if |s| <= n then s else s[..n]
  }

  /** The number of entries up to and including the one that completes `wanted` matches. */
  function Needed(entries: seq<Entry>, hit: Entry -> bool, wanted: nat): nat {
    if wanted == 0 || entries == [] then 0
    else 1 + Needed(entries[1..], hit, if hit(entries[0]) then wanted - 1 else wanted)
  }

  datatype Verdict = Verdict(failed: bool, entries: seq<Entry>, scanned: nat, truncated: bool)

  /**
   The result as a function of the listing: the first `limit` matches among the
   first `budget` entries; cut short exactly if there are that many matches or
   more entries; failed only if a listing fails before the search can stop.
   */
  function Determined(steps: seq<Step>, hit: Entry -> bool, budget: nat, limit: nat): Verdict {
    var reached := Reached(steps);
    var matches := Filter(Take(reached, budget), hit);
    if |matches| >= limit then
      Verdict(false, matches[..limit], Needed(Take(reached, budget), hit, limit), true)
    else if |reached| > budget then Verdict(false, matches, budget, true)
    else if Fails(steps) then Verdict(true, [], 0, false)
    else Verdict(false, matches, |reached|, false)
  }

  /** The same by one pass over the steps, as the loop makes it. */
  function Scan(steps: seq<Step>, hit: Entry -> bool, limit: nat, scanned: nat,
                results: seq<Entry>): Verdict
    decreases |steps|
  {
    if steps == [] then Verdict(false, results, scanned, false)
    else if steps[0].Failure? then Verdict(true, [], 0, false)
    else if scanned + 1 > BUDGET then Verdict(false, results, BUDGET, true)
    else if !hit(steps[0].entry) then Scan(steps[1..], hit, limit, scanned + 1, results)
    else if |results| + 1 >= limit then Verdict(false, results + [steps[0].entry], scanned + 1, true)
    else Scan(steps[1..], hit, limit, scanned + 1, results + [steps[0].entry])
  }

  function After(scanned: nat, results: seq<Entry>, v: Verdict): Verdict {
    if v.failed then v else Verdict(false, results + v.entries, scanned + v.scanned, v.truncated)
  }

  lemma AfterAfter(scanned: nat, results: seq<Entry>, scanned': nat, results': seq<Entry>, v: Verdict)
    ensures After(scanned, results, After(scanned', results', v)) == After(scanned + scanned', results + results', v)
  {
    assert results + (results' + v.entries) == results + results' + v.entries;
  }

  lemma TakeNext<T>(x: T, rest: seq<T>, n: nat)
    ensures Take([x] + rest, n + 1) == [x] + Take(rest, n)
  {
  }

  /** What one entry in front adds to the matches and to the scan. */
  lemma FrontEntry(e: Entry, rest: seq<Entry>, hit: Entry -> bool, limit: nat)
    requires limit > 0
    ensures Filter([e] + rest, hit) == (if hit(e) then [e] else []) + Filter(rest, hit)
    ensures Needed([e] + rest, hit, limit) == 1 + Needed(rest, hit, if hit(e) then limit - 1 else limit)
  {
    assert ([e] + rest)[1..] == rest;
  }

  lemma TakeMatch(e: Entry, matches: seq<Entry>, limit: nat)
    requires 0 < limit <= |matches| + 1
    ensures ([e] + matches)[..limit] == [e] + matches[..limit - 1]
  {
  }

  /** One more entry in front, if the budget allows it. */
  lemma DeterminedNext(e: Entry, rest: seq<Step>, hit: Entry -> bool, budget: nat, limit: nat)
    requires limit > 0
    ensures Determined([Item(e)] + rest, hit, budget + 1, limit)
            == if !hit(e) then After(1, [], Determined(rest, hit, budget, limit))
               else if limit == 1 then Verdict(false, [e], 1, true)
               else After(1, [e], Determined(rest, hit, budget, limit - 1))
  {
    var steps, reached := [Item(e)] + rest, Reached(rest);
    var taken := Take(reached, budget);
    assert steps[1..] == rest && Reached(steps) == [e] + reached;
    TakeNext(e, reached, budget);
    FrontEntry(e, taken, hit, limit);
    assert Fails(steps) == Fails(rest);
    var matches := Filter(taken, hit);
    if hit(e) && |matches| + 1 >= limit {
      TakeMatch(e, matches, limit);
      assert limit == 1 ==> matches[..0] == [];
    }
    assert forall s: seq<Entry> :: [] + s == s;
  }

  lemma ScanNext(e: Entry, rest: seq<Step>, hit: Entry -> bool, limit: nat, scanned: nat,
                 results: seq<Entry>)
    ensures Scan([Item(e)] + rest, hit, limit, scanned, results)
            == if scanned + 1 > BUDGET then Verdict(false, results, BUDGET, true)
               else if !hit(e) then Scan(rest, hit, limit, scanned + 1, results)
               else if |results| + 1 >= limit then Verdict(false, results + [e], scanned + 1, true)
               else Scan(rest, hit, limit, scanned + 1, results + [e])
  {
    assert ([Item(e)] + rest)[1..] == rest;
  }

  /** The scan ends here: nothing left, a failure, or no budget for another entry. */
  lemma ScanEnds(steps: seq<Step>, hit: Entry -> bool, limit: nat, scanned: nat, results: seq<Entry>)
    requires |results| < limit && scanned <= BUDGET
    requires steps == [] || steps[0].Failure? || scanned == BUDGET
    ensures Scan(steps, hit, limit, scanned, results)
            == After(scanned, results, Determined(steps, hit, BUDGET - scanned, limit - |results|))
  {
    assert Take(Reached(steps), BUDGET - scanned) == [];
    assert results + [] == results;
  }

  /** One entry that does not match, in front of a scan that is as determined. */
  lemma ScanMiss(e: Entry, rest: seq<Step>, hit: Entry -> bool, limit: nat, scanned: nat, results: seq<Entry>)
    requires |results| < limit && scanned < BUDGET && !hit(e)
    requires Scan(rest, hit, limit, scanned + 1, results)
             == After(scanned + 1, results, Determined(rest, hit, BUDGET - scanned - 1, limit - |results|))
    ensures Scan([Item(e)] + rest, hit, limit, scanned, results)
            == After(scanned, results, Determined([Item(e)] + rest, hit, BUDGET - scanned, limit - |results|))
  {
    var left, wanted := BUDGET - scanned - 1, limit - |results|;
    ScanNext(e, rest, hit, limit, scanned, results);
    DeterminedNext(e, rest, hit, left, wanted);
    AfterAfter(scanned, results, 1, [], Determined(rest, hit, left, wanted));
    assert results + [] == results;
  }

  /** One entry that matches and is not the last one wanted. */
  lemma ScanHit(e: Entry, rest: seq<Step>, hit: Entry -> bool, limit: nat, scanned: nat, results: seq<Entry>)
    requires |results| + 1 < limit && scanned < BUDGET && hit(e)
    requires Scan(rest, hit, limit, scanned + 1, results + [e])
             == After(scanned + 1, results + [e], Determined(rest, hit, BUDGET - scanned - 1, limit - |results| - 1))
    ensures Scan([Item(e)] + rest, hit, limit, scanned, results)
            == After(scanned, results, Determined([Item(e)] + rest, hit, BUDGET - scanned, limit - |results|))
  {
    var left, wanted := BUDGET - scanned - 1, limit - |results|;
    ScanNext(e, rest, hit, limit, scanned, results);
    DeterminedNext(e, rest, hit, left, wanted);
    AfterAfter(scanned, results, 1, [e], Determined(rest, hit, left, wanted - 1));
  }

  /** The match that completes the results. */
  lemma ScanLast(e: Entry, rest: seq<Step>, hit: Entry -> bool, limit: nat, scanned: nat, results: seq<Entry>)
    requires |results| + 1 == limit && scanned < BUDGET && hit(e)
    ensures Scan([Item(e)] + rest, hit, limit, scanned, results)
            == After(scanned, results, Determined([Item(e)] + rest, hit, BUDGET - scanned, limit - |results|))
  {
    ScanNext(e, rest, hit, limit, scanned, results);
    DeterminedNext(e, rest, hit, BUDGET - scanned - 1, 1);
  }

  /** The single pass computes what the listing determines. */
  lemma {:induction false} ScanIs(steps: seq<Step>, hit: Entry -> bool, limit: nat, scanned: nat, results: seq<Entry>)
    requires |results| < limit && scanned <= BUDGET
    ensures Scan(steps, hit, limit, scanned, results)
            == After(scanned, results, Determined(steps, hit, BUDGET - scanned, limit - |results|))
    decreases |steps|
  {
    if steps == [] || steps[0].Failure? || scanned == BUDGET {
      ScanEnds(steps, hit, limit, scanned, results);
    } else {
      var e, rest := steps[0].entry, steps[1..];
      assert steps == [Item(e)] + rest;
      if !hit(e) {
        ScanIs(rest, hit, limit, scanned + 1, results);
        ScanMiss(e, rest, hit, limit, scanned, results);
      } else if |results| + 1 < limit {
        ScanIs(rest, hit, limit, scanned + 1, results + [e]);
        ScanHit(e, rest, hit, limit, scanned, results);
      } else {
        ScanLast(e, rest, hit, limit, scanned, results);
      }
    }
  }

  /** The scan stops right at the entry that completes the matches. */
  lemma {:induction false} NeededIs(entries: seq<Entry>, hit: Entry -> bool, wanted: nat)
    requires 0 < wanted <= |Filter(entries, hit)|
    ensures var n := Needed(entries, hit, wanted);
            && 0 < n <= |entries| && hit(entries[n - 1])
            && Filter(entries[..n], hit) == Filter(entries, hit)[..wanted]
  {
    var n := Needed(entries, hit, wanted);
    var rest := if hit(entries[0]) then wanted - 1 else wanted;
    if rest > 0 {
      NeededIs(entries[1..], hit, rest);
    }
    assert entries[..n][1..] == entries[1..][..n - 1];
  }

  lemma {:induction false} ReachedIs(steps: seq<Step>, e: Entry)
    requires !Fails(steps)
    ensures e in Reached(steps) <==> Item(e) in steps
  {
    if steps != [] {
      assert steps == [steps[0]] + steps[1..];
      assert steps[0].Item?;
      ReachedIs(steps[1..], e);
    }
  }

  lemma {:induction false} FilterIs(entries: seq<Entry>, hit: Entry -> bool, e: Entry)
    ensures e in Filter(entries, hit) <==> e in entries && hit(e)
  {
    if entries != [] {
      FilterIs(entries[1..], hit, e);
    }
  }

  /** A search that is neither failed nor truncated met no failure and missed no match anywhere in the tree. */
  lemma UncutIsComplete(steps: seq<Step>, hit: Entry -> bool, budget: nat, limit: nat, e: Entry)
    requires var v := Determined(steps, hit, budget, limit); !v.failed && !v.truncated
    ensures !Fails(steps)
    ensures e in Determined(steps, hit, budget, limit).entries <==> Item(e) in steps && hit(e)
  {
    ReachedIs(steps, e);
    FilterIs(Reached(steps), hit, e);
  }

  // ---- what the listing is, on a tree that holds still ----

  type Tree = string -> seq<Entry>

  /** The server answers from the tree and never fails. */
  ghost predicate Serves(server: Server, tree: Tree) {
    forall n: nat, folder: string :: server(n, folder) == Some(tree(folder))
  }

  /** The entry lies in the folder or in a folder at most `levels` steps below it. */
  ghost predicate Reachable(tree: Tree, folder: string, e: Entry, levels: nat)
    decreases levels
  {
    e in tree(folder) || (levels > 0 && exists d :: d in tree(folder) && d.isDir && Reachable(tree, d.path, e, levels - 1))
  }

  ghost predicate ListedIn(tree: Tree, folders: seq<string>, e: Entry) {
    exists f :: f in folders && e in tree(f)
  }

  lemma {:induction false} LevelIs(server: Server, tree: Tree, folders: seq<string>, n: nat, e: Entry)
    requires Serves(server, tree)
    ensures Item(e) in Level(server, folders, n) <==> ListedIn(tree, folders, e)
    ensures Failure !in Level(server, folders, n)
  {
    if folders != [] {
      LevelIs(server, tree, folders[1..], n + 1, e);
      var head := Items(tree(folders[0]));
      assert server(n, folders[0]) == Some(tree(folders[0]));
      assert Item(e) in head <==> e in tree(folders[0]) by {
        if e in tree(folders[0]) {
          var i :| 0 <= i < |tree(folders[0])| && tree(folders[0])[i] == e;
          assert head[i] == Item(e);
        }
      }
      assert folders == [folders[0]] + folders[1..];
    }
  }

  lemma {:induction false} DirsIs(steps: seq<Step>, path: string)
    ensures path in Dirs(steps) <==> exists d :: Item(d) in steps && d.isDir && d.path == path
  {
    if steps != [] {
      DirsIs(steps[1..], path);
      assert steps == [steps[0]] + steps[1..];
      if steps[0].Item? && steps[0].entry.isDir && steps[0].entry.path == path {
        assert Item(steps[0].entry) in steps;
      }
    }
  }

  /** The folders of the next level are those listed in this one. */
  lemma NextFoldersAre(server: Server, tree: Tree, folders: seq<string>, n: nat, path: string)
    requires Serves(server, tree)
    ensures path in Dirs(Level(server, folders, n))
            <==> exists f, d :: f in folders && d in tree(f) && d.isDir && d.path == path
  {
    DirsIs(Level(server, folders, n), path);
    forall d: Entry ensures Item(d) in Level(server, folders, n) <==> ListedIn(tree, folders, d) {
      LevelIs(server, tree, folders, n, d);
    }
  }

  /** Some folder listed in one of these leads to the entry. */
  ghost predicate ReachableBelow(tree: Tree, folders: seq<string>, e: Entry, levels: nat) {
    exists f, d :: f in folders && d in tree(f) && d.isDir && Reachable(tree, d.path, e, levels)
  }

  ghost predicate ReachableFrom(tree: Tree, folders: seq<string>, e: Entry, levels: nat) {
    exists f :: f in folders && Reachable(tree, f, e, levels)
  }

  lemma ReachableStep(tree: Tree, folders: seq<string>, e: Entry, levels: nat)
    requires levels > 0
    ensures ReachableFrom(tree, folders, e, levels)
            <==> ListedIn(tree, folders, e) || ReachableBelow(tree, folders, e, levels - 1)
  {
    if f, d :| f in folders && d in tree(f) && d.isDir && Reachable(tree, d.path, e, levels - 1) {
      assert Reachable(tree, f, e, levels);
    }
  }

  lemma NextFoldersReach(server: Server, tree: Tree, folders: seq<string>, n: nat, e: Entry, levels: nat)
    requires Serves(server, tree)
    ensures ReachableFrom(tree, Dirs(Level(server, folders, n)), e, levels) <==> ReachableBelow(tree, folders, e, levels)
  {
    var below := Dirs(Level(server, folders, n));
    if path :| path in below && Reachable(tree, path, e, levels) {
      NextFoldersAre(server, tree, folders, n, path);
    }
    if f, d :| f in folders && d in tree(f) && d.isDir && Reachable(tree, d.path, e, levels) {
      NextFoldersAre(server, tree, folders, n, d.path);
      assert d.path in below;
    }
  }

  predicate Lists(steps: seq<Step>, e: Entry) {
    Item(e) in steps
  }

  lemma ListsConcat(a: seq<Step>, b: seq<Step>, e: Entry)
    ensures Lists(a + b, e) <==> Lists(a, e) || Lists(b, e)
  {
  }

  lemma LevelLists(server: Server, tree: Tree, folders: seq<string>, n: nat, e: Entry)
    requires Serves(server, tree)
    ensures Lists(Level(server, folders, n), e) <==> ListedIn(tree, folders, e)
  {
    LevelIs(server, tree, folders, n, e);
  }

  lemma ReachableHere(tree: Tree, folders: seq<string>, e: Entry)
    ensures ReachableFrom(tree, folders, e, 0) <==> ListedIn(tree, folders, e)
  {
    if f :| f in folders && e in tree(f) {
      assert Reachable(tree, f, e, 0);
    }
  }

  lemma AllUnfolds(server: Server, folders: seq<string>, n: nat, levels: nat)
    requires levels > 0
    ensures All(server, folders, n, levels)
            == Level(server, folders, n) + All(server, Dirs(Level(server, folders, n)), n + |folders|, levels - 1)
  {
  }

  lemma AllEnds(server: Server, folders: seq<string>, n: nat)
    ensures All(server, folders, n, 0) == Level(server, folders, n)
  {
  }

  lemma Combine(tree: Tree, folders: seq<string>, dirs: seq<string>, here: seq<Step>, rest: seq<Step>, e: Entry,
                levels: nat)
    requires levels > 0
    requires Lists(here, e) <==> ListedIn(tree, folders, e)
    requires Lists(rest, e) <==> ReachableFrom(tree, dirs, e, levels - 1)
    requires ReachableFrom(tree, dirs, e, levels - 1) <==> ReachableBelow(tree, folders, e, levels - 1)
    ensures Lists(here + rest, e) <==> ReachableFrom(tree, folders, e, levels)
  {
    ListsConcat(here, rest, e);
    ReachableStep(tree, folders, e, levels);
  }

  lemma AllLists(server: Server, folders: seq<string>, n: nat, levels: nat, e: Entry, yes: bool)
    requires levels > 0
    requires Lists(Level(server, folders, n) + All(server, Dirs(Level(server, folders, n)), n + |folders|, levels - 1), e) == yes
    ensures Lists(All(server, folders, n, levels), e) == yes
  {
    AllUnfolds(server, folders, n, levels);
  }

  /** The listing holds exactly the entries within reach of one of the folders. */
  lemma {:induction false} AllIsReachable(server: Server, tree: Tree, folders: seq<string>, n: nat, levels: nat, e: Entry)
    requires Serves(server, tree)
    ensures Lists(All(server, folders, n, levels), e) <==> ReachableFrom(tree, folders, e, levels)
    decreases levels
  {
    LevelLists(server, tree, folders, n, e);
    if levels == 0 {
      AllEnds(server, folders, n);
      ReachableHere(tree, folders, e);
    } else {
      var here := Level(server, folders, n);
      AllIsReachable(server, tree, Dirs(here), n + |folders|, levels - 1, e);
      NextFoldersReach(server, tree, folders, n, e, levels - 1);
      Combine(tree, folders, Dirs(here), here, All(server, Dirs(here), n + |folders|, levels - 1), e, levels);
      AllLists(server, folders, n, levels, e, ReachableFrom(tree, folders, e, levels));
    }
  }

  lemma FailsConcat(a: seq<Step>, b: seq<Step>)
    ensures Fails(a + b) <==> Fails(a) || Fails(b)
  {
  }

  lemma LevelNeverFails(server: Server, tree: Tree, folders: seq<string>, n: nat)
    requires Serves(server, tree)
    ensures !Fails(Level(server, folders, n))
  {
    LevelIs(server, tree, folders, n, Entry("", "", false));
  }

  lemma AllFails(server: Server, folders: seq<string>, n: nat, levels: nat, dirs: seq<string>)
    requires levels > 0 && dirs == Dirs(Level(server, folders, n))
    requires !Fails(Level(server, folders, n)) && !Fails(All(server, dirs, n + |folders|, levels - 1))
    ensures !Fails(All(server, folders, n, levels))
  {
    AllUnfolds(server, folders, n, levels);
    FailsConcat(Level(server, folders, n), All(server, dirs, n + |folders|, levels - 1));
  }

  lemma {:induction false} AllNeverFails(server: Server, tree: Tree, folders: seq<string>, n: nat, levels: nat)
    requires Serves(server, tree)
    ensures !Fails(All(server, folders, n, levels))
    decreases levels
  {
    LevelNeverFails(server, tree, folders, n);
    if levels == 0 {
      AllEnds(server, folders, n);
    } else {
      var dirs := Dirs(Level(server, folders, n));
      AllNeverFails(server, tree, dirs, n + |folders|, levels - 1);
      AllFails(server, folders, n, levels, dirs);
    }
  }

  /** On a tree that holds still, an uncut search returns exactly the matches within reach of the start. */
  lemma UncutFindsReachable(server: Server, tree: Tree, start: string, levels: nat, hit: Entry -> bool, limit: nat, e: Entry)
    requires Serves(server, tree) && limit > 0
    ensures var v := Determined(All(server, [start], 0, levels), hit, BUDGET, limit);
            && !v.failed
            && (!v.truncated ==> (e in v.entries <==> hit(e) && Reachable(tree, start, e, levels)))
  {
    var all := All(server, [start], 0, levels);
    AllNeverFails(server, tree, [start], 0, levels);
    if !Determined(all, hit, BUDGET, limit).truncated {
      UncutIsComplete(all, hit, BUDGET, limit, e);
      AllIsReachable(server, tree, [start], 0, levels, e);
      assert Lists(all, e) <==> Reachable(tree, start, e, levels) by {
        assert start in [start];
      }
    }
  }

  // ---- the search ----

  function Tag(folders: seq<string>, depth: nat): seq<(string, nat)> {
    seq(|folders|, i requires 0 <= i < |folders| => (folders[i], depth))
  }

  /** What is still to come: the rest of a listing, then the rest of its level, then the levels below. */
  ghost function Remaining(server: Server, items: seq<Entry>, level: seq<string>, below: seq<string>, n: nat,
                           levels: nat): seq<Step>
  {
    var here := Items(items) + Level(server, level, n);
    here + if levels == 0 then [] else All(server, below + Dirs(here), n + |level|, levels - 1)
  }

  lemma StartRemaining(server: Server, start: string, levels: nat)
    ensures Remaining(server, [], [start], [], 0, levels) == All(server, [start], 0, levels)
  {
    var here := Level(server, [start], 0);
    assert Items([]) + here == here && [] + Dirs(here) == Dirs(here);
  }

  lemma NextLevel(server: Server, below: seq<string>, n: nat, levels: nat)
    requires levels > 0
    ensures Remaining(server, [], [], below, n, levels) == Remaining(server, [], below, [], n, levels - 1)
  {
    var here := Level(server, below, n);
    assert Items([]) + here == here && [] + Dirs(here) == Dirs(here);
    assert Items([]) + [] == [] && below + Dirs([]) == below;
    assert [] + All(server, below, n, levels - 1) == All(server, below, n, levels - 1);
  }

  lemma NextFolder(server: Server, level: seq<string>, below: seq<string>, n: nat, levels: nat)
    requires level != []
    ensures server(n, level[0]).Some? ==>
              Remaining(server, [], level, below, n, levels)
              == Remaining(server, server(n, level[0]).value, level[1..], below, n + 1, levels)
    ensures server(n, level[0]).None? ==>
              var r := Remaining(server, [], level, below, n, levels); r != [] && r[0] == Failure
  {
    var here := Level(server, level, n);
    assert Items([]) + here == here;
  }

  lemma DirsNext(e: Entry, rest: seq<Step>, below: seq<string>)
    ensures below + Dirs([Item(e)] + rest) == (if e.isDir then below + [e.path] else below) + Dirs(rest)
  {
    assert ([Item(e)] + rest)[1..] == rest;
    assert below + ([e.path] + Dirs(rest)) == below + [e.path] + Dirs(rest);
  }

  lemma ItemsNext(items: seq<Entry>)
    requires items != []
    ensures Items(items) == [Item(items[0])] + Items(items[1..])
  {
  }

  lemma NextItem(server: Server, items: seq<Entry>, level: seq<string>, below: seq<string>, n: nat, levels: nat)
    requires items != []
    ensures Remaining(server, items, level, below, n, levels)
            == [Item(items[0])] + Remaining(server, items[1..], level,
                 if items[0].isDir && levels > 0 then below + [items[0].path] else below, n, levels)
  {
    var e, rest := items[0], Items(items[1..]) + Level(server, level, n);
    ItemsNext(items);
    Assoc([Item(e)], Items(items[1..]), Level(server, level, n));
    if levels > 0 {
      DirsNext(e, rest, below);
      Assoc([Item(e)], rest, All(server, below + Dirs([Item(e)] + rest), n + |level|, levels - 1));
    } else {
      Assoc([Item(e)], rest, []);
    }
  }

  lemma {:induction false} NothingLeft(server: Server, n: nat, levels: nat)
    ensures All(server, [], n, levels) == [] && Remaining(server, [], [], [], n, levels) == []
  {
    if levels > 0 {
      NothingLeft(server, n, levels - 1);
    }
  }

  lemma ScanIsDetermined(steps: seq<Step>, hit: Entry -> bool, limit: nat)
    requires limit > 0
    ensures Scan(steps, hit, limit, 0, []) == Determined(steps, hit, BUDGET, limit)
  {
    ScanIs(steps, hit, limit, 0, []);
    var v := Determined(steps, hit, BUDGET, limit);
    assert [] + v.entries == v.entries;
  }

  // ---- the loop ----

  /** What the loop still has to find leads to the verdict. */
  ghost predicate LeadsTo(v: Verdict, server: Server, hit: Entry -> bool, limit: nat, items: seq<Entry>,
                          level: seq<string>, below: seq<string>, calls: nat, depth: nat, maxDepth: nat, scanned: nat,
                          results: seq<Entry>)
  {
    depth <= maxDepth
    && v == Scan(Remaining(server, items, level, below, calls, maxDepth - depth), hit, limit, scanned, results)
  }

  /** The queue holds the rest of a level, then what was found below it. */
  ghost predicate Queued(queue: seq<(string, nat)>, level: seq<string>, below: seq<string>, depth: nat, maxDepth: nat) {
    queue == Tag(level, depth) + Tag(below, depth + 1) && (depth >= maxDepth ==> below == [])
  }

  lemma Descend(queue: seq<(string, nat)>, below: seq<string>, depth: nat, maxDepth: nat)
    requires Queued(queue, [], below, depth, maxDepth) && queue != []
    ensures depth < maxDepth && Queued(queue, below, [], depth + 1, maxDepth) && below != []
  {
    assert Tag([], depth) + Tag(below, depth + 1) == Tag(below, depth + 1) + Tag([], depth + 2);
  }

  lemma Pop(queue: seq<(string, nat)>, level: seq<string>, below: seq<string>, depth: nat, maxDepth: nat)
    requires Queued(queue, level, below, depth, maxDepth) && level != []
    ensures queue != [] && queue[0] == (level[0], depth) && Queued(queue[1..], level[1..], below, depth, maxDepth)
  {
    assert Tag(level, depth)[1..] == Tag(level[1..], depth);
  }

  lemma Push(queue: seq<(string, nat)>, level: seq<string>, below: seq<string>, depth: nat, maxDepth: nat, path: string)
    requires Queued(queue, level, below, depth, maxDepth) && depth < maxDepth
    ensures Queued(queue + [(path, depth + 1)], level, below + [path], depth, maxDepth)
  {
    assert Tag(below + [path], depth + 1) == Tag(below, depth + 1) + [(path, depth + 1)];
  }

  lemma StartQueued(start: string, maxDepth: nat)
    ensures Queued([(start, 0)], [start], [], 0, maxDepth)
  {
    assert Tag([start], 0) + Tag([], 1) == [(start, 0)];
  }

  lemma NothingQueued(level: seq<string>, below: seq<string>, depth: nat, maxDepth: nat)
    requires Queued([], level, below, depth, maxDepth)
    ensures level == [] && below == []
  {
    assert |Tag(level, depth) + Tag(below, depth + 1)| == |level| + |below|;
  }

  lemma DescendLeads(v: Verdict, server: Server, hit: Entry -> bool, limit: nat, below: seq<string>, calls: nat,
                     depth: nat, maxDepth: nat, scanned: nat, results: seq<Entry>)
    requires depth < maxDepth && LeadsTo(v, server, hit, limit, [], [], below, calls, depth, maxDepth, scanned, results)
    ensures LeadsTo(v, server, hit, limit, [], below, [], calls, depth + 1, maxDepth, scanned, results)
  {
    NextLevel(server, below, calls, maxDepth - depth);
  }

  lemma FailureFails(steps: seq<Step>, hit: Entry -> bool, limit: nat, scanned: nat, results: seq<Entry>)
    requires steps != [] && steps[0] == Failure
    ensures Scan(steps, hit, limit, scanned, results).failed
  {
  }

  lemma FolderLeads(v: Verdict, server: Server, hit: Entry -> bool, limit: nat, level: seq<string>,
                    below: seq<string>, calls: nat, depth: nat, maxDepth: nat, scanned: nat, results: seq<Entry>)
    requires level != [] && LeadsTo(v, server, hit, limit, [], level, below, calls, depth, maxDepth, scanned, results)
    ensures server(calls, level[0]).None? ==> v.failed
    ensures server(calls, level[0]).Some? ==>
              LeadsTo(v, server, hit, limit, server(calls, level[0]).value, level[1..], below, calls + 1, depth, maxDepth,
                      scanned, results)
  {
    var levels := maxDepth - depth;
    NextFolder(server, level, below, calls, levels);
    if server(calls, level[0]).None? {
      FailureFails(Remaining(server, [], level, below, calls, levels), hit, limit, scanned, results);
    }
  }

  /** The next entry ends the search: no budget for it, or it completes the results. */
  lemma ItemStops(v: Verdict, server: Server, hit: Entry -> bool, limit: nat, items: seq<Entry>, i: nat,
                  level: seq<string>, below: seq<string>, calls: nat, depth: nat, maxDepth: nat, scanned: nat,
                  results: seq<Entry>)
    requires i < |items|
    requires LeadsTo(v, server, hit, limit, items[i..], level, below, calls, depth, maxDepth, scanned, results)
    ensures scanned + 1 > BUDGET ==> v == Verdict(false, results, BUDGET, true)
    ensures scanned + 1 <= BUDGET && hit(items[i]) && |results| + 1 >= limit ==>
              v == Verdict(false, results + [items[i]], scanned + 1, true)
  {
    NextItem(server, items[i..], level, below, calls, maxDepth - depth);
    var e := items[i];
    ScanNext(e, Remaining(server, items[i..][1..], level, if e.isDir && depth < maxDepth then below + [e.path] else below,
                          calls, maxDepth - depth), hit, limit, scanned, results);
  }

  /** Any other entry leads on, with `results'` and `below'` as the loop updates them. */
  lemma ItemLeads(v: Verdict, server: Server, hit: Entry -> bool, limit: nat, items: seq<Entry>, i: nat,
                  level: seq<string>, below: seq<string>, below': seq<string>, calls: nat, depth: nat, maxDepth: nat,
                  scanned: nat, results: seq<Entry>, results': seq<Entry>)
    requires i < |items| && scanned + 1 <= BUDGET && |results'| < limit
    requires LeadsTo(v, server, hit, limit, items[i..], level, below, calls, depth, maxDepth, scanned, results)
    requires results' == if hit(items[i]) then results + [items[i]] else results
    requires below' == if items[i].isDir && depth < maxDepth then below + [items[i].path] else below
    ensures LeadsTo(v, server, hit, limit, items[i + 1..], level, below', calls, depth, maxDepth, scanned + 1, results')
  {
    NextItem(server, items[i..], level, below, calls, maxDepth - depth);
    assert items[i..][1..] == items[i + 1..];
    ScanNext(items[i], Remaining(server, items[i + 1..], level, below', calls, maxDepth - depth), hit, limit, scanned,
             results);
  }

  lemma EndLeads(v: Verdict, server: Server, hit: Entry -> bool, limit: nat, level: seq<string>, below: seq<string>,
                 calls: nat, depth: nat, maxDepth: nat, scanned: nat, results: seq<Entry>)
    requires Queued([], level, below, depth, maxDepth)
    requires LeadsTo(v, server, hit, limit, [], level, below, calls, depth, maxDepth, scanned, results)
    ensures v == Verdict(false, results, scanned, false)
  {
    NothingQueued(level, below, depth, maxDepth);
    NothingLeft(server, calls, maxDepth - depth);
  }

  /** The loop over one listing; a search that stops early empties the queue. */
  method ScanListing(items: seq<Entry>, depth: nat, maxDepth: nat, hit: Entry -> bool, maxResults: nat,
                     before: seq<(string, nat)>, results0: seq<Entry>, scanned0: nat,
                     ghost v: Verdict, ghost server: Server, ghost level: seq<string>, ghost below0: seq<string>,
                     ghost calls: nat)
    returns (queue: seq<(string, nat)>, results: seq<Entry>, scanned: nat, truncated: bool, ghost below: seq<string>)
    requires scanned0 <= BUDGET && |results0| < maxResults
    requires Queued(before, level, below0, depth, maxDepth)
    requires LeadsTo(v, server, hit, maxResults, items, level, below0, calls, depth, maxDepth, scanned0, results0)
    ensures truncated ==> queue == [] && v == Verdict(false, results, if scanned < BUDGET then scanned else BUDGET, true)
    ensures truncated ==> scanned > BUDGET || |results| >= maxResults
    ensures !truncated ==> scanned == scanned0 + |items| <= BUDGET && |results| < maxResults
    ensures !truncated && items == [] ==> queue == before
    ensures !truncated ==> Queued(queue, level, below, depth, maxDepth)
    ensures !truncated ==> LeadsTo(v, server, hit, maxResults, [], level, below, calls, depth, maxDepth, scanned, results)
  {
    hide LeadsTo, Queued;
    queue, results, scanned, truncated, below := before, results0, scanned0, false, below0;
    var i := 0;
    assert items[0..] == items;
    while i < |items|
      invariant 0 <= i <= |items| && scanned == scanned0 + i <= BUDGET && |results| < maxResults
      invariant !truncated && (i == 0 ==> queue == before)
      invariant Queued(queue, level, below, depth, maxDepth)
      invariant LeadsTo(v, server, hit, maxResults, items[i..], level, below, calls, depth, maxDepth, scanned, results)
    {
      ItemStops(v, server, hit, maxResults, items, i, level, below, calls, depth, maxDepth, scanned, results);
      ghost var results', below' := results, below;
      scanned := scanned + 1;
      if scanned > BUDGET {
        truncated := true;
        queue := [];
        return;
      }
      if hit(items[i]) {
        results := results + [items[i]];
        if |results| >= maxResults {
          truncated := true;
          queue := [];
          return;
        }
      }
      if items[i].isDir && depth < maxDepth {
        Push(queue, level, below, depth, maxDepth, items[i].path);
        queue := queue + [(items[i].path, depth + 1)];
        below := below + [items[i].path];
      }
      ItemLeads(v, server, hit, maxResults, items, i, level, below', below, calls, depth, maxDepth, scanned - 1, results',
                results);
      i := i + 1;
    }
    assert items[i..] == [];
  }

  /** The loop over the queue. */
  method Walk(server: Server, hit: Entry -> bool, start: string, maxResults: nat, maxDepth: nat, ghost v: Verdict)
    returns (ok: bool, results: seq<Entry>, scanned: nat, truncated: bool)
    requires maxResults > 0 && LeadsTo(v, server, hit, maxResults, [], [start], [], 0, 0, maxDepth, 0, [])
    ensures if ok then v == Verdict(false, results, if scanned < BUDGET then scanned else BUDGET, truncated) else v.failed
  {
    hide LeadsTo, Queued;
    ghost var level, below, at: nat := [start], [], 0;
    var queue: seq<(string, nat)> := [(start, 0)];
    var calls := 0;
    StartQueued(start, maxDepth);
    ok, results, scanned, truncated := true, [], 0, false;
    while queue != []
      invariant ok && !truncated && scanned <= BUDGET && |results| < maxResults
      invariant Queued(queue, level, below, at, maxDepth)
      invariant LeadsTo(v, server, hit, maxResults, [], level, below, calls, at, maxDepth, scanned, results)
      decreases BUDGET - scanned, |queue|
    {
      if level == [] {
        Descend(queue, below, at, maxDepth);
        DescendLeads(v, server, hit, maxResults, below, calls, at, maxDepth, scanned, results);
        level, below, at := below, [], at + 1;
      }
      Pop(queue, level, below, at, maxDepth);
      var (folder, depth) := queue[0];
      queue := queue[1..];
      var listing := server(calls, folder);
      FolderLeads(v, server, hit, maxResults, level, below, calls, at, maxDepth, scanned, results);
      if listing.None? {
        ok := false;
        return;
      }
      calls, level := calls + 1, level[1..];
      queue, results, scanned, truncated, below :=
        ScanListing(listing.value, depth, maxDepth, hit, maxResults, queue, results, scanned, v, server, level, below, calls);
      if truncated && (scanned > BUDGET || |results| >= maxResults) {
        return;
      }
    }
    EndLeads(v, server, hit, maxResults, level, below, calls, at, maxDepth, scanned, results);
  }

  /** What the search promises for any server, even one whose folders contain each other. */
  ghost function Specified(server: Server, fold: string -> string, query: string, path: string, maxResults: int,
                           maxDepth: int): Outcome
  {
    var normalized := fold(Strip(query));
    var start := if Strip(path) == "" then Ok("") else NormalizeRelativePath(path);
    if normalized == "" || |normalized| > 256 then BadQuery
    else if !(1 <= maxResults <= 100) then BadLimit
    else if !(0 <= maxDepth <= 10) then BadDepth
    else if start.Refused? then BadPath(start.why)
    else
      var v := Determined(All(server, [start.path], 0, maxDepth), Matching(normalized, fold), BUDGET, maxResults);
      if v.failed then ListingFailed else Found(Strip(query), start.path, v.entries, v.scanned, v.truncated)
  }

  /** `Contains` in words: the part is a slice of the text. */
  lemma ContainsIs(text: string, part: string)
    ensures Contains(text, part) <==> exists i, j :: 0 <= i <= j <= |text| && j == i + |part| && text[i..j] == part
  {
    if Contains(text, part) {
      var i :| 0 <= i <= |text| && OccursAt(text, part, i);
      var j := i + |part|;
      assert text[i..j] == part;
    }
    if i, j :| 0 <= i <= j <= |text| && j == i + |part| && text[i..j] == part {
      assert OccursAt(text, part, i);
    }
  }

  lemma {:induction false} NeededLength(entries: seq<Entry>, hit: Entry -> bool, wanted: nat)
    ensures Needed(entries, hit, wanted) <= |entries|
  {
    if wanted > 0 && entries != [] {
      NeededLength(entries[1..], hit, if hit(entries[0]) then wanted - 1 else wanted);
    }
  }

  /** What is found is met and matches, within both limits, one of which a truncated search has reached. */
  lemma DeterminedFound(steps: seq<Step>, hit: Entry -> bool, limit: nat, e: Entry)
    requires limit > 0 && !Determined(steps, hit, BUDGET, limit).failed
    ensures var v := Determined(steps, hit, BUDGET, limit);
            && |v.entries| <= limit && v.scanned <= BUDGET
            && (v.truncated ==> v.scanned == BUDGET || |v.entries| == limit)
            && (e in v.entries ==> hit(e))
  {
    var taken := Take(Reached(steps), BUDGET);
    FilterIs(taken, hit, e);
    NeededLength(taken, hit, limit);
  }

  /** The entry that the loop asks about: the folded name holds the folded query. */
  ghost predicate Named(fold: string -> string, e: Entry, query: string) {
    exists i, j :: 0 <= i <= j <= |fold(e.name)| && j == i + |query| && fold(e.name)[i..j] == query
  }

  lemma FoundAreNamed(server: Server, fold: string -> string, query: string, path: string, maxResults: int, maxDepth: int,
                      e: Entry)
    requires Specified(server, fold, query, path, maxResults, maxDepth).Found?
    ensures var r := Specified(server, fold, query, path, maxResults, maxDepth);
            && |r.entries| <= maxResults && r.scanned <= 2000
            && (r.truncated ==> r.scanned == 2000 || |r.entries| == maxResults)
            && (e in r.entries ==> Named(fold, e, fold(Strip(query))))
  {
    var r, q := Specified(server, fold, query, path, maxResults, maxDepth), fold(Strip(query));
    DeterminedFound(All(server, [r.path], 0, maxDepth), Matching(q, fold), maxResults, e);
    ContainsIs(fold(e.name), q);
  }

  lemma UncutFindsNamed(server: Server, fold: string -> string, query: string, path: string, maxResults: int,
                        maxDepth: int, tree: Tree, e: Entry)
    requires Specified(server, fold, query, path, maxResults, maxDepth).Found? && Serves(server, tree)
    requires !Specified(server, fold, query, path, maxResults, maxDepth).truncated
    ensures var r := Specified(server, fold, query, path, maxResults, maxDepth);
            e in r.entries <==> Named(fold, e, fold(Strip(query))) && Reachable(tree, r.path, e, maxDepth)
  {
    var r, q := Specified(server, fold, query, path, maxResults, maxDepth), fold(Strip(query));
    UncutFindsReachable(server, tree, r.path, maxDepth, Matching(q, fold), maxResults, e);
    ContainsIs(fold(e.name), q);
  }

  /**
   Every entry found has the folded query as a slice of its folded name; on a
   tree that holds still, a search that is not truncated finds all of those
   within reach.
   */
  method SearchFiles(server: Server, fold: string -> string, query: string, path: string, maxResults: int, maxDepth: int)
    returns (r: Outcome)
    ensures r == Specified(server, fold, query, path, maxResults, maxDepth)
    ensures r == BadQuery <==> !(1 <= |fold(Strip(query))| <= 256)
    ensures r == BadLimit <==> 1 <= |fold(Strip(query))| <= 256 && !(1 <= maxResults <= 100)
    ensures r == BadDepth <==> 1 <= |fold(Strip(query))| <= 256 && 1 <= maxResults <= 100 && !(0 <= maxDepth <= 10)
    ensures r.BadPath? <==>
            && 1 <= |fold(Strip(query))| <= 256 && 1 <= maxResults <= 100 && 0 <= maxDepth <= 10
            && Strip(path) != "" && NormalizeRelativePath(path).Refused?
    ensures r == ListingFailed ==> forall tree :: !Serves(server, tree)
    ensures r.Found? ==> r.query == Strip(query)
    ensures r.Found? ==> if Strip(path) == "" then r.path == "" else NormalizeRelativePath(path) == Ok(r.path)
    ensures r.Found? ==> |r.entries| <= maxResults && r.scanned <= 2000
    ensures r.Found? && r.truncated ==> r.scanned == 2000 || |r.entries| == maxResults
    ensures r.Found? ==> var q := fold(Strip(query));
              forall e :: e in r.entries ==>
                exists i, j :: 0 <= i <= j <= |fold(e.name)| && j == i + |q| && fold(e.name)[i..j] == q
    ensures r.Found? && !r.truncated ==> var q := fold(Strip(query));
              forall tree, e :: Serves(server, tree) ==>
                (e in r.entries <==>
                  && Reachable(tree, r.path, e, maxDepth)
                  && exists i, j :: 0 <= i <= j <= |fold(e.name)| && j == i + |q| && fold(e.name)[i..j] == q)
  {
    var normalized := fold(Strip(query));
    if normalized == "" || |normalized| > 256 {
      return BadQuery;
    }
    if !(1 <= maxResults <= 100) {
      return BadLimit;
    }
    if !(0 <= maxDepth <= 10) {
      return BadDepth;
    }
    var start := "";
    if Strip(path) != "" {
      var p := NormalizeRelativePath(path);
      if p.Refused? {
        return BadPath(p.why);
      }
      start := p.path;
    }
    ghost var v := Determined(All(server, [start], 0, maxDepth), Matching(normalized, fold), BUDGET, maxResults);
    StartLeads(v, server, Matching(normalized, fold), maxResults, start, maxDepth);
    var ok, results, scanned, truncated := Walk(server, Matching(normalized, fold), start, maxResults, maxDepth, v);
    if !ok {
      forall tree | Serves(server, tree) ensures false {
        UncutFindsReachable(server, tree, start, maxDepth, Matching(normalized, fold), maxResults, Entry("", "", false));
      }
      return ListingFailed;
    }
    r := Found(Strip(query), start, results, if scanned < BUDGET then scanned else BUDGET, truncated);
    FoundAreNamed(server, fold, query, path, maxResults, maxDepth, Entry("", "", false));
    forall e | e in r.entries ensures Named(fold, e, fold(Strip(query))) {
      FoundAreNamed(server, fold, query, path, maxResults, maxDepth, e);
    }
    forall tree, e | !r.truncated && Serves(server, tree)
      ensures e in r.entries <==> Named(fold, e, fold(Strip(query))) && Reachable(tree, r.path, e, maxDepth)
    {
      UncutFindsNamed(server, fold, query, path, maxResults, maxDepth, tree, e);
    }
  }

  lemma StartLeads(v: Verdict, server: Server, hit: Entry -> bool, limit: nat, start: string, levels: nat)
    requires limit > 0 && v == Determined(All(server, [start], 0, levels), hit, BUDGET, limit)
    ensures LeadsTo(v, server, hit, limit, [], [start], [], 0, 0, levels, 0, [])
  {
    StartRemaining(server, start, levels);
    ScanIsDetermined(All(server, [start], 0, levels), hit, limit);
  }
}
