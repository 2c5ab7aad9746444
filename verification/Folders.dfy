/**
 `ensure_folder` on a remote tree. Each request normalises its path again, and
 that strips edge whitespace; each answer is parsed under the base URL, and
 that skips every entry when the base needs escapes. So the call does what it
 promises exactly for paths whose prefixes have no whitespace at their edges,
 under a base without escapes.
 */
module Folders {
  import opened Options
  import opened Paths
  import opened Targets
  import WebDav

  datatype Node = File | Folder

  type Tree = map<Names, Node>

  datatype Outcome = Ensured | BadPath | NotAFolder | NoMetadata | RemoteError

  /** Whether the client finds an entry in the answer about it. */
  type Reader = Names -> bool

  /** Every entry lies in a folder (section 5.1 of RFC 4918). */
  ghost predicate ParentClosed(tree: Tree) {
    forall p :: p in tree ==> p != [] && (|p| > 1 ==> p[..|p| - 1] in tree && tree[p[..|p| - 1]] == Folder)
  }

  /** PROPFIND: `None` is a 404. */
  function Propfind(tree: Tree, p: Names): Option<Node> {
    if p == [] then Some(Folder) else if p in tree then Some(tree[p]) else None
  }

  /** MKCOL: created only where nothing is mapped and the parent is a folder (section 9.3 of RFC 4918). */
  predicate Creates(tree: Tree, p: Names) {
    p != [] && p !in tree && Propfind(tree, p[..|p| - 1]) == Some(Folder)
  }

  /** The server answers about an entry with the URL it was asked for. */
  function Reads(base: string): Reader {
    (p: Names) => WebDav.ParseHref(base, WebDav.UrlPath(base, Join(p))).Some?
  }

  /**
   One round of the loop: an existing entry must be read as a folder, and a
   new one must be read back.
   */
  function Round(reader: Reader, tree: Tree, current: string): (Tree, Outcome) {
    match Target(current)
    case None => (tree, BadPath)
    case Some(p) =>
      match Propfind(tree, p)
      case Some(node) => (tree, if reader(p) && node == Folder then Ensured else NotAFolder)
      case None =>
        if !Creates(tree, p) then (tree, RemoteError)
        else (tree[p := Folder], if reader(p) then Ensured else NoMetadata)
  }

  /** The first `n` rounds over `parts`. */
  function Rounds(reader: Reader, tree: Tree, parts: Names, n: nat): (Tree, Outcome)
    requires n <= |parts|
  {
    if n == 0 then (tree, Ensured) else
    var (tree', outcome) := Rounds(reader, tree, parts, n - 1);
    if outcome != Ensured then (tree', outcome) else Round(reader, tree', Join(parts[..n]))
  }

  class Remote {
    const base: string
    var tree: Tree

    constructor (base: string, tree: Tree)
      ensures this.base == base && this.tree == tree
    {
      this.base, this.tree := base, tree;
    }

    /** The requests for one prefix. */
    method EnsureOne(current: string) returns (outcome: Outcome)
      modifies this
      ensures (tree, outcome) == Round(Reads(base), old(tree), current)
    {
      var target := Target(current);
      if target.None? {
        return BadPath;
      }
      var found := Propfind(tree, target.value);
      var entry := WebDav.ParseHref(base, WebDav.UrlPath(base, Join(target.value)));
      if found.None? {
        if !Creates(tree, target.value) {
          return RemoteError;
        }
        tree := tree[target.value := Folder];
        return if entry.None? then NoMetadata else Ensured;
      }
      outcome := if entry.None? || found.value == File then NotAFolder else Ensured;
    }

    method EnsureFolder(path: string) returns (outcome: Outcome)
      modifies this
      ensures NormalizeRelative(path).Refused? || NormalizeRelative(path).path == "" ==>
                outcome == BadPath && tree == old(tree)
      ensures NormalizeRelative(path).Ok? && NormalizeRelative(path).path != "" ==>
                var parts := Parse(NormalizeRelative(path).path).tail;
                (tree, outcome) == Rounds(Reads(base), old(tree), parts, |parts|)
    {
      var normalized := NormalizeRelative(path);
      if normalized.Refused? || normalized.path == "" {
        return BadPath;
      }
      ghost var names := NormalizeRelativeIsContained(path);
      var parts := Parse(normalized.path).tail;
      ParseJoin(names);
      var current := "";
      var i := 0;
      while i < |parts|
        invariant 0 <= i <= |parts| && current == Join(parts[..i])
        invariant Rounds(Reads(base), old(tree), parts, i) == (tree, Ensured)
      {
        NextCurrent(parts, i);
        current := DropSlashes(current + "/" + parts[i]);
        outcome := EnsureOne(current);
        if outcome != Ensured {
          RoundsStop(Reads(base), old(tree), parts, i + 1);
          return;
        }
        i := i + 1;
      }
      outcome := Ensured;
    }
  }

  /** The running path of the loop is the join of the parts seen so far. */
  lemma NextCurrent(parts: Names, i: nat)
    requires AllClean(parts) && i < |parts|
    ensures DropSlashes(Join(parts[..i]) + "/" + parts[i]) == Join(parts[..i + 1])
  {
    JoinSnoc(parts[..i], parts[i]);
    assert parts[..i + 1] == parts[..i] + [parts[i]];
    if i == 0 {
      assert ("" + "/" + parts[0])[1..] == parts[0];
    } else {
      JoinShape(parts[..i]);
    }
  }

  /** Once a round fails, the remaining rounds are not taken. */
  lemma {:induction false} RoundsStop(reader: Reader, tree: Tree, parts: Names, n: nat)
    requires n <= |parts| && Rounds(reader, tree, parts, n).1 != Ensured
    ensures Rounds(reader, tree, parts, |parts|) == Rounds(reader, tree, parts, n)
    decreases |parts| - n
  {
    if n < |parts| {
      RoundsStop(reader, tree, parts, n + 1);
    }
  }

  // ---- what the rounds achieve ----

  /** Round `j` works on prefix `i`. */
  predicate WorksOn(parts: Names, j: int, i: int) {
    0 < j <= |parts| && 0 < i <= |parts| && Target(Join(parts[..j])) == Some(parts[..i])
  }

  /** Every round works on its own prefix. */
  ghost predicate Stable(parts: Names) {
    forall k :: 0 < k <= |parts| ==> WorksOn(parts, k, k)
  }

  /** The tree with the missing ones among the first `n` prefixes added as folders. */
  function WithFolders(tree: Tree, parts: Names, n: nat): Tree
    requires n <= |parts|
  {
    if n == 0 then tree else
    var t := WithFolders(tree, parts, n - 1);
    if parts[..n] in tree then t else t[parts[..n] := Folder]
  }

  /** In words: nothing is lost or changed and exactly the missing prefixes are new. */
  lemma {:induction false} WithFoldersIs(tree: Tree, parts: Names, n: nat)
    requires n <= |parts|
    ensures forall p :: p in WithFolders(tree, parts, n) <==> p in tree || exists k :: 0 < k <= n && parts[..k] == p
    ensures forall p :: p in WithFolders(tree, parts, n) ==>
              WithFolders(tree, parts, n)[p] == if p in tree then tree[p] else Folder
  {
    if n > 0 {
      WithFoldersIs(tree, parts, n - 1);
    }
  }

  ghost predicate NoFile(tree: Tree, parts: Names, n: nat)
    requires n <= |parts|
  {
    forall k :: 0 < k <= n ==> Passable(tree, parts, k)
  }

  /** The prefix is missing or a folder. */
  predicate Passable(tree: Tree, parts: Names, k: int) {
    0 < k <= |parts| && (parts[..k] in tree ==> tree[parts[..k]] == Folder)
  }

  /** Every entry is found in the answer about it, or none is. */
  ghost predicate ReadsAs(reader: Reader, found: bool) {
    forall p: Names :: AllClean(p) ==> reader(p) == found
  }

  /** The base decides: its answers are read if and only if user name and root need no escapes. */
  lemma BaseReads(prefix: string, user: string, root: seq<string>)
    requires WebDav.PlainPrefix(prefix) && AllClean(root) && root != []
    ensures ReadsAs(Reads(WebDav.BasePath(prefix, user, "/" + Join(root))), WebDav.PlainBase(user, root))
  {
    var base := WebDav.BasePath(prefix, user, "/" + Join(root));
    forall p: Names | AllClean(p) ensures Reads(base)(p) == WebDav.PlainBase(user, root) {
      WebDav.HrefRoundTrip(prefix, user, root, p);
    }
  }

  lemma ReadsPrefix(reader: Reader, found: bool, parts: Names, n: nat)
    requires ReadsAs(reader, found) && AllClean(parts) && n <= |parts|
    ensures reader(parts[..n]) == found
  {
    assert AllClean(parts[..n]);
  }

  /** A round on an entry that is a folder, or missing below a folder. */
  lemma RoundOn(reader: Reader, tree: Tree, current: string, p: Names)
    requires Target(current) == Some(p) && p != [] && reader(p)
    requires p in tree ==> tree[p] == Folder
    requires p !in tree ==> Propfind(tree, p[..|p| - 1]) == Some(Folder)
    ensures Round(reader, tree, current) == (if p in tree then tree else tree[p := Folder], Ensured)
  {
  }

  /** The prefix before is a folder once its round is done, and no other prefix is this one. */
  lemma BeforeRound(tree: Tree, parts: Names, n: nat)
    requires 0 < n <= |parts| && NoFile(tree, parts, n)
    ensures var t, p := WithFolders(tree, parts, n - 1), parts[..n];
            && Propfind(t, p[..n - 1]) == Some(Folder)
            && (p in t <==> p in tree) && (p in t ==> t[p] == Folder)
  {
    WithFoldersIs(tree, parts, n - 1);
    var t, p := WithFolders(tree, parts, n - 1), parts[..n];
    assert p[..n - 1] == parts[..n - 1];
    assert forall k :: 0 < k <= n - 1 ==> |parts[..k]| < |p|;
    assert Passable(tree, parts, n);
    if n > 1 {
      assert parts[..n - 1] in t && Passable(tree, parts, n - 1);
    }
  }

  lemma NextRound(reader: Reader, tree: Tree, parts: Names, n: nat, t: Tree, p: Names)
    requires 0 < n <= |parts| && p == parts[..n] && t == WithFolders(tree, parts, n - 1)
    requires Target(Join(p)) == Some(p) && reader(p)
    requires Propfind(t, p[..n - 1]) == Some(Folder) && (p in t <==> p in tree) && (p in t ==> t[p] == Folder)
    requires Rounds(reader, tree, parts, n - 1) == (t, Ensured)
    ensures Rounds(reader, tree, parts, n) == (WithFolders(tree, parts, n), Ensured)
  {
    RoundOn(reader, t, Join(p), p);
  }

  lemma AddRound(reader: Reader, tree: Tree, parts: Names, n: nat)
    requires ReadsAs(reader, true) && AllClean(parts) && 0 < n <= |parts| && WorksOn(parts, n, n) && NoFile(tree, parts, n)
    requires Rounds(reader, tree, parts, n - 1) == (WithFolders(tree, parts, n - 1), Ensured)
    ensures Rounds(reader, tree, parts, n) == (WithFolders(tree, parts, n), Ensured)
  {
    BeforeRound(tree, parts, n);
    ReadsPrefix(reader, true, parts, n);
    NextRound(reader, tree, parts, n, WithFolders(tree, parts, n - 1), parts[..n]);
  }

  /** Rounds that work on their own prefixes add the missing ones, one after the other. */
  lemma RoundsAdd(reader: Reader, tree: Tree, parts: Names, n: nat)
    requires ReadsAs(reader, true) && AllClean(parts) && n <= |parts| && Stable(parts) && NoFile(tree, parts, n)
    ensures Rounds(reader, tree, parts, n) == (WithFolders(tree, parts, n), Ensured)
  {
    var i := 0;
    while i < n
      invariant 0 <= i <= n && Rounds(reader, tree, parts, i) == (WithFolders(tree, parts, i), Ensured)
    {
      i := i + 1;
      assert WorksOn(parts, i, i);
      AddRound(reader, tree, parts, i);
    }
  }

  /** Below an existing prefix everything exists, so a file in the way is met before anything is created. */
  lemma {:induction false} AncestorsExist(tree: Tree, parts: Names, n: nat)
    requires 0 < n <= |parts| && ParentClosed(tree) && parts[..n] in tree
    ensures forall k :: 0 < k < n ==> parts[..k] in tree && tree[parts[..k]] == Folder
  {
    if n > 1 {
      assert parts[..n][..n - 1] == parts[..n - 1];
      AncestorsExist(tree, parts, n - 1);
    }
  }

  lemma {:induction false} NothingMissing(tree: Tree, parts: Names, n: nat)
    requires n <= |parts| && forall k :: 0 < k <= n ==> parts[..k] in tree
    ensures WithFolders(tree, parts, n) == tree
  {
    if n > 0 {
      NothingMissing(tree, parts, n - 1);
    }
  }

  lemma {:induction false} FirstFile(tree: Tree, parts: Names, n: nat) returns (k: nat)
    requires n <= |parts| && !NoFile(tree, parts, n)
    ensures 0 < k <= n && parts[..k] in tree && tree[parts[..k]] == File && NoFile(tree, parts, k - 1)
  {
    if NoFile(tree, parts, n - 1) {
      k := n;
    } else {
      k := FirstFile(tree, parts, n - 1);
    }
  }

  lemma RoundOnFile(reader: Reader, tree: Tree, parts: Names, k: nat)
    requires 0 < k <= |parts| && WorksOn(parts, k, k) && parts[..k] in tree && tree[parts[..k]] == File
    ensures Round(reader, tree, Join(parts[..k])) == (tree, NotAFolder)
  {
    assert parts[..k] != [];
  }

  /** Up to a prefix that is there, nothing is missing. */
  lemma NothingAdded(tree: Tree, parts: Names, k: nat)
    requires ParentClosed(tree) && 0 < k <= |parts| && parts[..k] in tree
    ensures WithFolders(tree, parts, k - 1) == tree
  {
    AncestorsExist(tree, parts, k);
    NothingMissing(tree, parts, k - 1);
  }

  lemma RoundsAddNothing(reader: Reader, tree: Tree, parts: Names, n: nat)
    requires ReadsAs(reader, true) && AllClean(parts) && n <= |parts| && Stable(parts) && NoFile(tree, parts, n)
    requires WithFolders(tree, parts, n) == tree
    ensures Rounds(reader, tree, parts, n) == (tree, Ensured)
  {
    RoundsAdd(reader, tree, parts, n);
  }

  /** A file in the way ends the rounds before anything was created. */
  lemma FileStops(reader: Reader, tree: Tree, parts: Names, k: nat)
    requires ReadsAs(reader, true) && AllClean(parts) && ParentClosed(tree) && Stable(parts)
    requires 0 < k <= |parts| && NoFile(tree, parts, k - 1)
    requires parts[..k] in tree && tree[parts[..k]] == File
    ensures Rounds(reader, tree, parts, k) == (tree, NotAFolder)
  {
    NothingAdded(tree, parts, k);
    RoundsAddNothing(reader, tree, parts, k - 1);
    assert WorksOn(parts, k, k);
    StopsAt(reader, tree, parts, k);
  }

  lemma StopsAt(reader: Reader, tree: Tree, parts: Names, k: nat)
    requires 0 < k <= |parts| && WorksOn(parts, k, k) && parts[..k] in tree && tree[parts[..k]] == File
    requires Rounds(reader, tree, parts, k - 1) == (tree, Ensured)
    ensures Rounds(reader, tree, parts, k) == (tree, NotAFolder)
  {
    RoundOnFile(reader, tree, parts, k);
  }

  lemma ReadRounds(reader: Reader, tree: Tree, parts: Names)
    requires ReadsAs(reader, true) && AllClean(parts) && ParentClosed(tree) && Stable(parts)
    ensures Rounds(reader, tree, parts, |parts|)
            == if NoFile(tree, parts, |parts|) then (WithFolders(tree, parts, |parts|), Ensured) else (tree, NotAFolder)
  {
    if NoFile(tree, parts, |parts|) {
      RoundsAdd(reader, tree, parts, |parts|);
    } else {
      var k := FirstFile(tree, parts, |parts|);
      FileStops(reader, tree, parts, k);
      RoundsStop(reader, tree, parts, k);
    }
  }

  lemma TargetClean(path: string)
    ensures Target(path).Some? ==> AllClean(Target(path).value)
  {
    if NormalizeRelative(path).Ok? {
      var names := NormalizeRelativeIsContained(path);
      if names != [] {
        ParseJoin(names);
      } else {
        assert Parse("").tail == [] by {
          assert Split("") == [""];
          assert Keep([""]) == Keep([]);
        }
      }
    }
  }

  lemma FirstRound(reader: Reader, tree: Tree, parts: Names)
    requires parts != []
    ensures Rounds(reader, tree, parts, 1) == Round(reader, tree, Join(parts[..1]))
  {
    assert Rounds(reader, tree, parts, 0) == (tree, Ensured);
  }

  /** Where no answer is read, the first round fails, and with it the call. */
  lemma UnreadFails(reader: Reader, tree: Tree, parts: Names)
    requires ReadsAs(reader, false) && AllClean(parts) && parts != []
    ensures Rounds(reader, tree, parts, |parts|) == Round(reader, tree, Join(parts[..1]))
    ensures Rounds(reader, tree, parts, |parts|).1 != Ensured
  {
    TargetClean(Join(parts[..1]));
    FirstRound(reader, tree, parts);
    RoundsStop(reader, tree, parts, 1);
  }

  /** It may have created the folder of the first round. */
  lemma UnreadRounds(reader: Reader, tree: Tree, parts: Names)
    requires ReadsAs(reader, false) && AllClean(parts) && parts != [] && WorksOn(parts, 1, 1)
    ensures Rounds(reader, tree, parts, |parts|)
            == if parts[..1] in tree then (tree, NotAFolder) else (tree[parts[..1] := Folder], NoMetadata)
  {
    UnreadFails(reader, tree, parts);
    ReadsPrefix(reader, false, parts, 1);
    assert parts[..1][..0] == [];
  }

  /**
   On a parent-closed tree and a stable path. Under a base without escapes: with
   no file in the way the call succeeds and adds exactly the missing prefixes;
   otherwise it fails and leaves the tree as it was. Under any other base it
   fails, after creating the first prefix if that was missing. It never runs
   into a missing parent.
   */
  lemma EnsureFolderIsExact(prefix: string, user: string, root: seq<string>, tree: Tree, parts: Names)
    requires WebDav.PlainPrefix(prefix) && AllClean(root) && root != []
    requires parts != [] && AllClean(parts) && ParentClosed(tree) && Stable(parts)
    ensures var base := WebDav.BasePath(prefix, user, "/" + Join(root));
            Rounds(Reads(base), tree, parts, |parts|)
            == if WebDav.PlainBase(user, root) then
                 if NoFile(tree, parts, |parts|) then (WithFolders(tree, parts, |parts|), Ensured)
                 else (tree, NotAFolder)
               else if parts[..1] in tree then (tree, NotAFolder)
               else (tree[parts[..1] := Folder], NoMetadata)
  {
    var base := WebDav.BasePath(prefix, user, "/" + Join(root));
    BaseReads(prefix, user, root);
    if WebDav.PlainBase(user, root) {
      ReadRounds(Reads(base), tree, parts);
    } else {
      assert WorksOn(parts, 1, 1);
      UnreadRounds(Reads(base), tree, parts);
    }
  }

  /** Whatever becomes of the call, every entry still lies in a folder. */
  lemma {:induction false} RoundsStayClosed(reader: Reader, tree: Tree, parts: Names, n: nat)
    requires n <= |parts| && ParentClosed(tree)
    ensures ParentClosed(Rounds(reader, tree, parts, n).0)
  {
    if n > 0 {
      RoundsStayClosed(reader, tree, parts, n - 1);
      RoundStaysClosed(reader, Rounds(reader, tree, parts, n - 1).0, Join(parts[..n]));
    }
  }

  lemma CreatedStaysClosed(tree: Tree, p: Names)
    requires ParentClosed(tree) && Creates(tree, p)
    ensures ParentClosed(tree[p := Folder])
  {
  }

  lemma RoundStaysClosed(reader: Reader, tree: Tree, current: string)
    requires ParentClosed(tree)
    ensures ParentClosed(Round(reader, tree, current).0)
  {
    hide ParentClosed, Target;
    if Round(reader, tree, current).0 != tree {
      CreatedStaysClosed(tree, Target(current).value);
    }
  }

  // ---- a second call ----

  /** Every entry of `tree` is in `tree'`, unchanged. */
  ghost predicate Grown(tree: Tree, tree': Tree) {
    forall p :: p in tree ==> p in tree' && tree'[p] == tree[p]
  }

  lemma RoundGrows(reader: Reader, tree: Tree, current: string)
    ensures Grown(tree, Round(reader, tree, current).0)
  {
  }

  /** A round that has succeeded finds nothing to do on any tree that has grown since. */
  lemma RoundStays(reader: Reader, tree: Tree, current: string, tree': Tree)
    requires Round(reader, tree, current).1 == Ensured && Grown(Round(reader, tree, current).0, tree')
    ensures Round(reader, tree', current) == (tree', Ensured)
  {
  }

  /** A round that has failed fails again on what it left, and leaves that alone. */
  lemma RoundFailsAgain(reader: Reader, tree: Tree, current: string)
    requires Round(reader, tree, current).1 != Ensured
    ensures var tree' := Round(reader, tree, current).0;
            Round(reader, tree', current).0 == tree' && Round(reader, tree', current).1 != Ensured
  {
  }

  lemma GrownOn(a: Tree, b: Tree, c: Tree)
    requires Grown(a, b) && Grown(b, c)
    ensures Grown(a, c)
  {
  }

  lemma {:induction false} RoundsStay(reader: Reader, tree: Tree, parts: Names, n: nat, tree': Tree)
    requires n <= |parts| && Rounds(reader, tree, parts, n).1 == Ensured
    requires Grown(Rounds(reader, tree, parts, n).0, tree')
    ensures Rounds(reader, tree', parts, n) == (tree', Ensured)
  {
    if n > 0 {
      var before := Rounds(reader, tree, parts, n - 1).0;
      RoundGrows(reader, before, Join(parts[..n]));
      GrownOn(before, Rounds(reader, tree, parts, n).0, tree');
      RoundsStay(reader, tree, parts, n - 1, tree');
      RoundStays(reader, before, Join(parts[..n]), tree');
    }
  }

  /** A second call creates nothing, and succeeds if and only if the first one did. */
  ghost predicate SettledAfterOne(reader: Reader, tree: Tree, parts: Names, n: nat)
    requires n <= |parts|
  {
    var first := Rounds(reader, tree, parts, n);
    var second := Rounds(reader, first.0, parts, n);
    second.0 == first.0 && (second.1 == Ensured <==> first.1 == Ensured)
  }

  /** Whatever the client can read, whatever the path and whatever is in the way, after any number of rounds. */
  lemma {:induction false} SecondCallCreatesNothing(reader: Reader, tree: Tree, parts: Names, n: nat)
    requires n <= |parts|
    ensures SettledAfterOne(reader, tree, parts, n)
  {
    if n > 0 {
      var (before, outcome) := Rounds(reader, tree, parts, n - 1);
      if outcome != Ensured {
        SecondCallCreatesNothing(reader, tree, parts, n - 1);
      } else {
        var current := Join(parts[..n]);
        var after := Round(reader, before, current).0;
        RoundGrows(reader, before, current);
        RoundsStay(reader, tree, parts, n - 1, after);
        if Round(reader, before, current).1 == Ensured {
          RoundStays(reader, before, current, after);
        } else {
          RoundFailsAgain(reader, before, current);
        }
      }
    }
  }

  // ---- which paths are stable ----

  /** No prefix of the path has whitespace at its edges. */
  predicate Trimmed(parts: Names) {
    AllClean(parts) && parts != [] && !IsSpace(parts[0][0]) && forall i :: 0 <= i < |parts| ==> !IsSpace(Last(parts[i]))
  }

  lemma TrimmedIsStable(parts: Names)
    requires Trimmed(parts) && NoBackslashes(parts)
    ensures Stable(parts)
  {
    forall k | 0 < k <= |parts| ensures WorksOn(parts, k, k) {
      AddressesItself(parts[..k]);
    }
  }

  // ---- an unstable path never works as promised ----

  /** Some round works on prefix `i`. */
  ghost predicate Worked(parts: Names, i: int) {
    exists j :: WorksOn(parts, j, i)
  }

  /** Whatever the rounds put into an empty tree, some round addressed it. */
  lemma {:induction false} RoundsDomain(reader: Reader, parts: Names, n: nat, p: Names) returns (j: nat)
    requires n <= |parts| && p in Rounds(reader, map[], parts, n).0
    ensures 0 < j <= n && Target(Join(parts[..j])) == Some(p)
  {
    if p in Rounds(reader, map[], parts, n - 1).0 {
      j := RoundsDomain(reader, parts, n - 1, p);
    } else {
      j := n;
    }
  }

  /** A round works on no prefix longer than its own. */
  lemma WorksOnShorter(parts: Names, j: nat, i: nat)
    requires AllClean(parts) && NoBackslashes(parts) && WorksOn(parts, j, i)
    ensures i <= j
  {
    TargetShrinks(parts[..j]);
  }

  /** A round works on one prefix only. */
  lemma WorksOnOne(parts: Names, j: int, i: int, k: int)
    requires WorksOn(parts, j, i) && WorksOn(parts, j, k)
    ensures i == k
  {
    assert |parts[..i]| == |parts[..k]|;
  }

  /** Every prefix from `k` on is worked on by its own round. */
  ghost predicate StableFrom(parts: Names, k: int) {
    forall i :: k <= i <= |parts| ==> WorksOn(parts, i, i)
  }

  /** No later round can work on prefix `k`, so its own round must. */
  lemma PairOne(parts: Names, j: int, k: int)
    requires AllClean(parts) && NoBackslashes(parts) && 0 < k <= |parts|
    requires StableFrom(parts, k + 1) && WorksOn(parts, j, k)
    ensures WorksOn(parts, k, k)
  {
    WorksOnShorter(parts, j, k);
    if j > k {
      assert WorksOn(parts, j, j);
      WorksOnOne(parts, j, j, k);
    }
  }

  /** If every prefix is worked on by some round, counting names pairs each prefix with its own round. */
  lemma {:induction false} PrefixesPaired(parts: Names, k: int)
    requires AllClean(parts) && NoBackslashes(parts) && 0 < k <= |parts| + 1
    requires forall i :: 0 < i <= |parts| ==> Worked(parts, i)
    ensures StableFrom(parts, k)
    decreases |parts| + 1 - k
  {
    if k <= |parts| {
      PrefixesPaired(parts, k + 1);
      assert Worked(parts, k);
      var j :| WorksOn(parts, j, k);
      PairOne(parts, j, k);
    }
  }

  lemma AllWorked(reader: Reader, parts: Names, i: nat)
    requires Rounds(reader, map[], parts, |parts|).0 == WithFolders(map[], parts, |parts|) && 0 < i <= |parts|
    ensures Worked(parts, i)
  {
    WithFoldersIs(map[], parts, |parts|);
    var j := RoundsDomain(reader, parts, |parts|, parts[..i]);
    assert WorksOn(parts, j, i);
  }

  lemma OnlyStableRounds(reader: Reader, parts: Names)
    requires parts != [] && AllClean(parts) && NoBackslashes(parts)
    ensures Rounds(reader, map[], parts, |parts|) == (WithFolders(map[], parts, |parts|), Ensured) ==> Stable(parts)
  {
    if Rounds(reader, map[], parts, |parts|) == (WithFolders(map[], parts, |parts|), Ensured) {
      forall i | 0 < i <= |parts| ensures Worked(parts, i) {
        AllWorked(reader, parts, i);
      }
      PrefixesPaired(parts, 1);
    }
  }

  /**
   In an empty workspace the call succeeds with exactly the prefixes of the
   path as folders if and only if the path is stable and the base needs no
   escapes.
   */
  lemma OnlyStablePathsWork(prefix: string, user: string, root: seq<string>, parts: Names)
    requires WebDav.PlainPrefix(prefix) && AllClean(root) && root != []
    requires parts != [] && AllClean(parts) && NoBackslashes(parts)
    ensures var reader := Reads(WebDav.BasePath(prefix, user, "/" + Join(root)));
            Rounds(reader, map[], parts, |parts|) == (WithFolders(map[], parts, |parts|), Ensured)
            <==> Stable(parts) && WebDav.PlainBase(user, root)
  {
    var reader := Reads(WebDav.BasePath(prefix, user, "/" + Join(root)));
    BaseReads(prefix, user, root);
    OnlyStableRounds(reader, parts);
    if !WebDav.PlainBase(user, root) {
      UnreadFails(reader, map[], parts);
    } else if Stable(parts) {
      RoundsAdd(reader, map[], parts, |parts|);
    }
  }

  /** Whitespace at an edge moves the target: the stable paths are the trimmed ones. */
  lemma StableMeansTrimmed(parts: Names)
    requires parts != [] && AllClean(parts) && NoBackslashes(parts)
    ensures Stable(parts) <==> Trimmed(parts)
  {
    if Trimmed(parts) {
      TrimmedIsStable(parts);
    }
    if Stable(parts) {
      assert WorksOn(parts, 1, 1);
      StableEnds(parts, 0);
      forall i | 0 <= i < |parts| ensures !IsSpace(Last(parts[i])) {
        assert WorksOn(parts, i + 1, i + 1);
        StableEnds(parts, i);
      }
    }
  }

  lemma StableEnds(parts: Names, i: nat)
    requires AllClean(parts) && NoBackslashes(parts) && i < |parts| && WorksOn(parts, i + 1, i + 1)
    ensures !IsSpace(parts[0][0]) && !IsSpace(Last(parts[i]))
  {
    EndsOf(parts[..i + 1]);
  }

  lemma EndsOf(names: Names)
    requires names != [] && AllClean(names) && NoBackslashes(names) && Target(Join(names)) == Some(names)
    ensures !IsSpace(names[0][0]) && !IsSpace(Last(names[|names| - 1]))
  {
    AddressesItself(names);
  }
}
