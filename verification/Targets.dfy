/**
 What a request addresses. Every request trims and parses its path again; for a
 path of names this strips the whitespace before the first and after the last
 name, and drops a name of which nothing is left.
 */
module Targets {
  import opened Options
  import opened Paths
  import opened Sequences

  type Names = seq<string>

  /** The entry that a request for `path` addresses; `[]` is the workspace root. */
  function Target(path: string): Option<Names> {
    match NormalizeRelative(path)
    case Ok(p) => Some(Parse(p).tail)
    case Refused(_) => None
  }

  function Last(s: string): char
    requires s != ""
  {
    s[|s| - 1]
  }

  predicate NoBackslash(s: string) {
    '\\' !in s
  }

  predicate NoBackslashes(parts: Names) {
    forall i :: 0 <= i < |parts| ==> NoBackslash(parts[i])
  }

  /** The names with the whitespace at the two ends of the path taken away. */
  function TrimEnds(names: Names): Names
    requires names != []
  {
    if |names| == 1 then [Strip(names[0])]
    else [TrimLeft(names[0])] + names[1..|names| - 1] + [TrimRight(names[|names| - 1])]
  }

  /** The entry that is left of the names, unless it is `..` somewhere. */
  function Landing(names: Names): Names
    requires names != []
  {
    Keep(TrimEnds(names))
  }

  // ---- any path ----

  /** Leading slashes are empty parts. */
  lemma {:induction false} KeepDropped(s: string)
    ensures Keep(Split(DropSlashes(s))) == Keep(Split(s))
  {
    if s != "" && s[0] == '/' {
      KeepDropped(s[1..]);
      KeepNext("", Split(s[1..]));
    }
  }

  lemma NothingKept(s: string)
    requires s == "" || s == "." || s == "/"
    ensures Keep(Split(s)) == []
  {
    assert Split("") == [""] && Keep([""]) == Keep([]);
    if s == "." {
      SplitSegment(".", "");
      assert Keep(["."]) == Keep([]);
    } else if s == "/" {
      assert s[1..] == "" && Split(s) == [""] + [""];
      KeepNext("", [""]);
    }
  }

  /** A request addresses what is kept of its trimmed text. */
  lemma TargetParsed(s: string)
    ensures var kept := Keep(Split(Slashes(Strip(s)))); Target(s) == if ".." in kept then None else Some(kept)
  {
    var raw := Slashes(Strip(s));
    if raw == "" || raw == "." || raw == "/" {
      NothingKept(raw);
      NothingKept("");
    } else {
      KeepDropped(raw);
      DropSlashesShape(raw);
      TargetKept(s, DropSlashes(raw));
    }
  }

  lemma TargetKept(s: string, rest: string)
    requires NormalizeRelative(s) == (if ".." in Parse(rest).tail then Refused(Escapes)
                                      else if Str(Parse(rest)) == "." then Ok("") else Ok(Str(Parse(rest))))
    requires Parse(rest).root == ""
    ensures var kept := Keep(Split(rest)); Target(s) == if ".." in kept then None else Some(kept)
  {
    var kept := Parse(rest).tail;
    if ".." !in kept {
      TailClean(rest);
      if kept == [] {
        NothingKept("");
      } else {
        ParseJoin(kept);
        JoinShape(kept);
      }
    }
  }

  /** Both requests are made, and for the same entry. */
  predicate SharesEntry(p: string, q: string) {
    Target(p).Some? && Target(p) == Target(q)
  }

  /** Two paths name the same entry if and only if normalising them again gives the same path. */
  lemma SharedIffSameAgain(p: string, q: string)
    ensures SharesEntry(p, q) <==> NormalizeRelative(p).Ok? && NormalizeRelative(p) == NormalizeRelative(q)
  {
    if NormalizeRelative(p).Ok? && NormalizeRelative(q).Ok? {
      var ps := NormalizeRelativeIsContained(p);
      var qs := NormalizeRelativeIsContained(q);
      NothingKept("");
      if ps != [] {
        ParseJoin(ps);
      }
      if qs != [] {
        ParseJoin(qs);
      }
    }
  }

  // ---- a path of names ----

  lemma {:induction false} SplitAny(parts: seq<string>)
    requires parts != [] && forall i :: 0 <= i < |parts| ==> '/' !in parts[i]
    ensures Split(Join(parts)) == parts
  {
    if |parts| == 1 {
      SplitSegment(parts[0], "");
    } else {
      var rest := parts[1..];
      SplitAny(rest);
      SplitSegment(parts[0], Join(rest));
      assert parts == [parts[0]] + rest;
    }
  }

  lemma {:induction false} TrimLeftIsSuffix(s: string)
    ensures |TrimLeft(s)| <= |s| && TrimLeft(s) == s[|s| - |TrimLeft(s)|..]
    ensures TrimLeft(s) == s <==> s == "" || !IsSpace(s[0])
  {
    if s != "" && IsSpace(s[0]) {
      TrimLeftIsSuffix(s[1..]);
    }
  }

  lemma {:induction false} TrimRightIsPrefix(s: string)
    ensures |TrimRight(s)| <= |s| && TrimRight(s) == s[..|TrimRight(s)|]
    ensures TrimRight(s) == s <==> s == "" || !IsSpace(Last(s))
  {
    if s != "" && IsSpace(Last(s)) {
      TrimRightIsPrefix(s[..|s| - 1]);
    }
  }

  /** Trimming stops at a slash. */
  lemma {:induction false} TrimLeftStops(name: string, rest: string)
    ensures TrimLeft(name + ("/" + rest)) == TrimLeft(name) + ("/" + rest)
  {
    if name == "" {
      assert "" + ("/" + rest) == "/" + rest;
    } else {
      var s := name + ("/" + rest);
      assert s[0] == name[0] && s[1..] == name[1..] + ("/" + rest);
      if IsSpace(name[0]) {
        TrimLeftStops(name[1..], rest);
      }
    }
  }

  lemma {:induction false} TrimRightStops(start: string, name: string)
    ensures TrimRight(start + "/" + name) == start + "/" + TrimRight(name)
  {
    if name == "" {
      assert start + "/" + "" == start + "/";
    } else {
      var s, init := start + "/" + name, name[..|name| - 1];
      assert s[|s| - 1] == Last(name) && s[..|s| - 1] == start + "/" + init;
      if IsSpace(Last(name)) {
        TrimRightStops(start, init);
      }
    }
  }

  lemma {:induction false} JoinSnoc(names: Names, last: string)
    ensures Join(names + [last]) == if names == [] then last else Join(names) + "/" + last
  {
    if |names| == 1 {
      assert (names + [last])[1..] == [last];
    } else if |names| > 1 {
      JoinSnoc(names[1..], last);
      assert (names + [last])[1..] == names[1..] + [last];
      Regroup(names[0], Join(names[1..]), last);
    }
  }

  lemma Regroup(a: string, b: string, c: string)
    ensures a + "/" + (b + "/" + c) == a + "/" + b + "/" + c
  {
  }

  lemma JoinCons(first: string, rest: Names)
    requires rest != []
    ensures Join([first] + rest) == first + ("/" + Join(rest))
  {
    assert ([first] + rest)[1..] == rest;
  }

  /** At least two names, first, middle and last. */
  lemma StripEnds(first: string, middle: Names, last: string)
    ensures Strip(Join([first] + (middle + [last]))) == Join([TrimLeft(first)] + (middle + [TrimRight(last)]))
  {
    JoinCons(first, middle + [last]);
    TrimLeftStops(first, Join(middle + [last]));
    JoinCons(TrimLeft(first), middle + [last]);
    var left := [TrimLeft(first)] + middle;
    Assoc([TrimLeft(first)], middle, [last]);
    Assoc([TrimLeft(first)], middle, [TrimRight(last)]);
    JoinSnoc(left, last);
    JoinSnoc(left, TrimRight(last));
    TrimRightStops(Join(left), last);
  }

  lemma StripNames(names: Names)
    requires names != []
    ensures Strip(Join(names)) == Join(TrimEnds(names))
  {
    if |names| > 1 {
      var n := |names| - 1;
      StripEnds(names[0], names[1..n], names[n]);
      Assoc([names[0]], names[1..n], [names[n]]);
      Assoc([TrimLeft(names[0])], names[1..n], [TrimRight(names[n])]);
      Ends(names);
    }
  }

  lemma Ends(names: Names)
    requires |names| > 1
    ensures names == [names[0]] + names[1..|names| - 1] + [names[|names| - 1]]
  {
  }

  predicate Avoids(names: Names, c: char) {
    forall i :: 0 <= i < |names| ==> c !in names[i]
  }

  lemma StripChars(s: string, c: char)
    requires c !in s
    ensures c !in TrimLeft(s) && c !in TrimRight(s) && c !in Strip(s)
  {
    TrimLeftIsSuffix(s);
    TrimRightIsPrefix(s);
    TrimRightIsPrefix(TrimLeft(s));
  }

  lemma TrimEndsChars(names: Names, c: char)
    requires names != [] && Avoids(names, c)
    ensures Avoids(TrimEnds(names), c)
  {
    StripChars(names[0], c);
    StripChars(names[|names| - 1], c);
  }

  lemma {:induction false} JoinChars(names: Names, c: char)
    requires c != '/' && Avoids(names, c)
    ensures c !in Join(names)
  {
    if |names| > 1 {
      JoinChars(names[1..], c);
    }
  }

  lemma SlashesNothing(s: string)
    requires NoBackslash(s)
    ensures Slashes(s) == s
  {
    assert |Slashes(s)| == |s|;
  }

  /** The entry in closed form, for every path that a normaliser has accepted. */
  lemma TargetIs(names: Names)
    requires names != [] && AllClean(names) && NoBackslashes(names)
    ensures Target(Join(names)) == if ".." in Landing(names) then None else Some(Landing(names))
  {
    var ends := TrimEnds(names);
    TrimEndsChars(names, '/');
    TrimEndsChars(names, '\\');
    StripNames(names);
    JoinChars(ends, '\\');
    SlashesNothing(Join(ends));
    SplitAny(ends);
    TargetParsed(Join(names));
  }

  // ---- which paths address themselves ----

  lemma {:induction false} KeepShrinks(parts: seq<string>)
    ensures |Keep(parts)| <= |parts|
    ensures |Keep(parts)| == |parts| ==> Keep(parts) == parts
  {
    if parts != [] {
      KeepShrinks(parts[1..]);
      assert parts == [parts[0]] + parts[1..];
    }
  }

  /** Trimming and parsing never makes more names. */
  lemma TargetShrinks(names: Names)
    requires names != [] && AllClean(names) && NoBackslashes(names) && Target(Join(names)).Some?
    ensures |Target(Join(names)).value| <= |names|
  {
    TargetIs(names);
    KeepShrinks(TrimEnds(names));
  }

  /** No whitespace at the two ends of the path. */
  predicate Edgeless(names: Names)
    requires names != [] && AllClean(names)
  {
    !IsSpace(names[0][0]) && !IsSpace(Last(names[|names| - 1]))
  }

  lemma TrimEndsSame(names: Names)
    requires names != [] && AllClean(names)
    ensures TrimEnds(names) == names <==> Edgeless(names)
  {
    var n := |names| - 1;
    TrimLeftIsSuffix(names[0]);
    TrimRightIsPrefix(names[n]);
    TrimRightIsPrefix(TrimLeft(names[0]));
    if n > 0 {
      assert names == [names[0]] + names[1..n] + [names[n]];
      assert TrimEnds(names)[0] == TrimLeft(names[0]) && TrimEnds(names)[n] == TrimRight(names[n]);
    } else {
      assert names == [names[0]];
    }
  }

  /** A path addresses itself if and only if there is no whitespace at its two ends. */
  lemma AddressesItself(names: Names)
    requires names != [] && AllClean(names) && NoBackslashes(names)
    ensures Target(Join(names)) == Some(names) <==> Edgeless(names)
  {
    TargetIs(names);
    TrimEndsSame(names);
    KeepShrinks(TrimEnds(names));
    if Edgeless(names) {
      KeepClean(names);
      assert ".." !in names;
    }
  }

  lemma {:induction false} JoinEnds(names: Names)
    requires names != [] && AllClean(names)
    ensures Join(names) != "" && Join(names)[0] == names[0][0] && Last(Join(names)) == Last(names[|names| - 1])
  {
    if |names| > 1 {
      JoinEnds(names[1..]);
    }
  }

  // ---- a blank in front ----

  function Blanked(names: Names): Names
    requires names != []
  {
    [" " + names[0]] + names[1..]
  }

  lemma BlankedClean(names: Names)
    requires names != [] && AllClean(names) && NoBackslashes(names)
    ensures AllClean(Blanked(names)) && NoBackslashes(Blanked(names))
  {
    var first := " " + names[0];
    assert |first| >= 2 && first[0] == ' ';
    assert Clean(first) && NoBackslash(first);
  }

  lemma BlankedIs(names: Names)
    requires names != []
    ensures Join(Blanked(names)) == " " + Join(names)
  {
    assert Blanked(names)[1..] == names[1..];
    if |names| > 1 {
      Assoc4(" ", names[0], "/", Join(names[1..]));
    }
  }

  lemma BlankedEnds(names: Names)
    requires names != [] && AllClean(names) && Edgeless(names)
    ensures TrimEnds(Blanked(names)) == names
  {
    var first := " " + names[0];
    assert first[1..] == names[0] && TrimLeft(first) == TrimLeft(names[0]);
    TrimEndsSame(names);
    if |names| == 1 {
      assert Strip(first) == Strip(names[0]);
    } else {
      var n := |names| - 1;
      assert Blanked(names)[1..n] == names[1..n] && Blanked(names)[n] == names[n];
    }
  }

  /** A text without edge whitespace, after the normaliser has dropped the dot in front of it. */
  lemma DottedParse(names: Names)
    requires names != [] && AllClean(names)
    ensures Parse("./" + Join(names)) == Pure("", names)
  {
    SplitSegment(".", Join(names));
    assert "." + "/" + Join(names) == "./" + Join(names);
    SplitJoin(names);
    KeepNext(".", names);
    KeepClean(names);
  }

  /** A text that starts and ends without whitespace and has no backslash is normalised as it stands. */
  lemma RawText(v: string)
    requires v != "" && !IsSpace(v[0]) && !IsSpace(Last(v)) && NoBackslash(v)
    ensures Slashes(Strip(v)) == v
  {
    TrimLeftIsSuffix(v);
    TrimRightIsPrefix(v);
    SlashesNothing(v);
  }

  lemma DottedRaw(names: Names)
    requires names != [] && AllClean(names) && NoBackslashes(names) && !IsSpace(Last(names[|names| - 1]))
    ensures Slashes(Strip("./" + Join(names))) == "./" + Join(names)
  {
    var v := "./" + Join(names);
    JoinEnds(names);
    JoinChars(names, '\\');
    assert v[0] == '.' && Last(v) == Last(Join(names));
    RawText(v);
  }

  lemma DottedAccepted(names: Names)
    requires names != [] && AllClean(names) && NoBackslashes(names) && !IsSpace(Last(names[|names| - 1]))
    ensures NormalizeRelativePath("./" + Join(names)) == Ok(Join(names))
  {
    DottedRaw(names);
    DottedParse(names);
    JoinShape(names);
    assert ".." !in names;
  }

  lemma DottedBlank(s: string)
    ensures "./" + (" " + s) == "./ " + s
  {
  }

  lemma BlankedAccepted(names: Names)
    requires names != [] && AllClean(names) && NoBackslashes(names) && Edgeless(names)
    ensures NormalizeRelativePath("./ " + Join(names)) == Ok(" " + Join(names))
  {
    var blanked := Blanked(names);
    BlankedIs(names);
    BlankedClean(names);
    assert Last(blanked[|names| - 1]) == Last(names[|names| - 1]);
    DottedAccepted(blanked);
    DottedBlank(Join(names));
  }

  lemma BlankedTarget(names: Names)
    requires names != [] && AllClean(names) && NoBackslashes(names) && Edgeless(names)
    ensures Target(" " + Join(names)) == Some(names)
  {
    BlankedIs(names);
    BlankedClean(names);
    TargetIs(Blanked(names));
    BlankedEnds(names);
    KeepClean(names);
    assert ".." !in names;
  }

  /**
   A configured folder can start with a blank: the blank is looked for before
   the dot in front of it goes. It is another text than the folder without the
   blank, but every request addresses the same entry.
   */
  lemma FolderCanStartWithBlank(names: Names)
    requires names != [] && AllClean(names) && NoBackslashes(names) && Edgeless(names)
    ensures var folder := Join(names);
            && NormalizeRelativePath("./" + folder) == Ok(folder) && NormalizeRelativePath("./ " + folder) == Ok(" " + folder)
            && Target(folder) == Target(" " + folder) == Some(names)
  {
    DottedAccepted(names);
    BlankedAccepted(names);
    AddressesItself(names);
    BlankedTarget(names);
  }

  /** A path without whitespace at its ends is normalised to itself. */
  lemma EdgelessAccepted(names: Names)
    requires names != [] && AllClean(names) && NoBackslashes(names) && Edgeless(names)
    ensures NormalizeRelativePath(Join(names)) == Ok(Join(names))
  {
    JoinEnds(names);
    JoinChars(names, '\\');
    RawText(Join(names));
    ParseJoin(names);
    JoinShape(names);
    assert ".." !in names;
  }

  // ---- a blank at the end ----

  lemma {:induction false} KeepConcat(a: seq<string>, b: seq<string>)
    ensures Keep(a + b) == Keep(a) + Keep(b)
  {
    if a == [] {
      assert a + b == b;
    } else {
      KeepConcat(a[1..], b);
      Uncons(a, b);
      KeepNext(a[0], a[1..]);
      KeepNext(a[0], a[1..] + b);
      Assoc(if Kept(a[0]) then [a[0]] else [], Keep(a[1..]), Keep(b));
    }
  }

  lemma Uncons(a: seq<string>, b: seq<string>)
    requires a != []
    ensures a == [a[0]] + a[1..] && a + b == [a[0]] + (a[1..] + b)
  {
  }

  /** The names with a blank behind the last one. */
  function Tailed(names: Names): Names
    requires names != []
  {
    names[..|names| - 1] + [names[|names| - 1] + " "]
  }

  lemma TailedIs(names: Names)
    requires names != []
    ensures Join(Tailed(names)) == Join(names) + " "
  {
    var init, last := names[..|names| - 1], names[|names| - 1];
    assert names == init + [last];
    JoinSnoc(init, last);
    JoinSnoc(init, last + " ");
    Assoc(Join(init) + "/", last, " ");
  }

  lemma TailedClean(names: Names)
    requires names != [] && AllClean(names) && NoBackslashes(names)
    ensures AllClean(Tailed(names)) && NoBackslashes(Tailed(names))
  {
    var last := names[|names| - 1] + " ";
    assert |last| >= 2 && Last(last) == ' ';
    assert Clean(last) && NoBackslash(last);
  }

  /** A trailing `.` is dropped. */
  lemma DotParse(names: Names)
    requires names != [] && AllClean(names)
    ensures Parse(Join(names) + "/" + ".") == Pure("", names)
  {
    var all := names + ["."];
    JoinSnoc(names, ".");
    SplitAny(all);
    KeepConcat(names, ["."]);
    KeepClean(names);
    NothingKept(".");
    SplitSegment(".", "");
    JoinShape(names);
  }

  lemma DotAccepted(names: Names)
    requires names != [] && AllClean(names) && NoBackslashes(names) && !IsSpace(names[0][0])
    ensures NormalizeRelativePath(Join(names) + "/" + ".") == Ok(Join(names))
  {
    var v := Join(names) + "/" + ".";
    JoinEnds(names);
    JoinChars(names, '\\');
    RawText(v);
    DotParse(names);
    JoinShape(names);
    assert ".." !in names;
  }

  /** A configured folder can also end with a blank, in front of a slash and a dot. */
  lemma FolderCanEndWithBlank(names: Names)
    requires names != [] && AllClean(names) && NoBackslashes(names) && Edgeless(names)
    ensures NormalizeRelativePath(Join(names) + " " + "/" + ".") == Ok(Join(names) + " ")
  {
    TailedIs(names);
    TailedClean(names);
    assert Tailed(names)[0][0] == names[0][0];
    DotAccepted(Tailed(names));
  }

  // ---- what the normalisers accept ----

  lemma {:induction false} DropSlashesIsSuffix(s: string)
    ensures |DropSlashes(s)| <= |s| && DropSlashes(s) == s[|s| - |DropSlashes(s)|..]
  {
    if s != "" && s[0] == '/' {
      DropSlashesIsSuffix(s[1..]);
    }
  }

  lemma {:induction false} SplitChars(s: string, c: char)
    requires c !in s
    ensures forall i :: 0 <= i < |Split(s)| ==> c !in Split(s)[i]
  {
    if s != "" {
      SplitChars(s[1..], c);
    }
  }

  lemma {:induction false} KeepChars(parts: Names, c: char)
    requires forall i :: 0 <= i < |parts| ==> c !in parts[i]
    ensures forall i :: 0 <= i < |Keep(parts)| ==> c !in Keep(parts)[i]
  {
    if parts != [] {
      KeepChars(parts[1..], c);
    }
  }

  /** The names of an accepted path are clean and free of backslashes. */
  lemma AcceptedNames(path: string)
    requires NormalizeRelative(path).Ok? && NormalizeRelative(path).path != ""
    ensures var parts := Parse(NormalizeRelative(path).path).tail;
            parts != [] && AllClean(parts) && NoBackslashes(parts)
  {
    var raw := Slashes(Strip(path));
    var s := DropSlashes(raw);
    TailClean(s);
    DropSlashesIsSuffix(raw);
    SplitChars(s, '\\');
    KeepChars(Split(s), '\\');
    ParseJoin(Parse(s).tail);
  }
}
