/**
 A stored root is normalised again for the settings: what comes of it, when it
 stays itself and when it is refused.
 */
module StoredRoots {
  import opened Options
  import opened Paths
  import opened Roots
  import opened Sequences
  import opened Targets

  /** The two roots that a path can have. */
  predicate Slashed(slashes: string) {
    slashes == "/" || slashes == "//"
  }

  /** The names that are left when the whitespace at the end of the text is gone. */
  function Remaining(names: Names): Names
    requires names != []
  {
    names[..|names| - 1] + Keep([TrimRight(names[|names| - 1])])
  }

  // ---- parsing behind slashes ----

  lemma SplitSlashed(slashes: string, parts: Names)
    requires Slashed(slashes) && parts != [] && Avoids(parts, '/')
    ensures Keep(Split(slashes + Join(parts))) == Keep(parts)
  {
    SplitAny(parts);
    KeepNext("", parts);
    assert ("/" + Join(parts))[1..] == Join(parts);
    assert Split("/" + Join(parts)) == [""] + parts;
    if slashes == "//" {
      assert ("//" + Join(parts))[1..] == "/" + Join(parts);
      KeepNext("", [""] + parts);
    }
  }

  /** What follows the slashes does not start with one. */
  lemma RootSlashed(slashes: string, rest: string)
    requires Slashed(slashes) && (rest == "" || rest[0] != '/')
    ensures RootOf(slashes + rest) == slashes
  {
    var s := slashes + rest;
    if rest != "" {
      assert s[|slashes|] == rest[0];
    }
  }

  lemma {:induction false} JoinStart(parts: Names)
    requires parts != [] && Avoids(parts, '/') && (|parts| > 1 ==> parts[0] != "")
    ensures Join(parts) == "" || Join(parts)[0] != '/'
  {
  }

  lemma ParseSlashed(slashes: string, parts: Names)
    requires Slashed(slashes) && parts != [] && Avoids(parts, '/') && (|parts| > 1 ==> parts[0] != "")
    ensures Parse(slashes + Join(parts)) == Pure(slashes, Keep(parts))
  {
    SplitSlashed(slashes, parts);
    JoinStart(parts);
    RootSlashed(slashes, Join(parts));
  }

  // ---- trimming behind slashes ----

  lemma TrimSlashed(slashes: string, init: Names, last: string)
    requires Slashed(slashes)
    ensures TrimRight(slashes + Join(init + [last])) == slashes + Join(init + [TrimRight(last)])
  {
    JoinSnoc(init, last);
    JoinSnoc(init, TrimRight(last));
    if init == [] {
      var before := slashes[..|slashes| - 1];
      assert before + "/" == slashes;
      TrimRightStops(before, last);
    } else {
      Assoc(slashes, Join(init) + "/", last);
      Assoc(slashes, Join(init), "/");
      Assoc(slashes, Join(init) + "/", TrimRight(last));
      TrimRightStops(slashes + Join(init), last);
    }
  }

  lemma StripSlashed(slashes: string, init: Names, last: string)
    requires Slashed(slashes)
    ensures Strip(slashes + Join(init + [last])) == slashes + Join(init + [TrimRight(last)])
  {
    var s := slashes + Join(init + [last]);
    assert s[0] == '/' && TrimLeft(s) == s;
    TrimSlashed(slashes, init, last);
  }

  // ---- the closed form ----

  /** What the parsed path says about a root with these slashes and names. */
  lemma Verdict(value: string, slashes: string, tail: Names)
    requires Slashed(slashes) && Strip(value) != "" && Strip(value)[0] == '/'
    requires Parse(Strip(value)) == Pure(slashes, tail)
    requires forall i :: 0 <= i < |tail| ==> Kept(tail[i]) && '/' !in tail[i]
    ensures NormalizeRootPath(value)
            == if slashes == "/" && tail == [] then Refused(IsRoot)
               else if ".." in tail then Refused(Escapes)
               else Ok(slashes + Join(tail))
  {
    if tail != [] {
      KeptStart(tail);
      assert (slashes + Join(tail))[|slashes|] == Join(tail)[0];
    } else {
      assert slashes + "" == slashes;
    }
  }

  lemma {:induction false} KeptStart(tail: Names)
    requires tail != [] && forall i :: 0 <= i < |tail| ==> Kept(tail[i]) && '/' !in tail[i]
    ensures Join(tail) != "" && Join(tail)[0] != '/'
  {
    assert tail[0] != "" && tail[0][0] in tail[0];
  }

  lemma RemainingKept(init: Names, t: string)
    requires AllClean(init) && '/' !in t
    ensures Keep(init + [t]) == init + Keep([t])
    ensures forall i :: 0 <= i < |init + Keep([t])| ==> Kept((init + Keep([t]))[i]) && '/' !in (init + Keep([t]))[i]
    ensures ".." in init + Keep([t]) <==> t == ".."
  {
    KeepConcat(init, [t]);
    KeepClean(init);
    KeepNext(t, []);
    assert [t] + [] == [t];
  }

  lemma PartsAgain(root: string, slashes: string, init: Names, last: string, t: string, tail: Names)
    requires root == slashes + Join(init + [last])
    requires Slashed(slashes) && AllClean(init) && '/' !in last && t == TrimRight(last) && tail == init + Keep([t])
    ensures NormalizeRootPath(root)
            == if slashes == "/" && tail == [] then Refused(IsRoot)
               else if t == ".." then Refused(Escapes)
               else Ok(slashes + Join(tail))
  {
    StripChars(last, '/');
    StripSlashed(slashes, init, last);
    ParseSlashed(slashes, init + [t]);
    RemainingKept(init, t);
    Verdict(root, slashes, tail);
  }

  /** A root of slashes and clean names, normalised: its last name loses trailing whitespace, or goes with it. */
  lemma RootAgain(slashes: string, names: Names)
    requires Slashed(slashes) && AllClean(names) && names != []
    ensures NormalizeRootPath(slashes + Join(names))
            == if slashes == "/" && Remaining(names) == [] then Refused(IsRoot)
               else if TrimRight(names[|names| - 1]) == ".." then Refused(Escapes)
               else Ok(slashes + Join(Remaining(names)))
  {
    var n := |names| - 1;
    assert names == names[..n] + [names[n]];
    PartsAgain(slashes + Join(names), slashes, names[..n], names[n], TrimRight(names[n]), Remaining(names));
  }

  /** A root without names stays itself. */
  lemma BareAgain()
    ensures NormalizeRootPath("//") == Ok("//")
  {
    TwoSlashesAreAccepted();
  }

  // ---- what the settings hold ----

  lemma LastOfRoot(slashes: string, names: Names)
    requires Slashed(slashes) && AllClean(names)
    ensures slashes + Join(names) != ""
    ensures Last(slashes + Join(names)) == if names == [] then '/' else Last(names[|names| - 1])
  {
    if names != [] {
      JoinEnds(names);
    }
  }

  lemma RemainingSame(names: Names)
    requires names != [] && AllClean(names)
    ensures Remaining(names) == names <==> !IsSpace(Last(names[|names| - 1]))
  {
    var n := |names| - 1;
    var last := names[n];
    TrimRightIsPrefix(last);
    KeepNext(TrimRight(last), []);
    assert [TrimRight(last)] + [] == [TrimRight(last)];
    assert names == names[..n] + [last];
    if TrimRight(last) != last && Kept(TrimRight(last)) {
      assert Remaining(names)[n] != names[n];
    }
  }

  lemma SameText(slashes: string, names: Names, tail: Names)
    requires names != [] && AllClean(names)
    requires forall i :: 0 <= i < |tail| ==> Kept(tail[i]) && '/' !in tail[i]
    requires slashes + Join(tail) == slashes + Join(names)
    ensures tail == names
  {
    assert Join(tail) == (slashes + Join(tail))[|slashes|..] == Join(names);
    SplitJoin(names);
    if tail == [] {
      JoinShape(names);
      assert false;
    } else {
      SplitAny(tail);
    }
  }

  /**
   The settings hold the stored root if and only if it does not end in
   whitespace; `value` is any text that was accepted as a root.
   */
  lemma SettingsHoldTheRoot(value: string)
    requires NormalizeRootPath(value).Ok?
    ensures var root := NormalizeRootPath(value).path;
            root != "" && (SettingsRoot(root) == Some(root) <==> !IsSpace(Last(root)))
  {
    var slashes, names := NormalizeRootIsContained(value);
    LastOfRoot(slashes, names);
    if names == [] {
      BareAgain();
      assert "//" + "" == "//";
    } else {
      RootAgain(slashes, names);
      RemainingSame(names);
      var t := TrimRight(names[|names| - 1]);
      StripChars(names[|names| - 1], '/');
      RemainingKept(names[..|names| - 1], t);
      if SettingsRoot(slashes + Join(names)) == Some(slashes + Join(names)) {
        SameText(slashes, names, Remaining(names));
      }
      TrimRightIsPrefix(names[|names| - 1]);
    }
  }

  /** The last name of a root without its trailing whitespace, and whether it is the only one. */
  predicate Refusable(slashes: string, names: Names)
    requires names != []
  {
    var t := TrimRight(names[|names| - 1]);
    t == ".." || (slashes == "/" && |names| == 1 && !Kept(t))
  }

  /**
   The settings refuse a stored root if and only if its last name is `..`
   followed by whitespace, or its only name is nothing or a dot followed by
   whitespace.
   */
  lemma SettingsRefuse(slashes: string, names: Names)
    requires Slashed(slashes) && AllClean(names) && names != []
    ensures SettingsRoot(slashes + Join(names)).None? <==> Refusable(slashes, names)
  {
    var t := TrimRight(names[|names| - 1]);
    RootAgain(slashes, names);
    StripChars(names[|names| - 1], '/');
    RemainingKept(names[..|names| - 1], t);
    KeepNext(t, []);
    assert [t] + [] == [t];
  }

  /** Otherwise they hold the root without the trailing whitespace, or its parent if nothing else was in the last name. */
  lemma SettingsHold(slashes: string, names: Names)
    requires Slashed(slashes) && AllClean(names) && names != [] && !Refusable(slashes, names)
    ensures SettingsRoot(slashes + Join(names)) == Some(slashes + Join(Remaining(names)))
  {
    SettingsRefuse(slashes, names);
    RootAgain(slashes, names);
  }

  // ---- such roots are accepted ----

  /** A root in front of a slash and a dot is accepted as it stands, whatever it ends in. */
  lemma DottedRootAccepted(names: Names)
    requires names != [] && AllClean(names)
    ensures NormalizeRootPath("/" + Join(names) + "/" + ".") == Ok("/" + Join(names))
  {
    var value := "/" + Join(names) + "/" + ".";
    JoinSnoc(names, ".");
    Assoc("/", Join(names) + "/", ".");
    Assoc("/", Join(names), "/");
    assert value == "/" + Join(names + ["."]);
    StripSlashed("/", names, ".");
    assert TrimRight(".") == ".";
    ParseSlashed("/", names + ["."]);
    RemainingKept(names, ".");
    NothingKept(".");
    SplitSegment(".", "");
    assert names + [] == names;
    Verdict(value, "/", names);
  }

  lemma BlankName(name: string)
    requires name == "" || (Clean(name) && !IsSpace(Last(name)))
    ensures Clean(name + " ") && TrimRight(name + " ") == name
  {
    var s := name + " ";
    assert s[|s| - 1] == ' ' && s[..|s| - 1] == name && |s| >= 1;
    assert name != "" ==> |s| >= 2;
    TrimRightIsPrefix(name);
  }

  lemma SettingsCanHoldASibling()
    ensures NormalizeRootPath("/a /.") == Ok("/a ") && SettingsRoot("/a ") == Some("/a")
  {
    assert Clean("a");
    BlankName("a");
    var name := "a" + " ";
    assert name == "a " && Join([name]) == name && "/" + name == "/a " && "/a " + "/" + "." == "/a /.";
    DottedRootAccepted([name]);
    KeepNext("a", []);
    assert Keep(["a"]) == ["a"] + [];
    assert Remaining([name]) == ["a"] && Join(["a"]) == "a" && "/" + "a" == "/a";
    SettingsHold("/", [name]);
  }

  lemma SettingsCanRefuse()
    ensures NormalizeRootPath("/ /.") == Ok("/ ") && SettingsRoot("/ ") == None
  {
    BlankName("");
    var name := "" + " ";
    assert name == " " && Join([name]) == name && "/" + name == "/ " && "/ " + "/" + "." == "/ /.";
    DottedRootAccepted([name]);
    SettingsRefuse("/", [name]);
  }

  lemma SettingsCanHoldTheParent()
    ensures NormalizeRootPath("/a/ /.") == Ok("/a/ ") && SettingsRoot("/a/ ") == Some("/a")
  {
    assert Clean("a");
    BlankName("");
    var names := ["a", " "];
    assert "" + " " == " " && Clean(" ") && AllClean(names);
    assert names[1..] == [" "] && Join(names) == "a" + "/" + " " == "a/ ";
    assert "/" + "a/ " == "/a/ " && "/a/ " + "/" + "." == "/a/ /.";
    DottedRootAccepted(names);
    KeepNext("", []);
    assert [""] + [] == [""] && Keep([""]) == [];
    assert Remaining(names) == ["a"] && Join(["a"]) == "a" && "/" + "a" == "/a";
    SettingsHold("/", names);
  }

  // ---- roots that are too long for a record ----

  /** An accepted root is never too short. */
  lemma FitsIfShort(value: string)
    requires NormalizeRootPath(value).Ok?
    ensures RootFits(NormalizeRootPath(value).path) <==> |NormalizeRootPath(value).path| <= MAX_ROOT
  {
    var slashes, names := NormalizeRootIsContained(value);
    if names != [] {
      JoinShape(names);
    }
  }

  function Letters(n: nat): string {
    seq(n, _ => 'a')
  }

  lemma LettersAreClean(n: nat)
    requires n > 2
    ensures Clean(Letters(n)) && !IsSpace(Last(Letters(n)))
  {
    assert |Letters(n)| == n && forall c :: c in Letters(n) ==> c == 'a';
  }

  /** A root of any length is accepted, and the records refuse the long ones. */
  lemma LongRootIsAccepted(n: nat)
    requires n > 2
    ensures NormalizeRootPath("/" + Letters(n)) == Ok("/" + Letters(n))
    ensures RootFits("/" + Letters(n)) <==> n < MAX_ROOT
  {
    LettersAreClean(n);
    var names := [Letters(n)];
    assert Join(names) == Letters(n) && Last(names[|names| - 1]) == Last(Letters(n));
    RemainingSame(names);
    TrimRightIsPrefix(Letters(n));
    RootAgain("/", names);
  }
}
