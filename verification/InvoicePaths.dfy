/** Where invoices are read from and reports are written to: inside the folders of the profile. */
module InvoicePaths {
  import opened Options
  import opened Paths
  import opened Sequences
  import opened Targets

  datatype Accepted = Path(path: string) | BadInvoicePath | OutsideInbox

  /** `candidate.is_relative_to(inbox)`. */
  predicate IsRelativeTo(candidate: Pure, inbox: Pure) {
    Parts(inbox) <= Parts(candidate)
  }

  function InvoicePath(inbox: string, value: string): Accepted {
    match NormalizeRelativePath(value)
    case Refused(_) => BadInvoicePath
    case Ok(normalized) =>
      if IsRelativeTo(Parse(normalized), Parse(inbox)) then Path(Str(Parse(normalized))) else OutsideInbox
  }

  function ReportPath(folder: string, sha: string): string {
    folder + "/" + (sha + ".review.json")
  }

  /** An invoice path is accepted exactly if its names lie below the inbox, and then it is those names. */
  lemma InvoiceStaysInInbox(inbox: seq<string>, value: string, names: seq<string>)
    requires inbox != [] && AllClean(inbox) && names != [] && AllClean(names)
    requires NormalizeRelativePath(value) == Ok(Join(names))
    ensures InvoicePath(Join(inbox), value) == if inbox <= names then Path(Join(names)) else OutsideInbox
  {
    ParseJoin(inbox);
    ParseJoin(names);
  }

  // ---- the entry that the next request addresses ----

  /** The last name of the inbox as a request below the inbox reads it. */
  function LastName(inbox: Names): string
    requires inbox != []
  {
    if |inbox| == 1 then TrimLeft(inbox[0]) else inbox[|inbox| - 1]
  }

  /** The names before it. */
  function FirstNames(inbox: Names): Names
    requires inbox != []
  {
    if |inbox| == 1 then [] else [TrimLeft(inbox[0])] + inbox[1..|inbox| - 1]
  }

  /** Trailing whitespace of the last name is absent, or all there is but a dot. */
  predicate Settled(inbox: Names)
    requires inbox != []
  {
    var last := LastName(inbox);
    TrimRight(last) == last || !Kept(TrimRight(last))
  }

  lemma LandingOfInbox(inbox: Names)
    requires inbox != []
    ensures Landing(inbox) == Keep(FirstNames(inbox)) + Keep([TrimRight(LastName(inbox))])
  {
    KeepConcat(FirstNames(inbox), [TrimRight(LastName(inbox))]);
  }

  lemma TrimEndsOf(first: string, middle: Names, last: string)
    ensures TrimEnds([first] + (middle + [last])) == [TrimLeft(first)] + (middle + [TrimRight(last)])
  {
    var names := [first] + (middle + [last]);
    assert names[1..|names| - 1] == middle;
    Assoc([TrimLeft(first)], middle, [TrimRight(last)]);
  }

  lemma Regroup5(f: Names, middle: Names, l: Names, start: Names, end: Names)
    ensures f + (middle + l + start + end) == (f + middle) + (l + (start + end))
    ensures f + (middle + l) + (start + end) == f + (middle + l + start + end)
  {
  }

  lemma Unsnoc(names: Names)
    requires names != []
    ensures names == names[..|names| - 1] + [names[|names| - 1]]
  {
  }

  lemma EndsBelow(inbox: Names, rest: Names)
    requires inbox != [] && rest != []
    ensures TrimEnds(inbox + rest)
            == FirstNames(inbox) + ([LastName(inbox)] + (rest[..|rest| - 1] + [TrimRight(rest[|rest| - 1])]))
  {
    var m := |rest| - 1;
    var start, end := rest[..m], rest[m];
    Unsnoc(rest);
    if |inbox| == 1 {
      assert inbox == [inbox[0]];
      TrimEndsOf(inbox[0], start, end);
    } else {
      EndsBelowLong(inbox[0], inbox[1..|inbox| - 1], inbox[|inbox| - 1], start, end);
      assert inbox == [inbox[0]] + (inbox[1..|inbox| - 1] + [inbox[|inbox| - 1]]);
    }
  }

  lemma EndsBelowLong(first: string, middle: Names, last: string, start: Names, end: string)
    ensures TrimEnds([first] + (middle + [last]) + (start + [end]))
            == [TrimLeft(first)] + middle + ([last] + (start + [TrimRight(end)]))
  {
    Regroup5([first], middle, [last], start, [end]);
    TrimEndsOf(first, middle + [last] + start, end);
    Regroup5([TrimLeft(first)], middle, [last], start, [TrimRight(end)]);
  }

  lemma LandingBelow(inbox: Names, rest: Names) returns (below: Names)
    requires inbox != [] && rest != []
    ensures Landing(inbox + rest) == Keep(FirstNames(inbox)) + (Keep([LastName(inbox)]) + below)
  {
    var tail := rest[..|rest| - 1] + [TrimRight(rest[|rest| - 1])];
    below := Keep(tail);
    EndsBelow(inbox, rest);
    KeepConcat(FirstNames(inbox), [LastName(inbox)] + tail);
    KeepConcat([LastName(inbox)], tail);
  }

  lemma PrefixAfter(front: Names, a: Names, b: Names)
    ensures front + a <= front + b <==> a <= b
  {
    if front + a <= front + b {
      assert forall i :: 0 <= i < |a| ==> (front + a)[|front| + i] == a[i] == (front + b)[|front| + i] == b[i];
    }
  }

  /** What is left of the last name is a prefix of what follows exactly if nothing was taken from it, or everything. */
  lemma LastStays(last: string, below: Names)
    ensures Keep([TrimRight(last)]) <= Keep([last]) + below <==> TrimRight(last) == last || !Kept(TrimRight(last))
  {
    var t := TrimRight(last);
    TrimRightIsPrefix(last);
    KeepNext(t, []);
    KeepNext(last, []);
    assert [t] + [] == [t] && [last] + [] == [last] && Keep([]) == [];
    if Kept(t) && t != last {
      assert (Keep([last]) + below)[0] == last;
    }
  }

  /** The requests for both paths are made, and the second entry lies at or below the first. */
  predicate AddressedBelow(folder: string, path: string) {
    Target(folder).Some? && Target(path).Some? && Target(folder).value <= Target(path).value
  }

  /**
   The request for an accepted invoice addresses an entry below that of the
   inbox if and only if the last name of the inbox does not end in whitespace,
   or vanishes with it, and no `..` appears when the path is trimmed again.
   */
  lemma InvoiceLiesBelowInbox(inbox: Names, rest: Names)
    requires inbox != [] && rest != [] && AllClean(inbox + rest) && NoBackslashes(inbox + rest)
    ensures AddressedBelow(Join(inbox), Join(inbox + rest)) <==> Settled(inbox) && ".." !in Landing(inbox + rest)
  {
    InboxAlone(inbox, rest);
    TargetIs(inbox);
    TargetIs(inbox + rest);
    LandingOfInbox(inbox);
    var below := LandingBelow(inbox, rest);
    PrefixAfter(Keep(FirstNames(inbox)), Keep([TrimRight(LastName(inbox))]), Keep([LastName(inbox)]) + below);
    LastStays(LastName(inbox), below);
    if Settled(inbox) {
      PrefixHas(Landing(inbox), Landing(inbox + rest), "..");
    }
  }

  lemma PrefixHas(a: Names, b: Names, x: string)
    requires a <= b
    ensures x in a ==> x in b
  {
  }

  lemma InboxAlone(inbox: Names, rest: Names)
    requires AllClean(inbox + rest) && NoBackslashes(inbox + rest)
    ensures AllClean(inbox) && NoBackslashes(inbox)
  {
    assert forall i :: 0 <= i < |inbox| ==> (inbox + rest)[i] == inbox[i];
  }

  // ---- an accepted invoice beside its inbox ----

  lemma TailedUnsettled(inbox: Names)
    requires inbox != [] && AllClean(inbox) && Edgeless(inbox)
    ensures !Settled(Tailed(inbox))
  {
    var n := |inbox| - 1;
    var last := inbox[n];
    var s := last + " ";
    assert s[|s| - 1] == ' ' && s[..|s| - 1] == last;
    TrimRightIsPrefix(last);
    assert TrimRight(s) == TrimRight(last) == last;
    TrimLeftIsSuffix(s);
    assert |inbox| == 1 ==> s[0] == inbox[0][0];
  }

  lemma JoinedEdges(inbox: Names, rest: Names)
    requires inbox != [] && rest != [] && AllClean(inbox + rest)
    ensures AllClean(inbox) && AllClean(rest)
    ensures (inbox + rest)[0] == inbox[0] && (inbox + rest)[|inbox + rest| - 1] == rest[|rest| - 1]
  {
    assert forall i :: 0 <= i < |inbox| ==> (inbox + rest)[i] == inbox[i];
    assert forall i :: 0 <= i < |rest| ==> (inbox + rest)[|inbox| + i] == rest[i];
  }

  /**
   For every inbox that ends in a blank and everything in it whose name does
   not: the path is accepted as an invoice of the inbox, and the request for it
   goes elsewhere.
   */
  lemma InvoiceCanLieOutside(inbox: Names, rest: Names)
    requires inbox != [] && AllClean(inbox) && NoBackslashes(inbox) && Edgeless(inbox)
    requires rest != [] && AllClean(rest) && NoBackslashes(rest) && !IsSpace(Last(rest[|rest| - 1]))
    ensures var folder, path := Join(Tailed(inbox)), Join(Tailed(inbox) + rest);
            && NormalizeRelativePath(path) == Ok(path) && InvoicePath(folder, path) == Path(path)
            && !AddressedBelow(folder, path)
  {
    var tailed := Tailed(inbox);
    TailedClean(inbox);
    JoinedEdges(tailed, rest);
    assert tailed[0][0] == inbox[0][0];
    EdgelessAccepted(tailed + rest);
    InvoiceStaysInInbox(tailed, Join(tailed + rest), tailed + rest);
    TailedUnsettled(inbox);
    InvoiceLiesBelowInbox(tailed, rest);
  }

  /** Such as this one. */
  lemma InvoiceBesideItsInbox()
    ensures NormalizeRelativePath("Inbox /.") == Ok("Inbox ")
    ensures InvoicePath("Inbox ", "Inbox /x.pdf") == Path("Inbox /x.pdf") && !AddressedBelow("Inbox ", "Inbox /x.pdf")
  {
    var inbox, rest := ["Inbox"], ["x.pdf"];
    assert Clean("Inbox") && Clean("x.pdf") && NoBackslash("Inbox") && NoBackslash("x.pdf");
    FolderCanEndWithBlank(inbox);
    InvoiceCanLieOutside(inbox, rest);
    BesideTexts(inbox, rest);
  }

  lemma BesideTexts(inbox: Names, rest: Names)
    requires inbox == ["Inbox"] && rest == ["x.pdf"]
    ensures Join(inbox) + " " + "/" + "." == "Inbox /." && Join(inbox) + " " == "Inbox "
    ensures Join(Tailed(inbox)) == "Inbox " && Join(Tailed(inbox) + rest) == "Inbox /x.pdf"
  {
    assert Tailed(inbox) == ["Inbox" + " "] && "Inbox" + " " == "Inbox ";
    assert Tailed(inbox) + rest == ["Inbox ", "x.pdf"] && ["Inbox ", "x.pdf"][1..] == ["x.pdf"];
    assert Join(["Inbox ", "x.pdf"]) == "Inbox " + "/" + "x.pdf";
  }

  // ---- reports ----

  /** A name that a hash and the suffix make up. */
  ghost predicate HashName(sha: string) {
    sha != "" && forall i :: 0 <= i < |sha| ==> '0' <= sha[i] <= '9' || 'a' <= sha[i] <= 'f'
  }

  lemma FileIsClean(sha: string)
    requires HashName(sha)
    ensures var file := sha + ".review.json";
            Clean(file) && '\\' !in file && !IsSpace(Last(file)) && |file| > 12
  {
    var file := sha + ".review.json";
    assert file[|sha|..] == ".review.json";
    forall c | c in file ensures c != '/' && c != '\\' {
      assert c in sha || c in ".review.json";
    }
    assert Last(file) == ".review.json"[11];
  }

  /**
   Requests for a report address the file with its name in the report folder
   if and only if the folder does not start with whitespace.
   */
  lemma ReportStaysInFolder(folder: seq<string>, sha: string)
    requires folder != [] && AllClean(folder) && NoBackslashes(folder) && HashName(sha)
    ensures Target(ReportPath(Join(folder), sha)) == Some(folder + [sha + ".review.json"]) <==> !IsSpace(folder[0][0])
  {
    var file := sha + ".review.json";
    var names := folder + [file];
    FileIsClean(sha);
    JoinSnoc(folder, file);
    assert names[0] == folder[0] && names[|names| - 1] == file;
    AddressesItself(names);
  }
}
