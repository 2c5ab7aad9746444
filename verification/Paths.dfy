/** POSIX paths as `PurePosixPath` reads them, and the three normalisers built on them. */
module Paths {
  // ---- strings ----

  /** The characters that Python's `str.strip()` removes. */
  predicate IsSpace(c: char) {
    var n := c as int;
    || 0x09 <= n <= 0x0D || 0x1C <= n <= 0x20 || n == 0x85 || n == 0xA0 || n == 0x1680
    || 0x2000 <= n <= 0x200A || n == 0x2028 || n == 0x2029 || n == 0x202F || n == 0x205F || n == 0x3000
  }

  function TrimLeft(s: string): string {
    if s != "" && IsSpace(s[0]) then TrimLeft(s[1..]) else s
  }

  function TrimRight(s: string): string {
    if s != "" && IsSpace(s[|s| - 1]) then TrimRight(s[..|s| - 1]) else s
  }

  function Strip(s: string): string {
    TrimRight(TrimLeft(s))
  }

  /** The code points of these characters, one by one. */
  predicate Blank(c: char) {
    c as int in {0x09, 0x0A, 0x0B, 0x0C, 0x0D, 0x1C, 0x1D, 0x1E, 0x1F, 0x20, 0x85, 0xA0, 0x1680, 0x2000, 0x2001, 0x2002,
                 0x2003, 0x2004, 0x2005, 0x2006, 0x2007, 0x2008, 0x2009, 0x200A, 0x2028, 0x2029, 0x202F, 0x205F, 0x3000}
  }

  predicate AllBlank(s: string) {
    forall i :: 0 <= i < |s| ==> Blank(s[i])
  }

  lemma {:induction false} TrimLeftIs(s: string) returns (head: string)
    ensures s == head + TrimLeft(s) && AllBlank(head)
    ensures TrimLeft(s) != "" ==> !Blank(TrimLeft(s)[0])
  {
    if s != "" && IsSpace(s[0]) {
      var rest := TrimLeftIs(s[1..]);
      head := [s[0]] + rest;
      assert TrimLeft(s) == TrimLeft(s[1..]);
      assert s == [s[0]] + s[1..] == [s[0]] + (rest + TrimLeft(s[1..])) == head + TrimLeft(s[1..]);
    } else {
      head := "";
      assert TrimLeft(s) == s == head + s;
    }
  }

  lemma {:induction false} TrimRightIs(s: string) returns (tail: string)
    ensures s == TrimRight(s) + tail && AllBlank(tail)
    ensures TrimRight(s) != "" ==> !Blank(TrimRight(s)[|TrimRight(s)| - 1]) && TrimRight(s)[0] == s[0]
  {
    if s != "" && IsSpace(s[|s| - 1]) {
      var init, last := s[..|s| - 1], s[|s| - 1];
      var rest := TrimRightIs(init);
      tail := rest + [last];
      assert TrimRight(s) == TrimRight(init);
      assert s == init + [last] == TrimRight(init) + rest + [last] == TrimRight(init) + tail;
    } else {
      tail := "";
      assert TrimRight(s) == s == s + tail;
    }
  }

  /** Stripping takes whitespace off both ends and leaves none there. */
  lemma StripIs(s: string) returns (head: string, tail: string)
    ensures s == head + (Strip(s) + tail) && AllBlank(head) && AllBlank(tail)
    ensures Strip(s) != "" ==> !Blank(Strip(s)[0]) && !Blank(Strip(s)[|Strip(s)| - 1])
  {
    head := TrimLeftIs(s);
    tail := TrimRightIs(TrimLeft(s));
  }

  function Slashes(s: string): string {
    seq(|s|, i requires 0 <= i < |s| => if s[i] == '\\' then '/' else s[i])
  }

  function DropSlashes(s: string): string {
    if s != "" && s[0] == '/' then DropSlashes(s[1..]) else s
  }

  /** `rstrip("/")`. */
  function ChopSlashes(s: string): string {
    if s != "" && s[|s| - 1] == '/' then ChopSlashes(s[..|s| - 1]) else s
  }

  function Split(s: string): (parts: seq<string>)
    ensures |parts| >= 1
  {
    if s == "" then [""]
    else if s[0] == '/' then [""] + Split(s[1..])
    else var rest := Split(s[1..]); [[s[0]] + rest[0]] + rest[1..]
  }

  function Join(parts: seq<string>): string {
    if parts == [] then "" else if |parts| == 1 then parts[0] else parts[0] + "/" + Join(parts[1..])
  }

  // ---- PurePosixPath ----

  datatype Pure = Pure(root: string, tail: seq<string>)

  predicate Kept(part: string) {
    part != "" && part != "."
  }

  function Keep(parts: seq<string>): seq<string> {
    if parts == [] then [] else (if Kept(parts[0]) then [parts[0]] else []) + Keep(parts[1..])
  }

  lemma KeepNext(part: string, rest: seq<string>)
    ensures Keep([part] + rest) == (if Kept(part) then [part] else []) + Keep(rest)
  {
    assert ([part] + rest)[1..] == rest;
  }

  /** Exactly two leading slashes are a root of their own. */
  function RootOf(s: string): string {
    if s == "" || s[0] != '/' then ""
    else if |s| >= 2 && s[1] == '/' && !(|s| >= 3 && s[2] == '/') then "//"
    else "/"
  }

  function Parse(s: string): Pure {
    Pure(RootOf(s), Keep(Split(s)))
  }

  function Str(p: Pure): string {
    if p.root == "" && p.tail == [] then "." else p.root + Join(p.tail)
  }

  function Parts(p: Pure): seq<string> {
    if p.root == "" then p.tail else [p.root] + p.tail
  }

  // ---- the normalisers ----

  datatype Refusal = Empty | Escapes | IsRoot | NotAbsolute

  datatype Result = Ok(path: string) | Refused(why: Refusal)

  /** config.normalize_relative_path */
  function NormalizeRelativePath(value: string): Result {
    var raw := Slashes(Strip(value));
    if raw == "" then Refused(Empty) else
    var candidate := Parse(raw);
    if candidate.root != "" || ".." in candidate.tail then Refused(Escapes)
    else if Str(candidate) == "" || Str(candidate) == "." then Refused(IsRoot)
    else Ok(Str(candidate))
  }

  /** config.normalize_root_path */
  function NormalizeRootPath(value: string): Result {
    var stripped := Strip(value);
    if stripped == "" || stripped[0] != '/' then Refused(NotAbsolute) else
    var normalized := Str(Parse(stripped));
    if normalized == "/" || normalized == "." then Refused(IsRoot)
    else if ".." in Parse(stripped).tail then Refused(Escapes)
    else Ok(normalized)
  }

  /** WebDAVClient._normalize_relative: the root is the empty path, leading slashes are dropped. */
  function NormalizeRelative(path: string): Result {
    var raw := Slashes(Strip(path));
    if raw == "" || raw == "." || raw == "/" then Ok("") else
    var candidate := Parse(DropSlashes(raw));
    if candidate.root != "" || ".." in candidate.tail then Refused(Escapes)
    else if Str(candidate) == "." then Ok("")
    else Ok(Str(candidate))
  }

  // ---- clean segments ----

  /** A name that cannot leave its folder: not empty, not a dot entry, no slash. */
  predicate Clean(name: string) {
    name != "" && name != "." && name != ".." && '/' !in name
  }

  predicate AllClean(names: seq<string>) {
    forall i :: 0 <= i < |names| ==> Clean(names[i])
  }

  lemma {:induction false} SplitHasNoSlash(s: string)
    ensures forall i :: 0 <= i < |Split(s)| ==> '/' !in Split(s)[i]
  {
    if s != "" {
      SplitHasNoSlash(s[1..]);
    }
  }

  lemma {:induction false} KeepShape(parts: seq<string>)
    requires forall i :: 0 <= i < |parts| ==> '/' !in parts[i]
    ensures forall i :: 0 <= i < |Keep(parts)| ==> Kept(Keep(parts)[i]) && '/' !in Keep(parts)[i]
  {
    if parts != [] {
      KeepShape(parts[1..]);
    }
  }

  /** The tail of a path without `..` is clean. */
  lemma TailClean(s: string)
    ensures ".." !in Parse(s).tail ==> AllClean(Parse(s).tail)
  {
    SplitHasNoSlash(s);
    KeepShape(Split(s));
  }

  lemma {:induction false} SplitSegment(name: string, rest: string)
    requires '/' !in name
    ensures Split(name) == [name]
    ensures Split(name + "/" + rest) == [name] + Split(rest)
  {
    if name == "" {
      assert ("" + "/" + rest)[1..] == rest;
    } else {
      SplitSegment(name[1..], rest);
      assert (name + "/" + rest)[1..] == name[1..] + "/" + rest;
      assert [name[0]] + name[1..] == name;
    }
  }

  /** Splitting what was joined gives the names back. */
  lemma {:induction false} SplitJoin(names: seq<string>)
    requires names != [] && AllClean(names)
    ensures Split(Join(names)) == names
  {
    if |names| == 1 {
      SplitSegment(names[0], "");
    } else {
      SplitSegment(names[0], Join(names[1..]));
      SplitJoin(names[1..]);
    }
  }

  lemma {:induction false} KeepClean(names: seq<string>)
    requires AllClean(names)
    ensures Keep(names) == names
  {
    if names != [] {
      KeepClean(names[1..]);
    }
  }

  lemma {:induction false} JoinShape(names: seq<string>)
    requires names != [] && AllClean(names)
    ensures Join(names) != "" && Join(names)[0] != '/' && Join(names)[|Join(names)| - 1] != '/'
    ensures Join(names) != "."
  {
    if |names| > 1 {
      JoinShape(names[1..]);
      assert |Join(names)| > 1;
    }
  }

  /** A normalised path reads back as the same names, with no root. */
  lemma ParseJoin(names: seq<string>)
    requires names != [] && AllClean(names)
    ensures Parse(Join(names)) == Pure("", names) && Str(Parse(Join(names))) == Join(names)
  {
    SplitJoin(names);
    KeepClean(names);
    JoinShape(names);
  }

  // ---- what the normalisers accept ----

  lemma {:induction false} DropSlashesShape(s: string)
    ensures DropSlashes(s) == "" || DropSlashes(s)[0] != '/'
  {
    if s != "" && s[0] == '/' {
      DropSlashesShape(s[1..]);
    }
  }

  /** Every accepted path is the joined names of its clean tail; the workspace root is the empty path. */
  lemma NormalizeRelativeIsContained(path: string) returns (names: seq<string>)
    requires NormalizeRelative(path).Ok?
    ensures AllClean(names) && NormalizeRelative(path).path == Join(names)
    ensures names == [] <==> NormalizeRelative(path).path == ""
  {
    var raw := Slashes(Strip(path));
    if raw == "" || raw == "." || raw == "/" {
      names := [];
    } else {
      var candidate := Parse(DropSlashes(raw));
      TailClean(DropSlashes(raw));
      names := candidate.tail;
      if names != [] {
        JoinShape(names);
      }
    }
  }

  lemma NormalizeRelativePathIsContained(value: string) returns (names: seq<string>)
    requires NormalizeRelativePath(value).Ok?
    ensures names != [] && AllClean(names) && NormalizeRelativePath(value).path == Join(names)
  {
    var candidate := Parse(Slashes(Strip(value)));
    TailClean(Slashes(Strip(value)));
    names := candidate.tail;
  }

  /** An accepted root has one or two leading slashes and clean names below. */
  lemma NormalizeRootIsContained(value: string) returns (root: string, names: seq<string>)
    requires NormalizeRootPath(value).Ok?
    ensures (root == "/" || root == "//") && AllClean(names) && NormalizeRootPath(value).path == root + Join(names)
    ensures root == "/" ==> names != []
  {
    var p := Parse(Strip(value));
    TailClean(Strip(value));
    root, names := p.root, p.tail;
  }

  /** A text with exactly two leading slashes whose segments are all empty or `.`. */
  predicate BareDoubleSlash(s: string) {
    RootOf(s) == "//" && forall i :: 0 <= i < |Split(s)| ==> !Kept(Split(s)[i])
  }

  lemma {:induction false} KeepNothing(parts: seq<string>)
    ensures Keep(parts) == [] <==> forall i :: 0 <= i < |parts| ==> !Kept(parts[i])
  {
    if parts != [] {
      KeepNothing(parts[1..]);
      if forall i :: 0 <= i < |parts[1..]| ==> !Kept(parts[1..][i]) {
        assert forall i :: 0 < i < |parts| ==> parts[i] == parts[1..][i - 1];
      } else {
        var i :| 0 <= i < |parts[1..]| && Kept(parts[1..][i]);
        assert Kept(parts[i + 1]);
      }
    }
  }

  /** An accepted root has no names below it if and only if it is a bare pair of slashes; it is kept as that. */
  lemma RootWithoutNames(value: string)
    ensures NormalizeRootPath(value) == Ok("//") <==> BareDoubleSlash(Strip(value))
    ensures NormalizeRootPath(value).Ok? ==> (Parse(Strip(value)).tail == [] <==> BareDoubleSlash(Strip(value)))
  {
    var s := Strip(value);
    var p := Parse(s);
    KeepNothing(Split(s));
    TailClean(s);
    if p.tail != [] {
      if NormalizeRootPath(value).Ok? {
        JoinShape(p.tail);
        assert Str(p) == p.root + Join(p.tail) && Str(p)[|p.root|] == Join(p.tail)[0] != '/';
        assert |Str(p)| > |p.root| >= 1;
      }
    } else {
      assert p.root + "" == p.root;
    }
  }

  /** Two slashes alone are an accepted root. */
  lemma TwoSlashesAreAccepted()
    ensures NormalizeRootPath("//") == Ok("//")
  {
    assert TrimLeft("//") == "//" && TrimRight("//") == "//";
    SplitSegment("", "/");
    SplitSegment("", "");
    assert "" + "/" + "/" == "//" && "" + "/" + "" == "/";
    assert Split("//") == [""] + ([""] + [""]);
    RootWithoutNames("//");
  }
}
