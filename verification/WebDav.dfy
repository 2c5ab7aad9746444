/**
 The paths of the WebDAV client: how a relative path becomes a URL path and
 how the path of a response becomes a relative path again.
 */
module WebDav {
  import opened Options
  import opened Paths
  import opened Percent
  import opened Sequences
  import opened Utf8

  function QuoteAll(names: seq<string>): seq<string> {
    seq(|names|, i requires 0 <= i < |names| => Quote(names[i]))
  }

  /** `_encode_path`; a root of two slashes is a part like any other and gets quoted. */
  function EncodePath(path: string): string {
    var p := Parse(path);
    var parts := (if p.root == "" || p.root == "/" then [] else [p.root]) + p.tail;
    var encoded := Join(QuoteAll(parts));
    if encoded != "" then "/" + encoded else ""
  }

  /**
   The path part of the base URL: `prefix` is where the server is installed
   and `root` the configured workspace root.
   */
  function BasePath(prefix: string, user: string, root: string): string {
    prefix + "/remote.php/dav/files/" + Quote(user) + EncodePath(root)
  }

  /** The path part of `_url`. */
  function UrlPath(base: string, relative: string): string {
    if relative == "" then base else base + "/" + DropSlashes(EncodePath(relative))
  }

  predicate StartsWith(s: string, start: string) {
    |start| <= |s| && s[..|start|] == start
  }

  /** The path that `_parse_multistatus` reads from the path of an href; `None` when it skips the entry. */
  function ParseHref(base: string, href: string): Option<string> {
    match Unquote(href)
    case None => None
    case Some(text) =>
      var decoded := ChopSlashes(text);
      var basePath := ChopSlashes(base);
      if decoded != basePath && !StartsWith(decoded, basePath + "/") then None
      else Some(DropSlashes(decoded[|basePath|..]))
  }

  // ---- the shape of URLs ----

  /** An absolute path of plain segments, such as "" or "/cloud": it needs no escapes and ends in no slash. */
  predicate PlainPrefix(prefix: string) {
    (forall i :: 0 <= i < |prefix| ==> Bare(prefix[i]) || prefix[i] == '/')
    && (prefix != "" ==> prefix[|prefix| - 1] != '/')
  }

  lemma QuotedIsClean(name: string)
    requires Clean(name)
    ensures Clean(Quote(name))
  {
    QuoteGrows(name);
    if AllUnreserved(name) {
      QuoteUnreserved(name);
    } else {
      QuoteNeverDots(name);
    }
  }

  /** A quoted text that is a dot entry was that dot entry. */
  lemma QuoteNeverDots(name: string)
    ensures Quote(name) == "" || Quote(name) == "." || Quote(name) == ".." ==> name == Quote(name)
  {
    QuoteRoundTrip(name);
    QuoteRoundTrip(".");
    QuoteUnreserved("");
    QuoteUnreserved(".");
    QuoteUnreserved("..");
    QuoteRoundTrip("");
    QuoteRoundTrip("..");
  }

  lemma QuoteAllClean(names: seq<string>)
    requires AllClean(names)
    ensures AllClean(QuoteAll(names)) && |QuoteAll(names)| == |names|
  {
    forall i | 0 <= i < |names| ensures Clean(QuoteAll(names)[i]) {
      QuotedIsClean(names[i]);
    }
  }

  /** Encoding an accepted path quotes its names one by one. */
  lemma EncodeNames(names: seq<string>)
    requires AllClean(names) && names != []
    ensures EncodePath(Join(names)) == "/" + Join(QuoteAll(names))
    ensures EncodePath("/" + Join(names)) == "/" + Join(QuoteAll(names))
  {
    ParseJoin(names);
    QuoteAllClean(names);
    JoinShape(QuoteAll(names));
    JoinShape(names);
    AbsoluteParse(names);
    assert [] + names == names;
  }

  lemma AbsoluteParse(names: seq<string>)
    requires AllClean(names) && names != []
    ensures Parse("/" + Join(names)) == Pure("/", names)
  {
    var s := "/" + Join(names);
    JoinShape(names);
    assert s[1..] == Join(names);
    SplitJoin(names);
    KeepClean(names);
    assert Keep(Split(s)) == Keep(names);
  }

  lemma DropNothing(s: string)
    requires s != "" && s[0] != '/'
    ensures DropSlashes(s) == s && DropSlashes("/" + s) == s
  {
    assert ("/" + s)[1..] == s;
  }

  /** The URL path of accepted names under a single-slash root. */
  lemma UrlOfNames(prefix: string, user: string, root: seq<string>, names: seq<string>)
    requires AllClean(root) && root != [] && AllClean(names)
    ensures BasePath(prefix, user, "/" + Join(root))
            == prefix + "/remote.php/dav/files/" + Quote(user) + "/" + Join(QuoteAll(root))
    ensures UrlPath(BasePath(prefix, user, "/" + Join(root)), Join(names))
            == BasePath(prefix, user, "/" + Join(root)) + Below(QuoteAll(names))
  {
    EncodeNames(root);
    var base := BasePath(prefix, user, "/" + Join(root));
    assert base == prefix + "/remote.php/dav/files/" + Quote(user) + "/" + Join(QuoteAll(root));
    if names != [] {
      EncodeNames(names);
      JoinShape(names);
      QuoteAllClean(names);
      JoinShape(QuoteAll(names));
      DropNothing(Join(QuoteAll(names)));
    }
  }

  // ---- decoding ----

  /** `encoded` is a percent-encoding of `text`. */
  ghost predicate Encodes(encoded: string, text: string) {
    UnquoteBytes(encoded) == Encode(text)
  }

  lemma PlainThen(start: string, encoded: string, text: string)
    requires '%' !in start && Encodes(encoded, text)
    ensures Encodes(start + encoded, start + text)
  {
    UnquotePlain(start, encoded);
    EncodeConcat(start, text);
  }

  lemma QuotedThen(name: string, encoded: string, text: string)
    requires Encodes(encoded, text)
    ensures Encodes(Quote(name) + encoded, name + text)
  {
    UnquoteQuoted(name, encoded);
    EncodeConcat(name, text);
  }

  lemma {:induction false} JoinedThen(names: seq<string>, encoded: string, text: string)
    requires Encodes(encoded, text)
    ensures Encodes(Join(QuoteAll(names)) + encoded, Join(names) + text)
  {
    if names == [] {
      assert "" + encoded == encoded && "" + text == text;
    } else if |names| == 1 {
      QuotedThen(names[0], encoded, text);
    } else {
      JoinedThen(names[1..], encoded, text);
      var more, plain := Join(QuoteAll(names[1..])) + encoded, Join(names[1..]) + text;
      PlainThen("/", more, plain);
      QuotedThen(names[0], "/" + more, "/" + plain);
      JoinStep(names, encoded, text);
    }
  }

  lemma JoinStep(names: seq<string>, encoded: string, text: string)
    requires |names| > 1
    ensures Join(QuoteAll(names)) + encoded == Quote(names[0]) + ("/" + (Join(QuoteAll(names[1..])) + encoded))
    ensures Join(names) + text == names[0] + ("/" + (Join(names[1..]) + text))
  {
    assert QuoteAll(names)[1..] == QuoteAll(names[1..]);
    Assoc4(Quote(names[0]), "/", Join(QuoteAll(names[1..])), encoded);
    Assoc4(names[0], "/", Join(names[1..]), text);
  }

  /** "" for the workspace root, and the joined names below it otherwise. */
  function Below(names: seq<string>): string {
    if names == [] then "" else "/" + Join(names)
  }

  lemma BelowEncodes(names: seq<string>)
    ensures Encodes(Below(QuoteAll(names)), Below(names))
  {
    if names != [] {
      JoinedThen(names, "", "");
      assert Join(QuoteAll(names)) + "" == Join(QuoteAll(names)) && Join(names) + "" == Join(names);
      PlainThen("/", Join(QuoteAll(names)), Join(names));
    }
  }

  /** The text that the path of an entry decodes to. */
  function PlainPath(prefix: string, user: string, root: seq<string>, names: seq<string>): string {
    prefix + "/remote.php/dav/files/" + user + "/" + Join(root) + Below(names)
  }

  /** The text that a URL path encodes, in the grouping of the steps below. */
  lemma UrlEncodesText(start: string, user: string, root: seq<string>, names: seq<string>)
    requires '%' !in start
    ensures Encodes(start + (Quote(user) + ("/" + (Join(QuoteAll(root)) + Below(QuoteAll(names))))),
                    start + (user + ("/" + (Join(root) + Below(names)))))
  {
    BelowEncodes(names);
    var encoded, text := Below(QuoteAll(names)), Below(names);
    JoinedThen(root, encoded, text);
    PlainThen("/", Join(QuoteAll(root)) + encoded, Join(root) + text);
    QuotedThen(user, "/" + (Join(QuoteAll(root)) + encoded), "/" + (Join(root) + text));
    PlainThen(start, Quote(user) + ("/" + (Join(QuoteAll(root)) + encoded)), user + ("/" + (Join(root) + text)));
  }

  lemma UrlGrouped(prefix: string, user: string, root: seq<string>, names: seq<string>)
    requires AllClean(root) && root != [] && AllClean(names)
    ensures UrlPath(BasePath(prefix, user, "/" + Join(root)), Join(names))
            == (prefix + "/remote.php/dav/files/")
               + (Quote(user) + ("/" + (Join(QuoteAll(root)) + Below(QuoteAll(names)))))
  {
    UrlOfNames(prefix, user, root, names);
    Assoc5(prefix + "/remote.php/dav/files/", Quote(user), "/", Join(QuoteAll(root)), Below(QuoteAll(names)));
  }

  /** A URL path decodes to the base names as they are, then the relative path. */
  lemma DecodedUrl(prefix: string, user: string, root: seq<string>, names: seq<string>)
    requires PlainPrefix(prefix) && AllClean(root) && root != [] && AllClean(names)
    ensures Unquote(UrlPath(BasePath(prefix, user, "/" + Join(root)), Join(names)))
            == Some(PlainPath(prefix, user, root, names))
  {
    var start := prefix + "/remote.php/dav/files/";
    UrlGrouped(prefix, user, root, names);
    StartIsPlain(prefix);
    UrlEncodesText(start, user, root, names);
    PlainGrouped(start, user, root, names);
    EncodesDecodes(start + (Quote(user) + ("/" + (Join(QuoteAll(root)) + Below(QuoteAll(names))))),
                   PlainPath(prefix, user, root, names));
  }

  lemma StartIsPlain(prefix: string)
    requires PlainPrefix(prefix)
    ensures '%' !in prefix + "/remote.php/dav/files/"
  {
    assert '%' !in "/remote.php/dav/files/";
  }

  lemma EncodesDecodes(encoded: string, text: string)
    requires Encodes(encoded, text)
    ensures Unquote(encoded) == Some(text)
  {
    RoundTrip(text);
  }

  lemma PlainGrouped(start: string, user: string, root: seq<string>, names: seq<string>)
    ensures start + user + "/" + Join(root) + Below(names) == start + (user + ("/" + (Join(root) + Below(names))))
  {
    Assoc5(start, user, "/", Join(root), Below(names));
  }

  // ---- containment ----

  /**
   The URL of every accepted path is the base followed by clean, slash-free
   segments that decode to the names of the normalised path, in order.
   */
  lemma UrlIsContained(prefix: string, user: string, root: seq<string>, path: string) returns (names: seq<string>)
    requires AllClean(root) && root != [] && NormalizeRelative(path).Ok?
    ensures AllClean(names) && NormalizeRelative(path).path == Join(names)
    ensures var base := BasePath(prefix, user, "/" + Join(root));
            UrlPath(base, NormalizeRelative(path).path) == base + Below(QuoteAll(names))
    ensures AllClean(QuoteAll(names)) && (names != [] ==> Split(Join(QuoteAll(names))) == QuoteAll(names))
    ensures forall i :: 0 <= i < |names| ==> Unquote(QuoteAll(names)[i]) == Some(names[i])
  {
    names := NormalizeRelativeIsContained(path);
    UrlOfNames(prefix, user, root, names);
    QuoteAllClean(names);
    if names != [] {
      SplitJoin(QuoteAll(names));
    }
    forall i | 0 <= i < |names| ensures Unquote(QuoteAll(names)[i]) == Some(names[i]) {
      QuoteRoundTrip(names[i]);
    }
  }

  // ---- listing what was asked for ----

  /** The names that the base path shows in the clear. */
  predicate PlainBase(user: string, root: seq<string>) {
    AllBare(user) && forall i :: 0 <= i < |root| ==> AllBare(root[i])
  }

  lemma QuoteAllUnreserved(names: seq<string>)
    requires forall i :: 0 <= i < |names| ==> AllUnreserved(names[i])
    ensures QuoteAll(names) == names
  {
    forall i | 0 <= i < |names| ensures Quote(names[i]) == names[i] {
      QuoteUnreserved(names[i]);
    }
  }

  lemma QuotedHasNoSlash(name: string, i: nat)
    requires i < |Quote(name)|
    ensures Quote(name)[i] != '/'
  {
    QuoteGrows(name);
  }

  /** The quoted form of a name that needs an escape is longer, and goes on where the plain form has a slash. */
  lemma EscapedFirst(name: string, quotedRest: string, plainRest: string)
    requires !AllUnreserved(name) && (plainRest == "" || plainRest[0] == '/')
    ensures !StartsWith(name + plainRest, Quote(name) + quotedRest)
  {
    var quoted, plain := Quote(name) + quotedRest, name + plainRest;
    QuoteGrows(name);
    QuotedHasNoSlash(name, |name|);
    assert quoted[|name|] == Quote(name)[|name|] != '/';
    assert plainRest != "" ==> plain[|name|] == '/';
    assert |quoted| <= |plain| ==> plain[..|quoted|][|name|] == plain[|name|];
  }

  lemma JoinedFirst(names: seq<string>, rest: string) returns (quotedRest: string, plainRest: string)
    requires names != [] && (rest == "" || rest[0] == '/')
    ensures Join(QuoteAll(names)) == Quote(names[0]) + quotedRest && Join(names) + rest == names[0] + plainRest
    ensures plainRest == "" || plainRest[0] == '/'
    ensures |names| > 1 ==> quotedRest == "/" + Join(QuoteAll(names[1..])) && plainRest == "/" + (Join(names[1..]) + rest)
  {
    if |names| == 1 {
      quotedRest, plainRest := "", rest;
    } else {
      quotedRest, plainRest := "/" + Join(QuoteAll(names[1..])), "/" + (Join(names[1..]) + rest);
      assert QuoteAll(names)[1..] == QuoteAll(names[1..]);
      Assoc(Quote(names[0]), "/", Join(QuoteAll(names[1..])));
      Assoc4(names[0], "/", Join(names[1..]), rest);
    }
  }

  /** Once a name needs an escape, its quoted form runs past the next slash of the plain form. */
  lemma {:induction false} EscapedIsNoPrefix(names: seq<string>, rest: string)
    requires exists i :: 0 <= i < |names| && !AllUnreserved(names[i])
    requires rest == "" || rest[0] == '/'
    ensures !StartsWith(Join(names) + rest, Join(QuoteAll(names)))
  {
    var quotedRest, plainRest := JoinedFirst(names, rest);
    if !AllUnreserved(names[0]) {
      EscapedFirst(names[0], quotedRest, plainRest);
    } else {
      QuoteUnreserved(names[0]);
      var i :| 0 <= i < |names| && !AllUnreserved(names[i]);
      assert names[1..][i - 1] == names[i];
      EscapedIsNoPrefix(names[1..], rest);
      CancelHead("/", Join(names[1..]) + rest, Join(QuoteAll(names[1..])));
      CancelHead(names[0], plainRest, quotedRest);
    }
  }

  lemma CancelHead(head: string, p: string, q: string)
    ensures StartsWith(head + p, head + q) == StartsWith(p, q)
  {
    if StartsWith(head + p, head + q) {
      assert p[..|q|] == (head + p)[|head|..|head| + |q|] == q;
    }
    if StartsWith(p, q) {
      assert (head + p)[..|head + q|] == head + p[..|q|];
    }
  }

  lemma ChopNothing(s: string)
    requires s != "" && s[|s| - 1] != '/'
    ensures ChopSlashes(s) == s
  {
  }

  lemma BelowShape(names: seq<string>)
    requires AllClean(names)
    ensures names != [] ==> Below(names)[|Below(names)| - 1] != '/' && DropSlashes(Below(names)) == Join(names)
    ensures DropSlashes(Below(names)) == Join(names)
  {
    if names != [] {
      JoinShape(names);
      DropNothing(Join(names));
    }
  }

  /** Neither side of the comparison ends in a slash. */
  lemma EndsShape(prefix: string, user: string, root: seq<string>, names: seq<string>)
    requires AllClean(root) && root != [] && AllClean(names)
    ensures ChopSlashes(BasePath(prefix, user, "/" + Join(root))) == BasePath(prefix, user, "/" + Join(root))
    ensures ChopSlashes(PlainPath(prefix, user, root, names)) == PlainPath(prefix, user, root, names)
  {
    EncodeNames(root);
    QuoteAllClean(root);
    JoinShape(QuoteAll(root));
    JoinShape(root);
    BelowShape(names);
    ChopNothing(BasePath(prefix, user, "/" + Join(root)));
    ChopNothing(PlainPath(prefix, user, root, names));
  }

  lemma JoinHead(user: string, root: seq<string>)
    requires root != []
    ensures Join([user] + root) == user + "/" + Join(root)
    ensures Join(QuoteAll([user] + root)) == Quote(user) + "/" + Join(QuoteAll(root))
  {
    assert ([user] + root)[1..] == root && QuoteAll([user] + root)[1..] == QuoteAll(root);
  }

  lemma PathsGrouped(prefix: string, user: string, root: seq<string>, names: seq<string>)
    requires AllClean(root) && root != []
    ensures BasePath(prefix, user, "/" + Join(root))
            == (prefix + "/remote.php/dav/files/") + Join(QuoteAll([user] + root))
    ensures PlainPath(prefix, user, root, names)
            == (prefix + "/remote.php/dav/files/") + (Join([user] + root) + Below(names))
  {
    UrlOfNames(prefix, user, root, []);
    JoinHead(user, root);
    Assoc4(prefix + "/remote.php/dav/files/", Quote(user), "/", Join(QuoteAll(root)));
    Assoc5(prefix + "/remote.php/dav/files/", user, "/", Join(root), Below(names));
  }

  /** A base that needs escapes is no prefix of anything its own URLs decode to. */
  lemma EscapedBaseIsNoPrefix(prefix: string, user: string, root: seq<string>, names: seq<string>)
    requires AllClean(root) && root != [] && !PlainBase(user, root)
    ensures !StartsWith(PlainPath(prefix, user, root, names), BasePath(prefix, user, "/" + Join(root)))
  {
    var all := [user] + root;
    if !AllBare(user) {
      AllBareIs(user);
      assert !AllUnreserved(all[0]);
    } else {
      var i :| 0 <= i < |root| && !AllBare(root[i]);
      AllBareIs(root[i]);
      assert !AllUnreserved(all[i + 1]);
    }
    EscapedIsNoPrefix(all, Below(names));
    PathsGrouped(prefix, user, root, names);
    CancelHead(prefix + "/remote.php/dav/files/", Join(all) + Below(names), Join(QuoteAll(all)));
  }

  /** A base without escapes is what its URLs decode to, up to the relative path. */
  lemma PlainBaseIsPrefix(prefix: string, user: string, root: seq<string>, names: seq<string>)
    requires AllClean(root) && root != [] && PlainBase(user, root)
    ensures PlainPath(prefix, user, root, names) == BasePath(prefix, user, "/" + Join(root)) + Below(names)
  {
    var all := [user] + root;
    forall i | 0 <= i < |all| ensures AllUnreserved(all[i]) {
      AllBareIs(all[i]);
    }
    QuoteAllUnreserved(all);
    PathsGrouped(prefix, user, root, names);
    Assoc(prefix + "/remote.php/dav/files/", Join(all), Below(names));
  }

  /** The same for the names of an entry. */
  lemma HrefRoundTrip(prefix: string, user: string, root: seq<string>, names: seq<string>)
    requires PlainPrefix(prefix) && AllClean(root) && root != [] && AllClean(names)
    ensures var base := BasePath(prefix, user, "/" + Join(root));
            ParseHref(base, UrlPath(base, Join(names))) == if PlainBase(user, root) then Some(Join(names)) else None
  {
    var base := BasePath(prefix, user, "/" + Join(root));
    DecodedUrl(prefix, user, root, names);
    EndsShape(prefix, user, root, names);
    BelowShape(names);
    if PlainBase(user, root) {
      PlainBaseIsPrefix(prefix, user, root, names);
      SuffixOf(base, Below(names));
    } else {
      EscapedBaseIsNoPrefix(prefix, user, root, names);
      StartsShorter(PlainPath(prefix, user, root, names), base);
    }
  }

  /**
   A server that answers with the requested URL is understood if and only if
   the user name and the workspace root need no escapes: then the entry comes
   back as exactly the normalised path, otherwise it is skipped, because the
   base path is compared encoded with an href that has been decoded.
   */
  lemma ListingRoundTrip(prefix: string, user: string, root: seq<string>, path: string)
    requires PlainPrefix(prefix) && AllClean(root) && root != [] && NormalizeRelative(path).Ok?
    ensures var base, relative := BasePath(prefix, user, "/" + Join(root)), NormalizeRelative(path).path;
            ParseHref(base, UrlPath(base, relative)) == if PlainBase(user, root) then Some(relative) else None
  {
    var names := NormalizeRelativeIsContained(path);
    HrefRoundTrip(prefix, user, root, names);
  }

  predicate AllSlashes(s: string) {
    forall i :: 0 <= i < |s| ==> s[i] == '/'
  }

  lemma {:induction false} DropSlashesIs(s: string) returns (gap: string)
    ensures s == gap + DropSlashes(s) && AllSlashes(gap)
    ensures DropSlashes(s) != "" ==> DropSlashes(s)[0] != '/'
    ensures s != "" && s[0] == '/' ==> gap != ""
  {
    if s != "" && s[0] == '/' {
      var rest := DropSlashesIs(s[1..]);
      gap := "/" + rest;
      assert s == "/" + s[1..];
    } else {
      gap := "";
    }
  }

  /**
   Whatever the server answers, an entry that is understood lies at the base or
   below it: what its href decodes to is the base, slashes and the path that is
   read, and no path is read without a slash in front of it.
   */
  lemma UnderstoodLiesBelow(base: string, href: string) returns (gap: string)
    requires ParseHref(base, href).Some?
    ensures Unquote(href).Some?
    ensures ChopSlashes(Unquote(href).value) == ChopSlashes(base) + gap + ParseHref(base, href).value
    ensures AllSlashes(gap) && (ParseHref(base, href).value != "" ==> gap != "" && ParseHref(base, href).value[0] != '/')
  {
    var decoded, basePath := ChopSlashes(Unquote(href).value), ChopSlashes(base);
    var rest := decoded[|basePath|..];
    gap := DropSlashesIs(rest);
    StartsShorter(decoded, basePath);
    assert decoded == basePath + rest;
    Assoc(basePath, gap, DropSlashes(rest));
    if decoded != basePath {
      assert decoded[..|basePath + "/"|][|basePath|] == '/';
    }
  }

  /** And every such href is understood. */
  lemma BelowIsUnderstood(base: string, href: string, text: string, rest: string)
    requires Unquote(href) == Some(text) && ChopSlashes(text) == ChopSlashes(base) + rest
    requires rest == "" || rest[0] == '/'
    ensures ParseHref(base, href) == Some(DropSlashes(rest))
  {
    SuffixOf(ChopSlashes(base), rest);
  }

  // ---- a root of two slashes ----

  lemma DoubleSplit(names: seq<string>)
    requires AllClean(names)
    ensures Keep(Split("//" + Join(names))) == names
  {
    var text := Join(names);
    assert Keep(Split(text)) == names by {
      if names == [] {
        assert Split("") == [""];
        KeepNext("", []);
      } else {
        SplitJoin(names);
        KeepClean(names);
      }
    }
    SplitSegment("", "/" + text);
    SplitSegment("", text);
    assert "" + "/" + text == "/" + text && "" + "/" + ("/" + text) == "//" + text;
    KeepNext("", Split(text));
    KeepNext("", [""] + Split(text));
  }

  lemma DoubleParse(names: seq<string>)
    requires AllClean(names)
    ensures Parse("//" + Join(names)) == Pure("//", names)
  {
    var s := "//" + Join(names);
    DoubleSplit(names);
    if names != [] {
      JoinShape(names);
      assert s[2] == Join(names)[0];
    }
  }

  lemma QuoteSlashes()
    ensures Quote("//") == "%2F%2F"
  {
    var bytes: seq<Byte> := [47, 47];
    assert EncodeChar('/') == [47] && "//"[1..] == "/" && "/"[1..] == "";
    assert Encode("/") == [47] + [] && Encode("//") == [47] + [47] == bytes;
    assert bytes[1..] == [47] && bytes[1..][1..] == [];
    assert QuoteByte(47) == "%2F";
    assert QuoteBytes([47]) == "%2F" + "";
    assert QuoteBytes(bytes) == "%2F" + "%2F";
  }

  lemma JoinMore(first: string, rest: seq<string>)
    ensures Join([first] + rest) == first + Below(rest)
    ensures QuoteAll([first] + rest) == [Quote(first)] + QuoteAll(rest)
  {
    assert ([first] + rest)[1..] == rest;
    if rest != [] {
      Assoc(first, "/", Join(rest));
    }
  }

  lemma DoubleEncoded(names: seq<string>)
    ensures Join(QuoteAll(["//"] + names)) == "%2F%2F" + Below(QuoteAll(names))
  {
    QuoteSlashes();
    JoinMore("//", names);
    JoinMore(Quote("//"), QuoteAll(names));
  }

  /** What `_encode_path` does with a path that has a root of two slashes. */
  lemma EncodeRooted(path: string, root: string, names: seq<string>)
    requires Parse(path) == Pure(root, names) && root != "" && root != "/"
    requires Join(QuoteAll([root] + names)) != ""
    ensures EncodePath(path) == "/" + Join(QuoteAll([root] + names))
  {
  }

  lemma EncodeDouble(names: seq<string>)
    requires AllClean(names)
    ensures EncodePath("//" + Join(names)) == "/" + ("%2F%2F" + Below(QuoteAll(names)))
  {
    DoubleParse(names);
    DoubleEncoded(names);
    EncodeRooted("//" + Join(names), "//", names);
  }

  /**
   Under a root of two slashes these are a segment of their own, quoted: the
   base is not the account's folder, nor a folder of plain names.
   */
  lemma DoubleSlashBase(prefix: string, user: string, names: seq<string>)
    requires AllClean(names)
    ensures BasePath(prefix, user, "//" + Join(names))
            == prefix + "/remote.php/dav/files/" + Quote(user) + ("/" + ("%2F%2F" + Below(QuoteAll(names))))
  {
    EncodeDouble(names);
  }

  lemma UrlBelow(base: string, names: seq<string>)
    requires AllClean(names)
    ensures UrlPath(base, Join(names)) == base + Below(QuoteAll(names))
  {
    if names != [] {
      EncodeNames(names);
      JoinShape(names);
      QuoteAllClean(names);
      JoinShape(QuoteAll(names));
      DropNothing(Join(QuoteAll(names)));
      Assoc(base, "/", Join(QuoteAll(names)));
    } else {
      assert base + "" == base;
    }
  }

  lemma DoubleGrouped(prefix: string, user: string, names: seq<string>)
    requires AllClean(names)
    ensures BasePath(prefix, user, "//" + Join(names))
            == (prefix + "/remote.php/dav/files/") + Join(QuoteAll([user] + (["//"] + names)))
  {
    DoubleSlashBase(prefix, user, names);
    DoubleEncoded(names);
    JoinHead(user, ["//"] + names);
    Assoc(Quote(user), "/", "%2F%2F" + Below(QuoteAll(names)));
    Assoc(prefix + "/remote.php/dav/files/", Quote(user), "/" + ("%2F%2F" + Below(QuoteAll(names))));
  }

  /** What the URL of an entry decodes to, for a base made of any segments. */
  lemma DecodedBelow(start: string, all: seq<string>, rest: seq<string>)
    requires '%' !in start
    ensures Unquote(start + Join(QuoteAll(all)) + Below(QuoteAll(rest))) == Some(start + (Join(all) + Below(rest)))
  {
    BelowEncodes(rest);
    JoinedThen(all, Below(QuoteAll(rest)), Below(rest));
    PlainThen(start, Join(QuoteAll(all)) + Below(QuoteAll(rest)), Join(all) + Below(rest));
    EncodesDecodes(start + (Join(QuoteAll(all)) + Below(QuoteAll(rest))), start + (Join(all) + Below(rest)));
    Assoc(start, Join(QuoteAll(all)), Below(QuoteAll(rest)));
  }

  lemma {:induction false} ChopPrefix(s: string)
    ensures StartsWith(s, ChopSlashes(s))
  {
    if s != "" && s[|s| - 1] == '/' {
      ChopPrefix(s[..|s| - 1]);
    }
  }

  lemma StartsLonger(text: string, short: string, start: string)
    requires StartsWith(text, short) && StartsWith(short, start)
    ensures StartsWith(text, start)
  {
    assert text[..|start|] == short[..|start|];
  }

  /** An href that decodes to something the base is no prefix of is skipped. */
  lemma SkippedUnlessBelow(base: string, href: string, text: string)
    requires Unquote(href) == Some(text) && ChopSlashes(base) == base && !StartsWith(text, base)
    ensures ParseHref(base, href) == None
  {
    var decoded := ChopSlashes(text);
    ChopPrefix(text);
    StartsShorter(decoded, base);
    if StartsWith(decoded, base) {
      StartsLonger(text, decoded, base);
    }
  }

  lemma DoubleEnd(start: string, all: seq<string>)
    requires all != [] && Join(QuoteAll(all)) != "" && Join(QuoteAll(all))[|Join(QuoteAll(all))| - 1] != '/'
    ensures ChopSlashes(start + Join(QuoteAll(all))) == start + Join(QuoteAll(all))
  {
    ChopNothing(start + Join(QuoteAll(all)));
  }

  /** The last character of quoted names is that of the last name. */
  lemma DoubleEndShape(user: string, names: seq<string>)
    requires AllClean(names)
    ensures var quoted := Join(QuoteAll([user] + (["//"] + names)));
            quoted != "" && quoted[|quoted| - 1] != '/'
  {
    JoinHead(user, ["//"] + names);
    DoubleEncoded(names);
    if names != [] {
      QuoteAllClean(names);
      JoinShape(QuoteAll(names));
    }
  }

  /** Such a base is no prefix of what its URLs decode to. */
  lemma DoubleIsNoPrefix(start: string, user: string, names: seq<string>, rest: seq<string>)
    ensures var all := [user] + (["//"] + names);
            !StartsWith(start + (Join(all) + Below(rest)), start + Join(QuoteAll(all)))
  {
    var all := [user] + (["//"] + names);
    assert !AllUnreserved(all[1]) by {
      assert all[1] == "//" && !Unreserved("//"[0] as int);
    }
    EscapedIsNoPrefix(all, Below(rest));
    CancelHead(start, Join(all) + Below(rest), Join(QuoteAll(all)));
  }

  lemma DoubleRest(prefix: string, user: string, names: seq<string>, rest: seq<string>)
    requires PlainPrefix(prefix) && AllClean(names) && AllClean(rest)
    ensures var base := BasePath(prefix, user, "//" + Join(names)); ParseHref(base, UrlPath(base, Join(rest))) == None
  {
    var start, all := prefix + "/remote.php/dav/files/", [user] + (["//"] + names);
    var base := BasePath(prefix, user, "//" + Join(names));
    StartIsPlain(prefix);
    DoubleGrouped(prefix, user, names);
    UrlBelow(base, rest);
    DecodedBelow(start, all, rest);
    DoubleEndShape(user, names);
    DoubleEnd(start, all);
    DoubleIsNoPrefix(start, user, names, rest);
    SkippedUnlessBelow(base, UrlPath(base, Join(rest)), start + (Join(all) + Below(rest)));
  }

  /** Under a root of two slashes no answer to a request of the client's own is understood. */
  lemma DoubleSlashUnread(prefix: string, user: string, names: seq<string>, path: string)
    requires PlainPrefix(prefix) && AllClean(names) && NormalizeRelative(path).Ok?
    ensures var base := BasePath(prefix, user, "//" + Join(names));
            ParseHref(base, UrlPath(base, NormalizeRelative(path).path)) == None
  {
    var rest := NormalizeRelativeIsContained(path);
    DoubleRest(prefix, user, names, rest);
  }

  // ---- whole listings ----

  /** One entry of a multistatus answer; `found` is whether it carries properties with status 200. */
  datatype Response = Response(href: string, found: bool)

  /** How a client with this base URL reads an href. */
  function Reader(base: string): string -> Option<string> {
    (href: string) => ParseHref(base, href)
  }

  function Listed(reader: string -> Option<string>, responses: seq<Response>): seq<string> {
    if responses == [] then [] else
    var last := responses[|responses| - 1];
    Listed(reader, responses[..|responses| - 1])
    + match reader(last.href) case Some(path) => if last.found then [path] else [] case None => []
  }

  /** The loop of `_parse_multistatus`, as far as paths go. */
  method ParseMultistatus(base: string, responses: seq<Response>) returns (result: seq<string>)
    ensures result == Listed(Reader(base), responses)
  {
    result := [];
    var i := 0;
    while i < |responses|
      invariant 0 <= i <= |responses| && result == Listed(Reader(base), responses[..i])
    {
      assert responses[..i + 1][..i] == responses[..i];
      var path := ParseHref(base, responses[i].href);
      i := i + 1;
      if path.None? || !responses[i - 1].found {
        continue;
      }
      result := result + [path.value];
    }
    assert responses[..i] == responses;
  }

  /** The answer that lists these hrefs. */
  function Answer(hrefs: seq<string>): seq<Response> {
    seq(|hrefs|, i requires 0 <= i < |hrefs| => Response(hrefs[i], true))
  }

  lemma ListedNext(reader: string -> Option<string>, responses: seq<Response>, last: Response)
    ensures Listed(reader, responses + [last])
            == Listed(reader, responses)
               + match reader(last.href) case Some(path) => if last.found then [path] else [] case None => []
  {
    assert (responses + [last])[..|responses|] == responses;
  }

  /** If every href is read as its path, or none is, so is the listing. */
  lemma {:induction false} ListedAll(reader: string -> Option<string>, hrefs: seq<string>, paths: seq<string>,
                                     understood: bool)
    requires |hrefs| == |paths|
    requires forall i :: 0 <= i < |hrefs| ==> reader(hrefs[i]) == if understood then Some(paths[i]) else None
    ensures Listed(reader, Answer(hrefs)) == if understood then paths else []
  {
    if hrefs != [] {
      var n := |hrefs| - 1;
      ListedAll(reader, hrefs[..n], paths[..n], understood);
      ListedNext(reader, Answer(hrefs[..n]), Response(hrefs[n], true));
      assert Answer(hrefs) == Answer(hrefs[..n]) + [Response(hrefs[n], true)];
      assert paths == paths[..n] + [paths[n]];
    }
  }

  function Urls(base: string, entries: seq<seq<string>>): seq<string> {
    seq(|entries|, i requires 0 <= i < |entries| => UrlPath(base, Join(entries[i])))
  }

  function JoinAll(entries: seq<seq<string>>): seq<string> {
    seq(|entries|, i requires 0 <= i < |entries| => Join(entries[i]))
  }

  /** A listing comes back complete and in order, or, under a base that needs escapes, empty. */
  lemma ListingComesBack(prefix: string, user: string, root: seq<string>, entries: seq<seq<string>>)
    requires PlainPrefix(prefix) && AllClean(root) && root != []
    requires forall i :: 0 <= i < |entries| ==> AllClean(entries[i])
    ensures var base := BasePath(prefix, user, "/" + Join(root));
            Listed(Reader(base), Answer(Urls(base, entries))) == if PlainBase(user, root) then JoinAll(entries) else []
  {
    var base := BasePath(prefix, user, "/" + Join(root));
    var hrefs, paths := Urls(base, entries), JoinAll(entries);
    forall i | 0 <= i < |entries|
      ensures Reader(base)(hrefs[i]) == if PlainBase(user, root) then Some(paths[i]) else None
    {
      HrefRoundTrip(prefix, user, root, entries[i]);
    }
    ListedAll(Reader(base), hrefs, paths, PlainBase(user, root));
  }

  lemma SuffixOf(base: string, tail: string)
    requires tail == "" || tail[0] == '/'
    ensures (base + tail)[|base|..] == tail
    ensures base + tail == base || StartsWith(base + tail, base + "/")
  {
    if tail != "" {
      assert (base + tail)[..|base + "/"|] == base + "/";
    } else {
      assert base + "" == base;
    }
  }

  lemma StartsShorter(text: string, base: string)
    ensures StartsWith(text, base + "/") || text == base ==> StartsWith(text, base)
  {
    if StartsWith(text, base + "/") {
      assert text[..|base|] == text[..|base + "/"|][..|base|] == base;
    }
  }
}
