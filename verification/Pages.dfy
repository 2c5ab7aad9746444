/**
 Bounded text extraction: the page loop of a PDF and the final bound. The text
 is a prefix of all pages joined by newlines; the truncation flag is raised
 exactly from 199999 characters on, so also for some complete texts.
 */
module Pages {
  import opened Options
  import opened Paths
  import opened Sequences

  const MAX_CHARACTERS := 200000

  const MAX_PAGES := 100

  datatype How = Pypdf | Plain | OcrRequired | EncryptedPdf

  datatype Outcome = Document(how: How, text: string, truncated: bool) | ExtractionError

  /** A page whose extraction raises is `None`. */
  type Page = Option<string>

  function JoinLines(pages: seq<string>): string {
    if pages == [] then "" else
    var n := |pages| - 1;
    if n == 0 then pages[0] else JoinLines(pages[..n]) + "\n" + pages[n]
  }

  function DropNul(s: string): string {
    if s == "" then "" else (if s[0] == '\0' then "" else [s[0]]) + DropNul(s[1..])
  }

  /** The texts of the pages before the first one that raises. */
  function Readable(pages: seq<Page>): seq<string> {
    if pages == [] || pages[0].None? then [] else [pages[0].value] + Readable(pages[1..])
  }

  /** The loop goes on to another page after these ones. */
  predicate GoesOn(pages: seq<string>) {
    pages == [] || |JoinLines(pages)| <= MAX_CHARACTERS - 2
  }

  function Bounded(how: How, text: string, extractionTruncated: bool): Outcome {
    var normalized := DropNul(text);
    Document(how, if |normalized| <= MAX_CHARACTERS then normalized else normalized[..MAX_CHARACTERS],
             extractionTruncated || |normalized| > MAX_CHARACTERS)
  }

  predicate EndsJustBefore(pages: seq<string>, i: nat) {
    i <= |pages| && |JoinLines(pages[..i])| == MAX_CHARACTERS - 1
  }

  /** Some page ends one character before the limit. */
  ghost predicate PageEndsJustBefore(pages: seq<string>) {
    exists i: nat :: EndsJustBefore(pages, i)
  }

  /** The text of the loop: everything, or the first 200000 characters, or one less where a page ends. */
  ghost function Kept(pages: seq<string>): string {
    var all := JoinLines(pages);
    if GoesOn(pages) then all
    else if PageEndsJustBefore(pages) then all[..MAX_CHARACTERS - 1]
    else all[..if |all| < MAX_CHARACTERS then |all| else MAX_CHARACTERS]
  }

  /** Pages that are never reached do not matter, not even if they would raise. */
  ghost predicate Extracted(r: Outcome, encrypted: bool, pages: seq<Page>) {
    var texts := Readable(pages);
    if encrypted then r == Document(EncryptedPdf, "", false)
    else if |pages| > MAX_PAGES || (|texts| < |pages| && GoesOn(texts)) then r == ExtractionError
    else
      var result := Bounded(Pypdf, Kept(texts), !GoesOn(texts));
      r == if Strip(result.text) == "" then Document(OcrRequired, "", false) else result
  }

  method ExtractPdf(encrypted: bool, pages: seq<Page>) returns (r: Outcome)
    ensures Extracted(r, encrypted, pages)
  {
    if encrypted {
      return Document(EncryptedPdf, "", false);
    }
    if |pages| > MAX_PAGES {
      return ExtractionError;
    }
    ghost var texts := Readable(pages);
    ReadableIs(pages);
    var parts: seq<string> := [];
    var remaining: int := MAX_CHARACTERS;
    var truncated := false;
    var i := 0;
    while i < |pages|
      invariant 0 <= i <= |texts| && parts == texts[..i] && !truncated && GoesOn(parts)
      invariant remaining == MAX_CHARACTERS - if i == 0 then 0 else |JoinLines(parts)| + 1
    {
      if pages[i].None? {
        assert texts[..i] == texts;
        return ExtractionError;
      }
      var text := pages[i].value;
      assert texts[..i + 1] == parts + [text];
      JoinNext(parts, text);
      if |text| > remaining {
        LongPage(texts, i, text, remaining);
        parts := parts + [text[..remaining]];
        truncated := true;
        break;
      }
      parts := parts + [text];
      remaining := remaining - (|text| + 1);
      if remaining <= 0 {
        FullPage(texts, i + 1);
        truncated := true;
        break;
      }
      i := i + 1;
    }
    if !truncated {
      assert texts[..i] == texts;
    }
    var result := Bounded(Pypdf, JoinLines(parts), truncated);
    r := if Strip(result.text) == "" then Document(OcrRequired, "", false) else result;
  }

  lemma {:induction false} ReadableIs(pages: seq<Page>)
    ensures |Readable(pages)| <= |pages|
    ensures forall i :: 0 <= i < |Readable(pages)| ==> pages[i] == Some(Readable(pages)[i])
    ensures |Readable(pages)| < |pages| ==> pages[|Readable(pages)|].None?
  {
    if pages != [] && pages[0].Some? {
      ReadableIs(pages[1..]);
    }
  }

  lemma JoinNext(pages: seq<string>, text: string)
    ensures JoinLines(pages + [text]) == if pages == [] then text else JoinLines(pages) + "\n" + text
  {
    assert (pages + [text])[..|pages|] == pages;
  }

  /** Every page ends later than the one before. */
  lemma {:induction false} JoinGrows(pages: seq<string>, i: nat)
    requires 0 < i <= |pages|
    ensures |JoinLines(pages[..i])| + (|pages| - i) <= |JoinLines(pages)|
    ensures JoinLines(pages)[..|JoinLines(pages[..i])|] == JoinLines(pages[..i])
  {
    if i == |pages| {
      assert pages[..i] == pages;
    } else {
      var init := pages[..|pages| - 1];
      JoinGrows(init, i);
      assert init[..i] == pages[..i];
    }
  }

  lemma EndsInOrder(pages: seq<string>, m: nat, n: nat)
    requires 0 < m <= n <= |pages|
    ensures |JoinLines(pages[..m])| + (n - m) <= |JoinLines(pages[..n])|
  {
    JoinGrows(pages[..n], m);
    assert pages[..n][..m] == pages[..m];
  }

  lemma NoEndAtStart(pages: seq<string>)
    ensures !EndsJustBefore(pages, 0)
  {
    assert pages[..0] == [];
  }

  /** If page `n` leaves the room, no page ends just before the limit unless this one does. */
  lemma NoOtherEnd(texts: seq<string>, n: nat)
    requires 0 < n <= |texts| && GoesOn(texts[..n - 1]) && |JoinLines(texts[..n])| >= MAX_CHARACTERS - 1
    ensures PageEndsJustBefore(texts) <==> EndsJustBefore(texts, n)
  {
    NoEndAtStart(texts);
    forall i: nat | EndsJustBefore(texts, i) ensures i == n {
      if i < n {
        EndsInOrder(texts, i, n - 1);
      } else {
        EndsInOrder(texts, n, i);
      }
    }
  }

  lemma StopsHere(texts: seq<string>, n: nat)
    requires 0 < n <= |texts| && |JoinLines(texts[..n])| >= MAX_CHARACTERS - 1
    ensures !GoesOn(texts) && |JoinLines(texts[..n])| <= |JoinLines(texts)|
    ensures JoinLines(texts)[..|JoinLines(texts[..n])|] == JoinLines(texts[..n])
  {
    JoinGrows(texts, n);
  }

  lemma LongPage(texts: seq<string>, i: nat, text: string, remaining: int)
    requires i < |texts| && text == texts[i] && GoesOn(texts[..i])
    requires remaining == MAX_CHARACTERS - if i == 0 then 0 else |JoinLines(texts[..i])| + 1
    requires |text| > remaining
    ensures remaining > 0 && JoinLines(texts[..i] + [text[..remaining]]) == Kept(texts) && !GoesOn(texts)
  {
    var before := texts[..i];
    assert texts[..i + 1] == before + [text];
    JoinNext(before, text);
    JoinNext(before, text[..remaining]);
    NoOtherEnd(texts, i + 1);
    StopsHere(texts, i + 1);
    assert JoinLines(before + [text[..remaining]]) == JoinLines(texts[..i + 1])[..MAX_CHARACTERS];
  }

  lemma FullPage(texts: seq<string>, n: nat)
    requires 0 < n <= |texts| && GoesOn(texts[..n - 1])
    requires MAX_CHARACTERS - 1 <= |JoinLines(texts[..n])| <= MAX_CHARACTERS
    ensures JoinLines(texts[..n]) == Kept(texts) && !GoesOn(texts)
  {
    NoOtherEnd(texts, n);
    StopsHere(texts, n);
  }

  // ---- what the text means ----

  lemma {:induction false} DropNulIs(s: string)
    ensures |DropNul(s)| <= |s| && '\0' !in DropNul(s)
    ensures '\0' !in s ==> DropNul(s) == s
  {
    if s != "" {
      DropNulIs(s[1..]);
    }
  }

  /**
   The kept text is a prefix of all pages joined, within the limit; with the
   flag down it is everything.
   */
  lemma KeptIsPrefix(pages: seq<string>)
    ensures var all, kept := JoinLines(pages), Kept(pages);
            && kept == all[..|kept|] && |kept| <= MAX_CHARACTERS
            && (GoesOn(pages) ==> kept == all)
            && (!GoesOn(pages) ==> MAX_CHARACTERS - 1 <= |kept|)
  {
    if PageEndsJustBefore(pages) {
      var i: nat :| EndsJustBefore(pages, i);
      NoEndAtStart(pages);
      JoinGrows(pages, i);
    }
  }

  /** The bound drops NULs, keeps the limit, and is raised exactly when something was cut here or before. */
  lemma BoundedIs(how: How, text: string, extractionTruncated: bool)
    ensures var r, all := Bounded(how, text, extractionTruncated), DropNul(text);
            && |r.text| <= MAX_CHARACTERS && '\0' !in r.text && r.text == all[..|r.text|]
            && (r.truncated <==> extractionTruncated || r.text != all)
  {
    DropNulIs(text);
  }

  /**
   The flag is raised although the text is complete if and only if the pages
   have 199999 characters together, or 200000 and no page ends after 199999.
   */
  lemma FlaggedButComplete(pages: seq<string>)
    ensures !GoesOn(pages) && Kept(pages) == JoinLines(pages)
            <==> || |JoinLines(pages)| == MAX_CHARACTERS - 1
                 || (|JoinLines(pages)| == MAX_CHARACTERS && !PageEndsJustBefore(pages))
  {
    KeptIsPrefix(pages);
    assert JoinLines(pages)[..|JoinLines(pages)|] == JoinLines(pages);
    if |JoinLines(pages)| == MAX_CHARACTERS - 1 {
      assert pages[..|pages|] == pages;
      assert EndsJustBefore(pages, |pages|);
    }
  }

  /** Dropping goes character by character. */
  lemma {:induction false} DropNulConcat(a: string, b: string)
    ensures DropNul(a + b) == DropNul(a) + DropNul(b)
  {
    if a == "" {
      assert a + b == b;
    } else {
      assert (a + b)[0] == a[0] && (a + b)[1..] == a[1..] + b;
      DropNulConcat(a[1..], b);
      Assoc(if a[0] == '\0' then "" else [a[0]], DropNul(a[1..]), DropNul(b));
    }
  }

  lemma DropNulOne(c: char)
    ensures DropNul([c]) == if c == '\0' then "" else [c]
  {
    assert [c][1..] == "";
  }

  /**
   Which answer an extraction gives. `texts` are the pages before the first one
   that raises, or all of them: an encrypted document is not read; more than 100
   pages or a page that raises within the first 199998 characters is an error; a
   text of nothing but whitespace needs OCR; anything else is the kept text, and
   the flag says that it came to more than 199998 characters.
   */
  lemma ExtractAnswers(r: Outcome, encrypted: bool, pages: seq<Page>, texts: seq<string>)
    requires Extracted(r, encrypted, pages)
    requires |texts| <= |pages| && (forall i :: 0 <= i < |texts| ==> pages[i] == Some(texts[i]))
    requires |texts| < |pages| ==> pages[|texts|].None?
    ensures r == Document(EncryptedPdf, "", false) <==> encrypted
    ensures r == ExtractionError <==>
            !encrypted && (|pages| > 100 || (|texts| < |pages| && (texts == [] || |JoinLines(texts)| <= 199998)))
    ensures !encrypted && r != ExtractionError ==>
              r == if Strip(DropNul(Kept(texts))) == "" then Document(OcrRequired, "", false)
                   else Document(Pypdf, DropNul(Kept(texts)), texts != [] && |JoinLines(texts)| > 199998)
  {
    ReadableIs(pages);
    ReadableOnce(pages, texts);
    DropNulIs(Kept(texts));
  }

  lemma {:induction false} ReadableOnce(pages: seq<Page>, texts: seq<string>)
    requires |texts| <= |pages| && (forall i :: 0 <= i < |texts| ==> pages[i] == Some(texts[i]))
    requires |texts| < |pages| ==> pages[|texts|].None?
    ensures Readable(pages) == texts
  {
    if texts != [] {
      ReadableOnce(pages[1..], texts[1..]);
    }
  }
}
