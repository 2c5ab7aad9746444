/**
 Amount parsing across locales: a decimal text with any grouping is read as
 exactly the amount it shows, as long as the mark before the decimals occurs
 only there, and fails otherwise.
 */
module Amounts {
  import opened Options

  const NBSP := '\U{00A0}'

  predicate Digit(c: char) {
    '0' <= c <= '9'
  }

  predicate Mark(c: char) {
    c == ',' || c == '.'
  }

  predicate Spacing(c: char) {
    c == ' ' || c == NBSP || c == '\''
  }

  /** `-` and the characters that an amount can consist of. */
  predicate AmountText(s: string) {
    forall c :: c in s ==> Digit(c) || Mark(c) || Spacing(c) || c == '-'
  }

  /** The characters, one by one. */
  lemma AmountTextIs(s: string)
    ensures AmountText(s) <==>
            forall c :: c in s ==>
              c in {'0', '1', '2', '3', '4', '5', '6', '7', '8', '9', ',', '.', ' ', '\U{00A0}', '\'', '-'}
  {
  }

  // ---- the parser ----

  function DropAll(s: string, c: char): string {
    if s == "" then "" else
    var n := |s| - 1;
    DropAll(s[..n], c) + if s[n] == c then "" else [s[n]]
  }

  function Replace(s: string, c: char, d: char): string {
    if s == "" then "" else
    var n := |s| - 1;
    Replace(s[..n], c, d) + if s[n] == c then [d] else [s[n]]
  }

  function RFind(s: string, c: char): int {
    if s == "" then -1 else
    var n := |s| - 1;
    if s[n] == c then n else RFind(s[..n], c)
  }

  function Compact(s: string): string {
    DropAll(DropAll(DropAll(s, ' '), NBSP), '\'')
  }

  function Normalized(value: string): string {
    var s := Compact(value);
    var comma, dot := RFind(s, ','), RFind(s, '.');
    if comma >= 0 && dot >= 0 then
      var separator := if comma > dot then ',' else '.';
      Replace(DropAll(s, if separator == ',' then '.' else ','), separator, '.')
    else if comma >= 0 then Replace(DropAll(s, '.'), ',', '.')
    else s
  }

  /** A decimal number: sign, coefficient, and how many of its digits are decimals. */
  datatype Number = Number(negative: bool, coefficient: nat, places: nat)

  predicate AllDigits(s: string) {
    forall i :: 0 <= i < |s| ==> Digit(s[i])
  }

  function Value(s: string): nat
    requires AllDigits(s)
  {
    if s == "" then 0 else
    var n := |s| - 1;
    Value(s[..n]) * 10 + (s[n] as int - '0' as int)
  }

  function FirstDot(s: string): (i: nat)
    ensures i <= |s|
  {
    if s == "" || s[0] == '.' then 0 else 1 + FirstDot(s[1..])
  }

  function Unsigned(s: string, negative: bool): Option<Number> {
    var i := FirstDot(s);
    var whole, decimals := s[..i], if i < |s| then s[i + 1..] else "";
    if AllDigits(whole) && AllDigits(decimals) && whole + decimals != "" then
      AllDigitsConcat(whole, decimals);
      Some(Number(negative, Value(whole + decimals), |decimals|))
    else None
  }

  /** `Decimal(text)` for texts without exponent and special names. */
  function Decimal(s: string): Option<Number> {
    if s != "" && (s[0] == '-' || s[0] == '+') then Unsigned(s[1..], s[0] == '-') else Unsigned(s, false)
  }

  function Pow10(n: nat): (p: nat)
    ensures p > 0
  {
    if n == 0 then 1 else 10 * Pow10(n - 1)
  }

  /** `n / d` rounded to the nearest integer, ties to even. */
  function HalfEven(n: nat, d: nat): nat
    requires d > 0
  {
    var q, r := n / d, n % d;
    if 2 * r > d || (2 * r == d && q % 2 == 1) then q + 1 else q
  }

  datatype Amount = Amount(negative: bool, cents: nat)

  const PRECISION := 28

  /** Two decimals; more than 28 digits are an invalid operation. */
  function Quantize(n: Number): Option<Amount> {
    var cents := if n.places <= 2 then n.coefficient * Pow10(2 - n.places)
                 else HalfEven(n.coefficient, Pow10(n.places - 2));
    if cents < Pow10(PRECISION) then Some(Amount(n.negative, cents)) else None
  }

  function ParseDecimal(value: string): Option<Amount> {
    match Decimal(Normalized(value))
    case None => None
    case Some(n) => Quantize(n)
  }

  // ---- what a text shows ----

  lemma AllDigitsConcat(a: string, b: string)
    requires AllDigits(a) && AllDigits(b)
    ensures AllDigits(a + b)
  {
  }

  /** The digits of a text. */
  function Digits(s: string): (d: string)
    ensures AllDigits(d)
  {
    if s == "" then "" else
    var n := |s| - 1;
    Digits(s[..n]) + if Digit(s[n]) then [s[n]] else ""
  }

  /** The last comma or dot: what stands before the decimals. */
  function LastMark(s: string): Option<char> {
    if s == "" then None else
    var n := |s| - 1;
    if Mark(s[n]) then Some(s[n]) else LastMark(s[..n])
  }

  /** Digits and minus signs stay, the decimal mark becomes a dot, everything else goes. */
  function Clean(s: string, mark: char): string {
    if s == "" then "" else
    var n := |s| - 1;
    Clean(s[..n], mark) + if Digit(s[n]) || s[n] == '-' then [s[n]] else if s[n] == mark then "." else ""
  }

  lemma DropNext(s: string, x: char, c: char)
    ensures DropAll(s + [x], c) == DropAll(s, c) + if x == c then "" else [x]
  {
    assert (s + [x])[..|s|] == s;
  }

  lemma ReplaceNext(s: string, x: char, c: char, d: char)
    ensures Replace(s + [x], c, d) == Replace(s, c, d) + if x == c then [d] else [x]
  {
    assert (s + [x])[..|s|] == s;
  }

  lemma CleanNext(s: string, x: char, mark: char)
    ensures Clean(s + [x], mark) == Clean(s, mark) + if Digit(x) || x == '-' then [x] else if x == mark then "." else ""
    ensures LastMark(s + [x]) == if Mark(x) then Some(x) else LastMark(s)
  {
    assert (s + [x])[..|s|] == s;
  }

  lemma CompactNext(s: string, x: char)
    ensures Compact(s + [x]) == Compact(s) + if Spacing(x) then "" else [x]
  {
    var a := DropAll(s, ' ');
    var b := DropAll(a, NBSP);
    DropNext(s, x, ' ');
    assert a + "" == a && b + "" == b && Compact(s) + "" == Compact(s);
    if x != ' ' {
      DropNext(a, x, NBSP);
      if x != NBSP {
        DropNext(b, x, '\'');
      }
    }
  }

  predicate AmountChar(x: char) {
    Digit(x) || Mark(x) || Spacing(x) || x == '-'
  }

  /** Dropping the grouping mark and renaming the decimal mark cleans the text. */
  lemma {:induction false} CompactIsClean(s: string, mark: char, other: char)
    requires AmountText(s) && Mark(mark) && Mark(other) && mark != other
    ensures Replace(DropAll(Compact(s), other), mark, '.') == Clean(s, mark)
  {
    if s != "" {
      var init, x := s[..|s| - 1], s[|s| - 1];
      assert s == init + [x] && x in s && AmountChar(x);
      CompactIsClean(init, mark, other);
      CompactNext(init, x);
      CleanNext(init, x, mark);
      assert Compact(init) + "" == Compact(init) && Clean(init, mark) + "" == Clean(init, mark);
      if !Spacing(x) {
        DropNext(Compact(init), x, other);
        var d := DropAll(Compact(init), other);
        assert d + "" == d;
        ReplaceNext(d, x, mark, '.');
      }
    }
  }

  lemma {:induction false} CompactKeepsMarks(s: string)
    ensures LastMark(Compact(s)) == LastMark(s) && (forall c :: c in Compact(s) ==> c in s)
  {
    if s != "" {
      var init, x := s[..|s| - 1], s[|s| - 1];
      assert s == init + [x];
      CompactKeepsMarks(init);
      CompactNext(init, x);
      CleanNext(init, x, ',');
      CleanNext(Compact(init), x, ',');
      assert Compact(init) + "" == Compact(init);
    }
  }

  /** Without commas nothing is dropped or renamed. */
  lemma {:induction false} NothingToReplace(s: string)
    requires ',' !in s
    ensures Replace(DropAll(s, ','), '.', '.') == s
  {
    if s != "" {
      var init, x := s[..|s| - 1], s[|s| - 1];
      assert s == init + [x];
      NothingToReplace(init);
      DropNext(init, x, ',');
      ReplaceNext(DropAll(init, ','), x, '.', '.');
    }
  }

  function MarkOf(s: string): char {
    if LastMark(s) == Some(',') then ',' else '.'
  }

  /** The normalisation cleans with the last mark of the text. */
  lemma NormalizedIs(s: string)
    requires AmountText(s)
    ensures Normalized(s) == Clean(s, MarkOf(s))
  {
    var c := Compact(s);
    RFindIs(c);
    CompactKeepsMarks(s);
    CompactIsClean(s, ',', '.');
    CompactIsClean(s, '.', ',');
    if ',' !in c {
      NothingToReplace(c);
    }
  }

  lemma {:induction false} RFindIs(s: string)
    ensures -1 <= RFind(s, ',') < |s| && -1 <= RFind(s, '.') < |s|
    ensures RFind(s, ',') >= 0 <==> ',' in s
    ensures RFind(s, '.') >= 0 <==> '.' in s
    ensures LastMark(s) == if RFind(s, ',') > RFind(s, '.') then Some(',')
                           else if RFind(s, '.') >= 0 then Some('.') else None
  {
    if s != "" {
      RFindIs(s[..|s| - 1]);
      assert s == s[..|s| - 1] + [s[|s| - 1]];
    }
  }

  lemma {:induction false} CleanConcat(a: string, b: string, mark: char)
    ensures Clean(a + b, mark) == Clean(a, mark) + Clean(b, mark)
  {
    if b == "" {
      assert a + b == a;
    } else {
      var init, x := b[..|b| - 1], b[|b| - 1];
      assert a + b == (a + init) + [x] && b == init + [x];
      CleanConcat(a, init, mark);
      CleanNext(a + init, x, mark);
      CleanNext(init, x, mark);
    }
  }

  /** A text without minus signs and without the mark cleans to its digits, one with the mark to digits and dots. */
  lemma {:induction false} CleanDigits(s: string, mark: char)
    requires '-' !in s && Mark(mark)
    ensures mark !in s ==> Clean(s, mark) == Digits(s)
    ensures mark in s ==> '.' in Clean(s, mark)
    ensures forall i :: 0 <= i < |Clean(s, mark)| ==> Digit(Clean(s, mark)[i]) || Clean(s, mark)[i] == '.'
  {
    if s != "" {
      var init, x := s[..|s| - 1], s[|s| - 1];
      assert s == init + [x];
      CleanDigits(init, mark);
      CleanNext(init, x, mark);
    }
  }

  lemma {:induction false} DotAfterDigits(a: string, b: string)
    requires AllDigits(a)
    ensures FirstDot(a + "." + b) == |a|
    ensures FirstDot(a) == |a|
  {
    if a != "" {
      DotAfterDigits(a[1..], b);
      assert (a + "." + b)[1..] == a[1..] + "." + b;
    }
  }

  /** A text of digits with one dot is a number, with more dots it is none. */
  lemma UnsignedIs(a: string, b: string, negative: bool)
    requires AllDigits(b)
    ensures AllDigits(a) ==> Unsigned(a + "." + b, negative)
                             == if a + b == "" then None
                                else (AllDigitsConcat(a, b); Some(Number(negative, Value(a + b), |b|)))
    ensures '.' in a ==> Unsigned(a + "." + b, negative) == None
  {
    var s := a + "." + b;
    if AllDigits(a) {
      DotAfterDigits(a, b);
      assert s[..|a|] == a && s[|a| + 1..] == b;
    } else if '.' in a {
      TwoDots(a, b);
    }
  }

  lemma {:induction false} TwoDots(a: string, b: string)
    requires '.' in a
    ensures var s := a + "." + b; var i := FirstDot(s); i < |a| && '.' in s[i + 1..]
  {
    var s := a + "." + b;
    if a[0] == '.' {
      assert s[|a|] == '.' && s[1..][|a| - 1] == '.';
    } else {
      assert a == [a[0]] + a[1..] && s[1..] == a[1..] + "." + b;
      TwoDots(a[1..], b);
    }
  }

  lemma UnsignedDigits(a: string, negative: bool)
    requires AllDigits(a)
    ensures Unsigned(a, negative) == if a == "" then None else Some(Number(negative, Value(a), 0))
  {
    DotAfterDigits(a, "");
    assert a[..|a|] == a && a + "" == a;
  }

  predicate Sign(sign: string) {
    sign == "" || sign == "-"
  }

  lemma DecimalSigned(sign: string, s: string)
    requires Sign(sign) && forall i :: 0 <= i < |s| ==> Digit(s[i]) || s[i] == '.'
    ensures Decimal(sign + s) == Unsigned(s, sign == "-")
  {
    assert sign == "" ==> sign + s == s;
    assert sign == "-" ==> (sign + s)[1..] == s;
  }

  lemma SignStays(sign: string, body: string, mark: char)
    requires Sign(sign)
    ensures Clean(sign + body, mark) == sign + Clean(body, mark)
  {
    CleanConcat(sign, body, mark);
    assert sign == "-" ==> sign[..0] == "";
  }

  lemma {:induction false} LastMarkConcat(a: string, b: string)
    ensures LastMark(a + b) == if LastMark(b).Some? then LastMark(b) else LastMark(a)
  {
    if b == "" {
      assert a + b == a;
    } else {
      assert (a + b)[..|a + b| - 1] == a + b[..|b| - 1];
      LastMarkConcat(a, b[..|b| - 1]);
    }
  }

  lemma {:induction false} NoMark(s: string)
    ensures LastMark(s).None? <==> ',' !in s && '.' !in s
  {
    if s != "" {
      NoMark(s[..|s| - 1]);
      assert s == s[..|s| - 1] + [s[|s| - 1]];
    }
  }

  /** The parts of an amount text. */
  ghost predicate AmountParts(sign: string, whole: string, decimals: string) {
    Sign(sign) && AmountText(whole) && AmountText(decimals) && '-' !in whole && '-' !in decimals && LastMark(decimals).None?
  }

  /**
   What a text with a mark is read as, for every amount text: the digits before
   the last mark and those after it, unless that mark also stands earlier.
   */
  lemma MarkedText(sign: string, whole: string, mark: char, decimals: string)
    requires AmountParts(sign, whole, decimals) && Mark(mark)
    ensures Decimal(Normalized(sign + (whole + [mark] + decimals)))
            == if mark in whole || Digits(whole) + Digits(decimals) == "" then None
               else (AllDigitsConcat(Digits(whole), Digits(decimals));
                     Some(Number(sign == "-", Value(Digits(whole) + Digits(decimals)), |Digits(decimals)|)))
  {
    var body := whole + [mark] + decimals;
    assert AmountText(body) by {
      forall c | c in body ensures AmountChar(c) {
        assert c in whole || c == mark || c in decimals;
      }
    }
    SignedText(sign, body);
    CleanNext(whole, mark, mark);
    LastMarkConcat(whole + [mark], decimals);
    LastMarkConcat(sign, body);
    NormalizedIs(sign + body);
    SignStays(sign, body, mark);
    CleanConcat(whole + [mark], decimals, mark);
    NoMark(decimals);
    CleanDigits(whole, mark);
    CleanDigits(decimals, mark);
    CleanDigits(body, mark);
    DecimalSigned(sign, Clean(body, mark));
    UnsignedIs(Clean(whole, mark), Digits(decimals), sign == "-");
  }

  lemma SignedText(sign: string, body: string)
    requires Sign(sign) && AmountText(body)
    ensures AmountText(sign + body)
  {
    forall c | c in sign + body ensures AmountChar(c) {
      assert c in sign || c in body;
    }
  }

  lemma UnmarkedClean(sign: string, body: string)
    requires AmountParts(sign, "", body)
    ensures LastMark(sign + body).None? && Clean(sign + body, '.') == sign + Digits(body)
  {
    LastMarkConcat(sign, body);
    SignStays(sign, body, '.');
    NoMark(body);
    CleanDigits(body, '.');
  }

  /** Without a mark the digits are a whole number. */
  lemma UnmarkedText(sign: string, body: string)
    requires AmountParts(sign, "", body)
    ensures Decimal(Normalized(sign + body))
            == if Digits(body) == "" then None else Some(Number(sign == "-", Value(Digits(body)), 0))
  {
    SignedText(sign, body);
    UnmarkedClean(sign, body);
    NormalizedIs(sign + body);
    DecimalSigned(sign, Digits(body));
    UnsignedDigits(Digits(body), sign == "-");
  }

  // ---- amounts as people write them ----

  function Show(n: nat): (s: string)
    ensures AllDigits(s)
  {
    if n < 10 then [('0' as int + n) as char] else Show(n / 10) + [('0' as int + n % 10) as char]
  }

  lemma {:induction false} ShowIs(n: nat)
    ensures Value(Show(n)) == n && Show(n) != ""
  {
    if n >= 10 {
      ShowIs(n / 10);
      assert Show(n)[..|Show(n)| - 1] == Show(n / 10);
    } else {
      assert Show(n)[..0] == "";
    }
  }

  /** Groups of three, counted from the right. */
  function Grouped(digits: string, separator: string): string {
    if |digits| <= 3 then digits
    else Grouped(digits[..|digits| - 3], separator) + separator + digits[|digits| - 3..]
  }

  /** A locale: what stands between groups, and before the decimals. */
  datatype Style = Style(group: string, mark: char)

  const PLAIN := Style("", '.')
  const GERMAN := Style(".", ',')
  const ENGLISH := Style(",", '.')
  const SWISS := Style("'", '.')
  const SPACED := Style(" ", ',')
  const NARROW := Style([NBSP], ',')

  predicate StyleOk(style: Style) {
    Mark(style.mark) && (style.group == "" || (|style.group| == 1 && style.group[0] != style.mark
                                               && (Mark(style.group[0]) || Spacing(style.group[0]))))
  }

  /** The usual ways to write an amount. */
  const USUAL := {PLAIN, GERMAN, ENGLISH, SWISS, SPACED, NARROW}

  function Render(negative: bool, cents: nat, style: Style): string {
    (if negative then "-" else "")
    + (Grouped(Show(cents / 100), style.group) + [style.mark] + Decimals(cents))
  }

  /** The last two digits. */
  function Decimals(cents: nat): (s: string)
    ensures AllDigits(s)
  {
    Show(cents % 100 / 10) + Show(cents % 10)
  }

  lemma DigitsNext(s: string, x: char)
    ensures Digits(s + [x]) == Digits(s) + if Digit(x) then [x] else ""
  {
    assert (s + [x])[..|s|] == s;
  }

  lemma {:induction false} DigitsConcat(a: string, b: string)
    ensures Digits(a + b) == Digits(a) + Digits(b)
  {
    if b == "" {
      assert a + b == a;
    } else {
      var init, x := b[..|b| - 1], b[|b| - 1];
      assert a + b == (a + init) + [x] && b == init + [x];
      DigitsConcat(a, init);
      DigitsNext(a + init, x);
      DigitsNext(init, x);
    }
  }

  lemma {:induction false} DigitsOfDigits(s: string)
    requires AllDigits(s)
    ensures Digits(s) == s
  {
    if s != "" {
      var init, x := s[..|s| - 1], s[|s| - 1];
      DigitsOfDigits(init);
      DigitsNext(init, x);
      assert s == init + [x];
    }
  }

  /** Digits with separators of the style, and nothing else. */
  ghost predicate GroupText(s: string, style: Style) {
    AmountText(s) && '-' !in s && style.mark !in s
  }

  lemma GroupTextConcat(g: string, last: string, style: Style)
    requires StyleOk(style) && GroupText(g, style) && AllDigits(last)
    ensures GroupText(g + style.group + last, style)
  {
    forall c | c in g + style.group + last ensures AmountChar(c) && c != '-' && c != style.mark {
      assert c in g || c in style.group || c in last;
    }
  }

  lemma SeparatorHasNoDigits(style: Style)
    requires StyleOk(style)
    ensures Digits(style.group) == ""
  {
    assert style.group != "" ==> style.group[..0] == "";
  }

  lemma JoinGroups(g: string, last: string, style: Style)
    requires StyleOk(style)
    ensures Digits(g + style.group + last) == Digits(g) + Digits(last)
  {
    DigitsConcat(g + style.group, last);
    DigitsConcat(g, style.group);
    SeparatorHasNoDigits(style);
  }

  /** Grouping adds separators only. */
  lemma {:induction false} GroupedDigits(digits: string, style: Style)
    requires AllDigits(digits) && StyleOk(style)
    ensures Digits(Grouped(digits, style.group)) == digits
  {
    DigitsOfDigits(digits);
    if |digits| > 3 {
      var init, last := digits[..|digits| - 3], digits[|digits| - 3..];
      GroupedDigits(init, style);
      DigitsOfDigits(last);
      JoinGroups(Grouped(init, style.group), last, style);
      assert digits == init + last;
    }
  }

  lemma {:induction false} GroupedText(digits: string, style: Style)
    requires AllDigits(digits) && StyleOk(style)
    ensures GroupText(Grouped(digits, style.group), style)
  {
    if |digits| > 3 {
      GroupedText(digits[..|digits| - 3], style);
      GroupTextConcat(Grouped(digits[..|digits| - 3], style.group), digits[|digits| - 3..], style);
    }
  }

  lemma ValueNext(s: string, x: char)
    requires AllDigits(s) && Digit(x)
    ensures AllDigits(s + [x]) && Value(s + [x]) == Value(s) * 10 + (x as int - '0' as int)
  {
    assert (s + [x])[..|s|] == s;
  }

  lemma {:induction false} ValueConcat(a: string, b: string)
    requires AllDigits(a) && AllDigits(b)
    ensures AllDigits(a + b) && Value(a + b) == Value(a) * Pow10(|b|) + Value(b)
  {
    if b == "" {
      assert a + b == a;
    } else {
      var init, x := b[..|b| - 1], b[|b| - 1];
      ValueConcat(a, init);
      ValueNext(a + init, x);
      ValueNext(init, x);
      assert b == init + [x] && a + b == a + init + [x];
      Shift(Value(a), Pow10(|init|), Value(init));
    }
  }

  lemma Shift(a: nat, p: nat, b: nat)
    ensures (a * p + b) * 10 == a * (10 * p) + b * 10
  {
  }

  lemma TwoDecimals(cents: nat)
    ensures |Decimals(cents)| == 2 && Value(Decimals(cents)) == cents % 100 && Pow10(2) == 100
  {
    var a, b := Show(cents % 100 / 10), Show(cents % 10);
    ShowIs(cents % 100 / 10);
    ShowIs(cents % 10);
    ValueConcat(a, b);
    assert Pow10(1) == 10 * Pow10(0);
  }

  /**
   In every locale an amount of at most 28 digits is read back exactly, sign
   and all; a longer one is refused.
   */
  lemma AmountRoundTrip(negative: bool, cents: nat, style: Style)
    requires StyleOk(style)
    ensures ParseDecimal(Render(negative, cents, style))
            == if cents < Pow10(PRECISION) then Some(Amount(negative, cents)) else None
  {
    var sign, whole := if negative then "-" else "", Grouped(Show(cents / 100), style.group);
    GroupedDigits(Show(cents / 100), style);
    GroupedText(Show(cents / 100), style);
    DigitsOfDigits(Decimals(cents));
    DigitsAreAmount(Decimals(cents));
    MarkedText(sign, whole, style.mark, Decimals(cents));
    ShownValue(cents);
    QuantizeTwo(negative, cents);
  }

  /** So each of the usual ways to write an amount is understood, and they all mean the same. */
  lemma UsualStyles(negative: bool, cents: nat)
    requires cents < Pow10(PRECISION)
    ensures forall style :: style in USUAL ==> ParseDecimal(Render(negative, cents, style)) == Some(Amount(negative, cents))
  {
    forall style | style in USUAL ensures ParseDecimal(Render(negative, cents, style)) == Some(Amount(negative, cents)) {
      assert StyleOk(style);
      AmountRoundTrip(negative, cents, style);
    }
  }

  lemma DigitsAreAmount(s: string)
    requires AllDigits(s)
    ensures AmountText(s) && '-' !in s && LastMark(s).None?
  {
    NoMark(s);
  }

  lemma ShownValue(cents: nat)
    ensures AllDigits(Show(cents / 100) + Decimals(cents)) && Value(Show(cents / 100) + Decimals(cents)) == cents
    ensures |Decimals(cents)| == 2
  {
    ShowIs(cents / 100);
    TwoDecimals(cents);
    ValueConcat(Show(cents / 100), Decimals(cents));
  }

  lemma QuantizeTwo(negative: bool, cents: nat)
    ensures Quantize(Number(negative, cents, 2)) == if cents < Pow10(PRECISION) then Some(Amount(negative, cents)) else None
  {
    assert Pow10(0) == 1;
  }

  /** Rounding to two decimals takes the nearest amount, and the even one of two equally near. */
  lemma HalfEvenIsNearest(n: nat, d: nat)
    requires d > 0
    ensures var q := HalfEven(n, d);
            && -(d as int) <= 2 * (n - q * d) <= d
            && (2 * (n - q * d) == d || 2 * (n - q * d) == -(d as int) ==> q % 2 == 0)
  {
    var q, r := n / d, n % d;
    assert n == q * d + r;
    assert (q + 1) * d == q * d + d;
  }

  /** `c` hundredths are as near to `n` `d`-ths as hundredths can be, and even if two are. */
  predicate Nearest(c: int, n: int, d: int) {
    var gap := 100 * n - c * d;
    -d <= 2 * gap <= d && (2 * gap == d || 2 * gap == -d ==> c % 2 == 0)
  }

  lemma HundredTimes(q: int, n: int, e: int)
    requires -e <= 2 * (n - q * e) <= e
    requires 2 * (n - q * e) == e || 2 * (n - q * e) == -e ==> q % 2 == 0
    ensures Nearest(q, n, 100 * e)
  {
    assert 100 * n - q * (100 * e) == 100 * (n - q * e);
  }

  lemma ExactHundredths(n: int, p: int, d: int)
    requires p * d == 100 && d > 0
    ensures Nearest(n * p, n, d)
  {
    assert n * p * d == n * (p * d);
  }

  lemma PowersOfTen(p: nat)
    ensures Pow10(0) == 1 && Pow10(1) == 10 && Pow10(2) == 100
    ensures p >= 2 ==> Pow10(p) == 100 * Pow10(p - 2)
  {
    if p >= 2 {
      assert Pow10(p) == 10 * Pow10(p - 1) && Pow10(p - 1) == 10 * Pow10(p - 2);
    }
  }

  /** Any number of decimals is rounded to the nearest hundredth, ties to even, or refused beyond 28 digits. */
  lemma QuantizeIs(n: Number) returns (cents: nat)
    ensures Nearest(cents, n.coefficient, Pow10(n.places))
    ensures Quantize(n) == if cents < Pow10(28) then Some(Amount(n.negative, cents)) else None
  {
    PowersOfTen(n.places);
    if n.places <= 2 {
      cents := n.coefficient * Pow10(2 - n.places);
      ExactHundredths(n.coefficient, Pow10(2 - n.places), Pow10(n.places));
    } else {
      var e := Pow10(n.places - 2);
      cents := HalfEven(n.coefficient, e);
      HalfEvenIsNearest(n.coefficient, e);
      HundredTimes(cents, n.coefficient, e);
    }
  }
}
