/**
  The regular expressions `parse_line_with_columns` applies, each written as
  a deterministic scan.  Every pattern below is a chain of greedy runs whose
  next element can never match a character the run consumed, so giving
  characters back (what a backtracking engine would try) never produces a
  new match: the greedy scan succeeds exactly when the pattern matches.
*/
module WordPatterns {
  import opened Wrappers
  import opened Text
  import opened Decimals

  /** `s` at index `i` is a character `c` (false past the end). */
  predicate CharAt(s: string, i: int, c: char) {
    0 <= i < |s| && s[i] == c
  }

  /** The position after an optional single `c` at index `i`. */
  function SkipOpt(s: string, i: nat, c: char): (r: nat)
    requires i <= |s|
    ensures r <= |s| && (r == i || r == i + 1)
  {
    if CharAt(s, i, c) then i + 1 else i
  }

  // ---------------------------------------------------------------------
  // Skip patterns, searched case-insensitively in the joined line text.
  // ---------------------------------------------------------------------

  /** `a\s*b` occurs at index `i` of the lower-cased text `l`. */
  predicate PairAt(l: string, i: nat, a: string, b: string) {
    LitAt(l, i, a) && LitAt(l, RunEnd(l, i + |a|, IsSpace), b)
  }

  /** `re.search(a\s*b)` from index `from` on. */
  predicate PairFrom(l: string, a: string, b: string, from: nat)
    decreases |l| - from
  {
    from <= |l| && (PairAt(l, from, a, b) || PairFrom(l, a, b, from + 1))
  }

  /** `page\s*\d+` occurs at index `i` of `l`: one digit after the spaces suffices. */
  predicate PageAt(l: string, i: nat) {
    LitAt(l, i, "page") && var s := RunEnd(l, i + 4, IsSpace); s < |l| && IsDigit(l[s])
  }

  predicate PageFrom(l: string, from: nat)
    decreases |l| - from
  {
    from <= |l| && (PageAt(l, from) || PageFrom(l, from + 1))
  }

  /** `^date\s+description`: anchored at the start, at least one space. */
  predicate HeaderRowStart(l: string) {
    LitAt(l, 0, "date") && var s := RunEnd(l, 4, IsSpace); s > 4 && LitAt(l, s, "description")
  }

  /** The skip patterns of the column parser, in the order they are tried. */
  datatype SkipPattern =
    | PageNumber          // page\s*\d+
    | StatementDatePeriod // statement\s*(date|period)
    | AccountNumber       // account\s*number
    | CustomerService     // customer\s*service
    | HeaderRow           // ^date\s+description
    | Website             // www\.

  const SkipPatterns: seq<SkipPattern> :=
    [PageNumber, StatementDatePeriod, AccountNumber, CustomerService, HeaderRow, Website]

  /** `re.search(pattern, text, re.IGNORECASE)` on the lower-cased text `l`. */
  predicate Searches(p: SkipPattern, l: string) {
    match p
    case PageNumber => PageFrom(l, 0)
    case StatementDatePeriod => PairFrom(l, "statement", "date", 0) || PairFrom(l, "statement", "period", 0)
    case AccountNumber => PairFrom(l, "account", "number", 0)
    case CustomerService => PairFrom(l, "customer", "service", 0)
    case HeaderRow => HeaderRowStart(l)
    case Website => Contains(l, "www.")
  }

  /** Some pattern of `ps` is found in the line text. */
  predicate AnySearches(ps: seq<SkipPattern>, text: string) {
    if ps == [] then false else Searches(ps[0], LowerStr(text)) || AnySearches(ps[1..], text)
  }

  lemma {:induction false} NoneSearches(ps: seq<SkipPattern>, text: string)
    requires forall p | p in ps :: !Searches(p, LowerStr(text))
    ensures !AnySearches(ps, text)
  {
    if ps != [] {
      assert ps[0] in ps;
      assert forall p | p in ps[1..] :: p in ps;
      NoneSearches(ps[1..], text);
    }
  }

  predicate IsSkipLine(text: string) {
    AnySearches(SkipPatterns, text)
  }

  /** `lit` cannot start at `i` when the text lacks its character `lit[k]`. */
  lemma NotLitAt(l: string, i: nat, lit: string, k: nat)
    requires k < |lit| && lit[k] !in l
    ensures !LitAt(l, i, lit)
  {
    if i + |lit| <= |l| {
      assert l[i..i + |lit|][k] == l[i + k];
      assert l[i + k] in l;
    }
  }

  /** `a\s*b` is found nowhere when the text lacks a character of `a`. */
  lemma {:induction false} PairFromAbsent(l: string, a: string, b: string, from: nat, k: nat)
    requires k < |a| && a[k] !in l
    ensures !PairFrom(l, a, b, from)
    decreases |l| - from
  {
    if from <= |l| {
      NotLitAt(l, from, a, k);
      PairFromAbsent(l, a, b, from + 1, k);
    }
  }

  /** `page\s*\d+` is found nowhere in a text without an 'a'. */
  lemma {:induction false} PageFromAbsent(l: string, from: nat)
    requires 'a' !in l
    ensures !PageFrom(l, from)
    decreases |l| - from
  {
    if from <= |l| {
      NotLitAt(l, from, "page", 1);
      PageFromAbsent(l, from + 1);
    }
  }

  /**
    Every skip pattern needs an 'a', a 'u' or a 'w' in either case, so a
    line without those letters is never skipped.
  */
  lemma NotSkipLine(text: string)
    requires forall i | 0 <= i < |text| :: text[i] !in {'a', 'A', 'u', 'U', 'w', 'W'}
    ensures !IsSkipLine(text)
  {
    var l := LowerStr(text);
    forall i | 0 <= i < |l| ensures l[i] != 'a' && l[i] != 'u' && l[i] != 'w' {
      assert l[i] == Lower(text[i]);
    }
    assert 'a' !in l && 'u' !in l && 'w' !in l;
    PageFromAbsent(l, 0);
    PairFromAbsent(l, "statement", "date", 0, 2);
    PairFromAbsent(l, "statement", "period", 0, 2);
    PairFromAbsent(l, "account", "number", 0, 0);
    PairFromAbsent(l, "customer", "service", 0, 1);
    NotLitAt(l, 0, "date", 1);
    NotContainsByChar(l, "www.", 0);
    forall p | p in SkipPatterns ensures !Searches(p, l) {
    }
    NoneSearches(SkipPatterns, text);
  }

  // ---------------------------------------------------------------------
  // Dates, matched at the start of a stripped word text.
  // ---------------------------------------------------------------------

  predicate IsDateSep(c: char) {
    c == '/' || c == '-'
  }

  /**
    `re.match(r'\d{1,2}[/-]\d{1,2}(?:[/-]\d{2,4})?', t)`: the optional
    group never decides a match, so one or two digits, a separator and a
    digit at the start suffice.
  */
  predicate NumericDateStart(t: string) {
    && |t| >= 3 && IsDigit(t[0])
    && (|| (IsDateSep(t[1]) && IsDigit(t[2]))
        || (|t| >= 4 && IsDigit(t[1]) && IsDateSep(t[2]) && IsDigit(t[3])))
  }

  /** Three word characters at index `i`. */
  predicate ThreeWordChars(t: string, i: nat) {
    i + 3 <= |t| && IsWordChar(t[i]) && IsWordChar(t[i + 1]) && IsWordChar(t[i + 2])
  }

  /**
    `re.match(r'(\d{1,2}\s+\w{3}|\w{3}\s+\d{1,2})', t)`: "01 Jan" or
    "Jan 01".  In the first branch the digit run is two long exactly when
    the second character is a digit, since `\s` never matches one.
  */
  predicate WordDateStart(t: string) {
    || (&& |t| >= 2 && IsDigit(t[0])
        && var d := if IsDigit(t[1]) then 2 else 1;
        && d < |t|
        && var s := RunEnd(t, d, IsSpace);
        && s > d && ThreeWordChars(t, s))
    || (&& ThreeWordChars(t, 0)
        && var s := RunEnd(t, 3, IsSpace);
        && s > 3 && s < |t| && IsDigit(t[s]))
  }

  predicate IsDateText(t: string) {
    NumericDateStart(t) || WordDateStart(t)
  }

  /** A date text is never empty, so `if not date` fails only when no date was found. */
  lemma DateTextNonEmpty(t: string)
    requires IsDateText(t)
    ensures |t| >= 3
  {
  }

  // ---------------------------------------------------------------------
  // Numeric words.
  // ---------------------------------------------------------------------

  /**
    `re.match(r'^[\$]?\s*[\(\-]?[\d,]+\.?\d*[\)]?$', u)` on a text `u`
    whose commas were removed, so `[\d,]+` is `\d+`.  `$` also matches
    just before a final newline.
  */
  predicate IsNumericWord(u: string) {
    var a := SkipOpt(u, 0, '$');
    var b := RunEnd(u, a, IsSpace);
    var c := if CharAt(u, b, '(') || CharAt(u, b, '-') then b + 1 else b;
    var d := RunEnd(u, c, IsDigit);
    d > c &&
    var e := SkipOpt(u, d, '.');
    var f := RunEnd(u, e, IsDigit);
    var g := SkipOpt(u, f, ')');
    g == |u| || (g == |u| - 1 && u[g] == '\n')
  }

  /** A number found on a line: its signed value, the x-centre of its word and the word's text. */
  datatype NumVal = NumVal(value: real, x: real, text: string)

  /** The characters that mark a number as negative: `'(' in text or '-' in text`. */
  predicate MarkedNegative(text: string) {
    '(' in text || '-' in text
  }

  /**
    The value of a numeric word text: `$` and `,` removed and the rest
    stripped, then `(`, `)` and `-` removed before `float()`; negated when
    the text holds `(` or `-`.  `None` is the `ValueError` path.
  */
  function SignedValue(text: string): (r: Option<real>)
    ensures r.Some? && !MarkedNegative(text) ==> r.value >= 0.0
    ensures r.Some? && MarkedNegative(text) ==> r.value <= 0.0
  {
    var clean := Strip(RemoveAll(RemoveAll(text, "$"), ","));
    var bare := RemoveAll(RemoveAll(RemoveAll(clean, "("), ")"), "-");
    match ParseFloat(bare)
    case None => None
    case Some(v) =>
      NoMinusLeft(clean);
      ParseFloatUnsigned(bare);
      Some(if MarkedNegative(text) then -v else v)
  }

  /**
    A number written with digits, commas and one point, without a sign or
    a currency mark: it is numeric once the commas are gone.
  */
  lemma PlainNumberWord(text: string, ip: string, fp: string)
    requires ip != [] && AllDigits(ip) && AllDigits(fp)
    requires RemoveAll(text, ",") == ip + "." + fp
    requires text != [] && IsDigit(text[0]) && IsDigit(text[|text| - 1])
    ensures Strip(text) == text
    ensures IsNumericWord(RemoveAll(text, ","))
    ensures IsUnsignedDecimal(RemoveAll(text, ","))
  {
    var u := ip + "." + fp;
    StripUnchanged(text);
    ParseDecimal(u, ip, fp);
    DecimalIsNumeric(u, ip, fp);
  }

  /** ... and its signed value is the value of its digits. */
  lemma PlainNumberValue(text: string, ip: string, fp: string)
    requires ip != [] && AllDigits(ip) && AllDigits(fp)
    requires RemoveAll(text, ",") == ip + "." + fp
    requires '$' !in text && '(' !in text && '-' !in text
    ensures SignedValue(text) == Some(UnsignedValue(RemoveAll(text, ",")))
  {
    var u := ip + "." + fp;
    DecimalEnds(u, ip, fp);
    StripUnchanged(u);
    DecimalChars(u, ip, fp);
    UnsignedSignedValue(text, u);
    ParseDecimal(u, ip, fp);
  }

  lemma DecimalIsNumeric(u: string, ip: string, fp: string)
    requires ip != [] && AllDigits(ip) && AllDigits(fp) && u == ip + "." + fp
    ensures IsNumericWord(u)
  {
    DecimalEnds(u, ip, fp);
    DecimalRuns(u, ip, fp);
    RunEndAt(u, 0, 0, IsSpace);
  }

  /** Without a sign, a currency mark or parentheses, the value is what `float()` reads once the commas are gone. */
  lemma UnsignedSignedValue(text: string, u: string)
    requires RemoveAll(text, ",") == u && Strip(u) == u
    requires '$' !in text && '(' !in text && '-' !in text
    requires forall c | c in u :: IsDigit(c) || c == '.'
    ensures SignedValue(text) == ParseFloat(u)
  {
    RemoveAbsent(text, '$');
    RemoveAbsent(u, '(');
    RemoveAbsent(u, ')');
    RemoveAbsent(u, '-');
  }

  /** A word that starts with a letter is not a number. */
  lemma LetterWordNotNumeric(u: string)
    requires u != [] && (('a' <= u[0] <= 'z') || ('A' <= u[0] <= 'Z'))
    ensures !IsNumericWord(u)
  {
    RunEndAt(u, 0, 0, IsSpace);
    RunEndAt(u, 0, 0, IsDigit);
  }

  /** A word like "01/15/2024" is not a number: its digits stop at a separator. */
  lemma DateLikeNotNumeric(u: string)
    requires |u| > 3 && IsDigit(u[0]) && IsDigit(u[1]) && IsDateSep(u[2])
    ensures !IsNumericWord(u)
  {
    RunEndAt(u, 0, 0, IsSpace);
    RunEndAt(u, 0, 2, IsDigit);
    RunEndAt(u, 2, 2, IsDigit);
  }

  lemma NoMinusLeft(clean: string)
    ensures '-' !in RemoveAll(RemoveAll(RemoveAll(clean, "("), ")"), "-")
  {
    RemoveAllDrops(RemoveAll(RemoveAll(clean, "("), ")"), '-');
  }
}
