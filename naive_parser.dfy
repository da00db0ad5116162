/**
  `parse_line_to_transaction`: the text-only parser used for OCR lines,
  which takes the last amount-looking match on the line as the amount.
*/
module NaiveParser {
  import opened Wrappers
  import opened Text
  import opened Decimals
  import opened Records
  import opened WordPatterns

  // ---------------------------------------------------------------------
  // Skip patterns, searched case-insensitively in the whole line.
  // ---------------------------------------------------------------------

  datatype LineSkip =
    | PageAtStart      // ^page\s*\d+
    | Blank            // ^\s*$
    | ServiceLine      // customer\s*service
    | WebLine          // www\.
    | StatementPeriod  // statement\s*period

  const LineSkips: seq<LineSkip> := [PageAtStart, Blank, ServiceLine, WebLine, StatementPeriod]

  /**
    `re.search(pattern, text, re.IGNORECASE)` on the lower-cased text `l`.
    `^\s*$` matches exactly the all-whitespace texts: `\s*` also consumes a
    final newline.
  */
  predicate LineSearches(p: LineSkip, l: string) {
    match p
    case PageAtStart => PageAt(l, 0)
    case Blank => RunEnd(l, 0, IsSpace) == |l|
    case ServiceLine => PairFrom(l, "customer", "service", 0)
    case WebLine => Contains(l, "www.")
    case StatementPeriod => PairFrom(l, "statement", "period", 0)
  }

  predicate AnyLineSearches(ps: seq<LineSkip>, text: string) {
    if ps == [] then false else LineSearches(ps[0], LowerStr(text)) || AnyLineSearches(ps[1..], text)
  }

  predicate IsSkipText(text: string) {
    AnyLineSearches(LineSkips, text)
  }

  // ---------------------------------------------------------------------
  // Date: re.search(r'(\d{1,2}[/-]\d{1,2}[/-]\d{2,4})', text)
  // ---------------------------------------------------------------------

  /**
    The end of a date match starting at `i`.  Each `\d{1,2}` takes two
    digits exactly when the second is a digit (a separator must follow,
    so one digit cannot succeed where two failed); `\d{2,4}` takes the
    longest run up to four.
  */
  function DateEndAt(t: string, i: nat): (r: Option<nat>)
    ensures r.Some? ==> i + 6 <= r.value <= |t| && r.value <= i + 10
  {
    if !(i < |t| && IsDigit(t[i])) then None
    else
      var a := if i + 1 < |t| && IsDigit(t[i + 1]) then i + 2 else i + 1;
      if !(a + 1 < |t| && IsDateSep(t[a]) && IsDigit(t[a + 1])) then None
      else
        var b := if a + 2 < |t| && IsDigit(t[a + 2]) then a + 3 else a + 2;
        if !(b < |t| && IsDateSep(t[b])) then None
        else
          var run := RunEnd(t, b + 1, IsDigit);
          if run < b + 3 then None
          else Some(if run > b + 5 then b + 5 else run)
  }

  /** The leftmost date match at or after `from`: `re.search`. */
  function DateFrom(t: string, from: nat): Option<string> {
    SearchFrom(t, from, (i: nat) => DateEndAt(t, i))
  }

  // ---------------------------------------------------------------------
  // Amounts: re.findall(r'\$?\s*-?\(?\d{1,3}(?:,\d{3})*(?:\.\d{2})?\)?', text)
  // ---------------------------------------------------------------------

  /** `(?:,\d{3})*`, greedy. */
  function ThousandsEnd(t: string, p: nat): (r: nat)
    requires p <= |t|
    ensures p <= r <= |t|
    decreases |t| - p
  {
    if p + 4 <= |t| && t[p] == ',' && IsDigit(t[p + 1]) && IsDigit(t[p + 2]) && IsDigit(t[p + 3])
    then ThousandsEnd(t, p + 4)
    else p
  }

  /**
    The end of an amount match starting at `i`.  Every element after
    `\d{1,3}` is optional, so the greedy choice at each step is the match
    the engine reports; the optional prefixes can only be skipped when the
    character is not theirs.
  */
  function AmountEndAt(t: string, i: nat): (r: Option<nat>)
    requires i <= |t|
    ensures r.Some? ==> i < r.value <= |t|
  {
    var a := SkipOpt(t, i, '$');
    var b := RunEnd(t, a, IsSpace);
    var c := SkipOpt(t, b, '-');
    var d := SkipOpt(t, c, '(');
    var e := RunEnd(t, d, IsDigit);
    if e == d then None
    else
      var f := ThousandsEnd(t, if e > d + 3 then d + 3 else e);
      var g := if f + 3 <= |t| && t[f] == '.' && IsDigit(t[f + 1]) && IsDigit(t[f + 2]) then f + 3 else f;
      Some(SkipOpt(t, g, ')'))
  }

  /** The non-overlapping matches, left to right, from `from` on: `re.findall`. */
  function AmountMatches(t: string, from: nat): seq<string>
    requires from <= |t|
  {
    FindAllFrom(t, from, (i: nat) => if i <= |t| then AmountEndAt(t, i) else None)
  }

  // ---------------------------------------------------------------------
  // Searching with a pattern given by where its match at each index ends
  // ---------------------------------------------------------------------

  /** `endAt(i)`, when present, is the end of a match that starts at `i`. */
  ghost predicate EndsWithin(t: string, endAt: nat -> Option<nat>) {
    forall i: nat :: endAt(i).Some? ==> i <= endAt(i).value <= |t|
  }

  /** `re.search` from `from`: the match at the leftmost index where one starts. */
  function SearchFrom(t: string, from: nat, endAt: nat -> Option<nat>): Option<string>
    requires EndsWithin(t, endAt)
    decreases |t| - from
  {
    if from >= |t| then None
    else match endAt(from)
      case Some(e) => Some(t[from..e])
      case None => SearchFrom(t, from + 1, endAt)
  }

  /** `re.findall` from `from`: a match, then the search resumes where it ended. */
  function FindAllFrom(t: string, from: nat, endAt: nat -> Option<nat>): seq<string>
    requires from <= |t|
    requires forall i: nat :: endAt(i).Some? ==> i < endAt(i).value <= |t|
    decreases |t| - from
  {
    if from == |t| then []
    else match endAt(from)
      case Some(e) => [t[from..e]] + FindAllFrom(t, e, endAt)
      case None => FindAllFrom(t, from + 1, endAt)
  }

  /** The search finds the match at the first index where one starts, and nothing when none does. */
  lemma {:induction false} SearchFromIsLeftmost(t: string, from: nat, endAt: nat -> Option<nat>)
    requires EndsWithin(t, endAt)
    ensures SearchFrom(t, from, endAt).None? <==> forall j: nat | from <= j < |t| :: endAt(j).None?
    ensures SearchFrom(t, from, endAt).Some? ==>
      exists i: nat | from <= i < |t| ::
        && endAt(i).Some?
        && SearchFrom(t, from, endAt).value == t[i..endAt(i).value]
        && forall j: nat | from <= j < i :: endAt(j).None?
    decreases |t| - from
  {
    if from < |t| && endAt(from).None? {
      SearchFromIsLeftmost(t, from + 1, endAt);
    }
  }

  /** Nothing is found where no match starts. */
  lemma {:induction false} FindAllFromNone(t: string, from: nat, endAt: nat -> Option<nat>)
    requires from <= |t|
    requires forall i: nat :: endAt(i).None?
    ensures FindAllFrom(t, from, endAt) == []
    decreases |t| - from
  {
    if from < |t| {
      FindAllFromNone(t, from + 1, endAt);
    }
  }

  /** `m` is the match of `endAt` at some index `from` or later. */
  ghost predicate MatchFrom(t: string, m: string, from: nat, endAt: nat -> Option<nat>)
    requires EndsWithin(t, endAt)
  {
    exists i: nat | from <= i < |t| :: endAt(i).Some? && m == t[i..endAt(i).value]
  }

  /** Each of `ms` is a match of `endAt` at some index `from` or later. */
  ghost predicate MatchedFrom(t: string, ms: seq<string>, from: nat, endAt: nat -> Option<nat>)
    requires EndsWithin(t, endAt)
  {
    forall k | 0 <= k < |ms| :: MatchFrom(t, ms[k], from, endAt)
  }

  lemma MatchedEarlier(t: string, ms: seq<string>, lo: nat, from: nat, endAt: nat -> Option<nat>)
    requires EndsWithin(t, endAt) && from <= lo && MatchedFrom(t, ms, lo, endAt)
    ensures MatchedFrom(t, ms, from, endAt)
  {
    forall k | 0 <= k < |ms| ensures MatchFrom(t, ms[k], from, endAt) {
      assert MatchFrom(t, ms[k], lo, endAt);
      var i: nat :| lo <= i < |t| && endAt(i).Some? && ms[k] == t[i..endAt(i).value];
      assert from <= i < |t| && endAt(i).Some? && ms[k] == t[i..endAt(i).value];
    }
  }

  lemma MatchedCons(t: string, ms: seq<string>, from: nat, endAt: nat -> Option<nat>)
    requires EndsWithin(t, endAt) && from < |t| && endAt(from).Some?
    requires MatchedFrom(t, ms, from, endAt)
    ensures MatchedFrom(t, [t[from..endAt(from).value]] + ms, from, endAt)
  {
    var all := [t[from..endAt(from).value]] + ms;
    forall k | 0 <= k < |all| ensures MatchFrom(t, all[k], from, endAt) {
      if k == 0 {
        assert from <= from < |t| && endAt(from).Some? && all[0] == t[from..endAt(from).value];
      } else {
        assert all[k] == ms[k - 1];
        assert MatchFrom(t, ms[k - 1], from, endAt);
      }
    }
  }

  /** Every match found is a piece of the text that starts where a match starts. */
  lemma {:induction false} FindAllFromOccur(t: string, from: nat, endAt: nat -> Option<nat>)
    requires from <= |t|
    requires forall i: nat :: endAt(i).Some? ==> i < endAt(i).value <= |t|
    ensures MatchedFrom(t, FindAllFrom(t, from, endAt), from, endAt)
    decreases |t| - from
  {
    if from < |t| {
      var ms := FindAllFrom(t, from, endAt);
      if endAt(from).Some? {
        var e := endAt(from).value;
        FindAllFromOccur(t, e, endAt);
        var rest := FindAllFrom(t, e, endAt);
        assert ms == [t[from..e]] + rest;
        MatchedEarlier(t, rest, e, from, endAt);
        MatchedCons(t, rest, from, endAt);
      } else {
        FindAllFromOccur(t, from + 1, endAt);
        assert ms == FindAllFrom(t, from + 1, endAt);
        MatchedEarlier(t, ms, from + 1, from, endAt);
      }
    } else {
      assert FindAllFrom(t, from, endAt) == [];
    }
  }

  /** An amount match holds a digit: `\\d{1,3}` is not optional. */
  lemma AmountMatchHasDigit(t: string, i: nat)
    requires i <= |t|
    ensures AmountEndAt(t, i).Some? ==> exists j | i <= j < AmountEndAt(t, i).value :: IsDigit(t[j])
  {
    if AmountEndAt(t, i).Some? {
      var a := SkipOpt(t, i, '$');
      var b := RunEnd(t, a, IsSpace);
      var c := SkipOpt(t, b, '-');
      var d := SkipOpt(t, c, '(');
      assert IsDigit(t[d]);
    }
  }

  /**
    The signed value of an amount match: `$ , ( )` and then `-` removed
    before `float()`, negated when the match holds `(` or `-`.
  */
  function SignedAmount(m: string): (r: Option<real>)
    ensures r.Some? && !MarkedNegative(m) ==> r.value >= 0.0
    ensures r.Some? && MarkedNegative(m) ==> r.value <= 0.0
  {
    var bare := RemoveAll(DropChars(m, {'$', ',', '(', ')'}), "-");
    match ParseFloat(bare)
    case None => None
    case Some(v) =>
      RemoveAllDrops(DropChars(m, {'$', ',', '(', ')'}), '-');
      ParseFloatUnsigned(bare);
      Some(if MarkedNegative(m) then -v else v)
  }

  /** `'debit' if amount < 0 else 'credit' if amount > 0 else 'unknown'`. */
  function TypeBySign(amount: real): TxType {
    if amount < 0.0 then Debit else if amount > 0.0 then Credit else Unknown
  }

  // ---------------------------------------------------------------------
  // Description and box
  // ---------------------------------------------------------------------

  /** `description.replace(amt, '')` for each match in turn. */
  function RemoveEach(d: string, ms: seq<string>): string {
    if ms == [] then d else RemoveAll(RemoveEach(d, ms[..|ms| - 1]), ms[|ms| - 1])
  }

  /** The text with the date and then every amount match removed. */
  function Stripped(text: string, date: Option<string>, ms: seq<string>): string {
    RemoveEach(if date.Some? then RemoveAll(text, date.value) else text, ms)
  }

  /** `' '.join(description.split()).strip()[:200]`. */
  function NaiveDescription(text: string, date: Option<string>, ms: seq<string>): (d: string)
    ensures |d| <= DescriptionLimit
  {
    Take(Strip(CollapseWs(Stripped(text, date, ms))), DescriptionLimit)
  }

  /** A Tesseract word box: left, top, width, height. */
  datatype Rect = Rect(x: int, y: int, w: int, h: int)

  /** The `bboxes` argument: Tesseract word boxes, or one ready line box (EasyOCR). */
  datatype LineBoxes = Rects(rs: seq<Rect>) | Whole(b: BBox)

  function Lefts(rs: seq<Rect>): (xs: seq<real>)
    ensures |xs| == |rs| && forall i | 0 <= i < |rs| :: xs[i] == rs[i].x as real
  {
    seq(|rs|, i requires 0 <= i < |rs| => rs[i].x as real)
  }

  function Tops(rs: seq<Rect>): (ys: seq<real>)
    ensures |ys| == |rs| && forall i | 0 <= i < |rs| :: ys[i] == rs[i].y as real
  {
    seq(|rs|, i requires 0 <= i < |rs| => rs[i].y as real)
  }

  function Rights(rs: seq<Rect>): (xs: seq<real>)
    ensures |xs| == |rs| && forall i | 0 <= i < |rs| :: xs[i] == (rs[i].x + rs[i].w) as real
  {
    seq(|rs|, i requires 0 <= i < |rs| => (rs[i].x + rs[i].w) as real)
  }

  function Bottoms(rs: seq<Rect>): (ys: seq<real>)
    ensures |ys| == |rs| && forall i | 0 <= i < |rs| :: ys[i] == (rs[i].y + rs[i].h) as real
  {
    seq(|rs|, i requires 0 <= i < |rs| => (rs[i].y + rs[i].h) as real)
  }

  /** The line's box: the caller's ready box, or min/max over the word boxes. */
  function BoxOf(boxes: LineBoxes, page: int): Option<BBox> {
    match boxes
    case Whole(b) => Some(b)
    case Rects(rs) =>
      if rs == [] then None
      else Some(BBox(Min(Lefts(rs)), Min(Tops(rs)), Max(Rights(rs)), Max(Bottoms(rs)), page))
  }

  // ---------------------------------------------------------------------
  // The parser
  // ---------------------------------------------------------------------

  /** What `parse_line_to_transaction` returns. */
  function NaiveParse(text: string, confidence: real, page: int, boxes: LineBoxes): Option<Transaction> {
    if IsSkipText(text) then None
    else FromMatches(text, confidence, page, boxes, DateFrom(text, 0), AmountMatches(text, 0))
  }

  /** The transaction of a line that no skip pattern matched, given its date and amount matches. */
  function FromMatches(text: string, confidence: real, page: int, boxes: LineBoxes,
                       date: Option<string>, ms: seq<string>): Option<Transaction>
  {
    if ms == [] then None
    else match SignedAmount(ms[|ms| - 1])
      case None => None
      case Some(amount) =>
        Some(Transaction(
          date, NaiveDescription(text, date, ms), Abs(amount), TypeBySign(amount),
          None, confidence, BoxOf(boxes, page), text))
  }

  method ParseLineToTransaction(text: string, confidence: real, page: int, boxes: LineBoxes)
    returns (r: Option<Transaction>)
    ensures r == NaiveParse(text, confidence, page, boxes)
  {
    var skip := MatchesSkipPattern(text);
    if skip {
      return None;
    }
    var date := DateFrom(text, 0);
    var matches := AmountMatches(text, 0);
    r := BuildTransaction(text, confidence, page, boxes, date, matches);
  }

  /** The steps after the search: the last match is the amount, then description, type and box. */
  method BuildTransaction(text: string, confidence: real, page: int, boxes: LineBoxes,
                          date: Option<string>, matches: seq<string>)
    returns (r: Option<Transaction>)
    ensures r == FromMatches(text, confidence, page, boxes, date, matches)
  {
    if matches == [] {
      return None;
    }
    var amountStr := matches[|matches| - 1];
    var parsed := SignedAmount(amountStr);
    if parsed.None? {
      return None;
    }
    var amount := parsed.value;
    var description := BuildNaiveDescription(text, date, matches);
    var txType := if amount < 0.0 then Debit else if amount > 0.0 then Credit else Unknown;
    r := Some(Transaction(date, description, Abs(amount), txType, None, confidence, BoxOf(boxes, page), text));
  }

  /** The description steps: remove the date, then each match, then normalise spaces and cut. */
  method BuildNaiveDescription(text: string, date: Option<string>, matches: seq<string>)
    returns (description: string)
    ensures description == NaiveDescription(text, date, matches)
  {
    description := text;
    if date.Some? {
      description := RemoveAll(description, date.value);
    }
    var start := description;
    for k := 0 to |matches|
      invariant description == RemoveEach(start, matches[..k])
    {
      assert matches[..k + 1][..k] == matches[..k];
      description := RemoveAll(description, matches[k]);
    }
    assert matches[..|matches|] == matches;
    description := Take(Strip(CollapseWs(description)), 200);
  }

  /** The loop over the skip patterns: does any of them occur in the line? */
  method MatchesSkipPattern(text: string) returns (skip: bool)
    ensures skip == IsSkipText(text)
  {
    for k := 0 to |LineSkips|
      invariant AnyLineSearches(LineSkips, text) == AnyLineSearches(LineSkips[k..], text)
    {
      if LineSearches(LineSkips[k], LowerStr(text)) {
        return true;
      }
      assert LineSkips[k..][1..] == LineSkips[k + 1..];
    }
    return false;
  }

  // ---------------------------------------------------------------------
  // Properties
  // ---------------------------------------------------------------------

  /** A line without a digit never yields a transaction. */
  lemma NoDigitNoTransaction(text: string, confidence: real, page: int, boxes: LineBoxes)
    requires forall i | 0 <= i < |text| :: !IsDigit(text[i])
    ensures NaiveParse(text, confidence, page, boxes).None?
  {
    var endAt := (i: nat) => if i <= |text| then AmountEndAt(text, i) else None;
    forall i: nat ensures endAt(i).None? {
      if i <= |text| {
        AmountMatchHasDigit(text, i);
      }
    }
    FindAllFromNone(text, 0, endAt);
  }

  /**
    A transaction comes from a line no skip pattern matches, whose last
    amount match converts: its amount is that value's magnitude, its type
    the value's sign, zero giving 'unknown'; no balance, the caller's
    confidence, the line as raw text, the leftmost date, the box of the
    line's word boxes, and the description that `NaiveDescription` builds
    by removing the date and every amount match, at most 200 characters.
  */
  lemma NaiveFields(text: string, confidence: real, page: int, boxes: LineBoxes)
    ensures NaiveParse(text, confidence, page, boxes).None? <==>
      || IsSkipText(text)
      || AmountMatches(text, 0) == []
      || SignedAmount(AmountMatches(text, 0)[|AmountMatches(text, 0)| - 1]).None?
    ensures NaiveParse(text, confidence, page, boxes).Some? ==>
      var tx := NaiveParse(text, confidence, page, boxes).value;
      var ms := AmountMatches(text, 0);
      var signed := SignedAmount(ms[|ms| - 1]).value;
      && tx.amount >= 0.0
      && (tx.amount == signed || tx.amount == -signed)
      && (tx.txType == Debit <==> signed < 0.0)
      && (tx.txType == Credit <==> signed > 0.0)
      && (tx.txType == Unknown <==> tx.amount == 0.0)
      && (tx.txType == Debit ==> MarkedNegative(ms[|ms| - 1]))
      && tx.balance.None?
      && tx.confidence == confidence
      && tx.rawText == text
      && tx.date == DateFrom(text, 0)
      && tx.description == NaiveDescription(text, DateFrom(text, 0), ms)
      && |tx.description| <= DescriptionLimit
      && tx.bbox == BoxOf(boxes, page)
  {
  }

  /**
    The amount pattern has no place for a run of more than three digits
    without commas: a match starting at such a run stops after three digits
    and the next match starts there, so "1234.56" is read as "123" and "4.56",
    and a line ending in it gets the amount 4.56.
  */
  lemma UngroupedThousandsSplit(t: string, i: nat)
    requires i + 4 <= |t|
    requires forall k | i <= k < i + 4 :: IsDigit(t[k])
    ensures AmountEndAt(t, i) == Some(i + 3)
    ensures AmountMatches(t, i) == [t[i..i + 3]] + AmountMatches(t, i + 3)
  {
    assert SkipOpt(t, i, '$') == i;
    assert RunEnd(t, i, IsSpace) == i;
    assert SkipOpt(t, i, '-') == i && SkipOpt(t, i, '(') == i;
    var e := RunEnd(t, i, IsDigit);
    assert IsDigit(t[i + 3]);
    assert e >= i + 4;
    assert ThousandsEnd(t, i + 3) == i + 3;
    assert SkipOpt(t, i + 3, ')') == i + 3;
  }

  /** A box built from Tesseract word boxes is the smallest one around them all, on the given page. */
  lemma WordBoxesBound(rs: seq<Rect>, page: int)
    requires rs != []
    ensures BoxOf(Rects(rs), page).Some?
    ensures var b := BoxOf(Rects(rs), page).value;
      && b.page == page
      && (forall i | 0 <= i < |rs| ::
            b.x1 <= rs[i].x as real && b.y1 <= rs[i].y as real
            && (rs[i].x + rs[i].w) as real <= b.x2 && (rs[i].y + rs[i].h) as real <= b.y2)
      && (exists i | 0 <= i < |rs| :: b.x1 == rs[i].x as real)
      && (exists i | 0 <= i < |rs| :: b.y1 == rs[i].y as real)
      && (exists i | 0 <= i < |rs| :: b.x2 == (rs[i].x + rs[i].w) as real)
      && (exists i | 0 <= i < |rs| :: b.y2 == (rs[i].y + rs[i].h) as real)
  {
    var b := BoxOf(Rects(rs), page).value;
    var k1 :| 0 <= k1 < |rs| && Lefts(rs)[k1] == b.x1;
    var k2 :| 0 <= k2 < |rs| && Tops(rs)[k2] == b.y1;
    var k3 :| 0 <= k3 < |rs| && Rights(rs)[k3] == b.x2;
    var k4 :| 0 <= k4 < |rs| && Bottoms(rs)[k4] == b.y2;
  }
}
