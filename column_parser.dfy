/**
  `parse_line_with_columns`: one line of positioned words becomes a
  transaction whose amount and balance are told apart by their x position.
*/
module ColumnParser {
  import opened Wrappers
  import opened Text
  import opened Records
  import opened Sorting
  import opened WordPatterns
  import opened ColumnAnchors
  import opened Decimals

  // ---------------------------------------------------------------------
  // Numeric values
  // ---------------------------------------------------------------------

  /** The number a word holds, if its stripped text is numeric and converts. */
  function NumericValueOf(w: Word): Option<NumVal> {
    var text := Strip(w.text);
    if !IsNumericWord(RemoveAll(text, ",")) then None
    else match SignedValue(text)
      case None => None
      case Some(v) => Some(NumVal(v, Center(w), text))
  }

  /** `numeric_values`: the numbers of the line's words, in word order. */
  function NumericValues(ws: seq<Word>): (r: seq<NumVal>)
    ensures |r| <= |ws|
  {
    if ws == [] then []
    else
      var rest := NumericValues(ws[..|ws| - 1]);
      match NumericValueOf(ws[|ws| - 1])
      case None => rest
      case Some(nv) => rest + [nv]
  }

  method CollectNumericValues(ws: seq<Word>) returns (nvs: seq<NumVal>)
    ensures nvs == NumericValues(ws)
  {
    nvs := [];
    for i := 0 to |ws|
      invariant nvs == NumericValues(ws[..i])
    {
      assert ws[..i + 1][..i] == ws[..i];
      var nv := NumericValueOf(ws[i]);
      if nv.Some? {
        nvs := nvs + [nv.value];
      }
    }
    assert ws[..|ws|] == ws;
  }

  /** Every number comes from some word of the line, in order. */
  lemma {:induction false} NumericValuesFromWords(ws: seq<Word>)
    ensures forall k | 0 <= k < |NumericValues(ws)| ::
      exists i | 0 <= i < |ws| :: NumericValueOf(ws[i]) == Some(NumericValues(ws)[k])
  {
    if ws == [] {
      assert NumericValues(ws) == [];
    } else {
      var p := ws[..|ws| - 1];
      var last := ws[|ws| - 1];
      NumericValuesFromWords(p);
      var rest := NumericValues(p);
      assert forall i | 0 <= i < |p| :: ws[i] == p[i];
      if NumericValueOf(last).Some? {
        assert NumericValues(ws) == rest + [NumericValueOf(last).value];
        assert NumericValueOf(ws[|ws| - 1]) == Some(NumericValues(ws)[|rest|]);
      } else {
        assert NumericValues(ws) == rest;
      }
    }
  }

  // ---------------------------------------------------------------------
  // Date
  // ---------------------------------------------------------------------

  /** The stripped text of the first word of `ws` that starts like a date. */
  function FirstDate(ws: seq<Word>): Option<string> {
    if ws == [] then None
    else if IsDateText(Strip(ws[0].text)) then Some(Strip(ws[0].text))
    else FirstDate(ws[1..])
  }

  /** Only the first three words are tried. */
  function DateOf(ws: seq<Word>): Option<string> {
    FirstDate(if |ws| > 3 then ws[..3] else ws)
  }

  method FindDate(ws: seq<Word>) returns (date: Option<string>)
    ensures date == DateOf(ws)
  {
    var first := if |ws| > 3 then ws[..3] else ws;
    date := None;
    var i := 0;
    while i < |first|
      invariant 0 <= i <= |first|
      invariant FirstDate(first) == FirstDate(first[i..])
      invariant date == None
    {
      var text := Strip(first[i].text);
      if NumericDateStart(text) {
        date := Some(text);
        break;
      }
      if WordDateStart(text) {
        date := Some(text);
        break;
      }
      assert first[i..][1..] == first[i + 1..];
      i := i + 1;
    }
  }

  /**
    The date is the stripped text of one of the first three words, and a date
    text. A found date is never empty, so `if not date` rejects exactly the
    lines where no date was found.
  */
  lemma {:induction false} DateFromFirstThree(ws: seq<Word>)
    ensures DateOf(ws).Some? ==>
      exists i | 0 <= i < |ws| && i < 3 :: DateOf(ws).value == Strip(ws[i].text) && IsDateText(Strip(ws[i].text))
    ensures DateOf(ws).None? <==> forall i | 0 <= i < |ws| && i < 3 :: !IsDateText(Strip(ws[i].text))
    ensures DateOf(ws).Some? ==> DateOf(ws).value != []
  {
    var first := if |ws| > 3 then ws[..3] else ws;
    FirstDateIsFirst(first);
    if DateOf(ws).Some? {
      var i :| 0 <= i < |ws| && i < 3 && DateOf(ws).value == Strip(ws[i].text) && IsDateText(Strip(ws[i].text));
      DateTextNonEmpty(Strip(ws[i].text));
    }
  }

  lemma {:induction false} FirstDateIsFirst(ws: seq<Word>)
    ensures FirstDate(ws).Some? ==>
      exists i | 0 <= i < |ws| :: FirstDate(ws).value == Strip(ws[i].text) && IsDateText(Strip(ws[i].text))
    ensures FirstDate(ws).None? <==> forall i | 0 <= i < |ws| :: !IsDateText(Strip(ws[i].text))
  {
    if ws != [] {
      FirstDateIsFirst(ws[1..]);
      if !IsDateText(Strip(ws[0].text)) {
        if FirstDate(ws[1..]).Some? {
          var i :| 0 <= i < |ws[1..]| && FirstDate(ws[1..]).value == Strip(ws[1..][i].text)
            && IsDateText(Strip(ws[1..][i].text));
          assert ws[1..][i] == ws[i + 1];
        }
        assert forall i | 1 <= i < |ws| :: ws[i] == ws[1..][i - 1];
      }
    }
  }

  // ---------------------------------------------------------------------
  // Amount and balance
  // ---------------------------------------------------------------------

  /** `column_anchors.get('balance')` when truthy: set, and not `0.0`. */
  function BalanceAnchor(anchors: map<Column, Option<real>>): Option<real> {
    if BalanceColumn in anchors && anchors[BalanceColumn].Some? && anchors[BalanceColumn].value != 0.0
    then anchors[BalanceColumn]
    else None
  }

  /** The sort key `lambda v: v['x']`. */
  predicate ByX(a: NumVal, b: NumVal) {
    a.x < b.x
  }

  lemma ByXStrictOrder()
    ensures StrictWeakOrder(ByX)
  {
  }

  /** How close to the balance anchor a number must be to count as the balance. */
  const BalanceReach: real := 50.0

  predicate NearAnchor(v: NumVal, bx: real) {
    Abs(v.x - bx) < BalanceReach
  }

  /** The index of the first value at or after `k` within reach of the anchor. */
  function FirstNear(sv: seq<NumVal>, bx: real, k: nat): (r: Option<nat>)
    ensures r.Some? ==> k <= r.value < |sv|
    decreases |sv| - k
  {
    if k >= |sv| then None
    else if NearAnchor(sv[k], bx) then Some(k)
    else FirstNear(sv, bx, k + 1)
  }

  /** The last index of `n >= 2` positions other than `i`. */
  function LastOther(n: nat, i: nat): (j: nat)
    requires 2 <= n && i < n
    ensures j < n && j != i
    ensures j == n - 1 || (j == n - 2 && i == n - 1)
  {
    if i == n - 1 then n - 2 else n - 1
  }

  /** The signed amount and the balance the columns yield; no amount means no transaction. */
  datatype Assignment = Assignment(amount: Option<real>, balance: Option<real>)

  function AssignColumns(nvs: seq<NumVal>, anchors: map<Column, Option<real>>): Assignment {
    if |nvs| >= 2 && BalanceAnchor(anchors).Some? then
      var sv := SortBy(nvs, ByX);
      match FirstNear(sv, BalanceAnchor(anchors).value, 0)
      case None => Assignment(None, None)
      case Some(i) => Assignment(Some(sv[LastOther(|sv|, i)].value), Some(sv[i].value))
    else if |nvs| >= 2 then
      var sv := SortBy(nvs, ByX);
      Assignment(Some(sv[|sv| - 2].value), Some(sv[|sv| - 1].value))
    else if |nvs| == 1 then Assignment(Some(nvs[0].value), None)
    else Assignment(None, None)
  }

  /** `'debit' if amount < 0 else 'credit'`. */
  function SignType(amount: real): TxType {
    if amount < 0.0 then Debit else Credit
  }

  method AssignValues(nvs: seq<NumVal>, anchors: map<Column, Option<real>>)
    returns (amount: Option<real>, balance: Option<real>, txType: TxType)
    ensures Assignment(amount, balance) == AssignColumns(nvs, anchors)
    ensures txType == if amount.Some? then SignType(amount.value) else Unknown
  {
    amount, balance, txType := None, None, Unknown;
    var anchor := BalanceAnchor(anchors);
    if |nvs| >= 2 && anchor.Some? {
      var balanceX := anchor.value;
      var sv := SortBy(nvs, ByX);
      var i := 0;
      while i < |sv|
        invariant 0 <= i <= |sv|
        invariant FirstNear(sv, balanceX, 0) == FirstNear(sv, balanceX, i)
        invariant amount == None && balance == None && txType == Unknown
      {
        if Abs(sv[i].x - balanceX) < 50.0 {
          balance := Some(sv[i].value);
          for j := 0 to |sv|
            invariant j <= i || j == i + 1 || LastOther(j, i) < j
            invariant amount == if j == 0 || (j == 1 && i == 0) then None
              else Some(sv[if j - 1 != i then j - 1 else j - 2].value)
            invariant txType == if amount.Some? then SignType(amount.value) else Unknown
          {
            if j != i {
              amount := Some(sv[j].value);
              txType := if sv[j].value < 0.0 then Debit else Credit;
            }
          }
          break;
        }
        i := i + 1;
      }
    } else if |nvs| >= 2 {
      var sv := SortBy(nvs, ByX);
      balance := Some(sv[|sv| - 1].value);
      amount := Some(sv[|sv| - 2].value);
      txType := if sv[|sv| - 2].value < 0.0 then Debit else Credit;
    } else if |nvs| == 1 {
      amount := Some(nvs[0].value);
      txType := if nvs[0].value < 0.0 then Debit else Credit;
    }
  }

  // ---------------------------------------------------------------------
  // Description and box
  // ---------------------------------------------------------------------

  /** `any(nv['text'] == text for nv in numeric_values)`. */
  predicate IsNumberText(nvs: seq<NumVal>, text: string) {
    exists k | 0 <= k < |nvs| :: nvs[k].text == text
  }

  /** The stripped texts of the words that are neither the date nor a number's text, in order. */
  function DescriptionParts(ws: seq<Word>, date: string, nvs: seq<NumVal>): (parts: seq<string>)
    ensures forall k | 0 <= k < |parts| :: parts[k] != date && !IsNumberText(nvs, parts[k])
  {
    if ws == [] then []
    else
      var text := Strip(ws[|ws| - 1].text);
      var rest := DescriptionParts(ws[..|ws| - 1], date, nvs);
      if text == date || IsNumberText(nvs, text) then rest else rest + [text]
  }

  /** `' '.join(description_parts).strip()[:200]`. */
  function Description(ws: seq<Word>, date: string, nvs: seq<NumVal>): (d: string)
    ensures |d| <= DescriptionLimit
  {
    Take(Strip(Join(DescriptionParts(ws, date, nvs))), DescriptionLimit)
  }

  method BuildDescription(ws: seq<Word>, date: string, nvs: seq<NumVal>) returns (description: string)
    ensures description == Description(ws, date, nvs)
  {
    var parts: seq<string> := [];
    for i := 0 to |ws|
      invariant parts == DescriptionParts(ws[..i], date, nvs)
    {
      assert ws[..i + 1][..i] == ws[..i];
      var text := Strip(ws[i].text);
      var isNumber := false;
      for k := 0 to |nvs|
        invariant isNumber <==> exists m | 0 <= m < k :: nvs[m].text == text
      {
        if nvs[k].text == text {
          isNumber := true;
        }
      }
      assert isNumber == IsNumberText(nvs, text);
      if text != date && !isNumber {
        parts := parts + [text];
      }
    }
    assert ws[..|ws|] == ws;
    description := Take(Strip(Join(parts)), 200);
  }

  /** The line's box: the least `x0` and `top`, the greatest `x1` and `bottom`. */
  function LineBox(ws: seq<Word>, page: int): BBox
    requires ws != []
  {
    BBox(
      Min(seq(|ws|, i requires 0 <= i < |ws| => ws[i].x0)),
      Min(seq(|ws|, i requires 0 <= i < |ws| => ws[i].top)),
      Max(seq(|ws|, i requires 0 <= i < |ws| => ws[i].x1)),
      Max(seq(|ws|, i requires 0 <= i < |ws| => ws[i].bottom)),
      page)
  }

  /** The box encloses every word and each edge touches some word. */
  lemma LineBoxBounds(ws: seq<Word>, page: int)
    requires ws != []
    ensures var b := LineBox(ws, page);
      && b.page == page
      && (forall i | 0 <= i < |ws| :: b.x1 <= ws[i].x0 && b.y1 <= ws[i].top && ws[i].x1 <= b.x2 && ws[i].bottom <= b.y2)
      && (exists i | 0 <= i < |ws| :: b.x1 == ws[i].x0)
      && (exists i | 0 <= i < |ws| :: b.y1 == ws[i].top)
      && (exists i | 0 <= i < |ws| :: b.x2 == ws[i].x1)
      && (exists i | 0 <= i < |ws| :: b.y2 == ws[i].bottom)
  {
    var b := LineBox(ws, page);
    var x0s := seq(|ws|, i requires 0 <= i < |ws| => ws[i].x0);
    var tops := seq(|ws|, i requires 0 <= i < |ws| => ws[i].top);
    var x1s := seq(|ws|, i requires 0 <= i < |ws| => ws[i].x1);
    var bottoms := seq(|ws|, i requires 0 <= i < |ws| => ws[i].bottom);
    forall i | 0 <= i < |ws|
      ensures b.x1 <= ws[i].x0 && b.y1 <= ws[i].top && ws[i].x1 <= b.x2 && ws[i].bottom <= b.y2
    {
      assert x0s[i] == ws[i].x0 && tops[i] == ws[i].top && x1s[i] == ws[i].x1 && bottoms[i] == ws[i].bottom;
    }
    var a :| 0 <= a < |ws| && x0s[a] == b.x1;
    var c :| 0 <= c < |ws| && tops[c] == b.y1;
    var d :| 0 <= d < |ws| && x1s[d] == b.x2;
    var e :| 0 <= e < |ws| && bottoms[e] == b.y2;
  }

  // ---------------------------------------------------------------------
  // The parser
  // ---------------------------------------------------------------------

  /** `' '.join(w['text'] for w in line_words)`. */
  function LineText(ws: seq<Word>): string {
    Join(seq(|ws|, i requires 0 <= i < |ws| => ws[i].text))
  }

  const ColumnConfidence: real := 0.85

  /** What `parse_line_with_columns` returns for a line, its anchors and its page number. */
  function ParseLine(ws: seq<Word>, anchors: map<Column, Option<real>>, page: int): Option<Transaction> {
    if ws == [] || IsSkipLine(LineText(ws)) then None
    else
      var nvs := NumericValues(ws);
      match DateOf(ws)
      case None => None
      case Some(date) =>
        var a := AssignColumns(nvs, anchors);
        if a.amount.None? then None
        else Some(Transaction(
          Some(date), Description(ws, date, nvs), Abs(a.amount.value), SignType(a.amount.value),
          a.balance, ColumnConfidence, Some(LineBox(ws, page)), LineText(ws)))
  }

  method ParseLineWithColumns(lineWords: seq<Word>, anchors: map<Column, Option<real>>, page: int)
    returns (r: Option<Transaction>)
    ensures r == ParseLine(lineWords, anchors, page)
  {
    if lineWords == [] {
      return None;
    }
    var lineText := LineText(lineWords);
    for k := 0 to |SkipPatterns|
      invariant AnySearches(SkipPatterns, lineText) == AnySearches(SkipPatterns[k..], lineText)
    {
      if Searches(SkipPatterns[k], LowerStr(lineText)) {
        return None;
      }
      assert SkipPatterns[k..][1..] == SkipPatterns[k + 1..];
    }
    var nvs := CollectNumericValues(lineWords);
    var date := FindDate(lineWords);
    if date.None? {
      return None;
    }
    var amount, balance, txType := AssignValues(nvs, anchors);
    if amount.None? {
      return None;
    }
    var description := BuildDescription(lineWords, date.value, nvs);
    var bbox := LineBox(lineWords, page);
    r := Some(Transaction(
      date, description, Abs(amount.value), txType, balance, 0.85, Some(bbox), lineText));
  }

  // ---------------------------------------------------------------------
  // Properties
  // ---------------------------------------------------------------------

  /**
    No transaction exactly when the line is empty, matches a skip pattern,
    has no date among its first three words, or no amount was assigned.
  */
  lemma ParseLineNone(ws: seq<Word>, anchors: map<Column, Option<real>>, page: int)
    ensures ParseLine(ws, anchors, page).None? <==>
      || ws == []
      || IsSkipLine(LineText(ws))
      || (forall i | 0 <= i < |ws| && i < 3 :: !IsDateText(Strip(ws[i].text)))
      || AssignColumns(NumericValues(ws), anchors).amount.None?
  {
    DateFromFirstThree(ws);
  }

  /**
    Two or more numbers and a balance anchor with none of them within 50
    units give no transaction: there is no fallback to the rightmost rule.
  */
  lemma NoNearValueNoTransaction(ws: seq<Word>, anchors: map<Column, Option<real>>, page: int)
    requires |NumericValues(ws)| >= 2 && BalanceAnchor(anchors).Some?
    requires forall k | 0 <= k < |NumericValues(ws)| :: !NearAnchor(NumericValues(ws)[k], BalanceAnchor(anchors).value)
    ensures ParseLine(ws, anchors, page) == None
  {
    var nvs := NumericValues(ws);
    var bx := BalanceAnchor(anchors).value;
    var sv := SortBy(nvs, ByX);
    forall k | 0 <= k < |sv| ensures !NearAnchor(sv[k], bx) {
      assert sv[k] in multiset(nvs);
    }
    NoNearFromAnywhere(sv, bx, 0);
  }

  lemma {:induction false} NoNearFromAnywhere(sv: seq<NumVal>, bx: real, k: nat)
    requires forall m | 0 <= m < |sv| :: !NearAnchor(sv[m], bx)
    ensures FirstNear(sv, bx, k) == None
    decreases |sv| - k
  {
    if k < |sv| {
      NoNearFromAnywhere(sv, bx, k + 1);
    }
  }

  lemma {:induction false} FirstNearIsFirst(sv: seq<NumVal>, bx: real, k: nat)
    ensures FirstNear(sv, bx, k).Some? ==>
      NearAnchor(sv[FirstNear(sv, bx, k).value], bx) &&
      forall m | k <= m < FirstNear(sv, bx, k).value :: !NearAnchor(sv[m], bx)
    decreases |sv| - k
  {
    if k < |sv| && !NearAnchor(sv[k], bx) {
      FirstNearIsFirst(sv, bx, k + 1);
    }
  }

  /**
    With a balance anchor and two or more numbers, ordered by x: the balance
    is the first number within reach of the anchor and the amount is the
    rightmost of the others.
  */
  lemma AssignAnchored(nvs: seq<NumVal>, anchors: map<Column, Option<real>>)
    requires |nvs| >= 2 && BalanceAnchor(anchors).Some?
    requires AssignColumns(nvs, anchors).amount.Some?
    ensures var sv := SortBy(nvs, ByX);
      var bx := BalanceAnchor(anchors).value;
      var a := AssignColumns(nvs, anchors);
      && SortedBy(sv, ByX) && multiset(sv) == multiset(nvs)
      && exists i, j | 0 <= i < |sv| && 0 <= j < |sv| && i != j ::
        && a.balance == Some(sv[i].value)
        && NearAnchor(sv[i], bx)
        && (forall m | 0 <= m < i :: !NearAnchor(sv[m], bx))
        && a.amount == Some(sv[j].value)
        && (j == |sv| - 1 || (j == |sv| - 2 && i == |sv| - 1))
  {
    ByXStrictOrder();
    var sv := SortBy(nvs, ByX);
    var bx := BalanceAnchor(anchors).value;
    SortBySorted(nvs, ByX);
    FirstNearIsFirst(sv, bx, 0);
    var i := FirstNear(sv, bx, 0).value;
    var j := LastOther(|sv|, i);
    assert AssignColumns(nvs, anchors) == Assignment(Some(sv[j].value), Some(sv[i].value));
    assert NearAnchor(sv[i], bx) && forall m | 0 <= m < i :: !NearAnchor(sv[m], bx);
  }

  /**
    Without a usable balance anchor, two or more numbers: the rightmost is
    the balance and the second-rightmost the amount.
  */
  lemma AssignFallback(nvs: seq<NumVal>, anchors: map<Column, Option<real>>)
    requires |nvs| >= 2 && BalanceAnchor(anchors).None?
    ensures var sv := SortBy(nvs, ByX);
      var n := |sv|;
      var a := AssignColumns(nvs, anchors);
      && multiset(sv) == multiset(nvs)
      && a.balance == Some(sv[n - 1].value)
      && a.amount == Some(sv[n - 2].value)
      && (forall k | 0 <= k < n :: sv[k].x <= sv[n - 1].x)
      && (forall k | 0 <= k < n - 1 :: sv[k].x <= sv[n - 2].x)
  {
    ByXStrictOrder();
    SortBySorted(nvs, ByX);
    var sv := SortBy(nvs, ByX);
    var n := |sv|;
    forall k | 0 <= k < n ensures sv[k].x <= sv[n - 1].x {
      if k < n - 1 {
        assert !ByX(sv[n - 1], sv[k]);
      }
    }
    forall k | 0 <= k < n - 1 ensures sv[k].x <= sv[n - 2].x {
      if k < n - 2 {
        assert !ByX(sv[n - 2], sv[k]);
      }
    }
  }

  /** A lone number is the amount and there is no balance. */
  lemma AssignSingle(nv: NumVal, anchors: map<Column, Option<real>>)
    ensures AssignColumns([nv], anchors) == Assignment(Some(nv.value), None)
  {
  }

  /** Whatever is assigned comes from the line's numbers, the balance from a different one. */
  lemma AssignFromNumbers(nvs: seq<NumVal>, anchors: map<Column, Option<real>>)
    ensures var a := AssignColumns(nvs, anchors);
      && (a.amount.Some? ==> exists k | 0 <= k < |nvs| :: nvs[k].value == a.amount.value)
      && (a.balance.Some? ==> a.amount.Some? && |nvs| >= 2 && exists k | 0 <= k < |nvs| :: nvs[k].value == a.balance.value)
  {
    var a := AssignColumns(nvs, anchors);
    if |nvs| >= 2 {
      var sv := SortBy(nvs, ByX);
      if a.amount.Some? {
        var j :| 0 <= j < |sv| && a.amount == Some(sv[j].value) by {
          if BalanceAnchor(anchors).Some? {
            var i := FirstNear(sv, BalanceAnchor(anchors).value, 0).value;
            assert a.amount == Some(sv[LastOther(|sv|, i)].value);
          } else {
            assert a.amount == Some(sv[|sv| - 2].value);
          }
        }
        assert sv[j] in multiset(nvs);
      }
      if a.balance.Some? {
        var i :| 0 <= i < |sv| && a.balance == Some(sv[i].value) by {
          if BalanceAnchor(anchors).Some? {
            var i := FirstNear(sv, BalanceAnchor(anchors).value, 0).value;
            assert a.balance == Some(sv[i].value);
          } else {
            assert a.balance == Some(sv[|sv| - 1].value);
          }
        }
        assert sv[i] in multiset(nvs);
      }
    }
  }

  /**
    Every transaction the column parser returns: a date from the first three
    words, a non-negative amount whose type is debit exactly when the signed
    amount is negative (never unknown), confidence 0.85, the description that
    `Description` builds from the words other than the date and the numbers
    (`DescriptionOmitsDateAndNumbers`), at most 200 characters, and the line's box.
  */
  lemma ParsedTransaction(ws: seq<Word>, anchors: map<Column, Option<real>>, page: int)
    requires ParseLine(ws, anchors, page).Some?
    ensures var t := ParseLine(ws, anchors, page).value;
      var signed := AssignColumns(NumericValues(ws), anchors).amount.value;
      && t.date == DateOf(ws) && t.date.Some?
      && t.amount >= 0.0 && t.amount == Abs(signed)
      && (t.txType == Debit <==> signed < 0.0)
      && t.txType != Unknown
      && t.balance == AssignColumns(NumericValues(ws), anchors).balance
      && t.confidence == 0.85
      && t.description == Description(ws, t.date.value, NumericValues(ws))
      && |t.description| <= 200
      && t.bbox == Some(LineBox(ws, page))
      && t.rawText == LineText(ws)
  {
  }

  /** The description is built only from words that are neither the date nor a number. */
  lemma DescriptionOmitsDateAndNumbers(ws: seq<Word>, date: string, nvs: seq<NumVal>)
    ensures var parts := DescriptionParts(ws, date, nvs);
      forall k | 0 <= k < |parts| :: parts[k] != date && forall m | 0 <= m < |nvs| :: nvs[m].text != parts[k]
  {
  }

  /** Two numbers in x order, the one within reach of the balance anchor second: amount left, balance right. */
  lemma TwoValuesAnchored(a: NumVal, b: NumVal, anchors: map<Column, Option<real>>)
    requires a.x < b.x && BalanceAnchor(anchors).Some?
    requires !NearAnchor(a, BalanceAnchor(anchors).value) && NearAnchor(b, BalanceAnchor(anchors).value)
    ensures AssignColumns([a, b], anchors) == Assignment(Some(a.value), Some(b.value))
  {
    SortTwo(a, b);
    assert FirstNear([a, b], BalanceAnchor(anchors).value, 0) == Some(1);
  }

  /** Two numbers in x order, the left one within reach of the balance anchor: balance left, amount right. */
  lemma TwoValuesAnchoredLeft(a: NumVal, b: NumVal, anchors: map<Column, Option<real>>)
    requires a.x < b.x && BalanceAnchor(anchors).Some? && NearAnchor(a, BalanceAnchor(anchors).value)
    ensures AssignColumns([a, b], anchors) == Assignment(Some(b.value), Some(a.value))
  {
    SortTwo(a, b);
    assert FirstNear([a, b], BalanceAnchor(anchors).value, 0) == Some(0);
  }

  /** Two numbers in x order and no usable balance anchor: amount left, balance right. */
  lemma TwoValuesFallback(a: NumVal, b: NumVal, anchors: map<Column, Option<real>>)
    requires a.x < b.x && BalanceAnchor(anchors).None?
    ensures AssignColumns([a, b], anchors) == Assignment(Some(a.value), Some(b.value))
  {
    SortTwo(a, b);
  }

  lemma SortTwo(a: NumVal, b: NumVal)
    requires a.x < b.x
    ensures SortBy([a, b], ByX) == [a, b]
  {
    assert [a, b][..1] == [a];
    assert SortBy([a], ByX) == [a];
  }

  // ---------------------------------------------------------------------
  // The numbers of particular words
  // ---------------------------------------------------------------------


  /**
    `t` spells the digits `ip`, a point and the digits `fp`, with or without
    thousands commas, and no sign or currency mark.
  */
  predicate DecimalSpelling(t: string, ip: string, fp: string) {
    && ip != [] && AllDigits(ip) && AllDigits(fp)
    && RemoveAll(t, ",") == ip + "." + fp
    && t != [] && IsDigit(t[0]) && IsDigit(t[|t| - 1])
    && '$' !in t && '(' !in t && '-' !in t
  }

  /** A word spelling a decimal number holds its value. */
  lemma DecimalWordValue(w: Word, ip: string, fp: string)
    requires DecimalSpelling(w.text, ip, fp)
    ensures NumericValueOf(w) == Some(NumVal(UnsignedValue(ip + "." + fp), Center(w), w.text))
  {
    PlainNumberWord(w.text, ip, fp);
    PlainNumberValue(w.text, ip, fp);
  }

  /** A word that starts with a letter holds no number. */
  lemma LetterWordNoValue(w: Word)
    requires w.text != [] && !IsSpace(w.text[|w.text| - 1]) && ',' !in w.text
    requires 'a' <= w.text[0] <= 'z' || 'A' <= w.text[0] <= 'Z'
    ensures NumericValueOf(w) == None
  {
    StripUnchanged(w.text);
    RemoveAbsent(w.text, ',');
    LetterWordNotNumeric(w.text);
  }

  /** A word that starts like "01/" holds no number. */
  lemma DateWordNoValue(w: Word)
    requires |w.text| > 3 && IsDigit(w.text[0]) && IsDigit(w.text[1]) && IsDateSep(w.text[2])
    requires !IsSpace(w.text[|w.text| - 1]) && ',' !in w.text
    ensures NumericValueOf(w) == None
  {
    StripUnchanged(w.text);
    RemoveAbsent(w.text, ',');
    DateLikeNotNumeric(w.text);
  }

  /** `NumericValues` grows by a word's number, if it holds one. */
  lemma NumberAfter(ws: seq<Word>, w: Word, v: NumVal)
    requires NumericValueOf(w) == Some(v)
    ensures NumericValues(ws + [w]) == NumericValues(ws) + [v]
  {
    assert (ws + [w])[..|ws|] == ws;
  }

  lemma NoNumberAfter(ws: seq<Word>, w: Word)
    requires NumericValueOf(w).None?
    ensures NumericValues(ws + [w]) == NumericValues(ws)
  {
    assert (ws + [w])[..|ws|] == ws;
  }
}
