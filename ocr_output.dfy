/**
  `parse_tesseract_output` and `parse_easyocr_output`: OCR words grouped
  into lines, each line's text handed to the text-only line parser.
*/
module OcrOutput {
  import opened Wrappers
  import opened Text
  import opened Records
  import opened Sorting
  import opened NaiveParser

  /** What one OCR line hands to `parse_line_to_transaction`: its text, confidence and boxes. */
  datatype LineInput = LineInput(text: string, confidence: real, boxes: LineBoxes)

  /** `parse_line_to_transaction` on one line's input. */
  function ParseInput(input: LineInput, page: int): Option<Transaction> {
    NaiveParse(input.text, input.confidence, page, input.boxes)
  }

  /** The line parser for page `page`. */
  function LineParser(page: int): LineInput -> Option<Transaction> {
    input => ParseInput(input, page)
  }

  /** The transactions `parse` yields for the lines, in line order; lines that yield none are dropped. */
  function ParsedBy(ins: seq<LineInput>, parse: LineInput -> Option<Transaction>): seq<Transaction> {
    Found(seq(|ins|, i requires 0 <= i < |ins| => parse(ins[i])))
  }

  /** One more line adds its transaction, if it yields one, after those of the earlier lines. */
  lemma ParsedBySnoc(ins: seq<LineInput>, input: LineInput, parse: LineInput -> Option<Transaction>)
    ensures ParsedBy(ins + [input], parse) ==
      ParsedBy(ins, parse) + if parse(input).Some? then [parse(input).value] else []
  {
    var results := seq(|ins + [input]|, i requires 0 <= i < |ins + [input]| => parse((ins + [input])[i]));
    assert results[..|ins|] == seq(|ins|, i requires 0 <= i < |ins| => parse(ins[i]));
    assert results[|ins|] == parse(input);
  }

  /** What the lines of one page yield. */
  function ParsedLines(ins: seq<LineInput>, page: int): seq<Transaction> {
    ParsedBy(ins, LineParser(page))
  }

  /**
    One step of a line loop: `parse_line_to_transaction` on the next line,
    its transaction appended when there is one.
  */
  method ParseAndKeep(txs: seq<Transaction>, ghost done: seq<LineInput>, input: LineInput, page: int)
    returns (txs': seq<Transaction>)
    requires txs == ParsedBy(done, LineParser(page))
    ensures txs' == ParsedBy(done + [input], LineParser(page))
  {
    ParsedBySnoc(done, input, LineParser(page));
    var tx := ParseLineToTransaction(input.text, input.confidence, page, input.boxes);
    if tx.Some? {
      txs' := txs + [tx.value];
    } else {
      txs' := txs;
    }
  }

  // ---------------------------------------------------------------------
  // Tesseract
  // ---------------------------------------------------------------------

  /**
    Entry `i` of Tesseract's `image_to_data` dictionary: `text[i]`,
    `line_num[i]`, `conf[i]` and the box `left/top/width/height[i]`.
  */
  datatype TessWord = TessWord(text: string, lineNum: int, conf: real, box: Rect)

  /** `not word.strip()`. */
  predicate IsBlank(s: string) {
    Strip(s) == []
  }

  /** Word `w` is kept, on line `ln`. */
  predicate OnLine(w: TessWord, ln: int) {
    !IsBlank(w.text) && w.lineNum == ln
  }

  /** The line numbers of the non-blank words in order of first appearance: the key order of `lines`. */
  function LineOrder(ws: seq<TessWord>): seq<int> {
    if ws == [] then []
    else
      var p := LineOrder(ws[..|ws| - 1]);
      var w := ws[|ws| - 1];
      if IsBlank(w.text) || w.lineNum in p then p else p + [w.lineNum]
  }

  /** The non-blank words on line `ln`, in input order: `lines[ln]`. */
  function LineWords(ws: seq<TessWord>, ln: int): seq<TessWord> {
    if ws == [] then []
    else
      var p := LineWords(ws[..|ws| - 1], ln);
      var w := ws[|ws| - 1];
      if OnLine(w, ln) then p + [w] else p
  }

  function Texts(ws: seq<TessWord>): (ts: seq<string>)
    ensures |ts| == |ws| && forall i | 0 <= i < |ws| :: ts[i] == ws[i].text
  {
    seq(|ws|, i requires 0 <= i < |ws| => ws[i].text)
  }

  function Confs(ws: seq<TessWord>): (cs: seq<real>)
    ensures |cs| == |ws| && forall i | 0 <= i < |ws| :: cs[i] == ws[i].conf
  {
    seq(|ws|, i requires 0 <= i < |ws| => ws[i].conf)
  }

  function Boxes(ws: seq<TessWord>): (rs: seq<Rect>)
    ensures |rs| == |ws| && forall i | 0 <= i < |ws| :: rs[i] == ws[i].box
  {
    seq(|ws|, i requires 0 <= i < |ws| => ws[i].box)
  }

  /** The confidences above zero, in order (Tesseract reports -1 for non-words). */
  function Positives(cs: seq<real>): (ps: seq<real>)
    ensures |ps| <= |cs|
  {
    if cs == [] then []
    else Positives(cs[..|cs| - 1]) + (if cs[|cs| - 1] > 0.0 then [cs[|cs| - 1]] else [])
  }

  /** The kept confidences are the positive ones, with their multiplicities; none are kept exactly when none is positive. */
  lemma PositivesKeepPositive(cs: seq<real>)
    ensures forall k | 0 <= k < |Positives(cs)| :: Positives(cs)[k] > 0.0 && Positives(cs)[k] in cs
    ensures Positives(cs) == [] <==> forall k | 0 <= k < |cs| :: cs[k] <= 0.0
    ensures forall c :: multiset(Positives(cs))[c] == if c > 0.0 then multiset(cs)[c] else 0
  {
    PositivesKept(cs);
    PositivesCount(cs);
  }

  lemma {:induction false} PositivesKept(cs: seq<real>)
    ensures forall k | 0 <= k < |Positives(cs)| :: Positives(cs)[k] > 0.0 && Positives(cs)[k] in cs
    ensures Positives(cs) == [] <==> forall k | 0 <= k < |cs| :: cs[k] <= 0.0
  {
    if cs != [] {
      var p := cs[..|cs| - 1];
      PositivesKept(p);
      assert forall k | 0 <= k < |p| :: p[k] == cs[k];
      assert forall c | c in p :: c in cs;
    }
  }

  /** Every positive confidence is kept as often as it occurs, and nothing else is. */
  lemma {:induction false} PositivesCount(cs: seq<real>)
    ensures forall c :: multiset(Positives(cs))[c] == if c > 0.0 then multiset(cs)[c] else 0
  {
    if cs != [] {
      var p, x := cs[..|cs| - 1], cs[|cs| - 1];
      PositivesCount(p);
      assert cs == p + [x];
      assert multiset(cs) == multiset(p) + multiset{x};
      assert Positives(cs) == Positives(p) + (if x > 0.0 then [x] else []);
    }
  }

  /** `sum(c for c in cs if c > 0) / max(len([c for c in cs if c > 0]), 1)`. */
  function PositiveMean(cs: seq<real>): real {
    var ps := Positives(cs);
    Sum(ps) / (if |ps| > 0 then |ps| else 1) as real
  }

  /**
    Tesseract confidences are at most 100, so the confidence a line hands
    on lies between 0 and 1, and is 0 exactly when no word on the line has a
    positive confidence.
  */
  lemma LineConfidenceRange(cs: seq<real>)
    requires forall k | 0 <= k < |cs| :: cs[k] <= 100.0
    ensures 0.0 <= PositiveMean(cs) / 100.0 <= 1.0
    ensures PositiveMean(cs) == 0.0 <==> forall k | 0 <= k < |cs| :: cs[k] <= 0.0
  {
    var ps := Positives(cs);
    PositivesKept(cs);
    if ps != [] {
      forall k | 0 <= k < |ps| ensures 0.0 <= ps[k] <= 100.0 {
        var c := ps[k];
        assert c in cs;
      }
      MeanBounds(ps, 0.0, 100.0);
      SumPositive(ps);
    }
  }

  /** The text, confidence and boxes one Tesseract line hands to the line parser. */
  function TessInput(line: seq<TessWord>): LineInput {
    LineInput(Join(Texts(line)), PositiveMean(Confs(line)) / 100.0, Rects(Boxes(line)))
  }

  /** What `parse_tesseract_output` returns. */
  function TesseractTransactions(ws: seq<TessWord>, page: int): seq<Transaction> {
    ParsedBy(TessInputs(ws, LineOrder(ws)), LineParser(page))
  }

  /** The inputs of the lines in `order`, in that order. */
  function TessInputs(ws: seq<TessWord>, order: seq<int>): (ins: seq<LineInput>)
    ensures |ins| == |order|
  {
    if order == [] then []
    else TessInputs(ws, order[..|order| - 1]) + [TessInput(LineWords(ws, order[|order| - 1]))]
  }

  method ParseTesseractOutput(ws: seq<TessWord>, page: int) returns (txs: seq<Transaction>)
    ensures txs == TesseractTransactions(ws, page)
  {
    var order, lines := GroupTesseractWords(ws);
    txs := ParseTessLines(order, lines, page);
    InputsOfLineWords(ws, lines, order);
  }

  /** The inputs of the lines in `order`, read from the bucketed words. */
  function InputsOf(lines: map<int, seq<TessWord>>, order: seq<int>): (ins: seq<LineInput>)
    requires forall ln | ln in order :: ln in lines
  {
    if order == [] then []
    else
      var ln := order[|order| - 1];
      assert ln in order;
      InputsOf(lines, order[..|order| - 1]) + [TessInput(lines[ln])]
  }

  /** The second loop: each line in key order is parsed, and its transaction kept when there is one. */
  method ParseTessLines(order: seq<int>, lines: map<int, seq<TessWord>>, page: int)
    returns (txs: seq<Transaction>)
    requires forall ln | ln in order :: ln in lines
    ensures txs == ParsedBy(InputsOf(lines, order), LineParser(page))
  {
    txs := [];
    for k := 0 to |order|
      invariant txs == ParsedBy(InputsOf(lines, order[..k]), LineParser(page))
    {
      InputsOfStep(lines, order, k);
      var input := TessInput(lines[order[k]]);
      txs := ParseAndKeep(txs, InputsOf(lines, order[..k]), input, page);
    }
    InputsOfStep(lines, order, |order|);
  }

  lemma InputsOfStep(lines: map<int, seq<TessWord>>, order: seq<int>, k: nat)
    requires k <= |order| && forall ln | ln in order :: ln in lines
    ensures k < |order| ==> InputsOf(lines, order[..k + 1]) == InputsOf(lines, order[..k]) + [TessInput(lines[order[k]])]
    ensures k == |order| ==> InputsOf(lines, order[..k]) == InputsOf(lines, order)
  {
    if k < |order| {
      assert order[..k + 1][..k] == order[..k];
    } else {
      assert order[..k] == order;
    }
  }

  lemma {:induction false} InputsOfLineWords(ws: seq<TessWord>, lines: map<int, seq<TessWord>>, order: seq<int>)
    requires forall ln | ln in order :: ln in lines && lines[ln] == LineWords(ws, ln)
    ensures InputsOf(lines, order) == TessInputs(ws, order)
  {
    if order != [] {
      InputsOfLineWords(ws, lines, order[..|order| - 1]);
    }
  }

  /** The first loop: the non-blank words bucketed by line number, keys kept in first-appearance order. */
  method GroupTesseractWords(ws: seq<TessWord>) returns (order: seq<int>, lines: map<int, seq<TessWord>>)
    ensures order == LineOrder(ws)
    ensures forall ln :: ln in lines <==> ln in order
    ensures forall ln | ln in lines :: lines[ln] == LineWords(ws, ln)
  {
    order := [];
    lines := map[];
    for i := 0 to |ws|
      invariant order == LineOrder(ws[..i])
      invariant forall ln :: ln in lines <==> ln in order
      invariant forall ln | ln in lines :: lines[ln] == LineWords(ws[..i], ln)
    {
      TessStep(ws, i);
      LineOrderMembers(ws[..i], ws[i].lineNum);
      var w := ws[i];
      if IsBlank(w.text) {
        continue;
      }
      if w.lineNum !in lines {
        order := order + [w.lineNum];
        lines := lines[w.lineNum := []];
      }
      lines := lines[w.lineNum := lines[w.lineNum] + [w]];
    }
    assert ws[..|ws|] == ws;
  }

  /** A line number is a key exactly when some non-blank word carries it. */
  lemma LineOrderMembers(ws: seq<TessWord>, ln: int)
    ensures ln in LineOrder(ws) <==> exists i | 0 <= i < |ws| :: OnLine(ws[i], ln)
    ensures ln in LineOrder(ws) <==> LineWords(ws, ln) != []
  {
    LineOrderHasWords(ws, ln);
    LineWordsWitness(ws, ln);
  }

  lemma {:induction false} LineOrderHasWords(ws: seq<TessWord>, ln: int)
    ensures ln in LineOrder(ws) <==> LineWords(ws, ln) != []
  {
    if ws != [] {
      LineOrderHasWords(ws[..|ws| - 1], ln);
    }
  }

  lemma {:induction false} LineWordsWitness(ws: seq<TessWord>, ln: int)
    ensures LineWords(ws, ln) != [] <==> exists i | 0 <= i < |ws| :: OnLine(ws[i], ln)
  {
    if ws != [] {
      var p := ws[..|ws| - 1];
      LineWordsWitness(p, ln);
      if LineWords(p, ln) != [] {
        var i :| 0 <= i < |p| && OnLine(p[i], ln);
        assert ws[i] == p[i];
      } else if !OnLine(ws[|ws| - 1], ln) {
        forall i | 0 <= i < |ws| ensures !OnLine(ws[i], ln) {
          if i < |p| {
            assert ws[i] == p[i];
          }
        }
      }
    }
  }

  /** No line number is a key twice. */
  lemma {:induction false} LineOrderDistinct(ws: seq<TessWord>)
    ensures forall a, b | 0 <= a < b < |LineOrder(ws)| :: LineOrder(ws)[a] != LineOrder(ws)[b]
  {
    if ws != [] {
      LineOrderDistinct(ws[..|ws| - 1]);
    }
  }

  /** The index of the first non-blank word on line `ln`; `|ws|` when there is none. */
  function FirstOn(ws: seq<TessWord>, ln: int): (i: nat)
    ensures i <= |ws|
  {
    if ws == [] then 0
    else
      var p := ws[..|ws| - 1];
      if LineWords(p, ln) != [] then FirstOn(p, ln)
      else if OnLine(ws[|ws| - 1], ln) then |ws| - 1
      else |ws|
  }

  lemma {:induction false} FirstOnIsFirst(ws: seq<TessWord>, ln: int)
    ensures LineWords(ws, ln) != [] <==> FirstOn(ws, ln) < |ws|
    ensures FirstOn(ws, ln) < |ws| ==> OnLine(ws[FirstOn(ws, ln)], ln)
    ensures forall i | 0 <= i < FirstOn(ws, ln) && i < |ws| :: !OnLine(ws[i], ln)
  {
    if ws != [] {
      var p := ws[..|ws| - 1];
      FirstOnIsFirst(p, ln);
      LineWordsWitness(p, ln);
      assert forall i | 0 <= i < |p| :: p[i] == ws[i];
    }
  }

  /** The keys follow first appearance: a line comes before another exactly when its first word does. */
  ghost predicate OrderedByFirstWord(ws: seq<TessWord>) {
    forall a, b | 0 <= a < b < |LineOrder(ws)| :: FirstOn(ws, LineOrder(ws)[a]) < FirstOn(ws, LineOrder(ws)[b])
  }

  lemma {:induction false} LineOrderByFirstAppearance(ws: seq<TessWord>)
    ensures OrderedByFirstWord(ws)
    ensures forall a | 0 <= a < |LineOrder(ws)| :: FirstOn(ws, LineOrder(ws)[a]) < |ws|
  {
    if ws != [] {
      var p := ws[..|ws| - 1];
      var q := LineOrder(p);
      var o := LineOrder(ws);
      LineOrderByFirstAppearance(p);
      assert q == o[..|q|];
      forall a | 0 <= a < |q| ensures FirstOn(ws, o[a]) == FirstOn(p, q[a]) < |p| {
        LineOrderHasWords(p, q[a]);
      }
      if |o| > |q| {
        LineOrderHasWords(p, o[|q|]);
        assert FirstOn(ws, o[|q|]) == |p|;
      }
    }
  }

  /**
    The words of a line are non-blank and carry its number, and every
    non-blank word is on its own line as often as it occurs in the input.
  */
  lemma {:induction false} LineWordsPartition(ws: seq<TessWord>, ln: int)
    ensures forall w | w in LineWords(ws, ln) :: OnLine(w, ln)
    ensures forall w | OnLine(w, ln) :: multiset(LineWords(ws, ln))[w] == multiset(ws)[w]
    ensures forall w | !OnLine(w, ln) :: multiset(LineWords(ws, ln))[w] == 0
  {
    if ws != [] {
      var p := ws[..|ws| - 1];
      LineWordsPartition(p, ln);
      assert ws == p + [ws[|ws| - 1]];
    }
  }

  lemma TessStep(ws: seq<TessWord>, i: nat)
    requires i < |ws|
    ensures LineOrder(ws[..i + 1]) ==
      if IsBlank(ws[i].text) || ws[i].lineNum in LineOrder(ws[..i]) then LineOrder(ws[..i])
      else LineOrder(ws[..i]) + [ws[i].lineNum]
    ensures forall ln ::
      LineWords(ws[..i + 1], ln) == (if OnLine(ws[i], ln) then LineWords(ws[..i], ln) + [ws[i]] else LineWords(ws[..i], ln))
  {
    assert ws[..i + 1][..i] == ws[..i];
  }

  // ---------------------------------------------------------------------
  // EasyOCR
  // ---------------------------------------------------------------------

  datatype Point = Point(x: real, y: real)

  /**
    One EasyOCR result `(bbox, text, conf)`.  Of the four corners of `bbox`
    only corner 0 (top-left) and corner 2 (bottom-right) are ever read.
  */
  datatype OcrItem = OcrItem(topLeft: Point, bottomRight: Point, text: string, conf: real)

  /** `key=lambda x: (x[0][0][1], x[0][0][0])`: by top edge, then by left edge. */
  predicate ReadingBefore(a: OcrItem, b: OcrItem) {
    a.topLeft.y < b.topLeft.y || (a.topLeft.y == b.topLeft.y && a.topLeft.x < b.topLeft.x)
  }

  lemma ReadingOrderStrict()
    ensures StrictWeakOrder(ReadingBefore)
  {
  }

  /** Items whose top edges differ by less than this share a line. */
  const LineGap: real := 20.0

  /** `abs(y - current_y) < 20`, `current_y` being the top edge of the item placed just before. */
  predicate SameLine(prev: OcrItem, next: OcrItem) {
    Abs(next.topLeft.y - prev.topLeft.y) < LineGap
  }

  /** The lines of the sorted items: a new line starts wherever the top edge jumps by 20 or more. */
  function YLines(s: seq<OcrItem>): (ls: seq<seq<OcrItem>>)
    ensures s != [] ==> ls != []
  {
    if s == [] then []
    else if |s| == 1 then [s]
    else
      var p := YLines(s[..|s| - 1]);
      var next := s[|s| - 1];
      if SameLine(s[|s| - 2], next) then p[..|p| - 1] + [p[|p| - 1] + [next]]
      else p + [[next]]
  }

  function Flatten(ls: seq<seq<OcrItem>>): seq<OcrItem> {
    if ls == [] then [] else Flatten(ls[..|ls| - 1]) + ls[|ls| - 1]
  }

  /** No line is empty. */
  lemma {:induction false} YLinesNonEmpty(s: seq<OcrItem>)
    ensures forall k | 0 <= k < |YLines(s)| :: YLines(s)[k] != []
  {
    if |s| >= 2 {
      YLinesNonEmpty(s[..|s| - 1]);
    }
  }

  /** The lines, joined, give back the sorted items in order. */
  lemma {:induction false} YLinesFlatten(s: seq<OcrItem>)
    ensures Flatten(YLines(s)) == s
  {
    if |s| == 1 {
      assert Flatten(YLines(s)) == Flatten([]) + s;
    } else if |s| >= 2 {
      var q := s[..|s| - 1];
      YLinesFlatten(q);
      var p := YLines(q);
      var next := s[|s| - 1];
      var last := p[|p| - 1];
      var before := p[..|p| - 1];
      assert p == before + [last];
      assert s == q + [next];
      if SameLine(s[|s| - 2], next) {
        FlattenMerge(before, last, next);
      } else {
        FlattenSnoc(p, [next]);
      }
    }
  }

  lemma FlattenMerge(before: seq<seq<OcrItem>>, last: seq<OcrItem>, next: OcrItem)
    ensures Flatten(before + [last + [next]]) == Flatten(before + [last]) + [next]
  {
    FlattenSnoc(before, last + [next]);
    FlattenSnoc(before, last);
  }

  lemma FlattenSnoc(ls: seq<seq<OcrItem>>, l: seq<OcrItem>)
    ensures Flatten(ls + [l]) == Flatten(ls) + l
  {
    assert (ls + [l])[..|ls|] == ls;
  }

  /** The last item of the last line is the last item. */
  lemma YLinesLast(s: seq<OcrItem>)
    requires s != []
    ensures var ls := YLines(s); ls[|ls| - 1] != [] && ls[|ls| - 1][|ls[|ls| - 1]| - 1] == s[|s| - 1]
  {
    if |s| >= 2 {
      YLinesNonEmpty(s[..|s| - 1]);
    }
  }

  /** Within a line each item is near the one placed before it. */
  lemma {:induction false} YLinesNear(s: seq<OcrItem>)
    ensures forall k, j | 0 <= k < |YLines(s)| && 0 < j < |YLines(s)[k]| ::
      SameLine(YLines(s)[k][j - 1], YLines(s)[k][j])
  {
    if |s| >= 2 {
      var q := s[..|s| - 1];
      YLinesNear(q);
      YLinesLast(q);
      var p := YLines(q);
      var next := s[|s| - 1];
      var ls := YLines(s);
      if SameLine(s[|s| - 2], next) {
        var last := p[|p| - 1];
        assert ls == p[..|p| - 1] + [last + [next]];
        forall k, j | 0 <= k < |ls| && 0 < j < |ls[k]|
          ensures SameLine(ls[k][j - 1], ls[k][j])
        {
          if k < |p| - 1 {
            assert ls[k] == p[k];
          } else if j < |last| {
            assert ls[k][j - 1] == last[j - 1] && ls[k][j] == last[j];
          } else {
            assert ls[k][j - 1] == last[|last| - 1] == q[|q| - 1];
          }
        }
      } else {
        assert ls == p + [[next]];
        forall k, j | 0 <= k < |ls| && 0 < j < |ls[k]|
          ensures SameLine(ls[k][j - 1], ls[k][j])
        {
          assert k < |p| && ls[k] == p[k];
        }
      }
    }
  }

  /** Each line after the first starts with an item far from the last one of the line before. */
  ghost predicate FarApart(ls: seq<seq<OcrItem>>) {
    forall k | 0 < k < |ls| :: BreakBefore(ls, k)
  }

  /** Line `k` starts with an item far from the last item of line `k - 1`. */
  ghost predicate BreakBefore(ls: seq<seq<OcrItem>>, k: nat)
    requires 0 < k < |ls|
  {
    ls[k - 1] != [] && ls[k] != [] && !SameLine(ls[k - 1][|ls[k - 1]| - 1], ls[k][0])
  }

  lemma {:induction false} YLinesFar(s: seq<OcrItem>)
    ensures FarApart(YLines(s))
  {
    if |s| >= 2 {
      var q := s[..|s| - 1];
      YLinesFar(q);
      YLinesLast(q);
      YLinesNonEmpty(q);
      if SameLine(s[|s| - 2], s[|s| - 1]) {
        FarAfterJoin(YLines(q), s[|s| - 1]);
      } else {
        FarAfterBreak(YLines(q), s[|s| - 1]);
      }
    }
  }

  lemma FarAfterJoin(p: seq<seq<OcrItem>>, next: OcrItem)
    requires p != [] && p[|p| - 1] != [] && FarApart(p)
    ensures FarApart(p[..|p| - 1] + [p[|p| - 1] + [next]])
  {
    var ls := p[..|p| - 1] + [p[|p| - 1] + [next]];
    forall k | 0 < k < |ls|
      ensures BreakBefore(ls, k)
    {
      assert BreakBefore(p, k);
      assert ls[k - 1] == p[k - 1];
      assert ls[k][0] == p[k][0];
    }
  }

  lemma FarAfterBreak(p: seq<seq<OcrItem>>, next: OcrItem)
    requires p != [] && p[|p| - 1] != [] && FarApart(p)
    requires !SameLine(p[|p| - 1][|p[|p| - 1]| - 1], next)
    ensures FarApart(p + [[next]])
  {
    var ls := p + [[next]];
    forall k | 0 < k < |ls|
      ensures BreakBefore(ls, k)
    {
      if k < |p| {
        assert BreakBefore(p, k);
        assert ls[k - 1] == p[k - 1] && ls[k] == p[k];
      }
    }
  }

  /** The first loop of `parse_easyocr_output`, over the items in reading order. */
  method SplitLines(items: seq<OcrItem>) returns (lines: seq<seq<OcrItem>>)
    ensures lines == YLines(items)
  {
    lines := [];
    var current: seq<OcrItem> := [];
    var currentY: Option<real> := None;
    for i := 0 to |items|
      invariant i == 0 ==> lines == [] && current == [] && currentY == None
      invariant i > 0 ==>
        && current != []
        && currentY == Some(items[i - 1].topLeft.y)
        && lines + [current] == YLines(items[..i])
    {
      var y := items[i].topLeft.y;
      SplitStep(items, i, lines, current, currentY);
      if currentY == None || Abs(y - currentY.value) < LineGap {
        current := current + [items[i]];
        currentY := Some(y);
      } else {
        if current != [] {
          lines := lines + [current];
        }
        current := [items[i]];
        currentY := Some(y);
      }
    }
    if current != [] {
      lines := lines + [current];
    }
    PrefixWhole(items);
  }

  /**
    One item more, in the loop's own terms: it joins the current line when
    there is none yet or it is near the item before it, and starts a new line
    otherwise.
  */
  lemma SplitStep(items: seq<OcrItem>, i: nat, lines: seq<seq<OcrItem>>, current: seq<OcrItem>, currentY: Option<real>)
    requires i < |items|
    requires i == 0 ==> lines == [] && current == [] && currentY == None
    requires i > 0 ==>
      && current != []
      && currentY == Some(items[i - 1].topLeft.y)
      && lines + [current] == YLines(items[..i])
    ensures currentY == None || Abs(items[i].topLeft.y - currentY.value) < LineGap ==>
      lines + [current + [items[i]]] == YLines(items[..i + 1])
    ensures !(currentY == None || Abs(items[i].topLeft.y - currentY.value) < LineGap) ==>
      current != [] && lines + [current] + [[items[i]]] == YLines(items[..i + 1])
  {
    if i == 0 {
      assert items[..1] == [items[0]] == current + [items[0]];
    } else {
      var s := items[..i + 1];
      assert s[..i] == items[..i] && s[i - 1] == items[i - 1] && s[i] == items[i];
      var p := lines + [current];
      assert p[..|p| - 1] == lines && p[|p| - 1] == current;
      assert SameLine(items[i - 1], items[i]) <==> Abs(items[i].topLeft.y - currentY.value) < LineGap;
    }
  }

  lemma PrefixSnoc<T>(s: seq<T>, k: nat)
    requires k < |s|
    ensures s[..k + 1] == s[..k] + [s[k]]
  {
  }

  lemma PrefixWhole<T>(s: seq<T>)
    ensures s[..|s|] == s
  {
  }

  function ItemTexts(line: seq<OcrItem>): (ts: seq<string>)
    ensures |ts| == |line| && forall i | 0 <= i < |line| :: ts[i] == line[i].text
  {
    seq(|line|, i requires 0 <= i < |line| => line[i].text)
  }

  function ItemConfs(line: seq<OcrItem>): (cs: seq<real>)
    ensures |cs| == |line| && forall i | 0 <= i < |line| :: cs[i] == line[i].conf
  {
    seq(|line|, i requires 0 <= i < |line| => line[i].conf)
  }

  /** `all_x`: corner 0's and corner 2's x of every item, in order. */
  function CornerXs(line: seq<OcrItem>): (xs: seq<real>)
    ensures |xs| == 2 * |line|
  {
    if line == [] then []
    else CornerXs(line[..|line| - 1]) + [line[|line| - 1].topLeft.x, line[|line| - 1].bottomRight.x]
  }

  /** `all_y`: corner 0's and corner 2's y of every item, in order. */
  function CornerYs(line: seq<OcrItem>): (ys: seq<real>)
    ensures |ys| == 2 * |line|
  {
    if line == [] then []
    else CornerYs(line[..|line| - 1]) + [line[|line| - 1].topLeft.y, line[|line| - 1].bottomRight.y]
  }

  /** Entries `2i` and `2i + 1` of the corner lists belong to item `i`. */
  lemma {:induction false} CornersAt(line: seq<OcrItem>, i: nat)
    requires i < |line|
    ensures CornerXs(line)[2 * i] == line[i].topLeft.x && CornerXs(line)[2 * i + 1] == line[i].bottomRight.x
    ensures CornerYs(line)[2 * i] == line[i].topLeft.y && CornerYs(line)[2 * i + 1] == line[i].bottomRight.y
  {
    var n := |line| - 1;
    if i < n {
      CornersAt(line[..n], i);
      assert line[..n][i] == line[i];
    }
  }

  /** Every corner coordinate belongs to some item. */
  lemma CornerOwner(line: seq<OcrItem>, m: nat) returns (i: nat)
    requires m < 2 * |line|
    ensures i < |line|
    ensures CornerXs(line)[m] == line[i].topLeft.x || CornerXs(line)[m] == line[i].bottomRight.x
    ensures CornerYs(line)[m] == line[i].topLeft.y || CornerYs(line)[m] == line[i].bottomRight.y
  {
    i := m / 2;
    CornersAt(line, i);
    assert m == 2 * i || m == 2 * i + 1;
  }

  /** The whole line's box: min and max of the corner coordinates, on page `page`. */
  function LineBox(line: seq<OcrItem>, page: int): BBox
    requires line != []
  {
    BBox(Min(CornerXs(line)), Min(CornerYs(line)), Max(CornerXs(line)), Max(CornerYs(line)), page)
  }

  /** The text, plain mean confidence and ready box one EasyOCR line hands to the line parser. */
  function EasyInput(line: seq<OcrItem>, page: int): LineInput
    requires line != []
  {
    LineInput(Join(ItemTexts(line)), Sum(ItemConfs(line)) / |line| as real, Whole(LineBox(line, page)))
  }

  function EasyInputs(lines: seq<seq<OcrItem>>, page: int): (ins: seq<LineInput>)
    requires forall k | 0 <= k < |lines| :: lines[k] != []
  {
    if lines == [] then []
    else EasyInputs(lines[..|lines| - 1], page) + [EasyInput(lines[|lines| - 1], page)]
  }

  /** What `parse_easyocr_output` returns. */
  function EasyOcrTransactions(items: seq<OcrItem>, page: int): seq<Transaction> {
    var lines := YLines(SortBy(items, ReadingBefore));
    YLinesNonEmpty(SortBy(items, ReadingBefore));
    ParsedBy(EasyInputs(lines, page), LineParser(page))
  }

  method ParseEasyOcrOutput(items: seq<OcrItem>, page: int) returns (txs: seq<Transaction>)
    ensures txs == EasyOcrTransactions(items, page)
  {
    var sorted := SortBy(items, ReadingBefore);
    var lines := SplitLines(sorted);
    YLinesNonEmpty(sorted);
    txs := ParseEasyLines(lines, page);
  }

  /** The second loop: each line is parsed, and its transaction kept when there is one. */
  method ParseEasyLines(lines: seq<seq<OcrItem>>, page: int) returns (txs: seq<Transaction>)
    requires forall k | 0 <= k < |lines| :: lines[k] != []
    ensures txs == ParsedBy(EasyInputs(lines, page), LineParser(page))
  {
    txs := [];
    for k := 0 to |lines|
      invariant txs == ParsedBy(EasyInputs(lines[..k], page), LineParser(page))
    {
      PrefixSnoc(lines, k);
      txs := ParseEasyLine(txs, lines[..k], lines[k], page);
    }
    PrefixWhole(lines);
  }

  /** The body of the second loop for one line: its input is built, parsed and the result kept. */
  method ParseEasyLine(txs: seq<Transaction>, ghost done: seq<seq<OcrItem>>, line: seq<OcrItem>, page: int)
    returns (txs': seq<Transaction>)
    requires line != [] && forall k | 0 <= k < |done| :: done[k] != []
    requires txs == ParsedBy(EasyInputs(done, page), LineParser(page))
    ensures txs' == ParsedBy(EasyInputs(done + [line], page), LineParser(page))
  {
    assert (done + [line])[..|done|] == done;
    var input := EasyInput(line, page);
    txs' := ParseAndKeep(txs, EasyInputs(done, page), input, page);
  }

  /**
    EasyOCR reads the items top to bottom, then left to right, and loses
    none; items at the same corner keep their order in the result list.
  */
  lemma EasyReadingOrder(items: seq<OcrItem>)
    ensures SortedBy(SortBy(items, ReadingBefore), ReadingBefore)
    ensures multiset(SortBy(items, ReadingBefore)) == multiset(items)
    ensures forall it :: TiesWith(SortBy(items, ReadingBefore), it, ReadingBefore) == TiesWith(items, it, ReadingBefore)
    ensures Flatten(YLines(SortBy(items, ReadingBefore))) == SortBy(items, ReadingBefore)
  {
    ReadingOrderStrict();
    SortBySorted(items, ReadingBefore);
    forall it ensures TiesWith(SortBy(items, ReadingBefore), it, ReadingBefore) == TiesWith(items, it, ReadingBefore) {
      SortByStable(items, it, ReadingBefore);
    }
    YLinesFlatten(SortBy(items, ReadingBefore));
  }

  /** With item confidences between 0 and 1, a line's mean confidence is between 0 and 1. */
  lemma EasyConfidenceRange(line: seq<OcrItem>)
    requires line != []
    requires forall i | 0 <= i < |line| :: 0.0 <= line[i].conf <= 1.0
    ensures 0.0 <= Sum(ItemConfs(line)) / |line| as real <= 1.0
  {
    MeanBounds(ItemConfs(line), 0.0, 1.0);
  }

  /** The line's box is the smallest one holding corners 0 and 2 of every item. */
  lemma EasyBoxBounds(line: seq<OcrItem>, page: int)
    requires line != []
    ensures var b := LineBox(line, page);
      && b.page == page
      && (forall i | 0 <= i < |line| ::
            && b.x1 <= line[i].topLeft.x && b.x1 <= line[i].bottomRight.x
            && b.y1 <= line[i].topLeft.y && b.y1 <= line[i].bottomRight.y
            && line[i].topLeft.x <= b.x2 && line[i].bottomRight.x <= b.x2
            && line[i].topLeft.y <= b.y2 && line[i].bottomRight.y <= b.y2)
      && (exists i | 0 <= i < |line| :: b.x1 == line[i].topLeft.x || b.x1 == line[i].bottomRight.x)
      && (exists i | 0 <= i < |line| :: b.x2 == line[i].topLeft.x || b.x2 == line[i].bottomRight.x)
      && (exists i | 0 <= i < |line| :: b.y1 == line[i].topLeft.y || b.y1 == line[i].bottomRight.y)
      && (exists i | 0 <= i < |line| :: b.y2 == line[i].topLeft.y || b.y2 == line[i].bottomRight.y)
  {
    var xs := CornerXs(line);
    var ys := CornerYs(line);
    var b := LineBox(line, page);
    forall i | 0 <= i < |line|
      ensures b.x1 <= line[i].topLeft.x && b.x1 <= line[i].bottomRight.x
      ensures b.y1 <= line[i].topLeft.y && b.y1 <= line[i].bottomRight.y
      ensures line[i].topLeft.x <= b.x2 && line[i].bottomRight.x <= b.x2
      ensures line[i].topLeft.y <= b.y2 && line[i].bottomRight.y <= b.y2
    {
      CornersAt(line, i);
      assert xs[2 * i] == line[i].topLeft.x && xs[2 * i + 1] == line[i].bottomRight.x;
      assert ys[2 * i] == line[i].topLeft.y && ys[2 * i + 1] == line[i].bottomRight.y;
    }
    var m :| 0 <= m < |xs| && xs[m] == b.x1;
    var im := CornerOwner(line, m);
    var n :| 0 <= n < |xs| && xs[n] == b.x2;
    var iN := CornerOwner(line, n);
    var p :| 0 <= p < |ys| && ys[p] == b.y1;
    var ip := CornerOwner(line, p);
    var q :| 0 <= q < |ys| && ys[q] == b.y2;
    var iq := CornerOwner(line, q);
  }
}
