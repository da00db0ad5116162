/**
  The line "01/15/2024 GROCERY STORE 45.00 1,234.56" through
  `parse_line_with_columns`: the amount is the 45.00 left of the balance,
  not the last number on the line.
*/
module WorkedLine {
  import opened Wrappers
  import opened Text
  import opened Records
  import opened WordPatterns
  import opened ColumnAnchors
  import opened Decimals
  import opened ColumnParser

  /** The words of "01/15/2024 GROCERY STORE 45.00 1,234.56", left to right on one line. */
  const GroceryLine: seq<Word> := [
    Word("01/15/2024", 50.0, 110.0, 100.0, 110.0),
    Word("GROCERY", 130.0, 190.0, 100.0, 110.0),
    Word("STORE", 195.0, 240.0, 100.0, 110.0),
    Word("45.00", 280.0, 320.0, 100.0, 110.0),
    Word("1,234.56", 400.0, 440.0, 100.0, 110.0)]

  /** "45.00" is 45 and "1,234.56" is 1234.56; the other words hold no number. */
  lemma GroceryNumbers()
    ensures NumericValues(GroceryLine) == [NumVal(45.0, 300.0, "45.00"), NumVal(1234.56, 420.0, "1,234.56")]
  {
    var ws := GroceryLine;
    GroceryWordByWord();
    GroceryFirstFour();
    GroceryBalance();
    NumberAfter([ws[0], ws[1], ws[2]] + [ws[3]], ws[4], NumVal(1234.56, 420.0, "1,234.56"));
  }

  lemma GroceryFirstFour()
    ensures NumericValues([GroceryLine[0], GroceryLine[1], GroceryLine[2]] + [GroceryLine[3]]) == [NumVal(45.0, 300.0, "45.00")]
  {
    var ws := GroceryLine;
    GroceryPrefix();
    GroceryAmount();
    NumberAfter([ws[0], ws[1], ws[2]], ws[3], NumVal(45.0, 300.0, "45.00"));
  }

  lemma GroceryWordByWord()
    ensures GroceryLine == [GroceryLine[0], GroceryLine[1], GroceryLine[2]] + [GroceryLine[3]] + [GroceryLine[4]]
  {
  }

  lemma GroceryPrefix()
    ensures NumericValues([GroceryLine[0], GroceryLine[1], GroceryLine[2]]) == []
  {
    GroceryTextWords();
    ThreeWithoutNumbers(GroceryLine[0], GroceryLine[1], GroceryLine[2]);
  }

  /** Three words that hold no number give no numbers. */
  lemma ThreeWithoutNumbers(w0: Word, w1: Word, w2: Word)
    requires NumericValueOf(w0).None? && NumericValueOf(w1).None? && NumericValueOf(w2).None?
    ensures NumericValues([w0, w1, w2]) == []
  {
    NoNumberAfter([], w0);
    assert [] + [w0] == [w0];
    NoNumberAfter([w0], w1);
    assert [w0] + [w1] == [w0, w1];
    NoNumberAfter([w0, w1], w2);
    assert [w0, w1] + [w2] == [w0, w1, w2];
  }

  lemma GroceryTextWords()
    ensures NumericValueOf(GroceryLine[0]).None?
    ensures NumericValueOf(GroceryLine[1]).None? && NumericValueOf(GroceryLine[2]).None?
  {
    DateWordNoValue(GroceryLine[0]);
    LetterWordNoValue(GroceryLine[1]);
    LetterWordNoValue(GroceryLine[2]);
  }

  lemma GroceryAmount()
    ensures NumericValueOf(GroceryLine[3]) == Some(NumVal(45.0, 300.0, "45.00"))
  {
    AmountSpelling();
    DecimalWordValue(GroceryLine[3], "45", "00");
    FortyFive();
  }

  lemma AmountSpelling()
    ensures DecimalSpelling("45.00", "45", "00")
  {
    DigitRuns("45", "00");
    assert "45.00" == "45" + "." + "00";
    RemoveAbsent("45.00", ',');
    UnmarkedEnds("45.00");
  }

  lemma DigitRuns(ip: string, fp: string)
    requires (ip == "45" && fp == "00") || (ip == "1234" && fp == "56")
    ensures ip != [] && AllDigits(ip) && AllDigits(fp)
  {
  }

  /** Both number words start and end with a digit and carry no sign or currency mark. */
  lemma UnmarkedEnds(t: string)
    requires t == "45.00" || t == "1,234.56"
    ensures t != [] && IsDigit(t[0]) && IsDigit(t[|t| - 1])
    ensures '$' !in t && '(' !in t && '-' !in t
  {
  }

  lemma FortyFive()
    ensures UnsignedValue("45" + "." + "00") == 45.0
  {
    DecimalValue("45" + "." + "00", "45", "00");
    AmountDigits();
  }

  lemma AmountDigits()
    ensures DigitsValue("45") == 45 && DigitsValue("00") == 0
  {
    assert "45"[..1] == "4" && "00"[..1] == "0";
  }

  lemma GroceryBalance()
    ensures NumericValueOf(GroceryLine[4]) == Some(NumVal(1234.56, 420.0, "1,234.56"))
  {
    BalanceSpelling();
    DecimalWordValue(GroceryLine[4], "1234", "56");
    BalanceValue();
  }

  lemma BalanceSpelling()
    ensures DecimalSpelling("1,234.56", "1234", "56")
  {
    DigitRuns("1234", "56");
    BalanceCommas();
    UnmarkedEnds("1,234.56");
  }

  lemma BalanceCommas()
    ensures RemoveAll("1,234.56", ",") == "1234" + "." + "56"
  {
    assert "1,234.56" == "1" + [','] + "234.56";
    RemoveBetween("1", "234.56", ',');
  }

  lemma BalanceValue()
    ensures UnsignedValue("1234" + "." + "56") == 1234.56
  {
    DecimalValue("1234" + "." + "56", "1234", "56");
    BalanceDigits();
  }

  lemma BalanceDigits()
    ensures DigitsValue("1234") == 1234 && DigitsValue("56") == 56 && Pow10(|"56"|) == 100
  {
    assert "1234"[..3] == "123" && "123"[..2] == "12" && "12"[..1] == "1";
    assert "56"[..1] == "5";
  }

  /** The first word is the date. */
  lemma GroceryDate()
    ensures DateOf(GroceryLine) == Some("01/15/2024")
  {
    StripUnchanged("01/15/2024");
    assert NumericDateStart("01/15/2024");
  }

  /** No word holds an 'a', a 'u' or a 'w', so no skip pattern matches the line. */
  lemma GroceryNotSkipped()
    ensures !IsSkipLine(LineText(GroceryLine))
  {
    var parts := seq(|GroceryLine|, i requires 0 <= i < |GroceryLine| => GroceryLine[i].text);
    assert parts == ["01/15/2024", "GROCERY", "STORE", "45.00", "1,234.56"];
    JoinAvoids(parts, {'a', 'A', 'u', 'U', 'w', 'W'});
    NotSkipLine(LineText(GroceryLine));
  }

  /** Without a usable balance anchor the rightmost number is the balance. */
  lemma GroceryLineFallback(anchors: map<Column, Option<real>>, page: int)
    requires BalanceAnchor(anchors).None?
    ensures var r := ParseLine(GroceryLine, anchors, page);
      && r.Some?
      && r.value.date == Some("01/15/2024")
      && r.value.amount == 45.0 && r.value.txType == Credit
      && r.value.balance == Some(1234.56)
  {
    var a, b := NumVal(45.0, 300.0, "45.00"), NumVal(1234.56, 420.0, "1,234.56");
    TwoValuesFallback(a, b, anchors);
    GroceryParts();
    AssignedLine(GroceryLine, anchors, page, 45.0, 1234.56);
  }

  /** A balance anchor within reach of the right number only: the same assignment. */
  lemma GroceryLineAnchored(anchors: map<Column, Option<real>>, page: int)
    requires BalanceAnchor(anchors).Some? && 370.0 < BalanceAnchor(anchors).value < 470.0
    ensures var r := ParseLine(GroceryLine, anchors, page);
      && r.Some?
      && r.value.date == Some("01/15/2024")
      && r.value.amount == 45.0 && r.value.txType == Credit
      && r.value.balance == Some(1234.56)
  {
    var a, b := NumVal(45.0, 300.0, "45.00"), NumVal(1234.56, 420.0, "1,234.56");
    TwoValuesAnchored(a, b, anchors);
    GroceryParts();
    AssignedLine(GroceryLine, anchors, page, 45.0, 1234.56);
  }

  /**
    A balance anchor within reach of the left number instead: that number
    is taken as the balance and the other as the amount.
  */
  lemma GroceryLineAnchoredLeft(anchors: map<Column, Option<real>>, page: int)
    requires BalanceAnchor(anchors).Some? && 250.0 < BalanceAnchor(anchors).value < 350.0
    ensures var r := ParseLine(GroceryLine, anchors, page);
      && r.Some?
      && r.value.date == Some("01/15/2024")
      && r.value.amount == 1234.56 && r.value.txType == Credit
      && r.value.balance == Some(45.0)
  {
    var a, b := NumVal(45.0, 300.0, "45.00"), NumVal(1234.56, 420.0, "1,234.56");
    TwoValuesAnchoredLeft(a, b, anchors);
    GroceryParts();
    AssignedLine(GroceryLine, anchors, page, 1234.56, 45.0);
  }

  lemma GroceryParts()
    ensures GroceryLine != [] && !IsSkipLine(LineText(GroceryLine))
    ensures DateOf(GroceryLine) == Some("01/15/2024")
    ensures NumericValues(GroceryLine) == [NumVal(45.0, 300.0, "45.00"), NumVal(1234.56, 420.0, "1,234.56")]
  {
    GroceryNumbers();
    GroceryDate();
    GroceryNotSkipped();
  }

  /** A dated, unskipped line whose numbers are assigned an amount and a balance. */
  lemma AssignedLine(ws: seq<Word>, anchors: map<Column, Option<real>>, page: int, amount: real, balance: real)
    requires ws != [] && !IsSkipLine(LineText(ws)) && DateOf(ws).Some?
    requires AssignColumns(NumericValues(ws), anchors) == Assignment(Some(amount), Some(balance))
    ensures var r := ParseLine(ws, anchors, page);
      && r.Some? && r.value.date == DateOf(ws)
      && r.value.amount == Abs(amount) && r.value.txType == SignType(amount)
      && r.value.balance == Some(balance)
  {
  }
}
