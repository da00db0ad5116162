/**
  `detect_column_anchors`: the x-centres of the header keywords among the
  first 100 words of a page, keyed by column.
*/
module ColumnAnchors {
  import opened Wrappers
  import opened Text
  import opened Records

  /** Only this many leading words are inspected for header keywords. */
  const HeaderLimit: nat := 100

  function HeaderWords(words: seq<Word>): (h: seq<Word>)
    ensures |h| == if |words| > HeaderLimit then HeaderLimit else |words|
    ensures h == words[..|h|]
  {
    if |words| > HeaderLimit then words[..HeaderLimit] else words
  }

  /** Some keyword of `keys` occurs in `t`. */
  predicate AnyContains(t: string, keys: seq<string>) {
    if keys == [] then false else Contains(t, keys[0]) || AnyContains(t, keys[1..])
  }

  /** The test of the keyword branch for column `c`, on a lower-cased, stripped text. */
  predicate Names(c: Column, t: string) {
    match c
    case DateColumn => AnyContains(t, ["date"])
    case DescriptionColumn => AnyContains(t, ["description", "detail", "memo"])
    case DebitColumn => AnyContains(t, ["debit", "withdrawal"]) || t == "dr"
    case CreditColumn => AnyContains(t, ["credit", "deposit"]) || t == "cr"
    case AmountColumn => AnyContains(t, ["amount"]) && !AnyContains(t, ["balance"])
    case BalanceColumn => AnyContains(t, ["balance"])
  }

  /** The order of the `if`/`elif` chain. */
  const Priority: seq<Column> :=
    [DateColumn, DescriptionColumn, DebitColumn, CreditColumn, AmountColumn, BalanceColumn]

  /** The column of the first branch at position `k` or later whose test passes. */
  function FirstNamed(t: string, k: nat): Option<Column>
    decreases |Priority| - k
  {
    if k >= |Priority| then None
    else if Names(Priority[k], t) then Some(Priority[k])
    else FirstNamed(t, k + 1)
  }

  /** The column a header word's lower-cased, stripped text names, if any. */
  function ColumnOf(w: Word): Option<Column> {
    FirstNamed(Strip(LowerStr(w.text)), 0)
  }

  /** A word sets the column of the first passing branch of the chain, and no other. */
  lemma {:induction false} FirstNamedIsFirstMatch(t: string, k: nat)
    requires k <= |Priority|
    ensures FirstNamed(t, k).None? <==> forall j | k <= j < |Priority| :: !Names(Priority[j], t)
    ensures FirstNamed(t, k).Some? ==>
      exists j | k <= j < |Priority| ::
        && Names(Priority[j], t)
        && FirstNamed(t, k).value == Priority[j]
        && forall i | k <= i < j :: !Names(Priority[i], t)
    decreases |Priority| - k
  {
    if k < |Priority| && !Names(Priority[k], t) {
      FirstNamedIsFirstMatch(t, k + 1);
    }
  }

  /**
    A header text mentioning "balance" always anchors some column, and never
    the amount column: the amount branch excludes it, and the balance branch
    catches it unless an earlier branch already did.
  */
  lemma BalanceNeverAmount(t: string)
    requires Contains(t, "balance")
    ensures FirstNamed(t, 0).Some?
    ensures FirstNamed(t, 0) != Some(AmountColumn)
  {
    FirstNamedIsFirstMatch(t, 0);
    assert Names(Priority[5], t);
    assert !Names(AmountColumn, t);
  }

  /** The x-centre of the last word in `ws` that `classify` assigns to column `c`. */
  function LastAnchorBy(ws: seq<Word>, classify: Word -> Option<Column>, c: Column): Option<real> {
    if ws == [] then None
    else if classify(ws[|ws| - 1]) == Some(c) then Some(Center(ws[|ws| - 1]))
    else LastAnchorBy(ws[..|ws| - 1], classify, c)
  }

  /** The x-centre of the last word in `ws` that names column `c`. */
  function LastAnchor(ws: seq<Word>, c: Column): Option<real> {
    LastAnchorBy(ws, ColumnOf, c)
  }

  /** The anchor dictionary of a page: all six keys, each `None` unless some header word set it. */
  function AnchorsOf(words: seq<Word>): map<Column, Option<real>> {
    map c | c in AllColumns :: LastAnchor(HeaderWords(words), c)
  }

  method DetectColumnAnchors(words: seq<Word>) returns (anchors: map<Column, Option<real>>)
    ensures anchors.Keys == AllColumns
    ensures anchors == AnchorsOf(words)
  {
    var header := if |words| > HeaderLimit then words[..HeaderLimit] else words;
    anchors := ScanHeader(header, ColumnOf);
  }

  /**
    The loop of `detect_column_anchors` over the inspected words, for any
    classification of words into columns: each classified word overwrites
    its column's anchor with its x-centre.
  */
  method ScanHeader(header: seq<Word>, classify: Word -> Option<Column>)
    returns (anchors: map<Column, Option<real>>)
    ensures anchors.Keys == AllColumns
    ensures forall c | c in AllColumns :: anchors[c] == LastAnchorBy(header, classify, c)
  {
    anchors := map c | c in AllColumns :: None;
    EveryColumnListed();
    for i := 0 to |header|
      invariant anchors.Keys == AllColumns
      invariant forall c: Column :: c in anchors && anchors[c] == LastAnchorBy(header[..i], classify, c)
    {
      var word := header[i];
      var xCenter := (word.x0 + word.x1) / 2.0;
      var column := classify(word);
      forall c: Column
        ensures LastAnchorBy(header[..i + 1], classify, c) ==
          if column == Some(c) then Some(xCenter) else LastAnchorBy(header[..i], classify, c)
      {
        LastAnchorByPrefix(header, i, classify, c);
      }
      if column.Some? {
        anchors := anchors[column.value := Some(xCenter)];
      }
    }
    assert header[..|header|] == header;
  }

  lemma EveryColumnListed()
    ensures forall c: Column :: c in AllColumns
  {
    forall c: Column ensures c in AllColumns {
      match c
      case DateColumn =>
      case DescriptionColumn =>
      case DebitColumn =>
      case CreditColumn =>
      case AmountColumn =>
      case BalanceColumn =>
    }
  }

  lemma LastAnchorByPrefix(ws: seq<Word>, i: nat, classify: Word -> Option<Column>, c: Column)
    requires i < |ws|
    ensures LastAnchorBy(ws[..i + 1], classify, c) ==
      if classify(ws[i]) == Some(c) then Some(Center(ws[i])) else LastAnchorBy(ws[..i], classify, c)
  {
    assert ws[..i + 1][..i] == ws[..i];
  }

  lemma {:induction false} LastAnchorByNone(ws: seq<Word>, classify: Word -> Option<Column>, c: Column)
    ensures LastAnchorBy(ws, classify, c).None? <==> forall i | 0 <= i < |ws| :: classify(ws[i]) != Some(c)
  {
    if ws != [] {
      var n := |ws| - 1;
      LastAnchorByNone(ws[..n], classify, c);
      assert forall i | 0 <= i < n :: ws[..n][i] == ws[i];
    }
  }

  lemma {:induction false} LastAnchorByLast(ws: seq<Word>, classify: Word -> Option<Column>, c: Column)
    requires LastAnchorBy(ws, classify, c).Some?
    ensures exists i | 0 <= i < |ws| ::
      && classify(ws[i]) == Some(c)
      && LastAnchorBy(ws, classify, c).value == Center(ws[i])
      && forall j | i < j < |ws| :: classify(ws[j]) != Some(c)
  {
    var n := |ws| - 1;
    if classify(ws[n]) == Some(c) {
      assert LastAnchorBy(ws, classify, c).value == Center(ws[n]);
    } else {
      var p := ws[..n];
      assert LastAnchorBy(ws, classify, c) == LastAnchorBy(p, classify, c);
      LastAnchorByLast(p, classify, c);
      var i :| 0 <= i < n && classify(p[i]) == Some(c) && LastAnchorBy(p, classify, c).value == Center(p[i])
        && forall j | i < j < n :: classify(p[j]) != Some(c);
      assert p[i] == ws[i];
      assert forall j | i < j < n :: p[j] == ws[j];
    }
  }

  /**
    An anchor is set exactly when some inspected word names its column, and
    then it is the centre of the last such word: later words overwrite earlier ones.
  */
  lemma LastAnchorIsLastMatch(ws: seq<Word>, c: Column)
    ensures LastAnchor(ws, c).None? <==> forall i | 0 <= i < |ws| :: ColumnOf(ws[i]) != Some(c)
    ensures LastAnchor(ws, c).Some? ==>
      exists i | 0 <= i < |ws| ::
        && ColumnOf(ws[i]) == Some(c)
        && LastAnchor(ws, c).value == Center(ws[i])
        && forall j | i < j < |ws| :: ColumnOf(ws[j]) != Some(c)
  {
    LastAnchorByNone(ws, ColumnOf, c);
    if LastAnchor(ws, c).Some? {
      LastAnchorByLast(ws, ColumnOf, c);
    }
  }

  /** Words after the first 100 never influence the anchors. */
  lemma OnlyHeaderInspected(words: seq<Word>, more: seq<Word>)
    requires |words| >= HeaderLimit
    ensures AnchorsOf(words + more) == AnchorsOf(words)
  {
    assert (words + more)[..HeaderLimit] == words[..HeaderLimit];
  }

  /**
    One more inspected word sets at most one anchor, the one its first
    matching keyword branch names, and overwrites any earlier value there.
  */
  lemma OneWordSetsAtMostOneAnchor(ws: seq<Word>, w: Word)
    requires |ws| < HeaderLimit
    ensures forall c | c in AllColumns && ColumnOf(w) != Some(c) ::
      AnchorsOf(ws + [w])[c] == AnchorsOf(ws)[c]
    ensures ColumnOf(w).Some? ==> AnchorsOf(ws + [w])[ColumnOf(w).value] == Some(Center(w))
  {
    assert (ws + [w])[..|ws|] == ws;
  }
}
