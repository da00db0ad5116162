/**
  What the extraction endpoints compute from the transactions they
  collected: the reported confidence, and for GMFT the opening and closing
  balances read off the table rows.
*/
module Aggregation {
  import opened Wrappers
  import opened Records
  import TableRows

  /** The native extractor's confidence: `0.85 if transactions else 0.0`. */
  function NativeConfidence(txs: seq<Transaction>): (c: real)
    ensures c == 0.0 || c == 0.85
    ensures c > 0.0 <==> txs != []
  {
    if txs != [] then 0.85 else 0.0
  }

  function Confidences(txs: seq<Transaction>): (cs: seq<real>)
    ensures |cs| == |txs|
    ensures forall k | 0 <= k < |txs| :: cs[k] == txs[k].confidence
  {
    seq(|txs|, k requires 0 <= k < |txs| => txs[k].confidence)
  }

  /**
    `sum(t.confidence for t in transactions) / len(transactions) if
    transactions else default`: 0.5 after Tesseract or EasyOCR, 0.7 after GMFT.
  */
  function MeanConfidenceOr(txs: seq<Transaction>, default: real): real {
    if txs != [] then Sum(Confidences(txs)) / |txs| as real else default
  }

  const OcrDefaultConfidence: real := 0.5
  const GmftDefaultConfidence: real := 0.7

  /** The mean lies within any bounds the confidences lie within; without transactions it is the default. */
  lemma MeanConfidenceBounds(txs: seq<Transaction>, default: real, lo: real, hi: real)
    requires forall k | 0 <= k < |txs| :: lo <= txs[k].confidence <= hi
    ensures txs == [] ==> MeanConfidenceOr(txs, default) == default
    ensures txs != [] ==> lo <= MeanConfidenceOr(txs, default) <= hi
  {
    if txs != [] {
      MeanBounds(Confidences(txs), lo, hi);
    }
  }

  /** When every transaction carries the same confidence, that is the mean: GMFT reports 0.85 whenever it found a row. */
  lemma UniformConfidence(txs: seq<Transaction>, default: real, c: real)
    requires txs != []
    requires forall k | 0 <= k < |txs| :: txs[k].confidence == c
    ensures MeanConfidenceOr(txs, default) == c
  {
    MeanConfidenceBounds(txs, default, c, c);
  }

  /** The balance of the first transaction that has one. */
  function FirstBalance(txs: seq<Transaction>): Option<real> {
    if txs == [] then None
    else if txs[0].balance.Some? then txs[0].balance
    else FirstBalance(txs[1..])
  }

  /** The balance of the last transaction that has one. */
  function LastBalance(txs: seq<Transaction>): Option<real> {
    if txs == [] then None
    else if txs[|txs| - 1].balance.Some? then txs[|txs| - 1].balance
    else LastBalance(txs[..|txs| - 1])
  }

  /** The GMFT endpoint's loop: the first balance seen opens, every later one overwrites the closing balance. */
  method GmftBalances(txs: seq<Transaction>) returns (opening: Option<real>, closing: Option<real>)
    ensures opening == FirstBalance(txs)
    ensures closing == LastBalance(txs)
  {
    opening := None;
    closing := None;
    if txs != [] {
      for i := 0 to |txs|
        invariant opening == FirstBalance(txs[..i])
        invariant closing == LastBalance(txs[..i])
      {
        assert txs[..i + 1][..i] == txs[..i];
        FirstBalanceSnoc(txs[..i], txs[i]);
        assert txs[..i] + [txs[i]] == txs[..i + 1];
        if txs[i].balance.Some? {
          if opening.None? {
            opening := txs[i].balance;
          }
          closing := txs[i].balance;
        }
      }
      assert txs[..|txs|] == txs;
    }
  }

  lemma {:induction false} FirstBalanceSnoc(txs: seq<Transaction>, t: Transaction)
    ensures FirstBalance(txs + [t]) == if FirstBalance(txs).Some? then FirstBalance(txs) else t.balance
  {
    if txs != [] {
      assert (txs + [t])[1..] == txs[1..] + [t];
      FirstBalanceSnoc(txs[1..], t);
    } else {
      assert txs + [t] == [t];
    }
  }

  /** Which transaction the first and the last non-null balance come from. */
  lemma {:induction false} FirstBalanceIsFirst(txs: seq<Transaction>)
    ensures FirstBalance(txs).None? <==> forall k | 0 <= k < |txs| :: txs[k].balance.None?
    ensures FirstBalance(txs).Some? ==>
              exists k | 0 <= k < |txs| :: FirstBalance(txs) == txs[k].balance
                && forall j | 0 <= j < k :: txs[j].balance.None?
  {
    if txs != [] {
      FirstBalanceIsFirst(txs[1..]);
      if txs[0].balance.None? && FirstBalance(txs[1..]).Some? {
        var k :| 0 <= k < |txs[1..]| && FirstBalance(txs[1..]) == txs[1..][k].balance
          && forall j | 0 <= j < k :: txs[1..][j].balance.None?;
        assert FirstBalance(txs) == txs[k + 1].balance;
      }
    }
  }

  lemma {:induction false} LastBalanceIsLast(txs: seq<Transaction>)
    ensures LastBalance(txs).None? <==> forall k | 0 <= k < |txs| :: txs[k].balance.None?
    ensures LastBalance(txs).Some? ==>
              exists k | 0 <= k < |txs| :: LastBalance(txs) == txs[k].balance
                && forall j | k < j < |txs| :: txs[j].balance.None?
  {
    if txs != [] {
      var p := txs[..|txs| - 1];
      LastBalanceIsLast(p);
      assert forall k | 0 <= k < |p| :: p[k] == txs[k];
      if txs[|txs| - 1].balance.None? && LastBalance(p).Some? {
        var k :| 0 <= k < |p| && LastBalance(p) == p[k].balance && forall j | k < j < |p| :: p[j].balance.None?;
        assert LastBalance(txs) == txs[k].balance;
      }
    }
  }

  /**
    GMFT's balances: both present or both absent, present exactly when some
    row carried a balance, the opening one from the earliest such row and the
    closing one from the latest.
  */
  lemma GmftBalancesFound(txs: seq<Transaction>)
    ensures FirstBalance(txs).Some? <==> LastBalance(txs).Some?
    ensures FirstBalance(txs).Some? <==> exists k | 0 <= k < |txs| :: txs[k].balance.Some?
    ensures |txs| == 1 ==> FirstBalance(txs) == LastBalance(txs)
  {
    FirstBalanceIsFirst(txs);
    LastBalanceIsLast(txs);
  }

  /**
    GMFT's reported confidence: 0.85 as soon as one row became a
    transaction, 0.7 when none did.
  */
  lemma GmftConfidence(rows: seq<seq<TableRows.Cell>>, rawTexts: seq<string>)
    requires |rawTexts| == |rows|
    ensures var txs := Found(seq(|rows|, k requires 0 <= k < |rows| => TableRows.RowTransaction(rows[k], rawTexts[k])));
      MeanConfidenceOr(txs, GmftDefaultConfidence) == if txs == [] then GmftDefaultConfidence else TableRows.GmftConfidence
  {
    var results := seq(|rows|, k requires 0 <= k < |rows| => TableRows.RowTransaction(rows[k], rawTexts[k]));
    var txs := Found(results);
    FoundFromResults(results);
    if txs != [] {
      forall k | 0 <= k < |txs| ensures txs[k].confidence == TableRows.GmftConfidence {
        assert Some(txs[k]) in results;
      }
      UniformConfidence(txs, GmftDefaultConfidence, TableRows.GmftConfidence);
    }
  }
}
