/** The records the worker's parsing helpers read and produce. */
module Records {
  import opened Wrappers

  /** A word from pdfplumber's `extract_words`: its text and its box on the page. */
  datatype Word = Word(text: string, x0: real, x1: real, top: real, bottom: real)

  /** `(word['x0'] + word['x1']) / 2`, the horizontal centre of a word. */
  function Center(w: Word): real {
    (w.x0 + w.x1) / 2.0
  }

  /** The keys of the column-anchor dictionary. */
  datatype Column =
    | DateColumn
    | DescriptionColumn
    | DebitColumn
    | CreditColumn
    | AmountColumn
    | BalanceColumn

  const AllColumns: set<Column> :=
    {DateColumn, DescriptionColumn, DebitColumn, CreditColumn, AmountColumn, BalanceColumn}

  /** The transaction's `type` field: 'debit', 'credit' or 'unknown'. */
  datatype TxType = Debit | Credit | Unknown

  /** A line's bounding box on a page: `{x1, y1, x2, y2, page}`. */
  datatype BBox = BBox(x1: real, y1: real, x2: real, y2: real, page: int)

  /**
    The worker's `Transaction` model.  Every helper that builds one stores a
    number in `amount`, so the model's `amount` is not optional.
  */
  datatype Transaction = Transaction(
    date: Option<string>,
    description: string,
    amount: real,
    txType: TxType,
    balance: Option<real>,
    confidence: real,
    bbox: Option<BBox>,
    rawText: string)

  function Abs(r: real): (a: real)
    ensures a >= 0.0 && (a == r || a == -r)
  {
    if r < 0.0 then -r else r
  }

  /** Length cap applied to every description: `[:200]`. */
  const DescriptionLimit: nat := 200

  /** Python's `min` over a non-empty list. */
  function Min(xs: seq<real>): (m: real)
    requires xs != []
    ensures m in xs && forall k | 0 <= k < |xs| :: m <= xs[k]
  {
    if |xs| == 1 then xs[0]
    else
      var m := Min(xs[..|xs| - 1]);
      assert forall k | 0 <= k < |xs| - 1 :: xs[..|xs| - 1][k] == xs[k];
      if xs[|xs| - 1] < m then xs[|xs| - 1] else m
  }

  /** Python's `max` over a non-empty list. */
  function Max(xs: seq<real>): (m: real)
    requires xs != []
    ensures m in xs && forall k | 0 <= k < |xs| :: xs[k] <= m
  {
    if |xs| == 1 then xs[0]
    else
      var m := Max(xs[..|xs| - 1]);
      assert forall k | 0 <= k < |xs| - 1 :: xs[..|xs| - 1][k] == xs[k];
      if xs[|xs| - 1] > m then xs[|xs| - 1] else m
  }

  /** Python's `sum` over a list of numbers. */
  function Sum(xs: seq<real>): real {
    if xs == [] then 0.0 else Sum(xs[..|xs| - 1]) + xs[|xs| - 1]
  }

  /** A sum of numbers lying between `lo` and `hi` lies between `|xs| * lo` and `|xs| * hi`. */
  lemma {:induction false} SumBounds(xs: seq<real>, lo: real, hi: real)
    requires forall k | 0 <= k < |xs| :: lo <= xs[k] <= hi
    ensures |xs| as real * lo <= Sum(xs) <= |xs| as real * hi
  {
    if xs != [] {
      SumBounds(xs[..|xs| - 1], lo, hi);
      assert |xs| as real * lo == (|xs| - 1) as real * lo + lo;
      assert |xs| as real * hi == (|xs| - 1) as real * hi + hi;
    }
  }

  /** A sum of positive numbers, at least one of them, is positive. */
  lemma {:induction false} SumPositive(xs: seq<real>)
    requires xs != [] && forall k | 0 <= k < |xs| :: xs[k] > 0.0
    ensures Sum(xs) > 0.0
  {
    if |xs| > 1 {
      SumPositive(xs[..|xs| - 1]);
    }
  }

  /** A mean of numbers lying between `lo` and `hi` lies between them. */
  lemma MeanBounds(xs: seq<real>, lo: real, hi: real)
    requires xs != []
    requires forall k | 0 <= k < |xs| :: lo <= xs[k] <= hi
    ensures lo <= Sum(xs) / |xs| as real <= hi
  {
    SumBounds(xs, lo, hi);
    QuotientAtLeast(Sum(xs), |xs| as real, lo);
    QuotientAtMost(Sum(xs), |xs| as real, hi);
  }

  lemma QuotientAtLeast(s: real, n: real, lo: real)
    requires n > 0.0 && n * lo <= s
    ensures lo <= s / n
  {
    assert s / n * n == s;
  }

  lemma QuotientAtMost(s: real, n: real, hi: real)
    requires n > 0.0 && s <= n * hi
    ensures s / n <= hi
  {
    assert s / n * n == s;
  }

  /** The transactions of a sequence of parse results, in order: `if transaction: transactions.append(transaction)`. */
  function Found(results: seq<Option<Transaction>>): (txs: seq<Transaction>)
    ensures |txs| <= |results|
  {
    if results == [] then []
    else
      var last := results[|results| - 1];
      Found(results[..|results| - 1]) + (if last.Some? then [last.value] else [])
  }

  /**
    `Found` keeps exactly the present results: each kept transaction was
    some result, each present result is kept, and the list is empty exactly
    when every result is `None`.
  */
  lemma {:induction false} FoundFromResults(results: seq<Option<Transaction>>)
    ensures forall t | t in Found(results) :: Some(t) in results
    ensures forall k | 0 <= k < |results| && results[k].Some? :: results[k].value in Found(results)
    ensures (forall k | 0 <= k < |results| :: results[k].None?) <==> Found(results) == []
  {
    if results != [] {
      var p := results[..|results| - 1];
      FoundFromResults(p);
      assert forall r | r in p :: r in results;
      assert results[|results| - 1] in results;
      assert forall k | 0 <= k < |p| :: p[k] == results[k];
      var last := results[|results| - 1];
      assert Found(results) == Found(p) + (if last.Some? then [last.value] else []);
      assert forall t | t in Found(p) :: t in Found(results);
    }
  }

  /**
    `Found` keeps the order of the results: the transactions of a
    concatenation are those of the first part followed by those of the second.
  */
  lemma {:induction false} FoundConcat(a: seq<Option<Transaction>>, b: seq<Option<Transaction>>)
    ensures Found(a + b) == Found(a) + Found(b)
    decreases |b|
  {
    if b != [] {
      var b' := b[..|b| - 1];
      assert (a + b)[..|a + b| - 1] == a + b';
      FoundConcat(a, b');
    } else {
      assert a + b == a;
    }
  }
}
