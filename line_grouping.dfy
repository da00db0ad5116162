/**
  `group_words_by_line`: words are bucketed by their `top` rounded to a
  multiple of the tolerance, and each bucket is then sorted by `x0`.
*/
module LineGrouping {
  import opened Records
  import opened Sorting

  /**
    Python's `round(r)` for a single argument: the nearest integer, ties to
    the even neighbour.
  */
  function RoundHalfEven(r: real): (n: int)
    ensures -0.5 <= r - n as real <= 0.5
    ensures (r - n as real == 0.5 || r - n as real == -0.5) ==> n % 2 == 0
  {
    var f := r.Floor;
    var frac := r - f as real;
    if frac < 0.5 then f
    else if frac > 0.5 then f + 1
    else if f % 2 == 0 then f
    else f + 1
  }

  /** `round(word['top'] / tolerance) * tolerance`: the key of the line a word joins. */
  function LineKey(w: Word, tolerance: int): int
    requires tolerance != 0
  {
    RoundHalfEven(w.top / tolerance as real) * tolerance
  }

  /** The keys of all lines: one per distinct rounded `top`. */
  function KeysOf(ws: seq<Word>, tolerance: int): set<int>
    requires tolerance != 0
  {
    set w | w in ws :: LineKey(w, tolerance)
  }

  /** The words of `ws` whose key is `y`, in input order: the list `lines[y]` before sorting. */
  function LineOf(ws: seq<Word>, y: int, tolerance: int): seq<Word>
    requires tolerance != 0
  {
    if ws == [] then []
    else
      var last := ws[|ws| - 1];
      LineOf(ws[..|ws| - 1], y, tolerance) + (if LineKey(last, tolerance) == y then [last] else [])
  }

  /** The sort key `lambda w: w['x0']`, as a strict order. */
  predicate ByX0(a: Word, b: Word) {
    a.x0 < b.x0
  }

  method GroupWordsByLine(words: seq<Word>, tolerance: int) returns (lines: map<int, seq<Word>>)
    requires tolerance != 0
    ensures lines.Keys == KeysOf(words, tolerance)
    ensures forall y | y in lines :: lines[y] == SortBy(LineOf(words, y, tolerance), ByX0)
  {
    var buckets, order := BucketWords(words, tolerance);
    lines := SortLines(buckets, order);
    KeysHaveWords(words, tolerance);
    assert forall y :: y in lines.Keys <==> y in KeysOf(words, tolerance);
  }

  /**
    The first loop: each word is appended to the list of its key, a new key
    opening a new list; `order` lists the keys in the order the dictionary
    received them, which is the order the second loop visits them in.
  */
  method BucketWords(words: seq<Word>, tolerance: int) returns (lines: map<int, seq<Word>>, order: seq<int>)
    requires tolerance != 0
    ensures forall y :: y in lines <==> LineOf(words, y, tolerance) != []
    ensures forall y | y in lines :: lines[y] == LineOf(words, y, tolerance)
    ensures forall y :: y in lines <==> y in order
    ensures Distinct(order)
  {
    lines := map[];
    order := [];
    for i := 0 to |words|
      invariant forall y :: y in lines <==> LineOf(words[..i], y, tolerance) != []
      invariant forall y | y in lines :: lines[y] == LineOf(words[..i], y, tolerance)
      invariant forall y :: y in lines <==> y in order
      invariant Distinct(order)
    {
      var word := words[i];
      var y := LineKey(word, tolerance);
      if y !in lines {
        DistinctSnoc(order, y);
        lines := lines[y := []];
        order := order + [y];
      }
      lines := lines[y := lines[y] + [word]];
      forall z
        ensures z in lines <==> LineOf(words[..i + 1], z, tolerance) != []
        ensures z in lines ==> lines[z] == LineOf(words[..i + 1], z, tolerance)
      {
        LineOfStep(words, i, z, tolerance);
      }
    }
    assert words[..|words|] == words;
  }

  /** The line of `y` after one word more. */
  lemma LineOfStep(ws: seq<Word>, i: nat, y: int, tolerance: int)
    requires tolerance != 0 && i < |ws|
    ensures LineOf(ws[..i + 1], y, tolerance) ==
            LineOf(ws[..i], y, tolerance) + if LineKey(ws[i], tolerance) == y then [ws[i]] else []
  {
    assert ws[..i + 1][..i] == ws[..i];
  }

  lemma DistinctSnoc(order: seq<int>, y: int)
    requires Distinct(order) && y !in order
    ensures Distinct(order + [y])
  {
    var o := order + [y];
    forall i, j | 0 <= i < j < |o| ensures o[i] != o[j] {
      if j == |order| {
        assert o[i] == order[i];
      } else {
        assert o[i] == order[i] && o[j] == order[j];
      }
    }
  }

  /** The keys are exactly the values of `y` with a non-empty line. */
  lemma KeysHaveWords(ws: seq<Word>, tolerance: int)
    requires tolerance != 0
    ensures forall y :: y in KeysOf(ws, tolerance) <==> LineOf(ws, y, tolerance) != []
  {
    forall y ensures y in KeysOf(ws, tolerance) <==> LineOf(ws, y, tolerance) != [] {
      LineOfOutsideKeys(ws, y, tolerance);
      if y in KeysOf(ws, tolerance) {
        LineOfNonEmpty(ws, y, tolerance);
      }
    }
  }

  /** No key is listed twice. */
  ghost predicate Distinct(order: seq<int>) {
    forall i, j | 0 <= i < j < |order| :: order[i] != order[j]
  }

  /** The second loop: every list, visited in key order, is replaced by its stable sort on `x0`. */
  method SortLines(unsorted: map<int, seq<Word>>, order: seq<int>) returns (lines: map<int, seq<Word>>)
    requires forall y :: y in unsorted <==> y in order
    requires Distinct(order)
    ensures lines.Keys == unsorted.Keys
    ensures forall y | y in lines :: lines[y] == SortBy(unsorted[y], ByX0)
  {
    lines := unsorted;
    for i := 0 to |order|
      invariant lines.Keys == unsorted.Keys
      invariant forall y | y in lines ::
        lines[y] == if y in order[..i] then SortBy(unsorted[y], ByX0) else unsorted[y]
    {
      var y := order[i];
      assert y !in order[..i];
      assert order[..i + 1] == order[..i] + [y];
      lines := lines[y := SortBy(lines[y], ByX0)];
    }
    assert order[..|order|] == order;
  }

  lemma {:induction false} LineOfOutsideKeys(ws: seq<Word>, y: int, tolerance: int)
    requires tolerance != 0
    ensures y !in KeysOf(ws, tolerance) ==> LineOf(ws, y, tolerance) == []
  {
    if ws != [] {
      var p := ws[..|ws| - 1];
      assert KeysOf(p, tolerance) <= KeysOf(ws, tolerance) by {
        forall w | w in p ensures w in ws { }
      }
      assert LineKey(ws[|ws| - 1], tolerance) in KeysOf(ws, tolerance);
      LineOfOutsideKeys(p, y, tolerance);
    }
  }

  /**
    Each line holds exactly the words whose key is its own, each as many
    times as it occurs in the input: the lines partition the words.
  */
  lemma {:induction false} LineOfCounts(ws: seq<Word>, y: int, tolerance: int)
    requires tolerance != 0
    ensures forall w ::
              multiset(LineOf(ws, y, tolerance))[w] == if LineKey(w, tolerance) == y then multiset(ws)[w] else 0
  {
    if ws != [] {
      var p := ws[..|ws| - 1];
      LineOfCounts(p, y, tolerance);
      assert ws == p + [ws[|ws| - 1]];
    }
  }

  /** A line is never empty: each key comes from a word. */
  lemma {:induction false} LineOfNonEmpty(ws: seq<Word>, y: int, tolerance: int)
    requires tolerance != 0 && y in KeysOf(ws, tolerance)
    ensures |LineOf(ws, y, tolerance)| > 0
  {
    var w :| w in ws && LineKey(w, tolerance) == y;
    LineOfCounts(ws, y, tolerance);
    assert multiset(LineOf(ws, y, tolerance))[w] > 0;
  }

  /** A key is a multiple of the tolerance within half a tolerance of the word's `top`. */
  lemma LineKeyNear(w: Word, tolerance: int)
    requires tolerance != 0
    ensures LineKey(w, tolerance) % tolerance == 0
    ensures -(Abs(tolerance as real) / 2.0) <= w.top - LineKey(w, tolerance) as real <= Abs(tolerance as real) / 2.0
  {
    var t := tolerance as real;
    var q := w.top / t;
    var n := RoundHalfEven(q);
    MultipleMod(n, tolerance);
    assert w.top - LineKey(w, tolerance) as real == (q - n as real) * t by {
      DivMul(w.top, t);
    }
    ScaledHalf(q - n as real, t);
  }

  lemma MultipleMod(n: int, t: int)
    requires t != 0
    ensures (n * t) % t == 0
  {
    var m := n * t;
    var k, r := m / t, m % t;
    RemainderBounds(m, t);
    var j := n - k;
    RemainderIsMultiple(m, n, k, t);
    if j > 0 {
      AtLeastOnce(j, t);
    } else if j < 0 {
      AtLeastOnce(-j, -t);
    }
  }

  lemma RemainderBounds(m: int, t: int)
    requires t != 0
    ensures m == (m / t) * t + m % t
    ensures 0 <= m % t && (t > 0 ==> m % t < t) && (t < 0 ==> m % t < -t)
  {
  }

  lemma RemainderIsMultiple(m: int, n: int, k: int, t: int)
    requires t != 0 && m == n * t && m == k * t + m % t
    ensures m % t == (n - k) * t
  {
    assert (n - k) * t == n * t - k * t;
  }

  /** A positive multiple of `t` is at least `|t|` away from zero. */
  lemma AtLeastOnce(j: int, t: int)
    requires j > 0
    ensures t > 0 ==> j * t >= t
    ensures t < 0 ==> j * t <= t
  {
    assert j * t == (j - 1) * t + t;
    if t > 0 {
      assert (j - 1) * t >= 0;
    } else if t < 0 {
      assert (j - 1) * t <= 0;
    }
  }

  lemma DivMul(a: real, t: real)
    requires t != 0.0
    ensures (a / t) * t == a
  {
  }

  lemma ScaledHalf(d: real, t: real)
    requires -0.5 <= d <= 0.5
    ensures -(Abs(t) / 2.0) <= d * t <= Abs(t) / 2.0
  {
    if t >= 0.0 {
      NonNegProduct(0.5 - d, t);
      NonNegProduct(d + 0.5, t);
    } else {
      NonNegProduct(0.5 - d, -t);
      NonNegProduct(d + 0.5, -t);
    }
  }

  lemma NonNegProduct(a: real, b: real)
    requires a >= 0.0 && b >= 0.0
    ensures a * b >= 0.0
  {
  }

  /** Comparing by `x0` is a strict order whose ties are the words with equal `x0`. */
  lemma ByX0StrictOrder()
    ensures StrictWeakOrder(ByX0)
  {
  }

  /**
    What `group_words_by_line` returns: one line per key, every word in the
    line of its own key with its multiplicity, each line non-empty and
    ordered by `x0`, and each key the rounded `top` of its words.
  */
  lemma GroupedLines(words: seq<Word>, tolerance: int, lines: map<int, seq<Word>>)
    requires tolerance != 0
    requires lines.Keys == KeysOf(words, tolerance)
    requires forall y | y in lines :: lines[y] == SortBy(LineOf(words, y, tolerance), ByX0)
    ensures forall w | w in words :: LineKey(w, tolerance) in lines
    ensures forall y, w | y in lines ::
              multiset(lines[y])[w] == if LineKey(w, tolerance) == y then multiset(words)[w] else 0
    ensures forall y | y in lines :: |lines[y]| > 0 && SortedBy(lines[y], ByX0)
    ensures forall y | y in lines :: y % tolerance == 0
  {
    ByX0StrictOrder();
    forall y | y in lines
      ensures forall w :: multiset(lines[y])[w] == if LineKey(w, tolerance) == y then multiset(words)[w] else 0
      ensures |lines[y]| > 0 && SortedBy(lines[y], ByX0)
      ensures y % tolerance == 0
    {
      SortBySorted(LineOf(words, y, tolerance), ByX0);
      LineOfCounts(words, y, tolerance);
      LineOfNonEmpty(words, y, tolerance);
      var w :| w in words && LineKey(w, tolerance) == y;
      LineKeyNear(w, tolerance);
    }
  }

  /** The sort of each line is stable: words of a line with equal `x0` keep their input order. */
  lemma GroupedLinesStable(words: seq<Word>, tolerance: int, lines: map<int, seq<Word>>)
    requires tolerance != 0
    requires forall y | y in lines :: lines[y] == SortBy(LineOf(words, y, tolerance), ByX0)
    ensures forall y, w | y in lines :: TiesWith(lines[y], w, ByX0) == TiesWith(LineOf(words, y, tolerance), w, ByX0)
  {
    ByX0StrictOrder();
    forall y, w | y in lines
      ensures TiesWith(lines[y], w, ByX0) == TiesWith(LineOf(words, y, tolerance), w, ByX0)
    {
      SortByStable(LineOf(words, y, tolerance), w, ByX0);
    }
  }
}
