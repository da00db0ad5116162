/**
  Python's `sorted(xs, key=k)`, which is stable: the model inserts the
  elements in input order, each before the first already-placed element it
  strictly precedes, so elements with equal keys keep their input order.
*/
module Sorting {

  /** Strict "comes before" derived from a sort key: irreflexive and transitive. */
  ghost predicate StrictOrder<T(!new)>(lt: (T, T) -> bool) {
    && (forall a :: !lt(a, a))
    && (forall a, b, c :: lt(a, b) && lt(b, c) ==> lt(a, c))
  }

  /**
    A strict order in which "neither before nor after" is an equivalence, as
    comparing by a key gives: whatever lies between two ordered elements is
    after the first or before the second.
  */
  ghost predicate StrictWeakOrder<T(!new)>(lt: (T, T) -> bool) {
    && StrictOrder(lt)
    && (forall a, b, c :: lt(a, c) ==> lt(a, b) || lt(b, c))
  }

  /** No element is strictly before an element to its left. */
  ghost predicate SortedBy<T>(s: seq<T>, lt: (T, T) -> bool) {
    forall i, j | 0 <= i < j < |s| :: !lt(s[j], s[i])
  }

  function Insert<T(==)>(x: T, r: seq<T>, lt: (T, T) -> bool): (q: seq<T>)
    ensures |q| == |r| + 1
    ensures multiset(q) == multiset(r) + multiset{x}
  {
    if r == [] then [x]
    else if lt(x, r[0]) then [x] + r
    else
      assert r == [r[0]] + r[1..];
      [r[0]] + Insert(x, r[1..], lt)
  }

  function SortBy<T(==)>(s: seq<T>, lt: (T, T) -> bool): (r: seq<T>)
    ensures |r| == |s|
    ensures multiset(r) == multiset(s)
  {
    if s == [] then []
    else
      assert s == s[..|s| - 1] + [s[|s| - 1]];
      Insert(s[|s| - 1], SortBy(s[..|s| - 1], lt), lt)
  }

  lemma {:induction false} InsertSorted<T(!new)>(x: T, r: seq<T>, lt: (T, T) -> bool)
    requires StrictOrder(lt) && SortedBy(r, lt)
    ensures SortedBy(Insert(x, r, lt), lt)
  {
    if r == [] || lt(x, r[0]) {
    } else {
      InsertSorted(x, r[1..], lt);
      var q := Insert(x, r[1..], lt);
      forall e | e in q ensures !lt(e, r[0]) {
        assert e in multiset(q);
        if e != x {
          assert e in r[1..];
        }
      }
    }
  }

  /** `sorted` yields an ordered permutation of its input. */
  lemma {:induction false} SortBySorted<T(!new)>(s: seq<T>, lt: (T, T) -> bool)
    requires StrictOrder(lt)
    ensures SortedBy(SortBy(s, lt), lt)
    ensures multiset(SortBy(s, lt)) == multiset(s)
  {
    if s != [] {
      SortBySorted(s[..|s| - 1], lt);
      InsertSorted(s[|s| - 1], SortBy(s[..|s| - 1], lt), lt);
    }
  }

  /** `a` and `b` have equal keys: neither comes before the other. */
  predicate Ties<T>(a: T, b: T, lt: (T, T) -> bool) {
    !lt(a, b) && !lt(b, a)
  }

  /** The elements of `s` whose key equals that of `x`, in their order in `s`. */
  function TiesWith<T>(s: seq<T>, x: T, lt: (T, T) -> bool): seq<T> {
    if s == [] then [] else (if Ties(s[0], x, lt) then [s[0]] else []) + TiesWith(s[1..], x, lt)
  }

  lemma {:induction false} TiesWithConcat<T>(a: seq<T>, b: seq<T>, x: T, lt: (T, T) -> bool)
    ensures TiesWith(a + b, x, lt) == TiesWith(a, x, lt) + TiesWith(b, x, lt)
  {
    if a != [] {
      assert (a + b)[0] == a[0] && (a + b)[1..] == a[1..] + b;
      TiesWithConcat(a[1..], b, x, lt);
    } else {
      assert a + b == b;
    }
  }

  /** A sorted sequence whose head comes after `y` holds nothing tying with `y`. */
  lemma {:induction false} NoTiesAfter<T(!new)>(y: T, r: seq<T>, x: T, lt: (T, T) -> bool)
    requires StrictWeakOrder(lt) && SortedBy(r, lt)
    requires r != [] && lt(y, r[0]) && Ties(y, x, lt)
    ensures TiesWith(r, x, lt) == []
  {
    assert lt(y, x) || lt(x, r[0]);
    if |r| > 1 {
      var head, next := r[0], r[1];
      assert lt(y, next) || lt(next, head);
      NoTiesAfter(y, r[1..], x, lt);
    }
  }

  /** Inserting `y` into a sorted sequence puts it after every element that ties with it. */
  lemma {:induction false} InsertKeepsTies<T(!new)>(y: T, r: seq<T>, x: T, lt: (T, T) -> bool)
    requires StrictWeakOrder(lt) && SortedBy(r, lt)
    ensures TiesWith(Insert(y, r, lt), x, lt) == TiesWith(r, x, lt) + if Ties(y, x, lt) then [y] else []
  {
    if r == [] {
      TiesWithSingle(y, x, lt);
    } else if lt(y, r[0]) {
      assert Insert(y, r, lt) == [y] + r;
      InsertAtHead(y, r, x, lt);
    } else {
      assert Insert(y, r, lt) == [r[0]] + Insert(y, r[1..], lt);
      InsertKeepsTies(y, r[1..], x, lt);
      assert r == [r[0]] + r[1..];
      PrependTies([r[0]], Insert(y, r[1..], lt), r[1..], if Ties(y, x, lt) then [y] else [], x, lt);
    }
  }

  lemma InsertAtHead<T(!new)>(y: T, r: seq<T>, x: T, lt: (T, T) -> bool)
    requires StrictWeakOrder(lt) && SortedBy(r, lt)
    requires r != [] && lt(y, r[0])
    ensures TiesWith([y] + r, x, lt) == TiesWith(r, x, lt) + if Ties(y, x, lt) then [y] else []
  {
    TiesWithConcat([y], r, x, lt);
    TiesWithSingle(y, x, lt);
    if Ties(y, x, lt) {
      NoTiesAfter(y, r, x, lt);
      assert [y] + [] == [] + [y];
    } else {
      assert [] + TiesWith(r, x, lt) == TiesWith(r, x, lt) + [];
    }
  }

  lemma TiesWithSingle<T>(y: T, x: T, lt: (T, T) -> bool)
    ensures TiesWith([y], x, lt) == if Ties(y, x, lt) then [y] else []
  {
    assert TiesWith([y], x, lt) == (if Ties(y, x, lt) then [y] else []) + TiesWith([], x, lt);
  }

  lemma PrependTies<T>(a: seq<T>, q: seq<T>, rest: seq<T>, tail: seq<T>, x: T, lt: (T, T) -> bool)
    requires TiesWith(q, x, lt) == TiesWith(rest, x, lt) + tail
    ensures TiesWith(a + q, x, lt) == TiesWith(a + rest, x, lt) + tail
  {
    TiesWithConcat(a, q, x, lt);
    TiesWithConcat(a, rest, x, lt);
    AppendAssoc(TiesWith(a, x, lt), TiesWith(rest, x, lt), tail);
  }

  lemma AppendAssoc<T>(a: seq<T>, b: seq<T>, c: seq<T>)
    ensures a + (b + c) == (a + b) + c
  {
  }

  /** `sorted` is stable: the elements with equal keys keep their input order. */
  lemma {:induction false} SortByStable<T(!new)>(s: seq<T>, x: T, lt: (T, T) -> bool)
    requires StrictWeakOrder(lt)
    ensures TiesWith(SortBy(s, lt), x, lt) == TiesWith(s, x, lt)
  {
    if s != [] {
      var init := s[..|s| - 1];
      var last := s[|s| - 1];
      assert s == init + [last];
      TiesWithSingle(last, x, lt);
      TiesWithConcat(init, [last], x, lt);
      SortByStable(init, x, lt);
      SortBySorted(init, lt);
      InsertKeepsTies(last, SortBy(init, lt), x, lt);
    }
  }
}
